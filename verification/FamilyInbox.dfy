/** Per-member presence and the durable inbox (`FamilyState`). */
module FamilyInbox {
  import opened Wrappers

  type MemberId = string
  type MsgId = string
  type Time = string

  const PRESENCE_STATES: set<string> := {"awake", "busy", "waking", "asleep"}

  datatype FamilyError = UnknownMember | InvalidPresence

  datatype Status = Queued | Answered

  /** What the sender put into custody. */
  datatype Letter = Letter(msgId: MsgId, memberId: MemberId, person: string, prompt: string,
                           system: Option<string>, maxTokens: int, temperature: Option<real>, queuedAt: Time)

  datatype Reply = Reply(text: string, model: string, sessionId: string, turnIdx: Option<nat>, memoryWritten: bool)

  /** One inbox record. */
  datatype Message = Message(letter: Letter, status: Status, result: Option<Reply>, answeredAt: Option<Time>)

  /** A member's inbox: a dict in insertion order, which is the drain order. */
  type Inbox = seq<Message>

  datatype SleepLog = SleepLog(lastAsleepAt: Option<Time>, lastAwakeAt: Option<Time>)

  /** The store file. `Unusable` is unreadable text or a root that is not an object. */
  datatype StoreFile =
    | Absent
    | Unusable
    | V1(bare: map<MemberId, Inbox>)
    | V2(inbox: map<MemberId, Inbox>, log: map<MemberId, SleepLog>)

  datatype Family = Family(presence: map<MemberId, string>, inbox: map<MemberId, Inbox>,
                           log: map<MemberId, SleepLog>, file: StoreFile)
  {
    predicate Knows(m: MemberId) {
      m in presence && m in inbox && m in log
    }

    predicate Valid() {
      presence.Keys == inbox.Keys == log.Keys
    }
  }

  const NoLog: SleepLog := SleepLog(None, None)

  // ----- dict operations on one inbox ----------------------------------------

  function IndexOf(inbox: Inbox, id: MsgId): (r: Option<nat>)
    ensures r.Some? ==> r.value < |inbox| && inbox[r.value].letter.msgId == id
    ensures r.Some? ==> forall i :: 0 <= i < r.value ==> inbox[i].letter.msgId != id
    ensures r.None? ==> forall i :: 0 <= i < |inbox| ==> inbox[i].letter.msgId != id
  {
    if inbox == [] then None
    else if inbox[0].letter.msgId == id then Some(0)
    else match IndexOf(inbox[1..], id)
      case None => None
      case Some(i) => Some(i + 1)
  }

  /** `inbox[msg_id] = record`: a known key keeps its place, a new one goes last. */
  function Put(inbox: Inbox, msg: Message): Inbox {
    match IndexOf(inbox, msg.letter.msgId)
    case Some(i) => inbox[i := msg]
    case None => inbox + [msg]
  }

  /** The records still queued, in arrival order. */
  function QueuedOf(inbox: Inbox): (r: Inbox)
    ensures forall m :: m in r ==> m in inbox && m.status == Queued
  {
    if inbox == [] then []
    else (if inbox[0].status == Queued then [inbox[0]] else []) + QueuedOf(inbox[1..])
  }

  function AnsweredMessage(m: Message, reply: Reply, now: Time): Message {
    m.(status := Answered, result := Some(reply), answeredAt := Some(now))
  }

  // ----- what each operation does to the state -------------------------------

  /** The inbox a registered member gets from the file at boot. */
  function LoadedInbox(file: StoreFile, m: MemberId): Inbox {
    match file
    case V1(bare) => if m in bare then bare[m] else []
    case V2(inbox, _) => if m in inbox then inbox[m] else []
    case _ => []
  }

  function LoadedLog(file: StoreFile, m: MemberId): SleepLog {
    if file.V2? && m in file.log then file.log[m] else NoLog
  }

  function Booted(members: set<MemberId>, defaultPresence: string, file: StoreFile): (f: Family)
    ensures f.Valid() && f.presence.Keys == members && f.file == file
  {
    Family(map m | m in members :: defaultPresence,
           map m | m in members :: LoadedInbox(file, m),
           map m | m in members :: LoadedLog(file, m),
           file)
  }

  /** A flush writes the loaded members and nothing else; a failed one leaves the old file. */
  function Flushed(f: Family, ok: bool): Family {
    if ok then f.(file := V2(f.inbox, f.log)) else f
  }

  function WithPresence(f: Family, m: MemberId, state: string, now: Time, ok: bool): Family
    requires f.Knows(m)
  {
    var log := if state == "asleep" then f.log[m].(lastAsleepAt := Some(now))
               else if state == "awake" then f.log[m].(lastAwakeAt := Some(now))
               else f.log[m];
    Flushed(f.(presence := f.presence[m := state], log := f.log[m := log]), ok)
  }

  function WithLetter(f: Family, m: MemberId, letter: Letter, ok: bool): Family
    requires f.Knows(m)
  {
    Flushed(f.(inbox := f.inbox[m := Put(f.inbox[m], Message(letter, Queued, None, None))]), ok)
  }

  function WithAnswer(f: Family, m: MemberId, id: MsgId, reply: Reply, now: Time, ok: bool): Family
    requires f.Knows(m)
  {
    match IndexOf(f.inbox[m], id)
    case None => f
    case Some(i) =>
      var box := f.inbox[m];
      Flushed(f.(inbox := f.inbox[m := box[i := AnsweredMessage(box[i], reply, now)]]), ok)
  }

  // ----- what that comes to -----------------------------------------------------

  /** A presence change is stored for that member alone, stamps its sleep or wake edge, and leaves the
      inboxes be. */
  lemma PresenceIsStored(f: Family, m: MemberId, state: string, now: Time, ok: bool)
    requires f.Valid() && f.Knows(m)
    ensures var g := WithPresence(f, m, state, now, ok);
            && g.Valid() && g.presence.Keys == f.presence.Keys && g.inbox == f.inbox
            && g.presence[m] == state
            && g.log[m] == SleepLog(if state == "asleep" then Some(now) else f.log[m].lastAsleepAt,
                                    if state == "awake" then Some(now) else f.log[m].lastAwakeAt)
            && (forall n :: n in f.presence && n != m ==> g.presence[n] == f.presence[n] && g.log[n] == f.log[n])
            && g.file == if ok then V2(g.inbox, g.log) else f.file
  {
  }

  /** A letter with a new id goes last in its member's inbox, queued and unanswered. */
  lemma LetterGoesLast(f: Family, m: MemberId, letter: Letter, ok: bool)
    requires f.Knows(m) && forall i :: 0 <= i < |f.inbox[m]| ==> f.inbox[m][i].letter.msgId != letter.msgId
    ensures var g := WithLetter(f, m, letter, ok);
            && g.inbox == f.inbox[m := f.inbox[m] + [Message(letter, Queued, None, None)]]
            && g.presence == f.presence && g.log == f.log
            && g.file == if ok then V2(g.inbox, g.log) else f.file
  {
  }

  /** An answer goes to the message of that id, and to nothing else. */
  lemma AnswerGoesToLetter(f: Family, m: MemberId, i: nat, reply: Reply, now: Time, ok: bool)
    requires f.Knows(m) && UniqueIds(f.inbox[m]) && i < |f.inbox[m]|
    ensures var letter := f.inbox[m][i].letter;
            var g := WithAnswer(f, m, letter.msgId, reply, now, ok);
            && g.inbox == f.inbox[m := f.inbox[m][i := Message(letter, Answered, Some(reply), Some(now))]]
            && g.presence == f.presence && g.log == f.log
            && g.file == if ok then V2(g.inbox, g.log) else f.file
  {
  }

  lemma NoLetterNoAnswer(f: Family, m: MemberId, id: MsgId, reply: Reply, now: Time, ok: bool)
    requires f.Knows(m) && forall i :: 0 <= i < |f.inbox[m]| ==> f.inbox[m][i].letter.msgId != id
    ensures WithAnswer(f, m, id, reply, now, ok) == f
  {
  }

  /** The snapshot holds exactly the messages without an answer, each as often as the inbox. */
  lemma {:induction false} QueuedAreUnanswered(inbox: Inbox, message: Message)
    ensures multiset(QueuedOf(inbox))[message] == if message.status == Queued then multiset(inbox)[message] else 0
  {
    if inbox != [] {
      QueuedAreUnanswered(inbox[1..], message);
      assert inbox == [inbox[0]] + inbox[1..];
    }
  }

  /** What a flush wrote, the next boot reads back: inbox and edges of every member still registered.
      New members start empty, and everybody starts with the default presence. */
  lemma FlushThenBoot(f: Family, members: set<MemberId>, defaultPresence: string, m: MemberId)
    requires f.Valid() && m in members
    ensures var g := Booted(members, defaultPresence, Flushed(f, true).file);
            && g.presence[m] == defaultPresence
            && (m in f.presence ==> g.inbox[m] == f.inbox[m] && g.log[m] == f.log[m])
            && (m !in f.presence ==> g.inbox[m] == [] && g.log[m] == SleepLog(None, None))
  {
  }

  /** Files of the first format hold inboxes only; without a usable file everything is empty. */
  lemma BootFromOther(members: set<MemberId>, defaultPresence: string, file: StoreFile, m: MemberId)
    requires m in members && !file.V2?
    ensures var g := Booted(members, defaultPresence, file);
            && g.presence[m] == defaultPresence && g.log[m] == SleepLog(None, None)
            && g.inbox[m] == if file.V1? && m in file.bare then file.bare[m] else []
  {
  }

  /** Walk the file's entries and take over those whose member is registered. */
  method Merge<V>(own: map<MemberId, V>, raw: map<MemberId, V>) returns (merged: map<MemberId, V>)
    ensures merged == map m | m in own :: if m in raw then raw[m] else own[m]
  {
    merged := own;
    var todo := raw.Keys;
    while todo != {}
      invariant todo <= raw.Keys && merged.Keys == own.Keys
      invariant forall m :: m in own ==> merged[m] == if m in raw && m !in todo then raw[m] else own[m]
    {
      var m :| m in todo;
      if m in merged {
        merged := merged[m := raw[m]];
      }
      todo := todo - {m};
    }
  }

  // ----- the store itself ------------------------------------------------------

  /** Thread-safe store: the lock makes each method one atomic step. `flushOk` says whether the
      operating system let this call's flush through. */
  class FamilyState {
    var presence: map<MemberId, string>
    var inbox: map<MemberId, Inbox>
    var presenceLog: map<MemberId, SleepLog>
    var file: StoreFile

    ghost function Model(): Family
      reads this
    {
      Family(presence, inbox, presenceLog, file)
    }

    ghost predicate Valid()
      reads this
    {
      Model().Valid()
    }

    /** Boot from whatever the store path holds. */
    constructor (members: set<MemberId>, defaultPresence: string, storeFile: StoreFile)
      requires defaultPresence in PRESENCE_STATES
      ensures Valid() && Model() == Booted(members, defaultPresence, storeFile)
    {
      presence := map m | m in members :: defaultPresence;
      inbox := map m | m in members :: [];
      presenceLog := map m | m in members :: NoLog;
      file := storeFile;
      new;
      Load();
      assert inbox == map m | m in members :: LoadedInbox(storeFile, m);
      assert presenceLog == map m | m in members :: LoadedLog(storeFile, m);
    }

    /** Copy the file's entries of registered members into the empty store. */
    method Load()
      requires Valid() && forall m :: m in inbox ==> inbox[m] == [] && presenceLog[m] == NoLog
      modifies this`inbox, this`presenceLog
      ensures inbox == map m | m in old(inbox) :: LoadedInbox(file, m)
      ensures presenceLog == map m | m in old(presenceLog) :: LoadedLog(file, m)
    {
      if file.Absent? || file.Unusable? {
        return;
      }
      var inboxRaw := if file.V2? then file.inbox else file.bare;
      var presenceRaw: map<MemberId, SleepLog> := if file.V2? then file.log else map[];
      inbox := Merge(inbox, inboxRaw);
      presenceLog := Merge(presenceLog, presenceRaw);
    }

    method Flush(ok: bool)
      modifies this`file
      ensures Model() == Flushed(old(Model()), ok)
    {
      if ok {
        file := V2(inbox, presenceLog);
      }
    }

    method SetPresence(m: MemberId, state: string, now: Time, flushOk: bool) returns (r: Result<(), FamilyError>)
      requires Valid()
      modifies this
      ensures Valid()
      ensures r == if m !in old(presence) then Err(UnknownMember)
                   else if state !in PRESENCE_STATES then Err(InvalidPresence)
                   else Ok(())
      ensures r.Err? ==> Model() == old(Model())
      ensures r.Ok? ==> Model() == WithPresence(old(Model()), m, state, now, flushOk)
      ensures r.Ok? <==> m in old(presence) && state in {"awake", "busy", "waking", "asleep"}
      ensures r.Ok? ==> presence == old(presence)[m := state] && inbox == old(inbox)
    {
      if m !in presence {
        return Err(UnknownMember);
      }
      if state !in PRESENCE_STATES {
        return Err(InvalidPresence);
      }
      presence := presence[m := state];
      if state == "asleep" {
        presenceLog := presenceLog[m := presenceLog[m].(lastAsleepAt := Some(now))];
      } else if state == "awake" {
        presenceLog := presenceLog[m := presenceLog[m].(lastAwakeAt := Some(now))];
      }
      assert state !in {"asleep", "awake"} ==> presenceLog[m := presenceLog[m]] == presenceLog;
      Flush(flushOk);
      r := Ok(());
    }

    method Enqueue(m: MemberId, letter: Letter, flushOk: bool) returns (r: Result<MsgId, FamilyError>)
      requires Valid()
      modifies this
      ensures Valid()
      ensures r == if m in old(presence) then Ok(letter.msgId) else Err(UnknownMember)
      ensures r.Err? ==> Model() == old(Model())
      ensures r.Ok? ==> Model() == WithLetter(old(Model()), m, letter, flushOk)
      ensures r.Ok? ==> presence == old(presence) && presenceLog == old(presenceLog)
      ensures r.Ok? && IndexOf(old(inbox)[m], letter.msgId).None? ==>
                inbox == old(inbox)[m := old(inbox)[m] + [Message(letter, Queued, None, None)]]
    {
      if m !in presence {
        return Err(UnknownMember);
      }
      inbox := inbox[m := Put(inbox[m], Message(letter, Queued, None, None))];
      Flush(flushOk);
      r := Ok(letter.msgId);
    }

    method QueuedMessages(m: MemberId) returns (r: Result<Inbox, FamilyError>)
      requires Valid()
      ensures r == if m in presence then Ok(QueuedOf(inbox[m])) else Err(UnknownMember)
    {
      r := if m in presence then Ok(QueuedOf(inbox[m])) else Err(UnknownMember);
    }

    method CompleteMessage(m: MemberId, id: MsgId, reply: Reply, now: Time, flushOk: bool)
      returns (r: Result<(), FamilyError>)
      requires Valid()
      modifies this
      ensures Valid()
      ensures r == if m in old(presence) then Ok(()) else Err(UnknownMember)
      ensures r.Err? ==> Model() == old(Model())
      ensures r.Ok? ==> Model() == WithAnswer(old(Model()), m, id, reply, now, flushOk)
    {
      if m !in presence {
        return Err(UnknownMember);
      }
      r := Ok(());
      match IndexOf(inbox[m], id) {
        case None =>
        case Some(i) =>
          var box := inbox[m];
          inbox := inbox[m := box[i := AnsweredMessage(box[i], reply, now)]];
          Flush(flushOk);
      }
    }
  }

  // ----- inbox shape -------------------------------------------------------------

  ghost predicate UniqueIds(inbox: Inbox) {
    forall i, j :: 0 <= i < j < |inbox| ==> inbox[i].letter.msgId != inbox[j].letter.msgId
  }

  /** The first `k` messages, and no others, have been answered. */
  ghost predicate AnsweredUpTo(inbox: Inbox, k: nat) {
    k <= |inbox| && forall i :: 0 <= i < |inbox| ==> (inbox[i].status == Answered <==> i < k)
  }

  /** Every message arrived under its own id, and the answered ones come first. */
  ghost predicate InOrder(inbox: Inbox) {
    UniqueIds(inbox) && exists k: nat :: AnsweredUpTo(inbox, k)
  }

  /** `after` is `before` later on: same letters in the same places, none unanswered again. */
  ghost predicate Progress(before: Inbox, after: Inbox) {
    && |before| <= |after|
    && forall i :: 0 <= i < |before| ==> Advanced(before[i], after[i])
  }

  predicate Advanced(before: Message, after: Message) {
    after.letter == before.letter && (before.status == Answered ==> after.status == Answered)
  }

  /** As `Progress`, and an answer once given is never replaced. */
  ghost predicate FinalProgress(before: Inbox, after: Inbox) {
    && Progress(before, after)
    && forall i :: 0 <= i < |before| && before[i].status == Answered ==> after[i] == before[i]
  }

  lemma IndexOfUnique(inbox: Inbox, i: nat)
    requires UniqueIds(inbox) && i < |inbox|
    ensures IndexOf(inbox, inbox[i].letter.msgId) == Some(i)
  {
  }

  /** A drain's snapshot is the unanswered tail of the inbox. */
  lemma {:induction false} QueuedIsTail(inbox: Inbox, k: nat)
    requires AnsweredUpTo(inbox, k)
    ensures QueuedOf(inbox) == inbox[k..]
  {
    if inbox != [] {
      if k > 0 {
        QueuedIsTail(inbox[1..], k - 1);
        assert inbox[1..][k - 1..] == inbox[k..];
      } else {
        QueuedIsTail(inbox[1..], 0);
        assert inbox[1..][0..] == inbox[1..];
        assert inbox == [inbox[0]] + inbox[1..];
      }
    }
  }

  /** A fresh letter goes to the end and keeps the order. */
  lemma EnqueueKeepsOrder(inbox: Inbox, letter: Letter)
    requires InOrder(inbox) && IndexOf(inbox, letter.msgId).None?
    ensures var after := Put(inbox, Message(letter, Queued, None, None));
            InOrder(after) && FinalProgress(inbox, after) && after[..|inbox|] == inbox
  {
    var after := Put(inbox, Message(letter, Queued, None, None));
    var k: nat :| AnsweredUpTo(inbox, k);
    assert AnsweredUpTo(after, k);
  }

  /** Answering a message whose elders are all answered keeps the order, and the answers given so
      far exactly when the message was still queued (or the record stays the same). */
  lemma AnswerKeepsOrder(inbox: Inbox, i: nat, reply: Reply, now: Time)
    requires InOrder(inbox) && i < |inbox|
    requires forall j :: 0 <= j < i ==> inbox[j].status == Answered
    ensures var after := inbox[i := AnsweredMessage(inbox[i], reply, now)];
            && InOrder(after) && Progress(inbox, after)
            && (FinalProgress(inbox, after) <==> inbox[i].status == Queued || after == inbox)
  {
    var after := inbox[i := AnsweredMessage(inbox[i], reply, now)];
    var k: nat :| AnsweredUpTo(inbox, k);
    assert i > 0 ==> inbox[i - 1].status == Answered;
    assert AnsweredUpTo(after, if i == k then k + 1 else k);
  }
}
