/** Turn counters over whole runs: the durable counter, the runtime counter and the memory agree. */
module HubTurns {
  import opened FamilyInbox
  import opened Brainstem
  import opened HubRuns
  import opened HubSessions

  // ----- the writes of one session -----------------------------------------------

  /** Turn indices the memory accepted for session `sid`, in order. */
  function Indices(written: seq<MemoryWrite>, sid: string): seq<nat> {
    if written == [] then []
    else
      var last := written[|written| - 1];
      Indices(written[..|written| - 1], sid) + if last.sessionId == sid then [last.turnIdx] else []
  }

  function UpTo(k: nat): seq<nat> {
    if k == 0 then [] else UpTo(k - 1) + [k - 1]
  }

  lemma IndicesAppend(written: seq<MemoryWrite>, w: MemoryWrite, sid: string)
    ensures Indices(written + [w], sid) == Indices(written, sid) + if w.sessionId == sid then [w.turnIdx] else []
  {
    assert (written + [w])[..|written|] == written;
  }

  lemma {:induction false} SomeWrite(written: seq<MemoryWrite>, sid: string)
    requires Indices(written, sid) != []
    ensures exists i :: 0 <= i < |written| && written[i].sessionId == sid
  {
    var n := |written| - 1;
    if written[n].sessionId != sid {
      SomeWrite(written[..n], sid);
      var i :| 0 <= i < n && written[..n][i].sessionId == sid;
      assert written[i].sessionId == sid;
    }
  }

  lemma {:induction false} UpToLength(k: nat)
    ensures |UpTo(k)| == k
  {
    if k > 0 {
      UpToLength(k - 1);
    }
  }

  predicate Unused(h: Hub, sid: string) {
    && (forall key :: key in h.sessions.entries ==> h.sessions.entries[key].sessionId != sid)
    && sid !in h.counters
    && (forall i :: 0 <= i < |h.written| ==> h.written[i].sessionId != sid)
  }

  lemma {:induction false} UnusedIndices(written: seq<MemoryWrite>, sid: string)
    requires forall i :: 0 <= i < |written| ==> written[i].sessionId != sid
    ensures Indices(written, sid) == []
  {
    if written != [] {
      UnusedIndices(written[..|written| - 1], sid);
    }
  }

  lemma {:induction false} IndicesNonEmpty(written: seq<MemoryWrite>, i: nat)
    requires i < |written|
    ensures Indices(written, written[i].sessionId) != []
  {
    var n := |written| - 1;
    if i < n {
      IndicesNonEmpty(written[..n], i);
    }
  }

  // ----- the invariant --------------------------------------------------------------

  /** What the session store would hold after a restart. */
  function Durable(h: Hub): SessionMap {
    HubSessions.Loaded(h.sessions.file).entries
  }

  /** One session's books: indices 0..k-1 written, k in the store, k at run time once seeded. */
  ghost predicate Balanced(h: Hub, e: Session) {
    && Indices(h.written, e.sessionId) == UpTo(e.turnIdx)
    && (e.sessionId in h.counters ==> h.counters[e.sessionId] == e.turnIdx)
  }

  ghost predicate DistinctIds(entries: SessionMap) {
    forall a, b :: a in entries && b in entries && a != b ==> entries[a].sessionId != entries[b].sessionId
  }

  /** The file knows no session that memory does not. */
  ghost predicate FileBehind(h: Hub) {
    forall key :: key in Durable(h) ==>
      key in h.sessions.entries && h.sessions.entries[key].sessionId == Durable(h)[key].sessionId
  }

  /** The file lags memory only by sessions that never wrote anything. */
  ghost predicate FileAgrees(h: Hub) {
    forall key :: (key in Durable(h) ==> key in h.sessions.entries && h.sessions.entries[key] == Durable(h)[key])
               && (key in h.sessions.entries && key !in Durable(h) ==> h.sessions.entries[key].turnIdx == 0)
  }

  predicate Owned(h: Hub, w: MemoryWrite) {
    Key(w.person, w.memberId) in h.sessions.entries && SessionOf(h, w.person, w.memberId) == w.sessionId
  }

  /** Every session's books balance, and each write belongs to its session. */
  ghost predicate Books(h: Hub) {
    && DistinctIds(h.sessions.entries)
    && (forall key :: key in h.sessions.entries ==> Balanced(h, h.sessions.entries[key]))
    && FileBehind(h)
    && (forall i :: 0 <= i < |h.written| ==> Owned(h, h.written[i]))
  }

  // ----- a turn keeps it ------------------------------------------------------------

  lemma MintKeepsInv(h: Hub, person: string, m: MemberId, io: TurnIo)
    requires Books(h) && Unused(h, io.freshId)
    ensures Books(h.(sessions := Minted(h.sessions, person, m, io.freshId, io.mintOk)))
  {
    var key := Key(person, m);
    if key !in h.sessions.entries {
      var g := h.(sessions := Minted(h.sessions, person, m, io.freshId, io.mintOk));
      UnusedIndices(h.written, io.freshId);
      assert UpTo(0) == [];
      forall k | k in g.sessions.entries
        ensures Balanced(g, g.sessions.entries[k])
      {
        if k != key {
          assert Balanced(h, h.sessions.entries[k]);
        }
      }
      forall i | 0 <= i < |g.written|
        ensures Owned(g, g.written[i])
      {
        assert Owned(h, h.written[i]);
      }
    }
  }

  lemma SeedKeepsInv(h: Hub, person: string, m: MemberId, io: TurnIo)
    requires Books(h) && Unused(h, io.freshId)
    ensures Books(Seeded(h, person, m, io))
    ensures !MintRaises(h, person, m, io) ==>
              Key(person, m) in Seeded(h, person, m, io).sessions.entries
              && SessionOf(Seeded(h, person, m, io), person, m) in Seeded(h, person, m, io).counters
  {
    var minted := h.(sessions := Minted(h.sessions, person, m, io.freshId, io.mintOk));
    MintKeepsInv(h, person, m, io);
    var s := Seeded(h, person, m, io);
    forall k | k in s.sessions.entries
      ensures Balanced(s, s.sessions.entries[k])
    {
      assert Balanced(minted, minted.sessions.entries[k]);
    }
    forall i | 0 <= i < |s.written|
      ensures Owned(s, s.written[i])
    {
      assert Owned(minted, minted.written[i]);
    }
  }

  /** State after the cortex answered: the write, if it worked, then the durable counter. */
  function Finished(s: Hub, person: string, m: MemberId, prompt: string, text: string, memoryOk: bool, recordOk: bool): Hub
    requires Key(person, m) in s.sessions.entries && SessionOf(s, person, m) in s.counters
  {
    var sid := SessionOf(s, person, m);
    var w := Remembered(s, sid, person, m, prompt, text, memoryOk);
    w.(sessions := Recorded(w.sessions, person, m, w.counters[sid], recordOk))
  }

  lemma FinishShape(s: Hub, person: string, m: MemberId, prompt: string, text: string, memoryOk: bool, recordOk: bool)
    requires Key(person, m) in s.sessions.entries && SessionOf(s, person, m) in s.counters
    ensures var t, key, sid := Finished(s, person, m, prompt, text, memoryOk, recordOk), Key(person, m), SessionOf(s, person, m);
            var c := s.counters[sid];
            && t.sessions.entries == s.sessions.entries[key := Session(sid, if memoryOk then c + 1 else c)]
            && t.sessions.file == (if recordOk then Saved(t.sessions.entries) else s.sessions.file)
            && t.counters == (if memoryOk then s.counters[sid := c + 1] else s.counters)
            && t.written == (if memoryOk then s.written + [MemoryWrite(sid, c, person, m, prompt, text)] else s.written)
  {
  }

  lemma FinishBalanced(s: Hub, person: string, m: MemberId, prompt: string, text: string, memoryOk: bool, recordOk: bool,
                       n: string)
    requires Books(s) && Key(person, m) in s.sessions.entries && SessionOf(s, person, m) in s.counters
    requires n in s.sessions.entries
    ensures var t := Finished(s, person, m, prompt, text, memoryOk, recordOk);
            n in t.sessions.entries && Balanced(t, t.sessions.entries[n])
  {
    hide Finished, FileBehind, Owned;
    FinishShape(s, person, m, prompt, text, memoryOk, recordOk);
    assert Balanced(s, s.sessions.entries[n]) && Balanced(s, s.sessions.entries[Key(person, m)]);
    if memoryOk {
      var sid := SessionOf(s, person, m);
      IndicesAppend(s.written, MemoryWrite(sid, s.counters[sid], person, m, prompt, text),
                    s.sessions.entries[n].sessionId);
    }
  }

  lemma FinishKeepsInv(s: Hub, person: string, m: MemberId, prompt: string, text: string, memoryOk: bool, recordOk: bool)
    requires Books(s) && Key(person, m) in s.sessions.entries && SessionOf(s, person, m) in s.counters
    ensures Books(Finished(s, person, m, prompt, text, memoryOk, recordOk))
  {
    hide Finished, Balanced;
    FinishShape(s, person, m, prompt, text, memoryOk, recordOk);
    var t := Finished(s, person, m, prompt, text, memoryOk, recordOk);
    forall n | n in t.sessions.entries
      ensures Balanced(t, t.sessions.entries[n])
    {
      FinishBalanced(s, person, m, prompt, text, memoryOk, recordOk, n);
    }
    forall i | 0 <= i < |t.written|
      ensures Owned(t, t.written[i])
    {
      if i < |s.written| {
        assert Owned(s, s.written[i]);
      }
    }
  }

  /** A turn keeps the books balanced, whatever fails in it. */
  lemma TurnKeepsBooks(h: Hub, person: string, m: MemberId, prompt: string, io: TurnIo)
    requires Books(h) && Unused(h, io.freshId)
    ensures Books(TurnState(h, person, m, prompt, io))
  {
    hide Books, Seeded;
    SeedKeepsInv(h, person, m, io);
    var s := Seeded(h, person, m, io);
    if !MintRaises(h, person, m, io) && io.cortex.Some? {
      FinishKeepsInv(s, person, m, prompt, io.cortex.value.text, io.memoryOk, io.recordOk);
    }
  }

  // ----- restarts -------------------------------------------------------------------

  lemma RebootedBooks(h: Hub, members: set<MemberId>, presence: string)
    requires Books(h) && FileAgrees(h)
    ensures Books(Rebooted(h, members, presence))
  {
    var r := Rebooted(h, members, presence);
    forall key | key in r.sessions.entries
      ensures key in h.sessions.entries && h.sessions.entries[key] == r.sessions.entries[key]
      ensures Balanced(r, r.sessions.entries[key])
    {
      assert Balanced(h, h.sessions.entries[key]);
    }
    forall i | 0 <= i < |r.written|
      ensures Owned(r, r.written[i])
    {
      var w := h.written[i];
      assert Owned(h, w);
      var key := Key(w.person, w.memberId);
      assert Balanced(h, h.sessions.entries[key]);
      IndicesNonEmpty(h.written, i);
      assert key in Durable(h);
    }
  }

  /** What the file says about a session is what memory says, if the books balance after a restart. */
  lemma SavedEntryAgrees(h: Hub, members: set<MemberId>, presence: string, key: string)
    requires Books(h) && Books(Rebooted(h, members, presence)) && key in Durable(h)
    ensures key in h.sessions.entries && h.sessions.entries[key] == Durable(h)[key]
  {
    var r := Rebooted(h, members, presence);
    assert Balanced(h, h.sessions.entries[key]) && Balanced(r, r.sessions.entries[key]);
    UpToLength(h.sessions.entries[key].turnIdx);
    UpToLength(Durable(h)[key].turnIdx);
  }

  lemma BooksBalanced(h: Hub, key: string)
    requires Books(h) && key in h.sessions.entries
    ensures Balanced(h, h.sessions.entries[key])
  {
  }

  lemma WriterIsSaved(h: Hub, members: set<MemberId>, presence: string, i: nat, key: string)
    requires Books(h) && Books(Rebooted(h, members, presence)) && i < |h.written|
    requires key in h.sessions.entries && h.sessions.entries[key].sessionId == h.written[i].sessionId
    ensures key in Durable(h)
  {
    var r := Rebooted(h, members, presence);
    assert Owned(r, r.written[i]) && Owned(h, h.written[i]);
  }

  /** A session the file does not know has written nothing, if every write is owned after a restart. */
  lemma UnsavedEntryIsNew(h: Hub, members: set<MemberId>, presence: string, key: string)
    requires Books(h) && Books(Rebooted(h, members, presence))
    requires key in h.sessions.entries && key !in Durable(h)
    ensures h.sessions.entries[key].turnIdx == 0
  {
    hide Books;
    var e := h.sessions.entries[key];
    assert Balanced(h, e) by {
      BooksBalanced(h, key);
    }
    UpToLength(e.turnIdx);
    if e.turnIdx > 0 {
      SomeWrite(h.written, e.sessionId);
      var i :| 0 <= i < |h.written| && h.written[i].sessionId == e.sessionId;
      WriterIsSaved(h, members, presence, i, key);
      assert false;
    }
  }

  /** Whatever happened before, a restart finds the books balanced exactly when the session file
      is up to date with every session that has written. */
  lemma RebootKeepsBooks(h: Hub, members: set<MemberId>, presence: string)
    requires Books(h)
    ensures Books(Rebooted(h, members, presence)) <==> FileAgrees(h)
    ensures FileAgrees(Rebooted(h, members, presence))
  {
    hide Books;
    if FileAgrees(h) {
      RebootedBooks(h, members, presence);
    }
    if Books(Rebooted(h, members, presence)) {
      forall key | key in Durable(h)
        ensures key in h.sessions.entries && h.sessions.entries[key] == Durable(h)[key]
      {
        SavedEntryAgrees(h, members, presence, key);
      }
      forall key | key in h.sessions.entries && key !in Durable(h)
        ensures h.sessions.entries[key].turnIdx == 0
      {
        UnsavedEntryIsNew(h, members, presence, key);
      }
    }
  }

  /** The turn reaches the memory service and is accepted. */
  predicate TurnWrites(h: Hub, person: string, m: MemberId, io: TurnIo) {
    !MintRaises(h, person, m, io) && io.cortex.Some? && io.memoryOk
  }

  lemma SeedKeepsFile(h: Hub, person: string, m: MemberId, io: TurnIo)
    requires FileAgrees(h)
    ensures FileAgrees(Seeded(h, person, m, io))
    ensures Seeded(h, person, m, io).written == h.written
  {
  }

  /** After a turn the file is up to date exactly when the turn's counter reached it, or the turn
      wrote nothing. */
  lemma TurnFileIff(h: Hub, person: string, m: MemberId, prompt: string, io: TurnIo)
    requires Books(h) && FileAgrees(h) && Unused(h, io.freshId)
    ensures FileAgrees(TurnState(h, person, m, prompt, io)) <==> io.recordOk || !TurnWrites(h, person, m, io)
  {
    hide Books, Seeded;
    SeedKeepsInv(h, person, m, io);
    SeedKeepsFile(h, person, m, io);
    var s := Seeded(h, person, m, io);
    if !MintRaises(h, person, m, io) && io.cortex.Some? {
      FinishFileIff(s, person, m, prompt, io.cortex.value.text, io.memoryOk, io.recordOk);
    }
  }

  lemma FinishFileIff(s: Hub, person: string, m: MemberId, prompt: string, text: string, memoryOk: bool, recordOk: bool)
    requires Books(s) && FileAgrees(s)
    requires Key(person, m) in s.sessions.entries && SessionOf(s, person, m) in s.counters
    ensures FileAgrees(Finished(s, person, m, prompt, text, memoryOk, recordOk)) <==> recordOk || !memoryOk
  {
    hide Finished;
    var t, key := Finished(s, person, m, prompt, text, memoryOk, recordOk), Key(person, m);
    FinishShape(s, person, m, prompt, text, memoryOk, recordOk);
    assert Balanced(s, s.sessions.entries[key]);
    if !recordOk && memoryOk {
      assert Durable(t) == Durable(s);
      assert t.sessions.entries[key].turnIdx == s.sessions.entries[key].turnIdx + 1;
    }
    if !recordOk && !memoryOk {
      assert t.sessions.entries == s.sessions.entries;
    }
  }

  /** Exactly when a restart after a turn forgets it: the memory service accepted the turn and the
      flush of its durable counter failed. */
  lemma RestartAfterTurnIff(h: Hub, person: string, m: MemberId, prompt: string, io: TurnIo,
                            members: set<MemberId>, presence: string)
    requires Books(h) && FileAgrees(h) && Unused(h, io.freshId)
    ensures Books(Rebooted(TurnState(h, person, m, prompt, io), members, presence))
       <==> io.recordOk || !TurnWrites(h, person, m, io)
  {
    TurnKeepsBooks(h, person, m, prompt, io);
    TurnFileIff(h, person, m, prompt, io);
    RebootKeepsBooks(TurnState(h, person, m, prompt, io), members, presence);
  }

  // ----- whole runs -------------------------------------------------------------------

  /** Turns get unused session ids when they mint, and a restart comes when the file is up to date. */
  ghost predicate GoodStep(h: Hub, step: Step) {
    match step
    case DrainTurn(_, io) => Unused(h, io.freshId)
    case Chat(_, _, _, io) => Unused(h, io.freshId)
    case Restart(_, _) => FileAgrees(h)
    case _ => true
  }

  ghost predicate GoodRun(s: System, steps: seq<Step>)
    decreases |steps|
  {
    steps != [] ==> GoodStep(s.hub, steps[0]) && GoodRun(Next(s, steps[0]), steps[1..])
  }

  lemma FamilyIrrelevant(g: Hub, h: Hub)
    requires h.sessions == g.sessions && h.counters == g.counters && h.written == g.written
    ensures Books(g) ==> Books(h)
    ensures FileAgrees(g) ==> FileAgrees(h)
  {
    if Books(g) {
      forall key | key in h.sessions.entries
        ensures Balanced(h, h.sessions.entries[key])
      {
        assert Balanced(g, g.sessions.entries[key]);
      }
      forall i | 0 <= i < |h.written|
        ensures Owned(h, h.written[i])
      {
        assert Owned(g, g.written[i]);
      }
    }
  }

  lemma StepKeepsBooks(s: System, step: Step)
    requires Books(s.hub) && GoodStep(s.hub, step)
    ensures Books(Next(s, step).hub)
  {
    hide Books, FileAgrees, Unused, TurnState, TurnReply, WithLetter, WithAnswer, WithPresence;
    match step
    case DrainTurn(id, io) =>
      if id in s.drains && s.drains[id].cursor < |s.drains[id].snapshot| {
        var d := s.drains[id];
        var letter := d.snapshot[d.cursor].letter;
        TurnKeepsBooks(s.hub, letter.person, d.member, letter.prompt, io);
      }
    case Chat(person, m, prompt, io) => TurnKeepsBooks(s.hub, person, m, prompt, io);
    case Restart(members, presence) => RebootKeepsBooks(s.hub, members, presence);
    case _ => FamilyIrrelevant(s.hub, Next(s, step).hub);
  }

  /** Whole runs of chats, drains and restarts keep every session's books balanced. */
  lemma {:induction false} RunKeepsBooks(s: System, steps: seq<Step>)
    requires Books(s.hub) && GoodRun(s, steps)
    ensures Books(Run(s, steps).hub)
    decreases |steps|
  {
    hide Books, GoodStep, Next;
    if steps != [] {
      StepKeepsBooks(s, steps[0]);
      RunKeepsBooks(Next(s, steps[0]), steps[1..]);
    }
  }

  ghost predicate AlwaysBooks(s: System, steps: seq<Step>)
    decreases |steps|
  {
    Books(s.hub) && (steps != [] ==> AlwaysBooks(Next(s, steps[0]), steps[1..]))
  }

  /** Turns get unused session ids when they mint. */
  predicate FreshSession(h: Hub, step: Step) {
    match step
    case DrainTurn(_, io) => Unused(h, io.freshId)
    case Chat(_, _, _, io) => Unused(h, io.freshId)
    case _ => true
  }

  ghost predicate FreshSessions(s: System, steps: seq<Step>)
    decreases |steps|
  {
    steps != [] ==> FreshSession(s.hub, steps[0]) && FreshSessions(Next(s, steps[0]), steps[1..])
  }

  lemma StepBooksIff(s: System, step: Step)
    requires Books(s.hub) && FreshSession(s.hub, step)
    ensures Books(Next(s, step).hub) <==> GoodStep(s.hub, step)
  {
    hide Books, FileAgrees, Unused, TurnState, TurnReply;
    if step.Restart? {
      RebootKeepsBooks(s.hub, step.members, step.defaultPresence);
    } else {
      StepKeepsBooks(s, step);
    }
  }

  /** Over a whole run the books balance throughout if and only if every restart comes when the
      session file is up to date with the turns written. */
  lemma {:induction false} AlwaysBooksIff(s: System, steps: seq<Step>)
    requires Books(s.hub) && FreshSessions(s, steps)
    ensures AlwaysBooks(s, steps) <==> GoodRun(s, steps)
    decreases |steps|
  {
    hide Books, GoodStep, FreshSession, Next;
    if steps != [] {
      StepBooksIff(s, steps[0]);
      if Books(Next(s, steps[0]).hub) {
        AlwaysBooksIff(Next(s, steps[0]), steps[1..]);
      }
    }
  }

  /** The flush of the turn's durable counter succeeds. */
  predicate RecordedStep(step: Step) {
    match step
    case DrainTurn(_, io) => io.recordOk
    case Chat(_, _, _, io) => io.recordOk
    case _ => true
  }

  ghost predicate RecordedSteps(steps: seq<Step>) {
    forall i :: 0 <= i < |steps| ==> RecordedStep(steps[i])
  }

  /** Such runs are good: each restart finds the file up to date. */
  lemma {:induction false} RecordedRunIsGood(s: System, steps: seq<Step>)
    requires Books(s.hub) && FileAgrees(s.hub) && FreshSessions(s, steps) && RecordedSteps(steps)
    ensures GoodRun(s, steps)
    decreases |steps|
  {
    hide Books, FileAgrees, Unused, Next;
    if steps != [] {
      StepKeepsBooks(s, steps[0]);
      StepKeepsFile(s, steps[0]);
      RecordedRunIsGood(Next(s, steps[0]), steps[1..]);
    }
  }

  lemma StepKeepsFile(s: System, step: Step)
    requires Books(s.hub) && FileAgrees(s.hub) && FreshSession(s.hub, step) && RecordedStep(step)
    ensures FileAgrees(Next(s, step).hub)
  {
    hide Books, FileAgrees, Unused, TurnState, TurnReply, WithLetter, WithAnswer, WithPresence;
    match step
    case DrainTurn(id, io) =>
      if id in s.drains && s.drains[id].cursor < |s.drains[id].snapshot| {
        var d := s.drains[id];
        var letter := d.snapshot[d.cursor].letter;
        TurnFileIff(s.hub, letter.person, d.member, letter.prompt, io);
      }
    case Chat(person, m, prompt, io) => TurnFileIff(s.hub, person, m, prompt, io);
    case Restart(members, presence) => RebootKeepsBooks(s.hub, members, presence);
    case _ => FamilyIrrelevant(s.hub, Next(s, step).hub);
  }

  lemma EmptyHubBalanced(members: set<MemberId>, presence: string, file: StoreFile)
    ensures var h := Hub(Booted(members, presence, file), Loaded(SessionFile.Absent), map[], []);
            Books(h) && FileAgrees(h)
  {
  }

  // ----- consequences -------------------------------------------------------------------

  /** Two writes under one session id come from the same person and the same member. */
  lemma SessionsNotShared(h: Hub, i: nat, j: nat)
    requires Books(h) && i < |h.written| && j < |h.written|
    requires PlainId(h.written[i].memberId) && PlainId(h.written[j].memberId)
    ensures h.written[i].sessionId == h.written[j].sessionId
       <==> h.written[i].person == h.written[j].person && h.written[i].memberId == h.written[j].memberId
  {
    var v, w := h.written[i], h.written[j];
    assert Owned(h, v) && Owned(h, w);
    KeyInjective(v.person, v.memberId, w.person, w.memberId);
  }

  lemma {:induction false} UpToNth(k: nat, i: nat)
    requires i < k
    ensures |UpTo(k)| == k && UpTo(k)[i] == i
  {
    if i < k - 1 {
      UpToNth(k - 1, i);
    } else if k > 1 {
      UpToNth(k - 1, 0);
    }
  }

  /** Position of write `i` among those of its session. */
  function RankOf(written: seq<MemoryWrite>, i: nat): nat
    requires i < |written|
  {
    |Indices(written[..i], written[i].sessionId)|
  }

  lemma {:induction false} RankIndex(written: seq<MemoryWrite>, i: nat, n: nat)
    requires i < n <= |written|
    ensures var sid := written[i].sessionId;
            RankOf(written, i) < |Indices(written[..n], sid)|
            && Indices(written[..n], sid)[RankOf(written, i)] == written[i].turnIdx
    decreases n
  {
    var sid := written[i].sessionId;
    assert written[..n] == written[..n - 1] + [written[n - 1]];
    IndicesAppend(written[..n - 1], written[n - 1], sid);
    if i < n - 1 {
      RankIndex(written, i, n - 1);
    }
  }

  /** No session is ever written twice at the same turn index, restarts or not. */
  lemma NoTurnWrittenTwice(h: Hub, i: nat, j: nat)
    requires Books(h) && i < j < |h.written| && h.written[i].sessionId == h.written[j].sessionId
    ensures h.written[i].turnIdx < h.written[j].turnIdx
  {
    var sid := h.written[i].sessionId;
    var key := Key(h.written[i].person, h.written[i].memberId);
    assert Owned(h, h.written[i]);
    assert Balanced(h, h.sessions.entries[key]);
    var k := h.sessions.entries[key].turnIdx;
    assert h.written[..|h.written|] == h.written;
    RankIndex(h.written, i, |h.written|);
    RankIndex(h.written, j, |h.written|);
    RankIndex(h.written, i, j);
    if k > 0 {
      UpToNth(k, 0);
      UpToNth(k, RankOf(h.written, i));
      UpToNth(k, RankOf(h.written, j));
    }
  }

  /** Why the durable counter's flush matters: lose it, restart, and an index is written again. */
  lemma LostRecordRepeatsIndex(h: Hub, person: string, m: MemberId, prompt: string, io: TurnIo, again: TurnIo,
                               members: set<MemberId>, presence: string)
    requires Key(person, m) in h.sessions.entries && h.sessions.file == Saved(h.sessions.entries)
    requires SessionOf(h, person, m) !in h.counters
    requires io.cortex.Some? && io.memoryOk && !io.recordOk
    requires again.cortex.Some? && again.memoryOk
    ensures var after := TurnState(Rebooted(TurnState(h, person, m, prompt, io), members, presence), person, m, prompt, again);
            && |after.written| == |h.written| + 2
            && after.written[|h.written|].sessionId == after.written[|h.written| + 1].sessionId
            && after.written[|h.written|].turnIdx == after.written[|h.written| + 1].turnIdx
  {
  }
}
