/** The hub's turn pipeline: live turns, chat routing, presence changes and the inbox drain. */
module Brainstem {
  import opened Wrappers
  import opened FamilyInbox
  import HubSessions

  /** One turn the memory service accepted. */
  datatype MemoryWrite = MemoryWrite(sessionId: string, turnIdx: nat, person: string, memberId: MemberId,
                                     userText: string, assistantText: string)

  /** Hub state: both stores, the runtime turn counters, and the accepted memory writes. */
  datatype Hub = Hub(family: Family, sessions: HubSessions.Sessions, counters: map<string, nat>,
                     written: seq<MemoryWrite>)

  datatype Generation = Generation(text: string, model: string)

  /** How the outside world treats one turn. */
  datatype TurnIo = TurnIo(freshId: string, mintOk: bool, cortex: Option<Generation>, memoryOk: bool, recordOk: bool)

  /** A turn ends with a reply, with the cortex-down response, or with the mint's flush error. */
  datatype TurnResult = Replied(reply: Reply) | CortexDown | Raised

  // ----- one turn ---------------------------------------------------------------

  /** Session and counter ready for a turn: minted on first contact, seeded after a restart. */
  function Seeded(h: Hub, person: string, m: MemberId, io: TurnIo): Hub {
    var sessions := HubSessions.Minted(h.sessions, person, m, io.freshId, io.mintOk);
    var session := sessions.entries[HubSessions.Key(person, m)];
    if HubSessions.Key(person, m) !in h.sessions.entries && !io.mintOk then h.(sessions := sessions)
    else
      h.(sessions := sessions,
         counters := if session.sessionId in h.counters then h.counters
                     else h.counters[session.sessionId := session.turnIdx])
  }

  predicate MintRaises(h: Hub, person: string, m: MemberId, io: TurnIo) {
    HubSessions.Key(person, m) !in h.sessions.entries && !io.mintOk
  }

  function SessionOf(h: Hub, person: string, m: MemberId): string
    requires HubSessions.Key(person, m) in h.sessions.entries
  {
    h.sessions.entries[HubSessions.Key(person, m)].sessionId
  }

  /** The write-on-turn step of a turn the cortex answered. */
  function Remembered(h: Hub, sid: string, person: string, m: MemberId, prompt: string, text: string, ok: bool): Hub
    requires sid in h.counters
  {
    if ok then
      h.(written := h.written + [MemoryWrite(sid, h.counters[sid], person, m, prompt, text)],
         counters := h.counters[sid := h.counters[sid] + 1])
    else h
  }

  function TurnState(h: Hub, person: string, m: MemberId, prompt: string, io: TurnIo): Hub {
    var s := Seeded(h, person, m, io);
    if MintRaises(h, person, m, io) || io.cortex.None? then s
    else
      var sid := SessionOf(s, person, m);
      var w := Remembered(s, sid, person, m, prompt, io.cortex.value.text, io.memoryOk);
      w.(sessions := HubSessions.Recorded(w.sessions, person, m, w.counters[sid], io.recordOk))
  }

  function TurnReply(h: Hub, person: string, m: MemberId, io: TurnIo): TurnResult {
    if MintRaises(h, person, m, io) then Raised
    else if io.cortex.None? then CortexDown
    else
      var s := Seeded(h, person, m, io);
      var sid := SessionOf(s, person, m);
      Replied(Reply(io.cortex.value.text, io.cortex.value.model, sid,
                    if io.memoryOk then Some(s.counters[sid]) else None, io.memoryOk))
  }

  // ----- draining -----------------------------------------------------------------

  /** The world during one step of a drain. */
  datatype DrainIo = DrainIo(turn: TurnIo, completedAt: Time, flushOk: bool)

  /** A live turn for one queued letter and, if the member replied, its completion. */
  function DrainOne(h: Hub, m: MemberId, letter: Letter, io: DrainIo): (r: Hub)
    requires h.family.Knows(m)
    ensures r.family.Knows(m)
  {
    var after := TurnState(h, letter.person, m, letter.prompt, io.turn);
    match TurnReply(h, letter.person, m, io.turn)
    case Replied(reply) =>
      after.(family := WithAnswer(after.family, m, letter.msgId, reply, io.completedAt, io.flushOk))
    case _ => after
  }

  predicate DrainGoesOn(h: Hub, m: MemberId, letter: Letter, io: DrainIo) {
    TurnReply(h, letter.person, m, io.turn).Replied?
  }

  /** How a drain ends: the hub, how many messages it answered, and whether it stopped because a
      session could not be saved (rather than on the cortex). */
  datatype Drained = Drained(hub: Hub, answered: nat, raised: bool)

  /** Answer the snapshot from position `i` on, in order, until one turn fails. */
  function DrainFrom(h: Hub, m: MemberId, snapshot: Inbox, io: nat -> DrainIo, i: nat): (r: Drained)
    requires h.family.Knows(m) && i <= |snapshot|
    ensures r.hub.family.Knows(m) && i <= r.answered <= |snapshot|
    decreases |snapshot| - i
  {
    if i == |snapshot| then Drained(h, i, false)
    else
      var letter := snapshot[i].letter;
      var next := DrainOne(h, m, letter, io(i));
      if DrainGoesOn(h, m, letter, io(i)) then DrainFrom(next, m, snapshot, io, i + 1)
      else Drained(next, i, TurnReply(h, letter.person, m, io(i).turn).Raised?)
  }

  /** A drain changes no presence. */
  lemma DrainLeavesPresence(h: Hub, m: MemberId, snapshot: Inbox, io: nat -> DrainIo, i: nat)
    requires h.family.Knows(m) && i <= |snapshot|
    ensures DrainFrom(h, m, snapshot, io, i).hub.family.presence == h.family.presence
    decreases |snapshot| - i
  {
    hide TurnReply;
    if i < |snapshot| && DrainGoesOn(h, m, snapshot[i].letter, io(i)) {
      DrainLeavesPresence(DrainOne(h, m, snapshot[i].letter, io(i)), m, snapshot, io, i + 1);
    }
  }

  // ----- the service ---------------------------------------------------------------

  datatype ChatResult =
    | NotFound
    | Loading
    | QueuedAs(msgId: MsgId)
    | Answer(turn: TurnResult)

  datatype PresenceResult = PresenceNotFound | BadRequest | PresenceSet(drained: nat) | PresenceRaised

  /** What a chat answers, by the member's presence, and what it leaves behind. */
  function ChatAnswer(h: Hub, m: MemberId, letter: Letter, io: TurnIo): ChatResult {
    if m !in h.family.presence then NotFound
    else if h.family.presence[m] == "waking" then Loading
    else if h.family.presence[m] in {"asleep", "busy"} then QueuedAs(letter.msgId)
    else Answer(TurnReply(h, letter.person, m, io))
  }

  function ChatState(h: Hub, m: MemberId, letter: Letter, queueOk: bool, io: TurnIo): Hub
    requires h.family.Valid()
  {
    match ChatAnswer(h, m, letter, io)
    case QueuedAs(_) => h.(family := WithLetter(h.family, m, letter, queueOk))
    case Answer(_) => TurnState(h, letter.person, m, letter.prompt, io)
    case _ => h
  }

  class Service {
    const family: FamilyState
    const hubSessions: HubSessions.HubSessionStore
    var turnIdxBySession: map<string, nat>
    ghost var written: seq<MemoryWrite>

    ghost function Model(): Hub
      reads this, family, hubSessions
    {
      Hub(family.Model(), hubSessions.Model(), turnIdxBySession, written)
    }

    ghost predicate Valid()
      reads this, family, hubSessions
    {
      family.Valid()
    }

    constructor (family: FamilyState, hubSessions: HubSessions.HubSessionStore)
      requires family.Valid()
      ensures this.family == family && this.hubSessions == hubSessions
      ensures Valid() && Model() == Hub(family.Model(), hubSessions.Model(), map[], [])
    {
      this.family := family;
      this.hubSessions := hubSessions;
      turnIdxBySession := map[];
      written := [];
    }

    /** The cortex answered: write the turn to memory, and advance the counter if that worked. */
    method RunTurn(sid: string, person: string, m: MemberId, prompt: string, g: Generation, memoryOk: bool)
      returns (reply: Reply)
      requires Valid() && sid in turnIdxBySession
      modifies this
      ensures Valid()
      ensures Model() == Remembered(old(Model()), sid, person, m, prompt, g.text, memoryOk)
      ensures reply == Reply(g.text, g.model, sid,
                             if memoryOk then Some(old(turnIdxBySession[sid])) else None, memoryOk)
    {
      var turnIdx := turnIdxBySession[sid];
      if memoryOk {
        written := written + [MemoryWrite(sid, turnIdx, person, m, prompt, g.text)];
        turnIdxBySession := turnIdxBySession[sid := turnIdx + 1];
      }
      reply := Reply(g.text, g.model, sid, if memoryOk then Some(turnIdx) else None, memoryOk);
    }

    method LiveMemberTurn(person: string, m: MemberId, prompt: string, io: TurnIo) returns (r: TurnResult)
      requires Valid()
      modifies this, hubSessions
      ensures Valid()
      ensures Model() == TurnState(old(Model()), person, m, prompt, io)
      ensures r == TurnReply(old(Model()), person, m, io)
    {
      var minted := hubSessions.GetOrMint(person, m, io.freshId, io.mintOk);
      if minted.Err? {
        return Raised;
      }
      var sid := minted.value.sessionId;
      if sid !in turnIdxBySession {
        turnIdxBySession := turnIdxBySession[sid := minted.value.turnIdx];
      }
      if io.cortex.None? {
        return CortexDown;
      }
      var reply := RunTurn(sid, person, m, prompt, io.cortex.value, io.memoryOk);
      hubSessions.RecordTurn(person, m, turnIdxBySession[sid], io.recordOk);
      r := Replied(reply);
    }

    /** Answer a member's queued messages in arrival order; stop at the first failed turn. */
    method DrainInbox(m: MemberId, io: nat -> DrainIo) returns (answered: nat, raised: bool)
      requires Valid() && m in family.presence
      modifies this, family, hubSessions
      ensures Valid()
      ensures var h := old(Model());
              var snapshot := QueuedOf(h.family.inbox[m]);
              Drained(Model(), answered, raised) == DrainFrom(h, m, snapshot, io, 0)
    {
      hide TurnState, TurnReply, WithAnswer, QueuedOf;
      var queue := family.QueuedMessages(m);
      var snapshot := queue.value;
      answered, raised := 0, false;
      while answered < |snapshot|
        invariant answered <= |snapshot| && Valid() && m in family.presence
        invariant !raised
        invariant DrainFrom(Model(), m, snapshot, io, answered) == DrainFrom(old(Model()), m, snapshot, io, 0)
      {
        var letter := snapshot[answered].letter;
        var step := io(answered);
        var result := LiveMemberTurn(letter.person, m, letter.prompt, step.turn);
        if !result.Replied? {
          raised := result.Raised?;
          break;
        }
        var done := family.CompleteMessage(m, letter.msgId, result.reply, step.completedAt, step.flushOk);
        answered := answered + 1;
      }
    }

    method MemberPresence(m: MemberId, state: string, now: Time, flushOk: bool, io: nat -> DrainIo)
      returns (r: PresenceResult)
      requires Valid()
      modifies this, family, hubSessions
      ensures Valid()
      ensures m !in old(family.presence) ==> r == PresenceNotFound
      ensures m in old(family.presence) && state !in PRESENCE_STATES ==> r == BadRequest
      ensures r.PresenceNotFound? || r.BadRequest? ==> Model() == old(Model())
      ensures m in old(family.presence) && state in PRESENCE_STATES ==>
                var h := old(Model());
                var woken := h.(family := WithPresence(h.family, m, state, now, flushOk));
                var snapshot := QueuedOf(woken.family.inbox[m]);
                if state != "awake" then Model() == woken && r == PresenceSet(0)
                else
                  var drained := DrainFrom(woken, m, snapshot, io, 0);
                  Model() == drained.hub && r == if drained.raised then PresenceRaised else PresenceSet(drained.answered)
      ensures m in old(family.presence) && state in {"awake", "busy", "waking", "asleep"} ==>
                family.presence == old(family.presence)[m := state]
    {
      if m !in family.presence {
        return PresenceNotFound;
      }
      var changed := family.SetPresence(m, state, now, flushOk);
      if changed.Err? {
        return BadRequest;
      }
      if state == "awake" {
        DrainLeavesPresence(Model(), m, QueuedOf(Model().family.inbox[m]), io, 0);
        var drained, raised := DrainInbox(m, io);
        return if raised then PresenceRaised else PresenceSet(drained);
      }
      r := PresenceSet(0);
    }

    /** Route a message: refuse while loading, queue while asleep or busy, answer when awake. */
    method MemberChat(m: MemberId, letter: Letter, queueOk: bool, io: TurnIo) returns (r: ChatResult)
      requires Valid() && letter.memberId == m
      modifies this, family, hubSessions
      ensures Valid()
      ensures var h := old(Model());
              if m !in h.family.presence then r == NotFound && Model() == h
              else if h.family.presence[m] == "waking" then r == Loading && Model() == h
              else if h.family.presence[m] in {"asleep", "busy"} then
                r == QueuedAs(letter.msgId) && Model() == h.(family := WithLetter(h.family, m, letter, queueOk))
              else
                && r == Answer(TurnReply(h, letter.person, m, io))
                && Model() == TurnState(h, letter.person, m, letter.prompt, io)
      ensures r == ChatAnswer(old(Model()), m, letter, io)
      ensures Model() == ChatState(old(Model()), m, letter, queueOk, io)
    {
      if m !in family.presence {
        return NotFound;
      }
      var presence := family.presence[m];
      if presence == "waking" {
        return Loading;
      }
      if presence == "asleep" || presence == "busy" {
        var queued := family.Enqueue(m, letter, queueOk);
        return QueuedAs(letter.msgId);
      }
      var turn := LiveMemberTurn(letter.person, m, letter.prompt, io);
      r := Answer(turn);
    }
  }
}
