/** Custody at the hub: a reply a sender polls is a turn the memory service accepted. */
module HubCustody {
  import opened FamilyInbox
  import opened Brainstem
  import opened HubRuns

  /** The reply to `letter` says whether its turn was remembered, and if so the memory service accepted
      exactly that exchange: session, turn index, person, member, prompt and answer. */
  predicate Backed(written: seq<MemoryWrite>, m: MemberId, letter: Letter, reply: Reply) {
    && reply.memoryWritten == reply.turnIdx.Some?
    && (reply.turnIdx.Some? ==>
          MemoryWrite(reply.sessionId, reply.turnIdx.value, letter.person, m, letter.prompt, reply.text) in written)
  }

  ghost predicate BoxBacked(written: seq<MemoryWrite>, m: MemberId, box: Inbox) {
    forall i :: 0 <= i < |box| && box[i].result.Some? ==> Backed(written, m, box[i].letter, box[i].result.value)
  }

  predicate DrainBacked(written: seq<MemoryWrite>, d: Drain) {
    d.pending.Some? ==>
      d.cursor < |d.snapshot| && Backed(written, d.member, d.snapshot[d.cursor].letter, d.pending.value)
  }

  ghost predicate FamilyBacked(written: seq<MemoryWrite>, f: Family) {
    && (forall m :: m in f.inbox ==> BoxBacked(written, m, f.inbox[m]))
    && (forall m :: BoxBacked(written, m, LoadedInbox(f.file, m)))
  }

  /** Every reply in an inbox, on disk or on its way there is backed. */
  ghost predicate CustodyInv(s: System) {
    && FamilyBacked(s.hub.written, s.hub.family)
    && forall id :: id in s.drains ==> DrainBacked(s.hub.written, s.drains[id])
  }

  /** The log of accepted writes only grows. */
  ghost predicate Grows(before: seq<MemoryWrite>, after: seq<MemoryWrite>) {
    forall w :: w in before ==> w in after
  }

  lemma TurnGrows(h: Hub, person: string, m: MemberId, prompt: string, io: TurnIo)
    ensures Grows(h.written, TurnState(h, person, m, prompt, io).written)
  {
  }

  lemma TurnBacked(h: Hub, letter: Letter, m: MemberId, io: TurnIo)
    requires TurnReply(h, letter.person, m, io).Replied?
    ensures Backed(TurnState(h, letter.person, m, letter.prompt, io).written, m, letter,
                   TurnReply(h, letter.person, m, io).reply)
  {
    var s := Seeded(h, letter.person, m, io);
    var sid := SessionOf(s, letter.person, m);
    if io.memoryOk {
      var w := MemoryWrite(sid, s.counters[sid], letter.person, m, letter.prompt, io.cortex.value.text);
      var after := TurnState(h, letter.person, m, letter.prompt, io).written;
      assert after == s.written + [w];
    }
  }

  lemma BackedGrows(s: System, written: seq<MemoryWrite>)
    requires CustodyInv(s) && Grows(s.hub.written, written)
    ensures FamilyBacked(written, s.hub.family)
    ensures forall id :: id in s.drains ==> DrainBacked(written, s.drains[id])
  {
    forall m, box | BoxBacked(s.hub.written, m, box)
      ensures BoxBacked(written, m, box)
    {
    }
  }

  /** A changed inbox whose replies are backed keeps memory and disk backed. */
  lemma BoxChangeBacked(written: seq<MemoryWrite>, f: Family, g: Family, m: MemberId)
    requires FamilyBacked(written, f) && BoxChange(f, g, m) && BoxBacked(written, m, g.inbox[m])
    ensures FamilyBacked(written, g)
  {
    hide BoxBacked;
    assert forall n :: BoxBacked(written, n, []) by {
      EmptyBacked(written);
    }
    assert g.inbox.Keys == f.inbox.Keys;
    assert forall n :: n in g.inbox ==> BoxBacked(written, n, g.inbox[n]);
  }

  lemma EmptyBacked(written: seq<MemoryWrite>)
    ensures forall n :: BoxBacked(written, n, [])
  {
  }

  lemma CompletionBacked(s: System, id: nat, now: Time, ok: bool)
    requires Inv(s) && CustodyInv(s) && id in s.drains && s.drains[id].pending.Some?
    requires s.drains[id].cursor < |s.drains[id].snapshot|
    ensures CustodyInv(AfterCompletion(s, id, now, ok))
  {
    hide FamilyBacked, WithAnswer, Backed, InOrder;
    var d, f, written := s.drains[id], s.hub.family, s.hub.written;
    var letter := d.snapshot[d.cursor].letter;
    var base: nat :| AlignedAt(BoxOf(s, d.member), d, base);
    CompletionTarget(f.inbox[d.member], d, base);
    AnswerIsBoxChange(f, d.member, letter.msgId, d.pending.value, now, ok);
    var g := WithAnswer(f, d.member, letter.msgId, d.pending.value, now, ok);
    assert DrainBacked(written, d);
    assert BoxBacked(written, d.member, f.inbox[d.member]) by {
      MemberBacked(written, f, d.member);
    }
    BoxChangeBacked(written, f, g, d.member);
  }

  lemma MemberBacked(written: seq<MemoryWrite>, f: Family, m: MemberId)
    requires FamilyBacked(written, f) && m in f.inbox
    ensures BoxBacked(written, m, f.inbox[m])
  {
  }

  lemma TurnKeepsCustody(s: System, id: nat, io: TurnIo)
    requires CustodyInv(s) && id in s.drains && s.drains[id].cursor < |s.drains[id].snapshot|
    ensures CustodyInv(AfterTurn(s, id, io))
  {
    hide FamilyBacked, Backed, TurnState, TurnReply;
    var d := s.drains[id];
    var letter := d.snapshot[d.cursor].letter;
    var written := TurnState(s.hub, letter.person, d.member, letter.prompt, io).written;
    TurnLeavesFamily(s.hub, letter.person, d.member, letter.prompt, io);
    TurnGrows(s.hub, letter.person, d.member, letter.prompt, io);
    BackedGrows(s, written);
    if TurnReply(s.hub, letter.person, d.member, io).Replied? {
      TurnBacked(s.hub, letter, d.member, io);
    }
  }

  lemma EnqueueKeepsCustody(s: System, m: MemberId, letter: Letter, ok: bool)
    requires Inv(s) && CustodyInv(s) && s.hub.family.Knows(m)
    ensures CustodyInv(Next(s, Enqueue(m, letter, ok)))
  {
    hide FamilyBacked, WithLetter, Backed, DrainBacked;
    LetterIsBoxChange(s.hub.family, m, letter, ok);
    MemberBacked(s.hub.written, s.hub.family, m);
    BoxChangeBacked(s.hub.written, s.hub.family, WithLetter(s.hub.family, m, letter, ok), m);
  }

  lemma PresenceKeepsCustody(s: System, m: MemberId, state: string, now: Time, ok: bool)
    requires Inv(s) && CustodyInv(s) && s.hub.family.Knows(m)
    ensures CustodyInv(s.(hub := s.hub.(family := WithPresence(s.hub.family, m, state, now, ok))))
  {
    hide FamilyBacked, WithPresence, BoxBacked, DrainBacked;
    PresenceIsBoxChange(s.hub.family, m, state, now, ok);
    MemberBacked(s.hub.written, s.hub.family, m);
    BoxChangeBacked(s.hub.written, s.hub.family, WithPresence(s.hub.family, m, state, now, ok), m);
  }

  lemma StepKeepsCustody(s: System, step: Step)
    requires Inv(s) && CustodyInv(s)
    ensures CustodyInv(Next(s, step))
  {
    hide Inv, WithLetter, WithAnswer, WithPresence, TurnState, TurnReply, Backed;
    match step
    case Enqueue(m, letter, ok) =>
      if s.hub.family.Knows(m) {
        EnqueueKeepsCustody(s, m, letter, ok);
      }
    case SetPresence(m, state, now, ok) =>
      if s.hub.family.Knows(m) && state in PRESENCE_STATES {
        PresenceKeepsCustody(s, m, state, now, ok);
      }
    case StartDrain(id, m) =>
    case DrainTurn(id, io) =>
      if id in s.drains && s.drains[id].pending.None? && s.drains[id].cursor < |s.drains[id].snapshot| {
        TurnKeepsCustody(s, id, io);
      }
    case CompleteDrained(id, now, ok) =>
      if id in s.drains && s.drains[id].pending.Some? && s.drains[id].cursor < |s.drains[id].snapshot| {
        CompletionBacked(s, id, now, ok);
      }
    case EndDrain(id) =>
    case Chat(person, m, prompt, io) =>
      TurnLeavesFamily(s.hub, person, m, prompt, io);
      TurnGrows(s.hub, person, m, prompt, io);
      BackedGrows(s, TurnState(s.hub, person, m, prompt, io).written);
    case Restart(members, presence) =>
  }

  /** Whole runs, overlapping drains, lost flushes and restarts included: a polled reply that
      claims to be remembered was accepted by the memory service (whether it is stored is another
      question). */
  lemma {:induction false} RunKeepsLog(s: System, steps: seq<Step>)
    requires Inv(s) && CustodyInv(s) && FreshRun(s, steps)
    ensures CustodyInv(Run(s, steps))
    decreases |steps|
  {
    hide Inv, CustodyInv, FreshLetter, Next;
    if steps != [] {
      StepKeepsInv(s, steps[0]);
      StepKeepsCustody(s, steps[0]);
      RunKeepsLog(Next(s, steps[0]), steps[1..]);
    }
  }
}
