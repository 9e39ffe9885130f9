/** The hub as a transition system: every store operation is one atomic step, drains interleave. */
module HubRuns {
  import opened Wrappers
  import opened FamilyInbox
  import opened Brainstem
  import HubSessions

  /** A drain in flight: its snapshot, how far it got, and a reply not yet recorded. */
  datatype Drain = Drain(member: MemberId, snapshot: Inbox, cursor: nat, pending: Option<Reply>)

  datatype System = System(hub: Hub, drains: map<nat, Drain>)

  datatype Step =
    | Enqueue(member: MemberId, letter: Letter, flushOk: bool)
    | SetPresence(member: MemberId, state: string, now: Time, flushOk: bool)
    | StartDrain(id: nat, member: MemberId)
    | DrainTurn(id: nat, io: TurnIo)
    | CompleteDrained(id: nat, now: Time, flushOk: bool)
    | EndDrain(id: nat)
    | Chat(person: string, member: MemberId, prompt: string, io: TurnIo)
    | Restart(members: set<MemberId>, defaultPresence: string)

  // ----- steps ------------------------------------------------------------------

  function AfterTurn(s: System, id: nat, io: TurnIo): System
    requires id in s.drains && s.drains[id].cursor < |s.drains[id].snapshot|
  {
    var d := s.drains[id];
    var letter := d.snapshot[d.cursor].letter;
    var hub := TurnState(s.hub, letter.person, d.member, letter.prompt, io);
    match TurnReply(s.hub, letter.person, d.member, io)
    case Replied(reply) => System(hub, s.drains[id := d.(pending := Some(reply))])
    case _ => System(hub, s.drains - {id})
  }

  function AfterCompletion(s: System, id: nat, now: Time, ok: bool): System
    requires id in s.drains && s.drains[id].pending.Some? && s.drains[id].cursor < |s.drains[id].snapshot|
  {
    var d := s.drains[id];
    var letter := d.snapshot[d.cursor].letter;
    var family := if s.hub.family.Knows(d.member)
                  then WithAnswer(s.hub.family, d.member, letter.msgId, d.pending.value, now, ok)
                  else s.hub.family;
    System(s.hub.(family := family), s.drains[id := d.(cursor := d.cursor + 1, pending := None)])
  }

  /** A new process: presence starts fresh, both stores load, counters and drains are gone. */
  function Rebooted(h: Hub, members: set<MemberId>, defaultPresence: string): Hub {
    Hub(Booted(members, defaultPresence, h.family.file), HubSessions.Loaded(h.sessions.file), map[], h.written)
  }

  /** The effect of a step; a step that is not possible changes nothing. */
  function Next(s: System, step: Step): System {
    match step
    case Enqueue(m, letter, ok) =>
      if s.hub.family.Knows(m) then s.(hub := s.hub.(family := WithLetter(s.hub.family, m, letter, ok))) else s
    case SetPresence(m, state, now, ok) =>
      if s.hub.family.Knows(m) && state in PRESENCE_STATES
      then s.(hub := s.hub.(family := WithPresence(s.hub.family, m, state, now, ok))) else s
    case StartDrain(id, m) =>
      if s.hub.family.Knows(m) && id !in s.drains
      then s.(drains := s.drains[id := Drain(m, QueuedOf(s.hub.family.inbox[m]), 0, None)]) else s
    case DrainTurn(id, io) =>
      if id in s.drains && s.drains[id].pending.None? && s.drains[id].cursor < |s.drains[id].snapshot|
      then AfterTurn(s, id, io) else s
    case CompleteDrained(id, now, ok) =>
      if id in s.drains && s.drains[id].pending.Some? && s.drains[id].cursor < |s.drains[id].snapshot|
      then AfterCompletion(s, id, now, ok) else s
    case EndDrain(id) =>
      if id in s.drains && s.drains[id].cursor == |s.drains[id].snapshot| then s.(drains := s.drains - {id}) else s
    case Chat(person, m, prompt, io) => s.(hub := TurnState(s.hub, person, m, prompt, io))
    case Restart(members, presence) => System(Rebooted(s.hub, members, presence), map[])
  }

  function Run(s: System, steps: seq<Step>): System
    decreases |steps|
  {
    if steps == [] then s else Run(Next(s, steps[0]), steps[1..])
  }

  lemma RunOne(s: System, step: Step)
    ensures Run(s, [step]) == Next(s, step)
  {
    hide Next;
    assert [step][1..] == [];
  }

  lemma RunTwoMore(s: System, a: Step, b: Step, rest: seq<Step>)
    ensures Run(s, [a, b] + rest) == Run(Next(Next(s, a), b), rest)
  {
    hide Next;
    var all := [a, b] + rest;
    assert all[1..][0] == b && all[1..][1..] == rest;
    assert Run(s, all) == Run(Next(s, a), all[1..]);
  }

  function BoxOf(s: System, m: MemberId): Inbox {
    if m in s.hub.family.inbox then s.hub.family.inbox[m] else []
  }

  // ----- the FIFO invariant -----------------------------------------------------

  /** The drain's snapshot is the stretch of the inbox from `base`, and everything before its
      cursor has been answered. */
  ghost predicate AlignedAt(inbox: Inbox, d: Drain, base: nat) {
    && d.cursor <= |d.snapshot|
    && base + |d.snapshot| <= |inbox|
    && (forall k :: 0 <= k < |d.snapshot| ==> d.snapshot[k].letter == inbox[base + k].letter)
    && (forall k :: 0 <= k < base + d.cursor ==> inbox[k].status == Answered)
  }

  ghost predicate Aligned(inbox: Inbox, d: Drain) {
    exists base: nat :: AlignedAt(inbox, d, base)
  }

  ghost predicate FamilyInv(f: Family) {
    && f.Valid()
    && (forall m :: m in f.inbox ==> InOrder(f.inbox[m]))
    && (forall m :: InOrder(LoadedInbox(f.file, m)))
  }

  ghost predicate Inv(s: System) {
    && FamilyInv(s.hub.family)
    && (forall id :: id in s.drains ==>
          s.hub.family.Knows(s.drains[id].member) && Aligned(BoxOf(s, s.drains[id].member), s.drains[id]))
  }

  /** Message ids are new when they are queued (they are random). */
  predicate FreshLetter(s: System, step: Step) {
    step.Enqueue? ==> IndexOf(BoxOf(s, step.member), step.letter.msgId).None?
  }

  lemma AlignedStays(before: Inbox, after: Inbox, d: Drain)
    requires Aligned(before, d) && Progress(before, after)
    ensures Aligned(after, d)
  {
    var base: nat :| AlignedAt(before, d, base);
    assert forall k :: 0 <= k < |before| ==> Advanced(before[k], after[k]);
    assert AlignedAt(after, d, base);
  }

  lemma ProgressRefl(inbox: Inbox)
    ensures FinalProgress(inbox, inbox)
  {
  }

  lemma ProgressTrans(a: Inbox, b: Inbox, c: Inbox)
    requires Progress(a, b) && Progress(b, c)
    ensures Progress(a, c)
    ensures FinalProgress(a, b) && FinalProgress(b, c) ==> FinalProgress(a, c)
  {
    forall i | 0 <= i < |a|
      ensures Advanced(a[i], c[i])
    {
      assert Advanced(a[i], b[i]) && Advanced(b[i], c[i]);
    }
    if FinalProgress(a, b) && FinalProgress(b, c) {
      forall i | 0 <= i < |a| && a[i].status == Answered
        ensures c[i] == a[i]
      {
        assert b[i] == a[i];
      }
    }
  }

  /** Turns touch the counters and the session store, never the inbox. */
  lemma TurnLeavesFamily(h: Hub, person: string, m: MemberId, prompt: string, io: TurnIo)
    ensures TurnState(h, person, m, prompt, io).family == h.family
  {
  }

  /** The one message a completion answers is the one under the drain's cursor. */
  lemma CompletionTarget(inbox: Inbox, d: Drain, base: nat)
    requires InOrder(inbox) && AlignedAt(inbox, d, base) && d.cursor < |d.snapshot|
    ensures IndexOf(inbox, d.snapshot[d.cursor].letter.msgId) == Some(base + d.cursor)
  {
    IndexOfUnique(inbox, base + d.cursor);
  }

  /** `g` is `f` with member `m`'s inbox replaced, flushed or not. */
  predicate BoxChange(f: Family, g: Family, m: MemberId) {
    && m in f.inbox && m in g.inbox
    && g.presence.Keys == f.presence.Keys && g.log.Keys == f.log.Keys
    && g.inbox == f.inbox[m := g.inbox[m]]
    && (g.file == f.file || g.file == V2(g.inbox, g.log))
  }

  lemma AnswerIsBoxChange(f: Family, m: MemberId, id: MsgId, reply: Reply, now: Time, ok: bool)
    requires f.Valid() && f.Knows(m) && IndexOf(f.inbox[m], id).Some?
    ensures var g, i, box := WithAnswer(f, m, id, reply, now, ok), IndexOf(f.inbox[m], id).value, f.inbox[m];
            BoxChange(f, g, m) && g.inbox[m] == box[i := AnsweredMessage(box[i], reply, now)]
            && (ok ==> g.file == V2(g.inbox, g.log))
  {
  }

  lemma LetterIsBoxChange(f: Family, m: MemberId, letter: Letter, ok: bool)
    requires f.Valid() && f.Knows(m)
    ensures var g := WithLetter(f, m, letter, ok);
            BoxChange(f, g, m) && g.inbox[m] == Put(f.inbox[m], Message(letter, Queued, None, None))
            && (ok ==> g.file == V2(g.inbox, g.log))
  {
  }

  lemma PresenceIsBoxChange(f: Family, m: MemberId, state: string, now: Time, ok: bool)
    requires f.Valid() && f.Knows(m)
    ensures var g := WithPresence(f, m, state, now, ok);
            BoxChange(f, g, m) && g.inbox[m] == f.inbox[m]
            && (ok ==> g.file == V2(g.inbox, g.log))
  {
    assert f.inbox[m := f.inbox[m]] == f.inbox;
  }

  /** A completion keeps the order, and everything before the moved cursor is answered; it replaces
      an answer exactly when the message was no longer queued and the record changes. */
  lemma CompletionStep(f: Family, d: Drain, base: nat, now: Time, ok: bool)
    requires FamilyInv(f) && f.Knows(d.member) && d.pending.Some? && d.cursor < |d.snapshot|
    requires AlignedAt(f.inbox[d.member], d, base)
    ensures var m, letter := d.member, d.snapshot[d.cursor].letter;
            var g, box := WithAnswer(f, m, letter.msgId, d.pending.value, now, ok), f.inbox[m];
            && BoxChange(f, g, m) && (ok ==> g.file == V2(g.inbox, g.log))
            && InOrder(g.inbox[m]) && Progress(box, g.inbox[m])
            && (FinalProgress(box, g.inbox[m]) <==> box[base + d.cursor].status == Queued || g.inbox[m] == box)
            && AlignedAt(g.inbox[m], d.(cursor := d.cursor + 1, pending := None), base)
  {
    hide InOrder, FinalProgress, WithAnswer;
    var m, box, i := d.member, f.inbox[d.member], base + d.cursor;
    CompletionTarget(box, d, base);
    AnswerKeepsOrder(box, i, d.pending.value, now);
    AnswerIsBoxChange(f, m, d.snapshot[d.cursor].letter.msgId, d.pending.value, now, ok);
  }

  lemma EmptyInOrder()
    ensures InOrder([])
  {
    assert AnsweredUpTo([], 0);
  }

  /** A change to one inbox that keeps its order keeps every inbox in order, in memory and on disk. */
  lemma BoxChangeKeepsInv(f: Family, g: Family, m: MemberId)
    requires FamilyInv(f) && BoxChange(f, g, m) && InOrder(g.inbox[m])
    ensures FamilyInv(g)
  {
    hide InOrder;
    assert g.inbox.Keys == f.inbox.Keys;
    assert forall n :: n in g.inbox ==> InOrder(g.inbox[n]);
    EmptyInOrder();
  }

  lemma BootKeepsInv(f: Family, members: set<MemberId>, defaultPresence: string)
    requires FamilyInv(f)
    ensures FamilyInv(Booted(members, defaultPresence, f.file))
  {
    hide InOrder;
  }

  /** Other members' boxes and drains are untouched; this member's drains stay aligned. */
  lemma BoxChangeKeepsDrains(s: System, g: Family, m: MemberId)
    requires Inv(s) && BoxChange(s.hub.family, g, m)
    requires InOrder(g.inbox[m]) && Progress(s.hub.family.inbox[m], g.inbox[m])
    ensures Inv(s.(hub := s.hub.(family := g)))
  {
    hide InOrder, Progress, Aligned;
    var t := s.(hub := s.hub.(family := g));
    BoxChangeKeepsInv(s.hub.family, g, m);
    forall id | id in t.drains
      ensures t.hub.family.Knows(t.drains[id].member) && Aligned(BoxOf(t, t.drains[id].member), t.drains[id])
    {
      var d := t.drains[id];
      if d.member == m {
        AlignedStays(BoxOf(s, m), BoxOf(t, m), d);
      }
    }
  }

  // ----- the invariant over every step ------------------------------------------

  lemma EnqueueKeepsInv(s: System, m: MemberId, letter: Letter, ok: bool)
    requires Inv(s) && s.hub.family.Knows(m) && IndexOf(BoxOf(s, m), letter.msgId).None?
    ensures var g := WithLetter(s.hub.family, m, letter, ok);
            Inv(s.(hub := s.hub.(family := g))) && FinalProgress(s.hub.family.inbox[m], g.inbox[m])
  {
    hide InOrder, Aligned;
    LetterIsBoxChange(s.hub.family, m, letter, ok);
    EnqueueKeepsOrder(s.hub.family.inbox[m], letter);
    BoxChangeKeepsDrains(s, WithLetter(s.hub.family, m, letter, ok), m);
  }

  lemma StartKeepsInv(s: System, id: nat, m: MemberId)
    requires Inv(s) && s.hub.family.Knows(m) && id !in s.drains
    ensures Inv(Next(s, StartDrain(id, m)))
    ensures exists base: nat ::
              && AnsweredUpTo(BoxOf(s, m), base)
              && AlignedAt(BoxOf(s, m), Drain(m, QueuedOf(BoxOf(s, m)), 0, None), base)
  {
    hide AlignedAt, AnsweredUpTo, UniqueIds, QueuedOf;
    SnapshotAligned(BoxOf(s, m), m);
  }

  lemma SnapshotAligned(box: Inbox, m: MemberId)
    requires InOrder(box)
    ensures exists base: nat :: AnsweredUpTo(box, base) && AlignedAt(box, Drain(m, QueuedOf(box), 0, None), base)
  {
    var k: nat :| AnsweredUpTo(box, k);
    QueuedIsTail(box, k);
    assert AlignedAt(box, Drain(m, QueuedOf(box), 0, None), k);
  }

  lemma TurnKeepsInv(s: System, id: nat, io: TurnIo)
    requires Inv(s) && id in s.drains && s.drains[id].cursor < |s.drains[id].snapshot|
    ensures Inv(AfterTurn(s, id, io))
  {
    hide FamilyInv, TurnState, TurnReply;
    var d := s.drains[id];
    TurnLeavesFamily(s.hub, d.snapshot[d.cursor].letter.person, d.member, d.snapshot[d.cursor].letter.prompt, io);
    var base: nat :| AlignedAt(BoxOf(s, d.member), d, base);
    forall r
      ensures Aligned(BoxOf(s, d.member), d.(pending := r))
    {
      assert AlignedAt(BoxOf(s, d.member), d.(pending := r), base);
    }
  }

  lemma CompletionKeepsInv(s: System, id: nat, now: Time, ok: bool)
    requires Inv(s) && id in s.drains && s.drains[id].pending.Some? && s.drains[id].cursor < |s.drains[id].snapshot|
    ensures Inv(AfterCompletion(s, id, now, ok))
    ensures Progress(BoxOf(s, s.drains[id].member), BoxOf(AfterCompletion(s, id, now, ok), s.drains[id].member))
  {
    hide InOrder, Progress, FinalProgress, WithAnswer, AlignedAt;
    var d, f := s.drains[id], s.hub.family;
    var base: nat :| AlignedAt(BoxOf(s, d.member), d, base);
    CompletionStep(f, d, base, now, ok);
    var g := WithAnswer(f, d.member, d.snapshot[d.cursor].letter.msgId, d.pending.value, now, ok);
    BoxChangeKeepsDrains(s, g, d.member);
    var t := AfterCompletion(s, id, now, ok);
    assert Aligned(BoxOf(t, d.member), t.drains[id]);
  }

  /** Every step keeps every inbox answered-then-queued, in memory and on disk, whether or not
      its flush succeeds, and keeps every drain in flight aligned with its inbox. */
  lemma StepKeepsInv(s: System, step: Step)
    requires Inv(s) && FreshLetter(s, step)
    ensures Inv(Next(s, step))
  {
    hide FamilyInv, Aligned;
    match step
    case Enqueue(m, letter, ok) =>
      if s.hub.family.Knows(m) {
        EnqueueKeepsInv(s, m, letter, ok);
      }
    case SetPresence(m, state, now, ok) =>
      if s.hub.family.Knows(m) && state in PRESENCE_STATES {
        PresenceKeepsInv(s, m, state, now, ok);
      }
    case StartDrain(id, m) =>
      if s.hub.family.Knows(m) && id !in s.drains {
        StartKeepsInv(s, id, m);
      }
    case DrainTurn(id, io) =>
      if id in s.drains && s.drains[id].pending.None? && s.drains[id].cursor < |s.drains[id].snapshot| {
        TurnKeepsInv(s, id, io);
      }
    case CompleteDrained(id, now, ok) =>
      if id in s.drains && s.drains[id].pending.Some? && s.drains[id].cursor < |s.drains[id].snapshot| {
        CompletionKeepsInv(s, id, now, ok);
      }
    case EndDrain(id) =>
    case Chat(person, m, prompt, io) =>
      TurnLeavesFamily(s.hub, person, m, prompt, io);
    case Restart(members, presence) =>
      BootKeepsInv(s.hub.family, members, presence);
  }

  lemma PresenceKeepsInv(s: System, m: MemberId, state: string, now: Time, ok: bool)
    requires Inv(s) && s.hub.family.Knows(m)
    ensures Inv(s.(hub := s.hub.(family := WithPresence(s.hub.family, m, state, now, ok))))
  {
    hide InOrder, Aligned;
    PresenceIsBoxChange(s.hub.family, m, state, now, ok);
    ProgressRefl(s.hub.family.inbox[m]);
    BoxChangeKeepsDrains(s, WithPresence(s.hub.family, m, state, now, ok), m);
  }

  /** The letters of a run are fresh when they arrive. */
  ghost predicate FreshRun(s: System, steps: seq<Step>)
    decreases |steps|
  {
    steps != [] ==> FreshLetter(s, steps[0]) && FreshRun(Next(s, steps[0]), steps[1..])
  }

  /** Whole runs: whatever interleaves and whatever fails, answered messages precede queued ones. */
  lemma {:induction false} RunKeepsInv(s: System, steps: seq<Step>)
    requires Inv(s) && FreshRun(s, steps)
    ensures Inv(Run(s, steps))
    decreases |steps|
  {
    hide Inv, FreshLetter, Next;
    if steps != [] {
      StepKeepsInv(s, steps[0]);
      RunKeepsInv(Next(s, steps[0]), steps[1..]);
    }
  }
}
