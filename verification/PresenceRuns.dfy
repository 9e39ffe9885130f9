/** Over whole runs of the hub: which presence a member has, and so what happens to a message for it. */
module PresenceRuns {
  import opened Wrappers
  import opened FamilyInbox
  import opened Brainstem
  import opened HubRuns
  import opened HubDelivery
  import opened BriefingRuns

  // ----- presence -----------------------------------------------------------------

  /** The presence the steps of a run say `m` has: the last one accepted, or the default since a restart. */
  function LastPresence(steps: seq<Step>, m: MemberId, before: string): string
    decreases |steps|
  {
    if steps == [] then before else LastPresence(steps[1..], m, PresenceAfter(steps[0], m, before))
  }

  function PresenceAfter(step: Step, m: MemberId, before: string): string {
    match step
    case SetPresence(n, state, _, _) => if n == m && state in {"awake", "busy", "waking", "asleep"} then state else before
    case Restart(_, defaultPresence) => defaultPresence
    case _ => before
  }

  function PresenceOf(s: System, m: MemberId): string
    requires m in s.hub.family.presence
  {
    s.hub.family.presence[m]
  }

  /** Letters and answers leave the presences alone. */
  lemma LetterPresence(f: Family, n: MemberId, letter: Letter, ok: bool, m: MemberId)
    requires Here(f, m) && f.Knows(n)
    ensures Here(WithLetter(f, n, letter, ok), m) && WithLetter(f, n, letter, ok).presence == f.presence
  {
  }

  lemma AnswerPresence(f: Family, n: MemberId, id: MsgId, reply: Reply, now: Time, ok: bool, m: MemberId)
    requires Here(f, m) && f.Knows(n)
    ensures Here(WithAnswer(f, n, id, reply, now, ok), m) && WithAnswer(f, n, id, reply, now, ok).presence == f.presence
  {
  }

  lemma StepPresence(s: System, step: Step, m: MemberId)
    requires Here(s.hub.family, m) && Stays(step, m)
    ensures Here(Next(s, step).hub.family, m)
    ensures PresenceOf(Next(s, step), m) == PresenceAfter(step, m, PresenceOf(s, m))
  {
    hide TurnState, TurnReply, WithAnswer, WithLetter, WithPresence;
    var f := s.hub.family;
    match step
    case Enqueue(n, letter, ok) =>
      if f.Knows(n) {
        LetterPresence(f, n, letter, ok, m);
      }
    case SetPresence(n, state, now, ok) =>
      if f.Knows(n) && state in PRESENCE_STATES {
        PresenceIsStored(f, n, state, now, ok);
      }
    case CompleteDrained(id, now, ok) =>
      if Completes(s, id) && f.Knows(s.drains[id].member) {
        var d := s.drains[id];
        AnswerPresence(f, d.member, d.snapshot[d.cursor].letter.msgId, d.pending.value, now, ok, m);
      }
    case DrainTurn(id, io) =>
      if id in s.drains && s.drains[id].cursor < |s.drains[id].snapshot| {
        var d := s.drains[id];
        var letter := d.snapshot[d.cursor].letter;
        TurnLeavesFamily(s.hub, letter.person, d.member, letter.prompt, io);
      }
    case Chat(person, n, prompt, io) =>
      TurnLeavesFamily(s.hub, person, n, prompt, io);
    case _ =>
  }

  /** Whole runs of wakes, chats, drains and restarts: a member has the presence last set for it since
      the hub started, or the default. */
  lemma {:induction false} RunPresence(s: System, steps: seq<Step>, m: MemberId)
    requires Here(s.hub.family, m) && StaysOn(steps, m)
    ensures Here(Run(s, steps).hub.family, m)
    ensures PresenceOf(Run(s, steps), m) == LastPresence(steps, m, PresenceOf(s, m))
    decreases |steps|
  {
    hide Next, Here, PresenceAfter, Stays;
    if steps != [] {
      assert Stays(steps[0], m);
      StepPresence(s, steps[0], m);
      assert StaysOn(steps[1..], m);
      RunPresence(Next(s, steps[0]), steps[1..], m);
    }
  }

  /** So after any run a chat is queued exactly when that presence is asleep or busy, refused exactly
      when it is waking, and answered live otherwise. */
  lemma ChatFollowsPresence(s: System, steps: seq<Step>, m: MemberId, letter: Letter, io: TurnIo)
    requires Here(s.hub.family, m) && StaysOn(steps, m)
    ensures var last := LastPresence(steps, m, PresenceOf(s, m));
            var answer := ChatAnswer(Run(s, steps).hub, m, letter, io);
            && (answer.QueuedAs? <==> last == "asleep" || last == "busy") && (answer.Loading? <==> last == "waking")
            && (answer.Answer? <==> last !in {"asleep", "busy", "waking"}) && !answer.NotFound?
            && (answer.QueuedAs? ==> answer.msgId == letter.msgId)
  {
    hide Run;
    RunPresence(s, steps, m);
  }

  /** And what a chat does to the hub: a queued letter is last in its inbox and costs no turn, a refused
      one leaves nothing, a live one leaves the inbox as it was. */
  lemma ChatLeaves(h: Hub, m: MemberId, letter: Letter, queueOk: bool, io: TurnIo)
    requires Here(h.family, m) && forall i :: 0 <= i < |h.family.inbox[m]| ==> h.family.inbox[m][i].letter.msgId != letter.msgId
    ensures var answer, after := ChatAnswer(h, m, letter, io), ChatState(h, m, letter, queueOk, io);
            && (answer.Loading? ==> after == h)
            && (answer.Answer? ==> after.family == h.family)
            && (answer.QueuedAs? ==>
                  && after.family.inbox == h.family.inbox[m := h.family.inbox[m] + [Message(letter, Queued, None, None)]]
                  && after.sessions == h.sessions && after.counters == h.counters && after.written == h.written
                  && (queueOk ==> LoadedInbox(after.family.file, m) == after.family.inbox[m]))
  {
    hide TurnState, TurnReply, WithLetter;
    LetterGoesLast(h.family, m, letter, queueOk);
    TurnLeavesFamily(h, letter.person, m, letter.prompt, io);
  }

  // ----- sleep and wake edges ---------------------------------------------------------

  /** The edges the steps of a run say `m` has. */
  function LastEdges(steps: seq<Step>, m: MemberId, before: SleepLog): SleepLog
    decreases |steps|
  {
    if steps == [] then before else LastEdges(steps[1..], m, EdgesAfter(steps[0], m, before))
  }

  function EdgesAfter(step: Step, m: MemberId, before: SleepLog): SleepLog {
    if !step.SetPresence? || step.member != m then before
    else if step.state == "asleep" then SleepLog(Some(step.now), before.lastAwakeAt)
    else if step.state == "awake" then SleepLog(before.lastAsleepAt, Some(step.now))
    else before
  }

  function LogOf(s: System, m: MemberId): SleepLog
    requires m in s.hub.family.log
  {
    s.hub.family.log[m]
  }

  /** A restart finds both edges on disk. */
  predicate LogOnDisk(s: System, step: Step, m: MemberId)
    requires m in s.hub.family.log
  {
    step.Restart? ==> LoadedLog(s.hub.family.file, m) == LogOf(s, m)
  }

  /** One step moves the edges as it should, unless it is a restart that does not find them on disk. */
  lemma StepEdgesIff(s: System, step: Step, m: MemberId)
    requires Here(s.hub.family, m) && Stays(step, m)
    ensures Here(Next(s, step).hub.family, m)
    ensures LogOf(Next(s, step), m) == EdgesAfter(step, m, LogOf(s, m)) <==> LogOnDisk(s, step, m)
  {
    hide TurnState, TurnReply, WithAnswer, WithLetter, WithPresence;
    var f := s.hub.family;
    match step
    case Enqueue(n, letter, ok) =>
      if f.Knows(n) {
        LetterLog(f, n, letter, ok, m);
      }
    case SetPresence(n, state, now, ok) =>
      if f.Knows(n) && state in PRESENCE_STATES {
        PresenceIsStored(f, n, state, now, ok);
      }
    case CompleteDrained(id, now, ok) =>
      if Completes(s, id) && f.Knows(s.drains[id].member) {
        var d := s.drains[id];
        AnswerLog(f, d.member, d.snapshot[d.cursor].letter.msgId, d.pending.value, now, ok, m);
      }
    case DrainTurn(id, io) =>
      if id in s.drains && s.drains[id].cursor < |s.drains[id].snapshot| {
        var d := s.drains[id];
        var letter := d.snapshot[d.cursor].letter;
        TurnLeavesFamily(s.hub, letter.person, d.member, letter.prompt, io);
      }
    case Chat(person, n, prompt, io) =>
      TurnLeavesFamily(s.hub, person, n, prompt, io);
    case _ =>
  }

  // ----- when every flush succeeds -------------------------------------------------------

  /** The file has `m`'s edges as the store has them. */
  predicate EdgesSaved(s: System, m: MemberId) {
    Here(s.hub.family, m) && LoadedLog(s.hub.family.file, m) == s.hub.family.log[m]
  }

  lemma DurableEdgeStep(s: System, step: Step, m: MemberId)
    requires EdgesSaved(s, m) && Durable(step) && Stays(step, m)
    ensures EdgesSaved(Next(s, step), m)
  {
    hide TurnState, TurnReply;
    if step.DrainTurn? && step.id in s.drains && s.drains[step.id].cursor < |s.drains[step.id].snapshot| {
      var d := s.drains[step.id];
      var letter := d.snapshot[d.cursor].letter;
      TurnLeavesFamily(s.hub, letter.person, d.member, letter.prompt, step.io);
    } else if step.Chat? {
      TurnLeavesFamily(s.hub, step.person, step.member, step.prompt, step.io);
    }
  }

  /** If every flush succeeds, the store has both edges as the run made them, restarts or not. */
  lemma {:induction false} DurableRunKeepsEdges(s: System, steps: seq<Step>, m: MemberId)
    requires EdgesSaved(s, m) && DurableRun(steps) && StaysOn(steps, m)
    ensures EdgesOnDisk(s, steps, m) && Here(Run(s, steps).hub.family, m)
    ensures LogOf(Run(s, steps), m) == LastEdges(steps, m, LogOf(s, m))
    decreases |steps|
  {
    hide Next, Durable, Stays, EdgesAfter;
    if steps != [] {
      assert Durable(steps[0]) && Stays(steps[0], m);
      DurableEdgeStep(s, steps[0], m);
      StepEdgesIff(s, steps[0], m);
      assert DurableRun(steps[1..]) && StaysOn(steps[1..], m);
      DurableRunKeepsEdges(Next(s, steps[0]), steps[1..], m);
    }
  }
}
