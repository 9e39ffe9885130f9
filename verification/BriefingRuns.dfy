/** Over whole runs of the hub: when a briefing starts at the member's last sleep edge. */
module BriefingRuns {
  import opened Wrappers
  import opened FamilyInbox
  import opened Brainstem
  import opened HubRuns
  import opened HubDelivery
  import opened Briefing
  import opened ChromaStore
  import opened Timeline
  import HubSessions

  predicate Here(f: Family, m: MemberId) {
    f.Valid() && f.Knows(m)
  }

  /** When `m` was last put to sleep, as the store has it. */
  function EdgeOf(s: System, m: MemberId): Option<Time> {
    if m in s.hub.family.log then s.hub.family.log[m].lastAsleepAt else None
  }

  /** When `m` was last put to sleep, as the steps of the run say. */
  function LastSlept(steps: seq<Step>, m: MemberId, before: Option<Time>): Option<Time>
    decreases |steps|
  {
    if steps == [] then before else LastSlept(steps[1..], m, AfterEdge(steps[0], m, before))
  }

  function AfterEdge(step: Step, m: MemberId, before: Option<Time>): Option<Time> {
    if step.SetPresence? && step.member == m && step.state == "asleep" then Some(step.now) else before
  }

  /** A restart finds the last sleep edge on disk. */
  predicate EdgeOnDisk(s: System, step: Step, m: MemberId) {
    step.Restart? ==> LoadedLog(s.hub.family.file, m).lastAsleepAt == EdgeOf(s, m)
  }

  predicate EdgesOnDisk(s: System, steps: seq<Step>, m: MemberId)
    decreases |steps|
  {
    steps != [] ==> EdgeOnDisk(s, steps[0], m) && EdgesOnDisk(Next(s, steps[0]), steps[1..], m)
  }

  /** Letters and answers leave the presence log alone. */
  lemma LetterLog(f: Family, n: MemberId, letter: Letter, ok: bool, m: MemberId)
    requires Here(f, m) && f.Knows(n)
    ensures Here(WithLetter(f, n, letter, ok), m) && WithLetter(f, n, letter, ok).log == f.log
  {
  }

  lemma AnswerLog(f: Family, n: MemberId, id: MsgId, reply: Reply, now: Time, ok: bool, m: MemberId)
    requires Here(f, m) && f.Knows(n)
    ensures Here(WithAnswer(f, n, id, reply, now, ok), m) && WithAnswer(f, n, id, reply, now, ok).log == f.log
  {
  }

  lemma PresenceEdge(f: Family, n: MemberId, state: string, now: Time, ok: bool, m: MemberId)
    requires Here(f, m) && f.Knows(n)
    ensures var g := WithPresence(f, n, state, now, ok);
            && Here(g, m)
            && g.log[m].lastAsleepAt == if n == m && state == "asleep" then Some(now) else f.log[m].lastAsleepAt
  {
  }

  /** One step moves the sleep edge exactly when it puts `m` to sleep, unless it is a restart that
      does not find it on disk. */
  lemma StepEdgeIff(s: System, step: Step, m: MemberId)
    requires Here(s.hub.family, m) && Stays(step, m)
    ensures Here(Next(s, step).hub.family, m)
    ensures EdgeOf(Next(s, step), m) == AfterEdge(step, m, EdgeOf(s, m)) <==> EdgeOnDisk(s, step, m)
  {
    hide TurnState, TurnReply, WithAnswer, WithLetter, WithPresence;
    var f := s.hub.family;
    match step
    case Enqueue(n, letter, ok) =>
      if f.Knows(n) {
        LetterLog(f, n, letter, ok, m);
      }
    case SetPresence(n, state, now, ok) =>
      if f.Knows(n) && state in PRESENCE_STATES {
        PresenceEdge(f, n, state, now, ok, m);
      }
    case CompleteDrained(id, now, ok) =>
      if Completes(s, id) && f.Knows(s.drains[id].member) {
        var d := s.drains[id];
        AnswerLog(f, d.member, d.snapshot[d.cursor].letter.msgId, d.pending.value, now, ok, m);
      }
    case DrainTurn(id, io) =>
      if id in s.drains && s.drains[id].cursor < |s.drains[id].snapshot| {
        var d := s.drains[id];
        var letter := d.snapshot[d.cursor].letter;
        TurnLeavesFamily(s.hub, letter.person, d.member, letter.prompt, io);
      }
    case Chat(person, n, prompt, io) =>
      TurnLeavesFamily(s.hub, person, n, prompt, io);
    case _ =>
  }

  /** At every moment of the run the store has the last sleep edge of the run so far. */
  ghost predicate EdgesRight(s: System, steps: seq<Step>, m: MemberId)
    decreases |steps|
  {
    && (forall k :: 0 <= k <= |steps| ==> EdgeOf(Run(s, steps[..k]), m) == LastSlept(steps[..k], m, EdgeOf(s, m)))
    && (steps != [] ==> EdgesRight(Next(s, steps[0]), steps[1..], m))
  }

  lemma LastSleptPrefix(steps: seq<Step>, m: MemberId, before: Option<Time>, k: nat)
    requires 0 < k <= |steps|
    ensures LastSlept(steps[..k], m, before) == LastSlept(steps[1..][..k - 1], m, AfterEdge(steps[0], m, before))
  {
    hide AfterEdge;
    assert steps[..k][1..] == steps[1..][..k - 1];
  }

  /** Sleep edges survive restarts over a run if and only if every restart finds the last one on disk. */
  lemma {:induction false} EdgesRightIff(s: System, steps: seq<Step>, m: MemberId)
    requires Here(s.hub.family, m) && StaysOn(steps, m)
    ensures EdgesRight(s, steps, m) <==> EdgesOnDisk(s, steps, m)
    decreases |steps|
  {
    hide Next, Run, Here, EdgeOf, EdgeOnDisk, AfterEdge, LastSlept, Stays;
    NoSteps(s, steps);
    NeverSlept(steps, m, EdgeOf(s, m));
    if steps != [] {
      var t := Next(s, steps[0]);
      assert Stays(steps[0], m);
      StepEdgeIff(s, steps[0], m);
      assert StaysOn(steps[1..], m);
      EdgesRightIff(t, steps[1..], m);
      RunPrefix(s, steps, 1);
      NoSteps(t, steps[1..]);
      LastSleptPrefix(steps, m, EdgeOf(s, m), 1);
      NeverSlept(steps[1..], m, AfterEdge(steps[0], m, EdgeOf(s, m)));
      if EdgesOnDisk(s, steps, m) {
        forall k | 0 < k <= |steps|
          ensures EdgeOf(Run(s, steps[..k]), m) == LastSlept(steps[..k], m, EdgeOf(s, m))
        {
          RunPrefix(s, steps, k);
          LastSleptPrefix(steps, m, EdgeOf(s, m), k);
        }
      }
    }
  }

  lemma NeverSlept(steps: seq<Step>, m: MemberId, before: Option<Time>)
    ensures LastSlept(steps[..0], m, before) == before
  {
  }

  lemma {:induction false} RunEdge(s: System, steps: seq<Step>, m: MemberId)
    requires Here(s.hub.family, m) && StaysOn(steps, m) && EdgesOnDisk(s, steps, m)
    ensures Here(Run(s, steps).hub.family, m)
    ensures EdgeOf(Run(s, steps), m) == LastSlept(steps, m, EdgeOf(s, m))
    decreases |steps|
  {
    hide Next, Here, EdgeOf, EdgeOnDisk, AfterEdge, Stays;
    if steps != [] {
      assert Stays(steps[0], m);
      StepEdgeIff(s, steps[0], m);
      assert StaysOn(steps[1..], m);
      RunEdge(Next(s, steps[0]), steps[1..], m);
    }
  }

  /** Whole runs of chats, drains, wakes and restarts that find the edge on disk: the briefing is
      windowed on the last time the member was put to sleep, or on the day before if it never was. */
  lemma BriefingSinceLastSleep(s: System, steps: seq<Step>, m: MemberId, feed: Option<seq<Row>>, now: Time, dayAgo: Time)
    requires Here(s.hub.family, m) && StaysOn(steps, m) && EdgesOnDisk(s, steps, m) && EdgeOf(s, m).None?
    requires forall i :: 0 <= i < |steps| && steps[i].SetPresence? ==> steps[i].now != ""
    ensures var g := Run(s, steps).hub.family;
            && g.Knows(m)
            && BuildBriefing(g, m, feed, now, dayAgo).since
               == match LastSlept(steps, m, None) case Some(slept) => slept case None => dayAgo
  {
    hide Run;
    RunEdge(s, steps, m);
    SleptAtSomeStep(steps, m, None);
  }

  /** And its events are the 50 newest shared rows since then, whatever the memory service holds within
      its fetch limit; it says whether the cutoff is a sleep edge. */
  lemma BriefingOverRun(s: System, steps: seq<Step>, m: MemberId, rows: seq<Row>, now: Time, dayAgo: Time)
    requires Here(s.hub.family, m) && StaysOn(steps, m) && EdgesOnDisk(s, steps, m) && EdgeOf(s, m).None?
    requires forall i :: 0 <= i < |steps| && steps[i].SetPresence? ==> steps[i].now != ""
    requires |SharedRows(rows)| <= FETCH_LIMIT
    ensures var g, slept := Run(s, steps).hub.family, LastSlept(steps, m, None);
            && g.Knows(m)
            && var d := BuildBriefing(g, m, Some(Feed(rows, TIMELINE_MAX)), now, dayAgo);
               && d.sinceAsleep == slept.Some?
               && AreNewestSince(d.events, rows, if slept.Some? then slept.value else dayAgo, 50)
  {
    hide Run, AreNewestSince, Feed, SharedRows, EdgesOnDisk, Here;
    BriefingSinceLastSleep(s, steps, m, Some(Feed(rows, TIMELINE_MAX)), now, dayAgo);
    RunEdge(s, steps, m);
    SleptAtSomeStep(steps, m, None);
    BriefingEvents(Run(s, steps).hub.family, m, rows, now, dayAgo);
  }

  lemma {:induction false} SleptAtSomeStep(steps: seq<Step>, m: MemberId, before: Option<Time>)
    requires forall i :: 0 <= i < |steps| && steps[i].SetPresence? ==> steps[i].now != ""
    requires before != Some("")
    ensures LastSlept(steps, m, before) != Some("")
    decreases |steps|
  {
    if steps != [] {
      SleptAtSomeStep(steps[1..], m, AfterEdge(steps[0], m, before));
    }
  }

  /** A sleep edge whose flush is lost is forgotten by the next restart: the briefing falls back on the
      day before although the member has slept. */
  lemma LostEdgeForgotten(m: MemberId, slept: Time, presence: string, feed: Option<seq<Row>>, now: Time, dayAgo: Time)
    requires slept != ""
    ensures var s := System(Hub(Booted({m}, presence, StoreFile.Absent), HubSessions.Loaded(HubSessions.Absent), map[], []), map[]);
            var asleep := Next(s, SetPresence(m, "asleep", slept, false));
            var rebooted := Next(asleep, Restart({m}, presence));
            && BuildBriefing(asleep.hub.family, m, feed, now, dayAgo).since == slept
            && BuildBriefing(rebooted.hub.family, m, feed, now, dayAgo).since == dayAgo
  {
  }
}
