/** What a queued message can rely on over a whole run of the hub. */
module HubDelivery {
  import opened Wrappers
  import opened FamilyInbox
  import opened Brainstem
  import opened HubRuns
  import HubSessions

  // ----- what is on disk --------------------------------------------------------

  /** A restart keeps `m` in the registry. */
  predicate Stays(step: Step, m: MemberId) {
    step.Restart? ==> m in step.members
  }

  ghost predicate StaysOn(steps: seq<Step>, m: MemberId) {
    forall i :: 0 <= i < |steps| ==> Stays(steps[i], m)
  }

  /** The file holds an earlier state of `m`'s inbox: its flushes may have been lost since. */
  ghost predicate Live(s: System, m: MemberId) {
    && Inv(s) && m in s.hub.family.inbox
    && Progress(LoadedInbox(s.hub.family.file, m), s.hub.family.inbox[m])
  }

  predicate SameStatuses(a: Inbox, b: Inbox) {
    |a| == |b| && forall i :: 0 <= i < |a| ==> a[i].status == b[i].status
  }

  /** The file has every message of `m`, answered or queued as in memory. */
  predicate FileHasAll(f: Family, m: MemberId)
    requires m in f.inbox
  {
    SameStatuses(LoadedInbox(f.file, m), f.inbox[m])
  }

  /** And the same answers. */
  predicate FileHasAnswers(f: Family, m: MemberId)
    requires m in f.inbox
  {
    var file, box := LoadedInbox(f.file, m), f.inbox[m];
    FileHasAll(f, m) && forall i :: 0 <= i < |box| && box[i].status == Answered ==> file[i] == box[i]
  }

  predicate Completes(s: System, id: nat) {
    id in s.drains && s.drains[id].pending.Some? && s.drains[id].cursor < |s.drains[id].snapshot|
  }

  /** The step writes the inbox file. */
  predicate WritesFile(s: System, step: Step) {
    match step
    case Enqueue(n, _, ok) => ok && s.hub.family.Knows(n)
    case SetPresence(n, state, _, ok) => ok && s.hub.family.Knows(n) && state in PRESENCE_STATES
    case CompleteDrained(id, _, ok) =>
      && ok && Completes(s, id) && s.hub.family.Knows(s.drains[id].member)
      && var d := s.drains[id];
         IndexOf(s.hub.family.inbox[d.member], d.snapshot[d.cursor].letter.msgId).Some?
    case _ => false
  }

  /** One inbox moves on, flushed or not: the file still holds an earlier state of `m`'s. */
  lemma BoxChangeLags(f: Family, g: Family, n: MemberId, m: MemberId)
    requires m in f.inbox && Progress(LoadedInbox(f.file, m), f.inbox[m])
    requires BoxChange(f, g, n) && Progress(f.inbox[n], g.inbox[n])
    ensures m in g.inbox && Progress(f.inbox[m], g.inbox[m])
    ensures Progress(LoadedInbox(g.file, m), g.inbox[m])
  {
    hide Progress, FinalProgress;
    ProgressRefl(f.inbox[m]);
    RefineFinal(f.inbox[m], f.inbox[m]);
    ProgressRefl(g.inbox[m]);
    RefineFinal(g.inbox[m], g.inbox[m]);
    ProgressTrans(LoadedInbox(f.file, m), f.inbox[m], g.inbox[m]);
  }

  /** A restart brings back the file's inbox: nothing is lost exactly when the file has it all. */
  lemma RestartKeepsIff(s: System, members: set<MemberId>, presence: string, m: MemberId)
    requires Live(s, m) && m in members
    ensures var t := Next(s, Restart(members, presence));
            && BoxOf(t, m) == LoadedInbox(s.hub.family.file, m)
            && (Progress(BoxOf(s, m), BoxOf(t, m)) <==> FileHasAll(s.hub.family, m))
            && (FinalProgress(BoxOf(s, m), BoxOf(t, m)) <==> FileHasAnswers(s.hub.family, m))
  {
    hide Inv;
    var file, box := LoadedInbox(s.hub.family.file, m), s.hub.family.inbox[m];
    assert forall i :: 0 <= i < |file| ==> Advanced(file[i], box[i]);
    assert BoxOf(Next(s, Restart(members, presence)), m) == file;
  }

  /** Nothing of `m` is lost in the step: a restart finds all of it on disk. */
  predicate KeepsMessages(s: System, step: Step, m: MemberId) {
    step.Restart? && m in s.hub.family.inbox ==> FileHasAll(s.hub.family, m)
  }

  /** No step but a restart loses, reorders or reopens a message of `m`, and a restart does exactly
      when the file does not have it all. */
  lemma StepProgress(s: System, step: Step, m: MemberId)
    requires Live(s, m) && FreshLetter(s, step) && Stays(step, m)
    ensures Live(Next(s, step), m)
    ensures Progress(BoxOf(s, m), BoxOf(Next(s, step), m)) <==> KeepsMessages(s, step, m)
  {
    hide Inv, Progress, FinalProgress, InOrder, WithLetter, WithPresence, WithAnswer;
    StepKeepsInv(s, step);
    ProgressRefl(BoxOf(s, m));
    RefineFinal(BoxOf(s, m), BoxOf(s, m));
    var f := s.hub.family;
    InvFamily(s);
    match step
    case Enqueue(n, letter, ok) =>
      if f.Knows(n) {
        LetterIsBoxChange(f, n, letter, ok);
        EnqueueKeepsInv(s, n, letter, ok);
        RefineFinal(f.inbox[n], WithLetter(f, n, letter, ok).inbox[n]);
        BoxChangeLags(f, WithLetter(f, n, letter, ok), n, m);
      }
    case SetPresence(n, state, now, ok) =>
      if f.Knows(n) && state in PRESENCE_STATES {
        PresenceProgress(f, n, state, now, ok, m);
      }
    case StartDrain(id, n) =>
    case DrainTurn(id, io) =>
      if id in s.drains && s.drains[id].cursor < |s.drains[id].snapshot| {
        var d := s.drains[id];
        var letter := d.snapshot[d.cursor].letter;
        TurnLeavesFamily(s.hub, letter.person, d.member, letter.prompt, io);
      }
    case CompleteDrained(id, now, ok) =>
      if Completes(s, id) {
        CompletionProgress(s, id, now, ok, m);
      }
    case EndDrain(id) =>
    case Chat(person, n, prompt, io) =>
      TurnLeavesFamily(s.hub, person, n, prompt, io);
    case Restart(members, presence) =>
      RestartKeepsIff(s, members, presence, m);
      RestartLive(s, members, presence, m);
  }

  lemma RestartLive(s: System, members: set<MemberId>, presence: string, m: MemberId)
    requires m in members
    ensures var t := Next(s, Restart(members, presence));
            m in t.hub.family.inbox && Progress(LoadedInbox(t.hub.family.file, m), t.hub.family.inbox[m])
  {
    ProgressRefl(LoadedInbox(s.hub.family.file, m));
  }

  lemma PresenceProgress(f: Family, n: MemberId, state: string, now: Time, ok: bool, m: MemberId)
    requires f.Valid() && f.Knows(n) && m in f.inbox && Progress(LoadedInbox(f.file, m), f.inbox[m])
    ensures var g := WithPresence(f, n, state, now, ok);
            m in g.inbox && Progress(f.inbox[m], g.inbox[m]) && Progress(LoadedInbox(g.file, m), g.inbox[m])
  {
    hide Progress, WithPresence, FinalProgress;
    PresenceIsBoxChange(f, n, state, now, ok);
    ProgressRefl(f.inbox[n]);
    RefineFinal(f.inbox[n], f.inbox[n]);
    BoxChangeLags(f, WithPresence(f, n, state, now, ok), n, m);
  }

  lemma InvFamily(s: System)
    requires Inv(s)
    ensures s.hub.family.Valid() && forall id :: id in s.drains ==> s.hub.family.Knows(s.drains[id].member)
  {
  }

  lemma RefineFinal(before: Inbox, after: Inbox)
    ensures FinalProgress(before, after) ==> Progress(before, after)
  {
  }

  lemma CompletionProgress(s: System, id: nat, now: Time, ok: bool, m: MemberId)
    requires Live(s, m) && Completes(s, id)
    ensures var f, g := s.hub.family, AfterCompletion(s, id, now, ok).hub.family;
            m in g.inbox && Progress(f.inbox[m], g.inbox[m]) && Progress(LoadedInbox(g.file, m), g.inbox[m])
  {
    hide InOrder, Progress, FinalProgress, WithAnswer, AlignedAt;
    var d, f := s.drains[id], s.hub.family;
    var base: nat :| AlignedAt(BoxOf(s, d.member), d, base);
    CompletionStep(f, d, base, now, ok);
    BoxChangeLags(f, WithAnswer(f, d.member, d.snapshot[d.cursor].letter.msgId, d.pending.value, now, ok), d.member, m);
  }

  // ----- nothing is lost --------------------------------------------------------------

  /** Each restart finds all of `m`'s messages on disk. */
  predicate AlwaysKeepsMessages(s: System, steps: seq<Step>, m: MemberId)
    decreases |steps|
  {
    steps != [] ==> KeepsMessages(s, steps[0], m) && AlwaysKeepsMessages(Next(s, steps[0]), steps[1..], m)
  }

  /** Whole runs, any number of overlapping drains, any lost flush that a later write makes good: every
      message keeps its place, and once answered stays answered; none is lost across restarts. */
  lemma {:induction false} NothingLost(s: System, steps: seq<Step>, m: MemberId)
    requires Live(s, m) && FreshRun(s, steps) && StaysOn(steps, m) && AlwaysKeepsMessages(s, steps, m)
    ensures Live(Run(s, steps), m)
    ensures Progress(BoxOf(s, m), BoxOf(Run(s, steps), m)) && InOrder(BoxOf(Run(s, steps), m))
    decreases |steps|
  {
    hide Live, Next, FreshLetter, Progress, FinalProgress, InOrder, Stays, KeepsMessages;
    if steps == [] {
      ProgressRefl(BoxOf(s, m));
      RefineFinal(BoxOf(s, m), BoxOf(s, m));
      LiveInOrder(s, m);
    } else {
      var t := Next(s, steps[0]);
      assert Stays(steps[0], m);
      StepProgress(s, steps[0], m);
      assert StaysOn(steps[1..], m);
      NothingLost(t, steps[1..], m);
      ProgressTrans(BoxOf(s, m), BoxOf(t, m), BoxOf(Run(t, steps[1..]), m));
    }
  }

  /** Between any two moments of the run, no message is lost, overtaken or reopened. */
  ghost predicate NeverLoses(s: System, steps: seq<Step>, m: MemberId)
    decreases |steps|
  {
    && (forall k :: 0 <= k <= |steps| ==> Progress(BoxOf(s, m), BoxOf(Run(s, steps[..k]), m)))
    && (steps != [] ==> NeverLoses(Next(s, steps[0]), steps[1..], m))
  }

  /** The promise that a restart loses nothing holds over a run if and only if every restart finds the
      file with as many messages of `m`, answered and queued as in memory. */
  lemma {:induction false} NeverLosesIff(s: System, steps: seq<Step>, m: MemberId)
    requires Live(s, m) && FreshRun(s, steps) && StaysOn(steps, m)
    ensures NeverLoses(s, steps, m) <==> AlwaysKeepsMessages(s, steps, m)
    decreases |steps|
  {
    hide Live, Next, Run, FreshLetter, FinalProgress, Progress, Stays, KeepsMessages;
    NoSteps(s, steps);
    ProgressRefl(BoxOf(s, m));
    RefineFinal(BoxOf(s, m), BoxOf(s, m));
    if steps != [] {
      var t := Next(s, steps[0]);
      assert Stays(steps[0], m);
      StepProgress(s, steps[0], m);
      assert StaysOn(steps[1..], m);
      NeverLosesIff(t, steps[1..], m);
      RunPrefix(s, steps, 1);
      NoSteps(t, steps[1..]);
      if AlwaysKeepsMessages(s, steps, m) {
        forall k | 0 < k <= |steps|
          ensures Progress(BoxOf(s, m), BoxOf(Run(s, steps[..k]), m))
        {
          RunPrefix(s, steps, k);
          ProgressTrans(BoxOf(s, m), BoxOf(t, m), BoxOf(Run(t, steps[1..][..k - 1]), m));
        }
      }
    }
  }

  /** Any write of the file, for whichever member, makes earlier lost flushes good. */
  lemma WriteCatchesUp(s: System, step: Step, m: MemberId)
    requires WritesFile(s, step) && m in s.hub.family.inbox
    ensures var g := Next(s, step).hub.family;
            m in g.inbox && LoadedInbox(g.file, m) == g.inbox[m] && FileHasAnswers(g, m)
  {
  }

  /** A letter is accepted but its flush is lost: after a restart it is gone. */
  lemma LostFlushLosesLetter(m: MemberId, letter: Letter, presence: string)
    ensures var s := System(Hub(Booted({m}, presence, StoreFile.Absent), HubSessions.Loaded(HubSessions.Absent), map[], []), map[]);
            var queued := Next(s, Enqueue(m, letter, false));
            && Live(s, m) && BoxOf(queued, m) == [Message(letter, Queued, None, None)]
            && BoxOf(Next(queued, Restart({m}, presence)), m) == []
  {
    EmptyInOrder();
  }

  /** An answer is recorded but its flush is lost: after a restart the message is queued again. */
  lemma LostFlushReopens(s: System, m: MemberId, io: TurnIo, now: Time, presence: string)
    requires s.drains == map[] && s.hub.family.Valid() && s.hub.family.Knows(m)
    requires |s.hub.family.inbox[m]| == 1 && s.hub.family.inbox[m][0].status == Queued
    requires LoadedInbox(s.hub.family.file, m) == s.hub.family.inbox[m] && io.mintOk && io.cortex.Some?
    ensures var answered := Next(Next(Next(s, StartDrain(0, m)), DrainTurn(0, io)), CompleteDrained(0, now, false));
            && |BoxOf(answered, m)| == 1 && BoxOf(answered, m)[0].status == Answered
            && BoxOf(Next(answered, Restart({m}, presence)), m) == s.hub.family.inbox[m]
  {
    hide TurnState, InOrder;
    var box := s.hub.family.inbox[m];
    assert AnsweredUpTo(box, 0);
    QueuedIsTail(box, 0);
    assert box[0..] == box;
    var t := Next(s, StartDrain(0, m));
    assert t.drains[0] == Drain(m, box, 0, None);
    DrainOneMessage(t, 0, m, io, now, false);
  }

  lemma LiveInOrder(s: System, m: MemberId)
    requires Live(s, m)
    ensures InOrder(BoxOf(s, m))
  {
  }

  // ----- at most one answer -------------------------------------------------------

  /** Exactly the messages before the drain's cursor have been answered. */
  ghost predicate Exact(inbox: Inbox, d: Drain) {
    exists base: nat :: AlignedAt(inbox, d, base) && AnsweredUpTo(inbox, base + d.cursor)
  }

  /** At most one drain of `m` is in flight, and nobody else answers its messages. */
  ghost predicate SoleDrain(s: System, m: MemberId) {
    && (forall id :: id in s.drains && s.drains[id].member == m ==> Exact(BoxOf(s, m), s.drains[id]))
    && (forall i, j :: i in s.drains && j in s.drains && s.drains[i].member == m && s.drains[j].member == m ==> i == j)
  }

  /** `m` is not woken again while one of its drains still runs. */
  predicate NoOverlap(s: System, step: Step, m: MemberId) {
    step.StartDrain? && step.member == m ==>
      forall id :: id in s.drains ==> s.drains[id].member != m
  }

  lemma ExactAfterCompletion(f: Family, d: Drain, base: nat, now: Time, ok: bool)
    requires FamilyInv(f) && f.Knows(d.member) && d.pending.Some? && d.cursor < |d.snapshot|
    requires AlignedAt(f.inbox[d.member], d, base) && AnsweredUpTo(f.inbox[d.member], base + d.cursor)
    ensures var g := WithAnswer(f, d.member, d.snapshot[d.cursor].letter.msgId, d.pending.value, now, ok);
            && BoxChange(f, g, d.member)
            && FinalProgress(f.inbox[d.member], g.inbox[d.member])
            && Exact(g.inbox[d.member], d.(cursor := d.cursor + 1, pending := None))
  {
    hide FinalProgress, WithAnswer;
    var box, i := f.inbox[d.member], base + d.cursor;
    CompletionStep(f, d, base, now, ok);
    CompletionTarget(box, d, base);
    AnswerIsBoxChange(f, d.member, d.snapshot[d.cursor].letter.msgId, d.pending.value, now, ok);
    var g := WithAnswer(f, d.member, d.snapshot[d.cursor].letter.msgId, d.pending.value, now, ok);
    assert AnsweredUpTo(g.inbox[d.member], i + 1);
    assert AlignedAt(g.inbox[d.member], d.(cursor := d.cursor + 1, pending := None), base);
  }

  lemma ExactAfterEnqueue(inbox: Inbox, letter: Letter, d: Drain)
    requires Exact(inbox, d) && IndexOf(inbox, letter.msgId).None?
    ensures Exact(Put(inbox, Message(letter, Queued, None, None)), d)
  {
    var after := Put(inbox, Message(letter, Queued, None, None));
    var base: nat :| AlignedAt(inbox, d, base) && AnsweredUpTo(inbox, base + d.cursor);
    assert AlignedAt(after, d, base) && AnsweredUpTo(after, base + d.cursor);
  }

  lemma SoleStart(s: System, id: nat, m: MemberId)
    requires Live(s, m) && SoleDrain(s, m) && id !in s.drains
    requires forall i :: i in s.drains ==> s.drains[i].member != m
    ensures SoleDrain(Next(s, StartDrain(id, m)), m)
  {
    hide AlignedAt, AnsweredUpTo;
    StartKeepsInv(s, id, m);
    var box := BoxOf(s, m);
    var d := Drain(m, QueuedOf(box), 0, None);
    var base: nat :| AnsweredUpTo(box, base) && AlignedAt(box, d, base);
    assert AnsweredUpTo(box, base + d.cursor);
  }

  lemma SoleTurn(s: System, id: nat, io: TurnIo, m: MemberId)
    requires SoleDrain(s, m) && id in s.drains && s.drains[id].cursor < |s.drains[id].snapshot|
    ensures SoleDrain(AfterTurn(s, id, io), m)
  {
    hide TurnState, TurnReply;
    var d := s.drains[id];
    var letter := d.snapshot[d.cursor].letter;
    TurnLeavesFamily(s.hub, letter.person, d.member, letter.prompt, io);
    forall r | Exact(BoxOf(s, m), d)
      ensures Exact(BoxOf(s, m), d.(pending := r))
    {
      var base: nat :| AlignedAt(BoxOf(s, m), d, base) && AnsweredUpTo(BoxOf(s, m), base + d.cursor);
      assert AlignedAt(BoxOf(s, m), d.(pending := r), base);
    }
  }

  lemma SoleCompletion(s: System, id: nat, now: Time, ok: bool, m: MemberId)
    requires Inv(s) && SoleDrain(s, m) && id in s.drains && s.drains[id].pending.Some?
    requires s.drains[id].cursor < |s.drains[id].snapshot|
    ensures var t := AfterCompletion(s, id, now, ok);
            SoleDrain(t, m) && FinalProgress(BoxOf(s, m), BoxOf(t, m))
  {
    hide AlignedAt, FinalProgress, WithAnswer, AnsweredUpTo, Exact;
    var d, f := s.drains[id], s.hub.family;
    ProgressRefl(BoxOf(s, m));
    if d.member == m {
      assert Exact(BoxOf(s, m), d);
      SoleOwnCompletion(s, id, now, ok);
    } else {
      var base: nat :| AlignedAt(BoxOf(s, d.member), d, base);
      CompletionStep(f, d, base, now, ok);
      assert BoxOf(AfterCompletion(s, id, now, ok), m) == BoxOf(s, m);
    }
  }

  lemma SoleOwnCompletion(s: System, id: nat, now: Time, ok: bool)
    requires Inv(s) && id in s.drains && SoleDrain(s, s.drains[id].member) && s.drains[id].pending.Some?
    requires s.drains[id].cursor < |s.drains[id].snapshot|
    ensures var t, m := AfterCompletion(s, id, now, ok), s.drains[id].member;
            SoleDrain(t, m) && FinalProgress(BoxOf(s, m), BoxOf(t, m))
  {
    hide AlignedAt, FinalProgress, WithAnswer, AnsweredUpTo;
    var d := s.drains[id];
    var box := BoxOf(s, d.member);
    assert Exact(box, d);
    var base: nat :| AlignedAt(box, d, base) && AnsweredUpTo(box, base + d.cursor);
    ExactAfterCompletion(s.hub.family, d, base, now, ok);
  }

  lemma SoleEnqueue(s: System, n: MemberId, letter: Letter, ok: bool, m: MemberId)
    requires Inv(s) && SoleDrain(s, m) && s.hub.family.Knows(n) && IndexOf(BoxOf(s, n), letter.msgId).None?
    ensures var t := Next(s, Enqueue(n, letter, ok));
            SoleDrain(t, m) && FinalProgress(BoxOf(s, m), BoxOf(t, m))
  {
    hide FinalProgress, InOrder, Exact;
    var f := s.hub.family;
    LetterIsBoxChange(f, n, letter, ok);
    ProgressRefl(BoxOf(s, m));
    if n == m {
      EnqueueKeepsInv(s, n, letter, ok);
      forall id | id in s.drains && s.drains[id].member == m
        ensures Exact(BoxOf(Next(s, Enqueue(n, letter, ok)), m), s.drains[id])
      {
        ExactAfterEnqueue(BoxOf(s, m), letter, s.drains[id]);
      }
    }
  }

  lemma SoleStep(s: System, step: Step, m: MemberId)
    requires Live(s, m) && SoleDrain(s, m)
    requires FreshLetter(s, step) && Stays(step, m) && NoOverlap(s, step, m)
    requires step.Restart? ==> FileHasAnswers(s.hub.family, m)
    ensures SoleDrain(Next(s, step), m) && FinalProgress(BoxOf(s, m), BoxOf(Next(s, step), m))
  {
    hide Inv, FinalProgress, Progress, Exact, TurnState, TurnReply, WithAnswer, WithLetter, WithPresence, IndexOf, QueuedOf;
    hide FileHasAnswers, LoadedInbox;
    ProgressRefl(BoxOf(s, m));
    InvFamily(s);
    match step
    case Enqueue(n, letter, ok) =>
      if s.hub.family.Knows(n) {
        SoleEnqueue(s, n, letter, ok, m);
      }
    case SetPresence(n, state, now, ok) =>
      if s.hub.family.Knows(n) && state in PRESENCE_STATES {
        PresenceIsBoxChange(s.hub.family, n, state, now, ok);
      }
    case StartDrain(id, n) =>
      if n == m && s.hub.family.Knows(n) && id !in s.drains {
        SoleStart(s, id, m);
      }
    case DrainTurn(id, io) =>
      if id in s.drains && s.drains[id].pending.None? && s.drains[id].cursor < |s.drains[id].snapshot| {
        SoleTurn(s, id, io, m);
        var d := s.drains[id];
        var letter := d.snapshot[d.cursor].letter;
        TurnLeavesFamily(s.hub, letter.person, d.member, letter.prompt, io);
      }
    case CompleteDrained(id, now, ok) =>
      if id in s.drains && s.drains[id].pending.Some? && s.drains[id].cursor < |s.drains[id].snapshot| {
        SoleCompletion(s, id, now, ok, m);
      }
    case EndDrain(id) =>
    case Chat(person, n, prompt, io) =>
      TurnLeavesFamily(s.hub, person, n, prompt, io);
    case Restart(members, presence) =>
      RestartKeepsIff(s, members, presence, m);
  }

  /** A hub that boots for the first time is where such runs start. */
  lemma FirstBoot(members: set<MemberId>, presence: string, m: MemberId)
    requires m in members
    ensures var family := Booted(members, presence, StoreFile.Absent);
            var s := System(Hub(family, HubSessions.Loaded(HubSessions.Absent), map[], []), map[]);
            Live(s, m) && SoleDrain(s, m) && BoxOf(s, m) == []
  {
    EmptyInOrder();
    ProgressRefl([]);
  }

  ghost predicate NoOverlapRun(s: System, steps: seq<Step>, m: MemberId)
    decreases |steps|
  {
    steps != [] ==> NoOverlap(s, steps[0], m) && NoOverlapRun(Next(s, steps[0]), steps[1..], m)
  }

  /** Each restart finds all of `m`'s messages and answers on disk. */
  predicate AlwaysOnDisk(s: System, steps: seq<Step>, m: MemberId)
    decreases |steps|
  {
    steps != [] ==>
      && (steps[0].Restart? && m in s.hub.family.inbox ==> FileHasAnswers(s.hub.family, m))
      && AlwaysOnDisk(Next(s, steps[0]), steps[1..], m)
  }

  /** Whole runs in which `m`'s drains do not overlap and restarts find the file up to date: each
      message is answered at most once, and an answer never changes. */
  lemma {:induction false} AnsweredOnce(s: System, steps: seq<Step>, m: MemberId)
    requires Live(s, m) && SoleDrain(s, m)
    requires FreshRun(s, steps) && StaysOn(steps, m) && AlwaysOnDisk(s, steps, m) && NoOverlapRun(s, steps, m)
    ensures FinalProgress(BoxOf(s, m), BoxOf(Run(s, steps), m))
    decreases |steps|
  {
    hide SoleDrain, NoOverlap, Next, FreshLetter, Progress, FinalProgress, Stays, KeepsMessages, FileHasAnswers, Inv;
    if steps == [] {
      ProgressRefl(BoxOf(s, m));
    } else {
      var t := Next(s, steps[0]);
      assert Stays(steps[0], m);
      StepProgress(s, steps[0], m);
      SoleStep(s, steps[0], m);
      assert StaysOn(steps[1..], m);
      AnsweredOnce(t, steps[1..], m);
      var u := Run(t, steps[1..]);
      RefineFinal(BoxOf(s, m), BoxOf(t, m));
      RefineFinal(BoxOf(t, m), BoxOf(u, m));
      ProgressTrans(BoxOf(s, m), BoxOf(t, m), BoxOf(u, m));
    }
  }

  /** The step's flush succeeds. */
  predicate Durable(step: Step) {
    match step
    case Enqueue(_, _, ok) => ok
    case SetPresence(_, _, _, ok) => ok
    case CompleteDrained(_, _, ok) => ok
    case _ => true
  }

  ghost predicate DurableRun(steps: seq<Step>) {
    forall i :: 0 <= i < |steps| ==> Durable(steps[i])
  }

  lemma DurableStep(s: System, step: Step, m: MemberId)
    requires m in s.hub.family.inbox && LoadedInbox(s.hub.family.file, m) == s.hub.family.inbox[m]
    requires Durable(step) && Stays(step, m)
    ensures var g := Next(s, step).hub.family; m in g.inbox && LoadedInbox(g.file, m) == g.inbox[m]
  {
    hide TurnState, TurnReply;
    if WritesFile(s, step) {
      WriteCatchesUp(s, step, m);
    } else if step.DrainTurn? && step.id in s.drains && s.drains[step.id].cursor < |s.drains[step.id].snapshot| {
      var d := s.drains[step.id];
      var letter := d.snapshot[d.cursor].letter;
      TurnLeavesFamily(s.hub, letter.person, d.member, letter.prompt, step.io);
    } else if step.Chat? {
      TurnLeavesFamily(s.hub, step.person, step.member, step.prompt, step.io);
    }
  }

  /** If every flush succeeds, every restart finds the file up to date. */
  lemma {:induction false} DurableRunOnDisk(s: System, steps: seq<Step>, m: MemberId)
    requires m in s.hub.family.inbox && LoadedInbox(s.hub.family.file, m) == s.hub.family.inbox[m]
    requires DurableRun(steps) && StaysOn(steps, m)
    ensures AlwaysOnDisk(s, steps, m) && AlwaysKeepsMessages(s, steps, m)
    decreases |steps|
  {
    hide Next, Durable, Stays;
    if steps != [] {
      assert Durable(steps[0]) && Stays(steps[0], m);
      DurableStep(s, steps[0], m);
      assert DurableRun(steps[1..]) && StaysOn(steps[1..], m);
      DurableRunOnDisk(Next(s, steps[0]), steps[1..], m);
    }
  }

  /** Overlapping drains do answer a message twice: the second reply replaces the first. */
  lemma OverlapReplacesAnswer(s: System, m: MemberId, io0: TurnIo, io1: TurnIo, t0: Time, t1: Time)
    requires s.drains == map[] && s.hub.family.Valid() && s.hub.family.Knows(m)
    requires |s.hub.family.inbox[m]| == 1 && s.hub.family.inbox[m][0].status == Queued
    requires io0.mintOk && io1.mintOk && io0.cortex.Some? && io1.cortex.Some?
    ensures var steps0 := [StartDrain(0, m), StartDrain(1, m), DrainTurn(0, io0), CompleteDrained(0, t0, true)];
            var steps1 := [DrainTurn(1, io1), CompleteDrained(1, t1, true)];
            var first, second := BoxOf(Run(s, steps0), m), BoxOf(Run(Run(s, steps0), steps1), m);
            && |first| == 1 && first[0].status == Answered
            && |second| == 1 && second[0].status == Answered
            && first[0].result.Some? && first[0].result.value.text == io0.cortex.value.text
            && second[0].result.Some? && second[0].result.value.text == io1.cortex.value.text
  {
    hide Next;
    var steps0 := [StartDrain(0, m), StartDrain(1, m), DrainTurn(0, io0), CompleteDrained(0, t0, true)];
    var steps1 := [DrainTurn(1, io1), CompleteDrained(1, t1, true)];
    RunFour(s, steps0[0], steps0[1], steps0[2], steps0[3]);
    RunTwo(Run(s, steps0), steps1[0], steps1[1]);
    var a := Next(Next(s, StartDrain(0, m)), StartDrain(1, m));
    TwoDrains(s, m);
    DrainOneMessage(a, 0, m, io0, t0, true);
    var b := Next(Next(a, DrainTurn(0, io0)), CompleteDrained(0, t0, true));
    DrainOneMessage(b, 1, m, io1, t1, true);
  }

  /** Two wakes in a row take the same snapshot. */
  lemma TwoDrains(s: System, m: MemberId)
    requires s.drains == map[] && s.hub.family.Knows(m)
    requires |s.hub.family.inbox[m]| == 1 && s.hub.family.inbox[m][0].status == Queued
    ensures var a, d := Next(Next(s, StartDrain(0, m)), StartDrain(1, m)), Drain(m, s.hub.family.inbox[m], 0, None);
            a.hub == s.hub && a.drains == map[0 := d, 1 := d]
  {
    var box := s.hub.family.inbox[m];
    assert AnsweredUpTo(box, 0);
    QueuedIsTail(box, 0);
    assert box[0..] == box;
  }

  lemma RunTwo(s: System, a: Step, b: Step)
    ensures Run(s, [a, b]) == Next(Next(s, a), b)
  {
    RunTwoMore(s, a, b, []);
    assert [a, b] + [] == [a, b];
  }

  lemma RunFour(s: System, a: Step, b: Step, c: Step, d: Step)
    ensures Run(s, [a, b, c, d]) == Next(Next(Next(Next(s, a), b), c), d)
  {
    hide Next, Run;
    RunTwoMore(s, a, b, [c, d]);
    assert [a, b] + [c, d] == [a, b, c, d];
    RunTwo(Next(Next(s, a), b), c, d);
  }

  /** A drain that has the one message of `m` ahead of it answers it, answered before or not. */
  lemma DrainOneMessage(s: System, id: nat, m: MemberId, io: TurnIo, t: Time, ok: bool)
    requires s.hub.family.Valid() && s.hub.family.Knows(m) && |s.hub.family.inbox[m]| == 1
    requires id in s.drains && s.drains[id].member == m && s.drains[id].cursor == 0 && s.drains[id].pending.None?
    requires |s.drains[id].snapshot| == 1 && s.drains[id].snapshot[0].letter == s.hub.family.inbox[m][0].letter
    requires io.mintOk && io.cortex.Some?
    ensures var u := Next(Next(s, DrainTurn(id, io)), CompleteDrained(id, t, ok));
            && (!ok ==> u.hub.family.file == s.hub.family.file)
            && u.hub.family.Valid() && u.hub.family.Knows(m) && |BoxOf(u, m)| == 1
            && BoxOf(u, m)[0].letter == s.hub.family.inbox[m][0].letter && BoxOf(u, m)[0].status == Answered
            && BoxOf(u, m)[0].result.Some? && BoxOf(u, m)[0].result.value.text == io.cortex.value.text
            && forall j :: j != id && j in s.drains ==> j in u.drains && u.drains[j] == s.drains[j]
  {
    hide TurnState;
    var letter := s.drains[id].snapshot[0].letter;
    TurnLeavesFamily(s.hub, letter.person, m, letter.prompt, io);
    assert TurnReply(s.hub, letter.person, m, io).Replied?;
  }

  // ----- exactly when answers are final ---------------------------------------------

  /** If the step completes a message of `m`, its record is still queued. */
  predicate FindsQueued(s: System, step: Step, m: MemberId) {
    step.CompleteDrained? && Completes(s, step.id) && s.drains[step.id].member == m ==>
      var d := s.drains[step.id];
      match IndexOf(BoxOf(s, m), d.snapshot[d.cursor].letter.msgId)
      case None => true
      case Some(i) => BoxOf(s, m)[i].status == Queued
  }

  /** The clock has moved on since every answer so far. */
  ghost predicate NewTime(s: System, step: Step, m: MemberId) {
    step.CompleteDrained? ==> forall i :: 0 <= i < |BoxOf(s, m)| ==> BoxOf(s, m)[i].answeredAt != Some(step.now)
  }

  /** Completing a message leaves the answers given so far alone iff it was still queued. */
  lemma CompletionFinalIff(s: System, id: nat, now: Time, ok: bool, m: MemberId)
    requires Inv(s) && Completes(s, id) && NewTime(s, CompleteDrained(id, now, ok), m)
    ensures FinalProgress(BoxOf(s, m), BoxOf(AfterCompletion(s, id, now, ok), m))
       <==> FindsQueued(s, CompleteDrained(id, now, ok), m)
  {
    hide InOrder, Progress, WithAnswer, AlignedAt;
    var d, f := s.drains[id], s.hub.family;
    var letter := d.snapshot[d.cursor].letter;
    var base: nat :| AlignedAt(BoxOf(s, d.member), d, base);
    CompletionStep(f, d, base, now, ok);
    ProgressRefl(BoxOf(s, m));
    if d.member == m {
      CompletionTarget(f.inbox[m], d, base);
      AnswerIsBoxChange(f, m, letter.msgId, d.pending.value, now, ok);
      var i := base + d.cursor;
      var after := BoxOf(AfterCompletion(s, id, now, ok), m);
      assert after[i].answeredAt == Some(now);
    }
  }

  /** The step leaves the answers of `m` alone: it completes only what is queued, and a restart finds
      all answers on disk. */
  predicate KeepsAnswers(s: System, step: Step, m: MemberId) {
    if step.Restart? then m in s.hub.family.inbox ==> FileHasAnswers(s.hub.family, m) else FindsQueued(s, step, m)
  }

  lemma StepFinalIff(s: System, step: Step, m: MemberId)
    requires Live(s, m) && FreshLetter(s, step) && Stays(step, m) && NewTime(s, step, m)
    ensures FinalProgress(BoxOf(s, m), BoxOf(Next(s, step), m)) <==> KeepsAnswers(s, step, m)
  {
    hide FileHasAnswers, LoadedInbox, Progress;
    hide Inv, FinalProgress, TurnState, TurnReply, WithAnswer, WithLetter, WithPresence, IndexOf, QueuedOf;
    ProgressRefl(BoxOf(s, m));
    InvFamily(s);
    match step
    case Enqueue(n, letter, ok) =>
      if s.hub.family.Knows(n) {
        LetterIsBoxChange(s.hub.family, n, letter, ok);
        EnqueueKeepsInv(s, n, letter, ok);
      }
    case SetPresence(n, state, now, ok) =>
      if s.hub.family.Knows(n) && state in PRESENCE_STATES {
        PresenceIsBoxChange(s.hub.family, n, state, now, ok);
      }
    case StartDrain(id, n) =>
    case DrainTurn(id, io) =>
      if id in s.drains && s.drains[id].cursor < |s.drains[id].snapshot| {
        var d := s.drains[id];
        var letter := d.snapshot[d.cursor].letter;
        TurnLeavesFamily(s.hub, letter.person, d.member, letter.prompt, io);
      }
    case CompleteDrained(id, now, ok) =>
      if Completes(s, id) {
        CompletionFinalIff(s, id, now, ok, m);
      }
    case EndDrain(id) =>
    case Chat(person, n, prompt, io) =>
      TurnLeavesFamily(s.hub, person, n, prompt, io);
    case Restart(members, presence) =>
      RestartKeepsIff(s, members, presence, m);
  }

  /** Between any two moments of the run, no answer already given changes. */
  ghost predicate AnswersFinal(s: System, steps: seq<Step>, m: MemberId)
    decreases |steps|
  {
    && (forall k :: 0 <= k <= |steps| ==> FinalProgress(BoxOf(s, m), BoxOf(Run(s, steps[..k]), m)))
    && (steps != [] ==> AnswersFinal(Next(s, steps[0]), steps[1..], m))
  }

  predicate AlwaysKeepsAnswers(s: System, steps: seq<Step>, m: MemberId)
    decreases |steps|
  {
    steps != [] ==> KeepsAnswers(s, steps[0], m) && AlwaysKeepsAnswers(Next(s, steps[0]), steps[1..], m)
  }

  ghost predicate NewTimes(s: System, steps: seq<Step>, m: MemberId)
    decreases |steps|
  {
    steps != [] ==> NewTime(s, steps[0], m) && NewTimes(Next(s, steps[0]), steps[1..], m)
  }

  lemma RunPrefix(s: System, steps: seq<Step>, k: nat)
    requires 0 < k <= |steps|
    ensures Run(s, steps[..k]) == Run(Next(s, steps[0]), steps[1..][..k - 1])
  {
    hide Next;
    assert steps[..k][1..] == steps[1..][..k - 1];
  }

  lemma NoSteps(s: System, steps: seq<Step>)
    ensures Run(s, steps[..0]) == s
  {
  }

  /** The guard that completing lacks: over any run, with or without overlapping drains and lost flushes,
      answers are final if and only if every completion finds its message still queued and every
      restart finds all answers on disk. */
  lemma {:induction false} AnswersFinalIff(s: System, steps: seq<Step>, m: MemberId)
    requires Live(s, m) && FreshRun(s, steps) && StaysOn(steps, m) && NewTimes(s, steps, m)
    ensures AnswersFinal(s, steps, m) <==> AlwaysKeepsAnswers(s, steps, m)
    decreases |steps|
  {
    hide Live, Next, Run, FreshLetter, FinalProgress, Progress, Stays, NewTime, KeepsAnswers, KeepsMessages;
    NoSteps(s, steps);
    ProgressRefl(BoxOf(s, m));
    if steps != [] {
      var t := Next(s, steps[0]);
      assert Stays(steps[0], m);
      StepProgress(s, steps[0], m);
      StepFinalIff(s, steps[0], m);
      assert StaysOn(steps[1..], m);
      AnswersFinalIff(t, steps[1..], m);
      RunPrefix(s, steps, 1);
      NoSteps(t, steps[1..]);
      if AlwaysKeepsAnswers(s, steps, m) {
        forall k | 0 < k <= |steps|
          ensures FinalProgress(BoxOf(s, m), BoxOf(Run(s, steps[..k]), m))
        {
          RunPrefix(s, steps, k);
          var u := Run(t, steps[1..][..k - 1]);
          RefineFinal(BoxOf(s, m), BoxOf(t, m));
          RefineFinal(BoxOf(t, m), BoxOf(u, m));
          ProgressTrans(BoxOf(s, m), BoxOf(t, m), BoxOf(u, m));
        }
      }
    }
  }

  // ----- members dropped from the registry ---------------------------------------

  predicate EverWrites(s: System, steps: seq<Step>)
    decreases |steps|
  {
    steps != [] && (WritesFile(s, steps[0]) || EverWrites(Next(s, steps[0]), steps[1..]))
  }

  /** No restart in the run brings `m` back into the registry. */
  predicate StaysAway(steps: seq<Step>, m: MemberId) {
    forall i :: 0 <= i < |steps| && steps[i].Restart? ==> m !in steps[i].members
  }

  lemma AwayStep(s: System, step: Step, m: MemberId)
    requires m !in s.hub.family.inbox && (step.Restart? ==> m !in step.members)
    ensures var f, g := s.hub.family, Next(s, step).hub.family;
            m !in g.inbox && if WritesFile(s, step) then LoadedInbox(g.file, m) == [] else g.file == f.file
  {
    hide TurnState, TurnReply;
    match step
    case DrainTurn(id, io) =>
      if id in s.drains && s.drains[id].cursor < |s.drains[id].snapshot| {
        var d := s.drains[id];
        var letter := d.snapshot[d.cursor].letter;
        TurnLeavesFamily(s.hub, letter.person, d.member, letter.prompt, io);
      }
    case Chat(person, n, prompt, io) =>
      TurnLeavesFamily(s.hub, person, n, prompt, io);
    case _ =>
  }

  /** While `m` is away the file keeps its messages until something writes it, and then never again. */
  lemma {:induction false} AwayRun(s: System, steps: seq<Step>, m: MemberId)
    requires m !in s.hub.family.inbox && StaysAway(steps, m)
    ensures var file, after := s.hub.family.file, Run(s, steps).hub.family;
            && m !in after.inbox
            && (EverWrites(s, steps) || LoadedInbox(file, m) == [] ==> LoadedInbox(after.file, m) == [])
            && (!EverWrites(s, steps) ==> after.file == file)
    decreases |steps|
  {
    hide Next, WritesFile;
    if steps != [] {
      var t := Next(s, steps[0]);
      AwayStep(s, steps[0], m);
      AwayRun(t, steps[1..], m);
    }
  }

  lemma {:induction false} RunThen(s: System, steps: seq<Step>, last: Step)
    ensures Run(s, steps + [last]) == Next(Run(s, steps), last)
    decreases |steps|
  {
    hide Next;
    if steps == [] {
      RunOne(s, last);
      assert [] + [last] == [last];
    } else {
      assert (steps + [last])[1..] == steps[1..] + [last];
      RunThen(Next(s, steps[0]), steps[1..], last);
    }
  }

  /** A restart drops `m` from the registry, anything at all happens, a later restart takes it back:
      its messages return exactly when nothing wrote the file meanwhile, or there were none. */
  lemma DroppedMemberSurvives(s: System, without: set<MemberId>, again: set<MemberId>, steps: seq<Step>,
                              m: MemberId, presence: string, presence2: string)
    requires m !in without && m in again && StaysAway(steps, m)
    ensures var dropped, file := Next(s, Restart(without, presence)), s.hub.family.file;
            BoxOf(Run(s, [Restart(without, presence)] + steps + [Restart(again, presence2)]), m) == LoadedInbox(file, m)
            <==> LoadedInbox(file, m) == [] || !EverWrites(dropped, steps)
  {
    hide EverWrites, Run;
    var out, back := Restart(without, presence), Restart(again, presence2);
    var dropped := Next(s, out);
    AwayRun(dropped, steps, m);
    RunThen(s, [out] + steps, back);
    FirstStep(s, out, steps);
  }

  lemma FirstStep(s: System, first: Step, rest: seq<Step>)
    ensures Run(s, [first] + rest) == Run(Next(s, first), rest)
  {
    hide Next;
    assert ([first] + rest)[1..] == rest;
  }
}
