/** Staging and eviction broken into file-system steps, with a crash possible between any two. */
module TieringRuns {
  import opened Wrappers
  import opened Tiering

  /** What the manager is in the middle of. */
  datatype Task =
    | Idle
    | Copying(name: Name, tier: Tier)
    | Checked(name: Name, tier: Tier)
    | Evicting(rest: seq<Name>, freed: nat, needed: int)

  datatype System = System(tiers: Tiers, task: Task)

  datatype Step =
    | BeginStage(name: Name)
    | CopyBytes(bytes: Bytes, now: int)
    | Verify
    | Rename
    | BeginEvict(needed: int, pinned: set<Name>, listing: seq<Name>)
    | EvictOne
    | Touch(name: Name, now: int)
    | Crash

  function WithHot(s: System, hot: Dir, task: Task): System {
    System(s.tiers.(hot := hot), task)
  }

  function Next(s: System, step: Step): System {
    var hot := s.tiers.hot;
    match step
    case BeginStage(name) =>
      (match FindWeights(s.tiers, name)
       case Some(tier) => if s.task.Idle? && tier != Hot && !IsStaging(name) then s.(task := Copying(name, tier)) else s
       case None => s)
    case CopyBytes(bytes, now) =>
      // the copy may leave anything under the staging name at any time
      if s.task.Copying? then WithHot(s, hot[StagingName(s.task.name) := File(bytes, now)], s.task) else s
    case Verify =>
      if s.task.Copying? && StagingName(s.task.name) in hot && s.task.name in DirFor(s.tiers, s.task.tier) then
        if hot[StagingName(s.task.name)].bytes == DirFor(s.tiers, s.task.tier)[s.task.name].bytes
        then s.(task := Checked(s.task.name, s.task.tier))
        else WithHot(s, Removed(hot, [StagingName(s.task.name)]), Idle)
      else s
    case Rename =>
      if s.task.Checked? && StagingName(s.task.name) in hot then
        var staged := hot[StagingName(s.task.name)];
        WithHot(s, Removed(hot, [StagingName(s.task.name)])[s.task.name := staged], Idle)
      else s
    case BeginEvict(needed, pinned, listing) =>
      if s.task.Idle? then s.(task := Evicting(Candidates(s.tiers, pinned, listing), 0, needed)) else s
    case EvictOne =>
      if !s.task.Evicting? then s
      else if s.task.rest == [] || s.task.freed >= s.task.needed then s.(task := Idle)
      else
        var name := s.task.rest[0];
        WithHot(s, Removed(hot, [name]),
                Evicting(s.task.rest[1..], s.task.freed + SizeOf(s.tiers, name), s.task.needed))
    case Touch(name, now) =>
      if name in hot then WithHot(s, hot[name := hot[name].(atime := now)], s.task) else s
    case Crash => s.(task := Idle)
  }

  function Run(s: System, steps: seq<Step>): System
    decreases |steps|
  {
    if steps == [] then s else Run(Next(s, steps[0]), steps[1..])
  }

  // ----- safety ---------------------------------------------------------------------

  predicate Below(t: Tiers, name: Name) {
    name in t.warm || name in t.cold
  }

  predicate Somewhere(t: Tiers, name: Name) {
    name in t.hot || Below(t, name)
  }

  /** A directory lists what it holds, each name once. */
  ghost predicate GoodStep(s: System, step: Step) {
    step.BeginEvict? ==> Lists(step.listing, s.tiers.hot)
  }

  /** What the manager knows while it works. */
  ghost predicate TaskInv(s: System) {
    match s.task
    case Idle => true
    case Copying(name, tier) => tier != Hot && !IsStaging(name) && name in DirFor(s.tiers, tier) && name !in s.tiers.hot
    case Checked(name, tier) =>
      && tier != Hot && !IsStaging(name) && name in DirFor(s.tiers, tier) && name !in s.tiers.hot
      && StagingName(name) in s.tiers.hot
      && s.tiers.hot[StagingName(name)].bytes == DirFor(s.tiers, tier)[name].bytes
    case Evicting(rest, _, _) => Distinct(rest) && forall n :: n in rest ==> Below(s.tiers, n) && !IsStaging(n)
  }

  /** The hot copy of `name` is what it was at the start, or a complete copy from below. */
  predicate Intact(start: Tiers, now: Tiers, name: Name)
    requires name in now.hot
  {
    || (name in start.hot && now.hot[name].bytes == start.hot[name].bytes)
    || (name in start.warm && now.hot[name].bytes == start.warm[name].bytes)
    || (name in start.cold && now.hot[name].bytes == start.cold[name].bytes)
  }

  /** Lower tiers are as at the start, no weights are gone, and no hot file is torn. */
  ghost predicate Safe(start: Tiers, now: Tiers) {
    && now.warm == start.warm && now.cold == start.cold
    && (forall n :: Somewhere(start, n) && !IsStaging(n) ==> Somewhere(now, n))
    && (forall n :: n in now.hot && !IsStaging(n) ==> Intact(start, now, n))
  }

  lemma StagingOfStaged(name: Name)
    requires !IsStaging(name)
    ensures IsStaging(StagingName(name)) && StagingName(name) != name
  {
    StagingNameIsStaging(name);
  }

  /** Each file-system step, and a crash at any point, keeps the tiers safe. */
  lemma StepKeepsSafe(start: Tiers, s: System, step: Step)
    requires Safe(start, s.tiers) && TaskInv(s) && GoodStep(s, step)
    ensures Safe(start, Next(s, step).tiers) && TaskInv(Next(s, step))
  {
    hide IsStaging, Candidates;
    match step
    case BeginStage(name) =>
    case CopyBytes(bytes, now) =>
      if s.task.Copying? {
        StagingOfStaged(s.task.name);
      }
    case Verify =>
      if s.task.Copying? {
        StagingOfStaged(s.task.name);
      }
    case Rename =>
      if s.task.Checked? {
        StagingOfStaged(s.task.name);
      }
    case BeginEvict(needed, pinned, listing) =>
      CandidatesAreEligible(s.tiers, pinned, listing);
    case EvictOne => EvictOneKeepsSafe(start, s);
    case Touch(name, now) =>
    case Crash =>
  }

  lemma EvictOneKeepsSafe(start: Tiers, s: System)
    requires Safe(start, s.tiers) && TaskInv(s)
    ensures Safe(start, Next(s, EvictOne).tiers) && TaskInv(Next(s, EvictOne))
  {
    if s.task.Evicting? && s.task.rest != [] && s.task.freed < s.task.needed {
      var name, rest := s.task.rest[0], s.task.rest[1..];
      FirstUnlink(s);
      var t := Next(s, EvictOne);
      assert name in s.task.rest;
      forall n | n in t.tiers.hot && !IsStaging(n)
        ensures Intact(start, t.tiers, n)
      {
        assert Intact(start, s.tiers, n);
      }
      forall n | n in rest
        ensures Below(t.tiers, n) && !IsStaging(n)
      {
        assert n in s.task.rest;
      }
    }
  }

  ghost predicate GoodRun(s: System, steps: seq<Step>)
    decreases |steps|
  {
    steps != [] ==> GoodStep(s, steps[0]) && GoodRun(Next(s, steps[0]), steps[1..])
  }

  lemma {:induction false} RunKeepsSafe(start: Tiers, s: System, steps: seq<Step>)
    requires Safe(start, s.tiers) && TaskInv(s) && GoodRun(s, steps)
    ensures Safe(start, Run(s, steps).tiers) && TaskInv(Run(s, steps))
    decreases |steps|
  {
    hide Safe, TaskInv, GoodStep, Next;
    if steps != [] {
      StepKeepsSafe(start, s, steps[0]);
      RunKeepsSafe(start, Next(s, steps[0]), steps[1..]);
    }
  }

  /** Whole runs with crashes anywhere: no weights disappear, lower tiers never change, and a
      hot file under its final name is never torn. */
  lemma NothingLostOrTorn(t: Tiers, steps: seq<Step>)
    requires GoodRun(System(t, Idle), steps)
    ensures Safe(t, Run(System(t, Idle), steps).tiers)
  {
    RunKeepsSafe(t, System(t, Idle), steps);
  }

  // ----- pinned files --------------------------------------------------------------------

  /** Every eviction of the run is told to keep `name`. */
  ghost predicate AlwaysPinned(steps: seq<Step>, name: Name) {
    forall i :: 0 <= i < |steps| && steps[i].BeginEvict? ==> name in steps[i].pinned
  }

  /** No eviction in progress is going to remove `name`. */
  predicate Spared(s: System, name: Name) {
    name in s.tiers.hot && (s.task.Evicting? ==> name !in s.task.rest)
  }

  lemma StepSpares(s: System, step: Step, name: Name)
    requires Spared(s, name) && GoodStep(s, step) && !NamedStaging(name)
    requires step.BeginEvict? ==> name in step.pinned
    ensures Spared(Next(s, step), name)
  {
    hide Candidates;
    match step
    case BeginEvict(needed, pinned, listing) =>
      CandidatesMean(s.tiers, pinned, listing);
    case EvictOne =>
      if s.task.Evicting? && s.task.rest != [] {
        assert s.task.rest[0] in s.task.rest;
        assert forall n :: n in s.task.rest[1..] ==> n in s.task.rest;
      }
    case Verify =>
      StagingNamed(s, name);
    case Rename =>
      StagingNamed(s, name);
    case _ =>
  }

  lemma StagingNamed(s: System, name: Name)
    requires !NamedStaging(name)
    ensures s.task.Copying? || s.task.Checked? ==> StagingName(s.task.name) != name
  {
    if s.task.Copying? || s.task.Checked? {
      StagingNameIsStaging(s.task.name);
    }
  }

  /** Over whole runs with crashes anywhere: a file pinned at every eviction never leaves the hot tier,
      whatever space is asked for. */
  lemma {:induction false} PinnedStay(s: System, steps: seq<Step>, name: Name)
    requires Spared(s, name) && GoodRun(s, steps) && AlwaysPinned(steps, name) && !NamedStaging(name)
    ensures name in Run(s, steps).tiers.hot
    decreases |steps|
  {
    hide Next, GoodStep, NamedStaging;
    if steps != [] {
      assert steps[0].BeginEvict? ==> name in steps[0].pinned;
      StepSpares(s, steps[0], name);
      assert AlwaysPinned(steps[1..], name);
      PinnedStay(Next(s, steps[0]), steps[1..], name);
    }
  }

  // ----- agreeing copies ------------------------------------------------------------------

  /** All copies of each weights file have the same content. */
  ghost predicate Agree(t: Tiers) {
    forall n :: !IsStaging(n) ==> AgreeOn(t, n)
  }

  predicate AgreeOn(t: Tiers, n: Name) {
    && (n in t.hot && n in t.warm ==> t.hot[n].bytes == t.warm[n].bytes)
    && (n in t.hot && n in t.cold ==> t.hot[n].bytes == t.cold[n].bytes)
    && (n in t.warm && n in t.cold ==> t.warm[n].bytes == t.cold[n].bytes)
  }

  function ContentOf(t: Tiers, n: Name): Bytes
    requires Somewhere(t, n)
  {
    if n in t.hot then t.hot[n].bytes else if n in t.warm then t.warm[n].bytes else t.cold[n].bytes
  }

  /** If the copies of each file agree at the start they always agree, and whatever is evicted and
      staged again comes back with the same bytes. */
  lemma ContentPreserved(t: Tiers, steps: seq<Step>)
    requires Agree(t) && GoodRun(System(t, Idle), steps)
    ensures var u := Run(System(t, Idle), steps).tiers;
            && Agree(u)
            && forall n :: Somewhere(t, n) && !IsStaging(n) ==> Somewhere(u, n) && ContentOf(u, n) == ContentOf(t, n)
  {
    hide Run, GoodRun, IsStaging;
    NothingLostOrTorn(t, steps);
    var u := Run(System(t, Idle), steps).tiers;
    forall n | !IsStaging(n)
      ensures AgreeOn(u, n)
      ensures Somewhere(t, n) ==> Somewhere(u, n) && ContentOf(u, n) == ContentOf(t, n)
    {
      assert AgreeOn(t, n);
      assert n in u.hot ==> Intact(t, u, n);
    }
  }

  // ----- exactly when content is kept -----------------------------------------------------

  /** The content the manager would stage: that of the first lower copy. */
  function ContentBelow(t: Tiers, n: Name): Bytes
    requires Below(t, n)
  {
    if n in t.warm then t.warm[n].bytes else t.cold[n].bytes
  }

  ghost predicate KeepsContent(t: Tiers, u: Tiers) {
    forall n :: Somewhere(t, n) && !IsStaging(n) ==> Somewhere(u, n) && ContentOf(u, n) == ContentOf(t, n)
  }

  /** What eviction may delete is what staging would bring back. */
  ghost predicate EvictionIsSafe(t: Tiers) {
    forall n :: Eligible(t, {}, n) ==> t.hot[n].bytes == ContentBelow(t, n)
  }

  predicate SafeToLose(t: Tiers, n: Name) {
    Below(t, n) && (n in t.hot ==> t.hot[n].bytes == ContentBelow(t, n))
  }

  /** Hot files hold the original content, and what left the hot tier is the same below. */
  ghost predicate Restorable(start: Tiers, now: Tiers) {
    && now.warm == start.warm && now.cold == start.cold
    && (forall n :: n in now.hot && !IsStaging(n) ==> Somewhere(start, n) && now.hot[n].bytes == ContentOf(start, n))
    && (forall n :: n in start.hot && !IsStaging(n) && n !in now.hot ==> SafeToLose(start, n))
  }

  ghost predicate TaskRestores(start: Tiers, s: System) {
    match s.task
    case Copying(name, tier) => FindWeights(s.tiers, name) == Some(tier)
    case Checked(name, tier) => FindWeights(s.tiers, name) == Some(tier)
    case Evicting(rest, _, _) => forall n :: n in rest ==> SafeToLose(start, n)
    case _ => true
  }

  ghost predicate RestoreInv(start: Tiers, s: System) {
    TaskInv(s) && Restorable(start, s.tiers) && TaskRestores(start, s)
  }

  lemma RestorableKeepsContent(t: Tiers, u: Tiers)
    requires Restorable(t, u)
    ensures KeepsContent(t, u)
  {
  }

  lemma CandidatesSafeToLose(start: Tiers, s: System, pinned: set<Name>, listing: seq<Name>)
    requires EvictionIsSafe(start) && Restorable(start, s.tiers) && Lists(listing, s.tiers.hot)
    ensures forall n :: n in Candidates(s.tiers, pinned, listing) ==> SafeToLose(start, n)
  {
    hide IsStaging, Candidates;
    CandidatesAreEligible(s.tiers, pinned, listing);
    forall n | n in Candidates(s.tiers, pinned, listing)
      ensures SafeToLose(start, n)
    {
      assert Eligible(s.tiers, pinned, n);
      if n in start.hot {
        assert Eligible(start, {}, n);
      }
    }
  }

  lemma StepKeepsRestorable(start: Tiers, s: System, step: Step)
    requires EvictionIsSafe(start) && RestoreInv(start, s) && GoodStep(s, step)
    ensures RestoreInv(start, Next(s, step))
  {
    hide IsStaging, Candidates, EvictionIsSafe;
    match step
    case BeginStage(name) =>
    case CopyBytes(bytes, now) =>
      if s.task.Copying? {
        StagingOfStaged(s.task.name);
      }
    case Verify =>
      if s.task.Copying? {
        StagingOfStaged(s.task.name);
      }
    case Rename =>
      if s.task.Checked? {
        StagingOfStaged(s.task.name);
        assert Next(s, step).tiers.hot[s.task.name].bytes == ContentBelow(start, s.task.name);
      }
    case BeginEvict(needed, pinned, listing) =>
      CandidatesAreEligible(s.tiers, pinned, listing);
      CandidatesSafeToLose(start, s, pinned, listing);
    case EvictOne => EvictOneRestorable(start, s);
    case Touch(name, now) =>
    case Crash =>
  }

  lemma EvictOneRestorable(start: Tiers, s: System)
    requires RestoreInv(start, s)
    ensures RestoreInv(start, Next(s, EvictOne))
  {
    hide IsStaging;
    if s.task.Evicting? && s.task.rest != [] && s.task.freed < s.task.needed {
      FirstUnlink(s);
      var t := Next(s, EvictOne);
      assert s.task.rest[0] in s.task.rest;
      forall n | n in s.task.rest[1..]
        ensures Below(t.tiers, n) && !IsStaging(n) && SafeToLose(start, n)
      {
        assert n in s.task.rest;
      }
    }
  }

  lemma {:induction false} RunKeepsRestorable(start: Tiers, s: System, steps: seq<Step>)
    requires EvictionIsSafe(start) && RestoreInv(start, s) && GoodRun(s, steps)
    ensures RestoreInv(start, Run(s, steps))
    decreases |steps|
  {
    hide EvictionIsSafe, RestoreInv, GoodStep, Next;
    if steps != [] {
      StepKeepsRestorable(start, s, steps[0]);
      RunKeepsRestorable(start, Next(s, steps[0]), steps[1..]);
    }
  }

  // ----- evicting everything eligible ----------------------------------------------------

  lemma {:induction false} ListOf(dir: Dir) returns (listing: seq<Name>)
    ensures Lists(listing, dir)
    decreases |dir|
  {
    if dir == map[] {
      listing := [];
    } else {
      var n :| n in dir;
      var rest := dir - {n};
      assert rest.Keys == dir.Keys - {n};
      listing := ListOf(rest);
      listing := [n] + listing;
    }
  }

  lemma {:induction false} TotalSizeGrows(t: Tiers, names: seq<Name>, j: nat)
    requires j <= |names|
    ensures TotalSize(t, names[..j]) <= TotalSize(t, names)
  {
    if j < |names| {
      TotalSizeGrows(t, names[..|names| - 1], j);
      assert names[..|names| - 1][..j] == names[..j];
    } else {
      assert names[..j] == names;
    }
  }

  /** The run that asks for more than there is: every eligible file goes. */
  function EvictAll(t: Tiers, listing: seq<Name>): seq<Step> {
    var c := Candidates(t, {}, listing);
    [BeginEvict(TotalSize(t, c) + 1, {}, listing)] + EvictSteps(|c|)
  }

  lemma EvictsAll(t: Tiers, listing: seq<Name>)
    requires Lists(listing, t.hot)
    ensures GoodRun(System(t, Idle), EvictAll(t, listing))
    ensures Run(System(t, Idle), EvictAll(t, listing)).tiers
         == t.(hot := Removed(t.hot, Candidates(t, {}, listing)))
  {
    hide Candidates, TotalSize, EvictSteps, Removed;
    var c := Candidates(t, {}, listing);
    var s := System(t, Evicting(c, 0, TotalSize(t, c) + 1));
    var begin := BeginEvict(TotalSize(t, c) + 1, {}, listing);
    CandidatesAreEligible(t, {}, listing);
    forall j | 0 <= j < |c|
      ensures TotalSize(t, c[..j]) < TotalSize(t, c) + 1
    {
      TotalSizeGrows(t, c, j);
    }
    EvictionIsRun(s, |c|);
    assert c[..|c|] == c;
    assert ([begin] + EvictSteps(|c|))[1..] == EvictSteps(|c|);
    assert Next(System(t, Idle), begin) == s;
    EvictStepsGood(s, |c|);
  }

  lemma {:induction false} EvictStepsGood(s: System, k: nat)
    ensures GoodRun(s, EvictSteps(k))
    decreases k
  {
    hide Next;
    if k > 0 {
      EvictStepsGood(Next(s, EvictOne), k - 1);
      assert ([EvictOne] + EvictSteps(k - 1))[1..] == EvictSteps(k - 1);
    }
  }

  /** Eviction compares sizes, not content: over all runs and crashes the content of every weights
      file is kept if and only if each file it may delete has the content of its first lower copy. */
  lemma ContentKeptIff(t: Tiers)
    ensures (forall steps :: GoodRun(System(t, Idle), steps) ==> KeepsContent(t, Run(System(t, Idle), steps).tiers))
       <==> EvictionIsSafe(t)
  {
    hide GoodRun, Run, KeepsContent, Restorable, IsStaging, Candidates, EvictAll;
    if EvictionIsSafe(t) {
      forall steps | GoodRun(System(t, Idle), steps)
        ensures KeepsContent(t, Run(System(t, Idle), steps).tiers)
      {
        StartRestorable(t);
        RunKeepsRestorable(t, System(t, Idle), steps);
        RestorableKeepsContent(t, Run(System(t, Idle), steps).tiers);
      }
    } else {
      var n :| Eligible(t, {}, n) && t.hot[n].bytes != ContentBelow(t, n);
      var listing := ListOf(t.hot);
      EvictsAll(t, listing);
      CandidatesAreEligible(t, {}, listing);
      LosesContent(t, Candidates(t, {}, listing), n);
    }
  }

  lemma StartRestorable(t: Tiers)
    ensures Restorable(t, t)
  {
  }

  lemma LosesContent(t: Tiers, names: seq<Name>, n: Name)
    requires Eligible(t, {}, n) && t.hot[n].bytes != ContentBelow(t, n) && n in names
    ensures !KeepsContent(t, t.(hot := Removed(t.hot, names)))
  {
    hide IsStaging;
    var u := t.(hot := Removed(t.hot, names));
    assert ContentOf(u, n) == ContentBelow(t, n);
  }

  /** Two copies of one size and different content are enough to lose the hot one. */
  lemma EvictionTrustsSizes(lower: Bytes, upper: Bytes, name: Name)
    requires |lower| == |upper| && lower != upper && !IsStaging(name)
    ensures var t := Tiers(map[name := File(upper, 0)], map[name := File(lower, 0)], map[]);
            exists steps :: GoodRun(System(t, Idle), steps) && !KeepsContent(t, Run(System(t, Idle), steps).tiers)
  {
    var t := Tiers(map[name := File(upper, 0)], map[name := File(lower, 0)], map[]);
    assert Eligible(t, {}, name);
    ContentKeptIff(t);
  }

  // ----- the methods are runs ------------------------------------------------------------------

  /** A copy that raises is a run as well: whatever it left stays under the staging name. */
  lemma FailedCopyIsRun(t: Tiers, name: Name, tier: Tier, left: Bytes, now: int)
    requires FindWeights(t, name) == Some(tier) && tier != Hot && !IsStaging(name)
    ensures Run(System(t, Idle), [BeginStage(name), CopyBytes(left, now), Crash])
         == System(t.(hot := t.hot[StagingName(name) := File(left, now)]), Idle)
  {
    var steps := [BeginStage(name), CopyBytes(left, now), Crash];
    var s1 := Next(System(t, Idle), steps[0]);
    var s2 := Next(s1, steps[1]);
    assert steps[1..][1..] == [Crash] && [Crash][1..] == [];
    assert Run(s2, [Crash]) == Next(s2, Crash);
    assert Run(s1, steps[1..]) == Run(s2, [Crash]);
  }

  /** `ensure_hot` without a crash: locate, copy, verify, rename. */
  lemma StagingIsRun(t: Tiers, name: Name, tier: Tier, now: int)
    requires FindWeights(t, name) == Some(tier) && tier != Hot && !IsStaging(name)
    ensures var source := DirFor(t, tier)[name].bytes;
            Run(System(t, Idle), [BeginStage(name), CopyBytes(source, now), Verify, Rename])
            == System(t.(hot := Removed(t.hot, [StagingName(name)])[name := File(source, now)]), Idle)
  {
    StagingOfStaged(name);
    var source := DirFor(t, tier)[name].bytes;
    var steps := [BeginStage(name), CopyBytes(source, now), Verify, Rename];
    var s1 := Next(System(t, Idle), steps[0]);
    var s2 := Next(s1, steps[1]);
    var s3 := Next(s2, steps[2]);
    RunFour(System(t, Idle), steps);
    assert Removed(s3.tiers.hot, [StagingName(name)]) == Removed(t.hot, [StagingName(name)]);
  }

  lemma RunFour(s: System, steps: seq<Step>)
    requires |steps| == 4
    ensures Run(s, steps) == Next(Next(Next(Next(s, steps[0]), steps[1]), steps[2]), steps[3])
  {
    hide Next;
    assert steps[1..][1..] == steps[2..];
    assert steps[2..][1..] == steps[3..];
    assert steps[3..][1..] == [];
    assert Run(s, steps) == Run(Next(s, steps[0]), steps[1..]);
    assert Run(Next(s, steps[0]), steps[1..]) == Run(Next(Next(s, steps[0]), steps[1]), steps[2..]);
    assert Run(Next(Next(s, steps[0]), steps[1]), steps[2..])
        == Run(Next(Next(Next(s, steps[0]), steps[1]), steps[2]), steps[3..]);
  }

  function EvictSteps(k: nat): seq<Step> {
    if k == 0 then [] else [EvictOne] + EvictSteps(k - 1)
  }

  /** `evict_from_hot` without a crash: one unlink per step. */
  lemma {:induction false} EvictionIsRun(s: System, k: nat)
    requires s.task.Evicting? && k <= |s.task.rest| && Distinct(s.task.rest)
    requires forall n :: n in s.task.rest ==> n in s.tiers.hot
    requires forall j :: 0 <= j < k ==> s.task.freed + TotalSize(s.tiers, s.task.rest[..j]) < s.task.needed
    ensures Run(s, EvictSteps(k)).tiers == s.tiers.(hot := Removed(s.tiers.hot, s.task.rest[..k]))
    decreases k
  {
    if k == 0 {
      assert Removed(s.tiers.hot, []) == s.tiers.hot;
    } else {
      hide Next, TotalSize;
      var name, rest := s.task.rest[0], s.task.rest[1..];
      var t := Next(s, EvictOne);
      assert TotalSize(s.tiers, s.task.rest[..0]) == 0 by {
        NothingEvicted(s.tiers);
        assert s.task.rest[..0] == [];
      }
      FirstUnlink(s);
      StillShort(s, t, k);
      EvictionIsRun(t, k - 1);
      assert ([EvictOne] + EvictSteps(k - 1))[1..] == EvictSteps(k - 1);
      RemovedInTurn(s.tiers.hot, name, rest[..k - 1]);
      assert s.task.rest[..k] == [name] + rest[..k - 1];
    }
  }

  lemma RemovedInTurn(dir: Dir, name: Name, rest: seq<Name>)
    ensures Removed(Removed(dir, [name]), rest) == Removed(dir, [name] + rest)
  {
  }

  /** After the first unlink the remaining prefixes still do not free enough. */
  lemma StillShort(s: System, t: System, k: nat)
    requires s.task.Evicting? && 0 < k <= |s.task.rest| && Distinct(s.task.rest)
    requires forall j :: 0 <= j < k ==> s.task.freed + TotalSize(s.tiers, s.task.rest[..j]) < s.task.needed
    requires t == System(s.tiers.(hot := Removed(s.tiers.hot, [s.task.rest[0]])),
                         Evicting(s.task.rest[1..], s.task.freed + SizeOf(s.tiers, s.task.rest[0]), s.task.needed))
    ensures forall j :: 0 <= j < k - 1 ==> t.task.freed + TotalSize(t.tiers, t.task.rest[..j]) < t.task.needed
  {
    hide TotalSize;
    var name, rest := s.task.rest[0], s.task.rest[1..];
    forall j | 0 <= j < k - 1
      ensures t.task.freed + TotalSize(t.tiers, rest[..j]) < t.task.needed
    {
      assert s.task.rest[..j + 1] == [name] + rest[..j];
      TotalSizeFront(s.tiers, name, rest[..j]);
      TotalSizeSame(s.tiers, t.tiers, rest[..j]);
    }
  }

  lemma FirstUnlink(s: System)
    requires s.task.Evicting? && s.task.rest != [] && s.task.freed < s.task.needed
    ensures Next(s, EvictOne)
         == System(s.tiers.(hot := Removed(s.tiers.hot, [s.task.rest[0]])),
                   Evicting(s.task.rest[1..], s.task.freed + SizeOf(s.tiers, s.task.rest[0]), s.task.needed))
  {
  }

  lemma {:induction false} TotalSizeFront(t: Tiers, name: Name, rest: seq<Name>)
    ensures TotalSize(t, [name] + rest) == SizeOf(t, name) + TotalSize(t, rest)
  {
    var all := [name] + rest;
    if rest == [] {
      assert all[..0] == [];
    } else {
      assert all[..|all| - 1] == [name] + rest[..|rest| - 1];
      TotalSizeFront(t, name, rest[..|rest| - 1]);
    }
  }

  lemma {:induction false} TotalSizeSame(t: Tiers, u: Tiers, names: seq<Name>)
    requires forall n :: n in names ==> SizeOf(t, n) == SizeOf(u, n)
    ensures TotalSize(t, names) == TotalSize(u, names)
  {
    if names != [] {
      TotalSizeSame(t, u, names[..|names| - 1]);
    }
  }
}
