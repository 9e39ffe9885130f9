/** Weight tiering: staging files up to the hot tier and evicting them from it. */
module Tiering {
  import opened Wrappers
  import opened StableSort

  type Name = string
  type Bytes = seq<bv8>

  /** A file: its content and its last access time. */
  datatype File = File(bytes: Bytes, atime: int)

  type Dir = map<Name, File>

  datatype Tier = Hot | Warm | Cold

  datatype Tiers = Tiers(hot: Dir, warm: Dir, cold: Dir)

  datatype StageError = NotFound | ChecksumMismatch | CopyRaised

  /** How copying to the staging name goes: to an end, with whatever bytes arrived, or it raises and
      leaves a partial file, or none. */
  datatype CopyOutcome = Copied(bytes: Bytes) | CopyFailed(left: Option<Bytes>)

  function DirFor(t: Tiers, tier: Tier): Dir {
    match tier
    case Hot => t.hot
    case Warm => t.warm
    case Cold => t.cold
  }

  const TIER_ORDER: seq<Tier> := [Hot, Warm, Cold]

  /** The hottest tier that holds the file. */
  function FindWeights(t: Tiers, name: Name): Option<Tier> {
    if name in t.hot then Some(Hot)
    else if name in t.warm then Some(Warm)
    else if name in t.cold then Some(Cold)
    else None
  }

  function StagingName(name: Name): Name {
    name + ".staging"
  }

  predicate IsStaging(name: Name) {
    |name| >= 8 && name[|name| - 8..] == ".staging"
  }

  lemma StagingNameIsStaging(name: Name)
    ensures IsStaging(StagingName(name)) && StagingName(name) != name
    ensures NamedStaging(StagingName(name))
  {
    assert StagingName(name)[|StagingName(name)| - 8..] == ".staging";
  }

  // ----- eviction: who may go -------------------------------------------------------

  predicate SameSize(dir: Dir, name: Name, size: nat) {
    name in dir && |dir[name].bytes| == size
  }

  /** A hot file that eviction may remove: unpinned, not a staging file, and backed by a copy of
      the same size below. */
  predicate Eligible(t: Tiers, pinned: set<Name>, name: Name) {
    && name in t.hot && name !in pinned && !IsStaging(name)
    && (SameSize(t.warm, name, |t.hot[name].bytes|) || SameSize(t.cold, name, |t.hot[name].bytes|))
  }

  function EligibleIn(t: Tiers, pinned: set<Name>): Name -> bool {
    n => Eligible(t, pinned, n)
  }

  function OlderAccess(t: Tiers): (Name, Name) -> bool {
    (a, b) => AccessTime(t, a) <= AccessTime(t, b)
  }

  function AccessTime(t: Tiers, name: Name): int {
    if name in t.hot then t.hot[name].atime else 0
  }

  /** The candidates, least recently used first; `listing` is the directory's own order. */
  function Candidates(t: Tiers, pinned: set<Name>, listing: seq<Name>): seq<Name> {
    Sort(Filter(listing, EligibleIn(t, pinned)), OlderAccess(t))
  }

  function SizeOf(t: Tiers, name: Name): nat {
    if name in t.hot then |t.hot[name].bytes| else 0
  }

  function TotalSize(t: Tiers, names: seq<Name>): nat {
    if names == [] then 0 else TotalSize(t, names[..|names| - 1]) + SizeOf(t, names[|names| - 1])
  }

  /** The first `k` candidates free enough, and no fewer would; or all of them together do not. */
  ghost predicate IsCut(t: Tiers, candidates: seq<Name>, needed: int, k: nat) {
    && k <= |candidates|
    && (k < |candidates| ==> TotalSize(t, candidates[..k]) >= needed)
    && forall j :: 0 <= j < k ==> TotalSize(t, candidates[..j]) < needed
  }

  lemma CutUnique(t: Tiers, candidates: seq<Name>, needed: int, k: nat, l: nat)
    requires IsCut(t, candidates, needed, k) && IsCut(t, candidates, needed, l)
    ensures k == l
  {
  }

  lemma CutFreesEnough(t: Tiers, candidates: seq<Name>, needed: int, k: nat)
    requires IsCut(t, candidates, needed, k)
    ensures TotalSize(t, candidates[..k]) >= needed || candidates[..k] == candidates
    ensures k > 0 ==> candidates[..k][..k - 1] == candidates[..k - 1] && TotalSize(t, candidates[..k - 1]) < needed
  {
  }

  ghost predicate Lists(listing: seq<Name>, dir: Dir) {
    && (forall n :: n in listing <==> n in dir)
    && forall i, j :: 0 <= i < j < |listing| ==> listing[i] != listing[j]
  }

  ghost predicate Distinct(names: seq<Name>) {
    forall i, j :: 0 <= i < j < |names| ==> names[i] != names[j]
  }

  lemma {:induction false} FilterDistinct(names: seq<Name>, p: Name -> bool)
    requires Distinct(names)
    ensures Distinct(Filter(names, p))
  {
    if names != [] {
      FilterDistinct(names[1..], p);
    }
  }

  lemma {:induction false} InsertDistinct(x: Name, names: seq<Name>, le: (Name, Name) -> bool)
    requires Distinct(names) && x !in names
    ensures Distinct(Insert(x, names, le))
    ensures forall n :: n in Insert(x, names, le) <==> n == x || n in names
  {
    if names != [] && !le(x, names[0]) {
      InsertDistinct(x, names[1..], le);
      assert names == [names[0]] + names[1..];
      assert names[0] !in Insert(x, names[1..], le);
    }
  }

  lemma {:induction false} SortDistinct(names: seq<Name>, le: (Name, Name) -> bool)
    requires Distinct(names)
    ensures Distinct(Sort(names, le))
    ensures forall n :: n in Sort(names, le) <==> n in names
  {
    if names != [] {
      SortDistinct(names[1..], le);
      InsertDistinct(names[0], Sort(names[1..], le), le);
    }
  }

  lemma OlderAccessIsPreorder(t: Tiers)
    ensures TotalPreorder(OlderAccess(t))
  {
  }

  /** A lower tier holds a file of this name and length. */
  predicate Backed(warm: Dir, cold: Dir, name: Name, length: nat) {
    (name in warm && |warm[name].bytes| == length) || (name in cold && |cold[name].bytes| == length)
  }

  predicate NamedStaging(name: Name) {
    |name| >= |".staging"| && name[|name| - |".staging"|..] == ".staging"
  }

  /** The candidates are exactly the unpinned, backed-up hot files that are not being staged, each once,
      and none before one that was used earlier. */
  lemma CandidatesMean(t: Tiers, pinned: set<Name>, listing: seq<Name>)
    requires Lists(listing, t.hot)
    ensures var c := Candidates(t, pinned, listing);
            && (forall n :: n in c <==> && n in t.hot && n !in pinned && !NamedStaging(n)
                                        && Backed(t.warm, t.cold, n, |t.hot[n].bytes|))
            && (forall i, j :: 0 <= i < j < |c| ==> t.hot[c[i]].atime <= t.hot[c[j]].atime)
            && (forall i, j :: 0 <= i < j < |c| ==> c[i] != c[j])
  {
    hide Candidates;
    CandidatesAreEligible(t, pinned, listing);
    var c := Candidates(t, pinned, listing);
    assert forall i :: 0 <= i < |c| ==> c[i] in c;
    forall i, j | 0 <= i < j < |c|
      ensures t.hot[c[i]].atime <= t.hot[c[j]].atime
    {
      assert OlderAccess(t)(c[i], c[j]);
    }
  }

  /** The candidates are exactly the eligible files, each once, least recently used first. */
  lemma CandidatesAreEligible(t: Tiers, pinned: set<Name>, listing: seq<Name>)
    requires Lists(listing, t.hot)
    ensures var c := Candidates(t, pinned, listing);
            && Distinct(c) && Sorted(c, OlderAccess(t))
            && forall n :: n in c <==> Eligible(t, pinned, n)
  {
    hide Sort;
    var p := EligibleIn(t, pinned);
    OlderAccessIsPreorder(t);
    FilterDistinct(listing, p);
    SortDistinct(Filter(listing, p), OlderAccess(t));
    SortSorted(Filter(listing, p), OlderAccess(t));
  }

  // ----- the three directories ----------------------------------------------------------

  function Removed(dir: Dir, names: seq<Name>): Dir {
    map n | n in dir && n !in names :: dir[n]
  }

  lemma NothingEvicted(t: Tiers)
    ensures TotalSize(t, []) == 0 && Removed(t.hot, []) == t.hot
  {
  }

  /** What evicting one more file frees is its length. */
  lemma OneMoreEvicted(t: Tiers, evicted: seq<Name>, name: Name)
    requires name in t.hot
    ensures Removed(Removed(t.hot, evicted), [name]) == Removed(t.hot, evicted + [name])
    ensures TotalSize(t, evicted + [name]) == TotalSize(t, evicted) + |t.hot[name].bytes|
  {
    assert (evicted + [name])[..|evicted|] == evicted;
  }

  /** What a prefix leaves was not used before what it takes. */
  lemma PrefixIsOldest(t: Tiers, c: seq<Name>, k: nat)
    requires k <= |c| && forall n :: n in c ==> n in t.hot
    requires forall i, j :: 0 <= i < j < |c| ==> t.hot[c[i]].atime <= t.hot[c[j]].atime
    ensures forall n :: n in c[..k] ==> n in c
    ensures forall e, n :: e in c[..k] && n in c && n !in c[..k] ==> t.hot[e].atime <= t.hot[n].atime
  {
    forall e, n | e in c[..k] && n in c && n !in c[..k]
      ensures t.hot[e].atime <= t.hot[n].atime
    {
      var i :| 0 <= i < k && c[i] == e;
      var j :| 0 <= j < |c| && c[j] == n;
      assert c[..k][i] == e;
      assert forall x :: 0 <= x < k ==> c[x] in c[..k];
    }
  }

  lemma EligibleStep(t: Tiers, pinned: set<Name>, listing: seq<Name>, i: nat)
    requires i < |listing|
    ensures Filter(listing[..i + 1], EligibleIn(t, pinned))
         == Filter(listing[..i], EligibleIn(t, pinned)) + if Eligible(t, pinned, listing[i]) then [listing[i]] else []
  {
    hide Filter, Eligible;
    assert listing[..i + 1] == listing[..i] + [listing[i]];
    FilterAppend(listing[..i], [listing[i]], EligibleIn(t, pinned));
    FilterAll([listing[i]], EligibleIn(t, pinned));
  }

  class Storage {
    var hot: Dir
    var warm: Dir
    var cold: Dir

    ghost function Model(): Tiers
      reads this
    {
      Tiers(hot, warm, cold)
    }

    constructor (t: Tiers)
      ensures Model() == t
    {
      hot, warm, cold := t.hot, t.warm, t.cold;
    }

    /** Search loop over the tiers, hottest first. */
    method Find(name: Name) returns (r: Option<Tier>)
      ensures r == FindWeights(Model(), name)
      ensures r == Some(Hot) <==> name in hot
      ensures r == Some(Warm) <==> name !in hot && name in warm
      ensures r == Some(Cold) <==> name !in hot && name !in warm && name in cold
    {
      for i := 0 to |TIER_ORDER|
        invariant forall j :: 0 <= j < i ==> name !in DirFor(Model(), TIER_ORDER[j])
      {
        var tier := TIER_ORDER[i];
        var dir := match tier case Hot => hot case Warm => warm case Cold => cold;
        assert i > 0 ==> name !in DirFor(Model(), TIER_ORDER[0]);
        assert i > 1 ==> name !in DirFor(Model(), TIER_ORDER[1]);
        if name in dir {
          return Some(tier);
        }
      }
      assert forall j :: 0 <= j < 3 ==> name !in DirFor(Model(), TIER_ORDER[j]);
      assert name !in DirFor(Model(), TIER_ORDER[0]) && name !in DirFor(Model(), TIER_ORDER[1])
          && name !in DirFor(Model(), TIER_ORDER[2]);
      r := None;
    }

    /** Stage a file up; `now` is the staging file's access time. Equal digests are taken to mean
        equal bytes. */
    method EnsureHot(name: Name, copy: CopyOutcome, now: int) returns (r: Result<Option<Tier>, StageError>)
      modifies this`hot
      ensures match FindWeights(old(Model()), name)
              case None => r == Err(NotFound) && hot == old(hot)
              case Some(Hot) => r == Ok(None) && hot == old(hot)
              case Some(tier) =>
                var source, staging := DirFor(old(Model()), tier)[name].bytes, StagingName(name);
                match copy
                case CopyFailed(None) => r == Err(CopyRaised) && hot == old(hot)
                case CopyFailed(Some(left)) => r == Err(CopyRaised) && hot == old(hot)[staging := File(left, now)]
                case Copied(bytes) =>
                  if bytes == source
                  then r == Ok(Some(tier)) && hot == Removed(old(hot), [staging])[name := File(source, now)]
                  else r == Err(ChecksumMismatch) && hot == Removed(old(hot), [staging])
    {
      StagingNameIsStaging(name);
      var located := Find(name);
      if located.None? {
        return Err(NotFound);
      }
      var tier := located.value;
      if tier == Hot {
        return Ok(None);
      }
      var staging := StagingName(name);
      var source := (if tier == Warm then warm else cold)[name].bytes;
      if copy.CopyFailed? {
        if copy.left.Some? {
          hot := hot[staging := File(copy.left.value, now)];
        }
        return Err(CopyRaised);
      }
      hot := hot[staging := File(copy.bytes, now)];
      if hot[staging].bytes != source {
        hot := Removed(hot, [staging]);
        return Err(ChecksumMismatch);
      }
      var staged := hot[staging];
      hot := Removed(hot, [staging])[name := staged];
      r := Ok(Some(tier));
    }

    /** Scan the directory for files that may go. */
    method ListEligible(pinned: set<Name>, listing: seq<Name>) returns (eligible: seq<Name>)
      requires Lists(listing, hot)
      ensures eligible == Filter(listing, EligibleIn(Model(), pinned))
    {
      ghost var p := EligibleIn(Model(), pinned);
      eligible := [];
      for i := 0 to |listing|
        invariant eligible == Filter(listing[..i], p)
      {
        hide Filter;
        var name := listing[i];
        EligibleStep(Model(), pinned, listing, i);
        assert name in hot;
        var size := |hot[name].bytes|;
        if name in pinned || IsStaging(name) {
        } else if (name in warm && |warm[name].bytes| == size) || (name in cold && |cold[name].bytes| == size) {
          eligible := eligible + [name];
        }
      }
      assert listing[..|listing|] == listing;
    }

    /** A file that eviction could still remove. */
    ghost predicate Evictable(n: Name, pinned: set<Name>)
      reads this
    {
      n in hot && n !in pinned && !NamedStaging(n) && Backed(warm, cold, n, |hot[n].bytes|)
    }

    /** Remove least recently used files until `needed` bytes are free. */
    method EvictFromHot(needed: int, pinned: set<Name>, listing: seq<Name>) returns (evicted: seq<Name>)
      requires Lists(listing, hot)
      modifies this`hot
      ensures var c := Candidates(old(Model()), pinned, listing);
              && IsCut(old(Model()), c, needed, |evicted|) && evicted == c[..|evicted|]
              && hot == Removed(old(hot), evicted)
      ensures forall n :: n in hot <==> n in old(hot) && n !in evicted
      ensures forall n :: n in hot ==> hot[n] == old(hot)[n]
      ensures forall n :: n in evicted ==>
                n in old(hot) && n !in pinned && !NamedStaging(n) && Backed(warm, cold, n, |old(hot)[n].bytes|)
      ensures forall e, n :: e in evicted && Evictable(n, pinned) ==> old(hot)[e].atime <= hot[n].atime
      ensures TotalSize(old(Model()), evicted) >= needed || forall n :: !Evictable(n, pinned)
      ensures evicted != [] ==> TotalSize(old(Model()), evicted[..|evicted| - 1]) < needed
    {
      hide Sort, Filter, IsCut, OlderAccess, Lists, NamedStaging, Backed;
      ghost var t := Model();
      var eligible := ListEligible(pinned, listing);
      var candidates := Sort(eligible, OlderAccess(Tiers(hot, warm, cold)));
      CandidatesAreEligible(t, pinned, listing);
      assert candidates == Candidates(t, pinned, listing);
      evicted := EvictInOrder(candidates, needed);
      hide Candidates;
      CandidatesMean(t, pinned, listing);
      PrefixIsOldest(t, candidates, |evicted|);
      CutFreesEnough(t, candidates, needed, |evicted|);
    }

    method EvictInOrder(candidates: seq<Name>, needed: int) returns (evicted: seq<Name>)
      requires Distinct(candidates) && forall n :: n in candidates ==> n in hot
      modifies this`hot
      ensures |evicted| <= |candidates|
      ensures IsCut(old(Model()), candidates, needed, |evicted|) && evicted == candidates[..|evicted|]
      ensures hot == Removed(old(hot), evicted)
    {
      ghost var t := Model();
      hide TotalSize;
      evicted := [];
      var freed := 0;
      NothingEvicted(t);
      while |evicted| < |candidates|
        invariant |evicted| <= |candidates| && evicted == candidates[..|evicted|]
        invariant freed == TotalSize(t, evicted)
        invariant forall j :: 0 <= j < |evicted| ==> TotalSize(t, candidates[..j]) < needed
        invariant hot == Removed(t.hot, evicted)
      {
        if freed >= needed {
          break;
        }
        var name := candidates[|evicted|];
        assert name !in evicted;
        assert name in hot && hot[name] == t.hot[name];
        var size := |hot[name].bytes|;
        hot := Removed(hot, [name]);
        freed := freed + size;
        OneMoreEvicted(t, evicted, name);
        evicted := evicted + [name];
      }
    }
  }
}
