/** The Python string operations the services rely on: `strip`, `find`, `split`, `join`. */
module Text {
  import opened Wrappers

  // ----- str.isspace and str.strip --------------------------------------

  /** The characters `str.strip()` removes. */
  predicate IsSpace(c: char) {
    var n := c as int;
    || 0x09 <= n <= 0x0d
    || 0x1c <= n <= 0x20
    || n == 0x85 || n == 0xa0 || n == 0x1680
    || 0x2000 <= n <= 0x200a
    || n == 0x2028 || n == 0x2029 || n == 0x202f || n == 0x205f || n == 0x3000
  }

  predicate IsBlank(s: string) {
    forall i :: 0 <= i < |s| ==> IsSpace(s[i])
  }

  /** Position of the first non-space character at or after `from`, or `|s|`. */
  function FirstInk(s: string, from: nat): (p: nat)
    requires from <= |s|
    ensures from <= p <= |s|
    ensures forall i :: from <= i < p ==> IsSpace(s[i])
    ensures p < |s| ==> !IsSpace(s[p])
    decreases |s| - from
  {
    if from == |s| || !IsSpace(s[from]) then from else FirstInk(s, from + 1)
  }

  /** One past the last non-space character before `to`, or 0. */
  function LastInk(s: string, to: nat): (p: nat)
    requires to <= |s|
    ensures p <= to
    ensures forall i :: p <= i < to ==> IsSpace(s[i])
    ensures p > 0 ==> !IsSpace(s[p - 1])
  {
    if to == 0 || !IsSpace(s[to - 1]) then to else LastInk(s, to - 1)
  }

  /** `s.strip()`. */
  function Strip(s: string): (r: string)
    ensures r == "" <==> IsBlank(s)
    ensures r != "" ==> !IsSpace(r[0]) && !IsSpace(r[|r| - 1])
  {
    var lo, hi := FirstInk(s, 0), LastInk(s, |s|);
    if lo < hi then s[lo..hi] else ""
  }

  /** `t` is `s` without the white space around it. */
  ghost predicate IsTrim(t: string, s: string) {
    exists lo, hi :: TrimmedAt(t, s, lo, hi)
  }

  predicate TrimmedAt(t: string, s: string, lo: nat, hi: nat) {
    && lo <= hi <= |s| && t == s[lo..hi] && IsBlank(s[..lo]) && IsBlank(s[hi..])
    && (t != "" ==> !IsSpace(t[0]) && !IsSpace(t[|t| - 1]))
  }

  lemma BlankEnds(s: string, lo: nat, hi: nat)
    requires lo <= hi <= |s|
    requires forall i :: 0 <= i < lo || hi <= i < |s| ==> IsSpace(s[i])
    ensures IsBlank(s[..lo]) && IsBlank(s[hi..])
  {
    hide IsSpace;
  }

  /** `strip` cuts off white space, all of it, and nothing else. */
  lemma StripIsTrim(s: string)
    ensures IsTrim(Strip(s), s)
  {
    var lo, hi := FirstInk(s, 0), LastInk(s, |s|);
    if lo < hi {
      assert TrimmedAt(Strip(s), s, lo, hi) by {
        BlankEnds(s, lo, hi);
      }
    } else {
      assert TrimmedAt("", s, |s|, |s|) by {
        assert s[|s|..|s|] == "" && s[..|s|] == s;
      }
    }
  }

  /** And there is one such text only. */
  lemma TrimUnique(t: string, u: string, s: string)
    requires IsTrim(t, s) && IsTrim(u, s)
    ensures t == u
  {
    var lo: nat, hi: nat :| TrimmedAt(t, s, lo, hi);
    var lo2: nat, hi2: nat :| TrimmedAt(u, s, lo2, hi2);
    TrimLater(t, s, lo, hi, lo2, hi2);
    TrimLater(u, s, lo2, hi2, lo, hi);
    if t != "" && u != "" {
      assert lo == lo2 && hi == hi2;
    }
  }

  /** All ink of the one lies within the other. */
  lemma TrimLater(t: string, s: string, lo: nat, hi: nat, lo2: nat, hi2: nat)
    requires lo <= hi <= |s| && t == s[lo..hi] && (t != "" ==> !IsSpace(t[0]) && !IsSpace(t[|t| - 1]))
    requires lo2 <= hi2 <= |s| && IsBlank(s[..lo2]) && IsBlank(s[hi2..])
    ensures t != "" ==> lo2 <= lo && hi <= hi2
  {
    if t != "" {
      assert t[0] == s[lo] && t[|t| - 1] == s[hi - 1];
      forall k | 0 <= k < lo2
        ensures IsSpace(s[k])
      {
        assert s[..lo2][k] == s[k];
      }
      forall k | hi2 <= k < |s|
        ensures IsSpace(s[k])
      {
        assert s[hi2..][k - hi2] == s[k];
      }
    }
  }

  // ----- "".join ----------------------------------------------------------

  function Concat(parts: seq<string>): string {
    if parts == [] then "" else parts[0] + Concat(parts[1..])
  }

  lemma {:induction false} ConcatAppend(a: seq<string>, b: seq<string>)
    ensures Concat(a + b) == Concat(a) + Concat(b)
  {
    if a == [] {
      assert a + b == b;
    } else {
      assert (a + b)[1..] == a[1..] + b;
      ConcatAppend(a[1..], b);
    }
  }

  function NonEmpty(parts: seq<string>): (r: seq<string>)
    ensures "" !in r
    ensures forall p :: p in r ==> p in parts
    ensures |r| <= |parts|
    ensures "" !in parts ==> r == parts
  {
    if parts == [] then []
    else if parts[0] == "" then NonEmpty(parts[1..])
    else [parts[0]] + NonEmpty(parts[1..])
  }

  lemma ConcatNonEmpty(parts: seq<string>)
    ensures Concat(NonEmpty(parts)) == Concat(parts)
  {
  }

  // ----- str.find and str.split -------------------------------------------

  predicate OccursAt(s: string, sub: string, i: nat) {
    i + |sub| <= |s| && s[i..i + |sub|] == sub
  }

  /** Leftmost occurrence of `sub` at or after `from`. */
  function Find(s: string, sub: string, from: nat): (r: Option<nat>)
    ensures r.Some? ==> from <= r.value && OccursAt(s, sub, r.value)
    ensures r.Some? ==> forall j :: from <= j < r.value ==> !OccursAt(s, sub, j)
    ensures r.None? ==> forall j :: from <= j ==> !OccursAt(s, sub, j)
    decreases |s| + 1 - from
  {
    if from + |sub| > |s| then None
    else if OccursAt(s, sub, from) then Some(from)
    else Find(s, sub, from + 1)
  }

  predicate Contains(s: string, sub: string) {
    Find(s, sub, 0).Some?
  }

  /** `s.split(sep)`: cut at the leftmost occurrence, continue after it. */
  function Split(s: string, sep: string): (parts: seq<string>)
    requires sep != ""
    ensures |parts| >= 1
    ensures |parts| == 1 <==> !Contains(s, sep)
    decreases |s|
  {
    match Find(s, sep, 0)
    case None => [s]
    case Some(i) => [s[..i]] + Split(s[i + |sep|..], sep)
  }

  /** `sep.join(parts)`. */
  function Join(parts: seq<string>, sep: string): string {
    if parts == [] then ""
    else if |parts| == 1 then parts[0]
    else parts[0] + sep + Join(parts[1..], sep)
  }

  /** In `part + sep + ...`, the first cut falls right after `part`. */
  predicate CutsAfter(part: string, sep: string) {
    Find(part + sep, sep, 0) == Some(|part|)
  }

  /** What makes a list of parts the leftmost, non-overlapping split of `s`. */
  ghost predicate IsSplit(parts: seq<string>, s: string, sep: string) {
    && |parts| >= 1
    && Join(parts, sep) == s
    && (forall i :: 0 <= i < |parts| - 1 ==> CutsAfter(parts[i], sep))
    && !Contains(parts[|parts| - 1], sep)
  }

  lemma OccursInPrefix(s: string, t: string, sub: string, j: nat)
    requires s <= t && j + |sub| <= |s|
    ensures OccursAt(s, sub, j) == OccursAt(t, sub, j)
  {
    assert s[j..j + |sub|] == t[j..j + |sub|];
  }

  /** The first cut of `head + sep + rest` is at `|head|` exactly when it is in `head + sep`. */
  lemma FirstCut(head: string, sep: string, rest: string)
    requires sep != ""
    ensures (Find(head + sep + rest, sep, 0) == Some(|head|)) == CutsAfter(head, sep)
  {
    var s, t := head + sep, head + sep + rest;
    assert OccursAt(s, sep, |head|);
    forall j: nat | j <= |head|
      ensures OccursAt(s, sep, j) == OccursAt(t, sep, j)
    {
      OccursInPrefix(s, t, sep, j);
    }
  }

  lemma {:induction false} SplitIsSplit(s: string, sep: string)
    requires sep != ""
    ensures IsSplit(Split(s, sep), s, sep)
    decreases |s|
  {
    hide IsSplit, CutsAfter, Find;
    if Contains(s, sep) {
      var i := Find(s, sep, 0).value;
      var head, rest := s[..i], s[i + |sep|..];
      SplitIsSplit(rest, sep);
      assert s == head + sep + rest;
      FirstCut(head, sep, rest);
      SplitCons(head, Split(rest, sep), rest, sep);
    } else {
      SplitWhole(s, sep);
    }
  }

  lemma SplitWhole(s: string, sep: string)
    requires !Contains(s, sep)
    ensures IsSplit([s], s, sep)
  {
  }

  lemma SplitCons(head: string, tail: seq<string>, rest: string, sep: string)
    requires sep != "" && IsSplit(tail, rest, sep)
    requires CutsAfter(head, sep)
    ensures IsSplit([head] + tail, head + sep + rest, sep)
  {
    var parts := [head] + tail;
    assert parts[1..] == tail;
    forall k | 0 <= k < |parts| - 1
      ensures CutsAfter(parts[k], sep)
    {
      if k > 0 {
        assert parts[k] == tail[k - 1];
      }
    }
    assert parts[|parts| - 1] == tail[|tail| - 1];
  }

  /** Python's split is the only list of parts with those properties. */
  lemma {:induction false} SplitUnique(parts: seq<string>, s: string, sep: string)
    requires sep != "" && IsSplit(parts, s, sep)
    ensures parts == Split(s, sep)
    decreases |parts|
  {
    if |parts| > 1 {
      var rest := Join(parts[1..], sep);
      assert s == parts[0] + sep + rest;
      FirstCut(parts[0], sep, rest);
      assert s[..|parts[0]|] == parts[0];
      assert s[|parts[0]| + |sep|..] == rest;
      forall k | 0 <= k < |parts[1..]| - 1
        ensures CutsAfter(parts[1..][k], sep)
      {
        assert parts[1..][k] == parts[k + 1];
      }
      SplitUnique(parts[1..], rest, sep);
    }
  }

  // ----- colon-separated ids ------------------------------------------------

  /** The part after the last colon, and so also the part before it, is determined. */
  lemma SuffixAfterColon(a: string, m: string, b: string, n: string)
    requires ':' !in m && ':' !in n
    ensures a + ":" + m == b + ":" + n ==> a == b && m == n
  {
    var s, t := a + ":" + m, b + ":" + n;
    if s == t {
      assert s[|a|] == ':' && t[|b|] == ':';
      assert forall k :: |a| < k < |s| ==> s[k] == m[k - |a| - 1];
      assert forall k :: |b| < k < |t| ==> t[k] == n[k - |b| - 1];
      assert |a| == |b|;
      assert a == s[..|a|] && b == t[..|b|];
      assert m == s[|a| + 1..] && n == t[|b| + 1..];
    }
  }
}
