/** Where the splitter cuts: never finer than it has to, stated of the pieces and the text alone. */
module SplitCuts {
  import opened Text
  import opened Splitter

  /** The separator finds nothing to cut in `s`. */
  predicate Uncut(s: string, sep: string) {
    |SplitOn(s, sep)| == 1
  }

  /** In the text's own terms: it does not occur, or only at the very start. */
  lemma UncutMeans(s: string, sep: string)
    requires s != "" && sep != ""
    ensures Uncut(s, sep) <==> !Contains(s, sep) || OpensWith(s, sep)
  {
    if Uncut(s, sep) {
      SplitOnLossless(s, sep);
      SeparatorLeads(s, sep, 0);
    }
    if Contains(s, sep) && OpensWith(s, sep) {
      assert OccursAt(s, sep, 0);
      assert Split(s, sep) == [s[..0]] + Split(s[|sep|..], sep);
      assert Split(s[|sep|..], sep) == [s[|sep|..]];
      assert Prefixed(sep, [s[|sep|..]]) == [sep + s[|sep|..]];
      assert Split(s, sep)[1..] == [s[|sep|..]];
      assert sep + s[|sep|..] == s;
      assert [""] + [s] == ["", s] && ["", s][1..] == [s];
    }
  }

  ghost predicate UncutBefore(s: string, j: nat) {
    forall k :: 0 <= k < j && k < |SEPARATORS| ==> Uncut(s, SEPARATORS[k])
  }

  /** Past its second character the separator does not start over. */
  predicate StartsOnce(sep: string) {
    sep != "" && forall d :: 2 <= d < |sep| ==> sep[d] != sep[0]
  }

  lemma SeparatorsStartOnce(k: nat)
    requires k < |SEPARATORS| - 1
    ensures StartsOnce(SEPARATORS[k])
  {
  }

  lemma OccursInSlice(s: string, a: nat, t: string, sep: string, q: nat)
    requires a + |t| <= |s| && t == s[a..a + |t|] && OccursAt(t, sep, q)
    ensures OccursAt(s, sep, a + q)
  {
    var part := s[a + q..a + q + |sep|];
    forall k | 0 <= k < |sep|
      ensures part[k] == sep[k]
    {
      assert t[q..q + |sep|][k] == t[q + k] == s[a + q + k];
    }
  }

  lemma OccursLater(s: string, sep: string, i: nat)
    requires OpensWith(s, sep) && i >= |sep|
    ensures !OccursAt(s, sep, i)
  {
    if OccursAt(s, sep, i) {
      assert s[|sep|..][i - |sep|..i] == s[i..i + |sep|];
      assert OccursAt(s[|sep|..], sep, i - |sep|);
      assert false;
    }
  }

  /** Where a separator can occur in a stretch that it does not cut. */
  lemma OccursEarly(s: string, sep: string, i: nat)
    requires StartsOnce(sep) && s != "" && Uncut(s, sep) && OccursAt(s, sep, i)
    ensures OpensWith(s, sep) && i <= 1 && i < |sep|
  {
    UncutMeans(s, sep);
    if i >= |sep| {
      OccursLater(s, sep, i);
    } else if i >= 2 {
      NoSecondStart(s, sep, i);
    }
  }

  lemma NoSecondStart(s: string, sep: string, i: nat)
    requires StartsOnce(sep) && sep <= s && 2 <= i < |sep| && i + |sep| <= |s|
    ensures !OccursAt(s, sep, i)
  {
    assert s[i] == sep[i];
    assert s[i..i + |sep|][0] == s[i];
  }

  lemma PrefixOccurs(s: string, t: string, sep: string)
    requires sep <= s && |sep| <= |t| <= |s| && t == s[0..|t|]
    ensures OccursAt(t, sep, 0)
  {
    assert t[0..|sep|] == s[..|sep|];
  }

  lemma NothingLater(s: string, a: nat, t: string, sep: string, r: nat)
    requires StartsOnce(sep) && s != "" && a + |t| <= |s| && t == s[a..a + |t|] && Uncut(s, sep) && |sep| <= |t|
    ensures !OccursAt(t[|sep|..], sep, r)
  {
    hide Uncut, StartsOnce;
    if OccursAt(t[|sep|..], sep, r) {
      assert t[|sep|..][r..r + |sep|] == t[|sep| + r..|sep| + r + |sep|];
      OccursInSlice(s, a, t, sep, |sep| + r);
      OccursEarly(s, sep, a + |sep| + r);
      assert false;
    }
  }

  /** No part of an uncut stretch is cut either. */
  lemma StillUncut(s: string, a: nat, t: string, sep: string)
    requires StartsOnce(sep) && t != "" && a + |t| <= |s| && t == s[a..a + |t|] && Uncut(s, sep)
    ensures Uncut(t, sep)
  {
    hide Uncut, StartsOnce;
    assert sep != "" by {
      SomeStart(sep);
    }
    UncutMeans(t, sep);
    if Contains(t, sep) {
      var q := Find(t, sep, 0).value;
      OccursInSlice(s, a, t, sep, q);
      OccursEarly(s, sep, a + q);
      if a == 0 {
        PrefixOccurs(s, t, sep);
      }
      assert |sep| <= |t|;
      forall r: nat
        ensures !OccursAt(t[|sep|..], sep, r)
      {
        NothingLater(s, a, t, sep, r);
      }
    }
  }

  lemma SomeStart(sep: string)
    requires StartsOnce(sep)
    ensures sep != ""
  {
  }

  // ----- what a cut needs --------------------------------------------------------

  /** The front of a stretch ends where one of these parts does. */
  ghost predicate AtCut(front: seq<string>, parts: seq<string>) {
    exists c :: 0 < c < |parts| && Concat(front) == Concat(parts[..c])
  }

  /** Every boundary of the parts is a boundary of the pieces. */
  ghost predicate AllCutsMade(pieces: seq<string>, parts: seq<string>) {
    forall c :: 0 <= c <= |parts| ==> CutMade(pieces, parts, c)
  }

  ghost predicate CutMade(pieces: seq<string>, parts: seq<string>, c: nat)
    requires c <= |parts|
  {
    exists e :: 0 <= e <= |pieces| && Concat(pieces[..e]) == Concat(parts[..c])
  }

  /** The cut before piece `i` is due to separator `j`: the stretch `[lo, hi)` around it is too big, no
      coarser separator cuts the stretch, and the pieces are cut wherever `j` cuts it. */
  ghost predicate CutBy(ps: seq<string>, i: nat, lo: nat, hi: nat, j: nat, target: int, tok: TokenCount) {
    && lo < i < hi <= |ps| && j < |SEPARATORS|
    && tok(Concat(ps[lo..hi])) > target
    && UncutBefore(Concat(ps[lo..hi]), j)
    && AllCutsMade(ps[lo..hi], SplitOn(Concat(ps[lo..hi]), SEPARATORS[j]))
    && AtCut(ps[lo..i], SplitOn(Concat(ps[lo..hi]), SEPARATORS[j]))
  }

  ghost predicate CutNeeded(ps: seq<string>, i: nat, target: int, tok: TokenCount) {
    exists lo, hi, j :: CutBy(ps, i, lo, hi, j, target, tok)
  }

  lemma SameStretch(front: seq<string>, mid: seq<string>, back: seq<string>, lo: nat, hi: nat)
    requires lo <= hi <= |mid|
    ensures (front + mid + back)[|front| + lo..|front| + hi] == mid[lo..hi]
  {
  }

  lemma CutInside(front: seq<string>, mid: seq<string>, back: seq<string>, i: nat, target: int, tok: TokenCount)
    requires CutNeeded(mid, i, target, tok)
    ensures CutNeeded(front + mid + back, |front| + i, target, tok)
  {
    hide UncutBefore, AllCutsMade, AtCut, Concat, SplitOn;
    var lo: nat, hi: nat, j: nat :| CutBy(mid, i, lo, hi, j, target, tok);
    var all, n := front + mid + back, |front|;
    SameStretch(front, mid, back, lo, hi);
    SameStretch(front, mid, back, lo, i);
    assert CutBy(all, n + i, n + lo, n + hi, j, target, tok);
  }

  /** Piece `c` is a stretch of the joined text. */
  lemma PieceIsSlice(pieces: seq<string>, c: nat) returns (a: nat)
    requires c < |pieces|
    ensures a + |pieces[c]| <= |Concat(pieces)| && Concat(pieces)[a..a + |pieces[c]|] == pieces[c]
  {
    a := |Concat(pieces[..c])|;
    assert pieces == pieces[..c] + pieces[c..];
    ConcatAppend(pieces[..c], pieces[c..]);
    assert Concat(pieces[c..]) == pieces[c] + Concat(pieces[c + 1..]);
  }

  /** After a cut at separator `j` neither it nor any coarser one cuts a piece. */
  lemma PiecesUncut(text: string, j: nat)
    requires text != "" && j < |SEPARATORS| && UncutBefore(text, j) && |SplitOn(text, SEPARATORS[j])| != 1
    ensures forall p :: p in SplitOn(text, SEPARATORS[j]) ==> p != "" && UncutBefore(p, j + 1)
  {
    hide Uncut, SplitOn, OpensWith, Contains, StartsOnce;
    var pieces := SplitOn(text, SEPARATORS[j]);
    SplitOnLossless(text, SEPARATORS[j]);
    forall c | 0 <= c < |pieces|
      ensures pieces[c] != "" && UncutBefore(pieces[c], j + 1)
    {
      assert pieces[c] in pieces;
      forall k | 0 <= k < j
        ensures Uncut(pieces[c], SEPARATORS[k])
      {
        var a := PieceIsSlice(pieces, c);
        SeparatorsStartOnce(k);
        StillUncut(text, a, pieces[c], SEPARATORS[k]);
      }
      OwnPieceUncut(text, j, c);
    }
  }

  lemma OwnPieceUncut(text: string, j: nat, c: nat)
    requires j < |SEPARATORS| && c < |SplitOn(text, SEPARATORS[j])| && SplitOn(text, SEPARATORS[j])[c] != ""
    ensures Uncut(SplitOn(text, SEPARATORS[j])[c], SEPARATORS[j])
  {
    var p := SplitOn(text, SEPARATORS[j])[c];
    if SEPARATORS[j] == "" {
      assert |p| == 1;
    } else {
      SeparatorLeads(text, SEPARATORS[j], c);
      UncutMeans(p, SEPARATORS[j]);
    }
  }

  lemma {:induction false} RecursiveCuts(text: string, target: int, tok: TokenCount, from: nat)
    requires text != "" && UncutBefore(text, from)
    ensures var ps := Recursive(text, target, tok, from);
            forall i :: 0 < i < |ps| ==> CutNeeded(ps, i, target, tok)
    decreases Levels(from), 0, 0
  {
    hide CutNeeded, SplitOn, UncutBefore;
    if tok(text) > target && from < |SEPARATORS| {
      var pieces := SplitOn(text, SEPARATORS[from]);
      if |pieces| == 1 {
        OneMoreUncut(text, from);
        RecursiveCuts(text, target, tok, from + 1);
      } else {
        PiecesUncut(text, from);
        RefinedCuts(pieces, target, tok, from + 1);
        RefinedLossless(pieces, target, tok, from + 1);
        SplitOnLossless(text, SEPARATORS[from]);
        var ps := Refined(pieces, target, tok, from + 1);
        forall i | 0 < i < |ps|
          ensures CutNeeded(ps, i, target, tok)
        {
          if AtCut(ps[..i], pieces) {
            assert ps[0..|ps|] == ps && ps[0..i] == ps[..i];
            assert CutBy(ps, i, 0, |ps|, from, target, tok);
            CutIsNeeded(ps, i, 0, |ps|, from, target, tok);
          }
        }
      }
    }
  }

  lemma CutIsNeeded(ps: seq<string>, i: nat, lo: nat, hi: nat, j: nat, target: int, tok: TokenCount)
    requires CutBy(ps, i, lo, hi, j, target, tok)
    ensures CutNeeded(ps, i, target, tok)
  {
  }

  lemma OneMoreUncut(text: string, from: nat)
    requires from < |SEPARATORS| && UncutBefore(text, from) && |SplitOn(text, SEPARATORS[from])| == 1
    ensures UncutBefore(text, from + 1)
  {
    hide SplitOn;
  }

  /** The refined pieces are cut where the given ones are, and otherwise only as needed. */
  lemma {:induction false} RefinedCuts(pieces: seq<string>, target: int, tok: TokenCount, from: nat)
    requires forall p :: p in pieces ==> p != "" && UncutBefore(p, from)
    ensures var ps := Refined(pieces, target, tok, from);
            && AllCutsMade(ps, pieces)
            && forall i :: 0 < i < |ps| ==> AtCut(ps[..i], pieces) || CutNeeded(ps, i, target, tok)
    decreases Levels(from), 1, |pieces|
  {
    hide CutNeeded, UncutBefore, AtCut, AllCutsMade, Concat;
    if pieces == [] {
      NoCuts();
    } else {
      var head := if tok(pieces[0]) <= target then [pieces[0]] else Recursive(pieces[0], target, tok, from);
      HeadJoins(pieces[0], target, tok, from);
      assert pieces[0] in pieces;
      assert forall p :: p in pieces[1..] ==> p in pieces;
      if tok(pieces[0]) > target {
        RecursiveCuts(pieces[0], target, tok, from);
      }
      RefinedCuts(pieces[1..], target, tok, from);
      ConsCuts(head, Refined(pieces[1..], target, tok, from), pieces, target, tok);
      assert pieces[1..] == [] ==> Refined(pieces[1..], target, tok, from) == [];
    }
  }

  /** Cuts of the head and of the rest are cuts of both joined, and between them lies a given one. */
  lemma ConsCuts(head: seq<string>, rest: seq<string>, pieces: seq<string>, target: int, tok: TokenCount)
    requires pieces != [] && Concat(head) == pieces[0] && (pieces[1..] == [] ==> rest == [])
    requires AllCutsMade(rest, pieces[1..])
    requires forall i :: 0 < i < |head| ==> CutNeeded(head, i, target, tok)
    requires forall i :: 0 < i < |rest| ==> AtCut(rest[..i], pieces[1..]) || CutNeeded(rest, i, target, tok)
    ensures AllCutsMade(head + rest, pieces)
    ensures forall i :: 0 < i < |head + rest| ==> AtCut((head + rest)[..i], pieces) || CutNeeded(head + rest, i, target, tok)
  {
    hide CutNeeded, AtCut, AllCutsMade, Concat;
    CutsAfterHead(head, rest, pieces);
    forall i | 0 < i < |head + rest|
      ensures AtCut((head + rest)[..i], pieces) || CutNeeded(head + rest, i, target, tok)
    {
      if i < |head| {
        CutInside([], head, rest, i, target, tok);
        assert [] + head + rest == head + rest;
      } else if i == |head| {
        CutAtHead(head, rest, pieces);
      } else if CutNeeded(rest, i - |head|, target, tok) {
        CutInside(head, rest, [], i - |head|, target, tok);
        assert head + rest + [] == head + rest;
      } else {
        CutBeyondHead(head, rest, pieces, i);
      }
    }
  }

  lemma NoCuts()
    ensures AllCutsMade([], [])
  {
    var none: seq<string> := [];
    assert none[..0] == none;
    assert CutMade(none, none, 0);
  }

  lemma HeadJoins(piece: string, target: int, tok: TokenCount, from: nat)
    ensures var head := if tok(piece) <= target then [piece] else Recursive(piece, target, tok, from);
            Concat(head) == piece
  {
    assert [piece][1..] == [];
    RecursiveLossless(piece, target, tok, from);
  }

  lemma CutsAfterHead(head: seq<string>, rest: seq<string>, pieces: seq<string>)
    requires pieces != [] && Concat(head) == pieces[0] && AllCutsMade(rest, pieces[1..])
    ensures AllCutsMade(head + rest, pieces)
  {
    var ps := head + rest;
    forall c | 0 <= c <= |pieces|
      ensures CutMade(ps, pieces, c)
    {
      if c == 0 {
        assert ps[..0] == [] && pieces[..0] == [];
      } else {
        FrontJoins(pieces, c - 1);
        assert CutMade(rest, pieces[1..], c - 1);
        var e :| 0 <= e <= |rest| && Concat(rest[..e]) == Concat(pieces[1..][..c - 1]);
        assert ps[..|head| + e] == head + rest[..e];
        ConcatAppend(head, rest[..e]);
      }
    }
  }

  lemma CutAtHead(head: seq<string>, rest: seq<string>, pieces: seq<string>)
    requires pieces != [] && Concat(head) == pieces[0] && pieces[1..] != []
    ensures AtCut((head + rest)[..|head|], pieces)
  {
    assert (head + rest)[..|head|] == head;
    assert pieces[..1] == [pieces[0]] && [pieces[0]][1..] == [];
    assert Concat(pieces[..1]) == pieces[0];
  }

  lemma CutBeyondHead(head: seq<string>, rest: seq<string>, pieces: seq<string>, i: nat)
    requires pieces != [] && Concat(head) == pieces[0] && |head| < i < |head| + |rest|
    requires AtCut(rest[..i - |head|], pieces[1..])
    ensures AtCut((head + rest)[..i], pieces)
  {
    var k := i - |head|;
    var c :| 0 < c < |pieces[1..]| && Concat(rest[..k]) == Concat(pieces[1..][..c]);
    assert (head + rest)[..i] == head + rest[..k];
    ConcatAppend(head, rest[..k]);
    FrontJoins(pieces, c);
  }

  lemma FrontJoins(pieces: seq<string>, c: nat)
    requires pieces != [] && c < |pieces|
    ensures Concat(pieces[..c + 1]) == pieces[0] + Concat(pieces[1..][..c])
  {
    assert pieces[..c + 1][1..] == pieces[1..][..c];
  }

  /** No finer cut while a coarser separator would do: for every two neighbouring pieces of any text
      there is a stretch around their cut that is too big to stay whole, that no separator coarser than
      the one of the cut occurs in to cut it, and in which every cut of that separator is made. */
  lemma CutsAreNeeded(text: string, target: int, tok: TokenCount, i: nat)
    requires 0 < i < |Recursive(text, target, tok, 0)|
    ensures CutNeeded(Recursive(text, target, tok, 0), i, target, tok)
  {
    if text == "" {
      EmptyStays(target, tok, 0);
    } else {
      RecursiveCuts(text, target, tok, 0);
    }
  }

  lemma {:induction false} EmptyStays(target: int, tok: TokenCount, from: nat)
    ensures |Recursive("", target, tok, from)| <= 1
    decreases Levels(from)
  {
    if tok("") > target && from < |SEPARATORS| {
      NothingToSplit(SEPARATORS[from]);
      if |SplitOn("", SEPARATORS[from])| == 1 {
        EmptyStays(target, tok, from + 1);
      }
    }
  }

  lemma NothingToSplit(sep: string)
    ensures |SplitOn("", sep)| <= 1
  {
  }

  /** In particular a word is broken up only when it is too big itself: the stretch around a cut
      between two characters has no space, and no line break, past its start. */
  lemma WordsStayWhole(ps: seq<string>, i: nat, lo: nat, hi: nat, target: int, tok: TokenCount)
    requires CutBy(ps, i, lo, hi, |SEPARATORS| - 1, target, tok)
    ensures var s := Concat(ps[lo..hi]);
            tok(s) > target && forall k :: 0 < k < |s| ==> s[k] != ' ' && s[k] != '\n'
  {
    var s := Concat(ps[lo..hi]);
    assert Uncut(s, SEPARATORS[7]) && Uncut(s, SEPARATORS[5]);
    if s != "" {
      forall k | 0 < k < |s|
        ensures s[k] != ' ' && s[k] != '\n'
      {
        OneCharUncut(s, " ", k);
        OneCharUncut(s, "\n", k);
      }
    }
  }

  lemma OneCharUncut(s: string, sep: string, k: nat)
    requires |sep| == 1 && 0 < k < |s| && Uncut(s, sep)
    ensures s[k] != sep[0]
  {
    if s[k] == sep[0] {
      assert s[k..k + 1] == sep;
      OccursEarly(s, sep, k);
      assert false;
    }
  }

  // ----- pass by pass ---------------------------------------------------------------

  /** One pass over the pieces: those still too big are split on one separator, the others kept. */
  function Pass(pieces: seq<string>, sep: string, target: int, tok: TokenCount): seq<string> {
    if pieces == [] then []
    else (if tok(pieces[0]) <= target then [pieces[0]] else SplitOn(pieces[0], sep)) + Pass(pieces[1..], sep, target, tok)
  }

  /** One pass per separator, from coarse to fine. */
  function Passes(pieces: seq<string>, target: int, tok: TokenCount, from: nat): seq<string>
    decreases Levels(from)
  {
    if from >= |SEPARATORS| then pieces else Passes(Pass(pieces, SEPARATORS[from], target, tok), target, tok, from + 1)
  }

  lemma {:induction false} PassAppend(a: seq<string>, b: seq<string>, sep: string, target: int, tok: TokenCount)
    ensures Pass(a + b, sep, target, tok) == Pass(a, sep, target, tok) + Pass(b, sep, target, tok)
  {
    hide SplitOn;
    if a == [] {
      assert a + b == b;
    } else {
      assert (a + b)[1..] == a[1..] + b;
      PassAppend(a[1..], b, sep, target, tok);
    }
  }

  lemma {:induction false} PassesAppend(a: seq<string>, b: seq<string>, target: int, tok: TokenCount, from: nat)
    ensures Passes(a + b, target, tok, from) == Passes(a, target, tok, from) + Passes(b, target, tok, from)
    decreases Levels(from)
  {
    hide Pass;
    if from < |SEPARATORS| {
      PassAppend(a, b, SEPARATORS[from], target, tok);
      PassesAppend(Pass(a, SEPARATORS[from], target, tok), Pass(b, SEPARATORS[from], target, tok), target, tok, from + 1);
    }
  }

  /** The recursion gives what nine passes over the whole text give. */
  lemma {:induction false} RecursiveIsPasses(text: string, target: int, tok: TokenCount, from: nat)
    ensures Recursive(text, target, tok, from) == Passes([text], target, tok, from)
    decreases Levels(from), 0, 0
  {
    hide SplitOn;
    if from < |SEPARATORS| {
      assert [text][1..] == [];
      var sep := SEPARATORS[from];
      if tok(text) <= target {
        assert Pass([text], sep, target, tok) == [text];
        RecursiveIsPasses(text, target, tok, from + 1);
      } else {
        var pieces := SplitOn(text, sep);
        assert Pass([text], sep, target, tok) == pieces;
        SplitOnLossless(text, sep);
        if |pieces| == 1 {
          RecursiveIsPasses(text, target, tok, from + 1);
        } else {
          RefinedIsPasses(pieces, target, tok, from + 1);
        }
      }
    }
  }

  lemma {:induction false} RefinedIsPasses(pieces: seq<string>, target: int, tok: TokenCount, from: nat)
    ensures Refined(pieces, target, tok, from) == Passes(pieces, target, tok, from)
    decreases Levels(from), 1, |pieces|
  {
    if pieces == [] {
      NothingPasses(target, tok, from);
    } else {
      var head := if tok(pieces[0]) <= target then [pieces[0]] else Recursive(pieces[0], target, tok, from);
      RecursiveIsPasses(pieces[0], target, tok, from);
      assert head == Recursive(pieces[0], target, tok, from);
      RefinedIsPasses(pieces[1..], target, tok, from);
      PassesAppend([pieces[0]], pieces[1..], target, tok, from);
      assert pieces == [pieces[0]] + pieces[1..];
    }
  }

  lemma {:induction false} NothingPasses(target: int, tok: TokenCount, from: nat)
    ensures Passes([], target, tok, from) == []
    decreases Levels(from)
  {
    if from < |SEPARATORS| {
      NothingPasses(target, tok, from + 1);
    }
  }
}
