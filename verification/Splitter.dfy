/** The recursive splitter of the turn chunker: separators from coarse to fine. */
module Splitter {
  import opened Text

  /** Any tokenizer; nothing is assumed about how counts add up. */
  type TokenCount = string -> nat

  const SEPARATORS: seq<string> :=
    ["\n```", "\n### ", "\n## ", "\n# ", "\n\n", "\n", ". ", " ", ""]

  function Chars(s: string): (r: seq<string>)
    ensures |r| == |s| && forall i :: 0 <= i < |s| ==> r[i] == [s[i]]
  {
    seq(|s|, i requires 0 <= i < |s| => [s[i]])
  }

  function Prefixed(sep: string, parts: seq<string>): seq<string> {
    if parts == [] then [] else [sep + parts[0]] + Prefixed(sep, parts[1..])
  }

  /** Split, keeping each separator at the front of the piece it opens. */
  function SplitOn(text: string, sep: string): seq<string> {
    if sep == "" then Chars(text)
    else if !Contains(text, sep) then [text]
    else
      var parts := Split(text, sep);
      NonEmpty([parts[0]] + Prefixed(sep, parts[1..]))
  }

  lemma {:induction false} ConcatChars(s: string)
    ensures Concat(Chars(s)) == s
  {
    if s != "" {
      assert Chars(s)[1..] == Chars(s[1..]);
      ConcatChars(s[1..]);
    }
  }

  lemma {:induction false} ConcatPrefixed(sep: string, parts: seq<string>)
    requires parts != []
    ensures Concat([parts[0]] + Prefixed(sep, parts[1..])) == Join(parts, sep)
  {
    var tail := parts[1..];
    assert ([parts[0]] + Prefixed(sep, tail))[1..] == Prefixed(sep, tail);
    if tail != [] {
      ConcatPrefixed(sep, tail);
      var rest := Prefixed(sep, tail[1..]);
      assert ([tail[0]] + rest)[1..] == rest;
      assert Prefixed(sep, tail)[1..] == rest;
      assert (sep + tail[0]) + Concat(rest) == sep + (tail[0] + Concat(rest));
    }
  }

  /** Splitting on one separator loses nothing, and cuts `text` into smaller non-empty pieces. */
  lemma SplitOnLossless(text: string, sep: string)
    ensures Concat(SplitOn(text, sep)) == text
    ensures "" in SplitOn(text, sep) ==> SplitOn(text, sep) == [text]
    ensures |SplitOn(text, sep)| == 1 ==> SplitOn(text, sep) == [text]
  {
    if sep == "" {
      ConcatChars(text);
    } else if Contains(text, sep) {
      var parts := Split(text, sep);
      SplitIsSplit(text, sep);
      ConcatPrefixed(sep, parts);
      ConcatNonEmpty([parts[0]] + Prefixed(sep, parts[1..]));
    }
    var pieces := SplitOn(text, sep);
    if |pieces| == 1 {
      assert pieces[1..] == [];
      assert Concat(pieces) == pieces[0];
    }
  }

  /** `p` opens with the separator and holds no further one. */
  predicate OpensWith(p: string, sep: string) {
    sep <= p && !Contains(p[|sep|..], sep)
  }

  lemma {:induction false} PrefixedLeads(sep: string, parts: seq<string>)
    requires forall k :: 0 <= k < |parts| ==> !Contains(parts[k], sep)
    ensures forall p :: p in Prefixed(sep, parts) ==> OpensWith(p, sep)
  {
    if parts != [] {
      PrefixedLeads(sep, parts[1..]);
      assert (sep + parts[0])[|sep|..] == parts[0];
    }
  }

  /** The parts a split yields hold no separator. */
  lemma {:induction false} PartsUncut(s: string, sep: string)
    requires sep != ""
    ensures forall k :: 0 <= k < |Split(s, sep)| ==> !Contains(Split(s, sep)[k], sep)
    decreases |s|
  {
    match Find(s, sep, 0)
    case None =>
    case Some(i) =>
      PartsUncut(s[i + |sep|..], sep);
      HeadUncut(s, sep, i);
  }

  lemma HeadUncut(s: string, sep: string, i: nat)
    requires sep != "" && Find(s, sep, 0).Some? && Find(s, sep, 0).value == i
    ensures !Contains(s[..i], sep)
  {
    forall j: nat
      ensures !OccursAt(s[..i], sep, j)
    {
      if j + |sep| <= i {
        OccursInPrefix(s[..i], s, sep, j);
      }
    }
  }

  /** Cuts fall right before the separators, and before every one: each piece opens with a separator
      and holds no other, except that the first one may hold none at all. */
  lemma SeparatorLeads(text: string, sep: string, k: nat)
    requires k < |SplitOn(text, sep)| && sep != ""
    ensures var p := SplitOn(text, sep)[k];
            OpensWith(p, sep) || (k == 0 && !Contains(p, sep))
  {
    hide Split, OpensWith, Contains;
    if Contains(text, sep) {
      var parts := Split(text, sep);
      PartsUncut(text, sep);
      PrefixedLeads(sep, parts[1..]);
      var rest := Prefixed(sep, parts[1..]);
      assert ([parts[0]] + rest)[1..] == rest;
      var pieces := SplitOn(text, sep);
      if parts[0] == "" {
        assert pieces == NonEmpty(rest);
        assert pieces[k] in NonEmpty(rest);
      } else {
        assert pieces == [parts[0]] + NonEmpty(rest);
        if k > 0 {
          assert pieces[k] == NonEmpty(rest)[k - 1];
          assert pieces[k] in NonEmpty(rest);
        }
      }
    }
  }

  // ----- the recursion -----------------------------------------------------

  function Levels(sepIdx: nat): nat {
    if sepIdx < |SEPARATORS| then |SEPARATORS| - sepIdx else 0
  }

  /** The pieces of `text`, tried on the separators from `sepIdx` on. */
  function Recursive(text: string, target: int, tok: TokenCount, sepIdx: nat): seq<string>
    decreases Levels(sepIdx), 0, 0
  {
    if tok(text) <= target then [text]
    else if sepIdx >= |SEPARATORS| then [text]
    else
      var pieces := SplitOn(text, SEPARATORS[sepIdx]);
      if |pieces| == 1 then Recursive(text, target, tok, sepIdx + 1)
      else Refined(pieces, target, tok, sepIdx + 1)
  }

  /** The pieces in turn, each one that is still too big split again. */
  function Refined(pieces: seq<string>, target: int, tok: TokenCount, sepIdx: nat): seq<string>
    decreases Levels(sepIdx), 1, |pieces|
  {
    if pieces == [] then []
    else
      (if tok(pieces[0]) <= target then [pieces[0]] else Recursive(pieces[0], target, tok, sepIdx))
      + Refined(pieces[1..], target, tok, sepIdx)
  }

  lemma {:induction false} RefinedAppend(a: seq<string>, b: seq<string>, target: int, tok: TokenCount, sepIdx: nat)
    ensures Refined(a + b, target, tok, sepIdx) == Refined(a, target, tok, sepIdx) + Refined(b, target, tok, sepIdx)
    decreases |a|
  {
    if a == [] {
      assert a + b == b;
    } else {
      assert (a + b)[1..] == a[1..] + b;
      RefinedAppend(a[1..], b, target, tok, sepIdx);
    }
  }

  lemma RefinedStep(pieces: seq<string>, i: nat, target: int, tok: TokenCount, sepIdx: nat)
    requires i < |pieces|
    ensures Refined(pieces[..i + 1], target, tok, sepIdx)
         == Refined(pieces[..i], target, tok, sepIdx)
          + if tok(pieces[i]) <= target then [pieces[i]] else Recursive(pieces[i], target, tok, sepIdx)
  {
    assert pieces[..i + 1] == pieces[..i] + [pieces[i]];
    RefinedAppend(pieces[..i], [pieces[i]], target, tok, sepIdx);
    assert [pieces[i]][1..] == [];
  }

  /** The splitter as it runs: try one separator, then loop over the pieces. */
  method RecursiveSplit(text: string, target: int, tok: TokenCount, sepIdx: nat) returns (out: seq<string>)
    ensures out == Recursive(text, target, tok, sepIdx)
    decreases Levels(sepIdx), 0
  {
    if tok(text) <= target {
      return [text];
    }
    if sepIdx >= |SEPARATORS| {
      return [text];
    }
    var pieces := SplitOn(text, SEPARATORS[sepIdx]);
    if |pieces| == 1 {
      out := RecursiveSplit(text, target, tok, sepIdx + 1);
    } else {
      out := RefinePieces(pieces, target, tok, sepIdx + 1);
    }
  }

  method RefinePieces(pieces: seq<string>, target: int, tok: TokenCount, sepIdx: nat) returns (out: seq<string>)
    ensures out == Refined(pieces, target, tok, sepIdx)
    decreases Levels(sepIdx), 1
  {
    out := [];
    for i := 0 to |pieces|
      invariant out == Refined(pieces[..i], target, tok, sepIdx)
    {
      RefinedStep(pieces, i, target, tok, sepIdx);
      if tok(pieces[i]) <= target {
        out := out + [pieces[i]];
      } else {
        var more := RecursiveSplit(pieces[i], target, tok, sepIdx);
        out := out + more;
      }
    }
    assert pieces[..|pieces|] == pieces;
  }

  /** Small enough for the encoder, or a lone character that nothing can cut. */
  predicate Fits(piece: string, target: int, tok: TokenCount) {
    tok(piece) <= target || |piece| == 1
  }

  // ----- what the splitter promises ---------------------------------------

  /** Joined back together, the pieces are the text: no character lost, added or moved. */
  lemma {:induction false} RecursiveLossless(text: string, target: int, tok: TokenCount, sepIdx: nat)
    ensures Concat(Recursive(text, target, tok, sepIdx)) == text
    decreases Levels(sepIdx), 0, 0
  {
    assert [text][1..] == [];
    if tok(text) > target && sepIdx < |SEPARATORS| {
      var pieces := SplitOn(text, SEPARATORS[sepIdx]);
      SplitOnLossless(text, SEPARATORS[sepIdx]);
      if |pieces| == 1 {
        RecursiveLossless(text, target, tok, sepIdx + 1);
      } else {
        RefinedLossless(pieces, target, tok, sepIdx + 1);
      }
    }
  }

  lemma {:induction false} RefinedLossless(pieces: seq<string>, target: int, tok: TokenCount, sepIdx: nat)
    ensures Concat(Refined(pieces, target, tok, sepIdx)) == Concat(pieces)
    decreases Levels(sepIdx), 1, |pieces|
  {
    if pieces != [] {
      var head := if tok(pieces[0]) <= target then [pieces[0]] else Recursive(pieces[0], target, tok, sepIdx);
      assert [pieces[0]][1..] == [];
      if tok(pieces[0]) > target {
        RecursiveLossless(pieces[0], target, tok, sepIdx);
      }
      RefinedLossless(pieces[1..], target, tok, sepIdx);
      ConcatAppend(head, Refined(pieces[1..], target, tok, sepIdx));
    }
  }

  /** Started anywhere before the last separator is used up, every piece fits. */
  lemma {:induction false} RecursiveFits(text: string, target: int, tok: TokenCount, sepIdx: nat)
    requires sepIdx < |SEPARATORS| || |text| == 1
    ensures forall p :: p in Recursive(text, target, tok, sepIdx) ==> Fits(p, target, tok)
    decreases Levels(sepIdx), 0, 0
  {
    if tok(text) > target && sepIdx < |SEPARATORS| {
      var pieces := SplitOn(text, SEPARATORS[sepIdx]);
      SplitOnLossless(text, SEPARATORS[sepIdx]);
      if |pieces| == 1 {
        RecursiveFits(text, target, tok, sepIdx + 1);
      } else {
        RefinedFits(pieces, target, tok, sepIdx + 1);
      }
    }
  }

  lemma {:induction false} RefinedFits(pieces: seq<string>, target: int, tok: TokenCount, sepIdx: nat)
    requires sepIdx < |SEPARATORS| || forall p :: p in pieces ==> |p| == 1
    ensures forall p :: p in Refined(pieces, target, tok, sepIdx) ==> Fits(p, target, tok)
    decreases Levels(sepIdx), 1, |pieces|
  {
    if pieces != [] {
      if tok(pieces[0]) > target {
        RecursiveFits(pieces[0], target, tok, sepIdx);
      }
      RefinedFits(pieces[1..], target, tok, sepIdx);
    }
  }

  /** The coarsest separator that cuts an oversize text decides: if all its pieces fit, they are
      the result, and no finer separator is tried. */
  lemma {:induction false} CoarsestSeparatorWins(text: string, target: int, tok: TokenCount, from: nat, i: nat)
    requires tok(text) > target && from <= i < |SEPARATORS|
    requires forall j :: from <= j < i ==> |SplitOn(text, SEPARATORS[j])| == 1
    requires |SplitOn(text, SEPARATORS[i])| != 1
    requires forall p :: p in SplitOn(text, SEPARATORS[i]) ==> tok(p) <= target
    ensures Recursive(text, target, tok, from) == SplitOn(text, SEPARATORS[i])
    decreases i - from
  {
    hide SplitOn;
    if from < i {
      CoarsestSeparatorWins(text, target, tok, from + 1, i);
    } else {
      FittingPiecesStay(SplitOn(text, SEPARATORS[i]), target, tok, i + 1);
    }
  }

  lemma {:induction false} FittingPiecesStay(pieces: seq<string>, target: int, tok: TokenCount, sepIdx: nat)
    requires forall p :: p in pieces ==> tok(p) <= target
    ensures Refined(pieces, target, tok, sepIdx) == pieces
  {
    if pieces != [] {
      FittingPiecesStay(pieces[1..], target, tok, sepIdx);
    }
  }

  /** A lone character survives every separator in one piece. */
  lemma {:induction false} LoneCharacterStays(c: string, target: int, tok: TokenCount, sepIdx: nat)
    requires |c| == 1
    ensures Recursive(c, target, tok, sepIdx) == [c]
    decreases Levels(sepIdx)
  {
    if tok(c) > target && sepIdx < |SEPARATORS| {
      var sep := SEPARATORS[sepIdx];
      var pieces := SplitOn(c, sep);
      SplitOnLossless(c, sep);
      LoneCharacterStays(c, target, tok, sepIdx + 1);
    }
  }

  /** Splitting again changes nothing: every piece is already final. */
  lemma ResplitIsIdentity(text: string, target: int, tok: TokenCount, piece: string)
    requires piece in Recursive(text, target, tok, 0)
    ensures Recursive(piece, target, tok, 0) == [piece]
  {
    RecursiveFits(text, target, tok, 0);
    if tok(piece) > target {
      LoneCharacterStays(piece, target, tok, 0);
    }
  }

  /** No piece of a non-empty text is empty. */
  lemma {:induction false} RecursiveNonEmpty(text: string, target: int, tok: TokenCount, sepIdx: nat)
    requires text != ""
    ensures "" !in Recursive(text, target, tok, sepIdx)
    decreases Levels(sepIdx), 0, 0
  {
    if tok(text) > target && sepIdx < |SEPARATORS| {
      var pieces := SplitOn(text, SEPARATORS[sepIdx]);
      SplitOnLossless(text, SEPARATORS[sepIdx]);
      if |pieces| == 1 {
        RecursiveNonEmpty(text, target, tok, sepIdx + 1);
      } else {
        RefinedNonEmpty(pieces, target, tok, sepIdx + 1);
      }
    }
  }

  lemma {:induction false} RefinedNonEmpty(pieces: seq<string>, target: int, tok: TokenCount, sepIdx: nat)
    requires "" !in pieces
    ensures "" !in Refined(pieces, target, tok, sepIdx)
    decreases Levels(sepIdx), 1, |pieces|
  {
    if pieces != [] {
      if tok(pieces[0]) > target {
        RecursiveNonEmpty(pieces[0], target, tok, sepIdx);
      }
      RefinedNonEmpty(pieces[1..], target, tok, sepIdx);
    }
  }
}
