/** Consequences of the greedy packing: what the windows hold and how large they get. */
module PackBounds {
  import opened Text
  import opened Splitter
  import opened Packer

  // ----- nothing is lost ----------------------------------------------------

  /** Windows in order over `n` pieces, the first new piece of the first one being `from`. */
  predicate Chain(ws: seq<Window>, n: nat, from: nat)
    decreases |ws|
  {
    if ws == [] then from == n
    else
      && ws[0].a <= from < ws[0].b <= n
      && (|ws| > 1 ==> ws[0].a <= ws[1].a)
      && Chain(ws[1..], n, ws[0].b)
  }

  lemma {:induction false} GreedyChain(ws: seq<Window>, lens: seq<nat>, target: int, overlap: int, from: nat)
    requires ws != [] && GreedyFrom(ws, lens, target, overlap, from)
    ensures Chain(ws, |lens|, from)
    decreases |ws|
  {
    hide GreedyFrom;
    GreedyFirst(ws, lens, target, overlap, from);
    if |ws| > 1 {
      GreedyNext(ws, lens, target, overlap, from);
      GreedyChain(ws[1..], lens, target, overlap, ws[0].b);
    } else {
      assert ws[1..] == [];
    }
  }

  /** What each window adds to the one before it. */
  function NewParts(pieces: seq<string>, ws: seq<Window>, from: nat): seq<string>
    requires Chain(ws, |pieces|, from)
  {
    if ws == [] then [] else [Concat(pieces[from..ws[0].b])] + NewParts(pieces, ws[1..], ws[0].b)
  }

  lemma {:induction false} NewPartsJoin(pieces: seq<string>, ws: seq<Window>, from: nat)
    requires Chain(ws, |pieces|, from)
    ensures from <= |pieces| && Concat(NewParts(pieces, ws, from)) == Concat(pieces[from..])
    decreases |ws|
  {
    if ws != [] {
      var b := ws[0].b;
      NewPartsJoin(pieces, ws[1..], b);
      ConcatAppend(pieces[from..b], pieces[b..]);
      assert pieces[from..] == pieces[from..b] + pieces[b..];
    }
  }

  /** The windows, each cut back to what it adds, join to exactly the packed text. */
  lemma PackLossless(pieces: seq<string>, target: int, overlap: int, tok: TokenCount)
    ensures var ws := PackWindows(Counts(pieces, tok), target, overlap);
            Chain(ws, |pieces|, 0) && Concat(NewParts(pieces, ws, 0)) == Concat(pieces)
  {
    var lens := Counts(pieces, tok);
    PackWindowsGreedy(lens, target, overlap);
    if pieces != [] {
      GreedyChain(PackWindows(lens, target, overlap), lens, target, overlap, 0);
    }
    NewPartsJoin(pieces, PackWindows(lens, target, overlap), 0);
    assert pieces[0..] == pieces;
  }

  /** Without overlap the windows are a partition of the pieces. */
  lemma NoOverlapPartitions(lens: seq<nat>, target: int, overlap: int, i: nat)
    requires overlap <= 0
    ensures var ws := PackWindows(lens, target, overlap);
            0 < i < |ws| ==> ws[i].a == ws[i - 1].b
  {
    PackWindowsGreedy(lens, target, overlap);
    var ws := PackWindows(lens, target, overlap);
    if 0 < i < |ws| {
      assert Follows(ws[i - 1], ws[i], lens, target, overlap);
    }
  }

  // ----- how large a chunk gets ----------------------------------------------

  function Max(x: int, y: int): int {
    if x < y then y else x
  }

  /** Largest token sum the packer lets a window reach when every piece has at most `p` tokens. */
  function SizeBound(target: int, overlap: int, p: nat): int {
    Max(target, if overlap <= 0 then p else overlap - 1 + 2 * p)
  }

  /** A seed holds fewer than `overlap` tokens before its first piece. */
  lemma SeedBound(lens: seq<nat>, overlap: int, a: nat, b: nat, s: nat, p: nat)
    requires a < b <= |lens| && IsSeed(lens, overlap, a, b, s)
    requires overlap > 0 && forall i :: 0 <= i < |lens| ==> lens[i] <= p
    ensures Tokens(lens, s, b) <= overlap - 1 + p
  {
    TokensFront(lens, s, b);
    if s + 1 < b {
      assert Tokens(lens, s + 1, b) < overlap;
    }
  }

  predicate Within(w: Window, lens: seq<nat>, bound: int) {
    w.a <= w.b <= |lens| && Tokens(lens, w.a, w.b) <= bound
  }

  /** A window that opens on its seed: at most the seed and one more piece, or all of it fits. */
  lemma WindowBound(w: Window, lens: seq<nat>, target: int, overlap: int, p: nat, from: nat)
    requires Filled(w, lens, target, from)
    requires forall k :: 0 <= k < |lens| ==> lens[k] <= p
    requires Tokens(lens, w.a, from) <= if overlap <= 0 || from == 0 then 0 else overlap - 1 + p
    ensures Within(w, lens, SizeBound(target, overlap, p))
  {
    var last := w.b - 1;
    assert Tokens(lens, w.a, w.b) == Tokens(lens, w.a, last) + lens[last];
    if last == from {
      assert lens[last] <= p;
    }
  }

  /** No window's token sum passes the bound. */
  lemma PackSizeBound(lens: seq<nat>, target: int, overlap: int, p: nat)
    requires forall k :: 0 <= k < |lens| ==> lens[k] <= p
    ensures forall w :: w in PackWindows(lens, target, overlap) ==> Within(w, lens, SizeBound(target, overlap, p))
  {
    hide PackWindows, Windows, SizeBound;
    var ws := PackWindows(lens, target, overlap);
    PackWindowsGreedy(lens, target, overlap);
    forall i | 0 <= i < |ws|
      ensures Within(ws[i], lens, SizeBound(target, overlap, p))
    {
      var w, from := ws[i], FirstNew(ws, 0, i);
      assert Filled(w, lens, target, from);
      if i > 0 {
        assert Follows(ws[i - 1], w, lens, target, overlap);
        if overlap > 0 {
          SeedBound(lens, overlap, ws[i - 1].a, from, w.a, p);
        }
      }
      WindowBound(w, lens, target, overlap, p, from);
    }
  }

  lemma {:induction false} TokensCovers(lens: seq<nat>, a: nat, k: nat, b: nat)
    requires a <= k < b <= |lens|
    ensures Tokens(lens, a, b) >= lens[k]
    decreases b
  {
    if k + 1 < b {
      TokensCovers(lens, a, k, b - 1);
    }
  }

  lemma {:induction false} ChainCovers(ws: seq<Window>, n: nat, from: nat, k: nat) returns (i: nat)
    requires Chain(ws, n, from) && from <= k < n
    ensures i < |ws| && ws[i].a <= k < ws[i].b <= n
    decreases |ws|
  {
    if k < ws[0].b {
      i := 0;
    } else {
      i := ChainCovers(ws[1..], n, ws[0].b, k);
      i := i + 1;
    }
  }

  /** Without overlap, every window respects the target exactly when every piece does. */
  lemma NoOverlapRespectsTarget(lens: seq<nat>, target: int, overlap: int)
    requires overlap <= 0
    ensures (forall i :: 0 <= i < |lens| ==> lens[i] <= target)
       <==> (forall w :: w in PackWindows(lens, target, overlap) ==> Within(w, lens, target))
  {
    var ws := PackWindows(lens, target, overlap);
    if forall i :: 0 <= i < |lens| ==> lens[i] <= target {
      if lens != [] {
        assert lens[0] <= target;
        PackSizeBound(lens, target, overlap, target);
      }
    } else {
      var k :| 0 <= k < |lens| && lens[k] > target;
      PackWindowsGreedy(lens, target, overlap);
      GreedyChain(ws, lens, target, overlap, 0);
      var i := ChainCovers(ws, |lens|, 0, k);
      TokensCovers(lens, ws[i].a, k, ws[i].b);
      assert ws[i] in ws;
    }
  }

  // ----- when the target is kept -----------------------------------------------

  predicate AtMost(lens: seq<nat>, p: nat) {
    forall k :: 0 <= k < |lens| ==> lens[k] <= p
  }

  /** Under these settings no window passes `bound`, however pieces of at most `p` tokens arrive. */
  ghost predicate AlwaysWithin(target: int, overlap: int, p: nat, bound: int) {
    forall lens: seq<nat> :: AtMost(lens, p) ==>
      forall w :: w in PackWindows(lens, target, overlap) ==> Within(w, lens, bound)
  }

  function Ones(n: nat): seq<nat> {
    seq(n, i => 1)
  }

  lemma {:induction false} TokensOfOnes(lens: seq<nat>, a: nat, b: nat)
    requires a <= b <= |lens| && forall k :: a <= k < b ==> lens[k] == 1
    ensures Tokens(lens, a, b) == b - a
    decreases b
  {
    if a < b {
      TokensOfOnes(lens, a, b - 1);
    }
  }

  /** A piece of `p` tokens, then as many single tokens as a seed can hold before it, then `p` again. */
  function Stuffed(overlap: int, p: nat): seq<nat>
    requires overlap >= 1
  {
    [p] + Ones(overlap - 1) + [p]
  }

  /** Short of `overlap` tokens after the first piece, a seed always reaches back to the start. */
  lemma {:induction false} WalkBackToStart(lens: seq<nat>, j: nat, b: nat, overlap: int)
    requires 0 < j <= b <= |lens| && forall k :: 0 < k <= b ==> Tokens(lens, k, b) < overlap
    ensures WalkBack(lens, 0, j, b, overlap) == 0
    decreases j
  {
    if j > 1 {
      WalkBackToStart(lens, j - 1, b, overlap);
    }
  }

  /** If every seed reaches back to the start, the last window is the whole input. */
  lemma {:induction false} WholeWindow(lens: seq<nat>, target: int, overlap: int, k: nat)
    requires lens != [] && k <= |lens| && overlap >= 1
    requires forall a, b :: 0 < a <= b < |lens| ==> Tokens(lens, a, b) < overlap
    ensures Window(0, |lens|) in Windows(lens, target, overlap, 0, k)
    decreases |lens| - k
  {
    if k < |lens| {
      WholeWindow(lens, target, overlap, k + 1);
      if Tokens(lens, 0, k) + lens[k] > target && 0 < k {
        WalkBackToStart(lens, k, k, overlap);
        assert SeedStart(lens, 0, k, overlap) == 0;
      }
    }
  }

  /** The seed's worst case is reached, whatever the target. */
  lemma StuffedWindow(target: int, overlap: int, p: nat)
    requires overlap >= 1 && p >= 1
    ensures var lens := Stuffed(overlap, p);
            && AtMost(lens, p) && Window(0, |lens|) in PackWindows(lens, target, overlap)
            && Tokens(lens, 0, |lens|) == overlap - 1 + 2 * p
  {
    var lens := Stuffed(overlap, p);
    var last := overlap;
    forall a, b | 0 < a <= b < |lens|
      ensures Tokens(lens, a, b) < overlap
    {
      TokensOfOnes(lens, a, b);
    }
    WholeWindow(lens, target, overlap, 0);
    TokensOfOnes(lens, 1, last);
    TokensFront(lens, 0, last);
    assert Tokens(lens, 0, |lens|) == Tokens(lens, 0, last) + lens[last];
  }

  lemma OnePieceWindow(target: int, overlap: int, p: nat)
    ensures AtMost([p], p) && Window(0, 1) in PackWindows([p], target, overlap) && Tokens([p], 0, 1) == p
  {
    assert Tokens([p], 0, 0) == 0;
    assert Windows([p], target, overlap, 0, 1) == [Window(0, 1)];
    assert Windows([p], target, overlap, 0, 0) == Windows([p], target, overlap, 0, 1);
  }

  lemma {:induction false} TokensOfZeros(lens: seq<nat>, a: nat, b: nat)
    requires a <= b <= |lens| && AtMost(lens, 0)
    ensures Tokens(lens, a, b) == 0
    decreases b
  {
    if a < b {
      TokensOfZeros(lens, a, b - 1);
    }
  }

  lemma EmptyPiecesWithin(lens: seq<nat>, target: int, overlap: int)
    requires AtMost(lens, 0) && 0 <= target
    ensures forall w :: w in PackWindows(lens, target, overlap) ==> Within(w, lens, target)
  {
    WindowsInRange(lens, target, overlap, 0, 0);
    forall w | w in PackWindows(lens, target, overlap)
      ensures Within(w, lens, target)
    {
      TokensOfZeros(lens, w.a, w.b);
    }
  }

  /** Single tokens up to the target share one window. */
  lemma {:induction false} OnesFill(target: int, overlap: int, k: nat)
    requires 1 <= target && k <= target
    ensures Window(0, target) in Windows(Ones(target), target, overlap, 0, k)
    decreases target - k
  {
    if k < target {
      TokensOfOnes(Ones(target), 0, k);
      OnesFill(target, overlap, k + 1);
    }
  }

  /** No smaller bound than `SizeBound` holds, whatever the settings: some window always reaches it
      (849 tokens with the default target 400, overlap 50 and pieces of up to 400). */
  lemma SizeBoundIsLeast(target: int, overlap: int, p: nat, bound: int)
    requires p >= 1
    ensures AlwaysWithin(target, overlap, p, bound) <==> SizeBound(target, overlap, p) <= bound
  {
    hide PackWindows, Windows;
    if AlwaysWithin(target, overlap, p, bound) {
      OnePieceWindow(target, overlap, p);
      assert Within(Window(0, 1), [p], bound);
      if overlap >= 1 {
        StuffedWindow(target, overlap, p);
        var lens := Stuffed(overlap, p);
        assert Within(Window(0, |lens|), lens, bound);
      }
      if target >= 1 {
        OnesReachTarget(target, overlap, p, bound);
      }
    }
    if SizeBound(target, overlap, p) <= bound {
      forall lens: seq<nat> | AtMost(lens, p)
        ensures forall w :: w in PackWindows(lens, target, overlap) ==> Within(w, lens, bound)
      {
        PackSizeBound(lens, target, overlap, p);
      }
    }
  }

  lemma OnesReachTarget(target: int, overlap: int, p: nat, bound: int)
    requires p >= 1 && target >= 1 && AlwaysWithin(target, overlap, p, bound)
    ensures target <= bound
  {
    OnesFill(target, overlap, 0);
    TokensOfOnes(Ones(target), 0, target);
    assert AtMost(Ones(target), p);
    assert Within(Window(0, target), Ones(target), bound);
  }

  /** When the settings keep every window within the target: with pieces of at most `p` tokens, without
      overlap exactly when `p` is within it, and with overlap exactly when two such pieces and all
      but one of the overlap's tokens are. */
  lemma TargetKeptIff(target: int, overlap: int, p: nat)
    ensures AlwaysWithin(target, overlap, p, target)
       <==> if p == 0 then 0 <= target else if overlap <= 0 then p <= target else overlap - 1 + 2 * p <= target
  {
    if p > 0 {
      SizeBoundIsLeast(target, overlap, p, target);
    } else {
      if AlwaysWithin(target, overlap, 0, target) {
        OnePieceWindow(target, overlap, 0);
        assert Within(Window(0, 1), [0], target);
      }
      if 0 <= target {
        forall lens: seq<nat> | AtMost(lens, 0)
          ensures forall w :: w in PackWindows(lens, target, overlap) ==> Within(w, lens, target)
        {
          EmptyPiecesWithin(lens, target, overlap);
        }
      }
    }
  }
}
