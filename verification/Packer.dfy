/** The greedy packer of the turn chunker: windows of pieces with a token overlap. */
module Packer {
  import opened Text
  import opened Splitter

  /** The pieces `[a, b)` that make up one chunk. */
  datatype Window = Window(a: nat, b: nat)

  /** Token counts of the pieces, in order. */
  function Counts(pieces: seq<string>, tok: TokenCount): (lens: seq<nat>)
    ensures |lens| == |pieces| && forall i :: 0 <= i < |pieces| ==> lens[i] == tok(pieces[i])
  {
    seq(|pieces|, i requires 0 <= i < |pieces| => tok(pieces[i]))
  }

  /** The running sum the packer keeps for the pieces `[a, b)`. */
  function Tokens(lens: seq<nat>, a: nat, b: nat): nat
    requires a <= b <= |lens|
    decreases b
  {
    if a == b then 0 else Tokens(lens, a, b - 1) + lens[b - 1]
  }

  lemma {:induction false} TokensFront(lens: seq<nat>, a: nat, b: nat)
    requires a < b <= |lens|
    ensures Tokens(lens, a, b) == lens[a] + Tokens(lens, a + 1, b)
    decreases b
  {
    if a + 1 < b {
      TokensFront(lens, a, b - 1);
    }
  }

  /** Walk back from `j` until the tail `[j, b)` holds `overlap` tokens or the window is used up. */
  function WalkBack(lens: seq<nat>, a: nat, j: nat, b: nat, overlap: int): (s: nat)
    requires a < j <= b <= |lens|
    ensures a <= s < j
    decreases j
  {
    if Tokens(lens, j - 1, b) >= overlap || j - 1 == a then j - 1
    else WalkBack(lens, a, j - 1, b, overlap)
  }

  /** Where the chunk after the window `[a, b)` starts. */
  function SeedStart(lens: seq<nat>, a: nat, b: nat, overlap: int): (s: nat)
    requires a < b <= |lens|
    ensures a <= s <= b
  {
    if overlap <= 0 then b else WalkBack(lens, a, b, b, overlap)
  }

  /** The windows still to come when `[a, k)` has been accumulated. */
  function Windows(lens: seq<nat>, target: int, overlap: int, a: nat, k: nat): seq<Window>
    requires a <= k <= |lens|
    decreases |lens| - k
  {
    if k == |lens| then
      if a < k then [Window(a, k)] else []
    else if Tokens(lens, a, k) + lens[k] > target && a < k then
      [Window(a, k)] + Windows(lens, target, overlap, SeedStart(lens, a, k, overlap), k + 1)
    else
      Windows(lens, target, overlap, a, k + 1)
  }

  function PackWindows(lens: seq<nat>, target: int, overlap: int): seq<Window> {
    Windows(lens, target, overlap, 0, 0)
  }

  /** The stripped text of one window. */
  function WindowText(pieces: seq<string>, w: Window): string {
    if w.a <= w.b <= |pieces| then Strip(Concat(pieces[w.a..w.b])) else ""
  }

  function Rendered(pieces: seq<string>, ws: seq<Window>): (r: seq<string>)
    ensures |r| == |ws|
  {
    if ws == [] then [] else [WindowText(pieces, ws[0])] + Rendered(pieces, ws[1..])
  }

  lemma {:induction false} WindowsInRange(lens: seq<nat>, target: int, overlap: int, a: nat, k: nat)
    requires a <= k <= |lens|
    ensures forall w :: w in Windows(lens, target, overlap, a, k) ==> w.a < w.b <= |lens|
    decreases |lens| - k
  {
    if k < |lens| {
      if Tokens(lens, a, k) + lens[k] > target && a < k {
        WindowsInRange(lens, target, overlap, SeedStart(lens, a, k, overlap), k + 1);
      } else {
        WindowsInRange(lens, target, overlap, a, k + 1);
      }
    }
  }

  /** The chunks still to come, before empty ones are dropped. */
  function Remaining(pieces: seq<string>, target: int, overlap: int, tok: TokenCount, a: nat, k: nat): seq<string>
    requires a <= k <= |pieces|
  {
    Rendered(pieces, Windows(Counts(pieces, tok), target, overlap, a, k))
  }

  /** The chunks the packer returns: windows joined, stripped, empties dropped. */
  function Packed(pieces: seq<string>, target: int, overlap: int, tok: TokenCount): seq<string> {
    NonEmpty(Remaining(pieces, target, overlap, tok, 0, 0))
  }

  // ----- the packer as it runs --------------------------------------------

  /** Overlap tail of the chunk just emitted: the last pieces of `current`, and their token sum. */
  method TailOf(current: seq<string>, overlap: int, tok: TokenCount, ghost pieces: seq<string>, ghost a: nat)
    returns (tail: seq<string>, tailTokens: nat)
    requires current != [] && a + |current| <= |pieces| && current == pieces[a..a + |current|]
    ensures var lens, b := Counts(pieces, tok), a + |current|;
            var s := SeedStart(lens, a, b, overlap);
            tail == pieces[s..b] && tailTokens == Tokens(lens, s, b)
  {
    tail, tailTokens := [], 0;
    if overlap <= 0 {
      return;
    }
    ghost var lens, b := Counts(pieces, tok), a + |current|;
    var j := |current|;
    while j > 0
      invariant 0 <= j <= |current|
      invariant tail == current[j..] && tailTokens == Tokens(lens, a + j, b)
      invariant j > 0 ==> WalkBack(lens, a, a + j, b, overlap) == SeedStart(lens, a, b, overlap)
      invariant j == 0 ==> a == SeedStart(lens, a, b, overlap)
    {
      j := j - 1;
      tail := [current[j]] + tail;
      TokensFront(lens, a + j, b);
      tailTokens := tailTokens + tok(current[j]);
      if tailTokens >= overlap {
        break;
      }
    }
    assert current[j..] == pieces[a + j..b];
  }

  lemma FlushStep(pieces: seq<string>, target: int, overlap: int, tok: TokenCount, a: nat, k: nat)
    requires a < k < |pieces|
    requires Tokens(Counts(pieces, tok), a, k) + tok(pieces[k]) > target
    ensures Remaining(pieces, target, overlap, tok, a, k)
         == [Strip(Concat(pieces[a..k]))]
          + Remaining(pieces, target, overlap, tok, SeedStart(Counts(pieces, tok), a, k, overlap), k + 1)
  {
    var rest := Windows(Counts(pieces, tok), target, overlap, SeedStart(Counts(pieces, tok), a, k, overlap), k + 1);
    assert ([Window(a, k)] + rest)[1..] == rest;
  }

  lemma AddStep(pieces: seq<string>, target: int, overlap: int, tok: TokenCount, a: nat, k: nat)
    requires a <= k < |pieces|
    requires a == k || Tokens(Counts(pieces, tok), a, k) + tok(pieces[k]) <= target
    ensures Remaining(pieces, target, overlap, tok, a, k) == Remaining(pieces, target, overlap, tok, a, k + 1)
  {
  }

  lemma LastStep(pieces: seq<string>, target: int, overlap: int, tok: TokenCount, a: nat)
    requires a <= |pieces|
    ensures Remaining(pieces, target, overlap, tok, a, |pieces|)
         == if a < |pieces| then [Strip(Concat(pieces[a..]))] else []
  {
    assert pieces[a..] == pieces[a..|pieces|];
    assert [Window(a, |pieces|)][1..] == [];
  }

  method Pack(pieces: seq<string>, target: int, overlap: int, tok: TokenCount) returns (result: seq<string>)
    ensures result == Packed(pieces, target, overlap, tok)
  {
    ghost var lens := Counts(pieces, tok);
    hide Remaining, SeedStart;
    ghost var a: nat := 0;
    var chunks: seq<string> := [];
    var current: seq<string> := [];
    var currentTokens := 0;
    for k := 0 to |pieces|
      invariant a <= k && current == pieces[a..k] && currentTokens == Tokens(lens, a, k)
      invariant chunks + Remaining(pieces, target, overlap, tok, a, k) == Remaining(pieces, target, overlap, tok, 0, 0)
    {
      var piece := pieces[k];
      var pieceTokens := tok(piece);
      if currentTokens + pieceTokens > target && current != [] {
        chunks := chunks + [Strip(Concat(current))];
        FlushStep(pieces, target, overlap, tok, a, k);
        current, currentTokens := TailOf(current, overlap, tok, pieces, a);
        a := SeedStart(lens, a, k, overlap);
      } else {
        AddStep(pieces, target, overlap, tok, a, k);
      }
      current := current + [piece];
      currentTokens := currentTokens + pieceTokens;
    }
    LastStep(pieces, target, overlap, tok, a);
    assert pieces[a..] == pieces[a..|pieces|];
    if current != [] {
      chunks := chunks + [Strip(Concat(current))];
    } else {
      assert chunks + [] == chunks;
    }
    assert chunks == Remaining(pieces, target, overlap, tok, 0, 0);
    result := NonEmpty(chunks);
  }

  // ----- what the windows are ---------------------------------------------

  /** First piece that window `i` adds to what the window before it already covered. */
  function FirstNew(ws: seq<Window>, from: nat, i: nat): nat
    requires i < |ws|
  {
    if i == 0 then from else ws[i - 1].b
  }

  /** The seed after `[a, b)`: nothing, or the shortest tail that reaches `overlap` tokens
      (the whole window when none does). */
  predicate IsSeed(lens: seq<nat>, overlap: int, a: nat, b: nat, s: nat)
    requires a < b <= |lens|
  {
    if overlap <= 0 then s == b
    else
      && a <= s < b
      && (Tokens(lens, s, b) >= overlap || s == a)
      && forall j :: s < j < b ==> Tokens(lens, j, b) < overlap
  }

  /** Every piece of `w` but its first new one did fit when it was added. */
  predicate Filled(w: Window, lens: seq<nat>, target: int, from: nat) {
    && w.a <= from < w.b <= |lens|
    && forall j :: from < j < w.b ==> Tokens(lens, w.a, j) + lens[j] <= target
  }

  /** `w` was closed because the next piece would not fit, and `v` starts with its tail. */
  predicate Follows(w: Window, v: Window, lens: seq<nat>, target: int, overlap: int) {
    && w.a < w.b < |lens|
    && Tokens(lens, w.a, w.b) + lens[w.b] > target
    && IsSeed(lens, overlap, w.a, w.b, v.a)
  }

  /** The independent description of a packing, window by window. */
  ghost predicate GreedyFrom(ws: seq<Window>, lens: seq<nat>, target: int, overlap: int, from: nat) {
    && (forall i :: 0 <= i < |ws| ==> Filled(ws[i], lens, target, FirstNew(ws, from, i)))
    && (forall i :: 0 < i < |ws| ==> Follows(ws[i - 1], ws[i], lens, target, overlap))
    && (|ws| > 0 ==> ws[|ws| - 1].b == |lens|)
  }

  ghost predicate IsGreedyPacking(ws: seq<Window>, lens: seq<nat>, target: int, overlap: int) {
    && (ws == [] <==> lens == [])
    && (ws != [] ==> ws[0].a == 0)
    && GreedyFrom(ws, lens, target, overlap, 0)
  }

  lemma {:induction false} WalkBackIsSeed(lens: seq<nat>, a: nat, j: nat, b: nat, overlap: int)
    requires a < j <= b <= |lens|
    requires forall i :: j <= i < b ==> Tokens(lens, i, b) < overlap
    ensures var s := WalkBack(lens, a, j, b, overlap);
            && (Tokens(lens, s, b) >= overlap || s == a)
            && forall i :: s < i < b ==> Tokens(lens, i, b) < overlap
    decreases j
  {
    if !(Tokens(lens, j - 1, b) >= overlap || j - 1 == a) {
      WalkBackIsSeed(lens, a, j - 1, b, overlap);
    }
  }

  lemma SeedStartIsSeed(lens: seq<nat>, a: nat, b: nat, overlap: int)
    requires a < b <= |lens|
    ensures IsSeed(lens, overlap, a, b, SeedStart(lens, a, b, overlap))
  {
    if overlap > 0 {
      WalkBackIsSeed(lens, a, b, b, overlap);
    }
  }

  lemma SeedUnique(lens: seq<nat>, overlap: int, a: nat, b: nat, s: nat, t: nat)
    requires a < b <= |lens|
    requires IsSeed(lens, overlap, a, b, s) && IsSeed(lens, overlap, a, b, t)
    ensures s == t
  {
  }

  lemma {:induction false} WindowsGreedy(lens: seq<nat>, target: int, overlap: int, a: nat, k: nat, from: nat)
    requires a <= from <= k <= |lens| && (from < k || a == k)
    requires from < |lens|
    requires forall j :: from < j < k ==> Tokens(lens, a, j) + lens[j] <= target
    ensures var ws := Windows(lens, target, overlap, a, k);
            ws != [] && ws[0].a == a && ws[0].b >= k && GreedyFrom(ws, lens, target, overlap, from)
    decreases |lens| - k
  {
    hide GreedyFrom, SeedStart;
    if k == |lens| {
      GreedyOne(Window(a, k), lens, target, overlap, from);
    } else if Tokens(lens, a, k) + lens[k] > target && a < k {
      var s := SeedStart(lens, a, k, overlap);
      WindowsGreedy(lens, target, overlap, s, k + 1, k);
      SeedStartIsSeed(lens, a, k, overlap);
      GreedyCons(Window(a, k), Windows(lens, target, overlap, s, k + 1), lens, target, overlap, from);
    } else {
      WindowsGreedy(lens, target, overlap, a, k + 1, from);
    }
  }

  lemma GreedyOne(w: Window, lens: seq<nat>, target: int, overlap: int, from: nat)
    requires Filled(w, lens, target, from) && w.b == |lens|
    ensures GreedyFrom([w], lens, target, overlap, from)
  {
  }

  lemma GreedyCons(w: Window, ws: seq<Window>, lens: seq<nat>, target: int, overlap: int, from: nat)
    requires Filled(w, lens, target, from)
    requires ws != [] && Follows(w, ws[0], lens, target, overlap)
    requires GreedyFrom(ws, lens, target, overlap, w.b)
    ensures GreedyFrom([w] + ws, lens, target, overlap, from)
  {
    var all := [w] + ws;
    forall i | 0 <= i < |all|
      ensures Filled(all[i], lens, target, FirstNew(all, from, i))
    {
      if i > 0 {
        assert all[i] == ws[i - 1];
        assert FirstNew(all, from, i) == FirstNew(ws, w.b, i - 1);
      }
    }
    forall i | 0 < i < |all|
      ensures Follows(all[i - 1], all[i], lens, target, overlap)
    {
      assert all[i] == ws[i - 1];
      if i > 1 {
        assert all[i - 1] == ws[i - 2];
      }
    }
    assert all[|all| - 1] == ws[|ws| - 1];
  }

  /** The packer's windows are contiguous, cover every piece in order, and are greedily filled. */
  lemma PackWindowsGreedy(lens: seq<nat>, target: int, overlap: int)
    ensures IsGreedyPacking(PackWindows(lens, target, overlap), lens, target, overlap)
  {
    if lens != [] {
      WindowsGreedy(lens, target, overlap, 0, 0, 0);
    }
  }

  lemma {:induction false} GreedyIsWindows(ws: seq<Window>, lens: seq<nat>, target: int, overlap: int, k: nat, from: nat)
    requires ws != [] && ws[0].a <= from <= k <= ws[0].b && (from < k || ws[0].a == k)
    requires GreedyFrom(ws, lens, target, overlap, from)
    ensures k <= |lens| && ws == Windows(lens, target, overlap, ws[0].a, k)
    decreases |lens| - k
  {
    hide GreedyFrom, SeedStart;
    var w := ws[0];
    GreedyFirst(ws, lens, target, overlap, from);
    if k < w.b {
      GreedyIsWindows(ws, lens, target, overlap, k + 1, from);
    } else if |ws| == 1 {
      assert ws == [w];
    } else {
      GreedyNext(ws, lens, target, overlap, from);
      GreedyIsWindows(ws[1..], lens, target, overlap, k + 1, k);
      assert ws == [w] + ws[1..];
    }
  }

  lemma GreedyFirst(ws: seq<Window>, lens: seq<nat>, target: int, overlap: int, from: nat)
    requires ws != [] && GreedyFrom(ws, lens, target, overlap, from)
    ensures Filled(ws[0], lens, target, from)
    ensures |ws| == 1 ==> ws[0].b == |lens|
  {
    assert FirstNew(ws, from, 0) == from;
  }

  lemma GreedyTail(ws: seq<Window>, lens: seq<nat>, target: int, overlap: int, from: nat)
    requires |ws| > 1 && GreedyFrom(ws, lens, target, overlap, from)
    ensures GreedyFrom(ws[1..], lens, target, overlap, ws[0].b)
  {
    var rest := ws[1..];
    forall i | 0 <= i < |rest|
      ensures Filled(rest[i], lens, target, FirstNew(rest, ws[0].b, i))
    {
      assert rest[i] == ws[i + 1];
      assert FirstNew(rest, ws[0].b, i) == FirstNew(ws, from, i + 1);
    }
    forall i | 0 < i < |rest|
      ensures Follows(rest[i - 1], rest[i], lens, target, overlap)
    {
      assert Follows(ws[i], ws[i + 1], lens, target, overlap);
    }
  }

  lemma GreedyNext(ws: seq<Window>, lens: seq<nat>, target: int, overlap: int, from: nat)
    requires |ws| > 1 && GreedyFrom(ws, lens, target, overlap, from)
    ensures var w, v := ws[0], ws[1];
            && w.a < w.b < |lens| && Tokens(lens, w.a, w.b) + lens[w.b] > target
            && v.a == SeedStart(lens, w.a, w.b, overlap) && v.a <= w.b < v.b
            && GreedyFrom(ws[1..], lens, target, overlap, w.b)
  {
    var w, v := ws[0], ws[1];
    assert Follows(w, v, lens, target, overlap);
    assert Filled(v, lens, target, FirstNew(ws, from, 1));
    SeedStartIsSeed(lens, w.a, w.b, overlap);
    SeedUnique(lens, overlap, w.a, w.b, v.a, SeedStart(lens, w.a, w.b, overlap));
    GreedyTail(ws, lens, target, overlap, from);
  }

  /** There is exactly one greedy packing, so the description leaves the packer no freedom. */
  lemma GreedyPackingUnique(ws: seq<Window>, lens: seq<nat>, target: int, overlap: int)
    requires IsGreedyPacking(ws, lens, target, overlap)
    ensures ws == PackWindows(lens, target, overlap)
  {
    if ws != [] {
      GreedyIsWindows(ws, lens, target, overlap, 0, 0);
    }
  }
}
