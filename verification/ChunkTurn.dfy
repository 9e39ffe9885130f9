/** `chunk_turn` end to end: from a turn's text to the chunks that are embedded. */
module ChunkTurn {
  import opened Text
  import opened Splitter
  import opened Packer
  import opened PackBounds
  import SplitCuts

  function Chunks(text: string, tok: TokenCount, threshold: int, target: int, overlap: int): seq<string> {
    if tok(text) <= threshold then [text]
    else Packed(Recursive(text, target, tok, 0), target, overlap, tok)
  }

  method Chunk(text: string, tok: TokenCount, threshold: int, target: int, overlap: int) returns (chunks: seq<string>)
    ensures chunks == Chunks(text, tok, threshold, target, overlap)
  {
    if tok(text) <= threshold {
      return [text];
    }
    var pieces := RecursiveSplit(text, target, tok, 0);
    chunks := Pack(pieces, target, overlap, tok);
  }

  // ----- how large a chunk gets -----------------------------------------------

  ghost predicate CharsFit(tok: TokenCount, target: nat) {
    forall c: string :: |c| == 1 ==> tok(c) <= target
  }

  ghost predicate AllWithin(ws: seq<Window>, lens: seq<nat>, bound: int) {
    forall w :: w in ws ==> Within(w, lens, bound)
  }

  /** The same of the windows that become chunks: a window of white space alone is dropped. */
  ghost predicate EmittedWithin(pieces: seq<string>, ws: seq<Window>, lens: seq<nat>, bound: int) {
    forall w :: w in ws && WindowText(pieces, w) != "" ==> Within(w, lens, bound)
  }

  /** No chunk of this text has more than `bound` tokens: its own count when it is returned whole, the
      packer's tracked sums when it is split. */
  ghost predicate ChunksWithin(text: string, tok: TokenCount, threshold: int, target: nat, overlap: int, bound: int) {
    if tok(text) <= threshold then tok(text) <= bound
    else
      var pieces := Recursive(text, target, tok, 0);
      EmittedWithin(pieces, PackWindows(Counts(pieces, tok), target, overlap), Counts(pieces, tok), bound)
  }

  /** The largest chunk the settings allow: a text just within the threshold, or an overlapping window. */
  function ChunkBound(threshold: int, target: nat, overlap: int): int {
    Max(threshold, if target == 0 then 0 else SizeBound(target, overlap, target))
  }

  lemma WithinMore(pieces: seq<string>, ws: seq<Window>, lens: seq<nat>, bound: int, more: int)
    requires AllWithin(ws, lens, bound) && bound <= more
    ensures EmittedWithin(pieces, ws, lens, more)
  {
  }

  lemma WindowsWithin(text: string, tok: TokenCount, target: nat, overlap: int)
    requires CharsFit(tok, target)
    ensures var lens := Counts(Recursive(text, target, tok, 0), tok);
            AllWithin(PackWindows(lens, target, overlap), lens, if target == 0 then 0 else SizeBound(target, overlap, target))
  {
    var pieces := Recursive(text, target, tok, 0);
    var lens := Counts(pieces, tok);
    RecursiveFits(text, target, tok, 0);
    forall k | 0 <= k < |lens|
      ensures lens[k] <= target
    {
      assert pieces[k] in pieces;
    }
    if target == 0 {
      EmptyPiecesWithin(lens, target, overlap);
    } else {
      PackSizeBound(lens, target, overlap, target);
    }
  }

  /** If no single character outweighs the target, no chunk passes the threshold and
      `2 * target + overlap - 1` (`target` itself when there is no overlap). */
  lemma ChunkSizeBound(text: string, tok: TokenCount, threshold: int, target: nat, overlap: int, bound: int)
    requires CharsFit(tok, target) && ChunkBound(threshold, target, overlap) <= bound
    ensures ChunksWithin(text, tok, threshold, target, overlap, bound)
  {
    hide AllWithin, EmittedWithin, Recursive, PackWindows, SizeBound, CharsFit;
    if tok(text) > threshold {
      WindowsWithin(text, tok, target, overlap);
      var pieces := Recursive(text, target, tok, 0);
      var lens := Counts(pieces, tok);
      var most := if target == 0 then 0 else SizeBound(target, overlap, target);
      WithinMore(pieces, PackWindows(lens, target, overlap), lens, most, bound);
    }
  }

  /** Two heavy letters around `n` light ones. */
  function HeavyLightText(n: nat): string {
    "a" + seq(n, i => 'b') + "a"
  }

  /** A tokenizer that says so, and finds longer texts too big to stay whole. */
  function HeavyLightTok(threshold: int, target: nat): TokenCount {
    s => if s == "a" then target else if s == "b" && target > 0 then 1 else if |s| <= 1 then 0
         else Max(threshold, target) + 1
  }

  lemma OccursStart(text: string, sep: string, i: nat)
    requires sep != "" && OccursAt(text, sep, i)
    ensures i < |text| && text[i] == sep[0]
  {
    assert text[i..i + |sep|][0] == text[i];
  }

  lemma NoSeparator(n: nat, j: nat)
    requires j < 8
    ensures |SplitOn(HeavyLightText(n), SEPARATORS[j])| == 1
  {
    var text, sep := HeavyLightText(n), SEPARATORS[j];
    assert sep != "" && sep[0] != 'a' && sep[0] != 'b';
    assert forall i :: 0 <= i < |text| ==> text[i] == 'a' || text[i] == 'b';
    if Contains(text, sep) {
      OccursStart(text, sep, Find(text, sep, 0).value);
      assert false;
    }
  }

  /** Such a text is split, and falls apart into its letters. */
  lemma LettersApart(threshold: int, target: nat, n: nat)
    requires target == 0 ==> n == 0
    ensures var tok := HeavyLightTok(threshold, target);
            && CharsFit(tok, target) && tok(HeavyLightText(n)) > threshold
            && Recursive(HeavyLightText(n), target, tok, 0) == Chars(HeavyLightText(n))
            && Counts(Chars(HeavyLightText(n)), tok) == [target] + Ones(n) + [target]
  {
    hide Recursive;
    var text, tok := HeavyLightText(n), HeavyLightTok(threshold, target);
    forall j | 0 <= j < 8
      ensures |SplitOn(text, SEPARATORS[j])| == 1
    {
      NoSeparator(n, j);
    }
    assert SplitOn(text, SEPARATORS[8]) == Chars(text);
    CoarsestSeparatorWins(text, target, tok, 0, 8);
    var lens := Counts(Chars(text), tok);
    assert forall i :: 0 < i <= n ==> text[i] == 'b';
    assert lens == [target] + Ones(n) + [target];
  }

  lemma HeavyWindow(target: nat, overlap: int, n: nat, bound: int) returns (w: Window)
    requires target >= 1 && n == (if overlap >= 1 then overlap - 1 else 0) && bound < SizeBound(target, overlap, target)
    ensures var lens: seq<nat> := [target] + Ones(n) + [target];
            w in PackWindows(lens, target, overlap) && !Within(w, lens, bound) && w.a == 0 < w.b <= n + 2
  {
    var lens: seq<nat> := [target] + Ones(n) + [target];
    if overlap >= 1 {
      StuffedWindow(target, overlap, target);
      w := Window(0, |lens|);
    } else {
      assert lens == [target, target];
      assert Tokens(lens, 0, 1) == target;
      assert Windows(lens, target, overlap, 0, 1) == [Window(0, 1)] + Windows(lens, target, overlap, 1, 2);
      assert Windows(lens, target, overlap, 0, 0) == Windows(lens, target, overlap, 0, 1);
      w := Window(0, 1);
    }
  }

  lemma WeightlessWindow(overlap: int, bound: int) returns (w: Window)
    requires bound < 0
    ensures var lens: seq<nat> := [0] + Ones(0) + [0];
            w in PackWindows(lens, 0, overlap) && !Within(w, lens, bound) && w.a == 0 < w.b <= 2
  {
    var lens: seq<nat> := [0] + Ones(0) + [0];
    assert lens == [0, 0];
    assert Windows(lens, 0, overlap, 0, 1) == Windows(lens, 0, overlap, 0, 2);
    assert Windows(lens, 0, overlap, 0, 0) == Windows(lens, 0, overlap, 0, 1);
    w := Window(0, 2);
  }

  /** A window that opens on a letter becomes a chunk. */
  lemma LetterIsInk(n: nat, w: Window)
    requires w.a == 0 < w.b <= n + 2
    ensures WindowText(Chars(HeavyLightText(n)), w) != ""
  {
    var part := Chars(HeavyLightText(n))[0..w.b];
    assert part[0] == "a";
    assert Concat(part)[0] == 'a' && !IsSpace('a');
    assert !IsBlank(Concat(part));
  }

  /** A text that splits into windows of more than `bound` tokens. */
  lemma SplitPastBound(threshold: int, target: nat, overlap: int, bound: int) returns (text: string, tok: TokenCount)
    requires bound < if target == 0 then 0 else SizeBound(target, overlap, target)
    ensures CharsFit(tok, target) && !ChunksWithin(text, tok, threshold, target, overlap, bound)
  {
    hide Recursive, PackWindows, SizeBound, CharsFit, Within, WindowText;
    var n := if target > 0 && overlap >= 1 then overlap - 1 else 0;
    text, tok := HeavyLightText(n), HeavyLightTok(threshold, target);
    LettersApart(threshold, target, n);
    var w;
    if target == 0 {
      w := WeightlessWindow(overlap, bound);
    } else {
      w := HeavyWindow(target, overlap, n, bound);
    }
    LetterIsInk(n, w);
  }

  /** A text that the threshold keeps whole although it has more than `bound` tokens. */
  lemma WholePastBound(threshold: int, target: nat, overlap: int, bound: int) returns (text: string, tok: TokenCount)
    requires bound < threshold && 0 <= threshold
    ensures CharsFit(tok, target) && !ChunksWithin(text, tok, threshold, target, overlap, bound)
    ensures Chunks(text, tok, threshold, target, overlap) == [text] && tok(text) > bound
  {
    text := "aa";
    tok := s => if |s| <= 1 then 0 else threshold;
    assert CharsFit(tok, target);
  }

  /** From texts to chunks: unless a single character outweighs the target, `ChunkBound` is the least
      bound that holds for every text and tokenizer. */
  lemma ChunkBoundIsLeast(threshold: int, target: nat, overlap: int, bound: int)
    ensures (forall text, tok :: CharsFit(tok, target) ==> ChunksWithin(text, tok, threshold, target, overlap, bound))
       <==> ChunkBound(threshold, target, overlap) <= bound
  {
    hide ChunksWithin, CharsFit;
    if ChunkBound(threshold, target, overlap) <= bound {
      forall text, tok | CharsFit(tok, target)
        ensures ChunksWithin(text, tok, threshold, target, overlap, bound)
      {
        ChunkSizeBound(text, tok, threshold, target, overlap, bound);
      }
    } else if bound < (if target == 0 then 0 else SizeBound(target, overlap, target)) {
      var text, tok := SplitPastBound(threshold, target, overlap, bound);
    } else {
      var text, tok := WholePastBound(threshold, target, overlap, bound);
    }
  }

  /** The documented target as a promise about every text: kept exactly when there is no overlap and
      the threshold does not let larger texts through whole. */
  lemma ChunkTargetIff(threshold: int, target: nat, overlap: int)
    ensures (forall text, tok :: CharsFit(tok, target) ==> ChunksWithin(text, tok, threshold, target, overlap, target))
       <==> threshold <= target && (overlap <= 0 || target == 0)
  {
    hide CharsFit, ChunksWithin;
    ChunkBoundIsLeast(threshold, target, overlap, target);
  }

  // ----- where each chunk sits in the text ---------------------------------

  /** A stretch `[lo, hi)` of the text. */
  datatype Span = Span(lo: nat, hi: nat)

  /** Each chunk is a stretch of the text, in order, and together they hold every
      character that is not white space. */
  ghost predicate IsCoverage(spans: seq<Span>, text: string, chunks: seq<string>) {
    && AreSlices(spans, text, chunks)
    && Ordered(spans)
    && (forall p :: 0 <= p < |text| && !IsSpace(text[p]) ==> InSome(spans, p))
  }

  predicate IsSlice(s: Span, text: string, chunk: string) {
    s.lo <= s.hi <= |text| && chunk == text[s.lo..s.hi]
  }

  ghost predicate AreSlices(spans: seq<Span>, text: string, chunks: seq<string>) {
    |spans| == |chunks| && forall i :: 0 <= i < |spans| ==> IsSlice(spans[i], text, chunks[i])
  }

  predicate Before(s: Span, t: Span) {
    s.lo <= t.lo && s.hi <= t.hi
  }

  ghost predicate Ordered(spans: seq<Span>) {
    forall i, j :: 0 <= i < j < |spans| ==> Before(spans[i], spans[j])
  }

  ghost predicate InSome(spans: seq<Span>, p: nat) {
    exists i :: 0 <= i < |spans| && spans[i].lo <= p < spans[i].hi
  }

  function Offset(pieces: seq<string>, k: nat): nat
    requires k <= |pieces|
  {
    |Concat(pieces[..k])|
  }

  lemma WindowSlice(pieces: seq<string>, a: nat, b: nat)
    requires a <= b <= |pieces|
    ensures Offset(pieces, a) <= Offset(pieces, b) <= |Concat(pieces)|
    ensures Concat(pieces[a..b]) == Concat(pieces)[Offset(pieces, a)..Offset(pieces, b)]
  {
    assert pieces == pieces[..b] + pieces[b..];
    assert pieces[..b] == pieces[..a] + pieces[a..b];
    ConcatAppend(pieces[..b], pieces[b..]);
    ConcatAppend(pieces[..a], pieces[a..b]);
  }

  /** What `strip` keeps of `text[lo..hi]`. */
  function InkSpan(text: string, lo: nat, hi: nat): Span
    requires lo <= hi <= |text|
  {
    Span(FirstInk(text, lo), LastInk(text, hi))
  }

  lemma {:induction false} FirstInkShift(text: string, lo: nat, hi: nat, x: nat)
    requires lo <= x <= hi <= |text|
    ensures FirstInk(text[lo..hi], x - lo) + lo == if FirstInk(text, x) < hi then FirstInk(text, x) else hi
    decreases hi - x
  {
    if x < hi {
      assert text[lo..hi][x - lo] == text[x];
      if IsSpace(text[x]) {
        FirstInkShift(text, lo, hi, x + 1);
      }
    }
  }

  lemma {:induction false} LastInkShift(text: string, lo: nat, hi: nat, x: nat)
    requires lo <= x <= hi <= |text|
    ensures LastInk(text[lo..hi], x - lo) + lo == if LastInk(text, x) > lo then LastInk(text, x) else lo
    decreases x
  {
    if x > lo {
      assert text[lo..hi][x - lo - 1] == text[x - 1];
      if IsSpace(text[x - 1]) {
        LastInkShift(text, lo, hi, x - 1);
      }
    }
  }

  lemma SliceOfSlice(text: string, lo: nat, hi: nat, f: nat, l: nat)
    requires lo <= hi <= |text| && f <= l <= hi - lo
    ensures text[lo..hi][f..l] == text[lo + f..lo + l]
  {
    var slice := text[lo..hi];
    assert |slice[f..l]| == l - f == |text[lo + f..lo + l]|;
    forall k | 0 <= k < l - f
      ensures slice[f..l][k] == text[lo + f..lo + l][k]
    {
      assert slice[f + k] == text[lo + f + k];
    }
  }

  lemma StripOfSlice(text: string, lo: nat, hi: nat)
    requires lo <= hi <= |text|
    ensures var s := InkSpan(text, lo, hi);
            Strip(text[lo..hi]) == if s.lo < s.hi then text[s.lo..s.hi] else ""
  {
    hide FirstInk, LastInk;
    var slice, s := text[lo..hi], InkSpan(text, lo, hi);
    var f, l := FirstInk(slice, 0), LastInk(slice, |slice|);
    assert f + lo == if s.lo < hi then s.lo else hi by {
      FirstInkShift(text, lo, hi, lo);
    }
    assert l + lo == if s.hi > lo then s.hi else lo by {
      LastInkShift(text, lo, hi, hi);
    }
    if f < l {
      assert s.lo == lo + f && s.hi == lo + l;
      SliceOfSlice(text, lo, hi, f, l);
      assert Strip(slice) == slice[f..l];
    } else {
      assert Strip(slice) == "";
    }
  }

  lemma InkMonotone(text: string, x: nat, y: nat)
    requires x <= y <= |text|
    ensures FirstInk(text, x) <= FirstInk(text, y) && LastInk(text, x) <= LastInk(text, y)
  {
  }

  function WindowSpan(pieces: seq<string>, w: Window): (s: Span)
    requires w.a <= w.b <= |pieces|
    ensures s.lo <= |Concat(pieces)| && s.hi <= |Concat(pieces)|
  {
    WindowSlice(pieces, w.a, w.b);
    InkSpan(Concat(pieces), Offset(pieces, w.a), Offset(pieces, w.b))
  }

  /** The spans of the windows that survive the empty filter. */
  function Spans(pieces: seq<string>, ws: seq<Window>, from: nat): seq<Span>
    requires Chain(ws, |pieces|, from)
  {
    if ws == [] then []
    else
      var s := WindowSpan(pieces, ws[0]);
      (if s.lo < s.hi then [s] else []) + Spans(pieces, ws[1..], ws[0].b)
  }

  lemma WindowTextIsSlice(pieces: seq<string>, w: Window)
    requires w.a <= w.b <= |pieces|
    ensures var s, text := WindowSpan(pieces, w), Concat(pieces);
            WindowText(pieces, w) == if s.lo < s.hi then text[s.lo..s.hi] else ""
  {
    WindowSlice(pieces, w.a, w.b);
    StripOfSlice(Concat(pieces), Offset(pieces, w.a), Offset(pieces, w.b));
  }

  lemma {:induction false} SpansAreSlices(pieces: seq<string>, ws: seq<Window>, from: nat)
    requires Chain(ws, |pieces|, from)
    ensures AreSlices(Spans(pieces, ws, from), Concat(pieces), NonEmpty(Rendered(pieces, ws)))
    decreases |ws|
  {
    hide Concat, WindowText, WindowSpan, IsSlice, AreSlices;
    if ws == [] {
      SlicesNil(Concat(pieces));
    } else {
      WindowTextIsSlice(pieces, ws[0]);
      SpansAreSlices(pieces, ws[1..], ws[0].b);
      var s := WindowSpan(pieces, ws[0]);
      assert Rendered(pieces, ws)[1..] == Rendered(pieces, ws[1..]);
      if s.lo < s.hi {
        SlicesCons(s, Spans(pieces, ws[1..], ws[0].b), Concat(pieces), NonEmpty(Rendered(pieces, ws[1..])));
      } else {
        assert Spans(pieces, ws, from) == Spans(pieces, ws[1..], ws[0].b);
      }
    }
  }

  lemma SlicesNil(text: string)
    ensures AreSlices([], text, [])
  {
  }

  lemma SlicesCons(s: Span, spans: seq<Span>, text: string, chunks: seq<string>)
    requires s.lo <= s.hi <= |text| && AreSlices(spans, text, chunks)
    ensures AreSlices([s] + spans, text, [text[s.lo..s.hi]] + chunks)
  {
  }

  lemma WindowSpanMonotone(pieces: seq<string>, v: Window, w: Window)
    requires v.a <= v.b <= w.b <= |pieces| && v.a <= w.a <= w.b
    ensures Before(WindowSpan(pieces, v), WindowSpan(pieces, w))
  {
    WindowSlice(pieces, v.a, w.a);
    WindowSlice(pieces, v.b, w.b);
    InkMonotone(Concat(pieces), Offset(pieces, v.a), Offset(pieces, w.a));
    InkMonotone(Concat(pieces), Offset(pieces, v.b), Offset(pieces, w.b));
  }

  lemma OrderedCons(s: Span, spans: seq<Span>)
    requires Ordered(spans) && forall t :: t in spans ==> Before(s, t)
    ensures Ordered([s] + spans)
  {
    var all := [s] + spans;
    forall i, j | 0 <= i < j < |all|
      ensures Before(all[i], all[j])
    {
      assert all[j] == spans[j - 1];
      if i > 0 {
        assert all[i] == spans[i - 1];
      } else {
        assert spans[j - 1] in spans;
      }
    }
  }

  lemma {:induction false} SpansOrdered(pieces: seq<string>, ws: seq<Window>, from: nat)
    requires Chain(ws, |pieces|, from)
    ensures Ordered(Spans(pieces, ws, from))
    ensures ws != [] ==> forall s :: s in Spans(pieces, ws, from) ==> Before(WindowSpan(pieces, ws[0]), s)
    decreases |ws|
  {
    hide WindowSpan, Concat;
    if ws != [] {
      var s, rest := WindowSpan(pieces, ws[0]), Spans(pieces, ws[1..], ws[0].b);
      SpansOrdered(pieces, ws[1..], ws[0].b);
      if |ws| > 1 {
        WindowSpanMonotone(pieces, ws[0], ws[1]);
      } else {
        assert ws[1..] == [];
      }
      OrderedCons(s, rest);
      assert [] + rest == rest;
    }
  }

  lemma {:induction false} SpansCover(pieces: seq<string>, ws: seq<Window>, from: nat, p: nat)
    requires Chain(ws, |pieces|, from) && from <= |pieces|
    requires Offset(pieces, from) <= p < |Concat(pieces)| && !IsSpace(Concat(pieces)[p])
    ensures InSome(Spans(pieces, ws, from), p)
    decreases |ws|
  {
    var text, spans := Concat(pieces), Spans(pieces, ws, from);
    WindowSlice(pieces, from, |pieces|);
    assert pieces[..|pieces|] == pieces;
    if ws != [] {
      var w := ws[0];
      WindowSlice(pieces, w.a, from);
      WindowSlice(pieces, from, w.b);
      if p < Offset(pieces, w.b) {
        var s := WindowSpan(pieces, w);
        assert s.lo <= p < s.hi;
        assert spans[0] == s;
      } else {
        SpansCover(pieces, ws[1..], w.b, p);
        var rest := Spans(pieces, ws[1..], w.b);
        var i :| 0 <= i < |rest| && rest[i].lo <= p < rest[i].hi;
        assert spans[i + (|spans| - |rest|)] == rest[i];
      }
    }
  }

  /** Only white space is lost: every other character of the text lies in some chunk, and the
      chunks keep the order of the text. */
  lemma ChunksCoverText(text: string, tok: TokenCount, threshold: int, target: int, overlap: int)
    ensures exists spans :: IsCoverage(spans, text, Chunks(text, tok, threshold, target, overlap))
  {
    var chunks := Chunks(text, tok, threshold, target, overlap);
    if tok(text) <= threshold {
      var whole := [Span(0, |text|)];
      assert text[0..|text|] == text;
      forall p | 0 <= p < |text|
        ensures InSome(whole, p)
      {
        assert whole[0].lo <= p < whole[0].hi;
      }
      assert IsCoverage(whole, text, chunks);
    } else {
      var pieces := Recursive(text, target, tok, 0);
      var ws := PackWindows(Counts(pieces, tok), target, overlap);
      RecursiveLossless(text, target, tok, 0);
      PackLossless(pieces, target, overlap, tok);
      var spans := Spans(pieces, ws, 0);
      SpansAreSlices(pieces, ws, 0);
      SpansOrdered(pieces, ws, 0);
      forall p | 0 <= p < |text| && !IsSpace(text[p])
        ensures InSome(spans, p)
      {
        SpansCover(pieces, ws, 0, p);
      }
      assert IsCoverage(spans, text, chunks);
    }
  }

  /** Chunks of a text that covers nothing but white space: there is none to hold it. */
  lemma NoChunksBlank(spans: seq<Span>, text: string)
    requires IsCoverage(spans, text, [])
    ensures IsBlank(text)
  {
    forall p | 0 <= p < |text|
      ensures IsSpace(text[p])
    {
      assert !InSome(spans, p);
    }
  }

  lemma SomeInk(s: Span, text: string, chunk: string)
    requires IsSlice(s, text, chunk) && chunk != "" && !IsSpace(chunk[0])
    ensures !IsBlank(text)
  {
    assert chunk[0] == text[s.lo];
  }

  /** The chunker returns nothing exactly for an over-threshold text of white space alone. */
  lemma NoChunksIffBlank(text: string, tok: TokenCount, threshold: int, target: int, overlap: int)
    ensures Chunks(text, tok, threshold, target, overlap) == []
       <==> tok(text) > threshold && IsBlank(text)
  {
    hide IsBlank, IsSlice, Packed, Recursive;
    var chunks := Chunks(text, tok, threshold, target, overlap);
    ChunksCoverText(text, tok, threshold, target, overlap);
    var spans :| IsCoverage(spans, text, chunks);
    if chunks == [] {
      NoChunksBlank(spans, text);
    } else if tok(text) > threshold {
      PackedIsStripped(Recursive(text, target, tok, 0), target, overlap, tok);
      assert chunks[0] in chunks;
      SomeInk(spans[0], text, chunks[0]);
    }
  }

  lemma PackedIsStripped(pieces: seq<string>, target: int, overlap: int, tok: TokenCount)
    ensures forall c :: c in Packed(pieces, target, overlap, tok) ==> c != "" && !IsSpace(c[0])
  {
    RenderedIsStripped(pieces, PackWindows(Counts(pieces, tok), target, overlap));
  }

  lemma {:induction false} RenderedIsStripped(pieces: seq<string>, ws: seq<Window>)
    ensures forall c :: c in Rendered(pieces, ws) && c != "" ==> !IsSpace(c[0])
  {
    if ws != [] {
      RenderedIsStripped(pieces, ws[1..]);
    }
  }

  // ----- what the chunks of a long text are, in one sentence ------------------------

  /** The pieces make up the text, fit, and are cut only where they have to be. */
  ghost predicate SplitWhereNeeded(pieces: seq<string>, text: string, target: int, tok: TokenCount) {
    && Concat(pieces) == text
    && (forall p :: p in pieces ==> tok(p) <= target || |p| == 1)
    && forall i :: 0 < i < |pieces| ==> SplitCuts.CutNeeded(pieces, i, target, tok)
  }

  ghost predicate WindowTexts(texts: seq<string>, pieces: seq<string>, ws: seq<Window>) {
    |texts| == |ws| && forall k :: 0 <= k < |ws| ==> TrimmedWindow(texts[k], pieces, ws[k])
  }

  ghost predicate TrimmedWindow(text: string, pieces: seq<string>, w: Window) {
    w.a <= w.b <= |pieces| && IsTrim(text, Concat(pieces[w.a..w.b]))
  }

  /** The documents are the trimmed texts of the greedy packing of such pieces, without empty ones. */
  ghost predicate WellChunked(documents: seq<string>, text: string, tok: TokenCount, target: int, overlap: int) {
    exists pieces, ws, texts :: SplitWhereNeeded(pieces, text, target, tok) && WindowTexts(texts, pieces, ws)
      && IsGreedyPacking(ws, Counts(pieces, tok), target, overlap) && documents == NonEmpty(texts)
  }

  lemma RecursiveWhereNeeded(text: string, tok: TokenCount, target: int)
    ensures SplitWhereNeeded(Recursive(text, target, tok, 0), text, target, tok)
  {
    hide Recursive, SplitCuts.CutNeeded, Concat;
    var pieces := Recursive(text, target, tok, 0);
    RecursiveLossless(text, target, tok, 0);
    RecursiveFits(text, target, tok, 0);
    forall p | p in pieces
      ensures tok(p) <= target || |p| == 1
    {
      assert Fits(p, target, tok);
    }
    forall i | 0 < i < |pieces|
      ensures SplitCuts.CutNeeded(pieces, i, target, tok)
    {
      SplitCuts.CutsAreNeeded(text, target, tok, i);
    }
  }

  lemma {:induction false} RenderedTrimmed(pieces: seq<string>, ws: seq<Window>)
    requires forall k :: 0 <= k < |ws| ==> ws[k].a <= ws[k].b <= |pieces|
    ensures WindowTexts(Rendered(pieces, ws), pieces, ws)
  {
    hide IsTrim, Strip, Concat;
    if ws != [] {
      RenderedTrimmed(pieces, ws[1..]);
      StripIsTrim(Concat(pieces[ws[0].a..ws[0].b]));
      var texts := Rendered(pieces, ws);
      forall k | 0 <= k < |ws|
        ensures TrimmedWindow(texts[k], pieces, ws[k])
      {
        if k > 0 {
          assert TrimmedWindow(texts[1..][k - 1], pieces, ws[1..][k - 1]);
        }
      }
    }
  }

  lemma ChunksAreWell(text: string, tok: TokenCount, threshold: int, target: int, overlap: int)
    ensures var chunks := Chunks(text, tok, threshold, target, overlap);
            if tok(text) <= threshold then chunks == [text] else WellChunked(chunks, text, tok, target, overlap)
  {
    hide SplitWhereNeeded, WindowTexts, Recursive, Rendered, Windows, IsGreedyPacking;
    var pieces := Recursive(text, target, tok, 0);
    var lens := Counts(pieces, tok);
    var ws := PackWindows(lens, target, overlap);
    RecursiveWhereNeeded(text, tok, target);
    PackLossless(pieces, target, overlap, tok);
    PackWindowsGreedy(lens, target, overlap);
    if lens != [] {
      WindowsInRange(lens, target, overlap, 0, 0);
    }
    assert forall k :: 0 <= k < |ws| ==> ws[k] in ws;
    RenderedTrimmed(pieces, ws);
  }

  // ----- the document the memory service chunks -----------------------------

  /** The canonical text of a turn. */
  function ConcatenateTurn(userText: string, assistantText: string): string {
    "### User\n" + Strip(userText) + "\n\n### Assistant\n" + Strip(assistantText)
  }

  /** "empty document after chunking" never happens, whatever the user and the member said. */
  lemma TurnAlwaysChunks(userText: string, assistantText: string,
                         tok: TokenCount, threshold: int, target: int, overlap: int)
    ensures Chunks(ConcatenateTurn(userText, assistantText), tok, threshold, target, overlap) != []
  {
    var body := ConcatenateTurn(userText, assistantText);
    assert body[0] == '#';
    NoChunksIffBlank(body, tok, threshold, target, overlap);
  }

  /** The text of a turn: under each heading what that side said, without the white space around it. */
  ghost predicate IsTurnText(text: string, userText: string, assistantText: string) {
    exists user, assistant :: TurnParts(text, user, assistant) && IsTrim(user, userText) && IsTrim(assistant, assistantText)
  }

  predicate TurnParts(text: string, user: string, assistant: string) {
    text == "### User\n" + user + "\n\n### Assistant\n" + assistant
  }

  /** These documents hold the turn: they are stretches of its text, in order, and every character of
      either side that is not white space lies in one of them, under its own heading. */
  ghost predicate HoldTurn(documents: seq<string>, userText: string, assistantText: string) {
    exists text, spans :: IsTurnText(text, userText, assistantText) && IsCoverage(spans, text, documents)
  }

  lemma TurnIsHeld(userText: string, assistantText: string, tok: TokenCount, threshold: int, target: int, overlap: int)
    ensures HoldTurn(Chunks(ConcatenateTurn(userText, assistantText), tok, threshold, target, overlap),
                     userText, assistantText)
  {
    hide Chunks, IsCoverage, IsTrim;
    var text := ConcatenateTurn(userText, assistantText);
    StripIsTrim(userText);
    StripIsTrim(assistantText);
    assert TurnParts(text, Strip(userText), Strip(assistantText));
    ChunksCoverText(text, tok, threshold, target, overlap);
    var spans :| IsCoverage(spans, text, Chunks(text, tok, threshold, target, overlap));
  }

  /** What a turn becomes is its text, and there is only one. */
  lemma TurnTextUnique(text: string, userText: string, assistantText: string)
    ensures IsTurnText(text, userText, assistantText) <==> text == ConcatenateTurn(userText, assistantText)
  {
    hide IsTrim, Strip;
    StripIsTrim(userText);
    StripIsTrim(assistantText);
    assert TurnParts(ConcatenateTurn(userText, assistantText), Strip(userText), Strip(assistantText));
    if IsTurnText(text, userText, assistantText) {
      var user, assistant :| TurnParts(text, user, assistant) && IsTrim(user, userText) && IsTrim(assistant, assistantText);
      TrimUnique(user, Strip(userText), userText);
      TrimUnique(assistant, Strip(assistantText), assistantText);
    }
  }

  /** A turn within the threshold is one document: its whole text. */
  lemma SmallTurnWhole(text: string, userText: string, assistantText: string,
                       tok: TokenCount, threshold: int, target: int, overlap: int)
    requires IsTurnText(text, userText, assistantText) && tok(text) <= threshold
    ensures Chunks(ConcatenateTurn(userText, assistantText), tok, threshold, target, overlap) == [text]
  {
    hide IsTurnText, ConcatenateTurn;
    TurnTextUnique(text, userText, assistantText);
  }

  // ----- what the documents tell apart ---------------------------------------------

  const ASSISTANT_HEADING := "\n\n### Assistant"

  lemma HeadingAt(u: string, a: string, v: string, b: string)
    requires u + (ASSISTANT_HEADING + "\n") + a == v + (ASSISTANT_HEADING + "\n") + b
    requires |u| < |v|
    ensures Contains(v, ASSISTANT_HEADING)
  {
    var h := ASSISTANT_HEADING + "\n";
    var s := u + h + a;
    var d := |v| - |u|;
    assert |h| == 16 && h[0] == '\n' && h[1] == '\n' && h[2] == '#';
    assert s[|u|..|u| + 16] == h && s[|v|..|v| + 16] == h;
    if d < 15 {
      assert s[|v|] == h[0] == s[|u| + d] == h[d];
      assert s[|v| + 1] == h[1] == s[|u| + d + 1] == h[d + 1];
      HeadingOverlaps(h, d);
    }
    assert d >= 15;
    assert v[|u|..|u| + 15] == s[|u|..|u| + 15] == ASSISTANT_HEADING;
    assert OccursAt(v, ASSISTANT_HEADING, |u|);
  }

  /** The heading does not overlap itself. */
  lemma HeadingOverlaps(h: string, d: nat)
    requires h == ASSISTANT_HEADING + "\n" && 0 < d < 15
    ensures h[d] != '\n' || h[d + 1] != '\n'
  {
  }

  /** Two turns have the same text only if both sides said the same, unless one of them wrote the
      other's heading. */
  lemma SameTextSameTurn(user1: string, assistant1: string, user2: string, assistant2: string)
    requires !Contains(Strip(user1), ASSISTANT_HEADING) && !Contains(Strip(user2), ASSISTANT_HEADING)
    ensures ConcatenateTurn(user1, assistant1) == ConcatenateTurn(user2, assistant2)
       <==> Strip(user1) == Strip(user2) && Strip(assistant1) == Strip(assistant2)
  {
    hide Contains, Strip;
    var u, a, v, b := Strip(user1), Strip(assistant1), Strip(user2), Strip(assistant2);
    var s, t := ConcatenateTurn(user1, assistant1), ConcatenateTurn(user2, assistant2);
    var h := ASSISTANT_HEADING + "\n";
    assert s == "### User\n" + (u + h + a) && t == "### User\n" + (v + h + b);
    if s == t {
      assert s[9..] == u + h + a && t[9..] == v + h + b;
      if |u| < |v| {
        HeadingAt(u, a, v, b);
      } else if |v| < |u| {
        HeadingAt(v, b, u, a);
      }
      assert |u| == |v|;
      assert u == s[9..][..|u|] && v == t[9..][..|v|];
      assert a == s[9..][|u| + |h|..] && b == t[9..][|v| + |h|..];
    }
  }

  predicate Inky(s: string) {
    s != "" && !IsSpace(s[0]) && !IsSpace(s[|s| - 1])
  }

  /** With a heading inside, two different turns become one text: what the user quoted counts as said
      by the member. */
  lemma ForgedHeading(x: string, y: string, z: string)
    requires Inky(x) && Inky(y) && Inky(z)
    ensures var h := ASSISTANT_HEADING + "\n";
            && ConcatenateTurn(x + h + y, z) == ConcatenateTurn(x, y + h + z)
            && Strip(x + h + y) != Strip(x)
  {
    var h := ASSISTANT_HEADING + "\n";
    InkyEnds(x);
    InkyEnds(z);
    InkyEnds(x + h + y);
    InkyEnds(y + h + z);
    hide Strip, Inky;
    SameThreeParts("### User\n", x, h, y, z);
    assert |h| == 16;
  }

  lemma SameThreeParts(start: string, x: string, h: string, y: string, z: string)
    ensures start + (x + h + y) + h + z == start + x + h + (y + h + z)
  {
    assert (x + h + y) + h + z == x + h + (y + h + z);
  }

  lemma InkyEnds(s: string)
    requires Inky(s)
    ensures Strip(s) == s
  {
    assert TrimmedAt(s, s, 0, |s|);
    StripIsTrim(s);
    TrimUnique(Strip(s), s, s);
  }

  /** The characters of a text that are not white space. */
  function Ink(s: string): string {
    if s == "" then "" else (if IsSpace(s[0]) then "" else [s[0]]) + Ink(s[1..])
  }

  lemma {:induction false} InkAppend(a: string, b: string)
    ensures Ink(a + b) == Ink(a) + Ink(b)
  {
    if a == "" {
      assert a + b == b;
    } else {
      assert (a + b)[1..] == a[1..] + b;
      InkAppend(a[1..], b);
    }
  }

  lemma {:induction false} BlankHasNoInk(s: string)
    requires IsBlank(s)
    ensures Ink(s) == ""
  {
    if s != "" {
      BlankHasNoInk(s[1..]);
    }
  }

  lemma StripKeepsInk(s: string)
    ensures Ink(Strip(s)) == Ink(s)
  {
    hide Strip, Ink, IsBlank;
    StripIsTrim(s);
    var lo: nat, hi: nat :| TrimmedAt(Strip(s), s, lo, hi);
    InkOfThree(s, lo, hi);
  }

  lemma InkOfThree(s: string, lo: nat, hi: nat)
    requires lo <= hi <= |s| && IsBlank(s[..lo]) && IsBlank(s[hi..])
    ensures Ink(s[lo..hi]) == Ink(s)
  {
    hide IsBlank, Ink;
    assert s == s[..lo] + s[lo..hi] + s[hi..];
    InkAppend(s[..lo] + s[lo..hi], s[hi..]);
    InkAppend(s[..lo], s[lo..hi]);
    BlankHasNoInk(s[..lo]);
    BlankHasNoInk(s[hi..]);
  }

  lemma {:induction false} NonEmptyJoins(parts: seq<string>)
    ensures Concat(NonEmpty(parts)) == Concat(parts)
  {
    if parts != [] {
      NonEmptyJoins(parts[1..]);
    }
  }

  /** Windows that only touch: their stripped texts hold the ink of the pieces they cover. */
  lemma {:induction false} RenderedInk(pieces: seq<string>, ws: seq<Window>, from: nat)
    requires Chain(ws, |pieces|, from) && (ws != [] ==> ws[0].a == from)
    requires forall i :: 0 < i < |ws| ==> ws[i].a == ws[i - 1].b
    ensures from <= |pieces| && Ink(Concat(Rendered(pieces, ws))) == Ink(Concat(pieces[from..]))
    decreases |ws|
  {
    if ws != [] {
      var b := ws[0].b;
      RenderedInk(pieces, ws[1..], b);
      var part := Concat(pieces[from..b]);
      StripKeepsInk(part);
      assert Rendered(pieces, ws)[1..] == Rendered(pieces, ws[1..]);
      InkAppend(Strip(part), Concat(Rendered(pieces, ws[1..])));
      assert pieces[from..] == pieces[from..b] + pieces[b..];
      ConcatAppend(pieces[from..b], pieces[b..]);
      InkAppend(part, Concat(pieces[b..]));
    }
  }

  lemma PackedKeepsInk(pieces: seq<string>, tok: TokenCount, target: int, overlap: int)
    requires overlap <= 0
    ensures Ink(Concat(Packed(pieces, target, overlap, tok))) == Ink(Concat(pieces))
  {
    hide Ink, Concat, Rendered, Windows, Chain;
    var lens := Counts(pieces, tok);
    var ws := PackWindows(lens, target, overlap);
    PackLossless(pieces, target, overlap, tok);
    PackWindowsGreedy(lens, target, overlap);
    forall i | 0 < i < |ws|
      ensures ws[i].a == ws[i - 1].b
    {
      NoOverlapPartitions(lens, target, overlap, i);
    }
    RenderedInk(pieces, ws, 0);
    NonEmptyJoins(Rendered(pieces, ws));
    assert pieces[0..] == pieces;
  }

  /** Without overlap the chunks hold the text's ink exactly once, in order. */
  lemma ChunksKeepInk(text: string, tok: TokenCount, threshold: int, target: int, overlap: int)
    requires overlap <= 0
    ensures Ink(Concat(Chunks(text, tok, threshold, target, overlap))) == Ink(text)
  {
    hide Ink, Recursive, Packed;
    if tok(text) > threshold {
      RecursiveLossless(text, target, tok, 0);
      PackedKeepsInk(Recursive(text, target, tok, 0), tok, target, overlap);
    } else {
      assert [text][1..] == [];
      assert Concat([text]) == text;
    }
  }

  /** So without overlap two turns with the same documents had the same ink; what white space a split
      turn had between its chunks is not stored. */
  lemma SameDocumentsSameInk(text1: string, text2: string, tok: TokenCount, threshold: int, target: int, overlap: int)
    requires overlap <= 0
    requires Chunks(text1, tok, threshold, target, overlap) == Chunks(text2, tok, threshold, target, overlap)
    ensures Ink(text1) == Ink(text2)
  {
    ChunksKeepInk(text1, tok, threshold, target, overlap);
    ChunksKeepInk(text2, tok, threshold, target, overlap);
  }

  /** A tokenizer that finds one token in a character and two in any longer text. */
  function LetterTok(): TokenCount {
    s => if |s| <= 1 then 1 else 2
  }

  lemma {:induction false} LettersJoin(pieces: seq<string>)
    requires forall p :: p in pieces ==> |p| == 1
    ensures pieces == Chars(Concat(pieces))
  {
    if pieces != [] {
      var first, rest := pieces[0], pieces[1..];
      assert first in pieces && forall p :: p in rest ==> p in pieces;
      LettersJoin(rest);
      assert first == [first[0]];
      LetterJoins(first[0], Concat(rest));
    }
  }

  lemma LetterJoins(c: char, rest: string)
    ensures Chars([c] + rest) == [[c]] + Chars(rest)
  {
  }

  lemma AllLetters(text: string)
    requires |text| >= 2
    ensures Recursive(text, 1, LetterTok(), 0) == Chars(text)
  {
    hide Recursive, Concat;
    var pieces := Recursive(text, 1, LetterTok(), 0);
    RecursiveFits(text, 1, LetterTok(), 0);
    RecursiveNonEmpty(text, 1, LetterTok(), 0);
    RecursiveLossless(text, 1, LetterTok(), 0);
    forall p | p in pieces
      ensures |p| == 1
    {
      assert Fits(p, 1, LetterTok());
    }
    LettersJoin(pieces);
  }

  lemma {:induction false} LetterWindows(text: string, k: nat)
    requires k < |text|
    ensures var lens := Counts(Chars(text), LetterTok());
            NonEmpty(Rendered(Chars(text), Windows(lens, 1, 0, k, k + 1))) == Chars(Ink(text[k..]))
    decreases |text| - k
  {
    var pieces, lens := Chars(text), Counts(Chars(text), LetterTok());
    assert Tokens(lens, k, k) == 0 && Tokens(lens, k, k + 1) == 1;
    LetterText(text, k);
    assert text[k..][1..] == text[k + 1..];
    if k + 1 == |text| {
      assert Windows(lens, 1, 0, k, k + 1) == [Window(k, k + 1)];
      assert Rendered(pieces, [Window(k, k + 1)]) == [WindowText(pieces, Window(k, k + 1))];
    } else {
      var rest := Windows(lens, 1, 0, k + 1, k + 2);
      assert Windows(lens, 1, 0, k, k + 1) == [Window(k, k + 1)] + rest;
      assert ([Window(k, k + 1)] + rest)[1..] == rest;
      LetterWindows(text, k + 1);
    }
  }

  lemma LetterText(text: string, k: nat)
    requires k < |text|
    ensures WindowText(Chars(text), Window(k, k + 1)) == if IsSpace(text[k]) then "" else [text[k]]
  {
    var part := Chars(text)[k..k + 1];
    assert part == [[text[k]]] && part[1..] == [];
    assert Concat(part) == [text[k]];
    if !IsSpace(text[k]) {
      InkyEnds([text[k]]);
    } else {
      assert IsBlank([text[k]]);
    }
  }

  /** Split turns do lose white space: with such a tokenizer all texts of the same ink have the same
      documents, so "a b" and "ab" cannot be told apart. */
  lemma SplitForgetsSpace(text1: string, text2: string)
    requires |text1| >= 2 && |text2| >= 2 && Ink(text1) == Ink(text2)
    ensures Chunks(text1, LetterTok(), 1, 1, 0) == Chunks(text2, LetterTok(), 1, 1, 0)
  {
    LetterChunks(text1);
    LetterChunks(text2);
  }

  lemma LetterChunks(text: string)
    requires |text| >= 2
    ensures Chunks(text, LetterTok(), 1, 1, 0) == Chars(Ink(text))
  {
    hide Recursive, Rendered, Ink;
    AllLetters(text);
    LetterWindows(text, 0);
    var lens := Counts(Chars(text), LetterTok());
    assert Windows(lens, 1, 0, 0, 0) == Windows(lens, 1, 0, 0, 1);
    assert text[0..] == text;
  }
}
