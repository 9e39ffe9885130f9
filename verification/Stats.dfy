/** Percentiles, latency summaries and bootstrap intervals, over the reals. */
module Stats {
  import opened StableSort

  predicate Ascending(s: seq<real>) {
    forall i, j :: 0 <= i < j < |s| ==> s[i] <= s[j]
  }

  // ----- the two percentile implementations ------------------------------------------

  /** Linear interpolation at position `k`, between the neighbours it falls between. */
  function At(s: seq<real>, k: real): real
    requires |s| >= 2 && 0.0 <= k <= (|s| - 1) as real
  {
    var lo := k.Floor;
    var hi := if lo + 1 < |s| - 1 then lo + 1 else |s| - 1;
    s[lo] + (s[hi] - s[lo]) * (k - lo as real)
  }

  /** `bench/stats.py`: `p` is a fraction in [0, 1]. */
  function Percentile(s: seq<real>, p: real): real
    requires 0.0 <= p <= 1.0
  {
    if s == [] then 0.0
    else if |s| == 1 then s[0]
    else
      PositionInRange(|s| - 1, p);
      At(s, (|s| - 1) as real * p)
  }

  /** The same position weighted from both neighbours. */
  function Weighted(s: seq<real>, k: real): real
    requires |s| >= 2 && 0.0 <= k <= (|s| - 1) as real
  {
    var lo := k.Floor;
    var hi := if lo + 1 < |s| - 1 then lo + 1 else |s| - 1;
    s[lo] * (1.0 - (k - lo as real)) + s[hi] * (k - lo as real)
  }

  /** `bench/eval/scoring.py`: any `p`, clamped at both ends. */
  function ScoringPercentile(s: seq<real>, p: real): real {
    if s == [] then 0.0
    else if |s| == 1 then s[0]
    else if p <= 0.0 then s[0]
    else if p >= 1.0 then s[|s| - 1]
    else
      PositionInRange(|s| - 1, p);
      Weighted(s, (|s| - 1) as real * p)
  }

  lemma PositionInRange(m: nat, p: real)
    requires 0.0 <= p <= 1.0
    ensures 0.0 <= m as real * p <= m as real && 0 <= (m as real * p).Floor <= m
  {
    assert m as real * p <= m as real * 1.0;
  }

  lemma Blend(a: real, b: real, f: real)
    ensures a + (b - a) * f == a * (1.0 - f) + b * f
  {
  }

  lemma WeightedIsAt(s: seq<real>, k: real)
    requires |s| >= 2 && 0.0 <= k <= (|s| - 1) as real
    ensures Weighted(s, k) == At(s, k)
  {
    var lo := k.Floor;
    Blend(s[lo], s[if lo + 1 < |s| - 1 then lo + 1 else |s| - 1], k - lo as real);
  }

  /** On the fractions both accept, the two implementations agree. */
  lemma PercentilesAgree(s: seq<real>, p: real)
    requires 0.0 <= p <= 1.0
    ensures Percentile(s, p) == ScoringPercentile(s, p)
  {
    if |s| >= 2 {
      hide At, Weighted;
      var m := |s| - 1;
      PositionInRange(m, p);
      if p == 0.0 {
        assert m as real * p == 0.0;
        AtEnds(s);
      } else if p == 1.0 {
        assert m as real * p == m as real;
        AtEnds(s);
      } else {
        WeightedIsAt(s, m as real * p);
      }
    }
  }

  lemma BlendBetween(a: real, b: real, f: real)
    requires a <= b && 0.0 <= f <= 1.0
    ensures a <= a + (b - a) * f <= b
  {
    assert (b - a) * f <= (b - a) * 1.0;
  }

  lemma AtBetween(s: seq<real>, k: real)
    requires Ascending(s) && |s| >= 2 && 0.0 <= k <= (|s| - 1) as real
    ensures var lo := k.Floor;
            s[lo] <= At(s, k) <= s[if lo + 1 < |s| - 1 then lo + 1 else |s| - 1]
  {
    var lo := k.Floor;
    var hi := if lo + 1 < |s| - 1 then lo + 1 else |s| - 1;
    assert s[lo] <= s[hi];
    BlendBetween(s[lo], s[hi], k - lo as real);
  }

  lemma AtMonotone(s: seq<real>, k: real, l: real)
    requires Ascending(s) && |s| >= 2 && 0.0 <= k <= l <= (|s| - 1) as real
    ensures At(s, k) <= At(s, l)
  {
    var lo := k.Floor;
    var hi := if lo + 1 < |s| - 1 then lo + 1 else |s| - 1;
    if lo == l.Floor {
      assert s[lo] <= s[hi];
      assert (s[hi] - s[lo]) * (k - lo as real) <= (s[hi] - s[lo]) * (l - lo as real);
    } else {
      AtBetween(s, k);
      AtBetween(s, l);
      assert hi <= l.Floor;
      assert s[hi] <= s[l.Floor];
    }
  }

  lemma ScaleMonotone(m: nat, p: real, q: real)
    requires p <= q
    ensures m as real * p <= m as real * q
  {
  }

  lemma AtEnds(s: seq<real>)
    requires |s| >= 2
    ensures At(s, 0.0) == s[0] && At(s, (|s| - 1) as real) == s[|s| - 1]
  {
  }

  lemma AtOrdered(s: seq<real>, k: real, l: real)
    requires Ascending(s) && |s| >= 2 && 0.0 <= k <= l <= (|s| - 1) as real
    ensures s[0] <= At(s, k) <= At(s, l) <= s[|s| - 1]
  {
    hide At, Ascending;
    AtMonotone(s, k, l);
    AtMonotone(s, 0.0, k);
    AtMonotone(s, l, (|s| - 1) as real);
    AtEnds(s);
  }

  lemma PositionsOrdered(m: nat, p: real, q: real)
    requires 0.0 <= p <= q <= 1.0
    ensures 0.0 <= m as real * p <= m as real * q <= m as real
  {
    PositionInRange(m, p);
    PositionInRange(m, q);
    ScaleMonotone(m, p, q);
  }

  /** A larger fraction never gives a smaller percentile, and none leaves the sample's range. */
  lemma PercentileMonotone(s: seq<real>, p: real, q: real)
    requires Ascending(s) && s != [] && 0.0 <= p <= q <= 1.0
    ensures s[0] <= Percentile(s, p) <= Percentile(s, q) <= s[|s| - 1]
  {
    if |s| >= 2 {
      hide At;
      var k, l := (|s| - 1) as real * p, (|s| - 1) as real * q;
      PositionsOrdered(|s| - 1, p, q);
      AtOrdered(s, k, l);
    }
  }

  lemma AtRank(s: seq<real>, k: nat)
    requires |s| >= 2 && k < |s|
    ensures At(s, k as real) == s[k]
  {
    assert (k as real).Floor == k;
  }

  lemma FractionOf(k: nat, m: nat)
    requires k <= m && m > 0
    ensures 0.0 <= k as real / m as real <= 1.0
    ensures m as real * (k as real / m as real) == k as real
  {
    DivideMonotone(0.0, k as real, m as real);
    DivideMonotone(k as real, m as real, m as real);
  }

  /** At the fraction k / (n - 1) the percentile is exactly the k-th value. */
  lemma PercentileAtRank(s: seq<real>, k: nat)
    requires |s| >= 2 && k < |s|
    ensures 0.0 <= k as real / (|s| - 1) as real <= 1.0
    ensures Percentile(s, k as real / (|s| - 1) as real) == s[k]
  {
    hide At, Percentile;
    FractionOf(k, |s| - 1);
    AtRank(s, k);
    PercentileIsAt(s, k as real / (|s| - 1) as real, k as real);
  }

  lemma PercentileIsAt(s: seq<real>, p: real, k: real)
    requires |s| >= 2 && 0.0 <= p <= 1.0 && (|s| - 1) as real * p == k
    ensures 0.0 <= k <= (|s| - 1) as real && Percentile(s, p) == At(s, k)
  {
    hide At;
    PositionInRange(|s| - 1, p);
  }

  /** Between two neighbouring ranks the percentile runs straight from the one value to the other. */
  lemma PercentileIsStraight(s: seq<real>, p: real, k: nat)
    requires 0.0 <= p <= 1.0 && k + 1 < |s| && k as real <= (|s| - 1) as real * p <= k as real + 1.0
    ensures Percentile(s, p) - s[k] == (s[k + 1] - s[k]) * ((|s| - 1) as real * p - k as real)
  {
    hide At, Percentile;
    var x := (|s| - 1) as real * p;
    PercentileIsAt(s, p, x);
    StraightAt(s, x, k);
  }

  lemma StraightAt(s: seq<real>, x: real, k: nat)
    requires k + 1 < |s| && k as real <= x <= k as real + 1.0
    ensures At(s, x) - s[k] == (s[k + 1] - s[k]) * (x - k as real)
  {
    if x == k as real + 1.0 {
      hide At;
      AtRank(s, k + 1);
      assert x == (k + 1) as real;
    } else {
      assert x.Floor == k;
    }
  }

  /** And `scoring.py` takes any fraction, one outside [0, 1] as the nearer end. */
  lemma ScoringClamps(s: seq<real>, p: real)
    ensures ScoringPercentile(s, p) == Percentile(s, if p < 0.0 then 0.0 else if p > 1.0 then 1.0 else p)
  {
    var q := if p < 0.0 then 0.0 else if p > 1.0 then 1.0 else p;
    PercentilesAgree(s, q);
  }

  lemma ScoringMonotone(s: seq<real>, p: real, q: real)
    requires Ascending(s) && s != [] && p <= q
    ensures s[0] <= ScoringPercentile(s, p) <= ScoringPercentile(s, q) <= s[|s| - 1]
  {
    var p', q' := Clamped(p), Clamped(q);
    assert ScoringPercentile(s, p) == ScoringPercentile(s, p');
    assert ScoringPercentile(s, q) == ScoringPercentile(s, q');
    PercentilesAgree(s, p');
    PercentilesAgree(s, q');
    PercentileMonotone(s, p', q');
  }

  function Clamped(p: real): real {
    if p <= 0.0 then 0.0 else if p >= 1.0 then 1.0 else p
  }

  // ----- summaries -------------------------------------------------------------------

  function Sum(s: seq<real>): real {
    if s == [] then 0.0 else Sum(s[..|s| - 1]) + s[|s| - 1]
  }

  /** The sum is what any way of adding up gives, in any order. */
  lemma {:induction false} SumAdds(a: seq<real>, b: seq<real>)
    ensures Sum([]) == 0.0 && (forall x :: Sum([x]) == x) && Sum(a + b) == Sum(a) + Sum(b)
  {
    forall x
      ensures Sum([x]) == x
    {
      assert [x][..0] == [];
    }
    if b == [] {
      assert a + b == a;
    } else {
      assert (a + b)[..|a + b| - 1] == a + b[..|b| - 1];
      SumAdds(a, b[..|b| - 1]);
    }
  }

  lemma {:induction false} SumInsert(x: real, s: seq<real>)
    ensures Sum(Insert(x, s, NoLater())) == x + Sum(s)
  {
    hide Sum;
    SumAdds([x], s);
    if s != [] && !(x <= s[0]) {
      SumInsert(x, s[1..]);
      SumAdds([s[0]], Insert(x, s[1..], NoLater()));
      SumAdds([s[0]], s[1..]);
      assert s == [s[0]] + s[1..];
    }
  }

  lemma {:induction false} SumSort(s: seq<real>)
    ensures Sum(Sort(s, NoLater())) == Sum(s)
  {
    hide Sum, Insert;
    if s != [] {
      SumSort(s[1..]);
      SumInsert(s[0], Sort(s[1..], NoLater()));
      SumAdds([s[0]], s[1..]);
      assert s == [s[0]] + s[1..];
    } else {
      assert Sort(s, NoLater()) == s;
    }
  }

  datatype Summary = Summary(count: nat, min: real, mean: real, max: real, p50: real, p95: real, p99: real)

  function NoLater(): (real, real) -> bool {
    (a, b) => a <= b
  }

  /** `summarize`, for any rounding to three places. */
  function Summarize(values: seq<real>, round: real -> real): Summary {
    if values == [] then Summary(0, 0.0, 0.0, 0.0, 0.0, 0.0, 0.0)
    else
      var s := Sort(values, NoLater());
      Summary(|s|, round(s[0]), round(Sum(s) / |s| as real), round(s[|s| - 1]),
              round(Percentile(s, 0.50)), round(Percentile(s, 0.95)), round(Percentile(s, 0.99)))
  }

  /** Every value lies in `[lo, hi]`. */
  predicate InRange(s: seq<real>, lo: real, hi: real) {
    forall i :: 0 <= i < |s| ==> lo <= s[i] <= hi
  }

  lemma SortAscending(values: seq<real>)
    ensures Ascending(Sort(values, NoLater()))
    ensures forall lo, hi :: InRange(values, lo, hi) ==> InRange(Sort(values, NoLater()), lo, hi)
  {
    SortSorted(values, NoLater());
    SortMultiset(values, NoLater());
    var sorted := Sort(values, NoLater());
    forall i | 0 <= i < |sorted|
      ensures sorted[i] in values
    {
      assert sorted[i] in multiset(sorted);
      assert sorted[i] in multiset(values);
    }
  }

  lemma {:induction false} SumBetween(s: seq<real>, lo: real, hi: real)
    requires InRange(s, lo, hi)
    ensures lo * |s| as real <= Sum(s) <= hi * |s| as real
  {
    if s != [] {
      var init := s[..|s| - 1];
      SumBetween(init, lo, hi);
      OneMore(lo, |init|, |s|);
      OneMore(hi, |init|, |s|);
      assert lo <= s[|s| - 1] <= hi;
    }
  }

  lemma OneMore(x: real, n: nat, k: nat)
    requires k == n + 1
    ensures x * k as real == x * n as real + x
  {
    assert k as real == n as real + 1.0;
  }

  lemma DivideMonotone(x: real, y: real, n: real)
    requires x <= y && n > 0.0
    ensures x / n <= y / n
  {
  }

  lemma MeanBetween(sum: real, n: nat, lo: real, hi: real)
    requires n > 0 && lo * n as real <= sum <= hi * n as real
    ensures lo <= sum / n as real <= hi
  {
    DivideMonotone(lo * n as real, sum, n as real);
    DivideMonotone(sum, hi * n as real, n as real);
    assert lo * n as real / n as real == lo;
    assert hi * n as real / n as real == hi;
  }

  ghost predicate Monotone(round: real -> real) {
    forall x, y :: x <= y ==> round(x) <= round(y)
  }

  /** Every summary reads min <= p50 <= p95 <= p99 <= max, and the mean lies in the range too. */
  lemma SummaryOrdered(values: seq<real>, round: real -> real)
    requires Monotone(round)
    ensures var r := Summarize(values, round);
            r.min <= r.p50 <= r.p95 <= r.p99 <= r.max && r.min <= r.mean <= r.max && r.count == |values|
  {
    if values != [] {
      hide Percentile, Sort, Sum, Ascending;
      var s := Sort(values, NoLater());
      SortAscending(values);
      PercentileMonotone(s, 0.50, 0.95);
      PercentileMonotone(s, 0.95, 0.99);
      MeanInRange(s);
    }
  }

  /** What a summary says: of the values in ascending order the first, the last, the average, and the
      values half, 95 and 99 hundredths of the way up; with an even number of them, p50 is half way
      between the middle two. */
  lemma SummaryMeans(values: seq<real>, round: real -> real) returns (s: seq<real>, mean: real)
    requires values != []
    ensures multiset(s) == multiset(values) && |s| == |values| && Ascending(s)
    ensures mean * |values| as real == Sum(values)
    ensures var r, n := Summarize(values, round), |s|;
            && r.min == round(s[0]) && r.max == round(s[n - 1]) && r.mean == round(mean)
            && (forall k: nat :: k < n && 2 * k == n - 1 ==> r.p50 == round(s[k]))
            && (forall k: nat :: k < n && 100 * k == 95 * (n - 1) ==> r.p95 == round(s[k]))
            && (forall k: nat :: k < n && 100 * k == 99 * (n - 1) ==> r.p99 == round(s[k]))
            && (forall k: nat :: k + 1 < n && 2 * k + 1 == n - 1 ==> r.p50 == round((s[k] + s[k + 1]) / 2.0))
  {
    hide Percentile, Sort, Sum, Ascending;
    s := Sort(values, NoLater());
    SortAscending(values);
    SortMultiset(values, NoLater());
    SumSort(values);
    mean := Sum(s) / |s| as real;
    forall k: nat | k < |s| && 2 * k == |s| - 1
      ensures Percentile(s, 0.50) == s[k]
    {
      AtHundredths(s, k, 50);
    }
    forall k: nat | k < |s| && 100 * k == 95 * (|s| - 1)
      ensures Percentile(s, 0.95) == s[k]
    {
      AtHundredths(s, k, 95);
    }
    forall k: nat | k < |s| && 100 * k == 99 * (|s| - 1)
      ensures Percentile(s, 0.99) == s[k]
    {
      AtHundredths(s, k, 99);
    }
    forall k: nat | k + 1 < |s| && 2 * k + 1 == |s| - 1
      ensures Percentile(s, 0.50) == (s[k] + s[k + 1]) / 2.0
    {
      PercentileIsStraight(s, 0.50, k);
    }
  }

  lemma AtHundredths(s: seq<real>, k: nat, h: nat)
    requires k < |s| && h <= 100 && 100 * k == h * (|s| - 1)
    ensures 0.0 <= h as real / 100.0 <= 1.0 && Percentile(s, h as real / 100.0) == s[k]
  {
    if |s| >= 2 {
      hide At, Percentile;
      var m := (|s| - 1) as real;
      assert 100.0 * k as real == h as real * m;
      assert m * (h as real / 100.0) == k as real;
      PercentileIsAt(s, h as real / 100.0, k as real);
      AtRank(s, k);
    }
  }

  lemma AllBetween(s: seq<real>)
    requires Ascending(s) && s != []
    ensures InRange(s, s[0], s[|s| - 1])
  {
  }

  lemma MeanInRange(s: seq<real>)
    requires Ascending(s) && s != []
    ensures s[0] <= Sum(s) / |s| as real <= s[|s| - 1]
  {
    hide Sum;
    AllBetween(s);
    SumBetween(s, s[0], s[|s| - 1]);
    MeanBetween(Sum(s), |s|, s[0], s[|s| - 1]);
  }

  // ----- bootstrap --------------------------------------------------------------------

  /** Sum of the first `k` draws of resample `i`. */
  function DrawSum(vals: seq<real>, draw: (nat, nat) -> nat, i: nat, k: nat): real
    requires forall j: nat :: draw(i, j) < |vals|
  {
    if k == 0 then 0.0 else DrawSum(vals, draw, i, k - 1) + vals[draw(i, k - 1)]
  }

  /** The resample means, in the order they are drawn. */
  function Means(vals: seq<real>, draw: (nat, nat) -> nat, r: nat): (means: seq<real>)
    requires vals != [] && forall i: nat, j: nat :: draw(i, j) < |vals|
    ensures |means| == r
  {
    seq(r, i requires 0 <= i < r => DrawSum(vals, draw, i, |vals|) / |vals| as real)
  }

  function Bootstrap(vals: seq<real>, draw: (nat, nat) -> nat, r: nat, confidence: real): (real, real)
    requires vals != [] && forall i: nat, j: nat :: draw(i, j) < |vals|
  {
    var sorted := Sort(Means(vals, draw, r), NoLater());
    var alpha := (1.0 - confidence) / 2.0;
    (ScoringPercentile(sorted, alpha), ScoringPercentile(sorted, 1.0 - alpha))
  }

  /** Inner loop: sum of `n` draws with replacement. */
  method Resample(vals: seq<real>, draw: (nat, nat) -> nat, i: nat) returns (s: real)
    requires forall j: nat :: draw(i, j) < |vals|
    ensures s == DrawSum(vals, draw, i, |vals|)
  {
    s := 0.0;
    for j := 0 to |vals|
      invariant s == DrawSum(vals, draw, i, j)
    {
      s := s + vals[draw(i, j)];
    }
  }

  /** Outer loop: the mean of each resample. */
  method DrawMeans(vals: seq<real>, r: nat, draw: (nat, nat) -> nat) returns (means: seq<real>)
    requires vals != [] && forall i: nat, j: nat :: draw(i, j) < |vals|
    ensures means == Means(vals, draw, r)
  {
    means := [];
    for i := 0 to r
      invariant means == Means(vals, draw, r)[..i]
    {
      var s := Resample(vals, draw, i);
      means := means + [s / |vals| as real];
    }
  }

  /** `bootstrap_ci` with the random draws as an argument. */
  method BootstrapCi(vals: seq<real>, resamples: int, confidence: real, draw: (nat, nat) -> nat)
    returns (lo: real, hi: real)
    requires vals != [] ==> forall i: nat, j: nat :: draw(i, j) < |vals|
    ensures vals == [] ==> lo == hi == 0.0
    ensures |vals| == 1 ==> lo == hi == vals[0]
    ensures |vals| > 1 ==> (lo, hi) == Bootstrap(vals, draw, if resamples < 0 then 0 else resamples, confidence)
  {
    if vals == [] {
      return 0.0, 0.0;
    }
    if |vals| == 1 {
      return vals[0], vals[0];
    }
    var means := DrawMeans(vals, if resamples < 0 then 0 else resamples, draw);
    means := Sort(means, NoLater());
    var alpha := (1.0 - confidence) / 2.0;
    lo := ScoringPercentile(means, alpha);
    hi := ScoringPercentile(means, 1.0 - alpha);
  }

  lemma {:induction false} DrawSumBetween(vals: seq<real>, draw: (nat, nat) -> nat, i: nat, k: nat, min: real, max: real)
    requires forall j: nat :: draw(i, j) < |vals|
    requires InRange(vals, min, max)
    ensures min * k as real <= DrawSum(vals, draw, i, k) <= max * k as real
  {
    if k > 0 {
      DrawSumBetween(vals, draw, i, k - 1, min, max);
      assert min <= vals[draw(i, k - 1)] <= max;
      OneMore(min, k - 1, k);
      OneMore(max, k - 1, k);
    }
  }

  lemma MeansBetween(vals: seq<real>, draw: (nat, nat) -> nat, r: nat, min: real, max: real)
    requires vals != [] && forall i: nat, j: nat :: draw(i, j) < |vals|
    requires InRange(vals, min, max)
    ensures InRange(Means(vals, draw, r), min, max)
  {
    forall i | 0 <= i < r
      ensures min <= Means(vals, draw, r)[i] <= max
    {
      DrawSumBetween(vals, draw, i, |vals|, min, max);
      MeanBetween(DrawSum(vals, draw, i, |vals|), |vals|, min, max);
    }
  }

  /** A resample's mean is the average of the values drawn. */
  lemma MeanOfDrawn(vals: seq<real>, draw: (nat, nat) -> nat, r: nat, i: nat)
    requires vals != [] && i < r && forall i: nat, j: nat :: draw(i, j) < |vals|
    ensures Means(vals, draw, r)[i] * |vals| as real == Sum(Drawn(vals, draw, i, |vals|))
  {
    DrawSumIsSum(vals, draw, i, |vals|);
  }

  /** The first `k` values of resample `i`. */
  function Drawn(vals: seq<real>, draw: (nat, nat) -> nat, i: nat, k: nat): seq<real>
    requires forall j: nat :: draw(i, j) < |vals|
  {
    seq(k, j requires 0 <= j < k => vals[draw(i, j)])
  }

  lemma {:induction false} DrawSumIsSum(vals: seq<real>, draw: (nat, nat) -> nat, i: nat, k: nat)
    requires forall j: nat :: draw(i, j) < |vals|
    ensures DrawSum(vals, draw, i, k) == Sum(Drawn(vals, draw, i, k))
  {
    if k > 0 {
      DrawSumIsSum(vals, draw, i, k - 1);
      assert Drawn(vals, draw, i, k)[..k - 1] == Drawn(vals, draw, i, k - 1);
    }
  }

  /** The interval's ends: of the resample means in ascending order, the percentiles that leave half of
      1 - confidence below the one and above the other. */
  lemma BootstrapEnds(vals: seq<real>, draw: (nat, nat) -> nat, r: nat, confidence: real) returns (s: seq<real>)
    requires vals != [] && 0.0 <= confidence <= 1.0 && forall i: nat, j: nat :: draw(i, j) < |vals|
    ensures multiset(s) == multiset(Means(vals, draw, r)) && Ascending(s)
    ensures Bootstrap(vals, draw, r, confidence)
         == (Percentile(s, 0.5 - confidence / 2.0), Percentile(s, 0.5 + confidence / 2.0))
  {
    hide Percentile, ScoringPercentile, Sort, Means, Ascending;
    s := Sort(Means(vals, draw, r), NoLater());
    SortAscending(Means(vals, draw, r));
    SortMultiset(Means(vals, draw, r), NoLater());
    PercentilesAgree(s, 0.5 - confidence / 2.0);
    PercentilesAgree(s, 0.5 + confidence / 2.0);
  }

  /** Whatever is drawn, the interval is the right way round exactly as the confidence says, and
      it never leaves the range of the values. */
  lemma BootstrapInterval(vals: seq<real>, draw: (nat, nat) -> nat, r: nat, confidence: real, min: real, max: real)
    requires vals != [] && r >= 1 && forall i: nat, j: nat :: draw(i, j) < |vals|
    requires InRange(vals, min, max)
    ensures var (lo, hi) := Bootstrap(vals, draw, r, confidence);
            && min <= lo <= max && min <= hi <= max
            && (confidence >= 0.0 ==> lo <= hi)
            && (confidence <= 0.0 ==> hi <= lo)
  {
    hide Means, ScoringPercentile, Sort;
    var means := Means(vals, draw, r);
    var sorted := Sort(means, NoLater());
    MeansBetween(vals, draw, r, min, max);
    SortAscending(means);
    assert InRange(sorted, min, max);
    var alpha := (1.0 - confidence) / 2.0;
    if confidence >= 0.0 {
      ScoringMonotone(sorted, alpha, 1.0 - alpha);
    }
    if confidence <= 0.0 {
      ScoringMonotone(sorted, 1.0 - alpha, alpha);
    }
  }
}
