/** The statistics shown beside a metric's points (performance_highres.py, _summary). */
module SeriesSummary {
  import opened Sorting
  import opened Wrappers

  datatype Figures = Figures(avg: real, min: real, max: real, p95: real)
  datatype Summary = Summary(figures: Option<Figures>, sampleCount: nat, expectedCount: nat, coverage: real)

  predicate Le(a: real, b: real) { a <= b }

  function Sum(values: seq<real>): real {
    if values == [] then 0.0 else Sum(values[..|values| - 1]) + values[|values| - 1]
  }

  /** Sums add up, and the sum of one value is the value. */
  lemma {:induction false} SumAdds(a: seq<real>, b: seq<real>, x: real)
    ensures Sum(a + b) == Sum(a) + Sum(b) && Sum([x]) == x
  {
    if b == [] {
      assert a + b == a;
    } else {
      SumAdds(a, b[..|b| - 1], x);
      assert (a + b)[..|a + b| - 1] == a + b[..|b| - 1];
    }
  }

  /** How many values are at most (or, strictly, below) a bound. */
  function Count(values: seq<real>, bound: real, strictly: bool): nat {
    if values == [] then 0
    else Count(values[1..], bound, strictly) + if values[0] < bound || (!strictly && values[0] == bound) then 1 else 0
  }

  /** math.ceil(n * 0.95), exactly. */
  function CeilShare(n: nat): nat { (n * 95 + 99) / 100 }

  function RankIndex(n: nat): (i: nat)
    requires n > 0
    ensures i < n
  {
    var rank := CeilShare(n) - 1;
    if rank < 0 then 0 else if rank < n - 1 then rank else n - 1
  }

  lemma {:induction false} CountInsert(x: real, s: seq<real>, bound: real, strictly: bool)
    ensures Count(Insert(x, s, Le), bound, strictly) == Count([x] + s, bound, strictly)
  {
    assert ([x] + s)[1..] == s;
    if s != [] && !Le(x, s[0]) {
      CountInsert(x, s[1..], bound, strictly);
      assert ([x] + s[1..])[1..] == s[1..];
      assert Insert(x, s, Le)[1..] == Insert(x, s[1..], Le);
    }
  }

  lemma {:induction false} CountSort(s: seq<real>, bound: real, strictly: bool)
    ensures Count(Sort(s, Le), bound, strictly) == Count(s, bound, strictly)
  {
    if s != [] {
      CountSort(s[1..], bound, strictly);
      CountInsert(s[0], Sort(s[1..], Le), bound, strictly);
      assert ([s[0]] + Sort(s[1..], Le))[1..] == Sort(s[1..], Le);
    }
  }

  /** In an ordered list everything up to an index is at most its element, and nothing from it on
      is below. */
  lemma {:induction false} CountOrdered(s: seq<real>, i: nat)
    requires Sorted(s, Le) && i < |s|
    ensures Count(s, s[i], false) >= i + 1 && Count(s, s[i], true) <= i
  {
    if i > 0 {
      assert Le(s[0], s[i]);
      CountOrdered(s[1..], i - 1);
    } else {
      NoneBelow(s, s[0]);
    }
  }

  lemma {:induction false} NoneBelow(s: seq<real>, bound: real)
    requires forall i :: 0 <= i < |s| ==> bound <= s[i]
    ensures Count(s, bound, true) == 0
  {
    if s != [] {
      NoneBelow(s[1..], bound);
    }
  }

  /** The 95th percentile by nearest rank: at least 95 % of the values are at most it, and fewer
      than 95 % are below it. */
  lemma PercentileRank(values: seq<real>)
    requires values != []
    ensures var ordered := Sort(values, Le);
      && |ordered| == |values|
      && (var p := ordered[RankIndex(|values|)];
        && p in values
        && 100 * Count(values, p, false) >= 95 * |values|
        && 100 * Count(values, p, true) < 95 * |values|)
  {
    hide Count, Sort;
    var ordered := Sort(values, Le);
    SortSorted(values, Le);
    SortMembers(values, Le);
    var i := RankIndex(|values|);
    var p := ordered[i];
    assert p in ordered;
    CountOrdered(ordered, i);
    CountSort(values, p, false);
    CountSort(values, p, true);
  }

  lemma Extremes(values: seq<real>)
    requires values != []
    ensures var ordered := Sort(values, Le);
      && |ordered| == |values| && ordered[0] in values && ordered[|ordered| - 1] in values
      && forall v :: v in values ==> ordered[0] <= v <= ordered[|ordered| - 1]
  {
    var ordered := Sort(values, Le);
    SortSorted(values, Le);
    SortMembers(values, Le);
    assert ordered[0] in ordered && ordered[|ordered| - 1] in ordered;
    forall v | v in values ensures ordered[0] <= v <= ordered[|ordered| - 1] {
      var i :| 0 <= i < |ordered| && ordered[i] == v;
      assert i > 0 ==> Le(ordered[0], ordered[i]);
      assert i < |ordered| - 1 ==> Le(ordered[i], ordered[|ordered| - 1]);
    }
  }

  /** The figures mean what their names say; without a value there are none. */
  method Summarise(values: seq<real>, expected: nat) returns (summary: Summary)
    ensures summary.sampleCount == |values| && summary.expectedCount == expected
    ensures summary.figures.None? <==> values == []
    ensures values == [] ==> summary.coverage == 0.0
    ensures values != [] ==> var f := summary.figures.value;
      && IsShare(f.avg, Sum(values), |values| as real, 1.0)
      && f.min in values && f.max in values && (forall v :: v in values ==> f.min <= v <= f.max)
      && f.p95 in values
      && 100 * Count(values, f.p95, false) >= 95 * |values| > 100 * Count(values, f.p95, true)
    ensures values != [] && expected > 0 ==> IsShare(summary.coverage, |values| as real, expected as real, 100.0)
    ensures values != [] && expected == 0 ==> summary.coverage == 0.0
  {
    hide Sum, Count, RankIndex, Share, IsShare, Sort;
    if values == [] {
      return Summary(None, 0, expected, 0.0);
    }
    var figures := FiguresOf(values);
    var n, coverage := |values| as real, 0.0;
    if expected > 0 {
      ShareOf(n, expected as real, 100.0);
      coverage := Share(n, expected as real, 100.0);
    }
    return Summary(Some(figures), |values|, expected, coverage);
  }

  method FiguresOf(values: seq<real>) returns (f: Figures)
    requires values != []
    ensures IsShare(f.avg, Sum(values), |values| as real, 1.0)
    ensures f.min in values && f.max in values && forall v :: v in values ==> f.min <= v <= f.max
    ensures f.p95 in values
    ensures 100 * Count(values, f.p95, false) >= 95 * |values| > 100 * Count(values, f.p95, true)
  {
    hide Sum, Count, Share, IsShare, Sort;
    var ordered := Sort(values, Le);
    PercentileRank(values);
    Extremes(values);
    ShareOf(Sum(values), |values| as real, 1.0);
    var avg := Share(Sum(values), |values| as real, 1.0);
    f := Figures(avg, ordered[0], ordered[|ordered| - 1], ordered[RankIndex(|values|)]);
  }

  /** `share` is the part over the whole, times the scale. */
  ghost predicate IsShare(share: real, part: real, whole: real, scale: real) {
    share * whole == part * scale
  }

  function Share(part: real, whole: real, scale: real): real
    requires whole != 0.0
  {
    part / whole * scale
  }

  lemma ShareOf(part: real, whole: real, scale: real)
    requires whole != 0.0
    ensures IsShare(Share(part, whole, scale), part, whole, scale)
  {
    var q := part / whole;
    assert q * whole == part;
    assert q * scale * whole == (q * whole) * scale;
  }
}
