/** Half-open intervals of time and their union (activity_usage.py).
    Time is an integer count of ticks; see SECOND. */
module Intervals {
  import opened Sorting

  /** 2^22 ticks a second: the spacing of double-precision numbers between 2^30 and 2^31 seconds,
      so every present-day float timestamp is a whole number of ticks. */
  const SECOND: int := 0x40_0000
  const HOUR: int := 3600 * SECOND
  const DAY: int := 24 * HOUR

  datatype Span = Span(start: int, end: int) {
    predicate Holds(t: int) { start <= t < end }
  }

  function Max(a: int, b: int): int { if a < b then b else a }

  function Min(a: int, b: int): int { if b < a then b else a }

  ghost predicate Covered(spans: seq<Span>, t: int) {
    exists s :: s in spans && s.Holds(t)
  }

  /** Nonempty spans in order with a gap between neighbours. */
  ghost predicate Separated(spans: seq<Span>) {
    && (forall i :: 0 <= i < |spans| ==> spans[i].start < spans[i].end)
    && (forall i, j :: 0 <= i < j < |spans| ==> spans[i].end < spans[j].start)
  }

  /** Python's order on (start, end) pairs. */
  predicate TupleLe(a: Span, b: Span) {
    a.start < b.start || (a.start == b.start && a.end <= b.end)
  }

  lemma CoveredAppend(spans: seq<Span>, s: Span, t: int)
    ensures Covered(spans + [s], t) <==> Covered(spans, t) || s.Holds(t)
  {
    if s.Holds(t) {
      assert s in spans + [s];
    }
    if Covered(spans, t) {
      var x :| x in spans && x.Holds(t);
      assert x in spans + [s];
    }
  }

  lemma GrowLast(spans: seq<Span>, s: Span)
    requires Separated(spans) && spans != [] && s.start < s.end
    requires spans[|spans| - 1].start <= s.start <= spans[|spans| - 1].end
    ensures var last := spans[|spans| - 1];
            var grown := spans[..|spans| - 1] + [Span(last.start, Max(s.end, last.end))];
            Separated(grown) && forall t :: Covered(grown, t) <==> Covered(spans, t) || s.Holds(t)
  {
    var last := spans[|spans| - 1];
    var init := spans[..|spans| - 1];
    assert spans == init + [last];
    forall t ensures Covered(init + [Span(last.start, Max(s.end, last.end))], t) <==> Covered(spans, t) || s.Holds(t) {
      CoveredAppend(init, Span(last.start, Max(s.end, last.end)), t);
      CoveredAppend(init, last, t);
    }
  }

  lemma StartOrder(ordered: seq<Span>)
    requires Sorted(ordered, TupleLe)
    ensures forall i, j :: 0 <= i <= j < |ordered| ==> ordered[i].start <= ordered[j].start
  {
    forall i, j | 0 <= i < j < |ordered| ensures ordered[i].start <= ordered[j].start {
      assert TupleLe(ordered[i], ordered[j]);
    }
  }

  lemma AppendSpan(spans: seq<Span>, s: Span)
    requires Separated(spans) && s.start < s.end
    requires spans != [] ==> spans[|spans| - 1].end < s.start
    ensures Separated(spans + [s])
    ensures forall t :: Covered(spans + [s], t) <==> Covered(spans, t) || s.Holds(t)
  {
    assert spans != [] ==> forall i :: 0 <= i < |spans| ==> spans[i].end <= spans[|spans| - 1].end;
    forall t { CoveredAppend(spans, s, t); }
  }

  lemma PrefixCovered(spans: seq<Span>, k: nat)
    requires k < |spans|
    ensures forall t :: Covered(spans[..k + 1], t) <==> Covered(spans[..k], t) || spans[k].Holds(t)
  {
    forall t ensures Covered(spans[..k + 1], t) <==> Covered(spans[..k], t) || spans[k].Holds(t) {
      assert spans[..k + 1] == spans[..k] + [spans[k]];
      CoveredAppend(spans[..k], spans[k], t);
    }
  }

  method Union(spans: seq<Span>) returns (merged: seq<Span>)
    ensures Separated(merged)
    ensures forall t :: Covered(merged, t) <==> Covered(spans, t)
  {
    hide Covered, Separated, Sort;
    var ordered := Sort(spans, TupleLe);
    SortSorted(spans, TupleLe);
    SortMembers(spans, TupleLe);
    StartOrder(ordered);
    merged := [];
    NothingCovered(ordered);
    for k := 0 to |ordered|
      invariant Separated(merged)
      invariant merged != [] ==> forall j :: k <= j < |ordered| ==> merged[|merged| - 1].start <= ordered[j].start
      invariant forall t :: Covered(merged, t) <==> Covered(ordered[..k], t)
    {
      var s := ordered[k];
      PrefixCovered(ordered, k);
      if s.end <= s.start {
        continue;
      }
      if merged != [] && s.start <= merged[|merged| - 1].end {
        var last := merged[|merged| - 1];
        GrowLast(merged, s);
        merged := merged[..|merged| - 1] + [Span(last.start, Max(s.end, last.end))];
      } else {
        AppendSpan(merged, s);
        merged := merged + [s];
      }
    }
    assert ordered[..|ordered|] == ordered;
    SameCover(ordered, spans);
  }

  lemma NothingCovered(spans: seq<Span>)
    ensures Separated([]) && forall t :: Covered([], t) <==> Covered(spans[..0], t)
  {
  }

  lemma SameCover(a: seq<Span>, b: seq<Span>)
    requires forall s :: s in a <==> s in b
    ensures forall t :: Covered(a, t) <==> Covered(b, t)
  {
  }

  /** What Union promises leaves no freedom: the separated list of a set of instants is unique. */
  lemma {:induction false} SeparatedUnique(a: seq<Span>, b: seq<Span>)
    requires Separated(a) && Separated(b)
    requires forall t :: Covered(a, t) <==> Covered(b, t)
    ensures a == b
    decreases |a|
  {
    if a == [] || b == [] {
      if a != [] { HeadCovered(a); assert false; }
      if b != [] { HeadCovered(b); assert false; }
    } else {
      FirstSpan(a, b);
      FirstSpan(b, a);
      forall t ensures Covered(a[1..], t) <==> Covered(b[1..], t) {
        TailCovered(a, t);
        TailCovered(b, t);
        assert Covered(a, t) <==> Covered(b, t);
      }
      SeparatedUnique(a[1..], b[1..]);
      assert a == [a[0]] + a[1..] && b == [b[0]] + b[1..];
    }
  }

  lemma HeadCovered(a: seq<Span>)
    requires Separated(a) && a != []
    ensures forall t :: a[0].Holds(t) ==> Covered(a, t)
    ensures Covered(a, a[0].start)
  {
    assert a[0] in a && a[0].Holds(a[0].start);
  }

  lemma TailCovered(a: seq<Span>, t: int)
    requires Separated(a) && a != []
    ensures Covered(a[1..], t) <==> Covered(a, t) && !a[0].Holds(t) && t >= a[0].start
  {
    assert a == [a[0]] + a[1..];
    if Covered(a[1..], t) {
      var s :| s in a[1..] && s.Holds(t);
      assert s in a;
    }
    if Covered(a, t) && !a[0].Holds(t) {
      var s :| s in a && s.Holds(t);
      assert s in a[1..];
    }
  }

  lemma FirstSpan(a: seq<Span>, b: seq<Span>)
    requires Separated(a) && Separated(b) && a != [] && b != []
    requires forall t :: Covered(a, t) <==> Covered(b, t)
    ensures b[0].start <= a[0].start
    ensures a[0].start == b[0].start ==> b[0].end <= a[0].end
  {
    HeadCovered(a);
    HeadCovered(b);
    assert Covered(b, a[0].start);
    if a[0].start == b[0].start && a[0].end < b[0].end {
      assert b[0].Holds(a[0].end);
      assert false;
    }
  }
}
