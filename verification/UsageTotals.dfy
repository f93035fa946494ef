/** Totals over the sweep: GPU time, active time, days, models and hours of the day
    (activity_usage.py summary, observed_days, model_statistics; activity.py busiest_hours, payload). */
module UsageTotals {
  import opened Sorting
  import opened Intervals
  import opened Sweep

  /** The reference total: one card busy for one tick is one unit. */
  ghost function GpuTime(records: seq<Usage>, a: int, b: int): int
    decreases b - a
  {
    if b <= a then 0 else GpuTime(records, a, b - 1) + |Busy(records, b - 1)|
  }

  /** Ticks of [a, b) during which at least one card is busy. */
  ghost function ActiveTime(records: seq<Usage>, a: int, b: int): int
    decreases b - a
  {
    if b <= a then 0 else ActiveTime(records, a, b - 1) + if Busy(records, b - 1) == {} then 0 else 1
  }

  /** Totals over adjoining windows add up. */
  lemma {:induction false} TotalsAdditive(records: seq<Usage>, a: int, b: int, c: int)
    requires a <= b <= c
    ensures GpuTime(records, a, c) == GpuTime(records, a, b) + GpuTime(records, b, c)
    ensures ActiveTime(records, a, c) == ActiveTime(records, a, b) + ActiveTime(records, b, c)
    decreases c - b
  {
    if b < c {
      TotalsAdditive(records, a, b, c - 1);
    }
  }

  // ----- from segments to totals

  /** The part of a segment list inside [a, b), each tick weighted by f(count) (activity.py, lines 243-245). */
  function Overlap(segs: seq<Segment>, weigh: bool, a: int, b: int): int {
    if segs == [] then 0
    else
      var s := segs[|segs| - 1];
      Overlap(segs[..|segs| - 1], weigh, a, b)
      + Max(0, Min(b, s.end) - Max(a, s.start)) * if weigh then s.count else 1
  }

  lemma {:induction false} OverlapEmpty(segs: seq<Segment>, weigh: bool, a: int, b: int)
    requires b <= a
    ensures Overlap(segs, weigh, a, b) == 0
  {
    if segs != [] {
      var s := segs[|segs| - 1];
      assert Max(0, Min(b, s.end) - Max(a, s.start)) == 0 || s.end <= s.start;
      OverlapEmpty(segs[..|segs| - 1], weigh, a, b);
    }
  }

  /** One more tick adds what the list shows at that tick. */
  lemma {:induction false} OverlapTick(segs: seq<Segment>, weigh: bool, a: int, b: int)
    requires Canonical(segs) && a < b
    ensures Overlap(segs, weigh, a, b) == Overlap(segs, weigh, a, b - 1)
      + if weigh then CountAt(segs, b - 1) else if CountAt(segs, b - 1) == 0 then 0 else 1
  {
    if segs != [] {
      var s := segs[|segs| - 1];
      var rest := segs[..|segs| - 1];
      var w := if weigh then s.count else 1;
      OverlapTick(rest, weigh, a, b);
      var before, after := Max(0, Min(b - 1, s.end) - Max(a, s.start)), Max(0, Min(b, s.end) - Max(a, s.start));
      if s.Holds(b - 1) {
        CountBeyondPrefix(segs, b - 1);
        assert after == before + 1;
        assert after * w == before * w + w;
      } else {
        assert after == before;
      }
    }
  }

  /** A canonical list that shows the number of busy cards throughout [a, b) measures both totals. */
  lemma {:induction false} OverlapIsTotal(segs: seq<Segment>, records: seq<Usage>, a: int, b: int)
    requires Canonical(segs)
    requires forall t :: a <= t < b ==> CountAt(segs, t) == |Busy(records, t)|
    ensures Overlap(segs, true, a, b) == GpuTime(records, a, b)
    ensures Overlap(segs, false, a, b) == ActiveTime(records, a, b)
    decreases b - a
  {
    if b <= a {
      OverlapEmpty(segs, true, a, b);
      OverlapEmpty(segs, false, a, b);
    } else {
      OverlapIsTotal(segs, records, a, b - 1);
      OverlapTick(segs, true, a, b);
      OverlapTick(segs, false, a, b);
    }
  }

  // ----- calendar days (Asia/Shanghai is UTC+8 throughout)

  function DayOf(t: int): int { (t + 8 * HOUR) / DAY }

  function Midnight(day: int): int { day * DAY - 8 * HOUR }

  lemma DayIs(t: int, d: int)
    ensures DayOf(t) == d <==> Midnight(d) <= t < Midnight(d + 1)
  {
  }

  /** The days met by the instants a..z are exactly those from the first one's day to the last one's. */
  lemma DaysMet(a: int, z: int, d: int)
    requires a <= z
    ensures (exists t :: a <= t <= z && DayOf(t) == d) <==> DayOf(a) <= d <= DayOf(z)
  {
    DayIs(a, DayOf(a));
    DayIs(z, DayOf(z));
    if DayOf(a) <= d <= DayOf(z) {
      DayIs(Max(a, Midnight(d)), d);
    }
    forall t | a <= t <= z && DayOf(t) == d ensures DayOf(a) <= d <= DayOf(z) {
      DayIs(t, d);
    }
  }

  /** The record counts at an instant of the window while it runs, or at its one instant if it is momentary. */
  predicate CountsAt(r: Usage, start: int, end: int, t: int) {
    start <= t < end && (r.Holds(t) || t == r.start == r.end)
  }

  ghost predicate ObservedOn(r: Usage, start: int, end: int, day: int) {
    exists t :: CountsAt(r, start, end, t) && DayOf(t) == day
  }

  /** The first and the last instant at which a record counts, if any. */
  lemma CountsBetween(r: Usage, start: int, end: int)
    ensures var a, b := Max(start, r.start), Min(end, r.end);
      forall t :: CountsAt(r, start, end, t)
        <==> a < end && (a < b || (a == b && r.start == r.end)) && a <= t <= Max(a, b - 1)
  {
  }

  /** One instant on each observed day, in order. */
  method ObservedDays(r: Usage, start: int, end: int) returns (result: seq<int>)
    ensures forall d :: ObservedOn(r, start, end, d) <==> exists i :: 0 <= i < |result| && DayOf(result[i]) == d
    ensures forall i, j :: 0 <= i < j < |result| ==> DayOf(result[i]) < DayOf(result[j])
    ensures forall t :: t in result ==> CountsAt(r, start, end, t)
  {
    var a, b := Max(start, r.start), Min(end, r.end);
    CountsBetween(r, start, end);
    if b < a || a >= end || (b == a && r.start != r.end) {
      return [];
    }
    ghost var z := Max(a, b - 1);
    var day := DayOf(a) + 1;
    result := [a];
    DayIs(a, DayOf(a));
    while Midnight(day) < b
      invariant day == DayOf(a) + |result| && Midnight(day - 1) <= z && a < Midnight(day)
      invariant forall i :: 0 <= i < |result| ==> DayOf(result[i]) == DayOf(a) + i && a <= result[i] <= z
      decreases b - Midnight(day)
    {
      DayIs(Midnight(day), day);
      result := result + [Midnight(day)];
      day := day + 1;
    }
    DayIs(z, day - 1);
    forall d ensures ObservedOn(r, start, end, d) <==> exists i :: 0 <= i < |result| && DayOf(result[i]) == d {
      DaysMet(a, z, d);
      if DayOf(a) <= d <= DayOf(z) {
        assert DayOf(result[d - DayOf(a)]) == d;
      }
    }
  }

  ghost predicate AreActiveDays(days: set<int>, records: seq<Usage>, start: int, end: int) {
    forall d :: d in days <==> exists r :: r in records && ObservedOn(r, start, end, d)
  }

  method Summary(records: seq<Usage>, start: int, end: int) returns (gpuTime: int, activeTime: int, activeDays: nat)
    ensures gpuTime == GpuTime(records, start, end)
    ensures activeTime == ActiveTime(records, start, end)
    ensures exists days :: AreActiveDays(days, records, start, end) && activeDays == |days|
  {
    var spans := Segments(records, start, end);
    OverlapIsTotal(spans, records, start, end);
    gpuTime := Total(spans, true);
    activeTime := Total(spans, false);
    TotalIsOverlap(spans, true, start, end);
    TotalIsOverlap(spans, false, start, end);
    var days: set<int> := {};
    for k := 0 to |records|
      invariant forall d :: d in days <==> exists r :: r in records[..k] && ObservedOn(r, start, end, d)
    {
      var instants := ObservedDays(records[k], start, end);
      ghost var before := days;
      days := days + set t | t in instants :: DayOf(t);
      assert records[..k + 1] == records[..k] + [records[k]];
      forall d ensures d in days <==> d in before || ObservedOn(records[k], start, end, d) {
        if ObservedOn(records[k], start, end, d) {
          var i :| 0 <= i < |instants| && DayOf(instants[i]) == d;
          assert instants[i] in instants;
        }
      }
    }
    assert records[..|records|] == records;
    assert AreActiveDays(days, records, start, end);
    activeDays := |days|;
  }

  /** The source's sums over whole segments (lines 154-155). */
  function Total(segs: seq<Segment>, weigh: bool): int {
    if segs == [] then 0
    else
      var s := segs[|segs| - 1];
      Total(segs[..|segs| - 1], weigh) + (s.end - s.start) * if weigh then s.count else 1
  }

  lemma {:induction false} TotalIsOverlap(segs: seq<Segment>, weigh: bool, a: int, b: int)
    requires forall s :: s in segs ==> a <= s.start < s.end <= b
    ensures Total(segs, weigh) == Overlap(segs, weigh, a, b)
  {
    if segs != [] {
      assert segs[|segs| - 1] in segs;
      TotalIsOverlap(segs[..|segs| - 1], weigh, a, b);
    }
  }

  // ----- per model

  function OfModel(records: seq<Usage>, m: string): seq<Usage> {
    if records == [] then []
    else
      var init := OfModel(records[..|records| - 1], m);
      if records[|records| - 1].model == m then init + [records[|records| - 1]] else init
  }

  ghost function Models(records: seq<Usage>): set<string> {
    set r | r in records :: r.model
  }

  lemma {:induction false} OfModelMembers(records: seq<Usage>, m: string)
    ensures forall x :: x in OfModel(records, m) <==> x in records && x.model == m
  {
    if records != [] {
      OfModelMembers(records[..|records| - 1], m);
      assert records == records[..|records| - 1] + [records[|records| - 1]];
    }
  }

  function Grouped(groups: map<string, seq<Usage>>, m: string): seq<Usage> {
    if m in groups then groups[m] else []
  }

  lemma OfModelAppend(records: seq<Usage>, r: Usage, m: string)
    ensures OfModel(records + [r], m) == OfModel(records, m) + if r.model == m then [r] else []
  {
    assert (records + [r])[..|records|] == records;
  }

  method GroupByModel(records: seq<Usage>) returns (groups: map<string, seq<Usage>>)
    ensures groups.Keys == Models(records)
    ensures forall m :: m in groups ==> groups[m] == OfModel(records, m)
  {
    groups := map[];
    for k := 0 to |records|
      invariant groups.Keys == Models(records[..k])
      invariant forall m :: OfModel(records[..k], m) == Grouped(groups, m)
    {
      var r := records[k];
      assert records[..k + 1] == records[..k] + [r];
      ghost var before := groups;
      groups := groups[r.model := Grouped(groups, r.model) + [r]];
      forall m ensures OfModel(records[..k + 1], m) == Grouped(groups, m) {
        OfModelAppend(records[..k], r, m);
        assert OfModel(records[..k], m) == Grouped(before, m);
      }
    }
    assert records[..|records|] == records;
    forall m | m in groups ensures groups[m] == OfModel(records, m) {
      assert OfModel(records, m) == Grouped(groups, m);
    }
  }

  method ModelStatistics(records: seq<Usage>, start: int, end: int) returns (hours: map<string, int>)
    ensures hours.Keys == Models(records)
    ensures forall m :: m in hours ==> hours[m] == GpuTime(OfModel(records, m), start, end)
  {
    var groups := GroupByModel(records);
    hours := map[];
    var todo := groups.Keys;
    while todo != {}
      invariant hours.Keys == groups.Keys - todo && todo <= groups.Keys
      invariant forall m :: m in hours ==> hours[m] == GpuTime(OfModel(records, m), start, end)
    {
      var m :| m in todo;
      var gpu, _, _ := Summary(groups[m], start, end);
      hours := hours[m := gpu];
      todo := todo - {m};
    }
  }

  /** Each card is busy under at most one model at t. */
  ghost predicate OneModelAt(records: seq<Usage>, t: int) {
    forall r, q :: r in records && q in records && r.Holds(t) && q.Holds(t) && r.card == q.card ==> r.model == q.model
  }

  ghost function BusySum(records: seq<Usage>, models: set<string>, t: int): int {
    if models == {} then 0
    else
      var m := AnyOf(models);
      |Busy(OfModel(records, m), t)| + BusySum(records, models - {m}, t)
  }

  ghost function ModelSum(records: seq<Usage>, models: set<string>, a: int, b: int): int {
    if models == {} then 0
    else
      var m := AnyOf(models);
      GpuTime(OfModel(records, m), a, b) + ModelSum(records, models - {m}, a, b)
  }

  ghost function Pairs(records: seq<Usage>, models: set<string>, t: int): set<(string, string)> {
    set r | r in records && r.model in models && r.Holds(t) :: (r.card, r.model)
  }

  ghost function Tagged(cards: set<string>, m: string): set<(string, string)> {
    set c | c in cards :: (c, m)
  }

  ghost function Cards(pairs: set<(string, string)>): set<string> {
    set p | p in pairs :: p.0
  }

  lemma {:induction false} TaggedSize(cards: set<string>, m: string)
    ensures |Tagged(cards, m)| == |cards|
    decreases |cards|
  {
    if cards != {} {
      var c := AnyOf(cards);
      TaggedSize(cards - {c}, m);
      assert Tagged(cards, m) == Tagged(cards - {c}, m) + {(c, m)};
    } else {
      assert Tagged(cards, m) == {};
    }
  }

  lemma {:induction false} BusySumIsPairs(records: seq<Usage>, models: set<string>, t: int)
    ensures BusySum(records, models, t) == |Pairs(records, models, t)|
    decreases |models|
  {
    if models == {} {
      assert Pairs(records, models, t) == {};
    } else {
      var m := AnyOf(models);
      BusySumIsPairs(records, models - {m}, t);
      OfModelMembers(records, m);
      TaggedSize(Busy(OfModel(records, m), t), m);
      assert Pairs(records, models, t)
          == Pairs(records, models - {m}, t) + Tagged(Busy(OfModel(records, m), t), m);
      assert Pairs(records, models - {m}, t) !! Tagged(Busy(OfModel(records, m), t), m);
    }
  }

  /** Forgetting the model loses nothing exactly when no card occurs with two models. */
  lemma {:induction false} CardsOfPairs(pairs: set<(string, string)>)
    ensures |Cards(pairs)| <= |pairs|
    ensures |Cards(pairs)| == |pairs| <==> forall p, q :: p in pairs && q in pairs && p.0 == q.0 ==> p == q
    decreases |pairs|
  {
    if pairs == {} {
      assert Cards(pairs) == {};
    } else {
      var p := AnyOf(pairs);
      var rest := pairs - {p};
      CardsOfPairs(rest);
      assert Cards(pairs) == Cards(rest) + {p.0};
      if p.0 in Cards(rest) {
        var q :| q in rest && q.0 == p.0;
        assert Cards(pairs) == Cards(rest);
      }
    }
  }

  lemma {:induction false} ModelSumStep(records: seq<Usage>, models: set<string>, a: int, b: int)
    requires a < b
    ensures ModelSum(records, models, a, b) == ModelSum(records, models, a, b - 1) + BusySum(records, models, b - 1)
    decreases |models|
  {
    if models != {} {
      ModelSumStep(records, models - {AnyOf(models)}, a, b);
    }
  }

  lemma {:induction false} ModelSumEmpty(records: seq<Usage>, models: set<string>, a: int, b: int)
    requires b <= a
    ensures ModelSum(records, models, a, b) == 0
    decreases |models|
  {
    if models != {} {
      ModelSumEmpty(records, models - {AnyOf(models)}, a, b);
    }
  }

  /** Per-model time never undercounts, and sums to the total exactly when no card is busy under two
      models at once. */
  lemma {:induction false} ModelsSumToTotal(records: seq<Usage>, a: int, b: int)
    ensures ModelSum(records, Models(records), a, b) >= GpuTime(records, a, b)
    ensures ModelSum(records, Models(records), a, b) == GpuTime(records, a, b)
      <==> forall t :: a <= t < b ==> OneModelAt(records, t)
    decreases b - a
  {
    var all := Models(records);
    if b <= a {
      ModelSumEmpty(records, all, a, b);
    } else {
      var t := b - 1;
      ModelsSumToTotal(records, a, t);
      ModelSumStep(records, all, a, b);
      BusySumIsPairs(records, all, t);
      var pairs := Pairs(records, all, t);
      CardsOfPairs(pairs);
      assert Cards(pairs) == Busy(records, t) by {
        forall r | r in records && r.Holds(t) ensures r.card in Cards(pairs) {
          assert (r.card, r.model) in pairs;
        }
      }
      PairsInjective(records, t);
      assert OneModelAt(records, t) <==> |pairs| == |Busy(records, t)|;
    }
  }

  lemma PairsInjective(records: seq<Usage>, t: int)
    ensures var pairs := Pairs(records, Models(records), t);
            OneModelAt(records, t) <==> forall p, q :: p in pairs && q in pairs && p.0 == q.0 ==> p == q
  {
    var pairs := Pairs(records, Models(records), t);
    forall r | r in records && r.Holds(t) ensures (r.card, r.model) in pairs {
    }
  }

  // ----- days and hours of the day

  /** The window of a period query: `period` calendar days, the last cut at `now` (activity.py, lines 52-63). */
  method PeriodDays(now: int, period: nat) returns (start: int, days: seq<Span>)
    requires period > 0
    ensures start == Midnight(DayOf(now) - (period - 1))
    ensures PeriodChain(days, start, now) && |days| == period
  {
    var first := DayOf(now) - (period - 1);
    start := Midnight(first);
    days := [];
    DayIs(now, DayOf(now));
    for i := 0 to period
      invariant |days| == i
      invariant forall j :: 0 <= j < i ==> days[j] == Span(start + j * DAY, Min(now, start + (j + 1) * DAY))
    {
      days := days + [Span(Midnight(first + i), Min(now, Midnight(first + i + 1)))];
    }
  }

  /** Whole days from start on, the last one holding now. */
  ghost predicate PeriodChain(days: seq<Span>, start: int, now: int) {
    && days != []
    && start + (|days| - 1) * DAY <= now < start + |days| * DAY
    && forall i :: 0 <= i < |days| ==> days[i] == Span(start + i * DAY, Min(now, start + (i + 1) * DAY))
  }

  ghost function DaySum(records: seq<Usage>, days: seq<Span>): int {
    if days == [] then 0
    else DaySum(records, days[..|days| - 1]) + GpuTime(records, days[|days| - 1].start, days[|days| - 1].end)
  }

  lemma {:induction false} DaysSumUpTo(records: seq<Usage>, days: seq<Span>, start: int, now: int, k: nat)
    requires PeriodChain(days, start, now) && k <= |days|
    ensures DaySum(records, days[..k]) == GpuTime(records, start, Min(now, start + k * DAY))
  {
    if k > 0 {
      DaysSumUpTo(records, days, start, now, k - 1);
      assert days[..k][..k - 1] == days[..k - 1];
      assert start + (k - 1) * DAY <= start + (|days| - 1) * DAY;
      TotalsAdditive(records, start, days[k - 1].start, days[k - 1].end);
    }
  }

  /** The daily totals of a period sum to the total of the period. */
  lemma DaysSumToPeriod(records: seq<Usage>, days: seq<Span>, start: int, now: int)
    requires PeriodChain(days, start, now)
    ensures DaySum(records, days) == GpuTime(records, start, now)
  {
    DaysSumUpTo(records, days, start, now, |days|);
    assert days[..|days|] == days;
  }

  function HourStart(day: Span, h: int): int { day.start + h * HOUR }

  function HourEnd(day: Span, h: int): int { Min(day.end, day.start + (h + 1) * HOUR) }

  /** GPU time in the h-th hour of every day. */
  ghost function HourUsage(records: seq<Usage>, days: seq<Span>, h: int): int {
    if days == [] then 0
    else
      var d := days[|days| - 1];
      HourUsage(records, days[..|days| - 1], h) + GpuTime(records, HourStart(d, h), HourEnd(d, h))
  }

  ghost function HourSum(records: seq<Usage>, days: seq<Span>, hours: nat): int {
    if hours == 0 then 0 else HourSum(records, days, hours - 1) + HourUsage(records, days, hours - 1)
  }

  lemma {:induction false} HoursOfLastDay(records: seq<Usage>, days: seq<Span>, hours: nat)
    requires days != [] && days[|days| - 1].start <= days[|days| - 1].end
    ensures var d := days[|days| - 1];
            HourSum(records, days, hours) == HourSum(records, days[..|days| - 1], hours)
              + GpuTime(records, d.start, Min(d.end, d.start + hours * HOUR))
  {
    var d := days[|days| - 1];
    if hours > 0 {
      HoursOfLastDay(records, days, hours - 1);
      if HourStart(d, hours - 1) <= d.end {
        TotalsAdditive(records, d.start, HourStart(d, hours - 1), HourEnd(d, hours - 1));
      }
    }
  }

  lemma {:induction false} HoursSumToDays(records: seq<Usage>, days: seq<Span>)
    requires forall d :: d in days ==> d.start <= d.end <= d.start + DAY
    ensures HourSum(records, days, 24) == DaySum(records, days)
  {
    if days == [] {
      NoDaysNoHours(records, 24);
    } else {
      assert days[|days| - 1] in days;
      HoursOfLastDay(records, days, 24);
      HoursSumToDays(records, days[..|days| - 1]);
    }
  }

  lemma {:induction false} NoDaysNoHours(records: seq<Usage>, hours: nat)
    ensures HourSum(records, [], hours) == 0
  {
    if hours > 0 { NoDaysNoHours(records, hours - 1); }
  }

  /** The 24 hour-of-day bins hold exactly the GPU time of the period. */
  lemma HoursSumToPeriod(records: seq<Usage>, days: seq<Span>, start: int, now: int)
    requires PeriodChain(days, start, now)
    ensures HourSum(records, days, 24) == GpuTime(records, start, now)
  {
    forall d | d in days ensures d.start <= d.end <= d.start + DAY {
      var i :| 0 <= i < |days| && days[i] == d;
      assert start + i * DAY <= start + (|days| - 1) * DAY;
    }
    HoursSumToDays(records, days);
    DaysSumToPeriod(records, days, start, now);
  }

  /** Ticks of [a, b) inside a separated list of spans. */
  function Exposed(spans: seq<Span>, a: int, b: int): int {
    if spans == [] then 0
    else
      var s := spans[|spans| - 1];
      Exposed(spans[..|spans| - 1], a, b) + Max(0, Min(b, s.end) - Max(a, s.start))
  }

  /** Ticks of [a, b) that some span holds. */
  ghost function CoveredTime(spans: seq<Span>, a: int, b: int): int
    decreases b - a
  {
    if b <= a then 0 else CoveredTime(spans, a, b - 1) + if Covered(spans, b - 1) then 1 else 0
  }

  /** The sum of the parts inside [a, b) counts every tick once, as the spans are separated. */
  lemma {:induction false} ExposedIsCovered(spans: seq<Span>, a: int, b: int)
    requires Separated(spans) && a <= b
    ensures Exposed(spans, a, b) == CoveredTime(spans, a, b)
    decreases b - a
  {
    if a == b {
      ExposedNone(spans, a);
    } else {
      ExposedIsCovered(spans, a, b - 1);
      ExposedTick(spans, a, b);
    }
  }

  lemma {:induction false} ExposedNone(spans: seq<Span>, a: int)
    requires Separated(spans)
    ensures Exposed(spans, a, a) == 0
  {
    if spans != [] { ExposedNone(spans[..|spans| - 1], a); }
  }

  lemma {:induction false} ExposedTick(spans: seq<Span>, a: int, b: int)
    requires Separated(spans) && a < b
    ensures Exposed(spans, a, b) == Exposed(spans, a, b - 1) + if Covered(spans, b - 1) then 1 else 0
  {
    if spans != [] {
      var n := |spans| - 1;
      ExposedTick(spans[..n], a, b);
      assert spans == spans[..n] + [spans[n]];
      CoveredAppend(spans[..n], spans[n], b - 1);
      if spans[n].Holds(b - 1) {
        forall s | s in spans[..n] ensures !s.Holds(b - 1) {
        }
      }
    }
  }

  ghost function HourExposure(spans: seq<Span>, days: seq<Span>, h: int): int {
    if days == [] then 0
    else
      var d := days[|days| - 1];
      HourExposure(spans, days[..|days| - 1], h)
      + if HourStart(d, h) < HourEnd(d, h) then Exposed(spans, HourStart(d, h), HourEnd(d, h)) else 0
  }

  method AddDay(spans: seq<Segment>, ghost records: seq<Usage>, d: Span, eligible: seq<Span>,
      usage: array<int>, exposure: array<int>)
    requires usage != exposure && usage.Length == exposure.Length == 24
    requires Canonical(spans)
    requires forall t :: d.start <= t < d.end ==> CountAt(spans, t) == |Busy(records, t)|
    modifies usage, exposure
    ensures forall h :: 0 <= h < 24 ==>
      usage[h] == old(usage[h]) + GpuTime(records, HourStart(d, h), HourEnd(d, h))
    ensures forall h :: 0 <= h < 24 ==>
      exposure[h] == old(exposure[h])
        + if HourStart(d, h) < HourEnd(d, h) then Exposed(eligible, HourStart(d, h), HourEnd(d, h)) else 0
  {
    for h := 0 to 24
      invariant forall g :: 0 <= g < h ==>
        usage[g] == old(usage[g]) + GpuTime(records, HourStart(d, g), HourEnd(d, g))
      invariant forall g :: 0 <= g < h ==>
        exposure[g] == old(exposure[g])
          + if HourStart(d, g) < HourEnd(d, g) then Exposed(eligible, HourStart(d, g), HourEnd(d, g)) else 0
      invariant forall g :: h <= g < 24 ==> usage[g] == old(usage[g]) && exposure[g] == old(exposure[g])
    {
      var a, b := HourStart(d, h), HourEnd(d, h);
      if a >= b {
        continue;
      }
      OverlapIsTotal(spans, records, a, b);
      usage[h] := usage[h] + Overlap(spans, true, a, b);
      exposure[h] := exposure[h] + Exposed(eligible, a, b);
    }
  }

  /** Per hour of the day: GPU time used, and time the account was eligible to use any. */
  method HourProfile(records: seq<Usage>, days: seq<Span>, eligible: seq<Span>, start: int, asOf: int)
    returns (usage: array<int>, exposure: array<int>)
    requires PeriodChain(days, start, asOf)
    ensures fresh(usage) && fresh(exposure) && usage.Length == exposure.Length == 24
    ensures forall h :: 0 <= h < 24 ==> usage[h] == HourUsage(records, days, h)
    ensures forall h :: 0 <= h < 24 ==> exposure[h] == HourExposure(eligible, days, h)
  {
    usage, exposure := new int[24](_ => 0), new int[24](_ => 0);
    var spans := Segments(records, start, asOf);
    for k := 0 to |days|
      invariant forall h :: 0 <= h < 24 ==> usage[h] == HourUsage(records, days[..k], h)
      invariant forall h :: 0 <= h < 24 ==> exposure[h] == HourExposure(eligible, days[..k], h)
    {
      assert days[..k + 1][..k] == days[..k] && days[..k + 1][k] == days[k];
      AddDay(spans, records, days[k], eligible, usage, exposure);
    }
    assert days[..|days|] == days;
  }

  /** Used time per exposed time, hour by hour, and none where there was no exposure. */
  ghost predicate AreAverages(averages: seq<real>, usage: seq<int>, exposure: seq<int>) {
    && |averages| == |usage| == |exposure| == 24
    && forall h :: 0 <= h < 24 ==>
      if exposure[h] == 0 then averages[h] == 0.0 else averages[h] * exposure[h] as real == usage[h] as real
  }

  /** Load of the three hours from h on, wrapping midnight. */
  function ThreeHours(averages: seq<real>, h: nat): real
    requires |averages| == 24
  {
    averages[h % 24] + averages[(h + 1) % 24] + averages[(h + 2) % 24]
  }

  /** The window that begins at 22 ends at 1, and the one that begins at 23 ends at 2. */
  lemma ThreeHoursWrap(averages: seq<real>, h: nat)
    requires |averages| == 24 && h < 24
    ensures h < 22 ==> ThreeHours(averages, h) == averages[h] + averages[h + 1] + averages[h + 2]
    ensures h == 22 ==> ThreeHours(averages, h) == averages[22] + averages[23] + averages[0]
    ensures h == 23 ==> ThreeHours(averages, h) == averages[23] + averages[0] + averages[1]
  {
  }

  lemma SomeLoad(averages: seq<real>, usage: seq<int>, exposure: seq<int>, h: nat)
    requires AreAverages(averages, usage, exposure) && h < 24
    ensures averages[h] != 0.0 <==> exposure[h] != 0 && usage[h] != 0
  {
  }

  method Averages(usage: seq<int>, exposure: seq<int>) returns (averages: seq<real>)
    requires |usage| == |exposure| == 24
    ensures AreAverages(averages, usage, exposure)
  {
    averages := [];
    for h := 0 to 24
      invariant |averages| == h
      invariant forall g :: 0 <= g < h ==>
        if exposure[g] == 0 then averages[g] == 0.0 else averages[g] * exposure[g] as real == usage[g] as real
    {
      averages := averages + [if exposure[h] == 0 then 0.0 else usage[h] as real / exposure[h] as real];
    }
  }

  /** The first three-hour window of greatest average load, if any hour had load. */
  method BusiestHours(usage: seq<int>, exposure: seq<int>)
    returns (found: bool, startHour: nat, endHour: nat, ghost loads: seq<real>)
    requires |usage| == |exposure| == 24
    ensures AreAverages(loads, usage, exposure)
    ensures found <==> exists h :: 0 <= h < 24 && exposure[h] != 0 && usage[h] != 0
    ensures startHour < 24 && endHour == (startHour + 3) % 24
    ensures forall h :: 0 <= h < 24 ==> ThreeHours(loads, h) <= ThreeHours(loads, startHour)
    ensures forall h :: 0 <= h < startHour ==> ThreeHours(loads, h) < ThreeHours(loads, startHour)
  {
    hide AreAverages;
    var averages := Averages(usage, exposure);
    loads := averages;
    AveragesHas24(averages, usage, exposure);
    forall h: nat | h < 24 ensures averages[h] != 0.0 <==> exposure[h] != 0 && usage[h] != 0 {
      SomeLoad(averages, usage, exposure, h);
    }
    found := exists h :: 0 <= h < 24 && averages[h] != 0.0;
    startHour := FirstPeak(averages);
    endHour := (startHour + 3) % 24;
  }

  lemma AveragesHas24(averages: seq<real>, usage: seq<int>, exposure: seq<int>)
    requires AreAverages(averages, usage, exposure)
    ensures |averages| == 24
  {
  }

  /** max(range(24), key=...) keeps the first of equals. */
  method FirstPeak(averages: seq<real>) returns (peak: nat)
    requires |averages| == 24
    ensures peak < 24
    ensures forall h :: 0 <= h < 24 ==> ThreeHours(averages, h) <= ThreeHours(averages, peak)
    ensures forall h :: 0 <= h < peak ==> ThreeHours(averages, h) < ThreeHours(averages, peak)
  {
    hide ThreeHours;
    peak := 0;
    for h := 1 to 24
      invariant peak < h
      invariant forall g :: 0 <= g < h ==> ThreeHours(averages, g) <= ThreeHours(averages, peak)
      invariant forall g :: 0 <= g < peak ==> ThreeHours(averages, g) < ThreeHours(averages, peak)
    {
      if ThreeHours(averages, h) > ThreeHours(averages, peak) {
        peak := h;
      }
    }
  }
}
