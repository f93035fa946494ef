/** Aggregating metric samples: 20 s buckets, and the 2 m and 1 h rows computed from them
    (db.py, RollupBucket and rollup_gpu_metric_rollups; performance_rollup.py). */
module Rollup {
  import opened Sorting
  import Intervals
  import opened Wrappers

  const SECOND: int := Intervals.SECOND
  const TWENTY_SECONDS: int := 20 * SECOND
  const TWO_MINUTES: int := 120 * SECOND
  const ONE_HOUR: int := 3600 * SECOND

  /** Columns of gpu_metric_rollups, then those of nvidia_gpm_rollups. */
  datatype Metric = Utilization | MemoryUsed | Power | Temperature
    | SmActive | SmOccupancy | TensorActive | DramBwActive
    | Fp16NonTensor | Fp32NonTensor | Fp64NonTensor
    | PcieTx | PcieRx | NvlinkTx | NvlinkRx

  function GpuColumns(): set<Metric> { {Utilization, MemoryUsed, Power, Temperature} }

  function GpmColumns(): set<Metric> {
    {SmActive, SmOccupancy, TensorActive, DramBwActive,
     Fp16NonTensor, Fp32NonTensor, Fp64NonTensor, PcieTx, PcieRx, NvlinkTx, NvlinkRx}
  }

  /** One GPU of one node, in one of the two tables. */
  datatype Series<K> = Gpu(id: K) | Gpm(id: K)

  function Columns<K>(series: Series<K>): set<Metric> {
    if series.Gpu? then GpuColumns() else GpmColumns()
  }

  /** What one sample adds to a column: to its sum, and to its maximum. */
  datatype Reading = Reading(value: real, peak: real)
  datatype Sample<K> = Sample(at: int, series: Series<K>, readings: map<Metric, Reading>)

  function BucketStart(at: int): int { at / TWENTY_SECONDS * TWENTY_SECONDS }

  // ----- aggregating samples directly

  datatype Part = Nothing | Part(count: nat, sum: real, peak: real)
  datatype Tally = Tally(expected: nat, parts: map<Metric, Part>)

  function Larger(a: real, b: real): real { if a < b then b else a }

  function Join(a: Part, b: Part): Part {
    if a.Nothing? then b
    else if b.Nothing? then a
    else Part(a.count + b.count, a.sum + b.sum, Larger(a.peak, b.peak))
  }

  function Single(r: Reading): Part { Part(1, r.value, r.peak) }

  ghost predicate Falls<K>(s: Sample<K>, series: Series<K>, cover: set<int>) {
    s.series == series && BucketStart(s.at) in cover
  }

  ghost function Expected<K>(log: seq<Sample<K>>, series: Series<K>, cover: set<int>): nat {
    if log == [] then 0
    else
      var before := Expected(log[..|log| - 1], series, cover);
      if Falls(log[|log| - 1], series, cover) then before + 1 else before
  }

  /** Count, sum and maximum of a column over the samples whose 20 s bucket is in `cover`. */
  ghost function Gather<K>(log: seq<Sample<K>>, series: Series<K>, cover: set<int>, m: Metric): Part {
    if log == [] then Nothing
    else
      var before := Gather(log[..|log| - 1], series, cover, m);
      var s := log[|log| - 1];
      if Falls(s, series, cover) && m in s.readings then Join(before, Single(s.readings[m])) else before
  }

  ghost function TallyOf<K>(log: seq<Sample<K>>, series: Series<K>, cover: set<int>): Tally {
    Tally(Expected(log, series, cover),
      map m | m in Columns(series) :: Gather(log, series, cover, m))
  }

  // ----- rows

  datatype Column = Column(count: nat, avg: Option<real>, max: Option<real>)
  datatype Row = Row(expected: nat, columns: map<Metric, Column>)

  function ColumnFrom(p: Part): Column {
    if p.Nothing? || p.count == 0 then Column(0, None, None)
    else Column(p.count, Some(p.sum / p.count as real), Some(p.peak))
  }

  function RowFrom(t: Tally): Row {
    Row(t.expected, map m | m in t.parts :: ColumnFrom(t.parts[m]))
  }

  ghost function RowOf<K>(log: seq<Sample<K>>, series: Series<K>, cover: set<int>): Row {
    RowFrom(TallyOf(log, series, cover))
  }

  // ----- SQL aggregation of a group of rows (NULLs are ignored by SUM and MAX)

  datatype Sums = Sums(count: nat, weighted: real, peak: Option<real>)

  function AddColumn(s: Sums, c: Column): Sums {
    Sums(s.count + c.count,
      s.weighted + (if c.avg.None? then 0.0 else c.avg.value * c.count as real),
      if c.max.None? then s.peak
      else if s.peak.None? then c.max
      else Some(Larger(s.peak.value, c.max.value)))
  }

  function SumColumn(rows: seq<Row>, m: Metric): Sums
    requires forall i :: 0 <= i < |rows| ==> m in rows[i].columns
  {
    if rows == [] then Sums(0, 0.0, None)
    else AddColumn(SumColumn(rows[..|rows| - 1], m), rows[|rows| - 1].columns[m])
  }

  function SumExpected(rows: seq<Row>): nat {
    if rows == [] then 0 else SumExpected(rows[..|rows| - 1]) + rows[|rows| - 1].expected
  }

  function Blend(s: Sums): Column {
    Column(s.count, if s.count > 0 then Some(s.weighted / s.count as real) else None, s.peak)
  }

  ghost predicate HaveColumns(rows: seq<Row>, columns: set<Metric>) {
    forall i :: 0 <= i < |rows| ==> rows[i].columns.Keys == columns
  }

  function Aggregate(rows: seq<Row>, columns: set<Metric>): Row
    requires HaveColumns(rows, columns)
  {
    Row(SumExpected(rows), map m | m in columns :: Blend(SumColumn(rows, m)))
  }

  // ----- rolling up in stages preserves meaning

  ghost predicate Counted(p: Part) { p.Part? ==> p.count > 0 }

  lemma {:induction false} GatherCounted<K>(log: seq<Sample<K>>, series: Series<K>, cover: set<int>, m: Metric)
    ensures Counted(Gather(log, series, cover, m))
  {
    if log != [] {
      GatherCounted(log[..|log| - 1], series, cover, m);
    }
  }

  lemma {:induction false} GatherSplits<K>(log: seq<Sample<K>>, series: Series<K>, a: set<int>, b: set<int>, m: Metric)
    requires a !! b
    ensures Gather(log, series, a + b, m) == Join(Gather(log, series, a, m), Gather(log, series, b, m))
  {
    if log != [] {
      GatherSplits(log[..|log| - 1], series, a, b, m);
    }
  }

  lemma {:induction false} ExpectedSplits<K>(log: seq<Sample<K>>, series: Series<K>, a: set<int>, b: set<int>)
    requires a !! b
    ensures Expected(log, series, a + b) == Expected(log, series, a) + Expected(log, series, b)
  {
    if log != [] {
      ExpectedSplits(log[..|log| - 1], series, a, b);
    }
  }

  lemma {:induction false} NothingOutside<K>(log: seq<Sample<K>>, series: Series<K>, m: Metric)
    ensures Gather(log, series, {}, m) == Nothing && Expected(log, series, {}) == 0
  {
    if log != [] {
      NothingOutside(log[..|log| - 1], series, m);
    }
  }

  ghost function AllOf(covers: seq<set<int>>): set<int> {
    if covers == [] then {} else AllOf(covers[..|covers| - 1]) + covers[|covers| - 1]
  }

  lemma {:induction false} AllOfHas(covers: seq<set<int>>, x: int)
    ensures x in AllOf(covers) <==> exists i :: 0 <= i < |covers| && x in covers[i]
  {
    if covers != [] {
      AllOfHas(covers[..|covers| - 1], x);
    }
  }

  ghost predicate Disjoint(covers: seq<set<int>>) {
    forall i, j :: 0 <= i < j < |covers| ==> covers[i] !! covers[j]
  }

  ghost predicate RowsOf<K>(rows: seq<Row>, log: seq<Sample<K>>, series: Series<K>, covers: seq<set<int>>) {
    && |rows| == |covers|
    && forall i :: 0 <= i < |rows| ==> rows[i] == RowOf(log, series, covers[i])
  }

  ghost function SumsOf(p: Part): Sums {
    if p.Nothing? then Sums(0, 0.0, None) else Sums(p.count, p.sum, Some(p.peak))
  }

  lemma AddColumnJoins(a: Part, b: Part)
    requires Counted(a) && Counted(b)
    ensures AddColumn(SumsOf(a), ColumnFrom(b)) == SumsOf(Join(a, b))
  {
    if b.Part? {
      assert b.sum / b.count as real * b.count as real == b.sum;
    }
  }

  lemma LastIsApart(covers: seq<set<int>>)
    requires covers != [] && Disjoint(covers)
    ensures AllOf(covers[..|covers| - 1]) !! covers[|covers| - 1]
    ensures Disjoint(covers[..|covers| - 1])
  {
    var rest, last := covers[..|covers| - 1], covers[|covers| - 1];
    var all := AllOf(rest);
    forall x | x in all ensures x !in last {
      AllOfHas(rest, x);
    }
  }

  lemma {:induction false} SumColumnIsGather<K>(rows: seq<Row>, log: seq<Sample<K>>, series: Series<K>,
                                                covers: seq<set<int>>, m: Metric)
    requires RowsOf(rows, log, series, covers) && Disjoint(covers) && m in Columns(series)
    ensures SumColumn(rows, m) == SumsOf(Gather(log, series, AllOf(covers), m))
  {
    hide GpuColumns, GpmColumns, Disjoint;
    if rows == [] {
      NothingOutside(log, series, m);
    } else {
      var n := |rows| - 1;
      LastIsApart(covers);
      SumColumnIsGather(rows[..n], log, series, covers[..n], m);
      GatherSplits(log, series, AllOf(covers[..n]), covers[n], m);
      GatherCounted(log, series, AllOf(covers[..n]), m);
      GatherCounted(log, series, covers[n], m);
      AddColumnJoins(Gather(log, series, AllOf(covers[..n]), m), Gather(log, series, covers[n], m));
    }
  }

  lemma {:induction false} SumExpectedIsExpected<K>(rows: seq<Row>, log: seq<Sample<K>>, series: Series<K>,
                                                    covers: seq<set<int>>)
    requires RowsOf(rows, log, series, covers) && Disjoint(covers)
    ensures SumExpected(rows) == Expected(log, series, AllOf(covers))
  {
    if rows == [] {
      NothingOutside(log, series, Power);
    } else {
      var n := |rows| - 1;
      LastIsApart(covers);
      SumExpectedIsExpected(rows[..n], log, series, covers[..n]);
      ExpectedSplits(log, series, AllOf(covers[..n]), covers[n]);
    }
  }

  lemma ColumnIsDirect<K>(rows: seq<Row>, log: seq<Sample<K>>, series: Series<K>, covers: seq<set<int>>, m: Metric)
    requires RowsOf(rows, log, series, covers) && Disjoint(covers) && m in Columns(series)
    ensures Blend(SumColumn(rows, m)) == ColumnFrom(Gather(log, series, AllOf(covers), m))
  {
    SumColumnIsGather(rows, log, series, covers, m);
    GatherCounted(log, series, AllOf(covers), m);
  }

  /** A row computed from rows is the row of the samples behind them all: same counts,
      same averages, same maxima, and NULL exactly where there is no reading. */
  lemma AggregateIsDirect<K>(rows: seq<Row>, log: seq<Sample<K>>, series: Series<K>, covers: seq<set<int>>)
    requires RowsOf(rows, log, series, covers) && Disjoint(covers)
    ensures HaveColumns(rows, Columns(series))
    ensures Aggregate(rows, Columns(series)) == RowOf(log, series, AllOf(covers))
  {
    hide Blend, ColumnFrom, Gather, Columns, SumColumn, Expected, AllOf, Disjoint;
    assert HaveColumns(rows, Columns(series));
    var direct := RowOf(log, series, AllOf(covers));
    SumExpectedIsExpected(rows, log, series, covers);
    forall m | m in Columns(series)
      ensures Aggregate(rows, Columns(series)).columns[m] == direct.columns[m]
    {
      ColumnIsDirect(rows, log, series, covers, m);
    }
    assert Aggregate(rows, Columns(series)).columns == direct.columns;
  }

  // ----- adding one sample

  function SampleSlot<K>(s: Sample<K>): Slot<K> { Slot(BucketStart(s.at), s.series) }

  ghost function Slots<K>(log: seq<Sample<K>>): set<Slot<K>> {
    if log == [] then {} else Slots(log[..|log| - 1]) + {SampleSlot(log[|log| - 1])}
  }

  function Empty<K>(series: Series<K>): Tally { Tally(0, map m | m in Columns(series) :: Nothing) }

  function AddSample(t: Tally, readings: map<Metric, Reading>): Tally {
    Tally(t.expected + 1,
      map m | m in t.parts :: if m in readings then Join(t.parts[m], Single(readings[m])) else t.parts[m])
  }

  lemma TallyAppend<K>(log: seq<Sample<K>>, x: Sample<K>, cover: set<int>)
    requires BucketStart(x.at) in cover
    ensures TallyOf(log + [x], x.series, cover) == AddSample(TallyOf(log, x.series, cover), x.readings)
  {
    assert (log + [x])[..|log|] == log;
  }

  /** Later samples of other buckets change nothing. */
  lemma TallyFrozen<K>(log: seq<Sample<K>>, x: Sample<K>, series: Series<K>, cover: set<int>)
    requires !Falls(x, series, cover)
    ensures TallyOf(log + [x], series, cover) == TallyOf(log, series, cover)
  {
    assert (log + [x])[..|log|] == log;
  }

  lemma SlotsAppend<K>(log: seq<Sample<K>>, x: Sample<K>)
    ensures Slots(log + [x]) == Slots(log) + {SampleSlot(x)}
  {
    assert (log + [x])[..|log|] == log;
  }

  lemma {:induction false} NoSamples<K>(log: seq<Sample<K>>, slot: Slot<K>)
    requires slot !in Slots(log)
    ensures TallyOf(log, slot.series, {slot.start}) == Empty(slot.series)
  {
    if log != [] {
      NoSamples(log[..|log| - 1], slot);
      var t, u := TallyOf(log, slot.series, {slot.start}), TallyOf(log[..|log| - 1], slot.series, {slot.start});
      assert forall m | m in Columns(slot.series) :: t.parts[m] == u.parts[m];
      assert t.parts == u.parts;
    } else {
      assert TallyOf(log, slot.series, {slot.start}).parts == Empty(slot.series).parts;
    }
  }

  /** The sample count of a row tells exactly whether a sampled bucket is missing from it. */
  lemma {:induction false} MissingSamplesShow<K>(log: seq<Sample<K>>, series: Series<K>, part: set<int>,
      whole: set<int>)
    requires part <= whole
    ensures Expected(log, series, part) <= Expected(log, series, whole)
    ensures Expected(log, series, part) == Expected(log, series, whole)
      <==> forall b :: b in whole && Slot(b, series) in Slots(log) ==> b in part
  {
    if log != [] {
      var before := log[..|log| - 1];
      MissingSamplesShow(before, series, part, whole);
      var last := SampleSlot(log[|log| - 1]);
      assert Slots(log) == Slots(before) + {last};
      assert last.series == series && last.start in whole ==> Slot(last.start, series) in Slots(log);
    }
  }

  lemma {:induction false} SameTally<K>(log: seq<Sample<K>>, series: Series<K>, a: set<int>, b: set<int>, m: Metric)
    requires forall x :: Slot(x, series) in Slots(log) ==> (x in a <==> x in b)
    ensures Gather(log, series, a, m) == Gather(log, series, b, m)
    ensures Expected(log, series, a) == Expected(log, series, b)
  {
    if log != [] {
      var last := SampleSlot(log[|log| - 1]);
      assert last.series == series ==> Slot(last.start, series) in Slots(log);
      SameTally(log[..|log| - 1], series, a, b, m);
    }
  }

  lemma SameRow<K>(log: seq<Sample<K>>, series: Series<K>, a: set<int>, b: set<int>)
    requires forall x :: Slot(x, series) in Slots(log) ==> (x in a <==> x in b)
    ensures RowOf(log, series, a) == RowOf(log, series, b)
  {
    SameTally(log, series, a, b, Power);
    forall m | m in Columns(series) ensures Gather(log, series, a, m) == Gather(log, series, b, m) {
      SameTally(log, series, a, b, m);
    }
    assert TallyOf(log, series, a).parts == TallyOf(log, series, b).parts;
  }

  /** A row over part of a window is the window's row exactly when no sampled bucket is missing. */
  lemma WholeRow<K>(log: seq<Sample<K>>, series: Series<K>, part: set<int>, whole: set<int>)
    requires part <= whole
    ensures RowOf(log, series, part) == RowOf(log, series, whole)
      <==> forall b :: b in whole && Slot(b, series) in Slots(log) ==> b in part
  {
    MissingSamplesShow(log, series, part, whole);
    if forall b :: b in whole && Slot(b, series) in Slots(log) ==> b in part {
      SameRow(log, series, part, whole);
    }
  }

  // ----- windows and tables

  datatype Slot<K> = Slot(start: int, series: Series<K>)
  type Table<K(==)> = map<Slot<K>, Row>
  type Cover<K(==)> = map<Slot<K>, set<int>>

  /** CAST(start / width AS INTEGER) * width: SQL's cast truncates toward zero. */
  function Target(start: int, width: int): int
    requires width > 0
  {
    if start >= 0 then start / width * width else -(-start / width * width)
  }

  lemma Scaled(a: int, b: int, d: int)
    requires d > 0 && a <= b
    ensures a * d <= b * d
  {
    assert (b - a) * d >= 0;
  }

  lemma Below(a: int, b: int, d: int)
    requires d > 0 && a * d < b * d
    ensures a < b
  {
    if b <= a {
      Scaled(b, a, d);
    }
  }

  lemma QuotientOf(y: int, d: int, q: int)
    requires d > 0 && q * d <= y < (q + 1) * d
    ensures y / d == q
  {
    var p := y / d;
    assert p * d <= y < (p + 1) * d;
    Below(q, p + 1, d);
    Below(p, q + 1, d);
  }

  lemma NestedFloor(x: nat, width: int, wider: int, k: int)
    requires width > 0 && k > 0 && wider == k * width
    ensures x / width * width / wider == x / wider
  {
    var q, p := x / wider, x / width;
    assert q * wider == (q * k) * width;
    assert p * width <= x < (p + 1) * width;
    Below(q * k, p + 1, width);
    Scaled(q * k, p, width);
    QuotientOf(p * width, wider, q);
  }

  function Floor(x: int, width: int): int
    requires width > 0
  {
    x / width * width
  }

  lemma TargetMirrors(x: int, width: int)
    requires width > 0 && x >= 0
    ensures Target(x, width) == Floor(x, width)
    ensures Target(-x, width) == -Floor(x, width)
    ensures Floor(x, width) >= 0
  {
  }

  /** Rolling up through an intermediate width leads to the same target. */
  lemma TargetNested(start: int, width: int, wider: int, k: int)
    requires width > 0 && k > 0 && wider == k * width && wider > 0
    ensures Target(Target(start, width), wider) == Target(start, wider)
  {
    var x := if start >= 0 then start else -start;
    var y := Floor(x, width);
    assert Floor(y, wider) == Floor(x, wider) by {
      NestedFloor(x, width, wider, k);
    }
    TargetMirrors(x, width);
    TargetMirrors(y, wider);
    TargetMirrors(x, wider);
    hide Target, Floor;
  }

  /** A window holds less than `width` of time on either side of its start. */
  lemma TargetBounds(start: int, width: int)
    requires width > 0
    ensures -width < start - Target(start, width) < width
    ensures start >= 0 ==> Target(start, width) <= start
    ensures start < 0 ==> Target(start, width) >= start
  {
  }
}
