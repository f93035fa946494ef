/** The 20 s buckets kept in memory: db.py, RollupBucket; performance_rollup.py,
    NvidiaGpmRollupBucket. */
module RollupBuckets {
  import opened Rollup
  import opened Telemetry
  import opened Wrappers

  /** The fields of a GPU sample that are rolled up; memory and temperature are integers. */
  datatype GpuReading = GpuReading(utilization: real, memory: int, power: real, temperature: int)

  /** RollupBucket's maxima start at zero, so a reading counts as at least zero there. */
  function FromZero(value: real): Reading { Reading(value, Larger(0.0, value)) }

  function GpuReadings(g: GpuReading): (readings: map<Metric, Reading>)
    ensures readings.Keys == GpuColumns()
  {
    map[Utilization := FromZero(g.utilization), MemoryUsed := FromZero(g.memory as real),
        Power := FromZero(g.power), Temperature := FromZero(g.temperature as real)]
  }

  function GpuPart(count: nat, sum: real, max: real): Part {
    if count == 0 then Nothing else Part(count, sum, max)
  }

  /** Started at zero, a running maximum is the maximum of the readings counted from zero. */
  lemma GpuPartAdds(count: nat, sum: real, max: real, value: real)
    requires max >= 0.0 && (count == 0 ==> sum == 0.0 && max == 0.0)
    ensures GpuPart(count + 1, sum + value, Larger(max, value))
      == Join(GpuPart(count, sum, max), Single(FromZero(value)))
  {
  }

  function GpuTally(count: nat, utilization: Part, memory: Part, power: Part, temperature: Part): Tally {
    Tally(count, map[Utilization := utilization, MemoryUsed := memory, Power := power, Temperature := temperature])
  }

  lemma GpuTallyAdds(count: nat, u: Part, m: Part, p: Part, t: Part, g: GpuReading)
    ensures AddSample(GpuTally(count, u, m, p, t), GpuReadings(g))
      == GpuTally(count + 1, Join(u, Single(FromZero(g.utilization))), Join(m, Single(FromZero(g.memory as real))),
                  Join(p, Single(FromZero(g.power))), Join(t, Single(FromZero(g.temperature as real))))
  {
    hide Join, FromZero, Single;
    var added := AddSample(GpuTally(count, u, m, p, t), GpuReadings(g));
    assert added.parts == map[
      Utilization := Join(u, Single(FromZero(g.utilization))),
      MemoryUsed := Join(m, Single(FromZero(g.memory as real))),
      Power := Join(p, Single(FromZero(g.power))), Temperature := Join(t, Single(FromZero(g.temperature as real)))];
  }

  class RollupBucket<K> {
    const slot: Slot<K>
    var sumUtilization: real
    var maxUtilization: real
    var sumMemory: real
    var maxMemory: int
    var sumPower: real
    var maxPower: real
    var sumTemperature: real
    var maxTemperature: int
    var sampleCount: nat

    ghost predicate Valid() reads this {
      && maxUtilization >= 0.0 && maxMemory >= 0 && maxPower >= 0.0 && maxTemperature >= 0
      && (sampleCount == 0 ==>
        && sumUtilization == sumMemory == sumPower == sumTemperature == 0.0
        && maxUtilization == maxPower == 0.0 && maxMemory == maxTemperature == 0)
    }

    ghost function Total(): Tally reads this {
      GpuTally(sampleCount, GpuPart(sampleCount, sumUtilization, maxUtilization),
               GpuPart(sampleCount, sumMemory, maxMemory as real),
               GpuPart(sampleCount, sumPower, maxPower),
               GpuPart(sampleCount, sumTemperature, maxTemperature as real))
    }

    constructor (slot: Slot<K>)
      ensures this.slot == slot && Valid() && Total() == GpuTally(0, Nothing, Nothing, Nothing, Nothing)
    {
      this.slot := slot;
      sumUtilization, sumMemory, sumPower, sumTemperature := 0.0, 0.0, 0.0, 0.0;
      maxUtilization, maxMemory, maxPower, maxTemperature := 0.0, 0, 0.0, 0;
      sampleCount := 0;
    }

    method AddGpu(g: GpuReading)
      requires Valid()
      modifies this
      ensures Valid() && sampleCount > 0
      ensures Total() == AddSample(old(Total()), GpuReadings(g))
    {
      hide GpuReadings, AddSample, GpuTally, Join, Single, FromZero, GpuPart;
      GpuPartAdds(sampleCount, sumUtilization, maxUtilization, g.utilization);
      GpuPartAdds(sampleCount, sumMemory, maxMemory as real, g.memory as real);
      GpuPartAdds(sampleCount, sumPower, maxPower, g.power);
      GpuPartAdds(sampleCount, sumTemperature, maxTemperature as real, g.temperature as real);
      GpuTallyAdds(sampleCount, GpuPart(sampleCount, sumUtilization, maxUtilization),
                   GpuPart(sampleCount, sumMemory, maxMemory as real), GpuPart(sampleCount, sumPower, maxPower),
                   GpuPart(sampleCount, sumTemperature, maxTemperature as real), g);
      sampleCount := sampleCount + 1;
      sumUtilization := sumUtilization + g.utilization;
      maxUtilization := Larger(maxUtilization, g.utilization);
      sumMemory := sumMemory + g.memory as real;
      maxMemory := if maxMemory < g.memory then g.memory else maxMemory;
      sumPower := sumPower + g.power;
      maxPower := Larger(maxPower, g.power);
      sumTemperature := sumTemperature + g.temperature as real;
      maxTemperature := if maxTemperature < g.temperature then g.temperature else maxTemperature;
    }

    /** Averages divide by the count, or by one in a bucket that saw no sample. */
    method ToRow() returns (row: Row)
      requires Valid()
      ensures sampleCount > 0 ==> row == RowFrom(Total())
      ensures sampleCount == 0 ==> row == Row(0, map m | m in GpuColumns() :: Column(0, Some(0.0), Some(0.0)))
    {
      var n := if sampleCount > 1 then sampleCount as real else 1.0;
      row := Row(sampleCount, map[
        Utilization := Column(sampleCount, Some(sumUtilization / n), Some(maxUtilization)),
        MemoryUsed := Column(sampleCount, Some(sumMemory / n), Some(maxMemory as real)),
        Power := Column(sampleCount, Some(sumPower / n), Some(maxPower)),
        Temperature := Column(sampleCount, Some(sumTemperature / n), Some(maxTemperature as real))]);
      assert sampleCount > 0 ==> row.columns == RowFrom(Total()).columns;
    }
  }

  // ----- the maximum of a column

  ghost predicate ReadFromZero<K>(log: seq<Sample<K>>, m: Metric) {
    forall i :: 0 <= i < |log| && m in log[i].readings ==>
      log[i].readings[m].peak == Larger(0.0, log[i].readings[m].value)
  }

  /** What the column was read as, over the covered samples. */
  ghost function Values<K>(log: seq<Sample<K>>, series: Series<K>, cover: set<int>, m: Metric): seq<real> {
    if log == [] then []
    else
      var before, last := Values(log[..|log| - 1], series, cover, m), log[|log| - 1];
      if Falls(last, series, cover) && m in last.readings then before + [last.readings[m].value] else before
  }

  ghost predicate IsMaximum(values: seq<real>, top: real) {
    && (exists i :: 0 <= i < |values| && values[i] == top)
    && (forall i :: 0 <= i < |values| ==> values[i] <= top)
  }

  ghost predicate IsPeak(values: seq<real>, p: Part) {
    && (p.Nothing? <==> values == [])
    && (p.Part? ==> p.peak >= 0.0 && (forall i :: 0 <= i < |values| ==> values[i] <= p.peak))
    && (p.Part? && p.peak > 0.0 ==> exists i :: 0 <= i < |values| && values[i] == p.peak)
  }

  lemma PeakExtends(values: seq<real>, p: Part, value: real)
    requires IsPeak(values, p)
    ensures IsPeak(values + [value], Join(p, Single(FromZero(value))))
  {
    var longer := values + [value];
    assert longer[|values|] == value;
    if p.Part? && p.peak > 0.0 {
      var i :| 0 <= i < |values| && values[i] == p.peak;
      assert longer[i] == p.peak;
    }
  }

  lemma {:induction false} PeakOfValues<K>(log: seq<Sample<K>>, series: Series<K>, cover: set<int>, m: Metric)
    requires ReadFromZero(log, m)
    ensures IsPeak(Values(log, series, cover, m), Gather(log, series, cover, m))
  {
    if log != [] {
      var before, last := log[..|log| - 1], log[|log| - 1];
      PeakOfValues(before, series, cover, m);
      if Falls(last, series, cover) && m in last.readings {
        PeakExtends(Values(before, series, cover, m), Gather(before, series, cover, m), last.readings[m].value);
      }
    }
  }

  /** A GPU column's stored maximum is the largest reading exactly when some reading is not
      negative; otherwise it is zero, above every reading. */
  lemma MaximumExact<K>(log: seq<Sample<K>>, series: Series<K>, cover: set<int>, m: Metric)
    requires ReadFromZero(log, m) && Gather(log, series, cover, m).Part?
    ensures IsMaximum(Values(log, series, cover, m), Gather(log, series, cover, m).peak)
      <==> exists i :: 0 <= i < |Values(log, series, cover, m)| && Values(log, series, cover, m)[i] >= 0.0
  {
    hide Gather, Values;
    PeakOfValues(log, series, cover, m);
  }

  ghost predicate ReadAsIs<K>(log: seq<Sample<K>>, m: Metric) {
    forall i :: 0 <= i < |log| && m in log[i].readings ==> log[i].readings[m].peak == log[i].readings[m].value
  }

  /** A GPM column's stored maximum is always the largest reading. */
  lemma {:induction false} MaximumAsIs<K>(log: seq<Sample<K>>, series: Series<K>, cover: set<int>, m: Metric)
    requires ReadAsIs(log, m)
    ensures var values, p := Values(log, series, cover, m), Gather(log, series, cover, m);
      && (p.Nothing? <==> values == [])
      && (p.Part? ==> IsMaximum(values, p.peak))
  {
    if log != [] {
      var before, last := log[..|log| - 1], log[|log| - 1];
      MaximumAsIs(before, series, cover, m);
      if Falls(last, series, cover) && m in last.readings {
        MaximumExtends(Values(before, series, cover, m), Gather(before, series, cover, m), last.readings[m]);
      }
    }
  }

  lemma MaximumExtends(values: seq<real>, p: Part, r: Reading)
    requires r.peak == r.value && (p.Nothing? <==> values == []) && (p.Part? ==> IsMaximum(values, p.peak))
    ensures IsMaximum(values + [r.value], Join(p, Single(r)).peak)
  {
    var longer := values + [r.value];
    assert longer[|values|] == r.value;
    if p.Part? {
      var i :| 0 <= i < |values| && values[i] == p.peak;
      assert longer[i] == p.peak;
    }
  }

  // ----- NvidiaGpmRollupBucket

  datatype Status = Warming | Available | Unsupported | Failed

  /** A metric name: one that has columns, or any other. */
  datatype Name = Known(column: Metric) | Other(text: string)

  /** A metric value; anything that is not a finite number is `Invalid`. */
  datatype Value = Number(value: real) | Invalid

  datatype Performance = Performance(gpmProfile: bool, status: Status, metrics: seq<(Name, Value)>)

  predicate Accepts(m: Metric, v: Value) {
    v.Number? && InRange(v.value, m in {PcieTx, PcieRx, NvlinkTx, NvlinkRx})
  }

  predicate Kept(item: (Name, Value)) {
    item.0.Known? && item.0.column in GpmColumns() && Accepts(item.0.column, item.1)
  }

  lemma KeptIsNumber(item: (Name, Value))
    requires Kept(item)
    ensures item.1.Number?
  {
  }

  function AcceptedReadings(items: seq<(Name, Value)>): map<Metric, Reading> {
    if items == [] then map[]
    else
      var before, last := AcceptedReadings(items[..|items| - 1]), items[|items| - 1];
      if Kept(last) then before[last.0.column := Reading(last.1.value, last.1.value)] else before
  }

  /** A dictionary's items have distinct names. */
  ghost predicate Distinct(items: seq<(Name, Value)>) {
    forall i, j :: 0 <= i < j < |items| ==> items[i].0 != items[j].0
  }

  lemma {:induction false} AcceptedOnce(items: seq<(Name, Value)>, m: Metric)
    ensures m in AcceptedReadings(items) ==> exists i :: 0 <= i < |items| && items[i].0 == Known(m)
  {
    if items != [] {
      AcceptedOnce(items[..|items| - 1], m);
    }
  }

  /** Samples of another profile, or of a GPU without GPM, are not even expected. */
  predicate IsExpected(p: Performance) { p.gpmProfile && !p.status.Unsupported? }

  function GpmReadings(p: Performance): map<Metric, Reading> {
    if p.status.Available? then AcceptedReadings(p.metrics) else map[]
  }

  /** The part a metric has in the three dictionaries. */
  function PartIn(sums: map<Metric, real>, maxima: map<Metric, real>, counts: map<Metric, nat>, m: Metric): Part {
    if m in counts && m in sums && m in maxima then Part(counts[m], sums[m], maxima[m]) else Nothing
  }

  ghost predicate SameKeys(sums: map<Metric, real>, maxima: map<Metric, real>, counts: map<Metric, nat>) {
    && sums.Keys == maxima.Keys == counts.Keys
    && forall m :: m in counts ==> counts[m] > 0
  }

  function GpmTally(expected: nat, sums: map<Metric, real>, maxima: map<Metric, real>,
      counts: map<Metric, nat>): Tally
  {
    Tally(expected, map m | m in GpmColumns() :: PartIn(sums, maxima, counts, m))
  }

  lemma PartAdds(sums: map<Metric, real>, maxima: map<Metric, real>, counts: map<Metric, nat>, m: Metric,
      value: real, k: Metric)
    requires SameKeys(sums, maxima, counts)
    ensures
      var sum := (if m in sums then sums[m] else 0.0) + value;
      var top := Larger(if m in maxima then maxima[m] else value, value);
      var count := (if m in counts then counts[m] else 0) + 1;
      && SameKeys(sums[m := sum], maxima[m := top], counts[m := count])
      && PartIn(sums[m := sum], maxima[m := top], counts[m := count], k)
        == (if k == m then Join(PartIn(sums, maxima, counts, m), Single(Reading(value, value)))
            else PartIn(sums, maxima, counts, k))
  {
  }

  function Joined(p: Part, readings: map<Metric, Reading>, m: Metric): Part {
    if m in readings then Join(p, Single(readings[m])) else p
  }

  /** The dictionaries hold the parts `was` with `readings` added. */
  ghost predicate Grown(was: map<Metric, Part>, sums: map<Metric, real>, maxima: map<Metric, real>,
                        counts: map<Metric, nat>, readings: map<Metric, Reading>)
    requires was.Keys == GpmColumns()
  {
    && SameKeys(sums, maxima, counts)
    && forall m :: m in was ==> PartIn(sums, maxima, counts, m) == Joined(was[m], readings, m)
  }

  lemma GrowsByOne(was: map<Metric, Part>, sums: map<Metric, real>, maxima: map<Metric, real>,
                   counts: map<Metric, nat>, readings: map<Metric, Reading>, m: Metric, value: real)
    requires was.Keys == GpmColumns() && Grown(was, sums, maxima, counts, readings) && m !in readings
    requires m in GpmColumns()
    ensures
      var sum := (if m in sums then sums[m] else 0.0) + value;
      var top := Larger(if m in maxima then maxima[m] else value, value);
      var count := (if m in counts then counts[m] else 0) + 1;
      Grown(was, sums[m := sum], maxima[m := top], counts[m := count], readings[m := Reading(value, value)])
  {
    hide PartIn, Join, GpmColumns;
    PartAdds(sums, maxima, counts, m, value, m);
    var sum := (if m in sums then sums[m] else 0.0) + value;
    var top := Larger(if m in maxima then maxima[m] else value, value);
    var count := (if m in counts then counts[m] else 0) + 1;
    forall k | k in was
      ensures PartIn(sums[m := sum], maxima[m := top], counts[m := count], k)
        == Joined(was[k], readings[m := Reading(value, value)], k)
    {
      PartAdds(sums, maxima, counts, m, value, k);
    }
  }

  lemma GrownFromNothing(expected: nat, sums: map<Metric, real>, maxima: map<Metric, real>, counts: map<Metric, nat>)
    requires SameKeys(sums, maxima, counts)
    ensures Grown(GpmTally(expected, sums, maxima, counts).parts, sums, maxima, counts, AcceptedReadings([]))
  {
  }

  lemma GrownHasSameKeys(was: map<Metric, Part>, sums: map<Metric, real>, maxima: map<Metric, real>,
                         counts: map<Metric, nat>, readings: map<Metric, Reading>)
    requires was.Keys == GpmColumns() && Grown(was, sums, maxima, counts, readings)
    ensures SameKeys(sums, maxima, counts)
  {
  }

  class NvidiaGpmRollupBucket<K> {
    const slot: Slot<K>
    var expectedCount: nat
    var sums: map<Metric, real>
    var maxima: map<Metric, real>
    var counts: map<Metric, nat>

    ghost predicate Valid() reads this {
      SameKeys(sums, maxima, counts)
    }

    ghost function Total(): Tally reads this {
      GpmTally(expectedCount, sums, maxima, counts)
    }

    constructor (slot: Slot<K>)
      ensures this.slot == slot && Valid() && Total() == Tally(0, map m | m in GpmColumns() :: Nothing)
    {
      this.slot := slot;
      expectedCount, sums, maxima, counts := 0, map[], map[], map[];
      new;
      assert Total().parts == map m | m in GpmColumns() :: Nothing;
    }

    /** The loop over an available sample's metrics. */
    method AddMetrics(items: seq<(Name, Value)>)
      requires Valid() && Distinct(items)
      modifies `sums, `maxima, `counts
      ensures Valid()
      ensures Grown(old(Total().parts), sums, maxima, counts, AcceptedReadings(items))
    {
      hide GpmColumns, PartIn, Grown, SameKeys, Accepts;
      ghost var was := Total().parts;
      GrownFromNothing(expectedCount, sums, maxima, counts);
      var i := 0;
      while i < |items|
        invariant 0 <= i <= |items|
        invariant Grown(was, sums, maxima, counts, AcceptedReadings(items[..i]))
      {
        assert items[..i + 1][..i] == items[..i];
        if Kept(items[i]) {
          KeptIsNumber(items[i]);
          var m, value := items[i].0.column, items[i].1.value;
          AcceptedOnce(items[..i], m);
          GrowsByOne(was, sums, maxima, counts, AcceptedReadings(items[..i]), m, value);
          sums := sums[m := (if m in sums then sums[m] else 0.0) + value];
          maxima := maxima[m := Larger(if m in maxima then maxima[m] else value, value)];
          counts := counts[m := (if m in counts then counts[m] else 0) + 1];
        }
        i := i + 1;
      }
      assert items[..i] == items;
      GrownHasSameKeys(was, sums, maxima, counts, AcceptedReadings(items));
    }

    method Add(p: Performance)
      requires Valid() && Distinct(p.metrics)
      modifies this
      ensures Valid()
      ensures Total() == if IsExpected(p) then AddSample(old(Total()), GpmReadings(p)) else old(Total())
      ensures Total().expected
        == old(Total().expected) + if p.gpmProfile && p.status in {Warming, Available, Failed} then 1 else 0
      ensures !p.gpmProfile || p.status != Available ==> Total().parts == old(Total().parts)
    {
      hide GpmColumns, PartIn, Join, AcceptedReadings;
      ghost var was := Total().parts;
      if IsExpected(p) {
        expectedCount := expectedCount + 1;
        if p.status.Available? {
          AddMetrics(p.metrics);
        }
        assert Grown(was, sums, maxima, counts, GpmReadings(p));
        assert Total().parts == AddSample(old(Total()), GpmReadings(p)).parts;
      }
    }

    /** A column without readings is NULL, not zero. */
    method ToRow() returns (row: Row)
      requires Valid()
      ensures row == RowFrom(Total())
    {
      hide GpmColumns;
      var columns := map m | m in GpmColumns() ::
        if m in counts then Column(counts[m], Some(sums[m] / counts[m] as real), Some(maxima[m]))
        else Column(0, None, None);
      row := Row(expectedCount, columns);
      assert columns == RowFrom(Total()).columns;
    }
  }
}
