/** What node snapshots contribute to the rollups, and what the rows then say of the snapshots
    (db.py, _accumulate_snapshot; performance_rollup.py, NvidiaGpmRollupBucket.add). */
module RollupInput {
  import opened Rollup
  import opened RollupBuckets
  import opened Telemetry
  import opened Wrappers

  /** One GPU of a node snapshot; `id` stands for the node and the GPU. */
  datatype GpuSample<K> = GpuSample(id: K, basicValid: bool, reading: GpuReading, performance: Option<Performance>)

  function GpuContribution<K>(at: int, g: GpuSample<K>): seq<Sample<K>> {
    if g.basicValid then [Sample(at, Gpu(g.id), GpuReadings(g.reading))] else []
  }

  function GpmContribution<K>(at: int, g: GpuSample<K>, gpm: bool): seq<Sample<K>> {
    if gpm && g.performance.Some? && IsExpected(g.performance.value)
    then [Sample(at, Gpm(g.id), GpmReadings(g.performance.value))] else []
  }

  /** The samples a snapshot adds to the log. */
  function Contributions<K>(at: int, gpus: seq<GpuSample<K>>, gpm: bool): seq<Sample<K>> {
    if gpus == [] then []
    else
      var g := gpus[|gpus| - 1];
      Contributions(at, gpus[..|gpus| - 1], gpm) + GpuContribution(at, g) + GpmContribution(at, g, gpm)
  }

  /** A sample's metrics are a dictionary. */
  ghost predicate Dictionaries<K>(g: GpuSample<K>) {
    g.performance.Some? ==> Distinct(g.performance.value.metrics)
  }

  // ----- snapshots, without going through samples

  datatype Snapshot<K> = Snapshot(at: int, gpus: seq<GpuSample<K>>)

  /** What can be asked of one GPU of a snapshot, as a number. */
  datatype Question<K> =
    | Valid(id: K)
    | Field(id: K, metric: Metric)
    | Asked(id: K)
    | Reports(id: K, metric: Metric)
    | Reported(id: K, metric: Metric)

  /** A field of the basic metrics. */
  function FieldOf(r: GpuReading, m: Metric): real {
    match m
    case Utilization => r.utilization
    case MemoryUsed => r.memory as real
    case Power => r.power
    case Temperature => r.temperature as real
    case _ => 0.0
  }

  /** A GPM performance is asked for its metrics, whether or not it has any. */
  predicate IsAsked(p: Performance) {
    p.gpmProfile && (p.status == Warming || p.status == Available || p.status == Failed)
  }

  /** A rate may be any float32, everything else is a percentage. */
  predicate Accepted(m: Metric, value: real) {
    match m
    case PcieTx | PcieRx | NvlinkTx | NvlinkRx => 0.0 <= value <= FLOAT32_MAX
    case Utilization | MemoryUsed | Power | Temperature => false
    case _ => 0.0 <= value <= 100.0
  }

  ghost predicate HasReading(p: Performance, m: Metric, value: real) {
    p.gpmProfile && p.status == Available && (Known(m), Number(value)) in p.metrics && Accepted(m, value)
  }

  ghost function Answer<K>(q: Question<K>, g: GpuSample<K>): real {
    if q.id != g.id then 0.0
    else
      match q
      case Valid(_) => if g.basicValid then 1.0 else 0.0
      case Field(_, m) => if g.basicValid then FieldOf(g.reading, m) else 0.0
      case Asked(_) => if g.performance.Some? && IsAsked(g.performance.value) then 1.0 else 0.0
      case Reports(_, m) =>
        if g.performance.Some? && exists v :: HasReading(g.performance.value, m, v) then 1.0 else 0.0
      case Reported(_, m) =>
        if g.performance.Some? && exists v :: HasReading(g.performance.value, m, v) then
          var v :| HasReading(g.performance.value, m, v); v
        else 0.0
  }

  ghost function AnswerAll<K>(q: Question<K>, gpus: seq<GpuSample<K>>): real {
    if gpus == [] then 0.0 else AnswerAll(q, gpus[..|gpus| - 1]) + Answer(q, gpus[|gpus| - 1])
  }

  /** The answers summed over the snapshots of the 20 s buckets in `cover`. */
  ghost function Total<K>(q: Question<K>, snapshots: seq<Snapshot<K>>, cover: set<int>): real {
    if snapshots == [] then 0.0
    else
      var last := snapshots[|snapshots| - 1];
      Total(q, snapshots[..|snapshots| - 1], cover)
      + if BucketStart(last.at) in cover then AnswerAll(q, last.gpus) else 0.0
  }

  /** The samples of a run of snapshots. */
  function LogOf<K>(snapshots: seq<Snapshot<K>>, gpm: bool): seq<Sample<K>> {
    if snapshots == [] then []
    else
      var last := snapshots[|snapshots| - 1];
      LogOf(snapshots[..|snapshots| - 1], gpm) + Contributions(last.at, last.gpus, gpm)
  }

  // ----- one performance

  lemma {:induction false} AcceptedMeans(items: seq<(Name, Value)>, m: Metric)
    requires Distinct(items)
    ensures m in AcceptedReadings(items) <==> exists v :: (Known(m), Number(v)) in items && Accepted(m, v)
    ensures forall v :: (Known(m), Number(v)) in items && Accepted(m, v) ==>
      m in AcceptedReadings(items) && AcceptedReadings(items)[m] == Reading(v, v)
  {
    hide Accepts, Accepted, GpmColumns;
    if items != [] {
      var n := |items| - 1;
      var last := items[n];
      AcceptedMeans(items[..n], m);
      assert items == items[..n] + [last];
      assert forall v :: (Known(m), Number(v)) in items[..n] && last.0 == Known(m) ==> false;
      if last.1.Number? {
        AcceptsIff(m, last.1.value);
      } else if Kept(last) {
        KeptIsNumber(last);
      }
    }
  }

  lemma AcceptsIff(m: Metric, v: real)
    ensures m in GpmColumns() && Accepts(m, Number(v)) <==> Accepted(m, v)
  {
  }

  lemma ReadingUnique(p: Performance, m: Metric, v: real, w: real)
    requires Distinct(p.metrics) && HasReading(p, m, v) && HasReading(p, m, w)
    ensures v == w
  {
    var i :| 0 <= i < |p.metrics| && p.metrics[i] == (Known(m), Number(v));
    var j :| 0 <= j < |p.metrics| && p.metrics[j] == (Known(m), Number(w));
  }

  // ----- from snapshots to rows

  ghost function CountOf(p: Part): real { if p.Nothing? then 0.0 else p.count as real }

  ghost function SumOf(p: Part): real { if p.Nothing? then 0.0 else p.sum }

  lemma JoinAdds(p: Part, r: Reading)
    ensures CountOf(Join(p, Single(r))) == CountOf(p) + 1.0 && SumOf(Join(p, Single(r))) == SumOf(p) + r.value
  {
  }

  lemma GatherAppend<K>(log: seq<Sample<K>>, x: Sample<K>, series: Series<K>, cover: set<int>, m: Metric)
    ensures Expected(log + [x], series, cover)
      == Expected(log, series, cover) + if Falls(x, series, cover) then 1 else 0
    ensures Gather(log + [x], series, cover, m)
      == if Falls(x, series, cover) && m in x.readings then Join(Gather(log, series, cover, m), Single(x.readings[m]))
         else Gather(log, series, cover, m)
  {
    assert (log + [x])[..|log|] == log;
  }

  /** What the log says of a series, column by column. */
  ghost predicate Says<K>(log: seq<Sample<K>>, series: Series<K>, cover: set<int>, m: Metric,
      expected: real, count: real, sum: real)
  {
    && Expected(log, series, cover) as real == expected
    && CountOf(Gather(log, series, cover, m)) == count && SumOf(Gather(log, series, cover, m)) == sum
  }

  ghost function Weigh(within: bool, x: real): real { if within then x else 0.0 }

  lemma GpuAdds<K>(log: seq<Sample<K>>, at: int, g: GpuSample<K>, id: K, cover: set<int>, m: Metric,
      expected: real, count: real, sum: real)
    requires m in GpuColumns() && Says(log, Gpu(id), cover, m, expected, count, sum)
    ensures var within := BucketStart(at) in cover;
      Says(log + GpuContribution(at, g), Gpu(id), cover, m, expected + Weigh(within, Answer(Valid(id), g)),
           count + Weigh(within, Answer(Valid(id), g)), sum + Weigh(within, Answer(Field(id, m), g)))
  {
    hide BucketStart, Gather, Expected, Join;
    if g.basicValid {
      var x := Sample(at, Gpu(g.id), GpuReadings(g.reading));
      GatherAppend(log, x, Gpu(id), cover, m);
      JoinAdds(Gather(log, Gpu(id), cover, m), x.readings[m]);
    } else {
      assert log + GpuContribution(at, g) == log;
    }
  }

  lemma GpmAdds<K>(log: seq<Sample<K>>, at: int, g: GpuSample<K>, id: K, cover: set<int>, m: Metric,
      expected: real, count: real, sum: real)
    requires Says(log, Gpm(id), cover, m, expected, count, sum) && Dictionaries(g)
    ensures var within := BucketStart(at) in cover;
      Says(log + GpmContribution(at, g, true), Gpm(id), cover, m, expected + Weigh(within, Answer(Asked(id), g)),
           count + Weigh(within, Answer(Reports(id, m), g)), sum + Weigh(within, Answer(Reported(id, m), g)))
  {
    hide BucketStart, Gather, Expected, Join, AcceptedReadings, Distinct, Accepted;
    if g.performance.Some? && IsExpected(g.performance.value) {
      var p := g.performance.value;
      var x := Sample(at, Gpm(g.id), GpmReadings(p));
      GatherAppend(log, x, Gpm(id), cover, m);
      AcceptedMeans(p.metrics, m);
      if m in x.readings {
        var v :| (Known(m), Number(v)) in p.metrics && Accepted(m, v);
        assert HasReading(p, m, v);
        JoinAdds(Gather(log, Gpm(id), cover, m), x.readings[m]);
      }
    } else {
      assert log + GpmContribution(at, g, true) == log;
    }
  }

  /** Samples of the other table are not heard. */
  lemma OtherTable<K>(log: seq<Sample<K>>, at: int, g: GpuSample<K>, gpm: bool, id: K, cover: set<int>, m: Metric,
      expected: real, count: real, sum: real)
    ensures Says(log + GpmContribution(at, g, gpm), Gpu(id), cover, m, expected, count, sum)
      == Says(log, Gpu(id), cover, m, expected, count, sum)
    ensures Says(log + GpuContribution(at, g), Gpm(id), cover, m, expected, count, sum)
      == Says(log, Gpm(id), cover, m, expected, count, sum)
  {
    hide BucketStart, Gather, Expected;
    if gpm && g.performance.Some? && IsExpected(g.performance.value) {
      GatherAppend(log, Sample(at, Gpm(g.id), GpmReadings(g.performance.value)), Gpu(id), cover, m);
    } else {
      assert log + GpmContribution(at, g, gpm) == log;
    }
    if g.basicValid {
      GatherAppend(log, Sample(at, Gpu(g.id), GpuReadings(g.reading)), Gpm(id), cover, m);
    } else {
      assert log + GpuContribution(at, g) == log;
    }
  }

  lemma {:induction false} GpuSnapshot<K>(log: seq<Sample<K>>, at: int, gpus: seq<GpuSample<K>>, gpm: bool, id: K,
      cover: set<int>, m: Metric, expected: real, count: real, sum: real)
    requires m in GpuColumns() && Says(log, Gpu(id), cover, m, expected, count, sum)
    ensures var within := BucketStart(at) in cover;
      Says(log + Contributions(at, gpus, gpm), Gpu(id), cover, m,
           expected + Weigh(within, AnswerAll(Valid(id), gpus)), count + Weigh(within, AnswerAll(Valid(id), gpus)),
           sum + Weigh(within, AnswerAll(Field(id, m), gpus)))
  {
    hide Says, Answer, GpuContribution, GpmContribution, GpuColumns, BucketStart;
    if gpus == [] {
      assert log + Contributions(at, gpus, gpm) == log;
    } else {
      var n, within := |gpus| - 1, BucketStart(at) in cover;
      var rest, g := gpus[..n], gpus[n];
      GpuSnapshot(log, at, rest, gpm, id, cover, m, expected, count, sum);
      var before := log + Contributions(at, rest, gpm);
      var e := expected + Weigh(within, AnswerAll(Valid(id), rest));
      var c := count + Weigh(within, AnswerAll(Valid(id), rest));
      var s := sum + Weigh(within, AnswerAll(Field(id, m), rest));
      GpuAdds(before, at, g, id, cover, m, e, c, s);
      OtherTable(before + GpuContribution(at, g), at, g, gpm, id, cover, m,
                 e + Weigh(within, Answer(Valid(id), g)), c + Weigh(within, Answer(Valid(id), g)),
                 s + Weigh(within, Answer(Field(id, m), g)));
      assert before + GpuContribution(at, g) + GpmContribution(at, g, gpm) == log + Contributions(at, gpus, gpm);
    }
  }

  lemma {:induction false} GpmSnapshot<K>(log: seq<Sample<K>>, at: int, gpus: seq<GpuSample<K>>, id: K,
      cover: set<int>, m: Metric, expected: real, count: real, sum: real)
    requires Says(log, Gpm(id), cover, m, expected, count, sum) && forall g :: g in gpus ==> Dictionaries(g)
    ensures var within := BucketStart(at) in cover;
      Says(log + Contributions(at, gpus, true), Gpm(id), cover, m,
           expected + Weigh(within, AnswerAll(Asked(id), gpus)), count + Weigh(within, AnswerAll(Reports(id, m), gpus)),
           sum + Weigh(within, AnswerAll(Reported(id, m), gpus)))
  {
    hide Says, Answer, GpuContribution, GpmContribution, BucketStart, Dictionaries;
    if gpus == [] {
      assert log + Contributions(at, gpus, true) == log;
    } else {
      var n, within := |gpus| - 1, BucketStart(at) in cover;
      var rest, g := gpus[..n], gpus[n];
      GpmSnapshot(log, at, rest, id, cover, m, expected, count, sum);
      var before := log + Contributions(at, rest, true);
      var e := expected + Weigh(within, AnswerAll(Asked(id), rest));
      var c := count + Weigh(within, AnswerAll(Reports(id, m), rest));
      var s := sum + Weigh(within, AnswerAll(Reported(id, m), rest));
      OtherTable(before, at, g, true, id, cover, m, e, c, s);
      GpmAdds(before + GpuContribution(at, g), at, g, id, cover, m, e, c, s);
      assert before + GpuContribution(at, g) + GpmContribution(at, g, true) == log + Contributions(at, gpus, true);
    }
  }

  /** Over the snapshots of any 20 s buckets, the log of a GPU holds one sample for each valid sample, and
      its columns sum the fields. */
  lemma {:induction false} GpuLogMeans<K>(snapshots: seq<Snapshot<K>>, gpm: bool, id: K, cover: set<int>, m: Metric)
    requires m in GpuColumns()
    ensures Says(LogOf(snapshots, gpm), Gpu(id), cover, m, Total(Valid(id), snapshots, cover),
                 Total(Valid(id), snapshots, cover), Total(Field(id, m), snapshots, cover))
  {
    hide AnswerAll, Contributions, GpuColumns;
    if snapshots != [] {
      hide Says;
      var n := |snapshots| - 1;
      GpuLogMeans(snapshots[..n], gpm, id, cover, m);
      GpuSnapshot(LogOf(snapshots[..n], gpm), snapshots[n].at, snapshots[n].gpus, gpm, id, cover, m,
                  Total(Valid(id), snapshots[..n], cover), Total(Valid(id), snapshots[..n], cover),
                  Total(Field(id, m), snapshots[..n], cover));
    }
  }

  /** The log of its GPM series holds one sample for each performance asked for, and its columns the accepted
      readings of the available ones. */
  lemma {:induction false} GpmLogMeans<K>(snapshots: seq<Snapshot<K>>, id: K, cover: set<int>, m: Metric)
    requires forall i, g :: 0 <= i < |snapshots| && g in snapshots[i].gpus ==> Dictionaries(g)
    ensures Says(LogOf(snapshots, true), Gpm(id), cover, m, Total(Asked(id), snapshots, cover),
                 Total(Reports(id, m), snapshots, cover), Total(Reported(id, m), snapshots, cover))
  {
    hide AnswerAll, Contributions, Dictionaries;
    if snapshots != [] {
      hide Says;
      var n := |snapshots| - 1;
      GpmLogMeans(snapshots[..n], id, cover, m);
      GpmSnapshot(LogOf(snapshots[..n], true), snapshots[n].at, snapshots[n].gpus, id, cover, m,
                  Total(Asked(id), snapshots[..n], cover), Total(Reports(id, m), snapshots[..n], cover),
                  Total(Reported(id, m), snapshots[..n], cover));
    }
  }

  /** A GPM row counts the performances asked for, and averages the accepted readings of the available ones; a
      column without any is NULL. */
  lemma GpmRowMeans<K>(snapshots: seq<Snapshot<K>>, id: K, cover: set<int>, m: Metric)
    requires m in GpmColumns() && forall i, g :: 0 <= i < |snapshots| && g in snapshots[i].gpus ==> Dictionaries(g)
    ensures var row := RowOf(LogOf(snapshots, true), Gpm(id), cover);
      && row.expected as real == Total(Asked(id), snapshots, cover)
      && row.columns[m].count as real == Total(Reports(id, m), snapshots, cover)
      && (row.columns[m].avg.None? <==> Total(Reports(id, m), snapshots, cover) == 0.0)
      && (row.columns[m].avg.Some? ==>
        row.columns[m].avg.value * Total(Reports(id, m), snapshots, cover) == Total(Reported(id, m), snapshots, cover))
  {
    hide LogOf, Total, GpmColumns, Gather, Dictionaries, ColumnFrom, CountOf, SumOf;
    GpmLogMeans(snapshots, id, cover, m);
    GatherCounted(LogOf(snapshots, true), Gpm(id), cover, m);
    ColumnMeans(Gather(LogOf(snapshots, true), Gpm(id), cover, m));
  }

  lemma GpuRowMeans<K>(snapshots: seq<Snapshot<K>>, gpm: bool, id: K, cover: set<int>, m: Metric)
    requires m == Utilization || m == MemoryUsed || m == Power || m == Temperature
    ensures var row, valid := RowOf(LogOf(snapshots, gpm), Gpu(id), cover), Total(Valid(id), snapshots, cover);
      && row.expected as real == row.columns[m].count as real == valid
      && (row.columns[m].avg.None? <==> valid == 0.0)
      && (row.columns[m].avg.Some? ==> row.columns[m].avg.value * valid == Total(Field(id, m), snapshots, cover))
  {
    hide LogOf, Total, Gather, ColumnFrom, CountOf, SumOf;
    GpuLogMeans(snapshots, gpm, id, cover, m);
    GatherCounted(LogOf(snapshots, gpm), Gpu(id), cover, m);
    ColumnMeans(Gather(LogOf(snapshots, gpm), Gpu(id), cover, m));
  }

  lemma ColumnMeans(p: Part)
    requires Counted(p)
    ensures var c := ColumnFrom(p);
      && c.count as real == CountOf(p) && (c.avg.None? <==> CountOf(p) == 0.0)
      && (c.avg.Some? ==> c.avg.value * CountOf(p) == SumOf(p))
  {
    if p.Part? {
      var q := p.sum / p.count as real;
      assert q * p.count as real == p.sum;
    }
  }

  // ----- maxima

  lemma {:induction false} ReadingsOf<K>(at: int, gpus: seq<GpuSample<K>>, gpm: bool, m: Metric)
    ensures m in GpuColumns() ==> ReadFromZero(Contributions(at, gpus, gpm), m)
    ensures m in GpmColumns() ==> ReadAsIs(Contributions(at, gpus, gpm), m)
  {
    hide GpuContribution, GpmContribution, GpuColumns, GpmColumns, Larger;
    if gpus != [] {
      ReadingsOf(at, gpus[..|gpus| - 1], gpm, m);
      ReadingsOfOne(at, gpus[|gpus| - 1], gpm, m);
    }
  }

  lemma ReadingsOfOne<K>(at: int, g: GpuSample<K>, gpm: bool, m: Metric)
    ensures m in GpuColumns() ==>
      ReadFromZero(GpuContribution(at, g), m) && ReadFromZero(GpmContribution(at, g, gpm), m)
    ensures m in GpmColumns() ==> ReadAsIs(GpuContribution(at, g), m) && ReadAsIs(GpmContribution(at, g, gpm), m)
  {
    hide AcceptedReadings, IsExpected;
    if g.performance.Some? {
      AcceptedAsIs(g.performance.value.metrics);
    }
    ColumnsApart(m);
  }

  lemma ColumnsApart(m: Metric)
    ensures m in GpuColumns() ==> m !in GpmColumns()
  {
  }

  lemma {:induction false} AcceptedAsIs(items: seq<(Name, Value)>)
    ensures forall m :: m in AcceptedReadings(items) ==>
      m in GpmColumns() && AcceptedReadings(items)[m].peak == AcceptedReadings(items)[m].value
  {
    if items != [] {
      AcceptedAsIs(items[..|items| - 1]);
    }
  }

  lemma {:induction false} ReadingsOfLog<K>(snapshots: seq<Snapshot<K>>, gpm: bool, m: Metric)
    ensures m in GpuColumns() ==> ReadFromZero(LogOf(snapshots, gpm), m)
    ensures m in GpmColumns() ==> ReadAsIs(LogOf(snapshots, gpm), m)
  {
    hide Contributions, GpuColumns, GpmColumns;
    if snapshots != [] {
      var last := snapshots[|snapshots| - 1];
      ReadingsOfLog(snapshots[..|snapshots| - 1], gpm, m);
      ReadingsOf(last.at, last.gpus, gpm, m);
    }
  }

  /** A GPM column's maximum is the largest of its readings; a GPU column's is that too unless all are negative. */
  lemma RowMaxima<K>(snapshots: seq<Snapshot<K>>, gpm: bool, series: Series<K>, cover: set<int>, m: Metric)
    requires m in Columns(series)
    ensures var log := LogOf(snapshots, gpm);
      var top, values := RowOf(log, series, cover).columns[m].max, Values(log, series, cover, m);
      && (top.None? <==> values == [])
      && (top.Some? && series.Gpm? ==> IsMaximum(values, top.value))
      && (top.Some? && series.Gpu? ==>
        (IsMaximum(values, top.value) <==> exists i :: 0 <= i < |values| && values[i] >= 0.0))
  {
    hide LogOf, GpuColumns, GpmColumns, Gather, Values, IsMaximum;
    var log := LogOf(snapshots, gpm);
    ReadingsOfLog(snapshots, gpm, m);
    GatherCounted(log, series, cover, m);
    if series.Gpm? {
      MaximumAsIs(log, series, cover, m);
    } else {
      PeakOfValues(log, series, cover, m);
      if Gather(log, series, cover, m).Part? { MaximumExact(log, series, cover, m); }
    }
  }
}
