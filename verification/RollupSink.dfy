/** The database sink (db.py, AsyncDBSink): it updates its buckets, tables and clocks in place,
    and each update is a step of RollupPipeline. */
module RollupSink {
  import opened Rollup
  import opened RollupTables
  import opened RollupBuckets
  import opened RollupInput
  import opened RollupPipeline
  import opened RollupMeaning
  import opened RollupHistory
  import opened RollupRestart
  import opened RollupRuns
  import opened Wrappers

  function AccumulatedAll<K(==)>(st: State<K>, xs: seq<Sample<K>>): State<K> {
    if xs == [] then st else Accumulated(AccumulatedAll(st, xs[..|xs| - 1]), xs[|xs| - 1])
  }

  lemma {:induction false} AccumulatedAllKeeps<K>(st: State<K>, xs: seq<Sample<K>>)
    requires Held(st) && forall i :: 0 <= i < |xs| ==> OnTime(st, xs[i])
    ensures Held(AccumulatedAll(st, xs)) && AccumulatedAll(st, xs).log == st.log + xs
    ensures AccumulatedAll(st, xs).swept == st.swept
  {
    hide Held;
    if xs != [] {
      var n := |xs| - 1;
      AccumulatedAllKeeps(st, xs[..n]);
      var before := AccumulatedAll(st, xs[..n]);
      AccumulateHolds(before, xs[n]);
      assert st.log + xs == (st.log + xs[..n]) + [xs[n]];
    }
  }

  lemma {:induction false} AccumulatedLog<K>(st: State<K>, xs: seq<Sample<K>>)
    ensures AccumulatedAll(st, xs).log == st.log + xs
  {
    if xs != [] {
      var n := |xs| - 1;
      AccumulatedLog(st, xs[..n]);
      assert st.log + xs == (st.log + xs[..n]) + [xs[n]];
    }
  }

  lemma {:induction false} AccumulatedAllAppend<K>(st: State<K>, xs: seq<Sample<K>>, ys: seq<Sample<K>>)
    ensures AccumulatedAll(st, xs + ys) == AccumulatedAll(AccumulatedAll(st, xs), ys)
  {
    hide Accumulated;
    if ys == [] {
      assert xs + ys == xs;
    } else {
      var n := |ys| - 1;
      AccumulatedAllAppend(st, xs, ys[..n]);
      assert (xs + ys)[..|xs + ys| - 1] == xs + ys[..n];
    }
  }

  lemma AccumulatedOnes<K>(st: State<K>, xs: seq<Sample<K>>, ys: seq<Sample<K>>)
    requires |xs| <= 1 && |ys| <= 1
    ensures AccumulatedAll(st, xs + ys)
      == var one := if xs == [] then st else Accumulated(st, xs[0]); if ys == [] then one else Accumulated(one, ys[0])
  {
    hide Accumulated;
    AccumulatedAllAppend(st, xs, ys);
    assert AccumulatedAll(st, []) == st;
  }

  ghost predicate GpuKeys<K>(totals: map<Slot<K>, Tally>) {
    forall s :: s in totals ==> s.series.Gpu? && totals[s].expected > 0
  }

  ghost predicate GpmKeys<K>(totals: map<Slot<K>, Tally>) {
    forall s :: s in totals ==> s.series.Gpm?
  }

  /** The open buckets are those of the two dictionaries. */
  ghost predicate Opens<K>(st: State<K>, gpu: map<Slot<K>, Tally>, gpm: map<Slot<K>, Tally>) {
    st.open == gpu + gpm && GpuKeys(gpu) && GpmKeys(gpm)
  }

  /** The sink's other fields. */
  datatype Fields<K(==)> = Fields(fine: Table<K>, mid: Table<K>, coarse: Table<K>,
                                  lastFlush: int, lastMid: int, lastHour: int, gpm: bool)

  ghost predicate Coupled<K>(st: State<K>, gpu: map<Slot<K>, Tally>, gpm: map<Slot<K>, Tally>, f: Fields<K>) {
    && Opens(st, gpu, gpm) && Shaped(st)
    && f == Fields(st.fine, st.mid, st.coarse, st.lastFlush, st.lastMid, st.lastHour, st.gpm)
  }

  lemma CoupledAccumulated<K>(st: State<K>, gpu: map<Slot<K>, Tally>, gpm: map<Slot<K>, Tally>, f: Fields<K>,
      x: Sample<K>)
    requires Coupled(st, gpu, gpm, f)
    ensures x.series.Gpu? ==> Coupled(Accumulated(st, x), Added(gpu, SampleSlot(x), x.readings), gpm, f)
    ensures x.series.Gpm? ==> Coupled(Accumulated(st, x), gpu, Added(gpm, SampleSlot(x), x.readings), f)
  {
    hide Opens, Shaped, Added;
    AccumulatedOpens(st, gpu, gpm, x);
    AccumulatedShaped(st, x);
  }

  lemma CoupledSwept<K>(st: State<K>, gpu: map<Slot<K>, Tally>, gpm: map<Slot<K>, Tally>, f: Fields<K>, now: int)
    requires Coupled(st, gpu, gpm, f)
    ensures Coupled(Tick(st, now), gpu, gpm, f) && Coupled(Swept(Tick(st, now)), gpu, gpm, f)
  {
  }

  lemma CoupledWritten<K>(st: State<K>, gpu: map<Slot<K>, Tally>, gpm: map<Slot<K>, Tally>, f: Fields<K>, family: bool)
    requires Coupled(st, gpu, gpm, f)
    ensures Coupled(Written(st, family), gpu, gpm, f.(fine := f.fine + ReadyRows(st.open, st.swept, family)))
  {
    hide ReadyRows, GpuKeys, GpmKeys, Shaped;
    WrittenShaped(st, family);
  }

  function Unready<K(==)>(open: map<Slot<K>, Tally>, now: int): map<Slot<K>, Tally> {
    map s | s in open && !Closed(s.start, now) :: open[s]
  }

  lemma CoupledCleared<K>(st: State<K>, gpu: map<Slot<K>, Tally>, gpm: map<Slot<K>, Tally>, f: Fields<K>)
    requires Coupled(st, gpu, gpm, f)
    ensures Coupled(Cleared(st), Unready(gpu, st.swept), Unready(gpm, st.swept), f)
  {
    hide Shaped;
    ClearedShaped(st);
    assert Cleared(st).open == Unready(gpu, st.swept) + Unready(gpm, st.swept);
  }

  lemma CoupledMid<K>(st: State<K>, gpu: map<Slot<K>, Tally>, gpm: map<Slot<K>, Tally>, f: Fields<K>, family: bool)
    requires Coupled(st, gpu, gpm, f)
    ensures WellFormed(f.fine) && Shaped(st)
    ensures Coupled(MidRolled(st, family), gpu, gpm, f.(mid := f.mid + Rolled(f.fine, TWO_MINUTES, st.clock, family)))
  {
    hide Rolled, CoverOf, GpuKeys, GpmKeys;
    MidShaped(st, family);
    hide Shaped;
  }

  lemma CoupledHour<K>(st: State<K>, gpu: map<Slot<K>, Tally>, gpm: map<Slot<K>, Tally>, f: Fields<K>, family: bool)
    requires Coupled(st, gpu, gpm, f)
    ensures WellFormed(f.mid) && Shaped(st)
    ensures Coupled(HourRolled(st, family), gpu, gpm,
                    f.(coarse := f.coarse + Rolled(f.mid, ONE_HOUR, st.clock, family)))
  {
    hide Rolled, CoverOf, GpuKeys, GpmKeys;
    HourShaped(st, family);
    hide Shaped;
  }

  lemma CoupledPruned<K>(st: State<K>, gpu: map<Slot<K>, Tally>, gpm: map<Slot<K>, Tally>, f: Fields<K>)
    requires Coupled(st, gpu, gpm, f)
    ensures Coupled(PrunedState(st), gpu, gpm, f.(fine := Pruned(f.fine, st.clock - FINE_RETENTION),
                    mid := Pruned(f.mid, st.clock - MID_RETENTION),
                    coarse := Pruned(f.coarse, st.clock - COARSE_RETENTION)))
  {
    hide Shaped, Pruned;
    PrunedShaped(st);
  }

  lemma WrittenFields<K>(st: State<K>, gpu: bool)
    ensures Written(st, gpu) == st.(fine := Written(st, gpu).fine)
  {
  }

  lemma FlushStepSwept<K>(st: State<K>, now: int, o: Outcome)
    requires Shaped(st)
    ensures FlushStep(Tick(st, now), o).swept == now
  {
    hide ReadyRows;
  }

  lemma HourShapes<K>(st: State<K>, gpu: bool)
    requires Shaped(st)
    ensures WellFormed(st.mid) && st.mid.Keys == st.midCover.Keys
    ensures HourRolled(st, gpu)
      == st.(coarse := HourRolled(st, gpu).coarse, coarseCover := HourRolled(st, gpu).coarseCover,
             hourCuts := st.hourCuts + {HourCut(gpu, st.cutMid, st.midCuts)})
  {
    HourFields(st, gpu);
  }

  lemma CoupledForgotten<K>(st: State<K>)
    requires Shaped(st)
    ensures Coupled(Forgotten(st), map[], map[], Fields(st.fine, st.mid, st.coarse, 0, 0, 0, st.gpm))
  {
    hide Surviving, Lost;
  }

  lemma CoupledMarks<K>(st: State<K>, gpu: map<Slot<K>, Tally>, gpm: map<Slot<K>, Tally>, f: Fields<K>)
    requires Coupled(st, gpu, gpm, f)
    ensures Coupled(MarkFlushed(st), gpu, gpm, f.(lastFlush := st.swept))
    ensures Coupled(MarkMid(st), gpu, gpm, f.(lastMid := st.clock))
    ensures Coupled(MarkHour(st), gpu, gpm, f.(lastHour := st.clock))
  {
  }

  /** A dictionary of buckets after `readings` were added to the bucket of a slot. */
  function Added<K(==)>(totals: map<Slot<K>, Tally>, slot: Slot<K>, readings: map<Metric, Reading>)
    : map<Slot<K>, Tally>
  {
    totals[slot := AddSample(if slot in totals then totals[slot] else Empty(slot.series), readings)]
  }

  lemma UnionGrows<K, V>(a: map<K, V>, b: map<K, V>, k: K, v: V)
    ensures k !in b ==> a[k := v] + b == (a + b)[k := v]
    ensures a + b[k := v] == (a + b)[k := v]
  {
  }

  lemma AddedKeys<K>(totals: map<Slot<K>, Tally>, slot: Slot<K>, readings: map<Metric, Reading>)
    ensures GpuKeys(totals) && slot.series.Gpu? ==> GpuKeys(Added(totals, slot, readings))
    ensures GpmKeys(totals) && slot.series.Gpm? ==> GpmKeys(Added(totals, slot, readings))
    ensures GpuKeys(totals) && slot.series.Gpm? ==> slot !in totals
    ensures GpmKeys(totals) && slot.series.Gpu? ==> slot !in totals
  {
  }

  lemma AccumulatedOpens<K>(st: State<K>, gpu: map<Slot<K>, Tally>, gpm: map<Slot<K>, Tally>, x: Sample<K>)
    requires Opens(st, gpu, gpm)
    ensures x.series.Gpu? ==> Opens(Accumulated(st, x), Added(gpu, SampleSlot(x), x.readings), gpm)
    ensures x.series.Gpm? ==> Opens(Accumulated(st, x), gpu, Added(gpm, SampleSlot(x), x.readings))
  {
    hide AddSample, Empty, BucketStart, GpuKeys, GpmKeys;
    var slot := SampleSlot(x);
    AddedKeys(gpu, slot, x.readings);
    AddedKeys(gpm, slot, x.readings);
    UnionGrows(gpu, gpm, slot, Accumulated(st, x).open[slot]);
  }

  lemma ReadyOfBoth<K>(gpu: map<Slot<K>, Tally>, gpm: map<Slot<K>, Tally>, now: int)
    requires GpuKeys(gpu) && GpmKeys(gpm)
    ensures ReadyRows(gpu + gpm, now, true) == ReadyRows(gpu, now, true)
    ensures ReadyRows(gpu + gpm, now, false) == ReadyRows(gpm, now, false)
  {
    hide RowFrom;
  }

  lemma OneMore<K, V>(wanted: map<K, V>, todo: set<K>, k: K)
    requires todo <= wanted.Keys && k in todo
    ensures (wanted - todo)[k := wanted[k]] == wanted - (todo - {k})
    ensures |todo - {k}| < |todo|
  {
  }

  /** The rows not still to do are in the table. */
  ghost predicate Upserted<K, V>(table: map<K, V>, rows: map<K, V>, todo: set<K>, result: map<K, V>) {
    todo <= rows.Keys && result == table + (rows - todo)
  }

  lemma UpsertOne<K, V>(table: map<K, V>, rows: map<K, V>, todo: set<K>, result: map<K, V>, k: K)
    requires Upserted(table, rows, todo, result) && k in todo
    ensures k in rows && Upserted(table, rows, todo - {k}, result[k := rows[k]])
    ensures |todo - {k}| < |todo|
  {
    OneMore(rows, todo, k);
  }

  lemma UpsertEnds<K, V>(table: map<K, V>, rows: map<K, V>, result: map<K, V>)
    ensures Upserted(table, rows, rows.Keys, table)
    ensures Upserted(table, rows, {}, result) ==> result == table + rows
  {
    assert rows - {} == rows;
  }

  /** The loop of an upsert over its rows. */
  method Upsert<K(==)>(table: Table<K>, rows: Table<K>) returns (result: Table<K>)
    ensures result == table + rows
  {
    hide Upserted;
    result := table;
    var todo := rows.Keys;
    UpsertEnds(table, rows, table);
    while todo != {}
      invariant Upserted(table, rows, todo, result)
      decreases |todo|
    {
      var s :| s in todo;
      UpsertOne(table, rows, todo, result, s);
      result, todo := result[s := rows[s]], todo - {s};
    }
    UpsertEnds(table, rows, result);
  }

  class RollupSink<K(==)> {
    var gpuBuckets: map<Slot<K>, RollupBucket<K>>
    var gpmBuckets: map<Slot<K>, NvidiaGpmRollupBucket<K>>
    var fine: Table<K>
    var mid: Table<K>
    var coarse: Table<K>
    var lastFlush: int
    var lastMid: int
    var lastHour: int
    var lastPrune: int
    const gpmEnabled: bool
    ghost var view: State<K>

    ghost function GpuTotals(): (totals: map<Slot<K>, Tally>)
      reads this`gpuBuckets, gpuBuckets.Values
      ensures totals.Keys == gpuBuckets.Keys
    {
      map s | s in gpuBuckets :: gpuBuckets[s].Total()
    }

    ghost function GpmTotals(): (totals: map<Slot<K>, Tally>)
      reads this`gpmBuckets, gpmBuckets.Values
      ensures totals.Keys == gpmBuckets.Keys
    {
      map s | s in gpmBuckets :: gpmBuckets[s].Total()
    }

    ghost predicate GpuValid()
      reads this`gpuBuckets, gpuBuckets.Values
    {
      forall s :: s in gpuBuckets ==> s.series.Gpu? && gpuBuckets[s].slot == s && gpuBuckets[s].Valid()
    }

    ghost predicate GpmValid()
      reads this`gpmBuckets, gpmBuckets.Values
    {
      forall s :: s in gpmBuckets ==> s.series.Gpm? && gpmBuckets[s].slot == s && gpmBuckets[s].Valid()
    }

    ghost function Tables(): Fields<K>
      reads this`fine, this`mid, this`coarse, this`lastFlush, this`lastMid, this`lastHour
    {
      Fields(fine, mid, coarse, lastFlush, lastMid, lastHour, gpmEnabled)
    }

    /** The fields are those of the ghost view; nothing else is assumed. */
    ghost predicate Valid()
      reads this, gpuBuckets.Values, gpmBuckets.Values
    {
      GpuValid() && GpmValid() && Coupled(view, GpuTotals(), GpmTotals(), Tables())
    }

    constructor (gpm: bool)
      ensures Valid() && Held(view) && view == Start(gpm) && lastPrune == 0
    {
      gpuBuckets, gpmBuckets := map[], map[];
      fine, mid, coarse := map[], map[], map[];
      lastFlush, lastMid, lastHour, lastPrune := 0, 0, 0, 0;
      gpmEnabled := gpm;
      view := Start(gpm);
      new;
      StartHeld<K>(gpm);
    }

    /** The sink of the next process finds the tables and nothing else. */
    constructor OnTables(fine: Table<K>, mid: Table<K>, coarse: Table<K>, gpm: bool, ghost was: State<K>)
      requires Shaped(was) && was.gpm == gpm && was.fine == fine && was.mid == mid && was.coarse == coarse
      ensures Valid() && view == Forgotten(was) && lastPrune == 0
      ensures Held(was) ==> Held(view)
    {
      hide Held, Coupled, Shaped, Forgotten;
      gpuBuckets, gpmBuckets := map[], map[];
      this.fine, this.mid, this.coarse := fine, mid, coarse;
      lastFlush, lastMid, lastHour, lastPrune := 0, 0, 0, 0;
      gpmEnabled := gpm;
      view := Forgotten(was);
      new;
      assert GpuTotals() == map[] && GpmTotals() == map[];
      CoupledForgotten(was);
      if Held(was) { ForgottenHolds(was); }
    }

    /** The bucket of a slot, created when it is missing. */
    method GpuBucket(slot: Slot<K>) returns (bucket: RollupBucket<K>)
      requires GpuValid() && slot.series.Gpu?
      modifies this`gpuBuckets
      ensures GpuValid() && slot in gpuBuckets && bucket == gpuBuckets[slot]
      ensures fresh(gpuBuckets.Values - old(gpuBuckets.Values))
      ensures GpuTotals()
        == if slot in old(gpuBuckets) then old(GpuTotals()) else old(GpuTotals())[slot := Empty(slot.series)]
    {
      if slot !in gpuBuckets {
        bucket := new RollupBucket<K>(slot);
        gpuBuckets := gpuBuckets[slot := bucket];
        assert Empty(slot.series) == GpuTally(0, Nothing, Nothing, Nothing, Nothing);
      } else {
        bucket := gpuBuckets[slot];
      }
    }

    method AddToOpenGpuBucket(slot: Slot<K>, bucket: RollupBucket<K>, reading: GpuReading)
      requires GpuValid() && slot in gpuBuckets && bucket == gpuBuckets[slot]
      modifies bucket
      ensures GpuValid()
      ensures GpuTotals() == old(GpuTotals())[slot := AddSample(old(GpuTotals())[slot], GpuReadings(reading))]
    {
      hide AddSample, GpuReadings, GpuTally;
      bucket.AddGpu(reading);
    }

    method AddToGpuBucket(slot: Slot<K>, reading: GpuReading)
      requires GpuValid() && slot.series.Gpu?
      modifies this`gpuBuckets, gpuBuckets.Values
      ensures GpuValid() && fresh(gpuBuckets.Values - old(gpuBuckets.Values))
      ensures GpuTotals() == Added(old(GpuTotals()), slot, GpuReadings(reading))
    {
      hide AddSample, GpuReadings, GpuTotals, GpuValid, Empty;
      var bucket := GpuBucket(slot);
      AddToOpenGpuBucket(slot, bucket, reading);
    }

    method AddGpuSample(at: int, id: K, reading: GpuReading)
      requires Valid()
      modifies this`gpuBuckets, this`view, gpuBuckets.Values
      ensures Valid() && fresh(gpuBuckets.Values - old(gpuBuckets.Values))
      ensures view == Accumulated(old(view), Sample(at, Gpu(id), GpuReadings(reading)))
    {
      hide Added, GpuReadings, BucketStart, GpuValid, GpmValid, GpuTotals, GpmTotals, Coupled, Accumulated, Tables;
      ghost var x := Sample(at, Gpu(id), GpuReadings(reading));
      CoupledAccumulated(view, GpuTotals(), GpmTotals(), Tables(), x);
      AddToGpuBucket(Slot(BucketStart(at), Gpu(id)), reading);
      view := Accumulated(view, x);
    }

    method GpmBucket(slot: Slot<K>) returns (bucket: NvidiaGpmRollupBucket<K>)
      requires GpmValid() && slot.series.Gpm?
      modifies this`gpmBuckets
      ensures GpmValid() && slot in gpmBuckets && bucket == gpmBuckets[slot]
      ensures fresh(gpmBuckets.Values - old(gpmBuckets.Values))
      ensures GpmTotals()
        == if slot in old(gpmBuckets) then old(GpmTotals()) else old(GpmTotals())[slot := Empty(slot.series)]
    {
      hide GpmColumns;
      if slot !in gpmBuckets {
        bucket := new NvidiaGpmRollupBucket<K>(slot);
        gpmBuckets := gpmBuckets[slot := bucket];
      } else {
        bucket := gpmBuckets[slot];
      }
    }

    method AddToOpenGpmBucket(slot: Slot<K>, bucket: NvidiaGpmRollupBucket<K>, p: Performance)
      requires GpmValid() && slot in gpmBuckets && bucket == gpmBuckets[slot] && IsExpected(p) && Distinct(p.metrics)
      modifies bucket
      ensures GpmValid()
      ensures GpmTotals() == old(GpmTotals())[slot := AddSample(old(GpmTotals())[slot], GpmReadings(p))]
    {
      hide AddSample, GpmReadings, GpmTally, SameKeys, IsExpected, Distinct;
      bucket.Add(p);
    }

    method AddToGpmBucket(slot: Slot<K>, p: Performance)
      requires GpmValid() && slot.series.Gpm? && IsExpected(p) && Distinct(p.metrics)
      modifies this`gpmBuckets, gpmBuckets.Values
      ensures GpmValid() && fresh(gpmBuckets.Values - old(gpmBuckets.Values))
      ensures GpmTotals() == Added(old(GpmTotals()), slot, GpmReadings(p))
    {
      hide AddSample, GpmReadings, GpmTotals, GpmValid, Empty, Distinct, IsExpected;
      var bucket := GpmBucket(slot);
      AddToOpenGpmBucket(slot, bucket, p);
    }

    method AddGpmSample(at: int, id: K, p: Performance)
      requires Valid() && IsExpected(p) && Distinct(p.metrics)
      modifies this`gpmBuckets, this`view, gpmBuckets.Values
      ensures Valid() && fresh(gpmBuckets.Values - old(gpmBuckets.Values))
      ensures view == Accumulated(old(view), Sample(at, Gpm(id), GpmReadings(p)))
    {
      hide Added, GpmReadings, BucketStart, GpuValid, GpmValid, GpuTotals, GpmTotals, Coupled, Accumulated, Tables,
        Distinct, IsExpected;
      ghost var x := Sample(at, Gpm(id), GpmReadings(p));
      CoupledAccumulated(view, GpuTotals(), GpmTotals(), Tables(), x);
      AddToGpmBucket(Slot(BucketStart(at), Gpm(id)), p);
      view := Accumulated(view, x);
    }

    /** _accumulate_snapshot. */
    method AccumulateSnapshot(at: int, gpus: seq<GpuSample<K>>)
      requires Valid() && forall i :: 0 <= i < |gpus| ==> Dictionaries(gpus[i])
      modifies this`gpuBuckets, this`gpmBuckets, this`view, gpuBuckets.Values, gpmBuckets.Values
      ensures Valid() && view == AccumulatedAll(old(view), Contributions(at, gpus, gpmEnabled))
      ensures view.log == old(view).log + Contributions(at, gpus, gpmEnabled)
      ensures fresh(gpuBuckets.Values - old(gpuBuckets.Values)) && fresh(gpmBuckets.Values - old(gpmBuckets.Values))
    {
      hide Valid, GpuContribution, GpmContribution, Accumulated;
      var i := 0;
      while i < |gpus|
        invariant 0 <= i <= |gpus| && Valid()
        invariant view == AccumulatedAll(old(view), Contributions(at, gpus[..i], gpmEnabled))
        invariant fresh(gpuBuckets.Values - old(gpuBuckets.Values)) && fresh(gpmBuckets.Values - old(gpmBuckets.Values))
      {
        assert gpus[..i + 1][..i] == gpus[..i];
        assert Contributions(at, gpus[..i + 1], gpmEnabled) == Contributions(at, gpus[..i], gpmEnabled)
          + (GpuContribution(at, gpus[i]) + GpmContribution(at, gpus[i], gpmEnabled));
        AddGpu(at, gpus[i]);
        AccumulatedAllAppend(old(view), Contributions(at, gpus[..i], gpmEnabled),
                             GpuContribution(at, gpus[i]) + GpmContribution(at, gpus[i], gpmEnabled));
        i := i + 1;
      }
      assert gpus[..i] == gpus;
      AccumulatedLog(old(view), Contributions(at, gpus, gpmEnabled));
    }

    /** The body of the loop over a snapshot's GPUs. */
    method AddGpu(at: int, g: GpuSample<K>)
      requires Valid() && Dictionaries(g)
      modifies this`gpuBuckets, this`gpmBuckets, this`view, gpuBuckets.Values, gpmBuckets.Values
      ensures Valid()
      ensures view == AccumulatedAll(old(view), GpuContribution(at, g) + GpmContribution(at, g, gpmEnabled))
      ensures fresh(gpuBuckets.Values - old(gpuBuckets.Values)) && fresh(gpmBuckets.Values - old(gpmBuckets.Values))
    {
      hide Valid, Accumulated, GpuReadings, GpmReadings, Distinct, IsExpected;
      AccumulatedOnes(view, GpuContribution(at, g), GpmContribution(at, g, gpmEnabled));
      if g.basicValid {
        AddGpuSample(at, g.id, g.reading);
      }
      if gpmEnabled && g.performance.Some? && IsExpected(g.performance.value) {
        AddGpmSample(at, g.id, g.performance.value);
      }
    }

    // ----- flush_rollups

    method GpuReadyRows(now: int) returns (rows: Table<K>)
      requires GpuValid() && GpuKeys(GpuTotals())
      ensures rows == ReadyRows(GpuTotals(), now, true)
    {
      hide RowFrom, GpuTally;
      ghost var totals := GpuTotals();
      ghost var wanted := ReadyRows(totals, now, true);
      var todo := set s | s in gpuBuckets.Keys && Closed(s.start, now);
      assert todo == wanted.Keys;
      rows := map[];
      while todo != {}
        invariant todo <= wanted.Keys && rows == wanted - todo
        decreases |todo|
      {
        var s :| s in todo;
        OneMore(wanted, todo, s);
        assert totals[s].expected > 0 && gpuBuckets[s].Total() == totals[s];
        var row := GpuRow(gpuBuckets[s]);
        rows, todo := rows[s := row], todo - {s};
      }
      assert wanted - {} == wanted;
    }

    static method GpuRow(bucket: RollupBucket<K>) returns (row: Row)
      requires bucket.Valid() && bucket.Total().expected > 0
      ensures row == RowFrom(bucket.Total())
    {
      row := bucket.ToRow();
    }

    static method GpmRow(bucket: NvidiaGpmRollupBucket<K>) returns (row: Row)
      requires bucket.Valid()
      ensures row == RowFrom(bucket.Total())
    {
      row := bucket.ToRow();
    }

    method GpmReadyRows(now: int) returns (rows: Table<K>)
      requires GpmValid() && GpmKeys(GpmTotals())
      ensures rows == ReadyRows(GpmTotals(), now, false)
    {
      hide RowFrom, GpmTally, SameKeys;
      ghost var totals := GpmTotals();
      ghost var wanted := ReadyRows(totals, now, false);
      var todo := set s | s in gpmBuckets.Keys && Closed(s.start, now);
      assert todo == wanted.Keys;
      rows := map[];
      while todo != {}
        invariant todo <= wanted.Keys && rows == wanted - todo
        decreases |todo|
      {
        var s :| s in todo;
        OneMore(wanted, todo, s);
        assert gpmBuckets[s].Total() == totals[s];
        var row := GpmRow(gpmBuckets[s]);
        rows, todo := rows[s := row], todo - {s};
      }
      assert wanted - {} == wanted;
    }

    /** Commits new tables. */
    method SetTables(fine': Table<K>, mid': Table<K>, coarse': Table<K>, ghost next: State<K>)
      requires Valid()
      requires Coupled(next, GpuTotals(), GpmTotals(), Tables().(fine := fine', mid := mid', coarse := coarse'))
      modifies this`fine, this`mid, this`coarse, this`view
      ensures Valid() && view == next && fine == fine' && mid == mid' && coarse == coarse'
    {
      hide Coupled, GpuValid, GpmValid, GpuTotals, GpmTotals;
      fine, mid, coarse, view := fine', mid', coarse', next;
    }

    method WriteFine(rows: Table<K>, gpu: bool)
      requires Valid() && rows == ReadyRows(view.open, view.swept, gpu)
      modifies this`fine, this`mid, this`coarse, this`view
      ensures Valid() && view == Written(old(view), gpu)
    {
      hide Coupled, ReadyRows, GpuValid, GpmValid, GpuTotals, GpmTotals, Written;
      CoupledWritten(view, GpuTotals(), GpmTotals(), Tables(), gpu);
      var table := Upsert(fine, rows);
      SetTables(table, mid, coarse, Written(view, gpu));
    }

    /** Only dictionary entries go; the buckets dropped are not used any more. */
    method DropReadyGpu(now: int)
      requires GpuValid()
      modifies this`gpuBuckets
      ensures GpuValid() && GpuTotals() == Unready(old(GpuTotals()), now)
    {
      hide GpuTally, Closed;
      gpuBuckets := map s | s in gpuBuckets && !Closed(s.start, now) :: gpuBuckets[s];
    }

    method DropReadyGpm(now: int)
      requires GpmValid()
      modifies this`gpmBuckets
      ensures GpmValid() && GpmTotals() == Unready(old(GpmTotals()), now)
    {
      hide GpmTally, SameKeys, Closed;
      gpmBuckets := map s | s in gpmBuckets && !Closed(s.start, now) :: gpmBuckets[s];
    }

    method DropReady(now: int)
      requires Valid() && view.swept == now
      modifies this`gpuBuckets, this`gpmBuckets, this`view
      ensures Valid() && view == Cleared(old(view))
    {
      hide Coupled, GpuValid, GpmValid, GpuTotals, GpmTotals, Unready, Cleared;
      CoupledCleared(view, GpuTotals(), GpmTotals(), Tables());
      DropReadyGpu(now);
      DropReadyGpm(now);
      view := Cleared(view);
    }

    lemma OpenTotals()
      requires Valid()
      ensures view.open == GpuTotals() + GpmTotals() && GpuKeys(GpuTotals()) && GpmKeys(GpmTotals()) && Shaped(view)
    {
    }

    method ReadyBoth(now: int) returns (gpuRows: Table<K>, gpmRows: Table<K>)
      requires Valid()
      ensures gpuRows == ReadyRows(view.open, now, true) && gpmRows == ReadyRows(view.open, now, false)
    {
      hide Coupled, GpuValid, GpmValid, GpuTotals, GpmTotals, GpuKeys, GpmKeys, ReadyRows, Shaped;
      OpenTotals();
      gpuRows := GpuReadyRows(now);
      gpmRows := GpmReadyRows(now);
      ReadyOfBoth(GpuTotals(), GpmTotals(), now);
    }

    ghost method Sweep(now: int)
      requires Valid()
      modifies this`view
      ensures Valid() && view == Swept(Tick(old(view), now))
    {
      hide Coupled, GpuValid, GpmValid, GpuTotals, GpmTotals;
      CoupledSwept(view, GpuTotals(), GpmTotals(), Tables(), now);
      view := Swept(Tick(view, now));
    }

    method Flush(now: int, o: Outcome) returns (ok: bool)
      requires Valid() && Shaped(view)
      modifies this`gpuBuckets, this`gpmBuckets, this`fine, this`mid, this`coarse, this`view
      ensures Valid() && view == FlushStep(Tick(old(view), now), o) && ok == (o.writeGpu && o.writeGpm)
    {
      hide Valid, ReadyRows, Shaped, Cleared, Written;
      var gpuRows, gpmRows := ReadyBoth(now);
      Sweep(now);
      ok := false;
      if o.writeGpu {
        WrittenFields(view, true);
        WrittenFields(Written(view, true), false);
        WriteFine(gpuRows, true);
        if o.writeGpm {
          WriteFine(gpmRows, false);
          DropReady(now);
          ok := true;
        }
      }
    }

    // ----- the scheduled rollups and the prune

    method FlushIfDue(now: int, o: Outcome) returns (ok: bool)
      requires Valid() && Shaped(view)
      modifies this`gpuBuckets, this`gpmBuckets, this`fine, this`mid, this`coarse, this`view, this`lastFlush
      ensures Valid() && view == FlushDue(Tick(old(view), now), o) && ok == FlushOk(Tick(old(view), now), o)
    {
      hide Valid, FlushStep, Shaped;
      Clocks();
      if now - lastFlush >= FLUSH_INTERVAL {
        FlushStepSwept(view, now, o);
        ok := Flush(now, o);
        if ok { SetLastFlush(now); }
      } else {
        SetClock(now);
        ok := true;
      }
    }

    lemma Clocks()
      requires Valid()
      ensures lastFlush == view.lastFlush && lastMid == view.lastMid && lastHour == view.lastHour
      ensures gpmEnabled == view.gpm
      ensures WellFormed(fine) && WellFormed(mid) && Shaped(view)
    {
    }

    ghost method SetClock(now: int)
      requires Valid()
      modifies this`view
      ensures Valid() && view == Tick(old(view), now)
    {
      hide Coupled, GpuValid, GpmValid, GpuTotals, GpmTotals;
      CoupledSwept(view, GpuTotals(), GpmTotals(), Tables(), now);
      view := Tick(view, now);
    }

    method SetLastFlush(now: int)
      requires Valid() && view.swept == now
      modifies this`lastFlush, this`view
      ensures Valid() && view == MarkFlushed(old(view))
    {
      hide Coupled, GpuValid, GpmValid, GpuTotals, GpmTotals;
      CoupledMarks(view, GpuTotals(), GpmTotals(), Tables());
      lastFlush := now;
      view := MarkFlushed(view);
    }

    /** rollup_gpu_metric_rollups, or rollup_nvidia_gpm_rollups, from 20 s to 2 m. */
    method RollUpMid(now: int, gpu: bool)
      requires Valid() && Shaped(view) && view.clock == now
      modifies this`fine, this`mid, this`coarse, this`view
      ensures Valid() && view == MidRolled(old(view), gpu)
    {
      hide Coupled, GpuValid, GpmValid, GpuTotals, GpmTotals, Rolled, MidRolled, Shaped;
      Clocks();
      CoupledMid(view, GpuTotals(), GpmTotals(), Tables(), gpu);
      MidShaped(view, gpu);
      var table := Upsert(mid, Rolled(fine, TWO_MINUTES, now, gpu));
      SetTables(fine, table, coarse, MidRolled(view, gpu));
    }

    method SetLastMid(now: int)
      requires Valid() && view.clock == now
      modifies this`lastMid, this`view
      ensures Valid() && view == MarkMid(old(view))
    {
      hide Coupled, GpuValid, GpmValid, GpuTotals, GpmTotals;
      CoupledMarks(view, GpuTotals(), GpmTotals(), Tables());
      lastMid := now;
      view := MarkMid(view);
    }

    method MidIfDue(now: int, o: Outcome) returns (ok: bool)
      requires Valid() && Shaped(view) && view.clock == now
      modifies this`fine, this`mid, this`coarse, this`view, this`lastMid
      ensures Valid() && view == MidDue(old(view), o) && ok == MidOk(old(view), o)
    {
      hide Valid, Shaped, MidRolled;
      Clocks();
      ok := true;
      if now - lastMid >= TWO_MINUTES {
        MidFields(view, true);
        if !o.midGpu { return false; }
        RollUpMid(now, true);
        Clocks();
        if gpmEnabled {
          MidFields(view, false);
          if !o.midGpm { return false; }
          RollUpMid(now, false);
        }
        SetLastMid(now);
      }
    }

    /** The same from 2 m to 1 h. */
    method RollUpHour(now: int, gpu: bool)
      requires Valid() && Shaped(view) && view.clock == now
      modifies this`fine, this`mid, this`coarse, this`view
      ensures Valid() && view == HourRolled(old(view), gpu)
    {
      hide Coupled, GpuValid, GpmValid, GpuTotals, GpmTotals, Rolled, HourRolled;
      Clocks();
      CoupledHour(view, GpuTotals(), GpmTotals(), Tables(), gpu);
      hide Shaped;
      var table := Upsert(coarse, Rolled(mid, ONE_HOUR, now, gpu));
      SetTables(fine, mid, table, HourRolled(view, gpu));
    }

    method SetLastHour(now: int)
      requires Valid() && view.clock == now
      modifies this`lastHour, this`view
      ensures Valid() && view == MarkHour(old(view))
    {
      hide Coupled, GpuValid, GpmValid, GpuTotals, GpmTotals;
      CoupledMarks(view, GpuTotals(), GpmTotals(), Tables());
      lastHour := now;
      view := MarkHour(view);
    }

    method HourIfDue(now: int, o: Outcome) returns (ok: bool)
      requires Valid() && Shaped(view) && view.clock == now
      modifies this`fine, this`mid, this`coarse, this`view, this`lastHour
      ensures Valid() && view == HourDue(old(view), o) && ok == HourOk(old(view), o)
    {
      hide Valid, Shaped, HourRolled;
      Clocks();
      ok := true;
      if now - lastHour >= ONE_HOUR {
        HourShapes(view, true);
        if !o.hourGpu { return false; }
        RollUpHour(now, true);
        Clocks();
        if gpmEnabled {
          HourShapes(view, false);
          if !o.hourGpm { return false; }
          RollUpHour(now, false);
        }
        SetLastHour(now);
      }
    }

    method Prune(now: int)
      requires Valid() && view.clock == now
      modifies this`fine, this`mid, this`coarse, this`view
      ensures Valid() && view == PrunedState(old(view))
    {
      hide Coupled, GpuValid, GpmValid, GpuTotals, GpmTotals, Pruned, PrunedState;
      CoupledPruned(view, GpuTotals(), GpmTotals(), Tables());
      SetTables(Pruned(fine, now - FINE_RETENTION), Pruned(mid, now - MID_RETENTION),
                Pruned(coarse, now - COARSE_RETENTION), PrunedState(view));
    }

    method PruneIfDue(now: int, o: Outcome) returns (ok: bool)
      requires Valid() && Shaped(view) && view.clock == now
      modifies this`fine, this`mid, this`coarse, this`view, this`lastPrune
      ensures Valid() && view == PruneDue(old(view), old(lastPrune), o)
      ensures ok == (now - old(lastPrune) >= PRUNE_INTERVAL ==> o.prune && o.pruneRaw)
      ensures lastPrune == if now - old(lastPrune) >= PRUNE_INTERVAL && ok then now else old(lastPrune)
    {
      hide Valid, Shaped, PrunedState;
      ok := true;
      if now - lastPrune >= PRUNE_INTERVAL {
        if !o.prune { return false; }
        Prune(now);
        if !o.pruneRaw { return false; }
        SetLastPrune(now);
      }
    }

    method SetLastPrune(now: int)
      requires Valid()
      modifies this`lastPrune
      ensures Valid() && lastPrune == now
    {
      hide Coupled, GpuValid, GpmValid, GpuTotals, GpmTotals;
      lastPrune := now;
    }

    /** _run_scheduled_maintenance, up to closing stale sessions: each step that is due runs in
        turn, and the first failing database call ends it. */
    method RunScheduledMaintenance(now: int, o: Outcome) returns (ok: bool)
      requires Valid() && Shaped(view)
      modifies this`gpuBuckets, this`gpmBuckets, this`fine, this`mid, this`coarse, this`view
      modifies this`lastFlush, this`lastMid, this`lastHour, this`lastPrune
      ensures Valid() && view == Maintained(old(view), old(lastPrune), now, o)
      ensures old(Held(view)) && old(view).clock <= now ==> Held(view)
    {
      hide Valid, Shaped, Held, FlushDue, MidDue, HourDue, PruneDue, FlushOk, MidOk, HourOk, PrunedState;
      if Held(view) && view.clock <= now {
        MaintainedKeeps(view, lastPrune, now, o);
      }
      ok := FlushIfDue(now, o);
      if ok {
        Clocks();
        ok := MidIfDue(now, o);
        if ok {
          Clocks();
          ok := HourIfDue(now, o);
          if ok {
            Clocks();
            ok := PruneIfDue(now, o);
          }
        }
      }
    }

    /** stop, and the start of the next process: the last flush, and a sink on the tables it left. */
    method Restart(now: int, o: Outcome) returns (next: RollupSink<K>)
      requires Valid() && Shaped(view)
      modifies this`gpuBuckets, this`gpmBuckets, this`fine, this`mid, this`coarse, this`view
      ensures fresh(next) && next.Valid() && next.view == Restarted(old(view), now, o)
      ensures old(Held(view)) && old(view).clock <= now ==> Held(next.view)
    {
      hide Valid, Shaped, Held, FlushStep, Forgotten;
      if Held(view) && view.clock <= now {
        RestartedHolds(view, now, o);
      }
      var _ := Flush(now, o);
      SameTables();
      next := new RollupSink<K>.OnTables(fine, mid, coarse, gpmEnabled, view);
    }

    lemma SameTables()
      requires Valid()
      ensures Shaped(view) && view.gpm == gpmEnabled && view.fine == fine && view.mid == mid && view.coarse == coarse
    {
    }
  }
}
