/** The invariant of the rollup pipeline, step by step: samples accumulated, buckets flushed,
    rows rolled up and pruned (db.py, AsyncDBSink). */
module RollupPipeline {
  import Intervals
  import opened Rollup
  import opened RollupTables

  const FLUSH_INTERVAL: int := 10 * SECOND
  const PRUNE_INTERVAL: int := 600 * SECOND
  const FINE_RETENTION: int := 7 * Intervals.DAY
  const MID_RETENTION: int := 60 * Intervals.DAY
  const COARSE_RETENTION: int := 365 * Intervals.DAY

  /** A 2 m rollup of one table, run when rows before `at` had been pruned from its source. */
  datatype Cutoff = Cutoff(gpu: bool, at: int)

  /** A 1 h rollup of one table, with the 2 m rollups before it. */
  datatype HourCut = HourCut(gpu: bool, at: int, mids: set<Cutoff>)

  /** The sink and its tables, with the log of all samples it was given and not made to forget.
      `swept` is the time of the latest flush attempted; `flushed`, `rolledMid` and `rolledCoarse`
      are those of the latest complete flush and rollups, while the sink's own clocks `lastFlush`,
      `lastMid` and `lastHour` start from zero at a restart; the cuts are the latest prune cutoffs,
      `midCuts` and `hourCuts` the rollups that ever ran. */
  datatype State<K(==)> = State(
    log: seq<Sample<K>>, open: map<Slot<K>, Tally>,
    fine: Table<K>, mid: Table<K>, coarse: Table<K>, midCover: Cover<K>, coarseCover: Cover<K>,
    swept: int, flushed: int, rolledMid: int, rolledCoarse: int,
    lastFlush: int, lastMid: int, lastHour: int,
    cutFine: int, cutMid: int, cutCoarse: int, midCuts: set<Cutoff>, hourCuts: set<HourCut>,
    clock: int, gpm: bool)

  function MidSlot<K>(s: Slot<K>): Slot<K> { Slot(Target(s.start, TWO_MINUTES), s.series) }

  function HourSlot<K>(s: Slot<K>): Slot<K> { Slot(Target(s.start, ONE_HOUR), s.series) }

  ghost function Solo<K>(table: Table<K>): (cover: Cover<K>)
    ensures cover.Keys == table.Keys
  {
    map s | s in table :: {s.start}
  }

  /** An open bucket is the tally of all its samples so far. */
  ghost predicate OpenHolds<K>(st: State<K>) {
    forall s :: s in st.open ==>
      s in Slots(st.log) && st.open[s] == TallyOf(st.log, s.series, {s.start}) && !Closed(s.start, st.flushed)
  }

  /** Every sample is in an open bucket or in a flushed row, until that row is pruned. */
  ghost predicate Kept<K>(st: State<K>, s: Slot<K>) {
    s in st.open || (Closed(s.start, st.swept) && (s in st.fine || s.start < st.cutFine))
  }

  ghost predicate NothingLost<K>(st: State<K>) {
    forall s :: s in Slots(st.log) ==> Kept(st, s)
  }

  ghost predicate RowsFaithful<K>(st: State<K>) {
    && Faithful(st.fine, Solo(st.fine), st.log, TWENTY_SECONDS, st.swept)
    && Faithful(st.mid, st.midCover, st.log, TWO_MINUTES, st.swept)
    && Faithful(st.coarse, st.coarseCover, st.log, ONE_HOUR, st.swept)
  }

  /** No rollup is taken too early: what a row misses had been pruned. */
  ghost predicate MidMisses<K>(st: State<K>, s: Slot<K>)
    requires st.mid.Keys == st.midCover.Keys
  {
    MidSlot(s) in st.mid ==> s.start in st.midCover[MidSlot(s)] || s.start < st.cutFine
  }

  ghost predicate HourMisses<K>(st: State<K>, s: Slot<K>)
    requires st.coarse.Keys == st.coarseCover.Keys
  {
    HourSlot(s) in st.coarse ==>
      s.start in st.coarseCover[HourSlot(s)] || s.start < st.cutFine || MidSlot(s).start < st.cutMid
  }

  lemma KeysMatch<K>(st: State<K>)
    requires RowsFaithful(st)
    ensures st.mid.Keys == st.midCover.Keys && st.coarse.Keys == st.coarseCover.Keys
  {
  }

  ghost predicate RowsComplete<K>(st: State<K>)
    requires RowsFaithful(st)
  {
    forall s :: s in Slots(st.log) ==> MidMisses(st, s) && HourMisses(st, s)
  }

  predicate Tracked<K>(st: State<K>, series: Series<K>) { series.Gpu? || st.gpm }

  /** A window due at `until` has its row, unless that row was pruned. */
  ghost predicate HasMid<K>(st: State<K>, s: Slot<K>, until: int) {
    Due(MidSlot(s).start, TWO_MINUTES, until) ==> MidSlot(s) in st.mid || MidSlot(s).start < st.cutMid
  }

  ghost predicate HasHour<K>(st: State<K>, s: Slot<K>, until: int) {
    Due(HourSlot(s).start, ONE_HOUR, until) ==> HourSlot(s) in st.coarse || HourSlot(s).start < st.cutCoarse
  }

  ghost predicate RowsExist<K>(st: State<K>) {
    forall s :: s in Slots(st.log) && Tracked(st, s.series) ==>
      HasMid(st, s, st.rolledMid) && HasHour(st, s, st.rolledCoarse)
  }

  ghost predicate RowsTimely<K>(st: State<K>) {
    && (forall t :: t in st.mid ==> TimelyAt(st, t.start, TWO_MINUTES))
    && (forall t :: t in st.coarse ==> TimelyAt(st, t.start, ONE_HOUR))
  }

  /** Rows exist for due windows only, and were due soon after the last flush. */
  predicate TimelyAt<K>(st: State<K>, start: int, width: int)
    requires width > 0
  {
    Due(start, width, st.flushed + FLUSH_INTERVAL) && Due(start, width, st.clock)
  }

  /** What the cutoffs name is gone for good. */
  ghost predicate NoneOlder<K>(table: Table<K>, cutoff: int) {
    forall s :: s in table ==> s.start >= cutoff
  }

  ghost predicate RowsRecent<K>(st: State<K>) { NoneOlder(st.fine, st.cutFine) && NoneOlder(st.mid, st.cutMid) }

  ghost predicate ClocksHold<K>(st: State<K>) {
    && 0 <= st.flushed <= st.swept <= st.clock && 0 <= st.rolledMid && 0 <= st.rolledCoarse
    && st.lastFlush <= st.flushed && st.lastMid <= st.rolledMid && st.lastHour <= st.rolledCoarse
    && st.rolledMid <= st.flushed + FLUSH_INTERVAL && st.rolledMid <= st.clock
    && st.rolledCoarse <= st.rolledMid + TWO_MINUTES && st.rolledCoarse <= st.clock
    && st.cutFine + FINE_RETENTION <= st.rolledMid + TWO_MINUTES && st.cutFine + FINE_RETENTION <= st.clock
    && st.cutMid + MID_RETENTION <= st.rolledCoarse + ONE_HOUR && st.cutMid + MID_RETENTION <= st.clock
    && st.cutCoarse + COARSE_RETENTION <= st.clock && st.cutFine + FINE_RETENTION == st.cutMid + MID_RETENTION
  }

  ghost predicate Inv<K>(st: State<K>) {
    && OpenHolds(st) && NothingLost(st) && RowsFaithful(st) && RowsComplete(st)
    && RowsExist(st) && RowsTimely(st) && RowsRecent(st) && ClocksHold(st)
  }

  // ----- accumulating a sample

  /** The sample arrives before its bucket is ready to be flushed. */
  predicate OnTime<K>(st: State<K>, x: Sample<K>) { !Closed(BucketStart(x.at), st.swept) }

  function Accumulated<K(==)>(st: State<K>, x: Sample<K>): State<K> {
    var slot := SampleSlot(x);
    var was := if slot in st.open then st.open[slot] else Empty(x.series);
    st.(log := st.log + [x], open := st.open[slot := AddSample(was, x.readings)])
  }

  /** No row stands for the window of a sample that is still on time. */
  lemma NoRowYet<K>(st: State<K>, x: Sample<K>)
    requires RowsTimely(st) && ClocksHold(st) && OnTime(st, x)
    ensures MidSlot(SampleSlot(x)) !in st.mid && HourSlot(SampleSlot(x)) !in st.coarse
    ensures !Due(MidSlot(SampleSlot(x)).start, TWO_MINUTES, st.rolledMid)
    ensures !Due(HourSlot(SampleSlot(x)).start, ONE_HOUR, st.rolledCoarse)
  {
    TargetBounds(BucketStart(x.at), TWO_MINUTES);
    TargetBounds(BucketStart(x.at), ONE_HOUR);
  }

  lemma AccumulateOpen<K>(st: State<K>, x: Sample<K>)
    requires OpenHolds(st) && NothingLost(st) && ClocksHold(st) && OnTime(st, x)
    ensures OpenHolds(Accumulated(st, x)) && NothingLost(Accumulated(st, x))
  {
    var next, slot := Accumulated(st, x), SampleSlot(x);
    SlotsAppend(st.log, x);
    if slot !in st.open {
      assert slot in Slots(st.log) ==> Kept(st, slot);
      NoSamples(st.log, slot);
    }
    hide TallyOf, AddSample;
    forall s | s in next.open
      ensures s in Slots(next.log) && next.open[s] == TallyOf(next.log, s.series, {s.start})
      ensures !Closed(s.start, next.flushed)
    {
      if s == slot {
        TallyAppend(st.log, x, {slot.start});
      } else {
        TallyFrozen(st.log, x, s.series, {s.start});
      }
    }
    forall s | s in Slots(next.log) ensures Kept(next, s) {
      if s != slot { assert Kept(st, s); }
    }
  }

  lemma AccumulateRows<K>(st: State<K>, x: Sample<K>)
    requires RowsFaithful(st) && OnTime(st, x)
    ensures RowsFaithful(Accumulated(st, x))
  {
    hide Faithful, Solo, AddSample;
    AppendFaithful(st.fine, Solo(st.fine), st.log, TWENTY_SECONDS, st.swept, x);
    AppendFaithful(st.mid, st.midCover, st.log, TWO_MINUTES, st.swept, x);
    AppendFaithful(st.coarse, st.coarseCover, st.log, ONE_HOUR, st.swept, x);
  }

  lemma AccumulateWindows<K>(st: State<K>, x: Sample<K>, s: Slot<K>)
    requires st.mid.Keys == st.midCover.Keys && st.coarse.Keys == st.coarseCover.Keys
    requires RowsTimely(st) && ClocksHold(st) && OnTime(st, x)
    requires s in Slots(st.log) ==> MidMisses(st, s) && HourMisses(st, s)
    requires s in Slots(st.log) && Tracked(st, s.series) ==>
      HasMid(st, s, st.rolledMid) && HasHour(st, s, st.rolledCoarse)
    requires s in Slots(st.log + [x])
    ensures MidMisses(Accumulated(st, x), s) && HourMisses(Accumulated(st, x), s)
    ensures Tracked(st, s.series) ==>
      HasMid(Accumulated(st, x), s, st.rolledMid) && HasHour(Accumulated(st, x), s, st.rolledCoarse)
  {
    SlotsAppend(st.log, x);
    if s == SampleSlot(x) {
      NoRowYet(st, x);
    }
  }

  lemma AccumulateKeeps<K>(st: State<K>, x: Sample<K>)
    requires Inv(st) && OnTime(st, x)
    ensures Inv(Accumulated(st, x))
  {
    hide Faithful, OpenHolds, NothingLost, Solo, AddSample, SampleSlot, MidMisses, HourMisses, HasMid, HasHour, Slots;
    AccumulateOpen(st, x);
    AccumulateRows(st, x);
    var next := Accumulated(st, x);
    KeysMatch(st);
    forall s | s in Slots(next.log) ensures MidMisses(next, s) && HourMisses(next, s) {
      AccumulateWindows(st, x, s);
    }
    forall s | s in Slots(next.log) && Tracked(next, s.series)
      ensures HasMid(next, s, next.rolledMid) && HasHour(next, s, next.rolledCoarse)
    {
      AccumulateWindows(st, x, s);
    }
  }

  // ----- flushing

  /** Time passes. */
  function Tick<K(==)>(st: State<K>, now: int): State<K> { st.(clock := now) }

  lemma TickKeeps<K>(st: State<K>, now: int)
    requires Inv(st) && st.clock <= now
    ensures Inv(Tick(st, now))
  {
    hide Faithful, RowsComplete, RowsExist, TallyOf, Slots;
    var next := Tick(st, now);
    forall s | s in Slots(next.log) ensures Kept(next, s) { assert Kept(st, s); }
    SameWindows(st, next);
  }

  /** A flush begins. */
  function Swept<K(==)>(st: State<K>): State<K> { st.(swept := st.clock) }

  lemma SweptKeeps<K>(st: State<K>)
    requires Inv(st)
    ensures Inv(Swept(st))
  {
    hide Faithful, Solo, RowsComplete, RowsExist, TallyOf, Slots;
    var next := Swept(st);
    LaterFaithful(st.fine, Solo(st.fine), st.log, TWENTY_SECONDS, st.swept, st.clock);
    LaterFaithful(st.mid, st.midCover, st.log, TWO_MINUTES, st.swept, st.clock);
    LaterFaithful(st.coarse, st.coarseCover, st.log, ONE_HOUR, st.swept, st.clock);
    forall s | s in Slots(next.log) ensures Kept(next, s) { assert Kept(st, s); }
    SameWindows(st, next);
  }

  /** The statements about a window's rows depend on the rows and the cutoffs only. */
  lemma SameWindows<K>(st: State<K>, next: State<K>)
    requires st.log == next.log && st.gpm == next.gpm
    requires st.mid == next.mid && st.midCover == next.midCover && st.rolledMid == next.rolledMid
    requires st.coarse == next.coarse && st.coarseCover == next.coarseCover && st.rolledCoarse == next.rolledCoarse
    requires st.cutFine == next.cutFine && st.cutMid == next.cutMid && st.cutCoarse == next.cutCoarse
    requires RowsFaithful(st) && RowsFaithful(next) && RowsComplete(st) && RowsExist(st)
    ensures RowsComplete(next) && RowsExist(next)
  {
    hide Slots, Faithful, Target;
    KeysMatch(st);
    KeysMatch(next);
    forall s | s in Slots(next.log) ensures MidMisses(next, s) && HourMisses(next, s) {
      assert MidMisses(st, s) && HourMisses(st, s);
    }
    forall s | s in Slots(next.log) && Tracked(next, s.series)
      ensures HasMid(next, s, next.rolledMid) && HasHour(next, s, next.rolledCoarse)
    {
      assert HasMid(st, s, st.rolledMid) && HasHour(st, s, st.rolledCoarse);
    }
  }

  function ReadyRows<K(==)>(open: map<Slot<K>, Tally>, now: int, gpu: bool): Table<K> {
    map s | s in open && Closed(s.start, now) && s.series.Gpu? == gpu :: RowFrom(open[s])
  }

  function Written<K(==)>(st: State<K>, gpu: bool): State<K> {
    st.(fine := st.fine + ReadyRows(st.open, st.swept, gpu))
  }

  lemma {:induction false} SlotsAligned<K>(log: seq<Sample<K>>, s: Slot<K>)
    requires s in Slots(log)
    ensures Target(s.start, TWENTY_SECONDS) == s.start
  {
    var last := SampleSlot(log[|log| - 1]);
    if s == last {
      var n := log[|log| - 1].at / TWENTY_SECONDS;
      assert s.start == n * TWENTY_SECONDS;
    } else {
      SlotsAligned(log[..|log| - 1], s);
    }
  }

  lemma ReadyFaithful<K>(st: State<K>, gpu: bool)
    requires OpenHolds(st)
    ensures var rows := ReadyRows(st.open, st.swept, gpu);
      Faithful(rows, Solo(rows), st.log, TWENTY_SECONDS, st.swept)
  {
    hide TallyOf, RowFrom, Slots, Target;
    var rows := ReadyRows(st.open, st.swept, gpu);
    forall s | s in rows
      ensures Covers(st.log, s, s.start, TWENTY_SECONDS, st.swept)
    {
      SlotsAligned(st.log, s);
      assert s == Slot(s.start, s.series);
    }
  }

  /** A bucket is never flushed a second time with other contents. */
  lemma FlushedAgainTheSame<K>(st: State<K>, gpu: bool, s: Slot<K>)
    requires Inv(st) && s in ReadyRows(st.open, st.swept, gpu) && s in st.fine
    ensures ReadyRows(st.open, st.swept, gpu)[s] == st.fine[s] == RowOf(st.log, s.series, {s.start})
  {
    assert Solo(st.fine)[s] == {s.start};
  }

  lemma SoloOfBoth<K>(a: Table<K>, b: Table<K>)
    ensures Solo(a + b) == Solo(a) + Solo(b)
  {
  }

  lemma WrittenRows<K>(st: State<K>, gpu: bool)
    requires OpenHolds(st) && RowsFaithful(st)
    ensures RowsFaithful(Written(st, gpu))
  {
    hide Faithful, TallyOf, Slots, ReadyRows, Solo;
    var rows := ReadyRows(st.open, st.swept, gpu);
    ReadyFaithful(st, gpu);
    UpsertFaithful(st.fine, Solo(st.fine), rows, Solo(rows), st.log, TWENTY_SECONDS, st.swept);
    SoloOfBoth(st.fine, rows);
  }

  /** A bucket still open is younger than every cutoff. */
  lemma OpenRecent<K>(st: State<K>, s: Slot<K>)
    requires OpenHolds(st) && ClocksHold(st) && s in st.open
    ensures s.start >= st.cutFine
  {
  }

  lemma WrittenRecent<K>(st: State<K>, gpu: bool)
    requires OpenHolds(st) && ClocksHold(st) && RowsRecent(st)
    ensures RowsRecent(Written(st, gpu))
  {
    hide OpenHolds, ClocksHold, RowFrom;
    forall s | s in Written(st, gpu).fine ensures s.start >= st.cutFine {
      if s in st.open { OpenRecent(st, s); }
    }
  }

  lemma WrittenKeeps<K>(st: State<K>, gpu: bool)
    requires Inv(st)
    ensures Inv(Written(st, gpu))
  {
    hide RowsFaithful, RowsComplete, RowsExist, RowsRecent, TallyOf, Slots, Closed, Due, ReadyRows;
    WrittenRows(st, gpu);
    WrittenRecent(st, gpu);
    var next := Written(st, gpu);
    forall s | s in Slots(next.log) ensures Kept(next, s) { assert Kept(st, s); }
    SameWindows(st, next);
  }

  function Cleared<K(==)>(st: State<K>): State<K> {
    st.(open := map s | s in st.open && !Closed(s.start, st.swept) :: st.open[s])
  }

  ghost predicate ReadyWritten<K>(st: State<K>) {
    forall s :: s in st.open && Closed(s.start, st.swept) ==> s in st.fine
  }

  lemma ClearedKeeps<K>(st: State<K>)
    requires Inv(st) && ReadyWritten(st)
    ensures Inv(Cleared(st)) && NoneReady(Cleared(st))
  {
    hide Faithful, RowsComplete, RowsExist, TallyOf, Slots, Closed, Due;
    var next := Cleared(st);
    forall s | s in Slots(next.log) ensures Kept(next, s) { assert Kept(st, s); }
    SameWindows(st, next);
  }

  ghost predicate NoneReady<K>(st: State<K>) {
    forall s :: s in st.open ==> !Closed(s.start, st.swept)
  }

  function MarkFlushed<K(==)>(st: State<K>): State<K> { st.(flushed := st.swept, lastFlush := st.swept) }

  lemma MarkFlushedKeeps<K>(st: State<K>)
    requires Inv(st) && NoneReady(st)
    ensures Inv(MarkFlushed(st))
  {
    hide Faithful, RowsComplete, RowsExist, TallyOf, Slots, Closed;
    var next := MarkFlushed(st);
    forall s | s in Slots(next.log) ensures Kept(next, s) { assert Kept(st, s); }
    SameWindows(st, next);
  }

  // ----- rolling up to 2 m

  ghost function MidRolled<K>(st: State<K>, gpu: bool): State<K>
    requires WellFormed(st.fine)
  {
    st.(mid := st.mid + Rolled(st.fine, TWO_MINUTES, st.clock, gpu),
        midCover := st.midCover + RolledCover(st.fine, Solo(st.fine), TWO_MINUTES, st.clock, gpu),
        midCuts := st.midCuts + {Cutoff(gpu, st.cutFine)})
  }

  lemma TablesWellFormed<K>(st: State<K>)
    requires RowsFaithful(st)
    ensures WellFormed(st.fine) && WellFormed(st.mid) && WellFormed(st.coarse)
    ensures st.mid.Keys == st.midCover.Keys && st.coarse.Keys == st.coarseCover.Keys
  {
    FaithfulColumns(st.fine, Solo(st.fine), st.log, TWENTY_SECONDS, st.swept);
    FaithfulColumns(st.mid, st.midCover, st.log, TWO_MINUTES, st.swept);
    FaithfulColumns(st.coarse, st.coarseCover, st.log, ONE_HOUR, st.swept);
  }

  lemma OnlyDueRolled<K>(source: Table<K>, width: int, now: int, gpu: bool, t: Slot<K>)
    requires width > 0 && WellFormed(source) && t in Rolled(source, width, now, gpu)
    ensures Due(t.start, width, now) && t.series.Gpu? == gpu
  {
  }

  /** The buckets of a due 2 m window are all flushed. */
  lemma WindowFlushed<K>(st: State<K>, s: Slot<K>)
    requires OpenHolds(st) && s in Slots(st.log) && Kept(st, s) && st.clock < st.flushed + FLUSH_INTERVAL
    requires Due(MidSlot(s).start, TWO_MINUTES, st.clock)
    ensures s in st.fine || s.start < st.cutFine
  {
    TargetBounds(s.start, TWO_MINUTES);
    assert Closed(s.start, st.flushed);
  }

  /** A window whose buckets had already been pruned had its row before. */
  lemma PrunedHadMid<K>(st: State<K>, s: Slot<K>)
    requires ClocksHold(st) && s.start < st.cutFine
    ensures Due(MidSlot(s).start, TWO_MINUTES, st.rolledMid)
  {
    TargetBounds(s.start, TWO_MINUTES);
  }

  lemma SourceRolls<K>(source: Table<K>, cover: Cover<K>, log: seq<Sample<K>>, width: int, swept: int,
                       wider: int, now: int, gpu: bool, s: Slot<K>, b: int)
    requires width > 0 && wider > 0 && Faithful(source, cover, log, width, swept)
    requires s in source && b in cover[s] && s.series.Gpu? == gpu && Due(Target(s.start, wider), wider, now)
    ensures WellFormed(source)
    ensures Slot(Target(s.start, wider), s.series) in Rolled(source, wider, now, gpu)
    ensures b in RolledCover(source, cover, wider, now, gpu)[Slot(Target(s.start, wider), s.series)]
  {
    hide Faithful, CoverOf, Rolled, Target;
    FaithfulColumns(source, cover, log, width, swept);
    FaithfulKeys(source, cover, log, width, swept);
    RolledKeys(source, cover, log, width, swept, wider, now, gpu, s);
    CoverHas(source, cover, Slot(Target(s.start, wider), s.series), wider, b);
  }

  lemma FaithfulKeys<K>(table: Table<K>, cover: Cover<K>, log: seq<Sample<K>>, width: int, swept: int)
    requires width > 0 && Faithful(table, cover, log, width, swept)
    ensures table.Keys == cover.Keys
  {
  }

  lemma MidRolledAt<K>(st: State<K>, gpu: bool, t: Slot<K>)
    requires WellFormed(st.fine) && st.mid.Keys == st.midCover.Keys
    ensures var next, rows := MidRolled(st, gpu), Rolled(st.fine, TWO_MINUTES, st.clock, gpu);
      && next.mid.Keys == next.midCover.Keys
      && (t in next.mid <==> t in st.mid || t in rows)
      && (t in rows ==> next.midCover[t] == RolledCover(st.fine, Solo(st.fine), TWO_MINUTES, st.clock, gpu)[t])
      && (t !in rows && t in st.mid ==> next.midCover[t] == st.midCover[t])
  {
    hide Rolled, CoverOf, Solo;
  }

  lemma MidWindow<K>(st: State<K>, gpu: bool, s: Slot<K>)
    requires OpenHolds(st) && RowsFaithful(st) && ClocksHold(st) && st.clock < st.flushed + FLUSH_INTERVAL
    requires s in Slots(st.log) && Kept(st, s) && s.series.Gpu? == gpu
    requires MidMisses(st, s) && HasMid(st, s, st.rolledMid)
    ensures WellFormed(st.fine) && MidRolled(st, gpu).mid.Keys == MidRolled(st, gpu).midCover.Keys
    ensures MidMisses(MidRolled(st, gpu), s) && HasMid(MidRolled(st, gpu), s, st.clock)
  {
    hide Faithful, Rolled, RolledCover, Target, Slots, Kept, OpenHolds, ClocksHold, Due;
    TablesWellFormed(st);
    var t := MidSlot(s);
    MidRolledAt(st, gpu, t);
    assert MidRolled(st, gpu).cutFine == st.cutFine && MidRolled(st, gpu).cutMid == st.cutMid;
    hide MidRolled;
    if Due(t.start, TWO_MINUTES, st.clock) {
      WindowFlushed(st, s);
      if s in st.fine {
        assert s.start in Solo(st.fine)[s];
        SourceRolls(st.fine, Solo(st.fine), st.log, TWENTY_SECONDS, st.swept, TWO_MINUTES, st.clock, gpu, s, s.start);
      } else {
        PrunedHadMid(st, s);
      }
    } else if t in Rolled(st.fine, TWO_MINUTES, st.clock, gpu) {
      OnlyDueRolled(st.fine, TWO_MINUTES, st.clock, gpu, t);
    }
  }

  /** Every due window of the family has its row. */
  ghost predicate MidUpTo<K>(st: State<K>, gpu: bool) {
    forall s :: s in Slots(st.log) && s.series.Gpu? == gpu ==> HasMid(st, s, st.clock)
  }

  lemma MidRolledRows<K>(st: State<K>, gpu: bool)
    requires RowsFaithful(st)
    ensures WellFormed(st.fine) && RowsFaithful(MidRolled(st, gpu))
  {
    hide Faithful, Rolled, RolledCover, Solo;
    TablesWellFormed(st);
    RolledFaithful(st.fine, Solo(st.fine), st.log, TWENTY_SECONDS, st.swept, TWO_MINUTES, 6, st.clock, gpu);
    UpsertFaithful(st.mid, st.midCover, Rolled(st.fine, TWO_MINUTES, st.clock, gpu),
                   RolledCover(st.fine, Solo(st.fine), TWO_MINUTES, st.clock, gpu), st.log, TWO_MINUTES, st.swept);
  }

  lemma OtherTable<K>(st: State<K>, gpu: bool, s: Slot<K>)
    requires RowsFaithful(st) && s.series.Gpu? != gpu
    ensures WellFormed(st.fine) && MidRolled(st, gpu).mid.Keys == MidRolled(st, gpu).midCover.Keys
    requires MidMisses(st, s)
    ensures MidMisses(MidRolled(st, gpu), s)
    ensures forall until :: HasMid(st, s, until) ==> HasMid(MidRolled(st, gpu), s, until)
  {
    hide Faithful, Rolled, RolledCover, Target, Due;
    TablesWellFormed(st);
    MidRolledAt(st, gpu, MidSlot(s));
    if MidSlot(s) in Rolled(st.fine, TWO_MINUTES, st.clock, gpu) {
      OnlyDueRolled(st.fine, TWO_MINUTES, st.clock, gpu, MidSlot(s));
    }
  }

  lemma DueLater(start: int, width: int, now: int, later: int)
    requires now <= later && Due(start, width, now)
    ensures Due(start, width, later)
  {
  }

  lemma MidTimely<K>(st: State<K>, gpu: bool)
    requires WellFormed(st.fine) && RowsTimely(st) && st.clock < st.flushed + FLUSH_INTERVAL
    ensures RowsTimely(MidRolled(st, gpu))
  {
    hide Rolled, RolledCover;
    forall t | t in MidRolled(st, gpu).mid ensures TimelyAt(st, t.start, TWO_MINUTES) {
      if t in Rolled(st.fine, TWO_MINUTES, st.clock, gpu) {
        OnlyDueRolled(st.fine, TWO_MINUTES, st.clock, gpu, t);
      }
    }
  }

  /** A row is not written from rows so much younger that its own table would have dropped it. */
  lemma MidRecent<K>(st: State<K>, gpu: bool)
    requires WellFormed(st.fine) && RowsRecent(st) && ClocksHold(st)
    ensures RowsRecent(MidRolled(st, gpu))
  {
    hide Rolled, RolledCover, Target;
    forall t | t in MidRolled(st, gpu).mid ensures t.start >= st.cutMid {
      if t in Rolled(st.fine, TWO_MINUTES, st.clock, gpu) {
        RolledFrom(st.fine, TWO_MINUTES, st.clock, gpu, t);
        var s :| s in st.fine && s.series == t.series && Target(s.start, TWO_MINUTES) == t.start;
        TargetBounds(s.start, TWO_MINUTES);
      }
    }
  }

  lemma MidStep<K>(st: State<K>, gpu: bool, s: Slot<K>)
    requires Inv(st) && st.clock < st.flushed + FLUSH_INTERVAL && (gpu || st.gpm) && s in Slots(st.log)
    ensures WellFormed(st.fine) && RowsFaithful(MidRolled(st, gpu))
    ensures MidMisses(MidRolled(st, gpu), s)
    ensures Tracked(st, s.series) ==> HasMid(MidRolled(st, gpu), s, st.rolledMid)
    ensures s.series.Gpu? == gpu ==> HasMid(MidRolled(st, gpu), s, st.clock)
    ensures s.series.Gpu? != gpu && HasMid(st, s, st.clock) ==> HasMid(MidRolled(st, gpu), s, st.clock)
  {
    hide Faithful, Slots, Target, MidRolled, OpenHolds, RowsTimely, Kept;
    MidRolledRows(st, gpu);
    KeysMatch(st);
    KeysMatch(MidRolled(st, gpu));
    assert MidMisses(st, s) && Kept(st, s);
    assert Tracked(st, s.series) ==> HasMid(st, s, st.rolledMid);
    if s.series.Gpu? == gpu {
      MidWindow(st, gpu, s);
      if Due(MidSlot(s).start, TWO_MINUTES, st.rolledMid) {
        DueLater(MidSlot(s).start, TWO_MINUTES, st.rolledMid, st.clock);
      }
    } else {
      OtherTable(st, gpu, s);
    }
  }

  lemma SameHour<K>(st: State<K>, next: State<K>, s: Slot<K>)
    requires st.coarse == next.coarse && st.coarseCover == next.coarseCover && st.coarse.Keys == st.coarseCover.Keys
    requires st.cutFine == next.cutFine && st.cutMid == next.cutMid && st.cutCoarse == next.cutCoarse
    ensures HourMisses(next, s) == HourMisses(st, s)
    ensures forall until :: HasHour(next, s, until) == HasHour(st, s, until)
  {
  }

  /** A rollup of 20 s rows changes the 2 m rows only. */
  lemma MidFields<K>(st: State<K>, gpu: bool)
    requires WellFormed(st.fine)
    ensures MidRolled(st, gpu) == st.(mid := MidRolled(st, gpu).mid, midCover := MidRolled(st, gpu).midCover,
                                      midCuts := st.midCuts + {Cutoff(gpu, st.cutFine)})
  {
  }

  lemma MidComplete<K>(st: State<K>, gpu: bool)
    requires Inv(st) && st.clock < st.flushed + FLUSH_INTERVAL && (gpu || st.gpm)
    ensures WellFormed(st.fine) && RowsFaithful(MidRolled(st, gpu))
    ensures RowsComplete(MidRolled(st, gpu)) && RowsExist(MidRolled(st, gpu)) && MidUpTo(MidRolled(st, gpu), gpu)
    ensures MidUpTo(st, !gpu) ==> MidUpTo(MidRolled(st, gpu), !gpu)
  {
    hide Faithful, Slots, MidRolled, RowsFaithful, RowsTimely, OpenHolds, NothingLost, ClocksHold, MidMisses,
      HourMisses, HasMid, HasHour;
    MidRolledRows(st, gpu);
    MidFields(st, gpu);
    KeysMatch(st);
    var next := MidRolled(st, gpu);
    KeysMatch(next);
    forall s | s in Slots(next.log)
      ensures MidMisses(next, s) && HourMisses(next, s)
      ensures Tracked(next, s.series) ==> HasMid(next, s, next.rolledMid) && HasHour(next, s, next.rolledCoarse)
      ensures s.series.Gpu? == gpu || MidUpTo(st, !gpu) ==> HasMid(next, s, next.clock)
    {
      assert MidMisses(st, s) && HourMisses(st, s);
      MidStep(st, gpu, s);
      SameHour(st, next, s);
    }
  }

  /** A rollup of the 20 s rows of one table keeps the invariant, if a flush came less than
      ten seconds before it. */
  lemma MidRolledKeeps<K>(st: State<K>, gpu: bool)
    requires Inv(st) && st.clock < st.flushed + FLUSH_INTERVAL && (gpu || st.gpm)
    ensures WellFormed(st.fine) && Inv(MidRolled(st, gpu)) && MidUpTo(MidRolled(st, gpu), gpu)
    ensures MidUpTo(st, !gpu) ==> MidUpTo(MidRolled(st, gpu), !gpu)
  {
    hide Faithful, Slots, RowsFaithful, RowsTimely, RowsRecent, RowsComplete, RowsExist, MidUpTo, MidRolled, TallyOf;
    MidComplete(st, gpu);
    MidTimely(st, gpu);
    MidRecent(st, gpu);
    MidFields(st, gpu);
    var next := MidRolled(st, gpu);
    forall s | s in Slots(next.log) ensures Kept(next, s) { assert Kept(st, s); }
  }

  function MarkMid<K(==)>(st: State<K>): State<K> { st.(rolledMid := st.clock, lastMid := st.clock) }

  lemma MarkMidKeeps<K>(st: State<K>)
    requires Inv(st) && st.clock < st.flushed + FLUSH_INTERVAL && MidUpTo(st, true) && (st.gpm ==> MidUpTo(st, false))
    ensures Inv(MarkMid(st))
  {
    hide Faithful, Slots, Target, TallyOf, HourMisses, MidMisses, HasMid, HasHour;
    var next := MarkMid(st);
    KeysMatch(st);
    forall s | s in Slots(next.log) ensures Kept(next, s) && MidMisses(next, s) && HourMisses(next, s) {
      assert Kept(st, s) && MidMisses(st, s) && HourMisses(st, s);
      SameMid(st, next, s);
      SameHour(st, next, s);
    }
    forall s | s in Slots(next.log) && Tracked(next, s.series)
      ensures HasMid(next, s, next.rolledMid) && HasHour(next, s, next.rolledCoarse)
    {
      assert HasHour(st, s, st.rolledCoarse) && HasMid(st, s, st.clock);
      SameMid(st, next, s);
      SameHour(st, next, s);
    }
  }

  lemma SameMid<K>(st: State<K>, next: State<K>, s: Slot<K>)
    requires st.mid == next.mid && st.midCover == next.midCover && st.mid.Keys == st.midCover.Keys
    requires st.cutFine == next.cutFine && st.cutMid == next.cutMid
    ensures MidMisses(next, s) == MidMisses(st, s)
    ensures forall until :: HasMid(next, s, until) == HasMid(st, s, until)
  {
  }

  // ----- rolling up to 1 h

  ghost function HourRolled<K>(st: State<K>, gpu: bool): State<K>
    requires WellFormed(st.mid) && st.mid.Keys == st.midCover.Keys
  {
    st.(coarse := st.coarse + Rolled(st.mid, ONE_HOUR, st.clock, gpu),
        coarseCover := st.coarseCover + RolledCover(st.mid, st.midCover, ONE_HOUR, st.clock, gpu),
        hourCuts := st.hourCuts + {HourCut(gpu, st.cutMid, st.midCuts)})
  }

  lemma HourFields<K>(st: State<K>, gpu: bool)
    requires WellFormed(st.mid) && st.mid.Keys == st.midCover.Keys
    ensures HourRolled(st, gpu)
      == st.(coarse := HourRolled(st, gpu).coarse, coarseCover := HourRolled(st, gpu).coarseCover,
             hourCuts := st.hourCuts + {HourCut(gpu, st.cutMid, st.midCuts)})
  {
  }

  /** The 2 m windows of a due hour have all been rolled up. */
  lemma HourRolledUp<K>(st: State<K>, s: Slot<K>)
    requires st.clock < st.rolledMid + TWO_MINUTES && Due(HourSlot(s).start, ONE_HOUR, st.clock)
    ensures Due(MidSlot(s).start, TWO_MINUTES, st.rolledMid)
  {
    TargetBounds(s.start, TWO_MINUTES);
    TargetBounds(s.start, ONE_HOUR);
  }

  lemma HourOfMid<K>(s: Slot<K>)
    ensures HourSlot(MidSlot(s)) == HourSlot(s)
  {
    TargetNested(s.start, TWO_MINUTES, ONE_HOUR, 30);
  }

  /** An hour with a pruned 2 m row had its row before. */
  lemma PrunedHadHour<K>(st: State<K>, s: Slot<K>)
    requires ClocksHold(st) && MidSlot(s).start < st.cutMid
    ensures Due(HourSlot(s).start, ONE_HOUR, st.rolledCoarse)
  {
    TargetBounds(s.start, TWO_MINUTES);
    TargetBounds(s.start, ONE_HOUR);
  }

  lemma HourRolledAt<K>(st: State<K>, gpu: bool, t: Slot<K>)
    requires WellFormed(st.mid) && st.mid.Keys == st.midCover.Keys && st.coarse.Keys == st.coarseCover.Keys
    ensures var next, rows := HourRolled(st, gpu), Rolled(st.mid, ONE_HOUR, st.clock, gpu);
      && next.coarse.Keys == next.coarseCover.Keys
      && (t in next.coarse <==> t in st.coarse || t in rows)
      && (t in rows ==> next.coarseCover[t] == RolledCover(st.mid, st.midCover, ONE_HOUR, st.clock, gpu)[t])
      && (t !in rows && t in st.coarse ==> next.coarseCover[t] == st.coarseCover[t])
  {
    hide Rolled, CoverOf;
  }

  /** Every 20 s bucket a due hour's row misses was pruned, or its 2 m row was. */
  lemma HourCovered<K>(st: State<K>, gpu: bool, s: Slot<K>)
    requires RowsFaithful(st) && st.clock < st.rolledMid + TWO_MINUTES && s.series.Gpu? == gpu
    requires MidMisses(st, s) && HasMid(st, s, st.rolledMid) && Due(HourSlot(s).start, ONE_HOUR, st.clock)
    ensures WellFormed(st.mid)
    ensures MidSlot(s) in st.mid ==> HourSlot(s) in Rolled(st.mid, ONE_HOUR, st.clock, gpu)
    ensures MidSlot(s) in st.mid && s.start in st.midCover[MidSlot(s)] ==>
      s.start in RolledCover(st.mid, st.midCover, ONE_HOUR, st.clock, gpu)[HourSlot(s)]
    ensures MidSlot(s) in st.mid || MidSlot(s).start < st.cutMid
  {
    hide Faithful, Rolled, RolledCover, Target;
    TablesWellFormed(st);
    HourRolledUp(st, s);
    HourOfMid(s);
    var w := MidSlot(s);
    if w in st.mid {
      RolledKeys(st.mid, st.midCover, st.log, TWO_MINUTES, st.swept, ONE_HOUR, st.clock, gpu, w);
      if s.start in st.midCover[w] {
        SourceRolls(st.mid, st.midCover, st.log, TWO_MINUTES, st.swept, ONE_HOUR, st.clock, gpu, w, s.start);
      }
    }
  }

  lemma HourWindow<K>(st: State<K>, gpu: bool, s: Slot<K>)
    requires RowsFaithful(st) && ClocksHold(st) && st.clock < st.rolledMid + TWO_MINUTES && s.series.Gpu? == gpu
    requires MidMisses(st, s) && HasMid(st, s, st.rolledMid) && HourMisses(st, s) && HasHour(st, s, st.rolledCoarse)
    ensures WellFormed(st.mid) && HourRolled(st, gpu).coarse.Keys == HourRolled(st, gpu).coarseCover.Keys
    ensures HourMisses(HourRolled(st, gpu), s) && HasHour(HourRolled(st, gpu), s, st.clock)
  {
    hide Faithful, Rolled, RolledCover, Target, ClocksHold, Due;
    TablesWellFormed(st);
    var t := HourSlot(s);
    HourRolledAt(st, gpu, t);
    HourFields(st, gpu);
    hide HourRolled;
    if Due(t.start, ONE_HOUR, st.clock) {
      HourCovered(st, gpu, s);
      if MidSlot(s) !in st.mid {
        PrunedHadHour(st, s);
      }
    } else if t in Rolled(st.mid, ONE_HOUR, st.clock, gpu) {
      OnlyDueRolled(st.mid, ONE_HOUR, st.clock, gpu, t);
    }
  }

  lemma OtherHour<K>(st: State<K>, gpu: bool, s: Slot<K>)
    requires RowsFaithful(st) && s.series.Gpu? != gpu && HourMisses(st, s)
    ensures WellFormed(st.mid) && HourRolled(st, gpu).coarse.Keys == HourRolled(st, gpu).coarseCover.Keys
    ensures HourMisses(HourRolled(st, gpu), s)
    ensures forall until :: HasHour(st, s, until) ==> HasHour(HourRolled(st, gpu), s, until)
  {
    hide Faithful, Rolled, RolledCover, Target, Due;
    TablesWellFormed(st);
    HourRolledAt(st, gpu, HourSlot(s));
    if HourSlot(s) in Rolled(st.mid, ONE_HOUR, st.clock, gpu) {
      OnlyDueRolled(st.mid, ONE_HOUR, st.clock, gpu, HourSlot(s));
    }
  }

  /** Every due hour of the family has its row. */
  ghost predicate HourUpTo<K>(st: State<K>, gpu: bool) {
    forall s :: s in Slots(st.log) && s.series.Gpu? == gpu ==> HasHour(st, s, st.clock)
  }

  lemma HourRows<K>(st: State<K>, gpu: bool)
    requires RowsFaithful(st)
    ensures WellFormed(st.mid) && st.mid.Keys == st.midCover.Keys && RowsFaithful(HourRolled(st, gpu))
  {
    hide Faithful, Rolled, RolledCover;
    TablesWellFormed(st);
    RolledFaithful(st.mid, st.midCover, st.log, TWO_MINUTES, st.swept, ONE_HOUR, 30, st.clock, gpu);
    UpsertFaithful(st.coarse, st.coarseCover, Rolled(st.mid, ONE_HOUR, st.clock, gpu),
                   RolledCover(st.mid, st.midCover, ONE_HOUR, st.clock, gpu), st.log, ONE_HOUR, st.swept);
  }

  lemma HourTimely<K>(st: State<K>, gpu: bool)
    requires WellFormed(st.mid) && st.mid.Keys == st.midCover.Keys
    requires RowsTimely(st) && st.clock < st.flushed + FLUSH_INTERVAL
    ensures RowsTimely(HourRolled(st, gpu))
  {
    hide Rolled, RolledCover;
    forall t | t in HourRolled(st, gpu).coarse ensures TimelyAt(st, t.start, ONE_HOUR) {
      if t in Rolled(st.mid, ONE_HOUR, st.clock, gpu) {
        OnlyDueRolled(st.mid, ONE_HOUR, st.clock, gpu, t);
      }
    }
  }

  lemma HourStep<K>(st: State<K>, gpu: bool, s: Slot<K>)
    requires Inv(st) && st.clock < st.rolledMid + TWO_MINUTES && (gpu || st.gpm) && s in Slots(st.log)
    ensures WellFormed(st.mid) && st.mid.Keys == st.midCover.Keys && RowsFaithful(HourRolled(st, gpu))
    ensures HourMisses(HourRolled(st, gpu), s)
    ensures Tracked(st, s.series) ==> HasHour(HourRolled(st, gpu), s, st.rolledCoarse)
    ensures s.series.Gpu? == gpu ==> HasHour(HourRolled(st, gpu), s, st.clock)
    ensures s.series.Gpu? != gpu && HasHour(st, s, st.clock) ==> HasHour(HourRolled(st, gpu), s, st.clock)
  {
    hide Faithful, Slots, Target, HourRolled, OpenHolds, NothingLost, RowsTimely;
    HourRows(st, gpu);
    KeysMatch(st);
    KeysMatch(HourRolled(st, gpu));
    assert MidMisses(st, s) && HourMisses(st, s);
    assert Tracked(st, s.series) ==> HasHour(st, s, st.rolledCoarse) && HasMid(st, s, st.rolledMid);
    if s.series.Gpu? == gpu {
      HourWindow(st, gpu, s);
      if Due(HourSlot(s).start, ONE_HOUR, st.rolledCoarse) {
        DueLater(HourSlot(s).start, ONE_HOUR, st.rolledCoarse, st.clock);
      }
    } else {
      OtherHour(st, gpu, s);
    }
  }

  lemma HourComplete<K>(st: State<K>, gpu: bool)
    requires Inv(st) && st.clock < st.rolledMid + TWO_MINUTES && (gpu || st.gpm)
    ensures WellFormed(st.mid) && st.mid.Keys == st.midCover.Keys && RowsFaithful(HourRolled(st, gpu))
    ensures RowsComplete(HourRolled(st, gpu)) && RowsExist(HourRolled(st, gpu)) && HourUpTo(HourRolled(st, gpu), gpu)
    ensures HourUpTo(st, !gpu) ==> HourUpTo(HourRolled(st, gpu), !gpu)
  {
    hide Faithful, Slots, HourRolled, RowsFaithful, RowsTimely, OpenHolds, NothingLost, ClocksHold, MidMisses,
      HourMisses, HasMid, HasHour;
    HourRows(st, gpu);
    HourFields(st, gpu);
    KeysMatch(st);
    var next := HourRolled(st, gpu);
    KeysMatch(next);
    forall s | s in Slots(next.log)
      ensures MidMisses(next, s) && HourMisses(next, s)
      ensures Tracked(next, s.series) ==> HasMid(next, s, next.rolledMid) && HasHour(next, s, next.rolledCoarse)
      ensures s.series.Gpu? == gpu || HourUpTo(st, !gpu) ==> HasHour(next, s, next.clock)
    {
      assert MidMisses(st, s) && HourMisses(st, s);
      HourStep(st, gpu, s);
      SameMid(st, next, s);
    }
  }

  /** A rollup of 2 m rows keeps the invariant, if they were themselves rolled up less than two
      minutes before. */
  lemma HourRolledKeeps<K>(st: State<K>, gpu: bool)
    requires Inv(st) && st.clock < st.rolledMid + TWO_MINUTES && st.clock < st.flushed + FLUSH_INTERVAL
    requires gpu || st.gpm
    ensures WellFormed(st.mid) && st.mid.Keys == st.midCover.Keys
    ensures Inv(HourRolled(st, gpu)) && HourUpTo(HourRolled(st, gpu), gpu)
    ensures HourUpTo(st, !gpu) ==> HourUpTo(HourRolled(st, gpu), !gpu)
  {
    hide Faithful, Slots, RowsFaithful, RowsTimely, RowsComplete, RowsExist, HourUpTo, HourRolled, TallyOf;
    HourComplete(st, gpu);
    HourTimely(st, gpu);
    HourFields(st, gpu);
    var next := HourRolled(st, gpu);
    forall s | s in Slots(next.log) ensures Kept(next, s) { assert Kept(st, s); }
  }

  function MarkHour<K(==)>(st: State<K>): State<K> { st.(rolledCoarse := st.clock, lastHour := st.clock) }

  lemma MarkHourKeeps<K>(st: State<K>)
    requires Inv(st) && st.clock < st.rolledMid + TWO_MINUTES && HourUpTo(st, true) && (st.gpm ==> HourUpTo(st, false))
    ensures Inv(MarkHour(st))
  {
    hide Faithful, Slots, Target, TallyOf, HourMisses, MidMisses, HasMid, HasHour;
    var next := MarkHour(st);
    KeysMatch(st);
    forall s | s in Slots(next.log) ensures Kept(next, s) && MidMisses(next, s) && HourMisses(next, s) {
      assert Kept(st, s) && MidMisses(st, s) && HourMisses(st, s);
      SameMid(st, next, s);
      SameHour(st, next, s);
    }
    forall s | s in Slots(next.log) && Tracked(next, s.series)
      ensures HasMid(next, s, next.rolledMid) && HasHour(next, s, next.rolledCoarse)
    {
      assert HasHour(st, s, st.clock) && HasMid(st, s, st.rolledMid);
      SameMid(st, next, s);
      SameHour(st, next, s);
    }
  }

  // ----- pruning

  ghost function PrunedState<K>(st: State<K>): State<K> {
    var a, b, c := st.clock - FINE_RETENTION, st.clock - MID_RETENTION, st.clock - COARSE_RETENTION;
    st.(fine := Pruned(st.fine, a), mid := Pruned(st.mid, b), coarse := Pruned(st.coarse, c),
        midCover := Cut(st.midCover, b), coarseCover := Cut(st.coarseCover, c),
        cutFine := a, cutMid := b, cutCoarse := c)
  }

  lemma SoloCut<K>(table: Table<K>, cutoff: int)
    ensures Solo(Pruned(table, cutoff)) == Cut(Solo(table), cutoff)
  {
  }

  lemma PrunedRows<K>(st: State<K>)
    requires RowsFaithful(st)
    ensures RowsFaithful(PrunedState(st))
  {
    var a, b, c := st.clock - FINE_RETENTION, st.clock - MID_RETENTION, st.clock - COARSE_RETENTION;
    hide Faithful, Solo, Pruned, Cut;
    PrunedFaithful(st.fine, Solo(st.fine), st.log, TWENTY_SECONDS, st.swept, a);
    PrunedFaithful(st.mid, st.midCover, st.log, TWO_MINUTES, st.swept, b);
    PrunedFaithful(st.coarse, st.coarseCover, st.log, ONE_HOUR, st.swept, c);
    SoloCut(st.fine, a);
  }

  lemma PrunedWindow<K>(st: State<K>, s: Slot<K>)
    requires RowsFaithful(st) && ClocksHold(st) && MidMisses(st, s) && HourMisses(st, s)
    ensures RowsFaithful(PrunedState(st)) && MidMisses(PrunedState(st), s) && HourMisses(PrunedState(st), s)
    ensures forall until :: HasMid(st, s, until) ==> HasMid(PrunedState(st), s, until)
    ensures forall until :: HasHour(st, s, until) ==> HasHour(PrunedState(st), s, until)
  {
    hide Faithful, Target;
    PrunedRows(st);
    KeysMatch(st);
  }

  lemma PrunedRecent<K>(st: State<K>)
    ensures RowsRecent(PrunedState(st))
  {
  }

  /** Pruning keeps the invariant, if both rollups are recent. */
  lemma PrunedKeeps<K>(st: State<K>)
    requires Inv(st) && st.clock < st.rolledMid + TWO_MINUTES && st.clock < st.rolledCoarse + ONE_HOUR
    ensures Inv(PrunedState(st))
  {
    hide Faithful, Slots, RowsFaithful, RowsRecent, MidMisses, HourMisses, HasMid, HasHour, TallyOf;
    PrunedRows(st);
    PrunedRecent(st);
    var next := PrunedState(st);
    KeysMatch(st);
    forall s | s in Slots(next.log) ensures Kept(next, s) { assert Kept(st, s); }
    KeysMatch(next);
    forall s | s in Slots(next.log)
      ensures MidMisses(next, s) && HourMisses(next, s)
      ensures Tracked(next, s.series) ==> HasMid(next, s, next.rolledMid) && HasHour(next, s, next.rolledCoarse)
    {
      assert MidMisses(st, s) && HourMisses(st, s);
      PrunedWindow(st, s);
    }
  }
}
