/** Whole runs of the sink: snapshots accumulated and maintenance scheduled by its cadences,
    with any database call failing (db.py, AsyncDBSink._run_scheduled_maintenance). */
module RollupRuns {
  import opened Rollup
  import opened RollupTables
  import opened RollupPipeline
  import opened RollupMeaning
  import opened RollupHistory
  import opened RollupRestart

  /** Which database calls of one maintenance run succeed. */
  datatype Outcome = Outcome(writeGpu: bool, writeGpm: bool, midGpu: bool, midGpm: bool,
                             hourGpu: bool, hourGpm: bool, prune: bool, pruneRaw: bool)

  /** Rows and tallies have the columns of their tables. */
  ghost predicate Shaped<K>(st: State<K>) {
    && WellFormed(st.fine) && WellFormed(st.mid) && WellFormed(st.coarse)
    && st.mid.Keys == st.midCover.Keys
    && forall s :: s in st.open ==> st.open[s].parts.Keys == Columns(s.series)
  }

  lemma HeldShaped<K>(st: State<K>)
    requires Held(st)
    ensures Shaped(st)
  {
    hide RowOf, Faithful, Columns, MidHistory, HourHistory, CutsHold;
    TablesWellFormed(st);
  }

  lemma TickShaped<K>(st: State<K>, now: int)
    requires Shaped(st)
    ensures Shaped(Tick(st, now))
  {
  }

  lemma AccumulatedShaped<K>(st: State<K>, x: Sample<K>)
    requires Shaped(st)
    ensures Shaped(Accumulated(st, x))
  {
    hide Columns, WellFormed;
  }

  lemma WrittenShaped<K>(st: State<K>, gpu: bool)
    requires Shaped(st)
    ensures Shaped(Written(st, gpu))
  {
    hide Columns;
  }

  lemma ClearedShaped<K>(st: State<K>)
    requires Shaped(st)
    ensures Shaped(Cleared(st))
  {
    hide Columns, WellFormed;
  }

  lemma RolledWellFormed<K>(table: Table<K>, source: Table<K>, width: int, now: int, gpu: bool)
    requires WellFormed(table) && WellFormed(source) && width > 0
    ensures WellFormed(table + Rolled(source, width, now, gpu))
  {
    hide Columns, SumColumn, Blend, TargetSlots, SumExpected, GroupRows;
  }

  lemma MidShaped<K>(st: State<K>, gpu: bool)
    requires Shaped(st)
    ensures Shaped(MidRolled(st, gpu))
  {
    hide Columns, WellFormed, Rolled, CoverOf;
    RolledWellFormed(st.mid, st.fine, TWO_MINUTES, st.clock, gpu);
  }

  lemma HourShaped<K>(st: State<K>, gpu: bool)
    requires Shaped(st)
    ensures Shaped(HourRolled(st, gpu))
  {
    hide Columns, WellFormed, Rolled, RolledCover;
    RolledWellFormed(st.coarse, st.mid, ONE_HOUR, st.clock, gpu);
  }

  lemma PrunedShaped<K>(st: State<K>)
    requires Shaped(st)
    ensures Shaped(PrunedState(st))
  {
    hide Columns;
  }

  /** Flushing and rolling up change neither the log nor the cutoffs. */
  ghost predicate Same<K>(st: State<K>, next: State<K>) {
    && st.log == next.log && st.clock == next.clock && st.gpm == next.gpm
    && st.cutFine == next.cutFine && st.cutMid == next.cutMid && st.cutCoarse == next.cutCoarse
  }

  // ----- one maintenance run

  /** flush_rollups: both tables are written before any bucket is dropped. */
  ghost function FlushStep<K>(st: State<K>, o: Outcome): (next: State<K>)
    requires Shaped(st)
    ensures Shaped(next) && Same(st, next)
  {
    var swept := Swept(st);
    if !o.writeGpu then swept
    else
      WrittenShaped(swept, true);
      var one := Written(swept, true);
      if !o.writeGpm then one
      else
        WrittenShaped(one, false);
        ClearedShaped(Written(one, false));
        Cleared(Written(one, false))
  }

  predicate FlushIsDue<K>(st: State<K>) { st.clock - st.lastFlush >= FLUSH_INTERVAL }

  ghost function FlushDue<K>(st: State<K>, o: Outcome): (next: State<K>)
    requires Shaped(st)
    ensures Shaped(next) && Same(st, next)
  {
    if !FlushIsDue(st) then st
    else if o.writeGpu && o.writeGpm then MarkFlushed(FlushStep(st, o))
    else FlushStep(st, o)
  }

  predicate FlushOk<K>(st: State<K>, o: Outcome) { FlushIsDue(st) ==> o.writeGpu && o.writeGpm }

  ghost function MidStepped<K>(st: State<K>, o: Outcome): (next: State<K>)
    requires Shaped(st)
    ensures Shaped(next) && Same(st, next)
  {
    if !o.midGpu then st
    else
      MidShaped(st, true);
      var one := MidRolled(st, true);
      if !st.gpm then MarkMid(one)
      else if !o.midGpm then one
      else
        MidShaped(one, false);
        MarkMid(MidRolled(one, false))
  }

  predicate MidIsDue<K>(st: State<K>) { st.clock - st.lastMid >= TWO_MINUTES }

  ghost function MidDue<K>(st: State<K>, o: Outcome): (next: State<K>)
    requires Shaped(st)
    ensures Shaped(next) && Same(st, next)
  {
    if MidIsDue(st) then MidStepped(st, o) else st
  }

  predicate MidOk<K>(st: State<K>, o: Outcome) { MidIsDue(st) ==> o.midGpu && (st.gpm ==> o.midGpm) }

  ghost function HourStepped<K>(st: State<K>, o: Outcome): (next: State<K>)
    requires Shaped(st)
    ensures Shaped(next) && Same(st, next)
  {
    if !o.hourGpu then st
    else
      HourShaped(st, true);
      var one := HourRolled(st, true);
      if !st.gpm then MarkHour(one)
      else if !o.hourGpm then one
      else
        HourShaped(one, false);
        MarkHour(HourRolled(one, false))
  }

  predicate HourIsDue<K>(st: State<K>) { st.clock - st.lastHour >= ONE_HOUR }

  ghost function HourDue<K>(st: State<K>, o: Outcome): (next: State<K>)
    requires Shaped(st)
    ensures Shaped(next) && Same(st, next)
  {
    if HourIsDue(st) then HourStepped(st, o) else st
  }

  predicate HourOk<K>(st: State<K>, o: Outcome) { HourIsDue(st) ==> o.hourGpu && (st.gpm ==> o.hourGpm) }

  ghost function PruneDue<K>(st: State<K>, lastPrune: int, o: Outcome): (next: State<K>)
    requires Shaped(st)
    ensures Shaped(next)
  {
    if st.clock - lastPrune >= PRUNE_INTERVAL && o.prune then
      PrunedShaped(st);
      PrunedState(st)
    else st
  }

  /** One maintenance run: a failing call ends it, and leaves what was done before. */
  ghost function Maintained<K>(st: State<K>, lastPrune: int, now: int, o: Outcome): (next: State<K>)
    requires Shaped(st)
    ensures Shaped(next)
  {
    var ticked := Tick(st, now);
    var flushed := FlushDue(ticked, o);
    if !FlushOk(ticked, o) then flushed
    else
      var mid := MidDue(flushed, o);
      if !MidOk(flushed, o) then mid
      else
        var hour := HourDue(mid, o);
        if !HourOk(mid, o) then hour else PruneDue(hour, lastPrune, o)
  }

  // ----- the invariant over a maintenance run

  lemma BothWritten<K>(st: State<K>)
    ensures ReadyWritten(Written(Written(st, true), false))
  {
  }

  lemma FlushStepKeeps<K>(st: State<K>, o: Outcome)
    requires Held(st) && Shaped(st)
    ensures Held(FlushStep(st, o)) && FlushStep(st, o).swept == st.clock
    ensures o.writeGpu && o.writeGpm ==> NoneReady(FlushStep(st, o))
  {
    hide Held, Shaped, Cleared, ReadyRows, NoneReady;
    SweptHolds(st);
    var swept := Swept(st);
    if o.writeGpu {
      WrittenHolds(swept, true);
      var one := Written(swept, true);
      if o.writeGpm {
        WrittenHolds(one, false);
        BothWritten(swept);
        ClearedHolds(Written(one, false));
        ClearedFields(Written(one, false));
      }
    }
  }

  lemma FlushDueKeeps<K>(st: State<K>, o: Outcome)
    requires Held(st) && Shaped(st)
    ensures Held(FlushDue(st, o))
    ensures FlushOk(st, o) ==> FlushDue(st, o).clock < FlushDue(st, o).flushed + FLUSH_INTERVAL
  {
    hide Held, Shaped, FlushStep, NoneReady;
    ClocksLag(st);
    FlushStepKeeps(st, o);
    if FlushIsDue(st) && o.writeGpu && o.writeGpm {
      MarkFlushedHolds(FlushStep(st, o));
    }
  }

  lemma ClearedFields<K>(st: State<K>)
    ensures Cleared(st) == st.(open := Cleared(st).open)
  {
  }

  lemma MidDueKeeps<K>(st: State<K>, o: Outcome)
    requires Held(st) && Shaped(st) && st.clock < st.flushed + FLUSH_INTERVAL
    ensures Held(MidDue(st, o))
    ensures MidOk(st, o) ==> MidDue(st, o).clock < MidDue(st, o).rolledMid + TWO_MINUTES
    ensures MidDue(st, o).clock < MidDue(st, o).flushed + FLUSH_INTERVAL
  {
    hide Held, Shaped, MidRolled, MidUpTo;
    ClocksLag(st);
    if MidIsDue(st) && o.midGpu {
      MidRolledHolds(st, true);
      var one := MidRolled(st, true);
      MidFields(st, true);
      if !st.gpm {
        MarkMidHolds(one);
      } else if o.midGpm {
        MidRolledHolds(one, false);
        MidFields(one, false);
        MarkMidHolds(MidRolled(one, false));
      }
    }
  }

  lemma ClocksLag<K>(st: State<K>)
    requires Held(st)
    ensures st.lastFlush <= st.flushed && st.lastMid <= st.rolledMid && st.lastHour <= st.rolledCoarse
  {
  }

  lemma HourDueKeeps<K>(st: State<K>, o: Outcome)
    requires Held(st) && Shaped(st) && st.clock < st.flushed + FLUSH_INTERVAL && st.clock < st.rolledMid + TWO_MINUTES
    ensures Held(HourDue(st, o))
    ensures HourOk(st, o) ==> HourDue(st, o).clock < HourDue(st, o).rolledCoarse + ONE_HOUR
    ensures HourDue(st, o).rolledMid == st.rolledMid && HourDue(st, o).flushed == st.flushed
  {
    hide Held, Shaped, HourRolled, HourUpTo;
    ClocksLag(st);
    if HourIsDue(st) && o.hourGpu {
      HourRolledHolds(st, true);
      var one := HourRolled(st, true);
      HourFields(st, true);
      if !st.gpm {
        MarkHourHolds(one);
      } else if o.hourGpm {
        HourRolledHolds(one, false);
        HourFields(one, false);
        MarkHourHolds(HourRolled(one, false));
      }
    }
  }

  lemma PrunedFields<K>(st: State<K>)
    ensures var next := PrunedState(st);
      && next.log == st.log && next.clock == st.clock && next.gpm == st.gpm && next.flushed == st.flushed
      && next.rolledMid == st.rolledMid && next.rolledCoarse == st.rolledCoarse
  {
  }

  /** Whatever fails, a maintenance run at a later time keeps the invariant. */
  lemma MaintainedKeeps<K>(st: State<K>, lastPrune: int, now: int, o: Outcome)
    requires Held(st) && Shaped(st) && st.clock <= now
    ensures Held(Maintained(st, lastPrune, now, o)) && Maintained(st, lastPrune, now, o).log == st.log
    ensures Maintained(st, lastPrune, now, o).clock == now && Maintained(st, lastPrune, now, o).gpm == st.gpm
    ensures !o.prune ==> Maintained(st, lastPrune, now, o).cutFine == st.cutFine
    ensures !o.prune ==> Maintained(st, lastPrune, now, o).cutMid == st.cutMid
    ensures o.writeGpu && o.writeGpm && o.midGpu && o.midGpm && o.hourGpu && o.hourGpm ==>
      Recent(Maintained(st, lastPrune, now, o))
  {
    hide Held, Shaped, FlushDue, MidDue, HourDue, PrunedState;
    TickHolds(st, now);
    var ticked := Tick(st, now);
    HeldShaped(ticked);
    FlushDueKeeps(ticked, o);
    var flushed := FlushDue(ticked, o);
    if FlushOk(ticked, o) {
      MidDueKeeps(flushed, o);
      var mid := MidDue(flushed, o);
      if MidOk(flushed, o) {
        HourDueKeeps(mid, o);
        var hour := HourDue(mid, o);
        if HourOk(mid, o) && hour.clock - lastPrune >= PRUNE_INTERVAL && o.prune {
          PrunedHolds(hour);
          PrunedFields(hour);
        }
      }
    }
  }

  // ----- runs

  /** What happens to the sink. Restarting flushes once more, and then forgets what is in memory. */
  datatype Event<K> =
    | Arrives(x: Sample<K>)
    | Maintains(lastPrune: int, now: int, o: Outcome)
    | Restarts(now: int, o: Outcome)

  ghost function Restarted<K>(st: State<K>, now: int, o: Outcome): (next: State<K>)
    requires Shaped(st)
    ensures Shaped(next)
  {
    Forgotten(FlushStep(Tick(st, now), o))
  }

  ghost function Next<K>(st: State<K>, e: Event<K>): (next: State<K>)
    requires Shaped(st)
    ensures Shaped(next)
  {
    match e
    case Arrives(x) => AccumulatedShaped(st, x); Accumulated(st, x)
    case Maintains(lastPrune, now, o) => Maintained(st, lastPrune, now, o)
    case Restarts(now, o) => Restarted(st, now, o)
  }

  /** Samples arrive before their bucket is ready to be flushed, and time does not go back. */
  ghost predicate Allowed<K>(st: State<K>, e: Event<K>) {
    match e
    case Arrives(x) => OnTime(st, x)
    case Maintains(_, now, _) => st.clock <= now
    case Restarts(now, _) => st.clock <= now
  }

  ghost function Run<K>(st: State<K>, events: seq<Event<K>>): (last: State<K>)
    requires Shaped(st)
    ensures Shaped(last)
  {
    if events == [] then st else Next(Run(st, events[..|events| - 1]), events[|events| - 1])
  }

  ghost predicate AllAllowed<K>(st: State<K>, events: seq<Event<K>>)
    requires Shaped(st)
  {
    forall i :: 0 <= i < |events| ==> Allowed(Run(st, events[..i]), events[i])
  }

  lemma RestartedHolds<K>(st: State<K>, now: int, o: Outcome)
    requires Held(st) && Shaped(st) && st.clock <= now
    ensures Held(Restarted(st, now, o))
  {
    hide Held, Shaped, FlushStep, Forgotten;
    TickHolds(st, now);
    HeldShaped(Tick(st, now));
    FlushStepKeeps(Tick(st, now), o);
    ForgottenHolds(FlushStep(Tick(st, now), o));
  }

  /** A stop whose last flush succeeds loses exactly the samples of the buckets not yet ready:
      those that started less than forty seconds before it. */
  lemma RestartLosesIff<K>(st: State<K>, now: int, o: Outcome, s: Slot<K>)
    requires Held(st) && Shaped(st) && st.clock <= now && o.writeGpu && o.writeGpm && s in Slots(st.log)
    ensures s !in Slots(Restarted(st, now, o).log) <==> now - s.start < 40 * SECOND
  {
    TickHolds(st, now);
    HeldShaped(Tick(st, now));
    FlushStepKeeps(Tick(st, now), o);
    hide Shaped, FlushStep, Slots, RowOf, TallyOf, RowsComplete, RowsExist, RowsTimely, RowsRecent, History;
    var flushed := FlushStep(Tick(st, now), o);
    SurvivingSlots(flushed.log, Lost(flushed));
    LostIff(flushed, s);
  }

  /** Of flushed buckets nothing is lost, whatever fails. */
  lemma RestartKeepsFlushed<K>(st: State<K>, now: int, o: Outcome, s: Slot<K>)
    requires Held(st) && Shaped(st) && s in Slots(st.log) && s !in st.open
    ensures s in Slots(Restarted(st, now, o).log)
  {
    hide Held, Slots, ReadyRows;
    SurvivingSlots(FlushStep(Tick(st, now), o).log, Lost(FlushStep(Tick(st, now), o)));
    assert s !in FlushStep(Tick(st, now), o).open;
  }

  /** The invariant holds after every run, and with it the history of every row, so every row in
      every reachable state has the meaning proved in RollupMeaning and RollupHistory. */
  lemma {:induction false} RunKeeps<K>(st: State<K>, events: seq<Event<K>>)
    requires Held(st) && Shaped(st) && AllAllowed(st, events)
    ensures Held(Run(st, events))
  {
    hide Held, Shaped, Maintained, Accumulated, Restarted;
    if events != [] {
      var n := |events| - 1;
      assert AllAllowed(st, events[..n]) by {
        forall i | 0 <= i < n ensures Allowed(Run(st, events[..n][..i]), events[..n][i]) {
          assert events[..n][..i] == events[..i];
        }
      }
      RunKeeps(st, events[..n]);
      var before := Run(st, events[..n]);
      assert Allowed(before, events[n]);
      match events[n]
      case Arrives(x) => AccumulateHolds(before, x);
      case Maintains(lastPrune, now, o) => MaintainedKeeps(before, lastPrune, now, o);
      case Restarts(now, o) => RestartedHolds(before, now, o);
    }
  }

  // ----- an exact row that a later run spoils

  const ALL_BUT_PRUNE: Outcome := Outcome(true, true, true, true, true, true, false, true)
  const ALL_SUCCEED: Outcome := Outcome(true, true, true, true, true, true, true, true)

  const PRUNE_TIME: int := FINE_RETENTION + TWENTY_SECONDS

  function SampleAt(at: int): Sample<int> { Sample(at, Gpu(7), map[]) }

  ghost function TwoSamples(): State<int> {
    Accumulated(Accumulated(Start<int>(false), SampleAt(0)), SampleAt(TWENTY_SECONDS))
  }

  lemma TwoSamplesHold()
    ensures Held(TwoSamples()) && Shaped(TwoSamples()) && TwoSamples().clock == 0 && !TwoSamples().gpm
    ensures TwoSamples().cutFine == -FINE_RETENTION && TwoSamples().cutMid == -MID_RETENTION
    ensures Slots(TwoSamples().log) == {Slot(0, Gpu(7)), Slot(TWENTY_SECONDS, Gpu(7))}
  {
    hide Held, AddSample, Slots;
    var start := Start<int>(false);
    StartHeld<int>(false);
    AccumulateHolds(start, SampleAt(0));
    var one := Accumulated(start, SampleAt(0));
    AccumulateHolds(one, SampleAt(TWENTY_SECONDS));
    HeldShaped(TwoSamples());
    SlotsAppend([], SampleAt(0));
    SlotsAppend(one.log, SampleAt(TWENTY_SECONDS));
    NoSlots<int>();
  }

  lemma NoSlots<K>()
    ensures Slots<K>([]) == {}
  {
  }

  /** The state after two samples 20 s apart, and a maintenance run seven days and 20 s later in
      which everything but the prune succeeds. */
  ghost function TwoSamplesLater(): State<int> {
    TwoSamplesHold();
    Maintained(TwoSamples(), 0, PRUNE_TIME, ALL_BUT_PRUNE)
  }

  lemma TwoSamplesLaterHolds()
    ensures var st := TwoSamplesLater();
      && Held(st) && Recent(st) && st.clock == PRUNE_TIME && !st.gpm
      && st.cutFine == -FINE_RETENTION && st.cutMid == -MID_RETENTION
      && Slots(st.log) == {Slot(0, Gpu(7)), Slot(TWENTY_SECONDS, Gpu(7))}
  {
    hide Held, Maintained, Recent, TwoSamples, Slots;
    TwoSamplesHold();
    MaintainedKeeps(TwoSamples(), 0, PRUNE_TIME, ALL_BUT_PRUNE);
  }

  /** By then the 2 m row is right; the prune of that moment removes the first sample's 20 s row,
      and the next rollup replaces the good 2 m row by one of the second sample alone. */
  lemma SpoiltRowExample()
    ensures var st, t := TwoSamplesLater(), Slot(0, Gpu(7));
      && t in st.mid && st.mid[t] == Direct(st.log, t, TWO_MINUTES)
      && WellFormed(PrunedState(st).fine) && t in MidRolled(PrunedState(st), true).mid
      && MidRolled(PrunedState(st), true).mid[t] != Direct(st.log, t, TWO_MINUTES)
  {
    hide Inv, History, TwoSamplesLater, PrunedState, MidRolled, Direct, Slots;
    TwoSamplesLaterHolds();
    var st, t := TwoSamplesLater(), Slot(0, Gpu(7));
    BothSampled(st.log);
    assert MidSlot(t) == t;
    MidRowExists(st, t);
    MidRowExact(st, t);
    PruneSpoilsIff(st, t);
    assert Split(st.log, t, TWENTY_SECONDS, 0, TWENTY_SECONDS);
  }

  lemma FlushedByThen<K>(st: State<K>, s: Slot<K>)
    requires Inv(st) && s in Slots(st.log) && Closed(s.start, st.flushed) && s.start >= st.cutFine
    ensures s in st.fine && st.fine[s] == Direct(st.log, s, TWENTY_SECONDS) && s !in st.open
  {
    FineRowExact(st, s);
  }

  /** The prune of that moment, and an hour later a maintenance run in which everything succeeds. */
  ghost function HourAfterPrune(): State<int> {
    TwoSamplesLaterHolds();
    HeldShaped(TwoSamplesLater());
    PrunedShaped(TwoSamplesLater());
    Maintained(PrunedState(TwoSamplesLater()), PRUNE_TIME, PRUNE_TIME + ONE_HOUR, ALL_SUCCEED)
  }

  lemma FlushDueFields<K>(st: State<K>, o: Outcome)
    requires Shaped(st)
    ensures var next := FlushDue(st, o);
      && next.lastMid == st.lastMid && next.lastHour == st.lastHour
      && next.midCuts == st.midCuts && next.hourCuts == st.hourCuts
  {
    hide Shaped, ReadyRows;
  }

  lemma ShapedTables<K>(st: State<K>)
    requires Shaped(st)
    ensures WellFormed(st.fine) && WellFormed(st.mid) && st.mid.Keys == st.midCover.Keys
  {
  }

  /** What a run in which the GPU rollups are due and succeed leaves on record. */
  lemma MaintainedRecords<K>(st: State<K>, lastPrune: int, now: int)
    requires Shaped(st) && !st.gpm && now - st.lastMid >= TWO_MINUTES && now - st.lastHour >= ONE_HOUR
    ensures Maintained(st, lastPrune, now, ALL_SUCCEED).hourCuts
      == st.hourCuts + {HourCut(true, st.cutMid, st.midCuts + {Cutoff(true, st.cutFine)})}
  {
    hide Shaped, FlushDue, MidRolled, HourRolled;
    var ticked := Tick(st, now);
    TickShaped(st, now);
    FlushDueFields(ticked, ALL_SUCCEED);
    var flushed := FlushDue(ticked, ALL_SUCCEED);
    ShapedTables(flushed);
    MidFields(flushed, true);
    var mid := MidDue(flushed, ALL_SUCCEED);
    assert mid == MarkMid(MidRolled(flushed, true));
    ShapedTables(mid);
    HourFields(mid, true);
  }

  lemma HourAfterPruneHolds()
    ensures var st, pruned := HourAfterPrune(), PrunedState(TwoSamplesLater());
      && Held(st) && Recent(st) && st.log == TwoSamplesLater().log && st.clock == PRUNE_TIME + ONE_HOUR
      && Held(pruned) && Shaped(pruned) && pruned.clock == PRUNE_TIME && !pruned.gpm
      && pruned.cutFine == TWENTY_SECONDS && pruned.cutMid <= 0
  {
    hide Held, Maintained, TwoSamplesLater, Shaped;
    TwoSamplesLaterHolds();
    HeldShaped(TwoSamplesLater());
    PrunedHolds(TwoSamplesLater());
    PrunedFields(TwoSamplesLater());
    PrunedShaped(TwoSamplesLater());
    MaintainedKeeps(PrunedState(TwoSamplesLater()), PRUNE_TIME, PRUNE_TIME + ONE_HOUR, ALL_SUCCEED);
  }

  lemma SpoiltHourRecord()
    ensures var pruned := PrunedState(TwoSamplesLater());
      HourCut(true, pruned.cutMid, pruned.midCuts + {Cutoff(true, TWENTY_SECONDS)}) in HourAfterPrune().hourCuts
  {
    hide Maintained, TwoSamplesLater, Shaped, PrunedState, History, RowsFaithful, RowsComplete, RowsExist, OpenHolds,
      NothingLost, RowsTimely;
    HourAfterPruneHolds();
    MaintainedRecords(PrunedState(TwoSamplesLater()), PRUNE_TIME, PRUNE_TIME + ONE_HOUR);
  }

  lemma HourIsThere<K>(st: State<K>, t: Slot<K>)
    requires Inv(st) && Recent(st) && t in Slots(st.log) && HourSlot(t) == t && t.series.Gpu?
    requires t.start + 3 * ONE_HOUR <= st.clock <= t.start + COARSE_RETENTION
    ensures t in st.coarse
  {
    HourRowExists(st, t);
  }

  /** The good row of the hour, kept for a year, is replaced by one of the second sample alone. */
  lemma SpoiltHourExample()
    ensures var st, later, t := TwoSamplesLater(), HourAfterPrune(), Slot(0, Gpu(7));
      && t in st.coarse && st.coarse[t] == Direct(st.log, t, ONE_HOUR) && later.log == st.log
      && t in later.coarse && later.coarse[t] != Direct(later.log, t, ONE_HOUR)
  {
    hide Inv, History, TwoSamplesLater, HourAfterPrune, PrunedState, Direct, Slots, Shaped, Splits;
    TwoSamplesLaterHolds();
    HourAfterPruneHolds();
    var st, later, t, left := TwoSamplesLater(), HourAfterPrune(), Slot(0, Gpu(7)), Slot(TWENTY_SECONDS, Gpu(7));
    assert HourSlot(t) == t == MidSlot(t) == MidSlot(left) == HourSlot(left);
    HourIsThere(st, t);
    BothSampled(st.log);
    HourRowExact(st, t);
    HourIsThere(later, t);
    HourRowExactIff(later, t);
    SpoiltHourRecord();
    var mids := PrunedState(st).midCuts + {Cutoff(true, TWENTY_SECONDS)};
    SpoiltIfSplit(later.log, t, HourCut(true, PrunedState(st).cutMid, mids), TWENTY_SECONDS, 0, TWENTY_SECONDS);
  }

  lemma BothSampled(log: seq<Sample<int>>)
    requires Slots(log) == {Slot(0, Gpu(7)), Slot(TWENTY_SECONDS, Gpu(7))}
    ensures Split(log, Slot(0, Gpu(7)), TWENTY_SECONDS, 0, TWENTY_SECONDS)
    ensures SampledIn(log, Slot(0, Gpu(7)), TWO_MINUTES) == {0, TWENTY_SECONDS}
    ensures SampledIn(log, Slot(0, Gpu(7)), ONE_HOUR) == {0, TWENTY_SECONDS}
    ensures Target(0, TWO_MINUTES) == Target(TWENTY_SECONDS, TWO_MINUTES) == 0
  {
  }

  /** A cutoff between two buckets of a window also spoils its hour. */
  lemma SpoiltIfSplit<K>(log: seq<Sample<K>>, t: Slot<K>, h: HourCut, cutoff: int, gone: int, left: int)
    requires gone in SampledIn(log, t, ONE_HOUR) && left in SampledIn(log, t, ONE_HOUR)
    requires Target(left, TWO_MINUTES) == Target(gone, TWO_MINUTES) >= h.at
    requires Split(log, Slot(Target(gone, TWO_MINUTES), t.series), cutoff, gone, left)
    requires Cutoff(t.series.Gpu?, cutoff) in h.mids
    ensures SpoiltBy(log, t, h, gone, left)
  {
    hide SampledIn, Target;
  }

  /** The prune is the last step of a maintenance run. */
  lemma PruneIsLast<K>(st: State<K>, lastPrune: int, now: int)
    requires Shaped(st) && now - lastPrune >= PRUNE_INTERVAL
    ensures Maintained(st, lastPrune, now, ALL_SUCCEED) == PrunedState(Maintained(st, lastPrune, now, ALL_BUT_PRUNE))
  {
    hide Shaped, MidRolled, HourRolled, PrunedState, Written, Cleared;
  }

  ghost function SpoiltHourRun(): (events: seq<Event<int>>)
    ensures |events| == 4
  {
    [Arrives(SampleAt(0)), Arrives(SampleAt(TWENTY_SECONDS)), Pruning(), HourLater()]
  }

  function Pruning(): Event<int> { Maintains(0, PRUNE_TIME, ALL_SUCCEED) }

  function HourLater(): Event<int> { Maintains(PRUNE_TIME, PRUNE_TIME + ONE_HOUR, ALL_SUCCEED) }

  lemma RunStep<K>(st: State<K>, events: seq<Event<K>>, n: nat)
    requires Shaped(st) && n < |events|
    ensures Run(st, events[..n + 1]) == Next(Run(st, events[..n]), events[n])
  {
    hide Shaped, Next;
    assert events[..n + 1][..n] == events[..n];
  }

  lemma SamplesFirst()
    ensures var start, events := Start<int>(false), SpoiltHourRun();
      && Shaped(start) && Allowed(Run(start, events[..0]), events[0]) && Allowed(Run(start, events[..1]), events[1])
      && Run(start, events[..2]) == TwoSamples()
  {
    hide AddSample, Run, Maintained, Restarted, Pruning, HourLater;
    var start, events := Start<int>(false), SpoiltHourRun();
    RunStep(start, events, 0);
    RunStep(start, events, 1);
    assert Run(start, events[..0]) == start by { RunsNothing(start, events); }
  }

  lemma RunsNothing<K>(st: State<K>, events: seq<Event<K>>)
    requires Shaped(st)
    ensures Run(st, events[..0]) == st
  {
    hide Shaped;
  }

  lemma MaintenanceNext()
    ensures var two, pruned := TwoSamples(), PrunedState(TwoSamplesLater());
      && Shaped(two) && Allowed(two, Pruning()) && Next(two, Pruning()) == pruned
      && Shaped(pruned) && Allowed(pruned, HourLater()) && Next(pruned, HourLater()) == HourAfterPrune()
  {
    hide Maintained, Shaped, PrunedState, TwoSamples, Held, Recent, Restarted, Accumulated;
    TwoSamplesHold();
    HourAfterPruneHolds();
    PruneIsLast(TwoSamples(), 0, PRUNE_TIME);
  }

  /** And all that is one run of the sink from its start. */
  lemma SpoiltHourIsReachable()
    ensures var start, events := Start<int>(false), SpoiltHourRun();
      && Shaped(start) && AllAllowed(start, events) && Run(start, events) == HourAfterPrune()
  {
    hide Shaped, PrunedState, TwoSamples, Run, TwoSamplesLater, HourAfterPrune, Next, Allowed, Start, Pruning,
      HourLater;
    var start, events := Start<int>(false), SpoiltHourRun();
    SamplesFirst();
    MaintenanceNext();
    RunStep(start, events, 2);
    RunStep(start, events, 3);
    assert events[..4] == events;
  }

  // ----- a sample that comes after its bucket's flush

  /** Had its first sample been repeated after that run, the bucket's good 20 s row would be
      replaced by one of the repeated sample alone. */
  lemma LateRowExample()
    ensures var st, slot := TwoSamplesLater(), Slot(0, Gpu(7));
      var late := Written(Swept(Tick(Accumulated(st, SampleAt(0)), PRUNE_TIME)), true);
      && slot in st.fine && st.fine[slot] == Direct(st.log, slot, TWENTY_SECONDS) && !OnTime(st, SampleAt(0))
      && slot in late.fine && late.fine[slot] != Direct(late.log, slot, TWENTY_SECONDS)
  {
    hide Inv, History, TwoSamplesLater, Direct, Slots, Written, Accumulated;
    TwoSamplesLaterHolds();
    var st, slot := TwoSamplesLater(), Slot(0, Gpu(7));
    FlushedByThen(st, slot);
    assert SampleSlot(SampleAt(0)) == slot;
    LateRowExactIff(st, SampleAt(0), PRUNE_TIME);
    SweptAfter(st);
  }

  lemma SweptAfter<K>(st: State<K>)
    requires Inv(st)
    ensures st.flushed <= st.swept
  {
  }
}
