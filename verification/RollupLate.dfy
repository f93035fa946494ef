/** Runs in which samples come late: what they spoil stays within their own hour of their own
    series (db.py, AsyncDBSink). */
module RollupLate {
  import opened Rollup
  import opened RollupTables
  import opened RollupPipeline
  import opened RollupMeaning
  import opened RollupHistory
  import opened RollupRestart
  import opened RollupRuns

  // ----- a state without some hours

  predicate Clean<K(==)>(s: Slot<K>, hours: set<Slot<K>>) { HourSlot(s) !in hours }

  ghost function Rest<K, V>(m: map<Slot<K>, V>, hours: set<Slot<K>>): map<Slot<K>, V> {
    map s | s in m && Clean(s, hours) :: m[s]
  }

  ghost function Unclean<K>(log: seq<Sample<K>>, hours: set<Slot<K>>): set<Slot<K>> {
    set s | s in Slots(log) && !Clean(s, hours)
  }

  /** The state as if the samples of these hours had never been. */
  ghost function Outside<K>(st: State<K>, hours: set<Slot<K>>): State<K> {
    st.(log := Surviving(st.log, Unclean(st.log, hours)), open := Rest(st.open, hours),
        fine := Rest(st.fine, hours), mid := Rest(st.mid, hours), coarse := Rest(st.coarse, hours),
        midCover := Rest(st.midCover, hours), coarseCover := Rest(st.coarseCover, hours))
  }

  lemma OutsideShaped<K>(st: State<K>, hours: set<Slot<K>>)
    requires Shaped(st)
    ensures Shaped(Outside(st, hours))
  {
    hide Columns, Clean;
  }

  lemma {:induction false} SurvivingSame<K>(log: seq<Sample<K>>, a: set<Slot<K>>, b: set<Slot<K>>)
    requires forall s :: s in Slots(log) ==> (s in a <==> s in b)
    ensures Surviving(log, a) == Surviving(log, b)
  {
    if log != [] {
      var n := |log| - 1;
      assert log[..n] + [log[n]] == log;
      SlotsAppend(log[..n], log[n]);
      SurvivingSame(log[..n], a, b);
    }
  }

  lemma {:induction false} SurvivingTwice<K>(log: seq<Sample<K>>, a: set<Slot<K>>, b: set<Slot<K>>)
    ensures Surviving(Surviving(log, a), b) == Surviving(log, a + b)
  {
    if log != [] {
      var n := |log| - 1;
      SurvivingTwice(log[..n], a, b);
      var before := Surviving(log[..n], a);
      assert (before + [log[n]])[..|before|] == before;
    }
  }

  lemma RestPlus<K, V>(a: map<Slot<K>, V>, b: map<Slot<K>, V>, hours: set<Slot<K>>)
    ensures Rest(a + b, hours) == Rest(a, hours) + Rest(b, hours)
  {
  }

  // ----- samples

  lemma LogOutside<K>(log: seq<Sample<K>>, x: Sample<K>, hours: set<Slot<K>>)
    ensures var rest := Surviving(log, Unclean(log, hours));
      Surviving(log + [x], Unclean(log + [x], hours)) == if Clean(SampleSlot(x), hours) then rest + [x] else rest
  {
    hide SampleSlot, HourSlot, Slots;
    SlotsAppend(log, x);
    SurvivingSame(log, Unclean(log + [x], hours), Unclean(log, hours));
    assert (log + [x])[..|log|] == log;
  }

  lemma UpdatedRest<K, V>(m: map<Slot<K>, V>, s: Slot<K>, v: V, hours: set<Slot<K>>)
    ensures Rest(m[s := v], hours) == if Clean(s, hours) then Rest(m, hours)[s := v] else Rest(m, hours)
  {
  }

  /** A sample of another hour is accumulated as ever, one of these hours not seen. */
  lemma AccumulatedOutside<K>(st: State<K>, x: Sample<K>, hours: set<Slot<K>>)
    ensures Outside(Accumulated(st, x), hours)
      == if Clean(SampleSlot(x), hours) then Accumulated(Outside(st, hours), x) else Outside(st, hours)
  {
    hide AddSample, SampleSlot, Clean, Surviving, Unclean;
    LogOutside(st.log, x, hours);
    UpdatedRest(st.open, SampleSlot(x), Accumulated(st, x).open[SampleSlot(x)], hours);
    assert Clean(SampleSlot(x), hours) ==> (SampleSlot(x) in st.open <==> SampleSlot(x) in Rest(st.open, hours));
  }

  // ----- flushing

  lemma WrittenOutside<K>(st: State<K>, gpu: bool, hours: set<Slot<K>>)
    ensures Outside(Written(st, gpu), hours) == Written(Outside(st, hours), gpu)
  {
    hide RowFrom, Clean, Surviving;
    RestPlus(st.fine, ReadyRows(st.open, st.swept, gpu), hours);
    assert Rest(ReadyRows(st.open, st.swept, gpu), hours) == ReadyRows(Rest(st.open, hours), st.swept, gpu);
  }

  lemma ClearedOutside<K>(st: State<K>, hours: set<Slot<K>>)
    ensures Outside(Cleared(st), hours) == Cleared(Outside(st, hours))
  {
    hide Clean, Surviving;
    assert Outside(Cleared(st), hours).open == Cleared(Outside(st, hours)).open;
  }

  lemma FlushStepOutside<K>(st: State<K>, o: Outcome, hours: set<Slot<K>>)
    requires Shaped(st)
    ensures Shaped(Outside(st, hours)) && Outside(FlushStep(st, o), hours) == FlushStep(Outside(st, hours), o)
  {
    OutsideShaped(st, hours);
    hide Shaped, Written, Cleared, Rest, Surviving, Unclean;
    var swept := Swept(st);
    assert Outside(swept, hours) == Swept(Outside(st, hours));
    WrittenOutside(swept, true, hours);
    WrittenOutside(Written(swept, true), false, hours);
    ClearedOutside(Written(Written(swept, true), false), hours);
  }

  // ----- rolling up

  /** Windows and their 20 s buckets lie in the same hour. */
  lemma SameHourSlot<K>(s: Slot<K>, width: int, k: int)
    requires width > 0 && k > 0 && ONE_HOUR == k * width
    ensures HourSlot(Slot(Target(s.start, width), s.series)) == HourSlot(s)
  {
    TargetNested(s.start, width, ONE_HOUR, k);
  }

  lemma GroupRest<K>(source: Table<K>, t: Slot<K>, width: int, k: int, hours: set<Slot<K>>)
    requires width > 0 && k > 0 && ONE_HOUR == k * width && Clean(t, hours)
    ensures GroupStarts(Rest(source, hours), t, width) == GroupStarts(source, t, width)
    ensures GroupRows(Rest(source, hours), t, width) == GroupRows(source, t, width)
  {
    hide Target, HourSlot;
    forall b | b in GroupStarts(source, t, width) ensures b in GroupStarts(Rest(source, hours), t, width) {
      SameHourSlot(Slot(b, t.series), width, k);
    }
    assert GroupStarts(Rest(source, hours), t, width) == GroupStarts(source, t, width);
  }

  lemma TargetsRest<K>(source: Table<K>, t: Slot<K>, width: int, k: int, hours: set<Slot<K>>)
    requires width > 0 && k > 0 && ONE_HOUR == k * width
    ensures t in TargetSlots(Rest(source, hours), width) <==> t in TargetSlots(source, width) && Clean(t, hours)
  {
    hide Target, HourSlot;
    forall s | s in source && t == Slot(Target(s.start, width), s.series)
      ensures Clean(t, hours) <==> s in Rest(source, hours)
    {
      SameHourSlot(s, width, k);
    }
  }

  lemma RolledRest<K>(source: Table<K>, width: int, k: int, now: int, gpu: bool, hours: set<Slot<K>>)
    requires width > 0 && k > 0 && ONE_HOUR == k * width && WellFormed(source)
    ensures WellFormed(Rest(source, hours))
    ensures Rolled(Rest(source, hours), width, now, gpu) == Rest(Rolled(source, width, now, gpu), hours)
  {
    hide Target, HourSlot, GroupRows, TargetSlots, SumExpected, SumColumn, Columns;
    var rest := Rest(source, hours);
    var few, all := Rolled(rest, width, now, gpu), Rest(Rolled(source, width, now, gpu), hours);
    forall t ensures t in few <==> t in all {
      TargetsRest(source, t, width, k, hours);
      if Clean(t, hours) { GroupRest(source, t, width, k, hours); }
    }
    forall t | t in all ensures few[t] == all[t] {
      GroupRest(source, t, width, k, hours);
    }
    SameMaps(few, all);
  }

  lemma SameMaps<K, V>(a: map<K, V>, b: map<K, V>)
    requires forall k :: k in a <==> k in b
    requires forall k :: k in b ==> a[k] == b[k]
    ensures a == b
  {
  }

  lemma CoverRest<K>(source: Table<K>, cover: Cover<K>, t: Slot<K>, width: int, k: int, hours: set<Slot<K>>)
    requires width > 0 && k > 0 && ONE_HOUR == k * width && source.Keys == cover.Keys && Clean(t, hours)
    ensures Rest(source, hours).Keys == Rest(cover, hours).Keys
    ensures CoverOf(Rest(source, hours), Rest(cover, hours), t, width) == CoverOf(source, cover, t, width)
  {
    hide Target, HourSlot, CoverOf;
    forall b ensures b in CoverOf(Rest(source, hours), Rest(cover, hours), t, width)
      <==> b in CoverOf(source, cover, t, width)
    {
      CoverHas(source, cover, t, width, b);
      CoverHas(Rest(source, hours), Rest(cover, hours), t, width, b);
      if s :| s in source && s.series == t.series && Target(s.start, width) == t.start && b in cover[s] {
        SameHourSlot(s, width, k);
        assert s in Rest(source, hours);
      }
    }
  }

  lemma RolledCoverRest<K>(source: Table<K>, cover: Cover<K>, width: int, k: int, now: int, gpu: bool,
      hours: set<Slot<K>>)
    requires width > 0 && k > 0 && ONE_HOUR == k * width && WellFormed(source) && source.Keys == cover.Keys
    ensures WellFormed(Rest(source, hours)) && Rest(source, hours).Keys == Rest(cover, hours).Keys
    ensures RolledCover(Rest(source, hours), Rest(cover, hours), width, now, gpu)
      == Rest(RolledCover(source, cover, width, now, gpu), hours)
  {
    hide Rolled, CoverOf, Clean, WellFormed;
    RolledRest(source, width, k, now, gpu, hours);
    forall t | t in Rest(Rolled(source, width, now, gpu), hours)
      ensures Rest(source, hours).Keys == Rest(cover, hours).Keys
      ensures CoverOf(Rest(source, hours), Rest(cover, hours), t, width) == CoverOf(source, cover, t, width)
    {
      CoverRest(source, cover, t, width, k, hours);
    }
  }

  lemma SoloRest<K>(table: Table<K>, hours: set<Slot<K>>)
    ensures Solo(Rest(table, hours)) == Rest(Solo(table), hours)
  {
  }

  lemma MidOutside<K>(st: State<K>, gpu: bool, hours: set<Slot<K>>)
    requires Shaped(st)
    ensures Shaped(Outside(st, hours)) && Outside(MidRolled(st, gpu), hours) == MidRolled(Outside(st, hours), gpu)
  {
    OutsideShaped(st, hours);
    ShapedTables(st);
    hide Shaped, Rolled, RolledCover, Rest, Surviving, Unclean, WellFormed, Solo;
    RolledRest(st.fine, TWO_MINUTES, 30, st.clock, gpu, hours);
    RolledCoverRest(st.fine, Solo(st.fine), TWO_MINUTES, 30, st.clock, gpu, hours);
    SoloRest(st.fine, hours);
    RestPlus(st.mid, Rolled(st.fine, TWO_MINUTES, st.clock, gpu), hours);
    RestPlus(st.midCover, RolledCover(st.fine, Solo(st.fine), TWO_MINUTES, st.clock, gpu), hours);
  }

  lemma HourOutside<K>(st: State<K>, gpu: bool, hours: set<Slot<K>>)
    requires Shaped(st)
    ensures Shaped(Outside(st, hours)) && Outside(HourRolled(st, gpu), hours) == HourRolled(Outside(st, hours), gpu)
  {
    OutsideShaped(st, hours);
    ShapedTables(st);
    ShapedTables(Outside(st, hours));
    hide Shaped, Rolled, RolledCover, Rest, Surviving, Unclean, WellFormed;
    RolledRest(st.mid, ONE_HOUR, 1, st.clock, gpu, hours);
    RolledCoverRest(st.mid, st.midCover, ONE_HOUR, 1, st.clock, gpu, hours);
    RestPlus(st.coarse, Rolled(st.mid, ONE_HOUR, st.clock, gpu), hours);
    RestPlus(st.coarseCover, RolledCover(st.mid, st.midCover, ONE_HOUR, st.clock, gpu), hours);
  }

  lemma PrunedOutside<K>(st: State<K>, hours: set<Slot<K>>)
    ensures Outside(PrunedState(st), hours) == PrunedState(Outside(st, hours))
  {
    var a, b, c := st.clock - FINE_RETENTION, st.clock - MID_RETENTION, st.clock - COARSE_RETENTION;
    hide Rest, Pruned, Cut, Surviving, Unclean;
    PrunedRest(st.fine, a, hours);
    PrunedRest(st.mid, b, hours);
    PrunedRest(st.coarse, c, hours);
    CutRest(st.midCover, b, hours);
    CutRest(st.coarseCover, c, hours);
  }

  lemma PrunedRest<K>(table: Table<K>, cutoff: int, hours: set<Slot<K>>)
    ensures Rest(Pruned(table, cutoff), hours) == Pruned(Rest(table, hours), cutoff)
  {
  }

  lemma CutRest<K>(cover: Cover<K>, cutoff: int, hours: set<Slot<K>>)
    ensures Rest(Cut(cover, cutoff), hours) == Cut(Rest(cover, hours), cutoff)
  {
  }

  // ----- maintenance runs

  lemma FlushDueOutside<K>(st: State<K>, o: Outcome, hours: set<Slot<K>>)
    requires Shaped(st)
    ensures Shaped(Outside(st, hours)) && Outside(FlushDue(st, o), hours) == FlushDue(Outside(st, hours), o)
  {
    hide Shaped, FlushStep, Rest, Surviving, Unclean;
    FlushStepOutside(st, o, hours);
  }

  lemma MidDueOutside<K>(st: State<K>, o: Outcome, hours: set<Slot<K>>)
    requires Shaped(st)
    ensures Shaped(Outside(st, hours)) && Outside(MidDue(st, o), hours) == MidDue(Outside(st, hours), o)
  {
    hide Shaped, MidRolled, Rest, Surviving, Unclean;
    MidOutside(st, true, hours);
    ShapedTables(st);
    ShapedTables(Outside(st, hours));
    MidFields(st, true);
    MidShaped(st, true);
    MidOutside(MidRolled(st, true), false, hours);
  }

  lemma HourDueOutside<K>(st: State<K>, o: Outcome, hours: set<Slot<K>>)
    requires Shaped(st)
    ensures Shaped(Outside(st, hours)) && Outside(HourDue(st, o), hours) == HourDue(Outside(st, hours), o)
  {
    hide Shaped, HourRolled, Rest, Surviving, Unclean;
    HourOutside(st, true, hours);
    ShapedTables(st);
    ShapedTables(Outside(st, hours));
    HourFields(st, true);
    HourShaped(st, true);
    HourOutside(HourRolled(st, true), false, hours);
  }

  /** A maintenance run does to the other hours what it would do without these. */
  lemma MaintainedOutside<K>(st: State<K>, lastPrune: int, now: int, o: Outcome, hours: set<Slot<K>>)
    requires Shaped(st)
    ensures Shaped(Outside(st, hours))
    ensures Outside(Maintained(st, lastPrune, now, o), hours) == Maintained(Outside(st, hours), lastPrune, now, o)
  {
    hide Shaped, FlushDue, MidDue, HourDue, PrunedState, Rest, Surviving, Unclean;
    TickShaped(st, now);
    OutsideShaped(st, hours);
    var ticked := Tick(st, now);
    assert Outside(ticked, hours) == Tick(Outside(st, hours), now);
    FlushDueOutside(ticked, o, hours);
    var flushed := FlushDue(ticked, o);
    MidDueOutside(flushed, o, hours);
    var mid := MidDue(flushed, o);
    HourDueOutside(mid, o, hours);
    PrunedOutside(HourDue(mid, o), hours);
  }

  lemma LostOutside<K>(st: State<K>, hours: set<Slot<K>>)
    ensures Surviving(Surviving(st.log, Lost(st)), Unclean(Surviving(st.log, Lost(st)), hours))
      == Surviving(Surviving(st.log, Unclean(st.log, hours)), Lost(Outside(st, hours)))
  {
    hide Slots, Clean, Surviving, Lost, Outside;
    var lost, dirty, rest := Lost(st), Unclean(st.log, hours), Lost(Outside(st, hours));
    var kept := Unclean(Surviving(st.log, lost), hours);
    SurvivingSlots(st.log, lost);
    SurvivingTwice(st.log, lost, kept);
    SurvivingTwice(st.log, dirty, rest);
    forall s | s in Slots(st.log) ensures s in lost + kept <==> s in dirty + rest {
      LostMeans(st, s, hours);
    }
    SurvivingSame(st.log, lost + kept, dirty + rest);
  }

  lemma LostMeans<K>(st: State<K>, s: Slot<K>, hours: set<Slot<K>>)
    ensures s in Lost(Outside(st, hours)) <==> s in Lost(st) && Clean(s, hours)
  {
    hide HourSlot, Surviving;
  }

  lemma RestartedOutside<K>(st: State<K>, now: int, o: Outcome, hours: set<Slot<K>>)
    requires Shaped(st)
    ensures Shaped(Outside(st, hours)) && Outside(Restarted(st, now, o), hours) == Restarted(Outside(st, hours), now, o)
  {
    hide Shaped, FlushStep, Surviving, Unclean, Lost;
    TickShaped(st, now);
    OutsideShaped(st, hours);
    FlushStepOutside(Tick(st, now), o, hours);
    var flushed := FlushStep(Tick(st, now), o);
    LostOutside(flushed, hours);
    assert Rest(Forgotten(flushed).open, hours) == map[];
  }

  // ----- runs

  /** Samples of other hours are on time, and time does not go back. */
  ghost predicate Tolerated<K>(st: State<K>, e: Event<K>, hours: set<Slot<K>>) {
    match e
    case Arrives(x) => OnTime(st, x) || !Clean(SampleSlot(x), hours)
    case Maintains(_, now, _) => st.clock <= now
    case Restarts(now, _) => st.clock <= now
  }

  ghost predicate AllTolerated<K>(st: State<K>, events: seq<Event<K>>, hours: set<Slot<K>>)
    requires Shaped(st)
  {
    forall i :: 0 <= i < |events| ==> Tolerated(Run(st, events[..i]), events[i], hours)
  }

  lemma NextOutside<K>(st: State<K>, e: Event<K>, hours: set<Slot<K>>)
    requires Shaped(st) && Held(Outside(st, hours)) && Tolerated(st, e, hours)
    ensures Held(Outside(Next(st, e), hours))
  {
    hide Shaped, Held, Maintained, Restarted, Accumulated, SampleSlot, BucketStart, Clean, Rest, Surviving, Unclean;
    OutsideShaped(st, hours);
    match e
    case Arrives(x) =>
      AccumulatedOutside(st, x, hours);
      if Clean(SampleSlot(x), hours) { AccumulateHolds(Outside(st, hours), x); }
    case Maintains(lastPrune, now, o) =>
      MaintainedOutside(st, lastPrune, now, o, hours);
      MaintainedKeeps(Outside(st, hours), lastPrune, now, o);
    case Restarts(now, o) =>
      RestartedOutside(st, now, o, hours);
      RestartedHolds(Outside(st, hours), now, o);
  }

  lemma {:induction false} RunKeepsOutside<K>(st: State<K>, events: seq<Event<K>>, hours: set<Slot<K>>)
    requires Shaped(st) && Held(Outside(st, hours)) && AllTolerated(st, events, hours)
    ensures Held(Outside(Run(st, events), hours))
  {
    hide Shaped, Held, Next, Outside, Tolerated;
    if events != [] {
      var n := |events| - 1;
      assert AllTolerated(st, events[..n], hours) by {
        forall i | 0 <= i < n ensures Tolerated(Run(st, events[..n][..i]), events[..n][i], hours) {
          assert events[..n][..i] == events[..i];
        }
      }
      RunKeepsOutside(st, events[..n], hours);
      NextOutside(Run(st, events[..n]), events[n], hours);
    }
  }

  // ----- what the rows mean outside the hours

  lemma SampledOutside<K>(st: State<K>, t: Slot<K>, width: int, k: int, hours: set<Slot<K>>)
    requires width > 0 && k > 0 && ONE_HOUR == k * width && Clean(t, hours)
    ensures SampledIn(Outside(st, hours).log, t, width) == SampledIn(st.log, t, width)
    ensures Direct(Outside(st, hours).log, t, width) == Direct(st.log, t, width)
  {
    hide Target, HourSlot, Slots, TallyOf, RowFrom;
    var lost := Unclean(st.log, hours);
    SurvivingSlots(st.log, lost);
    forall b | b in SampledIn(st.log, t, width) ensures Slot(b, t.series) !in lost {
      SameHourSlot(Slot(b, t.series), width, k);
    }
    assert SampledIn(Outside(st, hours).log, t, width) == SampledIn(st.log, t, width);
    SurvivingTally(st.log, lost, t.series, SampledIn(st.log, t, width));
  }

  lemma RowsOutside<K>(st: State<K>, t: Slot<K>, hours: set<Slot<K>>)
    requires Held(Outside(st, hours)) && Clean(t, hours)
    ensures t in Slots(st.log) && t !in st.open && t.start >= st.cutFine ==>
      t in st.fine && st.fine[t] == Direct(st.log, t, TWENTY_SECONDS)
    ensures t in st.mid ==> (st.mid[t] == Direct(st.log, t, TWO_MINUTES) <==> MidIntact(st.log, t, st.midCuts))
    ensures t in st.coarse ==> (st.coarse[t] == Direct(st.log, t, ONE_HOUR) <==> HourIntact(st.log, t, st.hourCuts))
  {
    hide Inv, History, Direct, Slots, MidIntact, HourIntact, HourSlot, SampledIn;
    var rest := Outside(st, hours);
    SurvivingSlots(st.log, Unclean(st.log, hours));
    SampledOutside(st, t, TWENTY_SECONDS, 180, hours);
    SampledOutside(st, t, TWO_MINUTES, 30, hours);
    SampledOutside(st, t, ONE_HOUR, 1, hours);
    if t in Slots(st.log) && t !in st.open && t.start >= st.cutFine {
      FineRowExact(rest, t);
    }
    if t in st.mid {
      MidRowExactIff(rest, t);
      SameSplits(rest.log, st.log, t, st.midCuts);
    }
    if t in st.coarse {
      HourRowExactIff(rest, t);
      SameSpoils(rest.log, st.log, t, st.hourCuts);
    }
  }

  lemma RowsExistOutside<K>(st: State<K>, s: Slot<K>, hours: set<Slot<K>>)
    requires Held(Outside(st, hours)) && Clean(s, hours) && s in Slots(st.log) && Tracked(st, s.series)
    ensures Due(MidSlot(s).start, TWO_MINUTES, st.rolledMid) && MidSlot(s).start >= st.cutMid ==> MidSlot(s) in st.mid
    ensures Due(HourSlot(s).start, ONE_HOUR, st.rolledCoarse) && HourSlot(s).start >= st.cutCoarse ==>
      HourSlot(s) in st.coarse
  {
    hide Inv, History, Slots, Target;
    var rest := Outside(st, hours);
    SurvivingSlots(st.log, Unclean(st.log, hours));
    if Due(MidSlot(s).start, TWO_MINUTES, st.rolledMid) && MidSlot(s).start >= st.cutMid {
      MidRowExists(rest, s);
    }
    if Due(HourSlot(s).start, ONE_HOUR, st.rolledCoarse) && HourSlot(s).start >= st.cutCoarse {
      HourRowExists(rest, s);
    }
  }

  /** The hours of the samples that come late in a run. */
  ghost function LateHours<K>(st: State<K>, events: seq<Event<K>>): set<Slot<K>>
    requires Shaped(st)
  {
    if events == [] then {}
    else
      var n := |events| - 1;
      var before, e := LateHours(st, events[..n]), events[n];
      if e.Arrives? && !OnTime(Run(st, events[..n]), e.x) then before + {HourSlot(SampleSlot(e.x))} else before
  }

  ghost predicate Forward<K>(st: State<K>, e: Event<K>) {
    match e
    case Arrives(_) => true
    case Maintains(_, now, _) => st.clock <= now
    case Restarts(now, _) => st.clock <= now
  }

  ghost predicate AllForward<K>(st: State<K>, events: seq<Event<K>>)
    requires Shaped(st)
  {
    forall i :: 0 <= i < |events| ==> Forward(Run(st, events[..i]), events[i])
  }

  lemma {:induction false} LateTolerated<K>(st: State<K>, events: seq<Event<K>>, hours: set<Slot<K>>)
    requires Shaped(st) && AllForward(st, events) && LateHours(st, events) <= hours
    ensures AllTolerated(st, events, hours)
  {
    hide Shaped, Run, HourSlot, SampleSlot;
    if events != [] {
      var n := |events| - 1;
      forall i | 0 <= i <= n ensures events[..n][..i] == events[..i] {
      }
      assert AllForward(st, events[..n]) by {
        forall i | 0 <= i < n ensures Forward(Run(st, events[..n][..i]), events[..n][i]) {
          assert events[..n][..i] == events[..i];
        }
      }
      LateTolerated(st, events[..n], hours);
      forall i | 0 <= i < |events| ensures Tolerated(Run(st, events[..i]), events[i], hours) {
        if i < n {
          assert events[..n][..i] == events[..i] && events[..n][i] == events[i];
        } else {
          assert Forward(Run(st, events[..n]), events[n]);
        }
      }
    }
  }

  /** After any run whatever from an empty sink, late samples and failing calls included, the rows outside
      the hours of late samples are there and mean what they would have without those. */
  lemma LateStaysInItsHour<K>(gpm: bool, events: seq<Event<K>>, t: Slot<K>)
    requires Shaped(Start<K>(gpm)) && AllForward(Start<K>(gpm), events)
    requires HourSlot(t) !in LateHours(Start<K>(gpm), events)
    ensures var st := Run(Start<K>(gpm), events);
      && (t in Slots(st.log) && t !in st.open && t.start >= st.cutFine ==>
           t in st.fine && st.fine[t] == Direct(st.log, t, TWENTY_SECONDS))
      && (t in st.mid ==> (st.mid[t] == Direct(st.log, t, TWO_MINUTES) <==> MidIntact(st.log, t, st.midCuts)))
      && (t in st.coarse ==> (st.coarse[t] == Direct(st.log, t, ONE_HOUR) <==> HourIntact(st.log, t, st.hourCuts)))
    ensures var st := Run(Start<K>(gpm), events);
      t in Slots(st.log) && Tracked(st, t.series) ==>
        && (Due(MidSlot(t).start, TWO_MINUTES, st.rolledMid) && MidSlot(t).start >= st.cutMid ==> MidSlot(t) in st.mid)
        && (Due(HourSlot(t).start, ONE_HOUR, st.rolledCoarse) && HourSlot(t).start >= st.cutCoarse ==>
             HourSlot(t) in st.coarse)
  {
    hide Shaped, Held, Run, Direct, MidIntact, HourIntact, Slots, HourSlot, Outside;
    var start, hours := Start<K>(gpm), LateHours(Start<K>(gpm), events);
    LateTolerated(start, events, hours);
    StartHeld<K>(gpm);
    StartOutside(gpm, hours);
    RunKeepsOutside(start, events, hours);
    RowsOutside(Run(start, events), t, hours);
    var st := Run(start, events);
    if t in Slots(st.log) && Tracked(st, t.series) {
      RowsExistOutside(st, t, hours);
    }
  }

  lemma StartOutside<K>(gpm: bool, hours: set<Slot<K>>)
    ensures Outside(Start<K>(gpm), hours) == Start<K>(gpm)
  {
  }
}
