/** Which rows are exact in a reachable state: that depends on the prune cutoffs in force when the
    rollups ran (db.py, rollup_gpu_metric_rollups, rollup_nvidia_gpm_rollups and prune_rollups). */
module RollupHistory {
  import opened Sorting
  import opened Rollup
  import opened RollupTables
  import opened RollupPipeline
  import opened RollupMeaning

  /** The cutoff falls between two sampled buckets of a 2 m window. */
  ghost predicate Splits<K>(log: seq<Sample<K>>, t: Slot<K>, cutoff: int) {
    exists gone, left :: Split(log, t, cutoff, gone, left)
  }

  ghost predicate Split<K>(log: seq<Sample<K>>, t: Slot<K>, cutoff: int, gone: int, left: int) {
    gone in SampledIn(log, t, TWO_MINUTES) && left in SampledIn(log, t, TWO_MINUTES) && gone < cutoff <= left
  }

  /** None of the 2 m rollups of the row's table ran with such a cutoff. */
  ghost predicate MidIntact<K>(log: seq<Sample<K>>, t: Slot<K>, cuts: set<Cutoff>) {
    forall c :: c in cuts && c.gpu == t.series.Gpu? ==> !Splits(log, t, c.at)
  }

  /** A 1 h rollup found a 2 m row of the hour, while another was pruned or no longer intact. */
  ghost predicate Spoils<K>(log: seq<Sample<K>>, t: Slot<K>, h: HourCut) {
    exists gone, left :: SpoiltBy(log, t, h, gone, left)
  }

  ghost predicate SpoiltBy<K>(log: seq<Sample<K>>, t: Slot<K>, h: HourCut, gone: int, left: int) {
    && gone in SampledIn(log, t, ONE_HOUR) && left in SampledIn(log, t, ONE_HOUR)
    && Target(left, TWO_MINUTES) >= h.at
    && (Target(gone, TWO_MINUTES) < h.at || !MidIntact(log, Slot(Target(gone, TWO_MINUTES), t.series), h.mids))
  }

  ghost predicate HourIntact<K>(log: seq<Sample<K>>, t: Slot<K>, cuts: set<HourCut>) {
    forall h :: h in cuts && h.gpu == t.series.Gpu? ==> !Spoils(log, t, h)
  }

  ghost predicate MidHistory<K>(st: State<K>)
    requires st.mid.Keys == st.midCover.Keys
  {
    forall t :: t in st.mid ==>
      (SampledIn(st.log, t, TWO_MINUTES) <= st.midCover[t] <==> MidIntact(st.log, t, st.midCuts))
  }

  ghost predicate HourHistory<K>(st: State<K>)
    requires st.coarse.Keys == st.coarseCover.Keys
  {
    forall t :: t in st.coarse ==>
      (SampledIn(st.log, t, ONE_HOUR) <= st.coarseCover[t] <==> HourIntact(st.log, t, st.hourCuts))
  }

  ghost predicate CutsHold<K>(st: State<K>) {
    && (forall c :: c in st.midCuts ==> c.at <= st.cutFine)
    && (forall h :: h in st.hourCuts ==> h.at <= st.cutMid && h.mids <= st.midCuts)
  }

  ghost predicate History<K>(st: State<K>)
    requires RowsFaithful(st)
  {
    KeysMatch(st);
    MidHistory(st) && HourHistory(st) && CutsHold(st)
  }

  /** The invariant together with the history of every row. */
  ghost predicate Held<K>(st: State<K>) { Inv(st) && History(st) }

  lemma StartHeld<K>(gpm: bool)
    ensures Held(Start<K>(gpm))
  {
    StartHolds<K>(gpm);
  }

  /** A 2 m row of a reachable state is the direct aggregate of its window's samples if and only if
      no 2 m rollup ever ran with a prune cutoff between two of them. */
  lemma MidRowExactIff<K>(st: State<K>, t: Slot<K>)
    requires Held(st) && t in st.mid
    ensures st.mid[t] == Direct(st.log, t, TWO_MINUTES) <==> MidIntact(st.log, t, st.midCuts)
  {
    hide Faithful, Slots, RowOf, Target, MidIntact;
    CoverWithin(st.mid, st.midCover, st.log, TWO_MINUTES, st.swept, t);
  }

  /** A 1 h row of a reachable state is the direct aggregate of its hour's samples if and only if
      no 1 h rollup ever found one of its 2 m rows left while another was pruned or not exact. */
  lemma HourRowExactIff<K>(st: State<K>, t: Slot<K>)
    requires Held(st) && t in st.coarse
    ensures st.coarse[t] == Direct(st.log, t, ONE_HOUR) <==> HourIntact(st.log, t, st.hourCuts)
  {
    hide Faithful, Slots, RowOf, Target, HourIntact;
    CoverWithin(st.coarse, st.coarseCover, st.log, ONE_HOUR, st.swept, t);
  }

  // ----- steps that leave the rows alone, or drop some

  lemma RowsKeepHistory<K>(st: State<K>, next: State<K>)
    requires Held(st) && Inv(next) && st.log == next.log
    requires forall t :: t in next.mid ==> t in st.mid && next.midCover[t] == st.midCover[t]
    requires forall t :: t in next.coarse ==> t in st.coarse && next.coarseCover[t] == st.coarseCover[t]
    requires st.midCuts == next.midCuts && st.hourCuts == next.hourCuts
    requires st.cutFine <= next.cutFine && st.cutMid <= next.cutMid
    ensures Held(next)
  {
    hide Faithful, Slots, Target, MidIntact, HourIntact;
  }

  lemma TickHolds<K>(st: State<K>, now: int)
    requires Held(st) && st.clock <= now
    ensures Held(Tick(st, now))
  {
    TickKeeps(st, now);
    RowsKeepHistory(st, Tick(st, now));
  }

  lemma SweptHolds<K>(st: State<K>)
    requires Held(st)
    ensures Held(Swept(st))
  {
    SweptKeeps(st);
    RowsKeepHistory(st, Swept(st));
  }

  lemma WrittenHolds<K>(st: State<K>, gpu: bool)
    requires Held(st)
    ensures Held(Written(st, gpu))
  {
    WrittenKeeps(st, gpu);
    RowsKeepHistory(st, Written(st, gpu));
  }

  lemma ClearedHolds<K>(st: State<K>)
    requires Held(st) && ReadyWritten(st)
    ensures Held(Cleared(st)) && NoneReady(Cleared(st))
  {
    ClearedKeeps(st);
    RowsKeepHistory(st, Cleared(st));
  }

  lemma MarkFlushedHolds<K>(st: State<K>)
    requires Held(st) && NoneReady(st)
    ensures Held(MarkFlushed(st))
  {
    MarkFlushedKeeps(st);
    RowsKeepHistory(st, MarkFlushed(st));
  }

  lemma MarkMidHolds<K>(st: State<K>)
    requires Held(st) && st.clock < st.flushed + FLUSH_INTERVAL && MidUpTo(st, true) && (st.gpm ==> MidUpTo(st, false))
    ensures Held(MarkMid(st))
  {
    MarkMidKeeps(st);
    RowsKeepHistory(st, MarkMid(st));
  }

  lemma MarkHourHolds<K>(st: State<K>)
    requires Held(st) && st.clock < st.rolledMid + TWO_MINUTES && HourUpTo(st, true) && (st.gpm ==> HourUpTo(st, false))
    ensures Held(MarkHour(st))
  {
    MarkHourKeeps(st);
    RowsKeepHistory(st, MarkHour(st));
  }

  lemma PrunedOnlyDrops<K>(st: State<K>)
    requires ClocksHold(st) && st.mid.Keys == st.midCover.Keys && st.coarse.Keys == st.coarseCover.Keys
    ensures var next := PrunedState(st);
      && next.log == st.log && next.midCuts == st.midCuts && next.hourCuts == st.hourCuts
      && st.cutFine <= next.cutFine && st.cutMid <= next.cutMid
      && next.mid.Keys == next.midCover.Keys && next.coarse.Keys == next.coarseCover.Keys
      && (forall t :: t in next.mid ==> t in st.mid && next.midCover[t] == st.midCover[t])
      && (forall t :: t in next.coarse ==> t in st.coarse && next.coarseCover[t] == st.coarseCover[t])
  {
  }

  lemma PrunedHolds<K>(st: State<K>)
    requires Held(st) && st.clock < st.rolledMid + TWO_MINUTES && st.clock < st.rolledCoarse + ONE_HOUR
    ensures Held(PrunedState(st))
  {
    hide PrunedState, RowsFaithful, RowsComplete, RowsExist, OpenHolds, NothingLost, RowsRecent, MidHistory,
      HourHistory;
    PrunedKeeps(st);
    KeysMatch(st);
    PrunedOnlyDrops(st);
    RowsKeepHistory(st, PrunedState(st));
  }

  // ----- accumulating

  lemma SampledElsewhere<K>(log: seq<Sample<K>>, x: Sample<K>, t: Slot<K>, width: int)
    requires width > 0 && Slot(Target(BucketStart(x.at), width), x.series) != t
    ensures SampledIn(log + [x], t, width) == SampledIn(log, t, width)
  {
    hide Target, BucketStart;
    SlotsAppend(log, x);
  }

  lemma MidIntactElsewhere<K>(log: seq<Sample<K>>, x: Sample<K>, t: Slot<K>, cuts: set<Cutoff>)
    requires MidSlot(SampleSlot(x)) != t
    ensures MidIntact(log + [x], t, cuts) == MidIntact(log, t, cuts)
  {
    hide Target, BucketStart, Slots;
    SampledElsewhere(log, x, t, TWO_MINUTES);
    forall c: int, gone, left ensures Split(log + [x], t, c, gone, left) == Split(log, t, c, gone, left) {
    }
  }

  lemma HourIntactElsewhere<K>(log: seq<Sample<K>>, x: Sample<K>, t: Slot<K>, cuts: set<HourCut>)
    requires HourSlot(SampleSlot(x)) != t
    ensures HourIntact(log + [x], t, cuts) == HourIntact(log, t, cuts)
  {
    hide Target, BucketStart, Slots, MidIntact;
    SampledElsewhere(log, x, t, ONE_HOUR);
    forall h, gone, left ensures SpoiltBy(log + [x], t, h, gone, left) == SpoiltBy(log, t, h, gone, left) {
      if gone in SampledIn(log, t, ONE_HOUR) {
        HourOfMid(SampleSlot(x));
        HourOfMid(Slot(gone, t.series));
        MidIntactElsewhere(log, x, Slot(Target(gone, TWO_MINUTES), t.series), h.mids);
      }
    }
  }

  lemma AccumulatedHistory<K>(st: State<K>, x: Sample<K>)
    requires st.mid.Keys == st.midCover.Keys && st.coarse.Keys == st.coarseCover.Keys
    requires MidHistory(st) && HourHistory(st)
    requires MidSlot(SampleSlot(x)) !in st.mid && HourSlot(SampleSlot(x)) !in st.coarse
    ensures MidHistory(Accumulated(st, x)) && HourHistory(Accumulated(st, x))
  {
    hide Slots, Target, MidIntact, HourIntact, AddSample, BucketStart;
    forall t | t in st.mid
      ensures SampledIn(st.log + [x], t, TWO_MINUTES) == SampledIn(st.log, t, TWO_MINUTES)
      ensures MidIntact(st.log + [x], t, st.midCuts) == MidIntact(st.log, t, st.midCuts)
    {
      SampledElsewhere(st.log, x, t, TWO_MINUTES);
      MidIntactElsewhere(st.log, x, t, st.midCuts);
    }
    forall t | t in st.coarse
      ensures SampledIn(st.log + [x], t, ONE_HOUR) == SampledIn(st.log, t, ONE_HOUR)
      ensures HourIntact(st.log + [x], t, st.hourCuts) == HourIntact(st.log, t, st.hourCuts)
    {
      SampledElsewhere(st.log, x, t, ONE_HOUR);
      HourIntactElsewhere(st.log, x, t, st.hourCuts);
    }
  }

  lemma AccumulateHolds<K>(st: State<K>, x: Sample<K>)
    requires Held(st) && OnTime(st, x)
    ensures Held(Accumulated(st, x))
  {
    hide RowsFaithful, RowsComplete, RowsExist, OpenHolds, NothingLost, RowsRecent, MidHistory, HourHistory, SampleSlot,
      AddSample;
    AccumulateKeeps(st, x);
    NoRowYet(st, x);
    KeysMatch(st);
    AccumulatedHistory(st, x);
  }

  // ----- 2 m rollups

  /** In a due window exactly the buckets before the cutoff have lost their rows. */
  lemma SourcesLeft<K>(st: State<K>, t: Slot<K>, b: int)
    requires Inv(st) && st.clock < st.flushed + FLUSH_INTERVAL && Due(t.start, TWO_MINUTES, st.clock)
    requires b in SampledIn(st.log, t, TWO_MINUTES)
    ensures Slot(b, t.series) in st.fine <==> b >= st.cutFine
  {
    hide RowsFaithful, RowsComplete, RowsExist, RowsTimely, ClocksHold, Target, TallyOf;
    var s := Slot(b, t.series);
    assert Kept(st, s) && MidSlot(s) == t;
    WindowFlushed(st, s);
  }

  lemma SourceLeft<K>(st: State<K>, gpu: bool, t: Slot<K>) returns (left: int)
    requires RowsFaithful(st) && WellFormed(st.fine) && t in Rolled(st.fine, TWO_MINUTES, st.clock, gpu)
    ensures left in SampledIn(st.log, t, TWO_MINUTES) && Slot(left, t.series) in st.fine
  {
    hide Rolled, RowOf, Target, Slots;
    RolledFrom(st.fine, TWO_MINUTES, st.clock, gpu, t);
    var s :| s in st.fine && s.series == t.series && Target(s.start, TWO_MINUTES) == t.start;
    left := s.start;
    assert s == Slot(left, t.series) && left in Solo(st.fine)[s];
    assert Covers(st.log, s, left, TWENTY_SECONDS, st.swept);
  }

  lemma RolledCovers<K>(st: State<K>, gpu: bool, t: Slot<K>)
    requires Inv(st) && st.clock < st.flushed + FLUSH_INTERVAL
    requires WellFormed(st.fine) && t in Rolled(st.fine, TWO_MINUTES, st.clock, gpu)
    ensures st.mid.Keys == st.midCover.Keys && t in MidRolled(st, gpu).midCover
    ensures forall b :: b in SampledIn(st.log, t, TWO_MINUTES) ==>
      (b in MidRolled(st, gpu).midCover[t] <==> b >= st.cutFine)
  {
    hide Faithful, Slots, Target, Rolled, CoverOf, MidRolled, RowsComplete, RowsExist, RowsTimely, RowsRecent,
      ClocksHold, OpenHolds, NothingLost;
    KeysMatch(st);
    MidRolledAt(st, gpu, t);
    OnlyDueRolled(st.fine, TWO_MINUTES, st.clock, gpu, t);
    forall b | b in SampledIn(st.log, t, TWO_MINUTES)
      ensures b in MidRolled(st, gpu).midCover[t] <==> b >= st.cutFine
    {
      FineCovers(st, t, b);
      SourcesLeft(st, t, b);
    }
  }

  /** A due window with a row left is written again. */
  lemma LeftIsRolled<K>(st: State<K>, t: Slot<K>, left: int)
    requires Inv(st) && st.clock < st.flushed + FLUSH_INTERVAL && Due(t.start, TWO_MINUTES, st.clock)
    requires left in SampledIn(st.log, t, TWO_MINUTES) && left >= st.cutFine
    ensures WellFormed(st.fine) && t in Rolled(st.fine, TWO_MINUTES, st.clock, t.series.Gpu?)
  {
    hide Faithful, Rolled, Target, RowsComplete, RowsExist, RowsTimely, RowsRecent, ClocksHold, OpenHolds, NothingLost;
    SourcesLeft(st, t, left);
    TablesWellFormed(st);
    RolledKeys(st.fine, Solo(st.fine), st.log, TWENTY_SECONDS, st.swept, TWO_MINUTES, st.clock, t.series.Gpu?,
               Slot(left, t.series));
  }

  lemma MidIntactAfter<K>(log: seq<Sample<K>>, t: Slot<K>, cuts: set<Cutoff>, c: Cutoff)
    ensures MidIntact(log, t, cuts + {c})
      <==> MidIntact(log, t, cuts) && (c.gpu == t.series.Gpu? ==> !Splits(log, t, c.at))
  {
    hide Splits;
    if MidIntact(log, t, cuts + {c}) {
      assert c in cuts + {c};
      forall d | d in cuts && d.gpu == t.series.Gpu? ensures !Splits(log, t, d.at) {
        assert d in cuts + {c};
      }
    }
  }

  /** The rollup of now writes an exact row exactly if its own cutoff splits nothing, and no earlier
      cutoff can have split what it does not. */
  lemma MidWindowHistory<K>(st: State<K>, gpu: bool, t: Slot<K>)
    requires Held(st) && st.clock < st.flushed + FLUSH_INTERVAL && WellFormed(st.fine)
    ensures st.mid.Keys == st.midCover.Keys && MidRolled(st, gpu).mid.Keys == MidRolled(st, gpu).midCover.Keys
    ensures t in MidRolled(st, gpu).mid ==>
      (SampledIn(st.log, t, TWO_MINUTES) <= MidRolled(st, gpu).midCover[t]
       <==> MidIntact(st.log, t, MidRolled(st, gpu).midCuts))
  {
    KeysMatch(st);
    MidRolledAt(st, gpu, t);
    MidFields(st, gpu);
    var c := Cutoff(gpu, st.cutFine);
    MidIntactAfter(st.log, t, st.midCuts, c);
    hide Faithful, Rolled, RolledCover, MidRolled, Slots, Target, MidIntact, OpenHolds, NothingLost, RowsFaithful,
      RowsComplete, RowsExist, RowsRecent, ClocksHold, HourHistory;
    if t in Rolled(st.fine, TWO_MINUTES, st.clock, gpu) {
      OnlyDueRolled(st.fine, TWO_MINUTES, st.clock, gpu, t);
      RolledCovers(st, gpu, t);
      var left := SourceLeft(st, gpu, t);
      SourcesLeft(st, t, left);
      RewrittenIntact(st, t, left);
    } else if t in st.mid && t.series.Gpu? == gpu {
      if gone, left :| Split(st.log, t, st.cutFine, gone, left) {
        assert TimelyAt(st, t.start, TWO_MINUTES);
        LeftIsRolled(st, t, left);
      }
    }
  }

  lemma RewrittenIntact<K>(st: State<K>, t: Slot<K>, left: int)
    requires CutsHold(st) && left in SampledIn(st.log, t, TWO_MINUTES) && left >= st.cutFine
    ensures (forall b :: b in SampledIn(st.log, t, TWO_MINUTES) ==> b >= st.cutFine)
      <==> MidIntact(st.log, t, st.midCuts) && !Splits(st.log, t, st.cutFine)
  {
    if gone :| gone in SampledIn(st.log, t, TWO_MINUTES) && gone < st.cutFine {
      assert Split(st.log, t, st.cutFine, gone, left);
    }
  }

  lemma MidRolledKeys<K>(st: State<K>, gpu: bool)
    requires RowsFaithful(st) && WellFormed(st.fine)
    ensures MidRolled(st, gpu).mid.Keys == MidRolled(st, gpu).midCover.Keys
  {
    hide Faithful, Rolled, CoverOf;
    KeysMatch(st);
  }

  lemma MidRolledHistory<K>(st: State<K>, gpu: bool)
    requires Held(st) && st.clock < st.flushed + FLUSH_INTERVAL && WellFormed(st.fine)
    ensures MidRolled(st, gpu).mid.Keys == MidRolled(st, gpu).midCover.Keys && MidHistory(MidRolled(st, gpu))
  {
    hide MidRolled, History, MidIntact, SampledIn, RowsFaithful, OpenHolds, NothingLost, RowsTimely, RowsComplete,
      RowsExist, RowsRecent, ClocksHold;
    MidFields(st, gpu);
    var next := MidRolled(st, gpu);
    MidRolledKeys(st, gpu);
    forall t | t in next.mid
      ensures SampledIn(next.log, t, TWO_MINUTES) <= next.midCover[t] <==> MidIntact(next.log, t, next.midCuts)
    {
      MidWindowHistory(st, gpu, t);
    }
  }

  lemma MidRolledHolds<K>(st: State<K>, gpu: bool)
    requires Held(st) && st.clock < st.flushed + FLUSH_INTERVAL && (gpu || st.gpm)
    ensures WellFormed(st.fine) && Held(MidRolled(st, gpu)) && MidUpTo(MidRolled(st, gpu), gpu)
    ensures MidUpTo(st, !gpu) ==> MidUpTo(MidRolled(st, gpu), !gpu)
  {
    hide MidRolled, MidHistory, OpenHolds, NothingLost, RowsFaithful, RowsTimely, RowsComplete, RowsExist, RowsRecent,
      ClocksHold, MidUpTo, HourIntact, SampledIn;
    MidRolledKeeps(st, gpu);
    MidFields(st, gpu);
    KeysMatch(st);
    KeysMatch(MidRolled(st, gpu));
    MidRolledHistory(st, gpu);
  }

  // ----- 1 h rollups

  /** In a due hour exactly the windows before the cutoff have lost their 2 m rows. */
  lemma MidRowsLeft<K>(st: State<K>, t: Slot<K>, b: int)
    requires Inv(st) && st.clock < st.rolledMid + TWO_MINUTES && Tracked(st, t.series)
    requires Due(t.start, ONE_HOUR, st.clock) && b in SampledIn(st.log, t, ONE_HOUR)
    ensures MidSlot(Slot(b, t.series)) in st.mid <==> Target(b, TWO_MINUTES) >= st.cutMid
  {
    hide RowsFaithful, RowsComplete, RowsTimely, ClocksHold, OpenHolds, NothingLost, Target, TallyOf;
    var s := Slot(b, t.series);
    assert HourSlot(s) == t && HasMid(st, s, st.rolledMid);
    HourRolledUp(st, s);
  }

  /** An hour's row covers a bucket if and only if the bucket's 2 m row is left and covers it. */
  lemma HourCoverMeans<K>(st: State<K>, t: Slot<K>, b: int)
    requires RowsFaithful(st) && b in SampledIn(st.log, t, ONE_HOUR)
    ensures st.mid.Keys == st.midCover.Keys
    ensures b in CoverOf(st.mid, st.midCover, t, ONE_HOUR)
      <==> var m := MidSlot(Slot(b, t.series)); m in st.mid && b in st.midCover[m]
  {
    hide RowOf, Slots, Target, CoverOf;
    KeysMatch(st);
    CoverHas(st.mid, st.midCover, t, ONE_HOUR, b);
    var m := MidSlot(Slot(b, t.series));
    HourOfMid(Slot(b, t.series));
    if m in st.mid && b in st.midCover[m] {
      assert m.series == t.series && Target(m.start, ONE_HOUR) == t.start;
    }
    if b in CoverOf(st.mid, st.midCover, t, ONE_HOUR) {
      var s :| s in st.mid && s.series == t.series && Target(s.start, ONE_HOUR) == t.start && b in st.midCover[s];
      assert Covers(st.log, s, b, TWO_MINUTES, st.swept);
      assert s == m;
    }
  }

  lemma WindowInHour<K>(log: seq<Sample<K>>, t: Slot<K>, b: int, c: int)
    requires b in SampledIn(log, t, ONE_HOUR) && c in SampledIn(log, MidSlot(Slot(b, t.series)), TWO_MINUTES)
    ensures c in SampledIn(log, t, ONE_HOUR) && MidSlot(Slot(c, t.series)) == MidSlot(Slot(b, t.series))
  {
    hide Slots, Target;
    HourOfMid(Slot(b, t.series));
    HourOfMid(Slot(c, t.series));
  }

  /** The 2 m row of a sampled bucket is left, and covers all its window's sampled buckets. */
  ghost predicate MidWhole<K>(st: State<K>, t: Slot<K>, b: int)
    requires st.mid.Keys == st.midCover.Keys
  {
    var m := MidSlot(Slot(b, t.series));
    m in st.mid && SampledIn(st.log, m, TWO_MINUTES) <= st.midCover[m]
  }

  lemma HourWholeIff<K>(st: State<K>, t: Slot<K>)
    requires RowsFaithful(st)
    ensures st.mid.Keys == st.midCover.Keys
    ensures SampledIn(st.log, t, ONE_HOUR) <= CoverOf(st.mid, st.midCover, t, ONE_HOUR)
      <==> forall b :: b in SampledIn(st.log, t, ONE_HOUR) ==> MidWhole(st, t, b)
  {
    hide Faithful, Slots, Target, CoverOf, SampledIn;
    KeysMatch(st);
    var sampled, cover := SampledIn(st.log, t, ONE_HOUR), CoverOf(st.mid, st.midCover, t, ONE_HOUR);
    if sampled <= cover {
      forall b | b in sampled ensures MidWhole(st, t, b) {
        HourCoverMeans(st, t, b);
        var m := MidSlot(Slot(b, t.series));
        forall c | c in SampledIn(st.log, m, TWO_MINUTES) ensures c in st.midCover[m] {
          WindowInHour(st.log, t, b, c);
          HourCoverMeans(st, t, c);
        }
      }
    } else {
      NotWithin(sampled, cover);
      var b := AnyOf(sampled - cover);
      HourCoverMeans(st, t, b);
      BucketInWindow(st.log, t, b);
    }
  }

  lemma NotWithin(a: set<int>, b: set<int>)
    requires !(a <= b)
    ensures a - b != {}
  {
    if a - b == {} {
      forall x | x in a ensures x in b { assert x !in a - b; }
    }
  }

  lemma BucketInWindow<K>(log: seq<Sample<K>>, t: Slot<K>, b: int)
    requires b in SampledIn(log, t, ONE_HOUR)
    ensures b in SampledIn(log, MidSlot(Slot(b, t.series)), TWO_MINUTES)
  {
  }

  /** The 1 h row a rollup writes is the direct aggregate of its hour's samples if and only if the
      2 m row of every sampled bucket is left and itself exact. */
  lemma HourRerunExactIff<K>(st: State<K>, gpu: bool, t: Slot<K>)
    requires Inv(st) && WellFormed(st.mid) && st.mid.Keys == st.midCover.Keys
    requires t in Rolled(st.mid, ONE_HOUR, st.clock, gpu)
    ensures HourRolled(st, gpu).coarse[t] == Direct(st.log, t, ONE_HOUR)
      <==> forall b :: b in SampledIn(st.log, t, ONE_HOUR) ==>
        var m := MidSlot(Slot(b, t.series)); m in st.mid && st.mid[m] == Direct(st.log, m, TWO_MINUTES)
  {
    HourRows(st, gpu);
    var next := HourRolled(st, gpu);
    KeysMatch(st);
    KeysMatch(next);
    HourRolledAt(st, gpu, t);
    hide Faithful, Slots, RowOf, Target, Rolled, CoverOf, SampledIn, HourRolled, OpenHolds, NothingLost, RowsComplete,
      RowsExist, RowsTimely, RowsRecent, ClocksHold;
    CoverWithin(next.coarse, next.coarseCover, next.log, ONE_HOUR, next.swept, t);
    HourWholeIff(st, t);
    forall b | b in SampledIn(st.log, t, ONE_HOUR)
      ensures MidWhole(st, t, b)
        <==> var m := MidSlot(Slot(b, t.series)); m in st.mid && st.mid[m] == Direct(st.log, m, TWO_MINUTES)
    {
      var m := MidSlot(Slot(b, t.series));
      if m in st.mid {
        CoverWithin(st.mid, st.midCover, st.log, TWO_MINUTES, st.swept, m);
      }
    }
  }

  /** An hour whose 2 m rows are all left and intact is spoilt by no rollup so far. */
  ghost predicate WindowsGood<K>(st: State<K>, t: Slot<K>) {
    forall b :: b in SampledIn(st.log, t, ONE_HOUR) ==> WindowGood(st, t, b)
  }

  ghost predicate WindowGood<K>(st: State<K>, t: Slot<K>, b: int) {
    Target(b, TWO_MINUTES) >= st.cutMid && MidIntact(st.log, MidSlot(Slot(b, t.series)), st.midCuts)
  }

  lemma GoodIsIntact<K>(st: State<K>, t: Slot<K>, left: int)
    requires CutsHold(st) && left in SampledIn(st.log, t, ONE_HOUR) && Target(left, TWO_MINUTES) >= st.cutMid
    ensures WindowsGood(st, t)
      <==> HourIntact(st.log, t, st.hourCuts) && !Spoils(st.log, t, HourCut(t.series.Gpu?, st.cutMid, st.midCuts))
  {
    hide SampledIn, Target, Splits;
    var now := HourCut(t.series.Gpu?, st.cutMid, st.midCuts);
    if WindowsGood(st, t) {
      forall h, gone, l | h == now || h in st.hourCuts ensures !SpoiltBy(st.log, t, h, gone, l) {
        if gone in SampledIn(st.log, t, ONE_HOUR) { assert WindowGood(st, t, gone); }
      }
    } else {
      var gone :| gone in SampledIn(st.log, t, ONE_HOUR) && !WindowGood(st, t, gone);
      assert SpoiltBy(st.log, t, now, gone, left);
    }
  }

  lemma HourIntactAfter<K>(log: seq<Sample<K>>, t: Slot<K>, cuts: set<HourCut>, h: HourCut)
    ensures HourIntact(log, t, cuts + {h})
      <==> HourIntact(log, t, cuts) && (h.gpu == t.series.Gpu? ==> !Spoils(log, t, h))
  {
    hide Spoils;
    if HourIntact(log, t, cuts + {h}) {
      assert h in cuts + {h};
      forall g | g in cuts && g.gpu == t.series.Gpu? ensures !Spoils(log, t, g) {
        assert g in cuts + {h};
      }
    }
  }

  lemma MidRowLeft<K>(st: State<K>, gpu: bool, t: Slot<K>) returns (left: int)
    requires RowsFaithful(st) && RowsRecent(st) && WellFormed(st.mid) && t in Rolled(st.mid, ONE_HOUR, st.clock, gpu)
    ensures left in SampledIn(st.log, t, ONE_HOUR) && Target(left, TWO_MINUTES) >= st.cutMid
  {
    hide Rolled, RowOf, Target, Slots;
    RolledFrom(st.mid, ONE_HOUR, st.clock, gpu, t);
    var s :| s in st.mid && s.series == t.series && Target(s.start, ONE_HOUR) == t.start;
    assert st.midCover[s] != {};
    left := AnyOf(st.midCover[s]);
    assert Covers(st.log, s, left, TWO_MINUTES, st.swept);
    HourOfMid(Slot(left, t.series));
  }

  lemma WindowsGoodIff<K>(st: State<K>, t: Slot<K>)
    requires Held(st) && st.clock < st.rolledMid + TWO_MINUTES && Tracked(st, t.series)
    requires Due(t.start, ONE_HOUR, st.clock)
    ensures st.mid.Keys == st.midCover.Keys
    ensures SampledIn(st.log, t, ONE_HOUR) <= CoverOf(st.mid, st.midCover, t, ONE_HOUR) <==> WindowsGood(st, t)
  {
    hide CoverOf, SampledIn, Target, MidIntact, HourHistory, CutsHold, Slots, Faithful, OpenHolds, NothingLost,
      RowsComplete, RowsExist, RowsTimely, RowsRecent, ClocksHold;
    KeysMatch(st);
    HourWholeIff(st, t);
    forall b | b in SampledIn(st.log, t, ONE_HOUR) ensures MidWhole(st, t, b) <==> WindowGood(st, t, b) {
      MidRowsLeft(st, t, b);
    }
  }

  lemma LeftIsRolledToHour<K>(st: State<K>, t: Slot<K>, left: int)
    requires Inv(st) && st.clock < st.rolledMid + TWO_MINUTES && Tracked(st, t.series)
    requires Due(t.start, ONE_HOUR, st.clock)
    requires left in SampledIn(st.log, t, ONE_HOUR) && Target(left, TWO_MINUTES) >= st.cutMid
    ensures WellFormed(st.mid) && t in Rolled(st.mid, ONE_HOUR, st.clock, t.series.Gpu?)
  {
    hide Faithful, Rolled, Target, RowsComplete, RowsExist, RowsTimely, RowsRecent, ClocksHold, OpenHolds, NothingLost;
    MidRowsLeft(st, t, left);
    TablesWellFormed(st);
    HourOfMid(Slot(left, t.series));
    RolledKeys(st.mid, st.midCover, st.log, TWO_MINUTES, st.swept, ONE_HOUR, st.clock, t.series.Gpu?,
               MidSlot(Slot(left, t.series)));
  }

  lemma RewrittenHour<K>(st: State<K>, gpu: bool, t: Slot<K>)
    requires Held(st) && st.clock < st.rolledMid + TWO_MINUTES && (gpu || st.gpm)
    requires WellFormed(st.mid) && st.mid.Keys == st.midCover.Keys && t in Rolled(st.mid, ONE_HOUR, st.clock, gpu)
    ensures SampledIn(st.log, t, ONE_HOUR) <= CoverOf(st.mid, st.midCover, t, ONE_HOUR)
      <==> HourIntact(st.log, t, st.hourCuts + {HourCut(gpu, st.cutMid, st.midCuts)})
  {
    hide Faithful, Rolled, CoverOf, Slots, Target, HourIntact, OpenHolds, NothingLost, RowsFaithful, RowsComplete,
      RowsExist, RowsRecent, ClocksHold, MidHistory, HourHistory, WindowsGood, SampledIn, MidIntact;
    OnlyDueRolled(st.mid, ONE_HOUR, st.clock, gpu, t);
    WindowsGoodIff(st, t);
    var left := MidRowLeft(st, gpu, t);
    GoodIsIntact(st, t, left);
    HourIntactAfter(st.log, t, st.hourCuts, HourCut(gpu, st.cutMid, st.midCuts));
  }

  lemma UntouchedHour<K>(st: State<K>, gpu: bool, t: Slot<K>)
    requires Held(st) && st.clock < st.rolledMid + TWO_MINUTES && (gpu || st.gpm)
    requires WellFormed(st.mid) && t !in Rolled(st.mid, ONE_HOUR, st.clock, gpu) && t in st.coarse
    ensures HourIntact(st.log, t, st.hourCuts + {HourCut(gpu, st.cutMid, st.midCuts)})
      <==> HourIntact(st.log, t, st.hourCuts)
  {
    hide Faithful, Rolled, CoverOf, Slots, Target, HourIntact, OpenHolds, NothingLost, RowsFaithful, RowsComplete,
      RowsExist, RowsRecent, ClocksHold, MidHistory, HourHistory, SampledIn, MidIntact;
    var h := HourCut(gpu, st.cutMid, st.midCuts);
    HourIntactAfter(st.log, t, st.hourCuts, h);
    if t.series.Gpu? == gpu {
      if gone, left :| SpoiltBy(st.log, t, h, gone, left) {
        assert TimelyAt(st, t.start, ONE_HOUR);
        LeftIsRolledToHour(st, t, left);
      }
    }
  }

  lemma HourWindowHistory<K>(st: State<K>, gpu: bool, t: Slot<K>)
    requires Held(st) && st.clock < st.rolledMid + TWO_MINUTES && (gpu || st.gpm)
    requires WellFormed(st.mid) && st.mid.Keys == st.midCover.Keys
    ensures st.coarse.Keys == st.coarseCover.Keys
    ensures HourRolled(st, gpu).coarse.Keys == HourRolled(st, gpu).coarseCover.Keys
    ensures t in HourRolled(st, gpu).coarse ==>
      (SampledIn(st.log, t, ONE_HOUR) <= HourRolled(st, gpu).coarseCover[t]
       <==> HourIntact(st.log, t, HourRolled(st, gpu).hourCuts))
  {
    hide Faithful, Rolled, HourRolled, CoverOf, Slots, Target, HourIntact, OpenHolds, NothingLost, RowsFaithful,
      RowsComplete, RowsExist, RowsRecent, RowsTimely, ClocksHold, MidHistory, CutsHold, SampledIn;
    KeysMatch(st);
    HourRolledAt(st, gpu, t);
    HourFields(st, gpu);
    if t in Rolled(st.mid, ONE_HOUR, st.clock, gpu) {
      RewrittenHour(st, gpu, t);
    } else if t in st.coarse {
      UntouchedHour(st, gpu, t);
    }
  }

  lemma HourRolledKeys<K>(st: State<K>, gpu: bool)
    requires RowsFaithful(st) && WellFormed(st.mid) && st.mid.Keys == st.midCover.Keys
    ensures HourRolled(st, gpu).coarse.Keys == HourRolled(st, gpu).coarseCover.Keys
  {
    hide Faithful, Rolled, CoverOf;
    KeysMatch(st);
  }

  lemma HourRolledHistory<K>(st: State<K>, gpu: bool)
    requires Held(st) && st.clock < st.rolledMid + TWO_MINUTES && (gpu || st.gpm)
    requires WellFormed(st.mid) && st.mid.Keys == st.midCover.Keys
    ensures HourRolled(st, gpu).coarse.Keys == HourRolled(st, gpu).coarseCover.Keys && HourHistory(HourRolled(st, gpu))
  {
    hide HourRolled, History, HourIntact, SampledIn, RowsFaithful, OpenHolds, NothingLost, RowsTimely, RowsComplete,
      RowsExist, RowsRecent, ClocksHold;
    HourFields(st, gpu);
    var next := HourRolled(st, gpu);
    HourRolledKeys(st, gpu);
    forall t | t in next.coarse
      ensures SampledIn(next.log, t, ONE_HOUR) <= next.coarseCover[t] <==> HourIntact(next.log, t, next.hourCuts)
    {
      HourWindowHistory(st, gpu, t);
    }
  }

  lemma HourRolledHolds<K>(st: State<K>, gpu: bool)
    requires Held(st) && st.clock < st.rolledMid + TWO_MINUTES && st.clock < st.flushed + FLUSH_INTERVAL
    requires gpu || st.gpm
    ensures WellFormed(st.mid) && st.mid.Keys == st.midCover.Keys
    ensures Held(HourRolled(st, gpu)) && HourUpTo(HourRolled(st, gpu), gpu)
    ensures HourUpTo(st, !gpu) ==> HourUpTo(HourRolled(st, gpu), !gpu)
  {
    hide HourRolled, HourHistory, OpenHolds, NothingLost, RowsFaithful, RowsTimely, RowsComplete, RowsExist, RowsRecent,
      ClocksHold, HourUpTo, MidIntact, SampledIn;
    HourRolledKeeps(st, gpu);
    HourFields(st, gpu);
    KeysMatch(st);
    KeysMatch(HourRolled(st, gpu));
    HourRolledHistory(st, gpu);
  }

  // ----- pruning and rolling up again

  /** Less than their cadences have passed since the last flush and the last rollups. */
  ghost predicate Recent<K>(st: State<K>) {
    && st.clock < st.flushed + FLUSH_INTERVAL && st.clock < st.rolledMid + TWO_MINUTES
    && st.clock < st.rolledCoarse + ONE_HOUR
  }

  /** A prune followed by a 2 m rollup leaves a 2 m row exact if and only if it was exact and the
      new cutoff does not fall between two of its sampled buckets. */
  lemma PruneSpoilsIff<K>(st: State<K>, t: Slot<K>)
    requires Held(st) && Recent(st) && Tracked(st, t.series)
    requires t in st.mid && t.start >= st.clock - MID_RETENTION
    ensures var pruned, gpu := PrunedState(st), t.series.Gpu?;
      && WellFormed(pruned.fine) && t in MidRolled(pruned, gpu).mid
      && (MidRolled(pruned, gpu).mid[t] == Direct(st.log, t, TWO_MINUTES)
          <==> st.mid[t] == Direct(st.log, t, TWO_MINUTES) && !Splits(st.log, t, st.clock - FINE_RETENTION))
  {
    hide Inv, History, Direct, MidIntact, Splits, MidRolled;
    var pruned, gpu := PrunedState(st), t.series.Gpu?;
    PrunedHolds(st);
    MidRolledHolds(pruned, gpu);
    MidFields(pruned, gpu);
    MidStays(pruned, gpu, t);
    MidRowExactIff(st, t);
    MidRowExactIff(MidRolled(pruned, gpu), t);
    MidIntactAfter(st.log, t, st.midCuts, Cutoff(gpu, st.clock - FINE_RETENTION));
  }

  lemma MidStays<K>(st: State<K>, gpu: bool, t: Slot<K>)
    requires WellFormed(st.fine) && t in st.mid
    ensures t in MidRolled(st, gpu).mid
  {
    hide Rolled, RolledCover;
  }

  lemma HourStays<K>(st: State<K>, gpu: bool, t: Slot<K>)
    requires WellFormed(st.mid) && st.mid.Keys == st.midCover.Keys && t in st.coarse
    ensures t in HourRolled(st, gpu).coarse
  {
    hide Rolled, RolledCover;
  }

  /** And a 1 h rollup after both leaves a 1 h row exact if and only if it was exact and finds none
      of its 2 m rows left while another is pruned or no longer exact. */
  lemma PruneSpoilsHourIff<K>(st: State<K>, t: Slot<K>)
    requires Held(st) && Recent(st) && Tracked(st, t.series)
    requires t in st.coarse && t.start >= st.clock - COARSE_RETENTION
    ensures var pruned, gpu := PrunedState(st), t.series.Gpu?;
      var h := HourCut(gpu, st.clock - MID_RETENTION, st.midCuts + {Cutoff(gpu, st.clock - FINE_RETENTION)});
      WellFormed(pruned.fine)
      && var mid := MidRolled(pruned, gpu);
      && WellFormed(mid.mid) && mid.mid.Keys == mid.midCover.Keys && t in HourRolled(mid, gpu).coarse
      && (HourRolled(mid, gpu).coarse[t] == Direct(st.log, t, ONE_HOUR)
          <==> st.coarse[t] == Direct(st.log, t, ONE_HOUR) && !Spoils(st.log, t, h))
  {
    hide Inv, History, Direct, HourIntact, Spoils, MidRolled, HourRolled;
    var pruned, gpu := PrunedState(st), t.series.Gpu?;
    PrunedHolds(st);
    MidRolledHolds(pruned, gpu);
    MidFields(pruned, gpu);
    var mid := MidRolled(pruned, gpu);
    HourRolledHolds(mid, gpu);
    HourFields(mid, gpu);
    HourStays(mid, gpu, t);
    HourRowExactIff(st, t);
    HourRowExactIff(HourRolled(mid, gpu), t);
    HourIntactAfter(st.log, t, st.hourCuts, HourCut(gpu, st.clock - MID_RETENTION, mid.midCuts));
  }
}
