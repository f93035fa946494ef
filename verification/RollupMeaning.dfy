/** What the rows mean in every state the pipeline can reach, and where they lose samples. */
module RollupMeaning {
  import opened Rollup
  import opened RollupTables
  import opened RollupPipeline

  ghost function Start<K>(gpm: bool): State<K> {
    State([], map[], map[], map[], map[], map[], map[], 0, 0, 0, 0, 0, 0, 0,
          -FINE_RETENTION, -MID_RETENTION, -COARSE_RETENTION, {}, {}, 0, gpm)
  }

  lemma StartHolds<K>(gpm: bool)
    ensures Inv(Start<K>(gpm))
  {
  }

  /** The 20 s buckets of a window that hold samples. */
  ghost function SampledIn<K>(log: seq<Sample<K>>, t: Slot<K>, width: int): (starts: set<int>)
    requires width > 0
    ensures forall b :: b in starts <==> Slot(b, t.series) in Slots(log) && Target(b, width) == t.start
  {
    set s | s in Slots(log) && s.series == t.series && Target(s.start, width) == t.start :: s.start
  }

  /** The row of a window, aggregated directly from all its samples. */
  ghost function Direct<K>(log: seq<Sample<K>>, t: Slot<K>, width: int): Row
    requires width > 0
  {
    RowOf(log, t.series, SampledIn(log, t, width))
  }

  /** For times from the epoch on, a window is an interval of time. */
  lemma WindowIsInterval(at: int, start: int, width: int, k: int)
    requires at >= 0 && start >= 0 && k > 0 && width == k * TWENTY_SECONDS && start % width == 0
    ensures Target(BucketStart(at), width) == start <==> start <= at < start + width
  {
    NestedFloor(at, TWENTY_SECONDS, width, k);
    var q := start / width;
    assert start == q * width;
    if start <= at < start + width {
      QuotientOf(at, width, q);
    }
  }

  /** Nothing is lost before the 20 s retention: every sampled bucket is still open or has a row
      that is the direct aggregate of all its samples. */
  lemma FineRowExact<K>(st: State<K>, s: Slot<K>)
    requires Inv(st) && s in Slots(st.log) && s !in st.open && s.start >= st.cutFine
    ensures s in st.fine && st.fine[s] == Direct(st.log, s, TWENTY_SECONDS)
  {
    assert Kept(st, s);
    SlotsAligned(st.log, s);
    assert Solo(st.fine)[s] == {s.start};
    FineDirect(st.log, s);
  }

  lemma CoverWithin<K>(table: Table<K>, cover: Cover<K>, log: seq<Sample<K>>, width: int, swept: int, t: Slot<K>)
    requires width > 0 && Faithful(table, cover, log, width, swept) && t in table
    ensures cover[t] <= SampledIn(log, t, width)
    ensures table[t] == Direct(log, t, width) <==> SampledIn(log, t, width) <= cover[t]
  {
    forall b | b in cover[t] ensures b in SampledIn(log, t, width) {
      assert Covers(log, t, b, width, swept);
    }
    WholeRow(log, t.series, cover[t], SampledIn(log, t, width));
  }

  /** A 2 m row is the direct aggregate of its window's samples unless a 20 s row of the window
      has been pruned. */
  lemma MidRowExact<K>(st: State<K>, t: Slot<K>)
    requires Inv(st) && t in st.mid
    requires forall b :: b in SampledIn(st.log, t, TWO_MINUTES) ==> b >= st.cutFine
    ensures st.mid[t] == Direct(st.log, t, TWO_MINUTES)
  {
    hide Faithful, Slots, RowOf, Target;
    KeysMatch(st);
    CoverWithin(st.mid, st.midCover, st.log, TWO_MINUTES, st.swept, t);
    forall b | b in SampledIn(st.log, t, TWO_MINUTES) ensures b in st.midCover[t] {
      assert MidMisses(st, Slot(b, t.series));
    }
  }

  /** A 1 h row, rolled up in two stages, is the direct aggregate of its hour's samples unless
      a row of the hour has been pruned. */
  lemma HourRowExact<K>(st: State<K>, t: Slot<K>)
    requires Inv(st) && t in st.coarse
    requires forall b :: b in SampledIn(st.log, t, ONE_HOUR) ==> b >= st.cutFine && Target(b, TWO_MINUTES) >= st.cutMid
    ensures st.coarse[t] == Direct(st.log, t, ONE_HOUR)
  {
    hide Faithful, Slots, RowOf, Target;
    KeysMatch(st);
    CoverWithin(st.coarse, st.coarseCover, st.log, ONE_HOUR, st.swept, t);
    forall b | b in SampledIn(st.log, t, ONE_HOUR) ensures b in st.coarseCover[t] {
      assert HourMisses(st, Slot(b, t.series));
    }
  }

  /** No rollup is taken too early: once a window is due at the last rollup, it has its row. */
  lemma MidRowExists<K>(st: State<K>, s: Slot<K>)
    requires Inv(st) && s in Slots(st.log) && Tracked(st, s.series)
    requires MidSlot(s).start + 2 * TWO_MINUTES <= st.rolledMid && MidSlot(s).start >= st.cutMid
    ensures MidSlot(s) in st.mid
  {
    assert HasMid(st, s, st.rolledMid);
  }

  lemma HourRowExists<K>(st: State<K>, s: Slot<K>)
    requires Inv(st) && s in Slots(st.log) && Tracked(st, s.series)
    requires HourSlot(s).start + 2 * ONE_HOUR <= st.rolledCoarse && HourSlot(s).start >= st.cutCoarse
    ensures HourSlot(s) in st.coarse
  {
    assert HasHour(st, s, st.rolledCoarse);
  }

  // ----- where samples are lost

  /** A rollup overwrites the row with what is left of its sources, so the row it writes is the
      direct aggregate exactly when none of the window's 20 s rows has been pruned. */
  lemma RerunExactIff<K>(st: State<K>, gpu: bool, t: Slot<K>)
    requires Inv(st) && WellFormed(st.fine) && t in Rolled(st.fine, TWO_MINUTES, st.clock, gpu)
    ensures MidRolled(st, gpu).mid[t] == Direct(st.log, t, TWO_MINUTES)
      <==> forall b :: b in SampledIn(st.log, t, TWO_MINUTES) ==> Slot(b, t.series) in st.fine
  {
    hide Faithful, Slots, RowOf, Target, Rolled, CoverOf;
    MidRolledRows(st, gpu);
    var next := MidRolled(st, gpu);
    KeysMatch(st);
    KeysMatch(next);
    MidRolledAt(st, gpu, t);
    CoverWithin(next.mid, next.midCover, next.log, TWO_MINUTES, next.swept, t);
    forall b | b in SampledIn(st.log, t, TWO_MINUTES)
      ensures b in next.midCover[t] <==> Slot(b, t.series) in st.fine
    {
      FineCovers(st, t, b);
    }
  }

  lemma FineCovers<K>(st: State<K>, t: Slot<K>, b: int)
    requires b in SampledIn(st.log, t, TWO_MINUTES)
    ensures b in CoverOf(st.fine, Solo(st.fine), t, TWO_MINUTES) <==> Slot(b, t.series) in st.fine
  {
    CoverHas(st.fine, Solo(st.fine), t, TWO_MINUTES, b);
    if Slot(b, t.series) in st.fine {
      assert b in Solo(st.fine)[Slot(b, t.series)];
    }
    if b in CoverOf(st.fine, Solo(st.fine), t, TWO_MINUTES) {
      var s :| s in st.fine && s.series == t.series && Target(s.start, TWO_MINUTES) == t.start && b in Solo(st.fine)[s];
      assert s == Slot(b, t.series);
    }
  }

  /** So a 2 m row is spoilt whenever the prune cutoff falls between two of its 20 s rows: the
      next rollup writes it again from the later ones alone. */
  lemma StraddledWindowLosesSamples<K>(st: State<K>, t: Slot<K>, gone: int, left: int)
    requires Inv(st) && st.clock < st.rolledMid + TWO_MINUTES && st.clock < st.rolledCoarse + ONE_HOUR
    requires gone in SampledIn(st.log, t, TWO_MINUTES) && left in SampledIn(st.log, t, TWO_MINUTES)
    requires gone < st.clock - FINE_RETENTION <= left && Slot(left, t.series) in st.fine
    ensures var pruned, gpu := PrunedState(st), t.series.Gpu?;
      WellFormed(pruned.fine) && t in MidRolled(pruned, gpu).mid
      && MidRolled(pruned, gpu).mid[t] != Direct(st.log, t, TWO_MINUTES)
  {
    hide Faithful, RowOf, Rolled, CoverOf, Slots, Target;
    PrunedKeeps(st);
    var pruned := PrunedState(st);
    TablesWellFormed(pruned);
    DueBeforePrune(st, t, gone);
    RolledKeys(pruned.fine, Solo(pruned.fine), pruned.log, TWENTY_SECONDS, pruned.swept, TWO_MINUTES, pruned.clock,
               t.series.Gpu?, Slot(left, t.series));
    assert t == Slot(Target(left, TWO_MINUTES), t.series);
    RerunExactIff(pruned, t.series.Gpu?, t);
    assert Slot(gone, t.series) !in pruned.fine;
  }

  lemma DueBeforePrune<K>(st: State<K>, t: Slot<K>, gone: int)
    requires gone < st.clock - FINE_RETENTION && Target(gone, TWO_MINUTES) == t.start
    ensures Due(t.start, TWO_MINUTES, st.clock)
  {
    TargetBounds(gone, TWO_MINUTES);
  }

  /** A bucket already flushed starts anew with a late sample: the open bucket is the tally of all
      its samples exactly when the bucket was still open or had never been seen. */
  lemma LateSampleExactIff<K>(st: State<K>, x: Sample<K>)
    requires Inv(st)
    ensures var next, slot := Accumulated(st, x), SampleSlot(x);
      next.open[slot] == TallyOf(next.log, slot.series, {slot.start})
      <==> (slot in st.open || slot !in Slots(st.log))
    ensures !(SampleSlot(x) in st.open || SampleSlot(x) !in Slots(st.log)) ==>
      Accumulated(st, x).open[SampleSlot(x)].expected < Expected(st.log + [x], x.series, {SampleSlot(x).start})
  {
    var next, slot := Accumulated(st, x), SampleSlot(x);
    TallyAppend(st.log, x, {slot.start});
    if slot !in st.open {
      if slot in Slots(st.log) {
        CoveredCounts(st.log, slot.series, {slot.start}, slot.start);
        assert TallyOf(next.log, slot.series, {slot.start}).expected > 1;
      } else {
        NoSamples(st.log, slot);
      }
    }
  }

  /** So the 20 s row the next flush writes is the direct aggregate of the bucket's samples if and
      only if the bucket was still open or had never been seen when the sample came. */
  lemma LateRowExactIff<K>(st: State<K>, x: Sample<K>, now: int)
    requires Inv(st) && Closed(SampleSlot(x).start, now)
    ensures var flushed, slot := Written(Swept(Tick(Accumulated(st, x), now)), x.series.Gpu?), SampleSlot(x);
      && slot in flushed.fine
      && (flushed.fine[slot] == Direct(flushed.log, slot, TWENTY_SECONDS)
          <==> slot in st.open || slot !in Slots(st.log))
  {
    var next, slot := Accumulated(st, x), SampleSlot(x);
    LateSampleExactIff(st, x);
    SlotsAppend(st.log, x);
    SlotsAligned(next.log, slot);
    FineDirect(next.log, slot);
    assert ReadyRows(next.open, now, x.series.Gpu?)[slot] == RowFrom(next.open[slot]);
    hide TallyOf, AddSample, Empty, Direct, Inv;
    assert Written(Swept(Tick(next, now)), x.series.Gpu?).fine[slot] == RowFrom(next.open[slot]);
    RowsTell(next.open[slot], next.log, slot);
  }

  lemma RowsTell<K>(t: Tally, log: seq<Sample<K>>, slot: Slot<K>)
    requires t.expected < Expected(log, slot.series, {slot.start})
      || t == TallyOf(log, slot.series, {slot.start})
    ensures RowFrom(t) == RowOf(log, slot.series, {slot.start}) <==> t == TallyOf(log, slot.series, {slot.start})
  {
  }

  lemma FineDirect<K>(log: seq<Sample<K>>, s: Slot<K>)
    requires Target(s.start, TWENTY_SECONDS) == s.start
    ensures Direct(log, s, TWENTY_SECONDS) == RowOf(log, s.series, {s.start})
  {
    forall x | Slot(x, s.series) in Slots(log) ensures x in {s.start} <==> x in SampledIn(log, s, TWENTY_SECONDS) {
      SlotsAligned(log, Slot(x, s.series));
    }
    SameRow(log, s.series, {s.start}, SampledIn(log, s, TWENTY_SECONDS));
  }
}
