/** What a restart of the sink's process keeps and forgets (db.py, AsyncDBSink.stop and __init__). */
module RollupRestart {
  import opened Rollup
  import opened RollupTables
  import opened RollupPipeline
  import opened RollupMeaning
  import opened RollupHistory

  /** The samples a restart remembers: those not in a bucket that was lost. */
  ghost function Surviving<K>(log: seq<Sample<K>>, lost: set<Slot<K>>): seq<Sample<K>> {
    if log == [] then []
    else
      var before, x := Surviving(log[..|log| - 1], lost), log[|log| - 1];
      if SampleSlot(x) in lost then before else before + [x]
  }

  /** A bucket in memory without a row is lost with the process. */
  ghost function Lost<K>(st: State<K>): set<Slot<K>> { set s | s in st.open && s !in st.fine }

  /** The next process finds the tables, and starts with empty buckets and its clocks at zero. */
  ghost function Forgotten<K>(st: State<K>): State<K> {
    st.(log := Surviving(st.log, Lost(st)), open := map[], lastFlush := 0, lastMid := 0, lastHour := 0)
  }

  lemma {:induction false} SurvivingSlots<K>(log: seq<Sample<K>>, lost: set<Slot<K>>)
    ensures Slots(Surviving(log, lost)) == Slots(log) - lost
  {
    if log != [] {
      var n := |log| - 1;
      SurvivingSlots(log[..n], lost);
      if SampleSlot(log[n]) !in lost {
        SlotsAppend(Surviving(log[..n], lost), log[n]);
      }
    }
  }

  lemma {:induction false} SurvivingTally<K>(log: seq<Sample<K>>, lost: set<Slot<K>>, series: Series<K>,
      cover: set<int>)
    requires forall b :: b in cover ==> Slot(b, series) !in lost
    ensures TallyOf(Surviving(log, lost), series, cover) == TallyOf(log, series, cover)
  {
    if log != [] {
      var n := |log| - 1;
      var before, x := log[..n], log[n];
      SurvivingTally(before, lost, series, cover);
      assert before + [x] == log;
      if SampleSlot(x) in lost {
        assert SampleSlot(x) == Slot(BucketStart(x.at), x.series);
        TallyFrozen(before, x, series, cover);
      } else if Falls(x, series, cover) {
        TallyAppend(before, x, cover);
        TallyAppend(Surviving(before, lost), x, cover);
      } else {
        TallyFrozen(before, x, series, cover);
        TallyFrozen(Surviving(before, lost), x, series, cover);
      }
    }
  }

  lemma SurvivingFaithful<K>(table: Table<K>, cover: Cover<K>, log: seq<Sample<K>>, width: int, swept: int,
      lost: set<Slot<K>>)
    requires width > 0 && Faithful(table, cover, log, width, swept)
    requires forall t, b :: t in cover && b in cover[t] ==> Slot(b, t.series) !in lost
    ensures Faithful(table, cover, Surviving(log, lost), width, swept)
  {
    hide TallyOf, Slots;
    SurvivingSlots(log, lost);
    forall t | t in table ensures table[t] == RowOf(Surviving(log, lost), t.series, cover[t]) {
      SurvivingTally(log, lost, t.series, cover[t]);
    }
    forall t, b | t in cover && b in cover[t] ensures Covers(Surviving(log, lost), t, b, width, swept) {
      assert Covers(log, t, b, width, swept);
    }
  }

  /** The buckets of a window that has a row are not open. */
  lemma RowBucketsFlushed<K>(st: State<K>, start: int, width: int, s: Slot<K>)
    requires OpenHolds(st) && width >= TWO_MINUTES && TimelyAt(st, start, width) && Target(s.start, width) == start
    ensures s !in st.open
  {
    TargetBounds(s.start, width);
  }

  lemma ForgottenRows<K>(st: State<K>)
    requires OpenHolds(st) && RowsTimely(st) && RowsFaithful(st)
    ensures RowsFaithful(Forgotten(st))
  {
    hide RowOf, Slots, Target, TallyOf;
    var lost := Lost(st);
    SurvivingFaithful(st.fine, Solo(st.fine), st.log, TWENTY_SECONDS, st.swept, lost);
    forall t, b | t in st.mid && b in st.midCover[t] ensures Slot(b, t.series) !in lost {
      assert Covers(st.log, t, b, TWO_MINUTES, st.swept);
      RowBucketsFlushed(st, t.start, TWO_MINUTES, Slot(b, t.series));
    }
    SurvivingFaithful(st.mid, st.midCover, st.log, TWO_MINUTES, st.swept, lost);
    forall t, b | t in st.coarse && b in st.coarseCover[t] ensures Slot(b, t.series) !in lost {
      assert Covers(st.log, t, b, ONE_HOUR, st.swept);
      RowBucketsFlushed(st, t.start, ONE_HOUR, Slot(b, t.series));
    }
    SurvivingFaithful(st.coarse, st.coarseCover, st.log, ONE_HOUR, st.swept, lost);
  }

  lemma FineIsClosed<K>(st: State<K>, s: Slot<K>)
    requires RowsFaithful(st) && s in st.fine
    ensures Closed(s.start, st.swept)
  {
    assert s.start in Solo(st.fine)[s];
    assert Covers(st.log, s, s.start, TWENTY_SECONDS, st.swept);
  }

  lemma ForgottenKept<K>(st: State<K>)
    requires NothingLost(st) && RowsFaithful(st)
    ensures NothingLost(Forgotten(st))
  {
    hide Faithful, Slots;
    SurvivingSlots(st.log, Lost(st));
    forall s | s in Slots(Forgotten(st).log) ensures Kept(Forgotten(st), s) {
      assert Kept(st, s);
      if s in st.fine { FineIsClosed(st, s); }
    }
  }

  lemma ForgottenInv<K>(st: State<K>)
    requires Inv(st)
    ensures Inv(Forgotten(st))
  {
    hide Faithful, Slots, Lost, TallyOf, MidMisses, HourMisses, HasMid, HasHour;
    var next := Forgotten(st);
    ForgottenRows(st);
    ForgottenKept(st);
    SurvivingSlots(st.log, Lost(st));
    KeysMatch(st);
    forall s | s in Slots(next.log) ensures MidMisses(next, s) && HourMisses(next, s) {
      assert MidMisses(st, s) && HourMisses(st, s);
      SameMid(st, next, s);
      SameHour(st, next, s);
    }
    forall s | s in Slots(next.log) && Tracked(next, s.series)
      ensures HasMid(next, s, next.rolledMid) && HasHour(next, s, next.rolledCoarse)
    {
      assert HasMid(st, s, st.rolledMid) && HasHour(st, s, st.rolledCoarse);
      SameMid(st, next, s);
      SameHour(st, next, s);
    }
  }

  /** The sampled buckets of a window that has a row survive. */
  lemma SurvivingWindow<K>(st: State<K>, t: Slot<K>, width: int)
    requires OpenHolds(st) && width >= TWO_MINUTES && TimelyAt(st, t.start, width)
    ensures SampledIn(Forgotten(st).log, t, width) == SampledIn(st.log, t, width)
  {
    hide Slots, Target, OpenHolds;
    SurvivingSlots(st.log, Lost(st));
    forall b | b in SampledIn(st.log, t, width) ensures b in SampledIn(Forgotten(st).log, t, width) {
      RowBucketsFlushed(st, t.start, width, Slot(b, t.series));
    }
  }

  lemma SameSplits<K>(log: seq<Sample<K>>, other: seq<Sample<K>>, t: Slot<K>, cuts: set<Cutoff>)
    requires SampledIn(log, t, TWO_MINUTES) == SampledIn(other, t, TWO_MINUTES)
    ensures MidIntact(log, t, cuts) == MidIntact(other, t, cuts)
  {
    hide SampledIn;
    forall c: int, gone, left ensures Split(log, t, c, gone, left) == Split(other, t, c, gone, left) {
    }
  }

  lemma SameSpoils<K>(log: seq<Sample<K>>, other: seq<Sample<K>>, t: Slot<K>, cuts: set<HourCut>)
    requires SampledIn(log, t, ONE_HOUR) == SampledIn(other, t, ONE_HOUR)
    ensures HourIntact(log, t, cuts) == HourIntact(other, t, cuts)
  {
    hide Slots, Target, MidIntact;
    forall h, gone, left ensures SpoiltBy(log, t, h, gone, left) == SpoiltBy(other, t, h, gone, left) {
      if gone in SampledIn(log, t, ONE_HOUR) {
        var m := MidSlot(Slot(gone, t.series));
        HourOfMid(Slot(gone, t.series));
        forall b ensures b in SampledIn(log, m, TWO_MINUTES) <==> b in SampledIn(other, m, TWO_MINUTES) {
          HourOfMid(Slot(b, t.series));
          assert Target(b, TWO_MINUTES) == m.start ==>
            (b in SampledIn(log, t, ONE_HOUR) <==> b in SampledIn(other, t, ONE_HOUR));
        }
        SameSplits(log, other, m, h.mids);
      }
    }
  }

  lemma ForgottenHistory<K>(st: State<K>)
    requires st.mid.Keys == st.midCover.Keys && st.coarse.Keys == st.coarseCover.Keys
    requires MidHistory(st) && HourHistory(st) && OpenHolds(st) && RowsTimely(st)
    ensures MidHistory(Forgotten(st)) && HourHistory(Forgotten(st))
  {
    var next := Forgotten(st);
    hide Slots, MidIntact, HourIntact, Surviving, Lost, SampledIn, OpenHolds;
    forall t | t in next.mid
      ensures SampledIn(next.log, t, TWO_MINUTES) == SampledIn(st.log, t, TWO_MINUTES)
      ensures MidIntact(next.log, t, st.midCuts) == MidIntact(st.log, t, st.midCuts)
    {
      SurvivingWindow(st, t, TWO_MINUTES);
      SameSplits(next.log, st.log, t, st.midCuts);
    }
    forall t | t in next.coarse
      ensures SampledIn(next.log, t, ONE_HOUR) == SampledIn(st.log, t, ONE_HOUR)
      ensures HourIntact(next.log, t, st.hourCuts) == HourIntact(st.log, t, st.hourCuts)
    {
      SurvivingWindow(st, t, ONE_HOUR);
      SameSpoils(next.log, st.log, t, st.hourCuts);
    }
  }

  lemma ForgottenHolds<K>(st: State<K>)
    requires Held(st)
    ensures Held(Forgotten(st))
  {
    hide MidHistory, HourHistory, OpenHolds, NothingLost, RowsFaithful, RowsComplete, RowsExist, RowsRecent, Surviving,
      Lost;
    ForgottenInv(st);
    KeysMatch(st);
    ForgottenHistory(st);
  }

  /** Once nothing ready is left in memory, exactly the buckets not yet ready are lost. */
  lemma LostIff<K>(st: State<K>, s: Slot<K>)
    requires NothingLost(st) && RowsFaithful(st) && NoneReady(st) && s in Slots(st.log)
    ensures s in Lost(st) <==> !Closed(s.start, st.swept)
  {
    hide Faithful, Slots;
    assert Kept(st, s);
    if s in st.fine { FineIsClosed(st, s); }
  }
}
