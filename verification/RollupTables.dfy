/** The rollup tables as maps, and what one run of a rollup query writes
    (db.py, rollup_gpu_metric_rollups, rollup_nvidia_gpm_rollups and prune_rollups). */
module RollupTables {
  import opened Sorting
  import opened Rollup

  ghost predicate WellFormed<K>(table: Table<K>) {
    forall slot :: slot in table ==> table[slot].columns.Keys == Columns(slot.series)
  }

  // ----- GROUP BY target_bucket_start, node_id, gpu_uuid

  function GroupStarts<K(==)>(source: Table<K>, target: Slot<K>, width: int): (starts: set<int>)
    requires width > 0
    ensures forall b :: b in starts <==> Slot(b, target.series) in source && Target(b, width) == target.start
  {
    set s | s in source.Keys && s.series == target.series && Target(s.start, width) == target.start :: s.start
  }

  function GroupRows<K(==)>(source: Table<K>, target: Slot<K>, width: int): (rows: seq<Row>)
    requires width > 0
  {
    var starts := Ascending(GroupStarts(source, target, width));
    assert forall i :: 0 <= i < |starts| ==> starts[i] in starts;
    seq(|starts|, i requires 0 <= i < |starts| => source[Slot(starts[i], target.series)])
  }

  lemma GroupColumns<K>(source: Table<K>, target: Slot<K>, width: int)
    requires WellFormed(source) && width > 0
    ensures HaveColumns(GroupRows(source, target, width), Columns(target.series))
  {
    var starts := Ascending(GroupStarts(source, target, width));
    assert forall i :: 0 <= i < |starts| ==> starts[i] in starts;
  }

  function TargetSlots<K(==)>(source: Table<K>, width: int): set<Slot<K>>
    requires width > 0
  {
    set s | s in source.Keys :: Slot(Target(s.start, width), s.series)
  }

  /** HAVING target_bucket_start + width <= now - width. */
  predicate Due(start: int, width: int, now: int) { start + width <= now - width }

  /** The rows one rollup query returns for one of the two tables. */
  function Rolled<K(==)>(source: Table<K>, width: int, now: int, gpu: bool): Table<K>
    requires WellFormed(source) && width > 0
  {
    map t | t in TargetSlots(source, width) && t.series.Gpu? == gpu && Due(t.start, width, now)
            && SumExpected(GroupRows(source, t, width)) > 0 ::
      (GroupColumns(source, t, width); Aggregate(GroupRows(source, t, width), Columns(t.series)))
  }

  function Pruned<K(==)>(table: Table<K>, cutoff: int): Table<K> {
    map slot | slot in table && slot.start >= cutoff :: table[slot]
  }

  // ----- which samples a row stands for

  /** Every row is the direct aggregate of the samples in the 20 s buckets it covers; those
      buckets lie in the row's window, hold samples, and can receive no more. */
  ghost predicate Faithful<K>(table: Table<K>, cover: Cover<K>, log: seq<Sample<K>>, width: int, swept: int)
    requires width > 0
  {
    && table.Keys == cover.Keys
    && (forall slot :: slot in table ==> table[slot] == RowOf(log, slot.series, cover[slot]))
    && (forall slot :: slot in cover ==> cover[slot] != {})
    && (forall slot, b :: slot in cover && b in cover[slot] ==> Covers(log, slot, b, width, swept))
  }

  ghost predicate Covers<K>(log: seq<Sample<K>>, slot: Slot<K>, b: int, width: int, swept: int)
    requires width > 0
  {
    Target(b, width) == slot.start && Slot(b, slot.series) in Slots(log) && Closed(b, swept)
  }

  /** No sample may arrive any more for a bucket already ready at the last flush. */
  predicate Closed(start: int, swept: int) { start + TWENTY_SECONDS <= swept - TWENTY_SECONDS }

  ghost function GroupCovers<K>(cover: Cover<K>, starts: seq<int>, series: Series<K>): (r: seq<set<int>>)
    requires forall i :: 0 <= i < |starts| ==> Slot(starts[i], series) in cover
    ensures |r| == |starts|
    ensures forall i :: 0 <= i < |r| ==> r[i] == cover[Slot(starts[i], series)]
  {
    seq(|starts|, i requires 0 <= i < |starts| => cover[Slot(starts[i], series)])
  }

  ghost function CoverOf<K>(source: Table<K>, cover: Cover<K>, target: Slot<K>, width: int): set<int>
    requires width > 0 && source.Keys == cover.Keys
  {
    var starts := Ascending(GroupStarts(source, target, width));
    assert forall i :: 0 <= i < |starts| ==> starts[i] in starts;
    AllOf(GroupCovers(cover, starts, target.series))
  }

  ghost function RolledCover<K>(source: Table<K>, cover: Cover<K>, width: int, now: int, gpu: bool): Cover<K>
    requires WellFormed(source) && width > 0 && source.Keys == cover.Keys
  {
    map t | t in Rolled(source, width, now, gpu) :: CoverOf(source, cover, t, width)
  }

  lemma FaithfulColumns<K>(table: Table<K>, cover: Cover<K>, log: seq<Sample<K>>, width: int, swept: int)
    requires width > 0 && Faithful(table, cover, log, width, swept)
    ensures WellFormed(table)
  {
  }

  lemma CoverHas<K>(source: Table<K>, cover: Cover<K>, target: Slot<K>, width: int, b: int)
    requires width > 0 && source.Keys == cover.Keys
    ensures b in CoverOf(source, cover, target, width) <==>
      exists s :: s in source && s.series == target.series && Target(s.start, width) == target.start && b in cover[s]
  {
    var starts := Ascending(GroupStarts(source, target, width));
    assert forall i :: 0 <= i < |starts| ==> starts[i] in starts;
    var covers := GroupCovers(cover, starts, target.series);
    AllOfHas(covers, b);
    if s :| s in source && s.series == target.series && Target(s.start, width) == target.start && b in cover[s] {
      assert s == Slot(s.start, target.series);
      assert s.start in starts;
      var i :| 0 <= i < |starts| && starts[i] == s.start;
      assert b in covers[i];
    }
  }

  lemma OneWindow<K>(source: Table<K>, cover: Cover<K>, log: seq<Sample<K>>, width: int, swept: int,
                     s: Slot<K>, t: Slot<K>, b: int)
    requires width > 0 && Faithful(source, cover, log, width, swept)
    requires s in cover && t in cover && b in cover[s] && b in cover[t]
    ensures s.start == t.start
  {
    assert Covers(log, s, b, width, swept) && Covers(log, t, b, width, swept);
  }

  /** The group's aggregate is the direct aggregate of everything its rows cover. */
  lemma GroupIsDirect<K>(source: Table<K>, cover: Cover<K>, log: seq<Sample<K>>, width: int, swept: int,
                         target: Slot<K>, wider: int)
    requires width > 0 && wider > 0 && Faithful(source, cover, log, width, swept)
    ensures HaveColumns(GroupRows(source, target, wider), Columns(target.series))
    ensures Aggregate(GroupRows(source, target, wider), Columns(target.series))
      == RowOf(log, target.series, CoverOf(source, cover, target, wider))
  {
    var starts := Ascending(GroupStarts(source, target, wider));
    assert forall i :: 0 <= i < |starts| ==> starts[i] in starts;
    var covers := GroupCovers(cover, starts, target.series);
    forall i, j | 0 <= i < j < |covers| ensures covers[i] !! covers[j] {
      forall b | b in covers[i] ensures b !in covers[j] {
        if b in covers[j] {
          OneWindow(source, cover, log, width, swept, Slot(starts[i], target.series),
                    Slot(starts[j], target.series), b);
        }
      }
    }
    AggregateIsDirect(GroupRows(source, target, wider), log, target.series, covers);
  }

  lemma CoveredCounts<K>(log: seq<Sample<K>>, series: Series<K>, cover: set<int>, b: int)
    requires b in cover && Slot(b, series) in Slots(log)
    ensures RowOf(log, series, cover).expected > 0
  {
    MissingSamplesShow(log, series, {}, cover);
    NothingOutside(log, series, Power);
    assert b !in {};
  }

  lemma CoverInside<K>(source: Table<K>, cover: Cover<K>, log: seq<Sample<K>>, width: int, swept: int,
                       target: Slot<K>, wider: int, k: int, b: int)
    requires width > 0 && k > 0 && wider == k * width && wider > 0
    requires Faithful(source, cover, log, width, swept) && b in CoverOf(source, cover, target, wider)
    ensures Covers(log, target, b, wider, swept)
  {
    CoverHas(source, cover, target, wider, b);
    var s :| s in source && s.series == target.series && Target(s.start, wider) == target.start && b in cover[s];
    assert Covers(log, s, b, width, swept);
    TargetNested(b, width, wider, k);
  }

  lemma GroupCounts<K>(source: Table<K>, cover: Cover<K>, log: seq<Sample<K>>, width: int, swept: int,
                       wider: int, s: Slot<K>)
    requires width > 0 && wider > 0 && Faithful(source, cover, log, width, swept) && s in source
    ensures SumExpected(GroupRows(source, Slot(Target(s.start, wider), s.series), wider)) > 0
  {
    var target := Slot(Target(s.start, wider), s.series);
    assert cover[s] != {};
    var b := Least(cover[s]);
    assert Covers(log, s, b, width, swept);
    CoverHas(source, cover, target, wider, b);
    CoveredCounts(log, target.series, CoverOf(source, cover, target, wider), b);
    GroupIsDirect(source, cover, log, width, swept, target, wider);
    hide RowOf, CoverOf, GroupRows, HaveColumns;
  }

  /** Exactly the due windows that still have a source row get a row. */
  lemma RolledKeys<K>(source: Table<K>, cover: Cover<K>, log: seq<Sample<K>>, width: int, swept: int,
                      wider: int, now: int, gpu: bool, s: Slot<K>)
    requires width > 0 && wider > 0 && Faithful(source, cover, log, width, swept) && s in source
    ensures WellFormed(source)
    ensures Slot(Target(s.start, wider), s.series) in Rolled(source, wider, now, gpu)
      <==> s.series.Gpu? == gpu && Target(s.start, wider) + 2 * wider <= now
  {
    hide RowOf, GroupRows, Aggregate, Target, SumExpected;
    FaithfulColumns(source, cover, log, width, swept);
    GroupCounts(source, cover, log, width, swept, wider, s);
    assert Slot(Target(s.start, wider), s.series) in TargetSlots(source, wider);
  }

  lemma RolledFrom<K>(source: Table<K>, wider: int, now: int, gpu: bool, t: Slot<K>)
    requires wider > 0 && WellFormed(source) && t in Rolled(source, wider, now, gpu)
    ensures exists s :: s in source && s.series == t.series && Target(s.start, wider) == t.start
  {
  }

  /** What a rollup query writes is faithful to the raw samples whenever its source is. */
  lemma RolledFaithful<K>(source: Table<K>, cover: Cover<K>, log: seq<Sample<K>>, width: int, swept: int,
                          wider: int, k: int, now: int, gpu: bool)
    requires width > 0 && k > 0 && wider == k * width && wider > 0
    requires Faithful(source, cover, log, width, swept)
    ensures WellFormed(source)
    ensures Faithful(Rolled(source, wider, now, gpu), RolledCover(source, cover, wider, now, gpu), log, wider, swept)
  {
    var rows, covers := Rolled(source, wider, now, gpu), RolledCover(source, cover, wider, now, gpu);
    forall t | t in rows
      ensures rows[t] == RowOf(log, t.series, covers[t]) && covers[t] != {}
    {
      GroupIsDirect(source, cover, log, width, swept, t, wider);
      RolledFrom(source, wider, now, gpu, t);
      var s :| s in source && s.series == t.series && Target(s.start, wider) == t.start;
      assert cover[s] != {};
      CoverHas(source, cover, t, wider, Least(cover[s]));
    }
    forall t, b | t in covers && b in covers[t] ensures Covers(log, t, b, wider, swept) {
      CoverInside(source, cover, log, width, swept, t, wider, k, b);
    }
  }

  /** An upsert of faithful rows keeps a table faithful. */
  lemma UpsertFaithful<K>(table: Table<K>, cover: Cover<K>, rows: Table<K>, rowCover: Cover<K>,
                          log: seq<Sample<K>>, width: int, swept: int)
    requires width > 0
    requires Faithful(table, cover, log, width, swept) && Faithful(rows, rowCover, log, width, swept)
    ensures Faithful(table + rows, cover + rowCover, log, width, swept)
  {
    hide RowOf, Covers;
  }

  ghost function Cut<K>(cover: Cover<K>, cutoff: int): Cover<K> {
    map s | s in cover && s.start >= cutoff :: cover[s]
  }

  lemma PrunedFaithful<K>(table: Table<K>, cover: Cover<K>, log: seq<Sample<K>>, width: int, swept: int, cutoff: int)
    requires width > 0 && Faithful(table, cover, log, width, swept)
    ensures Faithful(Pruned(table, cutoff), Cut(cover, cutoff), log, width, swept)
  {
    hide RowOf, Covers;
  }

  lemma LaterFaithful<K>(table: Table<K>, cover: Cover<K>, log: seq<Sample<K>>, width: int, swept: int, later: int)
    requires width > 0 && swept <= later && Faithful(table, cover, log, width, swept)
    ensures Faithful(table, cover, log, width, later)
  {
    forall slot, b | slot in cover && b in cover[slot] ensures Covers(log, slot, b, width, later) {
      assert Covers(log, slot, b, width, swept);
    }
  }

  /** A sample of an open bucket leaves every row as it is. */
  lemma AppendFaithful<K>(table: Table<K>, cover: Cover<K>, log: seq<Sample<K>>, width: int, swept: int, x: Sample<K>)
    requires width > 0 && Faithful(table, cover, log, width, swept) && !Closed(BucketStart(x.at), swept)
    ensures Faithful(table, cover, log + [x], width, swept)
  {
    SlotsAppend(log, x);
    forall slot | slot in table ensures table[slot] == RowOf(log + [x], slot.series, cover[slot]) {
      assert BucketStart(x.at) in cover[slot] ==> Covers(log, slot, BucketStart(x.at), width, swept);
      TallyFrozen(log, x, slot.series, cover[slot]);
    }
    forall slot, b | slot in cover && b in cover[slot] ensures Covers(log + [x], slot, b, width, swept) {
      assert Covers(log, slot, b, width, swept);
    }
  }

  // ----- running a rollup again

  /** Re-running a rollup on unchanged sources changes no row: a later run returns every row
      an earlier one did, with the same contents. */
  lemma RerunKeepsRows<K>(source: Table<K>, width: int, now: int, later: int, gpu: bool, table: Table<K>, t: Slot<K>)
    requires width > 0 && WellFormed(source) && now <= later
    requires t in Rolled(source, width, now, gpu)
    ensures t in Rolled(source, width, later, gpu)
    ensures var once := table + Rolled(source, width, now, gpu);
      (once + Rolled(source, width, later, gpu))[t] == once[t]
  {
    hide GroupRows, Aggregate, TargetSlots, SumExpected;
    var first, second := Rolled(source, width, now, gpu), Rolled(source, width, later, gpu);
    assert t in second;
    assert first[t] == second[t];
    hide Rolled;
  }
}
