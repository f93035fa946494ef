/** Per-owner totals: ownership splitting followed by the sweep (activity_usage.py, user_statistics). */
module UserStatistics {
  import opened Sorting
  import opened Intervals
  import opened Sweep
  import opened UsageTotals
  import opened Ownership

  ghost predicate OwnsAt(row: Row, bindings: seq<Binding>, start: int, owner: Owner, t: int) {
    row.first <= t < row.last && Owns(bindings, row, start, t, owner)
  }

  /** The cards an owner uses at t: those of the rows that cover t and belong to the owner at t. */
  ghost function OwnedCards(rows: seq<Row>, bindings: seq<Binding>, start: int, owner: Owner, t: int): set<string> {
    set row | row in rows && OwnsAt(row, bindings, start, owner, t) :: row.card
  }

  /** The reference: cards owned, summed over the ticks of the window. */
  ghost function OwnedTime(rows: seq<Row>, bindings: seq<Binding>, start: int, owner: Owner, a: int, b: int): int
    decreases b - a
  {
    if b <= a then 0
    else OwnedTime(rows, bindings, start, owner, a, b - 1) + |OwnedCards(rows, bindings, start, owner, b - 1)|
  }

  function AsUsage(p: Piece): Usage { Usage(p.start, p.end, p.row.card, p.row.model) }

  function OfOwner(pieces: seq<Piece>, owner: Owner): seq<Usage> {
    if pieces == [] then []
    else
      var last := pieces[|pieces| - 1];
      OfOwner(pieces[..|pieces| - 1], owner) + if last.owner == owner then [AsUsage(last)] else []
  }

  lemma {:induction false} OfOwnerMembers(pieces: seq<Piece>, owner: Owner)
    ensures forall u :: u in OfOwner(pieces, owner) <==> exists p :: p in pieces && p.owner == owner && AsUsage(p) == u
  {
    if pieces != [] {
      OfOwnerMembers(pieces[..|pieces| - 1], owner);
      assert pieces == pieces[..|pieces| - 1] + [pieces[|pieces| - 1]];
    }
  }

  lemma {:induction false} HoldingMeans(pieces: seq<Piece>, t: int)
    ensures Holding(pieces, t) >= 0
    ensures Holding(pieces, t) > 0 <==> exists p :: p in pieces && p.start <= t < p.end
  {
    if pieces != [] {
      HoldingMeans(pieces[1..], t);
      assert pieces == [pieces[0]] + pieces[1..];
    }
  }

  lemma {:induction false} FlattenMembers(parts: seq<seq<Piece>>)
    ensures forall p :: p in Flatten(parts) <==> exists i :: 0 <= i < |parts| && p in parts[i]
  {
    if parts != [] {
      FlattenMembers(parts[..|parts| - 1]);
    }
  }

  /** One row contributes its card to an owner at t exactly when the owner owns the row at t. */
  lemma RowContribution(pieces: seq<Piece>, row: Row, bindings: seq<Binding>, start: int, end: int, owner: Owner,
      t: int)
    requires Resolved(pieces, row, bindings, start, end) && start <= t < end
    ensures (exists p :: p in pieces && p.owner == owner && p.start <= t < p.end)
      <==> OwnsAt(row, bindings, start, owner, t)
    ensures forall p :: p in pieces ==> p.row == row
  {
    hide Owns;
    SplitConserves(pieces, Max(start, row.first), Min(end, row.last));
    HoldingMeans(pieces, t);
    forall p | p in pieces && p.start <= t < p.end
      ensures Owns(bindings, row, start, t, owner) <==> p.owner == owner
    {
      assert OwnedOver(p, row, bindings, start);
      if Owns(bindings, row, start, t, owner) {
        OwnsUnique(bindings, row, start, t, owner, p.owner);
      }
    }
  }

  lemma OwnedIsBusy(rows: seq<Row>, bindings: seq<Binding>, start: int, end: int, parts: seq<seq<Piece>>,
      owner: Owner, t: int)
    requires AllResolved(parts, rows, bindings, start, end) && start <= t < end
    ensures Busy(OfOwner(Flatten(parts), owner), t) == OwnedCards(rows, bindings, start, owner, t)
  {
    forall c
      ensures c in Busy(OfOwner(Flatten(parts), owner), t) <==> c in OwnedCards(rows, bindings, start, owner, t)
    {
      BusyHasPiece(Flatten(parts), owner, t, c);
      FlattenMembers(parts);
      forall i | 0 <= i < |rows|
        ensures HasPiece(parts[i], owner, t, c) <==> rows[i].card == c && OwnsAt(rows[i], bindings, start, owner, t)
      {
        RowContribution(parts[i], rows[i], bindings, start, end, owner, t);
      }
      if c in OwnedCards(rows, bindings, start, owner, t) {
        var row :| row in rows && OwnsAt(row, bindings, start, owner, t) && row.card == c;
        var i :| 0 <= i < |rows| && rows[i] == row;
        assert HasPiece(parts[i], owner, t, c);
      }
      if HasPiece(Flatten(parts), owner, t, c) {
        var p :| p in Flatten(parts) && p.owner == owner && p.start <= t < p.end && p.row.card == c;
        var i :| 0 <= i < |parts| && p in parts[i];
        assert HasPiece(parts[i], owner, t, c);
        assert rows[i] in rows;
      }
    }
  }

  ghost predicate HasPiece(pieces: seq<Piece>, owner: Owner, t: int, c: string) {
    exists p :: p in pieces && p.owner == owner && p.start <= t < p.end && p.row.card == c
  }

  lemma BusyHasPiece(pieces: seq<Piece>, owner: Owner, t: int, c: string)
    ensures c in Busy(OfOwner(pieces, owner), t) <==> HasPiece(pieces, owner, t, c)
  {
    OfOwnerMembers(pieces, owner);
    if HasPiece(pieces, owner, t, c) {
      var p :| p in pieces && p.owner == owner && p.start <= t < p.end && p.row.card == c;
      assert AsUsage(p) in OfOwner(pieces, owner) && AsUsage(p).Holds(t);
    }
  }

  lemma {:induction false} OwnedTimeIsGpuTime(rows: seq<Row>, bindings: seq<Binding>, start: int, end: int,
      parts: seq<seq<Piece>>, owner: Owner, b: int)
    requires AllResolved(parts, rows, bindings, start, end) && start <= b <= end
    ensures OwnedTime(rows, bindings, start, owner, start, b) == GpuTime(OfOwner(Flatten(parts), owner), start, b)
    decreases b - start
  {
    if start < b {
      OwnedTimeIsGpuTime(rows, bindings, start, end, parts, owner, b - 1);
      OwnedIsBusy(rows, bindings, start, end, parts, owner, b - 1);
    }
  }

  ghost function Owners(pieces: seq<Piece>): set<Owner> {
    set p | p in pieces :: p.owner
  }

  function Get(groups: map<Owner, seq<Usage>>, owner: Owner): seq<Usage> {
    if owner in groups then groups[owner] else []
  }

  lemma OfOwnerAppend(pieces: seq<Piece>, p: Piece, owner: Owner)
    ensures OfOwner(pieces + [p], owner) == OfOwner(pieces, owner) + if p.owner == owner then [AsUsage(p)] else []
  {
    assert (pieces + [p])[..|pieces|] == pieces;
  }

  method GroupByOwner(pieces: seq<Piece>) returns (groups: map<Owner, seq<Usage>>)
    ensures groups.Keys == Owners(pieces)
    ensures forall owner :: owner in groups ==> groups[owner] == OfOwner(pieces, owner)
  {
    groups := map[];
    for k := 0 to |pieces|
      invariant groups.Keys == Owners(pieces[..k])
      invariant forall owner :: Get(groups, owner) == OfOwner(pieces[..k], owner)
    {
      var p := pieces[k];
      assert pieces[..k + 1] == pieces[..k] + [p];
      ghost var before := groups;
      groups := groups[p.owner := Get(groups, p.owner) + [AsUsage(p)]];
      forall owner ensures Get(groups, owner) == OfOwner(pieces[..k + 1], owner) {
        OfOwnerAppend(pieces[..k], p, owner);
        assert Get(before, owner) == OfOwner(pieces[..k], owner);
      }
    }
    assert pieces[..|pieces|] == pieces;
    forall owner | owner in groups ensures groups[owner] == OfOwner(pieces, owner) {
      assert Get(groups, owner) == OfOwner(pieces, owner);
    }
  }

  /** Every owner's GPU time is the number of distinct cards it owns, integrated over the window. */
  method UserTotals(rows: seq<Row>, bindings: seq<Binding>, start: int, end: int) returns (totals: map<Owner, int>)
    ensures forall owner :: owner in totals ==>
      totals[owner] == OwnedTime(rows, bindings, start, owner, start, end)
    ensures forall owner :: OwnedTime(rows, bindings, start, owner, start, end) != 0 ==> owner in totals
  {
    var pieces := ResolveUsage(rows, bindings, start, end);
    ghost var parts :| AllResolved(parts, rows, bindings, start, end) && pieces == Flatten(parts);
    var groups := GroupByOwner(pieces);
    totals := map[];
    var todo := groups.Keys;
    while todo != {}
      invariant totals.Keys == groups.Keys - todo && todo <= groups.Keys
      invariant forall owner :: owner in totals ==> totals[owner] == GpuTime(OfOwner(pieces, owner), start, end)
    {
      var owner :| owner in todo;
      var gpu, _, _ := Summary(groups[owner], start, end);
      totals := totals[owner := gpu];
      todo := todo - {owner};
    }
    forall owner
      ensures OwnedTime(rows, bindings, start, owner, start, end) == GpuTime(OfOwner(pieces, owner), start, end)
      ensures owner !in totals ==> GpuTime(OfOwner(pieces, owner), start, end) == 0
    {
      if start <= end {
        OwnedTimeIsGpuTime(rows, bindings, start, end, parts, owner, end);
      }
      if owner !in totals {
        OfOwnerMembers(pieces, owner);
        assert forall p :: p in pieces ==> p.owner in Owners(pieces);
        IdleTime(OfOwner(pieces, owner), start, end);
      }
    }
  }

  lemma {:induction false} IdleTime(records: seq<Usage>, a: int, b: int)
    requires forall u :: u !in records
    ensures GpuTime(records, a, b) == 0
    decreases b - a
  {
    if a < b {
      assert Busy(records, b - 1) == {};
      IdleTime(records, a, b - 1);
    }
  }
}
