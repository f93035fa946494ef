/** Who owns a usage row at each instant (activity_usage.py, legacy_bindings and resolve_usage). */
module Ownership {
  import opened Sorting
  import opened Intervals
  import opened Wrappers

  /** An account of a node bound to a user from validFrom until validTo (or still). An empty name is no name. */
  datatype Binding = Binding(node: string, uid: int, name: string, userId: string, validFrom: int,
      validTo: Option<int>)
  {
    predicate Valid(t: int) { validFrom <= t && (validTo == None || t < validTo.value) }
  }

  datatype Row = Row(node: string, uid: Option<int>, user: Option<string>, first: int, last: int, card: string,
    model: string)

  datatype Account = Uid(uid: int) | Name(user: Option<string>)

  datatype Owner = User(id: string) | Raw(node: string, account: Account)

  datatype Piece = Piece(row: Row, owner: Owner, start: int, end: int)

  function RawOwner(row: Row): Owner {
    Raw(row.node, if row.uid.Some? then Uid(row.uid.value) else Name(row.user))
  }

  /** The reference owner at t: the valid binding that started last, the first listed on a tie. */
  ghost predicate IsOwner(matches: seq<Binding>, row: Row, t: int, owner: Owner) {
    if exists b :: b in matches && b.Valid(t) then
      exists i :: 0 <= i < |matches| && matches[i].Valid(t) && owner == User(matches[i].userId)
        && forall j :: 0 <= j < |matches| && matches[j].Valid(t) && j != i ==>
          matches[j].validFrom < matches[i].validFrom || (matches[j].validFrom == matches[i].validFrom && i < j)
    else owner == RawOwner(row)
  }

  /** The applicable binding with the greatest valid_from (lines 89-95). */
  function Latest(matches: seq<Binding>, t: int): Option<Binding> {
    if matches == [] then None
    else
      var rest := Latest(matches[1..], t);
      if !matches[0].Valid(t) || (rest.Some? && rest.value.validFrom > matches[0].validFrom) then rest
      else Some(matches[0])
  }

  function OwnerAt(matches: seq<Binding>, row: Row, t: int): Owner {
    var b := Latest(matches, t);
    if b.Some? then User(b.value.userId) else RawOwner(row)
  }

  lemma {:induction false} LatestIndex(matches: seq<Binding>, t: int) returns (i: nat)
    requires exists b :: b in matches && b.Valid(t)
    ensures i < |matches| && matches[i].Valid(t) && Latest(matches, t) == Some(matches[i])
    ensures forall j :: 0 <= j < |matches| && matches[j].Valid(t) && j != i ==>
      matches[j].validFrom < matches[i].validFrom || (matches[j].validFrom == matches[i].validFrom && i < j)
  {
    var rest := matches[1..];
    if exists b :: b in rest && b.Valid(t) {
      var k := LatestIndex(rest, t);
      i := if !matches[0].Valid(t) || rest[k].validFrom > matches[0].validFrom then k + 1 else 0;
      forall j | 0 < j < |matches| && matches[j].Valid(t) && j != k + 1
        ensures matches[j].validFrom < rest[k].validFrom || (matches[j].validFrom == rest[k].validFrom && k + 1 < j)
      {
        assert matches[j] == rest[j - 1];
      }
    } else {
      NoneValid(rest, t);
      assert forall j :: 0 < j < |matches| ==> matches[j] in rest;
      i := 0;
    }
  }

  lemma {:induction false} NoneValid(matches: seq<Binding>, t: int)
    requires forall b :: b in matches ==> !b.Valid(t)
    ensures Latest(matches, t) == None
  {
    if matches != [] {
      NoneValid(matches[1..], t);
    }
  }

  lemma OwnerAtIsOwner(matches: seq<Binding>, row: Row, t: int)
    ensures IsOwner(matches, row, t, OwnerAt(matches, row, t))
  {
    if exists b :: b in matches && b.Valid(t) {
      var i := LatestIndex(matches, t);
    } else {
      NoneValid(matches, t);
    }
  }

  // ----- splitting one row

  /** A piece owned by the reference owner throughout; a momentary piece, at its one instant. */
  ghost predicate Owned(p: Piece, row: Row, matches: seq<Binding>) {
    p.row == row
    && forall t :: p.start <= t && (t < p.end || t == p.start == p.end) ==> IsOwner(matches, row, t, p.owner)
  }

  /** The pieces abut and cover left..right. */
  ghost predicate Tiles(pieces: seq<Piece>, left: int, right: int) {
    && (right < left ==> pieces == [])
    && (left <= right ==> pieces != [] && pieces[0].start == left && pieces[|pieces| - 1].end == right)
    && (forall i :: 0 <= i < |pieces| - 1 ==> pieces[i].end == pieces[i + 1].start)
    && (forall p :: p in pieces ==> p.start < p.end || p.start == p.end == left == right)
  }

  /** And each is owned throughout by the reference owner. */
  ghost predicate Splits(pieces: seq<Piece>, row: Row, matches: seq<Binding>, left: int, right: int) {
    Tiles(pieces, left, right) && forall p :: p in pieces ==> Owned(p, row, matches)
  }

  function Clip(x: int, left: int, right: int): int { Max(left, Min(right, x)) }

  function EdgeSet(matches: seq<Binding>, left: int, right: int): set<int> {
    {left, right}
    + (set b | b in matches :: Clip(b.validFrom, left, right))
    + (set b | b in matches && b.validTo.Some? :: Clip(b.validTo.value, left, right))
  }

  /** Between two neighbouring edges no binding starts or stops. */
  lemma SameValidity(matches: seq<Binding>, left: int, right: int, a: int, b: int, t: int, x: Binding)
    requires x in matches && left <= a <= t < b <= right
    requires forall e :: e in EdgeSet(matches, left, right) ==> e <= a || b <= e
    ensures x.Valid(t) <==> x.Valid(a)
  {
    assert Clip(x.validFrom, left, right) in EdgeSet(matches, left, right);
    if x.validTo.Some? {
      assert Clip(x.validTo.value, left, right) in EdgeSet(matches, left, right);
    }
  }

  lemma {:induction false} LatestSame(matches: seq<Binding>, a: int, t: int)
    requires forall x :: x in matches ==> (x.Valid(t) <==> x.Valid(a))
    ensures Latest(matches, t) == Latest(matches, a)
  {
    if matches != [] {
      LatestSame(matches[1..], a, t);
    }
  }

  lemma OwnedThroughout(matches: seq<Binding>, row: Row, left: int, right: int, a: int, b: int)
    requires left <= a < b <= right
    requires forall e :: e in EdgeSet(matches, left, right) ==> e <= a || b <= e
    ensures forall t :: a <= t < b ==> IsOwner(matches, row, t, OwnerAt(matches, row, a))
  {
    forall t | a <= t < b ensures IsOwner(matches, row, t, OwnerAt(matches, row, a)) {
      forall x | x in matches ensures x.Valid(t) <==> x.Valid(a) {
        SameValidity(matches, left, right, a, b, t, x);
      }
      LatestSame(matches, a, t);
      OwnerAtIsOwner(matches, row, t);
    }
  }

  lemma EdgesNeighbours(edges: seq<int>, members: set<int>, i: nat)
    requires Increasing(edges) && (forall x :: x in edges <==> x in members) && i + 1 < |edges|
    ensures forall e :: e in members ==> e <= edges[i] || edges[i + 1] <= e
  {
    forall e | e in members ensures e <= edges[i] || edges[i + 1] <= e {
      var j :| 0 <= j < |edges| && edges[j] == e;
    }
  }

  lemma EdgesEnds(edges: seq<int>, members: set<int>, left: int, right: int)
    requires Increasing(edges) && (forall x :: x in edges <==> x in members)
    requires left in members && right in members && forall e :: e in members ==> left <= e <= right
    ensures edges != [] && edges[0] == left && edges[|edges| - 1] == right
  {
    assert left in edges && right in edges;
    assert edges[0] in members && edges[|edges| - 1] in members;
  }

  lemma EdgesInside(matches: seq<Binding>, left: int, right: int)
    requires left <= right
    ensures forall e :: e in EdgeSet(matches, left, right) ==> left <= e <= right
  {
  }

  /** The piece between two neighbouring edges, with the owner found at its left edge. */
  function PieceAt(row: Row, matches: seq<Binding>, a: int, b: int): Piece {
    Piece(row, OwnerAt(matches, row, a), a, b)
  }

  lemma PieceOwned(row: Row, matches: seq<Binding>, left: int, right: int, edges: seq<int>, i: nat)
    requires left <= right && i + 1 < |edges|
    requires Increasing(edges) && forall x :: x in edges <==> x in EdgeSet(matches, left, right)
    ensures edges[i] < edges[i + 1] && Owned(PieceAt(row, matches, edges[i], edges[i + 1]), row, matches)
  {
    EdgesInside(matches, left, right);
    EdgesNeighbours(edges, EdgeSet(matches, left, right), i);
    assert edges[i] in edges && edges[i + 1] in edges;
    OwnedThroughout(matches, row, left, right, edges[i], edges[i + 1]);
  }

  lemma CutSplits(row: Row, matches: seq<Binding>, left: int, right: int, edges: seq<int>, pieces: seq<Piece>)
    requires left < right
    requires Increasing(edges) && forall x :: x in edges <==> x in EdgeSet(matches, left, right)
    requires |pieces| + 1 == |edges|
    requires forall k {:trigger pieces[k]} :: 0 <= k < |pieces| ==>
      pieces[k] == PieceAt(row, matches, edges[k], edges[k + 1])
    ensures Splits(pieces, row, matches, left, right)
  {
    EdgesInside(matches, left, right);
    EdgesEnds(edges, EdgeSet(matches, left, right), left, right);
    assert pieces[0] == PieceAt(row, matches, edges[0], edges[0 + 1]);
    forall i | 0 <= i < |pieces| - 1 ensures pieces[i].end == pieces[i + 1].start {
      assert pieces[i + 1] == PieceAt(row, matches, edges[i + 1], edges[i + 2]);
    }
    forall p | p in pieces ensures Owned(p, row, matches) && p.start < p.end {
      var k :| 0 <= k < |pieces| && pieces[k] == p;
      PieceOwned(row, matches, left, right, edges, k);
    }
  }

  lemma MomentSplits(row: Row, matches: seq<Binding>, t: int)
    ensures Splits([PieceAt(row, matches, t, t)], row, matches, t, t)
  {
    OwnerAtIsOwner(matches, row, t);
  }

  method ResolveRow(row: Row, matches: seq<Binding>, start: int, end: int) returns (pieces: seq<Piece>)
    ensures Splits(pieces, row, matches, Max(start, row.first), Min(end, row.last))
  {
    var left, right := Max(start, row.first), Min(end, row.last);
    pieces := [];
    if right < left {
      return;
    }
    if right == left {
      MomentSplits(row, matches, left);
      return [PieceAt(row, matches, left, right)];
    }
    var edges := Ascending(EdgeSet(matches, left, right));
    assert left in edges;
    for i := 0 to |edges| - 1
      invariant |pieces| == i
      invariant forall k {:trigger pieces[k]} :: 0 <= k < i ==>
        pieces[k] == PieceAt(row, matches, edges[k], edges[k + 1])
    {
      pieces := pieces + [PieceAt(row, matches, edges[i], edges[i + 1])];
    }
    CutSplits(row, matches, left, right, edges, pieces);
  }

  lemma OwnerUnique(matches: seq<Binding>, row: Row, t: int, o: Owner)
    requires IsOwner(matches, row, t, o)
    ensures o == OwnerAt(matches, row, t)
  {
    if exists b :: b in matches && b.Valid(t) {
      var i := LatestIndex(matches, t);
    } else {
      NoneValid(matches, t);
    }
  }

  ghost function PieceTime(pieces: seq<Piece>): int {
    if pieces == [] then 0 else pieces[0].end - pieces[0].start + PieceTime(pieces[1..])
  }

  lemma {:induction false} AbuttingTime(pieces: seq<Piece>)
    requires pieces != [] && forall i :: 0 <= i < |pieces| - 1 ==> pieces[i].end == pieces[i + 1].start
    ensures PieceTime(pieces) == pieces[|pieces| - 1].end - pieces[0].start
  {
    if |pieces| > 1 {
      AbuttingTime(pieces[1..]);
    }
  }

  ghost function Holding(pieces: seq<Piece>, t: int): int {
    if pieces == [] then 0
    else (if pieces[0].start <= t < pieces[0].end then 1 else 0) + Holding(pieces[1..], t)
  }

  lemma {:induction false} AbuttingHolding(pieces: seq<Piece>, t: int)
    requires pieces != [] && forall i :: 0 <= i < |pieces| - 1 ==> pieces[i].end == pieces[i + 1].start
    requires forall p :: p in pieces ==> p.start <= p.end
    ensures pieces[0].start <= pieces[|pieces| - 1].end
    ensures Holding(pieces, t) == if pieces[0].start <= t < pieces[|pieces| - 1].end then 1 else 0
  {
    if |pieces| > 1 {
      AbuttingHolding(pieces[1..], t);
    }
  }

  /** Splitting neither loses nor invents time: the lengths sum to the clipped length, and every instant of
      the row lies in exactly one piece. */
  lemma SplitConserves(pieces: seq<Piece>, left: int, right: int)
    requires Tiles(pieces, left, right)
    ensures PieceTime(pieces) == Max(0, right - left)
    ensures forall t :: Holding(pieces, t) == if left <= t < right then 1 else 0
  {
    if left <= right {
      AbuttingTime(pieces);
      forall t { AbuttingHolding(pieces, t); }
    }
  }

  // ----- which bindings can own a row

  datatype Key = ByUid(node: string, uid: int) | ByName(node: string, name: string)

  function KeyOf(b: Binding, named: bool): Key {
    if named then ByName(b.node, b.name) else ByUid(b.node, b.uid)
  }

  predicate Listed(b: Binding, named: bool) { named ==> b.name != "" }

  function WithKey(bindings: seq<Binding>, named: bool, key: Key): seq<Binding> {
    if bindings == [] then []
    else
      var b := bindings[|bindings| - 1];
      WithKey(bindings[..|bindings| - 1], named, key) + if Listed(b, named) && KeyOf(b, named) == key then [b] else []
  }

  function Get(groups: map<Key, seq<Binding>>, key: Key): seq<Binding> {
    if key in groups then groups[key] else []
  }

  method GroupBindings(bindings: seq<Binding>, named: bool) returns (groups: map<Key, seq<Binding>>)
    ensures forall key :: Get(groups, key) == WithKey(bindings, named, key)
    ensures forall key :: key in groups ==> groups[key] != []
  {
    groups := map[];
    for k := 0 to |bindings|
      invariant forall key :: Get(groups, key) == WithKey(bindings[..k], named, key)
      invariant forall key :: key in groups ==> groups[key] != []
    {
      var b := bindings[k];
      assert bindings[..k + 1][..k] == bindings[..k] && bindings[..k + 1][k] == b;
      if Listed(b, named) {
        groups := groups[KeyOf(b, named) := Get(groups, KeyOf(b, named)) + [b]];
      }
    }
    assert bindings[..|bindings|] == bindings;
  }

  predicate EarlierStart(a: Binding, b: Binding) { a.validFrom <= b.validFrom }

  /** An account's history in order of start, the first binding reaching back to the window's start (lines 37-42). */
  function Legacy(history: seq<Binding>, start: int): seq<Binding> {
    var ordered := Sort(history, EarlierStart);
    if ordered == [] then []
    else [ordered[0].(validFrom := Min(start, ordered[0].validFrom))] + ordered[1..]
  }

  method LegacyBindings(bindings: seq<Binding>, start: int) returns (accounts: map<Key, seq<Binding>>)
    ensures forall key :: Get(accounts, key) == Legacy(WithKey(bindings, true, key), start)
  {
    accounts := GroupBindings(bindings, true);
    ghost var histories := accounts;
    var todo := accounts.Keys;
    while todo != {}
      invariant accounts.Keys == histories.Keys && todo <= accounts.Keys
      invariant forall key :: key in accounts ==>
        accounts[key] == if key in todo then histories[key] else Legacy(histories[key], start)
    {
      var key :| key in todo;
      SortMembers(accounts[key], EarlierStart);
      accounts := accounts[key := Legacy(accounts[key], start)];
      todo := todo - {key};
    }
  }

  /** Rows with a uid match by uid; older rows match by name through the legacy histories (lines 63-67). */
  function Matches(row: Row, bindings: seq<Binding>, start: int): seq<Binding> {
    if row.uid.Some? then WithKey(bindings, false, ByUid(row.node, row.uid.value))
    else if row.user.Some? then Legacy(WithKey(bindings, true, ByName(row.node, row.user.value)), start)
    else []
  }

  // ----- the owner, over the bindings themselves

  /** A binding that speaks for the row's account. */
  predicate Concerns(b: Binding, row: Row) {
    && b.node == row.node
    && match row.uid
       case Some(uid) => b.uid == uid
       case None => row.user.Some? && b.name == row.user.value && b.name != ""
  }

  /** Started earlier, or is listed before with the same start. */
  predicate Precedes(bindings: seq<Binding>, i: int, j: int)
    requires 0 <= i < |bindings| && 0 <= j < |bindings|
  {
    bindings[i].validFrom < bindings[j].validFrom || (bindings[i].validFrom == bindings[j].validFrom && i < j)
  }

  /** The account's first binding: none of it started earlier, nor is listed before with the same start. */
  ghost predicate First(bindings: seq<Binding>, row: Row, i: int) {
    && 0 <= i < |bindings| && Concerns(bindings[i], row)
    && forall j :: 0 <= j < |bindings| && Concerns(bindings[j], row) && j != i ==> Precedes(bindings, i, j)
  }

  /** A row without a uid predates bindings: for it the first one reaches back to the window's start. */
  ghost function StartOf(bindings: seq<Binding>, row: Row, start: int, i: int): int
    requires 0 <= i < |bindings|
  {
    if row.uid.None? && First(bindings, row, i) && start < bindings[i].validFrom then start else bindings[i].validFrom
  }

  ghost predicate Applies(bindings: seq<Binding>, row: Row, start: int, t: int, i: int) {
    && 0 <= i < |bindings| && Concerns(bindings[i], row) && StartOf(bindings, row, start, i) <= t
    && (bindings[i].validTo.Some? ==> t < bindings[i].validTo.value)
  }

  /** Of the bindings that apply, the one that started last, and of those the first listed. */
  ghost predicate Decides(bindings: seq<Binding>, row: Row, start: int, t: int, i: int) {
    && Applies(bindings, row, start, t, i)
    && forall j :: Applies(bindings, row, start, t, j) && j != i ==>
      || StartOf(bindings, row, start, j) < StartOf(bindings, row, start, i)
      || (StartOf(bindings, row, start, j) == StartOf(bindings, row, start, i) && i < j)
  }

  /** The user whose binding decides, or the account itself. */
  ghost predicate Owns(bindings: seq<Binding>, row: Row, start: int, t: int, owner: Owner) {
    if exists i :: Applies(bindings, row, start, t, i) then
      exists i :: Decides(bindings, row, start, t, i) && owner == User(bindings[i].userId)
    else owner == Raw(row.node, match row.uid case Some(uid) => Uid(uid) case None => Name(row.user))
  }

  /** The places of the bindings with a key, in list order. */
  ghost function Places(bindings: seq<Binding>, named: bool, key: Key): (places: seq<int>)
    ensures Increasing(places)
    ensures forall i ::
      i in places <==> 0 <= i < |bindings| && Listed(bindings[i], named) && KeyOf(bindings[i], named) == key
  {
    if bindings == [] then []
    else
      var n := |bindings| - 1;
      var before := Places(bindings[..n], named, key);
      assert forall k :: 0 <= k < |before| ==> before[k] in before;
      before + if Listed(bindings[n], named) && KeyOf(bindings[n], named) == key then [n] else []
  }

  ghost predicate Within(places: seq<int>, bindings: seq<Binding>) {
    forall k :: 0 <= k < |places| ==> 0 <= places[k] < |bindings|
  }

  ghost function At(bindings: seq<Binding>, places: seq<int>): (s: seq<Binding>)
    requires Within(places, bindings)
    ensures |s| == |places|
  {
    seq(|places|, k requires 0 <= k < |places| => bindings[places[k]])
  }

  lemma PlacesWithin(bindings: seq<Binding>, named: bool, key: Key)
    ensures Within(Places(bindings, named, key), bindings)
  {
    var places := Places(bindings, named, key);
    assert forall k :: 0 <= k < |places| ==> places[k] in places;
  }

  lemma {:induction false} WithKeyAt(bindings: seq<Binding>, named: bool, key: Key)
    ensures Within(Places(bindings, named, key), bindings)
    ensures WithKey(bindings, named, key) == At(bindings, Places(bindings, named, key))
  {
    PlacesWithin(bindings, named, key);
    if bindings != [] {
      var n := |bindings| - 1;
      WithKeyAt(bindings[..n], named, key);
      var before := Places(bindings[..n], named, key);
      assert At(bindings[..n], before) == At(bindings, before);
    }
  }

  ghost predicate InOrder(order: seq<int>, bindings: seq<Binding>)
    requires Within(order, bindings)
  {
    forall k, l :: 0 <= k < l < |order| ==> Precedes(bindings, order[k], order[l])
  }

  lemma Prepended(bindings: seq<Binding>, i: int, rest: seq<int>)
    requires 0 <= i < |bindings| && Within(rest, bindings) && InOrder(rest, bindings)
    requires forall k :: 0 <= k < |rest| ==> Precedes(bindings, i, rest[k])
    ensures Within([i] + rest, bindings) && InOrder([i] + rest, bindings)
    ensures At(bindings, [i] + rest) == [bindings[i]] + At(bindings, rest)
  {
  }

  lemma {:induction false} InsertPlace(bindings: seq<Binding>, i: int, order: seq<int>) returns (more: seq<int>)
    requires 0 <= i < |bindings| && Within(order, bindings) && InOrder(order, bindings)
    requires forall k :: 0 <= k < |order| ==> i < order[k]
    ensures Within(more, bindings) && InOrder(more, bindings)
    ensures forall j :: j in more <==> j == i || j in order
    ensures At(bindings, more) == Insert(bindings[i], At(bindings, order), EarlierStart)
  {
    if order == [] || EarlierStart(bindings[i], bindings[order[0]]) {
      assert forall k :: 0 < k < |order| ==> Precedes(bindings, order[0], order[k]);
      Prepended(bindings, i, order);
      return [i] + order;
    }
    var rest := InsertPlace(bindings, i, order[1..]);
    assert At(bindings, order)[1..] == At(bindings, order[1..]);
    forall k | 0 <= k < |rest| ensures Precedes(bindings, order[0], rest[k]) {
      assert rest[k] in rest;
      if rest[k] != i { var m :| 0 <= m < |order[1..]| && order[1..][m] == rest[k]; }
    }
    Prepended(bindings, order[0], rest);
    more := [order[0]] + rest;
  }

  lemma {:induction false} SortPlaces(bindings: seq<Binding>, places: seq<int>) returns (order: seq<int>)
    requires Within(places, bindings) && Increasing(places)
    ensures Within(order, bindings) && InOrder(order, bindings) && forall j :: j in order <==> j in places
    ensures At(bindings, order) == Sort(At(bindings, places), EarlierStart)
  {
    order := [];
    if places != [] {
      var rest := SortPlaces(bindings, places[1..]);
      assert At(bindings, places)[1..] == At(bindings, places[1..]);
      forall k | 0 <= k < |rest| ensures places[0] < rest[k] {
        assert rest[k] in rest;
        assert rest[k] in places[1..];
      }
      order := InsertPlace(bindings, places[0], rest);
    }
  }

  /** The matches are the bindings at these places, with the starts that count for the row. */
  ghost predicate Lists(matches: seq<Binding>, order: seq<int>, bindings: seq<Binding>, row: Row, start: int) {
    && Within(order, bindings) && |matches| == |order|
    && (forall i :: i in order <==> 0 <= i < |bindings| && Concerns(bindings[i], row))
    && (forall k :: 0 <= k < |order| ==>
      && matches[k].validFrom == StartOf(bindings, row, start, order[k])
      && matches[k].validTo == bindings[order[k]].validTo && matches[k].userId == bindings[order[k]].userId)
    && (forall k, l :: 0 <= k < l < |order| ==>
      order[k] != order[l] && (matches[k].validFrom == matches[l].validFrom ==> order[k] < order[l]))
  }

  lemma UidMatches(row: Row, bindings: seq<Binding>, start: int) returns (order: seq<int>)
    requires row.uid.Some?
    ensures Lists(Matches(row, bindings, start), order, bindings, row, start)
  {
    var key := ByUid(row.node, row.uid.value);
    order := Places(bindings, false, key);
    WithKeyAt(bindings, false, key);
  }

  lemma FirstInOrder(bindings: seq<Binding>, row: Row, order: seq<int>, k: int)
    requires Within(order, bindings) && InOrder(order, bindings) && 0 <= k < |order|
    requires forall i :: i in order <==> 0 <= i < |bindings| && Concerns(bindings[i], row)
    ensures First(bindings, row, order[k]) <==> k == 0
  {
    hide Concerns;
    assert order[k] in order && order[0] in order;
    if k == 0 {
      forall j | 0 <= j < |bindings| && Concerns(bindings[j], row) && j != order[0]
        ensures Precedes(bindings, order[0], j)
      {
        assert j in order;
        var l :| 0 <= l < |order| && order[l] == j;
      }
    } else {
      assert Precedes(bindings, order[0], order[k]);
    }
  }

  /** Ordered by start, with the first binding reaching back, the places list the account's history. */
  lemma LegacyLists(history: seq<Binding>, order: seq<int>, bindings: seq<Binding>, row: Row, start: int)
    requires row.uid.None? && Within(order, bindings) && InOrder(order, bindings)
    requires forall i :: i in order <==> 0 <= i < |bindings| && Concerns(bindings[i], row)
    requires Sort(history, EarlierStart) == At(bindings, order)
    ensures Lists(Legacy(history, start), order, bindings, row, start)
  {
    hide First, Concerns, Sort, InOrder, Legacy, StartOf;
    var matches := Legacy(history, start);
    forall k | 0 <= k < |order|
      ensures |matches| == |order| && matches[k] == bindings[order[k]].(validFrom := matches[k].validFrom)
      ensures matches[k].validFrom == StartOf(bindings, row, start, order[k])
    {
      LegacyAt(history, start, k);
      FirstInOrder(bindings, row, order, k);
      StartMeans(bindings, row, start, order[k]);
    }
    forall k, l | 0 <= k < l < |order|
      ensures order[k] != order[l] && (matches[k].validFrom == matches[l].validFrom ==> order[k] < order[l])
    {
      OrderedPair(bindings, order, k, l);
      LegacyAt(history, start, k);
      LegacyAt(history, start, l);
    }
    LegacySize(history, start);
  }

  lemma StartMeans(bindings: seq<Binding>, row: Row, start: int, i: int)
    requires 0 <= i < |bindings| && row.uid.None?
    ensures StartOf(bindings, row, start, i)
      == if First(bindings, row, i) then Min(start, bindings[i].validFrom) else bindings[i].validFrom
  {
    hide First;
  }

  lemma LegacySize(history: seq<Binding>, start: int)
    ensures |Legacy(history, start)| == |Sort(history, EarlierStart)|
  {
  }

  lemma LegacyAt(history: seq<Binding>, start: int, k: nat)
    requires k < |Sort(history, EarlierStart)|
    ensures |Legacy(history, start)| == |Sort(history, EarlierStart)|
    ensures var b := Sort(history, EarlierStart)[k];
      Legacy(history, start)[k] == b.(validFrom := if k == 0 then Min(start, b.validFrom) else b.validFrom)
  {
  }

  lemma OrderedPair(bindings: seq<Binding>, order: seq<int>, k: int, l: int)
    requires Within(order, bindings) && InOrder(order, bindings) && 0 <= k < l < |order|
    ensures Precedes(bindings, order[k], order[l])
  {
  }

  lemma NameMatches(row: Row, bindings: seq<Binding>, start: int) returns (order: seq<int>)
    requires row.uid.None? && row.user.Some?
    ensures Lists(Matches(row, bindings, start), order, bindings, row, start)
  {
    hide Lists, Legacy, InOrder;
    var key := ByName(row.node, row.user.value);
    WithKeyAt(bindings, true, key);
    order := SortPlaces(bindings, Places(bindings, true, key));
    LegacyLists(WithKey(bindings, true, key), order, bindings, row, start);
  }

  lemma MatchesListed(row: Row, bindings: seq<Binding>, start: int) returns (order: seq<int>)
    ensures Lists(Matches(row, bindings, start), order, bindings, row, start)
  {
    if row.uid.Some? {
      order := UidMatches(row, bindings, start);
    } else if row.user.Some? {
      order := NameMatches(row, bindings, start);
    } else {
      order := [];
    }
  }

  /** Matching by key and taking the latest finds the owner over the bindings themselves. */
  lemma OwnerAtOwns(row: Row, bindings: seq<Binding>, start: int, t: int)
    ensures Owns(bindings, row, start, t, OwnerAt(Matches(row, bindings, start), row, t))
  {
    hide Matches, StartOf, Concerns;
    var matches := Matches(row, bindings, start);
    var order := MatchesListed(row, bindings, start);
    forall k | 0 <= k < |order| ensures matches[k].Valid(t) <==> Applies(bindings, row, start, t, order[k]) {
      assert order[k] in order;
    }
    forall i | Applies(bindings, row, start, t, i) ensures exists k :: 0 <= k < |order| && order[k] == i {
      assert i in order;
    }
    if exists b :: b in matches && b.Valid(t) {
      var k := LatestIndex(matches, t);
      assert Decides(bindings, row, start, t, order[k]);
    } else {
      NoneValid(matches, t);
    }
  }

  lemma OwnsUnique(bindings: seq<Binding>, row: Row, start: int, t: int, a: Owner, b: Owner)
    requires Owns(bindings, row, start, t, a) && Owns(bindings, row, start, t, b)
    ensures a == b
  {
    hide StartOf, Concerns;
    if i, j :| Decides(bindings, row, start, t, i) && Decides(bindings, row, start, t, j) && i != j {
      assert false;
    }
  }

  function Flatten(parts: seq<seq<Piece>>): seq<Piece> {
    if parts == [] then [] else Flatten(parts[..|parts| - 1]) + parts[|parts| - 1]
  }

  /** A piece of the row, owned throughout according to the bindings. */
  ghost predicate OwnedOver(p: Piece, row: Row, bindings: seq<Binding>, start: int) {
    p.row == row
    && forall t :: p.start <= t && (t < p.end || t == p.start == p.end) ==> Owns(bindings, row, start, t, p.owner)
  }

  /** The row's part of the window, cut where its owner changes. */
  ghost predicate Resolved(pieces: seq<Piece>, row: Row, bindings: seq<Binding>, start: int, end: int) {
    && Tiles(pieces, Max(start, row.first), Min(end, row.last))
    && forall p :: p in pieces ==> OwnedOver(p, row, bindings, start)
  }

  lemma SplitsResolve(pieces: seq<Piece>, row: Row, bindings: seq<Binding>, start: int, end: int)
    requires Splits(pieces, row, Matches(row, bindings, start), Max(start, row.first), Min(end, row.last))
    ensures Resolved(pieces, row, bindings, start, end)
  {
    hide Owns, IsOwner, Tiles, Matches;
    forall p, t | p in pieces && p.start <= t && (t < p.end || t == p.start == p.end)
      ensures Owns(bindings, row, start, t, p.owner)
    {
      assert Owned(p, row, Matches(row, bindings, start));
      OwnerUnique(Matches(row, bindings, start), row, t, p.owner);
      OwnerAtOwns(row, bindings, start, t);
    }
  }

  ghost predicate AllResolved(parts: seq<seq<Piece>>, rows: seq<Row>, bindings: seq<Binding>, start: int, end: int) {
    |parts| == |rows| && forall i :: 0 <= i < |rows| ==> Resolved(parts[i], rows[i], bindings, start, end)
  }

  lemma ResolvedAppend(parts: seq<seq<Piece>>, rows: seq<Row>, pieces: seq<Piece>, row: Row, bindings: seq<Binding>,
      start: int, end: int)
    requires AllResolved(parts, rows, bindings, start, end) && Resolved(pieces, row, bindings, start, end)
    ensures AllResolved(parts + [pieces], rows + [row], bindings, start, end)
    ensures Flatten(parts + [pieces]) == Flatten(parts) + pieces
  {
    assert (parts + [pieces])[..|parts|] == parts;
  }

  lemma NoneResolved(bindings: seq<Binding>, start: int, end: int)
    ensures AllResolved([], [], bindings, start, end) && Flatten([]) == []
  {
  }

  method Lookup(row: Row, accounts: map<Key, seq<Binding>>, usernames: map<Key, seq<Binding>>,
      ghost bindings: seq<Binding>, ghost start: int)
    returns (matches: seq<Binding>)
    requires forall key :: Get(accounts, key) == WithKey(bindings, false, key)
    requires forall key :: Get(usernames, key) == Legacy(WithKey(bindings, true, key), start)
    ensures matches == Matches(row, bindings, start)
  {
    if row.uid.Some? {
      matches := Get(accounts, ByUid(row.node, row.uid.value));
    } else if row.user.Some? {
      matches := Get(usernames, ByName(row.node, row.user.value));
    } else {
      matches := [];
    }
  }

  /** The result is the rows' splits in row order. */
  method ResolveUsage(rows: seq<Row>, bindings: seq<Binding>, start: int, end: int)
    returns (result: seq<Piece>)
    ensures exists parts :: AllResolved(parts, rows, bindings, start, end) && result == Flatten(parts)
  {
    hide AllResolved, Resolved, Splits, Get, Legacy, WithKey, Matches, Flatten;
    NoneResolved(bindings, start, end);
    var accounts := GroupBindings(bindings, false);
    var usernames := LegacyBindings(bindings, start);
    result := [];
    ghost var parts: seq<seq<Piece>> := [];
    for k := 0 to |rows|
      invariant AllResolved(parts, rows[..k], bindings, start, end) && result == Flatten(parts)
    {
      var matches := Lookup(rows[k], accounts, usernames, bindings, start);
      var pieces := ResolveRow(rows[k], matches, start, end);
      SplitsResolve(pieces, rows[k], bindings, start, end);
      ResolvedAppend(parts, rows[..k], pieces, rows[k], bindings, start, end);
      assert rows[..k + 1] == rows[..k] + [rows[k]];
      result, parts := result + pieces, parts + [pieces];
    }
    assert rows[..|rows|] == rows;
  }

  // ----- legacy time

  /** Before any binding of the account began, its first owner alone inherits, up to that binding's end. */
  lemma LegacyBeforeFirst(history: seq<Binding>, start: int, t: int)
    requires history != [] && start <= t
    requires forall b :: b in history ==> t < b.validFrom
    ensures var first := Sort(history, EarlierStart)[0];
            (forall b :: b in history ==> first.validFrom <= b.validFrom)
            && Latest(Legacy(history, start), t)
               == if first.validTo == None || t < first.validTo.value
                  then Some(first.(validFrom := start)) else None
  {
    var ordered := Sort(history, EarlierStart);
    SortMembers(history, EarlierStart);
    SortSorted(history, EarlierStart);
    var rest := Legacy(history, start)[1..];
    assert rest == ordered[1..];
    forall b | b in rest ensures !b.Valid(t) { assert b in ordered; }
    NoneValid(rest, t);
    assert ordered[0] in ordered;
    forall b | b in history ensures ordered[0].validFrom <= b.validFrom {
      var i :| 0 <= i < |ordered| && ordered[i] == b;
    }
  }

  /** From the first binding's start on, the legacy histories name the same user as the bindings themselves,
      except exactly where the first binding is valid, the window began earlier, and the first binding
      loses a tie it otherwise wins: the backdated binding then no longer shares its start. */
  lemma LegacyAfterFirst(history: seq<Binding>, ordered: seq<Binding>, start: int, row: Row, t: int)
    requires ordered != [] && ordered == Sort(history, EarlierStart) && ordered[0].validFrom <= t
    ensures OwnerAt(Legacy(history, start), row, t) == OwnerAt(ordered, row, t)
      <==> !(start < ordered[0].validFrom && ordered[0].Valid(t) && exists i :: LosesTo(ordered, i, t))
  {
    SortSorted(history, EarlierStart);
    assert ordered == [ordered[0]] + ordered[1..];
    forall i | 0 < i < |ordered| ensures ordered[0].validFrom <= ordered[i].validFrom {
      assert EarlierStart(ordered[0], ordered[i]);
    }
    BackdatedOwner(ordered[0], ordered[1..], start, row, t);
    TieMeans(ordered, t);
  }

  /** Another user's binding with the very same start is the next one valid, and none valid started later. */
  ghost predicate LosesTo(ordered: seq<Binding>, i: int, t: int) {
    && 0 < i < |ordered| && ordered[i].Valid(t)
    && ordered[i].validFrom == ordered[0].validFrom && ordered[i].userId != ordered[0].userId
    && (forall j :: 0 < j < i ==> !ordered[j].Valid(t))
    && (forall j :: 0 < j < |ordered| && ordered[j].Valid(t) ==> ordered[j].validFrom <= ordered[0].validFrom)
  }

  predicate Rivals(first: Binding, other: Option<Binding>) {
    other.Some? && other.value.validFrom == first.validFrom && other.value.userId != first.userId
  }

  lemma TieMeans(ordered: seq<Binding>, t: int)
    requires ordered != [] && forall i :: 0 < i < |ordered| ==> ordered[0].validFrom <= ordered[i].validFrom
    ensures Rivals(ordered[0], Latest(ordered[1..], t)) <==> exists i :: LosesTo(ordered, i, t)
  {
    var rest := ordered[1..];
    assert forall j :: 0 < j < |ordered| ==> ordered[j] == rest[j - 1];
    if exists b :: b in rest && b.Valid(t) {
      var k := LatestIndex(rest, t);
      if Rivals(ordered[0], Latest(rest, t)) {
        assert LosesTo(ordered, k + 1, t);
      }
      if i :| LosesTo(ordered, i, t) {
        assert rest[i - 1].Valid(t) && ordered[k + 1] == rest[k];
      }
    } else {
      NoneValid(rest, t);
    }
  }

  lemma BackdatedOwner(first: Binding, rest: seq<Binding>, start: int, row: Row, t: int)
    requires first.validFrom <= t && forall b :: b in rest ==> first.validFrom <= b.validFrom
    ensures var back := first.(validFrom := Min(start, first.validFrom));
            OwnerAt([back] + rest, row, t) == OwnerAt([first] + rest, row, t)
            <==> !(start < first.validFrom && first.Valid(t) && Rivals(first, Latest(rest, t)))
  {
    if exists b :: b in rest && b.Valid(t) {
      var i := LatestIndex(rest, t);
    } else {
      NoneValid(rest, t);
    }
    LatestCons(first, rest, t);
    LatestCons(first.(validFrom := Min(start, first.validFrom)), rest, t);
  }

  lemma LatestCons(b: Binding, rest: seq<Binding>, t: int)
    ensures var r := Latest(rest, t);
            Latest([b] + rest, t)
            == if !b.Valid(t) || (r.Some? && r.value.validFrom > b.validFrom) then r else Some(b)
  {
    assert ([b] + rest)[1..] == rest;
  }

  /** The tie happens: two users bound to one account from instant 10, window from 0. */
  lemma LegacyTieExample()
    ensures var a := Binding("n", 7, "u", "first", 10, None);
            var b := Binding("n", 7, "u", "second", 10, None);
            var row := Row("n", None, Some("u"), 0, 30, "c", "m");
            OwnerAt([a, b], row, 20) == User("first")
            && OwnerAt(Matches(row, [a, b], 0), row, 20) == User("second")
  {
    var a := Binding("n", 7, "u", "first", 10, None);
    var b := Binding("n", 7, "u", "second", 10, None);
    TieMatches(a, b);
    LatestCons(a, [b], 20);
    LatestCons(a.(validFrom := 0), [b], 20);
    LatestCons(b, [], 20);
  }

  lemma TieMatches(a: Binding, b: Binding)
    requires a == Binding("n", 7, "u", "first", 10, None) && b == Binding("n", 7, "u", "second", 10, None)
    ensures Legacy(WithKey([a, b], true, ByName("n", "u")), 0) == [a.(validFrom := 0), b]
  {
    var key := ByName("n", "u");
    assert [a, b][..1] == [a] && [a][..0] == [];
    assert WithKey([a], true, key) == [a];
    assert WithKey([a, b], true, key) == [a, b];
    assert [a, b][1..] == [b] && [b][1..] == [];
    assert Sort([b], EarlierStart) == [b];
    assert Sort([a, b], EarlierStart) == [a, b];
  }
}
