/** Cursor paging of a job list (activity.py, payload). A list's signature is a parameter: the
    source hashes the query and the keys of the matching jobs. */
module Paging {
  import opened Wrappers

  datatype Cursor<S> = Cursor(signature: S, offset: int)
  datatype Page<T, S> = Expired | Invalid | Items(items: seq<T>, next: Option<Cursor<S>>)

  /** One request: `limit` items from the cursor's offset. A cursor of another list has expired. */
  function PageAt<T, S(==)>(list: seq<T>, signature: S, cursor: Option<Cursor<S>>, limit: int): (page: Page<T, S>)
    requires limit >= 1
  {
    if cursor.Some? && cursor.value.signature != signature then Expired
    else if cursor.Some? && !(0 <= cursor.value.offset <= |list|) then Invalid
    else
      var offset := if cursor.Some? then cursor.value.offset else 0;
      var following := offset + limit;
      var end := if following < |list| then following else |list|;
      Items(list[offset..end], if following < |list| then Some(Cursor(signature, following)) else None)
  }

  /** The items seen by following cursors until there is none, with a limit for each request. */
  function Walk<T, S(==)>(list: seq<T>, signature: S, cursor: Option<Cursor<S>>, limits: seq<int>): seq<T>
    requires forall i :: 0 <= i < |limits| ==> limits[i] >= 1
    decreases |limits|
  {
    if limits == [] then []
    else
      var page := PageAt(list, signature, cursor, limits[0]);
      if !page.Items? then []
      else page.items + (if page.next.Some? then Walk(list, signature, page.next, limits[1..]) else [])
  }

  function At<S>(cursor: Option<Cursor<S>>): int { if cursor.Some? then cursor.value.offset else 0 }

  /** Following the cursors shows every remaining item once and in order, whatever the limits,
      and it ends after at most as many requests as there are items. */
  lemma {:induction false} WalkShowsAll<T, S>(list: seq<T>, signature: S, cursor: Option<Cursor<S>>, limits: seq<int>)
    requires forall i :: 0 <= i < |limits| ==> limits[i] >= 1
    requires cursor.Some? ==> cursor.value.signature == signature && 0 <= cursor.value.offset <= |list|
    requires |limits| >= 1 && |limits| >= |list| - At(cursor)
    ensures Walk(list, signature, cursor, limits) == list[At(cursor)..]
    decreases |limits|
  {
    var page := PageAt(list, signature, cursor, limits[0]);
    if page.next.Some? {
      WalkShowsAll(list, signature, page.next, limits[1..]);
      assert list[At(cursor)..] == page.items + list[At(page.next)..];
    }
  }

  /** What a request gets: the items from the cursor's place on, as many as there are up to the limit, with a
      cursor to the first item left if there is one. A cursor of another list has expired; one of this
      list is invalid exactly when it points outside it. */
  lemma PageMeans<T, S>(list: seq<T>, signature: S, cursor: Option<Cursor<S>>, limit: int)
    requires limit >= 1
    ensures match PageAt(list, signature, cursor, limit)
      case Expired => cursor.Some? && cursor.value.signature != signature
      case Invalid =>
        cursor.Some? && cursor.value.signature == signature && (cursor.value.offset < 0 || |list| < cursor.value.offset)
      case Items(items, next) =>
        && (cursor.Some? ==> cursor.value.signature == signature && 0 <= cursor.value.offset <= |list|)
        && var from := At(cursor);
           var to := from + |items|;
        && |items| <= limit && to <= |list| && (|items| < limit ==> to == |list|)
        && items == list[from..to]
        && next == if to < |list| then Some(Cursor(signature, to)) else None
  {
  }
}
