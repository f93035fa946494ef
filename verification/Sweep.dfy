/** The sweep that counts concurrently busy cards (activity_usage.py, segments). */
module Sweep {
  import opened Sorting
  import opened Intervals

  /** The fields of a usage record the algebra reads. */
  datatype Usage = Usage(start: int, end: int, card: string, model: string) {
    predicate Holds(t: int) { start <= t < end }
  }

  datatype Segment = Segment(start: int, end: int, count: int) {
    predicate Holds(t: int) { start <= t < end }
  }

  /** The reference: the distinct cards some record covers at instant t. */
  ghost function Busy(records: seq<Usage>, t: int): set<string> {
    set r | r in records && r.Holds(t) :: r.card
  }

  /** The count the list shows at t: that of the segment holding t, or none. */
  ghost function CountAt(segs: seq<Segment>, t: int): int {
    if segs == [] then 0
    else if segs[|segs| - 1].Holds(t) then segs[|segs| - 1].count
    else CountAt(segs[..|segs| - 1], t)
  }

  /** Sorted, disjoint, nonempty, positive, and touching neighbours differ. */
  ghost predicate Canonical(segs: seq<Segment>) {
    && (forall i :: 0 <= i < |segs| ==> segs[i].start < segs[i].end && segs[i].count != 0)
    && (forall i, j :: 0 <= i < j < |segs| ==> segs[i].end <= segs[j].start)
    && (forall i :: 0 <= i < |segs| - 1 && segs[i].end == segs[i + 1].start ==> segs[i].count != segs[i + 1].count)
  }

  // ----- grouping records by card

  ghost predicate CardBusy(records: seq<Usage>, card: string, t: int) {
    exists r :: r in records && r.card == card && r.Holds(t)
  }

  ghost function Spans(cards: map<string, seq<Span>>, c: string): seq<Span> {
    if c in cards then cards[c] else []
  }

  ghost predicate Grouped(cards: map<string, seq<Span>>, records: seq<Usage>, start: int, end: int) {
    && (forall c, t :: Covered(Spans(cards, c), t) <==> start <= t < end && CardBusy(records, c, t))
    && (forall c, s :: c in cards && s in cards[c] ==> start <= s.start)
  }

  lemma BusyAppend(records: seq<Usage>, r: Usage, c: string, t: int)
    ensures CardBusy(records + [r], c, t) <==> CardBusy(records, c, t) || (r.card == c && r.Holds(t))
  {
    if r.card == c && r.Holds(t) { assert r in records + [r]; }
    if CardBusy(records, c, t) {
      var x :| x in records && x.card == c && x.Holds(t);
      assert x in records + [r];
    }
  }

  method GroupByCard(records: seq<Usage>, start: int, end: int) returns (cards: map<string, seq<Span>>)
    ensures Grouped(cards, records, start, end)
  {
    cards := map[];
    for k := 0 to |records|
      invariant Grouped(cards, records[..k], start, end)
    {
      var r := records[k];
      var s := Span(Max(start, r.start), Min(end, r.end));
      ghost var before := cards;
      cards := cards[r.card := (if r.card in cards then cards[r.card] else []) + [s]];
      assert records[..k + 1] == records[..k] + [r];
      forall c, t
        ensures Covered(Spans(cards, c), t) <==> start <= t < end && CardBusy(records[..k + 1], c, t)
      {
        BusyAppend(records[..k], r, c, t);
        CoveredAppend(Spans(before, c), s, t);
        assert Covered(Spans(before, c), t) <==> start <= t < end && CardBusy(records[..k], c, t);
      }
    }
    assert records[..|records|] == records;
  }

  // ----- the event map

  ghost function SumOver(keys: set<int>, m: map<int, int>): int
    requires keys <= m.Keys
  {
    if keys == {} then 0
    else
      var k := AnyOf(keys);
      m[k] + SumOver(keys - {k}, m)
  }

  lemma {:induction false} SumRemove(keys: set<int>, m: map<int, int>, x: int)
    requires keys <= m.Keys && x in keys
    ensures SumOver(keys, m) == m[x] + SumOver(keys - {x}, m)
    decreases |keys|
  {
    var k := AnyOf(keys);
    if k != x {
      SumRemove(keys - {k}, m, x);
      SumRemove(keys - {x}, m, k);
      assert keys - {k} - {x} == keys - {x} - {k};
    }
  }

  lemma {:induction false} SumAgree(keys: set<int>, m: map<int, int>, n: map<int, int>)
    requires keys <= m.Keys && keys <= n.Keys
    requires forall k :: k in keys ==> m[k] == n[k]
    ensures SumOver(keys, m) == SumOver(keys, n)
    decreases |keys|
  {
    if keys != {} {
      var k := AnyOf(keys);
      SumRemove(keys, m, k);
      SumRemove(keys, n, k);
      SumAgree(keys - {k}, m, n);
    }
  }

  ghost function KeysUpTo(events: map<int, int>, t: int): set<int> {
    set k | k in events.Keys && k <= t
  }

  /** The running total of all deltas at or before t. */
  ghost function Level(events: map<int, int>, t: int): int {
    SumOver(KeysUpTo(events, t), events)
  }

  function Bump(events: map<int, int>, at: int, delta: int): map<int, int> {
    events[at := (if at in events then events[at] else 0) + delta]
  }

  lemma BumpLevel(events: map<int, int>, at: int, delta: int, t: int)
    ensures Level(Bump(events, at, delta), t) == Level(events, t) + if at <= t then delta else 0
  {
    var after := Bump(events, at, delta);
    var rest := KeysUpTo(events, t) - {at};
    SumAgree(rest, events, after);
    if at <= t {
      assert KeysUpTo(after, t) - {at} == rest;
      SumRemove(KeysUpTo(after, t), after, at);
      if at in events {
        SumRemove(KeysUpTo(events, t), events, at);
      } else {
        assert KeysUpTo(events, t) == rest;
      }
    } else {
      assert KeysUpTo(after, t) == rest == KeysUpTo(events, t);
    }
  }

  function BumpSpan(events: map<int, int>, s: Span): map<int, int> {
    Bump(Bump(events, s.start, 1), s.end, -1)
  }

  lemma BumpSpanLevel(events: map<int, int>, s: Span)
    requires s.start < s.end
    ensures forall t :: Level(BumpSpan(events, s), t) == Level(events, t) + if s.Holds(t) then 1 else 0
  {
    forall t ensures Level(BumpSpan(events, s), t) == Level(events, t) + if s.Holds(t) then 1 else 0 {
      BumpLevel(events, s.start, 1, t);
      BumpLevel(Bump(events, s.start, 1), s.end, -1, t);
    }
  }

  lemma NextSpanDisjoint(spans: seq<Span>, k: nat)
    requires Separated(spans) && k < |spans|
    ensures forall t :: Covered(spans[..k], t) ==> !spans[k].Holds(t)
  {
    forall t | Covered(spans[..k], t) ensures !spans[k].Holds(t) {
      var s :| s in spans[..k] && s.Holds(t);
      var i :| 0 <= i < k && spans[i] == s;
    }
  }

  /** Adds the +1 and -1 of every merged span of one card. */
  method AddCard(events: map<int, int>, spans: seq<Span>) returns (after: map<int, int>)
    requires Separated(spans)
    ensures forall t :: Level(after, t) == Level(events, t) + if Covered(spans, t) then 1 else 0
    ensures events.Keys <= after.Keys
    ensures forall s :: s in spans ==> s.end in after
    ensures forall k :: k in after && k !in events ==> exists s :: s in spans && (k == s.start || k == s.end)
  {
    after := events;
    for k := 0 to |spans|
      invariant forall t :: Level(after, t) == Level(events, t) + if Covered(spans[..k], t) then 1 else 0
      invariant events.Keys <= after.Keys
      invariant forall s :: s in spans[..k] ==> s.end in after
      invariant forall k :: k in after && k !in events ==> exists s :: s in spans && (k == s.start || k == s.end)
    {
      var s := spans[k];
      PrefixCovered(spans, k);
      NextSpanDisjoint(spans, k);
      BumpSpanLevel(after, s);
      ghost var before := after;
      after := BumpSpan(after, s);
      assert after.Keys == before.Keys + {s.start, s.end};
      assert s in spans;
    }
    assert spans[..|spans|] == spans;
  }

  /** The cards among `done` busy at t. */
  ghost function DoneBusy(cards: map<string, seq<Span>>, done: set<string>, t: int): set<string> {
    set c | c in done && Covered(Spans(cards, c), t)
  }

  lemma DoneOneMore(cards: map<string, seq<Span>>, done: set<string>, c: string)
    requires c !in done
    ensures forall t :: |DoneBusy(cards, done + {c}, t)|
                     == |DoneBusy(cards, done, t)| + if Covered(Spans(cards, c), t) then 1 else 0
  {
    forall t ensures |DoneBusy(cards, done + {c}, t)|
                  == |DoneBusy(cards, done, t)| + if Covered(Spans(cards, c), t) then 1 else 0 {
      assert DoneBusy(cards, done + {c}, t)
          == DoneBusy(cards, done, t) + if Covered(Spans(cards, c), t) then {c} else {};
    }
  }

  /** Some event lies after every instant at which a done card is busy. */
  ghost predicate EndsKnown(cards: map<string, seq<Span>>, done: set<string>, events: map<int, int>) {
    forall c, t :: c in done && Covered(Spans(cards, c), t) ==> exists k :: k in events && t < k
  }

  method CollectEvents(cards: map<string, seq<Span>>, ghost start: int) returns (events: map<int, int>)
    requires forall c, s :: c in cards && s in cards[c] ==> start <= s.start
    ensures forall t :: Level(events, t) == |DoneBusy(cards, cards.Keys, t)|
    ensures forall k :: k in events ==> start <= k
    ensures EndsKnown(cards, cards.Keys, events)
  {
    events := map[];
    var todo := cards.Keys;
    while todo != {}
      invariant todo <= cards.Keys
      invariant forall t :: Level(events, t) == |DoneBusy(cards, cards.Keys - todo, t)|
      invariant forall k :: k in events ==> start <= k
      invariant EndsKnown(cards, cards.Keys - todo, events)
    {
      var c :| c in todo;
      var spans := Union(cards[c]);
      StartsInside(cards[c], spans, start);
      DoneOneMore(cards, cards.Keys - todo, c);
      assert cards.Keys - (todo - {c}) == cards.Keys - todo + {c};
      ghost var before := events;
      events := AddCard(events, spans);
      todo := todo - {c};
      EndsStillKnown(cards, cards.Keys - todo - {c}, c, spans, before, events);
    }
    assert cards.Keys - {} == cards.Keys;
  }

  lemma EndsStillKnown(cards: map<string, seq<Span>>, done: set<string>, c: string, spans: seq<Span>,
      before: map<int, int>, after: map<int, int>)
    requires EndsKnown(cards, done, before) && before.Keys <= after.Keys
    requires forall t :: Covered(Spans(cards, c), t) ==> Covered(spans, t)
    requires forall s :: s in spans ==> s.end in after
    ensures EndsKnown(cards, done + {c}, after)
  {
    forall d, t | d in done + {c} && Covered(Spans(cards, d), t) ensures exists k :: k in after && t < k {
      if d == c {
        var s :| s in spans && s.Holds(t);
        assert s.end in after;
      } else {
        var k :| k in before && t < k;
        assert k in after;
      }
    }
  }

  lemma StartsInside(spans: seq<Span>, merged: seq<Span>, start: int)
    requires forall s :: s in spans ==> start <= s.start
    requires Separated(merged)
    requires forall t :: Covered(merged, t) <==> Covered(spans, t)
    ensures forall s :: s in merged ==> start <= s.start < s.end
  {
    forall s | s in merged ensures start <= s.start < s.end {
      assert Covered(merged, s.start);
      var x :| x in spans && x.Holds(s.start);
    }
  }

  // ----- the sweep

  lemma CountAppend(segs: seq<Segment>, s: Segment, t: int)
    ensures CountAt(segs + [s], t) == if s.Holds(t) then s.count else CountAt(segs, t)
  {
    assert (segs + [s])[..|segs|] == segs;
  }

  lemma {:induction false} CountBeyond(segs: seq<Segment>, t: int)
    requires forall s :: s in segs ==> s.end <= t
    ensures CountAt(segs, t) == 0
  {
    if segs != [] {
      assert segs[|segs| - 1] in segs;
      CountBeyond(segs[..|segs| - 1], t);
    }
  }

  lemma LevelStep(events: map<int, int>, keys: seq<int>, i: nat, t: int)
    requires Increasing(keys) && forall k :: k in keys <==> k in events
    requires i <= |keys| && (i < |keys| ==> t < keys[i])
    requires i > 0 ==> keys[i - 1] <= t
    ensures Level(events, t) == if i == 0 then 0 else Level(events, keys[i - 1])
  {
    if i == 0 {
      assert KeysUpTo(events, t) == {};
    } else {
      assert KeysUpTo(events, t) == KeysUpTo(events, keys[i - 1]);
    }
  }

  lemma LevelNext(events: map<int, int>, keys: seq<int>, i: nat)
    requires Increasing(keys) && forall k :: k in keys <==> k in events
    requires i < |keys|
    ensures Level(events, keys[i]) == events[keys[i]] + if i == 0 then 0 else Level(events, keys[i - 1])
  {
    SumRemove(KeysUpTo(events, keys[i]), events, keys[i]);
    LevelStep(events, keys, i, keys[i] - 1);
    assert KeysUpTo(events, keys[i]) - {keys[i]} == KeysUpTo(events, keys[i] - 1);
  }

  ghost predicate EndsBy(events: map<int, int>, t: int) {
    forall k :: k in events ==> k <= t
  }

  /** Appends [previous, at) with the running count, or lengthens the last segment (lines 141-145). */
  function Extend(segs: seq<Segment>, previous: int, at: int, active: int): seq<Segment> {
    var n := |segs|;
    if active == 0 || at <= previous then segs
    else if n > 0 && segs[n - 1].end == previous && segs[n - 1].count == active then
      segs[..n - 1] + [segs[n - 1].(end := at)]
    else segs + [Segment(previous, at, active)]
  }

  lemma ExtendCount(segs: seq<Segment>, previous: int, at: int, active: int, t: int)
    requires forall s :: s in segs ==> s.start < s.end <= previous
    ensures CountAt(Extend(segs, previous, at, active), t)
         == if previous <= t < at then active else CountAt(segs, t)
  {
    var n := |segs|;
    if previous <= t { CountBeyond(segs, t); }
    if active != 0 && at > previous {
      if n > 0 && segs[n - 1].end == previous && segs[n - 1].count == active {
        CountAppend(segs[..n - 1], segs[n - 1].(end := at), t);
      } else {
        CountAppend(segs, Segment(previous, at, active), t);
      }
    }
  }

  /** The state of the sweep before the i-th event instant. */
  ghost predicate SweptTo(segs: seq<Segment>, events: map<int, int>, start: int, previous: int) {
    && Canonical(segs)
    && (forall s :: s in segs ==> start <= s.start < s.end <= previous)
    && (forall t :: t < previous ==> CountAt(segs, t) == Level(events, t))
  }

  lemma AppendCanonical(segs: seq<Segment>, s: Segment)
    requires Canonical(segs) && s.start < s.end && s.count != 0
    requires segs != [] ==> var last := segs[|segs| - 1];
      last.end < s.start || (last.end == s.start && last.count != s.count)
    ensures Canonical(segs + [s])
  {
    assert segs != [] ==> forall i :: 0 <= i < |segs| ==> segs[i].end <= segs[|segs| - 1].end;
  }

  lemma GrowCanonical(segs: seq<Segment>, at: int)
    requires Canonical(segs) && segs != [] && segs[|segs| - 1].end <= at
    ensures Canonical(segs[..|segs| - 1] + [segs[|segs| - 1].(end := at)])
  {
  }

  lemma ExtendCanonical(segs: seq<Segment>, previous: int, at: int, active: int)
    requires Canonical(segs) && previous <= at && forall s :: s in segs ==> s.start < s.end <= previous
    ensures Canonical(Extend(segs, previous, at, active))
  {
    hide Canonical;
    var n := |segs|;
    if n > 0 { assert segs[n - 1] in segs; }
    if active != 0 && at > previous {
      if n > 0 && segs[n - 1].end == previous && segs[n - 1].count == active {
        GrowCanonical(segs, at);
      } else {
        AppendCanonical(segs, Segment(previous, at, active));
      }
    }
  }

  lemma SweepStep(segs: seq<Segment>, events: map<int, int>, start: int, previous: int, at: int, active: int)
    requires SweptTo(segs, events, start, previous) && start <= previous <= at
    requires forall t :: previous <= t < at ==> Level(events, t) == active
    ensures SweptTo(Extend(segs, previous, at, active), events, start, at)
  {
    var r := Extend(segs, previous, at, active);
    ExtendCanonical(segs, previous, at, active);
    forall t | t < at ensures CountAt(r, t) == Level(events, t) {
      ExtendCount(segs, previous, at, active, t);
    }
  }

  method SweepEvents(events: map<int, int>, start: int) returns (result: seq<Segment>)
    requires forall k :: k in events ==> start <= k
    requires forall t :: EndsBy(events, t) ==> Level(events, t) == 0
    ensures Canonical(result)
    ensures forall t :: CountAt(result, t) == Level(events, t)
  {
    var keys := Ascending(events.Keys);
    var active, previous := 0, start;
    result := [];
    hide SweptTo, Level, Extend, Canonical, CountAt;
    SweepStart(events, keys, start);
    for i := 0 to |keys|
      invariant previous == if i == 0 then start else keys[i - 1]
      invariant active == if i == 0 then 0 else Level(events, previous)
      invariant SweptTo(result, events, start, previous)
    {
      var at := keys[i];
      SweepNext(result, events, keys, i, start, previous, active);
      result := Extend(result, previous, at, active);
      active := active + events[at];
      previous := at;
    }
    LastIsMost(keys);
    assert EndsBy(events, previous) by {
      assert forall k :: k in events ==> k in keys;
    }
    SweepDone(result, events, start, previous);
  }

  lemma SweepDone(segs: seq<Segment>, events: map<int, int>, start: int, previous: int)
    requires SweptTo(segs, events, start, previous)
    requires EndsBy(events, previous)
    requires forall t :: EndsBy(events, t) ==> Level(events, t) == 0
    ensures Canonical(segs) && forall t :: CountAt(segs, t) == Level(events, t)
  {
    forall t | previous <= t ensures CountAt(segs, t) == Level(events, t) {
      assert EndsBy(events, t);
      CountBeyond(segs, t);
    }
  }

  lemma LastIsMost(keys: seq<int>)
    requires Increasing(keys)
    ensures forall k :: k in keys ==> k <= keys[|keys| - 1]
  {
  }

  lemma SweepStart(events: map<int, int>, keys: seq<int>, start: int)
    requires Increasing(keys) && (forall k :: k in keys <==> k in events) && forall k :: k in events ==> start <= k
    ensures SweptTo([], events, start, start)
  {
    assert keys != [] ==> keys[0] in keys && keys[0] in events;
    forall t | t < start ensures Level(events, t) == 0 {
      LevelStep(events, keys, 0, t);
    }
  }

  lemma SweepNext(segs: seq<Segment>, events: map<int, int>, keys: seq<int>, i: nat, start: int, previous: int,
      active: int)
    requires Increasing(keys) && (forall k :: k in keys <==> k in events) && i < |keys|
    requires forall k :: k in events ==> start <= k
    requires previous == if i == 0 then start else keys[i - 1]
    requires active == if i == 0 then 0 else Level(events, previous)
    requires SweptTo(segs, events, start, previous)
    ensures keys[i] in events
    ensures SweptTo(Extend(segs, previous, keys[i], active), events, start, keys[i])
    ensures active + events[keys[i]] == Level(events, keys[i])
  {
    forall t | previous <= t < keys[i] ensures Level(events, t) == active {
      LevelStep(events, keys, i, t);
    }
    assert keys[i] in events && (i > 0 ==> keys[i - 1] in events);
    SweepStep(segs, events, start, previous, keys[i], active);
    LevelNext(events, keys, i);
  }

  /** Every instant of the window shows exactly the number of distinct busy cards; outside it, nothing. */
  method Segments(records: seq<Usage>, start: int, end: int) returns (result: seq<Segment>)
    ensures Canonical(result)
    ensures forall t :: CountAt(result, t) == if start <= t < end then |Busy(records, t)| else 0
    ensures forall s :: s in result ==> start <= s.start < s.end <= end && s.count > 0
  {
    var cards := GroupByCard(records, start, end);
    var events := CollectEvents(cards, start);
    forall t ensures DoneBusy(cards, cards.Keys, t) == if start <= t < end then Busy(records, t) else {} {
      SameBusy(cards, records, start, end, t);
    }
    forall t | EndsBy(events, t) ensures Level(events, t) == 0 {
      assert forall c :: c in cards.Keys ==> !Covered(Spans(cards, c), t);
      assert DoneBusy(cards, cards.Keys, t) == {};
    }
    result := SweepEvents(events, start);
    SegmentsInside(result, start, end);
  }

  lemma SameBusy(cards: map<string, seq<Span>>, records: seq<Usage>, start: int, end: int, t: int)
    requires Grouped(cards, records, start, end)
    ensures DoneBusy(cards, cards.Keys, t) == if start <= t < end then Busy(records, t) else {}
  {
    forall c ensures c in DoneBusy(cards, cards.Keys, t) <==> start <= t < end && c in Busy(records, t) {
      assert Covered(Spans(cards, c), t) <==> start <= t < end && CardBusy(records, c, t);
      assert CardBusy(records, c, t) <==> c in Busy(records, t);
    }
  }

  lemma {:induction false} CountOf(segs: seq<Segment>, i: nat, t: int)
    requires Canonical(segs) && i < |segs| && segs[i].Holds(t)
    ensures CountAt(segs, t) == segs[i].count
  {
    if i < |segs| - 1 {
      CountOf(segs[..|segs| - 1], i, t);
    }
  }

  lemma SegmentsInside(segs: seq<Segment>, start: int, end: int)
    requires Canonical(segs)
    requires forall t :: CountAt(segs, t) >= 0
    requires forall t :: !(start <= t < end) ==> CountAt(segs, t) == 0
    ensures forall s :: s in segs ==> start <= s.start < s.end <= end && s.count > 0
  {
    forall i | 0 <= i < |segs| ensures start <= segs[i].start < segs[i].end <= end && segs[i].count > 0 {
      CountOf(segs, i, segs[i].start);
      CountOf(segs, i, segs[i].end - 1);
    }
  }

  /** The contract of Segments fixes its result: one canonical list per count function. */
  lemma {:induction false} CanonicalUnique(a: seq<Segment>, b: seq<Segment>)
    requires Canonical(a) && Canonical(b)
    requires forall t :: CountAt(a, t) == CountAt(b, t)
    ensures a == b
    decreases |a|
  {
    if a == [] || b == [] {
      if a != [] { NonemptyShows(a); assert false; }
      if b != [] { NonemptyShows(b); assert false; }
    } else {
      var a0, b0 := a[..|a| - 1], b[..|b| - 1];
      SameLast(a, b);
      SameRest(a, a0, b, b0);
      CanonicalUnique(a0, b0);
      assert a == a0 + [a[|a| - 1]] && b == b0 + [b[|b| - 1]];
    }
  }

  lemma NonemptyShows(a: seq<Segment>)
    requires Canonical(a) && a != []
    ensures CountAt(a, a[0].start) != 0
  {
    CountOf(a, 0, a[0].start);
  }

  lemma SameRest(a: seq<Segment>, a0: seq<Segment>, b: seq<Segment>, b0: seq<Segment>)
    requires Canonical(a) && Canonical(b) && a != [] && b != []
    requires a[|a| - 1] == b[|b| - 1]
    requires a0 == a[..|a| - 1] && b0 == b[..|b| - 1]
    requires forall t :: CountAt(a, t) == CountAt(b, t)
    ensures Canonical(a0) && Canonical(b0)
    ensures forall t :: CountAt(a0, t) == CountAt(b0, t)
  {
    forall t ensures CountAt(a0, t) == CountAt(b0, t) {
      assert CountAt(a, t) == CountAt(b, t);
      if a[|a| - 1].Holds(t) {
        CountBeyondPrefix(a, t);
        CountBeyondPrefix(b, t);
      }
    }
  }

  lemma SameLast(a: seq<Segment>, b: seq<Segment>)
    requires Canonical(a) && Canonical(b) && a != [] && b != []
    requires forall t :: CountAt(a, t) == CountAt(b, t)
    ensures a[|a| - 1] == b[|b| - 1]
  {
    LastSegment(a, b);
    LastSegment(b, a);
    CountOf(a, |a| - 1, a[|a| - 1].end - 1);
    CountOf(b, |b| - 1, b[|b| - 1].end - 1);
    assert CountAt(a, a[|a| - 1].end - 1) == CountAt(b, a[|a| - 1].end - 1);
  }

  lemma CountBeyondPrefix(a: seq<Segment>, t: int)
    requires Canonical(a) && a != [] && t >= a[|a| - 1].start
    ensures CountAt(a[..|a| - 1], t) == 0
  {
    forall s | s in a[..|a| - 1] ensures s.end <= t {
      var i :| 0 <= i < |a| - 1 && a[i] == s;
    }
    CountBeyond(a[..|a| - 1], t);
  }

  lemma LastSegment(a: seq<Segment>, b: seq<Segment>)
    requires Canonical(a) && Canonical(b) && a != [] && b != []
    requires forall t :: CountAt(a, t) == CountAt(b, t)
    ensures a[|a| - 1].end <= b[|b| - 1].end
    ensures a[|a| - 1].end == b[|b| - 1].end ==> b[|b| - 1].start <= a[|a| - 1].start
  {
    var x, y := a[|a| - 1], b[|b| - 1];
    CountOf(a, |a| - 1, x.end - 1);
    if y.end < x.end {
      forall s | s in b ensures s.end <= x.end - 1 {
        var i :| 0 <= i < |b| && b[i] == s;
      }
      CountBeyond(b, x.end - 1);
      assert false;
    }
    if x.end == y.end && x.start < y.start {
      CountOf(b, |b| - 1, x.end - 1);
      CountOf(a, |a| - 1, y.start - 1);
      PreviousCount(b, x.count);
      assert false;
    }
  }

  /** Just before the last segment the count differs from that segment's. */
  lemma PreviousCount(b: seq<Segment>, c: int)
    requires Canonical(b) && b != [] && b[|b| - 1].count == c
    ensures CountAt(b, b[|b| - 1].start - 1) != c
  {
    var n, t := |b|, b[|b| - 1].start - 1;
    if n > 1 && b[n - 2].end == b[n - 1].start {
      CountOf(b, n - 2, t);
    } else {
      forall i | 0 <= i < n ensures !b[i].Holds(t) {
        if i < n - 2 { assert b[i].end <= b[n - 2].start; }
      }
      CountNone(b, t);
    }
  }

  lemma {:induction false} CountNone(segs: seq<Segment>, t: int)
    requires forall i :: 0 <= i < |segs| ==> !segs[i].Holds(t)
    ensures CountAt(segs, t) == 0
  {
    if segs != [] {
      CountNone(segs[..|segs| - 1], t);
    }
  }
}
