/** The sliding-window rate limiter (lab/api.py, SlidingWindowLimiter). */
module RateLimiter {

  datatype Rate = Rate(limit: int, window: int)

  /** How many of the times lie in (a, b]. */
  ghost function CountIn(times: seq<int>, a: int, b: int): nat {
    if times == [] then 0
    else CountIn(times[..|times| - 1], a, b) + if a < times[|times| - 1] <= b then 1 else 0
  }

  ghost predicate Nondecreasing(times: seq<int>) {
    forall i, j :: 0 <= i < j < |times| ==> times[i] <= times[j]
  }

  /** No window of the given length, wherever it ends, holds more than limit units. */
  ghost predicate Bounded(log: seq<int>, limit: int, window: int) {
    forall t :: WindowCount(log, window, t) == 0 || WindowCount(log, window, t) <= limit
  }

  /** Units in the window of the given length that ends at t. */
  ghost function WindowCount(log: seq<int>, window: int, t: int): nat {
    CountIn(log, t - window, t)
  }

  function Repeat(x: int, n: nat): (r: seq<int>)
    ensures |r| == n && forall i :: 0 <= i < n ==> r[i] == x
  {
    seq(n, _ => x)
  }

  lemma {:induction false} CountSplit(s: seq<int>, t: seq<int>, a: int, b: int)
    ensures CountIn(s + t, a, b) == CountIn(s, a, b) + CountIn(t, a, b)
  {
    if t == [] {
      assert s + t == s;
    } else {
      CountSplit(s, t[..|t| - 1], a, b);
      assert (s + t)[..|s + t| - 1] == s + t[..|t| - 1];
    }
  }

  lemma {:induction false} CountNone(s: seq<int>, a: int, b: int)
    requires forall i :: 0 <= i < |s| ==> s[i] <= a || b < s[i]
    ensures CountIn(s, a, b) == 0
  {
    if s != [] { CountNone(s[..|s| - 1], a, b); }
  }

  lemma {:induction false} CountAll(s: seq<int>, a: int, b: int)
    requires forall i :: 0 <= i < |s| ==> a < s[i] <= b
    ensures CountIn(s, a, b) == |s|
  {
    if s != [] { CountAll(s[..|s| - 1], a, b); }
  }

  lemma {:induction false} CountNarrow(s: seq<int>, a: int, b: int, c: int)
    requires a <= b
    ensures CountIn(s, b, c) <= CountIn(s, a, c)
  {
    if s != [] { CountNarrow(s[..|s| - 1], a, b, c); }
  }

  lemma {:induction false} CountMost(s: seq<int>, a: int, b: int)
    ensures CountIn(s, a, b) <= |s|
  {
    if s != [] { CountMost(s[..|s| - 1], a, b); }
  }

  /** What is kept of a key's log: everything recent, and nothing that could still matter is dropped. */
  ghost predicate Keeps(log: seq<int>, events: seq<int>, cutoff: int) {
    && |events| <= |log| && events == log[|log| - |events|..]
    && forall i :: 0 <= i < |log| - |events| ==> log[i] <= cutoff
  }

  /** After trimming, the queue holds exactly the units of the window that ends now. */
  lemma QueueIsWindow(log: seq<int>, events: seq<int>, now: int, window: int)
    requires Nondecreasing(log) && Keeps(log, events, now - window)
    requires events != [] ==> events[0] > now - window
    requires forall i :: 0 <= i < |log| ==> log[i] <= now
    ensures CountIn(log, now - window, now) == |events|
  {
    var cut := |log| - |events|;
    assert log == log[..cut] + events;
    CountSplit(log[..cut], events, now - window, now);
    CountNone(log[..cut], now - window, now);
    forall i | 0 <= i < |events| ensures now - window < events[i] <= now {
      assert events[i] == log[cut + i] && events[0] == log[cut];
    }
    CountAll(events, now - window, now);
  }

  /** Admitting within the limit now keeps every window bounded, also those ending at other instants. */
  lemma AdmitKeepsBounded(log: seq<int>, now: int, amount: nat, limit: int, window: int)
    requires forall i :: 0 <= i < |log| ==> log[i] <= now
    requires Bounded(log, limit, window)
    requires CountIn(log, now - window, now) + amount <= limit
    ensures Bounded(log + Repeat(now, amount), limit, window)
  {
    var more := Repeat(now, amount);
    forall t ensures WindowCount(log + more, window, t) == 0 || WindowCount(log + more, window, t) <= limit {
      CountSplit(log, more, t - window, t);
      if t < now {
        CountNone(more, t - window, t);
        assert WindowCount(log, window, t) == 0 || WindowCount(log, window, t) <= limit;
      } else {
        CountUpTo(log, t - window, now, t);
        CountNarrow(log, now - window, t - window, now);
        CountMost(more, t - window, t);
      }
    }
  }

  lemma {:induction false} CountUpTo(s: seq<int>, a: int, b: int, c: int)
    requires b <= c && forall i :: 0 <= i < |s| ==> s[i] <= b
    ensures CountIn(s, a, c) == CountIn(s, a, b)
  {
    if s != [] { CountUpTo(s[..|s| - 1], a, b, c); }
  }

  function Of<K>(m: map<K, seq<int>>, key: K): seq<int> {
    if key in m then m[key] else []
  }

  ghost predicate KeyValid(log: seq<int>, events: seq<int>, clock: int, limit: int, window: int) {
    && Nondecreasing(log) && (forall i :: 0 <= i < |log| ==> log[i] <= clock)
    && Keeps(log, events, clock - window)
    && Bounded(log, limit, window)
  }

  lemma LaterStillValid(log: seq<int>, events: seq<int>, clock: int, now: int, limit: int, window: int)
    requires KeyValid(log, events, clock, limit, window) && clock <= now
    ensures KeyValid(log, events, now, limit, window)
  {
  }

  lemma AdmitKeepsValid(log: seq<int>, queue: seq<int>, now: int, amount: nat, limit: int, window: int)
    requires KeyValid(log, queue, now, limit, window)
    requires CountIn(log, now - window, now) + amount <= limit
    ensures KeyValid(log + Repeat(now, amount), queue + Repeat(now, amount), now, limit, window)
  {
    AdmitKeepsBounded(log, now, amount, limit, window);
    var cut := |log| - |queue|;
    assert log + Repeat(now, amount) == log[..cut] + (queue + Repeat(now, amount));
  }

  ghost predicate AllValid<K>(log: map<K, seq<int>>, events: map<K, seq<int>>, clock: int, limits: map<K, Rate>) {
    && log.Keys <= limits.Keys && events.Keys <= limits.Keys
    && forall key :: key in limits ==>
      KeyValid(Of(log, key), Of(events, key), clock, limits[key].limit, limits[key].window)
  }

  lemma AllLater<K>(log: map<K, seq<int>>, events: map<K, seq<int>>, clock: int, now: int, limits: map<K, Rate>,
      key: K)
    requires AllValid(log, events, clock, limits) && clock <= now && key in limits
    ensures AllValid(log, events, now, limits)
    ensures KeyValid(Of(log, key), Of(events, key), now, limits[key].limit, limits[key].window)
  {
    forall k | k in limits
      ensures KeyValid(Of(log, k), Of(events, k), now, limits[k].limit, limits[k].window)
    {
      LaterStillValid(Of(log, k), Of(events, k), clock, now, limits[k].limit, limits[k].window);
    }
  }

  lemma AllPut<K>(log: map<K, seq<int>>, events: map<K, seq<int>>, now: int, limits: map<K, Rate>, key: K,
      admitted: seq<int>, queue: seq<int>)
    requires AllValid(log, events, now, limits) && key in limits
    requires KeyValid(admitted, queue, now, limits[key].limit, limits[key].window)
    ensures AllValid(log[key := admitted], events[key := queue], now, limits)
    ensures admitted == Of(log, key) ==> AllValid(log, events[key := queue], now, limits)
  {
    hide KeyValid;
  }

  class SlidingWindowLimiter<K(==)> {
    var events: map<K, seq<int>>
    /** Every unit ever admitted under a key, and the latest time seen. */
    ghost var log: map<K, seq<int>>
    ghost var clock: int
    /** The limit and window each key is used with. */
    ghost const limits: map<K, Rate>

    ghost predicate Valid()
      reads this
    {
      AllValid(log, events, clock, limits)
    }

    constructor (ghost limits: map<K, Rate>)
      ensures Valid() && this.limits == limits && log == map[]
    {
      this.limits := limits;
      events, log, clock := map[], map[], 0;
    }

    /** Admits exactly if the window ending now stays within the limit; a refused call records nothing. */
    method Consume(key: K, amount: nat, limit: int, window: int, now: int) returns (ok: bool)
      requires Valid() && key in limits && limits[key] == Rate(limit, window) && clock <= now
      modifies this
      ensures Valid() && clock == now
      ensures var earlier := if key in old(log) then old(log)[key] else [];
        && (ok <==> CountIn(earlier, now - window, now) + amount <= limit)
        && log == if ok then old(log)[key := earlier + Repeat(now, amount)] else old(log)
    {
      hide AllValid, KeyValid, CountIn, Repeat;
      AllLater(log, events, clock, now, limits, key);
      var queue := Trim(Of(events, key), Of(log, key), now, limit, window);
      ok := |queue| + amount <= limit;
      ghost var admitted := Of(log, key);
      if ok {
        AdmitKeepsValid(admitted, queue, now, amount, limit, window);
        queue, admitted := queue + Repeat(now, amount), admitted + Repeat(now, amount);
      }
      AllPut(log, events, now, limits, key, admitted, queue);
      events := events[key := queue];
      clock := now;
      if ok {
        log := log[key := admitted];
      }
    }
  }

  /** Pops the units that have left the window (lines 61-62). */
  method Trim(events: seq<int>, ghost log: seq<int>, now: int, ghost limit: int, window: int) returns (queue: seq<int>)
    requires KeyValid(log, events, now, limit, window)
    ensures KeyValid(log, queue, now, limit, window)
    ensures |queue| == CountIn(log, now - window, now)
  {
    queue := events;
    while queue != [] && queue[0] <= now - window
      invariant Keeps(log, queue, now - window)
    {
      queue := queue[1..];
    }
    QueueIsWindow(log, queue, now, window);
  }
}
