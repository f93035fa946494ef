/** Single-flight loading in front of a least-recently-used cache (activity.py, ActivityService).
    Each method is one uninterrupted piece of the event loop's work. */
module ActivityCache {
  import Intervals

  const FRESH: int := 60 * Intervals.SECOND
  const MAX_BYTES: nat := 16 * 1024 * 1024
  const MAX_ENTRIES: nat := 16
  const MAX_LOADS: nat := 16
  const WORKERS: nat := 2

  datatype Data<V> = Data(value: V, asOf: int, size: nat)
  datatype Entry<K, V> = Entry(key: K, data: Data<V>)

  function Bytes<K, V>(cache: seq<Entry<K, V>>): nat {
    if cache == [] then 0 else cache[0].data.size + Bytes(cache[1..])
  }

  predicate Fits<K, V>(cache: seq<Entry<K, V>>) {
    |cache| <= MAX_ENTRIES && Bytes(cache) <= MAX_BYTES
  }

  /** The number of oldest entries that must go for the rest to fit, and no more. */
  ghost predicate Evicts<K, V>(cache: seq<Entry<K, V>>, k: nat) {
    && k <= |cache| && |cache| - k <= MAX_ENTRIES && Bytes(cache[k..]) <= MAX_BYTES
    && forall j :: 0 <= j < k ==> |cache| - j > MAX_ENTRIES || Bytes(cache[j..]) > MAX_BYTES
  }

  /** What is left of `all` after the eviction loop. */
  ghost predicate Trimmed<K, V>(all: seq<Entry<K, V>>, cache: seq<Entry<K, V>>) {
    exists k: nat :: k <= |all| && Evicts(all, k) && cache == all[k..]
  }

  predicate Distinct<K(==), V>(cache: seq<Entry<K, V>>) {
    forall i, j :: 0 <= i < j < |cache| ==> cache[i].key != cache[j].key
  }

  predicate Holds<K(==), V>(cache: seq<Entry<K, V>>, key: K) {
    exists i :: 0 <= i < |cache| && cache[i].key == key
  }

  function Without<K(==), V>(cache: seq<Entry<K, V>>, key: K): (rest: seq<Entry<K, V>>)
    ensures forall i :: 0 <= i < |rest| ==> rest[i] in cache && rest[i].key != key
    ensures |rest| <= |cache|
  {
    if cache == [] then []
    else if cache[0].key == key then Without(cache[1..], key)
    else [cache[0]] + Without(cache[1..], key)
  }

  /** Only entries of the key go. */
  lemma {:induction false} OthersStay<K, V>(cache: seq<Entry<K, V>>, key: K, i: nat)
    requires i < |cache| && cache[i].key != key
    ensures cache[i] in Without(cache, key)
  {
    if i > 0 { OthersStay(cache[1..], key, i - 1); }
  }

  /** Recency: how lately each entry was stored or returned. Along the dictionary it grows. */
  ghost predicate Recent<K, V>(cache: seq<Entry<K, V>>, used: map<K, nat>, clock: nat) {
    && (forall i :: 0 <= i < |cache| ==> cache[i].key in used && used[cache[i].key] < clock)
    && (forall i, j :: 0 <= i < j < |cache| && cache[i].key in used && cache[j].key in used ==>
         used[cache[i].key] < used[cache[j].key])
  }

  ghost predicate Sound<K, V>(cache: seq<Entry<K, V>>, used: map<K, nat>, clock: nat, stored: map<K, Data<V>>) {
    && Distinct(cache) && Recent(cache, used, clock)
    && forall i :: 0 <= i < |cache| ==> cache[i].key in stored && cache[i].data == stored[cache[i].key]
  }

  lemma {:induction false} BytesSplit<K, V>(a: seq<Entry<K, V>>, b: seq<Entry<K, V>>)
    ensures Bytes(a + b) == Bytes(a) + Bytes(b)
  {
    if a == [] {
      assert a + b == b;
    } else {
      BytesSplit(a[1..], b);
      assert (a + b)[1..] == a[1..] + b;
    }
  }

  lemma {:induction false} WithoutIsSubsequence<K, V>(cache: seq<Entry<K, V>>, key: K)
    returns (at: seq<nat>)
    ensures |at| == |Without(cache, key)|
    ensures forall i :: 0 <= i < |at| ==>
      at[i] < |cache| && Without(cache, key)[i] == cache[at[i]] && cache[at[i]].key != key
    ensures forall i, j :: 0 <= i < j < |at| ==> at[i] < at[j]
  {
    if cache == [] {
      at := [];
    } else {
      var rest := WithoutIsSubsequence(cache[1..], key);
      var shifted := seq(|rest|, i requires 0 <= i < |rest| => rest[i] + 1);
      at := if cache[0].key == key then shifted else [0] + shifted;
    }
  }

  lemma {:induction false} WithoutBytes<K, V>(cache: seq<Entry<K, V>>, key: K)
    ensures Bytes(Without(cache, key)) <= Bytes(cache)
  {
    if cache != [] {
      WithoutBytes(cache[1..], key);
    }
  }

  lemma TouchedDistinct<K, V>(cache: seq<Entry<K, V>>, e: Entry<K, V>)
    requires Distinct(cache)
    ensures Distinct(Without(cache, e.key) + [e])
  {
    var at := WithoutIsSubsequence(cache, e.key);
    hide Without;
    var rest := Without(cache, e.key);
    forall i, j | 0 <= i < j < |rest| ensures rest[i].key != rest[j].key {
      assert at[i] < at[j];
    }
  }

  lemma TouchedRecent<K, V>(cache: seq<Entry<K, V>>, used: map<K, nat>, clock: nat, e: Entry<K, V>)
    requires Distinct(cache) && Recent(cache, used, clock)
    ensures Recent(Without(cache, e.key) + [e], used[e.key := clock], clock + 1)
  {
    var at := WithoutIsSubsequence(cache, e.key);
    hide Without;
    var rest := Without(cache, e.key);
    forall i | 0 <= i < |rest| ensures rest[i].key in used && used[rest[i].key] < clock && rest[i].key != e.key {
      assert rest[i] == cache[at[i]];
    }
    forall i, j | 0 <= i < j < |rest| ensures used[rest[i].key] < used[rest[j].key] {
      assert at[i] < at[j] && rest[i] == cache[at[i]] && rest[j] == cache[at[j]];
    }
  }

  /** Moving an entry to the end, or storing one there, keeps the order one of recency. */
  lemma TouchedSound<K, V>(cache: seq<Entry<K, V>>, used: map<K, nat>, clock: nat, stored: map<K, Data<V>>,
      e: Entry<K, V>)
    requires Sound(cache, used, clock, stored)
    ensures Sound(Without(cache, e.key) + [e], used[e.key := clock], clock + 1, stored[e.key := e.data])
  {
    TouchedDistinct(cache, e);
    TouchedRecent(cache, used, clock, e);
    var at := WithoutIsSubsequence(cache, e.key);
    hide Without, Distinct, Recent;
    var rest := Without(cache, e.key);
    assert forall i :: 0 <= i < |rest| ==> rest[i] == cache[at[i]];
  }

  lemma SuffixSound<K, V>(cache: seq<Entry<K, V>>, used: map<K, nat>, clock: nat, stored: map<K, Data<V>>, k: nat)
    requires Sound(cache, used, clock, stored) && k <= |cache|
    ensures Sound(cache[k..], used, clock, stored)
  {
  }

  /** An entry that fits alone is not evicted. */
  lemma LastSurvives<K, V>(cache: seq<Entry<K, V>>, k: nat)
    requires cache != [] && cache[|cache| - 1].data.size <= MAX_BYTES && Evicts(cache, k)
    ensures k < |cache|
  {
    var n := |cache| - 1;
    assert cache[n..] == [cache[n]];
    assert Bytes([cache[n]]) == cache[n].data.size;
    assert Fits(cache[n..]);
  }

  /** Every victim was used less recently than every survivor. */
  lemma VictimsAreOldest<K, V>(cache: seq<Entry<K, V>>, used: map<K, nat>, clock: nat, stored: map<K, Data<V>>,
                               k: nat, victim: nat, survivor: nat)
    requires Sound(cache, used, clock, stored) && Evicts(cache, k) && victim < k <= survivor < |cache|
    ensures cache[victim].key in used && cache[survivor].key in used
    ensures used[cache[victim].key] < used[cache[survivor].key]
  {
  }

  lemma FewerLoads<K>(pending: map<K, nat>, reading: set<K>, key: K)
    requires reading <= pending.Keys
    ensures |pending - {key}| <= |pending| && |reading - {key}| <= |reading|
    ensures reading - {key} <= (pending - {key}).Keys
  {
  }

  datatype Answer<V> = Hit(data: Data<V>) | Waits(load: nat) | Busy
  datatype Loaded<V> = Ok(data: Data<V>) | Failed

  class ActivityService<K(==), V(==)> {
    /** OrderedDict, oldest first. */
    var cache: seq<Entry<K, V>>
    var pending: map<K, nat>
    /** Loads holding one of the two workers. */
    var reading: set<K>
    var loads: nat
    ghost var clock: nat
    ghost var used: map<K, nat>
    ghost var stored: map<K, Data<V>>

    /** At most one load in flight per key and sixteen overall, at most two of them reading. */
    ghost predicate Valid() reads this {
      && |cache| <= MAX_ENTRIES && Bytes(cache) <= MAX_BYTES && Sound(cache, used, clock, stored)
      && |pending| <= MAX_LOADS && reading <= pending.Keys && |reading| <= WORKERS
      && (forall k :: k in pending ==> pending[k] < loads)
      && (forall a, b :: a in pending && b in pending && a != b ==> pending[a] != pending[b])
    }

    constructor ()
      ensures Valid() && cache == [] && pending == map[] && loads == 0
    {
      cache, pending, reading, loads := [], map[], {}, 0;
      clock, used, stored := 0, map[], map[];
    }

    method Lookup(key: K) returns (at: nat)
      ensures at <= |cache|
      ensures at < |cache| ==> cache[at].key == key
      ensures at == |cache| ==> !Holds(cache, key)
    {
      at := 0;
      while at < |cache| && cache[at].key != key
        invariant 0 <= at <= |cache|
        invariant forall i :: 0 <= i < at ==> cache[i].key != key
      {
        at := at + 1;
      }
    }

    /** A request: a hit is under a minute old, is the latest data stored for its key and becomes
        the most recently used; otherwise the request waits for its key's one load. */
    method Get(key: K, now: int) returns (answer: Answer<V>)
      requires Valid()
      modifies this`cache, this`pending, this`loads, this`clock, this`used
      ensures Valid()
      ensures answer.Hit?
        <==> exists i :: 0 <= i < |old(cache)| && old(cache)[i].key == key && now - old(cache)[i].data.asOf < FRESH
      ensures answer.Hit? ==> now - answer.data.asOf < FRESH && key in stored && answer.data == stored[key]
      ensures answer.Hit? ==> cache == Without(old(cache), key) + [Entry(key, answer.data)] && pending == old(pending)
      ensures answer.Hit? ==> used == old(used)[key := old(clock)]
      ensures !answer.Hit? ==> cache == old(cache) && used == old(used)
      ensures !answer.Hit? && key in old(pending) ==> answer == Waits(old(pending)[key]) && pending == old(pending)
      ensures !answer.Hit? && key !in old(pending) && |old(pending)| >= MAX_LOADS ==>
        answer == Busy && pending == old(pending)
      ensures !answer.Hit? && key !in old(pending) && |old(pending)| < MAX_LOADS ==>
        answer == Waits(old(loads)) && pending == old(pending)[key := old(loads)] && loads == old(loads) + 1
      ensures pending == old(pending) ==> loads == old(loads)
    {
      var at := Lookup(key);
      if at < |cache| && now - cache[at].data.asOf < FRESH {
        answer := Hit(cache[at].data);
        Touch(Entry(key, cache[at].data));
        return;
      }
      assert forall i :: 0 <= i < |cache| && cache[i].key == key ==> i == at;
      if key !in pending {
        if |pending| >= MAX_LOADS { return Busy; }
        pending, loads := pending[key := loads], loads + 1;
      }
      answer := Waits(pending[key]);
    }

    method Touch(e: Entry<K, V>)
      requires Valid() && e in cache
      modifies this`cache, this`clock, this`used
      ensures Valid() && cache == Without(old(cache), e.key) + [e] && used == old(used)[e.key := old(clock)]
    {
      TouchedSound(cache, used, clock, stored, e);
      TouchedFits(cache, e);
      assert stored[e.key := e.data] == stored;
      cache := Without(cache, e.key) + [e];
      used, clock := used[e.key := clock], clock + 1;
    }

    /** A load takes one of the two workers. */
    method StartReading(key: K)
      requires Valid() && key in pending && key !in reading && |reading| < WORKERS
      modifies this`reading
      ensures Valid() && reading == old(reading) + {key}
    {
      reading := reading + {key};
    }

    /** The eviction loop. */
    method Evict(ghost k: nat)
      requires Sound(cache, used, clock, stored) && Evicts(cache, k)
      modifies this`cache
      ensures Fits(cache) && cache == old(cache)[k..] && Sound(cache, used, clock, stored)
    {
      ghost var gone := 0;
      while !Fits(cache)
        invariant gone <= k && cache == old(cache)[gone..]
        decreases |cache|
      {
        assert old(cache)[gone..][1..] == old(cache)[gone + 1..];
        cache := cache[1..];
        gone := gone + 1;
      }
      assert Fits(old(cache)[gone..]);
      SuffixSound(old(cache), used, clock, stored, k);
    }

    /** A load ends: data that fits the cache is stored as the most recently used entry and
        survives the evictions it causes; the key is free for a new load whatever happened. */
    method Finish(key: K, result: Loaded<V>)
      requires Valid() && key in pending
      modifies this`cache, this`pending, this`reading, this`clock, this`used, this`stored
      ensures Valid() && pending == old(pending) - {key} && reading == old(reading) - {key}
      ensures result.Ok? && result.data.size <= MAX_BYTES ==>
        Trimmed(Without(old(cache), key) + [Entry(key, result.data)], cache) && Entry(key, result.data) in cache
      ensures result.Ok? && result.data.size <= MAX_BYTES ==>
        used == old(used)[key := old(clock)] && stored == old(stored)[key := result.data]
      ensures !(result.Ok? && result.data.size <= MAX_BYTES) ==>
        cache == old(cache) && used == old(used) && stored == old(stored)
    {
      hide Sound, Trimmed, Bytes, Without;
      EndLoad(key);
      if result.Ok? && result.data.size <= MAX_BYTES {
        Store(Entry(key, result.data));
      }
    }

    method EndLoad(key: K)
      requires Valid() && key in pending
      modifies this`pending, this`reading
      ensures Valid() && pending == old(pending) - {key} && reading == old(reading) - {key}
    {
      hide Bytes, Sound;
      FewerLoads(pending, reading, key);
      pending, reading := pending - {key}, reading - {key};
    }

    method Store(e: Entry<K, V>)
      requires Fits(cache) && Sound(cache, used, clock, stored) && e.data.size <= MAX_BYTES
      modifies this`cache, this`clock, this`used, this`stored
      ensures Fits(cache) && Sound(cache, used, clock, stored)
      ensures Trimmed(Without(old(cache), e.key) + [e], cache) && e in cache
      ensures used == old(used)[e.key := old(clock)] && stored == old(stored)[e.key := e.data]
    {
      hide Sound, Fits, Evicts;
      TouchedSound(cache, used, clock, stored, e);
      cache := Without(cache, e.key) + [e];
      used, clock, stored := used[e.key := clock], clock + 1, stored[e.key := e.data];
      ghost var all := cache;
      ghost var k := EvictsSome(all, 0);
      LastSurvives(all, k);
      Evict(k);
      assert all[k..][|all| - 1 - k] == e;
    }
  }

  lemma EvictsSome<K, V>(cache: seq<Entry<K, V>>, from: nat) returns (k: nat)
    requires from <= |cache| && forall j :: 0 <= j < from ==> !Fits(cache[j..])
    ensures k <= |cache| && Evicts(cache, k)
    decreases |cache| - from
  {
    if Fits(cache[from..]) {
      k := from;
    } else {
      assert from < |cache|;
      k := EvictsSome(cache, from + 1);
    }
  }

  lemma {:induction false} TouchedFits<K, V>(cache: seq<Entry<K, V>>, e: Entry<K, V>)
    requires e in cache
    ensures |Without(cache, e.key) + [e]| <= |cache|
    ensures Bytes(Without(cache, e.key) + [e]) <= Bytes(cache)
  {
    if cache[0] == e {
      BytesSplit(Without(cache[1..], e.key), [e]);
      WithoutBytes(cache[1..], e.key);
      assert Bytes([e]) == e.data.size;
    } else {
      assert e in cache[1..];
      TouchedFits(cache[1..], e);
      if cache[0].key != e.key {
        assert Without(cache, e.key) + [e] == [cache[0]] + (Without(cache[1..], e.key) + [e]);
      }
    }
  }
}
