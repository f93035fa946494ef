/** Min/max reduction of a metric timeline to a bounded number of points
    (performance_highres.py, _downsample_minmax). */
module Downsample {
  import opened Sorting

  datatype Reading = Gap | Value(value: real)

  datatype Point = Point(at: int, reading: Reading)

  predicate Earlier(a: Point, b: Point) { a.at <= b.at }

  function BucketCount(maxPoints: int): int {
    if maxPoints < 5 then 1 else (maxPoints - 2) / 3
  }

  function CeilDiv(n: nat, d: int): int
    requires d > 0
  {
    (n + d - 1) / d
  }

  function BucketSize(n: nat, maxPoints: int): int {
    if CeilDiv(n, BucketCount(maxPoints)) < 1 then 1 else CeilDiv(n, BucketCount(maxPoints))
  }

  /** The j-th bucket: up to size points from position j * size. */
  function Bucket(timeline: seq<Point>, j: nat, size: nat): seq<Point> {
    if j * size >= |timeline| then []
    else if j * size + size <= |timeline| then timeline[j * size..j * size + size]
    else timeline[j * size..]
  }

  // ----- which points remain

  /** The first least reading of a stretch of the timeline. */
  ghost predicate Lowest(t: seq<Point>, a: int, b: int, i: int) {
    && 0 <= a <= i < b <= |t| && t[i].reading.Value?
    && forall k :: a <= k < b && t[k].reading.Value? && k != i ==>
      || t[i].reading.value < t[k].reading.value
      || (t[i].reading.value == t[k].reading.value && i < k)
  }

  /** The first greatest reading. */
  ghost predicate Highest(t: seq<Point>, a: int, b: int, i: int) {
    && 0 <= a <= i < b <= |t| && t[i].reading.Value?
    && forall k :: a <= k < b && t[k].reading.Value? && k != i ==>
      || t[i].reading.value > t[k].reading.value
      || (t[i].reading.value == t[k].reading.value && i < k)
  }

  ghost predicate FirstGap(t: seq<Point>, a: int, b: int, i: int) {
    0 <= a <= i < b <= |t| && t[i].reading.Gap? && forall k :: a <= k < i ==> !t[k].reading.Gap?
  }

  ghost predicate HasReading(t: seq<Point>, a: int, b: int) {
    exists k :: 0 <= a <= k < b <= |t| && t[k].reading.Value?
  }

  /** Extremes, and a gap beside them, or the end of a stretch without readings. */
  ghost predicate Chosen(t: seq<Point>, a: int, b: int, i: int) {
    || Lowest(t, a, b, i) || Highest(t, a, b, i)
    || (HasReading(t, a, b) && FirstGap(t, a, b, i))
    || (!HasReading(t, a, b) && 0 <= a <= i == b - 1 < |t|)
  }

  function EndOf(j: nat, size: nat, n: nat): nat { if j * size + size <= n then j * size + size else n }

  /** A point chosen in the j-th bucket. */
  ghost predicate ChosenIn(t: seq<Point>, size: nat, j: nat, p: Point) {
    exists i :: Chosen(t, j * size, EndOf(j, size, |t|), i) && p == t[i]
  }

  /** A point chosen in one of the first k buckets. */
  ghost predicate ChosenUpTo(t: seq<Point>, size: nat, k: nat, p: Point) {
    exists j :: 0 <= j < k && ChosenIn(t, size, j, p)
  }

  /** The ends of the timeline, and what its buckets choose: nothing else. */
  ghost predicate Remains(t: seq<Point>, size: nat, p: Point) {
    t != [] && (p == t[0] || p == t[|t| - 1] || ChosenUpTo(t, size, |t|, p))
  }

  /** Both extremes of the bucket's valid readings are kept, and a gap if it has one. */
  ghost predicate KeepsBucket(kept: set<Point>, bucket: seq<Point>) {
    && (forall p :: p in bucket && p.reading.Value? ==>
         exists low, high :: low in kept && high in kept && Extremes(bucket, low, high))
    && (forall p :: p in bucket && p.reading.Gap? ==> exists g :: g in kept && g in bucket && g.reading.Gap?)
  }

  ghost predicate Extremes(bucket: seq<Point>, low: Point, high: Point) {
    && low in bucket && high in bucket && low.reading.Value? && high.reading.Value?
    && forall p :: p in bucket && p.reading.Value? ==> low.reading.value <= p.reading.value <= high.reading.value
  }

  /** Some of the timeline's points: its ends, and what must stay of its first k buckets. */
  ghost predicate Kept(kept: set<Point>, timeline: seq<Point>, size: nat, k: nat) {
    && (forall p :: p in kept ==> p in timeline)
    && timeline != [] && timeline[0] in kept && timeline[|timeline| - 1] in kept
    && (forall j :: 0 <= j < k ==> KeepsBucket(kept, Bucket(timeline, j, size)))
  }

  function ToSet(points: seq<Point>): set<Point> {
    set p | p in points
  }

  /** The places of a stretch's first extremes and first gap, or -1. */
  ghost predicate Scanned(t: seq<Point>, i: int, low: int, high: int, missing: int) {
    && (if low == -1 then high == -1 && !HasReading(t, 0, i) else Lowest(t, 0, i, low) && Highest(t, 0, i, high))
    && (if missing == -1 then forall k :: 0 <= k < i && k < |t| ==> !t[k].reading.Gap? else FirstGap(t, 0, i, missing))
  }

  lemma ScannedNext(t: seq<Point>, i: nat, low: int, high: int, missing: int)
    requires i < |t| && Scanned(t, i, low, high, missing)
    requires -1 <= low < i && -1 <= high < i
    ensures t[i].reading.Gap? ==> Scanned(t, i + 1, low, high, if missing == -1 then i else missing)
    ensures t[i].reading.Value? ==>
      && (low != -1 ==> high >= 0 && t[low].reading.Value? && t[high].reading.Value?)
      && Scanned(t, i + 1, if low == -1 || t[i].reading.value < t[low].reading.value then i else low,
                 if high == -1 || t[i].reading.value > t[high].reading.value then i else high, missing)
  {
    if low == -1 && t[i].reading.Value? {
      forall k | 0 <= k < i ensures !t[k].reading.Value? {
        assert !HasReading(t, 0, i);
      }
    }
  }

  method FindChosen(bucket: seq<Point>) returns (low: int, high: int, missing: int)
    ensures -1 <= low < |bucket| && -1 <= high < |bucket| && -1 <= missing < |bucket|
    ensures Scanned(bucket, |bucket|, low, high, missing)
  {
    low, high, missing := -1, -1, -1;
    for i := 0 to |bucket|
      invariant -1 <= low < i && -1 <= high < i && -1 <= missing < i
      invariant Scanned(bucket, i, low, high, missing)
    {
      ScannedNext(bucket, i, low, high, missing);
      hide Scanned;
      if bucket[i].reading.Gap? {
        if missing < 0 { missing := i; }
      } else {
        var value := bucket[i].reading.value;
        var newLow := low < 0 || value < bucket[low].reading.value;
        if high < 0 || value > bucket[high].reading.value { high := i; }
        if newLow { low := i; }
      }
    }
  }

  /** The points one bucket contributes (lines 262-272): what is chosen of it, and nothing else. */
  method BucketPoints(bucket: seq<Point>) returns (points: seq<Point>)
    requires bucket != []
    ensures |points| <= 3
    ensures forall p :: p in points <==> exists i :: Chosen(bucket, 0, |bucket|, i) && p == bucket[i]
  {
    hide Scanned, Chosen;
    var low, high, missing := FindChosen(bucket);
    ChosenAre(bucket, low, high, missing);
    if low < 0 {
      points := [bucket[|bucket| - 1]];
    } else {
      points := [bucket[low], bucket[high]] + if missing >= 0 then [bucket[missing]] else [];
    }
  }

  lemma ChosenAre(bucket: seq<Point>, low: int, high: int, missing: int)
    requires bucket != [] && Scanned(bucket, |bucket|, low, high, missing)
    requires -1 <= low < |bucket| && -1 <= high < |bucket| && -1 <= missing < |bucket|
    ensures low == -1 <==> high == -1
    ensures low == -1 ==> forall i :: Chosen(bucket, 0, |bucket|, i) <==> i == |bucket| - 1
    ensures low != -1 ==>
      forall i :: Chosen(bucket, 0, |bucket|, i) <==> i == low || i == high || (missing != -1 && i == missing)
  {
    if low != -1 { assert bucket[low].reading.Value?; }
  }

  /** So both extremes stay, and a gap if there is one. */
  lemma ChosenKeeps(bucket: seq<Point>, kept: set<Point>)
    requires bucket != [] && forall i :: Chosen(bucket, 0, |bucket|, i) ==> bucket[i] in kept
    ensures KeepsBucket(kept, bucket)
  {
    var low, high, missing := ScannedExists(bucket, |bucket|);
    ChosenAre(bucket, low, high, missing);
    hide Chosen;
    forall p | p in bucket && p.reading.Value?
      ensures low >= 0 && high >= 0 && bucket[low] in kept && bucket[high] in kept
      ensures Extremes(bucket, bucket[low], bucket[high])
    {
      var k :| 0 <= k < |bucket| && bucket[k] == p;
      assert HasReading(bucket, 0, |bucket|);
    }
    forall p | p in bucket && p.reading.Gap?
      ensures exists g :: g in kept && g in bucket && g.reading.Gap?
    {
      var at := if low == -1 then |bucket| - 1 else missing;
      assert low == -1 ==> !HasReading(bucket, 0, |bucket|);
      assert bucket[at] in kept && bucket[at] in bucket;
    }
  }

  lemma {:induction false} ScannedExists(t: seq<Point>, n: nat) returns (low: int, high: int, missing: int)
    requires n <= |t|
    ensures -1 <= low < n && -1 <= high < n && -1 <= missing < n && Scanned(t, n, low, high, missing)
  {
    low, high, missing := -1, -1, -1;
    if n > 0 {
      low, high, missing := ScannedExists(t, n - 1);
      ScannedNext(t, n - 1, low, high, missing);
      var p := t[n - 1];
      if p.reading.Gap? {
        missing := if missing == -1 then n - 1 else missing;
      } else {
        high := if high == -1 || p.reading.value > t[high].reading.value then n - 1 else high;
        low := if low == -1 || p.reading.value < t[low].reading.value then n - 1 else low;
      }
    }
  }

  lemma KeepsMore(kept: set<Point>, more: set<Point>, bucket: seq<Point>)
    requires KeepsBucket(kept, bucket) && kept <= more
    ensures KeepsBucket(more, bucket)
  {
    forall p | p in bucket && p.reading.Value?
      ensures exists low, high :: low in more && high in more && Extremes(bucket, low, high)
    {
      var low, high :| low in kept && high in kept && Extremes(bucket, low, high);
      assert low in more && high in more;
    }
  }

  lemma {:induction false} SetNoLarger(points: seq<Point>)
    ensures |ToSet(points)| <= |points|
  {
    if points == [] {
      assert ToSet(points) == {};
    } else {
      SetNoLarger(points[1..]);
      assert ToSet(points) == ToSet(points[1..]) + {points[0]};
    }
  }

  lemma CeilCovers(n: nat, d: int)
    requires d > 0
    ensures d * CeilDiv(n, d) >= n
  {
    assert d * ((n + d - 1) / d) + (n + d - 1) % d == n + d - 1;
  }

  /** The k-th bucket starts inside the timeline only while k is below the bucket count. */
  lemma BucketsFit(n: nat, maxPoints: int, k: nat)
    requires k * BucketSize(n, maxPoints) < n
    ensures k < BucketCount(maxPoints)
  {
    var count, size := BucketCount(maxPoints), BucketSize(n, maxPoints);
    CeilCovers(n, count);
    if k >= count {
      MulMonotone(count, k, size);
      MulMonotone(CeilDiv(n, count), size, count);
      assert false;
    }
  }

  lemma MulMonotone(a: int, b: int, c: int)
    requires a <= b && c >= 0
    ensures a * c <= b * c
  {
  }

  lemma CeilIs(n: nat, d: int, k: nat)
    requires d > 0 && k * d >= n && (k == 0 || (k - 1) * d < n)
    ensures k == CeilDiv(n, d)
  {
    var q := CeilDiv(n, d);
    CeilCovers(n, d);
    assert q * d < n + d;
    if q < k { MulMonotone(q, k - 1, d); }
    if q > k { MulMonotone(k + 1, q, d); }
  }

  lemma ChosenShift(t: seq<Point>, a: int, b: int, i: int)
    requires 0 <= a <= b <= |t|
    ensures Chosen(t, a, b, a + i) <==> Chosen(t[a..b], 0, b - a, i)
  {
    var bucket := t[a..b];
    assert HasReading(t, a, b) <==> HasReading(bucket, 0, b - a) by {
      if HasReading(t, a, b) {
        var k :| a <= k < b && t[k].reading.Value?;
        assert bucket[k - a] == t[k];
      }
      if HasReading(bucket, 0, b - a) {
        var k :| 0 <= k < b - a && bucket[k].reading.Value?;
        assert bucket[k] == t[a + k];
      }
    }
    hide HasReading;
    forall k | a <= k < b ensures t[k] == bucket[k - a] {
    }
    assert forall k :: 0 <= k < b - a ==> bucket[k] == t[a + k];
  }

  /** What the buckets up to k choose, and what the k-th one adds. */
  lemma ChosenNext(t: seq<Point>, size: nat, k: nat, bucket: seq<Point>, p: Point)
    requires k * size <= EndOf(k, size, |t|) && bucket == t[k * size..EndOf(k, size, |t|)]
    ensures ChosenUpTo(t, size, k + 1, p)
      <==> ChosenUpTo(t, size, k, p) || exists i :: Chosen(bucket, 0, |bucket|, i) && p == bucket[i]
  {
    BucketChooses(t, size, k, bucket, p);
    hide Chosen, ChosenIn;
    if ChosenUpTo(t, size, k + 1, p) && !ChosenUpTo(t, size, k, p) {
      var j :| 0 <= j < k + 1 && ChosenIn(t, size, j, p);
      assert j == k;
    }
  }

  lemma BucketChooses(t: seq<Point>, size: nat, k: nat, bucket: seq<Point>, p: Point)
    requires k * size <= EndOf(k, size, |t|) && bucket == t[k * size..EndOf(k, size, |t|)]
    ensures ChosenIn(t, size, k, p) <==> exists i :: Chosen(bucket, 0, |bucket|, i) && p == bucket[i]
  {
    SliceChooses(t, k * size, EndOf(k, size, |t|), p);
  }

  lemma SliceChooses(t: seq<Point>, a: int, b: int, p: Point)
    requires 0 <= a <= b <= |t|
    ensures (exists i :: Chosen(t, a, b, i) && p == t[i])
      <==> (exists i :: Chosen(t[a..b], 0, b - a, i) && p == t[a..b][i])
  {
    if i :| Chosen(t, a, b, i) && p == t[i] {
      IntoBucket(t, a, b, i);
    }
    if i :| Chosen(t[a..b], 0, b - a, i) && p == t[a..b][i] {
      FromBucket(t, a, b, i);
    }
  }

  lemma IntoBucket(t: seq<Point>, a: int, b: int, i: int)
    requires 0 <= a <= b <= |t| && Chosen(t, a, b, i)
    ensures a <= i < b && Chosen(t[a..b], 0, b - a, i - a) && t[a..b][i - a] == t[i]
  {
    ChosenInside(t, a, b, i);
    ChosenShift(t, a, b, i - a);
  }

  lemma FromBucket(t: seq<Point>, a: int, b: int, i: int)
    requires 0 <= a <= b <= |t| && Chosen(t[a..b], 0, b - a, i)
    ensures 0 <= i < b - a && Chosen(t, a, b, a + i) && t[a..b][i] == t[a + i]
  {
    ChosenInside(t[a..b], 0, b - a, i);
    ChosenShift(t, a, b, i);
  }

  lemma ChosenInside(t: seq<Point>, a: int, b: int, i: int)
    requires Chosen(t, a, b, i)
    ensures 0 <= a <= i < b && i < |t|
  {
  }

  /** Buckets beyond the end choose nothing. */
  lemma NoneBeyond(t: seq<Point>, size: nat, k: nat, p: Point)
    requires size > 0 && k * size >= |t| && k <= |t|
    ensures ChosenUpTo(t, size, |t|, p) <==> ChosenUpTo(t, size, k, p)
  {
    if j :| 0 <= j < |t| && ChosenIn(t, size, j, p) {
      var i :| Chosen(t, j * size, EndOf(j, size, |t|), i) && p == t[i];
      ChosenInside(t, j * size, EndOf(j, size, |t|), i);
      if j >= k { MulMonotone(k, j, size); assert false; }
    }
  }

  /** As many buckets as the budget allows, at least one, of the least size that covers the timeline. */
  lemma BucketSizeLeast(n: nat, maxPoints: int)
    ensures var count := BucketCount(maxPoints);
      count >= 1 && (count == 1 || 2 + 3 * count <= maxPoints) && maxPoints < 2 + 3 * (count + 1)
    ensures var count, size := BucketCount(maxPoints), BucketSize(n, maxPoints);
      size >= 1 && count * size >= n && (size == 1 || count * (size - 1) < n)
  {
    var count, size := BucketCount(maxPoints), BucketSize(n, maxPoints);
    CeilCovers(n, count);
    if size > 1 {
      assert count * CeilDiv(n, count) < n + count;
      assert count * (size - 1) == count * size - count;
    } else {
      MulMonotone(CeilDiv(n, count), size, count);
    }
  }

  method Collect(timeline: seq<Point>, maxPoints: int) returns (points: seq<Point>)
    requires timeline != []
    ensures |points| <= 2 + 3 * BucketCount(maxPoints)
    ensures forall p :: p in points <==> Remains(timeline, BucketSize(|timeline|, maxPoints), p)
  {
    hide Chosen, ChosenUpTo, Collected, CeilDiv;
    var n, size := |timeline|, BucketSize(|timeline|, maxPoints);
    points := [timeline[0], timeline[n - 1]];
    var start := 0;
    ghost var k: nat := 0;
    CollectedEnds(timeline, size);
    while start < n
      invariant start == k * size && k <= n
      invariant |points| <= 2 + 3 * k <= 2 + 3 * BucketCount(maxPoints)
      invariant Collected(points, timeline, size, k)
    {
      BucketsFit(n, maxPoints, k);
      var bucket := timeline[start..if start + size <= n then start + size else n];
      var more := BucketPoints(bucket);
      CollectedNext(points, more, timeline, size, k, bucket);
      CountsBuckets(n, size, k);
      NextStart(k, size);
      points := points + more;
      start, k := start + size, k + 1;
    }
    CollectedAll(points, timeline, size, k);
  }

  lemma NextStart(k: nat, size: nat)
    ensures (k + 1) * size == k * size + size
  {
  }

  /** The ends and what the first k buckets choose have been collected. */
  ghost predicate Collected(points: seq<Point>, t: seq<Point>, size: nat, k: nat) {
    t != [] && forall p :: p in points <==> p == t[0] || p == t[|t| - 1] || ChosenUpTo(t, size, k, p)
  }

  lemma CollectedEnds(t: seq<Point>, size: nat)
    requires t != []
    ensures Collected([t[0], t[|t| - 1]], t, size, 0)
  {
    NoneYet(t, size);
  }

  lemma CollectedNext(points: seq<Point>, more: seq<Point>, t: seq<Point>, size: nat, k: nat, bucket: seq<Point>)
    requires Collected(points, t, size, k)
    requires k * size <= EndOf(k, size, |t|) && bucket == t[k * size..EndOf(k, size, |t|)]
    requires forall p :: p in more <==> exists i :: Chosen(bucket, 0, |bucket|, i) && p == bucket[i]
    ensures Collected(points + more, t, size, k + 1)
  {
    hide Chosen, ChosenUpTo, EndOf;
    forall p ensures ChosenUpTo(t, size, k + 1, p) <==> ChosenUpTo(t, size, k, p) || p in more {
      ChosenNext(t, size, k, bucket, p);
    }
  }

  lemma CollectedAll(points: seq<Point>, t: seq<Point>, size: nat, k: nat)
    requires Collected(points, t, size, k) && k <= |t| && |t| <= k * size
    ensures forall p :: p in points <==> Remains(t, size, p)
  {
    forall p ensures ChosenUpTo(t, size, |t|, p) <==> ChosenUpTo(t, size, k, p) {
      NoneBeyond(t, size, k, p);
    }
  }

  lemma NoneYet(t: seq<Point>, size: nat)
    ensures forall p :: !ChosenUpTo(t, size, 0, p)
  {
  }

  lemma CountsBuckets(n: nat, size: nat, k: nat)
    requires size > 0 && k * size < n
    ensures k < n
  {
    if k >= n { MulMonotone(n, k, size); MulMonotone(1, size, n); assert false; }
  }

  /** What remains keeps every bucket's extremes, and a gap of every bucket that has one. */
  lemma RemainsKept(kept: set<Point>, timeline: seq<Point>, size: nat)
    requires timeline != [] && size > 0 && forall p :: p in kept <==> Remains(timeline, size, p)
    ensures Kept(kept, timeline, size, CeilDiv(|timeline|, size))
  {
    hide Chosen;
    forall j | 0 <= j < CeilDiv(|timeline|, size) ensures KeepsBucket(kept, Bucket(timeline, j, size)) {
      InsideBuckets(|timeline|, size, j);
      BucketKept(kept, timeline, size, j);
    }
    forall p | p in kept ensures p in timeline {
      if ChosenUpTo(timeline, size, |timeline|, p) { ChosenIsMember(timeline, size, |timeline|, p); }
    }
  }

  lemma ChosenIsMember(t: seq<Point>, size: nat, k: nat, p: Point)
    requires ChosenUpTo(t, size, k, p)
    ensures p in t
  {
    hide HasReading;
  }

  lemma InsideBuckets(n: nat, size: nat, j: nat)
    requires size > 0 && j < CeilDiv(n, size)
    ensures j * size < n
  {
    assert CeilDiv(n, size) * size < n + size;
    if j * size >= n { MulMonotone(j + 1, CeilDiv(n, size), size); assert false; }
  }

  lemma BucketKept(kept: set<Point>, timeline: seq<Point>, size: nat, j: nat)
    requires size > 0 && j * size < |timeline| && forall p :: p in kept <==> Remains(timeline, size, p)
    ensures KeepsBucket(kept, Bucket(timeline, j, size))
  {
    var a, b := j * size, EndOf(j, size, |timeline|);
    var bucket := Bucket(timeline, j, size);
    assert bucket == timeline[a..b];
    CountsBuckets(|timeline|, size, j);
    forall i | Chosen(bucket, 0, |bucket|, i) ensures bucket[i] in kept {
      ChosenInside(bucket, 0, |bucket|, i);
      hide Chosen;
      ChosenShift(timeline, a, b, i);
      assert bucket[i] == timeline[a + i];
      assert ChosenIn(timeline, size, j, timeline[a + i]);
    }
    ChosenKeeps(bucket, kept);
  }

  /** sorted(set(points), key=time): no duplicates, by time, ties in any order. */
  method SortUnique(points: seq<Point>) returns (unique: seq<Point>)
    ensures Sorted(unique, Earlier)
    ensures ToSet(unique) == ToSet(points)
    ensures |unique| == |ToSet(points)|
  {
    var todo := ToSet(points);
    unique := [];
    while todo != {}
      invariant todo <= ToSet(points) && ToSet(unique) == ToSet(points) - todo
      invariant |unique| == |ToSet(points)| - |todo|
      decreases |todo|
    {
      var p :| p in todo;
      assert ToSet(unique + [p]) == ToSet(unique) + {p};
      unique := unique + [p];
      todo := todo - {p};
    }
    SortSorted(unique, Earlier);
    SortMembers(unique, Earlier);
    assert ToSet(Sort(unique, Earlier)) == ToSet(unique);
    unique := Sort(unique, Earlier);
  }

  method DownsampleMinMax(timeline: seq<Point>, maxPoints: nat) returns (points: seq<Point>)
    ensures |timeline| <= maxPoints ==> points == timeline
    ensures |timeline| > maxPoints ==>
      && (var size := BucketSize(|timeline|, maxPoints);
          && (forall p :: p in points <==> Remains(timeline, size, p))
          && Kept(ToSet(points), timeline, size, CeilDiv(|timeline|, size)))
      && (forall i, j :: 0 <= i < j < |points| ==> points[i].at <= points[j].at)
      && |points| == |ToSet(points)| <= 2 + 3 * BucketCount(maxPoints)
    ensures maxPoints >= 5 ==> |points| <= maxPoints
    ensures Sorted(points, Earlier) <==> |timeline| > maxPoints || Sorted(timeline, Earlier)
  {
    if |timeline| <= maxPoints {
      return timeline;
    }
    var collected := Collect(timeline, maxPoints);
    points := SortUnique(collected);
    SetNoLarger(collected);
    hide Remains, Kept;
    assert forall p :: p in points <==> p in ToSet(points);
    assert forall p :: p in collected <==> p in ToSet(collected);
    RemainsKept(ToSet(points), timeline, BucketSize(|timeline|, maxPoints));
  }

  /** Keeping every bucket's extremes keeps the global ones, and a gap survives if there is one. */
  lemma GlobalExtremes(kept: set<Point>, timeline: seq<Point>, size: nat, p: Point)
    requires size > 0 && Kept(kept, timeline, size, CeilDiv(|timeline|, size))
    requires p in timeline
    ensures p.reading.Value? ==>
      exists low, high :: low in kept && high in kept && low.reading.Value? && high.reading.Value?
        && low.reading.value <= p.reading.value <= high.reading.value
    ensures p.reading.Gap? ==> exists g :: g in kept && g.reading.Gap?
  {
    var j := BucketOf(timeline, size, p);
    var bucket := Bucket(timeline, j, size);
    assert KeepsBucket(kept, bucket);
    if p.reading.Value? {
      var low, high :| low in kept && high in kept && Extremes(bucket, low, high);
    }
  }

  lemma BucketOf(timeline: seq<Point>, size: nat, p: Point) returns (j: nat)
    requires size > 0 && p in timeline
    ensures j < CeilDiv(|timeline|, size) && p in Bucket(timeline, j, size)
  {
    var i :| 0 <= i < |timeline| && timeline[i] == p;
    j := i / size;
    assert i == j * size + i % size;
    CeilCovers(|timeline|, size);
    if j >= CeilDiv(|timeline|, size) { MulMonotone(CeilDiv(|timeline|, size), j, size); assert false; }
    assert Bucket(timeline, j, size)[i - j * size] == p;
  }

  /** Five points whose ends, dip, peak and gap are five different points. */
  predicate Spread(t: seq<Point>) {
    && |t| == 5 && t[0].at < t[1].at < t[2].at < t[3].at < t[4].at
    && t[0].reading.Value? && t[1].reading.Value? && t[2].reading.Value? && t[3].reading.Gap?
    && t[4].reading == t[0].reading
    && t[1].reading.value < t[0].reading.value < t[2].reading.value
  }

  lemma SpreadExample()
    ensures Spread([Point(0, Value(5.0)), Point(1, Value(1.0)), Point(2, Value(9.0)), Point(3, Gap),
                    Point(4, Value(5.0))])
  {
  }

  /** The bound needs maxPoints >= 5: for every smaller value all five points of a spread stay. */
  lemma FiveIsNeeded(t: seq<Point>, kept: set<Point>, maxPoints: nat)
    requires maxPoints < 5 && Spread(t)
    requires Kept(kept, t, BucketSize(5, maxPoints), CeilDiv(5, BucketSize(5, maxPoints)))
    ensures |t| > maxPoints && |kept| > maxPoints
  {
    OneBucketOfFive(maxPoints);
    WholeBucket(t);
    assert KeepsBucket(kept, Bucket(t, 0, 5));
    FiveStay(kept, t);
  }

  lemma OneBucketOfFive(maxPoints: nat)
    requires maxPoints < 5
    ensures BucketSize(5, maxPoints) == 5 && CeilDiv(5, 5) == 1
  {
  }

  lemma WholeBucket(t: seq<Point>)
    requires |t| == 5
    ensures Bucket(t, 0, 5) == t
  {
    assert t[0..5] == t;
  }

  lemma FiveStay(kept: set<Point>, t: seq<Point>)
    requires Spread(t) && t[0] in kept && t[4] in kept && KeepsBucket(kept, t)
    ensures |kept| >= 5
  {
    assert t[1] in t && t[2] in t && t[3] in t;
    var low, high :| low in kept && high in kept && Extremes(t, low, high);
    var gap :| gap in kept && gap in t && gap.reading.Gap?;
    assert low == t[1] && high == t[2] && gap == t[3];
    Fits({t[0], low, high, gap, t[4]}, kept);
  }

  lemma Fits(a: set<Point>, b: set<Point>)
    requires a <= b
    ensures |a| <= |b|
  {
    assert b == a + (b - a);
  }
}
