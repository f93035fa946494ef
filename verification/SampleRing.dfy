/** The circular store of high-resolution performance samples (performance_highres.py). */
module SampleRing {
  import opened Downsample
  import opened Sorting
  import opened Telemetry

  const METRICS: nat := 11

  /** One number per metric. */
  type Row = r: seq<real> | |r| == METRICS witness seq(METRICS, _ => 0.0)

  /** A stored sample: a metric's number counts only if the mask marks it. */
  datatype Raw = Raw(at: int, mask: bv16, row: Row)

  // ----- validity masks: bit m of a 16-bit mask says slot m holds a reading

  function Bit(m: nat): bv16
    requires m < METRICS
  {
    match m
    case 0 => 1 case 1 => 2 case 2 => 4 case 3 => 8 case 4 => 16 case 5 => 32
    case 6 => 64 case 7 => 128 case 8 => 256 case 9 => 512 case _ => 1024
  }

  predicate Marked(mask: bv16, m: nat)
    requires m < METRICS
  {
    mask & Bit(m) != 0
  }

  lemma MarkOne(mask: bv16, m: nat, k: nat)
    requires m < METRICS && k < METRICS
    ensures Marked(mask | Bit(m), k) <==> k == m || Marked(mask, k)
  {
  }

  lemma MarkAll(mask: bv16, m: nat)
    requires m < METRICS
    ensures forall k :: 0 <= k < METRICS ==> (Marked(mask | Bit(m), k) <==> k == m || Marked(mask, k))
  {
    forall k | 0 <= k < METRICS ensures Marked(mask | Bit(m), k) <==> k == m || Marked(mask, k) {
      MarkOne(mask, m, k);
    }
  }

  /** The metrics from the eighth on are rates. */
  predicate Accepts(m: nat, value: real) { InRange(value, m >= 7) }

  /** What a payload says about a metric: a reading only if the sample is available and the value acceptable. */
  function Offered(available: bool, metrics: seq<Reading>, m: nat): Reading
    requires |metrics| == METRICS && m < METRICS
  {
    if available && metrics[m].Value? && Accepts(m, metrics[m].value) then metrics[m] else Gap
  }

  /** What a stored sample says about a metric. */
  function Reads(raw: Raw, m: nat): Reading
    requires m < METRICS
  {
    if Marked(raw.mask, m) then Value(raw.row[m]) else Gap
  }

  ghost predicate Says(raw: Raw, available: bool, metrics: seq<Reading>)
    requires |metrics| == METRICS
  {
    forall m :: 0 <= m < METRICS ==> Reads(raw, m) == Offered(available, metrics, m)
  }

  // ----- the reference: a plain log

  ghost function Last<T>(s: seq<T>, n: nat): seq<T> {
    if |s| <= n then s else s[|s| - n..]
  }

  ghost predicate Nondecreasing(s: seq<Raw>) {
    forall i, j :: 0 <= i < j < |s| ==> s[i].at <= s[j].at
  }

  /** The linear scan: skip samples before since, stop at the first one after until (lines 100-108). */
  function Scan(s: seq<Raw>, since: int, until: int): seq<Raw> {
    if s == [] || s[0].at > until then []
    else (if s[0].at >= since then [s[0]] else []) + Scan(s[1..], since, until)
  }

  lemma {:induction false} ScanSkips(s: seq<Raw>, since: int, until: int, first: nat)
    requires first <= |s|
    requires forall i :: 0 <= i < first ==> s[i].at < since && s[i].at <= until
    ensures Scan(s, since, until) == Scan(s[first..], since, until)
  {
    if first > 0 {
      ScanSkips(s[1..], since, until, first - 1);
      assert s[1..][first - 1..] == s[first..];
    }
  }

  lemma {:induction false} ScanTakes(s: seq<Raw>, since: int, until: int, n: nat)
    requires n <= |s| && (n < |s| ==> until < s[n].at)
    requires forall i :: 0 <= i < n ==> since <= s[i].at <= until
    ensures Scan(s, since, until) == s[..n]
  {
    if n > 0 {
      ScanTakes(s[1..], since, until, n - 1);
      assert s[..n] == [s[0]] + s[1..][..n - 1];
    }
  }

  /** On ordered samples the scan is the stretch the two bisections find. */
  lemma ScanIsSlice(s: seq<Raw>, since: int, until: int, first: nat, last: nat)
    requires Nondecreasing(s) && first <= last <= |s|
    requires forall i :: 0 <= i < first ==> s[i].at < since
    requires forall i :: first <= i < |s| ==> since <= s[i].at
    requires forall i :: first <= i < last ==> s[i].at <= until
    requires forall i :: last <= i < |s| ==> until < s[i].at
    ensures Scan(s, since, until) == s[first..last]
  {
    if until < since {
      var t := if first < |s| then s[first].at else since;
      assert since <= t && first == last;
      ScanEmpty(s, since, until);
    } else {
      ScanSkips(s, since, until, first);
      ScanTakes(s[first..], since, until, last - first);
      assert s[first..][..last - first] == s[first..last];
    }
  }

  /** A window that ends before it starts is empty. */
  lemma {:induction false} ScanEmpty(s: seq<Raw>, since: int, until: int)
    requires until < since
    ensures Scan(s, since, until) == []
  {
    if s != [] { ScanEmpty(s[1..], since, until); }
  }

  // ----- the circular layout

  /** Slots in time order: unwrapped at the write position once the ring is full (lines 122-125). */
  function Unroll<T>(slots: seq<T>, count: nat, write: nat): (r: seq<T>)
    requires count <= |slots| && write <= |slots|
    ensures |r| == count
  {
    if count < |slots| then slots[..count] else slots[write..] + slots[..write]
  }

  /** Positions first..last, continuing at the front past the end. */
  ghost function Wrapped<T>(slots: seq<T>, first: nat, last: nat): (r: seq<T>)
    requires first <= |slots| && first <= last && last - |slots| <= first
    ensures |r| == last - first
  {
    if last <= |slots| then slots[first..last] else slots[first..] + slots[..last - |slots|]
  }

  lemma WrapMod(x: nat, n: nat)
    requires 0 < n && x < 2 * n
    ensures x % n == if x < n then x else x - n
  {
    if x >= n {
      assert x == 1 * n + (x - n);
    }
  }

  lemma UnrollAt<T>(slots: seq<T>, count: nat, write: nat, k: nat)
    requires k < count <= |slots| && write < |slots|
    ensures Unroll(slots, count, write)[k]
         == if count < |slots| then slots[k]
            else if write + k < |slots| then slots[write + k] else slots[write + k - |slots|]
  {
  }

  lemma UnrollStore<T>(slots: seq<T>, count: nat, write: nat, next: nat, x: T)
    requires 0 < |slots| && count <= |slots| && write < |slots| && (count < |slots| ==> write == count)
    requires next == if write + 1 < |slots| then write + 1 else 0
    ensures Unroll(slots[write := x], if count < |slots| then count + 1 else |slots|, next)
         == Last(Unroll(slots, count, write) + [x], |slots|)
  {
    var after := slots[write := x];
    assert after[..write + 1] == slots[..write] + [x];
    if count < |slots| {
      if next == 0 {
        assert Unroll(after, |slots|, 0) == after[..write + 1];
      }
    } else {
      var oldOrder := slots[write..] + slots[..write];
      assert oldOrder + [x] == [slots[write]] + (slots[write + 1..] + slots[..write] + [x]);
      if next == 0 {
        assert Unroll(after, |slots|, 0) == after[..write + 1];
      } else {
        assert Unroll(after, |slots|, next) == slots[write + 1..] + (slots[..write] + [x]);
      }
    }
  }

  /** The wrapped slice of an array is the matching stretch of the unrolled one (lines 114-117). */
  lemma UnrollSlice<T>(slots: seq<T>, count: nat, write: nat, start: nat, end: nat, first: nat)
    requires 0 < |slots| && count <= |slots| && write < |slots| && start < end <= count
    requires first == if count < |slots| then start
      else if write + start < |slots| then write + start else write + start - |slots|
    ensures first + end - start - |slots| <= first < |slots|
    ensures Unroll(slots, count, write)[start..end] == Wrapped(slots, first, first + end - start)
  {
    var u, w := Unroll(slots, count, write)[start..end], Wrapped(slots, first, first + end - start);
    forall i | 0 <= i < end - start ensures u[i] == w[i] {
      UnrollAt(slots, count, write, start + i);
      assert u[i] == Unroll(slots, count, write)[start + i];
    }
  }

  lemma ScanStep(s: seq<Raw>, found: seq<Raw>, since: int, until: int, k: nat)
    requires k < |s|
    ensures s[k].at > until ==> found + Scan(s[k..], since, until) == found
    ensures since <= s[k].at <= until ==>
      found + Scan(s[k..], since, until) == found + [s[k]] + Scan(s[k + 1..], since, until)
    ensures s[k].at <= until && s[k].at < since ==> Scan(s[k..], since, until) == Scan(s[k + 1..], since, until)
  {
    assert s[k..][1..] == s[k + 1..];
    if since <= s[k].at <= until {
      assert Scan(s[k..], since, until) == [s[k]] + Scan(s[k + 1..], since, until);
    }
  }

  lemma PickAppend(s: seq<Raw>, indices: seq<nat>, i: nat)
    requires i < |s| && forall k :: 0 <= k < |indices| ==> indices[k] < |s|
    ensures Pick(s, indices + [i]) == Pick(s, indices) + [s[i]]
  {
  }

  function Index(capacity: nat, count: nat, write: nat, offset: nat): (i: nat)
    requires offset < count <= capacity && write < capacity
    ensures i == if count < capacity then offset
      else if write + offset < capacity then write + offset else write + offset - capacity
  {
    WrapMod(write + offset, capacity);
    if count < capacity then offset else (write + offset) % capacity
  }

  /** bisect_left and bisect_right over the times in unrolled order. */
  method Bisect(times: array<int>, ghost slots: seq<Raw>, count: nat, write: nat, x: int, from: nat, right: bool)
    returns (k: nat)
    requires times.Length == |slots| && forall i :: 0 <= i < |slots| ==> slots[i].at == times[i]
    requires from <= count <= |slots| && write < |slots| && Nondecreasing(Unroll(slots, count, write))
    ensures from <= k <= count
    ensures var u := Unroll(slots, count, write);
            (forall i :: from <= i < k ==> u[i].at < x || (right && u[i].at == x))
            && (forall i :: k <= i < count ==> u[i].at > x || (!right && u[i].at == x))
  {
    ghost var u := Unroll(slots, count, write);
    var hi := count;
    k := from;
    while k < hi
      invariant from <= k <= hi <= count
      invariant forall i :: from <= i < k ==> u[i].at < x || (right && u[i].at == x)
      invariant forall i :: hi <= i < count ==> u[i].at > x || (!right && u[i].at == x)
    {
      var mid := (k + hi) / 2;
      UnrollAt(slots, count, write, mid);
      var t := times[Index(times.Length, count, write, mid)];
      if t < x || (right && t == x) {
        k := mid + 1;
      } else {
        hi := mid;
      }
    }
  }

  /** The stretch of a window, by two bisections (lines 109-111). */
  method Locate(times: array<int>, ghost slots: seq<Raw>, count: nat, write: nat, since: int, until: int)
    returns (start: nat, end: nat)
    requires times.Length == |slots| && forall i :: 0 <= i < |slots| ==> slots[i].at == times[i]
    requires count <= |slots| && write < |slots| && Nondecreasing(Unroll(slots, count, write))
    ensures start <= end <= count
    ensures var u := Unroll(slots, count, write);
            u[start..end] == Scan(u, since, until)
  {
    start := Bisect(times, slots, count, write, since, 0, false);
    end := Bisect(times, slots, count, write, until, start, true);
    ScanIsSlice(Unroll(slots, count, write), since, until, start, end);
  }

  /** The slots a scan selects (lines 101-107). */
  method ScanIndices(times: array<int>, ghost slots: seq<Raw>, count: nat, write: nat, since: int, until: int)
    returns (indices: seq<nat>)
    requires times.Length == |slots| && forall i :: 0 <= i < |slots| ==> slots[i].at == times[i]
    requires count <= |slots| && write < |slots|
    ensures forall k :: 0 <= k < |indices| ==> indices[k] < |slots|
    ensures Pick(slots, indices) == Scan(Unroll(slots, count, write), since, until)
  {
    indices := [];
    ghost var u := Unroll(slots, count, write);
    ghost var found: seq<Raw> := [];
    for offset := 0 to count
      invariant forall k :: 0 <= k < |indices| ==> indices[k] < |slots|
      invariant Pick(slots, indices) == found
      invariant found + Scan(u[offset..], since, until) == Scan(u, since, until)
    {
      var index := Index(times.Length, count, write, offset);
      UnrollAt(slots, count, write, offset);
      ScanStep(u, found, since, until, offset);
      if times[index] > until {
        return;
      }
      if times[index] >= since {
        PickAppend(slots, indices, index);
        indices := indices + [index];
        found := found + [u[offset]];
      }
    }
  }

  method ScannedWindow(times: array<int>, masks: array<bv16>, values: array<Row>, count: nat, write: nat,
      since: int, until: int)
    returns (stamps: seq<int>, marks: seq<bv16>, rows: seq<Row>)
    requires times.Length == masks.Length == values.Length && count <= times.Length && write < times.Length
    ensures |stamps| == |marks| == |rows|
    ensures Zip(stamps, marks, rows) == Scan(Unroll(Zip(times[..], masks[..], values[..]), count, write), since, until)
  {
    var indices := ScanIndices(times, Zip(times[..], masks[..], values[..]), count, write, since, until);
    stamps, marks, rows := Pick(times[..], indices), Pick(masks[..], indices), Pick(values[..], indices);
    ZipPick(times[..], masks[..], values[..], indices);
  }

  method OrderedWindow(times: array<int>, masks: array<bv16>, values: array<Row>, count: nat, write: nat,
      since: int, until: int)
    returns (stamps: seq<int>, marks: seq<bv16>, rows: seq<Row>)
    requires times.Length == masks.Length == values.Length && count <= times.Length && write < times.Length
    requires Nondecreasing(Unroll(Zip(times[..], masks[..], values[..]), count, write))
    ensures |stamps| == |marks| == |rows|
    ensures Zip(stamps, marks, rows) == Scan(Unroll(Zip(times[..], masks[..], values[..]), count, write), since, until)
  {
    hide Scan, Wrapped, Nondecreasing, Unroll;
    ghost var slots := Zip(times[..], masks[..], values[..]);
    var start, end := Locate(times, slots, count, write, since, until);
    if start == end {
      stamps, marks, rows := [], [], [];
      assert Zip(stamps, marks, rows) == [] == Unroll(slots, count, write)[start..end];
      return;
    }
    var first := Index(times.Length, count, write, start);
    UnrollSlice(slots, count, write, start, end, first);
    ZipWrapped(times[..], masks[..], values[..], first, first + end - start);
    stamps := Slice(times, first, first + end - start);
    marks := Slice(masks, first, first + end - start);
    rows := Slice(values, first, first + end - start);
  }

  class Ring {
    const capacity: nat
    const timestamps: array<int>
    const masks: array<bv16>
    const values: array<Row>
    var writeIndex: nat
    var count: nat
    var timeOrdered: bool
    /** Every sample ever stored. */
    ghost var log: seq<Raw>

    ghost predicate Shape()
      reads this
    {
      && timestamps as object != values as object && timestamps as object != masks as object
      && values as object != masks as object
      && capacity > 0 && timestamps.Length == masks.Length == values.Length == capacity
      && writeIndex < capacity && count <= capacity
      && (count < capacity ==> writeIndex == count)
    }

    ghost function Slots(): (s: seq<Raw>)
      requires Shape()
      reads this, timestamps, values, masks
      ensures |s| == capacity
    {
      Zip(timestamps[..], masks[..], values[..])
    }

    /** Everything retained, oldest first. */
    ghost function Contents(): (s: seq<Raw>)
      requires Shape()
      reads this, timestamps, values, masks
      ensures |s| == count
    {
      Unroll(Slots(), count, writeIndex)
    }

    /** The ring holds the tail of the log, and its order flag tells whether the whole log was in order. */
    ghost predicate Valid()
      reads this, timestamps, values, masks
    {
      && Shape()
      && Contents() == Last(log, capacity)
      && (timeOrdered <==> Nondecreasing(log))
    }

    constructor (capacity: nat)
      requires capacity > 0
      ensures Valid() && this.capacity == capacity && log == []
      ensures fresh(timestamps) && fresh(values) && fresh(masks)
    {
      this.capacity := capacity;
      timestamps := new int[capacity](_ => 0);
      masks := new bv16[capacity](_ => 0);
      values := new Row[capacity](_ => seq(METRICS, _ => 0.0));
      writeIndex, count, timeOrdered, log := 0, 0, true, [];
    }

    function Newest(): (t: int)
      requires Shape() && count > 0
      reads this, values, timestamps, masks
      ensures t == Contents()[count - 1].at
    {
      timestamps[Index(capacity, count, writeIndex, count - 1)]
    }

    /** Overwrites the oldest slot once the ring is full. */
    method Store(raw: Raw)
      requires Shape()
      modifies this`writeIndex, this`count, timestamps, values, masks
      ensures Shape() && Contents() == Last(old(Contents()) + [raw], capacity)
    {
      var index := writeIndex;
      WrapMod(index + 1, capacity);
      UnrollStore(Slots(), count, index, (index + 1) % capacity, raw);
      timestamps[index] := raw.at;
      values[index] := raw.row;
      masks[index] := raw.mask;
      assert Slots() == old(Slots())[index := raw];
      writeIndex := (index + 1) % capacity;
      count := if count + 1 <= capacity then count + 1 else capacity;
    }

    method Place(raw: Raw)
      requires Valid()
      modifies this, timestamps, values, masks
      ensures Valid() && log == old(log) + [raw]
    {
      LogAppend(log, capacity, raw);
      var ordered := timeOrdered && !(count > 0 && raw.at < Newest());
      assert ordered <==> Nondecreasing(log + [raw]);
      Store(raw);
      timeOrdered, log := ordered, log + [raw];
    }

    /** Appends one sample to the log; slots keep old numbers where the sample has none, but unmarked. */
    method Append(at: int, available: bool, metrics: seq<Reading>) returns (ghost raw: Raw)
      requires Valid() && |metrics| == METRICS
      modifies this, timestamps, values, masks
      ensures Valid()
      ensures log == old(log) + [raw] && raw.at == at && Says(raw, available, metrics)
      ensures forall m, v :: 0 <= m < METRICS ==> (Reads(raw, m) == Value(v)
        <==> available && metrics[m] == Value(v) && 0.0 <= v && (if m < 7 then v <= 100.0 else v <= FLOAT32_MAX))
    {
      var mask, row := Mark(values[writeIndex], available, metrics);
      raw := Raw(at, mask, row);
      Place(Raw(at, mask, row));
    }

    /** The parallel arrays cut to a time window: together, exactly what the linear scan selects. */
    method Window(since: int, until: int) returns (stamps: seq<int>, marks: seq<bv16>, rows: seq<Row>)
      requires Valid()
      ensures |stamps| == |marks| == |rows|
      ensures Zip(stamps, marks, rows) == Scan(Last(log, capacity), since, until)
    {
      if timeOrdered {
        stamps, marks, rows := OrderedWindow(timestamps, masks, values, count, writeIndex, since, until);
      } else {
        stamps, marks, rows := ScannedWindow(timestamps, masks, values, count, writeIndex, since, until);
      }
    }

    /** One metric's readings in a window, downsampled (lines 84-91). */
    method MetricPoints(metric: nat, since: int, until: int, maxPoints: nat)
      returns (valid: seq<real>, points: seq<Point>)
      requires Valid() && metric < METRICS
      ensures var timeline := Timeline(Scan(Last(log, capacity), since, until), metric);
              valid == ValidValues(timeline)
              && (|timeline| <= maxPoints ==> points == timeline)
              && (|timeline| > maxPoints ==>
                   && (forall p :: p in points <==> Remains(timeline, BucketSize(|timeline|, maxPoints), p))
                   && (forall i, j :: 0 <= i < j < |points| ==> points[i].at <= points[j].at)
                   && |points| == |ToSet(points)|)
              && (maxPoints >= 5 ==> |points| <= maxPoints)
    {
      var stamps, marks, rows := Window(since, until);
      var timeline;
      timeline, valid := BuildTimeline(stamps, marks, rows, metric);
      points := DownsampleMinMax(timeline, maxPoints);
    }
  }

  method Mark(stored: Row, available: bool, metrics: seq<Reading>) returns (mask: bv16, row: Row)
    requires |metrics| == METRICS
    ensures forall at :: Says(Raw(at, mask, row), available, metrics)
  {
    mask, row := 0, stored;
    if available {
      for m := 0 to METRICS
        invariant MarkedUpTo(mask, row, metrics, m)
      {
        if metrics[m].Value? && Accepts(m, metrics[m].value) {
          MarkStep(mask, row, metrics, m);
          row := row[m := metrics[m].value];
          mask := mask | Bit(m);
        }
      }
    }
  }

  /** The first m metrics have been dealt with. */
  ghost predicate MarkedUpTo(mask: bv16, row: Row, metrics: seq<Reading>, m: nat)
    requires |metrics| == METRICS && m <= METRICS
  {
    forall k :: 0 <= k < METRICS ==>
      (Marked(mask, k) <==> k < m && metrics[k].Value? && Accepts(k, metrics[k].value))
      && (Marked(mask, k) ==> row[k] == metrics[k].value)
  }

  lemma MarkStep(mask: bv16, row: Row, metrics: seq<Reading>, m: nat)
    requires |metrics| == METRICS && m < METRICS && MarkedUpTo(mask, row, metrics, m)
    requires metrics[m].Value? && Accepts(m, metrics[m].value)
    ensures MarkedUpTo(mask | Bit(m), row[m := metrics[m].value], metrics, m + 1)
  {
    hide Marked;
    MarkAll(mask, m);
  }

  ghost function Timeline(samples: seq<Raw>, metric: nat): seq<Point>
    requires metric < METRICS
  {
    seq(|samples|, i requires 0 <= i < |samples| => Point(samples[i].at, Reads(samples[i], metric)))
  }

  ghost function ValidValues(timeline: seq<Point>): seq<real> {
    if timeline == [] then []
    else
      var p := timeline[|timeline| - 1];
      ValidValues(timeline[..|timeline| - 1]) + if p.reading.Value? then [p.reading.value] else []
  }

  method BuildTimeline(stamps: seq<int>, marks: seq<bv16>, rows: seq<Row>, metric: nat)
    returns (timeline: seq<Point>, valid: seq<real>)
    requires |stamps| == |marks| == |rows| && metric < METRICS
    ensures timeline == Timeline(Zip(stamps, marks, rows), metric)
    ensures valid == ValidValues(timeline)
  {
    timeline, valid := [], [];
    for i := 0 to |stamps|
      invariant |timeline| == i
      invariant forall j :: 0 <= j < i ==>
        timeline[j] == Point(stamps[j], Reads(Raw(stamps[j], marks[j], rows[j]), metric))
      invariant valid == ValidValues(timeline)
    {
      var p := Point(stamps[i], if Marked(marks[i], metric) then Value(rows[i][metric]) else Gap);
      assert (timeline + [p])[..|timeline|] == timeline;
      timeline := timeline + [p];
      if p.reading.Value? {
        valid := valid + [p.reading.value];
      }
    }
  }

  function Zip(stamps: seq<int>, masks: seq<bv16>, rows: seq<Row>): (s: seq<Raw>)
    requires |stamps| == |masks| == |rows|
    ensures |s| == |stamps|
  {
    seq(|stamps|, i requires 0 <= i < |stamps| => Raw(stamps[i], masks[i], rows[i]))
  }

  lemma WrappedAt<T>(s: seq<T>, first: nat, last: nat, i: nat)
    requires last - |s| <= first < |s| && first <= last && i < last - first
    ensures Wrapped(s, first, last)[i] == s[if first + i < |s| then first + i else first + i - |s|]
  {
  }

  lemma ZipWrapped(stamps: seq<int>, masks: seq<bv16>, rows: seq<Row>, first: nat, last: nat)
    requires |stamps| == |masks| == |rows| && last - |stamps| <= first < |stamps| && first <= last
    ensures Zip(Wrapped(stamps, first, last), Wrapped(masks, first, last), Wrapped(rows, first, last))
         == Wrapped(Zip(stamps, masks, rows), first, last)
  {
    hide Wrapped;
    var zipped := Zip(stamps, masks, rows);
    var a, b, c := Wrapped(stamps, first, last), Wrapped(masks, first, last), Wrapped(rows, first, last);
    forall i | 0 <= i < last - first ensures Raw(a[i], b[i], c[i]) == Wrapped(zipped, first, last)[i] {
      WrappedAt(stamps, first, last, i);
      WrappedAt(masks, first, last, i);
      WrappedAt(rows, first, last, i);
      WrappedAt(zipped, first, last, i);
    }
  }

  function Pick<T>(s: seq<T>, indices: seq<nat>): seq<T>
    requires forall k :: 0 <= k < |indices| ==> indices[k] < |s|
  {
    seq(|indices|, k requires 0 <= k < |indices| => s[indices[k]])
  }

  lemma ZipPick(stamps: seq<int>, masks: seq<bv16>, rows: seq<Row>, indices: seq<nat>)
    requires |stamps| == |masks| == |rows| && forall k :: 0 <= k < |indices| ==> indices[k] < |stamps|
    ensures Zip(Pick(stamps, indices), Pick(masks, indices), Pick(rows, indices))
      == Pick(Zip(stamps, masks, rows), indices)
  {
  }

  method Slice<T>(a: array<T>, first: nat, last: nat) returns (s: seq<T>)
    requires last - a.Length <= first < a.Length && first <= last
    ensures s == Wrapped(a[..], first, last)
  {
    s := if last <= a.Length then a[first..last] else a[first..] + a[..last - a.Length];
  }

  lemma LastAppend(log: seq<Raw>, n: nat, x: Raw)
    requires n > 0
    ensures Last(Last(log, n) + [x], n) == Last(log + [x], n)
  {
  }

  lemma PrefixOrdered(log: seq<Raw>, x: Raw)
    requires Nondecreasing(log + [x])
    ensures Nondecreasing(log) && (log != [] ==> log[|log| - 1].at <= x.at)
  {
    var all := log + [x];
    forall i, j | 0 <= i < j < |log| ensures log[i].at <= log[j].at {
      assert all[i].at <= all[j].at;
    }
    if log != [] { assert all[|log| - 1].at <= all[|log|].at; }
  }

  /** One comparison with the newest sample keeps track of the order of the whole log. */
  lemma LogAppend(log: seq<Raw>, n: nat, x: Raw)
    requires n > 0
    ensures Last(Last(log, n) + [x], n) == Last(log + [x], n)
    ensures var tail := Last(log, n);
            Nondecreasing(log + [x]) <==> Nondecreasing(log) && !(tail != [] && x.at < tail[|tail| - 1].at)
  {
    LastAppend(log, n, x);
    if Nondecreasing(log + [x]) {
      PrefixOrdered(log, x);
    }
  }
}
