/** The two-buffer GPM sampler over a driver that may fail at any call (nvml_gpm.py).
    Times are microseconds. */
module GpmSampler {
  import opened Sorting
  import opened Wrappers

  const MIN_INTERVAL: int := 100_000

  /** The driver's answer about one metric. */
  datatype Answer = Success(value: real) | NotSupported | Refused

  /** A call of the driver with its answer, None where the call failed; and the end of a failed sampling. */
  datatype Event =
    | Queried(support: Option<bool>)
    | Allocated(given: Option<nat>)
    | Freed(buffer: nat)
    | Captured(buffer: nat, at: int)
    | CaptureFailed(buffer: nat)
    | Computed(first: nat, second: nat, firstAt: int, secondAt: int, requested: set<string>,
               answers: Option<map<string, Answer>>)
    | Failed

  datatype Device = Device(
    samples: Option<(nat, nat)>,
    current: nat,
    previousAt: Option<int>,
    supported: Option<bool>,
    metrics: Option<set<string>>,
    errors: nat,
    retryAt: int)

  datatype Status = Unsupported | RetryPending | Warming | Available(values: map<string, real>) | Error

  function Fresh(): Device { Device(None, 0, None, None, None, 0, 0) }

  ghost function Buffers(d: Device): set<nat> {
    if d.samples.Some? then {d.samples.value.0, d.samples.value.1} else {}
  }

  function BufferAt(d: Device, k: nat): nat
    requires d.samples.Some?
  {
    if k == 0 then d.samples.value.0 else d.samples.value.1
  }

  /** The event writes to the buffer, or ends what was done with it. */
  ghost predicate Disturbs(e: Event, h: nat) {
    e == Failed || ((e.Captured? || e.CaptureFailed? || e.Freed?) && e.buffer == h)
  }

  /** Buffer h was filled at time p, and not disturbed since. */
  ghost predicate SinceCapture(log: seq<Event>, h: nat, p: int) {
    exists i :: 0 <= i < |log| && log[i] == Captured(h, p) && forall j :: i < j < |log| ==> !Disturbs(log[j], h)
  }

  /** A computation compares an undisturbed older capture with the one made just before it. */
  ghost predicate RightPair(log: seq<Event>, k: nat)
    requires k < |log| && log[k].Computed?
  {
    var c := log[k];
    && c.first != c.second && c.secondAt - c.firstAt >= MIN_INTERVAL
    && k > 0 && log[k - 1] == Captured(c.second, c.secondAt)
    && SinceCapture(log[..k], c.first, c.firstAt)
  }

  ghost predicate Proper(log: seq<Event>) {
    forall k :: 0 <= k < |log| && log[k].Computed? ==> RightPair(log, k)
  }

  /** What the device record promises about its buffers and its past. */
  ghost predicate Consistent(d: Device, log: seq<Event>, held: map<nat, int>) {
    && d.current < 2 && d.errors < 3
    && (d.samples.Some? ==> d.samples.value.0 != d.samples.value.1)
    && (d.previousAt.Some? ==>
         d.samples.Some? && SinceCapture(log, BufferAt(d, 1 - d.current), d.previousAt.value)
         && BufferAt(d, 1 - d.current) in held && held[BufferAt(d, 1 - d.current)] == d.previousAt.value)
    && Proper(log)
  }

  // ----- how the log grows

  lemma ProperAppend(log: seq<Event>, e: Event)
    requires Proper(log) && !e.Computed?
    ensures Proper(log + [e])
  {
    forall k | 0 <= k < |log + [e]| && (log + [e])[k].Computed? ensures RightPair(log + [e], k) {
      assert RightPair(log, k);
      assert (log + [e])[..k] == log[..k];
    }
  }

  lemma ProperCompute(log: seq<Event>, c: Event)
    requires Proper(log) && c.Computed? && c.first != c.second && c.secondAt - c.firstAt >= MIN_INTERVAL
    requires SinceCapture(log, c.first, c.firstAt) && log != [] && log[|log| - 1] == Captured(c.second, c.secondAt)
    ensures Proper(log + [c])
  {
    forall k | 0 <= k < |log + [c]| && (log + [c])[k].Computed? ensures RightPair(log + [c], k) {
      if k < |log| {
        assert RightPair(log, k);
        assert (log + [c])[..k] == log[..k];
      } else {
        assert (log + [c])[..k] == log;
      }
    }
  }

  lemma SinceAppend(log: seq<Event>, h: nat, p: int, e: Event)
    requires SinceCapture(log, h, p) && !Disturbs(e, h)
    ensures SinceCapture(log + [e], h, p)
  {
    var i :| 0 <= i < |log| && log[i] == Captured(h, p) && forall j :: i < j < |log| ==> !Disturbs(log[j], h);
    assert (log + [e])[i] == Captured(h, p);
  }

  lemma {:induction false} AppendAll(log: seq<Event>, made: seq<Event>)
    requires Proper(log) && forall e :: e in made ==> !e.Computed?
    ensures Proper(log + made)
    ensures forall h, p :: SinceCapture(log, h, p) && (forall e :: e in made ==> !Disturbs(e, h)) ==>
      SinceCapture(log + made, h, p)
  {
    if made == [] {
      assert log + made == log;
    } else {
      var n := |made| - 1;
      AppendAll(log, made[..n]);
      ProperAppend(log + made[..n], made[n]);
      assert log + made == log + made[..n] + [made[n]];
      forall h, p | SinceCapture(log, h, p) && forall e :: e in made ==> !Disturbs(e, h)
        ensures SinceCapture(log + made, h, p)
      {
        SinceAppend(log + made[..n], h, p, made[n]);
      }
    }
  }

  lemma SinceNow(log: seq<Event>, h: nat, p: int)
    ensures SinceCapture(log + [Captured(h, p)], h, p)
  {
    assert (log + [Captured(h, p)])[|log|] == Captured(h, p);
  }

  // ----- the driver

  class Driver {
    var nextId: nat
    var live: set<nat>
    /** The time of the capture a buffer holds. */
    ghost var held: map<nat, int>
    /** How often each buffer was freed. */
    ghost var frees: map<nat, nat>
    /** Every call so far. */
    ghost var calls: seq<Event>

    /** Live buffers are unfreed, dead ones freed once. */
    ghost predicate Valid()
      reads this
    {
      && held.Keys == live && (forall h: nat :: h in frees <==> h < nextId)
      && (forall h :: h in live ==> h < nextId)
      && (forall h :: h in frees ==> frees[h] == if h in live then 0 else 1)
    }

    constructor ()
      ensures Valid() && live == {} && nextId == 0 && calls == []
    {
      nextId, live, held, frees, calls := 0, {}, map[], map[], [];
    }

    /** nvmlGpmQueryDeviceSupport: an answer, or a failure. */
    method QuerySupport() returns (support: Option<bool>)
      modifies this`calls
      ensures calls == old(calls) + [Queried(support)]
    {
      var failed: bool, yes: bool := *, *;
      support := if failed then None else Some(yes);
      calls := calls + [Queried(support)];
    }

    method Alloc() returns (buffer: Option<nat>)
      requires Valid()
      modifies this
      ensures Valid()
      ensures buffer == None ==> live == old(live) && nextId == old(nextId) && held == old(held)
      ensures buffer.Some? ==> buffer.value == old(nextId) && nextId == old(nextId) + 1
      ensures buffer.Some? ==> live == old(live) + {buffer.value}
      ensures forall h :: h in old(live) ==> held[h] == old(held)[h]
      ensures calls == old(calls) + [Allocated(buffer)]
    {
      if * {
        buffer := Some(nextId);
        live := live + {nextId};
        held := held[nextId := 0];
        frees := frees[nextId := 0];
        nextId := nextId + 1;
      } else {
        buffer := None;
      }
      calls := calls + [Allocated(buffer)];
    }

    /** Freeing a buffer that is not live is not allowed. */
    method Free(h: nat)
      requires Valid() && h in live
      modifies this
      ensures Valid() && live == old(live) - {h} && nextId == old(nextId)
      ensures forall k :: k in live ==> held[k] == old(held)[k]
      ensures calls == old(calls) + [Freed(h)]
    {
      calls := calls + [Freed(h)];
      live := live - {h};
      held := map k | k in held && k != h :: held[k];
      frees := frees[h := frees[h] + 1];
    }

    /** A capture; a failed one leaves anything in the buffer. */
    method Get(h: nat, now: int) returns (ok: bool)
      requires Valid() && h in live
      modifies this
      ensures Valid() && live == old(live) && nextId == old(nextId)
      ensures forall k :: k in live && k != h ==> held[k] == old(held)[k]
      ensures ok ==> held[h] == now
      ensures calls == old(calls) + [if ok then Captured(h, now) else CaptureFailed(h)]
    {
      ghost var garbage: int := *;
      ok := *;
      held := held[h := if ok then now else garbage];
      calls := calls + [if ok then Captured(h, now) else CaptureFailed(h)];
    }

    /** nvmlGpmMetricsGet: compares two captures, and answers about each metric requested. */
    method Compute(first: nat, second: nat, requested: set<string>) returns (answers: Option<map<string, Answer>>)
      requires Valid() && first in live && second in live
      modifies this`calls
      ensures calls == old(calls) + [Computed(first, second, held[first], held[second], requested, answers)]
      ensures answers.Some? ==> answers.value.Keys == requested
    {
      var failed: bool := *;
      var some: string -> Answer := *;
      answers := if failed then None else Some(map m | m in requested :: some(m));
      calls := calls + [Computed(first, second, held[first], held[second], requested, answers)];
    }
  }

  /** The metrics with a value (lines 254-258). */
  function Values(answers: map<string, Answer>): (values: map<string, real>)
    ensures forall m, v :: m in values && values[m] == v <==> m in answers && answers[m] == Success(v)
  {
    map m | m in answers && answers[m].Success? :: answers[m].value
  }

  /** The metrics to ask for from now on (lines 259-263). */
  function Supported(answers: map<string, Answer>): (metrics: set<string>)
    ensures forall m :: m in metrics <==> m in answers && answers[m] != NotSupported
  {
    set m | m in answers && !answers[m].NotSupported?
  }

  /** Both buffers or none: a half allocation is given back (lines 215-228). */
  method AllocateSamples(driver: Driver) returns (samples: Option<(nat, nat)>, ghost made: seq<Event>)
    requires driver.Valid()
    modifies driver
    ensures driver.Valid() && driver.nextId >= old(driver.nextId)
    ensures samples == None ==> driver.live == old(driver.live)
    ensures samples.Some? ==> samples.value.0 != samples.value.1
    ensures samples.Some? ==> samples.value.0 >= old(driver.nextId) && samples.value.1 >= old(driver.nextId)
    ensures samples.Some? ==> driver.live == old(driver.live) + {samples.value.0, samples.value.1}
    ensures forall h :: h in old(driver.live) ==> driver.held[h] == old(driver.held)[h]
    ensures driver.calls == old(driver.calls) + made
    ensures samples.Some? ==> made == [Allocated(Some(samples.value.0)), Allocated(Some(samples.value.1))]
    ensures samples == None ==> Allocated(None) in made
    ensures forall e :: e in made ==> e.Allocated? || (e.Freed? && e.buffer >= old(driver.nextId))
  {
    var a := driver.Alloc();
    made := [Allocated(a)];
    if a == None {
      return None, made;
    }
    var b := driver.Alloc();
    made := made + [Allocated(b)];
    if b == None {
      driver.Free(a.value);
      return None, made + [Freed(a.value)];
    }
    samples := Some((a.value, b.value));
  }

  ghost predicate SameAt(a: map<nat, int>, b: map<nat, int>, h: nat) {
    h in a && h in b && a[h] == b[h]
  }

  /** What a device's steps may do to the driver: only its own buffers change, and it may gain new ones. */
  ghost predicate OwnOnly(before: Device, after: Device, live: set<nat>, held: map<nat, int>, nextId: nat,
      newLive: set<nat>, newHeld: map<nat, int>, newNextId: nat)
  {
    && nextId <= newNextId
    && newLive == live + Buffers(after) && Buffers(before) <= Buffers(after)
    && (forall h :: h in Buffers(after) - Buffers(before) ==> h >= nextId)
    && (forall h :: h in live && h !in Buffers(before) ==> SameAt(held, newHeld, h))
  }

  lemma OwnOnlyChain(a: Device, b: Device, c: Device, live: set<nat>, held: map<nat, int>, nextId: nat,
      live1: set<nat>, held1: map<nat, int>, nextId1: nat, live2: set<nat>, held2: map<nat, int>, nextId2: nat)
    requires forall h :: h in live ==> h < nextId
    requires OwnOnly(a, b, live, held, nextId, live1, held1, nextId1)
    requires OwnOnly(b, c, live1, held1, nextId1, live2, held2, nextId2)
    ensures OwnOnly(a, c, live, held, nextId, live2, held2, nextId2)
  {
    forall h | h in Buffers(c) - Buffers(a) ensures h >= nextId {
      assert h in Buffers(b) - Buffers(a) || h in Buffers(c) - Buffers(b);
    }
    forall h | h in live && h !in Buffers(a) ensures SameAt(held, held2, h) {
      assert h !in Buffers(b) - Buffers(a);
      assert SameAt(held, held1, h) && SameAt(held1, held2, h);
    }
  }

  // ----- what one call asks of the driver, and what it makes of the answers

  /** A failed call, or an answer without any value. */
  predicate Fails(e: Event) {
    match e
    case Queried(support) => support == None
    case Allocated(given) => given == None
    case CaptureFailed(_) => true
    case Computed(_, _, _, _, _, answers) => answers == None || Values(answers.value) == map[]
    case _ => false
  }

  /** Support is asked for unless it is known. */
  function Query(d: Device, after: Device): seq<Event> {
    if d.supported == None then [Queried(after.supported)] else []
  }

  /** Before a capture: support is asked for, and then buffers are allocated unless there are some. */
  ghost predicate Prepares(d: Device, after: Device, made: seq<Event>) {
    && after == d.(samples := after.samples, supported := after.supported)
    && (d.samples.Some? ==> after.samples == d.samples)
    && (d.supported.Some? ==> after.supported == d.supported)
    && Query(d, after) <= made
    && (forall i :: |Query(d, after)| <= i < |made| ==> made[i].Allocated? || made[i].Freed?)
    && (made != Query(d, after) ==> d.samples == None && after.supported == Some(true))
  }

  /** The buffers are there: support was asked for once, and two were allocated (lines 121-126). */
  method Prepare(driver: Driver, d: Device) returns (ok: bool, usable: bool, after: Device, ghost made: seq<Event>)
    requires driver.Valid() && Buffers(d) <= driver.live
    modifies driver
    ensures driver.Valid()
    ensures OwnOnly(d, after, old(driver.live), old(driver.held), old(driver.nextId), driver.live, driver.held,
                    driver.nextId)
    ensures after.samples.Some? && d.samples == None ==> after.samples.value.0 != after.samples.value.1
    ensures d.samples.Some? ==> forall h :: h in driver.live ==> SameAt(old(driver.held), driver.held, h)
    ensures driver.calls == old(driver.calls) + made && Prepares(d, after, made)
    ensures forall e :: e in made && e.Freed? ==> e.buffer >= old(driver.nextId)
    ensures ok <==> forall e :: e in made ==> !Fails(e)
    ensures ok && usable ==> after.samples.Some? && after.supported == Some(true)
    ensures ok && !usable ==> after.supported == Some(false)
  {
    after, usable, made := d, false, [];
    if after.supported == None {
      var support := driver.QuerySupport();
      made := [Queried(support)];
      if support == None {
        assert made[0] in made;
        return false, false, after, made;
      }
      after := after.(supported := support);
    }
    if !after.supported.value {
      return true, false, after, made;
    }
    if after.samples == None {
      var samples, allocations := AllocateSamples(driver);
      assert made == Query(d, after) && made <= made + allocations;
      made := made + allocations;
      if samples == None {
        assert Allocated(None) in made;
        return false, false, after, made;
      }
      after := after.(samples := samples);
    }
    return true, true, after, made;
  }

  /** The metrics a computation asks for: those known to be supported, or all. */
  function Wanted(d: Device, all: set<string>): set<string> {
    if d.metrics.Some? && d.metrics.value != {} then d.metrics.value else all
  }

  /** The call that compares the device's two captures. */
  ghost predicate Compares(e: Event, d: Device, samples: (nat, nat), now: int, all: set<string>) {
    && e.Computed? && d.previousAt.Some?
    && e.requested == (if d.metrics.Some? && d.metrics.value != {} then d.metrics.value else all)
    && e.first == (if d.current == 0 then samples.1 else samples.0) && e.firstAt == d.previousAt.value
    && e.second == (if d.current == 0 then samples.0 else samples.1) && e.secondAt == now
    && now - d.previousAt.value >= MIN_INTERVAL
  }

  /** The device after a capture that is kept: the next one goes to the other buffer. */
  function Turned(d: Device, now: int): Device {
    d.(previousAt := Some(now), current := if d.current == 0 then 1 else 0, errors := 0)
  }

  /** What follows from the driver's answers to a capture and a computation. */
  ghost predicate Follows(d: Device, after: Device, status: Status, made: seq<Event>, now: int, all: set<string>)
    requires d.samples.Some?
  {
    var target := BufferAt(d, d.current);
    || (made == [CaptureFailed(target)] && status == Error && after == d)
    || (made == [Captured(target, now)] && status == Warming
        && (if d.previousAt == None then after == Turned(d, now)
            else now - d.previousAt.value < MIN_INTERVAL && after == d))
    || (|made| == 2 && made[0] == Captured(target, now) && Compares(made[1], d, d.samples.value, now, all)
        && match made[1].answers
           case None => status == Error && after == d
           case Some(answers) =>
             && after == Turned(d, now).(metrics := if d.metrics == None then Some(Supported(answers)) else d.metrics)
             && status == if Values(answers) == map[] then Error else Available(Values(answers)))
  }

  /** The capture and, if one is due, the computation (lines 128-168). */
  method Capture(driver: Driver, d: Device, ghost log: seq<Event>, now: int, all: set<string>)
    returns (after: Device, status: Status, ghost made: seq<Event>)
    requires driver.Valid() && d.samples.Some? && Buffers(d) <= driver.live && Consistent(d, log, driver.held)
    modifies driver
    ensures driver.Valid() && driver.calls == old(driver.calls) + made && Follows(d, after, status, made, now, all)
    ensures OwnOnly(d, after, old(driver.live), old(driver.held), old(driver.nextId), driver.live, driver.held,
                    driver.nextId)
    ensures Proper(log + made) && (status != Error ==> Consistent(after, log + made, driver.held))
  {
    var target := BufferAt(d, d.current);
    after, status := d, Error;
    var captured := driver.Get(target, now);
    made := [if captured then Captured(target, now) else CaptureFailed(target)];
    ProperAppend(log, made[0]);
    if !captured {
      return;
    }
    SinceNow(log, target, now);
    if d.previousAt == None {
      return Turned(d, now), Warming, made;
    }
    var previous := BufferAt(d, 1 - d.current);
    SinceAppend(log, previous, d.previousAt.value, made[0]);
    if now - d.previousAt.value < MIN_INTERVAL {
      return d, Warming, made;
    }
    var answers := driver.Compute(previous, target, Wanted(d, all));
    ghost var computed := Computed(previous, target, d.previousAt.value, now, Wanted(d, all), answers);
    ProperCompute(log + made, computed);
    SinceAppend(log + made, target, now, computed);
    assert log + made + [computed] == log + (made + [computed]);
    made := made + [computed];
    if answers == None {
      return;
    }
    after := Turned(d, now).(metrics := if d.metrics == None then Some(Supported(answers.value)) else d.metrics);
    if Values(answers.value) != map[] {
      status := Available(Values(answers.value));
    }
  }

  // ----- one call as a whole

  /** What the caller is told, from the driver's answers alone: an error exactly if a call failed or gave no value,
      values exactly if a computation gave some, and these; warming exactly after a capture without one. */
  ghost predicate Told(d: Device, status: Status, made: seq<Event>, now: int) {
    && (status == RetryPending <==> d.retryAt > now)
    && (status == Error <==> exists e :: e in made && Fails(e))
    && (forall values :: status == Available(values) <==> values != map[] && Gives(made, values))
    && (status == Warming <==> (exists e :: e in made && e.Captured?) && (forall e :: e in made ==> !e.Computed?))
    && (status == Unsupported <==>
      d.retryAt <= now && (Queried(Some(false)) in made || d.supported == Some(false)))
  }

  ghost predicate Gives(made: seq<Event>, values: map<string, real>) {
    exists e :: e in made && e.Computed? && e.answers.Some? && Values(e.answers.value) == values
  }

  /** After k calls about support and buffers at most one capture, and after it at most one computation. */
  ghost predicate InTurn(made: seq<Event>, k: nat) {
    && k <= |made| <= k + 2
    && (forall i :: 0 <= i < k ==> made[i].Queried? || made[i].Allocated? || made[i].Freed?)
    && (k < |made| ==> made[k].Captured? || made[k].CaptureFailed?)
    && (k + 1 < |made| ==> made[k].Captured? && made[k + 1].Computed?)
  }

  /** What the driver is asked: nothing during a pause; about support once; for one capture, into the device's next
      buffer; and for a computation exactly when an older capture is at least 100 ms old. */
  ghost predicate Asked(d: Device, after: Device, made: seq<Event>, now: int, all: set<string>) {
    && (d.retryAt > now ==> made == [])
    && (d.retryAt <= now ==> (d.supported == None <==> exists e :: e in made && e.Queried?))
    && (forall e :: e in made && (e.Captured? || e.CaptureFailed?) ==>
      after.samples.Some? && e.buffer == BufferAt(after, d.current) && (e.Captured? ==> e.at == now))
    && (forall e :: e in made && e.Computed? ==>
      after.samples.Some? && Compares(e, d, after.samples.value, now, all))
    && ((exists e :: e in made && e.Captured?) && d.previousAt.Some? && now - d.previousAt.value >= MIN_INTERVAL ==>
      exists e :: e in made && e.Computed?)
    && (d.retryAt <= now && after.supported == Some(true) ==>
      exists e :: e in made && (e.Captured? || e.CaptureFailed? || e == Allocated(None)))
    && (after.supported != Some(true) ==> forall e :: e in made ==> e.Queried?)
    && exists k :: InTurn(made, k)
  }

  /** The device once its support is known and it has buffers. */
  ghost function Ready(d: Device, after: Device): Device { d.(samples := after.samples, supported := after.supported) }

  /** The device after a computation that was answered. */
  ghost predicate Updated(d: Device, after: Device, made: seq<Event>, now: int) {
    exists e :: e in made && e.Computed? && e.answers.Some?
      && after == d.(previousAt := Some(now), current := if d.current == 0 then 1 else 0, errors := 0,
                     metrics := if d.metrics == None then Some(Supported(e.answers.value)) else d.metrics)
  }

  /** The device after a failure: its capture is forgotten, and every third failure in a row starts a pause. */
  ghost predicate Backed(d: Device, after: Device, now: int, retry: int) {
    && after == d.(previousAt := None, errors := after.errors, retryAt := after.retryAt)
    && (d.errors < 2 ==> after.errors == d.errors + 1 && after.retryAt == d.retryAt)
    && (d.errors >= 2 ==> after.errors == 0 && after.retryAt == now + retry)
  }

  /** What becomes of the device. */
  ghost predicate Left(d: Device, after: Device, status: Status, made: seq<Event>, now: int, retry: int) {
    && (forall b :: Queried(Some(b)) in made ==> after.supported == Some(b))
    && ((forall e :: e in made ==> !e.Queried?) ==> after.supported == d.supported)
    && (d.samples.Some? ==> after.samples == d.samples)
    && match status
       case RetryPending => after == d
       case Unsupported => after == Ready(d, after)
       case Warming =>
         var ready := Ready(d, after);
         if d.previousAt.Some? then after == ready
         else after == ready.(previousAt := Some(now), current := if d.current == 0 then 1 else 0, errors := 0)
       case Available(_) => Updated(Ready(d, after), after, made, now)
       case Error =>
         if exists e :: e in made && e.Computed? && e.answers.Some? then
           exists before :: Updated(Ready(d, after), before, made, now) && Backed(before, after, now, retry)
         else Backed(Ready(d, after), after, now, retry)
  }

  /** The handler (lines 169-174). */
  function AfterFailure(d: Device, now: int, retry: int): Device {
    if d.errors + 1 >= 3 then d.(previousAt := None, errors := 0, retryAt := now + retry)
    else d.(previousAt := None, errors := d.errors + 1)
  }

  /** The steps of a call: prepare the device, and capture if that succeeds and the device supports it. */
  ghost predicate Attempted(d: Device, prepared: Device, after: Device, status: Status, first: seq<Event>,
      made: seq<Event>, now: int, all: set<string>)
  {
    && Prepares(d, prepared, first) && first <= made
    && ((exists e :: e in first && Fails(e)) ==> status == Error && after == prepared && made == first)
    && ((forall e :: e in first ==> !Fails(e)) && prepared.supported == Some(false) ==>
      status == Unsupported && after == prepared && made == first)
    && ((forall e :: e in first ==> !Fails(e)) && prepared.supported != Some(false) ==>
      && prepared.supported == Some(true) && prepared.samples.Some?
      && Follows(prepared, after, status, made[|first|..], now, all))
  }

  /** The guarded part of a call: prepare the device, then capture. */
  method Attempt(driver: Driver, d: Device, ghost log: seq<Event>, now: int, all: set<string>)
    returns (after: Device, status: Status, ghost made: seq<Event>, ghost prepared: Device, ghost first: seq<Event>)
    requires driver.Valid() && Buffers(d) <= driver.live && Consistent(d, log, driver.held)
    requires forall h :: h in driver.live ==> h < driver.nextId
    modifies driver
    ensures driver.Valid() && driver.calls == old(driver.calls) + made
    ensures OwnOnly(d, after, old(driver.live), old(driver.held), old(driver.nextId), driver.live, driver.held,
                    driver.nextId)
    ensures Proper(log + made) && Sane(after)
    ensures Attempted(d, prepared, after, status, first, made, now, all)
    ensures status != Error ==> Consistent(after, log + made, driver.held)
  {
    hide OwnOnly, SinceCapture, Proper, Prepares, Follows;
    ghost var live, held, nextId := driver.live, driver.held, driver.nextId;
    var ok, usable, ready;
    ok, usable, ready, made := Prepare(driver, d);
    prepared, first, after, status := ready, made, ready, if ok then Unsupported else Error;
    KeepsConsistent(d, prepared, log, made, held, driver.held, live, driver.live, nextId);
    if ok && usable {
      ghost var live1, held1, nextId1 := driver.live, driver.held, driver.nextId;
      BuffersLive(d, prepared, live, held, nextId, live1, held1, nextId1);
      ghost var captures;
      after, status, captures := Capture(driver, ready, log + made, now, all);
      OwnOnlyChain(d, prepared, after, live, held, nextId, live1, held1, nextId1, driver.live, driver.held,
                   driver.nextId);
      FollowsSane(prepared, after, status, captures, now, all);
      assert log + (made + captures) == log + made + captures;
      made := made + captures;
    }
  }

  ghost predicate Sane(d: Device) {
    d.current < 2 && d.errors < 3 && (d.samples.Some? ==> d.samples.value.0 != d.samples.value.1)
  }

  lemma FollowsSane(d: Device, after: Device, status: Status, made: seq<Event>, now: int, all: set<string>)
    requires d.samples.Some? && Sane(d) && Follows(d, after, status, made, now, all)
    ensures Sane(after)
  {
  }

  /** One call on one device, and what the log keeps of it. */
  method SampleDevice(driver: Driver, d: Device, ghost log: seq<Event>, now: int, retry: int, all: set<string>)
    returns (after: Device, status: Status, ghost made: seq<Event>)
    requires driver.Valid() && Buffers(d) <= driver.live && Consistent(d, log, driver.held)
    modifies driver
    ensures driver.Valid() && Consistent(after, Logged(log, made, status), driver.held)
    ensures driver.calls == old(driver.calls) + made
    ensures OwnOnly(d, after, old(driver.live), old(driver.held), old(driver.nextId), driver.live, driver.held,
                    driver.nextId)
    ensures Told(d, status, made, now) && Asked(d, after, made, now, all) && Left(d, after, status, made, now, retry)
  {
    hide OwnOnly, SinceCapture, Proper, Prepares, Follows, Told, Asked, Left;
    OwnOnlyRefl(d, driver.live, driver.held, driver.nextId);
    if d.retryAt > now {
      Pausing(d, now, retry, all);
      assert log + [] == log;
      return d, RetryPending, [];
    }
    ghost var live, held, nextId := driver.live, driver.held, driver.nextId;
    ghost var prepared, first;
    after, status, made, prepared, first := Attempt(driver, d, log, now, all);
    Concludes(d, prepared, after, status, first, made, now, retry, all);
    assert log + made + [] == log + made;
    if status == Error {
      ProperAppend(log + made, Failed);
      OwnOnlySame(d, after, AfterFailure(after, now, retry), live, held, nextId, driver.live, driver.held,
                  driver.nextId);
      after := AfterFailure(after, now, retry);
    }
  }

  /** The log of a device: the driver's calls, and where sampling failed. */
  ghost function Logged(log: seq<Event>, made: seq<Event>, status: Status): seq<Event> {
    log + made + if status == Error then [Failed] else []
  }

  lemma Pausing(d: Device, now: int, retry: int, all: set<string>)
    requires d.retryAt > now
    ensures Told(d, RetryPending, [], now) && Asked(d, d, [], now, all) && Left(d, d, RetryPending, [], now, retry)
  {
    assert InTurn([], 0);
  }

  /** From the steps of a call to the call as a whole. */
  lemma Concludes(d: Device, prepared: Device, after: Device, status: Status, first: seq<Event>, made: seq<Event>,
      now: int, retry: int, all: set<string>)
    requires d.retryAt <= now && d.errors < 3 && Attempted(d, prepared, after, status, first, made, now, all)
    ensures var last := if status == Error then AfterFailure(after, now, retry) else after;
      Told(d, status, made, now) && Asked(d, last, made, now, all) && Left(d, last, status, made, now, retry)
  {
    hide Told, Asked, Left, Follows;
    PreparesMeans(d, prepared, first);
    if prepared.supported == Some(false) || exists e :: e in first && Fails(e) {
      Stops(d, prepared, status, first, now, retry, all);
    } else {
      var captures := made[|first|..];
      assert made == first + captures;
      FollowsMeans(prepared, after, status, captures, now, all);
      Proceeds(d, prepared, after, status, first, captures, now, retry, all);
    }
  }

  /** What a capture and a computation amount to. */
  ghost predicate Amounts(d: Device, after: Device, status: Status, made: seq<Event>, now: int, all: set<string>)
    requires d.samples.Some?
  {
    && after.samples == d.samples && after.supported == d.supported && InTurn(made, 0)
    && (status == Error || status == Warming || status.Available?)
    && (forall e :: e in made ==> e.Captured? || e.CaptureFailed? || e.Computed?)
    && (exists e :: e in made && (e.Captured? || e.CaptureFailed?))
    && (forall e :: e in made && (e.Captured? || e.CaptureFailed?) ==>
      e.buffer == BufferAt(d, d.current) && (e.Captured? ==> e.at == now))
    && (forall e :: e in made && e.Computed? ==> Compares(e, d, d.samples.value, now, all))
    && ((exists e :: e in made && e.Captured?) && d.previousAt.Some? && now - d.previousAt.value >= MIN_INTERVAL ==>
      exists e :: e in made && e.Computed?)
    && (status == Error <==> exists e :: e in made && Fails(e))
    && (forall values :: status == Available(values) <==> values != map[] && Gives(made, values))
    && (status == Warming <==> (exists e :: e in made && e.Captured?) && (forall e :: e in made ==> !e.Computed?))
    && (status == Warming ==> after == if d.previousAt == None then Turned(d, now) else d)
    && (status.Available? ==> Updated(d, after, made, now))
    && (status == Error ==>
      if exists e :: e in made && e.Computed? && e.answers.Some? then Updated(d, after, made, now) else after == d)
  }

  lemma FollowsMeans(d: Device, after: Device, status: Status, made: seq<Event>, now: int, all: set<string>)
    requires d.samples.Some? && Follows(d, after, status, made, now, all)
    ensures Amounts(d, after, status, made, now, all)
  {
    assert made[0] in made && InTurn(made, 0);
    if |made| == 1 {
      assert made == [made[0]];
    } else {
      assert made == [made[0], made[1]] && made[1] in made;
      hide Values, Supported, BufferAt, Wanted;
      forall values ensures Gives(made, values)
        <==> made[1].answers.Some? && Values(made[1].answers.value) == values
      {
      }
    }
  }

  lemma Stops(d: Device, prepared: Device, status: Status, first: seq<Event>, now: int, retry: int, all: set<string>)
    requires d.retryAt <= now && d.errors < 3 && Prepares(d, prepared, first)
    requires status == if exists e :: e in first && Fails(e) then Error else Unsupported
    requires status == Unsupported ==> prepared.supported == Some(false)
    ensures var last := if status == Error then AfterFailure(prepared, now, retry) else prepared;
      Told(d, status, first, now) && Asked(d, last, first, now, all) && Left(d, last, status, first, now, retry)
  {
    PreparesMeans(d, prepared, first);
    TurnsAlone(first);
  }

  lemma TurnsAlone(first: seq<Event>)
    requires forall e :: e in first ==> e.Queried? || e.Allocated? || e.Freed?
    ensures InTurn(first, |first|)
  {
    assert forall i :: 0 <= i < |first| ==> first[i] in first;
  }

  lemma Proceeds(d: Device, prepared: Device, after: Device, status: Status, first: seq<Event>, captures: seq<Event>,
      now: int, retry: int, all: set<string>)
    requires d.retryAt <= now && d.errors < 3 && Prepares(d, prepared, first)
    requires prepared.supported == Some(true) && prepared.samples.Some? && forall e :: e in first ==> !Fails(e)
    requires Amounts(prepared, after, status, captures, now, all)
    ensures var made, last := first + captures, if status == Error then AfterFailure(after, now, retry) else after;
      Told(d, status, made, now) && Asked(d, last, made, now, all) && Left(d, last, status, made, now, retry)
  {
    hide Prepares, Told, Asked, Left, Amounts;
    ProceedsTold(d, prepared, after, status, first, captures, now, all);
    ProceedsAsked(d, prepared, after, status, first, captures, now, all);
    ProceedsLeft(d, prepared, after, status, first, captures, now, retry, all);
    var last := if status == Error then AfterFailure(after, now, retry) else after;
    AskedOfFields(d, after, last, first + captures, now, all);
  }

  lemma AskedOfFields(d: Device, after: Device, last: Device, made: seq<Event>, now: int, all: set<string>)
    requires Asked(d, after, made, now, all) && last.samples == after.samples && last.supported == after.supported
    ensures Asked(d, last, made, now, all)
  {
    hide Compares, InTurn;
  }

  lemma ProceedsTold(d: Device, prepared: Device, after: Device, status: Status, first: seq<Event>,
      captures: seq<Event>, now: int, all: set<string>)
    requires d.retryAt <= now && d.errors < 3 && Prepares(d, prepared, first)
    requires prepared.supported == Some(true) && prepared.samples.Some? && forall e :: e in first ==> !Fails(e)
    requires Amounts(prepared, after, status, captures, now, all)
    ensures Told(d, status, first + captures, now)
  {
    hide Prepares, Fails, Compares, Turned, Updated, Values, InTurn;
    PreparesMeans(d, prepared, first);
    var made := first + captures;
    forall values ensures Gives(made, values) <==> Gives(captures, values) {
      if Gives(captures, values) {
        var e :| e in captures && e.Computed? && e.answers.Some? && Values(e.answers.value) == values;
        assert e in made;
      }
    }
    hide Gives;
    assert forall e :: e in made <==> e in first || e in captures;
  }

  lemma TurnsAfter(first: seq<Event>, captures: seq<Event>)
    requires InTurn(captures, 0) && forall e :: e in first ==> e.Queried? || e.Allocated? || e.Freed?
    ensures InTurn(first + captures, |first|)
  {
    var made := first + captures;
    forall i | 0 <= i < |first| ensures made[i].Queried? || made[i].Allocated? || made[i].Freed? {
      assert made[i] in first;
    }
    assert forall i :: |first| <= i < |made| ==> made[i] == captures[i - |first|];
  }

  lemma ProceedsAsked(d: Device, prepared: Device, after: Device, status: Status, first: seq<Event>,
      captures: seq<Event>, now: int, all: set<string>)
    requires d.retryAt <= now && d.errors < 3 && Prepares(d, prepared, first)
    requires prepared.supported == Some(true) && prepared.samples.Some? && forall e :: e in first ==> !Fails(e)
    requires Amounts(prepared, after, status, captures, now, all)
    ensures Asked(d, after, first + captures, now, all)
  {
    hide Fails, Turned, Updated, Gives, Values, InTurn, Prepares;
    PreparesMeans(d, prepared, first);
    var made := first + captures;
    assert forall e :: e in made <==> e in first || e in captures;
    forall e | e in captures && e.Computed? ensures Compares(e, d, after.samples.value, now, all) {
      assert Compares(e, prepared, prepared.samples.value, now, all);
    }
    hide Compares;
    TurnsAfter(first, captures);
  }

  lemma ProceedsLeft(d: Device, prepared: Device, after: Device, status: Status, first: seq<Event>,
      captures: seq<Event>, now: int, retry: int, all: set<string>)
    requires d.retryAt <= now && d.errors < 3 && Prepares(d, prepared, first)
    requires prepared.supported == Some(true) && prepared.samples.Some? && forall e :: e in first ==> !Fails(e)
    requires Amounts(prepared, after, status, captures, now, all)
    ensures var last := if status == Error then AfterFailure(after, now, retry) else after;
      Left(d, last, status, first + captures, now, retry)
  {
    hide Prepares, Fails, Gives, Values, Compares, Supported, InTurn;
    PreparesMeans(d, prepared, first);
    var made, last := first + captures, if status == Error then AfterFailure(after, now, retry) else after;
    assert forall e :: e in made <==> e in first || e in captures;
    assert Ready(d, last) == prepared;
    if Updated(prepared, after, captures, now) {
      assert Updated(prepared, after, made, now);
    }
    if status == Error {
      assert Backed(after, last, now, retry);
    }
  }

  lemma PreparesMeans(d: Device, prepared: Device, first: seq<Event>)
    requires Prepares(d, prepared, first)
    ensures prepared == d.(samples := prepared.samples, supported := prepared.supported)
    ensures d.samples.Some? ==> prepared.samples == d.samples
    ensures forall e :: e in first ==> e.Queried? || e.Allocated? || e.Freed?
    ensures d.supported == None <==> exists e :: e in first && e.Queried?
    ensures forall e :: e in first && e.Queried? ==> d.supported == None && e.support == prepared.supported
    ensures d.supported.Some? ==> prepared.supported == d.supported
    ensures d.supported == None ==> Queried(prepared.supported) in first
    ensures prepared.supported == Some(false) ==> forall e :: e in first ==> !Fails(e)
    ensures prepared.supported == None ==> exists e :: e in first && Fails(e)
    ensures prepared.supported == Some(true) && (exists e :: e in first && Fails(e)) ==> Allocated(None) in first
  {
    if d.supported == None { assert first[0] == Queried(prepared.supported); }
    forall e | e in first && e.Queried? ensures d.supported == None && e.support == prepared.supported {
      var i :| 0 <= i < |first| && first[i] == e;
    }
    forall e | e in first ensures e.Queried? || e.Allocated? || e.Freed? {
      var i :| 0 <= i < |first| && first[i] == e;
    }
  }


  lemma OwnOnlyRefl(d: Device, live: set<nat>, held: map<nat, int>, nextId: nat)
    requires Buffers(d) <= live && live <= held.Keys
    ensures OwnOnly(d, d, live, held, nextId, live, held, nextId)
  {
  }

  lemma OwnOnlySame(a: Device, b: Device, c: Device, live: set<nat>, held: map<nat, int>, nextId: nat,
      live1: set<nat>, held1: map<nat, int>, nextId1: nat)
    requires OwnOnly(a, b, live, held, nextId, live1, held1, nextId1) && c.samples == b.samples
    ensures OwnOnly(a, c, live, held, nextId, live1, held1, nextId1)
  {
  }

  lemma BuffersLive(a: Device, b: Device, live: set<nat>, held: map<nat, int>, nextId: nat,
      live1: set<nat>, held1: map<nat, int>, nextId1: nat)
    requires OwnOnly(a, b, live, held, nextId, live1, held1, nextId1)
    ensures Buffers(b) <= live1
  {
  }

  /** Preparing keeps the promises: a device without buffers has no capture to keep. */
  lemma KeepsConsistent(d: Device, prepared: Device, log: seq<Event>, made: seq<Event>, held: map<nat, int>,
      held1: map<nat, int>, live: set<nat>, live1: set<nat>, nextId: nat)
    requires Consistent(d, log, held) && Prepares(d, prepared, made)
    requires forall e :: e in made && e.Freed? ==> e.buffer >= nextId
    requires prepared.samples.Some? && d.samples == None ==> prepared.samples.value.0 != prepared.samples.value.1
    requires Buffers(d) <= live && forall h :: h in live ==> h < nextId
    requires d.samples.Some? ==> Buffers(d) <= live1 && forall h :: h in live1 ==> SameAt(held, held1, h)
    ensures Consistent(prepared, log + made, held1) && Sane(prepared)
  {
    AppendAll(log, made);
    if d.previousAt.Some? {
      var h := BufferAt(d, 1 - d.current);
      assert h in Buffers(d);
      assert forall e :: e in made ==> !Disturbs(e, h);
    }
  }

  // ----- all devices

  ghost predicate AllConsistent(states: map<int, Device>, logs: map<int, seq<Event>>, live: set<nat>,
      held: map<nat, int>)
  {
    && logs.Keys == states.Keys
    && (forall i :: i in states ==> Consistent(states[i], logs[i], held) && Buffers(states[i]) <= live)
    && (forall i, j :: i in states && j in states && i != j ==> Buffers(states[i]) !! Buffers(states[j]))
    && (forall h :: h in live ==> exists i :: i in states && h in Buffers(states[i]))
  }

  lemma ConsistentFrame(d: Device, log: seq<Event>, held: map<nat, int>, after: map<nat, int>)
    requires Consistent(d, log, held)
    requires forall h :: h in Buffers(d) ==> SameAt(held, after, h)
    ensures Consistent(d, log, after)
  {
    if d.previousAt.Some? {
      assert BufferAt(d, 1 - d.current) in Buffers(d);
    }
  }

  lemma OthersUndisturbed(states: map<int, Device>, logs: map<int, seq<Event>>, live: set<nat>, held: map<nat, int>,
      i: int, d: Device, after: Device, log: seq<Event>, nextId: nat, newLive: set<nat>, newHeld: map<nat, int>,
      newNextId: nat)
    requires AllConsistent(states, logs, live, held) && d == (if i in states then states[i] else Fresh())
    requires forall h :: h in live ==> h < nextId
    requires OwnOnly(d, after, live, held, nextId, newLive, newHeld, newNextId)
    requires Consistent(after, log, newHeld)
    ensures AllConsistent(states[i := after], logs[i := log], newLive, newHeld)
  {
    hide Consistent;
    var newStates, newLogs := states[i := after], logs[i := log];
    forall j | j in states && j != i
      ensures Consistent(states[j], logs[j], newHeld) && Buffers(states[j]) <= live
      ensures Buffers(states[j]) !! Buffers(after)
    {
      OtherUndisturbed(states, logs, live, held, i, d, after, nextId, newHeld, j);
    }
    forall h | h in newLive ensures exists j :: j in newStates && h in Buffers(newStates[j]) {
      if h in live && h !in Buffers(after) {
        var j :| j in states && h in Buffers(states[j]);
        assert h in Buffers(newStates[j]);
      } else {
        assert h in Buffers(newStates[i]);
      }
    }
  }

  lemma OtherUndisturbed(states: map<int, Device>, logs: map<int, seq<Event>>, live: set<nat>, held: map<nat, int>,
      i: int, d: Device, after: Device, nextId: nat, newHeld: map<nat, int>, j: int)
    requires AllConsistent(states, logs, live, held) && d == (if i in states then states[i] else Fresh())
    requires forall h :: h in live ==> h < nextId
    requires forall h :: h in Buffers(after) - Buffers(d) ==> h >= nextId
    requires forall h :: h in live && h !in Buffers(d) ==> SameAt(held, newHeld, h)
    requires j in states && j != i
    ensures Consistent(states[j], logs[j], newHeld) && Buffers(states[j]) <= live
    ensures Buffers(states[j]) !! Buffers(after)
  {
    hide Consistent;
    assert i in states ==> Buffers(states[i]) !! Buffers(states[j]);
    assert Buffers(d) !! Buffers(states[j]);
    ConsistentFrame(states[j], logs[j], held, newHeld);
    forall h | h in Buffers(states[j]) ensures h !in Buffers(after) {
      assert h in live && h < nextId && h !in Buffers(d);
      assert h in Buffers(after) ==> h in Buffers(after) - Buffers(d);
    }
  }

  lemma KnownConsistent(states: map<int, Device>, logs: map<int, seq<Event>>, live: set<nat>, held: map<nat, int>,
      i: int)
    requires AllConsistent(states, logs, live, held)
    ensures logs.Keys == states.Keys
    ensures i in states ==> Consistent(states[i], logs[i], held) && Buffers(states[i]) <= live
    ensures Consistent(Fresh(), [], held) && Buffers(Fresh()) == {}
  {
  }

  /** The buffers still to be freed are those of the devices still to be closed. */
  ghost predicate Closing(states: map<int, Device>, todo: set<int>, live: set<nat>) {
    && todo <= states.Keys
    && (forall i :: i in todo ==> Buffers(states[i]) <= live)
    && (forall i, j :: i in states && j in states && i != j ==> Buffers(states[i]) !! Buffers(states[j]))
    && (forall i :: i in states && states[i].samples.Some? ==> states[i].samples.value.0 != states[i].samples.value.1)
    && (forall h :: h in live ==> exists i :: i in todo && h in Buffers(states[i]))
  }

  lemma ClosingStep(states: map<int, Device>, todo: set<int>, live: set<nat>, i: int)
    requires Closing(states, todo, live) && i in todo
    ensures Closing(states, todo - {i}, live - Buffers(states[i]))
  {
    forall h | h in live - Buffers(states[i]) ensures exists j :: j in todo - {i} && h in Buffers(states[j]) {
      var j :| j in todo && h in Buffers(states[j]);
    }
  }

  class Provider {
    const driver: Driver
    const available: bool
    const retry: int
    const all: set<string>
    var states: map<int, Device>
    ghost var logs: map<int, seq<Event>>

    ghost predicate Valid()
      reads this, driver
    {
      driver.Valid() && AllConsistent(states, logs, driver.live, driver.held)
    }

    constructor (driver: Driver, available: bool, retry: int, all: set<string>)
      requires driver.Valid() && driver.live == {}
      ensures Valid() && states == map[] && this.driver == driver && this.available == available
    {
      this.driver, this.available, this.retry, this.all := driver, available, retry, all;
      states, logs := map[], map[];
    }

    /** Every computation ever made on a device compared the right two captures: Consistent says so of its log. */
    method Sample(index: int, now: int) returns (status: Status, ghost made: seq<Event>)
      requires Valid()
      modifies this, driver
      ensures Valid() && driver.nextId >= old(driver.nextId) && driver.calls == old(driver.calls) + made
      ensures !available ==> status == Unsupported && made == [] && states == old(states) && logs == old(logs)
      ensures available ==> states.Keys == old(states.Keys) + {index}
      ensures forall i :: i in old(states) && i != index ==> states[i] == old(states)[i] && logs[i] == old(logs)[i]
      ensures available ==>
        var d := if index in old(states) then old(states)[index] else Device(None, 0, None, None, None, 0, 0);
        && Told(d, status, made, now) && Asked(d, states[index], made, now, all)
        && Left(d, states[index], status, made, now, retry)
        && index in logs && logs[index] == Logged(if index in old(logs) then old(logs)[index] else [], made, status)
    {
      if !available {
        return Unsupported, [];
      }
      hide AllConsistent, Consistent, OwnOnly, Told, Asked, Left;
      var d := if index in states then states[index] else Fresh();
      KnownConsistent(states, logs, driver.live, driver.held, index);
      ghost var log := if index in logs then logs[index] else [];
      ghost var live, held, nextId := driver.live, driver.held, driver.nextId;
      var after;
      after, status, made := SampleDevice(driver, d, log, now, retry, all);
      ghost var newLog := Logged(log, made, status);
      OthersUndisturbed(states, logs, live, held, index, d, after, newLog, nextId, driver.live, driver.held,
                        driver.nextId);
      states, logs := states[index := after], logs[index := newLog];
    }

    /** Frees every buffer: afterwards each buffer ever allocated has been freed exactly once. */
    method Close()
      requires Valid()
      modifies this, driver
      ensures available ==> Valid() && states == map[] && driver.live == {}
      ensures available ==> forall h: nat :: h < driver.nextId ==> h in driver.frees && driver.frees[h] == 1
    {
      if !available {
        return;
      }
      var todo := states.Keys;
      while todo != {}
        invariant driver.Valid() && Closing(states, todo, driver.live)
      {
        var i := Least(todo);
        ClosingStep(states, todo, driver.live, i);
        FreeSamples(driver, states[i]);
        todo := todo - {i};
      }
      states, logs := map[], map[];
    }
  }

  method FreeSamples(driver: Driver, d: Device)
    requires driver.Valid() && Buffers(d) <= driver.live
    requires d.samples.Some? ==> d.samples.value.0 != d.samples.value.1
    modifies driver
    ensures driver.Valid() && driver.live == old(driver.live) - Buffers(d)
  {
    if d.samples.Some? {
      driver.Free(d.samples.value.0);
      driver.Free(d.samples.value.1);
    }
  }
}
