/** The browser's live connection as a machine driven by events (frontend/src/live-connection.ts).
    Times are milliseconds; sockets and probes are numbered in order of creation. */
module LiveConnection {
  import opened Wrappers

  datatype Shown = Connecting | Live | Offline | Error

  /** What the connection does, in order: sockets made and closed, and callbacks into the page. */
  datatype Call =
    | Opened(socket: nat)
    | Closed(socket: nat)
    | State(shown: Shown)
    | Message(socket: nat, data: string)
    | Recover(probe: nat, manual: bool)
    | Refresh

  /** What the page sees around it: document.hidden and navigator.onLine. */
  datatype Env = Env(hidden: bool, online: bool)

  const NORMAL_LOSS: int := 1006
  const FORBIDDEN: int := 4403

  function Pow2(n: nat): nat { if n == 0 then 1 else 2 * Pow2(n - 1) }

  /** The reconnect delay after a number of earlier failures. */
  function Backoff(failures: nat): int {
    var raw := 1200 * Pow2(if failures < 5 then failures else 5);
    if raw < 30_000 then raw else 30_000
  }

  /** Delays start at 1.2 seconds, double while that stays below half a minute, and never shrink. */
  lemma BackoffShape(k: nat)
    ensures Backoff(0) == 1200 && 1200 <= Backoff(k) <= Backoff(k + 1) <= 30_000
    ensures k < 4 ==> Backoff(k + 1) == 2 * Backoff(k)
    ensures k >= 5 ==> Backoff(k) == 30_000
  {
    assert Pow2(0) == 1 && Pow2(1) == 2 && Pow2(2) == 4 && Pow2(3) == 8 && Pow2(4) == 16 && Pow2(5) == 32;
  }

  // ----- what a trace may look like

  function Count(trace: seq<Call>): nat {
    if trace == [] then 0
    else Count(trace[..|trace| - 1]) + if trace[|trace| - 1].Opened? then 1 else 0
  }

  /** The socket made last, until it is closed. */
  function Current(trace: seq<Call>): Option<nat> {
    if trace == [] then None
    else
      match trace[|trace| - 1]
      case Opened(s) => Some(s)
      case Closed(_) => None
      case _ => Current(trace[..|trace| - 1])
  }

  /** A socket is made when none is current; only the current one is closed or heard. */
  predicate Fits(trace: seq<Call>, c: Call) {
    match c
    case Opened(s) => s == Count(trace) && Current(trace) == None
    case Closed(s) => Current(trace) == Some(s)
    case Message(s, _) => Current(trace) == Some(s)
    case _ => true
  }

  ghost predicate Sound(trace: seq<Call>) {
    forall i :: 0 <= i < |trace| ==> Fits(trace[..i], trace[i])
  }

  lemma Appended(trace: seq<Call>, c: Call)
    requires Sound(trace) && (c.Opened? ==> c.socket == Count(trace) && Current(trace) == None)
    requires c.Closed? || c.Message? ==> Current(trace) == Some(c.socket)
    ensures Sound(trace + [c]) && Count(trace + [c]) == Count(trace) + if c.Opened? then 1 else 0
    ensures Current(trace + [c]) == if c.Opened? then Some(c.socket) else if c.Closed? then None else Current(trace)
  {
    assert (trace + [c])[..|trace|] == trace;
    forall i | 0 <= i < |trace| ensures (trace + [c])[..i] == trace[..i] {
    }
  }

  /** The socket current at some point was made before it, and nothing was made or closed in between. */
  lemma {:induction false} CurrentSince(trace: seq<Call>, n: nat) returns (made: nat)
    requires n <= |trace| && Current(trace[..n]).Some?
    ensures made < n && trace[made] == Opened(Current(trace[..n]).value)
    ensures forall k :: made < k < n ==> !trace[k].Opened? && !trace[k].Closed?
  {
    assert n > 0 && trace[..n][..n - 1] == trace[..n - 1];
    if trace[n - 1].Opened? {
      made := n - 1;
    } else {
      made := CurrentSince(trace, n - 1);
    }
  }

  lemma {:induction false} CountGrows(trace: seq<Call>, m: nat, n: nat)
    requires m <= n <= |trace|
    ensures Count(trace[..m]) <= Count(trace[..n])
  {
    if m < n {
      assert trace[..n][..n - 1] == trace[..n - 1];
      CountGrows(trace, m, n - 1);
    }
  }

  /** Sockets are numbered as they are made. */
  lemma MadeInOrder(trace: seq<Call>, i: nat, j: nat)
    requires Sound(trace) && i < j < |trace| && trace[i].Opened? && trace[j].Opened?
    ensures trace[i].socket < trace[j].socket
  {
    assert Fits(trace[..i], trace[i]) && Fits(trace[..j], trace[j]);
    assert trace[..i + 1][..i] == trace[..i];
    CountGrows(trace, i + 1, j);
  }

  /** A message reaches the page between the making of its socket and its closing, with no other
      socket made or closed since. */
  lemma MessageWithin(trace: seq<Call>, i: nat) returns (made: nat)
    requires Sound(trace) && i < |trace| && trace[i].Message?
    ensures made < i && trace[made] == Opened(trace[i].socket)
    ensures forall k :: made < k < i ==> !trace[k].Opened? && !trace[k].Closed?
  {
    assert Fits(trace[..i], trace[i]);
    made := CurrentSince(trace, i);
  }

  /** So messages never come from an older socket than those before them. */
  lemma MessagesInOrder(trace: seq<Call>, i: nat, j: nat)
    requires Sound(trace) && i < j < |trace| && trace[i].Message? && trace[j].Message?
    ensures trace[i].socket <= trace[j].socket
  {
    var a := MessageWithin(trace, i);
    var b := MessageWithin(trace, j);
    if a < b { MadeInOrder(trace, a, b); }
  }

  /** Retired sockets can never publish stale data. */
  lemma NothingAfterClose(trace: seq<Call>, c: nat, i: nat)
    requires Sound(trace) && c < i < |trace| && trace[c].Closed? && trace[i].Message?
    ensures trace[c].socket < trace[i].socket
  {
    assert Fits(trace[..c], trace[c]);
    var a := CurrentSince(trace, c);
    var b := MessageWithin(trace, i);
    MadeInOrder(trace, a, b);
  }

  class Connection {
    var socket: Option<nat>
    var reconnectTimer: Option<int>
    var stopped: bool
    var blocked: bool
    var failures: nat
    var lastMessage: int
    var lastCheck: int
    var lastResume: Option<int>
    var received: bool
    var recovery: Option<nat>
    var invalidMessage: bool
    /** Whether the page's own listeners and check interval are installed. */
    var listening: bool
    /** Sockets made and not closed. */
    var open: set<nat>
    var nextSocket: nat
    var nextProbe: nat
    ghost var trace: seq<Call>

    predicate Available(env: Env)
      reads this
    {
      !stopped && !blocked && !env.hidden && env.online
    }

    /** One live thing at most; every socket but the current one is closed; a blocked or disposed connection
        holds nothing; the delay of a pending reconnect is in range. */
    ghost predicate Valid()
      reads this
    {
      && !(socket.Some? && reconnectTimer.Some?)
      && open == (if socket.Some? then {socket.value} else {})
      && Sound(trace) && Current(trace) == socket && Count(trace) == nextSocket
      && (recovery.Some? ==> recovery.value < nextProbe)
      && (blocked ==> socket == None && reconnectTimer == None)
      && (stopped ==> socket == None && reconnectTimer == None && !listening)
      && (reconnectTimer.Some? ==> 1200 <= reconnectTimer.value <= 30_000)
    }

    /** Holds as long as the clock never runs backwards. */
    ghost predicate ClockOrdered(now: int)
      reads this
    {
      lastCheck <= now && (lastResume.Some? ==> lastResume.value <= lastCheck)
    }

    /** What retiring adds to the trace. */
    ghost function Closing(): seq<Call>
      reads this`socket
    {
      if socket.Some? then [Closed(socket.value)] else []
    }

    ghost predicate ExactlyOne()
      reads this
    {
      socket.Some? <==> reconnectTimer == None
    }

    constructor (env: Env, now: int)
      ensures Valid() && ClockOrdered(now) && listening && !stopped && !blocked && reconnectTimer == None
      ensures socket.Some? <==> !env.hidden && env.online
      ensures trace == if !env.hidden && env.online then [Opened(0), State(Connecting)] else []
    {
      socket, reconnectTimer, stopped, blocked, failures := None, None, false, false, 0;
      lastMessage, lastCheck, lastResume, received, recovery, invalidMessage := now, now, None, false, None, false;
      listening, open, nextSocket, nextProbe, trace := true, {}, 0, 0, [];
      new;
      Connect(env, now);
    }

    method Retire()
      requires Valid()
      modifies this`socket, this`reconnectTimer, this`open, this`trace
      ensures Valid() && socket == None && reconnectTimer == None && open == {}
      ensures trace == old(trace) + old(Closing())
    {
      hide Sound, Count, Current;
      reconnectTimer := None;
      if socket.Some? {
        open := open - {socket.value};
        Appended(trace, Closed(socket.value));
        trace := trace + [Closed(socket.value)];
      }
      socket := None;
    }

    method Schedule(code: int, env: Env)
      requires Valid()
      modifies this`socket, this`reconnectTimer, this`open, this`failures, this`trace
      ensures Valid() && socket == None && trace == old(trace) + old(Closing()) + [State(Offline)]
      ensures reconnectTimer == if !Available(env) then None
        else Some(if code == FORBIDDEN then 30_000 else Backoff(old(failures)))
      ensures failures == old(failures) + if Available(env) && code != FORBIDDEN then 1 else 0
    {
      hide Sound, Count, Current;
      Retire();
      Appended(trace, State(Offline));
      trace := trace + [State(Offline)];
      if !Available(env) {
        return;
      }
      BackoffShape(failures);
      if code == FORBIDDEN {
        reconnectTimer := Some(30_000);
      } else {
        reconnectTimer := Some(Backoff(failures));
        failures := failures + 1;
      }
    }

    method Connect(env: Env, now: int)
      requires Valid() && reconnectTimer == None
      modifies this`socket, this`open, this`nextSocket, this`lastMessage, this`received, this`invalidMessage, this`trace
      ensures Valid()
      ensures !Available(env) || old(socket).Some? ==>
        socket == old(socket) && trace == old(trace) && lastMessage == old(lastMessage) && received == old(received)
      ensures Available(env) && old(socket) == None ==>
        socket == Some(old(nextSocket)) && trace == old(trace) + [Opened(old(nextSocket)), State(Connecting)]
        && lastMessage == now && !received && !invalidMessage
    {
      hide Sound, Count, Current;
      if !Available(env) || socket.Some? {
        return;
      }
      lastMessage, received, invalidMessage := now, false, false;
      socket := Some(nextSocket);
      open := open + {nextSocket};
      Appended(trace, Opened(nextSocket));
      Appended(trace + [Opened(nextSocket)], State(Connecting));
      trace := trace + [Opened(nextSocket)] + [State(Connecting)];
      nextSocket := nextSocket + 1;
    }

    /** Nothing but `blocked` has changed. */
    twostate predicate Quiet()
      reads this
    {
      && socket == old(socket) && reconnectTimer == old(reconnectTimer) && open == old(open) && trace == old(trace)
      && lastCheck == old(lastCheck) && lastResume == old(lastResume) && lastMessage == old(lastMessage)
      && received == old(received) && invalidMessage == old(invalidMessage) && failures == old(failures)
      && recovery == old(recovery) && nextSocket == old(nextSocket) && nextProbe == old(nextProbe)
    }

    /** A message from any socket ever made; `accepted` is false if the page's handler throws. */
    method OnMessage(from: nat, data: string, accepted: bool, env: Env, now: int)
      requires Valid()
      modifies this
      ensures Valid() && socket == old(socket) && reconnectTimer == old(reconnectTimer) && listening == old(listening)
      ensures lastCheck == old(lastCheck) && lastResume == old(lastResume) && stopped == old(stopped)
      ensures blocked == old(blocked)
      ensures old(socket) != Some(from) || !old(Available(env)) ==> Quiet()
      ensures old(socket) == Some(from) && old(Available(env)) ==>
        && received && lastMessage == now && failures == (if accepted then 0 else old(failures))
        && trace == old(trace) + [Message(from, data), State(if accepted then Live else Error)]
        && invalidMessage == !accepted
        && recovery == if accepted || old(invalidMessage) || old(recovery).Some? then old(recovery)
                       else Some(old(nextProbe))
    {
      hide Sound, Count, Current;
      if stopped || socket != Some(from) || !Available(env) {
        return;
      }
      lastMessage, received := now, true;
      Appended(trace, Message(from, data));
      trace := trace + [Message(from, data)];
      Appended(trace, State(if accepted then Live else Error));
      if accepted {
        invalidMessage := false;
        failures := 0;
        trace := trace + [State(Live)];
      } else {
        trace := trace + [State(Error)];
        if !invalidMessage {
          Probe(false);
        }
        invalidMessage := true;
      }
    }

    /** A close (with its code) or an error of any socket ever made. */
    method OnLoss(from: nat, code: int, env: Env)
      requires Valid()
      modifies this
      ensures Valid() && stopped == old(stopped) && lastCheck == old(lastCheck) && lastResume == old(lastResume)
      ensures blocked == old(blocked) && recovery == old(recovery)
      ensures old(socket) != Some(from) ==> Quiet()
      ensures old(socket) == Some(from) ==>
        && socket == None && trace == old(trace) + [Closed(from), State(Offline)]
        && reconnectTimer == (if !old(Available(env)) then None
                              else Some(if code == FORBIDDEN then 30_000 else Backoff(old(failures))))
        && failures == old(failures) + if old(Available(env)) && code != FORBIDDEN then 1 else 0
    {
      hide Sound, Count, Current;
      if !stopped && socket == Some(from) {
        Schedule(code, env);
      }
    }

    /** The reconnect timer fires. */
    method OnTimer(env: Env, now: int)
      requires Valid() && reconnectTimer.Some?
      modifies this
      ensures Valid() && reconnectTimer == None && stopped == old(stopped) && blocked == old(blocked)
      ensures lastCheck == old(lastCheck) && lastResume == old(lastResume) && failures == old(failures)
      ensures recovery == if old(recovery).Some? then old(recovery) else Some(old(nextProbe))
      ensures socket == if old(Available(env)) then Some(old(nextSocket)) else None
      ensures trace == old(trace) + if old(Available(env)) then [Opened(old(nextSocket)), State(Connecting)] else []
    {
      hide Sound, Count, Current;
      reconnectTimer := None;
      Connect(env, now);
      Probe(false);
    }

    /** Asks for an HTTP check; automatic requests share a running one, a manual one replaces it. */
    method Probe(manual: bool)
      requires Valid()
      modifies this`recovery, this`nextProbe
      ensures Valid()
      ensures recovery == if old(recovery).Some? && !manual then old(recovery) else Some(old(nextProbe))
      ensures nextProbe == old(nextProbe) + if recovery == old(recovery) then 0 else 1
    {
      if recovery.Some? && !manual {
        return;
      }
      recovery := Some(nextProbe);
      nextProbe := nextProbe + 1;
    }

    /** The probe's first microtask: the page is asked only if the probe is still the current one. */
    method OnProbeStart(probe: nat, manual: bool)
      requires Valid()
      modifies this`trace
      ensures Valid()
      ensures trace == old(trace) + if !stopped && recovery == Some(probe) then [Recover(probe, manual)] else []
    {
      hide Sound, Count, Current;
      if stopped || recovery != Some(probe) {
        return;
      }
      Appended(trace, Recover(probe, manual));
      trace := trace + [Recover(probe, manual)];
    }

    /** The probe's answer; None is a failed request. Only the current probe's refusal blocks. */
    method OnProbeResult(probe: nat, verdict: Option<bool>)
      requires Valid()
      modifies this
      ensures Valid() && stopped == old(stopped) && lastCheck == old(lastCheck) && lastResume == old(lastResume)
      ensures blocked == (old(blocked) || (!stopped && old(recovery) == Some(probe) && verdict == Some(false)))
      ensures !old(stopped) && old(recovery) == Some(probe) && verdict == Some(false) ==>
        socket == None && reconnectTimer == None && trace == old(trace) + old(Closing()) + [State(Offline)]
      ensures old(stopped) || old(recovery) != Some(probe) || verdict != Some(false) ==>
        socket == old(socket) && reconnectTimer == old(reconnectTimer) && trace == old(trace)
      ensures recovery == if old(recovery) == Some(probe) then None else old(recovery)
    {
      hide Sound, Count, Current;
      if !stopped && recovery == Some(probe) && verdict == Some(false) {
        Retire();
        blocked := true;
        Appended(trace, State(Offline));
        trace := trace + [State(Offline)];
      }
      if recovery == Some(probe) {
        recovery := None;
      }
    }

    /** What resuming does: nothing while unavailable or less than a second after the last time;
        otherwise the page is refreshed and probed over a socket, which only a manual refresh may
        find in place. */
    twostate predicate Resumed(manual: bool, env: Env, now: int)
      reads this
    {
      && stopped == old(stopped) && listening == old(listening) && blocked == (old(blocked) && !manual)
      && (!Available(env) || (!manual && old(lastResume.Some? && now - lastResume.value < 1000)) ==> Quiet())
      && (Available(env) && (manual || old(lastResume.Some? ==> now - lastResume.value >= 1000)) ==>
        && socket.Some? && reconnectTimer == None && lastCheck == now && lastResume == Some(now)
        && failures == old(failures)
        && recovery == (if old(recovery).Some? && !manual then old(recovery) else Some(old(nextProbe)))
        && (manual && old(socket).Some? ==> socket == old(socket) && trace == old(trace) + [Refresh])
        && (!manual || old(socket) == None ==>
          && socket == Some(old(nextSocket)) && lastMessage == now && !received && !invalidMessage
          && trace == old(trace) + old(Closing()) + [Opened(old(nextSocket)), State(Connecting), Refresh]))
    }

    method Resume(manual: bool, env: Env, now: int)
      requires Valid()
      modifies this
      ensures Valid() && Resumed(manual, env, now)
      ensures old(ClockOrdered(now)) ==> ClockOrdered(now)
    {
      hide Sound, Count, Current;
      if manual {
        blocked := false;
      }
      if !Available(env) {
        return;
      }
      if !manual && Recent(now) {
        return;
      }
      Reopen(manual, env, now);
      Probe(manual);
    }

    /** Lines 97-103: a manual refresh keeps a socket it finds, anything else starts afresh. */
    method Reopen(manual: bool, env: Env, now: int)
      requires Valid() && Available(env)
      modifies this`lastResume, this`lastCheck, this`socket, this`reconnectTimer, this`open, this`nextSocket,
        this`lastMessage, this`received, this`invalidMessage, this`trace
      ensures Valid()
      ensures socket.Some? && reconnectTimer == None && lastCheck == now && lastResume == Some(now)
      ensures manual && old(socket).Some? ==> socket == old(socket) && trace == old(trace) + [Refresh]
      ensures !manual || old(socket) == None ==>
        socket == Some(old(nextSocket)) && lastMessage == now && !received && !invalidMessage
        && trace == old(trace) + old(Closing()) + [Opened(old(nextSocket)), State(Connecting), Refresh]
    {
      hide Sound, Count, Current;
      lastResume, lastCheck := Some(now), now;
      if !manual {
        Retire();
      }
      reconnectTimer := None;
      Connect(env, now);
      ghost var reopened := old(trace) + old(Closing()) + [Opened(old(nextSocket)), State(Connecting)];
      assert trace == if manual && old(socket).Some? then old(trace) else reopened;
      Appended(trace, Refresh);
      trace := trace + [Refresh];
    }

    /** A resume less than a second ago. */
    predicate Recent(now: int)
      reads this
    {
      lastResume.Some? && now - lastResume.value < 1000
    }

    method OnVisibility(env: Env, now: int)
      requires Valid()
      modifies this
      ensures Valid() && blocked == old(blocked) && stopped == old(stopped) && listening == old(listening)
      ensures !listening ==> Quiet()
      ensures listening && env.hidden ==>
        && socket == None && reconnectTimer == None && trace == old(trace) + old(Closing())
        && recovery == old(recovery) && failures == old(failures)
        && lastCheck == old(lastCheck) && lastResume == old(lastResume)
      ensures listening && !env.hidden ==> Resumed(false, env, now)
      ensures old(ClockOrdered(now)) ==> ClockOrdered(now)
    {
      hide Sound, Count, Current;
      if !listening {
        return;
      }
      if env.hidden {
        Retire();
      } else {
        Resume(false, env, now);
      }
    }

    method OnOnline(env: Env, now: int)
      requires Valid()
      modifies this
      ensures Valid() && blocked == old(blocked) && stopped == old(stopped) && listening == old(listening)
      ensures if listening then Resumed(false, env, now) else Quiet()
      ensures old(ClockOrdered(now)) ==> ClockOrdered(now)
    {
      if listening {
        Resume(false, env, now);
      }
    }

    method OnOffline()
      requires Valid()
      modifies this`socket, this`reconnectTimer, this`open, this`trace
      ensures Valid() && (stopped ==> trace == old(trace))
      ensures listening ==>
        socket == None && reconnectTimer == None && trace == old(trace) + old(Closing()) + [State(Offline)]
    {
      hide Sound, Count, Current;
      if listening {
        Retire();
        Appended(trace, State(Offline));
        trace := trace + [State(Offline)];
      }
    }

    function Timeout(interval: int): int
      reads this
    {
      if received then (if 15_000 < interval * 3000 then interval * 3000 else 15_000) else 30_000
    }

    /** The check leaves things alone: a wake-up it may not act on yet, a reconnect under way, or a
        socket heard from lately. */
    predicate Settled(interval: int, now: int)
      reads this
    {
      if now - lastCheck > 10_000 then Recent(now)
      else reconnectTimer.Some? || (socket.Some? && now - lastMessage <= Timeout(interval))
    }

    /** The three-second check, also run on focus and page show. While available it leaves exactly one of
        socket and timer, except precisely when a wake-up is throttled with neither in place. */
    method OnCheck(interval: int, env: Env, now: int)
      requires Valid()
      modifies this
      ensures Valid() && stopped == old(stopped) && (old(stopped) ==> trace == old(trace))
      ensures listening == old(listening)
      ensures old(ClockOrdered(now)) ==> ClockOrdered(now)
      ensures old(listening) && old(Available(env)) ==>
        (ExactlyOne() <==> !(now - old(lastCheck) > 10_000 && old(Recent(now))
                             && old(socket) == None && old(reconnectTimer) == None))
      ensures old(listening) && old(Available(env)) && old(ClockOrdered(now)) ==> ExactlyOne()
      ensures lastCheck == (if old(listening) then now else old(lastCheck)) && blocked == old(blocked)
      ensures !old(listening) || !old(Available(env)) || old(Settled(interval, now)) ==>
        && socket == old(socket) && reconnectTimer == old(reconnectTimer) && trace == old(trace)
        && failures == old(failures) && lastResume == old(lastResume) && recovery == old(recovery)
      ensures old(listening) && old(Available(env)) && now - old(lastCheck) > 10_000 && !old(Recent(now)) ==>
        socket == Some(old(nextSocket)) && lastResume == Some(now)
        && trace == old(trace) + old(Closing()) + [Opened(old(nextSocket)), State(Connecting), Refresh]
      ensures old(listening) && old(Available(env)) && now - old(lastCheck) <= 10_000 ==>
        var deadline := if !old(received) then 30_000 else if interval <= 5 then 15_000 else 3000 * interval;
        socket.Some? <==> old(socket).Some? && now - old(lastMessage) <= deadline
      ensures old(listening) && old(Available(env)) && now - old(lastCheck) <= 10_000 ==>
        || old(Settled(interval, now))
        || (socket == None && reconnectTimer == Some(Backoff(old(failures))) && failures == old(failures) + 1
            && lastResume == old(lastResume) && recovery == old(recovery)
            && trace == old(trace) + old(Closing()) + [State(Offline)])
    {
      hide Sound, Count, Current;
      if !listening {
        return;
      }
      var slept := now - lastCheck > 10_000;
      lastCheck := now;
      if !Available(env) {
        return;
      }
      if slept {
        Resume(false, env, now);
        return;
      }
      if reconnectTimer.Some? {
        return;
      }
      if socket.Some? && now - lastMessage > Timeout(interval) {
        Schedule(NORMAL_LOSS, env);
      } else if socket == None {
        Schedule(NORMAL_LOSS, env);
      }
    }

    /** The page's manual refresh. */
    method RecoverNow(env: Env, now: int)
      requires Valid()
      modifies this
      ensures Valid() && Resumed(true, env, now)
      ensures old(ClockOrdered(now)) ==> ClockOrdered(now)
    {
      Resume(true, env, now);
    }

    method Dispose()
      requires Valid()
      modifies this
      ensures Valid() && stopped && socket == None && reconnectTimer == None && open == {}
      ensures trace == old(trace) + old(Closing())
    {
      hide Sound, Count, Current;
      Retire();
      stopped := true;
      listening := false;
    }
  }

  /** A check that leaves neither socket nor timer: while the page is hidden after a resume the clock is
      set back across one check; shown again, both the resume and a late check are throttled. */
  method ThrottledWakeUp() returns (connection: Connection)
    ensures fresh(connection) && connection.Valid() && connection.listening
    ensures connection.Available(Env(false, true)) && !connection.ExactlyOne()
  {
    hide Sound, Count, Current;
    var shown, hidden := Env(false, true), Env(true, true);
    connection := new Connection(shown, 100_000);
    connection.OnOnline(shown, 100_000);
    connection.OnVisibility(hidden, 100_000);
    connection.OnCheck(3, hidden, 80_000);
    connection.OnVisibility(shown, 85_000);
    connection.OnCheck(3, shown, 95_000);
  }
}
