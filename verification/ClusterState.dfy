/** Node state fenced by connection, and per-GPU histories (cluster.py, ClusterState and
    HistoryAccumulator). Node, connection and GPU identities are type parameters. */
module ClusterState {
  import opened Wrappers

  // ----- per-GPU histories

  datatype Values = Values(gpu: real, memory: real, power: real, temperature: real)
  datatype Gpu<G> = Gpu(id: G, valid: bool, values: Values)

  /** The four deques of a GPU. */
  datatype Series = Series(gpu: seq<real>, memory: seq<real>, power: seq<real>, temperature: seq<real>)

  function LastOf<T>(s: seq<T>, n: nat): seq<T> { if |s| <= n then s else s[|s| - n..] }

  /** The end of a list, as long as there is room for. */
  lemma LastOfMeans<T>(s: seq<T>, n: nat)
    ensures |LastOf(s, n)| <= n && (|LastOf(s, n)| < n ==> LastOf(s, n) == s)
    ensures |LastOf(s, n)| <= |s| && s == s[..|s| - |LastOf(s, n)|] + LastOf(s, n)
  {
  }

  /** deque(maxlen=n).append. */
  function Push<T>(s: seq<T>, x: T, n: nat): seq<T> { LastOf(s + [x], n) }

  function PushAll(s: Series, v: Values, n: nat): Series {
    Series(Push(s.gpu, v.gpu, n), Push(s.memory, v.memory, n), Push(s.power, v.power, n),
           Push(s.temperature, v.temperature, n))
  }

  function Column(vs: seq<Values>, pick: Values -> real): (r: seq<real>)
    ensures |r| == |vs| && forall i :: 0 <= i < |r| ==> r[i] == pick(vs[i])
  {
    seq(|vs|, i requires 0 <= i < |vs| => pick(vs[i]))
  }

  function Columns(vs: seq<Values>): Series {
    Series(Column(vs, (v: Values) => v.gpu), Column(vs, (v: Values) => v.memory),
           Column(vs, (v: Values) => v.power), Column(vs, (v: Values) => v.temperature))
  }

  /** A GPU's readings in a stretch of the log. */
  ghost function ReadingsOf<G>(seen: seq<Gpu<G>>, id: G): seq<Values> {
    if seen == [] then []
    else
      var before, last := ReadingsOf(seen[..|seen| - 1], id), seen[|seen| - 1];
      if last.id == id then before + [last.values] else before
  }

  /** Just after the GPU's last invalid reading. */
  ghost predicate IsRestart<G>(seen: seq<Gpu<G>>, id: G, from: int) {
    && 0 <= from <= |seen|
    && (from > 0 ==> seen[from - 1].id == id && !seen[from - 1].valid)
    && (forall i :: from <= i < |seen| && seen[i].id == id ==> seen[i].valid)
  }

  /** The history is the last `size` readings since the last invalid one; without any there is
      no entry. */
  ghost predicate HistoryOf<G>(history: map<G, Series>, seen: seq<Gpu<G>>, size: nat, id: G, from: int)
    requires IsRestart(seen, id, from)
  {
    var readings := ReadingsOf(seen[from..], id);
    && (id in history <==> readings != [])
    && (id in history ==> history[id] == Columns(LastOf(readings, size)))
  }

  ghost predicate Histories<G(!new)>(history: map<G, Series>, seen: seq<Gpu<G>>, size: nat) {
    forall id, from :: IsRestart(seen, id, from) ==> HistoryOf(history, seen, size, id, from)
  }

  lemma {:induction false} RestartExists<G>(seen: seq<Gpu<G>>, id: G) returns (from: int)
    ensures IsRestart(seen, id, from)
  {
    if seen == [] {
      from := 0;
    } else {
      var n := |seen| - 1;
      if seen[n].id == id && !seen[n].valid {
        from := n + 1;
      } else {
        from := RestartExists(seen[..n], id);
      }
    }
  }

  lemma LastOfPush<T>(s: seq<T>, x: T, n: nat)
    ensures Push(LastOf(s, n), x, n) == LastOf(s + [x], n)
  {
  }

  lemma ColumnLastOf(vs: seq<Values>, pick: Values -> real, n: nat)
    ensures Column(LastOf(vs, n), pick) == LastOf(Column(vs, pick), n)
  {
  }

  lemma ColumnsPush(vs: seq<Values>, v: Values, n: nat)
    ensures PushAll(Columns(LastOf(vs, n)), v, n) == Columns(LastOf(vs + [v], n))
  {
    PushColumn(vs, v, (v: Values) => v.gpu, n);
    PushColumn(vs, v, (v: Values) => v.memory, n);
    PushColumn(vs, v, (v: Values) => v.power, n);
    PushColumn(vs, v, (v: Values) => v.temperature, n);
  }

  lemma PushColumn(vs: seq<Values>, v: Values, pick: Values -> real, n: nat)
    ensures Push(Column(LastOf(vs, n), pick), pick(v), n) == Column(LastOf(vs + [v], n), pick)
  {
    ColumnLastOf(vs, pick, n);
    ColumnLastOf(vs + [v], pick, n);
    assert Column(vs + [v], pick) == Column(vs, pick) + [pick(v)];
    LastOfPush(Column(vs, pick), pick(v), n);
  }

  function NoSeries(): Series { Series([], [], [], []) }

  /** One GPU of an update. */
  function Noted<G(==)>(history: map<G, Series>, g: Gpu<G>, size: nat): map<G, Series> {
    if !g.valid then history - {g.id}
    else history[g.id := PushAll(if g.id in history then history[g.id] else NoSeries(), g.values, size)]
  }

  lemma RestartAfter<G>(seen: seq<Gpu<G>>, g: Gpu<G>, id: G, from: int)
    requires IsRestart(seen + [g], id, from)
    ensures g.id == id && !g.valid ==> from == |seen| + 1
    ensures !(g.id == id && !g.valid) ==> from <= |seen| && IsRestart(seen, id, from)
    ensures from <= |seen| ==> (seen + [g])[from..] == seen[from..] + [g]
  {
    var longer := seen + [g];
    assert longer[|seen|] == g;
    forall i | from <= i < |seen| && seen[i].id == id ensures seen[i].valid {
      assert longer[i] == seen[i];
    }
  }

  lemma NotedOne<G(!new)>(history: map<G, Series>, seen: seq<Gpu<G>>, g: Gpu<G>, size: nat, id: G, from: int)
    requires Histories(history, seen, size) && IsRestart(seen + [g], id, from)
    ensures HistoryOf(Noted(history, g, size), seen + [g], size, id, from)
  {
    RestartAfter(seen, g, id, from);
    hide IsRestart;
    if from <= |seen| {
      assert HistoryOf(history, seen, size, id, from);
      var tail := seen[from..];
      assert (tail + [g])[..|tail|] == tail;
      if g.id == id {
        ColumnsPush(ReadingsOf(tail, id), g.values, size);
        assert Columns(LastOf<Values>([], size)) == NoSeries();
      }
    }
  }

  lemma NotedKeeps<G(!new)>(history: map<G, Series>, seen: seq<Gpu<G>>, g: Gpu<G>, size: nat)
    requires Histories(history, seen, size)
    ensures Histories(Noted(history, g, size), seen + [g], size)
  {
    hide HistoryOf;
    forall id, from | IsRestart(seen + [g], id, from)
      ensures HistoryOf(Noted(history, g, size), seen + [g], size, id, from)
    {
      NotedOne(history, seen, g, size, id, from);
    }
  }

  class HistoryAccumulator<G(==,!new)> {
    const size: nat
    var history: map<G, Series>
    /** Every GPU reading ever passed to an update. */
    ghost var seen: seq<Gpu<G>>

    ghost predicate Valid() reads this { Histories(history, seen, size) }

    constructor (size: nat)
      ensures Valid() && this.size == size && seen == [] && history == map[]
    {
      this.size, history, seen := size, map[], [];
    }

    /** Adds a snapshot's readings, and returns the histories of its GPUs. */
    method Update(gpus: seq<Gpu<G>>) returns (payload: map<G, Series>)
      requires Valid()
      modifies this
      ensures Valid() && seen == old(seen) + gpus
      ensures payload == map id | id in history && (exists i :: 0 <= i < |gpus| && gpus[i].id == id) :: history[id]
    {
      hide Histories, Noted;
      ghost var was := seen;
      var i := 0;
      while i < |gpus|
        invariant 0 <= i <= |gpus| && Valid() && seen == was + gpus[..i]
      {
        NotedKeeps(history, seen, gpus[i], size);
        history := Noted(history, gpus[i], size);
        seen := seen + [gpus[i]];
        i := i + 1;
      }
      assert gpus[..i] == gpus;
      payload := PayloadFor(gpus);
    }

    method PayloadFor(gpus: seq<Gpu<G>>) returns (payload: map<G, Series>)
      ensures payload == map id | id in history && (exists i :: 0 <= i < |gpus| && gpus[i].id == id) :: history[id]
    {
      payload := map[];
      var i := 0;
      while i < |gpus|
        invariant 0 <= i <= |gpus|
        invariant payload == map id | id in history && (exists j :: 0 <= j < i && gpus[j].id == id) :: history[id]
      {
        if gpus[i].id in history {
          payload := payload[gpus[i].id := history[gpus[i].id]];
        }
        i := i + 1;
      }
    }
  }

  // ----- nodes and connections

  datatype Identity = Identity(hostname: string, version: Option<string>, hardware: Option<string>,
      profiles: seq<string>)
  datatype Snapshot<G> = Snapshot(identity: Identity, number: nat, gpus: seq<Gpu<G>>, error: Option<string>)

  datatype Runtime<C, G> = Runtime(
    identity: Identity, snapshot: Snapshot<G>, lastSeq: nat, connected: bool, lastSeenAt: int, connection: Option<C>)

  /** What a valid sample message carries. */
  datatype Body<G> = Body(hostname: Option<string>, number: nat, gpus: seq<Gpu<G>>, error: Option<string>)

  /** The calls on ClusterState, with their arguments. A sample's node or sequence number may be
      missing or malformed, and its body may fail to parse. */
  datatype Event<N, C, G> =
    | Hello(node: N, name: string, version: Option<string>, hardware: Option<string>, profiles: seq<string>,
            connection: Option<C>, at: int)
    | Sample(from: Option<N>, name: string, number: Option<nat>, body: Option<Body<G>>, connection: Option<C>, at: int)
    | Heartbeat(node: N, name: string, seen: Option<nat>, connection: Option<C>, at: int)
    | Reject(node: N, connection: Option<C>)
    | Disconnect(node: N, connection: Option<C>, when: Option<int>)

  datatype Answer = Accepted | Refused | Invalid

  datatype State<N(==), C, G> = State(latest: map<N, Runtime<C, G>>, updates: nat, seen: seq<Gpu<G>>)

  const REJECTED := "Invalid sample metadata; showing last valid readings"

  predicate Matches<C(==), G>(runtime: Runtime<C, G>, connection: Option<C>) {
    connection.None? || runtime.connection.None? || connection == runtime.connection
  }

  function Or<T>(first: Option<T>, other: Option<T>): Option<T> { if first.Some? then first else other }

  function Greeted<N(==), C, G>(st: State<N, C, G>, e: Event<N, C, G>): Runtime<C, G>
    requires e.Hello?
  {
    if e.node !in st.latest then
      var identity := Identity(e.name, e.version, e.hardware, e.profiles);
      Runtime(identity, Snapshot(identity, 0, [], None), 0, true, e.at, e.connection)
    else
      var r := st.latest[e.node];
      var identity :=
        Identity(e.name, Or(e.version, r.identity.version), Or(e.hardware, r.identity.hardware), e.profiles);
      Runtime(identity, r.snapshot.(identity := identity), 0, true, e.at, e.connection)
  }

  function AfterHello<N(==), C, G>(st: State<N, C, G>, e: Event<N, C, G>): State<N, C, G>
    requires e.Hello?
  {
    st.(latest := st.latest[e.node := Greeted(st, e)], updates := st.updates + 1)
  }

  /** What becomes of a sample. */
  function SampleAnswer<N(==), C(==), G>(st: State<N, C, G>, e: Event<N, C, G>): Answer
    requires e.Sample?
  {
    if e.from.None? || e.number.None? then Invalid
    else if e.from.value in st.latest && !Matches(st.latest[e.from.value], e.connection) then Refused
    else if e.from.value in st.latest && e.number.value <= st.latest[e.from.value].lastSeq then Refused
    else if e.body.None? then Invalid
    else Accepted
  }

  /** A snapshot is numbered by its message, or by its payload if that says zero. */
  function Numbered(message: nat, payload: nat): nat { if message != 0 then message else payload }

  function Sampled<N(==), C(==), G>(st: State<N, C, G>, e: Event<N, C, G>): Runtime<C, G>
    requires e.Sample? && SampleAnswer(st, e).Accepted?
  {
    var n, body := e.from.value, e.body.value;
    var was := if n in st.latest then st.latest[n].identity else Identity(e.name, None, None, []);
    var identity := if body.hostname.Some? then was.(hostname := body.hostname.value) else was;
    Runtime(identity, Snapshot(identity, Numbered(e.number.value, body.number), body.gpus, body.error), e.number.value,
            true, e.at, e.connection)
  }

  function AfterSample<N(==), C(==), G>(st: State<N, C, G>, e: Event<N, C, G>): State<N, C, G>
    requires e.Sample?
  {
    if SampleAnswer(st, e).Accepted? then
      State(st.latest[e.from.value := Sampled(st, e)], st.updates + 1, st.seen + e.body.value.gpus)
    else st
  }

  /** A heartbeat of an unknown node greets it first. */
  function AfterHeartbeat<N(==), C(==), G>(st: State<N, C, G>, e: Event<N, C, G>): State<N, C, G>
    requires e.Heartbeat?
  {
    var known := if e.node in st.latest then st
      else AfterHello(st, Hello(e.node, e.name, None, None, [], e.connection, e.at));
    var r := known.latest[e.node];
    if !Matches(r, e.connection) then known
    else
      var last := if e.seen.Some? && e.seen.value > r.lastSeq then e.seen.value else r.lastSeq;
      known.(latest := known.latest[e.node := r.(connected := true, lastSeenAt := e.at, lastSeq := last)],
             updates := known.updates + 1)
  }

  function AfterReject<N(==), C(==), G>(st: State<N, C, G>, e: Event<N, C, G>): State<N, C, G>
    requires e.Reject?
  {
    if e.node !in st.latest || !Matches(st.latest[e.node], e.connection) then st
    else
      var r := st.latest[e.node];
      if r.snapshot.error == Some(REJECTED) then st
      else
        st.(latest := st.latest[e.node := r.(snapshot := r.snapshot.(error := Some(REJECTED)))],
            updates := st.updates + 1)
  }

  function AfterDisconnect<N(==), C(==), G>(st: State<N, C, G>, e: Event<N, C, G>): State<N, C, G>
    requires e.Disconnect?
  {
    if e.node !in st.latest || !Matches(st.latest[e.node], e.connection) then st
    else
      var r := st.latest[e.node];
      var at := if e.when.Some? then e.when.value else r.lastSeenAt;
      st.(latest := st.latest[e.node := r.(connected := false, lastSeenAt := at)], updates := st.updates + 1)
  }

  function Step<N(==), C(==), G>(st: State<N, C, G>, e: Event<N, C, G>): State<N, C, G> {
    match e
    case Hello(_, _, _, _, _, _, _) => AfterHello(st, e)
    case Sample(_, _, _, _, _, _) => AfterSample(st, e)
    case Heartbeat(_, _, _, _, _) => AfterHeartbeat(st, e)
    case Reject(_, _) => AfterReject(st, e)
    case Disconnect(_, _, _) => AfterDisconnect(st, e)
  }

  function Run<N(==), C(==), G>(st: State<N, C, G>, es: seq<Event<N, C, G>>): State<N, C, G> {
    if es == [] then st else Step(Run(st, es[..|es| - 1]), es[|es| - 1])
  }

  // ----- the fence

  predicate About<N(==), C, G>(e: Event<N, C, G>, n: N) {
    if e.Sample? then e.from == Some(n) else e.node == n
  }

  /** From another connection than the one the node is registered on, both being known. */
  predicate Foreign<N(==), C(==), G>(st: State<N, C, G>, e: Event<N, C, G>, n: N) {
    && !e.Hello? && About(e, n) && n in st.latest
    && e.connection.Some? && st.latest[n].connection.Some? && e.connection != st.latest[n].connection
  }

  /** An older connection changes nothing at all: no node, no history, not the global sequence. */
  lemma Fenced<N, C, G>(st: State<N, C, G>, e: Event<N, C, G>, n: N)
    requires Foreign(st, e, n)
    ensures Step(st, e) == st
    ensures e.Sample? ==> !SampleAnswer(st, e).Accepted?
  {
  }

  /** The fence needs both connections named: a sample accepted without one opens the node to
      every connection. */
  lemma AnonymousSampleUnfences<N, C, G>(st: State<N, C, G>, e: Event<N, C, G>, c: Option<C>)
    requires e.Sample? && SampleAnswer(st, e).Accepted?
    ensures Matches(Step(st, e).latest[e.from.value], c)
      <==> (e.connection.None? || c.None? || c == e.connection)
  {
  }

  /** Exactly the calls that change nothing. */
  predicate Ignored<N(==), C(==), G>(st: State<N, C, G>, e: Event<N, C, G>) {
    match e
    case Hello(_, _, _, _, _, _, _) => false
    case Sample(_, _, _, _, _, _) => !SampleAnswer(st, e).Accepted?
    case Heartbeat(n, _, _, c, _) => n in st.latest && !Matches(st.latest[n], c)
    case Reject(n, c) =>
      n in st.latest && Matches(st.latest[n], c) ==> st.latest[n].snapshot.error == Some(REJECTED)
    case Disconnect(n, c, _) => n !in st.latest || !Matches(st.latest[n], c)
  }

  /** The global sequence grows exactly when something changes, so no waiter misses an update: by one, or
      by two for the heartbeat that greets its node first. */
  lemma SequenceTellsChanges<N, C, G>(st: State<N, C, G>, e: Event<N, C, G>)
    ensures Ignored(st, e) ==> Step(st, e) == st
    ensures !Ignored(st, e) ==>
      Step(st, e).updates == st.updates + if e.Heartbeat? && e.node !in st.latest then 2 else 1
  {
  }

  /** What one node's connection said. */
  function Own<N(==), C(==), G>(es: seq<Event<N, C, G>>, n: N, c: C): seq<Event<N, C, G>> {
    if es == [] then []
    else
      var before, e := Own(es[..|es| - 1], n, c), es[|es| - 1];
      if About(e, n) && e.connection == Some(c) then before + [e] else before
  }

  /** Nobody greets as the node again, and calls about it name their connection. */
  ghost predicate SameSession<N, C, G>(es: seq<Event<N, C, G>>, n: N) {
    forall i :: 0 <= i < |es| && About(es[i], n) ==> !es[i].Hello? && es[i].connection.Some?
  }

  lemma OtherNodesKeep<N, C, G>(st: State<N, C, G>, e: Event<N, C, G>, n: N)
    requires n in st.latest && !About(e, n)
    ensures n in Step(st, e).latest && Step(st, e).latest[n] == st.latest[n]
  {
  }

  /** A step about a node depends on that node's entry alone. */
  lemma StepIsLocal<N, C, G>(st: State<N, C, G>, other: State<N, C, G>, e: Event<N, C, G>, n: N)
    requires n in st.latest && n in other.latest && st.latest[n] == other.latest[n] && About(e, n)
    ensures n in Step(st, e).latest && n in Step(other, e).latest
    ensures Step(st, e).latest[n] == Step(other, e).latest[n]
  {
  }

  lemma ConnectionStays<N, C, G>(st: State<N, C, G>, e: Event<N, C, G>, n: N, c: C)
    requires n in st.latest && st.latest[n].connection == Some(c)
    requires About(e, n) ==> !e.Hello? && e.connection.Some?
    ensures n in Step(st, e).latest && Step(st, e).latest[n].connection == Some(c)
  {
  }

  /** From its greeting on, a node's entry is what its own connection's calls alone would have
      made it, whatever every other connection sends, for this node or another. */
  lemma {:induction false} SessionIsolated<N, C, G>(st: State<N, C, G>, es: seq<Event<N, C, G>>, n: N, c: C)
    requires n in st.latest && st.latest[n].connection == Some(c) && SameSession(es, n)
    ensures n in Run(st, es).latest && Run(st, es).latest[n].connection == Some(c)
    ensures n in Run(st, Own(es, n, c)).latest && Run(st, es).latest[n] == Run(st, Own(es, n, c)).latest[n]
  {
    hide Step, SameSession;
    if es != [] {
      var k := |es| - 1;
      var rest, e := es[..k], es[k];
      SameSessionParts(es, n);
      SessionIsolated(st, rest, n, c);
      var now, own := Run(st, rest), Own(rest, n, c);
      ConnectionStays(now, e, n, c);
      if !About(e, n) {
        OtherNodesKeep(now, e, n);
      } else if e.connection == Some(c) {
        StepIsLocal(now, Run(st, own), e, n);
        assert (own + [e])[..|own|] == own;
      } else {
        Fenced(now, e, n);
      }
    }
  }

  lemma SameSessionParts<N, C, G>(es: seq<Event<N, C, G>>, n: N)
    requires es != [] && SameSession(es, n)
    ensures SameSession(es[..|es| - 1], n)
    ensures About(es[|es| - 1], n) ==> !es[|es| - 1].Hello? && es[|es| - 1].connection.Some?
  {
  }

  // ----- sample sequence numbers

  /** The numbers of the samples accepted for a node. */
  function AcceptedNumbers<N(==), C(==), G>(st: State<N, C, G>, es: seq<Event<N, C, G>>, n: N): seq<nat> {
    if es == [] then []
    else
      var before, e := AcceptedNumbers(st, es[..|es| - 1], n), es[|es| - 1];
      if e.Sample? && e.from == Some(n) && SampleAnswer(Run(st, es[..|es| - 1]), e).Accepted?
      then before + [e.number.value] else before
  }

  ghost predicate GrowsFrom(s: seq<nat>, low: nat, high: nat) {
    && low <= high
    && (forall i :: 0 <= i < |s| ==> low < s[i] <= high)
    && (forall i, j :: 0 <= i < j < |s| ==> s[i] < s[j])
  }

  lemma NumberGrows<N, C, G>(st: State<N, C, G>, e: Event<N, C, G>, n: N)
    requires n in st.latest && !(e.Hello? && e.node == n)
    ensures n in Step(st, e).latest && st.latest[n].lastSeq <= Step(st, e).latest[n].lastSeq
    ensures e.Sample? && e.from == Some(n) && SampleAnswer(st, e).Accepted? ==>
      st.latest[n].lastSeq < e.number.value == Step(st, e).latest[n].lastSeq
  {
  }

  /** Until the node greets again, the samples accepted for it have strictly increasing numbers,
      all above the last number known before and at most the last number known after. */
  lemma {:induction false} AcceptedIncrease<N, C, G>(st: State<N, C, G>, es: seq<Event<N, C, G>>, n: N)
    requires n in st.latest && forall i :: 0 <= i < |es| ==> !(es[i].Hello? && es[i].node == n)
    ensures n in Run(st, es).latest
    ensures GrowsFrom(AcceptedNumbers(st, es, n), st.latest[n].lastSeq, Run(st, es).latest[n].lastSeq)
  {
    hide Step, SampleAnswer;
    if es != [] {
      var k := |es| - 1;
      AcceptedIncrease(st, es[..k], n);
      NumberGrows(Run(st, es[..k]), es[k], n);
    }
  }

  /** A greeting starts the numbering again, so the first sample of a connection may have any
      positive number. */
  lemma GreetingRestarts<N, C, G>(st: State<N, C, G>, hello: Event<N, C, G>, sample: Event<N, C, G>)
    requires hello.Hello? && sample.Sample? && sample.from == Some(hello.node) && sample.connection == hello.connection
    requires sample.number.Some? && sample.body.Some?
    ensures SampleAnswer(Step(st, hello), sample).Accepted? <==> sample.number.value > 0
  {
  }

  // ----- what a node's entry shows

  /** A sample is refused exactly if its node is registered on another connection or has shown that number
      already, and accepted exactly if it is whole and not refused. */
  lemma SampleAnswerIff<N, C, G>(st: State<N, C, G>, e: Event<N, C, G>)
    requires e.Sample?
    ensures SampleAnswer(st, e).Refused? <==>
      && e.from.Some? && e.number.Some? && e.from.value in st.latest
      && (Foreign(st, e, e.from.value) || e.number.value <= st.latest[e.from.value].lastSeq)
    ensures SampleAnswer(st, e).Accepted? <==>
      e.from.Some? && e.number.Some? && e.body.Some? && !SampleAnswer(st, e).Refused?
  {
  }

  /** A greeting shows the node on its connection, starts its numbering again and keeps its readings; a version
      or hardware it leaves out stays as known. */
  lemma GreetingShows<N, C, G>(st: State<N, C, G>, e: Event<N, C, G>)
    requires e.Hello?
    ensures e.node in Step(st, e).latest
    ensures var r := Step(st, e).latest[e.node];
      && r.connected && r.lastSeenAt == e.at && r.connection == e.connection && r.lastSeq == 0
      && r.snapshot.identity == r.identity
      && r.identity.hostname == e.name && r.identity.profiles == e.profiles
      && (e.version.Some? ==> r.identity.version == e.version)
      && (e.hardware.Some? ==> r.identity.hardware == e.hardware)
    ensures e.node !in st.latest ==>
      var r := Step(st, e).latest[e.node];
      && r.identity.version == e.version && r.identity.hardware == e.hardware
      && r.snapshot.gpus == [] && r.snapshot.error == None && r.snapshot.number == 0
    ensures e.node in st.latest ==>
      var was, r := st.latest[e.node], Step(st, e).latest[e.node];
      && (e.version == None ==> r.identity.version == was.identity.version)
      && (e.hardware == None ==> r.identity.hardware == was.identity.hardware)
      && r.snapshot.gpus == was.snapshot.gpus && r.snapshot.error == was.snapshot.error
      && r.snapshot.number == was.snapshot.number
  {
  }

  /** An accepted sample keeps what greetings told about the node, but for a host name of its own. */
  lemma SampleShows<N, C, G>(st: State<N, C, G>, e: Event<N, C, G>)
    requires e.Sample? && SampleAnswer(st, e).Accepted?
    ensures e.from.value in Step(st, e).latest
    ensures var r := Step(st, e).latest[e.from.value];
      && r.connected && r.lastSeenAt == e.at && r.connection == e.connection && r.lastSeq == e.number.value
      && r.snapshot.identity == r.identity
      && r.snapshot.gpus == e.body.value.gpus && r.snapshot.error == e.body.value.error
      && (e.number.value > 0 ==> r.snapshot.number == e.number.value)
      && (e.number.value == 0 ==> r.snapshot.number == e.body.value.number)
      && (e.body.value.hostname.Some? ==> r.identity.hostname == e.body.value.hostname.value)
    ensures e.from.value in st.latest ==>
      var was, r := st.latest[e.from.value].identity, Step(st, e).latest[e.from.value].identity;
      && r.version == was.version && r.hardware == was.hardware && r.profiles == was.profiles
      && (e.body.value.hostname == None ==> r.hostname == was.hostname)
    ensures e.from.value !in st.latest ==>
      var r := Step(st, e).latest[e.from.value].identity;
      && r.version == None && r.hardware == None && r.profiles == []
      && (e.body.value.hostname == None ==> r.hostname == e.name)
  {
  }

  /** A heartbeat not refused keeps its node alive and its numbering from falling behind; an unknown node is
      greeted under the heartbeat's own name. */
  lemma HeartbeatShows<N, C, G>(st: State<N, C, G>, e: Event<N, C, G>)
    requires e.Heartbeat? && !Foreign(st, e, e.node)
    ensures e.node in Step(st, e).latest
    ensures var r := Step(st, e).latest[e.node];
      && r.connected && r.lastSeenAt == e.at
      && (e.seen.Some? ==> e.seen.value <= r.lastSeq)
    ensures e.node in st.latest ==>
      var was, r := st.latest[e.node], Step(st, e).latest[e.node];
      && r.identity == was.identity && r.snapshot == was.snapshot && r.connection == was.connection
      && was.lastSeq <= r.lastSeq && (r.lastSeq != was.lastSeq ==> e.seen == Some(r.lastSeq))
    ensures e.node !in st.latest ==>
      var r := Step(st, e).latest[e.node];
      && r.identity == Identity(e.name, None, None, []) && r.snapshot.gpus == [] && r.connection == e.connection
      && (r.lastSeq != 0 ==> e.seen == Some(r.lastSeq))
  {
  }

  // ----- what a node's entry shows after a run

  function Nothing<N, C, G>(): State<N, C, G> { State(map[], 0, []) }

  /** The k-th call is about the node and changed something. */
  ghost predicate Tells<N(!new), C, G>(es: seq<Event<N, C, G>>, n: N, k: nat) {
    k < |es| && About(es[k], n) && Run(Nothing(), es[..k]).updates < Run(Nothing(), es[..k + 1]).updates
  }

  /** The k-th call is the last of those that told whether the node is connected. */
  ghost predicate ToldLast<N(!new), C, G>(es: seq<Event<N, C, G>>, n: N, k: nat) {
    && Tells(es, n, k) && !es[k].Reject?
    && (forall j :: k < j < |es| && Tells(es, n, j) ==> es[j].Reject?)
  }

  lemma RunLast<N, C, G>(es: seq<Event<N, C, G>>)
    requires es != []
    ensures Run(Nothing(), es[..|es|]) == Run(Nothing(), es)
      == Step(Run(Nothing(), es[..|es| - 1]), es[|es| - 1])
  {
    assert es[..|es|] == es;
  }

  lemma TellsBefore<N(!new), C, G>(es: seq<Event<N, C, G>>, n: N, k: nat)
    requires es != [] && k < |es| - 1
    ensures Tells(es, n, k) <==> Tells(es[..|es| - 1], n, k)
  {
    assert es[..|es| - 1][..k] == es[..k] && es[..|es| - 1][..k + 1] == es[..k + 1];
  }

  lemma TellsLast<N(!new), C, G>(es: seq<Event<N, C, G>>, n: N)
    requires es != [] && About(es[|es| - 1], n)
    ensures Tells(es, n, |es| - 1) <==> !Ignored(Run(Nothing(), es[..|es| - 1]), es[|es| - 1])
  {
    RunLast(es);
    SequenceTellsChanges(Run(Nothing(), es[..|es| - 1]), es[|es| - 1]);
  }

  /** A call that is ignored, or is about another node, changes nothing of this one's entry. */
  lemma Untold<N, C, G>(st: State<N, C, G>, e: Event<N, C, G>, n: N)
    requires !About(e, n) || Ignored(st, e)
    ensures n in Step(st, e).latest <==> n in st.latest
    ensures n in st.latest ==> Step(st, e).latest[n] == st.latest[n]
  {
    if About(e, n) {
      SequenceTellsChanges(st, e);
    }
  }

  lemma StepConnects<N, C, G>(st: State<N, C, G>, e: Event<N, C, G>, n: N)
    requires About(e, n) && !Ignored(st, e)
    ensures n in Step(st, e).latest
    ensures e.Reject? || e.Disconnect? ==> n in st.latest
    ensures var r := Step(st, e).latest[n];
      match e
      case Reject(_, _) => r.connected == st.latest[n].connected && r.lastSeenAt == st.latest[n].lastSeenAt
      case Disconnect(_, _, Some(at)) => !r.connected && r.lastSeenAt == at
      case Disconnect(_, _, None) => !r.connected && r.lastSeenAt == st.latest[n].lastSeenAt
      case _ => r.connected && r.lastSeenAt == e.at
  {
  }

  /** After any run from an empty state a node is connected if and only if the last call that changed its entry,
      rejections of samples aside, is not a disconnection; and it was last seen then. */
  lemma {:induction false} ConnectedIff<N(!new), C, G>(es: seq<Event<N, C, G>>, n: N) returns (k: nat)
    requires n in Run(Nothing(), es).latest
    ensures ToldLast(es, n, k)
    ensures var r := Run(Nothing(), es).latest[n];
      && (r.connected <==> !es[k].Disconnect?)
      && (!es[k].Disconnect? ==> r.lastSeenAt == es[k].at)
      && (es[k].Disconnect? && es[k].when.Some? ==> r.lastSeenAt == es[k].when.value)
  {
    hide Step, Ignored;
    var m := |es| - 1;
    var before, e := es[..m], es[m];
    var st := Run(Nothing(), before);
    RunLast(es);
    forall j | 0 <= j < m ensures Tells(es, n, j) <==> Tells(before, n, j) { TellsBefore(es, n, j); }
    if About(e, n) {
      TellsLast(es, n);
    }
    if About(e, n) && !Ignored(st, e) {
      StepConnects(st, e, n);
      if !e.Reject? { return m; }
    } else {
      Untold(st, e, n);
    }
    k := ConnectedIff(before, n);
  }

  /** The k-th call is the last sample accepted for the node; k is -1 if there is none. */
  ghost predicate ReadLast<N(!new), C, G>(es: seq<Event<N, C, G>>, n: N, k: int) {
    && -1 <= k < |es|
    && (k >= 0 ==> es[k].Sample? && Tells(es, n, k))
    && (forall j :: k < j < |es| && Tells(es, n, j) ==> !es[j].Sample?)
  }

  /** A rejection has told about the node since the k-th call. */
  ghost predicate RejectedSince<N(!new), C, G>(es: seq<Event<N, C, G>>, n: N, k: int) {
    exists j :: k < j < |es| && j >= 0 && es[j].Reject? && Tells(es, n, j)
  }

  lemma StepReads<N, C, G>(st: State<N, C, G>, e: Event<N, C, G>, n: N)
    requires About(e, n) && !Ignored(st, e)
    ensures n in Step(st, e).latest
    ensures var r := Step(st, e).latest[n].snapshot;
      if e.Sample? then e.body.Some? && r.gpus == e.body.value.gpus && r.error == e.body.value.error
      else if n !in st.latest then r.gpus == [] && r.error == None && !e.Reject?
      else
        && r.gpus == st.latest[n].snapshot.gpus
        && r.error == if e.Reject? then Some(REJECTED) else st.latest[n].snapshot.error
  {
  }

  lemma RejectedOneMore<N(!new), C, G>(es: seq<Event<N, C, G>>, n: N, k: int)
    requires es != [] && -1 <= k < |es| - 1
    ensures RejectedSince(es, n, k)
      <==> RejectedSince(es[..|es| - 1], n, k) || (es[|es| - 1].Reject? && Tells(es, n, |es| - 1))
  {
    forall j: nat | j < |es| - 1 ensures Tells(es, n, j) <==> Tells(es[..|es| - 1], n, j) { TellsBefore(es, n, j); }
  }

  /** After any run from an empty state a node shows the readings and the error of the last sample accepted for it,
      with the error replaced if a sample has been rejected since; without any it shows no readings. */
  lemma {:induction false} ReadingsShown<N(!new), C, G>(es: seq<Event<N, C, G>>, n: N) returns (k: int)
    requires n in Run(Nothing(), es).latest
    ensures ReadLast(es, n, k) && (k >= 0 ==> es[k].body.Some?)
    ensures var r := Run(Nothing(), es).latest[n].snapshot;
      && r.gpus == (if k >= 0 then es[k].body.value.gpus else [])
      && r.error == if RejectedSince(es, n, k) then Some(REJECTED)
                    else if k >= 0 then es[k].body.value.error else None
  {
    hide Step, Ignored, Tells;
    var m := |es| - 1;
    var before, e := es[..m], es[m];
    var st := Run(Nothing(), before);
    RunLast(es);
    forall j: nat | j < m ensures Tells(es, n, j) <==> Tells(before, n, j) { TellsBefore(es, n, j); }
    if About(e, n) && !Ignored(st, e) {
      TellsLast(es, n);
      StepReads(st, e, n);
    } else {
      QuietLast(es, n);
      Untold(st, e, n);
    }
    if About(e, n) && !Ignored(st, e) && e.Sample? {
      k := m;
    } else if n in st.latest {
      k := ReadingsShown(before, n);
      RejectedOneMore(es, n, k);
    } else {
      k := -1;
      NeverTold(before, n);
    }
  }

  lemma QuietLast<N(!new), C, G>(es: seq<Event<N, C, G>>, n: N)
    requires es != []
    requires !About(es[|es| - 1], n) || Ignored(Run(Nothing(), es[..|es| - 1]), es[|es| - 1])
    ensures !Tells(es, n, |es| - 1)
  {
    if About(es[|es| - 1], n) { TellsLast(es, n); }
  }

  /** A node without an entry has not been told of. */
  lemma {:induction false} NeverTold<N(!new), C, G>(es: seq<Event<N, C, G>>, n: N)
    requires n !in Run(Nothing(), es).latest
    ensures forall j: nat :: j < |es| ==> !Tells(es, n, j)
  {
    hide Step, Ignored, Tells;
    if es != [] {
      var m := |es| - 1;
      RunLast(es);
      var st, e := Run(Nothing(), es[..m]), es[m];
      if About(e, n) && !Ignored(st, e) {
        StepReads(st, e, n);
      } else {
        QuietLast(es, n);
        Untold(st, e, n);
      }
      NeverTold(es[..m], n);
      forall j: nat | j < m ensures Tells(es, n, j) <==> Tells(es[..m], n, j) { TellsBefore(es, n, j); }
    }
  }

  // ----- the class

  class ClusterState<N(==), C(==), G(==,!new)> {
    const history: HistoryAccumulator<G>
    var latest: map<N, Runtime<C, G>>
    var updates: nat

    ghost predicate Valid() reads this, history { history.Valid() }

    ghost function View(): State<N, C, G> reads this, history { State(latest, updates, history.seen) }

    constructor (historySize: nat)
      ensures Valid() && fresh(history) && history.size == historySize && View() == State(map[], 0, [])
    {
      history := new HistoryAccumulator(historySize);
      latest, updates := map[], 0;
    }

    method Bump()
      modifies this`updates
      ensures updates == old(updates) + 1
    {
      updates := updates + 1;
    }

    method RegisterHello(e: Event<N, C, G>)
      requires Valid() && e.Hello?
      modifies this
      ensures Valid() && View() == Step(old(View()), e)
    {
      latest := latest[e.node := Greeted(State(latest, updates, []), e)];
      Bump();
    }

    method IngestSample(e: Event<N, C, G>) returns (answer: Answer)
      requires Valid() && e.Sample?
      modifies this, history
      ensures Valid() && View() == Step(old(View()), e) && answer == SampleAnswer(old(View()), e)
    {
      if e.from.None? || e.number.None? { return Invalid; }
      var n := e.from.value;
      if n in latest && !Matches(latest[n], e.connection) { return Refused; }
      if n in latest && e.number.value <= latest[n].lastSeq { return Refused; }
      if e.body.None? { return Invalid; }
      var was := if n in latest then latest[n].identity else Identity(e.name, None, None, []);
      var identity := if e.body.value.hostname.Some? then was.(hostname := e.body.value.hostname.value) else was;
      var body := e.body.value;
      var snapshot := Snapshot(identity, Numbered(e.number.value, body.number), body.gpus, body.error);
      var _ := history.Update(snapshot.gpus);
      latest := latest[n := Runtime(identity, snapshot, e.number.value, true, e.at, e.connection)];
      Bump();
      return Accepted;
    }

    method IngestHeartbeat(e: Event<N, C, G>)
      requires Valid() && e.Heartbeat?
      modifies this
      ensures Valid() && View() == Step(old(View()), e)
    {
      if e.node !in latest {
        RegisterHello(Hello(e.node, e.name, None, None, [], e.connection, e.at));
      }
      var r := latest[e.node];
      if Matches(r, e.connection) {
        r := r.(connected := true, lastSeenAt := e.at);
        if e.seen.Some? {
          r := r.(lastSeq := if e.seen.value > r.lastSeq then e.seen.value else r.lastSeq);
        }
        latest := latest[e.node := r];
        Bump();
      }
    }

    method RejectSample(e: Event<N, C, G>)
      requires Valid() && e.Reject?
      modifies this
      ensures Valid() && View() == Step(old(View()), e)
    {
      if e.node in latest && Matches(latest[e.node], e.connection) {
        var r := latest[e.node];
        if r.snapshot.error != Some(REJECTED) {
          latest := latest[e.node := r.(snapshot := r.snapshot.(error := Some(REJECTED)))];
          Bump();
        }
      }
    }

    method DisconnectNode(e: Event<N, C, G>)
      requires Valid() && e.Disconnect?
      modifies this
      ensures Valid() && View() == Step(old(View()), e)
    {
      if e.node in latest && Matches(latest[e.node], e.connection) {
        var r := latest[e.node];
        var seen := if e.when.Some? then e.when.value else r.lastSeenAt;
        latest := latest[e.node := r.(connected := false, lastSeenAt := seen)];
        Bump();
      }
    }
  }
}
