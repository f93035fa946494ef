/** Supported-metric lists sent only when they change, and restored by the manager
    (agent.py, SupportedMetricsDelta; cluster.py, _gpu_from_dict and _performance_from_dict). */
module MetricsDelta {
  import opened Wrappers

  /** A GPU as the agent samples it. */
  datatype Perf = Perf(profile: string, status: string, supported: seq<string>)
  datatype Gpu = Gpu(uuid: string, index: nat, perf: Option<Perf>)

  /** The same on the wire: the list may be left out. */
  datatype WirePerf = WirePerf(profile: string, status: string, supported: Option<seq<string>>)
  datatype WireGpu = WireGpu(uuid: string, index: nat, perf: Option<WirePerf>)

  /** The same in the manager's latest snapshot. */
  datatype KnownPerf = KnownPerf(profile: string, supported: seq<string>)
  datatype KnownGpu = KnownGpu(uuid: string, index: nat, perf: Option<KnownPerf>)

  datatype Key = Key(uuid: string, index: nat, profile: string)

  // ----- normalising a list of names (cluster.py, lines 539-550)

  /** What Python's strip removes: the characters that str.isspace accepts. */
  predicate Blank(c: char) {
    || '\t' <= c <= '\r' || '\U{1C}' <= c <= ' ' || c == '\U{85}' || c == '\U{A0}' || c == '\U{1680}'
    || '\U{2000}' <= c <= '\U{200A}' || c == '\U{2028}' || c == '\U{2029}' || c == '\U{202F}' || c == '\U{205F}'
    || c == '\U{3000}'
  }

  function Strip(s: string): string
    decreases |s|
  {
    if s == "" then ""
    else if Blank(s[0]) then Strip(s[1..])
    else if Blank(s[|s| - 1]) then Strip(s[..|s| - 1])
    else s
  }

  function Normalise(names: seq<string>): seq<string> {
    if names == [] then []
    else
      var rest := Normalise(names[..|names| - 1]);
      var name := Strip(names[|names| - 1]);
      if name == "" || name in rest then rest else rest + [name]
  }

  ghost predicate BlankBetween(s: string, a: int, b: int) {
    0 <= a <= b <= |s| && forall k :: a <= k < b ==> Blank(s[k])
  }

  /** Stripping leaves the middle between two blank ends, and neither end of what it leaves is blank. */
  lemma {:induction false} StripMeans(s: string) returns (i: nat, j: nat)
    ensures BlankBetween(s, 0, i) && BlankBetween(s, j, |s|) && i <= j && Strip(s) == s[i..j]
    ensures i < j ==> !Blank(s[i]) && !Blank(s[j - 1])
    decreases |s|
  {
    hide Blank;
    if s == "" {
      i, j := 0, 0;
    } else if Blank(s[0]) {
      var rest := s[1..];
      var a, b := StripMeans(rest);
      i, j := a + 1, b + 1;
      BlankShift(rest, s, 1, 0, a);
      BlankShift(rest, s, 1, b, |rest|);
      SliceWithin(s, a, b);
    } else if Blank(s[|s| - 1]) {
      var rest := s[..|s| - 1];
      i, j := StripMeans(rest);
      BlankShift(rest, s, 0, 0, i);
      BlankShift(rest, s, 0, j, |rest|);
      SliceWithin(s, i, j);
    } else {
      i, j := 0, |s|;
    }
  }

  lemma SliceWithin(s: string, a: int, b: int)
    requires 0 <= a <= b < |s|
    ensures s[1..][a..b] == s[a + 1..b + 1] && s[..|s| - 1][a..b] == s[a..b]
  {
  }

  lemma BlankShift(part: string, s: string, n: nat, a: int, b: int)
    requires n + |part| <= |s| && part == s[n..n + |part|] && BlankBetween(part, a, b)
    ensures BlankBetween(s, n + a, n + b)
  {
    hide Blank;
    forall k | n + a <= k < n + b ensures Blank(s[k]) {
      assert s[k] == part[k - n];
    }
  }

  /** Name s occurs before name t does, if t occurs at all. */
  ghost predicate Earlier(names: seq<string>, s: string, t: string) {
    exists p :: 0 <= p < |names| && Strip(names[p]) == s && forall q :: 0 <= q <= p ==> Strip(names[q]) != t
  }

  ghost predicate InOrder(r: seq<string>, names: seq<string>) {
    forall i, j :: 0 <= i < j < |r| ==> r[i] != r[j] && Earlier(names, r[i], r[j])
  }

  ghost predicate Names(names: seq<string>, s: string) { exists i :: 0 <= i < |names| && Strip(names[i]) == s }

  /** A normalised list has exactly the stripped names that are not empty, each once, in order of
      first occurrence. */
  lemma {:induction false} NormaliseMeans(names: seq<string>)
    ensures forall s :: s in Normalise(names) <==> s != "" && Names(names, s)
    ensures InOrder(Normalise(names), names)
  {
    hide Strip, Earlier, Names;
    if names == [] {
      NoNames();
    } else {
      var n := |names| - 1;
      var before, s := Normalise(names[..n]), Strip(names[n]);
      NormaliseMeans(names[..n]);
      forall t { NamesOneMore(names, t); }
      forall a, b | Earlier(names[..n], a, b) ensures Earlier(names, a, b) { EarlierStill(names, a, b); }
      forall a | a in before && s !in before && s != "" ensures Earlier(names, a, s) { EarlierThanNew(names, a, s); }
    }
  }

  lemma NoNames()
    ensures forall s :: !Names([], s)
  {
  }

  lemma NamesOneMore(names: seq<string>, s: string)
    requires names != []
    ensures Names(names, s) <==> Names(names[..|names| - 1], s) || Strip(names[|names| - 1]) == s
  {
    hide Strip;
    var n := |names| - 1;
    if i :| 0 <= i < |names| && Strip(names[i]) == s && i < n {
      assert Strip(names[..n][i]) == s;
    }
    if i :| 0 <= i < n && Strip(names[..n][i]) == s {
      assert Strip(names[i]) == s;
    }
  }

  lemma EarlierStill(names: seq<string>, a: string, b: string)
    requires names != [] && Earlier(names[..|names| - 1], a, b)
    ensures Earlier(names, a, b)
  {
    hide Strip;
    var n := |names| - 1;
    var p :| 0 <= p < n && Strip(names[..n][p]) == a && forall q :: 0 <= q <= p ==> Strip(names[..n][q]) != b;
    forall q | 0 <= q <= p ensures Strip(names[q]) != b { assert Strip(names[..n][q]) != b; }
    assert Strip(names[p]) == a;
  }

  lemma EarlierThanNew(names: seq<string>, a: string, b: string)
    requires names != [] && Names(names[..|names| - 1], a) && !Names(names[..|names| - 1], b)
    ensures Earlier(names, a, b)
  {
    hide Strip;
    var n := |names| - 1;
    var p :| 0 <= p < n && Strip(names[..n][p]) == a;
    forall q | 0 <= q <= p ensures Strip(names[q]) != b { assert Strip(names[..n][q]) != b; }
    assert Strip(names[p]) == a;
  }

  // ----- the agent

  function KeyOf(g: Gpu): Key
    requires g.perf.Some?
  {
    Key(g.uuid, g.index, g.perf.value.profile)
  }

  function Whole(g: Gpu): WireGpu {
    WireGpu(g.uuid, g.index, if g.perf.None? then None
      else Some(WirePerf(g.perf.value.profile, g.perf.value.status, Some(g.perf.value.supported))))
  }

  function WithoutList(g: Gpu): WireGpu
    requires g.perf.Some?
  {
    WireGpu(g.uuid, g.index, Some(WirePerf(g.perf.value.profile, g.perf.value.status, None)))
  }

  /** Nothing new about a GPU since `previous` was recorded. */
  predicate Unchanged(previous: map<Key, seq<string>>, g: Gpu) {
    g.perf.Some? && KeyOf(g) in previous && previous[KeyOf(g)] == g.perf.value.supported
  }

  function Note(previous: map<Key, seq<string>>, g: Gpu): map<Key, seq<string>> {
    if g.perf.None? then previous else previous[KeyOf(g) := g.perf.value.supported]
  }

  function NoteAll(previous: map<Key, seq<string>>, gpus: seq<Gpu>): map<Key, seq<string>> {
    if gpus == [] then previous else Note(NoteAll(previous, gpus[..|gpus| - 1]), gpus[|gpus| - 1])
  }

  /** The payload after the delta has been applied to it, GPU by GPU. */
  function Encoded(previous: map<Key, seq<string>>, gpus: seq<Gpu>): (wire: seq<WireGpu>)
    ensures |wire| == |gpus|
  {
    if gpus == [] then []
    else
      var n := |gpus| - 1;
      Encoded(previous, gpus[..n])
      + [if Unchanged(NoteAll(previous, gpus[..n]), gpus[n]) then WithoutList(gpus[n]) else Whole(gpus[n])]
  }

  function Seen(gpus: seq<Gpu>): set<Key> {
    set g | g in gpus && g.perf.Some? :: KeyOf(g)
  }

  function Remembered(previous: map<Key, seq<string>>, gpus: seq<Gpu>): map<Key, seq<string>> {
    var all := NoteAll(previous, gpus);
    map k | k in all && k in Seen(gpus) :: all[k]
  }

  lemma EncodeOneMore(previous: map<Key, seq<string>>, gpus: seq<Gpu>, k: nat)
    requires k < |gpus|
    ensures NoteAll(previous, gpus[..k + 1]) == Note(NoteAll(previous, gpus[..k]), gpus[k])
    ensures Encoded(previous, gpus[..k + 1]) == Encoded(previous, gpus[..k])
      + [if Unchanged(NoteAll(previous, gpus[..k]), gpus[k]) then WithoutList(gpus[k]) else Whole(gpus[k])]
    ensures Seen(gpus[..k + 1]) == Seen(gpus[..k]) + if gpus[k].perf.Some? then {KeyOf(gpus[k])} else {}
  {
    assert gpus[..k + 1][..k] == gpus[..k] && gpus[..k + 1] == gpus[..k] + [gpus[k]];
  }

  class SupportedMetricsDelta {
    var enabled: bool
    var previous: map<Key, seq<string>>

    constructor ()
      ensures !enabled && previous == map[]
    {
      enabled, previous := false, map[];
    }

    method Apply(gpus: seq<Gpu>) returns (wire: seq<WireGpu>)
      modifies this`previous
      ensures wire
        == if enabled then Encoded(old(previous), gpus) else seq(|gpus|, i requires 0 <= i < |gpus| => Whole(gpus[i]))
      ensures previous == if enabled then Remembered(old(previous), gpus) else old(previous)
    {
      hide Encoded, NoteAll, Seen, Whole, WithoutList;
      if !enabled {
        return seq(|gpus|, i requires 0 <= i < |gpus| => Whole(gpus[i]));
      }
      var seen: set<Key>;
      wire, seen := ApplyAll(gpus);
      previous := map k | k in previous && k in seen :: previous[k];
    }

    method ApplyAll(gpus: seq<Gpu>) returns (wire: seq<WireGpu>, seen: set<Key>)
      modifies this`previous
      ensures wire == Encoded(old(previous), gpus) && seen == Seen(gpus)
      ensures previous == NoteAll(old(previous), gpus)
    {
      wire, seen := [], {};
      assert gpus[..0] == [];
      for k := 0 to |gpus|
        invariant wire == Encoded(old(previous), gpus[..k])
        invariant previous == NoteAll(old(previous), gpus[..k])
        invariant seen == Seen(gpus[..k])
      {
        var w, keys := ApplyOne(gpus[k]);
        EncodeOneMore(old(previous), gpus, k);
        wire, seen := wire + [w], seen + keys;
      }
      assert gpus[..|gpus|] == gpus;
    }

    /** One turn of the loop (lines 141-160). */
    method ApplyOne(g: Gpu) returns (w: WireGpu, keys: set<Key>)
      modifies this`previous
      ensures w == if Unchanged(old(previous), g) then WithoutList(g) else Whole(g)
      ensures previous == Note(old(previous), g)
      ensures keys == if g.perf.Some? then {KeyOf(g)} else {}
    {
      if g.perf.None? {
        return Whole(g), {};
      }
      var key, current := KeyOf(g), g.perf.value.supported;
      keys := {key};
      if key in previous && previous[key] == current {
        w := WithoutList(g);
        assert previous[key := current] == previous;
      } else {
        previous := previous[key := current];
        w := Whole(g);
      }
    }
  }

  // ----- the manager

  /** The last listed GPU of that identity (cluster.py, lines 348-350). */
  function Find(known: seq<KnownGpu>, uuid: string, index: nat): Option<KnownGpu> {
    if known == [] then None
    else if known[|known| - 1].uuid == uuid && known[|known| - 1].index == index then Some(known[|known| - 1])
    else Find(known[..|known| - 1], uuid, index)
  }

  /** Reads one GPU, restoring a left-out list from the previous snapshot if the profile is the same. */
  function Decode(w: WireGpu, previous: Option<KnownGpu>): KnownGpu {
    if w.perf.None? || Strip(w.perf.value.profile) == "" || Strip(w.perf.value.status) == "" then
      KnownGpu(w.uuid, w.index, None)
    else
      var profile := Strip(w.perf.value.profile);
      var supported :=
        if w.perf.value.supported.Some? then Normalise(w.perf.value.supported.value)
        else if previous.Some? && previous.value.perf.Some? && previous.value.perf.value.profile == profile then
          previous.value.perf.value.supported
        else [];
      KnownGpu(w.uuid, w.index, Some(KnownPerf(profile, supported)))
  }

  function DecodeAll(wire: seq<WireGpu>, known: seq<KnownGpu>): (r: seq<KnownGpu>)
    ensures |r| == |wire|
  {
    seq(|wire|, i requires 0 <= i < |wire| => Decode(wire[i], Find(known, wire[i].uuid, wire[i].index)))
  }

  // ----- the round trip

  /** What the manager should know after a sample: every list, normalised. */
  function Truth(g: Gpu): KnownGpu {
    KnownGpu(g.uuid, g.index,
      if g.perf.None? || Strip(g.perf.value.profile) == "" || Strip(g.perf.value.status) == "" then None
      else Some(KnownPerf(Strip(g.perf.value.profile), Normalise(g.perf.value.supported))))
  }

  function Truths(gpus: seq<Gpu>): (r: seq<KnownGpu>)
    ensures |r| == |gpus|
  {
    seq(|gpus|, i requires 0 <= i < |gpus| => Truth(gpus[i]))
  }

  /** Identities are distinct and performance records name their profile and status. */
  ghost predicate WellFormed(gpus: seq<Gpu>) {
    && (forall i, j :: 0 <= i < j < |gpus| ==> gpus[i].uuid != gpus[j].uuid || gpus[i].index != gpus[j].index)
    && (forall g :: g in gpus && g.perf.Some? ==> Strip(g.perf.value.profile) != "" && Strip(g.perf.value.status) != "")
  }

  /** Whatever the agent remembers having sent, the manager's snapshot still shows. */
  ghost predicate InStep(previous: map<Key, seq<string>>, known: seq<KnownGpu>) {
    forall k :: k in previous ==>
      Find(known, k.uuid, k.index)
      == Some(KnownGpu(k.uuid, k.index, Some(KnownPerf(Strip(k.profile), Normalise(previous[k])))))
  }

  lemma {:induction false} NotedBefore(previous: map<Key, seq<string>>, gpus: seq<Gpu>, n: nat, k: Key)
    requires n <= |gpus|
    requires forall i :: 0 <= i < n && gpus[i].perf.Some? ==> KeyOf(gpus[i]) != k
    ensures k in NoteAll(previous, gpus[..n]) <==> k in previous
    ensures k in previous ==> NoteAll(previous, gpus[..n])[k] == previous[k]
  {
    if n > 0 {
      assert gpus[..n][..n - 1] == gpus[..n - 1];
      NotedBefore(previous, gpus, n - 1, k);
    }
  }

  /** With distinct identities each GPU is compared with what was remembered before the sample. */
  lemma {:induction false} EncodedAt(previous: map<Key, seq<string>>, gpus: seq<Gpu>, n: nat, i: nat)
    requires WellFormed(gpus) && i < n <= |gpus|
    ensures Encoded(previous, gpus[..n])[i]
      == if Unchanged(previous, gpus[i]) then WithoutList(gpus[i]) else Whole(gpus[i])
  {
    assert gpus[..n][..n - 1] == gpus[..n - 1];
    if i < n - 1 {
      EncodedAt(previous, gpus, n - 1, i);
    } else if gpus[i].perf.Some? {
      NotedBefore(previous, gpus, i, KeyOf(gpus[i]));
    }
  }

  lemma {:induction false} NotedAt(previous: map<Key, seq<string>>, gpus: seq<Gpu>, n: nat, i: nat)
    requires WellFormed(gpus) && i < n <= |gpus| && gpus[i].perf.Some?
    ensures KeyOf(gpus[i]) in NoteAll(previous, gpus[..n])
    ensures NoteAll(previous, gpus[..n])[KeyOf(gpus[i])] == gpus[i].perf.value.supported
  {
    assert gpus[..n][..n - 1] == gpus[..n - 1];
    if i < n - 1 {
      NotedAt(previous, gpus, n - 1, i);
    }
  }

  lemma {:induction false} FindTruth(gpus: seq<Gpu>, n: nat, i: nat)
    requires WellFormed(gpus) && i < n <= |gpus|
    ensures Find(Truths(gpus)[..n], gpus[i].uuid, gpus[i].index) == Some(Truth(gpus[i]))
  {
    assert Truths(gpus)[..n][..n - 1] == Truths(gpus)[..n - 1];
    if i < n - 1 {
      FindTruth(gpus, n - 1, i);
    }
  }

  lemma DecodesTruth(previous: map<Key, seq<string>>, known: seq<KnownGpu>, gpus: seq<Gpu>)
    requires WellFormed(gpus) && InStep(previous, known)
    ensures DecodeAll(Encoded(previous, gpus), known) == Truths(gpus)
  {
    assert gpus[..|gpus|] == gpus;
    forall i | 0 <= i < |gpus| ensures DecodeAll(Encoded(previous, gpus), known)[i] == Truths(gpus)[i] {
      EncodedAt(previous, gpus, |gpus|, i);
      assert gpus[i] in gpus;
    }
  }

  lemma StaysInStep(previous: map<Key, seq<string>>, gpus: seq<Gpu>)
    requires WellFormed(gpus)
    ensures InStep(Remembered(previous, gpus), Truths(gpus))
  {
    var n := |gpus|;
    assert gpus[..n] == gpus && Truths(gpus)[..n] == Truths(gpus);
    forall k | k in Remembered(previous, gpus)
      ensures Find(Truths(gpus), k.uuid, k.index)
        == Some(KnownGpu(k.uuid, k.index, Some(KnownPerf(Strip(k.profile), Normalise(Remembered(previous, gpus)[k])))))
    {
      var g :| g in gpus && g.perf.Some? && KeyOf(g) == k;
      var i :| 0 <= i < n && gpus[i] == g;
      NotedAt(previous, gpus, n, i);
      FindTruth(gpus, n, i);
    }
  }

  /** One sample through an agent and manager in step: the manager learns the truth, and they stay in step. */
  lemma SampleRoundTrip(previous: map<Key, seq<string>>, known: seq<KnownGpu>, gpus: seq<Gpu>)
    requires WellFormed(gpus) && InStep(previous, known)
    ensures DecodeAll(Encoded(previous, gpus), known) == Truths(gpus)
    ensures InStep(Remembered(previous, gpus), Truths(gpus))
  {
    DecodesTruth(previous, known, gpus);
    StaysInStep(previous, gpus);
  }

  /** Sending every list needs no agreement beforehand. */
  lemma PlainRoundTrip(known: seq<KnownGpu>, gpus: seq<Gpu>)
    ensures DecodeAll(seq(|gpus|, i requires 0 <= i < |gpus| => Whole(gpus[i])), known) == Truths(gpus)
  {
  }

  // ----- whole runs

  datatype Event = Reconnect | Config(on: bool) | Sample(gpus: seq<Gpu>)

  datatype Link = Link(enabled: bool, previous: map<Key, seq<string>>, known: seq<KnownGpu>)

  function Step(link: Link, e: Event): Link {
    match e
    case Reconnect => Link(false, map[], link.known)
    case Config(on) => link.(enabled := on)
    case Sample(gpus) =>
      if link.enabled then
        Link(true, Remembered(link.previous, gpus), DecodeAll(Encoded(link.previous, gpus), link.known))
      else
        link.(known := DecodeAll(seq(|gpus|, i requires 0 <= i < |gpus| => Whole(gpus[i])), link.known))
  }

  function Run(events: seq<Event>): Link {
    if events == [] then Link(false, map[], [])
    else Step(Run(events[..|events| - 1]), events[|events| - 1])
  }

  /** Samples are well formed and the manager only ever turns the delta on (app.py, line 100). */
  ghost predicate Sound(events: seq<Event>) {
    forall e :: e in events ==> (e.Sample? ==> WellFormed(e.gpus)) && (e.Config? ==> e.on)
  }

  lemma {:induction false} RunInStep(events: seq<Event>)
    requires Sound(events)
    ensures InStep(Run(events).previous, Run(events).known)
    ensures !Run(events).enabled ==> Run(events).previous == map[]
  {
    if events != [] {
      var e := events[|events| - 1];
      RunInStep(events[..|events| - 1]);
      assert e in events;
      if e.Sample? {
        SampleRoundTrip(Run(events[..|events| - 1]).previous, Run(events[..|events| - 1]).known, e.gpus);
      }
    }
  }

  lemma RunStep(events: seq<Event>, e: Event)
    ensures Run(events + [e]) == Step(Run(events), e)
  {
    assert (events + [e])[..|events|] == events;
  }

  // ----- when the lists arrive

  /** The list the manager restores for a GPU whose own is left out. */
  function Restoration(known: seq<KnownGpu>, g: Gpu): seq<string>
    requires g.perf.Some?
  {
    var found := Find(known, g.uuid, g.index);
    if found.Some? && found.value.perf.Some? && found.value.perf.value.profile == Strip(g.perf.value.profile) then
      found.value.perf.value.supported
    else []
  }

  predicate Restores(known: seq<KnownGpu>, g: Gpu)
    requires g.perf.Some?
  {
    Restoration(known, g) == Normalise(g.perf.value.supported)
  }

  lemma DecodedAt(previous: map<Key, seq<string>>, known: seq<KnownGpu>, gpus: seq<Gpu>, i: nat)
    requires WellFormed(gpus) && i < |gpus|
    ensures DecodeAll(Encoded(previous, gpus), known)[i] == Truth(gpus[i])
      <==> (Unchanged(previous, gpus[i]) ==> Restores(known, gpus[i]))
  {
    EncodedAt(previous, gpus, |gpus|, i);
    assert gpus[..|gpus|] == gpus && gpus[i] in gpus;
  }

  lemma DecodedIff(previous: map<Key, seq<string>>, known: seq<KnownGpu>, gpus: seq<Gpu>)
    requires WellFormed(gpus)
    ensures DecodeAll(Encoded(previous, gpus), known) == Truths(gpus)
      <==> forall g :: g in gpus && Unchanged(previous, g) ==> Restores(known, g)
  {
    hide Decode, Truth, Restores, WellFormed, Encoded, KeyOf;
    var decoded := DecodeAll(Encoded(previous, gpus), known);
    forall i | 0 <= i < |gpus|
      ensures decoded[i] == Truth(gpus[i]) <==> (Unchanged(previous, gpus[i]) ==> Restores(known, gpus[i]))
    {
      DecodedAt(previous, known, gpus, i);
    }
    if decoded == Truths(gpus) {
      forall g | g in gpus && Unchanged(previous, g) ensures Restores(known, g) {
        var i :| 0 <= i < |gpus| && gpus[i] == g;
        assert decoded[i] == Truths(gpus)[i];
      }
    }
  }

  /** Whatever happened before, flags turned on and off included, a sample's lists arrive if and only if
      for every GPU whose list is left out the manager still shows that list. */
  lemma RoundTripIff(events: seq<Event>, gpus: seq<Gpu>)
    requires WellFormed(gpus)
    ensures var link := Run(events);
      Run(events + [Sample(gpus)]).known == Truths(gpus)
      <==> (link.enabled ==> forall g :: g in gpus && Unchanged(link.previous, g) ==> Restores(link.known, g))
  {
    RunStep(events, Sample(gpus));
    DecodedIff(Run(events).previous, Run(events).known, gpus);
    PlainRoundTrip(Run(events).known, gpus);
  }

  /** Through every run, across GPUs coming and going, profile changes and reconnects, the manager's lists
      after each sample are the agent's lists, normalised. */
  lemma RunRoundTrip(events: seq<Event>, gpus: seq<Gpu>)
    requires Sound(events) && WellFormed(gpus)
    ensures Run(events + [Sample(gpus)]).known == Truths(gpus)
  {
    RunInStep(events);
    RoundTripIff(events, gpus);
  }

  // ----- the same condition over what was sent

  predicate FlagOn(events: seq<Event>) {
    events != [] &&
    var n := |events| - 1;
    match events[n]
    case Reconnect => false
    case Config(on) => on
    case Sample(_) => FlagOn(events[..n])
  }

  /** The sample sent last. */
  function LastSent(events: seq<Event>): seq<Gpu> {
    if events == [] then []
    else
      var n := |events| - 1;
      if events[n].Sample? then events[n].gpus else LastSent(events[..n])
  }

  /** The sample sent last under the delta in this connection. */
  function LastDelta(events: seq<Event>): seq<Gpu> {
    if events == [] then []
    else
      var n := |events| - 1;
      match events[n]
      case Reconnect => []
      case Config(_) => LastDelta(events[..n])
      case Sample(gpus) => if FlagOn(events[..n]) then gpus else LastDelta(events[..n])
  }

  predicate SameList(d: Gpu, g: Gpu)
    requires g.perf.Some?
  {
    d.perf.Some? && KeyOf(d) == KeyOf(g) && d.perf.value.supported == g.perf.value.supported
  }

  /** The sample has the GPU's list under the same key. */
  ghost predicate Lists(sample: seq<Gpu>, g: Gpu) {
    g.perf.Some? && exists d :: d in sample && SameList(d, g)
  }

  /** The list the sample has for a GPU under its profile, or none. */
  function ListOf(sample: seq<Gpu>, g: Gpu): seq<string>
    requires g.perf.Some?
  {
    if sample == [] then []
    else
      var last := sample[|sample| - 1];
      if last.uuid == g.uuid && last.index == g.index && last.perf.Some?
        && Strip(last.perf.value.profile) == Strip(g.perf.value.profile) then last.perf.value.supported
      else ListOf(sample[..|sample| - 1], g)
  }

  /** A list that goes back to what was last sent under the delta is also the one last sent. */
  ghost predicate NoneStale(events: seq<Event>, gpus: seq<Gpu>) {
    FlagOn(events) ==> forall g :: g in gpus && Lists(LastDelta(events), g) ==>
      Normalise(ListOf(LastSent(events), g)) == Normalise(g.perf.value.supported)
  }

  ghost predicate SamplesFormed(events: seq<Event>) { forall e :: e in events && e.Sample? ==> WellFormed(e.gpus) }

  ghost predicate AllArrive(events: seq<Event>) {
    forall n :: 0 <= n < |events| && events[n].Sample? ==> Run(events[..n + 1]).known == Truths(events[n].gpus)
  }

  ghost predicate NeverStale(events: seq<Event>) {
    forall n :: 0 <= n < |events| && events[n].Sample? ==> NoneStale(events[..n], events[n].gpus)
  }

  lemma RememberedLists(previous: map<Key, seq<string>>, sample: seq<Gpu>, g: Gpu)
    requires WellFormed(sample)
    ensures Unchanged(Remembered(previous, sample), g) <==> Lists(sample, g)
  {
    assert sample[..|sample|] == sample;
    forall i | 0 <= i < |sample| && sample[i].perf.Some?
      ensures KeyOf(sample[i]) in Remembered(previous, sample)
      ensures Remembered(previous, sample)[KeyOf(sample[i])] == sample[i].perf.value.supported
    {
      NotedAt(previous, sample, |sample|, i);
      assert sample[i] in sample;
    }
  }

  lemma {:induction false} FlagIsOn(events: seq<Event>)
    ensures Run(events).enabled == FlagOn(events)
  {
    hide Remembered, Encoded, DecodeAll;
    if events != [] {
      FlagIsOn(events[..|events| - 1]);
    }
  }

  lemma {:induction false} DeltaRemembered(events: seq<Event>, g: Gpu)
    requires SamplesFormed(events)
    ensures Unchanged(Run(events).previous, g) <==> Lists(LastDelta(events), g)
  {
    hide Lists, Remembered, Encoded, DecodeAll, WellFormed;
    if events == [] {
      NoLists(g);
    } else {
      var n := |events| - 1;
      FlagIsOn(events[..n]);
      DeltaRemembered(events[..n], g);
      assert events[n] in events;
      match events[n]
      case Reconnect => NoLists(g);
      case Config(_) =>
      case Sample(gpus) => RememberedLists(Run(events[..n]).previous, gpus, g);
    }
  }

  lemma NoLists(g: Gpu)
    ensures !Lists([], g)
  {
  }

  lemma {:induction false} RestoresListed(sample: seq<Gpu>, n: nat, g: Gpu)
    requires WellFormed(sample) && n <= |sample| && g.perf.Some? && Strip(g.perf.value.profile) != ""
    ensures Restoration(Truths(sample)[..n], g) == Normalise(ListOf(sample[..n], g))
  {
    hide Strip, Normalise;
    if n == 0 {
      assert Normalise([]) == [] by { NormalisedNone(); }
    } else {
      LastOf(Truths(sample), n);
      LastOf(sample, n);
      assert Truths(sample)[n - 1] == Truth(sample[n - 1]) && sample[n - 1] in sample;
      RestoresListed(sample, n - 1, g);
      if sample[n - 1].uuid == g.uuid && sample[n - 1].index == g.index {
        NotListed(sample, n - 1, g);
        NormalisedNone();
      }
    }
  }

  lemma NormalisedNone()
    ensures Normalise([]) == []
  {
  }

  lemma LastOf<T>(s: seq<T>, n: nat)
    requires 0 < n <= |s|
    ensures s[..n] != [] && s[..n][|s[..n]| - 1] == s[n - 1] && s[..n][..|s[..n]| - 1] == s[..n - 1]
  {
  }

  lemma {:induction false} NotListed(sample: seq<Gpu>, n: nat, g: Gpu)
    requires n <= |sample| && g.perf.Some?
    requires forall i :: 0 <= i < n ==> sample[i].uuid != g.uuid || sample[i].index != g.index
    ensures ListOf(sample[..n], g) == []
  {
    if n > 0 {
      assert sample[..n][..n - 1] == sample[..n - 1];
      NotListed(sample, n - 1, g);
    }
  }

  lemma {:induction false} ArrivedLast(events: seq<Event>)
    requires AllArrive(events)
    ensures Run(events).known == Truths(LastSent(events))
  {
    hide Truths;
    if events == [] {
      assert Truths([]) == [];
    } else {
      var n := |events| - 1;
      assert events[..n + 1] == events && events[..n] + [events[n]] == events;
      OneMoreArrives(events[..n], events[n]);
      ArrivedLast(events[..n]);
    }
  }

  lemma OneMoreArrives(events: seq<Event>, e: Event)
    ensures AllArrive(events + [e])
      <==> AllArrive(events) && (e.Sample? ==> Run(events + [e]).known == Truths(e.gpus))
    ensures NeverStale(events + [e]) <==> NeverStale(events) && (e.Sample? ==> NoneStale(events, e.gpus))
  {
    hide Truths, Run, NoneStale;
    var more, n := events + [e], |events|;
    assert more[..n] == events && more[..n + 1] == more;
    forall m {:trigger more[m]} | 0 <= m < n
      ensures more[m] == events[m] && more[..m] == events[..m] && more[..m + 1] == events[..m + 1]
    {
    }
  }

  lemma {:induction false} LastFormed(events: seq<Event>)
    requires SamplesFormed(events)
    ensures WellFormed(LastSent(events))
  {
    if events != [] {
      assert events[|events| - 1] in events;
      LastFormed(events[..|events| - 1]);
    }
  }

  lemma ArrivesIff(events: seq<Event>, gpus: seq<Gpu>)
    requires SamplesFormed(events) && WellFormed(gpus) && AllArrive(events)
    ensures Run(events + [Sample(gpus)]).known == Truths(gpus) <==> NoneStale(events, gpus)
  {
    hide Restoration, Lists, Normalise, Strip, Truths, Run, AllArrive, SamplesFormed, KeyOf, WellFormed;
    RoundTripIff(events, gpus);
    FlagIsOn(events);
    ArrivedLast(events);
    LastFormed(events);
    var sent := LastSent(events);
    forall g | g in gpus ensures Unchanged(Run(events).previous, g) <==> Lists(LastDelta(events), g) {
      DeltaRemembered(events, g);
    }
    forall g | g in gpus && g.perf.Some? ensures Restoration(Run(events).known, g) == Normalise(ListOf(sent, g)) {
      NamesProfile(gpus, g);
      RestoresListed(sent, |sent|, g);
      assert sent[..|sent|] == sent && Truths(sent)[..|sent|] == Truths(sent);
    }
  }

  lemma NamesProfile(gpus: seq<Gpu>, g: Gpu)
    requires WellFormed(gpus) && g in gpus && g.perf.Some?
    ensures Strip(g.perf.value.profile) != ""
  {
  }

  /** Over a whole run with the flag turned on and off at will, every sample's lists arrive if and only if
      no sample ever goes back to a list last sent under the delta while another was sent in full since. */
  lemma {:induction false} AllArriveIff(events: seq<Event>)
    requires SamplesFormed(events)
    ensures AllArrive(events) <==> NeverStale(events)
  {
    hide Truths, WellFormed, Run, NoneStale;
    if events != [] {
      var before, e := events[..|events| - 1], events[|events| - 1];
      assert before + [e] == events && e in events;
      AllArriveIff(before);
      OneMoreArrives(before, e);
      if e.Sample? && AllArrive(before) {
        ArrivesIff(before, e.gpus);
      }
    }
  }

  lemma AloneEncoded(previous: map<Key, seq<string>>, g: Gpu)
    ensures Encoded(previous, [g]) == [if Unchanged(previous, g) then WithoutList(g) else Whole(g)]
    ensures Remembered(previous, [g]) == if g.perf.Some? then map[KeyOf(g) := g.perf.value.supported] else map[]
  {
    assert [g][..0] == [];
    assert NoteAll(previous, [g]) == Note(previous, g);
    assert Seen([g]) == if g.perf.Some? then {KeyOf(g)} else {};
  }

  /** Turning the delta off and on again within a connection breaks it: the list sent meanwhile in full is
      not remembered, so going back to the earlier list leaves the manager with the meanwhile one. */
  lemma FlagOffBreaks(g: Gpu, meanwhile: Gpu)
    requires WellFormed([g]) && WellFormed([meanwhile]) && g.perf.Some? && meanwhile.perf.Some?
    requires KeyOf(g) == KeyOf(meanwhile)
    requires Normalise(g.perf.value.supported) != Normalise(meanwhile.perf.value.supported)
    ensures Run([Config(true), Sample([g]), Config(false), Sample([meanwhile]), Config(true), Sample([g])]).known
         == Truths([meanwhile]) != Truths([g])
  {
    var e1 := [Config(true)];
    var e2, e3 := e1 + [Sample([g])], e1 + [Sample([g])] + [Config(false)];
    var e4, e5 := e3 + [Sample([meanwhile])], e3 + [Sample([meanwhile])] + [Config(true)];
    RunStep([], Config(true));
    RunStep(e1, Sample([g]));
    AloneEncoded(map[], g);
    RunStep(e2, Config(false));
    RunStep(e3, Sample([meanwhile]));
    PlainRoundTrip(Run(e3).known, [meanwhile]);
    RunStep(e4, Config(true));
    RunStep(e5, Sample([g]));
    AloneEncoded(Run(e5).previous, g);
    assert [] + [Config(true)] == e1;
    assert e5 + [Sample([g])]
      == [Config(true), Sample([g]), Config(false), Sample([meanwhile]), Config(true), Sample([g])];
    Restored(g, meanwhile);
  }

  lemma Restored(g: Gpu, meanwhile: Gpu)
    requires WellFormed([g]) && WellFormed([meanwhile]) && g.perf.Some? && meanwhile.perf.Some?
    requires KeyOf(g) == KeyOf(meanwhile)
    requires Normalise(g.perf.value.supported) != Normalise(meanwhile.perf.value.supported)
    ensures DecodeAll([WithoutList(g)], Truths([meanwhile])) == Truths([meanwhile]) != Truths([g])
  {
    assert g in [g] && meanwhile in [meanwhile];
    var known := Truths([meanwhile]);
    assert known == [Truth(meanwhile)];
    assert Find(known, g.uuid, g.index) == Some(Truth(meanwhile));
    assert Truths([g]) == [Truth(g)];
  }
}
