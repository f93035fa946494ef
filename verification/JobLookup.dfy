/** Printing, parsing and looking up job keys (analytics.py, job_key; highres.py, get_job,
    _job_rows and _group_jobs). How a float is printed and parsed is a parameter. */
module JobLookup {
  import Intervals
  import opened Wrappers

  const PARENT_AGE: int := 600 * Intervals.SECOND
  const MAX_PID: int := 0x7fff_ffff_ffff_ffff

  /** A session joined with one of its GPU usages; times are ticks. */
  datatype Row = Row(
    session: nat, node: string, user: Option<string>, pid: Option<int>, ppid: Option<int>,
    processStart: Option<int>, parentStart: Option<int>, firstSeen: int, lastSeen: int,
    running: bool, task: string, gpu: string)

  /** How times are printed: without colons, and as something that reads as a finite number. */
  datatype Clock = Clock(show: int -> string, finite: string -> bool)

  ghost predicate Sane(clock: Clock) {
    forall t :: NoColon(clock.show(t)) && clock.finite(clock.show(t))
  }

  predicate NoColon(s: string) { ':' !in s }

  // ----- printing (analytics.py, lines 153-169)

  /** Python's `a or b` on numbers that may be missing: zero counts as missing. */
  function OrElse(a: Option<int>, b: Option<int>): Option<int> {
    if a.Some? && a.value != 0 then a else b
  }

  predicate ByParent(r: Row) {
    var start := OrElse(r.processStart, Some(r.firstSeen));
    && start.Some? && r.parentStart.Some? && r.ppid.Some?
    && 0 <= start.value - r.parentStart.value <= PARENT_AGE
  }

  function StartOf(r: Row): int {
    if ByParent(r) then r.parentStart.value
    else
      var start := OrElse(OrElse(OrElse(r.processStart, Some(r.firstSeen)), r.parentStart), Some(r.firstSeen));
      start.value
  }

  function OwnerOf(r: Row): Option<int> {
    if ByParent(r) then r.ppid else OrElse(r.pid, r.ppid)
  }

  function UserText(r: Row): string {
    if r.user.None? || r.user.value == "" then "unknown" else r.user.value
  }

  function Digit(d: nat): char
    requires d < 10
  {
    (d + '0' as int) as char
  }

  function Decimal(n: nat): (s: string)
    ensures s != "" && NoColon(s)
  {
    if n < 10 then [Digit(n)] else Decimal(n / 10) + [Digit(n % 10)]
  }

  function OwnerText(o: Option<int>): (s: string)
    ensures NoColon(s)
  {
    if o.None? then "None" else if o.value < 0 then "-" + Decimal(-o.value) else Decimal(o.value)
  }

  function JobKey(r: Row, clock: Clock): string {
    r.node + ":" + UserText(r) + ":" + clock.show(StartOf(r)) + ":" + OwnerText(OwnerOf(r))
  }

  /** A process that began at most ten minutes after its parent goes by the parent's beginning and pid. Any other
      goes by its own, where a missing or zero time or pid is replaced: the time by when it was
      first seen, then by the parent's, and the pid by the parent's. */
  lemma KeyNames(r: Row, clock: Clock)
    ensures var own := r.processStart;
      var began := if own.Some? && own.value != 0 then own.value else r.firstSeen;
      var named := r.node + ":" + (if r.user.Some? && r.user.value != "" then r.user.value else "unknown") + ":";
      if r.parentStart.Some? && r.ppid.Some? && 0 <= began - r.parentStart.value <= 600 * 0x40_0000 then
        JobKey(r, clock) == named + clock.show(r.parentStart.value) + ":" + OwnerText(r.ppid)
      else
        JobKey(r, clock) == named
          + clock.show(if began == 0 && r.parentStart.Some? then r.parentStart.value else began)
          + ":" + OwnerText(if r.pid.Some? && r.pid.value != 0 then r.pid else r.ppid)
  {
    assert r.node + ":" + UserText(r) + ":" == r.node + ":" + (UserText(r) + ":");
  }

  // ----- parsing (highres.py, lines 312-321)

  predicate IsDigit(c: char) { '0' <= c <= '9' }

  function ParseNat(s: string): Option<nat> {
    if s == "" || !IsDigit(s[|s| - 1]) then None
    else
      var last := s[|s| - 1] as int - '0' as int;
      if |s| == 1 then Some(last)
      else
        var rest := ParseNat(s[..|s| - 1]);
        if rest.None? then None else Some(rest.value * 10 + last)
  }

  function ParseInt(s: string): Option<int> {
    if s != "" && s[0] == '-' then
      var n := ParseNat(s[1..]);
      if n.None? then None else Some(0 - n.value)
    else ParseNat(s)
  }

  lemma {:induction false} ParseDecimal(n: nat)
    ensures ParseNat(Decimal(n)) == Some(n)
    ensures IsDigit(Decimal(n)[0])
  {
    if n >= 10 {
      ParseDecimal(n / 10);
      var s := Decimal(n);
      assert s[..|s| - 1] == Decimal(n / 10);
    }
  }

  lemma ParseOwner(o: Option<int>)
    ensures ParseInt(OwnerText(o)) == o
  {
    if o.None? {
      assert OwnerText(o)[|OwnerText(o)| - 1] == 'e';
    } else if o.value < 0 {
      ParseDecimal(-o.value);
      assert OwnerText(o)[1..] == Decimal(-o.value);
    } else {
      ParseDecimal(o.value);
    }
  }

  /** Splits at the last colon. */
  function Cut(s: string): Option<(string, string)> {
    if s == "" then None
    else if s[|s| - 1] == ':' then Some((s[..|s| - 1], ""))
    else
      var rest := Cut(s[..|s| - 1]);
      if rest.None? then None else Some((rest.value.0, rest.value.1 + [s[|s| - 1]]))
  }

  lemma {:induction false} CutJoined(a: string, b: string)
    requires NoColon(b)
    ensures Cut(a + ":" + b) == Some((a, b))
  {
    var s := a + ":" + b;
    if b == "" {
      assert s[..|s| - 1] == a;
    } else {
      var n := |b| - 1;
      CutJoined(a, b[..n]);
      assert b[n] in b;
      assert s[..|s| - 1] == a + ":" + b[..n];
      assert b[..n] + [b[n]] == b;
    }
  }

  lemma {:induction false} CutMeans(s: string)
    requires Cut(s).Some?
    ensures NoColon(Cut(s).value.1) && s == Cut(s).value.0 + ":" + Cut(s).value.1
  {
    if s[|s| - 1] == ':' {
      assert s == s[..|s| - 1] + ":" + "";
    } else {
      CutMeans(s[..|s| - 1]);
      assert s == s[..|s| - 1] + [s[|s| - 1]];
    }
  }

  datatype Parts = Parts(node: string, user: string, start: string, owner: string)

  /** key.rsplit(":", 3) into four parts. */
  function Split(key: string): Option<Parts> {
    var a := Cut(key);
    if a.None? then None
    else
      var b := Cut(a.value.0);
      if b.None? then None
      else
        var c := Cut(b.value.0);
        if c.None? then None else Some(Parts(c.value.0, c.value.1, b.value.1, a.value.1))
  }

  /** What a printed key parses to: its node takes any part of the user before a last colon. */
  lemma SplitKey(r: Row, clock: Clock)
    requires Sane(clock)
    ensures var p := Split(JobKey(r, clock));
      && p.Some? && p.value.start == clock.show(StartOf(r)) && p.value.owner == OwnerText(OwnerOf(r))
      && NoColon(p.value.user) && p.value.node + ":" + p.value.user == r.node + ":" + UserText(r)
  {
    var named := r.node + ":" + UserText(r);
    CutJoined(named + ":" + clock.show(StartOf(r)), OwnerText(OwnerOf(r)));
    CutJoined(named, clock.show(StartOf(r)));
    CutExists(named, |r.node|);
    CutMeans(named);
  }

  lemma {:induction false} CutExists(s: string, i: nat)
    requires i < |s| && s[i] == ':'
    ensures Cut(s).Some?
  {
    if s[|s| - 1] != ':' {
      CutExists(s[..|s| - 1], i);
    }
  }

  // ----- selecting rows (highres.py, lines 487-531)

  function Filter<T>(rows: seq<T>, keep: T -> bool): seq<T> {
    if rows == [] then []
    else
      var before := Filter(rows[..|rows| - 1], keep);
      if keep(rows[|rows| - 1]) then before + [rows[|rows| - 1]] else before
  }

  predicate InRange(r: Row, since: Option<int>) { since.Some? ==> r.lastSeen >= since.value }

  /** s.user = ?, or COALESCE(s.user, 'unknown') = ? for the user called unknown. */
  predicate UserIs(r: Row, user: string) {
    if r.user.None? then user == "unknown" else r.user.value == user
  }

  predicate Selected(r: Row, p: Parts, owner: int) {
    r.node == p.node && UserIs(r, p.user) && (r.pid == Some(owner) || r.ppid == Some(owner))
  }

  // ----- grouping (highres.py, lines 534-597)

  /** A job before its sessions, pids and GPUs are sorted for output; a session's own fields are
      those of its first row. */
  datatype Job = Job(node: string, user: string, task: string, startedAt: int, lastSeenAt: int, running: bool,
                     sessions: map<nat, Row>, pids: set<int>, gpus: set<(string, string)>)

  function Opened(r: Row): Job {
    Job(r.node, UserText(r), r.task, r.firstSeen, r.lastSeen, r.running, map[], {}, {})
  }

  function Joined(job: Job, r: Row): Job {
    var session := if r.session in job.sessions then job.sessions[r.session] else r;
    job.(startedAt := if r.firstSeen < job.startedAt then r.firstSeen else job.startedAt,
         lastSeenAt := if r.lastSeen > job.lastSeenAt then r.lastSeen else job.lastSeenAt,
         running := job.running || r.running,
         sessions := job.sessions[r.session :=
           session.(lastSeen := if r.lastSeen > session.lastSeen then r.lastSeen else session.lastSeen)],
         pids := job.pids + (if r.pid.Some? then {r.pid.value} else {}),
         gpus := job.gpus + {(r.node, r.gpu)})
  }

  function Grouped(rows: seq<Row>): Job
    requires rows != []
  {
    if |rows| == 1 then Joined(Opened(rows[0]), rows[0])
    else Joined(Grouped(rows[..|rows| - 1]), rows[|rows| - 1])
  }

  function OfKey(rows: seq<Row>, key: string, clock: Clock): seq<Row> {
    Filter(rows, r => JobKey(r, clock) == key)
  }

  /** Each key's job is the group of exactly its rows. */
  ghost predicate IsGrouping(jobs: map<string, Job>, rows: seq<Row>, clock: Clock) {
    forall key :: Entry(jobs, key) == JobOf(rows, key, clock)
  }

  function Entry(jobs: map<string, Job>, key: string): Option<Job> {
    if key in jobs then Some(jobs[key]) else None
  }

  function JobOf(rows: seq<Row>, key: string, clock: Clock): Option<Job> {
    var mine := OfKey(rows, key, clock);
    if mine == [] then None else Some(Grouped(mine))
  }

  lemma OfKeyAppend(rows: seq<Row>, r: Row, key: string, clock: Clock)
    ensures OfKey(rows + [r], key, clock)
      == if JobKey(r, clock) == key then OfKey(rows, key, clock) + [r] else OfKey(rows, key, clock)
  {
    assert (rows + [r])[..|rows|] == rows;
  }

  lemma GroupedAppend(rows: seq<Row>, r: Row)
    requires rows != []
    ensures Grouped(rows + [r]) == Joined(Grouped(rows), r)
  {
    assert (rows + [r])[..|rows|] == rows;
  }

  lemma GroupingStep(jobs: map<string, Job>, rows: seq<Row>, r: Row, clock: Clock)
    requires IsGrouping(jobs, rows, clock)
    ensures var key := JobKey(r, clock);
      IsGrouping(jobs[key := Joined(if key in jobs then jobs[key] else Opened(r), r)], rows + [r], clock)
  {
    hide Joined, Opened, JobKey, Filter, OfKey, Grouped;
    var key := JobKey(r, clock);
    var next := jobs[key := Joined(if key in jobs then jobs[key] else Opened(r), r)];
    forall k ensures Entry(next, k) == JobOf(rows + [r], k, clock) {
      OfKeyAppend(rows, r, k, clock);
      assert Entry(jobs, k) == JobOf(rows, k, clock);
      if k == key {
        if OfKey(rows, k, clock) == [] {
          GroupedOne(r);
        } else {
          GroupedAppend(OfKey(rows, k, clock), r);
        }
      }
    }
  }

  lemma GroupedOne(r: Row)
    ensures Grouped([] + [r]) == Joined(Opened(r), r)
  {
  }

  method GroupJobs(rows: seq<Row>, clock: Clock) returns (jobs: map<string, Job>)
    ensures IsGrouping(jobs, rows, clock)
  {
    hide Joined, Opened, JobKey, IsGrouping;
    jobs := map[];
    GroupingOfNone(clock);
    var i := 0;
    while i < |rows|
      invariant 0 <= i <= |rows| && IsGrouping(jobs, rows[..i], clock)
    {
      var key := JobKey(rows[i], clock);
      var job := if key in jobs then jobs[key] else Opened(rows[i]);
      GroupingStep(jobs, rows[..i], rows[i], clock);
      assert rows[..i + 1] == rows[..i] + [rows[i]];
      jobs := jobs[key := Joined(job, rows[i])];
      i := i + 1;
    }
    assert rows[..i] == rows;
  }

  lemma GroupingOfNone(clock: Clock)
    ensures IsGrouping(map[], [], clock)
  {
  }

  /** get_job: narrow the rows by the parsed key, group them, and look the key up. */
  method GetJob(rows: seq<Row>, key: string, since: Option<int>, clock: Clock) returns (job: Option<Job>)
    ensures job == Narrowed(rows, key, since, clock)
  {
    var parts := Split(key);
    if parts.None? { return None; }
    var owner := ParseInt(parts.value.owner);
    if owner.None? || !clock.finite(parts.value.start) || !(0 < owner.value <= MAX_PID) { return None; }
    var jobs := GroupJobs(NarrowRows(rows, parts.value, owner.value, since), clock);
    return Entry(jobs, key);
  }

  function NarrowRows(rows: seq<Row>, p: Parts, owner: int, since: Option<int>): seq<Row> {
    Filter(rows, r => Selected(r, p, owner) && InRange(r, since))
  }

  function Narrowed(rows: seq<Row>, key: string, since: Option<int>, clock: Clock): Option<Job> {
    var parts := Split(key);
    if parts.None? then None
    else
      var owner := ParseInt(parts.value.owner);
      if owner.None? || !clock.finite(parts.value.start) || !(0 < owner.value <= MAX_PID) then None
      else JobOf(NarrowRows(rows, parts.value, owner.value, since), key, clock)
  }

  /** Grouping everything in the range and looking the key up. */
  function Full(rows: seq<Row>, key: string, since: Option<int>, clock: Clock): Option<Job> {
    JobOf(Filter(rows, r => InRange(r, since)), key, clock)
  }

  // ----- what a group is

  /** What a single row can say of its job. */
  datatype Fact = Starts(at: int) | Ends(at: int) | Runs | OfSession(session: nat) | OfPid(pid: int)
    | OnGpu(node: string, gpu: string)

  predicate Says(r: Row, f: Fact) {
    match f
    case Starts(at) => r.firstSeen == at
    case Ends(at) => r.lastSeen == at
    case Runs => r.running
    case OfSession(k) => r.session == k
    case OfPid(k) => r.pid == Some(k)
    case OnGpu(n, g) => r.node == n && r.gpu == g
  }

  ghost predicate SomeSays(rows: seq<Row>, f: Fact) { exists i :: 0 <= i < |rows| && Says(rows[i], f) }

  /** What the job says: its start and end are those of some row. */
  predicate JobSays(job: Job, f: Fact) {
    match f
    case Starts(at) => job.startedAt == at
    case Ends(at) => job.lastSeenAt == at
    case Runs => job.running
    case OfSession(k) => k in job.sessions
    case OfPid(k) => k in job.pids
    case OnGpu(n, g) => (n, g) in job.gpus
  }

  ghost predicate Spans(job: Job, rows: seq<Row>) {
    forall i :: 0 <= i < |rows| ==> job.startedAt <= rows[i].firstSeen && rows[i].lastSeen <= job.lastSeenAt
  }

  /** The earliest start, the latest end, and exactly the sessions, pids and GPUs of the rows. */
  ghost predicate Summarises(job: Job, rows: seq<Row>)
    requires rows != []
  {
    && job.node == rows[0].node && job.user == UserText(rows[0]) && job.task == rows[0].task
    && Spans(job, rows)
    && (forall f :: JobSays(job, f) ==> SomeSays(rows, f))
    && (forall f :: SomeSays(rows, f) && !f.Starts? && !f.Ends? ==> JobSays(job, f))
  }

  lemma SomeSaysAppend(rows: seq<Row>, x: Row, f: Fact)
    ensures SomeSays(rows + [x], f) <==> SomeSays(rows, f) || Says(x, f)
  {
    hide Says;
    var longer := rows + [x];
    assert longer[|rows|] == x;
    if i :| 0 <= i < |rows| && Says(rows[i], f) {
      assert Says(longer[i], f);
    }
  }

  lemma JoinedSays(job: Job, x: Row, f: Fact)
    ensures JobSays(Joined(job, x), f) ==> JobSays(job, f) || Says(x, f)
    ensures (JobSays(job, f) || Says(x, f)) && !f.Starts? && !f.Ends? ==> JobSays(Joined(job, x), f)
    ensures JobSays(Joined(Opened(x), x), f) <==> Says(x, f)
  {
  }

  lemma SpansJoined(job: Job, rows: seq<Row>, x: Row)
    requires Spans(job, rows)
    ensures Spans(Joined(job, x), rows + [x])
    ensures Spans(Joined(Opened(x), x), [x])
  {
  }

  lemma {:induction false} GroupedSays(rows: seq<Row>, f: Fact)
    requires rows != []
    ensures JobSays(Grouped(rows), f) ==> SomeSays(rows, f)
    ensures SomeSays(rows, f) && !f.Starts? && !f.Ends? ==> JobSays(Grouped(rows), f)
  {
    hide SomeSays, Says, JobSays, Joined;
    var n := |rows| - 1;
    var before, x := rows[..n], rows[n];
    assert rows == before + [x];
    SomeSaysAppend(before, x, f);
    if n > 0 {
      GroupedSays(before, f);
      JoinedSays(Grouped(before), x, f);
    } else {
      NoneSays();
      JoinedSays(Opened(x), x, f);
    }
  }

  lemma {:induction false} GroupedSpans(rows: seq<Row>)
    requires rows != []
    ensures Spans(Grouped(rows), rows)
    ensures Grouped(rows).node == rows[0].node && Grouped(rows).user == UserText(rows[0])
    ensures Grouped(rows).task == rows[0].task
  {
    var n := |rows| - 1;
    assert rows == rows[..n] + [rows[n]];
    if n > 0 {
      GroupedSpans(rows[..n]);
      SpansJoined(Grouped(rows[..n]), rows[..n], rows[n]);
    }
  }

  lemma GroupedSummarises(rows: seq<Row>)
    requires rows != []
    ensures Summarises(Grouped(rows), rows)
  {
    hide SomeSays, JobSays, Spans, Grouped;
    GroupedSpans(rows);
    forall f
      ensures JobSays(Grouped(rows), f) ==> SomeSays(rows, f)
      ensures SomeSays(rows, f) && !f.Starts? && !f.Ends? ==> JobSays(Grouped(rows), f)
    {
      GroupedSays(rows, f);
    }
  }

  // ----- what a job says of a session

  /** The i-th row is the first of its session. */
  predicate IsFirst(rows: seq<Row>, i: nat, session: nat) {
    i < |rows| && rows[i].session == session && forall j :: 0 <= j < i ==> rows[j].session != session
  }

  /** A session's entry is its first row, but last seen when the latest of its rows was. */
  ghost predicate OfItsRows(entry: Row, rows: seq<Row>, session: nat) {
    && (exists i: nat :: IsFirst(rows, i, session) && entry == rows[i].(lastSeen := entry.lastSeen))
    && (exists j :: 0 <= j < |rows| && rows[j].session == session && rows[j].lastSeen == entry.lastSeen)
    && (forall j :: 0 <= j < |rows| && rows[j].session == session ==> rows[j].lastSeen <= entry.lastSeen)
  }

  lemma OfItsRowsOneMore(entry: Row, rows: seq<Row>, x: Row, session: nat)
    requires OfItsRows(entry, rows, session)
    ensures var later := x.session == session && x.lastSeen > entry.lastSeen;
      OfItsRows(if later then entry.(lastSeen := x.lastSeen) else entry, rows + [x], session)
  {
    var longer := rows + [x];
    var i: nat :| IsFirst(rows, i, session) && entry == rows[i].(lastSeen := entry.lastSeen);
    assert IsFirst(longer, i, session) && longer[i] == rows[i] && longer[|rows|] == x;
    var j :| 0 <= j < |rows| && rows[j].session == session && rows[j].lastSeen == entry.lastSeen;
    assert longer[j] == rows[j];
  }

  lemma {:induction false} SessionsOfRows(rows: seq<Row>, session: nat)
    requires rows != []
    ensures session in Grouped(rows).sessions <==> exists i :: 0 <= i < |rows| && rows[i].session == session
    ensures session in Grouped(rows).sessions ==> OfItsRows(Grouped(rows).sessions[session], rows, session)
  {
    hide OfItsRows;
    var n := |rows| - 1;
    var before, x := rows[..n], rows[n];
    assert rows == before + [x];
    if n > 0 {
      SessionsOfRows(before, session);
      if session in Grouped(before).sessions {
        OfItsRowsOneMore(Grouped(before).sessions[session], before, x, session);
      }
    }
    if x.session == session && (n == 0 || session !in Grouped(before).sessions) {
      FirstOfItsRows(rows, x);
    }
  }

  lemma FirstOfItsRows(rows: seq<Row>, x: Row)
    requires rows != [] && rows[|rows| - 1] == x
    requires forall j :: 0 <= j < |rows| - 1 ==> rows[j].session != x.session
    ensures OfItsRows(x, rows, x.session)
  {
    assert IsFirst(rows, |rows| - 1, x.session) && x == x.(lastSeen := x.lastSeen);
  }

  lemma NoneSays()
    ensures forall f :: !SomeSays([], f)
  {
  }

  // ----- the narrowed lookup against the full one

  /** Rows whose user is empty or holds a colon print a key that selects other rows. */
  predicate Missed(r: Row) { r.user.Some? && (r.user.value == "" || !NoColon(r.user.value)) }

  predicate ValidOwner(o: Option<int>) { o.Some? && 0 < o.value <= MAX_PID }

  lemma SelectedIff(r: Row, p: Parts, owner: int, clock: Clock)
    requires Sane(clock) && Split(JobKey(r, clock)) == Some(p) && OwnerOf(r) == Some(owner)
    ensures Selected(r, p, owner) <==> !Missed(r)
  {
    SplitKey(r, clock);
    assert r.pid == Some(owner) || r.ppid == Some(owner);
    if NoColon(UserText(r)) {
      CutJoined(r.node, UserText(r));
      CutJoined(p.node, p.user);
    }
  }

  lemma {:induction false} FilterTwice<T>(rows: seq<T>, a: T -> bool, b: T -> bool, both: T -> bool)
    requires forall i :: 0 <= i < |rows| ==> both(rows[i]) == (a(rows[i]) && b(rows[i]))
    ensures Filter(Filter(rows, a), b) == Filter(rows, both)
  {
    if rows != [] {
      var before := Filter(rows[..|rows| - 1], a);
      FilterTwice(rows[..|rows| - 1], a, b, both);
      assert (before + [rows[|rows| - 1]])[..|before|] == before;
    }
  }

  lemma {:induction false} FilterHas<T>(rows: seq<T>, keep: T -> bool)
    ensures forall i :: 0 <= i < |Filter(rows, keep)| ==> keep(Filter(rows, keep)[i]) && Filter(rows, keep)[i] in rows
  {
    if rows != [] {
      FilterHas(rows[..|rows| - 1], keep);
    }
  }

  lemma {:induction false} FilterAll<T>(rows: seq<T>, keep: T -> bool)
    ensures (forall i :: 0 <= i < |rows| ==> keep(rows[i])) ==> Filter(rows, keep) == rows
  {
    if rows != [] {
      FilterAll(rows[..|rows| - 1], keep);
      assert rows == rows[..|rows| - 1] + [rows[|rows| - 1]];
    }
  }

  /** A session belongs to one user. */
  ghost predicate SessionsAgree(rows: seq<Row>) {
    forall i, j :: 0 <= i < |rows| && 0 <= j < |rows| && rows[i].session == rows[j].session ==>
      rows[i].user == rows[j].user
  }

  /** The rows of a key in the range. */
  function Mine(rows: seq<Row>, key: string, since: Option<int>, clock: Clock): seq<Row> {
    OfKey(Filter(rows, r => InRange(r, since)), key, clock)
  }

  /** They are the listed rows that print the key and were last seen in the range. */
  lemma MineAre(rows: seq<Row>, key: string, since: Option<int>, clock: Clock)
    ensures forall r ::
      r in Mine(rows, key, since, clock)
      <==> r in rows && JobKey(r, clock) == key && (since.Some? ==> since.value <= r.lastSeen)
  {
    FilterMembers(rows, r => InRange(r, since));
    FilterMembers(Filter(rows, r => InRange(r, since)), r => JobKey(r, clock) == key);
  }

  lemma {:induction false} FilterMembers<T>(rows: seq<T>, keep: T -> bool)
    ensures forall r :: r in Filter(rows, keep) <==> r in rows && keep(r)
  {
    if rows != [] {
      FilterMembers(rows[..|rows| - 1], keep);
      assert rows == rows[..|rows| - 1] + [rows[|rows| - 1]];
    }
  }

  lemma RowNarrowed(r: Row, key: string, clock: Clock, p: Parts, owner: int)
    requires Sane(clock) && Split(key) == Some(p) && ParseInt(p.owner) == Some(owner)
    ensures JobKey(r, clock) == key ==> Selected(r, p, owner) == !Missed(r)
  {
    if JobKey(r, clock) == key {
      SplitKey(r, clock);
      ParseOwner(OwnerOf(r));
      SelectedIff(r, p, owner, clock);
    }
  }

  /** The narrowed rows of a printed key are its rows but for the missed ones. */
  lemma NarrowedRows(rows: seq<Row>, key: string, since: Option<int>, clock: Clock, p: Parts, owner: int)
    requires Sane(clock) && Split(key) == Some(p) && ParseInt(p.owner) == Some(owner)
    ensures OfKey(NarrowRows(rows, p, owner, since), key, clock)
      == Filter(Mine(rows, key, since, clock), r => !Missed(r))
  {
    hide Selected, Missed, JobKey, Split, ParseInt, InRange, Filter;
    forall r: Row ensures JobKey(r, clock) == key ==> Selected(r, p, owner) == !Missed(r) {
      RowNarrowed(r, key, clock, p, owner);
    }
    var inRange, ofKey := (r: Row) => InRange(r, since), (r: Row) => JobKey(r, clock) == key;
    var kept := (r: Row) => !Missed(r);
    var mine := (r: Row) => InRange(r, since) && JobKey(r, clock) == key;
    var both := (r: Row) => InRange(r, since) && JobKey(r, clock) == key && !Missed(r);
    FilterTwice(rows, (r: Row) => Selected(r, p, owner) && InRange(r, since), ofKey, both);
    FilterTwice(rows, inRange, ofKey, mine);
    FilterTwice(rows, mine, kept, both);
  }

  lemma MissedChangesJob(mine: seq<Row>, i: nat)
    requires SessionsAgree(mine) && i < |mine| && Missed(mine[i])
    ensures var left := Filter(mine, r => !Missed(r)); left == [] || Grouped(left) != Grouped(mine)
  {
    var left := Filter(mine, r => !Missed(r));
    FilterHas(mine, r => !Missed(r));
    if left != [] {
      var k := mine[i].session;
      GroupedSummarises(left);
      GroupedSummarises(mine);
      hide Grouped;
      assert Says(mine[i], OfSession(k));
      forall j | 0 <= j < |left| ensures left[j].session != k {
        assert left[j] in mine;
      }
      assert k in Grouped(mine).sessions && k !in Grouped(left).sessions;
    }
  }

  /** The narrowed lookup agrees with grouping every row in the range, for any key, exactly when
      no row prints the key, or its owner is a positive pid and no row that prints it has an
      empty user or one with a colon. */
  lemma LookupExactIff(rows: seq<Row>, key: string, since: Option<int>, clock: Clock)
    requires Sane(clock) && SessionsAgree(Mine(rows, key, since, clock))
    ensures var mine := Mine(rows, key, since, clock);
      Narrowed(rows, key, since, clock) == Full(rows, key, since, clock)
      <==> mine == [] || (ValidOwner(OwnerOf(mine[0])) && forall i :: 0 <= i < |mine| ==> !Missed(mine[i]))
  {
    hide Grouped, Filter, Split, ParseInt, JobKey, OwnerOf, SessionsAgree, Missed, NarrowRows;
    var mine := Mine(rows, key, since, clock);
    if mine == [] {
      NoRowsNoJob(rows, key, since, clock);
    } else {
      MineKeys(rows, key, since, clock);
      SplitKey(mine[0], clock);
      ParseOwner(OwnerOf(mine[0]));
      var p := Split(key).value;
      if ValidOwner(OwnerOf(mine[0])) {
        NarrowedRows(rows, key, since, clock, p, OwnerOf(mine[0]).value);
        FilterAll(mine, r => !Missed(r));
        if i :| 0 <= i < |mine| && Missed(mine[i]) {
          MissedChangesJob(mine, i);
        }
      }
    }
  }

  lemma MineKeys(rows: seq<Row>, key: string, since: Option<int>, clock: Clock)
    ensures forall i :: 0 <= i < |Mine(rows, key, since, clock)| ==>
      JobKey(Mine(rows, key, since, clock)[i], clock) == key
  {
    FilterHas(Filter(rows, r => InRange(r, since)), r => JobKey(r, clock) == key);
  }

  lemma NoRowsNoJob(rows: seq<Row>, key: string, since: Option<int>, clock: Clock)
    requires Sane(clock) && Mine(rows, key, since, clock) == []
    ensures Narrowed(rows, key, since, clock) == None == Full(rows, key, since, clock)
  {
    var p := Split(key);
    if p.Some? && ParseInt(p.value.owner).Some? {
      NarrowedRows(rows, key, since, clock, p.value, ParseInt(p.value.owner).value);
    }
  }

  // ----- two keys that collide

  /** A row of user "a:b" on node "n" prints the key of user "b" on node "n:a"; the narrowed
      lookup then misses it. */
  lemma CollisionExample(clock: Clock) returns (rows: seq<Row>, key: string)
    requires Sane(clock)
    ensures |rows| == 2 && rows[0].node != rows[1].node
    ensures JobKey(rows[0], clock) == key && JobKey(rows[1], clock) == key
    ensures Narrowed(rows, key, None, clock) != Full(rows, key, None, clock)
  {
    var r := Row(1, "n:a", Some("b"), Some(5), None, Some(7), None, 7, 9, true, "t", "g");
    var x := r.(session := 2, node := "n", user := Some("a:b"));
    rows, key := [r, x], JobKey(r, clock);
    assert "n:a" + ":" + "b" == "n" + ":" + "a:b";
    assert Filter(rows, q => InRange(q, None)) == rows by { FilterAll(rows, q => InRange(q, None)); }
    assert Mine(rows, key, None, clock) == rows by { FilterAll(rows, q => JobKey(q, clock) == key); }
    assert "a:b"[1] == ':';
    assert Missed(rows[1]);
    LookupExactIff(rows, key, None, clock);
  }
}
