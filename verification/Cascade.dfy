/** The auto-stop cascade: what a workspace task samples (internal/supervisor/activity.go), what the
    control plane makes of it (internal/mgmtapi/reaper.go, admission.go, activity.go), and what
    every stop it sends implies about the past.

    Times are nanoseconds on the clock of whoever reads them; the task's clock and the control
    plane's are never compared. */
module Cascade {
  import opened Decimal
  import opened Workspaces

  type Id = seq<byte>

  // ---------------------------------------------------------------------------------------
  // The task: sampling facts
  // ---------------------------------------------------------------------------------------

  /** What the supervisor can see of one session at one sample. */
  datatype Facts = Facts(
    id: Id,
    startedAt: int,
    attachers: nat,
    lastOutput: int,
    lastRequest: Option<int>,  // last model request, if the gateway has seen one
    tool: bool)                // a live descendant, or the process table could not be read

  datatype Activity = Activity(id: Id, attachers: nat, outputIdle: nat, modelIdle: nat, toolIdle: nat)

  /** Whole seconds since `t`, zero if the clock went backwards. */
  function SecsSince(now: int, t: int): nat {
    if now - t < 0 then 0 else (now - t) / SECOND
  }

  /** activityTracker.observe. */
  function Observe(lastTool: map<Id, int>, f: Facts, now: int): map<Id, int> {
    if f.tool then lastTool[f.id := now]
    else if f.id in lastTool then lastTool
    else lastTool[f.id := f.startedAt]
  }

  function ObserveAll(lastTool: map<Id, int>, facts: seq<Facts>, now: int): map<Id, int> {
    if facts == [] then lastTool
    else Observe(ObserveAll(lastTool, facts[..|facts| - 1], now), facts[|facts| - 1], now)
  }

  function LastModel(f: Facts): int { if f.lastRequest.Some? then f.lastRequest.value else f.startedAt }

  function Describe(lastTool: map<Id, int>, f: Facts, now: int): Activity {
    Activity(f.id, f.attachers, SecsSince(now, f.lastOutput), SecsSince(now, LastModel(f)),
             SecsSince(now, Observe(lastTool, f, now)[f.id]))
  }

  /** The manager keys sessions by id, so a listing names each id once. */
  predicate UniqueIds(facts: seq<Facts>) {
    forall i, j :: 0 <= i < j < |facts| ==> facts[i].id != facts[j].id
  }

  function DescribeAll(lastTool: map<Id, int>, facts: seq<Facts>, now: int): (out: seq<Activity>)
    ensures |out| == |facts| && forall i :: 0 <= i < |out| ==> out[i] == Describe(lastTool, facts[i], now)
  {
    seq(|facts|, i requires 0 <= i < |facts| => Describe(lastTool, facts[i], now))
  }

  // ---------------------------------------------------------------------------------------
  // The control plane: deciding
  // ---------------------------------------------------------------------------------------

  /** The columns of a workspace row the cascade reads and writes, with the per-session overrides. */
  datatype Row = Row(
    idleTimeoutSecs: int,
    warmHoldSecs: int,
    sessions: map<Id, Option<int>>,
    warmHoldUntil: Option<int>,
    pinnedSince: Option<int>)

  /** A session override wins over the workspace default; zero at either level is the opt-out. */
  function IdleTimeout(row: Row, override: Option<int>): (r: Option<nat>)
    ensures r.Some? ==> r.value >= 1
  {
    var secs := if override.Some? then override.value else row.idleTimeoutSecs;
    if secs <= 0 then None else Some(secs)
  }

  datatype SessionState = Busy | Pinned | Idle

  function Classify(a: Activity, secs: nat): SessionState {
    if a.attachers > 0 || a.outputIdle < secs || a.modelIdle < secs then Busy
    else if a.toolIdle < secs then Pinned
    else Idle
  }

  function Verdict(row: Row, a: Activity): SessionState
    requires a.id in row.sessions
  {
    var n := IdleTimeout(row, row.sessions[a.id]);
    if n.None? then Busy else Classify(a, n.value)
  }

  /** The sweep sends stop_session for this entry of the report. */
  predicate Stopped(row: Row, a: Activity) { a.id in row.sessions && Verdict(row, a).Idle? }

  function Stops(row: Row, activity: seq<Activity>): seq<Id> {
    if activity == [] then [] else
      var a := activity[|activity| - 1];
      Stops(row, activity[..|activity| - 1]) + (if Stopped(row, a) then [a.id] else [])
  }

  /** Entry `i` of the report gets this session stopped. */
  predicate StoppedBy(row: Row, activity: seq<Activity>, i: nat, id: Id) {
    i < |activity| && activity[i].id == id && Stopped(row, activity[i])
  }

  /** The sessions stopped are those with an idle entry in the report, and no others. */
  lemma {:induction false} StopsExactly(row: Row, activity: seq<Activity>, id: Id)
    ensures id in Stops(row, activity) <==> exists i: nat :: StoppedBy(row, activity, i, id)
  {
    if activity != [] {
      var n := |activity| - 1;
      var init, a := activity[..n], activity[n];
      StopsExactly(row, init, id);
      if Stopped(row, a) && a.id == id {
        assert StoppedBy(row, activity, n, id);
      }
      if id in Stops(row, init) {
        var i: nat :| StoppedBy(row, init, i, id);
        assert StoppedBy(row, activity, i, id);
      }
      forall i: nat | StoppedBy(row, activity, i, id) ensures id in Stops(row, activity) {
        if i < n { assert StoppedBy(row, init, i, id); }
      }
    }
  }

  /** A session can be stopped for being idle, by some report, if and only if the level that decides
      sets a timeout: its own override if it has one, otherwise the workspace. */
  lemma StoppableExactly(row: Row, id: Id)
    requires id in row.sessions
    ensures (exists a: Activity :: a.id == id && Stopped(row, a)) <==>
            (if row.sessions[id].Some? then row.sessions[id].value else row.idleTimeoutSecs) > 0
  {
    var n := IdleTimeout(row, row.sessions[id]);
    if n.Some? {
      var a := Activity(id, 0, n.value, n.value, n.value);
      assert a.id == id && Stopped(row, a);
    }
  }

  /** Held open only by background processes: something is pinned and nothing is busy. A session
      without a record is neither; an opted-out one is busy. */
  predicate HeldByTool(row: Row, activity: seq<Activity>) {
    && (exists i :: 0 <= i < |activity| && activity[i].id in row.sessions && Verdict(row, activity[i]).Pinned?)
    && (forall i :: 0 <= i < |activity| && activity[i].id in row.sessions ==> !Verdict(row, activity[i]).Busy?)
  }

  datatype HoldAction = Cleared | Started(until: int) | Waiting | Expired

  /** advanceWarmHold's decision on the report's own session count. */
  function HoldStep(row: Row, sessions: nat, now: int): HoldAction {
    if sessions > 0 then Cleared
    else if row.warmHoldUntil.None? then Started(now + row.warmHoldSecs * SECOND)
    else if now < row.warmHoldUntil.value then Waiting
    else Expired
  }

  function HoldColumn(row: Row, act: HoldAction): Option<int> {
    match act
    case Cleared => None
    case Started(until) => Some(until)
    case Waiting => row.warmHoldUntil
    case Expired => None
  }

  /** notePinned keeps the time it first noticed, and forgets it as soon as it no longer holds. */
  function PinnedColumn(row: Row, pinned: bool, now: int): Option<int> {
    if !pinned then None else if row.pinnedSince.None? then Some(now) else row.pinnedSince
  }

  predicate IsFresh(now: int, receivedAt: int, interval: int) { now - receivedAt <= 3 * interval }

  // ---------------------------------------------------------------------------------------
  // Runs
  // ---------------------------------------------------------------------------------------

  /** A workspace task. `seen` is history: for each session, the times of the samples of its
      current process that found a live descendant. */
  datatype Task = Task(lastTool: map<Id, int>, seen: map<Id, set<int>>, clock: int)

  /** A report as it left the task, with the facts it was made from. */
  datatype Sent = Sent(
    ref: Ref,
    now: int,
    facts: seq<Facts>,
    sessions: nat,
    activity: seq<Activity>,
    seen: map<Id, set<int>>)

  datatype Report = Report(sent: Sent, receivedAt: int)

  /** One evaluation of a workspace by a sweep. */
  datatype Eval = Eval(at: int, sessions: nat, warmHoldSecs: int, pinned: bool)

  datatype Stop =
    | IdleStop(ref: Ref, id: Id, row: Row, report: Report, at: int)
    | HoldStop(ref: Ref, at: int, evals: seq<Eval>)

  datatype World = World(
    interval: int,                // headroomInterval
    tasks: map<Ref, Task>,
    sent: set<Sent>,
    rows: map<Ref, Row>,
    reports: map<Ref, Report>,    // activityStore, in memory
    pending: map<Ref, Report>,    // the copy a running sweep walks
    sweepAt: int,
    evals: map<Ref, seq<Eval>>,   // history: evaluations of each workspace, oldest first
    stops: seq<Stop>)             // history: every stop sent

  /** What a sweep can get at: not the workspace's record; its record, but not its sessions' or no
      tunnel to its task; or everything. */
  datatype Access = Unread | Unreachable | Reachable

  datatype Event =
    | TaskStarted(r: Ref, clock: int)                           // a new task process, an empty tracker
    | SessionExited(r: Ref, id: Id)
    | Sample(r: Ref, now: int, facts: seq<Facts>, sessions: nat)
    | Receive(s: Sent, at: int)                                 // late, out of order, or never
    | TunnelDown(r: Ref)
    | Restart                                                   // the control plane loses its memory
    | SetRow(r: Ref, idle: int, hold: int, overrides: map<Id, Option<int>>)
    | DeleteRow(r: Ref)
    | BeginSweep(now: int)
    | SweepWorkspace(r: Ref, access: Access)

  function EvalsOf(w: World, r: Ref): seq<Eval> { if r in w.evals then w.evals[r] else [] }

  function Seen(seen: map<Id, set<int>>, id: Id): set<int> { if id in seen then seen[id] else {} }

  function Witness(seen: map<Id, set<int>>, facts: seq<Facts>, now: int): map<Id, set<int>> {
    if facts == [] then seen else
      var m := Witness(seen, facts[..|facts| - 1], now);
      var f := facts[|facts| - 1];
      if f.tool then m[f.id := Seen(m, f.id) + {now}] else m
  }

  function SampleTask(t: Task, now: int, facts: seq<Facts>): Task {
    Task(ObserveAll(t.lastTool, facts, now), Witness(t.seen, facts, now), now)
  }

  function IdleStops(r: Ref, row: Row, report: Report, at: int): seq<Stop> {
    var ids := Stops(row, report.sent.activity);
    seq(|ids|, i requires 0 <= i < |ids| => IdleStop(r, ids[i], row, report, at))
  }

  /** The row after one evaluation, both columns written from the same report. */
  function RowAfter(row: Row, sent: Sent, reachable: bool, now: int): Row {
    row.(warmHoldUntil := HoldColumn(row, HoldStep(row, sent.sessions, now)),
         pinnedSince := PinnedColumn(row, reachable && HeldByTool(row, sent.activity), now))
  }

  function EvalOf(row: Row, sent: Sent, reachable: bool, now: int): Eval {
    Eval(now, sent.sessions, row.warmHoldSecs, reachable && HeldByTool(row, sent.activity))
  }

  /** sweepWorkspace: idle sessions first, then the warm hold on the same report. */
  function Sweep(w: World, r: Ref, reachable: bool): World
    requires r in w.pending && r in w.rows
  {
    var report, row := w.pending[r], w.rows[r];
    var expired := HoldStep(row, report.sent.sessions, w.sweepAt).Expired?;
    var evals := EvalsOf(w, r) + [EvalOf(row, report.sent, reachable, w.sweepAt)];
    w.(pending := w.pending - {r},
       rows := w.rows[r := RowAfter(row, report.sent, reachable, w.sweepAt)],
       reports := if expired then w.reports - {r} else w.reports,
       evals := w.evals[r := evals],
       stops := w.stops
         + (if reachable then IdleStops(r, row, report, w.sweepAt) else [])
         + (if expired then [HoldStop(r, w.sweepAt, evals)] else []))
  }

  /** The running sweep has yet to look at this workspace, and its report is fresh. */
  predicate IsDue(w: World, r: Ref) { r in w.pending && IsFresh(w.sweepAt, w.pending[r].receivedAt, w.interval) }

  function Step(w: World, e: Event): World {
    match e
    case TaskStarted(r, clock) => w.(tasks := w.tasks[r := Task(map[], map[], clock)])
    case SessionExited(r, id) =>
      if r !in w.tasks then w
      else
        var t := w.tasks[r];
        w.(tasks := w.tasks[r := t.(lastTool := t.lastTool - {id}, seen := t.seen - {id})])
    case Sample(r, now, facts, n) =>
      if r !in w.tasks || now < w.tasks[r].clock || !UniqueIds(facts) then w
      else
        var t := SampleTask(w.tasks[r], now, facts);
        w.(tasks := w.tasks[r := t],
           sent := w.sent + {Sent(r, now, facts, n, DescribeAll(w.tasks[r].lastTool, facts, now), t.seen)})
    case Receive(s, at) => if s !in w.sent then w else w.(reports := w.reports[s.ref := Report(s, at)])
    case TunnelDown(r) => w.(reports := w.reports - {r})
    case Restart => w.(reports := map[], pending := map[])
    case SetRow(r, idle, hold, overrides) =>
      w.(rows := w.rows[r := Row(idle, hold, overrides, if r in w.rows then w.rows[r].warmHoldUntil else None,
                                 if r in w.rows then w.rows[r].pinnedSince else None)])
    case DeleteRow(r) => w.(rows := w.rows - {r})
    case BeginSweep(now) => w.(pending := w.reports, sweepAt := now)
    case SweepWorkspace(r, access) =>
      if !IsDue(w, r) then w
      else if access.Unread? || r !in w.rows then w.(pending := w.pending - {r}, reports := w.reports - {r})
      else Sweep(w, r, access.Reachable?)
  }

  function Init(interval: int): World {
    World(interval, map[], {}, map[], map[], map[], 0, map[], [])
  }

  function Run(w: World, es: seq<Event>): World {
    if es == [] then w else Step(Run(w, es[..|es| - 1]), es[|es| - 1])
  }

  // ---------------------------------------------------------------------------------------
  // What a sample says about the past
  // ---------------------------------------------------------------------------------------

  /** The tracker never forgets a sighting of the session's current process. */
  predicate TrackerOk(t: Task) {
    && (forall id, s :: id in t.seen && s in t.seen[id] ==> id in t.lastTool && s <= t.lastTool[id])
    && (forall id, s :: id in t.seen && s in t.seen[id] ==> s <= t.clock)
  }

  lemma {:induction false} ObserveAllOf(m: map<Id, int>, facts: seq<Facts>, now: int, f: Facts)
    requires UniqueIds(facts) && f in facts
    ensures f.id in ObserveAll(m, facts, now) && ObserveAll(m, facts, now)[f.id] == Observe(m, f, now)[f.id]
  {
    var init, last := facts[..|facts| - 1], facts[|facts| - 1];
    assert facts == init + [last];
    if f == last {
      ObserveAllOther(m, init, now, f.id);
    } else {
      ObserveAllOf(m, init, now, f);
    }
  }

  lemma {:induction false} ObserveAllOther(m: map<Id, int>, facts: seq<Facts>, now: int, id: Id)
    requires forall f :: f in facts ==> f.id != id
    ensures (id in ObserveAll(m, facts, now) <==> id in m)
         && (id in m ==> ObserveAll(m, facts, now)[id] == m[id])
  {
    if facts != [] {
      var init := facts[..|facts| - 1];
      assert forall f :: f in init ==> f in facts;
      assert facts[|facts| - 1] in facts;
      ObserveAllOther(m, init, now, id);
    }
  }

  /** In a sample each session is described as if it were the only one. */
  lemma SampleNext(m: map<Id, int>, facts: seq<Facts>, i: nat, now: int)
    requires UniqueIds(facts) && i < |facts|
    ensures var before := ObserveAll(m, facts[..i], now);
      && Describe(before, facts[i], now) == Describe(m, facts[i], now)
      && ObserveAll(m, facts[..i + 1], now) == Observe(before, facts[i], now)
  {
    assert facts[..i + 1][..i] == facts[..i];
    forall f | f in facts[..i] ensures f.id != facts[i].id {}
    ObserveAllOther(m, facts[..i], now, facts[i].id);
  }

  lemma DescribeMore(m: map<Id, int>, facts: seq<Facts>, i: nat, now: int)
    requires i < |facts|
    ensures DescribeAll(m, facts[..i + 1], now) == DescribeAll(m, facts[..i], now) + [Describe(m, facts[i], now)]
  {
  }

  lemma {:induction false} SampleKeepsTracker(t: Task, now: int, facts: seq<Facts>)
    requires TrackerOk(t) && t.clock <= now
    ensures TrackerOk(SampleTask(t, now, facts))
  {
    if facts != [] {
      var init, f := facts[..|facts| - 1], facts[|facts| - 1];
      SampleKeepsTracker(t, now, init);
      var u := SampleTask(t, now, init);
      assert TrackerOk(u);
      var m := Witness(t.seen, facts, now);
      assert m == (if f.tool then u.seen[f.id := Seen(u.seen, f.id) + {now}] else u.seen);
      assert SampleTask(t, now, facts).lastTool == Observe(u.lastTool, f, now);
    }
  }

  /** An entry of a report bounds every sighting of the session's current process, including one at
      the sample itself. */
  predicate EntryOk(s: Sent, f: Facts, a: Activity) {
    && a.id == f.id
    && a.attachers == f.attachers
    && a.outputIdle == SecsSince(s.now, f.lastOutput)
    && a.modelIdle == SecsSince(s.now, LastModel(f))
    && (forall t :: t in Seen(s.seen, f.id) ==> a.toolIdle <= SecsSince(s.now, t))
    && (f.tool ==> a.toolIdle == 0)
  }

  predicate SentOk(s: Sent) {
    && |s.activity| == |s.facts|
    && forall i :: 0 <= i < |s.facts| ==> EntryOk(s, s.facts[i], s.activity[i])
  }

  lemma SampleSentOk(r: Ref, t: Task, now: int, facts: seq<Facts>, n: nat)
    requires TrackerOk(t) && t.clock <= now && UniqueIds(facts)
    ensures SentOk(Sent(r, now, facts, n, DescribeAll(t.lastTool, facts, now), SampleTask(t, now, facts).seen))
  {
    var t' := SampleTask(t, now, facts);
    var s := Sent(r, now, facts, n, DescribeAll(t.lastTool, facts, now), t'.seen);
    SampleKeepsTracker(t, now, facts);
    forall i | 0 <= i < |facts| ensures EntryOk(s, facts[i], s.activity[i]) {
      var f := facts[i];
      ObserveAllOf(t.lastTool, facts, now, f);
      forall u | u in Seen(s.seen, f.id) ensures s.activity[i].toolIdle <= SecsSince(now, u) {
        assert u <= t'.lastTool[f.id];
      }
    }
  }

  // ---------------------------------------------------------------------------------------
  // What every stop implies
  // ---------------------------------------------------------------------------------------

  /** At least `n` whole seconds before `now`. */
  predicate LongAgo(now: int, t: int, n: nat) { now - t >= n * SECOND }

  /** The sample itself showed the session unattended and quiet for the whole timeout, and no sample
      of this process within the timeout had found a live descendant. */
  predicate QuietFor(s: Sent, f: Facts, n: nat) {
    && f.attachers == 0
    && LongAgo(s.now, f.lastOutput, n)
    && LongAgo(s.now, LastModel(f), n)
    && (forall t :: t in Seen(s.seen, f.id) ==> LongAgo(s.now, t, n))
    && !f.tool
  }

  /** A recorded session with an effective timeout, on a fresh and genuine report, quiet throughout. */
  predicate IdleJustified(w: World, st: Stop)
    requires st.IdleStop?
  {
    && st.id in st.row.sessions
    && st.report.sent in w.sent && st.report.sent.ref == st.ref
    && IsFresh(st.at, st.report.receivedAt, w.interval)
    && var n := IdleTimeout(st.row, st.row.sessions[st.id]);
       n.Some? && exists f :: f in st.report.sent.facts && f.id == st.id && QuietFor(st.report.sent, f, n.value)
  }

  /** Evaluation `i` and all later ones saw no session, and its hold had run out by `t`. */
  predicate HeldSince(evals: seq<Eval>, i: nat, t: int) {
    && i < |evals|
    && evals[i].at + evals[i].warmHoldSecs * SECOND <= t
    && (forall j :: i <= j < |evals| ==> evals[j].sessions == 0)
  }

  /** The stop comes with the evaluation that found the hold run out, and an earlier one set it. */
  ghost predicate HoldJustified(w: World, st: Stop)
    requires st.HoldStop?
  {
    && st.evals <= EvalsOf(w, st.ref)
    && st.evals != []
    && st.evals[|st.evals| - 1].at == st.at
    && exists i: nat :: i + 1 < |st.evals| && HeldSince(st.evals, i, st.at)
  }

  ghost predicate Justified(w: World, st: Stop) {
    match st
    case IdleStop(_, _, _, _, _) => IdleJustified(w, st)
    case HoldStop(_, _, _) => HoldJustified(w, st)
  }

  /** A stored deadline was set by an evaluation since which every evaluation saw no session. */
  ghost predicate DeadlineOk(w: World, r: Ref)
    requires r in w.rows
  {
    var until := w.rows[r].warmHoldUntil;
    until.Some? ==> exists i :: HeldSince(EvalsOf(w, r), i, until.value)
  }

  /** Evaluation `i` was at `t`, and it and all later ones found only background processes. */
  predicate PinnedFrom(evals: seq<Eval>, i: nat, t: int) {
    && i < |evals|
    && evals[i].at == t
    && (forall j :: i <= j < |evals| ==> evals[j].pinned)
  }

  /** The recorded time is when an unbroken run of such evaluations began. */
  ghost predicate PinOk(w: World, r: Ref)
    requires r in w.rows
  {
    var since := w.rows[r].pinnedSince;
    since.Some? ==> exists i :: PinnedFrom(EvalsOf(w, r), i, since.value)
  }

  ghost predicate Inv(w: World) {
    && (forall r :: r in w.tasks ==> TrackerOk(w.tasks[r]))
    && (forall s :: s in w.sent ==> SentOk(s))
    && (forall r :: r in w.reports ==> w.reports[r].sent in w.sent && w.reports[r].sent.ref == r)
    && (forall r :: r in w.pending ==> w.pending[r].sent in w.sent && w.pending[r].sent.ref == r)
    && (forall r :: r in w.rows ==> DeadlineOk(w, r) && PinOk(w, r))
    && (forall i :: 0 <= i < |w.stops| ==> Justified(w, w.stops[i]))
  }

  lemma EntryQuiet(s: Sent, i: nat, row: Row)
    requires SentOk(s) && i < |s.facts| && Stopped(row, s.activity[i])
    ensures QuietFor(s, s.facts[i], IdleTimeout(row, row.sessions[s.facts[i].id]).value)
  {
    var f, a := s.facts[i], s.activity[i];
    var n := IdleTimeout(row, row.sessions[f.id]).value;
    assert EntryOk(s, f, a);
    assert Classify(a, n).Idle?;
    SecsLongAgo(s.now, f.lastOutput, n);
    SecsLongAgo(s.now, LastModel(f), n);
    forall t | t in Seen(s.seen, f.id) ensures LongAgo(s.now, t, n) { SecsLongAgo(s.now, t, n); }
  }

  lemma SecsLongAgo(now: int, t: int, n: nat)
    requires n >= 1
    ensures SecsSince(now, t) >= n <==> LongAgo(now, t, n)
  {
  }

  lemma IdleStopsJustified(w: World, r: Ref)
    requires Inv(w) && r in w.pending && r in w.rows && IsFresh(w.sweepAt, w.pending[r].receivedAt, w.interval)
    ensures forall st :: st in IdleStops(r, w.rows[r], w.pending[r], w.sweepAt) ==> st.IdleStop? && IdleJustified(w, st)
  {
    var row, report := w.rows[r], w.pending[r];
    var s := report.sent;
    forall st | st in IdleStops(r, row, report, w.sweepAt) ensures st.IdleStop? && IdleJustified(w, st) {
      assert st.id in Stops(row, s.activity);
      StopsExactly(row, s.activity, st.id);
      var i: nat :| StoppedBy(row, s.activity, i, st.id);
      EntryQuiet(s, i, row);
      assert EntryOk(s, s.facts[i], s.activity[i]) && s.facts[i] in s.facts;
    }
  }

  lemma HoldStepOk(w: World, r: Ref, reachable: bool)
    requires Inv(w) && r in w.pending && r in w.rows
    ensures var w' := Sweep(w, r, reachable);
      && DeadlineOk(w', r)
      && (HoldStep(w.rows[r], w.pending[r].sent.sessions, w.sweepAt).Expired? ==>
            HoldJustified(w', HoldStop(r, w.sweepAt, EvalsOf(w', r))))
  {
    var w' := Sweep(w, r, reachable);
    var row, n, before := w.rows[r], w.pending[r].sent.sessions, EvalsOf(w, r);
    var after := EvalsOf(w', r);
    assert after == before + [EvalOf(row, w.pending[r].sent, reachable, w.sweepAt)];
    match HoldStep(row, n, w.sweepAt)
    case Cleared =>
    case Started(until) => assert HeldSince(after, |before|, until);
    case Waiting =>
      assert DeadlineOk(w, r);
      var i :| HeldSince(before, i, row.warmHoldUntil.value);
      assert HeldSince(after, i, row.warmHoldUntil.value);
    case Expired =>
      assert DeadlineOk(w, r);
      var i :| HeldSince(before, i, row.warmHoldUntil.value);
      assert HeldSince(after, i, w.sweepAt);
  }

  lemma PinStepOk(w: World, r: Ref, reachable: bool)
    requires Inv(w) && r in w.pending && r in w.rows
    ensures PinOk(Sweep(w, r, reachable), r)
  {
    var w' := Sweep(w, r, reachable);
    var row, before := w.rows[r], EvalsOf(w, r);
    var e := EvalOf(row, w.pending[r].sent, reachable, w.sweepAt);
    assert EvalsOf(w', r) == before + [e];
    if e.pinned {
      if row.pinnedSince.None? {
        assert PinnedFrom(before + [e], |before|, w.sweepAt);
      } else {
        assert PinOk(w, r);
        var i :| PinnedFrom(before, i, row.pinnedSince.value);
        assert PinnedFrom(before + [e], i, row.pinnedSince.value);
      }
    }
  }

  /** Earlier stops stay justified: histories only grow. */
  lemma JustifiedGrows(w: World, w': World, st: Stop)
    requires Justified(w, st) && w.interval == w'.interval && w.sent <= w'.sent
    requires forall r :: EvalsOf(w, r) <= EvalsOf(w', r)
    ensures Justified(w', st)
  {
    if st.HoldStop? { assert EvalsOf(w, st.ref) <= EvalsOf(w', st.ref); }
  }

  lemma SweepKeeps(w: World, r: Ref, reachable: bool)
    requires Inv(w) && r in w.pending && r in w.rows && IsFresh(w.sweepAt, w.pending[r].receivedAt, w.interval)
    ensures Inv(Sweep(w, r, reachable))
  {
    var w' := Sweep(w, r, reachable);
    HoldStepOk(w, r, reachable);
    PinStepOk(w, r, reachable);
    IdleStopsJustified(w, r);
    forall q ensures EvalsOf(w, q) <= EvalsOf(w', q) {}
    forall i | 0 <= i < |w'.stops| ensures Justified(w', w'.stops[i]) {
      var st := w'.stops[i];
      if i < |w.stops| {
        JustifiedGrows(w, w', st);
      } else if st.IdleStop? {
        assert st in IdleStops(r, w.rows[r], w.pending[r], w.sweepAt);
        JustifiedGrows(w, w', st);
      }
    }
    forall q | q in w'.rows ensures DeadlineOk(w', q) && PinOk(w', q) {
      if q != r { assert DeadlineOk(w, q) && PinOk(w, q) && EvalsOf(w', q) == EvalsOf(w, q); }
    }
  }

  /** Steps that send no stop and set no deadline. */
  lemma OtherStepKeeps(w: World, w': World)
    requires Inv(w)
    requires forall r :: r in w'.tasks ==> TrackerOk(w'.tasks[r])
    requires forall s :: s in w'.sent ==> SentOk(s)
    requires forall r :: r in w'.reports ==> w'.reports[r].sent in w'.sent && w'.reports[r].sent.ref == r
    requires forall r :: r in w'.pending ==> w'.pending[r].sent in w'.sent && w'.pending[r].sent.ref == r
    requires w'.interval == w.interval && w.sent <= w'.sent && w'.evals == w.evals && w'.stops == w.stops
    requires forall r :: r in w'.rows && w'.rows[r].warmHoldUntil.Some? ==>
      r in w.rows && w.rows[r].warmHoldUntil == w'.rows[r].warmHoldUntil
    requires forall r :: r in w'.rows && w'.rows[r].pinnedSince.Some? ==>
      r in w.rows && w.rows[r].pinnedSince == w'.rows[r].pinnedSince
    ensures Inv(w')
  {
    forall i | 0 <= i < |w'.stops| ensures Justified(w', w'.stops[i]) { JustifiedGrows(w, w', w.stops[i]); }
    forall r | r in w'.rows ensures DeadlineOk(w', r) && PinOk(w', r) {
      assert EvalsOf(w', r) == EvalsOf(w, r);
      if w'.rows[r].warmHoldUntil.Some? {
        assert DeadlineOk(w, r);
        var i :| HeldSince(EvalsOf(w, r), i, w.rows[r].warmHoldUntil.value);
      }
      if w'.rows[r].pinnedSince.Some? {
        assert PinOk(w, r);
        var i :| PinnedFrom(EvalsOf(w, r), i, w.rows[r].pinnedSince.value);
      }
    }
  }

  lemma SampleStepKeeps(w: World, r: Ref, now: int, facts: seq<Facts>, n: nat)
    requires Inv(w)
    ensures Inv(Step(w, Sample(r, now, facts, n)))
  {
    if r in w.tasks && now >= w.tasks[r].clock && UniqueIds(facts) {
      assert TrackerOk(w.tasks[r]);
      SampleKeepsTracker(w.tasks[r], now, facts);
      SampleSentOk(r, w.tasks[r], now, facts, n);
      var w' := Step(w, Sample(r, now, facts, n));
      assert w.sent <= w'.sent;
      OtherStepKeeps(w, w');
    }
  }

  lemma TaskStepKeeps(w: World, e: Event)
    requires Inv(w) && (e.TaskStarted? || e.SessionExited?)
    ensures Inv(Step(w, e))
  {
    forall q | q in Step(w, e).tasks { TaskStepTracker(w, e, q); }
    OtherStepKeeps(w, Step(w, e));
  }

  lemma TaskStepTracker(w: World, e: Event, q: Ref)
    requires (forall r :: r in w.tasks ==> TrackerOk(w.tasks[r])) && (e.TaskStarted? || e.SessionExited?)
    requires q in Step(w, e).tasks
    ensures TrackerOk(Step(w, e).tasks[q])
  {
    if q in w.tasks { assert TrackerOk(w.tasks[q]); }
  }

  lemma MemoryStepKeeps(w: World, e: Event)
    requires Inv(w) && (e.TunnelDown? || e.Restart? || e.BeginSweep?)
    ensures Inv(Step(w, e))
  {
    OtherStepKeeps(w, Step(w, e));
  }

  lemma ReceiveKeeps(w: World, s: Sent, at: int)
    requires Inv(w)
    ensures Inv(Step(w, Receive(s, at)))
  {
    var w' := Step(w, Receive(s, at));
    assert w' == w.(reports := w'.reports);
    forall r | r in w'.reports ensures w'.reports[r].sent in w.sent && w'.reports[r].sent.ref == r {}
    OtherStepKeeps(w, w');
  }

  lemma StepKeeps(w: World, e: Event)
    requires Inv(w)
    ensures Inv(Step(w, e))
  {
    match e
    case SweepWorkspace(r, access) =>
      if IsDue(w, r) && r in w.rows && !access.Unread? {
        SweepKeeps(w, r, access.Reachable?);
      } else {
        OtherStepKeeps(w, Step(w, e));
      }
    case SetRow(_, _, _, _) => OtherStepKeeps(w, Step(w, e));
    case DeleteRow(_) => OtherStepKeeps(w, Step(w, e));
    case Receive(s, at) => ReceiveKeeps(w, s, at);
    case TunnelDown(_) => MemoryStepKeeps(w, e);
    case Restart => MemoryStepKeeps(w, e);
    case BeginSweep(_) => MemoryStepKeeps(w, e);
    case TaskStarted(_, _) => TaskStepKeeps(w, e);
    case SessionExited(_, _) => TaskStepKeeps(w, e);
    case Sample(r, now, facts, n) => SampleStepKeeps(w, r, now, facts, n);
  }

  lemma {:induction false} RunKeeps(w: World, es: seq<Event>)
    requires Inv(w)
    ensures Inv(Run(w, es))
  {
    if es != [] {
      RunKeeps(w, es[..|es| - 1]);
      StepKeeps(Run(w, es[..|es| - 1]), es[|es| - 1]);
    }
  }

  /** Every stop of every run is justified: an idle stop end to end from the sample it rests on, a
      warm-hold stop by an earlier evaluation whose hold has run out and since which every
      evaluation of that workspace saw no session. Policy changes, lost or late reports, dropped
      tunnels and control-plane restarts may fall anywhere. */
  lemma EveryStopIsJustified(interval: int, es: seq<Event>, i: nat)
    requires i < |Run(Init(interval), es).stops|
    ensures Justified(Run(Init(interval), es), Run(Init(interval), es).stops[i])
  {
    RunKeeps(Init(interval), es);
  }

  lemma {:induction false} SentComesFromSample(w: World, es: seq<Event>, s: Sent)
    requires w.sent == {} && s in Run(w, es).sent
    ensures exists i :: 0 <= i < |es| && es[i] == Sample(s.ref, s.now, s.facts, s.sessions)
  {
    var n := |es| - 1;
    var init := es[..n];
    if s in Run(w, init).sent {
      SentComesFromSample(w, init, s);
      var i :| 0 <= i < |init| && init[i] == Sample(s.ref, s.now, s.facts, s.sessions);
      assert es[i] == init[i];
    } else {
      SentByStep(Run(w, init), es[n], s);
      assert es[n] == Sample(s.ref, s.now, s.facts, s.sessions);
    }
  }

  lemma SentByStep(w: World, e: Event, s: Sent)
    requires s in Step(w, e).sent && s !in w.sent
    ensures e == Sample(s.ref, s.now, s.facts, s.sessions)
  {
  }

  /** The recorded time of a workspace held open only by background processes is true of every run:
      each evaluation from then to now found exactly that. */
  lemma PinnedSinceIsTrue(interval: int, es: seq<Event>, r: Ref)
    requires r in Run(Init(interval), es).rows && Run(Init(interval), es).rows[r].pinnedSince.Some?
    ensures var w := Run(Init(interval), es); exists i :: PinnedFrom(EvalsOf(w, r), i, w.rows[r].pinnedSince.value)
  {
    RunKeeps(Init(interval), es);
    assert PinOk(Run(Init(interval), es), r);
  }

  /** Sample event `i` names the session in its entry `j` and saw no tool. */
  predicate SawNoTool(es: seq<Event>, i: nat, j: nat, r: Ref, id: Id) {
    && i < |es| && es[i].Sample? && es[i].r == r
    && j < |es[i].facts| && es[i].facts[j].id == id && !es[i].facts[j].tool
  }

  lemma IdleStopSawNoTool(interval: int, es: seq<Event>, k: nat)
    requires k < |Run(Init(interval), es).stops| && Run(Init(interval), es).stops[k].IdleStop?
    ensures var st := Run(Init(interval), es).stops[k]; exists i, j :: SawNoTool(es, i, j, st.ref, st.id)
  {
    EveryStopIsJustified(interval, es, k);
    var st := Run(Init(interval), es).stops[k];
    var s := st.report.sent;
    SentComesFromSample(Init(interval), es, s);
    var i :| 0 <= i < |es| && es[i] == Sample(s.ref, s.now, s.facts, s.sessions);
    var f :| f in s.facts && f.id == st.id && QuietFor(s, f, IdleTimeout(st.row, st.row.sessions[st.id]).value);
    var j :| 0 <= j < |s.facts| && s.facts[j] == f;
    assert SawNoTool(es, i, j, st.ref, st.id);
  }

  /** A session that has a tool running in every sample is never stopped for being idle. */
  lemma ToolKeepsSessionAlive(interval: int, es: seq<Event>, r: Ref, id: Id, k: nat)
    requires forall i, j :: !SawNoTool(es, i, j, r, id)
    requires k < |Run(Init(interval), es).stops|
    ensures var st := Run(Init(interval), es).stops[k]; !(st.IdleStop? && st.ref == r && st.id == id)
  {
    if Run(Init(interval), es).stops[k].IdleStop? { IdleStopSawNoTool(interval, es, k); }
  }
}
