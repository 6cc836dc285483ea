/** The two loops of the cascade as they run: the supervisor's sampling of its sessions
    (internal/supervisor/activity.go) and the control plane's sweep (internal/mgmtapi/reaper.go). */
module Reaping {
  import opened Decimal
  import opened Cascade
  import opened Collections
  import opened Sweeping
  import opened Workspaces

  // ---------------------------------------------------------------------------------------
  // The supervisor
  // ---------------------------------------------------------------------------------------

  datatype Process = Process(pid: int, session: Id, zombie: bool)

  /** A live session as the manager lists it, with what the gateway knows of it. */
  datatype Listed = Listed(id: Id, pid: int, startedAt: int, attachers: nat, lastOutput: int, lastRequest: Option<int>)

  /** A live descendant: a process of the session other than its own, and not a zombie. */
  predicate IsTool(p: Process, s: Listed) { p.session == s.id && p.pid != s.pid && !p.zombie }

  method HasRunningTool(procs: seq<Process>, s: Listed) returns (r: bool)
    ensures r <==> exists p :: p in procs && IsTool(p, s)
  {
    for i := 0 to |procs|
      invariant forall j :: 0 <= j < i ==> !IsTool(procs[j], s)
    {
      if procs[i].session != s.id || procs[i].pid == s.pid {
        continue;
      }
      if procs[i].zombie {
        continue;
      }
      assert IsTool(procs[i], s);
      return true;
    }
    return false;
  }

  /** Facts about a session; a process table that cannot be read counts as a running tool. */
  ghost function FactsOf(s: Listed, procs: Option<seq<Process>>): Facts {
    Facts(s.id, s.startedAt, s.attachers, s.lastOutput, s.lastRequest,
          procs.None? || exists p :: p in procs.value && IsTool(p, s))
  }

  ghost function AllFacts(ss: seq<Listed>, procs: Option<seq<Process>>): (fs: seq<Facts>)
    ensures |fs| == |ss| && forall i :: 0 <= i < |fs| ==> fs[i] == FactsOf(ss[i], procs)
  {
    seq(|ss|, i requires 0 <= i < |ss| => FactsOf(ss[i], procs))
  }

  class ActivityTracker {
    var lastTool: map<Id, int>

    constructor ()
      ensures lastTool == map[]
    {
      lastTool := map[];
    }

    method ObserveTool(id: Id, running: bool, startedAt: int, now: int) returns (t: int)
      modifies this
      ensures id in lastTool && t == lastTool[id]
      ensures forall f: Facts :: f.id == id && f.tool == running && f.startedAt == startedAt ==>
        lastTool == Observe(old(lastTool), f, now)
    {
      if id !in lastTool {
        lastTool := lastTool[id := startedAt];
      }
      if running {
        lastTool := lastTool[id := now];
      }
      t := lastTool[id];
    }

    /** One session's entry, and its observation. */
    method SampleOne(s: Listed, procs: Option<seq<Process>>, now: int) returns (a: Activity)
      modifies this
      ensures a == Describe(old(lastTool), FactsOf(s, procs), now)
      ensures lastTool == Observe(old(lastTool), FactsOf(s, procs), now)
    {
      ghost var f := FactsOf(s, procs);
      var lastModel := s.startedAt;
      if s.lastRequest.Some? {
        lastModel := s.lastRequest.value;
      }
      var toolRunning := procs.None?;
      if procs.Some? {
        toolRunning := HasRunningTool(procs.value, s);
      }
      var t := ObserveTool(s.id, toolRunning, s.startedAt, now);
      assert f.id == s.id && f.tool == toolRunning && f.startedAt == s.startedAt;
      a := Activity(s.id, s.attachers, SecsSince(now, s.lastOutput), SecsSince(now, lastModel), SecsSince(now, t));
    }

    /** One sample: an entry for every session, and the tracker brought up to date. */
    method SessionActivity(ss: seq<Listed>, procs: Option<seq<Process>>, now: int) returns (out: seq<Activity>)
      requires forall i, j :: 0 <= i < j < |ss| ==> ss[i].id != ss[j].id
      modifies this
      ensures out == DescribeAll(old(lastTool), AllFacts(ss, procs), now)
      ensures lastTool == ObserveAll(old(lastTool), AllFacts(ss, procs), now)
    {
      ghost var fs, m := AllFacts(ss, procs), lastTool;
      out := [];
      for i := 0 to |ss|
        invariant out == DescribeAll(m, fs[..i], now)
        invariant lastTool == ObserveAll(m, fs[..i], now)
      {
        SampleNext(m, fs, i, now);
        DescribeMore(m, fs, i, now);
        var a := SampleOne(ss[i], procs, now);
        out := out + [a];
      }
      assert fs[..|ss|] == fs;
    }
  }

  // ---------------------------------------------------------------------------------------
  // The control plane
  // ---------------------------------------------------------------------------------------

  /** stopIdleSessions over one report: the stops it sends, in order, and whether only background
      processes hold the workspace open. */
  method StopIdleSessions(row: Row, activity: seq<Activity>) returns (stops: seq<Id>, pinned: bool)
    ensures stops == Stops(row, activity)
    ensures pinned == HeldByTool(row, activity)
  {
    var anyBusy, anyPinned := false, false;
    stops := [];
    for i := 0 to |activity|
      invariant stops == Stops(row, activity[..i])
      invariant anyBusy <==>
        exists j :: 0 <= j < i && activity[j].id in row.sessions && Verdict(row, activity[j]).Busy?
      invariant anyPinned <==>
        exists j :: 0 <= j < i && activity[j].id in row.sessions && Verdict(row, activity[j]).Pinned?
    {
      var a := activity[i];
      assert activity[..i + 1][..i] == activity[..i];
      if a.id !in row.sessions {
        continue;
      }
      var timeout := IdleTimeout(row, row.sessions[a.id]);
      if timeout.None? {
        anyBusy := true;
        continue;
      }
      match Classify(a, timeout.value) {
        case Busy => anyBusy := true;
        case Pinned => anyPinned := true;
        case Idle => stops := stops + [a.id];
      }
    }
    assert activity[..|activity|] == activity;
    pinned := anyPinned && !anyBusy;
  }

  class Reaper {
    var rows: map<Ref, Row>
    var reports: map<Ref, Report>
    const interval: int

    /** The object is this control plane, whatever copy of the reports a sweep is walking. */
    ghost predicate Matches(c: Control)
      reads this
    {
      rows == c.rows && reports == c.reports && interval == c.interval
    }

    constructor (interval: int)
      ensures rows == map[] && reports == map[] && this.interval == interval && Matches(ControlOf(Init(interval)))
    {
      this.interval := interval;
      rows, reports := map[], map[];
    }

    method NotePinned(r: Ref, pinned: bool, now: int)
      requires r in rows
      modifies this`rows
      ensures rows == old(rows)[r := old(rows[r]).(pinnedSince := PinnedColumn(old(rows[r]), pinned, now))]
    {
      if pinned && rows[r].pinnedSince.None? {
        rows := rows[r := rows[r].(pinnedSince := Some(now))];
      } else if !pinned && rows[r].pinnedSince.Some? {
        rows := rows[r := rows[r].(pinnedSince := None)];
      }
    }

    method AdvanceWarmHold(r: Ref, sessions: nat, now: int) returns (stopTask: bool)
      requires r in rows
      modifies this
      ensures var row := old(rows[r]);
        rows == old(rows)[r := row.(warmHoldUntil := HoldColumn(row, HoldStep(row, sessions, now)))]
      ensures stopTask == HoldStep(old(rows[r]), sessions, now).Expired?
      ensures reports == if stopTask then old(reports) - {r} else old(reports)
    {
      stopTask := false;
      if sessions > 0 {
        if rows[r].warmHoldUntil.Some? {
          rows := rows[r := rows[r].(warmHoldUntil := None)];
        }
        return;
      }
      if rows[r].warmHoldUntil.None? {
        rows := rows[r := rows[r].(warmHoldUntil := Some(now + rows[r].warmHoldSecs * SECOND))];
        return;
      }
      if now < rows[r].warmHoldUntil.value {
        return;
      }
      stopTask := true;
      rows := rows[r := rows[r].(warmHoldUntil := None)];
      reports := reports - {r};
    }

    /** One workspace, with the copy of its report the sweep is walking. */
    method SweepOne(r: Ref, rep: Report, access: Access, now: int) returns (stops: seq<Id>, stopTask: bool)
      modifies this
      ensures access.Unread? || r !in old(rows) ==>
        rows == old(rows) && stops == [] && !stopTask && reports == old(reports) - {r}
      ensures !access.Unread? && r in old(rows) ==>
        var row := old(rows[r]);
        && rows == old(rows)[r := RowAfter(row, rep.sent, access.Reachable?, now)]
        && stops == (if access.Reachable? then Stops(row, rep.sent.activity) else [])
        && stopTask == HoldStep(row, rep.sent.sessions, now).Expired?
        && reports == (if stopTask then old(reports) - {r} else old(reports))
    {
      if access.Unread? || r !in rows {
        reports := reports - {r};
        return [], false;
      }
      stops := [];
      var pinned := false;
      if access.Reachable? {
        stops, pinned := StopIdleSessions(rows[r], rep.sent.activity);
      }
      NotePinned(r, pinned, now);
      stopTask := AdvanceWarmHold(r, rep.sent.sessions, now);
    }

    /** The same, where the report is due: the object goes on being the control plane of the walk. */
    method SweepDue(r: Ref, access: Access, rep: Report, now: int, ghost c: Control, ghost d: Control)
      returns (stops: seq<Id>, stopTask: bool)
      requires Matches(d) && AsItWas(c, d, r) && Due(c, r) && c.pending[r] == rep && c.sweepAt == now
      modifies this
      ensures Matches(SweepControl(d, r, access))
      ensures Evaluated(c, r, access) && access.Reachable? ==> stops == Stops(c.rows[r], rep.sent.activity)
      ensures stopTask <==> Evaluated(c, r, access) && Expires(c, r)
    {
      JudgedAsItWas(c, d, r, access);
      if r in rows && access.Unread? { assert rows[r := rows[r]] == rows; }
      stops, stopTask := SweepOne(r, rep, access, now);
    }

    /** The loop of a sweep over the copy of the reports it made. */
    method SweepLoop(access: Ref -> Access, now: int, ghost c: Control)
      returns (idle: map<Ref, seq<Id>>, expired: set<Ref>, ghost order: seq<Ref>)
      requires Matches(c) && c.pending == reports && c.sweepAt == now
      modifies this
      ensures Distinct(order) && RefsOf(order) == c.pending.Keys
      ensures Matches(Walk(c, order, access))
      ensures Collected(c, c.pending.Keys, idle, expired, access)
    {
      var snapshot := reports;
      var rest := snapshot.Keys;
      idle, expired, order := map[], {}, [];
      while rest != {}
        invariant rest <= snapshot.Keys && snapshot == c.pending
        invariant Distinct(order) && RefsOf(order) == snapshot.Keys - rest
        invariant Matches(Walk(c, order, access))
        invariant Collected(c, RefsOf(order), idle, expired, access)
      {
        ghost var some := AMember(rest);
        var r :| r in rest;
        rest := rest - {r};
        ghost var d, before, out := Walk(c, order, access), idle, expired;
        Unswept(c, order, access, r);
        WalkMore(c, order, access, r);
        idle, expired := SweepNext(r, snapshot[r], access(r), now, c, d, idle, expired);
        CollectMore(c, RefsOf(order), before, out, access, r, idle, expired);
        order := order + [r];
      }
    }

    /** One turn of the loop. */
    method SweepNext(r: Ref, rep: Report, access: Access, now: int, ghost c: Control, ghost d: Control,
                     idle: map<Ref, seq<Id>>, expired: set<Ref>)
      returns (idle': map<Ref, seq<Id>>, expired': set<Ref>)
      requires Matches(d) && AsItWas(c, d, r) && c.pending[r] == rep && c.sweepAt == now
      modifies this
      ensures Matches(SweepControl(d, r, access))
      ensures idle' == if Evaluated(c, r, access) && access.Reachable? then idle[r := IdleIds(c, r)] else idle
      ensures expired' == if Evaluated(c, r, access) && Expires(c, r) then expired + {r} else expired
    {
      idle', expired' := idle, expired;
      if !IsFresh(now, rep.receivedAt, interval) {
        return;
      }
      var known := r in rows && !access.Unread?;
      var stops, stopTask := SweepDue(r, access, rep, now, c, d);
      if known && access.Reachable? {
        idle' := idle[r := stops];
      }
      if stopTask {
        expired' := expired + {r};
      }
    }

    /** The control plane as a sweep at `now` finds it: what the sweep walks is a copy of the reports. */
    ghost function Found(now: int): Control
      reads this
    {
      Control(interval, rows, reports, reports, now)
    }

    /** One sweep. It walks the reports in some order and is, from any world the object is the control
        plane of, exactly the events of that walk; what those come to is said of each workspace. */
    method SweepAll(access: Ref -> Access, now: int, ghost w: World)
      returns (idle: map<Ref, seq<Id>>, expired: set<Ref>, ghost order: seq<Ref>)
      modifies this
      ensures Distinct(order) && RefsOf(order) == old(reports).Keys
      ensures rows.Keys == old(rows).Keys
      ensures forall r :: r in old(rows) ==> rows[r] == SweptRow(old(Found(now)), r, access(r))
      ensures forall r :: r in reports <==> r in old(reports) && !Forgotten(old(Found(now)), r, access(r))
      ensures forall r :: r in reports ==> reports[r] == old(reports)[r]
      ensures forall r :: r in idle <==> Evaluated(old(Found(now)), r, access(r)) && access(r).Reachable?
      ensures forall r :: r in idle ==> r in old(rows) && r in old(reports) && idle[r] == IdleIds(old(Found(now)), r)
      ensures forall r :: r in expired <==> Evaluated(old(Found(now)), r, access(r)) && Expires(old(Found(now)), r)
      ensures old(Matches(ControlOf(w))) ==>
        var w' := Run(Step(w, BeginSweep(now)), SweepEvents(order, access));
        && Matches(ControlOf(w'))
        && w.stops <= w'.stops
        && SweptStops(old(Found(now)), w'.stops[|w.stops|..], old(reports).Keys, access)
    {
      ghost var c := Found(now);
      idle, expired, order := SweepLoop(access, now, c);
      WalkSweeps(c, order, access);
      forall r ensures CollectedAt(c, r in c.pending.Keys, r, idle, expired, access(r)) {}
      if old(Matches(ControlOf(w))) {
        ghost var w0 := Step(w, BeginSweep(now));
        assert ControlOf(w0) == c;
        ghost var sent := RunWalks(w0, order, access);
        assert (w.stops + sent)[|w.stops|..] == sent;
      }
    }
  }
}
