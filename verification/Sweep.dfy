/** What one whole sweep of internal/mgmtapi/reaper.go comes to, as a run of the cascade's events. */
module Sweeping {
  import opened Cascade
  import opened Workspaces

  // ---------------------------------------------------------------------------------------
  // What a sweep reads and writes
  // ---------------------------------------------------------------------------------------

  /** The part of the world that belongs to the control plane. */
  datatype Control = Control(
    interval: int,
    rows: map<Ref, Row>,
    reports: map<Ref, Report>,
    pending: map<Ref, Report>,
    sweepAt: int)

  function ControlOf(w: World): Control { Control(w.interval, w.rows, w.reports, w.pending, w.sweepAt) }

  predicate Due(c: Control, r: Ref) { r in c.pending && IsFresh(c.sweepAt, c.pending[r].receivedAt, c.interval) }

  /** The sweep evaluates this workspace: its report is fresh and its record is there and can be read. */
  predicate Evaluated(c: Control, r: Ref, access: Access) { Due(c, r) && r in c.rows && !access.Unread? }

  predicate Expires(c: Control, r: Ref)
    requires r in c.rows && r in c.pending
  {
    HoldStep(c.rows[r], c.pending[r].sent.sessions, c.sweepAt).Expired?
  }

  /** The sweep forgets this workspace's report: there is no record to judge it by, or the task is
      stopped. */
  predicate Forgotten(c: Control, r: Ref, access: Access) {
    Due(c, r) && (!Evaluated(c, r, access) || Expires(c, r))
  }

  function SweptRow(c: Control, r: Ref, access: Access): Row
    requires r in c.rows
  {
    if Evaluated(c, r, access)
    then RowAfter(c.rows[r], c.pending[r].sent, access.Reachable?, c.sweepAt) else c.rows[r]
  }

  /** The sweep stops this session for being idle. */
  predicate Idled(c: Control, r: Ref, access: Access, id: Id) {
    Evaluated(c, r, access) && access.Reachable? && id in Stops(c.rows[r], c.pending[r].sent.activity)
  }

  /** One workspace of a sweep. */
  function SweepControl(c: Control, r: Ref, access: Access): Control {
    if !Due(c, r) then c
    else c.(pending := c.pending - {r},
            rows := if r in c.rows then c.rows[r := SweptRow(c, r, access)] else c.rows,
            reports := if Forgotten(c, r, access) then c.reports - {r} else c.reports)
  }

  /** It is what the event does to the control plane. */
  lemma StepControl(w: World, r: Ref, access: Access)
    ensures ControlOf(Step(w, SweepWorkspace(r, access))) == SweepControl(ControlOf(w), r, access)
  {
    if IsDue(w, r) && r in w.rows && access.Unread? { assert w.rows[r := w.rows[r]] == w.rows; }
  }

  // ---------------------------------------------------------------------------------------
  // A walk over the reports
  // ---------------------------------------------------------------------------------------

  function RefsOf(order: seq<Ref>): set<Ref> { set r | r in order }

  /** Each reference once. */
  predicate Distinct(order: seq<Ref>) { forall i, j :: 0 <= i < j < |order| ==> order[i] != order[j] }

  function Walk(c: Control, order: seq<Ref>, access: Ref -> Access): Control {
    if order == [] then c else
      var r := order[|order| - 1];
      SweepControl(Walk(c, order[..|order| - 1], access), r, access(r))
  }

  lemma WalkMore(c: Control, order: seq<Ref>, access: Ref -> Access, r: Ref)
    ensures Walk(c, order + [r], access) == SweepControl(Walk(c, order, access), r, access(r))
    ensures RefsOf(order + [r]) == RefsOf(order) + {r}
    ensures Distinct(order) && r !in RefsOf(order) ==> Distinct(order + [r])
  {
    assert (order + [r])[..|order|] == order;
    assert r !in RefsOf(order) ==> r !in order;
  }

  /** `d` is `c`, with which the walk began, once the workspaces in `done` have been swept. */
  ghost predicate Swept(c: Control, d: Control, done: set<Ref>, access: Ref -> Access) {
    && d.interval == c.interval && d.sweepAt == c.sweepAt
    && (forall r :: r in c.pending && r !in done ==> r in d.pending && d.pending[r] == c.pending[r])
    && d.rows.Keys == c.rows.Keys
    && (forall r :: r in c.rows ==> d.rows[r] == if r in done then SweptRow(c, r, access(r)) else c.rows[r])
    && (forall r :: r in d.reports <==> r in c.reports && !(r in done && Forgotten(c, r, access(r))))
    && (forall r :: r in d.reports ==> d.reports[r] == c.reports[r])
  }

  /** Until it is swept, a workspace is as it was when the walk began. */
  predicate AsItWas(c: Control, d: Control, r: Ref) {
    && d.interval == c.interval && d.sweepAt == c.sweepAt
    && r in c.pending && r in d.pending && d.pending[r] == c.pending[r]
    && (r in c.rows <==> r in d.rows) && (r in c.rows ==> d.rows[r] == c.rows[r])
  }

  lemma JudgedAsItWas(c: Control, d: Control, r: Ref, access: Access)
    requires AsItWas(c, d, r)
    ensures Due(d, r) == Due(c, r) && Evaluated(d, r, access) == Evaluated(c, r, access)
    ensures Forgotten(d, r, access) == Forgotten(c, r, access)
    ensures r in c.rows ==> SweptRow(d, r, access) == SweptRow(c, r, access) && Expires(d, r) == Expires(c, r)
    ensures forall id :: Idled(d, r, access, id) <==> Idled(c, r, access, id)
  {
  }

  lemma SweptStep(c: Control, d: Control, done: set<Ref>, access: Ref -> Access, r: Ref)
    requires Swept(c, d, done, access) && r in c.pending && r !in done
    ensures Swept(c, SweepControl(d, r, access(r)), done + {r}, access)
  {
    JudgedAsItWas(c, d, r, access(r));
  }

  /** What any sweep comes to, in whatever order it walks: every workspace with a fresh report and a
      record is evaluated once, against the row and the report the sweep began with; no other row
      changes, and no other report is forgotten. */
  lemma {:induction false} WalkSweeps(c: Control, order: seq<Ref>, access: Ref -> Access)
    requires Distinct(order) && RefsOf(order) <= c.pending.Keys
    ensures Swept(c, Walk(c, order, access), RefsOf(order), access)
  {
    if order != [] {
      var init, r := order[..|order| - 1], order[|order| - 1];
      assert order == init + [r];
      WalkMore(c, init, access, r);
      WalkSweeps(c, init, access);
      SweptStep(c, Walk(c, init, access), RefsOf(init), access, r);
    }
  }

  /** A workspace the walk has not come to is as it was. */
  lemma Unswept(c: Control, order: seq<Ref>, access: Ref -> Access, r: Ref)
    requires Distinct(order) && RefsOf(order) <= c.pending.Keys && r in c.pending && r !in RefsOf(order)
    ensures AsItWas(c, Walk(c, order, access), r)
  {
    WalkSweeps(c, order, access);
  }

  // ---------------------------------------------------------------------------------------
  // The stops a sweep sends
  // ---------------------------------------------------------------------------------------

  function SweepEvents(order: seq<Ref>, access: Ref -> Access): seq<Event> {
    if order == [] then [] else
      var r := order[|order| - 1];
      SweepEvents(order[..|order| - 1], access) + [SweepWorkspace(r, access(r))]
  }

  lemma EventsMore(w: World, order: seq<Ref>, access: Ref -> Access, r: Ref)
    ensures Run(w, SweepEvents(order + [r], access))
         == Step(Run(w, SweepEvents(order, access)), SweepWorkspace(r, access(r)))
  {
    assert (order + [r])[..|order|] == order;
    var es := SweepEvents(order + [r], access);
    assert es[..|es| - 1] == SweepEvents(order, access);
  }

  predicate IdleSent(stops: seq<Stop>, r: Ref, id: Id) {
    exists st :: st in stops && st.IdleStop? && st.ref == r && st.id == id
  }

  predicate HoldSent(stops: seq<Stop>, r: Ref) { exists st :: st in stops && st.HoldStop? && st.ref == r }

  /** The idle stops sent for one workspace, and the stop of its task. */
  function IdleOnes(v: World, r: Ref, access: Access): seq<Stop> {
    if Evaluated(ControlOf(v), r, access) && access.Reachable? then IdleStops(r, v.rows[r], v.pending[r], v.sweepAt)
    else []
  }

  function HoldOnes(v: World, r: Ref, access: Access): seq<Stop> {
    if Evaluated(ControlOf(v), r, access) && Expires(ControlOf(v), r)
    then [HoldStop(r, v.sweepAt, EvalsOf(v, r) + [EvalOf(v.rows[r], v.pending[r].sent, access.Reachable?, v.sweepAt)])]
    else []
  }

  lemma StepStops(v: World, r: Ref, access: Access)
    ensures Step(v, SweepWorkspace(r, access)).stops == v.stops + IdleOnes(v, r, access) + HoldOnes(v, r, access)
  {
  }

  lemma IdleOnesMean(v: World, r: Ref, access: Access, q: Ref, id: Id)
    ensures IdleSent(IdleOnes(v, r, access), q, id) <==> q == r && Idled(ControlOf(v), r, access, id)
    ensures !HoldSent(IdleOnes(v, r, access), q)
  {
    if q == r && Idled(ControlOf(v), r, access, id) {
      var ids := Stops(v.rows[r], v.pending[r].sent.activity);
      var i :| 0 <= i < |ids| && ids[i] == id;
      var st := IdleOnes(v, r, access)[i];
      assert st in IdleOnes(v, r, access) && st.IdleStop? && st.ref == r && st.id == id;
    }
  }

  lemma HoldOnesMean(v: World, r: Ref, access: Access, q: Ref, id: Id)
    ensures !IdleSent(HoldOnes(v, r, access), q, id)
    ensures HoldSent(HoldOnes(v, r, access), q) <==>
      q == r && Evaluated(ControlOf(v), r, access) && Expires(ControlOf(v), r)
  {
    var ones := HoldOnes(v, r, access);
    if ones != [] { assert ones[0] in ones; }
  }

  lemma SentMore(a: seq<Stop>, b: seq<Stop>, r: Ref, id: Id)
    ensures IdleSent(a + b, r, id) <==> IdleSent(a, r, id) || IdleSent(b, r, id)
    ensures HoldSent(a + b, r) <==> HoldSent(a, r) || HoldSent(b, r)
  {
    assert forall st :: st in a + b <==> st in a || st in b;
  }

  /** The stops sent for the workspaces in `done` are those their verdicts call for. */
  ghost predicate SweptStops(c: Control, sent: seq<Stop>, done: set<Ref>, access: Ref -> Access) {
    forall r, id :: SentRight(c, sent, r in done, r, access(r), id)
  }

  predicate SentRight(c: Control, sent: seq<Stop>, done: bool, r: Ref, access: Access, id: Id) {
    && (IdleSent(sent, r, id) <==> done && Idled(c, r, access, id))
    && (HoldSent(sent, r) <==> done && Evaluated(c, r, access) && Expires(c, r))
  }

  /** What sweeping `r` sends, about `r` and about anything else. */
  lemma OneMoreSent(c: Control, v: World, sent: seq<Stop>, done: set<Ref>, access: Ref -> Access,
                    r: Ref, q: Ref, id: Id)
    requires AsItWas(c, ControlOf(v), r) && r !in done && SentRight(c, sent, q in done, q, access(q), id)
    ensures var more := sent + IdleOnes(v, r, access(r)) + HoldOnes(v, r, access(r));
      SentRight(c, more, q in done + {r}, q, access(q), id)
  {
    JudgedAsItWas(c, ControlOf(v), r, access(r));
    SentMore(sent, IdleOnes(v, r, access(r)), q, id);
    SentMore(sent + IdleOnes(v, r, access(r)), HoldOnes(v, r, access(r)), q, id);
    IdleOnesMean(v, r, access(r), q, id);
    HoldOnesMean(v, r, access(r), q, id);
  }

  lemma MoreSent(c: Control, v: World, sent: seq<Stop>, done: set<Ref>, access: Ref -> Access, r: Ref)
    requires AsItWas(c, ControlOf(v), r) && r !in done && SweptStops(c, sent, done, access)
    ensures SweptStops(c, sent + IdleOnes(v, r, access(r)) + HoldOnes(v, r, access(r)), done + {r}, access)
  {
    var more := sent + IdleOnes(v, r, access(r)) + HoldOnes(v, r, access(r));
    forall q, id ensures SentRight(c, more, q in done + {r}, q, access(q), id) {
      assert SentRight(c, sent, q in done, q, access(q), id);
      OneMoreSent(c, v, sent, done, access, r, q, id);
    }
  }

  /** The events of a walk are the walk, and the stops they send are exactly those of the workspaces
      walked. */
  lemma {:induction false} RunWalks(w: World, order: seq<Ref>, access: Ref -> Access) returns (sent: seq<Stop>)
    requires Distinct(order) && RefsOf(order) <= w.pending.Keys
    ensures var w' := Run(w, SweepEvents(order, access));
      && ControlOf(w') == Walk(ControlOf(w), order, access)
      && w'.stops == w.stops + sent
      && SweptStops(ControlOf(w), sent, RefsOf(order), access)
  {
    if order == [] {
      sent := [];
      assert w.stops + sent == w.stops;
    } else {
      var init, r := order[..|order| - 1], order[|order| - 1];
      assert order == init + [r];
      WalkMore(ControlOf(w), init, access, r);
      EventsMore(w, init, access, r);
      var before := RunWalks(w, init, access);
      Unswept(ControlOf(w), init, access, r);
      sent := StepSends(ControlOf(w), Run(w, SweepEvents(init, access)), w.stops, before, RefsOf(init), access, r);
    }
  }

  lemma StepSends(c: Control, v: World, base: seq<Stop>, before: seq<Stop>, done: set<Ref>,
                  access: Ref -> Access, r: Ref)
    returns (sent: seq<Stop>)
    requires AsItWas(c, ControlOf(v), r) && r !in done
    requires v.stops == base + before && SweptStops(c, before, done, access)
    ensures var v' := Step(v, SweepWorkspace(r, access(r)));
      && ControlOf(v') == SweepControl(ControlOf(v), r, access(r))
      && v'.stops == base + sent
      && SweptStops(c, sent, done + {r}, access)
  {
    var a, b := IdleOnes(v, r, access(r)), HoldOnes(v, r, access(r));
    StepControl(v, r, access(r));
    StepStops(v, r, access(r));
    MoreSent(c, v, before, done, access, r);
    sent := before + a + b;
    assert (base + before) + a + b == base + sent;
  }

  // ---------------------------------------------------------------------------------------
  // What the sweep's loop collects
  // ---------------------------------------------------------------------------------------

  /** The sessions a report gets stopped, in its order. */
  function IdleIds(c: Control, r: Ref): seq<Id>
    requires r in c.rows && r in c.pending
  {
    Stops(c.rows[r], c.pending[r].sent.activity)
  }

  predicate CollectedAt(c: Control, done: bool, r: Ref, idle: map<Ref, seq<Id>>, expired: set<Ref>, access: Access) {
    && (r in idle <==> done && Evaluated(c, r, access) && access.Reachable?)
    && (r in idle ==> r in c.rows && r in c.pending && idle[r] == IdleIds(c, r))
    && (r in expired <==> done && Evaluated(c, r, access) && Expires(c, r))
  }

  ghost predicate Collected(
      c: Control, done: set<Ref>, idle: map<Ref, seq<Id>>, expired: set<Ref>, access: Ref -> Access) {
    forall r {:trigger access(r)} :: CollectedAt(c, r in done, r, idle, expired, access(r))
  }

  lemma CollectMore(c: Control, done: set<Ref>, idle: map<Ref, seq<Id>>, expired: set<Ref>,
                    access: Ref -> Access, r: Ref, idle': map<Ref, seq<Id>>, expired': set<Ref>)
    requires Collected(c, done, idle, expired, access) && r !in done
    requires idle' == if Evaluated(c, r, access(r)) && access(r).Reachable? then idle[r := IdleIds(c, r)] else idle
    requires expired' == if Evaluated(c, r, access(r)) && Expires(c, r) then expired + {r} else expired
    ensures Collected(c, done + {r}, idle', expired', access)
  {
    forall q ensures CollectedAt(c, q in done + {r}, q, idle', expired', access(q)) {
      assert CollectedAt(c, q in done, q, idle, expired, access(q));
    }
  }
}
