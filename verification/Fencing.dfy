/** The generation as a fencing token: ensureWorkspace in internal/mgmtapi/api.go, the admission of
    control tunnels in internal/mgmtapi/tunnels.go and of data tunnels in internal/relay/relay.go,
    the retry loop of internal/agent/agent.go, and the two-tunnel lifetime of a task in
    internal/supervisor/supervisor.go.

    One control-plane process, since the placement lock is per process; it may restart at any point.
    A deleted workspace's name may be recorded again, and its generations then start over. */
module Fencing {
  import opened Decimal
  import opened Creds
  import opened Workspaces

  type TaskId = nat

  /** One of a task's two tunnels, as its retry loop sees it. A task whose start command has been sent
      and not carried out has not started either loop. */
  datatype Loop = Unstarted | Retrying | Up | Returned

  datatype Task = Task(
    ref: Ref,
    generation: nat,
    credential: Tag,
    control: Loop,
    data: Loop,
    orphaned: bool,         // the control loop ended on a refusal
    cancelled: bool,        // Supervisor.Run has returned and the context is gone
    controlDials: nat,      // history: control dials that reached the control plane
    admissions: nat,        // history: those that were admitted
    dataDials: nat)         // history: data dials that reached the relay

  /** The holder of a workspace's placement lock, and how far it has got. */
  datatype Placing = Looking | Missed | Placed(generation: nat) | Dispatched

  datatype World = World(
    key: Key,
    rows: map<Ref, nat>,          // generation of each workspace record
    names: set<Ref>,              // history: every name ever recorded
    placing: map<Ref, Placing>,   // locks held
    tasks: map<TaskId, Task>)

  /** What happens to one task. */
  datatype TaskEvent =
    | Start                                      // the runner carries out the start command
    | ControlDial(network: bool, read: bool)     // read: the record could be looked up
    | ControlDrop
    | DataDial(network: bool, relayKey: Key)
    | DataDrop
    | Return                                     // Supervisor.Run: sessions stopped, context cancelled

  datatype Event =
    | CreateRow(r: Ref)
    | DeleteRow(r: Ref)
    | Lock(r: Ref)
    | NoTunnel(r: Ref)              // no tunnel, and none came back within the grace
    | TakeGeneration(r: Ref)
    | Dispatch(r: Ref, t: TaskId)   // the start command is sent; it may be carried out at any later point
    | Unlock(r: Ref)                // a tunnel was found, the placement finished, failed or timed out
    | Restart                       // locks and tunnels go; records, key, tasks and commands sent stay
    | OnTask(t: TaskId, ev: TaskEvent)

  function Init(key: Key): World { World(key, map[], {}, map[], map[]) }

  /** handleWorkspaceTunnel: the record is the authority on which generation is valid. */
  predicate Admitted(w: World, t: Task) {
    t.ref in w.rows && VerifyWorkspace(w.key, t.ref.tenant, t.ref.name, w.rows[t.ref], t.credential)
  }

  /** handleDataTunnel: the generation is announced by the task, not looked up. */
  predicate RelayAccepts(relayKey: Key, t: Task) {
    VerifyWorkspace(relayKey, t.ref.tenant, t.ref.name, t.generation, t.credential)
  }

  function Dialled(k: Task, network: bool, admitted: bool): Task
    requires k.control.Retrying?
  {
    if k.cancelled then k.(control := Returned)
    else if !network then k
    else if admitted then k.(control := Up, controlDials := k.controlDials + 1, admissions := k.admissions + 1)
    else k.(control := Returned, orphaned := true, controlDials := k.controlDials + 1)
  }

  function DataDialled(k: Task, network: bool, relayKey: Key): Task
    requires k.data.Retrying?
  {
    if k.cancelled then k.(data := Returned)
    else if !network then k
    else if RelayAccepts(relayKey, k) then k.(data := Up, dataDials := k.dataDials + 1)
    else k.(dataDials := k.dataDials + 1)   // not fatal here: the sessions keep running unattached
  }

  function NewTask(key: Key, r: Ref, g: nat): Task {
    Task(r, g, WorkspaceToken(key, r.tenant, r.name, g), Unstarted, Unstarted, false, false, 0, 0, 0)
  }

  function Dropped(k: Task): Task { if k.control.Up? then k.(control := Retrying) else k }

  /** A task's own life, given whether its credential matches the record. A lookup that fails is
      answered like a credential that does not match. */
  function TaskStep(k: Task, ev: TaskEvent, matches: bool): Task {
    match ev
    case Start => if !k.control.Unstarted? then k else k.(control := Retrying, data := Retrying)
    case ControlDial(network, read) => if !k.control.Retrying? then k else Dialled(k, network, read && matches)
    case ControlDrop => Dropped(k)
    case DataDial(network, relayKey) => if !k.data.Retrying? then k else DataDialled(k, network, relayKey)
    case DataDrop => if !k.data.Up? then k else k.(data := Retrying)
    case Return => if !k.control.Returned? then k else k.(cancelled := true, data := Returned)
  }

  function Step(w: World, e: Event): World {
    match e
    case CreateRow(r) =>
      if r in w.rows || !GoString(r.tenant) || !GoString(r.name) then w
      else w.(rows := w.rows[r := 0], names := w.names + {r})
    case DeleteRow(r) => w.(rows := w.rows - {r})
    case Lock(r) => if r in w.placing then w else w.(placing := w.placing[r := Looking])
    case NoTunnel(r) => if r !in w.placing || !w.placing[r].Looking? then w else w.(placing := w.placing[r := Missed])
    case TakeGeneration(r) =>
      if r !in w.placing || !w.placing[r].Missed? || r !in w.rows || w.rows[r] >= MAX_INT64 then w
      else w.(rows := w.rows[r := w.rows[r] + 1], placing := w.placing[r := Placed(w.rows[r] + 1)])
    case Dispatch(r, t) =>
      if r !in w.placing || !w.placing[r].Placed? || t in w.tasks then w
      else w.(placing := w.placing[r := Dispatched],
              tasks := w.tasks[t := NewTask(w.key, r, w.placing[r].generation)])
    case Unlock(r) => w.(placing := w.placing - {r})
    case Restart => w.(placing := map[], tasks := map t | t in w.tasks :: Dropped(w.tasks[t]))
    case OnTask(t, ev) =>
      if t !in w.tasks then w
      else w.(tasks := w.tasks[t := TaskStep(w.tasks[t], ev, Admitted(w, w.tasks[t]))])
  }

  function Run(w: World, es: seq<Event>): World {
    if es == [] then w else Step(Run(w, es[..|es| - 1]), es[|es| - 1])
  }

  // ---------------------------------------------------------------------------------------
  // What every step keeps
  // ---------------------------------------------------------------------------------------

  /** The loops of a task end in order. */
  predicate LoopsOk(k: Task) {
    && (k.orphaned ==> k.control.Returned?)
    && (k.cancelled ==> k.control.Returned? && k.data.Returned?)
  }

  predicate SameTask(k: Task, k': Task) {
    k'.ref == k.ref && k'.generation == k.generation && k'.credential == k.credential
  }

  lemma TaskStepKeeps(k: Task, ev: TaskEvent, matches: bool)
    ensures SameTask(k, TaskStep(k, ev, matches)) && (LoopsOk(k) ==> LoopsOk(TaskStep(k, ev, matches)))
  {
  }

  predicate TaskOk(w: World, k: Task) {
    && k.ref in w.names
    && k.credential == WorkspaceToken(w.key, k.ref.tenant, k.ref.name, k.generation)
    && 1 <= k.generation <= MAX_INT64
    && LoopsOk(k)
  }

  predicate PlacingOk(w: World, r: Ref)
    requires r in w.placing
  {
    w.placing[r].Placed? ==> r in w.names && 1 <= w.placing[r].generation <= MAX_INT64
  }

  /** Every task carries the credential of its own workspace and generation. */
  predicate Inv(w: World) {
    && (forall r :: r in w.rows ==> r in w.names && w.rows[r] <= MAX_INT64)
    && (forall r :: r in w.names ==> GoString(r.tenant) && GoString(r.name))
    && (forall r :: r in w.placing ==> PlacingOk(w, r))
    && (forall t :: t in w.tasks ==> TaskOk(w, w.tasks[t]))
  }

  /** A step leaves every task what it was, or moves it along, or it is the one just dispatched. */
  lemma StepTasks(w: World, e: Event, t: TaskId)
    requires Inv(w) && t in Step(w, e).tasks
    ensures TaskOk(Step(w, e), Step(w, e).tasks[t])
  {
    if t in w.tasks {
      assert TaskOk(w, w.tasks[t]);
      if e.OnTask? { TaskStepKeeps(w.tasks[t], e.ev, Admitted(w, w.tasks[t])); }
    } else {
      assert PlacingOk(w, e.r);
    }
  }

  lemma StepKeeps(w: World, e: Event)
    requires Inv(w)
    ensures Inv(Step(w, e))
  {
    forall t | t in Step(w, e).tasks { StepTasks(w, e, t); }
    forall r | r in Step(w, e).placing { StepPlacing(w, e, r); }
  }

  lemma StepPlacing(w: World, e: Event, r: Ref)
    requires Inv(w) && r in Step(w, e).placing
    ensures PlacingOk(Step(w, e), r)
  {
    assert r in w.placing ==> PlacingOk(w, r);
  }

  lemma {:induction false} RunKeeps(w: World, es: seq<Event>)
    requires Inv(w)
    ensures Inv(Run(w, es))
  {
    if es != [] {
      RunKeeps(w, es[..|es| - 1]);
      StepKeeps(Run(w, es[..|es| - 1]), es[|es| - 1]);
    }
  }

  // ---------------------------------------------------------------------------------------
  // One task per generation, while a name is not recorded twice
  // ---------------------------------------------------------------------------------------

  /** This event does not record a deleted workspace's name again. */
  predicate NotReused(w: World, e: Event, r: Ref) { e == CreateRow(r) ==> r in w.rows || r !in w.names }

  predicate NeverReused(w: World, es: seq<Event>, r: Ref) {
    forall i :: 0 <= i < |es| ==> NotReused(Run(w, es[..i]), es[i], r)
  }

  /** The generations of a workspace's tasks differ and none is ahead of the record; a placement that
      has taken one has the current one, and no task has it yet. */
  predicate Fenced(w: World, r: Ref) {
    && (forall t :: t in w.tasks && w.tasks[t].ref == r && r in w.rows ==> w.tasks[t].generation <= w.rows[r])
    && (forall s, t :: s in w.tasks && t in w.tasks && s != t && w.tasks[s].ref == r && w.tasks[t].ref == r
          ==> w.tasks[s].generation != w.tasks[t].generation)
    && (r in w.placing && w.placing[r].Placed? ==>
          && (r in w.rows ==> w.placing[r].generation == w.rows[r])
          && (forall t :: t in w.tasks && w.tasks[t].ref == r ==> w.tasks[t].generation < w.placing[r].generation))
  }

  /** A task's workspace and generation never change. */
  lemma StepSame(w: World, e: Event, t: TaskId)
    requires t in w.tasks
    ensures t in Step(w, e).tasks && SameTask(w.tasks[t], Step(w, e).tasks[t])
  {
    if e.OnTask? { TaskStepKeeps(w.tasks[t], e.ev, Admitted(w, w.tasks[t])); }
  }

  lemma FencedSame(w: World, w': World, r: Ref)
    requires Fenced(w, r) && w'.tasks.Keys == w.tasks.Keys && w'.rows == w.rows
    requires w'.placing == w.placing || w'.placing == map[]
    requires forall t :: t in w.tasks ==> SameTask(w.tasks[t], w'.tasks[t])
    ensures Fenced(w', r)
  {
  }

  lemma FencedStep(w: World, e: Event, r: Ref)
    requires Fenced(w, r) && Inv(w) && NotReused(w, e, r)
    ensures Fenced(Step(w, e), r)
  {
    if e.OnTask? || e.Restart? {
      FencedTasks(w, e, r);
    } else if e.CreateRow? {
      FencedCreate(w, e.r, r);
    } else {
      FencedPlacing(w, e, r);
    }
  }

  lemma FencedTasks(w: World, e: Event, r: Ref)
    requires Fenced(w, r) && (e.OnTask? || e.Restart?)
    ensures Fenced(Step(w, e), r)
  {
    forall t | t in w.tasks ensures SameTask(w.tasks[t], Step(w, e).tasks[t]) { StepSame(w, e, t); }
    FencedSame(w, Step(w, e), r);
  }

  lemma FencedPlacing(w: World, e: Event, r: Ref)
    requires Fenced(w, r) && !e.OnTask? && !e.Restart? && !e.CreateRow?
    ensures Fenced(Step(w, e), r)
  {
  }

  lemma FencedCreate(w: World, q: Ref, r: Ref)
    requires Fenced(w, r) && Inv(w) && NotReused(w, CreateRow(q), r)
    ensures Fenced(Step(w, CreateRow(q)), r)
  {
    if q == r && r !in w.names {
      forall t | t in w.tasks ensures w.tasks[t].ref != r { assert TaskOk(w, w.tasks[t]); }
      if r in w.placing { assert PlacingOk(w, r); }
    }
  }

  lemma {:induction false} FencedRun(w: World, es: seq<Event>, r: Ref)
    requires Inv(w) && Fenced(w, r) && NeverReused(w, es, r)
    ensures Fenced(Run(w, es), r)
  {
    if es != [] {
      var init, e := es[..|es| - 1], es[|es| - 1];
      forall i | 0 <= i < |init| ensures NotReused(Run(w, init[..i]), init[i], r) {
        assert init[..i] == es[..i] && NotReused(Run(w, es[..i]), es[i], r);
      }
      FencedRun(w, init, r);
      RunKeeps(w, init);
      assert NotReused(Run(w, init), e, r);
      FencedStep(Run(w, init), e, r);
    }
  }

  // ---------------------------------------------------------------------------------------
  // The promises
  // ---------------------------------------------------------------------------------------

  /** The record names this task's generation. */
  predicate Current(w: World, t: Task) { t.ref in w.rows && w.rows[t.ref] == t.generation }

  /** A task's credential matches the record exactly when the record names its generation. */
  lemma AdmittedExactly(w: World, t: TaskId)
    requires Inv(w) && t in w.tasks
    ensures Admitted(w, w.tasks[t]) <==> Current(w, w.tasks[t])
  {
    var k := w.tasks[t];
    assert TaskOk(w, k);
    if k.ref in w.rows {
      WorkspaceTokenBinds(w.key, k.ref.tenant, k.ref.name, k.generation, k.ref.tenant, k.ref.name, w.rows[k.ref]);
    }
  }

  /** At no point of a run that does not record a workspace's name twice can two of its tasks both
      be admitted. */
  lemma OneTaskPerWorkspace(key: Key, es: seq<Event>, r: Ref, s: TaskId, t: TaskId)
    requires NeverReused(Init(key), es, r)
    requires var w := Run(Init(key), es);
      s in w.tasks && t in w.tasks && s != t && w.tasks[s].ref == r && w.tasks[t].ref == r
    ensures var w := Run(Init(key), es); !(Admitted(w, w.tasks[s]) && Admitted(w, w.tasks[t]))
  {
    RunKeeps(Init(key), es);
    FencedRun(Init(key), es, r);
    var w := Run(Init(key), es);
    AdmittedExactly(w, s);
    AdmittedExactly(w, t);
  }

  /** Only a placement moves a generation, by one, while holding that workspace's lock and after
      finding no tunnel. Nothing else does: not a stop, a dropped tunnel or a restart. */
  lemma OnlyPlacementAdvances(w: World, e: Event, r: Ref)
    requires r in w.rows && r in Step(w, e).rows && Step(w, e).rows[r] != w.rows[r]
    ensures e == TakeGeneration(r) && r in w.placing && w.placing[r].Missed? && Step(w, e).rows[r] == w.rows[r] + 1
  {
  }

  /** The record is past this task's generation, or gone. */
  predicate Replaced(w: World, t: TaskId)
    requires t in w.tasks
  {
    var k := w.tasks[t];
    k.ref in w.names && (k.ref in w.rows ==> w.rows[k.ref] > k.generation)
  }

  lemma RecordMovesOn(w: World, e: Event, r: Ref)
    requires r in w.names && NotReused(w, e, r)
    ensures r in Step(w, e).names
    ensures r in Step(w, e).rows ==> r in w.rows && Step(w, e).rows[r] >= w.rows[r]
  {
  }

  /** What a step may do to a task whose credential no longer matches. */
  predicate Refusable(k: Task, k': Task) {
    && SameTask(k, k')
    && k'.admissions == k.admissions
    && k'.controlDials <= k.controlDials + (if k.control.Returned? then 0 else 1)
    && (k'.controlDials > k.controlDials || k.control.Returned? ==> k'.control.Returned?)
  }

  lemma TaskStepRefusable(k: Task, ev: TaskEvent)
    ensures Refusable(k, TaskStep(k, ev, false))
  {
  }

  lemma StaysReplaced(w: World, e: Event, t: TaskId)
    requires Inv(w) && t in w.tasks && Replaced(w, t) && NotReused(w, e, w.tasks[t].ref)
    ensures var w' := Step(w, e); t in w'.tasks && Refusable(w.tasks[t], w'.tasks[t]) && Replaced(w', t)
  {
    RecordMovesOn(w, e, w.tasks[t].ref);
    AdmittedExactly(w, t);
    if e.OnTask? { TaskStepRefusable(w.tasks[t], e.ev); }
  }

  lemma {:induction false} ReplacedRun(w: World, es: seq<Event>, t: TaskId)
    requires Inv(w) && t in w.tasks && Replaced(w, t) && NeverReused(w, es, w.tasks[t].ref)
    ensures var w' := Run(w, es);
      && t in w'.tasks && Replaced(w', t) && w'.tasks[t].ref == w.tasks[t].ref
      && w'.tasks[t].admissions == w.tasks[t].admissions
      && w'.tasks[t].controlDials <= w.tasks[t].controlDials + 1
      && (w'.tasks[t].controlDials > w.tasks[t].controlDials ==> w'.tasks[t].control.Returned?)
  {
    if es != [] {
      var init, e, r := es[..|es| - 1], es[|es| - 1], w.tasks[t].ref;
      forall i | 0 <= i < |init| ensures NotReused(Run(w, init[..i]), init[i], r) {
        assert init[..i] == es[..i] && NotReused(Run(w, es[..i]), es[i], r);
      }
      ReplacedRun(w, init, t);
      RunKeeps(w, init);
      assert NotReused(Run(w, init), e, r);
      StaysReplaced(Run(w, init), e, t);
    }
  }

  /** Fencing: once a workspace's generation has passed a task's, or its record is gone, no later
      control dial of that task is ever admitted, restarts included, and at most one more even
      reaches the control plane before its control loop has ended. All it takes is that the name is
      not recorded again from here on. */
  lemma ReplacedIsNeverAdmitted(key: Key, es: seq<Event>, later: seq<Event>, t: TaskId)
    requires t in Run(Init(key), es).tasks && Replaced(Run(Init(key), es), t)
    requires NeverReused(Run(Init(key), es), later, Run(Init(key), es).tasks[t].ref)
    ensures var w, w' := Run(Init(key), es), Run(Run(Init(key), es), later);
      && t in w'.tasks
      && w'.tasks[t].admissions == w.tasks[t].admissions
      && w'.tasks[t].controlDials <= w.tasks[t].controlDials + 1
      && (w'.tasks[t].controlDials > w.tasks[t].controlDials ==> w'.tasks[t].control.Returned?)
  {
    RunKeeps(Init(key), es);
    ReplacedRun(Run(Init(key), es), later, t);
  }

  // ---------------------------------------------------------------------------------------
  // The condition is needed: a name recorded again counts up to the old generation
  // ---------------------------------------------------------------------------------------

  /** One placement that gets as far as its generation. */
  function OnePlacement(r: Ref): seq<Event> { [Unlock(r), Lock(r), NoTunnel(r), TakeGeneration(r)] }

  function Placements(r: Ref, n: nat): seq<Event> { if n == 0 then [] else Placements(r, n - 1) + OnePlacement(r) }

  lemma {:induction false} RunConcat(w: World, es: seq<Event>, later: seq<Event>)
    ensures Run(w, es + later) == Run(Run(w, es), later)
  {
    if later == [] {
      assert es + later == es;
    } else {
      assert (es + later)[..|es + later| - 1] == es + later[..|later| - 1];
      RunConcat(w, es, later[..|later| - 1]);
    }
  }

  lemma RunOne(w: World, es: seq<Event>, e: Event)
    ensures Run(w, es + [e]) == Step(Run(w, es), e)
  {
    assert (es + [e])[..|es|] == es;
  }

  lemma RunTwo(w: World, a: Event, b: Event)
    ensures Run(w, [a, b]) == Step(Step(w, a), b)
  {
    RunOne(w, [], a);
    assert [] + [a] == [a];
    RunOne(w, [a], b);
    assert [a] + [b] == [a, b];
  }

  /** Nothing but one workspace's lock and record has changed. */
  predicate At(w: World, w': World, r: Ref, g: nat, p: Placing) {
    && r in w'.rows && w'.rows[r] == g
    && w'.tasks == w.tasks
    && r in w'.placing && w'.placing[r] == p
  }

  lemma OnePlacementRuns(w: World, r: Ref)
    requires r in w.rows && w.rows[r] < MAX_INT64
    ensures At(w, Run(w, OnePlacement(r)), r, w.rows[r] + 1, Placed(w.rows[r] + 1))
  {
    RunConcat(w, [Unlock(r), Lock(r)], [NoTunnel(r), TakeGeneration(r)]);
    assert OnePlacement(r) == [Unlock(r), Lock(r)] + [NoTunnel(r), TakeGeneration(r)];
    LockAfresh(w, r);
    PlaceLocked(Run(w, [Unlock(r), Lock(r)]), r);
  }

  lemma LockAfresh(w: World, r: Ref)
    requires r in w.rows
    ensures At(w, Run(w, [Unlock(r), Lock(r)]), r, w.rows[r], Looking)
  {
    RunTwo(w, Unlock(r), Lock(r));
    UnlockStep(w, r);
    LockStep(Step(w, Unlock(r)), r);
  }

  lemma UnlockStep(w: World, r: Ref)
    ensures var v := Step(w, Unlock(r)); r !in v.placing && v.rows == w.rows && v.tasks == w.tasks
  {
  }

  lemma LockStep(w: World, r: Ref)
    requires r in w.rows && r !in w.placing
    ensures At(w, Step(w, Lock(r)), r, w.rows[r], Looking)
  {
  }

  lemma PlaceLocked(w: World, r: Ref)
    requires r in w.rows && w.rows[r] < MAX_INT64 && r in w.placing && w.placing[r].Looking?
    ensures At(w, Run(w, [NoTunnel(r), TakeGeneration(r)]), r, w.rows[r] + 1, Placed(w.rows[r] + 1))
  {
    RunTwo(w, NoTunnel(r), TakeGeneration(r));
    assert At(w, Step(w, NoTunnel(r)), r, w.rows[r], Missed);
  }

  lemma {:induction false} PlacementsRun(w: World, r: Ref, n: nat)
    requires r in w.rows && w.rows[r] + n <= MAX_INT64
    ensures var w' := Run(w, Placements(r, n));
      && r in w'.rows && w'.rows[r] == w.rows[r] + n
      && w'.tasks == w.tasks
      && (n > 0 ==> r in w'.placing && w'.placing[r] == Placed(w.rows[r] + n))
  {
    if n > 0 {
      PlacementsRun(w, r, n - 1);
      RunConcat(w, Placements(r, n - 1), OnePlacement(r));
      OnePlacementRuns(Run(w, Placements(r, n - 1)), r);
    }
  }

  /** What brings a deleted workspace's name back to generation `g`, with a task started there. */
  function Reuse(r: Ref, g: nat, s: TaskId): seq<Event> {
    [CreateRow(r)] + Placements(r, g) + [Dispatch(r, s), OnTask(s, Start)]
  }

  lemma CreateThenPlace(w: World, r: Ref, g: nat)
    requires r !in w.rows && GoString(r.tenant) && GoString(r.name) && 1 <= g <= MAX_INT64
    ensures At(w, Run(w, [CreateRow(r)] + Placements(r, g)), r, g, Placed(g))
  {
    RunConcat(w, [CreateRow(r)], Placements(r, g));
    RunOne(w, [], CreateRow(r));
    assert [] + [CreateRow(r)] == [CreateRow(r)];
    PlacementsRun(Step(w, CreateRow(r)), r, g);
  }

  /** `v` is `w` with a started task of generation `g` of `r`, which is the recorded one. */
  predicate WithTask(w: World, v: World, r: Ref, g: nat, s: TaskId) {
    && r in v.rows && v.rows[r] == g
    && s in v.tasks && v.tasks[s].ref == r && v.tasks[s].generation == g
    && v.tasks[s].control.Retrying? && !v.tasks[s].cancelled && v.tasks[s].admissions == 0
    && v.tasks.Keys == w.tasks.Keys + {s} && (forall t :: t in w.tasks && t != s ==> v.tasks[t] == w.tasks[t])
  }

  lemma DispatchAndStart(w: World, r: Ref, g: nat, s: TaskId)
    requires r in w.rows && w.rows[r] == g && r in w.placing && w.placing[r] == Placed(g) && s !in w.tasks
    ensures WithTask(w, Run(w, [Dispatch(r, s), OnTask(s, Start)]), r, g, s)
  {
    RunTwo(w, Dispatch(r, s), OnTask(s, Start));
  }

  lemma ReuseRuns(w: World, r: Ref, g: nat, s: TaskId)
    requires r !in w.rows && GoString(r.tenant) && GoString(r.name) && 1 <= g <= MAX_INT64 && s !in w.tasks
    ensures WithTask(w, Run(w, Reuse(r, g, s)), r, g, s)
  {
    CreateThenPlace(w, r, g);
    RunConcat(w, [CreateRow(r)] + Placements(r, g), [Dispatch(r, s), OnTask(s, Start)]);
    DispatchAndStart(Run(w, [CreateRow(r)] + Placements(r, g)), r, g, s);
  }

  /** Both tasks dial, and their records can be read. */
  function BothDial(t: TaskId, s: TaskId): seq<Event> {
    [OnTask(t, ControlDial(true, true)), OnTask(s, ControlDial(true, true))]
  }

  /** After any run that has deleted a workspace with a task of it still dialling, recording the name
      again and placing it often enough gets the old task admitted beside a new one. */
  lemma ReusedNameAdmitsBoth(key: Key, es: seq<Event>, t: TaskId, s: TaskId)
    requires var w := Run(Init(key), es);
      && t in w.tasks && w.tasks[t].ref !in w.rows && s !in w.tasks
      && w.tasks[t].control.Retrying? && !w.tasks[t].cancelled
    ensures var w := Run(Init(key), es);
      BothIn(w, Run(w, Reuse(w.tasks[t].ref, w.tasks[t].generation, s) + BothDial(t, s)), t, s)
  {
    RunKeeps(Init(key), es);
    BothAdmitted(Run(Init(key), es), t, s);
  }

  /** Two tasks of one workspace are connected, one of them a task let in once more. */
  predicate BothIn(w: World, w': World, t: TaskId, s: TaskId)
    requires t in w.tasks
  {
    && t in w'.tasks && w'.tasks[t].control.Up? && w'.tasks[t].admissions == w.tasks[t].admissions + 1
    && s in w'.tasks && w'.tasks[s].control.Up? && w'.tasks[s].ref == w'.tasks[t].ref
  }

  lemma BothAdmitted(w: World, t: TaskId, s: TaskId)
    requires Inv(w) && t in w.tasks && w.tasks[t].ref !in w.rows && s !in w.tasks
    requires w.tasks[t].control.Retrying? && !w.tasks[t].cancelled
    ensures BothIn(w, Run(w, Reuse(w.tasks[t].ref, w.tasks[t].generation, s) + BothDial(t, s)), t, s)
  {
    assert TaskOk(w, w.tasks[t]);
    var r, g := w.tasks[t].ref, w.tasks[t].generation;
    ReuseRuns(w, r, g, s);
    RunKeeps(w, Reuse(r, g, s));
    RunConcat(w, Reuse(r, g, s), BothDial(t, s));
    BothDialIn(Run(w, Reuse(r, g, s)), t, s);
  }

  lemma BothDialIn(v: World, t: TaskId, s: TaskId)
    requires Inv(v) && t in v.tasks && s in v.tasks && s != t && v.tasks[s].ref == v.tasks[t].ref
    requires Current(v, v.tasks[t]) && v.tasks[t].control.Retrying? && !v.tasks[t].cancelled
    requires Current(v, v.tasks[s]) && v.tasks[s].control.Retrying? && !v.tasks[s].cancelled
    ensures BothIn(v, Run(v, BothDial(t, s)), t, s)
  {
    RunTwo(v, OnTask(t, ControlDial(true, true)), OnTask(s, ControlDial(true, true)));
    var u := Step(v, OnTask(t, ControlDial(true, true)));
    StepKeeps(v, OnTask(t, ControlDial(true, true)));
    DialIn(v, t);
    assert u.tasks[s] == v.tasks[s] && u.rows == v.rows;
    DialIn(u, s);
  }

  lemma DialIn(w: World, t: TaskId)
    requires Inv(w) && t in w.tasks && Current(w, w.tasks[t]) && w.tasks[t].control.Retrying? && !w.tasks[t].cancelled
    ensures var k, w' := w.tasks[t], Step(w, OnTask(t, ControlDial(true, true)));
      w' == w.(tasks := w.tasks[t :=
        k.(control := Up, controlDials := k.controlDials + 1, admissions := k.admissions + 1)])
  {
    AdmittedExactly(w, t);
  }

  /** From the start: a workspace is recorded, its first task is started, and the record is deleted. */
  function LeftBehind(r: Ref, t: TaskId): seq<Event> { Reuse(r, 1, t) + [DeleteRow(r)] }

  lemma LeftBehindRuns(key: Key, r: Ref, t: TaskId)
    requires GoString(r.tenant) && GoString(r.name)
    ensures var w := Run(Init(key), LeftBehind(r, t));
      && t in w.tasks && w.tasks[t].ref == r && w.tasks[t].generation == 1 && r !in w.rows
      && w.tasks[t].control.Retrying? && !w.tasks[t].cancelled && w.tasks.Keys == {t}
  {
    ReuseRuns(Init(key), r, 1, t);
    RunOne(Init(key), Reuse(r, 1, t), DeleteRow(r));
  }

  /** So there is a run from the start, for any workspace and any two tasks, that ends with two tasks
      of one workspace connected. */
  lemma ReuseBreaksFencing(key: Key, r: Ref, t: TaskId, s: TaskId)
    requires GoString(r.tenant) && GoString(r.name) && s != t
    ensures var w := Run(Init(key), LeftBehind(r, t) + (Reuse(r, 1, s) + BothDial(t, s)));
      && t in w.tasks && s in w.tasks && w.tasks[t].ref == r && w.tasks[s].ref == r
      && w.tasks[t].control.Up? && w.tasks[s].control.Up?
  {
    LeftBehindRuns(key, r, t);
    ReusedNameAdmitsBoth(key, LeftBehind(r, t), t, s);
    RunConcat(Init(key), LeftBehind(r, t), Reuse(r, 1, s) + BothDial(t, s));
    RunSame(Run(Init(key), LeftBehind(r, t)), Reuse(r, 1, s) + BothDial(t, s), t);
  }

  lemma {:induction false} RunSame(w: World, es: seq<Event>, t: TaskId)
    requires t in w.tasks
    ensures t in Run(w, es).tasks && SameTask(w.tasks[t], Run(w, es).tasks[t])
  {
    if es != [] {
      RunSame(w, es[..|es| - 1], t);
      StepSame(Run(w, es[..|es| - 1]), es[|es| - 1], t);
    }
  }

  // ---------------------------------------------------------------------------------------
  // What a refusal and a restart do to a task
  // ---------------------------------------------------------------------------------------

  /** The first control dial of a replaced task that reaches the control plane ends its control loop. */
  lemma RefusalEndsTask(key: Key, es: seq<Event>, t: TaskId, read: bool)
    requires var w := Run(Init(key), es);
      t in w.tasks && Replaced(w, t) && w.tasks[t].control.Retrying? && !w.tasks[t].cancelled
    ensures var w' := Step(Run(Init(key), es), OnTask(t, ControlDial(true, read)));
      t in w'.tasks && w'.tasks[t].control.Returned? && w'.tasks[t].orphaned
  {
    RunKeeps(Init(key), es);
    AdmittedExactly(Run(Init(key), es), t);
  }

  /** A start command carried out only after its generation was superseded, because the placement that
      sent it timed out or the control plane restarted, comes to nothing: the task's first dial that
      arrives is refused and ends it. */
  lemma LateStartIsRefused(key: Key, es: seq<Event>, t: TaskId, read: bool)
    requires var w := Run(Init(key), es); t in w.tasks && Replaced(w, t) && w.tasks[t].control.Unstarted?
    ensures var w := Run(Init(key), es);
      var w' := Step(Step(w, OnTask(t, Start)), OnTask(t, ControlDial(true, read)));
      && t in w'.tasks && w'.tasks[t].control.Returned? && w'.tasks[t].orphaned
      && w'.tasks[t].admissions == w.tasks[t].admissions
  {
    var w := Run(Init(key), es);
    RunKeeps(Init(key), es);
    assert TaskOk(w, w.tasks[t]);
    StepKeeps(w, OnTask(t, Start));
    AdmittedExactly(Step(w, OnTask(t, Start)), t);
  }

  /** A task whose control loop has ended dials the control plane no more, and once its run has
      returned not the relay either. */
  predicate StaysEnded(k: Task, k': Task) {
    && k'.control.Returned? && k'.controlDials == k.controlDials
    && (k.cancelled ==> k'.cancelled && k'.dataDials == k.dataDials)
  }

  lemma TaskStepEnded(k: Task, ev: TaskEvent, matches: bool)
    requires k.control.Returned? && LoopsOk(k)
    ensures StaysEnded(k, TaskStep(k, ev, matches))
  {
  }

  lemma {:induction false} EndedRun(w: World, es: seq<Event>, t: TaskId)
    requires Inv(w) && t in w.tasks && w.tasks[t].control.Returned?
    ensures t in Run(w, es).tasks && StaysEnded(w.tasks[t], Run(w, es).tasks[t])
  {
    if es != [] {
      EndedRun(w, es[..|es| - 1], t);
      RunKeeps(w, es[..|es| - 1]);
      StepEnded(Run(w, es[..|es| - 1]), es[|es| - 1], t);
    }
  }

  lemma StepEnded(w: World, e: Event, t: TaskId)
    requires Inv(w) && t in w.tasks && w.tasks[t].control.Returned?
    ensures t in Step(w, e).tasks && StaysEnded(w.tasks[t], Step(w, e).tasks[t])
  {
    assert TaskOk(w, w.tasks[t]);
    if e.OnTask? { TaskStepEnded(w.tasks[t], e.ev, Admitted(w, w.tasks[t])); }
  }

  /** After a control loop has ended the task never dials the control plane again, and once its run
      has returned it never dials the relay again either. */
  lemma EndedTaskNeverDials(key: Key, es: seq<Event>, later: seq<Event>, t: TaskId)
    requires t in Run(Init(key), es).tasks && Run(Init(key), es).tasks[t].control.Returned?
    ensures t in Run(Run(Init(key), es), later).tasks
    ensures var k, k' := Run(Init(key), es).tasks[t], Run(Run(Init(key), es), later).tasks[t];
      && k'.controlDials == k.controlDials
      && (k.cancelled ==> k'.dataDials == k.dataDials)
  {
    RunKeeps(Init(key), es);
    EndedRun(Run(Init(key), es), later, t);
  }

  /** A dialling task of the current generation is admitted if the record can be read, and orphaned,
      for good, if and only if it cannot: the answer is the same as for a replaced one. */
  lemma CurrentTaskOrphanedExactly(key: Key, es: seq<Event>, t: TaskId, read: bool)
    requires var w := Run(Init(key), es);
      t in w.tasks && Current(w, w.tasks[t]) && w.tasks[t].control.Retrying? && !w.tasks[t].cancelled
    ensures var w' := Step(Run(Init(key), es), OnTask(t, ControlDial(true, read)));
      t in w'.tasks && (w'.tasks[t].control.Up? <==> read) && (w'.tasks[t].orphaned <==> !read)
  {
    RunKeeps(Init(key), es);
    DialAnswered(Run(Init(key), es), t, read);
  }

  /** What a dial that reaches the control plane is answered: let in if the record can be read and
      names this generation, refused for good in every other case. */
  lemma DialAnswered(w: World, t: TaskId, read: bool)
    requires Inv(w) && t in w.tasks && w.tasks[t].control.Retrying? && !w.tasks[t].cancelled
    ensures var w' := Step(w, OnTask(t, ControlDial(true, read)));
      && t in w'.tasks
      && (w'.tasks[t].control.Up? <==> read && Current(w, w.tasks[t]))
      && (w'.tasks[t].orphaned && w'.tasks[t].control.Returned? <==> !(read && Current(w, w.tasks[t])))
  {
    AdmittedExactly(w, t);
    assert TaskOk(w, w.tasks[t]);
  }

  /** So a restart costs a connected task of the current generation a reconnect and nothing more, as
      long as the record can be read when it dials again. */
  lemma CurrentTaskReconnects(key: Key, es: seq<Event>, t: TaskId, read: bool)
    requires var w := Run(Init(key), es); t in w.tasks && Current(w, w.tasks[t]) && w.tasks[t].control.Up?
    ensures var w' := Step(Step(Run(Init(key), es), Restart), OnTask(t, ControlDial(true, read)));
      t in w'.tasks && (w'.tasks[t].control.Up? <==> read)
  {
    var w := Run(Init(key), es);
    RunKeeps(Init(key), es);
    StepKeeps(w, Restart);
    assert TaskOk(w, w.tasks[t]);
    DialAnswered(Step(w, Restart), t, read);
  }

  // ---------------------------------------------------------------------------------------
  // The retry loop
  // ---------------------------------------------------------------------------------------

  datatype Outcome = Refused | Failed | Cancelled   // how one connectAndServe ended

  predicate Ends(fatal: bool, o: Outcome) { o.Cancelled? || (fatal && o.Refused?) }

  /** agent.Run over the outcomes its connections will have: it dials until the first outcome that
      ends it, and a refusal does so only on the tunnel where it is fatal. */
  method AgentRun(fatal: bool, outcomes: seq<Outcome>) returns (dials: nat, last: Option<Outcome>)
    ensures dials <= |outcomes|
    ensures forall i :: 0 <= i < dials - 1 ==> !Ends(fatal, outcomes[i])
    ensures last.Some? ==> dials > 0 && last.value == outcomes[dials - 1] && Ends(fatal, last.value)
    ensures last.None? ==> dials == |outcomes| && forall i :: 0 <= i < |outcomes| ==> !Ends(fatal, outcomes[i])
  {
    dials := 0;
    while dials < |outcomes|
      invariant dials <= |outcomes| && forall i :: 0 <= i < dials ==> !Ends(fatal, outcomes[i])
    {
      var err := outcomes[dials];
      dials := dials + 1;
      if err.Cancelled? {
        return dials, Some(err);
      }
      if fatal && err.Refused? {
        return dials, Some(err);
      }
    }
    return dials, None;
  }
}
