/** The tunnel registry of internal/registry/registry.go: which tunnels a workspace has, who is
    waiting for one, and how a registration wakes them.

    `Reg` is what the mutex protects. A `World` adds the calls in progress: AddWorkspace sends to
    the waiters it took after releasing the mutex, and a waiter may give up at any point, so
    sends, receives and cancellations are separate events in any order. */
module Registry {
  import opened Decimal
  import opened Workspaces

  type Key = Ref

  datatype Tunnel = Tunnel(id: nat, key: Key)

  /** A call of WaitWorkspace, and the one-slot channel it made. */
  type Call = nat

  datatype Reg = Reg(workspaces: map<Key, seq<Tunnel>>, waiters: map<Key, seq<Call>>)

  function At<T>(m: map<Key, seq<T>>, k: Key): seq<T> { if k in m then m[k] else [] }

  /** Store a list under a key, and nothing at all when it is empty. */
  function With<T>(m: map<Key, seq<T>>, k: Key, s: seq<T>): map<Key, seq<T>> {
    if s == [] then m - {k} else m[k := s]
  }

  /** All elements but `x`, in order. */
  function Without<T(==)>(s: seq<T>, x: T): seq<T> {
    if s == [] then []
    else Without(s[..|s| - 1], x) + (if s[|s| - 1] == x then [] else [s[|s| - 1]])
  }

  function Added(r: Reg, t: Tunnel): Reg {
    Reg(With(r.workspaces, t.key, At(r.workspaces, t.key) + [t]), r.waiters - {t.key})
  }

  function Removed(r: Reg, t: Tunnel): Reg {
    r.(workspaces := With(r.workspaces, t.key, Without(At(r.workspaces, t.key), t)))
  }

  function Enqueued(r: Reg, k: Key, c: Call): Reg {
    r.(waiters := With(r.waiters, k, At(r.waiters, k) + [c]))
  }

  function GivenUp(r: Reg, k: Key, c: Call): Reg {
    r.(waiters := With(r.waiters, k, Without(At(r.waiters, k), c)))
  }

  function Newest(r: Reg, k: Key): Option<Tunnel> {
    var ts := At(r.workspaces, k);
    if ts == [] then None else Some(ts[|ts| - 1])
  }

  lemma {:induction false} WithoutMembers<T>(s: seq<T>, x: T)
    ensures forall y :: y in Without(s, x) <==> y in s && y != x
  {
    if s != [] {
      var init, last := s[..|s| - 1], s[|s| - 1];
      assert s == init + [last];
      WithoutMembers(init, x);
    }
  }

  predicate NoDuplicates<T(==)>(s: seq<T>) { forall i, j :: 0 <= i < j < |s| ==> s[i] != s[j] }

  lemma {:induction false} WithoutNoDuplicates<T>(s: seq<T>, x: T)
    requires NoDuplicates(s)
    ensures NoDuplicates(Without(s, x))
  {
    if s != [] {
      var init, last := s[..|s| - 1], s[|s| - 1];
      WithoutNoDuplicates(init, x);
      WithoutMembers(init, x);
      assert last !in init;
    }
  }

  // ---------------------------------------------------------------------------------------
  // Calls in progress
  // ---------------------------------------------------------------------------------------

  datatype Progress = Waiting | Got(t: Tunnel) | TimedOut

  datatype World = World(
    reg: Reg,
    calls: map<Call, Progress>,
    wants: map<Call, Key>,          // the key each call asked for
    handoff: map<Call, Tunnel>,     // taken off a waiter list, not yet sent to
    inbox: map<Call, Tunnel>,       // sent, not yet received
    sends: map<Call, nat>,          // history: sends to each channel
    added: seq<Tunnel>,             // history: registrations, oldest first
    gone: set<Tunnel>)              // history: removals

  datatype Event =
    | Add(t: Tunnel)                // the locked half of AddWorkspace
    | Send(c: Call)                 // one iteration of its loop over the waiters
    | Remove(t: Tunnel)
    | Wait(c: Call, k: Key)         // the locked half of WaitWorkspace
    | Receive(c: Call)
    | Cancel(c: Call)               // the context is done, and the call takes itself off the list

  const INIT := World(Reg(map[], map[]), map[], map[], map[], map[], map[], [], {})

  /** The tunnel is to be sent to every call on the list. */
  function Handed(handoff: map<Call, Tunnel>, ws: seq<Call>, t: Tunnel): map<Call, Tunnel> {
    map c | c in handoff.Keys + (set d | d in ws) :: if c in ws then t else handoff[c]
  }

  function Step(w: World, e: Event): World {
    match e
    case Add(t) =>
      if t in w.added then w
      else w.(reg := Added(w.reg, t), handoff := Handed(w.handoff, At(w.reg.waiters, t.key), t), added := w.added + [t])
    case Send(c) =>
      if c !in w.handoff then w
      else w.(handoff := w.handoff - {c}, inbox := w.inbox[c := w.handoff[c]],
              sends := w.sends[c := (if c in w.sends then w.sends[c] else 0) + 1])
    case Remove(t) => if t !in w.added then w else w.(reg := Removed(w.reg, t), gone := w.gone + {t})
    case Wait(c, k) =>
      if c in w.calls then w
      else
        var t := Newest(w.reg, k);
        if t.Some? then w.(calls := w.calls[c := Got(t.value)], wants := w.wants[c := k])
        else w.(reg := Enqueued(w.reg, k, c), calls := w.calls[c := Waiting], wants := w.wants[c := k])
    case Receive(c) =>
      if c !in w.calls || !w.calls[c].Waiting? || c !in w.inbox then w
      else w.(calls := w.calls[c := Got(w.inbox[c])], inbox := w.inbox - {c})
    case Cancel(c) =>
      if c !in w.calls || !w.calls[c].Waiting? || c !in w.wants then w
      else w.(reg := GivenUp(w.reg, w.wants[c], c), calls := w.calls[c := TimedOut])
  }

  function Run(w: World, es: seq<Event>): World {
    if es == [] then w else Step(Run(w, es[..|es| - 1]), es[|es| - 1])
  }

  // ---------------------------------------------------------------------------------------
  // What every step keeps
  // ---------------------------------------------------------------------------------------

  /** The registrations of one key that have not been removed, oldest first. */
  function Live(added: seq<Tunnel>, gone: set<Tunnel>, k: Key): seq<Tunnel> {
    if added == [] then [] else
      var t := added[|added| - 1];
      Live(added[..|added| - 1], gone, k) + (if t.key == k && t !in gone then [t] else [])
  }

  function Sent(w: World, c: Call): nat { if c in w.sends then w.sends[c] else 0 }

  /** A waiting call is in exactly one place: on the list, being handed a tunnel, or holding one. */
  predicate CallOk(w: World, c: Call)
    requires c in w.calls
  {
    && c in w.wants
    && var k := w.wants[c];
       && (w.calls[c].Waiting? ==> c in At(w.reg.waiters, k) || c in w.handoff || c in w.inbox)
       && (w.calls[c].Got? ==> w.calls[c].t.key == k && w.calls[c].t in w.added)
  }

  predicate ListOk(w: World, k: Key) {
    var ws := At(w.reg.waiters, k);
    && NoDuplicates(ws)
    && (ws != [] ==> At(w.reg.workspaces, k) == [])
    && (forall c :: c in ws ==> WaiterOk(w, c, k))
  }

  predicate WaiterOk(w: World, c: Call, k: Key) {
    && c in w.calls && w.calls[c].Waiting?
    && c in w.wants && w.wants[c] == k
    && c !in w.handoff && c !in w.inbox && Sent(w, c) == 0
  }

  predicate HandoffOk(w: World) {
    && (forall c :: c in w.handoff ==> c in w.calls && c in w.wants && w.handoff[c].key == w.wants[c]
                                       && w.handoff[c] in w.added && c !in w.inbox && Sent(w, c) == 0)
    && (forall c :: c in w.inbox ==> c in w.calls && c in w.wants && w.inbox[c].key == w.wants[c]
                                     && w.inbox[c] in w.added && Sent(w, c) == 1)
    && (forall c :: c in w.sends ==> c in w.calls && w.sends[c] <= 1)
  }

  ghost predicate Inv(w: World) {
    && (forall c :: c in w.calls ==> CallOk(w, c))
    && (forall k: Key :: ListOk(w, k))
    && HandoffOk(w)
    && (forall k: Key :: TunnelsOk(w, k))
  }

  /** The tunnels of a key are its registrations that have not been removed. */
  predicate TunnelsOk(w: World, k: Key) { At(w.reg.workspaces, k) == Live(w.added, w.gone, k) }

  lemma {:induction false} LiveMembers(added: seq<Tunnel>, gone: set<Tunnel>, k: Key)
    ensures forall t :: t in Live(added, gone, k) <==> t in added && t !in gone && t.key == k
  {
    if added != [] {
      var init, last := added[..|added| - 1], added[|added| - 1];
      assert added == init + [last];
      LiveMembers(init, gone, k);
    }
  }

  lemma {:induction false} LiveRemove(added: seq<Tunnel>, gone: set<Tunnel>, k: Key, t: Tunnel)
    ensures Live(added, gone + {t}, k) == Without(Live(added, gone, k), t)
    ensures t.key != k ==> Live(added, gone + {t}, k) == Live(added, gone, k)
  {
    if added != [] {
      var init, last := added[..|added| - 1], added[|added| - 1];
      LiveRemove(init, gone, k, t);
      if last.key == k && last !in gone {
        var s := Live(init, gone, k) + [last];
        assert s[..|s| - 1] == Live(init, gone, k);
      } else {
        assert Live(added, gone, k) == Live(init, gone, k);
      }
    }
  }

  // Where each call is

  lemma CancelCalls(w: World, c: Call, d: Call)
    requires Inv(w) && c in w.calls && w.calls[c].Waiting? && c in w.wants && d in w.calls
    ensures CallOk(Step(w, Cancel(c)), d)
  {
    assert CallOk(w, d);
    WithoutMembers(At(w.reg.waiters, w.wants[c]), c);
  }

  lemma WaitCalls(w: World, c: Call, k: Key, d: Call)
    requires Inv(w) && c !in w.calls && (d in w.calls || d == c)
    ensures CallOk(Step(w, Wait(c, k)), d)
  {
    var w' := Step(w, Wait(c, k));
    assert Newest(w.reg, k).None? ==> At(w'.reg.waiters, k) == At(w.reg.waiters, k) + [c];
    if d == c {
      assert TunnelsOk(w, k);
      LiveMembers(w.added, w.gone, k);
    } else {
      assert CallOk(w, d);
      assert d in At(w.reg.waiters, w.wants[d]) ==> d in At(w'.reg.waiters, w.wants[d]);
    }
  }

  lemma StepCalls(w: World, e: Event, d: Call)
    requires Inv(w) && d in Step(w, e).calls
    ensures CallOk(Step(w, e), d)
  {
    if e.Wait? && e.c !in w.calls {
      WaitCalls(w, e.c, e.k, d);
    } else if e.Cancel? && e.c in w.calls && w.calls[e.c].Waiting? && e.c in w.wants {
      CancelCalls(w, e.c, d);
    } else if e.Wait? || e.Cancel? {
      assert CallOk(w, d);
    } else {
      HandedCalls(w, e, d);
    }
  }

  /** Registrations, removals and hand-offs. */
  lemma HandedCalls(w: World, e: Event, d: Call)
    requires Inv(w) && d in w.calls && !e.Wait? && !e.Cancel?
    ensures d in Step(w, e).calls && CallOk(Step(w, e), d)
  {
    assert CallOk(w, d);
  }

  // The list of a key

  /** A list whose calls are as they were stays in order. */
  lemma SameList(w: World, w': World, k: Key)
    requires ListOk(w, k) && At(w'.reg.waiters, k) == At(w.reg.waiters, k)
    requires At(w.reg.workspaces, k) == [] ==> At(w'.reg.workspaces, k) == []
    requires forall c :: c in At(w.reg.waiters, k) ==> WaiterOk(w', c, k)
    ensures ListOk(w', k)
  {
  }

  /** A call that is waiting on a list is left alone by every step but a registration for its key and
      its own cancellation. */
  lemma StillWaiting(w: World, e: Event, k: Key, c: Call)
    requires Inv(w) && c in At(w.reg.waiters, k) && !(e.Add? && e.t.key == k) && e != Cancel(c)
    ensures WaiterOk(Step(w, e), c, k)
  {
    assert ListOk(w, k) && WaiterOk(w, c, k);
    if e.Add? {
      assert ListOk(w, e.t.key);
      assert c in At(w.reg.waiters, e.t.key) ==> WaiterOk(w, c, e.t.key);
    }
  }

  /** The list a call joins: it goes to the end, and nobody else moves. */
  lemma JoinedList(w: World, c: Call, k: Key)
    requires Inv(w) && c !in w.calls && Newest(w.reg, k).None?
    ensures ListOk(Step(w, Wait(c, k)), k)
  {
    var w', before := Step(w, Wait(c, k)), At(w.reg.waiters, k);
    assert ListOk(w, k) && HandoffOk(w);
    assert c in before ==> WaiterOk(w, c, k);
    assert At(w'.reg.waiters, k) == before + [c];
    forall d | d in before + [c] ensures WaiterOk(w', d, k) { if d in before { assert WaiterOk(w, d, k); } }
  }

  /** The list of the key a cancelled call asked for loses that call and nobody else. */
  lemma CancelOwnList(w: World, c: Call)
    requires Inv(w) && c in w.calls && w.calls[c].Waiting? && c in w.wants
    ensures ListOk(Step(w, Cancel(c)), w.wants[c])
  {
    var w', k := Step(w, Cancel(c)), w.wants[c];
    var before := At(w.reg.waiters, k);
    assert ListOk(w, k);
    WithoutMembers(before, c);
    WithoutNoDuplicates(before, c);
    assert At(w'.reg.waiters, k) == Without(before, c);
    forall d | d in Without(before, c) ensures WaiterOk(w', d, k) { assert WaiterOk(w, d, k); }
  }

  /** The step changes who is on this list. */
  predicate ChangesList(w: World, e: Event, k: Key) {
    || (e.Add? && e.t.key == k)
    || (e.Wait? && e.k == k && e.c !in w.calls && Newest(w.reg, k).None?)
    || (e.Cancel? && e.c in w.calls && w.calls[e.c].Waiting? && e.c in w.wants && w.wants[e.c] == k)
  }

  lemma OtherList(w: World, e: Event, k: Key)
    requires Inv(w) && !ChangesList(w, e, k)
    ensures ListOk(Step(w, e), k)
  {
    assert ListOk(w, k);
    forall c | c in At(w.reg.waiters, k) ensures WaiterOk(Step(w, e), c, k) {
      assert WaiterOk(w, c, k);
      StillWaiting(w, e, k, c);
    }
    ListFrame(w, e, k);
    SameList(w, Step(w, e), k);
  }

  lemma ListFrame(w: World, e: Event, k: Key)
    requires !ChangesList(w, e, k)
    ensures At(Step(w, e).reg.waiters, k) == At(w.reg.waiters, k)
    ensures At(w.reg.workspaces, k) == [] ==> At(Step(w, e).reg.workspaces, k) == []
  {
    match e
    case Add(t) => AtWith(w.reg.workspaces, t.key, At(w.reg.workspaces, t.key) + [t], k);
    case Remove(t) => AtWith(w.reg.workspaces, t.key, Without(At(w.reg.workspaces, t.key), t), k);
    case Wait(c, j) => AtWith(w.reg.waiters, j, At(w.reg.waiters, j) + [c], k);
    case Cancel(c) =>
      if c in w.wants { AtWith(w.reg.waiters, w.wants[c], Without(At(w.reg.waiters, w.wants[c]), c), k); }
    case _ =>
  }

  /** Storing a list under one key leaves the other keys alone. */
  lemma AtWith<T>(m: map<Key, seq<T>>, k: Key, s: seq<T>, j: Key)
    ensures At(With(m, k, s), j) == if j == k then s else At(m, j)
  {
  }

  lemma StepList(w: World, e: Event, k: Key)
    requires Inv(w)
    ensures ListOk(Step(w, e), k)
  {
    if !ChangesList(w, e, k) {
      OtherList(w, e, k);
    } else if e.Add? {
      assert ListOk(w, k);
    } else if e.Wait? {
      JoinedList(w, e.c, k);
    } else {
      CancelOwnList(w, e.c);
    }
  }

  // Tunnels on their way to a call, and the tunnels of a key

  lemma StepHandoff(w: World, e: Event)
    requires Inv(w)
    ensures HandoffOk(Step(w, e))
  {
    match e
    case Add(t) => AddHandoff(w, t);
    case Send(c) => if c in w.handoff { SendHandoff(w, c); }
    case _ =>
      HandoffFrame(w, e);
      SameHandoff(w, Step(w, e));
  }

  lemma AddHandoff(w: World, t: Tunnel)
    requires Inv(w)
    ensures HandoffOk(Step(w, Add(t)))
  {
    assert ListOk(w, t.key);
    forall c | c in At(w.reg.waiters, t.key) ensures WaiterOk(w, c, t.key) {}
  }

  lemma SendHandoff(w: World, c: Call)
    requires HandoffOk(w) && c in w.handoff
    ensures HandoffOk(Step(w, Send(c)))
  {
  }

  /** `w'` has the tunnels of `w` on their way, or fewer, to the same calls. */
  predicate HandsOff(w: World, w': World) {
    && w'.handoff == w.handoff && w'.sends == w.sends && w'.added == w.added
    && (forall c :: c in w'.inbox ==> c in w.inbox && w'.inbox[c] == w.inbox[c])
    && (forall c :: c in w.calls ==> AsksSame(w, w', c))
  }

  predicate AsksSame(w: World, w': World, c: Call) {
    c in w'.calls && (c in w.wants ==> c in w'.wants && w'.wants[c] == w.wants[c])
  }

  lemma StepAsksSame(w: World, e: Event, c: Call)
    requires c in w.calls
    ensures AsksSame(w, Step(w, e), c)
  {
  }

  lemma HandoffFrame(w: World, e: Event)
    requires !e.Add? && !e.Send?
    ensures HandsOff(w, Step(w, e))
  {
    forall c | c in w.calls { StepAsksSame(w, e, c); }
  }

  lemma SameHandoff(w: World, w': World)
    requires HandoffOk(w) && HandsOff(w, w')
    ensures HandoffOk(w')
  {
    forall c | c in w.calls ensures AsksSame(w, w', c) {}
  }

  lemma StepTunnels(w: World, e: Event, k: Key)
    requires Inv(w) && (forall t :: t in w.gone ==> t in w.added)
    ensures TunnelsOk(Step(w, e), k)
  {
    assert TunnelsOk(w, k);
    match e
    case Add(t) => if t !in w.added { AddTunnels(w, t, k); }
    case Remove(t) => if t in w.added { RemoveTunnels(w, t, k); }
    case _ => TunnelFrame(w, e);
  }

  lemma AddTunnels(w: World, t: Tunnel, k: Key)
    requires TunnelsOk(w, k) && t !in w.gone
    ensures At(Added(w.reg, t).workspaces, k) == Live(w.added + [t], w.gone, k)
  {
    assert (w.added + [t])[..|w.added|] == w.added;
  }

  lemma RemoveTunnels(w: World, t: Tunnel, k: Key)
    requires TunnelsOk(w, k)
    ensures At(Removed(w.reg, t).workspaces, k) == Live(w.added, w.gone + {t}, k)
  {
    LiveRemove(w.added, w.gone, k, t);
  }

  lemma TunnelFrame(w: World, e: Event)
    requires !e.Add? && !e.Remove?
    ensures var w' := Step(w, e);
      w'.reg.workspaces == w.reg.workspaces && w'.added == w.added && w'.gone == w.gone
  {
    match e
    case Send(_) =>
    case Receive(_) =>
    case Wait(_, _) =>
    case Cancel(_) =>
  }

  lemma StepKeeps(w: World, e: Event)
    requires Inv(w) && (forall t :: t in w.gone ==> t in w.added)
    ensures Inv(Step(w, e)) && (forall t :: t in Step(w, e).gone ==> t in Step(w, e).added)
  {
    forall c | c in Step(w, e).calls { StepCalls(w, e, c); }
    forall k: Key { StepList(w, e, k); }
    StepHandoff(w, e);
    forall k: Key { StepTunnels(w, e, k); }
  }

  lemma {:induction false} RunKeeps(es: seq<Event>)
    ensures Inv(Run(INIT, es)) && (forall t :: t in Run(INIT, es).gone ==> t in Run(INIT, es).added)
  {
    if es != [] {
      RunKeeps(es[..|es| - 1]);
      StepKeeps(Run(INIT, es[..|es| - 1]), es[|es| - 1]);
    }
  }

  // ---------------------------------------------------------------------------------------
  // The promises
  // ---------------------------------------------------------------------------------------

  /** No lost wakeup, in any interleaving: a call that is still waiting while a tunnel is registered
      for its key has already been sent one, or is about to be. */
  lemma NoLostWakeup(es: seq<Event>, c: Call)
    requires var w := Run(INIT, es); c in w.calls && w.calls[c].Waiting?
    ensures var w := Run(INIT, es);
      && c in w.wants
      && (Newest(w.reg, w.wants[c]).Some? ==> c in w.handoff || c in w.inbox)
      && (c in At(w.reg.waiters, w.wants[c]) ==> Newest(w.reg, w.wants[c]).None?)
  {
    RunKeeps(es);
    var w := Run(INIT, es);
    assert CallOk(w, c) && ListOk(w, w.wants[c]);
  }

  /** A registration is handed to every call on the key's list, and to no other. */
  lemma RegistrationReachesEveryWaiter(es: seq<Event>, t: Tunnel, c: Call)
    requires t !in Run(INIT, es).added
    ensures var w, w' := Run(INIT, es), Run(INIT, es + [Add(t)]);
      && (c in At(w.reg.waiters, t.key) <==> c in w'.handoff && w'.handoff[c] == t)
      && At(w'.reg.waiters, t.key) == []
  {
    RunKeeps(es);
    var w := Run(INIT, es);
    assert (es + [Add(t)])[..|es|] == es;
    assert ListOk(w, t.key);
  }

  /** Each one-slot channel is sent to at most once, and is empty when it is: a send never blocks. */
  lemma SendNeverBlocks(es: seq<Event>, c: Call)
    ensures var w := Run(INIT, es); Sent(w, c) <= 1 && (c in w.handoff ==> c !in w.inbox && Sent(w, c) == 0)
  {
    RunKeeps(es);
  }

  /** Whatever a call returns was registered for exactly the organization and name it asked for. */
  lemma CallsGetTheirOwnWorkspace(es: seq<Event>, c: Call)
    requires var w := Run(INIT, es); c in w.calls && w.calls[c].Got?
    ensures var w := Run(INIT, es); c in w.wants && w.calls[c].t.key == w.wants[c] && w.calls[c].t in w.added
  {
    RunKeeps(es);
    assert CallOk(Run(INIT, es), c);
  }

  /** Picking returns the newest tunnel registered for that key and not removed, and fails exactly
      when there is none. */
  lemma PickIsNewestLive(es: seq<Event>, k: Key)
    ensures var w := Run(INIT, es);
      var live := Live(w.added, w.gone, k);
      && Newest(w.reg, k) == (if live == [] then None else Some(live[|live| - 1]))
      && (forall t :: t in live <==> t in w.added && t !in w.gone && t.key == k)
  {
    RunKeeps(es);
    var w := Run(INIT, es);
    assert TunnelsOk(w, k);
    LiveMembers(w.added, w.gone, k);
  }

  // ---------------------------------------------------------------------------------------
  // The registry itself
  // ---------------------------------------------------------------------------------------

  /** remove and removeChan: the list is filtered onto its own backing array. */
  method RemoveInPlace<T(==)>(ts: array<T>, n: nat, t: T) returns (m: nat)
    requires n <= ts.Length
    modifies ts
    ensures m <= n && ts[..m] == Without(old(ts[..n]), t)
    ensures ts[n..] == old(ts[n..])
  {
    m := 0;
    ghost var before, after := ts[..n], ts[n..];
    for i := 0 to n
      invariant m <= i && ts[..m] == Without(before[..i], t)
      invariant ts[i..n] == before[i..] && ts[n..] == after
    {
      WithoutMore(before, i, t);
      assert ts[i] == ts[i..n][0] && ts[i + 1..n] == ts[i..n][1..];
      if ts[i] != t {
        ghost var kept := ts[..m];
        ts[m] := ts[i];
        m := m + 1;
        assert ts[..m] == kept + [before[i]];
      }
    }
    assert before[..n] == before;
  }

  lemma WithoutMore<T>(s: seq<T>, i: nat, x: T)
    requires i < |s|
    ensures Without(s[..i + 1], x) == Without(s[..i], x) + (if s[i] == x then [] else [s[i]])
  {
    assert s[..i + 1][..i] == s[..i];
  }

  class TunnelRegistry {
    var workspaces: map<Key, seq<Tunnel>>
    var waiters: map<Key, seq<Call>>

    ghost function View(): Reg
      reads this
    {
      Reg(workspaces, waiters)
    }

    constructor ()
      ensures View() == INIT.reg
    {
      workspaces, waiters := map[], map[];
    }

    /** Registers a tunnel and takes the list of calls to wake. */
    method AddWorkspace(t: Tunnel) returns (toWake: seq<Call>)
      modifies this
      ensures View() == Added(old(View()), t)
      ensures toWake == At(old(waiters), t.key)
    {
      var ts := if t.key in workspaces then workspaces[t.key] else [];
      workspaces := workspaces[t.key := ts + [t]];
      toWake := if t.key in waiters then waiters[t.key] else [];
      waiters := waiters - {t.key};
    }

    method RemoveWorkspace(t: Tunnel)
      modifies this
      ensures View() == Removed(old(View()), t)
    {
      var ts := if t.key in workspaces then workspaces[t.key] else [];
      var a := new Tunnel[|ts|](i requires 0 <= i < |ts| => ts[i]);
      assert a[..|ts|] == ts;
      var m := RemoveInPlace(a, |ts|, t);
      workspaces := workspaces[t.key := a[..m]];
      if m == 0 {
        workspaces := workspaces - {t.key};
      }
    }

    method PickWorkspace(k: Key) returns (t: Option<Tunnel>)
      ensures t == Newest(View(), k)
    {
      var ts := if k in workspaces then workspaces[k] else [];
      if |ts| == 0 {
        return None;
      }
      return Some(ts[|ts| - 1]);
    }

    /** The locked half of WaitWorkspace: a tunnel at once, or a place on the list. */
    method WaitWorkspace(c: Call, k: Key) returns (t: Option<Tunnel>)
      modifies this
      ensures t == Newest(old(View()), k)
      ensures View() == if t.Some? then old(View()) else Enqueued(old(View()), k, c)
    {
      var ts := if k in workspaces then workspaces[k] else [];
      if |ts| > 0 {
        return Some(ts[|ts| - 1]);
      }
      var cs := if k in waiters then waiters[k] else [];
      waiters := waiters[k := cs + [c]];
      return None;
    }

    method GiveUp(c: Call, k: Key)
      modifies this
      ensures View() == GivenUp(old(View()), k, c)
    {
      var cs := if k in waiters then waiters[k] else [];
      var a := new Call[|cs|](i requires 0 <= i < |cs| => cs[i]);
      assert a[..|cs|] == cs;
      var m := RemoveInPlace(a, |cs|, c);
      waiters := waiters[k := a[..m]];
      if m == 0 {
        waiters := waiters - {k};
      }
    }
  }
}
