/** One session per id: Create and reap in internal/ptysession/manager.go, with the life of a session's
    read loop from internal/ptysession/session.go.

    Create looks, forks outside the lock, and looks again; reap deletes by id. Any number of creates
    and exits interleave. */
module Managing {
  import opened Decimal

  type Id = seq<byte>
  type Child = nat      // one forked process and its Session
  type Call = nat

  /** A create: it has looked and found the id free, or it has forked a child. */
  datatype Phase = Looked(id: Id) | Holding(child: Child) | Returned

  datatype Status =
    | Forked      // by a create that has not looked a second time
    | Killed      // its create lost the race and stopped it
    | Bound       // in the map, its read loop about to start
    | Running
    | Ended       // the child exited; finish has run
    | Reaped

  datatype Session = Session(id: Id, status: Status)

  datatype World = World(
    sessions: map<Id, Child>,
    calls: map<Call, Phase>,
    children: map<Child, Session>,
    exits: map<Child, nat>)       // history: OnExit calls

  datatype Event =
    | Look(c: Call, id: Id)
    | Fork(c: Call, s: Child)
    | Bind(c: Call)               // the second look, under the lock
    | StartLoop(s: Child)         // go s.readLoop(m.reap)
    | ChildExits(s: Child)        // the read loop breaks and finish runs
    | Reap(s: Child)              // its last act: delete the id, then OnExit

  const INIT := World(map[], map[], map[], map[])

  function Exits(w: World, s: Child): nat { if s in w.exits then w.exits[s] else 0 }

  predicate Is(w: World, s: Child, st: Status) { s in w.children && w.children[s].status == st }

  function Become(w: World, s: Child, st: Status): map<Child, Session>
    requires s in w.children
  {
    w.children[s := w.children[s].(status := st)]
  }

  function Step(w: World, e: Event): World {
    match e
    case Look(c, id) =>
      if c in w.calls then w else w.(calls := w.calls[c := if id in w.sessions then Returned else Looked(id)])
    case Fork(c, s) =>
      if c !in w.calls || !w.calls[c].Looked? || s in w.children then w
      else w.(calls := w.calls[c := Holding(s)], children := w.children[s := Session(w.calls[c].id, Forked)])
    case Bind(c) =>
      if c !in w.calls || !w.calls[c].Holding? || !Is(w, w.calls[c].child, Forked) then w
      else
        var s := w.calls[c].child;
        var id := w.children[s].id;
        if id in w.sessions then w.(calls := w.calls[c := Returned], children := Become(w, s, Killed))
        else w.(calls := w.calls[c := Returned], children := Become(w, s, Bound), sessions := w.sessions[id := s])
    case StartLoop(s) => if !Is(w, s, Bound) then w else w.(children := Become(w, s, Running))
    case ChildExits(s) => if !Is(w, s, Running) then w else w.(children := Become(w, s, Ended))
    case Reap(s) =>
      if !Is(w, s, Ended) then w
      else w.(children := Become(w, s, Reaped), sessions := w.sessions - {w.children[s].id},
              exits := w.exits[s := Exits(w, s) + 1])
  }

  function Run(w: World, es: seq<Event>): World {
    if es == [] then w else Step(Run(w, es[..|es| - 1]), es[|es| - 1])
  }

  /** Bound and not yet reaped. */
  predicate Live(w: World, s: Child) { s in w.children && w.children[s].status in {Bound, Running, Ended} }

  /** The map holds exactly the live sessions, each under its own id; OnExit has fired exactly for
      those that were reaped. */
  ghost predicate Inv(w: World) {
    && (forall s :: Live(w, s) ==> w.children[s].id in w.sessions && w.sessions[w.children[s].id] == s)
    && (forall id :: id in w.sessions ==> Live(w, w.sessions[id]) && w.children[w.sessions[id]].id == id)
    && (forall s :: s in w.children ==> Exits(w, s) == if w.children[s].status.Reaped? then 1 else 0)
    && (forall s :: s in w.exits ==> s in w.children)
  }

  lemma ReapKeeps(w: World, s: Child)
    requires Inv(w) && Is(w, s, Ended)
    ensures Inv(Step(w, Reap(s)))
  {
    var w' := Step(w, Reap(s));
    assert Live(w, s);
    forall id | id in w'.sessions ensures Live(w', w'.sessions[id]) && w'.children[w'.sessions[id]].id == id {
      assert Live(w, w.sessions[id]);
    }
    forall t | Live(w', t) ensures w'.children[t].id in w'.sessions && w'.sessions[w'.children[t].id] == t {
      assert Live(w, t);
    }
  }

  lemma BindKeeps(w: World, c: Call)
    requires Inv(w)
    ensures Inv(Step(w, Bind(c)))
  {
    forall id | id in Step(w, Bind(c)).sessions { BindIds(w, c, id); }
    forall t | Live(Step(w, Bind(c)), t) { BindLive(w, c, t); }
  }

  lemma BindIds(w: World, c: Call, id: Id)
    requires Inv(w) && id in Step(w, Bind(c)).sessions
    ensures var w' := Step(w, Bind(c)); Live(w', w'.sessions[id]) && w'.children[w'.sessions[id]].id == id
  {
    if id in w.sessions { assert Live(w, w.sessions[id]); }
  }

  lemma BindLive(w: World, c: Call, t: Child)
    requires Inv(w) && Live(Step(w, Bind(c)), t)
    ensures var w' := Step(w, Bind(c)); w'.children[t].id in w'.sessions && w'.sessions[w'.children[t].id] == t
  {
    assert Live(w, t) || (Step(w, Bind(c)) != w && t == w.calls[c].child);
  }

  /** A change of status within the live ones changes nothing else. */
  lemma StatusKeeps(w: World, s: Child, st: Status)
    requires Inv(w) && Live(w, s) && st in {Running, Ended}
    ensures Inv(w.(children := Become(w, s, st)))
  {
    var w' := w.(children := Become(w, s, st));
    forall t ensures Live(w', t) <==> Live(w, t) {}
  }

  lemma ForkKeeps(w: World, c: Call, s: Child)
    requires Inv(w)
    ensures Inv(Step(w, Fork(c, s)))
  {
    var w' := Step(w, Fork(c, s));
    forall t ensures Live(w', t) <==> Live(w, t) {}
  }

  lemma StepKeeps(w: World, e: Event)
    requires Inv(w)
    ensures Inv(Step(w, e))
  {
    match e
    case Look(c, id) => assert forall t :: Live(Step(w, e), t) <==> Live(w, t);
    case Fork(c, s) => ForkKeeps(w, c, s);
    case Bind(c) => BindKeeps(w, c);
    case StartLoop(s) => if Is(w, s, Bound) { StatusKeeps(w, s, Running); }
    case ChildExits(s) => if Is(w, s, Running) { StatusKeeps(w, s, Ended); }
    case Reap(s) => if Is(w, s, Ended) { ReapKeeps(w, s); }
  }

  lemma {:induction false} RunKeeps(w: World, es: seq<Event>)
    requires Inv(w)
    ensures Inv(Run(w, es))
  {
    if es != [] {
      RunKeeps(w, es[..|es| - 1]);
      StepKeeps(Run(w, es[..|es| - 1]), es[|es| - 1]);
    }
  }

  // ---------------------------------------------------------------------------------------
  // The promises
  // ---------------------------------------------------------------------------------------

  /** In every interleaving a live session is the one its id names, so no two share an id. */
  lemma OneLiveSessionPerId(es: seq<Event>, s: Child, t: Child)
    requires var w := Run(INIT, es); Live(w, s) && Live(w, t) && w.children[s].id == w.children[t].id
    ensures s == t
  {
    RunKeeps(INIT, es);
  }

  /** Reaping by id removes the very session whose read loop ended, and no other. */
  lemma ReapRemovesOwnSession(es: seq<Event>, s: Child)
    requires Is(Run(INIT, es), s, Ended)
    ensures var w := Run(INIT, es);
      var w' := Step(w, Reap(s));
      && w.children[s].id in w.sessions && w.sessions[w.children[s].id] == s
      && (forall id :: id in w'.sessions <==> id in w.sessions && w.sessions[id] != s)
      && (forall id :: id in w'.sessions ==> w'.sessions[id] == w.sessions[id])
  {
    RunKeeps(INIT, es);
    assert Live(Run(INIT, es), s);
  }

  /** A child whose create lost the race stays out of the map and is never reported, ever after. */
  lemma LoserNeverBound(es: seq<Event>, later: seq<Event>, s: Child)
    requires Is(Run(INIT, es), s, Killed)
    ensures var w := Run(Run(INIT, es), later);
      Is(w, s, Killed) && Exits(w, s) == 0 && forall id :: id in w.sessions ==> w.sessions[id] != s
  {
    RunKeeps(INIT, es + later);
    RunConcat(es, later);
    KilledForGood(Run(INIT, es), later, s);
  }

  lemma {:induction false} RunConcat(es: seq<Event>, later: seq<Event>)
    ensures Run(INIT, es + later) == Run(Run(INIT, es), later)
  {
    if later == [] {
      assert es + later == es;
    } else {
      assert (es + later)[..|es + later| - 1] == es + later[..|later| - 1];
      RunConcat(es, later[..|later| - 1]);
    }
  }

  lemma {:induction false} KilledForGood(w: World, es: seq<Event>, s: Child)
    requires Is(w, s, Killed)
    ensures Is(Run(w, es), s, Killed)
  {
    if es != [] {
      KilledForGood(w, es[..|es| - 1], s);
      KilledStep(Run(w, es[..|es| - 1]), es[|es| - 1], s);
    }
  }

  lemma KilledStep(w: World, e: Event, s: Child)
    requires Is(w, s, Killed)
    ensures Is(Step(w, e), s, Killed)
  {
  }

  /** OnExit has fired once for exactly the children that were bound, ended and reaped. */
  lemma ExitAtMostOnce(es: seq<Event>, s: Child)
    ensures Exits(Run(INIT, es), s) <= 1
    ensures Exits(Run(INIT, es), s) == 1 <==> Is(Run(INIT, es), s, Reaped)
  {
    RunKeeps(INIT, es);
  }

  // ---------------------------------------------------------------------------------------
  // The manager itself
  // ---------------------------------------------------------------------------------------

  predicate ByCall(e: Event, c: Call) { (e.Look? || e.Fork? || e.Bind?) && e.c == c }

  /** What other calls do in the meantime does not change how far this one has got. */
  lemma {:induction false} CallStays(w: World, es: seq<Event>, c: Call)
    requires c in w.calls && forall e :: e in es ==> !ByCall(e, c)
    ensures c in Run(w, es).calls && Run(w, es).calls[c] == w.calls[c]
  {
    if es != [] {
      CallStays(w, es[..|es| - 1], c);
      assert es[|es| - 1] in es;
      CallStaysStep(Run(w, es[..|es| - 1]), es[|es| - 1], c);
    }
  }

  lemma CallStaysStep(w: World, e: Event, c: Call)
    requires c in w.calls && !ByCall(e, c)
    ensures c in Step(w, e).calls && Step(w, e).calls[c] == w.calls[c]
  {
  }

  class Manager {
    var sessions: map<Id, Child>
    ghost var world: World

    ghost predicate Valid()
      reads this
    {
      sessions == world.sessions && Inv(world)
    }

    constructor ()
      ensures Valid() && world == INIT
    {
      sessions := map[];
      world := INIT;
    }

    /** The first look of Create: whether a live session has the id. */
    method FirstLook(c: Call, id: Id) returns (taken: bool)
      requires Valid() && c !in world.calls
      modifies this
      ensures Valid() && world == Step(old(world), Look(c, id))
      ensures taken <==> exists s :: Live(world, s) && world.children[s].id == id
      ensures taken <==> id in old(sessions)
    {
      taken := id in sessions;
      if taken { assert Live(world, sessions[id]); }
      StepKeeps(world, Look(c, id));
      ghost var before := world;
      world := Step(world, Look(c, id));
      assert world.children == before.children && world.sessions == before.sessions;
      if taken { assert Live(world, sessions[id]) && world.children[sessions[id]].id == id; }
    }

    /** The second look, under the lock: bind the forked child unless a live session has the id. */
    method SecondLook(c: Call, id: Id, s: Child) returns (won: bool)
      requires Valid() && c in world.calls && world.calls[c] == Holding(s)
      requires Is(world, s, Forked) && world.children[s].id == id
      modifies this
      ensures Valid() && world == Step(old(world), Bind(c))
      ensures won <==> Live(world, s)
      ensures forall t :: t != s ==> (Live(world, t) <==> Live(old(world), t))
    {
      BindKeeps(world, c);
      world := Step(world, Bind(c));
      if id in sessions {
        return false;
      }
      sessions := sessions[id := s];
      return true;
    }

    /** Create, from its first look to its second. The child is forked without the lock, and `after`
        is the map as the calls in `others` have left it by the time the lock is taken again. */
    method Create(c: Call, id: Id, s: Child, after: map<Id, Child>, ghost others: seq<Event>) returns (won: bool)
      requires Valid() && c !in world.calls
      requires forall e :: e in others ==> !ByCall(e, c)
      requires var v := Run(Step(world, Look(c, id)), others); after == v.sessions && s !in v.children
      modifies this
      ensures Valid()
      ensures id in old(sessions) ==> !won && world == Step(old(world), Look(c, id))
      ensures id !in old(sessions) ==>
        var v := Run(Step(old(world), Look(c, id)), others);
        && world == Step(Step(v, Fork(c, s)), Bind(c))
        && (won <==> id !in v.sessions)
        && (won <==> Live(world, s))
        && (forall t :: t != s ==> (Live(world, t) <==> Live(v, t)))
    {
      var taken := FirstLook(c, id);
      if taken {
        return false;
      }
      CallStays(world, others, c);
      RunKeeps(world, others);
      world := Run(world, others);
      sessions := after;
      ghost var v := world;
      ForkKeeps(v, c, s);
      world := Step(v, Fork(c, s));
      assert forall t :: Live(world, t) <==> Live(v, t);
      won := SecondLook(c, id, s);
    }

    /** The last act of a read loop: the id goes, and with it exactly the session that ended. */
    method ReapSession(id: Id, s: Child)
      requires Valid() && Is(world, s, Ended) && world.children[s].id == id
      modifies this
      ensures Valid() && world == Step(old(world), Reap(s))
      ensures forall t :: Live(world, t) <==> Live(old(world), t) && t != s
    {
      ReapKeeps(world, s);
      world := Step(world, Reap(s));
      sessions := sessions - {id};
    }
  }
}
