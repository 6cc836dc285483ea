/** First sign-in: resolvePrincipal and signUp in internal/mgmtapi/principal.go over the directory of
    internal/directory/directory.go. Every query is one atomic step, any number of requests run at
    once, and any step may fail. */
module SignUp {
  import opened Decimal

  type OrgId = nat
  type Principal = nat
  type Slug = nat
  type Call = nat

  /** The directory's two tables. */
  datatype Dir = Dir(orgs: map<OrgId, Slug>, bindings: map<Principal, OrgId>)

  /** LookupPrincipal joins the binding with the organization it names. */
  function Home(d: Dir, p: Principal): Option<OrgId> {
    if p in d.bindings && d.bindings[p] in d.orgs then Some(d.bindings[p]) else None
  }

  /** BindPrincipal: on conflict, do nothing. */
  function Bound(d: Dir, p: Principal, o: OrgId): Dir {
    if p in d.bindings then d else d.(bindings := d.bindings[p := o])
  }

  /** DeleteTenant, which takes the bindings that name the organization with it. */
  function Deleted(d: Dir, o: OrgId): Dir {
    Dir(d.orgs - {o}, map p | p in d.bindings && d.bindings[p] != o :: d.bindings[p])
  }

  // ---------------------------------------------------------------------------------------
  // Concurrent requests
  // ---------------------------------------------------------------------------------------

  /** How far one request has got. `mine` is the organization it created itself, if any. */
  datatype Phase =
    | Started
    | Unknown                                  // the lookup found nothing: sign up
    | Created(mine: OrgId)
    | Lost(mine: OrgId)                        // another request bound the principal first
    | Cleaned(mine: OrgId, cleanup: bool)      // its own organization deleted, or the deletion failed
    | Done(home: OrgId, own: Option<OrgId>, cleanup: bool)
    | Failed(own: Option<OrgId>, cleanup: bool)   // cleanup: it had deleted its own by then

  datatype World = World(
    dir: Dir,
    who: map<Call, Principal>,
    calls: map<Call, Phase>,
    made: set<OrgId>)             // history: every organization id ever inserted

  datatype Event =
    | Request(c: Call, p: Principal)
    | Lookup(c: Call)                          // the first lookup, or the loser's second
    | Create(c: Call, o: OrgId, slug: Slug)    // a fresh id and a slug nobody has
    | Bind(c: Call)
    | BindError(c: Call, committed: bool)      // the insert may have happened all the same
    | Delete(c: Call, ok: bool)
    | Fail(c: Call)                            // any other error, or a crash

  const INIT := World(Dir(map[], map[]), map[], map[], {})

  function Own(ph: Phase): Option<OrgId> {
    match ph
    case Created(m) => Some(m)
    case Lost(m) => Some(m)
    case Cleaned(m, _) => Some(m)
    case Done(_, own, _) => own
    case Failed(own, _) => own
    case _ => None
  }

  /** A request that ends in an error, and whether it had cleaned up after itself. */
  function Stopped(ph: Phase): Phase {
    Failed(Own(ph), (ph.Cleaned? || ph.Failed?) && ph.cleanup)
  }

  predicate Active(w: World, c: Call) { c in w.calls && c in w.who }

  function Step(w: World, e: Event): World {
    match e
    case Request(c, p) => if c in w.calls then w else w.(calls := w.calls[c := Started], who := w.who[c := p])
    case Lookup(c) =>
      if !Active(w, c) || !(w.calls[c].Started? || w.calls[c].Cleaned?) then w
      else
        var home := Home(w.dir, w.who[c]);
        var next := if home.Some? then Done(home.value, Own(w.calls[c]), w.calls[c].Started? || w.calls[c].cleanup)
                    else if w.calls[c].Started? then Unknown else Stopped(w.calls[c]);
        w.(calls := w.calls[c := next])
    case Create(c, o, slug) =>
      if !Active(w, c) || !w.calls[c].Unknown? || o in w.made || slug in w.dir.orgs.Values then w
      else w.(calls := w.calls[c := Created(o)], made := w.made + {o}, dir := w.dir.(orgs := w.dir.orgs[o := slug]))
    case Bind(c) =>
      if !Active(w, c) || !w.calls[c].Created? then w
      else
        var p, o := w.who[c], w.calls[c].mine;
        w.(dir := Bound(w.dir, p, o),
           calls := w.calls[c := if p in w.dir.bindings then Lost(o) else Done(o, Some(o), true)])
    case BindError(c, committed) =>
      if !Active(w, c) || !w.calls[c].Created? then w
      else w.(dir := if committed then Bound(w.dir, w.who[c], w.calls[c].mine) else w.dir,
              calls := w.calls[c := Stopped(w.calls[c])])
    case Delete(c, ok) =>
      if !Active(w, c) || !w.calls[c].Lost? then w
      else w.(dir := if ok then Deleted(w.dir, w.calls[c].mine) else w.dir,
              calls := w.calls[c := Cleaned(w.calls[c].mine, ok)])
    case Fail(c) => if !Active(w, c) || w.calls[c].Done? then w else w.(calls := w.calls[c := Stopped(w.calls[c])])
  }

  function Run(w: World, es: seq<Event>): World {
    if es == [] then w else Step(Run(w, es[..|es| - 1]), es[|es| - 1])
  }

  // ---------------------------------------------------------------------------------------
  // What every step keeps
  // ---------------------------------------------------------------------------------------

  /** An organization a request made is nobody else's: bound, if at all, to its own principal. */
  predicate CallOk(w: World, c: Call)
    requires c in w.calls
  {
    && c in w.who
    && var p, ph := w.who[c], w.calls[c];
       && (Own(ph).Some? ==>
             && Own(ph).value in w.made
             && (forall d :: d in w.calls && d != c ==> Own(w.calls[d]) != Own(ph))
             && (forall q :: q in w.dir.bindings && w.dir.bindings[q] == Own(ph).value ==> q == p))
       && (ph.Created? ==> ph.mine in w.dir.orgs && !(p in w.dir.bindings && w.dir.bindings[p] == ph.mine))
       && (ph.Lost? || ph.Cleaned? ==> p in w.dir.bindings && w.dir.bindings[p] != ph.mine)
       && (ph.Cleaned? && ph.cleanup ==> ph.mine !in w.dir.orgs)
       && (ph.Failed? && ph.cleanup ==> ph.own.Some? && ph.own.value !in w.dir.orgs)
       && (ph.Done? ==> p in w.dir.bindings && ph.home == w.dir.bindings[p])
       && (ph.Done? && ph.own.Some? && ph.own.value != ph.home && ph.cleanup ==> ph.own.value !in w.dir.orgs)
  }

  predicate Inv(w: World) {
    && (forall c :: c in w.calls ==> CallOk(w, c))
    && (forall p :: p in w.dir.bindings ==> w.dir.bindings[p] in w.dir.orgs)
    && (forall o :: o in w.dir.orgs ==> o in w.made)
  }

  /** A bound principal stays bound to the same organization. */
  predicate Extends(a: Dir, b: Dir) {
    forall p :: p in a.bindings ==> p in b.bindings && b.bindings[p] == a.bindings[p]
  }

  lemma LookupKeeps(w: World, c: Call)
    requires Inv(w)
    ensures Inv(Step(w, Lookup(c))) && Extends(w.dir, Step(w, Lookup(c)).dir)
  {
    var w' := Step(w, Lookup(c));
    forall d | d in w'.calls ensures CallOk(w', d) { assert CallOk(w, d); if c in w.calls { assert CallOk(w, c); } }
  }

  lemma CreateKeeps(w: World, c: Call, o: OrgId, slug: Slug)
    requires Inv(w)
    ensures Inv(Step(w, Create(c, o, slug))) && Extends(w.dir, Step(w, Create(c, o, slug)).dir)
  {
    var w' := Step(w, Create(c, o, slug));
    forall d | d in w'.calls ensures CallOk(w', d) { assert CallOk(w, d); }
  }

  lemma BindKeeps(w: World, c: Call, e: Event)
    requires Inv(w) && (e == Bind(c) || e == BindError(c, true) || e == BindError(c, false))
    ensures Inv(Step(w, e)) && Extends(w.dir, Step(w, e).dir)
  {
    var w' := Step(w, e);
    forall d | d in w'.calls ensures CallOk(w', d) {
      assert CallOk(w, d);
      if c in w.calls { assert CallOk(w, c); }
    }
    if c in w.calls { assert CallOk(w, c); }
  }

  lemma DeleteKeeps(w: World, c: Call, ok: bool)
    requires Inv(w)
    ensures Inv(Step(w, Delete(c, ok))) && Extends(w.dir, Step(w, Delete(c, ok)).dir)
  {
    var w' := Step(w, Delete(c, ok));
    if c in w.calls { assert CallOk(w, c); }
    forall d | d in w'.calls ensures CallOk(w', d) { assert CallOk(w, d); }
  }

  lemma StepKeeps(w: World, e: Event)
    requires Inv(w)
    ensures Inv(Step(w, e)) && Extends(w.dir, Step(w, e).dir)
  {
    match e
    case Request(c, p) =>
      forall d | d in Step(w, e).calls ensures CallOk(Step(w, e), d) { if d in w.calls { assert CallOk(w, d); } }
    case Lookup(c) => LookupKeeps(w, c);
    case Create(c, o, slug) => CreateKeeps(w, c, o, slug);
    case Bind(c) => BindKeeps(w, c, e);
    case BindError(c, _) => BindKeeps(w, c, e);
    case Delete(c, ok) => DeleteKeeps(w, c, ok);
    case Fail(c) =>
      forall d | d in Step(w, e).calls ensures CallOk(Step(w, e), d) { assert CallOk(w, d); }
  }

  lemma {:induction false} RunKeeps(w: World, es: seq<Event>)
    requires Inv(w)
    ensures Inv(Run(w, es)) && Extends(w.dir, Run(w, es).dir)
  {
    if es != [] {
      RunKeeps(w, es[..|es| - 1]);
      StepKeeps(Run(w, es[..|es| - 1]), es[|es| - 1]);
    }
  }

  // ---------------------------------------------------------------------------------------
  // The promises
  // ---------------------------------------------------------------------------------------

  /** A binding, once made, never changes, and the organization it names is never deleted. */
  lemma BindingIsForGood(es: seq<Event>, later: seq<Event>, p: Principal)
    requires p in Run(INIT, es).dir.bindings
    ensures var d, d' := Run(INIT, es).dir, Run(Run(INIT, es), later).dir;
      p in d'.bindings && d'.bindings[p] == d.bindings[p] && d'.bindings[p] in d'.orgs
  {
    RunKeeps(INIT, es);
    RunKeeps(Run(INIT, es), later);
  }

  /** Any two requests of one principal that succeed report the same organization, the bound one. */
  lemma SignUpConverges(es: seq<Event>, c: Call, d: Call)
    requires var w := Run(INIT, es);
      && c in w.calls && d in w.calls && c in w.who && d in w.who && w.who[c] == w.who[d]
      && w.calls[c].Done? && w.calls[d].Done?
    ensures var w := Run(INIT, es);
      w.calls[c].home == w.calls[d].home && Home(w.dir, w.who[c]) == Some(w.calls[c].home)
  {
    RunKeeps(INIT, es);
    var w := Run(INIT, es);
    assert CallOk(w, c) && CallOk(w, d);
  }

  /** What a request that has ended leaves behind: if it succeeded, the organization it made is the
      principal's home, or it is gone, or its clean-up failed; if it failed after cleaning up, even in
      its second lookup, the organization is gone. */
  lemma LosersLeaveNothing(es: seq<Event>, c: Call)
    requires var w := Run(INIT, es);
      && c in w.calls && c in w.who
      && ((w.calls[c].Done? && w.calls[c].own.Some?) || (w.calls[c].Failed? && w.calls[c].cleanup))
    ensures var w := Run(INIT, es);
      && w.calls[c].own.Some?
      && var o := w.calls[c].own.value;
         && (w.calls[c].Done? ==> Home(w.dir, w.who[c]) == Some(o) || o !in w.dir.orgs || !w.calls[c].cleanup)
         && (w.calls[c].Failed? ==> o !in w.dir.orgs)
  {
    RunKeeps(INIT, es);
    assert CallOk(Run(INIT, es), c);
  }

  /** An organization that has been deleted is never inserted again. */
  lemma {:induction false} GoneForGood(w: World, es: seq<Event>, o: OrgId)
    requires o in w.made && o !in w.dir.orgs
    ensures o in Run(w, es).made && o !in Run(w, es).dir.orgs
  {
    if es != [] {
      GoneForGood(w, es[..|es| - 1], o);
    }
  }

  /** The request lost the race and has deleted the organization it made. */
  predicate CleanedUp(ph: Phase) {
    || (ph.Cleaned? && ph.cleanup)
    || (ph.Failed? && ph.cleanup)
    || (ph.Done? && ph.own.Some? && ph.own.value != ph.home && ph.cleanup)
  }

  /** Once a loser has cleaned up, its organization is absent after every continuation, whatever
      becomes of the request itself, and so nobody is ever at home in it. */
  lemma LoserStaysGone(es: seq<Event>, later: seq<Event>, c: Call, p: Principal)
    requires c in Run(INIT, es).calls && CleanedUp(Run(INIT, es).calls[c])
    ensures Own(Run(INIT, es).calls[c]).Some?
    ensures var o, d := Own(Run(INIT, es).calls[c]).value, Run(Run(INIT, es), later).dir;
      o !in d.orgs && Home(d, p) != Some(o)
  {
    RunKeeps(INIT, es);
    var w := Run(INIT, es);
    assert CallOk(w, c);
    GoneForGood(w, later, Own(w.calls[c]).value);
  }

  // ---------------------------------------------------------------------------------------
  // The directory itself
  // ---------------------------------------------------------------------------------------

  const SLUG_ATTEMPTS := 10

  class Directory {
    var orgs: map<OrgId, Slug>
    var bindings: map<Principal, OrgId>

    ghost function View(): Dir
      reads this
    {
      Dir(orgs, bindings)
    }

    constructor ()
      ensures View() == INIT.dir
    {
      orgs, bindings := map[], map[];
    }

    /** Retries past a slug that is taken; `slugs` are the names the generator will come up with. It
        succeeds exactly when one of the first ten is free, and takes the first of those. */
    method CreateOrg(id: OrgId, slugs: seq<Slug>) returns (slug: Option<Slug>)
      requires |slugs| == SLUG_ATTEMPTS && id !in orgs
      modifies this`orgs
      ensures slug.None? <==> forall s :: s in slugs ==> s in old(orgs).Values
      ensures slug.None? ==> orgs == old(orgs)
      ensures slug.Some? ==> orgs == old(orgs)[id := slug.value] && slug.value !in old(orgs).Values
      ensures slug.Some? ==> exists i :: 0 <= i < |slugs| && slugs[i] == slug.value
                                         && forall j :: 0 <= j < i ==> slugs[j] in old(orgs).Values
    {
      for i := 0 to SLUG_ATTEMPTS
        invariant orgs == old(orgs)
        invariant forall j :: 0 <= j < i ==> slugs[j] in orgs.Values
      {
        if slugs[i] !in orgs.Values {
          orgs := orgs[id := slugs[i]];
          return Some(slugs[i]);
        }
      }
      return None;
    }

    method Bind(p: Principal, o: OrgId) returns (won: bool)
      modifies this`bindings
      ensures View() == Bound(old(View()), p, o)
      ensures won <==> p !in old(bindings)
    {
      won := p !in bindings;
      if won {
        bindings := bindings[p := o];
      }
    }

    method DeleteOrg(o: OrgId)
      modifies this
      ensures View() == Deleted(old(View()), o)
    {
      orgs := orgs - {o};
      bindings := map p | p in bindings && bindings[p] != o :: bindings[p];
    }

    method LookupHome(p: Principal) returns (home: Option<OrgId>)
      ensures home == Home(View(), p)
    {
      if p in bindings && bindings[p] in orgs {
        return Some(bindings[p]);
      }
      return None;
    }
  }
}
