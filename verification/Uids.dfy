/** POSIX uids for the members of one workspace: resolveIdentity and unixName in
    internal/mgmtapi/sessionidentity.go, over the queries of internal/store/queries.sql.

    A resolve is one transaction of several statements. Inserting a membership row locks its key,
    taking a number from the workspace's counter locks the workspace row, and setting a member's uid
    locks that member's row, until the transaction commits or rolls back; what it wrote, the inserted
    row included, is seen by others only when it commits. Resolves, removals and additions of members
    interleave freely around those locks. */
module Uids {
  import opened Decimal

  const UID_BASE := 2000
  const MAX_INT32 := 0x7fff_ffff

  type User = nat
  type Call = nat

  datatype Phase =
    | Began
    | Ensured(ins: bool)                    // the membership row was there, or was inserted just now
    | NoUid(ins: bool)                      // it was read and has no uid
    | Took(n: nat, ins: bool)               // the counter was read and raised; the workspace row is locked
    | Claimed(n: nat, ins: bool)            // the member row was updated and is locked too
    | Missed(n: nat)                        // no row to update: removed, or somebody else's claim stands
    | Done(uid: nat)
    | Failed

  datatype World = World(
    counter: nat,                       // workspace.next_uid, as committed
    members: map<User, Option<nat>>,    // workspace_member.uid, as committed
    who: map<Call, User>,
    calls: map<Call, Phase>,
    locked: Option<Call>,               // who holds the workspace row
    given: map<nat, User>)              // history: every uid ever committed to a member row

  datatype Event =
    | Begin(c: Call, u: User)
    | Ensure(c: Call)
    | Read(c: Call)
    | Take(c: Call)
    | Claim(c: Call)
    | Reread(c: Call)                   // after a miss
    | Commit(c: Call)                   // of a claim
    | Rollback(c: Call)
    | AddMember(u: User)
    | RemoveMember(u: User)

  const INIT := World(UID_BASE, map[], map[], map[], None, map[])

  /** This transaction has inserted its membership row and not committed. */
  predicate Inserted(ph: Phase) { (ph.Ensured? || ph.NoUid? || ph.Took? || ph.Claimed?) && ph.ins }

  /** Some transaction has updated this member's committed row and not committed. */
  predicate RowLocked(w: World, u: User) {
    exists c :: c in w.calls && c in w.who && w.calls[c].Claimed? && !w.calls[c].ins && w.who[c] == u
  }

  /** Some transaction has inserted a row for this member and not committed. */
  predicate KeyLocked(w: World, u: User) {
    exists c :: c in w.calls && c in w.who && Inserted(w.calls[c]) && w.who[c] == u
  }

  predicate In(w: World, c: Call) { c in w.calls && c in w.who }

  /** resolveIdentity's answer from a membership row. */
  function Answer(row: Option<nat>): Phase {
    if row.None? || row.value < UID_BASE then Failed else Done(row.value)
  }

  function Released(w: World, c: Call): Option<Call> { if w.locked == Some(c) then None else w.locked }

  function Step(w: World, e: Event): World {
    match e
    case Begin(c, u) => if c in w.calls then w else w.(calls := w.calls[c := Began], who := w.who[c := u])
    case Ensure(c) =>
      if !In(w, c) || !w.calls[c].Began? then w
      else if w.who[c] in w.members then w.(calls := w.calls[c := Ensured(false)])
      else if KeyLocked(w, w.who[c]) then w
      else w.(calls := w.calls[c := Ensured(true)])
    case Read(c) =>
      if !In(w, c) || !w.calls[c].Ensured? then w
      else if w.calls[c].ins then w.(calls := w.calls[c := NoUid(true)])
      else if w.who[c] !in w.members then w.(calls := w.calls[c := Failed])
      else if w.members[w.who[c]].None? then w.(calls := w.calls[c := NoUid(false)])
      else w.(calls := w.calls[c := Answer(w.members[w.who[c]])])
    case Take(c) =>
      if !In(w, c) || !w.calls[c].NoUid? || w.locked.Some? || w.counter >= MAX_INT32 then w
      else w.(calls := w.calls[c := Took(w.counter, w.calls[c].ins)], locked := Some(c))
    case Claim(c) =>
      if !In(w, c) || !w.calls[c].Took? then w
      else if w.calls[c].ins then w.(calls := w.calls[c := Claimed(w.calls[c].n, true)])
      else if RowLocked(w, w.who[c]) then w
      else if w.who[c] in w.members && w.members[w.who[c]].None?
      then w.(calls := w.calls[c := Claimed(w.calls[c].n, false)])
      else w.(calls := w.calls[c := Missed(w.calls[c].n)])
    case Reread(c) =>
      if !In(w, c) || !w.calls[c].Missed? then w
      else if w.who[c] !in w.members
      then w.(calls := w.calls[c := Failed], locked := Released(w, c))
      else w.(calls := w.calls[c := Answer(w.members[w.who[c]])], locked := Released(w, c),
              counter := w.calls[c].n + 1)   // the number is spent: a gap in the sequence
    case Commit(c) =>
      if !In(w, c) || !w.calls[c].Claimed? then w
      else
        var n, u := w.calls[c].n, w.who[c];
        w.(calls := w.calls[c := Answer(Some(n))], locked := Released(w, c),
           counter := n + 1, members := w.members[u := Some(n)], given := w.given[n := u])
    case Rollback(c) =>
      if !In(w, c) || w.calls[c].Done? then w
      else w.(calls := w.calls[c := Failed], locked := Released(w, c))
    case AddMember(u) => if u in w.members || KeyLocked(w, u) then w else w.(members := w.members[u := None])
    case RemoveMember(u) => if RowLocked(w, u) then w else w.(members := w.members - {u})
  }

  function Run(w: World, es: seq<Event>): World {
    if es == [] then w else Step(Run(w, es[..|es| - 1]), es[|es| - 1])
  }

  // ---------------------------------------------------------------------------------------
  // What every step keeps
  // ---------------------------------------------------------------------------------------

  predicate Holding(ph: Phase) { ph.Took? || ph.Claimed? || ph.Missed? }

  predicate OnlyInsert(w: World, c: Call)
    requires c in w.who
  {
    forall d :: d in w.calls && d in w.who && d != c && Inserted(w.calls[d]) ==> w.who[d] != w.who[c]
  }

  predicate CallOk(w: World, c: Call)
    requires c in w.calls
  {
    && c in w.who
    && (Holding(w.calls[c]) ==> w.locked == Some(c) && w.calls[c].n == w.counter < MAX_INT32)
    && (w.calls[c].Claimed? && !w.calls[c].ins ==> w.who[c] in w.members && w.members[w.who[c]].None?)
    && (Inserted(w.calls[c]) ==> w.who[c] !in w.members && OnlyInsert(w, c))
    && (w.calls[c].Done? ==> w.calls[c].uid in w.given && w.given[w.calls[c].uid] == w.who[c])
  }

  predicate Inv(w: World) {
    && w.counter >= UID_BASE
    && (forall c :: c in w.calls ==> CallOk(w, c))
    && (forall n :: n in w.given ==> UID_BASE <= n < w.counter)
    && (forall u :: u in w.members && w.members[u].Some? ==>
          w.members[u].value in w.given && w.given[w.members[u].value] == u)
    && w.counter <= MAX_INT32
  }

  /** What was given stays given, and a uid stays put while its membership row lives. */
  predicate Keeps(w: World, w': World) {
    && (forall n :: n in w.given ==> n in w'.given && w'.given[n] == w.given[n])
    && (forall u :: u in w.members && w.members[u].Some? && u in w'.members ==> w'.members[u] == w.members[u])
  }

  /** Another call is untouched by a step that changes call `c`, and the lock only if `c` may. */
  lemma OtherCallOk(w: World, w': World, c: Call, d: Call)
    requires Inv(w) && c in w.calls && c in w.who && d in w.calls && d != c
    requires c in w'.calls
    requires w' == w.(calls := w.calls[c := w'.calls[c]], counter := w'.counter, locked := w'.locked)
    requires (w'.locked == w.locked && w'.counter == w.counter) || w.locked == None || w.locked == Some(c)
    requires Inserted(w'.calls[c]) ==> Inserted(w.calls[c]) || !KeyLocked(w, w.who[c])
    ensures CallOk(w', d)
  {
    assert CallOk(w, d);
    if Inserted(w.calls[c]) { assert CallOk(w, c); }
  }

  /** What a step that changes one call, and perhaps the counter and the lock, has to respect. */
  lemma CallStepKeeps(w: World, w': World, c: Call)
    requires Inv(w) && c in w.calls && c in w.who
    requires c in w'.calls
    requires w' == w.(calls := w.calls[c := w'.calls[c]], counter := w'.counter, locked := w'.locked)
    requires (w'.locked == w.locked && w'.counter == w.counter) || w.locked == None || w.locked == Some(c)
    requires w.counter <= w'.counter <= MAX_INT32
    requires Inserted(w'.calls[c]) ==> Inserted(w.calls[c]) || !KeyLocked(w, w.who[c])
    requires CallOk(w', c)
    ensures Inv(w') && Keeps(w, w')
  {
    forall d | d in w'.calls ensures CallOk(w', d) { if d != c { OtherCallOk(w, w', c, d); } }
  }

  lemma BeginKeeps(w: World, c: Call, u: User)
    requires Inv(w)
    ensures Inv(Step(w, Begin(c, u))) && Keeps(w, Step(w, Begin(c, u)))
  {
    var w' := Step(w, Begin(c, u));
    forall d | d in w'.calls ensures CallOk(w', d) { if d in w.calls { assert CallOk(w, d); } }
  }

  lemma EnsureKeeps(w: World, c: Call)
    requires Inv(w)
    ensures Inv(Step(w, Ensure(c))) && Keeps(w, Step(w, Ensure(c)))
  {
    var w' := Step(w, Ensure(c));
    if w' != w { CallStepKeeps(w, w', c); }
  }

  lemma ReadKeeps(w: World, c: Call)
    requires Inv(w)
    ensures Inv(Step(w, Read(c))) && Keeps(w, Step(w, Read(c)))
  {
    var w' := Step(w, Read(c));
    if w' != w {
      assert CallOk(w, c);
      CallStepKeeps(w, w', c);
    }
  }

  lemma TakeKeeps(w: World, c: Call)
    requires Inv(w)
    ensures Inv(Step(w, Take(c))) && Keeps(w, Step(w, Take(c)))
  {
    var w' := Step(w, Take(c));
    if w' != w {
      assert CallOk(w, c);
      CallStepKeeps(w, w', c);
    }
  }

  lemma ClaimKeeps(w: World, c: Call)
    requires Inv(w)
    ensures Inv(Step(w, Claim(c))) && Keeps(w, Step(w, Claim(c)))
  {
    var w' := Step(w, Claim(c));
    if w' != w {
      assert CallOk(w, c);
      CallStepKeeps(w, w', c);
    }
  }

  lemma EndKeeps(w: World, c: Call, e: Event)
    requires Inv(w) && (e == Reread(c) || e == Rollback(c))
    ensures Inv(Step(w, e)) && Keeps(w, Step(w, e))
  {
    var w' := Step(w, e);
    if w' != w {
      assert CallOk(w, c);
      CallStepKeeps(w, w', c);
    }
  }

  lemma CommitKeeps(w: World, c: Call)
    requires Inv(w)
    ensures Inv(Step(w, Commit(c))) && Keeps(w, Step(w, Commit(c)))
  {
    var w' := Step(w, Commit(c));
    if c in w.calls { assert CallOk(w, c); }
    forall d | d in w'.calls ensures CallOk(w', d) { assert CallOk(w, d); }
  }

  lemma MemberStepKeeps(w: World, e: Event)
    requires Inv(w) && (e.AddMember? || e.RemoveMember?)
    ensures Inv(Step(w, e)) && Keeps(w, Step(w, e))
  {
    var w' := Step(w, e);
    forall c | c in w'.calls ensures CallOk(w', c) { assert CallOk(w, c); }
  }

  lemma StepKeeps(w: World, e: Event)
    requires Inv(w)
    ensures Inv(Step(w, e)) && Keeps(w, Step(w, e))
  {
    match e
    case Begin(c, u) => BeginKeeps(w, c, u);
    case Ensure(c) => EnsureKeeps(w, c);
    case Read(c) => ReadKeeps(w, c);
    case Take(c) => TakeKeeps(w, c);
    case Claim(c) => ClaimKeeps(w, c);
    case Reread(c) => EndKeeps(w, c, e);
    case Rollback(c) => EndKeeps(w, c, e);
    case Commit(c) => CommitKeeps(w, c);
    case AddMember(_) => MemberStepKeeps(w, e);
    case RemoveMember(_) => MemberStepKeeps(w, e);
  }

  lemma {:induction false} RunKeeps(w: World, es: seq<Event>)
    requires Inv(w)
    ensures Inv(Run(w, es))
    ensures forall n :: n in w.given ==> n in Run(w, es).given && Run(w, es).given[n] == w.given[n]
  {
    if es != [] {
      RunKeeps(w, es[..|es| - 1]);
      StepKeeps(Run(w, es[..|es| - 1]), es[|es| - 1]);
    }
  }

  // ---------------------------------------------------------------------------------------
  // The promises
  // ---------------------------------------------------------------------------------------

  /** A uid belongs to one person for ever: in any run, whoever is ever answered with a uid, before
      or after members leave and come back, is the same user. */
  lemma UidNeverShared(es: seq<Event>, later: seq<Event>, c: Call, d: Call)
    requires var w := Run(INIT, es); c in w.calls && c in w.who && w.calls[c].Done?
    requires var w' := Run(Run(INIT, es), later); d in w'.calls && d in w'.who && w'.calls[d].Done?
    requires Run(INIT, es).calls[c].uid == Run(Run(INIT, es), later).calls[d].uid
    ensures Run(INIT, es).who[c] == Run(Run(INIT, es), later).who[d]
    ensures UID_BASE <= Run(INIT, es).calls[c].uid <= MAX_INT32
  {
    RunKeeps(INIT, es);
    var w := Run(INIT, es);
    RunKeeps(w, later);
    assert CallOk(w, c) && CallOk(Run(w, later), d);
  }

  /** The same for the rows: whoever has a uid, now or at any later point, is one and the same
      member, whoever left in between. */
  lemma RowsNeverShareUid(es: seq<Event>, later: seq<Event>, u: User, v: User)
    requires u in Run(INIT, es).members && v in Run(Run(INIT, es), later).members
    requires var uid := Run(INIT, es).members[u]; uid.Some? && uid == Run(Run(INIT, es), later).members[v]
    ensures u == v && UID_BASE <= Run(INIT, es).members[u].value <= MAX_INT32
  {
    RunKeeps(INIT, es);
    RunKeeps(Run(INIT, es), later);
  }

  /** A member's uid does not change while the membership row lives. */
  lemma UidFixedWhileRowLives(es: seq<Event>, e: Event, u: User)
    requires u in Run(INIT, es).members && Run(INIT, es).members[u].Some? && u in Step(Run(INIT, es), e).members
    ensures Step(Run(INIT, es), e).members[u] == Run(INIT, es).members[u]
  {
    RunKeeps(INIT, es);
    StepKeeps(Run(INIT, es), e);
  }

  // ---------------------------------------------------------------------------------------
  // Names and homes
  // ---------------------------------------------------------------------------------------

  const LEM: seq<byte> := [0x6c, 0x65, 0x6d]

  /** /workspace/homes/ */
  const HOMES_ROOT: seq<byte> :=
    [0x2f, 0x77, 0x6f, 0x72, 0x6b, 0x73, 0x70, 0x61, 0x63, 0x65, 0x2f, 0x68, 0x6f, 0x6d, 0x65, 0x73, 0x2f]

  function UnixName(uid: nat): seq<byte> { LEM + Digits(uid) }

  function HomeOf(uid: nat): seq<byte> { HOMES_ROOT + UnixName(uid) }

  /** Login names and homes are as distinct as the uids they are built from. */
  lemma NamesAndHomesDistinct(a: nat, b: nat)
    ensures UnixName(a) == UnixName(b) <==> a == b
    ensures HomeOf(a) == HomeOf(b) <==> a == b
  {
    if HomeOf(a) == HomeOf(b) {
      assert HomeOf(a)[|HOMES_ROOT|..] == UnixName(a) && HomeOf(b)[|HOMES_ROOT|..] == UnixName(b);
    }
    if UnixName(a) == UnixName(b) {
      assert UnixName(a)[3..] == Digits(a) && UnixName(b)[3..] == Digits(b);
      DigitsInjective(a, b);
    }
  }
}
