/** Single use of attach credentials: usedAttachNonces.use and redeemAttach in internal/relay/relay.go,
    after VerifyAttach in internal/creds/creds.go.

    A redemption reads the clock twice: once to check expiry, and once more just before it takes the
    lock under which it sweeps. Other redemptions may run between any two of these steps, so a sweep
    may work with an older reading than one already made. The clock itself does not go backwards. A
    nonce is drawn at random for one credential, so it determines that credential's expiry. */
module Nonces {
  import opened Collections
  import opened Decimal

  type Nonce = seq<byte>
  type Redemption = nat

  /** The nonces remembered after a sweep at `now`. */
  function Swept(seen: map<Nonce, int>, now: int): map<Nonce, int> {
    map n | n in seen && now <= seen[n] :: seen[n]
  }

  function Used(seen: map<Nonce, int>, n: Nonce, expires: int, now: int): map<Nonce, int> {
    var kept := Swept(seen, now);
    if n in kept then kept else kept[n := expires]
  }

  predicate Accepts(seen: map<Nonce, int>, n: Nonce, now: int) { n !in Swept(seen, now) }

  /** A redemption that has passed the expiry check, and one that has read the clock again. */
  datatype Pending =
    | Checked(nonce: Nonce, checkedAt: int)
    | Reading(nonce: Nonce, checkedAt: int, reading: int)

  /** One locked use: what it swept with and how it was answered. */
  datatype Entry = Entry(nonce: Nonce, checkedAt: int, reading: int, accepted: bool)

  datatype World = World(
    clock: int,
    expiry: map<Nonce, int>,                // credentials minted
    seen: map<Nonce, int>,
    pending: map<Redemption, Pending>,
    log: seq<Entry>)                        // history: locked uses, in the order of the lock

  datatype Event =
    | Mint(n: Nonce, expires: int)
    | Check(r: Redemption, n: Nonce, now: int)   // signature and expiry
    | ReadClock(r: Redemption, now: int)         // before the lock
    | Locked(r: Redemption)                      // sweep, look up and insert

  const INIT := World(0, map[], map[], map[], [])

  function Step(w: World, e: Event): World {
    match e
    case Mint(n, expires) => if n in w.expiry then w else w.(expiry := w.expiry[n := expires])
    case Check(r, n, now) =>
      if now < w.clock || r in w.pending || n !in w.expiry then w
      else if now > w.expiry[n] then w.(clock := now)
      else w.(clock := now, pending := w.pending[r := Checked(n, now)])
    case ReadClock(r, now) =>
      if now < w.clock || r !in w.pending || !w.pending[r].Checked? then w
      else w.(clock := now, pending := w.pending[r := Reading(w.pending[r].nonce, w.pending[r].checkedAt, now)])
    case Locked(r) =>
      if r !in w.pending || !w.pending[r].Reading? || w.pending[r].nonce !in w.expiry then w
      else
        var p := w.pending[r];
        w.(pending := w.pending - {r}, seen := Used(w.seen, p.nonce, w.expiry[p.nonce], p.reading),
           log := w.log + [Entry(p.nonce, p.checkedAt, p.reading, Accepts(w.seen, p.nonce, p.reading))])
  }

  function Run(w: World, es: seq<Event>): World {
    if es == [] then w else Step(Run(w, es[..|es| - 1]), es[|es| - 1])
  }

  // ---------------------------------------------------------------------------------------
  // What the log says about what is remembered
  // ---------------------------------------------------------------------------------------

  predicate AcceptedAt(log: seq<Entry>, i: nat, n: Nonce) { i < |log| && log[i].nonce == n && log[i].accepted }

  /** Some use after `i` and up to `j` swept with a reading past `x`. */
  predicate LateSweep(log: seq<Entry>, i: nat, j: int, x: int) {
    exists k :: i < k <= j && k < |log| && log[k].reading > x
  }

  /** Accepted once, and not swept away since. */
  ghost predicate Remembered(log: seq<Entry>, n: Nonce, x: int) {
    exists i: nat :: AcceptedAt(log, i, n) && !LateSweep(log, i, |log| - 1, x)
  }

  /** Use `j` is accepted exactly when every earlier acceptance of its nonce has been swept away. */
  ghost predicate AnsweredRight(log: seq<Entry>, j: nat, x: int)
    requires j < |log|
  {
    log[j].accepted <==> forall i: nat :: i < j && AcceptedAt(log, i, log[j].nonce) ==> LateSweep(log, i, j, x)
  }

  ghost predicate Inv(w: World) {
    && (forall n :: n in w.seen ==> n in w.expiry && w.seen[n] == w.expiry[n])
    && (forall n :: n in w.expiry ==> (n in w.seen <==> Remembered(w.log, n, w.expiry[n])))
    && (forall r :: r in w.pending ==> PendingOk(w, w.pending[r]))
    && (forall j :: 0 <= j < |w.log| ==> EntryOk(w, j))
  }

  predicate PendingOk(w: World, p: Pending) { p.nonce in w.expiry && p.checkedAt <= w.expiry[p.nonce] }

  ghost predicate EntryOk(w: World, j: nat)
    requires j < |w.log|
  {
    var n := w.log[j].nonce;
    n in w.expiry && w.log[j].checkedAt <= w.expiry[n] && AnsweredRight(w.log, j, w.expiry[n])
  }

  lemma EarlierSweeps(log: seq<Entry>, e: Entry, i: nat, j: nat, x: int)
    requires j < |log|
    ensures LateSweep(log + [e], i, j, x) <==> LateSweep(log, i, j, x)
  {
    if LateSweep(log + [e], i, j, x) {
      var k :| i < k <= j && (log + [e])[k].reading > x;
      assert log[k].reading > x;
    }
    if LateSweep(log, i, j, x) {
      var k :| i < k <= j && log[k].reading > x;
      assert (log + [e])[k].reading > x;
    }
  }

  lemma OneMoreSweep(log: seq<Entry>, e: Entry, i: nat, x: int)
    requires i < |log|
    ensures LateSweep(log + [e], i, |log|, x) <==> LateSweep(log, i, |log| - 1, x) || e.reading > x
  {
    var more := log + [e];
    if e.reading > x { assert more[|log|].reading > x; }
    if LateSweep(log, i, |log| - 1, x) {
      var k :| i < k <= |log| - 1 && log[k].reading > x;
      assert more[k].reading > x;
    }
    if LateSweep(more, i, |log|, x) && e.reading <= x {
      var k :| i < k <= |log| && more[k].reading > x;
      assert log[k].reading > x;
    }
  }

  /** A use forgets what its own sweep deletes, and remembers its nonce if it accepts it. */
  lemma RememberedAfter(log: seq<Entry>, e: Entry, n: Nonce, x: int)
    ensures Remembered(log + [e], n, x) <==> (Remembered(log, n, x) && e.reading <= x) || (e.nonce == n && e.accepted)
  {
    var more := log + [e];
    if Remembered(log, n, x) && e.reading <= x {
      var i: nat :| AcceptedAt(log, i, n) && !LateSweep(log, i, |log| - 1, x);
      OneMoreSweep(log, e, i, x);
      assert AcceptedAt(more, i, n);
    }
    if e.nonce == n && e.accepted { assert AcceptedAt(more, |log|, n) && !LateSweep(more, |log|, |more| - 1, x); }
    if Remembered(more, n, x) && !(e.nonce == n && e.accepted) {
      var i: nat :| AcceptedAt(more, i, n) && !LateSweep(more, i, |more| - 1, x);
      assert i < |log| && AcceptedAt(log, i, n);
      OneMoreSweep(log, e, i, x);
    }
  }

  lemma SeenAfter(w: World, p: Pending, n: Nonce)
    requires Inv(w) && p.Reading? && p.nonce in w.expiry && n in w.expiry
    ensures var e := Entry(p.nonce, p.checkedAt, p.reading, Accepts(w.seen, p.nonce, p.reading));
      n in Used(w.seen, p.nonce, w.expiry[p.nonce], p.reading) <==> Remembered(w.log + [e], n, w.expiry[n])
  {
    var e := Entry(p.nonce, p.checkedAt, p.reading, Accepts(w.seen, p.nonce, p.reading));
    RememberedAfter(w.log, e, n, w.expiry[n]);
    assert n in w.seen <==> Remembered(w.log, n, w.expiry[n]);
  }

  lemma NewEntryRight(w: World, p: Pending)
    requires Inv(w) && p.Reading? && p.nonce in w.expiry
    ensures var e := Entry(p.nonce, p.checkedAt, p.reading, Accepts(w.seen, p.nonce, p.reading));
      AnsweredRight(w.log + [e], |w.log|, w.expiry[p.nonce])
  {
    var n, x := p.nonce, w.expiry[p.nonce];
    var e := Entry(n, p.checkedAt, p.reading, Accepts(w.seen, n, p.reading));
    var more := w.log + [e];
    assert n in w.seen <==> Remembered(w.log, n, x);
    forall i: nat | i < |w.log| ensures AcceptedAt(more, i, n) <==> AcceptedAt(w.log, i, n) {}
    forall i: nat | i < |w.log|
      ensures LateSweep(more, i, |w.log|, x) <==> LateSweep(w.log, i, |w.log| - 1, x) || e.reading > x
    {
      OneMoreSweep(w.log, e, i, x);
    }
    if !e.accepted {
      var i: nat :| AcceptedAt(w.log, i, n) && !LateSweep(w.log, i, |w.log| - 1, x);
      assert AcceptedAt(more, i, n) && !LateSweep(more, i, |w.log|, x);
    }
  }

  lemma OldEntriesRight(w: World, e: Entry, j: nat)
    requires Inv(w) && j < |w.log| && w.log[j].nonce in w.expiry
    ensures var more := w.log + [e]; more[j] == w.log[j] && AnsweredRight(more, j, w.expiry[w.log[j].nonce])
  {
    var more, n := w.log + [e], w.log[j].nonce;
    assert EntryOk(w, j);
    forall i: nat | i < j
      ensures (AcceptedAt(more, i, n) <==> AcceptedAt(w.log, i, n))
           && (LateSweep(more, i, j, w.expiry[n]) <==> LateSweep(w.log, i, j, w.expiry[n]))
    {
      EarlierSweeps(w.log, e, i, j, w.expiry[n]);
    }
  }

  lemma LockedKeeps(w: World, r: Redemption)
    requires Inv(w) && r in w.pending && w.pending[r].Reading?
    ensures Inv(Step(w, Locked(r)))
  {
    var p, w' := w.pending[r], Step(w, Locked(r));
    assert PendingOk(w, p);
    var e := Entry(p.nonce, p.checkedAt, p.reading, Accepts(w.seen, p.nonce, p.reading));
    assert w'.log == w.log + [e];
    forall n | n in w'.expiry ensures n in w'.seen <==> Remembered(w'.log, n, w'.expiry[n]) { SeenAfter(w, p, n); }
    forall j | 0 <= j < |w'.log| ensures EntryOk(w', j) {
      if j < |w.log| {
        assert EntryOk(w, j);
        OldEntriesRight(w, e, j);
      } else {
        NewEntryRight(w, p);
      }
    }
    forall q | q in w'.pending ensures PendingOk(w', w'.pending[q]) { assert PendingOk(w, w.pending[q]); }
  }

  lemma MintKeeps(w: World, n: Nonce, expires: int)
    requires Inv(w)
    ensures Inv(Step(w, Mint(n, expires)))
  {
    if n !in w.expiry {
      var w' := Step(w, Mint(n, expires));
      forall i: nat ensures !AcceptedAt(w.log, i, n) { if i < |w.log| { assert EntryOk(w, i); } }
      forall j | 0 <= j < |w'.log| ensures EntryOk(w', j) { assert EntryOk(w, j); }
      forall q | q in w'.pending ensures PendingOk(w', w'.pending[q]) { assert PendingOk(w, w.pending[q]); }
    }
  }

  lemma ClockStepKeeps(w: World, e: Event)
    requires Inv(w) && (e.Check? || e.ReadClock?)
    ensures Inv(Step(w, e))
  {
    var w' := Step(w, e);
    forall q | q in w'.pending ensures PendingOk(w', w'.pending[q]) {
      if q in w.pending { assert PendingOk(w, w.pending[q]); }
    }
    forall j | 0 <= j < |w'.log| ensures EntryOk(w', j) { assert EntryOk(w, j); }
  }

  lemma {:induction false} RunKeeps(es: seq<Event>)
    ensures Inv(Run(INIT, es))
  {
    if es != [] {
      var w, e := Run(INIT, es[..|es| - 1]), es[|es| - 1];
      RunKeeps(es[..|es| - 1]);
      match e
      case Mint(n, expires) => MintKeeps(w, n, expires);
      case Locked(r) => if r in w.pending && w.pending[r].Reading? { LockedKeeps(w, r); }
      case _ => ClockStepKeeps(w, e);
    }
  }

  // ---------------------------------------------------------------------------------------
  // The promises
  // ---------------------------------------------------------------------------------------

  /** Exactly when a nonce is accepted again: if `i` is its latest acceptance before use `j`, use `j`
      is accepted if and only if some sweep since, its own included, had a reading past the expiry. */
  lemma AcceptedAgainExactly(es: seq<Event>, i: nat, j: nat)
    requires var log := Run(INIT, es).log;
      && i < j < |log| && AcceptedAt(log, i, log[j].nonce)
      && forall k: nat :: i < k < j ==> !AcceptedAt(log, k, log[j].nonce)
    ensures var w := Run(INIT, es);
      && w.log[j].nonce in w.expiry
      && (w.log[j].accepted <==> LateSweep(w.log, i, j, w.expiry[w.log[j].nonce]))
  {
    RunKeeps(es);
    var w := Run(INIT, es);
    assert EntryOk(w, j);
    var x := w.expiry[w.log[j].nonce];
    if LateSweep(w.log, i, j, x) {
      var k :| i < k <= j && w.log[k].reading > x;
      forall h: nat | h < j && AcceptedAt(w.log, h, w.log[j].nonce) ensures LateSweep(w.log, h, j, x) {
        assert h < k <= j && w.log[k].reading > x;
      }
    }
  }

  /** A nonce has been accepted more than once. */
  ghost predicate Repeated(log: seq<Entry>, n: Nonce) {
    exists i: nat, j: nat :: i < j && AcceptedAt(log, i, n) && AcceptedAt(log, j, n)
  }

  /** A nonce was presented after an acceptance of it had been swept away. */
  ghost predicate PresentedAfterLateSweep(log: seq<Entry>, n: Nonce, x: int) {
    exists i: nat, j: nat :: i < j < |log| && AcceptedAt(log, i, n) && log[j].nonce == n && LateSweep(log, i, j, x)
  }

  /** Single use over whole runs, exactly: a nonce is accepted more than once if and only if it is
      presented after a sweep, since its acceptance, whose reading was past its expiry. */
  lemma RepeatedExactly(es: seq<Event>, n: Nonce)
    requires n in Run(INIT, es).expiry
    ensures var w := Run(INIT, es); Repeated(w.log, n) <==> PresentedAfterLateSweep(w.log, n, w.expiry[n])
  {
    RunKeeps(es);
    var w := Run(INIT, es);
    var x := w.expiry[n];
    if Repeated(w.log, n) {
      var i: nat, j: nat :| i < j && AcceptedAt(w.log, i, n) && AcceptedAt(w.log, j, n);
      assert EntryOk(w, j);
      assert LateSweep(w.log, i, j, x);
    }
    if PresentedAfterLateSweep(w.log, n, x) {
      var i: nat, j: nat :|
        i < j < |w.log| && AcceptedAt(w.log, i, n) && w.log[j].nonce == n && LateSweep(w.log, i, j, x);
      PresentedMeansRepeated(w, n, i, j);
    }
  }

  lemma PresentedMeansRepeated(w: World, n: Nonce, i: nat, j: nat)
    requires Inv(w) && i < j < |w.log| && AcceptedAt(w.log, i, n) && w.log[j].nonce == n && n in w.expiry
    requires LateSweep(w.log, i, j, w.expiry[n])
    ensures Repeated(w.log, n)
  {
    assert EntryOk(w, j);
    var k :| i < k <= j && w.log[k].reading > w.expiry[n];
    if w.log[j].accepted {
      assert AcceptedAt(w.log, j, n);
    } else {
      var h: nat :| h < j && AcceptedAt(w.log, h, n) && !LateSweep(w.log, h, j, w.expiry[n]);
      assert k <= h;
    }
  }

  /** No nonce is accepted twice in a run where none is presented after such a sweep. */
  lemma SingleUse(es: seq<Event>)
    requires var w := Run(INIT, es);
      forall n :: n in w.expiry ==> !PresentedAfterLateSweep(w.log, n, w.expiry[n])
    ensures forall n :: !Repeated(Run(INIT, es).log, n)
  {
    var w := Run(INIT, es);
    forall n ensures !Repeated(w.log, n) {
      if Repeated(w.log, n) {
        NonceMinted(es, n);
        RepeatedExactly(es, n);
      }
    }
  }

  lemma NonceMinted(es: seq<Event>, n: Nonce)
    requires Repeated(Run(INIT, es).log, n)
    ensures n in Run(INIT, es).expiry
  {
    RunKeeps(es);
    var w := Run(INIT, es);
    var i: nat, j: nat :| i < j && AcceptedAt(w.log, i, n) && AcceptedAt(w.log, j, n);
    assert EntryOk(w, i);
  }

  /** After a use, everything remembered is unexpired at its reading, except possibly the nonce just
      recorded, and that one only if it was used late. */
  lemma SeenIsBounded(es: seq<Event>, r: Redemption)
    requires var w := Run(INIT, es); r in w.pending && w.pending[r].Reading?
    ensures var w := Run(INIT, es);
      var p, w' := w.pending[r], Step(w, Locked(r));
      && p.nonce in w.expiry
      && (forall m :: m in w'.seen ==> p.reading <= w'.seen[m] || (m == p.nonce && p.reading > w.expiry[m]))
      && ((forall m :: m in w'.seen ==> p.reading <= w'.seen[m]) <==> p.reading <= w.expiry[p.nonce])
  {
    RunKeeps(es);
    var w := Run(INIT, es);
    assert PendingOk(w, w.pending[r]);
    assert w.pending[r].nonce in Step(w, Locked(r)).seen;
  }

  // ---------------------------------------------------------------------------------------
  // Reading the clock under the lock
  // ---------------------------------------------------------------------------------------

  /** The variant in which the lock is taken first: nothing comes between a reading and its use. */
  predicate ReadsUnderLock(es: seq<Event>) {
    forall i :: 0 <= i < |es| - 1 && es[i].ReadClock? ==> es[i + 1] == Locked(es[i].r)
  }

  predicate InLockOrder(log: seq<Entry>) { forall i, j :: 0 <= i < j < |log| ==> log[i].reading <= log[j].reading }

  /** Only the redemption that has just read the clock is about to use its reading. */
  predicate JustRead(w: World, es: seq<Event>) {
    && (forall i :: 0 <= i < |w.log| ==> w.log[i].reading <= w.clock)
    && (forall r :: r in w.pending && w.pending[r].Reading? ==>
          es != [] && es[|es| - 1].ReadClock? && es[|es| - 1].r == r && w.pending[r].reading == w.clock)
  }

  lemma {:induction false} UnderLockInOrder(es: seq<Event>)
    requires ReadsUnderLock(es)
    ensures InLockOrder(Run(INIT, es).log) && JustRead(Run(INIT, es), es)
  {
    if es != [] {
      var init, e := es[..|es| - 1], es[|es| - 1];
      forall i | 0 <= i < |init| - 1 && init[i].ReadClock? ensures init[i + 1] == Locked(init[i].r) {
        assert es[i + 1] == Locked(es[i].r);
      }
      UnderLockInOrder(init);
      if init != [] && init[|init| - 1].ReadClock? { assert es[|init|] == Locked(es[|init| - 1].r); }
      RunKeeps(init);
      forall r | r in Run(INIT, init).pending ensures Run(INIT, init).pending[r].nonce in Run(INIT, init).expiry {
        assert PendingOk(Run(INIT, init), Run(INIT, init).pending[r]);
      }
      UnderLockStep(Run(INIT, init), init, e);
      assert es == init + [e];
    }
  }

  lemma UnderLockStep(w: World, es: seq<Event>, e: Event)
    requires InLockOrder(w.log) && JustRead(w, es) && (forall r :: r in w.pending ==> w.pending[r].nonce in w.expiry)
    requires es != [] && es[|es| - 1].ReadClock? ==> e == Locked(es[|es| - 1].r)
    ensures InLockOrder(Step(w, e).log) && JustRead(Step(w, e), es + [e])
  {
  }

  /** Under the lock only a use's own reading matters: a nonce accepted before is accepted again if
      and only if that reading is past its expiry. */
  lemma UnderLockExactly(es: seq<Event>, i: nat, j: nat)
    requires ReadsUnderLock(es)
    requires var log := Run(INIT, es).log;
      && i < j < |log| && AcceptedAt(log, i, log[j].nonce)
      && forall k: nat :: i < k < j ==> !AcceptedAt(log, k, log[j].nonce)
    ensures var w := Run(INIT, es);
      && w.log[j].nonce in w.expiry
      && (w.log[j].accepted <==> w.log[j].reading > w.expiry[w.log[j].nonce])
  {
    AcceptedAgainExactly(es, i, j);
    UnderLockInOrder(es);
    var w := Run(INIT, es);
    if w.log[j].reading > w.expiry[w.log[j].nonce] { assert LateSweep(w.log, i, j, w.expiry[w.log[j].nonce]); }
  }

  /** So reading under the lock, and checking with the same reading, makes every credential single use. */
  lemma SingleUseWithOneReading(es: seq<Event>)
    requires ReadsUnderLock(es)
    requires forall e :: e in Run(INIT, es).log ==> e.reading == e.checkedAt
    ensures forall n :: !Repeated(Run(INIT, es).log, n)
  {
    RunKeeps(es);
    UnderLockInOrder(es);
    var w := Run(INIT, es);
    forall n | n in w.expiry ensures !PresentedAfterLateSweep(w.log, n, w.expiry[n]) {
      forall i: nat, j: nat | i < j < |w.log| && w.log[j].nonce == n ensures !LateSweep(w.log, i, j, w.expiry[n]) {
        assert EntryOk(w, j) && w.log[j] in w.log;
      }
    }
    SingleUse(es);
  }

  // ---------------------------------------------------------------------------------------
  // Without the lock both ways of repeating happen
  // ---------------------------------------------------------------------------------------

  lemma {:induction false} RunConcat(w: World, es: seq<Event>, later: seq<Event>)
    ensures Run(w, es + later) == Run(Run(w, es), later)
  {
    if later == [] {
      assert es + later == es;
    } else {
      assert (es + later)[..|es + later| - 1] == es + later[..|later| - 1];
      RunConcat(w, es, later[..|later| - 1]);
    }
  }

  lemma RunOne(w: World, e: Event)
    ensures Run(w, [e]) == Step(w, e)
  {
    assert [e][..0] == [];
  }

  lemma RunTwo(w: World, a: Event, b: Event)
    ensures Run(w, [a, b]) == Step(Step(w, a), b)
  {
    RunOne(w, a);
    assert [a, b][..1] == [a];
  }

  /** A check and a reading, not yet used. */
  lemma CheckAndRead(w: World, r: Redemption, n: Nonce, at: int, reading: int)
    requires w.clock <= at <= reading && r !in w.pending && n in w.expiry && at <= w.expiry[n]
    ensures Run(w, [Check(r, n, at), ReadClock(r, reading)]) ==
      w.(clock := reading, pending := w.pending[r := Checked(n, at)][r := Reading(n, at, reading)])
  {
    RunTwo(w, Check(r, n, at), ReadClock(r, reading));
  }

  /** `w'` is `w` after redemption `r` of `n` has been used, whatever else is pending. */
  predicate UsedBy(w: World, w': World, n: Nonce, at: int, reading: int) {
    && n in w.expiry && w'.expiry == w.expiry
    && w'.seen == Used(w.seen, n, w.expiry[n], reading)
    && w'.log == w.log + [Entry(n, at, reading, Accepts(w.seen, n, reading))]
  }

  lemma LockedStep(w: World, r: Redemption)
    requires r in w.pending && w.pending[r].Reading? && w.pending[r].nonce in w.expiry
    ensures var p, w' := w.pending[r], Run(w, [Locked(r)]);
      UsedBy(w, w', p.nonce, p.checkedAt, p.reading) && w'.clock == w.clock && w'.pending == w.pending - {r}
  {
    RunOne(w, Locked(r));
  }

  /** One redemption, with nothing in between. */
  function Redeem(r: Redemption, n: Nonce, at: int, reading: int): seq<Event> {
    [Check(r, n, at), ReadClock(r, reading)] + [Locked(r)]
  }

  lemma RedeemRuns(w: World, r: Redemption, n: Nonce, at: int, reading: int)
    requires w.clock <= at <= reading && r !in w.pending && n in w.expiry && at <= w.expiry[n]
    ensures var w' := Run(w, Redeem(r, n, at, reading));
      UsedBy(w, w', n, at, reading) && w'.clock == reading && w'.pending == w.pending
  {
    RunConcat(w, [Check(r, n, at), ReadClock(r, reading)], [Locked(r)]);
    CheckAndRead(w, r, n, at, reading);
    var v := w.(clock := reading, pending := w.pending[r := Checked(n, at)][r := Reading(n, at, reading)]);
    LockedStep(v, r);
    assert w.pending[r := Checked(n, at)][r := Reading(n, at, reading)] - {r} == w.pending;
  }

  /** A credential that expires at 10 is redeemed, and again by a redemption that checks it at 7 and
      reads the clock for its sweep at 11. */
  function ReadLate(n: Nonce): seq<Event> { [Mint(n, 10)] + Redeem(1, n, 5, 6) + Redeem(2, n, 7, 11) }

  lemma TwoReadingsCanRepeat(n: Nonce)
    ensures Run(INIT, ReadLate(n)).log == [Entry(n, 5, 6, true), Entry(n, 7, 11, true)]
  {
    RunOne(INIT, Mint(n, 10));
    RunConcat(INIT, [Mint(n, 10)], Redeem(1, n, 5, 6));
    RunConcat(INIT, [Mint(n, 10)] + Redeem(1, n, 5, 6), Redeem(2, n, 7, 11));
    var v := Run(INIT, [Mint(n, 10)]);
    RedeemRuns(v, 1, n, 5, 6);
    var w := Run(v, Redeem(1, n, 5, 6));
    assert w.seen == map[n := 10];
    RedeemRuns(w, 2, n, 7, 11);
  }

  /** Every redemption checks and sweeps with one reading, in time. The second reads at 8 but gets the
      lock only after another credential's sweep at 11. */
  function LockedLate(n: Nonce, m: Nonce): seq<Event> {
    [Mint(n, 10), Mint(m, 20)] + Redeem(1, n, 6, 6) + [Check(2, n, 8), ReadClock(2, 8)]
    + Redeem(3, m, 11, 11) + [Locked(2)]
  }

  lemma OlderReadingCanRepeat(n: Nonce, m: Nonce)
    requires n != m
    ensures Run(INIT, LockedLate(n, m)).log == [Entry(n, 6, 6, true), Entry(m, 11, 11, true), Entry(n, 8, 8, true)]
  {
    RunFive(INIT, [Mint(n, 10), Mint(m, 20)], Redeem(1, n, 6, 6), [Check(2, n, 8), ReadClock(2, 8)],
            Redeem(3, m, 11, 11), [Locked(2)]);
    FirstRedeemed(n, m);
    LockedAfterSweep(Run(Run(INIT, [Mint(n, 10), Mint(m, 20)]), Redeem(1, n, 6, 6)), n, m);
  }

  lemma RunFive(w: World, a: seq<Event>, b: seq<Event>, c: seq<Event>, d: seq<Event>, e: seq<Event>)
    ensures Run(w, a + b + c + d + e) == Run(Run(Run(Run(Run(w, a), b), c), d), e)
  {
    RunConcat(w, a, b);
    RunConcat(w, a + b, c);
    RunConcat(w, a + b + c, d);
    RunConcat(w, a + b + c + d, e);
  }

  /** `n` has been redeemed at 6 and nothing is pending. */
  predicate OnlyFirst(w: World, n: Nonce, m: Nonce) {
    && w.clock == 6 && w.pending == map[]
    && w.seen == map[n := 10]
    && w.expiry == map[n := 10, m := 20]
  }

  lemma FirstRedeemed(n: Nonce, m: Nonce)
    requires n != m
    ensures var w := Run(Run(INIT, [Mint(n, 10), Mint(m, 20)]), Redeem(1, n, 6, 6));
      OnlyFirst(w, n, m) && w.log == [Entry(n, 6, 6, true)]
  {
    RunTwo(INIT, Mint(n, 10), Mint(m, 20));
    RedeemRuns(Run(INIT, [Mint(n, 10), Mint(m, 20)]), 1, n, 6, 6);
  }

  lemma LockedAfterSweep(w: World, n: Nonce, m: Nonce)
    requires n != m && OnlyFirst(w, n, m)
    ensures var v := Run(w, [Check(2, n, 8), ReadClock(2, 8)]);
      Run(Run(v, Redeem(3, m, 11, 11)), [Locked(2)]).log == w.log + [Entry(m, 11, 11, true)] + [Entry(n, 8, 8, true)]
  {
    CheckAndRead(w, 2, n, 8, 8);
    SweptByOther(Run(w, [Check(2, n, 8), ReadClock(2, 8)]), n, m);
    LastUse(Run(Run(w, [Check(2, n, 8), ReadClock(2, 8)]), Redeem(3, m, 11, 11)), n);
  }

  lemma SweptByOther(v: World, n: Nonce, m: Nonce)
    requires n != m && v.clock == 8 && v.seen == map[n := 10] && v.expiry == map[n := 10, m := 20] && 3 !in v.pending
    ensures var u := Run(v, Redeem(3, m, 11, 11));
      n !in u.seen && u.expiry == v.expiry && u.pending == v.pending && u.log == v.log + [Entry(m, 11, 11, true)]
  {
    RedeemRuns(v, 3, m, 11, 11);
  }

  lemma LastUse(u: World, n: Nonce)
    requires 2 in u.pending && u.pending[2] == Reading(n, 8, 8) && n in u.expiry && n !in u.seen
    ensures Run(u, [Locked(2)]).log == u.log + [Entry(n, 8, 8, true)]
  {
    LockedStep(u, 2);
  }

  class UsedNonces {
    var seen: map<Nonce, int>

    constructor ()
      ensures seen == map[]
    {
      seen := map[];
    }

    /** The sweep deletes entries from the map it is walking, one at a time. */
    method UseNonce(n: Nonce, expires: int, now: int) returns (ok: bool)
      modifies this
      ensures seen == Used(old(seen), n, expires, now)
      ensures ok == Accepts(old(seen), n, now)
    {
      var rest := seen.Keys;
      while rest != {}
        invariant rest <= seen.Keys <= old(seen).Keys
        invariant forall k :: k in old(seen) ==> (k in seen <==> k in rest || now <= old(seen)[k])
        invariant forall k :: k in seen ==> k in old(seen) && seen[k] == old(seen)[k]
      {
        ghost var some := AMember(rest);
        var k :| k in rest;
        rest := rest - {k};
        if now > seen[k] {
          seen := seen - {k};
        }
      }
      assert seen == Swept(old(seen), now);
      if n in seen {
        return false;
      }
      seen := seen[n := expires];
      return true;
    }
  }
}
