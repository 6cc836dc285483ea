/** One PTY session and its clients: internal/ptysession/session.go.

    `World` is a session together with everything its clients have been handed, and `Step` one
    critical section of readLoop, Attach, Detach, finish or Next. Any interleaving of those is a
    sequence of events, so a statement about `Run` holds of every schedule. */
module Sessions {
  import opened Collections
  import opened Decimal
  import opened Modes
  import opened Reattach
  import opened Replay
  import opened Attachments

  /** A client's queue, and the history that explains it: the output before it attached, the part
      of that output it was replayed, what the PTY produced while it was registered, what Next has
      returned to it, and the reason Next has reported, if it has. */
  datatype Client = Client(
    queue: Queue,
    start: seq<byte>,
    snap: seq<byte>,
    live: seq<byte>,
    received: seq<byte>,
    told: Option<CloseReason>)

  datatype World<!K> = World(
    tracker: Tracker,
    chunks: seq<Chunk>,
    ringLimit: nat,
    attached: set<K>,
    clients: map<K, Client>,
    exited: bool,
    output: seq<byte>)

  datatype Event<K> =
    | Output(b: seq<byte>)     // one read of the PTY, fanned out under the session lock
    | Attach(k: K)
    | Deregister(k: K)         // the locked half of Detach
    | CloseDetached(k: K)      // the half of Detach after the lock is released
    | Next(k: K)
    | Finish                   // the child has exited

  function Init<K>(ringLimit: nat): World<K> {
    World(FRESH, [], ringLimit, {}, map[], false, [])
  }

  function Delivered(c: Client, b: seq<byte>): Client {
    c.(queue := Pushed(c.queue, b), live := c.live + b)
  }

  /** A new client's queue, seeded under the lock with the prelude and then the replay. */
  ghost function Seeded(t: Tracker, cs: seq<Chunk>): Queue {
    Pushed(Pushed(NewQueue(DEFAULT_QUEUE_BYTES), Prelude(t)), Snapshot(cs))
  }

  ghost function NewClient(t: Tracker, cs: seq<Chunk>, output: seq<byte>): Client {
    Client(Seeded(t, cs), output, Snapshot(cs), [], [], None)
  }

  function Taken(c: Client): Client
    requires c.queue.q != [] || c.queue.closed
  {
    if c.queue.q != []
    then c.(queue := Popped(c.queue), received := c.received + c.queue.q[0])
    else c.(told := Some(c.queue.reason))
  }

  ghost function Step<K>(w: World<K>, e: Event<K>): World<K> {
    match e
    case Output(b) =>
      if w.exited || b == [] then w
      else w.(tracker := Feed(w.tracker, b, AtMost(MAX_TRACKED_MODES)),
              chunks := Evict(w.chunks + [Chunk(b, w.tracker.state.Ground?)], w.ringLimit),
              clients := map k | k in w.clients :: if k in w.attached then Delivered(w.clients[k], b) else w.clients[k],
              output := w.output + b)
    case Attach(k) =>
      if w.exited || k in w.clients then w
      else w.(attached := w.attached + {k},
              clients := w.clients[k := NewClient(w.tracker, w.chunks, w.output)])
    case Deregister(k) => w.(attached := w.attached - {k})
    case CloseDetached(k) =>
      if k !in w.clients || k in w.attached then w
      else w.(clients := w.clients[k := w.clients[k].(queue := Closed(w.clients[k].queue, Detached))])
    case Next(k) =>
      if k !in w.clients || (w.clients[k].queue.q == [] && !w.clients[k].queue.closed) then w
      else w.(clients := w.clients[k := Taken(w.clients[k])])
    case Finish =>
      if w.exited then w
      else w.(exited := true, attached := {},
              clients := map k | k in w.clients ::
                if k in w.attached then w.clients[k].(queue := Closed(w.clients[k].queue, SessionEnded))
                else w.clients[k])
  }

  ghost function Run<K>(w: World<K>, es: seq<Event<K>>): World<K> {
    if es == [] then w else Step(Run(w, es[..|es| - 1]), es[|es| - 1])
  }

  // ---------------------------------------------------------------------------------------
  // What every step keeps
  // ---------------------------------------------------------------------------------------

  /** Everything the client is owed: its seed, then the live output since. */
  ghost function Owed(c: Client): seq<byte> { Seed(c.start, c.snap) + c.live }

  /** The replayed part is a clean end of the output before the attach. */
  predicate ReplayOk(c: Client) {
    && |c.snap| <= |c.start|
    && c.start == c.start[..|c.start| - |c.snap|] + c.snap
    && CleanSuffix(c.start[..|c.start| - |c.snap|], c.snap)
  }

  /** No gap and no duplicate: received and queued bytes are exactly what is owed, unless the queue
      overflowed, and then what was received is still the beginning of it. */
  ghost predicate DeliveryOk(c: Client) {
    && QueueOk(c.queue)
    && (c.queue.reason != Overflow ==> c.received + Joined(c.queue.q) == Owed(c))
    && c.received <= Owed(c)
    && (c.told.Some? ==> c.queue.closed && c.queue.q == [] && c.told.value == c.queue.reason)
  }

  /** The client's view of the stream is an initial part of it: all of it while it is registered,
      and all of it if what ended it was the end of the session. */
  ghost predicate StreamOk<K>(w: World<K>, k: K)
    requires k in w.clients
  {
    var c := w.clients[k];
    && c.start + c.live <= w.output
    && (k in w.attached || c.queue.reason == SessionEnded ==> c.start + c.live == w.output)
    && (c.queue.reason == SessionEnded ==> w.exited)
    && (k in w.attached ==> !w.exited && (!c.queue.closed || c.queue.reason == Overflow))
  }

  ghost predicate Inv<K>(w: World<K>) {
    && w.tracker == Tracked(w.output)
    && Retains(w.chunks, w.output)
    && |Flat(w.chunks)| <= w.ringLimit
    && w.attached <= w.clients.Keys
    && (forall k {:trigger ClientOk(w, k)} :: k in w.clients ==> ClientOk(w, k))
  }

  ghost predicate ClientOk<K>(w: World<K>, k: K)
    requires k in w.clients
  {
    ReplayOk(w.clients[k]) && DeliveryOk(w.clients[k]) && StreamOk(w, k)
  }

  lemma DeliveredOk(c: Client, b: seq<byte>)
    requires ReplayOk(c) && DeliveryOk(c) && (!c.queue.closed || c.queue.reason == Overflow)
    ensures ReplayOk(Delivered(c, b)) && DeliveryOk(Delivered(c, b))
    ensures var r := Delivered(c, b).queue; !r.closed || r.reason == Overflow
  {
    PushedKeeps(c.queue, b);
    var d := Delivered(c, b);
    assert Owed(d) == Owed(c) + b;
    if d.queue.reason != Overflow {
      assert c.received + (Joined(c.queue.q) + b) == (c.received + Joined(c.queue.q)) + b;
    }
  }

  lemma SeededOk(t: Tracker, cs: seq<Chunk>, output: seq<byte>)
    requires t == Tracked(output) && Retains(cs, output)
    ensures var c := NewClient(t, cs, output);
      ReplayOk(c) && DeliveryOk(c) && (!c.queue.closed || c.queue.reason == Overflow)
  {
    SnapshotIsCleanSuffix(cs, output);
    PushedTwice(Prelude(t), Snapshot(cs));
    var owed := Seed(output, Snapshot(cs));
    assert owed + [] == owed;
    assert [] + Joined(Seeded(t, cs).q) == Joined(Seeded(t, cs).q);
  }

  lemma PushedTwice(p: seq<byte>, s: seq<byte>)
    ensures var a := Pushed(Pushed(NewQueue(DEFAULT_QUEUE_BYTES), p), s);
      && QueueOk(a) && (!a.closed || a.reason == Overflow)
      && (a.reason != Overflow ==> Joined(a.q) == p + s)
      && (|p| + |s| <= DEFAULT_QUEUE_BYTES ==> !a.closed)
  {
    var a := NewQueue(DEFAULT_QUEUE_BYTES);
    PushedKeeps(a, p);
    PushedKeeps(Pushed(a, p), s);
  }

  lemma TakenOk(c: Client)
    requires ReplayOk(c) && DeliveryOk(c) && (c.queue.q != [] || c.queue.closed)
    ensures ReplayOk(Taken(c)) && DeliveryOk(Taken(c))
  {
    if c.queue.q != [] {
      var p, rest := c.queue.q[0], c.queue.q[1..];
      assert c.received + (p + Joined(rest)) == (c.received + p) + Joined(rest);
      assert c.received + p == Owed(c)[..|c.received + p|];
    }
  }

  lemma TakenSame(c: Client)
    requires c.queue.q != [] || c.queue.closed
    ensures var d := Taken(c); d.start == c.start && d.live == c.live && d.queue.reason == c.queue.reason
  {
  }

  lemma OutputClientKeeps<K>(w: World<K>, b: seq<byte>, k: K)
    requires Inv(w) && !w.exited && b != [] && k in w.clients
    ensures ClientOk(Step(w, Output(b)), k)
  {
    var c := w.clients[k];
    assert ClientOk(w, k);
    if k in w.attached {
      DeliveredOk(c, b);
      assert c.start + (c.live + b) == (c.start + c.live) + b;
    }
  }

  lemma OutputKeeps<K>(w: World<K>, b: seq<byte>)
    requires Inv(w) && !w.exited && b != []
    ensures Inv(Step(w, Output(b)))
  {
    var w' := Step(w, Output(b));
    FeedConcat(FRESH, w.output, b, AtMost(MAX_TRACKED_MODES));
    RetainsPush(w.chunks, w.output, b, w.ringLimit);
    var kept := EvictIsSuffix(w.chunks + [Chunk(b, w.tracker.state.Ground?)], w.ringLimit);
    forall k | k in w'.clients ensures ClientOk(w', k) { OutputClientKeeps(w, b, k); }
  }

  lemma AttachKeeps<K>(w: World<K>, k: K)
    requires Inv(w) && !w.exited && k !in w.clients
    ensures Inv(Step(w, Attach(k)))
  {
    SeededOk(w.tracker, w.chunks, w.output);
    assert w.output + [] == w.output;
    var w' := Step(w, Attach(k));
    forall j | j in w'.clients ensures ClientOk(w', j) { if j != k { assert ClientOk(w, j); } }
  }

  lemma DeregisterKeeps<K>(w: World<K>, k: K)
    requires Inv(w)
    ensures Inv(Step(w, Deregister(k)))
  {
    var w' := Step(w, Deregister(k));
    forall j | j in w'.clients ensures ClientOk(w', j) { assert ClientOk(w, j); }
  }

  /** Changing one client without touching the stream keeps everything else as it was. */
  lemma UpdateKeeps<K>(w: World<K>, k: K, c: Client)
    requires Inv(w) && k in w.clients && ReplayOk(c) && DeliveryOk(c)
    requires c.start == w.clients[k].start && c.live == w.clients[k].live
    requires c.queue.reason == w.clients[k].queue.reason || (k !in w.attached && c.queue.reason == Detached)
    ensures Inv(w.(clients := w.clients[k := c]))
  {
    var w' := w.(clients := w.clients[k := c]);
    forall j | j in w'.clients ensures ClientOk(w', j) { assert ClientOk(w, j); }
  }

  lemma CloseDetachedKeeps<K>(w: World<K>, k: K)
    requires Inv(w) && k in w.clients && k !in w.attached
    ensures Inv(Step(w, CloseDetached(k)))
  {
    var c := w.clients[k];
    var d := c.(queue := Closed(c.queue, Detached));
    assert ReplayOk(d) && DeliveryOk(d) by {
      assert ClientOk(w, k);
      ClosedOk(c, Detached);
    }
    UpdateKeeps(w, k, d);
  }

  lemma ClosedOk(c: Client, why: CloseReason)
    requires ReplayOk(c) && DeliveryOk(c) && why != Overflow && why != ReasonNone
    ensures var d := c.(queue := Closed(c.queue, why)); ReplayOk(d) && DeliveryOk(d)
  {
  }

  lemma NextKeeps<K>(w: World<K>, k: K)
    requires Inv(w) && k in w.clients && (w.clients[k].queue.q != [] || w.clients[k].queue.closed)
    ensures Inv(Step(w, Next(k)))
  {
    var c := w.clients[k];
    var d := Taken(c);
    assert ReplayOk(d) && DeliveryOk(d) by {
      assert ClientOk(w, k);
      TakenOk(c);
    }
    TakenSame(c);
    UpdateKeeps(w, k, d);
  }

  lemma FinishKeeps<K>(w: World<K>)
    requires Inv(w) && !w.exited
    ensures Inv(Step(w, Finish))
  {
    var w' := Step(w, Finish);
    forall j | j in w'.clients ensures ClientOk(w', j) { FinishClientKeeps(w, j); }
  }

  lemma FinishClientKeeps<K>(w: World<K>, k: K)
    requires Inv(w) && !w.exited && k in w.clients
    ensures ClientOk(Step(w, Finish), k)
  {
    var c, w' := w.clients[k], Step(w, Finish);
    assert ClientOk(w, k);
    assert w'.clients[k] == if k in w.attached then c.(queue := Closed(c.queue, SessionEnded)) else c;
  }

  lemma StepKeeps<K>(w: World<K>, e: Event<K>)
    requires Inv(w)
    ensures Inv(Step(w, e))
  {
    match e
    case Output(b) => if !w.exited && b != [] { OutputKeeps(w, b); }
    case Attach(k) => if !w.exited && k !in w.clients { AttachKeeps(w, k); }
    case Deregister(k) => DeregisterKeeps(w, k);
    case CloseDetached(k) => if k in w.clients && k !in w.attached { CloseDetachedKeeps(w, k); }
    case Next(k) =>
      if k in w.clients && (w.clients[k].queue.q != [] || w.clients[k].queue.closed) { NextKeeps(w, k); }
    case Finish => if !w.exited { FinishKeeps(w); }
  }

  lemma {:induction false} RunKeeps<K>(w: World<K>, es: seq<Event<K>>)
    requires Inv(w)
    ensures Inv(Run(w, es))
  {
    if es != [] {
      RunKeeps(w, es[..|es| - 1]);
      StepKeeps(Run(w, es[..|es| - 1]), es[|es| - 1]);
    }
  }

  // ---------------------------------------------------------------------------------------
  // The promises
  // ---------------------------------------------------------------------------------------

  /** Delivery without gap or duplicate, over every schedule: what Next has returned is always the
      beginning of seed and live output; the queue never holds more than its limit; and once Next
      has reported a reason other than overflow, every byte pushed before the close was returned. */
  lemma Delivery<K>(ringLimit: nat, es: seq<Event<K>>, k: K)
    requires k in Run(Init(ringLimit), es).clients
    ensures var w := Run(Init(ringLimit), es);
      var c := w.clients[k];
      && c.received <= Seed(c.start, c.snap) + c.live
      && c.start + c.live <= w.output
      && c.queue.queued == |Joined(c.queue.q)| <= c.queue.limit
      && (c.told.Some? && c.told.value != Overflow ==> c.received == Seed(c.start, c.snap) + c.live)
  {
    RunKeeps(Init(ringLimit), es);
    var c := Run(Init<K>(ringLimit), es).clients[k];
    assert ClientOk(Run(Init<K>(ringLimit), es), k);
    if c.told.Some? { assert c.received + [] == c.received; }
  }

  /** The first close reason wins, whatever happens afterwards. */
  lemma {:induction false} FirstReasonWins<K>(w: World<K>, es: seq<Event<K>>, k: K)
    requires k in w.clients && w.clients[k].queue.closed
    ensures k in Run(w, es).clients
    ensures var c := Run(w, es).clients[k]; c.queue.closed && c.queue.reason == w.clients[k].queue.reason
  {
    if es != [] {
      FirstReasonWins(w, es[..|es| - 1], k);
      ReasonStays(Run(w, es[..|es| - 1]), es[|es| - 1], k);
    }
  }

  lemma ReasonStays<K>(w: World<K>, e: Event<K>, k: K)
    requires k in w.clients && w.clients[k].queue.closed
    ensures k in Step(w, e).clients
    ensures var c := Step(w, e).clients[k]; c.queue.closed && c.queue.reason == w.clients[k].queue.reason
  {
  }

  /** The client has taken everything out of a queue that never overflowed. */
  predicate CaughtUp(c: Client) { c.queue.q == [] && c.queue.reason != Overflow }

  /** The replay reached the stream's position and the cap cost nothing. */
  predicate Replayable(c: Client) {
    && Positioned(c.start, c.snap)
    && (|Terminal(c.start).dec| <= MAX_TRACKED_MODES || CapCovered(c.start, c.snap))
  }

  /** The promise the package exists for. In every schedule, a client that attached late and has
      caught up is in the terminal state of one that saw the whole stream: all the output so far
      while it is attached or when the session ended under it, the output up to its detach
      otherwise. */
  lemma LateClientEqualsEarlyClient<K>(ringLimit: nat, es: seq<Event<K>>, k: K)
    requires k in Run(Init(ringLimit), es).clients
    requires var c := Run(Init(ringLimit), es).clients[k]; CaughtUp(c) && Replayable(c)
    ensures var w := Run(Init(ringLimit), es);
      var c := w.clients[k];
      && Agree(Terminal(c.received), Terminal(c.start + c.live))
      && (k in w.attached || c.queue.reason == SessionEnded ==> Agree(Terminal(c.received), Terminal(w.output)))
  {
    RunKeeps(Init(ringLimit), es);
    var c := Run(Init<K>(ringLimit), es).clients[k];
    assert ClientOk(Run(Init<K>(ringLimit), es), k);
    assert c.received + [] == c.received;
    ReattachEqualsNeverDetached(c.start[..|c.start| - |c.snap|], c.snap, c.live);
  }

  /** A client attached before any output is handed the stream itself, byte for byte. */
  lemma EarlyClientSeesEverything<K>(ringLimit: nat, es: seq<Event<K>>, k: K)
    requires k in Run(Init(ringLimit), es).clients
    requires var c := Run(Init(ringLimit), es).clients[k]; CaughtUp(c) && c.start == []
    ensures var c := Run(Init(ringLimit), es).clients[k]; c.received == c.live
  {
    RunKeeps(Init(ringLimit), es);
    var c := Run(Init<K>(ringLimit), es).clients[k];
    assert ClientOk(Run(Init<K>(ringLimit), es), k);
    assert c.received + [] == c.received;
    NoPreludeAtStart();
    assert Seed([], []) + c.live == c.live;
  }

  lemma {:induction false} RingLimitFixed<K>(w: World<K>, es: seq<Event<K>>)
    ensures Run(w, es).ringLimit == w.ringLimit
  {
    if es != [] { RingLimitFixed(w, es[..|es| - 1]); }
  }

  lemma SeedFits(output: seq<byte>, cs: seq<Chunk>)
    requires |Flat(cs)| + PRELUDE_BOUND <= DEFAULT_QUEUE_BYTES
    ensures !Seeded(Tracked(output), cs).closed
  {
    PreludeLength(output);
    SnapshotFits(cs);
    PushedTwice(Prelude(Tracked(output)), Snapshot(cs));
  }

  /** With a ring that leaves room for a prelude, as the default one does, seeding a new client
      never overflows its queue, however long the session has run. */
  lemma SeedingNeverOverflows<K>(ringLimit: nat, es: seq<Event<K>>)
    requires ringLimit + PRELUDE_BOUND <= DEFAULT_QUEUE_BYTES
    ensures var w := Run(Init<K>(ringLimit), es); !Seeded(w.tracker, w.chunks).closed
  {
    RunKeeps(Init<K>(ringLimit), es);
    RingLimitFixed(Init<K>(ringLimit), es);
    var w := Run(Init<K>(ringLimit), es);
    SeedFits(w.output, w.chunks);
  }
}
