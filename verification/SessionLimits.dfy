/** Both conditions of the reattach theorem are needed: for each there are sessions, whatever the size
    of the replay buffer, in which a client attaches, takes everything it is sent and is still not in
    the state of a client that saw the whole stream. */
module SessionLimits {
  import opened Attachments
  import opened Collections
  import opened Decimal
  import opened Ecma48
  import opened Modes
  import opened Reattach
  import opened Replay
  import opened Sessions

  const PLAIN: byte := 0x78   // 'x'

  // ---------------------------------------------------------------------------------------
  // Reads that leave nothing to replay
  // ---------------------------------------------------------------------------------------

  /** Reads that each stop just after an ESC, so that every one but the first starts inside a sequence. */
  function Dirty<K>(n: nat): seq<Event<K>> {
    if n == 0 then [Output([ESC])] else Dirty(n - 1) + [Output([PLAIN, ESC])]
  }

  function DirtyBytes(n: nat): seq<byte> { if n == 0 then [ESC] else DirtyBytes(n - 1) + [PLAIN, ESC] }

  function DirtyChunks(n: nat): seq<Chunk> {
    if n == 0 then [Chunk([ESC], true)] else DirtyChunks(n - 1) + [Chunk([PLAIN, ESC], false)]
  }

  lemma {:induction false} DirtyFeed(t: Tracker, n: nat, lim: Limit)
    requires t.state.Ground?
    ensures Feed(t, DirtyBytes(n), lim) == t.(state := Esc, partial := [ESC])
  {
    if n == 0 {
      FeedSnoc(t, [], ESC, lim);
      assert [] + [ESC] == [ESC];
    } else {
      var u := Feed(t, DirtyBytes(n - 1), lim);
      DirtyFeed(t, n - 1, lim);
      FeedConcat(t, DirtyBytes(n - 1), [PLAIN, ESC], lim);
      FeedSnoc(u, [PLAIN], ESC, lim);
      FeedSnoc(u, [], PLAIN, lim);
      assert [] + [PLAIN] == [PLAIN] && [PLAIN] + [ESC] == [PLAIN, ESC];
    }
  }

  lemma {:induction false} DirtyLength(n: nat)
    ensures |DirtyChunks(n)| == n + 1 && |Flat(DirtyChunks(n))| == 2 * n + 1
    ensures forall i :: 1 <= i <= n ==> !DirtyChunks(n)[i].clean
  {
    if n > 0 {
      DirtyLength(n - 1);
      FlatConcat(DirtyChunks(n - 1), [Chunk([PLAIN, ESC], false)]);
      assert Flat([Chunk([PLAIN, ESC], false)]) == [PLAIN, ESC];
    }
  }

  /** A session that nobody has attached to and whose child is running. */
  predicate Unattended<K>(w: World<K>) { w.clients == map[] && w.attached == {} && !w.exited }

  /** The buffer is what is left of `all`. */
  predicate LeftOf(cs: seq<Chunk>, all: seq<Chunk>, k: nat) { k <= |all| && cs == all[k..] }

  lemma OutputStep<K>(w: World<K>, b: seq<byte>, all: seq<Chunk>, k: nat) returns (k': nat)
    requires Inv(w) && Unattended(w) && b != [] && LeftOf(w.chunks, all, k)
    ensures var w' := Sessions.Step(w, Output(b));
      && Inv(w') && Unattended(w') && w'.ringLimit == w.ringLimit && w'.output == w.output + b
      && LeftOf(w'.chunks, all + [Chunk(b, w.tracker.state.Ground?)], k')
  {
    StepKeeps(w, Output(b));
    var c := Chunk(b, w.tracker.state.Ground?);
    var j := EvictIsSuffix(w.chunks + [c], w.ringLimit);
    k' := k + j;
    assert (all[k..] + [c])[j..] == (all + [c])[k + j..];
  }

  /** `v` is `w` after `n` such reads, with what is left of all the chunks. */
  ghost predicate AfterDirty<K>(w: World<K>, v: World<K>, n: nat, k: nat) {
    && Inv(v) && Unattended(v) && v.ringLimit == w.ringLimit
    && v.output == w.output + DirtyBytes(n)
    && LeftOf(v.chunks, w.chunks + DirtyChunks(n), k)
  }

  lemma DirtyStart<K>(w: World<K>) returns (k: nat)
    requires Inv(w) && Unattended(w) && w.tracker.state.Ground?
    ensures AfterDirty(w, Sessions.Step(w, Output([ESC])), 0, k)
  {
    assert w.chunks[0..] == w.chunks;
    k := OutputStep(w, [ESC], w.chunks, 0);
  }

  lemma DirtyMore<K>(w: World<K>, v: World<K>, n: nat, j: nat) returns (k: nat)
    requires Inv(w) && w.tracker.state.Ground? && AfterDirty(w, v, n, j)
    ensures AfterDirty(w, Sessions.Step(v, Output([PLAIN, ESC])), n + 1, k)
  {
    FeedConcat(FRESH, w.output, DirtyBytes(n), AtMost(MAX_TRACKED_MODES));
    DirtyFeed(w.tracker, n, AtMost(MAX_TRACKED_MODES));
    k := OutputStep(v, [PLAIN, ESC], w.chunks + DirtyChunks(n), j);
    assert w.chunks + DirtyChunks(n + 1) == (w.chunks + DirtyChunks(n)) + [Chunk([PLAIN, ESC], false)];
    assert w.output + DirtyBytes(n + 1) == (w.output + DirtyBytes(n)) + [PLAIN, ESC];
  }

  lemma {:induction false} DirtyRun<K>(w: World<K>, n: nat) returns (k: nat)
    requires Inv(w) && Unattended(w) && w.tracker.state.Ground?
    ensures AfterDirty(w, Run(w, Dirty(n)), n, k)
  {
    if n == 0 {
      RunOne(w, [], Output([ESC]));
      assert [] + Dirty<K>(0) == Dirty<K>(0);
      k := DirtyStart(w);
    } else {
      var j := DirtyRun(w, n - 1);
      RunOne(w, Dirty(n - 1), Output([PLAIN, ESC]));
      k := DirtyMore(w, Run(w, Dirty(n - 1)), n - 1, j);
    }
  }

  lemma RunOne<K>(w: World<K>, es: seq<Event<K>>, e: Event<K>)
    ensures Run(w, es + [e]) == Sessions.Step(Run(w, es), e)
  {
    assert (es + [e])[..|es|] == es;
  }

  lemma {:induction false} RunConcat<K>(w: World<K>, es: seq<Event<K>>, later: seq<Event<K>>)
    ensures Run(w, es + later) == Run(Run(w, es), later)
  {
    if later == [] {
      assert es + later == es;
    } else {
      assert (es + later)[..|es + later| - 1] == es + later[..|later| - 1];
      RunConcat(w, es, later[..|later| - 1]);
    }
  }

  predicate NoneClean(cs: seq<Chunk>) { forall i :: 0 <= i < |cs| ==> !cs[i].clean }

  lemma NothingToReplay(cs: seq<Chunk>)
    requires NoneClean(cs)
    ensures Snapshot(cs) == []
  {
    assert FirstClean(cs) == |cs|;
    assert cs[|cs|..] == [];
  }

  /** More such reads than the buffer holds bytes push out everything a replay could start from. */
  lemma DirtyFills<K>(w: World<K>, n: nat)
    requires Inv(w) && Unattended(w) && w.tracker.state.Ground? && n >= w.ringLimit
    ensures NoneClean(Run(w, Dirty(n)).chunks)
  {
    var k := DirtyRun(w, n);
    var cs, before := Run(w, Dirty(n)).chunks, w.chunks;
    DirtyLength(n);
    if k <= |before| {
      assert (before + DirtyChunks(n))[k..] == before[k..] + DirtyChunks(n);
      FlatConcat(before[k..], DirtyChunks(n));
    } else {
      assert (before + DirtyChunks(n))[k..] == DirtyChunks(n)[k - |before|..];
    }
  }

  // ---------------------------------------------------------------------------------------
  // A client that has caught up
  // ---------------------------------------------------------------------------------------

  /** The client has been handed the prelude and nothing else, and is waiting for more. */
  predicate CaughtUpBlank<K>(w: World<K>, k: K) {
    && k in w.clients && k in w.attached
    && var c := w.clients[k];
       CaughtUp(c) && !c.queue.closed && c.start == w.output && c.snap == [] && c.live == []
  }

  lemma AttachAndNext<K>(w: World<K>, k: K)
    requires Inv(w) && Unattended(w) && NoneClean(w.chunks)
    ensures var w' := Run(w, [Attach(k), Next(k)]);
      CaughtUpBlank(w', k) && w'.output == w.output && w'.clients[k].received == Prelude(Tracked(w.output))
  {
    var p := Prelude(w.tracker);
    NothingToReplay(w.chunks);
    PreludeLength(w.output);
    RunOne(w, [], Attach(k));
    assert [] + [Attach(k)] == [Attach(k)];
    RunOne(w, [Attach(k)], Next(k));
    assert [Attach(k)] + [Next(k)] == [Attach(k), Next(k)];
    var c := Sessions.Step(w, Attach(k)).clients[k];
    assert c == Client(Pushed(NewQueue(DEFAULT_QUEUE_BYTES), p), w.output, [], [], [], None);
    var q: seq<seq<byte>> := [p];
    assert [] + q == q && q[1..] == [] && [] + p == p;
  }

  // ---------------------------------------------------------------------------------------
  // Two sessions
  // ---------------------------------------------------------------------------------------

  /** The output stops inside a sequence with nothing to replay. */
  function MidSequence<K>(ringLimit: nat, k: K): seq<Event<K>> { Dirty(ringLimit) + [Attach(k), Next(k)] }

  /** However large the buffer: the modes are all there, but the client is not at the stream's position. */
  lemma MidSequenceNeedsReplay<K>(ringLimit: nat, k: K)
    ensures var w := Run(Init(ringLimit), MidSequence(ringLimit, k));
      && CaughtUpBlank(w, k)
      && CapCovered(w.clients[k].start, []) && !Positioned(w.clients[k].start, [])
      && !Agree(Terminal(w.clients[k].received), Terminal(w.output))
  {
    var w0 := Init<K>(ringLimit);
    RunConcat(w0, Dirty(ringLimit), [Attach(k), Next(k)]);
    var i := DirtyRun(w0, ringLimit);
    DirtyFills(w0, ringLimit);
    var v := Run(w0, Dirty(ringLimit));
    AttachAndNext(v, k);
    assert v.output == DirtyBytes(ringLimit);
    DirtyFeed(FRESH, ringLimit, AtMost(MAX_TRACKED_MODES));
    DirtyFeed(FRESH, ringLimit, Unbounded);
    ReachablePreludeRoundTrip(v.output);
  }

  // ---------------------------------------------------------------------------------------
  // More modes than the tracker remembers
  // ---------------------------------------------------------------------------------------

  ghost function UpTo(m: nat): seq<int> { if m == 0 then [] else UpTo(m - 1) + [m - 1] }

  ghost function AllOn(m: nat): map<int, bool> { if m == 0 then map[] else AllOn(m - 1)[m - 1 := true] }

  lemma {:induction false} UpToMembers(m: nat)
    ensures |UpTo(m)| == m && forall i :: 0 <= i < m ==> UpTo(m)[i] == i
  {
    if m > 0 { UpToMembers(m - 1); }
  }

  lemma {:induction false} AllOnMembers(m: nat)
    ensures |AllOn(m)| == m && forall n :: n in AllOn(m) <==> 0 <= n < m
  {
    if m > 0 {
      AllOnMembers(m - 1);
      assert AllOn(m).Keys == AllOn(m - 1).Keys + {m - 1};
    }
  }

  /** Modes 0 to m-1, all switched on. */
  ghost function Switching(m: nat): (b: seq<byte>) {
    UpToMembers(m);
    AllOnMembers(m);
    ModesBytes(UpTo(m), AllOn(m))
  }

  lemma AllOnRestricted(m: nat)
    ensures Restrict(AllOn(m), UpTo(m)) == AllOn(m)
  {
    UpToMembers(m);
    AllOnMembers(m);
    forall n | n in AllOn(m) ensures n in UpTo(m) { assert UpTo(m)[n] == n; }
  }

  lemma UpToAscends(m: nat)
    ensures Ascending(UpTo(m)) && forall n :: n in UpTo(m) ==> n in AllOn(m)
  {
    UpToMembers(m);
    AllOnMembers(m);
  }

  lemma SwitchingFeeds(m: nat)
    requires m <= 2026
    ensures Terminal(Switching(m)) == FRESH.(dec := AllOn(m))
  {
    UpToAscends(m);
    assert ModesInRange(AllOn(m)) by { AllOnMembers(m); }
    FeedModes(FRESH, UpTo(m), AllOn(m), Unbounded);
    AllOnRestricted(m);
  }

  lemma MissingMode(output: seq<byte>, dec: map<int, bool>)
    requires Terminal(output).dec == dec && |dec| > MAX_TRACKED_MODES
    ensures exists n :: n in dec && n !in Tracked(output).dec
  {
    TrackedCutsTerminal(output);
    var t := Tracked(output).dec;
    if forall n :: n in dec.Keys ==> n in t.Keys { SubsetSize(dec.Keys, t.Keys); }
  }

  /** Modes are switched on, the reads that did so leave the buffer, and the output comes to rest
      between sequences. */
  ghost function Overflowing<K>(m: nat, ringLimit: nat, k: K): seq<Event<K>> {
    [Output(Switching(m))] + Dirty(ringLimit) + [Output([PLAIN])] + [Attach(k), Next(k)]
  }

  ghost function Overflowed(m: nat, n: nat): seq<byte> { Switching(m) + DirtyBytes(n) + [PLAIN] }

  lemma OverflowedTerminal(m: nat, n: nat)
    requires m <= 2026
    ensures Terminal(Overflowed(m, n)) == FRESH.(dec := AllOn(m))
  {
    SwitchingFeeds(m);
    FeedConcat(FRESH, Switching(m), DirtyBytes(n), Unbounded);
    DirtyFeed(Terminal(Switching(m)), n, Unbounded);
    FeedSnoc(FRESH, Switching(m) + DirtyBytes(n), PLAIN, Unbounded);
  }

  lemma SwitchOn<K>(m: nat, ringLimit: nat)
    requires 0 < m <= 2026
    ensures var w := Run(Init<K>(ringLimit), [Output(Switching(m))]);
      && Inv(w) && Unattended(w) && w.ringLimit == ringLimit && w.output == Switching(m) && w.tracker.state.Ground?
  {
    SwitchingFeeds(m);
    UpToMembers(m);
    assert UpTo(m) != [] && Switching(m) != [];
    RunOne(Init<K>(ringLimit), [], Output(Switching(m)));
    var first: seq<Event<K>> := [Output(Switching(m))];
    assert [] + first == first;
    assert [] + Switching(m) == Switching(m);
    var i := OutputStep(Init<K>(ringLimit), Switching(m), [], 0);
    TrackedCutsTerminal(Switching(m));
  }

  lemma StaysUnclean<K>(w: World<K>)
    requires Inv(w) && Unattended(w) && NoneClean(w.chunks) && !w.tracker.state.Ground?
    ensures var w' := Sessions.Step(w, Output([PLAIN]));
      Inv(w') && Unattended(w') && NoneClean(w'.chunks) && w'.output == w.output + [PLAIN]
  {
    assert w.chunks[0..] == w.chunks;
    var i := OutputStep(w, [PLAIN], w.chunks, 0);
  }

  lemma OverflowingReads<K>(m: nat, ringLimit: nat)
    requires 0 < m <= 2026
    ensures var w := Run(Init<K>(ringLimit), [Output(Switching(m))] + Dirty(ringLimit) + [Output([PLAIN])]);
      Inv(w) && Unattended(w) && NoneClean(w.chunks) && w.output == Overflowed(m, ringLimit)
  {
    var w0 := Init<K>(ringLimit);
    var first: seq<Event<K>> := [Output(Switching(m))];
    SwitchOn<K>(m, ringLimit);
    RunConcat(w0, first, Dirty(ringLimit));
    RunOne(w0, first + Dirty(ringLimit), Output([PLAIN]));
    var i := DirtyRun(Run(w0, first), ringLimit);
    DirtyFills(Run(w0, first), ringLimit);
    FeedConcat(FRESH, Switching(m), DirtyBytes(ringLimit), AtMost(MAX_TRACKED_MODES));
    DirtyFeed(Tracked(Switching(m)), ringLimit, AtMost(MAX_TRACKED_MODES));
    StaysUnclean(Run(w0, first + Dirty(ringLimit)));
  }

  /** However large the buffer, and for any number of modes past the cap: the client is at the stream's
      position, but one of the modes is not set again. */
  lemma CapNeedsReplay<K>(m: nat, ringLimit: nat, k: K)
    requires MAX_TRACKED_MODES < m <= 2026
    ensures var w := Run(Init(ringLimit), Overflowing(m, ringLimit, k));
      && CaughtUpBlank(w, k)
      && Positioned(w.clients[k].start, []) && !CapCovered(w.clients[k].start, [])
      && !Agree(Terminal(w.clients[k].received), Terminal(w.output))
  {
    var out: seq<Event<K>> := [Output(Switching(m))] + Dirty(ringLimit) + [Output([PLAIN])];
    OverflowingReads<K>(m, ringLimit);
    RunConcat(Init<K>(ringLimit), out, [Attach(k), Next(k)]);
    AttachAndNext(Run(Init<K>(ringLimit), out), k);
    CapLost(m, ringLimit);
  }

  lemma CapLost(m: nat, n: nat)
    requires MAX_TRACKED_MODES < m <= 2026
    ensures var output := Overflowed(m, n);
      && Positioned(output, []) && !CapCovered(output, [])
      && !Agree(Terminal(Prelude(Tracked(output))), Terminal(output))
  {
    var output := Overflowed(m, n);
    OverflowedTerminal(m, n);
    AllOnMembers(m);
    MissingMode(output, AllOn(m));
    TrackedCutsTerminal(output);
    assert output + [] == output && Seed(output, []) == Prelude(Tracked(output));
    ReattachExact(output, []);
  }
}
