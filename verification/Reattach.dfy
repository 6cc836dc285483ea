/** Why a prelude followed by a replayed suffix puts a fresh terminal in the modes of the whole
    stream: the argument behind Session.Attach in internal/ptysession/session.go. */
module Reattach {
  import opened Decimal
  import opened Ecma48
  import opened Modes

  /** Two terminals in the same state, transient modes aside. */
  predicate Agree(a: Tracker, b: Tracker) {
    && a.state == b.state
    && a.partial == b.partial
    && a.kitty == b.kitty
    && a.modOther == b.modOther
    && a.dec - TRANSIENT == b.dec - TRANSIENT
  }

  // ---------------------------------------------------------------------------------------
  // What a stream writes does not depend on what was remembered before it
  // ---------------------------------------------------------------------------------------

  /** The position of `d` in the stream, with the modes of `d` written over those of `base`. */
  function Overlay(base: Tracker, d: Tracker): Tracker {
    Tracker(d.state, d.partial, base.dec + d.dec,
            if d.kitty == [] then base.kitty else d.kitty,
            if d.modOther == [] then base.modOther else d.modOther)
  }

  /** The same position with nothing remembered. */
  function Blank(t: Tracker): Tracker { Tracker(t.state, t.partial, map[], [], []) }

  lemma {:induction false} SetFieldsOverlay(base: map<int, bool>, d: map<int, bool>, fields: seq<seq<byte>>, on: bool)
    ensures SetFields(base + d, fields, on, Unbounded) == base + SetFields(d, fields, on, Unbounded)
  {
    if fields != [] {
      var init, n := fields[..|fields| - 1], Atoi(fields[|fields| - 1]);
      SetFieldsOverlay(base, d, init, on);
      if n.Some? { UpdateOverlay(base, SetFields(d, init, on, Unbounded), n.value, on); }
    }
  }

  lemma UpdateOverlay(base: map<int, bool>, d: map<int, bool>, n: int, on: bool)
    ensures (base + d)[n := on] == base + d[n := on]
  {
  }

  lemma CommitOverlay(base: Tracker, d: Tracker, sq: seq<byte>)
    requires Finished(sq)
    ensures Commit(Overlay(base, d), sq, Unbounded) == Overlay(base, Commit(d, sq, Unbounded))
  {
    if |sq| >= 4 {
      SetFieldsOverlay(base.dec, d.dec, Split(sq[2..|sq| - 1][1..], SEMICOLON), sq[|sq| - 1] == SET);
    }
  }

  lemma StepOverlay(base: Tracker, d: Tracker, b: byte)
    ensures Step(Overlay(base, d), b, Unbounded) == Overlay(base, Step(d, b, Unbounded))
  {
    if d.state.Csi? && IsFinal(b) {
      CommitOverlay(base, d, d.partial + [b]);
      var c := Commit(d, d.partial + [b], Unbounded);
      assert Overlay(base, c).(state := Ground, partial := []) == Overlay(base, c.(state := Ground, partial := []));
    }
  }

  lemma {:induction false} FeedOverlay(base: Tracker, d: Tracker, s: seq<byte>)
    ensures Feed(Overlay(base, d), s, Unbounded) == Overlay(base, Feed(d, s, Unbounded))
  {
    if s != [] {
      FeedOverlay(base, d, s[..|s| - 1]);
      StepOverlay(base, Feed(d, s[..|s| - 1], Unbounded), s[|s| - 1]);
    }
  }

  lemma FeedFromBlank(t: Tracker, s: seq<byte>)
    ensures Feed(t, s, Unbounded) == Overlay(t, Feed(Blank(t), s, Unbounded))
  {
    assert Overlay(t, Blank(t)) == t;
    FeedOverlay(t, Blank(t), s);
  }

  /** Terminals that agree go on agreeing, whatever they are both sent. */
  lemma AgreeForever(a: Tracker, b: Tracker, s: seq<byte>)
    requires Agree(a, b)
    ensures Agree(Feed(a, s, Unbounded), Feed(b, s, Unbounded))
  {
    FeedFromBlank(a, s);
    FeedFromBlank(b, s);
    var w := Feed(Blank(a), s, Unbounded).dec;
    RemoveTransient(a.dec, w);
    RemoveTransient(b.dec, w);
  }

  lemma RemoveTransient(a: map<int, bool>, w: map<int, bool>)
    ensures (a + w) - TRANSIENT == (a - TRANSIENT) + (w - TRANSIENT)
  {
  }

  // ---------------------------------------------------------------------------------------
  // The cap only ever loses modes
  // ---------------------------------------------------------------------------------------

  predicate SubMap(a: map<int, bool>, b: map<int, bool>) {
    forall n :: n in a ==> n in b && b[n] == a[n]
  }

  /** `a` is `b` cut down to the cap: everything, or exactly as much as the cap allows. */
  predicate CutOf(a: map<int, bool>, b: map<int, bool>) {
    SubMap(a, b) && |a| <= MAX_TRACKED_MODES && (a == b || |a| == MAX_TRACKED_MODES)
  }

  predicate CutTracker(t: Tracker, f: Tracker) { t == f.(dec := t.dec) && CutOf(t.dec, f.dec) }

  lemma SetModeCut(a: map<int, bool>, b: map<int, bool>, n: int, on: bool)
    requires CutOf(a, b)
    ensures CutOf(SetMode(a, n, on, AtMost(MAX_TRACKED_MODES)), SetMode(b, n, on, Unbounded))
  {
    if n in a {
      assert a[n := on].Keys == a.Keys;
    } else {
      assert a[n := on].Keys == a.Keys + {n};
    }
  }

  lemma {:induction false} SetFieldsCut(a: map<int, bool>, b: map<int, bool>, fields: seq<seq<byte>>, on: bool)
    requires CutOf(a, b)
    ensures CutOf(SetFields(a, fields, on, AtMost(MAX_TRACKED_MODES)), SetFields(b, fields, on, Unbounded))
  {
    if fields != [] {
      var init, last := fields[..|fields| - 1], Atoi(fields[|fields| - 1]);
      SetFieldsCut(a, b, init, on);
      if last.Some? {
        var cut, whole := SetFields(a, init, on, AtMost(MAX_TRACKED_MODES)), SetFields(b, init, on, Unbounded);
        SetModeCut(cut, whole, last.value, on);
      }
    }
  }

  lemma CommitCut(t: Tracker, f: Tracker, sq: seq<byte>)
    requires CutTracker(t, f) && Finished(sq)
    ensures CutTracker(Commit(t, sq, AtMost(MAX_TRACKED_MODES)), Commit(f, sq, Unbounded))
  {
    if |sq| >= 4 {
      SetFieldsCut(t.dec, f.dec, Split(sq[2..|sq| - 1][1..], SEMICOLON), sq[|sq| - 1] == SET);
    }
  }

  lemma {:induction false} TrackedCutsTerminal(s: seq<byte>)
    ensures CutTracker(Tracked(s), Terminal(s))
  {
    if s != [] {
      var init, b := s[..|s| - 1], s[|s| - 1];
      TrackedCutsTerminal(init);
      if IsFinal(b) { CommitCut(Tracked(init), Terminal(init), Terminal(init).partial + [b]); }
    }
  }

  /** While at most 64 distinct modes have been named, the session's scanner misses nothing. */
  lemma WithinCap(s: seq<byte>)
    ensures |Terminal(s).dec| <= MAX_TRACKED_MODES ==> Tracked(s) == Terminal(s)
  {
    TrackedCutsTerminal(s);
    SubMapSize(Tracked(s).dec, Terminal(s).dec);
  }

  lemma SubMapSize(a: map<int, bool>, b: map<int, bool>)
    requires SubMap(a, b)
    ensures |a| <= |b| && (|a| == |b| ==> a == b)
  {
    assert forall n :: n in a.Keys ==> n in b.Keys;
    SubsetSize(a.Keys, b.Keys);
    if |a| == |b| { assert forall n :: n in b.Keys ==> n in a && a[n] == b[n]; }
  }

  // ---------------------------------------------------------------------------------------
  // The theorem
  // ---------------------------------------------------------------------------------------

  /** What a client is sent on attaching: the prelude, then the replayed end of the output. */
  ghost function Seed(output: seq<byte>, snap: seq<byte>): seq<byte> {
    Prelude(Tracked(output)) + snap
  }

  /** The replay starts between control sequences, or there is no replay. */
  predicate CleanSuffix(before: seq<byte>, snap: seq<byte>) {
    snap == [] || Tracked(before).state.Ground?
  }

  /** The replay ends where the output ends: trivially if there is one, otherwise only when the
      output stopped between control sequences. */
  predicate Positioned(output: seq<byte>, snap: seq<byte>) {
    snap != [] || Tracked(output).state.Ground?
  }

  /** Every mode the cap made the scanner miss is set again by the replay. */
  predicate CapCovered(output: seq<byte>, snap: seq<byte>) {
    forall n :: n in Terminal(output).dec && n !in TRANSIENT && n !in Tracked(output).dec
      ==> n in Terminal(snap).dec
  }

  /** The client's terminal after its seed: the tracked modes, then whatever the replay writes. */
  lemma SeededTerminal(before: seq<byte>, snap: seq<byte>)
    requires CleanSuffix(before, snap)
    ensures var output := before + snap;
      && Terminal(Seed(output, snap)) == Overlay(Replayed(Tracked(output)), Terminal(snap))
      && (snap != [] ==> Terminal(output) == Overlay(Terminal(before), Terminal(snap)))
  {
    var output := before + snap;
    ReachablePreludeRoundTrip(output);
    FeedConcat(FRESH, Prelude(Tracked(output)), snap, Unbounded);
    FeedFromBlank(Replayed(Tracked(output)), snap);
    if snap != [] {
      FeedConcat(FRESH, before, snap, Unbounded);
      TrackedCutsTerminal(before);
      FeedWellFormed(FRESH, before, Unbounded);
      FeedFromBlank(Terminal(before), snap);
    }
  }

  /** A client seeded with prelude and replay is in the state of a client that saw everything if
      and only if the replay reaches the stream's position and makes up for the cap. */
  lemma ReattachExact(before: seq<byte>, snap: seq<byte>)
    requires CleanSuffix(before, snap)
    ensures var output := before + snap;
      Agree(Terminal(Seed(output, snap)), Terminal(output))
      <==> Positioned(output, snap) && CapCovered(output, snap)
  {
    var output := before + snap;
    SeededTerminal(before, snap);
    TrackedCutsTerminal(output);
    FeedWellFormed(FRESH, output, Unbounded);
    var t, f, w := Tracked(output), Terminal(output), Terminal(snap);
    var client := Terminal(Seed(output, snap));
    assert client.dec == (t.dec - TRANSIENT) + w.dec;
    if snap == [] { assert output == before; }
    DecAgreement(t.dec, f.dec, w.dec);
  }

  /** Tracked modes with the replay's writes on top agree with all modes exactly when the replay
      writes every mode that was not tracked. */
  lemma DecAgreement(t: map<int, bool>, f: map<int, bool>, w: map<int, bool>)
    requires SubMap(t, f) && SubMap(w, f)
    ensures ((t - TRANSIENT) + w) - TRANSIENT == f - TRANSIENT
       <==> (forall n :: n in f && n !in TRANSIENT && n !in t ==> n in w)
  {
    var c := ((t - TRANSIENT) + w) - TRANSIENT;
    assert SubMap(c, f - TRANSIENT);
    if forall n :: n in f && n !in TRANSIENT && n !in t ==> n in w {
      assert forall n :: n in f - TRANSIENT ==> n in c && c[n] == f[n];
      assert forall n :: n in c ==> n in f - TRANSIENT;
    } else {
      var n :| n in f && n !in TRANSIENT && n !in t && n !in w;
      assert n !in c && n in f - TRANSIENT;
    }
  }

  /** Reattaching equals never having detached: whatever is sent afterwards, the late client stays
      in agreement with one attached from the start. */
  lemma ReattachEqualsNeverDetached(before: seq<byte>, snap: seq<byte>, later: seq<byte>)
    requires CleanSuffix(before, snap) && Positioned(before + snap, snap)
    requires |Terminal(before + snap).dec| <= MAX_TRACKED_MODES || CapCovered(before + snap, snap)
    ensures Agree(Terminal(Seed(before + snap, snap) + later), Terminal(before + snap + later))
  {
    var output := before + snap;
    WithinCap(output);
    ReattachExact(before, snap);
    AgreeForever(Terminal(Seed(output, snap)), Terminal(output), later);
    FeedConcat(FRESH, Seed(output, snap), later, Unbounded);
    FeedConcat(FRESH, output, later, Unbounded);
  }
}
