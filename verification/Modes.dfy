/** The terminal-mode scanner of internal/ptysession/modes.go.

    `Tracker` is the scanner's state as a value and `Feed` what a stream of output does to it.
    The class `ModeTracker` is the scanner itself, byte by byte and in place. The client's own
    terminal is modelled as the same scanner without the cap on tracked modes. */
module Modes {
  import opened Collections
  import opened Decimal
  import opened Ecma48

  const QUERY: byte := 0x3f     // '?'
  const GREATER: byte := 0x3e
  const EQUALS: byte := 0x3d
  const LESS: byte := 0x3c
  const SET: byte := 0x68       // 'h'
  const RESET: byte := 0x6c     // 'l'
  const KITTY: byte := 0x75     // 'u'
  const MODKEYS: byte := 0x6d   // 'm'

  const MAX_TRACKED_MODES := 64
  const MAX_PARTIAL := 64
  const TRANSIENT: set<int> := {2026}

  /** How many distinct DEC modes a scanner is willing to remember. */
  datatype Limit = Unbounded | AtMost(n: nat)

  datatype Scan = Ground | Esc | Csi

  datatype Tracker = Tracker(
    state: Scan,
    partial: seq<byte>,
    dec: map<int, bool>,
    kitty: seq<byte>,
    modOther: seq<byte>)

  const FRESH := Tracker(Ground, [], map[], [], [])

  function SetMode(dec: map<int, bool>, n: int, on: bool, lim: Limit): map<int, bool> {
    if n !in dec && lim.AtMost? && |dec| >= lim.n then dec else dec[n := on]
  }

  function SetField(dec: map<int, bool>, field: seq<byte>, on: bool, lim: Limit): map<int, bool> {
    var n := Atoi(field);
    if n.None? then dec else SetMode(dec, n.value, on, lim)
  }

  function SetFields(dec: map<int, bool>, fields: seq<seq<byte>>, on: bool, lim: Limit): map<int, bool> {
    if fields == [] then dec
    else SetField(SetFields(dec, fields[..|fields| - 1], on, lim), fields[|fields| - 1], on, lim)
  }

  predicate Finished(sq: seq<byte>) { sq != [] && IsFinal(sq[|sq| - 1]) }

  /** What a complete control sequence does to the remembered modes. */
  function Commit(t: Tracker, sq: seq<byte>, lim: Limit): Tracker
    requires Finished(sq)
  {
    if |sq| < 4 then t
    else
      var final := sq[|sq| - 1];
      var params := sq[2..|sq| - 1];
      if params[0] == QUERY then
        if final == SET || final == RESET
        then t.(dec := SetFields(t.dec, Split(params[1..], SEMICOLON), final == SET, lim))
        else t
      else if params[0] == GREATER || params[0] == EQUALS || params[0] == LESS then
        if final == KITTY then t.(kitty := sq)
        else if final == MODKEYS && params[0] == GREATER then t.(modOther := sq)
        else t
      else t
  }

  function Step(t: Tracker, b: byte, lim: Limit): Tracker {
    match t.state
    case Ground => if b == ESC then t.(state := Esc, partial := [b]) else t
    case Esc =>
      if b == BRACKET then t.(state := Csi, partial := t.partial + [b])
      else t.(state := Ground, partial := [])
    case Csi =>
      var sq := t.partial + [b];
      if IsFinal(b) then Commit(t, sq, lim).(state := Ground, partial := [])
      else if |sq| > MAX_PARTIAL then t.(state := Ground, partial := [])
      else t.(partial := sq)
  }

  function Feed(t: Tracker, s: seq<byte>, lim: Limit): Tracker {
    if s == [] then t else Step(Feed(t, s[..|s| - 1], lim), s[|s| - 1], lim)
  }

  /** What the session's own scanner knows after the output `s`. */
  function Tracked(s: seq<byte>): Tracker { Feed(FRESH, s, AtMost(MAX_TRACKED_MODES)) }

  /** The modes a terminal is in after the output `s`. */
  function Terminal(s: seq<byte>): Tracker { Feed(FRESH, s, Unbounded) }

  lemma {:induction false} FeedConcat(t: Tracker, a: seq<byte>, b: seq<byte>, lim: Limit)
    ensures Feed(t, a + b, lim) == Feed(Feed(t, a, lim), b, lim)
  {
    if b == [] {
      assert a + b == a;
    } else {
      var c := b[..|b| - 1];
      assert (a + b)[..|a + b| - 1] == a + c;
      FeedConcat(t, a, c, lim);
    }
  }

  // ---------------------------------------------------------------------------------------
  // What every reachable scanner state satisfies
  // ---------------------------------------------------------------------------------------

  predicate NoFinal(s: seq<byte>) { forall i :: 0 <= i < |s| ==> !IsFinal(s[i]) }

  /** An opened control sequence: ESC [ and no final byte yet. */
  predicate Opened(s: seq<byte>) {
    |s| >= 2 && s[0] == ESC && s[1] == BRACKET && NoFinal(s[2..])
  }

  /** A complete control sequence short enough for the scanner to have kept. */
  predicate IsCsi(s: seq<byte>) {
    |s| >= 3 && |s| - 1 <= MAX_PARTIAL && Opened(s[..|s| - 1]) && IsFinal(s[|s| - 1])
  }

  predicate IsKitty(s: seq<byte>) {
    IsCsi(s) && |s| >= 4 && s[|s| - 1] == KITTY && s[2] in {GREATER, EQUALS, LESS}
  }

  predicate IsModOther(s: seq<byte>) {
    IsCsi(s) && |s| >= 4 && s[|s| - 1] == MODKEYS && s[2] == GREATER
  }

  predicate ModesInRange(dec: map<int, bool>) { forall n :: n in dec ==> Int64(n) }

  predicate Within(dec: map<int, bool>, lim: Limit) { lim.AtMost? ==> |dec| <= lim.n }

  /** What is true of the remembered modes alone. */
  predicate WellKept(t: Tracker, lim: Limit) {
    && ModesInRange(t.dec)
    && Within(t.dec, lim)
    && (t.kitty == [] || IsKitty(t.kitty))
    && (t.modOther == [] || IsModOther(t.modOther))
  }

  predicate WellFormed(t: Tracker, lim: Limit) {
    && (match t.state
        case Ground => t.partial == []
        case Esc => t.partial == [ESC]
        case Csi => Opened(t.partial) && |t.partial| <= MAX_PARTIAL)
    && WellKept(t, lim)
  }

  lemma {:induction false} SetFieldsWellFormed(dec: map<int, bool>, fields: seq<seq<byte>>, on: bool, lim: Limit)
    requires ModesInRange(dec) && Within(dec, lim)
    ensures ModesInRange(SetFields(dec, fields, on, lim)) && Within(SetFields(dec, fields, on, lim), lim)
  {
    if fields != [] { SetFieldsWellFormed(dec, fields[..|fields| - 1], on, lim); }
  }

  lemma CommitWellKept(t: Tracker, sq: seq<byte>, lim: Limit)
    requires WellKept(t, lim) && IsCsi(sq)
    ensures WellKept(Commit(t, sq, lim), lim)
  {
    if |sq| >= 4 {
      var params := sq[2..|sq| - 1];
      assert params[0] == sq[2];
      if params[0] == QUERY {
        SetFieldsWellFormed(t.dec, Split(params[1..], SEMICOLON), sq[|sq| - 1] == SET, lim);
      }
    }
  }

  lemma StepWellFormed(t: Tracker, b: byte, lim: Limit)
    requires WellFormed(t, lim)
    ensures WellFormed(Step(t, b, lim), lim)
  {
    if t.state.Csi? {
      var sq := t.partial + [b];
      assert sq[..|sq| - 1] == t.partial;
      assert sq[2..] == t.partial[2..] + [b];
      if IsFinal(b) { CommitWellKept(t, sq, lim); }
    }
  }

  lemma {:induction false} FeedWellFormed(t: Tracker, s: seq<byte>, lim: Limit)
    requires WellFormed(t, lim)
    ensures WellFormed(Feed(t, s, lim), lim)
  {
    if s != [] {
      FeedWellFormed(t, s[..|s| - 1], lim);
      StepWellFormed(Feed(t, s[..|s| - 1], lim), s[|s| - 1], lim);
    }
  }

  // ---------------------------------------------------------------------------------------
  // The prelude: printing the modes so that a scanner reads them back
  // ---------------------------------------------------------------------------------------

  ghost predicate Ascending(nums: seq<int>) {
    forall i, j :: 0 <= i < j < |nums| ==> nums[i] < nums[j]
  }

  ghost function Least(s: set<int>): (m: int)
    requires |s| > 0
    ensures m in s && forall x :: x in s ==> m <= x
  {
    assert exists y: int :: y in s by { var x := AMember(s); }
    var y :| y in s;
    assert forall x :: x in s ==> x in s - {y} || x == y;
    if s - {y} == {} then y else
      var m := Least(s - {y});
      if m < y then m else y
  }

  /** The members of a set in ascending order. */
  ghost function Sorted(s: set<int>): (nums: seq<int>)
    ensures Ascending(nums) && (forall n :: n in nums <==> n in s)
  {
    if s == {} then [] else
      var m := Least(s);
      [m] + Sorted(s - {m})
  }

  lemma {:induction false} AscendingUnique(a: seq<int>, b: seq<int>)
    requires Ascending(a) && Ascending(b) && (forall n :: n in a <==> n in b)
    ensures a == b
  {
    assert a != [] ==> a[0] in a;
    assert b != [] ==> b[0] in b;
    if a != [] && b != [] {
      assert a[0] == b[0];
      forall n ensures n in a[1..] <==> n in b[1..] {
        if n in a[1..] { assert n in a && n != a[0]; assert n in b; }
        if n in b[1..] { assert n in b && n != b[0]; assert n in a; }
      }
      AscendingUnique(a[1..], b[1..]);
    }
  }

  function ModeBytes(n: int, on: bool): seq<byte> {
    [ESC, BRACKET, QUERY] + Itoa(n) + [if on then SET else RESET]
  }

  function ModesBytes(nums: seq<int>, dec: map<int, bool>): seq<byte>
    requires forall n :: n in nums ==> n in dec
  {
    if nums == [] then []
    else ModesBytes(nums[..|nums| - 1], dec) + ModeBytes(nums[|nums| - 1], dec[nums[|nums| - 1]])
  }

  /** The bytes sent to a newly attached client ahead of replayed output. */
  ghost function Prelude(t: Tracker): seq<byte> {
    ModesBytes(Sorted(t.dec.Keys - TRANSIENT), t.dec) + t.modOther + t.kitty
  }

  lemma FeedSnoc(t: Tracker, s: seq<byte>, b: byte, lim: Limit)
    ensures Feed(t, s + [b], lim) == Step(Feed(t, s, lim), b, lim)
  {
    assert (s + [b])[..|s|] == s;
  }

  const OPENING: seq<byte> := [ESC, BRACKET]

  lemma FeedOpening(t: Tracker, lim: Limit)
    requires t.state.Ground?
    ensures Feed(t, OPENING, lim) == t.(state := Csi, partial := OPENING)
  {
    FeedSnoc(t, [], ESC, lim);
    assert [] + [ESC] == [ESC];
    FeedSnoc(t, [ESC], BRACKET, lim);
    assert [ESC] + [BRACKET] == OPENING;
  }

  /** Bytes of an open sequence are collected, not interpreted. */
  lemma {:induction false} FeedBody(t: Tracker, body: seq<byte>, lim: Limit)
    requires t.state.Ground? && NoFinal(body) && |body| + 2 <= MAX_PARTIAL
    ensures Feed(t, OPENING + body, lim) == t.(state := Csi, partial := OPENING + body)
  {
    if body == [] {
      assert OPENING + body == OPENING;
      FeedOpening(t, lim);
    } else {
      var init, b := body[..|body| - 1], body[|body| - 1];
      FeedBody(t, init, lim);
      FeedSnoc(t, OPENING + init, b, lim);
      assert (OPENING + init) + [b] == OPENING + body;
    }
  }

  /** Committing does not look at where the scanner is in the stream. */
  lemma CommitAnywhere(t: Tracker, state: Scan, partial: seq<byte>, sq: seq<byte>, lim: Limit)
    requires Finished(sq)
    ensures Commit(t.(state := state, partial := partial), sq, lim)
         == Commit(t, sq, lim).(state := state, partial := partial)
    ensures Commit(t, sq, lim).state == t.state && Commit(t, sq, lim).partial == t.partial
  {
  }

  /** A complete control sequence read from ground state is committed and leaves ground state. */
  lemma FeedCsi(t: Tracker, sq: seq<byte>, lim: Limit)
    requires t.state.Ground? && t.partial == [] && IsCsi(sq)
    ensures Feed(t, sq, lim) == Commit(t, sq, lim)
  {
    var open, final := sq[..|sq| - 1], sq[|sq| - 1];
    assert open == OPENING + open[2..];
    FeedBody(t, open[2..], lim);
    FeedSnoc(t, open, final, lim);
    assert open + [final] == sq;
    CommitAnywhere(t, Csi, open, sq, lim);
  }

  /** A sequence that never ends is dropped at the 65th byte, with no effect on any mode. */
  lemma OverlongIsDropped(t: Tracker, body: seq<byte>, lim: Limit)
    requires t.state.Ground? && t.partial == [] && NoFinal(body) && |body| + 2 == MAX_PARTIAL + 1
    ensures Feed(t, OPENING + body, lim) == t
  {
    var init, b := body[..|body| - 1], body[|body| - 1];
    FeedBody(t, init, lim);
    FeedSnoc(t, OPENING + init, b, lim);
    assert (OPENING + init) + [b] == OPENING + body;
  }

  predicate Names(fields: seq<seq<byte>>, n: int) { exists f :: f in fields && Atoi(f) == Some(n) }

  predicate Full(dec: map<int, bool>, lim: Limit) { lim.AtMost? && |dec| >= lim.n }

  /** What a DECSET or DECRST with any number of parameters means, with or without a cap: a mode named
      by a parameter that is a number takes the new value, unless it is a new one that a full map has
      no room for, and every other mode is as it was. */
  lemma {:induction false} SetFieldsExactly(dec: map<int, bool>, fields: seq<seq<byte>>, on: bool, lim: Limit, n: int)
    ensures SetIf(dec, SetFields(dec, fields, on, lim), n, Names(fields, n), on, lim)
  {
    if fields != [] {
      var init, last := fields[..|fields| - 1], fields[|fields| - 1];
      var before := SetFields(dec, init, on, lim);
      SetFieldsExactly(dec, init, on, lim, n);
      NamesMore(init, last, n);
      assert fields == init + [last];
      SetOne(before, last, on, lim, n);
      SetTwice(dec, before, SetField(before, last, on, lim), n, Names(init, n), Atoi(last) == Some(n), on, lim);
    }
  }

  /** What has become of mode `n`: no mode is forgotten; if it was named it has the new value, unless
      it was new and the map is full; if not it is as it was. */
  predicate SetIf(dec: map<int, bool>, after: map<int, bool>, n: int, named: bool, on: bool, lim: Limit) {
    && |dec| <= |after|
    && (n in dec ==> n in after)
    && (n in after ==> named || n in dec)
    && (n in after ==> after[n] == if named then on else dec[n])
    && (named && n !in after ==> Full(after, lim))
  }

  lemma SetOne(dec: map<int, bool>, field: seq<byte>, on: bool, lim: Limit, n: int)
    ensures SetIf(dec, SetField(dec, field, on, lim), n, Atoi(field) == Some(n), on, lim)
  {
    SetFieldGrows(dec, field, on, lim);
  }

  lemma SetTwice(a: map<int, bool>, b: map<int, bool>, c: map<int, bool>,
                 n: int, x: bool, y: bool, on: bool, lim: Limit)
    requires SetIf(a, b, n, x, on, lim) && SetIf(b, c, n, y, on, lim)
    ensures SetIf(a, c, n, x || y, on, lim)
  {
  }

  lemma NamesMore(init: seq<seq<byte>>, last: seq<byte>, n: int)
    ensures Names(init + [last], n) <==> Names(init, n) || Atoi(last) == Some(n)
  {
    assert forall f :: f in init + [last] <==> f in init || f == last;
  }

  lemma SetFieldGrows(dec: map<int, bool>, field: seq<byte>, on: bool, lim: Limit)
    ensures |dec| <= |SetField(dec, field, on, lim)| && dec.Keys <= SetField(dec, field, on, lim).Keys
  {
    SubsetSize(dec.Keys, SetField(dec, field, on, lim).Keys);
  }

  /** A new mode gets in exactly when there was room where it was first named. */
  lemma {:induction false} NewModeExactly(
      dec: map<int, bool>, fields: seq<seq<byte>>, on: bool, lim: Limit, n: int, i: nat)
    requires n !in dec && i < |fields| && Atoi(fields[i]) == Some(n) && !Names(fields[..i], n)
    ensures n in SetFields(dec, fields, on, lim) <==> !Full(SetFields(dec, fields[..i], on, lim), lim)
    decreases |fields|
  {
    var init, last := fields[..|fields| - 1], fields[|fields| - 1];
    if i == |fields| - 1 {
      SetFieldsExactly(dec, init, on, lim, n);
    } else {
      assert init[..i] == fields[..i];
      NewModeExactly(dec, init, on, lim, n, i);
      StillFull(dec, init, on, lim, i);
      SetFieldGrows(SetFields(dec, init, on, lim), last, on, lim);
    }
  }

  lemma {:induction false} StillFull(dec: map<int, bool>, fields: seq<seq<byte>>, on: bool, lim: Limit, i: nat)
    requires i <= |fields|
    ensures Full(SetFields(dec, fields[..i], on, lim), lim) ==> Full(SetFields(dec, fields, on, lim), lim)
    decreases |fields|
  {
    if i < |fields| {
      var init, last := fields[..|fields| - 1], fields[|fields| - 1];
      assert init[..i] == fields[..i];
      StillFull(dec, init, on, lim, i);
      SetFieldGrows(SetFields(dec, init, on, lim), last, on, lim);
    } else {
      assert fields[..i] == fields;
    }
  }

  lemma NumeralShape(n: int)
    requires Int64(n)
    ensures 0 < |Itoa(n)| <= 20 && NoFinal(Itoa(n)) && SEMICOLON !in Itoa(n)
  {
    DigitsAreDigits(if n < 0 then -n else n);
    NumeralLength(n);
  }

  lemma CommitMode(t: Tracker, n: int, on: bool, lim: Limit)
    requires Int64(n)
    ensures IsCsi(ModeBytes(n, on))
    ensures Commit(t, ModeBytes(n, on), lim) == t.(dec := SetMode(t.dec, n, on, lim))
  {
    var sq, num := ModeBytes(n, on), Itoa(n);
    NumeralShape(n);
    var params := sq[2..|sq| - 1];
    assert params == [QUERY] + num && params[1..] == num;
    assert sq[..|sq| - 1][2..] == params;
    AtoiItoa(n);
    NoSeparator(num, SEMICOLON);
    var fields := [num];
    assert fields[..0] == [];
    assert SetFields(t.dec, fields, on, lim) == SetField(SetFields(t.dec, fields[..0], on, lim), num, on, lim);
  }

  lemma FeedMode(t: Tracker, n: int, on: bool, lim: Limit)
    requires t.state.Ground? && t.partial == [] && Int64(n)
    ensures Feed(t, ModeBytes(n, on), lim) == t.(dec := SetMode(t.dec, n, on, lim))
  {
    CommitMode(t, n, on, lim);
    FeedCsi(t, ModeBytes(n, on), lim);
  }

  ghost function Restrict(dec: map<int, bool>, nums: seq<int>): map<int, bool> {
    map n | n in dec && n in nums :: dec[n]
  }

  lemma RestrictExtend(dec: map<int, bool>, nums: seq<int>, lim: Limit)
    requires nums != [] && Ascending(nums) && Within(dec, lim)
    requires nums[|nums| - 1] in dec
    ensures var init, n := nums[..|nums| - 1], nums[|nums| - 1];
      SetMode(Restrict(dec, init), n, dec[n], lim) == Restrict(dec, nums)
  {
    var init, n := nums[..|nums| - 1], nums[|nums| - 1];
    var before := Restrict(dec, init);
    assert nums == init + [n];
    assert before[n := dec[n]] == Restrict(dec, nums);
    assert n !in before;
    SubsetSize(before.Keys + {n}, dec.Keys);
    assert |before.Keys + {n}| == |before.Keys| + 1;
  }

  lemma {:induction false} SubsetSize<T>(a: set<T>, b: set<T>)
    requires a <= b
    ensures |a| <= |b| && (|a| == |b| ==> a == b)
  {
    if a != {} {
      var x :| x in a;
      SubsetSize(a - {x}, b - {x});
    }
  }

  lemma {:induction false} FeedModes(t: Tracker, nums: seq<int>, dec: map<int, bool>, lim: Limit)
    requires t.state.Ground? && t.partial == [] && t.dec == map[]
    requires ModesInRange(dec) && Within(dec, lim) && Ascending(nums)
    requires forall n :: n in nums ==> n in dec
    ensures Feed(t, ModesBytes(nums, dec), lim) == t.(dec := Restrict(dec, nums))
  {
    if nums != [] {
      var init, n := nums[..|nums| - 1], nums[|nums| - 1];
      var before := ModesBytes(init, dec);
      FeedModes(t, init, dec, lim);
      FeedConcat(t, before, ModeBytes(n, dec[n]), lim);
      FeedMode(t.(dec := Restrict(dec, init)), n, dec[n], lim);
      RestrictExtend(dec, nums, lim);
    }
  }

  /** The state a scanner is in once it has read nothing but a prelude. */
  ghost function Replayed(t: Tracker): Tracker {
    Tracker(Ground, [], t.dec - TRANSIENT, t.kitty, t.modOther)
  }

  lemma FeedTrackedModes(t: Tracker, lim: Limit)
    requires WellFormed(t, lim)
    ensures Feed(FRESH, ModesBytes(Sorted(t.dec.Keys - TRANSIENT), t.dec), lim)
            == FRESH.(dec := t.dec - TRANSIENT)
  {
    var nums := Sorted(t.dec.Keys - TRANSIENT);
    FeedModes(FRESH, nums, t.dec, lim);
    assert Restrict(t.dec, nums) == t.dec - TRANSIENT;
  }

  lemma FeedKeyboard(u: Tracker, kitty: seq<byte>, modOther: seq<byte>, lim: Limit)
    requires u.state.Ground? && u.partial == [] && u.kitty == [] && u.modOther == []
    requires kitty == [] || IsKitty(kitty)
    requires modOther == [] || IsModOther(modOther)
    ensures Feed(Feed(u, modOther, lim), kitty, lim) == u.(kitty := kitty, modOther := modOther)
  {
    if modOther != [] {
      FeedCsi(u, modOther, lim);
      assert modOther[2..|modOther| - 1][0] == modOther[2];
    }
    var v := u.(modOther := modOther);
    assert Feed(u, modOther, lim) == v;
    if kitty != [] {
      FeedCsi(v, kitty, lim);
      assert kitty[2..|kitty| - 1][0] == kitty[2];
    }
  }

  /** Printing and scanning undo each other: a fresh scanner, capped or not, fed the prelude of any
      well-formed scanner remembers the same modes except the transient ones, byte for byte the
      same keyboard sequences, and is between sequences. */
  lemma PreludeRoundTrip(t: Tracker, lim: Limit)
    requires WellFormed(t, lim)
    ensures Feed(FRESH, Prelude(t), lim) == Replayed(t)
  {
    var modes := ModesBytes(Sorted(t.dec.Keys - TRANSIENT), t.dec);
    FeedTrackedModes(t, lim);
    FeedConcat(FRESH, modes + t.modOther, t.kitty, lim);
    FeedConcat(FRESH, modes, t.modOther, lim);
    var u := FRESH.(dec := t.dec - TRANSIENT);
    FeedKeyboard(u, t.kitty, t.modOther, lim);
  }

  /** The same for every scanner state a session can reach, read by the client's terminal. */
  lemma ReachablePreludeRoundTrip(s: seq<byte>)
    ensures Terminal(Prelude(Tracked(s))) == Replayed(Tracked(s))
    ensures Tracked(Prelude(Tracked(s))) == Replayed(Tracked(s))
  {
    FeedWellFormed(FRESH, s, AtMost(MAX_TRACKED_MODES));
    PreludeRoundTrip(Tracked(s), Unbounded);
    PreludeRoundTrip(Tracked(s), AtMost(MAX_TRACKED_MODES));
  }

  lemma NoPreludeAtStart()
    ensures Tracked([]) == FRESH && Prelude(FRESH) == []
  {
    var nums := Sorted(FRESH.dec.Keys - TRANSIENT);
    assert forall n :: n !in nums;
  }

  /** No prelude is longer than this. */
  const PRELUDE_BOUND := 64 * 24 + 2 * 65

  lemma {:induction false} AscendingLength(nums: seq<int>, s: set<int>)
    requires Ascending(nums) && (forall n :: n in nums ==> n in s)
    ensures |nums| <= |s|
  {
    if nums != [] {
      var init, n := nums[..|nums| - 1], nums[|nums| - 1];
      assert n in nums && n !in init;
      forall m | m in init ensures m in s - {n} { assert m in nums; }
      AscendingLength(init, s - {n});
    }
  }

  lemma {:induction false} ModesBytesLength(nums: seq<int>, dec: map<int, bool>)
    requires ModesInRange(dec) && forall n :: n in nums ==> n in dec
    ensures |ModesBytes(nums, dec)| <= 24 * |nums|
  {
    if nums != [] {
      ModesBytesLength(nums[..|nums| - 1], dec);
      NumeralLength(nums[|nums| - 1]);
    }
  }

  lemma PreludeLength(s: seq<byte>)
    ensures |Prelude(Tracked(s))| <= PRELUDE_BOUND
  {
    var t := Tracked(s);
    FeedWellFormed(FRESH, s, AtMost(MAX_TRACKED_MODES));
    var nums := Sorted(t.dec.Keys - TRANSIENT);
    AscendingLength(nums, t.dec.Keys);
    ModesBytesLength(nums, t.dec);
  }
}
