/** The placement idempotency key: Spec.IdempotencyKey and itoa in internal/driver/driver.go. */
module Idempotency {
  import opened Decimal

  const DASH: byte := 45
  const KEY_LIMIT := 64

  /** The digits still to be written. */
  ghost function Leading(u: nat): seq<byte> { if u == 0 then [] else Digits(u) }

  lemma LastDigit(u: nat, written: seq<byte>)
    requires u > 0
    ensures Leading(u) + written == Leading(u / 10) + ([48 + u % 10] + written)
    ensures |Leading(u) + written| > |written|
  {
    assert Leading(u) == Leading(u / 10) + [48 + u % 10];
  }

  /** itoa fills a 20-byte buffer from its end and never runs off the front. */
  method FormatUint(v: nat) returns (s: seq<byte>)
    requires v <= MAX_UINT64
    ensures s == Digits(v)
  {
    if v == 0 {
      return [48];
    }
    ghost var all := Leading(v);
    NumeralLength(v);
    var b := new byte[20];
    var i := 20;
    var u := v;
    while u > 0
      invariant 0 <= i <= b.Length == 20
      invariant all == Leading(u) + b[i..]
    {
      ghost var written := b[i..];
      LastDigit(u, written);
      i := i - 1;
      b[i] := 48 + u % 10;
      assert b[i..] == [48 + u % 10] + written;
      u := u / 10;
    }
    s := b[i..];
  }

  function LastBytes(s: seq<byte>, n: nat): seq<byte> { if |s| <= n then s else s[|s| - n..] }

  function Full(workspace: seq<byte>, generation: nat): seq<byte> { workspace + [DASH] + Digits(generation) }

  function IdempotencyKey(workspace: seq<byte>, generation: nat): seq<byte> {
    LastBytes(Full(workspace, generation), KEY_LIMIT)
  }

  method MakeKey(workspace: seq<byte>, generation: nat) returns (k: seq<byte>)
    requires generation <= MAX_UINT64
    ensures k == IdempotencyKey(workspace, generation)
  {
    var num := FormatUint(generation);
    k := workspace + [DASH] + num;
    if |k| > KEY_LIMIT {
      k := k[|k| - KEY_LIMIT..];
    }
  }

  /** How many bytes of the workspace name a key of this generation has room for. */
  function Room(generation: nat): (n: nat)
    requires generation <= MAX_UINT64
    ensures n >= 43
  {
    NumeralLength(generation);
    KEY_LIMIT - 1 - |Digits(generation)|
  }

  /** The cut falls inside the workspace name: the dash and the generation always survive. */
  lemma KeyKeepsGeneration(w: seq<byte>, g: nat)
    requires g <= MAX_UINT64
    ensures IdempotencyKey(w, g) == LastBytes(w, Room(g)) + [DASH] + Digits(g)
  {
    NumeralLength(g);
  }

  lemma DashSplits(a: seq<byte>, g: nat, b: seq<byte>, h: nat)
    requires a + [DASH] + Digits(g) == b + [DASH] + Digits(h)
    ensures a == b && g == h
  {
    DigitsAreDigits(g);
    DigitsAreDigits(h);
    var s := a + [DASH] + Digits(g);
    assert s[|a|] == DASH && s[|b|] == DASH;
    assert forall i :: |a| < i < |s| ==> s[i] == Digits(g)[i - |a| - 1] && s[i] != DASH;
    assert forall i :: |b| < i < |s| ==> s[i] == Digits(h)[i - |b| - 1] && s[i] != DASH;
    assert |a| == |b|;
    assert s[..|a|] == a && s[..|b|] == b;
    assert s[|a| + 1..] == Digits(g) && s[|b| + 1..] == Digits(h);
    DigitsInjective(g, h);
  }

  /** Exactly when two keys are the same: the same generation, and workspace names that agree in the
      bytes the key has room for. */
  lemma KeysEqualExactly(v: seq<byte>, g: nat, w: seq<byte>, h: nat)
    requires g <= MAX_UINT64 && h <= MAX_UINT64
    ensures IdempotencyKey(v, g) == IdempotencyKey(w, h) <==> g == h && LastBytes(v, Room(g)) == LastBytes(w, Room(g))
  {
    KeyKeepsGeneration(v, g);
    KeyKeepsGeneration(w, h);
    if IdempotencyKey(v, g) == IdempotencyKey(w, h) {
      DashSplits(LastBytes(v, Room(g)), g, LastBytes(w, Room(h)), h);
    }
  }

  /** Two generations never share a key, cut or not. */
  lemma GenerationsNeverShareKey(v: seq<byte>, g: nat, w: seq<byte>, h: nat)
    requires g <= MAX_UINT64 && h <= MAX_UINT64 && g != h
    ensures IdempotencyKey(v, g) != IdempotencyKey(w, h)
  {
    KeysEqualExactly(v, g, w, h);
  }

  /** An uncut key says which workspace and which generation it is for. */
  lemma UncutKeysInjective(v: seq<byte>, g: nat, w: seq<byte>, h: nat)
    requires g <= MAX_UINT64 && h <= MAX_UINT64
    requires |Full(v, g)| <= KEY_LIMIT && |Full(w, h)| <= KEY_LIMIT
    ensures IdempotencyKey(v, g) == IdempotencyKey(w, h) <==> v == w && g == h
  {
    KeysEqualExactly(v, g, w, h);
  }
}
