/** Bytes, and the decimal numerals that strconv.Itoa, strconv.Atoi and strconv.FormatUint
    write and read. Go strings and slices of bytes are both modelled as `seq<byte>`. */
module Decimal {

  type byte = x: nat | x < 256

  datatype Option<+T> = None | Some(value: T)

  const MIN_INT64: int := -0x8000_0000_0000_0000
  const MAX_INT64: int := 0x7fff_ffff_ffff_ffff
  const MAX_UINT64: int := 0xffff_ffff_ffff_ffff

  const COLON: byte := 0x3a
  const SECOND := 1_000_000_000   // in nanoseconds

  predicate Int64(n: int) { MIN_INT64 <= n <= MAX_INT64 }

  /** The position of the first `b`, or the length if there is none. */
  function IndexOf(s: seq<byte>, b: byte): (i: nat)
    ensures i <= |s| && b !in s[..i] && (i < |s| ==> s[i] == b)
  {
    if s == [] || s[0] == b then 0 else
      var j := IndexOf(s[1..], b);
      assert s[..j + 1] == [s[0]] + s[1..][..j];
      j + 1
  }

  /** bytes.Split on one separator: always at least one field. */
  function Split(s: seq<byte>, sep: byte): (fields: seq<seq<byte>>)
    ensures fields != []
  {
    var i := IndexOf(s, sep);
    if i == |s| then [s] else [s[..i]] + Split(s[i + 1..], sep)
  }

  lemma {:induction false} IndexOfIs(s: seq<byte>, b: byte, i: nat)
    requires i <= |s| && b !in s[..i] && (i < |s| ==> s[i] == b)
    ensures IndexOf(s, b) == i
  {
    if i > 0 {
      assert s[0] in s[..i];
      assert s[1..][..i - 1] == s[..i][1..];
      IndexOfIs(s[1..], b, i - 1);
    }
  }

  lemma NoSeparator(s: seq<byte>, sep: byte)
    requires sep !in s
    ensures Split(s, sep) == [s]
  {
    assert s[..|s|] == s;
    IndexOfIs(s, sep, |s|);
  }

  lemma SplitFirst(f: seq<byte>, sep: byte, rest: seq<byte>)
    requires sep !in f
    ensures Split(f + [sep] + rest, sep) == [f] + Split(rest, sep)
  {
    var s := f + [sep] + rest;
    assert s[..|f|] == f && s[|f| + 1..] == rest;
    IndexOfIs(s, sep, |f|);
  }

  predicate IsDigit(b: byte) { 48 <= b <= 57 }

  predicate AllDigits(s: seq<byte>) { forall i :: 0 <= i < |s| ==> IsDigit(s[i]) }

  /** The shortest decimal numeral of a natural number. */
  function Digits(n: nat): seq<byte> {
    if n < 10 then [48 + n] else Digits(n / 10) + [48 + n % 10]
  }

  /** strconv.Itoa. */
  function Itoa(n: int): seq<byte> {
    if n < 0 then [45] + Digits(-n) else Digits(n)
  }

  /** The number a string of digits denotes. */
  function Value(s: seq<byte>): nat
    requires AllDigits(s)
  {
    if s == [] then 0 else Value(s[..|s| - 1]) * 10 + (s[|s| - 1] - 48)
  }

  /** strconv.Atoi: an optional sign, at least one digit, nothing else, within 64 bits. */
  function Atoi(s: seq<byte>): (r: Option<int>)
    ensures r.Some? ==> Int64(r.value)
  {
    var signed := s != [] && (s[0] == 43 || s[0] == 45);
    var digits := if signed then s[1..] else s;
    if digits == [] || !AllDigits(digits) then None
    else
      var n: int := if signed && s[0] == 45 then 0 - Value(digits) else Value(digits);
      if Int64(n) then Some(n) else None
  }

  lemma {:induction false} DigitsAreDigits(n: nat)
    ensures Digits(n) != [] && AllDigits(Digits(n))
  {
    if n >= 10 { DigitsAreDigits(n / 10); }
  }

  lemma {:induction false} ValueOfDigits(n: nat)
    ensures AllDigits(Digits(n)) && Value(Digits(n)) == n
  {
    DigitsAreDigits(n);
    if n >= 10 {
      ValueOfDigits(n / 10);
      assert Digits(n)[..|Digits(n)| - 1] == Digits(n / 10);
    }
  }

  lemma DigitsInjective(m: nat, n: nat)
    requires Digits(m) == Digits(n)
    ensures m == n
  {
    ValueOfDigits(m);
    ValueOfDigits(n);
  }

  /** Reading back what was written gives the same number, negative numbers included. */
  lemma AtoiItoa(n: int)
    requires Int64(n)
    ensures Atoi(Itoa(n)) == Some(n)
  {
    ValueOfDigits(if n < 0 then -n else n);
    DigitsAreDigits(if n < 0 then -n else n);
    if n < 0 { assert Itoa(n)[1..] == Digits(-n); }
  }

  function Pow10(k: nat): nat { if k == 0 then 1 else 10 * Pow10(k - 1) }

  lemma {:induction false} DigitsLength(n: nat, k: nat)
    requires 0 < k && n < Pow10(k)
    ensures |Digits(n)| <= k
  {
    if n >= 10 { DigitsLength(n / 10, k - 1); }
  }

  /** An unsigned 64-bit number has at most 20 digits, and a signed one at most 20 characters. */
  lemma NumeralLength(n: int)
    ensures 0 <= n <= MAX_UINT64 ==> |Itoa(n)| <= 20
    ensures Int64(n) ==> |Itoa(n)| <= 20
  {
    assert Pow10(5) == 100000;
    assert Pow10(10) == 100000 * 100000;
    assert Pow10(15) == Pow10(10) * 100000;
    assert Pow10(19) == Pow10(15) * 10000;
    assert Pow10(20) == Pow10(19) * 10;
    if 0 <= n <= MAX_UINT64 { DigitsLength(n, 20); }
    if n < 0 && Int64(n) { DigitsLength(-n, 19); }
  }
}
