/** Derived credentials: internal/creds/creds.go.

    The MAC is modelled as a tag that carries the key and the canonical input it was computed over,
    which is to say as injective; base64 is left out. */
module Creds {
  import opened Decimal
  import opened BigEndian

  /** Go strings are at most this long. */
  predicate GoString(s: seq<byte>) { |s| <= MAX_INT64 }

  // ---------------------------------------------------------------------------------------
  // Length-prefixed fields
  // ---------------------------------------------------------------------------------------

  function EncodeField(f: seq<byte>): seq<byte> { Digits(|f|) + [COLON] + f }

  function EncodeFields(fs: seq<seq<byte>>): seq<byte> {
    if fs == [] then [] else EncodeField(fs[0]) + EncodeFields(fs[1..])
  }

  /** The first field of an encoding and what follows it. */
  function FirstField(s: seq<byte>): (r: Option<(seq<byte>, seq<byte>)>)
    ensures r.Some? ==> |r.value.1| < |s|
  {
    var i := IndexOf(s, COLON);
    if i == |s| then None else
      var n, rest := Atoi(s[..i]), s[i + 1..];
      if n.None? || n.value < 0 || n.value > |rest| then None
      else Some((rest[..n.value], rest[n.value..]))
  }

  function DecodeFields(s: seq<byte>): (r: Option<seq<seq<byte>>>)
    decreases |s|
  {
    if s == [] then Some([]) else
      var first := FirstField(s);
      if first.None? then None else
        var rest := DecodeFields(first.value.1);
        if rest.None? then None else Some([first.value.0] + rest.value)
  }

  lemma FirstFieldOfEncoded(f: seq<byte>, rest: seq<byte>)
    requires GoString(f)
    ensures FirstField(EncodeField(f) + rest) == Some((f, rest))
  {
    var num := Digits(|f|);
    var s := num + [COLON] + (f + rest);
    assert EncodeField(f) + rest == s;
    DigitsAreDigits(|f|);
    AtColon(num, f + rest);
    AtoiItoa(|f|);
    assert (f + rest)[..|f|] == f && (f + rest)[|f|..] == rest;
  }

  /** The first colon separates what is before it from what is after it. */
  lemma AtColon(a: seq<byte>, b: seq<byte>)
    requires COLON !in a
    ensures var s := a + [COLON] + b; IndexOf(s, COLON) == |a| && s[..|a|] == a && s[|a| + 1..] == b
  {
    var s := a + [COLON] + b;
    assert s[..|a|] == a;
    IndexOfIs(s, COLON, |a|);
  }

  /** Every list of strings survives encoding and decoding, colons and digits included. */
  lemma {:induction false} FieldsRoundTrip(fs: seq<seq<byte>>)
    requires forall f :: f in fs ==> GoString(f)
    ensures DecodeFields(EncodeFields(fs)) == Some(fs)
  {
    if fs != [] {
      FirstFieldOfEncoded(fs[0], EncodeFields(fs[1..]));
      FieldsRoundTrip(fs[1..]);
      assert [fs[0]] + fs[1..] == fs;
    }
  }

  // ---------------------------------------------------------------------------------------
  // Attach claims
  // ---------------------------------------------------------------------------------------

  datatype Claims = Claims(
    sessionID: seq<byte>,
    tenantID: seq<byte>,
    workspaceName: seq<byte>,
    orgSlug: seq<byte>,
    mode: seq<byte>,
    expiresAt: int,        // nanoseconds
    nonce: seq<byte>)

  const ATTACH_FIELDS := 7

  function FieldsOf(c: Claims): seq<seq<byte>> {
    [c.sessionID, c.tenantID, c.workspaceName, c.orgSlug, c.mode, Itoa(c.expiresAt / SECOND), c.nonce]
  }

  function EncodeAttach(c: Claims): seq<byte> { EncodeFields(FieldsOf(c)) }

  function ClaimsOf(fs: seq<seq<byte>>): Option<Claims> {
    if |fs| != ATTACH_FIELDS then None else
      var exp := Atoi(fs[5]);
      if exp.None? then None
      else Some(Claims(fs[0], fs[1], fs[2], fs[3], fs[4], exp.value * SECOND, fs[6]))
  }

  function DecodeAttach(s: seq<byte>): Option<Claims> {
    var fs := DecodeFields(s);
    if fs.None? then None else ClaimsOf(fs.value)
  }

  /** What a payload can say about a time: whole seconds. */
  function Cut(c: Claims): Claims { c.(expiresAt := (c.expiresAt / SECOND) * SECOND) }

  predicate Encodable(c: Claims) {
    && GoString(c.sessionID) && GoString(c.tenantID) && GoString(c.workspaceName)
    && GoString(c.orgSlug) && GoString(c.mode) && GoString(c.nonce)
    && Int64(c.expiresAt / SECOND)
  }

  lemma AttachRoundTrip(c: Claims)
    requires Encodable(c)
    ensures DecodeAttach(EncodeAttach(c)) == Some(Cut(c))
  {
    NumeralLength(c.expiresAt / SECOND);
    FieldsRoundTrip(FieldsOf(c));
    AtoiItoa(c.expiresAt / SECOND);
  }

  /** The writing loop of encodeAttach. */
  method WriteAttach(c: Claims) returns (b: seq<byte>)
    ensures b == EncodeAttach(c)
  {
    var fs := FieldsOf(c);
    b := [];
    for i := 0 to |fs|
      invariant b + EncodeFields(fs[i..]) == EncodeAttach(c)
    {
      assert fs[i..][1..] == fs[i + 1..];
      ghost var rest := EncodeFields(fs[i + 1..]);
      assert b + (EncodeField(fs[i]) + rest) == (b + EncodeField(fs[i])) + rest;
      b := b + EncodeField(fs[i]);
    }
    assert fs[|fs|..] == [];
  }

  /** The reading loop of decodeAttach, which gives up as soon as there are too many fields. */
  method ReadAttach(payload: seq<byte>) returns (r: Option<Claims>)
    ensures r == DecodeAttach(payload)
  {
    var s, fields := payload, [];
    assert forall fs: seq<seq<byte>> :: [] + fs == fs;
    while s != []
      invariant |fields| <= ATTACH_FIELDS
      invariant DecodeFields(payload) ==
        (if DecodeFields(s).None? then None else Some(fields + DecodeFields(s).value))
      decreases |s|
    {
      var i := IndexOf(s, COLON);
      if i == |s| {
        return None;
      }
      var n, rest := Atoi(s[..i]), s[i + 1..];
      if n.None? || n.value < 0 || n.value > |rest| {
        return None;
      }
      ghost var tail := DecodeFields(rest[n.value..]);
      assert tail.Some? ==> fields + ([rest[..n.value]] + tail.value) == (fields + [rest[..n.value]]) + tail.value;
      fields := fields + [rest[..n.value]];
      s := rest[n.value..];
      if |fields| > ATTACH_FIELDS {
        return None;
      }
    }
    assert fields + [] == fields;
    return ClaimsOf(fields);
  }

  // ---------------------------------------------------------------------------------------
  // The MAC input
  // ---------------------------------------------------------------------------------------

  function MacFields(fs: seq<seq<byte>>): seq<byte> {
    if fs == [] then [] else Put(|fs[0]|, 8) + fs[0] + MacFields(fs[1..])
  }

  function MacInput(domain: seq<byte>, fs: seq<seq<byte>>): seq<byte> { domain + [0] + MacFields(fs) }

  predicate GoStrings(fs: seq<seq<byte>>) { forall f :: f in fs ==> GoString(f) }

  lemma EightBytes(n: nat)
    requires n <= MAX_INT64
    ensures Get(Put(n, 8)) == n
  {
    assert Pow256(4) == 0x1_0000_0000;
    assert Pow256(8) == 0x1_0000_0000_0000_0000;
    GetPut(n, 8);
  }

  lemma {:induction false} MacFieldsInjective(a: seq<seq<byte>>, b: seq<seq<byte>>)
    requires GoStrings(a) && GoStrings(b) && MacFields(a) == MacFields(b)
    ensures a == b
  {
    if a != [] && b != [] {
      var m := MacFields(a);
      assert a[0] in a && b[0] in b;
      EightBytes(|a[0]|);
      EightBytes(|b[0]|);
      assert m[..8] == Put(|a[0]|, 8) && m[..8] == Put(|b[0]|, 8);
      assert |a[0]| == |b[0]|;
      assert m[8..8 + |a[0]|] == a[0] && m[8..8 + |b[0]|] == b[0];
      assert m[8 + |a[0]|..] == MacFields(a[1..]) && m[8 + |b[0]|..] == MacFields(b[1..]);
      MacFieldsInjective(a[1..], b[1..]);
      assert a == [a[0]] + a[1..] && b == [b[0]] + b[1..];
    }
  }

  /** Two different (domain, fields) pairs never have the same input, whatever the fields contain. */
  lemma MacInputInjective(d: seq<byte>, fs: seq<seq<byte>>, e: seq<byte>, gs: seq<seq<byte>>)
    requires 0 !in d && 0 !in e && GoStrings(fs) && GoStrings(gs)
    ensures MacInput(d, fs) == MacInput(e, gs) <==> d == e && fs == gs
  {
    if MacInput(d, fs) == MacInput(e, gs) {
      var m := MacInput(d, fs);
      assert m[|d|] == 0 && m[|e|] == 0;
      assert |d| == |e|;
      assert m[..|d|] == d && m[..|e|] == e;
      assert m[|d| + 1..] == MacFields(fs) && m[|e| + 1..] == MacFields(gs);
      MacFieldsInjective(fs, gs);
    }
  }

  /** The hashing loop of mac. */
  method WriteMacInput(domain: seq<byte>, fs: seq<seq<byte>>) returns (h: seq<byte>)
    ensures h == MacInput(domain, fs)
  {
    h := domain + [0];
    for i := 0 to |fs|
      invariant h + MacFields(fs[i..]) == MacInput(domain, fs)
    {
      assert fs[i..][1..] == fs[i + 1..];
      ghost var step := Put(|fs[i]|, 8) + fs[i];
      assert h + (step + MacFields(fs[i + 1..])) == (h + step) + MacFields(fs[i + 1..]);
      assert h + Put(|fs[i]|, 8) + fs[i] == h + step;
      h := h + Put(|fs[i]|, 8);
      h := h + fs[i];
    }
    assert fs[|fs|..] == [];
  }

  // ---------------------------------------------------------------------------------------
  // Tokens
  // ---------------------------------------------------------------------------------------

  type Key = seq<byte>

  datatype Tag = Tag(key: Key, input: seq<byte>)

  datatype Domain = WorkspaceDomain | AttachDomain | RunnerDomain

  function Ascii(s: string): seq<byte>
    requires forall i :: 0 <= i < |s| ==> 0 < s[i] as int < 128
  {
    seq(|s|, i requires 0 <= i < |s| => s[i] as int)
  }

  function DomainBytes(d: Domain): (s: seq<byte>)
    ensures 0 !in s
  {
    match d
    case WorkspaceDomain => Ascii("lemul-workspace-v1")
    case AttachDomain => Ascii("lemul-attach-v1")
    case RunnerDomain => Ascii("lemul-runner-v1")
  }

  lemma DomainsDiffer(d: Domain, e: Domain)
    requires DomainBytes(d) == DomainBytes(e)
    ensures d == e
  {
    assert DomainBytes(WorkspaceDomain)[6] == 'w' as int;
    assert DomainBytes(AttachDomain)[6] == 'a' as int;
    assert DomainBytes(RunnerDomain)[6] == 'r' as int;
  }

  function Mac(key: Key, d: Domain, fs: seq<seq<byte>>): Tag { Tag(key, MacInput(DomainBytes(d), fs)) }

  /** One key, one tag per purpose and field list. */
  lemma MacInjective(key: Key, d: Domain, fs: seq<seq<byte>>, e: Domain, gs: seq<seq<byte>>)
    requires GoStrings(fs) && GoStrings(gs) && Mac(key, d, fs) == Mac(key, e, gs)
    ensures d == e && fs == gs
  {
    MacInputInjective(DomainBytes(d), fs, DomainBytes(e), gs);
    DomainsDiffer(d, e);
  }

  function WorkspaceToken(key: Key, tenant: seq<byte>, name: seq<byte>, generation: nat): Tag {
    Mac(key, WorkspaceDomain, [tenant, name, Digits(generation)])
  }

  predicate VerifyWorkspace(key: Key, tenant: seq<byte>, name: seq<byte>, generation: nat, tok: Tag) {
    tok == WorkspaceToken(key, tenant, name, generation)
  }

  /** A workspace credential verifies for exactly the organization, workspace and generation it was
      derived for. */
  lemma WorkspaceTokenBinds(key: Key, t: seq<byte>, n: seq<byte>, g: nat, t': seq<byte>, n': seq<byte>, g': nat)
    requires GoString(t) && GoString(n) && GoString(t') && GoString(n') && g <= MAX_UINT64 && g' <= MAX_UINT64
    ensures VerifyWorkspace(key, t', n', g', WorkspaceToken(key, t, n, g)) <==> t == t' && n == n' && g == g'
  {
    var fs, fs' := [t, n, Digits(g)], [t', n', Digits(g')];
    NumeralLength(g);
    NumeralLength(g');
    if VerifyWorkspace(key, t', n', g', WorkspaceToken(key, t, n, g)) {
      MacInjective(key, WorkspaceDomain, fs, WorkspaceDomain, fs');
      assert fs[0] == fs'[0] && fs[1] == fs'[1] && fs[2] == fs'[2];
      DigitsInjective(g, g');
    }
  }

  datatype AttachToken = AttachToken(payload: seq<byte>, sig: Tag)

  datatype Verified = Accepted(claims: Claims) | Malformed | BadSignature | Expired

  function MintAttach(key: Key, c: Claims): AttachToken {
    AttachToken(EncodeAttach(c), Mac(key, AttachDomain, [EncodeAttach(c)]))
  }

  /** Nothing of a payload is read until its signature has been found to be ours. */
  function VerifyAttach(key: Key, tok: AttachToken, now: int): Verified {
    if tok.sig != Mac(key, AttachDomain, [tok.payload]) then BadSignature
    else
      var c := DecodeAttach(tok.payload);
      if c.None? then Malformed
      else if now > c.value.expiresAt then Expired
      else Accepted(c.value)
  }

  /** A minted token verifies to its own claims until its second of expiry, and not afterwards. */
  lemma MintedVerifies(key: Key, c: Claims, now: int)
    requires Encodable(c)
    ensures VerifyAttach(key, MintAttach(key, c), now) ==
            if now <= Cut(c).expiresAt then Accepted(Cut(c)) else Expired
  {
    AttachRoundTrip(c);
  }

  /** A tag made for any other purpose, or over any other payload, is refused as an attach signature. */
  lemma OtherTagsRefused(key: Key, d: Domain, fs: seq<seq<byte>>, payload: seq<byte>, now: int)
    requires GoStrings(fs) && GoString(payload) && (d != AttachDomain || fs != [payload])
    ensures VerifyAttach(key, AttachToken(payload, Mac(key, d, fs)), now) == BadSignature
  {
    if Mac(key, d, fs) == Mac(key, AttachDomain, [payload]) {
      MacInjective(key, d, fs, AttachDomain, [payload]);
    }
  }
}
