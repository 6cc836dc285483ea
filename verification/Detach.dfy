/** Finding the detach key in what the user types: cmd/lem/detach.go.

    The specification reads the input as a list of tokens, where a control sequence in the sense of
    section 5.4 of ECMA-48 is one token and any other byte is one. The scanner walks indices. */
module Detach {
  import opened Decimal
  import opened Ecma48

  const DETACH_BYTE: byte := 0x1d
  const KITTY_FINAL: byte := 0x75   // 'u'
  const TILDE_FINAL: byte := 0x7e   // '~'
  const BRACKET_KEY := 93           // ']' as a code point

  // ---------------------------------------------------------------------------------------
  // Tokens
  // ---------------------------------------------------------------------------------------

  datatype Token =
    | Plain(b: byte)
    | Csi(params: seq<byte>, final: byte)
    | Unterminated(bytes: seq<byte>)

  /** The position of the first final byte at or after `i`, or the length if there is none. */
  function FinalAt(p: seq<byte>, i: nat): (j: nat)
    requires i <= |p|
    ensures i <= j <= |p|
    decreases |p| - i
  {
    if i == |p| || IsFinal(p[i]) then i else FinalAt(p, i + 1)
  }

  lemma {:induction false} FinalAtFinds(p: seq<byte>, i: nat)
    requires i <= |p|
    ensures var j := FinalAt(p, i); (j < |p| ==> IsFinal(p[j])) && (forall k :: i <= k < j ==> !IsFinal(p[k]))
    decreases |p| - i
  {
    if i < |p| && !IsFinal(p[i]) { FinalAtFinds(p, i + 1); }
  }

  predicate OpensCsi(p: seq<byte>, i: nat) { i + 1 < |p| && p[i] == ESC && p[i + 1] == BRACKET }

  /** The token that starts at `i`. */
  function TokenAt(p: seq<byte>, i: nat): Token
    requires i < |p|
  {
    if !OpensCsi(p, i) then Plain(p[i])
    else
      var j := FinalAt(p, i + 2);
      if j == |p| then Unterminated(p[i..]) else Csi(p[i + 2..j], p[j])
  }

  function Lexer(p: seq<byte>): nat -> Token { (i: nat) => if i < |p| then TokenAt(p, i) else Plain(0) }

  function Spell(t: Token): seq<byte> {
    match t
    case Plain(b) => [b]
    case Csi(params, final) => [ESC, BRACKET] + params + [final]
    case Unterminated(bytes) => bytes
  }

  /** How far a token reaches. */
  function Width(t: Token): (n: nat)
    ensures n > 0 && (Spell(t) != [] ==> n == |Spell(t)|)
  {
    if Spell(t) == [] then 1 else |Spell(t)|
  }

  /** One token after another, from `i` to the end at `n`. */
  function Tokens(n: nat, i: nat, tok: nat -> Token): seq<Token>
    decreases n - i
  {
    if i >= n then [] else [tok(i)] + Tokens(n, i + Width(tok(i)), tok)
  }

  function Lex(p: seq<byte>): seq<Token> { Tokens(|p|, 0, Lexer(p)) }

  function SpellAll(ts: seq<Token>): seq<byte> { if ts == [] then [] else Spell(ts[0]) + SpellAll(ts[1..]) }

  lemma {:induction false} FinalAtIs(p: seq<byte>, i: nat, j: nat)
    requires i <= j <= |p| && (j < |p| ==> IsFinal(p[j])) && (forall k :: i <= k < j ==> !IsFinal(p[k]))
    ensures FinalAt(p, i) == j
    decreases j - i
  {
    if i < j { FinalAtIs(p, i + 1, j); }
  }

  /** The token is spelled exactly by the bytes from `i` on. */
  predicate Covers(p: seq<byte>, i: nat, t: Token) { i + Width(t) <= |p| && Spell(t) == p[i..i + Width(t)] }

  predicate CoversAt(p: seq<byte>, i: nat, tok: nat -> Token) { Covers(p, i, tok(i)) }

  /** A token is exactly the bytes it covers. */
  lemma TokenCovers(p: seq<byte>, i: nat)
    requires i < |p|
    ensures Covers(p, i, TokenAt(p, i))
  {
    if OpensCsi(p, i) {
      var j := FinalAt(p, i + 2);
      if j < |p| {
        SequenceSlice(p, i, j);
      } else {
        assert p[i..] == p[i..|p|];
      }
    }
  }

  lemma SequenceSlice(p: seq<byte>, i: nat, j: nat)
    requires i + 2 <= j < |p| && p[i] == ESC && p[i + 1] == BRACKET
    ensures [ESC, BRACKET] + p[i + 2..j] + [p[j]] == p[i..j + 1]
  {
    var s, t := [ESC, BRACKET] + p[i + 2..j] + [p[j]], p[i..j + 1];
    assert |s| == |t|;
    forall k | 0 <= k < |s| ensures s[k] == t[k] {
      if 2 <= k < |s| - 1 { assert s[k] == p[i + 2..j][k - 2]; }
    }
  }

  lemma {:induction false} SpellTokens(p: seq<byte>, i: nat, tok: nat -> Token)
    requires i <= |p|
    requires forall k: nat :: k < |p| ==> CoversAt(p, k, tok)
    ensures SpellAll(Tokens(|p|, i, tok)) == p[i..]
    decreases |p| - i
  {
    if i < |p| {
      var t, j := tok(i), i + Width(tok(i));
      assert CoversAt(p, i, tok);
      SpellTokens(p, j, tok);
      SpellMore(p, i, j, t, Tokens(|p|, j, tok));
    } else {
      assert p[i..] == [];
    }
  }

  lemma SpellMore(p: seq<byte>, i: nat, j: nat, t: Token, ts: seq<Token>)
    requires i <= j <= |p| && Spell(t) == p[i..j] && SpellAll(ts) == p[j..]
    ensures SpellAll([t] + ts) == p[i..]
  {
    SpellCons(t, ts);
    assert p[i..j] + p[j..] == p[i..];
  }

  lemma SpellCons(t: Token, ts: seq<Token>)
    ensures SpellAll([t] + ts) == Spell(t) + SpellAll(ts)
  {
    assert ([t] + ts)[1..] == ts;
  }

  /** Lexing loses nothing. */
  lemma SpellLex(p: seq<byte>)
    ensures SpellAll(Lex(p)) == p
  {
    forall k: nat | k < |p| ensures CoversAt(p, k, Lexer(p)) { TokenCovers(p, k); }
    SpellTokens(p, 0, Lexer(p));
    assert p[0..] == p;
  }

  lemma TokenShift(a: seq<byte>, p: seq<byte>, i: nat)
    requires i < |p|
    ensures TokenAt(a + p, |a| + i) == TokenAt(p, i)
  {
    assert OpensCsi(a + p, |a| + i) == OpensCsi(p, i);
    if OpensCsi(p, i) {
      var j := FinalAt(p, i + 2);
      FinalShift(a, p, i + 2);
      if j < |p| { SliceShift(a, p, i + 2, j); } else { TailShift(a, p, i); }
    }
  }

  lemma TailShift(a: seq<byte>, p: seq<byte>, i: nat)
    requires i <= |p|
    ensures (a + p)[|a| + i..] == p[i..]
  {
  }

  lemma FinalShift(a: seq<byte>, p: seq<byte>, i: nat)
    requires i <= |p|
    ensures FinalAt(a + p, |a| + i) == |a| + FinalAt(p, i)
  {
    var q, j := a + p, FinalAt(p, i);
    FinalAtFinds(p, i);
    forall k | |a| + i <= k < |a| + j ensures !IsFinal(q[k]) { assert q[k] == p[k - |a|]; }
    FinalAtIs(q, |a| + i, |a| + j);
  }

  lemma SliceShift(a: seq<byte>, p: seq<byte>, i: nat, j: nat)
    requires i <= j <= |p|
    ensures (a + p)[|a| + i..|a| + j] == p[i..j]
  {
  }

  /** The second lexer reads `d` further on what the first reads at `k`. */
  predicate Shifted(tok: nat -> Token, k: nat, d: nat, tok': nat -> Token) { tok'(k + d) == tok(k) }

  /** The tokens from `i` on, one token at a time. */
  lemma TokensUnfold(n: nat, i: nat, tok: nat -> Token, t: Token, j: nat)
    requires i < n && t == tok(i) && j == i + Width(t)
    ensures Tokens(n, i, tok) == [t] + Tokens(n, j, tok)
  {
  }

  lemma {:induction false} TokensShift(n: nat, i: nat, tok: nat -> Token, d: nat, tok': nat -> Token, n': nat, i': nat)
    requires n' == n + d && i' == i + d
    requires forall k: nat :: k < n ==> Shifted(tok, k, d, tok')
    ensures Tokens(n', i', tok') == Tokens(n, i, tok)
    decreases n - i
  {
    if i < n {
      assert Shifted(tok, i, d, tok');
      var t := tok(i);
      var j := i + Width(t);
      TokensShift(n, j, tok, d, tok', n', j + d);
      TokensUnfold(n, i, tok, t, j);
      TokensUnfold(n', i', tok', t, j + d);
    }
  }

  lemma LexerShift(a: seq<byte>, p: seq<byte>)
    ensures forall k: nat :: k < |p| ==> Shifted(Lexer(p), k, |a|, Lexer(a + p))
  {
    forall k: nat | k < |p| ensures Shifted(Lexer(p), k, |a|, Lexer(a + p)) { TokenShift(a, p, k); }
  }

  lemma TokensFrom(n: nat, tok: nat -> Token, d: nat, tok': nat -> Token, m: nat)
    requires m == n + d && forall k: nat :: k < n ==> Shifted(tok, k, d, tok')
    ensures Tokens(m, d, tok') == Tokens(n, 0, tok)
  {
    TokensShift(n, 0, tok, d, tok', m, d);
  }

  /** What comes before does not change how the rest is read. */
  lemma LexAfter(a: seq<byte>, p: seq<byte>)
    ensures Tokens(|a + p|, |a|, Lexer(a + p)) == Lex(p)
  {
    LexerShift(a, p);
    TokensFrom(|p|, Lexer(p), |a|, Lexer(a + p), |a + p|);
  }

  /** A token that the scanner would read back as itself, whatever follows it. */
  predicate Complete(t: Token) {
    match t
    case Plain(b) => true
    case Csi(params, final) => IsFinal(final) && forall i :: 0 <= i < |params| ==> !IsFinal(params[i])
    case Unterminated(_) => false
  }

  predicate StartsWithBracket(s: seq<byte>) { s != [] && s[0] == BRACKET }

  /** Complete tokens, none of which runs into what follows: no lone ESC directly before a '['. */
  predicate Separate(ts: seq<Token>, rest: seq<byte>) {
    ts == [] || (
      && Complete(ts[0])
      && !(ts[0] == Plain(ESC) && StartsWithBracket(SpellAll(ts[1..]) + rest))
      && Separate(ts[1..], rest))
  }

  lemma FirstToken(t: Token, rest: seq<byte>)
    requires Complete(t) && !(t == Plain(ESC) && StartsWithBracket(rest))
    ensures TokenAt(Spell(t) + rest, 0) == t
  {
    var p := Spell(t) + rest;
    match t
    case Plain(b) =>
    case Csi(params, final) =>
      var j := 2 + |params|;
      assert forall k :: 2 <= k < j ==> p[k] == params[k - 2];
      FinalAtIs(p, 2, j);
      assert p[2..j] == params;
  }

  lemma LexOne(t: Token, rest: seq<byte>)
    requires Complete(t) && !(t == Plain(ESC) && StartsWithBracket(rest))
    ensures Lex(Spell(t) + rest) == [t] + Lex(rest)
  {
    FirstToken(t, rest);
    LexAfter(Spell(t), rest);
    assert Width(t) == |Spell(t)|;
  }

  lemma {:induction false} SeparateSpelled(ts: seq<Token>, rest: seq<byte>)
    requires Separate(ts, rest)
    ensures forall i :: 0 <= i < |ts| ==> Spell(ts[i]) != []
  {
    if ts != [] { SeparateSpelled(ts[1..], rest); }
  }

  /** Complete tokens spelled out are read back as the same tokens. */
  lemma {:induction false} LexSpelled(ts: seq<Token>, rest: seq<byte>)
    requires Separate(ts, rest)
    ensures Lex(SpellAll(ts) + rest) == ts + Lex(rest)
  {
    if ts == [] {
      assert SpellAll(ts) + rest == rest;
    } else {
      LexSpelled(ts[1..], rest);
      LexOne(ts[0], SpellAll(ts[1..]) + rest);
      SpellTail(ts, rest);
      ConsTail(ts, Lex(rest));
    }
  }

  lemma SpellTail(ts: seq<Token>, rest: seq<byte>)
    requires ts != []
    ensures SpellAll(ts) + rest == Spell(ts[0]) + (SpellAll(ts[1..]) + rest)
  {
  }

  lemma ConsTail(ts: seq<Token>, more: seq<Token>)
    requires ts != []
    ensures [ts[0]] + (ts[1..] + more) == ts + more
  {
  }

  // ---------------------------------------------------------------------------------------
  // Which token is the detach key
  // ---------------------------------------------------------------------------------------

  /** Control is bit 2 of the modifier less one. */
  predicate HasCtrl(mod: int) { mod > 0 && ((mod - 1) / 4) % 2 == 1 }

  /** A parameter's leading number; what follows a colon is dropped, and -1 stands for no number. */
  function Number(field: seq<byte>): int {
    var n := Atoi(field[..IndexOf(field, COLON)]);
    if n.None? then -1 else n.value
  }

  function Numbers(fields: seq<seq<byte>>): (ns: seq<int>)
    ensures |ns| == |fields| && forall i :: 0 <= i < |ns| ==> ns[i] == Number(fields[i])
  {
    seq(|fields|, i requires 0 <= i < |fields| => Number(fields[i]))
  }

  function Params(params: seq<byte>): seq<int> { Numbers(Split(params, SEMICOLON)) }

  /** Ctrl-] in one of its two control-sequence forms. */
  predicate IsDetachSeq(params: seq<byte>, final: byte) {
    var f := Params(params);
    || (final == KITTY_FINAL && |f| >= 2 && f[0] == BRACKET_KEY && HasCtrl(f[1]))
    || (final == TILDE_FINAL && |f| >= 3 && f[0] == 27 && f[2] == BRACKET_KEY && HasCtrl(f[1]))
  }

  predicate IsDetach(t: Token) {
    match t
    case Plain(b) => b == DETACH_BYTE
    case Csi(params, final) => IsDetachSeq(params, final)
    case Unterminated(_) => false
  }

  /** The offset of the first token that matches, or -1. */
  function FirstAt(ts: seq<Token>, m: Token -> bool): int {
    if ts == [] then -1
    else if m(ts[0]) then 0
    else Shift(FirstAt(ts[1..], m), Width(ts[0]))
  }

  /** An offset in what is left, as an offset in the whole. */
  function Shift(d: int, i: nat): int { if d < 0 then -1 else i + d }

  /** Said without recursion: -1 exactly when no token matches, otherwise the length of what comes
      before the first one that does. */
  lemma {:induction false} FirstAtIsFirst(ts: seq<Token>, m: Token -> bool, k: nat)
    requires k <= |ts| && (forall i :: 0 <= i < k ==> !m(ts[i])) && (k < |ts| ==> m(ts[k]))
    requires forall i :: 0 <= i < k ==> Spell(ts[i]) != []
    ensures FirstAt(ts, m) == if k == |ts| then -1 else |SpellAll(ts[..k])|
  {
    if k > 0 {
      assert forall i :: 0 <= i < k - 1 ==> ts[1..][i] == ts[i + 1];
      FirstAtIsFirst(ts[1..], m, k - 1);
      assert ts[1..][..k - 1] == ts[..k][1..];
    }
  }

  /** The offset of the detach key in what was typed, or -1. */
  function DetachAt(p: seq<byte>): int { FirstAt(Lex(p), IsDetach) }

  lemma {:induction false} TokensSpelled(n: nat, i: nat, tok: nat -> Token)
    requires forall k: nat :: k < n ==> IsSpelled(tok, k)
    ensures forall j :: 0 <= j < |Tokens(n, i, tok)| ==> Spell(Tokens(n, i, tok)[j]) != []
    decreases n - i
  {
    if i < n {
      assert IsSpelled(tok, i);
      TokensSpelled(n, i + Width(tok(i)), tok);
    }
  }

  predicate IsSpelled(tok: nat -> Token, k: nat) { Spell(tok(k)) != [] }

  /** For everything typed: if token `k` is the first that is the detach key, the offset is where that
      token begins, that is, the length of what the tokens before it spell; if no token is, -1. */
  lemma DetachAtExactly(p: seq<byte>, k: nat)
    requires k <= |Lex(p)| && (forall i :: 0 <= i < k ==> !IsDetach(Lex(p)[i]))
    requires k < |Lex(p)| ==> IsDetach(Lex(p)[k])
    ensures DetachAt(p) == if k == |Lex(p)| then -1 else |SpellAll(Lex(p)[..k])|
  {
    LexIsSpelled(p);
    FirstAtIsFirst(Lex(p), IsDetach, k);
  }

  lemma LexIsSpelled(p: seq<byte>)
    ensures forall i :: 0 <= i < |Lex(p)| ==> Spell(Lex(p)[i]) != []
  {
    forall k: nat | k < |p| ensures IsSpelled(Lexer(p), k) {}
    TokensSpelled(|p|, 0, Lexer(p));
  }

  /** Sub-parameters the terminal may append: nothing, or a colon and bytes that end neither the
      field nor the sequence. */
  predicate SubParams(s: seq<byte>) {
    (s == [] || s[0] == COLON) && SEMICOLON !in s && forall i :: 0 <= i < |s| ==> !IsFinal(s[i])
  }

  predicate ParamField(s: seq<byte>) { SEMICOLON !in s && forall i :: 0 <= i < |s| ==> !IsFinal(s[i]) }

  lemma NumberOf(n: nat, sub: seq<byte>)
    requires Int64(n) && SubParams(sub)
    ensures Number(Digits(n) + sub) == n && ParamField(Digits(n) + sub)
  {
    var f := Digits(n) + sub;
    DigitsAreDigits(n);
    assert f[..|Digits(n)|] == Digits(n);
    IndexOfIs(f, COLON, |Digits(n)|);
    AtoiItoa(n);
  }

  /** CSI 93 ; mods u, with optional sub-parameters. */
  function KittyKey(mods: nat, sub1: seq<byte>, sub2: seq<byte>): Token {
    Csi(Digits(93) + sub1 + [SEMICOLON] + (Digits(mods) + sub2), KITTY_FINAL)
  }

  /** CSI 27 ; mods ; 93 ~. */
  function XtermKey(mods: nat): Token {
    Csi(Digits(27) + [SEMICOLON] + (Digits(mods) + [SEMICOLON] + Digits(93)), TILDE_FINAL)
  }

  lemma TwoParams(a: seq<byte>, b: seq<byte>)
    requires ParamField(a) && ParamField(b)
    ensures Params(a + [SEMICOLON] + b) == [Number(a), Number(b)]
  {
    SplitFirst(a, SEMICOLON, b);
    NoSeparator(b, SEMICOLON);
  }

  lemma ThreeParams(a: seq<byte>, b: seq<byte>, c: seq<byte>)
    requires ParamField(a) && ParamField(b) && ParamField(c)
    ensures Params(a + [SEMICOLON] + (b + [SEMICOLON] + c)) == [Number(a), Number(b), Number(c)]
  {
    SplitFirst(a, SEMICOLON, b + [SEMICOLON] + c);
    SplitFirst(b, SEMICOLON, c);
    NoSeparator(c, SEMICOLON);
    assert [a] + ([b] + [c]) == [a, b, c];
  }

  lemma TwoParamsDetach(a: seq<byte>, b: seq<byte>)
    requires ParamField(a) && ParamField(b) && Number(a) == BRACKET_KEY && HasCtrl(Number(b))
    ensures var t := Csi(a + [SEMICOLON] + b, KITTY_FINAL); IsDetach(t) && Complete(t)
  {
    TwoParams(a, b);
  }

  lemma ThreeParamsDetach(a: seq<byte>, b: seq<byte>, c: seq<byte>)
    requires ParamField(a) && ParamField(b) && ParamField(c)
    requires Number(a) == 27 && HasCtrl(Number(b)) && Number(c) == BRACKET_KEY
    ensures var t := Csi(a + [SEMICOLON] + (b + [SEMICOLON] + c), TILDE_FINAL); IsDetach(t) && Complete(t)
  {
    ThreeParams(a, b, c);
    NoFinalJoin(b, c);
    NoFinalJoin(a, b + [SEMICOLON] + c);
  }

  lemma NoFinalJoin(a: seq<byte>, b: seq<byte>)
    requires (forall i :: 0 <= i < |a| ==> !IsFinal(a[i])) && (forall i :: 0 <= i < |b| ==> !IsFinal(b[i]))
    ensures forall i :: 0 <= i < |a + [SEMICOLON] + b| ==> !IsFinal((a + [SEMICOLON] + b)[i])
  {
  }

  lemma KittyKeyIsDetach(mods: nat, sub1: seq<byte>, sub2: seq<byte>)
    requires Int64(mods) && HasCtrl(mods) && SubParams(sub1) && SubParams(sub2)
    ensures IsDetach(KittyKey(mods, sub1, sub2)) && Complete(KittyKey(mods, sub1, sub2))
  {
    NumberOf(93, sub1);
    NumberOf(mods, sub2);
    TwoParamsDetach(Digits(93) + sub1, Digits(mods) + sub2);
  }

  lemma NumberOnly(n: nat)
    requires Int64(n)
    ensures Number(Digits(n)) == n && ParamField(Digits(n))
  {
    NumberOf(n, []);
    assert Digits(n) + [] == Digits(n);
  }

  lemma XtermKeyIsDetach(mods: nat)
    requires Int64(mods) && HasCtrl(mods)
    ensures IsDetach(XtermKey(mods)) && Complete(XtermKey(mods))
  {
    NumberOnly(27);
    NumberOnly(mods);
    NumberOnly(93);
    ThreeParamsDetach(Digits(27), Digits(mods), Digits(93));
  }

  /** A keypress that holds Control, in any of its three encodings. */
  datatype KeyPress = Legacy | Kitty(mods: nat, sub1: seq<byte>, sub2: seq<byte>) | Xterm(mods: nat)

  predicate CtrlBracket(k: KeyPress) {
    match k
    case Legacy => true
    case Kitty(mods, sub1, sub2) => Int64(mods) && HasCtrl(mods) && SubParams(sub1) && SubParams(sub2)
    case Xterm(mods) => Int64(mods) && HasCtrl(mods)
  }

  function KeyToken(k: KeyPress): Token {
    match k
    case Legacy => Plain(DETACH_BYTE)
    case Kitty(mods, sub1, sub2) => KittyKey(mods, sub1, sub2)
    case Xterm(mods) => XtermKey(mods)
  }

  /** Every encoding of Ctrl-] typed after any complete input that is not the key itself is found at
      exactly its own offset, whatever follows. */
  lemma KeyIsFound(typed: seq<Token>, k: KeyPress, rest: seq<byte>)
    requires CtrlBracket(k)
    requires Separate(typed, Spell(KeyToken(k)) + rest) && (forall i :: 0 <= i < |typed| ==> !IsDetach(typed[i]))
    ensures DetachAt(SpellAll(typed) + (Spell(KeyToken(k)) + rest)) == |SpellAll(typed)|
  {
    var key := KeyToken(k);
    match k {
      case Legacy =>
      case Kitty(mods, sub1, sub2) => KittyKeyIsDetach(mods, sub1, sub2);
      case Xterm(mods) => XtermKeyIsDetach(mods);
    }
    LexOne(key, rest);
    LexSpelled(typed, Spell(key) + rest);
    SeparateSpelled(typed, Spell(key) + rest);
    var ts := typed + ([key] + Lex(rest));
    FirstAtIsFirst(ts, IsDetach, |typed|);
    assert ts[..|typed|] == typed;
  }

  // ---------------------------------------------------------------------------------------
  // The scanner
  // ---------------------------------------------------------------------------------------

  method ParseCSI(p: seq<byte>, start: nat) returns (end: int, params: seq<byte>, final: byte)
    requires start <= |p|
    ensures var j := FinalAt(p, start);
      if j == |p| then end < 0 else end == j + 1 && params == p[start..j] && final == p[j]
  {
    for j := start to |p|
      invariant FinalAt(p, start) == FinalAt(p, j)
    {
      if IsFinal(p[j]) {
        return j + 1, p[start..j], p[j];
      }
    }
    return -1, [], 0;
  }

  /** The loop's view: the fields from `start` on, having read up to `i`. */
  function FieldsFrom(params: seq<byte>, start: nat, i: nat): seq<seq<byte>>
    requires start <= i <= |params|
    decreases |params| - i
  {
    if i == |params| then [params[start..i]]
    else if params[i] == SEMICOLON then [params[start..i]] + FieldsFrom(params, i + 1, i + 1)
    else FieldsFrom(params, start, i + 1)
  }

  lemma {:induction false} FieldsFromIsSplit(params: seq<byte>, start: nat, i: nat)
    requires start <= i <= |params| && SEMICOLON !in params[start..i]
    ensures FieldsFrom(params, start, i) == Split(params[start..], SEMICOLON)
    decreases |params| - i
  {
    if i == |params| {
      assert params[start..i] == params[start..];
      NoSeparator(params[start..], SEMICOLON);
    } else if params[i] == SEMICOLON {
      FieldsFromIsSplit(params, i + 1, i + 1);
      SplitHere(params, start, i);
    } else {
      assert params[start..i + 1] == params[start..i] + [params[i]];
      FieldsFromIsSplit(params, start, i + 1);
    }
  }

  lemma SplitHere(params: seq<byte>, start: nat, i: nat)
    requires start <= i < |params| && SEMICOLON !in params[start..i] && params[i] == SEMICOLON
    ensures Split(params[start..], SEMICOLON) == [params[start..i]] + Split(params[i + 1..], SEMICOLON)
  {
    assert params[start..] == params[start..i] + [SEMICOLON] + params[i + 1..];
    SplitFirst(params[start..i], SEMICOLON, params[i + 1..]);
  }

  lemma FieldsFromWhole(params: seq<byte>)
    ensures FieldsFrom(params, 0, 0) == Split(params, SEMICOLON)
  {
    FieldsFromIsSplit(params, 0, 0);
    assert params[0..] == params;
  }

  method SplitParams(params: seq<byte>) returns (out: seq<int>)
    ensures out == Params(params)
  {
    ghost var fields := FieldsFrom(params, 0, 0);
    FieldsFromWhole(params);
    out := NumberFields(params, fields);
  }

  lemma FieldDone(params: seq<byte>, start: nat, i: nat, done: seq<seq<byte>>)
    requires start <= i < |params| && params[i] == SEMICOLON
    ensures done + FieldsFrom(params, start, i) == (done + [params[start..i]]) + FieldsFrom(params, i + 1, i + 1)
  {
    var f, more := params[start..i], FieldsFrom(params, i + 1, i + 1);
    assert done + ([f] + more) == (done + [f]) + more;
  }

  method NumberFields(params: seq<byte>, ghost fields: seq<seq<byte>>) returns (out: seq<int>)
    requires fields == FieldsFrom(params, 0, 0)
    ensures out == Numbers(fields)
  {
    out := [];
    ghost var done := [];
    var start := 0;
    for i := 0 to |params|
      invariant start <= i && fields == done + FieldsFrom(params, start, i)
      invariant |out| == |done| && forall k :: 0 <= k < |out| ==> out[k] == Number(done[k])
    {
      if params[i] == SEMICOLON {
        var f := params[start..i];
        var n := FieldNumber(f);
        FieldDone(params, start, i, done);
        out, done := out + [n], done + [f];
        start := i + 1;
      }
    }
    var n := FieldNumber(params[start..|params|]);
    out := out + [n];
  }

  method FieldNumber(field: seq<byte>) returns (n: int)
    ensures n == Number(field)
  {
    var k := 0;
    while k < |field| && field[k] != COLON
      invariant k <= |field| && forall j :: 0 <= j < k ==> field[j] != COLON
    {
      k := k + 1;
    }
    IndexOfIs(field, COLON, k);
    var v := Atoi(field[..k]);
    n := if v.None? then -1 else v.value;
  }

  /** `m` is the detach test. */
  ghost predicate Tests(m: Token -> bool) {
    && (forall b: byte {:trigger Plain(b)} :: m(Plain(b)) == (b == DETACH_BYTE))
    && (forall ps, f {:trigger IsDetachSeq(ps, f)} :: m(Csi(ps, f)) == IsDetachSeq(ps, f))
    && (forall bs {:trigger Unterminated(bs)} :: !m(Unterminated(bs)))
  }

  /** isDetachSeq: each final byte has its own layout. */
  method MatchSeq(params: seq<byte>, final: byte, ghost m: Token -> bool) returns (r: bool)
    requires Tests(m)
    ensures r == m(Csi(params, final))
  {
    assert m(Csi(params, final)) == IsDetachSeq(params, final);
    if final == KITTY_FINAL {
      var f := SplitParams(params);
      return |f| >= 2 && f[0] == BRACKET_KEY && HasCtrl(f[1]);
    }
    if final == TILDE_FINAL {
      var f := SplitParams(params);
      return |f| >= 3 && f[0] == 27 && f[2] == BRACKET_KEY && HasCtrl(f[1]);
    }
    return false;
  }

  lemma FirstAtCons(t: Token, ts: seq<Token>, m: Token -> bool)
    ensures FirstAt([t] + ts, m) == if m(t) then 0 else Shift(FirstAt(ts, m), Width(t))
  {
    assert ([t] + ts)[1..] == ts;
  }

  /** The scan as indices: the offset of the first matching token at or after `i`. */
  function Scan(n: nat, i: nat, tok: nat -> Token, m: Token -> bool): int
    decreases n - i
  {
    if i >= n then -1
    else if m(tok(i)) then i
    else Scan(n, i + Width(tok(i)), tok, m)
  }

  /** Walking indices finds what walking tokens finds. */
  lemma {:induction false} ScanIsFirst(n: nat, i: nat, tok: nat -> Token, m: Token -> bool)
    ensures Scan(n, i, tok, m) == Shift(FirstAt(Tokens(n, i, tok), m), i)
    decreases n - i
  {
    if i < n {
      var j := i + Width(tok(i));
      ScanIsFirst(n, j, tok, m);
      FirstAtCons(tok(i), Tokens(n, j, tok), m);
    }
  }

  lemma {:induction false} FirstAtRange(ts: seq<Token>, m: Token -> bool)
    ensures FirstAt(ts, m) >= -1
  {
    if ts != [] { FirstAtRange(ts[1..], m); }
  }

  lemma ScanWhole(p: seq<byte>)
    ensures Scan(|p|, 0, Lexer(p), IsDetach) == DetachAt(p)
  {
    ScanIsFirst(|p|, 0, Lexer(p), IsDetach);
    FirstAtRange(Lex(p), IsDetach);
  }

  /** `tok` is the lexer of `p`. */
  ghost predicate Lexes(p: seq<byte>, tok: nat -> Token) {
    forall i: nat {:trigger TokenAt(p, i)} :: i < |p| ==> tok(i) == TokenAt(p, i)
  }

  /** A byte that opens no sequence is the key or is passed over. */
  lemma ScanPlain(p: seq<byte>, i: nat, tok: nat -> Token, m: Token -> bool)
    requires Lexes(p, tok) && Tests(m) && i < |p|
    ensures !OpensCsi(p, i) ==>
      Scan(|p|, i, tok, m) == if p[i] == DETACH_BYTE then i else Scan(|p|, i + 1, tok, m)
  {
    assert tok(i) == TokenAt(p, i);
    if !OpensCsi(p, i) { assert m(Plain(p[i])) == (p[i] == DETACH_BYTE); }
  }

  /** A sequence is the key or is passed over whole, and one without an end ends the scan. */
  lemma ScanSequence(p: seq<byte>, i: nat, tok: nat -> Token, m: Token -> bool)
    requires Lexes(p, tok) && Tests(m) && OpensCsi(p, i)
    ensures var j := FinalAt(p, i + 2);
      Scan(|p|, i, tok, m) ==
        if j == |p| then -1
        else if m(Csi(p[i + 2..j], p[j])) then i
        else Scan(|p|, j + 1, tok, m)
  {
    var j := FinalAt(p, i + 2);
    assert tok(i) == TokenAt(p, i);
    ScanUnfold(|p|, i, tok, m, TokenAt(p, i), i + Width(TokenAt(p, i)));
    SequenceWidth(p, i);
  }

  /** A sequence reaches just past its final byte, and without one to the end. */
  lemma SequenceWidth(p: seq<byte>, i: nat)
    requires OpensCsi(p, i)
    ensures var j, t := FinalAt(p, i + 2), TokenAt(p, i);
      if j == |p| then t == Unterminated(p[i..]) && i + Width(t) == |p|
      else t == Csi(p[i + 2..j], p[j]) && i + Width(t) == j + 1
  {
    var j := FinalAt(p, i + 2);
    if j == |p| { WidthOfRest(p[i..]); } else { WidthOfCsi(p[i + 2..j], p[j]); }
  }

  lemma WidthOfCsi(params: seq<byte>, final: byte)
    ensures Width(Csi(params, final)) == |params| + 3
  {
  }

  lemma WidthOfRest(rest: seq<byte>)
    requires rest != []
    ensures Width(Unterminated(rest)) == |rest|
  {
  }

  lemma ScanUnfold(n: nat, i: nat, tok: nat -> Token, m: Token -> bool, t: Token, j: nat)
    requires i < n && t == tok(i) && j == i + Width(t)
    ensures Scan(n, i, tok, m) == if m(t) then i else Scan(n, j, tok, m)
  {
  }

  method ScanLoop(p: seq<byte>, ghost tok: nat -> Token, ghost m: Token -> bool) returns (r: int)
    requires Lexes(p, tok) && Tests(m)
    ensures r == Scan(|p|, 0, tok, m)
  {
    ghost var answer := Scan(|p|, 0, tok, m);
    var i := 0;
    while i < |p|
      invariant 0 <= i <= |p| && answer == Scan(|p|, i, tok, m)
    {
      ScanPlain(p, i, tok, m);
      if p[i] == DETACH_BYTE {
        return i;
      }
      if p[i] != ESC || i + 1 >= |p| || p[i + 1] != BRACKET {
        i := i + 1;
        continue;
      }
      ScanSequence(p, i, tok, m);
      var end, params, final := ParseCSI(p, i + 2);
      if end < 0 {
        return -1;
      }
      var matched := MatchSeq(params, final, m);
      if matched {
        return i;
      }
      i := end;
    }
    return -1;
  }

  method DetachIndex(p: seq<byte>) returns (r: int)
    ensures r == DetachAt(p)
  {
    ScanWhole(p);
    r := ScanLoop(p, Lexer(p), IsDetach);
  }
}
