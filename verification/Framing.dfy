/** Frames inside a tunnel stream (internal/tunnel/frame.go) and the byte stream over WebSocket
    messages underneath them (internal/tunnel/wsnet.go). */
module Framing {
  import opened Decimal
  import opened BigEndian
  import opened Collections

  const MAX_FRAME := 0x10_0000

  datatype Frame = Frame(typ: byte, payload: seq<byte>)

  datatype ReadError = EOF | UnexpectedEOF | TooLarge

  /** A frame and what follows it, or why there is none. */
  datatype Decoded = Ok(frame: Frame, rest: seq<byte>) | Error(error: ReadError)

  function Encode(f: Frame): seq<byte> { [f.typ] + Put(|f.payload|, 4) + f.payload }

  function EncodeAll(fs: seq<Frame>): seq<byte> {
    if fs == [] then [] else Encode(fs[0]) + EncodeAll(fs[1..])
  }

  function Decode(s: seq<byte>): (d: Decoded)
    ensures d.Ok? ==> |d.rest| < |s|
  {
    if |s| < 5 then Error(if s == [] then EOF else UnexpectedEOF)
    else
      var n := Get(s[1..5]);
      if n > MAX_FRAME then Error(TooLarge)
      else if n == 0 then Ok(Frame(s[0], []), s[5..])
      else if |s| == 5 then Error(EOF)
      else if |s| < 5 + n then Error(UnexpectedEOF)
      else Ok(Frame(s[0], s[5..5 + n]), s[5 + n..])
  }

  /** Every frame that can be read, and the error that ends the reading. */
  datatype Reading = Reading(frames: seq<Frame>, end: ReadError)

  function DecodeAll(s: seq<byte>): Reading
    decreases |s|
  {
    var d := Decode(s);
    if d.Error? then Reading([], d.error)
    else
      var more := DecodeAll(d.rest);
      Reading([d.frame] + more.frames, more.end)
  }

  predicate Sendable(f: Frame) { |f.payload| <= MAX_FRAME }

  predicate AllSendable(fs: seq<Frame>) { forall f :: f in fs ==> Sendable(f) }

  lemma DecodeEncoded(f: Frame, rest: seq<byte>)
    requires Sendable(f)
    ensures Decode(Encode(f) + rest) == Ok(f, rest)
  {
    var s := Encode(f) + rest;
    assert Pow256(4) == 0x1_0000_0000;
    GetPut(|f.payload|, 4);
    assert s[1..5] == Put(|f.payload|, 4);
    assert s[5..5 + |f.payload|] == f.payload;
    assert s[5 + |f.payload|..] == rest;
  }

  /** Frames written back to back are read back as the same frames, types and empty payloads
      included, and the stream then ends cleanly. */
  lemma {:induction false} FramesRoundTrip(fs: seq<Frame>)
    requires AllSendable(fs)
    ensures DecodeAll(EncodeAll(fs)) == Reading(fs, EOF)
  {
    if fs != [] {
      DecodeEncoded(fs[0], EncodeAll(fs[1..]));
      FramesRoundTrip(fs[1..]);
      assert [fs[0]] + fs[1..] == fs;
    }
  }

  /** How many frames of a stream have ended by byte `n`. */
  function Ended(fs: seq<Frame>, n: nat): (k: nat)
    ensures k <= |fs|
  {
    if fs == [] || n < |Encode(fs[0])| then 0 else 1 + Ended(fs[1..], n - |Encode(fs[0])|)
  }

  /** Said without recursion: the first `k` frames fit in `n` bytes and one more does not. */
  lemma {:induction false} EndedExactly(fs: seq<Frame>, n: nat, k: nat)
    requires k <= |fs|
    ensures Ended(fs, n) == k <==>
      |EncodeAll(fs[..k])| <= n && (k < |fs| ==> n < |EncodeAll(fs[..k + 1])|)
  {
    if fs == [] {
      assert fs[..k] == [];
    } else {
      EncodedFirst(fs, k);
      if k < |fs| { EncodedFirst(fs, k + 1); }
      if k > 0 && n >= |Encode(fs[0])| { EndedExactly(fs[1..], n - |Encode(fs[0])|, k - 1); }
    }
  }

  lemma EncodedFirst(fs: seq<Frame>, k: nat)
    requires fs != [] && k <= |fs|
    ensures EncodeAll(fs[..k]) == if k == 0 then [] else Encode(fs[0]) + EncodeAll(fs[1..][..k - 1])
  {
    if k > 0 { assert fs[..k][1..] == fs[1..][..k - 1]; }
  }

  /** The bytes of the stream that lie past its last complete frame. */
  function Spare(fs: seq<Frame>, n: nat): int { n - |EncodeAll(fs[..Ended(fs, n)])| }

  function CutEnd(spare: int): ReadError { if spare == 0 || spare == 5 then EOF else UnexpectedEOF }

  /** A stream cut off anywhere yields exactly the frames that had ended by then. The end is reported
      as clean when nothing is left over, and also when what is left is just the header of a frame
      whose payload never came; any other remainder is reported as an unexpected end. */
  lemma {:induction false} CutStreamReadsPrefix(fs: seq<Frame>, n: nat)
    requires AllSendable(fs) && n <= |EncodeAll(fs)|
    ensures DecodeAll(EncodeAll(fs)[..n]) == Reading(fs[..Ended(fs, n)], CutEnd(Spare(fs, n)))
  {
    if fs == [] {
      assert EncodeAll(fs)[..n] == [];
    } else if n < |Encode(fs[0])| {
      CutInFirst(fs, n);
    } else {
      CutStreamReadsPrefix(fs[1..], n - |Encode(fs[0])|);
      CutPastFirst(fs, n);
    }
  }

  lemma CutInFirst(fs: seq<Frame>, n: nat)
    requires fs != [] && AllSendable(fs) && n < |Encode(fs[0])|
    ensures n <= |EncodeAll(fs)| && DecodeAll(EncodeAll(fs)[..n]) == Reading([], CutEnd(n))
    ensures Ended(fs, n) == 0 && Spare(fs, n) == n
  {
    assert EncodeAll(fs)[..n] == Encode(fs[0])[..n];
    PartialFrame(fs[0], n);
  }

  lemma CutPastFirst(fs: seq<Frame>, n: nat)
    requires fs != [] && AllSendable(fs) && |Encode(fs[0])| <= n <= |EncodeAll(fs)|
    ensures var m := n - |Encode(fs[0])|;
      var more := DecodeAll(EncodeAll(fs[1..])[..m]);
      && DecodeAll(EncodeAll(fs)[..n]) == Reading([fs[0]] + more.frames, more.end)
      && fs[..Ended(fs, n)] == [fs[0]] + fs[1..][..Ended(fs[1..], m)]
      && Spare(fs, n) == Spare(fs[1..], m)
  {
    var m := n - |Encode(fs[0])|;
    var rest := EncodeAll(fs[1..])[..m];
    assert EncodeAll(fs)[..n] == Encode(fs[0]) + rest;
    DecodeEncoded(fs[0], rest);
    EncodedFirst(fs, Ended(fs, n));
    TakeFirst(fs, Ended(fs[1..], m));
  }

  lemma TakeFirst(fs: seq<Frame>, k: nat)
    requires fs != [] && k < |fs|
    ensures fs[..k + 1] == [fs[0]] + fs[1..][..k]
  {
  }

  lemma PartialFrame(f: Frame, n: nat)
    requires Sendable(f) && n < |Encode(f)|
    ensures Decode(Encode(f)[..n]) == Error(CutEnd(n))
  {
    var s := Encode(f)[..n];
    if n >= 5 {
      assert Pow256(4) == 0x1_0000_0000;
      GetPut(|f.payload|, 4);
      assert s[1..5] == Put(|f.payload|, 4);
    }
  }

  // ---------------------------------------------------------------------------------------
  // Reading from a stream that arrives in pieces
  // ---------------------------------------------------------------------------------------

  /** WriteFrame: header and payload, or nothing at all when the payload is too large. */
  method WriteFrame(typ: byte, payload: seq<byte>) returns (out: seq<byte>, ok: bool)
    ensures ok <==> |payload| <= MAX_FRAME
    ensures out == if ok then Encode(Frame(typ, payload)) else []
  {
    if |payload| > MAX_FRAME {
      return [], false;
    }
    out := [typ] + Put(|payload|, 4);
    if |payload| == 0 {
      return out, true;
    }
    return out + payload, true;
  }

  lemma TakePiece(buf: seq<byte>, pieces: seq<seq<byte>>, take: nat)
    requires pieces != [] && take <= |pieces[0]|
    ensures var left := if take == |pieces[0]| then pieces[1..] else [pieces[0][take..]] + pieces[1..];
      (buf + pieces[0][..take]) + Joined(left) == buf + Joined(pieces)
  {
    var piece, tail := pieces[0], Joined(pieces[1..]);
    assert piece == piece[..take] + piece[take..];
    assert buf + (piece + tail) == (buf + piece[..take]) + (piece[take..] + tail);
    if take < |piece| { assert ([piece[take..]] + pieces[1..])[1..] == pieces[1..]; }
  }

  /** A reader that hands out its bytes a piece at a time; the cuts are wherever they happened to be. */
  class Stream {
    var pieces: seq<seq<byte>>

    constructor (pieces: seq<seq<byte>>)
      ensures this.pieces == pieces
    {
      this.pieces := pieces;
    }

    ghost function Rest(): seq<byte>
      reads this
    {
      Joined(pieces)
    }

    /** io.ReadFull. */
    method ReadFull(n: nat) returns (buf: seq<byte>, err: Option<ReadError>)
      modifies this
      ensures err.None? <==> n <= |old(Rest())|
      ensures err.None? ==> buf == old(Rest())[..n] && Rest() == old(Rest())[n..]
      ensures err.Some? ==> err.value == if old(Rest()) == [] then EOF else UnexpectedEOF
    {
      buf := [];
      while |buf| < n && pieces != []
        invariant |buf| <= n && buf + Rest() == old(Rest())
        decreases |pieces|, n - |buf|
      {
        var take := if |pieces[0]| <= n - |buf| then |pieces[0]| else n - |buf|;
        TakePiece(buf, pieces, take);
        buf := buf + pieces[0][..take];
        pieces := if take == |pieces[0]| then pieces[1..] else [pieces[0][take..]] + pieces[1..];
      }
      if |buf| == n {
        assert old(Rest())[..n] == buf && old(Rest())[n..] == Rest();
        return buf, None;
      }
      assert buf == old(Rest());
      return buf, Some(if buf == [] then EOF else UnexpectedEOF);
    }

    /** ReadFrame depends only on the bytes, never on how the stream was cut. */
    method ReadFrame() returns (r: Option<Frame>, err: Option<ReadError>)
      modifies this
      ensures Decode(old(Rest())).Ok? ==>
        r == Some(Decode(old(Rest())).frame) && err.None? && Rest() == Decode(old(Rest())).rest
      ensures Decode(old(Rest())).Error? ==> r.None? && err == Some(Decode(old(Rest())).error)
    {
      ghost var s := Rest();
      var hdr, e := ReadFull(5);
      if e.Some? {
        return None, e;
      }
      assert hdr[1..] == s[1..5];
      var n := Get(hdr[1..]);
      if n > MAX_FRAME {
        return None, Some(TooLarge);
      }
      if n == 0 {
        return Some(Frame(hdr[0], [])), None;
      }
      var payload, e2 := ReadFull(n);
      if e2.Some? {
        return None, e2;
      }
      assert s[5..][..n] == s[5..5 + n] && s[5..][n..] == s[5 + n..];
      return Some(Frame(hdr[0], payload)), None;
    }

    /** Reading until the stream gives out yields exactly the frames its bytes spell. */
    method ReadAll() returns (frames: seq<Frame>, end: ReadError)
      modifies this
      ensures Reading(frames, end) == DecodeAll(old(Rest()))
    {
      frames := [];
      while true
        invariant DecodeAll(old(Rest())) == Reading(frames + DecodeAll(Rest()).frames, DecodeAll(Rest()).end)
        decreases |Rest()|
      {
        ghost var d := Decode(Rest());
        var r, err := ReadFrame();
        if r.None? {
          assert frames + [] == frames;
          return frames, err.value;
        }
        assert frames + ([d.frame] + DecodeAll(d.rest).frames) == (frames + [d.frame]) + DecodeAll(d.rest).frames;
        frames := frames + [r.value];
      }
    }
  }

  // ---------------------------------------------------------------------------------------
  // The stream over WebSocket messages
  // ---------------------------------------------------------------------------------------

  datatype Message = Message(binary: bool, payload: seq<byte>)

  /** The bytes of the binary messages, in order. */
  function Binary(ms: seq<Message>): seq<byte> {
    if ms == [] then [] else (if ms[0].binary then ms[0].payload else []) + Binary(ms[1..])
  }

  class WSConn {
    var messages: seq<Message>          // still to arrive before the connection closes
    var current: Option<seq<byte>>      // what is left of the message being drained

    constructor (messages: seq<Message>)
      ensures this.messages == messages && current == None
    {
      this.messages := messages;
      current := None;
    }

    ghost function Pending(): seq<byte>
      reads this
    {
      (if current.Some? then current.value else []) + Binary(messages)
    }

    /** One Read of the message reader: at most `size` bytes, at least one if there are any and
        there is room, and possibly end of message together with the last of them. */
    method ReadMessage(size: nat) returns (buf: seq<byte>, eof: bool)
      requires current.Some?
      modifies this`current
      ensures current.Some? && buf + current.value == old(current.value) && |buf| <= size
      ensures eof ==> current.value == []
      ensures old(current.value) == [] ==> eof
      ensures old(current.value) != [] && size > 0 ==> buf != []
      ensures old(current.value) != [] && buf == [] ==> !eof
    {
      var left := current.value;
      if left == [] {
        return [], true;
      }
      var most := if size < |left| then size else |left|;
      var k: nat :| k <= most && (most > 0 ==> k > 0);
      buf := left[..k];
      current := Some(left[k..]);
      eof := *;
      if k < |left| {
        eof := false;
      }
    }

    /** Read returns the next bytes of the binary messages, skipping everything else; it fails only
        when the connection has closed with nothing left. */
    method Read(size: nat) returns (buf: seq<byte>, closed: bool)
      modifies this
      ensures buf + Pending() == old(Pending()) && |buf| <= size
      ensures closed ==> buf == [] && old(Pending()) == []
      ensures !closed && size > 0 ==> buf != []
    {
      while true
        invariant Pending() == old(Pending())
        decreases |messages|, current.Some?
      {
        if current.None? {
          if messages == [] {
            return [], true;
          }
          var m := messages[0];
          messages := messages[1..];
          if !m.binary {
            continue;
          }
          current := Some(m.payload);
        }
        ghost var before := Pending();
        var chunk, eof := ReadMessage(size);
        assert chunk + Pending() == before;
        if eof {
          current := None;
          if |chunk| > 0 {
            return chunk, false;
          }
          continue;
        }
        return chunk, false;
      }
    }

    /** Any sequence of reads until the connection closes, whatever the buffer sizes, yields exactly
        the concatenated binary payloads. */
    method Drain() returns (out: seq<byte>)
      modifies this
      ensures out == old(Pending())
    {
      out := [];
      while true
        invariant out + Pending() == old(Pending())
        decreases |Pending()|
      {
        var size: nat :| size > 0;
        var buf, closed := Read(size);
        if closed {
          return;
        }
        out := out + buf;
      }
    }
  }
}
