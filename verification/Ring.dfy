/** The bounded replay buffer of internal/ptysession/ring.go. */
module Replay {
  import opened Decimal
  import opened Modes
  import opened Reattach

  const DEFAULT_RING_BYTES := 256 * 1024

  /** One PTY read, and whether the stream was between control sequences when it began. */
  datatype Chunk = Chunk(bytes: seq<byte>, clean: bool)

  function Flat(cs: seq<Chunk>): seq<byte> {
    if cs == [] then [] else cs[0].bytes + Flat(cs[1..])
  }

  /** Drop the oldest chunks until the rest fits. */
  function Evict(cs: seq<Chunk>, limit: nat): seq<Chunk> {
    if |Flat(cs)| > limit then Evict(cs[1..], limit) else cs
  }

  function FirstClean(cs: seq<Chunk>): (k: nat)
    ensures k <= |cs| && (k < |cs| ==> cs[k].clean) && (forall i :: 0 <= i < k ==> !cs[i].clean)
  {
    if cs == [] || cs[0].clean then 0 else
      var k := FirstClean(cs[1..]);
      assert forall i :: 1 <= i < k + 1 ==> cs[i] == cs[1..][i - 1];
      k + 1
  }

  /** What may be replayed: everything from the oldest chunk that starts cleanly. */
  function Snapshot(cs: seq<Chunk>): seq<byte> { Flat(cs[FirstClean(cs)..]) }

  lemma {:induction false} FlatConcat(a: seq<Chunk>, b: seq<Chunk>)
    ensures Flat(a + b) == Flat(a) + Flat(b)
  {
    if a == [] {
      assert a + b == b;
    } else {
      assert (a + b)[1..] == a[1..] + b;
      FlatConcat(a[1..], b);
    }
  }

  lemma {:induction false} EvictIsSuffix(cs: seq<Chunk>, limit: nat) returns (k: nat)
    ensures k <= |cs| && Evict(cs, limit) == cs[k..] && |Flat(cs[k..])| <= limit
    ensures forall j :: 0 <= j < k ==> |Flat(cs[j..])| > limit
  {
    if |Flat(cs)| > limit {
      var i := EvictIsSuffix(cs[1..], limit);
      k := i + 1;
      assert cs[1..][i..] == cs[k..];
      forall j | 0 <= j < k ensures |Flat(cs[j..])| > limit {
        if j == 0 { assert cs[0..] == cs; } else { assert cs[1..][j - 1..] == cs[j..]; }
      }
    } else {
      k := 0;
      assert cs[0..] == cs;
    }
  }

  /** Eviction keeps the longest run of newest chunks that fits the limit. */
  lemma EvictKeepsLongest(cs: seq<Chunk>, limit: nat, j: nat)
    requires j <= |cs| && |Flat(cs[j..])| <= limit
    ensures |Flat(Evict(cs, limit))| <= limit
    ensures |Evict(cs, limit)| >= |cs| - j && Evict(cs, limit)[|Evict(cs, limit)| - (|cs| - j)..] == cs[j..]
  {
    var k := EvictIsSuffix(cs, limit);
  }

  lemma {:induction false} SuffixFits(cs: seq<Chunk>, k: nat)
    requires k <= |cs|
    ensures |Flat(cs[k..])| <= |Flat(cs)|
  {
    if k == 0 {
      assert cs[0..] == cs;
    } else {
      SuffixFits(cs[1..], k - 1);
      assert cs[1..][k - 1..] == cs[k..];
    }
  }

  lemma SnapshotFits(cs: seq<Chunk>)
    ensures |Snapshot(cs)| <= |Flat(cs)|
  {
    SuffixFits(cs, FirstClean(cs));
  }

  // ---------------------------------------------------------------------------------------
  // How the buffer relates to everything the PTY has produced
  // ---------------------------------------------------------------------------------------

  /** The output up to the point where chunk `i` of the buffer begins. */
  function Before(cs: seq<Chunk>, output: seq<byte>, i: nat): seq<byte>
    requires i <= |cs| && |Flat(cs[i..])| <= |output|
  {
    output[..|output| - |Flat(cs[i..])|]
  }

  predicate ChunkAligned(cs: seq<Chunk>, output: seq<byte>, i: nat)
    requires i < |cs|
  {
    && |Flat(cs[i..])| <= |output|
    && output == Before(cs, output, i) + Flat(cs[i..])
    && (cs[i].clean <==> Tracked(Before(cs, output, i)).state.Ground?)
  }

  /** Every retained chunk is in its place at the end of the output, and its clean mark is true. */
  predicate Retains(cs: seq<Chunk>, output: seq<byte>) {
    forall i :: 0 <= i < |cs| ==> ChunkAligned(cs, output, i)
  }

  lemma RetainsSuffix(cs: seq<Chunk>, output: seq<byte>, k: nat)
    requires Retains(cs, output) && k <= |cs|
    ensures Retains(cs[k..], output)
  {
    forall i | 0 <= i < |cs[k..]| ensures ChunkAligned(cs[k..], output, i) {
      assert cs[k..][i..] == cs[k + i..];
      assert ChunkAligned(cs, output, k + i);
    }
  }

  lemma RetainsAppend(cs: seq<Chunk>, output: seq<byte>, b: seq<byte>)
    requires Retains(cs, output)
    ensures Retains(cs + [Chunk(b, Tracked(output).state.Ground?)], output + b)
  {
    var c := Chunk(b, Tracked(output).state.Ground?);
    var cs', output' := cs + [c], output + b;
    assert Flat([c]) == b;
    forall i | 0 <= i < |cs'| ensures ChunkAligned(cs', output', i) {
      assert cs'[i..] == cs[i..] + [c];
      FlatConcat(cs[i..], [c]);
      if i < |cs| {
        assert ChunkAligned(cs, output, i);
        assert Before(cs', output', i) == Before(cs, output, i);
      } else {
        assert Before(cs', output', i) == output;
      }
    }
  }

  /** Reading one more chunk keeps the buffer in step with the output, evictions included. */
  lemma RetainsPush(cs: seq<Chunk>, output: seq<byte>, b: seq<byte>, limit: nat)
    requires Retains(cs, output)
    ensures Retains(Evict(cs + [Chunk(b, Tracked(output).state.Ground?)], limit), output + b)
  {
    RetainsAppend(cs, output, b);
    var cs' := cs + [Chunk(b, Tracked(output).state.Ground?)];
    var k := EvictIsSuffix(cs', limit);
    RetainsSuffix(cs', output + b, k);
  }

  /** What is replayed is the end of the output, cut between control sequences. */
  lemma SnapshotIsCleanSuffix(cs: seq<Chunk>, output: seq<byte>)
    requires Retains(cs, output)
    ensures |Snapshot(cs)| <= |output|
    ensures var before := output[..|output| - |Snapshot(cs)|];
      output == before + Snapshot(cs) && CleanSuffix(before, Snapshot(cs))
  {
    var k := FirstClean(cs);
    if k < |cs| { assert ChunkAligned(cs, output, k); }
  }

  // ---------------------------------------------------------------------------------------
  // The buffer itself
  // ---------------------------------------------------------------------------------------

  class Ring {
    var chunks: seq<Chunk>
    var bytes: int
    var limit: nat

    ghost predicate Valid()
      reads this
    {
      bytes == |Flat(chunks)|
    }

    constructor (n: int)
      ensures Valid() && chunks == [] && limit == (if n <= 0 then DEFAULT_RING_BYTES else n)
    {
      limit := if n <= 0 then DEFAULT_RING_BYTES else n;
      chunks := [];
      bytes := 0;
    }

    method Push(b: seq<byte>, cleanStart: bool)
      requires Valid()
      modifies this
      ensures Valid() && limit == old(limit)
      ensures chunks == Evict(old(chunks) + [Chunk(b, cleanStart)], limit)
    {
      var c := Chunk(b, cleanStart);
      FlatConcat(chunks, [c]);
      assert Flat([c]) == b;
      chunks := chunks + [c];
      bytes := bytes + |c.bytes|;
      while bytes > limit && |chunks| > 0
        invariant Valid() && limit == old(limit)
        invariant Evict(chunks, limit) == Evict(old(chunks) + [c], limit)
        decreases |chunks|
      {
        bytes := bytes - |chunks[0].bytes|;
        chunks := chunks[1..];
      }
    }

    method SnapshotBytes() returns (out: seq<byte>)
      requires Valid()
      ensures out == Snapshot(chunks)
    {
      var start := 0;
      while start < |chunks| && !chunks[start].clean
        invariant start <= |chunks| && forall i :: 0 <= i < start ==> !chunks[i].clean
      {
        start := start + 1;
      }
      ghost var k := FirstClean(chunks);
      assert start == k;
      out := [];
      for i := start to |chunks|
        invariant out + Flat(chunks[i..]) == Snapshot(chunks)
      {
        assert chunks[i..][1..] == chunks[i + 1..];
        out := out + chunks[i].bytes;
      }
    }
  }
}
