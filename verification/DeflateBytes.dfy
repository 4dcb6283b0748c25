/** Written streams as bytes, and the round trip through the kernel's decoder. */
module DeflateBytes {
  import opened BitMath
  import opened Canonical
  import opened Rfc1951
  import opened Deflate
  import opened DeflateStream
  import opened Streams

  /** The bits as bytes, each from its low bit up. */
  function Packed(w: seq<Bit>): (mem: seq<Byte>)
    requires |w| % 8 == 0
    ensures |w| == 8 * |mem|
  {
    seq(|w| / 8, q requires 0 <= q < |w| / 8 => Pow2Eight(); Lsb(w, 8 * q, 8))
  }

  lemma {:induction false} PackedBit(w: seq<Bit>, q: nat, i: nat)
    requires |w| % 8 == 0 && 8 * q + 8 <= |w| && i < 8
    ensures BitsOf(Packed(w))[8 * q + i] == w[8 * q + i]
  {
    BitOfByte(Packed(w), q, i);
    LsbShr(w, 8 * q, 8, i);
    LsbFirst(w, 8 * q + i, 8 - i);
  }

  /** Packing loses nothing. */
  lemma {:induction false} PackedBits(w: seq<Bit>)
    requires |w| % 8 == 0
    ensures BitsOf(Packed(w)) == w
  {
    forall p | 0 <= p < |w| ensures BitsOf(Packed(w))[p] == w[p] {
      PackedBit(w, p / 8, p % 8);
    }
  }

  /** The bits, filled up to whole bytes with zeros. */
  function Whole(w: seq<Bit>): (v: seq<Bit>)
    ensures |v| % 8 == 0
  {
    w + Zeros(Align(|w|) - |w|)
  }

  ghost function StreamBytes(stream: seq<Placed>): seq<Byte>
    requires StreamOk(stream)
  {
    Packed(Whole(StreamBits(stream)))
  }

  lemma {:induction false} BytesBack(stream: seq<Placed>, s: seq<Byte>, most: nat)
    requires StreamOk(stream) && s == StreamBytes(stream) && most >= MAX_LITERALS
    ensures Inflate(BitsOf(s), most, 0, []) == Got(StreamOut(stream), |StreamBits(stream)|)
  {
    var w := StreamBits(stream);
    PackedBits(Whole(w));
    StreamBack(stream, Zeros(Align(|w|) - |w|), most);
  }

  /** The kernel decodes every written stream to what it stands for, whatever
      blocks, codes and tokens it is written with and whatever three bytes
      follow it. */
  method DecodeWritten(ghost stream: seq<Placed>, s: seq<Byte>, t: seq<Byte>) returns (ok: bool, out: seq<Byte>)
    requires StreamOk(stream) && s == StreamBytes(stream) && |t| >= 3
    ensures ok && out == StreamOut(stream)
  {
    BytesBack(stream, s, MAX_SYMBOLS);
    ok, out := DecodeStream(s, t);
  }

  // ---- every byte string has a stream ------------------------------------------------------

  const CHUNK: nat := 0xFFFF

  /** The bits of a full stored block that starts at a byte: the block header
      and its filling, the two counts and the bytes. */
  const SPAN: nat := 8 + 32 + 8 * 0xFFFF

  function Chunk(x: seq<Byte>, k: nat): (c: seq<Byte>)
    requires k * CHUNK <= |x|
    ensures |c| <= CHUNK
  {
    var rest := x[k * CHUNK..];
    if |rest| <= CHUNK then rest else rest[..CHUNK]
  }

  lemma ChunkStart(x: seq<Byte>, k: nat)
    requires k <= |x| / CHUNK
    ensures k * CHUNK <= |x|
  {
  }

  function StoredAt(x: seq<Byte>, k: nat): Placed
    requires k <= |x| / CHUNK
  {
    ChunkStart(x, k);
    Placed(k * SPAN, x[..k * CHUNK], StoredPart(Chunk(x, k)))
  }

  /** The string cut into stored blocks of 65535 bytes and a shorter last one. */
  function StoredStream(x: seq<Byte>): (stream: seq<Placed>)
    ensures |stream| == |x| / CHUNK + 1
  {
    seq(|x| / CHUNK + 1, k requires 0 <= k <= |x| / CHUNK => StoredAt(x, k))
  }

  lemma SpanBits(c: seq<Byte>, k: nat)
    requires |c| <= CHUNK
    ensures 3 + |StoredBits(c, k * SPAN + 3)| == 8 + 32 + 8 * |c|
  {
    assert Align(k * SPAN + 3) == k * SPAN + 8;
  }

  lemma {:induction false} ChunkFull(x: seq<Byte>, k: nat, c: seq<Byte>, a: nat, b: nat)
    requires 0 < k <= |x| / CHUNK && a == (k - 1) * CHUNK && b == k * CHUNK && a <= |x| && c == Chunk(x, k - 1)
    ensures b <= |x| && |c| == CHUNK && x[..a] + c == x[..b]
  {
    ChunkStart(x, k);
    assert c == x[a..b];
  }

  lemma {:induction false} StoredFollows(x: seq<Byte>, k: nat, a: Placed, b: Placed)
    requires 0 < k <= |x| / CHUNK && a == StoredAt(x, k - 1) && b == StoredAt(x, k)
    ensures Follows(PieceOf(a), PieceOf(b))
  {
    SpanBits(a.part.x, k - 1);
    ChunkFull(x, k, a.part.x, (k - 1) * CHUNK, k * CHUNK);
  }

  lemma {:induction false} StoredStreamOk(x: seq<Byte>, stream: seq<Placed>)
    requires stream == StoredStream(x)
    ensures StreamOk(stream)
  {
    var pieces := Pieces(stream);
    forall k | 0 < k < |pieces| ensures Follows(pieces[k - 1], pieces[k]) {
      StoredFollows(x, k, stream[k - 1], stream[k]);
    }
  }

  /** Every byte string, of any length, is what some stream stands for. */
  lemma {:induction false} StoredStreamOut(x: seq<Byte>)
    ensures StreamOk(StoredStream(x)) && StreamOut(StoredStream(x)) == x
  {
    StoredStreamOk(x, StoredStream(x));
    var k := |x| / CHUNK;
    ChunkStart(x, k);
    assert x[..k * CHUNK] + Chunk(x, k) == x;
  }
}
