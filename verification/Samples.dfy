/** Two streams at the edges of what is proved about the decoder: one that
    needs three readable bytes after it, and one that only a decoder without
    the check on HLIT accepts. */
module Samples {
  import opened BitMath
  import opened Canonical
  import opened Rfc1951
  import opened Readahead
  import opened HlitLimit

  // ---- bits of bytes -------------------------------------------------------------------------

  /** The bits `p` to `p + 7` of the stream. */
  ghost predicate Shows(bits: seq<Bit>, p: nat, a: Bit, b: Bit, c: Bit, d: Bit, e: Bit, f: Bit, g: Bit, h: Bit) {
    && p + 8 <= |bits| && bits[p] == a && bits[p + 1] == b && bits[p + 2] == c && bits[p + 3] == d
    && bits[p + 4] == e && bits[p + 5] == f && bits[p + 6] == g && bits[p + 7] == h
  }

  /** The number with these bits, low bit first. */
  function Octal(a: nat, b: nat, c: nat, d: nat, e: nat, f: nat, g: nat, h: nat): nat {
    a + 2 * (b + 2 * (c + 2 * (d + 2 * (e + 2 * (f + 2 * (g + 2 * h))))))
  }

  lemma Half(x: nat, n: nat, a: Bit, rest: nat)
    requires Shr(x, n) == a + 2 * rest
    ensures Shr(x, n) % 2 == a && Shr(x, n + 1) == rest
  {
  }

  lemma ByteShows(mem: seq<Byte>, q: nat, p: nat, a: Bit, b: Bit, c: Bit, d: Bit, e: Bit, f: Bit, g: Bit, h: Bit)
    requires q < |mem| && p == 8 * q && mem[q] == Octal(a, b, c, d, e, f, g, h)
    ensures Shows(BitsOf(mem), p, a, b, c, d, e, f, g, h)
  {
    var x := mem[q];
    Half(x, 0, a, Octal(b, c, d, e, f, g, h, 0));
    Half(x, 1, b, Octal(c, d, e, f, g, h, 0, 0));
    Half(x, 2, c, Octal(d, e, f, g, h, 0, 0, 0));
    Half(x, 3, d, Octal(e, f, g, h, 0, 0, 0, 0));
    Half(x, 4, e, Octal(f, g, h, 0, 0, 0, 0, 0));
    Half(x, 5, f, Octal(g, h, 0, 0, 0, 0, 0, 0));
    Half(x, 6, g, Octal(h, 0, 0, 0, 0, 0, 0, 0));
    Half(x, 7, h, 0);
    BitOfByte(mem, q, 0);
    BitOfByte(mem, q, 1);
    BitOfByte(mem, q, 2);
    BitOfByte(mem, q, 3);
    BitOfByte(mem, q, 4);
    BitOfByte(mem, q, 5);
    BitOfByte(mem, q, 6);
    BitOfByte(mem, q, 7);
  }

  // ---- the fixed literal code ------------------------------------------------------------------

  lemma {:induction false} CountSame(lens: seq<nat>, len: nat, a: nat, b: nat)
    requires a <= b <= |lens| && forall i | a <= i < b :: lens[i] != len
    ensures Count(lens, len, b) == Count(lens, len, a)
  {
    if a < b { CountSame(lens, len, a, b - 1); }
  }

  lemma {:induction false} CountAll(lens: seq<nat>, len: nat, a: nat, b: nat)
    requires a <= b <= |lens| && forall i | a <= i < b :: lens[i] == len
    ensures Count(lens, len, b) == Count(lens, len, a) + (b - a)
  {
    if a < b { CountAll(lens, len, a, b - 1); }
  }

  ghost predicate Fixed(lit: seq<nat>) {
    && |lit| == 288
    && (forall i | 0 <= i < 144 :: lit[i] == 8)
    && (forall i | 144 <= i < 256 :: lit[i] == 9)
    && (forall i | 256 <= i < 280 :: lit[i] == 7)
    && (forall i | 280 <= i < 288 :: lit[i] == 8)
  }

  lemma FixedCounts(lit: seq<nat>, len: nat)
    requires Fixed(lit)
    ensures 0 < len < 7 ==> BlCount(lit, len) == 0
    ensures len == 7 ==> BlCount(lit, len) == 24
    ensures len == 8 ==> BlCount(lit, len) == 152
  {
    if 0 < len < 7 {
      CountSame(lit, len, 0, 288);
    } else if len == 7 {
      CountSame(lit, len, 0, 256);
      CountAll(lit, len, 256, 280);
      CountSame(lit, len, 280, 288);
    } else if len == 8 {
      CountAll(lit, len, 0, 144);
      CountSame(lit, len, 144, 280);
      CountAll(lit, len, 280, 288);
    }
  }

  lemma {:induction false} NoShortCodes(lit: seq<nat>, len: nat)
    requires Fixed(lit) && len <= 7
    ensures NextCode(lit, len) == 0
  {
    if len > 0 {
      NoShortCodes(lit, len - 1);
      FixedCounts(lit, len - 1);
    }
  }

  /** Literal 144 is 110010000, and the end of the block 0000000. */
  lemma {:induction false} FixedCodes(lit: seq<nat>, nine: nat)
    requires Fixed(lit) && nine == 9
    ensures Code(lit, 144) == 400 && Code(lit, 256) == 0
  {
    NoShortCodes(lit, nine - 2);
    FixedCounts(lit, nine - 2);
    FixedCounts(lit, nine - 1);
    assert NextCode(lit, nine - 1) == 48;
    assert NextCode(lit, nine) == 400;
    CountSame(lit, 9, 0, 144);
    CountSame(lit, 7, 0, 256);
  }

  ghost predicate LiteralBits(bits: seq<Bit>, p: nat) {
    && p + 9 <= |bits| && bits[p] == 1 && bits[p + 1] == 1 && bits[p + 2] == 0 && bits[p + 3] == 0 && bits[p + 4] == 1
    && bits[p + 5] == 0 && bits[p + 6] == 0 && bits[p + 7] == 0 && bits[p + 8] == 0
  }

  lemma LiteralNext(bits: seq<Bit>, lit: seq<nat>, p: nat)
    requires Fixed(lit) && LiteralBits(bits, p)
    ensures DecodeSymbol(lit, bits, p) == Got(144, p + 9)
  {
    FixedCodes(lit, 9);
    assert Msb(bits, p, 1) == 1;
    assert Msb(bits, p, 2) == 3;
    assert Msb(bits, p, 3) == 6;
    assert Msb(bits, p, 4) == 12;
    assert Msb(bits, p, 5) == 25;
    assert Msb(bits, p, 6) == 50;
    assert Msb(bits, p, 7) == 100;
    assert Msb(bits, p, 8) == 200;
    assert Msb(bits, p, 9) == 400;
    DecodeCode(lit, bits, p, 144);
  }

  lemma {:induction false} MsbZero(bits: seq<Bit>, p: nat, n: nat)
    requires p + n <= |bits| && forall i | p <= i < p + n :: bits[i] == 0
    ensures Msb(bits, p, n) == 0
  {
    if n > 0 { MsbZero(bits, p, n - 1); }
  }

  lemma EndNext(bits: seq<Bit>, lit: seq<nat>, p: nat)
    requires Fixed(lit) && p + 7 <= |bits| && forall i | p <= i < p + 7 :: bits[i] == 0
    ensures DecodeSymbol(lit, bits, p) == Got(256, p + 7)
  {
    FixedCodes(lit, 9);
    MsbZero(bits, p, 7);
    DecodeCode(lit, bits, p, 256);
  }

  // ---- three bytes are needed ------------------------------------------------------------------

  /** A final block with the fixed code: six literals and the end. */
  ghost predicate Six(mem: seq<Byte>) {
    && |mem| >= 8 && mem[0] == 155 && mem[1] == 48 && mem[2] == 97 && mem[3] == 194
    && mem[4] == 132 && mem[5] == 9 && mem[6] == 19 && mem[7] == 0
  }

  ghost predicate SixBits(bits: seq<Bit>) {
    && 64 <= |bits| && bits[0] == 1 && bits[1] == 1 && bits[2] == 0
    && (forall k | 0 <= k < 6 :: LiteralBits(bits, 3 + 9 * k))
    && (forall i | 57 <= i < 64 :: bits[i] == 0)
  }

  lemma {:induction false} SixStart(mem: seq<Byte>, bits: seq<Bit>)
    requires Six(mem) && bits == BitsOf(mem)
    ensures bits[0] == 1 && bits[1] == 1 && bits[2] == 0
    ensures LiteralBits(bits, 3) && LiteralBits(bits, 12) && LiteralBits(bits, 21)
  {
    ByteShows(mem, 0, 0, 1, 1, 0, 1, 1, 0, 0, 1);
    ByteShows(mem, 1, 8, 0, 0, 0, 0, 1, 1, 0, 0);
    ByteShows(mem, 2, 16, 1, 0, 0, 0, 0, 1, 1, 0);
    ByteShows(mem, 3, 24, 0, 1, 0, 0, 0, 0, 1, 1);
  }

  lemma {:induction false} SixEnd(mem: seq<Byte>, bits: seq<Bit>)
    requires Six(mem) && bits == BitsOf(mem)
    ensures LiteralBits(bits, 30) && LiteralBits(bits, 39) && LiteralBits(bits, 48)
    ensures Shows(bits, 56, 0, 0, 0, 0, 0, 0, 0, 0)
  {
    ByteShows(mem, 3, 24, 0, 1, 0, 0, 0, 0, 1, 1);
    ByteShows(mem, 4, 32, 0, 0, 1, 0, 0, 0, 0, 1);
    ByteShows(mem, 5, 40, 1, 0, 0, 1, 0, 0, 0, 0);
    ByteShows(mem, 6, 48, 1, 1, 0, 0, 1, 0, 0, 0);
    ByteShows(mem, 7, 56, 0, 0, 0, 0, 0, 0, 0, 0);
  }

  lemma {:induction false} SixTail(bits: seq<Bit>, i: nat)
    requires Shows(bits, 56, 0, 0, 0, 0, 0, 0, 0, 0) && 57 <= i < 64
    ensures bits[i] == 0
  {
    assert i == 57 || i == 58 || i == 59 || i == 60 || i == 61 || i == 62 || i == 63;
  }

  lemma {:induction false} SixAll(bits: seq<Bit>)
    requires 64 <= |bits| && bits[0] == 1 && bits[1] == 1 && bits[2] == 0
    requires LiteralBits(bits, 3) && LiteralBits(bits, 12) && LiteralBits(bits, 21)
    requires LiteralBits(bits, 30) && LiteralBits(bits, 39) && LiteralBits(bits, 48)
    requires Shows(bits, 56, 0, 0, 0, 0, 0, 0, 0, 0)
    ensures SixBits(bits)
  {
    forall k | 0 <= k < 6 ensures LiteralBits(bits, 3 + 9 * k) {
      assert k == 0 || k == 1 || k == 2 || k == 3 || k == 4 || k == 5;
    }
    forall i | 57 <= i < 64 ensures bits[i] == 0 { SixTail(bits, i); }
  }

  lemma {:induction false} SixShows(mem: seq<Byte>, bits: seq<Bit>)
    requires Six(mem) && bits == BitsOf(mem)
    ensures SixBits(bits)
  {
    SixStart(mem, bits);
    SixEnd(mem, bits);
    SixAll(bits);
  }

  /** Bytes loaded before the literal `k`. */
  function SixLoaded(k: nat): nat {
    if k <= 2 then 4 else if k <= 4 then 6 else 8
  }

  lemma SixLoads(k: nat, p: nat)
    requires k < 6 && p == 3 + 9 * k
    ensures Loaded(SixLoaded(k), p, WINDOW) == SixLoaded(k + 1)
  {
    assert k == 0 || k == 1 || k == 2 || k == 3 || k == 4 || k == 5;
  }

  lemma {:induction false} SixLast(bits: seq<Bit>, lit: seq<nat>, dist: seq<nat>, out: seq<Byte>, p: nat, s: Read<nat>)
    requires SixBits(bits) && Fixed(lit) && p == 57 && s == Got(256, 64)
    ensures AskCompressed(bits, lit, dist, p, |out|, 8) == 11
    ensures Compressed(bits, lit, dist, p, out) == Got(out, 64)
  {
    EndNext(bits, lit, p);
    AskLast(bits, lit, dist, p, |out|, 8, s);
  }

  lemma {:induction false} SixStep(bits: seq<Bit>, lit: seq<nat>, dist: seq<nat>, out: seq<Byte>, p: nat, e: nat,
                                   s: Read<nat>)
    requires LiteralBits(bits, p) && Fixed(lit) && s == Got(144, p + 9) && Fits(bits, Loaded(e, p, WINDOW))
    ensures AskCompressed(bits, lit, dist, p, |out|, e)
         == AskCompressed(bits, lit, dist, p + 9, |out| + 1, Loaded(e, p, WINDOW))
    ensures Compressed(bits, lit, dist, p, out) == Compressed(bits, lit, dist, p + 9, out + [144])
  {
    LiteralNext(bits, lit, p);
    AskLiteral(bits, lit, dist, p, |out|, e, s);
    StepLiteral(bits, lit, dist, p, out, s);
  }

  lemma {:induction false} SixLiterals(bits: seq<Bit>, lit: seq<nat>, dist: seq<nat>, out: seq<Byte>, k: nat, p: nat)
    requires SixBits(bits) && Fixed(lit) && |out| == k <= 6 && p == 3 + 9 * k
    ensures AskCompressed(bits, lit, dist, p, k, SixLoaded(k)) == 11
    ensures Compressed(bits, lit, dist, p, out).Got? && Compressed(bits, lit, dist, p, out).pos == 64
    decreases 6 - k
  {
    if k == 6 {
      SixLast(bits, lit, dist, out, p, Got(256, 64));
    } else {
      assert LiteralBits(bits, p) by { assert LiteralBits(bits, 3 + 9 * k); }
      SixLoads(k, p);
      SixStep(bits, lit, dist, out, p, SixLoaded(k), Got(144, p + 9));
      SixLiterals(bits, lit, dist, out + [144], k + 1, p + 9);
    }
  }

  lemma FixedIsFixed(lit: seq<nat>)
    requires lit == FixedLiterals()
    ensures Fixed(lit)
  {
  }

  /** The whole stream, of which 64 bits are read, has the decoder ask for eleven bytes. */
  lemma {:induction false} SixDecoded(bits: seq<Bit>, p: nat, out: seq<Byte>, e: nat, b: Read<seq<Byte>>, e2: nat)
    requires SixBits(bits) && p == 0 && out == [] && e == 0
    requires b == Block(bits, MAX_SYMBOLS, 1, p + 3, out)
    requires e2 == AskBlock(bits, 1, p + 3, |out|, AskHeader(bits, p, e))
    ensures AskInflate(bits, p, out, e) == 11
  {
    FixedIsFixed(FixedLiterals());
    SixLiterals(bits, FixedLiterals(), FixedDistances(), out, 0, p + 3);
    assert AskHeader(bits, p, e) == 4;
    OneBlock(bits, p, out, e, 1, 1, b, e2);
  }

  lemma {:induction false} SixInflates(bits: seq<Bit>, p: nat, out: seq<Byte>, b: Read<seq<Byte>>)
    requires SixBits(bits) && p == 0 && out == [] && b == Block(bits, MAX_LITERALS, 1, p + 3, out)
    ensures Inflate(bits, MAX_LITERALS, p, out).Got?
  {
    FixedIsFixed(FixedLiterals());
    SixLiterals(bits, FixedLiterals(), FixedDistances(), out, 0, p + 3);
    HeaderStep(bits, MAX_LITERALS, p, out, 1, 1);
  }

  lemma {:induction false} SixAlone(mem: seq<Byte>, p: nat, out: seq<Byte>, e: nat)
    requires Six(mem) && p == 0 && out == [] && e == 0
    ensures AskInflate(BitsOf(mem), p, out, e) == 11 && Inflate(BitsOf(mem), MAX_LITERALS, p, out).Got?
  {
    var bits := BitsOf(mem);
    SixShows(mem, bits);
    SixDecoded(bits, p, out, e, Block(bits, MAX_SYMBOLS, 1, p + 3, out),
               AskBlock(bits, 1, p + 3, |out|, AskHeader(bits, p, e)));
    SixInflates(bits, p, out, Block(bits, MAX_LITERALS, 1, p + 3, out));
  }

  /** Two bytes after a stream are not enough: this one, of eight bytes, is
      complete and well formed, and the decoder asks for eleven. */
  lemma {:induction false} TwoAreNotEnough() returns (s: seq<Byte>)
    ensures Inflate(BitsOf(s), MAX_LITERALS, 0, []).Got?
    ensures forall t: seq<Byte> | |t| < 3 :: AskInflate(BitsOf(s + t), 0, [], 0) == |s| + 3 > |s + t|
  {
    s := [155, 48, 97, 194, 132, 9, 19, 0];
    SixAlone(s, 0, [], 0);
    forall t: seq<Byte> | |t| < 3 ensures AskInflate(BitsOf(s + t), 0, [], 0) == |s| + 3 > |s + t| {
      SixAlone(s + t, 0, [], 0);
    }
  }

  // ---- 287 literal and length codes ----------------------------------------------------------------

  /** A code of two symbols. */
  ghost predicate Pair(lens: seq<nat>, a: nat, b: nat) {
    && ValidLens(lens) && a < b < |lens| && lens[a] == 1 && lens[b] == 1
    && forall i | 0 <= i < |lens| && i != a && i != b :: lens[i] == 0
  }

  lemma PairNext(lens: seq<nat>, a: nat, b: nat, bits: seq<Bit>, p: nat)
    requires Pair(lens, a, b) && p < |bits|
    ensures DecodeSymbol(lens, bits, p) == Got(if bits[p] == 0 then a else b, p + 1)
  {
    CountSame(lens, 1, 0, a);
    CountAll(lens, 1, a, a + 1);
    CountSame(lens, 1, a + 1, b);
    assert NextCode(lens, 0) == 0 && BlCount(lens, 0) == 0;
    assert NextCode(lens, 1) == 0;
    assert Code(lens, a) == 0 && Code(lens, b) == 1;
    assert Msb(bits, p, 1) == bits[p];
    DecodeCode(lens, bits, p, if bits[p] == 0 then a else b);
  }

  lemma {:induction false} ShareSame(lens: seq<nat>, a: nat, b: nat)
    requires a <= b <= |lens| && forall i | a <= i < b :: lens[i] == 0
    ensures Share(lens, b) == Share(lens, a)
  {
    if a < b { ShareSame(lens, a, b - 1); }
  }

  lemma {:induction false} PairShare(lens: seq<nat>, a: nat, b: nat, half: nat)
    requires Pair(lens, a, b) && half == Pow2(MAX_BITS - 1)
    ensures Share(lens, |lens|) == 2 * half
  {
    ShareSame(lens, 0, a);
    ShareSame(lens, a + 1, b);
    ShareSame(lens, b + 1, |lens|);
    assert Share(lens, a + 1) == half;
    assert Share(lens, b + 1) == half + half;
  }

  lemma {:induction false} PairKraft(lens: seq<nat>, a: nat, b: nat, n: nat)
    requires Pair(lens, a, b) && n + 1 == MAX_BITS
    ensures Kraft(lens)
  {
    PairShare(lens, a, b, Pow2(n));
    assert Pow2(n + 1) == 2 * Pow2(n);
  }

  /** The header bits and the run-length coded lengths. */
  ghost predicate StretchBits(bits: seq<Bit>) {
    && 104 <= |bits|
    && Shows(bits, 0, 1, 0, 1, 0, 1, 1, 1, 1)
    && Shows(bits, 8, 0, 0, 0, 0, 0, 0, 1, 1)
    && Shows(bits, 72, 1, 1, 1, 1, 1, 1, 1, 1)
    && Shows(bits, 80, 1, 0, 1, 0, 1, 0, 1, 1)
    && Shows(bits, 88, 0, 1, 0, 0, 1, 0, 1, 0)
    && Shows(bits, 96, 0, 1, 0, 0, 0, 0, 0, 0)
    && bits[16] == 1 && bits[71] == 0
    && forall k | 17 <= k < 71 :: bits[k] == if k == 23 || k == 68 then 1 else 0
  }

  lemma Lsb3(bits: seq<Bit>, p: nat)
    requires p + 3 <= |bits|
    ensures Lsb(bits, p, 3) == Octal(bits[p], bits[p + 1], bits[p + 2], 0, 0, 0, 0, 0)
  {
    assert Lsb(bits, p + 2, 1) == bits[p + 2];
    assert Lsb(bits, p + 1, 2) == Octal(bits[p + 1], bits[p + 2], 0, 0, 0, 0, 0, 0);
  }

  lemma Lsb5(bits: seq<Bit>, p: nat)
    requires p + 5 <= |bits|
    ensures Lsb(bits, p, 5) == Octal(bits[p], bits[p + 1], bits[p + 2], bits[p + 3], bits[p + 4], 0, 0, 0)
  {
    Lsb3(bits, p + 2);
    assert Lsb(bits, p + 1, 4) == bits[p + 1] + 2 * Lsb(bits, p + 2, 3);
  }

  lemma Lsb7(bits: seq<Bit>, p: nat)
    requires p + 7 <= |bits|
    ensures Lsb(bits, p, 7) == bits[p] + 2 * (bits[p + 1] + 2 * Lsb(bits, p + 2, 5))
  {
    assert Lsb(bits, p + 1, 6) == bits[p + 1] + 2 * Lsb(bits, p + 2, 5);
  }

  /** The lengths for the code length alphabet after `n` of them. */
  ghost predicate StretchSizes(lens: seq<nat>, n: nat) {
    |lens| == 19 && forall i | 0 <= i < 19 :: lens[i] == if (i == 18 && n > 2) || (i == 1 && n > 17) then 1 else 0
  }

  lemma ClenOrderAt(i: nat)
    requires i < 19
    ensures (ClenOrder(i) == 18 <==> i == 2) && (ClenOrder(i) == 1 <==> i == 17)
  {
  }

  lemma {:induction false} StretchClens(bits: seq<Bit>, n: nat)
    requires StretchBits(bits) && n <= 18
    ensures CodeLengthLens(bits, 17, n).Got? && CodeLengthLens(bits, 17, n).pos == 17 + 3 * n
    ensures StretchSizes(CodeLengthLens(bits, 17, n).value, n)
  {
    if n > 0 {
      StretchClens(bits, n - 1);
      Lsb3(bits, 17 + 3 * (n - 1));
      ClenOrderAt(n - 1);
    }
  }

  /** Lengths 1 for symbols 0 and 256 and 0 for all others. */
  ghost predicate Marked(lens: seq<nat>) {
    forall i | 0 <= i < |lens| :: lens[i] == if i == 0 || i == 256 then 1 else 0
  }

  /** A single length 1 follows. */
  lemma {:induction false} StretchOne(bits: seq<Bit>, clens: seq<nat>, p: nat, total: nat, lens: seq<nat>, c: Read<nat>)
    requires p < |bits| && Pair(clens, 1, 18) && bits[p] == 0 && c == Got(1, p + 1)
    requires |lens| < total && Marked(lens) && LensOk(lens) && (|lens| == 0 || |lens| == 256)
    ensures Marked(lens + [1]) && LensOk(lens + [1])
    ensures AllLens(bits, clens, p, total, lens) == AllLens(bits, clens, p + 1, total, lens + [1])
  {
    PairNext(clens, 1, 18, bits, p);
  }

  /** A run of zeros follows. */
  lemma {:induction false} StretchZeros(bits: seq<Bit>, clens: seq<nat>, p: nat, total: nat, lens: seq<nat>,
                                        c: Read<nat>, n: nat, zeros: seq<nat>)
    requires p + 8 <= |bits| && Pair(clens, 1, 18) && bits[p] == 1 && c == Got(18, p + 1)
    requires n == Lsb(bits, p + 1, 7) + 11 && zeros == Repeat(0, n) && |lens| + n <= total
    requires LensOk(lens)
    ensures LensOk(lens + zeros)
    ensures AllLens(bits, clens, p, total, lens) == AllLens(bits, clens, p + 8, total, lens + zeros)
  {
    PairNext(clens, 1, 18, bits, p);
  }

  /** The counts: 287 literal and length codes, one distance code, 18 lengths sent. */
  lemma {:induction false} StretchCounts(bits: seq<Bit>, p: nat)
    requires StretchBits(bits) && p == 3
    ensures CountsAt(bits, p) == Counts(287, 1, 18)
  {
    Lsb5(bits, p);
    Lsb5(bits, p + 5);
    Lsb3(bits, p + 11);
    assert Lsb(bits, p + 10, 4) == bits[p + 10] + 2 * Lsb(bits, p + 11, 3);
  }

  /** How long the three runs of zeros are. */
  lemma {:induction false} StretchRuns(bits: seq<Bit>, p: nat)
    requires StretchBits(bits) && p == 72
    ensures Lsb(bits, p + 1, 7) == 127 && Lsb(bits, p + 9, 7) == 106 && Lsb(bits, p + 18, 7) == 20
  {
    Lsb7(bits, p + 1);
    Lsb5(bits, p + 3);
    Lsb7(bits, p + 9);
    Lsb5(bits, p + 11);
    Lsb7(bits, p + 18);
    Lsb5(bits, p + 20);
  }

  lemma {:induction false} StretchLens(bits: seq<Bit>, clens: seq<nat>, p: nat, total: nat, none: seq<nat>)
    returns (lens: seq<nat>)
    requires StretchBits(bits) && Pair(clens, 1, 18) && p == 71 && total == 288 && none == []
    ensures |lens| == total && Marked(lens) && LensOk(lens)
    ensures AllLens(bits, clens, p, total, none) == Got(lens, p + 26)
  {
    StretchRuns(bits, p + 1);
    StretchOne(bits, clens, p, total, none, Got(1, p + 1));
    var a := none + [1];
    StretchZeros(bits, clens, p + 1, total, a, Got(18, p + 2), 138, Repeat(0, 138));
    var b := a + Repeat(0, 138);
    StretchZeros(bits, clens, p + 9, total, b, Got(18, p + 10), 117, Repeat(0, 117));
    var c := b + Repeat(0, 117);
    StretchOne(bits, clens, p + 17, total, c, Got(1, p + 18));
    var d := c + [1];
    StretchZeros(bits, clens, p + 18, total, d, Got(18, p + 19), 31, Repeat(0, 31));
    lens := d + Repeat(0, 31);
  }

  /** The code lengths of both codes. */
  lemma {:induction false} StretchDynamic(bits: seq<Bit>, p: nat, h: Counts) returns (lens: seq<nat>)
    requires StretchBits(bits) && p == 17 && h == Counts(287, 1, 18)
    ensures |lens| == 288 && Marked(lens) && LensOk(lens) && DynamicLens(bits, p, h) == Got(lens, 97)
  {
    StretchClens(bits, 18);
    var c := CodeLengthLens(bits, 17, 18);
    assert Pair(c.value, 1, 18);
    PairKraft(c.value, 1, 18, 14);
    lens := StretchLens(bits, c.value, c.pos, 288, []);
  }

  lemma {:induction false} StretchCodes(bits: seq<Bit>, p: nat, lens: seq<nat>, lit: seq<nat>, dist: seq<nat>)
    requires StretchBits(bits) && p == 3 && |lens| == 288 && Marked(lens) && LensOk(lens)
    requires DynamicLens(bits, p + 14, Counts(287, 1, 18)) == Got(lens, 97) && lit == lens[..287] && dist == lens[287..]
    ensures Pair(lit, 0, 256) && DynamicCodes(bits, MAX_SYMBOLS, p) == Got(Codes(lit, dist), 97)
  {
    StretchCounts(bits, p);
    CodesAtStep(bits, MAX_SYMBOLS, p, Counts(287, 1, 18), Got(lens, 97));
    PairKraft(lit, 0, 256, 14);
    ShareSame(dist, 0, 1);
  }

  /** The block has no data but its end. */
  lemma {:induction false} StretchEnd(bits: seq<Bit>, lit: seq<nat>, dist: seq<nat>, p: nat, out: seq<Byte>)
    requires StretchBits(bits) && Pair(lit, 0, 256) && p == 97
    ensures Compressed(bits, lit, dist, p, out) == Got(out, 98)
  {
    PairNext(lit, 0, 256, bits, p);
  }

  lemma {:induction false} StretchBlock(bits: seq<Bit>, p: nat, out: seq<Byte>)
    requires StretchBits(bits) && p == 3
    ensures Block(bits, MAX_SYMBOLS, 2, p, out) == Got(out, 98)
  {
    var lens := StretchDynamic(bits, p + 14, Counts(287, 1, 18));
    StretchCodes(bits, p, lens, lens[..287], lens[287..]);
    StretchEnd(bits, lens[..287], lens[287..], 97, out);
  }

  lemma {:induction false} StretchHeader(bits: seq<Bit>, p: nat)
    requires StretchBits(bits) && p == 0
    ensures Lsb(bits, p, 1) == 1 && Lsb(bits, p + 1, 2) == 2
  {
    assert Lsb(bits, p + 2, 1) == bits[p + 2];
  }

  lemma {:induction false} StretchInflates(bits: seq<Bit>, p: nat, out: seq<Byte>, final: nat, btype: nat)
    requires StretchBits(bits) && p == 0 && final == Lsb(bits, p, 1) == 1 && btype == Lsb(bits, p + 1, 2) == 2
    ensures Oversized(bits, p, out) && Inflate(bits, MAX_SYMBOLS, p, out) == Got(out, 98)
  {
    StretchCounts(bits, p + 3);
    StretchBlock(bits, p + 3, out);
    HeaderStep(bits, MAX_SYMBOLS, p, out, final, btype);
  }

  ghost predicate Stretch(mem: seq<Byte>) {
    && |mem| == 13 && mem[0] == 245 && mem[1] == 192 && mem[2] == 129 && mem[3] == 0 && mem[4] == 0 && mem[5] == 0
    && mem[6] == 0 && mem[7] == 0 && mem[8] == 16 && mem[9] == 255 && mem[10] == 213 && mem[11] == 82 && mem[12] == 2
  }

  ghost predicate Blank(bits: seq<Bit>, p: nat) {
    Shows(bits, p, 0, 0, 0, 0, 0, 0, 0, 0)
  }

  lemma BlankAt(bits: seq<Bit>, p: nat, k: nat)
    requires Blank(bits, p) && p <= k < p + 8
    ensures bits[k] == 0
  {
    assert k == p || k == p + 1 || k == p + 2 || k == p + 3 || k == p + 4 || k == p + 5 || k == p + 6 || k == p + 7;
  }

  lemma StretchSize(bits: seq<Bit>, k: nat)
    requires Shows(bits, 16, 1, 0, 0, 0, 0, 0, 0, 1) && Shows(bits, 64, 0, 0, 0, 0, 1, 0, 0, 0)
    requires Blank(bits, 24) && Blank(bits, 32) && Blank(bits, 40) && Blank(bits, 48) && Blank(bits, 56)
    requires 17 <= k < 71
    ensures bits[k] == if k == 23 || k == 68 then 1 else 0
  {
    if k < 24 {
      assert k == 17 || k == 18 || k == 19 || k == 20 || k == 21 || k == 22 || k == 23;
    } else if k < 64 {
      BlankAt(bits, if k < 32 then 24 else if k < 40 then 32 else if k < 48 then 40 else if k < 56 then 48 else 56, k);
    } else {
      assert k == 64 || k == 65 || k == 66 || k == 67 || k == 68 || k == 69 || k == 70;
    }
  }

  lemma BlankByte(mem: seq<Byte>, q: nat, p: nat)
    requires q < |mem| && mem[q] == 0 && p == 8 * q
    ensures Blank(BitsOf(mem), p)
  {
    ByteShows(mem, q, p, 0, 0, 0, 0, 0, 0, 0, 0);
  }

  lemma {:induction false} StretchMiddle(mem: seq<Byte>, bits: seq<Bit>)
    requires Stretch(mem) && bits == BitsOf(mem)
    ensures Shows(bits, 16, 1, 0, 0, 0, 0, 0, 0, 1) && Shows(bits, 64, 0, 0, 0, 0, 1, 0, 0, 0)
    ensures Blank(bits, 24) && Blank(bits, 32) && Blank(bits, 40) && Blank(bits, 48) && Blank(bits, 56)
  {
    ByteShows(mem, 2, 16, 1, 0, 0, 0, 0, 0, 0, 1);
    BlankByte(mem, 3, 24);
    BlankByte(mem, 4, 32);
    BlankByte(mem, 5, 40);
    BlankByte(mem, 6, 48);
    BlankByte(mem, 7, 56);
    ByteShows(mem, 8, 64, 0, 0, 0, 0, 1, 0, 0, 0);
  }

  lemma {:induction false} StretchEnds(mem: seq<Byte>, bits: seq<Bit>)
    requires Stretch(mem) && bits == BitsOf(mem)
    ensures Shows(bits, 0, 1, 0, 1, 0, 1, 1, 1, 1) && Shows(bits, 8, 0, 0, 0, 0, 0, 0, 1, 1)
    ensures Shows(bits, 72, 1, 1, 1, 1, 1, 1, 1, 1) && Shows(bits, 80, 1, 0, 1, 0, 1, 0, 1, 1)
    ensures Shows(bits, 88, 0, 1, 0, 0, 1, 0, 1, 0) && Shows(bits, 96, 0, 1, 0, 0, 0, 0, 0, 0)
  {
    ByteShows(mem, 0, 0, 1, 0, 1, 0, 1, 1, 1, 1);
    ByteShows(mem, 1, 8, 0, 0, 0, 0, 0, 0, 1, 1);
    ByteShows(mem, 9, 72, 1, 1, 1, 1, 1, 1, 1, 1);
    ByteShows(mem, 10, 80, 1, 0, 1, 0, 1, 0, 1, 1);
    ByteShows(mem, 11, 88, 0, 1, 0, 0, 1, 0, 1, 0);
    ByteShows(mem, 12, 96, 0, 1, 0, 0, 0, 0, 0, 0);
  }

  lemma {:induction false} StretchShows(bits: seq<Bit>)
    requires Shows(bits, 16, 1, 0, 0, 0, 0, 0, 0, 1) && Shows(bits, 64, 0, 0, 0, 0, 1, 0, 0, 0)
    requires Blank(bits, 24) && Blank(bits, 32) && Blank(bits, 40) && Blank(bits, 48) && Blank(bits, 56)
    requires Shows(bits, 0, 1, 0, 1, 0, 1, 1, 1, 1) && Shows(bits, 8, 0, 0, 0, 0, 0, 0, 1, 1)
    requires Shows(bits, 72, 1, 1, 1, 1, 1, 1, 1, 1) && Shows(bits, 80, 1, 0, 1, 0, 1, 0, 1, 1)
    requires Shows(bits, 88, 0, 1, 0, 0, 1, 0, 1, 0) && Shows(bits, 96, 0, 1, 0, 0, 0, 0, 0, 0)
    ensures StretchBits(bits)
  {
    forall k | 17 <= k < 71 ensures bits[k] == if k == 23 || k == 68 then 1 else 0 { StretchSize(bits, k); }
  }

  lemma {:induction false} StretchAlone(mem: seq<Byte>, bits: seq<Bit>, p: nat, out: seq<Byte>)
    requires Stretch(mem) && bits == BitsOf(mem) && p == 0 && out == []
    ensures Oversized(bits, p, out) && Inflate(bits, MAX_SYMBOLS, p, out) == Got(out, 98)
  {
    StretchMiddle(mem, bits);
    StretchEnds(mem, bits);
    StretchShows(bits);
    StretchHeader(bits, p);
    StretchInflates(bits, p, out, 1, 2);
  }

  /** A stream with 287 literal and length codes, which RFC 1951 refuses, is
      decoded, to nothing, by a reading without the check. */
  lemma {:induction false} AcceptsOversized() returns (s: seq<Byte>)
    ensures Oversized(BitsOf(s), 0, []) && Inflate(BitsOf(s), MAX_LITERALS, 0, []).Malformed?
    ensures Inflate(BitsOf(s), MAX_SYMBOLS, 0, []) == Got([], 98)
  {
    s := [245, 192, 129, 0, 0, 0, 0, 0, 16, 255, 213, 82, 2];
    StretchAlone(s, BitsOf(s), 0, []);
    AgreesIff(BitsOf(s), 0, []);
  }
}
