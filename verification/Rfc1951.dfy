/** RFC 1951 (DEFLATE), sections 3.2.3 to 3.2.7, as functions on a bit stream.
    This is the plain definition the kernel's decoder is measured against. */
module Rfc1951 {
  import opened BitMath
  import opened Canonical

  /** An `n`-bit data element. */
  function Number(bits: seq<Bit>, p: nat, n: nat): (r: Read<nat>)
    ensures r.Got? ==> r.pos == p + n <= |bits|
    ensures !r.Malformed?
  {
    if p + n <= |bits| then Got(Lsb(bits, p, n), p + n) else Truncated
  }

  // ---- section 3.2.5: lengths and distances -----------------------------------

  /** Extra bits of length symbol 257 + z. */
  function LengthExtra(z: nat): nat {
    if z < 8 || z == 28 then 0 else (z - 4) / 4
  }

  /** Each length symbol starts where the previous one's extra bits end, and
      the last one stands for the longest match. */
  function LengthBase(z: nat): nat {
    if z == 0 then 3 else if z == 28 then 258 else LengthBase(z - 1) + Pow2(LengthExtra(z - 1))
  }

  function DistExtra(d: nat): nat {
    if d < 4 then 0 else (d - 2) / 2
  }

  function DistBase(d: nat): (r: nat)
    ensures r >= 1
  {
    if d == 0 then 1 else DistBase(d - 1) + Pow2(DistExtra(d - 1))
  }

  /** Move `len` bytes forward from `dist` back; the source may overlap the
      bytes being written. */
  function CopyBack(out: seq<Byte>, len: nat, dist: nat): (r: seq<Byte>)
    requires 1 <= dist <= |out|
    ensures |r| == |out| + len
    decreases len
  {
    if len == 0 then out else CopyBack(out + [out[|out| - dist]], len - 1, dist)
  }

  /** Closed form: the copy repeats the last `dist` bytes periodically. */
  lemma {:induction false} CopyBackPrefix(out: seq<Byte>, len: nat, dist: nat)
    requires 1 <= dist <= |out|
    ensures CopyBack(out, len, dist)[..|out|] == out
    decreases len
  {
    if len != 0 {
      var next := out + [out[|out| - dist]];
      CopyBackPrefix(next, len - 1, dist);
      assert CopyBack(out, len, dist)[..|out|] == CopyBack(next, len - 1, dist)[..|next|][..|out|];
    }
  }

  lemma {:induction false} CopyBackPeriodic(out: seq<Byte>, len: nat, dist: nat, i: nat)
    requires 1 <= dist <= |out| && i < len
    ensures CopyBack(out, len, dist)[|out| + i] == out[|out| - dist + i % dist]
    decreases len
  {
    var next := out + [out[|out| - dist]];
    if i == 0 {
      CopyBackPrefix(next, len - 1, dist);
      assert CopyBack(next, len - 1, dist)[|out|] == CopyBack(next, len - 1, dist)[..|next|][|out|];
    } else {
      CopyBackPeriodic(next, len - 1, dist, i - 1);
      ModStep(i - 1, dist);
    }
  }

  lemma ModStep(i: nat, d: nat)
    requires d > 0
    ensures (i + 1) % d == if i % d == d - 1 then 0 else i % d + 1
  {
    var q, r := i / d, i % d;
    MulAdd(q, 1, d);
    if r == d - 1 {
      assert i + 1 == (q + 1) * d + 0;
      DivModUnique(q + 1, d, 0);
    } else {
      assert i + 1 == q * d + (r + 1);
      DivModUnique(q, d, r + 1);
    }
  }

  // ---- section 3.2.3: compressed data ------------------------------------------

  /** Literals and matches up to the end-of-block symbol. */
  function Compressed(bits: seq<Bit>, lit: seq<nat>, dist: seq<nat>, p: nat, out: seq<Byte>): (r: Read<seq<Byte>>)
    requires p <= |bits|
    ensures r.Got? ==> p < r.pos <= |bits|
    ensures r.Malformed? ==> p <= r.pos <= |bits|
    decreases |bits| - p
  {
    var s := DecodeSymbol(lit, bits, p);
    if s.Malformed? then Malformed(s.pos)
    else if s.Truncated? then Truncated
    else if s.value < 256 then Compressed(bits, lit, dist, s.pos, out + [s.value])
    else if s.value == 256 then Got(out, s.pos)
    else if s.value >= 286 then Malformed(s.pos)
    else
      var m := MatchAt(bits, dist, s.pos, s.value - 257, |out|);
      if m.Malformed? then Malformed(m.pos)
      else if m.Truncated? then Truncated
      else Compressed(bits, lit, dist, m.pos, CopyBack(out, m.value.len, m.value.dist))
  }

  datatype Match = Match(len: nat, dist: nat)

  /** A match after its length symbol, reaching back into `size` bytes. */
  function MatchAt(bits: seq<Bit>, dist: seq<nat>, p: nat, z: nat, size: nat): (r: Read<Match>)
    requires p <= |bits| && z < 29
    ensures r.Got? ==> p <= r.pos <= |bits| && 1 <= r.value.dist <= size
    ensures r.Malformed? ==> p <= r.pos <= |bits|
  {
    var l := MatchLength(bits, p, z);
    if l.Truncated? then Truncated
    else
      var d := MatchDistance(bits, dist, l.pos);
      if d.Malformed? then Malformed(d.pos)
      else if d.Truncated? then Truncated
      else if d.value > size then Malformed(d.pos)
      else Got(Match(l.value, d.value), d.pos)
  }

  /** One literal. */
  lemma {:induction false} StepLiteral(bits: seq<Bit>, lit: seq<nat>, dist: seq<nat>, p: nat, out: seq<Byte>,
                                       s: Read<nat>)
    requires p <= |bits| && s == DecodeSymbol(lit, bits, p) && s.Got? && s.value < 256
    ensures Compressed(bits, lit, dist, p, out) == Compressed(bits, lit, dist, s.pos, out + [s.value])
  {
  }

  /** One match. */
  lemma {:induction false} StepMatch(bits: seq<Bit>, lit: seq<nat>, dist: seq<nat>, p: nat, out: seq<Byte>,
                                     s: Read<nat>, m: Read<Match>)
    requires p <= |bits| && s == DecodeSymbol(lit, bits, p) && s.Got? && 256 < s.value < 286
    requires m == MatchAt(bits, dist, s.pos, s.value - 257, |out|)
    ensures m.Got? ==>
              Compressed(bits, lit, dist, p, out)
              == Compressed(bits, lit, dist, m.pos, CopyBack(out, m.value.len, m.value.dist))
    ensures m.Malformed? ==> Compressed(bits, lit, dist, p, out) == Malformed(m.pos)
    ensures m.Truncated? ==> Compressed(bits, lit, dist, p, out).Truncated?
  {
  }

  function MatchLength(bits: seq<Bit>, p: nat, z: nat): (r: Read<nat>)
    requires p <= |bits| && z < 29
    ensures r.Got? ==> p <= r.pos <= |bits|
    ensures !r.Malformed?
  {
    var x := Number(bits, p, LengthExtra(z));
    if x.Got? then Got(LengthBase(z) + x.value, x.pos) else Truncated
  }

  function MatchDistance(bits: seq<Bit>, dist: seq<nat>, p: nat): (r: Read<nat>)
    requires p <= |bits|
    ensures r.Got? ==> p <= r.pos <= |bits| && 1 <= r.value
    ensures r.Malformed? ==> p <= r.pos <= |bits|
  {
    var s := DecodeSymbol(dist, bits, p);
    if s.Malformed? then Malformed(s.pos)
    else if s.Truncated? then Truncated
    else if s.value >= 30 then Malformed(s.pos)
    else
      var y := Number(bits, s.pos, DistExtra(s.value));
      if y.Got? then Got(DistBase(s.value) + y.value, y.pos) else Truncated
  }

  // ---- section 3.2.4: stored data ----------------------------------------------

  function Align(p: nat): (q: nat)
    ensures p <= q < p + 8 && q % 8 == 0
  {
    (p + 7) / 8 * 8
  }

  function BytesAt(bits: seq<Bit>, p: nat, len: nat): (r: seq<Byte>)
    requires p + 8 * len <= |bits|
    ensures |r| == len
    decreases len
  {
    if len == 0 then []
    else
      Pow2Eight();
      [Lsb(bits, p, 8)] + BytesAt(bits, p + 8, len - 1)
  }

  function Stored(bits: seq<Bit>, p: nat, out: seq<Byte>): (r: Read<seq<Byte>>)
    requires p <= |bits|
    ensures r.Got? ==> p < r.pos <= |bits|
    ensures r.Malformed? ==> p <= r.pos <= |bits|
  {
    var q := Align(p);
    if q + 32 > |bits| then Truncated
    else
      var len, nlen := Lsb(bits, q, 16), Lsb(bits, q + 16, 16);
      if len + nlen != 0xFFFF then Malformed(q + 32)
      else if q + 32 + 8 * len > |bits| then Truncated
      else Got(out + BytesAt(bits, q + 32, len), q + 32 + 8 * len)
  }

  // ---- section 3.2.6: fixed codes ------------------------------------------------

  function FixedLiterals(): (lens: seq<nat>)
    ensures ValidLens(lens) && |lens| == 288
  {
    seq(288, i => if i <= 143 then 8 else if i <= 255 then 9 else if i <= 279 then 7 else 8)
  }

  function FixedDistances(): (lens: seq<nat>)
    ensures ValidLens(lens) && |lens| == 32
  {
    seq(32, _ => 5)
  }

  // ---- section 3.2.7: dynamic codes ----------------------------------------------

  /** The order in which the lengths for the code length alphabet are sent:
      the repeat codes, length 0, and then the lengths from 8 outwards. */
  function ClenOrder(i: nat): (r: nat)
    requires i < 19
    ensures r < 19
  {
    if i < 3 then 16 + i else if i == 3 then 0 else if i % 2 == 0 then 8 + (i - 4) / 2 else 8 - (i - 3) / 2
  }

  predicate ShortLens(lens: seq<nat>) {
    |lens| == 19 && forall k | 0 <= k < 19 :: lens[k] < 8
  }

  /** The code lengths for the code length alphabet, `n` of them sent. */
  function CodeLengthLens(bits: seq<Bit>, p: nat, n: nat): (r: Read<seq<nat>>)
    requires p <= |bits| && n <= 19
    ensures r.Got? ==> p <= r.pos <= |bits| && ShortLens(r.value)
    ensures !r.Malformed?
  {
    if n == 0 then Got(Repeat(0, 19), p)
    else
      var lens := CodeLengthLens(bits, p, n - 1);
      if !lens.Got? || !Number(bits, lens.pos, 3).Got? then Truncated
      else
        ThreeBits();
        var x := Number(bits, lens.pos, 3);
        Got(lens.value[ClenOrder(n - 1) := x.value], x.pos)
  }

  lemma {:induction false} CodeLengthLensPos(bits: seq<Bit>, p: nat, n: nat)
    requires p <= |bits| && n <= 19
    ensures CodeLengthLens(bits, p, n).Got? <==> p + 3 * n <= |bits|
    ensures CodeLengthLens(bits, p, n).Got? ==> CodeLengthLens(bits, p, n).pos == p + 3 * n
  {
    if n != 0 { CodeLengthLensPos(bits, p, n - 1); }
  }

  lemma ThreeBits()
    ensures Pow2(3) == 8
  {
  }

  function Repeat(x: nat, n: nat): (r: seq<nat>)
    ensures |r| == n && forall i | 0 <= i < n :: r[i] == x
  {
    seq(n, _ => x)
  }

  predicate LensOk(lens: seq<nat>) {
    forall i | 0 <= i < |lens| :: lens[i] <= MAX_BITS
  }

  /** The run-length coded literal/length and distance code lengths. */
  function AllLens(bits: seq<Bit>, clens: seq<nat>, p: nat, total: nat, lens: seq<nat>): (r: Read<seq<nat>>)
    requires p <= |bits| && |lens| <= total && LensOk(lens)
    ensures r.Got? ==> p <= r.pos <= |bits| && |r.value| == total && LensOk(r.value)
    ensures r.Malformed? ==> p <= r.pos <= |bits|
    decreases |bits| - p
  {
    if |lens| == total then Got(lens, p)
    else
      var c := DecodeSymbol(clens, bits, p);
      if c.Malformed? then Malformed(c.pos)
      else if c.Truncated? then Truncated
      else if c.value >= 19 then Malformed(c.pos)
      else if c.value < 16 then AllLens(bits, clens, c.pos, total, lens + [c.value])
      else
        var n := Number(bits, c.pos, RepeatBits(c.value));
        if !n.Got? then Truncated
        else if c.value == 16 && lens == [] then Malformed(n.pos)
        else
          var count := n.value + RepeatBase(c.value);
          if total - |lens| < count then Malformed(n.pos)
          else AllLens(bits, clens, n.pos, total,
                       lens + Repeat(if c.value == 16 then lens[|lens| - 1] else 0, count))
  }

  /** One repeat code. */
  lemma {:induction false} StepRepeat(bits: seq<Bit>, clens: seq<nat>, p: nat, total: nat, lens: seq<nat>,
                                      c: Read<nat>, n: Read<nat>, count: nat, next: seq<nat>)
    requires p <= |bits| && |lens| < total && LensOk(lens) && c == DecodeSymbol(clens, bits, p) && c.Got?
    requires 16 <= c.value < 19 && (c.value == 16 ==> lens != [])
    requires n == Number(bits, c.pos, RepeatBits(c.value)) && n.Got? && count == n.value + RepeatBase(c.value)
    requires |lens| + count <= total && next == lens + Repeat(if c.value == 16 then lens[|lens| - 1] else 0, count)
    ensures LensOk(next) && AllLens(bits, clens, p, total, lens) == AllLens(bits, clens, n.pos, total, next)
  {
  }

  function RepeatBits(c: nat): nat {
    if c == 16 then 2 else if c == 17 then 3 else 7
  }

  function RepeatBase(c: nat): nat {
    if c == 18 then 11 else 3
  }

  datatype Codes = Codes(literals: seq<nat>, distances: seq<nat>)

  predicate Kraft(lens: seq<nat>) {
    Share(lens, |lens|) <= Pow2(MAX_BITS)
  }

  datatype Counts = Counts(hlit: nat, hdist: nat, hclen: nat)

  function CountsAt(bits: seq<Bit>, p: nat): (h: Counts)
    requires p + 14 <= |bits|
    ensures 257 <= h.hlit <= MAX_SYMBOLS && 1 <= h.hdist <= MAX_SYMBOLS && 4 <= h.hclen <= 19
  {
    HeaderBits();
    Counts(Lsb(bits, p, 5) + 257, Lsb(bits, p + 5, 5) + 1, Lsb(bits, p + 10, 4) + 4)
  }

  /** All code lengths, after the three counts. */
  function DynamicLens(bits: seq<Bit>, p: nat, h: Counts): (r: Read<seq<nat>>)
    requires p <= |bits| && h.hlit <= MAX_SYMBOLS && h.hdist <= MAX_SYMBOLS && h.hclen <= 19
    ensures r.Got? ==> p <= r.pos <= |bits| && |r.value| == h.hlit + h.hdist && LensOk(r.value)
    ensures r.Malformed? ==> p <= r.pos <= |bits|
  {
    var c := CodeLengthLens(bits, p, h.hclen);
    if !c.Got? then Truncated else LensFrom(bits, c.value, c.pos, h.hlit + h.hdist)
  }

  lemma {:induction false} DynamicLensStep(bits: seq<Bit>, p: nat, h: Counts, c: Read<seq<nat>>, a: Read<seq<nat>>)
    requires p <= |bits| && h.hlit <= MAX_SYMBOLS && h.hdist <= MAX_SYMBOLS && h.hclen <= 19
    requires c == CodeLengthLens(bits, p, h.hclen) && c.Got? && Kraft(c.value)
    requires a == AllLens(bits, c.value, c.pos, h.hlit + h.hdist, [])
    ensures DynamicLens(bits, p, h) == a
  {
  }

  function LensFrom(bits: seq<Bit>, clens: seq<nat>, p: nat, total: nat): (r: Read<seq<nat>>)
    requires p <= |bits|
    ensures r.Got? ==> p <= r.pos <= |bits| && |r.value| == total && LensOk(r.value)
    ensures r.Malformed? ==> p <= r.pos <= |bits|
  {
    if !Kraft(clens) then Malformed(p) else AllLens(bits, clens, p, total, [])
  }

  /** How many literal and length codes a block may have: HLIT counts 257 to 286. */
  const MAX_LITERALS: nat := 286

  /** The code lengths of the two codes of a block that may have up to `most`
      literal and length codes. */
  function CodesAt(bits: seq<Bit>, most: nat, p: nat): (r: Read<Codes>)
    requires p <= |bits|
    ensures r.Got? ==> p <= r.pos <= |bits| && ValidLens(r.value.literals) && ValidLens(r.value.distances)
    ensures r.Malformed? ==> p <= r.pos <= |bits|
  {
    if p + 14 > |bits| then Truncated
    else
      var h := CountsAt(bits, p);
      var a := DynamicLens(bits, p + 14, h);
      if h.hlit > most then Malformed(p + 14)
      else if a.Malformed? then Malformed(a.pos)
      else if a.Truncated? then Truncated
      else Got(Codes(a.value[..h.hlit], a.value[h.hlit..]), a.pos)
  }

  lemma {:induction false} CodesAtStep(bits: seq<Bit>, most: nat, p: nat, h: Counts, a: Read<seq<nat>>)
    requires p + 14 <= |bits| && h == CountsAt(bits, p) && h.hlit <= most && a == DynamicLens(bits, p + 14, h)
    ensures a.Truncated? ==> CodesAt(bits, most, p).Truncated?
    ensures a.Malformed? ==> CodesAt(bits, most, p) == Malformed(a.pos)
    ensures a.Got? ==> CodesAt(bits, most, p) == Got(Codes(a.value[..h.hlit], a.value[h.hlit..]), a.pos)
  {
  }

  /** Neither code may be over-subscribed. */
  function Checked(c: Read<Codes>): (r: Read<Codes>)
    ensures r.Got? ==> c == r
  {
    if c.Got? && !(Kraft(c.value.literals) && Kraft(c.value.distances)) then Malformed(c.pos) else c
  }

  function DynamicCodes(bits: seq<Bit>, most: nat, p: nat): (r: Read<Codes>)
    requires p <= |bits|
    ensures r.Got? ==> p <= r.pos <= |bits| && ValidLens(r.value.literals) && ValidLens(r.value.distances)
    ensures r.Malformed? ==> p <= r.pos <= |bits|
  {
    Checked(CodesAt(bits, most, p))
  }

  lemma HeaderBits()
    ensures Pow2(4) == 16 && Pow2(5) == 32
  {
  }

  // ---- section 3.2.3: the blocks --------------------------------------------------

  /** One block after its header, given its BTYPE. */
  function Block(bits: seq<Bit>, most: nat, btype: nat, p: nat, out: seq<Byte>): (r: Read<seq<Byte>>)
    requires p <= |bits|
    ensures r.Got? ==> p < r.pos <= |bits|
    ensures r.Malformed? ==> p <= r.pos <= |bits|
  {
    if btype == 0 then Stored(bits, p, out)
    else if btype == 1 then Compressed(bits, FixedLiterals(), FixedDistances(), p, out)
    else if btype == 2 then
      var c := DynamicCodes(bits, most, p);
      if c.Malformed? then Malformed(c.pos)
      else if c.Truncated? then Truncated
      else Compressed(bits, c.value.literals, c.value.distances, c.pos, out)
    else Malformed(p)
  }

  lemma {:induction false} DynamicBlock(bits: seq<Bit>, most: nat, p: nat, out: seq<Byte>, c: Read<Codes>)
    requires p <= |bits| && c == DynamicCodes(bits, most, p) && c.Got?
    ensures Block(bits, most, 2, p, out) == Compressed(bits, c.value.literals, c.value.distances, c.pos, out)
  {
  }

  /** The whole stream: blocks until the one marked final.  RFC 1951 is
      `most == MAX_LITERALS`; a decoder that does not check HLIT allows more. */
  function Inflate(bits: seq<Bit>, most: nat, p: nat, out: seq<Byte>): (r: Read<seq<Byte>>)
    requires p <= |bits|
    ensures r.Got? ==> p < r.pos <= |bits|
    ensures r.Malformed? ==> p <= r.pos <= |bits|
    decreases |bits| - p
  {
    if p + 3 > |bits| then Truncated
    else
      var final, b := Lsb(bits, p, 1), Block(bits, most, Lsb(bits, p + 1, 2), p + 3, out);
      if b.Got? && final == 0 then Inflate(bits, most, b.pos, b.value) else b
  }

  /** One block. */
  lemma {:induction false} HeaderStep(bits: seq<Bit>, most: nat, p: nat, out: seq<Byte>, final: nat, btype: nat)
    requires p + 3 <= |bits| && final == Lsb(bits, p, 1) && btype == Lsb(bits, p + 1, 2)
    ensures btype < 4
    ensures var b := Block(bits, most, btype, p + 3, out);
            Inflate(bits, most, p, out) == if b.Got? && final == 0 then Inflate(bits, most, b.pos, b.value) else b
  {
    HeaderBits();
  }
}
