/** What a stream decodes to does not depend on the bytes after it; so the
    kernel's decoder, which reads ahead, decides every complete stream that is
    followed by three readable bytes of any content. */
module Streams {
  import opened BitMath
  import opened Canonical
  import opened Rfc1951
  import opened Readahead
  import opened Inflater
  import opened HlitLimit

  lemma {:induction false} LsbExtend(bits: seq<Bit>, more: seq<Bit>, p: nat, n: nat)
    requires p + n <= |bits|
    ensures Lsb(bits + more, p, n) == Lsb(bits, p, n)
    decreases n
  {
    if n != 0 {
      LsbExtend(bits, more, p + 1, n - 1);
    }
  }

  lemma {:induction false} MsbExtend(bits: seq<Bit>, more: seq<Bit>, p: nat, n: nat)
    requires p + n <= |bits|
    ensures Msb(bits + more, p, n) == Msb(bits, p, n)
  {
    if n != 0 {
      MsbExtend(bits, more, p, n - 1);
    }
  }

  lemma NumberExtend(bits: seq<Bit>, more: seq<Bit>, p: nat, n: nat)
    ensures Number(bits, p, n).Got? ==> Number(bits + more, p, n) == Number(bits, p, n)
  {
    if p + n <= |bits| {
      LsbExtend(bits, more, p, n);
    }
  }

  lemma {:induction false} DecodeFromExtend(lens: seq<nat>, bits: seq<Bit>, more: seq<Bit>, p: nat, len: nat)
    requires len <= MAX_BITS && p + len <= |bits|
    ensures !DecodeFrom(lens, bits, p, len).Truncated? ==>
              DecodeFrom(lens, bits + more, p, len) == DecodeFrom(lens, bits, p, len)
    decreases MAX_BITS - len
  {
    if len < MAX_BITS && p + len < |bits| {
      MsbExtend(bits, more, p, len + 1);
      DecodeFromExtend(lens, bits, more, p, len + 1);
    }
  }

  lemma MatchAtExtend(bits: seq<Bit>, more: seq<Bit>, dist: seq<nat>, p: nat, z: nat, size: nat)
    requires p <= |bits| && z < 29
    ensures !MatchAt(bits, dist, p, z, size).Truncated? ==>
              MatchAt(bits + more, dist, p, z, size) == MatchAt(bits, dist, p, z, size)
  {
    NumberExtend(bits, more, p, LengthExtra(z));
    var l := MatchLength(bits, p, z);
    if l.Got? {
      MatchDistanceExtend(bits, more, dist, l.pos);
    }
  }

  lemma MatchDistanceExtend(bits: seq<Bit>, more: seq<Bit>, dist: seq<nat>, p: nat)
    requires p <= |bits|
    ensures !MatchDistance(bits, dist, p).Truncated? ==>
              MatchDistance(bits + more, dist, p) == MatchDistance(bits, dist, p)
  {
    DecodeFromExtend(dist, bits, more, p, 0);
    var s := DecodeSymbol(dist, bits, p);
    if s.Got? {
      NumberExtend(bits, more, s.pos, DistExtra(s.value));
    }
  }

  lemma {:induction false} CompressedExtend(bits: seq<Bit>, more: seq<Bit>, lit: seq<nat>, dist: seq<nat>, p: nat,
                                            out: seq<Byte>)
    requires p <= |bits|
    ensures !Compressed(bits, lit, dist, p, out).Truncated? ==>
              Compressed(bits + more, lit, dist, p, out) == Compressed(bits, lit, dist, p, out)
    decreases |bits| - p
  {
    DecodeFromExtend(lit, bits, more, p, 0);
    var s := DecodeSymbol(lit, bits, p);
    if s.Got? && s.value < 256 {
      CompressedExtend(bits, more, lit, dist, s.pos, out + [s.value]);
    } else if s.Got? && 256 < s.value < 286 {
      MatchAtExtend(bits, more, dist, s.pos, s.value - 257, |out|);
      var m := MatchAt(bits, dist, s.pos, s.value - 257, |out|);
      if m.Got? {
        CompressedExtend(bits, more, lit, dist, m.pos, CopyBack(out, m.value.len, m.value.dist));
      }
    }
  }

  lemma {:induction false} BytesAtExtend(bits: seq<Bit>, more: seq<Bit>, p: nat, len: nat)
    requires p + 8 * len <= |bits|
    ensures BytesAt(bits + more, p, len) == BytesAt(bits, p, len)
    decreases len
  {
    if len != 0 {
      LsbExtend(bits, more, p, 8);
      BytesAtExtend(bits, more, p + 8, len - 1);
    }
  }

  lemma StoredExtend(bits: seq<Bit>, more: seq<Bit>, p: nat, out: seq<Byte>)
    requires p <= |bits|
    ensures !Stored(bits, p, out).Truncated? ==> Stored(bits + more, p, out) == Stored(bits, p, out)
  {
    var q := Align(p);
    if q + 32 <= |bits| {
      LsbExtend(bits, more, q, 16);
      LsbExtend(bits, more, q + 16, 16);
      var len := Lsb(bits, q, 16);
      if q + 32 + 8 * len <= |bits| {
        BytesAtExtend(bits, more, q + 32, len);
      }
    }
  }

  lemma {:induction false} CodeLengthLensExtend(bits: seq<Bit>, more: seq<Bit>, p: nat, n: nat)
    requires p <= |bits| && n <= 19
    ensures CodeLengthLens(bits, p, n).Got? ==> CodeLengthLens(bits + more, p, n) == CodeLengthLens(bits, p, n)
  {
    if n != 0 {
      CodeLengthLensExtend(bits, more, p, n - 1);
      var lens := CodeLengthLens(bits, p, n - 1);
      if lens.Got? {
        NumberExtend(bits, more, lens.pos, 3);
      }
    }
  }

  lemma {:induction false} AllLensExtend(bits: seq<Bit>, more: seq<Bit>, clens: seq<nat>, p: nat, total: nat,
                                         lens: seq<nat>)
    requires p <= |bits| && |lens| <= total && LensOk(lens)
    ensures !AllLens(bits, clens, p, total, lens).Truncated? ==>
              AllLens(bits + more, clens, p, total, lens) == AllLens(bits, clens, p, total, lens)
    decreases |bits| - p
  {
    if |lens| < total {
      DecodeFromExtend(clens, bits, more, p, 0);
      var c := DecodeSymbol(clens, bits, p);
      if c.Got? && c.value < 16 {
        AllLensExtend(bits, more, clens, c.pos, total, lens + [c.value]);
      } else if c.Got? && c.value < 19 {
        NumberExtend(bits, more, c.pos, RepeatBits(c.value));
        var n := Number(bits, c.pos, RepeatBits(c.value));
        if n.Got? && !(c.value == 16 && lens == []) && n.value + RepeatBase(c.value) <= total - |lens| {
          AllLensExtend(bits, more, clens, n.pos, total,
                        lens + Repeat(if c.value == 16 then lens[|lens| - 1] else 0, n.value + RepeatBase(c.value)));
        }
      }
    }
  }

  lemma CountsExtend(bits: seq<Bit>, more: seq<Bit>, p: nat)
    requires p + 14 <= |bits|
    ensures CountsAt(bits + more, p) == CountsAt(bits, p)
  {
    LsbExtend(bits, more, p, 5);
    LsbExtend(bits, more, p + 5, 5);
    LsbExtend(bits, more, p + 10, 4);
  }

  lemma DynamicLensExtend(bits: seq<Bit>, more: seq<Bit>, p: nat, h: Counts)
    requires p <= |bits| && h.hlit <= MAX_SYMBOLS && h.hdist <= MAX_SYMBOLS && h.hclen <= 19
    ensures !DynamicLens(bits, p, h).Truncated? ==> DynamicLens(bits + more, p, h) == DynamicLens(bits, p, h)
  {
    CodeLengthLensExtend(bits, more, p, h.hclen);
    var c := CodeLengthLens(bits, p, h.hclen);
    if c.Got? {
      AllLensExtend(bits, more, c.value, c.pos, h.hlit + h.hdist, []);
    }
  }

  lemma {:induction false} DynamicCodesExtend(bits: seq<Bit>, more: seq<Bit>, most: nat, p: nat)
    requires p <= |bits|
    ensures !DynamicCodes(bits, most, p).Truncated? ==>
              DynamicCodes(bits + more, most, p) == DynamicCodes(bits, most, p)
  {
    if p + 14 <= |bits| {
      CountsExtend(bits, more, p);
      var h := CountsAt(bits, p);
      if h.hlit <= most {
        DynamicLensExtend(bits, more, p + 14, h);
        CodesAtStep(bits, most, p, h, DynamicLens(bits, p + 14, h));
        CodesAtStep(bits + more, most, p, h, DynamicLens(bits + more, p + 14, h));
      }
    }
  }

  lemma BlockExtend(bits: seq<Bit>, more: seq<Bit>, most: nat, btype: nat, p: nat, out: seq<Byte>)
    requires p <= |bits|
    ensures !Block(bits, most, btype, p, out).Truncated? ==>
              Block(bits + more, most, btype, p, out) == Block(bits, most, btype, p, out)
  {
    if btype == 0 {
      StoredExtend(bits, more, p, out);
    } else if btype == 1 {
      CompressedExtend(bits, more, FixedLiterals(), FixedDistances(), p, out);
    } else if btype == 2 {
      DynamicCodesExtend(bits, more, most, p);
      var c := DynamicCodes(bits, most, p);
      if c.Got? {
        CompressedExtend(bits, more, c.value.literals, c.value.distances, c.pos, out);
      }
    }
  }

  /** A result that is decided stays the same when the stream goes on. */
  lemma {:induction false} InflateExtend(bits: seq<Bit>, more: seq<Bit>, most: nat, p: nat, out: seq<Byte>)
    requires p <= |bits|
    ensures !Inflate(bits, most, p, out).Truncated? ==>
              Inflate(bits + more, most, p, out) == Inflate(bits, most, p, out)
    decreases |bits| - p
  {
    if p + 3 <= |bits| {
      LsbExtend(bits, more, p, 1);
      LsbExtend(bits, more, p + 1, 2);
      var btype := Lsb(bits, p + 1, 2);
      BlockExtend(bits, more, most, btype, p + 3, out);
      var b := Block(bits, most, btype, p + 3, out);
      if b.Got? && Lsb(bits, p, 1) == 0 {
        InflateExtend(bits, more, most, b.pos, b.value);
      }
    }
  }

  lemma BitsOfAppend(s: seq<Byte>, t: seq<Byte>)
    ensures BitsOf(s + t) == BitsOf(s) + BitsOf(t)
  {
    var b, c := BitsOf(s + t), BitsOf(s) + BitsOf(t);
    forall p | 0 <= p < |b|
      ensures b[p] == c[p]
    {
      if p >= 8 * |s| {
        var k := p - 8 * |s|;
        assert p / 8 == |s| + k / 8 && p % 8 == k % 8;
      }
    }
  }

  lemma {:induction false} ThreeMore(bits: seq<Bit>, more: seq<Bit>, p: nat, out: seq<Byte>, e: nat,
                                     want: Read<seq<Byte>>, ask: nat, n: nat)
    requires p <= |bits| && |bits + more| == 8 * n && |more| >= 24 && e <= n
    requires want == Inflate(bits, MAX_SYMBOLS, p, out) && !want.Truncated?
    requires ask == AskInflate(bits + more, p, out, e)
    ensures Inflate(bits + more, MAX_SYMBOLS, p, out) == want && ask <= n
  {
    InflateExtend(bits, more, MAX_SYMBOLS, p, out);
    WholeBytes(|bits + more|, n);
    LateInflate(bits + more, p, out, e);
  }

  lemma WholeBytes(m: nat, n: nat)
    requires m == 8 * n
    ensures m % 8 == 0
  {
  }

  lemma {:induction false} StreamGoesOn(s: seq<Byte>, t: seq<Byte>, p: nat, out: seq<Byte>, e: nat)
    requires p <= 8 * |s| && e <= |s| && |t| >= 3 && !Inflate(BitsOf(s), MAX_SYMBOLS, p, out).Truncated?
    ensures Inflate(BitsOf(s + t), MAX_SYMBOLS, p, out) == Inflate(BitsOf(s), MAX_SYMBOLS, p, out)
    ensures AskInflate(BitsOf(s + t), p, out, e) <= |s + t|
  {
    BitsOfAppend(s, t);
    ThreeMore(BitsOf(s), BitsOf(t), p, out, e, Inflate(BitsOf(s), MAX_SYMBOLS, p, out),
              AskInflate(BitsOf(s + t), p, out, e), |s + t|);
  }

  /** Every complete stream without an oversized header decodes to what RFC 1951
      says, or is refused if it is malformed, whatever three or more bytes
      follow it; with such a header, to what a reading without that check says. */
  method DecodeStream(s: seq<Byte>, t: seq<Byte>) returns (ok: bool, out: seq<Byte>)
    requires |t| >= 3 && !Inflate(BitsOf(s), MAX_SYMBOLS, 0, []).Truncated?
    ensures ok <==> Inflate(BitsOf(s), MAX_SYMBOLS, 0, []).Got?
    ensures ok ==> out == Inflate(BitsOf(s), MAX_SYMBOLS, 0, []).value
    ensures !Oversized(BitsOf(s), 0, []) ==>
              && (ok <==> Inflate(BitsOf(s), MAX_LITERALS, 0, []).Got?)
              && (ok ==> out == Inflate(BitsOf(s), MAX_LITERALS, 0, []).value)
  {
    StreamGoesOn(s, t, 0, [], 0);
    AgreesIff(BitsOf(s), 0, []);
    var fault;
    fault, ok, out := ZlibDecode(s + t);
  }
}
