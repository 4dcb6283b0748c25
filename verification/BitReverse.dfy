/** `_ssfn__bitreverse16` swaps neighbouring bits, pairs, nibbles and bytes;
    `_ssfn__bit_reverse` keeps the top of the result.  Both agree with the
    arithmetic reversal the decoder model uses. */
module BitReverse {
  import opened BitMath

  function BitReverse16(v: bv16): bv16 {
    var a := ((v & 0xAAAA) >> 1) | ((v & 0x5555) << 1);
    var b := ((a & 0xCCCC) >> 2) | ((a & 0x3333) << 2);
    var c := ((b & 0xF0F0) >> 4) | ((b & 0x0F0F) << 4);
    ((c & 0xFF00) >> 8) | ((c & 0x00FF) << 8)
  }

  function Test(v: bv16, mask: bv16): Bit {
    if v & mask != 0 then 1 else 0
  }

  function BitOf(v: bv16, i: nat): Bit {
    match i
    case 0 => Test(v, 0x0001) case 1 => Test(v, 0x0002) case 2 => Test(v, 0x0004) case 3 => Test(v, 0x0008)
    case 4 => Test(v, 0x0010) case 5 => Test(v, 0x0020) case 6 => Test(v, 0x0040) case 7 => Test(v, 0x0080)
    case 8 => Test(v, 0x0100) case 9 => Test(v, 0x0200) case 10 => Test(v, 0x0400) case 11 => Test(v, 0x0800)
    case 12 => Test(v, 0x1000) case 13 => Test(v, 0x2000) case 14 => Test(v, 0x4000) case 15 => Test(v, 0x8000)
    case _ => 0
  }

  /** The bits of a word, from the low end. */
  function WordBits(v: bv16): (bits: seq<Bit>)
    ensures |bits| == 16
  {
    seq(16, i requires 0 <= i < 16 => BitOf(v, i))
  }

  /** The number a word stands for. */
  function Value(v: bv16): nat {
    Lsb(WordBits(v), 0, 16)
  }

  lemma SwapLow(v: bv16)
    ensures var w := BitReverse16(v);
            && (w & 0x8000 != 0 <==> v & 0x0001 != 0) && (w & 0x4000 != 0 <==> v & 0x0002 != 0)
            && (w & 0x2000 != 0 <==> v & 0x0004 != 0) && (w & 0x1000 != 0 <==> v & 0x0008 != 0)
            && (w & 0x0800 != 0 <==> v & 0x0010 != 0) && (w & 0x0400 != 0 <==> v & 0x0020 != 0)
            && (w & 0x0200 != 0 <==> v & 0x0040 != 0) && (w & 0x0100 != 0 <==> v & 0x0080 != 0)
  {
  }

  lemma SwapHigh(v: bv16)
    ensures var w := BitReverse16(v);
            && (w & 0x0080 != 0 <==> v & 0x0100 != 0) && (w & 0x0040 != 0 <==> v & 0x0200 != 0)
            && (w & 0x0020 != 0 <==> v & 0x0400 != 0) && (w & 0x0010 != 0 <==> v & 0x0800 != 0)
            && (w & 0x0008 != 0 <==> v & 0x1000 != 0) && (w & 0x0004 != 0 <==> v & 0x2000 != 0)
            && (w & 0x0002 != 0 <==> v & 0x4000 != 0) && (w & 0x0001 != 0 <==> v & 0x8000 != 0)
  {
  }

  /** Sixteen mirrored entries are a mirrored sequence. */
  lemma Mirror(b: seq<Bit>, r: seq<Bit>)
    requires |b| == 16 && |r| == 16
    requires r[0] == b[15] && r[1] == b[14] && r[2] == b[13] && r[3] == b[12]
    requires r[4] == b[11] && r[5] == b[10] && r[6] == b[9] && r[7] == b[8]
    requires r[8] == b[7] && r[9] == b[6] && r[10] == b[5] && r[11] == b[4]
    requires r[12] == b[3] && r[13] == b[2] && r[14] == b[1] && r[15] == b[0]
    ensures forall i | 0 <= i < 16 :: r[i] == b[15 - i]
  {
    forall i | 0 <= i < 16
      ensures r[i] == b[15 - i]
    {
      if i < 4 {
        assert i == 0 || i == 1 || i == 2 || i == 3;
      } else if i < 8 {
        assert i == 4 || i == 5 || i == 6 || i == 7;
      } else if i < 12 {
        assert i == 8 || i == 9 || i == 10 || i == 11;
      } else {
        assert i == 12 || i == 13 || i == 14 || i == 15;
      }
    }
  }

  /** The low half of `v` is the mirrored high half of the result. */
  lemma LowHalf(v: bv16, w: bv16, b: seq<Bit>, r: seq<Bit>)
    requires w == BitReverse16(v) && b == WordBits(v) && r == WordBits(w)
    ensures r[15] == b[0] && r[14] == b[1] && r[13] == b[2] && r[12] == b[3]
    ensures r[11] == b[4] && r[10] == b[5] && r[9] == b[6] && r[8] == b[7]
  {
    SwapLow(v);
  }

  lemma HighHalf(v: bv16, w: bv16, b: seq<Bit>, r: seq<Bit>)
    requires w == BitReverse16(v) && b == WordBits(v) && r == WordBits(w)
    ensures r[7] == b[8] && r[6] == b[9] && r[5] == b[10] && r[4] == b[11]
    ensures r[3] == b[12] && r[2] == b[13] && r[1] == b[14] && r[0] == b[15]
  {
    SwapHigh(v);
  }

  lemma Swap(v: bv16, w: bv16, b: seq<Bit>, r: seq<Bit>)
    requires w == BitReverse16(v) && b == WordBits(v) && r == WordBits(w)
    ensures forall i | 0 <= i < 16 :: r[i] == b[15 - i]
  {
    LowHalf(v, w, b, r);
    HighHalf(v, w, b, r);
    Mirror(b, r);
  }

  lemma {:induction false} MsbOfReversed(b: seq<Bit>, r: seq<Bit>, n: nat)
    requires |b| == |r| && n <= |b| && forall i | 0 <= i < |b| :: r[i] == b[|b| - 1 - i]
    ensures Lsb(r, |b| - n, n) == Msb(b, 0, n)
  {
    if n != 0 {
      MsbOfReversed(b, r, n - 1);
    }
  }

  /** The mask-and-shift reversal is the reversal of the number. */
  lemma {:induction false} ReverseIsRev(v: bv16)
    ensures Value(BitReverse16(v)) == Rev(Value(v), 16)
  {
    var w := BitReverse16(v);
    Swap(v, w, WordBits(v), WordBits(w));
    LsbMirrored(WordBits(v), WordBits(w));
  }

  lemma {:induction false} LsbMirrored(b: seq<Bit>, r: seq<Bit>)
    requires |b| == |r| && forall i | 0 <= i < |b| :: r[i] == b[|b| - 1 - i]
    ensures Lsb(r, 0, |r|) == Rev(Lsb(b, 0, |b|), |b|)
  {
    RevLsb(b, 0, |b|, |b|);
    MsbOfReversed(b, r, |b|);
  }

  /** `_ssfn__bit_reverse(v, bits)`: shifting keeps the first `bits` bits. */
  lemma BitReverseIsRev(v: bv16, bits: nat)
    requires bits <= 16
    ensures Shr(Value(BitReverse16(v)), 16 - bits) == Rev(Value(v), bits)
  {
    ReverseIsRev(v);
    RevPrefix(Value(v), 16, bits);
  }
}
