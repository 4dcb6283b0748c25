/** RFC 1951 limits HLIT to 286 codes; the kernel's decoder takes the two
    larger counts its five bits can hold.  Where the two readings part. */
module HlitLimit {
  import opened BitMath
  import opened Canonical
  import opened Rfc1951

  /** The block at `p` has a header with more than 286 literal and length codes. */
  predicate OversizedAt(bits: seq<Bit>, btype: nat, p: nat) {
    btype == 2 && p + 14 <= |bits| && CountsAt(bits, p).hlit > MAX_LITERALS
  }

  /** Such a header is met before the stream is decided. */
  predicate Oversized(bits: seq<Bit>, p: nat, out: seq<Byte>)
    requires p <= |bits|
    decreases |bits| - p
  {
    p + 3 <= |bits| &&
    var final, btype := Lsb(bits, p, 1), Lsb(bits, p + 1, 2);
    OversizedAt(bits, btype, p + 3) ||
    var b := Block(bits, MAX_SYMBOLS, btype, p + 3, out);
    b.Got? && final == 0 && Oversized(bits, b.pos, b.value)
  }

  /** Reading on after an oversized header goes past it. */
  lemma {:induction false} LensGoOn(bits: seq<Bit>, p: nat, h: Counts)
    requires p <= |bits| && h.hlit <= MAX_SYMBOLS && h.hdist <= MAX_SYMBOLS && 1 <= h.hclen <= 19
    ensures !DynamicLens(bits, p, h).Truncated? ==> DynamicLens(bits, p, h).pos > p
  {
    CodeLengthLensPos(bits, p, h.hclen);
  }

  lemma {:induction false} CodesGoOn(bits: seq<Bit>, p: nat)
    requires p + 14 <= |bits|
    ensures !DynamicCodes(bits, MAX_SYMBOLS, p).Truncated? ==> DynamicCodes(bits, MAX_SYMBOLS, p).pos > p + 14
  {
    var h := CountsAt(bits, p);
    var a := DynamicLens(bits, p + 14, h);
    LensGoOn(bits, p + 14, h);
    CodesAtStep(bits, MAX_SYMBOLS, p, h, a);
  }

  lemma {:induction false} CodesSame(bits: seq<Bit>, p: nat)
    requires p <= |bits| && !OversizedAt(bits, 2, p)
    ensures DynamicCodes(bits, MAX_LITERALS, p) == DynamicCodes(bits, MAX_SYMBOLS, p)
  {
    if p + 14 <= |bits| {
      var h := CountsAt(bits, p);
      var a := DynamicLens(bits, p + 14, h);
      CodesAtStep(bits, MAX_LITERALS, p, h, a);
      CodesAtStep(bits, MAX_SYMBOLS, p, h, a);
    }
  }

  lemma {:induction false} BlockSame(bits: seq<Bit>, btype: nat, p: nat, out: seq<Byte>)
    requires p <= |bits| && !OversizedAt(bits, btype, p)
    ensures Block(bits, MAX_LITERALS, btype, p, out) == Block(bits, MAX_SYMBOLS, btype, p, out)
  {
    if btype == 2 { CodesSame(bits, p); }
  }

  /** At an oversized header RFC 1951 stops, and the other reading does not. */
  lemma {:induction false} BlockParts(bits: seq<Bit>, btype: nat, p: nat, out: seq<Byte>)
    requires p <= |bits| && OversizedAt(bits, btype, p)
    ensures Block(bits, MAX_LITERALS, btype, p, out) == Malformed(p + 14)
    ensures Block(bits, MAX_SYMBOLS, btype, p, out) != Malformed(p + 14)
    ensures Block(bits, MAX_SYMBOLS, btype, p, out).Got? ==> Block(bits, MAX_SYMBOLS, btype, p, out).pos > p + 14
  {
    CodesGoOn(bits, p);
  }

  /** The readings agree on result and position if and only if no oversized
      header is met; if one is, RFC 1951 refuses the stream. */
  lemma {:induction false} AgreesIff(bits: seq<Bit>, p: nat, out: seq<Byte>)
    requires p <= |bits|
    ensures Inflate(bits, MAX_LITERALS, p, out) == Inflate(bits, MAX_SYMBOLS, p, out) <==> !Oversized(bits, p, out)
    ensures Oversized(bits, p, out) ==> Inflate(bits, MAX_LITERALS, p, out).Malformed?
    decreases |bits| - p
  {
    if p + 3 <= |bits| {
      var final, btype := Lsb(bits, p, 1), Lsb(bits, p + 1, 2);
      HeaderStep(bits, MAX_LITERALS, p, out, final, btype);
      HeaderStep(bits, MAX_SYMBOLS, p, out, final, btype);
      var b := Block(bits, MAX_SYMBOLS, btype, p + 3, out);
      if OversizedAt(bits, btype, p + 3) {
        BlockParts(bits, btype, p + 3, out);
      } else {
        BlockSame(bits, btype, p + 3, out);
        if b.Got? && final == 0 { AgreesIff(bits, b.pos, b.value); }
      }
    }
  }

  /** So the two verdicts differ exactly on the oversized streams that can be read to the end. */
  lemma {:induction false} VerdictsDiffer(bits: seq<Bit>)
    ensures Inflate(bits, MAX_LITERALS, 0, []).Got? != Inflate(bits, MAX_SYMBOLS, 0, []).Got?
       <==> Oversized(bits, 0, []) && Inflate(bits, MAX_SYMBOLS, 0, []).Got?
  {
    AgreesIff(bits, 0, []);
  }
}
