/** How far ahead of a DEFLATE stream the kernel's decoder reads.  Its
    reservoir is filled with whole bytes until it has more than 24 bits, so
    the number of bytes asked for depends on when it was last filled.  A
    function `Ask...` follows the reference function of the same name: given
    that `e` bytes were loaded before, it tells how many have been asked for
    in the end.  Asking stops at the first request past the stream. */
module Readahead {
  import opened BitMath
  import opened Canonical
  import opened Rfc1951

  /** Bytes loaded once `n` bits have been asked for at bit `p`. */
  function Loaded(e: nat, p: nat, n: nat): nat {
    if n > 0 && 8 * e < p + n then (p + 32) / 8 else e
  }

  /** The stream has that many bytes. */
  predicate Fits(bits: seq<Bit>, e: nat) {
    8 * e <= |bits|
  }

  /** A code may need 15 bits; the decoder wants 16 before it looks one up. */
  const WINDOW: nat := 16

  function AskDistance(bits: seq<Bit>, dist: seq<nat>, p: nat, e: nat): nat
    requires p <= |bits|
  {
    var e1, s := Loaded(e, p, WINDOW), DecodeSymbol(dist, bits, p);
    if !Fits(bits, e1) || !s.Got? || s.value >= 30 then e1
    else Loaded(e1, s.pos, DistExtra(s.value))
  }

  function AskMatch(bits: seq<Bit>, dist: seq<nat>, p: nat, z: nat, e: nat): nat
    requires p <= |bits| && z < 29
  {
    var e1, l := Loaded(e, p, LengthExtra(z)), MatchLength(bits, p, z);
    if !Fits(bits, e1) || !l.Got? then e1 else AskDistance(bits, dist, l.pos, e1)
  }

  function AskCompressed(bits: seq<Bit>, lit: seq<nat>, dist: seq<nat>, p: nat, size: nat, e: nat): nat
    requires p <= |bits|
    decreases |bits| - p
  {
    var e1, s := Loaded(e, p, WINDOW), DecodeSymbol(lit, bits, p);
    if !Fits(bits, e1) || !s.Got? || s.value == 256 || s.value >= 286 then e1
    else if s.value < 256 then AskCompressed(bits, lit, dist, s.pos, size + 1, e1)
    else
      var e2, m := AskMatch(bits, dist, s.pos, s.value - 257, e1), MatchAt(bits, dist, s.pos, s.value - 257, size);
      if !Fits(bits, e2) || !m.Got? then e2
      else AskCompressed(bits, lit, dist, m.pos, size + m.value.len, e2)
  }

  /** One literal. */
  lemma {:induction false} AskLiteral(bits: seq<Bit>, lit: seq<nat>, dist: seq<nat>, p: nat, size: nat, e: nat,
                                      s: Read<nat>)
    requires p <= |bits| && s == DecodeSymbol(lit, bits, p) && s.Got? && s.value < 256
    requires Fits(bits, Loaded(e, p, WINDOW))
    ensures AskCompressed(bits, lit, dist, p, size, e)
         == AskCompressed(bits, lit, dist, s.pos, size + 1, Loaded(e, p, WINDOW))
  {
  }

  /** Neither a literal nor a match. */
  lemma {:induction false} AskLast(bits: seq<Bit>, lit: seq<nat>, dist: seq<nat>, p: nat, size: nat, e: nat,
                                   s: Read<nat>)
    requires p <= |bits| && s == DecodeSymbol(lit, bits, p)
    requires !Fits(bits, Loaded(e, p, WINDOW)) || !s.Got? || s.value == 256 || s.value >= 286
    ensures AskCompressed(bits, lit, dist, p, size, e) == Loaded(e, p, WINDOW)
  {
  }

  /** One match. */
  lemma {:induction false} AskMatched(bits: seq<Bit>, lit: seq<nat>, dist: seq<nat>, p: nat, size: nat, e: nat,
                                      s: Read<nat>, m: Read<Match>, e1: nat, e2: nat)
    requires p <= |bits| && s == DecodeSymbol(lit, bits, p) && s.Got? && 256 < s.value < 286
    requires e1 == Loaded(e, p, WINDOW) && Fits(bits, e1) && e2 == AskMatch(bits, dist, s.pos, s.value - 257, e1)
    requires m == MatchAt(bits, dist, s.pos, s.value - 257, size)
    ensures AskCompressed(bits, lit, dist, p, size, e)
         == if !Fits(bits, e2) || !m.Got? then e2 else AskCompressed(bits, lit, dist, m.pos, size + m.value.len, e2)
  {
  }

  /** What comes of the symbol `s`, with `e` bytes loaded, given what is decoded
      and asked for in the end. */
  ghost predicate Continues(bits: seq<Bit>, lit: seq<nat>, dist: seq<nat>, out: seq<Byte>, s: Read<nat>, e: nat,
                            want: Read<seq<Byte>>, ask: nat)
    requires s.Got? && s.pos <= |bits|
  {
    if s.value < 256 then
      && want == Compressed(bits, lit, dist, s.pos, out + [s.value])
      && ask == AskCompressed(bits, lit, dist, s.pos, |out| + 1, e)
    else if s.value == 256 then want == Got(out, s.pos) && ask == e
    else if s.value >= 286 then want.Malformed? && ask == e
    else
      var m, e2 := MatchAt(bits, dist, s.pos, s.value - 257, |out|), AskMatch(bits, dist, s.pos, s.value - 257, e);
      && (m.Malformed? ==> want == Malformed(m.pos))
      && (m.Truncated? ==> want.Truncated?)
      && (m.Got? ==> want == Compressed(bits, lit, dist, m.pos, CopyBack(out, m.value.len, m.value.dist)))
      && (!Fits(bits, e2) || !m.Got? ==> ask == e2)
      && (Fits(bits, e2) && m.Got? ==> ask == AskCompressed(bits, lit, dist, m.pos, |out| + m.value.len, e2))
  }

  lemma {:induction false} SymbolStep(bits: seq<Bit>, lit: seq<nat>, dist: seq<nat>, p: nat, out: seq<Byte>, e: nat,
                                      s: Read<nat>, e1: nat, want: Read<seq<Byte>>, ask: nat)
    requires p <= |bits| && s == DecodeSymbol(lit, bits, p) && e1 == Loaded(e, p, WINDOW)
    requires want == Compressed(bits, lit, dist, p, out) && ask == AskCompressed(bits, lit, dist, p, |out|, e)
    ensures !Fits(bits, e1) || !s.Got? ==> ask == e1
    ensures s.Malformed? ==> want.Malformed?
    ensures Fits(bits, e1) && s.Got? ==> Continues(bits, lit, dist, out, s, e1, want, ask)
  {
    if Fits(bits, e1) && s.Got? && s.value < 256 {
      StepLiteral(bits, lit, dist, p, out, s);
      AskLiteral(bits, lit, dist, p, |out|, e, s);
    } else if Fits(bits, e1) && s.Got? && 256 < s.value < 286 {
      var m, e2 := MatchAt(bits, dist, s.pos, s.value - 257, |out|), AskMatch(bits, dist, s.pos, s.value - 257, e1);
      StepMatch(bits, lit, dist, p, out, s, m);
      AskMatched(bits, lit, dist, p, |out|, e, s, m, e1, e2);
    } else {
      AskLast(bits, lit, dist, p, |out|, e, s);
    }
  }

  /** The reservoir is drained first; then bytes are read one by one. */
  function AskStored(bits: seq<Bit>, p: nat): nat {
    var q := Align(p);
    if q + 32 > |bits| || Lsb(bits, q, 16) + Lsb(bits, q + 16, 16) != 0xFFFF then q / 8 + 4
    else q / 8 + 4 + Lsb(bits, q, 16)
  }

  function AskCounts(bits: seq<Bit>, p: nat, e: nat): nat {
    var e1 := Loaded(e, p, 5);
    if !Fits(bits, e1) then e1
    else
      var e2 := Loaded(e1, p + 5, 5);
      if !Fits(bits, e2) then e2 else Loaded(e2, p + 10, 4)
  }

  function AskCodeLengthLens(bits: seq<Bit>, p: nat, n: nat, e: nat): nat {
    if n == 0 then e
    else
      var e1 := AskCodeLengthLens(bits, p, n - 1, e);
      if !Fits(bits, e1) then e1 else Loaded(e1, p + 3 * (n - 1), 3)
  }

  /** Nothing is asked for after a request past the stream. */
  lemma {:induction false} AskLensStops(bits: seq<Bit>, p: nat, m: nat, n: nat, e: nat)
    requires m <= n && !Fits(bits, AskCodeLengthLens(bits, p, m, e))
    ensures !Fits(bits, AskCodeLengthLens(bits, p, n, e))
  {
    if m < n { AskLensStops(bits, p, m, n - 1, e); }
  }

  /** With `have` of the code lengths there. */
  function AskAllLens(bits: seq<Bit>, clens: seq<nat>, p: nat, total: nat, have: nat, e: nat): nat
    requires p <= |bits| && have <= total
    decreases |bits| - p
  {
    if have == total then e
    else
      var e1, c := Loaded(e, p, WINDOW), DecodeSymbol(clens, bits, p);
      if !Fits(bits, e1) || !c.Got? || c.value >= 19 then e1
      else if c.value < 16 then AskAllLens(bits, clens, c.pos, total, have + 1, e1)
      else
        var e2, n := Loaded(e1, c.pos, RepeatBits(c.value)), Number(bits, c.pos, RepeatBits(c.value));
        if !Fits(bits, e2) || !n.Got? || (c.value == 16 && have == 0) || total - have < n.value + RepeatBase(c.value)
        then e2
        else AskAllLens(bits, clens, n.pos, total, have + n.value + RepeatBase(c.value), e2)
  }

  function AskLensFrom(bits: seq<Bit>, clens: seq<nat>, p: nat, total: nat, e: nat): nat
    requires p <= |bits|
  {
    if !Kraft(clens) then e else AskAllLens(bits, clens, p, total, 0, e)
  }

  function AskDynamicLens(bits: seq<Bit>, p: nat, h: Counts, e: nat): nat
    requires p <= |bits| && h.hclen <= 19
  {
    var e1, c := AskCodeLengthLens(bits, p, h.hclen, e), CodeLengthLens(bits, p, h.hclen);
    if !Fits(bits, e1) || !c.Got? then e1 else AskLensFrom(bits, c.value, c.pos, h.hlit + h.hdist, e1)
  }

  function AskCodes(bits: seq<Bit>, p: nat, e: nat): nat
    requires p <= |bits|
  {
    var e1 := AskCounts(bits, p, e);
    if !Fits(bits, e1) || p + 14 > |bits| then e1 else AskDynamicLens(bits, p + 14, CountsAt(bits, p), e1)
  }

  function AskDynamic(bits: seq<Bit>, p: nat, size: nat, e: nat): nat
    requires p <= |bits|
  {
    var e1, c := AskCodes(bits, p, e), DynamicCodes(bits, MAX_SYMBOLS, p);
    if !Fits(bits, e1) || !c.Got? then e1
    else AskCompressed(bits, c.value.literals, c.value.distances, c.pos, size, e1)
  }

  function AskBlock(bits: seq<Bit>, btype: nat, p: nat, size: nat, e: nat): nat
    requires p <= |bits|
  {
    if btype == 0 then AskStored(bits, p)
    else if btype == 1 then AskCompressed(bits, FixedLiterals(), FixedDistances(), p, size, e)
    else if btype == 2 then AskDynamic(bits, p, size, e)
    else e
  }

  /** BFINAL and BTYPE are received one after the other. */
  function AskHeader(bits: seq<Bit>, p: nat, e: nat): nat {
    var e1 := Loaded(e, p, 1);
    if !Fits(bits, e1) then e1 else Loaded(e1, p + 1, 2)
  }

  /** The whole stream: how many bytes the decoder asks for. */
  function AskInflate(bits: seq<Bit>, p: nat, out: seq<Byte>, e: nat): nat
    requires p <= |bits|
    decreases |bits| - p
  {
    var e1 := AskHeader(bits, p, e);
    if !Fits(bits, e1) || p + 3 > |bits| then e1
    else
      var final, btype := Lsb(bits, p, 1), Lsb(bits, p + 1, 2);
      var e2, b := AskBlock(bits, btype, p + 3, |out|, e1), Block(bits, MAX_SYMBOLS, btype, p + 3, out);
      if !Fits(bits, e2) || !b.Got? || final != 0 then e2 else AskInflate(bits, b.pos, b.value, e2)
  }

  /** One block: its result, whether another follows, and the bytes asked for. */
  lemma {:induction false} OneBlock(bits: seq<Bit>, p: nat, out: seq<Byte>, e: nat, final: nat, btype: nat,
                                    b: Read<seq<Byte>>, e2: nat)
    requires p + 3 <= |bits| && Fits(bits, AskHeader(bits, p, e))
    requires final == Lsb(bits, p, 1) && btype == Lsb(bits, p + 1, 2)
    requires b == Block(bits, MAX_SYMBOLS, btype, p + 3, out)
    requires e2 == AskBlock(bits, btype, p + 3, |out|, AskHeader(bits, p, e))
    ensures b.Got? ==> p < b.pos <= |bits|
    ensures Inflate(bits, MAX_SYMBOLS, p, out)
         == if b.Got? && final == 0 then Inflate(bits, MAX_SYMBOLS, b.pos, b.value) else b
    ensures AskInflate(bits, p, out, e)
         == if !Fits(bits, e2) || !b.Got? || final != 0 then e2 else AskInflate(bits, b.pos, b.value, e2)
  {
  }

  // ---- a request past the stream comes close to its end -----------------------------------------

  /** The reference result lies within three bytes of the end. */
  ghost predicate Late<T>(bits: seq<Bit>, r: Read<T>) {
    r.Truncated? || r.pos + 24 > |bits|
  }

  lemma LateNumber(bits: seq<Bit>, p: nat, n: nat, e: nat)
    requires |bits| % 8 == 0 && Fits(bits, e) && !Fits(bits, Loaded(e, p, n))
    ensures n > 0 && p + 24 >= |bits|
  {
  }

  lemma LateDistance(bits: seq<Bit>, dist: seq<nat>, p: nat, e: nat)
    requires p <= |bits| && |bits| % 8 == 0 && Fits(bits, e) && !Fits(bits, AskDistance(bits, dist, p, e))
    ensures Late(bits, MatchDistance(bits, dist, p))
  {
    if !Fits(bits, Loaded(e, p, WINDOW)) {
      LateNumber(bits, p, WINDOW, e);
    } else {
      var s := DecodeSymbol(dist, bits, p);
      LateNumber(bits, s.pos, DistExtra(s.value), Loaded(e, p, WINDOW));
    }
  }

  lemma LateMatch(bits: seq<Bit>, dist: seq<nat>, p: nat, z: nat, size: nat, e: nat)
    requires p <= |bits| && z < 29 && |bits| % 8 == 0 && Fits(bits, e) && !Fits(bits, AskMatch(bits, dist, p, z, e))
    ensures Late(bits, MatchAt(bits, dist, p, z, size))
  {
    if !Fits(bits, Loaded(e, p, LengthExtra(z))) {
      LateNumber(bits, p, LengthExtra(z), e);
    } else {
      LateDistance(bits, dist, MatchLength(bits, p, z).pos, Loaded(e, p, LengthExtra(z)));
    }
  }

  lemma {:induction false} LateCompressed(bits: seq<Bit>, lit: seq<nat>, dist: seq<nat>, p: nat, out: seq<Byte>, e: nat)
    requires p <= |bits| && |bits| % 8 == 0 && Fits(bits, e)
    ensures !Fits(bits, AskCompressed(bits, lit, dist, p, |out|, e)) ==> Late(bits, Compressed(bits, lit, dist, p, out))
    decreases |bits| - p, 0
  {
    var e1, s := Loaded(e, p, WINDOW), DecodeSymbol(lit, bits, p);
    var want, ask := Compressed(bits, lit, dist, p, out), AskCompressed(bits, lit, dist, p, |out|, e);
    SymbolStep(bits, lit, dist, p, out, e, s, e1, want, ask);
    if !Fits(bits, e1) {
      LateNumber(bits, p, WINDOW, e);
      LateSymbol(bits, lit, dist, p, out);
    } else if s.Got? && s.value < 256 {
      var next := out + [s.value];
      assert |next| == |out| + 1;
      LateCompressed(bits, lit, dist, s.pos, next, e1);
    } else if s.Got? && 256 < s.value < 286 {
      LateAfterMatch(bits, lit, dist, s, out, e1, want, ask);
    }
  }

  lemma {:induction false} LateAfterMatch(bits: seq<Bit>, lit: seq<nat>, dist: seq<nat>, s: Read<nat>, out: seq<Byte>,
                                          e: nat, want: Read<seq<Byte>>, ask: nat)
    requires s.Got? && s.pos <= |bits| && |bits| % 8 == 0 && Fits(bits, e) && 256 < s.value < 286
    requires Continues(bits, lit, dist, out, s, e, want, ask)
    ensures !Fits(bits, ask) ==> Late(bits, want)
    decreases |bits| - s.pos, 1
  {
    var e2 := AskMatch(bits, dist, s.pos, s.value - 257, e);
    var m := MatchAt(bits, dist, s.pos, s.value - 257, |out|);
    if !Fits(bits, e2) {
      LateMatch(bits, dist, s.pos, s.value - 257, |out|, e);
    } else if m.Got? {
      var next := CopyBack(out, m.value.len, m.value.dist);
      assert |next| == |out| + m.value.len;
      LateCompressed(bits, lit, dist, m.pos, next, e2);
    }
  }

  lemma LateSymbol(bits: seq<Bit>, lit: seq<nat>, dist: seq<nat>, p: nat, out: seq<Byte>)
    requires p <= |bits| && p + 24 >= |bits|
    ensures Late(bits, Compressed(bits, lit, dist, p, out))
  {
  }

  lemma {:induction false} LateCodeLengthLens(bits: seq<Bit>, p: nat, n: nat, e: nat)
    requires p <= |bits| && n <= 19 && |bits| % 8 == 0 && Fits(bits, e)
    requires !Fits(bits, AskCodeLengthLens(bits, p, n, e))
    ensures p + 3 * n + 24 > |bits|
  {
    var e1 := AskCodeLengthLens(bits, p, n - 1, e);
    if Fits(bits, e1) {
      LateNumber(bits, p + 3 * (n - 1), 3, e1);
    } else {
      LateCodeLengthLens(bits, p, n - 1, e);
    }
  }

  lemma {:induction false} LateAllLens(bits: seq<Bit>, clens: seq<nat>, p: nat, total: nat, lens: seq<nat>, e: nat)
    requires p <= |bits| && |lens| <= total && LensOk(lens) && |bits| % 8 == 0 && Fits(bits, e)
    requires !Fits(bits, AskAllLens(bits, clens, p, total, |lens|, e))
    ensures Late(bits, AllLens(bits, clens, p, total, lens))
    decreases |bits| - p
  {
    var e1, c := Loaded(e, p, WINDOW), DecodeSymbol(clens, bits, p);
    if !Fits(bits, e1) {
      LateNumber(bits, p, WINDOW, e);
    } else if c.Got? && c.value < 16 {
      LateAllLens(bits, clens, c.pos, total, lens + [c.value], e1);
    } else if c.Got? && c.value < 19 {
      var e2, n := Loaded(e1, c.pos, RepeatBits(c.value)), Number(bits, c.pos, RepeatBits(c.value));
      if !Fits(bits, e2) {
        LateNumber(bits, c.pos, RepeatBits(c.value), e1);
      } else if n.Got? {
        var fill := if c.value == 16 && lens != [] then lens[|lens| - 1] else 0;
        LateAllLens(bits, clens, n.pos, total, lens + Repeat(fill, n.value + RepeatBase(c.value)), e2);
      }
    }
  }

  lemma LateDynamicLens(bits: seq<Bit>, p: nat, h: Counts, e: nat)
    requires p <= |bits| && h.hlit <= MAX_SYMBOLS && h.hdist <= MAX_SYMBOLS && h.hclen <= 19
    requires |bits| % 8 == 0 && Fits(bits, e) && !Fits(bits, AskDynamicLens(bits, p, h, e))
    ensures Late(bits, DynamicLens(bits, p, h))
  {
    var e1, c := AskCodeLengthLens(bits, p, h.hclen, e), CodeLengthLens(bits, p, h.hclen);
    CodeLengthLensPos(bits, p, h.hclen);
    if !Fits(bits, e1) {
      LateCodeLengthLens(bits, p, h.hclen, e);
    } else {
      LateAllLens(bits, c.value, c.pos, h.hlit + h.hdist, [], e1);
    }
  }

  lemma LateCounts(bits: seq<Bit>, p: nat, e: nat)
    requires |bits| % 8 == 0 && Fits(bits, e) && !Fits(bits, AskCounts(bits, p, e))
    ensures p + 10 + 24 >= |bits|
  {
  }

  lemma {:induction false} LateLens(bits: seq<Bit>, p: nat, e: nat, h: Counts, a: Read<seq<nat>>)
    requires p + 14 <= |bits| && |bits| % 8 == 0 && Fits(bits, e) && !Fits(bits, AskCodes(bits, p, e))
    requires h == CountsAt(bits, p) && a == DynamicLens(bits, p + 14, h)
    ensures Late(bits, a)
  {
    var e1 := AskCounts(bits, p, e);
    if Fits(bits, e1) { LateDynamicLens(bits, p + 14, h, e1); } else { LateCounts(bits, p, e); }
  }

  lemma {:induction false} LateCodes(bits: seq<Bit>, p: nat, e: nat)
    requires p <= |bits| && |bits| % 8 == 0 && Fits(bits, e) && !Fits(bits, AskCodes(bits, p, e))
    ensures Late(bits, DynamicCodes(bits, MAX_SYMBOLS, p))
  {
    if p + 14 <= |bits| {
      var h := CountsAt(bits, p);
      var a := DynamicLens(bits, p + 14, h);
      CodesAtStep(bits, MAX_SYMBOLS, p, h, a);
      LateLens(bits, p, e, h, a);
    }
  }

  lemma LateBlock(bits: seq<Bit>, btype: nat, p: nat, out: seq<Byte>, e: nat)
    requires p <= |bits| && |bits| % 8 == 0 && Fits(bits, e) && !Fits(bits, AskBlock(bits, btype, p, |out|, e))
    ensures Late(bits, Block(bits, MAX_SYMBOLS, btype, p, out))
  {
    if btype == 1 {
      LateCompressed(bits, FixedLiterals(), FixedDistances(), p, out, e);
    } else if btype == 2 {
      var e1, c := AskCodes(bits, p, e), DynamicCodes(bits, MAX_SYMBOLS, p);
      if !Fits(bits, e1) {
        LateCodes(bits, p, e);
      } else {
        LateCompressed(bits, c.value.literals, c.value.distances, c.pos, out, e1);
      }
    }
  }

  lemma LateHeader(bits: seq<Bit>, p: nat, e: nat)
    requires |bits| % 8 == 0 && Fits(bits, e) && !Fits(bits, AskHeader(bits, p, e))
    ensures p + 1 + 24 >= |bits|
  {
  }

  lemma {:induction false} TheBlock(bits: seq<Bit>, p: nat, out: seq<Byte>, e: nat)
    returns (final: nat, btype: nat, b: Read<seq<Byte>>, e2: nat)
    requires p + 3 <= |bits| && |bits| % 8 == 0 && Fits(bits, AskHeader(bits, p, e))
    ensures final == Lsb(bits, p, 1) && btype == Lsb(bits, p + 1, 2)
    ensures b == Block(bits, MAX_SYMBOLS, btype, p + 3, out)
    ensures e2 == AskBlock(bits, btype, p + 3, |out|, AskHeader(bits, p, e))
    ensures !Fits(bits, e2) ==> Late(bits, b)
  {
    final, btype := Lsb(bits, p, 1), Lsb(bits, p + 1, 2);
    b := Block(bits, MAX_SYMBOLS, btype, p + 3, out);
    e2 := AskBlock(bits, btype, p + 3, |out|, AskHeader(bits, p, e));
    if !Fits(bits, e2) { LateBlock(bits, btype, p + 3, out, AskHeader(bits, p, e)); }
  }

  lemma {:induction false} BlockAndRest(bits: seq<Bit>, p: nat, out: seq<Byte>, e: nat)
    returns (final: nat, b: Read<seq<Byte>>, e2: nat)
    requires p + 3 <= |bits| && |bits| % 8 == 0 && Fits(bits, AskHeader(bits, p, e))
    ensures b.Got? ==> p < b.pos <= |bits|
    ensures !Fits(bits, e2) ==> Late(bits, b)
    ensures Inflate(bits, MAX_SYMBOLS, p, out)
         == if b.Got? && final == 0 then Inflate(bits, MAX_SYMBOLS, b.pos, b.value) else b
    ensures AskInflate(bits, p, out, e)
         == if !Fits(bits, e2) || !b.Got? || final != 0 then e2 else AskInflate(bits, b.pos, b.value, e2)
  {
    var btype;
    final, btype, b, e2 := TheBlock(bits, p, out, e);
    OneBlock(bits, p, out, e, final, btype, b, e2);
  }

  /** The decoder asks for a byte past the stream only if the result is not
      decided three bytes before its end. */
  lemma {:induction false} LateInflate(bits: seq<Bit>, p: nat, out: seq<Byte>, e: nat)
    requires p <= |bits| && |bits| % 8 == 0 && Fits(bits, e)
    ensures !Fits(bits, AskInflate(bits, p, out, e)) ==> Late(bits, Inflate(bits, MAX_SYMBOLS, p, out))
    decreases |bits| - p
  {
    if p + 3 <= |bits| {
      if Fits(bits, AskHeader(bits, p, e)) {
        var final, b, e2 := BlockAndRest(bits, p, out, e);
        if Fits(bits, e2) && b.Got? && final == 0 { LateInflate(bits, b.pos, b.value, e2); }
      } else {
        LateHeader(bits, p, e);
      }
    }
  }
}
