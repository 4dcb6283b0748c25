/** The kernel's DEFLATE decoder (`_ssfn__zbuf` and the functions on it): a
    32-bit reservoir filled a byte at a time, table-driven decoding and the
    block loop.  The decoder has no end-of-input check, so reading past the
    readable memory is a fault here. */
module Inflater {
  import opened BitMath
  import opened Canonical
  import opened Huffman
  import opened Rfc1951
  import opened Readahead

  // The four static tables of section 3.2.5; what lies beyond their entries
  // is zero.
  function ZLengthBase(z: nat): nat {
    match z
    case 0 => 3 case 1 => 4 case 2 => 5 case 3 => 6 case 4 => 7 case 5 => 8 case 6 => 9 case 7 => 10
    case 8 => 11 case 9 => 13 case 10 => 15 case 11 => 17 case 12 => 19 case 13 => 23 case 14 => 27
    case 15 => 31 case 16 => 35 case 17 => 43 case 18 => 51 case 19 => 59 case 20 => 67 case 21 => 83
    case 22 => 99 case 23 => 115 case 24 => 131 case 25 => 163 case 26 => 195 case 27 => 227 case 28 => 258
    case _ => 0
  }

  function ZLengthExtra(z: nat): nat {
    match z
    case 0 => 0 case 1 => 0 case 2 => 0 case 3 => 0 case 4 => 0 case 5 => 0 case 6 => 0 case 7 => 0 case 8 => 1
    case 9 => 1 case 10 => 1 case 11 => 1 case 12 => 2 case 13 => 2 case 14 => 2 case 15 => 2 case 16 => 3
    case 17 => 3 case 18 => 3 case 19 => 3 case 20 => 4 case 21 => 4 case 22 => 4 case 23 => 4 case 24 => 5
    case 25 => 5 case 26 => 5 case 27 => 5 case 28 => 0
    case _ => 0
  }

  function ZDistBase(d: nat): nat {
    match d
    case 0 => 1 case 1 => 2 case 2 => 3 case 3 => 4 case 4 => 5 case 5 => 7 case 6 => 9 case 7 => 13
    case 8 => 17 case 9 => 25 case 10 => 33 case 11 => 49 case 12 => 65 case 13 => 97 case 14 => 129
    case 15 => 193 case 16 => 257 case 17 => 385 case 18 => 513 case 19 => 769 case 20 => 1025 case 21 => 1537
    case 22 => 2049 case 23 => 3073 case 24 => 4097 case 25 => 6145 case 26 => 8193 case 27 => 12289
    case 28 => 16385 case 29 => 24577
    case _ => 0
  }

  function ZDistExtra(d: nat): nat {
    match d
    case 0 => 0 case 1 => 0 case 2 => 0 case 3 => 0 case 4 => 1 case 5 => 1 case 6 => 2 case 7 => 2 case 8 => 3
    case 9 => 3 case 10 => 4 case 11 => 4 case 12 => 5 case 13 => 5 case 14 => 6 case 15 => 6 case 16 => 7
    case 17 => 7 case 18 => 8 case 19 => 8 case 20 => 9 case 21 => 9 case 22 => 10 case 23 => 10 case 24 => 11
    case 25 => 11 case 26 => 12 case 27 => 12 case 28 => 13 case 29 => 13
    case _ => 0
  }

  /** `length_dezigzag`. */
  function ZDezigzag(i: nat): nat {
    match i
    case 0 => 16 case 1 => 17 case 2 => 18 case 3 => 0 case 4 => 8 case 5 => 7 case 6 => 9 case 7 => 6
    case 8 => 10 case 9 => 5 case 10 => 11 case 11 => 4 case 12 => 12 case 13 => 3 case 14 => 13 case 15 => 2
    case 16 => 14 case 17 => 1 case 18 => 15
    case _ => 0
  }

  /** The table is the formula. */
  lemma {:induction false} DezigzagTable(i: nat)
    requires i < 19
    ensures ZDezigzag(i) == ClenOrder(i)
  {
  }

  lemma {:induction false} SmallPowers()
    ensures Pow2(0) == 1 && Pow2(1) == 2 && Pow2(2) == 4 && Pow2(3) == 8 && Pow2(4) == 16
    ensures Pow2(5) == 32 && Pow2(6) == 64 && Pow2(7) == 128 && Pow2(8) == 256 && Pow2(9) == 512
    ensures Pow2(10) == 1024 && Pow2(11) == 2048 && Pow2(12) == 4096 && Pow2(13) == 8192
    ensures Pow2(14) == 0x4000 && Pow2(15) == 0x8000
  {
  }

  lemma {:induction false} LengthBasesLow()
    ensures LengthBase(0) == 3 && LengthBase(1) == 4 && LengthBase(2) == 5 && LengthBase(3) == 6
    ensures LengthBase(4) == 7 && LengthBase(5) == 8 && LengthBase(6) == 9 && LengthBase(7) == 10
    ensures LengthBase(8) == 11 && LengthBase(9) == 13 && LengthBase(10) == 15 && LengthBase(11) == 17
  {
    SmallPowers();
  }

  lemma {:induction false} LengthBasesMid()
    ensures LengthBase(12) == 19 && LengthBase(13) == 23 && LengthBase(14) == 27 && LengthBase(15) == 31
    ensures LengthBase(16) == 35 && LengthBase(17) == 43 && LengthBase(18) == 51 && LengthBase(19) == 59
    ensures LengthBase(20) == 67
  {
    SmallPowers();
    LengthBasesLow();
  }

  lemma {:induction false} LengthBasesHigh()
    ensures LengthBase(21) == 83 && LengthBase(22) == 99 && LengthBase(23) == 115 && LengthBase(24) == 131
    ensures LengthBase(25) == 163 && LengthBase(26) == 195 && LengthBase(27) == 227 && LengthBase(28) == 258
  {
    SmallPowers();
    LengthBasesMid();
  }

  /** The table is the formula. */
  lemma {:induction false} LengthTable(z: nat)
    requires z < 29
    ensures ZLengthExtra(z) == LengthExtra(z) <= 5 && ZLengthBase(z) == LengthBase(z)
  {
    LengthBasesLow();
    LengthBasesMid();
    LengthBasesHigh();
  }

  lemma {:induction false} DistBasesLow()
    ensures DistBase(0) == 1 && DistBase(1) == 2 && DistBase(2) == 3 && DistBase(3) == 4
    ensures DistBase(4) == 5 && DistBase(5) == 7 && DistBase(6) == 9 && DistBase(7) == 13
    ensures DistBase(8) == 17 && DistBase(9) == 25 && DistBase(10) == 33 && DistBase(11) == 49
  {
    SmallPowers();
  }

  lemma {:induction false} DistBasesMid()
    ensures DistBase(12) == 65 && DistBase(13) == 97 && DistBase(14) == 129 && DistBase(15) == 193
    ensures DistBase(16) == 257 && DistBase(17) == 385 && DistBase(18) == 513 && DistBase(19) == 769
    ensures DistBase(20) == 1025
  {
    SmallPowers();
    DistBasesLow();
  }

  lemma {:induction false} DistBasesHigh()
    ensures DistBase(21) == 1537 && DistBase(22) == 2049 && DistBase(23) == 3073 && DistBase(24) == 4097
    ensures DistBase(25) == 6145 && DistBase(26) == 8193 && DistBase(27) == 12289 && DistBase(28) == 16385
    ensures DistBase(29) == 24577
  {
    SmallPowers();
    DistBasesMid();
  }

  /** The table is the formula. */
  lemma {:induction false} DistTable(d: nat)
    requires d < 30
    ensures ZDistExtra(d) == DistExtra(d) <= 13 && ZDistBase(d) == DistBase(d)
  {
    DistBasesLow();
    DistBasesMid();
    DistBasesHigh();
  }

  datatype Progress = More | Done | Bad

  class ZBuf {
    const mem: seq<Byte>
    var zbuffer: nat       // next byte to read
    var numBits: nat       // bits in the reservoir
    var codeBuffer: nat    // the reservoir
    var zout: seq<Byte>
    var fault: bool
    ghost const stream: seq<Bit>
    ghost var pos: nat     // the next unread bit of the stream
    const zLength: Tables
    const zDistance: Tables

    constructor (mem: seq<Byte>, ghost bits: seq<Bit>)
      requires Carries(bits, mem)
      ensures Valid() && stream == bits && TablesApart() && this.mem == mem && fresh(TableArrays())
      ensures !fault && pos == 0 && zout == [] && numBits == 0
    {
      this.mem := mem;
      stream, pos := bits, 0;
      zbuffer, numBits, codeBuffer := 0, 0, 0;
      zout, fault := [], false;
      zLength := new Tables();
      zDistance := new Tables();
    }

    ghost function TableArrays(): set<object> {
      zLength.Arrays() + zDistance.Arrays()
    }

    ghost predicate TablesApart() {
      && zLength.Shape() && zDistance.Shape()
      && zLength.Arrays() !! zDistance.Arrays()
      && this !in TableArrays()
    }

    ghost predicate TablesHold(lit: seq<nat>, dst: seq<nat>)
      reads TableArrays()
    {
      zLength.Describes(lit) && zDistance.Describes(dst)
    }

    /** The reservoir always holds the unread bits before `zbuffer`. */
    ghost predicate Reservoir()
      reads this
    {
      && pos + numBits == 8 * zbuffer <= |stream| && numBits <= 32
      && codeBuffer == Lsb(stream, pos, numBits)
    }

    ghost predicate Valid()
      reads this
    {
      Reservoir() && Carries(stream, mem)
    }

    /** With `e` bytes asked for: a fault exactly if memory has fewer. */
    ghost predicate Asked(e: nat)
      reads this
    {
      if fault then !Fits(stream, e) else zbuffer == e
    }

    /** The outcome of a read against its reference: a fault exactly if the
        bytes asked for are not there, otherwise the same value, position and
        verdict. */
    ghost predicate Reports<T>(r: Read<T>, ok: bool, v: T, e: nat)
      reads this
    {
      && Valid() && Asked(e)
      && (fault ==> !ok)
      && (!fault && !ok ==> r.Malformed?)
      && (!fault && ok ==> r == Got(v, pos))
    }

    method Zget8() returns (b: Byte)
      requires zbuffer <= |mem|
      modifies this`zbuffer, this`fault
      ensures old(zbuffer) < |mem| ==> b == mem[old(zbuffer)] && zbuffer == old(zbuffer) + 1 && fault == old(fault)
      ensures old(zbuffer) == |mem| ==> fault && zbuffer == old(zbuffer)
    {
      if zbuffer == |mem| {
        fault := true;
        b := 0;
      } else {
        b := mem[zbuffer];
        zbuffer := zbuffer + 1;
      }
    }

    method FillBits()
      requires Valid() && !fault && numBits <= 24
      modifies this`zbuffer, this`numBits, this`codeBuffer, this`fault, this`pos
      ensures Valid() && pos == old(pos)
      ensures fault <==> |mem| - old(zbuffer) < (32 - old(numBits)) / 8
      ensures Asked((pos + 32) / 8) && (!fault ==> 24 < numBits)
    {
      while numBits <= 24
        invariant Reservoir() && !fault && pos == old(pos)
        decreases 32 - numBits
      {
        var b := Zget8();
        if fault {
          return;
        }
        LsbAppendByte(stream, mem, pos, numBits, zbuffer - 1);
        codeBuffer := codeBuffer + Shl(b, numBits);
        numBits := numBits + 8;
      }
    }

    /** Drop `n` bits that are in the reservoir. */
    method Drop(n: nat)
      requires Valid() && n <= numBits
      modifies this`numBits, this`codeBuffer, this`pos
      ensures Valid() && pos == old(pos) + n && numBits == old(numBits) - n
    {
      LsbShr(stream, pos, numBits, n);
      codeBuffer := Shr(codeBuffer, n);
      numBits, pos := numBits - n, pos + n;
    }

    method Receive(n: nat) returns (k: nat)
      requires Valid() && !fault && n <= 16
      modifies this`zbuffer, this`numBits, this`codeBuffer, this`fault, this`pos
      ensures Valid()
      ensures Asked(Loaded(old(zbuffer), old(pos), n))
      ensures !fault ==> Number(stream, old(pos), n) == Got(k, pos)
      ensures !fault ==> numBits <= 32 - n
      ensures old(numBits) >= n ==> !fault && numBits == old(numBits) - n
    {
      k := 0;
      if numBits < n {
        FillBits();
        if fault {
          return;
        }
      }
      LsbLow(stream, pos, numBits, n);
      k := Low(codeBuffer, n);
      Drop(n);
    }

    method DecodeSlowpath(z: Tables, ghost lens: seq<nat>) returns (r: int)
      requires Valid() && numBits >= 16 && z.Describes(lens)
      requires Msb(stream, pos, 16) >= MaxCode(lens, FAST_BITS)
      modifies this`numBits, this`codeBuffer, this`pos
      ensures Valid()
      ensures if r < 0 then DecodeSymbol(lens, stream, old(pos)).Malformed?
              else DecodeSymbol(lens, stream, old(pos)) == Got(r, pos)
    {
      ghost var p := pos;
      var k := Rev(codeBuffer, 16);
      RevLsb(stream, p, numBits, 16);
      Sixteen();
      var s := FAST_BITS + 1;
      while z.maxcode[s] <= k
        invariant FAST_BITS < s <= 16 && MaxCode(lens, s - 1) <= k
        decreases 16 - s
      {
        assert s < 16 ==> z.RangeAt(lens, s);
        s := s + 1;
      }
      if s == 16 {
        SlowNone(lens, stream, p);
        return -1;
      }
      assert z.RangeAt(lens, s);
      ghost var m := SlowDecode(lens, stream, p, s);
      RankBound(lens, m);
      var b := Shr(k, 16 - s) - z.firstcode[s] + z.firstsymbol[s];
      if b >= MAX_SYMBOLS || z.size[b] != s {
        assert false;
        return -1;
      }
      Drop(s);
      return z.value[b];
    }

    method Decode(z: Tables, ghost lens: seq<nat>) returns (r: int)
      requires Valid() && !fault && z.Describes(lens)
      modifies this`zbuffer, this`numBits, this`codeBuffer, this`fault, this`pos
      ensures Valid()
      ensures Asked(Loaded(old(zbuffer), old(pos), WINDOW))
      ensures !fault && r < 0 ==> DecodeSymbol(lens, stream, old(pos)).Malformed?
      ensures !fault && r >= 0 ==> DecodeSymbol(lens, stream, old(pos)) == Got(r, pos)
    {
      if numBits < 16 {
        FillBits();
        if fault {
          return -1;
        }
      }
      r := DecodeFilled(z, lens);
    }

    method DecodeFilled(z: Tables, ghost lens: seq<nat>) returns (r: int)
      requires Valid() && numBits >= 16 && z.Describes(lens)
      modifies this`numBits, this`codeBuffer, this`pos
      ensures Valid()
      ensures if r < 0 then DecodeSymbol(lens, stream, old(pos)).Malformed?
              else DecodeSymbol(lens, stream, old(pos)) == Got(r, pos)
    {
      FastDecode(lens, stream, pos, numBits);
      NineBits(codeBuffer);
      var b := z.fast[Low(codeBuffer, FAST_BITS)];
      if b != 0 {
        Drop(b / 512);
        return b % 512;
      }
      r := DecodeSlowpath(z, lens);
    }

    /** The two byte copies: a run of one byte, or a byte at a time. */
    static method Copy(out: seq<Byte>, length: nat, dist: nat) returns (r: seq<Byte>)
      requires 1 <= dist <= |out|
      ensures r == CopyBack(out, length, dist)
    {
      var len := length;
      r := out;
      if dist == 1 {
        var v := out[|out| - 1];
        while len > 0
          invariant r != [] && r[|r| - 1] == v
          invariant CopyBack(r, len, 1) == CopyBack(out, length, 1)
        {
          r := r + [v];
          len := len - 1;
        }
      } else {
        var p := |out| - dist;
        while len > 0
          invariant p + dist == |r| && dist <= |r|
          invariant CopyBack(r, len, dist) == CopyBack(out, length, dist)
        {
          r := r + [r[p]];
          p := p + 1;
          len := len - 1;
        }
      }
    }

    static method LengthEntry(z: nat) returns (base: nat, extra: nat)
      requires z < 29
      ensures base == LengthBase(z) && extra == LengthExtra(z) <= 5
    {
      LengthTable(z);
      base, extra := ZLengthBase(z), ZLengthExtra(z);
    }

    static method DistEntry(d: nat) returns (base: nat, extra: nat)
      requires d < 30
      ensures base == DistBase(d) && extra == DistExtra(d) <= 13
    {
      DistTable(d);
      base, extra := ZDistBase(d), ZDistExtra(d);
    }

    /** The extra bits of a length or distance, if it has any. */
    method ReadExtra(extra: nat) returns (x: nat)
      requires Valid() && !fault && extra <= 16
      modifies this`zbuffer, this`numBits, this`codeBuffer, this`fault, this`pos
      ensures Valid() && Asked(Loaded(old(zbuffer), old(pos), extra))
      ensures !fault ==> Number(stream, old(pos), extra) == Got(x, pos)
    {
      x := 0;
      if extra != 0 {
        x := Receive(extra);
      }
    }

    method ReadLength(z: nat) returns (len: nat)
      requires Valid() && !fault && z < 29
      modifies this`zbuffer, this`numBits, this`codeBuffer, this`fault, this`pos
      ensures Valid()
      ensures Asked(Loaded(old(zbuffer), old(pos), LengthExtra(z)))
      ensures !fault ==> MatchLength(stream, old(pos), z) == Got(len, pos)
    {
      var extra;
      len, extra := LengthEntry(z);
      var x := ReadExtra(extra);
      len := len + x;
    }

    method ReadDistance(ghost lens: seq<nat>, ghost want: Read<nat>, ghost e: nat) returns (ok: bool, dist: nat)
      requires Valid() && !fault && zDistance.Describes(lens)
      requires want == MatchDistance(stream, lens, pos) && e == AskDistance(stream, lens, pos, zbuffer)
      modifies this`zbuffer, this`numBits, this`codeBuffer, this`fault, this`pos
      ensures Reports(want, ok, dist, e)
    {
      ok, dist := false, 0;
      var d := Decode(zDistance, lens);
      if fault || d < 0 || d >= 30 {
        return;
      }
      var extra;
      dist, extra := DistEntry(d);
      var y := ReadExtra(extra);
      ok, dist := !fault, dist + y;
    }

    method ReadMatch(z: nat, size: nat, ghost dst: seq<nat>, ghost want: Read<Match>, ghost e: nat)
      returns (ok: bool, m: Match)
      requires Valid() && !fault && z < 29 && zDistance.Describes(dst)
      requires want == MatchAt(stream, dst, pos, z, size) && e == AskMatch(stream, dst, pos, z, zbuffer)
      modifies this`zbuffer, this`numBits, this`codeBuffer, this`fault, this`pos
      ensures Reports(want, ok, m, e)
    {
      ok, m := false, Match(0, 0);
      var len := ReadLength(z);
      if fault {
        return;
      }
      var found, dist := ReadDistance(dst, MatchDistance(stream, dst, pos), AskDistance(stream, dst, pos, zbuffer));
      if fault || !found || size < dist {
        return;
      }
      ok, m := true, Match(len, dist);
    }

    /** Where the symbol loop stands: `want` and `ask` are what is decoded and
        asked for in the end. */
    ghost predicate Underway(p: Progress, out: seq<Byte>, lit: seq<nat>, dst: seq<nat>, want: Read<seq<Byte>>, ask: nat)
      reads this
    {
      && Valid()
      && (p == More ==>
            && !fault && want == Compressed(stream, lit, dst, pos, out)
            && ask == AskCompressed(stream, lit, dst, pos, |out|, zbuffer))
      && (p != More ==> Reports(want, p == Done, out, ask))
    }

    /** One round of the symbol loop. */
    method Step(out: seq<Byte>, ghost lit: seq<nat>, ghost dst: seq<nat>, ghost want: Read<seq<Byte>>, ghost ask: nat)
      returns (p: Progress, r: seq<Byte>)
      requires TablesHold(lit, dst) && Underway(More, out, lit, dst, want, ask)
      modifies this`zbuffer, this`numBits, this`codeBuffer, this`fault, this`pos
      ensures Underway(p, r, lit, dst, want, ask) && (p == More ==> pos > old(pos))
    {
      r := out;
      ghost var s, e := DecodeSymbol(lit, stream, pos), Loaded(zbuffer, pos, WINDOW);
      SymbolStep(stream, lit, dst, pos, out, zbuffer, s, e, want, ask);
      var z := Decode(zLength, lit);
      if fault || z < 0 {
        return Bad, r;
      }
      p, r := Dispatch(z, out, lit, dst, s, want, ask);
    }

    method Dispatch(z: nat, out: seq<Byte>, ghost lit: seq<nat>, ghost dst: seq<nat>,
                    ghost s: Read<nat>, ghost want: Read<seq<Byte>>, ghost ask: nat)
      returns (p: Progress, r: seq<Byte>)
      requires Valid() && !fault && zDistance.Describes(dst) && s == Got(z, pos)
      requires Continues(stream, lit, dst, out, s, zbuffer, want, ask)
      modifies this`zbuffer, this`numBits, this`codeBuffer, this`fault, this`pos
      ensures Underway(p, r, lit, dst, want, ask) && (p == More ==> pos >= old(pos))
    {
      r := out;
      if z < 256 {
        r := out + [z];
        assert |r| == |out| + 1;
        return More, r;
      }
      if z == 256 {
        return Done, out;
      }
      if z >= 286 {
        return Bad, out;
      }
      p, r := StepOverMatch(z, out, lit, dst, s, want, ask);
    }

    method StepOverMatch(z: nat, out: seq<Byte>, ghost lit: seq<nat>, ghost dst: seq<nat>,
                         ghost s: Read<nat>, ghost want: Read<seq<Byte>>, ghost ask: nat)
      returns (p: Progress, r: seq<Byte>)
      requires Valid() && !fault && zDistance.Describes(dst) && 256 < z < 286 && s == Got(z, pos)
      requires Continues(stream, lit, dst, out, s, zbuffer, want, ask)
      modifies this`zbuffer, this`numBits, this`codeBuffer, this`fault, this`pos
      ensures Underway(p, r, lit, dst, want, ask) && p != Done && (p == More ==> pos >= old(pos))
    {
      ghost var m := MatchAt(stream, dst, pos, z - 257, |out|);
      ghost var e := AskMatch(stream, dst, pos, z - 257, zbuffer);
      var ok, got := ReadMatch(z - 257, |out|, dst, m, e);
      p, r := CopyMatch(ok, got, out, lit, dst, m, e, want, ask);
    }

    /** The match has been read: copy it. */
    method CopyMatch(ok: bool, got: Match, out: seq<Byte>, ghost lit: seq<nat>, ghost dst: seq<nat>,
                     ghost m: Read<Match>, ghost e: nat, ghost want: Read<seq<Byte>>, ghost ask: nat)
      returns (p: Progress, r: seq<Byte>)
      requires Reports(m, ok, got, e)
      requires m.Malformed? ==> want.Malformed?
      requires m.Got? ==> m.pos <= |stream| && 1 <= m.value.dist <= |out|
                          && want == Compressed(stream, lit, dst, m.pos, CopyBack(out, m.value.len, m.value.dist))
      requires !Fits(stream, e) || !m.Got? ==> ask == e
      requires Fits(stream, e) && m.Got? ==> ask == AskCompressed(stream, lit, dst, m.pos, |out| + m.value.len, e)
      ensures Underway(p, r, lit, dst, want, ask) && p != Done && (p == More ==> m.Got? && pos == m.pos)
    {
      if !ok {
        return Bad, out;
      }
      r := Copy(out, got.len, got.dist);
      assert |r| == |out| + got.len;
      p := More;
    }

    method ParseHuffmanBlock(ghost lit: seq<nat>, ghost dst: seq<nat>) returns (ok: bool)
      requires Valid() && !fault && TablesHold(lit, dst)
      modifies this
      ensures Reports(Compressed(stream, lit, dst, old(pos), old(zout)), ok, zout,
                      AskCompressed(stream, lit, dst, old(pos), |old(zout)|, old(zbuffer)))
    {
      var out: seq<Byte> := zout;
      ghost var want := Compressed(stream, lit, dst, pos, zout);
      ghost var ask := AskCompressed(stream, lit, dst, pos, |zout|, zbuffer);
      var p := More;
      while p == More
        invariant Underway(p, out, lit, dst, want, ask)
        decreases p.More?, |stream| - pos
      {
        p, out := Step(out, lit, dst, want, ask);
      }
      if p == Done {
        zout := out;
      }
      return p == Done;
    }

    // ---- stored blocks ------------------------------------------------------

    /** Drop the bits up to the next byte boundary. */
    method AlignInput()
      requires Valid() && !fault && numBits <= 30
      modifies this`zbuffer, this`numBits, this`codeBuffer, this`fault, this`pos
      ensures Valid() && !fault && pos == Align(old(pos)) && numBits <= 24 && numBits % 8 == 0
    {
      var n := numBits % 8;
      AlignedAfter(pos, numBits, zbuffer, n);
      if n != 0 {
        var _ := Receive(n);
      }
    }

    /** The four header bytes: first those already in the reservoir. */
    ghost predicate HeaderRead(q: nat, header: seq<nat>)
      reads this
    {
      && Valid() && !fault && |header| <= 4 && pos == 8 * (q + |header|)
      && forall j | 0 <= j < |header| :: header[j] == OctetAt(stream, q + j)
    }

    method StoredHeader(ghost q: nat) returns (header: seq<nat>)
      requires Valid() && !fault && numBits <= 24 && numBits % 8 == 0 && pos == 8 * q
      modifies this`zbuffer, this`numBits, this`codeBuffer, this`fault, this`pos
      ensures Valid() && numBits == 0
      ensures fault <==> old(pos) + 32 > |stream|
      ensures !fault ==> HeaderRead(q, header) && |header| == 4
    {
      header := DrainAll(q);
      while !fault && |header| < 4
        invariant Valid() && numBits == 0 && |header| <= 4
        invariant if fault then 8 * q + 32 > |stream| else HeaderRead(q, header)
        decreases !fault, 4 - |header|
      {
        header := NextByte(q, header);
      }
    }

    method DrainAll(ghost q: nat) returns (header: seq<nat>)
      requires Valid() && !fault && numBits <= 24 && numBits % 8 == 0 && pos == 8 * q
      modifies this`numBits, this`codeBuffer, this`pos
      ensures HeaderRead(q, header) && numBits == 0
    {
      header := [];
      while numBits > 0
        invariant HeaderRead(q, header) && numBits % 8 == 0 && 8 * |header| + numBits <= 24
        decreases numBits
      {
        header := DrainByte(q, header);
      }
    }

    method NextByte(ghost q: nat, header: seq<nat>) returns (r: seq<nat>)
      requires HeaderRead(q, header) && numBits == 0 && |header| < 4
      modifies this`zbuffer, this`fault, this`pos
      ensures Valid() && numBits == 0
      ensures fault ==> r == header && 8 * q + 32 > |stream|
      ensures !fault ==> HeaderRead(q, r) && |r| == |header| + 1
    {
      r := header;
      var b := Zget8();
      if !fault {
        assert b == OctetAt(stream, q + |header|);
        r := header + [b];
        pos := pos + 8;
      }
    }

    method DrainByte(ghost q: nat, header: seq<nat>) returns (r: seq<nat>)
      requires HeaderRead(q, header) && numBits >= 8 && |header| < 4
      modifies this`numBits, this`codeBuffer, this`pos
      ensures HeaderRead(q, r) && |r| == |header| + 1 && numBits == old(numBits) - 8
    {
      LsbLow(stream, pos, numBits, 8);
      r := header + [Low(codeBuffer, 8)];
      assert r[|header|] == OctetAt(stream, q + |header|);
      Drop(8);
    }

    method StoredLengths() returns (len: nat, nlen: nat)
      requires Valid() && !fault && numBits <= 24 && numBits % 8 == 0 && pos % 8 == 0
      modifies this`zbuffer, this`numBits, this`codeBuffer, this`fault, this`pos
      ensures Valid() && numBits == 0
      ensures fault <==> old(pos) + 32 > |stream|
      ensures !fault ==> pos == old(pos) + 32
      ensures !fault ==> len == Lsb(stream, old(pos), 16) && nlen == Lsb(stream, old(pos) + 16, 16)
    {
      len, nlen := 0, 0;
      ghost var q := pos;
      var header := StoredHeader(q / 8);
      if !fault {
        HeaderNumbers(q, header);
        len, nlen := header[1] * 256 + header[0], header[3] * 256 + header[2];
      }
    }

    method ParseUncompressedBlock() returns (ok: bool)
      requires Valid() && !fault && numBits <= 30
      modifies this
      ensures Reports(Stored(stream, old(pos), old(zout)), ok, zout, AskStored(stream, old(pos)))
    {
      AlignInput();
      ok := StoredBody(old(pos), Stored(stream, old(pos), zout), AskStored(stream, old(pos)));
    }

    /** The block from its first byte boundary on. */
    method StoredBody(ghost p: nat, ghost want: Read<seq<Byte>>, ghost ask: nat) returns (ok: bool)
      requires Valid() && !fault && numBits <= 24 && numBits % 8 == 0 && p <= |stream| && pos == Align(p)
      requires want == Stored(stream, p, zout) && ask == AskStored(stream, p)
      modifies this
      ensures Reports(want, ok, zout, ask)
    {
      var len, nlen := StoredLengths();
      if fault {
        return false;
      }
      if nlen as int != 0xFFFF - len as int {
        return false;
      }
      StoredCopy(len);
      return !fault;
    }

    /** LEN and NLEN. */
    lemma HeaderNumbers(q: nat, header: seq<nat>)
      requires q % 8 == 0 && q + 32 <= |stream| && |header| == 4 && HeaderRead(q / 8, header)
      ensures Lsb(stream, q, 16) == header[1] * 256 + header[0]
      ensures Lsb(stream, q + 16, 16) == header[3] * 256 + header[2]
    {
      TwoOctets(stream, q);
      TwoOctets(stream, q + 16);
      assert (q + 16) / 8 == q / 8 + 2;
    }

    /** Copy `len` bytes straight from the input. */
    method StoredCopy(len: nat)
      requires Valid() && !fault && numBits == 0
      modifies this
      ensures Valid() && (!fault ==> numBits == 0)
      ensures fault <==> old(pos) + 8 * len > |stream|
      ensures !fault ==> pos == old(pos) + 8 * len
      ensures !fault ==> zout == old(zout) + BytesAt(stream, old(pos), len)
    {
      ghost var start := zbuffer;
      ghost var out := zout;
      for k := 0 to len
        invariant Valid() && !fault && numBits == 0 && zbuffer == start
        invariant start + k <= |mem| && zout == out + mem[start..start + k]
      {
        if zbuffer + k == |mem| {
          fault := true;
          return;
        }
        zout := zout + [mem[zbuffer + k]];
      }
      zbuffer, pos := zbuffer + len, pos + 8 * len;
      BytesAtMem(stream, mem, start, len);
    }

    // ---- dynamic codes ---------------------------------------------------------

    method ReadCodeLengthSizes(hclen: nat) returns (sizes: seq<nat>)
      requires Valid() && !fault && hclen <= 19
      modifies this`zbuffer, this`numBits, this`codeBuffer, this`fault, this`pos
      ensures Valid()
      ensures Asked(AskCodeLengthLens(stream, old(pos), hclen, old(zbuffer)))
      ensures !fault ==> CodeLengthLens(stream, old(pos), hclen) == Got(sizes, pos)
    {
      sizes := Repeat(0, 19);
      for i := 0 to hclen
        invariant Valid() && !fault && ShortLens(sizes) && pos == old(pos) + 3 * i
        invariant CodeLengthLens(stream, old(pos), i) == Got(sizes, pos)
        invariant zbuffer == AskCodeLengthLens(stream, old(pos), i, old(zbuffer))
      {
        sizes := ReadSize(i, sizes, old(pos), old(zbuffer));
        if fault {
          AskLensStops(stream, old(pos), i + 1, hclen, old(zbuffer));
          return;
        }
      }
    }

    method ReadSize(i: nat, sizes: seq<nat>, ghost start: nat, ghost e: nat) returns (r: seq<nat>)
      requires Valid() && !fault && i < 19 && ShortLens(sizes) && pos == start + 3 * i
      requires CodeLengthLens(stream, start, i) == Got(sizes, pos) && zbuffer == AskCodeLengthLens(stream, start, i, e)
      modifies this`zbuffer, this`numBits, this`codeBuffer, this`fault, this`pos
      ensures Valid() && Asked(AskCodeLengthLens(stream, start, i + 1, e))
      ensures !fault ==> ShortLens(r) && pos == start + 3 * (i + 1)
      ensures !fault ==> CodeLengthLens(stream, start, i + 1) == Got(r, pos)
    {
      r := sizes;
      var n := Receive(3);
      if !fault {
        ThreeBits();
        DezigzagTable(i);
        r := sizes[ZDezigzag(i) := n];
      }
    }

    /** The repeat codes 16, 17 and 18. */
    method ReadRepeat(c: nat) returns (count: nat)
      requires Valid() && !fault && 16 <= c < 19
      modifies this`zbuffer, this`numBits, this`codeBuffer, this`fault, this`pos
      ensures Valid()
      ensures Asked(Loaded(old(zbuffer), old(pos), RepeatBits(c)))
      ensures !fault ==> count >= RepeatBase(c)
      ensures !fault ==> Number(stream, old(pos), RepeatBits(c)) == Got(count - RepeatBase(c), pos)
    {
      if c == 16 {
        count := Receive(2);
        count := count + 3;
      } else if c == 17 {
        count := Receive(3);
        count := count + 3;
      } else {
        count := Receive(7);
        count := count + 11;
      }
    }

    /** One round of the code length loop. */
    method LensStep(z: Tables, ghost clens: seq<nat>, total: nat, lens: seq<nat>) returns (ok: bool, r: seq<nat>)
      requires Valid() && !fault && z.Describes(clens) && LensOk(lens) && |lens| < total
      modifies this`zbuffer, this`numBits, this`codeBuffer, this`fault, this`pos
      ensures Valid() && (fault ==> !ok)
      ensures var want := AllLens(stream, clens, old(pos), total, lens);
              && (!fault && !ok ==> want.Malformed?)
              && (!fault && ok ==> pos > old(pos) && LensOk(r) && |r| <= total
                                   && want == AllLens(stream, clens, pos, total, r))
      ensures var ask := AskAllLens(stream, clens, old(pos), total, |lens|, old(zbuffer));
              if ok then ask == AskAllLens(stream, clens, pos, total, |r|, zbuffer) else Asked(ask)
    {
      ok, r := false, lens;
      var c := Decode(z, clens);
      if fault || c < 0 || c >= 19 {
        return;
      }
      if c < 16 {
        return true, lens + [c];
      }
      ok, r := LensRepeat(c, total, lens, old(pos), old(zbuffer), clens);
    }

    method LensRepeat(c: nat, total: nat, lens: seq<nat>, ghost start: nat, ghost e: nat, ghost clens: seq<nat>)
      returns (ok: bool, r: seq<nat>)
      requires Valid() && !fault && LensOk(lens) && |lens| < total && 16 <= c < 19
      requires start < pos && DecodeSymbol(clens, stream, start) == Got(c, pos) && zbuffer == Loaded(e, start, WINDOW)
      modifies this`zbuffer, this`numBits, this`codeBuffer, this`fault, this`pos
      ensures Valid() && (fault ==> !ok)
      ensures var want := AllLens(stream, clens, start, total, lens);
              && (!fault && !ok ==> want.Malformed?)
              && (!fault && ok ==> pos > start && LensOk(r) && |r| <= total
                                   && want == AllLens(stream, clens, pos, total, r))
      ensures var ask := AskAllLens(stream, clens, start, total, |lens|, e);
              if ok then ask == AskAllLens(stream, clens, pos, total, |r|, zbuffer) else Asked(ask)
    {
      ok, r := false, lens;
      var count := ReadRepeat(c);
      if fault || (c == 16 && lens == []) || total - |lens| < count {
        return;
      }
      var fill := if c == 16 then lens[|lens| - 1] else 0;
      return true, lens + Repeat(fill, count);
    }

    method ReadLens(z: Tables, ghost clens: seq<nat>, total: nat) returns (ok: bool, lens: seq<nat>)
      requires Valid() && !fault && z.Describes(clens)
      modifies this`zbuffer, this`numBits, this`codeBuffer, this`fault, this`pos
      ensures Reports(AllLens(stream, clens, old(pos), total, []), ok, lens,
                      AskAllLens(stream, clens, old(pos), total, 0, old(zbuffer)))
    {
      ok, lens := true, [];
      ghost var want := AllLens(stream, clens, pos, total, []);
      ghost var ask := AskAllLens(stream, clens, pos, total, 0, zbuffer);
      while ok && |lens| < total
        invariant Valid() && LensOk(lens) && |lens| <= total && (fault ==> !ok)
        invariant if ok then ask == AskAllLens(stream, clens, pos, total, |lens|, zbuffer) else Asked(ask)
        invariant !fault && !ok ==> want.Malformed?
        invariant !fault && ok ==> want == AllLens(stream, clens, pos, total, lens)
        decreases ok, |stream| - pos
      {
        var next;
        ok, next := LensStep(z, clens, total, lens);
        if ok {
          lens := next;
        }
      }
    }

    /** HLIT, HDIST and HCLEN. */
    method ReadCounts() returns (h: Counts)
      requires Valid() && !fault
      modifies this`zbuffer, this`numBits, this`codeBuffer, this`fault, this`pos
      ensures Valid() && Asked(AskCounts(stream, old(pos), old(zbuffer)))
      ensures !fault ==> pos == old(pos) + 14 <= |stream| && h == CountsAt(stream, old(pos))
    {
      h := Counts(0, 0, 0);
      var hlit := Receive(5);
      if fault {
        return;
      }
      var hdist := Receive(5);
      if fault {
        return;
      }
      var hclen := Receive(4);
      if fault {
        return;
      }
      h := Counts(hlit + 257, hdist + 1, hclen + 4);
    }

    /** The tables of the code length code, which live for one block header. */
    static method BuildCodeLengths(sizes: seq<nat>) returns (ok: bool, z: Tables)
      requires ShortLens(sizes)
      ensures ok <==> Kraft(sizes)
      ensures ok ==> z.Describes(sizes)
    {
      z := new Tables();
      ok := z.Build(sizes);
    }

    method ReadLensWith(sizes: seq<nat>, total: nat) returns (ok: bool, lens: seq<nat>)
      requires Valid() && !fault && ShortLens(sizes)
      modifies this`zbuffer, this`numBits, this`codeBuffer, this`fault, this`pos
      ensures Reports(LensFrom(stream, sizes, old(pos), total), ok, lens,
                      AskLensFrom(stream, sizes, old(pos), total, old(zbuffer)))
    {
      lens := [];
      var z;
      ok, z := BuildCodeLengths(sizes);
      if ok {
        ok, lens := ReadLens(z, sizes, total);
      }
    }

    /** All code lengths, through the code length code. */
    method ReadDynamicLens(h: Counts) returns (ok: bool, lens: seq<nat>)
      requires Valid() && !fault
      requires h.hlit <= MAX_SYMBOLS && h.hdist <= MAX_SYMBOLS && h.hclen <= 19
      modifies this`zbuffer, this`numBits, this`codeBuffer, this`fault, this`pos
      ensures Reports(DynamicLens(stream, old(pos), h), ok, lens, AskDynamicLens(stream, old(pos), h, old(zbuffer)))
    {
      ok, lens := false, [];
      var sizes := ReadCodeLengthSizes(h.hclen);
      if !fault {
        ok, lens := ReadLensWith(sizes, h.hlit + h.hdist);
      }
    }

    method ReadCodes() returns (ok: bool, codes: Codes)
      requires Valid() && !fault
      modifies this`zbuffer, this`numBits, this`codeBuffer, this`fault, this`pos
      ensures Reports(CodesAt(stream, MAX_SYMBOLS, old(pos)), ok, codes, AskCodes(stream, old(pos), old(zbuffer)))
    {
      ok, codes := false, Codes([], []);
      var h := ReadCounts();
      if fault {
        return;
      }
      CodesAtStep(stream, MAX_SYMBOLS, old(pos), h, DynamicLens(stream, pos, h));
      var lens;
      ok, lens := ReadDynamicLens(h);
      if ok {
        codes := Codes(lens[..h.hlit], lens[h.hlit..]);
      }
    }

    method ComputeHuffmanCodes() returns (ok: bool, ghost codes: Codes)
      requires Valid() && !fault && TablesApart()
      modifies this`zbuffer, this`numBits, this`codeBuffer, this`fault, this`pos, TableArrays()
      ensures Reports(DynamicCodes(stream, MAX_SYMBOLS, old(pos)), ok, codes, AskCodes(stream, old(pos), old(zbuffer)))
      ensures ok ==> TablesHold(codes.literals, codes.distances)
    {
      var c;
      ok, c := ReadCodes();
      codes := c;
      if ok {
        ok := BuildBoth(c.literals, c.distances);
      }
    }

    method BuildBoth(lit: seq<nat>, dst: seq<nat>) returns (ok: bool)
      requires TablesApart() && ValidLens(lit) && ValidLens(dst)
      modifies TableArrays()
      ensures ok <==> Kraft(lit) && Kraft(dst)
      ensures ok ==> TablesHold(lit, dst)
    {
      ok := zLength.Build(lit);
      if ok {
        ok := zDistance.Build(dst);
      }
    }

    // ---- the block loop ------------------------------------------------------------

    /** `_ssfn__init_zdefaults`. */
    static method InitZdefaults() returns (lit: seq<nat>, dst: seq<nat>)
      ensures lit == FixedLiterals() && dst == FixedDistances()
    {
      lit, dst := [], [];
      for i := 0 to 144
        invariant |lit| == i && forall j | 0 <= j < i :: lit[j] == 8
      {
        lit := lit + [8];
      }
      for i := 144 to 256
        invariant |lit| == i && forall j | 0 <= j < i :: lit[j] == if j <= 143 then 8 else 9
      {
        lit := lit + [9];
      }
      for i := 256 to 280
        invariant |lit| == i
        invariant forall j | 0 <= j < i :: lit[j] == if j <= 143 then 8 else if j <= 255 then 9 else 7
      {
        lit := lit + [7];
      }
      for i := 280 to 288
        invariant |lit| == i
        invariant forall j | 0 <= j < i :: lit[j] == FixedLiterals()[j]
      {
        lit := lit + [8];
      }
      for i := 0 to 32
        invariant |dst| == i && forall j | 0 <= j < i :: dst[j] == 5
      {
        dst := dst + [5];
      }
    }

    /** One block of the given type. */
    method ParseBlock(btype: nat, ghost b: Read<seq<Byte>>, ghost e: nat) returns (ok: bool)
      requires Valid() && !fault && TablesApart() && btype < 4 && numBits <= 30
      requires b == Block(stream, MAX_SYMBOLS, btype, pos, zout) && e == AskBlock(stream, btype, pos, |zout|, zbuffer)
      modifies this, TableArrays()
      ensures Reports(b, ok, zout, e)
    {
      ok := false;
      if btype == 0 {
        ok := ParseUncompressedBlock();
      } else if btype == 1 {
        ok := ParseFixedBlock();
      } else if btype == 2 {
        ok := ParseDynamicBlock();
      }
    }

    method ParseFixedBlock() returns (ok: bool)
      requires Valid() && !fault && TablesApart()
      modifies this, TableArrays()
      ensures Reports(Block(stream, MAX_SYMBOLS, 1, old(pos), old(zout)), ok, zout,
                      AskBlock(stream, 1, old(pos), |old(zout)|, old(zbuffer)))
    {
      ok := BuildFixed();
      if ok {
        ok := ParseHuffmanBlock(FixedLiterals(), FixedDistances());
      }
    }

    method BuildFixed() returns (ok: bool)
      requires TablesApart()
      modifies TableArrays()
      ensures ok && TablesHold(FixedLiterals(), FixedDistances())
    {
      var lit, dst := InitZdefaults();
      FixedAccepted();
      ok := BuildBoth(lit, dst);
    }

    method ParseDynamicBlock() returns (ok: bool)
      requires Valid() && !fault && TablesApart()
      modifies this, TableArrays()
      ensures Reports(Block(stream, MAX_SYMBOLS, 2, old(pos), old(zout)), ok, zout,
                      AskBlock(stream, 2, old(pos), |old(zout)|, old(zbuffer)))
    {
      ghost var codes;
      ok, codes := ComputeHuffmanCodes();
      if ok {
        ok := ParseHuffmanBlock(codes.literals, codes.distances);
      }
    }

    /** `_ssfn__parse_zlib`: the decoder computes the reference result, and
        faults exactly if memory ends before the bytes it asks for. */
    method ParseZlib() returns (ok: bool)
      requires Valid() && !fault && TablesApart()
      modifies this, TableArrays()
      ensures Reports(Inflate(stream, MAX_SYMBOLS, old(pos), old(zout)), ok, zout,
                      AskInflate(stream, old(pos), old(zout), old(zbuffer)))
    {
      ghost var want := Inflate(stream, MAX_SYMBOLS, pos, zout);
      ghost var ask := AskInflate(stream, pos, zout, zbuffer);
      var final := 0;
      ok := true;
      while ok && final == 0
        invariant Valid() && (fault ==> !ok)
        invariant if ok && final == 0 then ask == AskInflate(stream, pos, zout, zbuffer) else Asked(ask)
        invariant !fault && !ok ==> want.Malformed?
        invariant ok && final == 0 ==> want == Inflate(stream, MAX_SYMBOLS, pos, zout)
        invariant ok && final != 0 ==> want == Got(zout, pos)
        decreases ok && final == 0, |stream| - pos
      {
        ok, final := BlockWithHeader();
      }
    }

    /** BFINAL, BTYPE and the block. */
    method BlockWithHeader() returns (ok: bool, final: nat)
      requires Valid() && !fault && TablesApart()
      modifies this, TableArrays()
      ensures Valid() && (fault ==> !ok)
      ensures var want := Inflate(stream, MAX_SYMBOLS, old(pos), old(zout));
              && (!fault && !ok ==> want.Malformed?)
              && (ok ==> pos > old(pos))
              && (ok && final == 0 ==> want == Inflate(stream, MAX_SYMBOLS, pos, zout))
              && (ok && final != 0 ==> want == Got(zout, pos))
      ensures var ask := AskInflate(stream, old(pos), old(zout), old(zbuffer));
              if ok && final == 0 then ask == AskInflate(stream, pos, zout, zbuffer) else Asked(ask)
    {
      ok := false;
      var btype;
      final, btype := ReadBlockHeader();
      if !fault {
        ghost var b := Block(stream, MAX_SYMBOLS, btype, pos, zout);
        ghost var e := AskBlock(stream, btype, pos, |zout|, zbuffer);
        OneBlock(stream, old(pos), zout, old(zbuffer), final, btype, b, e);
        ok := ParseBlock(btype, b, e);
      }
    }

    method ReadBlockHeader() returns (final: nat, btype: nat)
      requires Valid() && !fault
      modifies this`zbuffer, this`numBits, this`codeBuffer, this`fault, this`pos
      ensures Valid() && Asked(AskHeader(stream, old(pos), old(zbuffer)))
      ensures !fault ==> numBits <= 30 && pos == old(pos) + 3 <= |stream|
      ensures !fault ==> final == Lsb(stream, old(pos), 1) && btype == Lsb(stream, old(pos) + 1, 2)
    {
      btype := 0;
      final := Receive(1);
      if fault {
        return;
      }
      btype := Receive(2);
    }
  }

  lemma Sixteen()
    ensures Pow2(16) == 0x1_0000
  {
    Pow2Eight();
    assert Pow2(12) == 16 * Pow2(8);
  }

  lemma NineBits(x: nat)
    ensures Low(x, FAST_BITS) < FAST_SIZE
  {
    LowBound(x, FAST_BITS);
    Pow2Eight();
  }

  lemma AlignedAfter(p: nat, n: nat, z: nat, m: nat)
    requires p + n == 8 * z && m == n % 8
    ensures Align(p) == p + m && m <= 7 && m <= n && (n - m) % 8 == 0 && (n <= 30 ==> n - m <= 24)
  {
    var k := n / 8;
    assert n == 8 * k + m && p == 8 * (z - k) - m;
    assert (p + 7) / 8 == z - k;
  }

  /** Two bytes, low byte first, are a 16-bit number. */
  lemma TwoOctets(bits: seq<Bit>, q: nat)
    requires q % 8 == 0 && q + 16 <= |bits|
    ensures Lsb(bits, q, 16) == OctetAt(bits, q / 8 + 1) * 256 + OctetAt(bits, q / 8)
  {
    LsbSplit(bits, q, 8, 8);
    Shl8(Lsb(bits, q + 8, 8));
  }

  lemma Shl8(x: nat)
    ensures Shl(x, 8) == 256 * x
  {
    assert Shl(x, 2) == 2 * Shl(x, 1) == 4 * Shl(x, 0);
    assert Shl(x, 4) == 2 * Shl(x, 3) == 4 * Shl(x, 2);
    assert Shl(x, 6) == 2 * Shl(x, 5) == 4 * Shl(x, 4);
  }

  lemma {:induction false} BytesAtMem(bits: seq<Bit>, mem: seq<Byte>, q: nat, len: nat)
    requires Carries(bits, mem) && q + len <= |mem|
    ensures BytesAt(bits, 8 * q, len) == mem[q..q + len]
    decreases len
  {
    if len != 0 {
      BytesAtMem(bits, mem, q + 1, len - 1);
      assert OctetAt(bits, q) == mem[q];
      assert mem[q..q + len] == [mem[q]] + mem[q + 1..q + 1 + (len - 1)];
    }
  }

  /** Kraft's inequality for the fixed codes: both are accepted. */
  lemma {:induction false} FixedAccepted()
    ensures Kraft(FixedLiterals()) && Kraft(FixedDistances())
  {
    FixedLiteralShare(FixedLiterals());
    SmallPowers();
    ShareRun(FixedDistances(), 0, 32, 5);
  }

  lemma {:induction false} FixedLiteralShare(lit: seq<nat>)
    requires |lit| == 288
    requires forall i | 0 <= i < 144 :: lit[i] == 8
    requires forall i | 144 <= i < 256 :: lit[i] == 9
    requires forall i | 256 <= i < 280 :: lit[i] == 7
    requires forall i | 280 <= i < 288 :: lit[i] == 8
    ensures Share(lit, |lit|) == Pow2(MAX_BITS)
  {
    SmallPowers();
    ShareRun(lit, 0, 144, 8);
    ShareRun(lit, 144, 112, 9);
    ShareRun(lit, 256, 24, 7);
    ShareRun(lit, 280, 8, 8);
  }

  /** A run of `n` equal lengths. */
  lemma {:induction false} ShareRun(lens: seq<nat>, a: nat, n: nat, len: nat)
    requires a + n <= |lens| && 1 <= len <= MAX_BITS
    requires forall i | a <= i < a + n :: lens[i] == len
    ensures Share(lens, a + n) == Share(lens, a) + n * Pow2(MAX_BITS - len)
  {
    if n != 0 {
      ShareRun(lens, a, n - 1, len);
      MulAdd(n - 1, 1, Pow2(MAX_BITS - len));
    }
  }

  /** `_ssfn_zlib_decode` on the memory from the buffer's start on. */
  method ZlibDecode(mem: seq<Byte>) returns (fault: bool, ok: bool, out: seq<Byte>)
    ensures fault <==> AskInflate(BitsOf(mem), 0, [], 0) > |mem|
    ensures var want := Inflate(BitsOf(mem), MAX_SYMBOLS, 0, []);
            && (!fault && ok ==> want.Got? && want.value == out)
            && (!fault && !ok ==> want.Malformed?)
    ensures fault ==> !ok
  {
    BitsOfCarries(mem);
    var z := new ZBuf(mem, BitsOf(mem));
    ok := z.ParseZlib();
    fault, out := z.fault, z.zout;
  }
}
