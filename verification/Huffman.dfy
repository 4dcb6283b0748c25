/** The decoder's Huffman tables: what `_ssfn__zbuild_huffman` leaves in them
    and why a lookup in them is canonical decoding. */
module Huffman {
  import opened BitMath
  import opened Canonical

  const FAST_BITS: nat := 9
  const FAST_SIZE: nat := 512

  /** Conversion to `uint16_t`. */
  function U16(x: nat): nat {
    x % 0x1_0000
  }

  // ---- what the tables must hold --------------------------------------------

  /** Position of a symbol in the tables sorted by length, then by number. */
  function Rank(lens: seq<nat>, m: nat): nat
    requires m < |lens|
  {
    FirstSymbol(lens, lens[m]) + Count(lens, lens[m], m)
  }

  /** The low bits of `x`, in stream order, start with the code of `m`. */
  predicate FastOwns(lens: seq<nat>, m: nat, x: nat)
    requires m < |lens|
  {
    1 <= lens[m] <= FAST_BITS && Rev(x, lens[m]) == Code(lens, m)
  }

  /** The entry at `x` after the first `n` symbols have been entered. */
  function FastEntry(lens: seq<nat>, n: nat, x: nat): nat
    requires n <= |lens|
  {
    if n == 0 then 0
    else if FastOwns(lens, n - 1, x) then Shl(lens[n - 1], 9) + (n - 1)
    else FastEntry(lens, n - 1, x)
  }

  lemma {:induction false} FirstSymbolMonotone(lens: seq<nat>, a: nat, b: nat)
    requires a < b
    ensures FirstSymbol(lens, a) + BlCount(lens, a) <= FirstSymbol(lens, b)
    decreases b
  {
    if a + 1 < b {
      FirstSymbolMonotone(lens, a, b - 1);
    }
  }

  lemma RankBound(lens: seq<nat>, m: nat)
    requires ValidLens(lens) && m < |lens| && lens[m] > 0
    ensures Rank(lens, m) < FirstSymbol(lens, lens[m]) + BlCount(lens, lens[m]) <= |lens|
  {
    CountStrict(lens, m, |lens|);
    FirstSymbolBound(lens, lens[m]);
  }

  /** Each coded symbol has a table position of its own. */
  lemma RankUnique(lens: seq<nat>, m: nat, n: nat)
    requires ValidLens(lens) && m < n < |lens| && lens[m] > 0 && lens[n] > 0
    ensures Rank(lens, m) != Rank(lens, n)
  {
    RankBound(lens, m);
    RankBound(lens, n);
    if lens[m] < lens[n] {
      FirstSymbolMonotone(lens, lens[m], lens[n]);
    } else if lens[n] < lens[m] {
      FirstSymbolMonotone(lens, lens[n], lens[m]);
    } else {
      CountStrict(lens, m, n);
    }
  }

  // ---- the fast table -----------------------------------------------------

  /** In stream order, the first bits of `x` are the first bits of the window
      `Rev(x, 16)`, so fast ownership is code ownership. */
  lemma FastOwnsIsOwns(lens: seq<nat>, m: nat, x: nat)
    requires ValidLens(lens) && m < |lens| && lens[m] <= FAST_BITS
    ensures FastOwns(lens, m, x) <==> Owns(lens, m, Rev(x, 16))
  {
    RevPrefix(x, 16, lens[m]);
  }

  /** No two codes claim the same slot of the fast table. */
  lemma FastOwnerUnique(lens: seq<nat>, m: nat, n: nat, x: nat)
    requires ValidLens(lens) && m < |lens| && n < |lens|
    requires FastOwns(lens, m, x) && FastOwns(lens, n, x)
    ensures m == n
  {
    FastOwnsIsOwns(lens, m, x);
    FastOwnsIsOwns(lens, n, x);
    OwnerUnique(lens, m, n, Rev(x, 16));
  }

  lemma {:induction false} FastEntryOfOwner(lens: seq<nat>, n: nat, x: nat, m: nat)
    requires ValidLens(lens) && m < n <= |lens| && FastOwns(lens, m, x)
    ensures FastEntry(lens, n, x) == Shl(lens[m], 9) + m
  {
    if FastOwns(lens, n - 1, x) {
      FastOwnerUnique(lens, m, n - 1, x);
    } else {
      FastEntryOfOwner(lens, n - 1, x, m);
    }
  }

  lemma {:induction false} FastEntryOfNone(lens: seq<nat>, n: nat, x: nat)
    requires n <= |lens|
    requires forall m | 0 <= m < n :: !FastOwns(lens, m, x)
    ensures FastEntry(lens, n, x) == 0
  {
    if n != 0 {
      FastEntryOfNone(lens, n - 1, x);
    }
  }

  /** Splitting an entry into size and symbol, as the decoder does. */
  lemma EntryFields(s: nat, m: nat)
    requires 1 <= s <= FAST_BITS && m < MAX_SYMBOLS
    ensures var e := Shl(s, 9) + m; 0 < e < 0x1_0000 && e / 512 == s && e % 512 == m
  {
    ShlOne(9);
    assert Shl(s, 9) == 512 * s by {
      Shl9(s);
    }
  }

  lemma Shl9(s: nat)
    ensures Shl(s, 9) == 512 * s
  {
    assert Shl(s, 2) == 2 * Shl(s, 1) == 4 * Shl(s, 0);
    assert Shl(s, 4) == 2 * Shl(s, 3) == 4 * Shl(s, 2);
    assert Shl(s, 6) == 2 * Shl(s, 5) == 4 * Shl(s, 4);
    assert Shl(s, 8) == 2 * Shl(s, 7) == 4 * Shl(s, 6);
  }

  /** A slot is filled exactly when its window lies below `maxcode[9]`. */
  lemma FastFilled(lens: seq<nat>, x: nat)
    requires ValidLens(lens)
    ensures FastEntry(lens, |lens|, x) != 0 <==> Rev(x, 16) < MaxCode(lens, FAST_BITS)
  {
    var k := Rev(x, 16);
    if k < MaxCode(lens, FAST_BITS) {
      var m := OwnerExists(lens, FAST_BITS, k);
      FastOwnsIsOwns(lens, m, x);
      FastEntryOfOwner(lens, |lens|, x, m);
      EntryFields(lens[m], m);
    } else {
      forall m | 0 <= m < |lens|
        ensures !FastOwns(lens, m, x)
      {
        if FastOwns(lens, m, x) {
          FastOwnsIsOwns(lens, m, x);
          OwnsWindow(lens, m, k);
          MaxCodeMonotone(lens, lens[m], FAST_BITS);
          assert false;
        }
      }
      FastEntryOfNone(lens, |lens|, x);
    }
  }

  /** Entering a short code changes the slots with its reversed low bits. */
  lemma FastEntered(lens: seq<nat>, i: nat)
    requires ValidLens(lens) && Feasible(lens) && i < |lens| && 1 <= lens[i] <= FAST_BITS
    ensures forall x: nat ::
              FastEntry(lens, i + 1, x)
              == if Low(x, lens[i]) == Rev(Code(lens, i), lens[i]) then Shl(lens[i], 9) + i
                 else FastEntry(lens, i, x)
  {
    CodeFits(lens, i);
    forall x: nat
      ensures FastOwns(lens, i, x) <==> Low(x, lens[i]) == Rev(Code(lens, i), lens[i])
    {
      RevMatches(x, Code(lens, i), lens[i]);
    }
  }

  /** Symbols without a short code leave the fast table alone. */
  lemma FastSkip(lens: seq<nat>, i: nat)
    requires i < |lens| && !(1 <= lens[i] <= FAST_BITS)
    ensures forall x: nat :: FastEntry(lens, i + 1, x) == FastEntry(lens, i, x)
  {
  }

  /** `next_code` after the first `n` symbols, for the lengths below `top`. */
  ghost predicate NextCodes(lens: seq<nat>, codes: seq<nat>, n: nat, top: nat)
    requires n <= |lens|
  {
    |codes| == 16 && forall l | 1 <= l < top <= 16 :: codes[l] == NextCode(lens, l) + Count(lens, l, n)
  }

  // ---- the tables -------------------------------------------------------------

  class Tables {
    const fast: array<nat>
    const firstcode: array<nat>
    const maxcode: array<nat>
    const firstsymbol: array<nat>
    const size: array<nat>
    const value: array<nat>

    constructor ()
      ensures Shape() && fresh(Arrays())
    {
      fast := new nat[FAST_SIZE];
      firstcode := new nat[16];
      maxcode := new nat[17];
      firstsymbol := new nat[16];
      size := new nat[MAX_SYMBOLS];
      value := new nat[MAX_SYMBOLS];
    }

    ghost function Arrays(): set<object> {
      {fast, firstcode, maxcode, firstsymbol, size, value}
    }

    ghost predicate Shape() {
      && fast.Length == FAST_SIZE && firstcode.Length == 16 && maxcode.Length == 17
      && firstsymbol.Length == 16 && size.Length == MAX_SYMBOLS && value.Length == MAX_SYMBOLS
      && fast != firstcode && fast != firstsymbol && fast != maxcode && fast != size && fast != value
      && firstcode != firstsymbol && firstcode != maxcode && firstcode != size && firstcode != value
      && maxcode != firstsymbol && maxcode != size && maxcode != value
      && firstsymbol != size && firstsymbol != value && size != value
    }

    /** The per-length arrays describe the lengths below `n`. */
    ghost predicate RangeAt(lens: seq<nat>, l: nat)
      requires Shape() && 1 <= l < 16
      reads firstcode, maxcode, firstsymbol
    {
      firstcode[l] == NextCode(lens, l) && maxcode[l] == MaxCode(lens, l) && firstsymbol[l] == FirstSymbol(lens, l)
    }

    ghost predicate Ranges(lens: seq<nat>, n: nat)
      requires Shape() && n <= 16
      reads firstcode, maxcode, firstsymbol
    {
      forall l | 1 <= l < n :: RangeAt(lens, l)
    }

    /** The first `n` symbols have been entered in the sorted tables. */
    ghost predicate Sorted(lens: seq<nat>, n: nat)
      requires Shape() && ValidLens(lens) && n <= |lens|
      reads size, value
    {
      forall m | 0 <= m < n && lens[m] > 0 ::
        && Rank(lens, m) < MAX_SYMBOLS
        && size[Rank(lens, m)] == lens[m]
        && value[Rank(lens, m)] == m
    }

    ghost predicate FastHolds(lens: seq<nat>, n: nat)
      requires Shape() && n <= |lens|
      reads fast
    {
      forall x | 0 <= x < FAST_SIZE :: fast[x] == FastEntry(lens, n, x)
    }

    /** These are the tables of the canonical code with lengths `lens`. */
    ghost predicate Describes(lens: seq<nat>)
      reads Arrays()
    {
      && Shape() && ValidLens(lens) && Feasible(lens)
      && Ranges(lens, 16) && maxcode[16] == 0x1_0000
      && Sorted(lens, |lens|) && FastHolds(lens, |lens|)
    }

    static method CountSizes(lens: seq<nat>) returns (sizes: seq<nat>)
      requires ValidLens(lens)
      ensures |sizes| == 17
      ensures forall l | 0 <= l <= MAX_BITS :: sizes[l] == BlCount(lens, l)
    {
      sizes := seq(17, _ => 0);
      for i := 0 to |lens|
        invariant |sizes| == 17
        invariant forall l | 0 <= l <= MAX_BITS :: sizes[l] == Count(lens, l, i)
      {
        sizes := sizes[lens[i] := sizes[lens[i]] + 1];
      }
      sizes := sizes[0 := 0];
    }

    /** The first screening: more codes of one length than the length has. */
    static method SizesFit(lens: seq<nat>, sizes: seq<nat>) returns (ok: bool)
      requires ValidLens(lens) && |sizes| == 17
      requires forall l | 0 <= l <= MAX_BITS :: sizes[l] == BlCount(lens, l)
      ensures ok <==> forall l | 1 <= l <= MAX_BITS :: BlCount(lens, l) <= Pow2(l)
    {
      for i := 1 to 16
        invariant forall l | 1 <= l < i :: BlCount(lens, l) <= Pow2(l)
      {
        if sizes[i] > Shl(1, i) {
          ShlOne(i);
          return false;
        }
        ShlOne(i);
      }
      return true;
    }

    /** The loop over lengths: first code, first symbol and end of each. */
    method AssignRanges(lens: seq<nat>, sizes: seq<nat>) returns (ok: bool, nextCode: seq<nat>)
      requires Shape() && ValidLens(lens) && |sizes| == 17
      requires forall l | 0 <= l <= MAX_BITS :: sizes[l] == BlCount(lens, l)
      modifies firstcode, maxcode, firstsymbol
      ensures ok <==> Feasible(lens)
      ensures ok ==> Ranges(lens, 16)
      ensures ok ==> NextCodes(lens, nextCode, 0, 16)
    {
      nextCode := seq(16, _ => 0);
      var code, k, i := 0, 0, 1;
      while i < 16
        invariant 1 <= i <= 16
        invariant code == NextCode(lens, i) && k == FirstSymbol(lens, i)
        invariant FeasibleBelow(lens, i) && Ranges(lens, i)
        invariant NextCodes(lens, nextCode, 0, i)
      {
        nextCode := nextCode[i := code];
        var end := code + sizes[i];
        if sizes[i] > 0 {
          if end - 1 >= Shl(1, i) {
            ShlOne(i);
            return false, nextCode;
          }
        }
        FeasibleStep(lens, i);
        SetRange(lens, i, code, k, end);
        code := Shl(end, 1);
        assert code == 2 * Shl(end, 0);
        k := k + sizes[i];
        i := i + 1;
      }
      return true, nextCode;
    }

    method SetRange(lens: seq<nat>, i: nat, code: nat, k: nat, end: nat)
      requires Shape() && ValidLens(lens) && 1 <= i < 16 && FeasibleBelow(lens, i)
      requires code == NextCode(lens, i) && k == FirstSymbol(lens, i) && end == EndCode(lens, i)
      requires Ranges(lens, i)
      modifies firstcode, maxcode, firstsymbol
      ensures Ranges(lens, i + 1)
    {
      CodeBound(lens, i);
      FirstSymbolBound(lens, i);
      firstcode[i] := U16(code);
      firstsymbol[i] := U16(k);
      maxcode[i] := Shl(end, 16 - i);
      forall l | 1 <= l < i
        ensures RangeAt(lens, l)
      {
        assert old(RangeAt(lens, l));
      }
      assert RangeAt(lens, i);
    }

    /** Enter symbol `i` in every slot of the fast table its code owns. */
    method EnterFast(lens: seq<nat>, i: nat, code: nat)
      requires Shape() && ValidLens(lens) && Feasible(lens) && i < |lens|
      requires 1 <= lens[i] <= FAST_BITS && code == Code(lens, i)
      requires FastHolds(lens, i)
      modifies fast
      ensures FastHolds(lens, i + 1)
    {
      var s := lens[i];
      var fastv := U16(Shl(s, 9) + i);
      EntryFields(s, i);
      FastEntered(lens, i);
      StampFast(Rev(code, s), s, fastv);
    }

    /** Write `fastv` to every slot whose low `s` bits are `r`. */
    method StampFast(r: nat, s: nat, fastv: nat)
      requires Shape() && r < Pow2(s)
      modifies fast
      ensures forall x | 0 <= x < FAST_SIZE ::
        fast[x] == if Low(x, s) == r then fastv else old(fast[x])
    {
      var j := r;
      FirstSlot(r, s);
      while j < FAST_SIZE
        invariant Low(j, s) == r
        invariant forall x | 0 <= x < FAST_SIZE ::
          fast[x] == if x < j && Low(x, s) == r then fastv else old(fast[x])
      {
        fast[j] := fastv;
        NextSlot(j, r, s);
        ShlOne(s);
        j := j + Shl(1, s);
      }
    }

    /** `_ssfn__zbuild_huffman`: accepts exactly the lengths that satisfy
        Kraft's inequality, and then describes their canonical code. */
    method Build(lens: seq<nat>) returns (ok: bool)
      requires Shape() && ValidLens(lens)
      modifies Arrays()
      ensures ok <==> Share(lens, |lens|) <= Pow2(MAX_BITS)
      ensures ok ==> Describes(lens)
    {
      FeasibleIsKraft(lens);
      for x := 0 to FAST_SIZE
        invariant forall y | 0 <= y < x :: fast[y] == 0
      {
        fast[x] := 0;
      }
      var sizes := CountSizes(lens);
      ok := SizesFit(lens, sizes);
      if !ok {
        assert forall l | 1 <= l <= MAX_BITS :: BlCount(lens, l) <= EndCode(lens, l);
        return;
      }
      var nextCode;
      ok, nextCode := AssignRanges(lens, sizes);
      if ok {
        CloseRanges(lens);
        FillSymbols(lens, nextCode);
      }
    }

    method CloseRanges(lens: seq<nat>)
      requires Shape() && Ranges(lens, 16)
      modifies maxcode
      ensures Ranges(lens, 16) && maxcode[16] == 0x1_0000
    {
      maxcode[16] := 0x1_0000;
      forall l | 1 <= l < 16
        ensures RangeAt(lens, l)
      {
        assert old(RangeAt(lens, l));
      }
    }

    method FillSymbols(lens: seq<nat>, codes: seq<nat>)
      requires Shape() && ValidLens(lens) && Feasible(lens) && Ranges(lens, 16)
      requires NextCodes(lens, codes, 0, 16)
      requires FastHolds(lens, 0)
      modifies fast, size, value
      ensures Sorted(lens, |lens|) && FastHolds(lens, |lens|)
    {
      var nextCode, i := codes, 0;
      while i < |lens|
        invariant 0 <= i <= |lens|
        invariant NextCodes(lens, nextCode, i, 16)
        invariant Sorted(lens, i) && FastHolds(lens, i)
      {
        var s := lens[i];
        if s > 0 {
          EnterSymbol(lens, i, nextCode[s]);
          nextCode := nextCode[s := nextCode[s] + 1];
        } else {
          FastSkip(lens, i);
        }
        i := i + 1;
      }
    }

    /** Enter symbol `i`, whose code is `code`. */
    method EnterSymbol(lens: seq<nat>, i: nat, code: nat)
      requires Shape() && ValidLens(lens) && Feasible(lens) && Ranges(lens, 16)
      requires i < |lens| && lens[i] > 0 && code == Code(lens, i)
      requires Sorted(lens, i) && FastHolds(lens, i)
      modifies fast, size, value
      ensures Sorted(lens, i + 1) && FastHolds(lens, i + 1)
    {
      var s := lens[i];
      RankBound(lens, i);
      assert RangeAt(lens, s);
      EnterSorted(lens, i, code - firstcode[s] + firstsymbol[s]);
      if s <= FAST_BITS {
        EnterFast(lens, i, code);
      } else {
        FastSkip(lens, i);
      }
    }

    method EnterSorted(lens: seq<nat>, i: nat, c: nat)
      requires Shape() && ValidLens(lens) && i < |lens| && lens[i] > 0
      requires c == Rank(lens, i) < MAX_SYMBOLS && Sorted(lens, i)
      modifies size, value
      ensures Sorted(lens, i + 1)
    {
      size[c] := lens[i];
      value[c] := U16(i);
      forall m | 0 <= m < i && lens[m] > 0
        ensures Rank(lens, m) != c
      {
        RankUnique(lens, m, i);
      }
    }
  }

  ghost predicate FeasibleBelow(lens: seq<nat>, n: nat) {
    forall l | 1 <= l < n :: EndCode(lens, l) <= Pow2(l)
  }

  lemma CodeBound(lens: seq<nat>, i: nat)
    requires 1 <= i <= MAX_BITS && FeasibleBelow(lens, i)
    ensures NextCode(lens, i) <= Pow2(i) <= 0x8000
  {
    if i > 1 {
      assert EndCode(lens, i - 1) <= Pow2(i - 1);
    }
    Pow2Bound(i);
  }

  /** A length without codes cannot break feasibility. */
  lemma FeasibleStep(lens: seq<nat>, i: nat)
    requires 1 <= i <= MAX_BITS && FeasibleBelow(lens, i)
    requires BlCount(lens, i) > 0 ==> EndCode(lens, i) - 1 < Shl(1, i)
    ensures FeasibleBelow(lens, i + 1)
  {
    CodeBound(lens, i);
    ShlOne(i);
  }

  lemma {:induction false} Pow2Bound(i: nat)
    requires i <= 15
    ensures Pow2(i) <= 0x8000
  {
    ShlOne(i);
    assert Pow2(3) == 8;
    assert Pow2(6) == 64;
    assert Pow2(9) == 512;
    assert Pow2(12) == 4096;
    assert Pow2(15) == 0x8000;
    Pow2Monotone(i, 15);
  }

  /** The smallest number with the low bits `r` is `r`. */
  lemma FirstSlot(r: nat, s: nat)
    requires r < Pow2(s)
    ensures Low(r, s) == r
    ensures forall x: nat | x < r :: Low(x, s) != r
  {
    LowSmall(r, s);
    forall x: nat | x < r
      ensures Low(x, s) != r
    {
      LowSmall(x, s);
    }
  }

  /** Between `j` and the next slot no other number has the low bits `r`. */
  lemma NextSlot(j: nat, r: nat, s: nat)
    requires Low(j, s) == r
    ensures Low(j + Pow2(s), s) == r
    ensures forall x: nat | x < j + Pow2(s) && Low(x, s) == r :: x <= j
  {
    LowAdd(j, s);
    forall x: nat | x < j + Pow2(s) && Low(x, s) == r
      ensures x <= j
    {
      if x > j {
        LowGap(j, x, s);
      }
    }
  }

  // ---- decoding with the tables ----------------------------------------------

  /** A filled slot names the symbol that bit-by-bit decoding finds. */
  lemma FastDecode(lens: seq<nat>, bits: seq<Bit>, p: nat, n: nat)
    requires ValidLens(lens) && p + n <= |bits| && n >= 16
    ensures var e := FastEntry(lens, |lens|, Low(Lsb(bits, p, n), FAST_BITS));
            && (e == 0 <==> Msb(bits, p, 16) >= MaxCode(lens, FAST_BITS))
            && (e != 0 ==> e / 512 <= FAST_BITS && DecodeSymbol(lens, bits, p) == Got(e % 512, p + e / 512))
  {
    var buf, k := Lsb(bits, p, n), Msb(bits, p, 16);
    RevLsb(bits, p, n, 16);
    FastSlot(lens, buf);
    FastFilled(lens, buf);
    if k < MaxCode(lens, FAST_BITS) {
      var m := OwnerExists(lens, FAST_BITS, k);
      FastOwnsIsOwns(lens, m, buf);
      FastEntryOfOwner(lens, |lens|, buf, m);
      EntryFields(lens[m], m);
      MsbPrefix(bits, p, 16, lens[m]);
      DecodeCode(lens, bits, p, m);
    }
  }

  /** Nine bits decide the entry. */
  lemma {:induction false} FastSlotAt(lens: seq<nat>, n: nat, x: nat)
    requires n <= |lens|
    ensures FastEntry(lens, n, Low(x, FAST_BITS)) == FastEntry(lens, n, x)
  {
    if n != 0 {
      FastSlotAt(lens, n - 1, x);
      if lens[n - 1] <= FAST_BITS {
        RevLow(x, FAST_BITS, lens[n - 1]);
      }
    }
  }

  lemma FastSlot(lens: seq<nat>, x: nat)
    ensures FastEntry(lens, |lens|, Low(x, FAST_BITS)) == FastEntry(lens, |lens|, x)
  {
    FastSlotAt(lens, |lens|, x);
  }

  /** In the band of length `s` the computed index is the rank of the symbol
      that bit-by-bit decoding finds. */
  lemma SlowDecode(lens: seq<nat>, bits: seq<Bit>, p: nat, s: nat) returns (m: nat)
    requires ValidLens(lens) && p + 16 <= |bits| && 1 <= s <= MAX_BITS
    requires MaxCode(lens, s - 1) <= Msb(bits, p, 16) < MaxCode(lens, s)
    ensures m < |lens| && lens[m] == s
    ensures Shr(Msb(bits, p, 16), 16 - s) - NextCode(lens, s) + FirstSymbol(lens, s) == Rank(lens, m)
    ensures DecodeSymbol(lens, bits, p) == Got(m, p + s)
  {
    var k := Msb(bits, p, 16);
    Window(lens, s, k);
    m := NthSymbol(lens, s, Shr(k, 16 - s) - NextCode(lens, s), |lens|);
    MsbPrefix(bits, p, 16, s);
    DecodeCode(lens, bits, p, m);
  }

  /** Above `maxcode[15]` no code matches. */
  lemma SlowNone(lens: seq<nat>, bits: seq<Bit>, p: nat)
    requires ValidLens(lens) && p + 16 <= |bits|
    requires MaxCode(lens, MAX_BITS) <= Msb(bits, p, 16)
    ensures DecodeSymbol(lens, bits, p) == Malformed(p + MAX_BITS)
  {
    var k := Msb(bits, p, 16);
    forall m | 0 <= m < |lens|
      ensures !Owns(lens, m, k)
    {
      if Owns(lens, m, k) {
        OwnsWindow(lens, m, k);
        MaxCodeMonotone(lens, lens[m], MAX_BITS);
        assert false;
      }
    }
    DecodeNone(lens, bits, p, 0);
  }
}
