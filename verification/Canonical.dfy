/** Canonical Huffman codes from code lengths (RFC 1951 section 3.2.2) and the
    bit-by-bit decoding that defines them. */
module Canonical {
  import opened BitMath

  const MAX_BITS: nat := 15
  const MAX_SYMBOLS: nat := 288

  /** What the callers of the table builder hand it. */
  ghost predicate ValidLens(lens: seq<nat>) {
    |lens| <= MAX_SYMBOLS && forall i | 0 <= i < |lens| :: lens[i] <= MAX_BITS
  }

  /** How many of the first `n` symbols have length `len`. */
  function Count(lens: seq<nat>, len: nat, n: nat): (r: nat)
    requires n <= |lens|
    ensures r <= n
  {
    if n == 0 then 0
    else Count(lens, len, n - 1) + if lens[n - 1] == len then 1 else 0
  }

  /** RFC 1951: bl_count, with bl_count[0] = 0. */
  function BlCount(lens: seq<nat>, len: nat): nat {
    if len == 0 then 0 else Count(lens, len, |lens|)
  }

  /** RFC 1951: next_code[bits] = (code + bl_count[bits-1]) << 1. */
  function NextCode(lens: seq<nat>, len: nat): nat {
    if len == 0 then 0 else 2 * (NextCode(lens, len - 1) + BlCount(lens, len - 1))
  }

  /** One past the last code of length `len`. */
  function EndCode(lens: seq<nat>, len: nat): nat {
    NextCode(lens, len) + BlCount(lens, len)
  }

  /** The code of a symbol. */
  function Code(lens: seq<nat>, m: nat): nat
    requires m < |lens|
  {
    NextCode(lens, lens[m]) + Count(lens, lens[m], m)
  }

  /** The code lengths are not over-subscribed at any length. */
  ghost predicate Feasible(lens: seq<nat>) {
    forall l | 1 <= l <= MAX_BITS :: EndCode(lens, l) <= Pow2(l)
  }

  /** `z->maxcode`: the end of the codes up to `len`, left-aligned in 16 bits. */
  function MaxCode(lens: seq<nat>, len: nat): nat
    requires len <= 16
  {
    Shl(EndCode(lens, len), 16 - len)
  }

  /** `z->firstsymbol`: symbols with a shorter non-zero length. */
  function FirstSymbol(lens: seq<nat>, len: nat): nat {
    if len == 0 then 0 else FirstSymbol(lens, len - 1) + BlCount(lens, len - 1)
  }

  // ---- counting -----------------------------------------------------------

  lemma {:induction false} CountMonotone(lens: seq<nat>, len: nat, a: nat, b: nat)
    requires a <= b <= |lens|
    ensures Count(lens, len, a) <= Count(lens, len, b)
  {
    if a < b {
      CountMonotone(lens, len, a, b - 1);
    }
  }

  /** Symbols of one length get consecutive ranks. */
  lemma CountStrict(lens: seq<nat>, m: nat, n: nat)
    requires m < n <= |lens|
    ensures Count(lens, lens[m], m) < Count(lens, lens[m], n)
  {
    CountMonotone(lens, lens[m], m + 1, n);
  }

  /** Every rank below the count belongs to some symbol. */
  lemma {:induction false} NthSymbol(lens: seq<nat>, len: nat, k: nat, n: nat) returns (m: nat)
    requires n <= |lens| && k < Count(lens, len, n)
    ensures m < n && lens[m] == len && Count(lens, len, m) == k
  {
    if lens[n - 1] == len && Count(lens, len, n - 1) == k {
      m := n - 1;
    } else {
      m := NthSymbol(lens, len, k, n - 1);
    }
  }

  /** How many of the first `n` symbols have a length from 1 to `len`. */
  function CountUpTo(lens: seq<nat>, len: nat, n: nat): (r: nat)
    requires n <= |lens|
    ensures r <= n
  {
    if n == 0 then 0
    else CountUpTo(lens, len, n - 1) + if 1 <= lens[n - 1] <= len then 1 else 0
  }

  lemma {:induction false} CountUpToStep(lens: seq<nat>, len: nat, n: nat)
    requires len > 0 && n <= |lens|
    ensures CountUpTo(lens, len, n) == CountUpTo(lens, len - 1, n) + Count(lens, len, n)
  {
    if n != 0 {
      CountUpToStep(lens, len, n - 1);
    }
  }

  lemma {:induction false} CountUpToZero(lens: seq<nat>, n: nat)
    requires n <= |lens|
    ensures CountUpTo(lens, 0, n) == 0
  {
    if n != 0 {
      CountUpToZero(lens, n - 1);
    }
  }

  /** The ranks of all lengths together fit the symbol table. */
  lemma {:induction false} FirstSymbolBound(lens: seq<nat>, len: nat)
    ensures FirstSymbol(lens, len) + BlCount(lens, len) == CountUpTo(lens, len, |lens|)
    ensures FirstSymbol(lens, len) + BlCount(lens, len) <= |lens|
  {
    if len == 0 {
      CountUpToZero(lens, |lens|);
    } else {
      FirstSymbolBound(lens, len - 1);
      CountUpToStep(lens, len, |lens|);
    }
  }

  // ---- the 16-bit code space ----------------------------------------------

  lemma MaxCodeStep(lens: seq<nat>, len: nat)
    requires 1 <= len <= 16
    ensures Shl(NextCode(lens, len), 16 - len) == MaxCode(lens, len - 1)
    ensures MaxCode(lens, len) == MaxCode(lens, len - 1) + Shl(BlCount(lens, len), 16 - len)
  {
    var e := EndCode(lens, len - 1);
    assert Shl(e, 1) == 2 * Shl(e, 0) == NextCode(lens, len);
    ShlShl(e, 1, 16 - len);
    ShlAdd(NextCode(lens, len), BlCount(lens, len), 16 - len);
  }

  lemma {:induction false} MaxCodeMonotone(lens: seq<nat>, a: nat, b: nat)
    requires a <= b <= 16
    ensures MaxCode(lens, a) <= MaxCode(lens, b)
  {
    if a < b {
      MaxCodeMonotone(lens, a, b - 1);
      MaxCodeStep(lens, b);
    }
  }

  /** The codes of length `len` occupy exactly the window values between two
      consecutive entries of `maxcode`. */
  lemma Window(lens: seq<nat>, len: nat, k: nat)
    requires 1 <= len <= 16
    ensures MaxCode(lens, len - 1) <= k < MaxCode(lens, len)
       <==> NextCode(lens, len) <= Shr(k, 16 - len) < EndCode(lens, len)
  {
    MaxCodeStep(lens, len);
    ShrBelow(k, NextCode(lens, len), 16 - len);
    ShrBelow(k, EndCode(lens, len), 16 - len);
  }

  /** A window value starts with the code of `m`. */
  ghost predicate Owns(lens: seq<nat>, m: nat, k: nat)
    requires ValidLens(lens) && m < |lens|
  {
    lens[m] > 0 && Shr(k, 16 - lens[m]) == Code(lens, m)
  }

  lemma OwnsWindow(lens: seq<nat>, m: nat, k: nat)
    requires ValidLens(lens) && m < |lens| && Owns(lens, m, k)
    ensures MaxCode(lens, lens[m] - 1) <= k < MaxCode(lens, lens[m])
  {
    CountStrict(lens, m, |lens|);
    Window(lens, lens[m], k);
  }

  /** No two codes begin the same window: the code is a prefix code. */
  lemma OwnerUnique(lens: seq<nat>, m: nat, n: nat, k: nat)
    requires ValidLens(lens) && m < |lens| && n < |lens|
    requires Owns(lens, m, k) && Owns(lens, n, k)
    ensures m == n
  {
    OwnsWindow(lens, m, k);
    OwnsWindow(lens, n, k);
    if lens[m] < lens[n] {
      MaxCodeMonotone(lens, lens[m], lens[n] - 1);
      assert false;
    } else if lens[n] < lens[m] {
      MaxCodeMonotone(lens, lens[n], lens[m] - 1);
      assert false;
    } else if m < n {
      CountStrict(lens, m, n);
      assert false;
    } else if n < m {
      CountStrict(lens, n, m);
      assert false;
    }
  }

  /** Below `maxcode[len]` every window has an owner no longer than `len`. */
  lemma {:induction false} OwnerExists(lens: seq<nat>, len: nat, k: nat) returns (m: nat)
    requires ValidLens(lens) && len <= MAX_BITS && k < MaxCode(lens, len)
    ensures m < |lens| && lens[m] <= len && Owns(lens, m, k)
  {
    if len == 0 {
      ShlZero(16);
      assert false;
    } else if k < MaxCode(lens, len - 1) {
      m := OwnerExists(lens, len - 1, k);
    } else {
      Window(lens, len, k);
      m := NthSymbol(lens, len, Shr(k, 16 - len) - NextCode(lens, len), |lens|);
    }
  }

  lemma CodeFits(lens: seq<nat>, m: nat)
    requires ValidLens(lens) && Feasible(lens) && m < |lens| && lens[m] > 0
    ensures Code(lens, m) < Pow2(lens[m])
  {
    CountStrict(lens, m, |lens|);
  }

  // ---- Kraft's inequality --------------------------------------------------

  /** The share of the code space the first `n` symbols take, in 2^-15 units. */
  function Share(lens: seq<nat>, n: nat): nat
    requires n <= |lens|
  {
    if n == 0 then 0
    else Share(lens, n - 1) + if 1 <= lens[n - 1] <= MAX_BITS then Pow2(MAX_BITS - lens[n - 1]) else 0
  }

  /** The same share, restricted to lengths up to `len`. */
  function ShareUpTo(lens: seq<nat>, len: nat, n: nat): nat
    requires n <= |lens| && len <= MAX_BITS
  {
    if n == 0 then 0
    else ShareUpTo(lens, len, n - 1) + if 1 <= lens[n - 1] <= len then Pow2(MAX_BITS - lens[n - 1]) else 0
  }

  lemma {:induction false} ShareUpToStep(lens: seq<nat>, len: nat, n: nat)
    requires 0 < len <= MAX_BITS && n <= |lens|
    ensures ShareUpTo(lens, len, n) == ShareUpTo(lens, len - 1, n) + Shl(Count(lens, len, n), MAX_BITS - len)
  {
    if n == 0 {
      ShlZero(MAX_BITS - len);
    } else {
      ShareUpToStep(lens, len, n - 1);
      ShlAdd(Count(lens, len, n - 1), 1, MAX_BITS - len);
      ShlOne(MAX_BITS - len);
    }
  }

  lemma {:induction false} ShareUpToZero(lens: seq<nat>, n: nat)
    requires n <= |lens|
    ensures ShareUpTo(lens, 0, n) == 0
  {
    if n != 0 {
      ShareUpToZero(lens, n - 1);
    }
  }

  lemma {:induction false} ShareUpToAll(lens: seq<nat>, n: nat)
    requires ValidLens(lens) && n <= |lens|
    ensures ShareUpTo(lens, MAX_BITS, n) == Share(lens, n)
  {
    if n != 0 {
      ShareUpToAll(lens, n - 1);
    }
  }

  lemma {:induction false} ShareIsEndCode(lens: seq<nat>, len: nat)
    requires len <= MAX_BITS
    ensures ShareUpTo(lens, len, |lens|) == Shl(EndCode(lens, len), MAX_BITS - len)
  {
    if len == 0 {
      ShareUpToZero(lens, |lens|);
      ShlZero(MAX_BITS);
    } else {
      ShareIsEndCode(lens, len - 1);
      ShareUpToStep(lens, len, |lens|);
      assert Shl(EndCode(lens, len - 1), 1) == NextCode(lens, len);
      ShlShl(EndCode(lens, len - 1), 1, MAX_BITS - len);
      ShlAdd(NextCode(lens, len), BlCount(lens, len), MAX_BITS - len);
    }
  }

  lemma {:induction false} ShareMonotone(lens: seq<nat>, len: nat)
    requires len <= MAX_BITS
    ensures ShareUpTo(lens, len, |lens|) <= ShareUpTo(lens, MAX_BITS, |lens|)
    decreases MAX_BITS - len
  {
    if len < MAX_BITS {
      ShareMonotone(lens, len + 1);
      ShareUpToStep(lens, len + 1, |lens|);
    }
  }

  lemma {:induction false} EndCodeShare(lens: seq<nat>, len: nat)
    requires len <= MAX_BITS
    ensures EndCode(lens, len) <= Pow2(len)
       <==> ShareUpTo(lens, len, |lens|) <= Pow2(MAX_BITS)
  {
    ShareIsEndCode(lens, len);
    ShlAtMost(EndCode(lens, len), len, MAX_BITS - len);
  }

  /** Feasibility at every length is Kraft's inequality on the whole list. */
  lemma FeasibleIsKraft(lens: seq<nat>)
    requires ValidLens(lens)
    ensures Feasible(lens) <==> Share(lens, |lens|) <= Pow2(MAX_BITS)
  {
    ShareUpToAll(lens, |lens|);
    EndCodeShare(lens, MAX_BITS);
    forall l | 1 <= l <= MAX_BITS && Share(lens, |lens|) <= Pow2(MAX_BITS)
      ensures EndCode(lens, l) <= Pow2(l)
    {
      EndCodeShare(lens, l);
      ShareMonotone(lens, l);
    }
  }

  // ---- decoding, one bit at a time -----------------------------------------

  /** Where reading stopped, and why. */
  datatype Read<+T> = Got(value: T, pos: nat) | Malformed(pos: nat) | Truncated

  /** The first symbol below `n` with this length and code, if any. */
  function Lookup(lens: seq<nat>, len: nat, code: nat, n: nat): (m: int)
    requires n <= |lens|
    ensures -1 <= m < n
    ensures m >= 0 ==> lens[m] == len && Code(lens, m) == code
  {
    if n == 0 then -1
    else if lens[n - 1] == len && Code(lens, n - 1) == code then n - 1
    else Lookup(lens, len, code, n - 1)
  }

  lemma {:induction false} LookupFinds(lens: seq<nat>, len: nat, code: nat, n: nat, i: nat)
    requires i < n <= |lens| && lens[i] == len && Code(lens, i) == code
    ensures Lookup(lens, len, code, n) >= 0
  {
    if i < n - 1 { LookupFinds(lens, len, code, n - 1, i); }
  }

  /** Having read `len` bits from `p` without completing a code, read on. */
  function DecodeFrom(lens: seq<nat>, bits: seq<Bit>, p: nat, len: nat): (r: Read<nat>)
    requires len <= MAX_BITS && p + len <= |bits|
    ensures r.Got? ==> r.pos <= p + MAX_BITS && r.pos <= |bits| && r.pos > p + len && r.value < |lens|
    ensures r.Malformed? ==> r.pos == p + MAX_BITS <= |bits|
    decreases |bits| - p - len
  {
    if len == MAX_BITS then Malformed(p + MAX_BITS)
    else if p + len == |bits| then Truncated
    else
      var m := Lookup(lens, len + 1, Msb(bits, p, len + 1), |lens|);
      if m >= 0 then Got(m, p + len + 1) else DecodeFrom(lens, bits, p, len + 1)
  }

  /** The symbol at bit `p` (RFC 1951 sections 3.1.1 and 3.2.2). */
  function DecodeSymbol(lens: seq<nat>, bits: seq<Bit>, p: nat): (r: Read<nat>)
    requires p <= |bits|
    ensures r.Got? ==> p < r.pos <= |bits| && r.value < |lens|
    ensures r.Malformed? ==> r.pos == p + MAX_BITS <= |bits|
  {
    DecodeFrom(lens, bits, p, 0)
  }

  /** Writing a symbol's code and reading it back gives the symbol: whenever
      the stream at `p` starts with the code of `m`, decoding yields `m`. */
  lemma {:induction false} DecodeFromCode(lens: seq<nat>, bits: seq<Bit>, p: nat, len: nat, m: nat)
    requires ValidLens(lens) && m < |lens| && len < lens[m] && p + lens[m] <= |bits|
    requires Msb(bits, p, lens[m]) == Code(lens, m)
    ensures DecodeFrom(lens, bits, p, len) == Got(m, p + lens[m])
    decreases MAX_BITS - len
  {
    var n := Lookup(lens, len + 1, Msb(bits, p, len + 1), |lens|);
    if n >= 0 {
      PrefixOwner(lens, bits, p, m, n);
    } else if len + 1 < lens[m] {
      DecodeFromCode(lens, bits, p, len + 1, m);
    } else {
      LookupFinds(lens, len + 1, Msb(bits, p, len + 1), |lens|, m);
    }
  }

  /** A code that is a prefix of the code of `m` is the code of `m`. */
  lemma PrefixOwner(lens: seq<nat>, bits: seq<Bit>, p: nat, m: nat, n: nat)
    requires ValidLens(lens) && m < |lens| && n < |lens|
    requires 0 < lens[n] <= lens[m] && p + lens[m] <= |bits|
    requires Msb(bits, p, lens[m]) == Code(lens, m) && Msb(bits, p, lens[n]) == Code(lens, n)
    ensures m == n
  {
    var c := Code(lens, m);
    var k := Shl(c, 16 - lens[m]);
    MsbPrefix(bits, p, lens[m], lens[n]);
    ShrShl(c, 16 - lens[m]);
    ShrShr(k, 16 - lens[m], lens[m] - lens[n]);
    OwnerUnique(lens, m, n, k);
  }

  lemma DecodeCode(lens: seq<nat>, bits: seq<Bit>, p: nat, m: nat)
    requires ValidLens(lens) && m < |lens| && lens[m] > 0 && p + lens[m] <= |bits|
    requires Msb(bits, p, lens[m]) == Code(lens, m)
    ensures DecodeSymbol(lens, bits, p) == Got(m, p + lens[m])
  {
    DecodeFromCode(lens, bits, p, 0, m);
  }

  lemma CodeOwns(lens: seq<nat>, bits: seq<Bit>, p: nat, m: nat)
    requires ValidLens(lens) && p + 16 <= |bits| && m < |lens| && lens[m] > 0
    requires Msb(bits, p, lens[m]) == Code(lens, m)
    ensures Owns(lens, m, Msb(bits, p, 16))
  {
    MsbPrefix(bits, p, 16, lens[m]);
  }

  /** A window without an owner is not the start of any code. */
  lemma {:induction false} DecodeNone(lens: seq<nat>, bits: seq<Bit>, p: nat, len: nat)
    requires ValidLens(lens) && len <= MAX_BITS && p + 16 <= |bits|
    requires forall m | 0 <= m < |lens| :: !Owns(lens, m, Msb(bits, p, 16))
    ensures DecodeFrom(lens, bits, p, len) == Malformed(p + MAX_BITS)
    decreases MAX_BITS - len
  {
    if len < MAX_BITS {
      var m := Lookup(lens, len + 1, Msb(bits, p, len + 1), |lens|);
      if m >= 0 {
        CodeOwns(lens, bits, p, m);
        assert false;
      }
      DecodeNone(lens, bits, p, len + 1);
    }
  }
}
