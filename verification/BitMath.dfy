/** Shifts, masks, bit reversal and the two readings of a bit stream that
    RFC 1951 uses: data elements least significant bit first, Huffman codes
    most significant bit first.  Shifts are repeated doubling and halving, so
    everything here is linear arithmetic. */
module BitMath {

  type Byte = b: nat | b < 256

  /** x << n */
  function Shl(x: nat, n: nat): nat {
    if n == 0 then x else 2 * Shl(x, n - 1)
  }

  /** x >> n */
  function Shr(x: nat, n: nat): nat {
    if n == 0 then x else Shr(x, n - 1) / 2
  }

  /** x & ((1 << n) - 1) */
  function Low(x: nat, n: nat): nat {
    if n == 0 then 0 else x % 2 + 2 * Low(x / 2, n - 1)
  }

  function Pow2(n: nat): (r: nat)
    ensures r > 0
  {
    if n == 0 then 1 else 2 * Pow2(n - 1)
  }

  // ---- products and quotients ---------------------------------------------

  lemma MulAdd(a: int, b: int, c: int)
    ensures (a + b) * c == a * c + b * c
  {
  }

  lemma MulOrder(a: int, b: int, c: nat)
    requires a <= b
    ensures a * c <= b * c
  {
  }

  lemma DivModUnique(q: int, m: nat, r: nat)
    requires r < m
    ensures (q * m + r) / m == q && (q * m + r) % m == r
  {
    var x := q * m + r;
    var d := x / m - q;
    MulAdd(x / m, -q, m);
    assert d * m == r - x % m;
    assert -1 < d < 1 by {
      if d >= 1 {
        MulOrder(1, d, m);
        assert false;
      }
      if d <= -1 {
        MulOrder(d, -1, m);
        assert false;
      }
    }
  }

  // ---- shifts ----------------------------------------------------------------

  lemma {:induction false} Pow2Monotone(a: nat, b: nat)
    requires a <= b
    ensures Pow2(a) <= Pow2(b)
  {
    if a < b {
      Pow2Monotone(a, b - 1);
    }
  }

  lemma {:induction false} ShlOne(n: nat)
    ensures Shl(1, n) == Pow2(n)
  {
    if n != 0 {
      ShlOne(n - 1);
    }
  }

  lemma {:induction false} ShlZero(n: nat)
    ensures Shl(0, n) == 0
  {
    if n != 0 {
      ShlZero(n - 1);
    }
  }

  lemma {:induction false} ShlAdd(a: nat, b: nat, n: nat)
    ensures Shl(a + b, n) == Shl(a, n) + Shl(b, n)
  {
    if n != 0 {
      ShlAdd(a, b, n - 1);
    }
  }

  lemma {:induction false} ShlMonotone(a: nat, b: nat, n: nat)
    requires a <= b
    ensures Shl(a, n) <= Shl(b, n)
  {
    if n != 0 {
      ShlMonotone(a, b, n - 1);
    }
  }

  lemma {:induction false} ShlAtMost(e: nat, a: nat, n: nat)
    ensures e <= Pow2(a) <==> Shl(e, n) <= Pow2(a + n)
  {
    if n != 0 {
      ShlAtMost(e, a, n - 1);
    }
  }

  lemma {:induction false} ShlShl(x: nat, a: nat, b: nat)
    ensures Shl(Shl(x, a), b) == Shl(x, a + b)
  {
    if b != 0 {
      ShlShl(x, a, b - 1);
    }
  }

  lemma {:induction false} ShrShr(x: nat, a: nat, b: nat)
    ensures Shr(Shr(x, a), b) == Shr(x, a + b)
  {
    if b != 0 {
      ShrShr(x, a, b - 1);
    }
  }

  /** The first halving may be done before the others. */
  lemma ShrInner(x: nat, n: nat)
    requires n > 0
    ensures Shr(x, n) == Shr(x / 2, n - 1)
  {
    assert x / 2 == Shr(x, 0) / 2 == Shr(x, 1);
    ShrShr(x, 1, n - 1);
  }

  lemma {:induction false} ShrShl(x: nat, n: nat)
    ensures Shr(Shl(x, n), n) == x
  {
    if n != 0 {
      ShrInner(Shl(x, n), n);
      ShrShl(x, n - 1);
    }
  }

  /** Comparing a quotient with a bound is comparing with the scaled bound. */
  lemma {:induction false} ShrBelow(k: nat, e: nat, n: nat)
    ensures k < Shl(e, n) <==> Shr(k, n) < e
  {
    if n != 0 {
      ShrInner(k, n);
      ShrBelow(k / 2, e, n - 1);
    }
  }

  lemma {:induction false} LowBound(x: nat, n: nat)
    ensures Low(x, n) < Pow2(n)
  {
    if n != 0 {
      LowBound(x / 2, n - 1);
    }
  }

  lemma {:induction false} LowSmall(x: nat, n: nat)
    requires x < Pow2(n)
    ensures Low(x, n) == x
  {
    if n != 0 {
      LowSmall(x / 2, n - 1);
    }
  }

  lemma {:induction false} LowAdd(x: nat, n: nat)
    ensures Low(x + Pow2(n), n) == Low(x, n)
  {
    if n != 0 {
      assert (x + Pow2(n)) / 2 == x / 2 + Pow2(n - 1);
      LowAdd(x / 2, n - 1);
    }
  }

  /** Two numbers with equal low bits are equal or at least 2^n apart. */
  lemma {:induction false} LowGap(x: nat, y: nat, n: nat)
    requires Low(x, n) == Low(y, n) && x <= y < x + Pow2(n)
    ensures x == y
  {
    if n != 0 {
      assert x % 2 == y % 2 && Low(x / 2, n - 1) == Low(y / 2, n - 1);
      LowGap(x / 2, y / 2, n - 1);
    }
  }

  // ---- bit reversal -------------------------------------------------------

  /** The low `n` bits of `x` in the opposite order. */
  function Rev(x: nat, n: nat): (r: nat)
    ensures r < Pow2(n)
  {
    if n == 0 then 0 else 2 * Rev(x, n - 1) + Shr(x, n - 1) % 2
  }

  lemma {:induction false} RevPrefix(x: nat, n: nat, s: nat)
    requires s <= n
    ensures Shr(Rev(x, n), n - s) == Rev(x, s)
  {
    if s < n {
      RevPrefix(x, n - 1, s);
      ShrInner(Rev(x, n), n - s);
    }
  }

  lemma {:induction false} RevTwice(c: nat, s: nat, n: nat)
    requires n <= s && c < Pow2(s)
    ensures Rev(Rev(c, s), n) == Shr(c, s - n)
  {
    if n == 0 {
      ShlOne(s);
      ShrBelow(c, 1, s);
    } else {
      var y := Shr(c, s - n);
      RevTwice(c, s, n - 1);
      RevPrefix(c, s, s - n + 1);
      assert Shr(c, s - n + 1) == y / 2;
      assert Rev(c, s - n + 1) % 2 == y % 2;
    }
  }

  lemma {:induction false} LowBit(x: nat, s: nat, i: nat)
    requires i < s
    ensures Shr(Low(x, s), i) % 2 == Shr(x, i) % 2
  {
    if i != 0 {
      ShrInner(Low(x, s), i);
      ShrInner(x, i);
      LowBit(x / 2, s - 1, i - 1);
    }
  }

  lemma {:induction false} RevLow(x: nat, s: nat, n: nat)
    requires n <= s
    ensures Rev(Low(x, s), n) == Rev(x, n)
  {
    if n != 0 {
      RevLow(x, s, n - 1);
      LowBit(x, s, n - 1);
    }
  }

  /** A number whose low bits are a reversed code reads back as that code. */
  lemma RevMatches(x: nat, code: nat, s: nat)
    requires code < Pow2(s)
    ensures Low(x, s) == Rev(code, s) <==> Rev(x, s) == code
  {
    LowBound(x, s);
    RevLow(x, s, s);
    RevTwice(code, s, s);
    RevTwice(Low(x, s), s, s);
  }

  // ---- the bit stream -----------------------------------------------------

  type Bit = b: nat | b < 2

  /** The bytes as a bit stream: bytes in order, each from its low bit up. */
  function BitsOf(mem: seq<Byte>): (bits: seq<Bit>)
    ensures |bits| == 8 * |mem|
  {
    seq(8 * |mem|, p requires 0 <= p < 8 * |mem| => Shr(mem[p / 8], p % 8) % 2)
  }

  /** `n` bits from `p`, first bit least significant (RFC 1951 section 3.1.1). */
  function Lsb(bits: seq<Bit>, p: nat, n: nat): (r: nat)
    requires p + n <= |bits|
    ensures r < Pow2(n)
    decreases |bits| - p
  {
    if n == 0 then 0 else bits[p] + 2 * Lsb(bits, p + 1, n - 1)
  }

  /** `n` bits from `p`, first bit most significant: how codes are packed. */
  function Msb(bits: seq<Bit>, p: nat, n: nat): (r: nat)
    requires p + n <= |bits|
    ensures r < Pow2(n)
  {
    if n == 0 then 0 else 2 * Msb(bits, p, n - 1) + bits[p + n - 1]
  }

  lemma {:induction false} LsbSplit(bits: seq<Bit>, p: nat, a: nat, b: nat)
    requires p + a + b <= |bits|
    ensures Lsb(bits, p, a + b) == Lsb(bits, p, a) + Shl(Lsb(bits, p + a, b), a)
    decreases a
  {
    if a != 0 {
      LsbSplit(bits, p + 1, a - 1, b);
    }
  }

  /** Masking keeps the first bits of the reservoir. */
  lemma {:induction false} LsbLow(bits: seq<Bit>, p: nat, n: nat, a: nat)
    requires p + n <= |bits| && a <= n
    ensures Low(Lsb(bits, p, n), a) == Lsb(bits, p, a)
    decreases a
  {
    if a != 0 {
      LsbLow(bits, p + 1, n - 1, a - 1);
    }
  }

  /** Shifting drops the first bits of the reservoir. */
  lemma {:induction false} LsbShr(bits: seq<Bit>, p: nat, n: nat, a: nat)
    requires p + n <= |bits| && a <= n
    ensures Shr(Lsb(bits, p, n), a) == Lsb(bits, p + a, n - a)
  {
    if a != 0 {
      LsbShr(bits, p, n, a - 1);
    }
  }

  lemma {:induction false} LsbFirst(bits: seq<Bit>, p: nat, n: nat)
    requires p + n <= |bits| && n > 0
    ensures Lsb(bits, p, n) % 2 == bits[p]
  {
  }

  lemma {:induction false} RevLsb(bits: seq<Bit>, p: nat, n: nat, m: nat)
    requires p + n <= |bits| && m <= n
    ensures Rev(Lsb(bits, p, n), m) == Msb(bits, p, m)
  {
    if m != 0 {
      RevLsb(bits, p, n, m - 1);
      LsbShr(bits, p, n, m - 1);
      LsbFirst(bits, p + m - 1, n - m + 1);
    }
  }

  lemma {:induction false} MsbPrefix(bits: seq<Bit>, p: nat, n: nat, s: nat)
    requires p + n <= |bits| && s <= n
    ensures Shr(Msb(bits, p, n), n - s) == Msb(bits, p, s)
  {
    if s < n {
      MsbPrefix(bits, p, n - 1, s);
      ShrInner(Msb(bits, p, n), n - s);
    }
  }

  lemma BitOfByte(mem: seq<Byte>, q: nat, i: nat)
    requires q < |mem| && i < 8
    ensures BitsOf(mem)[8 * q + i] == Shr(mem[q], i) % 2
  {
    assert (8 * q + i) / 8 == q && (8 * q + i) % 8 == i;
  }

  lemma {:induction false} LsbOfByte(mem: seq<Byte>, q: nat, i: nat, w: nat)
    requires q < |mem| && i <= w == 8
    ensures Lsb(BitsOf(mem), 8 * q + i, w - i) == Shr(mem[q], i)
    decreases w - i
  {
    if i < w {
      LsbOfByte(mem, q, i + 1, w);
      BitOfByte(mem, q, i);
    } else {
      ShlOne(w);
      Pow2Eight();
      ShrBelow(mem[q], 1, w);
    }
  }

  lemma Pow2Eight()
    ensures Pow2(8) == 256
  {
  }

  /** Byte `q` of the stream. */
  function OctetAt(bits: seq<Bit>, q: nat): nat
    requires 8 * q + 8 <= |bits|
  {
    Lsb(bits, 8 * q, 8)
  }

  /** The stream is the bytes of `mem`, each from its low bit up. */
  ghost predicate Carries(bits: seq<Bit>, mem: seq<Byte>) {
    |bits| == 8 * |mem| && forall q | 0 <= q < |mem| :: OctetAt(bits, q) == mem[q]
  }

  lemma BitsOfCarries(mem: seq<Byte>)
    ensures Carries(BitsOf(mem), mem)
  {
    forall q | 0 <= q < |mem|
      ensures OctetAt(BitsOf(mem), q) == mem[q]
    {
      LsbOfByte(mem, q, 0, 8);
    }
  }

  /** Appending a byte above the reservoir: `code_buffer |= byte << num_bits`. */
  lemma LsbAppendByte(bits: seq<Bit>, mem: seq<Byte>, p: nat, n: nat, q: nat)
    requires Carries(bits, mem) && q < |mem| && p + n == 8 * q
    ensures Lsb(bits, p, n + 8) == Lsb(bits, p, n) + Shl(mem[q], n)
  {
    assert OctetAt(bits, q) == mem[q];
    LsbSplit(bits, p, n, 8);
  }
}
