/** The growing page bitmap: blocks of 32768 pages, each searched on its own,
    the number of blocks doubling up to a limit. */
module GrowBitmap {
  import opened BitMath
  import opened PhysBitmap

  const BLOCK_PAGES := 32768
  const ABSOLUTE_MAX_BLOCKS := 256

  /** `n` pages of block `b` from page `s` on. */
  datatype Range = Range(b: nat, s: nat, n: nat)

  function Min(a: nat, b: nat): nat {
    if a < b then a else b
  }

  function Zeros(): seq<bool> {
    seq(BLOCK_PAGES, _ => false)
  }

  /** `n` pages in a row are free nowhere in the first `k` blocks. */
  ghost predicate NoRun(bits: seq<seq<bool>>, n: nat, k: nat) {
    forall b | 0 <= b < k && b < |bits| :: NoneBefore(bits[b], n, BLOCK_PAGES)
  }

  /** The lowest block with `n` free pages in a row, and the first such run there. */
  ghost predicate Lowest(bits: seq<seq<bool>>, r: Range) {
    && r.b < |bits| && NoRun(bits, r.n, r.b)
    && FirstFit(bits[r.b], BLOCK_PAGES, r.n, r.s)
  }

  /** The bitmap after a request that found no room has doubled it. */
  function Grown(bits: seq<seq<bool>>, max: nat, n: nat): (r: seq<seq<bool>>)
    requires 0 < |bits| < max && n <= BLOCK_PAGES
  {
    bits + [Mark(Zeros(), 0, n, true)] + seq(Min(2 * |bits|, max) - |bits| - 1, _ => Zeros())
  }

  /** What an allocation of `n` pages does: nothing, or it takes range `r`. */
  ghost predicate Allocates(bits: seq<seq<bool>>, max: nat, n: nat, after: seq<seq<bool>>, ok: bool, r: Range)
    requires 0 < |bits| <= max
  {
    if !ok then
      after == bits && (n == 0 || n > BLOCK_PAGES || (|bits| == max && NoRun(bits, n, |bits|)))
    else
      && 0 < n <= BLOCK_PAGES && r.n == n
      && if NoRun(bits, n, |bits|) then
           |bits| < max && r == Range(|bits|, 0, n) && after == Grown(bits, max, n)
         else
           && Lowest(bits, r)
           && r.s + n <= |bits[r.b]| && after == bits[r.b := Mark(bits[r.b], r.s, n, true)]
  }

  class Bitmap {
    const base: nat
    const pageSize: nat
    const maxBlocks: nat
    var blocks: seq<array<bool>>

    ghost predicate Valid()
      reads this
    {
      && pageSize > 0
      && 0 < |blocks| <= maxBlocks <= ABSOLUTE_MAX_BLOCKS
      && (forall b | 0 <= b < |blocks| :: blocks[b].Length == BLOCK_PAGES)
      && (forall b, c | 0 <= b < c < |blocks| :: blocks[b] != blocks[c])
    }

    ghost function Bits(): (r: seq<seq<bool>>)
      reads this, blocks
      ensures |r| == |blocks| && forall b | 0 <= b < |r| :: r[b] == blocks[b][..]
    {
      seq(|blocks|, b requires 0 <= b < |blocks| reads this, blocks => blocks[b][..])
    }

    constructor (baseAddress: nat, size: nat, capacityMb: nat)
      requires size > 0
      ensures Valid() && Bits() == [Zeros()] && base == baseAddress && pageSize == size
      ensures maxBlocks == if capacityMb == 0 then 1 else Min((capacityMb + 127) / 128, ABSOLUTE_MAX_BLOCKS)
    {
      base := baseAddress;
      pageSize := size;
      var m := (capacityMb + 127) / 128;
      if m == 0 { m := 1; }
      if m > ABSOLUTE_MAX_BLOCKS { m := ABSOLUTE_MAX_BLOCKS; }
      maxBlocks := m;
      var block := new bool[BLOCK_PAGES](_ => false);
      blocks := [block];
      new;
      assert block[..] == Zeros();
    }

    function Address(b: nat, s: nat): nat {
      base + (b * BLOCK_PAGES + s) * pageSize
    }

    /** The scan of one block, skipping words that are all ones. */
    static method ScanBlock(a: array<bool>, n: nat) returns (found: bool, s: nat)
      requires a.Length == BLOCK_PAGES && n > 0
      ensures found ==> FirstFit(a[..], BLOCK_PAGES, n, s)
      ensures !found ==> NoneBefore(a[..], n, BLOCK_PAGES)
    {
      var i, run: nat, start: nat := 0, 0, 0;
      while i < 512
        invariant i <= 512 && Scanned(a[..], n, 64 * i, run, start)
        decreases 512 - i
      {
        var full := FullWord(a, i);
        if full {
          ScanUsed(a[..], n, 64 * i, run, start, 64 * i + 64);
          run := 0;
        } else {
          var bit := 0;
          while bit < 64
            invariant bit <= 64 && Scanned(a[..], n, 64 * i + bit, run, start)
          {
            if !a[64 * i + bit] {
              ScanFree(a[..], n, 64 * i + bit, run, start);
              if run == 0 { start := 64 * i + bit; }
              run := run + 1;
              if run == n { return true, start; }
            } else {
              ScanUsed(a[..], n, 64 * i + bit, run, start, 64 * i + bit + 1);
              run := 0;
            }
            bit := bit + 1;
          }
        }
        i := i + 1;
      }
      return false, 0;
    }

    static method FullWord(a: array<bool>, i: nat) returns (full: bool)
      requires a.Length == BLOCK_PAGES && i < 512
      ensures full <==> forall k | 64 * i <= k < 64 * i + 64 :: a[k]
    {
      full := true;
      var k := 64 * i;
      while k < 64 * i + 64
        invariant 64 * i <= k <= 64 * i + 64 && (full <==> forall j | 64 * i <= j < k :: a[j])
      {
        full := full && a[k];
        k := k + 1;
      }
    }

    static method SetBits(a: array<bool>, s: nat, n: nat, v: bool)
      requires s + n <= a.Length
      modifies a
      ensures a[..] == Mark(old(a[..]), s, n, v)
    {
      var j := 0;
      while j < n
        invariant j <= n
        invariant forall k | 0 <= k < a.Length :: a[k] == if s <= k < s + j then v else old(a[k])
      {
        a[s + j] := v;
        j := j + 1;
      }
    }

    /** `grow_bitmap_alloc_pages`: the lowest run of `n` free pages within a
        block; else the bitmap doubles and the run starts the first new block. */
    method AllocPages(n: nat) returns (p: nat, ghost ok: bool, ghost r: Range)
      requires Valid()
      modifies this`blocks, blocks
      ensures Valid() && fresh(set a | a in blocks && a !in old(blocks))
      ensures Allocates(old(Bits()), maxBlocks, n, Bits(), ok, r)
      ensures p == if ok then Address(r.b, r.s) else 0
    {
      if n == 0 || n > BLOCK_PAGES { return 0, false, Range(0, 0, 0); }
      var found, b, s := FindRun(n);
      if found {
        Take(b, s, n);
        return Address(b, s), true, Range(b, s, n);
      }
      if |blocks| < maxBlocks {
        var first := |blocks|;
        Grow(n);
        return Address(first, 0), true, Range(first, 0, n);
      }
      return 0, false, Range(0, 0, 0);
    }

    method FindRun(n: nat) returns (found: bool, b: nat, s: nat)
      requires Valid() && n > 0
      ensures found ==> Lowest(Bits(), Range(b, s, n)) && !NoRun(Bits(), n, |blocks|)
      ensures !found ==> NoRun(Bits(), n, |blocks|)
    {
      b := 0;
      while b < |blocks|
        invariant b <= |blocks| && NoRun(Bits(), n, b)
      {
        found, s := ScanBlock(blocks[b], n);
        if found {
          TakenInBlock(Bits(), Range(b, s, n));
          return;
        }
        b := b + 1;
      }
      return false, 0, 0;
    }

    method Take(b: nat, s: nat, n: nat)
      requires Valid() && b < |blocks| && s + n <= BLOCK_PAGES
      modifies blocks[b]
      ensures Bits() == old(Bits())[b := Mark(old(Bits())[b], s, n, true)]
    {
      SetBits(blocks[b], s, n, true);
    }

    method Grow(n: nat)
      requires Valid() && |blocks| < maxBlocks && n <= BLOCK_PAGES
      modifies this`blocks
      ensures Valid() && old(blocks) <= blocks && forall b | |old(blocks)| <= b < |blocks| :: fresh(blocks[b])
      ensures Bits() == Grown(old(Bits()), maxBlocks, n)
    {
      var add := |blocks|;
      if |blocks| + add > maxBlocks { add := maxBlocks - |blocks|; }
      var i := 0;
      while i < add
        invariant i <= add && |blocks| == |old(blocks)| + i && Valid() && old(blocks) <= blocks
        invariant forall b | |old(blocks)| <= b < |blocks| :: fresh(blocks[b])
        invariant forall b | |old(blocks)| <= b < |blocks| ::
                    blocks[b][..] == if b == |old(blocks)| then Mark(Zeros(), 0, n, true) else Zeros()
      {
        var block := new bool[BLOCK_PAGES](_ => false);
        assert block[..] == Zeros();
        if i == 0 { SetBits(block, 0, n, true); }
        blocks := blocks + [block];
        i := i + 1;
      }
      assert Bits() == Grown(old(Bits()), maxBlocks, n);
    }

    /** `grow_bitmap_free_pages`: clears the bits of the pages the address
        names, if it is in an active block.  The code does not look where the
        block ends: a range that goes on runs over it. */
    method FreePages(vaddr: nat, n: nat) returns (overrun: bool)
      requires Valid()
      modifies blocks
      ensures overrun <==> old(Mapped(vaddr)) && PageOf(vaddr) + n > BLOCK_PAGES
      ensures Bits() == if !old(Mapped(vaddr)) then old(Bits())
                        else Released(old(Bits()), Range(BlockOf(vaddr), PageOf(vaddr),
                                                         Min(n, BLOCK_PAGES - PageOf(vaddr))))
    {
      if vaddr < base { return false; }
      var page := (vaddr - base) / pageSize;
      var b, s := page / BLOCK_PAGES, page % BLOCK_PAGES;
      if b >= |blocks| { return false; }
      ghost var was := Bits();
      overrun := ClearBits(blocks[b], s, n);
      assert Bits() == was[b := Mark(was[b], s, Min(n, BLOCK_PAGES - s), false)];
    }

    static method ClearBits(a: array<bool>, s: nat, n: nat) returns (overrun: bool)
      requires s <= a.Length
      modifies a
      ensures overrun <==> s + n > a.Length
      ensures a[..] == Mark(old(a[..]), s, Min(n, a.Length - s), false)
    {
      for j := 0 to n
        invariant s + j <= a.Length
        invariant forall k | 0 <= k < a.Length :: a[k] == if s <= k < s + j then false else old(a[k])
      {
        if s + j == a.Length { return true; }
        a[s + j] := false;
      }
      return false;
    }

    ghost predicate Mapped(vaddr: nat)
      requires pageSize > 0
      reads this
    {
      vaddr >= base && BlockOf(vaddr) < |blocks|
    }

    function BlockOf(vaddr: nat): nat
      requires pageSize > 0 && vaddr >= base
    {
      (vaddr - base) / pageSize / BLOCK_PAGES
    }

    function PageOf(vaddr: nat): nat
      requires pageSize > 0 && vaddr >= base
    {
      (vaddr - base) / pageSize % BLOCK_PAGES
    }

    /** Freeing finds the block and page an allocation gave out. */
    lemma AddressBack(b: nat, s: nat)
      requires pageSize > 0 && s < BLOCK_PAGES
      ensures Address(b, s) >= base && BlockOf(Address(b, s)) == b && PageOf(Address(b, s)) == s
    {
      var page := b * BLOCK_PAGES + s;
      DivModUnique(page, pageSize, 0);
      DivModUnique(b, BLOCK_PAGES, s);
      assert (Address(b, s) - base) / pageSize == page;
    }

    /** The pages lie one after the other from the base on, across blocks too. */
    lemma AddressesTile(b: nat, s: nat)
      requires s < BLOCK_PAGES
      ensures Address(0, 0) == base
      ensures Address(b, s) + pageSize == if s + 1 < BLOCK_PAGES then Address(b, s + 1) else Address(b + 1, 0)
    {
      MulAdd(b * BLOCK_PAGES + s, 1, pageSize);
    }

    /** Ranges that do not overlap have bytes that do not overlap. */
    lemma BytesApart(r: Range, q: Range)
      requires r.s + r.n <= BLOCK_PAGES && q.s + q.n <= BLOCK_PAGES && Apart(r, q) && r.n > 0 && q.n > 0
      ensures Address(r.b, r.s) + r.n * pageSize <= Address(q.b, q.s)
           || Address(q.b, q.s) + q.n * pageSize <= Address(r.b, r.s)
    {
      if r.b < q.b || (r.b == q.b && r.s + r.n <= q.s) { BytesBelow(r, q); } else { BytesBelow(q, r); }
    }

    lemma BytesBelow(r: Range, q: Range)
      requires r.b < q.b || (r.b == q.b && r.s + r.n <= q.s)
      requires r.s + r.n <= BLOCK_PAGES
      ensures Address(r.b, r.s) + r.n * pageSize <= Address(q.b, q.s)
    {
      var i, j := r.b * BLOCK_PAGES + r.s, q.b * BLOCK_PAGES + q.s;
      assert i + r.n <= j;
      MulAdd(i, r.n, pageSize);
      MulOrder(i + r.n, j, pageSize);
    }
  }

  function Released(bits: seq<seq<bool>>, r: Range): seq<seq<bool>>
    requires r.b < |bits| && r.s + r.n <= |bits[r.b]|
  {
    bits[r.b := Mark(bits[r.b], r.s, r.n, false)]
  }

  lemma {:induction false} TakenInBlock(bits: seq<seq<bool>>, r: Range)
    requires r.b < |bits| && 0 < r.n && NoRun(bits, r.n, r.b) && FirstFit(bits[r.b], BLOCK_PAGES, r.n, r.s)
    ensures Lowest(bits, r) && !NoRun(bits, r.n, |bits|)
  {
    assert FreeRun(bits[r.b], r.s, r.n);
    assert !NoneBefore(bits[r.b], r.n, BLOCK_PAGES);
  }

  // ---- the ranges that are in use ------------------------------------------------------

  predicate Covers(r: Range, b: nat, k: nat) {
    r.b == b && r.s <= k < r.s + r.n
  }

  predicate Apart(r: Range, q: Range) {
    r.b != q.b || r.s + r.n <= q.s || q.s + q.n <= r.s
  }

  /** The ranges in `live` lie within a block, do not overlap, and cover
      exactly the pages marked used. */
  ghost predicate LiveInv(bits: seq<seq<bool>>, live: set<Range>) {
    && (forall b | 0 <= b < |bits| :: |bits[b]| == BLOCK_PAGES)
    && (forall r | r in live :: r.b < |bits| && 0 < r.n && r.s + r.n <= BLOCK_PAGES)
    && (forall r, q | r in live && q in live && r != q :: Apart(r, q))
    && (forall b, k | 0 <= b < |bits| && 0 <= k < BLOCK_PAGES :: bits[b][k] <==> Used(live, b, k))
  }

  ghost predicate Used(live: set<Range>, b: nat, k: nat) {
    exists r | r in live :: Covers(r, b, k)
  }

  /** A range of free pages can join. */
  lemma {:induction false} TakeKeepsLive(bits: seq<seq<bool>>, live: set<Range>, r: Range)
    requires LiveInv(bits, live) && r.b < |bits| && r.n > 0 && r.s + r.n <= BLOCK_PAGES && FreeRun(bits[r.b], r.s, r.n)
    ensures r !in live && LiveInv(bits[r.b := Mark(bits[r.b], r.s, r.n, true)], live + {r})
  {
    var after := bits[r.b := Mark(bits[r.b], r.s, r.n, true)];
    forall q | q in live ensures Apart(r, q) {
      var k := if r.s < q.s then q.s else r.s;
      assert Covers(q, r.b, k) ==> Used(live, r.b, k);
    }
    forall b, k | 0 <= b < |after| && 0 <= k < BLOCK_PAGES ensures after[b][k] <==> Used(live + {r}, b, k) {
      assert Used(live + {r}, b, k) <==> Used(live, b, k) || Covers(r, b, k) by {
        if Used(live, b, k) { var q :| q in live && Covers(q, b, k); assert q in live + {r}; }
        if Covers(r, b, k) { assert r in live + {r}; }
      }
    }
  }

  lemma {:induction false} FreeKeepsLive(bits: seq<seq<bool>>, live: set<Range>, r: Range)
    requires LiveInv(bits, live) && r in live
    ensures LiveInv(Released(bits, r), live - {r})
  {
    var after := Released(bits, r);
    forall b, k | 0 <= b < |after| && 0 <= k < BLOCK_PAGES ensures after[b][k] <==> Used(live - {r}, b, k) {
      if Used(live, b, k) && !Covers(r, b, k) {
        var q :| q in live && Covers(q, b, k);
        assert q in live - {r};
      }
    }
  }

  lemma {:induction false} GrowKeepsLive(bits: seq<seq<bool>>, live: set<Range>, extra: nat)
    requires LiveInv(bits, live)
    ensures LiveInv(bits + seq(extra, _ => Zeros()), live)
  {
    var after := bits + seq(extra, _ => Zeros());
    forall b, k | 0 <= b < |after| && 0 <= k < BLOCK_PAGES ensures after[b][k] <==> Used(live, b, k) {
      if b >= |bits| { assert after[b] == Zeros(); }
    }
  }

  lemma {:induction false} AllocKeepsLive(bits: seq<seq<bool>>, max: nat, n: nat, after: seq<seq<bool>>, ok: bool,
                                          r: Range,
                                          live: set<Range>)
    requires LiveInv(bits, live) && 0 < |bits| <= max && Allocates(bits, max, n, after, ok, r)
    ensures |bits| <= |after| <= max
    ensures LiveInv(after, if ok then live + {r} else live) && (ok ==> r !in live)
  {
    if ok {
      if NoRun(bits, n, |bits|) {
        var extra := Min(2 * |bits|, max) - |bits|;
        var zeros := bits + seq(extra, _ => Zeros());
        GrowKeepsLive(bits, live, extra);
        assert zeros[r.b] == Zeros();
        TakeKeepsLive(zeros, live, r);
        assert after == zeros[r.b := Mark(zeros[r.b], r.s, r.n, true)];
      } else {
        TakeKeepsLive(bits, live, r);
      }
    }
  }

  datatype Op = Request(n: nat, ok: bool, r: Range) | Release(r: Range)

  /** The ranges given out and not given back. */
  function LiveAfter(ops: seq<Op>): set<Range> {
    if ops == [] then {}
    else
      var live := LiveAfter(ops[..|ops| - 1]);
      match ops[|ops| - 1]
      case Request(_, ok, r) => if ok then live + {r} else live
      case Release(r) => live - {r}
  }

  /** `states` are the bitmaps before, between and after `ops`, from an empty
      one; every range given back is one in use. */
  ghost predicate History(states: seq<seq<seq<bool>>>, ops: seq<Op>, max: nat)
    requires max > 0
    decreases |ops|
  {
    && |states| == |ops| + 1
    && if ops == [] then states[0] == [Zeros()]
       else
         var k := |ops| - 1;
         && History(states[..k + 1], ops[..k], max)
         && 0 < |states[k]| <= max
         && match ops[k]
            case Request(n, ok, r) => Allocates(states[k], max, n, states[k + 1], ok, r)
            case Release(r) =>
              && r in LiveAfter(ops[..k]) && r.b < |states[k]| && r.s + r.n <= |states[k][r.b]|
              && states[k + 1] == Released(states[k], r)
  }

  /** Whatever is requested and given back, the ranges in use never overlap and
      never cross a block, and the bits set are exactly theirs. */
  lemma {:induction false} RangesStayApart(states: seq<seq<seq<bool>>>, ops: seq<Op>, max: nat)
    requires max > 0 && History(states, ops, max)
    ensures 0 < |states[|ops|]| <= max && LiveInv(states[|ops|], LiveAfter(ops))
    decreases |ops|
  {
    if ops == [] {
      assert states[0][0] == Zeros();
    } else {
      var k := |ops| - 1;
      RangesStayApart(states[..k + 1], ops[..k], max);
      match ops[k]
      case Request(n, ok, r) => AllocKeepsLive(states[k], max, n, states[k + 1], ok, r, LiveAfter(ops[..k]));
      case Release(r) => FreeKeepsLive(states[k], LiveAfter(ops[..k]), r);
    }
  }

  /** How often the number of blocks has changed. */
  function Growths(states: seq<seq<seq<bool>>>): nat {
    if |states| <= 1 then 0
    else
      var n := |states| - 1;
      Growths(states[..n]) + if |states[n]| == |states[n - 1]| then 0 else 1
  }

  /** Over any history, the blocks are as many as doubling one block that often
      gives, up to the limit. */
  lemma {:induction false} BlocksDouble(states: seq<seq<seq<bool>>>, ops: seq<Op>, max: nat)
    requires max > 0 && History(states, ops, max)
    ensures |states[|ops|]| == Min(Pow2(Growths(states)), max)
    decreases |ops|
  {
    if ops != [] {
      var k := |ops| - 1;
      BlocksDouble(states[..k + 1], ops[..k], max);
    }
  }
}
