/** The physical page allocator: one bit per block of 4096 bytes, searched with
    whole used words of 64 bits skipped. */
module PhysBitmap {

  const BLOCK_SIZE := 4096

  /** Blocks `s` to `s + n` are all free. */
  ghost predicate FreeRun(used: seq<bool>, s: int, n: nat) {
    0 <= s && s + n <= |used| && forall k | s <= k < s + n :: !used[k]
  }

  /** No run of `n` free blocks ends at or before `end`. */
  ghost predicate NoneBefore(used: seq<bool>, n: nat, end: int) {
    forall q | 0 <= q && q + n <= end :: !FreeRun(used, q, n)
  }

  /** `s` is where a scan from block 0, one block at a time, first finds `n` free blocks. */
  ghost predicate FirstFit(used: seq<bool>, total: nat, n: nat, s: int) {
    0 <= s && s + n <= total && FreeRun(used, s, n) && NoneBefore(used, n, s + n - 1)
  }

  /** `used` with blocks `s` to `s + n` set to `v`. */
  function Mark(used: seq<bool>, s: nat, n: nat, v: bool): (r: seq<bool>)
    requires s + n <= |used|
    ensures |r| == |used| && forall k | 0 <= k < |r| :: r[k] == if s <= k < s + n then v else used[k]
  {
    used[..s] + seq(n, _ => v) + used[s + n..]
  }

  function CountFree(used: seq<bool>, n: nat): nat
    requires n <= |used|
  {
    if n == 0 then 0 else CountFree(used, n - 1) + if used[n - 1] then 0 else 1
  }

  /** The free ones of the first `n` blocks. */
  ghost function FreeSet(used: seq<bool>, n: nat): set<nat>
    requires n <= |used|
  {
    set i | 0 <= i < n && !used[i]
  }

  lemma {:induction false} CountIsSize(used: seq<bool>, n: nat)
    requires n <= |used|
    ensures CountFree(used, n) == |FreeSet(used, n)|
  {
    if n > 0 {
      CountIsSize(used, n - 1);
      var rest := FreeSet(used, n - 1);
      assert FreeSet(used, n) == if used[n - 1] then rest else rest + {n - 1};
    }
  }

  /** The naive scan, one block at a time. */
  function Naive(used: seq<bool>, total: nat, n: nat, from: nat): int
    requires total <= |used|
    decreases total - from
  {
    if from + n > total then -1
    else if forall k | from <= k < from + n :: !used[k] then from
    else Naive(used, total, n, from + 1)
  }

  lemma {:induction false} NaiveIsFirstFit(used: seq<bool>, total: nat, n: nat, from: nat, s: int)
    requires total <= |used| && n > 0 && NoneBefore(used, n, from + n - 1)
    requires if s == -1 then NoneBefore(used, n, total) else FirstFit(used, total, n, s)
    ensures Naive(used, total, n, from) == s
    decreases total - from
  {
    if from + n <= total && forall k | from <= k < from + n :: !used[k] {
      assert FreeRun(used, from, n);
    } else if from + n <= total {
      NaiveIsFirstFit(used, total, n, from + 1, s);
    }
  }

  /** What the scan for `n` free blocks knows when it is about to look at block
      `i`: `run` free blocks end there, starting at `start`. */
  ghost predicate Scanned(bits: seq<bool>, n: nat, i: nat, run: nat, start: nat) {
    && i <= |bits|
    && (n > 0 ==> run < n && NoneBefore(bits, n, i))
    && (if run > 0 then start + run == i && FreeRun(bits, start, run) && (start == 0 || bits[start - 1])
        else i == 0 || bits[i - 1])
  }

  lemma {:induction false} ScanUsed(bits: seq<bool>, n: nat, i: nat, run: nat, start: nat, next: nat)
    requires Scanned(bits, n, i, run, start) && i < next <= |bits| && forall k | i <= k < next :: bits[k]
    ensures Scanned(bits, n, next, 0, start)
  {
    if n > 0 {
      forall q | 0 <= q && q + n <= next ensures !FreeRun(bits, q, n) {
        if q + n > i { assert bits[if q < i then i else q]; }
      }
    }
  }

  lemma {:induction false} ScanFree(bits: seq<bool>, n: nat, i: nat, run: nat, start: nat)
    requires Scanned(bits, n, i, run, start) && i < |bits| && !bits[i]
    ensures var first := if run == 0 then i else start;
            if run + 1 == n then FirstFit(bits, i + 1, n, first) else Scanned(bits, n, i + 1, run + 1, first)
  {
    var first := if run == 0 then i else start;
    assert FreeRun(bits, first, run + 1);
    if n > 0 && run + 1 < n {
      forall q | 0 <= q && q + n <= i + 1 ensures !FreeRun(bits, q, n) {
        if q + n == i + 1 { assert bits[first - 1]; }
      }
    }
  }

  class Allocator {
    const used: array<bool>
    const total: nat

    ghost predicate Valid() {
      used.Length % 64 == 0 && total <= used.Length
    }

    constructor (bitmap: array<bool>, blocks: nat)
      requires bitmap.Length % 64 == 0 && blocks <= bitmap.Length
      ensures Valid() && used == bitmap && total == blocks
    {
      used := bitmap;
      total := blocks;
    }

    /** `phys_base_alloc`: the address of the lowest run of `block` free
        blocks, all of them marked used, and nothing else; 0 if there is none. */
    method Alloc(block: nat) returns (p: nat, ghost s: int)
      requires Valid()
      modifies used
      ensures s == if block == 0 then -1 else Naive(old(used[..]), total, block, 0)
      ensures s == -1 ==> p == 0 && used[..] == old(used[..])
      ensures s != -1 ==> p == s * BLOCK_SIZE && FirstFit(old(used[..]), total, block, s)
      ensures s != -1 ==> used[..] == Mark(old(used[..]), s, block, true)
      ensures total > 0 && old(used[0]) ==> (p == 0 <==> s == -1)
    {
      ghost var bits := used[..];
      var i, consecutive, start := 0, 0, 0;
      while i < total
        invariant Scanned(bits, block, i, consecutive, start) && i <= used.Length
        invariant used[..] == bits
      {
        var bit := i % 64;
        var full := WordFull(i);
        if full {
          ScanUsed(bits, block, i, consecutive, start, i + 64);
          consecutive := 0;
          i := i + 64;
          continue;
        }
        ghost var first := i;
        while bit < 64 && i < total
          invariant bit <= 64 && first <= i && i - first == bit - first % 64
          invariant Scanned(bits, block, i, consecutive, start) && i <= used.Length
          invariant used[..] == bits
        {
          if !used[i] {
            ScanFree(bits, block, i, consecutive, start);
            if consecutive == 0 { start := i; }
            consecutive := consecutive + 1;
            if consecutive == block {
              SetBits(start, block, true);
              NaiveIsFirstFit(bits, total, block, 0, start);
              return start * BLOCK_SIZE, start;
            }
          } else {
            ScanUsed(bits, block, i, consecutive, start, i + 1);
            consecutive := 0;
          }
          bit, i := bit + 1, i + 1;
        }
      }
      if block > 0 { NaiveIsFirstFit(bits, total, block, 0, -1); }
      return 0, -1;
    }

    /** The word that holds block `i`, shifted so that block comes first, is all ones. */
    method WordFull(i: nat) returns (full: bool)
      requires Valid() && i < used.Length
      ensures full <==> i % 64 == 0 && forall k | i <= k < i + 64 :: used[k]
    {
      if i % 64 != 0 { return false; }
      full := true;
      var k := i;
      while k < i + 64
        invariant i <= k <= i + 64 && (full <==> forall j | i <= j < k :: used[j])
      {
        full := full && used[k];
        k := k + 1;
      }
    }

    method SetBits(s: nat, n: nat, v: bool)
      requires s + n <= used.Length
      modifies used
      ensures used[..] == Mark(old(used[..]), s, n, v)
    {
      var j := s;
      while j < s + n
        invariant s <= j <= s + n
        invariant forall k | 0 <= k < used.Length :: used[k] == if s <= k < j then v else old(used[k])
      {
        used[j] := v;
        j := j + 1;
      }
    }

    /** `vxPhysBaseFree` clears the bits of `size` blocks. */
    method Free(ptr: nat, size: nat)
      requires ptr / BLOCK_SIZE + size <= used.Length
      modifies used
      ensures used[..] == Mark(old(used[..]), ptr / BLOCK_SIZE, size, false)
    {
      SetBits(ptr / BLOCK_SIZE, size, false);
    }

    /** `pys_base_get_free_block_count`. */
    method FreeBlockCount() returns (count: nat)
      requires Valid()
      ensures count == CountFree(used[..], total) == |FreeSet(used[..], total)|
    {
      count := 0;
      var i := 0;
      while i < total
        invariant i <= total && count == CountFree(used[..], i)
      {
        if !used[i] { count := count + 1; }
        i := i + 1;
      }
      CountIsSize(used[..], total);
    }
  }

  /** Taking `n` free blocks lowers the free count by `n`. */
  lemma {:induction false} MarkLowers(used: seq<bool>, s: nat, n: nat, end: nat)
    requires FreeRun(used, s, n) && end <= |used|
    ensures CountFree(Mark(used, s, n, true), end) ==
            CountFree(used, end) - (if end <= s then 0 else if end < s + n then end - s else n)
  {
    if end > 0 { MarkLowers(used, s, n, end - 1); }
  }

  /** An allocation takes exactly `n` blocks, and freeing what it returned restores every bit. */
  lemma {:induction false} FreeUndoesAlloc(used: seq<bool>, total: nat, n: nat, s: int)
    requires total <= |used| && FirstFit(used, total, n, s)
    ensures var taken := Mark(used, s, n, true);
            && CountFree(taken, total) == CountFree(used, total) - n
            && (s * BLOCK_SIZE) / BLOCK_SIZE == s && Mark(taken, s, n, false) == used
  {
    MarkLowers(used, s, n, total);
    assert Mark(Mark(used, s, n, true), s, n, false) == used;
  }
}
