/** The slab allocator: slabs of equal blocks with a free chain threaded
    through the free blocks, on three doubly linked lists. */
module Slab {
  import opened Lists

  /** The start of a block: the link of a free one, or the header of one in use. */
  datatype Cell = Link(next: int) | Used(parent: Slab)

  class Slab {
    var next: Slab?
    var prev: Slab?
    var freeList: int
    var freeObjects: nat
    const total: nat
    const cells: array<Cell>
    ghost var chain: seq<nat>

    /** `chain` is the free chain: it ends, has `freeObjects` blocks, and every
        other block is in use and knows its slab. */
    ghost predicate Valid()
      reads this`freeList, this`freeObjects, this`chain, cells
    {
      && 0 < total == cells.Length
      && |chain| == freeObjects <= total
      && freeList == First(chain)
      && Chained(cells[..], chain)
      && (forall i | 0 <= i < total && i !in chain :: cells[i] == Used(this))
    }

    /** A new slab: the blocks are chained in order. */
    constructor (objects: nat)
      requires objects > 0
      ensures Valid() && total == objects == freeObjects && fresh(cells) && next == null == prev
    {
      total := objects;
      cells := new Cell[objects](_ => Link(-1));
      freeList := 0;
      freeObjects := objects;
      next := null;
      prev := null;
      chain := seq(objects, i => i);
      new;
      var i := 0;
      while i < total - 1
        modifies cells
        invariant i <= total - 1
        invariant forall k | 0 <= k < i :: cells[k] == Link(k + 1)
        invariant forall k | i <= k < total :: cells[k] == Link(-1)
      {
        cells[i] := Link(i + 1);
        i := i + 1;
      }
      cells[i] := Link(-1);
      forall k | 0 <= k < total ensures k in chain && LinkedAt(cells[..], chain, k) { assert chain[k] == k; }
    }

    method Pop() returns (obj: nat)
      requires Valid() && freeObjects > 0
      modifies this`freeList, this`freeObjects, this`chain, cells
      ensures Valid() && freeObjects == old(freeObjects) - 1
      ensures obj < total && old(cells[obj].Link?) && cells[obj] == Used(this)
      ensures forall i | 0 <= i < total && i != obj :: cells[i].Used? <==> old(cells[i].Used?)
    {
      PopChain(cells[..], chain, Used(this));
      obj := freeList;
      freeList := cells[obj].next;
      freeObjects := freeObjects - 1;
      cells[obj] := Used(this);
      assert cells[..] == old(cells[..])[obj := Used(this)];
      chain := chain[1..];
    }

    method Push(obj: nat)
      requires Valid() && obj < total && cells[obj].Used?
      modifies this`freeList, this`freeObjects, this`chain, cells
      ensures Valid() && freeObjects == old(freeObjects) + 1
      ensures cells[obj].Link?
      ensures forall i | 0 <= i < total && i != obj :: cells[i].Used? <==> old(cells[i].Used?)
    {
      cells[obj] := Link(freeList);
      freeList := obj;
      freeObjects := freeObjects + 1;
      PushChain(old(cells[..]), chain, obj);
      assert cells[..] == old(cells[..])[obj := Link(First(chain))];
      chain := [obj] + chain;
      ChainFits(cells[..], chain);
    }
  }

  /** The blocks of `chain` are distinct and linked in that order. */
  ghost predicate Chained(cells: seq<Cell>, chain: seq<nat>) {
    && (forall k | 0 <= k < |chain| :: LinkedAt(cells, chain, k))
    && (forall i, k | 0 <= i < k < |chain| :: chain[i] != chain[k])
  }

  ghost predicate LinkedAt(cells: seq<Cell>, chain: seq<nat>, k: nat)
    requires k < |chain|
  {
    chain[k] < |cells| && cells[chain[k]] == Link(After(chain, k))
  }

  lemma {:induction false} PushChain(cells: seq<Cell>, chain: seq<nat>, obj: nat)
    requires Chained(cells, chain) && obj < |cells| && cells[obj].Used?
    ensures obj !in chain && Chained(cells[obj := Link(First(chain))], [obj] + chain)
  {
    var z, r := cells[obj := Link(First(chain))], [obj] + chain;
    forall k | 0 <= k < |chain| ensures chain[k] != obj { assert LinkedAt(cells, chain, k); }
    forall k | 0 <= k < |r| ensures LinkedAt(z, r, k) {
      if k > 0 { assert LinkedAt(cells, chain, k - 1); }
    }
  }

  lemma {:induction false} PopChain(cells: seq<Cell>, chain: seq<nat>, c: Cell)
    requires Chained(cells, chain) && chain != []
    ensures chain[0] < |cells| && cells[chain[0]] == Link(First(chain[1..])) && chain[0] !in chain[1..]
    ensures Chained(cells[chain[0] := c], chain[1..])
  {
    assert LinkedAt(cells, chain, 0);
    var z, r := cells[chain[0] := c], chain[1..];
    forall k | 0 <= k < |r| ensures LinkedAt(z, r, k) { assert LinkedAt(cells, chain, k + 1); }
  }

  lemma {:induction false} ChainFits(cells: seq<Cell>, chain: seq<nat>)
    requires Chained(cells, chain)
    ensures |chain| <= |cells|
  {
    forall k | 0 <= k < |chain| ensures chain[k] < |cells| { assert LinkedAt(cells, chain, k); }
    DistinctBelow(chain, |cells|);
  }

  lemma {:induction false} DistinctBelow(xs: seq<nat>, n: nat)
    requires (forall k | 0 <= k < |xs| :: xs[k] < n) && forall i, k | 0 <= i < k < |xs| :: xs[i] != xs[k]
    ensures |xs| <= n
    decreases n
  {
    if xs != [] {
      assert xs[0] < n;
      var top := n - 1;
      if top in xs {
        var k :| 0 <= k < |xs| && xs[k] == top;
        DistinctBelow(xs[..k] + xs[k + 1..], top);
      } else {
        DistinctBelow(xs, top);
      }
    }
  }

  /** `list` is the doubly linked list that starts at `head`. */
  ghost predicate Listed(list: seq<Slab>, head: Slab?)
    reads (set s | s in list)`next, (set s | s in list)`prev
  {
    && head == (if list == [] then null else list[0])
    && (forall i, j | 0 <= i < j < |list| :: list[i] != list[j])
    && (forall i | 0 <= i < |list| :: Neighbours(list, i))
  }

  ghost predicate Neighbours(list: seq<Slab>, i: nat)
    requires i < |list|
    reads (var v := list[i]; {v})`next, (var v := list[i]; {v})`prev
  {
    && list[i].prev == (if i == 0 then null else list[i - 1])
    && list[i].next == (if i + 1 == |list| then null else list[i + 1])
  }

  method Remove(v: Slab, head: Slab?, ghost list: seq<Slab>, ghost k: nat) returns (h: Slab?)
    requires Listed(list, head) && k < |list| && list[k] == v
    modifies (set s | s in list)`next, (set s | s in list)`prev
    ensures Listed(Without(list, k), h) && v !in Without(list, k)
  {
    h := head;
    assert Neighbours(list, k);
    if k > 0 { assert Neighbours(list, k - 1); }
    if k + 1 < |list| { assert Neighbours(list, k + 1); }
    if v.prev != null { v.prev.next := v.next; } else { h := v.next; }
    if v.next != null { v.next.prev := v.prev; }
    ghost var r := Without(list, k);
    forall i | 0 <= i < |r| ensures Neighbours(r, i) && r[i] != v {
      ghost var j := if i < k then i else i + 1;
      assert old(Neighbours(list, j));
    }
  }

  method PushFront(v: Slab, head: Slab?, ghost list: seq<Slab>)
    requires Listed(list, head) && v !in list
    modifies v`next, v`prev, (set s | s in list)`prev
    ensures Listed([v] + list, v)
  {
    v.next := head;
    v.prev := null;
    if head != null { head.prev := v; }
    ghost var r := [v] + list;
    forall i | 0 <= i < |r| ensures Neighbours(r, i) {
      if i > 0 { assert old(Neighbours(list, i - 1)); }
    }
  }

  /** Takes `v` off one list and puts it in front of another. */
  method Transfer(v: Slab, from: Slab?, to: Slab?, ghost a: seq<Slab>, ghost k: nat, ghost b: seq<Slab>)
    returns (f: Slab?)
    requires Listed(a, from) && Listed(b, to) && k < |a| && a[k] == v && forall s | s in a :: s !in b
    modifies (set s | s in a + b)`next, (set s | s in a + b)`prev
    ensures Listed(Without(a, k), f) && Listed([v] + b, v) && v !in Without(a, k)
  {
    f := Remove(v, from, a, k);
    PushFront(v, to, b);
  }

  /** Which slab serves a request, given the partial and the free list: the first
      partial one, else the first free one, else a new one. */
  ghost predicate Picks(partial: seq<Slab>, free: seq<Slab>, was: set<Slab>, now: set<Slab>, v: Slab) {
    if partial != [] then v == partial[0] && now == was
    else if free != [] then v == free[0] && now == was
    else v !in was && now == was + {v}
  }

  class Cache {
    const perSlab: nat
    var partialHead: Slab?
    var freeHead: Slab?
    var fullHead: Slab?
    ghost var partial: seq<Slab>
    ghost var free: seq<Slab>
    ghost var full: seq<Slab>
    ghost var slabs: set<Slab>
    ghost var live: set<(Slab, nat)>

    ghost function Blocks(): set<array<Cell>>
      reads this`slabs
    {
      set s | s in slabs :: s.cells
    }

    /** The three lists are well formed, and each slab is on exactly one. */
    ghost predicate Lists()
      reads this`partialHead, this`freeHead, this`fullHead, this`partial, this`free, this`full, this`slabs
      reads slabs`next, slabs`prev
    {
      && Split(slabs, partial, free, full)
      && Listed(partial, partialHead) && Listed(free, freeHead) && Listed(full, fullHead)
    }

    /** Every slab is sound and has its own blocks; `live` are the blocks in use. */
    ghost predicate Sound()
      reads this`slabs, this`live, slabs`freeList, slabs`freeObjects, slabs`chain, Blocks()
    {
      perSlab > 0 && AllSound(slabs, perSlab) && InUse(slabs, live)
    }

    ghost predicate Sorted(v: Slab?)
      reads this`partial, this`free, this`full, this`slabs, slabs`freeObjects
    {
      Split(slabs, partial, free, full) && Fitting(slabs, perSlab, partial, free, full, v)
    }

    ghost predicate Valid()
      reads this, slabs, Blocks()
    {
      Lists() && Sound() && Sorted(null)
    }

    constructor (objects: nat)
      requires objects > 0
      ensures Valid() && perSlab == objects && slabs == {} && live == {}
    {
      perSlab := objects;
      partialHead, freeHead, fullHead := null, null, null;
      partial, free, full, slabs, live := [], [], [], {}, {};
    }

    method Relist(p: Slab?, f: Slab?, u: Slab?, ghost ps: seq<Slab>, ghost fs: seq<Slab>, ghost us: seq<Slab>)
      requires Split(slabs, ps, fs, us) && Listed(ps, p) && Listed(fs, f) && Listed(us, u)
      modifies this`partialHead, this`freeHead, this`fullHead, this`partial, this`free, this`full
      ensures Lists() && partial == ps && free == fs && full == us
    {
      partialHead, freeHead, fullHead := p, f, u;
      partial, free, full := ps, fs, us;
    }

    method FreeToPartial(v: Slab, ghost k: nat)
      requires Lists() && k < |free| && free[k] == v
      modifies this`partialHead, this`freeHead, this`fullHead, this`partial
      modifies this`free, this`full, slabs`next, slabs`prev
      ensures Lists() && partial == [v] + old(partial) && free == Without(old(free), k) && full == old(full)
    {
      var f := Transfer(v, freeHead, partialHead, free, k, partial);
      SplitMoves(slabs, partial, free, full, k);
      Relist(v, f, fullHead, [v] + partial, Without(free, k), full);
    }

    method PartialToFull(v: Slab, ghost k: nat)
      requires Lists() && k < |partial| && partial[k] == v
      modifies this`partialHead, this`freeHead, this`fullHead, this`partial
      modifies this`free, this`full, slabs`next, slabs`prev
      ensures Lists() && full == [v] + old(full) && partial == Without(old(partial), k) && free == old(free)
    {
      var p := Transfer(v, partialHead, fullHead, partial, k, full);
      SplitMoves(slabs, full, partial, free, k);
      Relist(p, freeHead, v, Without(partial, k), free, [v] + full);
    }

    method FullToPartial(v: Slab, ghost k: nat)
      requires Lists() && k < |full| && full[k] == v
      modifies this`partialHead, this`freeHead, this`fullHead, this`partial
      modifies this`free, this`full, slabs`next, slabs`prev
      ensures Lists() && partial == [v] + old(partial) && full == Without(old(full), k) && free == old(free)
    {
      var u := Transfer(v, fullHead, partialHead, full, k, partial);
      SplitMoves(slabs, partial, full, free, k);
      Relist(v, freeHead, u, [v] + partial, free, Without(full, k));
    }

    method PartialToFree(v: Slab, ghost k: nat)
      requires Lists() && k < |partial| && partial[k] == v
      modifies this`partialHead, this`freeHead, this`fullHead, this`partial
      modifies this`free, this`full, slabs`next, slabs`prev
      ensures Lists() && free == [v] + old(free) && partial == Without(old(partial), k) && full == old(full)
    {
      var p := Transfer(v, partialHead, freeHead, partial, k, free);
      SplitMoves(slabs, free, partial, full, k);
      Relist(p, v, fullHead, Without(partial, k), [v] + free, full);
    }

    /** A new slab in front of the free list. */
    method NewSlab() returns (v: Slab)
      requires Lists() && Sound()
      modifies this, slabs`prev
      ensures Lists() && Sound() && fresh(v) && fresh(v.cells) && v.freeObjects == perSlab
      ensures slabs == old(slabs) + {v} && free == [v] + old(free) && partial == old(partial) && full == old(full)
      ensures live == old(live)
    {
      v := new Slab(perSlab);
      AllFree(v);
      Link(v);
      Enrol(v);
    }

    method Link(v: Slab)
      requires Lists() && Sound() && v !in slabs && v.Valid()
      modifies this`freeHead, this`free, slabs`prev, v`next, v`prev
      ensures Sound() && live == old(live) && v.Valid() && Split(slabs + {v}, partial, free, full)
      ensures free == [v] + old(free)
      ensures Listed(partial, partialHead) && Listed(free, freeHead) && Listed(full, fullHead)
    {
      LinkFront(v);
    }

    method LinkFront(v: Slab)
      requires Lists() && v !in slabs
      modifies this`freeHead, this`free, slabs`prev, v`next, v`prev
      ensures Split(slabs + {v}, partial, free, full) && free == [v] + old(free)
      ensures Listed(partial, partialHead) && Listed(free, freeHead) && Listed(full, fullHead)
    {
      PushFront(v, freeHead, free);
      freeHead, free := v, [v] + free;
    }

    ghost method Enrol(v: Slab)
      requires Sound() && v !in slabs && v.Valid() && v.total == perSlab && v.cells !in Blocks()
      requires forall i | 0 <= i < v.total :: v.cells[i].Link?
      requires Split(slabs + {v}, partial, free, full)
      requires Listed(partial, partialHead) && Listed(free, freeHead) && Listed(full, fullHead)
      modifies this`slabs
      ensures Lists() && Sound() && slabs == old(slabs) + {v} && live == old(live)
    {
      slabs := slabs + {v};
    }

    /** The first partial slab; without one, the first free slab or a new one is made it. */
    method Ready() returns (v: Slab)
      requires Valid()
      modifies this, slabs`next, slabs`prev
      ensures Lists() && Sound() && partial != [] && partial[0] == v && v.freeObjects > 0 && Sorted(v)
      ensures old(slabs) <= slabs && fresh(slabs - old(slabs)) && fresh(Blocks() - old(Blocks()))
      ensures live == old(live) && Picks(old(partial), old(free), old(slabs), slabs, v)
    {
      if partialHead == null {
        v := Spare();
        Promote(v);
      } else {
        v := partialHead;
      }
    }

    method Promote(v: Slab)
      requires Lists() && Sound() && partial == [] && free != [] && free[0] == v && Sorted(v)
      modifies this`partialHead, this`freeHead, this`fullHead, this`partial
      modifies this`free, this`full, slabs`next, slabs`prev
      ensures Lists() && Sound() && partial == [v] && Sorted(v) && live == old(live)
    {
      FreeToPartial(v, 0);
      forall s | s in free ensures s in old(free) { InWithout(old(free), 0, s); }
    }

    /** The first free slab, or a new one. */
    method Spare() returns (w: Slab)
      requires Valid()
      modifies this, slabs`prev
      ensures Lists() && Sound() && free != [] && free[0] == w && w.freeObjects == perSlab && Sorted(w)
      ensures partial == old(partial) && old(slabs) <= slabs && fresh(slabs - old(slabs))
      ensures fresh(Blocks() - old(Blocks()))
      ensures live == old(live)
      ensures slabs == if old(free) == [] then old(slabs) + {w} else old(slabs)
      ensures if old(free) == [] then w !in old(slabs) else w == old(free)[0]
    {
      if freeHead == null {
        w := NewSlab();
      } else {
        w := freeHead;
      }
    }

    /** Takes the first free block of slab `v`. */
    method TakeFrom(v: Slab) returns (obj: nat)
      requires Lists() && Sound() && v in slabs && v.freeObjects > 0 && Sorted(v)
      modifies this`live, v`freeList, v`freeObjects, v`chain, v.cells
      ensures Lists() && Sound() && Sorted(v) && v.freeObjects == old(v.freeObjects) - 1
      ensures (v, obj) !in old(live) && live == old(live) + {(v, obj)}
    {
      obj := PopFrom(v);
    }

    method PopFrom(v: Slab) returns (obj: nat)
      requires Sound() && v in slabs && v.freeObjects > 0
      modifies this`live, v`freeList, v`freeObjects, v`chain, v.cells
      ensures Sound() && v.freeObjects == old(v.freeObjects) - 1
      ensures (v, obj) !in old(live) && live == old(live) + {(v, obj)}
    {
      obj := v.Pop();
      live := live + {(v, obj)};
    }

    /** Gives block `obj` back to slab `v`. */
    method GiveBack(v: Slab, obj: nat)
      requires Lists() && Sound() && Sorted(null) && (v, obj) in live
      modifies this`live, v`freeList, v`freeObjects, v`chain, v.cells
      ensures Lists() && Sound() && Sorted(v) && v.freeObjects == old(v.freeObjects) + 1
      ensures live == old(live) - {(v, obj)}
    {
      PushTo(v, obj);
    }

    method PushTo(v: Slab, obj: nat)
      requires Sound() && (v, obj) in live
      modifies this`live, v`freeList, v`freeObjects, v`chain, v.cells
      ensures Sound() && v.freeObjects == old(v.freeObjects) + 1
      ensures live == old(live) - {(v, obj)}
    {
      v.Push(obj);
      live := live - {(v, obj)};
    }

    /** A slab without free blocks left goes to the full list. */
    method FileTaken(v: Slab)
      requires Lists() && partial != [] && partial[0] == v && v.freeObjects < perSlab && Sorted(v)
      modifies this`partialHead, this`freeHead, this`fullHead, this`partial
      modifies this`free, this`full, slabs`next, slabs`prev
      ensures Lists() && Sorted(null)
    {
      if v.freeObjects == 0 {
        PartialToFull(v, 0);
        FittingFull(slabs, perSlab, old(partial), free, old(full), 0);
      }
    }

    /** A full slab that got a block back goes to the partial list. */
    method FileFirst(v: Slab, ghost k: nat)
      requires Lists() && perSlab > 0 && k < |full| && full[k] == v && v.freeObjects == 1 && Sorted(v)
      modifies this`partialHead, this`freeHead, this`fullHead, this`partial
      modifies this`free, this`full, slabs`next, slabs`prev
      ensures Lists() && Sorted(null)
    {
      FullToPartial(v, k);
      FittingPartial(slabs, perSlab, old(partial), free, old(full), k);
    }

    /** A slab that has all its blocks back goes to the free list. */
    method FileLast(v: Slab, ghost k: nat)
      requires Lists() && k < |partial| && partial[k] == v && v.freeObjects == perSlab > 1 && Sorted(v)
      modifies this`partialHead, this`freeHead, this`fullHead, this`partial
      modifies this`free, this`full, slabs`next, slabs`prev
      ensures Lists() && Sorted(null)
    {
      PartialToFree(v, k);
      FittingFree(slabs, perSlab, old(partial), old(free), full, k);
    }

    method FileGiven(v: Slab)
      requires Lists() && v in slabs && v.total == perSlab > 0 && 0 < v.freeObjects <= perSlab && Sorted(v)
      requires v in if v.freeObjects == 1 then full else partial
      modifies this`partialHead, this`freeHead, this`fullHead, this`partial
      modifies this`free, this`full, slabs`next, slabs`prev
      ensures Lists() && Sorted(null)
    {
      if v.freeObjects == 1 {
        ghost var k :| 0 <= k < |full| && full[k] == v;
        FileFirst(v, k);
      } else if v.freeObjects == v.total {
        ghost var k :| 0 <= k < |partial| && partial[k] == v;
        FileLast(v, k);
      }
    }

    method KeepTaken(v: Slab)
      requires Lists() && Sound() && partial != [] && partial[0] == v && v.freeObjects < perSlab && Sorted(v)
      modifies this`partialHead, this`freeHead, this`fullHead, this`partial
      modifies this`free, this`full, slabs`next, slabs`prev
      ensures Valid()
    {
      FileTaken(v);
    }

    method KeepGiven(v: Slab)
      requires Lists() && Sound() && v in slabs && 0 < v.freeObjects && Sorted(v)
      requires v in if v.freeObjects == 1 then full else partial
      modifies this`partialHead, this`freeHead, this`fullHead, this`partial
      modifies this`free, this`full, slabs`next, slabs`prev
      ensures Valid()
    {
      FileGiven(v);
    }

    /** A slab with a block in use is on the full list or on the partial list. */
    lemma WhereItIs(v: Slab, obj: nat)
      requires Valid() && (v, obj) in live
      ensures v in slabs && v.freeObjects < perSlab && v in if v.freeObjects == 0 then full else partial
    {
      OwnHeader(v, obj);
    }

    /** Every block of every slab is in use. */
    ghost predicate AllTaken()
      reads this`slabs, this`live
    {
      forall s, i | s in slabs && 0 <= i < s.total :: (s, i) in live
    }

    /** With no partial and no free slab, no block is left. */
    lemma NoneLeft()
      requires Valid()
      ensures partial == [] && free == [] ==> AllTaken()
    {
      if partial == [] && free == [] {
        forall s, i | s in slabs && 0 <= i < s.total ensures (s, i) in live { TakenIfFull(s, i); }
      }
    }

    lemma TakenIfFull(s: Slab, i: nat)
      requires Valid() && s in slabs && i < s.total && s in full
      ensures (s, i) in live
    {
    }

    method TakeAndFile(v: Slab) returns (obj: nat)
      requires Lists() && Sound() && partial != [] && partial[0] == v && v.freeObjects > 0 && Sorted(v)
      modifies this`partialHead, this`freeHead, this`fullHead, this`partial, this`free
      modifies this`full, this`live, slabs, v.cells
      ensures Valid() && (v, obj) !in old(live) && live == old(live) + {(v, obj)}
    {
      obj := TakeFrom(v);
      KeepTaken(v);
    }

    method GiveAndFile(v: Slab, obj: nat)
      requires Valid() && (v, obj) in live
      modifies this`partialHead, this`freeHead, this`fullHead, this`partial, this`free
      modifies this`full, this`live, slabs, v.cells
      ensures Valid() && live == old(live) - {(v, obj)}
    {
      WhereItIs(v, obj);
      GiveBack(v, obj);
      KeepGiven(v);
    }

    /** `vxSlabAlloc`: hands out a block that was not in use.  The slab it
        picks always has one (`ok`). */
    method Alloc() returns (ok: bool, v: Slab, obj: nat)
      requires Valid()
      modifies this, slabs, Blocks()
      ensures Valid() && ok
      ensures old(slabs) <= slabs && fresh(slabs - old(slabs)) && fresh(Blocks() - old(Blocks()))
      ensures (v, obj) !in old(live) && live == old(live) + {(v, obj)}
      ensures Picks(old(partial), old(free), old(slabs), slabs, v)
      ensures slabs != old(slabs) ==> old(AllTaken())
    {
      NoneLeft();
      v := Ready();
      if v.freeList == -1 { return false, v, 0; }
      obj := TakeAndFile(v);
      ok := true;
    }

    /** `slab_free`: exactly the given block is free again; a block that is not
        in use has no valid header and is left alone. */
    method Free(s: Slab, obj: nat)
      requires Valid() && s in slabs && obj < s.total
      modifies this, slabs, Blocks()
      ensures Valid() && slabs == old(slabs) && live == old(live) - {(s, obj)}
    {
      match s.cells[obj]
      case Link(_) =>
      case Used(v) =>
        OwnHeader(s, obj);
        GiveAndFile(v, obj);
    }
  }

  lemma {:induction false} OwnHeader(s: Slab, obj: nat)
    requires s.Valid() && obj < s.total && s.cells[obj].Used?
    ensures s.cells[obj].parent == s && s.freeObjects < s.total
  {
    forall k | 0 <= k < |s.chain| ensures s.chain[k] != obj { assert LinkedAt(s.cells[..], s.chain, k); }
    if s.freeObjects == s.total { InFullChain(s.cells[..], s.chain, obj); }
  }

  lemma {:induction false} AllFree(v: Slab)
    requires v.Valid() && v.freeObjects == v.total
    ensures forall i | 0 <= i < v.total :: v.cells[i].Link?
  {
    forall i | 0 <= i < v.total ensures v.cells[i].Link? {
      InFullChain(v.cells[..], v.chain, i);
      var k :| 0 <= k < |v.chain| && v.chain[k] == i;
      assert LinkedAt(v.cells[..], v.chain, k);
    }
  }

  /** A chain as long as the slab holds every block. */
  lemma {:induction false} InFullChain(cells: seq<Cell>, chain: seq<nat>, i: nat)
    requires Chained(cells, chain) && |chain| == |cells| && i < |cells|
    ensures i in chain
  {
    forall k | 0 <= k < |chain| ensures chain[k] < |cells| { assert LinkedAt(cells, chain, k); }
    if i !in chain {
      DistinctBelow(chain + [i], |cells|);
    }
  }

  ghost predicate AllSound(slabs: set<Slab>, n: nat)
    reads slabs`freeList, slabs`freeObjects, slabs`chain, set s | s in slabs :: s.cells
  {
    && (forall s | s in slabs :: s.Valid() && s.total == n)
    && (forall s, t | s in slabs && t in slabs && s != t :: s.cells != t.cells)
  }

  ghost predicate InUse(slabs: set<Slab>, live: set<(Slab, nat)>)
    reads set s | s in slabs :: s.cells
  {
    && (forall p | p in live :: p.0 in slabs && p.1 < p.0.cells.Length)
    && (forall s, i | s in slabs && 0 <= i < s.cells.Length :: s.cells[i].Used? <==> (s, i) in live)
  }

  /** The three sequences hold every slab, on one of them only. */
  ghost predicate Split(slabs: set<Slab>, p: seq<Slab>, f: seq<Slab>, u: seq<Slab>) {
    && (forall s | s in p :: s in slabs && s !in f && s !in u)
    && (forall s | s in f :: s in slabs && s !in p && s !in u)
    && (forall s | s in u :: s in slabs && s !in p && s !in f)
    && (forall s | s in slabs :: s in p || s in f || s in u)
  }

  /** Every slab, `v` aside, is on the list its free count asks for.  A slab
      with a single block never goes back to the free list. */
  ghost predicate Fitting(slabs: set<Slab>, n: nat, p: seq<Slab>, f: seq<Slab>, u: seq<Slab>, v: Slab?)
    requires Split(slabs, p, f, u)
    reads slabs`freeObjects
  {
    && (forall s | s in p && s != v :: 0 < s.freeObjects && (s.freeObjects < n || n == 1))
    && (forall s | s in f && s != v :: s.freeObjects == n > 1)
    && (forall s | s in u && s != v :: s.freeObjects == 0)
  }

  lemma {:induction false} InWithout(list: seq<Slab>, k: nat, s: Slab)
    requires k < |list| && s in Without(list, k)
    ensures s in list
  {
    var i :| 0 <= i < |list| - 1 && Without(list, k)[i] == s;
    assert list[if i < k then i else i + 1] == s;
  }

  /** Moving `v` to where it belongs. */
  lemma {:induction false} FittingFull(slabs: set<Slab>, n: nat, p: seq<Slab>, f: seq<Slab>, u: seq<Slab>, k: nat)
    requires Split(slabs, p, f, u) && k < |p| && Split(slabs, Without(p, k), f, [p[k]] + u)
    requires Fitting(slabs, n, p, f, u, p[k]) && p[k].freeObjects == 0
    ensures Fitting(slabs, n, Without(p, k), f, [p[k]] + u, null)
  {
    forall s | s in Without(p, k) ensures s in p { InWithout(p, k, s); }
  }

  lemma {:induction false} FittingPartial(slabs: set<Slab>, n: nat, p: seq<Slab>, f: seq<Slab>, u: seq<Slab>, k: nat)
    requires Split(slabs, p, f, u) && k < |u| && Split(slabs, [u[k]] + p, f, Without(u, k))
    requires Fitting(slabs, n, p, f, u, u[k]) && u[k].freeObjects == 1 && n > 0
    ensures Fitting(slabs, n, [u[k]] + p, f, Without(u, k), null)
  {
    forall s | s in Without(u, k) ensures s in u { InWithout(u, k, s); }
  }

  lemma {:induction false} FittingFree(slabs: set<Slab>, n: nat, p: seq<Slab>, f: seq<Slab>, u: seq<Slab>, k: nat)
    requires Split(slabs, p, f, u) && k < |p| && Split(slabs, Without(p, k), [p[k]] + f, u)
    requires Fitting(slabs, n, p, f, u, p[k]) && p[k].freeObjects == n > 1
    ensures Fitting(slabs, n, Without(p, k), [p[k]] + f, u, null)
  {
    forall s | s in Without(p, k) ensures s in p { InWithout(p, k, s); }
  }

  lemma {:induction false} SplitMoves(slabs: set<Slab>, p: seq<Slab>, f: seq<Slab>, u: seq<Slab>, k: nat)
    requires Split(slabs, p, f, u) && k < |f| && f[k] !in Without(f, k)
    ensures Split(slabs, [f[k]] + p, Without(f, k), u)
  {
    var v, z := f[k], Without(f, k);
    forall s | s in z ensures s in f { InWithout(f, k, s); }
    forall s | s in f ensures s == v || s in z {
      var i :| 0 <= i < |f| && f[i] == s;
      if i != k { assert z[if i < k then i else i - 1] == s; }
    }
  }
}
