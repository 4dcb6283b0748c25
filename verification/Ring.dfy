/** Circular doubly linked lists: the links of `llist.h` and of the run queue. */
module Ring {
  import opened Lists

  class Node<T> {
    var next: Node?<T>
    var prev: Node?<T>
    const data: T
    constructor (d: T)
      ensures data == d && next == null && prev == null
    {
      data := d;
      next := null;
      prev := null;
    }
  }

  function Succ(i: nat, n: nat): (r: nat)
    requires i < n
    ensures r < n
  {
    if i + 1 == n then 0 else i + 1
  }

  function Pred(i: nat, n: nat): (r: nat)
    requires i < n
    ensures r < n && Succ(r, n) == i
  {
    if i == 0 then n - 1 else i - 1
  }

  ghost predicate Linked<T>(ring: seq<Node<T>>)
    reads ring
  {
    && (forall i, j | 0 <= i < j < |ring| :: ring[i] != ring[j])
    && (forall i | 0 <= i < |ring| :: Joined(ring[i], ring[Succ(i, |ring|)]))
  }

  ghost predicate Joined<T>(v: Node<T>, w: Node<T>)
    reads v, w
  {
    v.next == w && w.prev == v
  }

  /** All links are those of the ring, but around position `k`. */
  ghost predicate Bypassed<T>(ring: seq<Node<T>>, k: nat)
    requires k < |ring|
    reads ring
  {
    && (forall i, j | 0 <= i < j < |ring| :: ring[i] != ring[j])
    && forall j | 0 <= j < |ring| && j != k ::
         Joined(ring[j], ring[if j == Pred(k, |ring|) then Succ(k, |ring|) else Succ(j, |ring|)])
  }

  lemma BypassedLinked<T>(ring: seq<Node<T>>, k: nat)
    requires k < |ring| && Bypassed(ring, k)
    ensures Linked(Without(ring, k)) && ring[k] !in Without(ring, k)
  {
    var r := Without(ring, k);
    forall i | 0 <= i < |r| ensures Joined(r[i], r[Succ(i, |r|)]) && r[i] != ring[k] {
      WithoutSucc(ring, k, i);
    }
  }

  lemma WithoutSucc<T>(ring: seq<Node<T>>, k: nat, i: nat)
    requires k < |ring| && i < |ring| - 1
    ensures var n, j, r := |ring|, if i < k then i else i + 1, Without(ring, k);
            r[i] == ring[j] && r[Succ(i, n - 1)] == ring[if j == Pred(k, n) then Succ(k, n) else Succ(j, n)]
  {
  }

  /** The neighbours of the node at `k` now point at each other. */
  method Bypass<T>(v: Node<T>, ghost ring: seq<Node<T>>, ghost k: nat)
    requires Linked(ring) && k < |ring| && ring[k] == v && v.next != v
    modifies ring
    ensures |ring| > 1 && v.prev == ring[Pred(k, |ring|)] && v.next == ring[Succ(k, |ring|)]
    ensures Bypassed(ring, k)
  {
    ghost var n := |ring|;
    ghost var p, q := Pred(k, n), Succ(k, n);
    assert Joined(ring[p], ring[k]) && Joined(ring[k], ring[q]);
    if v.prev != null { v.prev.next := v.next; }
    if v.next != null { v.next.prev := v.prev; }
    forall j | 0 <= j < n && j != k ensures Joined(ring[j], ring[if j == p then q else Succ(j, n)]) {
      if j != p { assert old(Joined(ring[j], ring[Succ(j, n)])); }
    }
  }

  /** Takes the node at `k` out; its own links still show where it was. */
  method Excise<T>(v: Node<T>, ghost ring: seq<Node<T>>, ghost k: nat)
    requires Linked(ring) && k < |ring| && ring[k] == v && v.next != v
    modifies ring
    ensures |ring| > 1 && v.prev == ring[Pred(k, |ring|)] && v.next == ring[Succ(k, |ring|)]
    ensures Linked(Without(ring, k)) && v !in Without(ring, k)
  {
    Bypass(v, ring, k);
    BypassedLinked(ring, k);
  }

  /** `llist_add_tail`: the new node becomes the last of the ring that starts at `head`. */
  method AddTail<T>(v: Node<T>, head: Node<T>, ghost ring: seq<Node<T>>)
    requires Linked(ring) && ring != [] && ring[0] == head && v !in ring
    modifies ring, v
    ensures Linked(ring + [v])
  {
    ghost var n := |ring|;
    assert Joined(ring[Pred(0, n)], ring[0]);
    var prev := head.prev;
    v.next := head;
    v.prev := prev;
    head.prev := v;
    prev.next := v;
    ghost var r := ring + [v];
    forall i | 0 <= i < |r| ensures Joined(r[i], r[Succ(i, |r|)]) {
      if i + 1 < n { assert old(Joined(ring[i], ring[Succ(i, n)])); }
    }
  }

  /** `llist_del`: exactly the given node leaves the ring. */
  method Del<T>(v: Node<T>, ghost ring: seq<Node<T>>, ghost k: nat)
    requires Linked(ring) && 0 < k < |ring| && ring[k] == v
    modifies ring
    ensures Linked(Without(ring, k)) && v !in Without(ring, k) && v.next == null && v.prev == null
  {
    assert Joined(ring[k], ring[Succ(k, |ring|)]);
    Excise(v, ring, k);
    Detached(v, Without(ring, k));
  }

  method Detached<T>(v: Node<T>, ghost rest: seq<Node<T>>)
    requires Linked(rest) && v !in rest
    modifies v
    ensures Linked(rest) && v.next == null && v.prev == null
  {
    v.next := null;
    v.prev := null;
  }
}
