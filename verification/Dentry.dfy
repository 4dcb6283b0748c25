/** Directory entries and their cache: the hash buckets, the rings of children,
    the flags and counts, and the references.  Namespace operations run one
    after the other; the frees that `call_rcu` defers are steps of their own. */
module Dentry {
  import opened Lists

  const BUCKETS := 32

  /** The parts of an entry that say where it is; `parent` is -1 for the root. */
  datatype Dentry = Dentry(name: string, parent: int, cached: bool)

  /** Entries are numbered as they are created.  `kids` are the rings of cached
      children, `pending` the entries whose deferred free has not run. */
  datatype State = State(
    dents: map<nat, Dentry>, refs: map<nat, int>,
    buckets: seq<seq<nat>>, kids: map<nat, seq<nat>>, count: int,
    pending: multiset<nat>, next: nat)

  type Hash = (string, int) -> nat

  function Index(hash: Hash, name: string, parent: int): (i: nat)
    ensures i < BUCKETS
  {
    hash(name, parent) % BUCKETS
  }

  // ---- what the structure says ---------------------------------------------------

  /** Entry `d` is on the list of bucket `i` exactly when it is cached and hashes there. */
  ghost predicate Hashed(dents: map<nat, Dentry>, hash: Hash, list: seq<nat>, i: nat, d: nat) {
    d in list <==> d in dents && dents[d].cached && Index(hash, dents[d].name, dents[d].parent) == i
  }

  ghost predicate BucketOk(dents: map<nat, Dentry>, hash: Hash, list: seq<nat>, i: nat) {
    Distinct(list) && forall d :: Hashed(dents, hash, list, i, d)
  }

  /** Entry `d` is on the ring of `p` exactly when it is a cached child of `p`. */
  ghost predicate Child(dents: map<nat, Dentry>, list: seq<nat>, p: nat, d: nat) {
    d in list <==> d in dents && dents[d].cached && dents[d].parent == p
  }

  ghost predicate RingOk(dents: map<nat, Dentry>, list: seq<nat>, p: nat) {
    Distinct(list) && forall d :: Child(dents, list, p, d)
  }

  /** The root has no parent and is not cached; any other entry has an older parent. */
  ghost predicate Tree(dents: map<nat, Dentry>, root: nat, next: nat) {
    && root in dents && !dents[root].cached
    && forall d {:trigger Placed(dents, root, next, d)} | d in dents :: Placed(dents, root, next, d)
  }

  ghost predicate Placed(dents: map<nat, Dentry>, root: nat, next: nat, d: nat)
    requires d in dents
  {
    d < next && if d == root then dents[d].parent == -1 else 0 <= dents[d].parent < d && dents[d].parent in dents
  }

  /** No two cached entries have the same parent and name. */
  ghost predicate Unique(dents: map<nat, Dentry>) {
    forall d, e :: Apart(dents, d, e)
  }

  ghost predicate Apart(dents: map<nat, Dentry>, d: nat, e: nat) {
    (d in dents && e in dents && dents[d].cached && dents[e].cached && dents[d].parent == dents[e].parent
     && dents[d].name == dents[e].name) ==> d == e
  }

  ghost function CachedSet(dents: map<nat, Dentry>): set<nat> {
    set d | d in dents && dents[d].cached
  }

  ghost predicate Wired(dents: map<nat, Dentry>, hash: Hash, buckets: seq<seq<nat>>, kids: map<nat, seq<nat>>,
                        count: int) {
    && |buckets| == BUCKETS
    && (forall i | 0 <= i < BUCKETS :: BucketOk(dents, hash, buckets[i], i))
    && kids.Keys == dents.Keys
    && (forall p | p in kids :: RingOk(dents, kids[p], p))
    && count == |CachedSet(dents)|
  }

  // ---- who holds the references ------------------------------------------------------

  ghost function ChildSet(dents: map<nat, Dentry>, d: nat): set<nat> {
    set e | e in dents && dents[e].parent == d
  }

  /** The references an entry has: the cache's, its children's, and those held outside. */
  ghost function Due(dents: map<nat, Dentry>, held: multiset<nat>, d: nat): nat
    requires d in dents
  {
    One(dents[d].cached) + |ChildSet(dents, d)| + held[d]
  }

  ghost predicate RefsOk(dents: map<nat, Dentry>, refs: map<nat, int>, held: multiset<nat>, pending: multiset<nat>) {
    && refs.Keys == dents.Keys
    && (forall d {:trigger Settled(dents, refs, held, d)} | d in dents :: Settled(dents, refs, held, d))
    && (forall d | d in held :: d in dents)
    && (forall d :: Waits(refs, pending, d))
  }

  ghost predicate Settled(dents: map<nat, Dentry>, refs: map<nat, int>, held: multiset<nat>, d: nat)
    requires d in dents && d in refs
  {
    refs[d] == Due(dents, held, d)
  }

  /** An entry waits to be freed, once, exactly when nobody refers to it. */
  ghost predicate Waits(refs: map<nat, int>, pending: multiset<nat>, d: nat) {
    pending[d] == One(d in refs && refs[d] == 0)
  }

  /** Buckets, flags, count and rings describe the same entries, unique by
      parent and name, and every count is the number of its holders. */
  ghost predicate Inv(s: State, hash: Hash, root: nat, held: multiset<nat>) {
    && root in held
    && Tree(s.dents, root, s.next)
    && Unique(s.dents)
    && Wired(s.dents, hash, s.buckets, s.kids, s.count)
    && RefsOk(s.dents, s.refs, held, s.pending)
  }

  // ---- references --------------------------------------------------------------------

  /** `dentry_get`. */
  function Get(s: State, d: nat): State
    requires d in s.refs
  {
    s.(refs := s.refs[d := s.refs[d] + 1])
  }

  /** `dentry_put`: the last reference schedules the free. */
  function Put(s: State, d: nat): State
    requires d in s.refs
  {
    s.(refs := s.refs[d := s.refs[d] - 1], pending := if s.refs[d] == 1 then s.pending + multiset{d} else s.pending)
  }

  lemma {:induction false} RefsGot(dents: map<nat, Dentry>, refs: map<nat, int>, held: multiset<nat>,
                                   pending: multiset<nat>, d: nat)
    requires RefsOk(dents, refs, held, pending) && d in dents && refs[d] > 0
    ensures RefsOk(dents, refs[d := refs[d] + 1], held + multiset{d}, pending)
  {
    var z, h := refs[d := refs[d] + 1], held + multiset{d};
    forall e ensures Waits(z, pending, e) { assert Waits(refs, pending, e); }
    forall e | e in dents ensures Settled(dents, z, h, e) { assert Settled(dents, refs, held, e); }
  }

  lemma {:induction false} RefsPut(dents: map<nat, Dentry>, refs: map<nat, int>, held: multiset<nat>,
                                   pending: multiset<nat>, d: nat)
    requires RefsOk(dents, refs, held, pending) && d in held
    ensures d in refs && refs[d] > 0
    ensures RefsOk(dents, refs[d := refs[d] - 1], held - multiset{d},
                   if refs[d] == 1 then pending + multiset{d} else pending)
  {
    assert Settled(dents, refs, held, d);
    var z, h, p := refs[d := refs[d] - 1], held - multiset{d}, if refs[d] == 1 then pending + multiset{d} else pending;
    forall e ensures Waits(z, p, e) { assert Waits(refs, pending, e); }
    forall e | e in dents ensures Settled(dents, z, h, e) { assert Settled(dents, refs, held, e); }
  }

  lemma {:induction false} GetKeeps(s: State, hash: Hash, root: nat, held: multiset<nat>, d: nat)
    requires Inv(s, hash, root, held) && d in s.dents && s.refs[d] > 0
    ensures Inv(Get(s, d), hash, root, held + multiset{d})
  {
    RefsGot(s.dents, s.refs, held, s.pending, d);
  }

  lemma {:induction false} PutKeeps(s: State, hash: Hash, root: nat, held: multiset<nat>, d: nat)
    requires Inv(s, hash, root, held) && d in held && root in held - multiset{d}
    ensures d in s.refs && Inv(Put(s, d), hash, root, held - multiset{d})
  {
    RefsPut(s.dents, s.refs, held, s.pending, d);
  }

  /** A cached entry never reaches zero. */
  lemma {:induction false} CachedIsHeld(s: State, hash: Hash, root: nat, held: multiset<nat>, d: nat)
    requires Inv(s, hash, root, held) && d in s.dents
    requires s.dents[d].cached || d in held || exists e :: e in ChildSet(s.dents, d)
    ensures s.refs[d] > 0 && d !in s.pending
  {
    assert Waits(s.refs, s.pending, d) && Settled(s.dents, s.refs, held, d);
  }

  // ---- entering and leaving the cache ---------------------------------------------------

  /** `create_dentry`: a new entry pins its parent. */
  function Create(s: State, name: string, p: nat): State
    requires p in s.refs
  {
    s.(dents := s.dents[s.next := Dentry(name, p, false)],
       refs := s.refs[s.next := 0][p := s.refs[p] + 1],
       kids := s.kids[s.next := []],
       next := s.next + 1)
  }

  /** `vfs_cache_insert`: the cache takes a reference; the entry goes to the
      front of its bucket and the end of its parent's ring. */
  function Insert(s: State, hash: Hash, d: nat): State
    requires d in s.dents && d in s.refs && |s.buckets| == BUCKETS
  {
    var e := s.dents[d];
    var i := Index(hash, e.name, e.parent);
    s.(dents := s.dents[d := e.(cached := true)],
       refs := s.refs[d := s.refs[d] + 1],
       buckets := s.buckets[i := [d] + s.buckets[i]],
       count := s.count + 1,
       kids := if e.parent in s.kids then s.kids[e.parent := s.kids[e.parent] + [d]] else s.kids)
  }

  /** A missing entry is made, cached and held. */
  function Added(s: State, hash: Hash, name: string, p: nat): State
    requires p in s.refs && |s.buckets| == BUCKETS
  {
    Get(Insert(Create(s, name, p), hash, s.next), s.next)
  }

  /** `cache_remove` before the reference is dropped. */
  function Unlinked(s: State, hash: Hash, d: nat): State
    requires d in s.dents && |s.buckets| == BUCKETS
  {
    var e := s.dents[d];
    var i := Index(hash, e.name, e.parent);
    s.(dents := s.dents[d := e.(cached := false)],
       buckets := s.buckets[i := Erase(s.buckets[i], d)],
       count := s.count - 1,
       kids := if e.parent in s.kids then s.kids[e.parent := Erase(s.kids[e.parent], d)] else s.kids)
  }

  /** `cache_remove`. */
  function Removed(s: State, hash: Hash, d: nat): State
    requires d in s.dents && d in s.refs && |s.buckets| == BUCKETS
  {
    if s.dents[d].cached then Put(Unlinked(s, hash, d), d) else s
  }

  lemma {:induction false} TreeAdded(dents: map<nat, Dentry>, root: nat, next: nat, name: string, p: nat)
    requires Tree(dents, root, next) && p in dents
    ensures next !in dents && Tree(dents[next := Dentry(name, p, true)], root, next + 1)
  {
    forall d | d in dents ensures Placed(dents[next := Dentry(name, p, true)], root, next + 1, d) && d != next {
      assert Placed(dents, root, next, d);
    }
  }

  lemma {:induction false} UniqueAdded(dents: map<nat, Dentry>, next: nat, name: string, p: nat)
    requires Unique(dents) && next !in dents
    requires forall d | d in dents && dents[d].cached :: dents[d].parent != p || dents[d].name != name
    ensures Unique(dents[next := Dentry(name, p, true)])
  {
    var z := dents[next := Dentry(name, p, true)];
    forall d, e ensures Apart(z, d, e) { assert Apart(dents, d, e); }
  }

  lemma {:induction false} BucketAdded(dents: map<nat, Dentry>, hash: Hash, list: seq<nat>, j: nat, n: nat, e: Dentry)
    requires BucketOk(dents, hash, list, j) && n !in dents && e.cached
    ensures BucketOk(dents[n := e], hash, if Index(hash, e.name, e.parent) == j then [n] + list else list, j)
  {
    var z, r := dents[n := e], if Index(hash, e.name, e.parent) == j then [n] + list else list;
    assert Hashed(dents, hash, list, j, n);
    forall d ensures Hashed(z, hash, r, j, d) { assert Hashed(dents, hash, list, j, d); }
  }

  lemma {:induction false} RingAdded(dents: map<nat, Dentry>, list: seq<nat>, q: nat, n: nat, e: Dentry)
    requires RingOk(dents, list, q) && n !in dents && e.cached
    ensures RingOk(dents[n := e], if e.parent == q then list + [n] else list, q)
  {
    var z, r := dents[n := e], if e.parent == q then list + [n] else list;
    assert Child(dents, list, q, n);
    forall d ensures Child(z, r, q, d) { assert Child(dents, list, q, d); }
  }

  /** Nothing hangs below an entry that is being made. */
  lemma {:induction false} NoChildYet(dents: map<nat, Dentry>, root: nat, next: nat, e: Dentry)
    requires Tree(dents, root, next) && 0 <= e.parent < next
    ensures ChildSet(dents[next := e], next) == {} && RingOk(dents[next := e], [], next)
  {
    var z, r: seq<nat> := dents[next := e], [];
    forall d | d in dents ensures dents[d].parent != next { assert Placed(dents, root, next, d); }
    forall d ensures Child(z, r, next, d) {}
  }

  lemma {:induction false} BucketsAdded(dents: map<nat, Dentry>, hash: Hash, buckets: seq<seq<nat>>, n: nat, e: Dentry)
    requires |buckets| == BUCKETS && (forall i | 0 <= i < BUCKETS :: BucketOk(dents, hash, buckets[i], i))
    requires n !in dents && e.cached
    ensures var i := Index(hash, e.name, e.parent);
            var bs := buckets[i := [n] + buckets[i]];
            forall j | 0 <= j < BUCKETS :: BucketOk(dents[n := e], hash, bs[j], j)
  {
    var i := Index(hash, e.name, e.parent);
    var bs := buckets[i := [n] + buckets[i]];
    forall j | 0 <= j < BUCKETS ensures BucketOk(dents[n := e], hash, bs[j], j) {
      BucketAdded(dents, hash, buckets[j], j, n, e);
    }
  }

  lemma {:induction false} RingsAdded(dents: map<nat, Dentry>, kids: map<nat, seq<nat>>, root: nat, n: nat, e: Dentry)
    requires Tree(dents, root, n) && kids.Keys == dents.Keys && (forall p | p in kids :: RingOk(dents, kids[p], p))
    requires n !in dents && e.cached && 0 <= e.parent < n && e.parent in dents
    ensures var ks := kids[n := []][e.parent := kids[e.parent] + [n]];
            forall p | p in ks :: RingOk(dents[n := e], ks[p], p)
  {
    var ks := kids[n := []][e.parent := kids[e.parent] + [n]];
    NoChildYet(dents, root, n, e);
    forall q | q in ks ensures RingOk(dents[n := e], ks[q], q) {
      if q != n { RingAdded(dents, kids[q], q, n, e); }
    }
  }

  lemma {:induction false} WiredAdded(dents: map<nat, Dentry>, hash: Hash, buckets: seq<seq<nat>>, kids: map<nat,
                                      seq<nat>>, count: int,
                                      root: nat, n: nat, e: Dentry)
    requires Tree(dents, root, n) && Wired(dents, hash, buckets, kids, count)
    requires n !in dents && e.cached && 0 <= e.parent < n && e.parent in dents
    ensures var i := Index(hash, e.name, e.parent);
            Wired(dents[n := e], hash, buckets[i := [n] + buckets[i]],
                  kids[n := []][e.parent := kids[e.parent] + [n]], count + 1)
  {
    BucketsAdded(dents, hash, buckets, n, e);
    RingsAdded(dents, kids, root, n, e);
    assert CachedSet(dents[n := e]) == CachedSet(dents) + {n};
  }

  lemma {:induction false} DueAdded(dents: map<nat, Dentry>, held: multiset<nat>, n: nat, e: Dentry, d: nat)
    requires n !in dents && d in dents
    ensures Due(dents[n := e], held + multiset{n}, d) == Due(dents, held, d) + One(d == e.parent)
  {
    assert ChildSet(dents[n := e], d) == if d == e.parent then ChildSet(dents, d) + {n} else ChildSet(dents, d);
  }

  lemma {:induction false} RefsAdded(dents: map<nat, Dentry>, refs: map<nat, int>, held: multiset<nat>,
                                     pending: multiset<nat>,
                                     root: nat, n: nat, e: Dentry)
    requires Tree(dents, root, n) && RefsOk(dents, refs, held, pending)
    requires e.cached && 0 <= e.parent < n && e.parent in dents && refs[e.parent] > 0 && n !in dents
    ensures RefsOk(dents[n := e], refs[n := 2][e.parent := refs[e.parent] + 1], held + multiset{n}, pending)
  {
    var z, r, h := dents[n := e], refs[n := 2][e.parent := refs[e.parent] + 1], held + multiset{n};
    NoChildYet(dents, root, n, e);
    forall d | d in z ensures Settled(z, r, h, d) {
      if d != n {
        DueAdded(dents, held, n, e, d);
        assert Settled(dents, refs, held, d);
      }
    }
    forall d ensures Waits(r, pending, d) { assert Waits(refs, pending, d); }
  }

  lemma {:induction false} AddedForm(s: State, hash: Hash, name: string, p: nat)
    requires p in s.refs && p in s.kids && |s.buckets| == BUCKETS && s.next !in s.dents && s.next !in s.kids
    requires p != s.next
    ensures var z, n, i := Added(s, hash, name, p), s.next, Index(hash, name, p);
            && z.dents == s.dents[n := Dentry(name, p, true)] && z.refs == s.refs[n := 2][p := s.refs[p] + 1]
            && z.buckets == s.buckets[i := [n] + s.buckets[i]] && z.count == s.count + 1
            && z.kids == s.kids[n := []][p := s.kids[p] + [n]] && z.pending == s.pending && z.next == n + 1
  {
  }

  /** Making a missing entry keeps everything in order; the maker holds it. */
  lemma {:induction false} AddKeeps(s: State, hash: Hash, root: nat, held: multiset<nat>, name: string, p: nat)
    requires Inv(s, hash, root, held) && p in s.dents && s.refs[p] > 0
    requires forall d | d in s.dents && s.dents[d].cached :: s.dents[d].parent != p || s.dents[d].name != name
    ensures s.next !in s.dents && Inv(Added(s, hash, name, p), hash, root, held + multiset{s.next})
    ensures Added(s, hash, name, p).dents == s.dents[s.next := Dentry(name, p, true)]
  {
    var e := Dentry(name, p, true);
    assert Placed(s.dents, root, s.next, p);
    TreeAdded(s.dents, root, s.next, name, p);
    UniqueAdded(s.dents, s.next, name, p);
    WiredAdded(s.dents, hash, s.buckets, s.kids, s.count, root, s.next, e);
    RefsAdded(s.dents, s.refs, held, s.pending, root, s.next, e);
    AddedForm(s, hash, name, p);
  }

  lemma {:induction false} BucketsRemoved(dents: map<nat, Dentry>, hash: Hash, buckets: seq<seq<nat>>, d: nat)
    requires |buckets| == BUCKETS && (forall i | 0 <= i < BUCKETS :: BucketOk(dents, hash, buckets[i], i))
    requires d in dents && dents[d].cached
    ensures var i := Index(hash, dents[d].name, dents[d].parent);
            var bs := buckets[i := Erase(buckets[i], d)];
            forall j | 0 <= j < BUCKETS :: BucketOk(dents[d := dents[d].(cached := false)], hash, bs[j], j)
  {
    var i := Index(hash, dents[d].name, dents[d].parent);
    var z, bs := dents[d := dents[d].(cached := false)], buckets[i := Erase(buckets[i], d)];
    EraseOk(buckets[i], d);
    forall j | 0 <= j < BUCKETS ensures BucketOk(z, hash, bs[j], j) {
      forall e ensures Hashed(z, hash, bs[j], j, e) { assert Hashed(dents, hash, buckets[j], j, e); }
    }
  }

  lemma {:induction false} RingsRemoved(dents: map<nat, Dentry>, kids: map<nat, seq<nat>>, d: nat)
    requires kids.Keys == dents.Keys && (forall p | p in kids :: RingOk(dents, kids[p], p))
    requires d in dents && dents[d].cached && dents[d].parent in kids
    ensures var p := dents[d].parent;
            var ks := kids[p := Erase(kids[p], d)];
            forall q | q in ks :: RingOk(dents[d := dents[d].(cached := false)], ks[q], q)
  {
    var p := dents[d].parent;
    var z, ks := dents[d := dents[d].(cached := false)], kids[p := Erase(kids[p], d)];
    EraseOk(kids[p], d);
    forall q | q in ks ensures RingOk(z, ks[q], q) {
      forall e ensures Child(z, ks[q], q, e) { assert Child(dents, kids[q], q, e); }
    }
  }

  lemma {:induction false} TreeUncached(dents: map<nat, Dentry>, root: nat, next: nat, d: nat)
    requires Tree(dents, root, next) && d in dents
    ensures Tree(dents[d := dents[d].(cached := false)], root, next)
  {
    var z := dents[d := dents[d].(cached := false)];
    forall e | e in z ensures Placed(z, root, next, e) { assert Placed(dents, root, next, e); }
  }

  lemma {:induction false} UniqueUncached(dents: map<nat, Dentry>, d: nat)
    requires Unique(dents) && d in dents
    ensures Unique(dents[d := dents[d].(cached := false)])
  {
    var z := dents[d := dents[d].(cached := false)];
    forall e, f ensures Apart(z, e, f) { assert Apart(dents, e, f); }
  }

  lemma {:induction false} RefsUncached(dents: map<nat, Dentry>, refs: map<nat, int>, held: multiset<nat>,
                                        pending: multiset<nat>, d: nat)
    requires RefsOk(dents, refs, held, pending) && d in dents && dents[d].cached
    ensures refs[d] > 0
    ensures RefsOk(dents[d := dents[d].(cached := false)], refs[d := refs[d] - 1], held,
                   if refs[d] == 1 then pending + multiset{d} else pending)
  {
    var z, r := dents[d := dents[d].(cached := false)], refs[d := refs[d] - 1];
    var p := if refs[d] == 1 then pending + multiset{d} else pending;
    assert Settled(dents, refs, held, d);
    forall e | e in z ensures Settled(z, r, held, e) {
      assert Settled(dents, refs, held, e);
      assert ChildSet(z, e) == ChildSet(dents, e);
    }
    forall e ensures Waits(r, p, e) { assert Waits(refs, pending, e); }
  }

  lemma {:induction false} RemovedForm(s: State, hash: Hash, d: nat)
    requires d in s.dents && d in s.refs && |s.buckets| == BUCKETS && s.dents[d].cached && s.dents[d].parent in s.kids
    ensures var z, e := Removed(s, hash, d), s.dents[d];
            var i := Index(hash, e.name, e.parent);
            && z.dents == s.dents[d := e.(cached := false)] && z.refs == s.refs[d := s.refs[d] - 1]
            && z.buckets == s.buckets[i := Erase(s.buckets[i], d)] && z.count == s.count - 1
            && z.kids == s.kids[e.parent := Erase(s.kids[e.parent], d)] && z.next == s.next
            && z.pending == if s.refs[d] == 1 then s.pending + multiset{d} else s.pending
  {
  }

  /** Taking an entry out of the cache takes it out of its bucket, its ring and
      the count, and drops the cache's reference. */
  lemma {:induction false} RemoveKeeps(s: State, hash: Hash, root: nat, held: multiset<nat>, d: nat)
    requires Inv(s, hash, root, held) && d in s.dents && s.dents[d].cached
    ensures Inv(Removed(s, hash, d), hash, root, held)
    ensures Removed(s, hash, d).dents == s.dents[d := s.dents[d].(cached := false)]
  {
    assert Placed(s.dents, root, s.next, d);
    TreeUncached(s.dents, root, s.next, d);
    UniqueUncached(s.dents, d);
    BucketsRemoved(s.dents, hash, s.buckets, d);
    RingsRemoved(s.dents, s.kids, d);
    RefsUncached(s.dents, s.refs, held, s.pending, d);
    assert CachedSet(s.dents[d := s.dents[d].(cached := false)]) == CachedSet(s.dents) - {d};
    RemovedForm(s, hash, d);
  }

  // ---- the deferred free ------------------------------------------------------------------

  /** `dentry_free_rcu`: the entry lets go of its parent and is gone.  (It
      would leave the cache first; nothing waiting is ever cached.) */
  function Freed(s: State, hash: Hash, d: nat): State
    requires d in s.dents && d in s.refs && |s.buckets| == BUCKETS
  {
    var p := s.dents[d].parent;
    var z := if s.dents[d].cached then Unlinked(s, hash, d) else s;
    var y := if p in z.refs then Put(z, p) else z;
    y.(dents := y.dents - {d}, refs := y.refs - {d}, kids := y.kids - {d}, pending := y.pending - multiset{d})
  }

  /** An entry that waits to be freed is not cached, has no children, and is held by nobody. */
  lemma {:induction false} WaitingIsAlone(s: State, hash: Hash, root: nat, held: multiset<nat>, d: nat)
    requires Inv(s, hash, root, held) && d in s.pending
    ensures d in s.dents && !s.dents[d].cached && ChildSet(s.dents, d) == {} && d !in held && d != root
  {
    assert Waits(s.refs, s.pending, d) && Settled(s.dents, s.refs, held, d);
  }

  lemma {:induction false} TreeFreed(dents: map<nat, Dentry>, root: nat, next: nat, d: nat)
    requires Tree(dents, root, next) && d in dents && d != root && ChildSet(dents, d) == {}
    ensures Tree(dents - {d}, root, next)
  {
    var z := dents - {d};
    forall e | e in z ensures Placed(z, root, next, e) {
      assert Placed(dents, root, next, e);
      assert e !in ChildSet(dents, d);
    }
  }

  lemma {:induction false} WiredFreed(dents: map<nat, Dentry>, hash: Hash, buckets: seq<seq<nat>>, kids: map<nat,
                                      seq<nat>>, count: int, d: nat)
    requires Wired(dents, hash, buckets, kids, count) && d in dents && !dents[d].cached
    ensures Wired(dents - {d}, hash, buckets, kids - {d}, count)
  {
    var z, ks := dents - {d}, kids - {d};
    forall i | 0 <= i < BUCKETS ensures BucketOk(z, hash, buckets[i], i) {
      forall e ensures Hashed(z, hash, buckets[i], i, e) { assert Hashed(dents, hash, buckets[i], i, e); }
    }
    forall q | q in ks ensures RingOk(z, ks[q], q) {
      forall e ensures Child(z, ks[q], q, e) { assert Child(dents, kids[q], q, e); }
    }
    assert CachedSet(z) == CachedSet(dents);
  }

  lemma {:induction false} UniqueFreed(dents: map<nat, Dentry>, d: nat)
    requires Unique(dents)
    ensures Unique(dents - {d})
  {
    var z := dents - {d};
    forall e, f ensures Apart(z, e, f) { assert Apart(dents, e, f); }
  }

  lemma {:induction false} DueFreed(dents: map<nat, Dentry>, held: multiset<nat>, d: nat, e: nat)
    requires d in dents && e in dents && e != d
    ensures Due(dents - {d}, held, e) == Due(dents, held, e) - One(dents[d].parent == e)
  {
    assert ChildSet(dents, e) == ChildSet(dents - {d}, e) + if dents[d].parent == e then {d} else {};
  }

  lemma {:induction false} RefsFreed(dents: map<nat, Dentry>, refs: map<nat, int>, held: multiset<nat>,
                                     pending: multiset<nat>, d: nat, p: nat)
    requires RefsOk(dents, refs, held, pending) && d in dents && dents[d].parent == p && p in dents && p != d
    requires refs[d] == 0 && d !in held
    ensures refs[p] > 0
    ensures RefsOk(dents - {d}, refs[p := refs[p] - 1] - {d}, held,
                   (if refs[p] == 1 then pending + multiset{p} else pending) - multiset{d})
  {
    var z, r := dents - {d}, refs[p := refs[p] - 1] - {d};
    var q := (if refs[p] == 1 then pending + multiset{p} else pending) - multiset{d};
    assert Settled(dents, refs, held, p) && d in ChildSet(dents, p);
    forall e | e in z ensures Settled(z, r, held, e) {
      assert Settled(dents, refs, held, e);
      DueFreed(dents, held, d, e);
    }
    forall e ensures Waits(r, q, e) { assert Waits(refs, pending, e); }
  }

  /** The deferred free keeps everything in order and frees nothing that anybody refers to. */
  lemma {:induction false} FreeKeeps(s: State, hash: Hash, root: nat, held: multiset<nat>, d: nat)
    requires Inv(s, hash, root, held) && d in s.pending
    ensures d in s.dents && Inv(Freed(s, hash, d), hash, root, held)
  {
    WaitingIsAlone(s, hash, root, held, d);
    assert Placed(s.dents, root, s.next, d);
    assert Waits(s.refs, s.pending, d);
    TreeFreed(s.dents, root, s.next, d);
    UniqueFreed(s.dents, d);
    WiredFreed(s.dents, hash, s.buckets, s.kids, s.count, d);
    RefsFreed(s.dents, s.refs, held, s.pending, d, s.dents[d].parent);
  }
}
