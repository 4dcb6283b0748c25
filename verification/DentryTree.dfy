/** Cached subtrees and what deleting one leaves. */
module DentryTree {
  import opened Dentry

  /** `d` is below `n` or is `n`, and all entries on the way, both included, are cached. */
  ghost predicate InSub(dents: map<nat, Dentry>, n: nat, d: nat)
    decreases d
  {
    && d in dents && dents[d].cached
    && (d == n || (0 <= dents[d].parent < d && InSub(dents, n, dents[d].parent)))
  }

  ghost predicate UnderAny(dents: map<nat, Dentry>, tops: set<nat>, d: nat) {
    exists n | n in tops :: InSub(dents, n, d)
  }

  /** The entries with the cached subtrees of `tops` taken out of the cache. */
  ghost function Cleared(dents: map<nat, Dentry>, tops: set<nat>): map<nat, Dentry> {
    map d | d in dents :: if UnderAny(dents, tops, d) then dents[d].(cached := false) else dents[d]
  }

  lemma {:induction false} SubAbove(dents: map<nat, Dentry>, n: nat, d: nat)
    requires InSub(dents, n, d)
    ensures d >= n
    decreases d
  {
    if d != n { SubAbove(dents, n, dents[d].parent); }
  }

  /** Subtrees of two children of one entry have nothing in common. */
  lemma {:induction false} SubsApart(dents: map<nat, Dentry>, k: nat, c: nat, d: nat)
    requires InSub(dents, k, d) && InSub(dents, c, d) && k in dents && c in dents && dents[k].parent == dents[c].parent
    requires dents[k].parent < k && dents[c].parent < c
    ensures k == c
    decreases d
  {
    if d == k && d != c {
      SubAbove(dents, c, dents[k].parent);
    } else if d == c && d != k {
      SubAbove(dents, k, dents[c].parent);
    } else if d != k {
      SubsApart(dents, k, c, dents[d].parent);
    }
  }

  /** An entry below `n` is below a child of `n`. */
  lemma {:induction false} BelowChild(dents: map<nat, Dentry>, n: nat, d: nat) returns (k: nat)
    requires InSub(dents, n, d) && d != n
    ensures k in dents && dents[k].cached && dents[k].parent == n && InSub(dents, k, d)
    decreases d
  {
    if dents[d].parent == n {
      k := d;
    } else {
      k := BelowChild(dents, n, dents[d].parent);
    }
  }

  lemma {:induction false} BelowParent(dents: map<nat, Dentry>, n: nat, k: nat, d: nat)
    requires InSub(dents, k, d) && n in dents && dents[n].cached && k in dents && dents[k].parent == n < k
    ensures InSub(dents, n, d)
    decreases d
  {
    if d != k { BelowParent(dents, n, k, dents[d].parent); }
  }

  /** Deleting other children's subtrees does not change that of `c`. */
  lemma {:induction false} SubKept(dents: map<nat, Dentry>, done: set<nat>, c: nat, d: nat)
    requires c in dents && dents[c].parent < c && c !in done
    requires forall k | k in done :: k in dents && dents[k].parent == dents[c].parent < k
    ensures InSub(Cleared(dents, done), c, d) <==> InSub(dents, c, d)
    decreases d
  {
    var z := Cleared(dents, done);
    if d in dents {
      if d != c && 0 <= dents[d].parent < d { SubKept(dents, done, c, dents[d].parent); }
      if InSub(dents, c, d) && UnderAny(dents, done, d) {
        var k :| k in done && InSub(dents, k, d);
        SubsApart(dents, k, c, d);
      }
    }
  }

  /** One more child. */
  lemma {:induction false} ClearedOneMore(dents: map<nat, Dentry>, done: set<nat>, c: nat)
    requires c in dents && dents[c].parent < c && c !in done
    requires forall k | k in done :: k in dents && dents[k].parent == dents[c].parent < k
    ensures Cleared(Cleared(dents, done), {c}) == Cleared(dents, done + {c})
  {
    var z := Cleared(dents, done);
    forall d | d in dents ensures Cleared(z, {c})[d] == Cleared(dents, done + {c})[d] {
      SubKept(dents, done, c, d);
      assert UnderAny(z, {c}, d) <==> InSub(z, c, d) by { if InSub(z, c, d) { assert c in {c}; } }
      assert UnderAny(dents, done + {c}, d) <==> UnderAny(dents, done, d) || InSub(dents, c, d) by {
        if UnderAny(dents, done, d) { var k :| k in done && InSub(dents, k, d); assert k in done + {c}; }
        if InSub(dents, c, d) { assert c in done + {c}; }
      }
    }
  }

  /** All children, then the entry itself: its whole cached subtree. */
  lemma {:induction false} ClearedTop(dents: map<nat, Dentry>, done: set<nat>, n: nat)
    requires n in dents && dents[n].cached
    requires forall k | k in done :: k in dents && dents[k].cached && dents[k].parent == n < k
    requires forall k | k in dents && dents[k].cached && dents[k].parent == n :: k in done
    ensures n in Cleared(dents, done)
    ensures Cleared(dents, done)[n := Cleared(dents, done)[n].(cached := false)] == Cleared(dents, {n})
  {
    forall d | d in dents && d != n ensures UnderAny(dents, done, d) <==> UnderAny(dents, {n}, d) {
      TopCovers(dents, done, n, d);
    }
    assert InSub(dents, n, n) && n in {n};
  }

  lemma {:induction false} TopCovers(dents: map<nat, Dentry>, done: set<nat>, n: nat, d: nat)
    requires n in dents && dents[n].cached && d in dents && d != n
    requires forall k | k in done :: k in dents && dents[k].cached && dents[k].parent == n < k
    requires forall k | k in dents && dents[k].cached && dents[k].parent == n :: k in done
    ensures UnderAny(dents, done, d) <==> UnderAny(dents, {n}, d)
  {
    if UnderAny(dents, done, d) {
      var k :| k in done && InSub(dents, k, d);
      BelowParent(dents, n, k, d);
      assert n in {n};
    }
    if InSub(dents, n, d) {
      var k := BelowChild(dents, n, d);
      assert k in done;
    }
  }

  lemma {:induction false} TopIsCached(dents: map<nat, Dentry>, n: nat, d: nat)
    requires InSub(dents, n, d)
    ensures n in dents && dents[n].cached
    decreases d
  {
    if d != n { TopIsCached(dents, n, dents[d].parent); }
  }

  /** An entry that is not cached has no cached subtree. */
  lemma {:induction false} NothingToClear(dents: map<nat, Dentry>, n: nat)
    requires n in dents && !dents[n].cached
    ensures Cleared(dents, {n}) == dents
  {
    forall d | d in dents ensures !UnderAny(dents, {n}, d) {
      if InSub(dents, n, d) { TopIsCached(dents, n, d); }
    }
  }

  lemma {:induction false} ClearedShrinks(dents: map<nat, Dentry>, c: nat)
    requires c in dents && dents[c].cached
    ensures CachedSet(Cleared(dents, {c})) < CachedSet(dents)
  {
    assert InSub(dents, c, c) && c in {c};
    assert c in CachedSet(dents) && c !in CachedSet(Cleared(dents, {c}));
  }

  /** When no child is left on the ring, all of them are done. */
  lemma {:induction false} AllDone(dents: map<nat, Dentry>, done: set<nat>, n: nat, k: nat)
    requires forall c | c in done :: c in dents && dents[c].parent == n < c
    requires k in dents && dents[k].cached && dents[k].parent == n < k && !Cleared(dents, done)[k].cached
    ensures k in done
  {
    var c :| c in done && InSub(dents, c, k);
    assert InSub(dents, k, k);
    SubsApart(dents, c, k, k);
  }
}
