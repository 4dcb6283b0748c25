/** The namespace operations: lookup, resolve, namei, printing and deletion. */
module Namespace {
  import opened Lists
  import opened Dentry
  import opened DentryPath
  import opened DentryNames
  import opened DentryTree

  /** `b` has all entries of `a`, unchanged. */
  ghost predicate Extends(a: map<nat, Dentry>, b: map<nat, Dentry>) {
    forall d :: Kept(a, b, d)
  }

  ghost predicate Kept(a: map<nat, Dentry>, b: map<nat, Dentry>, d: nat) {
    d in a ==> d in b && b[d] == a[d]
  }

  lemma {:induction false} ExtendsOn(a: map<nat, Dentry>, b: map<nat, Dentry>, c: map<nat, Dentry>)
    requires Extends(a, b) && Extends(b, c)
    ensures Extends(a, c)
  {
    forall d ensures Kept(a, c, d) { assert Kept(a, b, d) && Kept(b, c, d); }
  }

  lemma {:induction false} ExtendsAdded(a: map<nat, Dentry>, b: map<nat, Dentry>, n: nat)
    requires n !in a && n in b && b == a[n := b[n]]
    ensures Extends(a, b)
  {
    forall d ensures Kept(a, b, d) {}
  }

  /** What a walk found it finds again after entries have been added. */
  lemma {:induction false} WalkExtends(raw: bool, a: map<nat, Dentry>, b: map<nat, Dentry>, curr: nat,
                                       comps: seq<string>)
    requires Extends(a, b) && Unique(b) && Closed(a) && Closed(b) && curr in a && Walk(raw, a, curr, comps) >= 0
    ensures curr in b && Walk(raw, b, curr, comps) == Walk(raw, a, curr, comps)
    decreases |comps|
  {
    assert Kept(a, b, curr);
    if comps != [] {
      var n := Turn(raw, a, curr, comps[0]);
      assert HasParent(a, curr) && Kept(a, b, n);
      var t := if raw then comps[0] else Trim(comps[0]);
      if t != "" && (raw || (t != "." && t != "..")) { OnlyChild(b, curr, t, n); }
      WalkExtends(raw, a, b, n, comps[1..]);
    }
  }

  /** The references follow from the structure and the outside holders. */
  lemma {:induction false} HoldersDecide(s: State, z: State, hash: Hash, root: nat, held: multiset<nat>)
    requires Inv(s, hash, root, held) && Inv(z, hash, root, held) && z.dents == s.dents
    ensures z.refs == s.refs && z.pending == s.pending
  {
    forall d | d in s.dents ensures z.refs[d] == s.refs[d] {
      assert Settled(s.dents, s.refs, held, d) && Settled(z.dents, z.refs, held, d);
    }
    forall d ensures z.pending[d] == s.pending[d] { assert Waits(s.refs, s.pending, d) && Waits(z.refs, z.pending, d); }
  }

  /** One more holder is one more reference, and nothing else. */
  lemma {:induction false} OneMoreReference(s: State, z: State, hash: Hash, root: nat, held: multiset<nat>, d: nat)
    requires Inv(s, hash, root, held) && Inv(z, hash, root, held + multiset{d}) && z.dents == s.dents
    ensures d in s.refs && z.refs == s.refs[d := s.refs[d] + 1]
  {
    var h := held + multiset{d};
    assert d in h;
    forall e | e in s.dents ensures z.refs[e] == s.refs[e] + One(e == d) {
      assert Settled(s.dents, s.refs, held, e) && Settled(z.dents, z.refs, h, e);
    }
  }

  /** One more component of a walk, after entries may have been added. */
  lemma {:induction false} WalkOn(raw: bool, a: map<nat, Dentry>, b: map<nat, Dentry>, start: nat, done: seq<string>,
                                  comp: string, curr: nat)
    requires Extends(a, b) && Unique(b) && Closed(a) && Closed(b) && start in a && Walk(raw, a, start, done) == curr
    requires curr in b
    ensures start in b
    ensures Walk(raw, b, start, done + [comp]) == if Turn(raw, b, curr, comp) < 0 then -1 else Turn(raw, b, curr, comp)
  {
    assert Kept(a, b, start);
    WalkExtends(raw, a, b, start, done);
    WalkAppend(raw, b, start, done, [comp]);
    assert HasParent(b, curr);
    var next := Turn(raw, b, curr, comp);
    assert Walk(raw, b, curr, [comp]) == if next < 0 then -1 else Walk(raw, b, next, []);
  }

  lemma {:induction false} NamesStayFit(a: map<nat, Dentry>, b: map<nat, Dentry>)
    requires NamesFit(a) && forall d | d in b :: |b[d].name| <= LONGEST || (d in a && b[d].name == a[d].name)
    ensures NamesFit(b)
  {
    forall d ensures NameFits(b, d) { assert NameFits(a, d); }
  }

  lemma {:induction false} Arrived(raw: bool, a: map<nat, Dentry>, b: map<nat, Dentry>, root: nat, last: nat,
                                   start: nat, done: seq<string>, comp: string, curr: nat, next: int)
    requires Extends(a, b) && Unique(b) && Closed(a) && Tree(b, root, last) && start in a && curr in b
    requires Walk(raw, a, start, done) == curr && Turn(raw, b, curr, comp) == next >= -1
    ensures Closed(b) && start in b && Walk(raw, b, start, done + [comp]) == next && (next >= 0 ==> next in b)
  {
    TreeCloses(b, root, last);
    WalkOn(raw, a, b, start, done, comp, curr);
    assert HasParent(b, curr);
  }

  /** Of the components `all`, `done` are behind and those of `rest` ahead, if there is `more`. */
  ghost predicate Ahead(all: seq<string>, done: seq<string>, rest: string, more: bool) {
    all == done + if more then Components(rest) else []
  }

  /** The component before the first slash of `rest` is next. */
  lemma {:induction false} NextUp(all: seq<string>, done: seq<string>, rest: string, i: nat)
    returns (later: seq<string>)
    requires Ahead(all, done, rest, true) && rest != "" && i == Slash(rest)
    ensures all == done + [rest[..i]] + later
    ensures i < |rest| ==> Ahead(all, done + [rest[..i]], rest[i + 1..], true)
    ensures i == |rest| ==> Ahead(all, done + [rest[..i]], rest, false)
  {
    if i == |rest| {
      later := [];
      assert rest[..i] == rest;
    } else {
      later := Components(rest[i + 1..]);
      ComponentsHead(rest);
    }
    Regroup(done, rest[..i], later);
    assert done + [rest[..i]] + [] == done + [rest[..i]];
  }

  lemma {:induction false} Regroup(done: seq<string>, comp: string, later: seq<string>)
    ensures done + ([comp] + later) == done + [comp] + later
  {
  }

  // ---- which entries a walk makes ------------------------------------------------------

  /** At most the child of `curr` called `t` has been made, and then it is `next`. */
  ghost predicate OneMade(a: map<nat, Dentry>, b: map<nat, Dentry>, curr: nat, next: int) {
    b == a || (next >= 0 && next !in a && next in b && b[next].parent == curr && b == a[next := b[next]])
  }

  /** Names the walk over `comps` passes through. */
  ghost predicate OnWay(raw: bool, names: seq<string>, comps: seq<string>, x: seq<string>) {
    exists k | 0 <= k <= |comps| :: Follow(raw, names, comps[..k]) == x
  }

  /** Every entry made is one the walk has passed through. */
  ghost predicate MadeOnWay(raw: bool, a: map<nat, Dentry>, b: map<nat, Dentry>, names: seq<string>,
                            comps: seq<string>)
  {
    forall d | d in b && d !in a :: OnWay(raw, names, comps, Names(b, d))
  }

  lemma {:induction false} NamesStay(a: map<nat, Dentry>, b: map<nat, Dentry>, root: nat, next: nat, d: nat)
    requires Extends(a, b) && Tree(a, root, next) && d in a
    ensures d in b && Names(b, d) == Names(a, d)
    decreases d
  {
    assert Kept(a, b, d) && Placed(a, root, next, d);
    if d != root { NamesStay(a, b, root, next, a[d].parent); }
  }

  lemma {:induction false} OnWayLonger(raw: bool, names: seq<string>, comps: seq<string>, comp: string, x: seq<string>)
    requires OnWay(raw, names, comps, x)
    ensures OnWay(raw, names, comps + [comp], x)
  {
    var k :| 0 <= k <= |comps| && Follow(raw, names, comps[..k]) == x;
    assert (comps + [comp])[..k] == comps[..k];
  }

  lemma {:induction false} MadeMore(raw: bool, a: map<nat, Dentry>, b: map<nat, Dentry>, c: map<nat, Dentry>,
                                    root: nat, last: nat, names: seq<string>, comps: seq<string>, comp: string,
                                    curr: nat, next: nat)
    requires MadeOnWay(raw, a, b, names, comps) && Extends(b, c) && OneMade(b, c, curr, next) && Tree(b, root, last)
    requires next in c && Names(c, next) == Follow(raw, names, comps + [comp])
    ensures MadeOnWay(raw, a, c, names, comps + [comp])
  {
    forall d | d in c && d !in a ensures OnWay(raw, names, comps + [comp], Names(c, d)) {
      if d in b {
        NamesStay(b, c, root, last, d);
        OnWayLonger(raw, names, comps, comp, Names(b, d));
      } else {
        assert (comps + [comp])[..|comps| + 1] == comps + [comp];
      }
    }
  }

  class Namespace {
    const hash: Hash
    const root: nat
    var s: State
    ghost var held: multiset<nat>

    ghost predicate Valid()
      reads this
    {
      Inv(s, hash, root, held) && s.dents[root].name == "/" && NamesFit(s.dents)
    }

    /** The root, held by whoever set it up and not cached. */
    constructor (h: Hash)
      ensures Valid() && root == 0 && hash == h && s.dents == map[0 := Dentry("/", -1, false)] && held == multiset{0}
    {
      hash := h;
      root := 0;
      s := State(map[0 := Dentry("/", -1, false)], map[0 := 1], seq(BUCKETS, _ => []), map[0 := []], 0, multiset{}, 1);
      held := multiset{0};
      new;
      assert Placed(s.dents, root, s.next, 0);
      assert ChildSet(s.dents, 0) == {} && CachedSet(s.dents) == {};
      assert Settled(s.dents, s.refs, held, 0);
      forall d ensures Waits(s.refs, s.pending, d) {}
      forall i | 0 <= i < BUCKETS ensures BucketOk(s.dents, hash, s.buckets[i], i) {
        forall d ensures Hashed(s.dents, hash, s.buckets[i], i, d) {}
      }
      forall p | p in s.kids ensures RingOk(s.dents, s.kids[p], p) {
        forall d ensures Child(s.dents, s.kids[p], p, d) {}
      }
      forall d, e ensures Apart(s.dents, d, e) {}
      forall d ensures NameFits(s.dents, d) {}
    }

    /** `dentry_get` for an outside holder. */
    method Hold(d: nat)
      requires Valid() && d in s.dents && s.refs[d] > 0
      modifies this
      ensures Valid() && held == old(held) + multiset{d} && s == Get(old(s), d)
    {
      GetKeeps(s, hash, root, held, d);
      s, held := Get(s, d), held + multiset{d};
    }

    /** `dentry_put` by an outside holder. */
    method Release(d: nat)
      requires Valid() && d in held && root in held - multiset{d} && d in s.refs
      modifies this
      ensures Valid() && held == old(held) - multiset{d} && s == Put(old(s), d)
    {
      PutKeeps(s, hash, root, held, d);
      s, held := Put(s, d), held - multiset{d};
    }

    /** The deferred free of an entry runs. */
    method RunFree(d: nat)
      requires Valid() && d in s.pending && d in s.dents && d in s.refs
      modifies this
      ensures Valid() && held == old(held) && s == Freed(old(s), hash, d)
    {
      WaitingIsAlone(s, hash, root, held, d);
      FreeKeeps(s, hash, root, held, d);
      assert Placed(s.dents, root, s.next, d);
      NamesStayFit(s.dents, Freed(s, hash, d).dents);
      s := Freed(s, hash, d);
    }

    /** The loop over the bucket finds the cached child of that name, if there
        is one. */
    method Find(p: nat, name: string) returns (r: int)
      requires Valid() && p in s.dents
      ensures r == ChildNamed(s.dents, p, name)
    {
      var i := Index(hash, name, p);
      var bucket := s.buckets[i];
      assert BucketOk(s.dents, hash, bucket, i);
      var k := 0;
      while k < |bucket|
        invariant k <= |bucket| && forall j | 0 <= j < k :: !IsChild(s.dents, p, name, bucket[j])
      {
        var d := bucket[k];
        assert Hashed(s.dents, hash, bucket, i, d);
        if s.dents[d].parent == p && s.dents[d].name == name {
          OnlyChild(s.dents, p, name, d);
          return d;
        }
        k := k + 1;
      }
      forall d ensures !IsChild(s.dents, p, name, d) { assert Hashed(s.dents, hash, bucket, i, d); }
      return -1;
    }

    /** `cache_lookup`: what a scan of the parent's ring would find, held once more. */
    method Lookup(p: nat, name: string) returns (r: int)
      requires Valid() && p in s.dents
      modifies this
      ensures Valid() && s.dents == old(s.dents) && s.kids == old(s.kids) && r == ChildNamed(s.dents, p, name)
      ensures p in s.kids && r == ScanRing(s.dents, s.kids[p], name)
      ensures if r >= 0 then held == old(held) + multiset{r} else held == old(held) && s == old(s)
    {
      LookupIsScan(s, hash, root, held, p, name);
      r := Find(p, name);
      if r >= 0 {
        CachedIsHeld(s, hash, root, held, r);
        Hold(r);
      }
    }

    /** A missing entry is made, cached and held. */
    method Make(p: nat, name: string) returns (n: nat)
      requires Valid() && p in s.dents && s.refs[p] > 0 && ChildNamed(s.dents, p, name) == -1 && |name| <= LONGEST
      modifies this
      ensures Valid() && n !in old(s.dents) && s.dents == old(s.dents)[n := Dentry(name, p, true)]
      ensures held == old(held) + multiset{n}
    {
      n := s.next;
      forall d | d in s.dents && s.dents[d].cached ensures s.dents[d].parent != p || s.dents[d].name != name {
        assert !IsChild(s.dents, p, name, d);
      }
      AddKeeps(s, hash, root, held, name, p);
      NamesStayFit(s.dents, Added(s, hash, name, p).dents);
      s, held := Added(s, hash, name, p), held + multiset{n};
    }

    /** The reference moves from `curr` to `next`. */
    method Move(curr: nat, next: nat)
      requires Valid() && curr in held && root in held - multiset{curr} && next in s.dents && s.refs[next] > 0
      modifies this
      ensures Valid() && held == old(held) - multiset{curr} + multiset{next} && s.dents == old(s.dents)
    {
      Hold(next);
      Release(curr);
    }

    /** `..` */
    method Up(curr: nat) returns (next: nat)
      requires Valid() && curr in held && root in held - multiset{curr} && curr in s.dents
      modifies this
      ensures Valid() && s.dents == old(s.dents) && held == old(held) - multiset{curr} + multiset{next}
      ensures next == if s.dents[curr].parent < 0 then curr else s.dents[curr].parent
    {
      var up := s.dents[curr].parent;
      if up < 0 { return curr; }
      assert Placed(s.dents, root, s.next, curr) && curr in ChildSet(s.dents, up);
      CachedIsHeld(s, hash, root, held, up);
      Move(curr, up);
      next := up;
    }

    /** The child called `t`, made if it is missing and `create` is set: -1 if
        it is missing and not to be made, -2 if its name cannot be copied. */
    method Down(curr: nat, t: string, create: bool) returns (next: int)
      requires Valid() && curr in held && root in held - multiset{curr} && curr in s.dents
      modifies this
      ensures Valid() && Extends(old(s.dents), s.dents) && curr in s.dents && next >= -2
      ensures next == -2 ==> create && |t| > LONGEST && held == old(held) && s == old(s)
      ensures next == -1 ==> !create && held == old(held) - multiset{curr}
      ensures next >= 0 ==> held == old(held) - multiset{curr} + multiset{next} && |t| <= LONGEST
      ensures next != -2 ==> next == ChildNamed(s.dents, curr, t)
      ensures (!create ==> s.dents == old(s.dents)) && OneMade(old(s.dents), s.dents, curr, next)
    {
      next := Lookup(curr, t);
      if next >= 0 {
        assert NameFits(s.dents, next);
        Release(curr);
      } else if create {
        if |t| > LONGEST { return -2; }
        next := MakeAndMove(curr, t);
      } else {
        Release(curr);
      }
    }

    method MakeAndMove(curr: nat, t: string) returns (n: nat)
      requires Valid() && curr in held && root in held - multiset{curr} && curr in s.dents
      requires ChildNamed(s.dents, curr, t) == -1 && |t| <= LONGEST
      modifies this
      ensures Valid() && Extends(old(s.dents), s.dents) && curr in s.dents
      ensures held == old(held) - multiset{curr} + multiset{n} && n == ChildNamed(s.dents, curr, t)
      ensures OneMade(old(s.dents), s.dents, curr, n)
    {
      CachedIsHeld(s, hash, root, held, curr);
      n := Make(curr, t);
      ExtendsAdded(old(s.dents), s.dents, n);
      OnlyChild(s.dents, curr, t, n);
      Release(curr);
    }

    /** One component of a path. */
    method Step(raw: bool, curr: nat, comp: string, create: bool) returns (next: int)
      requires Valid() && curr in held && root in held - multiset{curr} && curr in s.dents
      modifies this
      ensures Valid() && Extends(old(s.dents), s.dents) && curr in s.dents && next >= -2
      ensures next == -2 ==> create && |comp| > LONGEST && held == old(held) && s == old(s)
      ensures next == -1 ==> !create && held == old(held) - multiset{curr}
      ensures next >= 0 ==> held == old(held) - multiset{curr} + multiset{next} && (raw ==> |comp| <= LONGEST)
      ensures next != -2 ==> Turn(raw, s.dents, curr, comp) == next
      ensures (!create ==> s.dents == old(s.dents)) && OneMade(old(s.dents), s.dents, curr, next)
    {
      var t := if raw then comp else Trim(comp);
      if t == "" || (!raw && t == ".") {
        next := curr;
      } else if !raw && t == ".." {
        next := Up(curr);
      } else {
        next := Down(curr, t, create);
      }
    }

    /** A walk from `start` over the components `done` has arrived at `curr`. */
    ghost predicate Walking(raw: bool, base: map<nat, Dentry>, h: multiset<nat>, start: nat, done: seq<string>,
                            curr: nat, create: bool)
      reads this
    {
      && Valid() && held == h + multiset{curr} && curr in s.dents && start in s.dents && Closed(s.dents)
      && Extends(base, s.dents) && (!create ==> s.dents == base)
      && Walk(raw, s.dents, start, done) == curr && (raw ==> Short(done))
      && MadeOnWay(raw, base, s.dents, Names(s.dents, start), done)
    }

    /** It has found nothing at the end of `comps`. */
    ghost predicate Missed(raw: bool, base: map<nat, Dentry>, h: multiset<nat>, start: nat, comps: seq<string>)
      reads this
    {
      && Valid() && held == h && s.dents == base && start in base && Closed(base)
      && Walk(raw, base, start, comps) == -1
    }

    /** The next component. */
    method Advance(raw: bool, ghost base: map<nat, Dentry>, ghost h: multiset<nat>, ghost start: nat,
                   ghost done: seq<string>,
                   curr: nat, comp: string, create: bool) returns (next: int)
      requires Walking(raw, base, h, start, done, curr, create) && root in h
      modifies this
      ensures next >= -2 && (next >= 0 ==> Walking(raw, base, h, start, done + [comp], next, create))
      ensures next == -2 ==> Valid() && Extends(base, s.dents) && |comp| > LONGEST
      ensures next == -1 ==> !create && Missed(raw, base, h, start, done + [comp])
    {
      ghost var before, last := s.dents, s.next;
      next := Step(raw, curr, comp, create);
      ExtendsOn(base, before, s.dents);
      if next != -2 { Arrived(raw, before, s.dents, root, s.next, start, done, comp, curr, next); }
      if next >= 0 { MadeStep(raw, base, before, last, start, done, comp, curr, next); }
    }

    lemma MadeStep(raw: bool, base: map<nat, Dentry>, before: map<nat, Dentry>, last: nat, start: nat,
                   done: seq<string>, comp: string, curr: nat, next: nat)
      requires Valid() && Extends(before, s.dents) && Tree(before, root, last) && start in before && start in s.dents
      requires MadeOnWay(raw, base, before, Names(before, start), done) && OneMade(before, s.dents, curr, next)
      requires Closed(s.dents) && Walk(raw, s.dents, start, done + [comp]) == next
      ensures MadeOnWay(raw, base, s.dents, Names(s.dents, start), done + [comp])
    {
      NamesStay(before, s.dents, root, last, start);
      WalkNames(raw, s.dents, root, s.next, start, done + [comp], next);
      MadeMore(raw, base, before, s.dents, root, last, Names(before, start), done, comp, curr, next);
    }

    /** `resolve_dentry` on entries without a backing filesystem: it finds what
        walking the components finds and holds the result once; without
        `create` nothing else changes, with it missing entries are made and the
        result is what the path leads to from then on. */
    method Resolve(path: string, parent: int, create: bool) returns (out: int)
      requires Valid() && (parent == -1 || (parent >= 0 && parent in s.dents && s.refs[parent] > 0))
      modifies this
      ensures Valid() && Extends(old(s.dents), s.dents) && Closed(s.dents) && out >= -1
      ensures out == -1 ==> held == old(held) && s.dents == old(s.dents)
      ensures out >= 0 ==> held == old(held) + multiset{out} && (!create ==> s.dents == old(s.dents))
      ensures var start := if parent < 0 then root else parent;
              && start in s.dents && out == Resolved(s.dents, start, path)
              && (out >= 0 ==>
                    && out in s.dents && Names(s.dents, out) == Follow(false, Names(s.dents, start), Components(path))
                    && MadeOnWay(false, old(s.dents), s.dents, Names(s.dents, start), Components(path)))
    {
      TreeCloses(s.dents, root, s.next);
      if |path| > LONGEST { return -1; }
      var start: nat := if parent < 0 then root else parent;
      CachedIsHeld(s, hash, root, held, root);
      Hold(start);
      assert Short(Components(path)) by {
        forall k | 0 <= k < |Components(path)| ensures |Components(path)[k]| <= LONGEST { ComponentsBound(path, k); }
      }
      out := WalkPath(false, old(s.dents), old(held), start, path, create);
      if out >= 0 { WalkNames(false, s.dents, root, s.next, start, Components(path), out); }
    }

    method WalkPath(raw: bool, ghost base: map<nat, Dentry>, ghost h: multiset<nat>, start: nat, path: string,
                    create: bool) returns (out: int)
      requires Walking(raw, base, h, start, [], start, create) && root in h
      modifies this
      ensures out >= 0 ==> Walking(raw, base, h, start, Components(path), out, create)
      ensures out == -1 ==> !create && Missed(raw, base, h, start, Components(path))
      ensures out >= -2 && (out == -2 ==> !Short(Components(path)) && Valid() && Extends(base, s.dents))
    {
      var curr: nat, rest, more := start, path, true;
      ghost var all, done: seq<string> := Components(path), [];
      assert Ahead(all, done, rest, more);
      while more && rest != ""
        invariant Walking(raw, base, h, start, done, curr, create) && Ahead(all, done, rest, more)
        decreases if more then |rest| + 1 else 0
      {
        var i := Slash(rest);
        var comp := rest[..i];
        ghost var later := NextUp(all, done, rest, i);
        var next := Advance(raw, base, h, start, done, curr, comp, create);
        if next < 0 {
          if next == -1 { WalkAppend(raw, base, start, done + [comp], later); } else { TooLong(done, comp, later); }
          return next;
        }
        curr, done := next, done + [comp];
        if i < |rest| { rest := rest[i + 1..]; } else { more := false; }
      }
      assert all == done;
      out := curr;
    }

    /** `vxnamei`: every missing component is made; the result is what the path
        leads to, held once.  A name is copied by `str`, which refuses one over
        4096 characters; the code goes on with the NULL it then gets, which is a
        fault here. */
    method Namei(path: string) returns (fault: bool, out: int)
      requires Valid()
      modifies this
      ensures Valid() && Extends(old(s.dents), s.dents) && Closed(s.dents) && root in s.dents
      ensures fault <==> !Short(Components(path))
      ensures path == "" ==> out == -1 && s == old(s) && held == old(held)
      ensures path != "" && !fault ==> out >= 0 && held == old(held) + multiset{out}
      ensures path != "" && !fault ==> Walk(true, s.dents, root, Components(path)) == out && out in s.dents
      ensures path != "" && !fault && out != root ==> PathOf(s.dents, out) == Printed(NonEmpty(Components(path)))
      ensures path != "" && !fault ==> (out == root <==> NonEmpty(Components(path)) == [])
      ensures path != "" && !fault ==> MadeOnWay(true, old(s.dents), s.dents, [], Components(path))
    {
      TreeCloses(s.dents, root, s.next);
      if path == "" { return false, -1; }
      CachedIsHeld(s, hash, root, held, root);
      Hold(root);
      out := WalkPath(true, old(s.dents), old(held), root, path, true);
      fault := out == -2;
      TreeCloses(s.dents, root, s.next);
      if out >= 0 { NameiArrives(old(s.dents), old(held), path, out); }
    }

    lemma NameiArrives(base: map<nat, Dentry>, h: multiset<nat>, path: string, out: nat)
      requires Walking(true, base, h, root, Components(path), out, true)
      ensures out == root <==> NonEmpty(Components(path)) == []
      ensures out != root ==> PathOf(s.dents, out) == Printed(NonEmpty(Components(path)))
      ensures MadeOnWay(true, base, s.dents, [], Components(path))
    {
      assert Placed(s.dents, root, s.next, root);
      RawWalkPath(s.dents, root, s.next, path, out);
    }

    /** `get_full_path_from_dentry`. */
    method FullPath(d: nat) returns (path: string)
      requires Valid() && d in s.dents
      ensures path == PathOf(s.dents, d)
    {
      path := s.dents[d].name;
      if s.dents[d].parent < 0 { return; }
      assert Placed(s.dents, root, s.next, d);
      var curr: nat := s.dents[d].parent;
      while s.dents[curr].parent >= 0
        invariant curr in s.dents
        invariant Spell(s.dents, d) == (if s.dents[curr].parent < 0 then "/" else Spell(s.dents, curr) + "/") + path
        decreases curr
      {
        assert Placed(s.dents, root, s.next, curr);
        path := s.dents[curr].name + "/" + path;
        curr := s.dents[curr].parent;
      }
      path := "/" + path;
    }

    /** `cache_remove`. */
    method Remove(d: nat)
      requires Valid() && d in s.dents && s.dents[d].cached
      modifies this
      ensures Valid() && held == old(held) && s.dents == old(s.dents)[d := old(s.dents)[d].(cached := false)]
      ensures s.next == old(s.next)
    {
      RemoveKeeps(s, hash, root, held, d);
      NamesStayFit(s.dents, Removed(s, hash, d).dents);
      s := Removed(s, hash, d);
    }

    /** Between its children, `delete_dentry` has cleared the subtrees of those in `done`. */
    ghost predicate Deleting(base: map<nat, Dentry>, h: multiset<nat>, next: nat, node: nat, done: set<nat>)
      reads this
    {
      && Valid() && held == h && s.next == next && node in base && s.dents == Cleared(base, done)
      && (forall k | k in done :: k in base && base[k].cached && base[k].parent == node < k)
      && (forall k | k in base && base[k].parent == node :: node < k)
    }

    /** `delete_dentry`: exactly the cached subtree of the entry leaves the cache. */
    method Delete(node: nat)
      requires Valid() && node in s.dents && node < s.next
      modifies this
      ensures Valid() && held == old(held) && s.next == old(s.next)
      ensures s.dents == Cleared(old(s.dents), {node})
      decreases s.next - node, 1, 0
    {
      if !s.dents[node].cached {
        NothingToClear(s.dents, node);
        return;
      }
      ghost var base, h, next := s.dents, held, s.next;
      ghost var done: set<nat> := {};
      forall k | k in base && base[k].parent == node ensures node < k { assert Placed(base, root, next, k); }
      assert Cleared(base, done) == base;
      while s.kids[node] != []
        invariant Deleting(base, h, next, node, done)
        decreases CachedSet(s.dents)
      {
        var child := s.kids[node][0];
        OnRing(node, child);
        DeleteChild(base, h, next, node, done, child);
        done := done + {child};
      }
      LastChild(base, h, next, node, done);
      Remove(node);
    }

    /** The entry itself is still cached, and its children are all done. */
    lemma LastChild(base: map<nat, Dentry>, h: multiset<nat>, next: nat, node: nat, done: set<nat>)
      requires Deleting(base, h, next, node, done) && base[node].cached && node in s.kids && s.kids[node] == []
      ensures node in s.dents && s.dents[node].cached
      ensures s.dents[node := s.dents[node].(cached := false)] == Cleared(base, {node})
    {
      forall k | k in base && base[k].cached && base[k].parent == node ensures k in done {
        assert RingOk(s.dents, s.kids[node], node) && Child(s.dents, s.kids[node], node, k);
        AllDone(base, done, node, k);
      }
      if UnderAny(base, done, node) {
        var k :| k in done && InSub(base, k, node);
        SubAbove(base, k, node);
      }
      ClearedTop(base, done, node);
    }

    /** A child on the ring is cached, younger than its parent, and refers to it. */
    lemma OnRing(node: nat, child: nat)
      requires Valid() && node in s.kids && child in s.kids[node]
      ensures child in s.dents && s.dents[child].cached && s.dents[child].parent == node < child < s.next
      ensures s.refs[child] > 0
    {
      assert RingOk(s.dents, s.kids[node], node) && Child(s.dents, s.kids[node], node, child);
      assert Placed(s.dents, root, s.next, child);
      CachedIsHeld(s, hash, root, held, child);
    }

    /** Clearing the next child's subtree as well. */
    lemma NextChild(base: map<nat, Dentry>, h: multiset<nat>, next: nat, node: nat, done: set<nat>, child: nat)
      requires Deleting(base, h, next, node, done) && child in s.dents && s.dents[child].cached
      requires s.dents[child].parent == node < child
      ensures child in base && base[child].cached && base[child].parent == node
      ensures Cleared(s.dents, {child}) == Cleared(base, done + {child})
      ensures CachedSet(Cleared(s.dents, {child})) < CachedSet(s.dents)
    {
      ClearedShrinks(s.dents, child);
      assert InSub(base, child, child) && child !in done;
      ClearedOneMore(base, done, child);
    }

    method DeleteChild(ghost base: map<nat, Dentry>, ghost h: multiset<nat>, ghost next: nat, ghost node: nat,
                       ghost done: set<nat>,
                       child: nat)
      requires Deleting(base, h, next, node, done) && node in s.kids && child in s.kids[node]
      modifies this
      ensures Deleting(base, h, next, node, done + {child}) && CachedSet(s.dents) < old(CachedSet(s.dents))
      decreases s.next - child, 2, 0
    {
      OnRing(node, child);
      NextChild(base, h, next, node, done, child);
      DeleteHeld(child);
    }

    method DeleteHeld(child: nat)
      requires Valid() && child in s.dents && s.refs[child] > 0 && child < s.next
      modifies this
      ensures Valid() && held == old(held) && s.next == old(s.next) && s.dents == Cleared(old(s.dents), {child})
      decreases s.next - child, 1, 1
    {
      Hold(child);
      Delete(child);
      Release(child);
    }
  }
}
