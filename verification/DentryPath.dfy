/** Paths: splitting them, walking them, printing them. */
module DentryPath {
  import opened Dentry

  // ---- splitting -------------------------------------------------------------------

  /** The position of the first slash, or the length. */
  function Slash(path: string): (i: nat)
    ensures i <= |path| && (i < |path| ==> path[i] == '/')
  {
    if path == "" || path[0] == '/' then 0 else 1 + Slash(path[1..])
  }

  lemma {:induction false} BeforeSlash(path: string)
    ensures '/' !in path[..Slash(path)]
  {
    if path != "" && path[0] != '/' {
      BeforeSlash(path[1..]);
      var i := Slash(path);
      assert path[..i] == [path[0]] + path[1..][..i - 1];
    }
  }

  /** What the loop around `strsep2` sees: it stops at the end of the path. */
  function Components(path: string): seq<string>
    decreases |path|
  {
    if path == "" then []
    else
      var i := Slash(path);
      if i == |path| then [path] else [path[..i]] + Components(path[i + 1..])
  }

  /** Without the spaces at the end. */
  function Trim(c: string): (r: string)
    ensures r <= c
  {
    if c != "" && (c[|c| - 1] == ' ' || c[|c| - 1] == '/') then Trim(c[..|c| - 1]) else c
  }

  /** The longest string `str` copies. */
  const LONGEST := 4096

  /** All components are short enough to become names. */
  predicate Short(comps: seq<string>) {
    forall k | 0 <= k < |comps| :: |comps[k]| <= LONGEST
  }

  lemma {:induction false} TooLong(done: seq<string>, comp: string, later: seq<string>)
    requires |comp| > LONGEST
    ensures !Short(done + [comp] + later)
  {
    assert (done + [comp] + later)[|done|] == comp;
  }

  lemma {:induction false} ComponentsBound(path: string, k: nat)
    requires k < |Components(path)|
    ensures |Components(path)[k]| <= |path|
    decreases |path|
  {
    var i := Slash(path);
    if k > 0 { ComponentsBound(path[i + 1..], k - 1); }
  }

  /** No entry has a longer name. */
  ghost predicate NamesFit(dents: map<nat, Dentry>) {
    forall d :: NameFits(dents, d)
  }

  ghost predicate NameFits(dents: map<nat, Dentry>, d: nat) {
    d in dents ==> |dents[d].name| <= LONGEST
  }

  // ---- walking ------------------------------------------------------------------------

  ghost predicate IsChild(dents: map<nat, Dentry>, p: nat, name: string, d: nat) {
    d in dents && dents[d].cached && dents[d].parent == p && dents[d].name == name
  }

  /** The cached child of `p` with that name, or -1. */
  ghost function ChildNamed(dents: map<nat, Dentry>, p: nat, name: string): (r: int)
    ensures r == -1 || (r >= 0 && IsChild(dents, p, name, r))
    ensures r == -1 ==> forall d :: !IsChild(dents, p, name, d)
  {
    if exists d: nat :: IsChild(dents, p, name, d) then var d: nat :| IsChild(dents, p, name, d); d else -1
  }

  lemma {:induction false} OnlyChild(dents: map<nat, Dentry>, p: nat, name: string, d: nat)
    requires Unique(dents) && IsChild(dents, p, name, d)
    ensures ChildNamed(dents, p, name) == d
  {
    assert Apart(dents, ChildNamed(dents, p, name), d);
  }

  /** Where one component leads, or -1: in `vxnamei` (`raw`) every component but
      the empty one is a name; `resolve_dentry` trims it and knows the dots. */
  ghost function Turn(raw: bool, dents: map<nat, Dentry>, curr: nat, comp: string): int
    requires curr in dents
  {
    var t := if raw then comp else Trim(comp);
    if t == "" || (!raw && t == ".") then curr
    else if !raw && t == ".." then (if dents[curr].parent < 0 then curr else dents[curr].parent)
    else ChildNamed(dents, curr, t)
  }

  /** Parents are entries. */
  ghost predicate Closed(dents: map<nat, Dentry>) {
    forall d {:trigger HasParent(dents, d)} | d in dents :: HasParent(dents, d)
  }

  ghost predicate HasParent(dents: map<nat, Dentry>, d: nat)
    requires d in dents
  {
    dents[d].parent < 0 || dents[d].parent in dents
  }

  /** Where a sequence of components leads, or -1. */
  ghost function Walk(raw: bool, dents: map<nat, Dentry>, curr: nat, comps: seq<string>): int
    requires curr in dents && Closed(dents)
    decreases |comps|
  {
    if comps == [] then curr
    else
      assert HasParent(dents, curr);
      var next := Turn(raw, dents, curr, comps[0]);
      if next < 0 then -1 else Walk(raw, dents, next, comps[1..])
  }

  lemma {:induction false} WalkAppend(raw: bool, dents: map<nat, Dentry>, curr: nat, a: seq<string>, b: seq<string>)
    requires curr in dents && Closed(dents)
    ensures Walk(raw, dents, curr, a) == -1 || (Walk(raw, dents, curr, a) >= 0 && Walk(raw, dents, curr, a) in dents)
    ensures Walk(raw, dents, curr, a + b)
         == if Walk(raw, dents, curr, a) < 0 then -1 else Walk(raw, dents, Walk(raw, dents, curr, a), b)
    decreases |a|
  {
    if a == [] {
      assert a + b == b;
    } else {
      assert (a + b)[0] == a[0] && (a + b)[1..] == a[1..] + b;
      var next := Turn(raw, dents, curr, a[0]);
      assert HasParent(dents, curr);
      if next >= 0 { WalkAppend(raw, dents, next, a[1..], b); }
    }
  }

  // ---- printing -------------------------------------------------------------------------

  /** `get_full_path_from_dentry` of an entry other than the root. */
  function Spell(dents: map<nat, Dentry>, d: nat): string
    requires d in dents
    decreases d
  {
    var p := dents[d].parent;
    if !(0 <= p < d && p in dents) || dents[p].parent < 0 then "/" + dents[d].name
    else Spell(dents, p) + "/" + dents[d].name
  }

  /** A name that survives being printed and parsed. */
  predicate Clean(name: string) {
    name != "" && '/' !in name && name != "." && name != ".." && name[|name| - 1] != ' '
  }

  /** Every entry from `d` up to the root is cached and has a clean name. */
  predicate Reachable(dents: map<nat, Dentry>, d: nat)
    requires d in dents
    decreases d
  {
    var p := dents[d].parent;
    p < 0 || (dents[d].cached && Clean(dents[d].name) && 0 <= p < d && p in dents && Reachable(dents, p))
  }

  // ---- print then parse --------------------------------------------------------------------

  /** All pieces between slashes, the empty last one too. */
  function Pieces(x: string): seq<string>
    decreases |x|
  {
    var i := Slash(x);
    if i == |x| then [x] else [x[..i]] + Pieces(x[i + 1..])
  }

  lemma {:induction false} SlashAppend(x: string, y: string)
    ensures Slash(x + "/" + y) == Slash(x)
  {
    var z := x + "/" + y;
    if x != "" && x[0] != '/' {
      assert z[1..] == x[1..] + "/" + y;
      SlashAppend(x[1..], y);
    }
  }

  lemma {:induction false} ComponentsHead(path: string)
    requires Slash(path) < |path|
    ensures Components(path) == [path[..Slash(path)]] + Components(path[Slash(path) + 1..])
  {
  }

  lemma {:induction false} PiecesHead(path: string)
    requires Slash(path) < |path|
    ensures Pieces(path) == [path[..Slash(path)]] + Pieces(path[Slash(path) + 1..])
  {
  }

  lemma {:induction false} Grouped(a: string, b: seq<string>, c: seq<string>)
    ensures [a] + (b + c) == ([a] + b) + c
  {
  }

  lemma {:induction false} ComponentsAppend(x: string, y: string)
    ensures Components(x + "/" + y) == Pieces(x) + Components(y)
    decreases |x|
  {
    var z, i := x + "/" + y, Slash(x);
    SlashAppend(x, y);
    ComponentsHead(z);
    if i == |x| {
      assert z[..i] == x && z[i + 1..] == y;
    } else {
      var first, rest := x[..i], x[i + 1..];
      assert z[..i] == first && z[i + 1..] == rest + "/" + y;
      PiecesHead(x);
      ComponentsAppend(rest, y);
      Grouped(first, Pieces(rest), Components(y));
    }
  }

  lemma {:induction false} WalkPieces(dents: map<nat, Dentry>, curr: nat, x: string)
    requires curr in dents && Closed(dents)
    ensures Walk(false, dents, curr, Pieces(x)) == Walk(false, dents, curr, Components(x))
    decreases |x|
  {
    var i := Slash(x);
    assert HasParent(dents, curr);
    if x == "" {
      assert Pieces(x) == [""];
    } else if i < |x| {
      var next := Turn(false, dents, curr, x[..i]);
      assert Pieces(x)[1..] == Pieces(x[i + 1..]) && Components(x)[1..] == Components(x[i + 1..]);
      if next >= 0 { WalkPieces(dents, next, x[i + 1..]); }
    } else {
      assert x[..i] == x;
    }
  }

  lemma {:induction false} SlashNone(x: string)
    requires '/' !in x
    ensures Slash(x) == |x|
  {
    if x != "" {
      assert x[0] in x;
      SlashNone(x[1..]);
    }
  }

  lemma {:induction false} CleanComponent(name: string)
    requires Clean(name)
    ensures Components(name) == [name] && Trim(name) == name
  {
    SlashNone(name);
    assert name[..|name|] == name;
    assert name[|name| - 1] in name;
  }

  lemma {:induction false} TreeCloses(dents: map<nat, Dentry>, root: nat, next: nat)
    requires Tree(dents, root, next)
    ensures Closed(dents)
  {
    forall d | d in dents ensures HasParent(dents, d) { assert Placed(dents, root, next, d); }
  }

  lemma {:induction false} StepDown(dents: map<nat, Dentry>, d: nat)
    requires Unique(dents) && Closed(dents) && d in dents && dents[d].cached && Clean(dents[d].name)
    requires dents[d].parent >= 0
    ensures dents[d].parent in dents && Walk(false, dents, dents[d].parent, Components(dents[d].name)) == d
  {
    var p, name := dents[d].parent, dents[d].name;
    assert HasParent(dents, d);
    CleanComponent(name);
    OnlyChild(dents, p, name, d);
    assert Walk(false, dents, d, []) == d;
  }

  lemma {:induction false} SpellingLeadsBack(dents: map<nat, Dentry>, root: nat, next: nat, d: nat)
    requires Tree(dents, root, next) && Unique(dents) && Closed(dents) && d in dents && d != root && Reachable(dents, d)
    ensures Walk(false, dents, root, Components(Spell(dents, d))) == d
    decreases d
  {
    var p, name := dents[d].parent, dents[d].name;
    assert Placed(dents, root, next, d) && Placed(dents, root, next, p);
    StepDown(dents, d);
    if p == root {
      assert "/" + name == "" + "/" + name;
      ComponentsAppend("", name);
      WalkAppend(false, dents, root, Pieces(""), Components(name));
      WalkPieces(dents, root, "");
    } else {
      SpellingLeadsBack(dents, root, next, p);
      ComponentsAppend(Spell(dents, p), name);
      WalkAppend(false, dents, root, Pieces(Spell(dents, p)), Components(name));
      WalkPieces(dents, root, Spell(dents, p));
    }
  }

  ghost predicate NoSlash(comps: seq<string>) {
    forall k | 0 <= k < |comps| :: '/' !in comps[k]
  }

  lemma {:induction false} ComponentsNoSlash(path: string)
    ensures NoSlash(Components(path))
    decreases |path|
  {
    BeforeSlash(path);
    if path != "" && Slash(path) < |path| { ComponentsNoSlash(path[Slash(path) + 1..]); }
  }

  lemma {:induction false} TrimEnd(c: string)
    requires '/' !in c
    ensures '/' !in Trim(c) && (Trim(c) != "" ==> Trim(c)[|Trim(c)| - 1] != ' ')
  {
    if c != "" && (c[|c| - 1] == ' ' || c[|c| - 1] == '/') { TrimEnd(c[..|c| - 1]); }
  }

  /** Whatever a walk reaches is cached and cleanly named, up to the root. */
  lemma {:induction false} WalkStaysReachable(dents: map<nat, Dentry>, root: nat, next: nat, curr: nat,
                                              comps: seq<string>)
    requires Tree(dents, root, next) && Closed(dents) && curr in dents && Reachable(dents, curr) && NoSlash(comps)
    ensures var r := Walk(false, dents, curr, comps); r >= 0 ==> r in dents && Reachable(dents, r)
    decreases |comps|
  {
    if comps != [] {
      var n := Turn(false, dents, curr, comps[0]);
      assert HasParent(dents, curr);
      TrimEnd(comps[0]);
      if n >= 0 {
        assert Placed(dents, root, next, n);
        WalkStaysReachable(dents, root, next, n, comps[1..]);
      }
    }
  }

  /** The printed path. */
  function PathOf(dents: map<nat, Dentry>, d: nat): string
    requires d in dents
  {
    if dents[d].parent < 0 then dents[d].name else Spell(dents, d)
  }

  /** What resolving `path` from `start` finds, without creating: `str` copies no longer path. */
  ghost function Resolved(dents: map<nat, Dentry>, start: nat, path: string): int
    requires start in dents && Closed(dents)
  {
    if |path| > LONGEST then -1 else Walk(false, dents, start, Components(path))
  }

  /** Print then parse: resolving the printed path of `d` from the root finds
      `d` if and only if the path can be copied and every entry from `d` up to
      the root is cached and has a clean name. */
  lemma {:induction false} PrintThenParse(dents: map<nat, Dentry>, root: nat, next: nat, d: nat)
    requires Tree(dents, root, next) && Unique(dents) && dents[root].name == "/" && d in dents && Closed(dents)
    ensures Resolved(dents, root, PathOf(dents, d)) == d <==> |PathOf(dents, d)| <= LONGEST && Reachable(dents, d)
  {
    assert Placed(dents, root, next, d);
    if d == root {
      assert Components("/") == [""];
      assert Walk(false, dents, root, [""]) == root;
    } else {
      if Reachable(dents, d) { SpellingLeadsBack(dents, root, next, d); }
      ComponentsNoSlash(Spell(dents, d));
      assert Placed(dents, root, next, root);
      WalkStaysReachable(dents, root, next, root, Components(Spell(dents, d)));
    }
  }

  // ---- lookup ----------------------------------------------------------------------------

  /** The first entry of that name on a ring, or -1. */
  function ScanRing(dents: map<nat, Dentry>, ring: seq<nat>, name: string): int {
    if ring == [] then -1
    else if ring[0] in dents && dents[ring[0]].name == name then ring[0]
    else ScanRing(dents, ring[1..], name)
  }

  lemma {:induction false} ScanFinds(dents: map<nat, Dentry>, ring: seq<nat>, name: string)
    ensures var r := ScanRing(dents, ring, name);
            if r == -1 then forall d | d in ring :: !(d in dents && dents[d].name == name)
            else r >= 0 && r in ring && r in dents && dents[r].name == name
  {
    if ring != [] {
      assert ring == [ring[0]] + ring[1..];
      ScanFinds(dents, ring[1..], name);
    }
  }

  /** Looking a name up in the hash table finds what a scan of the parent's children finds. */
  lemma {:induction false} LookupIsScan(s: State, hash: Hash, root: nat, held: multiset<nat>, p: nat, name: string)
    requires Inv(s, hash, root, held) && p in s.dents
    ensures p in s.kids && ChildNamed(s.dents, p, name) == ScanRing(s.dents, s.kids[p], name)
  {
    var ring := s.kids[p];
    assert RingOk(s.dents, ring, p);
    ScanFinds(s.dents, ring, name);
    var r, c := ScanRing(s.dents, ring, name), ChildNamed(s.dents, p, name);
    if c >= 0 { assert Child(s.dents, ring, p, c); }
    if r >= 0 {
      assert Child(s.dents, ring, p, r);
      OnlyChild(s.dents, p, name, r);
    }
  }
}
