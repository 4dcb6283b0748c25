/** Paths and names: what a walk means in terms of the names from the root to
    the entry it reaches, whatever the tree. */
module DentryNames {
  import opened Dentry
  import opened DentryPath

  // ---- splitting and trimming ------------------------------------------------------

  /** The pieces with a slash between them. */
  function Joined(pieces: seq<string>): string {
    if pieces == [] then "" else if |pieces| == 1 then pieces[0] else pieces[0] + "/" + Joined(pieces[1..])
  }

  /** Splitting cuts at every slash and at nothing else. */
  lemma {:induction false} PiecesJoin(x: string)
    ensures Pieces(x) != [] && Joined(Pieces(x)) == x && NoSlash(Pieces(x))
    decreases |x|
  {
    var i := Slash(x);
    BeforeSlash(x);
    if i == |x| {
      assert x[..i] == x;
    } else {
      var rest := x[i + 1..];
      PiecesJoin(rest);
      assert Pieces(x)[1..] == Pieces(rest);
      assert x == x[..i] + "/" + rest;
    }
  }

  /** The loop around `strsep2` sees the pieces, without an empty last one. */
  lemma {:induction false} ComponentsArePieces(x: string)
    ensures Pieces(x) == Components(x) + if x == "" || x[|x| - 1] == '/' then [""] else []
    decreases |x|
  {
    var i := Slash(x);
    BeforeSlash(x);
    if x == "" {
    } else if i == |x| {
      assert x[..i] == x && x[|x| - 1] in x;
    } else {
      var rest := x[i + 1..];
      ComponentsArePieces(rest);
      assert rest != "" ==> rest[|rest| - 1] == x[|x| - 1];
      assert Pieces(x)[1..] == Pieces(rest) && Components(x)[1..] == Components(rest);
    }
  }

  predicate Blank(c: char) {
    c == ' ' || c == '/'
  }

  /** Trimming cuts all blanks at the end and nothing else. */
  lemma {:induction false} TrimCuts(c: string)
    ensures forall i | |Trim(c)| <= i < |c| :: Blank(c[i])
    ensures Trim(c) != "" ==> !Blank(Trim(c)[|Trim(c)| - 1])
  {
    if c != "" && Blank(c[|c| - 1]) {
      TrimCuts(c[..|c| - 1]);
    }
  }

  // ---- names ------------------------------------------------------------------------

  /** The names from the root, which has none, down to `d`. */
  function Names(dents: map<nat, Dentry>, d: nat): seq<string>
    requires d in dents
    decreases d
  {
    var p := dents[d].parent;
    if 0 <= p < d && p in dents then Names(dents, p) + [dents[d].name] else []
  }

  /** The names as a path. */
  function Printed(names: seq<string>): string {
    if names == [] then "" else Printed(names[..|names| - 1]) + "/" + names[|names| - 1]
  }

  /** A path is printed from the names: the whole chain, in order, and no more. */
  lemma {:induction false} PathIsNames(dents: map<nat, Dentry>, root: nat, next: nat, d: nat)
    requires Tree(dents, root, next) && d in dents && d != root
    ensures PathOf(dents, d) == Printed(Names(dents, d))
    decreases d
  {
    var p := dents[d].parent;
    assert Placed(dents, root, next, d) && Placed(dents, root, next, p);
    assert Names(dents, d)[..|Names(dents, d)| - 1] == Names(dents, p);
    if p == root {
      assert "" + "/" + dents[d].name == "/" + dents[d].name;
    } else {
      PathIsNames(dents, root, next, p);
    }
  }

  /** What one component does to a list of names: empty and `.` nothing, `..`
      takes the last name away, any other is added. */
  function Follow1(raw: bool, names: seq<string>, comp: string): seq<string> {
    if raw then (if comp == "" then names else names + [comp])
    else
      match Trim(comp)
      case "" => names
      case "." => names
      case ".." => if names == [] then [] else names[..|names| - 1]
      case t => names + [t]
  }

  function Follow(raw: bool, names: seq<string>, comps: seq<string>): seq<string> {
    if comps == [] then names
    else Follow1(raw, Follow(raw, names, comps[..|comps| - 1]), comps[|comps| - 1])
  }

  lemma {:induction false} TurnNames(raw: bool, dents: map<nat, Dentry>, root: nat, next: nat, curr: nat, comp: string,
                                     to: int)
    requires Tree(dents, root, next) && curr in dents && to == Turn(raw, dents, curr, comp) >= 0
    ensures to in dents && Names(dents, to) == Follow1(raw, Names(dents, curr), comp)
  {
    assert Placed(dents, root, next, curr);
    if to in dents { assert Placed(dents, root, next, to); }
  }

  /** A walk that arrives has followed the names: `..` and `.` included, what it
      reaches has the names the components say. */
  lemma {:induction false} WalkNames(raw: bool, dents: map<nat, Dentry>, root: nat, next: nat, curr: nat,
                                     comps: seq<string>, to: int)
    requires Tree(dents, root, next) && Closed(dents) && curr in dents && to == Walk(raw, dents, curr, comps) >= 0
    ensures to in dents && Names(dents, to) == Follow(raw, Names(dents, curr), comps)
    decreases |comps|
  {
    if comps != [] {
      var front, last := comps[..|comps| - 1], comps[|comps| - 1];
      assert comps == front + [last];
      WalkAppend(raw, dents, curr, front, [last]);
      var mid := Walk(raw, dents, curr, front);
      WalkNames(raw, dents, root, next, curr, front, mid);
      WalkOne(raw, dents, mid, last);
      TurnNames(raw, dents, root, next, mid, last, to);
    }
  }

  lemma {:induction false} WalkOne(raw: bool, dents: map<nat, Dentry>, curr: nat, comp: string)
    requires curr in dents && Closed(dents)
    ensures Walk(raw, dents, curr, [comp])
         == if Turn(raw, dents, curr, comp) < 0 then -1 else Turn(raw, dents, curr, comp)
  {
    assert HasParent(dents, curr);
    var n := Turn(raw, dents, curr, comp);
    if n >= 0 { assert Walk(raw, dents, n, []) == n; }
  }

  // ---- plain paths -----------------------------------------------------------------------

  predicate AllClean(names: seq<string>) {
    forall k | 0 <= k < |names| :: Clean(names[k])
  }

  lemma {:induction false} FollowClean(names: seq<string>, comps: seq<string>)
    requires AllClean(comps)
    ensures Follow(false, names, comps) == names + comps
  {
    if comps != [] {
      var last := comps[|comps| - 1];
      FollowClean(names, comps[..|comps| - 1]);
      CleanComponent(last);
    }
  }

  lemma {:induction false} ReachableNames(dents: map<nat, Dentry>, root: nat, next: nat, d: nat)
    requires Tree(dents, root, next) && Unique(dents) && Closed(dents) && d in dents && Reachable(dents, d)
    ensures AllClean(Names(dents, d)) && Walk(false, dents, root, Names(dents, d)) == d
    decreases d
  {
    assert Placed(dents, root, next, d);
    if d != root {
      var p, name := dents[d].parent, dents[d].name;
      ReachableNames(dents, root, next, p);
      WalkAppend(false, dents, root, Names(dents, p), [name]);
      CleanComponent(name);
      OnlyChild(dents, p, name, d);
      WalkOne(false, dents, p, name);
    }
  }

  /** A walk over clean names finds exactly the entry that has those names and
      is cached, with all above it. */
  lemma {:induction false} CleanWalkIff(dents: map<nat, Dentry>, root: nat, next: nat, names: seq<string>, d: nat)
    requires Tree(dents, root, next) && Unique(dents) && Closed(dents) && AllClean(names) && d in dents
    ensures Walk(false, dents, root, names) == d <==> Reachable(dents, d) && Names(dents, d) == names
  {
    assert Placed(dents, root, next, root) && Names(dents, root) == [];
    if Walk(false, dents, root, names) == d {
      WalkStaysReachable(dents, root, next, root, names);
      WalkNames(false, dents, root, next, root, names, d);
      FollowClean([], names);
    }
    if Reachable(dents, d) { ReachableNames(dents, root, next, d); }
  }

  // ---- dots --------------------------------------------------------------------------------

  lemma {:induction false} WalkSuffix(dents: map<nat, Dentry>, root: nat, next: nat, d: nat, y: string)
    requires Tree(dents, root, next) && Unique(dents) && Closed(dents) && d in dents && d != root && Reachable(dents, d)
    ensures Walk(false, dents, root, Components(PathOf(dents, d) + "/" + y)) == Walk(false, dents, d, Components(y))
  {
    var x := Spell(dents, d);
    assert Placed(dents, root, next, d);
    SpellingLeadsBack(dents, root, next, d);
    WalkPieces(dents, root, x);
    ComponentsAppend(x, y);
    WalkAppend(false, dents, root, Pieces(x), Components(y));
  }

  lemma DotsSplit()
    ensures Components("..") == [".."] && Components(".") == ["."] && Trim("..") == ".." && Trim(".") == "."
  {
    SlashNone("..");
    SlashNone(".");
    assert ".."[..2] == ".." && "."[..1] == ".";
  }

  /** The printed path of an entry with `/..` behind it leads to its parent, and
      with `/.` behind it to the entry itself. */
  lemma {:induction false} DotDotIsParent(dents: map<nat, Dentry>, root: nat, next: nat, d: nat)
    requires Tree(dents, root, next) && Unique(dents) && Closed(dents) && d in dents && d != root && Reachable(dents, d)
    requires |PathOf(dents, d) + "/.."| <= LONGEST
    ensures Resolved(dents, root, PathOf(dents, d) + "/..") == dents[d].parent
    ensures Resolved(dents, root, PathOf(dents, d) + "/.") == d
  {
    var x := PathOf(dents, d);
    assert Placed(dents, root, next, d);
    assert x + "/" + ".." == x + "/.." && x + "/" + "." == x + "/.";
    DotsSplit();
    WalkSuffix(dents, root, next, d, "..");
    WalkSuffix(dents, root, next, d, ".");
    WalkOne(false, dents, d, "..");
    WalkOne(false, dents, d, ".");
  }

  /** The root is its own parent. */
  lemma {:induction false} RootDotDot(dents: map<nat, Dentry>, root: nat, next: nat)
    requires Tree(dents, root, next) && Closed(dents)
    ensures Resolved(dents, root, "/..") == root
  {
    assert Placed(dents, root, next, root);
    DotsSplit();
    assert "" + "/" + ".." == "/..";
    ComponentsAppend("", "..");
    WalkAppend(false, dents, root, [""], [".."]);
    WalkOne(false, dents, root, "");
    WalkOne(false, dents, root, "..");
  }

  // ---- names as they come ---------------------------------------------------------------------

  function NonEmpty(comps: seq<string>): seq<string> {
    if comps == [] then []
    else NonEmpty(comps[..|comps| - 1]) + if comps[|comps| - 1] == "" then [] else [comps[|comps| - 1]]
  }

  lemma {:induction false} FollowRaw(comps: seq<string>)
    ensures Follow(true, [], comps) == NonEmpty(comps)
  {
    if comps != [] {
      FollowRaw(comps[..|comps| - 1]);
    }
  }

  lemma {:induction false} NonEmptyAppend(a: seq<string>, b: seq<string>)
    ensures NonEmpty(a + b) == NonEmpty(a) + NonEmpty(b)
    decreases |b|
  {
    if b == [] {
      assert a + b == a;
    } else {
      var front := b[..|b| - 1];
      assert (a + b)[..|a + b| - 1] == a + front;
      NonEmptyAppend(a, front);
    }
  }

  predicate Plain(names: seq<string>) {
    forall k | 0 <= k < |names| :: names[k] != "" && '/' !in names[k]
  }

  lemma {:induction false} NonEmptyPlain(names: seq<string>)
    requires Plain(names)
    ensures NonEmpty(names) == names
  {
    if names != [] {
      NonEmptyPlain(names[..|names| - 1]);
      assert names == names[..|names| - 1] + [names[|names| - 1]];
    }
  }

  lemma {:induction false} OnePiece(y: string)
    requires Slash(y) == |y|
    ensures Pieces(y) == [y]
  {
  }

  lemma {:induction false} AppendSplit(x: string, y: string, i: nat, z: string)
    requires i == Slash(x) && z == x + "/" + y
    ensures Slash(z) == i < |z| && z[..i] == x[..i]
    ensures z[i + 1..] == if i == |x| then y else x[i + 1..] + "/" + y
  {
    SlashAppend(x, y);
  }

  lemma {:induction false} PiecesAppend(x: string, y: string)
    requires '/' !in y
    ensures Pieces(x + "/" + y) == Pieces(x) + [y]
    decreases |x|
  {
    var z, i := x + "/" + y, Slash(x);
    AppendSplit(x, y, i, z);
    PiecesHead(z);
    if i == |x| {
      SlashNone(y);
      OnePiece(y);
      OnePiece(x);
      assert x[..i] == x;
    } else {
      var rest := x[i + 1..];
      PiecesHead(x);
      PiecesAppend(rest, y);
      Grouped(x[..i], Pieces(rest), [y]);
    }
  }

  lemma {:induction false} PrintedPieces(names: seq<string>)
    requires Plain(names)
    ensures Pieces(Printed(names)) == [""] + names
  {
    if names != [] {
      var front, last := names[..|names| - 1], names[|names| - 1];
      PrintedPieces(front);
      PiecesAppend(Printed(front), last);
      assert [""] + names == [""] + front + [last];
    }
  }

  /** The components of a printed path are its names. */
  lemma {:induction false} PrintedComponents(names: seq<string>)
    requires Plain(names)
    ensures NonEmpty(Components(Printed(names))) == names
  {
    PrintedPieces(names);
    ComponentsArePieces(Printed(names));
    NonEmptyAppend([""], names);
    NonEmptyPlain(names);
    NonEmptyAppend(Components(Printed(names)), [""]);
    assert NonEmpty([""]) == [];
    var c := Components(Printed(names));
    assert c + [] == c;
  }

  /** What `vxnamei` reaches has the components of the path as its names, so a
      path of plain names is the path printed for the result. */
  lemma {:induction false} RawWalkPath(dents: map<nat, Dentry>, root: nat, next: nat, path: string, d: nat)
    requires Tree(dents, root, next) && Closed(dents) && Walk(true, dents, root, Components(path)) == d
    ensures d in dents && Names(dents, d) == NonEmpty(Components(path))
    ensures d == root <==> NonEmpty(Components(path)) == []
    ensures d != root ==> PathOf(dents, d) == Printed(NonEmpty(Components(path)))
  {
    assert Placed(dents, root, next, root) && Names(dents, root) == [];
    WalkNames(true, dents, root, next, root, Components(path), d);
    FollowRaw(Components(path));
    assert Placed(dents, root, next, d);
    if d != root { PathIsNames(dents, root, next, d); }
  }

  /** So for a path of plain names, one or more, the path printed for the result
      is the path given. */
  lemma {:induction false} PathGiven(dents: map<nat, Dentry>, root: nat, next: nat, names: seq<string>, d: nat)
    requires Tree(dents, root, next) && Closed(dents) && Plain(names) && names != []
    requires Walk(true, dents, root, Components(Printed(names))) == d
    ensures d in dents && PathOf(dents, d) == Printed(names)
  {
    assert Placed(dents, root, next, root) && Names(dents, root) == [];
    PrintedComponents(names);
    RawWalkPath(dents, root, next, Printed(names), d);
  }
}
