/** The initial stack of a user process (`elf_prepare_stack`, figure 3.9 of the
    System V AMD64 psABI) and the walk a program makes over it. */
module UserStack {

  type Octet = x: int | 0 <= x < 256
  type CString = s: seq<Octet> | forall i | 0 <= i < |s| :: s[i] != 0

  const AT_NULL := 0
  const AT_PHDR := 3
  const AT_PHENT := 4
  const AT_PHNUM := 5
  const AT_PAGESZ := 6
  const AT_BASE := 7
  const AT_ENTRY := 9
  const AT_UID := 11
  const AT_EUID := 12
  const AT_GID := 13
  const AT_EGID := 14
  const AT_HWCAP := 16
  const AT_SECURE := 23
  const AT_RANDOM := 25

  // ---- words in memory ---------------------------------------------------------

  function Limit(n: nat): (r: nat)
    ensures r > 0
  {
    if n == 0 then 1 else 256 * Limit(n - 1)
  }

  /** `n` bytes, least significant first. */
  function Bytes(v: nat, n: nat): (r: seq<Octet>)
    ensures |r| == n
  {
    if n == 0 then [] else [v % 256] + Bytes(v / 256, n - 1)
  }

  function Value(b: seq<Octet>): nat {
    if b == [] then 0 else b[0] + 256 * Value(b[1..])
  }

  lemma {:induction false} ValueOfBytes(v: nat, n: nat)
    requires v < Limit(n)
    ensures Value(Bytes(v, n)) == v
  {
    if n > 0 {
      ValueOfBytes(v / 256, n - 1);
      assert Bytes(v, n)[1..] == Bytes(v / 256, n - 1);
    }
  }

  predicate IsWord(v: nat) {
    v < Limit(8)
  }

  function WordAt(m: seq<Octet>, i: nat): nat
    requires i + 8 <= |m|
  {
    Value(m[i..i + 8])
  }

  /** Memory `m` holds the words `ws` from index `i` on. */
  ghost predicate Holds(m: seq<Octet>, i: nat, ws: seq<nat>)
    decreases |ws|
  {
    ws == [] || (i + 8 <= |m| && WordAt(m, i) == ws[0] && Holds(m, i + 8, ws[1..]))
  }

  // ---- strings in memory ---------------------------------------------------------

  /** The strings one after the other, each with its terminator. */
  function Packed(strs: seq<CString>): seq<Octet> {
    if strs == [] then [] else strs[0] + [0] + Packed(strs[1..])
  }

  datatype Read<+T> = Got(value: T, next: nat) | Fault

  /** The string at index `i`. */
  function StringAt(m: seq<Octet>, i: nat): Read<seq<Octet>>
    decreases |m| - i
  {
    if i >= |m| then Fault
    else if m[i] == 0 then Got([], i + 1)
    else
      match StringAt(m, i + 1)
      case Fault => Fault
      case Got(s, next) => Got([m[i]] + s, next)
  }

  lemma {:induction false} StringFound(m: seq<Octet>, i: nat, s: CString)
    requires i + |s| < |m| && m[i..i + |s|] == s && m[i + |s|] == 0
    ensures StringAt(m, i) == Got(s, i + |s| + 1)
    decreases |s|
  {
    if s != [] {
      assert m[i..i + |s|][0] == s[0] && m[i + 1..i + |s|] == s[1..];
      StringFound(m, i + 1, s[1..]);
      assert [s[0]] + s[1..] == s;
    }
  }

  /** The strings end where memory ends; from string `k` on they are a suffix of it. */
  lemma {:induction false} PackedSuffix(m: seq<Octet>, strs: seq<CString>, k: nat)
    requires |Packed(strs)| <= |m| && m[|m| - |Packed(strs)|..] == Packed(strs) && k <= |strs|
    ensures |Packed(strs[k..])| <= |m| && m[|m| - |Packed(strs[k..])|..] == Packed(strs[k..])
    decreases k
  {
    if k == 0 {
      assert strs[0..] == strs;
    } else {
      var rest := Packed(strs[1..]);
      assert Packed(strs) == (strs[0] + [0]) + rest;
      assert m[|m| - |rest|..] == m[|m| - |Packed(strs)|..][|strs[0]| + 1..];
      PackedSuffix(m, strs[1..], k - 1);
      assert strs[1..][k - 1..] == strs[k..];
    }
  }

  lemma {:induction false} PackedString(m: seq<Octet>, strs: seq<CString>, k: nat)
    requires |Packed(strs)| <= |m| && m[|m| - |Packed(strs)|..] == Packed(strs) && k < |strs|
    ensures |Packed(strs[k..])| <= |m|
    ensures StringAt(m, |m| - |Packed(strs[k..])|) == Got(strs[k], |m| - |Packed(strs[k + 1..])|)
  {
    PackedSuffix(m, strs, k);
    var p, s := Packed(strs[k..]), strs[k];
    var i := |m| - |p|;
    assert strs[k..][0] == s && strs[k..][1..] == strs[k + 1..];
    assert p == s + [0] + Packed(strs[k + 1..]);
    assert m[i..][..|s|] == s && m[i..][|s|] == 0;
    assert m[i..i + |s|] == m[i..][..|s|];
    StringFound(m, i, s);
  }

  // ---- the walk --------------------------------------------------------------------

  /** Words up to a zero word. */
  function Pointers(m: seq<Octet>, i: nat): Read<seq<nat>>
    decreases |m| - i
  {
    if i + 8 > |m| then Fault
    else if WordAt(m, i) == 0 then Got([], i + 8)
    else
      match Pointers(m, i + 8)
      case Fault => Fault
      case Got(ps, next) => Got([WordAt(m, i)] + ps, next)
  }

  datatype Aux = Aux(tag: nat, value: nat)

  /** Auxiliary entries up to and with the AT_NULL entry. */
  function Entries(m: seq<Octet>, i: nat): Read<seq<Aux>>
    decreases |m| - i
  {
    if i + 16 > |m| then Fault
    else
      var entry := Aux(WordAt(m, i), WordAt(m, i + 8));
      if entry.tag == AT_NULL then Got([entry], i + 16)
      else
        match Entries(m, i + 16)
        case Fault => Fault
        case Got(es, next) => Got([entry] + es, next)
  }

  /** The strings the addresses point at; `low` is the address of `m[0]`. */
  function Strings(m: seq<Octet>, low: nat, ps: seq<nat>): Read<seq<seq<Octet>>> {
    if ps == [] then Got([], 0)
    else if ps[0] < low then Fault
    else
      match (StringAt(m, ps[0] - low), Strings(m, low, ps[1..]))
      case (Got(s, _), Got(rest, _)) => Got([s] + rest, 0)
      case (_, _) => Fault
  }

  datatype Startup = Startup(argc: nat, argv: seq<seq<Octet>>, envp: seq<seq<Octet>>, aux: seq<Aux>)

  /** What a program finds when it walks its memory from `rsp`. */
  function Walk(m: seq<Octet>, low: nat, rsp: nat): Read<Startup> {
    if rsp < low || rsp - low + 8 > |m| then Fault
    else
      var argc := WordAt(m, rsp - low);
      match Pointers(m, rsp - low + 8)
      case Fault => Fault
      case Got(ap, i) =>
        (match Pointers(m, i)
         case Fault => Fault
         case Got(ep, j) =>
           (match (Strings(m, low, ap), Strings(m, low, ep), Entries(m, j))
            case (Got(argv, _), Got(envp, _), Got(aux, next)) => Got(Startup(argc, argv, envp, aux), next)
            case (_, _, _) => Fault))
  }

  /** The addresses of the strings `strs` packed together below address `top`. */
  function Addresses(strs: seq<CString>, top: nat): (r: seq<nat>)
    requires |Packed(strs)| <= top
    ensures |r| == |strs|
  {
    if strs == [] then [] else [top - |Packed(strs)|] + Addresses(strs[1..], top)
  }

  function Flat(aux: seq<Aux>): seq<nat> {
    if aux == [] then [] else [aux[0].tag, aux[0].value] + Flat(aux[1..])
  }

  lemma {:induction false} PointersFound(m: seq<Octet>, i: nat, ps: seq<nat>, rest: seq<nat>)
    requires Holds(m, i, ps + ([0] + rest)) && forall k | 0 <= k < |ps| :: ps[k] != 0
    ensures Pointers(m, i) == Got(ps, i + 8 * (|ps| + 1)) && Holds(m, i + 8 * (|ps| + 1), rest)
    decreases |ps|
  {
    var ws := ps + ([0] + rest);
    if ps == [] {
      assert ws[1..] == rest;
    } else {
      assert ws[1..] == ps[1..] + ([0] + rest);
      PointersFound(m, i + 8, ps[1..], rest);
      assert [ps[0]] + ps[1..] == ps;
    }
  }

  lemma {:induction false} EntriesFound(m: seq<Octet>, i: nat, aux: seq<Aux>)
    requires Holds(m, i, Flat(aux)) && Terminated(aux)
    ensures Entries(m, i) == Got(aux, i + 16 * |aux|)
    decreases |aux|
  {
    var ws := Flat(aux);
    assert ws[1..][1..] == Flat(aux[1..]);
    if |aux| == 1 {
      assert aux == [aux[0]];
    } else {
      EntriesFound(m, i + 16, aux[1..]);
      assert [aux[0]] + aux[1..] == aux;
    }
  }

  /** Memory ends with the strings. */
  ghost predicate EndsWith(m: seq<Octet>, strs: seq<CString>) {
    |Packed(strs)| <= |m| && m[|m| - |Packed(strs)|..] == Packed(strs)
  }

  lemma {:induction false} FirstFound(m: seq<Octet>, all: seq<CString>)
    requires EndsWith(m, all) && all != []
    ensures EndsWith(m, all[1..]) && |Packed(all)| == |all[0]| + 1 + |Packed(all[1..])|
    ensures StringAt(m, |m| - |Packed(all)|).Got? && StringAt(m, |m| - |Packed(all)|).value == all[0]
  {
    PackedString(m, all, 0);
    assert all[0..] == all;
    PackedSuffix(m, all, 1);
  }

  /** The first strings of those packed at the end of memory are found at their addresses. */
  lemma {:induction false} StringsFound(m: seq<Octet>, low: nat, strs: seq<CString>, others: seq<CString>, top: nat)
    requires EndsWith(m, strs + others) && |Packed(others)| + |Packed(strs)| == |Packed(strs + others)|
    requires top == low + |m| - |Packed(others)|
    ensures |Packed(strs)| <= top && Strings(m, low, Addresses(strs, top)) == Got(strs, 0)
    decreases |strs|
  {
    if strs != [] {
      var all := strs + others;
      FirstFound(m, all);
      assert all[1..] == strs[1..] + others;
      PackedAppend(strs[1..], others);
      StringsFound(m, low, strs[1..], others, top);
      assert [strs[0]] + strs[1..] == strs;
    }
  }

  lemma {:induction false} PackedAppend(a: seq<CString>, b: seq<CString>)
    ensures Packed(a + b) == Packed(a) + Packed(b)
  {
    if a == [] {
      assert a + b == b;
    } else {
      PackedAppend(a[1..], b);
      assert (a + b)[1..] == a[1..] + b;
      assert a[0] + [0] + (Packed(a[1..]) + Packed(b)) == a[0] + [0] + Packed(a[1..]) + Packed(b);
    }
  }

  lemma {:induction false} AddressesAbove(strs: seq<CString>, top: nat, low: nat)
    requires low + |Packed(strs)| <= top
    ensures forall k | 0 <= k < |strs| :: low <= Addresses(strs, top)[k] < top
  {
    if strs != [] {
      assert |Packed(strs)| > |Packed(strs[1..])|;
      AddressesAbove(strs[1..], top, low);
    }
  }

  /** The words of the stack, from the lowest: argc, argv, NULL, envp, NULL, auxiliary entries. */
  function Vector(argv: seq<CString>, envp: seq<CString>, top: nat, aux: seq<Aux>): seq<nat>
    requires |Packed(argv)| + |Packed(envp)| <= top
  {
    [|argv|] + (Addresses(argv, top - |Packed(envp)|) + ([0] + (Addresses(envp, top) + ([0] + Flat(aux)))))
  }

  predicate Terminated(aux: seq<Aux>) {
    aux != [] && aux[|aux| - 1] == Aux(AT_NULL, 0) && forall k | 0 <= k < |aux| - 1 :: aux[k].tag != AT_NULL
  }

  lemma {:induction false} ArgvFound(m: seq<Octet>, low: nat, argv: seq<CString>, envp: seq<CString>, top: nat)
    returns (ap: seq<nat>)
    requires low > 0 && EndsWith(m, argv + envp) && |Packed(argv)| + |Packed(envp)| <= |m|
    requires top == low + |m| - |Packed(envp)|
    ensures ap == Addresses(argv, top) && Strings(m, low, ap) == Got(argv, 0)
    ensures forall k | 0 <= k < |ap| :: ap[k] != 0
  {
    PackedAppend(argv, envp);
    StringsFound(m, low, argv, envp, top);
    AddressesAbove(argv, top, low);
    ap := Addresses(argv, top);
  }

  lemma {:induction false} EnvFound(m: seq<Octet>, low: nat, argv: seq<CString>, envp: seq<CString>, top: nat)
    returns (ep: seq<nat>)
    requires low > 0 && EndsWith(m, argv + envp) && |Packed(envp)| <= |m| && top == low + |m|
    ensures ep == Addresses(envp, top) && Strings(m, low, ep) == Got(envp, 0)
    ensures forall k | 0 <= k < |ep| :: ep[k] != 0
  {
    PackedSuffix(m, argv + envp, |argv|);
    assert (argv + envp)[|argv|..] == envp == envp + [];
    StringsFound(m, low, envp, [], top);
    AddressesAbove(envp, top, low);
    ep := Addresses(envp, top);
  }

  /** Memory from address `low` on that ends with the strings and holds the
      vector at index `i`: a walk from there finds argc, every string, both
      NULLs and every auxiliary entry. */
  lemma {:induction false} WalkRecovers(m: seq<Octet>, low: nat, rsp: nat, i: nat, argv: seq<CString>,
                                        envp: seq<CString>,
                                        aux: seq<Aux>, end: nat)
    requires rsp == low + i && end == i + 8 * (|argv| + |envp| + 3) + 16 * |aux|
    requires low > 0 && EndsWith(m, argv + envp) && Terminated(aux)
    requires |Packed(argv)| + |Packed(envp)| <= |m| && Holds(m, i, Vector(argv, envp, low + |m|, aux))
    ensures Walk(m, low, rsp) == Got(Startup(|argv|, argv, envp, aux), end)
  {
    var ap := ArgvFound(m, low, argv, envp, low + |m| - |Packed(envp)|);
    var ep := EnvFound(m, low, argv, envp, low + |m|);
    WordsFound(m, i, |argv|, ap, ep, aux);
    Assembled(m, low, rsp, i, ap, ep, argv, envp, aux, end);
  }

  lemma {:induction false} Assembled(m: seq<Octet>, low: nat, rsp: nat, i: nat, ap: seq<nat>, ep: seq<nat>,
                                     argv: seq<CString>, envp: seq<CString>, aux: seq<Aux>, end: nat)
    requires rsp == low + i && end == i + 8 * (|argv| + |envp| + 3) + 16 * |aux|
    requires |ap| == |argv| && |ep| == |envp|
    requires i + 8 <= |m| && WordAt(m, i) == |argv| && Pointers(m, i + 8) == Got(ap, i + 8 * (|ap| + 2))
    requires Pointers(m, i + 8 * (|ap| + 2)) == Got(ep, i + 8 * (|ap| + |ep| + 3))
    requires Entries(m, i + 8 * (|ap| + |ep| + 3)) == Got(aux, i + 8 * (|ap| + |ep| + 3) + 16 * |aux|)
    requires Strings(m, low, ap) == Got(argv, 0) && Strings(m, low, ep) == Got(envp, 0)
    ensures Walk(m, low, rsp) == Got(Startup(|argv|, argv, envp, aux), end)
  {
    assert rsp - low == i;
    assert Pointers(m, rsp - low + 8) == Got(ap, i + 8 * (|ap| + 2));
  }

  lemma {:induction false} WordsFound(m: seq<Octet>, i: nat, argc: nat, ap: seq<nat>, ep: seq<nat>, aux: seq<Aux>)
    requires Holds(m, i, [argc] + (ap + ([0] + (ep + ([0] + Flat(aux))))))
    requires (forall k | 0 <= k < |ap| :: ap[k] != 0) && forall k | 0 <= k < |ep| :: ep[k] != 0
    requires Terminated(aux)
    ensures i + 8 <= |m| && WordAt(m, i) == argc && Pointers(m, i + 8) == Got(ap, i + 8 * (|ap| + 2))
    ensures Pointers(m, i + 8 * (|ap| + 2)) == Got(ep, i + 8 * (|ap| + |ep| + 3))
    ensures Entries(m, i + 8 * (|ap| + |ep| + 3)) == Got(aux, i + 8 * (|ap| + |ep| + 3) + 16 * |aux|)
  {
    var rest := ep + ([0] + Flat(aux));
    assert ([argc] + (ap + ([0] + rest)))[1..] == ap + ([0] + rest);
    PointersFound(m, i + 8, ap, rest);
    PointersFound(m, i + 8 * (|ap| + 2), ep, Flat(aux));
    EntriesFound(m, i + 8 * (|ap| + |ep| + 3), aux);
  }

  // ---- building it -------------------------------------------------------------------

  function RandomBytes(): (r: seq<Octet>)
    ensures |r| == 16
  {
    [0xDE, 0xAD, 0xBE, 0xEF, 0xCA, 0xFE, 0xBA, 0xBE, 0x12, 0x34, 0x56, 0x78, 0x9A, 0xBC, 0xDE, 0xF0]
  }

  /** What the loader passes on about the executable; `base` is 0 without an interpreter. */
  datatype Image = Image(phdr: nat, phent: nat, phnum: nat, entry: nat, base: nat)

  predicate IsImage(x: Image) {
    IsWord(x.phdr) && IsWord(x.phent) && IsWord(x.phnum) && IsWord(x.entry) && IsWord(x.base)
  }

  function AuxLow(x: Image): seq<Aux> {
    [Aux(AT_PHDR, x.phdr), Aux(AT_PHENT, x.phent), Aux(AT_PHNUM, x.phnum), Aux(AT_PAGESZ, 0x1000)]
  }

  function AuxHigh(x: Image, random: nat): seq<Aux> {
    [Aux(AT_EUID, 1000), Aux(AT_EGID, 1000), Aux(AT_GID, 1000), Aux(AT_UID, 1000), Aux(AT_SECURE, 0),
     Aux(AT_HWCAP, 0), Aux(AT_RANDOM, random), Aux(AT_ENTRY, x.entry), Aux(AT_NULL, 0)]
  }

  /** The auxiliary vector, from the lowest entry. */
  function AuxVector(x: Image, random: nat): seq<Aux> {
    AuxLow(x) + ((if x.base == 0 then [] else [Aux(AT_BASE, x.base)]) + AuxHigh(x, random))
  }

  lemma {:induction false} HoldsKept(m: seq<Octet>, z: seq<Octet>, i: nat, ws: seq<nat>)
    requires Holds(m, i, ws) && |z| == |m| && forall k | i <= k < |m| :: z[k] == m[k]
    ensures Holds(z, i, ws)
    decreases |ws|
  {
    if ws != [] {
      assert z[i..i + 8] == m[i..i + 8];
      HoldsKept(m, z, i + 8, ws[1..]);
    }
  }

  /** The stack being built.  The code does not look where the stack's memory
      ends: a push that would go below it is a fault here, and building stops. */
  class Builder {
    const mem: array<Octet>
    const kernelTop: nat
    const userTop: nat
    var sp: nat
    var fault: bool

    ghost predicate Valid()
      reads this`sp
    {
      sp <= mem.Length <= kernelTop && mem.Length < userTop && IsWord(userTop)
    }

    constructor (stack: array<Octet>, kernel: nat, user: nat)
      requires stack.Length <= kernel && stack.Length < user && IsWord(user)
      ensures Valid() && mem == stack && kernelTop == kernel && userTop == user && sp == stack.Length && !fault
    {
      mem := stack;
      kernelTop := kernel;
      userTop := user;
      sp := stack.Length;
      fault := false;
    }

    /** The address at which the user sees byte `i` of the stack. */
    function User(i: nat): nat
      requires i <= mem.Length < userTop
    {
      userTop - (mem.Length - i)
    }

    /** Everything from index `from` on is as it was in `m`. */
    ghost predicate KeptFrom(m: seq<Octet>, from: nat)
      reads mem
    {
      |m| == mem.Length && forall k | from <= k < mem.Length :: mem[k] == m[k]
    }

    method PushBytes(b: seq<Octet>)
      requires Valid() && !fault
      modifies this`sp, this`fault, mem
      ensures Valid() && (fault <==> |b| > old(sp))
      ensures !fault ==> sp == old(sp) - |b| && mem[..][sp..] == b + old(mem[..][sp..])
    {
      if |b| > sp {
        fault := true;
        return;
      }
      ghost var tail := mem[..][sp..];
      sp := sp - |b|;
      var j := 0;
      while j < |b|
        invariant j <= |b| && sp == old(sp) - |b| && !fault
        invariant forall k | 0 <= k < j :: mem[sp + k] == b[k]
        invariant forall k | 0 <= k < |tail| :: mem[sp + |b| + k] == tail[k]
      {
        mem[sp + j] := b[j];
        j := j + 1;
      }
      forall k | 0 <= k < |b| + |tail| ensures mem[..][sp..][k] == (b + tail)[k] {
        if k >= |b| { assert mem[sp + |b| + (k - |b|)] == tail[k - |b|]; }
      }
    }

    method PushWord(v: nat, ghost ws: seq<nat>)
      requires Valid() && !fault && IsWord(v) && Holds(mem[..], sp, ws)
      modifies this`sp, this`fault, mem
      ensures Valid() && (fault <==> 8 > old(sp))
      ensures !fault ==> sp == old(sp) - 8 && Holds(mem[..], sp, [v] + ws) && KeptFrom(old(mem[..]), old(sp))
    {
      PushBytes(Bytes(v, 8));
      if !fault { WordPushed(old(mem[..]), mem[..], sp, v, ws); }
    }

    method PushStrings(strs: seq<CString>) returns (users: seq<nat>)
      requires Valid() && !fault
      modifies this`sp, this`fault, mem
      ensures Valid() && (fault <==> |Packed(strs)| > old(sp))
      ensures !fault ==> sp == old(sp) - |Packed(strs)| && mem[..][sp..] == Packed(strs) + old(mem[..][sp..])
      ensures !fault ==> |Packed(strs)| <= old(User(sp)) && users == Addresses(strs, old(User(sp)))
    {
      users := [];
      var i: nat := |strs|;
      assert strs[0..] == strs;
      ghost var tail, top := mem[..][sp..], User(sp);
      PackedNone(strs, top, tail);
      while i > 0
        invariant i <= |strs| && Valid() && !fault
        invariant |Packed(strs[i..])| <= old(sp) && sp == old(sp) - |Packed(strs[i..])|
        invariant mem[..][sp..] == Packed(strs[i..]) + tail && users == Addresses(strs[i..], top)
      {
        i := i - 1;
        PackedStep(strs, i, top, tail);
        PushBytes(strs[i] + [0]);
        if fault { return; }
        users := [User(sp)] + users;
      }
    }

    /** The pointers of a vector, the last one first. */
    method PushPointers(users: seq<nat>, ghost ws: seq<nat>)
      requires Valid() && !fault && Holds(mem[..], sp, ws) && forall k | 0 <= k < |users| :: IsWord(users[k])
      modifies this`sp, this`fault, mem
      ensures Valid() && (fault <==> 8 * |users| > old(sp))
      ensures !fault ==> sp == old(sp) - 8 * |users| && KeptFrom(old(mem[..]), old(sp))
      ensures !fault ==> Holds(mem[..], sp, users + ws)
    {
      var i: nat := |users|;
      assert users[i..] + ws == ws;
      while i > 0
        invariant i <= |users| && Valid() && !fault && 8 * (|users| - i) <= old(sp) && sp == old(sp) - 8 * (|users| - i)
        invariant Holds(mem[..], sp, users[i..] + ws) && KeptFrom(old(mem[..]), old(sp))
      {
        i := i - 1;
        PushWord(users[i], users[i + 1..] + ws);
        if fault { return; }
        assert [users[i]] + (users[i + 1..] + ws) == users[i..] + ws;
      }
      assert users[0..] == users;
    }

    method PushEntry(e: Aux, ghost aux: seq<Aux>)
      requires Valid() && !fault && IsWord(e.tag) && IsWord(e.value) && Holds(mem[..], sp, Flat(aux))
      modifies this`sp, this`fault, mem
      ensures Valid() && (fault <==> 16 > old(sp))
      ensures !fault ==> sp == old(sp) - 16 && Holds(mem[..], sp, Flat([e] + aux)) && KeptFrom(old(mem[..]), old(sp))
    {
      PushWord(e.value, Flat(aux));
      if fault { return; }
      PushWord(e.tag, [e.value] + Flat(aux));
      assert ([e] + aux)[1..] == aux;
      assert [e.tag] + ([e.value] + Flat(aux)) == Flat([e] + aux);
    }

    method PushEntries(es: seq<Aux>, ghost aux: seq<Aux>)
      requires Valid() && !fault && Holds(mem[..], sp, Flat(aux))
      requires forall k | 0 <= k < |es| :: IsWord(es[k].tag) && IsWord(es[k].value)
      modifies this`sp, this`fault, mem
      ensures Valid() && (fault <==> 16 * |es| > old(sp))
      ensures !fault ==> sp == old(sp) - 16 * |es| && KeptFrom(old(mem[..]), old(sp))
      ensures !fault ==> Holds(mem[..], sp, Flat(es + aux))
    {
      var i: nat := |es|;
      assert es[i..] + aux == aux;
      while i > 0
        invariant i <= |es| && Valid() && !fault && 16 * (|es| - i) <= old(sp) && sp == old(sp) - 16 * (|es| - i)
        invariant Holds(mem[..], sp, Flat(es[i..] + aux)) && KeptFrom(old(mem[..]), old(sp))
      {
        i := i - 1;
        PushEntry(es[i], es[i + 1..] + aux);
        if fault { return; }
        assert [es[i]] + (es[i + 1..] + aux) == es[i..] + aux;
      }
      assert es[0..] == es;
    }

    /** The auxiliary vector, highest entry first; AT_BASE only with an interpreter. */
    method PushAux(x: Image, random: nat, ghost aux: seq<Aux>)
      requires Valid() && !fault && IsImage(x) && IsWord(random) && aux == AuxVector(x, random)
      modifies this`sp, this`fault, mem
      ensures Valid() && (fault <==> 16 * |aux| > old(sp))
      ensures !fault ==> sp == old(sp) - 16 * |aux| && Holds(mem[..], sp, Flat(aux)) && KeptFrom(old(mem[..]), old(sp))
    {
      SmallWords();
      ghost var high := AuxHigh(x, random);
      assert high + [] == high;
      PushEntries(AuxHigh(x, random), []);
      if fault { return; }
      if x.base != 0 {
        PushEntry(Aux(AT_BASE, x.base), high);
        if fault { return; }
        high := [Aux(AT_BASE, x.base)] + high;
      } else {
        assert [] + high == high;
      }
      PushEntries(AuxLow(x), high);
    }

    /** Bytes above the vector: the strings, the random bytes, and what it
        takes to align the kernel's address of the stack pointer to 16. */
    function Above(argv: seq<CString>, envp: seq<CString>): nat {
      var b := |Packed(argv)| + |Packed(envp)| + 16;
      b + (kernelTop - b) % 16
    }

    /** How much room it all takes. */
    function Needed(argv: seq<CString>, envp: seq<CString>, x: Image): nat {
      Above(argv, envp) + 8 * (|argv| + |envp| + 3) + 16 * |AuxVector(x, 0)|
    }

    /** The index of the random bytes. */
    function RandomAt(argv: seq<CString>, envp: seq<CString>): int {
      mem.Length - |Packed(argv)| - |Packed(envp)| - 16
    }

    /** The strings and the random bytes. */
    method PushData(argv: seq<CString>, envp: seq<CString>) returns (ap: seq<nat>, ep: seq<nat>, random: nat)
      requires Valid() && !fault && sp == mem.Length
      modifies this`sp, this`fault, mem
      ensures Valid() && (fault <==> RandomAt(argv, envp) < 0)
      ensures !fault ==> sp == RandomAt(argv, envp) && random == User(sp)
      ensures !fault ==> mem[..][sp..] == RandomBytes() + (Packed(argv) + Packed(envp))
      ensures !fault ==> |Packed(argv)| + |Packed(envp)| <= userTop
                         && ap == Addresses(argv, userTop - |Packed(envp)|) && ep == Addresses(envp, userTop)
    {
      ap, ep, random := [], [], 0;
      ep := PushStrings(envp);
      if fault { return; }
      assert mem[..][sp..] == Packed(envp);
      ap := PushStrings(argv);
      if fault { return; }
      PushBytes(RandomBytes());
      if fault { return; }
      random := User(sp);
    }

    /** Down to the aligned address; there is a word to push there. */
    method AlignDown()
      requires Valid() && !fault
      modifies this`sp, this`fault
      ensures Valid()
      ensures var pad := (kernelTop - (mem.Length - old(sp))) % 16;
              (fault <==> pad > old(sp)) && (!fault ==> sp == old(sp) - pad)
    {
      var pad := (kernelTop - (mem.Length - sp)) % 16;
      if pad > sp { fault := true; } else { sp := sp - pad; }
    }

    method PushVector(argc: nat, ap: seq<nat>, ep: seq<nat>, x: Image, random: nat, ghost aux: seq<Aux>)
      requires Valid() && !fault && IsImage(x) && IsWord(random) && IsWord(argc) && aux == AuxVector(x, random)
      requires (forall k | 0 <= k < |ap| :: IsWord(ap[k])) && (forall k | 0 <= k < |ep| :: IsWord(ep[k]))
      modifies this`sp, this`fault, mem
      ensures Valid() && (fault <==> 8 * (|ap| + |ep| + 3) + 16 * |aux| > old(sp))
      ensures !fault ==> sp == old(sp) - (8 * (|ap| + |ep| + 3) + 16 * |aux|) && KeptFrom(old(mem[..]), old(sp))
      ensures !fault ==> Holds(mem[..], sp, [argc] + (ap + ([0] + (ep + ([0] + Flat(aux))))))
    {
      PushAux(x, random, aux);
      if fault { return; }
      ghost var flat := Flat(aux);
      PushWord(0, flat);
      if fault { return; }
      PushPointers(ep, [0] + flat);
      if fault { return; }
      PushWord(0, ep + ([0] + flat));
      if fault { return; }
      PushPointers(ap, [0] + (ep + ([0] + flat)));
      if fault { return; }
      PushWord(argc, ap + ([0] + (ep + ([0] + flat))));
    }

    /** `elf_prepare_stack`: lays the stack out below `userTop` and returns the
        user's address of its lowest word; it runs over the end of the stack's
        memory exactly if that is too small. */
    method Prepare(argv: seq<CString>, envp: seq<CString>, x: Image)
      returns (rsp: nat, ghost aux: seq<Aux>, ghost bytes: seq<Octet>)
      requires Valid() && !fault && sp == mem.Length && IsImage(x)
      modifies this`sp, this`fault, mem
      ensures Valid() && (fault <==> Needed(argv, envp, x) > mem.Length)
      ensures !fault ==> RandomAt(argv, envp) >= 0 && aux == AuxVector(x, User(RandomAt(argv, envp)))
      ensures !fault ==> bytes == RandomBytes()
      ensures !fault ==> rsp == User(sp) && sp == mem.Length - Needed(argv, envp, x)
      ensures !fault ==> Laid(mem[..], userTop, sp, argv, envp, aux, bytes)
    {
      rsp, aux, bytes := 0, AuxVector(x, 0), RandomBytes();
      var ap, ep, random := PushData(argv, envp);
      if fault { return; }
      aux := AuxVector(x, random);
      rsp := Finish(argv, envp, x, ap, ep, random, aux, bytes);
    }

    method Finish(argv: seq<CString>, envp: seq<CString>, x: Image, ap: seq<nat>, ep: seq<nat>, random: nat,
                  ghost aux: seq<Aux>, ghost bytes: seq<Octet>)
      returns (rsp: nat)
      requires Valid() && !fault && IsImage(x) && sp == RandomAt(argv, envp) && random == User(sp)
      requires aux == AuxVector(x, random) && |bytes| == 16 && mem[..][sp..] == bytes + (Packed(argv) + Packed(envp))
      requires ap == Addresses(argv, userTop - |Packed(envp)|) && ep == Addresses(envp, userTop)
      modifies this`sp, this`fault, mem
      ensures Valid() && (fault <==> Needed(argv, envp, x) > mem.Length)
      ensures !fault ==> rsp == User(sp) && sp == mem.Length - Needed(argv, envp, x)
      ensures !fault ==> Laid(mem[..], userTop, sp, argv, envp, aux, bytes)
    {
      rsp := 0;
      ghost var r, tail := sp, mem[..][sp..];
      ArgcFits(argv, envp);
      AddressesAbove(argv, userTop - |Packed(envp)|, 0);
      AddressesAbove(envp, userTop, 0);
      AlignDown();
      if fault { return; }
      PushVector(|argv|, ap, ep, x, random, aux);
      if fault { return; }
      rsp := User(sp);
      assert mem[..][r..] == tail;
    }

    lemma {:induction false} ArgcFits(argv: seq<CString>, envp: seq<CString>)
      requires Valid() && RandomAt(argv, envp) >= 0
      ensures IsWord(|argv|)
    {
      PackedCount(argv);
    }
  }

  lemma {:induction false} PackedCount(strs: seq<CString>)
    ensures |strs| <= |Packed(strs)|
  {
    if strs != [] { PackedCount(strs[1..]); }
  }

  /** Memory that ends below address `top` with the random bytes and the strings,
      and holds the vector at index `i`, all below them. */
  ghost predicate Laid(m: seq<Octet>, top: nat, i: nat, argv: seq<CString>, envp: seq<CString>, aux: seq<Aux>,
                       random: seq<Octet>) {
    && var r := |m| - |Packed(argv)| - |Packed(envp)| - |random|;
    && 0 <= r && i + 8 * (|argv| + |envp| + 3) + 16 * |aux| <= r
    && m[r..] == random + (Packed(argv) + Packed(envp))
    && |m| < top && Holds(m, i, Vector(argv, envp, top, aux))
  }

  /** The vector ends, at index `end`, below the random bytes, and these lie
      below the strings, with which memory ends. */
  ghost predicate Stacked(m: seq<Octet>, end: nat, argv: seq<CString>, envp: seq<CString>, random: seq<Octet>) {
    var r := |m| - |Packed(argv + envp)| - |random|;
    end <= r && m[r..r + |random|] == random && m[r + |random|..] == Packed(argv + envp)
  }

  lemma {:induction false} LaidStacked(m: seq<Octet>, top: nat, i: nat, argv: seq<CString>, envp: seq<CString>,
                                       aux: seq<Aux>, random: seq<Octet>, end: nat)
    requires Laid(m, top, i, argv, envp, aux, random) && end == i + 8 * (|argv| + |envp| + 3) + 16 * |aux|
    ensures Stacked(m, end, argv, envp, random) && EndsWith(m, argv + envp)
  {
    StringsAbove(m, argv, envp, random, |m| - |Packed(argv)| - |Packed(envp)| - |random|);
  }

  /** On a stack laid out like that, a walk from its lowest word recovers argc,
      every string, both NULL terminators and the whole auxiliary vector. */
  lemma {:induction false} WalkRoundTrip(m: seq<Octet>, top: nat, rsp: nat, i: nat, argv: seq<CString>,
                                         envp: seq<CString>,
                                         aux: seq<Aux>, random: seq<Octet>, end: nat)
    requires Laid(m, top, i, argv, envp, aux, random) && Terminated(aux) && rsp == top - (|m| - i)
    requires end == i + 8 * (|argv| + |envp| + 3) + 16 * |aux|
    ensures Stacked(m, end, argv, envp, random)
    ensures Walk(m, top - |m|, rsp) == Got(Startup(|argv|, argv, envp, aux), end)
  {
    LaidStacked(m, top, i, argv, envp, aux, random, end);
    WalkLaid(m, top, rsp, i, argv, envp, aux, end, top - |m|);
  }

  lemma {:induction false} WalkLaid(m: seq<Octet>, top: nat, rsp: nat, i: nat, argv: seq<CString>, envp: seq<CString>,
                                    aux: seq<Aux>, end: nat, low: nat)
    requires low > 0 && low + |m| == top && rsp == low + i && EndsWith(m, argv + envp) && Terminated(aux)
    requires |Packed(argv)| + |Packed(envp)| <= |m| && Holds(m, i, Vector(argv, envp, top, aux))
    requires end == i + 8 * (|argv| + |envp| + 3) + 16 * |aux|
    ensures Walk(m, low, rsp) == Got(Startup(|argv|, argv, envp, aux), end)
  {
    WalkRecovers(m, low, rsp, i, argv, envp, aux, end);
  }

  lemma {:induction false} StringsAbove(m: seq<Octet>, argv: seq<CString>, envp: seq<CString>, random: seq<Octet>,
                                        r: nat)
    requires r == |m| - |Packed(argv)| - |Packed(envp)| - |random| && m[r..] == random + (Packed(argv) + Packed(envp))
    ensures r == |m| - |Packed(argv + envp)| - |random| && EndsWith(m, argv + envp)
    ensures m[r..r + |random|] == random && m[r + |random|..] == Packed(argv + envp)
  {
    TailSplit(m, r, random, Packed(argv) + Packed(envp));
    PackedAppend(argv, envp);
  }

  lemma {:induction false} TailSplit(m: seq<Octet>, r: nat, a: seq<Octet>, b: seq<Octet>)
    requires r <= |m| && m[r..] == a + b
    ensures r + |a| <= |m| && m[r..r + |a|] == a && m[r + |a|..] == b
  {
    assert m[r..][..|a|] == a && m[r..][|a|..] == b;
  }

  lemma {:induction false} AuxTerminated(x: Image, random: nat)
    ensures Terminated(AuxVector(x, random))
  {
  }

  lemma {:induction false} SmallWords()
    ensures forall v: nat | v <= 0x1000 :: IsWord(v)
  {
    assert Limit(2) == 65536;
    assert Limit(8) == 256 * (256 * (256 * (256 * (256 * (256 * Limit(2))))));
  }

  lemma {:induction false} PackedSplit(strs: seq<CString>, i: nat)
    requires i <= |strs|
    ensures |Packed(strs[i..])| <= |Packed(strs)|
  {
    PackedAppend(strs[..i], strs[i..]);
    assert strs[..i] + strs[i..] == strs;
  }

  /** Pushing string `i` on top of the later ones. */
  lemma {:induction false} PackedStep(strs: seq<CString>, i: nat, top: nat, tail: seq<Octet>)
    requires i < |strs|
    ensures |Packed(strs[i..])| == |strs[i] + [0]| + |Packed(strs[i + 1..])| && |Packed(strs[i..])| <= |Packed(strs)|
    ensures Packed(strs[i..]) + tail == (strs[i] + [0]) + (Packed(strs[i + 1..]) + tail)
    ensures |Packed(strs[i..])| <= top ==>
              Addresses(strs[i..], top) == [top - |Packed(strs[i..])|] + Addresses(strs[i + 1..], top)
  {
    PackedSplit(strs, i);
    assert strs[i..][0] == strs[i] && strs[i..][1..] == strs[i + 1..];
    assert Packed(strs[i..]) == strs[i] + [0] + Packed(strs[i + 1..]);
  }

  lemma {:induction false} PackedNone(strs: seq<CString>, top: nat, tail: seq<Octet>)
    ensures Packed(strs[|strs|..]) == [] && [] + tail == tail && Addresses(strs[|strs|..], top) == []
  {
  }

  lemma {:induction false} WordPushed(m: seq<Octet>, z: seq<Octet>, i: nat, v: nat, ws: seq<nat>)
    requires i + 8 <= |m| == |z| && IsWord(v) && Holds(m, i + 8, ws) && z[i..] == Bytes(v, 8) + m[i + 8..]
    ensures Holds(z, i, [v] + ws)
    ensures forall k | i + 8 <= k < |z| :: z[k] == m[k]
  {
    assert z[i..][..8] == Bytes(v, 8);
    assert z[i..i + 8] == z[i..][..8];
    ValueOfBytes(v, 8);
    forall k | i + 8 <= k < |z| ensures z[k] == m[k] {
      assert z[i..][k - i] == m[i + 8..][k - i - 8];
    }
    HoldsKept(m, z, i + 8, ws);
    assert ([v] + ws)[1..] == ws;
  }
}
