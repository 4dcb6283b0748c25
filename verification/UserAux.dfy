/** What a program finds on its initial stack: every auxiliary value by its tag,
    the random bytes where AT_RANDOM points, and the alignment of the stack
    pointer. */
module UserAux {
  import opened UserStack

  /** The value of the first entry with that tag, or -1. */
  function Lookup(aux: seq<Aux>, tag: nat): int {
    if aux == [] then -1 else if aux[0].tag == tag then aux[0].value else Lookup(aux[1..], tag)
  }

  predicate NoTagTwice(aux: seq<Aux>) {
    forall j, k | 0 <= j < k < |aux| :: aux[j].tag != aux[k].tag
  }

  lemma {:induction false} LookupAt(aux: seq<Aux>, k: nat)
    requires NoTagTwice(aux) && k < |aux|
    ensures Lookup(aux, aux[k].tag) == aux[k].value
  {
    if k > 0 {
      assert aux[0].tag != aux[k].tag;
      LookupAt(aux[1..], k - 1);
    }
  }

  lemma {:induction false} LookupNone(aux: seq<Aux>, tag: nat)
    requires forall k | 0 <= k < |aux| :: aux[k].tag != tag
    ensures Lookup(aux, tag) == -1
  {
    if aux != [] { LookupNone(aux[1..], tag); }
  }

  /** The entries by their numbers in figure 3.11 of the psABI: the program
      headers, the page size, the interpreter's base if there is an interpreter,
      the entry point, the user and group numbers, and the random bytes. */
  function Entry(x: Image, random: nat, tag: nat): int {
    match tag
    case 0 => 0
    case 3 => x.phdr
    case 4 => x.phent
    case 5 => x.phnum
    case 6 => 4096
    case 7 => if x.base == 0 then -1 else x.base
    case 9 => x.entry
    case 11 => 1000
    case 12 => 1000
    case 13 => 1000
    case 14 => 1000
    case 16 => 0
    case 23 => 0
    case 25 => random
    case _ => -1
  }

  lemma {:induction false} AuxOnce(x: Image, random: nat)
    ensures NoTagTwice(AuxVector(x, random))
  {
  }

  lemma {:induction false} AuxMember(x: Image, random: nat, tag: nat, v: nat)
    ensures Aux(tag, v) in AuxVector(x, random) <==> Entry(x, random, tag) == v
  {
    var low, high := AuxLow(x), AuxHigh(x, random);
    assert Aux(tag, v) in low <==> 3 <= tag <= 6 && Entry(x, random, tag) == v;
    assert Aux(tag, v) in high <==> !(3 <= tag <= 7) && Entry(x, random, tag) == v;
  }

  /** Looking up any tag, present or not, gives the value the loader had for it. */
  lemma {:induction false} AuxLookup(x: Image, random: nat, tag: nat)
    ensures Lookup(AuxVector(x, random), tag) == Entry(x, random, tag)
  {
    var aux, v := AuxVector(x, random), Entry(x, random, tag);
    AuxOnce(x, random);
    if v >= 0 {
      AuxMember(x, random, tag, v);
      var k :| 0 <= k < |aux| && aux[k] == Aux(tag, v);
      LookupAt(aux, k);
    } else {
      forall k | 0 <= k < |aux| ensures aux[k].tag != tag { AuxMember(x, random, aux[k].tag, aux[k].value); }
      LookupNone(aux, tag);
    }
  }

  lemma {:induction false} RandomThere(m: seq<Octet>, top: nat, i: nat, argv: seq<CString>, envp: seq<CString>,
                                       aux: seq<Aux>, bytes: seq<Octet>, r: nat)
    requires Laid(m, top, i, argv, envp, aux, bytes) && r == |m| - |Packed(argv)| - |Packed(envp)| - |bytes|
    ensures m[r..r + |bytes|] == bytes
  {
    TailSplit(m, r, bytes, Packed(argv) + Packed(envp));
  }

  lemma {:induction false} StartupFound(m: seq<Octet>, top: nat, rsp: nat, i: nat, argv: seq<CString>,
                                        envp: seq<CString>, aux: seq<Aux>, bytes: seq<Octet>, w: Read<Startup>)
    requires Laid(m, top, i, argv, envp, aux, bytes) && Terminated(aux) && rsp == top - (|m| - i)
    requires w == Walk(m, top - |m|, rsp)
    ensures w.Got? && w.value == Startup(|argv|, argv, envp, aux)
  {
    WalkRoundTrip(m, top, rsp, i, argv, envp, aux, bytes, i + 8 * (|argv| + |envp| + 3) + 16 * |aux|);
  }

  /** A program that walks the stack laid out for an image finds its arguments,
      its environment and, under any tag, the loader's value. */
  lemma {:induction false} ProgramSees(m: seq<Octet>, top: nat, rsp: nat, i: nat, argv: seq<CString>,
                                       envp: seq<CString>, x: Image, random: nat, aux: seq<Aux>, bytes: seq<Octet>,
                                       w: Read<Startup>, tag: nat)
    requires aux == AuxVector(x, random) && Laid(m, top, i, argv, envp, aux, bytes) && rsp == top - (|m| - i)
    requires w == Walk(m, top - |m|, rsp)
    ensures w.Got? && w.value == Startup(|argv|, argv, envp, aux)
    ensures Lookup(w.value.aux, tag) == Entry(x, random, tag)
  {
    AuxTerminated(x, random);
    StartupFound(m, top, rsp, i, argv, envp, aux, bytes, w);
    AuxLookup(x, random, tag);
  }

  /** The address under AT_RANDOM is where the random bytes are. */
  lemma {:induction false} RandomSeen(m: seq<Octet>, top: nat, i: nat, argv: seq<CString>, envp: seq<CString>,
                                      x: Image, random: nat, aux: seq<Aux>, bytes: seq<Octet>)
    requires aux == AuxVector(x, random) && Laid(m, top, i, argv, envp, aux, bytes)
    requires random == top - |Packed(argv)| - |Packed(envp)| - |bytes|
    ensures var k := Lookup(aux, 25) - (top - |m|); 0 <= k <= k + |bytes| <= |m| && m[k..k + |bytes|] == bytes
  {
    AuxLookup(x, random, 25);
    RandomThere(m, top, i, argv, envp, aux, bytes, |m| - |Packed(argv)| - |Packed(envp)| - |bytes|);
  }

  /** The psABI promises a program a stack pointer aligned to 16.  It gets one, if
      the two views of the stack's top agree modulo 16, if and only if the
      strings of argv and envp together are odd in number; otherwise it is off
      by 8. */
  lemma {:induction false} AlignedIff(b: Builder, argv: seq<CString>, envp: seq<CString>, x: Image, rsp: int)
    requires b.kernelTop % 16 == b.userTop % 16 && rsp == b.userTop - b.Needed(argv, envp, x)
    ensures rsp % 16 == if (|argv| + |envp|) % 2 == 1 then 0 else 8
  {
    var above := b.Above(argv, envp);
    assert (b.kernelTop - above) % 16 == 0;
    OffBy(b.userTop - above, |argv| + |envp|, |AuxVector(x, 0)|);
  }

  lemma OffBy(a: int, n: nat, k: nat)
    requires a % 16 == 0
    ensures (a - (8 * (n + 3) + 16 * k)) % 16 == if n % 2 == 1 then 0 else 8
  {
    if n % 2 == 1 {
      assert a - (8 * (n + 3) + 16 * k) == 16 * (a / 16 - (n + 3) / 2 - k);
    } else {
      assert a - (8 * (n + 3) + 16 * k) == 16 * (a / 16 - n / 2 - 2 - k) + 8;
    }
  }

  /** So a program with one argument and one environment string gets a
      misaligned one. */
  lemma {:induction false} Misaligned(b: Builder, x: Image, rsp: int)
    requires b.kernelTop % 16 == b.userTop % 16 && rsp == b.userTop - b.Needed([[97]], [[98]], x)
    ensures rsp % 16 != 0
  {
    AlignedIff(b, [[97]], [[98]], x, rsp);
  }
}
