/** Sequences as lists: what the rings, chains and queues of the kernel share. */
module Lists {

  function One(b: bool): nat {
    if b then 1 else 0
  }

  ghost predicate Distinct<T>(list: seq<T>) {
    forall i, j | 0 <= i < j < |list| :: list[i] != list[j]
  }

  /** The list without its element at `k`. */
  function Without<T>(list: seq<T>, k: nat): (r: seq<T>)
    requires k < |list|
    ensures |r| == |list| - 1
    ensures forall i | 0 <= i < |r| :: r[i] == list[if i < k then i else i + 1]
  {
    list[..k] + list[k + 1..]
  }

  /** The first element of a chain of numbers, or -1. */
  function First(chain: seq<nat>): int {
    if chain == [] then -1 else chain[0]
  }

  /** What follows position `k` of a chain, or -1. */
  function After(chain: seq<nat>, k: nat): int {
    if k + 1 < |chain| then chain[k + 1] else -1
  }

  /** The list without the first occurrence of `d`. */
  function Erase(list: seq<nat>, d: nat): (r: seq<nat>) {
    if list == [] then [] else if list[0] == d then list[1..] else [list[0]] + Erase(list[1..], d)
  }

  lemma {:induction false} TailDistinct(list: seq<nat>)
    requires Distinct(list) && list != []
    ensures Distinct(list[1..]) && list[0] !in list[1..]
    ensures forall e :: e in list <==> e == list[0] || e in list[1..]
  {
    assert list == [list[0]] + list[1..];
    forall i, j | 0 <= i < j < |list[1..]| ensures list[1..][i] != list[1..][j] {
      assert list[i + 1] != list[j + 1];
    }
    forall i | 0 <= i < |list[1..]| ensures list[1..][i] != list[0] {
      assert list[i + 1] != list[0];
    }
  }

  lemma {:induction false} ConsDistinct(x: nat, list: seq<nat>)
    requires Distinct(list) && x !in list
    ensures Distinct([x] + list)
  {
    var r := [x] + list;
    forall i, j | 0 <= i < j < |r| ensures r[i] != r[j] {
      assert r[j] == list[j - 1] && list[j - 1] in list;
      if i > 0 { assert r[i] == list[i - 1]; }
    }
  }

  lemma {:induction false} EraseOk(list: seq<nat>, d: nat)
    requires Distinct(list)
    ensures Distinct(Erase(list, d)) && forall e :: e in Erase(list, d) <==> e in list && e != d
  {
    if list != [] {
      var rest := list[1..];
      TailDistinct(list);
      EraseOk(rest, d);
      if list[0] != d {
        assert list[0] !in Erase(rest, d);
        ConsDistinct(list[0], Erase(rest, d));
      }
    }
  }
}
