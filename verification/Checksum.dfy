/** The Internet checksum (section 2 of RFC 1071): the add-with-carry routine,
    the 32-bit sum with its folding loop, and their use for TCP segments. */
module Checksum {

  type Octet = x: int | 0 <= x < 256

  /** The 16-bit words of the data, low byte first, added up; an odd last byte is a word. */
  function Sum(b: seq<Octet>): nat {
    if |b| == 0 then 0 else if |b| == 1 then b[0] else b[0] + 256 * b[1] + Sum(b[2..])
  }

  /** The same words in network order. */
  function NetSum(b: seq<Octet>): nat {
    if |b| == 0 then 0 else if |b| == 1 then 256 * b[0] else 256 * b[0] + b[1] + NetSum(b[2..])
  }

  /** The one's complement sum: the value from 1 to 65535 that equals `s`
      modulo 65535, and 0 for 0. */
  function Ones(s: nat): (r: nat)
    ensures r <= 65535
  {
    if s == 0 then 0 else (s - 1) % 65535 + 1
  }

  function Complement(v: nat): nat
    requires v <= 65535
  {
    65535 - v
  }

  lemma {:induction false} OnesUnique(s: nat, v: nat, k: int)
    requires v <= 65535 && s == v + 65535 * k && (s == 0 <==> v == 0)
    ensures Ones(s) == v
  {
    if s > 0 { assert s - 1 == 65535 * k + (v - 1); }
  }

  lemma {:induction false} OnesSame(s: nat, t: nat, k: int)
    requires s == t + 65535 * k && (s == 0 <==> t == 0)
    ensures Ones(s) == Ones(t)
  {
    if t > 0 {
      var q := (t - 1) / 65535;
      OnesUnique(s, Ones(t), q + k);
    }
  }

  /** `sum = (sum & 0xFFFF) + (sum >> 16)` keeps the one's complement sum. */
  lemma {:induction false} FoldKeeps(s: nat)
    ensures Ones(s % 65536 + s / 65536) == Ones(s)
  {
    OnesSame(s, s % 65536 + s / 65536, s / 65536);
  }

  lemma {:induction false} SumSplit(a: seq<Octet>, b: seq<Octet>)
    requires |a| % 2 == 0
    ensures Sum(a + b) == Sum(a) + Sum(b)
  {
    if a == [] {
      assert a + b == b;
    } else {
      SumSplit(a[2..], b);
      assert (a + b)[2..] == a[2..] + b;
    }
  }

  lemma {:induction false} SumBound(b: seq<Octet>)
    ensures Sum(b) <= 65535 * ((|b| + 1) / 2)
  {
    if |b| > 1 { SumBound(b[2..]); }
  }

  function Word(b: seq<Octet>, i: nat): nat
    requires i + 2 <= |b|
  {
    var high: int := b[i + 1];
    b[i] + 256 * high
  }

  lemma {:induction false} SumStep(b: seq<Octet>, i: nat)
    requires i <= |b|
    ensures Sum(b[i..]) == if i == |b| then 0 else if i + 1 == |b| then b[i] else Word(b, i) + Sum(b[i + 2..])
  {
    if i + 2 <= |b| { assert b[i..][2..] == b[i + 2..]; }
  }

  /** Adding a word in 16 bits and adding the carry back in does not overflow
      and keeps the one's complement sum. */
  lemma {:induction false} CarryKeeps(sum: nat, word: nat, rest: nat)
    requires sum < 65536 && word < 65536
    ensures var s := sum + word; s % 65536 + s / 65536 < 65536 && Ones(s % 65536 + s / 65536 + rest) == Ones(s + rest)
  {
    var s := sum + word;
    OnesSame(s + rest, s % 65536 + s / 65536 + rest, s / 65536);
  }

  /** Two folds are enough for what the loop can leave. */
  lemma {:induction false} TwoFolds(sum: nat)
    requires sum < 65536 + 256
    ensures var s := sum % 65536 + sum / 65536; s % 65536 + s / 65536 == Ones(sum)
  {
    FoldKeeps(sum);
    var s := sum % 65536 + sum / 65536;
    OnesUnique(s, s, 0);
  }

  /** `checksum16_adc`: the complement of the one's complement sum, for data of any length. */
  method Adc(data: seq<Octet>) returns (r: nat)
    ensures r == Complement(Ones(Sum(data)))
  {
    var sum: nat, i := 0, 0;
    assert data[0..] == data;
    while i + 2 <= |data|
      invariant i <= |data| && sum < 65536 && Ones(sum + Sum(data[i..])) == Ones(Sum(data))
    {
      SumStep(data, i);
      CarryKeeps(sum, Word(data, i), Sum(data[i + 2..]));
      sum := sum + Word(data, i);
      sum := sum % 65536 + sum / 65536;
      i := i + 2;
    }
    SumStep(data, i);
    if i < |data| { sum := sum + data[i]; }
    TwoFolds(sum);
    sum := sum % 65536 + sum / 65536;
    sum := sum % 65536 + sum / 65536;
    r := Complement(sum);
  }

  lemma {:induction false} Wraps(exact: nat, word: nat)
    ensures (exact % 0x1_0000_0000 + word) % 0x1_0000_0000 == (exact + word) % 0x1_0000_0000
  {
  }

  lemma {:induction false} RawStep(data: seq<Octet>, i: nat, exact: nat, sum: nat)
    requires i + 2 <= |data| && exact + Sum(data[i..]) == Sum(data) && sum == exact % 0x1_0000_0000
    ensures exact + Word(data, i) + Sum(data[i + 2..]) == Sum(data)
    ensures (sum + Word(data, i)) % 0x1_0000_0000 == (exact + Word(data, i)) % 0x1_0000_0000
  {
    SumStep(data, i);
    Wraps(exact, Word(data, i));
  }

  /** `checksum16_raw`: the plain sum in 32 bits. */
  method Raw(data: seq<Octet>) returns (sum: nat)
    ensures sum == Sum(data) % 0x1_0000_0000
    ensures |data| <= 131072 ==> sum == Sum(data)
  {
    sum := 0;
    var i := 0;
    ghost var exact: nat := 0;
    assert data[0..] == data;
    while i + 2 <= |data|
      invariant i <= |data| && exact + Sum(data[i..]) == Sum(data) && sum == exact % 0x1_0000_0000
    {
      RawStep(data, i, exact, sum);
      exact := exact + Word(data, i);
      sum := (sum + Word(data, i)) % 0x1_0000_0000;
      i := i + 2;
    }
    sum := RawLast(data, i, sum, exact);
    RawExact(data, sum);
  }

  /** The odd byte at the end, if there is one. */
  method RawLast(data: seq<Octet>, i: nat, sum: nat, ghost exact: nat) returns (r: nat)
    requires i <= |data| < i + 2 && exact + Sum(data[i..]) == Sum(data) && sum == exact % 0x1_0000_0000
    ensures r == Sum(data) % 0x1_0000_0000
  {
    r := sum;
    SumStep(data, i);
    if i < |data| {
      Wraps(exact, data[i]);
      r := (sum + data[i]) % 0x1_0000_0000;
    }
  }

  lemma {:induction false} RawExact(data: seq<Octet>, sum: nat)
    requires sum == Sum(data) % 0x1_0000_0000
    ensures |data| <= 131072 ==> sum == Sum(data)
  {
    SumBound(data);
  }

  /** The folding loop. */
  method Fold(s: nat) returns (sum: nat)
    ensures sum == Ones(s)
  {
    sum := s;
    while sum / 65536 != 0
      invariant Ones(sum) == Ones(s)
      decreases sum
    {
      FoldKeeps(sum);
      sum := sum % 65536 + sum / 65536;
    }
    OnesUnique(sum, sum, 0);
  }

  /** The checksum of a segment: pseudo header, header and payload summed
      apart in 32 bits, for segments within the 16-bit length field. */
  method Segment(pseudo: seq<Octet>, header: seq<Octet>, payload: seq<Octet>) returns (r: nat)
    requires |pseudo| == 12 && |header| % 2 == 0 && |header| + |payload| <= 65535
    ensures r == Complement(Ones(Sum(pseudo + header + payload)))
  {
    var a := Raw(pseudo);
    var b := Raw(header);
    var c := Raw(payload);
    SegmentSum(pseudo, header, payload);
    var sum := (a + b + c) % 0x1_0000_0000;
    sum := Fold(sum);
    r := Complement(sum);
  }

  /** The pieces can be summed apart, and their sum fits in 32 bits. */
  lemma {:induction false} SegmentSum(pseudo: seq<Octet>, header: seq<Octet>, payload: seq<Octet>)
    requires |pseudo| == 12 && |header| % 2 == 0 && |header| + |payload| <= 65535
    ensures Sum(pseudo + header + payload) == Sum(pseudo) + Sum(header) + Sum(payload) < 0x1_0000_0000
  {
    SumBound(pseudo + header + payload);
    SumSplit(pseudo, header);
    SumSplit(pseudo + header, payload);
  }

  /** `data` with the word at `k` set to `v`, low byte first. */
  function WithWord(data: seq<Octet>, k: nat, v: nat): seq<Octet>
    requires k + 2 <= |data| && v <= 65535
  {
    data[k := v % 256][k + 1 := v / 256]
  }

  lemma {:induction false} SumWithWord(data: seq<Octet>, k: nat, v: nat)
    requires k % 2 == 0 && k + 2 <= |data| && v <= 65535 && data[k] == 0 == data[k + 1]
    ensures Sum(WithWord(data, k, v)) == Sum(data) + v
    decreases k
  {
    if k == 0 {
      assert WithWord(data, k, v)[2..] == data[2..];
    } else {
      SumWithWord(data[2..], k - 2, v);
      assert WithWord(data, k, v)[2..] == WithWord(data[2..], k - 2, v);
    }
  }

  /** Data with its checksum filled in sums to 0xFFFF. */
  lemma {:induction false} FilledInSumsToOnes(data: seq<Octet>, k: nat)
    requires k % 2 == 0 && k + 2 <= |data| && data[k] == 0 == data[k + 1]
    ensures Ones(Sum(WithWord(data, k, Complement(Ones(Sum(data)))))) == 0xFFFF
  {
    var s := Sum(data);
    var v := Ones(s);
    SumWithWord(data, k, Complement(v));
    var q := if s == 0 then 0 else (s - 1) / 65535;
    assert s == v + 65535 * q;
    OnesUnique(s + Complement(v), 65535, q);
  }

  function Swap(v: nat): nat
    requires v <= 65535
  {
    v % 256 * 256 + v / 256
  }

  lemma {:induction false} NetSumIsScaled(b: seq<Octet>) returns (k: int)
    ensures 256 * Sum(b) == NetSum(b) + 65535 * k
    ensures Sum(b) == 0 <==> NetSum(b) == 0
  {
    if |b| < 2 {
      k := 0;
    } else {
      k := NetSumIsScaled(b[2..]);
      k := k + b[1];
    }
  }

  /** The byte order of the machine does not matter: the sum of the words in
      network order is the sum of the words as loaded, with its bytes swapped. */
  lemma {:induction false} ByteOrder(b: seq<Octet>)
    ensures Ones(NetSum(b)) == Swap(Ones(Sum(b)))
  {
    var k := NetSumIsScaled(b);
    var v := Ones(Sum(b));
    var q := if Sum(b) == 0 then 0 else (Sum(b) - 1) / 65535;
    assert Sum(b) == v + 65535 * q;
    assert 256 * v == Swap(v) + 65535 * (v / 256);
    OnesUnique(NetSum(b), Swap(v), 256 * q + v / 256 - k);
  }
}
