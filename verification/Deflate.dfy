/** A DEFLATE writer, from sections 3.1.1 and 3.2.2 to 3.2.7 of RFC 1951, and
    the proof that reading undoes it: what is written as blocks of tokens is
    read back, for every choice of blocks, codes and tokens. */
module Deflate {
  import opened BitMath
  import opened Canonical
  import opened Rfc1951

  // ---- pieces of a stream ------------------------------------------------------------

  /** The bits `w` stand at position `p`. */
  ghost predicate At(bits: seq<Bit>, p: nat, w: seq<Bit>) {
    p <= |bits| && w <= bits[p..]
  }

  lemma {:induction false} AtBoth(bits: seq<Bit>, p: nat, a: seq<Bit>, b: seq<Bit>)
    requires At(bits, p, a + b)
    ensures At(bits, p, a) && At(bits, p + |a|, b) && p + |a| + |b| <= |bits|
  {
    var rest := bits[p..];
    assert rest[..|a + b|] == a + b;
    assert bits[p + |a|..] == rest[|a|..];
  }

  lemma {:induction false} AtOne(bits: seq<Bit>, p: nat, b: Bit)
    requires At(bits, p, [b])
    ensures p < |bits| && bits[p] == b
  {
    assert bits[p..][0] == b;
  }

  lemma {:induction false} AtFits(bits: seq<Bit>, p: nat, w: seq<Bit>)
    requires At(bits, p, w)
    ensures p + |w| <= |bits|
  {
  }

  lemma {:induction false} AtStart(w: seq<Bit>, more: seq<Bit>)
    ensures At(w + more, 0, w)
  {
    assert (w + more)[0..] == w + more;
  }

  // ---- bit strings one after the other -------------------------------------------------

  function Concat(ws: seq<seq<Bit>>): seq<Bit> {
    if ws == [] then [] else Concat(ws[..|ws| - 1]) + ws[|ws| - 1]
  }

  lemma {:induction false} Regroup(a: seq<Bit>, b: seq<Bit>, c: seq<Bit>, d: seq<Bit>)
    ensures a + (b + c) + d == a + (b + (c + d))
  {
  }

  lemma {:induction false} ConcatSplit(ws: seq<seq<Bit>>, k: nat) returns (rest: seq<Bit>)
    requires k < |ws|
    ensures Concat(ws) == Concat(ws[..k]) + (ws[k] + rest)
    decreases |ws|
  {
    var n := |ws| - 1;
    if k == n {
      rest := [];
      assert ws[n] + [] == ws[n];
    } else {
      var front := ws[..n];
      var r := ConcatSplit(front, k);
      assert front[..k] == ws[..k];
      Regroup(Concat(ws[..k]), ws[k], r, ws[n]);
      rest := r + ws[n];
    }
  }

  /** Each string stands where those before it end. */
  lemma {:induction false} ConcatAt(bits: seq<Bit>, p: nat, ws: seq<seq<Bit>>, k: nat, q: nat)
    requires k < |ws| && At(bits, p, Concat(ws)) && q == p + |Concat(ws[..k])|
    ensures At(bits, q, ws[k])
  {
    var rest := ConcatSplit(ws, k);
    AtBoth(bits, p, Concat(ws[..k]), ws[k] + rest);
    AtBoth(bits, q, ws[k], rest);
  }

  lemma {:induction false} ConcatNext(ws: seq<seq<Bit>>, k: nat)
    requires k < |ws|
    ensures |Concat(ws[..k + 1])| == |Concat(ws[..k])| + |ws[k]|
  {
    assert ws[..k + 1][..k] == ws[..k];
  }

  /** A request to read on.  What a reader does is only brought in where one is named. */
  predicate Asked<S>(p: nat, s: S) {
    true
  }

  // ---- numbers and codes -----------------------------------------------------------------

  /** A data element: least significant bit first. */
  function NumberBits(v: nat, n: nat): (w: seq<Bit>)
    ensures |w| == n
  {
    seq(n, i requires 0 <= i < n => Shr(v, i) % 2)
  }

  lemma {:induction false} NumberFirst(v: nat, n: nat)
    requires n > 0
    ensures NumberBits(v, n) == [v % 2] + NumberBits(v / 2, n - 1)
  {
    var w := [v % 2] + NumberBits(v / 2, n - 1);
    forall i | 0 <= i < n ensures NumberBits(v, n)[i] == w[i] {
      if i > 0 { ShrInner(v, i); }
    }
  }

  lemma {:induction false} LsbBack(bits: seq<Bit>, p: nat, v: nat, n: nat)
    requires v < Pow2(n) && At(bits, p, NumberBits(v, n))
    ensures Lsb(bits, p, n) == v
    decreases n
  {
    if n > 0 {
      NumberFirst(v, n);
      AtBoth(bits, p, [v % 2], NumberBits(v / 2, n - 1));
      AtOne(bits, p, v % 2);
      LsbBack(bits, p + 1, v / 2, n - 1);
    }
  }

  /** The same, for bits known to be those of a number. */
  lemma {:induction false} LsbOf(bits: seq<Bit>, p: nat, w: seq<Bit>, v: nat, n: nat)
    requires w == NumberBits(v, n) && v < Pow2(n) && At(bits, p, w)
    ensures |w| == n && p + n <= |bits| && Lsb(bits, p, n) == v
  {
    LsbBack(bits, p, v, n);
  }

  lemma {:induction false} NumberBack(bits: seq<Bit>, p: nat, v: nat, n: nat)
    requires v < Pow2(n) && At(bits, p, NumberBits(v, n))
    ensures Number(bits, p, n) == Got(v, p + n)
  {
    LsbBack(bits, p, v, n);
  }

  /** A Huffman code: most significant bit first. */
  function CodeBits(c: nat, n: nat): (w: seq<Bit>)
    ensures |w| == n
    decreases n
  {
    if n == 0 then [] else CodeBits(c / 2, n - 1) + [c % 2]
  }

  lemma {:induction false} MsbBack(bits: seq<Bit>, p: nat, c: nat, n: nat)
    requires c < Pow2(n) && At(bits, p, CodeBits(c, n))
    ensures Msb(bits, p, n) == c
    decreases n
  {
    if n > 0 {
      AtBoth(bits, p, CodeBits(c / 2, n - 1), [c % 2]);
      MsbBack(bits, p, c / 2, n - 1);
      AtOne(bits, p + (n - 1), c % 2);
    }
  }

  /** A code that can be written: not over-subscribed. */
  ghost predicate Sound(lens: seq<nat>) {
    ValidLens(lens) && Kraft(lens)
  }

  /** The code lengths of a code that is not over-subscribed. */
  type Coding = lens: seq<nat> | Sound(lens) ghost witness []

  ghost predicate Usable(lens: seq<nat>, m: nat) {
    m < |lens| && lens[m] > 0
  }

  function SymbolBits(lens: seq<nat>, m: nat): (w: seq<Bit>)
    requires m < |lens|
    ensures |w| == lens[m]
  {
    CodeBits(Code(lens, m), lens[m])
  }

  lemma {:induction false} SymbolBack(bits: seq<Bit>, p: nat, lens: Coding, m: nat)
    requires Usable(lens, m) && At(bits, p, SymbolBits(lens, m))
    ensures DecodeSymbol(lens, bits, p) == Got(m, p + lens[m])
  {
    FeasibleIsKraft(lens);
    CodeFits(lens, m);
    MsbBack(bits, p, Code(lens, m), lens[m]);
    DecodeCode(lens, bits, p, m);
  }

  // ---- compressed data -----------------------------------------------------------------

  /** A literal, or a match given by its length symbol 257 + z and distance
      symbol d with their extra values. */
  datatype Token = Literal(b: Byte) | Copy(z: nat, x: nat, d: nat, y: nat)

  function TokenLength(t: Token): nat
    requires t.Copy?
  {
    LengthBase(t.z) + t.x
  }

  function TokenDistance(t: Token): nat
    requires t.Copy?
  {
    DistBase(t.d) + t.y
  }

  /** The token can be written with these codes after `size` bytes of output. */
  ghost predicate TokenOk(lit: seq<nat>, dist: seq<nat>, t: Token, size: nat) {
    match t
    case Literal(b) => Usable(lit, b)
    case Copy(z, x, d, y) =>
      && z < 29 && x < Pow2(LengthExtra(z)) && Usable(lit, 257 + z)
      && d < 30 && y < Pow2(DistExtra(d)) && Usable(dist, d)
      && TokenDistance(t) <= size
  }

  function MatchBits(dist: seq<nat>, z: nat, x: nat, d: nat, y: nat): seq<Bit>
    requires d < |dist|
  {
    NumberBits(x, LengthExtra(z)) + (SymbolBits(dist, d) + NumberBits(y, DistExtra(d)))
  }

  function TokenBits(lit: seq<nat>, dist: seq<nat>, t: Token): seq<Bit>
    requires Coded(lit, dist, t)
  {
    match t
    case Literal(b) => SymbolBits(lit, b)
    case Copy(z, x, d, y) => SymbolBits(lit, 257 + z) + MatchBits(dist, z, x, d, y)
  }

  /** The output after the token. */
  function Emit(t: Token, out: seq<Byte>): seq<Byte> {
    match t
    case Literal(b) => out + [b]
    case Copy(_, _, _, _) =>
      if TokenDistance(t) > |out| then out else CopyBack(out, TokenLength(t), TokenDistance(t))
  }

  /** What the tokens stand for after `out`. */
  function Expand(tokens: seq<Token>, out: seq<Byte>): seq<Byte> {
    if tokens == [] then out else Emit(tokens[|tokens| - 1], Expand(tokens[..|tokens| - 1], out))
  }

  /** Each token can be written where it stands, and so can the end of the block. */
  ghost predicate TokensOk(lit: seq<nat>, dist: seq<nat>, tokens: seq<Token>, out: seq<Byte>) {
    && Usable(lit, 256)
    && forall k | 0 <= k < |tokens| :: TokenOk(lit, dist, tokens[k], |Expand(tokens[..k], out)|)
  }

  predicate Coded(lit: seq<nat>, dist: seq<nat>, t: Token) {
    match t
    case Literal(b) => b < |lit|
    case Copy(z, _, d, _) => 257 + z < |lit| && d < |dist|
  }

  /** The bits of each token. */
  function TokensBits(lit: seq<nat>, dist: seq<nat>, tokens: seq<Token>): (ws: seq<seq<Bit>>)
    requires forall k | 0 <= k < |tokens| :: Coded(lit, dist, tokens[k])
    ensures |ws| == |tokens|
  {
    seq(|tokens|, k requires 0 <= k < |tokens| => TokenBits(lit, dist, tokens[k]))
  }

  lemma {:induction false} OkIsCoded(lit: seq<nat>, dist: seq<nat>, tokens: seq<Token>, out: seq<Byte>)
    requires TokensOk(lit, dist, tokens, out)
    ensures (forall k | 0 <= k < |tokens| :: Coded(lit, dist, tokens[k])) && 256 < |lit|
  {
    forall k | 0 <= k < |tokens| ensures Coded(lit, dist, tokens[k]) {
      assert TokenOk(lit, dist, tokens[k], |Expand(tokens[..k], out)|);
    }
  }

  /** The tokens and the end-of-block symbol. */
  ghost function BlockBits(lit: seq<nat>, dist: seq<nat>, tokens: seq<Token>, out: seq<Byte>): seq<Bit>
    requires TokensOk(lit, dist, tokens, out)
  {
    OkIsCoded(lit, dist, tokens, out);
    Concat(TokensBits(lit, dist, tokens)) + SymbolBits(lit, 256)
  }

  lemma {:induction false} LengthBack(bits: seq<Bit>, p: nat, z: nat, x: nat, n: nat, len: nat)
    requires z < 29 && n == LengthExtra(z) && x < Pow2(n) && At(bits, p, NumberBits(x, n)) && len == LengthBase(z) + x
    ensures p <= |bits| && MatchLength(bits, p, z) == Got(len, p + n)
  {
    NumberBack(bits, p, x, n);
  }

  lemma {:induction false} DistanceOf(bits: seq<Bit>, dist: seq<nat>, p: nat, d: nat, mid: nat, y: nat, end: nat,
                                      far: nat)
    requires p <= |bits| && DecodeSymbol(dist, bits, p) == Got(d, mid) && d < 30
    requires mid <= |bits| && Number(bits, mid, DistExtra(d)) == Got(y, end) && far == DistBase(d) + y
    ensures MatchDistance(bits, dist, p) == Got(far, end)
  {
  }

  lemma {:induction false} DistanceBack(bits: seq<Bit>, dist: Coding, p: nat, d: nat, y: nat, n: nat, mid: nat,
                                        end: nat, far: nat)
    requires d < 30 && n == DistExtra(d) && y < Pow2(n) && Usable(dist, d) && mid == p + dist[d] && end == mid + n
    requires At(bits, p, SymbolBits(dist, d)) && At(bits, mid, NumberBits(y, n)) && far == DistBase(d) + y
    ensures p <= |bits| && MatchDistance(bits, dist, p) == Got(far, end)
  {
    SymbolBack(bits, p, dist, d);
    NumberBack(bits, mid, y, n);
    DistanceOf(bits, dist, p, d, mid, y, end, far);
  }

  /** A match whose length and distance are read. */
  lemma {:induction false} MatchOf(bits: seq<Bit>, dist: seq<nat>, p: nat, z: nat, size: nat, mid: nat, end: nat,
                                   m: Match)
    requires p <= |bits| && z < 29 && MatchLength(bits, p, z) == Got(m.len, mid)
    requires mid <= |bits| && MatchDistance(bits, dist, mid) == Got(m.dist, end) && m.dist <= size
    ensures MatchAt(bits, dist, p, z, size) == Got(m, end)
  {
  }

  lemma {:induction false} ThreeParts(bits: seq<Bit>, p: nat, a: seq<Bit>, b: seq<Bit>, c: seq<Bit>)
    requires At(bits, p, a + (b + c))
    ensures At(bits, p, a) && At(bits, p + |a|, b) && At(bits, p + |a| + |b|, c)
  {
    AtBoth(bits, p, a, b + c);
    AtBoth(bits, p + |a|, b, c);
  }

  lemma {:induction false} MatchRead(bits: seq<Bit>, dist: Coding, p: nat, t: Token, size: nat, n: nat, k: nat,
                                     mid: nat, end: nat, m: Match)
    requires t.Copy? && t.z < 29 && t.d < 30 && n == LengthExtra(t.z) && k == DistExtra(t.d)
    requires t.x < Pow2(n) && t.y < Pow2(k) && Usable(dist, t.d) && mid == p + n && end == mid + dist[t.d] + k
    requires At(bits, p, NumberBits(t.x, n)) && At(bits, mid, SymbolBits(dist, t.d))
    requires At(bits, mid + dist[t.d], NumberBits(t.y, k))
    requires m.len == LengthBase(t.z) + t.x && m.dist == DistBase(t.d) + t.y && m.dist <= size
    ensures MatchAt(bits, dist, p, t.z, size) == Got(m, end)
  {
    LengthBack(bits, p, t.z, t.x, n, m.len);
    DistanceBack(bits, dist, mid, t.d, t.y, k, mid + dist[t.d], end, m.dist);
    MatchOf(bits, dist, p, t.z, size, mid, end, m);
  }

  lemma {:induction false} MatchBack(bits: seq<Bit>, dist: Coding, p: nat, t: Token, size: nat, end: nat, m: Match)
    requires t.Copy? && t.z < 29 && t.x < Pow2(LengthExtra(t.z)) && t.d < 30
    requires t.y < Pow2(DistExtra(t.d)) && Usable(dist, t.d)
    requires m == Match(TokenLength(t), TokenDistance(t)) && m.dist <= size
    requires At(bits, p, MatchBits(dist, t.z, t.x, t.d, t.y)) && end == p + |MatchBits(dist, t.z, t.x, t.d, t.y)|
    ensures MatchAt(bits, dist, p, t.z, size) == Got(m, end)
  {
    var n, k := LengthExtra(t.z), DistExtra(t.d);
    ThreeParts(bits, p, NumberBits(t.x, n), SymbolBits(dist, t.d), NumberBits(t.y, k));
    MatchRead(bits, dist, p, t, size, n, k, p + n, end, m);
  }

  lemma {:induction false} LiteralBack(bits: seq<Bit>, lit: Coding, dist: seq<nat>, p: nat, b: Byte, out: seq<Byte>,
                                       end: nat, next: seq<Byte>)
    requires Usable(lit, b) && At(bits, p, SymbolBits(lit, b)) && end == p + lit[b] && next == out + [b]
    ensures Compressed(bits, lit, dist, p, out) == Compressed(bits, lit, dist, end, next)
  {
    SymbolBack(bits, p, lit, b);
    StepLiteral(bits, lit, dist, p, out, Got(b, end));
  }

  lemma {:induction false} CopyTokenBack(bits: seq<Bit>, lit: Coding, dist: Coding, p: nat, t: Token,
                                         out: seq<Byte>,
                                    mid: nat, end: nat, next: seq<Byte>)
    requires t.Copy? && TokenOk(lit, dist, t, |out|)
    requires At(bits, p, SymbolBits(lit, 257 + t.z)) && mid == p + lit[257 + t.z]
    requires At(bits, mid, MatchBits(dist, t.z, t.x, t.d, t.y))
    requires end == mid + |MatchBits(dist, t.z, t.x, t.d, t.y)|
    requires next == CopyBack(out, TokenLength(t), TokenDistance(t))
    ensures Compressed(bits, lit, dist, p, out) == Compressed(bits, lit, dist, end, next)
  {
    var m := Match(TokenLength(t), TokenDistance(t));
    SymbolBack(bits, p, lit, 257 + t.z);
    MatchBack(bits, dist, mid, t, |out|, end, m);
    StepMatch(bits, lit, dist, p, out, Got(257 + t.z, mid), Got(m, end));
  }

  lemma {:induction false} TokenBack(bits: seq<Bit>, lit: Coding, dist: Coding, p: nat, t: Token, out: seq<Byte>,
                                     end: nat, next: seq<Byte>)
    requires TokenOk(lit, dist, t, |out|) && At(bits, p, TokenBits(lit, dist, t))
    requires end == p + |TokenBits(lit, dist, t)| && next == Emit(t, out)
    ensures end <= |bits| && Compressed(bits, lit, dist, p, out) == Compressed(bits, lit, dist, end, next)
  {
    match t
    case Literal(b) => LiteralBack(bits, lit, dist, p, b, out, end, next);
    case Copy(z, x, d, y) =>
      AtBoth(bits, p, SymbolBits(lit, 257 + z), MatchBits(dist, z, x, d, y));
      CopyTokenBack(bits, lit, dist, p, t, out, p + lit[257 + z], end, next);
  }

  lemma {:induction false} EndBack(bits: seq<Bit>, lit: Coding, dist: seq<nat>, p: nat, out: seq<Byte>)
    requires Usable(lit, 256) && At(bits, p, SymbolBits(lit, 256))
    ensures Compressed(bits, lit, dist, p, out) == Got(out, p + lit[256])
  {
    SymbolBack(bits, p, lit, 256);
  }

  type Decoder = (nat, seq<Byte>) -> Read<seq<Byte>>

  ghost predicate Decodes(read: Decoder, bits: seq<Bit>, lit: seq<nat>, dist: seq<nat>) {
    forall p: nat, out: seq<Byte> {:trigger Asked(p, out)} ::
      Asked(p, out) && p <= |bits| ==> read(p, out) == Compressed(bits, lit, dist, p, out)
  }

  /** Reading compressed data, as a function of the position and of the output so far. */
  ghost function Decoding(bits: seq<Bit>, lit: seq<nat>, dist: seq<nat>): (read: Decoder)
    ensures Decodes(read, bits, lit, dist)
  {
    assert Decodes((p: nat, out: seq<Byte>) => if p <= |bits| then Compressed(bits, lit, dist, p, out) else Truncated,
                   bits, lit, dist);
    var read: Decoder :| Decodes(read, bits, lit, dist);
    read
  }

  lemma {:induction false} DecodingIs(bits: seq<Bit>, lit: seq<nat>, dist: seq<nat>, p: nat, out: seq<Byte>,
                                      r: Read<seq<Byte>>)
    requires p <= |bits| && r == Compressed(bits, lit, dist, p, out)
    ensures Decoding(bits, lit, dist)(p, out) == r
  {
    assert Asked(p, out);
  }

  lemma {:induction false} ExpandNext(tokens: seq<Token>, out: seq<Byte>, k: nat)
    requires k < |tokens|
    ensures Expand(tokens[..k + 1], out) == Emit(tokens[k], Expand(tokens[..k], out))
  {
    assert tokens[..k + 1][..k] == tokens[..k];
  }

  lemma {:induction false} TokenStep(bits: seq<Bit>, lit: Coding, dist: Coding, t: Token, p: nat, out: seq<Byte>,
                                     end: nat, next: seq<Byte>)
    requires TokenOk(lit, dist, t, |out|) && At(bits, p, TokenBits(lit, dist, t))
    requires end == p + |TokenBits(lit, dist, t)| && next == Emit(t, out)
    ensures Decoding(bits, lit, dist)(p, out) == Decoding(bits, lit, dist)(end, next)
  {
    TokenBack(bits, lit, dist, p, t, out, end, next);
    var r := Compressed(bits, lit, dist, p, out);
    DecodingIs(bits, lit, dist, p, out, r);
    DecodingIs(bits, lit, dist, end, next, r);
  }

  /** Where reading has come after `k` tokens, and the output then. */
  lemma {:induction false} NextToken(bits: seq<Bit>, lit: Coding, dist: Coding, p: nat, tokens: seq<Token>,
                                     out: seq<Byte>, ws: seq<seq<Bit>>, k: nat, q: nat, so: seq<Byte>, end: nat,
                                     next: seq<Byte>)
    requires TokensOk(lit, dist, tokens, out) && k < |tokens|
    requires forall j | 0 <= j < |tokens| :: Coded(lit, dist, tokens[j])
    requires ws == TokensBits(lit, dist, tokens) && At(bits, p, Concat(ws))
    requires q == p + |Concat(ws[..k])| && so == Expand(tokens[..k], out)
    requires end == p + |Concat(ws[..k + 1])| && next == Expand(tokens[..k + 1], out)
    ensures Decoding(bits, lit, dist)(q, so) == Decoding(bits, lit, dist)(end, next)
  {
    ConcatAt(bits, p, ws, k, q);
    ConcatNext(ws, k);
    ExpandNext(tokens, out, k);
    assert TokenOk(lit, dist, tokens[k], |so|);
    TokenStep(bits, lit, dist, tokens[k], q, so, end, next);
  }

  /** The tokens are read one after the other. */
  lemma {:induction false} TokensRead(bits: seq<Bit>, lit: Coding, dist: Coding, p: nat, tokens: seq<Token>,
                                      out: seq<Byte>, ws: seq<seq<Bit>>, k: nat, q: nat, so: seq<Byte>)
    requires TokensOk(lit, dist, tokens, out) && k <= |tokens|
    requires forall j | 0 <= j < |tokens| :: Coded(lit, dist, tokens[j])
    requires ws == TokensBits(lit, dist, tokens) && At(bits, p, Concat(ws))
    requires q == p + |Concat(ws[..k])| && so == Expand(tokens[..k], out)
    ensures Decoding(bits, lit, dist)(p, out) == Decoding(bits, lit, dist)(q, so)
    decreases k
  {
    if k > 0 {
      var start, before := p + |Concat(ws[..k - 1])|, Expand(tokens[..k - 1], out);
      TokensRead(bits, lit, dist, p, tokens, out, ws, k - 1, start, before);
      NextToken(bits, lit, dist, p, tokens, out, ws, k - 1, start, before, q, so);
    }
  }

  lemma {:induction false} EndStep(bits: seq<Bit>, lit: Coding, dist: seq<nat>, p: nat, out: seq<Byte>, end: nat)
    requires Usable(lit, 256) && At(bits, p, SymbolBits(lit, 256)) && end == p + lit[256]
    ensures Decoding(bits, lit, dist)(p, out) == Got(out, end)
  {
    EndBack(bits, lit, dist, p, out);
    DecodingIs(bits, lit, dist, p, out, Got(out, end));
  }

  lemma {:induction false} BlockParts(bits: seq<Bit>, lit: seq<nat>, dist: seq<nat>, p: nat, tokens: seq<Token>,
                                      out: seq<Byte>, w: seq<Bit>) returns (ws: seq<seq<Bit>>)
    requires TokensOk(lit, dist, tokens, out) && w == BlockBits(lit, dist, tokens, out) && At(bits, p, w)
    ensures (forall j | 0 <= j < |tokens| :: Coded(lit, dist, tokens[j])) && ws == TokensBits(lit, dist, tokens)
    ensures At(bits, p, Concat(ws)) && At(bits, p + |Concat(ws)|, SymbolBits(lit, 256))
    ensures |w| == |Concat(ws)| + lit[256]
  {
    OkIsCoded(lit, dist, tokens, out);
    ws := TokensBits(lit, dist, tokens);
    AtBoth(bits, p, Concat(ws), SymbolBits(lit, 256));
  }

  lemma {:induction false} TokensAll(bits: seq<Bit>, lit: Coding, dist: Coding, p: nat, tokens: seq<Token>,
                                     out: seq<Byte>, ws: seq<seq<Bit>>, q: nat, so: seq<Byte>)
    requires TokensOk(lit, dist, tokens, out)
    requires forall j | 0 <= j < |tokens| :: Coded(lit, dist, tokens[j])
    requires ws == TokensBits(lit, dist, tokens) && At(bits, p, Concat(ws))
    requires q == p + |Concat(ws)| && so == Expand(tokens, out)
    ensures Decoding(bits, lit, dist)(p, out) == Decoding(bits, lit, dist)(q, so)
  {
    var n := |tokens|;
    assert ws[..n] == ws && tokens[..n] == tokens;
    TokensRead(bits, lit, dist, p, tokens, out, ws, n, q, so);
  }

  /** Compressed data reads back as what its tokens stand for. */
  lemma {:induction false} TokensBack(bits: seq<Bit>, lit: Coding, dist: Coding, p: nat, tokens: seq<Token>,
                                      out: seq<Byte>, w: seq<Bit>, all: seq<Byte>, end: nat, r: Read<seq<Byte>>)
    requires TokensOk(lit, dist, tokens, out) && w == BlockBits(lit, dist, tokens, out) && At(bits, p, w)
    requires all == Expand(tokens, out) && end == p + |w| && r == Compressed(bits, lit, dist, p, out)
    ensures r == Got(all, end)
  {
    var ws := BlockParts(bits, lit, dist, p, tokens, out, w);
    var q := p + |Concat(ws)|;
    DecodingIs(bits, lit, dist, p, out, r);
    TokensAll(bits, lit, dist, p, tokens, out, ws, q, all);
    EndStep(bits, lit, dist, q, all, end);
  }

  // ---- stored data ----------------------------------------------------------------------

  function Zeros(n: nat): (w: seq<Bit>)
    ensures |w| == n
  {
    seq(n, _ => 0)
  }

  /** Bytes in order, each from its low bit up. */
  function OctetBits(x: seq<Byte>): (w: seq<Bit>)
    ensures |w| == 8 * |x|
  {
    if x == [] then [] else NumberBits(x[0], 8) + OctetBits(x[1..])
  }

  lemma {:induction false} OctetsBack(bits: seq<Bit>, p: nat, x: seq<Byte>)
    requires At(bits, p, OctetBits(x))
    ensures BytesAt(bits, p, |x|) == x
    decreases |x|
  {
    if x != [] {
      AtBoth(bits, p, NumberBits(x[0], 8), OctetBits(x[1..]));
      Pow2Eight();
      LsbBack(bits, p, x[0], 8);
      OctetsBack(bits, p + 8, x[1..]);
      assert [x[0]] + x[1..] == x;
    }
  }

  /** A stored block of at most 65535 bytes, whose header ends at bit `p`. */
  function StoredBits(x: seq<Byte>, p: nat): seq<Bit>
    requires |x| <= 0xFFFF
  {
    Zeros(Align(p) - p) + (NumberBits(|x|, 16) + (NumberBits(0xFFFF - |x|, 16) + OctetBits(x)))
  }

  lemma {:induction false} Pow2Sixteen()
    ensures Pow2(16) == 0x1_0000
  {
    Pow2Eight();
    assert Pow2(12) == 16 * Pow2(8);
  }

  lemma {:induction false} StoredParts(bits: seq<Bit>, p: nat, x: seq<Byte>, q: nat)
    requires |x| <= 0xFFFF && q == Align(p) && At(bits, p, StoredBits(x, p))
    ensures At(bits, q, NumberBits(|x|, 16)) && At(bits, q + 16, NumberBits(0xFFFF - |x|, 16))
    ensures At(bits, q + 32, OctetBits(x)) && p + |StoredBits(x, p)| == q + 32 + 8 * |x| <= |bits|
  {
    var a, b, c := NumberBits(|x|, 16), NumberBits(0xFFFF - |x|, 16), OctetBits(x);
    AtBoth(bits, p, Zeros(q - p), a + (b + c));
    AtBoth(bits, q, a, b + c);
    AtBoth(bits, q + 16, b, c);
  }

  lemma {:induction false} StoredBack(bits: seq<Bit>, p: nat, x: seq<Byte>, out: seq<Byte>)
    requires |x| <= 0xFFFF && At(bits, p, StoredBits(x, p))
    ensures Stored(bits, p, out) == Got(out + x, p + |StoredBits(x, p)|)
  {
    var q := Align(p);
    StoredParts(bits, p, x, q);
    Pow2Sixteen();
    LsbBack(bits, q, |x|, 16);
    LsbBack(bits, q + 16, 0xFFFF - |x|, 16);
    OctetsBack(bits, q + 32, x);
  }

  // ---- dynamic codes --------------------------------------------------------------------

  /** Where the length of code length symbol `k` is sent. */
  function SentAt(k: nat): nat {
    if k >= 16 then k - 16 else if k == 0 then 3 else if k >= 8 then 4 + 2 * (k - 8) else 3 + 2 * (8 - k)
  }

  lemma SentAtOrder(k: nat, i: nat)
    requires k < 19 && i < 19
    ensures SentAt(k) < 19 && (SentAt(k) == i <==> ClenOrder(i) == k)
  {
  }

  /** The length of each code length symbol is the number sent in its place, or zero. */
  lemma {:induction false} ClenAt(bits: seq<Bit>, p: nat, n: nat, k: nat)
    requires p + 3 * n <= |bits| && n <= 19 && k < 19
    ensures CodeLengthLens(bits, p, n).Got?
    ensures CodeLengthLens(bits, p, n).value[k] == if SentAt(k) < n then Lsb(bits, p + 3 * SentAt(k), 3) else 0
  {
    CodeLengthLensPos(bits, p, n);
    if n > 0 {
      ClenAt(bits, p, n - 1, k);
      CodeLengthLensPos(bits, p, n - 1);
      SentAtOrder(k, n - 1);
    }
  }

  /** The lengths for the code length alphabet, `n` of them sent. */
  function ClenBits(clens: seq<nat>, n: nat): (w: seq<Bit>)
    requires ShortLens(clens) && n <= 19
    ensures |w| == 3 * n
  {
    if n == 0 then [] else ClenBits(clens, n - 1) + NumberBits(clens[ClenOrder(n - 1)], 3)
  }

  lemma {:induction false} ClenSent(bits: seq<Bit>, p: nat, clens: seq<nat>, n: nat, i: nat)
    requires ShortLens(clens) && i < n <= 19 && At(bits, p, ClenBits(clens, n))
    ensures p + 3 * n <= |bits| && Lsb(bits, p + 3 * i, 3) == clens[ClenOrder(i)]
  {
    AtBoth(bits, p, ClenBits(clens, n - 1), NumberBits(clens[ClenOrder(n - 1)], 3));
    if i == n - 1 {
      ThreeBits();
      LsbBack(bits, p + 3 * i, clens[ClenOrder(i)], 3);
    } else {
      ClenSent(bits, p, clens, n - 1, i);
    }
  }

  /** The lengths not sent are zero. */
  ghost predicate AllSent(clens: seq<nat>, n: nat) {
    ShortLens(clens) && forall k | 0 <= k < 19 && SentAt(k) >= n :: clens[k] == 0
  }

  lemma {:induction false} ClensBack(bits: seq<Bit>, p: nat, clens: seq<nat>, n: nat, end: nat)
    requires n <= 19 && AllSent(clens, n) && At(bits, p, ClenBits(clens, n)) && end == p + 3 * n
    ensures CodeLengthLens(bits, p, n) == Got(clens, end)
  {
    CodeLengthLensPos(bits, p, n);
    assert CodeLengthLens(bits, p, n).Got?;
    var r := CodeLengthLens(bits, p, n).value;
    assert |r| == 19;
    forall k | 0 <= k < 19 ensures r[k] == clens[k] {
      ClenAt(bits, p, n, k);
      SentAtOrder(k, SentAt(k));
      if SentAt(k) < n { ClenSent(bits, p, clens, n, SentAt(k)); }
    }
    assert r == clens;
  }

  /** A code length, three to six copies of the one before, three to ten zeros,
      or eleven to 138 zeros. */
  datatype Item = Len(l: nat) | Again(n: nat) | Few(n: nat) | Many(n: nat)

  ghost predicate ItemOk(clens: seq<nat>, i: Item, lens: seq<nat>) {
    match i
    case Len(l) => l <= MAX_BITS && Usable(clens, l)
    case Again(n) => 3 <= n <= 6 && lens != [] && Usable(clens, 16)
    case Few(n) => 3 <= n <= 10 && Usable(clens, 17)
    case Many(n) => 11 <= n <= 138 && Usable(clens, 18)
  }

  function ItemBits(clens: seq<nat>, i: Item): seq<Bit>
    requires |clens| == 19 && ItemCoded(i)
  {
    match i
    case Len(l) => SymbolBits(clens, l)
    case Again(n) => SymbolBits(clens, 16) + NumberBits(n - 3, 2)
    case Few(n) => SymbolBits(clens, 17) + NumberBits(n - 3, 3)
    case Many(n) => SymbolBits(clens, 18) + NumberBits(n - 11, 7)
  }

  /** The code lengths after this item. */
  function ItemLens(i: Item, lens: seq<nat>): (r: seq<nat>)
    ensures |r| >= |lens|
  {
    match i
    case Len(l) => lens + [l]
    case Again(n) => if lens == [] then lens else lens + Repeat(lens[|lens| - 1], n)
    case Few(n) => lens + Repeat(0, n)
    case Many(n) => lens + Repeat(0, n)
  }

  function ItemsLens(items: seq<Item>): seq<nat> {
    if items == [] then [] else ItemLens(items[|items| - 1], ItemsLens(items[..|items| - 1]))
  }

  /** Each item can be written where it stands. */
  ghost predicate ItemsOk(clens: seq<nat>, items: seq<Item>) {
    forall k | 0 <= k < |items| :: ItemOk(clens, items[k], ItemsLens(items[..k]))
  }

  predicate ItemCoded(i: Item) {
    (i.Len? ==> i.l <= MAX_BITS) && (i.Again? || i.Few? ==> i.n >= 3) && (i.Many? ==> i.n >= 11)
  }

  predicate ItemsCoded(items: seq<Item>) {
    forall k | 0 <= k < |items| :: ItemCoded(items[k])
  }

  /** The bits of each item. */
  function ItemsBits(clens: seq<nat>, items: seq<Item>): (ws: seq<seq<Bit>>)
    requires |clens| == 19 && ItemsCoded(items)
    ensures |ws| == |items|
  {
    seq(|items|, k requires 0 <= k < |items| => ItemBits(clens, items[k]))
  }

  lemma {:induction false} OkItemsCoded(clens: seq<nat>, items: seq<Item>)
    requires ItemsOk(clens, items)
    ensures ItemsCoded(items)
  {
    forall k | 0 <= k < |items| ensures ItemCoded(items[k]) { assert ItemOk(clens, items[k], ItemsLens(items[..k])); }
  }

  /** A repeat code and its count. */
  lemma {:induction false} RepeatBack(bits: seq<Bit>, clens: Coding, p: nat, total: nat, lens: seq<nat>,
                                      c: nat, n: nat, w: nat, end: nat, next: seq<nat>)
    requires Usable(clens, c) && 16 <= c < 19 && (c == 16 ==> lens != []) && w == RepeatBits(c)
    requires n >= RepeatBase(c) && n - RepeatBase(c) < Pow2(w) && |lens| + n <= total && LensOk(lens)
    requires At(bits, p, SymbolBits(clens, c) + NumberBits(n - RepeatBase(c), w)) && end == p + clens[c] + w
    requires next == lens + Repeat(if c == 16 then lens[|lens| - 1] else 0, n)
    ensures end <= |bits| && LensOk(next)
    ensures AllLens(bits, clens, p, total, lens) == AllLens(bits, clens, end, total, next)
  {
    AtBoth(bits, p, SymbolBits(clens, c), NumberBits(n - RepeatBase(c), w));
    SymbolBack(bits, p, clens, c);
    NumberBack(bits, p + clens[c], n - RepeatBase(c), w);
    StepRepeat(bits, clens, p, total, lens, Got(c, p + clens[c]), Got(n - RepeatBase(c), end), n, next);
  }

  lemma {:induction false} LenBack(bits: seq<Bit>, clens: Coding, p: nat, total: nat, lens: seq<nat>, l: nat,
                                   end: nat,
                                   next: seq<nat>)
    requires Usable(clens, l) && l <= MAX_BITS && |lens| < total && LensOk(lens)
    requires At(bits, p, SymbolBits(clens, l)) && end == p + clens[l] && next == lens + [l]
    ensures end <= |bits| && LensOk(next)
    ensures AllLens(bits, clens, p, total, lens) == AllLens(bits, clens, end, total, next)
  {
    SymbolBack(bits, p, clens, l);
  }

  lemma {:induction false} ItemBack(bits: seq<Bit>, clens: Coding, p: nat, total: nat, lens: seq<nat>, i: Item,
                                    end: nat,
                                    next: seq<nat>)
    requires |clens| == 19 && ItemOk(clens, i, lens) && LensOk(lens) && |next| <= total
    requires At(bits, p, ItemBits(clens, i)) && end == p + |ItemBits(clens, i)| && next == ItemLens(i, lens)
    ensures end <= |bits| && LensOk(next)
    ensures AllLens(bits, clens, p, total, lens) == AllLens(bits, clens, end, total, next)
  {
    RepeatPowers();
    match i
    case Len(l) => LenBack(bits, clens, p, total, lens, l, end, next);
    case Again(n) => RepeatBack(bits, clens, p, total, lens, 16, n, 2, end, next);
    case Few(n) => RepeatBack(bits, clens, p, total, lens, 17, n, 3, end, next);
    case Many(n) => RepeatBack(bits, clens, p, total, lens, 18, n, 7, end, next);
  }

  lemma RepeatPowers()
    ensures Pow2(2) == 4 && Pow2(3) == 8 && Pow2(7) == 128
  {
    assert Pow2(5) == 32;
  }

  type LensReader = (nat, seq<nat>) -> Read<seq<nat>>

  ghost predicate ReadsLens(read: LensReader, bits: seq<Bit>, clens: seq<nat>, total: nat) {
    forall p: nat, lens: seq<nat> {:trigger Asked(p, lens)} ::
      Asked(p, lens) && p <= |bits| && |lens| <= total && LensOk(lens)
      ==> read(p, lens) == AllLens(bits, clens, p, total, lens)
  }

  /** Reading code lengths, as a function of the position and of the lengths so far. */
  ghost function LensReading(bits: seq<Bit>, clens: seq<nat>, total: nat): (read: LensReader)
    ensures ReadsLens(read, bits, clens, total)
  {
    assert ReadsLens((p: nat, lens: seq<nat>) =>
                       if p <= |bits| && |lens| <= total && LensOk(lens) then AllLens(bits, clens, p, total, lens)
                       else Truncated,
                     bits, clens, total);
    var read: LensReader :| ReadsLens(read, bits, clens, total);
    read
  }

  lemma {:induction false} LensReadingIs(bits: seq<Bit>, clens: seq<nat>, total: nat, p: nat, lens: seq<nat>,
                                         r: Read<seq<nat>>)
    requires p <= |bits| && |lens| <= total && LensOk(lens) && r == AllLens(bits, clens, p, total, lens)
    ensures LensReading(bits, clens, total)(p, lens) == r
  {
    assert Asked(p, lens);
  }

  lemma {:induction false} LensDone(bits: seq<Bit>, clens: seq<nat>, total: nat, p: nat, lens: seq<nat>)
    requires p <= |bits| && |lens| == total && LensOk(lens)
    ensures LensReading(bits, clens, total)(p, lens) == Got(lens, p)
  {
    LensReadingIs(bits, clens, total, p, lens, Got(lens, p));
  }

  lemma {:induction false} LensNext(items: seq<Item>, k: nat)
    requires k < |items|
    ensures ItemsLens(items[..k + 1]) == ItemLens(items[k], ItemsLens(items[..k]))
  {
    assert items[..k + 1][..k] == items[..k];
  }

  lemma {:induction false} LensGrow(items: seq<Item>, k: nat)
    requires k <= |items|
    ensures |ItemsLens(items[..k])| <= |ItemsLens(items)|
    decreases |items| - k
  {
    if k < |items| {
      LensNext(items, k);
      LensGrow(items, k + 1);
    } else {
      assert items[..k] == items;
    }
  }

  lemma {:induction false} LensStayOk(clens: seq<nat>, items: seq<Item>, k: nat)
    requires ItemsOk(clens, items) && k <= |items|
    ensures LensOk(ItemsLens(items[..k]))
    decreases k
  {
    if k > 0 {
      LensStayOk(clens, items, k - 1);
      LensNext(items, k - 1);
      assert ItemOk(clens, items[k - 1], ItemsLens(items[..k - 1]));
      ItemLensOk(clens, items[k - 1], ItemsLens(items[..k - 1]));
    }
  }

  lemma {:induction false} ItemLensOk(clens: seq<nat>, i: Item, lens: seq<nat>)
    requires ItemOk(clens, i, lens) && LensOk(lens)
    ensures LensOk(ItemLens(i, lens))
  {
  }

  lemma {:induction false} ItemStep(bits: seq<Bit>, clens: Coding, total: nat, i: Item, p: nat, lens: seq<nat>,
                                    end: nat, next: seq<nat>)
    requires |clens| == 19 && ItemOk(clens, i, lens) && LensOk(lens) && |next| <= total
    requires At(bits, p, ItemBits(clens, i)) && end == p + |ItemBits(clens, i)| && next == ItemLens(i, lens)
    ensures LensReading(bits, clens, total)(p, lens) == LensReading(bits, clens, total)(end, next)
  {
    ItemBack(bits, clens, p, total, lens, i, end, next);
    var r := AllLens(bits, clens, p, total, lens);
    LensReadingIs(bits, clens, total, p, lens, r);
    LensReadingIs(bits, clens, total, end, next, r);
  }

  lemma {:induction false} NextItem(bits: seq<Bit>, clens: Coding, p: nat, items: seq<Item>, ws: seq<seq<Bit>>,
                                    total: nat, k: nat, q: nat, so: seq<nat>, end: nat, next: seq<nat>)
    requires |clens| == 19 && ItemsOk(clens, items) && ItemsCoded(items) && k < |items|
    requires ws == ItemsBits(clens, items) && At(bits, p, Concat(ws)) && total == |ItemsLens(items)|
    requires q == p + |Concat(ws[..k])| && so == ItemsLens(items[..k])
    requires end == p + |Concat(ws[..k + 1])| && next == ItemsLens(items[..k + 1])
    ensures LensReading(bits, clens, total)(q, so) == LensReading(bits, clens, total)(end, next)
  {
    ConcatAt(bits, p, ws, k, q);
    ConcatNext(ws, k);
    LensNext(items, k);
    LensGrow(items, k + 1);
    LensStayOk(clens, items, k);
    assert ItemOk(clens, items[k], so);
    ItemStep(bits, clens, total, items[k], q, so, end, next);
  }

  /** The items are read one after the other. */
  lemma {:induction false} ItemsRead(bits: seq<Bit>, clens: Coding, p: nat, items: seq<Item>, ws: seq<seq<Bit>>,
                                     total: nat, k: nat, none: seq<nat>, q: nat, so: seq<nat>)
    requires |clens| == 19 && ItemsOk(clens, items) && ItemsCoded(items) && k <= |items| && none == []
    requires ws == ItemsBits(clens, items) && At(bits, p, Concat(ws)) && total == |ItemsLens(items)|
    requires q == p + |Concat(ws[..k])| && so == ItemsLens(items[..k])
    ensures LensReading(bits, clens, total)(p, none) == LensReading(bits, clens, total)(q, so)
    decreases k
  {
    if k > 0 {
      var start, before := p + |Concat(ws[..k - 1])|, ItemsLens(items[..k - 1]);
      ItemsRead(bits, clens, p, items, ws, total, k - 1, none, start, before);
      NextItem(bits, clens, p, items, ws, total, k - 1, start, before, q, so);
    }
  }

  lemma {:induction false} ItemsAll(bits: seq<Bit>, clens: Coding, p: nat, items: seq<Item>, ws: seq<seq<Bit>>,
                                    none: seq<nat>, q: nat, lens: seq<nat>, total: nat)
    requires |clens| == 19 && ItemsOk(clens, items) && ItemsCoded(items) && lens == ItemsLens(items) && total == |lens|
    requires ws == ItemsBits(clens, items) && At(bits, p, Concat(ws)) && q == p + |Concat(ws)| && none == []
    ensures LensReading(bits, clens, total)(p, none) == LensReading(bits, clens, total)(q, lens)
  {
    var n := |items|;
    assert ws[..n] == ws && items[..n] == items;
    ItemsRead(bits, clens, p, items, ws, total, n, none, q, lens);
  }

  lemma {:induction false} AllLensOk(clens: seq<nat>, items: seq<Item>, lens: seq<nat>)
    requires ItemsOk(clens, items) && lens == ItemsLens(items)
    ensures LensOk(lens)
  {
    assert items[..|items|] == items;
    LensStayOk(clens, items, |items|);
  }

  /** Written code lengths read back. */
  lemma {:induction false} ItemsBack(bits: seq<Bit>, clens: Coding, p: nat, items: seq<Item>, w: seq<Bit>,
                                     lens: seq<nat>, total: nat, end: nat, none: seq<nat>, r: Read<seq<nat>>)
    requires |clens| == 19 && ItemsOk(clens, items) && ItemsCoded(items) && lens == ItemsLens(items) && none == []
    requires w == Concat(ItemsBits(clens, items)) && At(bits, p, w) && end == p + |w| && total == |lens|
    requires r == AllLens(bits, clens, p, total, none)
    ensures r == Got(lens, end)
  {
    AllLensOk(clens, items, lens);
    AtFits(bits, p, w);
    LensReadingIs(bits, clens, total, p, none, r);
    ItemsAll(bits, clens, p, items, ItemsBits(clens, items), none, end, lens, total);
    LensDone(bits, clens, total, end, lens);
  }
}
