/** Whole DEFLATE streams written block by block: reading gives back what they
    stand for. */
module DeflateStream {
  import opened BitMath
  import opened Canonical
  import opened Rfc1951
  import opened Deflate
  import Inflater

  // ---- the header of a dynamic block ------------------------------------------------------

  datatype Header = Header(hlit: nat, hdist: nat, hclen: nat, clens: seq<nat>, items: seq<Item>)

  /** A header RFC 1951 allows: the counts are in range, the lengths left out
      are zero, the items give as many lengths as the counts say, and no code is
      over-subscribed. */
  ghost predicate HeaderOk(h: Header) {
    && 257 <= h.hlit <= MAX_LITERALS && 1 <= h.hdist <= 32 && 4 <= h.hclen <= 19
    && AllSent(h.clens, h.hclen) && Kraft(h.clens)
    && ItemsOk(h.clens, h.items) && |ItemsLens(h.items)| == h.hlit + h.hdist
    && LensOk(ItemsLens(h.items)) && Kraft(ItemsLens(h.items)[..h.hlit]) && Kraft(ItemsLens(h.items)[h.hlit..])
  }

  lemma {:induction false} NoShare(lens: seq<nat>, n: nat)
    requires n <= |lens| && forall i | 0 <= i < n :: lens[i] == 0
    ensures Share(lens, n) == 0
  {
    if n > 0 { NoShare(lens, n - 1); }
  }

  lemma {:induction false} ZeroLens(items: seq<Item>)
    requires items == [Many(138), Many(120)]
    ensures ItemsLens(items) == Repeat(0, 258)
  {
    assert items[..1] == [Many(138)] && items[..1][..0] == [];
    assert ItemsLens(items[..1]) == [] + Repeat(0, 138);
    assert Repeat(0, 138) + Repeat(0, 120) == Repeat(0, 258);
  }

  /** The smallest header: no symbol of either code is used. */
  ghost function BareHeader(): (h: Header)
    ensures HeaderOk(h)
  {
    var items := [Many(138), Many(120)];
    var clens := Repeat(0, 18) + [1];
    BareClens(clens);
    ZeroLens(items);
    BareItems(clens, items);
    var lens := Repeat(0, 258);
    NoShare(lens[..257], 257);
    NoShare(lens[257..], 1);
    Header(257, 1, 4, clens, items)
  }

  lemma {:induction false} BareClens(clens: seq<nat>)
    requires clens == Repeat(0, 18) + [1]
    ensures AllSent(clens, 4) && Kraft(clens) && Usable(clens, 18)
  {
    NoShare(clens, 18);
    assert Share(clens, 19) == Share(clens, 18) + Pow2(14);
    assert Pow2(15) == 2 * Pow2(14);
  }

  lemma {:induction false} BareItems(clens: seq<nat>, items: seq<Item>)
    requires Usable(clens, 18) && items == [Many(138), Many(120)]
    ensures ItemsOk(clens, items)
  {
    forall k | 0 <= k < |items| ensures ItemOk(clens, items[k], ItemsLens(items[..k])) {}
  }

  type GoodHeader = h: Header | HeaderOk(h) ghost witness BareHeader()

  ghost function CodesOf(h: GoodHeader): (c: Codes)
    ensures Deflate.Sound(c.literals) && Deflate.Sound(c.distances)
  {
    Codes(ItemsLens(h.items)[..h.hlit], ItemsLens(h.items)[h.hlit..])
  }

  ghost function LensBits(h: GoodHeader): seq<Bit> {
    OkItemsCoded(h.clens, h.items);
    ClenBits(h.clens, h.hclen) + Concat(ItemsBits(h.clens, h.items))
  }

  /** The three counts in front of the lengths. */
  function CountsBits(n: Counts, lens: seq<Bit>): seq<Bit>
    requires 257 <= n.hlit <= 286 && 1 <= n.hdist <= 32 && 4 <= n.hclen <= 19
  {
    NumberBits(n.hlit - 257, 5) + (NumberBits(n.hdist - 1, 5) + (NumberBits(n.hclen - 4, 4) + lens))
  }

  ghost function CodesBits(h: GoodHeader): seq<Bit> {
    CountsBits(Counts(h.hlit, h.hdist, h.hclen), LensBits(h))
  }

  lemma {:induction false} FourParts(bits: seq<Bit>, p: nat, a: seq<Bit>, b: seq<Bit>, c: seq<Bit>, d: seq<Bit>)
    requires At(bits, p, a + (b + (c + d)))
    ensures At(bits, p, a) && At(bits, p + |a|, b) && At(bits, p + |a| + |b|, c) && At(bits, p + |a| + |b| + |c|, d)
    ensures |a + (b + (c + d))| == |a| + |b| + |c| + |d|
  {
    AtBoth(bits, p, a, b + (c + d));
    AtBoth(bits, p + |a|, b, c + d);
    AtBoth(bits, p + |a| + |b|, c, d);
  }

  lemma {:induction false} CountsOf(bits: seq<Bit>, p: nat, a: seq<Bit>, b: seq<Bit>, c: seq<Bit>, n: Counts)
    requires 257 <= n.hlit <= 286 && 1 <= n.hdist <= 32 && 4 <= n.hclen <= 19
    requires a == NumberBits(n.hlit - 257, 5) && b == NumberBits(n.hdist - 1, 5) && c == NumberBits(n.hclen - 4, 4)
    requires At(bits, p, a) && At(bits, p + 5, b) && At(bits, p + 10, c)
    ensures p + 14 <= |bits| && CountsAt(bits, p) == n
  {
    HeaderBits();
    LsbOf(bits, p, a, n.hlit - 257, 5);
    LsbOf(bits, p + 5, b, n.hdist - 1, 5);
    LsbOf(bits, p + 10, c, n.hclen - 4, 4);
  }

  lemma {:induction false} CountsBack(bits: seq<Bit>, p: nat, lens: seq<Bit>, n: Counts)
    requires 257 <= n.hlit <= 286 && 1 <= n.hdist <= 32 && 4 <= n.hclen <= 19
    requires At(bits, p, CountsBits(n, lens))
    ensures p + 14 <= |bits| && CountsAt(bits, p) == n
    ensures At(bits, p + 14, lens) && |CountsBits(n, lens)| == 14 + |lens|
  {
    var a, b, c := NumberBits(n.hlit - 257, 5), NumberBits(n.hdist - 1, 5), NumberBits(n.hclen - 4, 4);
    FourParts(bits, p, a, b, c, lens);
    CountsOf(bits, p, a, b, c, n);
  }

  lemma {:induction false} LensOf(bits: seq<Bit>, p: nat, clens: seq<nat>, items: seq<Item>, n: Counts, lens: seq<nat>,
                                  mid: nat, end: nat)
    requires n.hlit <= MAX_SYMBOLS && n.hdist <= MAX_SYMBOLS && n.hclen <= 19
    requires AllSent(clens, n.hclen) && Kraft(clens) && ItemsOk(clens, items) && ItemsCoded(items)
    requires lens == ItemsLens(items) && |lens| == n.hlit + n.hdist
    requires At(bits, p, ClenBits(clens, n.hclen)) && mid == p + 3 * n.hclen
    requires At(bits, mid, Concat(ItemsBits(clens, items))) && end == mid + |Concat(ItemsBits(clens, items))|
    ensures DynamicLens(bits, p, n) == Got(lens, end)
  {
    ClensBack(bits, p, clens, n.hclen, mid);
    var total := n.hlit + n.hdist;
    var a := AllLens(bits, clens, mid, total, []);
    ItemsBack(bits, clens, mid, items, Concat(ItemsBits(clens, items)), lens, total, end, [], a);
    DynamicLensStep(bits, p, n, Got(clens, mid), a);
  }

  lemma {:induction false} LensBack(bits: seq<Bit>, p: nat, h: GoodHeader, n: Counts, lens: seq<nat>, end: nat)
    requires At(bits, p, LensBits(h)) && n == Counts(h.hlit, h.hdist, h.hclen)
    requires lens == ItemsLens(h.items) && end == p + |LensBits(h)|
    ensures DynamicLens(bits, p, n) == Got(lens, end)
  {
    OkItemsCoded(h.clens, h.items);
    AtBoth(bits, p, ClenBits(h.clens, h.hclen), Concat(ItemsBits(h.clens, h.items)));
    LensOf(bits, p, h.clens, h.items, n, lens, p + 3 * h.hclen, end);
  }

  lemma {:induction false} CodesBack(bits: seq<Bit>, most: nat, p: nat, h: GoodHeader)
    requires most >= MAX_LITERALS && At(bits, p, CodesBits(h))
    ensures DynamicCodes(bits, most, p) == Got(CodesOf(h), p + |CodesBits(h)|)
  {
    var n := Counts(h.hlit, h.hdist, h.hclen);
    var end := p + |CodesBits(h)|;
    CountsBack(bits, p, LensBits(h), n);
    LensBack(bits, p + 14, h, n, ItemsLens(h.items), end);
    CodesAtStep(bits, most, p, n, Got(ItemsLens(h.items), end));
  }

  // ---- blocks ------------------------------------------------------------------------------

  datatype Part =
    | StoredPart(x: seq<Byte>)
    | FixedPart(tokens: seq<Token>)
    | DynamicPart(h: GoodHeader, tokens: seq<Token>)

  ghost predicate PartOk(b: Part, out: seq<Byte>) {
    match b
    case StoredPart(x) => |x| <= 0xFFFF
    case FixedPart(tokens) => TokensOk(FixedLiterals(), FixedDistances(), tokens, out)
    case DynamicPart(h, tokens) => TokensOk(CodesOf(h).literals, CodesOf(h).distances, tokens, out)
  }

  function PartType(b: Part): nat {
    match b
    case StoredPart(_) => 0
    case FixedPart(_) => 1
    case DynamicPart(_, _) => 2
  }

  /** The block after its header, which ends at bit `p`. */
  ghost function PartBits(b: Part, out: seq<Byte>, p: nat): seq<Bit>
    requires PartOk(b, out)
  {
    match b
    case StoredPart(x) => StoredBits(x, p)
    case FixedPart(tokens) => BlockBits(FixedLiterals(), FixedDistances(), tokens, out)
    case DynamicPart(h, tokens) => CodesBits(h) + BlockBits(CodesOf(h).literals, CodesOf(h).distances, tokens, out)
  }

  /** The output with what the block stands for. */
  function PartOut(b: Part, out: seq<Byte>): seq<Byte> {
    match b
    case StoredPart(x) => out + x
    case FixedPart(tokens) => Expand(tokens, out)
    case DynamicPart(_, tokens) => Expand(tokens, out)
  }

  lemma {:induction false} FixedBack(bits: seq<Bit>, most: nat, p: nat, tokens: seq<Token>, out: seq<Byte>,
                                     lit: seq<nat>,
                                     dist: seq<nat>, r: Read<seq<Byte>>, all: seq<Byte>, end: nat)
    requires lit == FixedLiterals() && dist == FixedDistances() && TokensOk(lit, dist, tokens, out)
    requires At(bits, p, BlockBits(lit, dist, tokens, out)) && end == p + |BlockBits(lit, dist, tokens, out)|
    requires r == Block(bits, most, 1, p, out) && all == Expand(tokens, out)
    ensures r == Got(all, end)
  {
    Inflater.FixedAccepted();
    TokensBack(bits, lit, dist, p, tokens, out, BlockBits(lit, dist, tokens, out), all, end, r);
  }

  lemma {:induction false} DynamicOf(bits: seq<Bit>, most: nat, p: nat, h: GoodHeader, out: seq<Byte>, c: Codes,
                                     mid: nat,
                                     r: Read<seq<Byte>>)
    requires most >= MAX_LITERALS && At(bits, p, CodesBits(h)) && c == CodesOf(h)
    requires mid == p + |CodesBits(h)| && r == Block(bits, most, 2, p, out)
    ensures r == Compressed(bits, c.literals, c.distances, mid, out)
  {
    CodesBack(bits, most, p, h);
    DynamicBlock(bits, most, p, out, Got(c, mid));
  }

  lemma {:induction false} DynamicBack(bits: seq<Bit>, most: nat, p: nat, h: GoodHeader, tokens: seq<Token>,
                                       out: seq<Byte>, c: Codes, mid: nat, w: seq<Bit>, all: seq<Byte>, end: nat,
                                       r: Read<seq<Byte>>)
    requires most >= MAX_LITERALS && c == CodesOf(h) && TokensOk(c.literals, c.distances, tokens, out)
    requires w == BlockBits(c.literals, c.distances, tokens, out) && mid == p + |CodesBits(h)| && end == mid + |w|
    requires At(bits, p, CodesBits(h)) && At(bits, mid, w) && all == Expand(tokens, out)
    requires r == Block(bits, most, 2, p, out)
    ensures r == Got(all, end)
  {
    DynamicOf(bits, most, p, h, out, c, mid, r);
    TokensBack(bits, c.literals, c.distances, mid, tokens, out, w, all, end, r);
  }

  /** A block reads back as what it stands for. */
  lemma {:induction false} PartBack(bits: seq<Bit>, most: nat, p: nat, b: Part, out: seq<Byte>, w: seq<Bit>,
                                    next: seq<Byte>, end: nat, r: Read<seq<Byte>>)
    requires PartOk(b, out) && most >= MAX_LITERALS && w == PartBits(b, out, p) && At(bits, p, w)
    requires next == PartOut(b, out) && end == p + |w| && r == Block(bits, most, PartType(b), p, out)
    ensures r == Got(next, end)
  {
    match b
    case StoredPart(x) => StoredBack(bits, p, x, out);
    case FixedPart(tokens) => FixedBack(bits, most, p, tokens, out, FixedLiterals(), FixedDistances(), r, next, end);
    case DynamicPart(h, tokens) =>
      var c, head := CodesOf(h), CodesBits(h);
      var rest := BlockBits(c.literals, c.distances, tokens, out);
      AtBoth(bits, p, head, rest);
      DynamicBack(bits, most, p, h, tokens, out, c, p + |head|, rest, next, end, r);
  }

  // ---- streams -----------------------------------------------------------------------------

  /** A block as bits: where it starts, the output before it, its type, its bits
      after the type, and the output after it. */
  datatype Piece = Piece(start: nat, out: seq<Byte>, btype: nat, body: seq<Bit>, next: seq<Byte>)

  function FramedBits(b: Piece, final: Bit): (w: seq<Bit>)
    ensures |w| == 3 + |b.body|
  {
    NumberBits(final, 1) + (NumberBits(b.btype, 2) + b.body)
  }

  /** Blocks one after the other, the last one marked final. */
  function PiecesBits(pieces: seq<Piece>): seq<Bit> {
    if pieces == [] then []
    else FramedBits(pieces[0], if |pieces| == 1 then 1 else 0) + PiecesBits(pieces[1..])
  }

  predicate Follows(a: Piece, b: Piece) {
    b.start == a.start + 3 + |a.body| && b.out == a.next
  }

  /** Each block starts where the one before it ends, with the output it left. */
  predicate Linked(pieces: seq<Piece>) {
    forall k :: 0 < k < |pieces| ==> Follows(pieces[k - 1], pieces[k])
  }

  lemma {:induction false} FrameOf(bits: seq<Bit>, p: nat, final: Bit, btype: nat, body: seq<Bit>)
    requires btype < 4 && At(bits, p, NumberBits(final, 1) + (NumberBits(btype, 2) + body))
    ensures p + 3 <= |bits| && Lsb(bits, p, 1) == final && Lsb(bits, p + 1, 2) == btype && At(bits, p + 3, body)
  {
    var a, b := NumberBits(final, 1), NumberBits(btype, 2);
    AtBoth(bits, p, a, b + body);
    AtBoth(bits, p + 1, b, body);
    FramePowers();
    LsbOf(bits, p, a, final, 1);
    LsbOf(bits, p + 1, b, btype, 2);
  }

  lemma FramePowers()
    ensures Pow2(1) == 2 && Pow2(2) == 4
  {
  }

  ghost predicate Inflates(read: Decoder, bits: seq<Bit>, most: nat) {
    forall p: nat, out: seq<Byte> {:trigger Asked(p, out)} ::
      Asked(p, out) && p <= |bits| ==> read(p, out) == Inflate(bits, most, p, out)
  }

  /** The decoder, as a function of the position and of the output so far. */
  ghost function From(bits: seq<Bit>, most: nat): (read: Decoder)
    ensures Inflates(read, bits, most)
  {
    assert Inflates((p: nat, out: seq<Byte>) => if p <= |bits| then Inflate(bits, most, p, out) else Truncated,
                    bits, most);
    var read: Decoder :| Inflates(read, bits, most);
    read
  }

  lemma {:induction false} FromIs(bits: seq<Bit>, most: nat, p: nat, out: seq<Byte>, r: Read<seq<Byte>>)
    requires p <= |bits| && r == Inflate(bits, most, p, out)
    ensures From(bits, most)(p, out) == r
  {
    assert Asked(p, out);
  }

  lemma {:induction false} InflateStep(bits: seq<Bit>, most: nat, p: nat, out: seq<Byte>, final: nat, btype: nat,
                                       next: seq<Byte>, end: nat, r: Read<seq<Byte>>, rest: Read<seq<Byte>>)
    requires p + 3 <= |bits| && final == Lsb(bits, p, 1) && btype == Lsb(bits, p + 1, 2) && end <= |bits|
    requires Block(bits, most, btype, p + 3, out) == Got(next, end)
    requires r == Inflate(bits, most, p, out) && rest == Inflate(bits, most, end, next)
    ensures r == if final == 0 then rest else Got(next, end)
  {
    HeaderStep(bits, most, p, out, final, btype);
  }

  function Final(pieces: seq<Piece>, k: nat): Bit {
    if k + 1 == |pieces| then 1 else 0
  }

  ghost predicate FrameReads(inflate: Decoder, b: Piece, final: Bit) {
    var end := b.start + 3 + |b.body|;
    inflate(b.start, b.out) == if final == 0 then inflate(end, b.next) else Got(b.next, end)
  }

  ghost predicate AllRead(inflate: Decoder, pieces: seq<Piece>) {
    forall k :: 0 <= k < |pieces| ==> FrameReads(inflate, pieces[k], Final(pieces, k))
  }

  /** Blocks that read back one by one read back as a stream. */
  lemma {:induction false} PiecesBack(inflate: Decoder, pieces: seq<Piece>, k: nat, p: nat, out: seq<Byte>, last: Piece)
    requires k < |pieces| && Linked(pieces) && AllRead(inflate, pieces) && last == pieces[|pieces| - 1]
    requires p == pieces[k].start && out == pieces[k].out
    ensures inflate(p, out) == Got(last.next, last.start + 3 + |last.body|)
    decreases |pieces| - k
  {
    var b := pieces[k];
    assert FrameReads(inflate, b, Final(pieces, k));
    if k + 1 < |pieces| {
      assert Follows(pieces[k + 1 - 1], pieces[k + 1]);
      PiecesBack(inflate, pieces, k + 1, b.start + 3 + |b.body|, b.next, last);
    }
  }

  /** Every block stands where it starts. */
  lemma {:induction false} PiecesAt(bits: seq<Bit>, pieces: seq<Piece>, k: nat)
    requires k < |pieces| && Linked(pieces) && At(bits, pieces[0].start, PiecesBits(pieces))
    ensures At(bits, pieces[k].start, FramedBits(pieces[k], Final(pieces, k)))
    decreases k
  {
    var b, rest := pieces[0], pieces[1..];
    AtBoth(bits, b.start, FramedBits(b, Final(pieces, 0)), PiecesBits(rest));
    if k > 0 {
      RestLinked(pieces);
      PiecesAt(bits, rest, k - 1);
    }
  }

  lemma {:induction false} RestLinked(pieces: seq<Piece>)
    requires Linked(pieces) && |pieces| > 1
    ensures Linked(pieces[1..]) && Follows(pieces[0], pieces[1])
  {
    assert Follows(pieces[1 - 1], pieces[1]);
    forall k | 0 < k < |pieces[1..]| ensures Follows(pieces[1..][k - 1], pieces[1..][k]) {
      assert Follows(pieces[k + 1 - 1], pieces[k + 1]);
    }
  }

  lemma {:induction false} PiecesEnd(pieces: seq<Piece>)
    requires pieces != [] && Linked(pieces)
    ensures var last := pieces[|pieces| - 1];
            pieces[0].start + |PiecesBits(pieces)| == last.start + 3 + |last.body|
    decreases |pieces|
  {
    if |pieces| > 1 {
      RestLinked(pieces);
      PiecesEnd(pieces[1..]);
    }
  }

  /** A block and its place: where it starts and the output before it. */
  datatype Placed = Placed(start: nat, out: seq<Byte>, part: Part)

  ghost function PieceOf(b: Placed): Piece
    requires PartOk(b.part, b.out)
  {
    Piece(b.start, b.out, PartType(b.part), PartBits(b.part, b.out, b.start + 3), PartOut(b.part, b.out))
  }

  ghost predicate AllOk(stream: seq<Placed>) {
    forall k :: 0 <= k < |stream| ==> PartOk(stream[k].part, stream[k].out)
  }

  ghost function Pieces(stream: seq<Placed>): (pieces: seq<Piece>)
    requires AllOk(stream)
    ensures |pieces| == |stream|
  {
    seq(|stream|, k requires 0 <= k < |stream| => PieceOf(stream[k]))
  }

  /** Blocks that make a stream: the first starts it, and each goes on where the
      one before it ends. */
  ghost predicate StreamOk(stream: seq<Placed>) {
    && stream != [] && AllOk(stream)
    && stream[0].start == 0 && stream[0].out == [] && Linked(Pieces(stream))
  }

  ghost function StreamBits(stream: seq<Placed>): seq<Bit>
    requires StreamOk(stream)
  {
    PiecesBits(Pieces(stream))
  }

  /** What the stream stands for. */
  ghost function StreamOut(stream: seq<Placed>): seq<Byte>
    requires StreamOk(stream)
  {
    PartOut(stream[|stream| - 1].part, stream[|stream| - 1].out)
  }

  lemma {:induction false} FrameStep(bits: seq<Bit>, most: nat, p: nat, out: seq<Byte>, final: Bit, btype: nat,
                                     body: seq<Bit>, next: seq<Byte>, end: nat)
    requires btype < 4 && At(bits, p, NumberBits(final, 1) + (NumberBits(btype, 2) + body))
    requires p + 3 <= end <= |bits| && Block(bits, most, btype, p + 3, out) == Got(next, end)
    ensures From(bits, most)(p, out) == if final == 0 then From(bits, most)(end, next) else Got(next, end)
  {
    FrameOf(bits, p, final, btype, body);
    var i, j := Inflate(bits, most, p, out), Inflate(bits, most, end, next);
    InflateStep(bits, most, p, out, final, btype, next, end, i, j);
    FromIs(bits, most, p, out, i);
    FromIs(bits, most, end, next, j);
  }

  lemma {:induction false} FramedOf(bits: seq<Bit>, most: nat, p: nat, out: seq<Byte>, b: Part, final: Bit, btype: nat,
                                    body: seq<Bit>, next: seq<Byte>, end: nat)
    requires PartOk(b, out) && most >= MAX_LITERALS && btype == PartType(b) && body == PartBits(b, out, p + 3)
    requires next == PartOut(b, out) && end == p + 3 + |body|
    requires At(bits, p, NumberBits(final, 1) + (NumberBits(btype, 2) + body))
    ensures From(bits, most)(p, out) == if final == 0 then From(bits, most)(end, next) else Got(next, end)
  {
    FrameOf(bits, p, final, btype, body);
    AtFits(bits, p + 3, body);
    PartBack(bits, most, p + 3, b, out, body, next, end, Block(bits, most, btype, p + 3, out));
    FrameStep(bits, most, p, out, final, btype, body, next, end);
  }

  lemma {:induction false} FrameIs(read: Decoder, b: Piece, final: Bit, p: nat, out: seq<Byte>, next: seq<Byte>,
                                   end: nat)
    requires b.start == p && b.out == out && b.next == next && end == p + 3 + |b.body|
    requires read(p, out) == if final == 0 then read(end, next) else Got(next, end)
    ensures FrameReads(read, b, final)
  {
  }

  lemma {:induction false} BlocksRead(bits: seq<Bit>, most: nat, stream: seq<Placed>, pieces: seq<Piece>)
    requires StreamOk(stream) && most >= MAX_LITERALS && pieces == Pieces(stream) && At(bits, 0, PiecesBits(pieces))
    ensures AllRead(From(bits, most), pieces)
  {
    forall k | 0 <= k < |pieces| ensures FrameReads(From(bits, most), pieces[k], Final(pieces, k)) {
      PiecesAt(bits, pieces, k);
      var b, piece, final := stream[k], pieces[k], Final(pieces, k);
      var end := b.start + 3 + |piece.body|;
      FramedOf(bits, most, b.start, b.out, b.part, final, piece.btype, piece.body, piece.next, end);
      FrameIs(From(bits, most), piece, final, b.start, b.out, piece.next, end);
    }
  }

  lemma {:induction false} StreamReads(bits: seq<Bit>, most: nat, stream: seq<Placed>, pieces: seq<Piece>, last: Piece,
                                       none: seq<Byte>, r: Read<seq<Byte>>)
    requires StreamOk(stream) && most >= MAX_LITERALS && pieces == Pieces(stream) && At(bits, 0, PiecesBits(pieces))
    requires last == pieces[|pieces| - 1] && none == [] && r == Inflate(bits, most, 0, none)
    ensures r == Got(last.next, last.start + 3 + |last.body|)
  {
    BlocksRead(bits, most, stream, pieces);
    FromIs(bits, most, 0, none, r);
    PiecesBack(From(bits, most), pieces, 0, 0, none, last);
  }

  /** Whatever blocks, codes and tokens a stream is written with, and whatever
      follows it, it reads back as what it stands for. */
  lemma {:induction false} StreamBack(stream: seq<Placed>, more: seq<Bit>, most: nat)
    requires StreamOk(stream) && most >= MAX_LITERALS
    ensures Inflate(StreamBits(stream) + more, most, 0, []) == Got(StreamOut(stream), |StreamBits(stream)|)
  {
    var w, pieces := StreamBits(stream), Pieces(stream);
    AtStart(w, more);
    PiecesEnd(pieces);
    StreamReads(w + more, most, stream, pieces, pieces[|pieces| - 1], [], Inflate(w + more, most, 0, []));
  }
}
