/** A sparse image written to a partition leaves there the expanded image. */
module SparseExpand {
  import opened Wrappers
  import opened SparseImage
  import Arith

  /** A chunk covers `n` blocks of the image's own block size. */
  datatype Chunk =
    | Raw(n: nat, data: seq<Block>)
    | Fill(n: nat, word: seq<byte>)
    | DontCare(n: nat)
    | Crc(n: nat, filler: seq<byte>)

  /** Device blocks that make up `n` image blocks. */
  function Blocks(h: Header, p: Part, n: nat): nat
    requires p.blksz > 0
  {
    n * (h.blkSz / p.blksz)
  }

  predicate Setup(h: Header, p: Part) {
    h.blkSz > 0 && p.blksz > 0 && h.blkSz % p.blksz == 0 && CHUNK_HEADER <= h.chunkHdrSz < 0x1_0000
  }

  /** Well-formed chunk whose sizes fit 32 bits. */
  predicate Ok(c: Chunk, h: Header, p: Part)
    requires Setup(h, p)
  {
    && c.n < WORD && h.chunkHdrSz + Bytes(h, c.n) < WORD
    && (c.Raw? ==> |c.data| == Blocks(h, p, c.n) && forall i :: 0 <= i < |c.data| ==> |c.data[i]| == p.blksz)
    && (c.Fill? ==> |c.word| == 4)
    && (c.Crc? ==> |c.filler| == Bytes(h, c.n))
  }

  predicate AllOk(cs: seq<Chunk>, h: Header, p: Part)
    requires Setup(h, p)
  {
    forall i :: 0 <= i < |cs| ==> Ok(cs[i], h, p)
  }

  // The bytes of an image

  function LE16(v: nat): (b: seq<byte>)
    requires v < 0x1_0000
    ensures |b| == 2
  {
    [v % 256, v / 256]
  }

  function LE32(v: nat): (b: seq<byte>)
    requires v < WORD
    ensures |b| == 4
  {
    LE16(v % 0x1_0000) + LE16(v / 0x1_0000)
  }

  function Kind(c: Chunk): nat {
    match c
    case Raw(_, _) => 0xCAC1
    case Fill(_, _) => 0xCAC2
    case DontCare(_) => 0xCAC3
    case Crc(_, _) => 0xCAC4
  }

  function TotalSize(c: Chunk, h: Header, p: Part): (v: nat)
    requires Setup(h, p) && Ok(c, h, p)
    ensures v < WORD
  {
    match c
    case Raw(n, _) => h.chunkHdrSz + Bytes(h, n)
    case Fill(_, _) => h.chunkHdrSz + 4
    case DontCare(_) => h.chunkHdrSz
    case Crc(_, _) => h.chunkHdrSz
  }

  function Flat(bs: seq<Block>): (s: seq<byte>) {
    if bs == [] then [] else bs[0] + Flat(bs[1..])
  }

  function Payload(c: Chunk): (s: seq<byte>) {
    match c
    case Raw(_, data) => Flat(data)
    case Fill(_, word) => word
    case DontCare(_) => []
    case Crc(_, filler) => filler
  }

  function Head(c: Chunk, h: Header, p: Part): (s: seq<byte>)
    requires Setup(h, p) && Ok(c, h, p)
    ensures |s| == 12
  {
    LE16(Kind(c)) + [0, 0] + LE32(c.n) + LE32(TotalSize(c, h, p))
  }

  function Encode(c: Chunk, h: Header, p: Part): (s: seq<byte>)
    requires Setup(h, p) && Ok(c, h, p)
  {
    Head(c, h, p) + seq(h.chunkHdrSz - CHUNK_HEADER, _ => 0) + Payload(c)
  }

  function EncodeAll(cs: seq<Chunk>, h: Header, p: Part): (s: seq<byte>)
    requires Setup(h, p) && AllOk(cs, h, p)
  {
    if cs == [] then [] else Encode(cs[0], h, p) + EncodeAll(cs[1..], h, p)
  }

  predicate Holds(m: Memory, pos: nat, s: seq<byte>) {
    forall i :: 0 <= i < |s| ==> m(pos + i) == s[i]
  }

  lemma HoldsParts(m: Memory, pos: nat, a: seq<byte>, b: seq<byte>)
    requires Holds(m, pos, a + b)
    ensures Holds(m, pos, a) && Holds(m, pos + |a|, b)
  {
    forall i | 0 <= i < |a| ensures m(pos + i) == a[i] { assert (a + b)[i] == a[i]; }
    forall i | 0 <= i < |b| ensures m(pos + |a| + i) == b[i] { assert (a + b)[|a| + i] == b[i]; }
  }

  lemma ReadLE16(m: Memory, pos: nat, v: nat)
    requires v < 0x1_0000 && Holds(m, pos, LE16(v))
    ensures U16(m, pos) == v
  {
    var b := LE16(v);
    assert m(pos + 0) == b[0] && m(pos + 1) == b[1];
  }

  lemma ReadLE32(m: Memory, pos: nat, v: nat)
    requires v < WORD && Holds(m, pos, LE32(v))
    ensures U32(m, pos) == v
  {
    HoldsParts(m, pos, LE16(v % 0x1_0000), LE16(v / 0x1_0000));
    ReadLE16(m, pos, v % 0x1_0000);
    ReadLE16(m, pos + 2, v / 0x1_0000);
  }

  lemma ReadHead(m: Memory, pos: nat, c: Chunk, h: Header, p: Part)
    requires Setup(h, p) && Ok(c, h, p) && Holds(m, pos, Encode(c, h, p))
    ensures U16(m, pos) == Kind(c) && U32(m, pos + 4) == c.n && U32(m, pos + 8) == TotalSize(c, h, p)
    ensures Holds(m, pos + h.chunkHdrSz, Payload(c))
  {
    hide U16, U32, LE16, LE32, Payload;
    var pad := seq(h.chunkHdrSz - CHUNK_HEADER, _ => 0);
    HoldsParts(m, pos, Head(c, h, p) + pad, Payload(c));
    HoldsParts(m, pos, Head(c, h, p), pad);
    var a, b, d := LE16(Kind(c)) + [0, 0], LE32(c.n), LE32(TotalSize(c, h, p));
    HoldsParts(m, pos, a + b, d);
    HoldsParts(m, pos, a, b);
    HoldsParts(m, pos, LE16(Kind(c)), [0, 0]);
    ReadLE16(m, pos, Kind(c));
    ReadLE32(m, pos + 4, c.n);
    ReadLE32(m, pos + 8, TotalSize(c, h, p));
  }

  lemma {:induction false} ReadBlocks(m: Memory, pos: nat, bs: seq<Block>, n: nat)
    requires Holds(m, pos, Flat(bs)) && forall i :: 0 <= i < |bs| ==> |bs[i]| == n
    ensures MemBlocks(m, pos, |bs|, n) == bs && |Flat(bs)| == |bs| * n
    decreases |bs|
  {
    if bs != [] {
      HoldsParts(m, pos, bs[0], Flat(bs[1..]));
      ReadBlocks(m, pos + n, bs[1..], n);
      assert MemBlock(m, pos, n) == bs[0];
      assert |bs| * n == n + (|bs| - 1) * n;
    }
  }

  // The expanded image

  /** Device blocks of one chunk: what is written, or None where nothing is. */
  function Expand(c: Chunk, h: Header, p: Part): (img: seq<Option<Block>>)
    requires Setup(h, p) && Ok(c, h, p)
    ensures |img| == if c.Crc? then 0 else Blocks(h, p, c.n)
  {
    match c
    case Raw(_, data) => seq(|data|, i requires 0 <= i < |data| => Some(data[i]))
    case Fill(n, word) => seq(Blocks(h, p, n), _ => Some(Repeated(word, p.blksz)))
    case DontCare(n) => seq(Blocks(h, p, n), _ => None)
    case Crc(_, _) => []
  }

  function Repeated(word: seq<byte>, n: nat): (b: Block)
    requires |word| == 4
  {
    seq(n, i requires 0 <= i < n => word[i % 4])
  }

  function ExpandAll(cs: seq<Chunk>, h: Header, p: Part): (img: seq<Option<Block>>)
    requires Setup(h, p) && AllOk(cs, h, p)
  {
    if cs == [] then [] else Expand(cs[0], h, p) + ExpandAll(cs[1..], h, p)
  }

  /** The device with the image laid over it from block `at` on. */
  function Overlay(dev: seq<Block>, at: nat, img: seq<Option<Block>>): (dev': seq<Block>)
    ensures |dev'| == |dev|
  {
    seq(|dev|, i requires 0 <= i < |dev| =>
      if at <= i < at + |img| && img[i - at].Some? then img[i - at].value else dev[i])
  }

  lemma OverlayJoin(dev: seq<Block>, at: nat, a: seq<Option<Block>>, b: seq<Option<Block>>)
    ensures Overlay(Overlay(dev, at, a), at + |a|, b) == Overlay(dev, at, a + b)
  {
    var l, r := Overlay(Overlay(dev, at, a), at + |a|, b), Overlay(dev, at, a + b);
    forall i | 0 <= i < |dev| ensures l[i] == r[i] {
      if at <= i < at + |a| { assert (a + b)[i - at] == a[i - at]; }
      else if at + |a| <= i < at + |a| + |b| { assert (a + b)[i - at] == b[i - at - |a|]; }
    }
  }

  lemma OverlayNothing(dev: seq<Block>, at: nat)
    ensures Overlay(dev, at, []) == dev
  {
  }

  /** A written chunk must end inside the partition; nothing is asked of the others. */
  predicate Fits(c: Chunk, h: Header, p: Part, blk: nat)
    requires Setup(h, p)
  {
    c.Raw? || c.Fill? ==> blk + Blocks(h, p, c.n) <= p.start + p.size
  }

  predicate AllFit(cs: seq<Chunk>, h: Header, p: Part, blk: nat)
    requires Setup(h, p) && AllOk(cs, h, p)
  {
    cs == [] || (Fits(cs[0], h, p, blk) && AllFit(cs[1..], h, p, blk + |Expand(cs[0], h, p)|))
  }

  function Count(cs: seq<Chunk>): nat { if cs == [] then 0 else cs[0].n + Count(cs[1..]) }

  /** A driver that always writes all it is asked to. */
  ghost predicate Reliable(drv: Driver) { forall k :: drv(k) >= WORD }

  lemma CountBlocks(n: nat, h: Header, p: Part)
    requires Setup(h, p)
    ensures Bytes(h, n) / p.blksz == Blocks(h, p, n) <= Bytes(h, n) && Bytes(h, n) / h.blkSz == n
    ensures Blocks(h, p, n) * p.blksz == Bytes(h, n) == n * h.blkSz
  {
    var z, b := h.blkSz, p.blksz;
    var r := z / b;
    assert z == r * b + z % b;
    Products(n, r, b, z);
    Arith.DivIs(z * n, b, n * r);
    Arith.DivIs(z * n, z, n);
  }

  lemma Products(n: nat, r: nat, b: nat, z: nat)
    requires b > 0 && z == r * b
    ensures z * n == (n * r) * b == n * z && n * r <= z * n
  {
    assert (r * b) * n == (n * r) * b;
    LeProduct(n * r, b);
  }

  lemma LeProduct(x: nat, b: nat)
    requires b > 0
    ensures x <= x * b
  {
  }

  /** A well-formed chunk is dispatched with the sizes it says. */
  lemma Dispatched(m: Memory, c: Chunk, h: Header, p: Part, w: W, drv: Driver)
    requires Setup(h, p) && Ok(c, h, p) && Sane(h, p, w) && Holds(m, w.pos, Encode(c, h, p))
    ensures DoChunk(m, h, p, w, drv)
         == Dispatch(m, h, p, w, Kind(c), c.n, TotalSize(c, h, p), Bytes(h, c.n), Blocks(h, p, c.n), drv)
    ensures Bytes(h, c.n) < WORD && Bytes(h, c.n) / h.blkSz == c.n && Blocks(h, p, c.n) <= Bytes(h, c.n)
    ensures Blocks(h, p, c.n) * p.blksz == Bytes(h, c.n)
    ensures Holds(m, w.pos + h.chunkHdrSz, Payload(c))
  {
    hide *;
    ReadHead(m, w.pos, c, h, p);
    CountBlocks(c.n, h, p);
    Sizes(m, c, h, p, w, drv);
  }

  /** The sizes the code computes from the chunk header. */
  lemma Sizes(m: Memory, c: Chunk, h: Header, p: Part, w: W, drv: Driver)
    requires Setup(h, p) && Ok(c, h, p) && Sane(h, p, w) && U32(m, w.pos + 4) == c.n
    ensures Bytes(h, c.n) < WORD
    ensures DoChunk(m, h, p, w, drv)
         == Dispatch(m, h, p, w, U16(m, w.pos), c.n, U32(m, w.pos + 8), Bytes(h, c.n), Bytes(h, c.n) / p.blksz, drv)
  {
    hide U16, U32, Dispatch, Bytes, Blocks;
    Arith.SmallMod(Bytes(h, c.n), WORD);
  }

  /** The state after a chunk that went well. */
  function Past(c: Chunk, h: Header, p: Part, w: W, calls: nat): (w': W)
    requires Setup(h, p) && Ok(c, h, p)
  {
    var img := Expand(c, h, p);
    W(Overlay(w.dev, w.blk, img), w.blk + |img|, w.pos + h.chunkHdrSz + |Payload(c)|, (w.total + c.n) % WORD, calls)
  }

  lemma PatchedIsOverlay(dev: seq<Block>, at: nat, bs: seq<Block>, img: seq<Option<Block>>)
    requires at + |bs| <= |dev| && |img| == |bs| && forall i :: 0 <= i < |bs| ==> img[i] == Some(bs[i])
    ensures Patched(dev, at, bs) == Overlay(dev, at, img)
  {
    PatchedEach(dev, at, bs);
    hide Patched;
  }

  lemma RawStep(m: Memory, c: Chunk, h: Header, p: Part, w: W, drv: Driver)
    requires Setup(h, p) && Ok(c, h, p) && Sane(h, p, w) && Reliable(drv) && c.Raw?
    requires Holds(m, w.pos, Encode(c, h, p)) && Fits(c, h, p, w.blk)
    ensures DoChunk(m, h, p, w, drv) == Going(Past(c, h, p, w, w.calls + 1))
  {
    hide U16, U32, MemBlocks, Bytes, Blocks, Encode, DoChunk, Flat, Overlay, WriteCall;
    Dispatched(m, c, h, p, w, drv);
    ReadBlocks(m, w.pos + h.chunkHdrSz, c.data, p.blksz);
    Arith.SmallMod(h.chunkHdrSz + Bytes(h, c.n), WORD);
    AllWritten(w.(pos := w.pos + h.chunkHdrSz), c.data, Expand(c, h, p), drv);
  }

  /** A driver that works writes all blocks of one call. */
  lemma AllWritten(w: W, bs: seq<Block>, img: seq<Option<Block>>, drv: Driver)
    requires w.blk + |bs| <= |w.dev| && Reliable(drv) && |bs| < WORD
    requires |img| == |bs| && forall i :: 0 <= i < |bs| ==> img[i] == Some(bs[i])
    ensures WriteCall(w, bs, drv)
         == Going(w.(dev := Overlay(w.dev, w.blk, img), blk := w.blk + |bs|, calls := w.calls + 1))
  {
    hide Overlay, Patched;
    assert drv(w.calls) >= WORD;
    assert bs[..|bs|] == bs;
    PatchedIsOverlay(w.dev, w.blk, bs, img);
  }

  /** One block written. */
  lemma OneFill(w: W, b: Block, drv: Driver)
    requires w.blk < |w.dev| && Reliable(drv)
    ensures WriteCall(w, [b], drv)
         == Going(w.(dev := Overlay(w.dev, w.blk, [Some(b)]), blk := w.blk + 1, calls := w.calls + 1))
  {
    AllWritten(w, [b], [Some(b)], drv);
  }

  function Times(b: Block, n: nat): (img: seq<Option<Block>>)
    ensures |img| == n
  {
    seq(n, _ => Some(b))
  }

  lemma {:induction false} FillAll(w: W, b: Block, n: nat, drv: Driver)
    requires w.blk + n <= |w.dev| && Reliable(drv)
    ensures FillCalls(w, b, n, drv)
         == Going(w.(dev := Overlay(w.dev, w.blk, Times(b, n)), blk := w.blk + n, calls := w.calls + n))
    decreases n
  {
    if n == 0 {
      assert Overlay(w.dev, w.blk, Times(b, 0)) == w.dev;
    } else {
      hide WriteCall;
      OneFill(w, b, drv);
      var w1 := w.(dev := Overlay(w.dev, w.blk, [Some(b)]), blk := w.blk + 1, calls := w.calls + 1);
      FillAll(w1, b, n - 1, drv);
      OverlayJoin(w.dev, w.blk, [Some(b)], Times(b, n - 1));
      assert [Some(b)] + Times(b, n - 1) == Times(b, n);
    }
  }

  lemma FillStep(m: Memory, c: Chunk, h: Header, p: Part, w: W, drv: Driver)
    requires Setup(h, p) && Ok(c, h, p) && Sane(h, p, w) && Reliable(drv) && c.Fill?
    requires Holds(m, w.pos, Encode(c, h, p)) && Fits(c, h, p, w.blk)
    ensures DoChunk(m, h, p, w, drv) == Going(Past(c, h, p, w, w.calls + Blocks(h, p, c.n)))
  {
    hide U16, U32, FillCalls, Bytes, Blocks, Encode, DoChunk;
    Dispatched(m, c, h, p, w, drv);
    var w1 := w.(pos := w.pos + h.chunkHdrSz + 4);
    var b := FillBlock(m, w.pos + h.chunkHdrSz, p.blksz);
    assert b == Repeated(c.word, p.blksz);
    FillAll(w1, b, Blocks(h, p, c.n), drv);
    assert Times(b, Blocks(h, p, c.n)) == Expand(c, h, p);
  }

  lemma PlainStep(m: Memory, c: Chunk, h: Header, p: Part, w: W, drv: Driver)
    requires Setup(h, p) && Ok(c, h, p) && Sane(h, p, w) && (c.DontCare? || c.Crc?)
    requires Holds(m, w.pos, Encode(c, h, p))
    ensures DoChunk(m, h, p, w, drv) == Going(Past(c, h, p, w, w.calls))
  {
    hide U16, U32, FillCalls, MemBlocks, Bytes, Blocks, Encode, DoChunk;
    Dispatched(m, c, h, p, w, drv);
    assert Overlay(w.dev, w.blk, Expand(c, h, p)) == w.dev;
  }

  lemma MisfitStep(m: Memory, c: Chunk, h: Header, p: Part, w: W, drv: Driver)
    requires Setup(h, p) && Ok(c, h, p) && Sane(h, p, w)
    requires Holds(m, w.pos, Encode(c, h, p)) && !Fits(c, h, p, w.blk)
    ensures var r := DoChunk(m, h, p, w, drv);
            r.Failed? && r.why == TooBig && r.w.dev == w.dev
  {
    hide U16, U32, FillCalls, MemBlocks, Bytes, Blocks, Encode, DoChunk;
    Dispatched(m, c, h, p, w, drv);
  }

  /** One chunk that fits. */
  lemma FitStep(m: Memory, c: Chunk, h: Header, p: Part, w: W, drv: Driver) returns (calls: nat)
    requires Setup(h, p) && Ok(c, h, p) && Sane(h, p, w) && Reliable(drv)
    requires Holds(m, w.pos, Encode(c, h, p)) && Fits(c, h, p, w.blk)
    ensures DoChunk(m, h, p, w, drv) == Going(Past(c, h, p, w, calls))
  {
    hide DoChunk, Past, Blocks, Bytes, Encode, Expand;
    match c
    case Raw(_, _) => RawStep(m, c, h, p, w, drv); calls := w.calls + 1;
    case Fill(_, _) => FillStep(m, c, h, p, w, drv); calls := w.calls + Blocks(h, p, c.n);
    case DontCare(_) => PlainStep(m, c, h, p, w, drv); calls := w.calls;
    case Crc(_, _) => PlainStep(m, c, h, p, w, drv); calls := w.calls;
  }

  lemma EncodeSize(m: Memory, pos: nat, c: Chunk, h: Header, p: Part)
    requires Setup(h, p) && Ok(c, h, p)
    ensures |Encode(c, h, p)| == h.chunkHdrSz + |Payload(c)|
  {
  }

  /** The image as written by chunks `cs`, for a device and driver that work: the run goes
      through exactly when every written chunk fits, and then the device holds the expanded
      image, the position has moved by its length and the count is the sum of the chunk
      sizes; otherwise it stops with TooBig at the first chunk that does not fit and what
      came before it has been written. */
  lemma {:induction false} WritesExpandedImage(m: Memory, cs: seq<Chunk>, h: Header, p: Part, w: W, drv: Driver)
    requires Setup(h, p) && AllOk(cs, h, p) && Sane(h, p, w) && Reliable(drv) && w.total + Count(cs) < WORD
    requires Holds(m, w.pos, EncodeAll(cs, h, p))
    ensures var r := DoChunks(m, h, p, w, |cs|, drv);
            && (r.Going? <==> AllFit(cs, h, p, w.blk))
            && (r.Going? ==>
                  && r.w.dev == Overlay(w.dev, w.blk, ExpandAll(cs, h, p))
                  && r.w.blk == w.blk + |ExpandAll(cs, h, p)| && r.w.total == w.total + Count(cs))
            && (r.Failed? ==> r.why == TooBig && exists k :: 0 <= k < |cs| && WrittenTo(cs, k, h, p, w, r.w.dev))
    decreases |cs|
  {
    hide DoChunk, Encode, Overlay, Expand, Fits, Blocks, Bytes, Ok;
    if cs == [] {
      OverlayNothing(w.dev, w.blk);
    } else {
      var c, rest := cs[0], cs[1..];
      HoldsParts(m, w.pos, Encode(c, h, p), EncodeAll(rest, h, p));
      EncodeSize(m, w.pos, c, h, p);
      if !Fits(c, h, p, w.blk) {
        MisfitStep(m, c, h, p, w, drv);
        OverlayNothing(w.dev, w.blk);
        assert cs[..0] == [];
        assert WrittenTo(cs, 0, h, p, w, w.dev);
      } else {
        var calls := FitStep(m, c, h, p, w, drv);
        var w1 := Past(c, h, p, w, calls);
        WritesExpandedImage(m, rest, h, p, w1, drv);
        OverlayJoin(w.dev, w.blk, Expand(c, h, p), ExpandAll(rest, h, p));
        var r := DoChunks(m, h, p, w1, |rest|, drv);
        if r.Failed? {
          var k :| 0 <= k < |rest| && WrittenTo(rest, k, h, p, w1, r.w.dev);
          OneMore(cs, k, h, p, w, w1, r.w.dev);
        }
      }
    }
  }

  /** Chunk k is the first that does not fit; those before it have been written. */
  ghost predicate WrittenTo(cs: seq<Chunk>, k: nat, h: Header, p: Part, w: W, dev: seq<Block>)
    requires Setup(h, p) && AllOk(cs, h, p) && k < |cs|
  {
    && AllFit(cs[..k], h, p, w.blk) && !Fits(cs[k], h, p, w.blk + |ExpandAll(cs[..k], h, p)|)
    && dev == Overlay(w.dev, w.blk, ExpandAll(cs[..k], h, p))
  }

  lemma OneMore(cs: seq<Chunk>, k: nat, h: Header, p: Part, w: W, w1: W, dev: seq<Block>)
    requires Setup(h, p) && AllOk(cs, h, p) && k + 1 < |cs| && Fits(cs[0], h, p, w.blk)
    requires w1.dev == Overlay(w.dev, w.blk, Expand(cs[0], h, p)) && w1.blk == w.blk + |Expand(cs[0], h, p)|
    requires WrittenTo(cs[1..], k, h, p, w1, dev)
    ensures WrittenTo(cs, k + 1, h, p, w, dev)
  {
    hide Overlay, Expand, Fits, Ok;
    var some := cs[..k + 1];
    assert some[0] == cs[0] && some[1..] == cs[1..][..k] && cs[1..][k] == cs[k + 1];
    assert |ExpandAll(some, h, p)| == |Expand(cs[0], h, p)| + |ExpandAll(some[1..], h, p)|;
    OverlayJoin(w.dev, w.blk, Expand(cs[0], h, p), ExpandAll(some[1..], h, p));
  }

  /** Blocks are conserved: without CRC chunks the bytes of the device blocks passed are the
      bytes of the counted image blocks. */
  lemma {:induction false} BlocksConserved(cs: seq<Chunk>, h: Header, p: Part)
    requires Setup(h, p) && AllOk(cs, h, p) && forall i :: 0 <= i < |cs| ==> !cs[i].Crc?
    ensures |ExpandAll(cs, h, p)| == Blocks(h, p, Count(cs))
    ensures |ExpandAll(cs, h, p)| * p.blksz == Count(cs) * h.blkSz
  {
    hide Blocks, Bytes;
    if cs == [] {
      CountBlocks(0, h, p);
    } else {
      BlocksConserved(cs[1..], h, p);
      BlocksAdd(h, p, cs[0].n, Count(cs[1..]));
    }
    CountBlocks(Count(cs), h, p);
  }

  lemma BlocksAdd(h: Header, p: Part, a: nat, b: nat)
    requires p.blksz > 0
    ensures Blocks(h, p, a + b) == Blocks(h, p, a) + Blocks(h, p, b)
  {
  }

  /** A CRC32 chunk goes through exactly if its total size is that of its header alone, and
      then its data is skipped as if it were that of a raw chunk. As the format defines it, the
      total size counts four bytes of data, so it is always refused. */
  lemma CrcAcceptedIff(m: Memory, h: Header, p: Part, w: W, drv: Driver)
    requires Sane(h, p, w) && U16(m, w.pos) == 0xCAC4
    ensures var r := DoChunk(m, h, p, w, drv);
            && (r.Going? <==> U32(m, w.pos + 8) == h.chunkHdrSz)
            && (r.Failed? ==> r.why == BadCrcSize) && r.w.dev == w.dev && r.w.blk == w.blk
            && (r.Going? ==> r.w.pos == w.pos + HeaderOf(h) + Bytes(h, U32(m, w.pos + 4)) % WORD
                             && r.w.total == (w.total + U32(m, w.pos + 4)) % WORD)
  {
  }

  function HeaderOf(h: Header): nat { if h.chunkHdrSz > CHUNK_HEADER then h.chunkHdrSz else CHUNK_HEADER }

  // The file header, and so the whole image

  /** The memory holds the image of chunks `cs`, which start at `pos`. */
  ghost predicate ImageAt(m: Memory, cs: seq<Chunk>, p: Part, pos: nat) {
    var h := ReadHeader(m);
    && Setup(h, p) && AllOk(cs, h, p) && h.totalChunks == |cs| && Count(cs) < WORD
    && Holds(m, pos, EncodeAll(cs, h, p))
  }

  /** The whole function on an image whose chunks stand where the code looks for them: success
      is reported exactly when every written chunk fits, and then the partition holds the
      expanded image; a header with another block count makes it report a failure as well.
      Otherwise the failure is TooBig, and exactly the chunks before the first that does not
      fit have been written. */
  lemma FlashesImage(m: Memory, cs: seq<Chunk>, p: Part, dev: seq<Block>, drv: Driver)
    requires p.blksz > 0 && p.start + p.size <= |dev| && ReadHeader(m).blkSz > 0 && Reliable(drv)
    requires ImageAt(m, cs, p, FirstChunk(ReadHeader(m)))
    ensures var h := ReadHeader(m);
            var r := Flash(m, p, dev, drv);
            && (r.okay <==> AllFit(cs, h, p, p.start))
            && (r.okay ==> r.dev == Overlay(dev, p.start, ExpandAll(cs, h, p))
                           && r.failed == if Count(cs) == h.totalBlks then None else Some(CountMismatch))
            && (!r.okay ==> r.failed == Some(TooBig)
                            && exists k :: 0 <= k < |cs|
                                 && WrittenTo(cs, k, h, p, W(dev, p.start, FirstChunk(h), 0, 0), r.dev))
  {
    hide DoChunks, AllFit, AllOk, Overlay, ExpandAll, EncodeAll, WrittenTo;
    var h := ReadHeader(m);
    WritesExpandedImage(m, cs, h, p, W(dev, p.start, FirstChunk(h), 0, 0), drv);
  }

  /** An image as it should be: its chunks stand behind the file header it announces. */
  ghost predicate Proper(m: Memory, cs: seq<Chunk>, p: Part, dev: seq<Block>, drv: Driver) {
    && p.blksz > 0 && p.start + p.size <= |dev| && ReadHeader(m).blkSz > 0 && Reliable(drv)
    && ImageAt(m, cs, p, ReadHeader(m).fileHdrSz) && AllFit(cs, ReadHeader(m), p, p.start)
  }

  ghost predicate Flashed(m: Memory, cs: seq<Chunk>, p: Part, dev: seq<Block>, drv: Driver)
    requires Proper(m, cs, p, dev, drv)
  {
    var r := Flash(m, p, dev, drv);
    r.okay && r.dev == Overlay(dev, p.start, ExpandAll(cs, ReadHeader(m), p))
  }

  /** A file header size `sz` is safe: every proper image with it that fits is written. */
  ghost predicate SafeHeader(sz: nat) {
    forall m: Memory, cs: seq<Chunk>, p: Part, dev: seq<Block>, drv: Driver |
      Proper(m, cs, p, dev, drv) && ReadHeader(m).fileHdrSz == sz :: Flashed(m, cs, p, dev, drv)
  }

  /** A header of 32 bytes, say, is skipped and then its last 4 bytes once more: exactly the
      header sizes up to that of the known header are safe. */
  lemma SafeHeaderIff(sz: nat)
    requires sz < 0x1_0000
    ensures SafeHeader(sz) <==> sz <= FILE_HEADER
  {
    if sz <= FILE_HEADER {
      forall m: Memory, cs: seq<Chunk>, p: Part, dev: seq<Block>, drv: Driver |
        Proper(m, cs, p, dev, drv) && ReadHeader(m).fileHdrSz == sz ensures Flashed(m, cs, p, dev, drv)
      {
        hide AllFit, Holds, AllOk, Overlay, ExpandAll, EncodeAll, WrittenTo, Flash;
        FlashesImage(m, cs, p, dev, drv);
      }
    } else {
      LongHeader(sz);
    }
  }

  /** The image of one empty chunk behind a file header of `sz` bytes, everything else zero. */
  function Small(sz: nat): (m: Memory)
    requires sz < 0x1_0000
  {
    i => if i == sz then 0xC3 else if i == sz + 1 then 0xCA else if i == sz + 8 then 12
         else if i == 8 then sz % 256 else if i == 9 then sz / 256
         else if i == 10 then 12 else if i == 12 then 1 else if i == 20 then 1 else 0
  }

  const SMALL_PART := Part(0, 1, 1)

  lemma LongHeader(sz: nat)
    requires FILE_HEADER < sz < 0x1_0000
    ensures !SafeHeader(sz)
  {
    var m, cs, p: Part, dev: seq<Block>, drv: Driver := Small(sz), [DontCare(0)], SMALL_PART, [[0]], k => WORD;
    SmallHeader(sz);
    SmallProper(sz, drv);
    SmallRefused(sz, drv);
    assert Proper(m, cs, p, dev, drv) && ReadHeader(m).fileHdrSz == sz && !Flashed(m, cs, p, dev, drv);
  }

  lemma SmallHeader(sz: nat)
    requires FILE_HEADER < sz < 0x1_0000
    ensures ReadHeader(Small(sz)) == Header(sz, 12, 1, 0, 1)
  {
  }

  lemma SmallProper(sz: nat, drv: Driver)
    requires FILE_HEADER < sz < 0x1_0000 && Reliable(drv)
    ensures Proper(Small(sz), [DontCare(0)], SMALL_PART, [[0]], drv)
  {
    SmallHeader(sz);
    var m, h, c := Small(sz), Header(sz, 12, 1, 0, 1), DontCare(0);
    assert Setup(h, SMALL_PART) && Ok(c, h, SMALL_PART);
    var e := Encode(c, h, SMALL_PART);
    assert e == [0xC3, 0xCA, 0, 0, 0, 0, 0, 0, 12, 0, 0, 0];
    assert EncodeAll([c], h, SMALL_PART) == e + EncodeAll([], h, SMALL_PART) == e;
    assert AllFit([c], h, SMALL_PART, 0);
  }

  lemma SmallRefused(sz: nat, drv: Driver)
    requires FILE_HEADER < sz < 0x1_0000
    requires ReadHeader(Small(sz)) == Header(sz, 12, 1, 0, 1)
    ensures !Flash(Small(sz), SMALL_PART, [[0]], drv).okay
  {
    var m, h := Small(sz), Header(sz, 12, 1, 0, 1);
    var w := W([[0]], 0, FirstChunk(h), 0, 0);
    assert U16(m, w.pos) !in {0xCAC1, 0xCAC2, 0xCAC3, 0xCAC4};
    assert DoChunk(m, h, SMALL_PART, w, drv).Failed?;
    assert DoChunks(m, h, SMALL_PART, w, 1, drv).Failed?;
  }
}
