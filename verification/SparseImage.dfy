/**
 write_sparse_image of aboot.c: a sparse image in memory is written to a partition chunk
 by chunk. All reads go through little-endian fields of the raw bytes; memory is a total
 function because the code never compares its read position with the image size.
 */
module SparseImage {
  import opened Wrappers
  import Arith

  type Memory = nat -> byte
  type Block = seq<byte>

  const WORD: nat := 0x1_0000_0000

  function U16(m: Memory, p: nat): (v: nat)
    ensures v < 0x1_0000
  {
    m(p) + 256 * m(p + 1)
  }

  function U32(m: Memory, p: nat): (v: nat)
    ensures v < WORD
  {
    U16(m, p) + 0x1_0000 * U16(m, p + 2)
  }

  /** The fields of the file header that are used. */
  datatype Header = Header(fileHdrSz: nat, chunkHdrSz: nat, blkSz: nat, totalBlks: nat, totalChunks: nat)

  function ReadHeader(m: Memory): (h: Header) {
    Header(U16(m, 8), U16(m, 10), U32(m, 12), U32(m, 16), U32(m, 20))
  }

  const FILE_HEADER: nat := 28
  const CHUNK_HEADER: nat := 12

  /** Where the chunks start; a header longer than expected is skipped one and a bit times. */
  function FirstChunk(h: Header): nat {
    h.fileHdrSz + if h.fileHdrSz > FILE_HEADER then h.fileHdrSz - FILE_HEADER else 0
  }

  /** The partition, in blocks of `blksz` bytes. */
  datatype Part = Part(start: nat, size: nat, blksz: nat)

  datatype Fail =
    | BadBlockSize | BadRawSize | BadFillSize | BadCrcSize | TooBig | WriteError | UnknownType | CountMismatch

  /** The device, the next block, the read position, the count of sparse blocks and the
      number of write calls made. */
  datatype W = W(dev: seq<Block>, blk: nat, pos: nat, total: nat, calls: nat)

  datatype Out = Going(w: W) | Failed(w: W, why: Fail)

  /** How many blocks the k-th write call manages to write. */
  type Driver = nat -> nat

  function MemBlock(m: Memory, pos: nat, n: nat): (b: Block) { seq(n, i requires 0 <= i < n => m(pos + i)) }

  function MemBlocks(m: Memory, pos: nat, count: nat, n: nat): (bs: seq<Block>)
    ensures |bs| == count
    decreases count
  {
    if count == 0 then [] else [MemBlock(m, pos, n)] + MemBlocks(m, pos + n, count - 1, n)
  }

  /** A block of one repeated 4-byte word. */
  function FillBlock(m: Memory, pos: nat, n: nat): (b: Block) { seq(n, i requires 0 <= i < n => m(pos + i % 4)) }

  /** One block_write call. */
  function WriteCall(w: W, bs: seq<Block>, drv: Driver): (r: Out)
    requires w.blk + |bs| <= |w.dev|
    ensures |r.w.dev| == |w.dev|
  {
    var n := Min(drv(w.calls), |bs|);
    var w' := w.(dev := Patched(w.dev, w.blk, bs[..n]), calls := w.calls + 1);
    if n != |bs| then Failed(w', WriteError) else Going(w'.(blk := w.blk + |bs|))
  }

  /** The loop that writes a fill block `n` times. */
  function FillCalls(w: W, b: Block, n: nat, drv: Driver): (r: Out)
    requires w.blk + n <= |w.dev|
    ensures |r.w.dev| == |w.dev|
    decreases n
  {
    if n == 0 then Going(w)
    else
      match WriteCall(w, [b], drv)
      case Failed(w', why) => Failed(w', why)
      case Going(w') => FillCalls(w', b, n - 1, drv)
  }

  predicate Sane(h: Header, p: Part, w: W) {
    h.blkSz > 0 && p.blksz > 0 && p.start + p.size <= |w.dev|
  }

  /** Bytes of `n` image blocks, before the 32-bit truncation. */
  function Bytes(h: Header, n: nat): nat { h.blkSz * n }

  /** The body of the chunk loop. */
  function DoChunk(m: Memory, h: Header, p: Part, w: W, drv: Driver): (r: Out)
    requires Sane(h, p, w)
    ensures |r.w.dev| == |w.dev|
  {
    var n := U32(m, w.pos + 4);
    var dataSz := Bytes(h, n) % WORD;
    Dispatch(m, h, p, w, U16(m, w.pos), n, U32(m, w.pos + 8), dataSz, dataSz / p.blksz, drv)
  }

  /** The switch over the chunk type: `n` image blocks, `dataSz` bytes, `count` device blocks. */
  function Dispatch(m: Memory, h: Header, p: Part, w: W, kind: nat, n: nat, totalSz: nat, dataSz: nat, count: nat,
                    drv: Driver): (r: Out)
    requires Sane(h, p, w)
    ensures |r.w.dev| == |w.dev|
  {
    var w := w.(pos := w.pos + if h.chunkHdrSz > CHUNK_HEADER then h.chunkHdrSz else CHUNK_HEADER);
    var fits := w.blk + count <= p.start + p.size;
    if kind == 0xCAC1 then
      if totalSz != (h.chunkHdrSz + dataSz) % WORD then Failed(w, BadRawSize)
      else if !fits then Failed(w, TooBig)
      else
        match WriteCall(w, MemBlocks(m, w.pos, count, p.blksz), drv)
        case Failed(w', why) => Failed(w', why)
        case Going(w') => Going(w'.(pos := w.pos + dataSz, total := (w.total + n) % WORD))
    else if kind == 0xCAC2 then
      if totalSz != h.chunkHdrSz + 4 then Failed(w, BadFillSize)
      else
        var w1 := w.(pos := w.pos + 4);
        if !fits then Failed(w1, TooBig)
        else
          match FillCalls(w1, FillBlock(m, w.pos, p.blksz), count, drv)
          case Failed(w', why) => Failed(w', why)
          case Going(w') => Going(w'.(total := (w.total + dataSz / h.blkSz) % WORD))
    else if kind == 0xCAC3 then
      Going(w.(blk := w.blk + count, total := (w.total + n) % WORD))
    else if kind == 0xCAC4 then
      if totalSz != h.chunkHdrSz then Failed(w, BadCrcSize)
      else Going(w.(total := (w.total + n) % WORD, pos := w.pos + dataSz))
    else Failed(w, UnknownType)
  }

  function DoChunks(m: Memory, h: Header, p: Part, w: W, left: nat, drv: Driver): (r: Out)
    requires Sane(h, p, w)
    ensures |r.w.dev| == |w.dev|
    decreases left
  {
    if left == 0 then Going(w)
    else
      match DoChunk(m, h, p, w, drv)
      case Failed(w', why) => Failed(w', why)
      case Going(w') => DoChunks(m, h, p, w', left - 1, drv)
  }

  /** The device, the failure reported and whether success is. */
  datatype Report = Report(dev: seq<Block>, failed: Option<Fail>, okay: bool)

  /** The whole of write_sparse_image. A wrong block count at the end reports a failure and
      then success. */
  function Flash(m: Memory, p: Part, dev: seq<Block>, drv: Driver): (r: Report)
    requires p.blksz > 0 && p.start + p.size <= |dev| && ReadHeader(m).blkSz > 0
  {
    var h := ReadHeader(m);
    if h.blkSz % p.blksz != 0 then Report(dev, Some(BadBlockSize), false)
    else
      match DoChunks(m, h, p, W(dev, p.start, FirstChunk(h), 0, 0), h.totalChunks, drv)
      case Failed(w, why) => Report(w.dev, Some(why), false)
      case Going(w) => Report(w.dev, if w.total != h.totalBlks then Some(CountMismatch) else None, true)
  }

  /** The block number stays far below 2^64, where the code counts in 64 bits: a chunk adds
      less than 2^32 blocks to it. */
  lemma {:induction false} BlockNumberBound(m: Memory, h: Header, p: Part, w: W, left: nat, drv: Driver)
    requires Sane(h, p, w)
    ensures DoChunks(m, h, p, w, left, drv).w.blk <= w.blk + left * (WORD - 1)
    decreases left
  {
    if left > 0 {
      hide DoChunk;
      var r := DoChunk(m, h, p, w, drv);
      ChunkBound(m, h, p, w, drv);
      assert left * (WORD - 1) == (WORD - 1) + (left - 1) * (WORD - 1);
      if r.Going? { BlockNumberBound(m, h, p, r.w, left - 1, drv); }
    }
  }

  lemma ChunkBound(m: Memory, h: Header, p: Part, w: W, drv: Driver)
    requires Sane(h, p, w)
    ensures DoChunk(m, h, p, w, drv).w.blk <= w.blk + (WORD - 1)
  {
    hide U16, U32, Dispatch, Bytes;
    var n := U32(m, w.pos + 4);
    var dataSz := Bytes(h, n) % WORD;
    assert dataSz / p.blksz <= dataSz by { Arith.QuotientSmall(dataSz, p.blksz); }
    DispatchBound(m, h, p, w, U16(m, w.pos), n, U32(m, w.pos + 8), dataSz, dataSz / p.blksz, drv);
  }

  lemma DispatchBound(m: Memory, h: Header, p: Part, w: W, kind: nat, n: nat, totalSz: nat, dataSz: nat, count: nat,
                      drv: Driver)
    requires Sane(h, p, w)
    ensures Dispatch(m, h, p, w, kind, n, totalSz, dataSz, count, drv).w.blk <= w.blk + count
  {
    hide MemBlocks, FillBlock, FillCalls;
    var w1 := w.(pos := w.pos + if h.chunkHdrSz > CHUNK_HEADER then h.chunkHdrSz else CHUNK_HEADER);
    if kind == 0xCAC2 && w.blk + count <= p.start + p.size {
      FillBound(w1.(pos := w1.pos + 4), FillBlock(m, w1.pos, p.blksz), count, drv);
    }
  }

  lemma {:induction false} FillBound(w: W, b: Block, n: nat, drv: Driver)
    requires w.blk + n <= |w.dev|
    ensures FillCalls(w, b, n, drv).w.blk <= w.blk + n
    decreases n
  {
    if n > 0 {
      var r := WriteCall(w, [b], drv);
      if r.Going? { FillBound(r.w, b, n - 1, drv); }
    }
  }

  /** With the partition in the first 2^32 blocks, no sum of the block number and the size of
      the next chunk reaches 2^64, so the comparison with the end of the partition is exact. */
  lemma NoWrap64(m: Memory, h: Header, p: Part, dev: seq<Block>, pos: nat, k: nat, n: nat, drv: Driver)
    requires Sane(h, p, W(dev, p.start, pos, 0, 0)) && p.start < WORD && k < h.totalChunks < WORD
    ensures DoChunks(m, h, p, W(dev, p.start, pos, 0, 0), k, drv).w.blk + Bytes(h, n) % WORD / p.blksz
            < 0x1_0000_0000_0000_0000
  {
    hide DoChunks, Bytes;
    BlockNumberBound(m, h, p, W(dev, p.start, pos, 0, 0), k, drv);
    Arith.QuotientSmall(Bytes(h, n) % WORD, p.blksz);
    assert k * (WORD - 1) <= (WORD - 2) * (WORD - 1);
  }

  // Safety, for every memory content

  ghost predicate OnlyInside(p: Part, dev: seq<Block>, dev': seq<Block>) {
    |dev'| == |dev| && forall i :: 0 <= i < |dev| && !(p.start <= i < p.start + p.size) ==> dev'[i] == dev[i]
  }

  lemma {:induction false} FillInside(w: W, b: Block, n: nat, drv: Driver, p: Part)
    requires p.start <= w.blk && w.blk + n <= p.start + p.size <= |w.dev|
    ensures OnlyInside(p, w.dev, FillCalls(w, b, n, drv).w.dev)
    ensures FillCalls(w, b, n, drv).w.blk >= w.blk
    decreases n
  {
    if n > 0 {
      var r := WriteCall(w, [b], drv);
      if r.Going? { FillInside(r.w, b, n - 1, drv, p); }
    }
  }

  lemma WriteInside(w: W, bs: seq<Block>, drv: Driver, p: Part)
    requires p.start <= w.blk && w.blk + |bs| <= p.start + p.size <= |w.dev|
    ensures OnlyInside(p, w.dev, WriteCall(w, bs, drv).w.dev) && WriteCall(w, bs, drv).w.blk >= w.blk
  {
  }

  lemma ChunkInside(m: Memory, h: Header, p: Part, w: W, drv: Driver)
    requires Sane(h, p, w) && p.start <= w.blk
    ensures var r := DoChunk(m, h, p, w, drv);
            OnlyInside(p, w.dev, r.w.dev) && (r.Going? ==> p.start <= r.w.blk)
  {
    hide U16, U32, Bytes, Dispatch;
    var n := U32(m, w.pos + 4);
    var dataSz := Bytes(h, n) % WORD;
    DispatchInside(m, h, p, w, U16(m, w.pos), n, U32(m, w.pos + 8), dataSz, dataSz / p.blksz, drv);
  }

  lemma DispatchInside(m: Memory, h: Header, p: Part, w: W, kind: nat, n: nat, totalSz: nat, dataSz: nat, count: nat,
                       drv: Driver)
    requires Sane(h, p, w) && p.start <= w.blk
    ensures var r := Dispatch(m, h, p, w, kind, n, totalSz, dataSz, count, drv);
            OnlyInside(p, w.dev, r.w.dev) && (r.Going? ==> p.start <= r.w.blk)
  {
    hide WriteCall, FillCalls, MemBlocks, FillBlock;
    var w1 := w.(pos := w.pos + if h.chunkHdrSz > CHUNK_HEADER then h.chunkHdrSz else CHUNK_HEADER);
    if w.blk + count <= p.start + p.size {
      if kind == 0xCAC1 { WriteInside(w1, MemBlocks(m, w1.pos, count, p.blksz), drv, p); }
      if kind == 0xCAC2 { FillInside(w1.(pos := w1.pos + 4), FillBlock(m, w1.pos, p.blksz), count, drv, p); }
    }
  }

  /** Whatever the chunks say and whatever the driver does, no block outside the partition
      is ever changed. */
  lemma {:induction false} NeverOutside(m: Memory, h: Header, p: Part, w: W, left: nat, drv: Driver)
    requires Sane(h, p, w) && p.start <= w.blk
    ensures OnlyInside(p, w.dev, DoChunks(m, h, p, w, left, drv).w.dev)
    decreases left
  {
    if left > 0 {
      hide DoChunk;
      ChunkInside(m, h, p, w, drv);
      var r := DoChunk(m, h, p, w, drv);
      if r.Going? { NeverOutside(m, h, p, r.w, left - 1, drv); }
    }
  }

  // The writer as the C code has it

  /** block_write, as far as it gets. */
  method BlockWrite(dev: array<Block>, bs: seq<Block>, w: W, drv: Driver) returns (r: Out)
    requires w.blk + |bs| <= dev.Length && w.dev == dev[..]
    modifies dev
    ensures r == WriteCall(w, bs, drv) && dev[..] == r.w.dev
  {
    var n := Min(drv(w.calls), |bs|);
    var i := 0;
    while i < n
      invariant 0 <= i <= n && dev[..] == Patched(w.dev, w.blk, bs[..i])
    {
      hide Patched;
      PatchedNext(w.dev, w.blk, bs, i);
      dev[w.blk + i] := bs[i];
      i := i + 1;
    }
    var w1 := w.(dev := dev[..], calls := w.calls + 1);
    return if n != |bs| then Failed(w1, WriteError) else Going(w1.(blk := w.blk + n));
  }

  lemma WentOn(w: W, bs: seq<Block>, drv: Driver)
    requires w.blk + |bs| <= |w.dev|
    ensures var r := WriteCall(w, bs, drv);
            r.Going? ==> r.w.blk == w.blk + |bs|
  {
  }

  /** The loop over one chunk's fill blocks. */
  method FillLoop(dev: array<Block>, b: Block, count: nat, w: W, drv: Driver) returns (r: Out)
    requires w.blk + count <= dev.Length && dev[..] == w.dev
    modifies dev
    ensures r == FillCalls(w, b, count, drv) && dev[..] == r.w.dev
  {
    hide WriteCall;
    var i, w1 := 0, w;
    while i < count
      invariant 0 <= i <= count && w1.dev == dev[..] && w1.blk == w.blk + i
      invariant FillCalls(w1, b, count - i, drv) == FillCalls(w, b, count, drv)
    {
      WentOn(w1, [b], drv);
      var c := BlockWrite(dev, [b], w1, drv);
      if c.Failed? { return c; }
      w1 := c.w;
      i := i + 1;
    }
    return Going(w1);
  }

  /** write_sparse_image. `failed` is the failure reported, `okay` whether success is; a
      wrong block count at the end reports both. */
  method WriteSparseImage(dev: array<Block>, m: Memory, p: Part, drv: Driver) returns (failed: Option<Fail>, okay: bool)
    requires p.blksz > 0 && p.start + p.size <= dev.Length && ReadHeader(m).blkSz > 0
    modifies dev
    ensures OnlyInside(p, old(dev[..]), dev[..])
    ensures Report(dev[..], failed, okay) == Flash(m, p, old(dev[..]), drv)
  {
    hide U16, U32;
    var h := ReadHeader(m);
    if h.blkSz % p.blksz != 0 { return Some(BadBlockSize), false; }
    var w := W(dev[..], p.start, FirstChunk(h), 0, 0);
    NeverOutside(m, h, p, w, h.totalChunks, drv);
    ghost var goal := DoChunks(m, h, p, w, h.totalChunks, drv);
    var chunk := 0;
    while chunk < h.totalChunks
      invariant 0 <= chunk <= h.totalChunks && w.dev == dev[..] && Sane(h, p, w)
      invariant DoChunks(m, h, p, w, h.totalChunks - chunk, drv) == goal
    {
      hide DoChunk;
      var r := ChunkStep(dev, m, h, p, w, drv);
      if r.Failed? { return Some(r.why), false; }
      w := r.w;
      chunk := chunk + 1;
    }
    return if w.total != h.totalBlks then Some(CountMismatch) else None, true;
  }

  /** The body of the chunk loop. */
  method ChunkStep(dev: array<Block>, m: Memory, h: Header, p: Part, w: W, drv: Driver) returns (r: Out)
    requires Sane(h, p, w) && w.dev == dev[..]
    modifies dev
    ensures r == DoChunk(m, h, p, w, drv) && dev[..] == r.w.dev
  {
    hide U16, U32, Bytes, Dispatch;
    var kind, n, totalSz := U16(m, w.pos), U32(m, w.pos + 4), U32(m, w.pos + 8);
    var dataSz := Bytes(h, n) % WORD;
    r := SwitchType(dev, m, h, p, w, kind, n, totalSz, dataSz, dataSz / p.blksz, drv);
  }

  method SwitchType(dev: array<Block>, m: Memory, h: Header, p: Part, w0: W,
                    kind: nat, n: nat, totalSz: nat, dataSz: nat, count: nat, drv: Driver) returns (r: Out)
    requires Sane(h, p, w0) && w0.dev == dev[..]
    modifies dev
    ensures r == Dispatch(m, h, p, w0, kind, n, totalSz, dataSz, count, drv) && dev[..] == r.w.dev
  {
    hide MemBlocks, FillBlock, FillCalls, WriteCall;
    var w := w0.(pos := w0.pos + CHUNK_HEADER);
    if h.chunkHdrSz > CHUNK_HEADER { w := w.(pos := w.pos + (h.chunkHdrSz - CHUNK_HEADER)); }
    match kind
    case 0xCAC1 =>
      if totalSz != (h.chunkHdrSz + dataSz) % WORD { return Failed(w, BadRawSize); }
      if w.blk + count > p.start + p.size { return Failed(w, TooBig); }
      var bs := MemBlocks(m, w.pos, count, p.blksz);
      r := BlockWrite(dev, bs, w, drv);
      if r.Going? { r := Going(r.w.(total := (w.total + n) % WORD, pos := w.pos + dataSz)); }
    case 0xCAC2 =>
      if totalSz != h.chunkHdrSz + 4 { return Failed(w, BadFillSize); }
      var b := FillBlock(m, w.pos, p.blksz);
      w := w.(pos := w.pos + 4);
      if w.blk + count > p.start + p.size { return Failed(w, TooBig); }
      r := FillLoop(dev, b, count, w, drv);
      if r.Going? { r := Going(r.w.(total := (w.total + dataSz / h.blkSz) % WORD)); }
    case 0xCAC3 =>
      return Going(w.(blk := w.blk + count, total := (w.total + n) % WORD));
    case 0xCAC4 =>
      if totalSz != h.chunkHdrSz { return Failed(w, BadCrcSize); }
      return Going(w.(total := (w.total + n) % WORD, pos := w.pos + dataSz));
    case _ =>
      return Failed(w, UnknownType);
  }
}
