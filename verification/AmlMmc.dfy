/**
 Byte-granular access to a block device: get_off_size and the read, write and bounded erase
 branches of cmd_aml_mmc.c. The block length is a power of two, so the shifts of the code
 are divisions.
 */
module AmlMmc {
  import opened Wrappers

  const WORD64: nat := 0x1_0000_0000_0000_0000

  /** A request in blocks: first block, whole blocks, and bytes in one more block. */
  datatype Span = Span(blk: nat, cnt: nat, tail: nat)

  /** First byte of a block. */
  function At(blk: nat, bl: nat): nat { blk * bl }

  /** get_off_size on an absolute byte offset. */
  function GetOffSize(off: nat, size: nat, bl: nat): (s: Span)
    requires bl > 0
    ensures At(s.blk, bl) <= off < At(s.blk, bl) + bl
    ensures At(s.cnt, bl) + s.tail == size && s.tail < bl
  {
    Span(off / bl, size / bl, size - size / bl * bl)
  }

  /** Blocks the device must have. */
  function Needed(s: Span): nat { s.blk + s.cnt + if s.tail != 0 then 1 else 0 }

  lemma AtAdds(a: nat, b: nat, bl: nat)
    ensures At(a + b, bl) == At(a, bl) + At(b, bl)
  {
  }

  lemma AtGrows(a: nat, b: nat, bl: nat)
    requires a <= b
    ensures At(a, bl) <= At(b, bl)
  {
    AtAdds(a, b - a, bl);
  }

  /** An aligned offset is the first byte of its block. */
  lemma Aligned(off: nat, bl: nat)
    requires bl > 0 && off % bl == 0
    ensures Start(off, bl) == off
  {
  }

  /** Rewriting a stretch with its first bytes replaced changes only those bytes. */
  lemma PatchedHead(s: seq<byte>, p: nat, n: nat, a: seq<byte>)
    requires |a| <= n && p + n <= |s|
    ensures Patched(s, p, a + s[p..p + n][|a|..]) == Patched(s, p, a)
  {
    var whole := a + s[p..p + n][|a|..];
    assert s[p + |a|..] == s[p..p + n][|a|..] + s[p + n..];
    assert Patched(s, p, whole) == s[..p] + (a + s[p..p + n][|a|..]) + s[p + n..];
  }

  /** Where a request at `off` really starts: the offset rounded down to a block. */
  function Start(off: nat, bl: nat): (from: nat)
    requires bl > 0
    ensures from <= off < from + bl
  {
    At(off / bl, bl)
  }

  /** What a successful write of `data` at `off` leaves on a device `d`. */
  function Written(d: seq<byte>, off: nat, data: seq<byte>, bl: nat): (d': seq<byte>)
    requires bl > 0 && Start(off, bl) + |data| <= |d|
  {
    Patched(d, Start(off, bl), data)
  }

  /** The bytes of a span: `n` whole blocks of it, all of them, and the block of the tail. */
  lemma SpanBytes(off: nat, size: nat, bl: nat, n: nat, room: nat)
    requires bl > 0 && n <= GetOffSize(off, size, bl).cnt && At(Needed(GetOffSize(off, size, bl)), bl) <= room
    ensures var s := GetOffSize(off, size, bl);
            && At(s.blk, bl) == Start(off, bl) && At(n, bl) <= At(s.cnt, bl) && At(s.cnt, bl) + s.tail == size
            && At(s.blk + s.cnt, bl) == Start(off, bl) + At(s.cnt, bl) && s.tail < bl
            && Start(off, bl) + size <= room
            && (s.tail != 0 ==> At(s.blk + s.cnt, bl) + bl <= room)
  {
    var s := GetOffSize(off, size, bl);
    AtAdds(s.blk, s.cnt, bl);
    AtAdds(s.blk + s.cnt, 1, bl);
    assert At(1, bl) == bl;
    AtGrows(n, s.cnt, bl);
  }

  /** How the device answers: blocks of the first transfer done, and whether the two
      transfers of the last block succeed. */
  datatype Answers = Answers(done: nat, tailRead: bool, tailWrite: bool)

  method StoreBytes(dev: array<byte>, p: nat, data: seq<byte>)
    requires p + |data| <= dev.Length
    modifies dev
    ensures dev[..] == Patched(old(dev[..]), p, data)
  {
    forall i | 0 <= i < |data| { dev[p + i] := data[i]; }
  }

  /** The write branch: whole blocks first, then the last block is read, changed and written
      back. */
  method Write(dev: array<byte>, off: nat, data: seq<byte>, bl: nat, ans: Answers) returns (rc: int)
    requires bl > 0
    requires At(Needed(GetOffSize(off, |data|, bl)), bl) <= dev.Length
    modifies dev
    ensures Start(off, bl) + |data| <= dev.Length && rc in {0, 1}
    ensures var s := GetOffSize(off, |data|, bl);
            rc == 0 <==> ans.done >= s.cnt && (s.tail != 0 ==> ans.tailRead && ans.tailWrite)
    ensures rc == 0 ==> dev[..] == Written(old(dev[..]), off, data, bl)
    ensures rc == 1 ==> exists n :: 0 <= n <= |data| && dev[..] == Written(old(dev[..]), off, data[..n], bl)
  {
    var s := GetOffSize(off, |data|, bl);
    var n := Min(ans.done, s.cnt);
    SpanBytes(off, |data|, bl, n, dev.Length);
    hide At, Start, GetOffSize, Needed, Patched;
    ghost var d0 := dev[..];
    var head := data[..At(n, bl)];
    StoreBytes(dev, Start(off, bl), head);
    if n == s.cnt && s.tail != 0 {
      if !ans.tailRead || !ans.tailWrite { return 1; }
      var rest := data[At(s.cnt, bl)..];
      PatchBlock(dev, At(s.blk + s.cnt, bl), bl, rest);
      PatchedTwice(d0, Start(off, bl), head, rest);
      assert head + rest == data;
      return 0;
    }
    if n == s.cnt { assert head == data; return 0; }
    return 1;
  }

  /** The last block: read, its first bytes replaced, written back. */
  method PatchBlock(dev: array<byte>, start: nat, bl: nat, rest: seq<byte>)
    requires start + bl <= dev.Length && |rest| <= bl
    modifies dev
    ensures dev[..] == Patched(old(dev[..]), start, rest)
  {
    var tmp := dev[start..start + bl];
    assert tmp == dev[..][start..start + bl];
    PatchedHead(dev[..], start, bl, rest);
    StoreBytes(dev, start, rest + tmp[|rest|..]);
  }

  /** The read branch; `mem` is what arrives at the memory address. */
  method Read(dev: array<byte>, off: nat, size: nat, bl: nat, ans: Answers) returns (rc: int, mem: seq<byte>)
    requires bl > 0
    requires At(Needed(GetOffSize(off, size, bl)), bl) <= dev.Length
    ensures Start(off, bl) + size <= dev.Length
    ensures var s := GetOffSize(off, size, bl);
            rc == 0 <==> ans.done >= s.cnt && (s.tail != 0 ==> ans.tailRead)
    ensures rc == 0 ==> mem == dev[Start(off, bl)..Start(off, bl) + size]
  {
    var s := GetOffSize(off, size, bl);
    var n := Min(ans.done, s.cnt);
    SpanBytes(off, size, bl, n, dev.Length);
    hide At, Start, GetOffSize, Needed;
    var from := Start(off, bl);
    mem := dev[from..from + At(n, bl)];
    if n == s.cnt && s.tail != 0 {
      if !ans.tailRead { return 1, mem; }
      var start := At(s.blk + s.cnt, bl);
      var tmp := dev[start..start + bl];
      mem := mem + tmp[..s.tail];
      assert dev[from..from + size] == dev[from..start] + dev[start..start + s.tail];
      return 0, mem;
    }
    rc := if n == s.cnt then 0 else 1;
  }

  /** A write and a read of the same request, whatever the device answers: if both report
      success, the data comes back and, from an aligned offset, exactly its bytes have
      changed, whatever their number. */
  method WriteThenRead(dev: array<byte>, off: nat, data: seq<byte>, bl: nat, a: Answers, b: Answers)
    returns (wrote: int, read: int, mem: seq<byte>)
    requires bl > 0
    requires At(Needed(GetOffSize(off, |data|, bl)), bl) <= dev.Length
    modifies dev
    ensures wrote == 0 && read == 0 ==> mem == data
    ensures wrote == 0 && off % bl == 0 ==> off + |data| <= dev.Length && dev[..] == Patched(old(dev[..]), off, data)
  {
    wrote := Write(dev, off, data, bl, a);
    var from := Start(off, bl);
    if off % bl == 0 { Aligned(off, bl); }
    hide At, Start, GetOffSize;
    if wrote == 0 { assert dev[from..from + |data|] == dev[..][from..from + |data|] == data; }
    read, mem := Read(dev, off, |data|, bl, b);
  }

  /** The offset is rounded down to a block without a word: a successful write of `n` bytes
      goes where it was asked to, on every device and for all data, exactly if the offset is
      aligned or there is nothing to write. */
  lemma WritesInPlaceIff(off: nat, n: nat, bl: nat)
    requires bl > 0
    ensures off % bl == 0 || n == 0 <==>
            forall d: seq<byte>, data: seq<byte> | |data| == n && off + n <= |d| ::
              Written(d, off, data, bl) == Patched(d, off, data)
  {
    var from := Start(off, bl);
    if off % bl == 0 {
      Aligned(off, bl);
    } else if n == 0 {
      forall d: seq<byte>, data: seq<byte> | |data| == n && off + n <= |d|
        ensures Written(d, off, data, bl) == Patched(d, off, data)
      {
        assert Written(d, off, data, bl) == d && Patched(d, off, data) == d;
      }
    } else {
      var d: seq<byte>, data: seq<byte> := seq(off + n, _ => 0), seq(n, _ => 1);
      assert from < off by { assert off == off / bl * bl + off % bl; }
      assert Written(d, off, data, bl)[from] == 1 && Patched(d, off, data)[from] == 0;
    }
  }

  // Bounded erase

  datatype Partition = Partition(offset: nat, size: nat)

  /** The checks of the erase branch, with the 64-bit sum as computed. */
  predicate EraseAccepted(p: Partition, offset: nat, size: nat) {
    offset < p.size && (offset + size) % WORD64 <= p.size
  }

  /** The bytes erased: the whole blocks of the request. */
  function Erased(p: Partition, offset: nat, size: nat, bl: nat): (r: (nat, nat))
    requires bl > 0
  {
    var s := GetOffSize(p.offset + offset, size, bl);
    (At(s.blk, bl), At(s.blk + s.cnt, bl))
  }

  predicate Inside(p: Partition, r: (nat, nat)) { p.offset <= r.0 && r.1 <= p.offset + p.size }

  /** An accepted erase in a block-aligned partition stays inside it exactly when the end
      offset does not wrap around 64 bits. */
  lemma EraseInside(p: Partition, offset: nat, size: nat, bl: nat)
    requires 0 < bl <= 0x8000_0000 && p.offset % bl == 0 && p.size <= 0x4000_0000_0000_0000
    requires size < WORD64 && EraseAccepted(p, offset, size)
    ensures Inside(p, Erased(p, offset, size, bl)) <==> offset + size < WORD64
  {
    var s := GetOffSize(p.offset + offset, size, bl);
    AtAdds(s.blk, s.cnt, bl);
    BlockAbove(p.offset, offset, bl);
    if offset + size >= WORD64 { assert (offset + size) % WORD64 == offset + size - WORD64; }
  }

  lemma BlockAbove(base: nat, offset: nat, bl: nat)
    requires bl > 0 && base % bl == 0
    ensures At((base + offset) / bl, bl) >= base
  {
    var q := base / bl;
    assert base == q * bl;
    if (base + offset) / bl < q {
      AtGrows((base + offset) / bl + 1, q, bl);
      AtAdds((base + offset) / bl, 1, bl);
    }
  }

  /** Such an erase exists: a gigabyte at the start of the device, and all of the 64-bit range
      but one block from its second block on. */
  lemma WrappingErase()
    ensures var p, offset, size := Partition(0, 0x4000_0000), 512, WORD64 - 512;
            && EraseAccepted(p, offset, size) && offset + size >= WORD64
            && Erased(p, offset, size, 512) == (512, WORD64) && !Inside(p, Erased(p, offset, size, 512))
  {
  }
}
