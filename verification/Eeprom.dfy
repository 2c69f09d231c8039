/**
 The chunk loops of cmd_eeprom.c against a serial EEPROM. The driver sends the low byte of
 the word address first and the chip takes the first byte as the high one, so the code
 swaps the two bytes. The address counter of the chip only moves inside a page.
 */
module Eeprom {
  import opened Wrappers
  import Arith

  const SIZE: nat := 0x1_0000

  function BitOr(a: byte, b: byte): byte { ((a as bv8) | (b as bv8)) as byte }

  /** The word address sent for offset `x` of block `n`: both bytes swapped, and the block
      number or-ed into the upper one. */
  function Word(n: byte, x: nat): (w: nat)
    requires x < SIZE
    ensures w < SIZE
  {
    BitOr(x % 256, n) * 256 + x / 256
  }

  /** Where the chip looks, given the two bytes in the order they are sent. */
  function Location(w: nat): (at: nat)
    requires w < SIZE
    ensures at < SIZE
  {
    w % 256 * 256 + w / 256
  }

  lemma OrZero(a: byte)
    ensures BitOr(a, 0) == a && BitOr(0, a) == a && BitOr(a, a) == a
  {
    assert (a as bv8) | 0 == a as bv8 && (a as bv8) | (a as bv8) == a as bv8;
  }

  /** In the first block the chip looks exactly where it should. */
  lemma WordReaches(x: nat)
    requires x < SIZE
    ensures Location(Word(0, x)) == x
  {
    OrZero(x % 256);
  }

  ghost predicate DistinctWords(n: byte) {
    forall x: nat, y: nat | x < SIZE && y < SIZE && Word(n, x) == Word(n, y) :: x == y
  }

  /** The comment of the source promises blocks n = 0, 1, ...: offsets keep distinct word
      addresses exactly in block 0. */
  lemma OnlyBlockZero(n: byte)
    ensures DistinctWords(n) <==> n == 0
  {
    if n == 0 {
      forall x: nat, y: nat | x < SIZE && y < SIZE && Word(n, x) == Word(n, y) ensures x == y {
        WordReaches(x);
        WordReaches(y);
      }
    } else {
      OrZero(n);
      assert Word(n, 0) == Word(n, n);
    }
  }

  // Chunks

  /** One bus transfer: where it starts and how many bytes it moves. */
  datatype Chunk = Chunk(at: nat, len: nat)

  /** The transfers for the bytes `at`..`end`. */
  function Chunks(at: nat, end: nat, page: nat, max: nat): (cs: seq<Chunk>)
    requires page > 0 && max > 0
    decreases end - at
  {
    if at >= end then []
    else
      var len := Min(end - at, Min(page - at % page, max));
      [Chunk(at, len)] + Chunks(at + len, end, page, max)
  }

  /** No byte of the chunk wraps round to the start of its page. */
  ghost predicate InPage(c: Chunk, page: nat)
    requires page > 0
  {
    c.at % page + c.len <= page
  }

  /** The chunks cover `at`..`end` in order without gap or overlap, none is empty, longer
      than `max` or across a page. */
  ghost predicate Tile(cs: seq<Chunk>, at: nat, end: nat, page: nat, max: nat)
    requires page > 0
  {
    if cs == [] then at >= end
    else
      && cs[0].at == at < end && 0 < cs[0].len <= max && InPage(cs[0], page)
      && at + cs[0].len <= end && Tile(cs[1..], at + cs[0].len, end, page, max)
  }

  lemma {:induction false} ChunksTile(at: nat, end: nat, page: nat, max: nat)
    requires page > 0 && max > 0
    ensures Tile(Chunks(at, end, page, max), at, end, page, max)
    decreases end - at
  {
    if at < end {
      var len := Min(end - at, Min(page - at % page, max));
      ChunksTile(at + len, end, page, max);
      assert Chunks(at, end, page, max)[1..] == Chunks(at + len, end, page, max);
    }
  }

  /** Masking with 0xFF first does not change the offset in a page of at most 256 bytes. */
  lemma PageOffset(at: nat, page: nat)
    requires page > 0 && 256 % page == 0
    ensures at % 256 % page == at % page
  {
    var k, q, r := 256 / page, at / 256, at % 256;
    assert 256 == k * page;
    assert at == q * 256 + r && r == r / page * page + r % page;
    assert q * (k * page) == q * k * page;
    assert (q * k + r / page) * page == q * k * page + r / page * page;
    Arith.QuotientUnique(at, page, q * k + r / page, r % page, at / page, at % page);
  }

  // The chip

  /** The cell that byte `i` of a transfer at `at` hits. */
  function Cell(at: nat, i: nat, page: nat): (c: nat)
    requires page > 0
  {
    at - at % page + (at % page + i) % page
  }

  lemma CellInPage(at: nat, i: nat, page: nat, len: nat)
    requires page > 0 && i < len && InPage(Chunk(at, len), page)
    ensures Cell(at, i, page) == at + i
  {
    Arith.SmallMod(at % page + i, page);
  }

  /** A write transfer: the cells are stored one after the other. */
  method BusWrite(mem: array<byte>, w: nat, data: seq<byte>, page: nat)
    requires page > 0 && w < SIZE && Location(w) + |data| <= mem.Length
    requires InPage(Chunk(Location(w), |data|), page)
    modifies mem
    ensures mem[..] == Patched(old(mem[..]), Location(w), data)
  {
    var at := Location(w);
    hide InPage, Location;
    for i := 0 to |data|
      invariant mem[..] == Patched(old(mem[..]), at, data[..i])
    {
      CellInPage(at, i, page, |data|);
      PatchedNext(old(mem[..]), at, data, i);
      mem[Cell(at, i, page)] := data[i];
    }
    assert data[..|data|] == data;
  }

  method BusRead(mem: array<byte>, w: nat, len: nat, page: nat) returns (data: seq<byte>)
    requires page > 0 && w < SIZE && Location(w) + len <= mem.Length
    requires InPage(Chunk(Location(w), len), page)
    ensures data == mem[Location(w)..Location(w) + len]
  {
    var at := Location(w);
    hide InPage, Location;
    data := [];
    for i := 0 to len
      invariant data == mem[at..at + i]
    {
      CellInPage(at, i, page, len);
      data := data + [mem[Cell(at, i, page)]];
    }
  }

  // The two loops

  /** Every byte is the old one or, inside the request, the new one. */
  ghost predicate Partly(s: seq<byte>, t: seq<byte>, p: nat, data: seq<byte>) {
    && |t| == |s|
    && forall i :: 0 <= i < |s| ==> t[i] == s[i] || (p <= i < p + |data| && t[i] == data[i - p])
  }

  lemma PartlyStep(s: seq<byte>, t: seq<byte>, p: nat, data: seq<byte>, from: nat, len: nat)
    requires Partly(s, t, p, data) && p + |data| <= |s| && from + len <= |data|
    ensures Partly(s, Patched(t, p + from, data[from..from + len]), p, data)
  {
  }

  /** The length of the transfer at `at`, as both loops compute it. */
  function Length(at: nat, end: nat, page: nat, max: nat): (len: nat)
    requires at < end && page > 0 && max > 0 && 256 % page == 0
    ensures 0 < len <= end - at && InPage(Chunk(at, len), page)
    ensures Chunks(at, end, page, max) == [Chunk(at, len)] + Chunks(at + len, end, page, max)
  {
    var off := at % 256;
    PageOffset(at, page);
    Min(end - at, Min(page - off % page, max))
  }

  /** How the first `n` transfers went. */
  ghost predicate AllFail(failed: nat -> bool, n: nat) { forall k: nat | k < n :: failed(k) }

  ghost predicate NoneFail(failed: nat -> bool, n: nat) { forall k: nat | k < n :: !failed(k) }

  lemma OneMore(failed: nat -> bool, n: nat)
    ensures AllFail(failed, n + 1) <==> AllFail(failed, n) && failed(n)
    ensures NoneFail(failed, n + 1) <==> NoneFail(failed, n) && !failed(n)
  {
  }

  /** `calls` and then the chunks from `at` on are all the chunks. */
  ghost predicate Made(calls: seq<Chunk>, off: nat, at: nat, end: nat, page: nat, max: nat)
    requires page > 0 && max > 0
  {
    calls + Chunks(at, end, page, max) == Chunks(off, end, page, max)
  }

  lemma MadeStep(calls: seq<Chunk>, off: nat, at: nat, end: nat, page: nat, max: nat)
    requires at < end && page > 0 && max > 0 && 256 % page == 0 && Made(calls, off, at, end, page, max)
    ensures var len := Length(at, end, page, max); Made(calls + [Chunk(at, len)], off, at + len, end, page, max)
  {
    var len := Length(at, end, page, max);
    var rest := Chunks(at + len, end, page, max);
    assert calls + ([Chunk(at, len)] + rest) == calls + [Chunk(at, len)] + rest;
  }

  lemma MadeStart(off: nat, end: nat, page: nat, max: nat)
    requires page > 0 && max > 0
    ensures Made([], off, off, end, page, max)
  {
  }

  lemma MadeAll(calls: seq<Chunk>, off: nat, end: nat, page: nat, max: nat)
    requires page > 0 && max > 0 && Made(calls, off, end, end, page, max)
    ensures calls == Chunks(off, end, page, max)
  {
  }

  /** One transfer of eeprom_write. */
  method WriteChunk(mem: array<byte>, off: nat, data: seq<byte>, from: nat, len: nat, page: nat, ghost s: seq<byte>)
    requires page > 0 && len > 0 && from + len <= |data| && off + |data| <= mem.Length <= SIZE && |s| == mem.Length
    requires InPage(Chunk(off + from, len), page) && Partly(s, mem[..], off, data)
    modifies mem
    ensures Partly(s, mem[..], off, data)
    ensures old(mem[..]) == Patched(s, off, data[..from]) ==> mem[..] == Patched(s, off, data[..from + len])
  {
    hide Partly, InPage, Patched, Word, Location;
    var part := data[from..from + len];
    WordReaches(off + from);
    PartlyStep(s, mem[..], off, data, from, len);
    BusWrite(mem, Word(0, off + from), part, page);
    PatchedTwice(s, off, data[..from], part);
    assert data[..from] + part == data[..from + len];
  }

  lemma PartlyStart(s: seq<byte>, p: nat, data: seq<byte>)
    requires p <= |s|
    ensures Partly(s, s, p, data) && s == Patched(s, p, data[..0])
  {
  }

  /** eeprom_write. `failed(k)` says whether the k-th transfer fails; one that does leaves
      the chip alone. The result is 1 as soon as a transfer succeeds. */
  method Write(mem: array<byte>, off: nat, data: seq<byte>, page: nat, max: nat, failed: nat -> bool)
    returns (rc: int, calls: seq<Chunk>)
    requires page > 0 && max > 0 && 256 % page == 0
    requires off + |data| <= mem.Length <= SIZE
    modifies mem
    ensures calls == Chunks(off, off + |data|, page, max)
    ensures rc in {0, 1} && (rc == 0 <==> AllFail(failed, |calls|))
    ensures NoneFail(failed, |calls|) ==> mem[..] == Patched(old(mem[..]), off, data)
    ensures Partly(old(mem[..]), mem[..], off, data)
  {
    hide Partly, Chunks, Made, InPage, Patched, Word, Location, Length;
    var at: nat, end := off, off + |data|;
    rc, calls := 0, [];
    ghost var s := mem[..];
    MadeStart(off, end, page, max);
    PartlyStart(s, off, data);
    while at < end
      invariant off <= at <= end && Made(calls, off, at, end, page, max)
      invariant rc in {0, 1} && (rc == 0 <==> AllFail(failed, |calls|))
      invariant NoneFail(failed, |calls|) ==> mem[..] == Patched(s, off, data[..at - off])
      invariant Partly(s, mem[..], off, data)
    {
      hide AllFail, NoneFail;
      MadeStep(calls, off, at, end, page, max);
      OneMore(failed, |calls|);
      var len := Length(at, end, page, max);
      if !failed(|calls|) {
        WriteChunk(mem, off, data, at - off, len, page, s);
        rc := 1;
      }
      calls := calls + [Chunk(at, len)];
      at := at + len;
    }
    MadeAll(calls, off, end, page, max);
    assert data[..|data|] == data;
  }

  /** eeprom_read: the transfers stop at 256-byte boundaries. `before` is what the buffer
      held; a failed transfer leaves its part alone. */
  method Read(mem: array<byte>, off: nat, before: seq<byte>, max: nat, failed: nat -> bool)
    returns (rc: int, buffer: seq<byte>, calls: seq<Chunk>)
    requires max > 0 && off + |before| <= mem.Length <= SIZE
    ensures calls == Chunks(off, off + |before|, 256, max)
    ensures rc in {0, 1} && (rc == 0 <==> NoneFail(failed, |calls|))
    ensures |buffer| == |before| && (rc == 0 ==> buffer == mem[off..off + |before|])
  {
    hide Chunks, Made, InPage, Word, Location, Length;
    var at: nat, end := off, off + |before|;
    rc, calls, buffer := 0, [], [];
    MadeStart(off, end, 256, max);
    while at < end
      invariant off <= at <= end && |buffer| == at - off && Made(calls, off, at, end, 256, max)
      invariant rc in {0, 1} && (rc == 0 <==> NoneFail(failed, |calls|))
      invariant rc == 0 ==> buffer == mem[off..at]
    {
      hide AllFail, NoneFail;
      MadeStep(calls, off, at, end, 256, max);
      OneMore(failed, |calls|);
      var len := Length(at, end, 256, max);
      var part := before[at - off..at - off + len];
      if failed(|calls|) {
        rc := 1;
      } else {
        WordReaches(at);
        part := BusRead(mem, Word(0, at), len, 256);
        assert mem[off..at + len] == mem[off..at] + mem[at..at + len];
      }
      calls := calls + [Chunk(at, len)];
      buffer := buffer + part;
      at := at + len;
    }
    MadeAll(calls, off, end, 256, max);
  }

  /** Writing and reading back, whatever the page and transfer sizes. */
  method WriteThenRead(mem: array<byte>, off: nat, data: seq<byte>, before: seq<byte>, page: nat, max: nat, max': nat)
    returns (buffer: seq<byte>)
    requires page > 0 && max > 0 && max' > 0 && 256 % page == 0 && |before| == |data|
    requires off + |data| <= mem.Length <= SIZE
    modifies mem
    ensures buffer == data && mem[..] == Patched(old(mem[..]), off, data)
  {
    var rc, calls := Write(mem, off, data, page, max, k => false);
    assert mem[off..off + |data|] == mem[..][off..off + |data|] == data;
    rc, buffer, calls := Read(mem, off, before, max', k => false);
  }
}
