/**
 Saving and restoring boot timing records: append_data, get_record_name, bootstage_stash
 and bootstage_unstash of bootstage.c, byte for byte in the layout of a 64-bit machine.
 */
module Bootstage {
  import opened Wrappers

  type Text = seq<byte>

  const MAGIC: nat := 0xb00757a3
  const HEADER: nat := 16
  const RECORD: nat := 32
  const ID_USER: nat := 171
  const U32: nat := 0x1_0000_0000
  const U64: nat := 0x1_0000_0000_0000_0000

  /** struct bootstage_record; the name is the string its pointer leads to. */
  datatype Rec = Rec(time: nat, start: nat, name: Option<Text>, flags: nat, id: nat)

  predicate Ok(r: Rec) {
    && r.time < U64 && r.start < U32 && r.flags < U32 && r.id < U32
    && (r.name.Some? ==> 0 !in r.name.value)
  }

  // Little-endian numbers

  function Pow256(n: nat): nat { if n == 0 then 1 else 256 * Pow256(n - 1) }

  function Le(v: nat, n: nat): (bs: seq<byte>)
    ensures |bs| == n
    decreases n
  {
    if n == 0 then [] else [v % 256] + Le(v / 256, n - 1)
  }

  function Num(bs: seq<byte>): (v: nat) {
    if bs == [] then 0 else bs[0] + 256 * Num(bs[1..])
  }

  lemma {:induction false} NumLe(v: nat, n: nat)
    requires v < Pow256(n)
    ensures Num(Le(v, n)) == v
    decreases n
  {
    if n > 0 {
      assert Le(v, n)[1..] == Le(v / 256, n - 1);
      NumLe(v / 256, n - 1);
    }
  }

  lemma Sizes()
    ensures Pow256(4) == U32 && Pow256(8) == U64
  {
    assert Pow256(2) == 65536;
    assert Pow256(4) == 256 * (256 * Pow256(2));
    assert Pow256(6) == 256 * (256 * Pow256(4));
    assert Pow256(8) == 256 * (256 * Pow256(6));
  }

  // Names

  function Digits(n: nat): (t: Text)
    ensures t != [] && 0 !in t
  {
    if n < 10 then [48 + n] else Digits(n / 10) + [48 + n % 10]
  }

  const USER_PREFIX: Text := [117, 115, 101, 114, 95]   // user_
  const ID_PREFIX: Text := [105, 100, 61]               // id=

  /** get_record_name: unnamed records are named after their number. */
  function NameOf(r: Rec): (t: Text)
    ensures Ok(r) ==> 0 !in t
  {
    match r.name
    case Some(t) => t
    case None => if r.id >= ID_USER then USER_PREFIX + Digits(r.id - ID_USER) else ID_PREFIX + Digits(r.id)
  }

  // The saved form

  /** A record as it lies in memory; `ptr` is the address in its name field. */
  function RecBytes(r: Rec, ptr: nat): (bs: seq<byte>)
    ensures |bs| == RECORD
  {
    Le(r.time, 8) + Le(r.start, 4) + Le(0, 4) + Le(ptr, 8) + Le(r.flags, 4) + Le(r.id, 4)
  }

  function RecOf(bs: seq<byte>): (r: Rec)
    requires |bs| == RECORD
  {
    Rec(Num(bs[..8]), Num(bs[8..12]), None, Num(bs[24..28]), Num(bs[28..]))
  }

  lemma RecRoundTrip(r: Rec, ptr: nat)
    requires Ok(r)
    ensures RecOf(RecBytes(r, ptr)) == r.(name := None)
  {
    hide Le, Num, Pow256;
    Sizes();
    var bs := RecBytes(r, ptr);
    assert bs[..8] == Le(r.time, 8);
    assert bs[8..12] == Le(r.start, 4);
    assert bs[24..28] == Le(r.flags, 4);
    assert bs[28..] == Le(r.id, 4);
    NumLe(r.time, 8);
    NumLe(r.start, 4);
    NumLe(r.flags, 4);
    NumLe(r.id, 4);
  }

  /** The records that have a time. */
  function Live(rs: seq<Rec>): (ls: seq<Rec>)
    ensures |ls| <= |rs|
  {
    if rs == [] then [] else (if rs[0].time != 0 then [rs[0]] else []) + Live(rs[1..])
  }

  type Addr = Rec -> nat

  function AllRecs(ls: seq<Rec>, addr: Addr): (bs: seq<byte>)
    ensures |bs| == RECORD * |ls|
  {
    if ls == [] then [] else RecBytes(ls[0], addr(ls[0])) + AllRecs(ls[1..], addr)
  }

  function AllNames(ls: seq<Rec>): (bs: seq<byte>) {
    if ls == [] then [] else NameOf(ls[0]) + [0] + AllNames(ls[1..])
  }

  function Header(count: nat, size: nat): (bs: seq<byte>)
    ensures |bs| == HEADER
  {
    Le(0, 4) + Le(count, 4) + Le(size, 4) + Le(MAGIC, 4)
  }

  function Body(ls: seq<Rec>, addr: Addr): (bs: seq<byte>) { AllRecs(ls, addr) + AllNames(ls) }

  // Saving

  /** After the header, the buffer holds `done` as long as that fits. */
  ghost predicate Holds(s: seq<byte>, end: nat, ptr: nat, done: seq<byte>) {
    ptr == HEADER + |done| && end <= |s| && (ptr <= end ==> s[HEADER..ptr] == done)
  }

  /** Only buf[HEADER..end] may differ. */
  ghost predicate Framed(s: seq<byte>, t: seq<byte>, end: nat) {
    HEADER <= end <= |s| == |t| && s[..HEADER] == t[..HEADER] && s[end..] == t[end..]
  }

  /** append_data: the position always moves on; the bytes are written only if they fit. */
  method AppendData(buf: array<byte>, ptr: nat, end: nat, data: seq<byte>, ghost done: seq<byte>) returns (ptr': nat)
    requires HEADER <= end <= buf.Length && Holds(buf[..], end, ptr, done)
    modifies buf
    ensures ptr' == ptr + |data| && Holds(buf[..], end, ptr', done + data) && Framed(old(buf[..]), buf[..], end)
  {
    ptr' := ptr + |data|;
    if ptr' > end { return; }
    forall i | 0 <= i < |data| { buf[ptr + i] := data[i]; }
    assert buf[HEADER..ptr'] == old(buf[HEADER..ptr]) + data;
  }

  method CountLive(record: seq<Rec>) returns (count: nat)
    ensures count == |Live(record)|
  {
    count := 0;
    var id := 0;
    assert record[0..] == record;
    while id < |record|
      invariant 0 <= id <= |record| && count + |Live(record[id..])| == |Live(record)|
    {
      if record[id].time != 0 { count := count + 1; }
      assert record[id..][1..] == record[id + 1..];
      id := id + 1;
    }
  }

  method SetHeader(buf: array<byte>, count: nat, size: nat)
    requires HEADER <= buf.Length
    modifies buf
    ensures buf[..HEADER] == Header(count, size) && buf[HEADER..] == old(buf[HEADER..])
  {
    hide Le;
    var h := Header(count, size);
    forall i | 0 <= i < HEADER { buf[i] := h[i]; }
  }

  /** bootstage_stash into buf[..size]. */
  method Stash(buf: array<byte>, size: nat, record: seq<Rec>, addr: Addr) returns (ok: bool)
    requires size <= buf.Length
    modifies buf
    ensures buf[size..] == old(buf[size..])
    ensures var ls := Live(record);
            var total := HEADER + |Body(ls, addr)|;
            && (ok <==> total <= size)
            && (ok ==> buf[..total] == Header(|ls|, total) + Body(ls, addr))
            && (!ok && HEADER <= size ==> buf[..HEADER] == Header(|ls|, 0))
            && (size < HEADER ==> buf[..] == old(buf[..]))
  {
    hide Header, AllRecs, AllNames, Live;
    if HEADER > size { return false; }
    var count := CountLive(record);
    SetHeader(buf, count, 0);
    ghost var s1 := buf[..];
    assert s1[size..] == s1[HEADER..][size - HEADER..];
    var ptr := WriteRecords(buf, size, record, addr);
    ptr := WriteNames(buf, size, record, ptr, AllRecs(Live(record), addr));
    ghost var s2 := buf[..];
    if ptr > size { return false; }
    SetHeader(buf, count, ptr);
    ghost var s3 := buf[..];
    assert s3[HEADER..ptr] == s3[HEADER..][..ptr - HEADER] == s2[HEADER..ptr];
    assert s3[size..] == s3[HEADER..][size - HEADER..] == s2[size..];
    assert s3[..ptr] == s3[..HEADER] + s3[HEADER..ptr];
    return true;
  }

  method WriteRecords(buf: array<byte>, size: nat, record: seq<Rec>, addr: Addr) returns (ptr: nat)
    requires HEADER <= size <= buf.Length
    modifies buf
    ensures Holds(buf[..], size, ptr, AllRecs(Live(record), addr)) && Framed(old(buf[..]), buf[..], size)
  {
    hide Holds, RecBytes, AllRecs, Live;
    ptr := HEADER;
    ghost var done: seq<byte> := [];
    var id := 0;
    assert record[0..] == record;
    NoneYet(buf[..], size);
    while id < |record|
      invariant 0 <= id <= |record| && Holds(buf[..], size, ptr, done) && Framed(old(buf[..]), buf[..], size)
      invariant done + AllRecs(Live(record[id..]), addr) == AllRecs(Live(record), addr)
    {
      LiveHead(record[id..]);
      assert record[id..][1..] == record[id + 1..];
      if record[id].time != 0 {
        RecsHead(record[id], Live(record[id + 1..]), addr);
        var bs := RecBytes(record[id], addr(record[id]));
        ptr := AppendData(buf, ptr, size, bs, done);
        done := done + bs;
      }
      id := id + 1;
    }
    LiveNil(record);
    assert AllRecs([], addr) == [] by { RecsHead(Rec(0, 0, None, 0, 0), [], addr); }
    assert done + [] == done;
  }

  method WriteNames(buf: array<byte>, size: nat, record: seq<Rec>, at: nat, ghost recs: seq<byte>) returns (ptr: nat)
    requires HEADER <= size <= buf.Length && Holds(buf[..], size, at, recs)
    modifies buf
    ensures Holds(buf[..], size, ptr, recs + AllNames(Live(record))) && Framed(old(buf[..]), buf[..], size)
  {
    hide Holds, AllNames, Live, NameOf;
    ptr := at;
    ghost var done: seq<byte> := [];
    var id := 0;
    assert record[0..] == record && recs + [] == recs;
    while id < |record|
      invariant 0 <= id <= |record| && Holds(buf[..], size, ptr, recs + done) && Framed(old(buf[..]), buf[..], size)
      invariant done + AllNames(Live(record[id..])) == AllNames(Live(record))
    {
      LiveHead(record[id..]);
      assert record[id..][1..] == record[id + 1..];
      if record[id].time != 0 {
        NamesHead(record[id], Live(record[id + 1..]));
        var bs := NameOf(record[id]) + [0];
        ptr := AppendData(buf, ptr, size, bs, recs + done);
        assert recs + done + bs == recs + (done + bs);
        done := done + bs;
      }
      id := id + 1;
    }
    LiveNil(record);
    assert AllNames([]) == [] by { NamesHead(Rec(0, 0, None, 0, 0), []); }
    assert done + [] == done;
  }

  lemma NoneYet(s: seq<byte>, end: nat)
    requires HEADER <= end <= |s|
    ensures Holds(s, end, HEADER, [])
  {
  }

  lemma LiveNil(rs: seq<Rec>)
    ensures Live(rs[|rs|..]) == []
  {
  }

  lemma LiveHead(rs: seq<Rec>)
    requires rs != []
    ensures Live(rs) == if rs[0].time != 0 then [rs[0]] + Live(rs[1..]) else Live(rs[1..])
  {
  }

  lemma RecsHead(r: Rec, rest: seq<Rec>, addr: Addr)
    ensures AllRecs([r] + rest, addr) == RecBytes(r, addr(r)) + AllRecs(rest, addr) && AllRecs([], addr) == []
  {
    assert ([r] + rest)[1..] == rest;
  }

  lemma NamesHead(r: Rec, rest: seq<Rec>)
    ensures AllNames([r] + rest) == NameOf(r) + [0] + AllNames(rest) && AllNames([]) == []
  {
    assert ([r] + rest)[1..] == rest;
  }

  // Restoring

  /** The C string at `p`, as far as the buffer goes. */
  function CString(s: seq<byte>, p: nat): (t: Text)
    ensures (p <= |s| ==> p + |t| <= |s|) && 0 !in t
    decreases |s| - p
  {
    if p >= |s| || s[p] == 0 then [] else [s[p]] + CString(s, p + 1)
  }

  /** `n` records from position p, their names from position q. */
  function ReadAll(s: seq<byte>, p: nat, q: nat, n: nat): (rs: seq<Rec>)
    requires p + RECORD * n <= |s|
    ensures |rs| == n
    decreases n
  {
    if n == 0 then []
    else
      var name := CString(s, q);
      [RecOf(s[p..p + RECORD]).(name := Some(name))] + ReadAll(s, p + RECORD, q + |name| + 1, n - 1)
  }

  function Field(s: seq<byte>, k: nat): (v: nat)
    requires |s| >= HEADER && k < 4
  {
    Num(s[4 * k..4 * k + 4])
  }

  /** The checks of bootstage_unstash on a buffer of `size` bytes, with room for `room`
      records; `size` -1 stands for no limit. */
  predicate Accepts(s: seq<byte>, size: int, room: nat)
    requires |s| >= HEADER
  {
    && (size == -1 || HEADER <= size)
    && Field(s, 3) == MAGIC
    && (size == -1 || Field(s, 2) <= size)
    && Field(s, 1) * RECORD <= Field(s, 2)
    && Field(s, 0) == 0
    && Field(s, 1) <= room
  }

  /** bootstage_unstash: what is appended to the records, or None. */
  function Unstash(s: seq<byte>, size: int, room: nat): (r: Option<seq<Rec>>)
    requires |s| >= HEADER
  {
    if Accepts(s, size, room) && HEADER + RECORD * Field(s, 1) <= |s| then
      Some(ReadAll(s, HEADER, HEADER + RECORD * Field(s, 1), Field(s, 1)))
    else None
  }

  /** bootstage_unstash on the memory `s` at the base address; the records are appended at
      nextId. */
  method Restore(s: seq<byte>, size: int, record: array<Rec>, nextId: nat) returns (ok: bool, next: nat)
    requires |s| >= HEADER && -1 <= size && nextId <= record.Length
    requires Accepts(s, size, record.Length - nextId) ==> HEADER + RECORD * Field(s, 1) <= |s|
    modifies record
    ensures ok <==> Unstash(s, size, record.Length - nextId).Some?
    ensures !ok ==> next == nextId && record[..] == old(record[..])
    ensures ok ==> var more := Unstash(s, size, record.Length - nextId).value;
                   next == nextId + |more|
                   && record[..] == old(record[..nextId]) + more + old(record[next..])
  {
    hide Num;
    next := nextId;
    if size != -1 && HEADER > size { return false, next; }
    if Field(s, 3) != MAGIC { return false, next; }
    if size != -1 && Field(s, 2) > size { return false, next; }
    var count := Field(s, 1);
    if count * RECORD > Field(s, 2) { return false, next; }
    if Field(s, 0) != 0 { return false, next; }
    if nextId + count > record.Length { return false, next; }
    ReadLoop(s, record, nextId, count);
    next := nextId + count;
    ok := true;
  }

  /** The i-th record in memory. */
  function Raw(s: seq<byte>, i: nat): (r: Rec)
    requires HEADER + RECORD * (i + 1) <= |s|
  {
    RecOf(s[HEADER + RECORD * i..HEADER + RECORD * i + RECORD])
  }

  /** The memcpy and the loop over the names. */
  method ReadLoop(s: seq<byte>, record: array<Rec>, nextId: nat, count: nat)
    requires HEADER + RECORD * count <= |s| && nextId + count <= record.Length
    modifies record
    ensures record[..] == old(record[..nextId]) + ReadAll(s, HEADER, HEADER + RECORD * count, count)
                          + old(record[nextId + count..])
  {
    hide Raw;
    forall i | 0 <= i < count { record[nextId + i] := Raw(s, i); }
    ReadNames(s, record, nextId, count);
    ghost var t := record[..];
    assert t[..nextId] == old(record[..nextId]) && t[nextId + count..] == old(record[nextId + count..]);
    assert t == t[..nextId] + t[nextId..nextId + count] + t[nextId + count..];
  }

  method ReadNames(s: seq<byte>, record: array<Rec>, nextId: nat, count: nat)
    requires HEADER + RECORD * count <= |s| && nextId + count <= record.Length
    requires forall i :: 0 <= i < count ==> record[nextId + i] == Raw(s, i)
    modifies record
    ensures record[nextId..nextId + count] == ReadAll(s, HEADER, HEADER + RECORD * count, count)
    ensures forall i :: 0 <= i < record.Length && !(nextId <= i < nextId + count) ==> record[i] == old(record[i])
  {
    hide ReadAll, CString, Raw;
    ghost var goal := ReadAll(s, HEADER, HEADER + RECORD * count, count);
    var id: nat, ptr: nat := 0, HEADER + RECORD * count;
    assert goal[0..] == goal;
    while id < count
      invariant 0 <= id <= count
      invariant forall i :: 0 <= i < record.Length && !(nextId <= i < nextId + id) ==> record[i] == old(record[i])
      invariant record[nextId..nextId + id] + ReadAll(s, HEADER + RECORD * id, ptr, count - id) == goal
    {
      var name := CString(s, ptr);
      ReadHead(s, id, ptr, count - id);
      ghost var before := record[nextId..nextId + id];
      assert record[nextId + id] == Raw(s, id);
      record[nextId + id] := record[nextId + id].(name := Some(name));
      assert record[nextId..nextId + id + 1] == before + [Raw(s, id).(name := Some(name))];
      ptr := ptr + |name| + 1;
      id := id + 1;
    }
    ReadNone(s, HEADER + RECORD * id, ptr);
  }

  lemma ReadHead(s: seq<byte>, id: nat, ptr: nat, n: nat)
    requires HEADER + RECORD * (id + n) <= |s| && n > 0
    ensures ReadAll(s, HEADER + RECORD * id, ptr, n)
         == [Raw(s, id).(name := Some(CString(s, ptr)))]
            + ReadAll(s, HEADER + RECORD * (id + 1), ptr + |CString(s, ptr)| + 1, n - 1)
  {
    hide CString, RecOf;
  }

  lemma ReadNone(s: seq<byte>, p: nat, q: nat)
    requires p <= |s|
    ensures ReadAll(s, p, q, 0) == []
  {
  }

  // Round trip

  /** A record as it comes back: its name is the resolved one. */
  function Resolved(ls: seq<Rec>): (rs: seq<Rec>)
    ensures |rs| == |ls|
  {
    seq(|ls|, i requires 0 <= i < |ls| => ls[i].(name := Some(NameOf(ls[i]))))
  }

  predicate At(s: seq<byte>, p: nat, piece: seq<byte>) {
    p + |piece| <= |s| && s[p..p + |piece|] == piece
  }

  lemma AtParts(s: seq<byte>, p: nat, a: seq<byte>, b: seq<byte>)
    requires At(s, p, a + b)
    ensures At(s, p, a) && At(s, p + |a|, b)
  {
    assert s[p..p + |a|] == s[p..p + |a + b|][..|a|];
    assert s[p + |a|..p + |a| + |b|] == s[p..p + |a + b|][|a|..];
  }

  lemma {:induction false} CStringAt(s: seq<byte>, p: nat, t: Text)
    requires 0 !in t && At(s, p, t + [0])
    ensures CString(s, p) == t
    decreases |t|
  {
    assert s[p] == s[p..p + |t| + 1][0];
    if t != [] {
      assert t + [0] == [t[0]] + (t[1..] + [0]);
      AtParts(s, p, [t[0]], t[1..] + [0]);
      CStringAt(s, p + 1, t[1..]);
    }
  }

  lemma AtSlice(s: seq<byte>, p: nat, piece: seq<byte>)
    requires At(s, p, piece)
    ensures p + |piece| <= |s| && s[p..p + |piece|] == piece
  {
  }

  /** The first record of the saved form, read back. */
  lemma FirstBack(s: seq<byte>, p: nat, q: nat, r: Rec, ptr: nat, n: nat)
    requires Ok(r) && n > 0 && At(s, p, RecBytes(r, ptr)) && At(s, q, NameOf(r) + [0]) && p + RECORD * n <= |s|
    ensures ReadAll(s, p, q, n) == [r.(name := Some(NameOf(r)))] + ReadAll(s, p + RECORD, q + |NameOf(r)| + 1, n - 1)
  {
    hide RecOf, RecBytes, CString, NameOf;
    RecRoundTrip(r, ptr);
    AtSlice(s, p, RecBytes(r, ptr));
    CStringAt(s, q, NameOf(r));
  }

  lemma {:induction false} ReadBack(s: seq<byte>, p: nat, q: nat, ls: seq<Rec>, addr: Addr)
    requires forall i :: 0 <= i < |ls| ==> Ok(ls[i])
    requires At(s, p, AllRecs(ls, addr)) && At(s, q, AllNames(ls))
    ensures ReadAll(s, p, q, |ls|) == Resolved(ls)
    decreases |ls|
  {
    hide RecBytes, NameOf, At, AllRecs, AllNames, Resolved;
    AtSlice(s, p, AllRecs(ls, addr));
    if ls == [] {
      assert |Resolved(ls)| == 0;
    } else {
      hide ReadAll;
      var r, rest := ls[0], ls[1..];
      assert Ok(r) && ls == [r] + rest;
      RecsHead(r, rest, addr);
      NamesHead(r, rest);
      ResolvedHead(r, rest);
      AtParts(s, p, RecBytes(r, addr(r)), AllRecs(rest, addr));
      AtParts(s, q, NameOf(r) + [0], AllNames(rest));
      FirstBack(s, p, q, r, addr(r), |ls|);
      ReadBack(s, p + RECORD, q + |NameOf(r)| + 1, rest, addr);
    }
  }

  lemma ResolvedHead(r: Rec, rest: seq<Rec>)
    ensures Resolved([r] + rest) == [r.(name := Some(NameOf(r)))] + Resolved(rest)
  {
  }

  lemma HeaderFields(s: seq<byte>, count: nat, size: nat)
    requires |s| >= HEADER && s[..HEADER] == Header(count, size) && count < U32 && size < U32
    ensures Field(s, 0) == 0 && Field(s, 1) == count && Field(s, 2) == size && Field(s, 3) == MAGIC
  {
    hide Le, Num, Pow256;
    Sizes();
    var h := s[..HEADER];
    assert s[0..4] == h[0..4] == Le(0, 4);
    assert s[4..8] == h[4..8] == Le(count, 4);
    assert s[8..12] == h[8..12] == Le(size, 4);
    assert s[12..16] == h[12..16] == Le(MAGIC, 4);
    NumLe(0, 4);
    NumLe(count, 4);
    NumLe(size, 4);
    NumLe(MAGIC, 4);
  }

  /** Restoring a successful save, from memory `s` that holds it, appends exactly the records
      with a nonzero time, in order, with equal fields and with their names resolved, as
      soon as there is room for them; with less room it is refused. */
  lemma RestoreOfSave(record: seq<Rec>, addr: Addr, s: seq<byte>, size: int, room: nat)
    requires forall i :: 0 <= i < |Live(record)| ==> Ok(Live(record)[i])
    requires var total := HEADER + |Body(Live(record), addr)|;
             total < U32 && total <= |s| && (size == -1 || total <= size)
             && s[..total] == Header(|Live(record)|, total) + Body(Live(record), addr)
    ensures Unstash(s, size, room) == if |Live(record)| <= room then Some(Resolved(Live(record))) else None
  {
    hide Header, Live, Field, Num, AllRecs, AllNames, ReadAll, Ok, Resolved;
    var ls := Live(record);
    var total := HEADER + |Body(ls, addr)|;
    assert s[..HEADER] == s[..total][..HEADER] == Header(|ls|, total);
    HeaderFields(s, |ls|, total);
    BodyBack(ls, addr, s, Header(|ls|, total));
  }

  lemma BodyBack(ls: seq<Rec>, addr: Addr, s: seq<byte>, h: seq<byte>)
    requires forall i :: 0 <= i < |ls| ==> Ok(ls[i])
    requires |h| == HEADER && HEADER + |Body(ls, addr)| <= |s| && s[..HEADER + |Body(ls, addr)|] == h + Body(ls, addr)
    ensures HEADER + RECORD * |ls| <= |s| && ReadAll(s, HEADER, HEADER + RECORD * |ls|, |ls|) == Resolved(ls)
  {
    hide AllRecs, AllNames, ReadAll, Ok, Resolved;
    assert At(s, 0, h + Body(ls, addr));
    AtParts(s, 0, h, AllRecs(ls, addr) + AllNames(ls));
    AtParts(s, HEADER, AllRecs(ls, addr), AllNames(ls));
    ReadBack(s, HEADER, HEADER + RECORD * |ls|, ls, addr);
  }

  /** A save that failed after it had written its header is always refused: it announces at
      least one record and no bytes. */
  lemma FailedSaveRefused(record: seq<Rec>, addr: Addr, s: seq<byte>, saveSize: nat, size: int, room: nat)
    requires HEADER <= saveSize < HEADER + |Body(Live(record), addr)| && |Live(record)| < U32
    requires |s| >= HEADER && s[..HEADER] == Header(|Live(record)|, 0)
    ensures Unstash(s, size, room) == None
  {
    hide Header, Field, Num;
    HeaderFields(s, |Live(record)|, 0);
  }
}
