/**
 Branch targets in the PowerPC debugger of bedbug.c: encoding and decoding of address
 operands (parse_operand, print_operands). Addresses are 32 bits wide; shifts and masks
 are written as division and remainder.
 */
module Bedbug {
  import Arith

  const WORD: int := 0x1_0000_0000

  function Pow2(n: nat): (p: nat)
    ensures p > 0
  {
    if n == 0 then 1 else 2 * Pow2(n - 1)
  }

  /** A 32-bit value as a signed number. */
  function Signed(x: int): int
    requires 0 <= x < WORD
  {
    if x >= WORD / 2 then x - WORD else x
  }

  function Wrap(x: int): (r: int)
    ensures 0 <= r < WORD
  {
    x % WORD
  }

  // Address operands

  /** The assembler: the field value for target `addr`. Only the sign and the low bits of the
      word displacement are kept. */
  function EncodeField(addr: int, memaddr: int, relative: bool, bits: nat): (f: int)
    requires 0 <= addr < WORD && 0 <= memaddr < WORD && 1 <= bits <= 30
    ensures 0 <= f < Pow2(bits)
  {
    var data := Signed(Wrap(if relative then addr - memaddr else addr));
    var low := data / 4 % Pow2(bits - 1);
    if data < 0 then low + Pow2(bits - 1) else low
  }

  /** The disassembler: the address shown for a field value. */
  function DecodeField(f: int, virtual: int, relative: bool, bits: nat): (addr: int)
    requires 1 <= bits <= 30
    ensures 0 <= addr < WORD
  {
    var operand := if f / Pow2(bits - 1) % 2 == 1 then f - Pow2(bits) else f;
    Wrap(operand * 4 + if relative then virtual else 0)
  }

  /** The displacement a field must hold. */
  function Displacement(addr: int, memaddr: int, relative: bool): (d: int)
    requires 0 <= addr < WORD && 0 <= memaddr < WORD
    ensures -WORD / 2 <= d < WORD / 2
    ensures Wrap(d + if relative then memaddr else 0) == addr
  {
    Signed(Wrap(if relative then addr - memaddr else addr))
  }

  /** What decoding makes of the field: the sign and the low bits of the displacement. */
  lemma FieldValue(d: int, bits: nat, f: int)
    requires 1 <= bits <= 30
    requires f == (d / 4 % Pow2(bits - 1)) + (if d < 0 then Pow2(bits - 1) else 0)
    ensures (if f / Pow2(bits - 1) % 2 == 1 then f - Pow2(bits) else f)
         == (d / 4 % Pow2(bits - 1)) - (if d < 0 then Pow2(bits - 1) else 0)
  {
    var h := Pow2(bits - 1);
    var low := d / 4 % h;
    assert Pow2(bits) == 2 * h;
    HalfOf(low, h, d < 0);
  }

  lemma HalfOf(low: int, h: int, neg: bool)
    requires 0 <= low < h
    ensures (low + if neg then h else 0) / h == if neg then 1 else 0
  {
  }

  /** Taking the sign and the low bits apart loses nothing exactly in range. */
  lemma InRange(q: int, h: int)
    requires h > 0
    ensures (q % h) - (if q < 0 then h else 0) == q <==> -h <= q < h
  {
    if 0 <= q < h { assert q % h == q; }
    if -h <= q < 0 { assert (q + h) % h == q + h; Arith.ModShift(q, h); }
  }

  lemma {:induction false} PowBound(bits: nat)
    requires bits <= 30
    ensures Pow2(bits) <= 0x4000_0000
  {
    assert Pow2(30) == 0x4000_0000 by { PowUp(10); PowUp(20); PowUp(30); }
    PowGrows(bits, 30);
  }

  lemma PowUp(n: nat)
    requires n >= 10
    ensures Pow2(n) == 1024 * Pow2(n - 10)
  {
    assert Pow2(n) == 4 * Pow2(n - 2) && Pow2(n - 2) == 4 * Pow2(n - 4) && Pow2(n - 4) == 4 * Pow2(n - 6);
    assert Pow2(n - 6) == 4 * Pow2(n - 8) && Pow2(n - 8) == 4 * Pow2(n - 10);
  }

  lemma {:induction false} PowGrows(a: nat, b: nat)
    requires a <= b
    ensures Pow2(a) <= Pow2(b)
    decreases b - a
  {
    if a < b { PowGrows(a, b - 1); }
  }

  /** For every field width, relative or absolute: disassembling an assembled target gives
      the target back exactly when its displacement is a multiple of four that fits the
      field as a signed word count. */
  lemma AssembleDisassemble(addr: int, memaddr: int, relative: bool, bits: nat)
    requires 0 <= addr < WORD && 0 <= memaddr < WORD && 1 <= bits <= 30
    ensures var d := Displacement(addr, memaddr, relative);
            DecodeField(EncodeField(addr, memaddr, relative, bits), memaddr, relative, bits) == addr
            <==> d % 4 == 0 && 0 <= d / 4 + Pow2(bits - 1) < 2 * Pow2(bits - 1)
  {
    hide Pow2;
    var d := Displacement(addr, memaddr, relative);
    var h := Pow2(bits - 1);
    var f := EncodeField(addr, memaddr, relative, bits);
    FieldValue(d, bits, f);
    var v := (d / 4 % h) - (if d < 0 then h else 0);
    InRange(d / 4, h);
    PowBound(bits - 1);
    assert d / 4 < 0 <==> d < 0;
    var base := if relative then memaddr else 0;
    assert DecodeField(f, memaddr, relative, bits) == Wrap(v * 4 + base);
    SameWrap(v * 4 + base, d + base);
  }

  /** Two numbers less than 2^32 apart wrap to the same value only if they are equal. */
  lemma SameWrap(x: int, y: int)
    requires -WORD < x - y < WORD
    ensures Wrap(x) == Wrap(y) <==> x == y
  {
  }
}
