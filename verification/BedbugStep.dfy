/**
 Where the next instruction is: find_next_address of bedbug.c against the branch rules of
 the Power ISA. Registers are 32 bits wide.
 */
module BedbugStep {
  import opened Bedbug

  datatype Regs = Regs(nip: int, ctr: int, cr: int, lr: int)

  predicate RegsOk(r: Regs) {
    0 <= r.nip < WORD && 0 <= r.ctr < WORD && 0 <= r.cr < WORD && 0 <= r.lr < WORD
  }

  datatype Kind = Cond | Always | ToCtr | ToLr | NoBranch

  /** Which branch an instruction is, by primary and extended opcode. */
  function KindOf(instr: nat): Kind {
    var op, ext := instr / 0x400_0000 % 64, instr / 2 % 1024;
    if op == 16 then Cond
    else if op == 18 then Always
    else if op == 19 && ext == 528 then ToCtr
    else if op == 19 && ext == 16 then ToLr
    else NoBranch
  }

  function BO(instr: nat): (b: nat)
    ensures b < 32
  {
    instr / 0x20_0000 % 32
  }

  function BI(instr: nat): (b: nat)
    ensures b < 32
  {
    instr / 0x1_0000 % 32
  }

  function BD(instr: nat): (b: nat)
    ensures b < 0x4000
  {
    instr / 4 % 0x4000
  }

  function LI(instr: nat): (b: nat)
    ensures b < 0x100_0000
  {
    instr / 4 % 0x100_0000
  }

  function AA(instr: nat): (b: nat)
    ensures b < 2
  {
    instr / 2 % 2
  }

  function LK(instr: nat): (b: nat)
    ensures b < 2
  {
    instr % 2
  }

  /** Bit `bi` of the condition register, counted from the most significant one. */
  predicate CrBit(cr: int, bi: nat)
    requires bi < 32
  {
    cr / Pow2(31 - bi) % 2 == 1
  }

  // Section 2.4 of Book I of the Power ISA

  /** BO bits 0 to 3. */
  predicate Bo(bo: nat, k: nat)
    requires bo < 32 && k < 4
  {
    bo / (if k == 0 then 16 else if k == 1 then 8 else if k == 2 then 4 else 2) % 2 == 1
  }

  predicate IsaCtrOk(bo: nat, ctr: int)
    requires bo < 32
  {
    Bo(bo, 2) || ((Wrap(ctr - 1) != 0) != Bo(bo, 3))
  }

  predicate IsaCondOk(bo: nat, bit: bool)
    requires bo < 32
  {
    Bo(bo, 0) || bit == Bo(bo, 1)
  }

  predicate IsaTaken(kind: Kind, bo: nat, bit: bool, ctr: int)
    requires bo < 32
  {
    match kind
    case Cond => IsaCtrOk(bo, ctr) && IsaCondOk(bo, bit)
    case ToLr => IsaCtrOk(bo, ctr) && IsaCondOk(bo, bit)
    case ToCtr => IsaCondOk(bo, bit)
    case Always => true
    case NoBranch => false
  }

  function Extended(f: nat, half: nat): int { if f >= half then f - 2 * half else f }

  /** The address of the next instruction. */
  function IsaNext(instr: nat, r: Regs): int {
    var pc := r.nip / 4 * 4;
    var kind := KindOf(instr);
    var base := if AA(instr) == 1 then 0 else pc;
    if !IsaTaken(kind, BO(instr), CrBit(r.cr, BI(instr)), r.ctr) then Wrap(pc + 4)
    else match kind
      case Cond => Wrap(base + 4 * Extended(BD(instr), 0x2000))
      case Always => Wrap(base + 4 * Extended(LI(instr), 0x80_0000))
      case ToLr => r.lr / 4 * 4
      case ToCtr => r.ctr / 4 * 4
      case NoBranch => Wrap(pc + 4)
  }

  // find_next_address

  /** The switch over the BO field; values outside the listed ones count as not taken. */
  predicate CodeTaken(bo: nat, bit: bool, ctr: int)
    requires bo < 32
  {
    var ctr' := Wrap(ctr - 1);
    match bo / 2
    case 0 => ctr' != 0 && !bit
    case 1 => ctr' == 0 && !bit
    case 2 => !bit
    case 4 => ctr' != 0 && bit
    case 5 => ctr' == 0 && bit
    case 6 => bit
    case 8 => ctr' != 0
    case 9 => ctr' == 0
    case 10 => true
    case _ => false
  }

  /** The reserved bits of the BO field are zero. */
  predicate ReservedClear(bo: nat)
    requires bo < 32
  {
    && (!Bo(bo, 0) && Bo(bo, 2) ==> !Bo(bo, 3))                    // 001z, 011z
    && (Bo(bo, 0) ==> !Bo(bo, 1) && (Bo(bo, 2) ==> !Bo(bo, 3)))    // 1z00, 1z01, 1z1z
  }

  /** The code and the architecture agree on every counter and condition exactly for the BO
      values whose reserved bits are zero. */
  lemma TakenAgrees(bo: nat)
    requires bo < 32
    ensures ReservedClear(bo) <==>
            forall bit, ctr :: 0 <= ctr < WORD ==> CodeTaken(bo, bit, ctr) == IsaTaken(Cond, bo, bit, ctr)
  {
    if ReservedClear(bo) {
      forall bit, ctr | 0 <= ctr < WORD ensures CodeTaken(bo, bit, ctr) == IsaTaken(Cond, bo, bit, ctr) {
        TakenCases(bo, bit, ctr);
      }
    } else {
      var bit, ctr := Bo(bo, 1), if Bo(bo, 3) then 1 else 2;
      assert IsaTaken(Cond, bo, bit, ctr) && !CodeTaken(bo, bit, ctr);
    }
  }

  lemma TakenCases(bo: nat, bit: bool, ctr: int)
    requires bo < 32 && 0 <= ctr < WORD && ReservedClear(bo)
    ensures CodeTaken(bo, bit, ctr) == IsaTaken(Cond, bo, bit, ctr)
    ensures Bo(bo, 2) ==> CodeTaken(bo, bit, ctr) == IsaTaken(ToCtr, bo, bit, ctr)
  {
    assert bo / 2 in {0, 1, 2, 4, 5, 6, 8, 9, 10};
  }

  predicate Taken(instr: nat, r: Regs) {
    KindOf(instr) == Always || (KindOf(instr) != NoBranch && CodeTaken(BO(instr), CrBit(r.cr, BI(instr)), r.ctr))
  }

  lemma WrapAdd(x: int, y: int)
    ensures Wrap(Wrap(x) + y) == Wrap(y + x)
  {
  }

  /** The sign extension of a field of the instruction. */
  method SignExtend(f: nat, half: nat) returns (addr: int)
    requires half in {0x2000, 0x80_0000} && f < 2 * half
    ensures addr == Wrap(4 * Extended(f, half))
  {
    addr := f;
    if f / half % 2 != 0 { addr := addr - 2 * half; }
    addr := Wrap(addr * 4);
  }

  /** find_next_address without its error exits: the address for a step into the branch, or
      over it. */
  method FindNextAddress(instr: nat, r: Regs, stepOver: bool) returns (next: int)
    requires instr < WORD && RegsOk(r)
    ensures next == if Taken(instr, r) && !(stepOver && LK(instr) == 1) then TargetOf(instr, r)
                    else Wrap(r.nip / 4 * 4 + 4)
  {
    hide Pow2, KindOf, BO, BI, BD, LI, LK, Extended, Wrap, CodeTaken;
    var pc := r.nip - r.nip % 4;
    var addr, aa, conditional, branch := 0, AA(instr), false, false;
    match KindOf(instr) {
      case Cond =>
        addr := SignExtend(BD(instr), 0x2000);
        WrapAdd(4 * Extended(BD(instr), 0x2000), pc);
        conditional, branch := true, true;
      case Always =>
        addr := SignExtend(LI(instr), 0x80_0000);
        WrapAdd(4 * Extended(LI(instr), 0x80_0000), pc);
        branch := true;
      case ToCtr => addr, aa, conditional, branch := r.ctr, 1, true, true;
      case ToLr => addr, aa, conditional, branch := r.lr, 1, true, true;
      case NoBranch =>
    }
    var ok := false;
    if conditional { ok := EvaluateBO(BO(instr), CrBit(r.cr, BI(instr)), r.ctr); }
    var step, over := Wrap(pc + 4), Wrap(pc + 4);
    if branch && (!conditional || ok) {
      step := if aa != 0 then addr else Wrap(addr + pc);
      over := if LK(instr) == 1 then Wrap(pc + 4) else step;
    }
    next := if stepOver then over else step;
  }

  /** The switch over the BO field. */
  method EvaluateBO(bo: nat, bit: bool, ctr0: int) returns (ok: bool)
    requires bo < 32 && 0 <= ctr0 < WORD
    ensures ok == CodeTaken(bo, bit, ctr0)
  {
    var ctr, ctrOk, condOk := ctr0, false, false;
    match bo % 32 / 2 {
      case 0 => ctr := Wrap(ctr - 1); if ctr != 0 { ctrOk := true; } condOk := !bit;
      case 1 => ctr := Wrap(ctr - 1); if ctr == 0 { ctrOk := true; } condOk := !bit;
      case 2 => ctrOk := true; condOk := !bit;
      case 4 => ctr := Wrap(ctr - 1); if ctr != 0 { ctrOk := true; } condOk := bit;
      case 5 => ctr := Wrap(ctr - 1); if ctr == 0 { ctrOk := true; } condOk := bit;
      case 6 => ctrOk := true; condOk := bit;
      case 8 => ctr := Wrap(ctr - 1); if ctr != 0 { ctrOk, condOk := true, true; }
      case 9 => ctr := Wrap(ctr - 1); if ctr == 0 { ctrOk, condOk := true, true; }
      case 10 => ctrOk, condOk := true, true;
      case _ =>
    }
    ok := ctrOk && condOk;
  }

  /** The target the code computes: link and counter register are used as they are. */
  function TargetOf(instr: nat, r: Regs): int {
    var base := if AA(instr) == 1 then 0 else r.nip / 4 * 4;
    match KindOf(instr)
    case Cond => Wrap(base + 4 * Extended(BD(instr), 0x2000))
    case Always => Wrap(base + 4 * Extended(LI(instr), 0x80_0000))
    case ToLr => r.lr
    case ToCtr => r.ctr
    case NoBranch => 0
  }

  function CodeStep(instr: nat, r: Regs): int {
    if Taken(instr, r) then TargetOf(instr, r) else Wrap(r.nip / 4 * 4 + 4)
  }

  /** With the reserved BO bits zero, and not a counter branch that also decrements the
      counter, the step address is the one the architecture defines exactly when a branch
      taken to a register finds that register word-aligned. */
  lemma StepIsNextInstruction(instr: nat, r: Regs)
    requires instr < WORD && RegsOk(r)
    requires KindOf(instr) in {Cond, ToLr, ToCtr} ==> ReservedClear(BO(instr))
    requires KindOf(instr) == ToCtr ==> Bo(BO(instr), 2)
    ensures var taken := IsaTaken(KindOf(instr), BO(instr), CrBit(r.cr, BI(instr)), r.ctr);
            CodeStep(instr, r) == IsaNext(instr, r)
            <==> (taken && KindOf(instr) == ToLr ==> r.lr % 4 == 0)
                 && (taken && KindOf(instr) == ToCtr ==> r.ctr % 4 == 0)
  {
    hide Pow2, BD, LI, BI;
    if KindOf(instr) in {Cond, ToLr, ToCtr} { TakenCases(BO(instr), CrBit(r.cr, BI(instr)), r.ctr); }
  }
}
