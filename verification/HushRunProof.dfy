/**
 Running the flattened form of a structured program is running the program.
 The lemmas follow the syntax: each says what one section of a pipe list does to the
 flags of the interpreter, wherever in a list the section stands.
 */
module HushRunProof {
  import opened Wrappers
  import opened HushSyntax
  import opened HushExpand
  import opened HushExec
  import opened HushRun

  /** No jump is pending and nothing is being skipped. */
  predicate Ready(g: Regs) {
    !g.flagRestore && g.flagSkip && g.skipMore == RXxxx && !Exiting(g.rcode)
  }

  /** The flags let pipes of this section run. */
  predicate Enabled(mode: Res, g: Regs) {
    match mode
    case RNone => true
    case RIf => true
    case RThen => g.nextIfCode == 0
    case RElse => g.nextIfCode != 0
    case RElif => g.ifCode != 0
    case RDo => g.flagRep
    case RWhile => g.rpipe.Some?
    case RUntil => g.rpipe.Some?
    case _ => false
  }

  /** The flags make pipes of this section be passed over. */
  predicate Disabled(mode: Res, g: Regs) {
    match mode
    case RThen => g.nextIfCode != 0
    case RElse => g.nextIfCode == 0
    case RDo => !g.flagRep
    case _ => false
  }

  /** RXxxx stands for "no section" and tags no pipe. */
  predicate Tagged(ps: seq<Pipe>) {
    forall i :: 0 <= i < |ps| ==> ps[i].rmode != RXxxx
  }

  predicate SliceIs(ps: seq<Pipe>, pc: nat, sub: seq<Pipe>) {
    pc + |sub| <= |ps| && ps[pc..pc + |sub|] == sub
  }

  /** The flags after a section whose last command returned `code`, if any `ran`. */
  function Moved(mode: Res, g: Regs, ran: bool, code: int): (g': Regs) {
    g.(rcode := code,
       ifCode := if mode in {RThen, RElse} then g.nextIfCode else g.ifCode,
       nextIfCode := if mode in {RIf, RElif} && ran then code else g.nextIfCode,
       flagRep := if mode == RWhile && ran then code == 0
                  else if mode == RUntil && ran then code != 0
                  else g.flagRep)
  }

  /** From pipe `pc` the interpreter does what `out` says and goes on at pipe `end`. */
  ghost predicate Reaches<S>(m: Machine<S>, turns: nat, ps: seq<Pipe>, pc: nat, g: Regs, s: S, left: nat,
                             out: Outcome<S>, end: nat, mode: Res, ran: bool) {
    var r := RunFrom(m, turns, ps, pc, g, s, left);
    match out
    case OutOfTurns => r.NoTurns?
    case Fin(s1, c1) =>
      if Exiting(c1) then r.Ret? && r.s == s1 && r.code == c1
      else r == RunFrom(m, turns, ps, end, Moved(mode, g, ran, c1), s1, left)
  }

  /** A finished run agrees with the structured outcome, and unless it exited it leaves
      the list as it was. */
  ghost predicate Agrees<S>(r: Ran<S>, out: Outcome<S>, ps: seq<Pipe>) {
    match out
    case OutOfTurns => r.NoTurns?
    case Fin(s1, c1) => r.Ret? && r.s == s1 && r.code == c1 && (!Exiting(c1) ==> r.pipes == ps)
  }

  // Induction measures

  function CmdSize(c: Cmd): (n: nat)
    ensures n > 0
  {
    match c
    case Nothing => 1
    case Simple(_) => 1
    case If(cond, thn, els) => 1 + SectionSize(cond) + SectionSize(thn) + ElseSize(els)
    case Loop(_, cond, body) => 1 + SectionSize(cond) + SectionSize(body)
    case For(_, _, body) => 1 + SectionSize(body)
  }

  function ChainSize(c: Chain): (n: nat)
    ensures n > 0
  {
    1 + CmdSize(c.cmd) + if c.Link? then ChainSize(c.rest) else 0
  }

  function ListSize(l: List): (n: nat)
    ensures n > 0
  {
    1 + ChainSize(l.chain) + if l.More? then ListSize(l.rest) else 0
  }

  function SectionSize(x: Section): (n: nat)
    ensures n > 0
  {
    1 + if x.Of? then ListSize(x.list) else 0
  }

  function ElseSize(e: Else): (n: nat)
    ensures n > 0
  {
    match e
    case NoElse => 1
    case Else(body) => 1 + SectionSize(body)
    case Elif(cond, thn, els) => 1 + SectionSize(cond) + SectionSize(thn) + ElseSize(els)
  }

  // Sections

  lemma {:induction false} ChainModes(c: Chain, mode: Res)
    ensures forall i :: 0 <= i < |FlatChain(c, mode)| ==> FlatChain(c, mode)[i].rmode == mode
  {
    if c.Link? { ChainModes(c.rest, mode); }
  }

  lemma {:induction false} ListModes(l: List, mode: Res)
    ensures forall i :: 0 <= i < |FlatList(l, mode)| ==> FlatList(l, mode)[i].rmode == mode
  {
    ChainModes(l.chain, mode);
    if l.More? { ListModes(l.rest, mode); }
  }

  lemma SectionModes(x: Section, mode: Res)
    ensures forall i :: 0 <= i < |FlatSection(x, mode)| ==> FlatSection(x, mode)[i].rmode == mode
  {
    if x.Of? { ListModes(x.list, mode); }
  }

  lemma {:induction false} ElseModes(e: Else)
    ensures forall i :: 0 <= i < |FlatElse(e)| ==> FlatElse(e)[i].rmode in {RThen, RElif, RElse}
  {
    match e
    case NoElse =>
    case Else(body) => SectionModes(body, RElse);
    case Elif(cond, thn, els) =>
      SectionModes(cond, RElif);
      SectionModes(thn, RThen);
      ElseModes(els);
  }

  // Single iterations

  lemma OnPass<S>(m: Machine<S>, turns: nat, ps: seq<Pipe>, pc: nat, g: Regs, s: S, left: nat, g1: Regs)
    requires pc < |ps| && Choose(m.LookIn(s), ps, pc, g) == Pass(ps, g1)
    ensures RunFrom(m, turns, ps, pc, g, s, left) == Resume(m, turns, ps, pc, g1, s, left)
    ensures !g1.flagRestore ==> RunFrom(m, turns, ps, pc, g, s, left) == RunFrom(m, turns, ps, pc + 1, g1, s, left)
  {
    hide Choose;
  }

  lemma OnGo<S>(m: Machine<S>, turns: nat, ps: seq<Pipe>, pc: nat, g: Regs, s: S, left: nat, g1: Regs, out: Outcome<S>)
    requires pc < |ps| && Choose(m.LookIn(s), ps, pc, g) == Go(ps, g1) && !g1.flagRestore
    requires Agrees(RunBody(m, turns, ps, pc, s), out, ps)
    ensures var r := RunFrom(m, turns, ps, pc, g, s, left);
            match out
            case OutOfTurns => r.NoTurns?
            case Fin(s0, c0) =>
              var n := Noted(m, s0, c0);
              if Exiting(c0) then r.Ret? && r.s == n.s && r.code == n.code
              else r == RunFrom(m, turns, ps, pc + 1, After(ps[pc], g1, c0), n.s, left)
  {
    hide Choose;
    hide RunBody;
  }

  /** Two states of the flags that choose alike run alike. */
  lemma SameChoice<S>(m: Machine<S>, turns: nat, ps: seq<Pipe>, pc: nat, g: Regs, h: Regs, s: S, left: nat)
    requires pc < |ps| && Choose(m.LookIn(s), ps, pc, g) == Choose(m.LookIn(s), ps, pc, h)
    ensures RunFrom(m, turns, ps, pc, g, s, left) == RunFrom(m, turns, ps, pc, h, s, left)
  {
    hide Choose;
    hide RunBody;
  }

  /** After a failed chain has been skipped, the skip flags no longer matter. */
  lemma Resync<S>(m: Machine<S>, turns: nat, ps: seq<Pipe>, pc: nat, g: Regs, s: S, left: nat)
    requires Tagged(ps) && !g.flagSkip
    ensures RunFrom(m, turns, ps, pc, g, s, left)
         == RunFrom(m, turns, ps, pc, g.(flagSkip := true, skipMore := RXxxx), s, left)
  {
    if pc < |ps| {
      assert Choose(m.LookIn(s), ps, pc, g)
          == Choose(m.LookIn(s), ps, pc, g.(flagSkip := true, skipMore := RXxxx));
      SameChoice(m, turns, ps, pc, g, g.(flagSkip := true, skipMore := RXxxx), s, left);
    }
  }

  /** While skipping, the rest of the chain is passed over up to its separator. */
  lemma {:induction false} SkipChain<S>(m: Machine<S>, turns: nat, c: Chain, mode: Res, ps: seq<Pipe>, pc: nat,
                                        g: Regs, s: S, left: nat)
    requires SliceIs(ps, pc, FlatChain(c, mode))
    requires g.flagSkip && g.skipMore == mode && !g.flagRestore && (LoopHead(mode) ==> g.rpipe.Some?)
    ensures RunFrom(m, turns, ps, pc, g, s, left)
         == RunFrom(m, turns, ps, pc + |FlatChain(c, mode)|, g.(flagSkip := false), s, left)
    decreases c
  {
    var f := FlatChain(c, mode);
    hide RunFrom;
    assert ps[pc] == ps[pc..pc + |f|][0] == f[0];
    OnPass(m, turns, ps, pc, g, s, left, g.(flagSkip := ps[pc].followup != Seq));
    if c.Link? {
      assert ps[pc + 1..pc + 1 + |FlatChain(c.rest, mode)|] == ps[pc..pc + |f|][1..] == FlatChain(c.rest, mode);
      SkipChain(m, turns, c.rest, mode, ps, pc + 1, g, s, left);
    }
  }

  /** The flags after a section was passed over: if_code is refreshed only if it has a pipe. */
  function Passed(mode: Res, g: Regs, some: bool): (g': Regs) {
    g.(ifCode := if some && mode in {RThen, RElse} then g.nextIfCode else g.ifCode)
  }

  /** A section that the flags switch off is passed over as a whole. */
  lemma {:induction false} SkipSection<S>(m: Machine<S>, turns: nat, mode: Res, ps: seq<Pipe>, pc: nat, end: nat,
                                          g: Regs, s: S, left: nat)
    requires pc <= end <= |ps| && forall i :: pc <= i < end ==> ps[i].rmode == mode
    requires Ready(g) && Disabled(mode, g)
    ensures RunFrom(m, turns, ps, pc, g, s, left)
         == RunFrom(m, turns, ps, end, Passed(mode, g, pc < end), s, left)
    decreases end - pc
  {
    if pc < end {
      var g1 := Passed(mode, g, true);
      hide RunFrom;
      OnPass(m, turns, ps, pc, g, s, left, g1);
      SkipSection(m, turns, mode, ps, pc + 1, end, g1, s, left);
    }
  }

  /** Nothing runs where there is no command. */
  lemma {:induction false} NothingRuns<S>(m: Machine<S>, turns: nat, l: List, s: S, code: int)
    requires !HasCommand(l) && !Exiting(code)
    ensures ExecList(m, turns, l, s, code) == Fin(s, code)
  {
    NothingRunsInChain(m, turns, l.chain, s, code);
    if l.More? { NothingRuns(m, turns, l.rest, s, code); }
  }

  lemma {:induction false} NothingRunsInChain<S>(m: Machine<S>, turns: nat, c: Chain, s: S, code: int)
    requires !ChainHasCommand(c)
    ensures ExecChain(m, turns, c, s, code) == Fin(s, code)
  {
    if c.Link? { NothingRunsInChain(m, turns, c.rest, s, code); }
  }

  lemma NothingRunsInSection<S>(m: Machine<S>, turns: nat, x: Section, s: S, code: int)
    requires !Runs(x) && !Exiting(code)
    ensures ExecSection(m, turns, x, s, code) == Fin(s, code)
  {
    if x.Of? { NothingRuns(m, turns, x.list, s, code); }
  }

  lemma ChooseEnabled(look: Lookup, ps: seq<Pipe>, pc: nat, g: Regs)
    requires pc < |ps| && Ready(g) && Enabled(ps[pc].rmode, g)
    ensures var g1 := g.(ifCode := if ps[pc].rmode in {RThen, RElse} then g.nextIfCode else g.ifCode);
            Choose(look, ps, pc, g) == if ps[pc].body.NoProg? then Pass(ps, g1) else Go(ps, g1)
  {
  }

  /** One pipe of an enabled section. */
  lemma {:induction false} StepSim<S>(m: Machine<S>, turns: nat, c: Cmd, mode: Res, ps: seq<Pipe>, pc: nat, g: Regs,
                                      s: S, left: nat)
    requires pc < |ps| && ps[pc].body == FlatCmd(c) && ps[pc].rmode == mode && LegibleCmd(c)
    requires Ready(g) && Enabled(mode, g)
    ensures var r := RunFrom(m, turns, ps, pc, g, s, left);
            match ExecStep(m, turns, c, s, g.rcode)
            case OutOfTurns => r.NoTurns?
            case Fin(s1, c1) =>
              if Exiting(c1) then r.Ret? && r.s == s1 && r.code == c1
              else r == RunFrom(m, turns, ps, pc + 1, Stepped(c, ps[pc], g, c1), s1, left)
    decreases CmdSize(c), turns + 4
  {
    var g1 := g.(ifCode := if mode in {RThen, RElse} then g.nextIfCode else g.ifCode);
    hide RunFrom;
    hide RunBody;
    ChooseEnabled(m.LookIn(s), ps, pc, g);
    if c.Nothing? {
      OnPass(m, turns, ps, pc, g, s, left, g1);
    } else {
      CmdSim(m, turns, c, ps, pc, s);
      OnGo(m, turns, ps, pc, g, s, left, g1, ExecCmd(m, turns, c, s));
    }
  }

  function Stepped(c: Cmd, p: Pipe, g: Regs, code: int): (g': Regs) {
    var g1 := g.(ifCode := if p.rmode in {RThen, RElse} then g.nextIfCode else g.ifCode);
    if c.Nothing? then g1 else After(p, g1, code)
  }

  lemma StepMoves(mode: Res, p: Pipe, c: Cmd, g: Regs, c1: int, ran: bool, c2: int)
    requires p.rmode == mode && p.body == FlatCmd(c) && Ready(g)
    requires c.Nothing? ==> c1 == g.rcode
    requires !ran ==> c2 == c1
    requires !c.Nothing? ==> !(c1 == 0 && p.followup == OrIf) && !(c1 != 0 && p.followup == AndIf)
    ensures Moved(mode, Stepped(c, p, g, c1), ran, c2) == Moved(mode, g, !c.Nothing? || ran, c2)
    ensures Stepped(c, p, g, c1) == Moved(mode, g, !c.Nothing?, c1) && Stepped(c, p, g, c1).rcode == c1
    ensures !Exiting(c1) ==> Ready(Stepped(c, p, g, c1))
    ensures Enabled(mode, g) ==> Enabled(mode, Stepped(c, p, g, c1))
  {
  }

  lemma ChainShape(c: Chain, mode: Res, ps: seq<Pipe>, pc: nat)
    requires SliceIs(ps, pc, FlatChain(c, mode))
    ensures pc < |ps| && ps[pc] == FlatChain(c, mode)[0] && ps[pc].body == FlatCmd(c.cmd) && ps[pc].rmode == mode
    ensures ps[pc].followup == if c.Link? then OpFollowup(c.op) else Seq
    ensures |FlatChain(c, mode)| == if c.Link? then 1 + |FlatChain(c.rest, mode)| else 1
    ensures c.Link? ==> SliceIs(ps, pc + 1, FlatChain(c.rest, mode))
    ensures pc + |FlatChain(c, mode)| <= |ps|
  {
    hide FlatCmd;
    var f := FlatChain(c, mode);
    assert ps[pc] == ps[pc..pc + |f|][0];
    assert ps[pc + 1..pc + |f|] == ps[pc..pc + |f|][1..];
  }

  /** A failed link: the rest of the chain is passed over. */
  lemma {:induction false} FailedLink<S>(m: Machine<S>, turns: nat, c: Chain, mode: Res, ps: seq<Pipe>, pc: nat,
                                         g: Regs, c1: int, s: S, left: nat)
    requires c.Link? && Tagged(ps) && SliceIs(ps, pc, FlatChain(c, mode))
    requires Ready(g) && Enabled(mode, g)
    requires !c.cmd.Nothing? && LinkFails(c.op, c1) && !Exiting(c1)
    ensures RunFrom(m, turns, ps, pc + 1, Stepped(c.cmd, ps[pc], g, c1), s, left)
         == RunFrom(m, turns, ps, pc + |FlatChain(c, mode)|, Moved(mode, g, true, c1), s, left)
  {
    hide RunFrom, Choose, FlatCmd, FlatChain, SliceIs;
    ChainShape(c, mode, ps, pc);
    var g1 := Stepped(c.cmd, ps[pc], g, c1);
    SkipChain(m, turns, c.rest, mode, ps, pc + 1, g1, s, left);
    Resync(m, turns, ps, pc + |FlatChain(c, mode)|, g1.(flagSkip := false), s, left);
    assert g1.(flagSkip := true, skipMore := RXxxx) == Moved(mode, g, true, c1);
  }

  lemma {:induction false} ChainSim<S>(m: Machine<S>, turns: nat, c: Chain, mode: Res, ps: seq<Pipe>, pc: nat,
                                       g: Regs, s: S, left: nat)
    requires Tagged(ps) && SliceIs(ps, pc, FlatChain(c, mode)) && LegibleChain(c)
    requires Ready(g) && Enabled(mode, g)
    ensures Reaches(m, turns, ps, pc, g, s, left, ExecChain(m, turns, c, s, g.rcode),
                    pc + |FlatChain(c, mode)|, mode, ChainHasCommand(c))
    decreases ChainSize(c), 0
  {
    hide RunFrom, Choose, ExecCmd, FlatCmd, FlatChain, Moved, Stepped, Enabled, Noted, Tagged, SliceIs, LegibleCmd;
    ChainShape(c, mode, ps, pc);
    StepSim(m, turns, c.cmd, mode, ps, pc, g, s, left);
    var out := ExecStep(m, turns, c.cmd, s, g.rcode);
    if out.Fin? && !Exiting(out.code) {
      var s1, c1 := out.s, out.code;
      if c.Last? {
        StepMoves(mode, ps[pc], c.cmd, g, c1, false, c1);
      } else if !c.cmd.Nothing? && LinkFails(c.op, c1) {
        FailedLink(m, turns, c, mode, ps, pc, g, c1, s1, left);
      } else {
        var rest := c.rest;
        var ran := ChainHasCommand(rest);
        StepMoves(mode, ps[pc], c.cmd, g, c1, true, c1);
        ChainSim(m, turns, rest, mode, ps, pc + 1, Stepped(c.cmd, ps[pc], g, c1), s1, left);
        if !ran { NothingRunsInChain(m, turns, rest, s1, c1); }
        var out2 := ExecChain(m, turns, rest, s1, c1);
        if out2.Fin? { StepMoves(mode, ps[pc], c.cmd, g, c1, ran, out2.code); }
      }
    }
  }

  lemma {:induction false} ListSim<S>(m: Machine<S>, turns: nat, l: List, mode: Res, ps: seq<Pipe>, pc: nat, g: Regs,
                                      s: S, left: nat)
    requires Tagged(ps) && SliceIs(ps, pc, FlatList(l, mode)) && LegibleList(l)
    requires Ready(g) && Enabled(mode, g)
    ensures Reaches(m, turns, ps, pc, g, s, left, ExecList(m, turns, l, s, g.rcode),
                    pc + |FlatList(l, mode)|, mode, HasCommand(l))
    decreases ListSize(l), 0
  {
    hide RunFrom, Choose, ExecChain, FlatChain, Tagged, SliceIs, LegibleChain;
    var h := FlatChain(l.chain, mode);
    ListShape(l, mode, ps, pc);
    ChainSim(m, turns, l.chain, mode, ps, pc, g, s, left);
    match ExecChain(m, turns, l.chain, s, g.rcode)
    case OutOfTurns =>
    case Fin(s1, c1) =>
      if !Exiting(c1) && l.More? {
        if !ChainHasCommand(l.chain) { NothingRunsInChain(m, turns, l.chain, s, g.rcode); }
        ListSim(m, turns, l.rest, mode, ps, pc + |h|, Moved(mode, g, ChainHasCommand(l.chain), c1), s1, left);
        if !HasCommand(l.rest) { NothingRuns(m, turns, l.rest, s1, c1); }
      }
  }

  lemma ListShape(l: List, mode: Res, ps: seq<Pipe>, pc: nat)
    requires SliceIs(ps, pc, FlatList(l, mode))
    ensures SliceIs(ps, pc, FlatChain(l.chain, mode))
    ensures l.More? ==> SliceIs(ps, pc + |FlatChain(l.chain, mode)|, FlatList(l.rest, mode))
  {
    hide FlatChain;
    var f, h := FlatList(l, mode), FlatChain(l.chain, mode);
    assert ps[pc..pc + |h|] == ps[pc..pc + |f|][..|h|];
    assert ps[pc + |h|..pc + |f|] == ps[pc..pc + |f|][|h|..];
  }

  /** A whole section. An empty `then` or `else` is excluded: it does not refresh if_code. */
  lemma {:induction false} SectionSim<S>(m: Machine<S>, turns: nat, x: Section, mode: Res, ps: seq<Pipe>, pc: nat,
                                         g: Regs, s: S, left: nat)
    requires Tagged(ps) && SliceIs(ps, pc, FlatSection(x, mode)) && LegibleSection(x)
    requires Ready(g) && Enabled(mode, g) && (x.Void? ==> mode !in {RThen, RElse})
    ensures Reaches(m, turns, ps, pc, g, s, left, ExecSection(m, turns, x, s, g.rcode),
                    pc + |FlatSection(x, mode)|, mode, Runs(x))
    decreases SectionSize(x), 0
  {
    hide RunFrom;
    if x.Of? {
      ListSim(m, turns, x.list, mode, ps, pc, g, s, left);
    } else {
      assert Moved(mode, g, false, g.rcode) == g;
    }
  }

  // Commands

  lemma {:induction false} CmdSim<S>(m: Machine<S>, turns: nat, c: Cmd, ps: seq<Pipe>, pc: nat, s: S)
    requires !c.Nothing? && LegibleCmd(c)
    requires pc < |ps| && ps[pc].body == FlatCmd(c)
    ensures Agrees(RunBody(m, turns, ps, pc, s), ExecCmd(m, turns, c, s), ps)
    decreases CmdSize(c), turns + 3
  {
    if !c.Simple? {
      GroupSim(m, turns, c, s);
      assert ps[pc := ps[pc]] == ps;
    }
  }

  lemma {:induction false} GroupSim<S>(m: Machine<S>, turns: nat, c: Cmd, s: S)
    requires (c.If? || c.Loop? || c.For?) && LegibleCmd(c)
    ensures Agrees(RunList(m, turns, FlatCmd(c).list, s), ExecCmd(m, turns, c, s), FlatCmd(c).list)
    decreases CmdSize(c), turns + 2
  {
    match c
    case If(_, _, _) => IfSim(m, turns, c, s);
    case Loop(_, _, _) => LoopEntry(m, turns, c, s);
    case For(_, _, _) => ForEntry(m, turns, c, s);
  }

  /** The two pipes that end every compound, after the last section of an `if`. */
  lemma FiEnds<S>(m: Machine<S>, turns: nat, ps: seq<Pipe>, pc: nat, g: Regs, s: S, left: nat)
    requires |ps| == pc + 2 && ps[pc..] == Closing(RFi) && Ready(g)
    ensures RunFrom(m, turns, ps, pc, g, s, left) == Ret(ps, s, g.rcode)
  {
    hide RunFrom;
    assert ps[pc] == ps[pc..][0] && ps[pc + 1] == ps[pc..][1];
    OnPass(m, turns, ps, pc, g, s, left, g);
    OnPass(m, turns, ps, pc + 1, g, s, left, g);
    UnfoldEnd(m, turns, ps, |ps|, g, s, left);
  }

  lemma DoneEnds<S>(m: Machine<S>, turns: nat, ps: seq<Pipe>, pc: nat, g: Regs, s: S, left: nat)
    requires |ps| == pc + 2 && ps[pc..] == Closing(RDone) && Ready(g)
    ensures RunFrom(m, turns, ps, pc, g, s, left)
         == if !g.flagRep then Ret(ps, s, g.rcode)
            else Resume(m, turns, ps, pc, g.(flagRestore := true), s, left)
  {
    hide RunFrom;
    assert ps[pc] == ps[pc..][0] && ps[pc + 1] == ps[pc..][1];
    if g.flagRep {
      OnPass(m, turns, ps, pc, g, s, left, g.(flagRestore := true));
    } else {
      var g1 := g.(rpipe := None);
      OnPass(m, turns, ps, pc, g, s, left, g1);
      OnPass(m, turns, ps, pc + 1, g1, s, left, g1);
      UnfoldEnd(m, turns, ps, |ps|, g1, s, left);
    }
  }

  /** A clause without condition and `then` section leaves no trace in the flat list. */
  predicate Traceless(e: Else) { e.Elif? && e.cond.Void? && e.thn.Void? }

  lemma NoTrace<S>(m: Machine<S>, turns: nat, e: Else, s: S, code: int)
    requires Traceless(e)
    ensures FlatElse(e) == FlatElse(e.els)
    ensures code != 0 && !Exiting(code) ==> ExecElse(m, turns, e, s, code) == ExecElse(m, turns, e.els, s, code)
  {
    hide ExecSection;
    assert ExecSection(m, turns, e.cond, s, code) == Fin(s, code) by { NothingRunsHere(m, turns, s, code); }
    assert [] + [] + FlatElse(e.els) == FlatElse(e.els);
  }

  lemma NothingRunsHere<S>(m: Machine<S>, turns: nat, s: S, code: int)
    ensures ExecSection(m, turns, Void, s, code) == Fin(s, code)
  {
  }

  /** The end of an `if` that is `else` or nothing, its branch not to be run. */
  lemma ElsePassed<S>(m: Machine<S>, turns: nat, e: Else, ps: seq<Pipe>, pc: nat, g: Regs, s: S, left: nat)
    requires pc <= |ps| && ps[pc..] == FlatElse(e) + Closing(RFi) && !e.Elif?
    requires Ready(g) && g.nextIfCode == 0
    ensures RunFrom(m, turns, ps, pc, g, s, left) == Ret(ps, s, g.rcode)
  {
    hide RunFrom, FlatSection;
    if e.NoElse? {
      FiEnds(m, turns, ps, pc, g, s, left);
    } else {
      var f := FlatSection(e.body, RElse);
      SectionModes(e.body, RElse);
      assert forall i :: pc <= i < pc + |f| ==> ps[i] == ps[pc..][i - pc] == f[i - pc];
      SkipSection(m, turns, RElse, ps, pc, pc + |f|, g, s, left);
      assert ps[pc + |f|..] == ps[pc..][|f|..];
      FiEnds(m, turns, ps, pc + |f|, Passed(RElse, g, |f| > 0), s, left);
    }
  }

  /** Once a branch has run, nothing else of the `if` does. */
  lemma {:induction false} ElseSkipped<S>(m: Machine<S>, turns: nat, e: Else, ps: seq<Pipe>, pc: nat,
                                          g: Regs, s: S, left: nat)
    requires pc <= |ps| && ps[pc..] == FlatElse(e) + Closing(RFi) && FollowsTaken(e)
    requires Ready(g) && g.ifCode == 0 && g.nextIfCode == 0
    ensures RunFrom(m, turns, ps, pc, g, s, left) == Ret(ps, s, g.rcode)
    decreases e
  {
    hide RunFrom;
    if !e.Elif? {
      ElsePassed(m, turns, e, ps, pc, g, s, left);
    } else if e.cond.Of? {
      SectionModes(e.cond, RElif);
      assert ps[pc] == ps[pc..][0] == FlatSection(e.cond, RElif)[0];
      UnfoldStop(m, turns, ps, pc, g, s, left);
    } else {
      NoTrace(m, turns, e, s, 0);
      ElseSkipped(m, turns, e.els, ps, pc, g, s, left);
    }
  }

  /** Behind an empty `then` section that was taken nothing may be left but an `else`. */
  lemma {:induction false} VoidThenTaken<S>(m: Machine<S>, turns: nat, e: Else, ps: seq<Pipe>, pc: nat,
                                            g: Regs, s: S, left: nat)
    requires pc <= |ps| && ps[pc..] == FlatElse(e) + Closing(RFi) && Follows(Void, e)
    requires Ready(g) && g.nextIfCode == 0
    ensures RunFrom(m, turns, ps, pc, g, s, left) == Ret(ps, s, g.rcode)
    decreases e
  {
    hide RunFrom;
    if !e.Elif? {
      ElsePassed(m, turns, e, ps, pc, g, s, left);
    } else {
      NoTrace(m, turns, e, s, 0);
      VoidThenTaken(m, turns, e.els, ps, pc, g, s, left);
    }
  }

  lemma {:induction false} FollowsWeaken(thn: Section, e: Else)
    requires Follows(thn, e)
    ensures FollowsTaken(e)
    decreases e
  {
    if Traceless(e) { FollowsWeaken(thn, e.els); }
  }

  /** What a condition, its `then` section and the rest of the `if` mean. */
  function ExecBranch<S>(m: Machine<S>, turns: nat, cond: Section, thn: Section, els: Else, s: S, code: int)
    : (r: Outcome<S>)
  {
    match ExecSection(m, turns, cond, s, code)
    case OutOfTurns => OutOfTurns
    case Fin(s1, c1) =>
      if Exiting(c1) then Fin(s1, c1)
      else if c1 == 0 then ExecSection(m, turns, thn, s1, c1)
      else ExecElse(m, turns, els, s1, c1)
  }

  /** A condition and its `then` section, for `if` and `elif` alike. */
  lemma {:induction false} BranchSim<S>(m: Machine<S>, turns: nat, cond: Section, thn: Section, els: Else, mode: Res,
                                        ps: seq<Pipe>, pc: nat, g: Regs, s: S, left: nat)
    requires mode in {RIf, RElif} && Tagged(ps) && pc <= |ps|
    requires ps[pc..] == FlatSection(cond, mode) + FlatSection(thn, RThen) + FlatElse(els) + Closing(RFi)
    requires Ready(g) && Enabled(mode, g) && g.nextIfCode == g.rcode
    requires LegibleSection(cond) && LegibleSection(thn) && LegibleElse(els) && cond.Of? && Follows(thn, els)
    ensures Agrees(RunFrom(m, turns, ps, pc, g, s, left), ExecBranch(m, turns, cond, thn, els, s, g.rcode), ps)
    decreases SectionSize(cond) + SectionSize(thn) + ElseSize(els), 1
  {
    hide RunFrom, Choose, FlatSection, FlatElse, ExecSection, ExecElse, Tagged, LegibleSection, LegibleElse, Follows;
    var pc1 := pc + |FlatSection(cond, mode)|;
    BranchShape(cond, thn, els, mode, ps, pc);
    SectionSim(m, turns, cond, mode, ps, pc, g, s, left);
    match ExecSection(m, turns, cond, s, g.rcode)
    case OutOfTurns =>
    case Fin(s1, c1) =>
      if !Exiting(c1) {
        if !Runs(cond) { NothingRunsInSection(m, turns, cond, s, g.rcode); }
        var g1 := Moved(mode, g, Runs(cond), c1);
        if c1 == 0 {
          FollowsWeaken(thn, els);
          ThenRuns(m, turns, thn, els, ps, pc1, g1, s1, left);
        } else {
          ThenSkipped(m, turns, thn, els, ps, pc1, g1, s1, left);
        }
      }
  }

  /** The rest of an `if` from its `then` section on. */
  ghost predicate ThenAt(thn: Section, els: Else, ps: seq<Pipe>, pc: nat) {
    && SliceIs(ps, pc, FlatSection(thn, RThen))
    && ps[pc + |FlatSection(thn, RThen)|..] == FlatElse(els) + Closing(RFi)
  }

  lemma BranchShape(cond: Section, thn: Section, els: Else, mode: Res, ps: seq<Pipe>, pc: nat)
    requires pc <= |ps|
    requires ps[pc..] == FlatSection(cond, mode) + FlatSection(thn, RThen) + FlatElse(els) + Closing(RFi)
    ensures SliceIs(ps, pc, FlatSection(cond, mode)) && ThenAt(thn, els, ps, pc + |FlatSection(cond, mode)|)
  {
    SplitTail(ps, pc, FlatSection(cond, mode), FlatSection(thn, RThen), FlatElse(els), Closing(RFi));
  }

  lemma SplitTail<T>(ps: seq<T>, pc: nat, a: seq<T>, b: seq<T>, c: seq<T>, d: seq<T>)
    requires pc <= |ps| && ps[pc..] == a + b + c + d
    ensures pc + |a| + |b| <= |ps| && ps[pc..pc + |a|] == a && ps[pc + |a|..pc + |a| + |b|] == b
    ensures ps[pc + |a| + |b|..] == c + d
  {
    var t := ps[pc..];
    assert ps[pc..pc + |a|] == t[..|a|];
    assert ps[pc + |a|..pc + |a| + |b|] == t[|a|..|a| + |b|];
    assert ps[pc + |a| + |b|..] == t[|a| + |b|..];
  }

  lemma {:induction false} ThenRuns<S>(m: Machine<S>, turns: nat, thn: Section, els: Else, ps: seq<Pipe>, pc: nat,
                                       g: Regs, s: S, left: nat)
    requires Tagged(ps) && ThenAt(thn, els, ps, pc) && LegibleSection(thn)
    requires Ready(g) && g.nextIfCode == 0 && FollowsTaken(els)
    requires thn.Of? || Follows(thn, els) || g.ifCode == 0
    ensures Agrees(RunFrom(m, turns, ps, pc, g, s, left), ExecSection(m, turns, thn, s, g.rcode), ps)
    decreases SectionSize(thn), 1
  {
    hide RunFrom, Choose, FlatElse, Tagged, LegibleSection, Follows;
    var end := pc + |FlatSection(thn, RThen)|;
    if thn.Of? {
      hide FlatSection, ExecSection;
      SectionSim(m, turns, thn, RThen, ps, pc, g, s, left);
      var out := ExecSection(m, turns, thn, s, g.rcode);
      if out.Fin? && !Exiting(out.code) {
        ElseSkipped(m, turns, els, ps, end, Moved(RThen, g, Runs(thn), out.code), out.s, left);
      }
    } else if g.ifCode == 0 {
      ElseSkipped(m, turns, els, ps, end, g, s, left);
    } else {
      VoidThenTaken(m, turns, els, ps, end, g, s, left);
    }
  }

  lemma {:induction false} ThenSkipped<S>(m: Machine<S>, turns: nat, thn: Section, els: Else, ps: seq<Pipe>, pc: nat,
                                          g: Regs, s: S, left: nat)
    requires Tagged(ps) && ThenAt(thn, els, ps, pc) && LegibleElse(els) && Follows(thn, els)
    requires Ready(g) && g.nextIfCode == g.rcode != 0
    ensures Agrees(RunFrom(m, turns, ps, pc, g, s, left), ExecElse(m, turns, els, s, g.rcode), ps)
    decreases ElseSize(els), 1
  {
    hide RunFrom, Choose, FlatSection, FlatElse, ExecElse, Tagged, LegibleElse, Follows;
    var end := pc + |FlatSection(thn, RThen)|;
    SectionModes(thn, RThen);
    assert forall i :: pc <= i < end ==> ps[i] == ps[pc..end][i - pc];
    SkipSection(m, turns, RThen, ps, pc, end, g, s, left);
    ElseSim(m, turns, thn, els, ps, end, Passed(RThen, g, pc < end), s, left);
  }

  lemma {:induction false} ElseSim<S>(m: Machine<S>, turns: nat, thn: Section, e: Else, ps: seq<Pipe>, pc: nat,
                                      g: Regs, s: S, left: nat)
    requires Tagged(ps) && pc <= |ps| && ps[pc..] == FlatElse(e) + Closing(RFi) && LegibleElse(e) && Follows(thn, e)
    requires Ready(g) && (thn.Of? ==> g.ifCode != 0) && g.nextIfCode == g.rcode != 0
    ensures Agrees(RunFrom(m, turns, ps, pc, g, s, left), ExecElse(m, turns, e, s, g.rcode), ps)
    decreases ElseSize(e), 0
  {
    hide RunFrom;
    match e
    case NoElse => FiEnds(m, turns, ps, pc, g, s, left);
    case Else(body) => ElseRuns(m, turns, body, ps, pc, g, s, left);
    case Elif(cond, t, els) =>
      if Traceless(e) {
        NoTrace(m, turns, e, s, g.rcode);
        ElseSim(m, turns, thn, els, ps, pc, g, s, left);
      } else {
        BranchSim(m, turns, cond, t, els, RElif, ps, pc, g, s, left);
      }
  }

  lemma {:induction false} ElseRuns<S>(m: Machine<S>, turns: nat, body: Section, ps: seq<Pipe>, pc: nat,
                                       g: Regs, s: S, left: nat)
    requires Tagged(ps) && pc <= |ps| && ps[pc..] == FlatSection(body, RElse) + Closing(RFi) && LegibleSection(body)
    requires Ready(g) && g.nextIfCode != 0
    ensures Agrees(RunFrom(m, turns, ps, pc, g, s, left), ExecSection(m, turns, body, s, g.rcode), ps)
    decreases SectionSize(body), 1
  {
    hide RunFrom, Choose, LegibleSection;
    var n := |FlatSection(body, RElse)|;
    assert ps[pc..pc + n] == ps[pc..][..n] && ps[pc + n..] == ps[pc..][n..];
    if body.Void? {
      FiEnds(m, turns, ps, pc, g, s, left);
    } else {
      hide FlatSection, ExecSection;
      SectionSim(m, turns, body, RElse, ps, pc, g, s, left);
      var out := ExecSection(m, turns, body, s, g.rcode);
      if out.Fin? && !Exiting(out.code) {
        FiEnds(m, turns, ps, pc + n, Moved(RElse, g, Runs(body), out.code), out.s, left);
      }
    }
  }

  lemma IfShape(c: Cmd)
    requires c.If?
    ensures var ps := FlatCmd(c).list;
            && Tagged(ps) && ForSyntaxOk(ps)
            && ps[0..] == FlatSection(c.cond, RIf) + FlatSection(c.thn, RThen) + FlatElse(c.els) + Closing(RFi)
  {
    hide FlatSection, FlatElse;
    var ps := FlatCmd(c).list;
    SectionModes(c.cond, RIf);
    SectionModes(c.thn, RThen);
    ElseModes(c.els);
    var a, b, e := FlatSection(c.cond, RIf), FlatSection(c.thn, RThen), FlatElse(c.els);
    forall i | 0 <= i < |ps| ensures ps[i].rmode in {RIf, RThen, RElif, RElse, RFi, RNone} {
      if i < |a| { assert ps[i] == a[i]; }
      else if i < |a| + |b| { assert ps[i] == b[i - |a|]; }
      else if i < |a| + |b| + |e| { assert ps[i] == e[i - |a| - |b|]; }
      else { assert ps[i] == Closing(RFi)[i - |a| - |b| - |e|]; }
    }
  }

  lemma {:induction false} IfSim<S>(m: Machine<S>, turns: nat, c: Cmd, s: S)
    requires c.If? && LegibleCmd(c)
    ensures Agrees(RunList(m, turns, FlatCmd(c).list, s), ExecCmd(m, turns, c, s), FlatCmd(c).list)
    decreases CmdSize(c), turns + 1
  {
    hide RunFrom, Choose, LegibleSection, LegibleElse, Follows, FollowsTaken;
    var ps := FlatCmd(c).list;
    IfShape(c);
    if c.cond.Of? {
      BranchSim(m, turns, c.cond, c.thn, c.els, RIf, ps, 0, START, s, turns);
    } else {
      BranchShape(c.cond, c.thn, c.els, RIf, ps, 0);
      ThenRuns(m, turns, c.thn, c.els, ps, 0, START, s, turns);
    }
  }

  // Loops

  lemma {:induction false} LoopEntry<S>(m: Machine<S>, turns: nat, c: Cmd, s: S)
    requires c.Loop? && LegibleCmd(c)
    ensures Agrees(RunList(m, turns, FlatCmd(c).list, s), ExecCmd(m, turns, c, s), FlatCmd(c).list)
    decreases CmdSize(c), turns + 1
  {
    var ps := FlatCmd(c).list;
    LoopShape(c);
    hide RunFrom;
    if c.cond.Void? {
      LoopOver(m, turns, c, START, s, turns);
      assert ExecLoop(m, turns, c, s, 0, turns) == Fin(s, 0);
    } else {
      LoopSim(m, turns, c, START.(rpipe := Some(0)), s, turns);
      SameChoice(m, turns, ps, 0, START, START.(rpipe := Some(0)), s, turns);
    }
  }

  lemma LoopShape(c: Cmd)
    requires c.Loop?
    ensures var ps := FlatCmd(c).list;
            var a, b := FlatSection(c.cond, LoopMode(c.kind)), FlatSection(c.body, RDo);
            && Tagged(ps) && ForSyntaxOk(ps)
            && |ps| == |a| + |b| + 2 && (c.cond.Of? ==> ps[0].rmode == LoopMode(c.kind))
            && SliceIs(ps, 0, a) && SliceIs(ps, |a|, b) && ps[|a| + |b|..] == Closing(RDone)
            && forall i :: |a| <= i < |a| + |b| ==> ps[i].rmode == RDo
  {
    SectionModes(c.cond, LoopMode(c.kind));
    SectionModes(c.body, RDo);
    var mode := LoopMode(c.kind);
    var a, b := FlatSection(c.cond, mode), FlatSection(c.body, RDo);
    hide FlatSection;
    ThreeSlices(a, b, Closing(RDone));
    LoopTags(mode, a, b);
  }

  lemma ThreeSlices(a: seq<Pipe>, b: seq<Pipe>, t: seq<Pipe>)
    ensures SliceIs(a + b + t, 0, a) && SliceIs(a + b + t, |a|, b) && (a + b + t)[|a| + |b|..] == t
  {
    Parts(a, b, t);
    assert a + b + t == a + (b + t) && a == (a + (b + t))[0..|a|];
  }

  lemma LoopTags(mode: Res, a: seq<Pipe>, b: seq<Pipe>)
    requires mode in {RWhile, RUntil}
    requires forall i :: 0 <= i < |a| ==> a[i].rmode == mode
    requires forall i :: 0 <= i < |b| ==> b[i].rmode == RDo
    ensures var ps := a + b + Closing(RDone);
            && Tagged(ps) && ForSyntaxOk(ps) && (a != [] ==> ps[0].rmode == mode)
            && forall i :: |a| <= i < |a| + |b| ==> ps[i].rmode == RDo
  {
    var ps := a + b + Closing(RDone);
    assert forall i :: 0 <= i < |ps| ==> ps[i].rmode in {mode, RDo, RDone, RNone};
  }

  /** Behind a condition that ended the loop: the body is passed over. */
  lemma LoopOver<S>(m: Machine<S>, turns: nat, c: Cmd, g: Regs, s: S, left: nat)
    requires c.Loop? && Ready(g) && !g.flagRep
    ensures RunFrom(m, turns, FlatCmd(c).list, |FlatSection(c.cond, LoopMode(c.kind))|, g, s, left)
         == Ret(FlatCmd(c).list, s, g.rcode)
  {
    hide RunFrom, Choose, FlatSection;
    var ps := FlatCmd(c).list;
    var pc1 := |FlatSection(c.cond, LoopMode(c.kind))|;
    var pc2 := pc1 + |FlatSection(c.body, RDo)|;
    LoopShape(c);
    SkipSection(m, turns, RDo, ps, pc1, pc2, g, s, left);
    DoneEnds(m, turns, ps, pc2, g, s, left);
  }

  /** At the head of the loop, with `left` more jumps allowed. */
  lemma {:induction false} LoopSim<S>(m: Machine<S>, turns: nat, c: Cmd, g: Regs, s: S, left: nat)
    requires c.Loop? && left <= turns && LegibleCmd(c) && c.cond.Of?
    requires Ready(g) && g.rpipe == Some(0) && (g.flagRep ==> Runs(c.cond))
    ensures Agrees(RunFrom(m, turns, FlatCmd(c).list, 0, g, s, left),
                   ExecLoop(m, turns, c, s, g.rcode, left), FlatCmd(c).list)
    decreases CmdSize(c), left, 1
  {
    hide RunFrom, Choose, FlatSection, ExecSection, LegibleSection;
    var ps := FlatCmd(c).list;
    var mode := LoopMode(c.kind);
    LoopShape(c);
    SectionSim(m, turns, c.cond, mode, ps, 0, g, s, left);
    var out := ExecSection(m, turns, c.cond, s, g.rcode);
    if out.Fin? && !Exiting(out.code) {
      if !Runs(c.cond) { NothingRunsInSection(m, turns, c.cond, s, g.rcode); }
      var g1 := Moved(mode, g, Runs(c.cond), out.code);
      assert g1.flagRep == GoesOn(c.kind, c.cond, out.code);
      if !g1.flagRep {
        LoopOver(m, turns, c, g1, out.s, left);
      } else {
        LoopBody(m, turns, c, g1, out.s, left);
      }
    }
  }

  lemma BackToHead<S>(m: Machine<S>, turns: nat, ps: seq<Pipe>, g: Regs, s: S, left: nat)
    requires |ps| > 0 && LoopHead(ps[0].rmode) && !g.flagRestore && g.rpipe == Some(0)
    ensures RunFrom(m, turns, ps, 0, g.(flagRestore := true), s, left) == RunFrom(m, turns, ps, 0, g, s, left)
  {
    hide RunFrom;
    SameChoice(m, turns, ps, 0, g.(flagRestore := true), g, s, left);
  }

  /** The body of the loop and the way back to its head. */
  lemma {:induction false} LoopBody<S>(m: Machine<S>, turns: nat, c: Cmd, g: Regs, s: S, left: nat)
    requires c.Loop? && left <= turns && LegibleCmd(c) && c.cond.Of?
    requires Ready(g) && g.rpipe == Some(0) && g.flagRep && Runs(c.cond)
    ensures Agrees(RunFrom(m, turns, FlatCmd(c).list, |FlatSection(c.cond, LoopMode(c.kind))|, g, s, left),
                   match ExecSection(m, turns, c.body, s, g.rcode)
                   case OutOfTurns => OutOfTurns
                   case Fin(s2, c2) =>
                     if Exiting(c2) then Fin(s2, c2)
                     else if left == 0 then OutOfTurns
                     else ExecLoop(m, turns, c, s2, c2, left - 1), FlatCmd(c).list)
    decreases CmdSize(c), left, 0
  {
    hide RunFrom, ExecLoop, FlatSection, ExecSection, LegibleSection;
    var ps := FlatCmd(c).list;
    var pc1 := |FlatSection(c.cond, LoopMode(c.kind))|;
    var pc2 := pc1 + |FlatSection(c.body, RDo)|;
    LoopShape(c);
    SectionSim(m, turns, c.body, RDo, ps, pc1, g, s, left);
    var out := ExecSection(m, turns, c.body, s, g.rcode);
    if out.Fin? && !Exiting(out.code) {
      var g2 := Moved(RDo, g, Runs(c.body), out.code);
      DoneEnds(m, turns, ps, pc2, g2, out.s, left);
      if left > 0 {
        BackToHead(m, turns, ps, g2, out.s, left - 1);
        LoopSim(m, turns, c, g2, out.s, left - 1);
      }
    }
  }

  function ForFront(c: Cmd, w: string): (ps: seq<Pipe>)
    requires c.For?
  {
    [Pipe(Prog([w]), Seq, RFor), Pipe(if c.values == [] then NoProg else Prog(UnescapeAll(c.values)), Seq, RIn)]
  }

  lemma Parts<T>(h: seq<T>, b: seq<T>, t: seq<T>)
    ensures (h + b + t)[|h|..|h| + |b|] == b && (h + b + t)[|h| + |b|..] == t
  {
  }

  /** The list of a `for` while its loop variable's word reads `w`. */
  function ForList(c: Cmd, w: string): (ps: seq<Pipe>)
    requires c.For?
  {
    ForFront(c, w) + FlatSection(c.body, RDo) + Closing(RDone)
  }

  lemma ForShape(c: Cmd, w: string)
    requires c.For?
    ensures var ps := ForList(c, w);
            var b := FlatSection(c.body, RDo);
            && Tagged(ps) && ForSyntaxOk(ps) && ForList(c, Unescape(c.name)) == FlatCmd(c).list
            && |ps| == |b| + 4 && ps[0] == Pipe(Prog([w]), Seq, RFor)
            && ps[1] == Pipe(if c.values == [] then NoProg else Prog(UnescapeAll(c.values)), Seq, RIn)
            && SliceIs(ps, 2, b) && ps[|b| + 2..] == Closing(RDone)
            && forall i :: 2 <= i < |b| + 2 ==> ps[i].rmode == RDo
    ensures forall v :: WithArg0(ForList(c, w), 0, v) == ForList(c, v)
  {
    SectionModes(c.body, RDo);
    var ps, b := ForList(c, w), FlatSection(c.body, RDo);
    hide FlatSection;
    Parts(ForFront(c, w), b, Closing(RDone));
    forall v ensures WithArg0(ps, 0, v) == ForList(c, v) { HeadReplaced(c, w, v); }
  }

  lemma HeadReplaced(c: Cmd, w: string, v: string)
    requires c.For?
    ensures WithArg0(ForList(c, w), 0, v) == ForList(c, v)
  {
    hide FlatSection;
    assert [w][0 := v] == [v];
  }

  /** `for` with nothing left to assign: the body is passed over. */
  lemma ForOver<S>(m: Machine<S>, turns: nat, c: Cmd, w: string, g: Regs, s: S, left: nat)
    requires c.For? && Ready(g) && !g.flagRep
    ensures RunFrom(m, turns, ForList(c, w), 1, g, s, left) == Ret(ForList(c, w), s, g.rcode)
  {
    hide RunFrom;
    var ps := ForList(c, w);
    var end := 2 + |FlatSection(c.body, RDo)|;
    ForShape(c, w);
    OnPass(m, turns, ps, 1, g, s, left, g);
    SkipSection(m, turns, RDo, ps, 2, end, g, s, left);
    DoneEnds(m, turns, ps, end, g, s, left);
  }

  lemma {:induction false} ForEntry<S>(m: Machine<S>, turns: nat, c: Cmd, s: S)
    requires c.For? && LegibleCmd(c)
    ensures Agrees(RunList(m, turns, FlatCmd(c).list, s), ExecCmd(m, turns, c, s), FlatCmd(c).list)
    decreases CmdSize(c), turns + 1
  {
    hide RunFrom;
    var name := Unescape(c.name);
    var ps := ForList(c, name);
    ForShape(c, name);
    var g := START.(rpipe := Some(0));
    if c.values == [] {
      assert ForValues(m, c, s) == [];
      OnPass(m, turns, ps, 0, START, s, turns, g);
      ForOver(m, turns, c, name, g, s, turns);
    } else {
      hide MakeListIn, Choose;
      var h := g.(list := Some(ForValues(m, c, s)), saveName := name, flagRep := true);
      ForStart(m, c, s);
      SameChoice(m, turns, ps, 0, START, h, s, turns);
      ForSim(m, turns, c, name, h, s, turns);
    }
  }

  /** The first visit of the head expands the words; later ones take them from the list. */
  lemma ForStart<S>(m: Machine<S>, c: Cmd, s: S)
    requires c.For? && c.values != []
    ensures Choose(m.LookIn(s), ForList(c, Unescape(c.name)), 0, START)
         == Choose(m.LookIn(s), ForList(c, Unescape(c.name)), 0,
                   START.(rpipe := Some(0), list := Some(ForValues(m, c, s)),
                          saveName := Unescape(c.name), flagRep := true))
  {
    hide MakeListIn;
    ForShape(c, Unescape(c.name));
  }

  /** At the head of a `for` that has the values of `g.list` still to assign. */
  lemma {:induction false} ForSim<S>(m: Machine<S>, turns: nat, c: Cmd, w: string, g: Regs, s: S, left: nat)
    requires c.For? && left <= turns && LegibleCmd(c)
    requires Ready(g) && g.rpipe == Some(0) && g.flagRep && g.list.Some? && g.saveName == Unescape(c.name)
    ensures Agrees(RunFrom(m, turns, ForList(c, w), 0, g, s, left),
                   ExecFor(m, turns, c, g.list.value, s, g.rcode, left), FlatCmd(c).list)
    decreases CmdSize(c), left, 1
  {
    hide RunFrom;
    var ps := ForList(c, w);
    var name := Unescape(c.name);
    ForShape(c, w);
    ForShape(c, name);
    if g.list.value == [] {
      var g1 := g.(list := None, flagRep := false);
      OnForEnd(m, turns, ps, g, s, left);
      ForOver(m, turns, c, name, g1, s, left);
    } else {
      var v := g.list.value[0];
      OnForValue(m, turns, ps, g, s, left);
      var a := m.cmd([v], s);
      if !Exiting(a.1) {
        var n := Noted(m, a.0, a.1);
        ForBody(m, turns, c, v, g.(list := Some(g.list.value[1..]), rcode := n.code), n.s, left);
      }
    }
  }

  lemma OnForEnd<S>(m: Machine<S>, turns: nat, ps: seq<Pipe>, g: Regs, s: S, left: nat)
    requires |ps| > 0 && ps[0].rmode == RFor && ps[0].body.Prog? && ps[0].body.argv != []
    requires Ready(g) && g.rpipe.Some? && g.list == Some([])
    ensures RunFrom(m, turns, ps, 0, g, s, left)
         == RunFrom(m, turns, WithArg0(ps, 0, g.saveName), 1, g.(list := None, flagRep := false), s, left)
  {
  }

  lemma OnForValue<S>(m: Machine<S>, turns: nat, ps: seq<Pipe>, g: Regs, s: S, left: nat)
    requires |ps| > 0 && ps[0].rmode == RFor && ps[0].body.Prog? && |ps[0].body.argv| == 1 && ps[0].followup == Seq
    requires Ready(g) && g.rpipe.Some? && g.list.Some? && g.list.value != []
    ensures var v := g.list.value[0];
            var a := m.cmd([v], s);
            var n := Noted(m, a.0, a.1);
            var r := RunFrom(m, turns, ps, 0, g, s, left);
            if Exiting(a.1) then r.Ret? && r.s == n.s && r.code == n.code
            else r == RunFrom(m, turns, WithArg0(ps, 0, v), 1,
                              g.(list := Some(g.list.value[1..]), rcode := a.1), n.s, left)
  {
    var v := g.list.value[0];
    assert ps[0].body.argv[0 := v] == [v];
    assert Choose(m.LookIn(s), ps, 0, g) == Go(WithArg0(ps, 0, v), g.(list := Some(g.list.value[1..])));
    hide Choose, RunFrom;
    UnfoldGo(m, turns, ps, 0, g, s, left);
  }

  /** The body of a `for` and the way back to its head. */
  lemma {:induction false} ForBody<S>(m: Machine<S>, turns: nat, c: Cmd, w: string, g: Regs, s: S, left: nat)
    requires c.For? && left <= turns && LegibleCmd(c)
    requires Ready(g) && g.rpipe == Some(0) && g.flagRep && g.list.Some? && g.saveName == Unescape(c.name)
    ensures Agrees(RunFrom(m, turns, ForList(c, w), 1, g, s, left),
                   match ExecSection(m, turns, c.body, s, g.rcode)
                   case OutOfTurns => OutOfTurns
                   case Fin(s2, c2) =>
                     if Exiting(c2) then Fin(s2, c2)
                     else if left == 0 then OutOfTurns
                     else ExecFor(m, turns, c, g.list.value, s2, c2, left - 1), FlatCmd(c).list)
    decreases CmdSize(c), left, 0
  {
    hide RunFrom, ExecFor, ForList, FlatSection, ExecSection, LegibleSection, Tagged;
    var ps := ForList(c, w);
    var end := 2 + |FlatSection(c.body, RDo)|;
    ForShape(c, w);
    OnPass(m, turns, ps, 1, g, s, left, g);
    SectionSim(m, turns, c.body, RDo, ps, 2, g, s, left);
    var out := ExecSection(m, turns, c.body, s, g.rcode);
    if out.Fin? && !Exiting(out.code) {
      var g2 := Moved(RDo, g, Runs(c.body), out.code);
      DoneEnds(m, turns, ps, end, g2, out.s, left);
      if left > 0 {
        BackToHead(m, turns, ps, g2, out.s, left - 1);
        ForSim(m, turns, c, w, g2, out.s, left - 1);
      }
    }
  }

  // Whole programs

  /** The list handed to run_list for one complete input line: the end of the input adds
      one more empty pipe. */
  function FlatProgram(l: List): (ps: seq<Pipe>) {
    FlatList(l, RNone) + Closing(RNone)
  }

  /** For every machine, program, state and bound on loop iterations, interpreting the
      flat list has the outcome of the structured program and leaves the list unchanged
      unless the program exited. */
  lemma RunIsExec<S>(m: Machine<S>, turns: nat, l: List, s: S)
    requires LegibleList(l)
    ensures Agrees(RunList(m, turns, FlatProgram(l), s), ExecList(m, turns, l, s, 0), FlatProgram(l))
  {
    hide RunFrom, FlatList, ExecList, LegibleList;
    var ps := FlatProgram(l);
    var n := |FlatList(l, RNone)|;
    ProgramShape(l);
    ListSim(m, turns, l, RNone, ps, 0, START, s, turns);
    var out := ExecList(m, turns, l, s, 0);
    if out.Fin? && !Exiting(out.code) {
      ProgramEnds(m, turns, ps, n, Moved(RNone, START, HasCommand(l), out.code), out.s, turns);
    }
  }

  lemma ProgramShape(l: List)
    ensures var ps := FlatProgram(l);
            && Tagged(ps) && ForSyntaxOk(ps) && SliceIs(ps, 0, FlatList(l, RNone))
            && ps[|FlatList(l, RNone)|..] == Closing(RNone)
  {
    ListModes(l, RNone);
    hide FlatList;
    Parts([], FlatList(l, RNone), Closing(RNone));
    assert [] + FlatList(l, RNone) == FlatList(l, RNone);
    var ps := FlatProgram(l);
    assert forall i :: 0 <= i < |ps| ==> ps[i].rmode == RNone;
  }

  lemma ProgramEnds<S>(m: Machine<S>, turns: nat, ps: seq<Pipe>, pc: nat, g: Regs, s: S, left: nat)
    requires |ps| == pc + 2 && ps[pc..] == Closing(RNone) && Ready(g)
    ensures RunFrom(m, turns, ps, pc, g, s, left) == Ret(ps, s, g.rcode)
  {
    hide RunFrom;
    assert ps[pc] == ps[pc..][0] && ps[pc + 1] == ps[pc..][1];
    OnPass(m, turns, ps, pc, g, s, left, g);
    OnPass(m, turns, ps, pc + 1, g, s, left, g);
    UnfoldEnd(m, turns, ps, |ps|, g, s, left);
  }
}
