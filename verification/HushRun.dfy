/**
 run_list_real: the interpreter of flat pipe lists, with all its flags.
 `RunList` is the specification; `RunListReal` is the loop itself.
 */
module HushRun {
  import opened Wrappers
  import opened HushSyntax
  import opened HushExpand
  import opened HushExec

  /** The local variables of run_list_real that survive an iteration. */
  datatype Regs = Regs(
    rpipe: Option<nat>,           // where the loop starts, once inside one
    flagRep: bool,
    flagRestore: bool,
    flagSkip: bool,
    ifCode: int,
    nextIfCode: int,
    skipMore: Res,                // RXxxx when nothing is being skipped
    list: Option<seq<string>>,    // values a `for` has still to assign
    saveName: string,
    rcode: int)

  const START := Regs(None, false, false, true, 0, 0, RXxxx, None, "", 0)

  /** `pipes` is the list as the run leaves it: a `for` overwrites its own words. */
  datatype Ran<S> = Ret(pipes: seq<Pipe>, s: S, code: int) | NoTurns

  datatype Choice =
    | Pass(pipes: seq<Pipe>, g: Regs)   // go on to the next pipe
    | Stop(g: Regs)                     // leave the loop
    | Go(pipes: seq<Pipe>, g: Regs)     // run this pipe

  predicate LoopHead(r: Res) { r in {RWhile, RUntil, RFor} }

  /** The check made before anything runs: `for NAME` is directly followed by one `in` section. */
  predicate ForSyntaxOk(ps: seq<Pipe>) {
    forall i :: 0 <= i < |ps| ==> ForSyntaxOkAt(ps, i)
  }

  predicate ForSyntaxOkAt(ps: seq<Pipe>, i: nat)
    requires i < |ps|
  {
    ps[i].rmode in {RIn, RFor} ==>
      && i + 1 < |ps|
      && (ps[i].rmode == RIn ==> !(ps[i + 1].rmode == RIn && ps[i + 1].body.Prog?))
      && (ps[i].rmode == RFor ==> ps[i + 1].rmode == RIn)
  }

  function AtLoopHead(p: Pipe, pc: nat, g: Regs): (g': Regs) {
    if !LoopHead(p.rmode) then g
    else if g.rpipe.None? then g.(flagRestore := false, flagRep := false, rpipe := Some(pc))
    else g.(flagRestore := false)
  }

  /** Everything an iteration decides before it runs the pipe. */
  function Choose(look: Lookup, ps: seq<Pipe>, pc: nat, g0: Regs): (ch: Choice)
    requires pc < |ps|
  {
    var p := ps[pc];
    var g1 := AtLoopHead(p, pc, g0);
    if p.rmode == g1.skipMore && g1.flagSkip then Pass(ps, g1.(flagSkip := p.followup != Seq))
    else
      var g := g1.(flagSkip := true, skipMore := RXxxx,
                   ifCode := if p.rmode in {RThen, RElse} then g1.nextIfCode else g1.ifCode);
      if p.rmode == RThen && g.ifCode != 0 then Pass(ps, g)
      else if p.rmode == RElse && g.ifCode == 0 then Pass(ps, g)
      else if p.rmode == RElif && g.ifCode == 0 then Stop(g)
      else if p.rmode == RFor && p.body.Prog? && p.body.argv != [] then ForChoice(look, ps, pc, g)
      else if p.rmode == RIn then Pass(ps, g)
      else if p.rmode == RDo && !g.flagRep then Pass(ps, g)
      else
        var g' := if p.rmode != RDone then g
                  else if g.flagRep then g.(flagRestore := true)
                  else g.(rpipe := None);
        if p.body.NoProg? then Pass(ps, g') else Go(ps, g')
  }

  function ForChoice(look: Lookup, ps: seq<Pipe>, pc: nat, g: Regs): (ch: Choice)
    requires pc < |ps| && ps[pc].body.Prog? && ps[pc].body.argv != []
  {
    if g.list.Some? then ForTake(ps, pc, g)
    else if !(pc + 1 < |ps| && ps[pc + 1].body.Prog?) then Pass(ps, g)
    else
      var name := ps[pc].body.argv[0];
      ForTake(ps, pc, g.(list := Some(MakeListIn(ps[pc + 1].body.argv, name, look)),
                         saveName := name, flagRep := true))
  }

  function ForTake(ps: seq<Pipe>, pc: nat, g: Regs): (ch: Choice)
    requires pc < |ps| && ps[pc].body.Prog? && ps[pc].body.argv != []
    requires g.list.Some?
  {
    if g.list.value == [] then
      Pass(WithArg0(ps, pc, g.saveName), g.(list := None, flagRep := false))
    else
      Go(WithArg0(ps, pc, g.list.value[0]), g.(list := Some(g.list.value[1..])))
  }

  function WithArg0(ps: seq<Pipe>, pc: nat, w: string): (ps': seq<Pipe>)
    requires pc < |ps| && ps[pc].body.Prog? && ps[pc].body.argv != []
  {
    ps[pc := ps[pc].(body := Prog(ps[pc].body.argv[0 := w]))]
  }

  /** What an iteration records once the pipe has returned `code`. */
  function After(p: Pipe, g: Regs, code: int): (g': Regs) {
    g.(rcode := code,
       nextIfCode := if p.rmode in {RIf, RElif} then code else g.nextIfCode,
       flagRep := if p.rmode == RWhile then code == 0
                  else if p.rmode == RUntil then code != 0
                  else g.flagRep,
       skipMore := if (code == 0 && p.followup == OrIf) || (code != 0 && p.followup == AndIf)
                   then p.rmode else g.skipMore)
  }

  lemma ChooseKeepsDepth(look: Lookup, ps: seq<Pipe>, pc: nat, g: Regs)
    requires pc < |ps|
    ensures var ch := Choose(look, ps, pc, g);
            !ch.Stop? ==> |ch.pipes| == |ps| && Depth(ch.pipes) == Depth(ps) && (ch.Go? ==> !ch.pipes[pc].body.NoProg?)
  {
    var ch := Choose(look, ps, pc, g);
    if !ch.Stop? && ch.pipes != ps {
      assert ch.pipes == ps[pc := ch.pipes[pc]] && ch.pipes[pc].body.Prog?;
      DepthUpdate(ps, pc, ch.pipes[pc]);
    }
  }

  /** One call of run_list_real; every loop in it may jump back at most `turns` times. */
  function RunList<S>(m: Machine<S>, turns: nat, ps: seq<Pipe>, s: S): (r: Ran<S>)
    ensures r.Ret? ==> |r.pipes| == |ps| && Depth(r.pipes) == Depth(ps)
    decreases Depth(ps), turns + 1, 0
  {
    if ForSyntaxOk(ps) then RunFrom(m, turns, ps, 0, START, s, turns) else Ret(ps, s, 1)
  }

  /** The loop of run_list_real from pipe `pc` on. */
  function RunFrom<S>(m: Machine<S>, turns: nat, ps: seq<Pipe>, pc: nat, g: Regs, s: S, left: nat): (r: Ran<S>)
    ensures r.Ret? ==> |r.pipes| == |ps| && Depth(r.pipes) == Depth(ps)
    decreases Depth(ps), left, |ps| - pc, 0
  {
    if pc >= |ps| then Ret(ps, s, g.rcode)
    else
      ChooseKeepsDepth(m.LookIn(s), ps, pc, g);
      match Choose(m.LookIn(s), ps, pc, g)
      case Stop(g1) => Ret(ps, s, g1.rcode)
      case Pass(ps1, g1) => Resume(m, turns, ps1, pc, g1, s, left)
      case Go(ps1, g1) =>
        match RunBody(m, turns, ps1, pc, s)
        case NoTurns => NoTurns
        case Ret(ps2, s2, code) =>
          if code < -1 then Ret(ps2, m.setLast(s2, -code - 2), -2)
          else Resume(m, turns, ps2, pc, After(ps2[pc], g1, code), m.setLast(s2, if code == 0 then 0 else 1), left)
  }

  /** The step of the C for loop: on to the next pipe, or back to the head of the loop. */
  function Resume<S>(m: Machine<S>, turns: nat, ps: seq<Pipe>, pc: nat, g: Regs, s: S, left: nat): (r: Ran<S>)
    requires pc < |ps|
    ensures r.Ret? ==> |r.pipes| == |ps| && Depth(r.pipes) == Depth(ps)
    decreases Depth(ps), left, |ps| - pc - 1, 1
  {
    if !g.flagRestore then RunFrom(m, turns, ps, pc + 1, g, s, left)
    else if g.rpipe.None? then Ret(ps, s, g.rcode)
    else if left == 0 then NoTurns
    else RunFrom(m, turns, ps, g.rpipe.value, g, s, left - 1)
  }

  /** run_pipe_real on a pipe that has a program. */
  function RunBody<S>(m: Machine<S>, turns: nat, ps: seq<Pipe>, pc: nat, s: S): (r: Ran<S>)
    requires pc < |ps|
    ensures r.Ret? ==> |r.pipes| == |ps| && Depth(r.pipes) == Depth(ps)
                       && r.pipes[pc].(body := NoProg) == ps[pc].(body := NoProg)
    decreases Depth(ps), 0, 0
  {
    match ps[pc].body
    case NoProg => Ret(ps, s, -1)
    case Prog(argv) => var r := m.cmd(argv, s); Ret(ps, r.0, r.1)
    case Group(list) =>
      DepthAt(ps, pc);
      match RunList(m, turns, list, s)
      case NoTurns => NoTurns
      case Ret(list', s', code) =>
        DepthUpdate(ps, pc, ps[pc].(body := Group(list')));
        Ret(ps[pc := ps[pc].(body := Group(list'))], s', code)
  }

  /** The check for `for`, pipe by pipe. */
  method CheckForSyntax(ps: seq<Pipe>) returns (ok: bool)
    ensures ok == ForSyntaxOk(ps)
  {
    var i := 0;
    while i < |ps|
      invariant 0 <= i <= |ps|
      invariant forall k :: 0 <= k < i ==> ForSyntaxOkAt(ps, k)
    {
      if ps[i].rmode in {RIn, RFor} && i + 1 == |ps| {
        assert !ForSyntaxOkAt(ps, i);
        return false;
      }
      if (ps[i].rmode == RIn && ps[i + 1].rmode == RIn && ps[i + 1].body.Prog?)
        || (ps[i].rmode == RFor && ps[i + 1].rmode != RIn)
      {
        assert !ForSyntaxOkAt(ps, i);
        return false;
      }
      i := i + 1;
    }
    return true;
  }

  /** The branch of that body for the head of a `for`. */
  method VisitFor(look: Lookup, ps: seq<Pipe>, pc: nat, g0: Regs) returns (ch: Choice)
    requires pc < |ps| && ps[pc].body.Prog? && ps[pc].body.argv != []
    ensures ch == ForChoice(look, ps, pc, g0)
  {
    var g := g0;
    if g.list.None? {
      if !(pc + 1 < |ps| && ps[pc + 1].body.Prog?) { return Pass(ps, g); }
      var made := MakeList(ps[pc + 1].body.argv, ps[pc].body.argv[0], look);
      g := g.(list := Some(made), saveName := ps[pc].body.argv[0], flagRep := true);
    }
    if g.list.value == [] {
      g := g.(list := None, flagRep := false);
      return Pass(WithArg0(ps, pc, g.saveName), g);
    }
    return Go(WithArg0(ps, pc, g.list.value[0]), g.(list := Some(g.list.value[1..])));
  }

  /** The first half of the loop body of run_list_real, statement by statement: every
      `return Pass` is a `continue`. */
  method Visit(look: Lookup, list0: seq<Pipe>, pc: nat, g0: Regs) returns (ch: Choice)
    requires pc < |list0|
    ensures ch == Choose(look, list0, pc, g0)
  {
    hide ForChoice;
    var ps, g, mode := list0, g0, list0[pc].rmode;
    if mode in {RWhile, RUntil, RFor} {
      g := g.(flagRestore := false);
      if g.rpipe.None? { g := g.(flagRep := false, rpipe := Some(pc)); }
    }
    if mode == g.skipMore && g.flagSkip {
      if ps[pc].followup == Seq { g := g.(flagSkip := false); }
      return Pass(ps, g);
    }
    g := g.(flagSkip := true, skipMore := RXxxx);
    if mode in {RThen, RElse} { g := g.(ifCode := g.nextIfCode); }
    if mode == RThen && g.ifCode != 0 { return Pass(ps, g); }
    if mode == RElse && g.ifCode == 0 { return Pass(ps, g); }
    if mode == RElif && g.ifCode == 0 { return Stop(g); }
    if mode == RFor && ps[pc].body.Prog? && ps[pc].body.argv != [] {
      ch := VisitFor(look, ps, pc, g);
      return;
    }
    if mode == RIn { return Pass(ps, g); }
    if mode == RDo && !g.flagRep { return Pass(ps, g); }
    if mode == RDone {
      g := if g.flagRep then g.(flagRestore := true) else g.(rpipe := None);
    }
    if ps[pc].body.NoProg? { return Pass(ps, g); }
    return Go(ps, g);
  }

  /** The loop of run_list_real. */
  method RunListReal<S>(m: Machine<S>, turns: nat, list0: seq<Pipe>, s0: S) returns (r: Ran<S>)
    ensures r == RunList(m, turns, list0, s0)
    decreases Depth(list0)
  {
    hide RunFrom, RunBody, Choose;
    var ok := CheckForSyntax(list0);
    if !ok { return Ret(list0, s0, 1); }
    var ps, s, g := list0, s0, START;
    var pc: nat, left: nat := 0, turns;
    while pc < |ps|
      invariant Depth(ps) == Depth(list0)
      invariant RunFrom(m, turns, ps, pc, g, s, left) == RunList(m, turns, list0, s0)
      decreases left, |ps| - pc
    {
      var ch := Visit(m.LookIn(s), ps, pc, g);
      ChooseKeepsDepth(m.LookIn(s), ps, pc, g);
      if ch.Stop? {
        UnfoldStop(m, turns, ps, pc, g, s, left);
        return Ret(ps, s, ch.g.rcode);
      }
      if ch.Pass? {
        UnfoldPass(m, turns, ps, pc, g, s, left);
        ps, g := ch.pipes, ch.g;
      } else {
        UnfoldGo(m, turns, ps, pc, g, s, left);
        var mode := ch.pipes[pc].rmode;
        var ran := RunPipeReal(m, turns, ch.pipes, pc, s);
        if ran.NoTurns? { return NoTurns; }
        var code := ran.code;
        if code < -1 { return Ret(ran.pipes, m.setLast(ran.s, -code - 2), -2); }
        ps, s, g := ran.pipes, m.setLast(ran.s, if code == 0 then 0 else 1), ch.g.(rcode := code);
        if mode in {RIf, RElif} { g := g.(nextIfCode := code); }
        if mode == RWhile { g := g.(flagRep := code == 0); }
        if mode == RUntil { g := g.(flagRep := code != 0); }
        if (code == 0 && ps[pc].followup == OrIf) || (code != 0 && ps[pc].followup == AndIf) {
          g := g.(skipMore := mode);
        }
        assert g == After(ps[pc], ch.g, code);
      }
      if g.flagRestore {
        if g.rpipe.None? { return Ret(ps, s, g.rcode); }
        if left == 0 { return NoTurns; }
        pc, left := g.rpipe.value, left - 1;
      } else {
        pc := pc + 1;
      }
    }
    UnfoldEnd(m, turns, ps, pc, g, s, left);
    r := Ret(ps, s, g.rcode);
  }

  /** run_pipe_real on the program of pipe `pc`. */
  method RunPipeReal<S>(m: Machine<S>, turns: nat, ps: seq<Pipe>, pc: nat, s: S) returns (r: Ran<S>)
    requires pc < |ps| && !ps[pc].body.NoProg?
    ensures r == RunBody(m, turns, ps, pc, s)
    decreases Depth(ps), 0
  {
    match ps[pc].body
    case Prog(argv) =>
      var a := m.cmd(argv, s);
      r := Ret(ps, a.0, a.1);
    case Group(list) =>
      DepthAt(ps, pc);
      var inner := RunListReal(m, turns, list, s);
      if inner.NoTurns? {
        r := NoTurns;
      } else {
        r := Ret(ps[pc := ps[pc].(body := Group(inner.pipes))], inner.s, inner.code);
      }
  }

  lemma UnfoldEnd<S>(m: Machine<S>, turns: nat, ps: seq<Pipe>, pc: nat, g: Regs, s: S, left: nat)
    requires pc >= |ps|
    ensures RunFrom(m, turns, ps, pc, g, s, left) == Ret(ps, s, g.rcode)
  {
  }

  lemma UnfoldStop<S>(m: Machine<S>, turns: nat, ps: seq<Pipe>, pc: nat, g: Regs, s: S, left: nat)
    requires pc < |ps| && Choose(m.LookIn(s), ps, pc, g).Stop?
    ensures RunFrom(m, turns, ps, pc, g, s, left) == Ret(ps, s, Choose(m.LookIn(s), ps, pc, g).g.rcode)
  {
    hide Choose;
  }

  lemma UnfoldPass<S>(m: Machine<S>, turns: nat, ps: seq<Pipe>, pc: nat, g: Regs, s: S, left: nat)
    requires pc < |ps| && Choose(m.LookIn(s), ps, pc, g).Pass?
    ensures var ch := Choose(m.LookIn(s), ps, pc, g);
            |ch.pipes| == |ps| && RunFrom(m, turns, ps, pc, g, s, left) == Resume(m, turns, ch.pipes, pc, ch.g, s, left)
  {
    ChooseKeepsDepth(m.LookIn(s), ps, pc, g);
    hide Choose;
  }

  lemma UnfoldGo<S>(m: Machine<S>, turns: nat, ps: seq<Pipe>, pc: nat, g: Regs, s: S, left: nat)
    requires pc < |ps| && Choose(m.LookIn(s), ps, pc, g).Go?
    ensures var ch := Choose(m.LookIn(s), ps, pc, g);
            && |ch.pipes| == |ps|
            && RunFrom(m, turns, ps, pc, g, s, left)
            == match RunBody(m, turns, ch.pipes, pc, s)
               case NoTurns => NoTurns
               case Ret(ps2, s2, code) =>
                 if code < -1 then Ret(ps2, m.setLast(s2, -code - 2), -2)
                 else
                   Resume(m, turns, ps2, pc, After(ps2[pc], ch.g, code),
                          m.setLast(s2, if code == 0 then 0 else 1), left)
  {
    ChooseKeepsDepth(m.LookIn(s), ps, pc, g);
    hide Choose, RunBody;
  }
}
