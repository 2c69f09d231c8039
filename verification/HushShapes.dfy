/**
 Which `if` commands survive flattening. Sections without a pipe leave nothing in the flat
 list, and then the interpreter may take one section for another: exactly the shapes that
 are not `Legible` go wrong.
 */
module HushShapes {
  import opened Wrappers
  import opened HushSyntax
  import opened HushExec
  import opened HushRun
  import opened HushRunProof

  // What happens instead

  /** An empty first `then` section: if_code is not refreshed, so an `elif` behind it ends the
      command whatever the condition returned. */
  lemma EmptyThenDropsElif<S>(m: Machine<S>, turns: nat, c: Cmd, s: S)
    requires c.If? && c.thn.Void? && c.els.Elif? && c.els.cond.Of? && LegibleSection(c.cond)
    ensures Agrees(RunList(m, turns, FlatCmd(c).list, s), ExecSection(m, turns, c.cond, s, 0), FlatCmd(c).list)
  {
    hide RunFrom, FlatSection, ExecSection, LegibleSection;
    var ps := FlatCmd(c).list;
    var n := |FlatSection(c.cond, RIf)|;
    IfShape(c);
    BranchShape(c.cond, c.thn, c.els, RIf, ps, 0);
    SectionSim(m, turns, c.cond, RIf, ps, 0, START, s, turns);
    var out := ExecSection(m, turns, c.cond, s, 0);
    if out.Fin? && !Exiting(out.code) {
      ElifAt(c, ps);
      UnfoldStop(m, turns, ps, n, Moved(RIf, START, Runs(c.cond), out.code), out.s, turns);
    }
  }

  lemma ElifAt(c: Cmd, ps: seq<Pipe>)
    requires c.If? && c.thn.Void? && c.els.Elif? && c.els.cond.Of? && ps == FlatCmd(c).list
    ensures var n := |FlatSection(c.cond, RIf)|; n < |ps| && ps[n].rmode == RElif
  {
    hide FlatList;
    BranchShape(c.cond, c.thn, c.els, RIf, ps, 0);
    SectionModes(c.els.cond, RElif);
    var n := |FlatSection(c.cond, RIf)|;
    assert ps[n] == ps[n..][0] == FlatSection(c.els.cond, RElif)[0];
  }

  /** An empty `then` section behind an `elif`: the flat list is the one of the command whose
      next condition is both conditions in a row, so the second is run whatever the first
      returned. */
  lemma EmptyThenJoins(b: List, c: List, thn: Section, els: Else)
    ensures FlatElse(Elif(Of(b), Void, Elif(Of(c), thn, els))) == FlatElse(Elif(Of(Append(b, c)), thn, els))
  {
    FlatAppend(b, c, RElif);
    hide FlatList;
    var inner := Elif(Of(c), thn, els);
    var p, q, t, e := FlatList(b, RElif), FlatList(c, RElif), FlatSection(thn, RThen), FlatElse(els);
    assert FlatElse(inner) == q + t + e;
    assert FlatElse(Elif(Of(b), Void, inner)) == p + [] + (q + t + e);
    assert p + [] + (q + t + e) == p + q + t + e;
    assert FlatElse(Elif(Of(Append(b, c)), thn, els)) == p + q + t + e;
  }

  /** An empty condition: the flat list is the one of the command without that clause and
      with both `then` sections in a row. */
  lemma EmptyConditionJoins(cond: Section, x: List, y: List, els: Else)
    ensures FlatElse(Elif(cond, Of(x), Elif(Void, Of(y), els))) == FlatElse(Elif(cond, Of(Append(x, y)), els))
    ensures FlatCmd(If(cond, Of(x), Elif(Void, Of(y), els))) == FlatCmd(If(cond, Of(Append(x, y)), els))
  {
    FlatAppend(x, y, RThen);
    hide FlatList;
    var inner := Elif(Void, Of(y), els);
    var a, b, d := FlatList(x, RThen), FlatList(y, RThen), FlatElse(els);
    var p, q := FlatSection(cond, RElif), FlatSection(cond, RIf);
    assert FlatElse(inner) == [] + b + d == b + d;
    assert FlatElse(Elif(cond, Of(x), inner)) == p + a + (b + d);
    assert p + a + (b + d) == p + (a + b) + d && q + a + (b + d) == q + (a + b) + d;
    assert FlatElse(Elif(cond, Of(Append(x, y)), els)) == p + (a + b) + d;
  }

  // A machine that counts

  /** One command that is always run. */
  const STEP := One(Last(Simple(["step"])), Semi)

  /** Every command fails, but for the one run as number `ok`; from number `quit` on they exit. */
  function Clock(ok: nat, quit: nat): (m: Machine<nat>) {
    Machine((argv, n) => (n + 1, if n >= quit then -3 else if n == ok then 0 else 1),
            (w, n) => None, (n, code) => n)
  }

  function Reply(ok: nat, quit: nat, n: nat): (code: int) {
    if n >= quit then -2 else if n == ok then 0 else 1
  }

  lemma StepRuns(ok: nat, quit: nat, turns: nat, n: nat, code: int)
    ensures ExecSection(Clock(ok, quit), turns, Of(STEP), n, code) == Fin(n + 1, Reply(ok, quit, n))
  {
    var m := Clock(ok, quit);
    assert ExecCmd(m, turns, Simple(["step"]), n)
        == Fin(n + 1, if n >= quit then -3 else if n == ok then 0 else 1);
    assert ExecChain(m, turns, Last(Simple(["step"])), n, code) == Fin(n + 1, Reply(ok, quit, n));
  }

  // The failures at concrete programs

  lemma LegibleStep()
    ensures LegibleList(STEP) && Runs(Of(STEP))
  {
    assert LegibleChain(Last(Simple(["step"])));
  }

  /** `if a; then elif b; then x; fi` with a failing and b succeeding: b and x are to be run,
      but only a is. */
  lemma FirstThenEmpty(turns: nat)
    ensures var c := If(Of(STEP), Void, Elif(Of(STEP), Of(STEP), NoElse));
            && ExecCmd(Clock(1, 9), turns, c, 0) == Fin(3, 1)
            && RunList(Clock(1, 9), turns, FlatCmd(c).list, 0) == Ret(FlatCmd(c).list, 1, 1)
  {
    var m := Clock(1, 9);
    var c := If(Of(STEP), Void, Elif(Of(STEP), Of(STEP), NoElse));
    LegibleStep();
    EmptyThenDropsElif(m, turns, c, 0);
    StepRuns(1, 9, turns, 0, 0);
    StepRuns(1, 9, turns, 1, 1);
    StepRuns(1, 9, turns, 2, 0);
    hide ExecSection, Clock;
    assert ExecElse(m, turns, c.els, 1, 1) == Fin(3, 1);
  }

  /** `if a; then x; elif b; then elif c; then y; fi` with a failing and b succeeding: nothing
      more is to be run, but c is. */
  lemma LaterThenEmpty(turns: nat)
    ensures var c := If(Of(STEP), Of(STEP), Elif(Of(STEP), Void, Elif(Of(STEP), Of(STEP), NoElse)));
            && ExecCmd(Clock(1, 9), turns, c, 0) == Fin(2, 0)
            && RunList(Clock(1, 9), turns, FlatCmd(c).list, 0) == Ret(FlatCmd(c).list, 3, 1)
  {
    var m := Clock(1, 9);
    var both := Of(Append(STEP, STEP));
    var c := If(Of(STEP), Of(STEP), Elif(Of(STEP), Void, Elif(Of(STEP), Of(STEP), NoElse)));
    var d := If(Of(STEP), Of(STEP), Elif(both, Of(STEP), NoElse));
    LegibleStep();
    EmptyThenJoins(STEP, STEP, Of(STEP), NoElse);
    StepRuns(1, 9, turns, 0, 0);
    StepRuns(1, 9, turns, 1, 1);
    StepRuns(1, 9, turns, 2, 0);
    TwoSteps(1, 9, turns, 1, 1);
    LegibleBoth();
    IfSim(m, turns, d, 0);
    hide ExecSection, Clock;
    assert ExecElse(m, turns, c.els, 1, 1) == Fin(2, 0) by { VoidRuns(m, turns, 2, 0); }
    assert ExecElse(m, turns, d.els, 1, 1) == Fin(3, 1);
  }

  /** `if a; then x; elif then y; fi` with a succeeding: y is run after x. */
  lemma ConditionEmpty(turns: nat)
    ensures var c := If(Of(STEP), Of(STEP), Elif(Void, Of(STEP), NoElse));
            && ExecCmd(Clock(0, 9), turns, c, 0) == Fin(2, 1)
            && RunList(Clock(0, 9), turns, FlatCmd(c).list, 0) == Ret(FlatCmd(c).list, 3, 1)
  {
    var m := Clock(0, 9);
    var d := If(Of(STEP), Of(Append(STEP, STEP)), NoElse);
    EmptyConditionJoins(Of(STEP), STEP, STEP, NoElse);
    StepRuns(0, 9, turns, 0, 0);
    StepRuns(0, 9, turns, 1, 0);
    TwoSteps(0, 9, turns, 1, 0);
    LegibleStep();
    LegibleBoth();
    IfSim(m, turns, d, 0);
    hide ExecSection, Clock;
    assert ExecCmd(m, turns, d, 0) == Fin(3, 1);
  }

  lemma VoidRuns<S>(m: Machine<S>, turns: nat, s: S, code: int)
    ensures ExecSection(m, turns, Void, s, code) == Fin(s, code)
  {
  }

  lemma LegibleBoth()
    ensures LegibleList(Append(STEP, STEP))
  {
    LegibleStep();
  }

  lemma TwoSteps(ok: nat, quit: nat, turns: nat, n: nat, code: int)
    requires n + 1 < quit
    ensures ExecSection(Clock(ok, quit), turns, Of(Append(STEP, STEP)), n, code) == Fin(n + 2, Reply(ok, quit, n + 1))
  {
    var m := Clock(ok, quit);
    StepRuns(ok, quit, turns, n, code);
    StepRuns(ok, quit, turns, n + 1, Reply(ok, quit, n));
    assert ExecList(m, turns, STEP, n, code) == ExecChain(m, turns, STEP.chain, n, code);
  }

  // The exact condition

  /** The same sections have pipes. */
  predicate SameElse(e: Else, f: Else) {
    match e
    case NoElse => f.NoElse?
    case Else(body) => f.Else? && (body.Of? <==> f.body.Of?)
    case Elif(cond, thn, els) =>
      f.Elif? && (cond.Of? <==> f.cond.Of?) && (thn.Of? <==> f.thn.Of?) && SameElse(els, f.els)
  }

  predicate SameShape(c: Cmd, d: Cmd) {
    c.If? && d.If? && (c.cond.Of? <==> d.cond.Of?) && (c.thn.Of? <==> d.thn.Of?) && SameElse(c.els, d.els)
  }

  /** The programs inside the sections are in order. */
  predicate Inside(c: Cmd)
    requires c.If?
  {
    LegibleSection(c.cond) && LegibleSection(c.thn) && LegibleElse(c.els)
  }

  /** Its flat list has its meaning, on every machine that counts, in every state and bound. */
  ghost predicate Faithful(c: Cmd)
    requires c.If?
  {
    forall m: Machine<nat>, turns: nat, s: nat ::
      Agrees(RunList(m, turns, FlatCmd(c).list, s), ExecCmd(m, turns, c, s), FlatCmd(c).list)
  }

  function Plain(x: Section): (y: Section) { if x.Of? then Of(STEP) else Void }

  function PlainElse(e: Else): (f: Else) {
    match e
    case NoElse => NoElse
    case Else(body) => Else(Plain(body))
    case Elif(cond, thn, els) => Elif(Plain(cond), Plain(thn), PlainElse(els))
  }

  /** The command of the same shape in which every section is a single step. */
  function PlainIf(c: Cmd): (d: Cmd)
    requires c.If?
  {
    If(Plain(c.cond), Plain(c.thn), PlainElse(c.els))
  }

  lemma {:induction false} PlainSame(e: Else)
    ensures SameElse(e, PlainElse(e)) && LegibleElse(PlainElse(e)) && PlainElse(PlainElse(e)) == PlainElse(e)
    decreases e
  {
    LegibleStep();
    if e.Elif? { PlainSame(e.els); }
  }

  /** The next clause that leaves a trace. */
  function Skip(e: Else): (f: Else)
    decreases e
  {
    if Traceless(e) then Skip(e.els) else e
  }

  lemma {:induction false} SkipSame<S>(m: Machine<S>, turns: nat, thn: Section, e: Else, s: S, code: int)
    ensures FlatElse(Skip(e)) == FlatElse(e) && !Traceless(Skip(e)) && ElseSize(Skip(e)) <= ElseSize(e)
    ensures Follows(thn, Skip(e)) == Follows(thn, e) && FollowsTaken(Skip(e)) == FollowsTaken(e)
    ensures PlainElse(e) == e ==> PlainElse(Skip(e)) == Skip(e)
    ensures code != 0 && !Exiting(code) ==> ExecElse(m, turns, Skip(e), s, code) == ExecElse(m, turns, e, s, code)
    decreases e
  {
    if Traceless(e) {
      NoTrace(m, turns, e, s, code);
      SkipSame(m, turns, thn, e.els, s, code);
    }
  }

  /** The step at `n` of an enabled section. */
  lemma StepAt(ok: nat, quit: nat, turns: nat, mode: Res, ps: seq<Pipe>, pc: nat, g: Regs, n: nat, left: nat)
    requires Tagged(ps) && SliceIs(ps, pc, FlatSection(Of(STEP), mode)) && Ready(g) && Enabled(mode, g)
    ensures var r := RunFrom(Clock(ok, quit), turns, ps, pc, g, n, left);
            var code := Reply(ok, quit, n);
            if code == -2 then r.Ret? && r.s == n + 1 && r.code == -2
            else r == RunFrom(Clock(ok, quit), turns, ps, pc + 1, Moved(mode, g, true, code), n + 1, left)
    ensures |FlatSection(Of(STEP), mode)| == 1
  {
    hide RunFrom, Choose, Clock;
    LegibleStep();
    StepRuns(ok, quit, turns, n, g.rcode);
    hide ExecSection;
    SectionSim(Clock(ok, quit), turns, Of(STEP), mode, ps, pc, g, n, left);
    assert FlatSection(Of(STEP), mode) == FlatChain(STEP.chain, mode);
  }

  /** The interpreter stands before a step, the `then` section `thn` and the clauses `els`. */
  ghost predicate Before(thn: Section, els: Else, mode: Res, ps: seq<Pipe>, pc: nat, g: Regs) {
    && mode in {RIf, RElif} && Tagged(ps) && pc <= |ps|
    && ps[pc..] == FlatSection(Of(STEP), mode) + FlatSection(thn, RThen) + FlatElse(els) + Closing(RFi)
    && Plain(thn) == thn && PlainElse(els) == els
    && Ready(g) && g.nextIfCode == g.rcode && (mode == RIf <==> g.ifCode == 0)
  }

  ghost predicate Misread(ok: nat, quit: nat, turns: nat, thn: Section, els: Else, ps: seq<Pipe>, pc: nat,
                          g: Regs, n: nat, left: nat) {
    !Agrees(RunFrom(Clock(ok, quit), turns, ps, pc, g, n, left),
            ExecBranch(Clock(ok, quit), turns, Of(STEP), thn, els, n, g.rcode), ps)
  }

  /** The flags behind a condition that returned `code`. */
  function Behind(g: Regs, code: int): (g': Regs) { g.(rcode := code, nextIfCode := code) }

  /** Where the sections are. */
  lemma Layout(thn: Section, els: Else, mode: Res, ps: seq<Pipe>, pc: nat, g: Regs)
    requires Before(thn, els, mode, ps, pc, g)
    ensures |FlatSection(Of(STEP), mode)| == 1 && SliceIs(ps, pc, FlatSection(Of(STEP), mode))
    ensures ThenAt(thn, els, ps, pc + 1) && Enabled(mode, g) && |FlatSection(thn, RThen)| == if thn.Of? then 1 else 0
  {
    BranchShape(Of(STEP), thn, els, mode, ps, pc);
    assert FlatSection(Of(STEP), mode) == FlatChain(STEP.chain, mode);
    assert FlatSection(Of(STEP), RThen) == FlatChain(STEP.chain, RThen);
  }

  /** Where the sections of the next clause are. */
  lemma NextLayout(els: Else, ps: seq<Pipe>, pc: nat)
    requires pc <= |ps| && ps[pc..] == FlatElse(els) + Closing(RFi)
    requires PlainElse(els) == els && Skip(els).Elif?
    ensures var e := Skip(els);
            && (e.cond == Of(STEP) || e.cond.Void?) && (e.thn == Of(STEP) || e.thn.Void?)
            && ps[pc..] == FlatSection(e.cond, RElif) + FlatSection(e.thn, RThen) + FlatElse(e.els) + Closing(RFi)
            && SliceIs(ps, pc, FlatSection(e.cond, RElif))
            && (e.cond.Void? ==> SliceIs(ps, pc, FlatSection(e.thn, RThen)))
            && PlainElse(e.els) == e.els
  {
    hide FlatSection;
    var e := Skip(els);
    SkipSame(Clock(0, 0), 0, Void, els, 0, 0);
    BranchShape(e.cond, e.thn, e.els, RElif, ps, pc);
    assert e.cond.Void? ==> FlatSection(e.cond, RElif) == [] by { VoidFlat(RElif); }
  }

  lemma VoidFlat(mode: Res)
    ensures FlatSection(Void, mode) == []
  {
  }

  /** An empty first `then` section: the interpreter stops where the next condition is due. */
  lemma StopsShort(thn: Section, els: Else, ps: seq<Pipe>, pc: nat, g: Regs, n: nat, left: nat, turns: nat)
    requires Before(thn, els, RIf, ps, pc, g) && thn.Void? && Skip(els).Elif? && Skip(els).cond.Of?
    ensures Misread(n + 1, n + 1, turns, thn, els, ps, pc, g, n, left)
  {
    var ok, quit := n + 1, n + 1;
    var m := Clock(ok, quit);
    hide RunFrom, Clock, FlatSection;
    var e := Skip(els);
    Layout(thn, els, RIf, ps, pc, g);
    VoidFlat(RThen);
    NextLayout(els, ps, pc + 1);
    StepAt(ok, quit, turns, RIf, ps, pc, g, n, left);
    SectionModes(e.cond, RElif);
    assert ps[pc + 1] == ps[pc + 1..pc + 1 + |FlatSection(e.cond, RElif)|][0];
    UnfoldStop(m, turns, ps, pc + 1, Behind(g, 1), n + 1, left);
    StepRuns(ok, quit, turns, n, g.rcode);
    StepRuns(ok, quit, turns, n + 1, 1);
    SkipSame(m, turns, thn, els, n + 1, 1);
    hide ExecSection;
    assert ExecElse(m, turns, e, n + 1, 1) == Fin(n + 2, -2);
  }

  /** The condition succeeded and its `then` section is done, but the interpreter runs a
      section of the next clause as well. */
  lemma RunsOn(thn: Section, els: Else, mode: Res, ps: seq<Pipe>, pc: nat, g: Regs, n: nat, left: nat, turns: nat)
    requires Before(thn, els, mode, ps, pc, g) && Skip(els).Elif? && !Traceless(Skip(els))
    requires if Skip(els).cond.Of? then thn.Void? && mode == RElif else true
    ensures Misread(n, if thn.Of? then n + 2 else n + 1, turns, thn, els, ps, pc, g, n, left)
  {
    var ok, quit := n, if thn.Of? then n + 2 else n + 1;
    var m := Clock(ok, quit);
    hide RunFrom, Clock, FlatSection, Choose;
    Layout(thn, els, mode, ps, pc, g);
    StepAt(ok, quit, turns, mode, ps, pc, g, n, left);
    StepRuns(ok, quit, turns, n, g.rcode);
    var g1 := Behind(g, 0);
    if thn.Of? {
      StepAt(ok, quit, turns, RThen, ps, pc + 1, g1, n + 1, left);
      StepRuns(ok, quit, turns, n + 1, 0);
      WrongStep(ok, quit, turns, els, ps, pc + 2, Moved(RThen, g1, true, 1), n + 2, left);
    } else {
      VoidFlat(RThen);
      VoidRuns(m, turns, n + 1, 0);
      WrongStep(ok, quit, turns, els, ps, pc + 1, g1, n + 1, left);
    }
    hide ExecSection;
  }

  /** With next_if_code zero, a `then` section that follows directly is run, and so is an
      `elif` condition while if_code is not zero. */
  lemma WrongStep(ok: nat, quit: nat, turns: nat, els: Else, ps: seq<Pipe>, pc: nat, g: Regs, n: nat, left: nat)
    requires Tagged(ps) && pc <= |ps| && ps[pc..] == FlatElse(els) + Closing(RFi) && n >= quit
    requires PlainElse(els) == els && Skip(els).Elif? && !Traceless(Skip(els))
    requires Ready(g) && g.nextIfCode == 0 && (Skip(els).cond.Of? ==> g.ifCode != 0)
    ensures var r := RunFrom(Clock(ok, quit), turns, ps, pc, g, n, left);
            r.Ret? && r.code == -2
  {
    hide RunFrom, Clock, FlatSection, Choose;
    NextLayout(els, ps, pc);
    StepAt(ok, quit, turns, if Skip(els).cond.Of? then RElif else RThen, ps, pc, g, n, left);
  }

  /** Every shape that is not legible goes wrong on some counting machine. */
  lemma {:induction false} GoesWrong(thn: Section, els: Else, mode: Res, ps: seq<Pipe>, pc: nat, g: Regs, n: nat,
                                     left: nat, turns: nat) returns (ok: nat, quit: nat)
    requires Before(thn, els, mode, ps, pc, g) && !Follows(thn, els)
    ensures n <= ok && n < quit && Misread(ok, quit, turns, thn, els, ps, pc, g, n, left)
    decreases ElseSize(els)
  {
    var e := Skip(els);
    SkipSame(Clock(0, 0), turns, thn, els, n, 1);
    if e.cond.Of? && thn.Void? && mode == RIf {
      StopsShort(thn, els, ps, pc, g, n, left, turns);
      ok, quit := n + 1, n + 1;
    } else if e.cond.Void? || thn.Void? {
      RunsOn(thn, els, mode, ps, pc, g, n, left, turns);
      ok, quit := n, if thn.Of? then n + 2 else n + 1;
    } else {
      ok, quit := FurtherOn(thn, els, mode, ps, pc, g, n, left, turns);
    }
  }

  /** The condition failed and the next clause is not the one at fault. */
  lemma {:induction false} FurtherOn(thn: Section, els: Else, mode: Res, ps: seq<Pipe>, pc: nat, g: Regs, n: nat,
                                     left: nat, turns: nat) returns (ok: nat, quit: nat)
    requires Before(thn, els, mode, ps, pc, g) && Skip(els).Elif? && Skip(els).cond.Of? && thn.Of?
    requires !Follows(Skip(els).thn, Skip(els).els) && ElseSize(Skip(els)) <= ElseSize(els)
    ensures n <= ok && n < quit && Misread(ok, quit, turns, thn, els, ps, pc, g, n, left)
    decreases ElseSize(els), 0
  {
    hide RunFrom, Clock, FlatSection, Choose, Follows;
    var e := Skip(els);
    Layout(thn, els, mode, ps, pc, g);
    NextLayout(els, ps, pc + 2);
    var g1 := Behind(g, 1);
    var g2 := Passed(RThen, g1, true);
    ok, quit := GoesWrong(e.thn, e.els, RElif, ps, pc + 2, g2, n + 1, left, turns);
    var m := Clock(ok, quit);
    StepAt(ok, quit, turns, mode, ps, pc, g, n, left);
    SectionModes(thn, RThen);
    assert ps[pc + 1] == ps[pc + 1..pc + 2][0];
    SkipSection(m, turns, RThen, ps, pc + 1, pc + 2, g1, n + 1, left);
    StepRuns(ok, quit, turns, n, g.rcode);
    SkipSame(m, turns, thn, els, n + 1, 1);
    hide ExecSection;
    assert ExecElse(m, turns, e, n + 1, 1) == ExecBranch(m, turns, Of(STEP), e.thn, e.els, n + 1, 1);
  }

  /** Without a condition the `then` section is always run, and so is one that follows. */
  lemma RunsBoth(c: Cmd, turns: nat) returns (quit: nat)
    requires c.If? && PlainIf(c) == c && c.cond.Void? && !FollowsTaken(c.els)
    ensures !Agrees(RunList(Clock(9, quit), turns, FlatCmd(c).list, 0),
                    ExecCmd(Clock(9, quit), turns, c, 0), FlatCmd(c).list)
  {
    hide RunFrom, Clock, FlatSection, Choose;
    var ps := FlatCmd(c).list;
    quit := if c.thn.Of? then 1 else 0;
    var m := Clock(9, quit);
    IfShape(c);
    BranchShape(c.cond, c.thn, c.els, RIf, ps, 0);
    VoidFlat(RIf);
    VoidRuns(m, turns, 0, 0);
    SkipSame(m, turns, Void, c.els, 0, 1);
    if c.thn.Of? {
      StepAt(9, quit, turns, RThen, ps, 0, START, 0, turns);
      StepRuns(9, quit, turns, 0, 0);
      WrongStep(9, quit, turns, c.els, ps, 1, Moved(RThen, START, true, 1), 1, turns);
    } else {
      VoidFlat(RThen);
      WrongStep(9, quit, turns, c.els, ps, 0, START, 0, turns);
    }
    hide ExecSection;
  }

  lemma PlainWrong(c: Cmd)
    requires c.If? && PlainIf(c) == c && !Legible(c.cond, c.thn, c.els)
    ensures !Faithful(c)
  {
    var ps := FlatCmd(c).list;
    if c.cond.Void? {
      var quit := RunsBoth(c, 0);
    } else {
      IfShape(c);
      var ok, quit := GoesWrong(c.thn, c.els, RIf, ps, 0, START, 0, 0, 0);
      hide RunFrom, Clock;
      assert ExecCmd(Clock(ok, quit), 0, c, 0) == ExecBranch(Clock(ok, quit), 0, c.cond, c.thn, c.els, 0, 0);
      assert !Agrees(RunList(Clock(ok, quit), 0, ps, 0), ExecCmd(Clock(ok, quit), 0, c, 0), ps);
    }
  }

  /** The flat list of every command of this shape, with whatever programs in its sections,
      has the meaning of the command if and only if the shape is legible: no `then` section
      without a pipe is followed by an `elif` that has one, and no `elif` has a `then`
      section but no condition. */
  lemma LegibleIff(c: Cmd)
    requires c.If?
    ensures Legible(c.cond, c.thn, c.els) <==> forall d: Cmd | SameShape(c, d) && Inside(d) :: Faithful(d)
  {
    if Legible(c.cond, c.thn, c.els) {
      forall d: Cmd | SameShape(c, d) && Inside(d) ensures Faithful(d) { LegibleRuns(c, d); }
    } else {
      var d := PlainIf(c);
      PlainSame(c.els);
      SameFollows(c.thn, d.thn, c.els, d.els);
      LegibleStep();
      PlainWrong(d);
    }
  }

  lemma LegibleRuns(c: Cmd, d: Cmd)
    requires SameShape(c, d) && Inside(d) && Legible(c.cond, c.thn, c.els)
    ensures Faithful(d)
  {
    SameFollows(c.thn, d.thn, c.els, d.els);
    hide RunList, ExecCmd, FlatCmd, Agrees;
    forall m: Machine<nat>, turns: nat, s: nat
      ensures Agrees(RunList(m, turns, FlatCmd(d).list, s), ExecCmd(m, turns, d, s), FlatCmd(d).list)
    {
      IfSim(m, turns, d, s);
    }
  }

  lemma {:induction false} SameFollows(t: Section, u: Section, e: Else, f: Else)
    requires (t.Of? <==> u.Of?) && SameElse(e, f)
    ensures Follows(t, e) == Follows(u, f) && FollowsTaken(e) == FollowsTaken(f)
    decreases e
  {
    if e.Elif? {
      SameFollows(t, u, e.els, f.els);
      SameFollows(e.thn, f.thn, e.els, f.els);
    }
  }
}
