/** Consequences for whole runs, on top of the equivalence of the two semantics. */
module HushTheorems {
  import opened HushSyntax
  import opened HushExec
  import opened HushRun
  import opened HushRunProof

  // A larger bound on loop iterations never changes a finished outcome

  lemma {:induction false} StepMore<S>(m: Machine<S>, t: nat, t': nat, c: Cmd, s: S, code: int)
    requires t <= t' && ExecStep(m, t, c, s, code).Fin?
    ensures ExecStep(m, t', c, s, code) == ExecStep(m, t, c, s, code)
    decreases CmdSize(c), t + 2
  {
    match c
    case Nothing =>
    case Simple(_) =>
    case If(cond, thn, els) =>
      SectionMore(m, t, t', cond, s, 0);
      var out := ExecSection(m, t, cond, s, 0);
      if !Exiting(out.code) {
        if out.code == 0 {
          SectionMore(m, t, t', thn, out.s, out.code);
        } else {
          ElseMore(m, t, t', els, out.s, out.code);
        }
      }
    case Loop(_, _, _) => LoopMore(m, t, t', c, s, 0, t, t');
    case For(_, _, _) => ForMore(m, t, t', c, ForValues(m, c, s), s, 0, t, t');
  }

  lemma {:induction false} ElseMore<S>(m: Machine<S>, t: nat, t': nat, e: Else, s: S, code: int)
    requires t <= t' && ExecElse(m, t, e, s, code).Fin?
    ensures ExecElse(m, t', e, s, code) == ExecElse(m, t, e, s, code)
    decreases ElseSize(e), 0
  {
    match e
    case NoElse =>
    case Else(body) => SectionMore(m, t, t', body, s, code);
    case Elif(cond, thn, els) =>
      SectionMore(m, t, t', cond, s, code);
      var out := ExecSection(m, t, cond, s, code);
      if !Exiting(out.code) {
        if out.code == 0 {
          SectionMore(m, t, t', thn, out.s, out.code);
        } else {
          ElseMore(m, t, t', els, out.s, out.code);
        }
      }
  }

  lemma {:induction false} LoopMore<S>(m: Machine<S>, t: nat, t': nat, c: Cmd, s: S, code: int, left: nat, left': nat)
    requires c.Loop? && t <= t' && left <= t && left <= left' && ExecLoop(m, t, c, s, code, left).Fin?
    ensures ExecLoop(m, t', c, s, code, left') == ExecLoop(m, t, c, s, code, left)
    decreases CmdSize(c), left
  {
    SectionMore(m, t, t', c.cond, s, code);
    var a := ExecSection(m, t, c.cond, s, code);
    if !Exiting(a.code) && GoesOn(c.kind, c.cond, a.code) {
      SectionMore(m, t, t', c.body, a.s, a.code);
      var b := ExecSection(m, t, c.body, a.s, a.code);
      if !Exiting(b.code) { LoopMore(m, t, t', c, b.s, b.code, left - 1, left' - 1); }
    }
  }

  lemma {:induction false} ForMore<S>(m: Machine<S>, t: nat, t': nat, c: Cmd, vals: seq<string>, s: S, code: int,
                                      left: nat, left': nat)
    requires c.For? && t <= t' && left <= t && left <= left' && ExecFor(m, t, c, vals, s, code, left).Fin?
    ensures ExecFor(m, t', c, vals, s, code, left') == ExecFor(m, t, c, vals, s, code, left)
    decreases CmdSize(c), left
  {
    if vals != [] {
      var a := m.cmd([vals[0]], s);
      var n := Noted(m, a.0, a.1);
      if !Exiting(n.code) {
        SectionMore(m, t, t', c.body, n.s, n.code);
        var b := ExecSection(m, t, c.body, n.s, n.code);
        if !Exiting(b.code) { ForMore(m, t, t', c, vals[1..], b.s, b.code, left - 1, left' - 1); }
      }
    }
  }

  lemma {:induction false} ChainMore<S>(m: Machine<S>, t: nat, t': nat, c: Chain, s: S, code: int)
    requires t <= t' && ExecChain(m, t, c, s, code).Fin?
    ensures ExecChain(m, t', c, s, code) == ExecChain(m, t, c, s, code)
    decreases ChainSize(c), 0
  {
    StepMore(m, t, t', c.cmd, s, code);
    var out := ExecStep(m, t, c.cmd, s, code);
    if c.Link? && !(!c.cmd.Nothing? && (Exiting(out.code) || LinkFails(c.op, out.code))) {
      ChainMore(m, t, t', c.rest, out.s, out.code);
    }
  }

  lemma {:induction false} ListMore<S>(m: Machine<S>, t: nat, t': nat, l: List, s: S, code: int)
    requires t <= t' && ExecList(m, t, l, s, code).Fin?
    ensures ExecList(m, t', l, s, code) == ExecList(m, t, l, s, code)
    decreases ListSize(l), 0
  {
    ChainMore(m, t, t', l.chain, s, code);
    var out := ExecChain(m, t, l.chain, s, code);
    if !Exiting(out.code) && l.More? { ListMore(m, t, t', l.rest, out.s, out.code); }
  }

  lemma {:induction false} SectionMore<S>(m: Machine<S>, t: nat, t': nat, x: Section, s: S, code: int)
    requires t <= t' && ExecSection(m, t, x, s, code).Fin?
    ensures ExecSection(m, t', x, s, code) == ExecSection(m, t, x, s, code)
    decreases SectionSize(x), 0
  {
    if x.Of? { ListMore(m, t, t', x.list, s, code); }
  }

  /** The interpreter inherits this: what it returned within `t` iterations per loop it
      returns within any larger bound, so its result is that of the unbounded run. */
  lemma RunMore<S>(m: Machine<S>, t: nat, t': nat, l: List, s: S)
    requires LegibleList(l) && t <= t' && RunList(m, t, FlatProgram(l), s).Ret?
    ensures var r, r' := RunList(m, t, FlatProgram(l), s), RunList(m, t', FlatProgram(l), s);
            r'.Ret? && r'.s == r.s && r'.code == r.code
  {
    RunIsExec(m, t, l, s);
    RunIsExec(m, t', l, s);
    ListMore(m, t, t', l, s, 0);
  }
}
