/**
 Exit: a command that returns a code below -1 ends every list it stands in. The predicates
 below say which commands are run, and in which states, while a program is executed.
 */
module HushExit {
  import opened Wrappers
  import opened HushSyntax
  import opened HushExec
  import opened HushRunProof

  // Which commands are run

  /** While `c` is executed from `s`, the command `argv` is run in state `s0`. */
  ghost predicate CmdRuns<S>(m: Machine<S>, turns: nat, c: Cmd, s: S, argv: seq<string>, s0: S)
    requires !c.Nothing?
    decreases c, turns + 1
  {
    match c
    case Simple(ws) => argv == UnescapeAll(ws) && s0 == s
    case If(cond, thn, els) =>
      || SectionRuns(m, turns, cond, s, 0, argv, s0)
      || (match ExecSection(m, turns, cond, s, 0)
          case OutOfTurns => false
          case Fin(s1, c1) =>
            && !Exiting(c1)
            && if c1 == 0 then SectionRuns(m, turns, thn, s1, c1, argv, s0)
               else ElseRuns(m, turns, els, s1, c1, argv, s0))
    case Loop(_, _, _) => LoopRuns(m, turns, c, s, 0, turns, argv, s0)
    case For(_, _, _) => ForRuns(m, turns, c, ForValues(m, c, s), s, 0, turns, argv, s0)
  }

  ghost predicate ElseRuns<S>(m: Machine<S>, turns: nat, e: Else, s: S, code: int, argv: seq<string>, s0: S)
    decreases e, 0
  {
    match e
    case NoElse => false
    case Else(body) => SectionRuns(m, turns, body, s, code, argv, s0)
    case Elif(cond, thn, els) =>
      || SectionRuns(m, turns, cond, s, code, argv, s0)
      || (match ExecSection(m, turns, cond, s, code)
          case OutOfTurns => false
          case Fin(s1, c1) =>
            && !Exiting(c1)
            && if c1 == 0 then SectionRuns(m, turns, thn, s1, c1, argv, s0)
               else ElseRuns(m, turns, els, s1, c1, argv, s0))
  }

  ghost predicate SectionRuns<S>(m: Machine<S>, turns: nat, x: Section, s: S, code: int, argv: seq<string>, s0: S)
    decreases x, 0
  {
    x.Of? && ListRuns(m, turns, x.list, s, code, argv, s0)
  }

  ghost predicate LoopRuns<S>(m: Machine<S>, turns: nat, c: Cmd, s: S, code: int, left: nat, argv: seq<string>, s0: S)
    requires c.Loop?
    decreases c, left
  {
    || SectionRuns(m, turns, c.cond, s, code, argv, s0)
    || (match ExecSection(m, turns, c.cond, s, code)
        case OutOfTurns => false
        case Fin(s1, c1) =>
          && !Exiting(c1) && GoesOn(c.kind, c.cond, c1)
          && (|| SectionRuns(m, turns, c.body, s1, c1, argv, s0)
              || (match ExecSection(m, turns, c.body, s1, c1)
                  case OutOfTurns => false
                  case Fin(s2, c2) =>
                    !Exiting(c2) && left > 0 && LoopRuns(m, turns, c, s2, c2, left - 1, argv, s0))))
  }

  /** The assignments of a `for` are commands too. */
  ghost predicate ForRuns<S>(m: Machine<S>, turns: nat, c: Cmd, vals: seq<string>, s: S, code: int, left: nat,
                             argv: seq<string>, s0: S)
    requires c.For?
    decreases c, left
  {
    && vals != []
    && var a := m.cmd([vals[0]], s);
       var n := Noted(m, a.0, a.1);
       || (argv == [vals[0]] && s0 == s)
       || (&& !Exiting(n.code)
           && (|| SectionRuns(m, turns, c.body, n.s, n.code, argv, s0)
               || (match ExecSection(m, turns, c.body, n.s, n.code)
                   case OutOfTurns => false
                   case Fin(s2, c2) =>
                     !Exiting(c2) && left > 0 && ForRuns(m, turns, c, vals[1..], s2, c2, left - 1, argv, s0))))
  }

  ghost predicate ChainRuns<S>(m: Machine<S>, turns: nat, ch: Chain, s: S, code: int, argv: seq<string>, s0: S)
    decreases ch, 0
  {
    || (!ch.cmd.Nothing? && CmdRuns(m, turns, ch.cmd, s, argv, s0))
    || (ch.Link? && (match ExecStep(m, turns, ch.cmd, s, code)
                     case OutOfTurns => false
                     case Fin(s1, c1) =>
                       Continues(ch, c1) && ChainRuns(m, turns, ch.rest, s1, c1, argv, s0)))
  }

  ghost predicate ListRuns<S>(m: Machine<S>, turns: nat, l: List, s: S, code: int, argv: seq<string>, s0: S)
    decreases l, 0
  {
    || ChainRuns(m, turns, l.chain, s, code, argv, s0)
    || (l.More? && (match ExecChain(m, turns, l.chain, s, code)
                    case OutOfTurns => false
                    case Fin(s1, c1) => !Exiting(c1) && ListRuns(m, turns, l.rest, s1, c1, argv, s0)))
  }

  /** The chain goes on behind its first command. */
  predicate Continues(ch: Chain, code: int)
    requires ch.Link?
  {
    ch.cmd.Nothing? || (!Exiting(code) && !LinkFails(ch.op, code))
  }

  /** The chain executes its own command `c`, not one inside it, in state `s1`. */
  ghost predicate TakesInChain<S>(m: Machine<S>, turns: nat, ch: Chain, s: S, code: int, c: Cmd, s1: S)
    decreases ch
  {
    || (c == ch.cmd && s1 == s)
    || (ch.Link? && (match ExecStep(m, turns, ch.cmd, s, code)
                     case OutOfTurns => false
                     case Fin(s2, c2) => Continues(ch, c2) && TakesInChain(m, turns, ch.rest, s2, c2, c, s1)))
  }

  /** The list executes its own command `c`, not one of a section inside it, in state `s1`. */
  ghost predicate Takes<S>(m: Machine<S>, turns: nat, l: List, s: S, code: int, c: Cmd, s1: S)
    decreases l
  {
    || TakesInChain(m, turns, l.chain, s, code, c, s1)
    || (l.More? && (match ExecChain(m, turns, l.chain, s, code)
                    case OutOfTurns => false
                    case Fin(s2, c2) => !Exiting(c2) && Takes(m, turns, l.rest, s2, c2, c, s1)))
  }

  /** What a list runs, one of its own commands does. */
  lemma {:induction false} TakesRuns<S>(m: Machine<S>, turns: nat, l: List, s: S, code: int, c: Cmd, s1: S,
                                        argv: seq<string>, s0: S)
    requires Takes(m, turns, l, s, code, c, s1) && !c.Nothing? && CmdRuns(m, turns, c, s1, argv, s0)
    ensures ListRuns(m, turns, l, s, code, argv, s0)
    decreases l
  {
    hide ExecChain, ChainRuns, TakesInChain;
    if TakesInChain(m, turns, l.chain, s, code, c, s1) {
      TakesRunsInChain(m, turns, l.chain, s, code, c, s1, argv, s0);
    } else {
      var out := ExecChain(m, turns, l.chain, s, code);
      TakesRuns(m, turns, l.rest, out.s, out.code, c, s1, argv, s0);
    }
  }

  lemma {:induction false} TakesRunsInChain<S>(m: Machine<S>, turns: nat, ch: Chain, s: S, code: int, c: Cmd, s1: S,
                                               argv: seq<string>, s0: S)
    requires TakesInChain(m, turns, ch, s, code, c, s1) && !c.Nothing? && CmdRuns(m, turns, c, s1, argv, s0)
    ensures ChainRuns(m, turns, ch, s, code, argv, s0)
    decreases ch
  {
    hide ExecStep, CmdRuns;
    if !(c == ch.cmd && s1 == s) {
      var out := ExecStep(m, turns, ch.cmd, s, code);
      TakesRunsInChain(m, turns, ch.rest, out.s, out.code, c, s1, argv, s0);
    }
  }

  // A command that exits ends all there is around it

  /** What is left when the command `argv`, run in `s0`, exits at nesting depth `d`: its own
      list records the code it gave, and every list around it then records 0. */
  function Recorded<S>(m: Machine<S>, argv: seq<string>, s0: S, d: nat): (s: S) {
    if d == 0 then
      var r := m.cmd(argv, s0);
      m.setLast(r.0, -r.1 - 2)
    else
      m.setLast(Recorded(m, argv, s0, d - 1), 0)
  }

  predicate Exits<S>(out: Outcome<S>) { out.Fin? && Exiting(out.code) }

  /** The command asks to exit. */
  predicate Quits<S>(m: Machine<S>, argv: seq<string>, s0: S) { Exiting(m.cmd(argv, s0).1) }

  lemma {:induction false} StepEnds<S>(m: Machine<S>, turns: nat, c: Cmd, s: S, code: int, argv: seq<string>, s0: S)
    returns (d: nat)
    requires !c.Nothing? && CmdRuns(m, turns, c, s, argv, s0) && Quits(m, argv, s0)
    ensures ExecStep(m, turns, c, s, code) == Fin(Recorded(m, argv, s0, d), -2) && (d == 0 <==> c.Simple?)
    decreases CmdSize(c), turns + 2
  {
    if c.Simple? {
      d := 0;
    } else {
      hide ExecCmd, CmdRuns;
      d := CmdEnds(m, turns, c, s, argv, s0);
      d := d + 1;
    }
  }

  lemma {:induction false} CmdEnds<S>(m: Machine<S>, turns: nat, c: Cmd, s: S, argv: seq<string>, s0: S)
    returns (d: nat)
    requires (c.If? || c.Loop? || c.For?) && CmdRuns(m, turns, c, s, argv, s0) && Quits(m, argv, s0)
    ensures ExecCmd(m, turns, c, s) == Fin(Recorded(m, argv, s0, d), -2)
    decreases CmdSize(c), turns + 1
  {
    hide ExecSection, ExecElse, SectionRuns, ElseRuns, Recorded, Quits;
    match c
    case If(cond, thn, els) =>
      if SectionRuns(m, turns, cond, s, 0, argv, s0) {
        d := SectionEnds(m, turns, cond, s, 0, argv, s0);
      } else {
        var out := ExecSection(m, turns, cond, s, 0);
        if out.code == 0 {
          d := SectionEnds(m, turns, thn, out.s, out.code, argv, s0);
        } else {
          d := ElseEnds(m, turns, els, out.s, out.code, argv, s0);
        }
      }
    case Loop(_, _, _) => d := LoopEnds(m, turns, c, s, 0, turns, argv, s0);
    case For(_, _, _) => d := ForEnds(m, turns, c, ForValues(m, c, s), s, 0, turns, argv, s0);
  }

  lemma {:induction false} ElseEnds<S>(m: Machine<S>, turns: nat, e: Else, s: S, code: int, argv: seq<string>, s0: S)
    returns (d: nat)
    requires ElseRuns(m, turns, e, s, code, argv, s0) && Quits(m, argv, s0)
    ensures ExecElse(m, turns, e, s, code) == Fin(Recorded(m, argv, s0, d), -2)
    decreases ElseSize(e), 0
  {
    hide ExecSection, SectionRuns, Recorded, Quits;
    match e
    case Else(body) => d := SectionEnds(m, turns, body, s, code, argv, s0);
    case Elif(cond, thn, els) =>
      if SectionRuns(m, turns, cond, s, code, argv, s0) {
        d := SectionEnds(m, turns, cond, s, code, argv, s0);
      } else {
        var out := ExecSection(m, turns, cond, s, code);
        if out.code == 0 {
          d := SectionEnds(m, turns, thn, out.s, out.code, argv, s0);
        } else {
          d := ElseEnds(m, turns, els, out.s, out.code, argv, s0);
        }
      }
  }

  lemma {:induction false} SectionEnds<S>(m: Machine<S>, turns: nat, x: Section, s: S, code: int,
                                          argv: seq<string>, s0: S)
    returns (d: nat)
    requires SectionRuns(m, turns, x, s, code, argv, s0) && Quits(m, argv, s0)
    ensures ExecSection(m, turns, x, s, code) == Fin(Recorded(m, argv, s0, d), -2)
    decreases SectionSize(x), 0
  {
    hide ExecList, ListRuns, Recorded, Quits;
    d := ListEnds(m, turns, x.list, s, code, argv, s0);
  }

  lemma {:induction false} LoopEnds<S>(m: Machine<S>, turns: nat, c: Cmd, s: S, code: int, left: nat,
                                       argv: seq<string>, s0: S)
    returns (d: nat)
    requires c.Loop? && LoopRuns(m, turns, c, s, code, left, argv, s0) && Quits(m, argv, s0)
    ensures ExecLoop(m, turns, c, s, code, left) == Fin(Recorded(m, argv, s0, d), -2)
    decreases CmdSize(c), 0, left
  {
    hide ExecSection, SectionRuns, Recorded, Quits;
    if SectionRuns(m, turns, c.cond, s, code, argv, s0) {
      d := SectionEnds(m, turns, c.cond, s, code, argv, s0);
    } else {
      var a := ExecSection(m, turns, c.cond, s, code);
      if SectionRuns(m, turns, c.body, a.s, a.code, argv, s0) {
        d := SectionEnds(m, turns, c.body, a.s, a.code, argv, s0);
      } else {
        var b := ExecSection(m, turns, c.body, a.s, a.code);
        d := LoopEnds(m, turns, c, b.s, b.code, left - 1, argv, s0);
      }
    }
  }

  lemma {:induction false} ForEnds<S>(m: Machine<S>, turns: nat, c: Cmd, vals: seq<string>, s: S, code: int, left: nat,
                                      argv: seq<string>, s0: S)
    returns (d: nat)
    requires c.For? && ForRuns(m, turns, c, vals, s, code, left, argv, s0) && Quits(m, argv, s0)
    ensures ExecFor(m, turns, c, vals, s, code, left) == Fin(Recorded(m, argv, s0, d), -2)
    decreases CmdSize(c), 0, left
  {
    hide ExecSection, SectionRuns;
    var a := m.cmd([vals[0]], s);
    var n := Noted(m, a.0, a.1);
    if argv == [vals[0]] && s0 == s {
      d := 0;
    } else if SectionRuns(m, turns, c.body, n.s, n.code, argv, s0) {
      d := SectionEnds(m, turns, c.body, n.s, n.code, argv, s0);
    } else {
      var b := ExecSection(m, turns, c.body, n.s, n.code);
      d := ForEnds(m, turns, c, vals[1..], b.s, b.code, left - 1, argv, s0);
    }
  }

  lemma {:induction false} ChainEnds<S>(m: Machine<S>, turns: nat, ch: Chain, s: S, code: int, argv: seq<string>, s0: S)
    returns (d: nat)
    requires ChainRuns(m, turns, ch, s, code, argv, s0) && Quits(m, argv, s0)
    ensures ExecChain(m, turns, ch, s, code) == Fin(Recorded(m, argv, s0, d), -2)
    decreases ChainSize(ch), 0
  {
    hide ExecStep, CmdRuns, Recorded, Quits;
    if !ch.cmd.Nothing? && CmdRuns(m, turns, ch.cmd, s, argv, s0) {
      d := StepEnds(m, turns, ch.cmd, s, code, argv, s0);
    } else {
      var out := ExecStep(m, turns, ch.cmd, s, code);
      d := ChainEnds(m, turns, ch.rest, out.s, out.code, argv, s0);
    }
  }

  /** A command that exits, wherever in a list and however deep, ends the list with code -2. */
  lemma {:induction false} ListEnds<S>(m: Machine<S>, turns: nat, l: List, s: S, code: int, argv: seq<string>, s0: S)
    returns (d: nat)
    requires ListRuns(m, turns, l, s, code, argv, s0) && Quits(m, argv, s0)
    ensures ExecList(m, turns, l, s, code) == Fin(Recorded(m, argv, s0, d), -2)
    decreases ListSize(l), 0
  {
    hide ExecChain, ChainRuns, Recorded, Quits;
    if ChainRuns(m, turns, l.chain, s, code, argv, s0) {
      d := ChainEnds(m, turns, l.chain, s, code, argv, s0);
    } else {
      var out := ExecChain(m, turns, l.chain, s, code);
      d := ListEnds(m, turns, l.rest, out.s, out.code, argv, s0);
    }
  }

  // What exits was ended by a command

  lemma {:induction false} CmdExit<S>(m: Machine<S>, turns: nat, c: Cmd, s: S) returns (argv: seq<string>, s0: S)
    requires !c.Nothing? && Exits(ExecCmd(m, turns, c, s))
    ensures CmdRuns(m, turns, c, s, argv, s0) && Quits(m, argv, s0)
    decreases CmdSize(c), turns + 1
  {
    hide ExecSection, ExecElse, SectionRuns, ElseRuns;
    match c
    case Simple(ws) => argv, s0 := UnescapeAll(ws), s;
    case If(cond, thn, els) =>
      var out := ExecSection(m, turns, cond, s, 0);
      if Exiting(out.code) { argv, s0 := SectionExit(m, turns, cond, s, 0); }
      else if out.code == 0 { argv, s0 := SectionExit(m, turns, thn, out.s, out.code); }
      else { argv, s0 := ElseExit(m, turns, els, out.s, out.code); }
    case Loop(_, _, _) => argv, s0 := LoopExit(m, turns, c, s, 0, turns);
    case For(_, _, _) => argv, s0 := ForExit(m, turns, c, ForValues(m, c, s), s, 0, turns);
  }

  lemma {:induction false} ElseExit<S>(m: Machine<S>, turns: nat, e: Else, s: S, code: int)
    returns (argv: seq<string>, s0: S)
    requires !Exiting(code) && Exits(ExecElse(m, turns, e, s, code))
    ensures ElseRuns(m, turns, e, s, code, argv, s0) && Quits(m, argv, s0)
    decreases ElseSize(e), 0
  {
    hide ExecSection, SectionRuns, Quits;
    match e
    case Else(body) => argv, s0 := SectionExit(m, turns, body, s, code);
    case Elif(cond, thn, els) =>
      var out := ExecSection(m, turns, cond, s, code);
      if Exiting(out.code) { argv, s0 := SectionExit(m, turns, cond, s, code); }
      else if out.code == 0 { argv, s0 := SectionExit(m, turns, thn, out.s, out.code); }
      else { argv, s0 := ElseExit(m, turns, els, out.s, out.code); }
  }

  lemma {:induction false} SectionExit<S>(m: Machine<S>, turns: nat, x: Section, s: S, code: int)
    returns (argv: seq<string>, s0: S)
    requires !Exiting(code) && Exits(ExecSection(m, turns, x, s, code))
    ensures SectionRuns(m, turns, x, s, code, argv, s0) && Quits(m, argv, s0)
    decreases SectionSize(x), 0
  {
    hide ExecList, ListRuns, Quits, Takes, CmdRuns;
    var c, s1;
    c, s1, argv, s0 := ListExit(m, turns, x.list, s, code);
    TakesRuns(m, turns, x.list, s, code, c, s1, argv, s0);
  }

  lemma {:induction false} LoopExit<S>(m: Machine<S>, turns: nat, c: Cmd, s: S, code: int, left: nat)
    returns (argv: seq<string>, s0: S)
    requires c.Loop? && !Exiting(code) && Exits(ExecLoop(m, turns, c, s, code, left))
    ensures LoopRuns(m, turns, c, s, code, left, argv, s0) && Quits(m, argv, s0)
    decreases CmdSize(c), 0, left
  {
    hide ExecSection, SectionRuns, Quits;
    var a := ExecSection(m, turns, c.cond, s, code);
    if Exiting(a.code) {
      argv, s0 := SectionExit(m, turns, c.cond, s, code);
    } else {
      var b := ExecSection(m, turns, c.body, a.s, a.code);
      if Exiting(b.code) {
        argv, s0 := SectionExit(m, turns, c.body, a.s, a.code);
      } else {
        argv, s0 := LoopExit(m, turns, c, b.s, b.code, left - 1);
      }
    }
  }

  lemma {:induction false} ForExit<S>(m: Machine<S>, turns: nat, c: Cmd, vals: seq<string>, s: S, code: int, left: nat)
    returns (argv: seq<string>, s0: S)
    requires c.For? && !Exiting(code) && Exits(ExecFor(m, turns, c, vals, s, code, left))
    ensures ForRuns(m, turns, c, vals, s, code, left, argv, s0) && Quits(m, argv, s0)
    decreases CmdSize(c), 0, left
  {
    hide ExecSection, SectionRuns;
    var a := m.cmd([vals[0]], s);
    var n := Noted(m, a.0, a.1);
    if Exiting(n.code) {
      argv, s0 := [vals[0]], s;
    } else {
      var b := ExecSection(m, turns, c.body, n.s, n.code);
      if Exiting(b.code) {
        argv, s0 := SectionExit(m, turns, c.body, n.s, n.code);
      } else {
        argv, s0 := ForExit(m, turns, c, vals[1..], b.s, b.code, left - 1);
      }
    }
  }

  lemma {:induction false} ChainExit<S>(m: Machine<S>, turns: nat, ch: Chain, s: S, code: int)
    returns (c: Cmd, s1: S, argv: seq<string>, s0: S)
    requires !Exiting(code) && Exits(ExecChain(m, turns, ch, s, code))
    ensures TakesInChain(m, turns, ch, s, code, c, s1) && !c.Nothing?
    ensures CmdRuns(m, turns, c, s1, argv, s0) && Quits(m, argv, s0)
    decreases ChainSize(ch), 0
  {
    hide ExecStep, CmdRuns, Quits;
    var out := ExecStep(m, turns, ch.cmd, s, code);
    if Exiting(out.code) {
      c, s1 := ch.cmd, s;
      StepExits(m, turns, c, s, code);
      argv, s0 := CmdExit(m, turns, c, s);
    } else {
      c, s1, argv, s0 := ChainExit(m, turns, ch.rest, out.s, out.code);
    }
  }

  lemma StepExits<S>(m: Machine<S>, turns: nat, c: Cmd, s: S, code: int)
    requires !Exiting(code) && Exits(ExecStep(m, turns, c, s, code))
    ensures !c.Nothing? && Exits(ExecCmd(m, turns, c, s))
  {
    hide ExecCmd;
  }

  /** If a list exits, it has executed one of its own commands, and while that was executed a
      command was run that exited; the outcome of the list is that of its command. */
  lemma {:induction false} ListExit<S>(m: Machine<S>, turns: nat, l: List, s: S, code: int)
    returns (c: Cmd, s1: S, argv: seq<string>, s0: S)
    requires !Exiting(code) && Exits(ExecList(m, turns, l, s, code))
    ensures Takes(m, turns, l, s, code, c, s1) && !c.Nothing?
    ensures CmdRuns(m, turns, c, s1, argv, s0) && Quits(m, argv, s0)
    ensures ExecList(m, turns, l, s, code) == ExecStep(m, turns, c, s1, 0)
    decreases ListSize(l), 0
  {
    hide ExecChain, TakesInChain, CmdRuns, Quits;
    var out := ExecChain(m, turns, l.chain, s, code);
    if Exiting(out.code) {
      c, s1, argv, s0 := ChainExit(m, turns, l.chain, s, code);
    } else {
      c, s1, argv, s0 := ListExit(m, turns, l.rest, out.s, out.code);
    }
    hide ExecList, ExecStep, Takes;
    var d := StepEnds(m, turns, c, s1, 0, argv, s0);
    TakenEnds(m, turns, l, s, code, c, s1);
  }

  // Whole lists

  lemma ExitCode<S>(m: Machine<S>, turns: nat, l: List, s: S)
    requires Exits(ExecList(m, turns, l, s, 0))
    ensures ExecList(m, turns, l, s, 0).code == -2
  {
    hide ExecList, ListRuns, Quits, Takes, CmdRuns;
    var c, s1, argv, s0 := ListExit(m, turns, l, s, 0);
    TakesRuns(m, turns, l, s, 0, c, s1, argv, s0);
    var d := ListEnds(m, turns, l, s, 0, argv, s0);
  }

  /** A list exits exactly if some command run while it is executed does, and then with -2. */
  lemma ExitsIff<S(!new)>(m: Machine<S>, turns: nat, l: List, s: S, code: int)
    requires !Exiting(code)
    ensures Exits(ExecList(m, turns, l, s, code))
       <==> exists argv, s0 :: ListRuns(m, turns, l, s, code, argv, s0) && Quits(m, argv, s0)
    ensures Exits(ExecList(m, turns, l, s, code)) ==> ExecList(m, turns, l, s, code).code == -2
  {
    hide ExecList, ListRuns, Quits, Takes, CmdRuns;
    if Exits(ExecList(m, turns, l, s, code)) {
      var c, s1, argv, s0 := ListExit(m, turns, l, s, code);
      TakesRuns(m, turns, l, s, code, c, s1, argv, s0);
      var d := ListEnds(m, turns, l, s, code, argv, s0);
    }
    if argv, s0 :| ListRuns(m, turns, l, s, code, argv, s0) && Quits(m, argv, s0) {
      var d := ListEnds(m, turns, l, s, code, argv, s0);
    }
  }

  /** The list ends with the command of its own that exits. */
  lemma {:induction false} TakenEnds<S>(m: Machine<S>, turns: nat, l: List, s: S, code: int, c: Cmd, s1: S)
    requires Takes(m, turns, l, s, code, c, s1) && !c.Nothing? && Exits(ExecStep(m, turns, c, s1, 0))
    ensures ExecList(m, turns, l, s, code) == ExecStep(m, turns, c, s1, 0)
    decreases l
  {
    hide ExecChain, TakesInChain, ExecStep;
    if TakesInChain(m, turns, l.chain, s, code, c, s1) {
      TakenEndsChain(m, turns, l.chain, s, code, c, s1);
    } else {
      var out := ExecChain(m, turns, l.chain, s, code);
      TakenEnds(m, turns, l.rest, out.s, out.code, c, s1);
    }
  }

  lemma {:induction false} TakenEndsChain<S>(m: Machine<S>, turns: nat, ch: Chain, s: S, code: int, c: Cmd, s1: S)
    requires TakesInChain(m, turns, ch, s, code, c, s1) && !c.Nothing? && Exits(ExecStep(m, turns, c, s1, 0))
    ensures ExecChain(m, turns, ch, s, code) == ExecStep(m, turns, c, s1, 0)
    decreases ch
  {
    hide ExecCmd;
    assert !ch.cmd.Nothing? ==> ExecStep(m, turns, ch.cmd, s, code) == ExecStep(m, turns, ch.cmd, s, 0);
    hide ExecStep;
    if !(c == ch.cmd && s1 == s) {
      var out := ExecStep(m, turns, ch.cmd, s, code);
      TakenEndsChain(m, turns, ch.rest, out.s, out.code, c, s1);
    }
  }

  /** Whenever a list executes its own command `c` in `s1`, and while that is executed `argv`
      is run in `s0` and exits: the list ends with `c`, and what it leaves as last_return_code
      is the code given to the exit exactly if `c` is a simple command or that code is 0.
      `last` reads what is recorded. */
  lemma ExitCodeKeptIff<S(!new)>(m: Machine<S>, turns: nat, l: List, s: S, code: int, last: S -> int,
                                 c: Cmd, s1: S, argv: seq<string>, s0: S)
    requires forall s: S, code :: last(m.setLast(s, code)) == code
    requires Takes(m, turns, l, s, code, c, s1) && !c.Nothing?
    requires CmdRuns(m, turns, c, s1, argv, s0) && Quits(m, argv, s0)
    ensures ExecList(m, turns, l, s, code) == ExecStep(m, turns, c, s1, 0) && Exits(ExecStep(m, turns, c, s1, 0))
    ensures var given := -m.cmd(argv, s0).1 - 2;
            last(ExecList(m, turns, l, s, code).s) == given <==> c.Simple? || given == 0
  {
    hide ExecList, ExecStep, Takes, CmdRuns;
    var d := StepEnds(m, turns, c, s1, 0, argv, s0);
    TakenEnds(m, turns, l, s, code, c, s1);
    if d > 0 { assert last(Recorded(m, argv, s0, d)) == 0; }
  }

  /** An exit anywhere inside a compound leaves it with code -2, and the enclosing list
      then records 0 as last_return_code. */
  lemma NestedExitCodeLost<S>(m: Machine<S>, turns: nat, c: Cmd, s: S, code: int)
    requires c.If? || c.Loop? || c.For?
    requires ExecCmd(m, turns, c, s).Fin? && Exiting(ExecCmd(m, turns, c, s).code)
    ensures ExecStep(m, turns, c, s, code) == Fin(m.setLast(ExecCmd(m, turns, c, s).s, 0), -2)
  {
    hide ExecCmd, CmdRuns;
    var argv, s0 := CmdExit(m, turns, c, s);
    var d := CmdEnds(m, turns, c, s, argv, s0);
  }

  /** `exit 3` leaves 3 as last_return_code; `if exit 3; then fi` leaves 0. The state is just
      the last code. */
  lemma ExitCodes(turns: nat)
    ensures var m: Machine<int> := Machine((argv, s) => (s, -5), (w, s) => None, (s, code) => code);
            var exit := One(Last(Simple(["exit", "3"])), Semi);
            && ExecList(m, turns, exit, 7, 0) == Fin(3, -2)
            && ExecList(m, turns, One(Last(If(Of(exit), Void, NoElse)), Semi), 7, 0) == Fin(0, -2)
  {
    var m: Machine<int> := Machine((argv, s) => (s, -5), (w, s) => None, (s, code) => code);
    var exit := One(Last(Simple(["exit", "3"])), Semi);
    var c := If(Of(exit), Void, NoElse);
    assert ExecChain(m, turns, exit.chain, 7, 0) == Fin(3, -2);
    OneChain(m, turns, exit.chain, 7);
    hide ExecList;
    assert ExecSection(m, turns, Of(exit), 7, 0) == Fin(3, -2);
    assert ExecCmd(m, turns, c, 7) == Fin(3, -2);
    assert ExecChain(m, turns, Last(c), 7, 0) == Fin(0, -2);
    OneChain(m, turns, Last(c), 7);
  }

  lemma OneChain<S>(m: Machine<S>, turns: nat, c: Chain, s: S)
    ensures ExecList(m, turns, One(c, Semi), s, 0) == ExecChain(m, turns, c, s, 0)
  {
  }
}
