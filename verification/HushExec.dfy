/**
 Meaning of structured programs. Commands, variable lookup and the shell's
 last_return_code are an abstract machine over an arbitrary state type S, so a statement
 about all machines is a statement about the whole trace of commands run.
 */
module HushExec {
  import opened Wrappers
  import opened HushSyntax
  import opened HushExpand

  datatype Machine<!S> = Machine(
    cmd: (seq<string>, S) -> (S, int),         // run one command; a code below -1 asks to exit
    look: (string, S) -> Option<string>,       // value of a variable
    setLast: (S, int) -> S)                    // record last_return_code
  {
    function LookIn(s: S): Lookup { n => look(n, s) }
  }

  /** `Fin(s, -2)` is an exit in progress; `OutOfTurns` means some loop wanted more
      iterations than allowed. */
  datatype Outcome<S> = Fin(s: S, code: int) | OutOfTurns

  predicate Exiting(code: int) { code < -1 }

  predicate LinkFails(op: Op, code: int) {
    (op == And && code != 0) || (op == Or && code == 0)
  }

  /** What a list does with the code of a command it ran. */
  function Noted<S>(m: Machine<S>, s: S, code: int): (r: Outcome<S>) {
    if Exiting(code) then Fin(m.setLast(s, -code - 2), -2)
    else Fin(m.setLast(s, if code == 0 then 0 else 1), code)
  }

  /** Does the loop go round again, given the latest code of its condition? A condition
      that ran no command ends the loop. */
  predicate GoesOn(kind: LoopKind, cond: Section, code: int) {
    Runs(cond) && (kind == While <==> code == 0)
  }

  /** Runs one command of a list whose latest code is `code`. Every run of a loop may take
      at most `turns` iterations. */
  function ExecStep<S>(m: Machine<S>, turns: nat, c: Cmd, s: S, code: int): (r: Outcome<S>)
    decreases c, turns + 2
  {
    if c.Nothing? then Fin(s, code)
    else
      match ExecCmd(m, turns, c, s)
      case OutOfTurns => OutOfTurns
      case Fin(s1, c1) => Noted(m, s1, c1)
  }

  function ExecCmd<S>(m: Machine<S>, turns: nat, c: Cmd, s: S): (r: Outcome<S>)
    requires !c.Nothing?
    decreases c, turns + 1
  {
    match c
    case Simple(ws) => var r := m.cmd(UnescapeAll(ws), s); Fin(r.0, r.1)
    case If(cond, thn, els) =>
      (match ExecSection(m, turns, cond, s, 0)
       case OutOfTurns => OutOfTurns
       case Fin(s1, c1) =>
         if Exiting(c1) then Fin(s1, c1)
         else if c1 == 0 then ExecSection(m, turns, thn, s1, c1)
         else ExecElse(m, turns, els, s1, c1))
    case Loop(_, _, _) => ExecLoop(m, turns, c, s, 0, turns)
    case For(_, _, _) => ExecFor(m, turns, c, ForValues(m, c, s), s, 0, turns)
  }

  /** The assignments a `for` goes through: its words are expanded once, on entry. */
  function ForValues<S>(m: Machine<S>, c: Cmd, s: S): (r: seq<string>)
    requires c.For?
  {
    MakeListIn(UnescapeAll(c.values), Unescape(c.name), m.LookIn(s))
  }

  /** A section that is not there runs nothing and keeps the latest code. */
  function ExecSection<S>(m: Machine<S>, turns: nat, x: Section, s: S, code: int): (r: Outcome<S>)
    decreases x, 0
  {
    match x
    case Void => Fin(s, code)
    case Of(list) => ExecList(m, turns, list, s, code)
  }

  function ExecElse<S>(m: Machine<S>, turns: nat, e: Else, s: S, code: int): (r: Outcome<S>)
    decreases e, 0
  {
    match e
    case NoElse => Fin(s, code)
    case Else(body) => ExecSection(m, turns, body, s, code)
    case Elif(cond, thn, els) =>
      match ExecSection(m, turns, cond, s, code)
      case OutOfTurns => OutOfTurns
      case Fin(s1, c1) =>
        if Exiting(c1) then Fin(s1, c1)
        else if c1 == 0 then ExecSection(m, turns, thn, s1, c1)
        else ExecElse(m, turns, els, s1, c1)
  }

  function ExecLoop<S>(m: Machine<S>, turns: nat, c: Cmd, s: S, code: int, left: nat): (r: Outcome<S>)
    requires c.Loop?
    decreases c, left
  {
    match ExecSection(m, turns, c.cond, s, code)
    case OutOfTurns => OutOfTurns
    case Fin(s1, c1) =>
      if Exiting(c1) || !GoesOn(c.kind, c.cond, c1) then Fin(s1, c1)
      else
        match ExecSection(m, turns, c.body, s1, c1)
        case OutOfTurns => OutOfTurns
        case Fin(s2, c2) =>
          if Exiting(c2) then Fin(s2, c2)
          else if left == 0 then OutOfTurns
          else ExecLoop(m, turns, c, s2, c2, left - 1)
  }

  /** `vals` are the assignments still to go; each is run as a command before the body. */
  function ExecFor<S>(m: Machine<S>, turns: nat, c: Cmd, vals: seq<string>, s: S, code: int, left: nat): (r: Outcome<S>)
    requires c.For?
    decreases c, left
  {
    if vals == [] then Fin(s, code)
    else
      var a := m.cmd([vals[0]], s);
      var n := Noted(m, a.0, a.1);
      if Exiting(n.code) then n
      else
        match ExecSection(m, turns, c.body, n.s, n.code)
        case OutOfTurns => OutOfTurns
        case Fin(s2, c2) =>
          if Exiting(c2) then Fin(s2, c2)
          else if left == 0 then OutOfTurns
          else ExecFor(m, turns, c, vals[1..], s2, c2, left - 1)
  }

  /** A chain stops at the first link that fails; what follows it, up to the separator,
      is not run, whatever its operators are. */
  function ExecChain<S>(m: Machine<S>, turns: nat, c: Chain, s: S, code: int): (r: Outcome<S>)
    decreases c, 0
  {
    match c
    case Last(cmd) => ExecStep(m, turns, cmd, s, code)
    case Link(cmd, op, rest) =>
      match ExecStep(m, turns, cmd, s, code)
      case OutOfTurns => OutOfTurns
      case Fin(s1, c1) =>
        if !cmd.Nothing? && (Exiting(c1) || LinkFails(op, c1)) then Fin(s1, c1)
        else ExecChain(m, turns, rest, s1, c1)
  }

  function ExecList<S>(m: Machine<S>, turns: nat, l: List, s: S, code: int): (r: Outcome<S>)
    decreases l, 0
  {
    match ExecChain(m, turns, l.chain, s, code)
    case OutOfTurns => OutOfTurns
    case Fin(s1, c1) =>
      if Exiting(c1) || l.One? then Fin(s1, c1) else ExecList(m, turns, l.rest, s1, c1)
  }
}
