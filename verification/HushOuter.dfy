/**
 parse_stream_outer and parse_string_outer: an input of several lines is parsed and run one
 line at a time.
 */
module HushOuter {
  import opened Wrappers
  import opened HushSyntax
  import opened HushExec
  import opened HushRun
  import opened HushRunProof
  import opened HushParse
  import opened HushPrint
  import opened HushExit

  /** How the loop over the rounds ends: `Hung` if some loop took more than the allowed
      iterations, `Lost` where the parser returned 1 and the code goes on to read through a
      null pointer, to see whether there is more input. */
  datatype Ending<S> = Ended(s: S, result: int) | Hung | Lost(s: S)

  function Result(code: int): int { if code != 0 then 1 else 0 }

  lemma {:induction false} ParseShortens(st: State, toks: seq<Tok>, cont: bool)
    requires Inv(st.ctx) && toks != []
    ensures |ParseStream(st, toks, cont).2| < |toks|
    decreases |toks|
  {
    match Take(st, toks[0], cont)
    case On(st1) => if |toks| > 1 { ParseShortens(st1, toks[1..], cont); }
    case Return(_, _) =>
  }

  /** The flags of parse_stream_outer: FLAG_CONT_ON_NEWLINE and FLAG_EXIT_FROM_LOOP. */
  datatype Flags = Flags(cont: bool, once: bool)

  const BY_LINE := Flags(false, false)

  /** The rounds of parse_stream_outer on a string; `code` is what the round before returned. */
  function Outer<S>(m: Machine<S>, turns: nat, toks: seq<Tok>, s: S, code: int, f: Flags): (r: Ending<S>)
    decreases |toks|
  {
    var p := ParseStream(State(FRESH, "", false), toks, f.cont);
    match ParseRound(toks, f.cont)
    case None => if p.1 == -1 || f.once then Ended(s, Result(code)) else Lost(s)
    case Some(list) =>
      match RunList(m, turns, list, s)
      case NoTurns => Hung
      case Ret(_, s1, c1) =>
        if c1 == -2 then Ended(s1, 0)
        else if p.1 == -1 || f.once || p.2 == [] then Ended(s1, Result(c1))
        else
          ParseShortens(State(FRESH, "", false), toks, f.cont);
          Outer(m, turns, p.2, s1, c1, f)
  }

  /** The loop itself. */
  method ParseStreamOuter<S>(m: Machine<S>, turns: nat, toks0: seq<Tok>, s0: S, f: Flags) returns (r: Ending<S>)
    ensures r == Outer(m, turns, toks0, s0, 1, f)
  {
    hide ParseStream, ParseRound, RunList;
    var toks, s, code := toks0, s0, 1;
    while true
      invariant Outer(m, turns, toks, s, code, f) == Outer(m, turns, toks0, s0, 1, f)
      decreases |toks|
    {
      var parser := new Parser();
      var list, rc, rest := parser.Round(toks, f.cont);
      if list.None? {
        return if rc == -1 || f.once then Ended(s, Result(code)) else Lost(s);
      }
      var ran := RunListReal(m, turns, list.value, s);
      if ran.NoTurns? { return Hung; }
      s, code := ran.s, ran.code;
      if code == -2 { return Ended(s, 0); }
      if rc == -1 || f.once || rest == [] { return Ended(s, Result(code)); }
      if toks != [] { ParseShortens(State(FRESH, "", false), toks, f.cont); } else { NothingParses(f.cont); }
      toks := rest;
    }
  }

  lemma NothingParses(cont: bool)
    ensures ParseStream(State(FRESH, "", false), [], cont).1 == -1
  {
  }

  // Scripts

  /** Lines, each as typed. */
  function PrintLines(ls: seq<List>): seq<Tok> {
    if ls == [] then [] else PrintList(ls[0]) + PrintLines(ls[1..])
  }

  /** The lines as one program. */
  function Whole(ls: seq<List>): (l: List)
    requires ls != []
  {
    if |ls| == 1 then ls[0] else Append(ls[0], Whole(ls[1..]))
  }

  predicate LineOk(l: List) { OkList(l) && OneLine(l) && LegibleList(l) }

  predicate LinesOk(ls: seq<List>) { forall i :: 0 <= i < |ls| ==> LineOk(ls[i]) }

  /** What is parsed before a stream ends does not depend on what follows. */
  lemma {:induction false} ParseAhead(st: State, a: seq<Tok>, b: seq<Tok>, cont: bool)
    requires Inv(st.ctx) && ParseStream(st, a, cont).1 != -1
    ensures var (st1, code, rest) := ParseStream(st, a, cont);
            ParseStream(st, a + b, cont) == (st1, code, rest + b)
    decreases |a|
  {
    hide Take;
    assert (a + b)[0] == a[0] && (a + b)[1..] == a[1..] + b;
    match Take(st, a[0], cont)
    case On(st1) => ParseAhead(st1, a[1..], b, cont);
    case Return(_, _) =>
  }

  /** One round reads exactly the first line. */
  lemma RoundReadsLine(l: List, more: seq<Tok>)
    requires OkList(l) && OneLine(l)
    ensures var p := ParseStream(State(FRESH, "", false), PrintList(l) + more, false); p.1 == 0 && p.2 == more
    ensures ParseRound(PrintList(l) + more, false) == Some(FlatProgram(l))
  {
    hide ParseStream, PrintList, OkList, FlatProgram;
    ParsesLine(l, FRESH);
    ParsePrintLine(l);
    ParseAhead(State(FRESH, "", false), PrintList(l), more, false);
    assert [] + more == more;
  }

  // The code a list starts with matters only if it runs nothing

  function WithCode<S>(out: Outcome<S>, ran: bool, code: int): (r: Outcome<S>) {
    if out.Fin? && !ran then Fin(out.s, code) else out
  }

  lemma {:induction false} ChainFromZero<S>(m: Machine<S>, turns: nat, c: Chain, s: S, code: int)
    requires !Exiting(code)
    ensures ExecChain(m, turns, c, s, code) == WithCode(ExecChain(m, turns, c, s, 0), ChainHasCommand(c), code)
    decreases c
  {
    if c.cmd.Nothing? && c.Link? { ChainFromZero(m, turns, c.rest, s, code); }
  }

  lemma {:induction false} ListFromZero<S>(m: Machine<S>, turns: nat, l: List, s: S, code: int)
    requires !Exiting(code)
    ensures ExecList(m, turns, l, s, code) == WithCode(ExecList(m, turns, l, s, 0), HasCommand(l), code)
    decreases l
  {
    hide ExecChain;
    ChainFromZero(m, turns, l.chain, s, code);
    if !ChainHasCommand(l.chain) {
      NothingRunsInChain(m, turns, l.chain, s, 0);
      if l.More? { ListFromZero(m, turns, l.rest, s, code); }
    }
  }

  lemma {:induction false} ExecAppend<S>(m: Machine<S>, turns: nat, l: List, k: List, s: S, code: int)
    ensures ExecList(m, turns, Append(l, k), s, code)
         == match ExecList(m, turns, l, s, code)
            case OutOfTurns => OutOfTurns
            case Fin(s1, c1) => if Exiting(c1) then Fin(s1, c1) else ExecList(m, turns, k, s1, c1)
    decreases l
  {
    hide ExecChain;
    if l.More? {
      var out := ExecChain(m, turns, l.chain, s, code);
      if out.Fin? && !Exiting(out.code) { ExecAppend(m, turns, l.rest, k, out.s, out.code); }
    }
  }

  /** What a script is to do: the outcome of all its lines as one program; its result is that
      of the last line, and an exit is a success. */
  function Expected<S>(out: Outcome<S>, last: List): (r: Ending<S>) {
    match out
    case OutOfTurns => Hung
    case Fin(s, c) => Ended(s, if Exiting(c) || !HasCommand(last) then 0 else Result(c))
  }

  /** Running a script line by line has the outcome of the whole script. */
  lemma {:induction false} LinesPreserveMeaning<S>(m: Machine<S>, turns: nat, ls: seq<List>, s: S, code: int)
    requires ls != [] && LinesOk(ls)
    ensures Outer(m, turns, PrintLines(ls), s, code, BY_LINE)
         == Expected(ExecList(m, turns, Whole(ls), s, 0), ls[|ls| - 1])
    decreases |ls|
  {
    hide ParseStream, ParseRound, RunList, ExecList, PrintList, FlatProgram, LineOk;
    var l, rest := ls[0], PrintLines(ls[1..]);
    assert LineOk(l);
    LineRuns(m, turns, l, rest, s, code, false);
    var out := ExecList(m, turns, l, s, 0);
    if |ls| == 1 {
      assert rest == [];
      if !HasCommand(l) { NothingRuns(m, turns, l, s, 0); }
    } else {
      ExecAppend(m, turns, l, Whole(ls[1..]), s, 0);
      MoreLines(ls);
      if out.Fin? && !Exiting(out.code) {
        LinesPreserveMeaning(m, turns, ls[1..], out.s, out.code);
        ListFromZero(m, turns, Whole(ls[1..]), out.s, out.code);
        if !HasCommand(Whole(ls[1..])) {
          NothingRuns(m, turns, Whole(ls[1..]), out.s, 0);
          LastRuns(ls[1..]);
        }
      }
    }
  }

  lemma MoreLines(ls: seq<List>)
    requires |ls| > 1 && LinesOk(ls)
    ensures PrintLines(ls[1..]) != [] && LinesOk(ls[1..])
  {
    NotNothing(ls[1]);
  }

  lemma NotNothing(l: List)
    ensures PrintList(l) != []
  {
  }

  lemma {:induction false} LastRuns(ls: seq<List>)
    requires ls != []
    ensures HasCommand(ls[|ls| - 1]) ==> HasCommand(Whole(ls))
    decreases |ls|
  {
    if |ls| > 1 {
      LastRuns(ls[1..]);
      AppendRuns(ls[0], Whole(ls[1..]));
    }
  }

  lemma {:induction false} AppendRuns(l: List, k: List)
    ensures HasCommand(Append(l, k)) <==> HasCommand(l) || HasCommand(k)
    decreases l
  {
    if l.More? { AppendRuns(l.rest, k); }
  }

  /** One round on a script. */
  lemma LineRuns<S>(m: Machine<S>, turns: nat, l: List, rest: seq<Tok>, s: S, code: int, once: bool)
    requires LineOk(l)
    ensures Outer(m, turns, PrintList(l) + rest, s, code, Flags(false, once))
         == match ExecList(m, turns, l, s, 0)
            case OutOfTurns => Hung
            case Fin(s1, c1) =>
              if Exiting(c1) then Ended(s1, 0)
              else if once || rest == [] then Ended(s1, Result(c1))
              else Outer(m, turns, rest, s1, c1, BY_LINE)
  {
    hide ParseStream, ParseRound, RunList, ExecList, PrintList, FlatProgram;
    RoundReadsLine(l, rest);
    RunIsExec(m, turns, l, s);
    var out := ExecList(m, turns, l, s, 0);
    if out.Fin? && Exiting(out.code) { ExitCode(m, turns, l, s); }
  }

  /** With FLAG_EXIT_FROM_LOOP, as run_command passes it, only the first line of a script is
      run, whatever follows it. */
  lemma FirstLineOnly<S>(m: Machine<S>, turns: nat, l: List, rest: seq<Tok>, s: S)
    requires LineOk(l)
    ensures Outer(m, turns, PrintList(l) + rest, s, 1, Flags(false, true)) == Expected(ExecList(m, turns, l, s, 0), l)
  {
    hide ExecList, Outer, PrintList, LineOk;
    LineRuns(m, turns, l, rest, s, 1, true);
    if !HasCommand(l) { NothingRuns(m, turns, l, s, 0); }
  }

  /** With FLAG_CONT_ON_NEWLINE the whole script is one round. */
  lemma WholeAtOnce<S>(m: Machine<S>, turns: nat, l: List, s: S, once: bool)
    requires OkList(l) && LegibleList(l)
    ensures Outer(m, turns, PrintList(l), s, 1, Flags(true, once))
         == match ExecList(m, turns, l, s, 0)
            case OutOfTurns => Hung
            case Fin(s1, c1) => Ended(s1, if Exiting(c1) then 0 else Result(c1))
  {
    hide RunList, ExecList, PrintList, FlatProgram, OkList, LegibleList;
    ScriptParses(l);
    RunIsExec(m, turns, l, s);
    var out := ExecList(m, turns, l, s, 0);
    if out.Fin? && Exiting(out.code) { ExitCode(m, turns, l, s); }
  }

  lemma ScriptParses(l: List)
    requires OkList(l)
    ensures ParseRound(PrintList(l), true) == Some(FlatProgram(l))
    ensures ParseStream(State(FRESH, "", false), PrintList(l), true).1 == -1
  {
    hide Feed;
    ParsePrintScript(l);
    FeedsList(l, FRESH, true);
    assert PrintList(l) + [] == PrintList(l);
    ParseAfterFeed(At(FRESH), PrintList(l), [], true);
  }

  // Strings

  /** parse_string_outer adds a newline unless the first one is the last character. */
  function Supplied(toks: seq<Tok>): (r: seq<Tok>) {
    if toks != [] && toks[|toks| - 1] == Line && Line !in toks[..|toks| - 1] then toks else toks + [Line]
  }

  const BLANK_LINE := One(Last(Nothing), Newline)

  /** A script of several lines whose last one ends in a newline is given an empty line more,
      and then its result is 0 whatever its commands returned; its effect is unchanged. */
  lemma SeveralLinesSucceed<S>(m: Machine<S>, turns: nat, ls: seq<List>, s: S, code: int)
    requires |ls| > 1 && LinesOk(ls)
    ensures Outer(m, turns, Supplied(PrintLines(ls)), s, code, BY_LINE)
         == match ExecList(m, turns, Whole(ls), s, 0)
            case OutOfTurns => Hung
            case Fin(s1, _) => Ended(s1, 0)
  {
    hide ExecList, Outer;
    TwoNewlines(ls);
    var ls' := ls + [BLANK_LINE];
    PrintMore(ls);
    BlankOk();
    LinesPreserveMeaning(m, turns, ls', s, code);
    WholeMore(m, turns, ls, s, 0);
  }

  lemma BlankOk()
    ensures LineOk(BLANK_LINE) && !HasCommand(BLANK_LINE) && PrintList(BLANK_LINE) == [Line]
  {
    assert OkChain(Last(Nothing)) && LegibleChain(Last(Nothing));
    assert PrintChain(Last(Nothing)) + [Line] == [Line];
  }

  lemma {:induction false} PrintMore(ls: seq<List>)
    ensures PrintLines(ls + [BLANK_LINE]) == PrintLines(ls) + [Line]
    decreases |ls|
  {
    BlankOk();
    if ls == [] {
      assert PrintLines([BLANK_LINE]) == PrintList(BLANK_LINE) + PrintLines([]);
    } else {
      assert (ls + [BLANK_LINE])[1..] == ls[1..] + [BLANK_LINE];
      PrintMore(ls[1..]);
    }
  }

  lemma {:induction false} WholeMore<S>(m: Machine<S>, turns: nat, ls: seq<List>, s: S, code: int)
    requires ls != [] && !Exiting(code)
    ensures ExecList(m, turns, Whole(ls + [BLANK_LINE]), s, code) == ExecList(m, turns, Whole(ls), s, code)
    decreases |ls|
  {
    hide ExecList;
    var more := (ls + [BLANK_LINE])[1..];
    assert more == ls[1..] + [BLANK_LINE];
    ExecAppend(m, turns, ls[0], Whole(more), s, code);
    var out := ExecList(m, turns, ls[0], s, code);
    if |ls| == 1 {
      BlankOk();
      if out.Fin? && !Exiting(out.code) { NothingRuns(m, turns, BLANK_LINE, out.s, out.code); }
    } else {
      ExecAppend(m, turns, ls[0], Whole(ls[1..]), s, code);
      if out.Fin? && !Exiting(out.code) { WholeMore(m, turns, ls[1..], out.s, out.code); }
    }
  }

  lemma {:induction false} EndsInNewline(l: List)
    requires OneLine(l)
    ensures PrintList(l) != [] && PrintList(l)[|PrintList(l)| - 1] == Line
    decreases l
  {
    if l.More? { EndsInNewline(l.rest); }
  }

  lemma TwoNewlines(ls: seq<List>)
    requires |ls| > 1 && LinesOk(ls)
    ensures Supplied(PrintLines(ls)) == PrintLines(ls) + [Line]
  {
    hide PrintList;
    var toks, n := PrintLines(ls), |PrintList(ls[0])|;
    assert LineOk(ls[0]);
    EndsInNewline(ls[0]);
    MoreLines(ls);
    assert toks[..|toks| - 1][n - 1] == toks[n - 1] == PrintList(ls[0])[n - 1];
  }
}
