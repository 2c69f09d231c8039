/**
 Syntax errors of the parser. An error that is reported stops the parser only if a blank or
 a newline ends the word at fault: behind an operator the result of done_word is ignored.
 */
module HushErrors {
  import opened Wrappers
  import HushExpand
  import opened HushSyntax
  import opened HushExec
  import opened HushRun
  import opened HushRunProof
  import opened HushParse
  import opened HushPrint

  /** The reserved word may not stand here. */
  predicate Misplaced(word: string, c: Ctx) {
    match Reserved(word)
    case None => false
    case Some(entry) => if RXxxx in entry.1 then c.w in {RIn, RFor} else c.w == RNone || entry.0 !in c.oldFlag
  }

  /** Ending the word reports an error: a word behind a compound, or a misplaced one. */
  predicate Complains(st: State) {
    !Idle(st) && (st.ctx.child.Group? || (st.ctx.child.NoProg? && Misplaced(st.dest, st.ctx)))
  }

  /** Ending the word closes a compound in order, but the context it returns to was marked by
      an earlier error, and done_word fails without a report. */
  predicate Relapses(st: State) {
    && !Idle(st) && st.ctx.child.NoProg? && !Misplaced(st.dest, st.ctx)
    && Reserved(st.dest).Some? && RNone in Reserved(st.dest).value.1
    && st.ctx.stack.Under? && st.ctx.stack.ctx.w == RSntx
  }

  lemma DoneWordFails(st: State)
    requires Inv(st.ctx)
    ensures DoneWord(st).1 <==> Complains(st) || Relapses(st)
    ensures !DoneWord(st).1 ==> Idle(DoneWord(st).0)
  {
    hide Reserved;
  }

  /** What happens at the end of a word, and the token that ends it; None is the end of the
      input. */
  datatype Event = Complaint(end: Option<Tok>) | Relapse(end: Option<Tok>)

  predicate Operator(t: Tok) { t in {SemiColon, AndAnd, OrOr} }
  predicate Lone(t: Tok) { t in {LoneAmp, LoneBar} }

  function EventsAt(st: State, t: Tok): (es: seq<Event>) {
    if t.Text? then []
    else if Lone(t) then [Complaint(Some(t))]
    else EventsOf(st, Some(t))
  }

  function EventsOf(st: State, end: Option<Tok>): (es: seq<Event>) {
    if Complains(st) then [Complaint(end)]
    else if Relapses(st) then [Relapse(end)]
    else []
  }

  /** All there is to report while the stream is read. */
  function Events(st: State, toks: seq<Tok>, cont: bool): (es: seq<Event>)
    requires Inv(st.ctx)
    decreases |toks|
  {
    if toks == [] then []
    else
      var here := EventsAt(st, toks[0]);
      match Take(st, toks[0], cont)
      case On(st1) => here + Events(st1, toks[1..], cont)
      case Return(_, _) => here
  }

  /** The result of done_word is ignored behind an operator and at the end of the input. */
  predicate Ignored(e: Event) { e.end.None? || Operator(e.end.value) }

  predicate AllIgnored(es: seq<Event>) { forall i :: 0 <= i < |es| ==> Ignored(es[i]) }

  lemma TakeFails(st: State, t: Tok, cont: bool)
    requires Inv(st.ctx)
    ensures (Take(st, t, cont).Return? && Take(st, t, cont).code == 1) <==> !AllIgnored(EventsAt(st, t))
    ensures Take(st, t, cont).Return? ==> Take(st, t, cont).code in {0, 1}
  {
    DoneWordFails(st);
    hide DoneWord, Complains, Relapses;
    var es := EventsAt(st, t);
    if es != [] { assert es[0].end == Some(t); }
  }

  lemma AllIgnoredJoin(a: seq<Event>, b: seq<Event>)
    ensures AllIgnored(a + b) <==> AllIgnored(a) && AllIgnored(b)
  {
    if AllIgnored(a + b) {
      assert forall i :: 0 <= i < |a| ==> (a + b)[i] == a[i];
      assert forall i :: 0 <= i < |b| ==> (a + b)[|a| + i] == b[i];
    }
  }

  /** The parser returns 1 exactly if some event was not ignored. */
  lemma {:induction false} CodeIffIgnored(st: State, toks: seq<Tok>, cont: bool)
    requires Inv(st.ctx)
    ensures ParseStream(st, toks, cont).1 != 1 <==> AllIgnored(Events(st, toks, cont))
    decreases |toks|
  {
    if toks != [] {
      TakeFails(st, toks[0], cont);
      hide Take, EventsAt, AllIgnored;
      match Take(st, toks[0], cont)
      case On(st1) =>
        CodeIffIgnored(st1, toks[1..], cont);
        AllIgnoredJoin(EventsAt(st, toks[0]), Events(st1, toks[1..], cont));
      case Return(_, _) =>
    } else {
      assert AllIgnored([]);
    }
  }

  // Without a report there is no relapse

  /** No error has marked this context or one below it. */
  predicate Unmarked(c: Ctx) { c.w != RSntx && (c.stack.Under? ==> Unmarked(c.stack.ctx)) }

  lemma UnmarkedWord(st: State)
    requires Inv(st.ctx) && Unmarked(st.ctx) && !Complains(st)
    ensures !Relapses(st) && Unmarked(DoneWord(st).0.ctx)
  {
    hide Reserved;
  }

  lemma UnmarkedTake(st: State, t: Tok, cont: bool)
    requires Inv(st.ctx) && Unmarked(st.ctx) && EventsAt(st, t) == []
    ensures Unmarked(Take(st, t, cont).st.ctx)
  {
    if !t.Text? {
      UnmarkedWord(st);
      hide DoneWord, Complains, Relapses;
    }
  }

  /** The first event is a report. */
  lemma {:induction false} FirstIsComplaint(st: State, toks: seq<Tok>, cont: bool)
    requires Inv(st.ctx) && Unmarked(st.ctx) && Events(st, toks, cont) != []
    ensures Events(st, toks, cont)[0].Complaint?
    decreases |toks|
  {
    var here := EventsAt(st, toks[0]);
    if here != [] {
      if !Lone(toks[0]) && !Complains(st) { UnmarkedWord(st); }
    } else {
      UnmarkedTake(st, toks[0], cont);
      hide Take, EventsAt;
      var st1 := Take(st, toks[0], cont).st;
      assert here + Events(st1, toks[1..], cont) == Events(st1, toks[1..], cont);
      FirstIsComplaint(st1, toks[1..], cont);
    }
  }

  const BEGIN := State(FRESH, "", false)

  /** All events of one round: where the parser stopped without an error and nothing is open,
      the word still pending is ended as well. */
  function RoundEvents(toks: seq<Tok>, cont: bool): (es: seq<Event>) {
    var (st, code, _) := ParseStream(BEGIN, toks, cont);
    Events(BEGIN, toks, cont) + if code != 1 && Open(st.ctx) == 0 then EventsOf(st, None) else []
  }

  ghost predicate HasComplaint(es: seq<Event>) { exists i :: 0 <= i < |es| && es[i].Complaint? }

  /** An error was reported in the round. */
  ghost predicate Reported(toks: seq<Tok>, cont: bool) { HasComplaint(RoundEvents(toks, cont)) }

  /** For every token stream: a list is run exactly if every error reported, and every return
      to a context such an error has marked, was ended by an operator or the end of the input,
      and no compound is open there; and without a reported error there is nothing of either
      kind. */
  lemma RunDespiteErrorsIff(toks: seq<Tok>, cont: bool)
    ensures ParseRound(toks, cont).Some?
       <==> AllIgnored(RoundEvents(toks, cont)) && Open(ParseStream(BEGIN, toks, cont).0.ctx) == 0
    ensures !Reported(toks, cont) ==> RoundEvents(toks, cont) == []
  {
    var st := ParseStream(BEGIN, toks, cont).0;
    var es := Events(BEGIN, toks, cont);
    CodeIffIgnored(BEGIN, toks, cont);
    RunsOutermostIff(toks, cont);
    LastIgnored(st);
    AllIgnoredJoin(es, EventsOf(st, None));
    hide ParseStream, ParseRound, Events, AllIgnored, EventsOf;
    assert es + [] == es;
    var all := RoundEvents(toks, cont);
    if es != [] {
      FirstIsComplaint(BEGIN, toks, cont);
      assert all[0] == es[0];
    } else if all != [] {
      assert all[0] == EventsOf(st, None)[0];
    }
  }

  /** What the end of the input brings up is ignored; where nothing is open it is a report. */
  lemma LastIgnored(st: State)
    ensures AllIgnored(EventsOf(st, None))
    ensures Open(st.ctx) == 0 && EventsOf(st, None) != [] ==> EventsOf(st, None)[0].Complaint?
  {
  }

  /** Behind a final newline nothing is pending. */
  lemma NewlineEnds(toks: seq<Tok>, cont: bool)
    requires toks != [] && toks[|toks| - 1] == Line
    ensures RoundEvents(toks, cont) == Events(BEGIN, toks, cont)
  {
    var p := ParseStream(BEGIN, toks, cont);
    if p.1 != 1 { IdleAfterNewline(BEGIN, toks, cont); }
    hide ParseStream, Events;
    assert Events(BEGIN, toks, cont) + [] == Events(BEGIN, toks, cont);
  }

  // What a caller can see to

  /** Every operator follows a blank, a newline or another operator. */
  predicate Spaced(toks: seq<Tok>) {
    forall i :: 0 < i < |toks| && Operator(toks[i]) ==> toks[i - 1] in {Blank, Line} || Operator(toks[i - 1])
  }

  lemma {:induction false} SpacedEvents(st: State, toks: seq<Tok>, cont: bool)
    requires Inv(st.ctx) && Spaced(toks) && (toks != [] && Operator(toks[0]) ==> Idle(st))
    ensures AllIgnored(Events(st, toks, cont)) <==> Events(st, toks, cont) == []
    decreases |toks|
  {
    if toks != [] {
      var t, here := toks[0], EventsAt(st, toks[0]);
      TakeFails(st, t, cont);
      if here != [] { assert here[0].end == Some(t); }
      match Take(st, t, cont)
      case On(st1) =>
        SpacedTake(st, toks, cont);
        SpacedEvents(st1, toks[1..], cont);
        AllIgnoredJoin(here, Events(st1, toks[1..], cont));
      case Return(_, _) =>
    }
  }

  lemma SpacedTake(st: State, toks: seq<Tok>, cont: bool)
    requires Inv(st.ctx) && toks != [] && Spaced(toks) && (Operator(toks[0]) ==> Idle(st))
    requires Take(st, toks[0], cont).On?
    ensures Spaced(toks[1..])
    ensures |toks| > 1 && Operator(toks[1]) ==> Idle(Take(st, toks[0], cont).st)
  {
    var rest := toks[1..];
    forall i | 0 < i < |rest| && Operator(rest[i]) ensures rest[i - 1] in {Blank, Line} || Operator(rest[i - 1]) {
      assert rest[i] == toks[i + 1] && rest[i - 1] == toks[i];
    }
    DoneWordFails(st);
    hide DoneWord;
    if Operator(toks[0]) { assert DoneWord(st) == (st, false) by { IdleWord(st); } }
  }

  lemma IdleWord(st: State)
    requires Inv(st.ctx) && Idle(st)
    ensures DoneWord(st) == (st, false)
  {
  }

  /** In a spaced input every error reported while it is read makes the parser return 1, so
      that a list is run exactly if none was and every compound is closed. With a final
      newline these are all errors. */
  lemma SpacedErrorsStop(toks: seq<Tok>, cont: bool)
    requires Spaced(toks)
    ensures var found := HasComplaint(Events(BEGIN, toks, cont));
            var p := ParseStream(BEGIN, toks, cont);
            && (p.1 == 1 <==> found)
            && (ParseRound(toks, cont).Some? <==> !found && Open(p.0.ctx) == 0)
            && (toks != [] && toks[|toks| - 1] == Line ==> (found <==> Reported(toks, cont)))
  {
    SpacedEvents(BEGIN, toks, cont);
    CodeIffIgnored(BEGIN, toks, cont);
    RunsOutermostIff(toks, cont);
    hide ParseStream, ParseRound, Events, AllIgnored, Spaced, RoundEvents;
    if Events(BEGIN, toks, cont) != [] { FirstIsComplaint(BEGIN, toks, cont); }
    if toks != [] && toks[|toks| - 1] == Line { NewlineEnds(toks, cont); }
  }

  // Errors that do not stop

  /** A misplaced word in front of an operator is dropped; what is left of it is an empty pipe
      and the mark. */
  lemma MisplacedPasses(c: Ctx, word: string, t: Tok, f: Followup, cont: bool)
    requires Inv(c) && c.child.NoProg? && Misplaced(word, c)
    requires (t, f) in {(SemiColon, Seq), (AndAnd, AndIf), (OrOr, OrIf)}
    ensures Complains(State(c, word, false))
    ensures Feeds(At(c), [Text(word, false), t], cont,
                  At(c.(w := RSntx, pipes := c.pipes + [Pipe(NoProg, f, RSntx)])))
  {
    hide Feed, Reserved;
    NotEmpty(word);
    var st := State(c, word, false);
    assert "" + word == word;
    assert Take(At(c), Text(word, false), cont) == On(st);
    FeedsTok(At(c), Text(word, false), cont);
    assert Take(st, t, cont) == On(EndPipe(st, f));
    FeedsTok(st, t, cont);
    FeedsThen(At(c), [Text(word, false)], st, [t], EndPipe(st, f).(dest := "", nonnull := false), cont);
    assert [Text(word, false)] + [t] == [Text(word, false), t];
  }

  /** The pipes of `if ...; then ...; done; fi`. */
  function WithDone(cond: Section, thn: Section): (ps: seq<Pipe>) {
    FlatSection(cond, RIf) + FlatSection(thn, RThen) + [Pipe(NoProg, Seq, RSntx)] + Closing(RFi)
  }

  /** `if ...; then ...; done; fi`, whatever its sections: the error is reported and the
      command is closed. */
  lemma MisplacedDone(cond: Section, thn: Section, c: Ctx, cont: bool)
    requires Receptive(c) && OkSection(cond) && OkSection(thn)
    ensures var t := Word("if") + PrintSection(cond) + (Word("then") + PrintSection(thn));
            var c2 := Ctx(FlatSection(cond, RIf) + FlatSection(thn, RThen), NoProg, RThen, AFTER_THEN, Under(c));
            && Feeds(At(c), t, cont, At(c2)) && Complains(State(c2, "done", false))
            && Feeds(At(c), t + [Text("done", false), SemiColon] + Word("fi"), cont,
                     At(c.(child := Group(WithDone(cond, thn)))))
  {
    hide Feed, FlatSection, PrintSection, Word;
    var f1, f2 := FlatSection(cond, RIf), FlatSection(thn, RThen);
    var t1, t2 := Word("if") + PrintSection(cond), Word("then") + PrintSection(thn);
    var c1 := Ctx(f1, NoProg, RIf, {RThen, RXxxx}, Under(c));
    var c2 := Ctx(f1 + f2, NoProg, RThen, AFTER_THEN, Under(c));
    var c3 := c2.(w := RSntx, pipes := f1 + f2 + [Pipe(NoProg, Seq, RSntx)]);
    FeedsOpenSection("if", cond, c, cont);
    FeedsWordSection("then", thn, c1, cont);
    FeedsThen(At(c), t1, At(c1), t2, At(c2), cont);
    MisplacedPasses(c2, "done", SemiColon, Seq, cont);
    FeedsThen(At(c), t1 + t2, At(c2), [Text("done", false), SemiColon], At(c3), cont);
    FeedsClosing(c3, "fi", cont);
    FeedsThen(At(c), t1 + t2 + [Text("done", false), SemiColon], At(c3), Word("fi"),
              At(c.(child := Group(c3.pipes + Closing(RFi)))), cont);
  }

  /** And it is run as if `done` were not there. */
  lemma MisplacedDoneRuns<S>(m: Machine<S>, turns: nat, cond: Section, thn: Section, s: S)
    requires LegibleSection(cond) && LegibleSection(thn)
    ensures Agrees(RunList(m, turns, WithDone(cond, thn), s), ExecCmd(m, turns, If(cond, thn, NoElse), s),
                   WithDone(cond, thn))
  {
    hide RunFrom, Choose, FlatSection, ExecSection, LegibleSection, Tagged, ForSyntaxOk;
    var ps, n := WithDone(cond, thn), |FlatSection(cond, RIf)|;
    var end := n + |FlatSection(thn, RThen)|;
    WithDoneShape(cond, thn);
    SectionSim(m, turns, cond, RIf, ps, 0, START, s, turns);
    var out := ExecSection(m, turns, cond, s, 0);
    if out.Fin? && !Exiting(out.code) {
      if !Runs(cond) { NothingRunsInSection(m, turns, cond, s, 0); }
      var g := Moved(RIf, START, Runs(cond), out.code);
      if out.code == 0 {
        ThenThenDone(m, turns, thn, ps, n, g, out.s, turns);
      } else {
        SectionModes(thn, RThen);
        assert forall i :: n <= i < end ==> ps[i] == ps[n..end][i - n];
        SkipSection(m, turns, RThen, ps, n, end, g, out.s, turns);
        DoneFiEnds(m, turns, ps, end, Passed(RThen, g, n < end), out.s, turns);
      }
    }
  }

  lemma WithDoneShape(cond: Section, thn: Section)
    ensures var ps := WithDone(cond, thn);
            var a, b := FlatSection(cond, RIf), FlatSection(thn, RThen);
            && Tagged(ps) && ForSyntaxOk(ps) && SliceIs(ps, 0, a) && SliceIs(ps, |a|, b)
            && ps[|a| + |b|..] == [Pipe(NoProg, Seq, RSntx)] + Closing(RFi)
  {
    var ps := WithDone(cond, thn);
    var a, b := FlatSection(cond, RIf), FlatSection(thn, RThen);
    SectionModes(cond, RIf);
    SectionModes(thn, RThen);
    hide FlatSection;
    assert ps[0..] == ps;
    SplitTail(ps, 0, a, b, [Pipe(NoProg, Seq, RSntx)], Closing(RFi));
    forall i | 0 <= i < |ps| ensures ps[i].rmode in {RIf, RThen, RSntx, RFi, RNone} {
      if i < |a| { assert ps[i] == a[i]; }
      else if i < |a| + |b| { assert ps[i] == b[i - |a|]; }
      else { assert ps[i] == ps[|a| + |b|..][i - |a| - |b|]; }
    }
  }

  lemma ThenThenDone<S>(m: Machine<S>, turns: nat, thn: Section, ps: seq<Pipe>, pc: nat, g: Regs, s: S, left: nat)
    requires Tagged(ps) && LegibleSection(thn) && Ready(g) && g.nextIfCode == 0
    requires SliceIs(ps, pc, FlatSection(thn, RThen))
    requires ps[pc + |FlatSection(thn, RThen)|..] == [Pipe(NoProg, Seq, RSntx)] + Closing(RFi)
    ensures Agrees(RunFrom(m, turns, ps, pc, g, s, left), ExecSection(m, turns, thn, s, g.rcode), ps)
  {
    hide RunFrom, Choose, LegibleSection, Tagged;
    var end := pc + |FlatSection(thn, RThen)|;
    if thn.Void? {
      DoneFiEnds(m, turns, ps, pc, g, s, left);
    } else {
      hide FlatSection, ExecSection;
      SectionSim(m, turns, thn, RThen, ps, pc, g, s, left);
      var out := ExecSection(m, turns, thn, s, g.rcode);
      if out.Fin? && !Exiting(out.code) {
        DoneFiEnds(m, turns, ps, end, Moved(RThen, g, Runs(thn), out.code), out.s, left);
      }
    }
  }

  lemma DoneFiEnds<S>(m: Machine<S>, turns: nat, ps: seq<Pipe>, pc: nat, g: Regs, s: S, left: nat)
    requires pc <= |ps| && ps[pc..] == [Pipe(NoProg, Seq, RSntx)] + Closing(RFi) && Ready(g)
    ensures RunFrom(m, turns, ps, pc, g, s, left) == Ret(ps, s, g.rcode)
  {
    hide RunFrom, Choose;
    assert ps[pc] == ps[pc..][0];
    ChoosePlain(m.LookIn(s), ps, pc, g);
    OnPass(m, turns, ps, pc, g, s, left, g);
    assert ps[pc + 1..] == ps[pc..][1..];
    FiEnds(m, turns, ps, pc + 1, g, s, left);
  }

  /** The list that `fi; x` and a newline hand to the interpreter. */
  const FI_X := [Pipe(NoProg, Seq, RSntx), Pipe(Prog(["x"]), Seq, RSntx), Pipe(NoProg, Seq, RSntx), TRAILER]

  /** `fi; x` reports an error, and x is run all the same. */
  lemma ErrorStillRuns<S>(m: Machine<S>, turns: nat, s: S)
    ensures var toks := [Text("fi", false), SemiColon, Text("x", false), Line];
            Reported(toks, false) && ParseRound(toks, false) == Some(FI_X)
    ensures Agrees(RunList(m, turns, FI_X, s), ExecList(m, turns, One(Last(Simple(["x"])), Semi), s, 0), FI_X)
  {
    FiXParses();
    FiXRuns(m, turns, s);
  }

  /** The second half of that input, in the context the error has marked. */
  lemma XParses(c: Ctx)
    requires Inv(c) && c.w == RSntx && c.child.NoProg?
    ensures var p := Pipe(Prog(["x"]), Seq, RSntx);
            ParseStream(At(c), [Text("x", false), Line], false) == (At(c.(pipes := c.pipes + [p])), -1, [])
  {
    var toks := [Text("x", false), Line];
    var st, c1 := State(c, "x", false), c.(child := Prog(["x"]));
    XIsPlain();
    hide Reserved, Unescape;
    assert "" + "x" == "x" && toks[1..] == [Line] && [Line][1..] == [];
    assert [] + ["x"] == ["x"];
    assert DoneWord(st) == (At(c1), false);
    hide DoneWord;
    assert Take(At(c), toks[0], false) == On(st);
    assert Take(st, Line, false) == On(At(DonePipe(c1, Seq)));
    hide Take;
    assert ParseStream(st, [Line], false) == ParseStream(At(DonePipe(c1, Seq)), [], false);
  }

  lemma XIsPlain()
    ensures Reserved("x").None? && Unescape("x") == "x"
  {
  }

  lemma FiXParses()
    ensures var toks := [Text("fi", false), SemiColon, Text("x", false), Line];
            Reported(toks, false) && ParseRound(toks, false) == Some(FI_X)
  {
    var a, b := [Text("fi", false), SemiColon], [Text("x", false), Line];
    var c1 := FRESH.(w := RSntx, pipes := [Pipe(NoProg, Seq, RSntx)]);
    FiReported(b);
    FiPasses();
    hide Feed, ParseStream, Events, Reserved, ParseRound, Inv;
    ParseAfterFeed(BEGIN, a, b, false);
    XParses(c1);
    assert c1.pipes + [Pipe(Prog(["x"]), Seq, RSntx)] == FI_X[..2];
    RoundEnds(a + b, c1.(pipes := FI_X[..2]));
    assert FI_X[..2] + [Pipe(NoProg, Seq, RSntx), TRAILER] == FI_X;
    assert a + b == [Text("fi", false), SemiColon, Text("x", false), Line];
  }

  lemma FiPasses()
    ensures var c1 := FRESH.(w := RSntx, pipes := [Pipe(NoProg, Seq, RSntx)]);
            Inv(c1) && Feeds(BEGIN, [Text("fi", false), SemiColon], false, At(c1))
  {
    MisplacedPasses(FRESH, "fi", SemiColon, Seq, false);
    hide Feed;
    assert [] + [Pipe(NoProg, Seq, RSntx)] == [Pipe(NoProg, Seq, RSntx)];
  }

  lemma RoundEnds(toks: seq<Tok>, c: Ctx)
    requires Inv(c) && c.child.NoProg? && c.oldFlag == {} && ParseStream(BEGIN, toks, false) == (At(c), -1, [])
    ensures ParseRound(toks, false) == Some(c.pipes + [Pipe(NoProg, Seq, c.w), TRAILER])
  {
    hide ParseStream;
    IdleWord(At(c));
    assert c.pipes + [Pipe(NoProg, Seq, c.w)] + [TRAILER] == c.pipes + [Pipe(NoProg, Seq, c.w), TRAILER];
  }

  lemma FiReported(b: seq<Tok>)
    ensures Reported([Text("fi", false), SemiColon] + b, false)
  {
    var toks := [Text("fi", false), SemiColon] + b;
    var st := State(FRESH, "fi", false);
    assert "" + "fi" == "fi" && toks[1..][0] == SemiColon;
    assert Take(BEGIN, toks[0], false) == On(st) && EventsAt(BEGIN, toks[0]) == [];
    assert EventsAt(st, SemiColon) == [Complaint(Some(SemiColon))];
    hide EventsAt, Take;
    var es := Events(st, toks[1..], false);
    assert es[0] == Complaint(Some(SemiColon));
    assert Events(BEGIN, toks, false) == [] + es == es;
    hide Events, ParseStream, EventsOf;
    assert RoundEvents(toks, false)[0] == es[0];
  }

  /** `fi` and nothing more reports an error when the round ends, and its empty list is run. */
  lemma PendingFi()
    ensures var toks := [Text("fi", false)];
            && Events(BEGIN, toks, true) == [] && RoundEvents(toks, true) == [Complaint(None)]
            && ParseRound(toks, true) == Some([Pipe(NoProg, Seq, RSntx), TRAILER])
  {
    var toks, st := [Text("fi", false)], State(FRESH, "fi", false);
    assert "" + "fi" == "fi" && toks[1..] == [];
    assert Take(BEGIN, toks[0], true) == On(st) && EventsAt(BEGIN, toks[0]) == [];
    assert ParseStream(BEGIN, toks, true) == ParseStream(st, [], true) == (st, -1, []);
    assert Events(BEGIN, toks, true) == [] + Events(st, [], true) == [];
    assert EventsOf(st, None) == [Complaint(None)];
    assert EndPipe(st, Seq).ctx.pipes == [] + [Pipe(NoProg, Seq, RSntx)] == [Pipe(NoProg, Seq, RSntx)];
    assert [Pipe(NoProg, Seq, RSntx)] + [TRAILER] == [Pipe(NoProg, Seq, RSntx), TRAILER];
  }

  lemma ChoosePlain(look: HushExpand.Lookup, ps: seq<Pipe>, pc: nat, g: Regs)
    requires pc < |ps| && ps[pc].rmode in {RSntx, RNone} && Ready(g)
    ensures Choose(look, ps, pc, g) == if ps[pc].body.NoProg? then Pass(ps, g) else Go(ps, g)
  {
  }

  lemma FiXRuns<S>(m: Machine<S>, turns: nat, s: S)
    ensures Agrees(RunList(m, turns, FI_X, s), ExecList(m, turns, One(Last(Simple(["x"])), Semi), s, 0), FI_X)
  {
    XRuns(m, turns, s);
    assert ForSyntaxOk(FI_X);
    MarkedRuns(m, turns, FI_X, s);
    hide RunFrom, ExecList;
  }

  lemma MarkedRuns<S>(m: Machine<S>, turns: nat, ps: seq<Pipe>, s: S)
    requires |ps| == 4 && ps[1] == Pipe(Prog(["x"]), Seq, RSntx)
    requires forall i :: 0 <= i < 4 ==> ps[i].rmode in {RSntx, RNone} && (i == 1 || ps[i].body.NoProg?)
    ensures var r := m.cmd(["x"], s);
            Agrees(RunFrom(m, turns, ps, 0, START, s, turns), Noted(m, r.0, r.1), ps)
  {
    hide RunFrom, Choose;
    var g, r := START, m.cmd(["x"], s);
    ChoosePlain(m.LookIn(s), ps, 0, g);
    ChoosePlain(m.LookIn(s), ps, 1, g);
    OnPass(m, turns, ps, 0, g, s, turns, g);
    OnGo(m, turns, ps, 1, g, s, turns, g, Fin(r.0, r.1));
    if !Exiting(r.1) {
      var g1, s1 := After(ps[1], g, r.1), Noted(m, r.0, r.1).s;
      ChoosePlain(m.LookIn(s1), ps, 2, g1);
      ChoosePlain(m.LookIn(s1), ps, 3, g1);
      OnPass(m, turns, ps, 2, g1, s1, turns, g1);
      OnPass(m, turns, ps, 3, g1, s1, turns, g1);
      UnfoldEnd(m, turns, ps, 4, g1, s1, turns);
    }
  }

  lemma XRuns<S>(m: Machine<S>, turns: nat, s: S)
    ensures var r := m.cmd(["x"], s);
            ExecList(m, turns, One(Last(Simple(["x"])), Semi), s, 0) == Noted(m, r.0, r.1)
  {
    XIsPlain();
    assert UnescapeAll(["x"]) == ["x"];
    assert ExecChain(m, turns, Last(Simple(["x"])), s, 0) == Noted(m, m.cmd(["x"], s).0, m.cmd(["x"], s).1);
  }
}
