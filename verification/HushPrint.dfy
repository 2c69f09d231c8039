/** Printing a structured program as tokens and parsing it back to its flat pipe list. */
module HushPrint {
  import opened Wrappers
  import opened HushSyntax
  import opened HushExec
  import opened HushRun
  import opened HushRunProof
  import opened HushParse

  function Word(w: string): seq<Tok> { [Text(w, w == ""), Blank] }

  function WordsToks(ws: seq<string>): seq<Tok> {
    if ws == [] then [] else Word(ws[0]) + WordsToks(ws[1..])
  }

  function SepTok(s: Sep): Tok { if s == Semi then SemiColon else Line }
  function OpTok(op: Op): Tok { if op == And then AndAnd else OrOr }
  function LoopWord(k: LoopKind): string { if k == While then "while" else "until" }

  function PrintCmd(c: Cmd): seq<Tok> {
    match c
    case Nothing => []
    case Simple(ws) => WordsToks(ws)
    case If(cond, thn, els) =>
      Word("if") + PrintSection(cond) + Word("then") + PrintSection(thn) + PrintElse(els) + Word("fi")
    case Loop(kind, cond, body) =>
      Word(LoopWord(kind)) + PrintSection(cond) + Word("do") + PrintSection(body) + Word("done")
    case For(name, values, body) =>
      Word("for") + Word(name) + Word("in") + WordsToks(values) + [SemiColon]
      + Word("do") + PrintSection(body) + Word("done")
  }

  function PrintChain(c: Chain): seq<Tok> {
    match c
    case Last(cmd) => PrintCmd(cmd)
    case Link(cmd, op, rest) => PrintCmd(cmd) + [OpTok(op)] + PrintChain(rest)
  }

  function PrintList(l: List): seq<Tok> {
    match l
    case One(chain, sep) => PrintChain(chain) + [SepTok(sep)]
    case More(chain, sep, rest) => PrintChain(chain) + [SepTok(sep)] + PrintList(rest)
  }

  function PrintElse(e: Else): seq<Tok> {
    match e
    case NoElse => []
    case Else(body) => Word("else") + PrintSection(body)
    case Elif(cond, thn, els) =>
      Word("elif") + PrintSection(cond) + Word("then") + PrintSection(thn) + PrintElse(els)
  }

  function PrintSection(x: Section): seq<Tok> { if x.Of? then PrintList(x.list) else [] }

  // A word in command position must not be a reserved one

  predicate OkCmd(c: Cmd) {
    match c
    case Nothing => true
    case Simple(ws) => ws != [] && Reserved(ws[0]).None?
    case If(cond, thn, els) => OkSection(cond) && OkSection(thn) && OkElse(els)
    case Loop(_, cond, body) => OkSection(cond) && OkSection(body)
    case For(name, values, body) =>
      Reserved(name).None? && (values != [] ==> Reserved(values[0]).None?) && OkSection(body)
  }

  predicate OkChain(c: Chain) { OkCmd(c.cmd) && (c.Link? ==> OkChain(c.rest)) }
  predicate OkList(l: List) { OkChain(l.chain) && (l.More? ==> OkList(l.rest)) }

  predicate OkSection(x: Section) { x.Of? ==> OkList(x.list) }

  predicate OkElse(e: Else) {
    match e
    case NoElse => true
    case Else(body) => OkSection(body)
    case Elif(cond, thn, els) => OkSection(cond) && OkSection(thn) && OkElse(els)
  }

  /** One input line: separated by semicolons, ended by a newline. */
  predicate OneLine(l: List) {
    if l.One? then l.sep == Newline else l.sep == Semi && OneLine(l.rest)
  }

  predicate AllSemi(l: List) { l.sep == Semi && (l.More? ==> AllSemi(l.rest)) }

  // Feeding tokens without the stream ending

  function Feed(st: State, toks: seq<Tok>, cont: bool): (r: Option<State>)
    requires Inv(st.ctx)
    ensures r.Some? ==> Inv(r.value.ctx)
    decreases |toks|
  {
    if toks == [] then Some(st)
    else
      match Take(st, toks[0], cont)
      case On(st1) => Feed(st1, toks[1..], cont)
      case Return(_, _) => None
  }

  lemma {:induction false} FeedJoin(st: State, a: seq<Tok>, b: seq<Tok>, cont: bool)
    requires Inv(st.ctx) && Feed(st, a, cont).Some?
    ensures Feed(st, a + b, cont) == Feed(Feed(st, a, cont).value, b, cont)
    decreases |a|
  {
    if a == [] {
      assert a + b == b;
    } else {
      assert (a + b)[1..] == a[1..] + b;
      FeedJoin(Take(st, a[0], cont).st, a[1..], b, cont);
    }
  }

  lemma {:induction false} ParseAfterFeed(st: State, a: seq<Tok>, b: seq<Tok>, cont: bool)
    requires Inv(st.ctx) && Feed(st, a, cont).Some?
    ensures ParseStream(st, a + b, cont) == ParseStream(Feed(st, a, cont).value, b, cont)
    decreases |a|
  {
    if a == [] {
      assert a + b == b;
    } else {
      assert (a + b)[1..] == a[1..] + b;
      ParseAfterFeed(Take(st, a[0], cont).st, a[1..], b, cont);
    }
  }

  /** `Feeds(st, toks, st')`: the tokens take the parser from st to st'. */
  ghost predicate Feeds(st: State, toks: seq<Tok>, cont: bool, st': State) {
    Inv(st.ctx) && Feed(st, toks, cont) == Some(st')
  }

  lemma FeedsThen(st: State, a: seq<Tok>, st1: State, b: seq<Tok>, st2: State, cont: bool)
    requires Feeds(st, a, cont, st1) && Feeds(st1, b, cont, st2)
    ensures Feeds(st, a + b, cont, st2)
  {
    FeedJoin(st, a, b, cont);
  }

  function At(c: Ctx): State { State(c, "", false) }

  lemma FeedsWord(c: Ctx, w: string, cont: bool)
    requires Inv(c) && !DoneWord(State(c, w, w == "")).1
    ensures Feeds(At(c), Word(w), cont, DoneWord(State(c, w, w == "")).0)
  {
    hide DoneWord;
    var st1 := State(c, w, w == "");
    var toks := Word(w);
    assert toks[0] == Text(w, w == "") && toks[1..] == [Blank];
    assert "" + w == w;
    assert Take(At(c), toks[0], cont) == On(st1);
    assert Take(st1, Blank, cont) == On(DoneWord(st1).0);
    assert Feed(st1, [Blank], cont) == Feed(DoneWord(st1).0, [], cont);
  }

  lemma FeedsTok(st: State, t: Tok, cont: bool)
    requires Inv(st.ctx) && Take(st, t, cont).On?
    ensures Feeds(st, [t], cont, Take(st, t, cont).st)
  {
    hide Take;
    assert [t][1..] == [];
    assert Feed(Take(st, t, cont).st, [], cont) == Some(Take(st, t, cont).st);
  }

  /** A word that is not reserved is one more argument. */
  lemma FeedsArg(c: Ctx, w: string, cont: bool)
    requires Inv(c) && c.w != RFor && (c.child.Prog? || (c.child.NoProg? && Reserved(w).None?))
    ensures var argv := if c.child.Prog? then c.child.argv else [];
            var c1 := c.(child := Prog(argv + [Unescape(w)]));
            Inv(c1) && Feeds(At(c), Word(w), cont, At(c1))
  {
    hide Feed, Reserved;
    FeedsWord(c, w, cont);
  }

  /** The words of a simple command, or of an `in` section, collect into one program. */
  lemma {:induction false} FeedsWords(c: Ctx, ws: seq<string>, cont: bool)
    requires Inv(c) && c.w != RFor && ws != [] && (c.child.Prog? || (c.child.NoProg? && Reserved(ws[0]).None?))
    ensures Feeds(At(c), WordsToks(ws), cont,
                  At(c.(child := Prog((if c.child.Prog? then c.child.argv else []) + UnescapeAll(ws)))))
    decreases |ws|
  {
    hide Feed, Reserved, Word, Inv;
    var argv := if c.child.Prog? then c.child.argv else [];
    var c1 := c.(child := Prog(argv + [Unescape(ws[0])]));
    FeedsArg(c, ws[0], cont);
    if |ws| == 1 {
      assert WordsToks(ws) == Word(ws[0]);
      assert UnescapeAll(ws) == [Unescape(ws[0])];
    } else {
      FeedsWords(c1, ws[1..], cont);
      assert argv + [Unescape(ws[0])] + UnescapeAll(ws[1..]) == argv + UnescapeAll(ws);
      FeedsThen(At(c), Word(ws[0]), At(c1), WordsToks(ws[1..]),
                At(c.(child := Prog(argv + UnescapeAll(ws)))), cont);
    }
  }

  // Reserved words

  lemma FeedsOpening(c: Ctx, word: string, cont: bool)
    requires Inv(c) && Waiting(c) && Reserved(word).Some? && RXxxx in Reserved(word).value.1
    ensures Feeds(At(c), Word(word), cont,
                  At(Ctx([], NoProg, Reserved(word).value.0, Reserved(word).value.1, Under(c))))
  {
    hide Feed, Reserved;
    NotEmpty(word);
    FeedsWord(c, word, cont);
  }

  lemma FeedsSection(c: Ctx, word: string, cont: bool)
    requires Inv(c) && c.child.NoProg? && Reserved(word).Some? && Reserved(word).value.0 in c.oldFlag
    requires RXxxx !in Reserved(word).value.1 && RNone !in Reserved(word).value.1
    ensures Feeds(At(c), Word(word), cont, At(c.(w := Reserved(word).value.0, oldFlag := Reserved(word).value.1)))
  {
    hide Feed, Reserved;
    NotEmpty(word);
    FeedsWord(c, word, cont);
  }

  lemma FeedsClosing(c: Ctx, word: string, cont: bool)
    requires Inv(c) && c.child.NoProg? && Reserved(word).Some? && Reserved(word).value.0 in c.oldFlag
    requires RXxxx !in Reserved(word).value.1 && RNone in Reserved(word).value.1
    requires c.stack.Under? && c.stack.ctx.w != RSntx
    ensures Feeds(At(c), Word(word), cont,
                  At(c.stack.ctx.(child := Group(c.pipes + Closing(Reserved(word).value.0)))))
  {
    hide Feed, Reserved;
    NotEmpty(word);
    FeedsWord(c, word, cont);
    var code := Reserved(word).value.0;
    assert c.pipes + [Pipe(NoProg, Seq, code)] + [TRAILER] == c.pipes + Closing(code);
  }

  lemma NotEmpty(word: string)
    requires Reserved(word).Some?
    ensures word != ""
  {
  }

  // The syntax, bottom up

  /** In this context a command may start, and a newline does not end the stream. */
  predicate Receptive(c: Ctx) { Inv(c) && Waiting(c) && c.w != RSntx }

  predicate Lasting(c: Ctx, cont: bool) { cont || c.w != RNone }

  lemma {:induction false} FeedsCmd(cmd: Cmd, c: Ctx, cont: bool)
    requires Receptive(c) && OkCmd(cmd)
    ensures Feeds(At(c), PrintCmd(cmd), cont, At(c.(child := FlatCmd(cmd))))
    decreases CmdSize(cmd), 0
  {
    match cmd
    case Nothing => assert c.(child := NoProg) == c;
    case Simple(ws) =>
      assert [] + UnescapeAll(ws) == UnescapeAll(ws);
      FeedsWords(c, ws, cont);
    case If(_, _, _) => FeedsIf(cmd, c, cont);
    case Loop(_, _, _) => FeedsLoop(cmd, c, cont);
    case For(_, _, _) => FeedsFor(cmd, c, cont);
  }

  lemma FeedsSep(c: Ctx, t: Tok, f: Followup, cont: bool)
    requires Inv(c)
    requires (t, f) in {(SemiColon, Seq), (AndAnd, AndIf), (OrOr, OrIf)} || (t == Line && f == Seq && Lasting(c, cont))
    ensures Feeds(At(c), [t], cont, At(c.(pipes := c.pipes + [Pipe(c.child, f, c.w)], child := NoProg)))
  {
    hide Feed;
    assert Take(At(c), t, cont) == On(At(DonePipe(c, f)));
    FeedsTok(At(c), t, cont);
  }

  /** The context after a chain that has not been ended yet. */
  function InChain(ch: Chain, c: Ctx): (c': Ctx)
    decreases ch
  {
    match ch
    case Last(cmd) => c.(child := FlatCmd(cmd))
    case Link(cmd, op, rest) => InChain(rest, c.(pipes := c.pipes + [Pipe(FlatCmd(cmd), OpFollowup(op), c.w)]))
  }

  lemma {:induction false} InChainEnds(ch: Chain, c: Ctx)
    requires c.child.NoProg?
    ensures var c' := InChain(ch, c);
            c'.(pipes := c'.pipes + [Pipe(c'.child, Seq, c'.w)], child := NoProg)
            == c.(pipes := c.pipes + FlatChain(ch, c.w))
    ensures InChain(ch, c).w == c.w
    decreases ch
  {
    hide FlatCmd;
    if ch.Link? {
      var p := [Pipe(FlatCmd(ch.cmd), OpFollowup(ch.op), c.w)];
      var c1 := c.(pipes := c.pipes + p);
      InChainEnds(ch.rest, c1);
      assert c.pipes + p + FlatChain(ch.rest, c.w) == c.pipes + (p + FlatChain(ch.rest, c.w));
    }
  }

  lemma {:induction false} FeedsChain(ch: Chain, c: Ctx, cont: bool)
    requires Receptive(c) && OkChain(ch)
    ensures Feeds(At(c), PrintChain(ch), cont, At(InChain(ch, c)))
    decreases ChainSize(ch), 0
  {
    FeedsCmd(ch.cmd, c, cont);
    if ch.Link? {
      hide Feed, FlatCmd, PrintCmd, OkCmd;
      var c1 := c.(child := FlatCmd(ch.cmd));
      var p := Pipe(c1.child, OpFollowup(ch.op), c.w);
      var c2 := c.(pipes := c.pipes + [p], child := NoProg);
      FeedsSep(c1, OpTok(ch.op), p.followup, cont);
      FeedsThen(At(c), PrintCmd(ch.cmd), At(c1), [OpTok(ch.op)], At(c2), cont);
      FeedsChain(ch.rest, c2, cont);
      FeedsThen(At(c), PrintCmd(ch.cmd) + [OpTok(ch.op)], At(c2), PrintChain(ch.rest), At(InChain(ch, c)), cont);
    }
  }

  lemma {:induction false} FeedsEnded(ch: Chain, sep: Sep, c: Ctx, cont: bool)
    requires Receptive(c) && OkChain(ch) && (sep == Newline ==> Lasting(c, cont))
    ensures Feeds(At(c), PrintChain(ch) + [SepTok(sep)], cont, At(c.(pipes := c.pipes + FlatChain(ch, c.w))))
    decreases ChainSize(ch), 1
  {
    hide Feed, FlatChain, PrintChain, OkChain, InChain;
    var c1 := InChain(ch, c);
    FeedsChain(ch, c, cont);
    InChainEnds(ch, c);
    FeedsSep(c1, SepTok(sep), Seq, cont);
    FeedsThen(At(c), PrintChain(ch), At(c1), [SepTok(sep)], At(c.(pipes := c.pipes + FlatChain(ch, c.w))), cont);
  }

  lemma {:induction false} FeedsList(l: List, c: Ctx, cont: bool)
    requires Receptive(c) && OkList(l) && (Lasting(c, cont) || AllSemi(l))
    ensures Feeds(At(c), PrintList(l), cont, At(c.(pipes := c.pipes + FlatList(l, c.w))))
    decreases ListSize(l), 0
  {
    hide Feed;
    FeedsEnded(l.chain, l.sep, c, cont);
    if l.More? {
      var c1 := c.(pipes := c.pipes + FlatChain(l.chain, c.w));
      assert Receptive(c1);
      FeedsList(l.rest, c1, cont);
      assert c1.pipes + FlatList(l.rest, c.w) == c.pipes + FlatList(l, c.w);
      FeedsThen(At(c), PrintChain(l.chain) + [SepTok(l.sep)], At(c1), PrintList(l.rest),
                At(c.(pipes := c.pipes + FlatList(l, c.w))), cont);
    }
  }

  const AFTER_THEN: set<Res> := {RElif, RElse, RFi}

  /** The context after the `elif` and `else` sections of an `if`. */
  function PastElse(e: Else, c: Ctx): (c': Ctx)
    decreases e
  {
    match e
    case NoElse => c
    case Else(body) => c.(pipes := c.pipes + FlatSection(body, RElse), w := RElse, oldFlag := {RFi})
    case Elif(cond, thn, els) =>
      PastElse(els, PastClause(cond, thn, c))
  }

  lemma {:induction false} PastElseIs(e: Else, c: Ctx)
    requires c.oldFlag == AFTER_THEN
    ensures var c' := PastElse(e, c);
            && c'.pipes == c.pipes + FlatElse(e) && RFi in c'.oldFlag
            && c'.stack == c.stack && c'.child == c.child
    decreases e
  {
    match e
    case NoElse =>
    case Else(_) =>
    case Elif(cond, thn, els) =>
      var c1 := PastClause(cond, thn, c);
      PastElseIs(els, c1);
      assert c1.pipes + FlatElse(els) == c.pipes + FlatElse(e);
  }

  /** What stands in a section, if anything. */
  lemma {:induction false} FeedsPart(x: Section, c: Ctx, cont: bool)
    requires Receptive(c) && OkSection(x) && Lasting(c, cont)
    ensures Feeds(At(c), PrintSection(x), cont, At(c.(pipes := c.pipes + FlatSection(x, c.w))))
    decreases SectionSize(x), 0
  {
    if x.Of? {
      FeedsList(x.list, c, cont);
    } else {
      assert c.(pipes := c.pipes + []) == c;
    }
  }

  /** A reserved word and the section it opens. */
  lemma {:induction false} FeedsWordSection(word: string, x: Section, c: Ctx, cont: bool)
    requires Inv(c) && c.child.NoProg? && OkSection(x) && Reserved(word).Some? && Reserved(word).value.0 in c.oldFlag
    requires RXxxx !in Reserved(word).value.1 && RNone !in Reserved(word).value.1
    requires Reserved(word).value.0 !in {RFor, RIn}
    ensures var entry := Reserved(word).value;
            Feeds(At(c), Word(word) + PrintSection(x), cont,
                  At(c.(w := entry.0, oldFlag := entry.1, pipes := c.pipes + FlatSection(x, entry.0))))
    decreases SectionSize(x), 1
  {
    hide Feed, Reserved;
    var entry := Reserved(word).value;
    var c1 := c.(w := entry.0, oldFlag := entry.1);
    FeedsSection(c, word, cont);
    FeedsPart(x, c1, cont);
    FeedsThen(At(c), Word(word), At(c1), PrintSection(x), At(c1.(pipes := c.pipes + FlatSection(x, entry.0))), cont);
  }

  lemma {:induction false} FeedsElse(e: Else, c: Ctx, cont: bool)
    requires Inv(c) && c.child.NoProg? && c.w == RThen && c.oldFlag == AFTER_THEN && OkElse(e)
    ensures Feeds(At(c), PrintElse(e), cont, At(PastElse(e, c)))
    decreases ElseSize(e), 0
  {
    hide Feed;
    match e
    case NoElse => assert Feed(At(c), [], cont) == Some(At(c)) by { FeedsNothing(At(c), cont); }
    case Else(body) => FeedsWordSection("else", body, c, cont);
    case Elif(cond, thn, els) =>
      var c2 := PastClause(cond, thn, c);
      FeedsClause(cond, thn, c, cont);
      FeedsElse(els, c2, cont);
      hide FlatSection, PrintSection, At, Word;
      var a, b := Word("elif") + PrintSection(cond), Word("then") + PrintSection(thn);
      FeedsThen(At(c), a + b, At(c2), PrintElse(els), At(PastElse(els, c2)), cont);
      FourParts(Word("elif"), PrintSection(cond), Word("then"), PrintSection(thn));
  }

  lemma FeedsNothing(st: State, cont: bool)
    requires Inv(st.ctx)
    ensures Feed(st, [], cont) == Some(st)
  {
  }

  lemma FourParts<T>(a: seq<T>, b: seq<T>, c: seq<T>, d: seq<T>)
    ensures a + b + (c + d) == a + b + c + d
  {
  }

  /** The context after one `elif` clause. */
  function PastClause(cond: Section, thn: Section, c: Ctx): (c': Ctx) {
    c.(pipes := c.pipes + FlatSection(cond, RElif) + FlatSection(thn, RThen))
  }

  lemma {:induction false} FeedsClause(cond: Section, thn: Section, c: Ctx, cont: bool)
    requires Inv(c) && c.child.NoProg? && c.w == RThen && c.oldFlag == AFTER_THEN && OkSection(cond) && OkSection(thn)
    ensures Feeds(At(c), Word("elif") + PrintSection(cond) + (Word("then") + PrintSection(thn)), cont,
                  At(PastClause(cond, thn, c)))
    ensures Inv(PastClause(cond, thn, c))
    decreases SectionSize(cond) + SectionSize(thn), 2
  {
    hide Feed, FlatSection, PrintSection, OkSection, Word;
    var c1 := c.(w := RElif, oldFlag := {RThen}, pipes := c.pipes + FlatSection(cond, RElif));
    FeedsWordSection("elif", cond, c, cont);
    FeedsWordSection("then", thn, c1, cont);
    FeedsThen(At(c), Word("elif") + PrintSection(cond), At(c1), Word("then") + PrintSection(thn),
              At(PastClause(cond, thn, c)), cont);
  }

  /** An opening word and the list that follows it. */
  lemma {:induction false} FeedsOpenSection(word: string, x: Section, c: Ctx, cont: bool)
    requires Receptive(c) && OkSection(x) && Reserved(word).Some? && RXxxx in Reserved(word).value.1
    requires Reserved(word).value.0 != RFor
    ensures var entry := Reserved(word).value;
            Feeds(At(c), Word(word) + PrintSection(x), cont,
                  At(Ctx(FlatSection(x, entry.0), NoProg, entry.0, entry.1, Under(c))))
    decreases SectionSize(x), 1
  {
    hide Feed, Reserved;
    var entry := Reserved(word).value;
    var c1 := Ctx([], NoProg, entry.0, entry.1, Under(c));
    OpeningCode(word);
    FeedsOpening(c, word, cont);
    FeedsPart(x, c1, cont);
    assert [] + FlatSection(x, entry.0) == FlatSection(x, entry.0);
    FeedsThen(At(c), Word(word), At(c1), PrintSection(x), At(c1.(pipes := FlatSection(x, entry.0))), cont);
  }

  lemma OpeningCode(word: string)
    requires Reserved(word).Some? && RXxxx in Reserved(word).value.1
    ensures Reserved(word).value.0 in {RIf, RWhile, RUntil, RFor}
  {
  }

  lemma {:induction false} FeedsIf(cmd: Cmd, c: Ctx, cont: bool)
    requires cmd.If? && Receptive(c) && OkCmd(cmd)
    ensures Feeds(At(c), PrintCmd(cmd), cont, At(c.(child := FlatCmd(cmd))))
    decreases CmdSize(cmd) - 1, 1
  {
    hide Feed, FlatSection, PrintSection, Word;
    var f1, f2 := FlatSection(cmd.cond, RIf), FlatSection(cmd.thn, RThen);
    var t1, t2 := Word("if") + PrintSection(cmd.cond), Word("then") + PrintSection(cmd.thn);
    var c1 := Ctx(f1, NoProg, RIf, {RThen, RXxxx}, Under(c));
    var c2 := Ctx(f1 + f2, NoProg, RThen, AFTER_THEN, Under(c));
    var c3 := PastElse(cmd.els, c2);
    FeedsOpenSection("if", cmd.cond, c, cont);
    FeedsWordSection("then", cmd.thn, c1, cont);
    FeedsThen(At(c), t1, At(c1), t2, At(c2), cont);
    FeedsElse(cmd.els, c2, cont);
    FeedsThen(At(c), t1 + t2, At(c2), PrintElse(cmd.els), At(c3), cont);
    PastElseIs(cmd.els, c2);
    FeedsClosing(c3, "fi", cont);
    FeedsThen(At(c), t1 + t2 + PrintElse(cmd.els), At(c3), Word("fi"), At(c.(child := FlatCmd(cmd))), cont);
    assert t1 + t2 + PrintElse(cmd.els) + Word("fi") == PrintCmd(cmd);
  }

  lemma {:induction false} FeedsLoop(cmd: Cmd, c: Ctx, cont: bool)
    requires cmd.Loop? && Receptive(c) && OkCmd(cmd)
    ensures Feeds(At(c), PrintCmd(cmd), cont, At(c.(child := FlatCmd(cmd))))
    decreases CmdSize(cmd) - 1, 1
  {
    hide Feed, FlatSection, PrintSection, Word;
    var mode, word := LoopMode(cmd.kind), LoopWord(cmd.kind);
    var f1, f2 := FlatSection(cmd.cond, mode), FlatSection(cmd.body, RDo);
    var t1, t2 := Word(word) + PrintSection(cmd.cond), Word("do") + PrintSection(cmd.body);
    var c1 := Ctx(f1, NoProg, mode, {RDo, RXxxx}, Under(c));
    var c2 := Ctx(f1 + f2, NoProg, RDo, {RDone}, Under(c));
    FeedsOpenSection(word, cmd.cond, c, cont);
    FeedsWordSection("do", cmd.body, c1, cont);
    FeedsThen(At(c), t1, At(c1), t2, At(c2), cont);
    FeedsClosing(c2, "done", cont);
    FeedsThen(At(c), t1 + t2, At(c2), Word("done"), At(c.(child := FlatCmd(cmd))), cont);
    assert t1 + t2 + Word("done") == PrintCmd(cmd);
  }

  /** `for NAME in WORDS ;` */
  lemma {:induction false} FeedsForHead(cmd: Cmd, c: Ctx, cont: bool)
    requires cmd.For? && Receptive(c) && OkCmd(cmd)
    ensures Feeds(At(c), Word("for") + Word(cmd.name) + Word("in") + WordsToks(cmd.values) + [SemiColon], cont,
                  At(Ctx(ForHead(cmd.name, cmd.values), NoProg, RIn, {RDo}, Under(c))))
  {
    hide Feed;
    var head := [Pipe(Prog([Unescape(cmd.name)]), Seq, RFor)];
    var c1 := Ctx([], NoProg, RFor, {RIn, RXxxx}, Under(c));
    var c2 := c1.(pipes := head);
    var c3 := Ctx(head, NoProg, RIn, {RDo}, Under(c));
    FeedsOpening(c, "for", cont);
    FeedsWord(c1, cmd.name, cont);
    assert [] + [Unescape(cmd.name)] == [Unescape(cmd.name)];
    assert [] + head == head;
    FeedsThen(At(c), Word("for"), At(c1), Word(cmd.name), At(c2), cont);
    FeedsSection(c2, "in", cont);
    var t := Word("for") + Word(cmd.name);
    FeedsThen(At(c), t, At(c2), Word("in"), At(c3), cont);
    FeedsForValues(cmd, c, c3, t + Word("in"), cont);
    assert head + [ForHead(cmd.name, cmd.values)[1]] == ForHead(cmd.name, cmd.values);
  }

  lemma {:induction false} FeedsForValues(cmd: Cmd, c: Ctx, c3: Ctx, t: seq<Tok>, cont: bool)
    requires cmd.For? && OkCmd(cmd) && Inv(c3) && c3.child.NoProg? && c3.w == RIn && Feeds(At(c), t, cont, At(c3))
    ensures Feeds(At(c), t + WordsToks(cmd.values) + [SemiColon], cont,
                  At(c3.(pipes := c3.pipes + [ForHead(cmd.name, cmd.values)[1]])))
  {
    hide Feed;
    var c4 := c3.(child := if cmd.values == [] then NoProg else Prog(UnescapeAll(cmd.values)));
    if cmd.values == [] {
      assert t + WordsToks(cmd.values) == t;
    } else {
      FeedsWords(c3, cmd.values, cont);
      assert [] + UnescapeAll(cmd.values) == UnescapeAll(cmd.values);
      FeedsThen(At(c), t, At(c3), WordsToks(cmd.values), At(c4), cont);
    }
    FeedsSep(c4, SemiColon, Seq, cont);
    FeedsThen(At(c), t + WordsToks(cmd.values), At(c4), [SemiColon],
              At(c3.(pipes := c3.pipes + [Pipe(c4.child, Seq, RIn)])), cont);
  }

  lemma {:induction false} FeedsFor(cmd: Cmd, c: Ctx, cont: bool)
    requires cmd.For? && Receptive(c) && OkCmd(cmd)
    ensures Feeds(At(c), PrintCmd(cmd), cont, At(c.(child := FlatCmd(cmd))))
    decreases CmdSize(cmd) - 1, 2
  {
    hide Feed, FlatSection, PrintSection, Word, WordsToks, ForHead;
    var t1 := Word("for") + Word(cmd.name) + Word("in") + WordsToks(cmd.values) + [SemiColon];
    var t2 := Word("do") + PrintSection(cmd.body);
    var head := ForHead(cmd.name, cmd.values);
    var c1 := Ctx(head, NoProg, RIn, {RDo}, Under(c));
    var c2 := Ctx(head + FlatSection(cmd.body, RDo), NoProg, RDo, {RDone}, Under(c));
    FeedsForHead(cmd, c, cont);
    FeedsWordSection("do", cmd.body, c1, cont);
    FeedsThen(At(c), t1, At(c1), t2, At(c2), cont);
    FeedsClosing(c2, "done", cont);
    FeedsThen(At(c), t1 + t2, At(c2), Word("done"), At(c.(child := FlatCmd(cmd))), cont);
    assert t1 + t2 + Word("done") == PrintCmd(cmd);
  }

  // Whole programs

  /** The last chain of a line and its newline. */
  lemma {:induction false} ParsesLine(l: List, c: Ctx)
    requires Receptive(c) && c.w == RNone && OkList(l) && OneLine(l)
    ensures ParseStream(At(c), PrintList(l), false) == (At(c.(pipes := c.pipes + FlatList(l, RNone))), 0, [])
    decreases l
  {
    hide Feed, PrintChain, FlatChain, OkChain;
    var t := PrintChain(l.chain);
    if l.One? {
      var c1 := InChain(l.chain, c);
      FeedsChain(l.chain, c, false);
      ParseAfterFeed(At(c), t, [Line], false);
      InChainEnds(l.chain, c);
      assert Take(At(c1), Line, false) == Return(At(DonePipe(c1, Seq)), 0);
    } else {
      var c1 := c.(pipes := c.pipes + FlatChain(l.chain, RNone));
      FeedsEnded(l.chain, Semi, c, false);
      ParseAfterFeed(At(c), t + [SemiColon], PrintList(l.rest), false);
      ParsesLine(l.rest, c1);
      assert c1.pipes + FlatList(l.rest, RNone) == c.pipes + FlatList(l, RNone);
    }
  }

  /** Reading one printed line gives its flat list, ready to run, and leaves nothing open. */
  lemma ParsePrintLine(l: List)
    requires OkList(l) && OneLine(l)
    ensures ParseRound(PrintList(l), false) == Some(FlatProgram(l))
  {
    ParsesLine(l, FRESH);
    assert [] + FlatList(l, RNone) == FlatList(l, RNone);
    assert FlatList(l, RNone) + [Pipe(NoProg, Seq, RNone)] + [TRAILER] == FlatProgram(l);
  }

  /** With FLAG_CONT_ON_NEWLINE a printed script of any number of lines does. */
  lemma ParsePrintScript(l: List)
    requires OkList(l)
    ensures ParseRound(PrintList(l), true) == Some(FlatProgram(l))
  {
    hide Feed;
    FeedsList(l, FRESH, true);
    assert PrintList(l) + [] == PrintList(l);
    ParseAfterFeed(At(FRESH), PrintList(l), [], true);
    assert [] + FlatList(l, RNone) == FlatList(l, RNone);
    assert FlatList(l, RNone) + [Pipe(NoProg, Seq, RNone)] + [TRAILER] == FlatProgram(l);
  }

  /** Printing a program, parsing the text and running the resulting list has exactly the
      structured outcome of the program. */
  lemma ShellPreservesMeaning<S>(m: Machine<S>, turns: nat, l: List, s: S)
    requires OkList(l) && LegibleList(l)
    ensures ParseRound(PrintList(l), true).Some?
    ensures Agrees(RunList(m, turns, ParseRound(PrintList(l), true).value, s),
                   ExecList(m, turns, l, s, 0), FlatProgram(l))
    ensures OneLine(l) ==> ParseRound(PrintList(l), false) == ParseRound(PrintList(l), true)
  {
    ParsePrintScript(l);
    if OneLine(l) { ParsePrintLine(l); }
    RunIsExec(m, turns, l, s);
  }
}
