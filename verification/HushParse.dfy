/**
 The hush parser at token level: parse_stream, done_word, reserved_word, done_pipe and one
 round of parse_stream_outer. The functions on `Ctx` are the specification; the class
 `Parser` updates its fields in place as the C code does.
 */
module HushParse {
  import opened Wrappers
  import opened HushSyntax

  /** What parse_stream's character loop distinguishes. `Text` is a piece of a word after
      quote handling; `quoted` pieces make even an empty word count. */
  datatype Tok =
    | Text(text: string, quoted: bool)
    | Blank | Line | SemiColon | AndAnd | OrOr
    | LoneAmp | LoneBar

  /** struct p_context. `pipes` are the finished pipes of the current list, `child` is what
      the open pipe holds so far; `oldFlag` is the bit mask old_flag as a set of codes, with
      RNone for FLAG_END and RXxxx for FLAG_START. */
  datatype Ctx = Ctx(pipes: seq<Pipe>, child: Body, w: Res, oldFlag: set<Res>, stack: Stack)
  datatype Stack = Bottom | Under(ctx: Ctx)

  const FRESH := Ctx([], NoProg, RNone, {}, Bottom)

  /** reserved_list: the code of a reserved word and the words that may follow it. */
  function Reserved(word: string): (r: Option<(Res, set<Res>)>)
    ensures r.Some? ==> r.value.0 !in {RNone, RXxxx, RSntx} && r.value.1 != {} && !({RNone, RXxxx} <= r.value.1)
  {
    if word == "if" then Some((RIf, {RThen, RXxxx}))
    else if word == "then" then Some((RThen, {RElif, RElse, RFi}))
    else if word == "elif" then Some((RElif, {RThen}))
    else if word == "else" then Some((RElse, {RFi}))
    else if word == "fi" then Some((RFi, {RNone}))
    else if word == "for" then Some((RFor, {RIn, RXxxx}))
    else if word == "while" then Some((RWhile, {RDo, RXxxx}))
    else if word == "until" then Some((RUntil, {RDo, RXxxx}))
    else if word == "in" then Some((RIn, {RDo}))
    else if word == "do" then Some((RDo, {RDone}))
    else if word == "done" then Some((RDone, {RNone}))
    else None
  }

  // What holds of every context the parser ever reaches

  /** run_list_real takes the first word of a FOR pipe and all words of an IN pipe without
      looking whether the pipe holds a group instead. */
  predicate SafePipe(p: Pipe) {
    && (p.rmode in {RFor, RIn} ==> !p.body.Group?)
    && SafeBody(p.body)
  }

  predicate SafeBody(b: Body) {
    match b
    case NoProg => true
    case Prog(argv) => argv != []
    case Group(list) => SafePipes(list)
  }

  predicate SafePipes(ps: seq<Pipe>) {
    forall i :: 0 <= i < |ps| ==> SafePipe(ps[i])
  }

  predicate Inv(c: Ctx) {
    && (c.oldFlag == {} <==> c.stack.Bottom?)
    && (c.stack.Bottom? ==> c.w in {RNone, RSntx})
    && (c.stack.Under? ==> c.w != RNone && Waiting(c.stack.ctx) && Inv(c.stack.ctx))
    && (c.w in {RFor, RIn} ==> !c.child.Group?)
    && SafePipes(c.pipes) && SafeBody(c.child)
  }

  /** A suspended context: its open pipe is empty and may take a group. */
  predicate Waiting(c: Ctx) {
    c.child.NoProg? && c.w !in {RFor, RIn}
  }

  /** How many compounds are open. */
  function Open(c: Ctx): nat {
    if c.stack.Bottom? then 0 else 1 + Open(c.stack.ctx)
  }

  function DonePipe(c: Ctx, f: Followup): (c': Ctx)
    requires Inv(c)
    ensures Inv(c')
  {
    c.(pipes := c.pipes + [Pipe(c.child, f, c.w)], child := NoProg)
  }

  /** The end of a compound: its list becomes the group of the context below. */
  function Pop(c: Ctx): (c': Ctx)
    requires Inv(c) && c.stack.Under?
    ensures Inv(c')
  {
    var list := DonePipe(c, Seq).pipes + [TRAILER];
    assert SafeBody(Group(list));
    assert Inv(c.stack.ctx);
    c.stack.ctx.(child := Group(list))
  }

  /** None when the word is not reserved. The stack is never empty where a compound ends:
      that is the precondition of `Pop`. */
  function ReservedWord(word: string, c: Ctx): (r: Option<Ctx>)
    requires Inv(c) && c.child.NoProg?
    ensures r.Some? ==> Inv(r.value)
  {
    match Reserved(word)
    case None => None
    case Some(entry) =>
      var code, flag := entry.0, entry.1;
      if RXxxx in flag then
        if c.w in {RIn, RFor} then Some(c.(w := RSntx))
        else Some(Ctx([], NoProg, code, flag, Under(c)))
      else if c.w == RNone || code !in c.oldFlag then Some(c.(w := RSntx))
      else if RNone in flag then Some(Pop(c.(w := code, oldFlag := flag)))
      else Some(c.(w := code, oldFlag := flag))
  }

  /** The word being collected and the context. */
  datatype State = State(ctx: Ctx, dest: string, nonnull: bool)

  predicate Idle(st: State) { st.dest == "" && !st.nonnull }

  /** `err` is the nonzero return of done_word; the word stays pending only when a group
      is followed by a word. */
  function DoneWord(st: State): (r: (State, bool))
    requires Inv(st.ctx)
    ensures Inv(r.0.ctx)
  {
    var c := st.ctx;
    if Idle(st) then (st, false)
    else if c.child.Group? then (st, true)
    else
      var reserved := if c.child.NoProg? then ReservedWord(st.dest, c) else None;
      if reserved.Some? then (State(reserved.value, "", false), reserved.value.w == RSntx)
      else
        var argv := (if c.child.Prog? then c.child.argv else []) + [Unescape(st.dest)];
        var c' := c.(child := Prog(argv));
        (State(if c.w == RFor then DonePipe(c', Seq) else c', "", false), false)
  }

  /** The effect of one token, or the value parse_stream returns on it. With `cont`
      (FLAG_CONT_ON_NEWLINE) a newline never ends the stream. */
  datatype Step = On(st: State) | Return(st: State, code: int)

  function Take(st: State, t: Tok, cont: bool): (r: Step)
    requires Inv(st.ctx)
    ensures Inv(r.st.ctx)
    ensures r.Return? && r.code == 0 ==> r.st.ctx.stack.Bottom? && Idle(r.st)
  {
    match t
    case Text(text, quoted) => On(st.(dest := st.dest + text, nonnull := st.nonnull || quoted))
    case Blank =>
      var (st1, err) := DoneWord(st);
      if err then Return(st1, 1) else On(st1)
    case Line =>
      var (st1, err) := DoneWord(st);
      if err then Return(st1, 1)
      else
        var st2 := st1.(ctx := DonePipe(st1.ctx, Seq));
        if !cont && st2.ctx.w == RNone then Return(st2, 0) else On(st2)
    case SemiColon => On(EndPipe(st, Seq))
    case AndAnd => On(EndPipe(st, AndIf))
    case OrOr => On(EndPipe(st, OrIf))
    case LoneAmp => Return(DoneWord(st).0, 1)
    case LoneBar => Return(DoneWord(st).0, 1)
  }

  /** The operators ignore the result of done_word. */
  function EndPipe(st: State, f: Followup): (st': State)
    requires Inv(st.ctx)
    ensures Inv(st'.ctx)
  {
    var st1 := DoneWord(st).0;
    st1.(ctx := DonePipe(st1.ctx, f))
  }

  /** parse_stream: the final state, the return code and the unread tokens. */
  function ParseStream(st: State, toks: seq<Tok>, cont: bool): (r: (State, int, seq<Tok>))
    requires Inv(st.ctx)
    ensures Inv(r.0.ctx)
    ensures r.1 == 0 ==> r.0.ctx.stack.Bottom? && Idle(r.0)
    decreases |toks|
  {
    if toks == [] then (st, -1, [])
    else
      match Take(st, toks[0], cont)
      case On(st1) => ParseStream(st1, toks[1..], cont)
      case Return(st1, code) => (st1, code, toks[1..])
  }

  /** One round of parse_stream_outer: the list it hands to run_list, if any. */
  function ParseRound(toks: seq<Tok>, cont: bool): (r: Option<seq<Pipe>>)
    ensures r.Some? ==> SafePipes(r.value)
  {
    var (st, code, _) := ParseStream(State(FRESH, "", false), toks, cont);
    if code != 1 && st.ctx.oldFlag == {} then
      Some(EndPipe(st, Seq).ctx.pipes + [TRAILER])
    else None
  }

  /** For every token stream, well formed or not, that ends with a newline (all callers add
      one): old_flag is zero exactly when no compound is open, a list is run exactly when the
      parser did not return 1 and every compound is closed, and it is the whole outermost
      list. An error may be reported without the parser returning 1. */
  lemma RunOnlyWhenClosed(toks: seq<Tok>, cont: bool)
    requires toks != [] && toks[|toks| - 1] == Line
    ensures var (st, code, _) := ParseStream(State(FRESH, "", false), toks, cont);
            && (st.ctx.oldFlag == {} <==> Open(st.ctx) == 0)
            && (ParseRound(toks, cont).Some? <==> code != 1 && Open(st.ctx) == 0)
            && (ParseRound(toks, cont).Some? ==>
                  ParseRound(toks, cont).value == st.ctx.pipes + [Pipe(st.ctx.child, Seq, st.ctx.w), TRAILER])
  {
    var (st, code, _) := ParseStream(State(FRESH, "", false), toks, cont);
    if code != 1 {
      IdleAfterNewline(State(FRESH, "", false), toks, cont);
      assert st.ctx.pipes + [Pipe(st.ctx.child, Seq, st.ctx.w)] + [TRAILER]
          == st.ctx.pipes + [Pipe(st.ctx.child, Seq, st.ctx.w), TRAILER];
    }
  }

  lemma {:induction false} IdleAfterNewline(st: State, toks: seq<Tok>, cont: bool)
    requires Inv(st.ctx) && toks != [] && toks[|toks| - 1] == Line && ParseStream(st, toks, cont).1 != 1
    ensures Idle(ParseStream(st, toks, cont).0)
    decreases |toks|
  {
    match Take(st, toks[0], cont)
    case On(st1) => if |toks| > 1 { IdleAfterNewline(st1, toks[1..], cont); }
    case Return(_, _) =>
  }

  /** The input breaks off right behind a word that opens a compound. */
  predicate EndsInOpener(st: State) {
    st.ctx.child.NoProg? && st.dest in {"if", "for", "while", "until"}
  }

  /** For every token stream at all: a list is run exactly when the parser did not return 1
      and no compound was open where the input ended, and the list then run is that of the
      outermost context exactly when the input does not break off behind an opening word. */
  lemma RunsOutermostIff(toks: seq<Tok>, cont: bool)
    ensures var (st, code, _) := ParseStream(State(FRESH, "", false), toks, cont);
            && (ParseRound(toks, cont).Some? <==> code != 1 && Open(st.ctx) == 0)
            && (ParseRound(toks, cont).Some? ==>
                  && ParseRound(toks, cont).value == EndPipe(st, Seq).ctx.pipes + [TRAILER]
                  && (Open(EndPipe(st, Seq).ctx) == 0 <==> !EndsInOpener(st)))
  {
    var (st, code, _) := ParseStream(State(FRESH, "", false), toks, cont);
    hide ParseStream;
    if st.ctx.stack.Bottom? && !EndsInOpener(st) && st.ctx.child.NoProg? {
      assert Reserved(st.dest).Some? ==> RXxxx !in Reserved(st.dest).value.1;
    }
  }

  /** Without the final newline the rule fails: a reserved word still pending at the end of
      the input opens a compound after old_flag has been looked at, and the list handed to
      run_list is that of the open compound. */
  lemma PendingWordRunsOpenCompound()
    ensures ParseRound([Text("if", false)], true) == Some([Pipe(NoProg, Seq, RIf), TRAILER])
  {
    var st0 := State(FRESH, "", false);
    var st1 := State(FRESH, "if", false);
    var toks := [Text("if", false)];
    assert "" + "if" == "if";
    assert Take(st0, toks[0], true) == On(st1);
    assert toks[1..] == [];
    assert ParseStream(st0, toks, true) == ParseStream(st1, [], true) == (st1, -1, []);
    assert EndPipe(st1, Seq).ctx.pipes == [] + [Pipe(NoProg, Seq, RIf)];
    assert st1.ctx.oldFlag == {};
    assert ParseRound(toks, true) == Some(EndPipe(st1, Seq).ctx.pipes + [TRAILER]);
    assert EndPipe(st1, Seq).ctx.pipes + [TRAILER] == [Pipe(NoProg, Seq, RIf), TRAILER];
  }

  // The parser as the C code has it

  class Parser {
    var pipes: seq<Pipe>
    var child: Body
    var w: Res
    var oldFlag: set<Res>
    var stack: Stack
    var dest: string
    var nonnull: bool

    ghost function Value(): (st: State)
      reads this
    {
      State(Ctx(pipes, child, w, oldFlag, stack), dest, nonnull)
    }

    ghost predicate Valid()
      reads this
    {
      Inv(Value().ctx)
    }

    constructor ()
      ensures Valid() && Value() == State(FRESH, "", false)
    {
      pipes, child, w, oldFlag, stack := [], NoProg, RNone, {}, Bottom;
      dest, nonnull := "", false;
    }

    method FinishPipe(f: Followup)
      requires Valid()
      modifies this
      ensures Valid()
      ensures Value() == old(Value()).(ctx := DonePipe(old(Value()).ctx, f))
    {
      pipes := pipes + [Pipe(child, f, w)];
      child := NoProg;
    }

    method FinishReserved() returns (found: bool)
      requires Valid() && child.NoProg?
      modifies this
      ensures Valid()
      ensures found <==> ReservedWord(old(dest), old(Value()).ctx).Some?
      ensures found ==> Value() == State(ReservedWord(old(dest), old(Value()).ctx).value, "", false)
      ensures !found ==> Value() == old(Value())
    {
      hide Reserved;
      var r := Reserved(dest);
      if r.None? { return false; }
      var (code, flag) := r.value;
      if RXxxx in flag {
        if w in {RIn, RFor} {
          w := RSntx;
          dest, nonnull := "", false;
          return true;
        }
        stack := Under(Ctx(pipes, child, w, oldFlag, stack));
        pipes, child := [], NoProg;
      } else if w == RNone || code !in oldFlag {
        w := RSntx;
        dest, nonnull := "", false;
        return true;
      }
      ghost var c := Value().ctx;
      w, oldFlag := code, flag;
      assert !(RXxxx in flag && RNone in flag);
      if RNone in flag {
        FinishPipe(Seq);
        var below := stack.ctx;
        var group := Group(pipes + [TRAILER]);
        pipes, child, w, oldFlag, stack := below.pipes, group, below.w, below.oldFlag, below.stack;
        assert Value().ctx == Pop(c.(w := code, oldFlag := flag));
      }
      dest, nonnull := "", false;
      return true;
    }

    method FinishWord() returns (err: bool)
      requires Valid()
      modifies this
      ensures Valid()
      ensures (Value(), err) == DoneWord(old(Value()))
    {
      if dest == "" && !nonnull { return false; }
      if child.Group? { return true; }
      if child.NoProg? {
        var found := FinishReserved();
        if found { return w == RSntx; }
      }
      child := Prog((if child.Prog? then child.argv else []) + [Unescape(dest)]);
      dest, nonnull := "", false;
      if w == RFor { FinishPipe(Seq); }
      return false;
    }

    /** The loop of parse_stream. */
    method Parse(toks: seq<Tok>, cont: bool) returns (code: int, rest: seq<Tok>)
      requires Valid()
      modifies this
      ensures Valid()
      ensures (Value(), code, rest) == ParseStream(old(Value()), toks, cont)
    {
      rest := toks;
      while rest != []
        invariant Valid()
        invariant ParseStream(Value(), rest, cont) == ParseStream(old(Value()), toks, cont)
        decreases |rest|
      {
        var t := rest[0];
        rest := rest[1..];
        match t
        case Text(text, quoted) => dest, nonnull := dest + text, nonnull || quoted;
        case Blank =>
          var err := FinishWord();
          if err { return 1, rest; }
        case Line =>
          var err := FinishWord();
          if err { return 1, rest; }
          FinishPipe(Seq);
          if !cont && w == RNone { return 0, rest; }
        case SemiColon => var _ := FinishWord(); FinishPipe(Seq);
        case AndAnd => var _ := FinishWord(); FinishPipe(AndIf);
        case OrOr => var _ := FinishWord(); FinishPipe(OrIf);
        case LoneAmp => var _ := FinishWord(); return 1, rest;
        case LoneBar => var _ := FinishWord(); return 1, rest;
      }
      return -1, [];
    }

    /** One round of parse_stream_outer, up to running the list. */
    method Round(toks: seq<Tok>, cont: bool) returns (list: Option<seq<Pipe>>, code: int, rest: seq<Tok>)
      requires Valid() && Value() == State(FRESH, "", false)
      modifies this
      ensures Valid()
      ensures list == ParseRound(toks, cont)
      ensures var p := ParseStream(State(FRESH, "", false), toks, cont); code == p.1 && rest == p.2
    {
      code, rest := Parse(toks, cont);
      if code == 1 || oldFlag != {} { return None, code, rest; }
      var _ := FinishWord();
      FinishPipe(Seq);
      list := Some(pipes + [TRAILER]);
    }
  }
}
