/**
 The two languages of hush: the flat, tagged pipe lists that the parser builds and
 run_list_real interprets, and the structured shell programs they stand for.
 */
module HushSyntax {

  /** reserved_style: the section of a compound command a pipe belongs to. */
  datatype Res =
    | RNone | RIf | RThen | RElif | RElse | RFi
    | RFor | RWhile | RUntil | RDo | RDone | RXxxx | RIn | RSntx

  /** pipe_style: how a pipe is joined to its successor; a new pipe has none yet. */
  datatype Followup = Unset | Seq | AndIf | OrIf

  /** A pipe holds at most one program: an argument vector or a nested pipe list. */
  datatype Body = NoProg | Prog(argv: seq<string>) | Group(list: seq<Pipe>)
  datatype Pipe = Pipe(body: Body, followup: Followup, rmode: Res)

  const TRAILER := Pipe(NoProg, Unset, RNone)

  /** How deeply groups are nested in a pipe list. */
  function Depth(ps: seq<Pipe>): nat {
    if ps == [] then 0 else Max(PipeDepth(ps[0]), Depth(ps[1..]))
  }

  function PipeDepth(p: Pipe): nat {
    match p.body
    case Group(list) => 1 + Depth(list)
    case _ => 0
  }

  function Max(a: nat, b: nat): nat { if a < b then b else a }

  lemma DepthAt(ps: seq<Pipe>, i: nat)
    requires i < |ps|
    ensures PipeDepth(ps[i]) <= Depth(ps)
    decreases i
  {
    if i > 0 { DepthAt(ps[1..], i - 1); }
  }

  lemma {:induction false} DepthUpdate(ps: seq<Pipe>, i: nat, p: Pipe)
    requires i < |ps| && PipeDepth(p) == PipeDepth(ps[i])
    ensures Depth(ps[i := p]) == Depth(ps)
    decreases i
  {
    if i == 0 {
      assert ps[i := p][1..] == ps[1..];
    } else {
      assert ps[i := p][1..] == ps[1..][i - 1 := p];
      DepthUpdate(ps[1..], i - 1, p);
    }
  }

  // Structured programs

  datatype Sep = Semi | Newline
  datatype LoopKind = While | Until

  /** `words` are the words as typed, before backslashes are removed. `Nothing` is the
      empty command between two separators. */
  datatype Cmd =
    | Nothing
    | Simple(words: seq<string>)
    | If(cond: Section, thn: Section, els: Else)
    | Loop(kind: LoopKind, cond: Section, body: Section)
    | For(name: string, values: seq<string>, body: Section)

  /** Commands joined by && and ||. */
  datatype Chain = Last(cmd: Cmd) | Link(cmd: Cmd, op: Op, rest: Chain)
  datatype Op = And | Or

  /** A nonempty list of chains, each ended by a separator. */
  datatype List = One(chain: Chain, sep: Sep) | More(chain: Chain, sep: Sep, rest: List)

  /** What stands behind a reserved word: the parser accepts nothing at all there. */
  datatype Section = Void | Of(list: List)

  datatype Else = NoElse | Else(body: Section) | Elif(cond: Section, thn: Section, els: Else)

  /** Drops the backslash in front of an escaped character, as done_word copies a word. */
  function Unescape(s: string): (r: string) {
    if s == [] then []
    else if s[0] == '\\' then (if |s| == 1 then [] else [s[1]] + Unescape(s[2..]))
    else [s[0]] + Unescape(s[1..])
  }

  function UnescapeAll(ws: seq<string>): (r: seq<string>)
    ensures |r| == |ws|
    ensures forall k :: 0 <= k < |ws| ==> r[k] == Unescape(ws[k])
  {
    seq(|ws|, k requires 0 <= k < |ws| => Unescape(ws[k]))
  }

  // The pipe list a structured program stands for

  function FlatCmd(c: Cmd): (b: Body)
    decreases c, 0
  {
    match c
    case Nothing => NoProg
    case Simple(ws) => Prog(UnescapeAll(ws))
    case If(cond, thn, els) =>
      Group(FlatSection(cond, RIf) + FlatSection(thn, RThen) + FlatElse(els) + Closing(RFi))
    case Loop(kind, cond, body) =>
      Group(FlatSection(cond, LoopMode(kind)) + FlatSection(body, RDo) + Closing(RDone))
    case For(name, values, body) =>
      Group(ForHead(name, values) + FlatSection(body, RDo) + Closing(RDone))
  }

  function LoopMode(k: LoopKind): Res { if k == While then RWhile else RUntil }

  function Closing(mode: Res): (ps: seq<Pipe>)
    ensures |ps| == 2
  {
    [Pipe(NoProg, Seq, mode), TRAILER]
  }

  function ForHead(name: string, values: seq<string>): (ps: seq<Pipe>)
    ensures |ps| == 2
  {
    [Pipe(Prog([Unescape(name)]), Seq, RFor),
     Pipe(if values == [] then NoProg else Prog(UnescapeAll(values)), Seq, RIn)]
  }

  function OpFollowup(op: Op): Followup { if op == And then AndIf else OrIf }

  function FlatChain(c: Chain, mode: Res): (ps: seq<Pipe>)
    ensures |ps| > 0
    decreases c, 1
  {
    match c
    case Last(cmd) => [Pipe(FlatCmd(cmd), Seq, mode)]
    case Link(cmd, op, rest) => [Pipe(FlatCmd(cmd), OpFollowup(op), mode)] + FlatChain(rest, mode)
  }

  function FlatList(l: List, mode: Res): (ps: seq<Pipe>)
    ensures |ps| > 0
    decreases l, 2
  {
    match l
    case One(chain, _) => FlatChain(chain, mode)
    case More(chain, _, rest) => FlatChain(chain, mode) + FlatList(rest, mode)
  }

  /** An empty section leaves no pipe, and so nothing that shows where it stood. */
  function FlatSection(x: Section, mode: Res): (ps: seq<Pipe>)
    ensures x.Of? ==> |ps| > 0
    decreases x, 3
  {
    match x
    case Void => []
    case Of(list) => FlatList(list, mode)
  }

  function FlatElse(e: Else): (ps: seq<Pipe>)
    decreases e, 4
  {
    match e
    case NoElse => []
    case Else(body) => FlatSection(body, RElse)
    case Elif(cond, thn, els) => FlatSection(cond, RElif) + FlatSection(thn, RThen) + FlatElse(els)
  }

  /** One list behind the other. */
  function Append(l: List, k: List): (r: List) {
    match l
    case One(chain, sep) => More(chain, sep, k)
    case More(chain, sep, rest) => More(chain, sep, Append(rest, k))
  }

  lemma {:induction false} FlatAppend(l: List, k: List, mode: Res)
    ensures FlatList(Append(l, k), mode) == FlatList(l, mode) + FlatList(k, mode)
    decreases l
  {
    if l.More? { FlatAppend(l.rest, k, mode); }
  }

  // Does running the list run any command at all?

  predicate ChainHasCommand(c: Chain) {
    !c.cmd.Nothing? || (c.Link? && ChainHasCommand(c.rest))
  }

  predicate HasCommand(l: List) {
    ChainHasCommand(l.chain) || (l.More? && HasCommand(l.rest))
  }

  predicate Runs(x: Section) { x.Of? && HasCommand(x.list) }

  // Can the sections of an `if` still be told apart in its flat list?

  /** May `e` follow the `then` section `thn` of a condition that has pipes? A clause with
      neither condition nor `then` section leaves no trace; in front of any other `elif` the
      `then` section needs a pipe, and so does the condition of that `elif`. */
  predicate Follows(thn: Section, e: Else)
    decreases e
  {
    match e
    case NoElse => true
    case Else(_) => true
    case Elif(cond, t, els) =>
      if cond.Void? && t.Void? then Follows(thn, els) else thn.Of? && cond.Of? && Follows(t, els)
  }

  /** May `e` follow a `then` section that is always taken, its condition being empty? */
  predicate FollowsTaken(e: Else) {
    match e
    case NoElse => true
    case Else(_) => true
    case Elif(cond, t, els) => cond.Of? || (t.Void? && FollowsTaken(els))
  }

  predicate Legible(cond: Section, thn: Section, els: Else) {
    if cond.Void? then FollowsTaken(els) else Follows(thn, els)
  }

  /** Every `if` in the program is legible. */
  predicate LegibleCmd(c: Cmd) {
    match c
    case Nothing => true
    case Simple(_) => true
    case If(cond, thn, els) =>
      Legible(cond, thn, els) && LegibleSection(cond) && LegibleSection(thn) && LegibleElse(els)
    case Loop(_, cond, body) => LegibleSection(cond) && LegibleSection(body)
    case For(_, _, body) => LegibleSection(body)
  }

  predicate LegibleChain(c: Chain) { LegibleCmd(c.cmd) && (c.Link? ==> LegibleChain(c.rest)) }
  predicate LegibleList(l: List) { LegibleChain(l.chain) && (l.More? ==> LegibleList(l.rest)) }
  predicate LegibleSection(x: Section) { x.Of? ==> LegibleList(x.list) }

  /** The programs inside the sections are legible; the sections themselves need not be. */
  predicate LegibleElse(e: Else) {
    match e
    case NoElse => true
    case Else(body) => LegibleSection(body)
    case Elif(cond, thn, els) => LegibleSection(cond) && LegibleSection(thn) && LegibleElse(els)
  }
}
