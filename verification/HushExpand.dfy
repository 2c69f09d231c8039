/**
 Variable expansion in hush: a word is stored as literal text in which every
 variable reference is enclosed in a pair of marker characters.
 Models insert_var_value_sub (untagged) and make_list_in of cli_hush.c.
 */
module HushExpand {
  import opened Wrappers

  /** SPECIAL_VAR_SYMBOL: encloses the name of a variable to be substituted. */
  const MARK: char := '\U{0003}'

  type Lookup = string -> Option<string>

  /** What strchr finds: the first position of `c`, or the length when there is none. */
  function IndexOf(s: string, c: char): (i: nat)
    ensures i <= |s|
    ensures i < |s| ==> s[i] == c
    ensures forall k :: 0 <= k < i ==> s[k] != c
  {
    if s == [] then 0 else if s[0] == c then 0 else 1 + IndexOf(s[1..], c)
  }

  function ValueOf(look: Lookup, name: string): (v: string) {
    match look(name)
    case Some(v) => v
    case None => ""
  }

  /** Markers come in pairs: the parser never emits an opening marker without its mate. */
  predicate Paired(s: string)
    decreases |s|
  {
    var i := IndexOf(s, MARK);
    i == |s| ||
    (var rest := s[i + 1..];
     var j := IndexOf(rest, MARK);
     j < |rest| && Paired(rest[j + 1..]))
  }

  /** One left-to-right pass that replaces every marked name by its value. An unpaired
      marker, on which the C code would follow a null pointer, ends the pass. */
  function Substitute(s: string, look: Lookup): (r: string)
    decreases |s|
  {
    var i := IndexOf(s, MARK);
    if i == |s| then s
    else
      var rest := s[i + 1..];
      var j := IndexOf(rest, MARK);
      if j == |rest| then s[..i]
      else s[..i] + ValueOf(look, rest[..j]) + Substitute(rest[j + 1..], look)
  }

  function NewlinesToSpaces(s: string): (r: string)
    ensures |r| == |s|
    ensures forall k :: 0 <= k < |s| ==> r[k] == if s[k] == '\n' then ' ' else s[k]
  {
    seq(|s|, k requires 0 <= k < |s| => if s[k] == '\n' then ' ' else s[k])
  }

  /** A word without any marker is returned as it is, newlines included. */
  function InsertVarValue(s: string, look: Lookup): (r: string) {
    if IndexOf(s, MARK) == |s| then s else NewlinesToSpaces(Substitute(s, look))
  }

  /** The maximal runs of characters other than a space. */
  function Words(s: string): (ws: seq<string>)
    decreases |s|
  {
    if s == [] then []
    else if s[0] == ' ' then Words(s[1..])
    else
      var n := IndexOf(s, ' ');
      [s[..n]] + Words(s[n..])
  }

  function Assignments(name: string, ws: seq<string>): (r: seq<string>)
    ensures |r| == |ws|
    ensures forall k :: 0 <= k < |ws| ==> r[k] == name + "=" + ws[k]
  {
    seq(|ws|, k requires 0 <= k < |ws| => name + "=" + ws[k])
  }

  function MakeListIn(args: seq<string>, name: string, look: Lookup): (r: seq<string>) {
    if args == [] then []
    else Assignments(name, Words(InsertVarValue(args[0], look))) + MakeListIn(args[1..], name, look)
  }

  /** make_list_in: the outer loop goes over the words of the `in` section. */
  method MakeList(args: seq<string>, name: string, look: Lookup) returns (list: seq<string>)
    ensures list == MakeListIn(args, name, look)
  {
    list := [];
    var i := 0;
    while i < |args|
      invariant 0 <= i <= |args|
      invariant list + MakeListIn(args[i..], name, look) == MakeListIn(args, name, look)
    {
      hide Words, InsertVarValue, Assignments;
      var more := SplitWords(InsertVarValue(args[i], look), name);
      assert args[i..][1..] == args[i + 1..];
      list := list + more;
      i := i + 1;
    }
  }

  /** The inner loop of make_list_in. */
  method SplitWords(text: string, name: string) returns (list: seq<string>)
    ensures list == Assignments(name, Words(text))
  {
    hide Words, IndexOf;
    list := [];
    var p: nat := 0;
    ghost var done: seq<string> := [];
    assert text[0..] == text;
    while p < |text|
      invariant p <= |text| && done + Words(text[p..]) == Words(text)
      invariant list == Assignments(name, done)
    {
      ghost var rest := text[p..];
      if text[p] == ' ' {
        SpaceSkipped(rest);
        assert rest[1..] == text[p + 1..];
        p := p + 1;
      } else {
        WordsHead(rest);
        var n := IndexOf(text[p..], ' ');
        var w := text[p..p + n];
        assert w == rest[..n] && rest[n..] == text[p + n..];
        list := list + [name + "=" + w];
        done := done + [w];
        p := p + n;
      }
    }
    assert text[p..] == "";
    NoWords();
  }

  /** One turn of the scan. */
  lemma ScanStep(s: string, look: Lookup)
    requires Paired(s) && IndexOf(s, MARK) < |s|
    ensures var i := IndexOf(s, MARK);
            var rest := s[i + 1..];
            var j := IndexOf(rest, MARK);
            && j < |rest| && Paired(rest[j + 1..])
            && Substitute(s, look) == s[..i] + ValueOf(look, rest[..j]) + Substitute(rest[j + 1..], look)
  {
    hide IndexOf, ValueOf;
  }

  lemma ScanEnd(s: string, look: Lookup)
    requires IndexOf(s, MARK) == |s|
    ensures Substitute(s, look) == s
  {
    hide IndexOf;
  }

  /** insert_var_value_sub without tagging: one scan that copies literals and looks names up. */
  method InsertVarValueSub(inp: string, look: Lookup) returns (res: string)
    requires Paired(inp)
    ensures res == InsertVarValue(inp, look)
  {
    hide IndexOf, Substitute, Paired, NewlinesToSpaces;
    var rest, out, done := inp, "", false;
    var p := IndexOf(rest, MARK);
    while p < |rest|
      invariant p == IndexOf(rest, MARK) && Paired(rest)
      invariant out + Substitute(rest, look) == Substitute(inp, look)
      invariant if done then IndexOf(inp, MARK) < |inp| else rest == inp
      decreases |rest|
    {
      ScanStep(rest, look);
      var lit := rest[..p];
      rest := rest[p + 1..];
      p := IndexOf(rest, MARK);
      out := out + lit + ValueOf(look, rest[..p]);
      rest := rest[p + 1..];
      p := IndexOf(rest, MARK);
      done := true;
    }
    ScanEnd(rest, look);
    res := if done then NewlinesToSpaces(out + rest) else inp;
  }

  // A word as the parser means it: literal pieces and variable references

  datatype Piece = Lit(text: string) | Var(name: string)

  predicate Clean(ps: seq<Piece>) {
    forall i :: 0 <= i < |ps| ==> MARK !in (if ps[i].Lit? then ps[i].text else ps[i].name)
  }

  predicate HasVar(ps: seq<Piece>) { exists i :: 0 <= i < |ps| && ps[i].Var? }

  function Render(ps: seq<Piece>): (s: string) {
    if ps == [] then ""
    else (match ps[0] case Lit(t) => t case Var(n) => [MARK] + n + [MARK]) + Render(ps[1..])
  }

  /** The concatenation of the literals and the values looked up. */
  function Meaning(ps: seq<Piece>, look: Lookup): (s: string) {
    if ps == [] then ""
    else (match ps[0] case Lit(t) => t case Var(n) => ValueOf(look, n)) + Meaning(ps[1..], look)
  }

  lemma {:induction false} IndexOfJoin(a: string, b: string, c: char)
    ensures c !in a ==> IndexOf(a + b, c) == |a| + IndexOf(b, c)
    ensures c in a ==> IndexOf(a + b, c) == IndexOf(a, c) < |a|
  {
    if a == [] {
      assert a + b == b;
    } else {
      assert (a + b)[1..] == a[1..] + b;
      IndexOfJoin(a[1..], b, c);
    }
  }

  function Marked(lit: string, name: string, tail: string): (s: string) {
    lit + ([MARK] + (name + ([MARK] + tail)))
  }

  /** Where the first two markers of a word stand. */
  lemma MarksOf(lit: string, name: string, tail: string)
    requires MARK !in lit && MARK !in name
    ensures var s := Marked(lit, name, tail);
            && IndexOf(s, MARK) == |lit| < |s| && s[..|lit|] == lit
            && var rest := s[|lit| + 1..];
               IndexOf(rest, MARK) == |name| < |rest| && rest[..|name|] == name && rest[|name| + 1..] == tail
  {
    hide IndexOf;
    var s := Marked(lit, name, tail);
    var inner := name + ([MARK] + tail);
    AtMark(lit, inner);
    assert s[|lit| + 1..] == inner;
    AtMark(name, tail);
  }

  lemma AtMark(a: string, b: string)
    requires MARK !in a
    ensures var s := a + ([MARK] + b);
            IndexOf(s, MARK) == |a| < |s| && s[..|a|] == a && s[|a| + 1..] == b
  {
    var s := a + ([MARK] + b);
    IndexOfJoin(a, [MARK] + b, MARK);
    assert ([MARK] + b)[0] == MARK;
  }

  lemma SubstituteStep(lit: string, name: string, tail: string, look: Lookup)
    requires MARK !in lit && MARK !in name
    ensures Substitute(Marked(lit, name, tail), look) == lit + ValueOf(look, name) + Substitute(tail, look)
    ensures Paired(Marked(lit, name, tail)) == Paired(tail)
  {
    PairedStep(lit, name, tail);
    MarksOf(lit, name, tail);
    hide IndexOf, Marked, ValueOf, Paired;
  }

  lemma PairedStep(lit: string, name: string, tail: string)
    requires MARK !in lit && MARK !in name
    ensures Paired(Marked(lit, name, tail)) == Paired(tail)
  {
    MarksOf(lit, name, tail);
    hide IndexOf, Marked;
  }

  lemma CutAt(s: string, i: nat)
    requires i < |s| && s[i] == MARK
    ensures s == s[..i] + ([MARK] + s[i + 1..])
  {
  }

  /** A paired word with a marker, taken apart at its first two markers. */
  lemma TakeApart(s: string) returns (lit: string, name: string, tail: string)
    requires Paired(s) && IndexOf(s, MARK) < |s|
    ensures MARK !in lit && MARK !in name && Paired(tail) && s == Marked(lit, name, tail)
  {
    hide IndexOf;
    var i := IndexOf(s, MARK);
    var rest := s[i + 1..];
    var j := IndexOf(rest, MARK);
    assert Paired(rest[j + 1..]);
    hide Paired;
    lit, name, tail := s[..i], rest[..j], rest[j + 1..];
    CutAt(s, i);
    CutAt(rest, j);
  }

  lemma SubstituteLit(t: string, s: string, look: Lookup)
    requires MARK !in t && Paired(s)
    ensures Substitute(t + s, look) == t + Substitute(s, look)
    ensures Paired(t + s)
  {
    hide IndexOf;
    IndexOfJoin(t, s, MARK);
    if IndexOf(s, MARK) < |s| { SubstituteLitMarked(t, s, look); }
  }

  lemma SubstituteLitMarked(t: string, s: string, look: Lookup)
    requires MARK !in t && Paired(s) && IndexOf(s, MARK) < |s|
    ensures Substitute(t + s, look) == t + Substitute(s, look)
    ensures Paired(t + s)
  {
    hide IndexOf, Substitute, Paired;
    var lit, name, tail := TakeApart(s);
    SubstituteStep(lit, name, tail, look);
    SubstituteStep(t + lit, name, tail, look);
    assert t + s == Marked(t + lit, name, tail);
    var v, more := ValueOf(look, name), Substitute(tail, look);
    assert t + lit + v + more == t + (lit + v + more);
  }

  lemma SubstituteVar(n: string, s: string, look: Lookup)
    requires MARK !in n
    ensures Substitute([MARK] + n + [MARK] + s, look) == ValueOf(look, n) + Substitute(s, look)
    ensures Paired([MARK] + n + [MARK] + s) == Paired(s)
  {
    hide Substitute, Paired, IndexOf;
    SubstituteStep("", n, s, look);
    assert [MARK] + n + [MARK] + s == Marked("", n, s);
  }

  lemma {:induction false} SubstituteMeans(ps: seq<Piece>, look: Lookup)
    requires Clean(ps)
    ensures Paired(Render(ps)) && Substitute(Render(ps), look) == Meaning(ps, look)
  {
    if ps != [] {
      SubstituteMeans(ps[1..], look);
      match ps[0]
      case Lit(t) => SubstituteLit(t, Render(ps[1..]), look);
      case Var(n) => SubstituteVar(n, Render(ps[1..]), look);
    }
  }

  lemma {:induction false} MarkedIffVar(ps: seq<Piece>)
    requires Clean(ps)
    ensures MARK in Render(ps) <==> HasVar(ps)
  {
    if ps != [] {
      MarkedIffVar(ps[1..]);
      assert HasVar(ps) <==> ps[0].Var? || HasVar(ps[1..]) by {
        if HasVar(ps[1..]) {
          var i :| 0 <= i < |ps[1..]| && ps[1..][i].Var?;
          assert ps[i + 1].Var?;
        }
      }
      if ps[0].Var? {
        assert Render(ps)[0] == MARK;
      } else {
        assert ps[0].Lit? && Render(ps) == ps[0].text + Render(ps[1..]);
      }
    }
  }

  /** Expanding a word is concatenating its literals and the values of its variables: values
      are not scanned again and unset variables are empty. Newlines become spaces, in
      literals too, exactly when the word refers to a variable. */
  lemma ExpandMeans(ps: seq<Piece>, look: Lookup)
    requires Clean(ps)
    ensures Paired(Render(ps))
    ensures InsertVarValue(Render(ps), look)
         == if HasVar(ps) then NewlinesToSpaces(Meaning(ps, look)) else Meaning(ps, look)
  {
    SubstituteMeans(ps, look);
    MarkedIffVar(ps);
    var s := Render(ps);
    var i := IndexOf(s, MARK);
    if i < |s| { assert s[i] == MARK; }
  }

  /** Every word with paired markers is such a word. */
  lemma {:induction false} EveryPairedWord(s: string) returns (ps: seq<Piece>)
    requires Paired(s)
    ensures Clean(ps) && Render(ps) == s
    decreases |s|
  {
    hide IndexOf;
    hide Paired;
    if IndexOf(s, MARK) == |s| {
      ps := [Lit(s)];
      assert Render(ps) == s + Render([]);
    } else {
      var lit, name, tail := TakeApart(s);
      var more := EveryPairedWord(tail);
      ps := [Lit(lit), Var(name)] + more;
      assert ps[1..] == [Var(name)] + more && ps[1..][1..] == more;
      assert Render(ps[1..]) == [MARK] + name + [MARK] + Render(more);
    }
  }

  // Splitting into words

  predicate IsWord(w: string) { w != "" && ' ' !in w }

  /** The first word of a text that does not start with a space. */
  lemma WordsHead(s: string)
    requires s != "" && s[0] != ' '
    ensures var n := IndexOf(s, ' ');
            0 < n <= |s| && Words(s) == [s[..n]] + Words(s[n..])
  {
  }

  /** A space separates: this, with the two facts on single words below, determines `Words`. */
  lemma {:induction false} WordsAcrossSpace(a: string, b: string)
    ensures Words(a + " " + b) == Words(a) + Words(b)
    decreases |a|
  {
    hide Words, IndexOf;
    var s := a + " " + b;
    if a == "" {
      SpaceSkipped(s);
      assert s[1..] == b;
      NoWords();
    } else if a[0] == ' ' {
      SpaceSkipped(s);
      SpaceSkipped(a);
      assert s[1..] == a[1..] + " " + b;
      WordsAcrossSpace(a[1..], b);
    } else {
      SameFirstWord(a, b);
      var n := IndexOf(a, ' ');
      WordsHead(a);
      WordsAcrossSpace(a[n..], b);
    }
  }

  lemma SpaceSkipped(s: string)
    requires s != "" && s[0] == ' '
    ensures Words(s) == Words(s[1..])
  {
  }

  lemma NoWords()
    ensures Words("") == []
  {
  }

  lemma SameFirstWord(a: string, b: string)
    requires a != "" && a[0] != ' '
    ensures var n := IndexOf(a, ' ');
            0 < n <= |a| && Words(a + " " + b) == [a[..n]] + Words(a[n..] + " " + b)
  {
    hide Words, IndexOf;
    var s := a + " " + b;
    assert s == a + (" " + b);
    IndexOfJoin(a, " " + b, ' ');
    FirstSpace(" " + b);
    WordsHead(s);
    WordsHead(a);
    var n := IndexOf(a, ' ');
    assert IndexOf(s, ' ') == n;
    assert s[..n] == a[..n] && s[n..] == a[n..] + " " + b;
  }

  lemma FirstSpace(s: string)
    requires s != "" && s[0] == ' '
    ensures IndexOf(s, ' ') == 0
  {
  }

  lemma WordsOfWord(w: string)
    requires IsWord(w)
    ensures Words(w) == [w] && Words("") == []
  {
    var n := IndexOf(w, ' ');
    assert w[..n] == w && w[n..] == "";
  }

  /** Only words come out, and no character other than a space is lost. */
  lemma {:induction false} WordsAreWords(s: string)
    ensures forall k :: 0 <= k < |Words(s)| ==> IsWord(Words(s)[k])
    ensures Concat(Words(s)) == NoSpaces(s)
    decreases |s|
  {
    if s == "" {
    } else if s[0] == ' ' {
      WordsAreWords(s[1..]);
    } else {
      var n := IndexOf(s, ' ');
      WordsAreWords(s[n..]);
      NoSpacesJoin(s[..n], s[n..]);
      assert s[..n] + s[n..] == s;
      NoSpacesId(s[..n]);
    }
  }

  function Concat(ws: seq<string>): (s: string) {
    if ws == [] then "" else ws[0] + Concat(ws[1..])
  }

  function NoSpaces(s: string): (r: string) {
    if s == "" then "" else (if s[0] == ' ' then "" else [s[0]]) + NoSpaces(s[1..])
  }

  lemma {:induction false} NoSpacesJoin(a: string, b: string)
    ensures NoSpaces(a + b) == NoSpaces(a) + NoSpaces(b)
  {
    if a == "" {
      assert a + b == b;
    } else {
      assert (a + b)[1..] == a[1..] + b;
      NoSpacesJoin(a[1..], b);
    }
  }

  lemma {:induction false} NoSpacesId(a: string)
    requires ' ' !in a
    ensures NoSpaces(a) == a
  {
    if a != "" { NoSpacesId(a[1..]); }
  }

  /** The `for` list is `name=word` for every word of all the expanded arguments, in order. */
  function Spread(args: seq<string>, look: Lookup): (s: string) {
    if args == [] then "" else InsertVarValue(args[0], look) + " " + Spread(args[1..], look)
  }

  lemma {:induction false} MakeListInIsAllWords(args: seq<string>, name: string, look: Lookup)
    ensures MakeListIn(args, name, look) == Assignments(name, Words(Spread(args, look)))
  {
    hide Words, InsertVarValue;
    if args == [] {
      NoWords();
    } else {
      var a, b := InsertVarValue(args[0], look), Spread(args[1..], look);
      MakeListInIsAllWords(args[1..], name, look);
      WordsAcrossSpace(a, b);
      AssignmentsJoin(name, Words(a), Words(b));
    }
  }

  lemma AssignmentsJoin(name: string, a: seq<string>, b: seq<string>)
    ensures Assignments(name, a + b) == Assignments(name, a) + Assignments(name, b)
  {
  }
}
