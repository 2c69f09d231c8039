/**
 The simple command parser of cli_simple.c: the separator loop, the macro pass and the
 in-place word splitter, each on its own and all three together.
 */
module SimpleCli {
  import opened Wrappers

  const NUL: char := '\U{0000}'

  type Env = string -> Option<string>

  predicate IsBlank(c: char) { c == ' ' || c == '\t' }

  // Pass 1: separators

  /** The length of the token at the front of `s`: it reaches to the first unquoted,
      unescaped semicolon that is not its first character, or to the end. `prev` is the
      character in memory before `s`. */
  function TokenLen(s: string, first: bool, inQuotes: bool, prev: char): (n: nat)
    ensures n <= |s| && (n < |s| ==> s[n] == ';')
    ensures first && s != "" ==> n > 0
    decreases |s|
  {
    if s == "" then 0
    else
      var q := if s[0] == '\'' && prev != '\\' then !inQuotes else inQuotes;
      if !q && s[0] == ';' && !first && prev != '\\' then 0
      else 1 + TokenLen(s[1..], false, q, s[0])
  }

  /** All tokens of a command line. The character before a later token is the NUL that
      replaced the semicolon; `before` is whatever stands in memory before the first. */
  function Tokens(s: string, before: char): (ts: seq<string>)
    decreases |s|
  {
    if s == "" then []
    else
      var n := TokenLen(s, true, false, before);
      if n < |s| then [s[..n]] + Tokens(s[n + 1..], NUL) else [s]
  }

  function JoinTokens(ts: seq<string>): (s: string) {
    if ts == [] then "" else if |ts| == 1 then ts[0] else ts[0] + ";" + JoinTokens(ts[1..])
  }

  lemma JoinFirst(t: string, ts: seq<string>)
    ensures JoinTokens([t] + ts) == if ts == [] then t else t + ";" + JoinTokens(ts)
  {
    assert ([t] + ts)[1..] == ts;
  }

  /** Putting a string cut at a semicolon together again. */
  lemma CutBack(s: string, n: nat, rest: string)
    requires n < |s| && s[n] == ';'
    ensures rest == s[n + 1..] ==> s[..n] + ";" + rest == s
    ensures rest + ";" == s[n + 1..] ==> s[..n] + ";" + rest + ";" == s
  {
    assert s == s[..n] + ";" + s[n + 1..];
    assert s[..n] + ";" + rest + ";" == s[..n] + ";" + (rest + ";");
  }

  /** Splitting loses nothing but the separators, and at most one at the very end. */
  lemma {:induction false} TokensJoin(s: string, before: char)
    ensures JoinTokens(Tokens(s, before)) == s || JoinTokens(Tokens(s, before)) + ";" == s
    decreases |s|
  {
    if s != "" {
      var n := TokenLen(s, true, false, before);
      if n < |s| {
        var ts := Tokens(s[n + 1..], NUL);
        TokensJoin(s[n + 1..], NUL);
        JoinFirst(s[..n], ts);
        CutBack(s, n, JoinTokens(ts));
        if ts == [] { assert s[n + 1..] == ""; }
      }
    }
  }

  // Pass 2: macros and quotes

  /** Where the macro scanner is: 0 plain, 1 after a dollar, 2 inside a name, 3 in quotes. */
  datatype Scan = Scan(mode: int, prev: char, name: string)

  const SCAN0 := Scan(0, NUL, "")

  function ValueOf(env: Env, name: string): string {
    match env(name)
    case Some(v) => v
    case None => ""
  }

  /** One character `c`, read as the raw characters `raw`: the new state and the output. */
  function Feed(st: Scan, c: char, raw: string, env: Env): (r: (Scan, string))
    requires raw != ""
  {
    var st' := st.(prev := c);
    if st.mode == 0 then
      if c == '\'' && st.prev != '\\' then (st'.(mode := 3), "")
      else if c == '$' && st.prev != '\\' then (st'.(mode := 1), "")
      else (st', [c])
    else if st.mode == 1 then
      if c == '(' || c == '{' then (st'.(mode := 2, name := ""), "") else (st'.(mode := 0), ['$', c])
    else if st.mode == 2 then
      if c == ')' || c == '}' then (st'.(mode := 0), ValueOf(env, st.name + raw[..|raw| - 1]))
      else (st'.(name := st.name + raw), "")
    else
      if c == '\'' && st.prev != '\\' then (st'.(mode := 0), "") else (st', [c])
  }

  predicate Escapes(st: Scan, c: char) { st.mode != 3 && c == '\\' && st.prev != '\\' }

  /** The whole expansion, without any limit on its length. */
  function Macros(st: Scan, s: string, env: Env): (r: string)
    decreases |s|
  {
    if s == "" then ""
    else if Escapes(st, s[0]) then
      if |s| == 1 then ""
      else
        var (st', out) := Feed(st.(prev := '\\'), s[1], s[..2], env);
        out + Macros(st', s[2..], env)
    else
      var (st', out) := Feed(st, s[0], s[..1], env);
      out + Macros(st', s[1..], env)
  }

  /** What fits: a result that would fill the buffer loses its last characters to the NUL. */
  function Fitted(s: string, size: nat): (r: string)
    requires size > 0
    ensures |r| < size
  {
    if |s| < size then s else s[..size - 1]
  }

  /** What has been written so far and what is still to come make up the goal, as far as the
      buffer goes. */
  predicate Within(done: string, rest: string, goal: string, size: nat) {
    && |done| <= size
    && (|done| < size ==> done + rest == goal)
    && (|done| == size ==> size <= |goal| && goal[..size] == done)
  }

  /** Copies as much of `text` as there is room for. */
  method Emit(output: array<char>, at: nat, text: string, ghost rest: string, ghost goal: string) returns (o: nat)
    requires at < output.Length && Within(output[..at], text + rest, goal, output.Length)
    modifies output
    ensures at <= o <= output.Length && Within(output[..o], rest, goal, output.Length)
  {
    o := at;
    var k := 0;
    while k < |text| && o < output.Length
      invariant 0 <= k <= |text| && o == at + k && at <= o <= output.Length
      invariant Within(output[..o], text[k..] + rest, goal, output.Length)
    {
      output[o] := text[k];
      o := o + 1;
      assert output[..o] == output[..o - 1] + [text[k]];
      assert text[k..] + rest == [text[k]] + (text[k + 1..] + rest);
      k := k + 1;
    }
    if o < output.Length { assert text[k..] + rest == rest; }
  }

  /** cli_simple_process_macros. For every input it stays inside the buffer and ends the
      string with a NUL; what it leaves is the expansion cut to the buffer. */
  method ProcessMacros(input: string, env: Env, output: array<char>) returns (len: nat)
    requires output.Length > 0
    modifies output
    ensures len < output.Length && output[len] == NUL
    ensures output[..len] == Fitted(Macros(SCAN0, input, env), output.Length)
  {
    hide Feed;
    var i, o, st := 0, 0, SCAN0;
    ghost var goal := Macros(SCAN0, input, env);
    assert input[0..] == input;
    while i < |input| && o < output.Length
      invariant 0 <= i <= |input| && 0 <= o <= output.Length
      invariant Within(output[..o], Macros(st, input[i..], env), goal, output.Length)
      decreases |input| - i
    {
      var s := input[i..];
      var c, raw := input[i], input[i..i + 1];
      i := i + 1;
      if Escapes(st, c) {
        if i == |input| {
          assert Macros(st, s, env) == "";
          break;
        }
        st := st.(prev := '\\');
        c, raw := input[i], input[i - 1..i + 1];
        i := i + 1;
      }
      assert raw == s[..|raw|] && input[i..] == s[|raw|..];
      var (st', out) := Feed(st, c, raw, env);
      o := Emit(output, o, out, Macros(st', input[i..], env), goal);
      st := st';
    }
    len := if o < output.Length then o else o - 1;
    ghost var done := output[..o];
    output[len] := NUL;
    assert output[..len] == done[..len];
  }

  // Pass 3: words

  function SkipBlanks(s: string): (r: string)
    ensures |r| <= |s| && (r != "" ==> !IsBlank(r[0]))
  {
    if s != "" && IsBlank(s[0]) then SkipBlanks(s[1..]) else s
  }

  function WordEnd(s: string): (n: nat)
    ensures n <= |s| && (n < |s| ==> IsBlank(s[n]))
    ensures forall k :: 0 <= k < n ==> !IsBlank(s[k])
  {
    if s != "" && !IsBlank(s[0]) then 1 + WordEnd(s[1..]) else 0
  }

  /** The first `max` blank-separated words. */
  function Args(s: string, max: nat): (ws: seq<string>)
    ensures |ws| <= max
    decreases max
  {
    if max == 0 then []
    else
      var t := SkipBlanks(s);
      if t == "" then []
      else
        var n := WordEnd(t);
        [t[..n]] + Args(t[n..], max - 1)
  }

  /** The C string at offset k of a buffer. */
  predicate StringAt(a: seq<char>, k: nat, w: string) {
    k + |w| < |a| && a[k..k + |w|] == w && a[k + |w|] == NUL && NUL !in w
  }

  /** The rest of the line from `p` on is still as it was. */
  predicate Remains(a: seq<char>, p: nat, text: string) {
    p <= |text| < |a| && NUL !in text && a[p..|text|] == text[p..] && a[|text|] == NUL
  }

  lemma CharOf(a: seq<char>, p: nat, text: string, q: nat)
    requires Remains(a, p, text) && p <= q <= |text|
    ensures q < |text| ==> a[q] == text[q] != NUL
    ensures a[q] == NUL <==> q == |text|
    ensures Remains(a, q, text)
  {
    assert q < |text| ==> a[p..|text|][q - p] == text[p..][q - p];
    assert a[q..|text|] == a[p..|text|][q - p..];
  }

  lemma RemainsBound(a: seq<char>, p: nat, text: string)
    requires Remains(a, p, text)
    ensures p <= |text| < |a| && a[p..|text|] == text[p..]
  {
  }

  method Skip(line: array<char>, p: nat, ghost text: string) returns (q: nat)
    requires Remains(line[..], p, text)
    ensures p <= q <= |text| && Remains(line[..], q, text) && text[q..] == SkipBlanks(text[p..])
    ensures q < |text| ==> !IsBlank(text[q])
  {
    q := p;
    CharOf(line[..], p, text, q);
    while IsBlank(line[q])
      invariant p <= q <= |text| && Remains(line[..], q, text) && SkipBlanks(text[q..]) == SkipBlanks(text[p..])
      invariant (line[q] == NUL <==> q == |text|) && (q < |text| ==> line[q] == text[q])
      decreases |text| - q
    {
      assert text[q..][1..] == text[q + 1..];
      q := q + 1;
      CharOf(line[..], q - 1, text, q);
    }
  }

  method FindEnd(line: array<char>, p: nat, ghost text: string) returns (q: nat)
    requires Remains(line[..], p, text)
    ensures p <= q <= |text| && Remains(line[..], q, text) && q - p == WordEnd(text[p..])
  {
    q := p;
    CharOf(line[..], p, text, q);
    while line[q] != NUL && !IsBlank(line[q])
      invariant p <= q <= |text| && Remains(line[..], q, text) && q - p + WordEnd(text[q..]) == WordEnd(text[p..])
      invariant (line[q] == NUL <==> q == |text|) && (q < |text| ==> line[q] == text[q])
      decreases |text| - q
    {
      assert text[q..][1..] == text[q + 1..];
      q := q + 1;
      CharOf(line[..], q - 1, text, q);
    }
  }

  /** A word that ends before `p` is not touched by a NUL written at `p`. */
  lemma StringKept(a: seq<char>, k: nat, w: string, p: nat)
    requires StringAt(a, k, w) && k + |w| < p < |a|
    ensures StringAt(a[p := NUL], k, w)
  {
    assert a[p := NUL][k..k + |w|] == a[k..k + |w|];
  }

  /** The word just found, once it has been ended. */
  lemma StringCut(a: seq<char>, start: nat, p: nat, text: string)
    requires Remains(a, start, text) && start <= p <= |text|
    ensures StringAt(a[p := NUL], start, text[start..p])
    ensures p < |text| ==> Remains(a[p := NUL], p + 1, text)
    ensures p == |text| ==> a[p := NUL] == a
  {
    var b := a[p := NUL];
    assert b[start..p] == a[start..|text|][..p - start];
    assert text[start..][..p - start] == text[start..p];
    assert b[p] == NUL && b[|text|] == NUL;
    if p < |text| {
      assert b[p + 1..|text|] == a[start..|text|][p + 1 - start..];
      assert text[start..][p + 1 - start..] == text[p + 1..];
    }
  }

  lemma Begins(a: seq<char>, text: string)
    requires StringAt(a, 0, text)
    ensures Remains(a, 0, text)
  {
    assert text[0..] == text;
  }

  lemma NoMore(max: nat)
    ensures Args("", max) == []
  {
  }

  lemma BlankSkipped(text: string, p: nat, max: nat)
    requires p < |text| && IsBlank(text[p])
    ensures Args(text[p..], max) == Args(text[p + 1..], max)
  {
    assert text[p..][1..] == text[p + 1..];
  }

  /** What has been found so far: each word ended before `p`. */
  ghost predicate Found(a: seq<char>, argv: seq<nat>, words: seq<string>, p: nat) {
    |words| == |argv| && forall j :: 0 <= j < |argv| ==> StringAt(a, argv[j], words[j]) && argv[j] + |words[j]| < p
  }

  /** Cutting the word text[start..p] off and noting it. */
  lemma FoundMore(a: seq<char>, argv: seq<nat>, words: seq<string>, start: nat, p: nat, text: string)
    requires Remains(a, start, text) && start <= p <= |text| && Found(a, argv, words, start)
    ensures Found(a[p := NUL], argv + [start], words + [text[start..p]], p + 1)
    ensures p < |text| ==> Remains(a[p := NUL], p + 1, text)
    ensures p == |text| ==> a[p := NUL] == a
  {
    StringCut(a, start, p, text);
    RemainsBound(a, start, text);
    hide StringAt, Remains;
    forall j | 0 <= j < |argv| ensures StringAt(a[p := NUL], argv[j], words[j]) {
      StringKept(a, argv[j], words[j], p);
    }
  }

  lemma FoundLater(a: seq<char>, argv: seq<nat>, words: seq<string>, p: nat, q: nat)
    requires Found(a, argv, words, p) && p <= q
    ensures Found(a, argv, words, q)
  {
  }

  /** One word of the argument list. */
  lemma ArgsStep(text: string, from: nat, start: nat, p: nat, max: nat)
    requires from <= start < p <= |text| && max > 0
    requires text[start..] == SkipBlanks(text[from..]) && p - start == WordEnd(text[start..])
    ensures Args(text[from..], max) == [text[start..p]] + Args(text[p..], max - 1)
    ensures p < |text| ==> Args(text[p..], max - 1) == Args(text[p + 1..], max - 1)
  {
    hide SkipBlanks, WordEnd;
    var t := text[start..];
    assert t[p - start..] == text[p..] && t[..p - start] == text[start..p];
    if p < |text| {
      assert IsBlank(t[p - start]);
      BlankSkipped(text, p, max - 1);
    }
  }

  lemma ArgsEnd(text: string, from: nat, max: nat)
    requires from <= |text| && SkipBlanks(text[from..]) == ""
    ensures Args(text[from..], max) == []
  {
  }

  /** One round of the word loop: the next word is text[start..end], if there is one, and
      its end is cut. */
  method NextWord(line: array<char>, p: nat, max: nat, ghost text: string)
    returns (found: bool, start: nat, end: nat, more: bool)
    requires Remains(line[..], p, text) && max > 0
    modifies line
    ensures !found ==> Args(text[p..], max) == [] && line[..] == old(line[..])
    ensures found ==>
              && p <= start < end <= |text| < line.Length && (more <==> end < |text|)
              && Remains(old(line[..]), start, text)
              && line[..] == old(line[..])[end := NUL]
              && Args(text[p..], max) == [text[start..end]] + Args(After(text, end), max - 1)
  {
    hide SkipBlanks, WordEnd, Args, Remains;
    start := Skip(line, p, text);
    end, more := start, false;
    CharOf(line[..], start, text, start);
    RemainsBound(line[..], start, text);
    if line[start] == NUL {
      assert text[start..] == "";
      ArgsEnd(text, p, max);
      return false, start, end, more;
    }
    end := FindEnd(line, start, text);
    NonEmptyWord(text[start..]);
    ArgsStep(text, p, start, end, max);
    CharOf(line[..], start, text, end);
    if end == |text| { assert text[end..] == ""; }
    found, more := true, line[end] != NUL;
    if more { line[end] := NUL; }
  }

  /** The state of the word loop: `words` are noted in `argv`, `rest` is still to be read
      (from `p`, while there is more of the line). */
  ghost predicate Cutting(a: seq<char>, argv: seq<nat>, words: seq<string>, p: nat, more: bool, rest: string,
                          text: string, max: nat) {
    && |argv| <= max && p <= |text| && Found(a, argv, words, if more then p else p + 1)
    && (if more then Remains(a, p, text) && rest == text[p..] else rest == "")
    && Joins(words, Args(rest, max - |argv|), Args(text, max))
  }

  lemma CuttingStart(a: seq<char>, text: string, max: nat)
    requires StringAt(a, 0, text)
    ensures Cutting(a, [], [], 0, true, text, text, max)
  {
    Begins(a, text);
    assert text[0..] == text;
  }

  lemma CuttingEnd(a: seq<char>, argv: seq<nat>, words: seq<string>, p: nat, more: bool, rest: string, text: string,
                   max: nat)
    requires Cutting(a, argv, words, p, more, rest, text, max) && (!more || |argv| == max)
    ensures |argv| == |Args(text, max)|
    ensures forall j :: 0 <= j < |argv| ==> StringAt(a, argv[j], Args(text, max)[j])
  {
    NoArgs(rest);
    NoMore(max - |argv|);
    JoinsAll(words, Args(text, max));
  }

  lemma CuttingWord(a: seq<char>, argv: seq<nat>, words: seq<string>, p: nat, text: string, max: nat, start: nat,
                    end: nat)
    requires p <= |text| && Cutting(a, argv, words, p, true, text[p..], text, max) && |argv| < max
    requires p <= start < end <= |text| && Remains(a, start, text)
    requires Args(text[p..], max - |argv|) == [text[start..end]] + Args(After(text, end), max - |argv| - 1)
    ensures Cutting(a[end := NUL], argv + [start], words + [text[start..end]],
                 if end < |text| then end + 1 else end, end < |text|, After(text, end), text, max)
  {
    hide StringAt, Args, Remains, Found, Joins;
    FoundLater(a, argv, words, p, start);
    FoundMore(a, argv, words, start, end, text);
    JoinsStep(words, text[start..end], Args(After(text, end), max - |argv| - 1), Args(text, max));
  }

  /** What follows the blank at `end`. */
  function After(text: string, end: nat): string {
    if end < |text| then text[end + 1..] else ""
  }

  lemma CuttingNone(a: seq<char>, argv: seq<nat>, words: seq<string>, p: nat, text: string, max: nat)
    requires p <= |text| && Cutting(a, argv, words, p, true, text[p..], text, max) && |argv| < max
    requires Args(text[p..], max - |argv|) == []
    ensures Cutting(a, argv, words, p, false, "", text, max)
  {
    NoMore(max - |argv|);
    FoundLater(a, argv, words, p, p + 1);
    hide StringAt, Args, Remains, Found, Joins;
  }

  /** cli_simple_parse_line: cuts the words in place; `argv` are their offsets. */
  method ParseLine(line: array<char>, max: nat, ghost text: string) returns (argv: seq<nat>)
    requires StringAt(line[..], 0, text)
    modifies line
    ensures |argv| == |Args(text, max)|
    ensures forall j :: 0 <= j < |argv| ==> StringAt(line[..], argv[j], Args(text, max)[j])
  {
    argv := [];
    var p: nat, more := 0, true;
    ghost var words: seq<string>, rest: string := [], text;
    CuttingStart(line[..], text, max);
    while |argv| < max && more
      invariant Cutting(line[..], argv, words, p, more, rest, text, max)
      decreases max - |argv|, more
    {
      hide StringAt, Args, Found, Joins, After;
      ghost var a := line[..];
      var found, start, end, on := NextWord(line, p, max - |argv|, text);
      if found {
        CuttingWord(a, argv, words, p, text, max, start, end);
        words, rest := words + [text[start..end]], After(text, end);
        argv := argv + [start];
        p, more := if on then end + 1 else end, on;
      } else {
        CuttingNone(a, argv, words, p, text, max);
        more, rest := false, "";
      }
    }
    CuttingEnd(line[..], argv, words, p, more, rest, text, max);
  }

  ghost predicate Joins(a: seq<string>, b: seq<string>, c: seq<string>) { a + b == c }

  lemma JoinsStep(a: seq<string>, w: string, b: seq<string>, c: seq<string>)
    requires Joins(a, [w] + b, c)
    ensures Joins(a + [w], b, c)
  {
    assert a + [w] + b == a + ([w] + b);
  }

  lemma JoinsAll(a: seq<string>, c: seq<string>)
    requires Joins(a, [], c)
    ensures a == c
  {
  }

  lemma NoArgs(s: string)
    ensures Args(s, 0) == []
  {
  }

  lemma NonEmptyWord(s: string)
    ensures s != "" && !IsBlank(s[0]) ==> WordEnd(s) > 0
  {
  }

  // All three passes

  /** The argument vectors handed to the command table; the k-th token sees environment
      `envs(k)`, since the commands before it may have changed it. A token without words
      runs nothing. */
  function Commands(ts: seq<string>, envs: nat -> Env, k: nat, size: nat, max: nat): (cs: seq<seq<string>>)
    requires size > 0
    decreases |ts|
  {
    if ts == [] then []
    else
      var args := Args(Fitted(Macros(SCAN0, ts[0], envs(k)), size), max);
      (if args == [] then [] else [args]) + Commands(ts[1..], envs, k + 1, size, max)
  }

  /** The rest of the token from position i on. */
  function TokenRest(text: string, i: nat, first: bool, inQuotes: bool, prev: char): nat
    requires i <= |text|
  {
    TokenLen(text[i..], first, inQuotes, prev)
  }

  lemma TokenStep(text: string, i: nat, first: bool, inQuotes: bool, prev: char)
    requires i <= |text|
    ensures i == |text| ==> TokenRest(text, i, first, inQuotes, prev) == 0
    ensures i < |text| ==>
              var q := if text[i] == '\'' && prev != '\\' then !inQuotes else inQuotes;
              var ends := !q && text[i] == ';' && !first && prev != '\\';
              TokenRest(text, i, first, inQuotes, prev)
              == if ends then 0 else 1 + TokenRest(text, i + 1, false, q, text[i])
  {
    if i < |text| { assert text[i..][1..] == text[i + 1..]; }
  }

  /** The separator loop on the working copy of the command. */
  method FindSep(buf: array<char>, str: nat, before: char, ghost text: string) returns (sep: nat)
    requires Remains(buf[..], str, text) && (str > 0 ==> buf[str - 1] == NUL)
    ensures str <= sep <= |text| < buf.Length && Remains(buf[..], sep, text)
    ensures sep - str == TokenRest(text, str, true, false, if str == 0 then before else NUL)
  {
    assert str <= |text| < buf.Length;
    hide TokenRest, Remains;
    var inQuotes := false;
    sep := str;
    var prev := if sep == 0 then before else buf[sep - 1];
    ghost var total := TokenRest(text, str, true, false, prev);
    CharOf(buf[..], str, text, str);
    while buf[sep] != NUL
      invariant str <= sep <= |text| && Remains(buf[..], sep, text)
      invariant (buf[sep] == NUL <==> sep == |text|) && (sep < |text| ==> buf[sep] == text[sep])
      invariant prev == if sep == 0 then before else buf[sep - 1]
      invariant sep - str + TokenRest(text, sep, sep == str, inQuotes, prev) == total
      decreases |text| - sep
    {
      TokenStep(text, sep, sep == str, inQuotes, prev);
      if buf[sep] == '\'' && prev != '\\' { inQuotes := !inQuotes; }
      if !inQuotes && buf[sep] == ';' && sep != str && prev != '\\' { return; }
      sep := sep + 1;
      prev := buf[sep - 1];
      CharOf(buf[..], sep - 1, text, sep);
    }
    TokenStep(text, sep, sep == str, inQuotes, prev);
  }

  method ReadString(a: array<char>, k: nat, ghost w: string) returns (s: string)
    requires StringAt(a[..], k, w)
    ensures s == w
  {
    s := "";
    var i := k;
    while a[i] != NUL
      invariant k <= i <= k + |w| && s == w[..i - k]
      decreases k + |w| - i
    {
      assert a[i] == a[..][k..k + |w|][i - k] == w[i - k];
      s := s + [a[i]];
      i := i + 1;
    }
  }

  /** Macro pass and word splitter on one token. */
  method TokenArgs(token: string, env: Env, size: nat, max: nat) returns (args: seq<string>)
    requires size > 0 && NUL !in Macros(SCAN0, token, env)
    ensures args == Args(Fitted(Macros(SCAN0, token, env), size), max)
  {
    hide Macros;
    var final := new char[size];
    var len := ProcessMacros(token, env, final);
    ghost var text := Fitted(Macros(SCAN0, token, env), size);
    assert final[..][0..len] == final[..len];
    assert StringAt(final[..], 0, text);
    var argv := ParseLine(final, max, text);
    args := [];
    while |args| < |argv|
      invariant |args| <= |argv| && args == Args(text, max)[..|args|]
      invariant forall j :: 0 <= j < |argv| ==> StringAt(final[..], argv[j], Args(text, max)[j])
    {
      var w := ReadString(final, argv[|args|], Args(text, max)[|args|]);
      args := args + [w];
    }
  }

  /** The values of the environment are C strings. */
  predicate NoNulEnv(env: Env, name: string) { NUL !in ValueOf(env, name) }

  lemma {:induction false} NoNulMacros(st: Scan, s: string, env: Env)
    requires NUL !in s && forall name :: NoNulEnv(env, name)
    ensures NUL !in Macros(st, s, env)
    decreases |s|
  {
    if s == "" {
    } else if Escapes(st, s[0]) {
      if |s| > 1 {
        var st1 := st.(prev := '\\');
        NoNulFeed(st1, s[1], s[..2], env);
        NoNulMacros(Feed(st1, s[1], s[..2], env).0, s[2..], env);
      }
    } else {
      NoNulFeed(st, s[0], s[..1], env);
      NoNulMacros(Feed(st, s[0], s[..1], env).0, s[1..], env);
    }
  }

  lemma NoNulFeed(st: Scan, c: char, raw: string, env: Env)
    requires raw != "" && c != NUL && forall name :: NoNulEnv(env, name)
    ensures NUL !in Feed(st, c, raw, env).1
  {
    assert NoNulEnv(env, st.name + raw[..|raw| - 1]);
  }

  lemma TokensStep(cmd: string, str: nat, sep: nat, b: char)
    requires str < |cmd| && str <= sep <= |cmd| && sep - str == TokenRest(cmd, str, true, false, b)
    ensures sep > str
    ensures Tokens(cmd[str..], b) == [cmd[str..sep]] + Tokens(if sep < |cmd| then cmd[sep + 1..] else "", NUL)
  {
    hide TokenLen;
    var s := cmd[str..];
    assert s[..sep - str] == cmd[str..sep];
    if sep < |cmd| {
      assert s[sep - str + 1..] == cmd[sep + 1..];
    } else {
      assert s == cmd[str..sep];
      assert Tokens("", NUL) == [];
    }
  }

  lemma CommandsStep(t: string, ts: seq<string>, envs: nat -> Env, k: nat, size: nat, max: nat)
    requires size > 0
    ensures var args := Args(Fitted(Macros(SCAN0, t, envs(k)), size), max);
            Commands([t] + ts, envs, k, size, max)
            == (if args == [] then [] else [args]) + Commands(ts, envs, k + 1, size, max)
  {
    hide Args, Macros, Fitted;
    assert ([t] + ts)[1..] == ts;
  }

  /** The working copy, cut up to `str`: the character before `str` is a NUL. */
  predicate Cut(a: seq<char>, str: nat, cmd: string) {
    && str <= |cmd| < |a| && Remains(a, str, cmd)
    && (str > 0 && str < |cmd| ==> a[str - 1] == NUL)
    && (a[str] == NUL <==> str == |cmd|)
  }

  lemma CutAfter(a: seq<char>, sep: nat, cmd: string)
    requires Remains(a, sep, cmd) && sep < |cmd|
    ensures Cut(a[sep := NUL], sep + 1, cmd)
  {
    hide Remains;
    assert sep < |cmd| < |a| by { CharOf(a, sep, cmd, sep); RemainsBound(a, sep, cmd); }
    StringCut(a, sep, sep, cmd);
    CharOf(a[sep := NUL], sep + 1, cmd, sep + 1);
  }

  /** Finds the end of the token at `str` and cuts it off. */
  method NextToken(buf: array<char>, str: nat, before: char, ghost cmd: string) returns (token: string, next: nat)
    requires Cut(buf[..], str, cmd) && str < |cmd|
    modifies buf
    ensures str < next <= |cmd| && Cut(buf[..], next, cmd)
    ensures Tokens(cmd[str..], if str == 0 then before else NUL) == [token] + Tokens(cmd[next..], NUL)
    ensures token <= cmd[str..]
  {
    hide TokenLen, TokenRest, Remains, Tokens;
    var sep := FindSep(buf, str, before, cmd);
    CharOf(buf[..], sep, cmd, sep);
    TokensStep(cmd, str, sep, if str == 0 then before else NUL);
    RemainsBound(buf[..], str, cmd);
    assert buf[str..sep] == buf[..][str..|cmd|][..sep - str] == cmd[str..sep];
    token := buf[str..sep];
    if buf[sep] != NUL {
      CutAfter(buf[..], sep, cmd);
      buf[sep] := NUL;
      next := sep + 1;
    } else {
      next := sep;
      assert cmd[next..] == "";
    }
  }

  /** cli_simple_run_command up to the call of each command; `ok` is false for an empty or
      over-long command, which runs nothing. */
  method RunCommand(cmd: string, before: char, envs: nat -> Env, size: nat, max: nat)
    returns (ok: bool, ran: seq<seq<string>>)
    requires size > 0 && NUL !in cmd && forall k: nat, name :: NoNulEnv(envs(k), name)
    ensures ok <==> cmd != "" && |cmd| < size
    ensures ran == if ok then Commands(Tokens(cmd, before), envs, 0, size, max) else []
  {
    hide Macros, Args, Fitted, Tokens, Commands, Remains;
    if cmd == "" || |cmd| >= size { return false, []; }
    var buf := CopyOf(cmd, size);
    ran := [];
    var str, k: nat := 0, 0;
    assert cmd[0..] == cmd;
    while buf[str] != NUL
      invariant 0 <= str <= |cmd| && Cut(buf[..], str, cmd)
      invariant ran + Commands(Tokens(cmd[str..], if str == 0 then before else NUL), envs, k, size, max)
             == Commands(Tokens(cmd, before), envs, 0, size, max)
      decreases |cmd| - str
    {
      var token, next := NextToken(buf, str, before, cmd);
      CommandsStep(token, Tokens(cmd[next..], NUL), envs, k, size, max);
      NoNulMacros(SCAN0, token, envs(k));
      var args := TokenArgs(token, envs(k), size, max);
      if args != [] { ran := ran + [args]; }
      str, k := next, k + 1;
    }
    assert cmd[str..] == "";
    NoCommands(if str == 0 then before else NUL, envs, k, size, max);
    return true, ran;
  }

  lemma NoCommands(b: char, envs: nat -> Env, k: nat, size: nat, max: nat)
    requires size > 0
    ensures Commands(Tokens("", b), envs, k, size, max) == []
  {
  }

  method CopyOf(cmd: string, size: nat) returns (buf: array<char>)
    requires NUL !in cmd && |cmd| < size
    ensures fresh(buf) && Cut(buf[..], 0, cmd)
  {
    buf := new char[size];
    forall i | 0 <= i < |cmd| { buf[i] := cmd[i]; }
    buf[|cmd|] := NUL;
    assert buf[..][0..|cmd|] == cmd == cmd[0..];
  }
}
