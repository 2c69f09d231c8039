/** Printing a command with quoted arguments and running it through all three passes. */
module SimpleCliProof {
  import opened SimpleCli

  predicate Plain(c: char) { c !in {'\'', '\\', '$', ';', NUL} }
  predicate PlainText(t: string) { forall i :: 0 <= i < |t| ==> Plain(t[i]) }
  predicate NoBlank(t: string) { forall i :: 0 <= i < |t| ==> !IsBlank(t[i]) }

  /** A command name that needs no quotes. */
  predicate OkName(t: string) { t != "" && PlainText(t) && NoBlank(t) }

  /** What may stand between single quotes: anything, dollars and semicolons included, but
      no quote, no blank and no backslash at the end. */
  predicate OkArg(t: string) {
    t != "" && NoBlank(t) && '\'' !in t && NUL !in t && t[|t| - 1] != '\\'
  }

  predicate OkArgs(args: seq<string>) { forall i :: 0 <= i < |args| ==> OkArg(args[i]) }

  function Quoted(args: seq<string>): (s: string) {
    if args == [] then "" else " '" + args[0] + "'" + Quoted(args[1..])
  }

  function Spaced(args: seq<string>): (s: string) {
    if args == [] then "" else " " + args[0] + Spaced(args[1..])
  }

  function Print(name: string, args: seq<string>): (s: string) { name + Quoted(args) }

  function LastOr(t: string, c: char): char { if t == "" then c else t[|t| - 1] }

  // Separators

  lemma {:induction false} TokenPlain(t: string, rest: string, first: bool, prev: char)
    requires PlainText(t)
    ensures TokenLen(t + rest, first, false, prev) == |t| + TokenLen(rest, first && t == "", false, LastOr(t, prev))
    decreases |t|
  {
    if t == "" {
      assert t + rest == rest;
    } else {
      assert (t + rest)[1..] == t[1..] + rest && Plain(t[0]);
      TokenPlain(t[1..], rest, false, t[0]);
    }
  }

  lemma {:induction false} TokenInQuotes(t: string, rest: string, prev: char)
    requires '\'' !in t
    ensures TokenLen(t + rest, false, true, prev) == |t| + TokenLen(rest, false, true, LastOr(t, prev))
    decreases |t|
  {
    if t == "" {
      assert t + rest == rest;
    } else {
      assert (t + rest)[1..] == t[1..] + rest;
      TokenInQuotes(t[1..], rest, t[0]);
    }
  }

  /** A quoted argument never ends a token. */
  lemma {:induction false} TokenQuoted(args: seq<string>, prev: char)
    requires OkArgs(args) && prev != '\\'
    ensures TokenLen(Quoted(args), false, false, prev) == |Quoted(args)|
    decreases args
  {
    if args != [] {
      var a, rest := args[0], Quoted(args[1..]);
      var s := Quoted(args);
      assert OkArg(a);
      assert s == " " + ("'" + (a + ("'" + rest)));
      TokenPlain(" ", "'" + (a + ("'" + rest)), false, prev);
      assert ("'" + (a + ("'" + rest)))[1..] == a + ("'" + rest);
      TokenInQuotes(a, "'" + rest, '\'');
      assert ("'" + rest)[1..] == rest;
      TokenQuoted(args[1..], '\'');
    }
  }

  lemma OneToken(name: string, args: seq<string>, before: char)
    requires OkName(name) && OkArgs(args)
    ensures Tokens(Print(name, args), before) == [Print(name, args)]
  {
    TokenPlain(name, Quoted(args), true, before);
    assert Plain(name[|name| - 1]);
    TokenQuoted(args, name[|name| - 1]);
  }

  // Macros

  lemma MacroChar(st: Scan, c: char, rest: string, env: Env)
    requires !Escapes(st, c)
    ensures var r := Feed(st, c, [c], env);
            Macros(st, [c] + rest, env) == r.1 + Macros(r.0, rest, env)
  {
    var s := [c] + rest;
    assert s[..1] == [c] && s[1..] == rest;
  }

  lemma {:induction false} MacroPlain(t: string, rest: string, st: Scan, env: Env)
    requires PlainText(t) && st.mode == 0
    ensures Macros(st, t + rest, env) == t + Macros(st.(prev := LastOr(t, st.prev)), rest, env)
    decreases |t|
  {
    if t == "" {
      assert t + rest == rest;
    } else {
      assert Plain(t[0]) && t + rest == [t[0]] + (t[1..] + rest);
      MacroChar(st, t[0], t[1..] + rest, env);
      MacroPlain(t[1..], rest, st.(prev := t[0]), env);
      var more := Macros(st.(prev := LastOr(t, st.prev)), rest, env);
      assert [t[0]] + (t[1..] + more) == t + more;
    }
  }

  lemma {:induction false} MacroInQuotes(t: string, rest: string, st: Scan, env: Env)
    requires '\'' !in t && st.mode == 3
    ensures Macros(st, t + rest, env) == t + Macros(st.(prev := LastOr(t, st.prev)), rest, env)
    decreases |t|
  {
    if t == "" {
      assert t + rest == rest;
    } else {
      assert t + rest == [t[0]] + (t[1..] + rest);
      MacroChar(st, t[0], t[1..] + rest, env);
      MacroInQuotes(t[1..], rest, st.(prev := t[0]), env);
      var more := Macros(st.(prev := LastOr(t, st.prev)), rest, env);
      assert [t[0]] + (t[1..] + more) == t + more;
    }
  }

  /** One quoted argument loses its quotes. */
  lemma MacroQuotedOne(a: string, rest: string, st: Scan, env: Env)
    requires OkArg(a) && st.mode == 0 && st.prev != '\\'
    ensures Macros(st, " '" + a + "'" + rest, env) == " " + a + Macros(st.(prev := '\''), rest, env)
  {
    hide Macros, OkArg, PlainText;
    assert '\'' !in a && LastOr(a, '\'') != '\\' by { LastOfArg(a); }
    var st1, st2 := st.(prev := ' '), st.(mode := 3, prev := '\'');
    var q := ['\''];
    assert " '" + a + "'" + rest == " " + (q + (a + (q + rest)));
    assert PlainText(" ") by { PlainBlank(); }
    MacroPlain(" ", q + (a + (q + rest)), st, env);
    MacroChar(st1, '\'', a + (q + rest), env);
    MacroInQuotes(a, q + rest, st2, env);
    MacroChar(st2.(prev := LastOr(a, '\'')), '\'', rest, env);
  }

  lemma LastOfArg(a: string)
    requires OkArg(a)
    ensures '\'' !in a && LastOr(a, '\'') != '\\'
  {
  }

  lemma PlainBlank()
    ensures PlainText(" ")
  {
  }

  lemma {:induction false} MacroQuoted(args: seq<string>, st: Scan, env: Env)
    requires OkArgs(args) && st.mode == 0 && st.prev != '\\'
    ensures Macros(st, Quoted(args), env) == Spaced(args)
    decreases args
  {
    if args == [] {
      assert Macros(st, "", env) == "";
    } else {
      hide Macros, OkArg;
      assert OkArg(args[0]);
      MacroQuotedOne(args[0], Quoted(args[1..]), st, env);
      MacroQuoted(args[1..], st.(prev := '\''), env);
    }
  }

  lemma MacrosUnquote(name: string, args: seq<string>, env: Env)
    requires OkName(name) && OkArgs(args)
    ensures Macros(SCAN0, Print(name, args), env) == name + Spaced(args)
  {
    MacroPlain(name, Quoted(args), SCAN0, env);
    assert Plain(name[|name| - 1]);
    MacroQuoted(args, SCAN0.(prev := name[|name| - 1]), env);
  }

  // Words

  lemma {:induction false} WordEndOf(w: string, rest: string)
    requires NoBlank(w) && (rest == "" || IsBlank(rest[0]))
    ensures WordEnd(w + rest) == |w|
    decreases |w|
  {
    if w == "" {
      assert w + rest == rest;
    } else {
      assert (w + rest)[1..] == w[1..] + rest;
      WordEndOf(w[1..], rest);
    }
  }

  lemma FirstWord(w: string, rest: string, max: nat)
    requires w != "" && NoBlank(w) && (rest == "" || IsBlank(rest[0])) && max > 0
    ensures Args(w + rest, max) == [w] + Args(rest, max - 1)
    ensures Args(" " + (w + rest), max) == [w] + Args(rest, max - 1)
  {
    WordEndOf(w, rest);
    var s := w + rest;
    assert !IsBlank(s[0]) && s[..|w|] == w && s[|w|..] == rest;
    assert (" " + s)[1..] == s;
  }

  lemma {:induction false} SpacedWords(args: seq<string>, max: nat)
    requires OkArgs(args) && |args| <= max
    ensures Args(Spaced(args), max) == args
    decreases args
  {
    hide Args;
    if args == [] {
      NoMore(max);
    } else {
      var a, rest := args[0], Spaced(args[1..]);
      assert OkArg(a);
      assert rest == "" || rest[0] == ' ';
      SpacedWords(args[1..], max - 1);
      FirstWord(a, rest, max);
      assert Spaced(args) == " " + (a + rest);
      assert [a] + args[1..] == args;
    }
  }

  lemma {:induction false} Shorter(args: seq<string>)
    ensures |Spaced(args)| + 2 * |args| == |Quoted(args)|
  {
    if args != [] { Shorter(args[1..]); }
  }

  /** A plain name and quoted arguments that fit the buffer and the argument limit come out
      of splitter, macro pass and word splitter as one command with exactly that argument
      vector, whatever the environment and whatever stands in memory before the buffer. */
  lemma PrintThenRun(name: string, args: seq<string>, before: char, envs: nat -> Env, size: nat, max: nat)
    requires OkName(name) && OkArgs(args)
    requires |Print(name, args)| < size && 1 + |args| <= max
    ensures Commands(Tokens(Print(name, args), before), envs, 0, size, max) == [[name] + args]
  {
    hide TokenLen, Macros, Args;
    var s := Print(name, args);
    OneToken(name, args, before);
    MacrosUnquote(name, args, envs(0));
    Shorter(args);
    FirstWord(name, Spaced(args), max);
    SpacedWords(args, max - 1);
    assert [s][1..] == [];
    assert Commands([], envs, 1, size, max) == [];
  }
}
