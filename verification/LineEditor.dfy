/**
 The line editor of cli_readline.c with history and without auto-completion.
 A two-sided text buffer is the specification; the class keeps one array with two indices
 and emits characters to the terminal.
 */
module LineEditor {
  import opened Wrappers
  import H = History

  const ESC: char := '\U{001B}'
  const NUL: char := '\U{0000}'
  const BELL: char := '\U{0007}'
  const BS: char := '\U{0008}'

  /** Text before and after the cursor, insert mode, the part of an escape sequence seen so
      far, and the history. */
  datatype Ed = Ed(left: string, right: string, insert: bool, esc: string, hist: H.Hist)

  datatype Key =
    | Add(text: string)
    | Home | Back | Forward | End | Delete | Rub | KillEnd | KillLine
    | Toggle | Up | Down | StartEsc | StartBracket | Enter | Abort

  function Ctl(c: char): char
    requires 'a' <= c <= 'z'
  {
    (c as int - 'a' as int + 1) as char
  }

  /** What a character means outside an escape sequence. */
  function Plain(c: char): (k: Key) {
    if c == ESC then StartEsc
    else if c == Ctl('a') then Home
    else if c == Ctl('c') then Abort
    else if c == Ctl('f') then Forward
    else if c == Ctl('b') then Back
    else if c == Ctl('d') then Delete
    else if c == Ctl('k') then KillEnd
    else if c == Ctl('e') then End
    else if c == Ctl('o') then Toggle
    else if c == Ctl('x') || c == Ctl('u') then KillLine
    else if c as int in {255, 127, 8} then Rub
    else if c == Ctl('p') then Up
    else if c == Ctl('n') then Down
    else Add([c])
  }

  /** A sequence that is not understood is inserted as text; after a lone escape the
      character that follows is lost. */
  function Decode(esc: string, c: char): (k: Key) {
    if c == '\n' || c == '\r' then Enter
    else if |esc| == 0 then Plain(c)
    else if |esc| == 1 then (if c == '[' then StartBracket else Add(esc))
    else if c == 'D' then Back
    else if c == 'C' then Forward
    else if c == 'H' then Home
    else if c == 'A' then Up
    else if c == 'B' then Down
    else Add(esc + [c])
  }

  // What the terminal is sent

  function Backs(n: nat): (s: string) { seq(n, _ => BS) }
  function Spaces(n: nat): (s: string) { seq(n, _ => ' ') }

  /** Printing stops at a NUL. */
  function UpToNul(s: string): (r: string)
    ensures NUL !in r && |r| <= |s|
    ensures NUL !in s ==> r == s
  {
    if s == "" || s[0] == NUL then "" else [s[0]] + UpToNul(s[1..])
  }

  lemma UpToNulStep(s: string)
    ensures s != "" && s[0] != NUL ==> UpToNul(s) == [s[0]] + UpToNul(s[1..])
    ensures s == "" || s[0] == NUL ==> UpToNul(s) == ""
  {
  }

  function Erase(n: nat): (s: string) { Spaces(n) + Backs(n) }

  // The specification

  predicate Fits(h: H.Hist, cap: nat) {
    H.Inv(h) && forall i :: 0 <= i < |h.lines| ==> |h.lines[i]| <= cap && NUL !in h.lines[i]
  }

  predicate EscOk(esc: string) { esc == "" || esc == [ESC] || esc == [ESC, '['] }

  predicate Inv(e: Ed, cap: nat) {
    |e.left| + |e.right| <= cap && EscOk(e.esc) && Fits(e.hist, cap)
  }

  lemma RecallFits(h: H.Hist, up: bool, cap: nat)
    requires Fits(h, cap)
    ensures var r := if up then H.Prev(h) else H.Next(h);
            Fits(r.0, cap) && (r.1.Some? ==> |r.1.value| <= cap && NUL !in r.1.value)
  {
  }

  function AddChar(e: Ed, c: char, cap: nat): (r: (Ed, string))
    requires Inv(e, cap)
    ensures Inv(r.0, cap)
  {
    if (e.insert || e.right == "") && |e.left| + |e.right| >= cap then (e, [BELL])
    else if e.insert then
      (e.(left := e.left + [c]), UpToNul([c] + e.right) + Backs(|e.right|))
    else
      (e.(left := e.left + [c], right := if e.right == "" then "" else e.right[1..]), UpToNul([c]))
  }

  function AddText(e: Ed, text: string, cap: nat): (r: (Ed, string))
    requires Inv(e, cap)
    ensures Inv(r.0, cap)
    decreases |text|
  {
    if text == "" then (e, "")
    else
      var (e1, out1) := AddChar(e, text[0], cap);
      var (e2, out2) := AddText(e1, text[1..], cap);
      (e2, out1 + out2)
  }

  function Recall(e: Ed, found: (H.Hist, Option<string>), cap: nat): (r: (Ed, string))
    requires Inv(e, cap) && Fits(found.0, cap)
    requires found.1.Some? ==> |found.1.value| <= cap
    ensures Inv(r.0, cap)
  {
    match found.1
    case None => (e, [BELL])
    case Some(line) =>
      (e.(left := line, right := "", hist := found.0),
       Backs(|e.left|) + Erase(|e.left| + |e.right|) + UpToNul(line))
  }

  /** The effect of a key and what it emits. */
  function Apply(e: Ed, k: Key, cap: nat): (r: (Ed, string))
    requires Inv(e, cap)
    ensures Inv(r.0, cap)
  {
    var e := e.(esc := "");
    match k
    case Add(text) => AddText(e, text, cap)
    case Home => (e.(left := "", right := e.left + e.right), Backs(|e.left|))
    case Back =>
      if e.left == "" then (e, "")
      else (e.(left := e.left[..|e.left| - 1], right := [e.left[|e.left| - 1]] + e.right), [BS])
    case Forward =>
      if e.right == "" then (e, "")
      else (e.(left := e.left + [e.right[0]], right := e.right[1..]), [e.right[0]])
    case End => (e.(left := e.left + e.right, right := ""), UpToNul(e.right))
    case Delete =>
      if e.right == "" then (e, "")
      else (e.(right := e.right[1..]), UpToNul(e.right[1..]) + [' '] + Backs(|e.right|))
    case Rub =>
      if e.left == "" then (e, "")
      else (e.(left := e.left[..|e.left| - 1]), [BS] + UpToNul(e.right) + [' '] + Backs(|e.right| + 1))
    case KillEnd => (e.(right := ""), Erase(|e.right|))
    case KillLine => (e.(left := "", right := ""), Backs(|e.left|) + Erase(|e.left| + |e.right|))
    case Toggle => (e.(insert := !e.insert), "")
    case Up => Recall(e, H.Prev(e.hist), cap)
    case Down => Recall(e, H.Next(e.hist), cap)
    case StartEsc => (e.(esc := [ESC]), "")
    case StartBracket => (e.(esc := [ESC, '[']), "")
    case Enter => (e, "\n")
    case Abort => (e, "")
  }

  /** The line handed to the caller, and the history it leaves. */
  function Line(e: Ed): (s: string) { UpToNul(e.left + e.right) }

  function Finish(e: Ed): (h: H.Hist) {
    var line := Line(e);
    if line != "" && line[0] != '!' then H.Hist(e.hist.lines + [line], 0) else e.hist.(back := 0)
  }

  datatype Reading =
    | Waiting(e: Ed)
    | GotLine(line: string, hist: H.Hist, rest: string)
    | Aborted(hist: H.Hist, rest: string)

  /** Reading keys until the line is ended or aborted. */
  function ReadKeys(e: Ed, keys: string, cap: nat): (r: Reading)
    requires Inv(e, cap)
    ensures r.GotLine? ==> |r.line| <= cap && Fits(r.hist, cap)
    ensures r.Aborted? ==> Fits(r.hist, cap)
    decreases |keys|
  {
    if keys == "" then Waiting(e)
    else
      var key := Decode(e.esc, keys[0]);
      if key == Enter then GotLine(Line(e), Finish(e), keys[1..])
      else if key == Abort then Aborted(e.hist, keys[1..])
      else ReadKeys(Apply(e, key, cap).0, keys[1..], cap)
  }

  /** A run of keys that neither ends nor aborts the line. */
  function Run(e: Ed, keys: string, cap: nat): (r: (Ed, string))
    requires Inv(e, cap)
    ensures Inv(r.0, cap)
    decreases |keys|
  {
    if keys == "" then (e, "")
    else
      var (e1, out1) := Apply(e, Decode(e.esc, keys[0]), cap);
      var (e2, out2) := Run(e1, keys[1..], cap);
      (e2, out1 + out2)
  }

  /** What is emitted while keys are read; the key that ends the line puts the terminal on a
      new one. */
  function Echo(e: Ed, keys: string, cap: nat): (out: string)
    requires Inv(e, cap)
    decreases |keys|
  {
    if keys == "" then ""
    else
      var key := Decode(e.esc, keys[0]);
      if key == Enter then "\n"
      else if key == Abort then ""
      else
        var (e1, out1) := Apply(e, key, cap);
        out1 + Echo(e1, keys[1..], cap)
  }

  /** How many keys come before the one that ends or aborts the line. */
  function Used(e: Ed, keys: string, cap: nat): (n: nat)
    requires Inv(e, cap)
    ensures n <= |keys|
    decreases |keys|
  {
    if keys == "" then 0
    else
      var key := Decode(e.esc, keys[0]);
      if key in {Enter, Abort} then 0 else 1 + Used(Apply(e, key, cap).0, keys[1..], cap)
  }

  /** Reading is running the keys before the last one, and that one then ends the line. */
  lemma {:induction false} ReadIsRun(e: Ed, keys: string, cap: nat)
    requires Inv(e, cap)
    ensures var n := Used(e, keys, cap);
            var (e', out) := Run(e, keys[..n], cap);
            match ReadKeys(e, keys, cap)
            case Waiting(e1) => n == |keys| && e1 == e' && Echo(e, keys, cap) == out
            case GotLine(line, h, rest) =>
              && n < |keys| && Decode(e'.esc, keys[n]) == Enter && rest == keys[n + 1..]
              && line == Line(e') && h == Finish(e') && Echo(e, keys, cap) == out + "\n"
            case Aborted(h, rest) =>
              && n < |keys| && Decode(e'.esc, keys[n]) == Abort && rest == keys[n + 1..]
              && h == e'.hist && Echo(e, keys, cap) == out
    decreases |keys|
  {
    hide Apply, Decode, Line, Finish, Fits;
    var n := Used(e, keys, cap);
    if n > 0 {
      var key := Decode(e.esc, keys[0]);
      var (e1, out1) := Apply(e, key, cap);
      assert keys[..n][0] == keys[0] && keys[..n][1..] == keys[1..][..n - 1];
      ReadIsRun(e1, keys[1..], cap);
      var out2 := Run(e1, keys[1..][..n - 1], cap).1;
      assert out1 + (out2 + "\n") == out1 + out2 + "\n";
    } else {
      assert keys[..0] == "" && Run(e, "", cap) == (e, "");
      assert "" + "\n" == "\n";
    }
  }

  /** Text that stood in the buffer before is inserted first; if it fits it is just there. */
  lemma {:induction false} InitialText(left: string, text: string, h: H.Hist, cap: nat)
    requires |left| + |text| <= cap && NUL !in text && Inv(Ed(left, "", true, "", h), cap)
    ensures AddText(Ed(left, "", true, "", h), text, cap) == (Ed(left + text, "", true, "", h), text)
    decreases |text|
  {
    if text == "" {
      assert left + "" == left;
    } else {
      var e := Ed(left, "", true, "", h);
      hide Fits;
      assert UpToNul([text[0]] + "") + Backs(0) == [text[0]];
      assert AddChar(e, text[0], cap) == (e.(left := left + [text[0]]), [text[0]]);
      InitialText(left + [text[0]], text[1..], h, cap);
      assert left + [text[0]] + text[1..] == left + text && [text[0]] + text[1..] == text;
    }
  }

  // The editor as the C code has it

  lemma Rejoin(a: string, b: string, c: string)
    ensures a + b + c == a + (b + c)
  {
  }

  lemma RejoinFour(a: string, b: string, c: string, d: string)
    ensures a + b + c + d == a + (b + c + d)
  {
  }

  lemma GapOpened(b: string, b': string, num: nat, eol: nat, c: char)
    requires num < eol <= |b| == |b'| && b'[num] == c
    requires forall i :: 0 <= i < num ==> b'[i] == b[i]
    requires forall i :: num < i < eol ==> b'[i] == b[i - 1]
    ensures b'[..num] == b[..num] && b'[num..eol] == [c] + b[num..eol - 1]
  {
  }

  lemma AfterFirst(b: string, num: nat, eol: nat, c: char, right: string)
    requires num < eol <= |b| && b[num..eol] == [c] + right
    ensures b[..num + 1] == b[..num] + [c] && b[num + 1..eol] == right
  {
    assert b[num] == b[num..eol][0];
    assert b[num + 1..eol] == b[num..eol][1..];
  }

  class Editor {
    const cap: nat
    const buf: array<char>
    const hist: H.Ring
    var num: nat
    var eol: nat
    var insert: bool
    var esc: string     // esc_save[..esc_len]
    var out: string

    ghost predicate Shape()
      reads this, buf
    {
      && cap >= 1 && buf.Length == cap + 1
      && num <= eol <= cap
      && EscOk(esc)
    }

    ghost predicate Valid()
      reads this, buf, hist, hist.slots
    {
      Shape() && hist.Valid() && Fits(hist.value, cap)
    }

    ghost function Left(): string
      reads this, buf
      requires num <= buf.Length
    {
      buf[..num]
    }

    ghost function Right(): string
      reads this, buf
      requires num <= eol <= buf.Length
    {
      buf[num..eol]
    }

    ghost function Value(): (e: Ed)
      reads this, buf, hist, hist.slots
      requires Valid()
      ensures Inv(e, cap)
    {
      Ed(Left(), Right(), insert, esc, hist.value)
    }

    /** Starts an empty line. */
    constructor (cap: nat, hist: H.Ring)
      requires cap >= 1 && hist.Valid() && Fits(hist.value, cap)
      ensures Valid() && Value() == Ed("", "", true, "", hist.value) && out == ""
      ensures this.cap == cap && this.hist == hist && fresh(buf)
    {
      this.cap, this.hist := cap, hist;
      buf := new char[cap + 1](_ => NUL);
      num, eol, insert, esc, out := 0, 0, true, "", "";
    }

    /** putnstr. */
    method PutN(from: nat, n: nat)
      requires from + n <= buf.Length
      modifies this`out
      ensures out == old(out) + UpToNul(buf[from..from + n])
    {
      out := out + UpToNul(buf[from..from + n]);
    }

    method PutBacks(n: nat)
      modifies this`out
      ensures out == old(out) + Backs(n)
    {
      var left := n;
      while left > 0
        invariant 0 <= left <= n && out == old(out) + Backs(n - left)
      {
        assert Backs(n - left) + [BS] == Backs(n - left + 1);
        out := out + [BS];
        left := left - 1;
      }
    }

    method PutSpaces(n: nat)
      modifies this`out
      ensures out == old(out) + Spaces(n)
    {
      out := out + Spaces(n);
    }

    /** The memmove and store of cread_add_char in insert mode. */
    method OpenGap(c: char)
      requires Shape() && eol < cap
      modifies this`eol, buf
      ensures Shape() && eol == old(eol) + 1
      ensures Left() == old(Left()) && Right() == [c] + old(Right())
    {
      ghost var b := buf[..];
      eol := eol + 1;
      forall i | num <= i < eol - 1 { buf[i + 1] := buf[i]; }
      buf[num] := c;
      GapOpened(b, buf[..], num, eol, c);
    }

    /** cread_add_char. */
    method InsertChar(c: char)
      requires Shape()
      modifies this`num, this`eol, this`out, buf
      ensures Shape()
      ensures var full := (insert || old(Right()) == "") && |old(Left())| + |old(Right())| >= cap;
              && (full ==> Left() == old(Left()) && Right() == old(Right()) && out == old(out) + [BELL])
              && (!full ==> Left() == old(Left()) + [c])
              && (!full && insert ==>
                    Right() == old(Right()) && out == old(out) + (UpToNul([c] + old(Right())) + Backs(|old(Right())|)))
              && (!full && !insert ==>
                    Right() == (if old(Right()) == "" then "" else old(Right())[1..]) && out == old(out) + UpToNul([c]))
    {
      hide UpToNul, Backs, EscOk, Fits;
      if (insert || num == eol) && eol > cap - 1 {
        out := out + [BELL];
        return;
      }
      if insert { PushIn(c); } else { Overtype(c); }
    }

    method PushIn(c: char)
      requires Shape() && eol < cap
      modifies this`num, this`eol, this`out, buf
      ensures Shape() && Left() == old(Left()) + [c] && Right() == old(Right())
      ensures out == old(out) + (UpToNul([c] + old(Right())) + Backs(|old(Right())|))
    {
      hide UpToNul, Backs, EscOk, Fits;
      OpenGap(c);
      var wlen := eol - num;
      PutN(num, wlen);
      PutBacks(wlen - 1);
      Rejoin(old(out), UpToNul([c] + old(Right())), Backs(wlen - 1));
      AfterFirst(buf[..], num, eol, c, old(Right()));
      num := num + 1;
    }

    method Overtype(c: char)
      requires Shape() && (num == eol ==> eol < cap)
      modifies this`num, this`eol, this`out, buf
      ensures Shape() && Left() == old(Left()) + [c]
      ensures Right() == if old(Right()) == "" then "" else old(Right())[1..]
      ensures out == old(out) + UpToNul([c])
    {
      hide UpToNul;
      if num == eol { eol := eol + 1; }
      buf[num] := c;
      assert buf[num..num + 1] == [c];
      PutN(num, 1);
      assert buf[..num + 1] == buf[..num] + [c];
      num := num + 1;
    }

    method InsertOne(c: char)
      requires Valid() && esc == ""
      modifies this`num, this`eol, this`out, buf
      ensures Valid() && esc == ""
      ensures Value() == AddChar(old(Value()), c, cap).0 && out == old(out) + AddChar(old(Value()), c, cap).1
    {
      hide UpToNul, Backs, EscOk, Fits;
      InsertChar(c);
    }

    /** cread_add_str. */
    method InsertText(text: string)
      requires Valid() && esc == ""
      modifies this`num, this`eol, this`out, buf
      ensures Valid()
      ensures Value() == AddText(old(Value()), text, cap).0 && out == old(out) + AddText(old(Value()), text, cap).1
    {
      hide AddChar;
      var i := 0;
      ghost var goal := AddText(Value(), text, cap);
      while i < |text|
        invariant 0 <= i <= |text| && Valid() && esc == ""
        invariant var rest := AddText(Value(), text[i..], cap);
                  goal.0 == rest.0 && old(out) + goal.1 == out + rest.1
      {
        assert text[i..][1..] == text[i + 1..];
        InsertOne(text[i]);
        i := i + 1;
      }
      assert text[i..] == "";
      assert AddText(Value(), "", cap) == (Value(), "") && out + "" == out;
    }

    // The editing keys

    method GoHome()
      requires Shape()
      modifies this`num, this`out
      ensures Shape() && num == 0 && out == old(out) + Backs(old(num))
      ensures Left() == "" && Right() == old(Left()) + old(Right())
    {
      PutBacks(num);
      assert buf[0..eol] == buf[..num] + buf[num..eol];
      num := 0;
    }

    method EraseToEol()
      requires Shape()
      modifies this`eol, this`out
      ensures Shape() && eol == num && out == old(out) + Erase(old(eol) - num)
    {
      if num < eol {
        var n := eol - num;
        PutSpaces(n);
        PutBacks(n);
        eol := num;
        assert out == old(out) + (Spaces(n) + Backs(n));
      }
    }

    method RefreshToEol()
      requires Shape()
      modifies this`num, this`out
      ensures Shape() && num == eol && out == old(out) + UpToNul(old(Right()))
      ensures Left() == old(Left()) + old(Right()) && Right() == ""
    {
      assert buf[..eol] == buf[..num] + buf[num..eol];
      if num < eol {
        PutN(num, eol - num);
        num := eol;
      }
    }

    /** The memmove that takes out the character at `at`. */
    method CloseGap(at: nat)
      requires Shape() && at < eol
      modifies buf
      ensures Shape() && buf[..at] == old(buf[..at]) && buf[at..eol - 1] == old(buf[at + 1..eol])
    {
      forall i | at <= i < eol - 1 { buf[i] := buf[i + 1]; }
    }

    method DeleteChar()
      requires Shape()
      modifies this`eol, this`out, buf
      ensures Shape() && Left() == old(Left())
      ensures old(Right()) == "" ==> Right() == "" && out == old(out)
      ensures old(Right()) != "" ==>
                Right() == old(Right())[1..]
                && out == old(out) + (UpToNul(old(Right())[1..]) + [' '] + Backs(|old(Right())|))
    {
      hide UpToNul, Backs, EscOk, Fits;
      if num < eol {
        var wlen := eol - num - 1;
        CloseGap(num);
        eol := eol - 1;
        PutN(num, wlen);
        out := out + [' '];
        PutBacks(wlen + 1);
        RejoinFour(old(out), UpToNul(Right()), [' '], Backs(wlen + 1));
      }
    }

    method RubChar()
      requires Shape()
      modifies this`num, this`eol, this`out, buf
      ensures Shape()
      ensures old(Left()) == "" ==> Left() == "" && Right() == old(Right()) && out == old(out)
      ensures old(Left()) != "" ==>
                Left() == old(Left())[..|old(Left())| - 1] && Right() == old(Right())
                && out == old(out) + ([BS] + UpToNul(old(Right())) + [' '] + Backs(|old(Right())| + 1))
    {
      hide UpToNul, Backs, EscOk, Fits;
      if num > 0 {
        assert buf[..num - 1] == buf[..num][..num - 1];
        var wlen := eol - num;
        CloseGap(num - 1);
        num := num - 1;
        eol := eol - 1;
        out := out + [BS];
        PutN(num, wlen);
        out := out + [' '];
        PutBacks(wlen + 1);
        Rejoin(old(out), [BS], UpToNul(Right()));
        RejoinFour(old(out), [BS] + UpToNul(Right()), [' '], Backs(wlen + 1));
      }
    }

    /** The strcpy of a history line. */
    method LoadLine(line: string)
      requires Shape() && num == 0 && |line| <= cap
      modifies this`eol, buf
      ensures Shape() && Left() == "" && Right() == line
    {
      forall i | 0 <= i < |line| { buf[i] := line[i]; }
      buf[|line|] := NUL;
      eol := |line|;
    }

    /** Copies a history line into place and shows it. */
    method ShowLine(line: string)
      requires Shape() && |line| <= cap && NUL !in line
      modifies this`num, this`eol, this`out, buf
      ensures Shape() && Left() == line && Right() == ""
      ensures out == old(out) + (Backs(old(num)) + Erase(old(eol)) + UpToNul(line))
    {
      hide UpToNul, Backs, Erase, EscOk, Fits;
      Wipe();
      LoadLine(line);
      RefreshToEol();
      Rejoin(old(out), Backs(old(num)) + Erase(old(eol)), UpToNul(line));
      assert [] + line == line;
    }

    method RecallLine(up: bool)
      requires Valid() && esc == ""
      modifies this`num, this`eol, this`out, buf, hist
      ensures Valid() && esc == ""
      ensures var found := if up then H.Prev(old(hist.value)) else H.Next(old(hist.value));
              var r := Recall(old(Value()), found, cap);
              Value() == r.0 && out == old(out) + r.1
    {
      hide UpToNul, Backs, Erase, EscOk, Fits;
      RecallFits(hist.value, up, cap);
      var line;
      if up { line := hist.GoPrev(); } else { line := hist.GoNext(); }
      match line
      case None => out := out + [BELL];
      case Some(text) => ShowLine(text);
    }

    method StepBack()
      requires Shape()
      modifies this`num, this`out
      ensures Shape()
      ensures old(num) == 0 ==> num == 0 && out == old(out)
      ensures old(num) > 0 ==>
                var l := old(Left());
                Left() == l[..|l| - 1] && Right() == [l[|l| - 1]] + old(Right()) && out == old(out) + [BS]
    {
      if num > 0 {
        out := out + [BS];
        assert buf[num - 1..eol] == [buf[num - 1]] + buf[num..eol];
        num := num - 1;
      }
    }

    method StepForward()
      requires Shape()
      modifies this`num, this`out
      ensures Shape()
      ensures old(Right()) == "" ==> num == old(num) && out == old(out)
      ensures old(Right()) != "" ==>
                var r := old(Right());
                Left() == old(Left()) + [r[0]] && Right() == r[1..] && out == old(out) + [r[0]]
    {
      if num < eol {
        out := out + [buf[num]];
        assert buf[..num + 1] == buf[..num] + [buf[num]];
        num := num + 1;
      }
    }

    method Move(key: Key)
      requires Valid() && esc == "" && key in {Home, Back, Forward, End}
      modifies this`num, this`out
      ensures Valid() && Value() == Apply(old(Value()), key, cap).0 && out == old(out) + Apply(old(Value()), key, cap).1
    {
      hide UpToNul, Backs, EscOk, Fits;
      match key
      case Home => GoHome();
      case Back => StepBack();
      case Forward => StepForward();
      case End => RefreshToEol();
    }

    method Cut(key: Key)
      requires Valid() && esc == "" && key in {Delete, Rub, KillEnd, KillLine}
      modifies this`num, this`eol, this`out, buf
      ensures Valid() && Value() == Apply(old(Value()), key, cap).0 && out == old(out) + Apply(old(Value()), key, cap).1
    {
      hide UpToNul, Backs, Erase, EscOk, Fits;
      match key
      case Delete => DeleteChar();
      case Rub => RubChar();
      case KillEnd => EraseToEol();
      case KillLine => Wipe();
    }

    method Wipe()
      requires Shape()
      modifies this`num, this`eol, this`out
      ensures Shape() && Left() == "" && Right() == ""
      ensures out == old(out) + (Backs(|old(Left())|) + Erase(|old(Left())| + |old(Right())|))
    {
      hide Backs, Erase;
      GoHome();
      EraseToEol();
      Rejoin(old(out), Backs(old(num)), Erase(old(eol)));
    }

    /** One pass of the key loop of cread_line for a key that does not end the line. */
    method Press(c: char)
      requires Valid() && Decode(esc, c) !in {Enter, Abort}
      modifies this`num, this`eol, this`out, this`insert, this`esc, buf, hist
      ensures Valid()
      ensures var r := Apply(old(Value()), Decode(old(esc), c), cap);
              Value() == r.0 && out == old(out) + r.1
    {
      hide UpToNul, Backs, Erase, Recall, AddText, Decode;
      var key := Decode(esc, c);
      esc := "";
      assert Value() == old(Value()).(esc := "");
      assert Apply(Value(), key, cap) == Apply(old(Value()), key, cap);
      if key in {Home, Back, Forward, End} {
        Move(key);
      } else if key in {Delete, Rub, KillEnd, KillLine} {
        Cut(key);
      } else {
        match key
        case Add(text) => InsertText(text);
        case Toggle => insert := !insert;
        case Up => RecallLine(true);
        case Down => RecallLine(false);
        case StartEsc => esc := [ESC];
        case StartBracket => esc := [ESC, '['];
      }
    }

    /** The C string in the buffer. */
    method CString() returns (s: string)
      requires Shape() && buf[eol] == NUL
      ensures s == UpToNul(buf[..eol])
    {
      hide UpToNul;
      ghost var t := buf[..eol];
      s := "";
      var i: nat := 0;
      assert t[0..] == t;
      while buf[i] != NUL
        invariant 0 <= i <= eol && s + UpToNul(t[i..]) == UpToNul(t)
        decreases eol - i
      {
        UpToNulStep(t[i..]);
        assert t[i..][1..] == t[i + 1..] && t[i] == buf[i];
        s := s + [buf[i]];
        i := i + 1;
      }
      UpToNulStep(t[i..]);
    }

    /** What cread_line does once the line is ended. */
    method EndLine() returns (line: string)
      requires Valid()
      modifies this`out, buf, hist, hist.slots
      ensures Valid() && buf[eol] == NUL
      ensures line == Line(old(Value())) && hist.value == Finish(old(Value())) && out == old(out) + "\n"
    {
      hide UpToNul;
      out := out + "\n";
      assert buf[..eol] == Left() + Right();
      buf[eol] := NUL;
      assert buf[..eol] == old(Left() + Right());
      line := CString();
      if line != "" && line[0] != '!' { hist.Add(line); } else { hist.Rewind(); }
    }

    /** cread_line: reads keys until the line is ended (0) or aborted (-1); None means the
        keys ran out and the editor waits for more. */
    method ReadLine(keys: string) returns (code: Option<int>, line: string, rest: string)
      requires Valid()
      modifies this`num, this`eol, this`out, this`insert, this`esc, buf, hist, hist.slots
      ensures Valid()
      ensures match ReadKeys(old(Value()), keys, cap)
              case Waiting(e) => code == None && rest == "" && Value() == e
              case GotLine(text, h, left) =>
                code == Some(0) && line == text && rest == left && hist.value == h && buf[eol] == NUL
              case Aborted(h, left) => code == Some(-1) && rest == left && hist.value == h && buf[0] == NUL
      ensures out == old(out) + Echo(old(Value()), keys, cap)
    {
      hide Apply, Decode, Line, Finish, Fits, H.Ring.Valid;
      rest := keys;
      while rest != ""
        invariant Valid()
        invariant ReadKeys(Value(), rest, cap) == ReadKeys(old(Value()), keys, cap)
        invariant out + Echo(Value(), rest, cap) == old(out) + Echo(old(Value()), keys, cap)
        decreases |rest|
      {
        var c := rest[0];
        var key := Decode(esc, c);
        if key == Enter {
          line := EndLine();
          return Some(0), line, rest[1..];
        }
        if key == Abort {
          buf[0] := NUL;
          return Some(-1), "", rest[1..];
        }
        Press(c);
        rest := rest[1..];
      }
      return None, "", "";
    }

    /** The whole of cread_line: the text already in the buffer is inserted as if typed, then
        the keys are read. The code reads that text from the buffer it inserts into; as each
        character is stored where it stands, this changes nothing. */
    method ReadFrom(text: string, keys: string) returns (code: Option<int>, line: string, rest: string)
      requires Valid() && Value() == Ed("", "", true, "", hist.value)
      modifies this`num, this`eol, this`out, this`insert, this`esc, buf, hist, hist.slots
      ensures Valid()
      ensures var (e, shown) := AddText(old(Value()), text, cap);
              && out == old(out) + shown + Echo(e, keys, cap)
              && match ReadKeys(e, keys, cap)
                 case Waiting(e') => code == None && rest == "" && Value() == e'
                 case GotLine(got, h, left) =>
                   code == Some(0) && line == got && rest == left && hist.value == h && buf[eol] == NUL
                 case Aborted(h, left) => code == Some(-1) && rest == left && hist.value == h && buf[0] == NUL
    {
      hide AddText, ReadKeys, Echo;
      InsertText(text);
      code, line, rest := ReadLine(keys);
    }
  }
}
