/**
 The terminal line below the editor: what is on the screen is what is in the buffer.
 */
module LineScreen {
  import opened Wrappers
  import opened LineEditor
  import H = History

  /** One terminal line, right of the prompt. */
  datatype Screen = Screen(cells: string, cursor: nat)

  function Put(s: Screen, c: char): (s': Screen) {
    if c == BELL then s
    else if c == BS then s.(cursor := if s.cursor > 0 then s.cursor - 1 else 0)
    else if s.cursor < |s.cells| then Screen(s.cells[s.cursor := c], s.cursor + 1)
    else Screen(s.cells + Spaces(s.cursor - |s.cells|) + [c], s.cursor + 1)
  }

  function Show(s: Screen, out: string): (s': Screen)
    decreases |out|
  {
    if out == "" then s else Show(Put(s, out[0]), out[1..])
  }

  predicate Clean(t: string) { forall i :: 0 <= i < |t| ==> ' ' <= t[i] <= '~' }
  predicate Blank(t: string) { forall i :: 0 <= i < |t| ==> t[i] == ' ' }

  /** The line shows the text, blanks follow it, and the cursors agree. */
  predicate Shows(s: Screen, left: string, right: string) {
    var n := |left| + |right|;
    && s.cursor == |left|
    && n <= |s.cells| && s.cells[..n] == left + right && Blank(s.cells[n..])
  }

  predicate InStep(s: Screen, e: Ed) { Shows(s, e.left, e.right) }

  predicate CleanEd(e: Ed) {
    Clean(e.left) && Clean(e.right) && forall i :: 0 <= i < |e.hist.lines| ==> Clean(e.hist.lines[i])
  }

  // Painting

  lemma {:induction false} ShowJoin(s: Screen, a: string, b: string)
    ensures Show(s, a + b) == Show(Show(s, a), b)
    decreases |a|
  {
    if a == "" {
      assert a + b == b;
    } else {
      assert (a + b)[1..] == a[1..] + b;
      ShowJoin(Put(s, a[0]), a[1..], b);
    }
  }

  lemma {:induction false} ShowBacks(s: Screen, n: nat)
    requires n <= s.cursor
    ensures Show(s, Backs(n)) == s.(cursor := s.cursor - n)
    decreases n
  {
    if n > 0 {
      assert Backs(n)[1..] == Backs(n - 1);
      ShowBacks(s.(cursor := s.cursor - 1), n - 1);
    }
  }

  function Drop(x: string, n: nat): string { if n < |x| then x[n..] else "" }

  /** Text overwrites what stands right of the cursor. */
  lemma {:induction false} ShowText(a: string, x: string, t: string)
    requires Clean(t)
    ensures Show(Screen(a + x, |a|), t) == Screen(a + t + Drop(x, |t|), |a| + |t|)
    decreases |t|
  {
    var s := Screen(a + x, |a|);
    if t == "" {
      assert Drop(x, 0) == x;
    } else {
      var c := t[0];
      assert ' ' <= c;
      assert Put(s, c) == Screen(a + [c] + Drop(x, 1), |a| + 1) by {
        if x != "" { assert (a + x)[|a| := c] == a + [c] + x[1..]; } else { assert a + x == a && Spaces(0) == ""; }
      }
      ShowText(a + [c], Drop(x, 1), t[1..]);
      assert a + [c] + t[1..] == a + t;
      assert Drop(Drop(x, 1), |t| - 1) == Drop(x, |t|);
    }
  }

  /** Text followed by backspaces. */
  lemma Repaint(a: string, x: string, t: string, m: nat)
    requires Clean(t) && m <= |a| + |t|
    ensures Show(Screen(a + x, |a|), t + Backs(m)) == Screen(a + t + Drop(x, |t|), |a| + |t| - m)
  {
    hide Show;
    ShowJoin(Screen(a + x, |a|), t, Backs(m));
    ShowText(a, x, t);
    ShowBacks(Screen(a + t + Drop(x, |t|), |a| + |t|), m);
  }

  // Keys

  /** A screen in step, taken apart. */
  lemma Parts(s: Screen, l: string, r: string) returns (pad: string)
    requires Shows(s, l, r)
    ensures Blank(pad) && s == Screen(l + (r + pad), |l|)
  {
    pad := s.cells[|l| + |r|..];
    assert s.cells == s.cells[..|l| + |r|] + pad;
  }

  lemma Assembled(l: string, r: string, pad: string)
    requires Blank(pad)
    ensures Shows(Screen(l + (r + pad), |l|), l, r)
  {
    assert l + (r + pad) == l + r + pad;
  }

  lemma NoNul(t: string)
    requires Clean(t)
    ensures UpToNul(t) == t
  {
  }

  lemma InsertShows(l: string, r: string, c: char, s: Screen)
    requires Shows(s, l, r) && Clean(r) && Clean([c])
    ensures Shows(Show(s, UpToNul([c] + r) + Backs(|r|)), l + [c], r)
  {
    hide Show, Backs, UpToNul, Shows;
    var pad := Parts(s, l, r);
    NoNul([c] + r);
    Repaint(l, r + pad, [c] + r, |r|);
    assert Drop(r + pad, 1 + |r|) == Drop(pad, 1);
    assert l + ([c] + r) + Drop(pad, 1) == l + [c] + (r + Drop(pad, 1));
    Assembled(l + [c], r, Drop(pad, 1));
  }

  lemma OvertypeShows(l: string, r: string, c: char, s: Screen)
    requires Shows(s, l, r) && Clean([c])
    ensures Shows(Show(s, UpToNul([c])), l + [c], if r == "" then "" else r[1..])
  {
    hide Show, UpToNul, Shows;
    var pad := Parts(s, l, r);
    NoNul([c]);
    ShowText(l, r + pad, [c]);
    var r', pad' := if r == "" then "" else r[1..], if r == "" then Drop(pad, 1) else pad;
    assert Drop(r + pad, 1) == r' + pad';
    Assembled(l + [c], r', pad');
  }

  lemma CharInStep(e: Ed, c: char, s: Screen, cap: nat)
    requires Inv(e, cap) && CleanEd(e) && InStep(s, e) && Clean([c])
    ensures var (e', out) := AddChar(e, c, cap);
            CleanEd(e') && InStep(Show(s, out), e')
  {
    hide Show, Backs, UpToNul, Shows, Fits;
    if (e.insert || e.right == "") && |e.left| + |e.right| >= cap {
      ShowBell(s);
    } else if e.insert {
      InsertShows(e.left, e.right, c, s);
    } else {
      OvertypeShows(e.left, e.right, c, s);
    }
  }

  lemma ShowBell(s: Screen)
    ensures Show(s, [BELL]) == s
  {
    assert [BELL][1..] == "";
  }

  lemma {:induction false} TextInStep(e: Ed, text: string, s: Screen, cap: nat)
    requires Inv(e, cap) && CleanEd(e) && InStep(s, e) && Clean(text)
    ensures var (e', out) := AddText(e, text, cap);
            CleanEd(e') && InStep(Show(s, out), e')
    decreases |text|
  {
    if text != "" {
      var (e1, out1) := AddChar(e, text[0], cap);
      var (e2, out2) := AddText(e1, text[1..], cap);
      CharInStep(e, text[0], s, cap);
      TextInStep(e1, text[1..], Show(s, out1), cap);
      ShowJoin(s, out1, out2);
    }
  }

  lemma BackShows(l: string, r: string, n: nat, s: Screen)
    requires Shows(s, l, r) && n <= |l|
    ensures Shows(Show(s, Backs(n)), l[..|l| - n], l[|l| - n..] + r)
  {
    hide Show;
    ShowBacks(s, n);
    assert l[..|l| - n] + (l[|l| - n..] + r) == l + r;
  }

  lemma ForwardShows(l: string, r: string, n: nat, s: Screen)
    requires Shows(s, l, r) && Clean(r) && n <= |r|
    ensures Shows(Show(s, r[..n]), l + r[..n], r[n..])
  {
    hide Show, Shows;
    var pad := Parts(s, l, r);
    ShowText(l, r + pad, r[..n]);
    assert Drop(r + pad, n) == r[n..] + pad;
    Assembled(l + r[..n], r[n..], pad);
  }

  lemma DeleteShows(l: string, r: string, s: Screen)
    requires Shows(s, l, r) && Clean(r) && r != ""
    ensures Shows(Show(s, UpToNul(r[1..]) + [' '] + Backs(|r|)), l, r[1..])
  {
    hide Show, Shows, Backs, UpToNul;
    var pad := Parts(s, l, r);
    var t := r[1..] + [' '];
    NoNul(r[1..]);
    Repaint(l, r + pad, t, |r|);
    assert Drop(r + pad, |t|) == pad;
    assert l + t + pad == l + (r[1..] + ([' '] + pad));
    Assembled(l, r[1..], [' '] + pad);
  }

  lemma RubShows(l: string, r: string, s: Screen)
    requires Shows(s, l, r) && Clean(l) && Clean(r) && l != ""
    ensures Shows(Show(s, [BS] + UpToNul(r) + [' '] + Backs(|r| + 1)), l[..|l| - 1], r)
  {
    hide Show, Shows, UpToNul;
    var l', x := l[..|l| - 1], l[|l| - 1..] + r;
    assert [BS] == Backs(1);
    BackShows(l, r, 1, s);
    DeleteShows(l', x, Show(s, Backs(1)));
    assert x[1..] == r;
    var out := UpToNul(r) + [' '] + Backs(|r| + 1);
    assert [BS] + UpToNul(r) + [' '] + Backs(|r| + 1) == Backs(1) + out;
    ShowJoin(s, Backs(1), out);
  }

  /** Erasing everything right of the cursor. */
  lemma EraseShows(l: string, r: string, s: Screen)
    requires Shows(s, l, r)
    ensures Shows(Show(s, Erase(|r|)), l, "")
  {
    hide Show, Shows;
    var pad := Parts(s, l, r);
    var t := Spaces(|r|);
    Repaint(l, r + pad, t, |r|);
    assert Drop(r + pad, |r|) == pad;
    assert l + t + pad == l + ("" + (t + pad));
    Assembled(l, "", t + pad);
  }

  lemma WipeShows(l: string, r: string, s: Screen)
    requires Shows(s, l, r)
    ensures Shows(Show(s, Backs(|l|) + Erase(|l| + |r|)), "", "")
  {
    hide Show, Shows, Backs, Erase;
    ShowJoin(s, Backs(|l|), Erase(|l| + |r|));
    BackShows(l, r, |l|, s);
    assert l[..0] == "" && l[0..] + r == l + r;
    EraseShows("", l + r, Show(s, Backs(|l|)));
  }

  lemma RecallShows(l: string, r: string, line: string, s: Screen)
    requires Shows(s, l, r) && Clean(line)
    ensures Shows(Show(s, Backs(|l|) + Erase(|l| + |r|) + UpToNul(line)), line, "")
  {
    hide Show, Shows, Backs, Erase, UpToNul;
    var wipe := Backs(|l|) + Erase(|l| + |r|);
    WipeShows(l, r, s);
    NoNul(line);
    ShowJoin(s, wipe, line);
    var pad := Parts(Show(s, wipe), "", "");
    assert "" + ("" + pad) == "" + pad;
    ShowText("", pad, line);
    assert "" + line + Drop(pad, |line|) == line + ("" + Drop(pad, |line|));
    Assembled(line, "", Drop(pad, |line|));
  }

  lemma RecallInStep(e: Ed, found: (H.Hist, Option<string>), s: Screen, cap: nat)
    requires Inv(e, cap) && CleanEd(e) && InStep(s, e)
    requires Fits(found.0, cap) && (found.1.Some? ==> |found.1.value| <= cap && Clean(found.1.value))
    requires found.0.lines == e.hist.lines
    ensures var (e', out) := Recall(e, found, cap);
            CleanEd(e') && InStep(Show(s, out), e')
  {
    hide Show, Shows, Backs, Erase, UpToNul;
    if found.1.None? { ShowBell(s); } else { RecallShows(e.left, e.right, found.1.value, s); }
  }

  lemma HomeShows(l: string, r: string, s: Screen)
    requires Shows(s, l, r)
    ensures Shows(Show(s, Backs(|l|)), "", l + r)
  {
    hide Show, Shows, Backs;
    BackShows(l, r, |l|, s);
    assert l[..0] == "" && l[0..] == l;
  }

  lemma OneBackShows(l: string, r: string, s: Screen)
    requires Shows(s, l, r) && l != ""
    ensures Shows(Show(s, [BS]), l[..|l| - 1], [l[|l| - 1]] + r)
  {
    hide Show, Shows;
    BackShows(l, r, 1, s);
    assert Backs(1) == [BS] && l[|l| - 1..] == [l[|l| - 1]];
  }

  lemma OneForwardShows(l: string, r: string, s: Screen)
    requires Shows(s, l, r) && Clean(r) && r != ""
    ensures Shows(Show(s, [r[0]]), l + [r[0]], r[1..])
  {
    hide Show, Shows;
    ForwardShows(l, r, 1, s);
    assert r[..1] == [r[0]];
  }

  lemma EndShows(l: string, r: string, s: Screen)
    requires Shows(s, l, r) && Clean(r)
    ensures Shows(Show(s, UpToNul(r)), l + r, "")
  {
    hide Show, Shows, UpToNul;
    NoNul(r);
    ForwardShows(l, r, |r|, s);
    assert r[..|r|] == r && r[|r|..] == "";
  }

  lemma MoveInStep(e: Ed, k: Key, s: Screen, cap: nat)
    requires Inv(e, cap) && CleanEd(e) && InStep(s, e) && k in {Home, Back, Forward, End}
    ensures var (e', out) := Apply(e, k, cap);
            CleanEd(e') && InStep(Show(s, out), e')
  {
    assert Show(s, "") == s;
    hide Show, Shows, UpToNul, Fits, EscOk, Backs;
    var l, r := e.left, e.right;
    match k
    case Home => HomeShows(l, r, s);
    case Back => if l != "" { OneBackShows(l, r, s); }
    case Forward => if r != "" { OneForwardShows(l, r, s); }
    case End => EndShows(l, r, s);
  }

  lemma CutInStep(e: Ed, k: Key, s: Screen, cap: nat)
    requires Inv(e, cap) && CleanEd(e) && InStep(s, e) && k in {Delete, Rub, KillEnd, KillLine}
    ensures var (e', out) := Apply(e, k, cap);
            CleanEd(e') && InStep(Show(s, out), e')
  {
    hide Shows, UpToNul, Fits, Backs, Erase;
    var l, r := e.left, e.right;
    match k
    case Delete => if r != "" { DeleteShows(l, r, s); }
    case Rub => if l != "" { RubShows(l, r, s); }
    case KillEnd => EraseShows(l, r, s);
    case KillLine => WipeShows(l, r, s);
  }

  /** Every key that inserts at most printable text keeps the screen in step. */
  lemma KeyInStep(e: Ed, k: Key, s: Screen, cap: nat)
    requires Inv(e, cap) && CleanEd(e) && InStep(s, e)
    requires (k.Add? ==> Clean(k.text)) && k !in {Enter, Abort}
    ensures var (e', out) := Apply(e, k, cap);
            CleanEd(e') && InStep(Show(s, out), e')
  {
    hide AddText, Recall, Shows;
    var e0 := e.(esc := "");
    assert Show(s, "") == s;
    if k in {Home, Back, Forward, End} {
      MoveInStep(e, k, s, cap);
    } else if k in {Delete, Rub, KillEnd, KillLine} {
      CutInStep(e, k, s, cap);
    } else {
      match k
      case Add(text) => TextInStep(e0, text, s, cap);
      case Up => RecallInStep(e0, H.Prev(e.hist), s, cap);
      case Down => RecallInStep(e0, H.Next(e.hist), s, cap);
      case Toggle =>
      case StartEsc =>
      case StartBracket =>
    }
  }

  /** Keys that insert nothing but printable characters and do not end the line. */
  predicate Tame(e: Ed, keys: string, cap: nat)
    requires Inv(e, cap)
    decreases |keys|
  {
    keys == "" ||
    (var k := Decode(e.esc, keys[0]);
     (k.Add? ==> Clean(k.text)) && k !in {Enter, Abort} && Tame(Apply(e, k, cap).0, keys[1..], cap))
  }

  /** For every run of such keys the characters and backspaces sent to the terminal leave it
      showing exactly the buffer, blank after its end, with the cursor in place. */
  lemma {:induction false} ScreenInStep(e: Ed, keys: string, s: Screen, cap: nat)
    requires Inv(e, cap) && CleanEd(e) && InStep(s, e) && Tame(e, keys, cap)
    ensures var (e', out) := Run(e, keys, cap);
            CleanEd(e') && InStep(Show(s, out), e')
    decreases |keys|
  {
    if keys == "" {
      assert Show(s, "") == s;
    } else {
      hide Apply, Decode;
      var k := Decode(e.esc, keys[0]);
      var (e1, out1) := Apply(e, k, cap);
      var (e2, out2) := Run(e1, keys[1..], cap);
      KeyInStep(e, k, s, cap);
      ScreenInStep(e1, keys[1..], Show(s, out1), cap);
      ShowJoin(s, out1, out2);
    }
  }

  /** The class: while it reads keys of which none inserts anything but printable text, what it
      emits up to the end of the line keeps the screen in step with its buffer. */
  method ReadOnScreen(ed: Editor, keys: string, ghost s: Screen)
    returns (code: Option<int>, line: string, rest: string, ghost typed: string, ghost shown: Ed)
    requires ed.Valid() && CleanEd(ed.Value()) && InStep(s, ed.Value())
    requires Tame(ed.Value(), keys[..Used(ed.Value(), keys, ed.cap)], ed.cap)
    modifies ed, ed.buf, ed.hist, ed.hist.slots
    ensures ed.Valid() && CleanEd(shown) && InStep(Show(s, typed), shown)
    ensures code in {None, Some(0), Some(-1)}
    ensures ed.out == old(ed.out) + typed + if code == Some(0) then "\n" else ""
    ensures code == None ==> ed.Value() == shown
    ensures code == Some(0) ==> line == Line(shown)
  {
    hide ReadKeys, Run, Used, Echo, Tame, Line, Finish, Show, CleanEd, InStep;
    ghost var e := ed.Value();
    ghost var n := Used(e, keys, ed.cap);
    shown, typed := Run(e, keys[..n], ed.cap).0, Run(e, keys[..n], ed.cap).1;
    ReadIsRun(e, keys, ed.cap);
    ScreenInStep(e, keys[..n], s, ed.cap);
    code, line, rest := ed.ReadLine(keys);
    assert ed.out == old(ed.out) + Echo(e, keys, ed.cap);
  }

  // What is typed is what is read

  lemma {:induction false} Typing(e: Ed, t: string, rest: string, cap: nat)
    requires Inv(e, cap) && e.insert && e.esc == "" && Clean(t) && |e.left| + |e.right| + |t| <= cap
    ensures ReadKeys(e, t + rest, cap) == ReadKeys(e.(left := e.left + t), rest, cap)
    decreases |t|
  {
    hide ReadKeys, Apply, Decode, Fits;
    if t == "" {
      assert t + rest == rest && e.left + t == e.left;
    } else {
      var e1 := e.(left := e.left + [t[0]]);
      PrintableAdds(t[0]);
      OneChar(e, t[0], cap);
      assert t + rest == [t[0]] + (t[1..] + rest);
      ReadStep(e, t[0], t[1..] + rest, cap);
      Typing(e1, t[1..], rest, cap);
      assert e1.left + t[1..] == e.left + t;
    }
  }

  lemma ReadStep(e: Ed, c: char, rest: string, cap: nat)
    requires Inv(e, cap) && Decode(e.esc, c) !in {Enter, Abort}
    ensures ReadKeys(e, [c] + rest, cap) == ReadKeys(Apply(e, Decode(e.esc, c), cap).0, rest, cap)
  {
    hide Apply, Decode, Finish, Line, Fits;
    assert ([c] + rest)[1..] == rest;
  }

  lemma PrintableAdds(c: char)
    requires Clean([c])
    ensures Decode("", c) == Add([c])
  {
    assert ' ' <= [c][0] <= '~';
  }

  lemma OneChar(e: Ed, c: char, cap: nat)
    requires Inv(e, cap) && e.insert && e.esc == "" && |e.left| + |e.right| < cap
    ensures Apply(e, Add([c]), cap).0 == e.(left := e.left + [c])
  {
    var e1 := AddChar(e, c, cap).0;
    assert [c][1..] == "";
    assert AddText(e1, "", cap).0 == e1;
  }

  lemma Entered(e: Ed, cap: nat)
    requires Inv(e, cap) && Clean(e.left) && e.left != "" && e.left[0] != '!' && e.right == ""
    ensures ReadKeys(e, "\n", cap) == GotLine(e.left, H.Hist(e.hist.lines + [e.left], 0), "")
  {
    NoNul(e.left);
    assert e.left + "" == e.left;
    assert "\n"[1..] == "";
    hide Apply, UpToNul;
  }

  lemma Recalled(e: Ed, cap: nat)
    requires Inv(e, cap) && e.left == "" && e.right == "" && e.esc == "" && e.hist.lines != [] && e.hist.back == 0
    ensures var keys := [Ctl('p'), '\n'];
            var h := e.hist.(back := 1);
            ReadKeys(e, keys, cap) == ReadKeys(e.(left := h.lines[|h.lines| - 1], hist := h), "\n", cap)
  {
    var keys := [Ctl('p'), '\n'];
    assert keys[1..] == "\n";
    assert Decode("", keys[0]) == Up;
    var line := e.hist.lines[|e.hist.lines| - 1];
    assert H.Prev(e.hist) == (e.hist.(back := 1), Some(line));
    assert Apply(e, Up, cap).0 == e.(left := line, hist := e.hist.(back := 1));
    hide Apply, Decode, Finish;
  }

  /** A typed line is returned as typed and stored; on the next line the up key brings it
      back, so that Up and Enter alone return it again. */
  lemma TypedThenRecalled(h: H.Hist, t: string, cap: nat)
    requires Fits(h, cap) && Clean(t) && 0 < |t| <= cap && t[0] != '!'
    ensures var first := ReadKeys(Ed("", "", true, "", h), t + "\n", cap);
            && first == GotLine(t, H.Hist(h.lines + [t], 0), "")
            && ReadKeys(Ed("", "", true, "", first.hist), [Ctl('p'), '\n'], cap)
               == GotLine(t, H.Hist(h.lines + [t] + [t], 0), "")
  {
    hide ReadKeys;
    var e := Ed("", "", true, "", h);
    Typing(e, t, "\n", cap);
    assert "" + t == t;
    Entered(e.(left := t), cap);
    var h1 := H.Hist(h.lines + [t], 0);
    assert Fits(h1, cap);
    var e2 := Ed("", "", true, "", h1);
    Recalled(e2, cap);
    Entered(e2.(left := t, hist := h1.(back := 1)), cap);
  }
}
