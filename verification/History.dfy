/**
 Command history: a ring of 20 slots that stands for the list of all lines ever stored.
 Models hist_init, cread_add_to_hist, hist_prev and hist_next of cli_readline.c.
 */
module History {
  import opened Wrappers

  const HIST_MAX: nat := 20

  /** All lines stored, oldest first, and how many steps back the user has gone;
      -1 until the first line has been read. */
  datatype Hist = Hist(lines: seq<string>, back: int)

  const EMPTY := Hist([], -1)

  /** How far back one can go: one slot of the ring is always given up. */
  function Reach(h: Hist): nat { Min(|h.lines|, HIST_MAX - 1) }

  predicate Inv(h: Hist) { -1 <= h.back <= Reach(h) }

  function Prev(h: Hist): (r: (Hist, Option<string>)) {
    if h.back < 0 || h.back >= Reach(h) then (h, None)
    else (h.(back := h.back + 1), Some(h.lines[|h.lines| - (h.back + 1)]))
  }

  function Next(h: Hist): (r: (Hist, Option<string>))
    requires Inv(h)
  {
    if h.back <= 0 then (h, None)
    else if h.back == 1 then (h.(back := 0), Some(""))
    else (h.(back := h.back - 1), Some(h.lines[|h.lines| - (h.back - 1)]))
  }

  /** k presses of the up key. */
  function Ups(h: Hist, k: nat): (h': Hist) {
    if k == 0 then h else Prev(Ups(h, k - 1)).0
  }

  /** From the fresh position the k-th press of the up key shows the k-th most recent line
      as long as k is at most min(number of lines, 19); any further press shows nothing and
      does not move. */
  lemma {:induction false} KthMostRecent(lines: seq<string>, k: nat)
    requires k > 0
    ensures var h := Hist(lines, 0);
            var n := Reach(h);
            && Ups(h, k).back == Min(k, n) && Ups(h, k).lines == lines
            && (k <= n ==> Prev(Ups(h, k - 1)).1 == Some(lines[|lines| - k]))
            && (k > n ==> Prev(Ups(h, k - 1)) == (Ups(h, k - 1), None))
  {
    if k > 1 { KthMostRecent(lines, k - 1); }
  }

  /** The down key undoes the up key: it returns to the same position and shows what was
      there, the empty line at the fresh position. */
  lemma NextUndoesPrev(h: Hist)
    requires Inv(h) && Prev(h).1.Some?
    ensures Inv(Prev(h).0)
    ensures Next(Prev(h).0).0 == h
    ensures Next(Prev(h).0).1 == Some(if h.back == 0 then "" else h.lines[|h.lines| - h.back])
  {
  }

  /** Where in the ring the user stands, `back` steps from the fresh position. */
  function Position(addIdx: nat, max: nat, back: int): int {
    if back < 0 then -1
    else if back <= addIdx then addIdx - back
    else addIdx - back + max + 1
  }

  /** One step backwards in the ring is one line back in the list. */
  lemma StepBack(n: nat, back: nat)
    requires back <= Min(n, HIST_MAX - 1)
    ensures var add, max := n % HIST_MAX, Min(n, HIST_MAX - 1);
            var p := Position(add, max, back);
            var q := if p == 0 then max else p - 1;
            && 0 <= p <= max && (p == add <==> back == 0)
            && (q == add <==> back == max)
            && (back < max ==> q == Position(add, max, back + 1) && q == (n - (back + 1)) % HIST_MAX)
  {
    if back < Min(n, HIST_MAX - 1) && n >= HIST_MAX {
      var add := n % HIST_MAX;
      assert n == n / HIST_MAX * HIST_MAX + add;
    }
  }

  class Ring {
    const slots: array<string>
    var addIdx: nat
    var max: nat
    var cur: int
    ghost var value: Hist

    /** Line number i is in slot i modulo 20 until it is overwritten. */
    ghost predicate Valid()
      reads this, slots
    {
      var n := |value.lines|;
      && slots.Length == HIST_MAX
      && Inv(value)
      && addIdx == n % HIST_MAX && max == Min(n, HIST_MAX - 1)
      && (forall i :: 0 <= i < n && n - HIST_MAX <= i ==> slots[i % HIST_MAX] == value.lines[i])
      && cur == Position(addIdx, max, value.back)
    }

    constructor ()
      ensures Valid() && fresh(slots) && value == EMPTY
    {
      slots := new string[HIST_MAX](_ => "");
      addIdx, max, cur := 0, 0, -1;
      value := EMPTY;
    }

    /** Stores a line; cread_line then goes to the fresh position. */
    method Add(line: string)
      requires Valid()
      modifies this, slots
      ensures Valid()
      ensures value == Hist(old(value.lines) + [line], 0)
    {
      ghost var n := |value.lines|;
      slots[addIdx] := line;
      addIdx := addIdx + 1;
      if addIdx >= HIST_MAX { addIdx := 0; }
      if addIdx > max { max := addIdx; }
      cur := addIdx;
      value := Hist(value.lines + [line], 0);
    }

    method Rewind()
      requires Valid()
      modifies this
      ensures Valid() && value == old(value).(back := 0)
    {
      cur := addIdx;
      value := value.(back := 0);
    }

    method GoPrev() returns (line: Option<string>)
      requires Valid()
      modifies this
      ensures Valid()
      ensures (value, line) == Prev(old(value))
    {
      if cur < 0 { return None; }
      StepBack(|value.lines|, value.back);
      var was := cur;
      cur := cur - 1;
      if cur < 0 { cur := max; }
      if cur == addIdx {
        cur := was;
        line := None;
      } else {
        line := Some(slots[cur]);
        value := value.(back := value.back + 1);
      }
    }

    method GoNext() returns (line: Option<string>)
      requires Valid()
      modifies this
      ensures Valid()
      ensures (value, line) == Next(old(value))
    {
      if cur < 0 { return None; }
      StepBack(|value.lines|, value.back);
      if cur == addIdx { return None; }
      StepBack(|value.lines|, value.back - 1);
      if value.back > 1 { StepBack(|value.lines|, value.back - 2); }
      cur := cur + 1;
      if cur > max { cur := 0; }
      if cur == addIdx {
        line := Some("");
      } else {
        line := Some(slots[cur]);
      }
      value := value.(back := value.back - 1);
    }
  }
}
