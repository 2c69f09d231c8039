/**
 Waiting for a stop or delay key before booting: abortboot_keyed of autoboot.c. A small
 window over the received characters is compared with up to four configured keys.
 */
module Autoboot {
  import opened Wrappers

  const MAX: nat := 32

  /** A configured key, if any; `retry` is false for a stop key. */
  datatype Key = Key(str: Option<string>, retry: bool)

  /** The part of a key that is compared. */
  function Clip(k: Key): (s: string)
    ensures |s| <= MAX
  {
    match k.str
    case None => ""
    case Some(s) => if |s| > MAX then s[..MAX] else s
  }

  predicate EndsWith(s: string, t: string) { |t| <= |s| && s[|s| - |t|..] == t }

  /** The characters received so far end with this key. */
  predicate Hit(k: Key, got: string) { Clip(k) != "" && EndsWith(got, Clip(k)) }

  predicate AnyHit(keys: seq<Key>, got: string) { exists i :: 0 <= i < |keys| && Hit(keys[i], got) }

  predicate StopHit(keys: seq<Key>, got: string) {
    exists i :: 0 <= i < |keys| && !keys[i].retry && Hit(keys[i], got)
  }

  /** What one poll of the console brings: a character or nothing. */
  type Poll = Option<char>

  function Received(ps: seq<Poll>): (s: string) {
    if ps == [] then "" else Received(ps[..|ps| - 1]) + (match ps[|ps| - 1] case Some(c) => [c] case None => "")
  }

  function Last(s: string, n: nat): (t: string)
    ensures |t| == if n < |s| then n else |s|
  {
    if n < |s| then s[|s| - n..] else s
  }

  function Longest(keys: seq<Key>): (n: nat)
    ensures n <= MAX && forall i :: 0 <= i < |keys| ==> |Clip(keys[i])| <= n
    ensures n > 0 ==> exists i :: 0 <= i < |keys| && |Clip(keys[i])| == n
  {
    if keys == [] then 0
    else
      var n, k := Longest(keys[1..]), |Clip(keys[0])|;
      assert n > 0 ==> exists i :: 0 <= i < |keys[1..]| && |Clip(keys[1..][i])| == n;
      assert forall i :: 0 <= i < |keys[1..]| ==> keys[1..][i] == keys[i + 1];
      if n > k then n else k
  }

  /** The window is enough to see every key. */
  lemma WindowSees(got: string, n: nat, t: string)
    requires |t| <= n
    ensures EndsWith(Last(got, n), t) <==> EndsWith(got, t)
  {
    if n < |got| {
      var w := Last(got, n);
      assert w[|w| - |t|..] == got[|got| - |t|..];
    }
  }

  /** One more character. */
  lemma WindowStep(got: string, c: char, n: nat)
    requires n > 0
    ensures Last(got + [c], n) == (if |got| < n then got else Last(got, n)[1..]) + [c]
  {
  }

  /** The key buffer after a character has been put in. */
  method Take(presskey: array<char>, len: nat, max: nat, c: char, ghost got: string) returns (len': nat)
    requires 0 < max <= presskey.Length && len <= max && presskey[..len] == Last(got, max)
    modifies presskey
    ensures len' <= max && presskey[..len'] == Last(got + [c], max)
  {
    WindowStep(got, c, max);
    if len < max {
      presskey[len] := c;
      len' := len + 1;
      assert presskey[..len'] == Last(got, max) + [c];
    } else {
      ghost var w := presskey[..len];
      forall i | 0 <= i < max - 1 { presskey[i] := presskey[i + 1]; }
      presskey[max - 1] := c;
      len' := len;
      assert presskey[..len'] == w[1..] + [c];
    }
  }

  method CompareOne(presskey: array<char>, len: nat, key: Key, n: nat, ghost got: string) returns (hit: bool)
    requires len <= presskey.Length && presskey[..len] == Last(got, n) && |Clip(key)| <= n
    ensures hit <==> Hit(key, got)
  {
    var k := Clip(key);
    WindowSees(got, n, k);
    hide Clip, Last;
    assert len >= |k| ==> presskey[len - |k|..len] == presskey[..len][len - |k|..];
    hit := |k| > 0 && len >= |k| && presskey[len - |k|..len] == k;
  }

  /** The loop over the keys: is any of them complete, and is one of those a stop key? */
  method Compare(presskey: array<char>, len: nat, keys: seq<Key>, ghost got: string) returns (hit: bool, stop: bool)
    requires len <= presskey.Length && presskey[..len] == Last(got, Longest(keys))
    ensures hit <==> AnyHit(keys, got)
    ensures stop <==> StopHit(keys, got)
  {
    hide Hit, Last, Longest, Clip;
    hit, stop := false, false;
    var i := 0;
    while i < |keys|
      invariant 0 <= i <= |keys|
      invariant hit <==> exists j :: 0 <= j < i && Hit(keys[j], got)
      invariant stop <==> exists j :: 0 <= j < i && !keys[j].retry && Hit(keys[j], got)
    {
      var here := CompareOne(presskey, len, keys[i], Longest(keys), got);
      if here {
        if !keys[i].retry { stop := true; }
        hit := true;
      }
      i := i + 1;
    }
  }

  /** After n polls the characters received end with some key. */
  predicate HitAfter(keys: seq<Key>, polls: seq<Poll>, n: nat)
    requires n <= |polls|
  {
    AnyHit(keys, Received(polls[..n]))
  }

  /** The window after n polls. */
  ghost function Window(keys: seq<Key>, polls: seq<Poll>, n: nat): string
    requires n <= |polls|
  {
    Last(Received(polls[..n]), Longest(keys))
  }

  /** One round of the wait loop. */
  method Round(presskey: array<char>, len: nat, keys: seq<Key>, polls: seq<Poll>, n: nat)
    returns (len': nat, hit: bool, stop: bool)
    requires n < |polls| && len <= Longest(keys) && 0 < Longest(keys) <= presskey.Length
    requires presskey[..len] == Window(keys, polls, n)
    modifies presskey
    ensures len' <= Longest(keys) && presskey[..len'] == Window(keys, polls, n + 1)
    ensures hit <==> HitAfter(keys, polls, n + 1)
    ensures stop <==> StopHit(keys, Received(polls[..n + 1]))
  {
    hide Hit, AnyHit, StopHit, Last, Longest, Clip, Received;
    ReceivedStep(polls, n);
    len' := len;
    match polls[n] {
      case Some(c) => len' := Take(presskey, len, Longest(keys), c, Received(polls[..n]));
      case None =>
    }
    hit, stop := Compare(presskey, len', keys, Received(polls[..n + 1]));
  }

  /** abortboot_keyed, with at least one key configured: without any, the code shifts a
      window of length zero over the stack as soon as a character arrives. `polls` are the
      polls made until the time is up; there is always at least one. The wait is aborted
      exactly at the first character that completes an occurrence of some key, and retrying
      is switched off exactly when a stop key is among the completed ones. */
  method AbortBootKeyed(keys: seq<Key>, polls: seq<Poll>) returns (abort: bool, noRetry: bool, used: nat)
    requires exists i :: 0 <= i < |keys| && Clip(keys[i]) != ""
    requires polls != []
    ensures used <= |polls|
    ensures abort <==> exists n :: 0 <= n <= |polls| && HitAfter(keys, polls, n)
    ensures abort ==> HitAfter(keys, polls, used)
    ensures forall n :: 0 <= n < used ==> !HitAfter(keys, polls, n)
    ensures !abort ==> used == |polls|
    ensures noRetry <==> abort && StopHit(keys, Received(polls[..used]))
  {
    hide Hit, AnyHit, HitAfter, Window, StopHit, Longest, Clip, Received, Last;
    SomeKey(keys);
    AtStart(keys, polls);
    var presskey := new char[MAX];
    var len: nat := 0;
    abort, noRetry, used := false, false, 0;
    while !abort && used < |polls|
      invariant used <= |polls| && len <= Longest(keys) && presskey[..len] == Window(keys, polls, used)
      invariant abort <==> HitAfter(keys, polls, used)
      invariant forall n :: 0 <= n < used ==> !HitAfter(keys, polls, n)
      invariant noRetry <==> StopHit(keys, Received(polls[..used]))
      decreases |polls| - used
    {
      len, abort, noRetry := Round(presskey, len, keys, polls, used);
      used := used + 1;
    }
    StopIsHit(keys, polls, used);
  }

  lemma SomeKey(keys: seq<Key>)
    requires exists i :: 0 <= i < |keys| && Clip(keys[i]) != ""
    ensures Longest(keys) > 0
  {
  }

  lemma AtStart(keys: seq<Key>, polls: seq<Poll>)
    ensures !HitAfter(keys, polls, 0) && !StopHit(keys, Received(polls[..0])) && Window(keys, polls, 0) == ""
  {
    assert polls[..0] == [] && Received([]) == "";
  }

  lemma ReceivedStep(polls: seq<Poll>, n: nat)
    requires n < |polls|
    ensures Received(polls[..n + 1])
         == match polls[n] case Some(c) => Received(polls[..n]) + [c] case None => Received(polls[..n])
  {
    assert polls[..n + 1][..n] == polls[..n];
  }

  lemma StopIsHit(keys: seq<Key>, polls: seq<Poll>, n: nat)
    requires n <= |polls|
    ensures StopHit(keys, Received(polls[..n])) ==> HitAfter(keys, polls, n)
  {
  }
}
