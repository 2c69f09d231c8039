/** Small shared definitions. */
module Wrappers {
  datatype Option<+T> = None | Some(value: T)

  type byte = x: int | 0 <= x < 256

  function Min(a: nat, b: nat): nat { if a < b then a else b }

  /** `data` laid over the elements from `p` on. */
  function Patched<T>(s: seq<T>, p: nat, data: seq<T>): (t: seq<T>)
    requires p + |data| <= |s|
    ensures |t| == |s|
  {
    s[..p] + data + s[p + |data|..]
  }

  lemma PatchedTwice<T>(s: seq<T>, p: nat, a: seq<T>, b: seq<T>)
    requires p + |a| + |b| <= |s|
    ensures Patched(Patched(s, p, a), p + |a|, b) == Patched(s, p, a + b)
  {
    var t := Patched(s, p, a);
    assert t[..p + |a|] == s[..p] + a;
    assert t[p + |a| + |b|..] == s[p + |a| + |b|..];
  }

  lemma PatchedEach<T>(s: seq<T>, p: nat, data: seq<T>)
    requires p + |data| <= |s|
    ensures forall i :: 0 <= i < |s| ==> Patched(s, p, data)[i] == if p <= i < p + |data| then data[i - p] else s[i]
  {
  }

  lemma PatchedNext<T>(s: seq<T>, p: nat, data: seq<T>, i: nat)
    requires p + |data| <= |s| && i < |data|
    ensures Patched(s, p, data[..i + 1]) == Patched(s, p, data[..i])[p + i := data[i]]
  {
    assert data[..i + 1] == data[..i] + [data[i]];
    assert s[p + i..] == [s[p + i]] + s[p + i + 1..];
  }
}
