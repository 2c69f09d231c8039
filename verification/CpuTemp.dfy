/**
 Temperature calibration of cmd_cpu_temp.c: the in-place quicksort with a moving hole, the
 trimmed mean of 30 samples, and the packing of the result into 16 efuse bits.
 */
module CpuTemp {
  import opened Wrappers

  predicate Sorted(s: seq<int>) { forall i, j :: 0 <= i < j < |s| ==> s[i] <= s[j] }

  /** Positions outside [lo, hi) are the same and the range holds the same values. */
  ghost predicate Shuffled(s: seq<int>, t: seq<int>, lo: int, hi: int) {
    && 0 <= lo <= hi <= |s| == |t|
    && s[..lo] == t[..lo] && s[hi..] == t[hi..]
    && multiset(s[lo..hi]) == multiset(t[lo..hi])
  }

  lemma ShuffledTrans(s: seq<int>, t: seq<int>, u: seq<int>, lo: int, hi: int)
    requires Shuffled(s, t, lo, hi) && Shuffled(t, u, lo, hi)
    ensures Shuffled(s, u, lo, hi)
  {
  }

  lemma ShuffledWiden(s: seq<int>, t: seq<int>, lo: int, hi: int, lo': int, hi': int)
    requires Shuffled(s, t, lo, hi) && 0 <= lo' <= lo && hi <= hi' <= |s|
    ensures Shuffled(s, t, lo', hi')
  {
    assert s[..lo'] == s[..lo][..lo'] && t[..lo'] == t[..lo][..lo'];
    assert s[hi'..] == s[hi..][hi' - hi..] && t[hi'..] == t[hi..][hi' - hi..];
    assert s[lo'..lo] == s[..lo][lo'..] && t[lo'..lo] == t[..lo][lo'..];
    assert s[hi..hi'] == s[hi..][..hi' - hi] && t[hi..hi'] == t[hi..][..hi' - hi];
    assert s[lo'..hi'] == s[lo'..lo] + s[lo..hi] + s[hi..hi'];
    assert t[lo'..hi'] == t[lo'..lo] + t[lo..hi] + t[hi..hi'];
  }

  /** Every value in the range was there before. */
  lemma ShuffledFrom(s: seq<int>, t: seq<int>, lo: int, hi: int, k: int) returns (j: int)
    requires Shuffled(s, t, lo, hi) && lo <= k < hi
    ensures lo <= j < hi && s[j] == t[k]
  {
    assert t[k] == t[lo..hi][k - lo];
    assert t[k] in multiset(t[lo..hi]);
    assert t[k] in s[lo..hi];
    var i :| 0 <= i < hi - lo && s[lo..hi][i] == t[k];
    j := lo + i;
  }

  lemma Exchange(s: seq<int>, i: int, j: int, lo: int, hi: int)
    requires 0 <= lo <= i < hi <= |s| && lo <= j < hi
    ensures Shuffled(s, s[i := s[j]][j := s[i]], lo, hi)
  {
    var t := s[i := s[j]][j := s[i]];
    var a, b := s[lo..hi], t[lo..hi];
    assert b == a[i - lo := a[j - lo]][j - lo := a[i - lo]];
    assert multiset(a) == multiset(b);
  }

  // Partition

  /** The array with the hole at `h` filled by the pivot. */
  ghost function Filled(s: seq<int>, h: int, val: int): seq<int>
    requires 0 <= h < |s|
  {
    s[h := val]
  }

  /** Copying a[j] into the hole i moves the hole to j: filled, that is an exchange. */
  lemma HoleMoves(s0: seq<int>, s: seq<int>, i: int, j: int, val: int, lo: int, hi: int)
    requires 0 <= lo <= i < hi <= |s| && lo <= j < hi && i != j
    requires Shuffled(s0, Filled(s, i, val), lo, hi)
    ensures Shuffled(s0, Filled(s[i := s[j]], j, val), lo, hi)
  {
    var f := Filled(s, i, val);
    Exchange(f, i, j, lo, hi);
    assert f[i := f[j]][j := f[i]] == Filled(s[i := s[j]], j, val);
    ShuffledTrans(s0, f, Filled(s[i := s[j]], j, val), lo, hi);
  }

  /** Left of i nothing exceeds the pivot, right of j nothing is below it. */
  ghost predicate Parted(s: seq<int>, lo: int, i: int, j: int, hi: int, val: int) {
    && 0 <= lo <= i <= j < hi <= |s|
    && (forall k :: lo <= k < i ==> s[k] <= val)
    && (forall k :: j < k < hi ==> s[k] >= val)
  }

  /** The two inner loops, run until the indices meet. */
  method Partition(a: array<int>, lo: int, hi: int) returns (p: int)
    requires 0 <= lo < hi <= a.Length
    modifies a
    ensures lo <= p < hi && Shuffled(old(a[..]), a[..], lo, hi)
    ensures forall k :: lo <= k < p ==> a[k] <= a[p]
    ensures forall k :: p < k < hi ==> a[k] >= a[p]
  {
    var i, j, val := lo, hi - 1, a[lo];
    assert Filled(a[..], lo, val) == a[..];
    while i < j
      invariant Parted(a[..], lo, i, j, hi, val)
      invariant Shuffled(old(a[..]), Filled(a[..], i, val), lo, hi)
      decreases j - i
    {
      j := ScanDown(a, i, j, val);
      if i < j {
        HoleMoves(old(a[..]), a[..], i, j, val, lo, hi);
        a[i] := a[j];
        ghost var s := a[..];
        var i' := ScanUp(a, i, j, val);
        if i' < j {
          HoleMoves(old(a[..]), s, j, i', val, lo, hi);
          a[j] := a[i'];
        }
        i := i';
      }
    }
    a[i] := val;
    p := i;
  }

  /** The scan from the right for an element below the pivot. */
  method ScanDown(a: array<int>, i: int, j0: int, val: int) returns (j: int)
    requires 0 <= i <= j0 < a.Length
    ensures i <= j <= j0 && (forall k :: j < k <= j0 ==> a[k] >= val)
    ensures i < j ==> a[j] < val
  {
    j := j0;
    while j > i
      invariant i <= j <= j0 && (forall k :: j < k <= j0 ==> a[k] >= val)
    {
      if a[j] < val { break; }
      j := j - 1;
    }
  }

  method ScanUp(a: array<int>, i0: int, j: int, val: int) returns (i: int)
    requires 0 <= i0 <= j < a.Length
    ensures i0 <= i <= j && (forall k :: i0 <= k < i ==> a[k] <= val)
    ensures i < j ==> a[i] > val
  {
    i := i0;
    while i < j
      invariant i0 <= i <= j && (forall k :: i0 <= k < i ==> a[k] <= val)
    {
      if a[i] > val { break; }
      i := i + 1;
    }
  }

  /** quicksort on the range [lo, hi). The C code reads the first element before it looks at
      the size, one past the end of an empty range; the value is not used. */
  method Quicksort(a: array<int>, lo: int, hi: int)
    requires 0 <= lo <= hi <= a.Length
    modifies a
    ensures Sorted(a[lo..hi]) && Shuffled(old(a[..]), a[..], lo, hi)
    decreases hi - lo
  {
    if hi - lo <= 1 { return; }
    var p := Partition(a, lo, hi);
    ghost var s1 := a[..];
    Quicksort(a, lo, p);
    ghost var s2 := a[..];
    Quicksort(a, p + 1, hi);
    Assembled(old(a[..]), s1, s2, a[..], lo, p, hi);
  }

  lemma Assembled(s0: seq<int>, s1: seq<int>, s2: seq<int>, s3: seq<int>, lo: int, p: int, hi: int)
    requires Shuffled(s0, s1, lo, hi) && lo <= p < hi
    requires forall k :: lo <= k < p ==> s1[k] <= s1[p]
    requires forall k :: p < k < hi ==> s1[k] >= s1[p]
    requires Shuffled(s1, s2, lo, p) && Sorted(s2[lo..p])
    requires Shuffled(s2, s3, p + 1, hi) && Sorted(s3[p + 1..hi])
    ensures Sorted(s3[lo..hi]) && Shuffled(s0, s3, lo, hi)
  {
    hide Shuffled, Sorted;
    Unmoved(s0, s1, lo, hi);
    Unmoved(s1, s2, lo, p);
    Unmoved(s2, s3, p + 1, hi);
    ShuffledWiden(s1, s2, lo, p, lo, hi);
    ShuffledWiden(s2, s3, p + 1, hi, lo, hi);
    ShuffledTrans(s0, s1, s2, lo, hi);
    ShuffledTrans(s0, s2, s3, lo, hi);
    var v := s1[p];
    KeepsUpper(s1, s2, lo, p, v);
    KeepsLower(s2, s3, p + 1, hi, v);
    Joined(s2, s3, lo, p, hi, v);
  }

  lemma Joined(s2: seq<int>, s3: seq<int>, lo: int, p: int, hi: int, v: int)
    requires 0 <= lo <= p < hi <= |s2| == |s3| && s3[p] == v
    requires forall k :: lo <= k < p ==> s3[k] == s2[k] <= v
    requires forall k :: p < k < hi ==> s3[k] >= v
    requires Sorted(s2[lo..p]) && Sorted(s3[p + 1..hi])
    ensures Sorted(s3[lo..hi])
  {
    hide Sorted;
    var t := s3[lo..hi];
    assert t[..p - lo] == s2[lo..p];
    assert t[p + 1 - lo..] == s3[p + 1..hi];
    SortedParts(t, p - lo, v);
  }

  lemma Unmoved(s: seq<int>, t: seq<int>, lo: int, hi: int)
    requires Shuffled(s, t, lo, hi)
    ensures 0 <= lo <= hi <= |s| == |t|
    ensures forall k :: 0 <= k < |s| && !(lo <= k < hi) ==> s[k] == t[k]
  {
    forall k | 0 <= k < |s| && !(lo <= k < hi) ensures s[k] == t[k] {
      if k < lo { assert s[k] == s[..lo][k] == t[..lo][k]; } else { assert s[k] == s[hi..][k - hi] == t[hi..][k - hi]; }
    }
  }

  lemma KeepsUpper(s: seq<int>, t: seq<int>, lo: int, hi: int, v: int)
    requires Shuffled(s, t, lo, hi) && forall k :: lo <= k < hi ==> s[k] <= v
    ensures forall k :: lo <= k < hi ==> t[k] <= v
  {
    forall k | lo <= k < hi ensures t[k] <= v { var _ := ShuffledFrom(s, t, lo, hi, k); }
  }

  lemma KeepsLower(s: seq<int>, t: seq<int>, lo: int, hi: int, v: int)
    requires Shuffled(s, t, lo, hi) && forall k :: lo <= k < hi ==> s[k] >= v
    ensures forall k :: lo <= k < hi ==> t[k] >= v
  {
    forall k | lo <= k < hi ensures t[k] >= v { var _ := ShuffledFrom(s, t, lo, hi, k); }
  }

  lemma SortedParts(s: seq<int>, p: int, v: int)
    requires 0 <= p < |s| && s[p] == v
    requires Sorted(s[..p]) && Sorted(s[p + 1..])
    requires forall k :: 0 <= k < p ==> s[k] <= v
    requires forall k :: p < k < |s| ==> s[k] >= v
    ensures Sorted(s)
  {
    forall i, j | 0 <= i < j < |s| ensures s[i] <= s[j] {
      if j < p { assert s[i] == s[..p][i] && s[j] == s[..p][j]; }
      else if i > p { assert s[i] == s[p + 1..][i - p - 1] && s[j] == s[p + 1..][j - p - 1]; }
    }
  }

  // The trimmed mean

  const NUM: int := 30

  function Sum(s: seq<int>): int { if s == [] then 0 else s[0] + Sum(s[1..]) }

  lemma SmallestFirst(s: seq<int>, t: seq<int>)
    requires Sorted(s) && Sorted(t) && multiset(s) == multiset(t) && s != [] && t != []
    ensures s[0] <= t[0]
  {
    assert t[0] in multiset(t);
    assert t[0] in s;
  }

  /** A sorted sequence is determined by its values. */
  lemma {:induction false} SortedUnique(s: seq<int>, t: seq<int>)
    requires Sorted(s) && Sorted(t) && multiset(s) == multiset(t)
    ensures s == t
    decreases |s|
  {
    hide Sorted;
    assert |s| == |multiset(s)| == |multiset(t)| == |t|;
    if s != [] {
      SmallestFirst(s, t);
      SmallestFirst(t, s);
      Tail(s);
      Tail(t);
      SortedUnique(s[1..], t[1..]);
      assert s == [s[0]] + s[1..] && t == [t[0]] + t[1..];
    }
  }

  lemma Tail(s: seq<int>)
    requires s != [] && Sorted(s)
    ensures Sorted(s[1..]) && multiset(s[1..]) == multiset(s) - multiset{s[0]}
  {
    assert s == [s[0]] + s[1..];
  }

  lemma {:induction false} SumJoin(a: seq<int>, b: seq<int>)
    ensures Sum(a + b) == Sum(a) + Sum(b)
  {
    if a == [] {
      assert a + b == b;
    } else {
      assert (a + b)[1..] == a[1..] + b;
      SumJoin(a[1..], b);
    }
  }

  lemma {:induction false} SumBetween(s: seq<int>, lo: int, hi: int)
    requires forall i :: 0 <= i < |s| ==> lo <= s[i] <= hi
    ensures |s| * lo <= Sum(s) <= |s| * hi
  {
    if s != [] {
      SumBetween(s[1..], lo, hi);
      assert |s| * lo == lo + (|s| - 1) * lo && |s| * hi == hi + (|s| - 1) * hi;
    }
  }

  /** C division truncates; on the samples, which are never negative, that is this. */
  function Trimmed(s: seq<int>): (m: int)
    requires |s| == NUM
  {
    Sum(s[2..NUM - 2]) / (NUM - 4)
  }

  lemma TrimmedBetween(s: seq<int>)
    requires |s| == NUM && Sorted(s)
    ensures s[2] <= Trimmed(s) <= s[NUM - 3]
  {
    var mid := s[2..NUM - 2];
    SumBetween(mid, s[2], s[NUM - 3]);
  }

  /** Sorts the samples and averages all but the two smallest and the two largest. The
      result depends only on which values were sampled, not on their order, and lies
      between the third smallest and the third largest. */
  method TrimmedMean(a: array<int>) returns (mean: int)
    requires a.Length == NUM && forall i :: 0 <= i < NUM ==> a[i] >= 0
    modifies a
    ensures forall s :: Sorted(s) && multiset(s) == multiset(old(a[..])) ==>
              |s| == NUM && mean == Trimmed(s) && s[2] <= mean <= s[NUM - 3]
  {
    Quicksort(a, 0, NUM);
    ghost var t := a[..];
    assert a[0..NUM] == t && t[0..NUM] == t && old(a[..])[0..NUM] == old(a[..]);
    assert Sorted(t);
    var i, temp := 2, 0;
    while i < NUM - 2
      invariant a[..] == t
      invariant 2 <= i <= NUM - 2 && temp == Sum(a[2..i])
    {
      assert a[2..i + 1] == a[2..i] + [a[i]];
      SumJoin(a[2..i], [a[i]]);
      temp := temp + a[i];
      i := i + 1;
    }
    mean := temp / (NUM - 4);
    TrimmedBetween(t);
    forall s | Sorted(s) && multiset(s) == multiset(old(a[..]))
      ensures |s| == NUM && mean == Trimmed(s) && s[2] <= mean <= s[NUM - 3]
    {
      SortedUnique(s, t);
    }
  }

  // Packing

  datatype Family = GXBB | GXTVBB | GXL

  /** GXL readings have 12 bits; only the upper ten are kept. */
  function Stored(family: Family, temp: bv32): bv32 { if family == GXL then temp >> 2 else temp }

  /** The 16 bits written: a 10-bit reading, a 5-bit trim and a valid flag. */
  function Pack(t: bv32, tsc: bv32): (data: bv32) {
    var word := ((t << 5) | (tsc & 0x1f)) & 0xffff;
    var buf0, buf1 := word & 0xff, ((word >> 8) & 0xff) | 0x80;
    (buf1 << 8) | buf0
  }

  function VersionOf(reg: bv32): bv32 { (reg >> 24) & 0xff }
  function WordOf(reg: bv32): bv32 { (((reg >> 8) & 0xff) << 8) | (reg & 0xff) }
  function FlagOf(word: bv32): bv32 { (word & 0x8000) >> 15 }
  function TrimOf(word: bv32): bv32 { word & 0x1f }
  function ReadingOf(word: bv32): bv32 { (word & 0x7fff) >> 5 }
  function Scaled(family: Family, t: bv32): bv32 { if family == GXL then t << 2 else t }

  predicate KnownVersion(ver: bv32) { ver == 0xA0 || ver == 0x40 || ver == 0xC0 }

  /** What reading back finds: valid flag, reading and trim; None when the version byte in
      the top eight bits is not a known one. */
  function Unpack(family: Family, reg: bv32): (r: Option<(bv32, bv32, bv32)>) {
    var ver, word := VersionOf(reg), WordOf(reg);
    if !KnownVersion(ver) then None
    else
      Some((FlagOf(word), Scaled(family, ReadingOf(word)),
            if family == GXBB && ver == 0x40 then 16 else TrimOf(word)))
  }

  /** The register after the efuse has been written under version byte `ver`. */
  function Register(ver: bv32, data: bv32): bv32 { (ver << 24) | data }

  lemma RegisterParts(ver: bv32, word: bv32)
    requires ver <= 0xff && word <= 0xffff
    ensures VersionOf(Register(ver, word)) == ver && WordOf(Register(ver, word)) == word
  {
  }

  function Word(t: bv32, tsc: bv32): bv32 { 0x8000 | ((t << 5) & 0x7fe0) | tsc }

  lemma PackedWord(t: bv32, tsc: bv32)
    requires tsc < 32
    ensures Pack(t, tsc) == Word(t, tsc) && Word(t, tsc) <= 0xffff
  {
  }

  lemma WordParts(t: bv32, tsc: bv32)
    requires tsc < 32
    ensures FlagOf(Word(t, tsc)) == 1 && TrimOf(Word(t, tsc)) == tsc && ReadingOf(Word(t, tsc)) == t & 0x3ff
  {
  }

  /** Ten bits survive, and on GXL the upper ten of twelve. */
  lemma KeptBits(family: Family, temp: bv32)
    ensures family != GXL ==> (Scaled(family, Stored(family, temp) & 0x3ff) == temp <==> temp < 1024)
    ensures family == GXL ==> (Scaled(family, Stored(family, temp) & 0x3ff) == temp & 0xffff_fffc <==> temp < 4096)
  {
  }

  /** Reading back what was packed, under version byte `ver`, gives the same reading exactly
      when it fits 10 bits, and the same trim when it fits 5 bits, with the flag set; GXL
      rounds the reading down to a multiple of four and keeps 12 bits, and GXBB with version
      0x40 always reports trim 16. */
  lemma PackUnpack(family: Family, temp: bv32, tsc: bv32, ver: bv32)
    requires KnownVersion(ver) && tsc < 32
    ensures var r := Unpack(family, Register(ver, Pack(Stored(family, temp), tsc)));
            && r.Some? && r.value.0 == 1
            && r.value.2 == (if family == GXBB && ver == 0x40 then 16 else tsc)
            && (family != GXL ==> (r.value.1 == temp <==> temp < 1024))
            && (family == GXL ==> (r.value.1 == temp & 0xffff_fffc <==> temp < 4096))
  {
    hide Pack, Register, VersionOf, WordOf, FlagOf, TrimOf, ReadingOf, Stored, Scaled, Word;
    var t := Stored(family, temp);
    PackedWord(t, tsc);
    WordParts(t, tsc);
    RegisterParts(ver, Pack(t, tsc));
    KeptBits(family, temp);
  }
}
