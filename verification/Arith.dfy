/** Facts about division that the solver does not find by itself. */
module Arith {
  lemma MulAtLeast(k: int, b: int)
    requires k >= 1 && b > 0
    ensures k * b >= b
  {
  }

  /** Quotient and remainder are unique. */
  lemma QuotientUnique(x: int, b: int, q: int, r: int, q': int, r': int)
    requires b > 0 && 0 <= r < b && 0 <= r' < b
    requires x == q * b + r && x == q' * b + r'
    ensures q == q' && r == r'
  {
    assert (q - q') * b == r' - r;
    if q > q' { MulAtLeast(q - q', b); }
    if q < q' { MulAtLeast(q' - q, b); }
  }

  lemma DivIs(x: nat, b: nat, q: nat)
    requires b > 0 && x == q * b
    ensures x / b == q
  {
    var q', r' := x / b, x % b;
    assert x == q' * b + r';
    QuotientUnique(x, b, q, 0, q', r');
  }

  lemma ModShift(x: int, b: int)
    requires b > 0
    ensures (x + b) % b == x % b
  {
    var q, r := x / b, x % b;
    var q', r' := (x + b) / b, (x + b) % b;
    assert x + b == (q + 1) * b + r by { assert x == q * b + r; }
    assert x + b == q' * b + r';
    QuotientUnique(x + b, b, q + 1, r, q', r');
  }

  lemma SmallMod(x: nat, b: nat)
    requires x < b
    ensures x % b == x
  {
  }

  lemma QuotientSmall(x: nat, b: nat)
    requires b > 0
    ensures x / b <= x
  {
    var q, r := x / b, x % b;
    assert x == q * b + r;
    if q > 0 { MulGrows(q, b); }
  }

  lemma MulGrows(q: nat, b: nat)
    requires b > 0
    ensures q <= q * b
  {
  }
}
