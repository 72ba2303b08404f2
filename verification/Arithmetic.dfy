/** Quotients and remainders by a divisor that is not a constant. */
module Arithmetic {
  lemma {:induction false} MultipleAtLeast(d: nat, c: nat)
    requires d >= 1
    ensures d * c >= c
  {
    assert d * c == (d - 1) * c + c;
  }

  /** A multiple of c that lies strictly between -c and c is none. */
  lemma NoMultipleBetween(d: int, c: nat)
    requires 0 < d * c + c && d * c < c
    ensures d == 0
  {
    if d >= 1 {
      MultipleAtLeast(d, c);
    }
    assert (-d) * c == -(d * c);
    if d <= -1 {
      MultipleAtLeast(-d, c);
    }
  }

  /** Quotient and remainder are the only way to write x. */
  lemma DivisionIs(x: int, q: int, c: nat, r: int)
    requires 0 <= r < c && x == q * c + r
    ensures x / c == q && x % c == r
  {
    var q', r' := x / c, x % c;
    assert x == q' * c + r' && 0 <= r' < c;
    assert (q - q') * c == q * c - q' * c;
    NoMultipleBetween(q - q', c);
  }

  lemma RemainderIs(x: int, q: int, c: nat, r: int)
    requires 0 <= r < c && x == q * c + r
    ensures x % c == r
  {
    DivisionIs(x, q, c, r);
  }

  lemma SameRemainder(x: nat, y: nat, c: nat)
    requires c > 0 && x <= y < x + c && x % c == y % c
    ensures x == y
  {
    var d := y / c - x / c;
    assert x == (x / c) * c + x % c && y == (y / c) * c + y % c;
    assert d * c == (y / c) * c - (x / c) * c;
    NoMultipleBetween(d, c);
  }
}
