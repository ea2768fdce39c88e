// Facts about multiplication and division that the other modules need.
module Arithmetic {

  lemma {:induction false} AtLeast(x: int, d: nat)
    ensures x >= 1 ==> x * d >= d
  {
  }

  lemma {:induction false} Monotone(a: int, b: int, c: nat)
    ensures a <= b ==> a * c <= b * c
  {
  }

  // A quotient and a remainder that fit are the quotient and the remainder.
  lemma {:induction false} Divided(a: nat, d: nat, q: nat, r: nat)
    requires d >= 1 && a == q * d + r && r < d
    ensures a / d == q && a % d == r
  {
    var q', r' := a / d, a % d;
    assert (q - q') * d == r' - r;
    AtLeast(q - q', d);
    AtLeast(q' - q, d);
    assert (q' - q) * d == -((q - q') * d);
  }
}
