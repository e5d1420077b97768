/** The few facts about products and quotients that the solver needs spelled out. */
module Arithmetic {
  lemma MulMono(a: nat, b: nat, c: nat)
    requires a <= b
    ensures a * c <= b * c
  {
  }

  lemma MulSign(k: int, b: nat)
    ensures k >= 1 ==> k * b >= b
    ensures k <= -1 ==> k * b + b <= 0
  {
  }

  lemma DivUnique(a: nat, b: nat, q: nat, r: nat)
    requires b > 0 && a == q * b + r && r < b
    ensures a / b == q && a % b == r
  {
    var d := a / b;
    var m := a % b;
    assert a == d * b + m;
    assert (d - q) * b == r - m;
    MulSign(d - q, b);
  }
}
