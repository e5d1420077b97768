/** The 64 x 64 -> 128 bit multiplication of the device hash (`CUDA_XXH_mult64to128`). */
module WideMultiply {
  import opened Arithmetic

  const HALF: nat := 0x1_0000_0000
  const WORD: nat := 0x1_0000_0000_0000_0000
  const DIGITS: nat := 0xFFFF_FFFE_0000_0001   // the largest product of two digits below HALF

  datatype U128 = U128(low: nat, high: nat)

  /** The sums over the four partial products, every operation truncated to 64 bits; the final `or` joins disjoint
      digits. */
  function AddUp(lolo: nat, hilo: nat, lohi: nat, hihi: nat): U128 {
    var cross := (lolo / HALF + hilo % HALF + lohi) % WORD;
    var upper := (hilo / HALF + cross / HALF + hihi) % WORD;
    var lower := (cross * HALF) % WORD + lolo % HALF;
    U128(lower, upper)
  }

  function Multiply(lhs: nat, rhs: nat): U128 {
    AddUp((lhs % HALF) * (rhs % HALF) % WORD, (lhs / HALF) * (rhs % HALF) % WORD,
          (lhs % HALF) * (rhs / HALF) % WORD, (lhs / HALF) * (rhs / HALF) % WORD)
  }

  lemma DigitProduct(x: nat, y: nat)
    requires x < HALF && y < HALF
    ensures x * y <= DIGITS
  {
    MulMono(x, HALF - 1, y);
    MulMono(y, HALF - 1, HALF - 1);
  }

  lemma Unchanged(a: nat, w: nat)
    requires a < w
    ensures a % w == a
  {
  }

  lemma Split(x: nat, h: nat) returns (q: nat, r: nat)
    requires h > 0
    ensures q == x / h && r == x % h && x == q * h + r && r < h
  {
    q, r := x / h, x % h;
  }

  /** No sum overflows, and nothing is lost. */
  lemma AddUpExact(lolo: nat, hilo: nat, lohi: nat, hihi: nat)
    requires lolo <= DIGITS && hilo <= DIGITS && lohi <= DIGITS && hihi <= DIGITS
    ensures lolo / HALF + hilo % HALF + lohi < WORD
    ensures hilo / HALF + (lolo / HALF + hilo % HALF + lohi) / HALF + hihi < WORD
    ensures var r := AddUp(lolo, hilo, lohi, hihi);
            r.low < WORD && r.high < WORD && r.low + WORD * r.high == lolo + HALF * hilo + HALF * lohi + WORD * hihi
  {
    var l1, l0 := Split(lolo, HALF);
    var h1, h0 := Split(hilo, HALF);
    var cross := l1 + h0 + lohi;
    Unchanged(cross, WORD);
    var c1, c0 := Split(cross, HALF);
    var upper := h1 + c1 + hihi;
    Unchanged(upper, WORD);
    assert cross * HALF == c1 * WORD + c0 * HALF;
    DivUnique(cross * HALF, WORD, c1, c0 * HALF);
  }

  lemma Schoolbook(h: nat, a: nat, b: nat, c: nat, d: nat)
    ensures (a * h + b) * (c * h + d) == b * d + h * (a * d) + h * (b * c) + h * h * (a * c)
  {
    assert (a * h + b) * (c * h + d) == (a * h + b) * (c * h) + (a * h + b) * d;
    assert (a * h + b) * d == h * (a * d) + b * d;
    assert (a * h + b) * (c * h) == h * h * (a * c) + h * (b * c);
  }

  /** For all 64-bit operands the two words are the exact product. */
  lemma Mult64to128Exact(lhs: nat, rhs: nat)
    requires lhs < WORD && rhs < WORD
    ensures var r := Multiply(lhs, rhs);
            r.low < WORD && r.high < WORD && r.low + WORD * r.high == lhs * rhs
  {
    var a, b := Split(lhs, HALF);
    var c, d := Split(rhs, HALF);
    Products(a, b, c, d);
    AddUpExact(b * d, a * d, b * c, a * c);
    Schoolbook(HALF, a, b, c, d);
  }

  lemma Products(a: nat, b: nat, c: nat, d: nat)
    requires a < HALF && b < HALF && c < HALF && d < HALF
    ensures b * d <= DIGITS && a * d <= DIGITS && b * c <= DIGITS && a * c <= DIGITS
    ensures b * d % WORD == b * d && a * d % WORD == a * d && b * c % WORD == b * c && a * c % WORD == a * c
  {
    DigitProduct(b, d);
    DigitProduct(a, d);
    DigitProduct(b, c);
    DigitProduct(a, c);
    Unchanged(b * d, WORD);
    Unchanged(a * d, WORD);
    Unchanged(b * c, WORD);
    Unchanged(a * c, WORD);
  }
}
