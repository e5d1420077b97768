/** Bitwise exclusive-or on naturals, and the bucket that a set of vector indices folds to. */
module XorAlgebra {

  function Xor(a: nat, b: nat): nat
    decreases a + b
  {
    if a == 0 && b == 0 then 0 else 2 * Xor(a / 2, b / 2) + (a + b) % 2
  }

  lemma {:induction false} XorZero(a: nat)
    ensures Xor(a, 0) == a && Xor(0, a) == a
  {
    if a != 0 { XorZero(a / 2); }
  }

  lemma {:induction false} XorSelf(a: nat)
    ensures Xor(a, a) == 0
  {
    if a != 0 { XorSelf(a / 2); }
  }

  lemma {:induction false} XorComm(a: nat, b: nat)
    ensures Xor(a, b) == Xor(b, a)
    decreases a + b
  {
    if a != 0 || b != 0 { XorComm(a / 2, b / 2); }
  }

  lemma XorHalves(a: nat, b: nat)
    ensures Xor(a, b) / 2 == Xor(a / 2, b / 2) && Xor(a, b) % 2 == (a + b) % 2
  {
  }

  lemma ParityAssoc(a: nat, b: nat, c: nat, l: nat, r: nat)
    requires l % 2 == (a + b) % 2 && r % 2 == (b + c) % 2
    ensures (l + c) % 2 == (a + r) % 2
  {
  }

  lemma XorFromHalves(l: nat, c: nat, a: nat, r: nat)
    requires Xor(l / 2, c / 2) == Xor(a / 2, r / 2) && (l + c) % 2 == (a + r) % 2
    ensures Xor(l, c) == Xor(a, r)
  {
    XorHalves(l, c);
    XorHalves(a, r);
  }

  lemma {:induction false} XorAssoc(a: nat, b: nat, c: nat)
    ensures Xor(Xor(a, b), c) == Xor(a, Xor(b, c))
    decreases a + b + c
  {
    if a + b + c != 0 {
      XorAssoc(a / 2, b / 2, c / 2);
      AssocFromHalves(a, b, c, Xor(a, b), Xor(b, c));
    }
  }

  lemma AssocFromHalves(a: nat, b: nat, c: nat, l: nat, r: nat)
    requires l == Xor(a, b) && r == Xor(b, c)
    requires Xor(Xor(a / 2, b / 2), c / 2) == Xor(a / 2, Xor(b / 2, c / 2))
    ensures Xor(l, c) == Xor(a, r)
  {
    XorHalves(a, b);
    XorHalves(b, c);
    ParityAssoc(a, b, c, l, r);
    XorFromHalves(l, c, a, r);
  }

  datatype Bucket = Bucket(alpha: nat, gamma: nat)

  const ZERO: Bucket := Bucket(0, 0)

  function XorB(a: Bucket, b: Bucket): Bucket {
    Bucket(Xor(a.alpha, b.alpha), Xor(a.gamma, b.gamma))
  }

  /** The one-element bucket of index `x` under checksum `h`. */
  function Item(x: nat, h: nat -> nat): Bucket { Bucket(x, h(x)) }

  lemma XorBLaws(a: Bucket, b: Bucket, c: Bucket)
    ensures XorB(a, ZERO) == a && XorB(ZERO, a) == a
    ensures XorB(a, a) == ZERO
    ensures XorB(a, b) == XorB(b, a)
    ensures XorB(XorB(a, b), c) == XorB(a, XorB(b, c))
  {
    XorZero(a.alpha); XorZero(a.gamma);
    XorSelf(a.alpha); XorSelf(a.gamma);
    XorComm(a.alpha, b.alpha); XorComm(a.gamma, b.gamma);
    XorAssoc(a.alpha, b.alpha, c.alpha); XorAssoc(a.gamma, b.gamma, c.gamma);
  }

  // x + (y + r) with x and y exchanged
  lemma XorBExchange(x: Bucket, y: Bucket, r: Bucket)
    ensures XorB(x, XorB(y, r)) == XorB(y, XorB(x, r))
  {
    XorBLaws(x, y, r);
    XorBLaws(y, x, r);
  }

  /** The exclusive-or of the items of a set. */
  ghost function Content(s: set<nat>, h: nat -> nat): Bucket
    decreases |s|
  {
    if s == {} then ZERO
    else
      var x :| x in s;
      XorB(Item(x, h), Content(s - {x}, h))
  }

  lemma {:induction false} ContentRemove(s: set<nat>, h: nat -> nat, x: nat)
    requires x in s
    ensures Content(s, h) == XorB(Item(x, h), Content(s - {x}, h))
    decreases |s|
  {
    var y :| y in s && Content(s, h) == XorB(Item(y, h), Content(s - {y}, h));
    if y != x {
      ContentRemove(s - {y}, h, x);
      ContentRemove(s - {x}, h, y);
      assert s - {y} - {x} == s - {x} - {y};
      XorBExchange(Item(y, h), Item(x, h), Content(s - {x} - {y}, h));
    }
  }

  function Toggle(s: set<nat>, x: nat): set<nat> {
    if x in s then s - {x} else s + {x}
  }

  function SymDiff<T(==)>(s: set<T>, t: set<T>): set<T> {
    (s - t) + (t - s)
  }

  lemma ContentToggle(s: set<nat>, h: nat -> nat, x: nat)
    ensures Content(Toggle(s, x), h) == XorB(Content(s, h), Item(x, h))
  {
    var i := Item(x, h);
    if x in s {
      var r := Content(s - {x}, h);
      ContentRemove(s, h, x);
      XorBLaws(i, r, i);
      XorBLaws(r, i, i);
      XorBLaws(i, i, r);
    } else {
      ContentRemove(s + {x}, h, x);
      assert s + {x} - {x} == s;
      XorBLaws(i, Content(s, h), i);
    }
  }

  lemma {:induction false} ContentSymDiff(s: set<nat>, t: set<nat>, h: nat -> nat)
    ensures Content(SymDiff(s, t), h) == XorB(Content(s, h), Content(t, h))
    decreases |t|
  {
    if t == {} {
      assert SymDiff(s, t) == s;
      XorBLaws(Content(s, h), ZERO, ZERO);
    } else {
      var x :| x in t;
      assert SymDiff(s, t) == SymDiff(Toggle(s, x), t - {x});
      ContentSymDiff(Toggle(s, x), t - {x}, h);
      ContentToggle(s, h, x);
      ContentRemove(t, h, x);
      XorBLaws(Content(s, h), Item(x, h), Content(t - {x}, h));
    }
  }

  lemma ContentSingleton(x: nat, h: nat -> nat)
    ensures Content({x}, h) == Item(x, h)
  {
    ContentRemove({x}, h, x);
    assert {x} - {x} == {};
    XorBLaws(Item(x, h), ZERO, ZERO);
  }

  /** Exclusive-or never leaves the machine width. */
  lemma {:induction false} XorFits(a: nat, b: nat, bits: nat)
    requires a < Pow2(bits) && b < Pow2(bits)
    ensures Xor(a, b) < Pow2(bits)
  {
    if bits > 0 { XorFits(a / 2, b / 2, bits - 1); }
  }

  function Pow2(k: nat): (r: nat)
    ensures r > 0
  {
    if k == 0 then 1 else 2 * Pow2(k - 1)
  }
}
