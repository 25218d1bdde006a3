/** Polynomials over GF(2) and their remainders modulo x^8 + x^4 + x^3 + x + 1.

This is the reference the table arithmetic of `Gf256` is proved against: the product of two bytes is the
polynomial product modulo that polynomial (section 4.2 of FIPS 197). Integers enter only at the end, bit k of
an integer being the coefficient of x^k.
 */
module Polynomials {

  /** Coefficients from the constant term up: `Bit(c, p)` is c + x * p. */
  datatype Bits = Zero | Bit(low: bool, high: Bits)

  /** No leading zero coefficient, so that equal polynomials are equal values. */
  predicate Canonical(p: Bits) {
    p.Zero? || (Canonical(p.high) && (p.low || p.high.Bit?))
  }

  type Poly = p: Bits | Canonical(p) witness Zero

  /** c + x * h. */
  function Cons(c: bool, h: Poly): Poly {
    if !c && h.Zero? then Zero else Bit(c, h)
  }

  function Add(p: Poly, q: Poly): Poly {
    match (p, q)
    case (Zero, _) => q
    case (_, Zero) => p
    case (Bit(i, h), Bit(j, g)) => Cons(i != j, Add(h, g))
  }

  function Pick(c: bool, p: Poly): Poly {
    if c then p else Zero
  }

  function Product(p: Poly, q: Poly): Poly {
    match q
    case Zero => Zero
    case Bit(c, h) => Add(Pick(c, p), Cons(false, Product(p, h)))
  }

  function Coef(p: Poly, k: nat): bool {
    match p
    case Zero => false
    case Bit(c, h) => if k == 0 then c else Coef(h, k - 1)
  }

  /** x^8 + x^4 + x^3 + x + 1. */
  const MODULUS: Poly :=
    Bit(true, Bit(true, Bit(false, Bit(true, Bit(true, Bit(false, Bit(false, Bit(false, Bit(true, Zero)))))))))

  /** Subtract the modulus from a polynomial whose x^8 coefficient is set. */
  function Clip(p: Poly): Poly {
    if Coef(p, 8) then Add(p, MODULUS) else p
  }

  /** The remainder, by Horner's rule. */
  function Rem(p: Poly): Poly {
    match p
    case Zero => Zero
    case Bit(c, h) => Clip(Cons(c, Rem(h)))
  }

  /** Multiplication in GF(2^8). */
  function FieldMul(p: Poly, q: Poly): Poly {
    Rem(Product(p, q))
  }

  // ---------------------------------------------------------------- Addition

  lemma ConsParts(p: Poly)
    requires p.Bit?
    ensures p == Cons(p.low, p.high)
  {}

  lemma AddCons(i: bool, h: Poly, j: bool, g: Poly)
    ensures Add(Cons(i, h), Cons(j, g)) == Cons(i != j, Add(h, g))
  {}

  lemma {:induction false} AddCommutes(p: Poly, q: Poly)
    ensures Add(p, q) == Add(q, p)
  {
    if p.Bit? && q.Bit? { AddCommutes(p.high, q.high); }
  }

  lemma {:induction false} AddAssociates(p: Poly, q: Poly, r: Poly)
    ensures Add(Add(p, q), r) == Add(p, Add(q, r))
  {
    if p.Bit? && q.Bit? && r.Bit? {
      AddAssociates(p.high, q.high, r.high);
      AddCons(p.low != q.low, Add(p.high, q.high), r.low, r.high);
      AddCons(p.low, p.high, q.low != r.low, Add(q.high, r.high));
    }
  }

  lemma {:induction false} AddSelf(p: Poly)
    ensures Add(p, p) == Zero
  {
    if p.Bit? { AddSelf(p.high); }
  }

  lemma AddCancels(p: Poly, q: Poly)
    ensures Add(p, Add(p, q)) == q
  {
    AddAssociates(p, p, q);
    AddSelf(p);
  }

  lemma AddSwap(p: Poly, q: Poly, r: Poly, s: Poly)
    ensures Add(Add(p, q), Add(r, s)) == Add(Add(p, r), Add(q, s))
  {
    AddAssociates(p, q, Add(r, s));
    AddAssociates(q, r, s);
    AddCommutes(q, r);
    AddAssociates(r, q, s);
    AddAssociates(p, r, Add(q, s));
  }

  lemma {:induction false} CoefAdds(p: Poly, q: Poly, k: nat)
    ensures Coef(Add(p, q), k) == (Coef(p, k) != Coef(q, k))
  {
    if p.Bit? && q.Bit? {
      if k > 0 { CoefAdds(p.high, q.high, k - 1); }
      CoefCons(p.low != q.low, Add(p.high, q.high), k);
    }
  }

  lemma CoefCons(c: bool, h: Poly, k: nat)
    ensures Coef(Cons(c, h), k) == if k == 0 then c else Coef(h, k - 1)
  {}

  // ---------------------------------------------------------------- Products

  lemma PickAdds(c: bool, d: bool, p: Poly)
    ensures Pick(c != d, p) == Add(Pick(c, p), Pick(d, p))
  {
    AddSelf(p);
  }

  lemma ProductCons(p: Poly, c: bool, h: Poly)
    ensures Product(p, Cons(c, h)) == Add(Pick(c, p), Cons(false, Product(p, h)))
  {}

  lemma {:induction false} ProductZero(q: Poly)
    ensures Product(Zero, q) == Zero
  {
    if q.Bit? { ProductZero(q.high); }
  }

  lemma {:induction false} ProductAddsRight(p: Poly, q: Poly, r: Poly)
    ensures Product(p, Add(q, r)) == Add(Product(p, q), Product(p, r))
  {
    if q.Bit? && r.Bit? {
      ProductAddsRight(p, q.high, r.high);
      ProductCons(p, q.low != r.low, Add(q.high, r.high));
      PickAdds(q.low, r.low, p);
      AddCons(false, Product(p, q.high), false, Product(p, r.high));
      AddSwap(Pick(q.low, p), Pick(r.low, p), Cons(false, Product(p, q.high)), Cons(false, Product(p, r.high)));
    }
  }

  lemma {:induction false} ProductAddsLeft(p: Poly, q: Poly, r: Poly)
    ensures Product(Add(p, q), r) == Add(Product(p, r), Product(q, r))
  {
    if r.Bit? {
      ProductAddsLeft(p, q, r.high);
      AddCons(false, Product(p, r.high), false, Product(q, r.high));
      AddSwap(Pick(r.low, p), Pick(r.low, q), Cons(false, Product(p, r.high)), Cons(false, Product(q, r.high)));
    }
  }

  lemma {:induction false} ProductShiftsLeft(p: Poly, q: Poly)
    ensures Product(Cons(false, p), q) == Cons(false, Product(p, q))
  {
    if q.Bit? {
      ProductShiftsLeft(p, q.high);
      AddCons(false, Pick(q.low, p), false, Cons(false, Product(p, q.high)));
    }
  }

  lemma {:induction false} ProductOne(p: Poly)
    ensures Product(p, Bit(true, Zero)) == p && Product(Bit(true, Zero), p) == p
  {
    ProductCons(p, true, Zero);
    if p.Bit? {
      ProductOne(p.high);
      AddCons(p.low, Zero, false, p.high);
    }
  }

  lemma {:induction false} ProductCommutes(p: Poly, q: Poly)
    ensures Product(p, q) == Product(q, p)
  {
    if q.Zero? {
      ProductZero(p);
    } else {
      ProductCommutes(p, q.high);
      AddCons(q.low, Zero, false, q.high);
      ProductAddsLeft(Cons(q.low, Zero), Cons(false, q.high), p);
      ProductShiftsLeft(q.high, p);
      ProductOne(p);
      ProductZero(p);
    }
  }

  lemma {:induction false} ProductAssociates(p: Poly, q: Poly, r: Poly)
    ensures Product(Product(p, q), r) == Product(p, Product(q, r))
  {
    if r.Bit? {
      ProductAssociates(p, q, r.high);
      ProductAddsRight(p, Pick(r.low, q), Cons(false, Product(q, r.high)));
      ProductCons(p, false, Product(q, r.high));
    }
  }

  // ---------------------------------------------------------------- Remainders

  /** Degree below k. */
  predicate Fits(p: Poly, k: nat) {
    p.Zero? || (k > 0 && Fits(p.high, k - 1))
  }

  lemma {:induction false} FitsAdd(p: Poly, q: Poly, k: nat)
    requires Fits(p, k) && Fits(q, k)
    ensures Fits(Add(p, q), k)
  {
    if p.Bit? && q.Bit? { FitsAdd(p.high, q.high, k - 1); }
  }

  lemma {:induction false} FitsBelow(p: Poly, k: nat)
    requires Fits(p, k + 1) && !Coef(p, k)
    ensures Fits(p, k)
  {
    if p.Bit? && k > 0 { FitsBelow(p.high, k - 1); }
  }

  lemma {:induction false} FitsMore(p: Poly, k: nat)
    requires Fits(p, k)
    ensures Fits(p, k + 1) && !Coef(p, k)
  {
    if p.Bit? { FitsMore(p.high, k - 1); }
  }

  lemma ModulusShape()
    ensures Fits(MODULUS, 9) && Coef(MODULUS, 8)
  {
    assert Coef(MODULUS, 8) by {
      var t: Poly := Bit(true, Zero);
      assert Coef(t, 0);
    }
  }

  lemma ClipFits(p: Poly)
    requires Fits(p, 9)
    ensures Fits(Clip(p), 8)
  {
    ModulusShape();
    if Coef(p, 8) {
      CoefAdds(p, MODULUS, 8);
      FitsAdd(p, MODULUS, 9);
    }
    FitsBelow(Clip(p), 8);
  }

  lemma {:induction false} RemFits(p: Poly)
    ensures Fits(Rem(p), 8)
  {
    if p.Bit? {
      RemFits(p.high);
      ClipFits(Cons(p.low, Rem(p.high)));
    }
  }

  lemma ClipAdds(p: Poly, q: Poly)
    ensures Clip(Add(p, q)) == Add(Clip(p), Clip(q))
  {
    CoefAdds(p, q, 8);
    AddAssociates(p, q, MODULUS);
    AddAssociates(p, MODULUS, q);
    AddCommutes(q, MODULUS);
    AddSwap(p, MODULUS, q, MODULUS);
    AddSelf(MODULUS);
  }

  lemma RemCons(c: bool, h: Poly)
    ensures Rem(Cons(c, h)) == Clip(Cons(c, Rem(h)))
  {}

  lemma {:induction false} RemAdds(p: Poly, q: Poly)
    ensures Rem(Add(p, q)) == Add(Rem(p), Rem(q))
  {
    if p.Bit? && q.Bit? {
      RemAdds(p.high, q.high);
      RemCons(p.low != q.low, Add(p.high, q.high));
      AddCons(p.low, Rem(p.high), q.low, Rem(q.high));
      ClipAdds(Cons(p.low, Rem(p.high)), Cons(q.low, Rem(q.high)));
    }
  }

  lemma {:induction false} RemOfSmall(p: Poly)
    requires Fits(p, 8)
    ensures Rem(p) == p
  {
    if p.Bit? {
      FitsMore(p.high, 7);
      RemOfSmall(p.high);
      FitsMore(p, 8);
      ConsParts(p);
    }
  }

  lemma RemOfModulus()
    ensures Rem(MODULUS) == Zero
  {
    var h: Poly := MODULUS.high;
    assert Fits(h, 8);
    RemOfSmall(h);
    ModulusShape();
    AddSelf(MODULUS);
  }

  lemma {:induction false} RemOfMultiple(q: Poly)
    ensures Rem(Product(MODULUS, q)) == Zero
  {
    if q.Bit? {
      RemOfMultiple(q.high);
      RemCons(false, Product(MODULUS, q.high));
      RemAdds(Pick(q.low, MODULUS), Cons(false, Product(MODULUS, q.high)));
      RemOfModulus();
    }
  }

  /** The quotient that goes with `Rem`. */
  function Quot(p: Poly): Poly {
    if p.Zero? then Zero else Cons(Coef(Cons(p.low, Rem(p.high)), 8), Quot(p.high))
  }

  /** `Rem` divides: p is a multiple of the modulus plus Rem(p), which has degree below 8. */
  lemma {:induction false} RemDivides(p: Poly)
    ensures p == Add(Product(MODULUS, Quot(p)), Rem(p)) && Fits(Rem(p), 8)
  {
    RemFits(p);
    if p.Bit? {
      RemDivides(p.high);
      var m, t := Product(MODULUS, Quot(p.high)), Cons(p.low, Rem(p.high));
      AddCons(false, m, p.low, Rem(p.high));
      ConsParts(p);
      ProductCons(MODULUS, Coef(t, 8), Quot(p.high));
      BorrowModulus(Cons(false, m), t);
    }
  }

  lemma BorrowModulus(m: Poly, t: Poly)
    ensures Add(Add(Pick(Coef(t, 8), MODULUS), m), Clip(t)) == Add(m, t)
  {
    AddCommutes(MODULUS, m);
    AddCommutes(t, MODULUS);
    AddAssociates(m, MODULUS, Add(MODULUS, t));
    AddCancels(MODULUS, t);
  }

  /** ... and is the only remainder of degree below 8. */
  lemma RemIsUnique(p: Poly, q: Poly, r: Poly)
    requires p == Add(Product(MODULUS, q), r) && Fits(r, 8)
    ensures r == Rem(p)
  {
    RemAdds(Product(MODULUS, q), r);
    RemOfMultiple(q);
    RemOfSmall(r);
  }

  /** Reducing a factor first does not change a product's remainder. */
  lemma RemOfProduct(p: Poly, q: Poly)
    ensures Rem(Product(Rem(p), q)) == Rem(Product(p, q))
  {
    RemDivides(p);
    ProductAddsLeft(Product(MODULUS, Quot(p)), Rem(p), q);
    ProductAssociates(MODULUS, Quot(p), q);
    RemAdds(Product(MODULUS, Product(Quot(p), q)), Product(Rem(p), q));
    RemOfMultiple(Product(Quot(p), q));
  }

  // ---------------------------------------------------------------- The ring of remainders

  lemma FieldMulCommutes(p: Poly, q: Poly)
    ensures FieldMul(p, q) == FieldMul(q, p)
  {
    ProductCommutes(p, q);
  }

  lemma FieldMulAssociates(p: Poly, q: Poly, r: Poly)
    ensures FieldMul(FieldMul(p, q), r) == FieldMul(p, FieldMul(q, r))
  {
    RemOfProduct(Product(p, q), r);
    ProductAssociates(p, q, r);
    ProductCommutes(p, Rem(Product(q, r)));
    RemOfProduct(Product(q, r), p);
    ProductCommutes(Product(q, r), p);
  }

  lemma FieldMulDistributes(p: Poly, q: Poly, r: Poly)
    ensures FieldMul(p, Add(q, r)) == Add(FieldMul(p, q), FieldMul(p, r))
  {
    ProductAddsRight(p, q, r);
    RemAdds(Product(p, q), Product(p, r));
  }

  // ---------------------------------------------------------------- Integers as polynomials

  function Poly2Nat(p: Poly): nat {
    if p.Zero? then 0 else 2 * Poly2Nat(p.high) + (if p.low then 1 else 0)
  }

  function Nat2Poly(n: nat): Poly {
    if n == 0 then Zero else Cons(n % 2 == 1, Nat2Poly(n / 2))
  }

  lemma {:induction false} NatRoundTrip(n: nat)
    ensures Poly2Nat(Nat2Poly(n)) == n
  {
    if n > 0 { NatRoundTrip(n / 2); }
  }

  lemma {:induction false} PolyRoundTrip(p: Poly)
    ensures Nat2Poly(Poly2Nat(p)) == p
    ensures p.Bit? ==> Poly2Nat(p) > 0
  {
    if p.Bit? {
      PolyRoundTrip(p.high);
      ConsParts(p);
    }
  }

  function Pow2(k: nat): (r: nat)
    ensures r > 0
  {
    if k == 0 then 1 else 2 * Pow2(k - 1)
  }

  lemma {:induction false} FitsIsBound(p: Poly, k: nat)
    ensures Fits(p, k) <==> Poly2Nat(p) < Pow2(k)
  {
    PolyRoundTrip(p);
    if p.Bit? && k > 0 { FitsIsBound(p.high, k - 1); }
  }

  lemma {:induction false} TopCoef(p: Poly, k: nat)
    requires Fits(p, k + 1)
    ensures Coef(p, k) <==> Poly2Nat(p) >= Pow2(k)
  {
    if p.Bit? {
      if k > 0 { TopCoef(p.high, k - 1); } else { assert p.high.Zero?; }
    }
  }

  lemma ByteBounds()
    ensures Pow2(8) == 256 && Pow2(9) == 512
  {
    assert Pow2(1) == 2 && Pow2(2) == 4 && Pow2(3) == 8 && Pow2(4) == 16;
    assert Pow2(5) == 32 && Pow2(6) == 64 && Pow2(7) == 128 && Pow2(8) == 256;
  }

  /** The `^` operator on non-negative integers. */
  function Xor(a: nat, b: nat): nat {
    Poly2Nat(Add(Nat2Poly(a), Nat2Poly(b)))
  }

  /** Multiplication of bytes in GF(2^8). */
  function PolyMul(a: nat, b: nat): nat {
    Poly2Nat(FieldMul(Nat2Poly(a), Nat2Poly(b)))
  }

  lemma XorPoly(a: nat, b: nat)
    ensures Nat2Poly(Xor(a, b)) == Add(Nat2Poly(a), Nat2Poly(b))
  {
    PolyRoundTrip(Add(Nat2Poly(a), Nat2Poly(b)));
  }

  lemma PolyMulPoly(a: nat, b: nat)
    ensures Nat2Poly(PolyMul(a, b)) == FieldMul(Nat2Poly(a), Nat2Poly(b)) && PolyMul(a, b) < 256
  {
    PolyRoundTrip(FieldMul(Nat2Poly(a), Nat2Poly(b)));
    RemFits(Product(Nat2Poly(a), Nat2Poly(b)));
    FitsIsBound(FieldMul(Nat2Poly(a), Nat2Poly(b)), 8);
    ByteBounds();
  }

  lemma XorFits(a: nat, b: nat, k: nat)
    requires a < Pow2(k) && b < Pow2(k)
    ensures Xor(a, b) < Pow2(k)
  {
    NatRoundTrip(a);
    NatRoundTrip(b);
    FitsIsBound(Nat2Poly(a), k);
    FitsIsBound(Nat2Poly(b), k);
    FitsAdd(Nat2Poly(a), Nat2Poly(b), k);
    FitsIsBound(Add(Nat2Poly(a), Nat2Poly(b)), k);
  }

  lemma XorCommutes(a: nat, b: nat)
    ensures Xor(a, b) == Xor(b, a)
  {
    AddCommutes(Nat2Poly(a), Nat2Poly(b));
  }

  lemma XorAssociates(a: nat, b: nat, c: nat)
    ensures Xor(Xor(a, b), c) == Xor(a, Xor(b, c))
  {
    XorPoly(a, b);
    XorPoly(b, c);
    AddAssociates(Nat2Poly(a), Nat2Poly(b), Nat2Poly(c));
  }

  lemma XorUnits(a: nat)
    ensures Xor(a, a) == 0 && Xor(a, 0) == a && Xor(0, a) == a
  {
    AddSelf(Nat2Poly(a));
    NatRoundTrip(a);
  }

  lemma XorCancels(a: nat, b: nat)
    ensures Xor(a, Xor(a, b)) == b && Xor(Xor(b, a), a) == b
  {
    XorAssociates(a, a, b);
    XorAssociates(b, a, a);
    XorUnits(a);
    XorUnits(b);
  }

  lemma XorSwap(a: nat, b: nat, c: nat, d: nat)
    ensures Xor(Xor(a, b), Xor(c, d)) == Xor(Xor(a, c), Xor(b, d))
  {
    XorPoly(a, b);
    XorPoly(c, d);
    XorPoly(a, c);
    XorPoly(b, d);
    AddSwap(Nat2Poly(a), Nat2Poly(b), Nat2Poly(c), Nat2Poly(d));
  }

  lemma PolyMulCommutes(a: nat, b: nat)
    ensures PolyMul(a, b) == PolyMul(b, a)
  {
    FieldMulCommutes(Nat2Poly(a), Nat2Poly(b));
  }

  lemma PolyMulAssociates(a: nat, b: nat, c: nat)
    ensures PolyMul(PolyMul(a, b), c) == PolyMul(a, PolyMul(b, c))
  {
    PolyMulPoly(a, b);
    PolyMulPoly(b, c);
    FieldMulAssociates(Nat2Poly(a), Nat2Poly(b), Nat2Poly(c));
  }

  lemma PolyMulDistributes(a: nat, b: nat, c: nat)
    ensures PolyMul(a, Xor(b, c)) == Xor(PolyMul(a, b), PolyMul(a, c))
    ensures PolyMul(Xor(b, c), a) == Xor(PolyMul(b, a), PolyMul(c, a))
  {
    XorPoly(b, c);
    PolyMulPoly(a, b);
    PolyMulPoly(a, c);
    FieldMulDistributes(Nat2Poly(a), Nat2Poly(b), Nat2Poly(c));
    PolyMulCommutes(a, Xor(b, c));
    PolyMulCommutes(a, b);
    PolyMulCommutes(a, c);
  }

  lemma OnePoly()
    ensures Nat2Poly(1) == Bit(true, Zero)
  {
    assert Nat2Poly(0) == Zero;
  }

  lemma PolyMulUnits(a: nat)
    requires a < 256
    ensures PolyMul(a, 1) == a && PolyMul(1, a) == a && PolyMul(a, 0) == 0 && PolyMul(0, a) == 0
  {
    var p := Nat2Poly(a);
    NatRoundTrip(a);
    ByteBounds();
    FitsIsBound(p, 8);
    RemOfSmall(p);
    OnePoly();
    ProductOne(p);
    ProductZero(p);
  }
}
