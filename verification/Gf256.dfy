/** GF(256) by logarithm tables, as the secret-sharing code builds and uses them. */
module Gf256 {
  import opened Prelude
  import opened Polynomials

  const ONE: Poly := Bit(true, Zero)
  const THREE: Poly := Bit(true, Bit(true, Zero))

  // ---------------------------------------------------------------- One step of the table loop

  /** x * 3 = x * 2 + x, reduced when bit 8 is set. */
  function Times3(x: nat): nat {
    var y := Xor(2 * x, x);
    if y / 256 % 2 == 1 then Xor(y, 0x11b) else y
  }

  lemma DoublePoly(x: nat)
    ensures Nat2Poly(2 * x) == Cons(false, Nat2Poly(x))
  {}

  lemma ModulusPoly()
    ensures Nat2Poly(0x11b) == MODULUS
  {
    assert Poly2Nat(MODULUS) == 0x11b;
    PolyRoundTrip(MODULUS);
  }

  /** A polynomial of degree at most 8 is reduced by one subtraction. */
  lemma RemIsClip(p: Poly)
    requires Fits(p, 9)
    ensures Rem(p) == Clip(p)
  {
    if p.Bit? {
      RemOfSmall(p.high);
      ConsParts(p);
    } else {
      assert !Coef(p, 8);
    }
  }

  /** p * x + p, the loop's step before reduction. */
  function Tripled(p: Poly): Poly {
    Add(Cons(false, p), p)
  }

  lemma TripledIsProduct(p: Poly)
    requires Fits(p, 8)
    ensures FieldMul(p, THREE) == Clip(Tripled(p)) && Fits(Tripled(p), 9)
  {
    FitsMore(p, 8);
    FitsAdd(Cons(false, p), p, 9);
    RemIsClip(Tripled(p));
    AddCommutes(Cons(false, p), p);
    ProductCons(p, true, ONE);
    ProductOne(p);
  }

  lemma XorTripled(p: Poly)
    ensures Xor(2 * Poly2Nat(p), Poly2Nat(p)) == Poly2Nat(Tripled(p))
  {
    PolyRoundTrip(p);
    DoublePoly(Poly2Nat(p));
  }

  lemma XorModulus(p: Poly)
    ensures Xor(Poly2Nat(p), 0x11b) == Poly2Nat(Add(p, MODULUS))
  {
    PolyRoundTrip(p);
    ModulusPoly();
  }

  lemma BitEight(p: Poly)
    requires Fits(p, 9)
    ensures (Poly2Nat(p) / 256 % 2 == 1) <==> Coef(p, 8)
  {
    ByteBounds();
    FitsIsBound(p, 9);
    TopCoef(p, 8);
  }

  /** The loop's shift and conditional subtraction is multiplication by 3 in the field. */
  lemma Times3Multiplies(p: Poly)
    requires Fits(p, 8)
    ensures Times3(Poly2Nat(p)) == Poly2Nat(FieldMul(p, THREE))
  {
    TripledIsProduct(p);
    XorTripled(p);
    BitEight(Tripled(p));
    XorModulus(Tripled(p));
  }

  // ---------------------------------------------------------------- Powers of the generator

  /** The i-th power of the generator 3. */
  function Power(i: nat): Poly {
    if i == 0 then ONE else FieldMul(Power(i - 1), THREE)
  }

  lemma {:induction false} PowerFits(i: nat)
    ensures Fits(Power(i), 8)
  {
    if i > 0 { RemFits(Product(Power(i - 1), THREE)); }
  }

  /** Exponents add. */
  lemma {:induction false} PowersAdd(i: nat, j: nat)
    ensures FieldMul(Power(i), Power(j)) == Power(i + j)
  {
    if j == 0 {
      PowerFits(i);
      ProductOne(Power(i));
      RemOfSmall(Power(i));
    } else {
      PowersAdd(i, j - 1);
      FieldMulAssociates(Power(i), Power(j - 1), THREE);
    }
  }

  // ---------------------------------------------------------------- The order of the generator

  /** The loop's step on a machine byte, to follow the generator through its concrete values. */
  function Triple(x: bv8): bv8 {
    (x << 1) ^ x ^ (if x & 0x80 == 0 then 0 else 0x1b)
  }

  function BytePower(i: nat): bv8 {
    if i == 0 then 1 else Triple(BytePower(i - 1))
  }

  /** The byte's coefficients from the constant term up. */
  function Octet(b0: bool, b1: bool, b2: bool, b3: bool, b4: bool, b5: bool, b6: bool, b7: bool): Poly {
    Cons(b0, Cons(b1, Cons(b2, Cons(b3, Cons(b4, Cons(b5, Cons(b6, Cons(b7, Zero))))))))
  }

  function BytePoly(x: bv8): Poly {
    Octet(x & 1 != 0, x & 2 != 0, x & 4 != 0, x & 8 != 0, x & 16 != 0, x & 32 != 0, x & 64 != 0, x & 128 != 0)
  }

  lemma TripledOctet(b0: bool, b1: bool, b2: bool, b3: bool, b4: bool, b5: bool, b6: bool, b7: bool)
    ensures Tripled(Octet(b0, b1, b2, b3, b4, b5, b6, b7)) ==
      Cons(b0, Cons(b0 != b1, Cons(b1 != b2,
        Cons(b2 != b3, Cons(b3 != b4, Cons(b4 != b5, Cons(b5 != b6, Cons(b6 != b7, Cons(b7, Zero)))))))))
  {
    var p7 := Cons(b7, Zero);
    var p6 := Cons(b6, p7);
    var p5 := Cons(b5, p6);
    var p4 := Cons(b4, p5);
    var p3 := Cons(b3, p4);
    var p2 := Cons(b2, p3);
    var p1 := Cons(b1, p2);
    AddCons(b7, Zero, false, Zero);
    AddCons(b6, p7, b7, Zero);
    AddCons(b5, p6, b6, p7);
    AddCons(b4, p5, b5, p6);
    AddCons(b3, p4, b4, p5);
    AddCons(b2, p3, b3, p4);
    AddCons(b1, p2, b2, p3);
    AddCons(b0, p1, b1, p2);
    AddCons(false, Cons(b0, p1), b0, p1);
  }

  lemma ClippedOctet(c0: bool, c1: bool, c2: bool, c3: bool, c4: bool, c5: bool, c6: bool, c7: bool, c8: bool)
    ensures
      var p := Cons(c0, Cons(c1, Cons(c2, Cons(c3, Cons(c4, Cons(c5, Cons(c6, Cons(c7, Cons(c8, Zero)))))))));
      Clip(p) == Octet(c0 != c8, c1 != c8, c2, c3 != c8, c4 != c8, c5, c6, c7)
  {
    var p8 := Cons(c8, Zero);
    var p7 := Cons(c7, p8);
    var p6 := Cons(c6, p7);
    var p5 := Cons(c5, p6);
    var p4 := Cons(c4, p5);
    var p3 := Cons(c3, p4);
    var p2 := Cons(c2, p3);
    var p1 := Cons(c1, p2);
    var p := Cons(c0, p1);
    CoefCons(c0, p1, 8);
    CoefCons(c1, p2, 7);
    CoefCons(c2, p3, 6);
    CoefCons(c3, p4, 5);
    CoefCons(c4, p5, 4);
    CoefCons(c5, p6, 3);
    CoefCons(c6, p7, 2);
    CoefCons(c7, p8, 1);
    CoefCons(c8, Zero, 0);
    if c8 {
      var m8: Poly := Bit(true, Zero);
      var m7: Poly := Bit(false, m8);
      var m6: Poly := Bit(false, m7);
      var m5: Poly := Bit(false, m6);
      var m4: Poly := Bit(true, m5);
      var m3: Poly := Bit(true, m4);
      var m2: Poly := Bit(false, m3);
      var m1: Poly := Bit(true, m2);
      AddCons(c8, Zero, true, Zero);
      AddCons(c7, p8, false, m8);
      AddCons(c6, p7, false, m7);
      AddCons(c5, p6, false, m6);
      AddCons(c4, p5, true, m5);
      AddCons(c3, p4, true, m4);
      AddCons(c2, p3, false, m3);
      AddCons(c1, p2, true, m2);
      AddCons(c0, p1, true, m1);
      assert MODULUS == Cons(true, m1);
    }
  }

  lemma TripleBits(x: bv8)
    ensures
      var y, top := Triple(x), x & 128 != 0;
      && (y & 1 != 0) == ((x & 1 != 0) != top)
      && (y & 2 != 0) == (((x & 1 != 0) != (x & 2 != 0)) != top)
      && (y & 4 != 0) == ((x & 2 != 0) != (x & 4 != 0))
      && (y & 8 != 0) == (((x & 4 != 0) != (x & 8 != 0)) != top)
      && (y & 16 != 0) == (((x & 8 != 0) != (x & 16 != 0)) != top)
      && (y & 32 != 0) == ((x & 16 != 0) != (x & 32 != 0))
      && (y & 64 != 0) == ((x & 32 != 0) != (x & 64 != 0))
      && (y & 128 != 0) == ((x & 64 != 0) != (x & 128 != 0))
  {}

  lemma {:induction false} OctetFits(x: bv8)
    ensures Fits(BytePoly(x), 8)
  {
    var p7 := Cons(x & 128 != 0, Zero);
    var p6 := Cons(x & 64 != 0, p7);
    var p5 := Cons(x & 32 != 0, p6);
    var p4 := Cons(x & 16 != 0, p5);
    assert Fits(p7, 1) && Fits(p6, 2) && Fits(p5, 3) && Fits(p4, 4);
    var p3 := Cons(x & 8 != 0, p4);
    var p2 := Cons(x & 4 != 0, p3);
    var p1 := Cons(x & 2 != 0, p2);
    assert Fits(p3, 5) && Fits(p2, 6) && Fits(p1, 7);
  }

  lemma TripleByte(x: bv8)
    ensures
      var top := x & 128 != 0;
      BytePoly(Triple(x)) ==
        Octet((x & 1 != 0) != top, ((x & 1 != 0) != (x & 2 != 0)) != top, (x & 2 != 0) != (x & 4 != 0),
        ((x & 4 != 0) != (x & 8 != 0)) != top, ((x & 8 != 0) != (x & 16 != 0)) != top, (x & 16 != 0) != (x & 32 != 0),
        (x & 32 != 0) != (x & 64 != 0), (x & 64 != 0) != (x & 128 != 0))
  {
    TripleBits(x);
  }

  lemma TripleMultiplies(x: bv8)
    ensures BytePoly(Triple(x)) == FieldMul(BytePoly(x), THREE)
  {
    OctetFits(x);
    TripledIsProduct(BytePoly(x));
    TripleOctet(x & 1 != 0, x & 2 != 0, x & 4 != 0, x & 8 != 0, x & 16 != 0, x & 32 != 0, x & 64 != 0, x & 128 != 0);
    TripleByte(x);
  }

  lemma TripleOctet(b0: bool, b1: bool, b2: bool, b3: bool, b4: bool, b5: bool, b6: bool, b7: bool)
    ensures Clip(Tripled(Octet(b0, b1, b2, b3, b4, b5, b6, b7))) ==
      Octet(b0 != b7, (b0 != b1) != b7, b1 != b2, (b2 != b3) != b7, (b3 != b4) != b7, b4 != b5, b5 != b6, b6 != b7)
  {
    TripledOctet(b0, b1, b2, b3, b4, b5, b6, b7);
    ClippedOctet(b0, b0 != b1, b1 != b2, b2 != b3, b3 != b4, b4 != b5, b5 != b6, b6 != b7, b7);
  }

  lemma {:induction false} BytePowerIsPower(i: nat)
    ensures BytePoly(BytePower(i)) == Power(i)
  {
    if i > 0 {
      BytePowerIsPower(i - 1);
      TripleMultiplies(BytePower(i - 1));
    }
  }

  lemma OnlyOneIsOne(x: bv8)
    requires BytePoly(x) == ONE
    ensures x == 1
  {
    var p7 := Cons(x & 128 != 0, Zero);
    var p6 := Cons(x & 64 != 0, p7);
    var p5 := Cons(x & 32 != 0, p6);
    var p4 := Cons(x & 16 != 0, p5);
    var p3 := Cons(x & 8 != 0, p4);
    var p2 := Cons(x & 4 != 0, p3);
    var p1 := Cons(x & 2 != 0, p2);
    assert p1 == Zero && x & 1 != 0;
    assert p2 == Zero && p3 == Zero && p4 == Zero && p5 == Zero && p6 == Zero && p7 == Zero;
    BitsDecide(x);
  }

  lemma BitsDecide(x: bv8)
    requires x & 1 != 0 && x & 2 == 0 && x & 4 == 0 && x & 8 == 0
    requires x & 16 == 0 && x & 32 == 0 && x & 64 == 0 && x & 128 == 0
    ensures x == 1
  {}

  /** Four steps from `x` lead to `y`; none of the four values left behind is 1. */
  predicate Leads(x: bv8, y: bv8) {
    var x1 := Triple(x);
    var x2 := Triple(x1);
    var x3 := Triple(x2);
    x != 1 && x1 != 1 && x2 != 1 && x3 != 1 && Triple(x3) == y
  }

  /** The loop does not return to 1 at steps i, ..., j - 1. */
  ghost predicate NoReturn(i: nat, j: nat) {
    forall k: nat :: i <= k < j ==> BytePower(k) != 1
  }

  lemma FourSteps(i: nat, x: bv8, y: bv8)
    requires BytePower(i) == x && Leads(x, y)
    ensures BytePower(i + 4) == y && NoReturn(i, i + 4)
  {
    assert BytePower(i + 1) == Triple(x);
    assert BytePower(i + 2) == Triple(Triple(x));
    assert BytePower(i + 3) == Triple(Triple(Triple(x)));
    assert BytePower(i + 4) == Triple(BytePower(i + 3));
    forall k: nat | i <= k < i + 4 ensures BytePower(k) != 1 {
      assert k == i || k == i + 1 || k == i + 2 || k == i + 3;
    }
  }

  lemma Orbit1()
    ensures BytePower(33) == 52 && NoReturn(1, 33)
  {
    assert BytePower(0) == 1 && BytePower(1) == 3;
    FourSteps(1, 3, 51);
    FourSteps(5, 51, 46);
    FourSteps(9, 46, 248);
    FourSteps(13, 248, 225);
    FourSteps(17, 225, 115);
    FourSteps(21, 115, 2);
    FourSteps(25, 2, 34);
    FourSteps(29, 34, 52);
  }

  lemma Orbit33()
    requires BytePower(33) == 52
    ensures BytePower(65) == 212 && NoReturn(33, 65)
  {
    FourSteps(33, 52, 89);
    FourSteps(37, 89, 190);
    FourSteps(41, 190, 171);
    FourSteps(45, 171, 245);
    FourSteps(49, 245, 60);
    FourSteps(53, 60, 209);
    FourSteps(57, 209, 110);
    FourSteps(61, 110, 212);
  }

  lemma Orbit65()
    requires BytePower(65) == 212
    ensures BytePower(97) == 196 && NoReturn(65, 97)
  {
    FourSteps(65, 212, 59);
    FourSteps(69, 59, 166);
    FourSteps(73, 166, 40);
    FourSteps(77, 40, 158);
    FourSteps(81, 158, 189);
    FourSteps(85, 189, 152);
    FourSteps(89, 152, 219);
    FourSteps(93, 219, 196);
  }

  lemma Orbit97()
    requires BytePower(97) == 196
    ensures BytePower(129) == 22 && NoReturn(97, 129)
  {
    FourSteps(97, 196, 48);
    FourSteps(101, 48, 29);
    FourSteps(105, 29, 214);
    FourSteps(109, 214, 25);
    FourSteps(113, 25, 146);
    FourSteps(117, 146, 113);
    FourSteps(121, 113, 32);
    FourSteps(125, 32, 22);
  }

  lemma Orbit129()
    requires BytePower(129) == 22
    ensures BytePower(161) == 186 && NoReturn(129, 161)
  {
    FourSteps(129, 22, 109);
    FourSteps(133, 109, 231);
    FourSteps(137, 231, 21);
    FourSteps(141, 21, 94);
    FourSteps(145, 94, 201);
    FourSteps(149, 201, 237);
    FourSteps(153, 237, 191);
    FourSteps(157, 191, 186);
  }

  lemma Orbit161()
    requires BytePower(161) == 186
    ensures BytePower(193) == 31 && NoReturn(161, 193)
  {
    FourSteps(161, 186, 239);
    FourSteps(165, 239, 157);
    FourSteps(169, 157, 142);
    FourSteps(173, 142, 182);
    FourSteps(177, 182, 35);
    FourSteps(181, 35, 37);
    FourSteps(185, 37, 67);
    FourSteps(189, 67, 31);
  }

  lemma Orbit193()
    requires BytePower(193) == 31
    ensures BytePower(225) == 54 && NoReturn(193, 225)
  {
    FourSteps(193, 31, 244);
    FourSteps(197, 244, 45);
    FourSteps(201, 45, 203);
    FourSteps(205, 203, 207);
    FourSteps(209, 207, 139);
    FourSteps(213, 139, 227);
    FourSteps(217, 227, 81);
    FourSteps(221, 81, 54);
  }

  lemma Orbit225()
    requires BytePower(225) == 54
    ensures BytePower(253) == 82 && NoReturn(225, 253)
  {
    FourSteps(225, 54, 123);
    FourSteps(229, 123, 138);
    FourSteps(233, 138, 242);
    FourSteps(237, 242, 75);
    FourSteps(241, 75, 151);
    FourSteps(245, 151, 36);
    FourSteps(249, 36, 82);
  }

  lemma NoEarlyReturn()
    ensures BytePower(255) == 1 && NoReturn(1, 255)
  {
    Orbit1();
    Orbit33();
    Orbit65();
    Orbit97();
    Orbit129();
    Orbit161();
    Orbit193();
    Orbit225();
    LastSteps();
    forall k: nat | 1 <= k < 255 ensures BytePower(k) != 1 {
      assert || k < 33 || 33 <= k < 65 || 65 <= k < 97 || 97 <= k < 129
             || 129 <= k < 161 || 161 <= k < 193 || 193 <= k < 225 || 225 <= k;
    }
  }

  lemma LastSteps()
    requires BytePower(253) == 82
    ensures BytePower(254) == 246 && BytePower(255) == 1
  {
    assert BytePower(254) == Triple(BytePower(253));
    assert BytePower(255) == Triple(BytePower(254));
  }

  lemma PowerIsOne(i: nat)
    ensures Power(i) == ONE <==> BytePower(i) == 1
  {
    BytePowerIsPower(i);
    if Power(i) == ONE { OnlyOneIsOne(BytePower(i)); }
  }

  /** The generator has order 255: its powers return to 1 at step 255 and not before. */
  lemma GeneratorOrder(i: nat)
    ensures Power(255) == ONE
    ensures 0 < i < 255 ==> Power(i) != ONE
  {
    NoEarlyReturn();
    PowerIsOne(255);
    PowerIsOne(i);
  }

  // ---------------------------------------------------------------- Every nonzero byte is a power

  /** The i-th power as a byte. */
  function Gen(i: nat): (x: Byte)
  {
    PowerFits(i);
    FitsIsBound(Power(i), 8);
    ByteBounds();
    Poly2Nat(Power(i))
  }

  lemma GenSteps(i: nat)
    ensures Gen(0) == 1 && Gen(i + 1) == Times3(Gen(i))
  {
    PowerFits(i);
    Times3Multiplies(Power(i));
    assert Poly2Nat(Zero) == 0;
  }

  lemma GensMultiply(i: nat, j: nat)
    ensures PolyMul(Gen(i), Gen(j)) == Gen(i + j)
  {
    PolyRoundTrip(Power(i));
    PolyRoundTrip(Power(j));
    PowersAdd(i, j);
  }

  lemma GenIsOne(i: nat)
    ensures Gen(i) == 1 <==> Power(i) == ONE
  {
    PolyRoundTrip(Power(i));
    PolyRoundTrip(ONE);
    assert Poly2Nat(ONE) == 1 by { assert Poly2Nat(Zero) == 0; }
  }

  lemma GenRepeats(i: nat)
    ensures Gen(i + 255) == Gen(i)
  {
    GeneratorOrder(0);
    GenIsOne(255);
    GensMultiply(i, 255);
    PolyMulUnits(Gen(i));
  }

  lemma {:induction false} GenIsNonZero(i: nat)
    ensures Gen(i) != 0
  {
    if i >= 255 {
      GenIsNonZero(i - 255);
      GenRepeats(i - 255);
    } else {
      // zero times Gen(255 - i) would not be Gen(255)
      GensMultiply(i, 255 - i);
      GeneratorOrder(0);
      GenIsOne(255);
      PolyMulUnits(Gen(255 - i));
    }
  }

  /** The first 255 powers are pairwise different. */
  lemma GenIsInjective(i: nat, j: nat)
    requires i < j < 255
    ensures Gen(i) != Gen(j)
  {
    assert j + (255 - i) == (j - i) + 255;
    if Gen(i) == Gen(j) {
      GensMultiply(i, 255 - i);
      GensMultiply(j, 255 - i);
      GenRepeats(j - i);
      GeneratorOrder(j - i);
      GenIsOne(255);
      GenIsOne(j - i);
    }
  }

  ghost function Elements(o: seq<nat>): set<nat> {
    set i | 0 <= i < |o| :: o[i]
  }

  lemma {:induction false} DistinctCount(o: seq<nat>)
    requires forall i, j :: 0 <= i < j < |o| ==> o[i] != o[j]
    ensures |Elements(o)| == |o|
  {
    if o != [] {
      var rest, last := o[..|o| - 1], o[|o| - 1];
      DistinctCount(rest);
      assert Elements(o) == Elements(rest) + {last} by {
        forall x | x in Elements(o) ensures x in Elements(rest) + {last} {
          var i :| 0 <= i < |o| && o[i] == x;
          if i < |o| - 1 { assert rest[i] == x; }
        }
        forall x | x in Elements(rest) ensures x in Elements(o) {
          var i :| 0 <= i < |rest| && rest[i] == x;
          assert o[i] == x;
        }
        assert o[|o| - 1] == last;
      }
      assert last !in Elements(rest);
    }
  }

  ghost function NonZeroBytes(n: nat): set<nat> {
    if n == 0 then {} else NonZeroBytes(n - 1) + {n}
  }

  lemma {:induction false} NonZeroBytesAre(n: nat)
    ensures |NonZeroBytes(n)| == n && forall x :: x in NonZeroBytes(n) <==> 1 <= x <= n
  {
    if n > 0 { NonZeroBytesAre(n - 1); }
  }

  lemma SubsetOfSameSize(s: set<nat>, t: set<nat>)
    requires s <= t && |s| == |t|
    ensures s == t
  {
    assert t == s + (t - s);
    assert |t| == |s| + |t - s|;
    assert t - s == {};
  }

  /** 255 different nonzero bytes are all of them. */
  lemma DistinctBytesCover(o: seq<nat>)
    requires |o| == 255 && forall i, j :: 0 <= i < j < |o| ==> o[i] != o[j]
    requires forall i :: 0 <= i < |o| ==> 1 <= o[i] < 256
    ensures forall x :: 1 <= x < 256 ==> x in o
  {
    DistinctCount(o);
    NonZeroBytesAre(255);
    SubsetOfSameSize(Elements(o), NonZeroBytes(255));
    forall x | 1 <= x < 256 ensures x in o {
      assert x in Elements(o);
    }
  }

  /** The values the table loop runs through: from 1 by the loop's step, pairwise different, covering every
  nonzero byte, and back to 1 after 255 steps. */
  lemma GeneratorOrbit() returns (o: seq<nat>)
    ensures |o| == 255 && o[0] == 1 && Times3(o[254]) == 1
    ensures forall i :: 0 <= i < 254 ==> o[i + 1] == Times3(o[i])
    ensures forall i, j :: 0 <= i < j < 255 ==> o[i] != o[j]
    ensures forall i :: 0 <= i < 255 ==> 1 <= o[i] < 256
    ensures forall x :: 1 <= x < 256 ==> x in o
    ensures forall i: nat {:trigger Gen(i)} :: i < 255 ==> o[i] == Gen(i)
  {
    o := seq(255, i requires 0 <= i < 255 => Gen(i));
    assert forall i :: 0 <= i < 255 ==> o[i] == Gen(i);
    OrbitSteps(o);
    forall i | 0 <= i < 255 ensures 1 <= o[i] < 256 { GenIsNonZero(i); }
    forall i, j | 0 <= i < j < 255 ensures o[i] != o[j] { GenIsInjective(i, j); }
    DistinctBytesCover(o);
  }

  lemma OrbitSteps(o: seq<nat>)
    requires |o| == 255 && forall i :: 0 <= i < 255 ==> o[i] == Gen(i)
    ensures o[0] == 1 && Times3(o[254]) == 1 && forall i :: 0 <= i < 254 ==> o[i + 1] == Times3(o[i])
  {
    forall i | 0 <= i < 255 ensures Times3(o[i]) == Gen(i + 1) { GenSteps(i); }
    GenSteps(0);
    GeneratorOrder(0);
    GenIsOne(255);
  }

  // ---------------------------------------------------------------- The tables

  datatype Tables = Tables(exp: seq<Byte>, log: seq<nat>)

  /** EXP holds the powers of the generator, repeated so that sums of two logarithms need no reduction; LOG
  inverts them on 1..255. */
  ghost predicate IsTables(t: Tables) {
    && |t.exp| == 512 && |t.log| == 256
    && (forall i: nat {:trigger Gen(i)} :: i < 255 ==> t.exp[i] == Gen(i))
    && (forall i: nat :: 255 <= i < 512 ==> t.exp[i] == t.exp[i - 255])
    && (forall x: nat :: 1 <= x < 256 ==> t.log[x] < 255 && t.exp[t.log[x]] == x)
    && (forall i: nat :: i < 255 ==> 1 <= t.exp[i] && t.log[t.exp[i]] == i)
  }

  /** The table-building loops, on the arrays they fill. */
  method BuildTables() returns (t: Tables)
    ensures IsTables(t)
  {
    ghost var o := GeneratorOrbit();
    var exp := new nat[512](_ => 0);
    var log := new nat[256](_ => 0);
    var x: nat := 1;
    for i := 0 to 255
      invariant x == if i < 255 then o[i] else 1
      invariant forall k: nat :: k < i ==> exp[k] == o[k] && log[o[k]] == k
    {
      exp[i] := x;
      log[x] := i;
      x := NextPower(x);
    }
    for i := 255 to 512
      invariant forall k: nat :: k < 255 ==> exp[k] == o[k] && log[o[k]] == k
      invariant forall k: nat :: 255 <= k < i ==> exp[k] == exp[k - 255] && exp[k] < 256
    {
      exp[i] := exp[i - 255];
    }
    t := Tables(exp[..], log[..]);
    LogsInvert(o, t.exp, t.log);
  }

  lemma LogsInvert(o: seq<nat>, exp: seq<nat>, log: seq<nat>)
    requires |o| == 255 && |exp| == 512 && |log| == 256
    requires forall i :: 0 <= i < 255 ==> 1 <= o[i] < 256
    requires forall x :: 1 <= x < 256 ==> x in o
    requires forall k :: 0 <= k < 255 ==> exp[k] == o[k] && log[o[k]] == k
    ensures forall x: nat :: 1 <= x < 256 ==> log[x] < 255 && exp[log[x]] == x
  {
    forall x: nat | 1 <= x < 256 ensures log[x] < 255 && exp[log[x]] == x {
      assert x in o;
      var k :| 0 <= k < |o| && o[k] == x;
    }
  }

  /** The loop's update of `x`. */
  method NextPower(x: nat) returns (y: nat)
    ensures y == Times3(x)
  {
    y := Xor(2 * x, x);
    if y / 256 % 2 == 1 { y := Xor(y, 0x11b); }
  }

  lemma TableHoldsPowers(t: Tables, i: nat)
    requires IsTables(t) && i < 512
    ensures t.exp[i] == Gen(i)
  {
    if i >= 510 {
      GenRepeats(i - 255);
      GenRepeats(i - 510);
      assert t.exp[i] == t.exp[i - 255] == t.exp[i - 510];
    } else if i >= 255 {
      GenRepeats(i - 255);
    }
  }

  function Mul(t: Tables, a: Byte, b: Byte): Byte
    requires IsTables(t)
  {
    if a == 0 || b == 0 then 0 else t.exp[t.log[a] + t.log[b]]
  }

  /** Division by zero throws. */
  function Div(t: Tables, a: Byte, b: Byte): Option<Byte>
    requires IsTables(t)
  {
    if b == 0 then None
    else if a == 0 then Some(0)
    else Some(t.exp[t.log[a] + 255 - t.log[b]])
  }

  /** Table multiplication is the field's: polynomial multiplication modulo x^8 + x^4 + x^3 + x + 1. */
  lemma TableMulIsFieldMul(t: Tables, a: Byte, b: Byte)
    requires IsTables(t)
    ensures Mul(t, a, b) == PolyMul(a, b)
  {
    if a == 0 || b == 0 {
      PolyMulUnits(a);
      PolyMulUnits(b);
    } else {
      GensMultiply(t.log[a], t.log[b]);
      TableHoldsPowers(t, t.log[a]);
      TableHoldsPowers(t, t.log[b]);
      TableHoldsPowers(t, t.log[a] + t.log[b]);
    }
  }

  lemma LogHolds(t: Tables, x: Byte)
    requires IsTables(t) && x != 0
    ensures t.log[x] < 255 && Gen(t.log[x]) == x
  {
    TableHoldsPowers(t, t.log[x]);
  }

  lemma QuotientTimesDivisor(t: Tables, a: Byte, b: Byte)
    requires IsTables(t) && a != 0 && b != 0
    ensures Mul(t, Div(t, a, b).value, b) == a
  {
    var i, j := t.log[a], t.log[b];
    LogHolds(t, a);
    LogHolds(t, b);
    TableHoldsPowers(t, i + 255 - j);
    TableMulIsFieldMul(t, Div(t, a, b).value, b);
    GensMultiply(i + 255 - j, j);
    GenRepeats(i);
  }

  lemma MulIsNonZero(t: Tables, a: Byte, b: Byte)
    requires IsTables(t) && a != 0 && b != 0
    ensures Mul(t, a, b) != 0
  {
    TableHoldsPowers(t, t.log[a] + t.log[b]);
    GenIsNonZero(t.log[a] + t.log[b]);
  }

  lemma CancelExponent(t: Tables, a: Byte, c: Byte)
    requires IsTables(t) && a != 0 && c != 0
    ensures PolyMul(Mul(t, a, c), Gen(255 - t.log[c])) == a
  {
    var i, j := t.log[a], t.log[c];
    LogHolds(t, a);
    TableHoldsPowers(t, i + j);
    GensMultiply(i + j, 255 - j);
    GenRepeats(i);
  }

  lemma CancelFactor(t: Tables, a: Byte, b: Byte, c: Byte)
    requires IsTables(t) && c != 0 && Mul(t, a, c) == Mul(t, b, c)
    ensures a == b
  {
    if a != 0 { MulIsNonZero(t, a, c); }
    if b != 0 { MulIsNonZero(t, b, c); }
    if a != 0 && b != 0 {
      CancelExponent(t, a, c);
      CancelExponent(t, b, c);
    }
  }

  /** Table division inverts it, on both sides. */
  lemma DivInvertsMul(t: Tables, a: Byte, b: Byte)
    requires IsTables(t) && b != 0
    ensures Div(t, a, b).Some? && Mul(t, Div(t, a, b).value, b) == a
    ensures Div(t, Mul(t, a, b), b) == Some(a)
  {
    if a != 0 {
      QuotientTimesDivisor(t, a, b);
      MulIsNonZero(t, a, b);
      QuotientTimesDivisor(t, Mul(t, a, b), b);
      CancelFactor(t, Div(t, Mul(t, a, b), b).value, a, b);
    }
  }

  /** The field laws of the table operations. */
  lemma FieldLaws(t: Tables, a: Byte, b: Byte, c: Byte)
    requires IsTables(t)
    ensures Mul(t, a, b) == Mul(t, b, a)
    ensures Mul(t, Mul(t, a, b), c) == Mul(t, a, Mul(t, b, c))
    ensures Xor(b, c) < 256 && Mul(t, a, Xor(b, c)) == Xor(Mul(t, a, b), Mul(t, a, c))
    ensures Mul(t, a, 1) == a
  {
    ByteBounds();
    XorFits(b, c, 8);
    TableMulIsFieldMul(t, a, b);
    TableMulIsFieldMul(t, b, a);
    TableMulIsFieldMul(t, b, c);
    TableMulIsFieldMul(t, a, c);
    TableMulIsFieldMul(t, Mul(t, a, b), c);
    TableMulIsFieldMul(t, a, Mul(t, b, c));
    TableMulIsFieldMul(t, a, Xor(b, c));
    TableMulIsFieldMul(t, a, 1);
    PolyMulCommutes(a, b);
    PolyMulAssociates(a, b, c);
    PolyMulDistributes(a, b, c);
    PolyMulUnits(a);
  }
}
