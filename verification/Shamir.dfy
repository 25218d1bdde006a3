/** Shamir secret sharing over GF(256), threshold 2. */
module Shamir {
  import opened Prelude
  import opened Polynomials
  import opened Gf256

  datatype Share = Share(x: Byte, data: seq<Byte>)

  lemma XorIsByte(a: Byte, b: Byte)
    ensures Xor(a, b) < 256
  {
    ByteBounds();
    XorFits(a, b, 8);
  }

  function XorBytes(a: Byte, b: Byte): Byte {
    XorIsByte(a, b);
    Xor(a, b)
  }

  /** The share of one secret byte at x: s + r * x. */
  function ShareByte(t: Tables, s: Byte, r: Byte, x: Byte): Byte
    requires IsTables(t)
  {
    XorBytes(s, Mul(t, r, x))
  }

  function ShareAt(t: Tables, secret: seq<Byte>, r: seq<Byte>, x: Byte): Share
    requires IsTables(t) && |r| == |secret|
  {
    Share(x, seq(|secret|, i requires 0 <= i < |secret| => ShareByte(t, secret[i], r[i], x)))
  }

  /** Split `secret` into n shares at x = 1..n; `r` is the fresh randomness. */
  method ShamirSplit(t: Tables, secret: seq<Byte>, n: int, r: seq<Byte>) returns (res: Result<seq<Share>>)
    requires IsTables(t) && |r| == |secret|
    ensures res.Ok? <==> 2 <= n <= 255
    ensures res.Ok? ==> |res.value| == n && forall k :: 0 <= k < n ==> res.value[k] == ShareAt(t, secret, r, k + 1)
  {
    if n < 2 || n > 255 { return Error("shamirSplit: n must be 2..255"); }
    var shares: seq<Share> := [];
    for x := 1 to n + 1
      invariant |shares| == x - 1
      invariant forall k :: 0 <= k < x - 1 ==> shares[k] == ShareAt(t, secret, r, k + 1)
    {
      var data := new Byte[|secret|](_ => 0);
      for i := 0 to |secret|
        invariant forall j :: 0 <= j < i ==> data[j] == ShareByte(t, secret[j], r[j], x)
      {
        data[i] := XorBytes(secret[i], Mul(t, r[i], x));
      }
      assert data[..] == ShareAt(t, secret, r, x).data;
      shares := shares + [Share(x, data[..])];
    }
    return Ok(shares);
  }

  /** One reconstructed byte, with the Lagrange coefficients at 0. */
  function CombineByte(t: Tables, ya: Byte, yb: Byte, ca: Byte, cb: Byte): Byte
    requires IsTables(t)
  {
    XorBytes(Mul(t, ya, ca), Mul(t, yb, cb))
  }

  /** Reconstruct from two shares of one split. */
  method ShamirCombine(t: Tables, a: Share, b: Share) returns (res: Result<seq<Byte>>)
    requires IsTables(t)
    ensures res.Ok? <==> a.x != b.x && |a.data| == |b.data|
    ensures res.Ok? ==> res.value == Combined(t, a, b)
  {
    if a.x == b.x { return Error("shamirCombine: shares must have distinct x"); }
    if |a.data| != |b.data| { return Error("shamirCombine: length mismatch"); }
    var denom := XorBytes(a.x, b.x);
    DistinctDiffer(a.x, b.x);
    var ca, cb := Div(t, b.x, denom).value, Div(t, a.x, denom).value;
    var bytes := CombineBytes(t, a.data, b.data, ca, cb);
    return Ok(bytes);
  }

  /** The reconstruction loop, with the coefficients hoisted out of it. */
  method CombineBytes(t: Tables, ya: seq<Byte>, yb: seq<Byte>, ca: Byte, cb: Byte) returns (bytes: seq<Byte>)
    requires IsTables(t) && |ya| == |yb|
    ensures |bytes| == |ya| && forall i :: 0 <= i < |ya| ==> bytes[i] == CombineByte(t, ya[i], yb[i], ca, cb)
  {
    var out := new Byte[|ya|](_ => 0);
    for i := 0 to out.Length
      invariant forall j :: 0 <= j < i ==> out[j] == CombineByte(t, ya[j], yb[j], ca, cb)
    {
      var y := CombineByte(t, ya[i], yb[i], ca, cb);
      out[i] := y;
    }
    bytes := out[..];
  }

  lemma DistinctDiffer(a: Byte, b: Byte)
    ensures Xor(a, b) == 0 <==> a == b
  {
    XorUnits(a);
    XorCancels(a, b);
  }

  ghost function Combined(t: Tables, a: Share, b: Share): seq<Byte>
    requires IsTables(t) && a.x != b.x && |a.data| == |b.data|
  {
    DistinctDiffer(a.x, b.x);
    var denom := XorBytes(a.x, b.x);
    var ca, cb := Div(t, b.x, denom).value, Div(t, a.x, denom).value;
    seq(|a.data|, i requires 0 <= i < |a.data| => CombineByte(t, a.data[i], b.data[i], ca, cb))
  }

  // ---------------------------------------------------------------- Reconstruction

  lemma MulAdds(t: Tables, a: Byte, b: Byte, c: Byte)
    requires IsTables(t)
    ensures Mul(t, XorBytes(a, b), c) == XorBytes(Mul(t, a, c), Mul(t, b, c))
    ensures Mul(t, c, XorBytes(a, b)) == XorBytes(Mul(t, c, a), Mul(t, c, b))
  {
    FieldLaws(t, c, a, b);
    FieldLaws(t, c, XorBytes(a, b), 0);
    FieldLaws(t, c, a, 0);
    FieldLaws(t, c, b, 0);
  }

  /** The coefficients add up to 1 ... */
  lemma CoefficientsSumToOne(t: Tables, x1: Byte, x2: Byte)
    requires IsTables(t) && x1 != x2
    ensures
      var d := XorBytes(x1, x2);
      d != 0 && XorBytes(Div(t, x2, d).value, Div(t, x1, d).value) == 1
  {
    var d := XorBytes(x1, x2);
    DistinctDiffer(x1, x2);
    var ca, cb := Div(t, x2, d).value, Div(t, x1, d).value;
    DivInvertsMul(t, x2, d);
    DivInvertsMul(t, x1, d);
    MulAdds(t, ca, cb, d);
    XorCommutes(x1, x2);
    // (ca + cb) * d == d == 1 * d
    FieldLaws(t, d, 1, 0);
    CancelFactor(t, XorBytes(ca, cb), 1, d);
  }

  /** ... and their mixed products with the coordinates cancel. */
  lemma CoefficientsCancel(t: Tables, x1: Byte, x2: Byte)
    requires IsTables(t) && x1 != x2
    ensures
      var d := XorBytes(x1, x2);
      d != 0 && Mul(t, x1, Div(t, x2, d).value) == Mul(t, x2, Div(t, x1, d).value)
  {
    var d := XorBytes(x1, x2);
    DistinctDiffer(x1, x2);
    var ca, cb := Div(t, x2, d).value, Div(t, x1, d).value;
    DivInvertsMul(t, x2, d);
    DivInvertsMul(t, x1, d);
    FieldLaws(t, x1, ca, d);
    FieldLaws(t, x2, cb, d);
    FieldLaws(t, x1, x2, d);
    CancelFactor(t, Mul(t, x1, ca), Mul(t, x2, cb), d);
  }

  lemma ExpandShare(t: Tables, s: Byte, r: Byte, x: Byte, c: Byte)
    requires IsTables(t)
    ensures Mul(t, ShareByte(t, s, r, x), c) == XorBytes(Mul(t, s, c), Mul(t, r, Mul(t, x, c)))
  {
    MulAdds(t, s, Mul(t, r, x), c);
    FieldLaws(t, r, x, c);
  }

  lemma ByteReconstructs(t: Tables, s: Byte, r: Byte, x1: Byte, x2: Byte)
    requires IsTables(t) && x1 != x2
    ensures
      var d := XorBytes(x1, x2);
      d != 0
        && CombineByte(t, ShareByte(t, s, r, x1), ShareByte(t, s, r, x2), Div(t, x2, d).value, Div(t, x1, d).value) == s
  {
    var d := XorBytes(x1, x2);
    DistinctDiffer(x1, x2);
    var ca, cb := Div(t, x2, d).value, Div(t, x1, d).value;
    CoefficientsSumToOne(t, x1, x2);
    CoefficientsCancel(t, x1, x2);
    ExpandShare(t, s, r, x1, ca);
    ExpandShare(t, s, r, x2, cb);
    var m := Mul(t, r, Mul(t, x1, ca));
    XorSwap(Mul(t, s, ca), m, Mul(t, s, cb), m);
    XorUnits(m);
    MulAdds(t, ca, cb, s);
    FieldLaws(t, s, 1, 0);
    XorUnits(XorBytes(Mul(t, s, ca), Mul(t, s, cb)));
  }

  /** Any two distinct shares of one split, in either order, reconstruct the secret. */
  lemma TwoSharesReconstruct(t: Tables, secret: seq<Byte>, r: seq<Byte>, x1: Byte, x2: Byte)
    requires IsTables(t) && |r| == |secret| && x1 != x2
    ensures Combined(t, ShareAt(t, secret, r, x1), ShareAt(t, secret, r, x2)) == secret
  {
    var out := Combined(t, ShareAt(t, secret, r, x1), ShareAt(t, secret, r, x2));
    forall i | 0 <= i < |secret| ensures out[i] == secret[i] {
      ByteReconstructs(t, secret[i], r[i], x1, x2);
    }
  }

  /** Split, then combine any two of the shares. */
  method SplitThenCombine(t: Tables, secret: seq<Byte>, n: int, r: seq<Byte>, i: nat, j: nat)
    returns (res: Result<seq<Byte>>)
    requires IsTables(t) && |r| == |secret| && 2 <= n <= 255 && i < n && j < n && i != j
    ensures res == Ok(secret)
  {
    var shares := ShamirSplit(t, secret, n, r);
    res := ShamirCombine(t, shares.value[i], shares.value[j]);
    TwoSharesReconstruct(t, secret, r, i + 1, j + 1);
  }

  // ---------------------------------------------------------------- Secrecy

  /** The randomness that explains an observed byte under a candidate secret byte. */
  function Explains(t: Tables, y: Byte, s: Byte, x: Byte): Byte
    requires IsTables(t) && x != 0
  {
    Div(t, XorBytes(y, s), x).value
  }

  lemma ExplanationIsUnique(t: Tables, s: Byte, y: Byte, x: Byte, r: Byte)
    requires IsTables(t) && x != 0
    ensures ShareByte(t, s, r, x) == y <==> r == Explains(t, y, s, x)
  {
    DivInvertsMul(t, XorBytes(y, s), x);
    DivInvertsMul(t, r, x);
    XorCommutes(y, s);
    XorCancels(s, y);
    XorCancels(s, Mul(t, r, x));
  }

  /** One share says nothing: at every nonzero x, every observed byte string is the share of every secret of
  its length, for exactly one choice of the randomness. */
  lemma OneShareFitsEverySecret(t: Tables, secret: seq<Byte>, y: seq<Byte>, x: Byte)
    requires IsTables(t) && x != 0 && |y| == |secret|
    ensures exists r: seq<Byte> :: |r| == |secret| && ShareAt(t, secret, r, x) == Share(x, y)
    ensures forall r: seq<Byte>, q: seq<Byte> | |r| == |secret| && |q| == |secret| ::
      ShareAt(t, secret, r, x) == Share(x, y) && ShareAt(t, secret, q, x) == Share(x, y) ==> r == q
  {
    var r := seq(|secret|, i requires 0 <= i < |secret| => Explains(t, y[i], secret[i], x));
    forall i | 0 <= i < |secret| ensures ShareAt(t, secret, r, x).data[i] == y[i] {
      ExplanationIsUnique(t, secret[i], y[i], x, r[i]);
    }
    assert ShareAt(t, secret, r, x) == Share(x, y);
    forall p: seq<Byte>, q: seq<Byte> |
      && |p| == |secret| && |q| == |secret|
      && ShareAt(t, secret, p, x) == Share(x, y) && ShareAt(t, secret, q, x) == Share(x, y)
      ensures p == q
    {
      forall i | 0 <= i < |secret| ensures p[i] == q[i] {
        assert ShareAt(t, secret, p, x).data[i] == y[i] && ShareAt(t, secret, q, x).data[i] == y[i];
        ExplanationIsUnique(t, secret[i], y[i], x, p[i]);
        ExplanationIsUnique(t, secret[i], y[i], x, q[i]);
      }
    }
  }

  /** The coordinate 0, which `ShamirSplit` never uses, would be the secret itself. */
  lemma ShareAtZeroIsSecret(t: Tables, secret: seq<Byte>, r: seq<Byte>)
    requires IsTables(t) && |r| == |secret|
    ensures ShareAt(t, secret, r, 0).data == secret
  {
    forall i | 0 <= i < |secret| ensures ShareAt(t, secret, r, 0).data[i] == secret[i] {
      XorUnits(secret[i]);
    }
  }
}
