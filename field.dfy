/**
 * Discrete-log abstraction of the pairing-friendly curve.
 *
 * Scalars, G1 elements, G2 elements and target-group elements are all
 * represented by integers in [0, P), where P is the order of the BLS12-381
 * groups: a group element stands for its discrete logarithm with respect to a
 * fixed generator.  Group addition is addition mod P, scalar multiplication
 * is multiplication mod P, and the pairing e(x, y) is x * y mod P, so a
 * pairing product "is one" exactly when the sum of the products is 0 mod P.
 * Primality of P is never used.
 */
module Field {

  const P: int := 0x73eda753299d7d483339d80809a1d80553bda402fffe5bfeffffffff00000001

  /** A canonical representative of a residue class mod P. */
  type Zp = x: int | 0 <= x < P

  type Scalar = Zp
  type G1 = Zp
  type G2 = Zp
  type Gt = Zp

  /** Two integers denote the same element of Z_P. */
  ghost predicate Cong(x: int, y: int) {
    x % P == y % P
  }

  function Add(a: Zp, b: Zp): Zp
  {
    (a + b) % P
  }

  function Neg(a: Zp): Zp
  {
    (P - a) % P
  }

  function Sub(a: Zp, b: Zp): Zp
  {
    (a - b) % P
  }

  /**
   * Scalar multiplication of a group element: b copies of a, added up.  This
   * definition exists for the proofs, whose inductions follow its recursion;
   * on real scalars it would never finish.  `MulIsProduct` shows it is the
   * field product `(a * b) % P`.
   */
  function Mul(a: Zp, b: Zp): Zp
    decreases b
  {
    if b == 0 then 0 else Add(Mul(a, b - 1), a)
  }

  /** The bilinear pairing e: G1 x G2 -> GT, written additively in GT. */
  function Pair(x: G1, y: G2): Gt
  {
    Mul(x, y)
  }

  function IntSum(s: seq<int>): int
  {
    if s == [] then 0 else s[0] + IntSum(s[1..])
  }

  /** Sum of a sequence of group (or field) elements. */
  function Sum(s: seq<Zp>): Zp
  {
    IntSum(s) % P
  }

  // ---------------------------------------------------------------------
  // Congruence toolkit

  lemma CongShift(y: int, k: int)
    ensures Cong(y + k * P, y)
  {
  }

  /** Reducing mod P keeps the residue class. */
  lemma ModCong(x: int)
    ensures Cong(x % P, x)
  {
  }

  lemma CongAdd(a: int, a': int, b: int, b': int)
    requires Cong(a, a') && Cong(b, b')
    ensures Cong(a + b, a' + b')
  {
    var k := a / P - a' / P;
    var j := b / P - b' / P;
    assert a == a' + k * P;
    assert b == b' + j * P;
    CongShift(a' + b', k + j);
  }

  lemma CongNeg(a: int, a': int)
    requires Cong(a, a')
    ensures Cong(-a, -a')
  {
    var k := a / P - a' / P;
    assert a == a' + k * P;
    CongShift(-a', -k);
  }

  /** Reducing the left summand first does not change the sum mod P. */
  lemma ModAddLeft(x: int, c: int)
    ensures (x + c) % P == (x % P + c) % P
  {
    ModCong(x);
    CongAdd(x % P, x, c, c);
  }

  lemma IntSumAppend(s: seq<int>, t: seq<int>)
    ensures IntSum(s + t) == IntSum(s) + IntSum(t)
  {
    if s != [] {
      assert (s + t)[0] == s[0];
      assert (s + t)[1..] == s[1..] + t;
      IntSumAppend(s[1..], t);
    } else {
      assert s + t == t;
    }
  }

  /** Removing the element at position k takes it out of the sum. */
  lemma {:induction false} IntSumRemove(s: seq<int>, k: nat)
    requires k < |s|
    ensures IntSum(s) == s[k] + IntSum(s[..k] + s[k + 1..])
    decreases k
  {
    if k == 0 {
      assert s[..0] + s[1..] == s[1..];
    } else {
      var t := s[1..];
      IntSumRemove(t, k - 1);
      var r := s[..k] + s[k + 1..];
      assert r[0] == s[0];
      assert r[1..] == t[..k - 1] + t[k..];
    }
  }

  // What each operation denotes, as a residue class

  lemma AddCong(a: Zp, b: Zp, x: int, y: int)
    requires Cong(a, x) && Cong(b, y)
    ensures Cong(Add(a, b), x + y)
  {
    ModCong(a + b);
    CongAdd(a, x, b, y);
  }

  lemma NegCong(a: Zp, x: int)
    requires Cong(a, x)
    ensures Cong(Neg(a), -x)
  {
    var minus: int := 0 - a as int;
    CongShift(minus, 1);
    CongNeg(a, x);
  }

  lemma SubCong(a: Zp, b: Zp, x: int, y: int)
    requires Cong(a, x) && Cong(b, y)
    ensures Cong(Sub(a, b), x - y)
  {
    var minus: int := 0 - b as int;
    CongNeg(b, y);
    CongAdd(a, x, minus, -y);
    ModCong(a + minus);
  }

  /** Repeated addition is the product mod P. */
  lemma {:induction false} MulIsProduct(a: Zp, b: Zp)
    ensures Mul(a, b) == (a * b) % P
    decreases b
  {
    if b > 0 {
      MulIsProduct(a, b - 1);
      ModCong(a * (b - 1));
      CongAdd(Mul(a, b - 1), a * (b - 1), a, a);
      ModCong(Mul(a, b - 1) + a);
      assert a * (b - 1) + a == a * b;
    }
  }

  // Ring laws of the operations.  The additive ones are linear facts mod P;
  // the multiplicative ones follow by induction on the repeated addition.

  lemma AddCases(a: Zp, b: Zp)
    ensures Add(a, b) == if a + b < P then a + b else a + b - P
  {
  }

  lemma NegCases(a: Zp)
    ensures Neg(a) == if a == 0 then 0 else P - a
  {
  }

  lemma SubCases(a: Zp, b: Zp)
    ensures Sub(a, b) == if a >= b then a - b else a - b + P
  {
  }

  lemma AddAssoc(a: Zp, b: Zp, c: Zp)
    ensures Add(Add(a, b), c) == Add(a, Add(b, c))
  {
    AddCases(a, b);
    AddCases(Add(a, b), c);
    AddCases(b, c);
    AddCases(a, Add(b, c));
  }

  lemma AddSwap(x: Zp, y: Zp, u: Zp, v: Zp)
    ensures Add(Add(x, y), Add(u, v)) == Add(Add(x, u), Add(y, v))
  {
    AddAssoc(x, y, Add(u, v));
    AddAssoc(y, u, v);
    assert Add(y, u) == Add(u, y);
    AddAssoc(u, y, v);
    AddAssoc(x, u, Add(y, v));
  }

  lemma NegAdd(a: Zp, b: Zp)
    ensures Neg(Add(a, b)) == Add(Neg(a), Neg(b))
  {
    AddCases(a, b);
    NegCases(a);
    NegCases(b);
    NegCases(Add(a, b));
    AddCases(Neg(a), Neg(b));
  }

  lemma SubIsAddNeg(a: Zp, b: Zp)
    ensures Sub(a, b) == Add(a, Neg(b))
  {
    SubCases(a, b);
    NegCases(b);
    AddCases(a, Neg(b));
  }

  lemma {:induction false} MulAddRight(a: Zp, b: Zp, c: Zp)
    ensures Mul(Add(a, b), c) == Add(Mul(a, c), Mul(b, c))
    decreases c
  {
    if c > 0 {
      MulAddRight(a, b, c - 1);
      AddSwap(Mul(a, c - 1), Mul(b, c - 1), a, b);
    }
  }

  lemma MulComm(a: Zp, b: Zp)
    ensures Mul(a, b) == Mul(b, a)
  {
    MulIsProduct(a, b);
    MulIsProduct(b, a);
  }

  lemma MulAddLeft(g: Zp, a: Zp, b: Zp)
    ensures Mul(g, Add(a, b)) == Add(Mul(g, a), Mul(g, b))
  {
    MulComm(g, Add(a, b));
    MulAddRight(a, b, g);
    MulComm(a, g);
    MulComm(b, g);
  }

  lemma {:induction false} MulAssoc(a: Zp, b: Zp, c: Zp)
    ensures Mul(Mul(a, b), c) == Mul(a, Mul(b, c))
    decreases c
  {
    if c > 0 {
      MulAssoc(a, b, c - 1);
      MulAddLeft(a, Mul(b, c - 1), b);
    }
  }

  lemma {:induction false} MulNegLeft(a: Zp, c: Zp)
    ensures Mul(Neg(a), c) == Neg(Mul(a, c))
    decreases c
  {
    if c > 0 {
      MulNegLeft(a, c - 1);
      NegAdd(Mul(a, c - 1), a);
    }
  }

  lemma MulSubLeft(g: Zp, a: Zp, b: Zp)
    ensures Mul(g, Sub(a, b)) == Sub(Mul(g, a), Mul(g, b))
  {
    SubIsAddNeg(a, b);
    MulAddLeft(g, a, Neg(b));
    MulComm(g, Neg(b));
    MulNegLeft(b, g);
    MulComm(b, g);
    SubIsAddNeg(Mul(g, a), Mul(g, b));
  }
}
