/** Polynomials over the field as coefficient lists, lowest degree first: root counting and interpolation. */
module Polynomial {
  import opened GF256
  import opened GfTables

  function Eval(p: seq<byte>, x: byte): byte {
    if |p| == 0 then 0 else Add(p[0], Mul(x, Eval(p[1..], x)))
  }

  function Sum(p: seq<byte>, q: seq<byte>): (s: seq<byte>)
    requires |p| == |q|
    ensures |s| == |p|
  {
    if |p| == 0 then [] else [Add(p[0], q[0])] + Sum(p[1..], q[1..])
  }

  function Scale(k: byte, p: seq<byte>): (s: seq<byte>)
    ensures |s| == |p|
  {
    if |p| == 0 then [] else [Mul(k, p[0])] + Scale(k, p[1..])
  }

  /** The product of p with x + r. */
  function TimesLinear(p: seq<byte>, r: byte): (s: seq<byte>)
    ensures |s| == |p| + 1
  {
    if |p| == 0 then [0]
    else
      var t := TimesLinear(p[1..], r);
      [Mul(r, p[0]), Add(p[0], t[0])] + t[1..]
  }

  /** The quotient of p by x + r. */
  function Quotient(p: seq<byte>, r: byte): (s: seq<byte>)
    ensures |s| == if |p| == 0 then 0 else |p| - 1
  {
    if |p| <= 1 then [] else [Eval(p[1..], r)] + Quotient(p[1..], r)
  }

  predicate Zeros(p: seq<byte>) { forall i :: 0 <= i < |p| ==> p[i] == 0 }

  predicate Distinct(xs: seq<byte>) { forall i, j :: 0 <= i < j < |xs| ==> xs[i] != xs[j] }

  lemma EvalCons(c: byte, p: seq<byte>, x: byte)
    ensures Eval([c] + p, x) == Add(c, Mul(x, Eval(p, x)))
  {
    assert ([c] + p)[1..] == p;
  }

  lemma {:induction false} EvalZeros(p: seq<byte>, x: byte)
    requires Zeros(p)
    ensures Eval(p, x) == 0
  {
    hide Add, Mul;
    if |p| > 0 { EvalZeros(p[1..], x); MulZero(x); AddLaws(0, 0, 0); }
  }

  lemma {:induction false} EvalSum(p: seq<byte>, q: seq<byte>, x: byte)
    requires |p| == |q|
    ensures Eval(Sum(p, q), x) == Add(Eval(p, x), Eval(q, x))
  {
    hide Add, Mul;
    if |p| == 0 {
      AddLaws(0, 0, 0);
    } else {
      var a, b := Eval(p[1..], x), Eval(q[1..], x);
      EvalCons(Add(p[0], q[0]), Sum(p[1..], q[1..]), x);
      EvalSum(p[1..], q[1..], x);
      MulAddRight(x, a, b);
      AddSwap(p[0], q[0], Mul(x, a), Mul(x, b));
    }
  }

  lemma {:induction false} EvalScale(k: byte, p: seq<byte>, x: byte)
    ensures Eval(Scale(k, p), x) == Mul(k, Eval(p, x))
  {
    hide Add, Mul;
    if |p| == 0 {
      MulZero(k);
    } else {
      var a := Eval(p[1..], x);
      EvalCons(Mul(k, p[0]), Scale(k, p[1..]), x);
      EvalScale(k, p[1..], x);
      MulAddRight(k, p[0], Mul(x, a));
      MulAssoc(x, k, a); MulAssoc(k, x, a); MulComm(x, k);
    }
  }

  lemma {:induction false} EvalTimesLinear(p: seq<byte>, r: byte, x: byte)
    ensures Eval(TimesLinear(p, r), x) == Mul(Add(x, r), Eval(p, x))
  {
    hide Add, Mul;
    if |p| == 0 {
      MulZero(x); MulZero(Add(x, r)); AddLaws(0, 0, 0); EvalCons(0, [], x);
    } else {
      var c, t, e := p[0], TimesLinear(p[1..], r), Eval(p[1..], x);
      var u, f := Add(x, r), Eval(t[1..], x);
      EvalTimesLinear(p[1..], r, x);
      assert TimesLinear(p, r) == [Mul(r, c)] + ([Add(c, t[0])] + t[1..]);
      EvalCons(Mul(r, c), [Add(c, t[0])] + t[1..], x);
      EvalCons(Add(c, t[0]), t[1..], x);
      // r c + x (c + t(x)) with t(x) = u e
      AddLaws(c, t[0], Mul(x, f));
      assert Eval(t, x) == Add(t[0], Mul(x, f));
      MulAddRight(x, c, Mul(u, e));
      AddLaws(Mul(r, c), Mul(x, c), Mul(x, Mul(u, e)));
      MulAddLeft(x, r, c); AddLaws(Mul(x, c), Mul(r, c), 0);
      // u (c + x e)
      MulAddRight(u, c, Mul(x, e));
      MulAssoc(x, u, e); MulAssoc(u, x, e); MulComm(x, u);
    }
  }

  /** Division with remainder: p(x) + p(r) = (x + r) q(x). */
  lemma {:induction false} EvalQuotient(p: seq<byte>, r: byte, x: byte)
    ensures Add(Eval(p, x), Eval(p, r)) == Mul(Add(x, r), Eval(Quotient(p, r), x))
  {
    hide Add, Mul;
    if |p| <= 1 {
      MulZero(Add(x, r));
      if |p| == 1 { assert p[1..] == []; MulZero(x); MulZero(r); }
      AddLaws(Eval(p, x), 0, 0);
    } else {
      var c, e, d, q := p[0], Eval(p[1..], x), Eval(p[1..], r), Eval(Quotient(p[1..], r), x);
      var u := Add(x, r);
      EvalQuotient(p[1..], r, x);
      EvalCons(d, Quotient(p[1..], r), x);
      assert Eval(Quotient(p, r), x) == Add(d, Mul(x, q));
      // c cancels
      AddSwap(c, Mul(x, e), c, Mul(r, d)); AddLaws(c, 0, 0); AddLaws(Add(Mul(x, e), Mul(r, d)), 0, 0);
      // x e + r d = x (e + d) + (x + r) d
      MulAddRight(x, e, d); MulAddLeft(x, r, d);
      AddSwap(Mul(x, e), Mul(x, d), Mul(x, d), Mul(r, d));
      AddLaws(Mul(x, d), 0, 0);
      AddLaws(Mul(x, e), Mul(x, d), Add(Mul(x, d), Mul(r, d)));
      AddLaws(Mul(x, d), Mul(x, d), Mul(r, d)); AddLaws(Mul(r, d), 0, 0);
      assert Add(Mul(x, e), Mul(r, d)) == Add(Mul(x, Mul(u, q)), Mul(u, d));
      MulAddRight(u, d, Mul(x, q));
      MulAssoc(x, u, q); MulAssoc(u, x, q); MulComm(x, u);
      AddLaws(Mul(u, d), Mul(u, Mul(x, q)), 0);
    }
  }

  lemma {:induction false} QuotientZeros(p: seq<byte>, r: byte)
    requires Zeros(Quotient(p, r)) && Eval(p, r) == 0
    ensures Zeros(p)
  {
    hide Add, Mul;
    if |p| == 1 {
      assert p[1..] == []; MulZero(r); AddLaws(p[0], 0, 0);
    } else if |p| > 1 {
      var q := Quotient(p, r);
      assert q[0] == Eval(p[1..], r) == 0 && q[1..] == Quotient(p[1..], r);
      forall i | 0 <= i < |q[1..]| ensures q[1..][i] == 0 { assert q[1..][i] == q[i + 1]; }
      QuotientZeros(p[1..], r);
      MulZero(r); AddLaws(p[0], 0, 0);
      forall i | 0 <= i < |p| ensures p[i] == 0 { if i > 0 { assert p[i] == p[1..][i - 1]; } }
    }
  }

  /** A polynomial with as many distinct roots as coefficients is zero. */
  lemma {:induction false} ManyRoots(p: seq<byte>, xs: seq<byte>)
    requires |p| <= |xs| && Distinct(xs)
    requires forall i :: 0 <= i < |xs| ==> Eval(p, xs[i]) == 0
    ensures Zeros(p)
    decreases |p|
  {
    hide Add, Mul;
    if |p| > 0 {
      var r, rest := xs[0], xs[1..];
      var q := Quotient(p, r);
      forall i | 0 <= i < |rest| ensures Eval(q, rest[i]) == 0 {
        var x := xs[i + 1];
        EvalQuotient(p, r, x); AddLaws(0, 0, 0); AddLaws(x, r, 0);
        if Eval(q, x) != 0 { NoZeroDivisors(Add(x, r), Eval(q, x)); }
      }
      ManyRoots(q, rest);
      QuotientZeros(p, r);
    }
  }

  lemma {:induction false} SumZeros(p: seq<byte>, q: seq<byte>)
    requires |p| == |q| && Zeros(Sum(p, q))
    ensures p == q
  {
    hide Add, Mul;
    if |p| > 0 {
      var s := Sum(p, q);
      assert s[0] == Add(p[0], q[0]) && s[1..] == Sum(p[1..], q[1..]);
      forall i | 0 <= i < |s[1..]| ensures s[1..][i] == 0 { assert s[1..][i] == s[i + 1]; }
      AddLaws(p[0], q[0], 0);
      SumZeros(p[1..], q[1..]);
      assert p == [p[0]] + p[1..] && q == [q[0]] + q[1..];
    }
  }

  /** Polynomials of fewer than |xs| + 1 coefficients that agree at |xs| points are equal. */
  lemma AgreementUnique(p: seq<byte>, q: seq<byte>, xs: seq<byte>)
    requires |p| == |q| <= |xs| && Distinct(xs)
    requires forall i :: 0 <= i < |xs| ==> Eval(p, xs[i]) == Eval(q, xs[i])
    ensures p == q
  {
    hide Add, Mul;
    forall i | 0 <= i < |xs| ensures Eval(Sum(p, q), xs[i]) == 0 {
      EvalSum(p, q, xs[i]); AddLaws(Eval(p, xs[i]), Eval(q, xs[i]), 0);
    }
    ManyRoots(Sum(p, q), xs);
    SumZeros(p, q);
  }

  /** The product of v + xs[j] over the positions j < n other than i. */
  function Product(xs: seq<byte>, i: nat, n: nat, v: byte): byte
    requires n <= |xs|
  {
    if n == 0 then 1
    else if n - 1 == i then Product(xs, i, n - 1, v)
    else Mul(Product(xs, i, n - 1, v), Add(v, xs[n - 1]))
  }

  /** The same product as a polynomial in v. */
  function Vanishing(xs: seq<byte>, i: nat, n: nat): (p: seq<byte>)
    requires n <= |xs|
    ensures |p| == if i < n then n else n + 1
  {
    if n == 0 then [1]
    else if n - 1 == i then Vanishing(xs, i, n - 1)
    else TimesLinear(Vanishing(xs, i, n - 1), xs[n - 1])
  }

  lemma {:induction false} EvalVanishing(xs: seq<byte>, i: nat, n: nat, v: byte)
    requires n <= |xs|
    ensures Eval(Vanishing(xs, i, n), v) == Product(xs, i, n, v)
  {
    hide Add, Mul;
    if n == 0 {
      EvalCons(1, [], v); MulZero(v); AddLaws(1, 0, 0);
    } else {
      EvalVanishing(xs, i, n - 1, v);
      if n - 1 != i {
        EvalTimesLinear(Vanishing(xs, i, n - 1), xs[n - 1], v);
        MulComm(Add(v, xs[n - 1]), Product(xs, i, n - 1, v));
      }
    }
  }

  /** The product vanishes at the other points and only there. */
  lemma {:induction false} ProductZero(xs: seq<byte>, i: nat, n: nat, v: byte)
    requires n <= |xs|
    ensures Product(xs, i, n, v) == 0 <==> exists j :: 0 <= j < n && j != i && xs[j] == v
  {
    hide Add, Mul;
    if n > 0 {
      ProductZero(xs, i, n - 1, v);
      if n - 1 != i {
        var a, b := Product(xs, i, n - 1, v), Add(v, xs[n - 1]);
        AddLaws(v, xs[n - 1], 0);
        if a != 0 && b != 0 { NoZeroDivisors(a, b); }
        MulZero(a); MulZero(b);
      }
    }
  }

  /** The weight of point i in the value at v. */
  ghost function Weight(xs: seq<byte>, i: nat, v: byte): byte
    requires i < |xs|
  {
    Mul(Product(xs, i, |xs|, v), Inv(Product(xs, i, |xs|, xs[i])))
  }

  /** Lagrange's value at v over the first k points. */
  ghost function Lagrange(xs: seq<byte>, ys: seq<byte>, k: nat, v: byte): byte
    requires |xs| == |ys| && k <= |xs|
  {
    if k == 0 then 0 else Add(Lagrange(xs, ys, k - 1, v), Mul(ys[k - 1], Weight(xs, k - 1, v)))
  }

  /** The coefficients of Lagrange's value as a polynomial in v. */
  ghost function Interpolant(xs: seq<byte>, ys: seq<byte>, k: nat): (p: seq<byte>)
    requires |xs| == |ys| && k <= |xs|
    ensures |p| == |xs|
  {
    if k == 0 then seq(|xs|, _ => 0)
    else Sum(Interpolant(xs, ys, k - 1),
             Scale(Mul(ys[k - 1], Inv(Product(xs, k - 1, |xs|, xs[k - 1]))), Vanishing(xs, k - 1, |xs|)))
  }

  lemma {:induction false} EvalInterpolant(xs: seq<byte>, ys: seq<byte>, k: nat, v: byte)
    requires |xs| == |ys| && k <= |xs| && Distinct(xs)
    ensures Eval(Interpolant(xs, ys, k), v) == Lagrange(xs, ys, k, v)
  {
    hide Add, Mul, Inv, Product, Vanishing, Eval;
    if k == 0 {
      EvalZeros(Interpolant(xs, ys, 0), v);
    } else {
      var i := k - 1;
      var num, inv := Product(xs, i, |xs|, v), Inv(Product(xs, i, |xs|, xs[i]));
      EvalInterpolant(xs, ys, i, v);
      EvalSum(Interpolant(xs, ys, i), Scale(Mul(ys[i], inv), Vanishing(xs, i, |xs|)), v);
      EvalScale(Mul(ys[i], inv), Vanishing(xs, i, |xs|), v);
      EvalVanishing(xs, i, |xs|, v);
      MulAssoc(ys[i], inv, num); MulComm(inv, num);
    }
  }

  /** At one of the points, Lagrange's value is the value given there. */
  lemma {:induction false} LagrangeAtPoint(xs: seq<byte>, ys: seq<byte>, k: nat, m: nat)
    requires |xs| == |ys| && k <= |xs| && m < |xs| && Distinct(xs)
    ensures Lagrange(xs, ys, k, xs[m]) == if m < k then ys[m] else 0
  {
    hide Add, Mul, Inv, Product;
    if k > 0 {
      var i := k - 1;
      ProductZero(xs, i, |xs|, xs[i]);
      LagrangeAtPoint(xs, ys, i, m);
      AddLaws(if m < i then ys[m] else 0, 0, 0);
      if i == m {
        MulOne(ys[i]); AddLaws(ys[i], 0, 0);
      } else {
        ProductZero(xs, i, |xs|, xs[m]);
        MulZero(Inv(Product(xs, i, |xs|, xs[i]))); MulZero(ys[i]);
      }
    }
  }

  /** Lagrange's value at 0 recovers the constant coefficient from any |p| values of p at distinct points. */
  lemma LagrangeRecovers(p: seq<byte>, xs: seq<byte>, ys: seq<byte>)
    requires |p| == |xs| == |ys| > 0 && Distinct(xs)
    requires forall i :: 0 <= i < |xs| ==> ys[i] == Eval(p, xs[i])
    ensures Lagrange(xs, ys, |xs|, 0) == p[0]
  {
    hide Add, Mul, Inv, Product, Lagrange, Interpolant;
    var q := Interpolant(xs, ys, |xs|);
    forall i | 0 <= i < |xs| ensures Eval(p, xs[i]) == Eval(q, xs[i]) {
      EvalInterpolant(xs, ys, |xs|, xs[i]);
      LagrangeAtPoint(xs, ys, |xs|, i);
    }
    AgreementUnique(p, q, xs);
    EvalInterpolant(xs, ys, |xs|, 0);
    EvalAtZero(p);
  }

  lemma EvalAtZero(p: seq<byte>)
    requires |p| > 0
    ensures Eval(p, 0) == p[0]
  {
    hide Add, Mul;
    MulZero(Eval(p[1..], 0)); AddLaws(p[0], 0, 0);
  }
}
