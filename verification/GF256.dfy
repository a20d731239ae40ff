/** The field of 256 elements the secret sharing computes in: exclusive or as addition, and
    multiplication of bit polynomials modulo x^8 + x^4 + x^3 + x + 1 (section 4.2 of FIPS 197). */
module GF256 {
  type byte = bv8

  function Add(a: byte, b: byte): byte { a ^ b }

  /** Multiplication by 0x02: shift left and reduce by the field polynomial. */
  function XTime(a: byte): byte { if a & 0x80 != 0 then (a << 1) ^ 0x1b else a << 1 }

  /** a when the low bit of b is set. */
  function Pick(a: byte, b: byte): byte { if b & 1 != 0 then a else 0 }

  function Half(b: byte): byte { b >> 1 }

  function Mul(a: byte, b: byte): byte
    decreases b
  {
    if b == 0 then 0 else Add(Pick(a, b), Mul(XTime(a), Half(b)))
  }

  lemma AddLaws(a: byte, b: byte, c: byte)
    ensures Add(a, b) == Add(b, a)
    ensures Add(Add(a, b), c) == Add(a, Add(b, c))
    ensures Add(a, 0) == a && Add(0, a) == a && Add(a, a) == 0
    ensures Add(a, b) == 0 <==> a == b
  {
  }

  lemma AddSwap(a: byte, b: byte, c: byte, d: byte)
    ensures Add(Add(a, b), Add(c, d)) == Add(Add(a, c), Add(b, d))
  {
    hide Add;
    AddLaws(a, b, Add(c, d)); AddLaws(b, c, d); AddLaws(c, b, d); AddLaws(a, c, Add(b, d));
  }

  lemma PickLinear(a: byte, b: byte, c: byte)
    ensures Pick(Add(a, b), c) == Add(Pick(a, c), Pick(b, c))
    ensures XTime(Pick(a, c)) == Pick(XTime(a), c)
    ensures Pick(a, c) == a || Pick(a, c) == 0
  {
  }

  lemma XTimeLinear(a: byte, b: byte)
    ensures XTime(Add(a, b)) == Add(XTime(a), XTime(b))
  {
    if a & 0x80 != 0 { if b & 0x80 != 0 {} else {} } else { if b & 0x80 != 0 {} else {} }
  }

  /** A byte is its low bit plus 0x02 times the rest. */
  lemma SplitLowBit(b: byte)
    ensures b == Add(Pick(1, b), XTime(Half(b)))
    ensures b != 0 ==> Half(b) < b
  {
  }

  lemma {:induction false} MulZero(a: byte)
    ensures Mul(0, a) == 0 && Mul(a, 0) == 0
    decreases a
  {
    if a != 0 { MulZero(Half(a)); }
  }

  lemma MulUnfold(a: byte, b: byte)
    ensures Mul(a, b) == Add(Pick(a, b), Mul(XTime(a), Half(b)))
  {
    if b == 0 { MulZero(XTime(a)); }
  }

  lemma {:induction false} MulAddLeft(a: byte, b: byte, c: byte)
    ensures Mul(Add(a, b), c) == Add(Mul(a, c), Mul(b, c))
    decreases c
  {
    hide Add, Mul, XTime, Pick, Half;
    if c == 0 {
      MulZero(a); MulZero(b); MulZero(Add(a, b)); AddLaws(0, 0, 0);
    } else {
      MulUnfold(a, c); MulUnfold(b, c); MulUnfold(Add(a, b), c);
      XTimeLinear(a, b);
      PickLinear(a, b, c);
      SplitLowBit(c);
      MulAddLeft(XTime(a), XTime(b), Half(c));
      AddSwap(Pick(a, c), Pick(b, c), Mul(XTime(a), Half(c)), Mul(XTime(b), Half(c)));
    }
  }

  lemma {:induction false} MulXTime(a: byte, b: byte)
    ensures Mul(XTime(a), b) == XTime(Mul(a, b))
    decreases b
  {
    hide Add, Mul, XTime, Pick, Half;
    if b == 0 {
      MulZero(a); MulZero(XTime(a)); XTimeZero();
    } else {
      MulUnfold(a, b); MulUnfold(XTime(a), b);
      SplitLowBit(b);
      MulXTime(XTime(a), Half(b));
      PickLinear(a, 0, b);
      XTimeLinear(Pick(a, b), Mul(XTime(a), Half(b)));
    }
  }

  lemma XTimeZero()
    ensures XTime(0) == 0 && Half(0) == 0 && Half(1) == 0 && Pick(0, 1) == 0
  {
  }

  /** Horner form: the rest of the second factor is shifted once. */
  lemma MulHorner(a: byte, b: byte)
    ensures Mul(a, b) == Add(Pick(a, b), XTime(Mul(a, Half(b))))
  {
    hide Add, Mul, XTime, Pick, Half;
    MulUnfold(a, b); MulXTime(a, Half(b));
  }

  lemma {:induction false} MulOne(a: byte)
    ensures Mul(1, a) == a && Mul(a, 1) == a
    decreases a
  {
    MulUnfold(a, 1); MulZero(XTime(a));
    hide Add, Mul, XTime, Half;
    XTimeZero(); AddLaws(a, 0, 0); SplitLowBit(a);
    if a == 0 {
      MulZero(1);
    } else {
      MulHorner(1, a); MulOne(Half(a));
    }
  }

  lemma {:induction false} MulComm(a: byte, b: byte)
    ensures Mul(a, b) == Mul(b, a)
    decreases b
  {
    if b == 0 {
      MulZero(a);
    } else {
      MulOne(a); MulZero(a);
      assert Mul(Pick(1, b), a) == Pick(a, b);
      hide Add, Mul, XTime, Pick, Half;
      MulHorner(a, b);
      SplitLowBit(b);
      MulComm(a, Half(b));
      MulAddLeft(Pick(1, b), XTime(Half(b)), a);
      MulXTime(Half(b), a);
    }
  }

  lemma MulAddRight(a: byte, b: byte, c: byte)
    ensures Mul(a, Add(b, c)) == Add(Mul(a, b), Mul(a, c))
  {
    hide Add, Mul;
    MulComm(a, Add(b, c)); MulComm(a, b); MulComm(a, c);
    MulAddLeft(b, c, a);
  }

  lemma {:induction false} MulAssoc(a: byte, b: byte, c: byte)
    ensures Mul(Mul(a, b), c) == Mul(a, Mul(b, c))
    decreases c
  {
    if c == 0 {
      MulZero(Mul(a, b)); MulZero(b); MulZero(a);
    } else {
      MulZero(a);
      assert Mul(a, Pick(b, c)) == Pick(Mul(a, b), c);
      hide Add, Mul, XTime, Pick, Half;
      var m := Mul(b, Half(c));
      MulHorner(Mul(a, b), c); MulHorner(b, c);
      MulAddRight(a, Pick(b, c), XTime(m));
      MulComm(a, XTime(m)); MulXTime(m, a); MulComm(m, a);
      SplitLowBit(c);
      MulAssoc(a, b, Half(c));
    }
  }

  /** n rounds of the shift-and-add loop. */
  function Rounds(a: byte, b: byte, n: nat): byte
    decreases n
  {
    if n == 0 then 0 else Add(Pick(a, b), Rounds(XTime(a), Half(b), n - 1))
  }

  /** The bits of b from position n on are zero. */
  predicate Below(b: byte, n: nat)
    decreases n
  {
    if n == 0 then b == 0 else Below(Half(b), n - 1)
  }

  lemma BelowEight(b: byte)
    ensures Below(b, 8)
  {
    var b1, b2, b3, b4, b5, b6, b7 := b >> 1, b >> 2, b >> 3, b >> 4, b >> 5, b >> 6, b >> 7;
    assert Below(b7, 1) && Below(b6, 2) && Below(b5, 3) && Below(b4, 4) && Below(b3, 5) && Below(b2, 6) && Below(b1, 7);
  }

  lemma {:induction false} RoundsMul(a: byte, b: byte, n: nat)
    requires Below(b, n)
    ensures Rounds(a, b, n) == Mul(a, b)
    decreases n
  {
    hide Add, XTime, Pick, Half, Mul;
    if n == 0 {
      MulZero(a);
    } else {
      RoundsMul(XTime(a), Half(b), n - 1);
      MulUnfold(a, b);
    }
  }

  /** Eight rounds over the bits of the second factor compute the product. */
  method GfMulRaw(a0: byte, b0: byte) returns (p: byte)
    ensures p == Mul(a0, b0)
  {
    hide Mul, Below, Add;
    var a, b := a0, b0;
    p := 0;
    BelowEight(b); AddLaws(Mul(a, b), 0, 0);
    for i := 0 to 8
      invariant Below(b, 8 - i)
      invariant Add(p, Mul(a, b)) == Mul(a0, b0)
    {
      MulUnfold(a, b); BelowStep(b, 8 - i);
      AddLaws(p, Pick(a, b), Mul(XTime(a), Half(b))); AddIs(p, a); AddLaws(p, 0, 0);
      if b & 1 != 0 { p := p ^ a; }
      var hi := a & 0x80;
      a := a << 1;
      if hi != 0 { a := a ^ 0x1b; }
      b := b >> 1;
    }
    BelowStep(b, 0);
    MulZero(a); AddLaws(p, 0, 0);
  }

  lemma AddIs(a: byte, b: byte)
    ensures Add(a, b) == a ^ b
  {
  }

  lemma BelowStep(b: byte, n: nat)
    requires Below(b, n)
    ensures if n == 0 then b == 0 else Below(Half(b), n - 1)
  {
  }

  /** The n-th power of the generator 0x03. */
  function Pow(n: nat): byte { if n == 0 then 1 else Mul(Pow(n - 1), 3) }

  lemma {:induction false} PowAdd(m: nat, n: nat)
    ensures Pow(m + n) == Mul(Pow(m), Pow(n))
  {
    hide Mul;
    if n == 0 {
      MulOne(Pow(m));
    } else {
      PowAdd(m, n - 1);
      assert Pow(m + n) == Mul(Pow(m + n - 1), 3);
      MulAssoc(Pow(m), Pow(n - 1), 3);
    }
  }

  lemma {:induction false} PowOnes(d: nat, k: nat, m: nat)
    requires Pow(d) == 1 && m == d * k
    ensures Pow(m) == 1
    decreases k
  {
    hide Mul, Pow;
    if k == 0 {
      PowZero();
    } else {
      assert m - d == d * (k - 1);
      PowOnes(d, k - 1, m - d);
      PowAdd(m - d, d);
      MulOne(1);
    }
  }

  lemma PowZero()
    ensures Pow(0) == 1 && Pow(1) == 3
  {
    MulOne(3);
    assert Pow(1) == Mul(Pow(0), 3);
  }

  lemma PowStep(m: nat, n: nat, c: byte)
    requires Rounds(Pow(m), Pow(n), 8) == c
    ensures Pow(m + n) == c
  {
    hide Rounds, Mul, Pow, Below;
    BelowEight(Pow(n)); RoundsMul(Pow(m), Pow(n), 8);
    PowAdd(m, n);
  }

  /** Products along a chain of exponents from 1 to 255. */
  lemma EarlyProducts()
    ensures Rounds(0x03, 0x03, 8) == 0x05 && Rounds(0x05, 0x03, 8) == 0x0f && Rounds(0x0f, 0x0f, 8) == 0x55
    ensures Rounds(0x55, 0x55, 8) == 0xa1 && Rounds(0xa1, 0x0f, 8) == 0x35 && Rounds(0x35, 0x35, 8) == 0x66
  {
  }

  lemma LateProducts()
    ensures Rounds(0x66, 0x35, 8) == 0xab && Rounds(0xab, 0x55, 8) == 0x0c && Rounds(0x0c, 0x66, 8) == 0x9e
    ensures Rounds(0x9e, 0x0f, 8) == 0x6b && Rounds(0x6b, 0x03, 8) == 0xbd && Rounds(0xbd, 0xbd, 8) == 0xbc
    ensures Rounds(0xbc, 0xbd, 8) == 0x01
  {
  }

  /** The generator to the exponents that decide its order. */
  lemma PowTable()
    ensures Pow(255) == 1 && Pow(85) != 1 && Pow(51) != 1 && Pow(15) != 1
  {
    hide Mul, Pow, Rounds;
    PowZero();
    EarlyProducts();
    LateProducts();
    PowStep(1, 1, 0x05); PowStep(2, 1, 0x0f); PowStep(3, 3, 0x55); PowStep(6, 6, 0xa1);
    PowStep(12, 3, 0x35); PowStep(15, 15, 0x66); PowStep(30, 15, 0xab); PowStep(45, 6, 0x0c);
    PowStep(51, 30, 0x9e); PowStep(81, 3, 0x6b); PowStep(84, 1, 0xbd); PowStep(85, 85, 0xbc);
    PowStep(170, 85, 0x01);
  }

  /** The generator has order 255. */
  lemma GeneratorOrder(d: nat)
    requires 0 < d < 255
    ensures Pow(d) != 1
  {
    hide Mul, Pow;
    PowTable();
    if Pow(d) == 1 {
      if d % 3 != 0 {
        NoCycle(d, 3, 85);
      } else if d % 5 != 0 {
        NoCycle(d, 5, 51);
      } else {
        assert d % 17 != 0;
        NoCycle(d, 17, 15);
      }
    }
  }

  lemma MulMod(d: nat, s: nat, p: nat) returns (k: nat)
    requires p > 0 && (d % p) * s % p == 1
    ensures d * s == p * k + 1
  {
    var r := d % p;
    k := (d / p) * s + r * s / p;
    assert d == p * (d / p) + r && r * s == p * (r * s / p) + 1;
  }

  lemma CycleLength(d: nat, s: nat, p: nat, q: nat, k: nat)
    requires d * s == p * k + 1 && p * q == 255
    ensures d * (s * q) == 255 * k + q
  {
    Regroup(d, s, q);
    Regroup(k, p, q);
    assert (p * k + 1) * q == (k * p) * q + q;
  }

  lemma Regroup(a: nat, b: nat, c: nat)
    ensures a * (b * c) == (a * b) * c
  {
  }

  /** If the prime p does not divide d, a cycle of length d forces one of length q = 255 / p. */
  lemma NoCycle(d: nat, p: nat, q: nat)
    requires p in {3, 5, 17} && p * q == 255 && d % p != 0 && Pow(d) == 1
    ensures Pow(q) == 1
  {
    hide Mul, Pow;
    PowTable();
    var s := Inverse(d % p, p);
    var k := MulMod(d, s, p);
    CycleLength(d, s, p, q, k);
    PowOnes(d, s * q, 255 * k + q);
    PowOnes(255, k, 255 * k);
    PowAdd(255 * k, q);
    MulOne(Pow(q));
  }

  /** Distinct exponents below 255 give distinct powers, none of them zero. */
  lemma PowDistinct(i: nat, j: nat)
    requires i < j < 255
    ensures Pow(i) != Pow(j)
  {
    hide Mul, Pow;
    if Pow(i) == Pow(j) {
      // Multiplying by Pow(255 - i) turns the left side into 1 and the right side into Pow(255 + j - i).
      PowTable();
      PowAdd(i, 255 - i); PowAdd(j, 255 - i); PowAdd(255, j - i);
      MulOne(Pow(j - i));
      GeneratorOrder(j - i);
    }
  }

  lemma PowNonzero(i: nat)
    requires i <= 255
    ensures Pow(i) != 0
  {
    hide Mul, Pow;
    PowTable();
    PowAdd(i, 255 - i);
    MulZero(Pow(255 - i));
  }

  lemma Inverse(r: nat, p: nat) returns (s: nat)
    requires p in {3, 5, 17} && 0 < r < p
    ensures r * s % p == 1
  {
    s :=
    if p == 3 then r
    else if p == 5 then if r == 2 then 3 else if r == 3 then 2 else r
    else if r < 9 then
      if r < 5 then if r == 1 then 1 else if r == 2 then 9 else if r == 3 then 6 else 13
      else if r == 5 then 7 else if r == 6 then 3 else if r == 7 then 5 else 15
    else
      if r < 13 then if r == 9 then 2 else if r == 10 then 12 else if r == 11 then 14 else 10
      else if r == 13 then 4 else if r == 14 then 11 else if r == 15 then 8 else 16;
  }

  function OneTo(n: nat): set<int> { if n == 0 then {} else OneTo(n - 1) + {n} }

  lemma {:induction false} OneToSize(n: nat)
    ensures |OneTo(n)| == n
    ensures forall x :: x in OneTo(n) <==> 0 < x <= n
  {
    if n > 0 { OneToSize(n - 1); }
  }

  /** The first n powers. */
  function Powers(n: nat): set<int> { if n == 0 then {} else Powers(n - 1) + {Pow(n - 1) as int} }

  lemma {:induction false} InPowers(n: nat, x: int) returns (i: nat)
    requires x in Powers(n)
    ensures i < n && Pow(i) as int == x
  {
    hide Mul, Pow;
    if x == Pow(n - 1) as int { i := n - 1; } else { i := InPowers(n - 1, x); }
  }

  lemma {:induction false} PowersSize(n: nat, bytes: set<int>)
    requires n <= 255 && forall x :: 0 < x <= 255 ==> x in bytes
    ensures |Powers(n)| == n && Powers(n) <= bytes
  {
    hide Mul, Pow;
    if n > 0 {
      PowersSize(n - 1, bytes);
      NewPower(n - 1);
    }
  }

  lemma NewPower(n: nat)
    requires n < 255
    ensures Pow(n) as int !in Powers(n) && 0 < Pow(n) as int <= 255
  {
    hide Mul, Pow;
    PowNonzero(n); Numeric(Pow(n), 0);
    if Pow(n) as int in Powers(n) {
      var i := InPowers(n, Pow(n) as int);
      Numeric(Pow(i), Pow(n));
      PowDistinct(i, n);
    }
  }

  lemma Numeric(a: byte, b: byte)
    ensures a as int == b as int ==> a == b
    ensures 0 <= a as int <= 255 && (0 as byte) as int == 0
  {
  }

  lemma SubsetFull<T>(a: set<T>, b: set<T>)
    requires a <= b && |a| == |b|
    ensures a == b
  {
    if a != b {
      var x :| x in b && x !in a;
      assert a <= b - {x};
      SubsetSize(a, b - {x});
    }
  }

  lemma {:induction false} SubsetSize<T>(a: set<T>, b: set<T>)
    requires a <= b
    ensures |a| <= |b|
  {
    if a != {} {
      var x :| x in a;
      SubsetSize(a - {x}, b - {x});
    }
  }

  /** Every nonzero byte is a power of the generator, so logarithms exist. */
  lemma LogExists(b: byte) returns (i: nat)
    requires b != 0
    ensures i < 255 && Pow(i) == b
  {
    hide Mul, Pow, Powers, OneTo;
    OneToSize(255);
    PowersSize(255, OneTo(255));
    Numeric(b, 0);
    SubsetFull(Powers(255), OneTo(255));
    i := InPowers(255, b as int);
    Numeric(Pow(i), b);
  }

  lemma NoZeroDivisors(a: byte, b: byte)
    requires a != 0 && b != 0
    ensures Mul(a, b) != 0
  {
    hide Mul, Pow;
    var i := LogExists(a);
    var j := LogExists(b);
    PowTable();
    if i + j <= 255 {
      PowAdd(i, j); PowNonzero(i + j);
    } else {
      PowAdd(i, j); PowAdd(255, i + j - 255); MulOne(Pow(i + j - 255)); PowNonzero(i + j - 255);
    }
  }
}
