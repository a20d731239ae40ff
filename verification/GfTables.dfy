/** Table-driven multiplication and division in the field, as the secret sharing performs them. */
module GfTables {
  import opened GF256
  import opened Wrappers

  lemma InverseExists(b: byte)
    requires b != 0
    ensures exists c: byte :: Mul(b, c) == 1
  {
    hide Mul, Pow;
    var i := LogExists(b);
    PowTable();
    PowAdd(i, 255 - i);
    assert Mul(b, Pow(255 - i)) == 1;
  }

  ghost function Inv(b: byte): (c: byte)
    ensures b != 0 ==> Mul(b, c) == 1
  {
    if b == 0 then 0
    else
      InverseExists(b);
      var c: byte :| Mul(b, c) == 1;
      c
  }

  /** A nonzero divisor has one quotient only. */
  lemma QuotientUnique(a: byte, b: byte, c: byte)
    requires b != 0 && Mul(c, b) == a
    ensures c == Mul(a, Inv(b))
  {
    hide Mul;
    MulAssoc(c, b, Inv(b)); MulOne(c);
  }

  /** Exponents may be reduced by the order of the generator. */
  lemma PowPeriod(i: nat)
    ensures Pow(i + 255) == Pow(i)
  {
    hide Mul, Pow;
    PowTable(); PowAdd(i, 255); MulOne(Pow(i));
  }

  class Tables {
    const exp: array<byte>
    const log: array<int>

    /** The table position of a byte. */
    static function At(b: byte): (i: nat)
      ensures i < 256 && (b == 0 <==> i == 0)
    {
      Numeric(b, 0);
      b as int
    }

    static lemma AtInjective(a: byte, b: byte)
      requires a != b
      ensures At(a) != At(b)
    {
      Numeric(a, b);
    }

    ghost predicate Valid()
      reads exp, log
    {
      && exp.Length == 512 && log.Length == 256
      && (forall i: nat :: i < 512 ==> exp[i] == Pow(i))
      && (forall b: byte :: b != 0 ==> 0 <= log[At(b)] < 255 && Pow(log[At(b)]) == b)
    }

    /** Walks the powers of the generator once; every nonzero byte is met exactly once. */
    constructor ()
      ensures Valid() && fresh(exp) && fresh(log)
    {
      hide Mul, Pow;
      exp := new byte[512];
      log := new int[256];
      new;
      PowZero();
      var x: byte := 1;
      for i := 0 to 255
        invariant exp.Length == 512 && log.Length == 256 && fresh(exp) && fresh(log)
        invariant x == Pow(i)
        invariant forall j: nat :: j < i ==> exp[j] == Pow(j)
        invariant forall j: nat :: j < i ==> log[At(Pow(j))] == j
      {
        forall j: nat | j < i ensures At(Pow(j)) != At(x) { PowDistinct(j, i); AtInjective(Pow(j), x); }
        exp[i] := x;
        log[At(x)] := i;
        x := GfMulRaw(x, 0x03);
        PowAdd(i, 1);
      }
      for i := 255 to 512
        invariant exp.Length == 512 && log.Length == 256 && fresh(exp) && fresh(log)
        invariant forall j: nat :: j < i ==> exp[j] == Pow(j)
        invariant forall j: nat :: j < 255 ==> log[At(Pow(j))] == j
      {
        exp[i] := exp[i - 255];
        PowPeriod(i - 255);
      }
      forall b: byte | b != 0 ensures 0 <= log[At(b)] < 255 && Pow(log[At(b)]) == b {
        var i := LogExists(b);
      }
      log[0] := 0;
    }

    function GfMul(a: byte, b: byte): (r: byte)
      requires Valid()
      reads exp, log
      ensures r == Mul(a, b)
    {
      hide Mul, Pow;
      MulZero(a); MulZero(b);
      if a == 0 || b == 0 then 0
      else
        PowAdd(log[At(a)], log[At(b)]);
        exp[log[At(a)] + log[At(b)]]
    }

    /** The quotient; there is none by zero. */
    function GfDiv(a: byte, b: byte): (r: Option<byte>)
      requires Valid()
      reads exp, log
      ensures r == if b == 0 then None else Some(Mul(a, Inv(b)))
    {
      hide Mul, Pow;
      if b == 0 then None
      else if a == 0 then
        MulZero(Inv(b));
        Some(0)
      else
        var i := log[At(a)] + 255 - log[At(b)];
        Quotient(a, b, log[At(a)], log[At(b)]);
        Some(exp[i % 255])
    }
  }

  lemma Quotient(a: byte, b: byte, i: nat, j: nat)
    requires i < 255 && j < 255 && a == Pow(i) && b == Pow(j) && b != 0
    ensures Pow((i + 255 - j) % 255) == Mul(a, Inv(b))
  {
    hide Mul, Pow;
    var k := (i + 255 - j) % 255;
    PowAdd(k, j);
    if i >= j { assert k + j == i; } else { assert k + j == i + 255; PowPeriod(i); }
    QuotientUnique(a, b, Pow(k));
  }
}
