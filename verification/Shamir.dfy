/** Threshold secret sharing: splitting a hexadecimal secret into share texts and reconstructing it. */
module Shamir {
  import opened Wrappers
  import opened Text
  import opened GF256
  import opened GfTables
  import opened Polynomial

  datatype Error = InvalidParameters | InsufficientShares | NoShares | DivisionByZero | MalformedShare

  /** A share: its evaluation point and one value for each byte of the secret. */
  datatype Share = Share(x: byte, y: seq<byte>)

  /** The text `x:hex`. */
  function Show(s: Share): string { Decimal(Nat(s.x)) + ":" + ToHex(s.y) }

  function IndexOf(c: char, s: string): nat {
    if |s| == 0 || s[0] == c then 0 else 1 + IndexOf(c, s[1..])
  }

  lemma {:induction false} IndexOfFirst(c: char, a: string, b: string)
    requires c !in a
    ensures IndexOf(c, a + [c] + b) == |a|
  {
    if |a| > 0 {
      IndexOfFirst(c, a[1..], b);
      assert (a + [c] + b)[1..] == a[1..] + [c] + b;
    }
  }

  lemma {:induction false} IndexOfNone(c: char, s: string)
    requires c !in s
    ensures IndexOf(c, s) == |s|
  {
    if |s| > 0 { IndexOfNone(c, s[1..]); }
  }

  lemma {:induction false} IndexOfBound(c: char, s: string)
    ensures IndexOf(c, s) <= |s|
  {
    if |s| > 0 { IndexOfBound(c, s[1..]); }
  }

  /** The number before the first colon and the bytes between the first and the second colon. */
  function Parse(s: string): Option<Share> {
    IndexOfBound(':', s);
    var i := IndexOf(':', s);
    if i == |s| then None
    else
      var rest := s[i + 1..];
      IndexOfBound(':', rest);
      match ParseDecimal(s[..i])
      case None => None
      case Some(x) => if x < 256 then Some(Share(ByteOf(x), FromHex(rest[..IndexOf(':', rest)]))) else None
  }

  lemma NotColon()
    ensures !LowerHexDigit(':')
  {
  }

  lemma ParseShow(s: Share)
    ensures Parse(Show(s)) == Some(s)
  {
    hide IndexOf, ToHex, FromHex, Decimal, ParseDecimal, ByteOf, LowerHexDigit;
    var x, h := Decimal(Nat(s.x)), ToHex(s.y);
    NotColon();
    DecimalRoundTrip(Nat(s.x));
    ToHexLower(s.y);
    FromToHex(s.y);
    IndexOfFirst(':', x, h);
    IndexOfNone(':', h);
    assert Show(s)[|x| + 1..] == h && h[..|h|] == h && Show(s)[..|x|] == x;
  }

  /** The values at x of the polynomials whose constant terms are the secret bytes. */
  function ValuesAt(secret: seq<byte>, random: seq<seq<byte>>, x: byte): seq<byte>
    requires |random| == |secret|
  {
    seq(|secret|, b requires 0 <= b < |secret| => Eval([secret[b]] + random[b], x))
  }

  function ShareOf(secret: seq<byte>, random: seq<seq<byte>>, i: nat): Share
    requires |random| == |secret| && i < 255
  {
    Share(ByteOf(i + 1), ValuesAt(secret, random, ByteOf(i + 1)))
  }

  function Shares(secret: seq<byte>, random: seq<seq<byte>>, n: nat): seq<string>
    requires |random| == |secret| && n <= 255
  {
    seq(n, i requires 0 <= i < n => Show(ShareOf(secret, random, i)))
  }

  predicate ValidParameters(n: int, t: int) { 2 <= t <= n <= 255 }

  /** Random coefficients: t - 1 of them for each byte of the secret. */
  predicate Coefficients(random: seq<seq<byte>>, secret: seq<byte>, t: int) {
    |random| == |secret| && forall b :: 0 <= b < |random| ==> |random[b]| == t - 1
  }

  /** Horner's rule from the highest coefficient down. */
  method EvalPoly(tables: Tables, coeffs: seq<byte>, x: byte) returns (y: byte)
    requires tables.Valid()
    ensures y == Eval(coeffs, x)
  {
    hide Add, Mul;
    y := 0;
    var i := |coeffs|;
    while i > 0
      invariant 0 <= i <= |coeffs|
      invariant y == Eval(coeffs[i..], x)
    {
      i := i - 1;
      AddLaws(tables.GfMul(y, x), coeffs[i], 0); MulComm(x, y);
      assert coeffs[i..] == [coeffs[i]] + coeffs[i + 1..];
      y := Add(tables.GfMul(y, x), coeffs[i]);
    }
    assert coeffs[0..] == coeffs;
  }

  lemma NoValues()
    ensures forall x: byte :: ValuesAt([], [], x) == []
  {
    hide Eval;
  }

  lemma NextValue(secret: seq<byte>, random: seq<seq<byte>>, b: nat, x: byte)
    requires |random| == |secret| && b < |secret|
    ensures ValuesAt(secret[..b + 1], random[..b + 1], x)
      == ValuesAt(secret[..b], random[..b], x) + [Eval([secret[b]] + random[b], x)]
  {
    hide Eval;
  }

  method SplitSecret(tables: Tables, secretHex: string, n: int, t: int, random: seq<seq<byte>>)
    returns (r: Result<seq<string>, Error>)
    requires tables.Valid()
    requires ValidParameters(n, t) ==> Coefficients(random, FromHex(secretHex), t)
    ensures !(2 <= t <= n <= 255) ==> r == Err(InvalidParameters)
    ensures 2 <= t <= n <= 255 ==> r == Ok(Shares(FromHex(secretHex), random, n))
  {
    hide Eval, Nat, ByteOf, ToHex, FromHex, Decimal, Show, ValuesAt;
    if t < 2 || n < t || n > 255 { return Err(InvalidParameters); }
    var secret := FromHex(secretHex);
    var ys: seq<seq<byte>> := seq(n, _ => []);
    NoValues();
    for bi := 0 to |secret|
      invariant |ys| == n
      invariant forall i :: 0 <= i < n ==> ys[i] == ValuesAt(secret[..bi], random[..bi], ByteOf(i + 1))
    {
      var coeffs := [secret[bi]];
      for i := 1 to t
        invariant coeffs == [secret[bi]] + random[bi][..i - 1]
      {
        coeffs := coeffs + [random[bi][i - 1]];
      }
      assert coeffs == [secret[bi]] + random[bi];
      ghost var before := ys;
      for i := 0 to n
        invariant |ys| == n
        invariant forall k :: 0 <= k < n ==>
          ys[k] == if k < i then ValuesAt(secret[..bi + 1], random[..bi + 1], ByteOf(k + 1)) else before[k]
      {
        var y := EvalPoly(tables, coeffs, ByteOf(i + 1));
        NextValue(secret, random, bi, ByteOf(i + 1));
        ys := ys[i := ys[i] + [y]];
      }
    }
    assert secret[..|secret|] == secret && random[..|secret|] == random;
    var shares: seq<string> := [];
    for i := 0 to n
      invariant shares == Shares(secret, random, n)[..i]
    {
      shares := shares + [Show(Share(ByteOf(i + 1), ys[i]))];
    }
    assert shares == Shares(secret, random, n);
    r := Ok(shares);
  }

  predicate AllParse(shares: seq<string>) { forall i :: 0 <= i < |shares| ==> Parse(shares[i]).Some? }

  function Points(shares: seq<string>): (xs: seq<byte>)
    requires AllParse(shares)
  {
    seq(|shares|, i requires 0 <= i < |shares| => Parse(shares[i]).value.x)
  }

  /** Byte b of every share; a byte that a share does not have contributes nothing. */
  function Column(shares: seq<string>, b: nat): (ys: seq<byte>)
    requires AllParse(shares)
  {
    seq(|shares|, i requires 0 <= i < |shares| =>
      var y := Parse(shares[i]).value.y;
      if b < |y| then y[b] else 0)
  }

  /** Byte b of the secret: Lagrange's value at 0. */
  ghost function SecretByte(parts: seq<string>, b: nat): byte
    requires AllParse(parts)
  {
    Lagrange(Points(parts), Column(parts, b), |parts|, 0)
  }

  /** What reconstruction returns: interpolation at 0 of the first t shares, byte by byte. */
  ghost function Reconstruction(shares: seq<string>, t: nat): Result<string, Error> {
    if |shares| < t then Err(InsufficientShares)
    else if t == 0 then Err(NoShares)
    else if !AllParse(shares[..t]) then Err(MalformedShare)
    else
      var (parts, len) := (shares[..t], |Parse(shares[0]).value.y|);
      if len > 0 && !Distinct(Points(parts)) then Err(DivisionByZero)
      else Ok(ToHex(seq(len, b requires 0 <= b < len => SecretByte(parts, b))))
  }

  predicate Parsed(parts: seq<Share>, shares: seq<string>) {
    |parts| == |shares| && forall i :: 0 <= i < |parts| ==> Parse(shares[i]) == Some(parts[i])
  }

  /** Numerator and denominator of the weight of share i. */
  method Fraction(tables: Tables, parts: seq<Share>, ghost xs: seq<byte>, i: nat) returns (num: byte, den: byte)
    requires tables.Valid() && |xs| == |parts| && i < |parts|
    requires forall k :: 0 <= k < |parts| ==> xs[k] == parts[k].x
    ensures num == Product(xs, i, |xs|, 0) && den == Product(xs, i, |xs|, xs[i])
  {
    hide Add, Mul;
    num, den := 1, 1;
    for j := 0 to |parts|
      invariant num == Product(xs, i, j, 0) && den == Product(xs, i, j, xs[i])
    {
      if i != j {
        AddLaws(0, xs[j], 0); AddLaws(xs[j], 0, 0);
        num := tables.GfMul(num, parts[j].x);
        den := tables.GfMul(den, Add(parts[i].x, parts[j].x));
      }
    }
  }

  /** The first k denominators do not vanish. */
  predicate Divisible(xs: seq<byte>, k: nat)
    requires k <= |xs|
  {
    forall i :: 0 <= i < k ==> Product(xs, i, |xs|, xs[i]) != 0
  }

  /** All denominators are nonzero exactly when the points are distinct. */
  lemma DivisibleIff(xs: seq<byte>)
    ensures Divisible(xs, |xs|) <==> Distinct(xs)
  {
    hide Product;
    if Distinct(xs) {
      forall i | 0 <= i < |xs| ensures Product(xs, i, |xs|, xs[i]) != 0 { ProductZero(xs, i, |xs|, xs[i]); }
    } else {
      var i, k :| 0 <= i < k < |xs| && xs[i] == xs[k];
      ProductZero(xs, k, |xs|, xs[k]);
    }
  }

  lemma DivisibleNext(xs: seq<byte>, i: nat)
    requires i < |xs| && Divisible(xs, i)
    ensures Divisible(xs, i + 1) <==> Product(xs, i, |xs|, xs[i]) != 0
    ensures !Divisible(xs, i + 1) ==> !Divisible(xs, |xs|)
  {
    hide Product;
  }

  lemma ColumnAt(parts: seq<Share>, shares: seq<string>, bi: nat)
    requires Parsed(parts, shares)
    ensures AllParse(shares) && |Points(shares)| == |Column(shares, bi)| == |parts| == |shares|
    ensures forall i :: 0 <= i < |parts| ==>
      Points(shares)[i] == parts[i].x && Column(shares, bi)[i] == if bi < |parts[i].y| then parts[i].y[bi] else 0
  {
    hide Parse;
  }

  /** One output byte: Lagrange's value at 0, failing when two points coincide. */
  method InterpolateByte(tables: Tables, parts: seq<Share>, ghost shares: seq<string>, bi: nat)
    returns (secret: Option<byte>)
    requires tables.Valid() && Parsed(parts, shares)
    ensures !Distinct(Points(shares)) ==> secret == None
    ensures Distinct(Points(shares)) ==> secret == Some(SecretByte(shares, bi))
  {
    hide Add, Mul, Parse, Inv, Product, Points, Column, Parsed, AllParse, Distinct, Divisible, Lagrange;
    ColumnAt(parts, shares, bi);
    ghost var xs, ys := Points(shares), Column(shares, bi);
    LagrangeNone(xs, ys);
    DivisibleIff(xs);
    var acc: byte := 0;
    for i := 0 to |parts|
      invariant Divisible(xs, i) && acc == Lagrange(xs, ys, i, 0)
    {
      var num, den := Fraction(tables, parts, xs, i);
      DivisibleNext(xs, i);
      LagrangeNext(xs, ys, i);
      var q := tables.GfDiv(num, den);
      if q == None { return None; }
      var y := if bi < |parts[i].y| then parts[i].y[bi] else 0;
      acc := Add(acc, tables.GfMul(y, q.value));
    }
    secret := Some(acc);
  }

  lemma LagrangeNone(xs: seq<byte>, ys: seq<byte>)
    requires |xs| == |ys|
    ensures Lagrange(xs, ys, 0, 0) == 0 && Divisible(xs, 0)
  {
  }

  lemma LagrangeNext(xs: seq<byte>, ys: seq<byte>, i: nat)
    requires |xs| == |ys| && i < |xs|
    ensures Lagrange(xs, ys, i + 1, 0)
      == Add(Lagrange(xs, ys, i, 0), Mul(ys[i], Mul(Product(xs, i, |xs|, 0), Inv(Product(xs, i, |xs|, xs[i])))))
  {
    hide Add, Mul, Product;
  }

  method ReconstructSecret(tables: Tables, shares: seq<string>, t: nat) returns (r: Result<string, Error>)
    requires tables.Valid()
    ensures r == Reconstruction(shares, t)
  {
    hide Parse, SecretByte, ToHex;
    if |shares| < t { return Err(InsufficientShares); }
    if t == 0 { return Err(NoShares); }
    var parts: seq<Share> := [];
    for i := 0 to t
      invariant |parts| == i
      invariant forall k :: 0 <= k < i ==> Parse(shares[k]) == Some(parts[k])
    {
      var p := Parse(shares[i]);
      if p == None {
        assert shares[..t][i] == shares[i];
        return Err(MalformedShare);
      }
      parts := parts + [p.value];
    }
    ghost var first := shares[..t];
    assert Parsed(parts, first);
    var len := |parts[0].y|;
    var out: seq<byte> := [];
    for bi := 0 to len
      invariant |out| == bi
      invariant bi > 0 ==> Distinct(Points(first))
      invariant Distinct(Points(first)) ==> forall b :: 0 <= b < bi ==> out[b] == SecretByte(first, b)
    {
      var s := InterpolateByte(tables, parts, first, bi);
      if s == None { return Err(DivisionByZero); }
      out := out + [s.value];
    }
    assert len > 0 ==> out == seq(len, b requires 0 <= b < len => SecretByte(first, b));
    r := Ok(ToHex(out));
  }

  /** Reconstruction fails exactly when there are too few shares or none is asked for, when one of those used is not a
      share text, or when two of them lie at one point and there is a byte to interpolate. */
  lemma ReconstructedIff(shares: seq<string>, t: nat)
    ensures var r := Reconstruction(shares, t);
      && (r == Err(InsufficientShares) <==> |shares| < t)
      && (r == Err(NoShares) <==> t == 0)
      && (r == Err(MalformedShare) <==> 0 < t <= |shares| && exists i :: 0 <= i < t && Parse(shares[i]) == None)
      && (r == Err(DivisionByZero) <==>
           && 0 < t <= |shares| && (forall i :: 0 <= i < t ==> Parse(shares[i]).Some?) && Parse(shares[0]).value.y != []
           && exists i, j :: 0 <= i < j < t && Parse(shares[i]).value.x == Parse(shares[j]).value.x)
      && (r.Err? ==> r.error in {InsufficientShares, NoShares, MalformedShare, DivisionByZero})
  {
    hide Parse, SecretByte;
    if 0 < t <= |shares| {
      var parts := shares[..t];
      assert AllParse(parts) <==> forall i :: 0 <= i < t ==> Parse(shares[i]).Some?;
      if AllParse(parts) && exists i, j :: 0 <= i < j < t && Parse(shares[i]).value.x == Parse(shares[j]).value.x {
        var i, j :| 0 <= i < j < t && Parse(shares[i]).value.x == Parse(shares[j]).value.x;
        assert Points(parts)[i] == Points(parts)[j];
      }
    }
  }

  /** Positions of distinct shares, in any order. */
  predicate Selection(pick: seq<nat>, n: nat) {
    && (forall k :: 0 <= k < |pick| ==> pick[k] < n)
    && (forall k, l :: 0 <= k < l < |pick| ==> pick[k] != pick[l])
  }

  function Selected(shares: seq<string>, pick: seq<nat>): seq<string>
    requires Selection(pick, |shares|)
  {
    seq(|pick|, k requires 0 <= k < |pick| => shares[pick[k]])
  }

  function SelectedPoints(pick: seq<nat>): seq<byte>
    requires Selection(pick, 255)
  {
    seq(|pick|, k requires 0 <= k < |pick| => ByteOf(pick[k] + 1))
  }

  /** Distinct shares lie at distinct nonzero points. */
  lemma PointsDistinct(pick: seq<nat>)
    requires Selection(pick, 255)
    ensures Distinct([0] + SelectedPoints(pick))
  {
    hide ByteOf;
    var xs := SelectedPoints(pick);
    NatByteOf(0);
    forall k | 0 <= k < |pick| ensures xs[k] != 0 { NatByteOf(pick[k] + 1); NatZero(); }
    forall k, l | 0 <= k < l < |pick| ensures xs[k] != xs[l] { NatByteOf(pick[k] + 1); NatByteOf(pick[l] + 1); }
  }

  lemma NatZero()
    ensures Nat(0) == 0
  {
  }

  /** Any selection of at least t distinct shares, in any order, reconstructs the bytes that were split. */
  lemma RoundTripBytes(secret: seq<byte>, random: seq<seq<byte>>, n: nat, t: nat, pick: seq<nat>)
    requires ValidParameters(n, t) && Coefficients(random, secret, t)
    requires Selection(pick, n) && |pick| >= t
    ensures Reconstruction(Selected(Shares(secret, random, n), pick), t) == Ok(ToHex(secret))
  {
    hide Eval, Lagrange, ByteOf, Show, Parse, Product;
    var shares := Selected(Shares(secret, random, n), pick);
    var parts, used := shares[..t], pick[..t];
    forall k | 0 <= k < t ensures Parse(parts[k]) == Some(ShareOf(secret, random, pick[k])) {
      ParseShow(ShareOf(secret, random, pick[k]));
    }
    var xs := SelectedPoints(used);
    assert Points(parts) == xs;
    PointsDistinct(used);
    assert Distinct(xs) by { assert forall k :: 0 <= k < |xs| ==> ([0] + xs)[k + 1] == xs[k]; }
    assert Parse(shares[0]) == Parse(parts[0]);
    forall b | 0 <= b < |secret| ensures SecretByte(parts, b) == secret[b] {
      var p := [secret[b]] + random[b];
      LagrangeRecovers(p, xs, Column(parts, b));
    }
    assert secret == seq(|secret|, b requires 0 <= b < |secret| => SecretByte(parts, b));
  }

  /** Splitting and reconstructing returns the text that was split exactly when that text is
      even-length lower-case hexadecimal; otherwise it returns the normal form of what was decoded. */
  lemma RoundTrip(secretHex: string, random: seq<seq<byte>>, n: nat, t: nat, pick: seq<nat>)
    requires ValidParameters(n, t) && Coefficients(random, FromHex(secretHex), t)
    requires Selection(pick, n) && |pick| >= t
    ensures var r := Reconstruction(Selected(Shares(FromHex(secretHex), random, n), pick), t);
      r.Ok? && FromHex(r.value) == FromHex(secretHex) && (r.value == secretHex <==> LowerHex(secretHex))
  {
    RoundTripBytes(FromHex(secretHex), random, n, t, pick);
    FromToHex(FromHex(secretHex));
    ToFromHex(secretHex);
  }

  /** The polynomial through a chosen constant term and given values at |xs| further points. */
  lemma Through(xs: seq<byte>, ys: seq<byte>, secret: byte) returns (p: seq<byte>)
    requires |xs| == |ys| && Distinct([0] + xs)
    ensures |p| == |xs| + 1 && p[0] == secret
    ensures forall k :: 0 <= k < |xs| ==> Eval(p, xs[k]) == ys[k]
    ensures forall q :: |q| == |p| && q[0] == secret && (forall k :: 0 <= k < |xs| ==> Eval(q, xs[k]) == ys[k]) ==>
      q == p
  {
    hide Eval, Lagrange, Interpolant, Product, Mul, Add;
    var us, vs := [0] + xs, [secret] + ys;
    p := Interpolant(us, vs, |us|);
    forall k | 0 <= k < |us| ensures Eval(p, us[k]) == vs[k] {
      EvalInterpolant(us, vs, |us|, us[k]);
      LagrangeAtPoint(us, vs, |us|, k);
    }
    EvalAtZero(p);
    forall k | 0 <= k < |xs| ensures Eval(p, xs[k]) == ys[k] { assert us[k + 1] == xs[k] && vs[k + 1] == ys[k]; }
    forall q | |q| == |p| && q[0] == secret && (forall k :: 0 <= k < |xs| ==> Eval(q, xs[k]) == ys[k]) ensures q == p {
      EvalAtZero(q);
      forall k | 0 <= k < |us| ensures Eval(q, us[k]) == Eval(p, us[k]) {
        if k > 0 { assert us[k] == xs[k - 1] && vs[k] == ys[k - 1]; }
      }
      AgreementUnique(q, p, us);
    }
  }

  /** Two secrets with their coefficients give the same shares at the selected positions. */
  ghost predicate SameShares(secret: seq<byte>, random: seq<seq<byte>>, other: seq<byte>, random': seq<seq<byte>>,
                             pick: seq<nat>)
    requires |random| == |secret| && |random'| == |other| && Selection(pick, 255)
  {
    forall k :: 0 <= k < |pick| ==> ShareOf(secret, random, pick[k]) == ShareOf(other, random', pick[k])
  }

  /** The same for one byte: constant terms c and d with coefficients v and w agree at all the points. */
  ghost predicate SameByte(c: byte, v: seq<byte>, d: byte, w: seq<byte>, xs: seq<byte>) {
    forall k :: 0 <= k < |xs| ==> Eval([c] + v, xs[k]) == Eval([d] + w, xs[k])
  }

  lemma SameBytes(secret: seq<byte>, random: seq<seq<byte>>, other: seq<byte>, random': seq<seq<byte>>, pick: seq<nat>)
    requires |random| == |secret| == |other| == |random'| && Selection(pick, 255)
    ensures SameShares(secret, random, other, random', pick) <==>
      forall b :: 0 <= b < |secret| ==> SameByte(secret[b], random[b], other[b], random'[b], SelectedPoints(pick))
  {
    hide Eval, ByteOf;
    var xs := SelectedPoints(pick);
    if SameShares(secret, random, other, random', pick) {
      forall b, k | 0 <= b < |secret| && 0 <= k < |xs|
        ensures Eval([secret[b]] + random[b], xs[k]) == Eval([other[b]] + random'[b], xs[k])
      {
        assert ShareOf(secret, random, pick[k]).y[b] == ShareOf(other, random', pick[k]).y[b];
      }
    }
    if forall b :: 0 <= b < |secret| ==> SameByte(secret[b], random[b], other[b], random'[b], xs) {
      forall k | 0 <= k < |pick| ensures ShareOf(secret, random, pick[k]) == ShareOf(other, random', pick[k]) {
        forall b | 0 <= b < |secret|
          ensures Eval([secret[b]] + random[b], xs[k]) == Eval([other[b]] + random'[b], xs[k])
        {
          assert SameByte(secret[b], random[b], other[b], random'[b], xs);
        }
        assert ValuesAt(secret, random, xs[k]) == ValuesAt(other, random', xs[k]);
      }
    }
  }

  lemma OtherCoefficients(c: byte, v: seq<byte>, d: byte, xs: seq<byte>) returns (w: seq<byte>)
    requires |v| == |xs| && Distinct([0] + xs)
    ensures |w| == |xs| && SameByte(c, v, d, w, xs)
    ensures forall u: seq<byte> :: |u| == |xs| && SameByte(c, v, d, u, xs) ==> u == w
  {
    hide Eval;
    var ys := seq(|xs|, k requires 0 <= k < |xs| => Eval([c] + v, xs[k]));
    var p := Through(xs, ys, d);
    w := p[1..];
    assert p == [d] + w;
    forall u: seq<byte> | |u| == |xs| && SameByte(c, v, d, u, xs) ensures u == w {
      assert [d] + u == p;
      assert u == ([d] + u)[1..];
    }
  }

  /** Any t - 1 distinct shares are shares of every other secret of that length too, through exactly one
      choice of coefficients: they determine nothing about the secret but its length. */
  lemma BelowThreshold(secret: seq<byte>, random: seq<seq<byte>>, t: nat, pick: seq<nat>, other: seq<byte>)
    returns (random': seq<seq<byte>>)
    requires t >= 2 && Coefficients(random, secret, t) && |other| == |secret|
    requires Selection(pick, 255) && |pick| == t - 1
    ensures Coefficients(random', other, t) && SameShares(secret, random, other, random', pick)
    ensures forall r :: Coefficients(r, other, t) && SameShares(secret, random, other, r, pick) ==> r == random'
  {
    hide SameShares, SameByte, SelectedPoints;
    PointsDistinct(pick);
    var xs := SelectedPoints(pick);
    assert |xs| == t - 1 by { SelectedSize(pick); }
    random' := [];
    for b := 0 to |secret|
      invariant |random'| == b
      invariant forall c :: 0 <= c < b ==>
        |random'[c]| == |xs| && SameByte(secret[c], random[c], other[c], random'[c], xs)
      invariant forall c, u :: 0 <= c < b && |u| == |xs| && SameByte(secret[c], random[c], other[c], u, xs) ==>
        u == random'[c]
    {
      var w := OtherCoefficients(secret[b], random[b], other[b], xs);
      random' := random' + [w];
    }
    SameBytes(secret, random, other, random', pick);
    forall r | Coefficients(r, other, t) && SameShares(secret, random, other, r, pick) ensures r == random' {
      SameBytes(secret, random, other, r, pick);
    }
  }

  lemma SelectedSize(pick: seq<nat>)
    requires Selection(pick, 255)
    ensures |SelectedPoints(pick)| == |pick|
  {
  }
}
