/** Text forms of bytes and whole numbers: hexadecimal and decimal. */
module Text {
  import opened Wrappers
  import opened GF256

  /** The number written in a byte, and back. */
  function Nat(b: byte): (n: nat)
    ensures n < 256 && ByteOf(n) == b
  {
    b as int
  }

  function ByteOf(n: nat): byte
    requires n < 256
  {
    n as byte
  }

  lemma NatByteOf(n: nat)
    requires n < 256
    ensures Nat(ByteOf(n)) == n
  {
    Cast(n);
  }

  lemma Successor(b: byte)
    requires b != 255
    ensures (b + 1) as int == b as int + 1
  {
  }

  lemma Extremes()
    ensures (0 as byte) as int == 0 && (255 as byte) as int == 255
  {
  }

  lemma {:induction false} SomeByte(n: nat) returns (b: byte)
    requires n < 256
    ensures b as int == n
  {
    hide *;
    Extremes();
    if n == 0 {
      b := 0;
    } else {
      var c := SomeByte(n - 1);
      Successor(c);
      b := c + 1;
    }
  }

  lemma BackAgain(b: byte)
    ensures 0 <= b as int < 256 && (b as int) as byte == b
  {
  }

  lemma Cast(n: int)
    requires 0 <= n < 256
    ensures (n as byte) as int == n
  {
    hide *;
    var b := SomeByte(n);
    BackAgain(b);
  }

  function Digit(n: nat): char
    requires n < 16
  {
    if n < 10 then '0' + n as char else 'a' + (n - 10) as char
  }

  function DigitValue(c: char): Option<nat> {
    if '0' <= c <= '9' then Some((c - '0') as nat)
    else if 'a' <= c <= 'f' then Some((c - 'a') as nat + 10)
    else if 'A' <= c <= 'F' then Some((c - 'A') as nat + 10)
    else None
  }

  predicate LowerHexDigit(c: char) { '0' <= c <= '9' || 'a' <= c <= 'f' }

  lemma DigitRoundTrip(n: nat, c: char)
    ensures n < 16 ==> DigitValue(Digit(n)) == Some(n) && LowerHexDigit(Digit(n))
    ensures DigitValue(c).Some? ==> DigitValue(c).value < 16
    ensures LowerHexDigit(c) <==> DigitValue(c).Some? && DigitValue(c).value < 16 && Digit(DigitValue(c).value) == c
  {
  }

  function ToHex(bs: seq<byte>): (s: string)
    ensures |s| == 2 * |bs|
  {
    if |bs| == 0 then "" else [Digit(Nat(bs[0]) / 16), Digit(Nat(bs[0]) % 16)] + ToHex(bs[1..])
  }

  /** Decodes pairs of digits up to the first pair that is not one. */
  function FromHex(s: string): seq<byte> {
    if |s| < 2 || DigitValue(s[0]).None? || DigitValue(s[1]).None? then []
    else
      DigitRoundTrip(0, s[0]);
      DigitRoundTrip(0, s[1]);
      [ByteOf(16 * DigitValue(s[0]).value + DigitValue(s[1]).value)] + FromHex(s[2..])
  }

  lemma {:induction false} FromToHex(bs: seq<byte>)
    ensures FromHex(ToHex(bs)) == bs
  {
    hide ByteOf, Digit, DigitValue;
    if |bs| > 0 {
      var n, s := Nat(bs[0]), ToHex(bs);
      DigitRoundTrip(n / 16, ' '); DigitRoundTrip(n % 16, ' ');
      FromToHex(bs[1..]);
      assert s[2..] == ToHex(bs[1..]);
      assert 16 * (n / 16) + n % 16 == n;
    }
  }

  predicate LowerHex(s: string) { |s| % 2 == 0 && forall i :: 0 <= i < |s| ==> LowerHexDigit(s[i]) }

  lemma {:induction false} ToHexLower(bs: seq<byte>)
    ensures LowerHex(ToHex(bs))
  {
    hide Digit, LowerHexDigit;
    if |bs| > 0 {
      DigitRoundTrip(Nat(bs[0]) / 16, ' '); DigitRoundTrip(Nat(bs[0]) % 16, ' ');
      ToHexLower(bs[1..]);
      var t := ToHex(bs[1..]);
      forall i | 0 <= i < |ToHex(bs)| ensures LowerHexDigit(ToHex(bs)[i]) {
        if i >= 2 { assert ToHex(bs)[i] == t[i - 2]; }
      }
    }
  }

  /** Exactly the even-length lower-case hexadecimal strings survive decoding and encoding. */
  lemma {:induction false} ToFromHex(s: string)
    ensures ToHex(FromHex(s)) == s <==> LowerHex(s)
  {
    ToHexLower(FromHex(s));
    if LowerHex(s) && |s| > 0 {
      hide ByteOf, Digit, DigitValue, LowerHexDigit;
      var a, b := s[0], s[1];
      DigitRoundTrip(0, a); DigitRoundTrip(0, b);
      var n := 16 * DigitValue(a).value + DigitValue(b).value;
      NatByteOf(n);
      assert LowerHex(s[2..]);
      ToFromHex(s[2..]);
      assert n / 16 == DigitValue(a).value && n % 16 == DigitValue(b).value;
      assert s == [a, b] + s[2..];
      assert FromHex(s)[1..] == FromHex(s[2..]);
    }
  }

  function Decimal(n: nat): (s: string)
    ensures |s| > 0
  {
    if n < 10 then [Digit(n)] else Decimal(n / 10) + [Digit(n % 10)]
  }

  function ParseDecimal(s: string): Option<nat> {
    if |s| == 0 then None
    else
      var (init, last) := (s[..|s| - 1], s[|s| - 1]);
      if !('0' <= last <= '9') then None
      else if |s| == 1 then Some((last - '0') as nat)
      else
        match ParseDecimal(init)
        case None => None
        case Some(n) => Some(10 * n + (last - '0') as nat)
  }

  lemma {:induction false} DecimalRoundTrip(n: nat)
    ensures ParseDecimal(Decimal(n)) == Some(n)
    ensures forall i :: 0 <= i < |Decimal(n)| ==> '0' <= Decimal(n)[i] <= '9'
  {
    if n >= 10 {
      DecimalRoundTrip(n / 10);
      assert Decimal(n)[..|Decimal(n)| - 1] == Decimal(n / 10);
    }
  }

  /* Whole numbers as text, with a sign */

  function Numeral(n: int): (s: string)
    ensures |s| > 0
  {
    if n < 0 then "-" + Decimal(-n) else Decimal(n)
  }

  function ParseNumeral(s: string): Option<int> {
    if s == "" then Some(0)
    else
      var (digits, sign) := if s[0] == '-' then (s[1..], -1) else (s, 1);
      match ParseDecimal(digits)
      case None => None
      case Some(n) => Some(sign * n)
  }

  lemma NumeralRoundTrip(n: int)
    ensures ParseNumeral(Numeral(n)) == Some(n)
  {
    hide Decimal, ParseDecimal;
    if n < 0 {
      DecimalRoundTrip(-n);
      assert Numeral(n)[1..] == Decimal(-n);
    } else {
      DecimalRoundTrip(n);
    }
  }
}
