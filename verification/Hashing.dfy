/** What the proofs assume of a hash function: no collisions, and outputs that are hexadecimal text. */
module Hashing {
  import opened Text

  predicate Plain(s: string) { forall c :: c in s ==> LowerHexDigit(c) }

  ghost predicate GoodHash(sha: string -> string) {
    && (forall x :: Plain(sha(x)))
    && (forall x, y :: sha(x) == sha(y) ==> x == y)
  }

  /** Text before and after the last occurrence of a separator. */
  lemma SplitLast(a: string, b: string, c: string, d: string, sep: char)
    requires sep !in b && sep !in d
    requires a + [sep] + b == c + [sep] + d
    ensures a == c && b == d
  {
    var s, t := a + [sep] + b, c + [sep] + d;
    assert s[|a|] == sep && forall k :: |a| < k < |s| ==> s[k] == b[k - |a| - 1];
    assert t[|c|] == sep && forall k :: |c| < k < |t| ==> t[k] == d[k - |c| - 1];
    assert a == s[..|a|] && c == t[..|c|];
    assert b == s[|a| + 1..] && d == t[|c| + 1..];
  }

  lemma SplitFirst(a: string, b: string, c: string, d: string, sep: char)
    requires sep !in a && sep !in c
    requires a + [sep] + b == c + [sep] + d
    ensures a == c && b == d
  {
    var s, t := a + [sep] + b, c + [sep] + d;
    assert s[|a|] == sep && forall k :: 0 <= k < |a| ==> s[k] == a[k];
    assert t[|c|] == sep && forall k :: 0 <= k < |c| ==> t[k] == c[k];
    assert a == s[..|a|] && c == t[..|c|];
    assert b == s[|a| + 1..] && d == t[|c| + 1..];
  }

  lemma Prefixed(p: string, a: string, b: string)
    requires p + a == p + b
    ensures a == b
  {
    assert a == (p + a)[|p|..] && b == (p + b)[|p|..];
  }

  function Ones(n: nat): string { seq(n, _ => '1') }

  /** Each character in unary, ended by a zero. */
  function Unary(s: string): string {
    if |s| == 0 then "" else Ones(s[0] as nat) + ['0'] + Unary(s[1..])
  }

  lemma {:induction false} UnaryInjective(x: string, y: string)
    requires Unary(x) == Unary(y)
    ensures x == y
  {
    hide Ones;
    if |x| > 0 && |y| > 0 {
      OnesPlain(x[0] as nat); OnesPlain(y[0] as nat);
      SplitFirst(Ones(x[0] as nat), Unary(x[1..]), Ones(y[0] as nat), Unary(y[1..]), '0');
      UnaryInjective(x[1..], y[1..]);
    }
  }

  lemma OnesPlain(n: nat)
    ensures |Ones(n)| == n && '0' !in Ones(n) && Plain(Ones(n))
  {
  }

  lemma {:induction false} UnaryPlain(x: string)
    ensures Plain(Unary(x))
  {
    if |x| > 0 {
      OnesPlain(x[0] as nat);
      UnaryPlain(x[1..]);
    }
  }

  /** The assumption can be met. */
  lemma GoodHashExists()
    ensures GoodHash(Unary)
  {
    forall x ensures Plain(Unary(x)) { UnaryPlain(x); }
    forall x, y | Unary(x) == Unary(y) ensures x == y { UnaryInjective(x, y); }
  }
}
