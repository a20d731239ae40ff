/** The sorted-pair Merkle tree: each level hashes neighbours, pairing an odd last node with itself. */
module Merkle {
  import opened Text
  import opened Hashing

  /** Order of strings by their first differing character. */
  predicate Le(a: string, b: string) {
    if |a| == 0 then true
    else if |b| == 0 then false
    else a[0] < b[0] || (a[0] == b[0] && Le(a[1..], b[1..]))
  }

  lemma {:induction false} LeOrder(a: string, b: string)
    ensures Le(a, b) || Le(b, a)
    ensures Le(a, b) && Le(b, a) ==> a == b
  {
    if |a| > 0 && |b| > 0 {
      LeOrder(a[1..], b[1..]);
      assert a == [a[0]] + a[1..] && b == [b[0]] + b[1..];
    }
  }

  function PairText(a: string, b: string): string { "L:" + a + "|R:" + b }

  function HashPair(sha: string -> string, a: string, b: string): string {
    sha(if Le(a, b) then PairText(a, b) else PairText(b, a))
  }

  lemma HashPairComm(sha: string -> string, a: string, b: string)
    ensures HashPair(sha, a, b) == HashPair(sha, b, a)
  {
    LeOrder(a, b);
  }

  lemma PairTextInjective(x: string, y: string, a: string, b: string)
    requires Plain(a) && Plain(b) && PairText(x, y) == PairText(a, b)
    ensures x == a && y == b
  {
    var s, t := PairText(x, y), PairText(a, b);
    var u, v := x + "|R:" + y, a + "|R:" + b;
    assert s == "L:" + u && t == "L:" + v;
    Prefixed("L:", u, v);
    // The bar is found in v only where a ends.
    assert u[|x|] == '|' && v[|a| + 1] == 'R' && v[|a| + 2] == ':' && !LowerHexDigit('|');
    assert forall k :: 0 <= k < |a| ==> v[k] == a[k];
    assert forall k :: |a| + 2 < k < |v| ==> v[k] == b[k - |a| - 3];
    assert x == u[..|x|] && a == v[..|a|] && y == u[|x| + 3..] && b == v[|a| + 3..];
  }

  /** A pair hash of plain strings determines the pair up to order, against any two strings. */
  lemma HashPairInjective(sha: string -> string, x: string, y: string, a: string, b: string)
    requires GoodHash(sha) && Plain(a) && Plain(b) && HashPair(sha, x, y) == HashPair(sha, a, b)
    ensures (x == a && y == b) || (x == b && y == a)
  {
    hide PairText, Plain;
    var (x1, y1) := if Le(x, y) then (x, y) else (y, x);
    var (a1, b1) := if Le(a, b) then (a, b) else (b, a);
    PairTextInjective(x1, y1, a1, b1);
  }

  function NextLevel(sha: string -> string, level: seq<string>): seq<string> {
    seq((|level| + 1) / 2, i requires 0 <= i < (|level| + 1) / 2 =>
      HashPair(sha, level[2 * i], if 2 * i + 1 < |level| then level[2 * i + 1] else level[2 * i]))
  }

  function Root(sha: string -> string, level: seq<string>): string
    decreases |level|
  {
    if |level| == 0 then sha("nyx:empty")
    else if |level| == 1 then level[0] else Root(sha, NextLevel(sha, level))
  }

  function Sibling(level: seq<string>, i: nat): string
    requires i < |level|
  {
    if i % 2 == 1 then level[i - 1] else if i + 1 < |level| then level[i + 1] else level[i]
  }

  function Path(sha: string -> string, level: seq<string>, i: nat): seq<string>
    requires i < |level|
    decreases |level|
  {
    if |level| == 1 then [] else [Sibling(level, i)] + Path(sha, NextLevel(sha, level), i / 2)
  }

  /** Hashes a node upward along a path. */
  function Fold(sha: string -> string, node: string, path: seq<string>): string
    decreases |path|
  {
    if |path| == 0 then node else Fold(sha, HashPair(sha, node, path[0]), path[1..])
  }

  method MerkleRoot(sha: string -> string, leaves: seq<string>) returns (root: string)
    ensures root == Root(sha, leaves)
  {
    hide HashPair;
    if |leaves| == 0 { return sha("nyx:empty"); }
    var level := leaves;
    while |level| > 1
      invariant |level| > 0 && Root(sha, level) == Root(sha, leaves)
      decreases |level|
    {
      var next := LevelUp(sha, level);
      level := next;
    }
    root := level[0];
  }

  method LevelUp(sha: string -> string, level: seq<string>) returns (next: seq<string>)
    ensures next == NextLevel(sha, level)
  {
    hide HashPair;
    next := [];
    var i := 0;
    while i < |level|
      invariant i == 2 * |next| && |next| <= (|level| + 1) / 2
      invariant next == NextLevel(sha, level)[..|next|]
    {
      var left := level[i];
      var right := if i + 1 < |level| then level[i + 1] else left;
      next := next + [HashPair(sha, left, right)];
      i := i + 2;
    }
  }

  method MerkleProof(sha: string -> string, leaves: seq<string>, index: nat) returns (proof: seq<string>)
    requires index < |leaves|
    ensures proof == Path(sha, leaves, index)
  {
    hide HashPair, Path, NextLevel;
    proof := [];
    var level, idx: nat := leaves, index;
    while |level| > 1
      invariant idx < |level| && proof + Path(sha, level, idx) == Path(sha, leaves, index)
      decreases |level|
    {
      var sibling := if idx % 2 == 0 then if idx + 1 < |level| then level[idx + 1] else level[idx] else level[idx - 1];
      var next := LevelUp(sha, level);
      PathUp(sha, level, idx);
      assert proof + ([sibling] + Path(sha, next, idx / 2)) == (proof + [sibling]) + Path(sha, next, idx / 2);
      proof := proof + [sibling];
      level, idx := next, idx / 2;
    }
    PathTop(sha, level, idx);
  }

  lemma PathUp(sha: string -> string, level: seq<string>, i: nat)
    requires i < |level| && |level| > 1
    ensures |NextLevel(sha, level)| == (|level| + 1) / 2
    ensures Path(sha, level, i) == [Sibling(level, i)] + Path(sha, NextLevel(sha, level), i / 2)
  {
    hide HashPair, Sibling;
  }

  lemma PathTop(sha: string -> string, level: seq<string>, i: nat)
    requires i < |level| == 1
    ensures Path(sha, level, i) == []
  {
  }

  method VerifyMerkle(sha: string -> string, leaf: string, proof: seq<string>, root: string) returns (ok: bool)
    ensures ok <==> Fold(sha, leaf, proof) == root
  {
    hide HashPair;
    var h := leaf;
    for i := 0 to |proof|
      invariant Fold(sha, h, proof[i..]) == Fold(sha, leaf, proof)
    {
      h := HashPair(sha, h, proof[i]);
      assert proof[i..][1..] == proof[i + 1..];
    }
    ok := h == root;
  }

  function Height(n: nat): nat { if n <= 1 then 0 else 1 + Height((n + 1) / 2) }

  function Exp2(k: nat): nat { if k == 0 then 1 else 2 * Exp2(k - 1) }

  /** The height is the rounded-up binary logarithm. */
  lemma {:induction false} HeightIsLog(n: nat)
    requires n > 0
    ensures n <= Exp2(Height(n)) && (n > 1 ==> Exp2(Height(n) - 1) < n)
  {
    if n > 1 {
      HeightIsLog((n + 1) / 2);
    }
  }

  /** The path of a leaf leads to the root, and its length is the rounded-up logarithm of the leaf count. */
  lemma {:induction false} PathLeadsToRoot(sha: string -> string, level: seq<string>, i: nat)
    requires i < |level|
    ensures Fold(sha, level[i], Path(sha, level, i)) == Root(sha, level)
    ensures |Path(sha, level, i)| == Height(|level|)
    decreases |level|
  {
    hide HashPair, Sibling, NextLevel;
    if |level| > 1 {
      ParentOf(sha, level, i);
      var next, s := NextLevel(sha, level), Sibling(level, i);
      PathLeadsToRoot(sha, next, i / 2);
      var rest := Path(sha, next, i / 2);
      assert ([s] + rest)[1..] == rest;
      assert Fold(sha, level[i], [s] + rest) == Fold(sha, HashPair(sha, level[i], s), rest);
    }
  }

  lemma ParentOf(sha: string -> string, level: seq<string>, i: nat)
    requires i < |level|
    ensures |NextLevel(sha, level)| == (|level| + 1) / 2
    ensures NextLevel(sha, level)[i / 2] == HashPair(sha, level[i], Sibling(level, i))
  {
    hide HashPair;
    var j := i / 2;
    assert i == 2 * j || i == 2 * j + 1;
    HashPairComm(sha, level[i], Sibling(level, i));
  }

  /** x is a leaf or an inner node of the tree. */
  predicate InTree(sha: string -> string, level: seq<string>, x: string)
    decreases |level|
  {
    x in level || (|level| > 1 && InTree(sha, NextLevel(sha, level), x))
  }

  ghost predicate IsPairHash(sha: string -> string, x: string) {
    exists a, b :: x == HashPair(sha, a, b)
  }

  predicate PlainLevel(level: seq<string>) { forall x :: x in level ==> Plain(x) }

  /** Leaves that are plain text and not themselves pair hashes. */
  ghost predicate Leaves(sha: string -> string, level: seq<string>) {
    |level| > 0 && PlainLevel(level) && forall x :: x in level ==> !IsPairHash(sha, x)
  }

  lemma NextPlain(sha: string -> string, level: seq<string>)
    requires GoodHash(sha)
    ensures PlainLevel(NextLevel(sha, level))
    ensures forall x :: x in NextLevel(sha, level) ==> IsPairHash(sha, x)
  {
    hide Plain, Le, PairText;
  }

  lemma {:induction false} RootInTree(sha: string -> string, level: seq<string>)
    requires |level| > 0
    ensures InTree(sha, level, Root(sha, level))
    decreases |level|
  {
    hide HashPair;
    if |level| > 1 { RootInTree(sha, NextLevel(sha, level)); }
  }

  /** Inner nodes are pair hashes. */
  lemma {:induction false} InnerIsPairHash(sha: string -> string, level: seq<string>, x: string)
    requires GoodHash(sha) && InTree(sha, level, x) && x !in level
    ensures IsPairHash(sha, x)
    decreases |level|
  {
    hide HashPair, IsPairHash, Plain;
    var next := NextLevel(sha, level);
    NextPlain(sha, level);
    if x !in next { InnerIsPairHash(sha, next, x); }
  }

  /** The two arguments of an inner node's hash are nodes of the tree. */
  lemma {:induction false} ChildInTree(sha: string -> string, level: seq<string>, h: string, s: string)
    requires GoodHash(sha) && PlainLevel(level)
    requires InTree(sha, level, HashPair(sha, h, s)) && HashPair(sha, h, s) !in level
    ensures InTree(sha, level, h)
    decreases |level|
  {
    hide HashPair, Plain;
    var next, d := NextLevel(sha, level), HashPair(sha, h, s);
    NextPlain(sha, level);
    if d in next {
      var i :| 0 <= i < |next| && next[i] == d;
      var b := if 2 * i + 1 < |level| then level[2 * i + 1] else level[2 * i];
      HashPairInjective(sha, h, s, level[2 * i], b);
    } else {
      ChildInTree(sha, next, h, s);
    }
  }

  lemma {:induction false} FoldSnoc(sha: string -> string, x: string, path: seq<string>, s: string)
    ensures Fold(sha, x, path + [s]) == HashPair(sha, Fold(sha, x, path), s)
    decreases |path|
  {
    hide HashPair;
    if |path| == 0 {
      assert [s][1..] == [];
    } else {
      FoldSnoc(sha, HashPair(sha, x, path[0]), path[1..], s);
      assert (path + [s])[1..] == path[1..] + [s];
    }
  }

  lemma {:induction false} FoldStaysInTree(sha: string -> string, level: seq<string>, x: string, path: seq<string>)
    requires GoodHash(sha) && Leaves(sha, level) && InTree(sha, level, Fold(sha, x, path))
    ensures InTree(sha, level, x)
    decreases |path|
  {
    hide HashPair, Plain, InTree;
    if |path| > 0 {
      var init, s := path[..|path| - 1], path[|path| - 1];
      assert path == init + [s];
      FoldSnoc(sha, x, init, s);
      ChildInTree(sha, level, Fold(sha, x, init), s);
      FoldStaysInTree(sha, level, x, init);
    }
  }

  /** Some path of x is accepted exactly when x is a node of the tree. */
  lemma AcceptedIff(sha: string -> string, level: seq<string>, x: string)
    requires GoodHash(sha) && Leaves(sha, level)
    ensures (exists path :: Fold(sha, x, path) == Root(sha, level)) <==> InTree(sha, level, x)
  {
    hide HashPair, Plain, InTree, Fold;
    RootInTree(sha, level);
    if path :| Fold(sha, x, path) == Root(sha, level) {
      FoldStaysInTree(sha, level, x, path);
    }
    if InTree(sha, level, x) {
      var path := NodePath(sha, level, x);
    }
  }

  lemma {:induction false} NodePath(sha: string -> string, level: seq<string>, x: string) returns (path: seq<string>)
    requires InTree(sha, level, x)
    ensures Fold(sha, x, path) == Root(sha, level)
    decreases |level|
  {
    hide HashPair, Fold;
    if x in level {
      var i :| 0 <= i < |level| && level[i] == x;
      path := Path(sha, level, i);
      PathLeadsToRoot(sha, level, i);
    } else {
      path := NodePath(sha, NextLevel(sha, level), x);
    }
  }

  /** Membership: a string that is not a pair hash has an accepted path exactly when it is a leaf. */
  lemma MembershipIff(sha: string -> string, leaves: seq<string>, x: string)
    requires GoodHash(sha) && Leaves(sha, leaves) && !IsPairHash(sha, x)
    ensures (exists path :: Fold(sha, x, path) == Root(sha, leaves)) <==> x in leaves
  {
    hide HashPair, Plain, Fold, IsPairHash;
    AcceptedIff(sha, leaves, x);
    if InTree(sha, leaves, x) && x !in leaves { InnerIsPairHash(sha, leaves, x); }
  }

  /** Equal roots have the same leaves. */
  lemma RootDeterminesLeaves(sha: string -> string, a: seq<string>, b: seq<string>)
    requires GoodHash(sha) && Leaves(sha, a) && Leaves(sha, b) && Root(sha, a) == Root(sha, b)
    ensures forall x :: x in a <==> x in b
  {
    hide HashPair, Plain, Root, Fold, IsPairHash;
    forall x | x in a ensures x in b { MembershipIff(sha, a, x); MembershipIff(sha, b, x); }
    forall x | x in b ensures x in a { MembershipIff(sha, a, x); MembershipIff(sha, b, x); }
  }

  /* Which lists share a root */

  /** A tree over two or more pair hashes has a root that combines two of them. */
  lemma {:induction false} RootOfInner(sha: string -> string, level: seq<string>) returns (c: string, d: string)
    requires GoodHash(sha) && |level| > 1 && PlainLevel(level) && forall x :: x in level ==> IsPairHash(sha, x)
    ensures Root(sha, level) == HashPair(sha, c, d) && IsPairHash(sha, c) && IsPairHash(sha, d)
    decreases |level|
  {
    hide HashPair, Plain, IsPairHash;
    if |level| == 2 {
      c, d := level[0], level[1];
      TopOfTwo(sha, level);
    } else {
      NextPlain(sha, level);
      c, d := RootOfInner(sha, NextLevel(sha, level));
    }
  }

  lemma TopOfTwo(sha: string -> string, level: seq<string>)
    requires |level| == 2
    ensures Root(sha, level) == HashPair(sha, level[0], level[1])
  {
    hide HashPair;
    assert NextLevel(sha, level) == [HashPair(sha, level[0], level[1])];
  }

  /** Lists with one next level have one root. */
  lemma SameNext(sha: string -> string, a: seq<string>, b: seq<string>)
    requires |a| > 1 && |b| > 1 && NextLevel(sha, a) == NextLevel(sha, b)
    ensures Root(sha, a) == Root(sha, b)
  {
    hide NextLevel;
  }

  lemma SameElements(sha: string -> string, a: seq<string>, b: seq<string>)
    requires Leaves(sha, a) && |b| > 0 && forall x :: x in b ==> x in a
    ensures Leaves(sha, b)
  {
    hide Plain, IsPairHash;
  }

  /** Swapping two siblings keeps the next level. */
  lemma Swapped(sha: string -> string, a: seq<string>, i: nat) returns (b: seq<string>)
    requires 2 * i + 1 < |a| && a[2 * i] != a[2 * i + 1]
    ensures b != a && |b| == |a| && NextLevel(sha, b) == NextLevel(sha, a) && forall x :: x in b ==> x in a
  {
    hide HashPair;
    b := a[2 * i := a[2 * i + 1]][2 * i + 1 := a[2 * i]];
    assert b[2 * i] != a[2 * i];
    HashPairComm(sha, a[2 * i], a[2 * i + 1]);
    assert NextLevel(sha, b) == NextLevel(sha, a);
  }

  /** Repeating an odd last leaf keeps the next level, and so does dropping an even one that equals its sibling. */
  lemma Lengthened(sha: string -> string, a: seq<string>) returns (b: seq<string>)
    requires |a| > 2 && (|a| % 2 == 0 ==> a[|a| - 2] == a[|a| - 1])
    ensures b != a && |b| > 1 && NextLevel(sha, b) == NextLevel(sha, a) && forall x :: x in b ==> x in a
  {
    hide HashPair;
    b := if |a| % 2 == 1 then a + [a[|a| - 1]] else a[..|a| - 1];
    assert |b| != |a|;
    assert NextLevel(sha, b) == NextLevel(sha, a);
  }

  /** The lists that their root determines: a single leaf, and one leaf twice. */
  predicate Rigid(a: seq<string>) { |a| == 1 || (|a| == 2 && a[0] == a[1]) }

  lemma AnotherList(sha: string -> string, a: seq<string>) returns (b: seq<string>)
    requires Leaves(sha, a) && !Rigid(a)
    ensures b != a && Leaves(sha, b) && Root(sha, b) == Root(sha, a)
  {
    hide HashPair, NextLevel, Root, Leaves;
    LeavesNonempty(sha, a);
    if i: nat :| 2 * i + 1 < |a| && a[2 * i] != a[2 * i + 1] {
      b := Swapped(sha, a, i);
    } else {
      assert |a| % 2 == 0 ==> a[2 * (|a| / 2 - 1)] == a[2 * (|a| / 2 - 1) + 1];
      b := Lengthened(sha, a);
    }
    SameNext(sha, a, b);
    SameElements(sha, a, b);
  }

  lemma LeavesNonempty(sha: string -> string, a: seq<string>)
    requires Leaves(sha, a)
    ensures |a| > 0
  {
  }

  /** A rigid list is the only list of leaves with its root. */
  lemma OnlyList(sha: string -> string, a: seq<string>, b: seq<string>)
    requires GoodHash(sha) && Leaves(sha, a) && Leaves(sha, b) && Rigid(a) && Root(sha, a) == Root(sha, b)
    ensures b == a
  {
    hide HashPair, Plain, IsPairHash, NextLevel;
    assert a[0] in a;
    if |b| == 1 {
      assert b[0] in b;
      if |a| == 2 {
        TopOfTwo(sha, a);
        PairIsPair(sha, a[0], a[1]);
      }
    } else if |b| == 2 {
      TopOfTwo(sha, b);
      PairIsPair(sha, b[0], b[1]);
      if |a| == 2 {
        TopOfTwo(sha, a);
        HashPairInjective(sha, b[0], b[1], a[0], a[1]);
      }
    } else {
      NextPlain(sha, b);
      ParentOf(sha, b, 0);
      var c, d := RootOfInner(sha, NextLevel(sha, b));
      PairIsPair(sha, c, d);
      if |a| == 2 {
        TopOfTwo(sha, a);
        HashPairInjective(sha, c, d, a[0], a[1]);
      }
    }
  }

  lemma PairIsPair(sha: string -> string, c: string, d: string)
    ensures IsPairHash(sha, HashPair(sha, c, d))
  {
    hide HashPair;
  }

  /** The root determines the list of leaves exactly for a single leaf and for one leaf given twice. In every other list
      two different siblings can be swapped, or the odd last leaf repeated, or a repeated last leaf dropped. */
  lemma RootDeterminesListIff(sha: string -> string, a: seq<string>)
    requires GoodHash(sha) && Leaves(sha, a)
    ensures (forall b :: Leaves(sha, b) && Root(sha, b) == Root(sha, a) ==> b == a) <==> Rigid(a)
  {
    hide Root, Leaves, Rigid, GoodHash;
    if Rigid(a) {
      forall b | Leaves(sha, b) && Root(sha, b) == Root(sha, a) ensures b == a { OnlyList(sha, a, b); }
    } else {
      var b := AnotherList(sha, a);
    }
  }

  /** The converse fails for lists: repeating an odd last leaf does not change the root. */
  lemma RootIgnoresRepetition(sha: string -> string, a: string, b: string, c: string)
    ensures Root(sha, [a, b, c]) == Root(sha, [a, b, c, c])
  {
    hide HashPair;
    assert NextLevel(sha, [a, b, c]) == NextLevel(sha, [a, b, c, c]);
  }
}
