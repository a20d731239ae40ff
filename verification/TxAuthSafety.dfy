/** Invariants and safety of transaction authorization over whole runs. */
module TxAuthSafety {
  import opened Text
  import opened Hashing
  import opened Sequences
  import opened TxAuth
  import Merkle

  /* Texts that are hashed determine what they were built from. */

  lemma PublicKeyInjective(env: Env, id: string, secret: string, id': string, secret': string)
    requires GoodEnv(env) && Plain(secret) && Plain(secret')
    requires PublicKey(env, id, secret) == PublicKey(env, id', secret')
    ensures id == id' && secret == secret'
  {
    var p := "a26z:mpk:";
    assert p + id + ":" + secret == p + (id + ":" + secret) && p + id' + ":" + secret' == p + (id' + ":" + secret');
    Prefixed(p, id + ":" + secret, id' + ":" + secret');
    assert !LowerHexDigit(':');
    SplitLast(id, secret, id', secret', ':');
  }

  lemma LeafInjective(env: Env, id: string, pk: string, id': string, pk': string)
    requires GoodEnv(env) && Plain(pk) && Plain(pk') && LeafFor(env, id, pk) == LeafFor(env, id', pk')
    ensures id == id' && pk == pk'
  {
    var p := "a26z:merchant:";
    assert p + id + "|" + pk == p + (id + "|" + pk) && p + id' + "|" + pk' == p + (id' + "|" + pk');
    Prefixed(p, id + "|" + pk, id' + "|" + pk');
    assert !LowerHexDigit('|');
    SplitLast(id, pk, id', pk', '|');
  }

  lemma NullifierInjective(env: Env, leaf: string, leaf': string)
    requires GoodEnv(env) && NullifierFor(env, leaf) == NullifierFor(env, leaf')
    ensures leaf == leaf'
  {
    Prefixed("a26z:m-nf:", leaf, leaf');
  }

  lemma PlatformDeterminesNonce(env: Env, n: string, s: string, w: string, c: string, n': string, s': string,
                                w': string, c': string)
    requires GoodEnv(env) && Plain(n) && Plain(n')
    requires PlatformChallenge(env, n, s, w, c) == PlatformChallenge(env, n', s', w', c')
    ensures n == n'
  {
    var p, r, r' := "a26z:txchal:", s + "|" + w + "|" + c, s' + "|" + w' + "|" + c';
    assert p + n + "|" + s + "|" + w + "|" + c == p + (n + "|" + r);
    assert p + n' + "|" + s' + "|" + w' + "|" + c' == p + (n' + "|" + r');
    Prefixed(p, n + "|" + r, n' + "|" + r');
    assert !LowerHexDigit('|');
    SplitFirst(n, r, n', r', '|');
  }

  /** Merchant leaves and the sentinel are never pair hashes, and differ from each other. */
  lemma LeafIsAtomic(env: Env, id: string, pk: string)
    requires GoodEnv(env)
    ensures !Merkle.IsPairHash(env.sha, LeafFor(env, id, pk))
    ensures !Merkle.IsPairHash(env.sha, env.sha("a26z:empty-registry"))
    ensures LeafFor(env, id, pk) != env.sha("a26z:empty-registry")
  {
    hide Merkle.Le, Plain;
    var text, sentinel := "a26z:merchant:" + id + "|" + pk, "a26z:empty-registry";
    assert text[0] == 'a' && sentinel[0] == 'a' && text[5] == 'm' && sentinel[5] == 'e';
    forall a, b
      ensures Merkle.HashPair(env.sha, a, b) != env.sha(text) && Merkle.HashPair(env.sha, a, b) != env.sha(sentinel)
    {
      assert Merkle.PairText(a, b)[0] == 'L' && Merkle.PairText(b, a)[0] == 'L';
    }
  }

  /* Invariants */

  predicate DistinctIds(ms: seq<Merchant>) { forall i, j :: 0 <= i < j < |ms| ==> ms[i].id != ms[j].id }

  ghost predicate MerchantOk(env: Env, m: Merchant, secrets: set<string>) {
    && m.publicKey == PublicKey(env, m.id, m.secret)
    && m.leaf == LeafFor(env, m.id, m.publicKey)
    && m.nullifier == NullifierFor(env, m.leaf)
    && m.secret in secrets
  }

  /** The nullifier of some enrolment under one of the secrets. */
  ghost predicate EnrolledNullifier(env: Env, nf: string, secrets: set<string>) {
    exists id, secret :: secret in secrets && nf == NewMerchant(env, id, secret).nullifier
  }

  ghost predicate Registered(env: Env, ms: seq<Merchant>, revoked: seq<string>, secrets: set<string>) {
    && DistinctIds(ms) && NoDuplicates(revoked)
    && (forall m :: m in ms ==> MerchantOk(env, m, secrets) && m.status != Suspended)
    && (forall m :: m in ms ==> (m.status == Revoked <==> m.nullifier in revoked))
    && (forall nf :: nf in revoked ==> EnrolledNullifier(env, nf, secrets))
  }

  ghost predicate RegistryInv(env: Env, s: State, secrets: set<string>) {
    (forall x :: x in secrets ==> Plain(x)) && Registered(env, s.merchants, s.revoked, secrets)
  }

  /** The challenge was made from a hexadecimal nonce that its id abbreviates. */
  ghost predicate WellMade(env: Env, c: Challenge) {
    exists nonce :: Plain(nonce) && c == NewChallenge(env, c.commitment, c.session, nonce, c.issuedAt)
  }

  ghost predicate ChallengeInv(env: Env, s: State) {
    && NoDuplicates(s.spent)
    && (forall id :: id in s.challenges ==> s.challenges[id].id == id && WellMade(env, s.challenges[id]))
    && (forall id :: id in s.challenges ==> id !in s.spent)
  }

  function Total(byReason: map<Reason, nat>): nat {
    Count(byReason, MissingRequiredFields) + Count(byReason, MerchantNotFound) + Count(byReason, MembershipProofInvalid)
    + Count(byReason, AuthorizationSignatureInvalid) + Count(byReason, NullifierRevoked)
    + Count(byReason, ChallengeMismatchOrExpired) + Count(byReason, IntentCommitmentMismatch)
    + Count(byReason, RegistryInconsistency) + Count(byReason, MalformedCommitment) + Count(byReason, ProofInvalid)
    + Count(byReason, ExpiredProof) + Count(byReason, PolicyRejected)
  }

  predicate MetricsInv(s: State) {
    && s.metrics.successes == |s.spent|
    && s.metrics.failures == Total(s.metrics.byReason)
    && s.metrics.registryVersion == s.version
  }

  ghost predicate Inv(env: Env, w: World) {
    RegistryInv(env, w.s, w.secrets) && ChallengeInv(env, w.s) && MetricsInv(w.s)
  }

  /* Runs */

  datatype Op =
    | EnrollOp(merchantId: string, secret: string)
    | RevokeOp(merchantId: string)
    | IssueOp(commitment: string, session: string, nonce: string)
    | ProveOp(merchantId: string, commitment: string, challengeId: string, auth: Authorization)
    | VerifyOp(req: Request)

  datatype Timed = Timed(op: Op, now: nat)

  /** The state together with every enrolment secret drawn so far. */
  datatype World = World(s: State, secrets: set<string>)

  /** Random draws are hexadecimal and were not drawn before. */
  predicate FreshDraws(w: World, op: Op) {
    match op
    case EnrollOp(_, secret) => Plain(secret) && secret !in w.secrets
    case IssueOp(_, _, nonce) =>
      Plain(nonce) && ChallengeId(nonce) !in w.s.challenges && ChallengeId(nonce) !in w.s.spent
    case _ => true
  }

  function Step(env: Env, w: World, t: Timed): World {
    match t.op
    case EnrollOp(id, secret) => World(Enroll(env, w.s, id, secret).0, w.secrets + {secret})
    case RevokeOp(id) => w.(s := Revoke(env, w.s, id).0)
    case IssueOp(c, session, nonce) => w.(s := Issue(env, w.s, c, session, nonce, t.now).0)
    case ProveOp(id, c, challengeId, auth) => w.(s := Prove(env, w.s, id, c, challengeId, auth, t.now).0)
    case VerifyOp(req) => w.(s := Verify(env, w.s, req, t.now).0)
  }

  ghost predicate Run(env: Env, ws: seq<World>, ops: seq<Timed>) {
    && |ws| == |ops| + 1 && ws[0] == World(INITIAL, {})
    && forall k :: 0 <= k < |ops| ==> FreshDraws(ws[k], ops[k].op) && ws[k + 1] == Step(env, ws[k], ops[k])
  }

  /* The invariants are kept by every operation. */

  lemma {:induction false} WithoutMembers(ms: seq<Merchant>, id: string)
    ensures forall m :: m in Without(ms, id) <==> m in ms && m.id != id
  {
    if |ms| > 0 {
      WithoutMembers(ms[1..], id);
      assert ms == [ms[0]] + ms[1..];
    }
  }

  lemma DistinctTail(m: Merchant, rest: seq<Merchant>)
    ensures DistinctIds([m] + rest) <==> DistinctIds(rest) && forall x :: x in rest ==> x.id != m.id
  {
    var ms := [m] + rest;
    assert forall i :: 0 <= i < |rest| ==> ms[i + 1] == rest[i];
    if DistinctIds(ms) {
      forall i, j | 0 <= i < j < |rest| ensures rest[i].id != rest[j].id { assert ms[i + 1].id != ms[j + 1].id; }
      forall x | x in rest ensures x.id != m.id {
        var i :| 0 <= i < |rest| && rest[i] == x;
        assert ms[0].id != ms[i + 1].id;
      }
    }
  }

  lemma {:induction false} WithoutKeeps(ms: seq<Merchant>, id: string)
    requires DistinctIds(ms)
    ensures DistinctIds(Without(ms, id))
    ensures forall m :: m in Without(ms, id) <==> m in ms && m.id != id
  {
    hide DistinctIds;
    WithoutMembers(ms, id);
    if |ms| > 0 {
      assert ms == [ms[0]] + ms[1..];
      DistinctTail(ms[0], ms[1..]);
      WithoutKeeps(ms[1..], id);
      DistinctTail(ms[0], Without(ms[1..], id));
    }
  }

  /** A merchant enrolled under a fresh secret has a nullifier that is not in the accumulator. */
  lemma FreshNullifier(env: Env, w: World, id: string, secret: string)
    requires GoodEnv(env) && RegistryInv(env, w.s, w.secrets) && Plain(secret) && secret !in w.secrets
    ensures NewMerchant(env, id, secret).nullifier !in w.s.revoked
  {
    hide NewMerchant, Plain;
    var nf := NewMerchant(env, id, secret).nullifier;
    if nf in w.s.revoked {
      assert EnrolledNullifier(env, nf, w.secrets);
      var id', secret' :| secret' in w.secrets && nf == NewMerchant(env, id', secret').nullifier;
      EnrolmentInjective(env, id, secret, id', secret');
      assert false;
    }
  }

  lemma EnrolmentInjective(env: Env, id: string, secret: string, id': string, secret': string)
    requires GoodEnv(env) && Plain(secret) && Plain(secret')
    requires NewMerchant(env, id, secret).nullifier == NewMerchant(env, id', secret').nullifier
    ensures id == id' && secret == secret'
  {
    var m, m' := NewMerchant(env, id, secret), NewMerchant(env, id', secret');
    assert Plain(m.publicKey) && Plain(m'.publicKey);
    hide PublicKey, LeafFor, NullifierFor, Plain, GoodHash;
    NullifierInjective(env, m.leaf, m'.leaf);
    LeafInjective(env, id, m.publicKey, id', m'.publicKey);
    PublicKeyInjective(env, id, secret, id', secret');
  }

  lemma EnrollKeeps(env: Env, w: World, merchantId: string, secret: string)
    requires GoodEnv(env) && Inv(env, w) && Plain(secret) && secret !in w.secrets
    ensures Inv(env, Step(env, w, Timed(EnrollOp(merchantId, secret), 0)))
  {
    hide Plain, PublicKey, LeafFor, NullifierFor, Total, WellMade, Without;
    var id, secrets := env.norm(merchantId), w.secrets + {secret};
    var s, s' := w.s, Enroll(env, w.s, merchantId, secret).0;
    forall nf | EnrolledNullifier(env, nf, w.secrets) ensures EnrolledNullifier(env, nf, secrets) {
      var i, x :| x in w.secrets && nf == NewMerchant(env, i, x).nullifier;
      assert x in secrets;
    }
    if s' != s {
      WithoutKeeps(s.merchants, id);
      FreshNullifier(env, w, id, secret);
    }
  }

  /** No other merchant shares a merchant's nullifier. */
  lemma NullifierDistinct(env: Env, ms: seq<Merchant>, secrets: set<string>, i: nat, j: nat)
    requires GoodEnv(env) && DistinctIds(ms) && i < |ms| && j < |ms| && i != j
    requires MerchantOk(env, ms[i], secrets) && MerchantOk(env, ms[j], secrets)
    ensures ms[i].nullifier != ms[j].nullifier
  {
    hide LeafFor, PublicKey, NullifierFor;
    if ms[i].nullifier == ms[j].nullifier {
      NullifierInjective(env, ms[i].leaf, ms[j].leaf);
      LeafOf(env, ms[i], ms[j]);
      assert false;
    }
  }

  lemma RevokeRegistered(env: Env, ms: seq<Merchant>, revoked: seq<string>, secrets: set<string>, i: nat)
    requires GoodEnv(env) && i < |ms| && Registered(env, ms, revoked, secrets)
    ensures var nf := ms[i].nullifier;
      Registered(env, ms[i := ms[i].(status := Revoked)], if nf in revoked then revoked else revoked + [nf], secrets)
  {
    hide EnrolledNullifier, MerchantOk, NoDuplicates, GoodEnv;
    var m, ms' := ms[i], ms[i := ms[i].(status := Revoked)];
    var revoked' := if m.nullifier in revoked then revoked else revoked + [m.nullifier];
    assert m in ms;
    NullifierOfMerchant(env, m, secrets);
    StatusIrrelevant(env, m, secrets);
    NoDuplicatesAppend(revoked, m.nullifier);
    forall j | 0 <= j < |ms|
      ensures MerchantOk(env, ms'[j], secrets) && ms'[j].status != Suspended
      ensures ms'[j].status == Revoked <==> ms'[j].nullifier in revoked'
    {
      assert ms[j] in ms;
      if j != i { NullifierDistinct(env, ms, secrets, i, j); }
    }
  }

  lemma RevokeKeeps(env: Env, w: World, merchantId: string)
    requires GoodEnv(env) && Inv(env, w)
    ensures Inv(env, w.(s := Revoke(env, w.s, merchantId).0))
  {
    hide Plain, Total, WellMade, Registered, GoodEnv;
    var id, s := env.norm(merchantId), w.s;
    PositionIs(s.merchants, id);
    if Position(s.merchants, id).Some? {
      RevokeRegistered(env, s.merchants, s.revoked, w.secrets, Position(s.merchants, id).value);
    }
  }

  lemma StatusIrrelevant(env: Env, m: Merchant, secrets: set<string>)
    requires MerchantOk(env, m, secrets)
    ensures MerchantOk(env, m.(status := Revoked), secrets)
  {
  }

  lemma NullifierOfMerchant(env: Env, m: Merchant, secrets: set<string>)
    requires MerchantOk(env, m, secrets)
    ensures EnrolledNullifier(env, m.nullifier, secrets)
  {
    assert m.nullifier == NewMerchant(env, m.id, m.secret).nullifier;
  }

  lemma LeafOf(env: Env, m: Merchant, o: Merchant)
    requires GoodEnv(env) && m.leaf == o.leaf
    requires m.publicKey == PublicKey(env, m.id, m.secret) && m.leaf == LeafFor(env, m.id, m.publicKey)
    requires o.publicKey == PublicKey(env, o.id, o.secret) && o.leaf == LeafFor(env, o.id, o.publicKey)
    ensures m.id == o.id && m.publicKey == o.publicKey
  {
    hide LeafFor, Plain;
    LeafInjective(env, m.id, m.publicKey, o.id, o.publicKey);
  }

  lemma IssueKeeps(env: Env, w: World, c: string, session: string, nonce: string, now: nat)
    requires GoodEnv(env) && Inv(env, w) && Plain(nonce) && ChallengeId(nonce) !in w.s.challenges
    requires ChallengeId(nonce) !in w.s.spent
    ensures Inv(env, w.(s := Issue(env, w.s, c, session, nonce, now).0))
  {
    hide Plain, Total, RegistryInv, ChallengeId, PlatformChallenge, CommitmentShape;
    var s' := Issue(env, w.s, c, session, nonce, now).0;
    assert RegistryInv(env, s', w.secrets) by { SameRegistry(env, w.s, s', w.secrets); }
    var made := NewChallenge(env, c, session, nonce, now);
    assert WellMade(env, made);
  }

  lemma SameRegistry(env: Env, s: State, s': State, secrets: set<string>)
    requires RegistryInv(env, s, secrets) && s'.merchants == s.merchants && s'.revoked == s.revoked
    ensures RegistryInv(env, s', secrets)
  {
  }

  lemma TotalBump(byReason: map<Reason, nat>, r: Reason)
    ensures Total(byReason[r := Count(byReason, r) + 1]) == Total(byReason) + 1
  {
    hide Count;
    var bumped := byReason[r := Count(byReason, r) + 1];
    forall q ensures Count(bumped, q) == if q == r then Count(byReason, r) + 1 else Count(byReason, q) {
      CountUpdated(byReason, r, Count(byReason, r) + 1, q);
    }
    assert forall q :: Count(bumped, q) == Count(byReason, q) + if q == r then 1 else 0;
  }

  lemma CountUpdated(byReason: map<Reason, nat>, r: Reason, n: nat, q: Reason)
    ensures Count(byReason[r := n], q) == if q == r then n else Count(byReason, q)
  {
  }

  lemma VerifyKeeps(env: Env, w: World, req: Request, now: nat)
    requires Inv(env, w)
    ensures Inv(env, w.(s := Verify(env, w.s, req, now).0))
    ensures Verify(env, w.s, req, now).1.Authorized? <==> Verify(env, w.s, req, now).0.spent != w.s.spent
  {
    hide Total, RegistryInv, WellMade, Check, Count;
    var (s', out) := Verify(env, w.s, req, now);
    SameRegistry(env, w.s, s', w.secrets);
    if out.Rejected? { TotalBump(w.s.metrics.byReason, out.reason); }
  }

  lemma ProveKeeps(env: Env, w: World, id: string, c: string, challengeId: string, auth: Authorization, now: nat)
    requires Inv(env, w)
    ensures Inv(env, w.(s := Prove(env, w.s, id, c, challengeId, auth, now).0))
  {
    hide Total, RegistryInv, WellMade, MembershipPath, HmacVerify, Digest, Find;
    SameRegistry(env, w.s, Prove(env, w.s, id, c, challengeId, auth, now).0, w.secrets);
  }

  lemma StepKeeps(env: Env, w: World, t: Timed)
    requires GoodEnv(env) && Inv(env, w) && FreshDraws(w, t.op)
    ensures Inv(env, Step(env, w, t))
  {
    hide Inv, Enroll, Revoke, Issue, Prove, Verify;
    match t.op
    case EnrollOp(id, secret) => EnrollKeeps(env, w, id, secret);
    case RevokeOp(id) => RevokeKeeps(env, w, id);
    case IssueOp(c, session, nonce) => IssueKeeps(env, w, c, session, nonce, t.now);
    case ProveOp(id, c, challengeId, auth) => ProveKeeps(env, w, id, c, challengeId, auth, t.now);
    case VerifyOp(req) => VerifyKeeps(env, w, req, t.now);
  }

  /** In every state of every run: pending and spent challenges are disjoint, successes count the spent
      challenges, failures add up by reason, and exactly the merchants in the accumulator are revoked. */
  lemma {:induction false} RunKeeps(env: Env, ws: seq<World>, ops: seq<Timed>, k: nat)
    requires GoodEnv(env) && Run(env, ws, ops) && k < |ws|
    ensures Inv(env, ws[k])
  {
    if k == 0 {
    } else {
      hide Inv, Step;
      RunKeeps(env, ws, ops, k - 1);
      StepKeeps(env, ws[k - 1], ops[k - 1]);
    }
  }
}
