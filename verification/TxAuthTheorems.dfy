/** What authorization guarantees across states and runs: the root pins the active set, revocation is final,
    proofs are single-use and bound to one intent, and the undisturbed workflow succeeds. */
module TxAuthTheorems {
  import opened Wrappers
  import opened Hashing
  import opened TxAuth
  import opened TxAuthSafety
  import Merkle

  lemma {:induction false} ActiveLeavesAre(ms: seq<Merchant>)
    ensures forall x :: x in ActiveLeaves(ms) <==> exists m :: m in ms && m.status == Active && m.leaf == x
  {
    if |ms| > 0 {
      ActiveLeavesAre(ms[1..]);
      assert forall m :: m in ms <==> m == ms[0] || m in ms[1..];
    }
  }

  /** The root's leaves meet the assumptions of the Merkle theorems. */
  lemma RootLeavesOk(env: Env, w: World)
    requires GoodEnv(env) && Inv(env, w)
    ensures Merkle.Leaves(env.sha, RootLeaves(env, w.s.merchants))
    ensures forall x :: x in ActiveLeaves(w.s.merchants) ==> x != env.sha("a26z:empty-registry")
  {
    hide Plain, Merkle.IsPairHash, LeafFor;
    ActiveLeavesAre(w.s.merchants);
    LeafIsAtomic(env, "", "");
    forall x | x in ActiveLeaves(w.s.merchants)
      ensures Plain(x) && !Merkle.IsPairHash(env.sha, x) && x != env.sha("a26z:empty-registry")
    {
      var m :| m in w.s.merchants && m.status == Active && m.leaf == x;
      assert MerchantOk(env, m, w.secrets);
      LeafIsAtomic(env, m.id, m.publicKey);
      LeafPlain(env, m.id, m.publicKey);
    }
  }

  lemma LeafPlain(env: Env, id: string, pk: string)
    requires GoodEnv(env)
    ensures Plain(LeafFor(env, id, pk))
  {
    hide Plain;
  }

  /** The root pins down the active set. */
  lemma RootPinsActiveSet(env: Env, w: World, w': World)
    requires GoodEnv(env) && Inv(env, w) && Inv(env, w')
    requires RegistryRoot(env, w.s.merchants) == RegistryRoot(env, w'.s.merchants)
    ensures forall x :: x in ActiveLeaves(w.s.merchants) <==> x in ActiveLeaves(w'.s.merchants)
  {
    hide Inv, GoodEnv, Merkle.Root, Merkle.Leaves, ActiveLeaves;
    RootLeavesOk(env, w); RootLeavesOk(env, w');
    GoodSha(env);
    var a, b := RootLeaves(env, w.s.merchants), RootLeaves(env, w'.s.merchants);
    Merkle.RootDeterminesLeaves(env.sha, a, b);
    var sentinel := env.sha("a26z:empty-registry");
    assert sentinel in a <==> |ActiveLeaves(w.s.merchants)| == 0;
    assert sentinel in b <==> |ActiveLeaves(w'.s.merchants)| == 0;
  }

  lemma GoodSha(env: Env)
    requires GoodEnv(env)
    ensures GoodHash(env.sha)
  {
  }

  /** What an authorization says about the request. */
  lemma AuthorizedMeans(env: Env, s: State, req: Request, now: int)
    requires Verify(env, s, req, now).1.Authorized?
    ensures req.intent.Some? && req.proof.Some? && Matches(env, req.intent.value, req.commitment)
    ensures req.proof.value.commitment == req.commitment
    ensures req.proof.value.root == RegistryRoot(env, s.merchants)
    ensures req.challengeId in s.challenges && req.challengeId !in s.spent
    ensures req.proof.value.platform == s.challenges[req.challengeId].platform
    ensures now <= s.challenges[req.challengeId].expiresAt
    ensures Find(s.merchants, env.norm(req.intent.value.merchantId)).Some?
    ensures var m := Find(s.merchants, env.norm(req.intent.value.merchantId)).value;
      m.leaf == req.proof.value.leaf && m.nullifier !in s.revoked && m.leaf in ActiveLeaves(s.merchants)
    ensures req.challengeId in Verify(env, s, req, now).0.spent
  {
    hide Matches, RegistryRoot, HmacVerify, Digest, Find;
    var m := Find(s.merchants, env.norm(req.intent.value.merchantId)).value;
    FirstIndexIs(m.leaf, ActiveLeaves(s.merchants));
  }

  /** A proof made in one reachable state is refused in every reachable state with another active set. */
  lemma StaleProofRefused(env: Env, w: World, w': World, merchantId: string, commitment: string, challengeId: string,
                          auth: Authorization, made: int, req: Request, now: int)
    requires GoodEnv(env) && Inv(env, w) && Inv(env, w')
    requires Prove(env, w.s, merchantId, commitment, challengeId, auth, made).1.Ok?
    requires req.proof == Some(Prove(env, w.s, merchantId, commitment, challengeId, auth, made).1.value)
    requires exists x :: (x in ActiveLeaves(w.s.merchants)) != (x in ActiveLeaves(w'.s.merchants))
    ensures Verify(env, w'.s, req, now).1.Rejected?
  {
    hide Inv, GoodEnv, Verify, ActiveLeaves, Find, HmacVerify, MembershipPath, Digest;
    if Verify(env, w'.s, req, now).1.Authorized? {
      AuthorizedMeans(env, w'.s, req, now);
      RootPinsActiveSet(env, w, w');
      assert false;
    }
  }

  /* Facts that never go away during a run */

  ghost predicate Grows(w: World, w': World) {
    && (forall nf :: nf in w.s.revoked ==> nf in w'.s.revoked)
    && (forall c :: c in w.s.spent ==> c in w'.s.spent)
  }

  lemma StepGrows(env: Env, w: World, t: Timed)
    ensures Grows(w, Step(env, w, t))
  {
    hide Check, MembershipPath, HmacVerify, Digest, Find, NewMerchant, NewChallenge, CommitmentShape, Without;
  }

  lemma {:induction false} RunGrows(env: Env, ws: seq<World>, ops: seq<Timed>, i: nat, j: nat)
    requires Run(env, ws, ops) && i <= j < |ws|
    ensures Grows(ws[i], ws[j])
  {
    hide Step, FreshDraws;
    if i < j {
      RunGrows(env, ws, ops, i, j - 1);
      StepGrows(env, ws[j - 1], ops[j - 1]);
    }
  }

  lemma RunStep(env: Env, ws: seq<World>, ops: seq<Timed>, k: nat)
    requires Run(env, ws, ops) && k < |ops|
    ensures k + 1 < |ws| && FreshDraws(ws[k], ops[k].op) && ws[k + 1] == Step(env, ws[k], ops[k])
  {
    hide Step, FreshDraws;
  }

  /** Once a merchant is revoked, no later verification accepts a proof over its leaf, even after the merchant
      id was enrolled again. */
  lemma RevocationIsFinal(env: Env, ws: seq<World>, ops: seq<Timed>, i: nat, j: nat, merchantId: string, req: Request)
    requires GoodEnv(env) && Run(env, ws, ops) && i < j < |ops|
    requires ops[i].op == RevokeOp(merchantId) && Find(ws[i].s.merchants, env.norm(merchantId)).Some?
    requires ops[j].op == VerifyOp(req) && req.proof.Some?
    requires req.proof.value.leaf == Find(ws[i].s.merchants, env.norm(merchantId)).value.leaf
    ensures Verify(env, ws[j].s, req, ops[j].now).1.Rejected?
  {
    hide Run, Verify, Find, GoodEnv, NullifierFor, Revoke, Inv;
    RunStep(env, ws, ops, i);
    RunStep(env, ws, ops, j);
    RunKeeps(env, ws, ops, i); RunKeeps(env, ws, ops, j);
    FindIn(ws[i].s.merchants, env.norm(merchantId));
    RevokeRecords(env, ws[i], merchantId);
    RunGrows(env, ws, ops, i + 1, j);
    NullifierOfLeaf(env, ws[i], Find(ws[i].s.merchants, env.norm(merchantId)).value);
    RevokedLeafRefused(env, ws[j], req, ops[j].now);
  }

  lemma NullifierOfLeaf(env: Env, w: World, m: Merchant)
    requires Inv(env, w) && m in w.s.merchants
    ensures m.nullifier == NullifierFor(env, m.leaf)
  {
    hide NullifierFor, LeafFor, PublicKey, ChallengeInv, MetricsInv, EnrolledNullifier;
  }

  /** A proof over a leaf whose nullifier is accumulated is refused. */
  lemma RevokedLeafRefused(env: Env, w: World, req: Request, now: int)
    requires Inv(env, w) && req.proof.Some? && NullifierFor(env, req.proof.value.leaf) in w.s.revoked
    ensures Verify(env, w.s, req, now).1.Rejected?
  {
    hide Inv, Verify, Find, NullifierFor, Matches, RegistryRoot, ActiveLeaves;
    if Verify(env, w.s, req, now).1.Authorized? {
      AuthorizedMeans(env, w.s, req, now);
      FindIn(w.s.merchants, env.norm(req.intent.value.merchantId));
      NullifierOfLeaf(env, w, Find(w.s.merchants, env.norm(req.intent.value.merchantId)).value);
      assert false;
    }
  }

  lemma RevokeRecords(env: Env, w: World, merchantId: string)
    requires Find(w.s.merchants, env.norm(merchantId)).Some?
    ensures Find(w.s.merchants, env.norm(merchantId)).value.nullifier in Revoke(env, w.s, merchantId).0.revoked
  {
  }

  lemma FindIn(ms: seq<Merchant>, id: string)
    requires Find(ms, id).Some?
    ensures Find(ms, id).value in ms && Find(ms, id).value.id == id
  {
    PositionIs(ms, id);
  }

  /** Challenges with the same platform challenge are the same challenge. */
  lemma PlatformDeterminesId(env: Env, c: Challenge, d: Challenge)
    requires GoodEnv(env) && WellMade(env, c) && WellMade(env, d) && c.platform == d.platform
    ensures c.id == d.id
  {
    hide Plain, GoodEnv, PlatformChallenge;
    var n :| Plain(n) && c == NewChallenge(env, c.commitment, c.session, n, c.issuedAt);
    var n' :| Plain(n') && d == NewChallenge(env, d.commitment, d.session, n', d.issuedAt);
    PlatformDeterminesNonce(env, n, c.session, Window(c.issuedAt, c.expiresAt), c.commitment,
                            n', d.session, Window(d.issuedAt, d.expiresAt), d.commitment);
  }

  lemma ProofMeans(env: Env, s: State, merchantId: string, commitment: string, challengeId: string,
                   auth: Authorization, made: int)
    requires Prove(env, s, merchantId, commitment, challengeId, auth, made).1.Ok?
    ensures var p := Prove(env, s, merchantId, commitment, challengeId, auth, made).1.value;
      challengeId in s.challenges && p.platform == s.challenges[challengeId].platform && p.commitment == commitment
  {
    hide Find, MembershipPath, HmacVerify, Digest, RegistryRoot;
  }

  /** A proof is accepted, in whatever reachable state, only with the challenge and the commitment it was made for and
      an intent of that commitment. */
  lemma ProofBindsChallenge(env: Env, w: World, w': World, merchantId: string, commitment: string, challengeId: string,
                            auth: Authorization, made: int, req: Request, now: int)
    requires GoodEnv(env) && Inv(env, w) && Inv(env, w')
    requires Prove(env, w.s, merchantId, commitment, challengeId, auth, made).1.Ok?
    requires req.proof == Some(Prove(env, w.s, merchantId, commitment, challengeId, auth, made).1.value)
    requires Verify(env, w'.s, req, now).1.Authorized?
    ensures req.challengeId == challengeId && req.commitment == commitment
    ensures req.intent.Some? && Commit(env, req.intent.value) == Some(commitment)
  {
    hide GoodEnv, Prove, Verify, Find, WellMade, RegistryRoot, Commit, RegistryInv, MetricsInv;
    ProofMeans(env, w.s, merchantId, commitment, challengeId, auth, made);
    AuthorizedMeans(env, w'.s, req, now);
    PlatformDeterminesId(env, w.s.challenges[challengeId], w'.s.challenges[req.challengeId]);
  }

  /** A proof that was accepted once is refused ever after, whatever challenge or intent it is presented with. */
  lemma ProofIsSingleUse(env: Env, ws: seq<World>, ops: seq<Timed>, i: nat, j: nat, req: Request, again: Request)
    requires GoodEnv(env) && Run(env, ws, ops) && i < j < |ops|
    requires ops[i].op == VerifyOp(req) && Verify(env, ws[i].s, req, ops[i].now).1.Authorized?
    requires ops[j].op == VerifyOp(again) && again.proof == req.proof
    ensures Verify(env, ws[j].s, again, ops[j].now).1.Rejected?
  {
    hide Run, Verify, GoodEnv, Find, WellMade, Matches, RegistryRoot, RegistryInv, MetricsInv;
    RunStep(env, ws, ops, i);
    RunStep(env, ws, ops, j);
    AuthorizedMeans(env, ws[i].s, req, ops[i].now);
    RunKeeps(env, ws, ops, i); RunKeeps(env, ws, ops, j);
    RunGrows(env, ws, ops, i + 1, j);
    if Verify(env, ws[j].s, again, ops[j].now).1.Authorized? {
      AuthorizedMeans(env, ws[j].s, again, ops[j].now);
      PlatformDeterminesId(env, ws[i].s.challenges[req.challengeId], ws[j].s.challenges[again.challengeId]);
      assert false;
    }
  }

  /** A challenge id authorizes at most once in a run. */
  lemma ChallengeIsSingleUse(env: Env, ws: seq<World>, ops: seq<Timed>, i: nat, j: nat, req: Request, again: Request)
    requires GoodEnv(env) && Run(env, ws, ops) && i < j < |ops|
    requires ops[i].op == VerifyOp(req) && Verify(env, ws[i].s, req, ops[i].now).1.Authorized?
    requires ops[j].op == VerifyOp(again) && again.challengeId == req.challengeId
    ensures Verify(env, ws[j].s, again, ops[j].now).1.Rejected?
  {
    hide Run, Verify, GoodEnv, Find, Matches, RegistryRoot;
    RunStep(env, ws, ops, i);
    RunStep(env, ws, ops, j);
    AuthorizedMeans(env, ws[i].s, req, ops[i].now);
    RunGrows(env, ws, ops, i + 1, j);
    if Verify(env, ws[j].s, again, ops[j].now).1.Authorized? {
      AuthorizedMeans(env, ws[j].s, again, ops[j].now);
      assert false;
    }
  }

  /** A proof is accepted only for intents with one and the same canonical form. */
  lemma ProofBindsIntent(env: Env, s: State, s': State, req: Request, other: Request, now: int, now': int)
    requires GoodEnv(env) && other.proof == req.proof
    requires Verify(env, s, req, now).1.Authorized? && Verify(env, s', other, now').1.Authorized?
    ensures Canonicalize(env, req.intent.value) == Canonicalize(env, other.intent.value)
  {
    hide Verify, Find, Canonicalize, RegistryRoot, ActiveLeaves;
    AuthorizedMeans(env, s, req, now); AuthorizedMeans(env, s', other, now');
    var a, b := Canonicalize(env, req.intent.value).value, Canonicalize(env, other.intent.value).value;
    Prefixed("a26z:txintent:v1:", env.json(a), env.json(b));
  }

  /* The workflow */

  /** Challenge, merchant signature, proof and verification of one intent with nothing in between. */
  function Workflow(env: Env, s: State, intent: Intent, commitment: string, session: string, nonce: string,
                    supplied: string, autoSign: bool, issued: nat, proved: nat, verified: nat): Option<Outcome>
  {
    var (s1, challenge) := Issue(env, s, commitment, session, nonce, issued);
    match challenge
    case Err(_) => None
    case Ok(c) =>
      match Authorize(env, s1, intent, commitment, supplied, autoSign, issued)
      case Err(r) => Some(Rejected(r))
      case Ok(auth) =>
        var (s2, proof) := Prove(env, s1, intent.merchantId, commitment, c.id, auth, proved);
        match proof
        case Err(r) => Some(Rejected(r))
        case Ok(p) => Some(Verify(env, s2, Request(Some(intent), commitment, c.id, Some(p)), verified).1)
  }

  /** An active merchant's leaf has a membership path. */
  lemma ActiveHasPath(env: Env, w: World, m: Merchant)
    requires Inv(env, w) && m in w.s.merchants && m.status == Active
    ensures MembershipPath(env, w.s, m.leaf).Some?
  {
    hide Inv, Merkle.Path, Merkle.Fold, Merkle.Root, ActiveLeaves;
    var leaves := ActiveLeaves(w.s.merchants);
    ActiveLeavesAre(w.s.merchants);
    FirstIndexIs(m.leaf, leaves);
    Merkle.PathLeadsToRoot(env.sha, leaves, FirstIndex(m.leaf, leaves).value);
  }

  /** The merchant's signature verifies, or none is supplied and the server may sign. */
  predicate CanSign(env: Env, m: Merchant, commitment: string, supplied: string, autoSign: bool) {
    if supplied == "" then autoSign else HmacVerify(env, m.secret, SigningMessage(commitment, m.publicKey), supplied)
  }

  /** In every reachable state the undisturbed workflow of a committed intent authorizes exactly when the merchant is
      active and can sign, the amount is within policy and the challenge has not expired. */
  lemma WorkflowAuthorizesIff(env: Env, w: World, intent: Intent, commitment: string, session: string, nonce: string,
                              supplied: string, autoSign: bool, issued: nat, proved: nat, verified: nat)
    requires Inv(env, w) && FreshDraws(w, IssueOp(commitment, session, nonce))
    requires Commit(env, intent) == Some(commitment) && CommitmentShape(commitment)
    requires issued <= proved <= verified
    ensures
      var m := Find(w.s.merchants, env.norm(intent.merchantId));
      var out := Workflow(env, w.s, intent, commitment, session, nonce, supplied, autoSign, issued, proved, verified);
      out.Some? &&
      (out.value.Authorized? <==>
        && m.Some? && m.value.status == Active && CanSign(env, m.value, commitment, supplied, autoSign)
        && intent.amount <= MAX_AMOUNT && verified <= issued + CHALLENGE_TTL_MS)
  {
    hide RegistryRoot, ActiveLeaves, FirstIndex, Digest, Merkle.Fold, Merkle.Path, Commit, CommitmentShape,
      NewChallenge, WellMade, Total, MembershipPath, ChallengeInv,
      HmacVerify, SigningMessage;
    var s1 := Issue(env, w.s, commitment, session, nonce, issued).0;
    var c := NewChallenge(env, commitment, session, nonce, issued);
    ChallengeFields(env, commitment, session, nonce, issued);
    ShapeNonempty(commitment);
    var found := Find(w.s.merchants, env.norm(intent.merchantId));
    if found.Some? && found.value.status == Active {
      var m := found.value;
      FindIn(w.s.merchants, env.norm(intent.merchantId));
      ActiveHasPath(env, w, m);
      MembershipSame(env, w.s, s1, m.leaf);
      OwnSignature(env, m.secret, SigningMessage(commitment, m.publicKey));
      assert m.nullifier !in w.s.revoked;
    }
  }

  lemma OwnSignature(env: Env, secret: string, message: string)
    ensures HmacVerify(env, secret, message, env.hmac(secret, message))
  {
  }

  lemma MembershipSame(env: Env, s: State, s': State, leaf: string)
    requires s.merchants == s'.merchants
    ensures MembershipPath(env, s, leaf) == MembershipPath(env, s', leaf)
  {
    hide RegistryRoot, ActiveLeaves, FirstIndex, Merkle.Fold, Merkle.Path;
  }

  lemma ChallengeFields(env: Env, commitment: string, session: string, nonce: string, now: nat)
    ensures var c := NewChallenge(env, commitment, session, nonce, now);
      c.id == ChallengeId(nonce) && c.id != "" && c.commitment == commitment && c.expiresAt == now + CHALLENGE_TTL_MS
  {
  }

  lemma ShapeNonempty(c: string)
    requires CommitmentShape(c)
    ensures c != ""
  {
  }
}
