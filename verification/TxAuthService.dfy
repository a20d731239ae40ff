/** The authorization service: the operations as they update the stored state step by step. */
module TxAuthService {
  import opened Wrappers
  import opened TxAuth
  import Merkle

  class Service {
    const env: Env
    var merchants: seq<Merchant>
    var revoked: seq<string>
    var version: nat
    var challenges: map<string, Challenge>
    var spent: seq<string>
    var metrics: Metrics

    function Stored(): State
      reads this
    {
      State(merchants, revoked, version, challenges, spent, metrics)
    }

    constructor (env: Env)
      ensures this.env == env && Stored() == INITIAL
    {
      this.env := env;
      merchants, revoked, version, challenges, spent, metrics := [], [], 0, map[], [], INITIAL.metrics;
    }

    method EnrollMerchant(merchantId: string, secret: string) returns (m: Merchant)
      modifies this
      ensures (Stored(), m) == Enroll(env, old(Stored()), merchantId, secret)
    {
      var id := env.norm(merchantId);
      var existing := Find(merchants, id);
      if existing.Some? && existing.value.status == Active { return existing.value; }
      m := NewMerchant(env, id, secret);
      merchants := Without(merchants, id);
      merchants := merchants + [m];
      version := version + 1;
      metrics := metrics.(registryVersion := version);
    }

    method RevokeMerchant(merchantId: string) returns (r: Result<string, Reason>)
      modifies this
      ensures (Stored(), r) == Revoke(env, old(Stored()), merchantId)
    {
      var at := Position(merchants, env.norm(merchantId));
      PositionIs(merchants, env.norm(merchantId));
      if at == None { return Err(MerchantNotFound); }
      var m := merchants[at.value];
      merchants := merchants[at.value := m.(status := Revoked)];
      if m.nullifier !in revoked { revoked := revoked + [m.nullifier]; }
      version := version + 1;
      metrics := metrics.(registryVersion := version);
      r := Ok(m.nullifier);
    }

    method IssueChallenge(commitment: string, session: string, nonce: string, now: nat)
      returns (r: Result<Challenge, Reason>)
      modifies this`challenges
      ensures (Stored(), r) == Issue(env, old(Stored()), commitment, session, nonce, now)
    {
      if !CommitmentShape(commitment) { return Err(MalformedCommitment); }
      var expires := now + CHALLENGE_TTL_MS;
      var platform := PlatformChallenge(env, nonce, session, Window(now, expires), commitment);
      var c := Challenge(ChallengeId(nonce), platform, session, now, expires, commitment);
      challenges := challenges[c.id := c];
      r := Ok(c);
    }

    method ConsumeChallenge(id: string, now: int) returns (r: Result<Challenge, Reason>)
      modifies this
      ensures (Stored(), r) == Consume(old(Stored()), id, now)
    {
      if id !in challenges { return Err(ChallengeMismatchOrExpired); }
      var c := challenges[id];
      if now > c.expiresAt {
        challenges := challenges - {id};
        metrics := metrics.(expired := metrics.expired + 1);
        return Err(ChallengeMismatchOrExpired);
      }
      if id in spent { return Err(ChallengeMismatchOrExpired); }
      spent := spent + [id];
      challenges := challenges - {id};
      r := Ok(c);
    }

    method ComputeRoot() returns (root: string)
      ensures root == RegistryRoot(env, merchants)
    {
      var active := ActiveLeaves(merchants);
      root := Merkle.MerkleRoot(env.sha, if |active| > 0 then active else [env.sha("a26z:empty-registry")]);
    }

    /** The Merkle path of an active leaf, computed and checked against the current root. */
    method ProveMembership(leaf: string, root: string) returns (path: Option<seq<string>>)
      requires root == RegistryRoot(env, merchants)
      ensures path == MembershipPath(env, Stored(), leaf)
    {
      hide Merkle.Fold, Merkle.Path, RegistryRoot;
      var leaves := ActiveLeaves(merchants);
      FirstIndexIs(leaf, leaves);
      var at := FirstIndex(leaf, leaves);
      if at == None { return None; }
      var steps := Merkle.MerkleProof(env.sha, leaves, at.value);
      var ok := Merkle.VerifyMerkle(env.sha, leaf, steps, root);
      path := if ok then Some(steps) else None;
    }

    method GenerateProof(merchantId: string, commitment: string, challengeId: string, auth: Authorization, now: int)
      returns (r: Result<Proof, Reason>)
      modifies this`metrics
      ensures (Stored(), r) == Prove(env, old(Stored()), merchantId, commitment, challengeId, auth, now)
    {
      hide HmacVerify, Digest, MembershipPath, RegistryRoot, Find;
      var found := Find(merchants, env.norm(merchantId));
      if found == None || found.value.status != Active { return Err(MerchantNotFound); }
      var m := found.value;
      if m.nullifier in revoked { return Err(NullifierRevoked); }
      if challengeId !in challenges { return Err(ChallengeMismatchOrExpired); }
      var c := challenges[challengeId];
      if now > c.expiresAt {
        metrics := metrics.(expired := metrics.expired + 1);
        return Err(ChallengeMismatchOrExpired);
      }
      if c.commitment != commitment { return Err(IntentCommitmentMismatch); }
      if auth.commitment != commitment { return Err(IntentCommitmentMismatch); }
      if !HmacVerify(env, m.secret, SigningMessage(commitment, m.publicKey), auth.signature) {
        return Err(AuthorizationSignatureInvalid);
      }
      var root := ComputeRoot();
      var path := ProveMembership(m.leaf, root);
      if path == None { return Err(MembershipProofInvalid); }
      var digest := Digest(env, root, c.platform, commitment, auth.signature, m.leaf, path.value);
      r := Ok(Proof(CIRCUIT, digest, root, c.platform, commitment, m.leaf, m.nullifier, auth.signature, now));
    }

    /** Counts a refusal. */
    method Finish(reason: Reason) returns (out: Outcome)
      modifies this`metrics
      ensures Stored() == RecordFailure(old(Stored()), reason) && out == Rejected(reason)
    {
      metrics := metrics.(failures := metrics.failures + 1,
                          byReason := metrics.byReason[reason := Count(metrics.byReason, reason) + 1]);
      out := Rejected(reason);
    }

    /** The checks that precede consuming the challenge, in the verifier's order. */
    method RunChecks(req: Request, now: int) returns (r: Result<Merchant, Reason>)
      ensures r == Check(env, Stored(), req, now)
    {
      hide HmacVerify, Digest, MembershipPath, RegistryRoot, Find, Matches;
      if req.intent.None? || req.commitment == "" || req.challengeId == "" || req.proof.None? {
        return Err(MissingRequiredFields);
      }
      var intent, p := req.intent.value, req.proof.value;
      if p.circuit != CIRCUIT { return Err(ProofInvalid); }
      if !Matches(env, intent, req.commitment) { return Err(IntentCommitmentMismatch); }
      if p.commitment != req.commitment { return Err(IntentCommitmentMismatch); }
      var found := Find(merchants, env.norm(intent.merchantId));
      if found == None { return Err(MerchantNotFound); }
      var m := found.value;
      if m.nullifier in revoked || m.status == Revoked { return Err(NullifierRevoked); }
      var root := ComputeRoot();
      if p.root != root { return Err(RegistryInconsistency); }
      if p.leaf != m.leaf { return Err(MembershipProofInvalid); }
      var path := ProveMembership(m.leaf, root);
      if path == None { return Err(MembershipProofInvalid); }
      if req.challengeId !in challenges { return Err(ChallengeMismatchOrExpired); }
      var pending := challenges[req.challengeId];
      if p.platform != pending.platform { return Err(ChallengeMismatchOrExpired); }
      if now - p.generatedAt > PROOF_TTL_MS { return Err(ExpiredProof); }
      if !HmacVerify(env, m.secret, SigningMessage(req.commitment, m.publicKey), p.signature) {
        return Err(AuthorizationSignatureInvalid);
      }
      var expected := Digest(env, root, pending.platform, req.commitment, p.signature, m.leaf, path.value);
      if expected != p.digest { return Err(ProofInvalid); }
      r := Ok(m);
    }

    method VerifyTransaction(req: Request, now: int) returns (out: Outcome)
      modifies this
      ensures (Stored(), out) == Verify(env, old(Stored()), req, now)
    {
      hide Check;
      var checked := RunChecks(req, now);
      if checked.Err? {
        out := Finish(checked.error);
        return;
      }
      var consumed := ConsumeChallenge(req.challengeId, now);
      if consumed.Err? {
        out := Finish(consumed.error);
        return;
      }
      metrics := metrics.(successes := metrics.successes + 1);
      out := Authorized(checked.value.id, req.commitment, req.challengeId, version,
                        if req.intent.Some? then req.intent.value.rail else "");
    }
  }
}
