/** What each answer of the authorization service says, condition by condition. */
module TxAuthOutcomes {
  import opened Wrappers
  import opened Text
  import opened Hashing
  import opened TxAuth
  import opened TxAuthSafety
  import opened TxAuthTheorems
  import Merkle

  /* Intents, challenges and registration */

  /** The commitment of an intent is the hash of its trimmed fields, when none is missing, the amount is positive and
      the destination is not blank. */
  lemma CommitIff(env: Env, i: Intent, commitment: string)
    ensures Commit(env, i) == Some(commitment) <==>
      && i.merchantId != "" && i.orderRef != "" && i.currency != "" && i.rail != "" && i.nonce != ""
      && i.destination != "" && env.trim(i.destination) != "" && i.amount > 0
      && commitment == env.sha("a26z:txintent:v1:" + env.json(
          CanonicalIntent(env.trim(i.merchantId), env.trim(i.orderRef), i.amount, env.trim(i.currency),
                          env.trim(i.rail), env.trim(i.destination), env.trim(i.nonce), i.timestamp)))
  {
  }

  /** A challenge is issued exactly for 64 hexadecimal digits. It lives for five minutes, replaces none but one of its
      id, and is bound to nonce, session, window and commitment. */
  lemma IssuedIff(env: Env, s: State, commitment: string, session: string, nonce: string, now: nat)
    ensures var (s', r) := Issue(env, s, commitment, session, nonce, now);
      && (r.Ok? <==> |commitment| == 64 && forall i :: 0 <= i < 64 ==>
           '0' <= commitment[i] <= '9' || 'a' <= commitment[i] <= 'f' || 'A' <= commitment[i] <= 'F')
      && (r.Err? ==> r.error == MalformedCommitment && s' == s)
      && (r.Ok? ==> (
        && r.value.commitment == commitment && r.value.session == session
        && r.value.issuedAt == now && r.value.expiresAt == now + 300_000
        && r.value.id == "txchal_" + (if |nonce| < 14 then nonce else nonce[..14])
        && r.value.platform == env.sha("a26z:txchal:" + nonce + "|" + session + "|"
             + (Decimal(now) + ":" + Decimal(now + 300_000)) + "|" + commitment)
        && s' == s.(challenges := s.challenges[r.value.id := r.value])))
  {
    hide Decimal;
  }

  /** A challenge is used exactly while it is pending, not expired and unspent; an expired one is dropped and counted,
      and nothing else changes on a refusal. */
  lemma ConsumedIff(s: State, id: string, now: int)
    ensures var (s', r) := Consume(s, id, now);
      && (r.Ok? <==> id in s.challenges && now <= s.challenges[id].expiresAt && id !in s.spent)
      && (r.Ok? ==> r.value == s.challenges[id] && s' == s.(spent := s.spent + [id], challenges := s.challenges - {id}))
      && (r.Err? && id in s.challenges && now > s.challenges[id].expiresAt ==>
           s' == s.(challenges := s.challenges - {id}, metrics := s.metrics.(expired := s.metrics.expired + 1)))
      && (r.Err? && (id in s.challenges ==> now <= s.challenges[id].expiresAt) ==> s' == s)
  {
  }

  lemma {:induction false} WithoutFinds(ms: seq<Merchant>, id: string, other: string)
    ensures Find(Without(ms, id), other) == if other == id then None else Find(ms, other)
  {
    if |ms| > 0 {
      WithoutFinds(ms[1..], id, other);
      PositionIs(ms, other);
      PositionIs(ms[1..], other);
      var rest := Without(ms[1..], id);
      if ms[0].id != id { assert ([ms[0]] + rest)[1..] == rest; }
    }
  }

  lemma {:induction false} FindAppended(ms: seq<Merchant>, m: Merchant, other: string)
    ensures Find(ms + [m], other) ==
      if Find(ms, other).Some? then Find(ms, other) else if m.id == other then Some(m) else None
  {
    if |ms| > 0 {
      FindAppended(ms[1..], m, other);
      assert (ms + [m])[1..] == ms[1..] + [m];
      PositionIs(ms, other);
      PositionIs(ms[1..], other);
      PositionIs(ms + [m], other);
      PositionIs(ms[1..] + [m], other);
    } else {
      assert (ms + [m])[1..] == [];
    }
  }

  /** Enrolling gives an active merchant under the id. One that was active already is returned as it is and nothing
      changes; otherwise key, leaf and nullifier come from the new secret, the version moves on, and every other id
      finds what it found before. */
  lemma Enrolled(env: Env, s: State, merchantId: string, secret: string, other: string)
    ensures var (s', m) := Enroll(env, s, merchantId, secret);
      var id := env.norm(merchantId);
      && Find(s'.merchants, id) == Some(m) && m.id == id && m.status == Active
      && (if Find(s.merchants, id).Some? && Find(s.merchants, id).value.status == Active then s' == s
          else
            && m.secret == secret && m.publicKey == env.sha("a26z:mpk:" + id + ":" + secret)
            && m.leaf == env.sha("a26z:merchant:" + id + "|" + m.publicKey)
            && m.nullifier == env.sha("a26z:m-nf:" + m.leaf)
            && s'.version == s'.metrics.registryVersion == s.version + 1
            && s' == s.(merchants := s'.merchants, version := s'.version, metrics := s'.metrics)
            && s'.metrics == s.metrics.(registryVersion := s'.version))
      && (other != id ==> Find(s'.merchants, other) == Find(s.merchants, other))
  {
    hide Find, Position, Without, PublicKey, LeafFor, NullifierFor;
    var id := env.norm(merchantId);
    WithoutFinds(s.merchants, id, id);
    WithoutFinds(s.merchants, id, other);
    FindAppended(Without(s.merchants, id), NewMerchant(env, id, secret), id);
    FindAppended(Without(s.merchants, id), NewMerchant(env, id, secret), other);
    FindOf(s.merchants, id);
    NewFields(env, id, secret);
  }

  lemma {:induction false} FindUpdated(ms: seq<Merchant>, i: nat, m: Merchant, other: string)
    requires Position(ms, m.id) == Some(i) && i < |ms|
    ensures Find(ms[i := m], other) == if other == m.id then Some(m) else Find(ms, other)
  {
    PositionIs(ms, m.id);
    if i == 0 {
      assert ms[0 := m][1..] == ms[1..];
    } else {
      FindUpdated(ms[1..], i - 1, m, other);
      assert ms[i := m][1..] == ms[1..][i - 1 := m];
    }
    PositionIs(ms, other);
    PositionIs(ms[1..], other);
    PositionIs(ms[i := m], other);
    PositionIs(ms[i := m][1..], other);
  }

  /** Revoking succeeds exactly for a known merchant: its status and the version change, its nullifier is accumulated
      once, and every other merchant stays as it was. */
  lemma RevokedIff(env: Env, s: State, merchantId: string, other: string)
    ensures var (s', r) := Revoke(env, s, merchantId);
      var id := env.norm(merchantId);
      && (r.Ok? <==> Find(s.merchants, id).Some?)
      && (r.Err? ==> r.error == MerchantNotFound && s' == s)
      && (r.Ok? ==>
        && r.value == Find(s.merchants, id).value.nullifier
        && Find(s'.merchants, id) == Some(Find(s.merchants, id).value.(status := Revoked))
        && s'.revoked == (if r.value in s.revoked then s.revoked else s.revoked + [r.value])
        && (other != id ==> Find(s'.merchants, other) == Find(s.merchants, other))
        && |s'.merchants| == |s.merchants|
        && s' == s.(merchants := s'.merchants, revoked := s'.revoked, version := s.version + 1,
                    metrics := s.metrics.(registryVersion := s.version + 1)))
  {
    hide Position;
    var id := env.norm(merchantId);
    PositionIs(s.merchants, id);
    if Position(s.merchants, id).Some? {
      var i := Position(s.merchants, id).value;
      FindUpdated(s.merchants, i, s.merchants[i].(status := Revoked), id);
      FindUpdated(s.merchants, i, s.merchants[i].(status := Revoked), other);
    }
  }

  lemma FindOf(ms: seq<Merchant>, id: string)
    ensures Find(ms, id).Some? ==> Find(ms, id).value.id == id
  {
    PositionIs(ms, id);
  }

  lemma NewFields(env: Env, id: string, secret: string)
    ensures var m := NewMerchant(env, id, secret);
      && m.id == id && m.status == Active && m.secret == secret
      && m.publicKey == env.sha("a26z:mpk:" + id + ":" + secret)
      && m.leaf == env.sha("a26z:merchant:" + id + "|" + m.publicKey) && m.nullifier == env.sha("a26z:m-nf:" + m.leaf)
  {
  }

  /* Merchant authorization */

  /** The merchant's signature of a commitment: the keyed hash of the text that names commitment and public key. */
  predicate SignedBy(env: Env, m: Merchant, commitment: string, signature: string) {
    FromHex(env.hmac(m.secret, "authorize:" + commitment + "|" + m.publicKey)) == FromHex(signature)
  }

  /** An authorization is given exactly for an active merchant, a committed intent within policy, and a signature of
      the merchant, the server's own where none is supplied and it may sign. */
  lemma AuthorizeIff(env: Env, s: State, intent: Intent, commitment: string, supplied: string, autoSign: bool, now: int)
    ensures var r := Authorize(env, s, intent, commitment, supplied, autoSign, now);
      var m := Find(s.merchants, env.norm(intent.merchantId));
      && (r.Ok? <==>
        && m.Some? && m.value.status == Active && Commit(env, intent) == Some(commitment)
        && intent.amount <= 1_000_000
        && (if supplied == "" then autoSign else SignedBy(env, m.value, commitment, supplied)))
      && (r.Ok? ==> (
        && r.value.merchantId == m.value.id && r.value.commitment == commitment && r.value.signedAt == now
        && SignedBy(env, m.value, commitment, r.value.signature)))
      && (r.Err? ==>
        match r.error
        case MerchantNotFound => m == None
        case NullifierRevoked => m.Some? && m.value.status != Active
        case IntentCommitmentMismatch =>
          m.Some? && m.value.status == Active && Commit(env, intent) != Some(commitment)
        case PolicyRejected => Commit(env, intent) == Some(commitment) && intent.amount > 1_000_000
        case AuthorizationSignatureInvalid => intent.amount <= 1_000_000
        case _ => false)
  {
    hide Find, Commit;
  }

  /* Proof and verification */

  /** The path of an active leaf always checks. */
  lemma MembershipIs(env: Env, s: State, leaf: string)
    ensures var leaves := ActiveLeaves(s.merchants);
      && (MembershipPath(env, s, leaf).Some? <==> leaf in leaves)
      && (leaf in leaves ==>
        && FirstIndex(leaf, leaves).Some? && FirstIndex(leaf, leaves).value < |leaves|
        && MembershipPath(env, s, leaf).value == Merkle.Path(env.sha, leaves, FirstIndex(leaf, leaves).value))
  {
    hide Merkle.Path, Merkle.Fold, Merkle.Root, ActiveLeaves, FirstIndex;
    var leaves := ActiveLeaves(s.merchants);
    FirstIndexIs(leaf, leaves);
    if leaf in leaves { Merkle.PathLeadsToRoot(env.sha, leaves, FirstIndex(leaf, leaves).value); }
  }

  /** The text whose hash is the proof. */
  function BoundText(root: string, platform: string, commitment: string, signature: string, leaf: string,
                     path: seq<string>): string
  {
    "prove_authorized_transaction|" + root + "|" + platform + "|" + commitment + "|" + signature + "|" + leaf + "|"
    + Joined(path)
  }

  lemma DigestIs(env: Env, root: string, platform: string, commitment: string, signature: string, leaf: string,
                 path: seq<string>)
    ensures Digest(env, root, platform, commitment, signature, leaf, path)
      == env.sha(BoundText(root, platform, commitment, signature, leaf, path))
  {
    assert CIRCUIT + "|" == "prove_authorized_transaction|";
  }

  /** A verification authorizes exactly when everything is given; the intent is the committed one; merchant, root and
      leaf are the registry's, the merchant active and not revoked; the challenge is pending, live and unspent; the
      proof is at most ten minutes old; it carries the merchant's signature; and its digest binds all of these. */
  lemma AuthorizedIff(env: Env, s: State, req: Request, now: int)
    ensures Verify(env, s, req, now).1.Authorized? <==>
      && req.intent.Some? && req.proof.Some? && req.commitment != "" && req.challengeId != ""
      && var (intent, p) := (req.intent.value, req.proof.value);
         var found := Find(s.merchants, env.norm(intent.merchantId));
         && p.circuit == "prove_authorized_transaction"
         && Commit(env, intent) == Some(req.commitment) && p.commitment == req.commitment
         && found.Some?
         && var m := found.value;
            && m.status != Revoked && m.nullifier !in s.revoked
            && p.root == RegistryRoot(env, s.merchants) && p.leaf == m.leaf && m.leaf in ActiveLeaves(s.merchants)
            && req.challengeId in s.challenges && req.challengeId !in s.spent
            && p.platform == s.challenges[req.challengeId].platform
            && now <= s.challenges[req.challengeId].expiresAt && now - p.generatedAt <= 600_000
            && SignedBy(env, m, req.commitment, p.signature)
            && var path := MembershipPath(env, s, m.leaf);
               path.Some?
               && p.digest == env.sha(BoundText(p.root, p.platform, req.commitment, p.signature, m.leaf, path.value))
  {
    hide RegistryRoot, Digest, Find, Commit, MembershipPath, ActiveLeaves, Joined;
    if req.intent.Some? && req.proof.Some? {
      var p := req.proof.value;
      var found := Find(s.merchants, env.norm(req.intent.value.merchantId));
      if found.Some? {
        MembershipIs(env, s, found.value.leaf);
        if MembershipPath(env, s, found.value.leaf).Some? {
          DigestIs(env, p.root, p.platform, req.commitment, p.signature, found.value.leaf,
                   MembershipPath(env, s, found.value.leaf).value);
        }
      }
    }
  }

  predicate Given(req: Request) {
    req.intent.Some? && req.proof.Some? && req.commitment != "" && req.challengeId != ""
  }

  /** The proof is of the right circuit and both it and the intent have the request's commitment. */
  predicate Committed(env: Env, req: Request) {
    && Given(req) && req.proof.value.circuit == "prove_authorized_transaction"
    && Commit(env, req.intent.value) == Some(req.commitment) && req.proof.value.commitment == req.commitment
  }

  function Named(env: Env, s: State, req: Request): Option<Merchant> {
    if req.intent.Some? then Find(s.merchants, env.norm(req.intent.value.merchantId)) else None
  }

  /** The registry agrees with the proof too, for a merchant that is not revoked. */
  predicate Registered(env: Env, s: State, req: Request) {
    && Committed(env, req) && Named(env, s, req).Some?
    && var (m, p) := (Named(env, s, req).value, req.proof.value);
       && m.status != Revoked && m.nullifier !in s.revoked
       && p.root == RegistryRoot(env, s.merchants) && p.leaf == m.leaf && m.leaf in ActiveLeaves(s.merchants)
  }

  /** And the challenge is the pending one. */
  predicate Challenged(env: Env, s: State, req: Request) {
    && Registered(env, s, req) && req.challengeId in s.challenges
    && req.proof.value.platform == s.challenges[req.challengeId].platform
  }

  /** The digest binds what was checked. */
  predicate Digested(env: Env, s: State, req: Request)
    requires Named(env, s, req).Some? && req.proof.Some?
  {
    var (leaf, p) := (Named(env, s, req).value.leaf, req.proof.value);
    var path := MembershipPath(env, s, leaf);
    path.Some? && p.digest == env.sha(BoundText(p.root, p.platform, req.commitment, p.signature, leaf, path.value))
  }

  lemma MerchantRefused(env: Env, s: State, req: Request, now: int)
    requires Committed(env, req) && Named(env, s, req).Some?
    requires CheckMerchant(env, s, req.commitment, req.challengeId, req.proof.value, Named(env, s, req).value, now).Err?
    ensures var (m, p) := (Named(env, s, req).value, req.proof.value);
      match CheckMerchant(env, s, req.commitment, req.challengeId, p, m, now).error
      case NullifierRevoked => m.status == Revoked || m.nullifier in s.revoked
      case RegistryInconsistency => p.root != RegistryRoot(env, s.merchants)
      case MembershipProofInvalid =>
        p.root == RegistryRoot(env, s.merchants) && (p.leaf != m.leaf || m.leaf !in ActiveLeaves(s.merchants))
      case ChallengeMismatchOrExpired => Registered(env, s, req) && !Challenged(env, s, req)
      case ExpiredProof => Challenged(env, s, req) && now - p.generatedAt > 600_000
      case AuthorizationSignatureInvalid =>
        && Challenged(env, s, req) && now - p.generatedAt <= 600_000 && !SignedBy(env, m, req.commitment, p.signature)
      case ProofInvalid =>
        && Challenged(env, s, req) && now - p.generatedAt <= 600_000 && SignedBy(env, m, req.commitment, p.signature)
        && !Digested(env, s, req)
      case _ => false
  {
    hide RegistryRoot, Digest, Find, Commit, MembershipPath, ActiveLeaves, Joined;
    var (m, p) := (Named(env, s, req).value, req.proof.value);
    MembershipIs(env, s, m.leaf);
    if MembershipPath(env, s, m.leaf).Some? {
      DigestIs(env, p.root, p.platform, req.commitment, p.signature, m.leaf, MembershipPath(env, s, m.leaf).value);
    }
  }

  lemma CheckRefused(env: Env, s: State, req: Request, now: int)
    requires Check(env, s, req, now).Err?
    ensures var m := Named(env, s, req);
      match Check(env, s, req, now).error
      case MissingRequiredFields => !Given(req)
      case ProofInvalid =>
        && Given(req)
        && (req.proof.value.circuit != "prove_authorized_transaction"
            || (Challenged(env, s, req) && now - req.proof.value.generatedAt <= 600_000
                && SignedBy(env, m.value, req.commitment, req.proof.value.signature)
                && !Digested(env, s, req)))
      case IntentCommitmentMismatch =>
        && Given(req) && req.proof.value.circuit == "prove_authorized_transaction"
        && (Commit(env, req.intent.value) != Some(req.commitment) || req.proof.value.commitment != req.commitment)
      case MerchantNotFound => Committed(env, req) && m == None
      case NullifierRevoked =>
        Committed(env, req) && m.Some? && (m.value.status == Revoked || m.value.nullifier in s.revoked)
      case RegistryInconsistency => Committed(env, req) && req.proof.value.root != RegistryRoot(env, s.merchants)
      case MembershipProofInvalid =>
        && Committed(env, req) && m.Some? && req.proof.value.root == RegistryRoot(env, s.merchants)
        && (req.proof.value.leaf != m.value.leaf || m.value.leaf !in ActiveLeaves(s.merchants))
      case ChallengeMismatchOrExpired =>
        Registered(env, s, req) && !Challenged(env, s, req)
      case ExpiredProof => Challenged(env, s, req) && now - req.proof.value.generatedAt > 600_000
      case AuthorizationSignatureInvalid =>
        && Challenged(env, s, req) && now - req.proof.value.generatedAt <= 600_000
        && !SignedBy(env, m.value, req.commitment, req.proof.value.signature)
      case _ => false
  {
    hide RegistryRoot, Find, Commit, ActiveLeaves, CheckMerchant, Challenged, Digested, Registered;
    if Committed(env, req) && Named(env, s, req).Some? { MerchantRefused(env, s, req, now); }
  }

  /** What a rejection says: its reason names the first check that fails. */
  lemma RejectedMeans(env: Env, s: State, req: Request, now: int)
    requires Verify(env, s, req, now).1.Rejected?
    ensures var m := Named(env, s, req);
      match Verify(env, s, req, now).1.reason
      case MissingRequiredFields => !Given(req)
      case ProofInvalid =>
        && Given(req)
        && (req.proof.value.circuit != "prove_authorized_transaction"
            || (Challenged(env, s, req) && now - req.proof.value.generatedAt <= 600_000
                && SignedBy(env, m.value, req.commitment, req.proof.value.signature)
                && !Digested(env, s, req)))
      case IntentCommitmentMismatch =>
        && Given(req) && req.proof.value.circuit == "prove_authorized_transaction"
        && (Commit(env, req.intent.value) != Some(req.commitment) || req.proof.value.commitment != req.commitment)
      case MerchantNotFound => Committed(env, req) && m == None
      case NullifierRevoked =>
        Committed(env, req) && m.Some? && (m.value.status == Revoked || m.value.nullifier in s.revoked)
      case RegistryInconsistency => Committed(env, req) && req.proof.value.root != RegistryRoot(env, s.merchants)
      case MembershipProofInvalid =>
        && Committed(env, req) && m.Some? && req.proof.value.root == RegistryRoot(env, s.merchants)
        && (req.proof.value.leaf != m.value.leaf || m.value.leaf !in ActiveLeaves(s.merchants))
      case ChallengeMismatchOrExpired =>
        && Registered(env, s, req)
        && (Challenged(env, s, req) ==>
              now > s.challenges[req.challengeId].expiresAt || req.challengeId in s.spent)
      case ExpiredProof => Challenged(env, s, req) && now - req.proof.value.generatedAt > 600_000
      case AuthorizationSignatureInvalid =>
        && Challenged(env, s, req) && now - req.proof.value.generatedAt <= 600_000
        && !SignedBy(env, m.value, req.commitment, req.proof.value.signature)
      case _ => false
  {
    hide Check, RegistryRoot, Digest, Find, Commit, ActiveLeaves, Challenged, Digested, Registered, SignedBy;
    if Check(env, s, req, now).Err? { CheckRefused(env, s, req, now); } else { CheckPassed(env, s, req, now); }
  }

  lemma CheckPassed(env: Env, s: State, req: Request, now: int)
    requires Check(env, s, req, now).Ok?
    ensures Registered(env, s, req) && Challenged(env, s, req) && req.challengeId in s.challenges
  {
    hide RegistryRoot, Digest, Find, Commit, MembershipPath, ActiveLeaves, HmacVerify;
    MembershipIs(env, s, Named(env, s, req).value.leaf);
  }

  /** A rejection is counted under its reason; beyond that only an expired challenge is dropped. */
  lemma RejectedWrites(env: Env, s: State, req: Request, now: int)
    requires Verify(env, s, req, now).1.Rejected?
    ensures var (s', r) := (Verify(env, s, req, now).0, Verify(env, s, req, now).1.reason);
      && s'.metrics.failures == s.metrics.failures + 1
      && s'.metrics.byReason == s.metrics.byReason[r := Count(s.metrics.byReason, r) + 1]
      && s'.merchants == s.merchants && s'.revoked == s.revoked && s'.spent == s.spent && s'.version == s.version
      && (s'.challenges != s.challenges ==>
           && r == ChallengeMismatchOrExpired && req.challengeId in s.challenges
           && s'.challenges == s.challenges - {req.challengeId} && now > s.challenges[req.challengeId].expiresAt)
  {
    hide Check;
  }

  /** What an authorization answers and writes. */
  lemma AuthorizedWrites(env: Env, s: State, req: Request, now: int)
    requires Verify(env, s, req, now).1.Authorized?
    ensures Named(env, s, req).Some? && Given(req)
    ensures var (s', out) := Verify(env, s, req, now);
      && out == Authorized(Named(env, s, req).value.id, req.commitment, req.challengeId, s.version,
                           req.intent.value.rail)
      && s' == s.(spent := s.spent + [req.challengeId], challenges := s.challenges - {req.challengeId},
                  metrics := s.metrics.(successes := s.metrics.successes + 1))
  {
    hide RegistryRoot, Digest, Find, Commit, MembershipPath, ActiveLeaves;
  }

  /* Proving against verifying */

  /** A proof is made exactly for an active merchant that is not revoked, a pending live challenge for the commitment,
      and the merchant's signature of it; only a refusal of an expired challenge is counted. */
  lemma ProvedIff(env: Env, s: State, merchantId: string, commitment: string, challengeId: string, auth: Authorization,
                  now: int)
    ensures var (s', r) := Prove(env, s, merchantId, commitment, challengeId, auth, now);
      var found := Find(s.merchants, env.norm(merchantId));
      && (r.Ok? <==>
        && found.Some? && found.value.status == Active && found.value.nullifier !in s.revoked
        && challengeId in s.challenges && now <= s.challenges[challengeId].expiresAt
        && s.challenges[challengeId].commitment == commitment && auth.commitment == commitment
        && SignedBy(env, found.value, commitment, auth.signature))
      && (r.Ok? ==>
        && s' == s && MembershipPath(env, s, found.value.leaf).Some?
        && var (m, c, root) := (found.value, s.challenges[challengeId], RegistryRoot(env, s.merchants));
           r.value == Proof(
             "prove_authorized_transaction",
             env.sha(BoundText(root, c.platform, commitment, auth.signature, m.leaf,
                               MembershipPath(env, s, m.leaf).value)),
             root, c.platform, commitment, m.leaf, m.nullifier, auth.signature, now))
      && (r.Err? ==>
        match r.error
        case MerchantNotFound => s' == s && (found.Some? ==> found.value.status != Active)
        case NullifierRevoked => s' == s && found.Some? && found.value.nullifier in s.revoked
        case ChallengeMismatchOrExpired =>
          if challengeId !in s.challenges then s' == s
          else
            && now > s.challenges[challengeId].expiresAt
            && s' == s.(metrics := s.metrics.(expired := s.metrics.expired + 1))
        case IntentCommitmentMismatch =>
          && s' == s && challengeId in s.challenges && now <= s.challenges[challengeId].expiresAt
          && (s.challenges[challengeId].commitment != commitment || auth.commitment != commitment)
        case AuthorizationSignatureInvalid =>
          s' == s && found.Some? && !SignedBy(env, found.value, commitment, auth.signature)
        case _ => false)
  {
    hide RegistryRoot, Digest, Find, MembershipPath, ActiveLeaves, Joined;
    var found := Find(s.merchants, env.norm(merchantId));
    if found.Some? {
      var m := found.value;
      MembershipIs(env, s, m.leaf);
      PositionIs(s.merchants, env.norm(merchantId));
      if m.status == Active { ActiveListed(s.merchants, env.norm(merchantId)); }
      if MembershipPath(env, s, m.leaf).Some? && challengeId in s.challenges {
        DigestIs(env, RegistryRoot(env, s.merchants), s.challenges[challengeId].platform, commitment, auth.signature,
                 m.leaf, MembershipPath(env, s, m.leaf).value);
      }
    }
  }

  lemma ActiveListed(ms: seq<Merchant>, id: string)
    requires Find(ms, id).Some? && Find(ms, id).value.status == Active
    ensures Find(ms, id).value.leaf in ActiveLeaves(ms)
  {
    hide ActiveLeaves;
    FindIn(ms, id);
    ActiveLeavesAre(ms);
  }

  /** What the prover would answer now to the merchant's authorization with the signature that a proof carries. */
  function Remade(env: Env, s: State, req: Request, p: Proof, now: int): Result<Proof, Reason>
    requires req.intent.Some?
  {
    Prove(env, s, req.intent.value.merchantId, req.commitment, req.challengeId,
          Authorization(p.signature, req.intent.value.merchantId, req.commitment, now), now).1
  }

  /** In every reachable state a proof that is accepted is the one the prover would make there, but for its date and
      its copy of the nullifier, exactly when the challenge was issued for the commitment: the verifier does not compare
      the two. */
  lemma AcceptedIsProvedIff(env: Env, w: World, req: Request, now: int)
    requires Inv(env, w) && Verify(env, w.s, req, now).1.Authorized?
    ensures req.intent.Some? && req.proof.Some? && req.challengeId in w.s.challenges
    ensures var p := req.proof.value;
      var q := Remade(env, w.s, req, p, now);
      q.Ok? && p == q.value.(generatedAt := p.generatedAt, nullifier := p.nullifier) <==>
        w.s.challenges[req.challengeId].commitment == req.commitment
  {
    hide RegistryRoot, Find, Commit, MembershipPath, ActiveLeaves, Joined, Verify, Prove, ChallengeInv, MetricsInv,
      MerchantOk, EnrolledNullifier;
    AuthorizedIff(env, w.s, req, now);
    var (intent, p) := (req.intent.value, req.proof.value);
    ProvedIff(env, w.s, intent.merchantId, req.commitment, req.challengeId,
              Authorization(p.signature, intent.merchantId, req.commitment, now), now);
    FindIn(w.s.merchants, env.norm(intent.merchantId));
  }

  /** The merchant's signed proof for a challenge, whatever commitment that was issued for. */
  function ProofFor(env: Env, s: State, m: Merchant, c: Challenge, commitment: string, now: int): Proof {
    var signature := env.hmac(m.secret, "authorize:" + commitment + "|" + m.publicKey);
    var root := RegistryRoot(env, s.merchants);
    var path := MembershipPath(env, s, m.leaf);
    Proof("prove_authorized_transaction",
          env.sha(BoundText(root, c.platform, commitment, signature, m.leaf, if path.Some? then path.value else [])),
          root, c.platform, commitment, m.leaf, m.nullifier, signature, now)
  }

  /** Such proofs are accepted for any pending live challenge, whatever commitment it was issued for; the prover makes
      none for another commitment. */
  lemma OtherChallengeAccepted(env: Env, w: World, m: Merchant, intent: Intent, commitment: string, id: string,
                               auth: Authorization, now: int)
    requires Inv(env, w) && Find(w.s.merchants, env.norm(intent.merchantId)) == Some(m) && m.status == Active
    requires Commit(env, intent) == Some(commitment) && commitment != "" && id != ""
    requires id in w.s.challenges && now <= w.s.challenges[id].expiresAt
    ensures var req := Request(Some(intent), commitment, id,
                               Some(ProofFor(env, w.s, m, w.s.challenges[id], commitment, now)));
      Verify(env, w.s, req, now).1.Authorized?
    ensures w.s.challenges[id].commitment != commitment ==>
      Prove(env, w.s, intent.merchantId, commitment, id, auth, now).1.Err?
  {
    hide RegistryRoot, Find, Commit, MembershipPath, ActiveLeaves, Joined, Verify, Prove, MetricsInv, MerchantOk,
      EnrolledNullifier, WellMade;
    var req := Request(Some(intent), commitment, id,
                       Some(ProofFor(env, w.s, m, w.s.challenges[id], commitment, now)));
    FindIn(w.s.merchants, env.norm(intent.merchantId));
    ActiveListed(w.s.merchants, env.norm(intent.merchantId));
    MembershipIs(env, w.s, m.leaf);
    AuthorizedIff(env, w.s, req, now);
    ProvedIff(env, w.s, intent.merchantId, commitment, id, auth, now);
  }

  /* What the digest binds */

  /** Steps that are not empty and have no comma, as hashes are written. */
  predicate PathText(path: seq<string>) { forall i :: 0 <= i < |path| ==> path[i] != "" && ',' !in path[i] }

  /** Only a path of several steps is written with a comma. */
  lemma CommaIff(path: seq<string>)
    requires PathText(path)
    ensures ',' in Joined(path) <==> |path| > 1
    ensures Joined(path) == "" <==> path == []
  {
  }

  lemma {:induction false} JoinedInjective(path: seq<string>, other: seq<string>)
    requires PathText(path) && PathText(other) && Joined(path) == Joined(other)
    ensures path == other
  {
    CommaIff(path);
    CommaIff(other);
    if |path| > 1 {
      SplitFirst(path[0], Joined(path[1..]), other[0], Joined(other[1..]), ',');
      JoinedInjective(path[1..], other[1..]);
      assert path == [path[0]] + path[1..] && other == [other[0]] + other[1..];
    }
  }

  lemma Regroup(a: string, x: string, rest: string)
    ensures a + x + "|" + rest == a + (x + "|" + rest)
  {
  }

  /** The bound text, grouped from the right. */
  lemma BoundTextIs(r: string, p: string, c: string, s: string, l: string, path: seq<string>)
    ensures BoundText(r, p, c, s, l, path)
      == "prove_authorized_transaction|" + (r + "|" + (p + "|" + (c + "|" + (s + "|" + (l + "|" + Joined(path))))))
  {
    var a0, j := "prove_authorized_transaction|", Joined(path);
    var a1 := a0 + r + "|";
    var a2 := a1 + p + "|";
    var a3 := a2 + c + "|";
    var a4 := a3 + s + "|";
    Regroup(a4, l, j);
    Regroup(a3, s, l + "|" + j);
    Regroup(a2, c, s + "|" + (l + "|" + j));
    Regroup(a1, p, c + "|" + (s + "|" + (l + "|" + j)));
    Regroup(a0, r, p + "|" + (c + "|" + (s + "|" + (l + "|" + j))));
  }

  /** A proof's digest binds root, challenge, commitment, signature, leaf and path: equal digests of texts without
      separators have equal parts. */
  lemma DigestBinds(env: Env, r: string, p: string, c: string, s: string, l: string, path: seq<string>,
                    r': string, p': string, c': string, s': string, l': string, path': seq<string>)
    requires GoodEnv(env) && PathText(path) && PathText(path')
    requires '|' !in r && '|' !in p && '|' !in c && '|' !in s && '|' !in l
    requires '|' !in r' && '|' !in p' && '|' !in c' && '|' !in s' && '|' !in l'
    requires Digest(env, r, p, c, s, l, path) == Digest(env, r', p', c', s', l', path')
    ensures r == r' && p == p' && c == c' && s == s' && l == l' && path == path'
  {
    hide Joined, PathText, Digest, BoundText;
    DigestIs(env, r, p, c, s, l, path);
    DigestIs(env, r', p', c', s', l', path');
    BoundTextIs(r, p, c, s, l, path);
    BoundTextIs(r', p', c', s', l', path');
    var l5, l5' := l + "|" + Joined(path), l' + "|" + Joined(path');
    var l4, l4' := s + "|" + l5, s' + "|" + l5';
    var l3, l3' := c + "|" + l4, c' + "|" + l4';
    var l2, l2' := p + "|" + l3, p' + "|" + l3';
    Prefixed("prove_authorized_transaction|", r + "|" + l2, r' + "|" + l2');
    SplitFirst(r, l2, r', l2', '|');
    SplitFirst(p, l3, p', l3', '|');
    SplitFirst(c, l4, c', l4', '|');
    SplitFirst(s, l5, s', l5', '|');
    SplitFirst(l, Joined(path), l', Joined(path'), '|');
    JoinedInjective(path, path');
  }
}
