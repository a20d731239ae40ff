/** Rail-agnostic transaction authorization: what each operation of the registry, the challenge desk, the prover
    and the verifier returns and how it changes the authorization state. */
module TxAuth {
  import opened Wrappers
  import opened Text
  import opened Hashing
  import Merkle

  /** The hash, the keyed hash, JSON text of a canonical intent, and the runtime's string functions
      (`norm` trims and lower-cases, `trim` trims). */
  datatype Env = Env(
    sha: string -> string,
    hmac: (string, string) -> string,
    json: CanonicalIntent -> string,
    norm: string -> string,
    trim: string -> string)

  ghost predicate GoodEnv(env: Env) {
    && GoodHash(env.sha)
    && (forall a, b :: env.json(a) == env.json(b) ==> a == b)
  }

  const CIRCUIT := "prove_authorized_transaction"
  const CHALLENGE_TTL_MS := 300_000
  const PROOF_TTL_MS := 600_000
  const MAX_AMOUNT := 1_000_000

  datatype Status = Active | Suspended | Revoked

  datatype Merchant = Merchant(id: string, publicKey: string, secret: string, nullifier: string, status: Status,
                               leaf: string)

  datatype Intent = Intent(merchantId: string, orderRef: string, amount: int, currency: string, rail: string,
                           destination: string, nonce: string, timestamp: int)

  /** The eight fields in their fixed order, trimmed; amounts are whole numbers. */
  datatype CanonicalIntent = CanonicalIntent(merchantId: string, orderRef: string, amount: int, currency: string,
                                             rail: string, destination: string, nonce: string, timestamp: int)

  datatype Challenge = Challenge(id: string, platform: string, session: string, issuedAt: nat, expiresAt: nat,
                                 commitment: string)

  datatype Authorization = Authorization(signature: string, merchantId: string, commitment: string, signedAt: int)

  datatype Proof = Proof(circuit: string, digest: string, root: string, platform: string, commitment: string,
                         leaf: string, nullifier: string, signature: string, generatedAt: int)

  datatype Reason =
    | MissingRequiredFields | MerchantNotFound | MembershipProofInvalid | AuthorizationSignatureInvalid
    | NullifierRevoked | ChallengeMismatchOrExpired | IntentCommitmentMismatch | RegistryInconsistency
    | MalformedCommitment | ProofInvalid | ExpiredProof | PolicyRejected

  datatype Metrics = Metrics(successes: nat, failures: nat, byReason: map<Reason, nat>, expired: nat,
                             registryVersion: nat)

  datatype State = State(merchants: seq<Merchant>, revoked: seq<string>, version: nat,
                         challenges: map<string, Challenge>, spent: seq<string>, metrics: Metrics)

  const INITIAL := State([], [], 0, map[], [], Metrics(0, 0, map[], 0, 0))

  datatype Outcome =
    | Authorized(merchantId: string, commitment: string, challengeId: string, version: nat, rail: string)
    | Rejected(reason: Reason)

  /* Registry */

  function PublicKey(env: Env, id: string, secret: string): string { env.sha("a26z:mpk:" + id + ":" + secret) }

  function LeafFor(env: Env, id: string, publicKey: string): string { env.sha("a26z:merchant:" + id + "|" + publicKey) }

  function NullifierFor(env: Env, leaf: string): string { env.sha("a26z:m-nf:" + leaf) }

  function NewMerchant(env: Env, id: string, secret: string): Merchant {
    var pk := PublicKey(env, id, secret);
    var leaf := LeafFor(env, id, pk);
    Merchant(id, pk, secret, NullifierFor(env, leaf), Active, leaf)
  }

  function ActiveLeaves(merchants: seq<Merchant>): seq<string> {
    if |merchants| == 0 then []
    else if merchants[0].status == Active then [merchants[0].leaf] + ActiveLeaves(merchants[1..])
    else ActiveLeaves(merchants[1..])
  }

  /** The leaves the root is computed over: a sentinel stands for an empty registry. */
  function RootLeaves(env: Env, merchants: seq<Merchant>): seq<string> {
    if |ActiveLeaves(merchants)| == 0 then [env.sha("a26z:empty-registry")] else ActiveLeaves(merchants)
  }

  function RegistryRoot(env: Env, merchants: seq<Merchant>): string { Merkle.Root(env.sha, RootLeaves(env, merchants)) }

  /** The position of the first merchant with this id. */
  function Position(merchants: seq<Merchant>, id: string): Option<nat> {
    if |merchants| == 0 then None
    else if merchants[0].id == id then Some(0)
    else
      match Position(merchants[1..], id)
      case None => None
      case Some(i) => Some(i + 1)
  }

  function Find(merchants: seq<Merchant>, id: string): Option<Merchant> {
    match Position(merchants, id)
    case None => None
    case Some(i) => PositionIs(merchants, id); Some(merchants[i])
  }

  lemma {:induction false} PositionIs(merchants: seq<Merchant>, id: string)
    ensures match Position(merchants, id)
      case None => forall m :: m in merchants ==> m.id != id
      case Some(i) => i < |merchants| && merchants[i].id == id && forall j :: 0 <= j < i ==> merchants[j].id != id
  {
    if |merchants| > 0 && merchants[0].id != id { PositionIs(merchants[1..], id); }
  }

  function Without(merchants: seq<Merchant>, id: string): seq<Merchant> {
    if |merchants| == 0 then []
    else if merchants[0].id == id then Without(merchants[1..], id)
    else [merchants[0]] + Without(merchants[1..], id)
  }

  function BumpVersion(s: State): State {
    s.(version := s.version + 1, metrics := s.metrics.(registryVersion := s.version + 1))
  }

  /** Enrolls unless an active merchant has the id already; an inactive one is replaced under a new secret. */
  function Enroll(env: Env, s: State, merchantId: string, secret: string): (State, Merchant) {
    var id := env.norm(merchantId);
    match Find(s.merchants, id)
    case Some(m) =>
      if m.status == Active then (s, m)
      else
        var created := NewMerchant(env, id, secret);
        (BumpVersion(s.(merchants := Without(s.merchants, id) + [created])), created)
    case None =>
      var created := NewMerchant(env, id, secret);
      (BumpVersion(s.(merchants := Without(s.merchants, id) + [created])), created)
  }

  /** Marks the merchant revoked, adds its nullifier to the accumulator once, and moves the version on. */
  function Revoke(env: Env, s: State, merchantId: string): (State, Result<string, Reason>) {
    match Position(s.merchants, env.norm(merchantId))
    case None => (s, Err(MerchantNotFound))
    case Some(i) =>
      PositionIs(s.merchants, env.norm(merchantId));
      var m := s.merchants[i];
      var revoked := if m.nullifier in s.revoked then s.revoked else s.revoked + [m.nullifier];
      (BumpVersion(s.(merchants := s.merchants[i := m.(status := Revoked)], revoked := revoked)), Ok(m.nullifier))
  }

  /* Challenges */

  predicate CommitmentShape(c: string) { |c| == 64 && forall i :: 0 <= i < 64 ==> DigitValue(c[i]).Some? }

  function ChallengeId(nonce: string): string { "txchal_" + if |nonce| <= 14 then nonce else nonce[..14] }

  function Window(issuedAt: nat, expiresAt: nat): string { Decimal(issuedAt) + ":" + Decimal(expiresAt) }

  function PlatformChallenge(env: Env, nonce: string, session: string, window: string, commitment: string): string {
    env.sha("a26z:txchal:" + nonce + "|" + session + "|" + window + "|" + commitment)
  }

  function NewChallenge(env: Env, commitment: string, session: string, nonce: string, now: nat): Challenge {
    var expires := now + CHALLENGE_TTL_MS;
    Challenge(ChallengeId(nonce), PlatformChallenge(env, nonce, session, Window(now, expires), commitment),
              session, now, expires, commitment)
  }

  function Issue(env: Env, s: State, commitment: string, session: string, nonce: string, now: nat): (State,
                 Result<Challenge, Reason>) {
    if !CommitmentShape(commitment) then (s, Err(MalformedCommitment))
    else
      var c := NewChallenge(env, commitment, session, nonce, now);
      (s.(challenges := s.challenges[c.id := c]), Ok(c))
  }

  /** Removes an expired challenge; otherwise moves an unspent one from the pending to the spent challenges. */
  function Consume(s: State, id: string, now: int): (State, Result<Challenge, Reason>) {
    if id !in s.challenges then (s, Err(ChallengeMismatchOrExpired))
    else
      var c := s.challenges[id];
      if now > c.expiresAt then
        (s.(challenges := s.challenges - {id}, metrics := s.metrics.(expired := s.metrics.expired + 1)),
         Err(ChallengeMismatchOrExpired))
      else if id in s.spent then (s, Err(ChallengeMismatchOrExpired))
      else (s.(spent := s.spent + [id], challenges := s.challenges - {id}), Ok(c))
  }

  /* Intents */

  /** None when a field is missing, the amount is not positive or the destination is blank. */
  function Canonicalize(env: Env, i: Intent): Option<CanonicalIntent> {
    if i.merchantId == "" || i.orderRef == "" || i.amount <= 0 || i.currency == "" || i.rail == ""
      || i.destination == "" || env.trim(i.destination) == "" || i.nonce == "" then None
    else Some(CanonicalIntent(env.trim(i.merchantId), env.trim(i.orderRef), i.amount, env.trim(i.currency),
                              env.trim(i.rail), env.trim(i.destination), env.trim(i.nonce), i.timestamp))
  }

  function Commit(env: Env, i: Intent): Option<string> {
    match Canonicalize(env, i)
    case None => None
    case Some(c) => Some(env.sha("a26z:txintent:v1:" + env.json(c)))
  }

  predicate Matches(env: Env, i: Intent, commitment: string) { Commit(env, i) == Some(commitment) }

  /* Merchant signatures */

  function SigningMessage(commitment: string, publicKey: string): string { "authorize:" + commitment + "|" + publicKey }

  predicate HmacVerify(env: Env, secret: string, message: string, signature: string) {
    FromHex(env.hmac(secret, message)) == FromHex(signature)
  }

  /** A supplied signature is checked; without one the server signs when it is allowed to. */
  function Authorize(env: Env, s: State, intent: Intent, commitment: string, supplied: string, autoSign: bool, now: int)
    : Result<Authorization, Reason>
  {
    match Find(s.merchants, env.norm(intent.merchantId))
    case None => Err(MerchantNotFound)
    case Some(m) =>
      var message := SigningMessage(commitment, m.publicKey);
      if m.status != Active then Err(NullifierRevoked)
      else if !Matches(env, intent, commitment) then Err(IntentCommitmentMismatch)
      else if intent.amount > MAX_AMOUNT then Err(PolicyRejected)
      else if supplied != "" then
        if HmacVerify(env, m.secret, message, supplied) then Ok(Authorization(supplied, m.id, commitment, now))
        else Err(AuthorizationSignatureInvalid)
      else if !autoSign then Err(AuthorizationSignatureInvalid)
      else Ok(Authorization(env.hmac(m.secret, message), m.id, commitment, now))
  }

  /* Proving */

  function Joined(path: seq<string>): string {
    if |path| == 0 then "" else if |path| == 1 then path[0] else path[0] + "," + Joined(path[1..])
  }

  function Digest(env: Env, root: string, platform: string, commitment: string, signature: string, leaf: string,
                  path: seq<string>): string {
    env.sha(CIRCUIT + "|" + root + "|" + platform + "|" + commitment + "|" + signature + "|" + leaf + "|"
            + Joined(path))
  }

  function FirstIndex(x: string, s: seq<string>): Option<nat> {
    if |s| == 0 then None
    else if s[0] == x then Some(0)
    else
      match FirstIndex(x, s[1..])
      case None => None
      case Some(i) => Some(i + 1)
  }

  lemma {:induction false} FirstIndexIs(x: string, s: seq<string>)
    ensures match FirstIndex(x, s)
      case None => x !in s
      case Some(i) => i < |s| && s[i] == x
  {
    if |s| > 0 && s[0] != x { FirstIndexIs(x, s[1..]); }
  }

  /** The Merkle path of an active leaf, when it checks against the registry root. */
  function MembershipPath(env: Env, s: State, leaf: string): Option<seq<string>> {
    var leaves := ActiveLeaves(s.merchants);
    FirstIndexIs(leaf, leaves);
    match FirstIndex(leaf, leaves)
    case None => None
    case Some(i) =>
      var path := Merkle.Path(env.sha, leaves, i);
      if Merkle.Fold(env.sha, leaf, path) == RegistryRoot(env, s.merchants) then Some(path) else None
  }

  function CountExpired(s: State): State { s.(metrics := s.metrics.(expired := s.metrics.expired + 1)) }

  function Prove(env: Env, s: State, merchantId: string, commitment: string, challengeId: string, auth: Authorization,
                 now: int)
    : (State, Result<Proof, Reason>)
  {
    match Find(s.merchants, env.norm(merchantId))
    case None => (s, Err(MerchantNotFound))
    case Some(m) =>
      if m.status != Active then (s, Err(MerchantNotFound))
      else if m.nullifier in s.revoked then (s, Err(NullifierRevoked))
      else if challengeId !in s.challenges then (s, Err(ChallengeMismatchOrExpired))
      else
        var c := s.challenges[challengeId];
        if now > c.expiresAt then (CountExpired(s), Err(ChallengeMismatchOrExpired))
        else if c.commitment != commitment || auth.commitment != commitment then (s, Err(IntentCommitmentMismatch))
        else if !HmacVerify(env, m.secret, SigningMessage(commitment, m.publicKey), auth.signature) then
          (s, Err(AuthorizationSignatureInvalid))
        else
          match MembershipPath(env, s, m.leaf)
          case None => (s, Err(MembershipProofInvalid))
          case Some(path) =>
            var root := RegistryRoot(env, s.merchants);
            (s, Ok(Proof(CIRCUIT, Digest(env, root, c.platform, commitment, auth.signature, m.leaf, path),
                         root, c.platform, commitment, m.leaf, m.nullifier, auth.signature, now)))
  }

  /* Verification */

  datatype Request = Request(intent: Option<Intent>, commitment: string, challengeId: string, proof: Option<Proof>)

  /** Every check that precedes consuming the challenge; the merchant when all of them pass. */
  function Check(env: Env, s: State, req: Request, now: int): Result<Merchant, Reason> {
    if req.intent.None? || req.commitment == "" || req.challengeId == "" || req.proof.None? then
      Err(MissingRequiredFields)
    else
      var (intent, p) := (req.intent.value, req.proof.value);
      if p.circuit != CIRCUIT then Err(ProofInvalid)
      else if !Matches(env, intent, req.commitment) then Err(IntentCommitmentMismatch)
      else if p.commitment != req.commitment then Err(IntentCommitmentMismatch)
      else
        match Find(s.merchants, env.norm(intent.merchantId))
        case None => Err(MerchantNotFound)
        case Some(m) => CheckMerchant(env, s, req.commitment, req.challengeId, p, m, now)
  }

  function CheckMerchant(env: Env, s: State, commitment: string, challengeId: string, p: Proof, m: Merchant, now: int)
    : Result<Merchant, Reason>
  {
    if m.nullifier in s.revoked || m.status == Revoked then Err(NullifierRevoked)
    else if p.root != RegistryRoot(env, s.merchants) then Err(RegistryInconsistency)
    else if p.leaf != m.leaf then Err(MembershipProofInvalid)
    else
      match MembershipPath(env, s, m.leaf)
      case None => Err(MembershipProofInvalid)
      case Some(path) =>
        if challengeId !in s.challenges then Err(ChallengeMismatchOrExpired)
        else if p.platform != s.challenges[challengeId].platform then Err(ChallengeMismatchOrExpired)
        else if now - p.generatedAt > PROOF_TTL_MS then Err(ExpiredProof)
        else if !HmacVerify(env, m.secret, SigningMessage(commitment, m.publicKey), p.signature) then
          Err(AuthorizationSignatureInvalid)
        else if Digest(env, p.root, p.platform, commitment, p.signature, m.leaf, path) != p.digest then
          Err(ProofInvalid)
        else Ok(m)
  }

  function Count(byReason: map<Reason, nat>, r: Reason): nat { if r in byReason then byReason[r] else 0 }

  function RecordFailure(s: State, r: Reason): State {
    s.(metrics := s.metrics.(failures := s.metrics.failures + 1,
                             byReason := s.metrics.byReason[r := Count(s.metrics.byReason, r) + 1]))
  }

  /** The checks, then the consumption of the challenge; every outcome is counted. */
  function Verify(env: Env, s: State, req: Request, now: int): (State, Outcome) {
    match Check(env, s, req, now)
    case Err(r) => (RecordFailure(s, r), Rejected(r))
    case Ok(m) =>
      var (s', consumed) := Consume(s, req.challengeId, now);
      match consumed
      case Err(r) => (RecordFailure(s', r), Rejected(r))
      case Ok(_) =>
        (s'.(metrics := s'.metrics.(successes := s'.metrics.successes + 1)),
         Authorized(m.id, req.commitment, req.challengeId, s'.version,
                    if req.intent.Some? then req.intent.value.rail else ""))
  }
}
