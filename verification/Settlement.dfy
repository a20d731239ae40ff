/** Settling a payment: the checks in order, the lifecycle moves they leave behind, and the public state that a
    successful settlement changes. One request is one step; proofs, rails, risk and chain are outcomes. */
module Settlement {
  import opened Wrappers
  import opened Lifecycle
  import Credit

  datatype Note = Note(id: string, recipient: string, claimed: bool)

  datatype Event = Transfer(id: string, nullifier: string, commitment: string, policy: string) | Decoy(id: string)

  datatype Ledger = Ledger(users: map<string, Credit.Account>, spent: seq<string>, notes: seq<Note>,
                           events: seq<Event>, payments: seq<Payment>)

  datatype SettleInput = SettleInput(
    spendNullifier: string, oldCommitment: string, newCommitment: string, newPolicy: string, recipient: string,
    hasNote: bool, witnessAmount: Option<int>, exposesAmount: bool, stepUp: bool)

  datatype Risk = Allow | Challenge | Deny | Review

  /** What the signature check, the attestations, the registries, the risk engine, the rail and the chain answer;
      and the ids that are drawn. */
  datatype Facts = Facts(
    signatureOk: bool, structuralOk: bool, kycOk: bool, recipientOk: bool, risk: Risk, softRisk: bool,
    sessionOk: bool, compact: Option<Grade>, reserveOk: bool, railOk: bool, onchainOk: bool, decoy: bool,
    paymentId: string, eventId: string, noteId: string, settlementId: string, now: int)

  /** A successful attestation carries a grade, and the ids that are drawn are not empty. */
  predicate Answered(f: Facts) {
    (f.compact.Some? ==> f.compact.value != NoGrade && f.compact.value != RejectedGrade) && f.settlementId != ""
  }

  datatype Reason =
    | InvalidSignature | StaleCommitment | NullifierSpent | NullifierUnbound | ProofRejected | KycRevoked
    | RecipientRefused | RiskDenied | StepUpRequired | AmountMissing | AmountNotPositive | AmountExposed
    | SessionFailed | CompactFailed | ReserveFailed | RailSettleFailed | OnchainRequired

  /** A refusal: how many lifecycle moves came before it, the state it moves to, and why. */
  datatype Refusal = Refusal(stage: nat, state: State, reason: Reason)

  const RAIL := "internal_ledger"

  /** The checks of the request against its account, before the record's first move. */
  function Authorize(sha: string -> string, l: Ledger, user: string, inp: SettleInput, f: Facts): Option<Refusal>
    requires user in l.users
  {
    var commitment := l.users[user].commitment;
    if !f.signatureOk then Some(Refusal(0, ProofFailed, InvalidSignature))
    else if inp.oldCommitment != commitment then Some(Refusal(0, ProofFailed, StaleCommitment))
    else if inp.spendNullifier in l.spent then Some(Refusal(0, ProofFailed, NullifierSpent))
    else if inp.spendNullifier != Credit.BalanceNullifier(sha, commitment) then
      Some(Refusal(0, ProofFailed, NullifierUnbound))
    else if !f.structuralOk then Some(Refusal(0, ProofFailed, ProofRejected))
    else None
  }

  /** Credentials and risk. */
  function Screen(inp: SettleInput, f: Facts): Option<Refusal> {
    if !f.kycOk then Some(Refusal(1, ProofFailed, KycRevoked))
    else if !f.recipientOk then Some(Refusal(1, ProofFailed, RecipientRefused))
    else if f.risk == Deny || f.risk == Review then Some(Refusal(1, ManualReview, RiskDenied))
    else if f.risk == Challenge && !inp.stepUp && !f.softRisk then Some(Refusal(1, ManualReview, StepUpRequired))
    else None
  }

  /** The amount, which stays private, and the circuits. */
  function Attest(inp: SettleInput, f: Facts): Option<Refusal> {
    if inp.witnessAmount == None then Some(Refusal(2, ProofFailed, AmountMissing))
    else if inp.witnessAmount.value <= 0 then Some(Refusal(2, ProofFailed, AmountNotPositive))
    else if inp.exposesAmount then Some(Refusal(2, ProofFailed, AmountExposed))
    else if !f.sessionOk then Some(Refusal(2, ProofFailed, SessionFailed))
    else if f.compact == None then Some(Refusal(2, ProofFailed, CompactFailed))
    else None
  }

  /** The rail and the chain. */
  function Reserve(f: Facts): Option<Refusal> {
    if !f.reserveOk then Some(Refusal(3, RailFailed, ReserveFailed))
    else if !f.railOk then Some(Refusal(4, RailFailed, RailSettleFailed))
    else if !f.onchainOk then Some(Refusal(4, RailFailed, OnchainRequired))
    else None
  }

  /** The checks in their order. */
  function Decide(sha: string -> string, l: Ledger, user: string, inp: SettleInput, f: Facts): Option<Refusal>
    requires user in l.users
  {
    if Authorize(sha, l, user, inp, f).Some? then Authorize(sha, l, user, inp, f)
    else if Screen(inp, f).Some? then Screen(inp, f)
    else if Attest(inp, f).Some? then Attest(inp, f)
    else Reserve(f)
  }

  function GradeOf(f: Facts): Grade { if f.compact.Some? then f.compact.value else NoGrade }

  /** The record after the first n moves of a settlement. */
  function Staged(user: string, f: Facts, n: nat): Payment {
    if n == 0 then NewPayment(f.paymentId, user, f.now)
    else
      var p := Staged(user, f, n - 1);
      match n
      case 1 => Advance(p, ProofPrepared, NO_PATCH, f.now)
      case 2 => Advance(p, UserAuthorized, NO_PATCH, f.now)
      case 3 => Advance(p, ProofVerified, Patch(GradeOf(f), "", "", ""), f.now)
      case 4 => Advance(p, RailReserved, Patch(NoGrade, RAIL, "", ""), f.now)
      case 5 => Advance(p, Settled, Patch(GradeOf(f), RAIL, f.settlementId, "rcpt_" + f.eventId), f.now)
      case 6 => Advance(p, DeviceApplied, NO_PATCH, f.now)
      case _ => p
  }

  /** The record and the report of a settlement that passed every check. */
  function Closed(user: string, inp: SettleInput, f: Facts): (Payment, Report) {
    Reconcile(Staged(user, f, 6), Ack(f.settlementId, true, inp.hasNote), f.now)
  }

  function Refused(user: string, f: Facts, r: Refusal): Payment {
    Advance(Staged(user, f, r.stage), r.state, NO_PATCH, f.now)
  }

  /** What a settlement that passed every check writes. */
  function WriteSettled(l: Ledger, user: string, inp: SettleInput, f: Facts): Ledger
    requires user in l.users
  {
    Ledger(l.users[user := l.users[user].(commitment := inp.newCommitment, policy := inp.newPolicy)],
           l.spent + [inp.spendNullifier],
           if inp.hasNote then l.notes + [Note(f.noteId, inp.recipient, false)] else l.notes,
           l.events + [Transfer(f.eventId, inp.spendNullifier, inp.newCommitment, inp.newPolicy)]
             + (if f.decoy then [Decoy(f.eventId)] else []),
           l.payments + [Closed(user, inp, f).0])
  }

  function Settle(sha: string -> string, l: Ledger, user: string, inp: SettleInput, f: Facts)
    : (Ledger, Result<Report, Reason>)
    requires user in l.users
  {
    match Decide(sha, l, user, inp, f)
    case Some(r) => (l.(payments := l.payments + [Refused(user, f, r)]), Err(r.reason))
    case None => (WriteSettled(l, user, inp, f), Ok(Closed(user, inp, f).1))
  }

  /* Lifecycle of a settlement */

  predicate Unblocked(p: Payment) { forall e :: e in p.timeline ==> e.blocked == None }

  lemma MoveOn(p: Payment, next: State, patch: Patch, now: int)
    requires Legal(p) && Unblocked(p) && (next == p.state || Edge(p.state, next))
    ensures var q := Advance(p, next, patch, now);
      Legal(q) && Unblocked(q) && q == Patched(p, patch).(state := next, updatedAt := now, timeline := q.timeline)
  {
    AdvanceLegal(p, next, patch, now);
    hide Legal;
  }

  function StageState(n: nat): State {
    match n
    case 0 => Created
    case 1 => ProofPrepared
    case 2 => UserAuthorized
    case 3 => ProofVerified
    case 4 => RailReserved
    case 5 => Settled
    case _ => DeviceApplied
  }

  lemma StageEdge(n: nat)
    requires n < 6
    ensures Edge(StageState(n), StageState(n + 1))
  {
    hide Edge;
    if n < 3 { EdgesEarly(); } else { EdgesMiddle(); LateEdges(Settled); }
  }

  /** The moves of a settlement are all legal. */
  lemma {:induction false} StagedOk(user: string, f: Facts, n: nat)
    requires n <= 6 && Answered(f)
    ensures var p := Staged(user, f, n);
      && Legal(p) && Unblocked(p) && p.state == StageState(n)
      && p.grade == (if n >= 3 then GradeOf(f) else NoGrade)
      && (n >= 5 ==> p.railSettlementId == f.settlementId && p.railId == RAIL && p.receiptId != "")
  {
    hide Legal, Unblocked, Advance, Edge;
    if n == 0 {
      NewLegal(f.paymentId, user, f.now);
      NewUnblocked(f.paymentId, user, f.now);
    } else {
      var p := Staged(user, f, n - 1);
      StagedOk(user, f, n - 1);
      StageEdge(n - 1);
      match n {
        case 1 => MoveOn(p, ProofPrepared, NO_PATCH, f.now);
        case 2 => MoveOn(p, UserAuthorized, NO_PATCH, f.now);
        case 3 => MoveOn(p, ProofVerified, Patch(GradeOf(f), "", "", ""), f.now);
        case 4 => MoveOn(p, RailReserved, Patch(NoGrade, RAIL, "", ""), f.now);
        case 5 => MoveOn(p, Settled, Patch(GradeOf(f), RAIL, f.settlementId, "rcpt_" + f.eventId), f.now);
        case 6 => MoveOn(p, DeviceApplied, NO_PATCH, f.now);
      }
    }
  }

  lemma NewUnblocked(id: string, user: string, now: int)
    ensures Unblocked(NewPayment(id, user, now))
  {
  }

  lemma RefusalEdges()
    ensures forall n: nat :: n <= 2 ==> Edge(StageState(n), ProofFailed)
    ensures Edge(ProofPrepared, ManualReview) && Edge(ProofVerified, RailFailed) && Edge(RailReserved, RailFailed)
  {
  }

  /** A refused settlement ends in the failure state of its stage, through legal moves only. */
  lemma RefusedOk(sha: string -> string, l: Ledger, user: string, inp: SettleInput, f: Facts)
    requires user in l.users && Answered(f) && Decide(sha, l, user, inp, f).Some?
    ensures var p := Refused(user, f, Decide(sha, l, user, inp, f).value);
      Legal(p) && Unblocked(p) && p.state in {ProofFailed, RailFailed, ManualReview}
  {
    hide Legal, Unblocked, Advance, Edge, Staged;
    var r := Decide(sha, l, user, inp, f).value;
    StagedOk(user, f, r.stage);
    RefusalEdges();
    MoveOn(Staged(user, f, r.stage), r.state, NO_PATCH, f.now);
  }

  /** A settlement that passes every check is stored, and reported, as reconciled, through legal moves only. */
  lemma ClosedOk(user: string, inp: SettleInput, f: Facts)
    requires Answered(f) && f.compact.Some?
    ensures var (p, report) := Closed(user, inp, f);
      Legal(p) && Unblocked(p) && p.state == Reconciled && report.ok && report.state == Reconciled
      && p.receiptId == report.receiptId
  {
    hide Legal, Unblocked, Advance, Edge, Staged;
    StagedOk(user, f, 6);
    var p0 := Staged(user, f, 6);
    LateEdges(DeviceApplied); LateEdges(RecipientNotified);
    MoveOn(p0, DeviceApplied, NO_PATCH, f.now);
    var p1 := Advance(p0, DeviceApplied, NO_PATCH, f.now);
    if inp.hasNote { MoveOn(p1, RecipientNotified, NO_PATCH, f.now); }
    var p2 := if inp.hasNote then Advance(p1, RecipientNotified, NO_PATCH, f.now) else p1;
    MoveOn(p2, Reconciled, Patch(NoGrade, "", "", p2.receiptId), f.now);
  }

  /** A settlement either adds its nullifier, which binds the old commitment and was not spent, replaces both
      commitments and ends reconciled, or changes nothing but the list of payments. */
  lemma SettleOutcome(sha: string -> string, l: Ledger, user: string, inp: SettleInput, f: Facts)
    requires user in l.users && Answered(f)
    ensures var (l', r) := Settle(sha, l, user, inp, f);
      && |l'.payments| == |l.payments| + 1 && l'.payments[..|l.payments|] == l.payments
      && var p := l'.payments[|l.payments|];
      && Legal(p) && Unblocked(p)
      && (r.Ok? ==>
            && p.state == Reconciled == r.value.state
            && inp.spendNullifier == Credit.BalanceNullifier(sha, l.users[user].commitment)
            && inp.spendNullifier !in l.spent
            && l'.spent == l.spent + [inp.spendNullifier]
            && l'.users == l.users[user := l.users[user].(commitment := inp.newCommitment, policy := inp.newPolicy)]
            && l.notes <= l'.notes && |l'.notes| == |l.notes| + (if inp.hasNote then 1 else 0)
            && (inp.hasNote ==> l'.notes[|l.notes|].recipient == inp.recipient && !l'.notes[|l.notes|].claimed)
            && l.events < l'.events && l'.events[|l.events|].Transfer?
            && l'.events[|l.events|].nullifier == inp.spendNullifier)
      && (r.Err? ==>
            && p.state in {ProofFailed, RailFailed, ManualReview}
            && l' == l.(payments := l'.payments))
  {
    hide Legal, Unblocked, Advance, Staged, Reconcile, Credit.BalanceNullifier;
    match Decide(sha, l, user, inp, f) {
      case Some(r) => RefusedOk(sha, l, user, inp, f);
      case None => ClosedOk(user, inp, f);
    }
  }

  /* Claiming a note */

  datatype ClaimError = NoteNotFound | NotAddressed

  function UnclaimedIndex(notes: seq<Note>, id: string): Option<nat> {
    if |notes| == 0 then None
    else if notes[0].id == id && !notes[0].claimed then Some(0)
    else
      match UnclaimedIndex(notes[1..], id)
      case None => None
      case Some(i) => Some(i + 1)
  }

  lemma {:induction false} UnclaimedIndexIs(notes: seq<Note>, id: string)
    ensures match UnclaimedIndex(notes, id)
      case None => forall n :: n in notes && n.id == id ==> n.claimed
      case Some(i) => i < |notes| && notes[i].id == id && !notes[i].claimed
  {
    if |notes| > 0 && !(notes[0].id == id && !notes[0].claimed) { UnclaimedIndexIs(notes[1..], id); }
  }

  function AddOnce(s: seq<string>, x: string): seq<string> { if x in s then s else s + [x] }

  /** The account moves to a new commitment; the old one's nullifier is recorded unless it is already. */
  function MoveAccount(sha: string -> string, l: Ledger, user: string, newCommitment: string): Ledger
    requires user in l.users
  {
    l.(users := l.users[user := l.users[user].(commitment := newCommitment)],
       spent := AddOnce(l.spent, Credit.BalanceNullifier(sha, l.users[user].commitment)))
  }

  function ClaimNote(sha: string -> string, l: Ledger, claimant: string, noteId: string,
                     newCommitment: string): (Ledger, Option<ClaimError>)
    requires claimant in l.users
  {
    UnclaimedIndexIs(l.notes, noteId);
    match UnclaimedIndex(l.notes, noteId)
    case None => (l, Some(NoteNotFound))
    case Some(i) =>
      if l.notes[i].recipient != l.users[claimant].pubkey then (l, Some(NotAddressed))
      else (MoveAccount(sha, l.(notes := l.notes[i := l.notes[i].(claimed := true)]), claimant, newCommitment), None)
  }

  /** Resealing replaces the commitment of an account under a fresh opening. */
  function Reseal(sha: string -> string, l: Ledger, user: string, oldCommitment: string,
                  newCommitment: string): (Ledger, bool)
    requires user in l.users
  {
    if oldCommitment == "" || newCommitment == "" then (l, false)
    else if oldCommitment == newCommitment then (l, true)
    else if l.users[user].commitment != oldCommitment then (l, false)
    else (MoveAccount(sha, l, user, newCommitment), true)
  }

  /** The account part of crediting a received payment. */
  function ReceiveCredit(sha: string -> string, l: Ledger, account: string, oldCommitment: string,
                         newCommitment: string): (Ledger, bool) {
    if oldCommitment == "" || newCommitment == "" || oldCommitment == newCommitment then (l, false)
    else if account !in l.users then (l, true)
    else if l.users[account].commitment != oldCommitment then (l, false)
    else (MoveAccount(sha, l, account, newCommitment), true)
  }
}
