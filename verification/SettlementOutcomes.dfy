/** What each answer of a settlement, a note claim and a reseal says, condition by condition, and what it writes. */
module SettlementOutcomes {
  import opened Wrappers
  import opened Lifecycle
  import opened Settlement
  import Credit

  /** A settlement succeeds exactly when the signature holds; the request names the account's commitment and its
      unspent nullifier; proof bundle, sender and recipient pass; risk allows it, or challenges it and the user stepped
      up or the challenge is soft; the amount is given, positive and private; and session, circuits, rail and chain
      agree. */
  lemma SettledIff(sha: string -> string, l: Ledger, user: string, inp: SettleInput, f: Facts)
    requires user in l.users
    ensures Settle(sha, l, user, inp, f).1.Ok? <==>
      && f.signatureOk && inp.oldCommitment == l.users[user].commitment
      && inp.spendNullifier !in l.spent && inp.spendNullifier == sha("balnf:" + l.users[user].commitment)
      && f.structuralOk && f.kycOk && f.recipientOk
      && (f.risk == Allow || (f.risk == Challenge && (inp.stepUp || f.softRisk)))
      && inp.witnessAmount.Some? && inp.witnessAmount.value > 0 && !inp.exposesAmount
      && f.sessionOk && f.compact.Some? && f.reserveOk && f.railOk && f.onchainOk
  {
    hide Closed, Refused;
  }

  /** What a refusal says: its reason names the first check that fails. */
  lemma RefusedMeans(sha: string -> string, l: Ledger, user: string, inp: SettleInput, f: Facts)
    requires user in l.users && Settle(sha, l, user, inp, f).1.Err?
    ensures var commitment := l.users[user].commitment;
      var current := f.signatureOk && inp.oldCommitment == commitment;
      var bound := current && inp.spendNullifier !in l.spent && inp.spendNullifier == sha("balnf:" + commitment);
      var known := bound && f.structuralOk && f.kycOk && f.recipientOk;
      var cleared := known && f.risk != Deny && f.risk != Review && (f.risk == Challenge ==> inp.stepUp || f.softRisk);
      var priced := cleared && inp.witnessAmount.Some? && inp.witnessAmount.value > 0;
      var proved := priced && !inp.exposesAmount && f.sessionOk && f.compact.Some?;
      match Settle(sha, l, user, inp, f).1.error
      case InvalidSignature => !f.signatureOk
      case StaleCommitment => f.signatureOk && inp.oldCommitment != commitment
      case NullifierSpent => current && inp.spendNullifier in l.spent
      case NullifierUnbound => current && inp.spendNullifier != sha("balnf:" + commitment)
      case ProofRejected => bound && !f.structuralOk
      case KycRevoked => bound && f.structuralOk && !f.kycOk
      case RecipientRefused => bound && f.structuralOk && f.kycOk && !f.recipientOk
      case RiskDenied => known && (f.risk == Deny || f.risk == Review)
      case StepUpRequired => known && f.risk == Challenge && !inp.stepUp && !f.softRisk
      case AmountMissing => cleared && inp.witnessAmount == None
      case AmountNotPositive => cleared && inp.witnessAmount.Some? && inp.witnessAmount.value <= 0
      case AmountExposed => priced && inp.exposesAmount
      case SessionFailed => priced && !inp.exposesAmount && !f.sessionOk
      case CompactFailed => priced && !inp.exposesAmount && f.sessionOk && f.compact == None
      case ReserveFailed => proved && !f.reserveOk
      case RailSettleFailed => proved && f.reserveOk && !f.railOk
      case OnchainRequired => proved && f.reserveOk && f.railOk && !f.onchainOk
  {
    hide Closed, Refused;
  }

  /** A refused payment shows the moves that came before its refusal, and the state that the refusal ends in. */
  lemma RefusalWritten(sha: string -> string, l: Ledger, user: string, inp: SettleInput, f: Facts)
    requires user in l.users && Answered(f) && Settle(sha, l, user, inp, f).1.Err?
    ensures var (l', e) := (Settle(sha, l, user, inp, f).0, Settle(sha, l, user, inp, f).1.error);
      var moves :=
        if e in {InvalidSignature, StaleCommitment, NullifierSpent, NullifierUnbound, ProofRejected} then [Created]
        else if e in {KycRevoked, RecipientRefused, RiskDenied, StepUpRequired} then [Created, ProofPrepared]
        else if e in {AmountMissing, AmountNotPositive, AmountExposed, SessionFailed, CompactFailed} then
          [Created, ProofPrepared, UserAuthorized]
        else if e == ReserveFailed then [Created, ProofPrepared, UserAuthorized, ProofVerified]
        else [Created, ProofPrepared, UserAuthorized, ProofVerified, RailReserved];
      && l' == l.(payments := l'.payments)
      && |l'.payments| == |l.payments| + 1 && l'.payments[..|l.payments|] == l.payments
      && var p := l'.payments[|l.payments|];
         && p.id == f.paymentId && p.userId == user && StatesOf(p.timeline) == moves + [p.state]
         && p.state == (if e in {RiskDenied, StepUpRequired} then ManualReview
                        else if e in {ReserveFailed, RailSettleFailed, OnchainRequired} then RailFailed
                        else ProofFailed)
  {
    hide Closed, Authorize, Screen, Attest, Reserve, Edge, Advance, Staged, Refused, StatesOf, StageState, StagesUpTo;
    DecidedStates(sha, l, user, inp, f);
    RefusedRecord(user, f, Decide(sha, l, user, inp, f).value);
    AllStages();
  }

  lemma DecidedStates(sha: string -> string, l: Ledger, user: string, inp: SettleInput, f: Facts)
    requires user in l.users && Decide(sha, l, user, inp, f).Some?
    ensures var r := Decide(sha, l, user, inp, f).value;
      && r.stage <= 6 && Edge(StageState(r.stage), r.state)
      && r.stage ==
         (if r.reason in {InvalidSignature, StaleCommitment, NullifierSpent, NullifierUnbound, ProofRejected} then 0
          else if r.reason in {KycRevoked, RecipientRefused, RiskDenied, StepUpRequired} then 1
          else if r.reason in {AmountMissing, AmountNotPositive, AmountExposed, SessionFailed, CompactFailed} then 2
          else if r.reason == ReserveFailed then 3 else 4)
      && r.state == (if r.reason in {RiskDenied, StepUpRequired} then ManualReview
                     else if r.reason in {ReserveFailed, RailSettleFailed, OnchainRequired} then RailFailed
                     else ProofFailed)
  {
    hide Credit.BalanceNullifier, Edge, StageState;
    RefusalEdges();
    FirstStages();
  }

  lemma FirstStages()
    ensures StageState(0) == Created && StageState(1) == ProofPrepared && StageState(2) == UserAuthorized
    ensures StageState(3) == ProofVerified && StageState(4) == RailReserved
  {
  }

  lemma RefusedRecord(user: string, f: Facts, r: Refusal)
    requires Answered(f) && r.stage <= 6 && Edge(StageState(r.stage), r.state)
    ensures var p := Refused(user, f, r);
      && p.id == f.paymentId && p.userId == user && p.state == r.state
      && StatesOf(p.timeline) == StagesUpTo(r.stage) + [r.state]
  {
    hide Advance, Staged, Edge, StageState, StatesOf, StagesUpTo;
    StagedWritten(user, f, r.stage);
    MoveWritten(Staged(user, f, r.stage), r.state, NO_PATCH, f.now);
  }

  /** What a settlement writes: the account's two commitments and no other account, its nullifier, the note and the
      events, and a reconciled record of the user with grade, rail and receipt. */
  lemma SettlementWritten(sha: string -> string, l: Ledger, user: string, inp: SettleInput, f: Facts)
    requires user in l.users && Answered(f) && Settle(sha, l, user, inp, f).1.Ok?
    ensures var (l', r) := (Settle(sha, l, user, inp, f).0, Settle(sha, l, user, inp, f).1.value);
      && l'.users == l.users[user := l.users[user].(commitment := inp.newCommitment, policy := inp.newPolicy)]
      && l'.spent == l.spent + [inp.spendNullifier]
      && l'.notes == l.notes + (if inp.hasNote then [Note(f.noteId, inp.recipient, false)] else [])
      && l'.events == l.events + [Transfer(f.eventId, inp.spendNullifier, inp.newCommitment, inp.newPolicy)]
           + (if f.decoy then [Decoy(f.eventId)] else [])
      && |l'.payments| == |l.payments| + 1 && l'.payments[..|l.payments|] == l.payments
      && r == Report(true, Reconciled, [], "rcpt_" + f.eventId)
    ensures f.compact.Some?
    ensures var l' := Settle(sha, l, user, inp, f).0;
      |l'.payments| > 0 && var p := l'.payments[|l'.payments| - 1];
      && p.id == f.paymentId && p.userId == user && p.state == Reconciled && p.grade == f.compact.value
      && p.railId == "internal_ledger" && p.railSettlementId == f.settlementId && p.receiptId == "rcpt_" + f.eventId
      && p.updatedAt == f.now && StatesOf(p.timeline) ==
           [Created, ProofPrepared, UserAuthorized, ProofVerified, RailReserved, Settled, DeviceApplied, DeviceApplied]
           + (if inp.hasNote then [RecipientNotified] else []) + [Reconciled]
  {
    hide Closed, Authorize, Screen, Attest, Reserve;
    SettledIff(sha, l, user, inp, f);
    ClosedRecord(user, inp, f);
  }

  /** The states along a timeline. */
  function StatesOf(t: seq<Entry>): seq<State> { seq(|t|, i requires 0 <= i < |t| => t[i].state) }

  lemma StatesAppend(t: seq<Entry>, e: Entry)
    ensures StatesOf(t + [e]) == StatesOf(t) + [e.state]
  {
  }

  /** A move along an edge, or a call that stays. */
  lemma MoveWritten(p: Payment, next: State, patch: Patch, now: int)
    requires next == p.state || Edge(p.state, next)
    ensures var q := Advance(p, next, patch, now);
      && q == Patched(p, patch).(state := next, updatedAt := now, timeline := q.timeline)
      && StatesOf(q.timeline) == StatesOf(p.timeline) + [next]
  {
    StatesAppend(p.timeline, Entry(now, next, None));
  }

  /** The states of the first n moves. */
  function StagesUpTo(n: nat): seq<State> { seq(n + 1, i requires 0 <= i <= n => StageState(i)) }

  predicate WrittenAt(p: Payment, user: string, f: Facts, n: nat) {
    && p.id == f.paymentId && p.userId == user && p.state == StageState(n) && p.updatedAt == f.now
    && StatesOf(p.timeline) == StagesUpTo(n)
    && p.grade == (if n >= 3 then GradeOf(f) else NoGrade)
    && p.railId == (if n >= 4 then "internal_ledger" else "")
    && p.railSettlementId == (if n >= 5 then f.settlementId else "")
    && p.receiptId == (if n >= 5 then "rcpt_" + f.eventId else "")
  }

  lemma NewWritten(user: string, f: Facts)
    ensures WrittenAt(NewPayment(f.paymentId, user, f.now), user, f, 0)
  {
  }

  lemma {:induction false} StagedWritten(user: string, f: Facts, n: nat)
    requires n <= 6 && Answered(f)
    ensures WrittenAt(Staged(user, f, n), user, f, n)
  {
    hide Advance, Edge, StageState, StatesOf, StagesUpTo;
    if n == 0 {
      NewWritten(user, f);
    } else {
      var p := Staged(user, f, n - 1);
      StagedWritten(user, f, n - 1);
      StageEdge(n - 1);
      NextStage(n);
      StageStates();
      match n {
        case 1 => MoveWritten(p, ProofPrepared, NO_PATCH, f.now);
        case 2 => MoveWritten(p, UserAuthorized, NO_PATCH, f.now);
        case 3 => MoveWritten(p, ProofVerified, Patch(GradeOf(f), "", "", ""), f.now);
        case 4 => MoveWritten(p, RailReserved, Patch(NoGrade, RAIL, "", ""), f.now);
        case 5 => MoveWritten(p, Settled, Patch(GradeOf(f), RAIL, f.settlementId, "rcpt_" + f.eventId), f.now);
        case 6 => MoveWritten(p, DeviceApplied, NO_PATCH, f.now);
      }
    }
  }

  lemma NextStage(n: nat)
    requires n > 0
    ensures StagesUpTo(n) == StagesUpTo(n - 1) + [StageState(n)]
  {
  }

  lemma StageStates()
    ensures StageState(1) == ProofPrepared && StageState(2) == UserAuthorized && StageState(3) == ProofVerified
    ensures StageState(4) == RailReserved && StageState(5) == Settled && StageState(6) == DeviceApplied
  {
  }

  lemma AllStages()
    ensures StagesUpTo(0) == [Created] && StagesUpTo(1) == [Created, ProofPrepared]
    ensures StagesUpTo(2) == [Created, ProofPrepared, UserAuthorized]
    ensures StagesUpTo(3) == [Created, ProofPrepared, UserAuthorized, ProofVerified]
    ensures StagesUpTo(4) == [Created, ProofPrepared, UserAuthorized, ProofVerified, RailReserved]
    ensures StagesUpTo(6)
      == [Created, ProofPrepared, UserAuthorized, ProofVerified, RailReserved, Settled, DeviceApplied]
  {
  }

  /** The record of a written settlement once its device and its recipient are acknowledged. */
  lemma AcknowledgedRecord(user: string, inp: SettleInput, f: Facts)
    requires Answered(f)
    ensures var (p0, p) := (Staged(user, f, 6),
                            Acknowledged(Staged(user, f, 6), Ack(f.settlementId, true, inp.hasNote), f.now));
      && p == p0.(state := if inp.hasNote then RecipientNotified else DeviceApplied, timeline := p.timeline)
      && StatesOf(p.timeline)
        == StatesOf(p0.timeline) + [DeviceApplied] + (if inp.hasNote then [RecipientNotified] else [])
      && p0.state == DeviceApplied && p0.railSettlementId == f.settlementId
  {
    hide Advance, Edge, StatesOf, StagesUpTo, Staged;
    StagedWritten(user, f, 6);
    StageStates();
    LateEdges(DeviceApplied);
    var p0 := Staged(user, f, 6);
    MoveWritten(p0, DeviceApplied, NO_PATCH, f.now);
    var p1 := Advance(p0, DeviceApplied, NO_PATCH, f.now);
    MoveWritten(p1, if inp.hasNote then RecipientNotified else DeviceApplied, NO_PATCH, f.now);
  }

  lemma ClosedRecord(user: string, inp: SettleInput, f: Facts)
    requires Answered(f) && f.compact.Some?
    ensures Closed(user, inp, f).1 == Report(true, Reconciled, [], "rcpt_" + f.eventId)
    ensures var p := Closed(user, inp, f).0;
      && p.id == f.paymentId && p.userId == user && p.state == Reconciled && p.grade == f.compact.value
      && p.railId == "internal_ledger" && p.railSettlementId == f.settlementId && p.receiptId == "rcpt_" + f.eventId
      && p.updatedAt == f.now && StatesOf(p.timeline) ==
           [Created, ProofPrepared, UserAuthorized, ProofVerified, RailReserved, Settled, DeviceApplied, DeviceApplied]
           + (if inp.hasNote then [RecipientNotified] else []) + [Reconciled]
  {
    hide Advance, Edge, StatesOf, StagesUpTo, DefaultReceipt, Staged, Acknowledged, StageState;
    StagedWritten(user, f, 6);
    AllStages();
    AcknowledgedRecord(user, inp, f);
    LateEdges(DeviceApplied);
    LateEdges(RecipientNotified);
    var p2 := Acknowledged(Staged(user, f, 6), Ack(f.settlementId, true, inp.hasNote), f.now);
    MoveWritten(p2, Reconciled, Patch(NoGrade, "", "", p2.receiptId), f.now);
  }

  /* Claims and reseals */

  /** A claim succeeds exactly when an unclaimed note has the id, the first of them addressed to the claimant. That note
      alone is claimed, the claimant alone moves, and the nullifier it leaves is recorded. */
  lemma ClaimedIff(sha: string -> string, l: Ledger, claimant: string, noteId: string, newC: string)
    requires claimant in l.users
    ensures var (l', e) := ClaimNote(sha, l, claimant, noteId, newC);
      var nf := sha("balnf:" + l.users[claimant].commitment);
      && (e == Some(NoteNotFound) <==> forall n :: n in l.notes && n.id == noteId ==> n.claimed)
      && (e.Some? ==> l' == l)
      && (e == None <==> exists i :: FirstOpen(l.notes, noteId, i) && l.notes[i].recipient == l.users[claimant].pubkey)
      && (e == None ==>
        && l'.users == l.users[claimant := l.users[claimant].(commitment := newC)]
        && l'.spent == (if nf in l.spent then l.spent else l.spent + [nf])
        && l' == l.(users := l'.users, spent := l'.spent, notes := l'.notes)
        && forall i :: FirstOpen(l.notes, noteId, i) ==> l'.notes == l.notes[i := l.notes[i].(claimed := true)])
  {
    hide Credit.BalanceNullifier;
    FirstOpenIs(l.notes, noteId);
    NullifierIs(sha, l.users[claimant].commitment);
  }

  lemma NullifierIs(sha: string -> string, commitment: string)
    ensures Credit.BalanceNullifier(sha, commitment) == sha("balnf:" + commitment)
  {
  }

  /** The first note with the id that is not claimed. */
  predicate FirstOpen(notes: seq<Note>, id: string, i: int) {
    && 0 <= i < |notes| && notes[i].id == id && !notes[i].claimed
    && forall j :: 0 <= j < i && notes[j].id == id ==> notes[j].claimed
  }

  lemma {:induction false} FirstOpenIs(notes: seq<Note>, id: string)
    ensures match UnclaimedIndex(notes, id)
      case None => forall n :: n in notes && n.id == id ==> n.claimed
      case Some(i) => i < |notes| && FirstOpen(notes, id, i)
    ensures forall i, j :: FirstOpen(notes, id, i) && FirstOpen(notes, id, j) ==> i == j
  {
    UnclaimedIndexIs(notes, id);
    if |notes| > 0 && !(notes[0].id == id && !notes[0].claimed) {
      FirstOpenIs(notes[1..], id);
      assert forall j :: 0 < j < |notes| ==> notes[j] == notes[1..][j - 1];
    }
  }

  /** A reseal moves the account exactly from the commitment it has to another one; naming one commitment twice is
      answered with success and changes nothing. */
  lemma ResealedIff(sha: string -> string, l: Ledger, user: string, oldC: string, newC: string)
    requires user in l.users
    ensures var (l', ok) := Reseal(sha, l, user, oldC, newC);
      var nf := sha("balnf:" + l.users[user].commitment);
      && (ok <==> oldC != "" && newC != "" && (oldC == newC || l.users[user].commitment == oldC))
      && (ok && oldC != newC ==>
        && l'.users == l.users[user := l.users[user].(commitment := newC)]
        && l'.spent == (if nf in l.spent then l.spent else l.spent + [nf])
        && l' == l.(users := l'.users, spent := l'.spent))
      && (!ok || oldC == newC ==> l' == l)
  {
  }

  /** A received credit moves its account exactly from the commitment it has to another one, and passes when there is no
      such account. */
  lemma ReceivedIff(sha: string -> string, l: Ledger, account: string, oldC: string, newC: string)
    ensures var (l', ok) := ReceiveCredit(sha, l, account, oldC, newC);
      && (ok <==>
        oldC != "" && newC != "" && oldC != newC && (account in l.users ==> l.users[account].commitment == oldC))
      && (ok && account in l.users ==>
        && l'.users == l.users[account := l.users[account].(commitment := newC)]
        && l'.spent == (if sha("balnf:" + oldC) in l.spent then l.spent else l.spent + [sha("balnf:" + oldC)])
        && l' == l.(users := l'.users, spent := l'.spent))
      && (!ok || account !in l.users ==> l' == l)
  {
  }
}
