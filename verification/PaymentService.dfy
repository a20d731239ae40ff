/** The payment service: settlement, claims and lifecycle moves as they update the store step by step. */
module PaymentService {
  import opened Wrappers
  import opened Lifecycle
  import opened Settlement
  import Credit

  function PaymentIndex(ps: seq<Payment>, id: string): Option<nat> {
    if |ps| == 0 then None
    else if ps[0].id == id then Some(0)
    else
      match PaymentIndex(ps[1..], id)
      case None => None
      case Some(i) => Some(i + 1)
  }

  lemma {:induction false} PaymentIndexIs(ps: seq<Payment>, id: string)
    ensures match PaymentIndex(ps, id)
      case None => forall p :: p in ps ==> p.id != id
      case Some(i) => i < |ps| && ps[i].id == id
  {
    if |ps| > 0 && ps[0].id != id { PaymentIndexIs(ps[1..], id); }
  }

  /** A record whose id no earlier record has is found at the end. */
  lemma {:induction false} LastIsFound(ps: seq<Payment>, p: Payment)
    requires forall q :: q in ps ==> q.id != p.id
    ensures PaymentIndex(ps + [p], p.id) == Some(|ps|)
  {
    if |ps| > 0 {
      LastIsFound(ps[1..], p);
      assert (ps + [p])[1..] == ps[1..] + [p];
    }
  }

  lemma {:induction false} IndexKept(ps: seq<Payment>, i: nat, p: Payment)
    requires PaymentIndex(ps, p.id) == Some(i) && i < |ps|
    ensures PaymentIndex(ps[i := p], p.id) == Some(i)
  {
    if i == 0 {
    } else {
      IndexKept(ps[1..], i - 1, p);
      assert ps[i := p][1..] == ps[1..][i - 1 := p];
    }
  }

  lemma SameId(p: Payment, next: State, patch: Patch, now: int)
    ensures Advance(p, next, patch, now).id == p.id
  {
    hide Allowed, Terminal;
  }

  class Service {
    const sha: string -> string
    var users: map<string, Credit.Account>
    var spentNullifiers: seq<string>
    var notes: seq<Note>
    var events: seq<Event>
    var payments: seq<Payment>

    function Stored(): Ledger
      reads this
    {
      Ledger(users, spentNullifiers, notes, events, payments)
    }

    constructor (sha: string -> string, users: map<string, Credit.Account>)
      ensures this.sha == sha && Stored() == Ledger(users, [], [], [], [])
    {
      this.sha, this.users := sha, users;
      spentNullifiers, notes, events, payments := [], [], [], [];
    }

    /** Moves the first record with this id. */
    method AdvancePayment(id: string, next: State, patch: Patch, now: int) returns (found: bool)
      modifies this`payments
      ensures found <==> PaymentIndex(old(payments), id).Some?
      ensures |payments| == |old(payments)|
      ensures forall i :: 0 <= i < |payments| ==>
        payments[i] == if PaymentIndex(old(payments), id) == Some(i) then Advance(old(payments)[i], next, patch, now)
          else old(payments)[i]
    {
      var at := PaymentIndex(payments, id);
      PaymentIndexIs(payments, id);
      if at == None { return false; }
      var rec := payments[at.value];
      if Terminal(rec.state) {
        if rec.state != next && next != Refunded && next != ManualReview { return true; }
      }
      if rec.state != next && next !in Allowed(rec.state) {
        rec := rec.(timeline := rec.timeline + [Entry(now, rec.state, Some(next))]);
      } else {
        rec := rec.(state := next, updatedAt := now);
        if patch.grade != NoGrade { rec := rec.(grade := patch.grade); }
        if patch.railId != "" { rec := rec.(railId := patch.railId); }
        if patch.railSettlementId != "" { rec := rec.(railSettlementId := patch.railSettlementId); }
        if patch.receiptId != "" { rec := rec.(receiptId := patch.receiptId); }
        rec := rec.(timeline := rec.timeline + [Entry(now, next, None)]);
      }
      payments := payments[at.value := rec];
      found := true;
    }

    /** Moves the newest record. */
    method AdvanceLast(ghost before: seq<Payment>, ghost last: Payment, id: string, next: State, patch: Patch, now: int)
      requires payments == before + [last] && last.id == id && forall q :: q in before ==> q.id != id
      modifies this`payments
      ensures payments == before + [Advance(last, next, patch, now)] && Advance(last, next, patch, now).id == id
    {
      LastIsFound(before, last);
      SameId(last, next, patch, now);
      hide Advance, PaymentIndex;
      var found := AdvancePayment(id, next, patch, now);
      assert payments == before + [Advance(last, next, patch, now)];
    }

    /** Moves the record found at this place. */
    method AdvanceAt(i: nat, id: string, next: State, patch: Patch, now: int)
      requires PaymentIndex(payments, id) == Some(i) && i < |payments|
      modifies this`payments
      ensures i < |old(payments)| && payments == old(payments)[i := Advance(old(payments)[i], next, patch, now)]
      ensures PaymentIndex(payments, id) == Some(i)
    {
      PaymentIndexIs(payments, id);
      SameId(payments[i], next, patch, now);
      IndexKept(payments, i, Advance(payments[i], next, patch, now));
      hide Advance, PaymentIndex;
      var found := AdvancePayment(id, next, patch, now);
      assert payments == old(payments)[i := Advance(old(payments)[i], next, patch, now)];
    }

    /** Notes the rail receipt and applies the acknowledgements, collecting the gaps on the way. */
    method Acknowledge(i: nat, id: string, ack: Ack, now: int) returns (gaps: seq<Gap>)
      requires PaymentIndex(payments, id) == Some(i) && i < |payments|
      modifies this`payments
      ensures i < |old(payments)| && gaps == Gaps(old(payments)[i], ack)
      ensures payments == old(payments)[i := Acknowledged(old(payments)[i], ack, now)]
      ensures PaymentIndex(payments, id) == Some(i)
    {
      hide Advance, PaymentIndex;
      var rec := payments[i];
      gaps := [];
      if rec.grade == NoGrade || rec.grade == RejectedGrade { gaps := gaps + [ProofIncomplete]; }
      if rec.railId != "" && rec.railSettlementId == "" && ack.railSettlementId == "" {
        gaps := gaps + [RailReceiptMissing];
      }
      if ack.railSettlementId != "" && rec.railSettlementId == "" {
        AdvanceAt(i, id, rec.state, Patch(NoGrade, "", ack.railSettlementId, ""), now);
      }
      assert payments == old(payments)[i := RailNoted(rec, ack, now)];
      if ack.deviceApplied {
        AdvanceAt(i, id, DeviceApplied, NO_PATCH, now);
      } else if rec.state in {Settled, RailReserved} {
        gaps := gaps + [DeviceApplyPending];
      }
      if ack.recipientNotified { AdvanceAt(i, id, RecipientNotified, NO_PATCH, now); }
    }

    /** Acknowledges, then closes the payment when no gap but a pending device remains. */
    method ReconcilePayment(id: string, ack: Ack, now: int) returns (r: Option<Report>)
      modifies this`payments
      ensures match PaymentIndex(old(payments), id)
        case None => r == None && payments == old(payments)
        case Some(i) =>
          && i < |old(payments)| && r == Some(Reconcile(old(payments)[i], ack, now).1)
          && payments == old(payments)[i := Reconcile(old(payments)[i], ack, now).0]
    {
      hide Advance, DefaultReceipt, PaymentIndex, Acknowledged, Gaps;
      PaymentIndexIs(payments, id);
      var at := PaymentIndex(payments, id);
      if at == None { return None; }
      var i := at.value;
      ghost var rec := payments[i];
      var gaps := Acknowledge(i, id, ack, now);
      OtherGaps(rec, ack);
      var acked := payments[i];
      if (forall g :: g in gaps ==> g == DeviceApplyPending)
         && (ack.deviceApplied || acked.state == DeviceApplied || acked.state == RecipientNotified) {
        var receipt := if acked.receiptId != "" then acked.receiptId else DefaultReceipt(acked);
        AdvanceAt(i, id, Reconciled, Patch(NoGrade, "", "", receipt), now);
        return Some(Report(true, Reconciled, [], receipt));
      }
      r := Some(Report(|gaps| == 0, payments[i].state, gaps, acked.receiptId));
    }

    lemma OtherGaps(p: Payment, ack: Ack)
      ensures Closable(p, ack) <==> forall g :: g in Gaps(p, ack) ==> g == DeviceApplyPending
    {
      assert forall g :: g in Gaps(p, ack) ==> g in {ProofIncomplete, RailReceiptMissing, DeviceApplyPending};
    }

    /** Moves the newest record to the state of a refusal. */
    method Fail(ghost before: seq<Payment>, user: string, f: Facts, stage: nat, state: State, reason: Reason)
      returns (refused: Option<Reason>)
      requires payments == before + [Staged(user, f, stage)] && forall p :: p in before ==> p.id != f.paymentId
      requires Staged(user, f, stage).id == f.paymentId
      modifies this`payments
      ensures payments == before + [Refused(user, f, Refusal(stage, state, reason))] && refused == Some(reason)
    {
      hide Advance, Staged;
      AdvanceLast(before, Staged(user, f, stage), f.paymentId, state, NO_PATCH, f.now);
      refused := Some(reason);
    }

    /** The newest record has made the moves of this stage, and no other record has its id. */
    ghost predicate AtStage(before: seq<Payment>, user: string, f: Facts, stage: nat)
      reads this`payments
    {
      && payments == before + [Staged(user, f, stage)] && Staged(user, f, stage).id == f.paymentId
      && forall p :: p in before ==> p.id != f.paymentId
    }

    /** A stage either refuses, which ends the record there, or makes its moves. */
    ghost predicate Ended(before: seq<Payment>, user: string, f: Facts, stage: nat, refusal: Option<Refusal>,
                          refused: Option<Reason>)
      reads this`payments
    {
      match refusal
      case None => refused == None && AtStage(before, user, f, stage)
      case Some(r) => refused == Some(r.reason) && payments == before + [Refused(user, f, r)]
    }

    method RunAuthorize(ghost before: seq<Payment>, user: string, inp: SettleInput, f: Facts)
      returns (refused: Option<Reason>)
      requires user in users && AtStage(before, user, f, 0)
      modifies this`payments
      ensures user in old(users) && Ended(before, user, f, 1, Authorize(sha, old(Stored()), user, inp, f), refused)
    {
      hide Advance, Staged, Refused, Credit.BalanceNullifier;
      StagesAre(user, f);
      if !f.signatureOk {
        refused := Fail(before, user, f, 0, ProofFailed, InvalidSignature);
        return;
      }
      if inp.oldCommitment != users[user].commitment {
        refused := Fail(before, user, f, 0, ProofFailed, StaleCommitment);
        return;
      }
      if inp.spendNullifier in spentNullifiers {
        refused := Fail(before, user, f, 0, ProofFailed, NullifierSpent);
        return;
      }
      if inp.spendNullifier != Credit.BalanceNullifier(sha, users[user].commitment) {
        refused := Fail(before, user, f, 0, ProofFailed, NullifierUnbound);
        return;
      }
      if !f.structuralOk {
        refused := Fail(before, user, f, 0, ProofFailed, ProofRejected);
        return;
      }
      AdvanceLast(before, Staged(user, f, 0), f.paymentId, ProofPrepared, NO_PATCH, f.now);
      refused := None;
    }

    method RunScreen(ghost before: seq<Payment>, user: string, inp: SettleInput, f: Facts)
      returns (refused: Option<Reason>)
      requires AtStage(before, user, f, 1)
      modifies this`payments
      ensures Ended(before, user, f, 2, Screen(inp, f), refused)
    {
      hide Advance, Staged, Refused;
      StagesAre(user, f);
      if !f.kycOk {
        refused := Fail(before, user, f, 1, ProofFailed, KycRevoked);
        return;
      }
      if !f.recipientOk {
        refused := Fail(before, user, f, 1, ProofFailed, RecipientRefused);
        return;
      }
      if f.risk == Deny || f.risk == Review {
        refused := Fail(before, user, f, 1, ManualReview, RiskDenied);
        return;
      }
      if f.risk == Challenge && !inp.stepUp && !f.softRisk {
        refused := Fail(before, user, f, 1, ManualReview, StepUpRequired);
        return;
      }
      AdvanceLast(before, Staged(user, f, 1), f.paymentId, UserAuthorized, NO_PATCH, f.now);
      refused := None;
    }

    method RunAttest(ghost before: seq<Payment>, user: string, inp: SettleInput, f: Facts)
      returns (refused: Option<Reason>)
      requires AtStage(before, user, f, 2)
      modifies this`payments
      ensures Ended(before, user, f, 3, Attest(inp, f), refused)
    {
      hide Advance, Staged, Refused;
      StagesAre(user, f);
      if inp.witnessAmount == None {
        refused := Fail(before, user, f, 2, ProofFailed, AmountMissing);
        return;
      }
      if inp.witnessAmount.value <= 0 {
        refused := Fail(before, user, f, 2, ProofFailed, AmountNotPositive);
        return;
      }
      if inp.exposesAmount {
        refused := Fail(before, user, f, 2, ProofFailed, AmountExposed);
        return;
      }
      if !f.sessionOk {
        refused := Fail(before, user, f, 2, ProofFailed, SessionFailed);
        return;
      }
      if f.compact == None {
        refused := Fail(before, user, f, 2, ProofFailed, CompactFailed);
        return;
      }
      AdvanceLast(before, Staged(user, f, 2), f.paymentId, ProofVerified, Patch(f.compact.value, "", "", ""), f.now);
      refused := None;
    }

    method RunReserve(ghost before: seq<Payment>, user: string, f: Facts) returns (refused: Option<Reason>)
      requires AtStage(before, user, f, 3)
      modifies this`payments
      ensures Ended(before, user, f, 4, Reserve(f), refused)
    {
      hide Advance, Staged, Refused;
      StagesAre(user, f);
      if !f.reserveOk {
        refused := Fail(before, user, f, 3, RailFailed, ReserveFailed);
        return;
      }
      AdvanceLast(before, Staged(user, f, 3), f.paymentId, RailReserved, Patch(NoGrade, RAIL, "", ""), f.now);
      if !f.railOk {
        refused := Fail(before, user, f, 4, RailFailed, RailSettleFailed);
        return;
      }
      if !f.onchainOk {
        refused := Fail(before, user, f, 4, RailFailed, OnchainRequired);
        return;
      }
      refused := None;
    }

    /** Creates the record and runs the checks in their order, moving the record stage by stage, up to the rail
        reservation or to the first refusal. */
    method RunStages(user: string, inp: SettleInput, f: Facts) returns (refused: Option<Reason>)
      requires user in users
      requires forall p :: p in payments ==> p.id != f.paymentId
      modifies this`payments
      ensures user in old(users)
      ensures Ended(old(payments), user, f, 4, Decide(sha, old(Stored()), user, inp, f), refused)
    {
      hide Advance, Staged, Refused, Authorize, Screen, Attest, Reserve;
      ghost var before := payments;
      StagesAre(user, f);
      payments := payments + [NewPayment(f.paymentId, user, f.now)];
      ghost var created := Stored();
      refused := RunAuthorize(before, user, inp, f);
      SameChecks(old(Stored()), created, user, inp, f);
      if refused.Some? { return; }
      refused := RunScreen(before, user, inp, f);
      if refused.Some? { return; }
      refused := RunAttest(before, user, inp, f);
      if refused.Some? { return; }
      refused := RunReserve(before, user, f);
    }

    /** No check looks at the records. */
    lemma SameChecks(l: Ledger, l': Ledger, user: string, inp: SettleInput, f: Facts)
      requires user in l.users && l'.users == l.users && l'.spent == l.spent
      ensures Authorize(sha, l, user, inp, f) == Authorize(sha, l', user, inp, f)
    {
      hide Credit.BalanceNullifier;
    }

    method SettlePayment(user: string, inp: SettleInput, f: Facts) returns (r: Result<Report, Reason>)
      requires user in users
      requires forall p :: p in payments ==> p.id != f.paymentId
      modifies this
      ensures user in old(users) && (Stored(), r) == Settle(sha, old(Stored()), user, inp, f)
    {
      hide Advance, Reconcile, Decide, Staged, Refused;
      ghost var before := payments;
      var refused := RunStages(user, inp, f);
      if refused.Some? { return Err(refused.value); }
      spentNullifiers := spentNullifiers + [inp.spendNullifier];
      users := users[user := users[user].(commitment := inp.newCommitment)];
      users := users[user := users[user].(policy := inp.newPolicy)];
      assert users == old(users)[user := users[user]];
      if inp.hasNote { notes := notes + [Note(f.noteId, inp.recipient, false)]; }
      events := events + [Transfer(f.eventId, inp.spendNullifier, inp.newCommitment, inp.newPolicy)];
      if f.decoy { events := events + [Decoy(f.eventId)]; }
      assert events == old(events) + [Transfer(f.eventId, inp.spendNullifier, inp.newCommitment, inp.newPolicy)]
                     + (if f.decoy then [Decoy(f.eventId)] else []);
      var report := CloseRecord(before, user, inp, f);
      r := Ok(report);
    }

    /** The last moves of a settlement that was written, and its reconciliation. */
    method CloseRecord(ghost before: seq<Payment>, user: string, inp: SettleInput, f: Facts) returns (report: Report)
      requires AtStage(before, user, f, 4)
      modifies this`payments
      ensures payments == before + [Closed(user, inp, f).0] && report == Closed(user, inp, f).1
    {
      hide Advance, Reconcile, Staged, PaymentIndex;
      StagesAre(user, f);
      AdvanceLast(before, Staged(user, f, 4), f.paymentId, Settled,
                  Patch(GradeOf(f), RAIL, f.settlementId, "rcpt_" + f.eventId), f.now);
      AdvanceLast(before, Staged(user, f, 5), f.paymentId, DeviceApplied, NO_PATCH, f.now);
      LastIsFound(before, Staged(user, f, 6));
      var reconciled := ReconcilePayment(f.paymentId, Ack(f.settlementId, true, inp.hasNote), f.now);
      assert payments == before + [Closed(user, inp, f).0];
      report := reconciled.value;
    }

    lemma StagesAre(user: string, f: Facts)
      ensures Staged(user, f, 0) == NewPayment(f.paymentId, user, f.now)
      ensures Staged(user, f, 1) == Advance(Staged(user, f, 0), ProofPrepared, NO_PATCH, f.now)
      ensures Staged(user, f, 2) == Advance(Staged(user, f, 1), UserAuthorized, NO_PATCH, f.now)
      ensures Staged(user, f, 3) == Advance(Staged(user, f, 2), ProofVerified, Patch(GradeOf(f), "", "", ""), f.now)
      ensures Staged(user, f, 4) == Advance(Staged(user, f, 3), RailReserved, Patch(NoGrade, RAIL, "", ""), f.now)
      ensures Staged(user, f, 5)
        == Advance(Staged(user, f, 4), Settled, Patch(GradeOf(f), RAIL, f.settlementId, "rcpt_" + f.eventId), f.now)
      ensures Staged(user, f, 6) == Advance(Staged(user, f, 5), DeviceApplied, NO_PATCH, f.now)
    {
      hide Advance;
    }

    method Claim(claimant: string, noteId: string, newCommitment: string) returns (error: Option<ClaimError>)
      requires claimant in users
      modifies this`users, this`notes, this`spentNullifiers
      ensures claimant in old(users)
      ensures (Stored(), error) == ClaimNote(sha, old(Stored()), claimant, noteId, newCommitment)
    {
      hide Credit.BalanceNullifier;
      var at := UnclaimedIndex(notes, noteId);
      UnclaimedIndexIs(notes, noteId);
      if at == None { return Some(NoteNotFound); }
      if notes[at.value].recipient != users[claimant].pubkey { return Some(NotAddressed); }
      notes := notes[at.value := notes[at.value].(claimed := true)];
      var oldNf := Credit.BalanceNullifier(sha, users[claimant].commitment);
      if oldNf !in spentNullifiers { spentNullifiers := spentNullifiers + [oldNf]; }
      users := users[claimant := users[claimant].(commitment := newCommitment)];
      error := None;
    }

    method ResealBalance(user: string, oldCommitment: string, newCommitment: string) returns (ok: bool)
      requires user in users
      modifies this`users, this`spentNullifiers
      ensures user in old(users) && (Stored(), ok) == Reseal(sha, old(Stored()), user, oldCommitment, newCommitment)
    {
      hide Credit.BalanceNullifier;
      if oldCommitment == "" || newCommitment == "" { return false; }
      if oldCommitment == newCommitment { return true; }
      if users[user].commitment != oldCommitment { return false; }
      var nf := Credit.BalanceNullifier(sha, oldCommitment);
      if nf !in spentNullifiers { spentNullifiers := spentNullifiers + [nf]; }
      users := users[user := users[user].(commitment := newCommitment)];
      ok := true;
    }
  }
}
