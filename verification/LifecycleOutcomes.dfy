/** The moves of a payment's lifecycle and the answers of reconciliation, written out. */
module LifecycleOutcomes {
  import opened Wrappers
  import opened Lifecycle

  /** From where each state is entered. */
  lemma EnteredFrom(a: State, b: State)
    ensures Edge(a, b) <==>
      match b
      case Created => false
      case ProofPrepared => a == Created
      case UserAuthorized => a in {Created, ProofPrepared}
      case ProofVerified => a == UserAuthorized
      case RailReserved => a == ProofVerified
      case Settled => a in {ProofVerified, RailReserved}
      case DeviceApplied => a in {Settled, DeviceApplyFailed}
      case RecipientNotified => a in {Settled, DeviceApplied}
      case Reconciled => a in {Settled, DeviceApplied, RecipientNotified}
      case ProofFailed => a in {Created, ProofPrepared, UserAuthorized}
      case RailFailed => a in {ProofVerified, RailReserved}
      case DeviceApplyFailed => a == Settled
      case ReversalPending => a in {RailReserved, DeviceApplyFailed}
      case Refunded => a in {ReversalPending, ManualReview}
      case ManualReview =>
        a in {Created, ProofPrepared, UserAuthorized, ProofVerified, DeviceApplyFailed, ReversalPending, RailFailed}
  {
  }

  /** Two moves of the transition table are dead: the terminal guard ignores them. */
  lemma DeadMoves(a: State, b: State)
    ensures b in Allowed(a) && !Edge(a, b) <==>
      (a == RailFailed && b == ReversalPending) || (a == ManualReview && b == Reconciled)
  {
  }

  /** What a call does: along an edge, or staying, it sets what it is given and notes the state; otherwise it leaves the
      record as it is, with a note of the blocked state unless the record is closed to such moves. */
  lemma AdvanceWrites(p: Payment, next: State, patch: Patch, now: int)
    ensures var q := Advance(p, next, patch, now);
      if next == p.state || Edge(p.state, next) then
        && q.id == p.id && q.userId == p.userId && q.state == next && q.updatedAt == now
        && q.timeline == p.timeline + [Entry(now, next, None)]
        && q.grade == (if patch.grade != NoGrade then patch.grade else p.grade)
        && q.railId == (if patch.railId != "" then patch.railId else p.railId)
        && q.railSettlementId == (if patch.railSettlementId != "" then patch.railSettlementId else p.railSettlementId)
        && q.receiptId == (if patch.receiptId != "" then patch.receiptId else p.receiptId)
      else if p.state in {Reconciled, Refunded, ProofFailed, RailFailed, ManualReview}
           && next !in {Refunded, ManualReview} then q == p
      else q == p.(timeline := p.timeline + [Entry(now, p.state, Some(next))])
  {
  }

  /** The payment's proof has a grade that counts, and a payment with a rail has the rail's settlement id. */
  predicate Complete(p: Payment, ack: Ack) {
    && p.grade != NoGrade && p.grade != RejectedGrade
    && (p.railId == "" || p.railSettlementId != "" || ack.railSettlementId != "")
  }

  /** Reconciliation answers reconciled for a complete payment whose device is acknowledged or applied, or whose
      recipient is notified. Otherwise it lists the gaps there are, and the state that the acknowledgements left. */
  lemma ReconciledIff(p: Payment, ack: Ack, now: int)
    ensures var report := Reconcile(p, ack, now).1;
      var closes := Complete(p, ack)
        && (ack.deviceApplied || p.state in {DeviceApplied, RecipientNotified}
            || (ack.recipientNotified && p.state == Settled));
      && (closes ==> report.ok && report.state == Reconciled && report.gaps == [])
      && (!closes ==> (
        && report.gaps
          == (if p.grade == NoGrade || p.grade == RejectedGrade then [ProofIncomplete] else [])
          + (if p.railId != "" && p.railSettlementId == "" && ack.railSettlementId == "" then [RailReceiptMissing]
             else [])
          + (if !ack.deviceApplied && (p.state == Settled || p.state == RailReserved) then [DeviceApplyPending]
             else [])
        && (report.ok <==> report.gaps == []) && report.state == Acknowledged(p, ack, now).state))
  {
    hide DefaultReceipt, Advance, Allowed, Edge;
    AdvanceState(p, p.state, Patch(NoGrade, "", ack.railSettlementId, ""), now);
    var q0 := RailNoted(p, ack, now);
    AdvanceState(q0, DeviceApplied, NO_PATCH, now);
    var q1 := if ack.deviceApplied then Advance(q0, DeviceApplied, NO_PATCH, now) else q0;
    AdvanceState(q1, RecipientNotified, NO_PATCH, now);
    LateEdges(p.state);
    LateEdges(q1.state);
  }

  /** The state that reconciliation stores: acknowledgements move a settled payment on, and it is closed when complete
      and the device acknowledged, applied or its recipient notified. */
  lemma StoredState(p: Payment, ack: Ack, now: int)
    ensures var device := ack.deviceApplied && p.state in {Settled, DeviceApplyFailed};
      var acked := if ack.recipientNotified && (device || p.state in {Settled, DeviceApplied}) then RecipientNotified
        else if device then DeviceApplied else p.state;
      && Acknowledged(p, ack, now).state == acked
      && Reconcile(p, ack, now).0.state ==
         if Complete(p, ack) && acked in {Settled, DeviceApplied, RecipientNotified}
            && (ack.deviceApplied || acked != Settled) then Reconciled
         else acked
  {
    hide DefaultReceipt, Advance, Allowed, Edge;
    AdvanceState(p, p.state, Patch(NoGrade, "", ack.railSettlementId, ""), now);
    var q0 := RailNoted(p, ack, now);
    AdvanceState(q0, DeviceApplied, NO_PATCH, now);
    var q1 := if ack.deviceApplied then Advance(q0, DeviceApplied, NO_PATCH, now) else q0;
    AdvanceState(q1, RecipientNotified, NO_PATCH, now);
    var acked := Acknowledged(p, ack, now);
    AdvanceState(acked, Reconciled,
                 Patch(NoGrade, "", "", if acked.receiptId != "" then acked.receiptId else DefaultReceipt(acked)), now);
    LateEdges(p.state);
    LateEdges(q1.state);
    LateEdges(acked.state);
  }

  /** The same record but for its state, timeline and time. */
  predicate SameFields(p: Payment, q: Payment) {
    q == p.(state := q.state, timeline := q.timeline, updatedAt := q.updatedAt)
  }

  lemma AdvanceFields(p: Payment, next: State, now: int)
    ensures SameFields(p, Advance(p, next, NO_PATCH, now))
  {
    hide Allowed, Terminal;
  }

  lemma AdvanceReceipt(p: Payment, next: State, receipt: string, now: int)
    ensures var q := Advance(p, next, Patch(NoGrade, "", "", receipt), now);
      SameFields(p.(receiptId := q.receiptId), q) && q.receiptId in {p.receiptId, receipt}
  {
    hide Allowed, Terminal;
  }

  lemma NotedFields(p: Payment, ack: Ack, now: int)
    ensures var settlement := if p.railSettlementId == "" then ack.railSettlementId else p.railSettlementId;
      SameFields(p.(railSettlementId := settlement), RailNoted(p, ack, now))
  {
    hide Allowed, Terminal;
  }

  lemma AcknowledgedFields(p: Payment, ack: Ack, now: int)
    ensures var settlement := if p.railSettlementId == "" then ack.railSettlementId else p.railSettlementId;
      SameFields(p.(railSettlementId := settlement), Acknowledged(p, ack, now))
  {
    hide RailNoted, Advance;
    NotedFields(p, ack, now);
    var q0 := RailNoted(p, ack, now);
    AdvanceFields(q0, DeviceApplied, now);
    var q1 := if ack.deviceApplied then Advance(q0, DeviceApplied, NO_PATCH, now) else q0;
    AdvanceFields(q1, RecipientNotified, now);
  }

  /** Reconciliation notes a missing rail settlement and receipt and changes no other field. A receipt is reported as it
      is stored; without one, a payment that is closed is reported with a receipt that names it. */
  lemma ReceiptReported(p: Payment, ack: Ack, now: int)
    ensures var (q, report) := Reconcile(p, ack, now);
      var settlement := if p.railSettlementId == "" then ack.railSettlementId else p.railSettlementId;
      && SameFields(p.(railSettlementId := settlement, receiptId := q.receiptId), q)
      && (p.receiptId != "" ==> report.receiptId == q.receiptId == p.receiptId)
      && (p.receiptId == "" ==>
        && var closes := Complete(p, ack)
             && (ack.deviceApplied || Acknowledged(p, ack, now).state in {DeviceApplied, RecipientNotified});
           report.receiptId == if closes then "rcpt_" + (if |p.id| < 4 then "" else p.id[4..]) else "")
  {
    hide Acknowledged, Advance;
    AcknowledgedFields(p, ack, now);
    var acked := Acknowledged(p, ack, now);
    var receipt := if acked.receiptId != "" then acked.receiptId else DefaultReceipt(acked);
    AdvanceReceipt(acked, Reconciled, receipt, now);
  }
}
