/** The receiving service as it updates its lists step by step. */
module ReceiveService {
  import opened Wrappers
  import opened Receive

  class Service {
    var destinations: seq<Destination>
    var spentDestinations: seq<string>
    var observations: seq<Observation>
    var confirmations: seq<Confirmation>
    var unmatched: seq<Unmatched>
    var byOrder: map<string, string>

    function Stored(): State
      reads this
    {
      State(destinations, spentDestinations, observations, confirmations, unmatched, byOrder)
    }

    constructor ()
      ensures Stored() == INITIAL
    {
      destinations, spentDestinations, observations, confirmations, unmatched, byOrder := [], [], [], [], [], map[];
    }

    method MintDestination(q: MintRequest) returns (r: Result<Destination, Reason>)
      modifies this`destinations, this`spentDestinations, this`byOrder
      ensures (Stored(), r) == Mint(old(Stored()), q)
    {
      if q.merchantId == None { return Err(MerchantNotFound); }
      if q.orderRef == "" || q.amount == 0 || q.currency == "" || q.rail == "" { return Err(MissingRequiredFields); }
      if q.orderRef in byOrder { return Err(AlreadyReconciled); }
      if q.settlement in spentDestinations { return Err(DestinationReuse); }
      if q.computed == None { return Err(MissingRequiredFields); }
      if q.expected.Some? && q.expected != q.computed { return Err(IntentMismatch); }
      var d := Destination(q.id, q.settlement, q.orderRef, q.computed.value, q.merchantId.value, q.amount, q.currency,
                           q.rail, Minted);
      spentDestinations := spentDestinations + [q.settlement];
      destinations := destinations + [d];
      byOrder := byOrder[q.orderRef := d.id];
      r := Ok(d);
    }

    method FlagUnmatched(b: Inbound, reason: UnmatchedReason)
      modifies this`unmatched
      ensures Stored() == Flag(old(Stored()), b, reason)
    {
      unmatched := unmatched + [Unmatched(b.paymentRef, b.orderRef, b.amount, reason)];
    }

    method ObserveInbound(b: Inbound, id: string) returns (r: Result<Observation, Reason>)
      modifies this`observations, this`destinations, this`unmatched
      ensures (Stored(), r) == Observe(old(Stored()), b, id)
    {
      if b.orderRef == "" || b.orderRef !in byOrder {
        FlagUnmatched(b, NoSignedIntent);
        return Err(UnmatchedInbound);
      }
      DestinationAtIs(destinations, byOrder[b.orderRef]);
      var at := DestinationAt(destinations, byOrder[b.orderRef]);
      if at == None {
        FlagUnmatched(b, NoSignedIntent);
        return Err(OrderNotFound);
      }
      var d := destinations[at.value];
      if b.settlement != "" && b.settlement != d.settlement {
        FlagUnmatched(b, DestinationMismatched);
        return Err(DestinationReuse);
      }
      if b.amount != d.amount {
        FlagUnmatched(b, AmountMismatched);
        return Err(AmountMismatch);
      }
      if b.currency != "" && b.currency != d.currency {
        FlagUnmatched(b, AmountMismatched);
        return Err(AmountMismatch);
      }
      var prior := ObservationOf(observations, b.orderRef);
      if prior.Some? && prior.value.paymentRef != b.paymentRef {
        FlagUnmatched(b, DuplicateAttempt);
        return Err(UnmatchedInbound);
      }
      var o := Observation(id, d.id, d.orderRef, d.commitment, b.paymentRef, b.amount, d.currency);
      if prior == None { observations := observations + [o]; }
      if d.status == Minted { destinations := destinations[at.value := d.(status := InboundDetected)]; }
      assert destinations
        == old(destinations)[at.value := d.(status := if d.status == Minted then InboundDetected else d.status)];
      r := Ok(if prior.Some? then prior.value else o);
    }

    method ReconcileByOrderRef(orderRef: string) returns (r: Result<nat, Reason>)
      modifies this`destinations
      ensures (Stored(), r) == ReconcileOrder(old(Stored()), orderRef)
    {
      var at := OrderAt(Stored(), orderRef);
      if at == None { return Err(OrderNotFound); }
      DestinationAtIs(destinations, byOrder[orderRef]);
      var d := destinations[at.value];
      if LastObservationOf(observations, orderRef) == None { return Err(NotReconciled); }
      if d.status in {Reconciled, Confirmed, Credited} { return Ok(at.value); }
      destinations := destinations[at.value := d.(status := Reconciled)];
      r := Ok(at.value);
    }

    /** `known` tells which merchants are active; `signature` is what the merchant's signer returns. */
    method IssueConfirmation(orderRef: string, known: string -> bool, id: string,
                             signature: string) returns (r: Result<Confirmation, Reason>)
      modifies this`destinations, this`confirmations
      ensures (Stored(), r) == Confirm(old(Stored()), orderRef, known, id, signature)
    {
      var reconciled := ReconcileByOrderRef(orderRef);
      if reconciled.Err? { return Err(reconciled.error); }
      var i := reconciled.value;
      DestinationAtIs(old(destinations), byOrder[orderRef]);
      var d := destinations[i];
      if d.status in {Confirmed, Credited} {
        var existing := ConfirmationOf(confirmations, orderRef);
        if existing.Some? { return Ok(existing.value); }
      }
      if !known(d.merchantId) { return Err(MerchantNotFound); }
      var c := Confirmation(id, d.commitment, d.orderRef, d.merchantId, d.id, signature);
      destinations := destinations[i := d.(status := Confirmed)];
      confirmations := confirmations + [c];
      r := Ok(c);
    }

    method CreditBalance(orderRef: string, signatureOk: bool, oldC: string, newC: string, circuitOk: bool,
                         accountOk: bool)
      returns (r: Result<nat, Reason>)
      modifies this`destinations
      ensures (Stored(), r) == Credit(old(Stored()), orderRef, signatureOk, oldC, newC, circuitOk, accountOk)
    {
      var at := OrderAt(Stored(), orderRef);
      if at == None { return Err(OrderNotFound); }
      DestinationAtIs(destinations, byOrder[orderRef]);
      var d := destinations[at.value];
      if d.status !in {Confirmed, Credited} || ConfirmationOf(confirmations, orderRef) == None {
        return Err(NotReconciled);
      }
      if !signatureOk { return Err(ConfirmationInvalid); }
      if oldC == "" || newC == "" || oldC == newC { return Err(CreditFailed); }
      if !circuitOk || !accountOk { return Err(CreditFailed); }
      destinations := destinations[at.value := d.(status := Credited)];
      r := Ok(at.value);
    }
  }
}
