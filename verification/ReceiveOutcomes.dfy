/** What each answer of the receive flow says, condition by condition, and what it writes. */
module ReceiveOutcomes {
  import opened Wrappers
  import opened Receive
  import opened ReceiveSafety

  /** A destination is minted exactly for an active merchant, terms that are all given, a new order, a settlement text
      that was never minted, and a computed commitment that is the expected one if one is expected. */
  lemma MintedIff(s: State, r: MintRequest)
    ensures var (s', result) := Mint(s, r);
      var given := r.orderRef != "" && r.amount != 0 && r.currency != "" && r.rail != "";
      && (result.Ok? <==>
        && r.merchantId.Some? && given && r.orderRef !in s.byOrder && r.settlement !in s.spentDestinations
        && r.computed.Some? && (r.expected == None || r.expected == r.computed))
      && (result.Ok? ==>
        && result.value == Destination(r.id, r.settlement, r.orderRef, r.computed.value, r.merchantId.value, r.amount,
                                       r.currency, r.rail, Minted)
        && s' == s.(destinations := s.destinations + [result.value],
                    spentDestinations := s.spentDestinations + [r.settlement],
                    byOrder := s.byOrder[r.orderRef := r.id]))
      && (result.Err? ==>
        && s' == s
        && match result.error
           case MerchantNotFound => r.merchantId == None
           case MissingRequiredFields => r.merchantId.Some? && (!given || r.computed == None)
           case AlreadyReconciled => given && r.orderRef in s.byOrder
           case DestinationReuse => given && r.orderRef !in s.byOrder && r.settlement in s.spentDestinations
           case IntentMismatch => given && r.expected.Some? && r.computed.Some? && r.expected != r.computed
           case _ => false)
  {
  }

  /** The destination of an order. */
  function Of(s: State, orderRef: string): Option<Destination> {
    DestinationAtIs(s.destinations, if orderRef in s.byOrder then s.byOrder[orderRef] else "");
    match OrderAt(s, orderRef)
    case None => None
    case Some(i) => Some(s.destinations[i])
  }

  /** The payment repeats what the destination asks for, where it says so at all. */
  predicate SameTerms(d: Destination, b: Inbound) {
    (b.settlement == "" || b.settlement == d.settlement) && b.amount == d.amount
    && (b.currency == "" || b.currency == d.currency)
  }

  /** In every reachable state a reported payment is accepted exactly when its order has a destination, its settlement
      text, amount and currency are that destination's, and no payment of another reference was observed for the
      order. */
  lemma ObservedIff(s: State, b: Inbound, id: string)
    requires Inv(s)
    ensures var (s', r) := Observe(s, b, id);
      var d := Of(s, b.orderRef);
      r.Ok? <==>
        && b.orderRef != "" && b.orderRef in s.byOrder && d.Some?
        && (b.settlement == "" || b.settlement == d.value.settlement) && b.amount == d.value.amount
        && (b.currency == "" || b.currency == d.value.currency)
        && forall o :: o in s.observations && o.orderRef == b.orderRef ==> o.paymentRef == b.paymentRef
  {
    hide Indexed, OnLadder;
    if b.orderRef in s.byOrder {
      ObservationOfIs(s.observations, b.orderRef);
      if ObservationOf(s.observations, b.orderRef).Some? {
        OneObservation(s.observations, ObservationOf(s.observations, b.orderRef).value);
      }
    }
  }

  lemma OneObservation(os: seq<Observation>, o: Observation)
    requires o in os && forall i, j :: 0 <= i < j < |os| ==> os[i].orderRef != os[j].orderRef
    ensures forall p :: p in os && p.orderRef == o.orderRef ==> p == o
  {
    var i :| 0 <= i < |os| && os[i] == o;
    forall p | p in os && p.orderRef == o.orderRef ensures p == o { var j :| 0 <= j < |os| && os[j] == p; }
  }

  /** A refused payment is flagged with the reason of its first difference, and nothing else changes. */
  lemma FlaggedMeans(s: State, b: Inbound, id: string)
    requires Inv(s) && Observe(s, b, id).1.Err?
    ensures var (s', e) := (Observe(s, b, id).0, Observe(s, b, id).1.error);
      && |s'.unmatched| == |s.unmatched| + 1 && s' == s.(unmatched := s'.unmatched)
      && s'.unmatched[..|s.unmatched|] == s.unmatched
      && var u := s'.unmatched[|s.unmatched|];
         && u.paymentRef == b.paymentRef && u.orderRef == b.orderRef && u.amount == b.amount
         && match u.reason
            case NoSignedIntent => e == UnmatchedInbound && (b.orderRef == "" || b.orderRef !in s.byOrder)
            case DestinationMismatched =>
              && e == DestinationReuse && Of(s, b.orderRef).Some?
              && b.settlement != "" && b.settlement != Of(s, b.orderRef).value.settlement
            case AmountMismatched =>
              && e == AmountMismatch && Of(s, b.orderRef).Some?
              && (b.settlement == "" || b.settlement == Of(s, b.orderRef).value.settlement)
              && (b.amount != Of(s, b.orderRef).value.amount
                  || (b.currency != "" && b.currency != Of(s, b.orderRef).value.currency))
            case DuplicateAttempt =>
              && e == UnmatchedInbound && Of(s, b.orderRef).Some? && SameTerms(Of(s, b.orderRef).value, b)
              && exists o :: o in s.observations && o.orderRef == b.orderRef && o.paymentRef != b.paymentRef
  {
    hide Indexed, Agreeing, OnLadder, ObservationOf;
    ObservationOfIs(s.observations, b.orderRef);
    OrderAtIs(s, b.orderRef);
  }

  /** An accepted payment has one observation, which repeats the destination's order, commitment and currency. */
  lemma ObservationWritten(s: State, b: Inbound, id: string)
    requires Inv(s) && Observe(s, b, id).1.Ok?
    ensures Of(s, b.orderRef).Some?
    ensures var (s', o) := (Observe(s, b, id).0, Observe(s, b, id).1.value);
      var (d, seen) := (Of(s, b.orderRef).value, exists p :: p in s.observations && p.orderRef == b.orderRef);
      if seen then s' == s && o in s.observations
      else
        && o == Observation(id, d.id, d.orderRef, d.commitment, b.paymentRef, b.amount, d.currency)
        && s' == s.(observations := s.observations + [o], destinations := s'.destinations)
        && Of(s', b.orderRef) == Some(d.(status := InboundDetected)) && d.status == Minted
  {
    hide Indexed, Agreeing, OnLadder, ObservationOf, ObservedIn, ConfirmedIn;
    ObservationOfIs(s.observations, b.orderRef);
    OrderAtIs(s, b.orderRef);
    var i := OrderAt(s, b.orderRef).value;
    LadderAt(s.destinations, s.observations, s.confirmations, i);
    FoundIff(s.observations, b.orderRef);
    SeenIs(s.observations, b.orderRef);
    PlaceStays(s.destinations, i, InboundDetected, s.byOrder[b.orderRef]);
  }

  lemma SeenIs(os: seq<Observation>, orderRef: string)
    ensures ObservedIn(os, orderRef) <==> exists p :: p in os && p.orderRef == orderRef
  {
  }

  lemma {:induction false} PlaceStays(ds: seq<Destination>, i: nat, status: Status, id: string)
    requires i < |ds|
    ensures DestinationAt(ds[i := ds[i].(status := status)], id) == DestinationAt(ds, id)
  {
    var ds' := ds[i := ds[i].(status := status)];
    if ds[0].id != id {
      if i > 0 {
        PlaceStays(ds[1..], i - 1, status, id);
        assert ds'[1..] == ds[1..][i - 1 := ds[i].(status := status)];
      } else {
        assert ds'[1..] == ds[1..];
      }
    }
  }

  /** An order is confirmed exactly when a payment was observed for it and it is confirmed already or its merchant is
      known. */
  lemma ConfirmedIff(s: State, orderRef: string, known: string -> bool, id: string, signature: string)
    requires Inv(s)
    ensures var r := Confirm(s, orderRef, known, id, signature).1;
      var d := Of(s, orderRef);
      && (r.Ok? <==>
        && d.Some? && ObservedIn(s.observations, orderRef)
        && (ConfirmedIn(s.confirmations, orderRef) || known(d.value.merchantId)))
      && (r.Err? ==> match r.error
                     case OrderNotFound => d == None
                     case NotReconciled => d.Some? && !ObservedIn(s.observations, orderRef)
                     case MerchantNotFound => d.Some? && !known(d.value.merchantId)
                     case _ => false)
  {
    hide Indexed, Agreeing, OnLadder, ObservedIn, ConfirmedIn, ConfirmationOf, LastObservationOf;
    OrderAtIs(s, orderRef);
    FoundIff(s.observations, orderRef);
    ConfirmationFoundIff(s.confirmations, orderRef);
    if OrderAt(s, orderRef).Some? {
      LadderAt(s.destinations, s.observations, s.confirmations, OrderAt(s, orderRef).value);
    }
  }

  /** A new confirmation repeats order, merchant, commitment and destination; an order that has one gets no other. */
  lemma ConfirmationWritten(s: State, orderRef: string, known: string -> bool, id: string, signature: string)
    requires Inv(s) && Confirm(s, orderRef, known, id, signature).1.Ok?
    ensures Of(s, orderRef).Some?
    ensures var (s', c) := (Confirm(s, orderRef, known, id, signature).0,
                            Confirm(s, orderRef, known, id, signature).1.value);
      var d := Of(s, orderRef).value;
      if ConfirmedIn(s.confirmations, orderRef) then s' == s && c in s.confirmations && c.orderRef == orderRef
      else
        && c == Confirmation(id, d.commitment, orderRef, d.merchantId, d.id, signature)
        && s' == s.(confirmations := s.confirmations + [c], destinations := s'.destinations)
        && Of(s', orderRef) == Some(d.(status := Confirmed))
  {
    hide Indexed, Agreeing, OnLadder, ObservedIn, ConfirmedIn, ConfirmationOf, LastObservationOf, DestinationAt;
    OrderAtIs(s, orderRef);
    FoundIff(s.observations, orderRef);
    ConfirmationFoundIff(s.confirmations, orderRef);
    var i := OrderAt(s, orderRef).value;
    LadderAt(s.destinations, s.observations, s.confirmations, i);
    PlaceStays(s.destinations, i, Confirmed, s.byOrder[orderRef]);
    var d := s.destinations[i];
    if !ConfirmedIn(s.confirmations, orderRef) {
      assert s.destinations[i := d.(status := Reconciled)][i := d.(status := Confirmed)]
        == s.destinations[i := d.(status := Confirmed)];
    }
  }

  /** Whatever the state, an order is credited exactly when its destination is confirmed or credited, a confirmation of
      it is there and its signature holds, the commitments are given and differ, and circuit and account agree. */
  lemma CreditedIff(s: State, orderRef: string, ok: bool, oldC: string, newC: string, circuitOk: bool, accountOk: bool)
    ensures var d := Of(s, orderRef);
      Credit(s, orderRef, ok, oldC, newC, circuitOk, accountOk).1.Ok? <==>
        && d.Some? && (d.value.status == Confirmed || d.value.status == Credited)
        && (exists c :: c in s.confirmations && c.orderRef == orderRef)
        && ok && oldC != "" && newC != "" && oldC != newC && circuitOk && accountOk
  {
    ConfirmationOfIs(s.confirmations, orderRef);
    if orderRef in s.byOrder { DestinationAtIs(s.destinations, s.byOrder[orderRef]); }
  }

  /** Crediting an order sets its status and nothing else. */
  lemma CreditWritten(s: State, orderRef: string, ok: bool, oldC: string, newC: string, circuitOk: bool,
                      accountOk: bool)
    requires Inv(s)
    ensures var (s', r) := Credit(s, orderRef, ok, oldC, newC, circuitOk, accountOk);
      var d := Of(s, orderRef);
      && (r.Ok? ==>
        && d.Some? && Of(s', orderRef) == Some(d.value.(status := Credited))
        && s' == s.(destinations := s'.destinations) && |s'.destinations| == |s.destinations|)
      && (r.Err? ==>
        && s' == s
        && match r.error
           case OrderNotFound => d == None
           case NotReconciled => d.Some? && !ConfirmedIn(s.confirmations, orderRef)
           case ConfirmationInvalid => ConfirmedIn(s.confirmations, orderRef) && !ok
           case CreditFailed =>
             && ConfirmedIn(s.confirmations, orderRef) && ok
             && (oldC == "" || newC == "" || oldC == newC || !circuitOk || !accountOk)
           case _ => false)
  {
    hide Indexed, Agreeing, OnLadder, ObservedIn, ConfirmedIn, ConfirmationOf;
    OrderAtIs(s, orderRef);
    ConfirmationFoundIff(s.confirmations, orderRef);
    if OrderAt(s, orderRef).Some? {
      var i := OrderAt(s, orderRef).value;
      LadderAt(s.destinations, s.observations, s.confirmations, i);
      PlaceStays(s.destinations, i, Credited, s.byOrder[orderRef]);
    }
  }

  predicate IsFirst(ds: seq<Destination>, commitment: string, i: int) {
    0 <= i < |ds| && ds[i].commitment == commitment && forall j :: 0 <= j < i ==> ds[j].commitment != commitment
  }

  lemma {:induction false} FirstForIs(ds: seq<Destination>, commitment: string)
    ensures match FirstFor(ds, commitment)
      case None => forall i :: !IsFirst(ds, commitment, i)
      case Some(d) => exists i :: IsFirst(ds, commitment, i) && ds[i] == d
    ensures forall i, j :: IsFirst(ds, commitment, i) && IsFirst(ds, commitment, j) ==> i == j
  {
    if |ds| > 0 {
      if ds[0].commitment == commitment {
        assert IsFirst(ds, commitment, 0);
      } else {
        FirstForIs(ds[1..], commitment);
        forall i | IsFirst(ds, commitment, i) ensures IsFirst(ds[1..], commitment, i - 1) {
          assert forall j :: 0 <= j < i - 1 ==> ds[1..][j] == ds[j + 1];
        }
        if FirstFor(ds[1..], commitment).Some? {
          var i :| IsFirst(ds[1..], commitment, i) && ds[1..][i] == FirstFor(ds[1..], commitment).value;
          assert forall j :: 0 < j < i + 1 ==> ds[j] == ds[1..][j - 1];
          assert IsFirst(ds, commitment, i + 1);
        }
      }
    }
  }

  /** The buyer is told matched exactly with a confirmation of the commitment; otherwise, that the payment was sent,
      exactly when it was and the first destination of the commitment has seen none. */
  lemma ViewIff(s: State, commitment: string, sent: bool)
    ensures var v := Resolve(s, commitment, sent);
      && (v == Matched <==> exists c :: c in s.confirmations && c.commitment == commitment)
      && (v == PaymentSent <==>
        && !(exists c :: c in s.confirmations && c.commitment == commitment) && sent
        && forall i :: IsFirst(s.destinations, commitment, i) ==>
             && s.destinations[i].status == Minted
             && forall o :: o in s.observations ==> o.orderRef != s.destinations[i].orderRef)
  {
    FirstForIs(s.destinations, commitment);
    var d := FirstFor(s.destinations, commitment);
    if d.Some? { ObservationOfIs(s.observations, d.value.orderRef); }
  }
}
