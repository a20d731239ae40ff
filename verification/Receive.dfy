/** The receiving side: minting a destination for an order, observing and reconciling the inbound payment,
    confirming it, crediting it, and what the buyer's agent is told. One request is one step. */
module Receive {
  import opened Wrappers

  datatype Status = Minted | InboundDetected | Reconciled | Confirmed | Credited

  datatype Destination = Destination(id: string, settlement: string, orderRef: string, commitment: string,
                                     merchantId: string, amount: int, currency: string, rail: string, status: Status)

  datatype Observation = Observation(id: string, destinationId: string, orderRef: string, commitment: string,
                                     paymentRef: string, amount: int, currency: string)

  datatype Confirmation = Confirmation(id: string, commitment: string, orderRef: string, merchantId: string,
                                       destinationId: string, signature: string)

  datatype UnmatchedReason = NoSignedIntent | AmountMismatched | DestinationMismatched | DuplicateAttempt

  datatype Unmatched = Unmatched(paymentRef: string, orderRef: string, amount: int, reason: UnmatchedReason)

  datatype State = State(destinations: seq<Destination>, spentDestinations: seq<string>, observations: seq<Observation>,
                         confirmations: seq<Confirmation>, unmatched: seq<Unmatched>, byOrder: map<string, string>)

  const INITIAL := State([], [], [], [], [], map[])

  datatype Reason =
    | MissingRequiredFields | MerchantNotFound | DestinationReuse | OrderNotFound | AmountMismatch
    | AlreadyReconciled | NotReconciled | ConfirmationInvalid | CreditFailed | IntentMismatch | UnmatchedInbound

  /* Lookups: the first match */

  function DestinationAt(ds: seq<Destination>, id: string): Option<nat> {
    if |ds| == 0 then None
    else if ds[0].id == id then Some(0)
    else
      match DestinationAt(ds[1..], id)
      case None => None
      case Some(i) => Some(i + 1)
  }

  function ObservationOf(os: seq<Observation>, orderRef: string): Option<Observation> {
    if |os| == 0 then None
    else if os[0].orderRef == orderRef then Some(os[0]) else ObservationOf(os[1..], orderRef)
  }

  function LastObservationOf(os: seq<Observation>, orderRef: string): Option<Observation> {
    if |os| == 0 then None
    else if os[|os| - 1].orderRef == orderRef then Some(os[|os| - 1]) else LastObservationOf(os[..|os| - 1], orderRef)
  }

  function ConfirmationOf(cs: seq<Confirmation>, orderRef: string): Option<Confirmation> {
    if |cs| == 0 then None
    else if cs[0].orderRef == orderRef then Some(cs[0]) else ConfirmationOf(cs[1..], orderRef)
  }

  lemma {:induction false} DestinationAtIs(ds: seq<Destination>, id: string)
    ensures match DestinationAt(ds, id)
      case None => forall d :: d in ds ==> d.id != id
      case Some(i) => i < |ds| && ds[i].id == id
  {
    if |ds| > 0 && ds[0].id != id { DestinationAtIs(ds[1..], id); }
  }

  lemma {:induction false} ObservationOfIs(os: seq<Observation>, orderRef: string)
    ensures match ObservationOf(os, orderRef)
      case None => forall o :: o in os ==> o.orderRef != orderRef
      case Some(o) => o in os && o.orderRef == orderRef
  {
    if |os| > 0 && os[0].orderRef != orderRef { ObservationOfIs(os[1..], orderRef); }
  }

  lemma {:induction false} LastObservationOfIs(os: seq<Observation>, orderRef: string)
    ensures match LastObservationOf(os, orderRef)
      case None => forall o :: o in os ==> o.orderRef != orderRef
      case Some(o) => o in os && o.orderRef == orderRef
  {
    if |os| > 0 {
      assert os == os[..|os| - 1] + [os[|os| - 1]];
      if os[|os| - 1].orderRef != orderRef { LastObservationOfIs(os[..|os| - 1], orderRef); }
    }
  }

  lemma {:induction false} ConfirmationOfIs(cs: seq<Confirmation>, orderRef: string)
    ensures match ConfirmationOf(cs, orderRef)
      case None => forall c :: c in cs ==> c.orderRef != orderRef
      case Some(c) => c in cs && c.orderRef == orderRef
  {
    if |cs| > 0 && cs[0].orderRef != orderRef { ConfirmationOfIs(cs[1..], orderRef); }
  }

  /** The position of the destination minted for an order. */
  function OrderAt(s: State, orderRef: string): Option<nat> {
    if orderRef in s.byOrder then DestinationAt(s.destinations, s.byOrder[orderRef]) else None
  }

  /* Operations */

  /** The merchant when it is active, the order's terms, the text the rail minted, the commitment the caller
      expects and the one computed from the completed intent; empty or absent parts are None. */
  datatype MintRequest = MintRequest(merchantId: Option<string>, orderRef: string, amount: int, currency: string,
                                     rail: string, settlement: string, expected: Option<string>,
                                     computed: Option<string>, id: string)

  function Mint(s: State, r: MintRequest): (State, Result<Destination, Reason>) {
    if r.merchantId == None then (s, Err(MerchantNotFound))
    else if r.orderRef == "" || r.amount == 0 || r.currency == "" || r.rail == "" then (s, Err(MissingRequiredFields))
    else if r.orderRef in s.byOrder then (s, Err(AlreadyReconciled))
    else if r.settlement in s.spentDestinations then (s, Err(DestinationReuse))
    else if r.computed == None then (s, Err(MissingRequiredFields))
    else if r.expected.Some? && r.expected != r.computed then (s, Err(IntentMismatch))
    else
      var d := Destination(r.id, r.settlement, r.orderRef, r.computed.value, r.merchantId.value, r.amount, r.currency,
                           r.rail, Minted);
      (s.(spentDestinations := s.spentDestinations + [r.settlement], destinations := s.destinations + [d],
          byOrder := s.byOrder[r.orderRef := r.id]),
       Ok(d))
  }

  /** An inbound payment as it is reported; an empty destination or currency was not given. */
  datatype Inbound = Inbound(orderRef: string, paymentRef: string, amount: int, currency: string, settlement: string)

  function Flag(s: State, b: Inbound, reason: UnmatchedReason): State {
    s.(unmatched := s.unmatched + [Unmatched(b.paymentRef, b.orderRef, b.amount, reason)])
  }

  function Observe(s: State, b: Inbound, id: string): (State, Result<Observation, Reason>) {
    if b.orderRef == "" || b.orderRef !in s.byOrder then (Flag(s, b, NoSignedIntent), Err(UnmatchedInbound))
    else
      DestinationAtIs(s.destinations, s.byOrder[b.orderRef]);
      match DestinationAt(s.destinations, s.byOrder[b.orderRef])
      case None => (Flag(s, b, NoSignedIntent), Err(OrderNotFound))
      case Some(i) =>
        var d := s.destinations[i];
        if b.settlement != "" && b.settlement != d.settlement then
          (Flag(s, b, DestinationMismatched), Err(DestinationReuse))
        else if b.amount != d.amount then (Flag(s, b, AmountMismatched), Err(AmountMismatch))
        else if b.currency != "" && b.currency != d.currency then (Flag(s, b, AmountMismatched), Err(AmountMismatch))
        else
          var prior := ObservationOf(s.observations, b.orderRef);
          if prior.Some? && prior.value.paymentRef != b.paymentRef then
            (Flag(s, b, DuplicateAttempt), Err(UnmatchedInbound))
          else
            var o := Observation(id, d.id, d.orderRef, d.commitment, b.paymentRef, b.amount, d.currency);
            (s.(observations := if prior.Some? then s.observations else s.observations + [o],
                destinations := s.destinations[i := d.(status :=
                  if d.status == Minted then InboundDetected else d.status)]),
             Ok(if prior.Some? then prior.value else o))
  }

  /** The reconciled destination's position. */
  function ReconcileOrder(s: State, orderRef: string): (State, Result<nat, Reason>) {
    match OrderAt(s, orderRef)
    case None => (s, Err(OrderNotFound))
    case Some(i) =>
      DestinationAtIs(s.destinations, s.byOrder[orderRef]);
      var d := s.destinations[i];
      if LastObservationOf(s.observations, orderRef) == None then (s, Err(NotReconciled))
      else if d.status in {Reconciled, Confirmed, Credited} then (s, Ok(i))
      else (s.(destinations := s.destinations[i := d.(status := Reconciled)]), Ok(i))
  }

  function SetStatus(s: State, i: nat, status: Status): State
    requires i < |s.destinations|
  {
    s.(destinations := s.destinations[i := s.destinations[i].(status := status)])
  }

  /** Reconciles the order, then signs a confirmation once. `known` tells which merchants are active. */
  function Confirm(s: State, orderRef: string, known: string -> bool, id: string, signature: string): (State,
                   Result<Confirmation, Reason>) {
    var (s1, r) := ReconcileOrder(s, orderRef);
    match r
    case Err(e) => (s1, Err(e))
    case Ok(i) =>
      DestinationAtIs(s.destinations, s.byOrder[orderRef]);
      var d := s1.destinations[i];
      var existing := ConfirmationOf(s1.confirmations, orderRef);
      if d.status in {Confirmed, Credited} && existing.Some? then (s1, Ok(existing.value))
      else if !known(d.merchantId) then (s1, Err(MerchantNotFound))
      else
        var c := Confirmation(id, d.commitment, d.orderRef, d.merchantId, d.id, signature);
        (SetStatus(s1, i, Confirmed).(confirmations := s1.confirmations + [c]), Ok(c))
  }

  /** The credit step on a confirmed order: the signature check, the circuit and the account update are outcomes. */
  function Credit(s: State, orderRef: string, signatureOk: bool, oldC: string, newC: string, circuitOk: bool,
                  accountOk: bool)
    : (State, Result<nat, Reason>)
  {
    match OrderAt(s, orderRef)
    case None => (s, Err(OrderNotFound))
    case Some(i) =>
      DestinationAtIs(s.destinations, s.byOrder[orderRef]);
      if s.destinations[i].status !in {Confirmed, Credited} then (s, Err(NotReconciled))
      else if ConfirmationOf(s.confirmations, orderRef) == None then (s, Err(NotReconciled))
      else if !signatureOk then (s, Err(ConfirmationInvalid))
      else if oldC == "" || newC == "" || oldC == newC then (s, Err(CreditFailed))
      else if !circuitOk || !accountOk then (s, Err(CreditFailed))
      else (SetStatus(s, i, Credited), Ok(i))
  }

  /* The buyer's view */

  datatype View = PaymentSent | NotYetMatched | Matched

  function FirstFor(ds: seq<Destination>, commitment: string): Option<Destination> {
    if |ds| == 0 then None
    else if ds[0].commitment == commitment then Some(ds[0]) else FirstFor(ds[1..], commitment)
  }

  function Resolve(s: State, commitment: string, sent: bool): View {
    if exists c :: c in s.confirmations && c.commitment == commitment then Matched
    else
      var d := FirstFor(s.destinations, commitment);
      if d.Some? && (ObservationOf(s.observations, d.value.orderRef).Some? || d.value.status != Minted) then
        NotYetMatched
      else if sent then PaymentSent else NotYetMatched
  }
}
