/** What the receive flow keeps in every state of every run. */
module ReceiveSafety {
  import opened Wrappers
  import opened Receive

  datatype Op =
    | MintOp(request: MintRequest)
    | ObserveOp(inbound: Inbound, id: string)
    | ReconcileOp(orderRef: string)
    | ConfirmOp(orderRef: string, known: string -> bool, id: string, signature: string)
    | CreditOp(orderRef: string, signatureOk: bool, oldC: string, newC: string, circuitOk: bool, accountOk: bool)

  /** Destination ids are drawn anew. */
  predicate FreshDraws(s: State, op: Op) {
    op.MintOp? ==> forall d :: d in s.destinations ==> d.id != op.request.id
  }

  function Step(s: State, op: Op): State {
    match op
    case MintOp(r) => Mint(s, r).0
    case ObserveOp(b, id) => Observe(s, b, id).0
    case ReconcileOp(orderRef) => ReconcileOrder(s, orderRef).0
    case ConfirmOp(orderRef, known, id, signature) => Confirm(s, orderRef, known, id, signature).0
    case CreditOp(orderRef, ok, oldC, newC, circuitOk, accountOk) =>
      Credit(s, orderRef, ok, oldC, newC, circuitOk, accountOk).0
  }

  function Rung(st: Status): nat {
    match st
    case Minted => 0
    case InboundDetected => 1
    case Reconciled => 2
    case Confirmed => 3
    case Credited => 4
  }

  predicate ObservedIn(os: seq<Observation>, orderRef: string) { exists o :: o in os && o.orderRef == orderRef }

  predicate ConfirmedIn(cs: seq<Confirmation>, orderRef: string) { exists c :: c in cs && c.orderRef == orderRef }

  predicate Listed(ds: seq<Destination>, spent: seq<string>) {
    |spent| == |ds| && forall i :: 0 <= i < |ds| ==> spent[i] == ds[i].settlement
  }

  predicate Apart(ds: seq<Destination>) {
    forall i, j :: 0 <= i < j < |ds| ==>
      ds[i].id != ds[j].id && ds[i].orderRef != ds[j].orderRef && ds[i].settlement != ds[j].settlement
  }

  predicate Found(ds: seq<Destination>, byOrder: map<string, string>) {
    forall d :: d in ds ==> d.orderRef in byOrder && byOrder[d.orderRef] == d.id
  }

  predicate Covered(ds: seq<Destination>, byOrder: map<string, string>) {
    forall r :: r in byOrder ==> exists d :: d in ds && d.orderRef == r
  }

  /** Destinations, their order references and settlement texts correspond one to one, and the order index finds
      them. */
  predicate Indexed(ds: seq<Destination>, spent: seq<string>, byOrder: map<string, string>) {
    Listed(ds, spent) && Apart(ds) && Found(ds, byOrder) && Covered(ds, byOrder)
  }

  predicate MatchesObservation(d: Destination, o: Observation) {
    d.orderRef == o.orderRef && d.id == o.destinationId && d.amount == o.amount && d.currency == o.currency
    && d.commitment == o.commitment
  }

  predicate MatchesConfirmation(d: Destination, c: Confirmation) {
    d.orderRef == c.orderRef && d.id == c.destinationId && d.merchantId == c.merchantId && d.commitment == c.commitment
  }

  /** One observation and one confirmation at most for an order, each agreeing with its destination. */
  predicate Agreeing(ds: seq<Destination>, os: seq<Observation>, cs: seq<Confirmation>) {
    && (forall i, j :: 0 <= i < j < |os| ==> os[i].orderRef != os[j].orderRef)
    && (forall i, j :: 0 <= i < j < |cs| ==> cs[i].orderRef != cs[j].orderRef)
    && (forall o :: o in os ==> exists i :: 0 <= i < |ds| && MatchesObservation(ds[i], o))
    && (forall c :: c in cs ==> exists i :: 0 <= i < |ds| && MatchesConfirmation(ds[i], c))
  }

  /** Past the first rung exactly with an observation; on the upper two exactly with a confirmation. */
  predicate OnLadder(ds: seq<Destination>, os: seq<Observation>, cs: seq<Confirmation>) {
    forall i :: 0 <= i < |ds| ==>
      (ds[i].status != Minted <==> ObservedIn(os, ds[i].orderRef))
      && (ds[i].status in {Confirmed, Credited} <==> ConfirmedIn(cs, ds[i].orderRef))
  }

  predicate Inv(s: State) {
    && Indexed(s.destinations, s.spentDestinations, s.byOrder)
    && Agreeing(s.destinations, s.observations, s.confirmations)
    && OnLadder(s.destinations, s.observations, s.confirmations)
  }

  /** Destinations stay, in place and with their terms, and climb; what was recorded stays recorded. */
  predicate Climbs(s: State, s': State) {
    && |s.destinations| <= |s'.destinations|
    && (forall i :: 0 <= i < |s.destinations| ==>
          s'.destinations[i] == s.destinations[i].(status := s'.destinations[i].status)
          && Rung(s.destinations[i].status) <= Rung(s'.destinations[i].status))
    && s.observations <= s'.observations && s.confirmations <= s'.confirmations && s.unmatched <= s'.unmatched
    && s.spentDestinations <= s'.spentDestinations
  }

  /* Steps: the index */

  predicate DistinctOrders(ds: seq<Destination>) {
    forall i, j :: 0 <= i < j < |ds| ==> ds[i].orderRef != ds[j].orderRef
  }

  lemma StatusFound(ds: seq<Destination>, byOrder: map<string, string>, i: nat, st: Status)
    requires i < |ds| && Found(ds, byOrder)
    ensures Found(ds[i := ds[i].(status := st)], byOrder)
  {
    var ds' := ds[i := ds[i].(status := st)];
    forall d | d in ds' ensures d.orderRef in byOrder && byOrder[d.orderRef] == d.id {
      var k :| 0 <= k < |ds'| && ds'[k] == d;
      assert ds[k] in ds;
    }
  }

  lemma StatusCovered(ds: seq<Destination>, byOrder: map<string, string>, i: nat, st: Status)
    requires i < |ds| && Covered(ds, byOrder)
    ensures Covered(ds[i := ds[i].(status := st)], byOrder)
  {
    var ds' := ds[i := ds[i].(status := st)];
    forall r | r in byOrder ensures exists d :: d in ds' && d.orderRef == r {
      var d :| d in ds && d.orderRef == r;
      var k :| 0 <= k < |ds| && ds[k] == d;
      assert ds'[k] in ds' && ds'[k].orderRef == r;
    }
  }

  lemma StatusIndexed(ds: seq<Destination>, spent: seq<string>, byOrder: map<string, string>, i: nat, st: Status)
    requires i < |ds| && Indexed(ds, spent, byOrder)
    ensures Indexed(ds[i := ds[i].(status := st)], spent, byOrder)
  {
    hide Found, Covered;
    StatusFound(ds, byOrder, i, st);
    StatusCovered(ds, byOrder, i, st);
  }

  lemma MintIndexed(ds: seq<Destination>, spent: seq<string>, byOrder: map<string, string>, d: Destination)
    requires Indexed(ds, spent, byOrder) && d.orderRef !in byOrder && d.settlement !in spent
    requires forall e :: e in ds ==> e.id != d.id
    ensures Indexed(ds + [d], spent + [d.settlement], byOrder[d.orderRef := d.id])
    ensures forall e :: e in ds ==> e.orderRef != d.orderRef
  {
    hide Covered;
    MintCovered(ds, byOrder, d);
    forall j | 0 <= j < |ds|
      ensures ds[j].settlement != d.settlement && ds[j].orderRef != d.orderRef && ds[j].id != d.id
    {
      assert ds[j] in ds && spent[j] in spent;
    }
  }

  lemma MintCovered(ds: seq<Destination>, byOrder: map<string, string>, d: Destination)
    requires Covered(ds, byOrder)
    ensures Covered(ds + [d], byOrder[d.orderRef := d.id])
  {
    forall r | r in byOrder ensures exists e :: e in ds + [d] && e.orderRef == r {
      var e :| e in ds && e.orderRef == r;
      assert e in ds + [d];
    }
    assert d in ds + [d];
  }

  lemma IndexedDistinct(ds: seq<Destination>, spent: seq<string>, byOrder: map<string, string>)
    requires Indexed(ds, spent, byOrder)
    ensures DistinctOrders(ds)
  {
  }

  /** The order index leads to the destination of that order. */
  lemma OrderAtIs(s: State, orderRef: string)
    requires Indexed(s.destinations, s.spentDestinations, s.byOrder)
    ensures OrderAt(s, orderRef).Some? <==> orderRef in s.byOrder
    ensures OrderAt(s, orderRef).Some? ==>
      OrderAt(s, orderRef).value < |s.destinations| && s.destinations[OrderAt(s, orderRef).value].orderRef == orderRef
  {
    if orderRef in s.byOrder {
      DestinationAtIs(s.destinations, s.byOrder[orderRef]);
      var d :| d in s.destinations && d.orderRef == orderRef;
      var k :| 0 <= k < |s.destinations| && s.destinations[k] == d;
    }
  }

  /* Steps: agreement */

  lemma StatusAgreeing(ds: seq<Destination>, os: seq<Observation>, cs: seq<Confirmation>, i: nat, st: Status)
    requires i < |ds| && Agreeing(ds, os, cs)
    ensures Agreeing(ds[i := ds[i].(status := st)], os, cs)
  {
    var ds' := ds[i := ds[i].(status := st)];
    forall o | o in os ensures exists k :: 0 <= k < |ds'| && MatchesObservation(ds'[k], o) {
      var k :| 0 <= k < |ds| && MatchesObservation(ds[k], o);
      assert MatchesObservation(ds'[k], o);
    }
    forall c | c in cs ensures exists k :: 0 <= k < |ds'| && MatchesConfirmation(ds'[k], c) {
      var k :| 0 <= k < |ds| && MatchesConfirmation(ds[k], c);
      assert MatchesConfirmation(ds'[k], c);
    }
  }

  lemma MintAgreeing(ds: seq<Destination>, os: seq<Observation>, cs: seq<Confirmation>, d: Destination)
    requires Agreeing(ds, os, cs)
    ensures Agreeing(ds + [d], os, cs)
  {
    var ds' := ds + [d];
    forall o | o in os ensures exists k :: 0 <= k < |ds'| && MatchesObservation(ds'[k], o) {
      var k :| 0 <= k < |ds| && MatchesObservation(ds[k], o);
      assert MatchesObservation(ds'[k], o);
    }
    forall c | c in cs ensures exists k :: 0 <= k < |ds'| && MatchesConfirmation(ds'[k], c) {
      var k :| 0 <= k < |ds| && MatchesConfirmation(ds[k], c);
      assert MatchesConfirmation(ds'[k], c);
    }
  }

  lemma ObservationAgreeing(ds: seq<Destination>, os: seq<Observation>, cs: seq<Confirmation>, i: nat, o: Observation)
    requires Agreeing(ds, os, cs) && i < |ds| && MatchesObservation(ds[i], o) && !ObservedIn(os, o.orderRef)
    ensures Agreeing(ds, os + [o], cs)
  {
    hide MatchesObservation, MatchesConfirmation;
    forall j | 0 <= j < |os| ensures os[j].orderRef != o.orderRef { assert os[j] in os; }
  }

  lemma ConfirmationAgreeing(ds: seq<Destination>, os: seq<Observation>, cs: seq<Confirmation>, i: nat, c: Confirmation)
    requires Agreeing(ds, os, cs) && i < |ds| && MatchesConfirmation(ds[i], c) && !ConfirmedIn(cs, c.orderRef)
    ensures Agreeing(ds, os, cs + [c])
  {
    hide MatchesObservation, MatchesConfirmation;
    forall j | 0 <= j < |cs| ensures cs[j].orderRef != c.orderRef { assert cs[j] in cs; }
  }

  /** A record of an order agrees with the destination of that order. */
  lemma AgreesWith(ds: seq<Destination>, os: seq<Observation>, cs: seq<Confirmation>, i: nat)
    requires Agreeing(ds, os, cs) && DistinctOrders(ds) && i < |ds|
    ensures forall o :: o in os && o.orderRef == ds[i].orderRef ==> MatchesObservation(ds[i], o)
    ensures forall c :: c in cs && c.orderRef == ds[i].orderRef ==> MatchesConfirmation(ds[i], c)
  {
    forall o | o in os && o.orderRef == ds[i].orderRef ensures MatchesObservation(ds[i], o) {
      var k :| 0 <= k < |ds| && MatchesObservation(ds[k], o);
      assert k == i;
    }
    forall c | c in cs && c.orderRef == ds[i].orderRef ensures MatchesConfirmation(ds[i], c) {
      var k :| 0 <= k < |ds| && MatchesConfirmation(ds[k], c);
      assert k == i;
    }
  }

  /** Orders without a destination have no records. */
  lemma NoRecords(ds: seq<Destination>, os: seq<Observation>, cs: seq<Confirmation>, orderRef: string)
    requires Agreeing(ds, os, cs) && forall d :: d in ds ==> d.orderRef != orderRef
    ensures !ObservedIn(os, orderRef) && !ConfirmedIn(cs, orderRef)
  {
    forall o | o in os ensures o.orderRef != orderRef {
      var k :| 0 <= k < |ds| && MatchesObservation(ds[k], o);
      assert ds[k] in ds;
    }
    forall c | c in cs ensures c.orderRef != orderRef {
      var k :| 0 <= k < |ds| && MatchesConfirmation(ds[k], c);
      assert ds[k] in ds;
    }
  }

  /* Steps: the ladder */

  lemma ObservedAppend(os: seq<Observation>, o: Observation, r: string)
    ensures ObservedIn(os + [o], r) <==> ObservedIn(os, r) || o.orderRef == r
  {
    if ObservedIn(os, r) { var p :| p in os && p.orderRef == r; assert p in os + [o]; }
    assert o in os + [o];
  }

  lemma ConfirmedAppend(cs: seq<Confirmation>, c: Confirmation, r: string)
    ensures ConfirmedIn(cs + [c], r) <==> ConfirmedIn(cs, r) || c.orderRef == r
  {
    if ConfirmedIn(cs, r) { var p :| p in cs && p.orderRef == r; assert p in cs + [c]; }
    assert c in cs + [c];
  }

  lemma LadderAt(ds: seq<Destination>, os: seq<Observation>, cs: seq<Confirmation>, i: nat)
    requires OnLadder(ds, os, cs) && i < |ds|
    ensures ds[i].status != Minted <==> ObservedIn(os, ds[i].orderRef)
    ensures ds[i].status in {Confirmed, Credited} <==> ConfirmedIn(cs, ds[i].orderRef)
  {
    hide ObservedIn, ConfirmedIn;
  }

  /** Setting one status keeps the ladder when it suits the order's records, and no other order's records change. */
  lemma LadderUpdate(ds: seq<Destination>, os: seq<Observation>, cs: seq<Confirmation>, os': seq<Observation>,
                     cs': seq<Confirmation>, i: nat, st: Status)
    requires OnLadder(ds, os, cs) && DistinctOrders(ds) && i < |ds|
    requires forall r :: r != ds[i].orderRef ==>
      (ObservedIn(os', r) <==> ObservedIn(os, r)) && (ConfirmedIn(cs', r) <==> ConfirmedIn(cs, r))
    requires st != Minted <==> ObservedIn(os', ds[i].orderRef)
    requires st in {Confirmed, Credited} <==> ConfirmedIn(cs', ds[i].orderRef)
    ensures OnLadder(ds[i := ds[i].(status := st)], os', cs')
  {
    hide ObservedIn, ConfirmedIn;
  }

  lemma MintLadder(ds: seq<Destination>, os: seq<Observation>, cs: seq<Confirmation>, d: Destination)
    requires OnLadder(ds, os, cs) && d.status == Minted && !ObservedIn(os, d.orderRef) && !ConfirmedIn(cs, d.orderRef)
    ensures OnLadder(ds + [d], os, cs)
  {
    hide ObservedIn, ConfirmedIn;
  }

  /* Steps: whole operations */

  lemma ClimbsSelf(s: State)
    ensures Climbs(s, s)
  {
  }

  lemma MintKeeps(s: State, r: MintRequest)
    requires Inv(s) && FreshDraws(s, MintOp(r))
    ensures Inv(Mint(s, r).0) && Climbs(s, Mint(s, r).0)
  {
    hide Indexed, Agreeing, OnLadder, ObservedIn, ConfirmedIn;
    ClimbsSelf(s);
    if Mint(s, r).1.Ok? {
      var d := Mint(s, r).1.value;
      MintIndexed(s.destinations, s.spentDestinations, s.byOrder, d);
      MintAgreeing(s.destinations, s.observations, s.confirmations, d);
      NoRecords(s.destinations, s.observations, s.confirmations, d.orderRef);
      MintLadder(s.destinations, s.observations, s.confirmations, d);
    }
  }

  lemma ObserveNew(s: State, i: nat, o: Observation)
    requires Inv(s) && i < |s.destinations| && s.destinations[i].status == Minted
    requires !ObservedIn(s.observations, o.orderRef)
    requires MatchesObservation(s.destinations[i], o)
    ensures var s' := SetStatus(s, i, InboundDetected).(observations := s.observations + [o]); Inv(s') && Climbs(s, s')
  {
    hide Indexed, Agreeing, OnLadder, ObservedIn, ConfirmedIn;
    var ds, os, cs := s.destinations, s.observations, s.confirmations;
    var ds' := ds[i := ds[i].(status := InboundDetected)];
    IndexedDistinct(ds, s.spentDestinations, s.byOrder);
    LadderAt(ds, os, cs, i);
    StatusIndexed(ds, s.spentDestinations, s.byOrder, i, InboundDetected);
    StatusAgreeing(ds, os, cs, i, InboundDetected);
    ObservationAgreeing(ds', os, cs, i, o);
    forall r ensures ObservedIn(os + [o], r) <==> ObservedIn(os, r) || o.orderRef == r { ObservedAppend(os, o, r); }
    LadderUpdate(ds, os, cs, os + [o], cs, i, InboundDetected);
  }

  lemma ConfirmNew(s: State, i: nat, c: Confirmation)
    requires Inv(s) && i < |s.destinations| && s.destinations[i].status == Reconciled
    requires MatchesConfirmation(s.destinations[i], c)
    ensures var s' := SetStatus(s, i, Confirmed).(confirmations := s.confirmations + [c]); Inv(s') && Climbs(s, s')
  {
    hide Indexed, Agreeing, OnLadder, ObservedIn, ConfirmedIn;
    var ds, os, cs := s.destinations, s.observations, s.confirmations;
    var ds' := ds[i := ds[i].(status := Confirmed)];
    IndexedDistinct(ds, s.spentDestinations, s.byOrder);
    LadderAt(ds, os, cs, i);
    StatusIndexed(ds, s.spentDestinations, s.byOrder, i, Confirmed);
    StatusAgreeing(ds, os, cs, i, Confirmed);
    ConfirmationAgreeing(ds', os, cs, i, c);
    forall r ensures ConfirmedIn(cs + [c], r) <==> ConfirmedIn(cs, r) || c.orderRef == r { ConfirmedAppend(cs, c, r); }
    LadderUpdate(ds, os, cs, os, cs + [c], i, Confirmed);
  }

  /** Setting a status that the order's records allow. */
  lemma StatusSet(s: State, i: nat, st: Status)
    requires Inv(s) && i < |s.destinations| && Rung(s.destinations[i].status) <= Rung(st)
    requires st != Minted <==> ObservedIn(s.observations, s.destinations[i].orderRef)
    requires st in {Confirmed, Credited} <==> ConfirmedIn(s.confirmations, s.destinations[i].orderRef)
    ensures Inv(SetStatus(s, i, st)) && Climbs(s, SetStatus(s, i, st))
  {
    hide Indexed, Agreeing, OnLadder, ObservedIn, ConfirmedIn;
    IndexedDistinct(s.destinations, s.spentDestinations, s.byOrder);
    StatusIndexed(s.destinations, s.spentDestinations, s.byOrder, i, st);
    StatusAgreeing(s.destinations, s.observations, s.confirmations, i, st);
    LadderUpdate(s.destinations, s.observations, s.confirmations, s.observations, s.confirmations, i, st);
  }

  /** Every reported payment is accepted, with one observation for its order that matches its terms, or adds
      exactly one unmatched entry and changes nothing else. */
  lemma ObserveKeeps(s: State, b: Inbound, id: string)
    requires Inv(s)
    ensures var (s', r) := Observe(s, b, id);
      && Inv(s') && Climbs(s, s')
      && (r.Ok? ==> (
        && s'.unmatched == s.unmatched && r.value in s'.observations && r.value.orderRef == b.orderRef
        && r.value.paymentRef == b.paymentRef && r.value.amount == b.amount))
      && (r.Err? ==>
           |s'.unmatched| == |s.unmatched| + 1 && s' == s.(unmatched := s'.unmatched) && s.unmatched <= s'.unmatched)
  {
    hide Indexed, Agreeing, OnLadder, ObservedIn, ConfirmedIn;
    var (s', r) := Observe(s, b, id);
    ClimbsSelf(s);
    if r.Ok? {
      OrderAtIs(s, b.orderRef);
      var i := OrderAt(s, b.orderRef).value;
      LadderAt(s.destinations, s.observations, s.confirmations, i);
      FoundIff(s.observations, b.orderRef);
      IndexedDistinct(s.destinations, s.spentDestinations, s.byOrder);
      AgreesWith(s.destinations, s.observations, s.confirmations, i);
      if ObservationOf(s.observations, b.orderRef).Some? {
        assert s' == s;
      } else {
        var o := s'.observations[|s.observations|];
        ObserveNew(s, i, o);
        assert s' == SetStatus(s, i, InboundDetected).(observations := s.observations + [o]);
        assert o in s'.observations;
      }
    }
  }

  lemma FoundIff(os: seq<Observation>, orderRef: string)
    ensures ObservationOf(os, orderRef).Some? <==> ObservedIn(os, orderRef)
    ensures LastObservationOf(os, orderRef).Some? <==> ObservedIn(os, orderRef)
    ensures ObservationOf(os, orderRef).Some? ==>
      ObservationOf(os, orderRef).value in os && ObservationOf(os, orderRef).value.orderRef == orderRef
  {
    ObservationOfIs(os, orderRef); LastObservationOfIs(os, orderRef);
  }

  lemma ConfirmationFoundIff(cs: seq<Confirmation>, orderRef: string)
    ensures ConfirmationOf(cs, orderRef).Some? <==> ConfirmedIn(cs, orderRef)
    ensures ConfirmationOf(cs, orderRef).Some? ==>
      ConfirmationOf(cs, orderRef).value in cs && ConfirmationOf(cs, orderRef).value.orderRef == orderRef
  {
    ConfirmationOfIs(cs, orderRef);
  }

  /** Reconciling succeeds exactly for observed orders and leaves them reconciled or higher. */
  lemma ReconcileKeeps(s: State, orderRef: string)
    requires Inv(s)
    ensures var (s', r) := ReconcileOrder(s, orderRef);
      && Inv(s') && Climbs(s, s') && s'.confirmations == s.confirmations
      && (r.Ok? <==> orderRef in s.byOrder && ObservedIn(s.observations, orderRef))
      && (r.Ok? ==> (
        && r.value < |s'.destinations| && s'.destinations[r.value].orderRef == orderRef
        && s'.destinations[r.value].status in {Reconciled, Confirmed, Credited}))
  {
    hide Indexed, Agreeing, OnLadder, ObservedIn, ConfirmedIn;
    OrderAtIs(s, orderRef);
    FoundIff(s.observations, orderRef);
    ClimbsSelf(s);
    var (s', r) := ReconcileOrder(s, orderRef);
    if r.Ok? {
      LadderAt(s.destinations, s.observations, s.confirmations, r.value);
      if s.destinations[r.value].status == InboundDetected { StatusSet(s, r.value, Reconciled); }
    }
  }

  lemma ClimbsTrans(a: State, b: State, c: State)
    requires Climbs(a, b) && Climbs(b, c)
    ensures Climbs(a, c)
  {
  }

  /** Confirming an order again returns the confirmation it already has. */
  lemma ConfirmKeeps(s: State, orderRef: string, known: string -> bool, id: string, signature: string)
    requires Inv(s)
    ensures var (s', r) := Confirm(s, orderRef, known, id, signature);
      && Inv(s') && Climbs(s, s')
      && (r.Ok? ==> r.value in s'.confirmations && r.value.orderRef == orderRef)
      && (r.Ok? && ConfirmedIn(s.confirmations, orderRef) ==> s'.confirmations == s.confirmations)
  {
    hide Indexed, Agreeing, OnLadder, ObservedIn, ConfirmedIn, Climbs, ReconcileOrder;
    ReconcileKeeps(s, orderRef);
    var (s1, r) := ReconcileOrder(s, orderRef);
    if r.Ok? {
      var i := r.value;
      LadderAt(s1.destinations, s1.observations, s1.confirmations, i);
      ConfirmationFoundIff(s1.confirmations, orderRef);
      var d := s1.destinations[i];
      if d.status == Reconciled && known(d.merchantId) {
        var c := Confirmation(id, d.commitment, d.orderRef, d.merchantId, d.id, signature);
        ConfirmNew(s1, i, c);
        var s' := Confirm(s, orderRef, known, id, signature).0;
        ClimbsTrans(s, s1, s');
        assert c in s'.confirmations;
      }
    }
  }

  /** An order is credited exactly when it is confirmed, its signature holds, the commitments differ and circuit and
      account agree; that it was credited before does not matter. */
  lemma CreditKeeps(s: State, orderRef: string, ok: bool, oldC: string, newC: string, circuitOk: bool, accountOk: bool)
    requires Inv(s)
    ensures var (s', r) := Credit(s, orderRef, ok, oldC, newC, circuitOk, accountOk);
      && Inv(s') && Climbs(s, s')
      && (r.Ok? <==>
           ConfirmedIn(s.confirmations, orderRef) && ok && oldC != "" && newC != "" && oldC != newC
           && circuitOk && accountOk)
      && (r.Ok? ==> (
        && r.value < |s'.destinations| && s'.destinations[r.value].orderRef == orderRef
        && s' == SetStatus(s, r.value, Credited)))
      && (r.Err? ==> s' == s)
  {
    hide Indexed, Agreeing, OnLadder, ObservedIn, ConfirmedIn, Climbs;
    OrderAtIs(s, orderRef);
    ConfirmationFoundIff(s.confirmations, orderRef);
    ClimbsSelf(s);
    if OrderAt(s, orderRef) == None {
      Unlisted(s, orderRef);
    } else {
      LadderAt(s.destinations, s.observations, s.confirmations, OrderAt(s, orderRef).value);
    }
    var (s', r) := Credit(s, orderRef, ok, oldC, newC, circuitOk, accountOk);
    if r.Ok? { StatusSet(s, r.value, Credited); }
  }

  /** An order that the index does not know has no records. */
  lemma Unlisted(s: State, orderRef: string)
    requires Inv(s) && orderRef !in s.byOrder
    ensures !ObservedIn(s.observations, orderRef) && !ConfirmedIn(s.confirmations, orderRef)
  {
    hide Agreeing, OnLadder, ObservedIn, ConfirmedIn;
    NoRecords(s.destinations, s.observations, s.confirmations, orderRef);
  }

  lemma StepKeeps(s: State, op: Op)
    requires Inv(s) && FreshDraws(s, op)
    ensures Inv(Step(s, op)) && Climbs(s, Step(s, op))
  {
    hide Inv, Climbs, Mint, Observe, ReconcileOrder, Confirm, Credit;
    match op
    case MintOp(r) => MintKeeps(s, r);
    case ObserveOp(b, id) => ObserveKeeps(s, b, id);
    case ReconcileOp(orderRef) => ReconcileKeeps(s, orderRef);
    case ConfirmOp(orderRef, known, id, signature) => ConfirmKeeps(s, orderRef, known, id, signature);
    case CreditOp(orderRef, ok, oldC, newC, circuitOk, accountOk) =>
      CreditKeeps(s, orderRef, ok, oldC, newC, circuitOk, accountOk);
  }

  ghost predicate Run(ss: seq<State>, ops: seq<Op>) {
    && |ss| == |ops| + 1 && ss[0] == INITIAL
    && forall k :: 0 <= k < |ops| ==> FreshDraws(ss[k], ops[k]) && ss[k + 1] == Step(ss[k], ops[k])
  }

  /** In every state of every run: settlement texts are never minted twice, each order has one destination, at most
      one observation agreeing with it and at most one confirmation, and its rung tells which of them it has. */
  lemma {:induction false} RunKeeps(ss: seq<State>, ops: seq<Op>, k: nat)
    requires Run(ss, ops) && k < |ss|
    ensures Inv(ss[k])
  {
    hide Step, FreshDraws;
    if k > 0 {
      hide Inv;
      RunKeeps(ss, ops, k - 1);
      StepKeeps(ss[k - 1], ops[k - 1]);
    }
  }

  /** No destination ever leaves its place or steps down the ladder, and records are only added. */
  lemma {:induction false} RunClimbs(ss: seq<State>, ops: seq<Op>, i: nat, j: nat)
    requires Run(ss, ops) && i <= j < |ss|
    ensures Climbs(ss[i], ss[j])
    decreases j
  {
    hide Step, FreshDraws, Climbs;
    if i < j {
      RunClimbs(ss, ops, i, j - 1);
      RunKeeps(ss, ops, j - 1);
      StepKeeps(ss[j - 1], ops[j - 1]);
      ClimbsTrans(ss[i], ss[j - 1], ss[j]);
    } else {
      ClimbsSelf(ss[i]);
    }
  }

  /* The buyer's view */

  function ViewRank(v: View): nat {
    match v
    case PaymentSent => 0
    case NotYetMatched => 1
    case Matched => 2
  }

  /** The first destination for a commitment stays the first. */
  lemma {:induction false} FirstForStays(ds: seq<Destination>, ds': seq<Destination>, commitment: string)
    requires |ds| <= |ds'| && FirstFor(ds, commitment).Some?
    requires forall i :: 0 <= i < |ds| ==>
      ds'[i] == ds[i].(status := ds'[i].status) && Rung(ds[i].status) <= Rung(ds'[i].status)
    ensures FirstFor(ds', commitment).Some?
    ensures FirstFor(ds', commitment).value.orderRef == FirstFor(ds, commitment).value.orderRef
    ensures Rung(FirstFor(ds, commitment).value.status) <= Rung(FirstFor(ds', commitment).value.status)
  {
    assert ds'[0] == ds[0].(status := ds'[0].status);
    if ds[0].commitment != commitment { FirstForStays(ds[1..], ds'[1..], commitment); }
  }

  lemma ObservationStays(os: seq<Observation>, os': seq<Observation>, orderRef: string)
    requires os <= os' && ObservationOf(os, orderRef).Some?
    ensures ObservationOf(os', orderRef).Some?
  {
    ObservationOfIs(os, orderRef); ObservationOfIs(os', orderRef);
    var o := ObservationOf(os, orderRef).value;
    assert o in os';
  }

  lemma ViewAdvances(s: State, s': State, commitment: string, sent: bool)
    requires Climbs(s, s')
    ensures ViewRank(Resolve(s, commitment, sent)) <= ViewRank(Resolve(s', commitment, sent))
  {
    if c :| c in s.confirmations && c.commitment == commitment {
      assert c in s'.confirmations;
    } else if FirstFor(s.destinations, commitment).Some? {
      FirstForStays(s.destinations, s'.destinations, commitment);
      var d := FirstFor(s.destinations, commitment).value;
      if ObservationOf(s.observations, d.orderRef).Some? {
        ObservationStays(s.observations, s'.observations, d.orderRef);
      }
    }
  }

  /** What the buyer is told about a commitment never moves back, and says matched exactly when a merchant has
      confirmed it. */
  lemma BuyerViewMonotone(ss: seq<State>, ops: seq<Op>, i: nat, j: nat, commitment: string, sent: bool)
    requires Run(ss, ops) && i <= j < |ss|
    ensures ViewRank(Resolve(ss[i], commitment, sent)) <= ViewRank(Resolve(ss[j], commitment, sent))
    ensures Resolve(ss[j], commitment, sent) == Matched <==>
      exists d :: d in ss[j].destinations && d.commitment == commitment && d.status in {Confirmed, Credited}
  {
    RunClimbs(ss, ops, i, j);
    RunKeeps(ss, ops, j);
    hide Run;
    ViewAdvances(ss[i], ss[j], commitment, sent);
    MatchedIff(ss[j], commitment, sent);
  }

  lemma MatchedIff(s: State, commitment: string, sent: bool)
    requires Inv(s)
    ensures Resolve(s, commitment, sent) == Matched <==>
      exists d :: d in s.destinations && d.commitment == commitment && d.status in {Confirmed, Credited}
  {
    hide Indexed, Agreeing, OnLadder, ObservedIn, ConfirmedIn, FirstFor, ObservationOf;
    IndexedDistinct(s.destinations, s.spentDestinations, s.byOrder);
    if c :| c in s.confirmations && c.commitment == commitment {
      var k := ConfirmationHome(s.destinations, s.observations, s.confirmations, c);
      LadderAt(s.destinations, s.observations, s.confirmations, k);
      ConfirmedHere(s.confirmations, c);
    }
    if d :| d in s.destinations && d.commitment == commitment && d.status in {Confirmed, Credited} {
      var i :| 0 <= i < |s.destinations| && s.destinations[i] == d;
      LadderAt(s.destinations, s.observations, s.confirmations, i);
      AgreesWith(s.destinations, s.observations, s.confirmations, i);
      ConfirmationFoundIff(s.confirmations, d.orderRef);
    }
  }

  lemma ConfirmationHome(ds: seq<Destination>, os: seq<Observation>, cs: seq<Confirmation>,
                         c: Confirmation) returns (k: nat)
    requires Agreeing(ds, os, cs) && c in cs
    ensures k < |ds| && MatchesConfirmation(ds[k], c)
  {
    k :| 0 <= k < |ds| && MatchesConfirmation(ds[k], c);
  }

  lemma ConfirmedHere(cs: seq<Confirmation>, c: Confirmation)
    requires c in cs
    ensures ConfirmedIn(cs, c.orderRef)
  {
  }
}
