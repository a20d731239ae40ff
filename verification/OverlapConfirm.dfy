/** Confirmations that overlap: an order is reconciled and looked up, the merchant's signer is awaited, and the
    confirmation is written later, when another may have been written in between. */
module OverlapConfirm {
  import opened Wrappers
  import opened Receive
  import opened ReceiveSafety
  import Crediting
  import Settlement

  /** A confirmation that waits for its signature: the place of its destination, and the order. */
  datatype Flight = Flight(at: nat, orderRef: string)

  datatype System = System(flow: State, flights: seq<Option<Flight>>)

  /** A confirmation's checks; its write; any other operation, or a confirmation with nothing in between. */
  datatype Event =
    | Ask(orderRef: string, known: string -> bool)
    | Sign(flight: nat, id: string, signature: string)
    | AtOnce(op: Op)

  /** The order as the checks leave it, and what is to be signed if no confirmation is returned or refused there. */
  function Asked(s: State, orderRef: string, known: string -> bool): (State, Option<Flight>) {
    var (s1, r) := ReconcileOrder(s, orderRef);
    if r.Err? then (s1, None)
    else
      ReconciledPlace(s, orderRef);
      var d := s1.destinations[r.value];
      if d.status in {Confirmed, Credited} && ConfirmationOf(s1.confirmations, orderRef).Some? then (s1, None)
      else if !known(d.merchantId) then (s1, None)
      else (s1, Some(Flight(r.value, orderRef)))
  }

  lemma ReconciledPlace(s: State, orderRef: string)
    ensures var (s1, r) := ReconcileOrder(s, orderRef); r.Ok? ==> r.value < |s1.destinations|
  {
    if OrderAt(s, orderRef).Some? { DestinationAtIs(s.destinations, s.byOrder[orderRef]); }
  }

  /** The destination is marked confirmed, whatever it is by now, and the confirmation is added. */
  function Signed(s: State, f: Flight, id: string, signature: string): State
    requires f.at < |s.destinations|
  {
    var d := s.destinations[f.at];
    SetStatus(s, f.at, Confirmed).(
      confirmations := s.confirmations + [Confirmation(id, d.commitment, d.orderRef, d.merchantId, d.id, signature)])
  }

  predicate Enabled(s: System, e: Event) {
    match e
    case Ask(_, _) => true
    case Sign(f, _, _) => f < |s.flights| && s.flights[f].Some? && s.flights[f].value.at < |s.flow.destinations|
    case AtOnce(op) => FreshDraws(s.flow, op)
  }

  function Next(s: System, e: Event): System
    requires Enabled(s, e)
  {
    match e
    case Ask(orderRef, known) =>
      var (flow, f) := Asked(s.flow, orderRef, known);
      System(flow, if f.Some? then s.flights + [f] else s.flights)
    case Sign(f, id, signature) => System(Signed(s.flow, s.flights[f].value, id, signature), s.flights[f := None])
    case AtOnce(op) => s.(flow := Step(s.flow, op))
  }

  /** Asking and signing with nothing in between is confirming in one step. */
  lemma SignedAtOnce(s: State, orderRef: string, known: string -> bool, id: string, signature: string)
    ensures var (s1, f) := Asked(s, orderRef, known);
      match f
      case None => Confirm(s, orderRef, known, id, signature).0 == s1
      case Some(flight) =>
        flight.at < |s1.destinations|
        && Confirm(s, orderRef, known, id, signature).0 == Signed(s1, flight, id, signature)
  {
    if OrderAt(s, orderRef).Some? { DestinationAtIs(s.destinations, s.byOrder[orderRef]); }
  }

  /** The write finds no confirmation of its order. */
  predicate FindsNone(s: System, e: Event) {
    Enabled(s, e) && e.Sign? ==>
      !ConfirmedIn(s.flow.confirmations, s.flow.destinations[s.flights[e.flight].value.at].orderRef)
  }

  predicate OnePerOrder(cs: seq<Confirmation>) {
    forall i, j :: 0 <= i < j < |cs| ==> cs[i].orderRef != cs[j].orderRef
  }

  /** What waits for a signature was reconciled. */
  predicate Waits(s: State, f: Flight) {
    f.at < |s.destinations| && s.destinations[f.at].orderRef == f.orderRef
    && s.destinations[f.at].status in {Reconciled, Confirmed, Credited}
  }

  ghost predicate Good(s: System) {
    Inv(s.flow) && forall f :: Some(f) in s.flights ==> Waits(s.flow, f)
  }

  lemma WaitsOn(s: State, s': State, f: Flight)
    requires Climbs(s, s') && Waits(s, f)
    ensures Waits(s', f)
  {
    assert s'.destinations[f.at] == s.destinations[f.at].(status := s'.destinations[f.at].status);
  }

  lemma AskKeeps(s: State, orderRef: string, known: string -> bool)
    requires Inv(s)
    ensures var (s', f) := Asked(s, orderRef, known);
      Inv(s') && Climbs(s, s') && s'.confirmations == s.confirmations && (f.Some? ==> Waits(s', f.value))
  {
    hide Inv, Climbs, ReconcileOrder, ObservedIn, ConfirmationOf;
    ReconcileKeeps(s, orderRef);
    ReconciledPlace(s, orderRef);
    var (s1, r) := ReconcileOrder(s, orderRef);
    var (s', f) := Asked(s, orderRef, known);
    if f.Some? { assert s' == s1 && f.value == Flight(r.value, orderRef); }
  }

  /** Signing for an order that has no confirmation is confirming it. */
  lemma SignKeeps(s: State, f: Flight, id: string, signature: string)
    requires Inv(s) && Waits(s, f) && !ConfirmedIn(s.confirmations, s.destinations[f.at].orderRef)
    ensures Inv(Signed(s, f, id, signature)) && Climbs(s, Signed(s, f, id, signature))
  {
    hide Indexed, Agreeing, OnLadder, ConfirmedIn, Climbs;
    var d := s.destinations[f.at];
    LadderAt(s.destinations, s.observations, s.confirmations, f.at);
    ConfirmNew(s, f.at, Confirmation(id, d.commitment, d.orderRef, d.merchantId, d.id, signature));
  }

  lemma StepGood(s: System, e: Event)
    requires Good(s) && Enabled(s, e) && FindsNone(s, e)
    ensures Good(Next(s, e))
  {
    hide Inv, Climbs, Waits, Step, Asked, Signed, FreshDraws, ConfirmedIn;
    var s' := Next(s, e);
    match e {
      case Ask(orderRef, known) => AskKeeps(s.flow, orderRef, known);
      case Sign(f, id, signature) =>
        assert s.flights[f] in s.flights;
        SignKeeps(s.flow, s.flights[f].value, id, signature);
      case AtOnce(op) => StepKeeps(s.flow, op);
    }
    forall f | Some(f) in s'.flights ensures Waits(s'.flow, f) {
      if Some(f) in s.flights { WaitsOn(s.flow, s'.flow, f); }
    }
  }

  /** A write that finds a confirmation of its order adds a second one. */
  lemma SecondOne(s: System, e: Event)
    requires Enabled(s, e) && !FindsNone(s, e)
    ensures !OnePerOrder(Next(s, e).flow.confirmations)
  {
    var (cs, cs') := (s.flow.confirmations, Next(s, e).flow.confirmations);
    var orderRef := s.flow.destinations[s.flights[e.flight].value.at].orderRef;
    var c :| c in cs && c.orderRef == orderRef;
    var i :| 0 <= i < |cs| && cs[i] == c;
    assert cs'[i].orderRef == cs'[|cs|].orderRef;
  }

  /** Confirmations are only added, whatever the state. */
  lemma OnlyAdded(s: System, e: Event)
    requires Enabled(s, e)
    ensures s.flow.confirmations <= Next(s, e).flow.confirmations
  {
    hide ConfirmationOf, LastObservationOf, ObservationOf, DestinationAt, FreshDraws, Inv;
    if e.Ask? && OrderAt(s.flow, e.orderRef).Some? {
      DestinationAtIs(s.flow.destinations, s.flow.byOrder[e.orderRef]);
    }
    if e.AtOnce? { StepAdds(s.flow, e.op); }
  }

  lemma StepAdds(s: State, op: Op)
    ensures s.confirmations <= Step(s, op).confirmations
  {
    hide ConfirmationOf, LastObservationOf, ObservationOf, DestinationAt;
    match op
    case ConfirmOp(orderRef, _, _, _) =>
      if OrderAt(s, orderRef).Some? { DestinationAtIs(s.destinations, s.byOrder[orderRef]); }
    case _ =>
  }

  lemma StillTwo(cs: seq<Confirmation>, cs': seq<Confirmation>)
    requires cs <= cs' && !OnePerOrder(cs)
    ensures !OnePerOrder(cs')
  {
  }

  lemma GoodHasOne(s: System)
    requires Good(s)
    ensures OnePerOrder(s.flow.confirmations)
  {
    hide Indexed, OnLadder, Waits;
  }

  ghost predicate Run(ss: seq<System>, es: seq<Event>) {
    && |ss| == |es| + 1 && ss[0] == System(INITIAL, [])
    && forall k :: 0 <= k < |es| ==> Enabled(ss[k], es[k]) && ss[k + 1] == Next(ss[k], es[k])
  }

  lemma RunStart(ss: seq<System>, es: seq<Event>)
    requires Run(ss, es)
    ensures |ss| == |es| + 1 && Good(ss[0])
  {
    hide Enabled, Next;
  }

  lemma RunStep(ss: seq<System>, es: seq<Event>, k: nat)
    requires Run(ss, es) && k < |es|
    ensures k + 1 < |ss| && Enabled(ss[k], es[k]) && ss[k + 1] == Next(ss[k], es[k])
  {
    hide Enabled, Next;
  }

  /** However confirmations overlap, no order gets two exactly when each one that is written finds none of its order. */
  lemma {:induction false} OneConfirmationIff(ss: seq<System>, es: seq<Event>, k: nat)
    requires Run(ss, es) && k < |ss|
    ensures k <= |es|
    ensures OnePerOrder(ss[k].flow.confirmations) <==> forall j :: 0 <= j < k ==> FindsNone(ss[j], es[j])
    ensures OnePerOrder(ss[k].flow.confirmations) ==> Good(ss[k])
  {
    hide Run, Enabled, Next, Good, FindsNone, OnePerOrder;
    RunStart(ss, es);
    if k == 0 {
      GoodHasOne(ss[0]);
    } else {
      OneConfirmationIff(ss, es, k - 1);
      RunStep(ss, es, k - 1);
      if OnePerOrder(ss[k - 1].flow.confirmations) {
        if FindsNone(ss[k - 1], es[k - 1]) {
          StepGood(ss[k - 1], es[k - 1]);
          GoodHasOne(ss[k]);
        } else {
          SecondOne(ss[k - 1], es[k - 1]);
        }
      } else {
        OnlyAdded(ss[k - 1], es[k - 1]);
        StillTwo(ss[k - 1].flow.confirmations, ss[k].flow.confirmations);
      }
    }
  }

  /* An order that is confirmed twice */

  const ALL := (m: string) => true

  const TWICE := [
    AtOnce(MintOp(Crediting.TERMS)), AtOnce(ObserveOp(Inbound("order", "payment", 5, "EUR", "dest"), "o1")),
    Ask("order", ALL), Ask("order", ALL), Sign(0, "c1", "signature"),
    AtOnce(CreditOp("order", true, "a", "b", true, true)), Sign(1, "c2", "signature")]

  const AGAIN := Crediting.SIGNED.(id := "c2")

  function At(status: Status, cs: seq<Confirmation>): State {
    Crediting.OrderAtStatus(status, [Crediting.SEEN], cs)
  }

  lemma AskTwice()
    ensures Asked(At(InboundDetected, []), "order", ALL) == (At(Reconciled, []), Some(Flight(0, "order")))
    ensures Asked(At(Reconciled, []), "order", ALL) == (At(Reconciled, []), Some(Flight(0, "order")))
  {
    var s := At(InboundDetected, []);
    assert OrderAt(s, "order") == Some(0);
    assert s.destinations[0 := s.destinations[0].(status := Reconciled)] == At(Reconciled, []).destinations;
    assert ReconcileOrder(s, "order") == (At(Reconciled, []), Ok(0));
  }

  lemma SignTwice()
    ensures Signed(At(Reconciled, []), Flight(0, "order"), "c1", "signature") == At(Confirmed, [Crediting.SIGNED])
    ensures Step(At(Confirmed, [Crediting.SIGNED]), CreditOp("order", true, "a", "b", true, true))
      == At(Credited, [Crediting.SIGNED])
    ensures Signed(At(Credited, [Crediting.SIGNED]), Flight(0, "order"), "c2", "signature")
      == At(Confirmed, [Crediting.SIGNED, AGAIN])
  {
  }

  /** Two confirmations are asked for, one is written, the order is credited, and the other is written: the order has
      two and is no longer credited. */
  lemma ConfirmedTwice() returns (ss: seq<System>)
    ensures Run(ss, TWICE)
    ensures ss[6].flow == At(Credited, [Crediting.SIGNED])
    ensures ss[7].flow == At(Confirmed, [Crediting.SIGNED, AGAIN]) && !OnePerOrder(ss[7].flow.confirmations)
  {
    hide Asked, Signed, Step, FreshDraws;
    var l := Settlement.Ledger(map[], [], [], [], []);
    Crediting.FlowSteps((x: string) => x, l);
    AskTwice();
    SignTwice();
    MintedFresh();
    var f := Some(Flight(0, "order"));
    var minted := Crediting.OrderAtStatus(Minted, [], []);
    ss := [System(INITIAL, []), System(minted, []), System(At(InboundDetected, []), []),
           System(At(Reconciled, []), [f]), System(At(Reconciled, []), [f, f]),
           System(At(Confirmed, [Crediting.SIGNED]), [None, f]), System(At(Credited, [Crediting.SIGNED]), [None, f]),
           System(At(Confirmed, [Crediting.SIGNED, AGAIN]), [None, None])];
    assert ss[7].flow.confirmations[0].orderRef == ss[7].flow.confirmations[1].orderRef;
  }

  lemma MintedFresh()
    ensures FreshDraws(INITIAL, MintOp(Crediting.TERMS))
    ensures FreshDraws(Crediting.OrderAtStatus(Minted, [], []),
                       ObserveOp(Inbound("order", "payment", 5, "EUR", "dest"), "o1"))
    ensures FreshDraws(At(Confirmed, [Crediting.SIGNED]), CreditOp("order", true, "a", "b", true, true))
  {
  }
}
