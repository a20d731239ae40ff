/** Crediting received payments to accounts: the status of the order and the account that moves, over whole runs. */
module Crediting {
  import opened Wrappers
  import opened Receive
  import opened ReceiveSafety
  import Credit
  import Settlement

  /** The receive flow beside the accounts and their nullifiers. */
  datatype Desk = Desk(flow: State, ledger: Settlement.Ledger)

  datatype Request = Request(orderRef: string, account: string, signatureOk: bool, circuitOk: bool, oldC: string,
                             newC: string)

  datatype Move = Flow(op: Op) | CreditTo(request: Request)

  /** The account answers before the order is marked; it moves exactly when the order is credited. */
  function CreditOrder(sha: string -> string, d: Desk, r: Request): (Desk, Result<nat, Reason>) {
    var (ledger, accountOk) := Settlement.ReceiveCredit(sha, d.ledger, r.account, r.oldC, r.newC);
    var (flow, result) := Receive.Credit(d.flow, r.orderRef, r.signatureOk, r.oldC, r.newC, r.circuitOk, accountOk);
    (Desk(flow, if result.Ok? then ledger else d.ledger), result)
  }

  /** Other steps of the flow leave the accounts alone; crediting goes through the account. */
  predicate Allowed(d: Desk, m: Move) { m.Flow? ==> !m.op.CreditOp? && FreshDraws(d.flow, m.op) }

  function After(sha: string -> string, d: Desk, m: Move): Desk {
    match m
    case Flow(op) => d.(flow := Step(d.flow, op))
    case CreditTo(r) => CreditOrder(sha, d, r).0
  }

  ghost predicate DeskRun(sha: string -> string, ds: seq<Desk>, ms: seq<Move>) {
    && |ds| == |ms| + 1 && ds[0].flow == INITIAL
    && forall k :: 0 <= k < |ms| ==> Allowed(ds[k], ms[k]) && ds[k + 1] == After(sha, ds[k], ms[k])
  }

  /** The account agrees: it does not exist, so that nothing is to be moved, or has the old commitment. */
  predicate AccountAgrees(d: Desk, r: Request) {
    r.account in d.ledger.users ==> d.ledger.users[r.account].commitment == r.oldC
  }

  predicate WellFormed(r: Request) { r.signatureOk && r.circuitOk && r.oldC != "" && r.newC != "" && r.oldC != r.newC }

  /** A request is granted exactly for a confirmed order, a well-formed request and an account that agrees; whether the
      order was credited before does not matter. A granted request moves the account to the new commitment and records
      the nullifier of the old one; a refused one changes nothing. */
  lemma CreditOrderIff(sha: string -> string, d: Desk, r: Request)
    requires Inv(d.flow)
    ensures var (d', result) := CreditOrder(sha, d, r);
      && (result.Ok? <==> ConfirmedIn(d.flow.confirmations, r.orderRef) && WellFormed(r) && AccountAgrees(d, r))
      && (result.Ok? && r.account in d.ledger.users ==> (
        && r.account in d'.ledger.users && d'.ledger.users[r.account].commitment == r.newC
        && Credit.BalanceNullifier(sha, r.oldC) in d'.ledger.spent))
      && (result.Err? ==> d' == d)
      && Inv(d'.flow) && Climbs(d.flow, d'.flow)
  {
    hide Inv, ConfirmedIn, Receive.Credit, Climbs, Credit.BalanceNullifier;
    var accountOk := Settlement.ReceiveCredit(sha, d.ledger, r.account, r.oldC, r.newC).1;
    CreditKeeps(d.flow, r.orderRef, r.signatureOk, r.oldC, r.newC, r.circuitOk, accountOk);
    if r.account in d.ledger.users && r.oldC != "" && r.newC != "" && r.oldC != r.newC && AccountAgrees(d, r) {
      AddedIn(d.ledger.spent, Credit.BalanceNullifier(sha, r.oldC));
    }
  }

  lemma AddedIn(s: seq<string>, x: string)
    ensures x in Settlement.AddOnce(s, x)
  {
  }

  lemma AfterKeeps(sha: string -> string, d: Desk, m: Move)
    requires Inv(d.flow) && Allowed(d, m)
    ensures Inv(After(sha, d, m).flow) && Climbs(d.flow, After(sha, d, m).flow)
  {
    hide Inv, Climbs, Step, FreshDraws, CreditOrder;
    match m
    case Flow(op) => StepKeeps(d.flow, op);
    case CreditTo(r) => CreditOrderIff(sha, d, r);
  }

  lemma DeskStep(sha: string -> string, ds: seq<Desk>, ms: seq<Move>, k: nat)
    requires DeskRun(sha, ds, ms) && k < |ms|
    ensures k + 1 < |ds| && Allowed(ds[k], ms[k]) && ds[k + 1] == After(sha, ds[k], ms[k])
  {
    hide Allowed, After;
  }

  lemma DeskStart(sha: string -> string, ds: seq<Desk>, ms: seq<Move>)
    requires DeskRun(sha, ds, ms)
    ensures |ds| == |ms| + 1 && Inv(ds[0].flow)
  {
    hide Allowed, After;
  }

  lemma {:induction false} DeskKeeps(sha: string -> string, ds: seq<Desk>, ms: seq<Move>, k: nat)
    requires DeskRun(sha, ds, ms) && k < |ds|
    ensures Inv(ds[k].flow)
  {
    hide DeskRun, Inv, Allowed, After, Climbs;
    DeskStart(sha, ds, ms);
    if k > 0 {
      DeskKeeps(sha, ds, ms, k - 1);
      DeskStep(sha, ds, ms, k - 1);
      AfterKeeps(sha, ds[k - 1], ms[k - 1]);
    }
  }

  /** A confirmation is never withdrawn. */
  lemma {:induction false} StaysConfirmed(sha: string -> string, ds: seq<Desk>, ms: seq<Move>, i: nat, j: nat,
                                          orderRef: string)
    requires DeskRun(sha, ds, ms) && i <= j < |ds| && ConfirmedIn(ds[i].flow.confirmations, orderRef)
    ensures ConfirmedIn(ds[j].flow.confirmations, orderRef)
    decreases j
  {
    hide DeskRun, Inv, Allowed, After, ConfirmedIn, Climbs;
    if i < j {
      DeskStart(sha, ds, ms);
      StaysConfirmed(sha, ds, ms, i, j - 1, orderRef);
      DeskStep(sha, ds, ms, j - 1);
      DeskKeeps(sha, ds, ms, j - 1);
      AfterKeeps(sha, ds[j - 1], ms[j - 1]);
      ClimbsConfirmed(ds[j - 1].flow, ds[j].flow, orderRef);
    }
  }

  lemma ClimbsConfirmed(s: State, s': State, orderRef: string)
    requires Climbs(s, s') && ConfirmedIn(s.confirmations, orderRef)
    ensures ConfirmedIn(s'.confirmations, orderRef)
  {
    var c :| c in s.confirmations && c.orderRef == orderRef;
    assert c in s'.confirmations;
  }

  /** Once an order has been credited, every later request to credit it is granted exactly when it is well formed and
      its account agrees, and then moves that account again. */
  lemma CreditedAgainIff(sha: string -> string, ds: seq<Desk>, ms: seq<Move>, i: nat, j: nat)
    requires DeskRun(sha, ds, ms) && i < j < |ms| && ms[i].CreditTo? && ms[j].CreditTo?
    requires i < |ds| && CreditOrder(sha, ds[i], ms[i].request).1.Ok?
    requires ms[i].request.orderRef == ms[j].request.orderRef
    ensures j + 1 < |ds|
    ensures var r := ms[j].request;
      && (CreditOrder(sha, ds[j], r).1.Ok? <==> WellFormed(r) && AccountAgrees(ds[j], r))
      && (WellFormed(r) && AccountAgrees(ds[j], r) && r.account in ds[j].ledger.users ==> (
        && r.account in ds[j + 1].ledger.users && ds[j + 1].ledger.users[r.account].commitment == r.newC))
  {
    hide DeskRun, Inv, CreditOrder, ConfirmedIn, Climbs, WellFormed, AccountAgrees, Credit.BalanceNullifier;
    DeskStart(sha, ds, ms);
    DeskKeeps(sha, ds, ms, i);
    DeskKeeps(sha, ds, ms, j);
    DeskStep(sha, ds, ms, j);
    CreditOrderIff(sha, ds[i], ms[i].request);
    CreditOrderIff(sha, ds[j], ms[j].request);
    StaysConfirmed(sha, ds, ms, i, j, ms[i].request.orderRef);
  }

  /* An order that is credited twice */

  const TERMS := MintRequest(Some("shop"), "order", 5, "EUR", "rail", "dest", None, Some("commitment"), "d1")
  const FIRST := Request("order", "shop", true, true, "a", "b")
  const SECOND := Request("order", "shop", true, true, "b", "c")

  function TwiceMoves(): seq<Move> {
    [Flow(MintOp(TERMS)), Flow(ObserveOp(Inbound("order", "payment", 5, "EUR", "dest"), "o1")),
     Flow(ConfirmOp("order", (m: string) => true, "c1", "signature")), CreditTo(FIRST), CreditTo(SECOND)]
  }

  const MINTED := Destination("d1", "dest", "order", "commitment", "shop", 5, "EUR", "rail", Minted)
  const SEEN := Observation("o1", "d1", "order", "commitment", "payment", 5, "EUR")
  const SIGNED := Confirmation("c1", "commitment", "order", "shop", "d1", "signature")

  /** The order's destination at a status, with its records. */
  function OrderAtStatus(status: Status, os: seq<Observation>, cs: seq<Confirmation>): State {
    State([MINTED.(status := status)], ["dest"], os, cs, [], map["order" := "d1"])
  }

  lemma FlowSteps(sha: string -> string, l: Settlement.Ledger)
    ensures var ms := TwiceMoves();
      && Allowed(Desk(INITIAL, l), ms[0])
      && After(sha, Desk(INITIAL, l), ms[0]) == Desk(OrderAtStatus(Minted, [], []), l)
      && Allowed(Desk(OrderAtStatus(Minted, [], []), l), ms[1])
      && After(sha, Desk(OrderAtStatus(Minted, [], []), l), ms[1])
        == Desk(OrderAtStatus(InboundDetected, [SEEN], []), l)
      && Allowed(Desk(OrderAtStatus(InboundDetected, [SEEN], []), l), ms[2])
      && After(sha, Desk(OrderAtStatus(InboundDetected, [SEEN], []), l), ms[2])
         == Desk(OrderAtStatus(Confirmed, [SEEN], [SIGNED]), l)
  {
  }

  lemma CreditSteps(sha: string -> string, status: Status, l: Settlement.Ledger, r: Request)
    requires status in {Confirmed, Credited} && r in {FIRST, SECOND}
    requires "shop" in l.users && l.users["shop"].commitment == r.oldC
    ensures var d := Desk(OrderAtStatus(status, [SEEN], [SIGNED]), l);
      var (d', result) := CreditOrder(sha, d, r);
      && result.Ok? && d'.flow == OrderAtStatus(Credited, [SEEN], [SIGNED])
      && "shop" in d'.ledger.users && d'.ledger.users["shop"].commitment == r.newC
  {
    hide Credit.BalanceNullifier;
  }

  /** One payment of one order, credited twice: the account moves from a to b and from b to c. */
  lemma CreditedTwice(sha: string -> string) returns (ds: seq<Desk>)
    ensures DeskRun(sha, ds, TwiceMoves())
    ensures "shop" in ds[3].ledger.users && ds[3].ledger.users["shop"].commitment == "a"
    ensures CreditOrder(sha, ds[3], FIRST).1.Ok? && CreditOrder(sha, ds[4], SECOND).1.Ok?
    ensures "shop" in ds[4].ledger.users && ds[4].ledger.users["shop"].commitment == "b"
    ensures "shop" in ds[5].ledger.users && ds[5].ledger.users["shop"].commitment == "c"
  {
    hide Credit.BalanceNullifier, Inv, Climbs, Step, FreshDraws, CreditOrder, OrderAtStatus;
    var l := Settlement.Ledger(map["shop" := Credit.Account("k", "a", "", "")], [], [], [], []);
    FlowSteps(sha, l);
    CreditSteps(sha, Confirmed, l, FIRST);
    var d3 := Desk(OrderAtStatus(Confirmed, [SEEN], [SIGNED]), l);
    var d4 := CreditOrder(sha, d3, FIRST).0;
    CreditSteps(sha, Credited, d4.ledger, SECOND);
    ds := [Desk(INITIAL, l), Desk(OrderAtStatus(Minted, [], []), l),
           Desk(OrderAtStatus(InboundDetected, [SEEN], []), l), d3, d4, CreditOrder(sha, d4, SECOND).0];
  }
}
