/** Requests that overlap: a settlement, deposit, loan or repayment is checked, waits for its proofs, and is written
    later, when other requests may have been written in between. */
module Overlap {
  import opened Wrappers
  import opened Sequences
  import opened Credit
  import opened Settlement
  import opened Funding

  /** A request that passed its checks, with what it read then. */
  datatype Flight =
    | Settling(user: string, input: SettleInput, facts: Facts)
    | Depositing(user: string, amount: int, newC: string, read: int)
    | Borrowing(user: string, request: BorrowRequest)
    | Repaying(user: string, at: nat, taken: Loan, newC: string)

  /** The store, the requests in flight by their number, and the seed, deposits and seized collateral booked so far. */
  datatype State = State(store: Store, flights: seq<Option<Flight>>, booked: int)

  datatype Step =
    | Check(op: Op)
    | Write(flight: nat, loanId: string, now: nat)
    | AtOnce(op: Op)
    | Liquidation(loanId: string, now: nat)

  /** The request as it flies on after its checks and its proof, if it is not refused there. */
  function Checked(sha: string -> string, s: Store, op: Op): Option<Flight>
    requires Funding.Enabled(s, op)
  {
    match op
    case SettleOp(u, inp, f) => if Decide(sha, s.ledger, u, inp, f) == None then Some(Settling(u, inp, f)) else None
    case DepositOp(u, amount, o, n, w, ok) =>
      if DepositCheck(BankOf(s), u, amount, o, w) == None && ok then Some(Depositing(u, amount, n, s.pool.total))
      else None
    case BorrowOp(u, request, eligible, ok, _, _) =>
      if BorrowCheck(BankOf(s), u, request, eligible) == None && ok then Some(Borrowing(u, request)) else None
    case RepayOp(u, id, o, n, w, ok, _) =>
      LoanIndexIs(s.pool.loans, id);
      var at := LoanIndex(s.pool.loans, id);
      if at.Some? && RepayCheck(sha, BankOf(s), u, at.value, o, w) == None && ok then
        Some(Repaying(u, at.value, s.pool.loans[at.value], n))
      else None
    case _ => None
  }

  predicate Lands(s: Store, fl: Flight, loanId: string) {
    && fl.user in s.ledger.users
    && (fl.Borrowing? ==> '|' !in loanId && forall l :: l in s.pool.loans ==> l.id != loanId)
    && (fl.Repaying? ==> fl.at < |s.pool.loans|)
  }

  /** The store after a request was written, and whether it was accepted. */
  function Written(sha: string -> string, s: Store, fl: Flight, loanId: string, now: nat): (Store, bool)
    requires Lands(s, fl, loanId)
  {
    match fl
    case Settling(u, inp, f) => (s.(ledger := WriteSettled(s.ledger, u, inp, f)), true)
    case Depositing(u, amount, n, read) =>
      var (b, r) := WriteDeposit(sha, BankOf(s), u, amount, n, read);
      (WithBank(s, b), r.Ok?)
    case Borrowing(u, request) =>
      var (b, r) := WriteLoan(sha, BankOf(s), u, request, loanId, now);
      (WithBank(s, b), r.Ok?)
    case Repaying(u, at, taken, n) =>
      var (b, r) := WriteRepayment(sha, BankOf(s), u, at, taken, n, now);
      (WithBank(s, b), r.Ok?)
  }

  predicate Enabled(s: State, e: Step) {
    match e
    case Check(op) => Funding.Enabled(s.store, op) && !Refreshes(op)
    case Write(f, id, _) => f < |s.flights| && s.flights[f].Some? && Lands(s.store, s.flights[f].value, id)
    case AtOnce(op) => Funding.Enabled(s.store, op) && Refreshes(op)
    case Liquidation(_, _) => true
  }

  function Next(sha: string -> string, s: State, e: Step): State
    requires Enabled(s, e)
  {
    match e
    case Check(op) =>
      var flight := Checked(sha, s.store, op);
      if flight.Some? then s.(flights := s.flights + [flight]) else s.(store := Funding.Apply(sha, s.store, op).0)
    case Write(f, id, now) =>
      var fl := s.flights[f].value;
      var (store, accepted) := Written(sha, s.store, fl, id, now);
      State(store, s.flights[f := None], if accepted && fl.Depositing? then s.booked + fl.amount else s.booked)
    case AtOnce(op) => s.(store := Funding.Apply(sha, s.store, op).0)
    case Liquidation(id, now) =>
      var (b, r) := Liquidate(BankOf(s.store), id, now);
      s.(store := WithBank(s.store, b),
         booked := if r.Ok? && r.value.status == Liquidated then s.booked + r.value.collateral else s.booked)
  }

  /** A request that is written right after its checks does what the request does as one step. */
  lemma WrittenAtOnce(sha: string -> string, s: Store, op: Op, loanId: string, now: nat)
    requires Funding.Enabled(s, op) && !Refreshes(op)
    requires op.BorrowOp? ==> op.loanId == loanId && op.now == now
    requires op.RepayOp? ==> op.now == now
    ensures match Checked(sha, s, op)
      case Some(fl) => Lands(s, fl, loanId) ==> Written(sha, s, fl, loanId, now) == Funding.Apply(sha, s, op)
      case None => !Funding.Apply(sha, s, op).1
  {
    hide Decide, BorrowCheck, RepayCheck, DepositCheck, WriteSettled, WriteDeposit, WriteLoan, WriteRepayment;
  }

  /* What every run keeps */

  /** The same loan, perhaps with more payments. */
  predicate Later(l: Loan, l': Loan) {
    && l'.id == l.id && l'.creditIdentity == l.creditIdentity && l'.collateral == l.collateral
    && l.installmentsPaid <= l'.installmentsPaid
  }

  predicate Sane(s: Store, fl: Flight) {
    && fl.user in s.ledger.users
    && match fl
       case Depositing(_, amount, _, _) => amount > 0
       case Borrowing(_, request) => request.collateral > 0
       case Repaying(_, at, taken, _) => at < |s.pool.loans| && Later(taken, s.pool.loans[at])
       case _ => true
  }

  predicate LoansSane(loans: seq<Loan>) {
    && (forall i, j :: 0 <= i < j < |loans| ==> loans[i].id != loans[j].id)
    && (forall l :: l in loans ==> '|' !in l.id && l.collateral > 0)
  }

  ghost predicate Base(s: State) {
    LoansSane(s.store.pool.loans) && forall fl :: Some(fl) in s.flights ==> Sane(s.store, fl)
  }

  /** The same users, and the same loans or later, with new ones behind. */
  predicate Follows(s: Store, s': Store) {
    && s'.ledger.users.Keys == s.ledger.users.Keys && |s.pool.loans| <= |s'.pool.loans|
    && forall i :: 0 <= i < |s.pool.loans| ==> Later(s.pool.loans[i], s'.pool.loans[i])
  }

  lemma SaneFollows(s: Store, s': Store, fl: Flight)
    requires Sane(s, fl) && Follows(s, s')
    ensures Sane(s', fl)
  {
  }

  lemma CheckedSane(sha: string -> string, s: Store, op: Op)
    requires Funding.Enabled(s, op) && Checked(sha, s, op).Some?
    ensures Sane(s, Checked(sha, s, op).value) && Checked(sha, s, op).value.user == op.user
  {
    hide Decide, RepayCheck;
    if op.RepayOp? { LoanIndexIs(s.pool.loans, op.loanId); }
  }

  /** A refused check changes no account, no nullifier and no pool. */
  lemma RefusedCheck(sha: string -> string, s: Store, op: Op)
    requires Funding.Enabled(s, op) && !Refreshes(op) && Checked(sha, s, op) == None
    ensures var s' := Funding.Apply(sha, s, op).0;
      s'.pool == s.pool && s'.ledger.users == s.ledger.users && s'.ledger.spent == s.ledger.spent
  {
    hide Decide, BorrowCheck, RepayCheck, DepositCheck, WriteSettled, WriteDeposit, WriteLoan, WriteRepayment, Refused;
  }

  lemma RefreshPool(sha: string -> string, s: Store, op: Op)
    requires Funding.Enabled(s, op) && Refreshes(op)
    ensures var s' := Funding.Apply(sha, s, op).0;
      s'.pool == s.pool && s'.ledger.users.Keys == s.ledger.users.Keys
  {
    hide BalanceNullifier;
    if op.ClaimOp? { UnclaimedIndexIs(s.ledger.notes, op.noteId); }
  }

  lemma WrittenFollows(sha: string -> string, s: Store, fl: Flight, loanId: string, now: nat)
    requires LoansSane(s.pool.loans) && Sane(s, fl) && Lands(s, fl, loanId)
    ensures var s' := Written(sha, s, fl, loanId, now).0; Follows(s, s') && LoansSane(s'.pool.loans)
  {
    hide BalanceNullifier, InstallmentNullifier, CreditIdentity, AddShare;
  }

  lemma LiquidateFollows(s: Store, loanId: string, now: nat)
    requires LoansSane(s.pool.loans)
    ensures var s' := WithBank(s, Liquidate(BankOf(s), loanId, now).0); Follows(s, s') && LoansSane(s'.pool.loans)
  {
    hide LoansSane, Later;
    var (b, r) := Liquidate(BankOf(s), loanId, now);
    LoanIndexIs(s.pool.loans, loanId);
    if r.Ok? {
      var i := LoanIndex(s.pool.loans, loanId).value;
      LaterAt(s.pool.loans, i, r.value);
    } else {
      SameLoans(s.pool.loans);
    }
  }

  lemma SameLoans(loans: seq<Loan>)
    ensures forall i :: 0 <= i < |loans| ==> Later(loans[i], loans[i])
  {
  }

  lemma LaterAt(loans: seq<Loan>, i: nat, l: Loan)
    requires LoansSane(loans) && i < |loans| && Later(loans[i], l)
    ensures LoansSane(loans[i := l]) && forall j :: 0 <= j < |loans| ==> Later(loans[j], loans[i := l][j])
  {
    assert loans[i] in loans;
  }

  lemma StepBase(sha: string -> string, s: State, e: Step)
    requires Base(s) && Enabled(s, e)
    ensures Base(Next(sha, s, e)) && Follows(s.store, Next(sha, s, e).store)
  {
    hide Checked, Written, Funding.Apply, Liquidate, LoansSane, Sane, Lands, Refreshes, Funding.Enabled;
    var s' := Next(sha, s, e);
    match e {
      case Check(op) => if Checked(sha, s.store, op).Some? { CheckedSane(sha, s.store, op); }
                        else { RefusedCheck(sha, s.store, op); }
      case Write(f, id, now) => assert s.flights[f] in s.flights;
                                WrittenFollows(sha, s.store, s.flights[f].value, id, now);
      case AtOnce(op) => RefreshPool(sha, s.store, op);
      case Liquidation(id, now) => LiquidateFollows(s.store, id, now);
    }
    forall fl | Some(fl) in s'.flights ensures Sane(s'.store, fl) {
      if Some(fl) in s.flights { SaneFollows(s.store, s'.store, fl); }
    }
  }

  /* Runs */

  /** No nullifier spent, no loan made, nothing in flight. */
  ghost predicate Start(s: State) {
    && s.store.ledger.spent == [] && s.store.pool.loans == [] && s.store.pool.spentInstallments == []
    && s.flights == [] && s.booked == s.store.pool.total
  }

  ghost predicate Run(sha: string -> string, ss: seq<State>, es: seq<Step>) {
    && |ss| == |es| + 1 && Start(ss[0])
    && forall k :: 0 <= k < |es| ==> Enabled(ss[k], es[k]) && ss[k + 1] == Next(sha, ss[k], es[k])
  }

  lemma RunStart(sha: string -> string, ss: seq<State>, es: seq<Step>)
    requires Run(sha, ss, es)
    ensures |ss| == |es| + 1 && Start(ss[0]) && Base(ss[0])
  {
    hide Enabled, Next;
  }

  lemma RunStep(sha: string -> string, ss: seq<State>, es: seq<Step>, k: nat)
    requires Run(sha, ss, es) && k < |es|
    ensures k + 1 < |ss| && Enabled(ss[k], es[k]) && ss[k + 1] == Next(sha, ss[k], es[k])
  {
    hide Enabled, Next;
  }

  lemma {:induction false} RunBase(sha: string -> string, ss: seq<State>, es: seq<Step>, k: nat)
    requires Run(sha, ss, es) && k < |ss|
    ensures Base(ss[k])
  {
    hide Run, Enabled, Next, Base, Start, Follows;
    RunStart(sha, ss, es);
    if k > 0 {
      RunBase(sha, ss, es, k - 1);
      RunStep(sha, ss, es, k - 1);
      StepBase(sha, ss[k - 1], es[k - 1]);
    }
  }

  /** Whatever happened meanwhile, a request in flight can be written in any state of a run. */
  lemma AlwaysLands(sha: string -> string, ss: seq<State>, es: seq<Step>, k: nat, f: nat, loanId: string, now: nat)
    requires Run(sha, ss, es) && k < |ss| && f < |ss[k].flights| && ss[k].flights[f].Some?
    requires '|' !in loanId && forall l :: l in ss[k].store.pool.loans ==> l.id != loanId
    ensures Enabled(ss[k], Write(f, loanId, now))
  {
    hide Run, Next, LoansSane, Later;
    RunBase(sha, ss, es, k);
    assert ss[k].flights[f] in ss[k].flights;
  }
}
