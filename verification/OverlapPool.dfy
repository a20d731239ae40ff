/** What overlapping requests do to the pool: its total, and the installments it has counted. */
module OverlapPool {
  import opened Wrappers
  import opened Sequences
  import opened Hashing
  import opened Credit
  import opened CreditTheorems
  import opened Settlement
  import opened Funding
  import opened Overlap
  import CreditSafety

  /** The request that this step writes, if it is accepted. */
  function Accepted(sha: string -> string, s: State, e: Step): Option<Flight> {
    if Overlap.Enabled(s, e) && e.Write? && Written(sha, s.store, s.flights[e.flight].value, e.loanId, e.now).1 then
      s.flights[e.flight]
    else None
  }

  /* The pool total */

  /** A deposit that is accepted finds the pool total it read with its checks. */
  predicate FindsTotal(sha: string -> string, s: State, e: Step) {
    var fl := Accepted(sha, s, e);
    fl.Some? && fl.value.Depositing? ==> s.store.pool.total == fl.value.read
  }

  /** The total is never above what was booked, nor is what a deposit has read; and below it once it ever was. */
  ghost predicate Below(s: State) {
    && s.store.pool.total <= s.booked
    && forall fl :: Some(fl) in s.flights && fl.Depositing? ==>
         fl.read <= s.booked && (s.store.pool.total < s.booked ==> fl.read < s.booked)
  }

  lemma WrittenTotal(sha: string -> string, s: Store, fl: Flight, loanId: string, now: nat)
    requires Lands(s, fl, loanId)
    ensures var (s', accepted) := Written(sha, s, fl, loanId, now);
      s'.pool.total == if accepted && fl.Depositing? then fl.read + fl.amount else s.pool.total
  {
    hide BalanceNullifier, InstallmentNullifier, CreditIdentity, AddShare;
  }

  lemma LiquidateTotal(b: Bank, loanId: string, now: nat)
    requires LoansSane(b.pool.loans)
    ensures var (b', r) := Liquidate(b, loanId, now);
      if r.Ok? && r.value.status == Liquidated
      then b'.pool.total == b.pool.total + r.value.collateral && r.value.collateral > 0
      else b'.pool.total == b.pool.total
  {
    LoanIndexIs(b.pool.loans, loanId);
    if LoanIndex(b.pool.loans, loanId).Some? {
      assert b.pool.loans[LoanIndex(b.pool.loans, loanId).value] in b.pool.loans;
    }
  }

  lemma CheckedRead(sha: string -> string, s: Store, op: Op)
    requires Funding.Enabled(s, op) && Checked(sha, s, op).Some? && Checked(sha, s, op).value.Depositing?
    ensures Checked(sha, s, op).value.read == s.pool.total
  {
    hide Decide, RepayCheck, BorrowCheck;
  }

  lemma StepTotal(sha: string -> string, s: State, e: Step)
    requires Base(s) && Below(s) && Overlap.Enabled(s, e)
    ensures var s' := Next(sha, s, e);
      && Below(s')
      && (s'.store.pool.total == s'.booked <==> s.store.pool.total == s.booked && FindsTotal(sha, s, e))
  {
    hide Checked, Written, Funding.Apply, Liquidate, LoansSane, Lands, Refreshes, Funding.Enabled;
    match e
    case Check(op) =>
      if Checked(sha, s.store, op) == None { RefusedCheck(sha, s.store, op); }
      else if Checked(sha, s.store, op).value.Depositing? { CheckedRead(sha, s.store, op); }
    case Write(f, id, now) =>
      var fl := s.flights[f].value;
      assert Some(fl) in s.flights;
      WrittenTotal(sha, s.store, fl, id, now);
    case AtOnce(op) => RefreshPool(sha, s.store, op);
    case Liquidation(id, now) => LiquidateTotal(BankOf(s.store), id, now);
  }

  lemma {:induction false} RunBelow(sha: string -> string, ss: seq<State>, es: seq<Step>, k: nat)
    requires Overlap.Run(sha, ss, es) && k < |ss|
    ensures Below(ss[k])
  {
    hide Overlap.Run, Overlap.Enabled, Next, Base, Below, FindsTotal;
    Overlap.RunStart(sha, ss, es);
    if k > 0 {
      RunBelow(sha, ss, es, k - 1);
      RunBase(sha, ss, es, k - 1);
      Overlap.RunStep(sha, ss, es, k - 1);
      StepTotal(sha, ss[k - 1], es[k - 1]);
    } else {
      StartBelow(ss[0]);
    }
  }

  lemma StartBelow(s: State)
    requires Start(s)
    ensures Below(s)
  {
  }

  /** However requests overlap, the pool total is the seed, the accepted deposits and the seized collateral exactly when
      every accepted deposit found the total it had read; otherwise it is less, for ever. */
  lemma {:induction false} TotalExactIff(sha: string -> string, ss: seq<State>, es: seq<Step>, k: nat)
    requires Overlap.Run(sha, ss, es) && k < |ss|
    ensures ss[k].store.pool.total <= ss[k].booked && k <= |es|
    ensures ss[k].store.pool.total == ss[k].booked <==> forall j :: 0 <= j < k ==> FindsTotal(sha, ss[j], es[j])
  {
    hide Overlap.Run, Overlap.Enabled, Next, Base, FindsTotal;
    Overlap.RunStart(sha, ss, es);
    RunBelow(sha, ss, es, k);
    if k > 0 {
      TotalExactIff(sha, ss, es, k - 1);
      RunBelow(sha, ss, es, k - 1);
      RunBase(sha, ss, es, k - 1);
      Overlap.RunStep(sha, ss, es, k - 1);
      StepTotal(sha, ss[k - 1], es[k - 1]);
    }
  }

  /** What a request books is what the lenders' shares gain. */
  lemma SharesBooked(sha: string -> string, s: State, e: Step)
    requires Overlap.Enabled(s, e) && e.Write?
    ensures var s' := Next(sha, s, e);
      CreditSafety.Deposits(s'.store.pool.shares) - CreditSafety.Deposits(s.store.pool.shares) == s'.booked - s.booked
  {
    hide BalanceNullifier, InstallmentNullifier, CreditIdentity, AddShare, CreditSafety.Deposits;
    var fl := s.flights[e.flight].value;
    if fl.Depositing? { CreditSafety.AddShareDeposits(s.store.pool.shares, fl.user, fl.amount); }
  }

  /* Installments */

  /** A repayment that is accepted finds its loan with the payments it had with the checks. */
  predicate FindsLoan(sha: string -> string, s: State, e: Step) {
    var fl := Accepted(sha, s, e);
    fl.Some? && fl.value.Repaying? ==>
      s.store.pool.loans[fl.value.at].installmentsPaid == fl.value.taken.installmentsPaid
  }

  /** The spent installment nullifiers are those of the payments received, each once. */
  ghost predicate Counted(sha: string -> string, p: Pool) {
    NoDuplicates(p.spentInstallments) && forall x :: x in p.spentInstallments <==> Received(sha, p.loans, x)
  }

  function NextNullifier(sha: string -> string, l: Loan): string {
    InstallmentNullifier(sha, l.id, l.installmentsPaid, l.creditIdentity)
  }

  lemma NextUnreceived(sha: string -> string, loans: seq<Loan>, i: nat)
    requires GoodHash(sha) && LoansSane(loans) && i < |loans|
    ensures !Received(sha, loans, NextNullifier(sha, loans[i]))
  {
    hide InstallmentNullifier, GoodHash;
    var l, x := loans[i], NextNullifier(sha, loans[i]);
    assert l in loans;
    if Received(sha, loans, x) {
      var o :| o in loans && x in NullifiersOf(sha, o);
      var k :| 0 <= k < o.installmentsPaid && NullifiersOf(sha, o)[k] == x;
      NullifierDetermines(sha, l.id, l.installmentsPaid, l.creditIdentity, o.id, k, o.creditIdentity);
      SameLoan(loans, l, o);
      assert false;
    }
  }

  lemma EarlierReceived(sha: string -> string, loans: seq<Loan>, i: nat, taken: Loan)
    requires i < |loans| && Later(taken, loans[i]) && taken.installmentsPaid < loans[i].installmentsPaid
    ensures Received(sha, loans, NextNullifier(sha, taken))
  {
    hide InstallmentNullifier;
    var l := loans[i];
    assert l in loans;
    assert NullifiersOf(sha, l)[taken.installmentsPaid] == NextNullifier(sha, taken);
  }

  lemma MoreNullifiers(sha: string -> string, l: Loan, l': Loan)
    requires Later(l, l') && l'.installmentsPaid == l.installmentsPaid + 1
    ensures NullifiersOf(sha, l') == NullifiersOf(sha, l) + [NextNullifier(sha, l)]
  {
    hide InstallmentNullifier;
  }

  /** Counting one more payment of a loan, with the nullifier of the loan as it was checked. */
  lemma CountOne(sha: string -> string, p: Pool, i: nat, taken: Loan, l': Loan, p': Pool)
    requires GoodHash(sha) && Counted(sha, p) && LoansSane(p.loans) && i < |p.loans| && Later(taken, p.loans[i])
    requires Later(p.loans[i], l') && l'.installmentsPaid == p.loans[i].installmentsPaid + 1
    requires p'.loans == p.loans[i := l'] && p'.spentInstallments == p.spentInstallments + [NextNullifier(sha, taken)]
    ensures p.loans[i].installmentsPaid == taken.installmentsPaid ==> Counted(sha, p')
    ensures p.loans[i].installmentsPaid != taken.installmentsPaid ==> !NoDuplicates(p'.spentInstallments)
  {
    hide InstallmentNullifier, GoodHash, Received, NullifiersOf, LoansSane;
    var l, x := p.loans[i], NextNullifier(sha, taken);
    if l.installmentsPaid == taken.installmentsPaid {
      assert x == NextNullifier(sha, l);
      NextUnreceived(sha, p.loans, i);
      NoDuplicatesAppend(p.spentInstallments, x);
      MoreNullifiers(sha, l, l');
      assert l in p.loans;
      forall y ensures y in p'.spentInstallments <==> Received(sha, p'.loans, y) {
        ReceivedUpdate(sha, p.loans, i, l', y);
        if y in NullifiersOf(sha, l) { ReceivedMember(sha, p.loans, l, y); }
      }
    } else {
      EarlierReceived(sha, p.loans, i, taken);
      Repeated(p.spentInstallments, x);
    }
  }

  lemma RepaymentWrites(sha: string -> string, s: Store, fl: Flight, now: nat)
    requires Lands(s, fl, "") && fl.Repaying? && Written(sha, s, fl, "", now).1
    ensures var (p, p') := (s.pool, Written(sha, s, fl, "", now).0.pool);
      && |p'.loans| == |p.loans| && p'.loans == p.loans[fl.at := p'.loans[fl.at]]
      && Later(p.loans[fl.at], p'.loans[fl.at])
      && p'.loans[fl.at].installmentsPaid == p.loans[fl.at].installmentsPaid + 1
      && p'.spentInstallments == p.spentInstallments + [NextNullifier(sha, fl.taken)]
  {
    hide BalanceNullifier, InstallmentNullifier;
  }

  /** Any other write counts no payment: the loans stay, or one without payments joins them. */
  lemma OtherWrites(sha: string -> string, s: Store, fl: Flight, loanId: string, now: nat)
    requires Lands(s, fl, loanId) && !(fl.Repaying? && Written(sha, s, fl, loanId, now).1)
    ensures var (p, p') := (s.pool, Written(sha, s, fl, loanId, now).0.pool);
      && p'.spentInstallments == p.spentInstallments
      && (p'.loans == p.loans || exists l :: p'.loans == p.loans + [l] && l.installmentsPaid == 0)
  {
    hide BalanceNullifier, InstallmentNullifier, CreditIdentity, AddShare;
  }

  lemma CountedSame(sha: string -> string, p: Pool, p': Pool)
    requires Counted(sha, p) && p'.spentInstallments == p.spentInstallments
    requires p'.loans == p.loans || exists l :: p'.loans == p.loans + [l] && l.installmentsPaid == 0
    ensures Counted(sha, p')
  {
    hide Received;
    if p'.loans != p.loans {
      var l :| p'.loans == p.loans + [l] && l.installmentsPaid == 0;
      forall x ensures Received(sha, p'.loans, x) <==> Received(sha, p.loans, x) {
        ReceivedAppend(sha, p.loans, l, x);
      }
    }
  }

  lemma CountedLiquidate(sha: string -> string, b: Bank, loanId: string, now: nat)
    requires Counted(sha, b.pool)
    ensures Counted(sha, Liquidate(b, loanId, now).0.pool)
  {
    hide InstallmentNullifier, Received;
    var p := b.pool;
    LoanIndexIs(p.loans, loanId);
    if Liquidate(b, loanId, now).1.Ok? {
      var i := LoanIndex(p.loans, loanId).value;
      var l, l' := p.loans[i], Liquidate(b, loanId, now).1.value;
      assert l in p.loans;
      forall x ensures Received(sha, p.loans[i := l'], x) <==> Received(sha, p.loans, x) {
        ReceivedUpdate(sha, p.loans, i, l', x);
        if x in NullifiersOf(sha, l') { ReceivedMember(sha, p.loans, l, x); }
      }
    }
  }

  lemma StepCounts(sha: string -> string, s: State, e: Step)
    requires GoodHash(sha) && Base(s) && Counted(sha, s.store.pool) && Overlap.Enabled(s, e)
    ensures var p' := Next(sha, s, e).store.pool;
      && (FindsLoan(sha, s, e) ==> Counted(sha, p'))
      && (!FindsLoan(sha, s, e) ==> !NoDuplicates(p'.spentInstallments))
  {
    hide Checked, Written, Funding.Apply, Liquidate, LoansSane, Refreshes, Funding.Enabled, Counted, GoodHash, Later,
      InstallmentNullifier, NoDuplicates;
    match e
    case Check(op) =>
      if Checked(sha, s.store, op) == None { RefusedCheck(sha, s.store, op); }
    case Write(f, id, now) =>
      var fl := s.flights[f].value;
      assert Some(fl) in s.flights;
      if fl.Repaying? && Written(sha, s.store, fl, id, now).1 {
        IdUnused(sha, s.store, fl, id, now);
        RepaymentWrites(sha, s.store, fl, now);
        var (p, p') := (s.store.pool, Written(sha, s.store, fl, id, now).0.pool);
        CountOne(sha, p, fl.at, fl.taken, p'.loans[fl.at], p');
      } else {
        OtherWrites(sha, s.store, fl, id, now);
        CountedSame(sha, s.store.pool, Written(sha, s.store, fl, id, now).0.pool);
      }
    case AtOnce(op) => RefreshPool(sha, s.store, op);
    case Liquidation(id, now) => CountedLiquidate(sha, BankOf(s.store), id, now);
  }

  lemma IdUnused(sha: string -> string, s: Store, fl: Flight, loanId: string, now: nat)
    requires Lands(s, fl, loanId) && fl.Repaying?
    ensures Lands(s, fl, "") && Written(sha, s, fl, loanId, now) == Written(sha, s, fl, "", now)
  {
    hide BalanceNullifier, WriteRepayment;
  }

  lemma StepInstallments(sha: string -> string, s: State, e: Step)
    requires Base(s) && Overlap.Enabled(s, e)
    ensures s.store.pool.spentInstallments <= Next(sha, s, e).store.pool.spentInstallments
  {
    hide Checked, Written, Funding.Apply, LoansSane, Refreshes, Funding.Enabled, Later, InstallmentNullifier;
    match e
    case Check(op) =>
      if Checked(sha, s.store, op) == None { RefusedCheck(sha, s.store, op); }
    case Write(f, id, now) =>
      var fl := s.flights[f].value;
      if fl.Repaying? && Written(sha, s.store, fl, id, now).1 {
        IdUnused(sha, s.store, fl, id, now);
        RepaymentWrites(sha, s.store, fl, now);
      } else {
        OtherWrites(sha, s.store, fl, id, now);
      }
    case AtOnce(op) => RefreshPool(sha, s.store, op);
    case Liquidation(id, now) => LoanIndexIs(s.store.pool.loans, id);
  }

  lemma StartCounted(sha: string -> string, s: State)
    requires Start(s)
    ensures Counted(sha, s.store.pool)
  {
    hide NullifiersOf;
  }

  /** However requests overlap, no installment nullifier is counted twice exactly when every accepted repayment found
      its loan with the payments it had when it was checked. */
  lemma {:induction false} InstallmentsOnceIff(sha: string -> string, ss: seq<State>, es: seq<Step>, k: nat)
    requires GoodHash(sha) && Overlap.Run(sha, ss, es) && k < |ss|
    ensures k <= |es|
    ensures NoDuplicates(ss[k].store.pool.spentInstallments) <==>
      forall j :: 0 <= j < k ==> FindsLoan(sha, ss[j], es[j])
    ensures (forall j :: 0 <= j < k ==> FindsLoan(sha, ss[j], es[j])) ==> Counted(sha, ss[k].store.pool)
  {
    hide Overlap.Run, Overlap.Enabled, Next, Base, FindsLoan, GoodHash, Received;
    Overlap.RunStart(sha, ss, es);
    if k == 0 {
      StartCounted(sha, ss[0]);
    } else {
      InstallmentsOnceIff(sha, ss, es, k - 1);
      RunBase(sha, ss, es, k - 1);
      Overlap.RunStep(sha, ss, es, k - 1);
      StepInstallments(sha, ss[k - 1], es[k - 1]);
      if Counted(sha, ss[k - 1].store.pool) { StepCounts(sha, ss[k - 1], es[k - 1]); }
    }
  }
}
