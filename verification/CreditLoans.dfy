/** What single loans have received, and what the closed ones lost, computed from the stored loans alone. */
module CreditLoans {
  import opened Wrappers
  import opened Credit
  import opened CreditSafety

  /** What a liquidated loan never paid back. */
  function Loss(l: Loan): int {
    if l.status == Liquidated then l.amount - l.installmentsPaid * l.installment else 0
  }

  function Losses(loans: seq<Loan>): int { if |loans| == 0 then 0 else Loss(loans[0]) + Losses(loans[1..]) }

  function TakenFrom(l: Loan): int { if l.status == Liquidated then l.collateral else 0 }

  /** The collateral of all liquidated loans. */
  function Taken(loans: seq<Loan>): int { if |loans| == 0 then 0 else TakenFrom(loans[0]) + Taken(loans[1..]) }

  lemma {:induction false} LossesAppend(loans: seq<Loan>, l: Loan)
    ensures Losses(loans + [l]) == Losses(loans) + Loss(l) && Taken(loans + [l]) == Taken(loans) + TakenFrom(l)
  {
    hide Loss, TakenFrom;
    if |loans| > 0 {
      LossesAppend(loans[1..], l);
      assert (loans + [l])[1..] == loans[1..] + [l];
    } else {
      assert (loans + [l])[1..] == [];
    }
  }

  lemma {:induction false} LossesUpdate(loans: seq<Loan>, i: nat, l: Loan)
    requires i < |loans|
    ensures Losses(loans[i := l]) == Losses(loans) - Loss(loans[i]) + Loss(l)
    ensures Taken(loans[i := l]) == Taken(loans) - TakenFrom(loans[i]) + TakenFrom(l)
  {
    hide Loss, TakenFrom;
    if i == 0 {
      assert loans[0 := l][1..] == loans[1..];
    } else {
      LossesUpdate(loans[1..], i - 1, l);
      assert loans[i := l][1..] == loans[1..][i - 1 := l];
    }
  }

  /** What a loan has received: its installments, or all of it once it is repaid. */
  function PaidIn(l: Loan): int { if l.status == Repaid then l.amount else l.installmentsPaid * l.installment }

  /** The same for the loan with this id; nothing without one. */
  function Receipt(loans: seq<Loan>, id: string): int {
    LoanIndexIs(loans, id);
    match LoanIndex(loans, id)
    case None => 0
    case Some(i) => PaidIn(loans[i])
  }

  lemma {:induction false} IndexUpdate(loans: seq<Loan>, i: nat, l: Loan, id: string)
    requires i < |loans| && l.id == loans[i].id
    ensures LoanIndex(loans[i := l], id) == LoanIndex(loans, id)
  {
    if loans[0].id != id && i > 0 {
      IndexUpdate(loans[1..], i - 1, l, id);
      assert loans[i := l][1..] == loans[1..][i - 1 := l];
    } else if loans[0].id != id {
      assert loans[0 := l][1..] == loans[1..];
    }
  }

  lemma {:induction false} IndexAppend(loans: seq<Loan>, l: Loan, id: string)
    ensures LoanIndex(loans + [l], id) ==
      if LoanIndex(loans, id).Some? then LoanIndex(loans, id) else if l.id == id then Some(|loans|) else None
  {
    if |loans| > 0 {
      IndexAppend(loans[1..], l, id);
      assert (loans + [l])[1..] == loans[1..] + [l];
    } else {
      assert (loans + [l])[1..] == [];
    }
  }

  /** The payment an operation brings in for a loan. */
  function Brings(sha: string -> string, a: Audit, op: Op, now: nat, id: string): int
    requires Enabled(a, op, now)
  {
    match op
    case RepayOp(u, loanId, oldC, newC, w, ok) =>
      if loanId == id && Repay(sha, a.bank, u, loanId, oldC, newC, w, ok, now).1.Ok? then w else 0
    case _ => 0
  }

  ghost predicate LossesOk(p: Pool, k: Books) { k.writtenOff == Losses(p.loans) && k.seized == Taken(p.loans) }

  /** What one operation does to losses and receipts. */
  ghost predicate Accounted(sha: string -> string, a: Audit, op: Op, now: nat)
    requires Enabled(a, op, now)
  {
    var a' := Apply(sha, a, op, now);
    && a'.books.writtenOff - a.books.writtenOff == Losses(a'.bank.pool.loans) - Losses(a.bank.pool.loans)
    && a'.books.seized - a.books.seized == Taken(a'.bank.pool.loans) - Taken(a.bank.pool.loans)
    && forall id :: Receipt(a'.bank.pool.loans, id) == Receipt(a.bank.pool.loans, id) + Brings(sha, a, op, now, id)
  }

  lemma PaidMore(l: Loan, nf: string, period: nat, now: nat)
    requires Amortized(l) && l.status == Active
    ensures PaidIn(Paid(l, nf, period, now)) == PaidIn(l) + Due(l)
    ensures Loss(Paid(l, nf, period, now)) == Loss(l) == 0
    ensures TakenFrom(Paid(l, nf, period, now)) == TakenFrom(l) == 0
  {
    assert (l.installmentsPaid + 1) * l.installment == l.installmentsPaid * l.installment + l.installment;
  }

  lemma ReceiptUpdate(loans: seq<Loan>, i: nat, l: Loan, id: string)
    requires i < |loans| && l.id == loans[i].id
    requires forall x, y :: 0 <= x < y < |loans| ==> loans[x].id != loans[y].id
    ensures Receipt(loans[i := l], id) == Receipt(loans, id) + if id == l.id then PaidIn(l) - PaidIn(loans[i]) else 0
  {
    hide PaidIn, LoanIndex;
    LoanIndexIs(loans, id);
    LoanIndexIs(loans[i := l], id);
    IndexUpdate(loans, i, l, id);
    if id == l.id { assert loans[i] in loans; }
  }

  lemma ReceiptAppend(loans: seq<Loan>, l: Loan, id: string)
    requires PaidIn(l) == 0
    ensures Receipt(loans + [l], id) == Receipt(loans, id)
  {
    hide PaidIn, LoanIndex;
    LoanIndexIs(loans, id);
    LoanIndexIs(loans + [l], id);
    IndexAppend(loans, l, id);
  }

  lemma RepayAccounted(sha: string -> string, a: Audit, u: string, id: string, oldC: string, newC: string, w: int,
                       ok: bool, now: nat)
    requires PoolOk(a.bank.pool, a.books, a.clock) && Enabled(a, RepayOp(u, id, oldC, newC, w, ok), now)
    ensures Accounted(sha, a, RepayOp(u, id, oldC, newC, w, ok), now)
  {
    hide Owed, Deposits, BalanceNullifier, InstallmentNullifier, Amortized, OnSchedule, Defaults, Losses, Taken, Loss,
      TakenFrom, PaidIn, Receipt, PaidAs, LoansOk;
    var loans := a.bank.pool.loans;
    LoanIndexIs(loans, id);
    var (b, r) := Repay(sha, a.bank, u, id, oldC, newC, w, ok, now);
    if r.Ok? {
      var i := LoanIndex(loans, id).value;
      LoanAt(loans, i, a.bank.pool.config.installmentPeriodMs, a.clock);
      Distinct(loans, a.bank.pool.config.installmentPeriodMs, a.clock);
      var nf := InstallmentNullifier(sha, loans[i].id, loans[i].installmentsPaid, loans[i].creditIdentity);
      PaidMore(loans[i], nf, a.bank.pool.config.installmentPeriodMs, now);
      SameId(loans[i], nf, a.bank.pool.config.installmentPeriodMs, now);
      LossesUpdate(loans, i, r.value);
      forall x ensures Receipt(b.pool.loans, x) == Receipt(loans, x) + if x == id then w else 0 {
        ReceiptUpdate(loans, i, r.value, x);
      }
    }
  }

  lemma SameId(l: Loan, nf: string, period: nat, now: nat)
    ensures Paid(l, nf, period, now).id == l.id
  {
  }

  lemma Distinct(loans: seq<Loan>, period: nat, clock: nat)
    requires LoansOk(loans, period, clock)
    ensures forall x, y :: 0 <= x < y < |loans| ==> loans[x].id != loans[y].id
  {
    hide Amortized, OnSchedule;
  }

  lemma LiquidateAccounted(sha: string -> string, a: Audit, id: string, now: nat)
    requires PoolOk(a.bank.pool, a.books, a.clock) && Enabled(a, LiquidateOp(id), now)
    ensures Accounted(sha, a, LiquidateOp(id), now)
  {
    hide Owed, Deposits, OnSchedule, Defaults, Losses, Taken, Receipt, LoansOk, Amortized;
    var loans := a.bank.pool.loans;
    LoanIndexIs(loans, id);
    var (b, r) := Liquidate(a.bank, id, now);
    if r.Ok? {
      var i := LoanIndex(loans, id).value;
      LoanAt(loans, i, a.bank.pool.config.installmentPeriodMs, a.clock);
      Distinct(loans, a.bank.pool.config.installmentPeriodMs, a.clock);
      StillOwed(loans[i]);
      LossesUpdate(loans, i, r.value);
      forall x ensures Receipt(b.pool.loans, x) == Receipt(loans, x) { ReceiptUpdate(loans, i, r.value, x); }
    }
  }

  lemma StillOwed(l: Loan)
    requires Amortized(l) && l.status == Active
    ensures l.remaining == l.amount - l.installmentsPaid * l.installment
  {
  }

  lemma BorrowAccounted(sha: string -> string, a: Audit, u: string, q: BorrowRequest, eligible: bool, ok: bool,
                        id: string, now: nat)
    requires Enabled(a, BorrowOp(u, q, eligible, ok, id), now)
    ensures Accounted(sha, a, BorrowOp(u, q, eligible, ok, id), now)
  {
    hide BalanceNullifier, BorrowCheck, Losses, Taken, Receipt;
    var loans := a.bank.pool.loans;
    var (b, r) := Borrow(sha, a.bank, u, q, eligible, ok, id, now);
    if r.Ok? {
      LossesAppend(loans, r.value);
      forall x ensures Receipt(b.pool.loans, x) == Receipt(loans, x) { ReceiptAppend(loans, r.value, x); }
    }
  }

  lemma StepAccounted(sha: string -> string, a: Audit, op: Op, now: nat)
    requires PoolOk(a.bank.pool, a.books, a.clock) && Enabled(a, op, now)
    ensures Accounted(sha, a, op, now)
  {
    hide PoolOk, Borrow, Repay, Liquidate, Losses, Taken, Receipt;
    match op
    case DepositOp(u, amount, oldC, newC, w, ok) =>
    case BorrowOp(u, q, eligible, ok, id) => BorrowAccounted(sha, a, u, q, eligible, ok, id, now);
    case RepayOp(u, id, oldC, newC, w, ok) => RepayAccounted(sha, a, u, id, oldC, newC, w, ok, now);
    case LiquidateOp(id) => LiquidateAccounted(sha, a, id, now);
  }
}
