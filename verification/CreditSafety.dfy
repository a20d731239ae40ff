/** The pool over whole runs: money in equals money out, what is outstanding is what the loans still owe, losses
    are covered by seized collateral, and no loan is closed early. */
module CreditSafety {
  import opened Credit

  /* Books kept beside the pool, and the clock */

  /** Totals over all successful operations so far. */
  datatype Books = Books(seed: int, deposited: int, disbursed: int, repaid: int, seized: int, writtenOff: int)

  datatype Audit = Audit(bank: Bank, books: Books, clock: nat)

  function Cash(k: Books): int { k.seed + k.deposited - k.disbursed + k.repaid + k.seized }

  datatype Op =
    | DepositOp(lender: string, amount: int, oldC: string, newC: string, witnessAmount: int, proofOk: bool)
    | BorrowOp(borrower: string, request: BorrowRequest, eligible: bool, proofOk: bool, loanId: string)
    | RepayOp(borrower: string, loanId: string, oldC: string, newC: string, witnessAmount: int, proofOk: bool)
    | LiquidateOp(loanId: string)

  /** The named account exists, loan ids are new and contain no bar, and the clock does not run backwards. */
  predicate Enabled(a: Audit, op: Op, now: nat) {
    && now >= a.clock
    && match op
       case DepositOp(u, _, _, _, _, _) => u in a.bank.users
       case BorrowOp(u, _, _, _, id) =>
         u in a.bank.users && '|' !in id && forall l :: l in a.bank.pool.loans ==> l.id != id
       case RepayOp(u, _, _, _, _, _) => u in a.bank.users
       case LiquidateOp(_) => true
  }

  function Apply(sha: string -> string, a: Audit, op: Op, now: nat): Audit
    requires Enabled(a, op, now)
  {
    var k := a.books;
    match op
    case DepositOp(u, amount, oldC, newC, w, ok) =>
      var (b, r) := Deposit(sha, a.bank, u, amount, oldC, newC, w, ok);
      Audit(b, if r.Ok? then k.(deposited := k.deposited + amount) else k, now)
    case BorrowOp(u, request, eligible, ok, id) =>
      var (b, r) := Borrow(sha, a.bank, u, request, eligible, ok, id, now);
      Audit(b, if r.Ok? then k.(disbursed := k.disbursed + request.amount) else k, now)
    case RepayOp(u, id, oldC, newC, w, ok) =>
      var (b, r) := Repay(sha, a.bank, u, id, oldC, newC, w, ok, now);
      Audit(b, if r.Ok? then k.(repaid := k.repaid + w) else k, now)
    case LiquidateOp(id) =>
      var (b, r) := Liquidate(a.bank, id, now);
      LoanIndexIs(a.bank.pool.loans, id);
      if r.Ok? && r.value.status == Liquidated then
        var l := a.bank.pool.loans[LoanIndex(a.bank.pool.loans, id).value];
        Audit(b, k.(seized := k.seized + l.collateral, writtenOff := k.writtenOff + l.remaining), now)
      else Audit(b, k, now)
  }

  /* Sums over the loans and shares */

  function Owed(loans: seq<Loan>): int { if |loans| == 0 then 0 else loans[0].remaining + Owed(loans[1..]) }

  lemma {:induction false} OwedAppend(loans: seq<Loan>, l: Loan)
    ensures Owed(loans + [l]) == Owed(loans) + l.remaining
  {
    if |loans| == 0 { assert loans + [l] == [l] && [l][1..] == []; }
    else { OwedAppend(loans[1..], l); assert (loans + [l])[1..] == loans[1..] + [l]; }
  }

  lemma {:induction false} OwedUpdate(loans: seq<Loan>, i: nat, l: Loan)
    requires i < |loans|
    ensures Owed(loans[i := l]) == Owed(loans) - loans[i].remaining + l.remaining
  {
    if i == 0 { assert loans[0 := l][1..] == loans[1..]; }
    else { OwedUpdate(loans[1..], i - 1, l); assert loans[i := l][1..] == loans[1..][i - 1 := l]; }
  }

  /** At least what any one loan owes, when none owes less than nothing. */
  lemma {:induction false} OwedCovers(loans: seq<Loan>, i: nat)
    requires i < |loans| && forall l :: l in loans ==> l.remaining >= 0
    ensures Owed(loans) >= loans[i].remaining
  {
    if i > 0 { OwedCovers(loans[1..], i - 1); }
    else if |loans| > 1 { OwedCovers(loans[1..], 0); }
    assert loans[0] in loans;
  }

  function Defaults(loans: seq<Loan>, identity: string): nat {
    if |loans| == 0 then 0
    else DefaultOf(loans[0], identity) + Defaults(loans[1..], identity)
  }

  function DefaultOf(l: Loan,
                     identity: string): nat { if l.status == Liquidated && l.creditIdentity == identity then 1 else 0 }

  lemma {:induction false} DefaultsAppend(loans: seq<Loan>, l: Loan, identity: string)
    ensures Defaults(loans + [l], identity) == Defaults(loans, identity) + DefaultOf(l, identity)
  {
    if |loans| == 0 { assert loans + [l] == [l] && [l][1..] == []; }
    else { DefaultsAppend(loans[1..], l, identity); assert (loans + [l])[1..] == loans[1..] + [l]; }
  }

  lemma {:induction false} DefaultsUpdate(loans: seq<Loan>, i: nat, l: Loan, identity: string)
    requires i < |loans|
    ensures Defaults(loans[i := l], identity)
      == Defaults(loans, identity) - DefaultOf(loans[i], identity) + DefaultOf(l, identity)
  {
    if i == 0 { assert loans[0 := l][1..] == loans[1..]; }
    else { DefaultsUpdate(loans[1..], i - 1, l, identity); assert loans[i := l][1..] == loans[1..][i - 1 := l]; }
  }

  function Deposits(shares: seq<Share>): int {
    if |shares| == 0 then 0 else shares[0].deposited + Deposits(shares[1..])
  }

  lemma {:induction false} DepositsAppend(shares: seq<Share>, x: Share)
    ensures Deposits(shares + [x]) == Deposits(shares) + x.deposited
  {
    if |shares| == 0 { assert shares + [x] == [x] && [x][1..] == []; }
    else { DepositsAppend(shares[1..], x); assert (shares + [x])[1..] == shares[1..] + [x]; }
  }

  lemma {:induction false} DepositsUpdate(shares: seq<Share>, i: nat, x: Share)
    requires i < |shares|
    ensures Deposits(shares[i := x]) == Deposits(shares) - shares[i].deposited + x.deposited
  {
    if i == 0 { assert shares[0 := x][1..] == shares[1..]; }
    else { DepositsUpdate(shares[1..], i - 1, x); assert shares[i := x][1..] == shares[1..][i - 1 := x]; }
  }

  /* Invariants */

  /** Amortization: after k payments of a each, something is left exactly while k is below the rounded-up quotient. */
  predicate Amortized(l: Loan) {
    && l.amount > 0 && l.installmentsTotal > 0 && 2 * l.collateral >= 3 * l.amount
    && l.installment == CeilDiv(l.amount, l.installmentsTotal) && l.installment > 0
    && (match l.status
        case Active => l.remaining == l.amount - l.installmentsPaid * l.installment && l.remaining > 0
        case Repaid => l.remaining == 0 && l.installmentsPaid == CeilDiv(l.amount, l.installment)
        case Liquidated => l.remaining == 0 && l.installmentsPaid * l.installment < l.amount
        case Defaulted => false)
  }

  /** Each recorded miss took a full period, and the next due date leaves room for one more. */
  predicate OnSchedule(l: Loan, period: nat, clock: nat) {
    && clock >= l.createdAt + l.missed * period
    && (l.status == Active ==> l.dueNextAt >= l.createdAt + (l.missed + 1) * period)
    && (l.status == Liquidated ==> clock > l.createdAt + (l.grace + 1) * period)
  }

  predicate LoansOk(loans: seq<Loan>, period: nat, clock: nat) {
    && (forall i, j :: 0 <= i < j < |loans| ==> loans[i].id != loans[j].id)
    && (forall l :: l in loans ==> Amortized(l) && OnSchedule(l, period, clock) && '|' !in l.id)
  }

  predicate Balanced(p: Pool, k: Books) {
    && p.total == k.seed + k.deposited + k.seized
    && p.outstanding == k.disbursed - k.repaid - k.writtenOff
    && p.outstanding == Owed(p.loans)
    && 0 <= p.outstanding <= p.total
    && 2 * k.seized >= 3 * k.writtenOff >= 0
    && Deposits(p.shares) == k.deposited && k.seed >= 0
  }

  predicate StandingOk(p: Pool) {
    forall l :: l in p.loans ==> l.creditIdentity in p.standing
  }

  ghost predicate DefaultsOk(p: Pool) {
    forall identity :: GetStanding(p.standing, identity).defaults == Defaults(p.loans, identity)
  }

  ghost predicate PoolOk(p: Pool, k: Books, clock: nat) {
    && LoansOk(p.loans, p.config.installmentPeriodMs, clock) && Balanced(p, k) && StandingOk(p) && DefaultsOk(p)
  }

  /* Arithmetic */

  lemma CeilDivIs(a: int, b: int)
    requires a > 0 && b > 0
    ensures CeilDiv(a, b) > 0 && (CeilDiv(a, b) - 1) * b < a <= CeilDiv(a, b) * b
  {
    var q := CeilDiv(a, b);
    assert a + b - 1 == b * q + (a + b - 1) % b;
  }

  lemma MulMono(x: int, y: int, b: int)
    requires b >= 0
    ensures x <= y ==> x * b <= y * b
  {
  }

  lemma CeilDivUnique(a: int, b: int, q: int)
    requires a > 0 && b > 0 && (q - 1) * b < a <= q * b
    ensures q == CeilDiv(a, b)
  {
    var p := CeilDiv(a, b);
    CeilDivIs(a, b);
    MulMono(q, p - 1, b);
    MulMono(p, q - 1, b);
  }

  /** Installments of ceil(L/n) close a loan of L in ceil(L/ceil(L/n)) payments, which is at most n, and equals n
      exactly when n - 1 of them do not suffice. */
  lemma InstallmentsUsed(amount: int, n: int)
    requires amount > 0 && n > 0
    ensures var used := CeilDiv(amount, CeilDiv(amount, n));
      used <= n && (used == n <==> (n - 1) * CeilDiv(amount, n) < amount)
  {
    var a := CeilDiv(amount, n);
    CeilDivIs(amount, n);
    var used := CeilDiv(amount, a);
    CeilDivIs(amount, a);
    assert amount <= a * n;
    MulMono(n, used - 1, a);
    if (n - 1) * a < amount { CeilDivUnique(amount, a, n); }
  }

  /* Single loans */

  lemma NewLoanOk(r: BorrowRequest, id: string, identity: string, borrower: string, config: Config, now: nat)
    requires r.amount > 0 && 2 * r.collateral >= 3 * r.amount
    ensures Amortized(NewLoan(r, id, identity, borrower, config, now))
    ensures OnSchedule(NewLoan(r, id, identity, borrower, config, now), config.installmentPeriodMs, now)
  {
    CeilDivIs(r.amount, Terms(r));
  }

  /** A payment keeps the schedule and closes the loan exactly at its last installment. */
  lemma PaidOk(l: Loan, nf: string, period: nat, clock: nat, now: nat)
    requires Amortized(l) && OnSchedule(l, period, clock) && l.status == Active && now >= clock
    ensures Amortized(Paid(l, nf, period, now)) && OnSchedule(Paid(l, nf, period, now), period, now)
    ensures 0 < Due(l) <= l.remaining
  {
    hide Amortized, OnSchedule, Paid;
    PaidAmortized(l, nf, period, now);
    MissRoom(l.missed, period);
    PaidSchedule(l, nf, l.missed * period, (l.missed + 1) * period, (l.missed + 2) * period, period, clock, now);
  }

  lemma PaidAmortized(l: Loan, nf: string, period: nat, now: nat)
    requires Amortized(l) && l.status == Active
    ensures Amortized(Paid(l, nf, period, now)) && 0 < Due(l) <= l.remaining
  {
    var k, a := l.installmentsPaid, l.installment;
    assert (k + 1) * a == k * a + a;
    if l.remaining <= a {
      CeilDivUnique(l.amount, a, k + 1);
    } else {
      hide CeilDiv;
      assert Paid(l, nf, period, now).remaining == l.amount - (k + 1) * a;
    }
  }

  lemma PaidSchedule(l: Loan, nf: string, none: int, one: int, two: int, period: nat, clock: nat, now: nat)
    requires OnSchedule(l, period, clock) && l.status == Active && now >= clock
    requires none == l.missed * period && one == (l.missed + 1) * period == none + period
    requires two == (l.missed + 2) * period == one + period
    ensures OnSchedule(Paid(l, nf, period, now), period, now)
  {
  }

  lemma MissRoom(missed: nat, period: nat)
    ensures (missed + 1) * period == missed * period + period
    ensures (missed + 2) * period == missed * period + 2 * period
  {
  }

  lemma MissedOk(l: Loan, period: nat, clock: nat, now: nat)
    requires Amortized(l) && OnSchedule(l, period, clock) && l.status == Active && now >= clock && now > l.dueNextAt
    ensures Amortized(Missed(l, period, now)) && OnSchedule(Missed(l, period, now), period, now)
    ensures Missed(l, period, now).missed > l.grace ==>
      var closed := Missed(l, period, now).(status := Liquidated, remaining := 0);
      Amortized(closed) && OnSchedule(closed, period, now)
  {
    MissRoom(l.missed, period);
    MulMono(l.grace + 1, l.missed + 1, period);
    AmortizedMiss(l, period, now);
    ScheduleMiss(l, (l.missed + 1) * period, (l.missed + 2) * period, (l.grace + 1) * period, period, clock, now);
  }

  lemma AmortizedMiss(l: Loan, period: nat, now: nat)
    requires Amortized(l) && l.status == Active
    ensures Amortized(Missed(l, period, now))
    ensures Amortized(Missed(l, period, now).(status := Liquidated, remaining := 0))
  {
  }

  lemma ScheduleMiss(l: Loan, one: int, two: int, graced: int, period: nat, clock: nat, now: nat)
    requires OnSchedule(l, period, clock) && l.status == Active && now > l.dueNextAt
    requires one == (l.missed + 1) * period && two == (l.missed + 2) * period == one + period
    requires graced == (l.grace + 1) * period
    requires l.missed + 1 > l.grace ==> graced <= one
    ensures OnSchedule(Missed(l, period, now), period, now)
    ensures l.missed + 1 > l.grace ==>
      OnSchedule(Missed(l, period, now).(status := Liquidated, remaining := 0), period, now)
  {
  }

  lemma LaterOk(loans: seq<Loan>, period: nat, clock: nat, now: nat)
    requires LoansOk(loans, period, clock) && now >= clock
    ensures LoansOk(loans, period, now)
  {
  }

  lemma LoansUpdate(loans: seq<Loan>, i: nat, l: Loan, period: nat, clock: nat)
    requires LoansOk(loans, period, clock) && i < |loans| && l.id == loans[i].id
    requires Amortized(l) && OnSchedule(l, period, clock)
    ensures LoansOk(loans[i := l], period, clock)
  {
    hide Amortized, OnSchedule;
    assert loans[i] in loans;
    forall x | x in loans[i := l] ensures Amortized(x) && OnSchedule(x, period, clock) && '|' !in x.id {
      assert x == l || x in loans;
    }
  }

  lemma LoansAppend(loans: seq<Loan>, l: Loan, period: nat, clock: nat)
    requires LoansOk(loans, period, clock) && Amortized(l) && OnSchedule(l, period, clock) && '|' !in l.id
    requires forall x :: x in loans ==> x.id != l.id
    ensures LoansOk(loans + [l], period, clock)
  {
    hide Amortized, OnSchedule;
  }

  /* Steps */

  lemma DepositKeeps(sha: string -> string, a: Audit, u: string, amount: int, oldC: string, newC: string, w: int,
                     ok: bool, now: nat)
    requires PoolOk(a.bank.pool, a.books, a.clock) && u in a.bank.users && now >= a.clock
    ensures var a' := Apply(sha, a, DepositOp(u, amount, oldC, newC, w, ok), now); PoolOk(a'.bank.pool, a'.books, now)
  {
    hide LoansOk, StandingOk, Owed, Deposits, BalanceNullifier, AddShare;
    var p := a.bank.pool;
    LaterOk(p.loans, p.config.installmentPeriodMs, a.clock, now);
    AddShareDeposits(p.shares, u, amount);
    SameLoans(p, p.(total := p.total + amount, shares := AddShare(p.shares, u, amount)));
  }

  /** What one lender has in the pool. */
  function DepositedBy(shares: seq<Share>, lender: string): int {
    if |shares| == 0 then 0
    else (if shares[0].lender == lender then shares[0].deposited else 0) + DepositedBy(shares[1..], lender)
  }

  /** A deposit raises its lender's part of the pool by the amount and no other lender's. */
  lemma {:induction false} AddShareTo(shares: seq<Share>, u: string, amount: int, lender: string)
    ensures DepositedBy(AddShare(shares, u, amount), lender)
      == DepositedBy(shares, lender) + if lender == u then amount else 0
  {
    ShareIndexIs(shares, u);
    var after := AddShare(shares, u, amount);
    if |shares| == 0 {
      assert after[1..] == [];
    } else if shares[0].lender == u {
      assert after[1..] == shares[1..];
    } else {
      AddShareTo(shares[1..], u, amount, lender);
      ShareIndexIs(shares[1..], u);
      assert after[1..] == AddShare(shares[1..], u, amount);
    }
  }

  lemma AddShareDeposits(shares: seq<Share>, u: string, amount: int)
    ensures Deposits(AddShare(shares, u, amount)) == Deposits(shares) + amount
  {
    ShareIndexIs(shares, u);
    match ShareIndex(shares, u) {
      case None => DepositsAppend(shares, Share(u, amount));
      case Some(i) => DepositsUpdate(shares, i, Share(u, shares[i].deposited + amount));
    }
  }

  lemma SameLoans(p: Pool, p': Pool)
    requires StandingOk(p) && p'.loans == p.loans && p'.standing == p.standing
    ensures StandingOk(p')
  {
  }

  lemma BorrowKeeps(sha: string -> string, a: Audit, u: string, r: BorrowRequest, eligible: bool, ok: bool, id: string,
                    now: nat)
    requires PoolOk(a.bank.pool, a.books, a.clock) && Enabled(a, BorrowOp(u, r, eligible, ok, id), now)
    ensures var a' := Apply(sha, a, BorrowOp(u, r, eligible, ok, id), now); PoolOk(a'.bank.pool, a'.books, now)
  {
    hide LoansOk, Owed, Deposits, BalanceNullifier, Amortized, OnSchedule, Defaults;
    var p := a.bank.pool;
    LaterOk(p.loans, p.config.installmentPeriodMs, a.clock, now);
    if Borrow(sha, a.bank, u, r, eligible, ok, id, now).1.Ok? {
      var l := Borrow(sha, a.bank, u, r, eligible, ok, id, now).1.value;
      NewLoanOk(r, id, l.creditIdentity, u, p.config, now);
      LoansAppend(p.loans, l, p.config.installmentPeriodMs, now);
      OwedAppend(p.loans, l);
      forall identity ensures Defaults(p.loans + [l], identity) == Defaults(p.loans, identity) {
        DefaultsAppend(p.loans, l, identity);
      }
    }
  }

  lemma RepayKeeps(sha: string -> string, a: Audit, u: string, id: string, oldC: string, newC: string, w: int,
                   ok: bool, now: nat)
    requires PoolOk(a.bank.pool, a.books, a.clock) && Enabled(a, RepayOp(u, id, oldC, newC, w, ok), now)
    ensures var a' := Apply(sha, a, RepayOp(u, id, oldC, newC, w, ok), now); PoolOk(a'.bank.pool, a'.books, now)
    ensures Repay(sha, a.bank, u, id, oldC, newC, w, ok, now).1.Ok? ==> a.bank.pool.outstanding >= w
  {
    hide LoansOk, Owed, Deposits, BalanceNullifier, InstallmentNullifier, Amortized, OnSchedule, Defaults;
    var p := a.bank.pool;
    LaterOk(p.loans, p.config.installmentPeriodMs, a.clock, now);
    LoanIndexIs(p.loans, id);
    if Repay(sha, a.bank, u, id, oldC, newC, w, ok, now).1.Ok? {
      var i := LoanIndex(p.loans, id).value;
      var l, l' := p.loans[i], Repay(sha, a.bank, u, id, oldC, newC, w, ok, now).1.value;
      LoanAt(p.loans, i, p.config.installmentPeriodMs, now);
      PaidOk(l, l'.nullifiers[|l.nullifiers|], p.config.installmentPeriodMs, now, now);
      LoansUpdate(p.loans, i, l', p.config.installmentPeriodMs, now);
      OwedUpdate(p.loans, i, l');
      OwedAtLeast(p.loans, i, p.config.installmentPeriodMs, now);
      var p' := Repay(sha, a.bank, u, id, oldC, newC, w, ok, now).0.pool;
      StandingUpdate(p.loans, i, l', p.standing, p'.standing);
      forall identity ensures GetStanding(p'.standing, identity).defaults == Defaults(p'.loans, identity) {
        assert GetStanding(p.standing, identity).defaults == Defaults(p.loans, identity);
        DefaultsUpdate(p.loans, i, l', identity);
      }
    }
  }

  /** Replacing a loan by one of the same borrower identity keeps every identity's standing. */
  lemma StandingUpdate(loans: seq<Loan>, i: nat, l: Loan, standing: map<string, Standing>,
                       standing': map<string, Standing>)
    requires i < |loans| && l.creditIdentity == loans[i].creditIdentity && standing.Keys <= standing'.Keys
    requires forall x :: x in loans ==> x.creditIdentity in standing
    ensures forall x :: x in loans[i := l] ==> x.creditIdentity in standing'
  {
    assert loans[i] in loans;
    forall x | x in loans[i := l] ensures x.creditIdentity in standing' { assert x == l || x in loans; }
  }

  lemma LoanAt(loans: seq<Loan>, i: nat, period: nat, clock: nat)
    requires LoansOk(loans, period, clock) && i < |loans|
    ensures Amortized(loans[i]) && OnSchedule(loans[i], period, clock) && '|' !in loans[i].id
  {
    hide Amortized, OnSchedule;
    assert loans[i] in loans;
  }

  lemma OwedAtLeast(loans: seq<Loan>, i: nat, period: nat, clock: nat)
    requires LoansOk(loans, period, clock) && i < |loans|
    ensures Owed(loans) >= loans[i].remaining
  {
    hide OnSchedule, Owed;
    OwedCovers(loans, i);
  }

  /** What the loan with this id still owes; nothing without one. */
  function RemainingOf(loans: seq<Loan>, id: string): int {
    LoanIndexIs(loans, id);
    match LoanIndex(loans, id)
    case None => 0
    case Some(i) => loans[i].remaining
  }

  /** A liquidation happens only after the grace misses and one more period have passed since the loan was made. */
  lemma LiquidateKeeps(sha: string -> string, a: Audit, id: string, now: nat)
    requires PoolOk(a.bank.pool, a.books, a.clock) && now >= a.clock
    ensures var a' := Apply(sha, a, LiquidateOp(id), now); PoolOk(a'.bank.pool, a'.books, now)
    ensures var r := Liquidate(a.bank, id, now).1; r.Ok? && r.value.status == Liquidated ==>
      && now > r.value.createdAt + (r.value.grace + 1) * a.bank.pool.config.installmentPeriodMs
      && LoanIndex(a.bank.pool.loans, id).Some? && a.bank.pool.outstanding >= RemainingOf(a.bank.pool.loans, id)
  {
    hide LoansOk, Owed, Deposits, Amortized, OnSchedule, Defaults;
    var p := a.bank.pool;
    var period := p.config.installmentPeriodMs;
    LaterOk(p.loans, period, a.clock, now);
    LoanIndexIs(p.loans, id);
    if Liquidate(a.bank, id, now).1.Ok? {
      var i := LoanIndex(p.loans, id).value;
      var l, l' := p.loans[i], Liquidate(a.bank, id, now).1.value;
      LoanAt(p.loans, i, period, now);
      MissedOk(l, period, now, now);
      LoansUpdate(p.loans, i, l', period, now);
      OwedUpdate(p.loans, i, l');
      OwedAtLeast(p.loans, i, period, now);
      Covered(l);
      if l'.status == Liquidated { ScheduleOf(l', period, now); }
      var p' := Liquidate(a.bank, id, now).0.pool;
      StandingUpdate(p.loans, i, l', p.standing, p'.standing);
      forall identity ensures GetStanding(p'.standing, identity).defaults == Defaults(p'.loans, identity) {
        assert GetStanding(p.standing, identity).defaults == Defaults(p.loans, identity);
        DefaultsUpdate(p.loans, i, l', identity);
      }
    }
  }

  lemma Covered(l: Loan)
    requires Amortized(l) && l.status == Active
    ensures 0 < l.remaining && 2 * l.collateral >= 3 * l.remaining
  {
  }

  lemma ScheduleOf(l: Loan, period: nat, clock: nat)
    requires OnSchedule(l, period, clock) && l.status == Liquidated
    ensures clock > l.createdAt + (l.grace + 1) * period
  {
  }

  lemma StepKeeps(sha: string -> string, a: Audit, op: Op, now: nat)
    requires PoolOk(a.bank.pool, a.books, a.clock) && Enabled(a, op, now)
    ensures var a' := Apply(sha, a, op, now); PoolOk(a'.bank.pool, a'.books, a'.clock)
  {
    hide PoolOk, Deposit, Borrow, Repay, Liquidate;
    match op
    case DepositOp(u, amount, oldC, newC, w, ok) => DepositKeeps(sha, a, u, amount, oldC, newC, w, ok, now);
    case BorrowOp(u, r, eligible, ok, id) => BorrowKeeps(sha, a, u, r, eligible, ok, id, now);
    case RepayOp(u, id, oldC, newC, w, ok) => RepayKeeps(sha, a, u, id, oldC, newC, w, ok, now);
    case LiquidateOp(id) => LiquidateKeeps(sha, a, id, now);
  }
}
