/** What the pool guarantees in every state of every run. */
module CreditTheorems {
  import opened Wrappers
  import opened Text
  import opened Hashing
  import opened Sequences
  import opened Credit
  import opened CreditSafety
  import opened CreditLoans

  /* Installment nullifiers */

  function NullifiersOf(sha: string -> string, l: Loan): seq<string> {
    seq(l.installmentsPaid, k requires 0 <= k < l.installmentsPaid =>
      InstallmentNullifier(sha, l.id, k, l.creditIdentity))
  }

  /** x is the nullifier of a payment that some loan has received. */
  predicate Received(sha: string -> string, loans: seq<Loan>, x: string) {
    exists l :: l in loans && x in NullifiersOf(sha, l)
  }

  /** The spent installment nullifiers are exactly those of the payments received, each once. */
  ghost predicate InstallmentsOk(sha: string -> string, p: Pool) {
    && NoDuplicates(p.spentInstallments)
    && (forall x :: x in p.spentInstallments <==> Received(sha, p.loans, x))
    && (forall l :: l in p.loans ==> l.nullifiers == NullifiersOf(sha, l) && Plain(l.creditIdentity))
  }

  lemma NullifierDetermines(sha: string -> string, id: string, k: nat, c: string, id': string, k': nat, c': string)
    requires GoodHash(sha) && '|' !in id && '|' !in id'
    requires InstallmentNullifier(sha, id, k, c) == InstallmentNullifier(sha, id', k', c')
    ensures id == id' && k == k'
  {
    var p, r, r' := "instnf:", Decimal(k) + "|" + c, Decimal(k') + "|" + c';
    assert p + id + "|" + Decimal(k) + "|" + c == p + (id + "|" + r);
    assert p + id' + "|" + Decimal(k') + "|" + c' == p + (id' + "|" + r');
    hide Decimal;
    Prefixed(p, id + "|" + r, id' + "|" + r');
    SplitFirst(id, r, id', r', '|');
    DecimalRoundTrip(k); DecimalRoundTrip(k');
    SplitFirst(Decimal(k), c, Decimal(k'), c', '|');
  }

  /** The nullifier of a loan's next payment has not been spent. */
  lemma NextIsUnspent(sha: string -> string, p: Pool, clock: nat, i: nat)
    requires GoodHash(sha) && InstallmentsOk(sha, p) && LoansOk(p.loans, p.config.installmentPeriodMs, clock)
    requires i < |p.loans|
    ensures var l := p.loans[i];
      InstallmentNullifier(sha, l.id, l.installmentsPaid, l.creditIdentity) !in p.spentInstallments
  {
    hide InstallmentNullifier, Amortized, OnSchedule, GoodHash;
    var l := p.loans[i];
    var x := InstallmentNullifier(sha, l.id, l.installmentsPaid, l.creditIdentity);
    if x in p.spentInstallments {
      assert Received(sha, p.loans, x);
      var o :| o in p.loans && x in NullifiersOf(sha, o);
      var k :| 0 <= k < o.installmentsPaid && NullifiersOf(sha, o)[k] == x;
      NullifierDetermines(sha, l.id, l.installmentsPaid, l.creditIdentity, o.id, k, o.creditIdentity);
      SameLoan(p.loans, l, o);
      assert false;
    }
  }

  lemma SameLoan(loans: seq<Loan>, l: Loan, o: Loan)
    requires forall i, j :: 0 <= i < j < |loans| ==> loans[i].id != loans[j].id
    requires l in loans && o in loans && l.id == o.id
    ensures l == o
  {
    var i :| 0 <= i < |loans| && loans[i] == l;
    var j :| 0 <= j < |loans| && loans[j] == o;
  }

  /** Changing nothing but a loan's schedule and status keeps its nullifiers. */
  lemma ReceivedUpdate(sha: string -> string, loans: seq<Loan>, i: nat, l: Loan, x: string)
    requires i < |loans| && NullifiersOf(sha, loans[i]) <= NullifiersOf(sha, l)
    ensures Received(sha, loans[i := l], x) <==> Received(sha, loans, x) || x in NullifiersOf(sha, l)
  {
    hide NullifiersOf;
    assert loans[i := l][i] == l;
    if Received(sha, loans, x) {
      var o :| o in loans && x in NullifiersOf(sha, o);
      var j :| 0 <= j < |loans| && loans[j] == o;
      assert loans[i := l][j] == o || j == i;
    }
    if Received(sha, loans[i := l], x) && x !in NullifiersOf(sha, l) {
      var o :| o in loans[i := l] && x in NullifiersOf(sha, o);
      assert o in loans;
    }
  }

  lemma PaidNullifiers(sha: string -> string, l: Loan, period: nat, now: nat)
    ensures var nf := InstallmentNullifier(sha, l.id, l.installmentsPaid, l.creditIdentity);
      NullifiersOf(sha, Paid(l, nf, period, now)) == NullifiersOf(sha, l) + [nf]
  {
    hide InstallmentNullifier;
  }

  lemma RepayInstallments(sha: string -> string, b: Bank, clock: nat, u: string, id: string, oldC: string,
                          newC: string, w: int, ok: bool, now: nat)
    requires GoodHash(sha) && InstallmentsOk(sha, b.pool) && u in b.users
    requires LoansOk(b.pool.loans, b.pool.config.installmentPeriodMs, clock)
    ensures InstallmentsOk(sha, Repay(sha, b, u, id, oldC, newC, w, ok, now).0.pool)
    ensures Repay(sha, b, u, id, oldC, newC, w, ok, now).1 != Err(InstallmentCounted)
  {
    hide InstallmentNullifier, GoodHash, LoansOk, Received, NullifiersOf, BalanceNullifier;
    var p := b.pool;
    LoanIndexIs(p.loans, id);
    if LoanIndex(p.loans, id).Some? {
      var i := LoanIndex(p.loans, id).value;
      NextIsUnspent(sha, p, clock, i);
      if Repay(sha, b, u, id, oldC, newC, w, ok, now).1.Ok? {
        var l, l' := p.loans[i], Repay(sha, b, u, id, oldC, newC, w, ok, now).1.value;
        var nf := InstallmentNullifier(sha, l.id, l.installmentsPaid, l.creditIdentity);
        assert l in p.loans;
        PaidNullifiers(sha, l, p.config.installmentPeriodMs, now);
        assert NullifiersOf(sha, l) <= NullifiersOf(sha, l');
        forall x ensures x in p.spentInstallments + [nf] <==> Received(sha, p.loans[i := l'], x) {
          ReceivedUpdate(sha, p.loans, i, l', x);
          if x in NullifiersOf(sha, l) { ReceivedMember(sha, p.loans, l, x); }
        }
      }
    }
  }

  lemma ReceivedMember(sha: string -> string, loans: seq<Loan>, l: Loan, x: string)
    requires l in loans && x in NullifiersOf(sha, l)
    ensures Received(sha, loans, x)
  {
  }

  lemma LiquidateInstallments(sha: string -> string, b: Bank, id: string, now: nat)
    requires InstallmentsOk(sha, b.pool)
    ensures InstallmentsOk(sha, Liquidate(b, id, now).0.pool)
  {
    hide InstallmentNullifier, Received;
    var p := b.pool;
    LoanIndexIs(p.loans, id);
    if Liquidate(b, id, now).1.Ok? {
      var i := LoanIndex(p.loans, id).value;
      var l, l' := p.loans[i], Liquidate(b, id, now).1.value;
      assert l in p.loans;
      forall x ensures Received(sha, p.loans[i := l'], x) <==> Received(sha, p.loans, x) {
        ReceivedUpdate(sha, p.loans, i, l', x);
        if x in NullifiersOf(sha, l') { ReceivedMember(sha, p.loans, l, x); }
      }
    }
  }

  lemma BorrowInstallments(sha: string -> string, b: Bank, u: string, r: BorrowRequest, eligible: bool, ok: bool,
                           id: string, now: nat)
    requires GoodHash(sha) && InstallmentsOk(sha, b.pool) && u in b.users
    ensures InstallmentsOk(sha, Borrow(sha, b, u, r, eligible, ok, id, now).0.pool)
  {
    hide InstallmentNullifier, Received, BorrowCheck, BalanceNullifier, Plain;
    var p := b.pool;
    if Borrow(sha, b, u, r, eligible, ok, id, now).1.Ok? {
      var l := Borrow(sha, b, u, r, eligible, ok, id, now).1.value;
      forall x ensures Received(sha, p.loans + [l], x) <==> Received(sha, p.loans, x) {
        ReceivedAppend(sha, p.loans, l, x);
      }
    }
  }

  lemma ReceivedAppend(sha: string -> string, loans: seq<Loan>, l: Loan, x: string)
    requires l.installmentsPaid == 0
    ensures Received(sha, loans + [l], x) <==> Received(sha, loans, x)
  {
    hide InstallmentNullifier;
    if Received(sha, loans, x) {
      var o :| o in loans && x in NullifiersOf(sha, o);
      assert o in loans + [l];
    }
  }

  /* Runs */

  ghost predicate Good(sha: string -> string, a: Audit) {
    PoolOk(a.bank.pool, a.books, a.clock) && InstallmentsOk(sha, a.bank.pool)
  }

  lemma StepGood(sha: string -> string, a: Audit, op: Op, now: nat)
    requires GoodHash(sha) && Good(sha, a) && Enabled(a, op, now)
    ensures Good(sha, Apply(sha, a, op, now))
  {
    StepKeeps(sha, a, op, now);
    hide PoolOk, InstallmentsOk, Borrow, Repay, Liquidate, BalanceNullifier;
    LoansOf(a);
    match op
    case DepositOp(u, amount, oldC, newC, w, ok) =>
      SameInstallments(sha, a.bank.pool, Apply(sha, a, op, now).bank.pool);
    case BorrowOp(u, r, eligible, ok, id) => BorrowInstallments(sha, a.bank, u, r, eligible, ok, id, now);
    case RepayOp(u, id, oldC, newC, w, ok) => RepayInstallments(sha, a.bank, a.clock, u, id, oldC, newC, w, ok, now);
    case LiquidateOp(id) => LiquidateInstallments(sha, a.bank, id, now);
  }

  lemma LoansOf(a: Audit)
    requires PoolOk(a.bank.pool, a.books, a.clock)
    ensures LoansOk(a.bank.pool.loans, a.bank.pool.config.installmentPeriodMs, a.clock)
  {
  }

  lemma SameInstallments(sha: string -> string, p: Pool, p': Pool)
    requires InstallmentsOk(sha, p) && p'.loans == p.loans && p'.spentInstallments == p.spentInstallments
    ensures InstallmentsOk(sha, p')
  {
  }

  datatype Timed = Timed(op: Op, now: nat)

  /** A run from an empty store with any users and any seed. */
  ghost predicate Run(sha: string -> string, seed: nat, audits: seq<Audit>, ops: seq<Timed>) {
    && |audits| == |ops| + 1
    && audits[0].bank.pool == OpenPool(None, seed) && audits[0].books == Books(seed, 0, 0, 0, 0, 0)
    && forall k :: 0 <= k < |ops| ==>
      Enabled(audits[k], ops[k].op, ops[k].now) && audits[k + 1] == Apply(sha, audits[k], ops[k].op, ops[k].now)
  }

  lemma {:induction false} RunGood(sha: string -> string, seed: nat, audits: seq<Audit>, ops: seq<Timed>, k: nat)
    requires GoodHash(sha) && Run(sha, seed, audits, ops) && k < |audits|
    ensures Good(sha, audits[k])
  {
    if k == 0 {
    } else {
      hide Good, Apply, Enabled;
      RunGood(sha, seed, audits, ops, k - 1);
      StepGood(sha, audits[k - 1], ops[k - 1].op, ops[k - 1].now);
    }
  }

  lemma RunStep(sha: string -> string, seed: nat, audits: seq<Audit>, ops: seq<Timed>, k: nat)
    requires Run(sha, seed, audits, ops) && k < |ops|
    ensures k + 1 < |audits| && Enabled(audits[k], ops[k].op, ops[k].now) && ops[k].now >= audits[k].clock
    ensures audits[k + 1] == Apply(sha, audits[k], ops[k].op, ops[k].now)
  {
    hide Apply;
  }

  lemma {:induction false} SeedKept(sha: string -> string, seed: nat, audits: seq<Audit>, ops: seq<Timed>, k: nat)
    requires Run(sha, seed, audits, ops) && k < |audits|
    ensures audits[k].books.seed == seed
  {
    hide Deposit, Borrow, Repay, Liquidate;
    if k > 0 { SeedKept(sha, seed, audits, ops, k - 1); }
  }

  /** The payments for one loan accepted in the first k operations of a run. */
  ghost function ReceivedBy(sha: string -> string, seed: nat, audits: seq<Audit>, ops: seq<Timed>, k: nat,
                            id: string): int
    requires Run(sha, seed, audits, ops) && k <= |ops|
  {
    if k == 0 then 0
    else
      RunStep(sha, seed, audits, ops, k - 1);
      ReceivedBy(sha, seed, audits, ops, k - 1, id) + Brings(sha, audits[k - 1], ops[k - 1].op, ops[k - 1].now, id)
  }

  /** Every loan's payments add up to what it has paid in, and the books' losses and seizures are those of the loans. */
  lemma {:induction false} RunAccounted(sha: string -> string, seed: nat, audits: seq<Audit>, ops: seq<Timed>, k: nat)
    requires GoodHash(sha) && Run(sha, seed, audits, ops) && k <= |ops|
    ensures k < |audits| && LossesOk(audits[k].bank.pool, audits[k].books)
    ensures forall id :: Receipt(audits[k].bank.pool.loans, id) == ReceivedBy(sha, seed, audits, ops, k, id)
  {
    hide Run, Enabled, Apply, Receipt, Brings, GoodHash, PoolOk, InstallmentsOk;
    if k == 0 {
      RunStart(sha, seed, audits, ops);
    } else {
      RunAccounted(sha, seed, audits, ops, k - 1);
      RunStep(sha, seed, audits, ops, k - 1);
      RunGood(sha, seed, audits, ops, k - 1);
      StepAccounted(sha, audits[k - 1], ops[k - 1].op, ops[k - 1].now);
    }
  }

  lemma RunStart(sha: string -> string, seed: nat, audits: seq<Audit>, ops: seq<Timed>)
    requires Run(sha, seed, audits, ops)
    ensures |audits| == |ops| + 1 && LossesOk(audits[0].bank.pool, audits[0].books)
    ensures forall id :: Receipt(audits[0].bank.pool.loans, id) == 0
  {
    hide Enabled, Apply;
  }

  /** In every state of every run: the pool total is seed, deposits and seized collateral; what is outstanding is
      the sum the loans owe; the pool's liquidity exceeds the cash by exactly what the liquidated loans lost; and cash
      with what is outstanding covers the seed and all deposits. */
  lemma Solvency(sha: string -> string, seed: nat, audits: seq<Audit>, ops: seq<Timed>, k: nat)
    requires GoodHash(sha) && Run(sha, seed, audits, ops) && k < |audits|
    ensures var (p, b) := (audits[k].bank.pool, audits[k].books);
      && p.total == seed + Deposits(p.shares) + b.seized
      && p.outstanding == Owed(p.loans) && 0 <= p.outstanding <= p.total
      && b.seized == Taken(p.loans) && b.writtenOff == Losses(p.loans)
      && p.total - p.outstanding == Cash(b) + Losses(p.loans)
      && Cash(b) + p.outstanding >= seed + Deposits(p.shares)
      && Cash(b) >= -Losses(p.loans)
  {
    hide Run, LoansOk, Owed, Deposits, InstallmentsOk, DefaultsOk, StandingOk, Losses, Taken, Receipt, ReceivedBy;
    RunLength(sha, seed, audits, ops);
    RunAccounted(sha, seed, audits, ops, k);
    RunGood(sha, seed, audits, ops, k);
    SeedKept(sha, seed, audits, ops, k);
  }

  lemma RunLength(sha: string -> string, seed: nat, audits: seq<Audit>, ops: seq<Timed>)
    requires Run(sha, seed, audits, ops)
    ensures |audits| == |ops| + 1
  {
    hide Enabled, Apply;
  }

  /** A loan in any reachable state: what is left follows from the payments made; it is repaid exactly at its last
      installment, of which there are at most as many as agreed; a closed loan owes nothing; and its recorded
      nullifiers are those of its payments. */
  lemma LoanProgress(sha: string -> string, seed: nat, audits: seq<Audit>, ops: seq<Timed>, k: nat, l: Loan)
    requires GoodHash(sha) && Run(sha, seed, audits, ops) && k < |audits| && l in audits[k].bank.pool.loans
    ensures l.installment > 0 && l.amount > 0
    ensures var last := CeilDiv(l.amount, l.installment);
      && last <= l.installmentsTotal && l.installmentsPaid <= last
      && (l.status == Repaid <==> l.installmentsPaid == last)
      && (l.status == Active ==> l.remaining == l.amount - l.installmentsPaid * l.installment > 0)
      && (l.status != Active ==> l.remaining == 0)
    ensures l.nullifiers == NullifiersOf(sha, l)
    ensures GetStanding(audits[k].bank.pool.standing, l.creditIdentity).defaults
      == Defaults(audits[k].bank.pool.loans, l.creditIdentity)
  {
    hide Run, Owed, Deposits, OnSchedule, NullifiersOf, Received, Apply, Enabled, Defaults;
    RunGood(sha, seed, audits, ops, k);
    InstallmentsUsed(l.amount, l.installmentsTotal);
    var a, last := l.installment, CeilDiv(l.amount, l.installment);
    CeilDivIs(l.amount, a);
    assert Amortized(l);
    MulMono(last, l.installmentsPaid, a);
  }

  /** The payments accepted for a loan add up to its amount less what is left, so to its amount once it is repaid, and
      to its amount less its loss once it is liquidated. */
  lemma PaymentsAddUp(sha: string -> string, seed: nat, audits: seq<Audit>, ops: seq<Timed>, k: nat, l: Loan)
    requires GoodHash(sha) && Run(sha, seed, audits, ops) && k <= |ops| < |audits| && l in audits[k].bank.pool.loans
    ensures var received := ReceivedBy(sha, seed, audits, ops, k, l.id);
      && (l.status in {Active, Repaid} ==> received == l.amount - l.remaining)
      && (l.status == Repaid ==> received == l.amount)
      && (l.status == Liquidated ==> received == l.amount - Loss(l) < l.amount)
  {
    hide Run, Enabled, Apply, ReceivedBy, OnSchedule, Balanced, StandingOk, DefaultsOk, InstallmentsOk, GoodHash;
    RunAccounted(sha, seed, audits, ops, k);
    RunGood(sha, seed, audits, ops, k);
    var p := audits[k].bank.pool;
    assert Amortized(l);
    LoanIndexIs(p.loans, l.id);
    SameLoan(p.loans, p.loans[LoanIndex(p.loans, l.id).value], l);
  }

  /** When a loan is liquidated in a run, more than its grace misses plus one periods have passed since it was made. */
  lemma NoEarlyLiquidation(sha: string -> string, seed: nat, audits: seq<Audit>, ops: seq<Timed>, k: nat, id: string)
    requires GoodHash(sha) && Run(sha, seed, audits, ops) && k < |ops| && ops[k].op == LiquidateOp(id)
    requires Liquidate(audits[k].bank, id, ops[k].now).1.Ok?
    requires Liquidate(audits[k].bank, id, ops[k].now).1.value.status == Liquidated
    ensures var l := Liquidate(audits[k].bank, id, ops[k].now).1.value;
      ops[k].now > l.createdAt + (l.grace + 1) * audits[k].bank.pool.config.installmentPeriodMs
  {
    hide Run, Liquidate, Enabled, Apply, PoolOk, InstallmentsOk, GoodHash;
    RunStep(sha, seed, audits, ops, k);
    RunGood(sha, seed, audits, ops, k);
    LiquidateKeeps(sha, audits[k], id, ops[k].now);
  }

  /** The floors at zero never apply, and a repayment is never refused as already counted. */
  lemma ClampsNeverBind(sha: string -> string, seed: nat, audits: seq<Audit>, ops: seq<Timed>, k: nat, i: nat)
    requires GoodHash(sha) && Run(sha, seed, audits, ops) && k < |audits| && i < |audits[k].bank.pool.loans|
    ensures var (p, l) := (audits[k].bank.pool, audits[k].bank.pool.loans[i]);
      && l.remaining <= p.outstanding && (l.status == Active ==> 0 < Due(l) <= p.outstanding)
      && InstallmentNullifier(sha, l.id, l.installmentsPaid, l.creditIdentity) !in p.spentInstallments
  {
    hide Run, Owed, OnSchedule, InstallmentsOk, InstallmentNullifier, Apply, Enabled, LoansOk, Amortized;
    RunGood(sha, seed, audits, ops, k);
    var p := audits[k].bank.pool;
    OwedAtLeast(p.loans, i, p.config.installmentPeriodMs, audits[k].clock);
    NextIsUnspent(sha, p, audits[k].clock, i);
    LoanAt(p.loans, i, p.config.installmentPeriodMs, audits[k].clock);
    if p.loans[i].status == Active {
      PaidOk(p.loans[i], "", p.config.installmentPeriodMs, audits[k].clock, audits[k].clock);
    }
  }

  /** Every request opens the pool again; in every reachable state that changes nothing. */
  lemma ReopenIsIdentity(sha: string -> string, seed: nat, audits: seq<Audit>, ops: seq<Timed>, k: nat)
    requires GoodHash(sha) && Run(sha, seed, audits, ops) && k < |audits|
    ensures OpenPool(Some(audits[k].bank.pool), seed) == audits[k].bank.pool
  {
    hide Run, Owed, LoansOk, InstallmentsOk, Losses, Taken;
    Solvency(sha, seed, audits, ops, k);
    RunGood(sha, seed, audits, ops, k);
  }

  lemma NullifiersDiffer(sha: string -> string, c: string, d: string)
    requires GoodHash(sha) && c != d
    ensures BalanceNullifier(sha, c) != BalanceNullifier(sha, d)
  {
    if BalanceNullifier(sha, c) == BalanceNullifier(sha, d) { Prefixed("balnf:", c, d); }
  }

  const WEEK := 604_800_000

  /** A loan of 100 against 150 for user "b", and a later one of 250 against 375. */
  const FIRST := BorrowRequest(100, 150, 1, "1", "2", "3")
  const SECOND := BorrowRequest(250, 375, 1, "3", "4", "5")

  function Miss(n: nat): Timed { Timed(LiquidateOp("loan_1"), n * (WEEK + 1)) }

  lemma MissStep(sha: string -> string, a: Audit, n: nat, l: Loan)
    requires 1 <= n <= 3 && a.bank.pool.loans == [l] && a.bank.pool.config == DEFAULT_CONFIG
    requires a.clock <= n * (WEEK + 1)
    requires l.id == "loan_1" && l.status == Active && l.missed == n - 1 && l.grace == 2 && l.remaining == 100
    requires l.collateral == 150
    requires l.dueNextAt == (n - 1) * (WEEK + 1) + WEEK && a.bank.pool.outstanding == 100
    ensures var a' := Apply(sha, a, Miss(n).op, Miss(n).now);
      && Enabled(a, Miss(n).op, Miss(n).now) && a'.clock == n * (WEEK + 1)
      && a'.bank.users == a.bank.users && a'.bank.spent == a.bank.spent && a'.bank.pool.config == DEFAULT_CONFIG
      && (n < 3 ==> a'.books == a.books && a'.bank.pool == a.bank.pool.(loans := [Missed(l, WEEK, n * (WEEK + 1))]))
      && (n == 3 ==> (
            && a'.books == a.books.(seized := a.books.seized + 150, writtenOff := a.books.writtenOff + 100)
            && a'.bank.pool.outstanding == 0 && a'.bank.pool.total == a.bank.pool.total + 150
            && |a'.bank.pool.loans| == 1 && a'.bank.pool.loans[0].id == "loan_1"))
  {
    assert LoanIndex([l], "loan_1") == Some(0);
  }

  const DEPOSIT := Timed(DepositOp("a", 100, "0", "9", 100, true), 0)
  const FIRST_LOAN := Timed(BorrowOp("b", FIRST, true, true, "loan_1"), 0)
  const SECOND_LOAN := Timed(BorrowOp("b", SECOND, true, true, "loan_2"), 3 * (WEEK + 1))

  lemma DepositStep(sha: string -> string) returns (a: Audit, a': Audit)
    ensures a.bank.pool == OpenPool(None, 0) && a.books == Books(0, 0, 0, 0, 0, 0)
    ensures Enabled(a, DEPOSIT.op, 0) && a' == Apply(sha, a, DEPOSIT.op, 0)
    ensures a'.bank.pool == a.bank.pool.(total := 100, shares := [Share("a", 100)])
    ensures a'.books == Books(0, 100, 0, 0, 0, 0)
    ensures a'.bank.spent == [BalanceNullifier(sha, "0")] && a'.clock == 0
    ensures "b" in a'.bank.users && a'.bank.users["b"] == Account("k", "1", "", "")
  {
    hide BalanceNullifier;
    var users := map["a" := Account("k", "0", "", ""), "b" := Account("k", "1", "", "")];
    a := Audit(Bank(users, [], OpenPool(None, 0)), Books(0, 0, 0, 0, 0, 0), 0);
    a' := Apply(sha, a, DEPOSIT.op, 0);
  }

  lemma LoanStep(sha: string -> string, a: Audit, r: BorrowRequest, id: string, now: nat)
    requires a.clock <= now && '|' !in id && forall l :: l in a.bank.pool.loans ==> l.id != id
    requires "b" in a.bank.users && a.bank.users["b"] == Account("k", r.oldCommitment, "", "")
    requires 0 < r.amount <= a.bank.pool.total - a.bank.pool.outstanding && 2 * r.collateral >= 3 * r.amount
    requires BalanceNullifier(sha, r.oldCommitment) !in a.bank.spent
    requires BalanceNullifier(sha, r.newCommitment) !in a.bank.spent + [BalanceNullifier(sha, r.oldCommitment)]
    ensures var op := BorrowOp("b", r, true, true, id);
      Enabled(a, op, now) &&
      var a' := Apply(sha, a, op, now);
      && a'.clock == now && a'.books == a.books.(disbursed := a.books.disbursed + r.amount)
      && a'.bank.users == a.bank.users["b" := Account("k", r.disbursedCommitment, "", "")]
      && a'.bank.spent
        == a.bank.spent + [BalanceNullifier(sha, r.oldCommitment)] + [BalanceNullifier(sha, r.newCommitment)]
      && a'.bank.pool.total == a.bank.pool.total && a'.bank.pool.config == a.bank.pool.config
      && a'.bank.pool.outstanding == a.bank.pool.outstanding + r.amount
      && a'.bank.pool.loans
        == a.bank.pool.loans + [NewLoan(r, id, CreditIdentity(sha, "k"), "b", a.bank.pool.config, now)]
  {
    hide BalanceNullifier, CreditIdentity;
  }

  lemma AllNullifiersDiffer(sha: string -> string)
    requires GoodHash(sha)
    ensures forall c, d :: c in ["0", "1", "2", "3", "4"] && d in ["0", "1", "2", "3", "4"] && c != d ==>
      BalanceNullifier(sha, c) != BalanceNullifier(sha, d)
  {
    hide GoodHash, BalanceNullifier;
    forall c, d | c in ["0", "1", "2", "3", "4"] && d in ["0", "1", "2", "3", "4"] && c != d
      ensures BalanceNullifier(sha, c) != BalanceNullifier(sha, d)
    {
      NullifiersDiffer(sha, c, d);
    }
  }

  /** The state after the deposit of 100 and the loan of 100. */
  ghost predicate Lent(sha: string -> string, a: Audit) {
    && a.bank.pool.loans == [NewLoan(FIRST, "loan_1", CreditIdentity(sha, "k"), "b", DEFAULT_CONFIG, 0)]
    && a.bank.pool.total == 100 && a.bank.pool.outstanding == 100 && a.bank.pool.config == DEFAULT_CONFIG
    && a.bank.spent == [BalanceNullifier(sha, "0"), BalanceNullifier(sha, "1"), BalanceNullifier(sha, "2")]
    && "b" in a.bank.users && a.bank.users["b"] == Account("k", "3", "", "")
    && a.books == Books(0, 100, 100, 0, 0, 0) && a.clock == 0
  }

  lemma DepositAndLoan(sha: string -> string) returns (a0: Audit, a1: Audit, a2: Audit)
    requires GoodHash(sha)
    ensures a0.bank.pool == OpenPool(None, 0) && a0.books == Books(0, 0, 0, 0, 0, 0)
    ensures Enabled(a0, DEPOSIT.op, 0) && a1 == Apply(sha, a0, DEPOSIT.op, 0)
    ensures Enabled(a1, FIRST_LOAN.op, 0) && a2 == Apply(sha, a1, FIRST_LOAN.op, 0)
    ensures Lent(sha, a2)
  {
    hide GoodHash, BalanceNullifier, CreditIdentity, Apply, Enabled;
    AllNullifiersDiffer(sha);
    a0, a1 := DepositStep(sha);
    LoanStep(sha, a1, FIRST, "loan_1", 0);
    a2 := Apply(sha, a1, FIRST_LOAN.op, 0);
  }

  /** Three misses liquidate the loan. */
  lemma ThreeMisses(sha: string -> string, a2: Audit) returns (a3: Audit, a4: Audit, a5: Audit)
    requires Lent(sha, a2)
    ensures Enabled(a2, Miss(1).op, Miss(1).now) && a3 == Apply(sha, a2, Miss(1).op, Miss(1).now)
    ensures Enabled(a3, Miss(2).op, Miss(2).now) && a4 == Apply(sha, a3, Miss(2).op, Miss(2).now)
    ensures Enabled(a4, Miss(3).op, Miss(3).now) && a5 == Apply(sha, a4, Miss(3).op, Miss(3).now)
    ensures a5.bank.users == a2.bank.users && a5.bank.spent == a2.bank.spent && a5.bank.pool.config == DEFAULT_CONFIG
    ensures a5.bank.pool.total == 250 && a5.bank.pool.outstanding == 0 && a5.clock == Miss(3).now
    ensures |a5.bank.pool.loans| == 1 && a5.bank.pool.loans[0].id == "loan_1"
    ensures a5.books == Books(0, 100, 100, 0, 150, 100)
  {
    hide BalanceNullifier, CreditIdentity, Apply, Enabled;
    MissStep(sha, a2, 1, a2.bank.pool.loans[0]);
    a3 := Apply(sha, a2, Miss(1).op, Miss(1).now);
    MissStep(sha, a3, 2, a3.bank.pool.loans[0]);
    a4 := Apply(sha, a3, Miss(2).op, Miss(2).now);
    MissStep(sha, a4, 3, a4.bank.pool.loans[0]);
    a5 := Apply(sha, a4, Miss(3).op, Miss(3).now);
  }

  /** Liquidity counts seized collateral in full and also the written-off principal, so the pool can lend out more
      than its cash: a deposit of 100, a loan of 100 that is liquidated, and a loan of 250. */
  lemma CashCanRunOut(sha: string -> string) returns (audits: seq<Audit>, ops: seq<Timed>)
    requires GoodHash(sha)
    ensures Run(sha, 0, audits, ops) && Cash(audits[|ops|].books) == -100
  {
    hide GoodHash, BalanceNullifier, CreditIdentity, Apply, Enabled;
    AllNullifiersDiffer(sha);
    var a0, a1, a2 := DepositAndLoan(sha);
    var a3, a4, a5 := ThreeMisses(sha, a2);
    LoanStep(sha, a5, SECOND, "loan_2", Miss(3).now);
    var a6 := Apply(sha, a5, SECOND_LOAN.op, SECOND_LOAN.now);
    audits, ops := [a0, a1, a2, a3, a4, a5, a6], [DEPOSIT, FIRST_LOAN, Miss(1), Miss(2), Miss(3), SECOND_LOAN];
  }

  /** A granted loan leaves the cash nonnegative exactly when its amount and what the liquidated loans lost fit the
      pool's liquidity together: a check on the stored pool that the code could make before lending. */
  lemma LoanLeavesCashIff(sha: string -> string, seed: nat, audits: seq<Audit>, ops: seq<Timed>, k: nat,
                          u: string, r: BorrowRequest, eligible: bool, ok: bool, id: string)
    requires GoodHash(sha) && Run(sha, seed, audits, ops) && k < |ops| && ops[k].op == BorrowOp(u, r, eligible, ok, id)
    requires u in audits[k].bank.users && Borrow(sha, audits[k].bank, u, r, eligible, ok, id, ops[k].now).1.Ok?
    ensures var p := audits[k].bank.pool;
      Cash(audits[k + 1].books) >= 0 <==> r.amount + Losses(p.loans) <= p.total - p.outstanding
  {
    hide Run, Borrow, Enabled, GoodHash, Owed, Deposits, Losses, Taken;
    RunStep(sha, seed, audits, ops, k);
    Solvency(sha, seed, audits, ops, k);
  }
}
