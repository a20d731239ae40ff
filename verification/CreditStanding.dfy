/** A borrower's standing over whole runs: on-time payments, misses and loans, from the loans alone. */
module CreditStanding {
  import opened Wrappers
  import opened Credit
  import opened CreditSafety
  import opened CreditTheorems
  import opened CreditOutcomes

  /** The sum of a figure over the loans of one credit identity. */
  function Sum(loans: seq<Loan>, identity: string, figure: Loan -> int): int {
    if |loans| == 0 then 0
    else (if loans[0].creditIdentity == identity then figure(loans[0]) else 0) + Sum(loans[1..], identity, figure)
  }

  function Misses(l: Loan): int { l.missed }

  function Payments(l: Loan): int { l.installmentsPaid }

  /** The ids of the loans of one credit identity, in the order in which they were granted. */
  function Ids(loans: seq<Loan>, identity: string): seq<string> {
    if |loans| == 0 then []
    else (if loans[0].creditIdentity == identity then [loans[0].id] else []) + Ids(loans[1..], identity)
  }

  lemma {:induction false} SumAppend(loans: seq<Loan>, l: Loan, identity: string, figure: Loan -> int)
    ensures Sum(loans + [l], identity, figure)
      == Sum(loans, identity, figure) + if l.creditIdentity == identity then figure(l) else 0
  {
    if |loans| > 0 {
      SumAppend(loans[1..], l, identity, figure);
      assert (loans + [l])[1..] == loans[1..] + [l];
    } else {
      assert (loans + [l])[1..] == [];
    }
  }

  lemma {:induction false} SumUpdate(loans: seq<Loan>, i: nat, l: Loan, identity: string, figure: Loan -> int)
    requires i < |loans| && l.creditIdentity == loans[i].creditIdentity
    ensures Sum(loans[i := l], identity, figure)
      == Sum(loans, identity, figure) + if l.creditIdentity == identity then figure(l) - figure(loans[i]) else 0
  {
    if i == 0 {
      assert loans[0 := l][1..] == loans[1..];
    } else {
      SumUpdate(loans[1..], i - 1, l, identity, figure);
      assert loans[i := l][1..] == loans[1..][i - 1 := l];
    }
  }

  lemma {:induction false} IdsAppend(loans: seq<Loan>, l: Loan, identity: string)
    ensures Ids(loans + [l], identity) == Ids(loans, identity) + if l.creditIdentity == identity then [l.id] else []
  {
    if |loans| > 0 {
      IdsAppend(loans[1..], l, identity);
      assert (loans + [l])[1..] == loans[1..] + [l];
    } else {
      assert (loans + [l])[1..] == [];
    }
  }

  lemma {:induction false} IdsUpdate(loans: seq<Loan>, i: nat, l: Loan, identity: string)
    requires i < |loans| && l.creditIdentity == loans[i].creditIdentity && l.id == loans[i].id
    ensures Ids(loans[i := l], identity) == Ids(loans, identity)
  {
    if i == 0 {
      assert loans[0 := l][1..] == loans[1..];
    } else {
      IdsUpdate(loans[1..], i - 1, l, identity);
      assert loans[i := l][1..] == loans[1..][i - 1 := l];
    }
  }

  /** How often the operation records a miss on a loan of this identity, at its due date. */
  function Strikes(a: Audit, op: Op, now: nat, identity: string): nat {
    if op.LiquidateOp? then
      var r := Liquidate(a.bank, op.loanId, now).1;
      if r.Ok? && r.value.creditIdentity == identity then 1 else 0
    else 0
  }

  /** What one operation does to standing, misses and payments of one identity. */
  ghost predicate Marked(sha: string -> string, a: Audit, op: Op, now: nat, identity: string)
    requires Enabled(a, op, now)
  {
    var (p, p') := (a.bank.pool, Apply(sha, a, op, now).bank.pool);
    var (st, st') := (GetStanding(p.standing, identity), GetStanding(p'.standing, identity));
    && st'.onTime + Sum(p'.loans, identity, Misses) - Sum(p'.loans, identity, Payments)
      == st.onTime + Sum(p.loans, identity, Misses) - Sum(p.loans, identity, Payments) + Strikes(a, op, now, identity)
    && (st.loanIds == Ids(p.loans, identity) ==> st'.loanIds == Ids(p'.loans, identity))
  }

  lemma BorrowMarked(sha: string -> string, a: Audit, u: string, q: BorrowRequest, eligible: bool, ok: bool,
                     id: string, now: nat, identity: string)
    requires Enabled(a, BorrowOp(u, q, eligible, ok, id), now)
    ensures Marked(sha, a, BorrowOp(u, q, eligible, ok, id), now, identity)
  {
    hide Borrow, Sum, Ids, BorrowCheck, CeilDiv;
    var (b, r) := Borrow(sha, a.bank, u, q, eligible, ok, id, now);
    BorrowedIff(sha, a.bank, u, q, eligible, ok, id, now);
    if r.Ok? {
      LoanWritten(sha, a.bank, u, q, eligible, ok, id, now);
      SumAppend(a.bank.pool.loans, r.value, identity, Misses);
      SumAppend(a.bank.pool.loans, r.value, identity, Payments);
      IdsAppend(a.bank.pool.loans, r.value, identity);
    } else {
      RefusedKeepsPool(sha, a.bank, u, q, eligible, ok, id, now);
    }
  }

  lemma RefusedKeepsPool(sha: string -> string, b: Bank, u: string, q: BorrowRequest, eligible: bool, ok: bool,
                         id: string, now: nat)
    requires u in b.users && Borrow(sha, b, u, q, eligible, ok, id, now).1.Err?
    ensures Borrow(sha, b, u, q, eligible, ok, id, now).0.pool == b.pool
  {
    hide BorrowCheck, NewLoan, BalanceNullifier;
  }

  lemma RepayMarked(sha: string -> string, a: Audit, u: string, id: string, oldC: string, newC: string, w: int,
                    ok: bool, now: nat, identity: string)
    requires Enabled(a, RepayOp(u, id, oldC, newC, w, ok), now)
    ensures Marked(sha, a, RepayOp(u, id, oldC, newC, w, ok), now, identity)
  {
    hide Repay, Sum, Ids, NextPayment, NextNullifier, LoanIndex;
    var (b, r) := Repay(sha, a.bank, u, id, oldC, newC, w, ok, now);
    RepaidIff(sha, a.bank, u, id, oldC, newC, w, ok, now);
    if r.Ok? {
      PaymentWritten(sha, a.bank, u, id, oldC, newC, w, ok, now);
      var i := LoanIndex(a.bank.pool.loans, id).value;
      SumUpdate(a.bank.pool.loans, i, r.value, identity, Misses);
      SumUpdate(a.bank.pool.loans, i, r.value, identity, Payments);
      IdsUpdate(a.bank.pool.loans, i, r.value, identity);
    }
  }

  lemma LiquidateMarked(sha: string -> string, a: Audit, id: string, now: nat, identity: string)
    requires Enabled(a, LiquidateOp(id), now)
    ensures Marked(sha, a, LiquidateOp(id), now, identity)
  {
    hide Liquidate, Sum, Ids, LoanIndex;
    var (b, r) := Liquidate(a.bank, id, now);
    LiquidatedIff(a.bank, id, now);
    if r.Ok? {
      MissWritten(a.bank, id, now);
      var i := LoanIndex(a.bank.pool.loans, id).value;
      SumUpdate(a.bank.pool.loans, i, r.value, identity, Misses);
      SumUpdate(a.bank.pool.loans, i, r.value, identity, Payments);
      IdsUpdate(a.bank.pool.loans, i, r.value, identity);
    }
  }

  lemma StepMarked(sha: string -> string, a: Audit, op: Op, now: nat, identity: string)
    requires Enabled(a, op, now)
    ensures Marked(sha, a, op, now, identity)
  {
    hide Borrow, Repay, Liquidate, Sum, Ids;
    match op
    case DepositOp(u, amount, oldC, newC, w, ok) =>
    case BorrowOp(u, q, eligible, ok, id) => BorrowMarked(sha, a, u, q, eligible, ok, id, now, identity);
    case RepayOp(u, id, oldC, newC, w, ok) => RepayMarked(sha, a, u, id, oldC, newC, w, ok, now, identity);
    case LiquidateOp(id) => LiquidateMarked(sha, a, id, now, identity);
  }

  /** The misses that overdue loans of one identity were given in the first k operations of a run. */
  ghost function StrikesBy(audits: seq<Audit>, ops: seq<Timed>, k: nat, identity: string): nat
    requires k <= |ops| < |audits|
  {
    if k == 0 then 0
    else StrikesBy(audits, ops, k - 1, identity) + Strikes(audits[k - 1], ops[k - 1].op, ops[k - 1].now, identity)
  }

  /** In every state of every run: each payment of a borrower was on time or counts as a miss, and the other misses are
      those of overdue loans; and the standing lists the borrower's loans in the order of their granting. */
  lemma {:induction false} EveryPaymentCounts(sha: string -> string, seed: nat, audits: seq<Audit>, ops: seq<Timed>,
                                              k: nat, identity: string)
    requires Run(sha, seed, audits, ops) && k < |audits|
    ensures k <= |ops| < |audits|
    ensures var p := audits[k].bank.pool;
      && GetStanding(p.standing, identity).onTime + Sum(p.loans, identity, Misses)
        == Sum(p.loans, identity, Payments) + StrikesBy(audits, ops, k, identity)
      && GetStanding(p.standing, identity).loanIds == Ids(p.loans, identity)
  {
    hide Run, Enabled, Apply, Strikes;
    RunLength(sha, seed, audits, ops);
    if k == 0 {
      RunOpens(sha, seed, audits, ops);
    } else {
      EveryPaymentCounts(sha, seed, audits, ops, k - 1, identity);
      CreditTheorems.RunStep(sha, seed, audits, ops, k - 1);
      StepMarked(sha, audits[k - 1], ops[k - 1].op, ops[k - 1].now, identity);
    }
  }

  /** A run starts with an empty pool that holds the seed, two misses of grace and weekly installments. */
  lemma RunOpens(sha: string -> string, seed: nat, audits: seq<Audit>, ops: seq<Timed>)
    requires Run(sha, seed, audits, ops)
    ensures 0 < |audits| && audits[0].bank.pool == Pool(seed, 0, [], [], map[], [], Config(2, 7 * 24 * 3600 * 1000))
  {
    hide Enabled, Apply;
  }
}
