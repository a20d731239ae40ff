/** Runs in which two requests overlap and the later write does not find what its checks found. */
module OverlapRuns {
  import opened Wrappers
  import opened Sequences
  import opened Hashing
  import opened Credit
  import opened Settlement
  import opened Funding
  import opened Overlap
  import Lifecycle
  import OverlapPool
  import OverlapSpent

  function Opening(seed: nat): State {
    var users := map["u" := Account("k", "0", "p", "pk"), "v" := Account("l", "1", "p", "pl")];
    State(Store(Ledger(users, [], [], [], []), OpenPool(None, seed)), [], seed)
  }

  /** Both requests are checked, then both are written. */
  function Both(first: Op, second: Op): seq<Step> { [Check(first), Check(second), Write(0, "", 0), Write(1, "", 0)] }

  lemma Differ(sha: string -> string, c: string, d: string)
    requires GoodHash(sha) && c != d
    ensures BalanceNullifier(sha, c) != BalanceNullifier(sha, d)
  {
    if BalanceNullifier(sha, c) == BalanceNullifier(sha, d) { OverlapSpent.NullifierInjective(sha, c, d); }
  }

  /* Two settlements of one commitment */

  function Pay(sha: string -> string, newC: string): Op {
    var input := SettleInput(BalanceNullifier(sha, "0"), "0", newC, "q", "pl", false, Some(1), false, true);
    var facts := Facts(true, true, true, true, Allow, true, true, Some(Lifecycle.ZkProved), true, true, true, false,
                       "pay", "event", "note", "rail", 0);
    SettleOp("u", input, facts)
  }

  lemma PayChecked(sha: string -> string, s: State, newC: string)
    requires s.store == Opening(0).store
    ensures var op := Pay(sha, newC);
      && Overlap.Enabled(s, Check(op))
      && Next(sha, s, Check(op)) == s.(flights := s.flights + [Some(Settling("u", op.input, op.facts))])
  {
    hide BalanceNullifier, WriteSettled;
  }

  /** Both settlements are written, and the nullifier of the one commitment is recorded twice. */
  lemma SettledTwice(sha: string -> string) returns (ss: seq<State>)
    ensures Overlap.Run(sha, ss, Both(Pay(sha, "a"), Pay(sha, "b"))) && ss[0] == Opening(0)
    ensures ss[4].store.ledger.spent == [BalanceNullifier(sha, "0"), BalanceNullifier(sha, "0")]
    ensures |ss[4].store.ledger.events| == 2 && !OverlapSpent.FindsAccount(ss[3], Write(1, "", 0))
  {
    hide BalanceNullifier, Closed, Checked, Funding.Apply;
    var first, second := Pay(sha, "a"), Pay(sha, "b");
    var s0 := Opening(0);
    PayChecked(sha, s0, "a");
    var s1 := Next(sha, s0, Check(first));
    PayChecked(sha, s1, "b");
    var s2 := Next(sha, s1, Check(second));
    assert s2.flights
      == [Some(Settling("u", first.input, first.facts)), Some(Settling("u", second.input, second.facts))];
    var s3 := Next(sha, s2, Write(0, "", 0));
    ss := [s0, s1, s2, s3, Next(sha, s3, Write(1, "", 0))];
  }

  /* Two deposits */

  function Lend(user: string, amount: nat, oldC: string, newC: string): Op {
    DepositOp(user, amount, oldC, newC, amount, true)
  }

  /** Two lenders deposit 100 and 50; the pool total ends at 50, their shares at 150. */
  lemma DepositLost(sha: string -> string) returns (ss: seq<State>)
    requires GoodHash(sha)
    ensures Overlap.Run(sha, ss, Both(Lend("u", 100, "0", "a"), Lend("v", 50, "1", "b"))) && ss[0] == Opening(0)
    ensures ss[4].store.pool.total == 50 && ss[4].store.pool.shares == [Share("u", 100), Share("v", 50)]
    ensures !OverlapPool.FindsTotal(sha, ss[3], Write(1, "", 0))
  {
    hide BalanceNullifier, GoodHash;
    Differ(sha, "0", "1");
    var s0 := Opening(0);
    var s1 := Next(sha, s0, Check(Lend("u", 100, "0", "a")));
    var s2 := Next(sha, s1, Check(Lend("v", 50, "1", "b")));
    assert s2.flights == [Some(Depositing("u", 100, "a", 0)), Some(Depositing("v", 50, "b", 0))];
    var s3 := Next(sha, s2, Write(0, "", 0));
    var s4 := Next(sha, s3, Write(1, "", 0));
    assert s4.store.pool.shares == [Share("u", 100), Share("v", 50)];
    ss := [s0, s1, s2, s3, s4];
  }

  /* Two repayments of one loan */

  const LOAN := BorrowOp("u", BorrowRequest(100, 150, 4, "0", "l", "d"), true, true, "loan", 0)

  function Back(newC: string): Op { RepayOp("u", "loan", "d", newC, 25, true, 0) }

  function Borrowed(): seq<Step> { [Check(LOAN), Write(0, "loan", 0)] }

  function Repaid(): seq<Step> { [Check(Back("a")), Check(Back("b")), Write(1, "", 0), Write(2, "", 0)] }

  lemma Lent(sha: string -> string) returns (ss: seq<State>)
    requires GoodHash(sha)
    ensures |ss| == 3 && ss[0] == Opening(100)
    ensures Overlap.Enabled(ss[0], Borrowed()[0]) && ss[1] == Next(sha, ss[0], Borrowed()[0])
    ensures Overlap.Enabled(ss[1], Borrowed()[1]) && ss[2] == Next(sha, ss[1], Borrowed()[1])
    ensures ss[2].flights == [None] && Granted(sha, ss[2])
  {
    hide BalanceNullifier, GoodHash, CreditIdentity;
    Differ(sha, "0", "l");
    var s0 := Opening(100);
    var s1 := Next(sha, s0, Check(LOAN));
    assert s1.flights == [Some(Borrowing("u", LOAN.request))];
    ss := [s0, s1, Next(sha, s1, Write(0, "loan", 0))];
  }

  /** The pool after that loan. */
  predicate Granted(sha: string -> string, s: State) {
    && s.store.ledger.users == Opening(0).store.ledger.users["u" := Account("k", "d", "p", "pk")]
    && s.store.ledger.spent == [BalanceNullifier(sha, "0"), BalanceNullifier(sha, "l")]
    && var p := s.store.pool;
       && p.outstanding == 100 && p.spentInstallments == [] && p.config == DEFAULT_CONFIG
       && p.loans == [NewLoan(LOAN.request, "loan", CreditIdentity(sha, "k"), "u", DEFAULT_CONFIG, 0)]
  }

  lemma BackChecked(sha: string -> string, s: State, newC: string)
    requires Granted(sha, s)
    ensures Overlap.Enabled(s, Check(Back(newC)))
    ensures Next(sha, s, Check(Back(newC)))
      == s.(flights := s.flights + [Some(Repaying("u", 0, s.store.pool.loans[0], newC))])
  {
    hide BalanceNullifier, CreditIdentity, InstallmentNullifier;
    assert LoanIndex(s.store.pool.loans, "loan") == Some(0);
  }

  /** One loan of 100 with both payments of 25 accepted: 75 is left, 50 is outstanding, and one nullifier counts
      twice. */
  lemma RepaidTwice(sha: string -> string) returns (ss: seq<State>)
    requires GoodHash(sha)
    ensures Overlap.Run(sha, ss, Borrowed() + Repaid()) && ss[0] == Opening(100)
    ensures var p := ss[6].store.pool;
      && |p.loans| == 1 && p.loans[0].installmentsPaid == 2 && p.loans[0].remaining == 75 && p.outstanding == 50
      && |p.spentInstallments| == 2 && p.spentInstallments[0] == p.spentInstallments[1]
    ensures !OverlapPool.FindsLoan(sha, ss[5], Write(2, "", 0))
  {
    hide GoodHash, Next, Overlap.Enabled, Written, OverlapPool.FindsLoan, OverlapPool.Accepted;
    var ts := Lent(sha);
    var s2 := ts[2];
    BackChecked(sha, s2, "a");
    var s3 := Next(sha, s2, Check(Back("a")));
    BackChecked(sha, s3, "b");
    var s4 := Next(sha, s3, Check(Back("b")));
    var l := s2.store.pool.loans[0];
    assert s4.flights == [None, Some(Repaying("u", 0, l, "a")), Some(Repaying("u", 0, l, "b"))];
    BackWritten(sha, s4, l);
    var s5 := Next(sha, s4, Write(1, "", 0));
    BackWrittenAgain(sha, s5, l);
    ss := ts + [s3, s4, s5, Next(sha, s5, Write(2, "", 0))];
    assert Start(ss[0]);
    assert forall k :: 2 <= k < 6 ==> (Borrowed() + Repaid())[k] == Repaid()[k - 2];
  }

  lemma BackWritten(sha: string -> string, s: State, l: Loan)
    requires GoodHash(sha) && Granted(sha, s) && l == s.store.pool.loans[0]
    requires s.flights == [None, Some(Repaying("u", 0, l, "a")), Some(Repaying("u", 0, l, "b"))]
    ensures Overlap.Enabled(s, Write(1, "", 0)) && OneBack(sha, Next(sha, s, Write(1, "", 0)), l)
  {
    hide BalanceNullifier, GoodHash, CreditIdentity, InstallmentNullifier;
    Differ(sha, "0", "d");
    Differ(sha, "l", "d");
  }

  function FirstBack(sha: string -> string, l: Loan): string { InstallmentNullifier(sha, l.id, 0, l.creditIdentity) }

  /** After the first of the two payments. */
  predicate OneBack(sha: string -> string, s: State, l: Loan) {
    && s.store.ledger.users.Keys == {"u", "v"} && s.store.ledger.users["u"].commitment == "a"
    && s.store.ledger.spent == [BalanceNullifier(sha, "0"), BalanceNullifier(sha, "l"), BalanceNullifier(sha, "d")]
    && l.remaining == 100 && l.installment == 25 && l.installmentsPaid == 0
    && s.flights == [None, None, Some(Repaying("u", 0, l, "b"))]
    && var p := s.store.pool;
       && |p.loans| == 1 && p.loans[0].installmentsPaid == 1 && p.outstanding == 75
       && p.spentInstallments == [FirstBack(sha, l)]
  }

  lemma BackWrittenAgain(sha: string -> string, s: State, l: Loan)
    requires GoodHash(sha) && OneBack(sha, s, l)
    ensures Overlap.Enabled(s, Write(2, "", 0)) && !OverlapPool.FindsLoan(sha, s, Write(2, "", 0))
    ensures var p := Next(sha, s, Write(2, "", 0)).store.pool;
      && |p.loans| == 1 && p.loans[0].installmentsPaid == 2 && p.loans[0].remaining == 75 && p.outstanding == 50
      && p.spentInstallments == [FirstBack(sha, l), FirstBack(sha, l)]
  {
    hide BalanceNullifier, GoodHash, CreditIdentity, InstallmentNullifier;
    Differ(sha, "0", "a");
    Differ(sha, "l", "a");
    Differ(sha, "d", "a");
  }
}
