/** The lending pool: what deposits, loans, repayments and liquidations return and how they change the accounts,
    the spent nullifiers and the pool. Amounts are whole numbers; one request is one step. */
module Credit {
  import opened Wrappers
  import opened Text

  datatype Account = Account(credential: string, commitment: string, policy: string, pubkey: string)

  datatype Config = Config(gracePeriodMisses: nat, installmentPeriodMs: nat)

  const DEFAULT_CONFIG := Config(2, 604_800_000)

  const ON_TIME_SLACK_MS := 86_400_000

  datatype Status = Active | Repaid | Defaulted | Liquidated

  datatype Loan = Loan(
    id: string, creditIdentity: string, borrower: string,
    amount: int, collateral: int, remaining: int,
    installment: int, installmentsTotal: int, installmentsPaid: nat, missed: nat, grace: nat,
    status: Status, createdAt: nat, dueNextAt: nat, nullifiers: seq<string>)

  datatype Standing = Standing(onTime: nat, defaults: nat, loanIds: seq<string>)

  datatype Share = Share(lender: string, deposited: int)

  datatype Pool = Pool(
    total: int, outstanding: int, shares: seq<Share>, loans: seq<Loan>,
    standing: map<string, Standing>, spentInstallments: seq<string>, config: Config)

  /** The part of the store that lending reads and writes. */
  datatype Bank = Bank(users: map<string, Account>, spent: seq<string>, pool: Pool)

  datatype Error =
    | AmountNotPositive | StaleCommitment | WitnessMismatch | ProofFailed | NullifierSpent
    | UnderCollateralized | NotEligible | InsufficientLiquidity | NoCredential | DisbursementConflict
    | LoanNotFound | NotYourLoan | LoanNotActive | IdentityMismatch | InstallmentCounted | NotOverdue

  /** An empty store gets a seeded pool; a pool that was never used gets the seed once. */
  function OpenPool(stored: Option<Pool>, seed: nat): Pool {
    match stored
    case None => Pool(seed, 0, [], [], map[], [], DEFAULT_CONFIG)
    case Some(p) =>
      if seed > 0 && p.total == 0 && p.outstanding == 0 && |p.shares| == 0 && |p.loans| == 0 then p.(total := seed)
      else p
  }

  function BalanceNullifier(sha: string -> string, commitment: string): string { sha("balnf:" + commitment) }

  function CreditIdentity(sha: string -> string, credential: string): string {
    sha("circled:credit-scope-salt:v1|" + credential)
  }

  function InstallmentNullifier(sha: string -> string, loanId: string, k: nat, identity: string): string {
    sha("instnf:" + loanId + "|" + Decimal(k) + "|" + identity)
  }

  function CeilDiv(a: int, b: int): int
    requires b > 0
  {
    (a + b - 1) / b
  }

  function Min(a: int, b: int): int { if a < b then a else b }

  function Max(a: int, b: int): int { if a < b then b else a }

  function ShareIndex(shares: seq<Share>, lender: string): Option<nat> {
    if |shares| == 0 then None
    else if shares[0].lender == lender then Some(0)
    else
      match ShareIndex(shares[1..], lender)
      case None => None
      case Some(i) => Some(i + 1)
  }

  lemma {:induction false} ShareIndexIs(shares: seq<Share>, lender: string)
    ensures ShareIndex(shares, lender).Some? ==>
      ShareIndex(shares, lender).value < |shares| && shares[ShareIndex(shares, lender).value].lender == lender
  {
    if |shares| > 0 && shares[0].lender != lender { ShareIndexIs(shares[1..], lender); }
  }

  function AddShare(shares: seq<Share>, lender: string, amount: int): seq<Share> {
    ShareIndexIs(shares, lender);
    match ShareIndex(shares, lender)
    case None => shares + [Share(lender, amount)]
    case Some(i) => shares[i := Share(lender, shares[i].deposited + amount)]
  }

  /** What a deposit that passed its checks writes: the pool total is the one read with the checks, plus the amount. */
  function WriteDeposit(sha: string -> string, b: Bank, lender: string, amount: int, newCommitment: string, read: int)
    : (Bank, Result<int, Error>)
    requires lender in b.users
  {
    var u := b.users[lender];
    var nf := BalanceNullifier(sha, u.commitment);
    if nf in b.spent then (b, Err(NullifierSpent))
    else
      (b.(users := b.users[lender := u.(commitment := newCommitment)], spent := b.spent + [nf],
          pool := b.pool.(total := read + amount, shares := AddShare(b.pool.shares, lender, amount))),
       Ok(amount))
  }

  /** The checks of a deposit, in order. */
  function DepositCheck(b: Bank, lender: string, amount: int, oldCommitment: string, witnessAmount: int): Option<Error>
    requires lender in b.users
  {
    if amount <= 0 then Some(AmountNotPositive)
    else if oldCommitment != b.users[lender].commitment then Some(StaleCommitment)
    else if witnessAmount != amount then Some(WitnessMismatch)
    else None
  }

  function Deposit(sha: string -> string, b: Bank, lender: string, amount: int, oldCommitment: string,
                   newCommitment: string, witnessAmount: int, proofOk: bool): (Bank, Result<int, Error>)
    requires lender in b.users
  {
    match DepositCheck(b, lender, amount, oldCommitment, witnessAmount)
    case Some(e) => (b, Err(e))
    case None =>
      if !proofOk then (b, Err(ProofFailed))
      else WriteDeposit(sha, b, lender, amount, newCommitment, b.pool.total)
  }

  datatype BorrowRequest = BorrowRequest(
    amount: int, collateral: int, installments: int,
    oldCommitment: string, newCommitment: string, disbursedCommitment: string)

  /** The number of installments that is used: at least one. */
  function Terms(r: BorrowRequest): int { Max(1, r.installments) }

  function NewLoan(r: BorrowRequest, id: string, identity: string, borrower: string, config: Config, now: nat): Loan {
    Loan(id, identity, borrower, r.amount, r.collateral, r.amount, CeilDiv(r.amount, Terms(r)), Terms(r), 0, 0,
         config.gracePeriodMisses, Active, now, now + config.installmentPeriodMs, [])
  }

  function GetStanding(standing: map<string, Standing>, identity: string): Standing {
    if identity in standing then standing[identity] else Standing(0, 0, [])
  }

  /** The checks of a loan request before any proof is made, in order. */
  function BorrowCheck(b: Bank, borrower: string, r: BorrowRequest, eligible: bool): Option<Error>
    requires borrower in b.users
  {
    if r.amount <= 0 || r.collateral <= 0 then Some(AmountNotPositive)
    else if 2 * r.collateral < 3 * r.amount then Some(UnderCollateralized)
    else if !eligible then Some(NotEligible)
    else if r.amount > b.pool.total - b.pool.outstanding then Some(InsufficientLiquidity)
    else if r.oldCommitment != b.users[borrower].commitment then Some(StaleCommitment)
    else if b.users[borrower].credential == "" then Some(NoCredential)
    else None
  }

  /** What a loan request that passed its checks writes. A conflict on the second nullifier refuses the loan but leaves
      the first one recorded. */
  function WriteLoan(sha: string -> string, b: Bank, borrower: string, r: BorrowRequest, loanId: string, now: nat)
    : (Bank, Result<Loan, Error>)
    requires borrower in b.users
  {
    var u := b.users[borrower];
    var nf := BalanceNullifier(sha, u.commitment);
    var nf2 := BalanceNullifier(sha, r.newCommitment);
    if nf in b.spent then (b, Err(NullifierSpent))
    else if nf2 in b.spent + [nf] then (b.(spent := b.spent + [nf]), Err(DisbursementConflict))
    else
      var identity := CreditIdentity(sha, u.credential);
      var loan := NewLoan(r, loanId, identity, borrower, b.pool.config, now);
      var st := GetStanding(b.pool.standing, identity);
      var pool := b.pool.(
        outstanding := b.pool.outstanding + r.amount,
        loans := b.pool.loans + [loan],
        standing := b.pool.standing[identity := st.(loanIds := st.loanIds + [loanId])]);
      (Bank(b.users[borrower := u.(commitment := r.disbursedCommitment)], b.spent + [nf] + [nf2], pool), Ok(loan))
  }

  function Borrow(sha: string -> string, b: Bank, borrower: string, r: BorrowRequest, eligible: bool, proofOk: bool,
                  loanId: string, now: nat): (Bank, Result<Loan, Error>)
    requires borrower in b.users
  {
    match BorrowCheck(b, borrower, r, eligible)
    case Some(e) => (b, Err(e))
    case None => if !proofOk then (b, Err(ProofFailed)) else WriteLoan(sha, b, borrower, r, loanId, now)
  }

  function LoanIndex(loans: seq<Loan>, id: string): Option<nat> {
    if |loans| == 0 then None
    else if loans[0].id == id then Some(0)
    else
      match LoanIndex(loans[1..], id)
      case None => None
      case Some(i) => Some(i + 1)
  }

  lemma {:induction false} LoanIndexIs(loans: seq<Loan>, id: string)
    ensures match LoanIndex(loans, id)
      case None => forall l :: l in loans ==> l.id != id
      case Some(i) => i < |loans| && loans[i].id == id
  {
    if |loans| > 0 && loans[0].id != id { LoanIndexIs(loans[1..], id); }
  }

  /** The next payment of a loan. */
  function Due(l: Loan): int { Min(l.installment, l.remaining) }

  function RepayCheck(sha: string -> string, b: Bank, borrower: string, i: nat, oldCommitment: string,
                      witnessAmount: int): Option<Error>
    requires borrower in b.users && i < |b.pool.loans|
  {
    var (l, u) := (b.pool.loans[i], b.users[borrower]);
    if l.borrower != borrower then Some(NotYourLoan)
    else if l.status != Active then Some(LoanNotActive)
    else if oldCommitment != u.commitment then Some(StaleCommitment)
    else if u.credential == "" then Some(NoCredential)
    else if CreditIdentity(sha, u.credential) != l.creditIdentity then Some(IdentityMismatch)
    else if witnessAmount != Due(l) then Some(WitnessMismatch)
    else if InstallmentNullifier(sha, l.id, l.installmentsPaid, l.creditIdentity) in b.pool.spentInstallments then
      Some(InstallmentCounted)
    else None
  }

  /** The loan after one more payment, of which the loan as it was checked gives what is left. A payment more than a day
      late counts as a miss. */
  function PaidAs(l: Loan, taken: Loan, nf: string, period: nat, now: nat): Loan {
    var remaining := taken.remaining - Due(taken);
    l.(remaining := remaining, installmentsPaid := l.installmentsPaid + 1, nullifiers := l.nullifiers + [nf],
       dueNextAt := now + period,
       missed := if now <= l.dueNextAt + ON_TIME_SLACK_MS then l.missed else l.missed + 1,
       status := if remaining == 0 then Repaid else l.status)
  }

  function Paid(l: Loan, nf: string, period: nat, now: nat): Loan { PaidAs(l, l, nf, period, now) }

  /** What a repayment that passed its checks writes: due amount, what is left and installment nullifier are those of
      the loan as it was checked. */
  function WriteRepayment(sha: string -> string, b: Bank, borrower: string, i: nat, taken: Loan, newCommitment: string,
                          now: nat): (Bank, Result<Loan, Error>)
    requires borrower in b.users && i < |b.pool.loans|
  {
    var (l, u) := (b.pool.loans[i], b.users[borrower]);
    var nf := BalanceNullifier(sha, u.commitment);
    if nf in b.spent then (b, Err(NullifierSpent))
    else
      var spentNow := InstallmentNullifier(sha, taken.id, taken.installmentsPaid, taken.creditIdentity);
      var paid := PaidAs(l, taken, spentNow, b.pool.config.installmentPeriodMs, now);
      var st := GetStanding(b.pool.standing, l.creditIdentity);
      var standing :=
        if now <= l.dueNextAt + ON_TIME_SLACK_MS then b.pool.standing[l.creditIdentity := st.(onTime := st.onTime + 1)]
        else b.pool.standing;
      var pool := b.pool.(
        outstanding := Max(0, b.pool.outstanding - Due(taken)), loans := b.pool.loans[i := paid],
        standing := standing, spentInstallments := b.pool.spentInstallments + [spentNow]);
      (Bank(b.users[borrower := u.(commitment := newCommitment)], b.spent + [nf], pool), Ok(paid))
  }

  function Repay(sha: string -> string, b: Bank, borrower: string, loanId: string, oldCommitment: string,
                 newCommitment: string, witnessAmount: int, proofOk: bool, now: nat): (Bank, Result<Loan, Error>)
    requires borrower in b.users
  {
    LoanIndexIs(b.pool.loans, loanId);
    match LoanIndex(b.pool.loans, loanId)
    case None => (b, Err(LoanNotFound))
    case Some(i) =>
      match RepayCheck(sha, b, borrower, i, oldCommitment, witnessAmount)
      case Some(e) => (b, Err(e))
      case None =>
        if !proofOk then (b, Err(ProofFailed))
        else WriteRepayment(sha, b, borrower, i, b.pool.loans[i], newCommitment, now)
  }

  function Missed(l: Loan, period: nat, now: nat): Loan {
    l.(missed := l.missed + 1, dueNextAt := now + period)
  }

  /** Records a miss once the due date has passed; past the grace period the loan is closed, its remaining
      principal leaves the outstanding amount and its collateral joins the pool. */
  function Liquidate(b: Bank, loanId: string, now: nat): (Bank, Result<Loan, Error>) {
    LoanIndexIs(b.pool.loans, loanId);
    match LoanIndex(b.pool.loans, loanId)
    case None => (b, Err(LoanNotFound))
    case Some(i) =>
      var l := b.pool.loans[i];
      if l.status != Active then (b, Err(LoanNotActive))
      else if now <= l.dueNextAt then (b, Err(NotOverdue))
      else
        var late := Missed(l, b.pool.config.installmentPeriodMs, now);
        if late.missed > late.grace then
          var closed := late.(status := Liquidated, remaining := 0);
          var st := GetStanding(b.pool.standing, l.creditIdentity);
          (b.(pool := b.pool.(
             outstanding := Max(0, b.pool.outstanding - l.remaining), total := b.pool.total + l.collateral,
             loans := b.pool.loans[i := closed],
             standing := b.pool.standing[l.creditIdentity := st.(defaults := st.defaults + 1)])),
           Ok(closed))
        else (b.(pool := b.pool.(loans := b.pool.loans[i := late])), Ok(late))
  }
}
