/** The lending service: the operations as they update the accounts and the pool field by field. */
module CreditService {
  import opened Wrappers
  import opened Credit

  class Service {
    const sha: string -> string
    const config: Config
    var users: map<string, Account>
    var spentNullifiers: seq<string>
    var poolTotal: int
    var poolOutstanding: int
    var shares: seq<Share>
    var loans: seq<Loan>
    var standing: map<string, Standing>
    var spentInstallments: seq<string>

    function Stored(): Bank
      reads this
    {
      Bank(users, spentNullifiers, Pool(poolTotal, poolOutstanding, shares, loans, standing, spentInstallments, config))
    }

    constructor (sha: string -> string, users: map<string, Account>, seed: nat)
      ensures this.sha == sha && Stored() == Bank(users, [], OpenPool(None, seed))
    {
      this.sha, this.config, this.users := sha, DEFAULT_CONFIG, users;
      spentNullifiers, poolTotal, poolOutstanding := [], seed, 0;
      shares, loans, standing, spentInstallments := [], [], map[], [];
    }

    /** Records the nullifier of the account's commitment and moves the account to the new one. */
    method MoveAccount(user: string, newCommitment: string)
      requires user in users
      modifies this`users, this`spentNullifiers
      ensures users == old(users)[user := old(users)[user].(commitment := newCommitment)]
      ensures spentNullifiers == old(spentNullifiers) + [BalanceNullifier(sha, old(users)[user].commitment)]
    {
      spentNullifiers := spentNullifiers + [BalanceNullifier(sha, users[user].commitment)];
      users := users[user := users[user].(commitment := newCommitment)];
    }

    method DepositToPool(lender: string, amount: int, oldCommitment: string, newCommitment: string, witnessAmount: int,
                         proofOk: bool)
      returns (r: Result<int, Error>)
      requires lender in users
      modifies this
      ensures lender in old(users)
      ensures (Stored(), r)
        == Deposit(sha, old(Stored()), lender, amount, oldCommitment, newCommitment, witnessAmount, proofOk)
    {
      hide WriteDeposit;
      if !(amount > 0) { return Err(AmountNotPositive); }
      if oldCommitment != users[lender].commitment { return Err(StaleCommitment); }
      if witnessAmount != amount { return Err(WitnessMismatch); }
      var read := poolTotal;
      if !proofOk { return Err(ProofFailed); }
      r := FinishDeposit(lender, amount, newCommitment, read);
    }

    /** What a deposit does once its proof has arrived, whatever happened since the pool total was read. */
    method FinishDeposit(lender: string, amount: int, newCommitment: string, read: int) returns (r: Result<int, Error>)
      requires lender in users
      modifies this
      ensures lender in old(users)
      ensures (Stored(), r) == WriteDeposit(sha, old(Stored()), lender, amount, newCommitment, read)
    {
      hide BalanceNullifier;
      if BalanceNullifier(sha, users[lender].commitment) in spentNullifiers { return Err(NullifierSpent); }
      MoveAccount(lender, newCommitment);
      poolTotal := read + amount;
      var at := ShareIndex(shares, lender);
      ShareIndexIs(shares, lender);
      if at.Some? {
        shares := shares[at.value := Share(lender, shares[at.value].deposited + amount)];
      } else {
        shares := shares + [Share(lender, amount)];
      }
      r := Ok(amount);
    }

    method BorrowFromPool(borrower: string, request: BorrowRequest, eligible: bool, proofOk: bool, loanId: string,
                          now: nat)
      returns (r: Result<Loan, Error>)
      requires borrower in users
      modifies this
      ensures borrower in old(users)
      ensures (Stored(), r) == Borrow(sha, old(Stored()), borrower, request, eligible, proofOk, loanId, now)
    {
      hide BalanceNullifier, CreditIdentity;
      if !(request.amount > 0) || !(request.collateral > 0) { return Err(AmountNotPositive); }
      if 2 * request.collateral < 3 * request.amount { return Err(UnderCollateralized); }
      if !eligible { return Err(NotEligible); }
      if request.amount > poolTotal - poolOutstanding { return Err(InsufficientLiquidity); }
      if request.oldCommitment != users[borrower].commitment { return Err(StaleCommitment); }
      if users[borrower].credential == "" { return Err(NoCredential); }
      var identity := CreditIdentity(sha, users[borrower].credential);
      if !proofOk { return Err(ProofFailed); }
      var nf := BalanceNullifier(sha, users[borrower].commitment);
      if nf in spentNullifiers { return Err(NullifierSpent); }
      spentNullifiers := spentNullifiers + [nf];
      var nf2 := BalanceNullifier(sha, request.newCommitment);
      if nf2 in spentNullifiers { return Err(DisbursementConflict); }
      spentNullifiers := spentNullifiers + [nf2];
      users := users[borrower := users[borrower].(commitment := request.disbursedCommitment)];
      poolOutstanding := poolOutstanding + request.amount;
      var loan := NewLoan(request, loanId, identity, borrower, config, now);
      loans := loans + [loan];
      if identity !in standing {
        standing := standing[identity := Standing(0, 0, [])];
      }
      standing := standing[identity := standing[identity].(loanIds := standing[identity].loanIds + [loanId])];
      assert standing == old(standing)[identity := standing[identity]];
      r := Ok(loan);
    }

    method RepayLoan(borrower: string, loanId: string, oldCommitment: string, newCommitment: string, witnessAmount: int,
                     proofOk: bool, now: nat) returns (r: Result<Loan, Error>)
      requires borrower in users
      requires forall l :: l in loans ==> l.creditIdentity in standing
      modifies this
      ensures borrower in old(users)
      ensures (Stored(), r)
        == Repay(sha, old(Stored()), borrower, loanId, oldCommitment, newCommitment, witnessAmount, proofOk, now)
    {
      hide CreditIdentity, InstallmentNullifier, WriteRepayment;
      var at := LoanIndex(loans, loanId);
      LoanIndexIs(loans, loanId);
      if at == None { return Err(LoanNotFound); }
      var i, loan := at.value, loans[at.value];
      assert loan in loans;
      if loan.borrower != borrower { return Err(NotYourLoan); }
      if loan.status != Active { return Err(LoanNotActive); }
      if oldCommitment != users[borrower].commitment { return Err(StaleCommitment); }
      if users[borrower].credential == "" { return Err(NoCredential); }
      var identity := CreditIdentity(sha, users[borrower].credential);
      if identity != loan.creditIdentity { return Err(IdentityMismatch); }
      var pay := Min(loan.installment, loan.remaining);
      if witnessAmount != pay { return Err(WitnessMismatch); }
      var instNf := InstallmentNullifier(sha, loan.id, loan.installmentsPaid, identity);
      if instNf in spentInstallments { return Err(InstallmentCounted); }
      if !proofOk { return Err(ProofFailed); }
      r := FinishRepayment(borrower, i, loan, instNf, newCommitment, now);
    }

    /** What a repayment does once its proof has arrived, whatever happened to the loan since it was checked. */
    method FinishRepayment(borrower: string, i: nat, taken: Loan, instNf: string, newCommitment: string, now: nat)
      returns (r: Result<Loan, Error>)
      requires borrower in users && i < |loans| && loans[i].creditIdentity in standing
      requires instNf == InstallmentNullifier(sha, taken.id, taken.installmentsPaid, taken.creditIdentity)
      modifies this
      ensures borrower in old(users) && i < |old(loans)|
      ensures (Stored(), r) == WriteRepayment(sha, old(Stored()), borrower, i, taken, newCommitment, now)
    {
      hide BalanceNullifier, InstallmentNullifier, PaidAs;
      if BalanceNullifier(sha, users[borrower].commitment) in spentNullifiers { return Err(NullifierSpent); }
      MoveAccount(borrower, newCommitment);
      var loan := RecordInstallment(i, taken, instNf, now);
      r := Ok(loan);
    }

    /** The part of a repayment that touches the loan and the pool. */
    method RecordInstallment(i: nat, taken: Loan, instNf: string, now: nat) returns (loan: Loan)
      requires i < |loans| && loans[i].creditIdentity in standing
      modifies this`loans, this`standing, this`spentInstallments, this`poolOutstanding
      ensures i < |old(loans)| && loan == PaidAs(old(loans)[i], taken, instNf, config.installmentPeriodMs, now)
      ensures loans == old(loans)[i := loan]
      ensures spentInstallments == old(spentInstallments) + [instNf]
      ensures poolOutstanding == Max(0, old(poolOutstanding) - Due(taken))
      ensures var l := old(loans)[i];
        var st := GetStanding(old(standing), l.creditIdentity);
        standing == if now <= l.dueNextAt + ON_TIME_SLACK_MS
          then old(standing)[l.creditIdentity := st.(onTime := st.onTime + 1)]
          else old(standing)
    {
      var pay := Min(taken.installment, taken.remaining);
      var remainingNew := taken.remaining - pay;
      loan := loans[i];
      var identity := loan.creditIdentity;
      var onTime := now <= loan.dueNextAt + ON_TIME_SLACK_MS;
      loan := loan.(remaining := remainingNew);
      loan := loan.(installmentsPaid := loan.installmentsPaid + 1, nullifiers := loan.nullifiers + [instNf]);
      spentInstallments := spentInstallments + [instNf];
      loan := loan.(dueNextAt := now + config.installmentPeriodMs);
      poolOutstanding := Max(0, poolOutstanding - pay);
      if onTime {
        standing := standing[identity := standing[identity].(onTime := standing[identity].onTime + 1)];
      } else {
        loan := loan.(missed := loan.missed + 1);
      }
      if loan.remaining == 0 { loan := loan.(status := Repaid); }
      loans := loans[i := loan];
    }

    method LiquidateIfDue(loanId: string, now: nat) returns (r: Result<Loan, Error>)
      modifies this
      ensures (Stored(), r) == Liquidate(old(Stored()), loanId, now)
    {
      var at := LoanIndex(loans, loanId);
      LoanIndexIs(loans, loanId);
      if at == None { return Err(LoanNotFound); }
      var i, loan := at.value, loans[at.value];
      if loan.status != Active { return Err(LoanNotActive); }
      if now <= loan.dueNextAt { return Err(NotOverdue); }
      loan := loan.(missed := loan.missed + 1);
      loan := loan.(dueNextAt := now + config.installmentPeriodMs);
      if loan.missed > loan.grace {
        loan := loan.(status := Liquidated);
        if loan.creditIdentity !in standing {
          standing := standing[loan.creditIdentity := Standing(0, 0, [])];
        }
        var st := standing[loan.creditIdentity];
        standing := standing[loan.creditIdentity := st.(defaults := st.defaults + 1)];
        assert standing == old(standing)[loan.creditIdentity := standing[loan.creditIdentity]];
        poolOutstanding := Max(0, poolOutstanding - loan.remaining);
        poolTotal := poolTotal + loan.collateral;
        loan := loan.(remaining := 0);
      }
      loans := loans[i := loan];
      r := Ok(loan);
    }
  }
}
