/** What each answer of the lending pool says, condition by condition, and what it writes. */
module CreditOutcomes {
  import opened Wrappers
  import opened Text
  import opened Credit
  import opened CreditSafety

  /** The commitment an account has, as its nullifier is recorded. */
  function Nullifier(sha: string -> string, b: Bank, user: string): string
    requires user in b.users
  {
    sha("balnf:" + b.users[user].commitment)
  }

  /** A deposit is accepted exactly for a positive amount that the witness repeats, the account's commitment, a proof
      and an unspent nullifier. It moves the account and raises the total and its lender's share, no other lender's. */
  lemma DepositedIff(sha: string -> string, b: Bank, lender: string, amount: int, oldC: string, newC: string, w: int,
                     ok: bool, other: string)
    requires lender in b.users
    ensures var (b', r) := Deposit(sha, b, lender, amount, oldC, newC, w, ok);
      && (r.Ok? <==>
        && amount > 0 && oldC == b.users[lender].commitment && w == amount && ok
        && Nullifier(sha, b, lender) !in b.spent)
      && (r.Ok? ==>
        && r.value == amount && b'.users == b.users[lender := b.users[lender].(commitment := newC)]
        && b'.spent == b.spent + [Nullifier(sha, b, lender)]
        && b'.pool == b.pool.(total := b.pool.total + amount, shares := b'.pool.shares)
        && DepositedBy(b'.pool.shares, other)
          == DepositedBy(b.pool.shares, other) + if other == lender then amount else 0)
      && (r.Err? ==>
        && b' == b
        && match r.error
           case AmountNotPositive => amount <= 0
           case StaleCommitment => amount > 0 && oldC != b.users[lender].commitment
           case WitnessMismatch => amount > 0 && oldC == b.users[lender].commitment && w != amount
           case ProofFailed => w == amount > 0 && oldC == b.users[lender].commitment && !ok
           case NullifierSpent => Nullifier(sha, b, lender) in b.spent && ok
           case _ => false)
  {
    AddShareTo(b.pool.shares, lender, amount, other);
  }

  /** A loan is granted exactly for positive amounts, collateral of one and a half times the loan, an eligible borrower
      with a credential and the account's commitment, enough liquidity, a proof, and two unspent nullifiers. */
  lemma BorrowedIff(sha: string -> string, b: Bank, borrower: string, q: BorrowRequest, eligible: bool, ok: bool,
                    id: string, now: nat)
    requires borrower in b.users
    ensures var (b', r) := Borrow(sha, b, borrower, q, eligible, ok, id, now);
      var (u, nf, locked) := (b.users[borrower], Nullifier(sha, b, borrower), sha("balnf:" + q.newCommitment));
      var sound := q.amount > 0 && q.collateral > 0;
      var covered := sound && 2 * q.collateral >= 3 * q.amount;
      var liquid := covered && eligible && q.amount <= b.pool.total - b.pool.outstanding;
      var proved := liquid && q.oldCommitment == u.commitment && u.credential != "" && ok;
      && (r.Ok? <==> proved && nf !in b.spent && locked !in b.spent && locked != nf)
      && (r.Err? ==>
        && (b' != b ==> r.error == DisbursementConflict)
        && match r.error
           case AmountNotPositive => !sound
           case UnderCollateralized => sound && !covered
           case NotEligible => covered && !eligible
           case InsufficientLiquidity => covered && eligible && !liquid
           case StaleCommitment => liquid && q.oldCommitment != u.commitment
           case NoCredential => liquid && q.oldCommitment == u.commitment && u.credential == ""
           case ProofFailed => liquid && q.oldCommitment == u.commitment && u.credential != "" && !ok
           case NullifierSpent => proved && nf in b.spent
           case DisbursementConflict => proved && nf !in b.spent && (locked in b.spent || locked == nf)
           case _ => false)
  {
  }

  /** What a granted loan writes: the disbursed commitment, both nullifiers, and an active loan of the whole amount over
      at least one installment, due one period from now, listed under the borrower's credit identity. */
  lemma LoanWritten(sha: string -> string, b: Bank, borrower: string, q: BorrowRequest, eligible: bool, ok: bool,
                    id: string, now: nat)
    requires borrower in b.users && Borrow(sha, b, borrower, q, eligible, ok, id, now).1.Ok?
    ensures var (b', l) := (Borrow(sha, b, borrower, q, eligible, ok, id, now).0,
                            Borrow(sha, b, borrower, q, eligible, ok, id, now).1.value);
      var (u, n) := (b.users[borrower], if q.installments < 1 then 1 else q.installments);
      var identity := sha("circled:credit-scope-salt:v1|" + u.credential);
      var st := if identity in b.pool.standing then b.pool.standing[identity] else Standing(0, 0, []);
      && b'.users == b.users[borrower := u.(commitment := q.disbursedCommitment)]
      && b'.spent == b.spent + [Nullifier(sha, b, borrower), sha("balnf:" + q.newCommitment)]
      && l.id == id && l.borrower == borrower && l.creditIdentity == identity
      && l.amount == l.remaining == q.amount && l.collateral == q.collateral
      && l.installmentsTotal == n && n * l.installment >= q.amount > n * (l.installment - 1)
      && l.installmentsPaid == 0 && l.missed == 0 && l.nullifiers == [] && l.status == Active
      && l.grace == b.pool.config.gracePeriodMisses
      && l.createdAt == now && l.dueNextAt == now + b.pool.config.installmentPeriodMs
      && b'.pool == b.pool.(
           outstanding := b.pool.outstanding + q.amount, loans := b.pool.loans + [l],
           standing := b.pool.standing[identity := st.(loanIds := st.loanIds + [id])])
  {
    hide CeilDiv, BalanceNullifier;
    CeilDivIs(q.amount, Terms(q));
    SpentBoth(sha, b, borrower, q, eligible, ok, id, now);
  }

  lemma SpentBoth(sha: string -> string, b: Bank, borrower: string, q: BorrowRequest, eligible: bool, ok: bool,
                  id: string, now: nat)
    requires borrower in b.users && Borrow(sha, b, borrower, q, eligible, ok, id, now).1.Ok?
    ensures Borrow(sha, b, borrower, q, eligible, ok, id, now).0.spent
      == b.spent + [Nullifier(sha, b, borrower), sha("balnf:" + q.newCommitment)]
  {
    hide NewLoan, BorrowCheck;
  }

  /** The loan's next payment: one installment, or what is left. */
  function NextPayment(l: Loan): int { if l.installment <= l.remaining then l.installment else l.remaining }

  function NextNullifier(sha: string -> string, l: Loan, identity: string): string {
    sha("instnf:" + l.id + "|" + Decimal(l.installmentsPaid) + "|" + identity)
  }

  /** A repayment is accepted exactly for an active loan of the borrower, the account's commitment, the credential the
      loan was granted to, the next payment, an installment not counted yet, a proof and an unspent nullifier. */
  lemma RepaidIff(sha: string -> string, b: Bank, borrower: string, loanId: string, oldC: string, newC: string, w: int,
                  ok: bool, now: nat)
    requires borrower in b.users
    ensures var (b', r) := Repay(sha, b, borrower, loanId, oldC, newC, w, ok, now);
      var (u, at) := (b.users[borrower], LoanIndex(b.pool.loans, loanId));
      && (at.Some? ==> at.value < |b.pool.loans| && b.pool.loans[at.value].id == loanId)
      && (r.Ok? <==>
        at.Some? && var l := b.pool.loans[at.value];
        && l.borrower == borrower && l.status == Active && oldC == u.commitment && u.credential != ""
        && l.creditIdentity == sha("circled:credit-scope-salt:v1|" + u.credential)
        && w == NextPayment(l) && NextNullifier(sha, l, l.creditIdentity) !in b.pool.spentInstallments
        && ok && Nullifier(sha, b, borrower) !in b.spent)
      && (r.Err? ==>
        && b' == b
        && match r.error
           case LoanNotFound => at == None
           case NotYourLoan => at.Some? && b.pool.loans[at.value].borrower != borrower
           case LoanNotActive =>
             && at.Some? && b.pool.loans[at.value].borrower == borrower && b.pool.loans[at.value].status != Active
           case StaleCommitment => at.Some? && b.pool.loans[at.value].status == Active && oldC != u.commitment
           case NoCredential => oldC == u.commitment && u.credential == ""
           case IdentityMismatch =>
             && at.Some? && u.credential != ""
             && b.pool.loans[at.value].creditIdentity != sha("circled:credit-scope-salt:v1|" + u.credential)
           case WitnessMismatch => at.Some? && u.credential != "" && w != NextPayment(b.pool.loans[at.value])
           case InstallmentCounted =>
             && at.Some? && w == NextPayment(b.pool.loans[at.value])
             && NextNullifier(sha, b.pool.loans[at.value], b.pool.loans[at.value].creditIdentity)
                  in b.pool.spentInstallments
           case ProofFailed => at.Some? && w == NextPayment(b.pool.loans[at.value]) && !ok
           case NullifierSpent => ok && Nullifier(sha, b, borrower) in b.spent
           case _ => false)
  {
    hide PaidAs, Decimal;
    LoanIndexIs(b.pool.loans, loanId);
  }

  /** What an accepted repayment writes. One more than a day late counts as a miss and the others as on time; the last
      one closes the loan. */
  lemma PaymentWritten(sha: string -> string, b: Bank, borrower: string, loanId: string, oldC: string, newC: string,
                       w: int, ok: bool, now: nat)
    requires borrower in b.users && Repay(sha, b, borrower, loanId, oldC, newC, w, ok, now).1.Ok?
    ensures LoanIndex(b.pool.loans, loanId).Some? && LoanIndex(b.pool.loans, loanId).value < |b.pool.loans|
    ensures var (b', l') := (Repay(sha, b, borrower, loanId, oldC, newC, w, ok, now).0,
                             Repay(sha, b, borrower, loanId, oldC, newC, w, ok, now).1.value);
      var at := LoanIndex(b.pool.loans, loanId).value;
      var (l, p, late) := (b.pool.loans[at], b.pool, now > b.pool.loans[at].dueNextAt + 86_400_000);
      var st := if l.creditIdentity in p.standing then p.standing[l.creditIdentity] else Standing(0, 0, []);
      && b'.users == b.users[borrower := b.users[borrower].(commitment := newC)]
      && b'.spent == b.spent + [Nullifier(sha, b, borrower)]
      && l'.missed == l.missed + (if late then 1 else 0)
      && l'.remaining == l.remaining - w && l'.installmentsPaid == l.installmentsPaid + 1
      && l'.nullifiers == l.nullifiers + [NextNullifier(sha, l, l.creditIdentity)]
      && l'.dueNextAt == now + p.config.installmentPeriodMs
      && l'.status == (if l.remaining == w then Repaid else Active)
      && l' == l.(missed := l'.missed, remaining := l'.remaining, installmentsPaid := l'.installmentsPaid,
                  nullifiers := l'.nullifiers, dueNextAt := l'.dueNextAt, status := l'.status)
      && b'.pool == p.(
           outstanding := if p.outstanding < w then 0 else p.outstanding - w, loans := p.loans[at := l'],
           spentInstallments := p.spentInstallments + [NextNullifier(sha, l, l.creditIdentity)],
           standing := if late then p.standing
             else p.standing[l.creditIdentity := st.(onTime := st.onTime + 1)])
  {
    hide Decimal, CreditIdentity;
    LoanIndexIs(b.pool.loans, loanId);
  }

  /** A miss is recorded exactly for an active loan past its due date. The miss past the grace period closes the loan:
      nothing is owed any more, the collateral joins the total, and the borrower has one more default. */
  lemma LiquidatedIff(b: Bank, loanId: string, now: nat)
    ensures var (b', r) := Liquidate(b, loanId, now);
      var at := LoanIndex(b.pool.loans, loanId);
      && (at.Some? ==> at.value < |b.pool.loans| && b.pool.loans[at.value].id == loanId)
      && (r.Ok? <==>
        at.Some? && b.pool.loans[at.value].status == Active && now > b.pool.loans[at.value].dueNextAt)
      && (r.Err? ==>
        && b' == b
        && match r.error
           case LoanNotFound => at == None
           case LoanNotActive => at.Some? && b.pool.loans[at.value].status != Active
           case NotOverdue => at.Some? && b.pool.loans[at.value].status == Active
           case _ => false)
  {
    LoanIndexIs(b.pool.loans, loanId);
  }

  lemma MissWritten(b: Bank, loanId: string, now: nat)
    requires Liquidate(b, loanId, now).1.Ok?
    ensures LoanIndex(b.pool.loans, loanId).Some? && LoanIndex(b.pool.loans, loanId).value < |b.pool.loans|
    ensures var (b', l') := (Liquidate(b, loanId, now).0, Liquidate(b, loanId, now).1.value);
      var at := LoanIndex(b.pool.loans, loanId).value;
      var (l, p) := (b.pool.loans[at], b.pool);
      var closed := l.missed + 1 > l.grace;
      var st := if l.creditIdentity in p.standing then p.standing[l.creditIdentity] else Standing(0, 0, []);
      && l' == l.(missed := l.missed + 1, dueNextAt := now + p.config.installmentPeriodMs,
                  status := if closed then Liquidated else Active, remaining := if closed then 0 else l.remaining)
      && b' == b.(pool := b'.pool)
      && b'.pool == if closed then p.(
             outstanding := if p.outstanding < l.remaining then 0 else p.outstanding - l.remaining,
             total := p.total + l.collateral, loans := p.loans[at := l'],
             standing := p.standing[l.creditIdentity := st.(defaults := st.defaults + 1)])
           else p.(loans := p.loans[at := l'])
  {
    LoanIndexIs(b.pool.loans, loanId);
  }

  /** An empty store gets a pool with the seed, two misses of grace and weekly installments; a stored pool gets the seed
      exactly when it was never used. */
  lemma OpenedIff(stored: Option<Pool>, seed: nat)
    ensures match stored
      case None => OpenPool(stored, seed) == Pool(seed, 0, [], [], map[], [], Config(2, 7 * 24 * 3600 * 1000))
      case Some(p) =>
        OpenPool(stored, seed) ==
          if p.total == 0 && p.outstanding == 0 && p.shares == [] && p.loans == [] then p.(total := seed) else p
  {
  }
}
