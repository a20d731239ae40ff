/** Commitments and nullifiers across every operation that moves an account: settlements, pool deposits, loans,
    repayments, note claims, reseals and received credits, in any order and over all users. */
module Funding {
  import opened Wrappers
  import opened Sequences
  import opened Settlement
  import Credit

  datatype Store = Store(ledger: Ledger, pool: Credit.Pool)

  function BankOf(s: Store): Credit.Bank { Credit.Bank(s.ledger.users, s.ledger.spent, s.pool) }

  function WithBank(s: Store, b: Credit.Bank): Store { Store(s.ledger.(users := b.users, spent := b.spent), b.pool) }

  datatype Op =
    | SettleOp(user: string, input: SettleInput, facts: Facts)
    | DepositOp(user: string, amount: int, oldC: string, newC: string, amountWitness: int, proofOk: bool)
    | BorrowOp(user: string, request: Credit.BorrowRequest, eligible: bool, proofOk: bool, loanId: string, now: nat)
    | RepayOp(user: string, loanId: string, oldC: string, newC: string, amountWitness: int, proofOk: bool, now: nat)
    | ClaimOp(user: string, noteId: string, newC: string)
    | ResealOp(user: string, oldC: string, newC: string)
    | ReceiveOp(user: string, oldC: string, newC: string)

  predicate Enabled(s: Store, op: Op) { op.user in s.ledger.users }

  /** The store after the operation, and whether it was a settlement, deposit, loan or repayment that succeeded. */
  function Apply(sha: string -> string, s: Store, op: Op): (Store, bool)
    requires Enabled(s, op)
  {
    match op
    case SettleOp(u, inp, f) =>
      var (l, r) := Settle(sha, s.ledger, u, inp, f);
      (s.(ledger := l), r.Ok?)
    case DepositOp(u, amount, o, n, w, ok) =>
      var (b, r) := Credit.Deposit(sha, BankOf(s), u, amount, o, n, w, ok);
      (WithBank(s, b), r.Ok?)
    case BorrowOp(u, request, eligible, ok, id, now) =>
      var (b, r) := Credit.Borrow(sha, BankOf(s), u, request, eligible, ok, id, now);
      (WithBank(s, b), r.Ok?)
    case RepayOp(u, id, o, n, w, ok, now) =>
      var (b, r) := Credit.Repay(sha, BankOf(s), u, id, o, n, w, ok, now);
      (WithBank(s, b), r.Ok?)
    case ClaimOp(u, id, n) => (s.(ledger := ClaimNote(sha, s.ledger, u, id, n).0), false)
    case ResealOp(u, o, n) => (s.(ledger := Reseal(sha, s.ledger, u, o, n).0), false)
    case ReceiveOp(u, o, n) => (s.(ledger := ReceiveCredit(sha, s.ledger, u, o, n).0), false)
  }

  function NullifierOf(sha: string -> string, l: Ledger, user: string): string
    requires user in l.users
  {
    Credit.BalanceNullifier(sha, l.users[user].commitment)
  }

  /** Nullifiers are only appended and stay distinct; an account keeps its commitment or has its nullifier recorded. */
  ghost predicate Moved(sha: string -> string, l: Ledger, l': Ledger) {
    && l.spent <= l'.spent && (NoDuplicates(l.spent) ==> NoDuplicates(l'.spent))
    && l.users.Keys == l'.users.Keys
    && (forall u :: u in l.users ==>
         l'.users[u].commitment == l.users[u].commitment || NullifierOf(sha, l, u) in l'.spent)
  }

  /** An operation that records the account's nullifier, and perhaps one more, before moving the account. */
  lemma MovedBy(sha: string -> string, l: Ledger, l': Ledger, user: string, more: seq<string>)
    requires user in l.users && |more| <= 1 && NullifierOf(sha, l, user) !in l.spent
    requires |more| == 1 ==> more[0] !in l.spent + [NullifierOf(sha, l, user)]
    requires l'.spent == l.spent + [NullifierOf(sha, l, user)] + more
    requires l'.users.Keys == l.users.Keys && forall u :: u in l.users && u != user ==> l'.users[u] == l.users[u]
    ensures Moved(sha, l, l')
  {
    hide NullifierOf, NoDuplicates;
    NoDuplicatesAppend(l.spent, NullifierOf(sha, l, user));
    if |more| == 1 {
      NoDuplicatesAppend(l.spent + [NullifierOf(sha, l, user)], more[0]);
      assert more == [more[0]];
    } else {
      assert l'.spent == l.spent + [NullifierOf(sha, l, user)];
    }
  }

  lemma Unmoved(sha: string -> string, l: Ledger, l': Ledger)
    requires l'.users == l.users && l'.spent == l.spent
    ensures Moved(sha, l, l')
  {
    hide NullifierOf, NoDuplicates;
  }

  lemma MoveAccountMoves(sha: string -> string, l: Ledger, user: string, newC: string)
    requires user in l.users
    ensures Moved(sha, l, MoveAccount(sha, l, user, newC))
  {
    hide NoDuplicates, Credit.BalanceNullifier;
    NoDuplicatesAppend(l.spent, NullifierOf(sha, l, user));
  }

  lemma SettleMoves(sha: string -> string, s: Store, u: string, inp: SettleInput, f: Facts)
    requires u in s.ledger.users
    ensures var (l', r) := Settle(sha, s.ledger, u, inp, f);
      Moved(sha, s.ledger, l')
      && (r.Ok? ==> NullifierOf(sha, s.ledger, u) !in s.ledger.spent && NullifierOf(sha, s.ledger, u) in l'.spent)
  {
    hide Credit.BalanceNullifier, Moved, Closed, Refused, NoDuplicates;
    var l' := Settle(sha, s.ledger, u, inp, f).0;
    if Decide(sha, s.ledger, u, inp, f) == None {
      assert inp.spendNullifier == NullifierOf(sha, s.ledger, u);
      assert l'.spent == s.ledger.spent + [NullifierOf(sha, s.ledger, u)] + [];
      MovedBy(sha, s.ledger, l', u, []);
    } else {
      Unmoved(sha, s.ledger, l');
    }
  }

  lemma CreditMoves(sha: string -> string, s: Store, op: Op)
    requires Enabled(s, op) && (op.DepositOp? || op.BorrowOp? || op.RepayOp?)
    ensures var (s', funded) := Apply(sha, s, op);
      Moved(sha, s.ledger, s'.ledger)
      && (funded ==>
           NullifierOf(sha, s.ledger, op.user) !in s.ledger.spent
           && NullifierOf(sha, s.ledger, op.user) in s'.ledger.spent)
  {
    hide Credit.BalanceNullifier, Moved, NoDuplicates, Credit.BorrowCheck, Credit.RepayCheck, Credit.AddShare,
      Credit.NewLoan, Credit.Paid;
    var s' := Apply(sha, s, op).0;
    var l, l', nf := s.ledger, s'.ledger, NullifierOf(sha, s.ledger, op.user);
    if l'.users == l.users && l'.spent == l.spent {
      Unmoved(sha, l, l');
    } else if op.BorrowOp? && Apply(sha, s, op).1 {
      var nf2 := Credit.BalanceNullifier(sha, op.request.newCommitment);
      MovedBy(sha, l, l', op.user, [nf2]);
    } else {
      assert l'.spent == l.spent + [nf] + [];
      MovedBy(sha, l, l', op.user, []);
    }
  }

  lemma StepMoves(sha: string -> string, s: Store, op: Op)
    requires Enabled(s, op)
    ensures var (s', funded) := Apply(sha, s, op);
      Moved(sha, s.ledger, s'.ledger)
      && (funded ==>
           NullifierOf(sha, s.ledger, op.user) !in s.ledger.spent
           && NullifierOf(sha, s.ledger, op.user) in s'.ledger.spent)
  {
    hide Credit.BalanceNullifier, Moved, NullifierOf, MoveAccount, Settle;
    match op
    case SettleOp(u, inp, f) => SettleMoves(sha, s, u, inp, f);
    case DepositOp(_, _, _, _, _, _) => CreditMoves(sha, s, op);
    case BorrowOp(_, _, _, _, _, _) => CreditMoves(sha, s, op);
    case RepayOp(_, _, _, _, _, _, _) => CreditMoves(sha, s, op);
    case ClaimOp(u, id, n) =>
      UnclaimedIndexIs(s.ledger.notes, id);
      Unmoved(sha, s.ledger, s.ledger);
      if ClaimNote(sha, s.ledger, u, id, n).1 == None {
        var i := UnclaimedIndex(s.ledger.notes, id).value;
        var noted := s.ledger.(notes := s.ledger.notes[i := s.ledger.notes[i].(claimed := true)]);
        MoveAccountMoves(sha, noted, u, n);
        MovedNotes(sha, s.ledger, noted, MoveAccount(sha, noted, u, n));
      }
    case ResealOp(u, o, n) => Unmoved(sha, s.ledger, s.ledger); MoveAccountMoves(sha, s.ledger, u, n);
    case ReceiveOp(u, o, n) => Unmoved(sha, s.ledger, s.ledger); MoveAccountMoves(sha, s.ledger, u, n);
  }

  lemma MovedNotes(sha: string -> string, l: Ledger, noted: Ledger, l': Ledger)
    requires Moved(sha, noted, l') && noted.users == l.users && noted.spent == l.spent
    ensures Moved(sha, l, l')
  {
    assert forall u :: u in l.users ==> NullifierOf(sha, l, u) == NullifierOf(sha, noted, u);
  }

  /* Runs */

  ghost predicate Run(sha: string -> string, ss: seq<Store>, ops: seq<Op>) {
    && |ss| == |ops| + 1 && ss[0].ledger.spent == []
    && forall k :: 0 <= k < |ops| ==> Enabled(ss[k], ops[k]) && ss[k + 1] == Apply(sha, ss[k], ops[k]).0
  }

  lemma RunStart(sha: string -> string, ss: seq<Store>, ops: seq<Op>)
    requires Run(sha, ss, ops)
    ensures |ss| == |ops| + 1 && NoDuplicates(ss[0].ledger.spent)
  {
    hide Apply, Enabled;
  }

  lemma RunStep(sha: string -> string, ss: seq<Store>, ops: seq<Op>, k: nat)
    requires Run(sha, ss, ops) && k < |ops|
    ensures k + 1 < |ss| && Enabled(ss[k], ops[k]) && ss[k + 1] == Apply(sha, ss[k], ops[k]).0
  {
    hide Apply, Enabled;
  }

  lemma {:induction false} RunGrows(sha: string -> string, ss: seq<Store>, ops: seq<Op>, i: nat, j: nat)
    requires Run(sha, ss, ops) && i <= j < |ss|
    ensures ss[i].ledger.spent <= ss[j].ledger.spent && ss[i].ledger.users.Keys == ss[j].ledger.users.Keys
  {
    hide Apply, Enabled;
    if i < j {
      RunGrows(sha, ss, ops, i, j - 1);
      StepMoves(sha, ss[j - 1], ops[j - 1]);
    }
  }

  /** The spent nullifiers never repeat. */
  lemma {:induction false} NeverDuplicated(sha: string -> string, ss: seq<Store>, ops: seq<Op>, k: nat)
    requires Run(sha, ss, ops) && k < |ss|
    ensures NoDuplicates(ss[k].ledger.spent)
  {
    hide Run, Apply, Enabled, NoDuplicates, NullifierOf;
    RunStart(sha, ss, ops);
    if k > 0 {
      NeverDuplicated(sha, ss, ops, k - 1);
      RunStep(sha, ss, ops, k - 1);
      StepMoves(sha, ss[k - 1], ops[k - 1]);
    }
  }

  /** Whatever users they belong to, two successful settlements, deposits, loans or repayments spend different
      commitments. */
  lemma CommitmentFundsOnce(sha: string -> string, ss: seq<Store>, ops: seq<Op>, i: nat, j: nat)
    requires Run(sha, ss, ops) && i < j < |ops|
    requires Enabled(ss[i], ops[i]) && Apply(sha, ss[i], ops[i]).1
    requires Enabled(ss[j], ops[j]) && Apply(sha, ss[j], ops[j]).1
    ensures ss[i].ledger.users[ops[i].user].commitment != ss[j].ledger.users[ops[j].user].commitment
  {
    hide Run, Apply, Enabled, Moved;
    RunStep(sha, ss, ops, i);
    RunStep(sha, ss, ops, j);
    RunGrows(sha, ss, ops, i + 1, j);
    StepMoves(sha, ss[i], ops[i]);
    StepMoves(sha, ss[j], ops[j]);
  }

  /** A commitment that an account had and no longer has is recorded as spent. */
  lemma {:induction false} LeftIsSpent(sha: string -> string, ss: seq<Store>, ops: seq<Op>, i: nat, j: nat,
                                       user: string)
    requires Run(sha, ss, ops) && i <= j < |ss| && user in ss[i].ledger.users
    ensures user in ss[j].ledger.users
    ensures ss[j].ledger.users[user].commitment != ss[i].ledger.users[user].commitment ==>
      NullifierOf(sha, ss[i].ledger, user) in ss[j].ledger.spent
    decreases j
  {
    hide Apply, Enabled;
    if i < j {
      LeftIsSpent(sha, ss, ops, i, j - 1, user);
      StepMoves(sha, ss[j - 1], ops[j - 1]);
      RunGrows(sha, ss, ops, j - 1, j);
    }
  }

  /* Loans refused on their second nullifier */

  /** The request passes every check and the first nullifier, but the second is spent already, if only by the first:
      the commitment after the lock was spent before or is the account's own. */
  predicate Conflicts(sha: string -> string, b: Credit.Bank, u: string, r: Credit.BorrowRequest, eligible: bool,
                      ok: bool)
    requires u in b.users
  {
    var nf := Credit.BalanceNullifier(sha, b.users[u].commitment);
    && Credit.BorrowCheck(b, u, r, eligible) == None && ok
    && nf !in b.spent && Credit.BalanceNullifier(sha, r.newCommitment) in b.spent + [nf]
  }

  /** A refused loan changes the store exactly when its second nullifier conflicts; it then leaves the first one
      recorded. */
  lemma RefusedLoanWritesIff(sha: string -> string, b: Credit.Bank, u: string, r: Credit.BorrowRequest, eligible: bool,
                             ok: bool,
                             id: string, now: nat)
    requires u in b.users
    ensures var (b', result) := Credit.Borrow(sha, b, u, r, eligible, ok, id, now);
      && (result.Err? && b' != b <==> Conflicts(sha, b, u, r, eligible, ok))
      && (Conflicts(sha, b, u, r, eligible, ok) ==> (
        && result == Err(Credit.DisbursementConflict)
        && b' == b.(spent := b.spent + [Credit.BalanceNullifier(sha, b.users[u].commitment)])))
  {
    hide Credit.BalanceNullifier, Credit.BorrowCheck, Credit.NewLoan, Credit.CreditIdentity;
    var nf := Credit.BalanceNullifier(sha, b.users[u].commitment);
    assert |b.spent + [nf]| != |b.spent|;
  }

  /** A first request whose locked commitment is the account's own conflicts. */
  lemma ConflictHappens(sha: string -> string, id: string, now: nat)
    ensures var b := Credit.Bank(map["u" := Credit.Account("k", "0", "", "")], [], Credit.OpenPool(None, 100));
      var request := Credit.BorrowRequest(100, 150, 4, "0", "0", "1");
      var (b', result) := Credit.Borrow(sha, b, "u", request, true, true, id, now);
      result == Err(Credit.DisbursementConflict) && b' != b && b'.users == b.users
  {
    hide Credit.BalanceNullifier;
    var b := Credit.Bank(map["u" := Credit.Account("k", "0", "", "")], [], Credit.OpenPool(None, 100));
    RefusedLoanWritesIff(sha, b, "u", Credit.BorrowRequest(100, 150, 4, "0", "0", "1"), true, true, id, now);
  }

  function CommitmentOf(s: Store, user: string): Option<string> {
    if user in s.ledger.users then Some(s.ledger.users[user].commitment) else None
  }

  /** The operations that move an account without spending from it. */
  predicate Refreshes(op: Op) { op.ClaimOp? || op.ResealOp? || op.ReceiveOp? }

  /** A settlement, deposit, loan or repayment that does not succeed moves no account, and no operation moves another
      user's account. */
  lemma StaysPut(sha: string -> string, s: Store, op: Op, user: string)
    requires Enabled(s, op)
    requires op.user != user || (!Refreshes(op) && !Apply(sha, s, op).1)
    ensures CommitmentOf(Apply(sha, s, op).0, user) == CommitmentOf(s, user)
  {
    hide Credit.BalanceNullifier, Credit.BorrowCheck, Credit.RepayCheck, Credit.AddShare, Credit.NewLoan, Credit.Paid,
      Decide, Closed, Refused;
  }

  /** The account keeps the commitment its refused loan recorded as spent. */
  ghost predicate Stranded(sha: string -> string, s: Store, user: string, commitment: string) {
    CommitmentOf(s, user) == Some(commitment) && Credit.BalanceNullifier(sha, commitment) in s.ledger.spent
  }

  lemma StrandedStep(sha: string -> string, s: Store, op: Op, user: string, commitment: string)
    requires Enabled(s, op) && Stranded(sha, s, user, commitment)
    requires Refreshes(op) && op.user == user ==> CommitmentOf(Apply(sha, s, op).0, user) == CommitmentOf(s, user)
    ensures op.user == user ==> !Apply(sha, s, op).1
    ensures Stranded(sha, Apply(sha, s, op).0, user, commitment)
  {
    hide Apply, Enabled, Credit.BalanceNullifier, Refreshes;
    StepMoves(sha, s, op);
    if op.user != user || !Refreshes(op) { StaysPut(sha, s, op, user); }
  }

  /** A loan refused on its second nullifier strands its account: until a claim, a reseal or a received credit of that
      user gives it another commitment, the account keeps one that is recorded as spent, and none of its settlements,
      deposits, loans or repayments succeeds. */
  lemma {:induction false} RefusedLoanStrands(sha: string -> string, ss: seq<Store>, ops: seq<Op>, i: nat, j: nat)
    requires Run(sha, ss, ops) && i < j < |ss| && ops[i].BorrowOp? && ops[i].user in ss[i].ledger.users
    requires Conflicts(sha, BankOf(ss[i]), ops[i].user, ops[i].request, ops[i].eligible, ops[i].proofOk)
    requires forall k :: i < k < j && ops[k].user == ops[i].user && Refreshes(ops[k]) ==>
      CommitmentOf(ss[k + 1], ops[i].user) == CommitmentOf(ss[k], ops[i].user)
    ensures Stranded(sha, ss[j], ops[i].user, ss[i].ledger.users[ops[i].user].commitment)
    ensures forall k :: i < k < j && ops[k].user == ops[i].user ==>
      Enabled(ss[k], ops[k]) && !Apply(sha, ss[k], ops[k]).1
  {
    hide Run, Apply, Enabled, Stranded, Conflicts, Refreshes, CommitmentOf;
    RunStart(sha, ss, ops);
    RunStep(sha, ss, ops, j - 1);
    if j == i + 1 {
      ConflictStrands(sha, ss[i], ops[i]);
    } else {
      RefusedLoanStrands(sha, ss, ops, i, j - 1);
      StrandedStep(sha, ss[j - 1], ops[j - 1], ops[i].user, ss[i].ledger.users[ops[i].user].commitment);
    }
  }

  lemma ConflictStrands(sha: string -> string, s: Store, op: Op)
    requires Enabled(s, op) && op.BorrowOp?
    requires Conflicts(sha, BankOf(s), op.user, op.request, op.eligible, op.proofOk)
    ensures Stranded(sha, Apply(sha, s, op).0, op.user, s.ledger.users[op.user].commitment)
  {
    hide Credit.Borrow, Credit.BalanceNullifier, Conflicts;
    RefusedLoanWritesIff(sha, BankOf(s), op.user, op.request, op.eligible, op.proofOk, op.loanId, op.now);
  }

  /* Notes over runs */

  predicate DistinctNotes(notes: seq<Note>) { forall i, j :: 0 <= i < j < |notes| ==> notes[i].id != notes[j].id }

  /** Note ids are drawn anew. */
  predicate FreshNote(s: Store, op: Op) {
    op.SettleOp? && op.input.hasNote ==> forall n :: n in s.ledger.notes ==> n.id != op.facts.noteId
  }

  /** Notes stay in place and a claimed one stays claimed. */
  predicate NotesKept(notes: seq<Note>, notes': seq<Note>) {
    && |notes| <= |notes'|
    && forall i :: 0 <= i < |notes| ==> notes'[i].id == notes[i].id && (notes[i].claimed ==> notes'[i].claimed)
  }

  lemma StepKeepsNotes(sha: string -> string, s: Store, op: Op)
    requires Enabled(s, op) && DistinctNotes(s.ledger.notes) && FreshNote(s, op)
    ensures var notes := Apply(sha, s, op).0.ledger.notes; NotesKept(s.ledger.notes, notes) && DistinctNotes(notes)
  {
    hide Credit.BalanceNullifier, Credit.Deposit, Credit.Borrow, Credit.Repay, Decide, Closed, Refused;
    match op
    case ClaimOp(u, id, n) => UnclaimedIndexIs(s.ledger.notes, id);
    case _ =>
  }

  lemma {:induction false} RunKeepsNotes(sha: string -> string, ss: seq<Store>, ops: seq<Op>, i: nat, j: nat)
    requires Run(sha, ss, ops) && DistinctNotes(ss[0].ledger.notes) && i <= j < |ss|
    requires forall k :: 0 <= k < |ops| ==> FreshNote(ss[k], ops[k])
    ensures NotesKept(ss[i].ledger.notes, ss[j].ledger.notes) && DistinctNotes(ss[j].ledger.notes)
    decreases j
  {
    hide Run, Apply, Enabled, FreshNote;
    RunStart(sha, ss, ops);
    if j > 0 {
      RunStep(sha, ss, ops, j - 1);
      if i < j { RunKeepsNotes(sha, ss, ops, i, j - 1); } else { RunKeepsNotes(sha, ss, ops, j - 1, j - 1); }
      StepKeepsNotes(sha, ss[j - 1], ops[j - 1]);
    }
  }

  /** A note that was claimed is not found by any later claim in the run, whoever makes it. */
  lemma ClaimedOnce(sha: string -> string, ss: seq<Store>, ops: seq<Op>, i: nat, j: nat, noteId: string)
    requires Run(sha, ss, ops) && DistinctNotes(ss[0].ledger.notes) && i < j < |ops|
    requires forall k :: 0 <= k < |ops| ==> FreshNote(ss[k], ops[k])
    requires ops[i].ClaimOp? && ops[j].ClaimOp? && ops[i].noteId == ops[j].noteId == noteId
    requires Enabled(ss[i], ops[i]) && ClaimNote(sha, ss[i].ledger, ops[i].user, noteId, ops[i].newC).1 == None
    ensures Enabled(ss[j], ops[j])
    ensures ClaimNote(sha, ss[j].ledger, ops[j].user, noteId, ops[j].newC).1 == Some(NoteNotFound)
  {
    hide Run, FreshNote, DistinctNotes, Credit.BalanceNullifier;
    RunStep(sha, ss, ops, i);
    RunStep(sha, ss, ops, j);
    RunKeepsNotes(sha, ss, ops, i + 1, j);
    RunKeepsNotes(sha, ss, ops, i, i);
    ClaimMarks(sha, ss[i].ledger, ops[i].user, noteId, ops[i].newC);
    AllClaimed(ss[i + 1].ledger.notes, ss[j].ledger.notes, noteId);
  }

  /** A successful claim leaves its one note claimed. */
  lemma ClaimMarks(sha: string -> string, l: Ledger, u: string, noteId: string, newC: string)
    requires u in l.users && DistinctNotes(l.notes) && ClaimNote(sha, l, u, noteId, newC).1 == None
    ensures exists n :: n in ClaimNote(sha, l, u, noteId, newC).0.notes && n.id == noteId && n.claimed
  {
    hide Credit.BalanceNullifier, DistinctNotes;
    UnclaimedIndexIs(l.notes, noteId);
    var i := UnclaimedIndex(l.notes, noteId).value;
    var notes := ClaimNote(sha, l, u, noteId, newC).0.notes;
    assert notes[i] in notes;
  }

  lemma AllClaimed(notes: seq<Note>, notes': seq<Note>, noteId: string)
    requires NotesKept(notes, notes') && DistinctNotes(notes')
    requires exists n :: n in notes && n.id == noteId && n.claimed
    ensures UnclaimedIndex(notes', noteId) == None
  {
    UnclaimedIndexIs(notes', noteId);
    var n :| n in notes && n.id == noteId && n.claimed;
    var i :| 0 <= i < |notes| && notes[i] == n;
    assert notes'[i].id == noteId && notes'[i].claimed;
  }
}
