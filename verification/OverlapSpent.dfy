/** What overlapping requests do to the spent nullifiers of accounts. A settlement does not look at its account again
    when it is written; every other request does. */
module OverlapSpent {
  import opened Wrappers
  import opened Sequences
  import opened Hashing
  import opened Credit
  import opened Settlement
  import opened Funding
  import opened Overlap

  /** A settlement finds its account with the commitment it was checked with. */
  predicate FindsAccount(s: State, e: Step) {
    Overlap.Enabled(s, e) && e.Write? && s.flights[e.flight].value.Settling? ==>
      var fl := s.flights[e.flight].value; s.store.ledger.users[fl.user].commitment == fl.input.oldCommitment
  }

  /* Commitments are drawn anew */

  /** The commitments a request brings along. */
  function NewCommitments(op: Op): seq<string> {
    match op
    case SettleOp(_, inp, _) => [inp.newCommitment]
    case BorrowOp(_, request, _, _, _, _) => [request.newCommitment, request.disbursedCommitment]
    case _ => [op.newC]
  }

  function Brought(e: Step): seq<string> { if e.Check? || e.AtOnce? then NewCommitments(e.op) else [] }

  function Members(s: seq<string>): set<string> { set c | c in s }

  /** The commitments accounts began with and requests brought along so far. */
  ghost function Known(ss: seq<State>, es: seq<Step>, k: nat): set<string>
    requires k <= |es| && 0 < |ss|
  {
    if k == 0 then set u | u in ss[0].store.ledger.users :: ss[0].store.ledger.users[u].commitment
    else Known(ss, es, k - 1) + Members(Brought(es[k - 1]))
  }

  predicate Fresh(known: set<string>, e: Step) {
    NoDuplicates(Brought(e)) && forall c :: c in Brought(e) ==> c !in known
  }

  predicate DistinctAccounts(s: Store) {
    forall u, v :: u in s.ledger.users && v in s.ledger.users && u != v ==>
      s.ledger.users[u].commitment != s.ledger.users[v].commitment
  }

  /** Accounts begin with different commitments, and every request brings new ones. */
  ghost predicate Anew(ss: seq<State>, es: seq<Step>) {
    0 < |ss| && DistinctAccounts(ss[0].store) && forall k :: 0 <= k < |es| ==> Fresh(Known(ss, es, k), es[k])
  }

  /* What becomes of a commitment */

  /** An account has it; a request in flight will give it to its account, or pass through it; or it is spent, or will
      never be used. */
  datatype Role = Held(user: string) | Target(flight: nat) | Passed(flight: nat) | Left

  function TargetOf(fl: Flight): string {
    match fl
    case Settling(_, inp, _) => inp.newCommitment
    case Borrowing(_, request) => request.disbursedCommitment
    case _ => fl.newC
  }

  predicate Playing(flights: seq<Option<Flight>>, roles: map<string, Role>) {
    forall f :: 0 <= f < |flights| && flights[f].Some? ==>
      var fl := flights[f].value;
      && TargetOf(fl) in roles && roles[TargetOf(fl)] == Target(f)
      && (fl.Borrowing? ==> fl.request.newCommitment in roles && roles[fl.request.newCommitment] == Passed(f))
  }

  predicate Holding(users: map<string, Account>, roles: map<string, Role>) {
    forall u :: u in users ==> users[u].commitment in roles && roles[users[u].commitment] == Held(u)
  }

  /** Only commitments that were left have their nullifiers spent. */
  ghost predicate SpentLeft(sha: string -> string, spent: seq<string>, roles: map<string, Role>) {
    forall c :: BalanceNullifier(sha, c) in spent ==> c in roles && roles[c] == Left
  }

  /** The account of a settlement in flight has its commitment still, or else the nullifier is spent. */
  predicate Bound(sha: string -> string, l: Ledger, fl: Flight) {
    fl.Settling? ==>
      && fl.user in l.users && fl.input.spendNullifier == BalanceNullifier(sha, fl.input.oldCommitment)
      && (l.users[fl.user].commitment == fl.input.oldCommitment || fl.input.spendNullifier in l.spent)
  }

  ghost predicate Cast(sha: string -> string, s: State, roles: map<string, Role>) {
    && NoDuplicates(s.store.ledger.spent)
    && Holding(s.store.ledger.users, roles)
    && Playing(s.flights, roles)
    && SpentLeft(sha, s.store.ledger.spent, roles)
    && forall fl :: Some(fl) in s.flights ==> Bound(sha, s.store.ledger, fl)
  }

  lemma NullifierInjective(sha: string -> string, c: string, d: string)
    requires GoodHash(sha) && BalanceNullifier(sha, c) == BalanceNullifier(sha, d)
    ensures c == d
  {
    Prefixed("balnf:", c, d);
  }

  /** A commitment that an account has, or a request in flight has in view, is unspent. */
  lemma Unspent(sha: string -> string, spent: seq<string>, roles: map<string, Role>, c: string)
    requires SpentLeft(sha, spent, roles) && c in roles && roles[c] != Left
    ensures BalanceNullifier(sha, c) !in spent
  {
    hide BalanceNullifier;
  }

  lemma RolesLeave(sha: string -> string, spent: seq<string>, roles: map<string, Role>, c: string)
    requires GoodHash(sha) && SpentLeft(sha, spent, roles)
    ensures SpentLeft(sha, spent + [BalanceNullifier(sha, c)], roles[c := Left])
  {
    hide GoodHash, BalanceNullifier;
    forall d | BalanceNullifier(sha, d) in spent + [BalanceNullifier(sha, c)]
      ensures d in roles[c := Left] && roles[c := Left][d] == Left
    {
      if BalanceNullifier(sha, d) == BalanceNullifier(sha, c) { NullifierInjective(sha, c, d); }
    }
  }

  lemma RolesTake(sha: string -> string, spent: seq<string>, roles: map<string, Role>, c: string, r: Role)
    requires SpentLeft(sha, spent, roles) && (c in roles ==> roles[c] != Left)
    ensures SpentLeft(sha, spent, roles[c := r])
  {
    hide BalanceNullifier;
  }

  /** The account left its commitment for another, and the nullifier of the one it left is recorded. */
  predicate MovesTo(sha: string -> string, l: Ledger, l': Ledger, u: string, c: string) {
    && u in l.users && l'.users.Keys == l.users.Keys && l'.users[u].commitment == c
    && (forall v :: v in l.users && v != u ==> l'.users[v] == l.users[v])
    && BalanceNullifier(sha, l.users[u].commitment) in l'.spent
    && forall x :: x in l.spent ==> x in l'.spent
  }

  lemma HoldingMoves(sha: string -> string, l: Ledger, l': Ledger, u: string, c: string, roles: map<string, Role>,
                     roles': map<string, Role>)
    requires Holding(l.users, roles) && MovesTo(sha, l, l', u, c) && c in roles' && roles'[c] == Held(u)
    requires forall d, v :: d in roles && roles[d] == Held(v) && v != u ==> d in roles' && roles'[d] == roles[d]
    ensures Holding(l'.users, roles')
  {
    hide BalanceNullifier;
  }

  lemma BoundMoves(sha: string -> string, l: Ledger, l': Ledger, u: string, c: string, fl: Flight)
    requires MovesTo(sha, l, l', u, c) && Bound(sha, l, fl)
    ensures Bound(sha, l', fl)
  {
    hide BalanceNullifier;
  }

  /** No request joins, and the roles of those that stay do not change. */
  predicate Stay(flights: seq<Option<Flight>>, flights': seq<Option<Flight>>, roles: map<string, Role>,
                 roles': map<string, Role>) {
    && |flights'| == |flights|
    && (forall f :: 0 <= f < |flights| && flights'[f].Some? ==> flights'[f] == flights[f])
    && forall c :: c in roles ==>
         match roles[c]
         case Target(f) => f < |flights| && flights'[f].Some? ==> c in roles' && roles'[c] == roles[c]
         case Passed(f) => f < |flights| && flights'[f].Some? ==> c in roles' && roles'[c] == roles[c]
         case _ => true
  }

  lemma PlayingStays(flights: seq<Option<Flight>>, flights': seq<Option<Flight>>, roles: map<string, Role>,
                     roles': map<string, Role>)
    requires Playing(flights, roles) && Stay(flights, flights', roles, roles')
    ensures Playing(flights', roles')
  {
    hide TargetOf;
  }

  /** An account moves to a commitment that is new, or that was meant for it by a request now over. */
  lemma MoveCast(sha: string -> string, s: State, s': State, u: string, c: string, roles: map<string, Role>)
    returns (roles': map<string, Role>)
    requires GoodHash(sha) && Cast(sha, s, roles) && MovesTo(sha, s.store.ledger, s'.store.ledger, u, c)
    requires s'.store.ledger.spent
      == s.store.ledger.spent + [BalanceNullifier(sha, s.store.ledger.users[u].commitment)]
    requires |s'.flights| == |s.flights|
    requires forall f :: 0 <= f < |s.flights| && s'.flights[f].Some? ==> s'.flights[f] == s.flights[f]
    requires c in roles ==> roles[c].Target? && roles[c].flight < |s.flights| && s'.flights[roles[c].flight] == None
    ensures Cast(sha, s', roles') && roles'.Keys == roles.Keys + {c}
  {
    hide GoodHash, BalanceNullifier, SpentLeft, Playing, Bound, NoDuplicates, MovesTo;
    var (l, l') := (s.store.ledger, s'.store.ledger);
    assert u in l.users by { MovesUser(sha, l, l', u, c); }
    var cur := l.users[u].commitment;
    roles' := roles[cur := Left][c := Held(u)];
    Unspent(sha, l.spent, roles, cur);
    NoDuplicatesAppend(l.spent, BalanceNullifier(sha, cur));
    RolesLeave(sha, l.spent, roles, cur);
    RolesTake(sha, l'.spent, roles[cur := Left], c, Held(u));
    HoldingMoves(sha, l, l', u, c, roles, roles');
    PlayingStays(s.flights, s'.flights, roles, roles');
    forall fl | Some(fl) in s'.flights ensures Bound(sha, l', fl) {
      assert Some(fl) in s.flights;
      BoundMoves(sha, l, l', u, c, fl);
    }
  }

  lemma MovesUser(sha: string -> string, l: Ledger, l': Ledger, u: string, c: string)
    requires MovesTo(sha, l, l', u, c)
    ensures u in l.users
  {
  }

  /** A settlement, deposit or repayment whose account can still be spent from moves it. */
  lemma WrittenMoves(sha: string -> string, s: Store, fl: Flight, loanId: string, now: nat)
    requires Lands(s, fl, loanId) && !fl.Borrowing?
    requires BalanceNullifier(sha, s.ledger.users[fl.user].commitment) !in s.ledger.spent
    requires fl.Settling? ==> fl.input.spendNullifier == BalanceNullifier(sha, s.ledger.users[fl.user].commitment)
    ensures var l' := Written(sha, s, fl, loanId, now).0.ledger;
      && l'.spent == s.ledger.spent + [BalanceNullifier(sha, s.ledger.users[fl.user].commitment)]
      && MovesTo(sha, s.ledger, l', fl.user, TargetOf(fl))
  {
    hide BalanceNullifier, InstallmentNullifier, CreditIdentity, AddShare, PaidAs;
  }

  lemma LoanMoves(sha: string -> string, s: Store, fl: Flight, loanId: string, now: nat)
    requires Lands(s, fl, loanId) && fl.Borrowing?
    requires var nf := BalanceNullifier(sha, s.ledger.users[fl.user].commitment);
      nf !in s.ledger.spent && BalanceNullifier(sha, fl.request.newCommitment) !in s.ledger.spent + [nf]
    ensures var l' := Written(sha, s, fl, loanId, now).0.ledger;
      && l'.spent == s.ledger.spent + [BalanceNullifier(sha, s.ledger.users[fl.user].commitment)]
                     + [BalanceNullifier(sha, fl.request.newCommitment)]
      && MovesTo(sha, s.ledger, l', fl.user, TargetOf(fl))
  {
    hide BalanceNullifier, CreditIdentity, NewLoan;
  }

  lemma LoanCast(sha: string -> string, s: State, f: nat, loanId: string, now: nat, roles: map<string, Role>)
    returns (roles': map<string, Role>)
    requires GoodHash(sha) && Cast(sha, s, roles) && Overlap.Enabled(s, Write(f, loanId, now))
    requires s.flights[f].value.Borrowing?
    ensures Cast(sha, Next(sha, s, Write(f, loanId, now)), roles') && roles'.Keys == roles.Keys
  {
    hide GoodHash, BalanceNullifier, SpentLeft, Bound, NoDuplicates, MovesTo, Written;
    var (s', fl, l) := (Next(sha, s, Write(f, loanId, now)), s.flights[f].value, s.store.ledger);
    var (cur, locked, l') := (l.users[fl.user].commitment, fl.request.newCommitment, s'.store.ledger);
    Unspent(sha, l.spent, roles, cur);
    Unspent(sha, l.spent, roles, locked);
    if BalanceNullifier(sha, locked) == BalanceNullifier(sha, cur) { NullifierInjective(sha, locked, cur); }
    LoanMoves(sha, s.store, fl, loanId, now);
    NoDuplicatesAppend(l.spent, BalanceNullifier(sha, cur));
    NoDuplicatesAppend(l.spent + [BalanceNullifier(sha, cur)], BalanceNullifier(sha, locked));
    RolesLeave(sha, l.spent, roles, cur);
    RolesLeave(sha, l.spent + [BalanceNullifier(sha, cur)], roles[cur := Left], locked);
    var left := roles[cur := Left][locked := Left];
    RolesTake(sha, l'.spent, left, TargetOf(fl), Held(fl.user));
    roles' := left[TargetOf(fl) := Held(fl.user)];
    HoldingMoves(sha, l, l', fl.user, TargetOf(fl), roles, roles');
    PlayingStays(s.flights, s'.flights, roles, roles');
    forall g | Some(g) in s'.flights ensures Bound(sha, l', g) {
      assert Some(g) in s.flights;
      BoundMoves(sha, l, l', fl.user, TargetOf(fl), g);
    }
  }

  /** A write keeps the nullifiers distinct unless it is a settlement that does not find its account. */
  lemma WriteCast(sha: string -> string, s: State, f: nat, loanId: string, now: nat, roles: map<string, Role>)
    returns (roles': map<string, Role>)
    requires GoodHash(sha) && Cast(sha, s, roles) && Overlap.Enabled(s, Write(f, loanId, now))
    ensures var s' := Next(sha, s, Write(f, loanId, now));
      if FindsAccount(s, Write(f, loanId, now)) then Cast(sha, s', roles') && roles'.Keys == roles.Keys
      else !NoDuplicates(s'.store.ledger.spent)
  {
    hide GoodHash, BalanceNullifier, SpentLeft, NoDuplicates, MovesTo, Written;
    var (s', fl, l) := (Next(sha, s, Write(f, loanId, now)), s.flights[f].value, s.store.ledger);
    roles' := roles;
    assert Some(fl) in s.flights;
    if fl.Borrowing? {
      roles' := LoanCast(sha, s, f, loanId, now, roles);
    } else if FindsAccount(s, Write(f, loanId, now)) {
      Unspent(sha, l.spent, roles, l.users[fl.user].commitment);
      WrittenMoves(sha, s.store, fl, loanId, now);
      roles' := MoveCast(sha, s, s', fl.user, TargetOf(fl), roles);
    } else {
      SettlementRepeats(sha, s.store, fl, loanId, now);
    }
  }

  lemma SettlementRepeats(sha: string -> string, s: Store, fl: Flight, loanId: string, now: nat)
    requires Lands(s, fl, loanId) && fl.Settling? && fl.input.spendNullifier in s.ledger.spent
    ensures !NoDuplicates(Written(sha, s, fl, loanId, now).0.ledger.spent)
  {
    hide NoDuplicates;
    Repeated(s.ledger.spent, fl.input.spendNullifier);
  }

  /* Checks and requests that are written at once */

  /** Commitments that are brought along and will not be used. */
  lemma WasteCast(sha: string -> string, s: State, s': State, roles: map<string, Role>, cs: set<string>)
    returns (roles': map<string, Role>)
    requires Cast(sha, s, roles) && cs !! roles.Keys
    requires s'.flights == s.flights && s'.store.ledger.users == s.store.ledger.users
    requires s'.store.ledger.spent == s.store.ledger.spent
    ensures Cast(sha, s', roles') && roles'.Keys == roles.Keys + cs
  {
    hide BalanceNullifier, NoDuplicates;
    roles' := roles + map c | c in cs :: Left;
    assert Playing(s'.flights, roles') by { hide TargetOf; }
    forall fl | Some(fl) in s'.flights ensures Bound(sha, s'.store.ledger, fl) {
      assert Bound(sha, s.store.ledger, fl);
    }
  }

  lemma CheckedBound(sha: string -> string, s: Store, op: Op)
    requires Funding.Enabled(s, op) && !Refreshes(op) && Checked(sha, s, op).Some?
    ensures var fl := Checked(sha, s, op).value;
      && Bound(sha, s.ledger, fl) && TargetOf(fl) in NewCommitments(op)
      && (fl.Borrowing? ==> NewCommitments(op) == [fl.request.newCommitment, TargetOf(fl)])
      && (!fl.Borrowing? ==> NewCommitments(op) == [TargetOf(fl)])
  {
    hide BalanceNullifier, RepayCheck, BorrowCheck, DepositCheck;
  }

  lemma JoinCast(sha: string -> string, s: State, fl: Flight, cs: seq<string>, roles: map<string, Role>)
    returns (roles': map<string, Role>)
    requires Cast(sha, s, roles) && Bound(sha, s.store.ledger, fl) && NoDuplicates(cs) && Members(cs) !! roles.Keys
    requires cs == if fl.Borrowing? then [fl.request.newCommitment, TargetOf(fl)] else [TargetOf(fl)]
    ensures Cast(sha, s.(flights := s.flights + [Some(fl)]), roles') && roles'.Keys == roles.Keys + Members(cs)
  {
    hide BalanceNullifier, Bound, SpentLeft;
    var n := |s.flights|;
    var (flights', spent) := (s.flights + [Some(fl)], s.store.ledger.spent);
    assert TargetOf(fl) in cs;
    RolesTake(sha, spent, roles, TargetOf(fl), Target(n));
    roles' := roles[TargetOf(fl) := Target(n)];
    if fl.Borrowing? {
      assert cs[0] != cs[1];
      assert cs[0] in Members(cs);
      RolesTake(sha, spent, roles', fl.request.newCommitment, Passed(n));
      roles' := roles'[fl.request.newCommitment := Passed(n)];
    }
    assert Playing(flights', roles') by { hide TargetOf; }
  }

  /** A claim, a reseal or a received credit moves its account, or nothing. */
  lemma RefreshMoves(sha: string -> string, s: Store, op: Op)
    requires Funding.Enabled(s, op) && Refreshes(op)
    requires BalanceNullifier(sha, s.ledger.users[op.user].commitment) !in s.ledger.spent
    ensures var l' := Funding.Apply(sha, s, op).0.ledger;
      || (l'.users == s.ledger.users && l'.spent == s.ledger.spent)
      || (MovesTo(sha, s.ledger, l', op.user, op.newC)
          && l'.spent == s.ledger.spent + [BalanceNullifier(sha, s.ledger.users[op.user].commitment)])
  {
    hide BalanceNullifier;
    if op.ClaimOp? { UnclaimedIndexIs(s.ledger.notes, op.noteId); }
  }

  lemma RefreshCast(sha: string -> string, s: State, op: Op, roles: map<string, Role>)
    returns (roles': map<string, Role>)
    requires GoodHash(sha) && Cast(sha, s, roles) && Overlap.Enabled(s, AtOnce(op)) && Fresh(roles.Keys, AtOnce(op))
    ensures Cast(sha, Next(sha, s, AtOnce(op)), roles') && roles'.Keys == roles.Keys + Members(Brought(AtOnce(op)))
  {
    hide GoodHash, BalanceNullifier, SpentLeft, NoDuplicates, MovesTo, Playing, Bound, Funding.Apply;
    var s' := Next(sha, s, AtOnce(op));
    assert Brought(AtOnce(op)) == [op.newC];
    Unspent(sha, s.store.ledger.spent, roles, s.store.ledger.users[op.user].commitment);
    RefreshMoves(sha, s.store, op);
    if s'.store.ledger.users == s.store.ledger.users && s'.store.ledger.spent == s.store.ledger.spent {
      roles' := WasteCast(sha, s, s', roles, {op.newC});
    } else {
      roles' := MoveCast(sha, s, s', op.user, op.newC, roles);
    }
  }

  lemma StepCast(sha: string -> string, s: State, e: Step, roles: map<string, Role>)
    returns (roles': map<string, Role>)
    requires GoodHash(sha) && Cast(sha, s, roles) && Overlap.Enabled(s, e) && Fresh(roles.Keys, e)
    ensures var s' := Next(sha, s, e);
      if FindsAccount(s, e) then Cast(sha, s', roles') && roles'.Keys == roles.Keys + Members(Brought(e))
      else !NoDuplicates(s'.store.ledger.spent)
  {
    hide GoodHash, BalanceNullifier, SpentLeft, NoDuplicates, MovesTo, Written, Checked, Playing, Bound, Liquidate,
      Funding.Apply, Refreshes, NewCommitments;
    var s' := Next(sha, s, e);
    match e
    case Write(f, id, now) => roles' := WriteCast(sha, s, f, id, now, roles);
    case Check(op) =>
      if Checked(sha, s.store, op).Some? {
        CheckedBound(sha, s.store, op);
        roles' := JoinCast(sha, s, Checked(sha, s.store, op).value, NewCommitments(op), roles);
      } else {
        RefusedCheck(sha, s.store, op);
        roles' := WasteCast(sha, s, s', roles, Members(Brought(e)));
      }
    case AtOnce(op) => roles' := RefreshCast(sha, s, op, roles);
    case Liquidation(id, now) =>
      LiquidateLedger(s.store, id, now);
      roles' := WasteCast(sha, s, s', roles, {});
  }

  lemma LiquidateLedger(s: Store, loanId: string, now: nat)
    ensures WithBank(s, Liquidate(BankOf(s), loanId, now).0).ledger == s.ledger
  {
  }

  /* Runs */

  lemma StartCast(sha: string -> string, s: State) returns (roles: map<string, Role>)
    requires Start(s) && DistinctAccounts(s.store)
    ensures Cast(sha, s, roles)
    ensures roles.Keys == set u | u in s.store.ledger.users :: s.store.ledger.users[u].commitment
  {
    var users := s.store.ledger.users;
    roles := map u | u in users :: users[u].commitment := Held(u);
  }

  lemma StepSpent(sha: string -> string, s: State, e: Step)
    requires Overlap.Enabled(s, e)
    ensures s.store.ledger.spent <= Next(sha, s, e).store.ledger.spent
  {
    hide BalanceNullifier, InstallmentNullifier, CreditIdentity, AddShare, PaidAs, NewLoan, Funding.Apply, Checked,
      Refreshes;
    match e
    case Check(op) => if Checked(sha, s.store, op) == None { RefusedCheck(sha, s.store, op); }
    case AtOnce(op) => hide Moved; RefreshSpent(sha, s.store, op);
    case _ =>
  }

  lemma RefreshSpent(sha: string -> string, s: Store, op: Op)
    requires Funding.Enabled(s, op)
    ensures s.ledger.spent <= Funding.Apply(sha, s, op).0.ledger.spent
  {
    hide Funding.Apply;
    StepMoves(sha, s, op);
  }

  predicate AllFind(ss: seq<State>, es: seq<Step>, k: nat)
    requires k <= |es| && k <= |ss|
  {
    forall j :: 0 <= j < k ==> FindsAccount(ss[j], es[j])
  }

  lemma AllFindNext(ss: seq<State>, es: seq<Step>, k: nat)
    requires k < |es| && k < |ss|
    ensures AllFind(ss, es, k + 1) <==> AllFind(ss, es, k) && FindsAccount(ss[k], es[k])
  {
    hide FindsAccount;
  }

  lemma AnewFresh(ss: seq<State>, es: seq<Step>, k: nat)
    requires Anew(ss, es) && k < |es|
    ensures Fresh(Known(ss, es, k), es[k])
    ensures Known(ss, es, k + 1) == Known(ss, es, k) + Members(Brought(es[k]))
  {
    hide Fresh, Members, Brought;
  }

  /** While every settlement finds its account each commitment has its role; from then on a nullifier repeats. */
  lemma {:induction false} RunCast(sha: string -> string, ss: seq<State>, es: seq<Step>, k: nat)
    returns (roles: map<string, Role>)
    requires GoodHash(sha) && Overlap.Run(sha, ss, es) && Anew(ss, es) && k < |ss|
    ensures k <= |es|
    ensures if AllFind(ss, es, k) then Cast(sha, ss[k], roles) && roles.Keys == Known(ss, es, k)
      else !NoDuplicates(ss[k].store.ledger.spent)
  {
    hide GoodHash, Overlap.Run, Overlap.Enabled, Next, FindsAccount, Cast, NoDuplicates, Start, Fresh, AllFind, Known,
      Anew, Brought, Members;
    Overlap.RunStart(sha, ss, es);
    if k == 0 {
      roles := RunCastStart(sha, ss, es);
    } else {
      roles := RunCast(sha, ss, es, k - 1);
      Overlap.RunStep(sha, ss, es, k - 1);
      AllFindNext(ss, es, k - 1);
      AnewFresh(ss, es, k - 1);
      if AllFind(ss, es, k - 1) {
        roles := StepCast(sha, ss[k - 1], es[k - 1], roles);
      } else {
        StepSpent(sha, ss[k - 1], es[k - 1]);
        StillRepeats(ss[k - 1].store.ledger.spent, ss[k].store.ledger.spent);
      }
    }
  }

  lemma RunCastStart(sha: string -> string, ss: seq<State>, es: seq<Step>) returns (roles: map<string, Role>)
    requires 0 < |ss| && Start(ss[0]) && Anew(ss, es)
    ensures AllFind(ss, es, 0) && Cast(sha, ss[0], roles) && roles.Keys == Known(ss, es, 0)
  {
    hide Cast, Start, DistinctAccounts, Fresh;
    roles := StartCast(sha, ss[0]);
  }

  lemma StillRepeats(s: seq<string>, t: seq<string>)
    requires s <= t && !NoDuplicates(s)
    ensures !NoDuplicates(t)
  {
  }

  /** However requests overlap, when every commitment is drawn anew: no nullifier is recorded twice exactly when every
      settlement found its account with the commitment it was checked with. */
  lemma SpentOnceIff(sha: string -> string, ss: seq<State>, es: seq<Step>, k: nat)
    requires GoodHash(sha) && Overlap.Run(sha, ss, es) && Anew(ss, es) && k < |ss|
    ensures k <= |es|
    ensures NoDuplicates(ss[k].store.ledger.spent) <==> forall j :: 0 <= j < k ==> FindsAccount(ss[j], es[j])
  {
    hide GoodHash, Overlap.Run, Anew, FindsAccount, NoDuplicates, Known, Holding, Playing, SpentLeft, Bound;
    var roles := RunCast(sha, ss, es, k);
  }
}
