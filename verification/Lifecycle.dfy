/** The lifecycle record of a payment: its states, the guarded transition function, and reconciliation. */
module Lifecycle {
  import opened Wrappers

  datatype State =
    | Created | ProofPrepared | UserAuthorized | ProofVerified | RailReserved | Settled | DeviceApplied
    | RecipientNotified | Reconciled | ProofFailed | RailFailed | DeviceApplyFailed | ReversalPending | Refunded
    | ManualReview

  datatype Grade = NoGrade | RejectedGrade | Structural | CompactRuntime | ZkProved

  datatype Entry = Entry(at: int, state: State, blocked: Option<State>)

  /** The fields of the record that transitions read or write. */
  datatype Payment = Payment(id: string, userId: string, state: State, grade: Grade, railId: string,
                             railSettlementId: string, receiptId: string, updatedAt: int, timeline: seq<Entry>)

  /** What a transition may also set; an empty text or NoGrade sets nothing. */
  datatype Patch = Patch(grade: Grade, railId: string, railSettlementId: string, receiptId: string)

  const NO_PATCH := Patch(NoGrade, "", "", "")

  function Allowed(s: State): set<State> {
    match s
    case Created => {ProofPrepared, UserAuthorized, ProofFailed, ManualReview}
    case ProofPrepared => {UserAuthorized, ProofFailed, ManualReview}
    case UserAuthorized => {ProofVerified, ProofFailed, ManualReview}
    case ProofVerified => {RailReserved, Settled, RailFailed, ManualReview}
    case RailReserved => {Settled, RailFailed, ReversalPending}
    case Settled => {DeviceApplied, DeviceApplyFailed, RecipientNotified, Reconciled}
    case DeviceApplied => {RecipientNotified, Reconciled}
    case RecipientNotified => {Reconciled}
    case DeviceApplyFailed => {DeviceApplied, ReversalPending, ManualReview}
    case ReversalPending => {Refunded, ManualReview}
    case ProofFailed => {}
    case RailFailed => {ReversalPending, ManualReview}
    case ManualReview => {Refunded, Reconciled}
    case Refunded => {}
    case Reconciled => {}
  }

  predicate Terminal(s: State) { s in {Reconciled, Refunded, ProofFailed, RailFailed, ManualReview} }

  function NewPayment(id: string, userId: string, now: int): Payment {
    Payment(id, userId, Created, NoGrade, "", "", "", now, [Entry(now, Created, None)])
  }

  function Patched(p: Payment, patch: Patch): Payment {
    p.(grade := if patch.grade == NoGrade then p.grade else patch.grade,
       railId := if patch.railId == "" then p.railId else patch.railId,
       railSettlementId := if patch.railSettlementId == "" then p.railSettlementId else patch.railSettlementId,
       receiptId := if patch.receiptId == "" then p.receiptId else patch.receiptId)
  }

  /** A terminal record ignores moves other than to itself, refund and review; an illegal move is only noted in the
      timeline; staying in the same state is always legal. */
  function Advance(p: Payment, next: State, patch: Patch, now: int): Payment {
    if Terminal(p.state) && p.state != next && next != Refunded && next != ManualReview then p
    else if p.state != next && next !in Allowed(p.state) then
      p.(timeline := p.timeline + [Entry(now, p.state, Some(next))])
    else Patched(p, patch).(state := next, updatedAt := now, timeline := p.timeline + [Entry(now, next, None)])
  }

  /** A move that changes the state: an allowed one that the terminal guard lets through. */
  predicate Edge(a: State,
                 b: State) { b in Allowed(a) && a != b && (Terminal(a) ==> b == Refunded || b == ManualReview) }

  function Rank(s: State): nat {
    match s
    case Created => 9
    case ProofPrepared => 8
    case UserAuthorized => 7
    case ProofVerified => 6
    case RailReserved => 5
    case Settled => 4
    case DeviceApplyFailed => 3
    case DeviceApplied => 2
    case RecipientNotified => 1
    case ReversalPending => 2
    case RailFailed => 2
    case ManualReview => 1
    case _ => 0
  }

  lemma EdgeDescends(a: State, b: State)
    requires Edge(a, b)
    ensures Rank(b) < Rank(a)
  {
  }

  /** Exactly three states cannot be left. */
  lemma AbsorbingIff(s: State)
    ensures (forall b :: !Edge(s, b)) <==> s in {Reconciled, Refunded, ProofFailed}
  {
    match s
    case Created => assert Edge(s, ProofPrepared);
    case ProofPrepared => assert Edge(s, UserAuthorized);
    case UserAuthorized => assert Edge(s, ProofVerified);
    case ProofVerified => assert Edge(s, RailReserved);
    case RailReserved => assert Edge(s, Settled);
    case Settled => assert Edge(s, DeviceApplied);
    case DeviceApplied => assert Edge(s, Reconciled);
    case RecipientNotified => assert Edge(s, Reconciled);
    case DeviceApplyFailed => assert Edge(s, DeviceApplied);
    case ReversalPending => assert Edge(s, Refunded);
    case RailFailed => assert Edge(s, ManualReview);
    case ManualReview => assert Edge(s, Refunded);
    case _ =>
  }

  /* Timelines */

  /** How often the state changes along a timeline. */
  function Changes(t: seq<Entry>): nat {
    if |t| <= 1 then 0 else Changes(t[..|t| - 1]) + if t[|t| - 1].state == t[|t| - 2].state then 0 else 1
  }

  predicate Seen(t: seq<Entry>, s: State) { exists i :: 0 <= i < |t| && t[i].state == s }

  /** States that are reached only after the user authorized and the proof was verified. */
  predicate PastProof(s: State) {
    s in {ProofVerified, RailReserved, Settled, DeviceApplied, RecipientNotified, Reconciled, RailFailed,
          DeviceApplyFailed, ReversalPending}
  }

  predicate Legal(p: Payment) {
    && |p.timeline| > 0 && p.timeline[0].state == Created && p.timeline[|p.timeline| - 1].state == p.state
    && (forall i :: 0 < i < |p.timeline| ==>
          p.timeline[i].state == p.timeline[i - 1].state || Edge(p.timeline[i - 1].state, p.timeline[i].state))
  }

  /** The order in which a payment can be settled at all. */
  predicate Ordered(t: seq<Entry>) {
    forall i :: 0 <= i < |t| && PastProof(t[i].state) ==>
      Seen(t[..i], UserAuthorized) && (t[i].state == ProofVerified || Seen(t[..i], ProofVerified))
  }

  lemma NewLegal(id: string, userId: string, now: int)
    ensures Legal(NewPayment(id, userId, now)) && Ordered(NewPayment(id, userId, now).timeline)
  {
  }

  /** Every call keeps the timeline legal, and the state moves along an edge or not at all. */
  lemma AdvanceLegal(p: Payment, next: State, patch: Patch, now: int)
    requires Legal(p)
    ensures Legal(Advance(p, next, patch, now))
    ensures var s := Advance(p, next, patch, now).state; s == p.state || (Edge(p.state, s) && s == next)
    ensures Edge(p.state, next) ==> Advance(p, next, patch, now).state == next
  {
  }

  lemma SeenPrefix(t: seq<Entry>, n: nat, s: State)
    requires n <= |t| && Seen(t[..n], s)
    ensures Seen(t, s)
  {
    var i :| 0 <= i < n && t[..n][i].state == s;
    assert t[i].state == s;
  }

  lemma LastSeen(t: seq<Entry>)
    requires Ordered(t) && |t| > 0
    ensures Seen(t, t[|t| - 1].state)
    ensures PastProof(t[|t| - 1].state) ==> Seen(t, UserAuthorized) && Seen(t, ProofVerified)
  {
    hide PastProof;
    var n := |t| - 1;
    assert t[n].state == t[n].state;
    if PastProof(t[n].state) {
      SeenPrefix(t, n, UserAuthorized);
      if t[n].state != ProofVerified { SeenPrefix(t, n, ProofVerified); }
    }
  }

  lemma OrderedAppend(t: seq<Entry>, e: Entry)
    requires Ordered(t)
    requires PastProof(e.state) ==> Seen(t, UserAuthorized) && (e.state == ProofVerified || Seen(t, ProofVerified))
    ensures Ordered(t + [e])
  {
    hide PastProof, Seen;
    var t' := t + [e];
    assert t'[..|t|] == t;
    assert forall i :: 0 <= i <= |t| ==> t'[..i] == t[..i];
  }

  /** The states past the proof are entered from one another or by verifying the proof. */
  lemma EdgePastProof(a: State, b: State)
    requires Edge(a, b) && PastProof(b)
    ensures PastProof(a) || (a == UserAuthorized && b == ProofVerified)
  {
  }

  lemma AdvanceAppends(p: Payment, next: State, patch: Patch, now: int)
    ensures var q := Advance(p, next, patch, now);
      q == p || (|q.timeline| == |p.timeline| + 1 && q.timeline == p.timeline + [q.timeline[|p.timeline|]]
        && q.timeline[|p.timeline|].state == q.state)
  {
    hide Allowed, Terminal;
  }

  lemma AdvanceOrdered(p: Payment, next: State, patch: Patch, now: int)
    requires Legal(p) && Ordered(p.timeline)
    ensures Ordered(Advance(p, next, patch, now).timeline)
  {
    AdvanceLegal(p, next, patch, now);
    AdvanceAppends(p, next, patch, now);
    var q := Advance(p, next, patch, now);
    hide Advance, Ordered, PastProof, Edge, Seen;
    LastSeen(p.timeline);
    if q != p {
      if PastProof(q.state) && q.state != p.state { EdgePastProof(p.state, q.state); }
      OrderedAppend(p.timeline, q.timeline[|p.timeline|]);
    }
  }

  lemma {:induction false} ChangesBounded(p: Payment)
    requires Legal(p)
    ensures Changes(p.timeline) + Rank(p.state) <= 9
    decreases |p.timeline|
  {
    var t := p.timeline;
    if |t| > 1 {
      var init := t[..|t| - 1];
      var before := p.(timeline := init, state := init[|init| - 1].state);
      ChangesBounded(before);
      if t[|t| - 1].state != t[|t| - 2].state { EdgeDescends(t[|t| - 2].state, t[|t| - 1].state); }
    }
  }

  datatype Move = Move(next: State, patch: Patch, now: int)

  function AdvanceAll(p: Payment, moves: seq<Move>): Payment
    decreases |moves|
  {
    if |moves| == 0 then p else AdvanceAll(Advance(p, moves[0].next, moves[0].patch, moves[0].now), moves[1..])
  }

  lemma {:induction false} AdvanceAllLegal(p: Payment, moves: seq<Move>)
    requires Legal(p) && Ordered(p.timeline)
    ensures Legal(AdvanceAll(p, moves)) && Ordered(AdvanceAll(p, moves).timeline)
    decreases |moves|
  {
    hide Legal, Ordered, Advance;
    if |moves| > 0 {
      AdvanceLegal(p, moves[0].next, moves[0].patch, moves[0].now);
      AdvanceOrdered(p, moves[0].next, moves[0].patch, moves[0].now);
      AdvanceAllLegal(Advance(p, moves[0].next, moves[0].patch, moves[0].now), moves[1..]);
    }
  }

  /** After any calls: the timeline starts at created, ends in the stored state, moves only along edges, changes
      state at most nine times, and shows a settlement only after authorization and proof verification. */
  lemma AnyCalls(id: string, userId: string, created: int, moves: seq<Move>)
    ensures var p := AdvanceAll(NewPayment(id, userId, created), moves);
      && Legal(p) && Ordered(p.timeline) && Changes(p.timeline) <= 9
      && |p.timeline| > 0 && p.timeline[0].state == Created && p.timeline[|p.timeline| - 1].state == p.state
  {
    hide Ordered, AdvanceAll, Changes, Edge;
    NewLegal(id, userId, created);
    AdvanceAllLegal(NewPayment(id, userId, created), moves);
    ChangesBounded(AdvanceAll(NewPayment(id, userId, created), moves));
  }

  /** The longest way through the states. */
  function Longest(i: nat): State {
    match i
    case 0 => Created
    case 1 => ProofPrepared
    case 2 => UserAuthorized
    case 3 => ProofVerified
    case 4 => RailReserved
    case 5 => Settled
    case 6 => DeviceApplyFailed
    case 7 => DeviceApplied
    case 8 => RecipientNotified
    case _ => Reconciled
  }

  lemma ChangeStep(p: Payment, i: nat)
    requires i < 9 && p.state == Longest(i) && |p.timeline| > 0 && p.timeline[|p.timeline| - 1].state == p.state
    ensures var q := Advance(p, Longest(i + 1), NO_PATCH, 0);
      && q.state == Longest(i + 1) && |q.timeline| > 0 && q.timeline[|q.timeline| - 1].state == q.state
      && Changes(q.timeline) == Changes(p.timeline) + 1
  {
    LongestEdge(i);
    hide Longest, Allowed, Terminal;
    var q := Advance(p, Longest(i + 1), NO_PATCH, 0);
    assert q.timeline[..|q.timeline| - 1] == p.timeline;
  }

  lemma LongestEdge(i: nat)
    requires i < 9
    ensures Edge(Longest(i), Longest(i + 1))
  {
    hide Edge;
    if i < 3 { EdgesEarly(); } else if i < 6 { EdgesMiddle(); } else { EdgesLate(); }
  }

  lemma EdgesEarly()
    ensures Edge(Created, ProofPrepared) && Edge(ProofPrepared, UserAuthorized) && Edge(UserAuthorized, ProofVerified)
  {
  }

  lemma EdgesMiddle()
    ensures Edge(ProofVerified, RailReserved) && Edge(RailReserved, Settled) && Edge(Settled, DeviceApplyFailed)
  {
  }

  lemma EdgesLate()
    ensures Edge(DeviceApplyFailed, DeviceApplied) && Edge(DeviceApplied, RecipientNotified)
    ensures Edge(RecipientNotified, Reconciled)
  {
  }

  /** Nine changes are possible. */
  lemma NineChanges(id: string, userId: string) returns (moves: seq<Move>)
    ensures Changes(AdvanceAll(NewPayment(id, userId, 0), moves).timeline) == 9
  {
    moves := seq(9, i requires 0 <= i < 9 => Move(Longest(i + 1), NO_PATCH, 0));
    var p := NewPayment(id, userId, 0);
    var q := p;
    hide Advance, Longest;
    for i := 0 to 9
      invariant AdvanceAll(p, moves) == AdvanceAll(q, moves[i..])
      invariant q.state == Longest(i) && |q.timeline| > 0 && q.timeline[|q.timeline| - 1].state == q.state
      invariant Changes(q.timeline) == i
    {
      ChangeStep(q, i);
      assert moves[i..][1..] == moves[i + 1..];
      q := Advance(q, Longest(i + 1), NO_PATCH, 0);
    }
    assert moves[9..] == [];
  }

  /* Reconciliation */

  datatype Gap = PaymentNotFound | ProofIncomplete | RailReceiptMissing | DeviceApplyPending

  datatype Ack = Ack(railSettlementId: string, deviceApplied: bool, recipientNotified: bool)

  /** What reconciliation reports. */
  datatype Report = Report(ok: bool, state: State, gaps: seq<Gap>, receiptId: string)

  function RailNoted(p: Payment, ack: Ack, now: int): Payment {
    if ack.railSettlementId != "" && p.railSettlementId == "" then
      Advance(p, p.state, Patch(NoGrade, "", ack.railSettlementId, ""), now)
    else p
  }

  function Acknowledged(p: Payment, ack: Ack, now: int): Payment {
    var q := if ack.deviceApplied then Advance(RailNoted(p, ack, now), DeviceApplied, NO_PATCH, now)
      else RailNoted(p, ack, now);
    if ack.recipientNotified then Advance(q, RecipientNotified, NO_PATCH, now) else q
  }

  function Gaps(p: Payment, ack: Ack): seq<Gap> {
    (if p.grade == NoGrade || p.grade == RejectedGrade then [ProofIncomplete] else [])
    + (if p.railId != "" && p.railSettlementId == "" && ack.railSettlementId == "" then [RailReceiptMissing] else [])
    + (if !ack.deviceApplied && p.state in {Settled, RailReserved} then [DeviceApplyPending] else [])
  }

  predicate Closable(p: Payment, ack: Ack) {
    ProofIncomplete !in Gaps(p, ack) && RailReceiptMissing !in Gaps(p, ack)
  }

  function DefaultReceipt(p: Payment): string { if |p.id| < 4 then "rcpt_" else "rcpt_" + p.id[4..] }

  /** Notes the rail receipt and the acknowledgements, and closes the payment when no gap but a pending device
      remains; the report of a closed payment does not look at the record again. */
  function Reconcile(p: Payment, ack: Ack, now: int): (Payment, Report) {
    var acked := Acknowledged(p, ack, now);
    if Closable(p, ack) && (ack.deviceApplied || acked.state in {DeviceApplied, RecipientNotified}) then
      var receipt := if acked.receiptId != "" then acked.receiptId else DefaultReceipt(acked);
      (Advance(acked, Reconciled, Patch(NoGrade, "", "", receipt), now), Report(true, Reconciled, [], receipt))
    else (acked, Report(|Gaps(p, ack)| == 0, acked.state, Gaps(p, ack), acked.receiptId))
  }

  /** Reconciliation reports the stored state, except that it reports an early or refused payment as reconciled
      when the device is acknowledged and no gap is found. */
  lemma ReportIsStoredIff(p: Payment, ack: Ack, now: int)
    ensures Reconcile(p, ack, now).1.state == Reconcile(p, ack, now).0.state <==>
      !(ack.deviceApplied && Closable(p, ack)
        && p.state in {Created, ProofPrepared, UserAuthorized, ProofVerified, RailReserved, ProofFailed, RailFailed,
                       ReversalPending, Refunded, ManualReview})
  {
    hide Closable, DefaultReceipt, Advance, Allowed;
    AdvanceState(p, p.state, Patch(NoGrade, "", ack.railSettlementId, ""), now);
    var q0 := RailNoted(p, ack, now);
    AdvanceState(q0, DeviceApplied, NO_PATCH, now);
    var q1 := if ack.deviceApplied then Advance(q0, DeviceApplied, NO_PATCH, now) else q0;
    AdvanceState(q1, RecipientNotified, NO_PATCH, now);
    var acked := Acknowledged(p, ack, now);
    AdvanceState(acked, Reconciled,
                 Patch(NoGrade, "", "", if acked.receiptId != "" then acked.receiptId else DefaultReceipt(acked)), now);
    LateEdges(p.state); LateEdges(q1.state); LateEdges(acked.state);
  }

  lemma AdvanceState(p: Payment, next: State, patch: Patch, now: int)
    ensures Advance(p, next, patch, now).state == if p.state == next || Edge(p.state, next) then next else p.state
  {
  }

  /** The calls that take a settlement up to its rail reservation, with a graded proof. */
  const RESERVING := [
    Move(ProofPrepared, NO_PATCH, 0),
    Move(UserAuthorized, NO_PATCH, 0),
    Move(ProofVerified, Patch(CompactRuntime, "", "", ""), 0),
    Move(RailReserved, Patch(NoGrade, "rail", "", ""), 0)]

  /** Such a payment exists: one with its rail reserved, whose device acknowledges before it is settled, is reported as
      reconciled and stays reserved. */
  lemma EarlyReport(id: string, userId: string)
    ensures var p := AdvanceAll(NewPayment(id, userId, 0), RESERVING);
      var (q, report) := Reconcile(p, Ack("s", true, false), 0);
      p.state == RailReserved && q.state == RailReserved && report.ok && report.state == Reconciled
  {
    hide Advance;
    var p0 := NewPayment(id, userId, 0);
    var p1 := Advance(p0, ProofPrepared, NO_PATCH, 0);
    var p2 := Advance(p1, UserAuthorized, NO_PATCH, 0);
    var p3 := Advance(p2, ProofVerified, Patch(CompactRuntime, "", "", ""), 0);
    var p4 := Advance(p3, RailReserved, Patch(NoGrade, "rail", "", ""), 0);
    EdgesEarly();
    EdgesMiddle();
    Moved(p0, ProofPrepared, NO_PATCH, 0);
    Moved(p1, UserAuthorized, NO_PATCH, 0);
    Moved(p2, ProofVerified, Patch(CompactRuntime, "", "", ""), 0);
    Moved(p3, RailReserved, Patch(NoGrade, "rail", "", ""), 0);
    assert RESERVING == [RESERVING[0]] + ([RESERVING[1]] + ([RESERVING[2]] + ([RESERVING[3]] + [])));
    FirstMove(p0, RESERVING[0], [RESERVING[1]] + ([RESERVING[2]] + ([RESERVING[3]] + [])));
    FirstMove(p1, RESERVING[1], [RESERVING[2]] + ([RESERVING[3]] + []));
    FirstMove(p2, RESERVING[2], [RESERVING[3]] + []);
    FirstMove(p3, RESERVING[3], []);
    ReservedReport(p4);
  }

  lemma Moved(p: Payment, next: State, patch: Patch, now: int)
    requires Edge(p.state, next)
    ensures var q := Advance(p, next, patch, now);
      q.state == next && q.grade == Patched(p, patch).grade && q.railId == Patched(p, patch).railId
  {
  }

  lemma FirstMove(p: Payment, m: Move, rest: seq<Move>)
    ensures AdvanceAll(p, [m] + rest) == AdvanceAll(Advance(p, m.next, m.patch, m.now), rest)
  {
    hide Advance;
    assert ([m] + rest)[1..] == rest;
  }

  lemma ReservedReport(p: Payment)
    requires p.state == RailReserved && p.grade == CompactRuntime
    ensures var (q, report) := Reconcile(p, Ack("s", true, false), 0);
      q.state == RailReserved && report.ok && report.state == Reconciled
  {
    hide DefaultReceipt, Advance, Allowed, Edge;
    LateEdges(RailReserved);
    var ack := Ack("s", true, false);
    AdvanceState(p, p.state, Patch(NoGrade, "", "s", ""), 0);
    AdvanceState(RailNoted(p, ack, 0), DeviceApplied, NO_PATCH, 0);
    var acked := Acknowledged(p, ack, 0);
    var receipt := if acked.receiptId != "" then acked.receiptId else DefaultReceipt(acked);
    AdvanceState(acked, Reconciled, Patch(NoGrade, "", "", receipt), 0);
    assert Closable(p, ack);
  }

  /** Which states lead to the closing ones. */
  lemma LateEdges(s: State)
    ensures Edge(s, DeviceApplied) <==> s in {Settled, DeviceApplyFailed}
    ensures Edge(s, RecipientNotified) <==> s in {Settled, DeviceApplied}
    ensures Edge(s, Reconciled) <==> s in {Settled, DeviceApplied, RecipientNotified}
  {
  }

  /** Reconciliation is a sequence of guarded calls. */
  lemma ReconcileLegal(p: Payment, ack: Ack, now: int)
    requires Legal(p) && Ordered(p.timeline)
    ensures Legal(Reconcile(p, ack, now).0) && Ordered(Reconcile(p, ack, now).0.timeline)
  {
    hide Legal, Ordered, Advance, Closable, DefaultReceipt, Gaps;
    AdvanceAllLegalStep(p, p.state, Patch(NoGrade, "", ack.railSettlementId, ""), now);
    AdvanceAllLegalStep(RailNoted(p, ack, now), DeviceApplied, NO_PATCH, now);
    var q := if ack.deviceApplied then Advance(RailNoted(p, ack, now), DeviceApplied, NO_PATCH, now)
      else RailNoted(p, ack, now);
    AdvanceAllLegalStep(q, RecipientNotified, NO_PATCH, now);
    var acked := Acknowledged(p, ack, now);
    var receipt := if acked.receiptId != "" then acked.receiptId else DefaultReceipt(acked);
    AdvanceAllLegalStep(acked, Reconciled, Patch(NoGrade, "", "", receipt), now);
  }

  lemma AdvanceAllLegalStep(p: Payment, next: State, patch: Patch, now: int)
    requires Legal(p) && Ordered(p.timeline)
    ensures Legal(Advance(p, next, patch, now)) && Ordered(Advance(p, next, patch, now).timeline)
  {
    hide Legal, Ordered, Advance;
    AdvanceLegal(p, next, patch, now);
    AdvanceOrdered(p, next, patch, now);
  }
}
