/** Which witnesses a queued circuit run uses: the bag is shared, and is copied only when a run starts. */
module CompactWitnesses {
  import opened Wrappers
  import opened WitnessBag
  import opened CompactLedger
  import opened CompactQueue
  import opened CompactTheorems

  /** Between its start and its settling. */
  predicate InHand<C>(p: Phase<C>) { p.Staged? || p.Ready? }

  /** The bag that a run with this snapshot leaves behind. */
  function Kept(snap: Snap): Bag { Restore(NO_BAG, snap) }

  /** Steps that set no witnesses and replay nothing over them outside a run: everything the queue does, whether the
      contract loads or not, and reads that find a cached context or no contract. */
  predicate QueueStep<C>(s: System<C>, e: Event) {
    e.Call? || e.Start? || e.Ensure? || e.Finish? || e.Release? || (e.Read? && (s.mem.cached.Some? || !e.loaded))
  }

  /** The bag is w, or will be when the run that has its context settles; and a run in hand holds w. */
  ghost predicate Holds<C(!new)>(s: System<C>, w: Bag) {
    && (forall i :: 0 <= i < |s.tasks| && InHand(s.tasks[i].phase) ==> Kept(s.tasks[i].phase.snap) == w)
    && ((forall i :: 0 <= i < |s.tasks| ==> !s.tasks[i].phase.Ready?) ==> s.mem.bag == w)
  }

  /** A snapshot of a bag with no opening dropped leaves the same whole bag wherever it is restored. */
  lemma SnapshotKept(snap: Snap, bag: Bag)
    requires Snapshot(snap)
    ensures Restore(bag, snap) == Kept(snap) && Whole(Kept(snap))
  {
    hide Restore, SnapOf, NoneDropped, Whole;
    var b: Bag :| NoneDropped(b) && snap == SnapOf(b);
    RestoreForgetsIff(b);
  }

  lemma WholeKept(w: Bag)
    requires Whole(w)
    ensures Kept(SnapOf(w)) == w
  {
    hide Restore, SnapOf, Whole;
    RestoreAnywhereIff(w);
  }

  /** A call that can start is alone in hand. */
  lemma NoneInHand<C>(tasks: seq<Task<C>>, chain: Option<nat>, i: nat)
    requires InOrder(tasks, chain) && i < |tasks| && tasks[i].phase.Queued? && Freed(tasks, tasks[i].after)
    ensures forall j :: 0 <= j < |tasks| ==> !InHand(tasks[j].phase)
  {
    forall j | 0 <= j < |tasks| ensures !InHand(tasks[j].phase) {
      if j < i - 1 { assert tasks[i - 1].phase.Released?; }
    }
  }

  lemma StartHolds<C(!new)>(m: Contract<C>, s: System<C>, i: nat, w: Bag)
    requires Inv(m, s) && Enabled(s, Start(i)) && Whole(w) && Holds(s, w)
    ensures s.mem.bag == w && Holds(Next(m, s, Start(i)), w)
  {
    hide Kept, SnapOf, Whole, NoneDropped, Coherent, LeavesOk, InFlight, InOrder, Freed;
    NoneInHand(s.tasks, s.chain, i);
    WholeKept(w);
  }

  /** Finishing puts back what the run holds, whatever is in the bag. */
  lemma FinishPutsBack<C(!new)>(m: Contract<C>, s: System<C>, i: nat)
    requires Sound(m) && Inv(m, s) && Enabled(s, Finish(i))
    ensures Holds(Next(m, s, Finish(i)), Kept(s.tasks[i].phase.snap))
  {
    hide Kept, Restore, SnapOf, Whole, NoneDropped, Coherent, LeavesOk, Snapshot, Sound, InOrder, Stage, Decode, Encode;
    SnapshotKept(s.tasks[i].phase.snap, s.mem.bag);
    forall j | 0 <= j < |s.tasks| && j != i ensures !InHand(s.tasks[j].phase) { OnlyOne(s.tasks, s.chain, i, j); }
  }

  /** A run that gets its context keeps its snapshot; one that gets none leaves the bag as it is. */
  lemma EnsureTasks<C(!new)>(m: Contract<C>, s: System<C>, i: nat, loaded: bool)
    requires Sound(m) && Inv(m, s) && Enabled(s, Ensure(i, loaded))
    ensures var s' := Next(m, s, Ensure(i, loaded));
      && s'.log == s.log && s'.chain == s.chain && i < |s'.tasks|
      && s'.tasks == s.tasks[i := s.tasks[i].(phase := s'.tasks[i].phase)]
      && (loaded ==> s'.tasks[i].phase.Ready? && s'.tasks[i].phase.snap == s.tasks[i].phase.snap)
      && (!loaded ==> s'.tasks[i].phase.Finished? && s'.mem == s.mem)
  {
    hide NoneDropped, LeavesOk, InFlight, Sound, InOrder, Ensured, RecordedLog, Meaning;
    EnsuredIs(m, s.log, s.mem, loaded);
  }

  lemma EnsureHolds<C(!new)>(m: Contract<C>, s: System<C>, i: nat, loaded: bool, w: Bag)
    requires Sound(m) && Inv(m, s) && Enabled(s, Ensure(i, loaded)) && Holds(s, w)
    ensures Holds(Next(m, s, Ensure(i, loaded)), w)
  {
    hide Kept, NoneDropped, LeavesOk, InFlight, Sound, InOrder, Coherent, Next;
    EnsureTasks(m, s, i, loaded);
    NothingElseReady(m, s, i);
    var s' := Next(m, s, Ensure(i, loaded));
    if loaded { assert s'.tasks[i].phase.Ready?; }
  }

  lemma NothingElseReady<C(!new)>(m: Contract<C>, s: System<C>, i: nat)
    requires Inv(m, s) && i < |s.tasks| && InHand(s.tasks[i].phase)
    ensures forall j :: 0 <= j < |s.tasks| && j != i ==> !InHand(s.tasks[j].phase)
  {
    hide NoneDropped, LeavesOk, InFlight, Coherent, InOrder;
    forall j | 0 <= j < |s.tasks| && j != i ensures !InHand(s.tasks[j].phase) { OnlyOne(s.tasks, s.chain, i, j); }
  }

  lemma StepHolds<C(!new)>(m: Contract<C>, s: System<C>, e: Event, w: Bag)
    requires Sound(m) && Inv(m, s) && Enabled(s, e) && QueueStep(s, e) && Whole(w) && Holds(s, w)
    ensures Holds(Next(m, s, e), w)
  {
    match e
    case Start(i) => StartHolds(m, s, i, w);
    case Ensure(i, loaded) => EnsureHolds(m, s, i, loaded, w);
    case Finish(i) => FinishPutsBack(m, s, i);
    case Release(i) => ReleaseHolds(m, s, i, w);
    case Call(circuit, args) => CallHolds(m, s, circuit, args, w);
    case Read(loaded) =>
    case _ =>
  }

  lemma ReleaseHolds<C(!new)>(m: Contract<C>, s: System<C>, i: nat, w: Bag)
    requires Enabled(s, Release(i)) && Holds(s, w)
    ensures Holds(Next(m, s, Release(i)), w)
  {
    hide Kept, NoneDropped;
    var s' := Next(m, s, Release(i));
    assert forall j :: 0 <= j < |s.tasks| ==> (InHand(s'.tasks[j].phase) <==> InHand(s.tasks[j].phase));
    assert forall j :: 0 <= j < |s.tasks| ==> (s'.tasks[j].phase.Ready? <==> s.tasks[j].phase.Ready?);
  }

  lemma CallHolds<C(!new)>(m: Contract<C>, s: System<C>, circuit: string, args: seq<string>, w: Bag)
    requires Holds(s, w)
    ensures Holds(Next(m, s, Call(circuit, args)), w)
  {
    hide Kept, NoneDropped;
    var s' := Next(m, s, Call(circuit, args));
    assert forall j :: 0 <= j < |s.tasks| ==> s'.tasks[j] == s.tasks[j];
  }

  lemma {:induction false} RunHolds<C(!new)>(m: Contract<C>, ss: seq<System<C>>, es: seq<Event>, i: nat, k: nat, w: Bag)
    requires Sound(m) && Run(m, ss, es) && i <= k < |ss| && Whole(w) && Holds(ss[i], w)
    requires forall j :: i <= j < k && j < |es| ==> QueueStep(ss[j], es[j])
    ensures Holds(ss[k], w)
    decreases k
  {
    hide Sound, Run, Holds, Inv, Whole, Next, Enabled, QueueStep;
    if i < k {
      RunLength(m, ss, es);
      RunHolds(m, ss, es, i, k - 1, w);
      RunStep(m, ss, es, k - 1);
      RunKeeps(m, ss, es, k - 1);
      StepHolds(m, ss[k - 1], es[k - 1], w);
    }
  }

  /* Witnesses set while a run is in hand */

  /** Run i is in hand, and the bag is still w unless the run has its context, from which it may have been replayed. */
  ghost predicate Pending<C(!new)>(s: System<C>, i: nat, snap: Snap, w: Bag) {
    && i < |s.tasks| && InHand(s.tasks[i].phase) && s.tasks[i].phase.snap == snap
    && (s.tasks[i].phase.Staged? ==> s.mem.bag == w)
  }

  /** Run i ends by a contract that does not load. */
  predicate FailsToLoad(e: Event, i: nat) { e == Ensure(i, false) }

  /** The run in hand goes on, or ends: with its snapshot back in the bag, or with the bag untouched when it could not
      load its contract. */
  lemma PendingStep<C(!new)>(m: Contract<C>, s: System<C>, e: Event, i: nat, snap: Snap, w: Bag)
    requires Sound(m) && Inv(m, s) && Enabled(s, e) && QueueStep(s, e) && Pending(s, i, snap, w)
    ensures var s' := Next(m, s, e);
      if e == Finish(i) then Holds(s', Kept(snap))
      else if FailsToLoad(e, i) then Holds(s', w)
      else Pending(s', i, snap, w)
  {
    hide Kept, NoneDropped, LeavesOk, InFlight, Sound, InOrder, Coherent, Freed, RunCall, SnapOf;
    NothingElseReady(m, s, i);
    match e
    case Finish(j) => FinishPutsBack(m, s, j);
    case Ensure(j, loaded) => EnsureTasks(m, s, j, loaded);
    case Start(j) => NotStarting(m, s, i, j);
    case Release(j) =>
    case Call(circuit, args) =>
    case Read(loaded) =>
    case _ =>
  }

  /** No call starts while another is in hand. */
  lemma NotStarting<C(!new)>(m: Contract<C>, s: System<C>, i: nat, j: nat)
    requires Inv(m, s) && i < |s.tasks| && InHand(s.tasks[i].phase)
    ensures !Enabled(s, Start(j))
  {
    hide NoneDropped, LeavesOk, InFlight, Coherent, InOrder, Freed;
    if Enabled(s, Start(j)) {
      NoneInHand(s.tasks, s.chain, j);
      assert false;
    }
  }

  predicate Over<C>(p: Phase<C>) { p.Finished? || p.Released? }

  predicate FailedToLoad(es: seq<Event>, c: nat, k: nat, i: nat)
    requires k <= |es|
  {
    exists j :: c <= j < k && FailsToLoad(es[j], i)
  }

  /** At k the run that was in hand at c is in hand still, or it is over: then the bag will be w if the run could not
      load its contract, and what the run held if it finished. */
  ghost predicate Followed<C(!new)>(ss: seq<System<C>>, es: seq<Event>, c: nat, k: nat, i: nat, snap: Snap, w: Bag)
    requires k < |ss| && k <= |es|
  {
    if Pending(ss[k], i, snap, w) then
      !FailedToLoad(es, c, k, i)
    else
      (&& i < |ss[k].tasks| && Over(ss[k].tasks[i].phase)
       && Holds(ss[k], if FailedToLoad(es, c, k, i) then w else Kept(snap)))
  }

  lemma FailedNext(es: seq<Event>, c: nat, k: nat, i: nat)
    requires c <= k < |es|
    ensures FailedToLoad(es, c, k + 1, i) <==> FailedToLoad(es, c, k, i) || FailsToLoad(es[k], i)
  {
    hide FailsToLoad;
  }

  lemma OverStays<C(!new)>(m: Contract<C>, s: System<C>, e: Event, i: nat)
    requires Enabled(s, e) && QueueStep(s, e) && i < |s.tasks| && Over(s.tasks[i].phase)
    ensures !FailsToLoad(e, i) && i < |Next(m, s, e).tasks| && Over(Next(m, s, e).tasks[i].phase)
  {
    hide NoneDropped, Freed, Ensured, RunCall, SnapOf;
  }

  lemma {:induction false} FollowRun<C(!new)>(m: Contract<C>, ss: seq<System<C>>, es: seq<Event>, c: nat, k: nat,
                                       i: nat,
                                              snap: Snap, w: Bag)
    requires Sound(m) && Run(m, ss, es) && c <= k < |ss| && Whole(w) && Snapshot(snap) && Pending(ss[c], i, snap, w)
    requires forall j :: c <= j < k && j < |es| ==> QueueStep(ss[j], es[j])
    ensures k <= |es| && Followed(ss, es, c, k, i, snap, w)
    decreases k
  {
    hide Sound, Run, Holds, Inv, Whole, Next, Enabled, QueueStep, Pending, FailedToLoad, Kept, Over, Snapshot;
    RunLength(m, ss, es);
    if c < k {
      FollowRun(m, ss, es, c, k - 1, i, snap, w);
      RunStep(m, ss, es, k - 1);
      RunKeeps(m, ss, es, k - 1);
      FailedNext(es, c, k - 1, i);
      SnapshotKept(snap, w);
      var (s, e) := (ss[k - 1], es[k - 1]);
      if Pending(s, i, snap, w) {
        PendingStep(m, s, e, i, snap, w);
        if e == Finish(i) || FailsToLoad(e, i) { PendingEnds(m, s, e, i, snap, w); }
      } else {
        OverStays(m, s, e, i);
        StepHolds(m, s, e, if FailedToLoad(es, c, k - 1, i) then w else Kept(snap));
        OverNotPending(ss[k], i, snap, w);
      }
    } else {
      NothingFailed(es, c, i);
    }
  }

  lemma NothingFailed(es: seq<Event>, c: nat, i: nat)
    requires c <= |es|
    ensures !FailedToLoad(es, c, c, i)
  {
  }

  lemma OverNotPending<C(!new)>(s: System<C>, i: nat, snap: Snap, w: Bag)
    requires i < |s.tasks| && Over(s.tasks[i].phase)
    ensures !Pending(s, i, snap, w)
  {
  }

  /** The two ways in which a run in hand ends. */
  lemma PendingEnds<C(!new)>(m: Contract<C>, s: System<C>, e: Event, i: nat, snap: Snap, w: Bag)
    requires Sound(m) && Inv(m, s) && Enabled(s, e) && Pending(s, i, snap, w) && (e == Finish(i) || FailsToLoad(e, i))
    ensures i < |Next(m, s, e).tasks| && Over(Next(m, s, e).tasks[i].phase) && !Pending(Next(m, s, e), i, snap, w)
    ensures e == Finish(i) ==> !FailsToLoad(e, i)
  {
    hide Kept, NoneDropped, LeavesOk, InFlight, Sound, InOrder, Coherent, RunCall, Snapshot;
    if FailsToLoad(e, i) { EnsureTasks(m, s, i, false); }
  }

  /** No run in hand when the witnesses were set puts others back: it holds the same, or fails to load its contract. */
  predicate Undisturbed<C>(tasks: seq<Task<C>>, es: seq<Event>, c: nat, k: nat, w: Bag)
    requires k <= |es|
  {
    forall i :: 0 <= i < |tasks| && InHand(tasks[i].phase) ==>
      Kept(tasks[i].phase.snap) == w || FailedToLoad(es, c, k, i)
  }

  /** A caller sets its witnesses, nobody sets others, and no reader replays the log. Whatever run starts next, such as
      that of a call the caller makes, is staged with those witnesses exactly when the run in hand at the moment they
      were set, if there was one, held the same or could not load its contract. Otherwise it is staged with the
      witnesses of that other run. */
  lemma StagedWitnessesIff<C(!new)>(m: Contract<C>, ss: seq<System<C>>, es: seq<Event>, c: nat, k: nat, t: nat, w: Bag)
    requires Sound(m) && Run(m, ss, es) && c < k < |es| < |ss| && Whole(w)
    requires es[c] == SetWitnesses(w) && es[k] == Start(t)
    requires forall j :: c < j < k ==> QueueStep(ss[j], es[j])
    ensures t < |ss[k + 1].tasks| && ss[k + 1].tasks[t].phase.Staged?
    ensures ss[k + 1].tasks[t].phase.snap == SnapOf(w) <==> Undisturbed(ss[c].tasks, es, c + 1, k, w)
    ensures forall i :: 0 <= i < |ss[c].tasks| && InHand(ss[c].tasks[i].phase) && !FailedToLoad(es, c + 1, k, i) ==>
      ss[k + 1].tasks[t].phase.snap == SnapOf(Kept(ss[c].tasks[i].phase.snap))
  {
    hide Sound, Run, Whole, Kept, Inv, SnapOf, NoneDropped, Holds, Freed, Ensured, RunCall, FailedToLoad, QueueStep,
      Snapshot, Pending;
    RunStep(m, ss, es, c);
    RunStep(m, ss, es, k);
    RunKeeps(m, ss, es, c);
    RunKeeps(m, ss, es, k);
    WitnessesAtStart(m, ss, es, c + 1, k, t);
    if i :| 0 <= i < |ss[c].tasks| && InHand(ss[c].tasks[i].phase) {
      var snap := ss[c].tasks[i].phase.snap;
      InHandSnapshot(m, ss[c], ss[c + 1], i, w);
      NothingElseReady(m, ss[c], i);
      FollowRun(m, ss, es, c + 1, k, i, snap, w);
      NotPendingAtStart(m, ss[k], t, i, snap, w);
      SnapshotKept(snap, w);
      StartHolds(m, ss[k], t, if FailedToLoad(es, c + 1, k, i) then w else Kept(snap));
    } else {
      SetHolds(ss[c], ss[c + 1], w);
      RunHolds(m, ss, es, c + 1, k, w);
      StartHolds(m, ss[k], t, w);
    }
  }

  lemma InHandSnapshot<C(!new)>(m: Contract<C>, s: System<C>, s': System<C>, i: nat, w: Bag)
    requires Inv(m, s) && i < |s.tasks| && InHand(s.tasks[i].phase) && s'.tasks == s.tasks && s'.mem.bag == w
    ensures Snapshot(s.tasks[i].phase.snap) && Pending(s', i, s.tasks[i].phase.snap, w)
  {
    hide NoneDropped, LeavesOk, Coherent, InOrder, Snapshot;
  }

  lemma NotPendingAtStart<C(!new)>(m: Contract<C>, s: System<C>, t: nat, i: nat, snap: Snap, w: Bag)
    requires Inv(m, s) && Enabled(s, Start(t))
    ensures !Pending(s, i, snap, w)
  {
    hide Inv, Enabled;
    if Pending(s, i, snap, w) { NotStarting(m, s, i, t); }
  }

  lemma SetHolds<C(!new)>(s: System<C>, s': System<C>, w: Bag)
    requires s'.tasks == s.tasks && s'.mem.bag == w && forall i :: 0 <= i < |s.tasks| ==> !InHand(s.tasks[i].phase)
    ensures Holds(s', w)
  {
    hide Kept;
  }

  /* Two callers */

  /** A started call whose entry is e when it runs alone takes its three further steps, appends e and puts its witnesses
      back into the bag. */
  lemma RunOut<C(!new)>(m: Contract<C>, s: System<C>, i: nat, e: Entry, w: Bag)
    requires Sound(m) && Inv(m, s) && i < |s.tasks| && s.tasks[i].phase.Staged? && Kept(s.tasks[i].phase.snap) == w
    requires Alone(m, s.log, s.tasks[i].circuit, s.tasks[i].args, s.tasks[i].phase.snap) == Some(e)
    ensures Enabled(s, Ensure(i, true))
    ensures var t := Next(m, s, Ensure(i, true));
      Enabled(t, Finish(i)) && Enabled(Next(m, t, Finish(i)), Release(i))
    ensures var v := Next(m, Next(m, Next(m, s, Ensure(i, true)), Finish(i)), Release(i));
      && Inv(m, v) && Holds(v, w) && v.log == s.log + [e] && v.chain == s.chain
      && v.tasks == s.tasks[i := s.tasks[i].(phase := Released(true))]
  {
    hide Sound, Inv, Whole, Holds, SnapOf, NoneDropped, Alone, RunCall, Ensured, Freed, Kept;
    EnsureTasks(m, s, i, true);
    NextKeeps(m, s, Ensure(i, true));
    var t := Next(m, s, Ensure(i, true));
    FinishKeeps(m, t, i);
    FinishPutsBack(m, t, i);
    var u := Next(m, t, Finish(i));
    NextKeeps(m, u, Release(i));
    ReleaseHolds(m, u, i, w);
  }

  /** The entry of a run alone records the whole bag it was staged with. */
  lemma AloneRecords<C(!new)>(m: Contract<C>, log: seq<Entry>, circuit: string, args: seq<string>, w: Bag)
    requires Whole(w) && Alone(m, log, circuit, args, SnapOf(w)).Some?
    ensures Alone(m, log, circuit, args, SnapOf(w)).value.witnesses == SnapOf(w)
  {
    hide Restore, SnapOf, Whole, Decode, Encode, Stage, Meaning;
    WholeKept(w);
  }

  ghost predicate Steps<C(!new)>(m: Contract<C>, ss: seq<System<C>>, es: seq<Event>) {
    && |ss| == |es| + 1
    && forall k :: 0 <= k < |es| ==> Enabled(ss[k], es[k]) && ss[k + 1] == Next(m, ss[k], es[k])
  }

  lemma Joined<C(!new)>(m: Contract<C>, ss: seq<System<C>>, es: seq<Event>, ts: seq<System<C>>, fs: seq<Event>)
    requires Steps(m, ss, es) && Steps(m, ts, fs) && ss[|es|] == ts[0]
    ensures Steps(m, ss + ts[1..], es + fs)
  {
    hide Enabled, Next;
    var us, gs := ss + ts[1..], es + fs;
    assert forall k :: |es| <= k < |us| ==> us[k] == ts[k - |es|];
    forall k | 0 <= k < |gs| ensures Enabled(us[k], gs[k]) && us[k + 1] == Next(m, us[k], gs[k]) {
      if k >= |es| { assert gs[k] == fs[k - |es|]; }
    }
  }

  function FirstEvents(a: Bag, b: Bag, first: string, xs: seq<string>, second: string, ys: seq<string>): seq<Event> {
    [SetWitnesses(a), Call(first, xs), Start(0), SetWitnesses(b), Call(second, ys)]
  }

  const LAST_EVENTS := [Ensure(0, true), Finish(0), Release(0), Start(1), Ensure(1, true), Finish(1), Release(1)]

  /** The second call queues behind the first, which is staged with a. */
  lemma Queueing<C(!new)>(m: Contract<C>, s: System<C>, a: Bag, b: Bag, first: string, xs: seq<string>,
                          second: string, ys: seq<string>) returns (ss: seq<System<C>>)
    requires Sound(m) && Init(m, s) && Whole(a) && Whole(b)
    ensures Steps(m, ss, FirstEvents(a, b, first, xs, second, ys)) && ss[0] == s
    ensures Inv(m, ss[5]) && ss[5].log == s.log
    ensures ss[5].tasks == [Task(first, xs, None, Staged(SnapOf(a))), Task(second, ys, Some(0), Queued)]
  {
    hide Sound, Inv, Whole, SnapOf, Ensured, RunCall, NoneDropped, RecordedLog, Meaning, LeavesOk, Holds;
    InitInv(m, s);
    WholeDropsNone(a);
    WholeDropsNone(b);
    var s1 := Next(m, s, SetWitnesses(a));
    var s2 := Next(m, s1, Call(first, xs));
    var s3 := Next(m, s2, Start(0));
    var s4 := Next(m, s3, SetWitnesses(b));
    var s5 := Next(m, s4, Call(second, ys));
    NextKeeps(m, s, SetWitnesses(a));
    NextKeeps(m, s1, Call(first, xs));
    NextKeeps(m, s2, Start(0));
    NextKeeps(m, s3, SetWitnesses(b));
    NextKeeps(m, s4, Call(second, ys));
    ss := [s, s1, s2, s3, s4, s5];
  }

  lemma Starting<C(!new)>(m: Contract<C>, s: System<C>, i: nat)
    requires Enabled(s, Start(i))
    ensures var s' := Next(m, s, Start(i));
      && i < |s.tasks| && s'.log == s.log && s'.chain == s.chain
      && s'.tasks == s.tasks[i := s.tasks[i].(phase := Staged(SnapOf(s.mem.bag)))]
  {
    hide SnapOf, Freed, NoneDropped;
  }

  /** The first call settles, which puts a back, and the second runs with it. */
  lemma Settling<C(!new)>(m: Contract<C>, s: System<C>, a: Bag, first: string, xs: seq<string>,
                          second: string, ys: seq<string>, e: Entry, f: Entry) returns (ss: seq<System<C>>)
    requires Sound(m) && Inv(m, s) && Whole(a)
    requires s.tasks == [Task(first, xs, None, Staged(SnapOf(a))), Task(second, ys, Some(0), Queued)]
    requires Alone(m, s.log, first, xs, SnapOf(a)) == Some(e)
    requires Alone(m, s.log + [e], second, ys, SnapOf(a)) == Some(f)
    ensures Steps(m, ss, LAST_EVENTS) && ss[0] == s && ss[7].log == s.log + [e, f]
  {
    hide Sound, Inv, Whole, SnapOf, Alone, NoneDropped, Holds, Next;
    WholeKept(a);
    RunOut(m, s, 0, e, a);
    var s6 := Next(m, s, Ensure(0, true));
    var s7 := Next(m, s6, Finish(0));
    var s8 := Next(m, s7, Release(0));
    StartHolds(m, s8, 1, a);
    NextKeeps(m, s8, Start(1));
    var s9 := Next(m, s8, Start(1));
    Starting(m, s8, 1);
    RunOut(m, s9, 1, f, a);
    var s10 := Next(m, s9, Ensure(1, true));
    var s11 := Next(m, s10, Finish(1));
    ss := [s, s6, s7, s8, s9, s10, s11, Next(m, s11, Release(1))];
    assert s.log + [e] + [f] == s.log + [e, f];
  }

  /** Two payments at once. The second caller sets its witnesses b and calls while the first run, with a, is in hand:
      from any log and for any circuits that run, the entry of the second call records a, and b is used by neither. */
  lemma TwoCallers<C(!new)>(m: Contract<C>, s: System<C>, a: Bag, b: Bag, first: string, xs: seq<string>,
                            second: string, ys: seq<string>, e: Entry, f: Entry)
    returns (ss: seq<System<C>>)
    requires Sound(m) && Init(m, s) && Whole(a) && Whole(b)
    requires Alone(m, s.log, first, xs, SnapOf(a)) == Some(e)
    requires Alone(m, s.log + [e], second, ys, SnapOf(a)) == Some(f)
    ensures Run(m, ss, FirstEvents(a, b, first, xs, second, ys) + LAST_EVENTS) && ss[0] == s
    ensures ss[12].log == s.log + [e, f] && f.witnesses == SnapOf(a)
  {
    hide Sound, Inv, Whole, SnapOf, Alone, Holds, Init, Next, Enabled;
    AloneRecords(m, s.log + [e], second, ys, a);
    var ts := Queueing(m, s, a, b, first, xs, second, ys);
    var us := Settling(m, ts[5], a, first, xs, second, ys, e, f);
    Joined(m, ts, FirstEvents(a, b, first, xs, second, ys), us, LAST_EVENTS);
    ss := ts + us[1..];
  }

  lemma InitInv<C(!new)>(m: Contract<C>, s: System<C>)
    requires Init(m, s)
    ensures Inv(m, s)
  {
    hide NoneDropped, LeavesOk, RecordedLog, Meaning;
  }
}
