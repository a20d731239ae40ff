/** Concurrent callers of the Compact ledger. Calls queue on a chain of promises; each call runs in pieces, between
    which any other caller may set witnesses, read the ledger or queue, and the process may restart. */
module CompactQueue {
  import opened Wrappers
  import opened Sequences
  import opened WitnessBag
  import opened CompactLedger

  /** Queued on the chain; started, its witnesses snapshotted, waiting for the contract to load; holding its context;
      settled; settled and seen by the chain. */
  datatype Phase<C> = Queued | Staged(snap: Snap) | Ready(snap: Snap, ctx: C) | Finished(ok: bool) | Released(ok: bool)

  /** `after` is the call whose release the chain was waiting for when this one joined; None is the first promise. */
  datatype Task<C> = Task(circuit: string, args: seq<string>, after: Option<nat>, phase: Phase<C>)

  datatype System<C> = System(mem: Memory<C>, log: seq<Entry>, leaves: seq<string>, tasks: seq<Task<C>>,
                              chain: Option<nat>)

  datatype Event =
    | SetWitnesses(bag: Bag)
    | Call(circuit: string, args: seq<string>)
    | Start(task: nat)
    | Ensure(task: nat, loaded: bool)
    | Finish(task: nat)
    | Release(task: nat)
    | Read(loaded: bool)
    | Restart(bag: Bag)

  predicate Freed<C>(tasks: seq<Task<C>>, after: Option<nat>) {
    after == None || (after.value < |tasks| && tasks[after.value].phase.Released?)
  }

  predicate Enabled<C>(s: System<C>, e: Event) {
    match e
    case SetWitnesses(bag) => NoneDropped(bag)
    case Restart(bag) => NoneDropped(bag)
    case Start(i) => i < |s.tasks| && s.tasks[i].phase.Queued? && Freed(s.tasks, s.tasks[i].after)
    case Ensure(i, _) => i < |s.tasks| && s.tasks[i].phase.Staged?
    case Finish(i) => i < |s.tasks| && s.tasks[i].phase.Ready?
    case Release(i) => i < |s.tasks| && s.tasks[i].phase.Finished?
    case _ => true
  }

  function Moved<C>(s: System<C>, i: nat, phase: Phase<C>): System<C>
    requires i < |s.tasks|
  {
    s.(tasks := s.tasks[i := s.tasks[i].(phase := phase)])
  }

  function Next<C>(m: Contract<C>, s: System<C>, e: Event): System<C>
    requires Enabled(s, e)
  {
    match e
    case SetWitnesses(bag) => s.(mem := s.mem.(bag := bag))
    case Call(circuit, args) => s.(tasks := s.tasks + [Task(circuit, args, s.chain, Queued)], chain := Some(|s.tasks|))
    case Start(i) => Moved(s, i, Staged(SnapOf(s.mem.bag)))
    case Ensure(i, loaded) =>
      var (mem, ctx) := Ensured(m, s.log, s.mem, loaded);
      Moved(s.(mem := mem), i, if ctx.Some? then Ready(s.tasks[i].phase.snap, ctx.value) else Finished(false))
    case Finish(i) =>
      var t := s.tasks[i];
      var (mem, entry) := RunCall(m, s.mem, t.phase.ctx, t.circuit, t.args, t.phase.snap);
      Moved(Logged(s, entry).(mem := mem), i, Finished(entry.Some?))
    case Release(i) => Moved(s, i, Released(s.tasks[i].phase.ok))
    case Read(loaded) => s.(mem := Ensured(m, s.log, s.mem, loaded).0)
    case Restart(bag) => s.(mem := Memory(bag, None, None), tasks := [], chain := None)
  }

  function Logged<C>(s: System<C>, entry: Option<Entry>): System<C> {
    if entry == None then s else s.(log := s.log + [entry.value], leaves := WithLeaf(s.leaves, entry.value))
  }

  /* The invariant */

  /** Each call waits for the one before it, and only the first call not yet released may have started. */
  predicate InOrder<C>(tasks: seq<Task<C>>, chain: Option<nat>) {
    && chain == (if |tasks| == 0 then None else Some(|tasks| - 1))
    && (forall i :: 0 <= i < |tasks| ==> tasks[i].after == if i == 0 then None else Some(i - 1))
    && (forall i, j :: 0 <= i < j < |tasks| && !tasks[j].phase.Queued? ==> tasks[i].phase.Released?)
  }

  ghost predicate Snapshot(snap: Snap) { exists b: Bag :: NoneDropped(b) && snap == SnapOf(b) }

  /** A started call holds a whole snapshot, and its context is still the cached one. */
  ghost predicate InFlight<C(!new)>(tasks: seq<Task<C>>, cached: Option<C>) {
    forall i :: 0 <= i < |tasks| ==>
      (tasks[i].phase.Staged? ==> Snapshot(tasks[i].phase.snap))
      && (tasks[i].phase.Ready? ==> Snapshot(tasks[i].phase.snap) && cached == Some(tasks[i].phase.ctx))
  }

  /** The cache is absent or what the log means. */
  ghost predicate Coherent<C(!new)>(m: Contract<C>, log: seq<Entry>, cached: Option<C>) {
    RecordedLog(log) && Meaning(m, log).Some? && (cached.Some? ==> cached == Meaning(m, log))
  }

  predicate PublishedIn(log: seq<Entry>, leaf: string) {
    exists i :: 0 <= i < |log| && log[i].circuit == PUBLISH_LEAF && |log[i].args| > 0 && log[i].args[0] == leaf
  }

  ghost predicate LeavesOk(log: seq<Entry>, leaves: seq<string>) {
    && NoDuplicates(leaves)
    && (forall leaf :: leaf in leaves <==> PublishedIn(log, leaf))
  }

  ghost predicate Inv<C(!new)>(m: Contract<C>, s: System<C>) {
    && Coherent(m, s.log, s.mem.cached)
    && NoneDropped(s.mem.bag)
    && InOrder(s.tasks, s.chain)
    && InFlight(s.tasks, s.mem.cached)
    && LeavesOk(s.log, s.leaves)
  }

  /* Preservation */

  lemma EnsuredIs<C(!new)>(m: Contract<C>, log: seq<Entry>, mem: Memory<C>, loaded: bool)
    requires Sound(m) && Coherent(m, log, mem.cached) && NoneDropped(mem.bag)
    ensures var (after, ctx) := Ensured(m, log, mem, loaded);
      && (ctx == if loaded then Meaning(m, log) else None)
      && (if loaded then after.cached == Meaning(m, log) else after == mem)
      && NoneDropped(after.bag)
      && (mem.cached.Some? ==> after == mem)
  {
    hide Sound, Recorded, NoneDropped;
    ReplayMeans(m, log, mem.bag, mem.pending);
  }

  lemma OrderMoved<C>(tasks: seq<Task<C>>, chain: Option<nat>, i: nat, phase: Phase<C>)
    requires InOrder(tasks, chain) && i < |tasks|
    requires tasks[i].phase.Queued? ==> Freed(tasks, tasks[i].after)
    requires !tasks[i].phase.Released? && !phase.Queued?
    ensures InOrder(tasks[i := tasks[i].(phase := phase)], chain)
  {
    var ts := tasks[i := tasks[i].(phase := phase)];
    forall a, b | 0 <= a < b < |ts| && !ts[b].phase.Queued? ensures ts[a].phase.Released? {
      if b == i && tasks[i].phase.Queued? && a < i - 1 { assert tasks[i - 1].phase.Released?; }
    }
  }

  lemma FlightMoved<C(!new)>(tasks: seq<Task<C>>, cached: Option<C>, cached': Option<C>, i: nat, phase: Phase<C>)
    requires InFlight(tasks, cached) && i < |tasks|
    requires phase.Staged? ==> Snapshot(phase.snap)
    requires phase.Ready? ==> Snapshot(phase.snap) && cached' == Some(phase.ctx)
    requires cached' == cached || cached == None || forall j :: 0 <= j < |tasks| && j != i ==> !tasks[j].phase.Ready?
    ensures InFlight(tasks[i := tasks[i].(phase := phase)], cached')
  {
    hide Snapshot;
  }

  /** A call that has started is the only one. */
  lemma OnlyOne<C>(tasks: seq<Task<C>>, chain: Option<nat>, i: nat, j: nat)
    requires InOrder(tasks, chain) && i < |tasks| && j < |tasks| && i != j
    requires !tasks[i].phase.Queued? && !tasks[i].phase.Released?
    ensures tasks[j].phase == if i < j then Queued else Released(tasks[j].phase.Released? && tasks[j].phase.ok)
  {
  }

  lemma SnapshotOf(b: Bag)
    requires NoneDropped(b)
    ensures Snapshot(SnapOf(b))
  {
  }

  lemma FinishKeeps<C(!new)>(m: Contract<C>, s: System<C>, i: nat)
    requires Sound(m) && Inv(m, s) && Enabled(s, Finish(i))
    ensures Inv(m, Next(m, s, Finish(i)))
    ensures RefinesRun(m, s, i)
  {
    hide RunCall, Sound, Recorded, RecordedLog, NoneDropped, SnapOf, InOrder, Meaning, LeavesOk, Freed, WithLeaf;
    var t := s.tasks[i];
    assert s.mem.cached == Some(t.phase.ctx);
    var b: Bag :| NoneDropped(b) && t.phase.snap == SnapOf(b);
    EntryReplays(m, s.log, s.mem, t.circuit, t.args, b);
    EntryReplays(m, s.log, Memory(NO_BAG, None, None), t.circuit, t.args, b);
    RunIgnores(m, s.mem, Memory(NO_BAG, None, None), t.phase.ctx, t.circuit, t.args, b);
    var (mem, entry) := RunCall(m, s.mem, t.phase.ctx, t.circuit, t.args, t.phase.snap);
    OrderMoved(s.tasks, s.chain, i, Finished(entry.Some?));
    forall j | 0 <= j < |s.tasks| && j != i ensures !s.tasks[j].phase.Ready? { OnlyOne(s.tasks, s.chain, i, j); }
    FlightMoved(s.tasks, s.mem.cached, mem.cached, i, Finished(entry.Some?));
    if entry.Some? {
      RecordedGrows(s.log, entry.value);
      LeavesGrow(s.log, s.leaves, entry.value);
    }
  }

  lemma RecordedGrows(log: seq<Entry>, e: Entry)
    requires RecordedLog(log) && Recorded(e)
    ensures RecordedLog(log + [e])
  {
    hide Recorded;
  }

  lemma LeavesGrow(log: seq<Entry>, leaves: seq<string>, e: Entry)
    requires LeavesOk(log, leaves)
    ensures LeavesOk(log + [e], WithLeaf(leaves, e))
  {
    forall leaf ensures PublishedIn(log + [e], leaf) <==>
        PublishedIn(log, leaf) || (e.circuit == PUBLISH_LEAF && |e.args| > 0 && e.args[0] == leaf) {
      if e.circuit == PUBLISH_LEAF && |e.args| > 0 && e.args[0] == leaf { assert (log + [e])[|log|] == e; }
      if i :| 0 <= i < |log| && log[i].circuit == PUBLISH_LEAF && |log[i].args| > 0 && log[i].args[0] == leaf {
        assert (log + [e])[i] == log[i];
      }
    }
  }

  /** A run's result depends on its context, its call and its snapshot alone. */
  lemma RunIgnores<C(!new)>(m: Contract<C>, mem: Memory<C>, mem': Memory<C>, ctx: C, circuit: string,
                     args: seq<string>, b: Bag)
    requires Sound(m) && NoneDropped(b)
    ensures RunCall(m, mem, ctx, circuit, args, SnapOf(b)).1 == RunCall(m, mem', ctx, circuit, args, SnapOf(b)).1
    ensures RunCall(m, mem, ctx, circuit, args, SnapOf(b)).1.Some? ==>
      RunCall(m, mem, ctx, circuit, args, SnapOf(b)).0.cached
        == RunCall(m, mem', ctx, circuit, args, SnapOf(b)).0.cached
  {
    hide Restore, SnapOf, Stage, Decode, Encode, NoneDropped, Sound;
    RestoreForgetsIff(b);
    assert Restore(mem.bag, SnapOf(b)) == Restore(mem'.bag, SnapOf(b));
    ExecBlind(m, circuit, ctx, Decode(m, args), Restore(mem.bag, SnapOf(b)), mem.pending, mem'.pending);
  }

  /** One call against the log alone: a process that starts cold, replays the log and runs nothing else. */
  function Alone<C>(m: Contract<C>, log: seq<Entry>, circuit: string, args: seq<string>, snap: Snap): Option<Entry> {
    match Meaning(m, log)
    case None => None
    case Some(ctx) => RunCall(m, Memory(NO_BAG, None, None), ctx, circuit, args, snap).1
  }

  /** Finishing a call does to the log what that call does alone, whatever ran beside it; a call that fails leaves
      the log, the inserted leaves and the cached context as they were. */
  ghost predicate RefinesRun<C(!new)>(m: Contract<C>, s: System<C>, i: nat)
    requires Enabled(s, Finish(i))
  {
    var (t, s') := (s.tasks[i], Next(m, s, Finish(i)));
    match Alone(m, s.log, t.circuit, t.args, t.phase.snap)
    case None =>
      s'.tasks[i].phase == Finished(false) && s'.log == s.log && s'.leaves == s.leaves && s'.mem.cached == s.mem.cached
    case Some(e) => s'.tasks[i].phase == Finished(true) && s'.log == s.log + [e]
  }

  lemma EnsureKeeps<C(!new)>(m: Contract<C>, s: System<C>, i: nat, loaded: bool)
    requires Sound(m) && Inv(m, s) && Enabled(s, Ensure(i, loaded))
    ensures Inv(m, Next(m, s, Ensure(i, loaded)))
  {
    hide Ensured, Sound, Recorded, RecordedLog, NoneDropped, SnapOf, InOrder, Meaning, LeavesOk, Freed;
    EnsuredIs(m, s.log, s.mem, loaded);
    var (mem, ctx) := Ensured(m, s.log, s.mem, loaded);
    var phase := if ctx.Some? then Ready(s.tasks[i].phase.snap, ctx.value) else Finished(false);
    OrderMoved(s.tasks, s.chain, i, phase);
    FlightMoved(s.tasks, s.mem.cached, mem.cached, i, phase);
  }

  lemma CallKeeps<C(!new)>(m: Contract<C>, s: System<C>, circuit: string, args: seq<string>)
    requires Inv(m, s)
    ensures Inv(m, Next(m, s, Call(circuit, args)))
  {
    hide Sound, Recorded, RecordedLog, NoneDropped, SnapOf, Meaning, LeavesOk, Freed, Snapshot;
    var ts := Next(m, s, Call(circuit, args)).tasks;
    assert forall i :: 0 <= i < |s.tasks| ==> ts[i] == s.tasks[i];
  }

  lemma NextKeeps<C(!new)>(m: Contract<C>, s: System<C>, e: Event)
    requires Sound(m) && Inv(m, s) && Enabled(s, e)
    ensures Inv(m, Next(m, s, e))
  {
    hide Ensured, RunCall, Sound, Recorded, RecordedLog, NoneDropped, SnapOf, Meaning, LeavesOk, Freed, InOrder,
      Snapshot;
    match e
    case SetWitnesses(bag) =>
    case Call(circuit, args) => CallKeeps(m, s, circuit, args);
    case Start(i) =>
      SnapshotOf(s.mem.bag);
      OrderMoved(s.tasks, s.chain, i, Staged(SnapOf(s.mem.bag)));
      FlightMoved(s.tasks, s.mem.cached, s.mem.cached, i, Staged(SnapOf(s.mem.bag)));
    case Ensure(i, loaded) => EnsureKeeps(m, s, i, loaded);
    case Finish(i) => FinishKeeps(m, s, i);
    case Release(i) =>
      OrderMoved(s.tasks, s.chain, i, Released(s.tasks[i].phase.ok));
      FlightMoved(s.tasks, s.mem.cached, s.mem.cached, i, Released(s.tasks[i].phase.ok));
    case Read(loaded) => EnsuredIs(m, s.log, s.mem, loaded);
    case Restart(bag) => NoTasks<C>(None);
  }

  lemma NoTasks<C(!new)>(cached: Option<C>)
    ensures InOrder<C>([], None) && InFlight<C>([], cached)
  {
  }
}
