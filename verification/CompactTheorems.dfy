/** What holds in every run of concurrent Compact callers. */
module CompactTheorems {
  import opened Wrappers
  import opened Text
  import opened WitnessBag
  import opened CompactLedger
  import opened CompactQueue

  /** A fresh process over a log that runs have written. */
  ghost predicate Init<C(!new)>(m: Contract<C>, s: System<C>) {
    && s.mem.cached == None && NoneDropped(s.mem.bag) && s.tasks == [] && s.chain == None
    && RecordedLog(s.log) && Meaning(m, s.log).Some? && LeavesOk(s.log, s.leaves)
  }

  ghost predicate Run<C(!new)>(m: Contract<C>, ss: seq<System<C>>, es: seq<Event>) {
    && |ss| == |es| + 1 && Init(m, ss[0])
    && forall k :: 0 <= k < |es| ==> Enabled(ss[k], es[k]) && ss[k + 1] == Next(m, ss[k], es[k])
  }

  lemma {:induction false} RunKeeps<C(!new)>(m: Contract<C>, ss: seq<System<C>>, es: seq<Event>, k: nat)
    requires Sound(m) && Run(m, ss, es) && k < |ss|
    ensures Inv(m, ss[k])
  {
    hide Sound, Next, Enabled, NoneDropped, Recorded, RecordedLog, LeavesOk, Meaning;
    if k == 0 {
      NoTasks<C>(None);
    } else {
      RunKeeps(m, ss, es, k - 1);
      NextKeeps(m, ss[k - 1], es[k - 1]);
    }
  }

  lemma RunLength<C(!new)>(m: Contract<C>, ss: seq<System<C>>, es: seq<Event>)
    requires Run(m, ss, es)
    ensures |ss| == |es| + 1
  {
    hide Next, Enabled, Init;
  }

  lemma RunStep<C(!new)>(m: Contract<C>, ss: seq<System<C>>, es: seq<Event>, k: nat)
    requires Run(m, ss, es) && k < |es|
    ensures k + 1 < |ss| && Enabled(ss[k], es[k]) && ss[k + 1] == Next(m, ss[k], es[k])
  {
    hide Next, Enabled, Init;
  }

  /** At every moment the cached context is absent or what any process, whatever its bag and staged leaf, gets by
      replaying the log from the start; and such a replay never fails. */
  lemma CacheIsReplay<C(!new)>(m: Contract<C>, ss: seq<System<C>>, es: seq<Event>, k: nat, bag: Bag,
                        pending: Option<Bytes32>)
    requires Sound(m) && Run(m, ss, es) && k < |ss|
    ensures Replay(m, ss[k].log, bag, pending).cached.Some?
    ensures ss[k].mem.cached.Some? ==> ss[k].mem.cached == Replay(m, ss[k].log, bag, pending).cached
  {
    hide Sound, Run, NoneDropped, Recorded, RecordedLog, LeavesOk, Meaning, InOrder, InFlight, Replay;
    RunKeeps(m, ss, es, k);
    ReplayMeans(m, ss[k].log, bag, pending);
  }

  /** A process that starts now computes what the running one does: the same context, and from the same witnesses the
      same entry. */
  lemma ColdComputesWarm<C(!new)>(m: Contract<C>, ss: seq<System<C>>, es: seq<Event>, k: nat, bag: Bag,
                                  circuit: string, args: seq<string>, b: Bag)
    requires Sound(m) && Run(m, ss, es) && k < |ss| && NoneDropped(bag) && NoneDropped(b)
    ensures var (warm, ctx) := Ensured(m, ss[k].log, ss[k].mem, true);
      var (cold, ctx') := Ensured(m, ss[k].log, Memory(bag, None, None), true);
      ctx == ctx' && ctx.Some?
      && RunCall(m, warm, ctx.value, circuit, args, SnapOf(b)).1
        == RunCall(m, cold, ctx.value, circuit, args, SnapOf(b)).1
  {
    hide Sound, Run, NoneDropped, LeavesOk, Meaning, InOrder, InFlight, Replay, RunCall, SnapOf, Recorded, RecordedLog;
    RunKeeps(m, ss, es, k);
    EnsuredIs(m, ss[k].log, ss[k].mem, true);
    EnsuredIs(m, ss[k].log, Memory(bag, None, None), true);
    var ctx := Meaning(m, ss[k].log).value;
    RunIgnores(m, Ensured(m, ss[k].log, ss[k].mem, true).0, Ensured(m, ss[k].log, Memory(bag, None, None), true).0,
               ctx, circuit, args, b);
  }

  /** Calls run one at a time, in the order in which they were made: a call starts only when every earlier one has
      settled, and at most one is between its start and its settling. */
  lemma OneAtATime<C(!new)>(m: Contract<C>, ss: seq<System<C>>, es: seq<Event>, k: nat, i: nat, j: nat)
    requires Sound(m) && Run(m, ss, es) && k < |ss| && i < j < |ss[k].tasks|
    ensures !ss[k].tasks[j].phase.Queued? ==> ss[k].tasks[i].phase.Released?
    ensures !ss[k].tasks[i].phase.Released? ==> ss[k].tasks[j].phase.Queued?
  {
    hide Sound, Run, Coherent, NoneDropped, InFlight, LeavesOk;
    RunKeeps(m, ss, es, k);
  }

  /** Finishing a call changes the log exactly as that call does alone in a fresh process; a call that fails changes
      neither log nor cached context. */
  lemma CallsActAlone<C(!new)>(m: Contract<C>, ss: seq<System<C>>, es: seq<Event>, k: nat, i: nat)
    requires Sound(m) && Run(m, ss, es) && k < |es| && es[k] == Finish(i)
    ensures Enabled(ss[k], Finish(i)) && RefinesRun(m, ss[k], i)
  {
    hide Sound, Run, Inv, RefinesRun, Enabled, Next;
    RunStep(m, ss, es, k);
    RunKeeps(m, ss, es, k);
    FinishKeeps(m, ss[k], i);
  }

  /** Only a finishing call writes the log. */
  lemma OnlyFinishWrites<C(!new)>(m: Contract<C>, s: System<C>, e: Event)
    requires Enabled(s, e) && !e.Finish?
    ensures Next(m, s, e).log == s.log && Next(m, s, e).leaves == s.leaves
  {
    hide Ensured, SnapOf, NoneDropped;
  }

  /** A call as it finishes: its circuit, its arguments and the witnesses it was staged with. */
  datatype Done = Done(circuit: string, args: seq<string>, snap: Snap)

  /** The calls that finish in the first k events, in the order in which they do. */
  function FinishedCalls<C>(ss: seq<System<C>>, es: seq<Event>, k: nat): seq<Done>
    requires k <= |es| < |ss|
  {
    if k == 0 then []
    else
      var (s, e) := (ss[k - 1], es[k - 1]);
      if e.Finish? && e.task < |s.tasks| && s.tasks[e.task].phase.Ready? then
        FinishedCalls(ss, es, k - 1) + [Done(s.tasks[e.task].circuit, s.tasks[e.task].args, s.tasks[e.task].phase.snap)]
      else FinishedCalls(ss, es, k - 1)
  }

  /** The log after these calls, each made alone in a fresh process. */
  function Serial<C>(m: Contract<C>, log: seq<Entry>, calls: seq<Done>): seq<Entry> {
    if |calls| == 0 then log
    else
      var (before, c) := (Serial(m, log, calls[..|calls| - 1]), calls[|calls| - 1]);
      match Alone(m, before, c.circuit, c.args, c.snap)
      case None => before
      case Some(e) => before + [e]
  }

  /** In every run, restarts included, the log is that of the finished calls made one after another by fresh
      processes. */
  lemma {:induction false} LogIsSerial<C(!new)>(m: Contract<C>, ss: seq<System<C>>, es: seq<Event>, k: nat)
    requires Sound(m) && Run(m, ss, es) && k <= |es| < |ss|
    ensures ss[k].log == Serial(m, ss[0].log, FinishedCalls(ss, es, k))
  {
    hide Sound, Run, Next, Enabled, Alone;
    if k > 0 {
      LogIsSerial(m, ss, es, k - 1);
      RunStep(m, ss, es, k - 1);
      var s, e := ss[k - 1], es[k - 1];
      if e.Finish? {
        CallsActAlone(m, ss, es, k - 1, e.task);
        FinishesReady(s, e.task);
        var calls := FinishedCalls(ss, es, k - 1);
        var c := Done(s.tasks[e.task].circuit, s.tasks[e.task].args, s.tasks[e.task].phase.snap);
        assert (calls + [c])[..|calls|] == calls;
      } else {
        OnlyFinishWrites(m, s, e);
      }
    }
  }

  lemma FinishesReady<C>(s: System<C>, i: nat)
    requires Enabled(s, Finish(i))
    ensures i < |s.tasks| && s.tasks[i].phase.Ready?
  {
  }

  /** What has settled stays settled until the process restarts. */
  lemma {:induction false} StaysSettled<C(!new)>(m: Contract<C>, ss: seq<System<C>>, es: seq<Event>, p: nat, q: nat,
                                          i: nat)
    requires Run(m, ss, es) && p <= q <= |es| < |ss| && (forall k :: p <= k < q ==> !es[k].Restart?)
    requires i < |ss[p].tasks| && (ss[p].tasks[i].phase.Finished? || ss[p].tasks[i].phase.Released?)
    ensures i < |ss[q].tasks| && (ss[q].tasks[i].phase.Finished? || ss[q].tasks[i].phase.Released?)
    decreases q
  {
    hide Run, NoneDropped, Ensured, RunCall, SnapOf, Freed;
    if p < q {
      StaysSettled(m, ss, es, p, q - 1, i);
      RunStep(m, ss, es, q - 1);
    }
  }

  /** Within one process calls finish in the order in which they were made. */
  lemma FinishInCallOrder<C(!new)>(m: Contract<C>, ss: seq<System<C>>, es: seq<Event>, p: nat, q: nat, i: nat, j: nat)
    requires Sound(m) && Run(m, ss, es) && p < q < |es| < |ss| && (forall k :: p <= k < q ==> !es[k].Restart?)
    requires es[p] == Finish(i) && es[q] == Finish(j)
    ensures i < j
  {
    hide Sound, Run, Next, Inv;
    RunStep(m, ss, es, p);
    RunStep(m, ss, es, q);
    FinishSettles(m, ss[p], i);
    StaysSettled(m, ss, es, p + 1, q, i);
    if j < i { OneAtATime(m, ss, es, q, j, i); }
  }

  lemma FinishSettles<C(!new)>(m: Contract<C>, s: System<C>, i: nat)
    requires Enabled(s, Finish(i))
    ensures var s' := Next(m, s, Finish(i)); i < |s'.tasks| && s'.tasks[i].phase.Finished?
  {
    hide RunCall;
  }

  /** The list of inserted leaves names each published leaf once and nothing else. */
  lemma LeavesArePublished<C(!new)>(m: Contract<C>, ss: seq<System<C>>, es: seq<Event>, k: nat, leaf: string)
    requires Sound(m) && Run(m, ss, es) && k < |ss|
    ensures leaf in ss[k].leaves <==> PublishedIn(ss[k].log, leaf)
    ensures forall i, j :: 0 <= i < j < |ss[k].leaves| ==> ss[k].leaves[i] != ss[k].leaves[j]
  {
    hide Sound, Run, Coherent, NoneDropped, InFlight, InOrder, PublishedIn;
    RunKeeps(m, ss, es, k);
  }

  /* Progress */

  function Rank<C>(p: Phase<C>): nat {
    match p
    case Queued => 4
    case Staged(_) => 3
    case Ready(_, _) => 2
    case Finished(_) => 1
    case Released(_) => 0
  }

  function Todo<C>(tasks: seq<Task<C>>): nat {
    if |tasks| == 0 then 0 else Todo(tasks[..|tasks| - 1]) + Rank(tasks[|tasks| - 1].phase)
  }

  function FirstOpen<C>(tasks: seq<Task<C>>): (i: nat)
    ensures i <= |tasks|
    ensures i < |tasks| ==> !tasks[i].phase.Released?
    ensures forall j :: 0 <= j < i ==> tasks[j].phase.Released?
  {
    if |tasks| == 0 || !tasks[0].phase.Released? then 0 else FirstOpen(tasks[1..]) + 1
  }

  /** The step the oldest unsettled call is ready for. */
  function Turn<C>(tasks: seq<Task<C>>): Event
    requires FirstOpen(tasks) < |tasks|
  {
    var i := FirstOpen(tasks);
    match tasks[i].phase
    case Queued => Start(i)
    case Staged(_) => Ensure(i, true)
    case Ready(_, _) => Finish(i)
    case Finished(_) => Release(i)
    case Released(_) => assert false; Release(i)
  }

  lemma {:induction false} TodoMoved<C>(tasks: seq<Task<C>>, i: nat, phase: Phase<C>)
    requires i < |tasks|
    ensures Todo(tasks[i := tasks[i].(phase := phase)]) == Todo(tasks) - Rank(tasks[i].phase) + Rank(phase)
  {
    var ts := tasks[i := tasks[i].(phase := phase)];
    var n := |tasks| - 1;
    if i < n {
      TodoMoved(tasks[..n], i, phase);
      assert ts[..n] == tasks[..n][i := tasks[i].(phase := phase)];
    } else {
      assert ts[..n] == tasks[..n];
    }
  }

  /** While a call is unsettled the oldest one can take its step, whether the calls before it failed or not, and that
      step brings the queue nearer its end. */
  lemma NeverBlocked<C(!new)>(m: Contract<C>, s: System<C>)
    requires Inv(m, s) && FirstOpen(s.tasks) < |s.tasks|
    ensures Enabled(s, Turn(s.tasks))
    ensures Todo(Next(m, s, Turn(s.tasks)).tasks) < Todo(s.tasks)
  {
    hide Coherent, NoneDropped, InFlight, LeavesOk, Ensured, RunCall, SnapOf, Todo;
    var i := FirstOpen(s.tasks);
    var s' := Next(m, s, Turn(s.tasks));
    assert s'.tasks == s.tasks[i := s.tasks[i].(phase := s'.tasks[i].phase)];
    TodoMoved(s.tasks, i, s'.tasks[i].phase);
  }

  /** From every reachable state the queued calls can all be brought to settle, each in its four steps. */
  lemma {:induction false} QueueDrains<C(!new)>(m: Contract<C>, s: System<C>) returns (ss: seq<System<C>>,
                                         es: seq<Event>)
    requires Sound(m) && Inv(m, s)
    ensures |ss| == |es| + 1 && ss[0] == s && |es| <= Todo(s.tasks)
    ensures forall k :: 0 <= k < |es| ==> Enabled(ss[k], es[k]) && ss[k + 1] == Next(m, ss[k], es[k])
    ensures forall i :: 0 <= i < |ss[|es|].tasks| ==> ss[|es|].tasks[i].phase.Released?
    decreases Todo(s.tasks)
  {
    hide Inv, Sound, Next, Enabled, Turn, Todo;
    if FirstOpen(s.tasks) == |s.tasks| {
      ss, es := [s], [];
    } else {
      NeverBlocked(m, s);
      var e := Turn(s.tasks);
      NextKeeps(m, s, e);
      var ts, fs := QueueDrains(m, Next(m, s, e));
      ss, es := [s] + ts, [e] + fs;
      assert forall k :: 0 < k < |es| ==> ss[k] == ts[k - 1] && es[k] == fs[k - 1] && ss[k + 1] == ts[k];
    }
  }

  /* Which witnesses a run uses */

  lemma SnapInjective(a: Bag, b: Bag)
    requires SnapOf(a) == SnapOf(b)
    ensures a == b
  {
    hide Numeral, ToHex;
    forall f: NumField ensures a.nums[f] == b.nums[f] {
      assert Written(a).nums[f] == Written(b).nums[f];
      NumeralRoundTrip(a.nums[f]); NumeralRoundTrip(b.nums[f]);
    }
    forall f: OpenField ensures a.opens[f] == b.opens[f] {
      assert Written(a).opens[f] == Written(b).opens[f];
      FromToHex(a.opens[f]); FromToHex(b.opens[f]);
    }
    SameBag(a, b);
  }

  /** A call runs with the witnesses that were set at an earlier moment, such as when it was made, exactly when the bag
      is back to them when it starts: joining the queue copies nothing. */
  lemma WitnessesAtStart<C(!new)>(m: Contract<C>, ss: seq<System<C>>, es: seq<Event>, c: nat, k: nat, i: nat)
    requires Run(m, ss, es) && c <= k < |es| && es[k] == Start(i)
    ensures i < |ss[k + 1].tasks| && ss[k + 1].tasks[i].phase.Staged?
    ensures ss[k + 1].tasks[i].phase.snap == SnapOf(ss[c].mem.bag) <==> ss[k].mem.bag == ss[c].mem.bag
  {
    hide Run, SnapOf, Freed;
    RunStep(m, ss, es, k);
    if SnapOf(ss[k].mem.bag) == SnapOf(ss[c].mem.bag) { SnapInjective(ss[k].mem.bag, ss[c].mem.bag); }
  }

  /** A reader alone can take a caller's witnesses away: on a cold cache it leaves in the bag those of the last
      entry. */
  lemma ReaderReplaces<C(!new)>(m: Contract<C>, s: System<C>, w: Bag)
    requires Sound(m) && Inv(m, s) && s.mem.cached == None && |s.log| > 0
    requires Whole(w) && s.log[|s.log| - 1].witnesses == SnapOf(w)
    ensures Next(m, s, Read(true)).mem.bag == w
  {
    hide Sound, Restore, SnapOf, Whole, NoneDropped, InOrder, InFlight, LeavesOk, Stage, Decode, Recorded;
    var init := s.log[..|s.log| - 1];
    ReplayMeans(m, s.log, s.mem.bag, s.mem.pending);
    RestoreAnywhereIff(w);
    assert Replay(m, init, s.mem.bag, s.mem.pending).cached.Some?;
    assert Restore(Replay(m, init, s.mem.bag, s.mem.pending).bag, SnapOf(w)) == w;
  }

  /* Why circuits must not read a leaf staged for another */

  /** A contract with a circuit that counts whenever any leaf is staged. */
  function CountIfStaged(circuit: string, ctx: nat, args: seq<Bytes32>, bag: Bag, leaf: Option<Bytes32>): Option<nat> {
    if circuit == "count" then Some(if leaf.Some? then ctx + 1 else ctx) else None
  }

  function Leaky(): Contract<nat> { Contract(0, CountIfStaged, (s: string) => ZERO) }

  const ZERO: Bytes32 := seq(32, i requires 0 <= i => ByteOf(0))

  /** A failed call leaves its leaf staged and nothing in the log; with a circuit that reads it, the cached context
      then differs from what the log means. */
  lemma StagedLeafLeaks(b: Bag, hex: string)
    ensures var failed := RunCall(Leaky(), Memory(b, None, Some(0)), 0, "prove_session_auth", [hex], SnapOf(b));
      var counted := RunCall(Leaky(), failed.0, 0, "count", [], SnapOf(b));
      failed.1 == None && counted.1.Some? && counted.0.cached == Some(1)
      && Meaning(Leaky(), [counted.1.value]) == Some(0)
  {
    hide Restore, SnapOf, HexToBytes32;
    var m := Leaky();
    NotStaged();
    var bytes := Decode(m, [hex]);
    var failed := RunCall(m, Memory(b, None, Some(0)), 0, "prove_session_auth", [hex], SnapOf(b));
    assert failed.0.pending == Some(bytes[0]);
    var counted := RunCall(m, failed.0, 0, "count", [], SnapOf(b));
    var e := counted.1.value;
    assert [e][..0] == [];
    assert Meaning(m, [e][..0]) == Some(0);
  }

  lemma NotStaged()
    ensures !Stages("count")
  {
    forall i: nat | i <= |"count"| ensures !StandsAt("count", "kyc", i) {
      if i + 3 <= 5 { assert "count"[i..i + 3][0] != "kyc"[0]; }
    }
  }
}
