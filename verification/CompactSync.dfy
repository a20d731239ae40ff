/** Callers that publish roots beside everything else the queue does, and the root the process remembers as published.
    A caller's continuation notes its root after its call settles; continuations run in the order of settling. */
module CompactSync {
  import opened Wrappers
  import opened WitnessBag
  import opened CompactLedger
  import opened CompactQueue
  import opened CompactTheorems
  import opened CompactWitnesses

  /** A caller that waits for its call. */
  datatype Waiting = Waiting(root: string, task: nat)

  datatype Synced<C> = Synced(sys: System<C>, remembered: Option<string>, waiting: seq<Waiting>)

  /** A sync whose leaf is ready; its caller's continuation; any step of the queue that is not a publishing call. */
  datatype SyncEvent = Sync(root: string) | Note | Other(event: Event)

  predicate Skips<C>(s: Synced<C>, root: string) { s.sys.mem.cached.Some? && s.remembered == Some(root) }

  predicate Settled<C>(tasks: seq<Task<C>>, w: Waiting) { w.task < |tasks| && Over(tasks[w.task].phase) }

  predicate Succeeded<C>(tasks: seq<Task<C>>, w: Waiting) { Settled(tasks, w) && tasks[w.task].phase.ok }

  predicate Allowed<C>(s: Synced<C>, e: SyncEvent) {
    match e
    case Sync(_) => true
    case Note => |s.waiting| > 0 && Settled(s.sys.tasks, s.waiting[0])
    case Other(q) => Enabled(s.sys, q) && !(q.Call? && q.circuit == PUBLISH_ROOT)
  }

  function After<C>(m: Contract<C>, s: Synced<C>, e: SyncEvent): Synced<C>
    requires Allowed(s, e)
  {
    match e
    case Sync(root) =>
      if Skips(s, root) then s
      else Synced(Next(m, s.sys, Call(PUBLISH_ROOT, [root])), s.remembered, s.waiting + [Waiting(root, |s.sys.tasks|)])
    case Note =>
      var w := s.waiting[0];
      Synced(s.sys, if Succeeded(s.sys.tasks, w) then Some(w.root) else s.remembered, s.waiting[1..])
    case Other(q) =>
      if q.Restart? then Synced(Next(m, s.sys, q), None, []) else s.(sys := Next(m, s.sys, q))
  }

  /** The root published by the last settled call that waits to be noted, or else the remembered one. */
  function Newest<C>(s: Synced<C>, n: nat): Option<string>
    requires n <= |s.waiting|
  {
    if n == 0 then s.remembered
    else if Succeeded(s.sys.tasks, s.waiting[n - 1]) then Some(s.waiting[n - 1].root)
    else Newest(s, n - 1)
  }

  function Key<C>(m: Contract<C>, root: string): string { Encode(Decode(m, [root]))[0] }

  predicate Publishes<C>(tasks: seq<Task<C>>, w: Waiting) {
    w.task < |tasks| && tasks[w.task].circuit == PUBLISH_ROOT && tasks[w.task].args == [w.root]
  }

  /** A publishing call that has not settled. */
  predicate Unsettled<C>(t: Task<C>) { t.circuit == PUBLISH_ROOT && !Over(t.phase) }

  /** Waiting callers stand in call order behind publishing calls, and no unsettled publishing call is without one. */
  ghost predicate Attended<C(!new)>(s: Synced<C>) {
    && (forall i, j :: 0 <= i < j < |s.waiting| ==> s.waiting[i].task < s.waiting[j].task)
    && (forall w :: w in s.waiting ==> Publishes(s.sys.tasks, w))
    && (forall t: nat :: t < |s.sys.tasks| && Unsettled(s.sys.tasks[t]) ==> exists w :: w in s.waiting && w.task == t)
  }

  ghost predicate Current<C(!new)>(m: Contract<C>, s: Synced<C>) {
    var newest := Newest(s, |s.waiting|);
    newest.Some? ==> LastRoot(s.sys.log) == Some(Key(m, newest.value))
  }

  ghost predicate SyncInv<C(!new)>(m: Contract<C>, s: Synced<C>) {
    Inv(m, s.sys) && Attended(s) && Current(m, s)
  }

  /* Preservation */

  /** Newest depends on the roots and outcomes of the waiting calls alone. */
  lemma {:induction false} NewestSame<C(!new)>(s: Synced<C>, s': Synced<C>, n: nat)
    requires n <= |s.waiting| && n <= |s'.waiting| && s.remembered == s'.remembered
    requires forall i :: 0 <= i < n ==> s.waiting[i] == s'.waiting[i]
    requires forall i :: 0 <= i < n ==>
      (Succeeded(s.sys.tasks, s.waiting[i]) <==> Succeeded(s'.sys.tasks, s.waiting[i]))
    ensures Newest(s, n) == Newest(s', n)
  {
    hide Succeeded;
    if n > 0 { NewestSame(s, s', n - 1); }
  }

  /** Noting the first waiting caller does not change which root is newest. */
  lemma {:induction false} NewestNoted<C(!new)>(s: Synced<C>, s': Synced<C>, n: nat)
    requires 0 < n <= |s.waiting| && s'.sys == s.sys && s'.waiting == s.waiting[1..]
    requires s'.remembered == if Succeeded(s.sys.tasks, s.waiting[0]) then Some(s.waiting[0].root) else s.remembered
    ensures Newest(s', n - 1) == Newest(s, n)
  {
    hide Succeeded;
    if n > 1 {
      NewestNoted(s, s', n - 1);
      assert s'.waiting[n - 2] == s.waiting[n - 1];
    } else {
      assert Newest(s, 0) == s.remembered;
    }
  }

  lemma NoteKeeps<C(!new)>(m: Contract<C>, s: Synced<C>)
    requires SyncInv(m, s) && Allowed(s, Note)
    ensures SyncInv(m, After(m, s, Note))
  {
    hide Inv, Succeeded, LastRoot, Key;
    var s' := After(m, s, Note);
    NewestNoted(s, s', |s.waiting|);
    NoteAttended(s, s');
  }

  lemma NoteAttended<C(!new)>(s: Synced<C>, s': Synced<C>)
    requires Attended(s) && |s.waiting| > 0 && Settled(s.sys.tasks, s.waiting[0])
    requires s'.sys == s.sys && s'.waiting == s.waiting[1..]
    ensures Attended(s')
  {
    forall t: nat | t < |s.sys.tasks| && Unsettled(s.sys.tasks[t])
      ensures exists w :: w in s'.waiting && w.task == t
    {
      var w :| w in s.waiting && w.task == t;
      assert w != s.waiting[0];
      assert w in s'.waiting;
    }
  }

  lemma SyncKeeps<C(!new)>(m: Contract<C>, s: Synced<C>, root: string)
    requires Sound(m) && SyncInv(m, s)
    ensures SyncInv(m, After(m, s, Sync(root)))
  {
    hide Inv, LastRoot, Key, Sound, Newest, Attended;
    if !Skips(s, root) {
      var s' := After(m, s, Sync(root));
      NextKeeps(m, s.sys, Call(PUBLISH_ROOT, [root]));
      CallAttended(s, s', root);
      CallNewest(s, s', root);
    }
  }

  lemma CallNewest<C(!new)>(s: Synced<C>, s': Synced<C>, root: string)
    requires Attended(s) && s'.remembered == s.remembered
    requires s'.sys.tasks == s.sys.tasks + [Task(PUBLISH_ROOT, [root], s.sys.chain, Queued)]
    requires s'.waiting == s.waiting + [Waiting(root, |s.sys.tasks|)]
    ensures Newest(s', |s'.waiting|) == Newest(s, |s.waiting|)
  {
    hide Unsettled;
    var n := |s.waiting|;
    forall i | 0 <= i < n
      ensures s.waiting[i] == s'.waiting[i]
      ensures (Succeeded(s.sys.tasks, s.waiting[i]) <==> Succeeded(s'.sys.tasks, s.waiting[i]))
    {
      assert Publishes(s.sys.tasks, s.waiting[i]);
    }
    NewestSame(s, s', n);
    assert !Succeeded(s'.sys.tasks, s'.waiting[n]);
  }

  lemma CallAttended<C(!new)>(s: Synced<C>, s': Synced<C>, root: string)
    requires Attended(s)
    requires s'.sys.tasks == s.sys.tasks + [Task(PUBLISH_ROOT, [root], s.sys.chain, Queued)]
    requires s'.waiting == s.waiting + [Waiting(root, |s.sys.tasks|)]
    ensures Attended(s')
  {
    assert forall i :: 0 <= i < |s.sys.tasks| ==> s'.sys.tasks[i] == s.sys.tasks[i];
    assert forall i :: 0 <= i < |s.waiting| ==> s'.waiting[i] in s.waiting;
    forall t: nat | t < |s'.sys.tasks| && Unsettled(s'.sys.tasks[t])
      ensures exists w :: w in s'.waiting && w.task == t
    {
      if t < |s.sys.tasks| {
        var w :| w in s.waiting && w.task == t;
        assert w in s'.waiting;
      } else {
        assert s'.waiting[|s.waiting|] in s'.waiting;
      }
    }
  }

  /** A step of the queue that settles nothing and writes no log. */
  lemma QuietKeeps<C(!new)>(m: Contract<C>, s: Synced<C>, q: Event)
    requires Sound(m) && SyncInv(m, s) && Allowed(s, Other(q)) && !q.Finish? && !q.Restart?
    ensures SyncInv(m, After(m, s, Other(q)))
  {
    hide Inv, LastRoot, Key, Sound, Next;
    NextKeeps(m, s.sys, q);
    QuietTasks(m, s.sys, q);
    OnlyFinishWrites(m, s.sys, q);
    var s' := After(m, s, Other(q));
    assert forall i :: 0 <= i < |s.waiting| ==> s.waiting[i] in s.waiting;
    NewestSame(s, s', |s.waiting|);
    QuietAttended(s, s');
  }

  /** Calls keep their circuit and arguments; what was settled, and how, stays; what newly settles has failed. */
  ghost predicate Quiet<C(!new)>(ts: seq<Task<C>>, ts': seq<Task<C>>) {
    && |ts| <= |ts'|
    && (forall i :: 0 <= i < |ts| ==> ts'[i].circuit == ts[i].circuit && ts'[i].args == ts[i].args)
    && (forall i :: 0 <= i < |ts| && Over(ts[i].phase) ==> Over(ts'[i].phase) && ts'[i].phase.ok == ts[i].phase.ok)
    && (forall i :: 0 <= i < |ts| && !Over(ts[i].phase) && Over(ts'[i].phase) ==> !ts'[i].phase.ok)
    && (forall i :: |ts| <= i < |ts'| ==> ts'[i].circuit != PUBLISH_ROOT)
  }

  lemma QuietTasks<C(!new)>(m: Contract<C>, s: System<C>, q: Event)
    requires Enabled(s, q) && !q.Finish? && !q.Restart? && !(q.Call? && q.circuit == PUBLISH_ROOT)
    ensures Quiet(s.tasks, Next(m, s, q).tasks)
  {
    hide Ensured, SnapOf, NoneDropped, Freed;
  }

  lemma QuietAttended<C(!new)>(s: Synced<C>, s': Synced<C>)
    requires Attended(s) && Quiet(s.sys.tasks, s'.sys.tasks) && s'.waiting == s.waiting
    ensures Attended(s')
  {
  }

  lemma FinishTasks<C(!new)>(m: Contract<C>, s: System<C>, i: nat)
    requires Enabled(s, Finish(i))
    ensures var s' := Next(m, s, Finish(i));
      i < |s.tasks| && s.tasks[i].phase.Ready? && s'.tasks == s.tasks[i := s.tasks[i].(phase := s'.tasks[i].phase)]
      && s'.tasks[i].phase.Finished?
  {
    hide RunCall;
  }

  /** The entry of a finishing call has its circuit and the texts of its arguments. */
  lemma AloneEntry<C>(m: Contract<C>, log: seq<Entry>, circuit: string, args: seq<string>, snap: Snap)
    requires Alone(m, log, circuit, args, snap).Some?
    ensures var e := Alone(m, log, circuit, args, snap).value;
      e.circuit == circuit && e.args == Encode(Decode(m, args))
  {
    hide Restore, SnapOf, Decode, Encode, Stage, Meaning;
  }

  lemma FinishKeepsSync<C(!new)>(m: Contract<C>, s: Synced<C>, i: nat)
    requires Sound(m) && SyncInv(m, s) && Allowed(s, Other(Finish(i)))
    ensures SyncInv(m, After(m, s, Other(Finish(i))))
  {
    hide Inv, Sound, Next, Alone, LastRoot, Key, Newest;
    FinishTasks(m, s.sys, i);
    FinishKeeps(m, s.sys, i);
    var s' := After(m, s, Other(Finish(i)));
    FinishAttended(s, s', i);
    var t := s.sys.tasks[i];
    var entry := Alone(m, s.sys.log, t.circuit, t.args, t.phase.snap);
    if t.circuit == PUBLISH_ROOT && entry.Some? {
      AloneEntry(m, s.sys.log, t.circuit, t.args, t.phase.snap);
      PublishedLast(m, s, s', i, entry.value);
    } else {
      if entry.Some? {
        AloneEntry(m, s.sys.log, t.circuit, t.args, t.phase.snap);
        OtherEntry(s.sys.log, entry.value);
      }
      OutcomesSame(s, s', i);
    }
  }

  lemma OtherEntry(log: seq<Entry>, e: Entry)
    requires e.circuit != PUBLISH_ROOT
    ensures LastRoot(log + [e]) == LastRoot(log)
  {
    assert (log + [e])[..|log|] == log;
  }

  lemma FinishAttended<C(!new)>(s: Synced<C>, s': Synced<C>, i: nat)
    requires Attended(s) && i < |s.sys.tasks| && s'.waiting == s.waiting && |s'.sys.tasks| == |s.sys.tasks|
    requires s'.sys.tasks == s.sys.tasks[i := s.sys.tasks[i].(phase := s'.sys.tasks[i].phase)]
    requires s'.sys.tasks[i].phase.Finished? && s.sys.tasks[i].phase.Ready?
    ensures Attended(s')
  {
    forall t: nat | t < |s'.sys.tasks| && Unsettled(s'.sys.tasks[t])
      ensures exists w :: w in s'.waiting && w.task == t
    {
      assert t != i && Unsettled(s.sys.tasks[t]);
    }
    forall w | w in s'.waiting ensures Publishes(s'.sys.tasks, w) { assert Publishes(s.sys.tasks, w); }
  }

  lemma OutcomesSame<C(!new)>(s: Synced<C>, s': Synced<C>, i: nat)
    requires Attended(s) && i < |s.sys.tasks| && s.sys.tasks[i].phase.Ready?
    requires s'.waiting == s.waiting && s'.remembered == s.remembered && |s'.sys.tasks| == |s.sys.tasks|
    requires s'.sys.tasks == s.sys.tasks[i := s.sys.tasks[i].(phase := s'.sys.tasks[i].phase)]
    requires s'.sys.tasks[i].phase.Finished? && (s.sys.tasks[i].circuit == PUBLISH_ROOT ==> !s'.sys.tasks[i].phase.ok)
    ensures Newest(s', |s'.waiting|) == Newest(s, |s.waiting|)
  {
    assert forall k :: 0 <= k < |s.waiting| ==> s.waiting[k] in s.waiting;
    NewestSame(s, s', |s.waiting|);
  }

  /** A publishing call that finishes is the newest, because every later one is still queued. */
  lemma PublishedLast<C(!new)>(m: Contract<C>, s: Synced<C>, s': Synced<C>, i: nat, e: Entry)
    requires Inv(m, s.sys) && Attended(s) && i < |s.sys.tasks| && s.sys.tasks[i].phase.Ready?
    requires s.sys.tasks[i].circuit == PUBLISH_ROOT && e.circuit == PUBLISH_ROOT
    requires e.args == Encode(Decode(m, s.sys.tasks[i].args)) && s'.sys.log == s.sys.log + [e]
    requires s'.waiting == s.waiting && |s'.sys.tasks| == |s.sys.tasks|
    requires s'.sys.tasks == s.sys.tasks[i := s.sys.tasks[i].(phase := Finished(true))]
    ensures Current(m, s')
  {
    hide Coherent, NoneDropped, InFlight, LeavesOk, HexToBytes32, Newest;
    assert Unsettled(s.sys.tasks[i]);
    var w :| w in s.waiting && w.task == i;
    var k :| 0 <= k < |s.waiting| && s.waiting[k] == w;
    assert Succeeded(s'.sys.tasks, w);
    forall l | k < l < |s.waiting| ensures !Succeeded(s'.sys.tasks, s'.waiting[l]) {
      var v := s.waiting[l];
      assert v in s.waiting;
      OnlyOne(s.sys.tasks, s.sys.chain, i, v.task);
    }
    NewestIs(s', |s'.waiting|, k);
    assert Publishes(s.sys.tasks, w);
    assert (s.sys.log + [e])[..|s.sys.log|] == s.sys.log;
  }

  lemma {:induction false} NewestIs<C(!new)>(s: Synced<C>, n: nat, k: nat)
    requires k < n <= |s.waiting| && Succeeded(s.sys.tasks, s.waiting[k])
    requires forall l :: k < l < n ==> !Succeeded(s.sys.tasks, s.waiting[l])
    ensures Newest(s, n) == Some(s.waiting[k].root)
  {
    hide Succeeded;
    if k < n - 1 { NewestIs(s, n - 1, k); }
  }

  lemma AfterKeeps<C(!new)>(m: Contract<C>, s: Synced<C>, e: SyncEvent)
    requires Sound(m) && SyncInv(m, s) && Allowed(s, e)
    ensures SyncInv(m, After(m, s, e))
  {
    match e
    case Sync(root) => SyncKeeps(m, s, root);
    case Note => NoteKeeps(m, s);
    case Other(q) =>
      if q.Restart? {
        RestartKeeps(m, s, q);
      } else if q.Finish? {
        FinishKeepsSync(m, s, q.task);
      } else {
        QuietKeeps(m, s, q);
      }
  }

  lemma RestartKeeps<C(!new)>(m: Contract<C>, s: Synced<C>, q: Event)
    requires Sound(m) && SyncInv(m, s) && Allowed(s, Other(q)) && q.Restart?
    ensures SyncInv(m, After(m, s, Other(q)))
  {
    hide Inv, Sound, NoneDropped, LastRoot, Key;
    NextKeeps(m, s.sys, q);
  }

  /* Runs */

  ghost predicate SyncRun<C(!new)>(m: Contract<C>, ss: seq<Synced<C>>, es: seq<SyncEvent>) {
    && |ss| == |es| + 1 && Init(m, ss[0].sys) && ss[0].remembered == None && ss[0].waiting == []
    && forall k :: 0 <= k < |es| ==> Allowed(ss[k], es[k]) && ss[k + 1] == After(m, ss[k], es[k])
  }

  lemma {:induction false} SyncRunKeeps<C(!new)>(m: Contract<C>, ss: seq<Synced<C>>, es: seq<SyncEvent>, k: nat)
    requires Sound(m) && SyncRun(m, ss, es) && k < |ss|
    ensures SyncInv(m, ss[k])
  {
    hide Sound, After, Allowed, Inv, Init;
    if k == 0 {
      StartInv(m, ss[0]);
    } else {
      SyncRunKeeps(m, ss, es, k - 1);
      AfterKeeps(m, ss[k - 1], es[k - 1]);
    }
  }

  lemma StartInv<C(!new)>(m: Contract<C>, s: Synced<C>)
    requires Init(m, s.sys) && s.remembered == None && s.waiting == []
    ensures SyncInv(m, s)
  {
    hide NoneDropped, LeavesOk, RecordedLog, Meaning;
  }

  /** A sync that skips finds its root published last exactly when the newest settled call that its caller has yet to
      note, if there is one, published the same root; so always when no settled call waits to be noted. */
  lemma SkipIsRightIff<C(!new)>(m: Contract<C>, ss: seq<Synced<C>>, es: seq<SyncEvent>, k: nat, root: string)
    requires Sound(m) && SyncRun(m, ss, es) && k < |ss| && Skips(ss[k], root)
    ensures var newest := Newest(ss[k], |ss[k].waiting|);
      newest.Some? && (LastRoot(ss[k].sys.log) == Some(Key(m, root)) <==> Key(m, newest.value) == Key(m, root))
    ensures (forall w :: w in ss[k].waiting ==> !Settled(ss[k].sys.tasks, w)) ==>
      LastRoot(ss[k].sys.log) == Some(Key(m, root))
  {
    hide SyncRun, Sound, LastRoot, Key, Inv, Attended;
    SyncRunKeeps(m, ss, es, k);
    RememberedStays(ss[k], |ss[k].waiting|);
  }

  lemma {:induction false} RememberedStays<C(!new)>(s: Synced<C>, n: nat)
    requires n <= |s.waiting| && s.remembered.Some?
    ensures Newest(s, n).Some?
    ensures (forall w :: w in s.waiting ==> !Settled(s.sys.tasks, w)) ==> Newest(s, n) == s.remembered
  {
    hide Settled;
    if n > 0 { RememberedStays(s, n - 1); }
  }

  /* The condition can fail */

  ghost predicate SyncSteps<C(!new)>(m: Contract<C>, ss: seq<Synced<C>>, es: seq<SyncEvent>) {
    && |ss| == |es| + 1
    && forall k :: 0 <= k < |es| ==> Allowed(ss[k], es[k]) && ss[k + 1] == After(m, ss[k], es[k])
  }

  lemma SyncJoined<C(!new)>(m: Contract<C>, ss: seq<Synced<C>>, es: seq<SyncEvent>, ts: seq<Synced<C>>,
                     fs: seq<SyncEvent>)
    requires SyncSteps(m, ss, es) && SyncSteps(m, ts, fs) && ss[|es|] == ts[0]
    ensures SyncSteps(m, ss + ts[1..], es + fs)
  {
    hide Allowed, After;
    var us, gs := ss + ts[1..], es + fs;
    assert forall k :: |es| <= k < |us| ==> us[k] == ts[k - |es|];
    forall k | 0 <= k < |gs| ensures Allowed(us[k], gs[k]) && us[k + 1] == After(m, us[k], gs[k]) {
      if k >= |es| { assert gs[k] == fs[k - |es|]; }
    }
  }

  /** A started call runs to its end beside the waiting callers. */
  function Ending(i: nat): seq<SyncEvent> {
    [Other(Start(i)), Other(Ensure(i, true)), Other(Finish(i)), Other(Release(i))]
  }

  lemma RunsToEnd<C(!new)>(m: Contract<C>, s: Synced<C>, i: nat, e: Entry, w: Bag) returns (ss: seq<Synced<C>>)
    requires Sound(m) && Inv(m, s.sys) && Whole(w) && Holds(s.sys, w) && Enabled(s.sys, Start(i))
    requires Alone(m, s.sys.log, s.sys.tasks[i].circuit, s.sys.tasks[i].args, SnapOf(w)) == Some(e)
    ensures SyncSteps(m, ss, Ending(i)) && ss[0] == s
    ensures var v := ss[4];
      && Inv(m, v.sys) && Holds(v.sys, w) && v.remembered == s.remembered && v.waiting == s.waiting
      && v.sys.log == s.sys.log + [e] && v.sys.chain == s.sys.chain && v.sys.mem.cached.Some?
      && v.sys.tasks == s.sys.tasks[i := s.sys.tasks[i].(phase := Released(true))]
  {
    hide Sound, Inv, Whole, Holds, SnapOf, NoneDropped, Alone, RunCall, Ensured, Freed;
    StartHolds(m, s.sys, i, w);
    NextKeeps(m, s.sys, Start(i));
    var a := Next(m, s.sys, Start(i));
    WholeKept(w);
    RunOut(m, a, i, e, w);
    RunCaches(m, a, i);
    var b := Next(m, a, Ensure(i, true));
    var c := Next(m, b, Finish(i));
    ss := [s, s.(sys := a), s.(sys := b), s.(sys := c), s.(sys := Next(m, c, Release(i)))];
  }

  /** A run leaves a cached context. */
  lemma RunCaches<C(!new)>(m: Contract<C>, s: System<C>, i: nat)
    requires Sound(m) && Inv(m, s) && Enabled(s, Ensure(i, true))
    requires Enabled(Next(m, s, Ensure(i, true)), Finish(i))
    requires Enabled(Next(m, Next(m, s, Ensure(i, true)), Finish(i)), Release(i))
    ensures Next(m, Next(m, Next(m, s, Ensure(i, true)), Finish(i)), Release(i)).mem.cached.Some?
  {
    hide Sound, NoneDropped, LeavesOk, InFlight, InOrder, Recorded, RecordedLog, Meaning, Ensured, Restore, Stage,
      Decode, Encode, SnapOf;
    EnsuredIs(m, s.log, s.mem, true);
  }

  /** A call made when all others have settled can start, and the bag is still held. */
  lemma CallCanStart<C(!new)>(m: Contract<C>, s: System<C>, circuit: string, args: seq<string>, w: Bag)
    requires Sound(m) && Inv(m, s) && Holds(s, w)
    requires |s.tasks| == 0 || s.tasks[|s.tasks| - 1].phase.Released?
    ensures var s' := Next(m, s, Call(circuit, args));
      Inv(m, s') && Holds(s', w) && Enabled(s', Start(|s.tasks|))
  {
    hide Sound, Holds, Coherent, NoneDropped, LeavesOk, InFlight;
    CallHolds(m, s, circuit, args, w);
    NextKeeps(m, s, Call(circuit, args));
  }

  /** Two callers publish different roots one after the other. Between the settling of the second call and its caller's
      continuation the process still remembers the first root: a third caller with that root skips, while the contract
      has the second. */
  lemma StaleSkip<C(!new)>(m: Contract<C>, s: System<C>, first: string, second: string, e: Entry, f: Entry)
    returns (ss: seq<Synced<C>>, es: seq<SyncEvent>)
    requires Sound(m) && Init(m, s) && Whole(s.mem.bag) && Key(m, first) != Key(m, second)
    requires Alone(m, s.log, PUBLISH_ROOT, [first], SnapOf(s.mem.bag)) == Some(e)
    requires Alone(m, s.log + [e], PUBLISH_ROOT, [second], SnapOf(s.mem.bag)) == Some(f)
    ensures SyncRun(m, ss, es) && ss[0].sys == s
    ensures Skips(ss[|es|], first) && LastRoot(ss[|es|].sys.log) == Some(Key(m, second)) != Some(Key(m, first))
  {
    hide Sound, Inv, Whole, Holds, SnapOf, Alone, Enabled, Next, Init, LastRoot, Key;
    var w := s.mem.bag;
    InitCold(m, s);
    var t0 := Synced(s, None, []);
    var ts := Published(m, t0, first, e, w);
    var t1 := ts[5];
    var t2 := After(m, t1, Note);
    var us := Published(m, t2, second, f, w);
    var ns := [t1, t2];
    SyncJoined(m, ts, [Sync(first)] + Ending(0), ns, [Note]);
    SyncJoined(m, ts + ns[1..], ([Sync(first)] + Ending(0)) + [Note], us, [Sync(second)] + Ending(1));
    ss := (ts + ns[1..]) + us[1..];
    es := (([Sync(first)] + Ending(0)) + [Note]) + ([Sync(second)] + Ending(1));
    AloneEntry(m, s.log + [e], PUBLISH_ROOT, [second], SnapOf(w));
    LastIs(m, s.log + [e], f, second);
  }

  lemma InitCold<C(!new)>(m: Contract<C>, s: System<C>)
    requires Init(m, s)
    ensures Inv(m, s) && s.tasks == [] && Holds(s, s.mem.bag)
  {
    InitInv(m, s);
  }

  lemma LastIs<C(!new)>(m: Contract<C>, log: seq<Entry>, e: Entry, root: string)
    requires e.circuit == PUBLISH_ROOT && e.args == Encode(Decode(m, [root]))
    ensures LastRoot(log + [e]) == Some(Key(m, root))
  {
    hide HexToBytes32;
  }

  /** A sync that does not skip, with its call run to the end. */
  lemma Published<C(!new)>(m: Contract<C>, s: Synced<C>, root: string, e: Entry, w: Bag) returns (ss: seq<Synced<C>>)
    requires Sound(m) && Inv(m, s.sys) && Whole(w) && Holds(s.sys, w) && !Skips(s, root) && s.waiting == []
    requires |s.sys.tasks| == 0 || s.sys.tasks[|s.sys.tasks| - 1].phase.Released?
    requires Alone(m, s.sys.log, PUBLISH_ROOT, [root], SnapOf(w)) == Some(e)
    ensures SyncSteps(m, ss, [Sync(root)] + Ending(|s.sys.tasks|)) && ss[0] == s
    ensures var (v, i) := (ss[5], |s.sys.tasks|);
      && Inv(m, v.sys) && Holds(v.sys, w) && v.remembered == s.remembered && v.waiting == [Waiting(root, i)]
      && v.sys.log == s.sys.log + [e] && v.sys.mem.cached.Some?
      && |v.sys.tasks| == i + 1 && v.sys.tasks[i].phase == Released(true)
  {
    hide Sound, Inv, Whole, Holds, SnapOf, Alone, Enabled;
    CallCanStart(m, s.sys, PUBLISH_ROOT, [root], w);
    var called := After(m, s, Sync(root));
    var ts := RunsToEnd(m, called, |s.sys.tasks|, e, w);
    SyncJoined(m, [s, called], [Sync(root)], ts, Ending(|s.sys.tasks|));
    ss := [s, called] + ts[1..];
  }
}
