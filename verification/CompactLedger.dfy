/** The Compact ledger: a persisted log of circuit runs, and an in-memory context that caches its replay.
    Circuits are one deterministic function of the contract; a circuit that is unknown or throws gives None. */
module CompactLedger {
  import opened Wrappers
  import opened GF256
  import opened Text
  import opened WitnessBag

  type Bytes32 = b: seq<byte> | |b| == 32 witness seq(32, _ => 0)

  datatype Entry = Entry(circuit: string, args: seq<string>, witnesses: Snap)

  /** The contract's first state, its circuits applied to (name, state, arguments, witness bag, staged leaf), and the
      digest that stands in for an argument that is not 64 hexadecimal digits. */
  datatype Contract<!C> = Contract(initial: C, exec: (string, C, seq<Bytes32>, Bag, Option<Bytes32>) -> Option<C>,
                                  digest: string -> Bytes32)

  /** What one process holds beside the log. */
  datatype Memory<C> = Memory(bag: Bag, pending: Option<Bytes32>, cached: Option<C>)

  const PUBLISH_LEAF := "publish_kyc_leaf"
  const PUBLISH_ROOT := "publish_kyc_root"
  const NO_BAG: Bag := Witnesses(map f: NumField | true :: 0, map f: OpenField | true :: [])

  /* Arguments */

  function StripPrefix(s: string): string { if |s| >= 2 && s[..2] == "0x" then s[2..] else s }

  function HexToBytes32(digest: string -> Bytes32, hex: string): Bytes32 {
    var clean := StripPrefix(hex);
    if |clean| == 64 && HexText(clean) then HexToOpening(clean) else digest(hex)
  }

  lemma ArgRoundTrip(digest: string -> Bytes32, b: Bytes32)
    ensures HexToBytes32(digest, ToHex(b)) == b
  {
    hide ToHex, HexToOpening, Padded, ByteAt;
    OpeningRoundTrip(b);
    var s := ToHex(b);
    assert DigitValue(s[1]).Some?;
  }

  function Decode<C>(m: Contract<C>, args: seq<string>): seq<Bytes32> {
    seq(|args|, i requires 0 <= i < |args| => HexToBytes32(m.digest, args[i]))
  }

  function Encode(args: seq<Bytes32>): seq<string> {
    seq(|args|, i requires 0 <= i < |args| => ToHex(args[i]))
  }

  lemma ArgsRoundTrip<C>(m: Contract<C>, args: seq<Bytes32>)
    ensures Decode(m, Encode(args)) == args
  {
    hide HexToBytes32, ToHex;
    forall i | 0 <= i < |args| ensures Decode(m, Encode(args))[i] == args[i] { ArgRoundTrip(m.digest, args[i]); }
  }

  /* The staged membership leaf */

  predicate StandsAt(s: string, t: string, i: nat) { i + |t| <= |s| && s[i..i + |t|] == t }

  predicate Mentions(s: string, t: string) { exists i: nat :: i <= |s| && StandsAt(s, t, i) }

  predicate Stages(circuit: string) {
    || Mentions(circuit, "kyc")
    || circuit == "prove_recipient_valid" || circuit == "prove_session_auth" || circuit == PUBLISH_LEAF
  }

  function Stage(pending: Option<Bytes32>, circuit: string, args: seq<Bytes32>): Option<Bytes32> {
    if Stages(circuit) then if |args| > 0 then Some(args[0]) else None else pending
  }

  /* Replay, as one process performs it over its own bag and staged leaf */

  function Replay<C>(m: Contract<C>, log: seq<Entry>, bag: Bag, pending: Option<Bytes32>): Memory<C> {
    if |log| == 0 then Memory(bag, pending, Some(m.initial))
    else
      var before := Replay(m, log[..|log| - 1], bag, pending);
      match before.cached
      case None => before
      case Some(ctx) => ReplayStep(m, log[|log| - 1], before, ctx)
  }

  function ReplayStep<C>(m: Contract<C>, e: Entry, mem: Memory<C>, ctx: C): Memory<C> {
    var bag, args := Restore(mem.bag, e.witnesses), Decode(m, e.args);
    var pending := Stage(mem.pending, e.circuit, args);
    Memory(bag, pending, m.exec(e.circuit, ctx, args, bag, pending))
  }

  /** A replay that failed part way through leaves the log's later entries untouched. */
  lemma {:induction false} ReplayStops<C>(m: Contract<C>, log: seq<Entry>, k: nat, bag: Bag, pending: Option<Bytes32>)
    requires k <= |log| && Replay(m, log[..k], bag, pending).cached == None
    ensures Replay(m, log, bag, pending) == Replay(m, log[..k], bag, pending)
    decreases |log| - k
  {
    hide ReplayStep;
    if k < |log| {
      assert log[..k + 1][..k] == log[..k];
      ReplayStops(m, log, k + 1, bag, pending);
    } else {
      assert log[..k] == log;
    }
  }

  /** The context a caller gets: the cached one, or the log replayed into the cache. Loading the contract may fail. */
  function Ensured<C>(m: Contract<C>, log: seq<Entry>, mem: Memory<C>, loaded: bool): (Memory<C>, Option<C>) {
    if !loaded then (mem, None)
    else if mem.cached.Some? then (mem, mem.cached)
    else (Replay(m, log, mem.bag, mem.pending), Replay(m, log, mem.bag, mem.pending).cached)
  }

  /** A run once it has its context: restores what it staged, runs the circuit and, unless that throws, caches the new
      context and gives the entry to append. */
  function RunCall<C>(m: Contract<C>, mem: Memory<C>, ctx: C, circuit: string, args: seq<string>, staged: Snap)
    : (Memory<C>, Option<Entry>)
  {
    var bag, bytes := Restore(mem.bag, staged), Decode(m, args);
    var pending := Stage(mem.pending, circuit, bytes);
    match m.exec(circuit, ctx, bytes, bag, pending)
    case None => (Memory(bag, pending, mem.cached), None)
    case Some(next) =>
      (Memory(bag, pending, Some(next)),
       if circuit == PUBLISH_LEAF && |bytes| == 0 then None else Some(Entry(circuit, Encode(bytes), SnapOf(bag))))
  }

  /** The leaves the ledger knows to be inserted. */
  function WithLeaf(leaves: seq<string>, e: Entry): seq<string> {
    if e.circuit == PUBLISH_LEAF && |e.args| > 0 && e.args[0] !in leaves then leaves + [e.args[0]] else leaves
  }

  /** The root published last. */
  function LastRoot(log: seq<Entry>): Option<string> {
    if |log| == 0 then None
    else
      var e := log[|log| - 1];
      if e.circuit == PUBLISH_ROOT && |e.args| > 0 then Some(e.args[0]) else LastRoot(log[..|log| - 1])
  }

  /* What the log means, with no process memory at all */

  function Meaning<C>(m: Contract<C>, log: seq<Entry>): Option<C> {
    if |log| == 0 then Some(m.initial)
    else
      match Meaning(m, log[..|log| - 1])
      case None => None
      case Some(ctx) =>
        var e := log[|log| - 1];
        var args := Decode(m, e.args);
        m.exec(e.circuit, ctx, args, Restore(NO_BAG, e.witnesses), Stage(None, e.circuit, args))
  }

  /** The circuits read no leaf but the one staged for them, and publishing takes a leaf. */
  ghost predicate Sound<C(!new)>(m: Contract<C>) {
    && (forall circuit, ctx, args, bag, p, q :: !Stages(circuit) ==>
         m.exec(circuit, ctx, args, bag, p) == m.exec(circuit, ctx, args, bag, q))
    && (forall ctx, bag, p :: m.exec(PUBLISH_LEAF, ctx, [], bag, p) == None)
  }

  /** An entry as a run writes it: a snapshot of a bag whose openings all have 32 bytes. */
  ghost predicate Recorded(e: Entry) { exists b: Bag :: Whole(b) && e.witnesses == SnapOf(b) }

  ghost predicate RecordedLog(log: seq<Entry>) { forall e :: e in log ==> Recorded(e) }

  lemma RecordedRestores(e: Entry, b: Bag, c: Bag)
    requires Recorded(e)
    ensures Restore(b, e.witnesses) == Restore(c, e.witnesses) && Whole(Restore(b, e.witnesses))
  {
    hide Restore, SnapOf, Whole;
    var w: Bag :| Whole(w) && e.witnesses == SnapOf(w);
    RestoreAnywhereIff(w);
  }

  lemma ExecBlind<C(!new)>(m: Contract<C>, circuit: string, ctx: C, args: seq<Bytes32>, bag: Bag, p: Option<Bytes32>,
                    q: Option<Bytes32>)
    requires Sound(m)
    ensures m.exec(circuit, ctx, args, bag, Stage(p, circuit, args))
      == m.exec(circuit, ctx, args, bag, Stage(q, circuit, args))
  {
    hide Stages;
  }

  /** Whatever bag and staged leaf a process starts from, replaying the log gives the context the log means. */
  lemma {:induction false} ReplayMeans<C(!new)>(m: Contract<C>, log: seq<Entry>, bag: Bag, pending: Option<Bytes32>)
    requires Sound(m) && RecordedLog(log)
    ensures Replay(m, log, bag, pending).cached == Meaning(m, log)
    ensures NoneDropped(bag) ==> NoneDropped(Replay(m, log, bag, pending).bag)
  {
    hide Restore, Stage, Decode, Sound, Recorded, Whole, NoneDropped;
    if |log| > 0 {
      var init, e := log[..|log| - 1], log[|log| - 1];
      ReplayMeans(m, init, bag, pending);
      var mem := Replay(m, init, bag, pending);
      if mem.cached.Some? {
        RecordedRestores(e, mem.bag, NO_BAG);
        WholeDropsNone(Restore(mem.bag, e.witnesses));
        ExecBlind(m, e.circuit, mem.cached.value, Decode(m, e.args), Restore(mem.bag, e.witnesses), mem.pending, None);
      }
    }
  }

  lemma WholeDropsNone(b: Bag)
    requires Whole(b)
    ensures NoneDropped(b)
  {
  }

  /** The entry a run appends replays to the very context the run computed. */
  lemma EntryReplays<C(!new)>(m: Contract<C>, log: seq<Entry>, mem: Memory<C>, circuit: string, args: seq<string>,
                       b: Bag)
    requires Sound(m) && NoneDropped(b) && Meaning(m, log).Some?
    ensures var (after, entry) := RunCall(m, mem, Meaning(m, log).value, circuit, args, SnapOf(b));
      match entry
      case None => after.cached == mem.cached
      case Some(e) => Recorded(e) && after.cached.Some? && after.cached == Meaning(m, log + [e])
    ensures NoneDropped(RunCall(m, mem, Meaning(m, log).value, circuit, args, SnapOf(b)).0.bag)
  {
    hide Restore, SnapOf, Stage, Decode, Encode, Whole, NoneDropped;
    RestoreForgetsIff(b);
    var ctx, bag, bytes := Meaning(m, log).value, Restore(mem.bag, SnapOf(b)), Decode(m, args);
    assert Whole(bag);
    WholeDropsNone(bag);
    RestoreAnywhereIff(bag);
    ArgsRoundTrip(m, bytes);
    ExecBlind(m, circuit, ctx, bytes, bag, mem.pending, None);
    var e := Entry(circuit, Encode(bytes), SnapOf(bag));
    assert (log + [e])[..|log|] == log;
    assert Restore(NO_BAG, SnapOf(bag)) == bag;
    if circuit == PUBLISH_LEAF && |bytes| == 0 {
      NoLeaf(m, circuit, ctx, bytes, bag, Stage(mem.pending, circuit, bytes));
    }
  }

  lemma NoLeaf<C(!new)>(m: Contract<C>, circuit: string, ctx: C, bytes: seq<Bytes32>, bag: Bag, p: Option<Bytes32>)
    requires Sound(m) && circuit == PUBLISH_LEAF && |bytes| == 0
    ensures m.exec(circuit, ctx, bytes, bag, p) == None
  {
    assert bytes == [];
  }
}
