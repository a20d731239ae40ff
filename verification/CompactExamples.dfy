/** A contract that counts its runs: the runs of two callers and of a stale skip happen on it, from an empty ledger. */
module CompactExamples {
  import opened Wrappers
  import opened GF256
  import opened Text
  import opened WitnessBag
  import opened CompactLedger
  import opened CompactQueue
  import opened CompactTheorems
  import opened CompactWitnesses
  import opened CompactSync

  function Counting(): Contract<nat> {
    Contract(0, Counted, (s: string) => seq(32, _ => ByteOf(0)))
  }

  function Counted(circuit: string, ctx: nat, args: seq<Bytes32>, bag: Bag, pending: Option<Bytes32>): Option<nat> {
    if circuit == PUBLISH_LEAF && args == [] then None else Some(ctx + 1)
  }

  /** A process that has just started on an empty ledger. */
  function Started(bag: Bag): System<nat> { System(Memory(bag, None, None), [], [], [], None) }

  function Blank(f: OpenField, x: byte): Bytes32 { seq(32, _ => x) }

  /** A whole bag for every byte. */
  function Filled(x: byte): (w: Bag)
    ensures Whole(w) && forall f: OpenField :: w.opens[f][0] == x
  {
    Witnesses(NO_BAG.nums, map f: OpenField | true :: Blank(f, x))
  }

  lemma StartedInit(bag: Bag)
    requires NoneDropped(bag)
    ensures Sound(Counting()) && Init(Counting(), Started(bag))
  {
    hide NoneDropped, Stages;
  }

  function Wrote(circuit: string, args: seq<string>, w: Bag): Entry {
    Entry(circuit, Encode(Decode(Counting(), args)), SnapOf(w))
  }

  /** Any run but a publication of no leaf appends its entry. */
  lemma CountingRuns(log: seq<Entry>, circuit: string, args: seq<string>, w: Bag)
    requires Whole(w) && (circuit != PUBLISH_LEAF || args != []) && Meaning(Counting(), log).Some?
    ensures Alone(Counting(), log, circuit, args, SnapOf(w)) == Some(Wrote(circuit, args, w))
    ensures Meaning(Counting(), log + [Wrote(circuit, args, w)]).Some?
  {
    hide SnapOf, Whole, Restore, Encode, HexToBytes32, Stage;
    RestoreAnywhereIff(w);
    var e := Wrote(circuit, args, w);
    ArgsRoundTrip(Counting(), Decode(Counting(), args));
    assert (log + [e])[..|log|] == log;
  }

  /** Two callers with any two whole bags, and any circuits that take what they are given. */
  lemma TwoCallersHappen(a: Bag, b: Bag, first: string, xs: seq<string>, second: string, ys: seq<string>)
    returns (ss: seq<System<nat>>)
    requires Whole(a) && Whole(b)
    requires (first != PUBLISH_LEAF || xs != []) && (second != PUBLISH_LEAF || ys != [])
    ensures Run(Counting(), ss, FirstEvents(a, b, first, xs, second, ys) + LAST_EVENTS)
    ensures ss[12].log == [Wrote(first, xs, a), Wrote(second, ys, a)]
  {
    hide Whole, SnapOf, Alone, Init, Sound, Meaning, Run;
    WholeDropsNone(a);
    StartedInit(a);
    var e, f := Wrote(first, xs, a), Wrote(second, ys, a);
    EmptyMeans();
    CountingRuns([], first, xs, a);
    CountingRuns([] + [e], second, ys, a);
    ss := TwoCallers(Counting(), Started(a), a, b, first, xs, second, ys, e, f);
  }

  lemma EmptyMeans()
    ensures Meaning(Counting(), []) == Some(0)
  {
  }

  /** Two roots of 32 bytes, one published after the other, and a third caller that skips with the first. */
  lemma StaleSkipHappens(w: Bag, p: Bytes32, q: Bytes32) returns (ss: seq<Synced<nat>>, es: seq<SyncEvent>)
    requires Whole(w) && p != q
    ensures SyncRun(Counting(), ss, es) && ss[0].sys == Started(w)
    ensures Skips(ss[|es|], ToHex(p)) && LastRoot(ss[|es|].sys.log) == Some(ToHex(q)) != Some(ToHex(p))
  {
    hide Whole, SnapOf, Alone, Init, Sound, Meaning, SyncRun, LastRoot, Skips, Key, ToHex;
    WholeDropsNone(w);
    StartedInit(w);
    RootKey(p);
    RootKey(q);
    FromToHex(p);
    FromToHex(q);
    var e, f := Wrote(PUBLISH_ROOT, [ToHex(p)], w), Wrote(PUBLISH_ROOT, [ToHex(q)], w);
    EmptyMeans();
    CountingRuns([], PUBLISH_ROOT, [ToHex(p)], w);
    CountingRuns([] + [e], PUBLISH_ROOT, [ToHex(q)], w);
    ss, es := StaleSkip(Counting(), Started(w), ToHex(p), ToHex(q), e, f);
  }

  /** The log keeps a root of 32 bytes under its own text. */
  lemma RootKey(p: Bytes32)
    ensures Key(Counting(), ToHex(p)) == ToHex(p)
  {
    hide ToHex, HexToBytes32;
    ArgRoundTrip(Counting().digest, p);
  }
}
