/** The Compact ledger as one process updates it: the bag, the staged leaf, the cached context and the log. */
module CompactService {
  import opened Wrappers
  import opened Text
  import opened WitnessBag
  import opened CompactLedger

  class Service<!C> {
    const contract: Contract<C>
    var bag: Bag
    var pendingLeaf: Option<Bytes32>
    var circuitCtx: Option<C>
    var replay: seq<Entry>
    var insertedLeaves: seq<string>
    var lastSyncedRoot: Option<string>

    function Held(): Memory<C>
      reads this
    {
      Memory(bag, pendingLeaf, circuitCtx)
    }

    /** A fresh process over a persisted log. */
    constructor (contract: Contract<C>, bag: Bag, replay: seq<Entry>, insertedLeaves: seq<string>)
      ensures this.contract == contract && Held() == Memory(bag, None, None)
      ensures this.replay == replay && this.insertedLeaves == insertedLeaves && Synced()
    {
      this.contract, this.bag, this.replay, this.insertedLeaves := contract, bag, replay, insertedLeaves;
      pendingLeaf, circuitCtx, lastSyncedRoot := None, None, None;
    }

    /** The text under which the log and the list of leaves keep an argument. */
    function Key(hex: string): string { ToHex(HexToBytes32(contract.digest, hex)) }

    /** The root remembered as published is the one the log published last. */
    predicate Synced()
      reads this
    {
      lastSyncedRoot.Some? ==> LastRoot(replay) == Some(Key(lastSyncedRoot.value))
    }

    method StageMembershipLeaf(circuit: string, args: seq<Bytes32>)
      modifies this`pendingLeaf
      ensures pendingLeaf == Stage(old(pendingLeaf), circuit, args)
    {
      if Stages(circuit) { pendingLeaf := if |args| > 0 then Some(args[0]) else None; }
    }

    /** The replay stops at the first step that throws, leaving the cache absent. */
    method EnsureContext(loaded: bool) returns (ctx: Option<C>)
      modifies this`bag, this`pendingLeaf, this`circuitCtx
      ensures (Held(), ctx) == Ensured(contract, replay, old(Held()), loaded)
    {
      hide Restore, Stage, Stages, Decode;
      if !loaded { return None; }
      if circuitCtx.Some? { return circuitCtx; }
      var current := contract.initial;
      var i := 0;
      while i < |replay|
        invariant 0 <= i <= |replay| && circuitCtx == None
        invariant Memory(bag, pendingLeaf, Some(current)) == Replay(contract, replay[..i], old(bag), old(pendingLeaf))
      {
        var step := replay[i];
        assert replay[..i + 1][..i] == replay[..i];
        bag := Restore(bag, step.witnesses);
        var args := Decode(contract, step.args);
        StageMembershipLeaf(step.circuit, args);
        var res := contract.exec(step.circuit, current, args, bag, pendingLeaf);
        if res == None {
          ReplayStops(contract, replay, i + 1, old(bag), old(pendingLeaf));
          return None;
        }
        current := res.value;
        i := i + 1;
      }
      assert replay[..i] == replay;
      circuitCtx := Some(current);
      ctx := circuitCtx;
    }

    /** The part of a run after its context arrived. */
    method ExecuteStaged(ctx: C, circuit: string, argHex: seq<string>, staged: Snap) returns (ok: bool)
      modifies this`bag, this`pendingLeaf, this`circuitCtx, this`replay, this`insertedLeaves
      ensures var (mem, entry) := RunCall(contract, old(Held()), ctx, circuit, argHex, staged);
        && Held() == mem && ok == entry.Some?
        && replay == (if ok then old(replay) + [entry.value] else old(replay))
        && insertedLeaves == if ok then WithLeaf(old(insertedLeaves), entry.value) else old(insertedLeaves)
    {
      hide Restore, Stage, Stages, Decode, SnapOf;
      bag := Restore(bag, staged);
      var args := Decode(contract, argHex);
      StageMembershipLeaf(circuit, args);
      var res := contract.exec(circuit, ctx, args, bag, pendingLeaf);
      if res == None { return false; }
      circuitCtx := res;
      var entry := Entry(circuit, Encode(args), SnapOf(bag));
      if circuit == PUBLISH_LEAF {
        if |args| == 0 { return false; }
        if entry.args[0] !in insertedLeaves { insertedLeaves := insertedLeaves + [entry.args[0]]; }
      }
      replay := replay + [entry];
      ok := true;
    }

    /** A run that nothing interrupts. */
    method RunCompactCircuit(circuit: string, argHex: seq<string>, loaded: bool) returns (ok: bool)
      modifies this`bag, this`pendingLeaf, this`circuitCtx, this`replay, this`insertedLeaves
      ensures var (mem, ctx) := Ensured(contract, old(replay), old(Held()), loaded);
        if ctx == None then !ok && Held() == mem && replay == old(replay) && insertedLeaves == old(insertedLeaves)
        else
          var (mem', entry) := RunCall(contract, mem, ctx.value, circuit, argHex, SnapOf(old(bag)));
          && Held() == mem' && ok == entry.Some?
          && replay == (if ok then old(replay) + [entry.value] else old(replay))
          && insertedLeaves == if ok then WithLeaf(old(insertedLeaves), entry.value) else old(insertedLeaves)
    {
      hide RunCall, Ensured, SnapOf;
      var staged := SnapOf(bag);
      var ctx := EnsureContext(loaded);
      if ctx == None { return false; }
      ok := ExecuteStaged(ctx.value, circuit, argHex, staged);
    }

    /** Publishes an argument; a successful run appends one entry that holds it. */
    method Publish(circuit: string, hex: string, loaded: bool) returns (ok: bool, ghost e: Entry)
      modifies this`bag, this`pendingLeaf, this`circuitCtx, this`replay, this`insertedLeaves
      ensures !ok ==> replay == old(replay) && insertedLeaves == old(insertedLeaves)
      ensures ok ==> e.circuit == circuit && e.args == [Key(hex)]
      ensures ok ==> replay == old(replay) + [e] && insertedLeaves == WithLeaf(old(insertedLeaves), e)
    {
      hide Ensured, SnapOf, Restore, Stage, HexToBytes32, ToHex, WithLeaf;
      ok := RunCompactCircuit(circuit, [hex], loaded);
      if ok {
        e := replay[|replay| - 1];
        assert e.args == [Key(hex)];
      } else {
        e := *;
      }
    }

    /** Makes root and leaf known to the contract with nothing else running. Success means that the root is the last one
        published and the leaf is published; a second call for the same root and leaf changes nothing. */
    method SyncKycRoot(root: string, leaf: Option<string>, loaded: bool) returns (ok: bool)
      requires Synced()
      modifies this
      ensures Synced() && old(replay) <= replay && old(insertedLeaves) <= insertedLeaves
      ensures ok ==> LastRoot(replay) == Some(Key(root)) && (leaf.Some? ==> Key(leaf.value) in insertedLeaves)
      ensures old(circuitCtx).Some? && old(lastSyncedRoot) == Some(root)
              && (leaf.Some? ==> Key(leaf.value) in old(insertedLeaves)) ==>
        ok && replay == old(replay) && Held() == old(Held())
      ensures ok && (leaf.Some? ==> Key(leaf.value) in old(insertedLeaves)) ==> insertedLeaves == old(insertedLeaves)
    {
      hide HexToBytes32, ToHex, LastRoot, WithLeaf, Key;
      var leafReady := leaf.Some? ==> Key(leaf.value) in insertedLeaves;
      if circuitCtx.Some? && lastSyncedRoot == Some(root) && leafReady { return true; }
      ghost var e;
      ok, e := Publish(PUBLISH_ROOT, root, loaded);
      if !ok { return; }
      Appended(old(replay), e, old(insertedLeaves));
      lastSyncedRoot := Some(root);
      if leaf.Some? && !leafReady {
        ghost var before, leaves := replay, insertedLeaves;
        ok, e := Publish(PUBLISH_LEAF, leaf.value, loaded);
        if ok { Appended(before, e, leaves); }
      }
    }
  }

  lemma Appended(log: seq<Entry>, e: Entry, leaves: seq<string>)
    requires |e.args| == 1
    ensures e.circuit == PUBLISH_ROOT ==> LastRoot(log + [e]) == Some(e.args[0]) && WithLeaf(leaves, e) == leaves
    ensures e.circuit == PUBLISH_LEAF ==>
      LastRoot(log + [e]) == LastRoot(log) && leaves <= WithLeaf(leaves, e) && e.args[0] in WithLeaf(leaves, e)
  {
    assert (log + [e])[..|log|] == log;
    assert PUBLISH_ROOT[12] != PUBLISH_LEAF[12];
  }
}
