/** The membership leaf staged for a circuit: which circuits get it, and that the circuits that check it always run
    with it, live and in every replay. */
module CompactStaging {
  import opened Wrappers
  import opened Text
  import opened WitnessBag
  import opened CompactLedger
  import opened CompactQueue
  import opened CompactTheorems

  /** A circuit is staged its first argument exactly when its name mentions kyc or it is the recipient or the session
      proof; the leaf of any other stays what it was. */
  lemma StagedIff(pending: Option<Bytes32>, circuit: string, args: seq<Bytes32>)
    ensures Stage(pending, circuit, args) ==
      if (exists i: nat :: i + 2 < |circuit| && circuit[i] == 'k' && circuit[i + 1] == 'y' && circuit[i + 2] == 'c')
         || circuit == "prove_recipient_valid" || circuit == "prove_session_auth"
      then (if |args| > 0 then Some(args[0]) else None)
      else pending
  {
    if circuit == "publish_kyc_leaf" { assert circuit[8] == 'k' && circuit[8 + 1] == 'y' && circuit[8 + 2] == 'c'; }
    if i: nat :| i + 2 < |circuit| && circuit[i] == 'k' && circuit[i + 1] == 'y' && circuit[i + 2] == 'c' {
      KycAt(circuit, i);
    }
    if Mentions(circuit, "kyc") {
      var i: nat :| i <= |circuit| && StandsAt(circuit, "kyc", i);
      KycAt(circuit, i);
    }
  }

  lemma KycAt(circuit: string, i: nat)
    ensures StandsAt(circuit, "kyc", i) <==>
      i + 2 < |circuit| && circuit[i] == 'k' && circuit[i + 1] == 'y' && circuit[i + 2] == 'c'
  {
    if i + 3 <= |circuit| {
      var part := circuit[i..i + 3];
      assert part[0] == circuit[i] && part[1] == circuit[i + 1] && part[2] == circuit[i + 2];
      if part[0] == 'k' && part[1] == 'y' && part[2] == 'c' { assert part == "kyc"; }
    }
  }

  /** The circuits that check a path in the contract, and the one that publishes a leaf, are staged theirs. */
  lemma LeafIsStaged(pending: Option<Bytes32>, circuit: string, args: seq<Bytes32>)
    requires circuit in {"prove_kyc_membership", "prove_recipient_valid", "prove_session_auth", "publish_kyc_leaf"}
    ensures Stage(pending, circuit, args) == if |args| > 0 then Some(args[0]) else None
  {
    StagedIff(pending, circuit, args);
    if circuit == "prove_kyc_membership" {
      assert circuit[6] == 'k' && circuit[6 + 1] == 'y' && circuit[6 + 2] == 'c';
    }
    if circuit == "publish_kyc_leaf" { assert circuit[8] == 'k' && circuit[8 + 1] == 'y' && circuit[8 + 2] == 'c'; }
  }

  /** The circuits that check the path of the staged leaf. */
  predicate ChecksLeaf(circuit: string) {
    circuit in {"prove_kyc_membership", "prove_recipient_valid", "prove_session_auth"}
  }

  /** A contract as the membership witness makes it: the circuits that check a path throw unless the staged leaf is
      their first argument, no circuit reads the staged leaf otherwise, and publishing takes a leaf. */
  function Guarded<C>(m: Contract<C>): Contract<C> {
    m.(exec := (circuit: string, ctx: C, args: seq<Bytes32>, bag: Bag, pending: Option<Bytes32>) =>
      if ChecksLeaf(circuit) && (|args| == 0 || pending != Some(args[0])) then None
      else if circuit == PUBLISH_LEAF && |args| == 0 then None
      else m.exec(circuit, ctx, args, bag, None))
  }

  /** Every such contract is sound, so that all that is proved of sound contracts holds of it. */
  lemma GuardedSound<C(!new)>(m: Contract<C>)
    ensures Sound(Guarded(m))
  {
    forall circuit | ChecksLeaf(circuit) ensures Stages(circuit) {
      if circuit == "prove_kyc_membership" { assert StandsAt(circuit, "kyc", 6); }
    }
  }

  /** In every run, whoever staged a leaf before: a finishing call of a circuit that checks its leaf succeeds exactly
      when it has one and the circuit itself does not throw. */
  lemma CheckedCallsRun<C(!new)>(m: Contract<C>, ss: seq<System<C>>, es: seq<Event>, k: nat, i: nat)
    requires Run(Guarded(m), ss, es) && k < |es| && es[k] == Finish(i)
    requires k < |ss| && i < |ss[k].tasks| && ChecksLeaf(ss[k].tasks[i].circuit)
    ensures k + 1 < |ss| && i < |ss[k + 1].tasks| && ss[k].tasks[i].phase.Ready?
    ensures var t := ss[k].tasks[i];
      var bytes := Decode(m, t.args);
      ss[k + 1].tasks[i].phase == Finished(
        |t.args| > 0 && m.exec(t.circuit, t.phase.ctx, bytes, Restore(ss[k].mem.bag, t.phase.snap), None).Some?)
  {
    hide Stages, Stage, Decode, Encode, Restore, SnapOf, Guarded;
    CompactTheorems.RunStep(Guarded(m), ss, es, k);
    var t := ss[k].tasks[i];
    var bytes := Decode(m, t.args);
    SameDecoding(m, t.args);
    LeafIsStaged(ss[k].mem.pending, t.circuit, bytes);
    GuardedRuns(m, t.circuit, t.phase.ctx, bytes, Restore(ss[k].mem.bag, t.phase.snap));
  }

  lemma SameDecoding<C>(m: Contract<C>, args: seq<string>)
    ensures Decode(Guarded(m), args) == Decode(m, args) && |Decode(m, args)| == |args|
  {
  }

  lemma GuardedRuns<C>(m: Contract<C>, circuit: string, ctx: C, args: seq<Bytes32>, bag: Bag)
    requires ChecksLeaf(circuit)
    ensures Guarded(m).exec(circuit, ctx, args, bag, if |args| > 0 then Some(args[0]) else None)
      == if |args| > 0 then m.exec(circuit, ctx, args, bag, None) else None
  {
    assert circuit[0..6] == "prove_";
  }

  /** And every log that such runs leave replays in any process, whatever leaf it has staged. */
  lemma CheckedLogsReplay<C(!new)>(m: Contract<C>, ss: seq<System<C>>, es: seq<Event>, k: nat, bag: Bag,
                                   pending: Option<Bytes32>)
    requires Run(Guarded(m), ss, es) && k < |ss|
    ensures Replay(Guarded(m), ss[k].log, bag, pending).cached.Some?
  {
    hide Run, Guarded, Replay;
    GuardedSound(m);
    CacheIsReplay(Guarded(m), ss, es, k, bag, pending);
  }

  /* Arguments */

  /** An argument of 64 hexadecimal digits is read as its bytes, after a prefix or without one; any other is digested
      as it stands. */
  lemma ArgumentIs(digest: string -> Bytes32, b: Bytes32, hex: string)
    ensures HexToBytes32(digest, ToHex(b)) == b && HexToBytes32(digest, "0x" + ToHex(b)) == b
    ensures var clean := if |hex| >= 2 && hex[0] == '0' && hex[1] == 'x' then hex[2..] else hex;
      var digits := |clean| == 64 && forall i :: 0 <= i < 64 ==>
        '0' <= clean[i] <= '9' || 'a' <= clean[i] <= 'f' || 'A' <= clean[i] <= 'F';
      !digits ==> HexToBytes32(digest, hex) == digest(hex)
  {
    hide ToHex, HexToOpening;
    ArgRoundTrip(digest, b);
    OpeningRoundTrip(b);
    var s := "0x" + ToHex(b);
    assert s[..2] == "0x" && s[2..] == ToHex(b);
    assert |hex| >= 2 ==> hex[..2] == [hex[0], hex[1]];
  }
}
