/** The witness bag of the Compact ledger and the text form in which the replay log keeps it. */
module WitnessBag {
  import opened GF256
  import opened Text

  datatype NumField =
    | SpendOldBal | SpendAmount | CreditOldBal | CreditAmount | PolicyAmount
    | LockOldBal | LockCollateral | LockLoan
    | PoolOldTotal | PoolDeposit | PoolLenderOld
    | RepayInstallment | RepayRemainingOld | RepayRemainingNew
    | StandingOnTime | StandingDefaults | StandingThr | StandingMaxDef
    | StrategyWeight

  datatype OpenField =
    | SpendOldOpen | SpendNewOpen | CreditOldOpen | CreditNewOpen
    | LockOldOpen | LockNewOpen | LockColOpen
    | PoolOldOpen | PoolNewOpen | PoolLenderOldOpen | PoolLenderNewOpen
    | StandingThrOpen | StandingMaxDefOpen
    | StrategyOpen

  /** Fields every snapshot holds; the others were added later and may be missing from an older one. */
  predicate NumRequired(f: NumField) { f in {SpendOldBal, SpendAmount, CreditOldBal, CreditAmount} }

  predicate OpenRequired(f: OpenField) { f in {SpendOldOpen, SpendNewOpen, CreditOldOpen, CreditNewOpen} }

  datatype Witnesses = Witnesses(nums: map<NumField, int>, opens: map<OpenField, seq<byte>>)

  predicate Full(w: Witnesses) {
    (forall f: NumField :: f in w.nums) && (forall f: OpenField :: f in w.opens)
  }

  type Bag = w: Witnesses | Full(w)
    witness Witnesses(map f: NumField | true :: 0, map f: OpenField | true :: [])

  datatype Record = Record(nums: map<NumField, string>, opens: map<OpenField, string>)

  /* Openings as hexadecimal text */

  predicate HexText(s: string) { forall i :: 0 <= i < |s| ==> DigitValue(s[i]).Some? }

  /** The byte written at a position: two digits, the one digit left at an odd end, or 0 past the end. */
  function ByteAt(s: string, i: nat): byte
    requires HexText(s)
  {
    if 2 * i + 1 < |s| then
      DigitRoundTrip(0, s[2 * i]);
      DigitRoundTrip(0, s[2 * i + 1]);
      ByteOf(16 * DigitValue(s[2 * i]).value + DigitValue(s[2 * i + 1]).value)
    else if 2 * i < |s| then
      DigitRoundTrip(0, s[2 * i]);
      ByteOf(DigitValue(s[2 * i]).value)
    else ByteOf(0)
  }

  function HexToOpening(s: string): (o: seq<byte>)
    requires HexText(s)
    ensures |o| == 32
  {
    seq(32, i requires 0 <= i => ByteAt(s, i))
  }

  /** The text of a byte string read back at any length: cut or filled up with zeros to 32 bytes. */
  lemma {:induction false} WrittenByte(bs: seq<byte>, i: nat)
    ensures HexText(ToHex(bs))
    ensures ByteAt(ToHex(bs), i) == if i < |bs| then bs[i] else ByteOf(0)
  {
    hide ByteOf, Digit, DigitValue;
    if |bs| > 0 {
      var n, s, t := Nat(bs[0]), ToHex(bs), ToHex(bs[1..]);
      DigitRoundTrip(n / 16, ' '); DigitRoundTrip(n % 16, ' ');
      WrittenByte(bs[1..], if i > 0 then i - 1 else 0);
      assert forall j :: 2 <= j < |s| ==> s[j] == t[j - 2];
      assert 16 * (n / 16) + n % 16 == n;
    }
  }

  /** A byte string cut or filled up with zeros to 32 bytes. */
  function Padded(bs: seq<byte>): (r: seq<byte>)
    ensures |r| == 32 && (r == bs <==> |bs| == 32)
  {
    seq(32, i requires 0 <= i => if i < |bs| then bs[i] else ByteOf(0))
  }

  /** Reading back the text of an opening pads it, so exactly those of 32 bytes survive. */
  lemma OpeningRoundTrip(bs: seq<byte>)
    ensures HexText(ToHex(bs))
    ensures HexToOpening(ToHex(bs)) == Padded(bs)
  {
    hide ToHex, ByteAt, HexText;
    WrittenByte(bs, 0);
    forall i | 0 <= i < 32 ensures HexToOpening(ToHex(bs))[i] == Padded(bs)[i] { WrittenByte(bs, i); }
  }

  /* Snapshot and restore */

  predicate Readable(s: Record) {
    && (forall f :: f in s.nums ==> ParseNumeral(s.nums[f]).Some?)
    && (forall f :: f in s.opens ==> HexText(s.opens[f]))
    && (forall f :: NumRequired(f) ==> f in s.nums)
    && (forall f :: OpenRequired(f) ==> f in s.opens)
  }

  type Snap = s: Record | Readable(s)
    witness Record(map f: NumField | true :: "", map f: OpenField | true :: "")

  function Written(b: Bag): Record {
    Record(map f: NumField | true :: Numeral(b.nums[f]), map f: OpenField | true :: ToHex(b.opens[f]))
  }

  lemma WrittenReads(b: Bag)
    ensures Readable(Written(b))
  {
    hide ToHex, Numeral, ParseNumeral, HexText;
    var s := Written(b);
    forall f: NumField ensures ParseNumeral(s.nums[f]).Some? { NumeralRoundTrip(b.nums[f]); }
    forall f: OpenField ensures HexText(s.opens[f]) { WrittenByte(b.opens[f], 0); }
  }

  function SnapOf(b: Bag): Snap {
    WrittenReads(b);
    Written(b)
  }

  function RestoredNum(was: int, f: NumField, s: Snap): int {
    if f in s.nums && (f == PolicyAmount ==> s.nums[f] != "") then ParseNumeral(s.nums[f]).value else was
  }

  function RestoredOpen(was: seq<byte>, f: OpenField, s: Snap): seq<byte> {
    if f in s.opens && (OpenRequired(f) || s.opens[f] != "") then HexToOpening(s.opens[f]) else was
  }

  /** An older snapshot may lack a field, and an empty opening reads as a missing one: the bag then keeps its own. */
  function Restore(b: Bag, s: Snap): Bag {
    Witnesses(map f: NumField | true :: RestoredNum(b.nums[f], f, s),
              map f: OpenField | true :: RestoredOpen(b.opens[f], f, s))
  }

  /** What a restored snapshot leaves in each field. */
  lemma RestoredIs(c: Bag, b: Bag)
    ensures forall f: NumField :: Restore(c, SnapOf(b)).nums[f] == b.nums[f]
    ensures forall f: OpenField ::
      Restore(c, SnapOf(b)).opens[f] == if OpenRequired(f) || b.opens[f] != [] then Padded(b.opens[f]) else c.opens[f]
  {
    hide ParseNumeral, HexText, HexToOpening, Readable, ToHex, Padded;
    WrittenReads(b);
    forall f: NumField ensures Restore(c, SnapOf(b)).nums[f] == b.nums[f] { NumeralRoundTrip(b.nums[f]); }
    forall f: OpenField ensures HexText(SnapOf(b).opens[f]) && HexToOpening(SnapOf(b).opens[f]) == Padded(b.opens[f]) {
      OpeningRoundTrip(b.opens[f]);
    }
  }

  predicate Whole(b: Bag) { forall f: OpenField :: |b.opens[f]| == 32 }

  /** No opening that a snapshot would drop. */
  predicate NoneDropped(b: Bag) { forall f: OpenField :: OpenRequired(f) || b.opens[f] != [] }

  function OneByte(f: OpenField): seq<byte> { [ByteOf(0)] }

  lemma SameBag(a: Bag, b: Bag)
    requires forall f: NumField :: a.nums[f] == b.nums[f]
    requires forall f: OpenField :: a.opens[f] == b.opens[f]
    ensures a == b
  {
    assert a.nums == b.nums && a.opens == b.opens;
  }

  /** A snapshot brings the very bag back into any process exactly when every opening has 32 bytes. */
  lemma RestoreAnywhereIff(b: Bag)
    ensures (forall c: Bag :: Restore(c, SnapOf(b)) == b) <==> Whole(b)
  {
    hide Restore, SnapOf, Padded;
    RestoredIs(b, b);
    if Whole(b) {
      forall c: Bag ensures Restore(c, SnapOf(b)) == b { RestoredIs(c, b); SameBag(Restore(c, SnapOf(b)), b); }
    } else {
      var f: OpenField :| |b.opens[f]| != 32;
      var c: Bag := Witnesses(b.nums, map g: OpenField | true :: OneByte(g));
      RestoredIs(c, b);
      assert Restore(c, SnapOf(b)).opens[f] != b.opens[f];
    }
  }

  /** In the same process a snapshot restores the bag it was taken from exactly when the openings that are not
      empty have 32 bytes, and the four of spend and credit are among them. */
  lemma RestoreHereIff(b: Bag)
    ensures Restore(b, SnapOf(b)) == b <==>
      forall f: OpenField :: |b.opens[f]| == 32 || (b.opens[f] == [] && !OpenRequired(f))
  {
    hide Restore, SnapOf, Padded;
    RestoredIs(b, b);
    if forall f: OpenField :: |b.opens[f]| == 32 || (b.opens[f] == [] && !OpenRequired(f)) {
      SameBag(Restore(b, SnapOf(b)), b);
    } else {
      var f: OpenField :| !(|b.opens[f]| == 32 || (b.opens[f] == [] && !OpenRequired(f)));
      assert Restore(b, SnapOf(b)).opens[f] != b.opens[f];
    }
  }

  /** What a snapshot restores does not depend on the bag it meets exactly when no later opening was empty; the
      restored bag is then whole. */
  lemma RestoreForgetsIff(b: Bag)
    ensures (forall c: Bag, d: Bag :: Restore(c, SnapOf(b)) == Restore(d, SnapOf(b))) <==> NoneDropped(b)
    ensures NoneDropped(b) ==> forall c: Bag :: Whole(Restore(c, SnapOf(b)))
  {
    hide Restore, SnapOf, Padded;
    RestoredIs(b, b);
    if NoneDropped(b) {
      forall c: Bag, d: Bag ensures Restore(c, SnapOf(b)) == Restore(d, SnapOf(b)) && Whole(Restore(c, SnapOf(b))) {
        RestoredIs(c, b); RestoredIs(d, b);
        SameBag(Restore(c, SnapOf(b)), Restore(d, SnapOf(b)));
      }
    } else {
      var f: OpenField :| !(OpenRequired(f) || b.opens[f] != []);
      var c: Bag := Witnesses(b.nums, map g: OpenField | true :: OneByte(g));
      RestoredIs(c, b);
      assert Restore(c, SnapOf(b)).opens[f] != Restore(b, SnapOf(b)).opens[f];
    }
  }
}
