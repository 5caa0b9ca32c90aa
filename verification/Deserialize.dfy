/** Reading transactions off a byte stream, against their serialisation in BIP 144 and BIP 141. */
module Deserialize {
  import opened Records
  import opened Bytes
  import opened DataStream
  import opened TransactionFrame

  // ---------------------------------------------------------------- reading

  predicate OnlyZeros(bytes: ByteString) { forall i :: 0 <= i < |bytes| ==> bytes[i] == 0 }

  /** The transaction hash a coinbase input refers to: thirty-two zero bytes. */
  predicate IsNullHash(hash: ByteString) { |hash| == 32 && OnlyZeros(hash) }

  function TxInAt(input: ByteString, cursor: nat): Read<TxIn> {
    var Reads(hash, c1) := BytesAt(input, cursor, 32);
    match UnsignedAt(input, c1, 4)
    case Raises => Raises
    case Reads(n, c2) =>
      match SizedAt(input, c2)
      case Raises => Raises
      case Reads(scriptSig, c3) =>
        match UnsignedAt(input, c3, 4)
        case Raises => Raises
        case Reads(sequence, c4) => Reads(TxIn(hash, n, scriptSig, sequence, IsNullHash(hash)), c4)
  }

  function TxOutAt(input: ByteString, cursor: nat): Read<TxOut> {
    match SignedAt(input, cursor, 8)
    case Raises => Raises
    case Reads(value, c1) =>
      match SizedAt(input, c1)
      case Raises => Raises
      case Reads(script, c2) => Reads(TxOut(value, script), c2)
  }

  function StackAt(input: ByteString, cursor: nat): Read<seq<ByteString>> { CountedAt(SizedAt, input, cursor) }

  function VinAt(input: ByteString, cursor: nat): Read<seq<TxIn>> { CountedAt(TxInAt, input, cursor) }

  function VoutAt(input: ByteString, cursor: nat): Read<seq<TxOut>> { CountedAt(TxOutAt, input, cursor) }

  function CoreWith(vinAt: Reader<seq<TxIn>>, voutAt: Reader<seq<TxOut>>, input: ByteString, cursor: nat): Read<Core> {
    match vinAt(input, cursor)
    case Raises => Raises
    case Reads(vin, c) =>
      match voutAt(input, c)
      case Raises => Raises
      case Reads(vout, end) => Reads(Core(vin, vout), end)
  }

  function CoreAt(input: ByteString, cursor: nat): Read<Core> { CoreWith(VinAt, VoutAt, input, cursor) }

  /** The next two bytes are the marker 0 and the flag 1. */
  predicate SegwitFlag(input: ByteString, cursor: nat) {
    cursor + 2 <= |input| && input[cursor] == 0 && input[cursor + 1] == 1
  }

  function Int32At(input: ByteString, cursor: nat): Read<int> { SignedAt(input, cursor, 4) }

  function Uint32At(input: ByteString, cursor: nat): Read<nat> { UnsignedAt(input, cursor, 4) }

  function BitcoinParts(): Parts { Parts(Int32At, SegwitFlag, CoreAt, StackAt, Uint32At) }

  function TransactionAt(input: ByteString, start: nat, useTxid: bool): Read<Transaction> {
    TransactionWith(BitcoinParts(), input, start, useTxid)
  }

  // ---------------------------------------------------------------- serialisation

  predicate GoodIn(x: TxIn) {
    && |x.hash| == 32 && x.n < 0x1_0000_0000 && Fits64(|x.scriptSig|) && x.sequence < 0x1_0000_0000
    && x.coinbase == IsNullHash(x.hash)
  }

  predicate GoodOut(x: TxOut) {
    -0x8000_0000_0000_0000 <= x.value < 0x8000_0000_0000_0000 && Fits64(|x.script|)
  }

  predicate GoodBytes(b: ByteString) { Fits64(|b|) }

  predicate GoodStack(stack: seq<ByteString>) { Fits64(|stack|) && AllGood(GoodBytes, stack) }

  predicate GoodVin(vin: seq<TxIn>) { Fits64(|vin|) && AllGood(GoodIn, vin) }

  predicate GoodVout(vout: seq<TxOut>) { Fits64(|vout|) && AllGood(GoodOut, vout) }

  predicate GoodCore(core: Core) { GoodVin(core.vin) && GoodVout(core.vout) }

  function PutIn(x: TxIn): ByteString {
    x.hash + (LittleEndianBytes(x.n, 4) + (Sized(x.scriptSig) + LittleEndianBytes(x.sequence, 4)))
  }

  function PutOut(x: TxOut): ByteString {
    LittleEndianBytes(x.value % 0x1_0000_0000_0000_0000, 8) + Sized(x.script)
  }

  function PutStack(stack: seq<ByteString>): ByteString { PutCounted(Sized, stack) }

  function PutVin(vin: seq<TxIn>): ByteString { PutCounted(PutIn, vin) }

  function PutVout(vout: seq<TxOut>): ByteString { PutCounted(PutOut, vout) }

  function PutCore(core: Core): ByteString { PutVin(core.vin) + PutVout(core.vout) }

  predicate GoodInt32(v: int) { -0x8000_0000 <= v < 0x8000_0000 }

  predicate GoodUint32(v: nat) { v < 0x1_0000_0000 }

  function BitcoinLimits(): Limits { Limits(GoodInt32, GoodCore, GoodStack, GoodUint32) }

  function PutInt32(v: int): ByteString { LittleEndianBytes(v % 0x1_0000_0000, 4) }

  function PutUint32(v: nat): ByteString { LittleEndianBytes(v, 4) }

  function BitcoinWriters(): Writers { Writers(PutInt32, PutCore, PutStack, PutUint32) }

  function Written(t: Wire): ByteString { Put(BitcoinWriters(), t) }

  // ---------------------------------------------------------------- reading what was written

  lemma ReadsTxIn(input: ByteString, cursor: nat, x: TxIn)
    requires GoodIn(x) && Holds(input, cursor, PutIn(x))
    ensures TxInAt(input, cursor) == Reads(x, cursor + |PutIn(x)|)
  {
    PowersOf256();
    var index, script, sequence := LittleEndianBytes(x.n, 4), Sized(x.scriptSig), LittleEndianBytes(x.sequence, 4);
    HoldsBoth(input, cursor, x.hash, index + (script + sequence));
    HoldsBoth(input, cursor + 32, index, script + sequence);
    HoldsBoth(input, cursor + 36, script, sequence);
    ReadsBytes(input, cursor, x.hash);
    ReadsUnsigned(input, cursor + 32, x.n, 4);
    ReadsSized(input, cursor + 36, x.scriptSig);
    ReadsUnsigned(input, cursor + 36 + |script|, x.sequence, 4);
  }

  lemma ReadsTxOut(input: ByteString, cursor: nat, x: TxOut)
    requires GoodOut(x) && Holds(input, cursor, PutOut(x))
    ensures TxOutAt(input, cursor) == Reads(x, cursor + |PutOut(x)|)
  {
    PowersOf256();
    var u := x.value % 0x1_0000_0000_0000_0000;
    HoldsBoth(input, cursor, LittleEndianBytes(u, 8), Sized(x.script));
    ReadsSigned(input, cursor, x.value, u, 8);
    ReadsSized(input, cursor + 8, x.script);
  }

  lemma TxInInverts()
    ensures Inverts(TxInAt, PutIn, GoodIn)
  {
    forall input: ByteString, cursor: nat, x ensures InvertsHere(TxInAt, PutIn, GoodIn, input, cursor, x) {
      if GoodIn(x) && Holds(input, cursor, PutIn(x)) { ReadsTxIn(input, cursor, x); }
    }
  }

  lemma TxOutInverts()
    ensures Inverts(TxOutAt, PutOut, GoodOut)
  {
    forall input: ByteString, cursor: nat, x ensures InvertsHere(TxOutAt, PutOut, GoodOut, input, cursor, x) {
      if GoodOut(x) && Holds(input, cursor, PutOut(x)) { ReadsTxOut(input, cursor, x); }
    }
  }

  lemma ReadsStack(input: ByteString, cursor: nat, stack: seq<ByteString>)
    requires GoodStack(stack) && Holds(input, cursor, PutStack(stack))
    ensures StackAt(input, cursor) == Reads(stack, cursor + |PutStack(stack)|)
  {
    assert Inverts(SizedAt, Sized, GoodBytes) by {
      forall input: ByteString, cursor: nat, b ensures InvertsHere(SizedAt, Sized, GoodBytes, input, cursor, b) {
        if GoodBytes(b) && Holds(input, cursor, Sized(b)) { ReadsSized(input, cursor, b); }
      }
    }
    ReadsCounted(SizedAt, Sized, GoodBytes, input, cursor, stack);
  }

  lemma StackInverts()
    ensures Inverts(StackAt, PutStack, GoodStack)
  {
    forall input: ByteString, cursor: nat, stack
      ensures InvertsHere(StackAt, PutStack, GoodStack, input, cursor, stack)
    {
      if GoodStack(stack) && Holds(input, cursor, PutStack(stack)) { ReadsStack(input, cursor, stack); }
    }
  }

  lemma VinInverts()
    ensures Inverts(VinAt, PutVin, GoodVin)
  {
    TxInInverts();
    forall input: ByteString, cursor: nat, vin ensures InvertsHere(VinAt, PutVin, GoodVin, input, cursor, vin) {
      if GoodVin(vin) && Holds(input, cursor, PutVin(vin)) { ReadsCounted(TxInAt, PutIn, GoodIn, input, cursor, vin); }
    }
  }

  lemma VoutInverts()
    ensures Inverts(VoutAt, PutVout, GoodVout)
  {
    TxOutInverts();
    forall input: ByteString, cursor: nat, vout ensures InvertsHere(VoutAt, PutVout, GoodVout, input, cursor, vout) {
      if GoodVout(vout) && Holds(input, cursor, PutVout(vout)) {
        ReadsCounted(TxOutAt, PutOut, GoodOut, input, cursor, vout);
      }
    }
  }

  lemma ReadsCore(vinAt: Reader<seq<TxIn>>, putVin: seq<TxIn> -> ByteString, goodVin: seq<TxIn> -> bool,
                  voutAt: Reader<seq<TxOut>>, putVout: seq<TxOut> -> ByteString, goodVout: seq<TxOut> -> bool,
                  input: ByteString, cursor: nat, core: Core)
    requires Inverts(vinAt, putVin, goodVin) && Inverts(voutAt, putVout, goodVout) && goodVin(core.vin)
             && goodVout(core.vout)
    requires Holds(input, cursor, putVin(core.vin) + putVout(core.vout))
    ensures CoreWith(vinAt, voutAt, input, cursor) == Reads(core, cursor + |putVin(core.vin) + putVout(core.vout)|)
  {
    HoldsBoth(input, cursor, putVin(core.vin), putVout(core.vout));
    assert InvertsHere(vinAt, putVin, goodVin, input, cursor, core.vin);
    assert InvertsHere(voutAt, putVout, goodVout, input, cursor + |putVin(core.vin)|, core.vout);
  }

  lemma CoreInverts()
    ensures Inverts(CoreAt, PutCore, GoodCore)
  {
    VinInverts();
    VoutInverts();
    forall input: ByteString, cursor: nat, core ensures InvertsHere(CoreAt, PutCore, GoodCore, input, cursor, core) {
      if GoodCore(core) && Holds(input, cursor, PutCore(core)) {
        ReadsCore(VinAt, PutVin, GoodVin, VoutAt, PutVout, GoodVout, input, cursor, core);
      }
    }
  }

  lemma NumbersInvert()
    ensures Inverts(Int32At, PutInt32, GoodInt32)
    ensures Inverts(Uint32At, PutUint32, GoodUint32)
  {
    PowersOf256();
    forall input: ByteString, cursor: nat, v ensures InvertsHere(Int32At, PutInt32, GoodInt32, input, cursor, v) {
      if GoodInt32(v) && Holds(input, cursor, PutInt32(v)) { ReadsSigned(input, cursor, v, v % 0x1_0000_0000, 4); }
    }
    forall input: ByteString, cursor: nat, v ensures InvertsHere(Uint32At, PutUint32, GoodUint32, input, cursor, v) {
      if GoodUint32(v) && Holds(input, cursor, PutUint32(v)) { ReadsUnsigned(input, cursor, v, 4); }
    }
  }

  lemma FlagIsSeen()
    ensures FlagsSegwit(SegwitFlag)
  {
    forall input: ByteString, cursor: nat | Holds(input, cursor, [0, 1]) ensures SegwitFlag(input, cursor) {
      assert input[cursor..cursor + 2][0] == 0 && input[cursor..cursor + 2][1] == 1;
    }
  }

  lemma BitcoinPartsInvert()
    ensures PartsInvert(BitcoinParts(), BitcoinWriters(), BitcoinLimits())
  {
    NumbersInvert();
    FlagIsSeen();
    CoreInverts();
    StackInverts();
  }

  lemma LegacyLayout(input: ByteString, start: nat, v: ByteString, vin: ByteString, vout: ByteString, l: ByteString)
    requires |v| == 4 && vin != [] && vout != [] && Holds(input, start, v + ((vin + vout) + l))
    ensures Holds(input, start, v) && Holds(input, start + 4, vin + vout) && Holds(input, start + 4 + |vin + vout|, l)
    ensures start + 6 <= |input| && input[start + 4] == vin[0] && (|vin| == 1 ==> input[start + 5] == vout[0])
  {
    HoldsBoth(input, start, v, (vin + vout) + l);
    HoldsBoth(input, start + 4, vin + vout, l);
    HoldsBoth(input, start + 4, vin, vout);
    HoldsFirst(input, start + 4, vin);
    HoldsFirst(input, start + 4 + |vin|, vout);
  }

  lemma FirstByteOfCount(n: nat)
    ensures CompactSize(n) != []
    ensures CompactSize(n)[0] == 0 <==> n == 0
    ensures CompactSize(n)[0] == 1 <==> n == 1
    ensures n == 0 ==> CompactSize(n) == [0]
  {
  }

  lemma FirstByteCounts<T>(put: T -> ByteString, xs: seq<T>)
    ensures PutCounted(put, xs) != []
    ensures PutCounted(put, xs)[0] == 0 <==> |xs| == 0
    ensures PutCounted(put, xs)[0] == 1 <==> |xs| == 1
    ensures |xs| == 0 ==> |PutCounted(put, xs)| == 1
  {
    FirstByteOfCount(|xs|);
  }

  /** The bytes of a transaction with no input and one output look like those of one with witnesses. */
  predicate LooksLikeSegwit(t: Wire) { |t.core.vin| == 0 && |t.core.vout| == 1 }

  /** The two bytes after the version of a transaction without witnesses. */
  lemma LegacyFlag(input: ByteString, start: nat, t: Wire)
    requires Holds(input, start, PutLegacy(BitcoinWriters(), t))
    ensures SegwitFlag(input, start + 4) <==> LooksLikeSegwit(t)
  {
    FirstByteCounts(PutIn, t.core.vin);
    FirstByteCounts(PutOut, t.core.vout);
    LegacyLayout(input, start, PutInt32(t.version), PutVin(t.core.vin), PutVout(t.core.vout), PutUint32(t.lockTime));
  }

  /** Reading a transaction with witnesses gives it back, with the witness-free bytes under its identifier. */
  lemma SegwitRoundTrip(input: ByteString, start: nat, t: Wire, useTxid: bool)
    requires Good(BitcoinLimits(), t) && t.stacks.Some? && Holds(input, start, Written(t))
    ensures TransactionAt(input, start, useTxid) == Reads(Expected(BitcoinWriters(), t, useTxid), start + |Written(t)|)
  {
    BitcoinPartsInvert();
    SegwitReadsBack(BitcoinParts(), BitcoinWriters(), BitcoinLimits(), input, start, t, useTxid);
  }

  /**
   * Reading a transaction without witnesses gives it back exactly when it is not one with no input and one
   * output, whose bytes look like the marker and flag of a witness.
   */
  lemma LegacyRoundTripIff(input: ByteString, start: nat, t: Wire, useTxid: bool)
    requires Good(BitcoinLimits(), t) && t.stacks.None? && Holds(input, start, Written(t))
    ensures TransactionAt(input, start, useTxid) == Reads(Expected(BitcoinWriters(), t, useTxid), start + |Written(t)|)
            <==> !LooksLikeSegwit(t)
  {
    BitcoinPartsInvert();
    LegacyReadsBackIff(BitcoinParts(), BitcoinWriters(), BitcoinLimits(), input, start, t, useTxid);
    LegacyFlag(input, start, t);
  }

  lemma RoundTripAt(input: ByteString, start: nat, t: Wire, useTxid: bool)
    requires Good(BitcoinLimits(), t) && t.core.vin != [] && Holds(input, start, Written(t))
    ensures TransactionAt(input, start, useTxid) == Reads(Expected(BitcoinWriters(), t, useTxid), start + |Written(t)|)
  {
    if t.stacks.Some? {
      SegwitRoundTrip(input, start, t, useTxid);
    } else {
      LegacyRoundTripIff(input, start, t, useTxid);
    }
  }

  /** Every transaction with an input survives the round trip, wherever its bytes stand in the stream. */
  lemma RoundTrip(before: ByteString, t: Wire, after: ByteString, useTxid: bool)
    requires Good(BitcoinLimits(), t) && t.core.vin != []
    ensures TransactionAt(before + Written(t) + after, |before|, useTxid) ==
            Reads(Expected(BitcoinWriters(), t, useTxid), |before| + |Written(t)|)
  {
    HoldsBetween(before, Written(t), after);
    RoundTripAt(before + Written(t) + after, |before|, t, useTxid);
  }

  /** A transaction with one output that anybody can spend, and nothing to pay for it. */
  function NoInput(): Wire { Wire(1, Core([], [TxOut(5_000_000_000, [0x51])]), None, 0) }

  lemma NoInputIsGood()
    ensures Good(BitcoinLimits(), NoInput()) && LooksLikeSegwit(NoInput())
  {
  }

  lemma StandingAlone(t: Wire, useTxid: bool)
    requires Good(BitcoinLimits(), t) && t.stacks.None? && LooksLikeSegwit(t)
    ensures TransactionAt(Written(t), 0, useTxid) != Reads(Expected(BitcoinWriters(), t, useTxid), |Written(t)|)
  {
    assert [] + Written(t) + [] == Written(t);
    HoldsBetween([], Written(t), []);
    LegacyRoundTripIff(Written(t), 0, t, useTxid);
  }

  /** It is not read back: its two counts are taken for marker and flag. */
  lemma NoInputIsMisread(useTxid: bool)
    ensures Good(BitcoinLimits(), NoInput())
    ensures TransactionAt(Written(NoInput()), 0, useTxid) !=
            Reads(Expected(BitcoinWriters(), NoInput(), useTxid), |Written(NoInput())|)
  {
    NoInputIsGood();
    StandingAlone(NoInput(), useTxid);
  }

  // ---------------------------------------------------------------- where the fields stand

  /** Hash, index, script behind its length, sequence: an input is a coinbase when its hash is 32 zero bytes. */
  lemma TxInStandsThere(input: ByteString, cursor: nat)
    requires TxInAt(input, cursor).Reads?
    ensures var Reads(x, end) := TxInAt(input, cursor);
            && cursor + 36 <= end - 4 < end <= |input| && CompactSizeAt(input, cursor + 36).Reads?
            && x.hash == input[cursor..cursor + 32] && x.n == LittleNumberAt(input, cursor + 32, 4)
            && var Reads(size, c) := CompactSizeAt(input, cursor + 36);
               && end == c + size + 4 && x.scriptSig == input[c..end - 4]
               && x.sequence == LittleNumberAt(input, end - 4, 4)
    ensures var x := TxInAt(input, cursor).value;
            |x.hash| == 32 && (x.coinbase <==> forall i :: 0 <= i < 32 ==> x.hash[i] == 0)
  {
    var Reads(x, end) := TxInAt(input, cursor);
    var Reads(size, c) := CompactSizeAt(input, cursor + 36);
    assert BytesAt(input, cursor, 32) == Reads(x.hash, cursor + 32) && end <= |input|;
    assert SizedAt(input, cursor + 36) == Reads(x.scriptSig, end - 4) == BytesAt(input, c, size);
  }

  /** Value and script behind its length; a script that is cut off by the end of the input is taken as it is. */
  lemma TxOutStandsThere(input: ByteString, cursor: nat)
    requires TxOutAt(input, cursor).Reads?
    ensures var Reads(x, end) := TxOutAt(input, cursor);
            var size, u := CompactSizeAt(input, cursor + 8), LittleNumberAt(input, cursor, 8);
            && size.Reads? && end == size.end + size.value
            && x.value == (if u < 0x8000_0000_0000_0000 then u else u - 0x1_0000_0000_0000_0000)
            && x.script == input[size.end..Least(end, |input|)]
  {
    PowersOf256();
    CompactSizeIsShortest(input, cursor + 8);
  }
}
