/** Writing what has been read: the same bytes again exactly when no length took more bytes than it needs. */
module WriteBack {
  import opened Records
  import opened Bytes
  import opened DataStream
  import opened TransactionFrame
  import opened Deserialize

  // ---------------------------------------------------------------- the lengths of an input

  /** Whether the lengths that a reader meets from a cursor on have their shortest form. */
  type LengthCheck = (ByteString, nat) -> bool

  /** The length that is read here takes no more bytes than it needs. */
  predicate ShortLength(input: ByteString, cursor: nat) {
    var r := CompactSizeAt(input, cursor);
    r.Reads? ==> r.end - cursor == |CompactSize(r.value)|
  }

  /** What has no length in it. */
  predicate NoLength(input: ByteString, cursor: nat) { true }

  predicate ShortMany<T>(reader: Reader<T>, short: LengthCheck, input: ByteString, cursor: nat, count: nat)
    decreases count
  {
    count > 0 ==>
      && short(input, cursor)
      && var r := reader(input, cursor);
         r.Reads? ==> ShortMany(reader, short, input, r.end, count - 1)
  }

  predicate ShortCounted<T>(reader: Reader<T>, short: LengthCheck, input: ByteString, cursor: nat) {
    && ShortLength(input, cursor)
    && var r := CompactSizeAt(input, cursor);
       r.Reads? ==> ShortMany(reader, short, input, r.end, r.value)
  }

  /** The script of an input is behind the hash and the index. */
  predicate ShortIn(input: ByteString, cursor: nat) { ShortLength(input, cursor + 36) }

  /** The script of an output is behind the value. */
  predicate ShortOut(input: ByteString, cursor: nat) { ShortLength(input, cursor + 8) }

  predicate ShortStack(input: ByteString, cursor: nat) { ShortCounted(SizedAt, ShortLength, input, cursor) }

  predicate ShortVin(input: ByteString, cursor: nat) { ShortCounted(TxInAt, ShortIn, input, cursor) }

  predicate ShortVout(input: ByteString, cursor: nat) { ShortCounted(TxOutAt, ShortOut, input, cursor) }

  predicate ShortBoth<T>(reader: Reader<T>, short: LengthCheck, next: LengthCheck, input: ByteString, cursor: nat) {
    && short(input, cursor)
    && var r := reader(input, cursor);
       r.Reads? ==> next(input, r.end)
  }

  predicate ShortCore(input: ByteString, cursor: nat) { ShortBoth(VinAt, ShortVin, ShortVout, input, cursor) }

  datatype LengthChecks = LengthChecks(core: LengthCheck, stack: LengthCheck)

  predicate ShortAfter(p: Parts, l: LengthChecks, input: ByteString, segwit: bool, cursor: nat) {
    && l.core(input, cursor)
    && var r := p.coreAt(input, cursor);
       segwit && r.Reads? ==> ShortMany(p.stackAt, l.stack, input, r.end, |r.value.vin|)
  }

  predicate ShortWith(p: Parts, l: LengthChecks, input: ByteString, start: nat) {
    var r := p.versionAt(input, start);
    r.Reads? ==>
      var segwit := p.segwitAt(input, r.end);
      ShortAfter(p, l, input, segwit, if segwit then r.end + 2 else r.end)
  }

  /** Every length that reading a transaction meets has its shortest form. */
  predicate AllLengthsShort(input: ByteString, start: nat) {
    ShortWith(BitcoinParts(), LengthChecks(ShortCore, ShortStack), input, start)
  }

  // ---------------------------------------------------------------- what is written again

  /** No more bytes than the stretch of the input has: that very stretch when its lengths are short, else fewer. */
  predicate Recovers(bytes: ByteString, input: ByteString, cursor: nat, end: nat, short: bool) {
    && cursor <= end
    && (end <= |input| ==> if short then end == cursor + |bytes| && Holds(input, cursor, bytes)
                           else |bytes| < end - cursor)
  }

  ghost predicate WritesBackHere<T>(reader: Reader<T>, put: T -> ByteString, short: LengthCheck, input: ByteString,
                                    cursor: nat) {
    var r := reader(input, cursor);
    r.Reads? ==> Recovers(put(r.value), input, cursor, r.end, short(input, cursor))
  }

  /** Writing a value the reader gave recovers the bytes it was read from, if the lengths among them are short. */
  ghost predicate WritesBack<T(!new)>(reader: Reader<T>, put: T -> ByteString, short: LengthCheck) {
    forall input: ByteString, cursor: nat :: WritesBackHere(reader, put, short, input, cursor)
  }

  lemma HoldsJoined(input: ByteString, cursor: nat, a: ByteString, b: ByteString)
    requires Holds(input, cursor, a) && Holds(input, cursor + |a|, b)
    ensures Holds(input, cursor, a + b)
  {
    var mid, end := cursor + |a|, cursor + |a| + |b|;
    assert input[cursor..end] == input[cursor..mid] + input[mid..end];
  }

  lemma RecoversBoth(a: ByteString, b: ByteString, input: ByteString, cursor: nat, mid: nat, end: nat, shortA: bool,
                     shortB: bool)
    requires Recovers(a, input, cursor, mid, shortA) && Recovers(b, input, mid, end, shortB)
    ensures Recovers(a + b, input, cursor, end, shortA && shortB)
  {
    if end <= |input| && shortA && shortB { HoldsJoined(input, cursor, a, b); }
  }

  // ---------------------------------------------------------------- numbers, lengths and byte strings

  lemma SizeRecovers(input: ByteString, cursor: nat)
    requires CompactSizeAt(input, cursor).Reads?
    ensures var r := CompactSizeAt(input, cursor);
            Recovers(CompactSize(r.value), input, cursor, r.end, ShortLength(input, cursor))
  {
    CompactSizeIsShortest(input, cursor);
  }

  lemma UnsignedRecovers(input: ByteString, cursor: nat, width: nat)
    requires UnsignedAt(input, cursor, width).Reads?
    ensures var r := UnsignedAt(input, cursor, width);
            r.value < Power256(width) && Recovers(LittleEndianBytes(r.value, width), input, cursor, r.end, true)
  {
    LittleBytesOfNumber(input, cursor, width);
  }

  lemma UnsignedOfSigned(u: nat, modulus: nat)
    requires u < modulus
    ensures Signed(u, modulus) % modulus == u
  {
    if 2 * u >= modulus { assert (u - modulus) % modulus == u; }
  }

  lemma SignedRecovers(input: ByteString, cursor: nat, width: nat, modulus: nat)
    requires SignedAt(input, cursor, width).Reads? && modulus == Power256(width) && modulus > 0
    ensures var r := SignedAt(input, cursor, width);
            Recovers(LittleEndianBytes(r.value % modulus, width), input, cursor, r.end, true)
  {
    UnsignedRecovers(input, cursor, width);
    UnsignedOfSigned(UnsignedAt(input, cursor, width).value, modulus);
  }

  lemma BytesRecover(input: ByteString, cursor: nat, length: nat)
    ensures var r := BytesAt(input, cursor, length);
            Recovers(r.value, input, cursor, r.end, true) && (r.end <= |input| ==> |r.value| == length)
  {
  }

  lemma SizedRecovers(input: ByteString, cursor: nat)
    ensures WritesBackHere(SizedAt, Sized, ShortLength, input, cursor)
  {
    if SizedAt(input, cursor).Reads? {
      SizeRecovers(input, cursor);
      var Reads(size, c) := CompactSizeAt(input, cursor);
      BytesRecover(input, c, size);
      var r := BytesAt(input, c, size);
      if r.end <= |input| {
        RecoversBoth(CompactSize(size), r.value, input, cursor, c, r.end, ShortLength(input, cursor), true);
      }
    }
  }

  // ---------------------------------------------------------------- many of a kind

  lemma {:induction false} ManyRecovers<T(!new)>(
      reader: Reader<T>, put: T -> ByteString, short: LengthCheck, input: ByteString, cursor: nat, count: nat)
    requires WritesBack(reader, put, short) && ManyAt(reader, input, cursor, count).Reads?
    ensures var r := ManyAt(reader, input, cursor, count);
            && |r.value| == count
            && Recovers(PutMany(put, r.value), input, cursor, r.end, ShortMany(reader, short, input, cursor, count))
    decreases count
  {
    if count > 0 {
      var first := reader(input, cursor);
      assert WritesBackHere(reader, put, short, input, cursor);
      ManyRecovers(reader, put, short, input, first.end, count - 1);
      var rest := ManyAt(reader, input, first.end, count - 1);
      assert ([first.value] + rest.value)[1..] == rest.value;
      RecoversBoth(put(first.value), PutMany(put, rest.value), input, cursor, first.end, rest.end,
                   short(input, cursor), ShortMany(reader, short, input, first.end, count - 1));
    }
  }

  lemma CountedRecovers<T(!new)>(
      reader: Reader<T>, put: T -> ByteString, short: LengthCheck, input: ByteString, cursor: nat)
    requires WritesBack(reader, put, short) && CountedAt(reader, input, cursor).Reads?
    ensures var r := CountedAt(reader, input, cursor);
            Recovers(PutCounted(put, r.value), input, cursor, r.end, ShortCounted(reader, short, input, cursor))
  {
    SizeRecovers(input, cursor);
    var Reads(count, c) := CompactSizeAt(input, cursor);
    ManyRecovers(reader, put, short, input, c, count);
    var r := ManyAt(reader, input, c, count);
    RecoversBoth(CompactSize(count), PutMany(put, r.value), input, cursor, c, r.end, ShortLength(input, cursor),
                 ShortMany(reader, short, input, c, count));
  }

  // ---------------------------------------------------------------- the parts of a transaction

  lemma TxInRecovers(input: ByteString, cursor: nat)
    ensures WritesBackHere(TxInAt, PutIn, ShortIn, input, cursor)
  {
    var r := TxInAt(input, cursor);
    if r.Reads? {
      var c1, x, short := cursor + 32, r.value, ShortIn(input, cursor);
      var c2 := c1 + 4;
      var c3 := SizedAt(input, c2).end;
      BytesRecover(input, cursor, 32);
      UnsignedRecovers(input, c1, 4);
      SizedRecovers(input, c2);
      UnsignedRecovers(input, c3, 4);
      var index, script, sequence := LittleEndianBytes(x.n, 4), Sized(x.scriptSig), LittleEndianBytes(x.sequence, 4);
      RecoversBoth(script, sequence, input, c2, c3, r.end, short, true);
      RecoversBoth(index, script + sequence, input, c1, c2, r.end, true, short);
      RecoversBoth(x.hash, index + (script + sequence), input, cursor, c1, r.end, true, short);
    }
  }

  lemma TxOutRecovers(input: ByteString, cursor: nat)
    ensures WritesBackHere(TxOutAt, PutOut, ShortOut, input, cursor)
  {
    var r := TxOutAt(input, cursor);
    if r.Reads? {
      PowersOf256();
      SignedRecovers(input, cursor, 8, 0x1_0000_0000_0000_0000);
      SizedRecovers(input, cursor + 8);
      var value := LittleEndianBytes(r.value.value % 0x1_0000_0000_0000_0000, 8);
      RecoversBoth(value, Sized(r.value.script), input, cursor, cursor + 8, r.end, true, ShortOut(input, cursor));
    }
  }

  lemma StackWritesBack()
    ensures WritesBack(StackAt, PutStack, ShortStack)
  {
    assert WritesBack(SizedAt, Sized, ShortLength) by {
      forall input: ByteString, cursor: nat ensures WritesBackHere(SizedAt, Sized, ShortLength, input, cursor) {
        SizedRecovers(input, cursor);
      }
    }
    forall input: ByteString, cursor: nat ensures WritesBackHere(StackAt, PutStack, ShortStack, input, cursor) {
      if StackAt(input, cursor).Reads? { CountedRecovers(SizedAt, Sized, ShortLength, input, cursor); }
    }
  }

  lemma VinWritesBack()
    ensures WritesBack(VinAt, PutVin, ShortVin)
  {
    assert WritesBack(TxInAt, PutIn, ShortIn) by {
      forall input: ByteString, cursor: nat ensures WritesBackHere(TxInAt, PutIn, ShortIn, input, cursor) {
        TxInRecovers(input, cursor);
      }
    }
    forall input: ByteString, cursor: nat ensures WritesBackHere(VinAt, PutVin, ShortVin, input, cursor) {
      if VinAt(input, cursor).Reads? { CountedRecovers(TxInAt, PutIn, ShortIn, input, cursor); }
    }
  }

  lemma VoutWritesBack()
    ensures WritesBack(VoutAt, PutVout, ShortVout)
  {
    assert WritesBack(TxOutAt, PutOut, ShortOut) by {
      forall input: ByteString, cursor: nat ensures WritesBackHere(TxOutAt, PutOut, ShortOut, input, cursor) {
        TxOutRecovers(input, cursor);
      }
    }
    forall input: ByteString, cursor: nat ensures WritesBackHere(VoutAt, PutVout, ShortVout, input, cursor) {
      if VoutAt(input, cursor).Reads? { CountedRecovers(TxOutAt, PutOut, ShortOut, input, cursor); }
    }
  }

  lemma CoreRecovers(vinAt: Reader<seq<TxIn>>, putVin: seq<TxIn> -> ByteString, voutAt: Reader<seq<TxOut>>,
                     putVout: seq<TxOut> -> ByteString, shortVin: LengthCheck, shortVout: LengthCheck,
                     input: ByteString, cursor: nat)
    requires WritesBack(vinAt, putVin, shortVin) && WritesBack(voutAt, putVout, shortVout)
    requires CoreWith(vinAt, voutAt, input, cursor).Reads?
    ensures var r := CoreWith(vinAt, voutAt, input, cursor);
            Recovers(putVin(r.value.vin) + putVout(r.value.vout), input, cursor, r.end,
                     ShortBoth(vinAt, shortVin, shortVout, input, cursor))
  {
    var c := vinAt(input, cursor).end;
    assert WritesBackHere(vinAt, putVin, shortVin, input, cursor);
    assert WritesBackHere(voutAt, putVout, shortVout, input, c);
    var r := CoreWith(vinAt, voutAt, input, cursor);
    RecoversBoth(putVin(r.value.vin), putVout(r.value.vout), input, cursor, c, r.end, shortVin(input, cursor),
                 shortVout(input, c));
  }

  lemma CoreWritesBack()
    ensures WritesBack(CoreAt, PutCore, ShortCore)
  {
    VinWritesBack();
    VoutWritesBack();
    forall input: ByteString, cursor: nat ensures WritesBackHere(CoreAt, PutCore, ShortCore, input, cursor) {
      if CoreAt(input, cursor).Reads? {
        CoreRecovers(VinAt, PutVin, VoutAt, PutVout, ShortVin, ShortVout, input, cursor);
      }
    }
  }

  lemma NumbersWriteBack()
    ensures WritesBack(Int32At, PutInt32, NoLength) && WritesBack(Uint32At, PutUint32, NoLength)
  {
    PowersOf256();
    forall input: ByteString, cursor: nat
      ensures WritesBackHere(Int32At, PutInt32, NoLength, input, cursor)
      ensures WritesBackHere(Uint32At, PutUint32, NoLength, input, cursor)
    {
      if Int32At(input, cursor).Reads? { SignedRecovers(input, cursor, 4, 0x1_0000_0000); }
      if Uint32At(input, cursor).Reads? { UnsignedRecovers(input, cursor, 4); }
    }
  }

  // ---------------------------------------------------------------- whole transactions

  /** Every part writes back, the flag is its two bytes, and what ends the transaction is in the input. */
  ghost predicate PartsWriteBack(p: Parts, w: Writers, l: LengthChecks) {
    && WritesBack(p.versionAt, w.version, NoLength) && WritesBack(p.coreAt, w.core, l.core)
    && WritesBack(p.stackAt, w.stack, l.stack) && WritesBack(p.lockTimeAt, w.lockTime, NoLength)
    && (forall input: ByteString, cursor: nat :: p.segwitAt(input, cursor) ==> Holds(input, cursor, [0, 1]))
    && (forall input: ByteString, cursor: nat ::
          p.lockTimeAt(input, cursor).Reads? ==> p.lockTimeAt(input, cursor).end <= |input|)
  }

  lemma BitcoinPartsWriteBack()
    ensures PartsWriteBack(BitcoinParts(), BitcoinWriters(), LengthChecks(ShortCore, ShortStack))
  {
    NumbersWriteBack();
    CoreWritesBack();
    StackWritesBack();
    forall input: ByteString, cursor: nat | SegwitFlag(input, cursor) ensures Holds(input, cursor, [0, 1]) {
      assert input[cursor..cursor + 2] == [0, 1];
    }
  }

  /** What was read, to be written. */
  function WireOf(f: Fields): Wire {
    Wire(f.version, f.core, if f.segwit then Some(f.stacks) else None, f.lockTime)
  }

  lemma BodyRecovers(p: Parts, w: Writers, l: LengthChecks, input: ByteString, version: int, segwit: bool, cursor: nat)
    requires PartsWriteBack(p, w, l) && FieldsAfter(p, input, version, segwit, cursor).Reads?
    ensures var r := FieldsAfter(p, input, version, segwit, cursor); var f := r.value;
            && r.end <= |input| && f.version == version && f.segwit == segwit
            && Recovers(if segwit then w.core(f.core) + (PutMany(w.stack, f.stacks) + w.lockTime(f.lockTime))
                        else w.core(f.core) + w.lockTime(f.lockTime), input, cursor, r.end,
                        ShortAfter(p, l, input, segwit, cursor))
  {
    var r := FieldsAfter(p, input, version, segwit, cursor);
    var f, c2, short := r.value, p.coreAt(input, cursor).end, l.core(input, cursor);
    var core, lockTime := w.core(f.core), w.lockTime(f.lockTime);
    assert WritesBackHere(p.coreAt, w.core, l.core, input, cursor);
    if segwit {
      ManyRecovers(p.stackAt, w.stack, l.stack, input, c2, |f.core.vin|);
      var c3, shortStacks := ManyAt(p.stackAt, input, c2, |f.core.vin|).end,
                             ShortMany(p.stackAt, l.stack, input, c2, |f.core.vin|);
      assert WritesBackHere(p.lockTimeAt, w.lockTime, NoLength, input, c3);
      RecoversBoth(PutMany(w.stack, f.stacks), lockTime, input, c2, c3, r.end, shortStacks, true);
      RecoversBoth(core, PutMany(w.stack, f.stacks) + lockTime, input, cursor, c2, r.end, short, shortStacks);
    } else {
      assert WritesBackHere(p.lockTimeAt, w.lockTime, NoLength, input, c2);
      RecoversBoth(core, lockTime, input, cursor, c2, r.end, short, true);
    }
  }

  lemma FieldsRecover(p: Parts, w: Writers, l: LengthChecks, input: ByteString, start: nat)
    requires PartsWriteBack(p, w, l) && FieldsWith(p, input, start).Reads?
    ensures var r := FieldsWith(p, input, start);
            && r.end <= |input|
            && Recovers(Put(w, WireOf(r.value)), input, start, r.end, ShortWith(p, l, input, start))
  {
    var r, c1 := FieldsWith(p, input, start), p.versionAt(input, start).end;
    var f, short := r.value, ShortWith(p, l, input, start);
    assert WritesBackHere(p.versionAt, w.version, NoLength, input, start);
    if p.segwitAt(input, c1) {
      BodyRecovers(p, w, l, input, f.version, true, c1 + 2);
      var body := w.core(f.core) + (PutMany(w.stack, f.stacks) + w.lockTime(f.lockTime));
      RecoversBoth([0, 1], body, input, c1, c1 + 2, r.end, true, short);
      RecoversBoth(w.version(f.version), [0, 1] + body, input, start, c1, r.end, true, short);
    } else {
      BodyRecovers(p, w, l, input, f.version, false, c1);
      RecoversBoth(w.version(f.version), w.core(f.core) + w.lockTime(f.lockTime), input, start, c1, r.end, true, short);
    }
  }

  lemma RecoversMeans(bytes: ByteString, input: ByteString, start: nat, end: nat, short: bool)
    requires end <= |input| && Recovers(bytes, input, start, end, short)
    ensures start <= end && (bytes == input[start..end] <==> short) && (!short ==> |bytes| < end - start)
  {
  }

  /**
   * Whatever bytes a transaction was read from: written again it is those bytes exactly when each length among them
   * has its shortest form, and otherwise it takes fewer.
   */
  lemma WritingBackIff(input: ByteString, start: nat)
    requires FieldsWith(BitcoinParts(), input, start).Reads?
    ensures var Reads(f, end) := FieldsWith(BitcoinParts(), input, start);
            && start <= end <= |input|
            && (Written(WireOf(f)) == input[start..end] <==> AllLengthsShort(input, start))
            && (!AllLengthsShort(input, start) ==> |Written(WireOf(f))| < end - start)
  {
    BitcoinPartsWriteBack();
    FieldsRecover(BitcoinParts(), BitcoinWriters(), LengthChecks(ShortCore, ShortStack), input, start);
    var Reads(f, end) := FieldsWith(BitcoinParts(), input, start);
    RecoversMeans(Written(WireOf(f)), input, start, end, AllLengthsShort(input, start));
  }

  // ---------------------------------------------------------------- a transaction with a padded length

  /** The number of inputs in three bytes. */
  function PadVin(vin: seq<TxIn>): ByteString {
    ([253] + LittleEndianBytes(|vin|, 2)) + PutMany(PutIn, vin)
  }

  function PadCore(core: Core): ByteString { PadVin(core.vin) + PutVout(core.vout) }

  predicate FewInputs(vin: seq<TxIn>) { |vin| < 253 && AllGood(GoodIn, vin) }

  predicate FewIn(core: Core) { FewInputs(core.vin) && GoodVout(core.vout) }

  function PaddedWriters(): Writers { BitcoinWriters().(core := PadCore) }

  function FewInputLimits(): Limits { BitcoinLimits().(core := FewIn) }

  lemma ReadsPaddedCount(input: ByteString, cursor: nat, n: nat)
    requires n < 253 && Holds(input, cursor, [253] + LittleEndianBytes(n, 2))
    ensures CompactSizeAt(input, cursor) == Reads(n, cursor + 3) && !ShortLength(input, cursor)
  {
    PowersOf256();
    HoldsFirst(input, cursor, [253] + LittleEndianBytes(n, 2));
    HoldsBoth(input, cursor, [253], LittleEndianBytes(n, 2));
    ReadsUnsigned(input, cursor + 1, n, 2);
  }

  lemma ReadsPaddedVin(input: ByteString, cursor: nat, vin: seq<TxIn>)
    requires FewInputs(vin) && Holds(input, cursor, PadVin(vin))
    ensures VinAt(input, cursor) == Reads(vin, cursor + |PadVin(vin)|) && !ShortVin(input, cursor)
  {
    var count: ByteString := [253] + LittleEndianBytes(|vin|, 2);
    HoldsBoth(input, cursor, count, PutMany(PutIn, vin));
    ReadsPaddedCount(input, cursor, |vin|);
    TxInInverts();
    ReadsMany(TxInAt, PutIn, GoodIn, input, cursor + 3, vin);
  }

  lemma PaddedPartsInvert()
    ensures PartsInvert(BitcoinParts(), PaddedWriters(), FewInputLimits())
  {
    BitcoinPartsInvert();
    VoutInverts();
    assert Inverts(VinAt, PadVin, FewInputs) by {
      forall input: ByteString, cursor: nat, vin ensures InvertsHere(VinAt, PadVin, FewInputs, input, cursor, vin) {
        if FewInputs(vin) && Holds(input, cursor, PadVin(vin)) { ReadsPaddedVin(input, cursor, vin); }
      }
    }
    forall input: ByteString, cursor: nat, core ensures InvertsHere(CoreAt, PadCore, FewIn, input, cursor, core) {
      if FewIn(core) && Holds(input, cursor, PadCore(core)) {
        ReadsCore(VinAt, PadVin, FewInputs, VoutAt, PutVout, GoodVout, input, cursor, core);
      }
    }
  }

  /** Behind a version come the three bytes of the padded count: no flag, and a length that is not short. */
  lemma PaddedCountIsSeen(input: ByteString, start: nat, v: ByteString, core: Core, l: ByteString)
    requires |v| == 4 && FewIn(core) && Holds(input, start, v + (PadCore(core) + l))
    ensures !SegwitFlag(input, start + 4) && !ShortCore(input, start + 4)
  {
    HoldsBoth(input, start, v, PadCore(core) + l);
    HoldsBoth(input, start + 4, PadCore(core), l);
    HoldsBoth(input, start + 4, PadVin(core.vin), PutVout(core.vout));
    HoldsFirst(input, start + 4, PadVin(core.vin));
    ReadsPaddedVin(input, start + 4, core.vin);
  }

  lemma PaddedIsLonger(t: Wire)
    requires t.stacks.None? && FewIn(t.core)
    ensures |Put(PaddedWriters(), t)| == |Written(t)| + 2
  {
  }

  /**
   * A transaction without witnesses, its number of inputs written in three bytes instead of one: it is read as the
   * same transaction and comes back two bytes shorter.
   */
  lemma PaddedTransactionShrinks(input: ByteString, start: nat, t: Wire)
    requires Good(FewInputLimits(), t) && t.stacks.None? && Holds(input, start, Put(PaddedWriters(), t))
    ensures !AllLengthsShort(input, start)
    ensures var r := FieldsWith(BitcoinParts(), input, start);
            r.Reads? && WireOf(r.value) == t && r.end - start == |Written(t)| + 2
  {
    PaddedPartsInvert();
    PaddedCountIsSeen(input, start, PutInt32(t.version), t.core, PutUint32(t.lockTime));
    ReadsLegacy(BitcoinParts(), PaddedWriters(), FewInputLimits(), input, start, t);
    PaddedIsLonger(t);
  }
}
