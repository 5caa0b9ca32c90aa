/** The readers of deserialize.py over the byte stream, each doing what its specification in Deserialize says. */
module TransactionReader {
  import opened Records
  import opened Bytes
  import opened DataStream
  import opened TransactionFrame
  import opened Deserialize

  method ReadTxIn(vds: BCDataStream) returns (r: Option<TxIn>)
    modifies vds`readCursor
    ensures Follows(TxInAt(vds.input, old(vds.readCursor)), r, vds.readCursor)
  {
    var hash := vds.ReadBytes(32);
    var n := vds.ReadUnsigned(4);
    if n.None? { return None; }
    var scriptSigSize := vds.ReadCompactSize();
    if scriptSigSize.None? { return None; }
    var scriptSig := vds.ReadBytes(scriptSigSize.value);
    var sequence := vds.ReadUnsigned(4);
    if sequence.None? { return None; }
    var coinbase := false;
    if IsNullHash(hash) {
      coinbase := true;
    }
    return Some(TxIn(hash, n.value, scriptSig, sequence.value, coinbase));
  }

  method ReadTxOut(vds: BCDataStream) returns (r: Option<TxOut>)
    modifies vds`readCursor
    ensures Follows(TxOutAt(vds.input, old(vds.readCursor)), r, vds.readCursor)
  {
    var value := vds.ReadSigned(8);
    if value.None? { return None; }
    var size := vds.ReadCompactSize();
    if size.None? { return None; }
    var script := vds.ReadBytes(size.value);
    return Some(TxOut(value.value, script));
  }

  /** A loop that has read part of a list: what it has and what is to come make up the whole. */
  ghost predicate HalfRead<T>(whole: Read<seq<T>>, done: seq<T>, rest: Read<seq<T>>) {
    whole == Prepend(done, rest)
  }

  lemma OneMore<T>(reader: Reader<T>, input: ByteString, cursor: nat, left: nat, whole: Read<seq<T>>, done: seq<T>)
    requires left > 0 && HalfRead(whole, done, ManyAt(reader, input, cursor, left))
    ensures match reader(input, cursor)
            case Raises => whole == Raises
            case Reads(x, c) => HalfRead(whole, done + [x], ManyAt(reader, input, c, left - 1))
  {
    if reader(input, cursor).Reads? {
      var Reads(x, c) := reader(input, cursor);
      var rest := ManyAt(reader, input, c, left - 1);
      if rest.Reads? { assert done + ([x] + rest.value) == done + [x] + rest.value; }
    }
  }

  lemma NothingRead<T>(whole: Read<seq<T>>)
    ensures HalfRead(whole, [], whole)
  {
    if whole.Reads? { assert [] + whole.value == whole.value; }
  }

  lemma AllRead<T>(reader: Reader<T>, input: ByteString, cursor: nat, whole: Read<seq<T>>, done: seq<T>)
    requires HalfRead(whole, done, ManyAt(reader, input, cursor, 0))
    ensures whole == Reads(done, cursor)
  {
    assert done + [] == done;
  }

  lemma CoinbaseSoFar(vin: seq<TxIn>, x: TxIn)
    ensures AnyCoinbase(vin + [x]) == (AnyCoinbase(vin) || x.coinbase)
  {
    assert (vin + [x])[..|vin|] == vin;
  }

  lemma FlattenOneMore(stacks: seq<seq<ByteString>>, stack: seq<ByteString>)
    ensures Flatten(stacks + [stack]) == Flatten(stacks) + stack
  {
    assert (stacks + [stack])[..|stacks|] == stacks;
  }

  /** Inputs, and whether any of them makes this a coinbase transaction. */
  method ReadTxIns(vds: BCDataStream, count: nat) returns (r: Option<seq<TxIn>>, coinbase: bool)
    modifies vds`readCursor
    ensures Follows(ManyAt(TxInAt, vds.input, old(vds.readCursor), count), r, vds.readCursor)
    ensures r.Some? ==> coinbase == AnyCoinbase(r.value)
  {
    coinbase := false;
    ghost var whole := ManyAt(TxInAt, vds.input, vds.readCursor, count);
    NothingRead(whole);
    var vin := [];
    for i := 0 to count
      invariant HalfRead(whole, vin, ManyAt(TxInAt, vds.input, vds.readCursor, count - i))
      invariant coinbase == AnyCoinbase(vin)
    {
      OneMore(TxInAt, vds.input, vds.readCursor, count - i, whole, vin);
      var x := ReadTxIn(vds);
      if x.None? { return None, coinbase; }
      CoinbaseSoFar(vin, x.value);
      vin := vin + [x.value];
      coinbase := coinbase || x.value.coinbase;
    }
    AllRead(TxInAt, vds.input, vds.readCursor, whole, vin);
    return Some(vin), coinbase;
  }

  method ReadTxOuts(vds: BCDataStream, count: nat) returns (r: Option<seq<TxOut>>)
    modifies vds`readCursor
    ensures Follows(ManyAt(TxOutAt, vds.input, old(vds.readCursor), count), r, vds.readCursor)
  {
    ghost var whole := ManyAt(TxOutAt, vds.input, vds.readCursor, count);
    NothingRead(whole);
    var vout := [];
    for i := 0 to count
      invariant HalfRead(whole, vout, ManyAt(TxOutAt, vds.input, vds.readCursor, count - i))
    {
      OneMore(TxOutAt, vds.input, vds.readCursor, count - i, whole, vout);
      var x := ReadTxOut(vds);
      if x.None? { return None; }
      vout := vout + [x.value];
    }
    AllRead(TxOutAt, vds.input, vds.readCursor, whole, vout);
    return Some(vout);
  }

  /** Appends one input's witnesses to the list of all. */
  method ReadStack(vds: BCDataStream, vtxinwit: seq<ByteString>)
    returns (r: Option<seq<ByteString>>, ghost stack: seq<ByteString>)
    modifies vds`readCursor
    ensures match StackAt(vds.input, old(vds.readCursor))
            case Raises => r.None?
            case Reads(s, c) => s == stack && c == vds.readCursor && r == Some(vtxinwit + stack)
  {
    stack := [];
    var witnessesCount := vds.ReadCompactSize();
    if witnessesCount.None? { return None, stack; }
    ghost var whole := ManyAt(SizedAt, vds.input, vds.readCursor, witnessesCount.value);
    NothingRead(whole);
    var witnesses := vtxinwit;
    for i := 0 to witnessesCount.value
      invariant HalfRead(whole, stack, ManyAt(SizedAt, vds.input, vds.readCursor, witnessesCount.value - i))
      invariant witnesses == vtxinwit + stack
    {
      OneMore(SizedAt, vds.input, vds.readCursor, witnessesCount.value - i, whole, stack);
      var witnessLength := vds.ReadCompactSize();
      if witnessLength.None? { return None, stack; }
      var bytes := vds.ReadBytes(witnessLength.value);
      stack := stack + [bytes];
      witnesses := witnesses + [bytes];
    }
    AllRead(SizedAt, vds.input, vds.readCursor, whole, stack);
    return Some(witnesses), stack;
  }

  method ReadStacks(vds: BCDataStream, inputs: nat)
    returns (r: Option<seq<ByteString>>, ghost stacks: seq<seq<ByteString>>)
    modifies vds`readCursor
    ensures match ManyAt(StackAt, vds.input, old(vds.readCursor), inputs)
            case Raises => r.None?
            case Reads(s, c) => s == stacks && c == vds.readCursor && r == Some(Flatten(stacks))
  {
    stacks := [];
    ghost var whole := ManyAt(StackAt, vds.input, vds.readCursor, inputs);
    NothingRead(whole);
    var vtxinwit := [];
    for i := 0 to inputs
      invariant HalfRead(whole, stacks, ManyAt(StackAt, vds.input, vds.readCursor, inputs - i))
      invariant vtxinwit == Flatten(stacks)
    {
      OneMore(StackAt, vds.input, vds.readCursor, inputs - i, whole, stacks);
      ghost var stack: seq<ByteString>;
      var more: Option<seq<ByteString>>;
      more, stack := ReadStack(vds, vtxinwit);
      if more.None? { return None, stacks; }
      FlattenOneMore(stacks, stack);
      stacks := stacks + [stack];
      vtxinwit := more.value;
    }
    AllRead(StackAt, vds.input, vds.readCursor, whole, stacks);
    return Some(vtxinwit), stacks;
  }

  lemma FlagRead(input: ByteString, cursor: nat, flag: ByteString)
    requires flag == Slice(input, cursor, cursor + 2)
    ensures flag == [0, 1] <==> SegwitFlag(input, cursor)
  {
    if cursor + 2 <= |input| { assert flag == [input[cursor], input[cursor + 1]]; }
  }

  /** Version and flag; the cursor goes back over two bytes that are no marker and flag. */
  method ReadHead(vds: BCDataStream) returns (version: Option<int>, segwit: bool)
    modifies vds`readCursor
    ensures match Int32At(vds.input, old(vds.readCursor))
            case Raises => version.None?
            case Reads(v, c) => && version == Some(v) && segwit == SegwitFlag(vds.input, c)
                                && vds.readCursor == if segwit then c + 2 else c
  {
    version := vds.ReadSigned(4);
    if version.None? { return None, false; }
    var flag := vds.ReadBytes(2);
    FlagRead(vds.input, vds.readCursor - 2, flag);
    if flag == [0, 1] {
      segwit := true;
    } else {
      segwit := false;
      vds.readCursor := vds.readCursor - 2;
    }
  }

  method ReadVin(vds: BCDataStream) returns (r: Option<seq<TxIn>>, coinbase: bool)
    modifies vds`readCursor
    ensures Follows(VinAt(vds.input, old(vds.readCursor)), r, vds.readCursor)
    ensures r.Some? ==> coinbase == AnyCoinbase(r.value)
  {
    var count := vds.ReadCompactSize();
    if count.None? { return None, false; }
    r, coinbase := ReadTxIns(vds, count.value);
  }

  method ReadVout(vds: BCDataStream) returns (r: Option<seq<TxOut>>)
    modifies vds`readCursor
    ensures Follows(VoutAt(vds.input, old(vds.readCursor)), r, vds.readCursor)
  {
    var count := vds.ReadCompactSize();
    if count.None? { return None; }
    r := ReadTxOuts(vds, count.value);
  }

  method ReadCore(vds: BCDataStream) returns (r: Option<Core>, coinbase: bool)
    modifies vds`readCursor
    ensures Follows(CoreAt(vds.input, old(vds.readCursor)), r, vds.readCursor)
    ensures r.Some? ==> coinbase == AnyCoinbase(r.value.vin)
  {
    var vin;
    vin, coinbase := ReadVin(vds);
    if vin.None? { return None, coinbase; }
    var vout := ReadVout(vds);
    if vout.None? { return None, coinbase; }
    return Some(Core(vin.value, vout.value)), coinbase;
  }

  /** Witnesses, when there are any, and lock time. */
  method ReadTail(vds: BCDataStream, segwit: bool, inputs: nat)
    returns (r: Option<(seq<ByteString>, nat)>, ghost stacks: seq<seq<ByteString>>)
    modifies vds`readCursor
    ensures match if segwit then ManyAt(StackAt, vds.input, old(vds.readCursor), inputs)
                  else Reads([], old(vds.readCursor))
            case Raises => r.None?
            case Reads(s, c) =>
              match Uint32At(vds.input, c)
              case Raises => r.None?
              case Reads(lockTime, end) =>
                s == stacks && r == Some((Flatten(stacks), lockTime)) && vds.readCursor == end
  {
    var vtxinwit := [];
    stacks := [];
    if segwit {
      var witnesses: Option<seq<ByteString>>;
      witnesses, stacks := ReadStacks(vds, inputs);
      if witnesses.None? { return None, stacks; }
      vtxinwit := witnesses.value;
    }
    var lockTime := vds.ReadUnsigned(4);
    if lockTime.None? { return None, stacks; }
    return Some((vtxinwit, lockTime.value)), stacks;
  }

  ghost predicate Unhashed(t: Transaction, f: Fields) {
    t == Transaction(f.version, f.segwit, AnyCoinbase(f.core.vin), f.core.vin, f.core.vout, Flatten(f.stacks),
                     f.lockTime, [], None)
  }

  /** A transaction before it is hashed, and the cursor at its witnesses. */
  method ReadAfterHead(vds: BCDataStream, version: int, segwit: bool)
    returns (r: Option<Transaction>, witnessAt: nat, ghost f: Fields)
    modifies vds`readCursor
    ensures Follows(FieldsAfter(BitcoinParts(), vds.input, version, segwit, old(vds.readCursor)),
                    if r.Some? then Some(f) else None, vds.readCursor)
    ensures r.Some? ==> witnessAt == f.witnessAt && Unhashed(r.value, f)
  {
    f, witnessAt := Fields(version, segwit, Core([], []), 0, [], 0), 0;
    var core, coinbase := ReadCore(vds);
    if core.None? { return None, witnessAt, f; }
    witnessAt := vds.readCursor;
    ghost var stacks: seq<seq<ByteString>>;
    var tail: Option<(seq<ByteString>, nat)>;
    tail, stacks := ReadTail(vds, segwit, |core.value.vin|);
    if tail.None? { return None, witnessAt, f; }
    var (vtxinwit, lockTime) := tail.value;
    f := Fields(version, segwit, core.value, witnessAt, stacks, lockTime);
    r := Some(Transaction(version, segwit, coinbase, core.value.vin, core.value.vout, vtxinwit, lockTime, [], None));
  }

  method ReadFields(vds: BCDataStream) returns (r: Option<Transaction>, witnessAt: nat, ghost f: Fields)
    modifies vds`readCursor
    ensures Follows(FieldsWith(BitcoinParts(), vds.input, old(vds.readCursor)), if r.Some? then Some(f) else None,
                    vds.readCursor)
    ensures r.Some? ==> witnessAt == f.witnessAt && Unhashed(r.value, f)
  {
    var version, segwit := ReadHead(vds);
    if version.None? { return None, 0, Fields(0, false, Core([], []), 0, [], 0); }
    r, witnessAt, f := ReadAfterHead(vds, version.value, segwit);
  }

  /** Hashing finishes the transaction. */
  lemma HashesAssemble(t: Transaction, f: Fields, data: ByteString, offset: int, useTxid: bool)
    requires Unhashed(t, f)
    ensures var id := WithoutWitness(data, offset);
            t.(hashed := if t.segwit && useTxid then id else data, idHashed := if t.segwit then Some(id) else None)
            == Assemble(f, data, offset, useTxid)
  {
  }

  method ReadTransaction(vds: BCDataStream, useTxid: bool) returns (r: Option<Transaction>)
    modifies vds`readCursor
    ensures Follows(TransactionAt(vds.input, old(vds.readCursor), useTxid), r, vds.readCursor)
  {
    var startPos := vds.readCursor;
    var transaction, witnessAt, f := ReadFields(vds);
    if transaction.None? { return None; }
    var offsetBeforeTxWitnesses: int := witnessAt as int - startPos;
    var data := Slice(vds.input, startPos, vds.readCursor);
    var hashed, idHashed := data, None;
    if transaction.value.segwit {
      var hashData := WithoutWitness(data, offsetBeforeTxWitnesses);
      idHashed := Some(hashData);
      if useTxid {
        hashed := hashData;
      }
    }
    HashesAssemble(transaction.value, f, data, offsetBeforeTxWitnesses, useTxid);
    return Some(transaction.value.(hashed := hashed, idHashed := idHashed));
  }
}
