/**
 * The frame of a serialised transaction: version, marker and flag, inputs and outputs, witnesses, lock time.
 * How each part is read and written is left open; what has to hold of the parts is PartsInvert.
 */
module TransactionFrame {
  import opened Records
  import opened Bytes
  import opened DataStream

  datatype TxIn = TxIn(hash: ByteString, n: nat, scriptSig: ByteString, sequence: nat, coinbase: bool)

  datatype TxOut = TxOut(value: int, script: ByteString)

  /** The part a transaction has with or without witnesses. */
  datatype Core = Core(vin: seq<TxIn>, vout: seq<TxOut>)

  /** The fields in the stream, and where the witnesses begin. */
  datatype Fields = Fields(version: int, segwit: bool, core: Core, witnessAt: nat, stacks: seq<seq<ByteString>>,
                           lockTime: nat)

  /** What the reader makes of them. A hash is kept as the bytes it is taken of. */
  datatype Transaction = Transaction(
    version: int, segwit: bool, coinbase: bool, vin: seq<TxIn>, vout: seq<TxOut>, vtxinwit: seq<ByteString>,
    lockTime: nat, hashed: ByteString, idHashed: Option<ByteString>)

  function AnyCoinbase(vin: seq<TxIn>): bool {
    if vin == [] then false else AnyCoinbase(vin[..|vin| - 1]) || vin[|vin| - 1].coinbase
  }

  /** The witnesses of all inputs in one list. */
  function Flatten(stacks: seq<seq<ByteString>>): seq<ByteString> {
    if stacks == [] then [] else Flatten(stacks[..|stacks| - 1]) + stacks[|stacks| - 1]
  }

  /** How the parts of a transaction are read. */
  datatype Parts = Parts(
    versionAt: Reader<int>, segwitAt: (ByteString, nat) -> bool, coreAt: Reader<Core>, stackAt: Reader<seq<ByteString>>,
    lockTimeAt: Reader<nat>)

  /** Everything behind version and flag. */
  function FieldsAfter(p: Parts, input: ByteString, version: int, segwit: bool, cursor: nat): Read<Fields> {
    match p.coreAt(input, cursor)
    case Raises => Raises
    case Reads(core, c2) =>
      match if segwit then ManyAt(p.stackAt, input, c2, |core.vin|) else Reads([], c2)
      case Raises => Raises
      case Reads(stacks, c3) =>
        match p.lockTimeAt(input, c3)
        case Raises => Raises
        case Reads(lockTime, end) => Reads(Fields(version, segwit, core, c2, stacks, lockTime), end)
  }

  function FieldsWith(p: Parts, input: ByteString, start: nat): Read<Fields> {
    match p.versionAt(input, start)
    case Raises => Raises
    case Reads(version, c1) =>
      var segwit := p.segwitAt(input, c1);
      FieldsAfter(p, input, version, segwit, if segwit then c1 + 2 else c1)
  }

  /** Version, inputs and outputs, lock time: the data without marker, flag and witnesses. */
  function WithoutWitness(data: ByteString, witnessOffset: int): ByteString {
    Slice(data, 0, 4) + Slice(data, 6, witnessOffset) + Slice(data, if |data| >= 4 then |data| - 4 else 0, |data|)
  }

  function Assemble(f: Fields, data: ByteString, witnessOffset: int, useTxid: bool): Transaction {
    var id := WithoutWitness(data, witnessOffset);
    Transaction(f.version, f.segwit, AnyCoinbase(f.core.vin), f.core.vin, f.core.vout, Flatten(f.stacks), f.lockTime,
                if f.segwit && useTxid then id else data, if f.segwit then Some(id) else None)
  }

  function TransactionWith(p: Parts, input: ByteString, start: nat, useTxid: bool): Read<Transaction> {
    match FieldsWith(p, input, start)
    case Raises => Raises
    case Reads(f, end) => Reads(Assemble(f, Slice(input, start, end), f.witnessAt - start, useTxid), end)
  }

  // ---------------------------------------------------------------- serialisation

  /** A transaction to be written: with a witness stack for every input, or without any. */
  datatype Wire = Wire(version: int, core: Core, stacks: Option<seq<seq<ByteString>>>, lockTime: nat)

  /** How the parts of a transaction are written, and which of them can be. */
  datatype Writers = Writers(
    version: int -> ByteString, core: Core -> ByteString, stack: seq<ByteString> -> ByteString,
    lockTime: nat -> ByteString)

  datatype Limits = Limits(
    version: int -> bool, core: Core -> bool, stack: seq<ByteString> -> bool, lockTime: nat -> bool)

  predicate Good(l: Limits, t: Wire) {
    && l.version(t.version) && l.core(t.core) && l.lockTime(t.lockTime)
    && (t.stacks.Some? ==> |t.stacks.value| == |t.core.vin| && AllGood(l.stack, t.stacks.value))
  }

  /** The witness-free serialisation of section "Transaction ID" of BIP 141. */
  function PutLegacy(w: Writers, t: Wire): ByteString {
    w.version(t.version) + (w.core(t.core) + w.lockTime(t.lockTime))
  }

  /** Section "Serialization" of BIP 144: marker, flag and witnesses are there when the transaction has stacks. */
  function Put(w: Writers, t: Wire): ByteString {
    match t.stacks
    case None => PutLegacy(w, t)
    case Some(stacks) =>
      w.version(t.version) + ([0, 1] + (w.core(t.core) + (PutMany(w.stack, stacks) + w.lockTime(t.lockTime))))
  }

  /** What reading it back should give. */
  function Expected(w: Writers, t: Wire, useTxid: bool): Transaction {
    var stacks := if t.stacks.Some? then t.stacks.value else [];
    Transaction(t.version, t.stacks.Some?, AnyCoinbase(t.core.vin), t.core.vin, t.core.vout, Flatten(stacks),
                t.lockTime,
                if useTxid then PutLegacy(w, t) else Put(w, t), if t.stacks.Some? then Some(PutLegacy(w, t)) else None)
  }

  // ---------------------------------------------------------------- reading what was written

  /** The readers invert the writers, part by part; marker and flag are seen where they are. */
  ghost predicate PartsInvert(p: Parts, w: Writers, l: Limits) {
    && Inverts(p.versionAt, w.version, l.version) && Inverts(p.coreAt, w.core, l.core)
    && Inverts(p.stackAt, w.stack, l.stack) && Inverts(p.lockTimeAt, w.lockTime, l.lockTime)
    && FlagsSegwit(p.segwitAt) && (forall v :: |w.version(v)| == 4) && (forall v :: |w.lockTime(v)| == 4)
  }

  ghost predicate FlagsSegwit(segwitAt: (ByteString, nat) -> bool) {
    forall input: ByteString, cursor: nat :: Holds(input, cursor, [0, 1]) ==> segwitAt(input, cursor)
  }

  lemma ReadsSegwit(p: Parts, w: Writers, l: Limits, input: ByteString, start: nat, t: Wire)
    requires PartsInvert(p, w, l) && Good(l, t) && t.stacks.Some? && Holds(input, start, Put(w, t))
    ensures FieldsWith(p, input, start) ==
            Reads(Fields(t.version, true, t.core, start + 6 + |w.core(t.core)|, t.stacks.value, t.lockTime),
                  start + |Put(w, t)|)
  {
    var stacks := t.stacks.value;
    var v, core, s, end := w.version(t.version), w.core(t.core), PutMany(w.stack, stacks), w.lockTime(t.lockTime);
    HoldsBoth(input, start, v, [0, 1] + (core + (s + end)));
    HoldsBoth(input, start + 4, [0, 1], core + (s + end));
    HoldsBoth(input, start + 6, core, s + end);
    HoldsBoth(input, start + 6 + |core|, s, end);
    assert InvertsHere(p.versionAt, w.version, l.version, input, start, t.version);
    assert InvertsHere(p.coreAt, w.core, l.core, input, start + 6, t.core);
    ReadsMany(p.stackAt, w.stack, l.stack, input, start + 6 + |core|, stacks);
    assert InvertsHere(p.lockTimeAt, w.lockTime, l.lockTime, input, start + 6 + |core| + |s|, t.lockTime);
  }

  lemma CutOut(v: ByteString, core: ByteString, w: ByteString, l: ByteString)
    requires |v| == 4 && |l| == 4
    ensures WithoutWitness(v + ([0, 1] + (core + (w + l))), 6 + |core|) == v + (core + l)
  {
    var data := v + ([0, 1] + (core + (w + l)));
    assert data[..4] == v && data[6..6 + |core|] == core && data[|data| - 4..] == l;
  }

  lemma SliceHeld(input: ByteString, start: nat, data: ByteString)
    requires Holds(input, start, data)
    ensures Slice(input, start, start + |data|) == data
  {
  }

  /** Marker, flag and witnesses are cut out of what the identifier is taken of. */
  lemma AssemblesSegwit(w: Writers, t: Wire, at: nat, useTxid: bool)
    requires t.stacks.Some? && |w.version(t.version)| == 4 && |w.lockTime(t.lockTime)| == 4
    ensures Assemble(Fields(t.version, true, t.core, at, t.stacks.value, t.lockTime), Put(w, t), 6 + |w.core(t.core)|,
                     useTxid)
         == Expected(w, t, useTxid)
  {
    CutOut(w.version(t.version), w.core(t.core), PutMany(w.stack, t.stacks.value), w.lockTime(t.lockTime));
  }

  ghost predicate ReadsBack(p: Parts, w: Writers, input: ByteString, start: nat, t: Wire, useTxid: bool) {
    TransactionWith(p, input, start, useTxid) == Reads(Expected(w, t, useTxid), start + |Put(w, t)|)
  }

  lemma SegwitReadsBack(p: Parts, w: Writers, l: Limits, input: ByteString, start: nat, t: Wire, useTxid: bool)
    requires PartsInvert(p, w, l) && Good(l, t) && t.stacks.Some? && Holds(input, start, Put(w, t))
    ensures ReadsBack(p, w, input, start, t, useTxid)
  {
    ReadsSegwit(p, w, l, input, start, t);
    SliceHeld(input, start, Put(w, t));
    AssemblesSegwit(w, t, start + 6 + |w.core(t.core)|, useTxid);
  }

  lemma ReadsLegacy(p: Parts, w: Writers, l: Limits, input: ByteString, start: nat, t: Wire)
    requires PartsInvert(p, w, l) && Good(l, t) && Holds(input, start, PutLegacy(w, t)) && !p.segwitAt(input, start + 4)
    ensures FieldsWith(p, input, start) ==
            Reads(Fields(t.version, false, t.core, start + 4 + |w.core(t.core)|, [], t.lockTime),
                  start + |PutLegacy(w, t)|)
  {
    var v, core, end := w.version(t.version), w.core(t.core), w.lockTime(t.lockTime);
    HoldsBoth(input, start, v, core + end);
    HoldsBoth(input, start + 4, core, end);
    assert InvertsHere(p.versionAt, w.version, l.version, input, start, t.version);
    assert InvertsHere(p.coreAt, w.core, l.core, input, start + 4, t.core);
    assert InvertsHere(p.lockTimeAt, w.lockTime, l.lockTime, input, start + 4 + |core|, t.lockTime);
  }

  lemma FlagIsKept(p: Parts, w: Writers, l: Limits, input: ByteString, start: nat, t: Wire, useTxid: bool)
    requires PartsInvert(p, w, l) && l.version(t.version) && Holds(input, start, PutLegacy(w, t))
    requires TransactionWith(p, input, start, useTxid).Reads?
    ensures TransactionWith(p, input, start, useTxid).value.segwit == p.segwitAt(input, start + 4)
  {
    HoldsBoth(input, start, w.version(t.version), w.core(t.core) + w.lockTime(t.lockTime));
    assert InvertsHere(p.versionAt, w.version, l.version, input, start, t.version);
  }

  lemma AssemblesLegacy(w: Writers, t: Wire, at: nat, offset: int, useTxid: bool)
    requires t.stacks.None?
    ensures Assemble(Fields(t.version, false, t.core, at, [], t.lockTime), PutLegacy(w, t), offset, useTxid)
         == Expected(w, t, useTxid)
  {
  }

  /** With the flag in, nothing that is read equals a transaction without witnesses. */
  lemma FlaggedIsNotReadBack(p: Parts, w: Writers, l: Limits, input: ByteString, start: nat, t: Wire, useTxid: bool)
    requires PartsInvert(p, w, l) && l.version(t.version) && t.stacks.None? && Holds(input, start, PutLegacy(w, t))
    requires p.segwitAt(input, start + 4)
    ensures !ReadsBack(p, w, input, start, t, useTxid)
  {
    if TransactionWith(p, input, start, useTxid).Reads? { FlagIsKept(p, w, l, input, start, t, useTxid); }
    assert !Expected(w, t, useTxid).segwit;
  }

  lemma UnflaggedIsReadBack(p: Parts, w: Writers, l: Limits, input: ByteString, start: nat, t: Wire, useTxid: bool)
    requires PartsInvert(p, w, l) && Good(l, t) && t.stacks.None? && Holds(input, start, PutLegacy(w, t))
    requires !p.segwitAt(input, start + 4)
    ensures ReadsBack(p, w, input, start, t, useTxid)
  {
    ReadsLegacy(p, w, l, input, start, t);
    SliceHeld(input, start, PutLegacy(w, t));
    AssemblesLegacy(w, t, start + 4 + |w.core(t.core)|, 4 + |w.core(t.core)|, useTxid);
  }

  /** Without witnesses, what was written is read back exactly when no marker and flag are seen behind the version. */
  lemma LegacyReadsBackIff(p: Parts, w: Writers, l: Limits, input: ByteString, start: nat, t: Wire, useTxid: bool)
    requires PartsInvert(p, w, l) && Good(l, t) && t.stacks.None? && Holds(input, start, Put(w, t))
    ensures ReadsBack(p, w, input, start, t, useTxid) <==> !p.segwitAt(input, start + 4)
  {
    if p.segwitAt(input, start + 4) {
      FlaggedIsNotReadBack(p, w, l, input, start, t, useTxid);
    } else {
      UnflaggedIsReadBack(p, w, l, input, start, t, useTxid);
    }
  }

  // ---------------------------------------------------------------- what the gathered fields hold

  /** How many items the first k stacks hold. */
  function ItemsBefore(stacks: seq<seq<ByteString>>, k: nat): nat
    requires k <= |stacks|
  {
    if k == 0 then 0 else ItemsBefore(stacks, k - 1) + |stacks[k - 1]|
  }

  lemma {:induction false} ItemsOfPrefix(stacks: seq<seq<ByteString>>, n: nat, k: nat)
    requires k <= n <= |stacks|
    ensures ItemsBefore(stacks[..n], k) == ItemsBefore(stacks, k)
  {
    if k > 0 { ItemsOfPrefix(stacks, n, k - 1); }
  }

  lemma {:induction false} ItemsGrow(stacks: seq<seq<ByteString>>, k: nat, n: nat)
    requires k < n <= |stacks|
    ensures ItemsBefore(stacks, k) + |stacks[k]| <= ItemsBefore(stacks, n)
  {
    if k < n - 1 { ItemsGrow(stacks, k, n - 1); }
  }

  /** The items of all stacks stand one after the other, input by input and each stack in its order. */
  lemma {:induction false} FlattenKeepsOrder(stacks: seq<seq<ByteString>>, k: nat, i: nat)
    requires k < |stacks| && i < |stacks[k]|
    ensures |Flatten(stacks)| == ItemsBefore(stacks, |stacks|)
    ensures ItemsBefore(stacks, k) + i < |Flatten(stacks)|
    ensures Flatten(stacks)[ItemsBefore(stacks, k) + i] == stacks[k][i]
  {
    var n := |stacks| - 1;
    FlattenCounts(stacks);
    ItemsGrow(stacks, k, |stacks|);
    if k < n {
      FlattenKeepsOrder(stacks[..n], k, i);
      ItemsOfPrefix(stacks, n, k);
    } else {
      FlattenCounts(stacks[..n]);
      ItemsOfPrefix(stacks, n, n);
    }
  }

  lemma {:induction false} FlattenCounts(stacks: seq<seq<ByteString>>)
    ensures |Flatten(stacks)| == ItemsBefore(stacks, |stacks|)
  {
    if stacks != [] {
      var n := |stacks| - 1;
      FlattenCounts(stacks[..n]);
      ItemsOfPrefix(stacks, n, n);
    }
  }

  lemma {:induction false} CoinbaseIsSomeInput(vin: seq<TxIn>)
    ensures AnyCoinbase(vin) <==> exists i :: 0 <= i < |vin| && vin[i].coinbase
  {
    if vin != [] {
      var n := |vin| - 1;
      CoinbaseIsSomeInput(vin[..n]);
      assert forall i :: 0 <= i < n ==> vin[..n][i] == vin[i];
    }
  }
}
