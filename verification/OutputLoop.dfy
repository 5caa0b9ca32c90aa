/** Classifying a transaction's outputs: the Python loop, the Rust loop, and the shape both compute. */
module OutputLoop {
  import opened Records

  type Address = s: string | s != "" witness "a"

  type Bytes = seq<int>

  /** What decoding one script gave. */
  datatype Decoded = Undecodable | Destination(address: Address) | Data(chunk: Bytes)

  datatype Kind = OpReturn | CheckSig | CheckMultisig | P2sh | Segwit | Unrecognised

  datatype Output = Output(value: int, kind: Kind, decoded: Decoded)

  /** The protocol changes the loops ask about, and the burn address. */
  datatype Config = Config(
    p2shAddresses: bool, segwitSupport: bool, p2shDispensers: bool, correctSegwitTxids: bool, unspendable: Address)

  datatype Dispenser = Dispenser(destination: Option<Address>, value: Option<int>)

  const NO_DISPENSER := Dispenser(None, None)

  /** OP_RETURN never decodes to a destination, P2SH and segwit never to data. */
  predicate Decodes(o: Output) {
    && (o.kind.OpReturn? ==> !o.decoded.Destination?)
    && (o.kind.P2sh? || o.kind.Segwit? ==> !o.decoded.Data?)
  }

  predicate Recognised(config: Config, o: Output) {
    match o.kind
    case P2sh => config.p2shAddresses
    case Segwit => config.segwitSupport
    case Unrecognised => false
    case _ => true
  }

  predicate Fails(config: Config, o: Output) {
    !Recognised(config, o) || o.decoded.Undecodable?
  }

  function AddressOf(d: Decoded): Option<Address> {
    if d.Destination? then Some(d.address) else None
  }

  // ---------------------------------------------------------------- the Python loop

  /** Python's lists hold None where `new_destination` was None. */
  datatype PyState = PyState(
    destinations: seq<Option<Address>>, btcAmount: int, fee: int, data: Bytes, dispensers: seq<Dispenser>, done: bool)

  /** One turn of the loop; None when it raises. */
  function PyTurn(config: Config, s: PyState, o: Output): Option<PyState> {
    if Fails(config, o) then None
    else
      var dispenser :=
        match o.kind
        case CheckSig => Dispenser(AddressOf(o.decoded), Some(o.value))
        case CheckMultisig => Dispenser(AddressOf(o.decoded), Some(o.value))
        case P2sh => if config.p2shDispensers then Dispenser(AddressOf(o.decoded), Some(o.value)) else NO_DISPENSER
        case Segwit =>
          if config.correctSegwitTxids then Dispenser(AddressOf(o.decoded), Some(o.value)) else NO_DISPENSER
        case _ => NO_DISPENSER;
      var newDestination, newData := AddressOf(o.decoded), if o.decoded.Data? then o.decoded.chunk else [];
      var s' := s.(fee := s.fee - o.value, dispensers := s.dispensers + [dispenser]);
      Some(
        if s.data == [] && newData == [] && s.destinations != [Some(config.unspendable)]
        then s'.(destinations := s.destinations + [newDestination], btcAmount := s.btcAmount + o.value)
        else if newDestination.Some? then s'.(done := true)
        else s'.(data := s.data + newData))
  }

  const PY_START := PyState([], 0, 0, [], [], false)

  /** The state after the first k outputs. */
  function PyLoop(config: Config, outs: seq<Output>, k: nat): Option<PyState>
    requires k <= |outs|
  {
    if k == 0 then Some(PY_START)
    else
      match PyLoop(config, outs, k - 1)
      case None => None
      case Some(s) => if s.done then Some(s) else PyTurn(config, s, outs[k - 1])
  }

  // ---------------------------------------------------------------- the Rust loop

  datatype RsState = RsState(
    destinations: seq<Address>, btcAmount: int, fee: int, data: Bytes, dispensers: seq<Dispenser>, done: bool)

  /** `parse_vout`: the potential dispenser that comes with a decoded output. */
  function RsDispenser(config: Config, o: Output): Dispenser {
    match o.kind
    case OpReturn => NO_DISPENSER
    case P2sh => if config.p2shDispensers then Dispenser(AddressOf(o.decoded), Some(o.value)) else NO_DISPENSER
    case Segwit => if config.correctSegwitTxids then Dispenser(AddressOf(o.decoded), Some(o.value)) else NO_DISPENSER
    case _ => Dispenser(AddressOf(o.decoded), Some(o.value))
  }

  function RsTurn(config: Config, s: RsState, o: Output): Option<RsState> {
    if Fails(config, o) then None
    else
      var s' := s.(fee := s.fee - o.value, dispensers := s.dispensers + [RsDispenser(config, o)]);
      Some(
        match o.decoded
        case Destination(a) =>
          if s.data == [] && s.destinations != [config.unspendable]
          then s'.(destinations := s.destinations + [a], btcAmount := s.btcAmount + o.value)
          else s'.(done := true)
        case Data(chunk) => s'.(data := s.data + chunk)
        case Undecodable => s')
  }

  const RS_START := RsState([], 0, 0, [], [], false)

  function RsLoop(config: Config, outs: seq<Output>, k: nat): Option<RsState>
    requires k <= |outs|
  {
    if k == 0 then Some(RS_START)
    else
      match RsLoop(config, outs, k - 1)
      case None => None
      case Some(s) => if s.done then Some(s) else RsTurn(config, s, outs[k - 1])
  }

  // ---------------------------------------------------------------- the shape, without a loop's state

  datatype Parsed = Parsed(
    destinations: seq<Address>, btcAmount: int, fee: int, data: Bytes, dispensers: seq<Dispenser>)

  predicate IsDestination(config: Config, o: Output) { !Fails(config, o) && o.decoded.Destination? }

  predicate IsData(config: Config, o: Output) { !Fails(config, o) && o.decoded.Data? }

  /** Where the destinations that start at i end. */
  function DestinationsFrom(config: Config, outs: seq<Output>, i: nat): (d: nat)
    requires i <= |outs|
    ensures i <= d <= |outs| && forall j :: i <= j < d ==> IsDestination(config, outs[j])
    ensures d < |outs| ==> !IsDestination(config, outs[d])
    decreases |outs| - i
  {
    if i < |outs| && IsDestination(config, outs[i]) then DestinationsFrom(config, outs, i + 1) else i
  }

  /** Where the data outputs that start at i end. */
  function DataFrom(config: Config, outs: seq<Output>, i: nat): (e: nat)
    requires i <= |outs|
    ensures i <= e <= |outs| && forall j :: i <= j < e ==> IsData(config, outs[j])
    ensures e < |outs| ==> !IsData(config, outs[e])
    decreases |outs| - i
  {
    if i < |outs| && IsData(config, outs[i]) then DataFrom(config, outs, i + 1) else i
  }

  predicate BurnFirst(config: Config, outs: seq<Output>) {
    outs != [] && IsDestination(config, outs[0]) && outs[0].decoded.address == config.unspendable
  }

  /** The destinations are the leading ones, or the burn address alone when it comes first. */
  function DestinationEnd(config: Config, outs: seq<Output>): (d: nat)
    ensures d <= |outs| && forall j :: 0 <= j < d ==> IsDestination(config, outs[j])
    ensures d < |outs| && !BurnFirst(config, outs) ==> !IsDestination(config, outs[d])
  {
    if BurnFirst(config, outs) then 1 else DestinationsFrom(config, outs, 0)
  }

  function Addresses(config: Config, outs: seq<Output>, k: nat): (found: seq<Address>)
    requires k <= |outs| && forall j :: 0 <= j < k ==> IsDestination(config, outs[j])
    ensures |found| == k
    ensures forall j :: 0 <= j < k ==> IsDestination(config, outs[j]) && found[j] == outs[j].decoded.address
  {
    if k == 0 then []
    else
      assert IsDestination(config, outs[k - 1]);
      Addresses(config, outs, k - 1) + [outs[k - 1].decoded.address]
  }

  function TotalValue(outs: seq<Output>, k: nat): int
    requires k <= |outs|
  {
    if k == 0 then 0 else TotalValue(outs, k - 1) + outs[k - 1].value
  }

  function Chunks(config: Config, outs: seq<Output>, d: nat, k: nat): Bytes
    requires d <= k <= |outs| && forall j :: d <= j < k ==> IsData(config, outs[j])
  {
    if k == d then []
    else
      assert IsData(config, outs[k - 1]);
      Chunks(config, outs, d, k - 1) + outs[k - 1].decoded.chunk
  }

  function Dispensers(config: Config, outs: seq<Output>, k: nat): seq<Dispenser>
    requires k <= |outs|
  {
    if k == 0 then [] else Dispensers(config, outs, k - 1) + [RsDispenser(config, outs[k - 1])]
  }

  /** Destinations, then data, stopping at change: None when the output after the data cannot be decoded. */
  function Shape(config: Config, outs: seq<Output>): Option<Parsed> {
    var d := DestinationEnd(config, outs);
    var e := DataFrom(config, outs, d);
    if e < |outs| && Fails(config, outs[e]) then None
    else
      var read := if e < |outs| then e + 1 else e;
      Some(Parsed(Addresses(config, outs, d), TotalValue(outs, d), -TotalValue(outs, read),
                  Chunks(config, outs, d, e), Dispensers(config, outs, read)))
  }

  /** The first output after the destinations is an empty data chunk, and the burn address does not stand alone. */
  predicate EmptyChunkFirst(config: Config, outs: seq<Output>) {
    var d := DestinationEnd(config, outs);
    !BurnFirst(config, outs) && d < |outs| && IsData(config, outs[d]) && outs[d].decoded.chunk == []
  }

  // ---------------------------------------------------------------- the Rust loop has the shape

  lemma {:induction false} RsDestinations(config: Config, outs: seq<Output>, k: nat)
    requires k <= DestinationEnd(config, outs)
    ensures RsLoop(config, outs, k) ==
            Some(RsState(Addresses(config, outs, k), TotalValue(outs, k), -TotalValue(outs, k), [],
                         Dispensers(config, outs, k), false))
  {
    if k > 0 {
      RsDestinations(config, outs, k - 1);
      if k == 2 { assert outs[0].decoded.address != config.unspendable; }
    }
  }

  /** The state while data is being read: destinations up to d, data from there up to k. */
  function DataState(config: Config, outs: seq<Output>, d: nat, k: nat): RsState
    requires d <= k <= |outs| && (forall j :: 0 <= j < d ==> IsDestination(config, outs[j]))
    requires forall j :: d <= j < k ==> IsData(config, outs[j])
  {
    RsState(Addresses(config, outs, d), TotalValue(outs, d), -TotalValue(outs, k), Chunks(config, outs, d, k),
            Dispensers(config, outs, k), false)
  }

  lemma {:induction false} RsData(config: Config, outs: seq<Output>, k: nat)
    requires DestinationEnd(config, outs) <= k <= DataFrom(config, outs, DestinationEnd(config, outs))
    ensures RsLoop(config, outs, k) == Some(DataState(config, outs, DestinationEnd(config, outs), k))
  {
    var d := DestinationEnd(config, outs);
    if k == d {
      RsDestinations(config, outs, d);
    } else {
      RsData(config, outs, k - 1);
      assert IsData(config, outs[k - 1]);
    }
  }

  /** Without an empty first chunk, a destination after the data or after the burn address is change. */
  lemma {:induction false} DataCloses(config: Config, outs: seq<Output>, k: nat)
    requires !EmptyChunkFirst(config, outs)
    requires DestinationEnd(config, outs) <= k <= DataFrom(config, outs, DestinationEnd(config, outs))
    ensures var d := DestinationEnd(config, outs);
            && (BurnFirst(config, outs) ==> Addresses(config, outs, d) == [config.unspendable])
            && (!BurnFirst(config, outs) && k > d ==> Chunks(config, outs, d, k) != [])
  {
    var d := DestinationEnd(config, outs);
    if k > d {
      assert IsData(config, outs[k - 1]);
      DataCloses(config, outs, k - 1);
    }
  }

  lemma {:induction false} RsStays(config: Config, outs: seq<Output>, from: nat, k: nat)
    requires from <= k <= |outs|
    requires RsLoop(config, outs, from).Some? ==> RsLoop(config, outs, from).value.done
    ensures RsLoop(config, outs, k) == RsLoop(config, outs, from)
  {
    if k > from { RsStays(config, outs, from, k - 1); }
  }

  function RsParsed(s: Option<RsState>): Option<Parsed> {
    match s
    case None => None
    case Some(r) => Some(Parsed(r.destinations, r.btcAmount, r.fee, r.data, r.dispensers))
  }

  lemma RsOneMore(config: Config, outs: seq<Output>, k: nat)
    requires k < |outs| && RsLoop(config, outs, k).Some? && !RsLoop(config, outs, k).value.done
    ensures RsLoop(config, outs, k + 1) == RsTurn(config, RsLoop(config, outs, k).value, outs[k])
  {
  }

  /** A destination met when the data is closed stops the loop. */
  lemma RsChange(config: Config, s: RsState, o: Output)
    requires IsDestination(config, o) && (s.data != [] || s.destinations == [config.unspendable])
    ensures RsTurn(config, s, o) ==
            Some(s.(fee := s.fee - o.value, dispensers := s.dispensers + [RsDispenser(config, o)], done := true))
  {
  }

  /** The state when the output after the data is change. */
  function StoppedState(config: Config, outs: seq<Output>, d: nat, e: nat): RsState
    requires d <= e < |outs| && (forall j :: 0 <= j < d ==> IsDestination(config, outs[j]))
    requires forall j :: d <= j < e ==> IsData(config, outs[j])
  {
    RsState(Addresses(config, outs, d), TotalValue(outs, d), -TotalValue(outs, e + 1), Chunks(config, outs, d, e),
            Dispensers(config, outs, e + 1), true)
  }

  lemma ClosedAtStop(config: Config, outs: seq<Output>, e: nat)
    requires !EmptyChunkFirst(config, outs) && e == DataFrom(config, outs, DestinationEnd(config, outs))
    requires e < |outs| && IsDestination(config, outs[e])
    ensures var s := DataState(config, outs, DestinationEnd(config, outs), e);
            s.data != [] || s.destinations == [config.unspendable]
  {
    DataCloses(config, outs, e);
  }

  /** The output after the data either fails or stops the loop. */
  lemma RsStop(config: Config, outs: seq<Output>, e: nat)
    requires !EmptyChunkFirst(config, outs) && e == DataFrom(config, outs, DestinationEnd(config, outs)) && e < |outs|
    ensures RsLoop(config, outs, e + 1) ==
            if Fails(config, outs[e]) then None else Some(StoppedState(config, outs, DestinationEnd(config, outs), e))
  {
    RsData(config, outs, e);
    RsOneMore(config, outs, e);
    if !Fails(config, outs[e]) {
      assert !IsData(config, outs[e]);
      ClosedAtStop(config, outs, e);
      RsChange(config, DataState(config, outs, DestinationEnd(config, outs), e), outs[e]);
    }
  }

  lemma StoppedLoopHasShape(config: Config, outs: seq<Output>, e: nat)
    requires !EmptyChunkFirst(config, outs) && e == DataFrom(config, outs, DestinationEnd(config, outs)) && e < |outs|
    ensures RsParsed(RsLoop(config, outs, |outs|)) == Shape(config, outs)
  {
    RsStop(config, outs, e);
    RsStays(config, outs, e + 1, |outs|);
  }

  /** The Rust loop computes the shape. */
  lemma RustLoopHasShape(config: Config, outs: seq<Output>)
    requires !EmptyChunkFirst(config, outs)
    ensures RsParsed(RsLoop(config, outs, |outs|)) == Shape(config, outs)
  {
    var e := DataFrom(config, outs, DestinationEnd(config, outs));
    if e < |outs| {
      StoppedLoopHasShape(config, outs, e);
    } else {
      RsData(config, outs, e);
    }
  }

  // ---------------------------------------------------------------- the outputs the Rust loop keeps

  /** How many of the first k outputs the loop looks at: those up to the one it stops at. */
  function Looked(config: Config, outs: seq<Output>, k: nat): (n: nat)
    requires k <= |outs|
    ensures n <= k
  {
    if k == 0 then 0
    else
      match RsLoop(config, outs, k - 1)
      case None => Looked(config, outs, k - 1)
      case Some(s) => if s.done then Looked(config, outs, k - 1) else k
  }

  lemma {:induction false} LookedStays(config: Config, outs: seq<Output>, from: nat, k: nat)
    requires from <= k <= |outs|
    requires RsLoop(config, outs, from).Some? ==> RsLoop(config, outs, from).value.done
    ensures Looked(config, outs, k) == Looked(config, outs, from)
  {
    if k > from {
      LookedStays(config, outs, from, k - 1);
      RsStays(config, outs, from, k - 1);
    }
  }

  lemma RsBefore(config: Config, outs: seq<Output>, k: nat)
    requires 0 < k <= |outs| && RsLoop(config, outs, k).Some? && !RsLoop(config, outs, k).value.done
    ensures Looked(config, outs, k) == k
  {
  }

  /**
   * The loop also fills the transaction's list of outputs: it is complete exactly when nothing stands behind the first
   * output that is neither a leading destination nor data.
   */
  lemma OutputsAreCutOff(config: Config, outs: seq<Output>)
    requires !EmptyChunkFirst(config, outs)
    ensures var e := DataFrom(config, outs, DestinationEnd(config, outs));
            Looked(config, outs, |outs|) == Least(e + 1, |outs|)
  {
    var e := DataFrom(config, outs, DestinationEnd(config, outs));
    RsData(config, outs, e);
    if e < |outs| {
      RsStop(config, outs, e);
      LookedStays(config, outs, e + 1, |outs|);
    } else if e > 0 {
      RsBefore(config, outs, e);
    }
  }

  // ---------------------------------------------------------------- the Python loop against the Rust loop

  function Somes(addresses: seq<Address>): (wrapped: seq<Option<Address>>)
    ensures |wrapped| == |addresses| && forall i :: 0 <= i < |addresses| ==> wrapped[i] == Some(addresses[i])
  {
    seq(|addresses|, i requires 0 <= i < |addresses| => Some(addresses[i]))
  }

  /** The Rust state as Python would hold it. */
  function AsPy(s: Option<RsState>): Option<PyState> {
    match s
    case None => None
    case Some(r) => Some(PyState(Somes(r.destinations), r.btcAmount, r.fee, r.data, r.dispensers, r.done))
  }

  lemma WrappedBurn(config: Config, addresses: seq<Address>)
    ensures Somes(addresses) == [Some(config.unspendable)] <==> addresses == [config.unspendable]
  {
    if Somes(addresses) == [Some(config.unspendable)] {
      assert Somes(addresses)[0] == Some(config.unspendable);
    }
  }

  lemma SameTurn(config: Config, s: RsState, o: Output)
    requires Decodes(o)
    requires IsData(config, o) && o.decoded.chunk == [] ==> s.data != [] || s.destinations == [config.unspendable]
    ensures PyTurn(config, AsPy(Some(s)).value, o) == AsPy(RsTurn(config, s, o))
  {
    WrappedBurn(config, s.destinations);
    if o.decoded.Destination? {
      assert Somes(s.destinations + [o.decoded.address]) == Somes(s.destinations) + [Some(o.decoded.address)];
    }
  }

  predicate AllDecode(outs: seq<Output>) {
    forall i :: 0 <= i < |outs| ==> Decodes(outs[i])
  }

  lemma {:induction false} SameDestinations(config: Config, outs: seq<Output>, k: nat)
    requires AllDecode(outs) && k <= DestinationEnd(config, outs)
    ensures PyLoop(config, outs, k) == AsPy(RsLoop(config, outs, k))
  {
    if k > 0 {
      SameDestinations(config, outs, k - 1);
      RsDestinations(config, outs, k - 1);
      SameTurn(config, RsLoop(config, outs, k - 1).value, outs[k - 1]);
    }
  }

  lemma FirstChunkIsNotEmpty(config: Config, outs: seq<Output>, k: nat)
    requires !EmptyChunkFirst(config, outs) && k < |outs|
    requires DestinationEnd(config, outs) <= k <= DataFrom(config, outs, DestinationEnd(config, outs))
    requires IsData(config, outs[k]) && outs[k].decoded.chunk == []
    ensures var s := DataState(config, outs, DestinationEnd(config, outs), k);
            s.data != [] || s.destinations == [config.unspendable]
  {
    DataCloses(config, outs, k);
  }

  lemma SameOneMore(config: Config, outs: seq<Output>, k: nat)
    requires k < |outs| && RsLoop(config, outs, k).Some? && !RsLoop(config, outs, k).value.done
    requires PyLoop(config, outs, k) == AsPy(RsLoop(config, outs, k))
    requires Decodes(outs[k])
    requires var s := RsLoop(config, outs, k).value;
             IsData(config, outs[k]) && outs[k].decoded.chunk == [] ==>
                 s.data != [] || s.destinations == [config.unspendable]
    ensures PyLoop(config, outs, k + 1) == AsPy(RsLoop(config, outs, k + 1))
  {
    SameTurn(config, RsLoop(config, outs, k).value, outs[k]);
  }

  lemma SameAfterData(config: Config, outs: seq<Output>, k: nat)
    requires AllDecode(outs) && !EmptyChunkFirst(config, outs)
    requires DestinationEnd(config, outs) <= k <= DataFrom(config, outs, DestinationEnd(config, outs)) && k < |outs|
    requires PyLoop(config, outs, k) == AsPy(RsLoop(config, outs, k))
    ensures PyLoop(config, outs, k + 1) == AsPy(RsLoop(config, outs, k + 1))
  {
    RsData(config, outs, k);
    if IsData(config, outs[k]) && outs[k].decoded.chunk == [] {
      FirstChunkIsNotEmpty(config, outs, k);
    }
    SameOneMore(config, outs, k);
  }

  lemma SameAfterStop(config: Config, outs: seq<Output>, k: nat)
    requires AllDecode(outs) && !EmptyChunkFirst(config, outs)
             && DataFrom(config, outs, DestinationEnd(config, outs)) < k < |outs|
    requires PyLoop(config, outs, k) == AsPy(RsLoop(config, outs, k))
    ensures PyLoop(config, outs, k + 1) == AsPy(RsLoop(config, outs, k + 1))
  {
    var e := DataFrom(config, outs, DestinationEnd(config, outs));
    RsStop(config, outs, e);
    RsStays(config, outs, e + 1, k);
  }

  ghost predicate SameSoFar(config: Config, outs: seq<Output>, k: nat)
    requires k <= |outs|
  {
    PyLoop(config, outs, k) == AsPy(RsLoop(config, outs, k))
  }

  lemma SameNext(config: Config, outs: seq<Output>, k: nat)
    requires AllDecode(outs) && !EmptyChunkFirst(config, outs) && DestinationEnd(config, outs) <= k < |outs|
    requires SameSoFar(config, outs, k)
    ensures SameSoFar(config, outs, k + 1)
  {
    if k <= DataFrom(config, outs, DestinationEnd(config, outs)) {
      SameAfterData(config, outs, k);
    } else {
      SameAfterStop(config, outs, k);
    }
  }

  lemma {:induction false} SameLoop(config: Config, outs: seq<Output>, k: nat)
    requires AllDecode(outs) && !EmptyChunkFirst(config, outs) && DestinationEnd(config, outs) <= k <= |outs|
    ensures SameSoFar(config, outs, k)
  {
    if k == DestinationEnd(config, outs) {
      SameDestinations(config, outs, k);
    } else {
      SameLoop(config, outs, k - 1);
      SameNext(config, outs, k - 1);
    }
  }

  lemma {:induction false} NoneStays(config: Config, outs: seq<Output>, from: nat, k: nat)
    requires from <= k <= |outs|
    requires PyLoop(config, outs, from).Some? ==> None in PyLoop(config, outs, from).value.destinations
    ensures PyLoop(config, outs, k).Some? ==> None in PyLoop(config, outs, k).value.destinations
  {
    if k > from { NoneStays(config, outs, from, k - 1); }
  }

  /** An empty first chunk makes Python take it for a destination that is None. */
  lemma EmptyChunkBecomesNone(config: Config, outs: seq<Output>)
    requires AllDecode(outs) && EmptyChunkFirst(config, outs)
    ensures PyLoop(config, outs, |outs|).Some? ==> None in PyLoop(config, outs, |outs|).value.destinations
  {
    var d := DestinationEnd(config, outs);
    SameDestinations(config, outs, d);
    RsDestinations(config, outs, d);
    WrappedBurn(config, Addresses(config, outs, d));
    if d > 0 { assert Addresses(config, outs, d)[0] != config.unspendable; }
    var s := PyLoop(config, outs, d).value;
    var s' := PyLoop(config, outs, d + 1).value;
    assert s'.destinations == s.destinations + [None];
    assert s'.destinations[|s.destinations|] == None;
    NoneStays(config, outs, d + 1, |outs|);
  }

  /**
   * For every sequence of outputs on which at least one loop returns, the two loops give the same destinations,
   * amount, fee, data and dispensers exactly when no empty data chunk comes first after the destinations;
   * and without such a chunk they also fail together.
   */
  lemma LoopsAgreeIff(config: Config, outs: seq<Output>)
    requires AllDecode(outs)
    ensures var py, rs := PyLoop(config, outs, |outs|), RsLoop(config, outs, |outs|);
            && (!EmptyChunkFirst(config, outs) ==> py == AsPy(rs) && RsParsed(rs) == Shape(config, outs))
            && (py.Some? || rs.Some? ==> (py == AsPy(rs) <==> !EmptyChunkFirst(config, outs)))
  {
    var py, rs := PyLoop(config, outs, |outs|), RsLoop(config, outs, |outs|);
    if EmptyChunkFirst(config, outs) {
      EmptyChunkBecomesNone(config, outs);
      if rs.Some? { assert None !in Somes(rs.value.destinations); }
    } else {
      SameLoop(config, outs, |outs|);
      RustLoopHasShape(config, outs);
    }
  }

  /** A lone OP_RETURN that holds the prefix and nothing behind it: None for Python, no destination for Rust. */
  lemma BarePrefixIsMisread(config: Config)
    ensures var outs := [Output(0, OpReturn, Data([]))];
            && AllDecode(outs) && PyLoop(config, outs, 1).Some? && RsLoop(config, outs, 1).Some?
            && PyLoop(config, outs, 1).value.destinations == [None] && RsLoop(config, outs, 1).value.destinations == []
  {
    var outs := [Output(0, OpReturn, Data([]))];
    assert PyLoop(config, outs, 0) == Some(PY_START) && RsLoop(config, outs, 0) == Some(RS_START);
  }

  /** What `parse_transaction_vouts` returns. */
  datatype PyParsedVouts = PyParsedVouts(
    destinations: seq<Option<Address>>, btcAmount: int, fee: int, data: Bytes, dispensers: seq<Dispenser>)

  function PyParsed(s: Option<PyState>): Option<PyParsedVouts> {
    match s
    case None => None
    case Some(r) => Some(PyParsedVouts(r.destinations, r.btcAmount, r.fee, r.data, r.dispensers))
  }

  function Wrapped(p: Option<Parsed>): Option<PyParsedVouts> {
    match p
    case None => None
    case Some(r) => Some(PyParsedVouts(Somes(r.destinations), r.btcAmount, r.fee, r.data, r.dispensers))
  }

  // ---------------------------------------------------------------- one output alone

  /** A script that decodes, of a kind that is known by then. */
  predicate Acceptable(config: Config, o: Output) {
    && !o.decoded.Undecodable? && !o.kind.Unrecognised?
    && (o.kind.P2sh? ==> config.p2shAddresses) && (o.kind.Segwit? ==> config.segwitSupport)
  }

  /** Key, multisig and, once enabled, script hash and segwit outputs may pay a dispenser. */
  predicate MayPayDispenser(config: Config, kind: Kind) {
    || kind.CheckSig? || kind.CheckMultisig? || (kind.P2sh? && config.p2shDispensers)
    || (kind.Segwit? && config.correctSegwitTxids)
  }

  /** What there is to know about one output. */
  ghost predicate TellsOutput(config: Config, o: Output, p: Parsed) {
    && p.fee == -o.value
    && p.destinations == (if o.decoded.Destination? then [o.decoded.address] else [])
    && p.btcAmount == (if o.decoded.Destination? then o.value else 0)
    && p.data == (if o.decoded.Data? then o.decoded.chunk else [])
    && |p.dispensers| == 1
    && p.dispensers[0].value == (if MayPayDispenser(config, o.kind) then Some(o.value) else None)
    && p.dispensers[0].destination ==
       (if MayPayDispenser(config, o.kind) && o.decoded.Destination? then Some(o.decoded.address) else None)
  }

  /** Both loops accept one output alone in the same cases, and tell the same about it unless its chunk is empty. */
  lemma OneOutput(config: Config, o: Output)
    requires Decodes(o)
    ensures RsLoop(config, [o], 1).Some? <==> Acceptable(config, o)
    ensures PyLoop(config, [o], 1).Some? <==> Acceptable(config, o)
    ensures Acceptable(config, o) ==> TellsOutput(config, o, RsParsed(RsLoop(config, [o], 1)).value)
    ensures Acceptable(config, o) && o.decoded != Data([]) ==>
              exists p :: TellsOutput(config, o, p) && PyParsed(PyLoop(config, [o], 1)) == Wrapped(Some(p))
  {
    assert RsLoop(config, [o], 0) == Some(RS_START) && PyLoop(config, [o], 0) == Some(PY_START);
    if Acceptable(config, o) && o.decoded != Data([]) {
      var p := RsParsed(RsLoop(config, [o], 1)).value;
      assert PyParsed(PyLoop(config, [o], 1)).value.destinations == Somes(p.destinations);
      assert PyParsed(PyLoop(config, [o], 1)) == Wrapped(Some(p));
    }
  }

  /** Once the burn address is the first destination it stays the only one, for both loops. */
  lemma {:induction false} BurnStandsAlone(config: Config, outs: seq<Output>, k: nat)
    requires 0 < k <= |outs| && AllDecode(outs) && outs[0].decoded == Destination(config.unspendable)
    ensures var rs := RsLoop(config, outs, k);
            rs.Some? ==> rs.value.destinations == [config.unspendable] && rs.value.btcAmount == outs[0].value
    ensures var py := PyLoop(config, outs, k);
            py.Some? ==> py.value.destinations == [Some(config.unspendable)] && py.value.btcAmount == outs[0].value
  {
    if k == 1 {
      assert RsLoop(config, outs, 0) == Some(RS_START) && PyLoop(config, outs, 0) == Some(PY_START);
    } else {
      BurnStandsAlone(config, outs, k - 1);
    }
  }

  // ---------------------------------------------------------------- the loops themselves

  lemma {:induction false} PyStays(config: Config, outs: seq<Output>, from: nat, k: nat)
    requires from <= k <= |outs|
    requires PyLoop(config, outs, from).Some? ==> PyLoop(config, outs, from).value.done
    ensures PyLoop(config, outs, k) == PyLoop(config, outs, from)
  {
    if k > from { PyStays(config, outs, from, k - 1); }
  }

  /** The turn of the Python loop for one output: None stands for DecodeError. */
  method PyBody(config: Config, s: PyState, o: Output) returns (next: Option<PyState>)
    requires !s.done
    ensures next == PyTurn(config, s, o)
  {
    var destinations, btcAmount, fee, data, dispensers := s.destinations, s.btcAmount, s.fee, s.data, s.dispensers;
    dispensers := dispensers + [NO_DISPENSER];
    fee := fee - o.value;
    if Fails(config, o) { return None; }
    var newDestination := AddressOf(o.decoded);
    var newData: Bytes := if o.decoded.Data? then o.decoded.chunk else [];
    if o.kind.CheckSig? || o.kind.CheckMultisig? || (o.kind.P2sh? && config.p2shDispensers)
       || (o.kind.Segwit? && config.correctSegwitTxids) {
      dispensers := dispensers[|dispensers| - 1 := Dispenser(newDestination, Some(o.value))];
      assert dispensers == s.dispensers + [Dispenser(newDestination, Some(o.value))];
    }
    if data == [] && newData == [] && destinations != [Some(config.unspendable)] {
      return Some(PyState(destinations + [newDestination], btcAmount + o.value, fee, data, dispensers, false));
    }
    if newDestination.Some? {
      return Some(PyState(destinations, btcAmount, fee, data, dispensers, true));
    }
    next := Some(PyState(destinations, btcAmount, fee, data + newData, dispensers, false));
  }

  /** `parse_transaction_vouts`: loops until an output raises or is change. */
  method ParseTransactionVouts(config: Config, outs: seq<Output>) returns (result: Option<PyState>)
    requires AllDecode(outs)
    ensures result == PyLoop(config, outs, |outs|)
    ensures !EmptyChunkFirst(config, outs) ==> PyParsed(result) == Wrapped(Shape(config, outs))
  {
    LoopsAgreeIff(config, outs);
    var s := PY_START;
    for i := 0 to |outs|
      invariant PyLoop(config, outs, i) == Some(s) && !s.done
    {
      var next := PyBody(config, s, outs[i]);
      assert next == PyLoop(config, outs, i + 1);
      if next.None? || next.value.done {
        PyStays(config, outs, i + 1, |outs|);
        return next;
      }
      s := next.value;
    }
    result := Some(s);
  }

  /** The turn of the Rust loop for one output. */
  method RsBody(config: Config, s: RsState, o: Output) returns (next: Option<RsState>)
    requires !s.done
    ensures next == RsTurn(config, s, o)
  {
    var fee := s.fee - o.value;
    if Fails(config, o) { return None; }
    var dispensers := s.dispensers + [RsDispenser(config, o)];
    match o.decoded {
      case Destination(a) =>
        if s.data == [] && s.destinations != [config.unspendable] {
          next := Some(RsState(s.destinations + [a], s.btcAmount + o.value, fee, s.data, dispensers, false));
        } else {
          next := Some(RsState(s.destinations, s.btcAmount, fee, s.data, dispensers, true));
        }
      case Data(chunk) =>
        next := Some(RsState(s.destinations, s.btcAmount, fee, s.data + chunk, dispensers, false));
    }
  }

  /**
   * The output loop of `to_block`; with multisig addresses not yet enabled every transaction is an error with all its
   * outputs listed, and otherwise those the loop has looked at are.
   */
  method ToBlockOutputs(config: Config, multisigAddresses: bool, outs: seq<Output>)
    returns (result: Option<RsState>, vouts: seq<Output>)
    ensures result == if multisigAddresses then RsLoop(config, outs, |outs|) else None
    ensures vouts == outs[..if multisigAddresses then Looked(config, outs, |outs|) else |outs|]
    ensures multisigAddresses && !EmptyChunkFirst(config, outs) ==> RsParsed(result) == Shape(config, outs)
  {
    if !EmptyChunkFirst(config, outs) { RustLoopHasShape(config, outs); }
    vouts := [];
    var s := RS_START;
    for i := 0 to |outs|
      invariant vouts == outs[..i]
      invariant multisigAddresses ==> RsLoop(config, outs, i) == Some(s) && !s.done && Looked(config, outs, i) == i
    {
      vouts := vouts + [outs[i]];
      if !multisigAddresses { continue; }
      var next := RsBody(config, s, outs[i]);
      assert next == RsLoop(config, outs, i + 1);
      if next.None? || next.value.done {
        RsStays(config, outs, i + 1, |outs|);
        LookedStays(config, outs, i + 1, |outs|);
        return next, vouts;
      }
      s := next.value;
    }
    result := if multisigAddresses then Some(s) else None;
  }
}
