/** The API database: the journal replayed into tables that are changed in place, and undone on divergence. */
module ApiWatcher {
  import opened Records
  import opened Journal
  import opened Ledger
  import opened BalanceJournal

  // ---------------------------------------------------------------- which events touch what

  predicate IsSkipped(event: string) { event == "NEW_TRANSACTION_OUTPUT" }

  /** UPDATE_EVENTS_ID_FIELDS: the columns that identify the row an update event changes. */
  function UpdateIdsFor(event: string): seq<string> {
    match event
    case "BLOCK_PARSED" => ["block_index"]
    case "TRANSACTION_PARSED" => ["tx_hash"]
    case "BET_MATCH_UPDATE" => ["id"]
    case "BET_UPDATE" => ["tx_hash"]
    case "DISPENSER_UPDATE" => ["tx_hash"]
    case "ORDER_FILLED" => ["tx_hash"]
    case "ORDER_MATCH_UPDATE" => ["id"]
    case "ORDER_UPDATE" => ["tx_hash"]
    case "RPS_MATCH_UPDATE" => ["id"]
    case "RPS_UPDATE" => ["tx_hash"]
    case "ADDRESS_OPTIONS_UPDATE" => ["address"]
    case "FAIRMINTER_UPDATE" => ["tx_hash"]
    case _ => []
  }

  datatype ExpirationKind = ExpirationKind(objectField: string, kind: string)

  /** EXPIRATION_EVENTS_OBJECT_ID and the kind of what expires. */
  function ExpirationFor(event: string): Option<ExpirationKind> {
    match event
    case "ORDER_EXPIRATION" => Some(ExpirationKind("order_hash", "order"))
    case "ORDER_MATCH_EXPIRATION" => Some(ExpirationKind("order_match_id", "order_match"))
    case "RPS_EXPIRATION" => Some(ExpirationKind("rps_hash", "rps"))
    case "RPS_MATCH_EXPIRATION" => Some(ExpirationKind("rps_match_id", "rps_match"))
    case "BET_EXPIRATION" => Some(ExpirationKind("bet_hash", "bet"))
    case "BET_MATCH_EXPIRATION" => Some(ExpirationKind("bet_match_id", "bet_match"))
    case _ => None
  }

  /** EVENTS_ADDRESS_FIELDS. */
  function AddressFieldsFor(event: string): Option<seq<string>> {
    match event
    case "NEW_TRANSACTION" => Some(["source", "destination"])
    case "DEBIT" => Some(["address"])
    case "CREDIT" => Some(["address"])
    case "ENHANCED_SEND" => Some(["source", "destination"])
    case "MPMA_SEND" => Some(["source", "destination"])
    case "SEND" => Some(["source", "destination"])
    case "ASSET_TRANSFER" => Some(["source", "issuer"])
    case "SWEEP" => Some(["source", "destination"])
    case "ASSET_DIVIDEND" => Some(["source"])
    case "RESET_ISSUANCE" => Some(["source", "issuer"])
    case "ASSET_ISSUANCE" => Some(["source", "issuer"])
    case "ASSET_DESTRUCTION" => Some(["source"])
    case "OPEN_ORDER" => Some(["source"])
    case "ORDER_MATCH" => Some(["tx0_address", "tx1_address"])
    case "BTC_PAY" => Some(["source", "destination"])
    case "CANCEL_ORDER" => Some(["source"])
    case "ORDER_EXPIRATION" => Some(["source"])
    case "ORDER_MATCH_EXPIRATION" => Some(["tx0_address", "tx1_address"])
    case "OPEN_DISPENSER" => Some(["source", "origin", "oracle_address"])
    case "DISPENSER_UPDATE" => Some(["source"])
    case "REFILL_DISPENSER" => Some(["source", "destination"])
    case "DISPENSE" => Some(["source", "destination"])
    case "BROADCAST" => Some(["source"])
    case "BURN" => Some(["source"])
    case "NEW_FAIRMINT" => Some(["source"])
    case "NEW_FAIRMINTER" => Some(["source"])
    case _ => None
  }

  /** The columns that name a row in each table some update event changes. */
  function TableKeysFor(category: string): seq<string> {
    match category
    case "blocks" => ["block_index"]
    case "transactions" => ["tx_hash"]
    case "bet_matches" => ["id"]
    case "bets" => ["tx_hash"]
    case "dispensers" => ["tx_hash"]
    case "orders" => ["tx_hash"]
    case "order_matches" => ["id"]
    case "rps_matches" => ["id"]
    case "rps" => ["tx_hash"]
    case "addresses" => ["address"]
    case "fairminters" => ["tx_hash"]
    case _ => []
  }

  /** The same as values: most proofs do not depend on what they say. */
  datatype Rules = Rules(
    skips: string -> bool,
    updateIds: string -> seq<string>,
    addressFields: string -> Option<seq<string>>,
    expiration: string -> Option<ExpirationKind>,
    tableKeys: string -> seq<string>)

  const RULES := Rules(IsSkipped, UpdateIdsFor, AddressFieldsFor, ExpirationFor, TableKeysFor)

  predicate Skips(event: string) { RULES.skips(event) }

  function UpdateIds(event: string): seq<string> { RULES.updateIds(event) }

  function TableKeys(category: string): seq<string> { RULES.tableKeys(category) }

  function AddressFields(event: string): seq<string> {
    match RULES.addressFields(event)
    case Some(fields) => fields
    case None => []
  }

  // ---------------------------------------------------------------- state

  datatype ApiMessage = ApiMessage(stamp: Stamp, previousState: Option<Record>, insertRowid: Option<nat>)

  datatype TableRow = TableRow(rowid: nat, columns: Record)

  datatype ApiBalance = ApiBalance(holder: Holder, asset: string, quantity: int, utxoAddress: Value)

  datatype AddressEvent = AddressEvent(address: Value, eventIndex: nat)

  datatype Expiration = Expiration(objectId: Value, blockIndex: Value, kind: string)

  datatype ApiState = ApiState(
    messages: seq<ApiMessage>,
    tables: map<string, seq<TableRow>>,
    balances: seq<ApiBalance>,
    addressEvents: seq<AddressEvent>,
    expirations: seq<Expiration>)

  function ApiStamps(messages: seq<ApiMessage>): (log: seq<Stamp>)
    ensures |log| == |messages|
    ensures forall i :: 0 <= i < |log| ==> log[i] == messages[i].stamp
  {
    seq(|messages|, i requires 0 <= i < |messages| => messages[i].stamp)
  }

  function RowsOf(tables: map<string, seq<TableRow>>, category: string): seq<TableRow> {
    if category in tables then tables[category] else []
  }

  // ---------------------------------------------------------------- executing an event

  /** `get_event_bindings`: `order_match_id` goes when it repeats `id`. */
  function EventBindings(c: Content): Record {
    if "order_match_id" in c.bindings && "id" in c.bindings && c.bindings["order_match_id"] == c.bindings["id"]
    then c.bindings - {"order_match_id"}
    else c.bindings
  }

  function RowColumns(c: Content): Record {
    EventBindings(c)["block_index" := Int(c.blockIndex)]
  }

  function NextRowid(rows: seq<TableRow>): nat {
    if rows == [] then 1 else rows[|rows| - 1].rowid + 1
  }

  predicate Matches(columns: Record, ids: seq<string>, wanted: Record) {
    forall f :: f in ids ==> CellIs(columns, f, Cell(wanted, f))
  }

  function Without(r: Record, ids: seq<string>): Record {
    map k | k in r && k !in ids :: r[k]
  }

  /** `UPDATE table SET sets WHERE ids = wanted`. */
  function UpdateRows(rows: seq<TableRow>, ids: seq<string>, wanted: Record, sets: Record): (changed: seq<TableRow>)
    ensures |changed| == |rows|
    ensures forall i :: 0 <= i < |rows| ==>
              changed[i] == if Matches(rows[i].columns, ids, wanted)
                            then rows[i].(columns := rows[i].columns + sets) else rows[i]
  {
    seq(|rows|, i requires 0 <= i < |rows| =>
      if Matches(rows[i].columns, ids, wanted) then rows[i].(columns := rows[i].columns + sets) else rows[i])
  }

  function ExecuteEvent(tables: map<string, seq<TableRow>>, c: Content): map<string, seq<TableRow>> {
    var rows := RowsOf(tables, c.category);
    if c.command.Insert? then
      tables[c.category := rows + [TableRow(NextRowid(rows), RowColumns(c))]]
    else
      var ids := UpdateIds(c.event);
      tables[c.category := UpdateRows(rows, ids, RowColumns(c), Without(RowColumns(c), ids))]
  }

  function InsertedRowid(tables: map<string, seq<TableRow>>, c: Content): Option<nat> {
    if c.command.Insert? then Some(NextRowid(RowsOf(tables, c.category))) else None
  }

  function FirstMatch(rows: seq<TableRow>, ids: seq<string>, wanted: Record): Option<Record> {
    if rows == [] then None
    else if Matches(rows[0].columns, ids, wanted) then Some(rows[0].columns)
    else FirstMatch(rows[1..], ids, wanted)
  }

  /** Read when the message is stored, after the event has been executed. */
  function PreviousState(tables: map<string, seq<TableRow>>, c: Content): Option<Record> {
    if c.command.Insert? then None
    else FirstMatch(RowsOf(tables, c.category), UpdateIds(c.event), c.bindings)
  }

  // ---------------------------------------------------------------- balances

  predicate HasBalance(balances: seq<ApiBalance>, h: Holder, asset: string) {
    exists i :: 0 <= i < |balances| && balances[i].holder == h && balances[i].asset == asset
  }

  function ChangeBalance(balances: seq<ApiBalance>, h: Holder, asset: string, delta: int,
                         utxoAddress: Value): seq<ApiBalance> {
    if HasBalance(balances, h, asset) then
      seq(|balances|, i requires 0 <= i < |balances| =>
        if balances[i].holder == h && balances[i].asset == asset
        then balances[i].(quantity := balances[i].quantity + delta) else balances[i])
    else balances + [ApiBalance(h, asset, delta, utxoAddress)]
  }

  /** `update_balances`, or with sign -1 the reversed event of `rollback_balances`. */
  function UpdateBalances(balances: seq<ApiBalance>, c: Content, sign: int): seq<ApiBalance> {
    var h, asset, quantity := EventHolder(c.bindings), Cell(c.bindings, "asset"), Cell(c.bindings, "quantity");
    if c.event !in {"DEBIT", "CREDIT"} || h.None? || !asset.Text? || !quantity.Int? || quantity.n == 0 then balances
    else
      var delta := if c.event == "DEBIT" then -quantity.n else quantity.n;
      ChangeBalance(balances, h.value, asset.s, sign * delta, Cell(c.bindings, "utxo_address"))
  }

  // ---------------------------------------------------------------- the other derived tables

  function ExpirationOf(c: Content): Option<Expiration> {
    match RULES.expiration(c.event)
    case Some(e) => Some(Expiration(Cell(c.bindings, e.objectField), Cell(c.bindings, "block_index"), e.kind))
    case None => None
  }

  function UpdateExpiration(expirations: seq<Expiration>, c: Content): seq<Expiration> {
    match ExpirationOf(c)
    case None => expirations
    case Some(e) => expirations + [e]
  }

  /** `DELETE FROM all_expirations WHERE object_id = ... AND block_index = ... AND type = ...`. */
  function DropExpiration(expirations: seq<Expiration>, e: Expiration): seq<Expiration> {
    if expirations == [] then []
    else
      var rest, last := DropExpiration(expirations[..|expirations| - 1], e), expirations[|expirations| - 1];
      if last == e && e.objectId != Null && e.blockIndex != Null then rest else rest + [last]
  }

  function RollbackExpiration(expirations: seq<Expiration>, c: Content): seq<Expiration> {
    match ExpirationOf(c)
    case None => expirations
    case Some(e) => DropExpiration(expirations, e)
  }

  function UpdateAddressEvents(events: seq<AddressEvent>, c: Content): seq<AddressEvent> {
    var fields := AddressFields(c.event);
    events + seq(|fields|, i requires 0 <= i < |fields| => AddressEvent(Cell(c.bindings, fields[i]), c.messageIndex))
  }

  function DropAddressEvents(events: seq<AddressEvent>, index: nat): seq<AddressEvent> {
    if events == [] then []
    else
      var rest, last := DropAddressEvents(events[..|events| - 1], index), events[|events| - 1];
      if last.eventIndex == index then rest else rest + [last]
  }

  function RollbackAddressEvents(events: seq<AddressEvent>, c: Content): seq<AddressEvent> {
    if RULES.addressFields(c.event).Some? then DropAddressEvents(events, c.messageIndex) else events
  }

  // ---------------------------------------------------------------- parsing and undoing one event

  function ParseEvent(s: ApiState, st: Stamp): ApiState {
    var c := st.content;
    if Skips(c.event) then
      s.(messages := s.messages + [ApiMessage(st, PreviousState(s.tables, c), None)])
    else
      var tables := ExecuteEvent(s.tables, c);
      ApiState(
        s.messages + [ApiMessage(st, PreviousState(tables, c), InsertedRowid(s.tables, c))],
        tables,
        UpdateBalances(s.balances, c, 1),
        UpdateAddressEvents(s.addressEvents, c),
        UpdateExpiration(s.expirations, c))
  }

  predicate HasRowid(rows: seq<TableRow>, rowid: nat) {
    exists i :: 0 <= i < |rows| && rows[i].rowid == rowid
  }

  function DropRowid(rows: seq<TableRow>, rowid: nat): seq<TableRow> {
    if rows == [] then []
    else
      var rest, last := DropRowid(rows[..|rows| - 1], rowid), rows[|rows| - 1];
      if last.rowid == rowid then rest else rest + [last]
  }

  function DropMessage(messages: seq<ApiMessage>, index: nat): (kept: seq<ApiMessage>)
    ensures |kept| <= |messages|
  {
    if messages == [] then []
    else
      var rest, last := DropMessage(messages[..|messages| - 1], index), messages[|messages| - 1];
      if last.stamp.content.messageIndex == index then rest else rest + [last]
  }

  /** The category table with the event's own change undone, or None when the row to delete is not there. */
  function RollbackRow(tables: map<string, seq<TableRow>>, m: ApiMessage): Option<map<string, seq<TableRow>>> {
    var c := m.stamp.content;
    var rows := RowsOf(tables, c.category);
    match m.previousState
    case None =>
      if m.insertRowid.None? || !HasRowid(rows, m.insertRowid.value) then None
      else Some(tables[c.category := DropRowid(rows, m.insertRowid.value)])
    case Some(previous) =>
      var ids := UpdateIds(c.event);
      Some(tables[c.category := UpdateRows(rows, ids, previous, Without(previous, ids))])
  }

  /** `rollback_event`; None when it raises, and then the transaction changed nothing. */
  function RollbackEvent(s: ApiState, m: ApiMessage): Option<ApiState> {
    var c := m.stamp.content;
    if Skips(c.event) then
      Some(s.(messages := DropMessage(s.messages, c.messageIndex)))
    else
      match RollbackRow(s.tables, m)
      case None => None
      case Some(tables) =>
        Some(ApiState(
          DropMessage(s.messages, c.messageIndex),
          tables,
          UpdateBalances(s.balances, c, -1),
          RollbackAddressEvents(s.addressEvents, c),
          RollbackExpiration(s.expirations, c)))
  }

  // ---------------------------------------------------------------- following the ledger

  /** `SELECT * FROM messages WHERE message_index = index` in the ledger. */
  function FindStamp(log: seq<Stamp>, index: nat): Option<Stamp> {
    if log == [] then None
    else if log[|log| - 1].content.messageIndex == index then Some(log[|log| - 1])
    else FindStamp(log[..|log| - 1], index)
  }

  /** How a call of the watcher ends; what it had undone before it raised stays undone. */
  datatype Outcome = Returns(api: ApiState) | Raises(api: ApiState)

  /**
   * `check_event_hashes`: undo the last message while the ledger lacks it or disagrees with its hash. An empty API
   * log is left alone; a log that becomes empty makes both loops read the index of a message that is not there.
   */
  function CutBack(s: ApiState, log: seq<Stamp>): Outcome
    decreases |s.messages|
  {
    if s.messages == [] then Returns(s)
    else
      var last := s.messages[|s.messages| - 1];
      var found := FindStamp(log, last.stamp.content.messageIndex);
      if found.Some? && found.value.eventHash == last.stamp.eventHash then Returns(s)
      else
        match RollbackEvent(s, last)
        case None => Raises(s)
        case Some(s') => if s'.messages == [] then Raises(s') else CutBack(s', log)
  }

  /** The lowest index above the last message, or the lowest of all for an empty log. */
  function NextAfter(messages: seq<ApiMessage>, log: seq<Stamp>): Option<Stamp> {
    var index := if messages == [] then 0 else messages[|messages| - 1].stamp.content.messageIndex + 1;
    FindStamp(log, index)
  }

  function ParseNextEvent(s: ApiState, log: seq<Stamp>): ApiState {
    match NextAfter(s.messages, log)
    case None => s
    case Some(st) => ParseEvent(s, st)
  }

  /** `parse_next_event`, atomic against the ledger. */
  function ParseNext(s: ApiState, log: seq<Stamp>): Outcome {
    match CutBack(s, log)
    case Raises(s') => Raises(s')
    case Returns(cut) => Returns(ParseNextEvent(cut, log))
  }
}
