/** The ledger database: append-only tables, balances as latest rows, and the journal. */
module Ledger {
  import opened Records
  import opened Journal

  const MAX_INT: int := 0x7FFF_FFFF_FFFF_FFFF
  const BTC := "BTC"
  const XCP := "XCP"

  /** Who holds a balance: `is_utxo_format` has already sorted the identifier. */
  datatype Holder = Address(address: string) | Utxo(utxo: UtxoId)

  type UtxoId = s: string | s != "" witness "0"

  datatype BalanceRow = BalanceRow(
    holder: Holder, asset: string, quantity: int, blockIndex: int, txIndex: int, utxoAddress: Value)

  /**
   * The tables that `rollback` cleans: `balances` and `messages` typed, the other tables of the
   * source's `TABLES` list, `transaction_outputs`, `transactions` and `blocks` as records.
   */
  datatype State = State(
    balances: seq<BalanceRow>, tables: map<string, seq<Record>>, messages: seq<Message>)

  /** The process-wide settings in force while one operation runs. */
  datatype Env = Env(blockIndex: int, txHash: Option<string>, now: int, contractsOnlyXcp: bool)

  datatype LedgerError =
    | NegativeQuantity | QuantityTooHigh | BitcoinBalance | ContractAsset
    | InsufficientFunds | NoSuchRecord | NoSuchTable

  /** The arguments of `debit` and `credit`. */
  datatype Movement = Movement(
    holder: Holder, asset: string, quantity: int, txIndex: int, action: Value, event: Value, utxoAddress: Value)

  /** The calls a message handler may make. */
  datatype Op =
    | Credit(credit: Movement)
    | Debit(debit: Movement)
    | InsertRecord(table: string, record: Record, event: string, info: Record)
    | InsertUpdate(table: string, idName: string, idValue: Value, data: Record, event: string, info: Record)
    | Seal(table: string, idName: string, idValue: Value, sets: Record, event: string, bindings: Record)

  // ---------------------------------------------------------------- journal

  function AddToJournal(messages: seq<Message>, env: Env, command: Command, category: string,
                        event: string, bindings: Record): seq<Message>
  {
    messages + [Message(NextStamp(Stamps(messages), env.blockIndex, command, category, event, bindings, env.txHash),
                        env.now)]
  }

  // ---------------------------------------------------------------- balances

  /** The quantity of the last row for a holder and an asset, or None without such a row. */
  function FindBalance(rows: seq<BalanceRow>, h: Holder, asset: string): Option<int> {
    if rows == [] then None
    else
      var last := rows[|rows| - 1];
      if last.holder == h && last.asset == asset then Some(last.quantity)
      else FindBalance(rows[..|rows| - 1], h, asset)
  }

  function Balance(rows: seq<BalanceRow>, h: Holder, asset: string): int {
    match FindBalance(rows, h, asset)
    case Some(q) => q
    case None => 0
  }

  function AddressCell(h: Holder): Value { if h.Address? then Text(h.address) else Null }

  function UtxoCell(h: Holder): Value { if h.Utxo? then Text(h.utxo) else Null }

  function MovementRecord(env: Env, m: Movement, actionColumn: string): Record {
    map["block_index" := Int(env.blockIndex), "address" := AddressCell(m.holder), "utxo" := UtxoCell(m.holder),
        "utxo_address" := m.utxoAddress, "asset" := Text(m.asset), "quantity" := Int(m.quantity),
        "event" := m.event, "tx_index" := Int(m.txIndex)][actionColumn := m.action]
  }

  function CheckMovement(env: Env, m: Movement): Option<LedgerError> {
    if m.quantity < 0 then Some(NegativeQuantity)
    else if m.quantity > MAX_INT then Some(QuantityTooHigh)
    else if m.asset == BTC then Some(BitcoinBalance)
    else if env.contractsOnlyXcp && m.holder.Address? && |m.holder.address| == 40 && m.asset != XCP
    then Some(ContractAsset)
    else None
  }

  function BalanceRowFor(env: Env, m: Movement, quantity: int): BalanceRow {
    BalanceRow(m.holder, m.asset, quantity, env.blockIndex, m.txIndex, m.utxoAddress)
  }

  function AddToBalance(rows: seq<BalanceRow>, env: Env, m: Movement): seq<BalanceRow> {
    rows + [BalanceRowFor(env, m, Least(Balance(rows, m.holder, m.asset) + m.quantity, MAX_INT))]
  }

  /** A debit of zero from a holder without a row leaves no row behind. */
  function RemoveFromBalance(rows: seq<BalanceRow>, env: Env, m: Movement): Result<seq<BalanceRow>, LedgerError> {
    if Balance(rows, m.holder, m.asset) < m.quantity then Err(InsufficientFunds)
    else if FindBalance(rows, m.holder, m.asset).None? then Ok(rows)
    else Ok(rows + [BalanceRowFor(env, m, Least(Balance(rows, m.holder, m.asset) - m.quantity, MAX_INT))])
  }

  // ---------------------------------------------------------------- operations

  function DoInsertRecord(s: State, env: Env, table: string, record: Record, event: string, info: Record)
    : Result<State, LedgerError>
  {
    if table !in s.tables then Err(NoSuchTable)
    else Ok(s.(tables := s.tables[table := s.tables[table] + [record]],
               messages := AddToJournal(s.messages, env, Insert, table, event, record + info)))
  }

  /**
   * `WHERE id = value ORDER BY rowid DESC LIMIT 1`; rows are only ever cut off at the end, so rowids count them from 1.
   */
  function FindRow(rows: seq<Record>, idName: string, idValue: Value): Option<Record> {
    if idName != "rowid" then LatestRow(rows, idName, idValue)
    else if idValue.Int? && 1 <= idValue.n <= |rows| then Some(rows[idValue.n - 1])
    else None
  }

  /** The row `insert_update` appends: the row it found with new data and the current block. */
  function UpdatedRow(row: Record, data: Record, blockIndex: int): Record {
    (row + data)["block_index" := Int(blockIndex)]
  }

  /** What `insert_update` journals: a rowid means nothing to another database. */
  function UpdatePayload(idName: string, idValue: Value, data: Record, info: Record): Record {
    data + map[idName := idValue] + info - {"rowid"}
  }

  function DoInsertUpdate(s: State, env: Env, table: string, idName: string, idValue: Value,
                          data: Record, event: string, info: Record): Result<State, LedgerError>
  {
    if table !in s.tables then Err(NoSuchTable)
    else
      match FindRow(s.tables[table], idName, idValue)
      case None => Err(NoSuchRecord)
      case Some(row) =>
        Ok(s.(tables := s.tables[table := s.tables[table] + [UpdatedRow(row, data, env.blockIndex)]],
              messages := AddToJournal(s.messages, env, Update, table, event,
                                       UpdatePayload(idName, idValue, data, info))))
  }

  function DoCredit(s: State, env: Env, m: Movement): Result<State, LedgerError> {
    match CheckMovement(env, m)
    case Some(e) => Err(e)
    case None =>
      DoInsertRecord(s.(balances := AddToBalance(s.balances, env, m)), env, "credits",
                     MovementRecord(env, m, "calling_function"), "CREDIT", map[])
  }

  function DoDebit(s: State, env: Env, m: Movement): Result<State, LedgerError> {
    match CheckMovement(env, m)
    case Some(e) => Err(e)
    case None =>
      match RemoveFromBalance(s.balances, env, m)
      case Err(e) => Err(e)
      case Ok(rows) =>
        DoInsertRecord(s.(balances := rows), env, "debits", MovementRecord(env, m, "action"), "DEBIT", map[])
  }

  /** `UPDATE table SET sets WHERE id = value`, what the ledger does in place. */
  function SealRows(rows: seq<Record>, idName: string, idValue: Value, sets: Record): (sealed: seq<Record>)
    ensures |sealed| == |rows|
  {
    if rows == [] then []
    else
      var last := rows[|rows| - 1];
      SealRows(rows[..|rows| - 1], idName, idValue, sets) +
        [if CellIs(last, idName, idValue) then last + sets else last]
  }

  lemma SealOneMore(rows: seq<Record>, i: nat, idName: string, idValue: Value, sets: Record, sealed: seq<Record>)
    requires i < |rows|
    ensures var row := if CellIs(rows[i], idName, idValue) then rows[i] + sets else rows[i];
            SealRows(rows[..i], idName, idValue, sets) + ([row] + sealed)
            == SealRows(rows[..i + 1], idName, idValue, sets) + sealed
  {
    assert rows[..i + 1][..i] == rows[..i];
    var row := if CellIs(rows[i], idName, idValue) then rows[i] + sets else rows[i];
    var head := SealRows(rows[..i], idName, idValue, sets);
    assert head + [row] + sealed == head + ([row] + sealed);
  }

  function DoSeal(s: State, env: Env, table: string, idName: string, idValue: Value, sets: Record, event: string,
                  bindings: Record): Result<State, LedgerError>
  {
    if table !in s.tables then Err(NoSuchTable)
    else Ok(s.(tables := s.tables[table := SealRows(s.tables[table], idName, idValue, sets)],
               messages := AddToJournal(s.messages, env, Parse, table, event, bindings)))
  }

  /** The end of `parse_block`: the hashes of the block go into its row. */
  function SealBlock(env: Env, hashes: Record): Op {
    Seal("blocks", "block_index", Int(env.blockIndex), hashes, "BLOCK_PARSED",
         hashes["block_index" := Int(env.blockIndex)])
  }

  /** The end of `parse_tx`: the row of a transaction nobody could parse is marked. */
  function SealTransaction(txHash: string, txIndex: int, supported: bool): Op {
    Seal("transactions", "tx_hash", Text(txHash), if supported then map[] else map["supported" := Int(0)],
         "TRANSACTION_PARSED",
         map["tx_index" := Int(txIndex), "tx_hash" := Text(txHash), "supported" := Int(if supported then 1 else 0)])
  }

  function Apply(s: State, env: Env, op: Op): Result<State, LedgerError> {
    match op
    case Credit(m) => DoCredit(s, env, m)
    case Debit(m) => DoDebit(s, env, m)
    case InsertRecord(table, record, event, info) => DoInsertRecord(s, env, table, record, event, info)
    case InsertUpdate(table, idName, idValue, data, event, info) =>
      DoInsertUpdate(s, env, table, idName, idValue, data, event, info)
    case Seal(table, idName, idValue, sets, event, bindings) =>
      DoSeal(s, env, table, idName, idValue, sets, event, bindings)
  }

  /** A call that raises leaves the database as it was. */
  function Step(s: State, env: Env, op: Op): State {
    match Apply(s, env, op)
    case Ok(s') => s'
    case Err(_) => s
  }

  // ---------------------------------------------------------------- rollback

  function BalancesBelow(rows: seq<BalanceRow>, n: int): (kept: seq<BalanceRow>)
    ensures |kept| <= |rows|
  {
    if rows == [] then []
    else
      var rest := BalancesBelow(rows[..|rows| - 1], n);
      if rows[|rows| - 1].blockIndex >= n then rest else rest + [rows[|rows| - 1]]
  }

  function MessagesBelow(messages: seq<Message>, n: int): (kept: seq<Message>)
    ensures |kept| <= |messages|
  {
    if messages == [] then []
    else
      var rest := MessagesBelow(messages[..|messages| - 1], n);
      if messages[|messages| - 1].stamp.content.blockIndex >= n then rest else rest + [messages[|messages| - 1]]
  }

  function CleanedExcept(tables: map<string, seq<Record>>, todo: set<string>, n: int): map<string, seq<Record>> {
    map t | t in tables :: if t in todo then tables[t] else BelowBlock(tables[t], n)
  }

  /** `DELETE ... WHERE block_index >= n` in every table. */
  function Rollback(s: State, n: int): State {
    State(
      BalancesBelow(s.balances, n),
      CleanedExcept(s.tables, {}, n),
      MessagesBelow(s.messages, n))
  }

  /** `rollback`: at the first block the tables are dropped and created again. */
  function RollbackDb(s: State, n: int, blockFirst: int, initial: map<string, seq<Record>>): State {
    if n <= blockFirst then State([], initial, []) else Rollback(s, n)
  }

  // ---------------------------------------------------------------- the database object

  class LedgerDb {
    var balances: seq<BalanceRow>
    var tables: map<string, seq<Record>>
    var messages: seq<Message>
    var currentBlockIndex: int
    var currentTxHash: Option<string>
    const contractsOnlyXcp: bool
    const blockFirst: int
    const initialTables: map<string, seq<Record>>

    ghost function Db(): State
      reads this
    {
      State(balances, tables, messages)
    }

    ghost function Settings(now: int): Env
      reads this
    {
      Env(currentBlockIndex, currentTxHash, now, contractsOnlyXcp)
    }

    constructor (contractsOnlyXcp: bool, blockFirst: int, initialTables: map<string, seq<Record>>)
      ensures Db() == State([], initialTables, [])
      ensures currentBlockIndex == blockFirst - 1 && currentTxHash == None
      ensures this.contractsOnlyXcp == contractsOnlyXcp && this.blockFirst == blockFirst
      ensures this.initialTables == initialTables
    {
      balances, tables, messages := [], initialTables, [];
      currentBlockIndex, currentTxHash := blockFirst - 1, None;
      this.contractsOnlyXcp, this.blockFirst, this.initialTables := contractsOnlyXcp, blockFirst, initialTables;
    }

    method Journal(command: Command, category: string, event: string, bindings: Record, now: int)
      modifies this`messages
      ensures messages == AddToJournal(old(messages), Settings(now), command, category, event, bindings)
    {
      var messageIndex, previousHash := 0, NoHash;
      if messages != [] {
        var previous := messages[|messages| - 1].stamp;
        messageIndex, previousHash := previous.content.messageIndex + 1, previous.eventHash;
      }
      var content := Content(messageIndex, currentBlockIndex, command, category, bindings, event, currentTxHash);
      messages := messages + [Message(Stamp(content, Dhash(content, previousHash)), now)];
    }

    method InsertRecord(table: string, record: Record, event: string, info: Record, now: int)
      returns (error: Option<LedgerError>)
      modifies this`tables, this`messages
      ensures match DoInsertRecord(old(Db()), Settings(now), table, record, event, info)
              case Ok(s) => error == None && Db() == s
              case Err(e) => error == Some(e) && Db() == old(Db())
    {
      if table !in tables { return Some(NoSuchTable); }
      tables := tables[table := tables[table] + [record]];
      Journal(Insert, table, event, record + info, now);
      error := None;
    }

    method InsertUpdate(table: string, idName: string, idValue: Value, data: Record, event: string, info: Record,
                        now: int)
      returns (error: Option<LedgerError>)
      modifies this`tables, this`messages
      ensures match DoInsertUpdate(old(Db()), Settings(now), table, idName, idValue, data, event, info)
              case Ok(s) => error == None && Db() == s
              case Err(e) => error == Some(e) && Db() == old(Db())
    {
      if table !in tables { return Some(NoSuchTable); }
      var needUpdate := FindRow(tables[table], idName, idValue);
      if needUpdate.None? { return Some(NoSuchRecord); }
      var newRecord := needUpdate.value + data;
      newRecord := newRecord["block_index" := Int(currentBlockIndex)];
      tables := tables[table := tables[table] + [newRecord]];
      var payload := data + map[idName := idValue] + info;
      if "rowid" in payload {
        payload := payload - {"rowid"};
      }
      assert payload == UpdatePayload(idName, idValue, data, info);
      Journal(Update, table, event, payload, now);
      error := None;
    }

    /** The rows one after the other, from the last to the first. */
    static method SealEach(rows: seq<Record>, idName: string, idValue: Value,
                           sets: Record) returns (sealed: seq<Record>)
      ensures sealed == SealRows(rows, idName, idValue, sets)
    {
      var i := |rows|;
      sealed := [];
      assert rows[..|rows|] == rows;
      assert SealRows(rows, idName, idValue, sets) + [] == SealRows(rows, idName, idValue, sets);
      while i > 0
        invariant 0 <= i <= |rows|
        invariant SealRows(rows[..i], idName, idValue, sets) + sealed == SealRows(rows, idName, idValue, sets)
      {
        i := i - 1;
        SealOneMore(rows, i, idName, idValue, sets, sealed);
        var row := if CellIs(rows[i], idName, idValue) then rows[i] + sets else rows[i];
        sealed := [row] + sealed;
      }
      assert rows[..0] == [] && [] + sealed == sealed;
      assert sealed == SealRows(rows, idName, idValue, sets);
    }

    /** The UPDATE at the end of a block or of a transaction, and its event. */
    method SealRow(table: string, idName: string, idValue: Value, sets: Record, event: string, bindings: Record,
                   now: int)
      returns (error: Option<LedgerError>)
      modifies this`tables, this`messages
      ensures match DoSeal(old(Db()), Settings(now), table, idName, idValue, sets, event, bindings)
              case Ok(s) => error == None && Db() == s
              case Err(e) => error == Some(e) && Db() == old(Db())
    {
      if table !in tables { return Some(NoSuchTable); }
      var sealed := SealEach(tables[table], idName, idValue, sets);
      tables := tables[table := sealed];
      Journal(Parse, table, event, bindings, now);
      error := None;
    }

    method RemoveBalance(m: Movement) returns (error: Option<LedgerError>)
      modifies this`balances
      ensures match RemoveFromBalance(old(balances), Settings(0), m)
              case Ok(rows) => error == None && balances == rows
              case Err(e) => error == Some(e) && balances == old(balances)
    {
      var oldBalance, noBalance := 0, false;
      match FindBalance(balances, m.holder, m.asset) {
        case Some(q) => oldBalance := q;
        case None => noBalance := true;
      }
      if oldBalance < m.quantity { return Some(InsufficientFunds); }
      var balance := Least(oldBalance - m.quantity, MAX_INT);
      if !noBalance {
        balances := balances + [BalanceRow(m.holder, m.asset, balance, currentBlockIndex, m.txIndex, m.utxoAddress)];
      }
      error := None;
    }

    method DebitHolder(m: Movement, now: int) returns (error: Option<LedgerError>)
      requires "debits" in tables
      modifies this`balances, this`tables, this`messages
      ensures match DoDebit(old(Db()), Settings(now), m)
              case Ok(s) => error == None && Db() == s
              case Err(e) => error == Some(e) && Db() == old(Db())
    {
      if m.quantity < 0 { return Some(NegativeQuantity); }
      if m.quantity > MAX_INT { return Some(QuantityTooHigh); }
      if m.asset == BTC { return Some(BitcoinBalance); }
      if contractsOnlyXcp && m.holder.Address? && |m.holder.address| == 40 && m.asset != XCP {
        return Some(ContractAsset);
      }
      error := RemoveBalance(m);
      if error.Some? { return; }
      var bindings := MovementRecord(Env(currentBlockIndex, currentTxHash, now, contractsOnlyXcp), m, "action");
      error := InsertRecord("debits", bindings, "DEBIT", map[], now);
    }

    method CreditHolder(m: Movement, now: int) returns (error: Option<LedgerError>)
      requires "credits" in tables
      modifies this`balances, this`tables, this`messages
      ensures match DoCredit(old(Db()), Settings(now), m)
              case Ok(s) => error == None && Db() == s
              case Err(e) => error == Some(e) && Db() == old(Db())
    {
      if m.quantity < 0 { return Some(NegativeQuantity); }
      if m.quantity > MAX_INT { return Some(QuantityTooHigh); }
      if m.asset == BTC { return Some(BitcoinBalance); }
      if contractsOnlyXcp && m.holder.Address? && |m.holder.address| == 40 && m.asset != XCP {
        return Some(ContractAsset);
      }
      var oldBalance := Balance(balances, m.holder, m.asset);
      var balance := Least(oldBalance + m.quantity, MAX_INT);
      balances := balances + [BalanceRow(m.holder, m.asset, balance, currentBlockIndex, m.txIndex, m.utxoAddress)];
      var bindings := MovementRecord(Env(currentBlockIndex, currentTxHash, now, contractsOnlyXcp), m,
                                     "calling_function");
      error := InsertRecord("credits", bindings, "CREDIT", map[], now);
    }

    /** One `clean_table_from` after the other. */
    method CleanTables(blockIndex: int)
      modifies this`tables
      ensures tables == CleanedExcept(old(tables), {}, blockIndex)
    {
      var todo := tables.Keys;
      assert tables == CleanedExcept(tables, todo, blockIndex);
      while todo != {}
        invariant todo <= old(tables).Keys
        invariant tables == CleanedExcept(old(tables), todo, blockIndex)
        decreases todo
      {
        var table :| table in todo;
        todo := todo - {table};
        tables := tables[table := BelowBlock(tables[table], blockIndex)];
      }
    }

    /** Cleans or rebuilds every table, then steps the block index back below the rollback point. */
    method RollbackTo(blockIndex: int)
      modifies this
      ensures Db() == RollbackDb(old(Db()), blockIndex, blockFirst, initialTables)
      ensures currentBlockIndex == (if blockIndex <= blockFirst then blockFirst else blockIndex) - 1
    {
      var n := if blockIndex <= blockFirst then blockFirst else blockIndex;
      if n == blockFirst {
        balances, messages := [], [];
        tables := initialTables;
      } else {
        balances := BalancesBelow(balances, n);
        messages := MessagesBelow(messages, n);
        CleanTables(n);
      }
      currentBlockIndex := n - 1;
    }
  }
}
