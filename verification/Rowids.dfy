/**
 * Single rows: an update by rowid finds the row that was inserted, and an UPDATE in place changes the rows it names.
 */
module Rowids {
  import opened Records
  import opened Journal
  import opened Ledger
  import opened LedgerRollback

  function Rows(s: State, table: string): seq<Record> {
    if table in s.tables then s.tables[table] else []
  }

  /** The call leaves the k-th row of the table alone: it is no UPDATE in place that matches it. */
  predicate SparesCall(s: State, op: Op, table: string, k: nat)
    requires 0 < k <= |Rows(s, table)|
  {
    op.Seal? && op.table == table ==> !CellIs(Rows(s, table)[k - 1], op.idName, op.idValue)
  }

  /** The rollback is to a block above the first k rows of the table. */
  predicate SparesRollback(s: State, n: int, table: string, k: nat)
    requires k <= |Rows(s, table)|
  {
    forall i :: 0 <= i < k ==> !AtOrAbove(Rows(s, table)[i], n)
  }

  /** Through all of a history the k-th row of the table is there and left alone. */
  predicate Spares(s: State, history: seq<Happening>, table: string, k: nat)
    requires k > 0
  {
    history == [] ||
    var rest, last := history[..|history| - 1], history[|history| - 1];
    var before := Replay(s, rest);
    && Spares(s, rest, table, k) && k <= |Rows(before, table)|
    && match last
       case Run(c) => SparesCall(before, c.op, table, k)
       case Reorg(n) => SparesRollback(before, n, table, k)
  }

  lemma {:induction false} SealedRow(rows: seq<Record>, idName: string, idValue: Value, sets: Record, i: nat)
    requires i < |rows|
    ensures SealRows(rows, idName, idValue, sets)[i] ==
            if CellIs(rows[i], idName, idValue) then rows[i] + sets else rows[i]
  {
    if i < |rows| - 1 { SealedRow(rows[..|rows| - 1], idName, idValue, sets, i); }
  }

  lemma CallKeepsRow(s: State, env: Env, op: Op, table: string, k: nat)
    requires 0 < k <= |Rows(s, table)| && SparesCall(s, op, table, k)
    ensures k <= |Rows(Step(s, env, op), table)| && Rows(Step(s, env, op), table)[k - 1] == Rows(s, table)[k - 1]
  {
    if op.Seal? && op.table == table && table in s.tables {
      SealedRow(s.tables[table], op.idName, op.idValue, op.sets, k - 1);
    }
  }

  lemma {:induction false} BelowKeepsFirst(rows: seq<Record>, n: int, k: nat)
    requires k <= |rows| && forall i :: 0 <= i < k ==> !AtOrAbove(rows[i], n)
    ensures k <= |BelowBlock(rows, n)| && BelowBlock(rows, n)[..k] == rows[..k]
  {
    if rows != [] {
      var rest := rows[..|rows| - 1];
      if k < |rows| {
        BelowKeepsFirst(rest, n, k);
      } else {
        BelowKeepsFirst(rest, n, k - 1);
        AllKept(rest, n);
      }
    }
  }

  lemma {:induction false} AllKept(rows: seq<Record>, n: int)
    requires forall i :: 0 <= i < |rows| ==> !AtOrAbove(rows[i], n)
    ensures BelowBlock(rows, n) == rows
  {
    if rows != [] { AllKept(rows[..|rows| - 1], n); }
  }

  lemma RollbackKeepsRow(s: State, n: int, table: string, k: nat)
    requires 0 < k <= |Rows(s, table)| && SparesRollback(s, n, table, k)
    ensures k <= |Rows(Rollback(s, n), table)| && Rows(Rollback(s, n), table)[k - 1] == Rows(s, table)[k - 1]
  {
    var rows := Rows(s, table);
    BelowKeepsFirst(rows, n, k);
    assert BelowBlock(rows, n)[..k][k - 1] == rows[..k][k - 1];
  }

  lemma {:induction false} HistoryKeepsRow(s: State, history: seq<Happening>, table: string, k: nat)
    requires 0 < k <= |Rows(s, table)| && Spares(s, history, table, k)
    ensures var rows := Rows(Replay(s, history), table); k <= |rows| && rows[k - 1] == Rows(s, table)[k - 1]
  {
    if history != [] {
      var rest, last := history[..|history| - 1], history[|history| - 1];
      HistoryKeepsRow(s, rest, table, k);
      match last {
        case Run(c) => CallKeepsRow(Replay(s, rest), c.env, c.op, table, k);
        case Reorg(n) => RollbackKeepsRow(Replay(s, rest), n, table, k);
      }
    }
  }

  /** The row with new data and the current block. */
  ghost predicate IsVersionOf(row: Record, old': Record, data: Record, block: int) {
    && row.Keys == old'.Keys + data.Keys + {"block_index"}
    && Cell(row, "block_index") == Int(block)
    && (forall f :: f in data && f != "block_index" ==> row[f] == data[f])
    && (forall f :: f in old' && f !in data && f != "block_index" ==> row[f] == old'[f])
  }

  /**
   * A row that a call inserted as the k-th of its table: after any history that leaves it alone, an update by rowid k
   * appends a new version of that row and no other, and keeps all rows there are, of other tables and balances too.
   */
  lemma RowidFindsTheInserted(s: State, inserting: Call, history: seq<Happening>, updating: Call)
    requires inserting.op.InsertRecord? && updating.op.InsertUpdate? && updating.op.table == inserting.op.table
    requires inserting.op.table in s.tables
    requires var k := |Rows(s, inserting.op.table)| + 1;
             && updating.op.idName == "rowid" && updating.op.idValue == Int(k)
             && Spares(Step(s, inserting.env, inserting.op), history, inserting.op.table, k)
    ensures var table := inserting.op.table;
            var later := Replay(Step(s, inserting.env, inserting.op), history);
            var after := Step(later, updating.env, updating.op);
            var rows, rows' := Rows(later, table), Rows(after, table);
            && |rows'| == |rows| + 1 && rows'[..|rows|] == rows
            && IsVersionOf(rows'[|rows|], inserting.op.record, updating.op.data, updating.env.blockIndex)
            && after.balances == later.balances && (forall t :: t != table ==> Rows(after, t) == Rows(later, t))
  {
    var table, start := inserting.op.table, Step(s, inserting.env, inserting.op);
    var k := |Rows(s, table)| + 1;
    assert Rows(start, table)[k - 1] == inserting.op.record;
    HistoryKeepsRow(start, history, table, k);
  }

  lemma LatestOfMore(rows: seq<Record>, row: Record, column: string, v: Value)
    ensures LatestRow(rows + [row], column, v) == if CellIs(row, column, v)
            then Some(row) else LatestRow(rows, column, v)
  {
    assert (rows + [row])[..|rows|] == rows;
  }

  /** So under every column the data leaves alone it becomes the newest row of its own key and of no other. */
  lemma RowidMovesOneKey(s: State, inserting: Call, history: seq<Happening>, updating: Call, column: string, v: Value)
    requires inserting.op.InsertRecord? && updating.op.InsertUpdate? && updating.op.table == inserting.op.table
    requires inserting.op.table in s.tables && column !in updating.op.data && column != "block_index"
    requires var k := |Rows(s, inserting.op.table)| + 1;
             && updating.op.idName == "rowid" && updating.op.idValue == Int(k)
             && Spares(Step(s, inserting.env, inserting.op), history, inserting.op.table, k)
    ensures var table := inserting.op.table;
            var later := Replay(Step(s, inserting.env, inserting.op), history);
            var rows, rows' := Rows(later, table), Rows(Step(later, updating.env, updating.op), table);
            rows' != [] && LatestRow(rows', column, v) ==
              if CellIs(inserting.op.record, column, v) then Some(rows'[|rows'| - 1]) else LatestRow(rows, column, v)
  {
    var later := Replay(Step(s, inserting.env, inserting.op), history);
    var rows := Rows(later, inserting.op.table);
    var rows' := Rows(Step(later, updating.env, updating.op), inserting.op.table);
    RowidFindsTheInserted(s, inserting, history, updating);
    assert rows' == rows + [rows'[|rows|]];
    LatestOfMore(rows, rows'[|rows|], column, v);
  }

  // ---------------------------------------------------------------- the two updates in place

  /** The rows with this key get the new columns; all others, of this table and of every other, stay. */
  ghost predicate ChangesOnly(before: State, after: State, table: string, column: string, key: Value, sets: Record) {
    && after.balances == before.balances && after.tables.Keys == before.tables.Keys
    && |Rows(after, table)| == |Rows(before, table)|
    && (forall i :: 0 <= i < |Rows(before, table)| ==>
          Rows(after, table)[i] ==
          if Cell(Rows(before, table)[i], column) == key then Rows(before, table)[i] + sets else Rows(before, table)[i])
    && (forall t :: t != table ==> Rows(after, t) == Rows(before, t))
  }

  /** One message more, of the command "parse". */
  ghost predicate Announces(before: State, after: State, event: string, table: string, bindings: Record) {
    && |after.messages| == |before.messages| + 1 && after.messages[..|before.messages|] == before.messages
    && var c := after.messages[|before.messages|].stamp.content;
       c.command == Parse && c.event == event && c.category == table && c.bindings == bindings
  }

  lemma SealChangesOnly(s: State, env: Env, op: Op)
    requires op.Seal? && op.table in s.tables && op.idValue != Null
    ensures ChangesOnly(s, Step(s, env, op), op.table, op.idName, op.idValue, op.sets)
    ensures Announces(s, Step(s, env, op), op.event, op.table, op.bindings)
  {
    var rows := s.tables[op.table];
    forall i | 0 <= i < |rows|
      ensures SealRows(rows, op.idName, op.idValue, op.sets)[i] ==
              if Cell(rows[i], op.idName) == op.idValue then rows[i] + op.sets else rows[i]
    {
      SealedRow(rows, op.idName, op.idValue, op.sets, i);
    }
  }

  /** At the end of a block its row gets the hashes, and BLOCK_PARSED tells them with the block's index. */
  lemma BlockIsSealed(s: State, env: Env, hashes: Record)
    requires "blocks" in s.tables
    ensures var after := Step(s, env, SealBlock(env, hashes));
            && ChangesOnly(s, after, "blocks", "block_index", Int(env.blockIndex), hashes)
            && Announces(s, after, "BLOCK_PARSED", "blocks", hashes + map["block_index" := Int(env.blockIndex)])
  {
    SealChangesOnly(s, env, SealBlock(env, hashes));
    assert hashes["block_index" := Int(env.blockIndex)] == hashes + map["block_index" := Int(env.blockIndex)];
  }

  /** Only a transaction that nobody could parse is marked; TRANSACTION_PARSED says of each whether it was supported. */
  lemma TransactionIsSealed(s: State, env: Env, txHash: string, txIndex: int, supported: bool)
    requires "transactions" in s.tables
    ensures var after := Step(s, env, SealTransaction(txHash, txIndex, supported));
            && ChangesOnly(s, after, "transactions", "tx_hash", Text(txHash),
                           if supported then map[] else map["supported" := Int(0)])
            && |after.messages| == |s.messages| + 1
            && var c := after.messages[|s.messages|].stamp.content;
               && c.event == "TRANSACTION_PARSED" && c.category == "transactions" && c.command == Parse
               && Cell(c.bindings, "tx_hash") == Text(txHash) && Cell(c.bindings, "tx_index") == Int(txIndex)
               && (Cell(c.bindings, "supported") == Int(1) <==> supported)
  {
    SealChangesOnly(s, env, SealTransaction(txHash, txIndex, supported));
  }
}
