/** Rolling the ledger back to a block restores exactly what that block started from. */
module LedgerRollback {
  import opened Records
  import opened Journal
  import opened Ledger

  datatype Call = Call(env: Env, op: Op)

  /** What a handler puts in its rows: the current block. */
  predicate Stamped(env: Env, op: Op) {
    match op
    case InsertRecord(_, record, _, _) => CellIs(record, "block_index", Int(env.blockIndex))
    case Seal(_, _, _, sets, _, _) => "block_index" !in sets
    case _ => true
  }

  /** Every row with this key belongs to block b. */
  predicate Owned(rows: seq<Record>, idName: string, idValue: Value, b: int) {
    forall r :: r in rows && CellIs(r, idName, idValue) ==> Cell(r, "block_index") == Int(b)
  }

  /** An in-place UPDATE changes rows of the current block only: the block's own row, or one of its transactions. */
  predicate OwnSeal(s: State, env: Env, op: Op) {
    op.Seal? && op.table in s.tables ==> Owned(s.tables[op.table], op.idName, op.idValue, env.blockIndex)
  }

  /**
   * The seal of a block always stays within it; that of a transaction when the transaction was listed in this block.
   */
  lemma SealsStayWithin(s: State, env: Env, hashes: Record, txHash: string, txIndex: int, supported: bool)
    requires "block_index" !in hashes
    requires "transactions" in s.tables ==>
               Owned(s.tables["transactions"], "tx_hash", Text(txHash), env.blockIndex)
    ensures Stamped(env, SealBlock(env, hashes)) && OwnSeal(s, env, SealBlock(env, hashes))
    ensures var seal := SealTransaction(txHash, txIndex, supported); Stamped(env, seal) && OwnSeal(s, env, seal)
  {
    assert |"supported"| == 9 && |"block_index"| == 11;
  }

  /** Calls are made block after block. */
  predicate Ordered(calls: seq<Call>) {
    && (forall c :: c in calls ==> Stamped(c.env, c.op))
    && (forall i, j :: 0 <= i < j < |calls| ==> calls[i].env.blockIndex <= calls[j].env.blockIndex)
  }

  function RunCalls(s: State, calls: seq<Call>): State {
    if calls == [] then s
    else
      var last := calls[|calls| - 1];
      Step(RunCalls(s, calls[..|calls| - 1]), last.env, last.op)
  }

  /** Through the whole run each in-place UPDATE stays within its block. */
  predicate OwnSeals(s: State, calls: seq<Call>) {
    calls == [] ||
    var rest, last := calls[..|calls| - 1], calls[|calls| - 1];
    OwnSeals(s, rest) && OwnSeal(RunCalls(s, rest), last.env, last.op)
  }

  /** The calls made below block n. */
  function CallsBelow(calls: seq<Call>, n: int): (kept: seq<Call>)
    ensures forall c :: c in kept <==> c in calls && c.env.blockIndex < n
  {
    if calls == [] then []
    else
      var rest, last := CallsBelow(calls[..|calls| - 1], n), calls[|calls| - 1];
      assert forall c :: c in calls <==> c in calls[..|calls| - 1] || c == last;
      if last.env.blockIndex >= n then rest else rest + [last]
  }

  /** Nothing a rollback to n would delete. */
  predicate SettledBelow(s: State, n: int) {
    Rollback(s, n) == s
  }

  lemma BelowOfAppend(rows: seq<Record>, r: Record, n: int)
    ensures BelowBlock(rows + [r], n) == if AtOrAbove(r, n) then BelowBlock(rows, n) else BelowBlock(rows, n) + [r]
  {
    assert (rows + [r])[..|rows|] == rows;
  }

  lemma BalancesBelowOfAppend(rows: seq<BalanceRow>, row: BalanceRow, n: int)
    ensures BalancesBelow(rows + [row], n) ==
            if row.blockIndex >= n then BalancesBelow(rows, n) else BalancesBelow(rows, n) + [row]
  {
    assert (rows + [row])[..|rows|] == rows;
  }

  lemma MessagesBelowOfAppend(messages: seq<Message>, m: Message, n: int)
    ensures MessagesBelow(messages + [m], n) ==
            if m.stamp.content.blockIndex >= n then MessagesBelow(messages, n) else MessagesBelow(messages, n) + [m]
  {
    assert (messages + [m])[..|messages|] == messages;
  }

  /** Changing rows of block n or above in place is not seen below n. */
  lemma {:induction false} SealAbove(rows: seq<Record>, idName: string, idValue: Value, sets: Record, b: int, n: int)
    requires "block_index" !in sets && Owned(rows, idName, idValue, b) && n <= b
    ensures BelowBlock(SealRows(rows, idName, idValue, sets), n) == BelowBlock(rows, n)
  {
    if rows != [] {
      var rest, last := rows[..|rows| - 1], rows[|rows| - 1];
      assert last in rows && forall r :: r in rest ==> r in rows;
      SealAbove(rest, idName, idValue, sets, b, n);
      var sealed := if CellIs(last, idName, idValue) then last + sets else last;
      BelowOfAppend(SealRows(rest, idName, idValue, sets), sealed, n);
    }
  }

  /** Changing rows in place moves none of them to another block. */
  lemma {:induction false} SealKeepsBlocks(rows: seq<Record>, idName: string, idValue: Value, sets: Record, n: int)
    requires "block_index" !in sets && BelowBlock(rows, n) == rows
    ensures BelowBlock(SealRows(rows, idName, idValue, sets), n) == SealRows(rows, idName, idValue, sets)
  {
    if rows != [] {
      var rest, last := rows[..|rows| - 1], rows[|rows| - 1];
      BelowShrinks(rest, n);
      assert BelowBlock(rest, n) == rows[..|rows| - 1];
      SealKeepsBlocks(rest, idName, idValue, sets, n);
      var sealed := if CellIs(last, idName, idValue) then last + sets else last;
      BelowOfAppend(SealRows(rest, idName, idValue, sets), sealed, n);
    }
  }

  lemma {:induction false} BelowShrinks(rows: seq<Record>, n: int)
    ensures |BelowBlock(rows, n)| <= |rows|
  {
    if rows != [] { BelowShrinks(rows[..|rows| - 1], n); }
  }

  // ---------------------------------------------------------------- what one call adds

  /** At most one message more, of the current block. */
  predicate OneMessageMore(before: seq<Message>, after: seq<Message>, b: int) {
    || after == before
    || (after != [] && after[..|after| - 1] == before && after[|after| - 1].stamp.content.blockIndex == b)
  }

  predicate OneBalanceMore(before: seq<BalanceRow>, after: seq<BalanceRow>, b: int) {
    after == before || (after != [] && after[..|after| - 1] == before && after[|after| - 1].blockIndex == b)
  }

  predicate OneRowMore(before: seq<Record>, after: seq<Record>, b: int) {
    || after == before
    || (after != [] && after[..|after| - 1] == before && Cell(after[|after| - 1], "block_index") == Int(b))
  }

  lemma StepAddsMessage(s: State, env: Env, op: Op)
    ensures OneMessageMore(s.messages, Step(s, env, op).messages, env.blockIndex)
  {
  }

  lemma StepAddsBalance(s: State, env: Env, op: Op)
    ensures OneBalanceMore(s.balances, Step(s, env, op).balances, env.blockIndex)
  {
  }

  lemma MovementIsStamped(env: Env, m: Movement, actionColumn: string)
    requires actionColumn != "block_index"
    ensures Cell(MovementRecord(env, m, actionColumn), "block_index") == Int(env.blockIndex)
  {
    assert |"address"| == |"utxo"| + 3 == |"asset"| + 2 && |"quantity"| == 8 && |"utxo_address"| == 12
           && |"event"| == 5 && |"tx_index"| == 8;
    assert "quantity" != "block_index" && "tx_index"[0] != "block_index"[0];
  }

  lemma CreditAddsRow(s: State, env: Env, m: Movement, t: string)
    requires t in s.tables && t in Step(s, env, Credit(m)).tables
    ensures OneRowMore(s.tables[t], Step(s, env, Credit(m)).tables[t], env.blockIndex)
  {
    MovementIsStamped(env, m, "calling_function");
  }

  lemma DebitAddsRow(s: State, env: Env, m: Movement, t: string)
    requires t in s.tables && t in Step(s, env, Debit(m)).tables
    ensures OneRowMore(s.tables[t], Step(s, env, Debit(m)).tables[t], env.blockIndex)
  {
    MovementIsStamped(env, m, "action");
  }

  lemma InsertAddsRow(s: State, env: Env, op: Op, t: string)
    requires (op.InsertRecord? || op.InsertUpdate?) && Stamped(env, op) && t in s.tables && t in Step(s, env, op).tables
    ensures OneRowMore(s.tables[t], Step(s, env, op).tables[t], env.blockIndex)
  {
  }

  /** A table after one call: the same, one row of the current block longer, or with rows changed in place. */
  lemma StepAddsRow(s: State, env: Env, op: Op, t: string)
    requires Stamped(env, op) && t in s.tables && t in Step(s, env, op).tables
    ensures if op.Seal? && op.table == t
            then Step(s, env, op).tables[t] == SealRows(s.tables[t], op.idName, op.idValue, op.sets)
            else OneRowMore(s.tables[t], Step(s, env, op).tables[t], env.blockIndex)
  {
    match op {
      case Credit(m) => CreditAddsRow(s, env, m, t);
      case Debit(m) => DebitAddsRow(s, env, m, t);
      case Seal(_, _, _, _, _, _) =>
      case _ => InsertAddsRow(s, env, op, t);
    }
  }

  lemma StepKeepsTables(s: State, env: Env, op: Op)
    ensures Step(s, env, op).tables.Keys == s.tables.Keys
  {
  }

  lemma SameTablesBelow(a: map<string, seq<Record>>, b: map<string, seq<Record>>, n: int)
    requires a.Keys == b.Keys
    requires forall t :: t in a && t in b ==> BelowBlock(a[t], n) == BelowBlock(b[t], n)
    ensures CleanedExcept(a, {}, n) == CleanedExcept(b, {}, n)
  {
  }

  /** Rollback to n never sees what a call at block n or above did. */
  lemma StepAboveIsForgotten(s: State, env: Env, op: Op, n: int)
    requires Stamped(env, op) && OwnSeal(s, env, op) && n <= env.blockIndex
    ensures Rollback(Step(s, env, op), n) == Rollback(s, n)
  {
    AppendsAbove(s, env, op, n);
    StepKeepsTables(s, env, op);
    var a, b := Step(s, env, op).tables, s.tables;
    forall t | t in a && t in b
      ensures BelowBlock(a[t], n) == BelowBlock(b[t], n)
    {
      TableAbove(s, env, op, n, t);
    }
    SameTablesBelow(a, b, n);
  }

  lemma AppendsAbove(s: State, env: Env, op: Op, n: int)
    requires n <= env.blockIndex
    ensures BalancesBelow(Step(s, env, op).balances, n) == BalancesBelow(s.balances, n)
    ensures MessagesBelow(Step(s, env, op).messages, n) == MessagesBelow(s.messages, n)
  {
    StepAddsBalance(s, env, op);
    StepAddsMessage(s, env, op);
  }

  lemma RowsAbove(before: seq<Record>, after: seq<Record>, b: int, n: int)
    requires OneRowMore(before, after, b) && n <= b
    ensures BelowBlock(after, n) == BelowBlock(before, n)
  {
  }

  lemma TableAbove(s: State, env: Env, op: Op, n: int, t: string)
    requires Stamped(env, op) && OwnSeal(s, env, op) && n <= env.blockIndex
    requires t in s.tables && t in Step(s, env, op).tables
    ensures BelowBlock(Step(s, env, op).tables[t], n) == BelowBlock(s.tables[t], n)
  {
    StepAddsRow(s, env, op, t);
    if op.Seal? && op.table == t {
      SealAbove(s.tables[t], op.idName, op.idValue, op.sets, env.blockIndex, n);
    } else {
      RowsAbove(s.tables[t], Step(s, env, op).tables[t], env.blockIndex, n);
    }
  }

  lemma BalancesBelowStay(before: seq<BalanceRow>, after: seq<BalanceRow>, b: int, n: int)
    requires OneBalanceMore(before, after, b) && b < n && BalancesBelow(before, n) == before
    ensures BalancesBelow(after, n) == after
  {
    if after != before { BalancesBelowOfAppend(before, after[|after| - 1], n); }
  }

  lemma MessagesBelowStay(before: seq<Message>, after: seq<Message>, b: int, n: int)
    requires OneMessageMore(before, after, b) && b < n && MessagesBelow(before, n) == before
    ensures MessagesBelow(after, n) == after
  {
    if after != before { MessagesBelowOfAppend(before, after[|after| - 1], n); }
  }

  lemma RowsBelowStay(before: seq<Record>, after: seq<Record>, b: int, n: int)
    requires OneRowMore(before, after, b) && b < n && BelowBlock(before, n) == before
    ensures BelowBlock(after, n) == after
  {
    if after != before { BelowOfAppend(before, after[|after| - 1], n); }
  }

  lemma TableBelow(s: State, env: Env, op: Op, n: int, t: string)
    requires Stamped(env, op) && env.blockIndex < n
    requires t in s.tables && t in Step(s, env, op).tables && BelowBlock(s.tables[t], n) == s.tables[t]
    ensures BelowBlock(Step(s, env, op).tables[t], n) == Step(s, env, op).tables[t]
  {
    StepAddsRow(s, env, op, t);
    if op.Seal? && op.table == t {
      SealKeepsBlocks(s.tables[t], op.idName, op.idValue, op.sets, n);
    } else {
      RowsBelowStay(s.tables[t], Step(s, env, op).tables[t], env.blockIndex, n);
    }
  }

  lemma SettledIs(s: State, n: int)
    ensures SettledBelow(s, n) <==>
            && BalancesBelow(s.balances, n) == s.balances && MessagesBelow(s.messages, n) == s.messages
            && forall t :: t in s.tables ==> BelowBlock(s.tables[t], n) == s.tables[t]
  {
    if SettledBelow(s, n) {
      forall t | t in s.tables
        ensures BelowBlock(s.tables[t], n) == s.tables[t]
      {
        assert CleanedExcept(s.tables, {}, n)[t] == s.tables[t];
      }
    }
  }

  /** A call below n leaves nothing that a rollback to n would delete. */
  lemma StepBelowStaysSettled(s: State, env: Env, op: Op, n: int)
    requires Stamped(env, op) && env.blockIndex < n && SettledBelow(s, n)
    ensures SettledBelow(Step(s, env, op), n)
  {
    var s' := Step(s, env, op);
    SettledIs(s, n);
    StepAddsBalance(s, env, op);
    BalancesBelowStay(s.balances, s'.balances, env.blockIndex, n);
    StepAddsMessage(s, env, op);
    MessagesBelowStay(s.messages, s'.messages, env.blockIndex, n);
    StepKeepsTables(s, env, op);
    forall t | t in s'.tables
      ensures BelowBlock(s'.tables[t], n) == s'.tables[t]
    {
      TableBelow(s, env, op, n, t);
    }
    SettledIs(s', n);
  }

  lemma {:induction false} CallsBelowStaySettled(s: State, calls: seq<Call>, n: int)
    requires SettledBelow(s, n)
    requires forall c :: c in calls ==> Stamped(c.env, c.op) && c.env.blockIndex < n
    ensures SettledBelow(RunCalls(s, calls), n) && CallsBelow(calls, n) == calls
  {
    if calls != [] {
      var rest, last := calls[..|calls| - 1], calls[|calls| - 1];
      CallsBelowStaySettled(s, rest, n);
      StepBelowStaysSettled(RunCalls(s, rest), last.env, last.op, n);
    }
  }

  /**
   * Rolling back to block n, after any calls, leaves the whole database as it stood when only the
   * calls below n had been made: its contents at the end of block n - 1.
   */
  lemma {:induction false} RollbackRestoresBlockEnd(s: State, calls: seq<Call>, n: int)
    requires Ordered(calls) && OwnSeals(s, calls) && SettledBelow(s, n)
    ensures Rollback(RunCalls(s, calls), n) == RunCalls(s, CallsBelow(calls, n))
  {
    if calls != [] {
      var rest, last := calls[..|calls| - 1], calls[|calls| - 1];
      if last.env.blockIndex >= n {
        RollbackRestoresBlockEnd(s, rest, n);
        StepAboveIsForgotten(RunCalls(s, rest), last.env, last.op, n);
      } else {
        forall c | c in calls
          ensures c.env.blockIndex < n
        {
          var i :| 0 <= i < |calls| && calls[i] == c;
          assert i < |calls| - 1 ==> c.env.blockIndex <= last.env.blockIndex;
        }
        CallsBelowStaySettled(s, calls, n);
      }
    }
  }

  // ---------------------------------------------------------------- whole histories

  datatype Happening = Run(call: Call) | Reorg(n: int)

  /** The calls that no later reorganisation undid. */
  function Survivors(history: seq<Happening>): seq<Call> {
    if history == [] then []
    else
      var before := Survivors(history[..|history| - 1]);
      match history[|history| - 1]
      case Run(c) => before + [c]
      case Reorg(n) => CallsBelow(before, n)
  }

  function Replay(s: State, history: seq<Happening>): State {
    if history == [] then s
    else
      var before := Replay(s, history[..|history| - 1]);
      match history[|history| - 1]
      case Run(c) => Step(before, c.env, c.op)
      case Reorg(n) => Rollback(before, n)
  }

  /** Whatever has been undone so far, the calls still standing were made block after block, each in its own block. */
  predicate Orderly(s: State, history: seq<Happening>) {
    && Ordered(Survivors(history)) && OwnSeals(s, Survivors(history))
    && (history != [] ==> Orderly(s, history[..|history| - 1]))
  }

  /** No reorganisation goes below the rows the database started with. */
  predicate KeepsStart(s: State, history: seq<Happening>) {
    forall e :: e in history && e.Reorg? ==> SettledBelow(s, e.n)
  }

  /** Through any number of reorganisations the ledger equals one that never saw an orphaned block. */
  lemma {:induction false} ReorgsLeaveNoTrace(s: State, history: seq<Happening>)
    requires Orderly(s, history) && KeepsStart(s, history)
    ensures Replay(s, history) == RunCalls(s, Survivors(history))
  {
    if history != [] {
      var before, last := history[..|history| - 1], history[|history| - 1];
      assert last in history && forall e :: e in before ==> e in history;
      ReorgsLeaveNoTrace(s, before);
      match last {
        case Run(c) =>
          assert Survivors(history)[..|Survivors(before)|] == Survivors(before);
        case Reorg(n) =>
          RollbackRestoresBlockEnd(s, Survivors(before), n);
      }
    }
  }

  /** At the first block `rollback` rebuilds the tables, and that too is the run of no calls at all. */
  lemma RollbackDbRestoresBlockEnd(initial: map<string, seq<Record>>, calls: seq<Call>, blockFirst: int, n: int)
    requires Ordered(calls) && OwnSeals(State([], initial, []), calls)
    requires forall c :: c in calls ==> c.env.blockIndex >= blockFirst
    requires forall t, m :: t in initial ==> BelowBlock(initial[t], m) == initial[t]
    ensures var s := State([], initial, []);
            RollbackDb(RunCalls(s, calls), n, blockFirst, initial) == RunCalls(s, CallsBelow(calls, n))
  {
    if n <= blockFirst {
      if CallsBelow(calls, n) != [] {
        assert CallsBelow(calls, n)[0] in CallsBelow(calls, n);
      }
    } else {
      assert CleanedExcept(initial, {}, n) == initial;
      RollbackRestoresBlockEnd(State([], initial, []), calls, n);
    }
  }
}
