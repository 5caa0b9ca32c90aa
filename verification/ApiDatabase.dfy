/** The watcher's own loops over the API database, proved against the functions of ApiWatcher. */
module ApiDatabase {
  import opened Records
  import opened Journal
  import opened BalanceJournal
  import opened ApiWatcher
  import opened WatcherProtocol
  import opened WatcherRollback

  /** What the ledger has under the index of the last message. */
  function LedgerEvent(messages: seq<ApiMessage>, log: seq<Stamp>): Option<Stamp>
    requires messages != []
  {
    FindStamp(log, messages[|messages| - 1].stamp.content.messageIndex)
  }

  predicate Diverges(messages: seq<ApiMessage>, log: seq<Stamp>)
    requires messages != []
  {
    || LedgerEvent(messages, log).None?
    || LedgerEvent(messages, log).value.eventHash != messages[|messages| - 1].stamp.eventHash
  }

  /** One message fewer, and the same end of cutting back. */
  ghost predicate AfterTurn(before: ApiState, after: ApiState, log: seq<Stamp>)
    requires before.messages != []
  {
    && Sound(after) && after.messages == before.messages[..|before.messages| - 1]
    && CutBack(before, log) == (if after.messages == [] then Raises(after) else CutBack(after, log))
    && (LedgerEvent(before.messages, log).Some? && after.messages != [] ==> LedgerEvent(after.messages, log).Some?)
  }

  /** The messages before one the ledger has are there as well. */
  lemma EarlierIsThere(s: ApiState, log: seq<Stamp>)
    requires Sound(s) && Chained(log) && |s.messages| > 1 && LedgerEvent(s.messages, log).Some?
    ensures LedgerEvent(s.messages[..|s.messages| - 1], log).Some?
  {
    var n := |s.messages| - 1;
    assert ApiStamps(s.messages)[n].content.messageIndex == n;
    assert ApiStamps(s.messages)[n - 1].content.messageIndex == n - 1;
    FindStampInChain(log, n);
    FindStampInChain(log, n - 1);
  }

  /** The state without its last message; the same state when undoing it raises. */
  function Undone(s: ApiState): ApiState
    requires s.messages != []
  {
    match RollbackEvent(s, s.messages[|s.messages| - 1])
    case None => s
    case Some(undone) => undone
  }

  lemma OneTurn(s: ApiState, log: seq<Stamp>)
    requires Sound(s) && Chained(log) && s.messages != [] && Diverges(s.messages, log)
    ensures AfterTurn(s, Undone(s), log)
  {
    UndoLastKeepsSound(s);
    if |s.messages| > 1 && LedgerEvent(s.messages, log).Some? { EarlierIsThere(s, log); }
  }

  /** How a method that says whether it raised has ended. */
  function Ending(raised: bool, s: ApiState): Outcome {
    if raised then Raises(s) else Returns(s)
  }

  class ApiDb {
    var messages: seq<ApiMessage>
    var tables: map<string, seq<TableRow>>
    var balances: seq<ApiBalance>
    var addressEvents: seq<AddressEvent>
    var expirations: seq<Expiration>

    ghost function Now(): ApiState
      reads this
    {
      ApiState(messages, tables, balances, addressEvents, expirations)
    }

    constructor (initial: map<string, seq<TableRow>>)
      requires forall t :: t in initial ==> Increasing(initial[t])
      ensures Now() == ApiState([], initial, [], [], []) && Fresh(Now())
    {
      messages, tables, balances, addressEvents, expirations := [], initial, [], [], [];
    }

    method ExecuteSql(c: Content) returns (rowid: Option<nat>)
      modifies this`tables
      ensures tables == ExecuteEvent(old(tables), c) && rowid == InsertedRowid(old(tables), c)
    {
      var rows, columns := RowsOf(tables, c.category), RowColumns(c);
      if c.command.Insert? {
        tables := tables[c.category := rows + [TableRow(NextRowid(rows), columns)]];
        rowid := Some(NextRowid(rows));
      } else {
        var ids := UpdateIds(c.event);
        tables := tables[c.category := UpdateRows(rows, ids, columns, Without(columns, ids))];
        rowid := None;
      }
    }

    method MoveBalance(c: Content, reverting: bool)
      modifies this`balances
      ensures balances == UpdateBalances(old(balances), c, if reverting then -1 else 1)
    {
      if c.event != "DEBIT" && c.event != "CREDIT" { return; }
      var h, asset, quantity := EventHolder(c.bindings), Cell(c.bindings, "asset"), Cell(c.bindings, "quantity");
      if h.None? || !asset.Text? || !quantity.Int? || quantity.n == 0 { return; }
      var asDebit := if reverting then c.event == "CREDIT" else c.event == "DEBIT";
      var delta := if asDebit then -quantity.n else quantity.n;
      balances := ChangeBalance(balances, h.value, asset.s, delta, Cell(c.bindings, "utxo_address"));
    }

    /** One `INSERT INTO address_events` for each address field of the event. */
    method NoteAddresses(c: Content)
      modifies this`addressEvents
      ensures addressEvents == UpdateAddressEvents(old(addressEvents), c)
    {
      var fields := AddressFields(c.event);
      ghost var added :=
        seq(|fields|, i requires 0 <= i < |fields| => AddressEvent(Cell(c.bindings, fields[i]), c.messageIndex));
      for i := 0 to |fields|
        invariant addressEvents == old(addressEvents) + added[..i]
      {
        addressEvents := addressEvents + [AddressEvent(Cell(c.bindings, fields[i]), c.messageIndex)];
      }
      assert added[..|fields|] == added;
    }

    method ParseOne(st: Stamp)
      modifies this
      ensures Now() == ParseEvent(old(Now()), st)
    {
      var c := st.content;
      if Skips(c.event) {
        messages := messages + [ApiMessage(st, PreviousState(tables, c), None)];
        return;
      }
      var rowid := ExecuteSql(c);
      MoveBalance(c, false);
      expirations := UpdateExpiration(expirations, c);
      NoteAddresses(c);
      messages := messages + [ApiMessage(st, PreviousState(tables, c), rowid)];
    }

    method RollbackOne(m: ApiMessage) returns (ok: bool)
      modifies this
      ensures match RollbackEvent(old(Now()), m)
              case None => !ok && Now() == old(Now())
              case Some(s) => ok && Now() == s
    {
      var c := m.stamp.content;
      if !Skips(c.event) {
        var undone := RollbackRow(tables, m);
        if undone.None? { return false; }
        tables := undone.value;
        MoveBalance(c, true);
        expirations := RollbackExpiration(expirations, c);
        addressEvents := RollbackAddressEvents(addressEvents, c);
      }
      messages := DropMessage(messages, c.messageIndex);
      ok := true;
    }

    /** Undoes the messages of block n and above, last first, until one of them raises. */
    method RollbackBlocks(n: int) returns (raised: bool)
      modifies this
      ensures RollbackEvents(old(Now()), n) == Ending(raised, Now())
    {
      var cursor := ToUndo(messages, n);
      var i := 0;
      while i < |cursor|
        invariant 0 <= i <= |cursor|
        invariant RollbackEvents(old(Now()), n) == UndoEach(Now(), cursor[i..])
      {
        assert cursor[i..][0] == cursor[i] && cursor[i..][1..] == cursor[i + 1..];
        var ok := RollbackOne(cursor[i]);
        if !ok { return true; }
        i := i + 1;
      }
      raised := false;
    }

    /** One turn of either loop. */
    method UndoLast()
      requires messages != []
      modifies this
      ensures Now() == Undone(old(Now()))
    {
      var _ := RollbackOne(messages[|messages| - 1]);
    }

    /**
     * Undoes messages the ledger does not have, then messages whose hash differs. Either loop raises when it has
     * undone message 0, because it then asks for the index of a message that is not there.
     */
    method CheckEventHashes(log: seq<Stamp>) returns (raised: bool)
      requires Sound(Now()) && Chained(log)
      modifies this
      ensures CutBack(old(Now()), log) == Ending(raised, Now())
      ensures CutsToCommonPrefix(old(Now()), Ending(raised, Now()), log)
    {
      CutBackToCommonPrefix(Now(), log);
      if messages == [] { return false; }
      ghost var cut := CutBack(Now(), log);
      while LedgerEvent(messages, log).None?
        invariant Sound(Now()) && messages != [] && CutBack(Now(), log) == cut
        decreases |messages|
      {
        OneTurn(Now(), log);
        UndoLast();
        if messages == [] { return true; }
      }
      while LedgerEvent(messages, log).Some? && Diverges(messages, log)
        invariant Sound(Now()) && messages != [] && CutBack(Now(), log) == cut
        invariant LedgerEvent(messages, log).Some?
        decreases |messages|
      {
        OneTurn(Now(), log);
        UndoLast();
        if messages == [] { return true; }
      }
      raised := false;
    }

    /** Without a raise, None stands for `NoEventToParse`. */
    method ParseNextEventOf(log: seq<Stamp>) returns (raised: bool, parsed: Option<Stamp>)
      requires Sound(Now()) && Chained(log) && WellFormedLog(log)
      modifies this
      ensures ParseNext(old(Now()), log) == Ending(raised, Now())
      ensures ExtendsCommonPrefix(old(Now()), Ending(raised, Now()), log)
      ensures var k := CommonPrefix(ApiStamps(old(messages)), log);
              parsed == if !raised && k < |log| then Some(log[k]) else None
    {
      ghost var before, k := Now(), CommonPrefix(ApiStamps(messages), log);
      ParseNextExtendsCommonPrefix(before, log);
      raised := CheckEventHashes(log);
      if raised { return true, None; }
      NextIsTheNext(Now(), log, k);
      parsed := FollowingEvent(log, k);
      if parsed.Some? {
        ParseOne(parsed.value);
      }
      assert ParseNext(before, log) == Returns(Now());
    }

    /** The event after the last one the API has: the first one for an empty API log. */
    method FollowingEvent(log: seq<Stamp>, ghost k: nat) returns (next: Option<Stamp>)
      requires Chained(log) && k <= |log| && ApiStamps(messages) == log[..k]
      ensures next == if k < |log| then Some(log[k]) else None
    {
      if log == [] { return None; }
      if messages == [] { return Some(log[0]); }
      assert |ApiStamps(messages)| == k && ApiStamps(messages)[k - 1] == messages[k - 1].stamp;
      var lastApi := messages[|messages| - 1].stamp.content.messageIndex;
      var lastLedger := log[|log| - 1].content.messageIndex;
      if lastLedger > lastApi { return Some(log[lastApi + 1]); }
      return None;
    }

    method ParseFollowing(log: seq<Stamp>)
      requires Sound(Now()) && Chained(log) && WellFormedLog(log)
      requires |messages| < |log| && ApiStamps(messages) == log[..|messages|]
      modifies this
      ensures Sound(Now()) && |messages| == |old(messages)| + 1 && ApiStamps(messages) == log[..|messages|]
    {
      ghost var k := |messages|;
      ExtendPrefix(Now(), log, k);
      NextIsTheNext(Now(), log, k);
      var next := NextAfter(messages, log);
      ParseOne(next.value);
      assert |ApiStamps(messages)| == k + 1;
    }

    /** Checks hashes once, then parses until the ledger has nothing more. */
    method CatchUp(log: seq<Stamp>) returns (raised: bool)
      requires Sound(Now()) && Chained(log) && WellFormedLog(log)
      modifies this
      ensures raised <==> !SharesFirst(old(messages), log)
      ensures Sound(Now()) && ApiStamps(messages) == if raised then [] else log
    {
      ghost var before := Now();
      raised := CheckEventHashes(log);
      if raised {
        NothingShared(before.messages, log);
        return;
      }
      assert |ApiStamps(messages)| == |messages|;
      ParseRest(log);
    }

    method ParseRest(log: seq<Stamp>)
      requires Sound(Now()) && Chained(log) && WellFormedLog(log)
      requires |messages| <= |log| && ApiStamps(messages) == log[..|messages|]
      modifies this
      ensures Sound(Now()) && ApiStamps(messages) == log
    {
      NextIsTheNext(Now(), log, |messages|);
      while NextAfter(messages, log).Some?
        invariant Sound(Now()) && |messages| <= |log| && ApiStamps(messages) == log[..|messages|]
        invariant NextAfter(messages, log).Some? <==> |messages| < |log|
        decreases |log| - |messages|
      {
        ParseFollowing(log);
        NextIsTheNext(Now(), log, |messages|);
      }
      assert log[..|log|] == log;
    }
  }
}
