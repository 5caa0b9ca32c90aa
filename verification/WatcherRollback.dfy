/** A whole rollback: undoing the last blocks of a log against parsing only the earlier ones. */
module WatcherRollback {
  import opened Records
  import opened Journal
  import opened ApiWatcher
  import opened WatcherProtocol
  import opened WatcherUndo

  /** The messages of block n and above, last first. */
  function ToUndo(messages: seq<ApiMessage>, n: int): seq<ApiMessage> {
    if messages == [] then []
    else
      var rest, last := ToUndo(messages[..|messages| - 1], n), messages[|messages| - 1];
      if last.stamp.content.blockIndex >= n then [last] + rest else rest
  }

  /** One `rollback_event` after the other, until one raises. */
  function UndoEach(s: ApiState, todo: seq<ApiMessage>): Outcome
    decreases |todo|
  {
    if todo == [] then Returns(s)
    else
      match RollbackEvent(s, todo[0])
      case None => Raises(s)
      case Some(s') => UndoEach(s', todo[1..])
  }

  function RollbackEvents(s: ApiState, n: int): Outcome {
    UndoEach(s, ToUndo(s.messages, n))
  }

  function ParseAll(s: ApiState, log: seq<Stamp>): ApiState {
    if log == [] then s
    else ParseEvent(ParseAll(s, log[..|log| - 1]), log[|log| - 1])
  }

  /** The events below block n. */
  function StampsBelow(log: seq<Stamp>, n: int): seq<Stamp> {
    if log == [] then []
    else
      var rest, last := StampsBelow(log[..|log| - 1], n), log[|log| - 1];
      if last.content.blockIndex >= n then rest else rest + [last]
  }

  // ---------------------------------------------------------------- logs

  ghost predicate BlockAfterBlock(log: seq<Stamp>) {
    forall i, j :: 0 <= i < j < |log| ==> log[i].content.blockIndex <= log[j].content.blockIndex
  }

  /** An expiration event carries its own block. */
  predicate ProperExpiration(c: Content) {
    match ExpirationOf(c)
    case None => true
    case Some(e) => e.blockIndex == Int(c.blockIndex) && e.objectId != Null
  }

  /** A log as the ledger writes it: chained, each update naming an inserted row, block after block. */
  ghost predicate LedgerLog(log: seq<Stamp>) {
    && Chained(log) && WellFormedLog(log) && BlockAfterBlock(log)
    && forall i :: 0 <= i < |log| ==> ProperExpiration(log[i].content)
  }

  /** With nothing but insert events, into known tables. */
  ghost predicate OnlyInserts(s: ApiState, log: seq<Stamp>) {
    forall i :: 0 <= i < |log| ==> Inserting(log[i].content) && log[i].content.category in s.tables
  }

  lemma ShorterLog(log: seq<Stamp>)
    requires LedgerLog(log) && log != []
    ensures LedgerLog(log[..|log| - 1])
    ensures var last := log[|log| - 1].content;
            && ProperExpiration(last)
            && (Updating(last) ==> WellFormedUpdate(last) && HasTarget(log[..|log| - 1], last))
  {
    var n := |log| - 1;
    PrefixKeepsChain(log, n);
    forall i | 0 <= i < n
      ensures WellFormedAt(log[..n], i)
    {
      assert WellFormedAt(log, i) && log[..n][..i] == log[..i];
    }
    assert WellFormedAt(log, n);
  }

  /** One more event of such a log. */
  ghost predicate GoesOnWith(log: seq<Stamp>, st: Stamp) {
    && Chained(log + [st]) && ProperExpiration(st.content)
    && (Updating(st.content) ==> WellFormedUpdate(st.content) && HasTarget(log, st.content))
    && (log != [] ==> log[|log| - 1].content.blockIndex <= st.content.blockIndex)
  }

  /** The same logs, event by event. */
  ghost predicate EventByEvent(log: seq<Stamp>) {
    log != [] ==> EventByEvent(log[..|log| - 1]) && GoesOnWith(log[..|log| - 1], log[|log| - 1])
  }

  lemma {:induction false} LedgerLogGrows(log: seq<Stamp>)
    requires LedgerLog(log)
    ensures EventByEvent(log)
  {
    if log != [] {
      ShorterLog(log);
      LedgerLogGrows(log[..|log| - 1]);
      assert log[..|log| - 1] + [log[|log| - 1]] == log;
    }
  }

  lemma {:induction false} LastIsHighest(log: seq<Stamp>)
    requires EventByEvent(log)
    ensures forall i :: 0 <= i < |log| ==> log[i].content.blockIndex <= log[|log| - 1].content.blockIndex
  {
    if log != [] { LastIsHighest(log[..|log| - 1]); }
  }

  lemma {:induction false} AllBelow(log: seq<Stamp>, n: int)
    requires forall i :: 0 <= i < |log| ==> log[i].content.blockIndex < n
    ensures StampsBelow(log, n) == log
  {
    if log != [] { AllBelow(log[..|log| - 1], n); }
  }

  /** In such a log the events below a block come first. */
  lemma LastIsBelow(log: seq<Stamp>, n: int)
    requires BlockAfterBlock(log) && (log == [] || log[|log| - 1].content.blockIndex < n)
    ensures StampsBelow(log, n) == log && forall i :: 0 <= i < |log| ==> log[i].content.blockIndex < n
  {
    forall i | 0 <= i < |log|
      ensures log[i].content.blockIndex < n
    {
      assert i < |log| - 1 ==> log[i].content.blockIndex <= log[|log| - 1].content.blockIndex;
    }
    AllBelow(log, n);
  }

  // ---------------------------------------------------------------- the order of undoing

  lemma {:induction false} NothingToUndo(messages: seq<ApiMessage>, n: int)
    requires forall i :: 0 <= i < |messages| ==> messages[i].stamp.content.blockIndex < n
    ensures ToUndo(messages, n) == []
  {
    if messages != [] { NothingToUndo(messages[..|messages| - 1], n); }
  }

  lemma UndoNone(x: ApiState, log: seq<Stamp>, n: int)
    requires ApiStamps(x.messages) == log && forall i :: 0 <= i < |log| ==> log[i].content.blockIndex < n
    ensures RollbackEvents(x, n) == Returns(x) && StampsBelow(log, n) == log
  {
    AllBelow(log, n);
    forall i | 0 <= i < |x.messages|
      ensures x.messages[i].stamp.content.blockIndex < n
    {
      assert log[i].content.blockIndex < n;
    }
    NothingToUndo(x.messages, n);
  }

  lemma UndoFirst(x: ApiState, k: nat, n: int)
    requires |x.messages| == k + 1 && x.messages[k].stamp.content.blockIndex >= n
    requires RollbackEvent(x, x.messages[k]).Some? && RollbackEvent(x, x.messages[k]).value.messages == x.messages[..k]
    ensures RollbackEvents(x, n) == RollbackEvents(RollbackEvent(x, x.messages[k]).value, n)
  {
    var rest := ToUndo(x.messages[..k], n);
    assert ([x.messages[k]] + rest)[1..] == rest;
  }

  lemma OneFewerBelow(messages: seq<ApiMessage>, fewer: seq<ApiMessage>, n: int)
    requires messages != [] && fewer == messages[..|messages| - 1]
    requires messages[|messages| - 1].stamp.content.blockIndex >= n && BlockAfterBlock(ApiStamps(messages))
    ensures StampsBelow(ApiStamps(messages), n) == StampsBelow(ApiStamps(fewer), n)
    ensures BlockAfterBlock(ApiStamps(fewer))
  {
    assert ApiStamps(fewer) == ApiStamps(messages)[..|messages| - 1];
  }

  /** What a rollback to block n leaves: no raise, and the messages below the block. */
  ghost predicate LeavesBelow(messages: seq<ApiMessage>, outcome: Outcome, n: int) {
    && outcome.Returns? && Sound(outcome.api) && outcome.api.messages <= messages
    && ApiStamps(outcome.api.messages) == StampsBelow(ApiStamps(messages), n)
  }

  /**
   * Whatever a sound API database has been through, a rollback never raises and leaves the messages below the block.
   */
  lemma {:induction false} RollbackNeverRaises(x: ApiState, n: int)
    requires Sound(x) && BlockAfterBlock(ApiStamps(x.messages))
    ensures LeavesBelow(x.messages, RollbackEvents(x, n), n)
    decreases |x.messages|
  {
    if x.messages == [] || x.messages[|x.messages| - 1].stamp.content.blockIndex < n {
      LastIsBelow(ApiStamps(x.messages), n);
      UndoNone(x, ApiStamps(x.messages), n);
    } else {
      var undone := UndoneOnce(x, n);
      RollbackNeverRaises(undone, n);
    }
  }

  lemma UndoneOnce(x: ApiState, n: int) returns (undone: ApiState)
    requires Sound(x) && BlockAfterBlock(ApiStamps(x.messages)) && x.messages != []
    requires x.messages[|x.messages| - 1].stamp.content.blockIndex >= n
    ensures Sound(undone) && undone.messages == x.messages[..|x.messages| - 1]
    ensures BlockAfterBlock(ApiStamps(undone.messages)) && RollbackEvents(x, n) == RollbackEvents(undone, n)
    ensures StampsBelow(ApiStamps(x.messages), n) == StampsBelow(ApiStamps(undone.messages), n)
  {
    var k := |x.messages| - 1;
    UndoLastKeepsSound(x);
    undone := RollbackEvent(x, x.messages[k]).value;
    UndoFirst(x, k, n);
    OneFewerBelow(x.messages, undone.messages, n);
  }

  // ---------------------------------------------------------------- rows, up to what an update may have changed

  /** The same rows: rowids and key columns. */
  ghost predicate SameRows(xs: seq<TableRow>, ps: seq<TableRow>, keys: seq<string>) {
    && |xs| == |ps|
    && forall i :: 0 <= i < |xs| ==> xs[i].rowid == ps[i].rowid && SameKeys(xs[i].columns, ps[i].columns, keys)
  }

  ghost predicate SameRowsEverywhere(x: map<string, seq<TableRow>>, p: map<string, seq<TableRow>>) {
    forall t :: SameRows(RowsOf(x, t), RowsOf(p, t), TableKeys(t))
  }

  lemma UpdateKeepsRows(rows: seq<TableRow>, keys: seq<string>, wanted: Record)
    ensures SameRows(UpdateRows(rows, keys, wanted, Without(wanted, keys)), rows, keys)
  {
  }

  lemma SameRowsThrough(xs: seq<TableRow>, ys: seq<TableRow>, zs: seq<TableRow>, keys: seq<string>)
    requires SameRows(xs, ys, keys) && SameRows(ys, zs, keys)
    ensures SameRows(xs, zs, keys)
  {
    forall i | 0 <= i < |xs|
      ensures SameKeys(xs[i].columns, zs[i].columns, keys)
    {
      assert SameKeys(xs[i].columns, ys[i].columns, keys) && SameKeys(ys[i].columns, zs[i].columns, keys);
    }
  }

  lemma DropLastRow(rows: seq<TableRow>, rowid: nat)
    requires rows != [] && rows[|rows| - 1].rowid == rowid
    requires forall i :: 0 <= i < |rows| - 1 ==> rows[i].rowid != rowid
    ensures HasRowid(rows, rowid) && DropRowid(rows, rowid) == rows[..|rows| - 1]
  {
    DropAbsentRowid(rows[..|rows| - 1], rowid);
  }

  /** Message m as it was stored when its event was parsed on these tables. */
  predicate StoredOn(p: map<string, seq<TableRow>>, m: ApiMessage) {
    var c := m.stamp.content;
    && m.insertRowid == InsertedRowid(p, c) && m.previousState == PreviousState(ExecuteEvent(p, c), c)
    && (Updating(c) ==> m.previousState.Some? && UpdateIds(c.event) == TableKeys(c.category))
  }

  lemma UndoInsertKeepsRows(x: map<string, seq<TableRow>>, p: map<string, seq<TableRow>>, m: ApiMessage)
    requires Inserting(m.stamp.content) && StoredOn(p, m) && AllIncreasing(p)
    requires SameRowsEverywhere(x, ExecuteEvent(p, m.stamp.content))
    ensures RollbackRow(x, m).Some? && SameRowsEverywhere(RollbackRow(x, m).value, p)
  {
    var c := m.stamp.content;
    var xs, ps := RowsOf(x, c.category), RowsOf(p, c.category);
    assert Increasing(ps) && SameRows(xs, RowsOf(ExecuteEvent(p, c), c.category), TableKeys(c.category));
    forall i | 0 <= i < |ps|
      ensures xs[i].rowid == ps[i].rowid && SameKeys(xs[i].columns, ps[i].columns, TableKeys(c.category))
      ensures ps[i].rowid < NextRowid(ps)
    {
      RowidsBelowNext(ps, i);
      assert RowsOf(ExecuteEvent(p, c), c.category)[i] == ps[i];
    }
    DropLastRow(xs, NextRowid(ps));
    forall t
      ensures SameRows(RowsOf(RollbackRow(x, m).value, t), RowsOf(p, t), TableKeys(t))
    {
      assert SameRows(RowsOf(x, t), RowsOf(ExecuteEvent(p, c), t), TableKeys(t));
    }
  }

  lemma UndoUpdateKeepsRows(x: map<string, seq<TableRow>>, p: map<string, seq<TableRow>>, m: ApiMessage)
    requires Updating(m.stamp.content) && StoredOn(p, m)
    requires SameRowsEverywhere(x, ExecuteEvent(p, m.stamp.content))
    ensures RollbackRow(x, m).Some? && SameRowsEverywhere(RollbackRow(x, m).value, p)
  {
    var c := m.stamp.content;
    var keys, xs, ps := TableKeys(c.category), RowsOf(x, c.category), RowsOf(p, c.category);
    var changed := UpdateRows(ps, keys, RowColumns(c), Without(RowColumns(c), keys));
    var restored := UpdateRows(xs, keys, m.previousState.value, Without(m.previousState.value, keys));
    UpdateKeepsRows(ps, keys, RowColumns(c));
    UpdateKeepsRows(xs, keys, m.previousState.value);
    assert SameRows(xs, RowsOf(ExecuteEvent(p, c), c.category), keys);
    SameRowsThrough(restored, xs, changed, keys);
    SameRowsThrough(restored, changed, ps, keys);
    forall t
      ensures SameRows(RowsOf(RollbackRow(x, m).value, t), RowsOf(p, t), TableKeys(t))
    {
      assert SameRows(RowsOf(x, t), RowsOf(ExecuteEvent(p, c), t), TableKeys(t));
    }
  }

  // ---------------------------------------------------------------- expirations

  predicate ExpirationBelow(e: Expiration, n: int) { e.blockIndex.Int? && e.blockIndex.n < n }

  function ExpirationsBelow(expirations: seq<Expiration>, n: int): seq<Expiration> {
    if expirations == [] then []
    else
      var rest, last := ExpirationsBelow(expirations[..|expirations| - 1], n), expirations[|expirations| - 1];
      if ExpirationBelow(last, n) then rest + [last] else rest
  }

  lemma {:induction false} AllExpirationsBelow(expirations: seq<Expiration>, n: int)
    requires forall e :: e in expirations ==> ExpirationBelow(e, n)
    ensures ExpirationsBelow(expirations, n) == expirations
  {
    if expirations != [] { AllExpirationsBelow(expirations[..|expirations| - 1], n); }
  }

  lemma {:induction false} DropAboveKeepsBelow(expirations: seq<Expiration>, e: Expiration, n: int)
    requires !ExpirationBelow(e, n)
    ensures ExpirationsBelow(DropExpiration(expirations, e), n) == ExpirationsBelow(expirations, n)
  {
    if expirations != [] {
      var rest, last := expirations[..|expirations| - 1], expirations[|expirations| - 1];
      DropAboveKeepsBelow(rest, e, n);
      assert (DropExpiration(rest, e) + [last])[..|DropExpiration(rest, e)|] == DropExpiration(rest, e);
    }
  }

  /** Equal up to expirations still to be dropped. */
  ghost predicate ExpirationsResemble(xs: seq<Expiration>, ps: seq<Expiration>, n: int) {
    ExpirationsBelow(xs, n) == ExpirationsBelow(ps, n) && forall e :: e in xs ==> e in ps
  }

  lemma ExpirationsStillResemble(xs: seq<Expiration>, ps: seq<Expiration>, c: Content, n: int)
    requires ProperExpiration(c) && c.blockIndex >= n && ExpirationsResemble(xs, UpdateExpiration(ps, c), n)
    ensures ExpirationsResemble(RollbackExpiration(xs, c), ps, n)
  {
    if ExpirationOf(c).Some? {
      var e := ExpirationOf(c).value;
      DropAboveKeepsBelow(xs, e, n);
      DropExpirationKeeps(xs, e);
      assert (ps + [e])[..|ps|] == ps;
    }
  }

  // ---------------------------------------------------------------- replaying a log

  /** A database that has parsed nothing yet. */
  ghost predicate Fresh(s: ApiState) {
    Sound(s) && s.messages == [] && s.addressEvents == [] && s.expirations == []
  }

  predicate FromLog(log: seq<Stamp>, e: Expiration) {
    exists i :: 0 <= i < |log| && ExpirationOf(log[i].content) == Some(e)
  }

  lemma FromLongerLog(log: seq<Stamp>, st: Stamp, e: Expiration)
    ensures FromLog(log + [st], e) <==> FromLog(log, e) || ExpirationOf(st.content) == Some(e)
  {
    var longer := log + [st];
    assert longer[|log|] == st;
    if FromLog(log, e) {
      var i :| 0 <= i < |log| && ExpirationOf(log[i].content) == Some(e);
      assert longer[i] == log[i];
    }
  }

  /** What replaying a log keeps true. */
  ghost predicate Replayed(log: seq<Stamp>, p: ApiState) {
    && Sound(p) && ApiStamps(p.messages) == log
    && (forall e :: e in p.addressEvents ==> e.eventIndex < |log|)
    && (forall e :: e in p.expirations ==> FromLog(log, e))
  }

  lemma AddressEventsGrow(events: seq<AddressEvent>, c: Content, e: AddressEvent)
    requires e in UpdateAddressEvents(events, c)
    ensures e in events || e.eventIndex == c.messageIndex
  {
  }

  lemma ParseReplaysOneMore(log: seq<Stamp>, p: ApiState, st: Stamp)
    requires Replayed(log, p) && GoesOnWith(log, st)
    ensures Replayed(log + [st], ParseEvent(p, st))
  {
    assert (log + [st])[|log|] == st;
    ParseKeepsSound(p, st);
    forall e | e in ParseEvent(p, st).expirations
      ensures FromLog(log + [st], e)
    {
      FromLongerLog(log, st, e);
    }
    forall e | e in ParseEvent(p, st).addressEvents
      ensures e.eventIndex < |log| + 1
    {
      if e !in p.addressEvents { AddressEventsGrow(p.addressEvents, st.content, e); }
    }
  }

  lemma {:induction false} ParseAllReplays(s: ApiState, log: seq<Stamp>)
    requires Fresh(s) && EventByEvent(log)
    ensures Replayed(log, ParseAll(s, log))
  {
    if log != [] {
      ParseAllReplays(s, log[..|log| - 1]);
      assert log[..|log| - 1] + [log[|log| - 1]] == log;
      ParseReplaysOneMore(log[..|log| - 1], ParseAll(s, log[..|log| - 1]), log[|log| - 1]);
    }
  }

  lemma {:induction false} InsertsKeepTables(s: ApiState, log: seq<Stamp>)
    requires OnlyInserts(s, log)
    ensures ParseAll(s, log).tables.Keys == s.tables.Keys
  {
    if log != [] {
      InsertsKeepTables(s, log[..|log| - 1]);
      ParseShape(ParseAll(s, log[..|log| - 1]), log[|log| - 1]);
      assert Inserting(log[|log| - 1].content);
    }
  }

  // ---------------------------------------------------------------- one event undone

  /**
   * Equal but for rows of balances that read zero and expirations still to be dropped; the tables equal, or equal up
   * to columns that are no keys.
   */
  ghost predicate Resembles(x: ApiState, p: ApiState, n: int, exact: bool) {
    && x.messages == p.messages && x.addressEvents == p.addressEvents && SameQuantities(x.balances, p.balances)
    && ExpirationsResemble(x.expirations, p.expirations, n)
    && (if exact then x.tables == p.tables else SameRowsEverywhere(x.tables, p.tables))
  }

  lemma ParsedIsStored(p: ApiState, st: Stamp)
    requires Sound(p) && !Skipped(st.content)
    requires Updating(st.content) ==> WellFormedUpdate(st.content) && HasTarget(ApiStamps(p.messages), st.content)
    ensures |ParseEvent(p, st).messages| == |p.messages| + 1
            && StoredOn(p.tables, ParseEvent(p, st).messages[|p.messages|])
  {
    if Updating(st.content) { UpdateFindsItsRow(p, st.content); }
  }

  /** The table part. */
  lemma UndoneTablesResemble(x: map<string, seq<TableRow>>, p: map<string, seq<TableRow>>, m: ApiMessage, exact: bool)
    requires !Skipped(m.stamp.content) && StoredOn(p, m) && AllIncreasing(p)
    requires if exact then x == ExecuteEvent(p, m.stamp.content)
             else SameRowsEverywhere(x, ExecuteEvent(p, m.stamp.content))
    requires exact ==> Inserting(m.stamp.content) && m.stamp.content.category in p
    ensures RollbackRow(x, m).Some?
    ensures if exact then RollbackRow(x, m).value == p else SameRowsEverywhere(RollbackRow(x, m).value, p)
  {
    if exact {
      InsertedRowIsDropped(p, m);
    } else if Inserting(m.stamp.content) {
      UndoInsertKeepsRows(x, p, m);
    } else {
      UndoUpdateKeepsRows(x, p, m);
    }
  }

  /** What a rollback of one event that is not skipped gives. */
  lemma UndoneParts(x: ApiState, m: ApiMessage)
    requires !Skipped(m.stamp.content) && RollbackRow(x.tables, m).Some?
    ensures RollbackEvent(x, m) == Some(ApiState(
              DropMessage(x.messages, m.stamp.content.messageIndex), RollbackRow(x.tables, m).value,
              UpdateBalances(x.balances, m.stamp.content, -1),
              RollbackAddressEvents(x.addressEvents, m.stamp.content),
              RollbackExpiration(x.expirations, m.stamp.content)))
  {
  }

  /**
   * An event to be undone: it goes on from a log, in block n or above, and for exact tables inserts into a known one.
   */
  ghost predicate UndoneNext(p: ApiState, log: seq<Stamp>, st: Stamp, n: int, exact: bool) {
    && Replayed(log, p) && GoesOnWith(log, st) && st.content.blockIndex >= n
    && (exact ==> Inserting(st.content) && st.content.category in p.tables)
  }

  /** Undoing the last event leaves what the events before it gave. */
  ghost predicate UndoesTo(x: ApiState, p: ApiState, k: nat, n: int, exact: bool) {
    && |x.messages| == k + 1
    && var undone := RollbackEvent(x, x.messages[k]);
       undone.Some? && Resembles(undone.value, p, n, exact) && undone.value.messages == x.messages[..k]
  }

  lemma UndoSkipped(x: ApiState, p: ApiState, log: seq<Stamp>, st: Stamp, n: int, exact: bool)
    requires UndoneNext(p, log, st, n, exact) && Skipped(st.content) && Resembles(x, ParseEvent(p, st), n, exact)
    ensures UndoesTo(x, p, |log|, n, exact)
  {
    ParsedMessageIsDropped(p, st);
    ParseShape(p, st);
  }

  lemma UndoParsed(x: ApiState, p: ApiState, log: seq<Stamp>, st: Stamp, n: int, exact: bool)
    requires UndoneNext(p, log, st, n, exact) && !Skipped(st.content) && Resembles(x, ParseEvent(p, st), n, exact)
    ensures UndoesTo(x, p, |log|, n, exact)
  {
    var c := st.content;
    assert |p.messages| == |log|;
    ParseShape(p, st);
    ParsedMessageIsDropped(p, st);
    ParsedIsStored(p, st);
    UndoneTablesResemble(x.tables, p.tables, x.messages[|log|], exact);
    UndoneParts(x, x.messages[|log|]);
    UndoRestoresAddressEvents(p.addressEvents, c);
    UndoRestoresQuantities(x.balances, p.balances, c);
    ExpirationsStillResemble(x.expirations, p.expirations, c, n);
  }

  // ---------------------------------------------------------------- the whole loop

  lemma UndoLast(s: ApiState, log: seq<Stamp>, st: Stamp, x: ApiState, n: int, exact: bool)
    requires Fresh(s) && EventByEvent(log) && GoesOnWith(log, st) && st.content.blockIndex >= n
    requires exact ==> OnlyInserts(s, log) && Inserting(st.content) && st.content.category in s.tables
    requires Resembles(x, ParseEvent(ParseAll(s, log), st), n, exact)
    ensures UndoesTo(x, ParseAll(s, log), |log|, n, exact)
  {
    ParseAllReplays(s, log);
    if exact { InsertsKeepTables(s, log); }
    if Skipped(st.content) {
      UndoSkipped(x, ParseAll(s, log), log, st, n, exact);
    } else {
      UndoParsed(x, ParseAll(s, log), log, st, n, exact);
    }
  }

  lemma {:induction false} UndoLoop(s: ApiState, log: seq<Stamp>, x: ApiState, n: int, exact: bool)
    requires Fresh(s) && EventByEvent(log) && (exact ==> OnlyInserts(s, log))
    requires Resembles(x, ParseAll(s, log), n, exact)
    ensures RollbackEvents(x, n).Returns?
    ensures Resembles(RollbackEvents(x, n).api, ParseAll(s, StampsBelow(log, n)), n, exact)
    decreases |log|
  {
    if log == [] || log[|log| - 1].content.blockIndex < n {
      ParseAllReplays(s, log);
      LastIsHighest(log);
      UndoNone(x, log, n);
    } else {
      var k := |log| - 1;
      UndoLast(s, log[..k], log[k], x, n, exact);
      UndoFirst(x, k, n);
      UndoLoop(s, log[..k], RollbackEvent(x, x.messages[k]).value, n, exact);
    }
  }

  lemma {:induction false} BelowIsPrefix(log: seq<Stamp>, n: int)
    requires EventByEvent(log)
    ensures EventByEvent(StampsBelow(log, n))
    ensures forall i :: 0 <= i < |StampsBelow(log, n)| ==> StampsBelow(log, n)[i].content.blockIndex < n
  {
    if log == [] || log[|log| - 1].content.blockIndex < n {
      LastIsHighest(log);
      AllBelow(log, n);
    } else {
      BelowIsPrefix(log[..|log| - 1], n);
    }
  }

  lemma {:induction false} EventsAreProper(log: seq<Stamp>, i: nat)
    requires EventByEvent(log) && i < |log|
    ensures ProperExpiration(log[i].content)
  {
    if i < |log| - 1 { EventsAreProper(log[..|log| - 1], i); }
  }

  lemma BelowHasOnlyLowExpirations(s: ApiState, log: seq<Stamp>, n: int)
    requires Fresh(s) && EventByEvent(log)
    ensures forall e :: e in ParseAll(s, StampsBelow(log, n)).expirations ==> ExpirationBelow(e, n)
  {
    BelowIsPrefix(log, n);
    var kept := StampsBelow(log, n);
    ParseAllReplays(s, kept);
    forall e | e in ParseAll(s, kept).expirations
      ensures ExpirationBelow(e, n)
    {
      assert FromLog(kept, e);
      var i :| 0 <= i < |kept| && ExpirationOf(kept[i].content) == Some(e);
      EventsAreProper(kept, i);
    }
  }

  /** Everything but the columns of rows. */
  ghost predicate SameButColumns(a: ApiState, b: ApiState) {
    && a.messages == b.messages && a.addressEvents == b.addressEvents && a.expirations == b.expirations
    && SameQuantities(a.balances, b.balances) && SameRowsEverywhere(a.tables, b.tables)
  }

  lemma ResemblingIsSame(a: ApiState, b: ApiState, n: int, exact: bool)
    requires Resembles(a, b, n, exact) && forall e :: e in b.expirations ==> ExpirationBelow(e, n)
    ensures SameButColumns(a, b) && (exact ==> a.tables == b.tables)
  {
    AllExpirationsBelow(b.expirations, n);
    AllExpirationsBelow(a.expirations, n);
  }

  /**
   * After any log the ledger writes, with its updates, parse events and skipped events, `rollback_events(n)` does not
   * raise and leaves the same messages, address events, expirations and quantities, and in every table the same rows
   * with the same rowids and keys, as parsing only the events below block n.
   */
  lemma RollbackEventsForgetsBlocks(s: ApiState, log: seq<Stamp>, n: int)
    requires Fresh(s) && LedgerLog(log)
    ensures RollbackEvents(ParseAll(s, log), n).Returns?
    ensures SameButColumns(RollbackEvents(ParseAll(s, log), n).api, ParseAll(s, StampsBelow(log, n)))
  {
    LedgerLogGrows(log);
    UndoLoop(s, log, ParseAll(s, log), n, false);
    BelowHasOnlyLowExpirations(s, log, n);
    ResemblingIsSame(RollbackEvents(ParseAll(s, log), n).api, ParseAll(s, StampsBelow(log, n)), n, false);
  }

  /** When the log has only insert events, the rows are the same in all their columns. */
  lemma RollbackOfInsertsIsExact(s: ApiState, log: seq<Stamp>, n: int)
    requires Fresh(s) && LedgerLog(log) && OnlyInserts(s, log)
    ensures RollbackEvents(ParseAll(s, log), n).Returns?
    ensures var undone, below := RollbackEvents(ParseAll(s, log), n).api, ParseAll(s, StampsBelow(log, n));
            SameButColumns(undone, below) && undone.tables == below.tables
  {
    LedgerLogGrows(log);
    UndoLoop(s, log, ParseAll(s, log), n, true);
    BelowHasOnlyLowExpirations(s, log, n);
    ResemblingIsSame(RollbackEvents(ParseAll(s, log), n).api, ParseAll(s, StampsBelow(log, n)), n, true);
  }
}
