/** Following a ledger that grows and reorganises: the API log is cut back to the common prefix, never further. */
module WatcherProtocol {
  import opened Records
  import opened Journal
  import opened ApiWatcher

  // ---------------------------------------------------------------- logs the ledger writes

  predicate Skipped(c: Content) { Skips(c.event) }

  predicate Inserting(c: Content) { !Skipped(c) && c.command.Insert? }

  predicate Updating(c: Content) { !Skipped(c) && !c.command.Insert? }

  /** An update event names its row by the key columns of its table, in its bindings. */
  predicate WellFormedUpdate(c: Content) {
    && UpdateIds(c.event) == TableKeys(c.category)
    && forall f :: f in TableKeys(c.category) ==>
         Cell(c.bindings, f) != Null && Cell(RowColumns(c), f) == Cell(c.bindings, f)
  }

  predicate SameKeys(a: Record, b: Record, keys: seq<string>) {
    forall f :: f in keys ==> Cell(a, f) == Cell(b, f)
  }

  /** An event of the log inserted a row with these keys. */
  predicate WasInserted(log: seq<Stamp>, table: string, r: Record) {
    exists j :: 0 <= j < |log| && Inserting(log[j].content) && log[j].content.category == table
                && SameKeys(RowColumns(log[j].content), r, TableKeys(table))
  }

  /** The row an update event changes was inserted by an earlier event. */
  predicate HasTarget(log: seq<Stamp>, c: Content) {
    WasInserted(log, c.category, c.bindings)
  }

  predicate WellFormedAt(log: seq<Stamp>, i: nat)
    requires i < |log|
  {
    Updating(log[i].content) ==> WellFormedUpdate(log[i].content) && HasTarget(log[..i], log[i].content)
  }

  ghost predicate WellFormedLog(log: seq<Stamp>) {
    forall i :: 0 <= i < |log| ==> WellFormedAt(log, i)
  }

  // ---------------------------------------------------------------- what the API keeps true

  predicate Increasing(rows: seq<TableRow>) {
    forall i, j :: 0 <= i < j < |rows| ==> rows[i].rowid < rows[j].rowid
  }

  predicate RowFor(row: TableRow, m: ApiMessage) {
    && m.insertRowid == Some(row.rowid)
    && SameKeys(row.columns, RowColumns(m.stamp.content), TableKeys(m.stamp.content.category))
  }

  /** What undoing a stored message will need. */
  ghost predicate Undoable(tables: map<string, seq<TableRow>>, m: ApiMessage) {
    var c := m.stamp.content;
    && (Inserting(c) ==> m.previousState.None? && exists k ::
         0 <= k < |RowsOf(tables, c.category)| && RowFor(RowsOf(tables, c.category)[k], m))
    && (Updating(c) ==> m.previousState.Some? && UpdateIds(c.event) == TableKeys(c.category))
  }

  /** Rows of one table were given increasing rowids in log order. */
  predicate OrderedRowids(messages: seq<ApiMessage>) {
    forall i, j ::
      0 <= i < j < |messages| && Inserting(messages[i].stamp.content) && Inserting(messages[j].stamp.content)
                   && messages[i].stamp.content.category == messages[j].stamp.content.category
                   && messages[i].insertRowid.Some? && messages[j].insertRowid.Some? ==>
                     messages[i].insertRowid.value < messages[j].insertRowid.value
  }

  ghost predicate Sound(s: ApiState) {
    && Chained(ApiStamps(s.messages))
    && AllIncreasing(s.tables)
    && OrderedRowids(s.messages)
    && (forall i :: 0 <= i < |s.messages| ==> Undoable(s.tables, s.messages[i]))
  }

  // ---------------------------------------------------------------- one event parsed or undone

  lemma {:induction false} FirstMatchFinds(rows: seq<TableRow>, ids: seq<string>, wanted: Record, k: nat)
    requires k < |rows| && Matches(rows[k].columns, ids, wanted)
    ensures FirstMatch(rows, ids, wanted).Some?
  {
    if !Matches(rows[0].columns, ids, wanted) {
      FirstMatchFinds(rows[1..], ids, wanted, k - 1);
    }
  }

  /** UPDATE leaves rowids and key columns alone, so every message stays undoable. */
  lemma UpdateKeepsUndoable(tables: map<string, seq<TableRow>>, category: string, wanted: Record, sets: Record,
                            m: ApiMessage)
    requires Undoable(tables, m)
    requires forall f :: f in TableKeys(category) ==> f !in sets
    ensures Undoable(tables[category := UpdateRows(RowsOf(tables, category), TableKeys(category), wanted, sets)], m)
  {
    var c := m.stamp.content;
    var changed := tables[category := UpdateRows(RowsOf(tables, category), TableKeys(category), wanted, sets)];
    if Inserting(c) {
      var k :| 0 <= k < |RowsOf(tables, c.category)| && RowFor(RowsOf(tables, c.category)[k], m);
      assert RowFor(RowsOf(changed, c.category)[k], m);
    }
  }

  lemma ParseInsertKeepsUndoable(tables: map<string, seq<TableRow>>, c: Content, m: ApiMessage)
    requires Inserting(c) && Undoable(tables, m)
    ensures Undoable(ExecuteEvent(tables, c), m)
  {
    var d := m.stamp.content;
    if Inserting(d) {
      var k :| 0 <= k < |RowsOf(tables, d.category)| && RowFor(RowsOf(tables, d.category)[k], m);
      assert RowFor(RowsOf(ExecuteEvent(tables, c), d.category)[k], m);
    }
  }

  /** The row of an update event is there, so its message is stored with a previous state. */
  lemma UpdateFindsItsRow(s: ApiState, c: Content)
    requires Sound(s) && Updating(c) && WellFormedUpdate(c) && HasTarget(ApiStamps(s.messages), c)
    ensures PreviousState(ExecuteEvent(s.tables, c), c).Some?
  {
    var k := TargetRow(s, c);
    UpdatedRowStillMatches(RowsOf(s.tables, c.category), TableKeys(c.category), RowColumns(c), c.bindings, k);
  }

  lemma TargetRow(s: ApiState, c: Content) returns (k: nat)
    requires Sound(s) && HasTarget(ApiStamps(s.messages), c)
    ensures k < |RowsOf(s.tables, c.category)|
    ensures SameKeys(RowsOf(s.tables, c.category)[k].columns, c.bindings, TableKeys(c.category))
  {
    var j :| 0 <= j < |s.messages| && Inserting(ApiStamps(s.messages)[j].content)
      && s.messages[j].stamp.content.category == c.category
             && SameKeys(RowColumns(s.messages[j].stamp.content), c.bindings, TableKeys(c.category));
    assert Undoable(s.tables, s.messages[j]);
    k :| 0 <= k < |RowsOf(s.tables, c.category)| && RowFor(RowsOf(s.tables, c.category)[k], s.messages[j]);
  }

  lemma UpdatedRowStillMatches(rows: seq<TableRow>, keys: seq<string>, wanted: Record, bindings: Record, k: nat)
    requires k < |rows| && SameKeys(rows[k].columns, bindings, keys)
    requires forall f :: f in keys ==> Cell(bindings, f) != Null
    ensures FirstMatch(UpdateRows(rows, keys, wanted, Without(wanted, keys)), keys, bindings).Some?
  {
    FirstMatchFinds(UpdateRows(rows, keys, wanted, Without(wanted, keys)), keys, bindings, k);
  }

  lemma RowidsBelowNext(rows: seq<TableRow>, k: nat)
    requires Increasing(rows) && k < |rows|
    ensures rows[k].rowid < NextRowid(rows)
  {
  }

  lemma ParseKeepsOrder(s: ApiState, st: Stamp)
    requires Sound(s)
    ensures OrderedRowids(ParseEvent(s, st).messages)
  {
    var c, s' := st.content, ParseEvent(s, st);
    if Inserting(c) {
      forall i | 0 <= i < |s.messages| && Inserting(s.messages[i].stamp.content)
        && s.messages[i].stamp.content.category == c.category
                 && s.messages[i].insertRowid.Some?
        ensures s.messages[i].insertRowid.value < NextRowid(RowsOf(s.tables, c.category))
      {
        assert Undoable(s.tables, s.messages[i]);
        var k :| 0 <= k < |RowsOf(s.tables, c.category)| && RowFor(RowsOf(s.tables, c.category)[k], s.messages[i]);
        RowidsBelowNext(RowsOf(s.tables, c.category), k);
      }
    }
  }

  lemma ParseKeepsUndoable(s: ApiState, st: Stamp)
    requires Sound(s)
    requires Updating(st.content) ==> WellFormedUpdate(st.content) && HasTarget(ApiStamps(s.messages), st.content)
    ensures forall i :: 0 <= i < |ParseEvent(s, st).messages| ==>
              Undoable(ParseEvent(s, st).tables, ParseEvent(s, st).messages[i])
  {
    var c, s' := st.content, ParseEvent(s, st);
    forall i | 0 <= i < |s'.messages|
      ensures Undoable(s'.tables, s'.messages[i])
    {
      if i < |s.messages| {
        assert s'.messages[i] == s.messages[i] && Undoable(s.tables, s.messages[i]);
        if Inserting(c) {
          ParseInsertKeepsUndoable(s.tables, c, s.messages[i]);
        } else if Updating(c) {
          UpdateKeepsUndoable(s.tables, c.category, RowColumns(c), Without(RowColumns(c), UpdateIds(c.event)),
                              s.messages[i]);
        }
      } else if Inserting(c) {
        var rows := RowsOf(s'.tables, c.category);
        assert RowFor(rows[|rows| - 1], s'.messages[i]);
      } else if Updating(c) {
        UpdateFindsItsRow(s, c);
      }
    }
  }

  ghost predicate AllIncreasing(tables: map<string, seq<TableRow>>) {
    forall t :: t in tables ==> Increasing(tables[t])
  }

  lemma ExecuteKeepsIncreasing(tables: map<string, seq<TableRow>>, c: Content)
    requires AllIncreasing(tables)
    ensures AllIncreasing(ExecuteEvent(tables, c))
  {
    var rows := RowsOf(tables, c.category);
    assert Increasing(rows);
    forall k | 0 <= k < |rows|
      ensures rows[k].rowid < NextRowid(rows)
    {
      RowidsBelowNext(rows, k);
    }
  }

  lemma ParseShape(s: ApiState, st: Stamp)
    ensures var s' := ParseEvent(s, st);
            && |s'.messages| == |s.messages| + 1 && s'.messages[..|s.messages|] == s.messages
            && s'.messages[|s.messages|].stamp == st
            && ApiStamps(s'.messages) == ApiStamps(s.messages) + [st]
            && s'.tables == if Skipped(st.content) then s.tables else ExecuteEvent(s.tables, st.content)
  {
    assert ApiStamps(ParseEvent(s, st).messages) == ApiStamps(s.messages) + [st];
  }

  lemma ParseKeepsSound(s: ApiState, st: Stamp)
    requires Sound(s) && Chained(ApiStamps(s.messages) + [st])
    requires Updating(st.content) ==> WellFormedUpdate(st.content) && HasTarget(ApiStamps(s.messages), st.content)
    ensures Sound(ParseEvent(s, st))
    ensures ApiStamps(ParseEvent(s, st).messages) == ApiStamps(s.messages) + [st]
  {
    ParseShape(s, st);
    ParseKeepsOrder(s, st);
    ParseKeepsUndoable(s, st);
    ExecuteKeepsIncreasing(s.tables, st.content);
  }

  lemma {:induction false} DropRowidKeeps(rows: seq<TableRow>, rowid: nat)
    requires Increasing(rows)
    ensures Increasing(DropRowid(rows, rowid))
    ensures forall r :: r in DropRowid(rows, rowid) <==> r in rows && r.rowid != rowid
  {
    if rows != [] {
      var rest, last := rows[..|rows| - 1], rows[|rows| - 1];
      DropRowidKeeps(rest, rowid);
      assert forall r :: r in rows <==> r in rest || r == last;
      forall i | 0 <= i < |DropRowid(rest, rowid)|
        ensures DropRowid(rest, rowid)[i].rowid < last.rowid
      {
        assert DropRowid(rest, rowid)[i] in rest;
      }
    }
  }

  lemma {:induction false} DropLastMessage(messages: seq<ApiMessage>)
    requires messages != [] && Chained(ApiStamps(messages))
    ensures DropMessage(messages, |messages| - 1) == messages[..|messages| - 1]
  {
    DropMissing(messages[..|messages| - 1], |messages| - 1, messages);
    assert ApiStamps(messages)[|messages| - 1].content.messageIndex == |messages| - 1;
  }

  lemma {:induction false} DropMissing(part: seq<ApiMessage>, index: nat, messages: seq<ApiMessage>)
    requires Chained(ApiStamps(messages)) && part <= messages && |part| <= index
    ensures DropMessage(part, index) == part
  {
    if part != [] {
      DropMissing(part[..|part| - 1], index, messages);
      assert ApiStamps(messages)[|part| - 1].content.messageIndex == |part| - 1;
    }
  }

  lemma StaysAt(rows: seq<TableRow>, rowid: nat, row: TableRow) returns (k: nat)
    requires Increasing(rows) && row in rows && row.rowid != rowid
    ensures k < |DropRowid(rows, rowid)| && DropRowid(rows, rowid)[k] == row
  {
    DropRowidKeeps(rows, rowid);
    k :| 0 <= k < |DropRowid(rows, rowid)| && DropRowid(rows, rowid)[k] == row;
  }

  lemma DropKeepsUndoable(tables: map<string, seq<TableRow>>, category: string, rowid: nat, m: ApiMessage)
    requires Undoable(tables, m) && Increasing(RowsOf(tables, category))
    requires Inserting(m.stamp.content) && m.stamp.content.category == category ==> m.insertRowid != Some(rowid)
    ensures Undoable(tables[category := DropRowid(RowsOf(tables, category), rowid)], m)
  {
    var c := m.stamp.content;
    var dropped := tables[category := DropRowid(RowsOf(tables, category), rowid)];
    if Inserting(c) {
      var rows := RowsOf(tables, c.category);
      var k :| 0 <= k < |rows| && RowFor(rows[k], m);
      if c.category == category {
        var k' := StaysAt(rows, rowid, rows[k]);
        assert RowFor(RowsOf(dropped, c.category)[k'], m);
      } else {
        assert RowFor(RowsOf(dropped, c.category)[k], m);
      }
    }
  }

  /** The tables once the change of message m is undone. */
  function UndoneTables(tables: map<string, seq<TableRow>>, m: ApiMessage): map<string, seq<TableRow>> {
    if Skipped(m.stamp.content) then tables
    else
      match RollbackRow(tables, m)
      case None => tables
      case Some(undone) => undone
  }

  lemma UndoSucceeds(s: ApiState, m: ApiMessage)
    requires Undoable(s.tables, m)
    ensures RollbackEvent(s, m).Some?
    ensures RollbackEvent(s, m).value.tables == UndoneTables(s.tables, m)
    ensures RollbackEvent(s, m).value.messages == DropMessage(s.messages, m.stamp.content.messageIndex)
  {
  }

  lemma UndoneStaysIncreasing(tables: map<string, seq<TableRow>>, m: ApiMessage)
    requires AllIncreasing(tables)
    ensures AllIncreasing(UndoneTables(tables, m))
  {
    var rows := RowsOf(tables, m.stamp.content.category);
    if m.insertRowid.Some? {
      DropRowidKeeps(rows, m.insertRowid.value);
    }
  }

  lemma UndoneKeepsUndoable(tables: map<string, seq<TableRow>>, m: ApiMessage, earlier: ApiMessage)
    requires AllIncreasing(tables) && Undoable(tables, m) && Undoable(tables, earlier)
    requires OrderedRowids([earlier, m])
    ensures Undoable(UndoneTables(tables, m), earlier)
  {
    var c := m.stamp.content;
    assert [earlier, m][0] == earlier && [earlier, m][1] == m;
    if Inserting(c) {
      DropKeepsUndoable(tables, c.category, m.insertRowid.value, earlier);
    } else if Updating(c) {
      var previous := m.previousState.value;
      UpdateKeepsUndoable(tables, c.category, previous, Without(previous, UpdateIds(c.event)), earlier);
    }
  }

  lemma EarlierStayUndoable(s: ApiState, n: nat)
    requires Sound(s) && n + 1 == |s.messages|
    ensures forall i :: 0 <= i < n ==> Undoable(UndoneTables(s.tables, s.messages[n]), s.messages[i])
  {
    var m := s.messages[n];
    assert Undoable(s.tables, m);
    forall i | 0 <= i < n
      ensures Undoable(UndoneTables(s.tables, m), s.messages[i])
    {
      assert Undoable(s.tables, s.messages[i]);
      assert OrderedRowids([s.messages[i], m]);
      UndoneKeepsUndoable(s.tables, m, s.messages[i]);
    }
  }

  lemma ShorterIsSound(s: ApiState, s': ApiState, n: nat)
    requires Sound(s) && n < |s.messages| && s'.messages == s.messages[..n]
    requires AllIncreasing(s'.tables) && forall i :: 0 <= i < n ==> Undoable(s'.tables, s.messages[i])
    ensures Sound(s')
  {
    assert ApiStamps(s'.messages) == ApiStamps(s.messages)[..n];
    PrefixKeepsChain(ApiStamps(s.messages), n);
  }

  /** Undoing the last message never raises and leaves the API sound for the messages before it. */
  lemma UndoLastKeepsSound(s: ApiState)
    requires Sound(s) && s.messages != []
    ensures var undone := RollbackEvent(s, s.messages[|s.messages| - 1]);
            && undone.Some? && Sound(undone.value)
            && undone.value.messages == s.messages[..|s.messages| - 1]
  {
    var n := |s.messages| - 1;
    assert ApiStamps(s.messages)[n].content.messageIndex == n;
    DropLastMessage(s.messages);
    assert Undoable(s.tables, s.messages[n]);
    UndoSucceeds(s, s.messages[n]);
    UndoneStaysIncreasing(s.tables, s.messages[n]);
    EarlierStayUndoable(s, n);
    ShorterIsSound(s, RollbackEvent(s, s.messages[n]).value, n);
  }

  // ---------------------------------------------------------------- cutting back and catching up

  lemma {:induction false} FindStampInChain(log: seq<Stamp>, index: nat)
    requires Chained(log)
    ensures FindStamp(log, index) == if index < |log| then Some(log[index]) else None
  {
    if log != [] && index != |log| - 1 {
      PrefixKeepsChain(log, |log| - 1);
      FindStampInChain(log[..|log| - 1], index);
    }
  }

  lemma PrefixDiffersAtEnd(a: seq<Stamp>, log: seq<Stamp>)
    requires a != [] && (|a| > |log| || a[|a| - 1] != log[|a| - 1])
    ensures CommonPrefix(a[..|a| - 1], log) == CommonPrefix(a, log)
  {
    var rest := a[..|a| - 1];
    var k, k' := CommonPrefix(a, log), CommonPrefix(rest, log);
    assert forall i :: 0 <= i < |rest| ==> rest[i] == a[i];
  }

  /** A last message with the ledger's hash: the whole API log is a prefix of the ledger log. */
  lemma AgreeingLogIsPrefix(a: seq<Stamp>, log: seq<Stamp>)
    requires Chained(a) && Chained(log) && a != [] && |a| <= |log| && log[|a| - 1].eventHash == a[|a| - 1].eventHash
    ensures a == log[..CommonPrefix(a, log)]
  {
    EqualHashEqualPrefix(a, log, |a| - 1);
    assert a[..|a|] == a == log[..|a|];
    assert forall i :: 0 <= i < |a| ==> a[i] == log[..|a|][i] == log[i];
  }

  /** Both logs begin with the same message, or the API has none. */
  predicate SharesFirst(messages: seq<ApiMessage>, log: seq<Stamp>) {
    messages != [] ==> log != [] && messages[0].stamp == log[0]
  }

  /** A last message the ledger does not have like that is undone, and cutting back goes on from there or raises. */
  lemma CutBackGoesOn(s: ApiState, log: seq<Stamp>) returns (undone: ApiState)
    requires Sound(s) && s.messages != []
    requires var last := s.messages[|s.messages| - 1].stamp; var found := FindStamp(log, last.content.messageIndex);
             found.None? || found.value.eventHash != last.eventHash
    ensures Sound(undone) && undone.messages == s.messages[..|s.messages| - 1]
    ensures CutBack(s, log) == if undone.messages == [] then Raises(undone) else CutBack(undone, log)
  {
    UndoLastKeepsSound(s);
    undone := RollbackEvent(s, s.messages[|s.messages| - 1]).value;
  }

  /** The longest common prefix is left; a raise means that message 0 was there and not shared. */
  ghost predicate CutsToCommonPrefix(before: ApiState, outcome: Outcome, log: seq<Stamp>) {
    && Sound(outcome.api)
    && ApiStamps(outcome.api.messages) == log[..CommonPrefix(ApiStamps(before.messages), log)]
    && (outcome.Raises? <==> !SharesFirst(before.messages, log))
  }

  lemma AgreeingLogStays(s: ApiState, log: seq<Stamp>)
    requires Sound(s) && Chained(log) && s.messages != [] && |s.messages| <= |log|
    requires log[|s.messages| - 1].eventHash == s.messages[|s.messages| - 1].stamp.eventHash
    ensures CutsToCommonPrefix(s, Returns(s), log)
  {
    var a := ApiStamps(s.messages);
    AgreeingLogIsPrefix(a, log);
    assert a[0] == log[..CommonPrefix(a, log)][0] == log[0];
  }

  lemma UndoneLogCutsAlike(s: ApiState, undone: ApiState, outcome: Outcome, log: seq<Stamp>)
    requires s.messages != [] && undone.messages == s.messages[..|s.messages| - 1]
    requires |s.messages| > |log| || s.messages[|s.messages| - 1].stamp != log[|s.messages| - 1]
    requires if undone.messages == [] then outcome == Raises(undone) && Sound(undone)
             else CutsToCommonPrefix(undone, outcome, log)
    ensures CutsToCommonPrefix(s, outcome, log)
  {
    var a, n := ApiStamps(s.messages), |s.messages| - 1;
    assert ApiStamps(undone.messages) == a[..n];
    PrefixDiffersAtEnd(a, log);
    if n > 0 { assert undone.messages[0] == s.messages[0]; }
  }

  /**
   * `check_event_hashes` leaves exactly the longest common prefix of the two logs, and raises exactly when the
   * API log is not empty and does not share its first message.
   */
  lemma {:induction false} CutBackToCommonPrefix(s: ApiState, log: seq<Stamp>)
    requires Sound(s) && Chained(log)
    ensures CutsToCommonPrefix(s, CutBack(s, log), log)
    decreases |s.messages|
  {
    if s.messages != [] {
      var n := |s.messages| - 1;
      assert ApiStamps(s.messages)[n].content.messageIndex == n;
      FindStampInChain(log, n);
      if n < |log| && log[n].eventHash == s.messages[n].stamp.eventHash {
        AgreeingLogStays(s, log);
      } else {
        var undone := CutBackGoesOn(s, log);
        if n > 0 { CutBackToCommonPrefix(undone, log); }
        UndoneLogCutsAlike(s, undone, CutBack(s, log), log);
      }
    }
  }

  lemma NextIsTheNext(cut: ApiState, log: seq<Stamp>, k: nat)
    requires Chained(log) && k <= |log| && ApiStamps(cut.messages) == log[..k]
    ensures NextAfter(cut.messages, log) == if k < |log| then Some(log[k]) else None
  {
    if k > 0 { assert ApiStamps(cut.messages)[k - 1].content.messageIndex == k - 1; }
    FindStampInChain(log, k);
  }

  lemma ParseKeepsPrefix(cut: ApiState, log: seq<Stamp>, k: nat)
    requires Sound(cut) && Chained(log) && WellFormedLog(log) && k < |log| && ApiStamps(cut.messages) == log[..k]
    ensures Sound(ParseEvent(cut, log[k])) && ApiStamps(ParseEvent(cut, log[k]).messages) == log[..k + 1]
  {
    assert WellFormedAt(log, k);
    assert log[..k + 1] == log[..k] + [log[k]];
    PrefixKeepsChain(log, k + 1);
    ParseKeepsSound(cut, log[k]);
  }

  lemma ExtendPrefix(cut: ApiState, log: seq<Stamp>, k: nat)
    requires Sound(cut) && Chained(log) && WellFormedLog(log)
    requires k <= |log| && ApiStamps(cut.messages) == log[..k]
    ensures Sound(ParseNextEvent(cut, log))
    ensures ApiStamps(ParseNextEvent(cut, log).messages) == log[..Least(k + 1, |log|)]
  {
    NextIsTheNext(cut, log, k);
    if k < |log| { ParseKeepsPrefix(cut, log, k); }
  }

  /** What one call does: cut the API log back to the common prefix and go one on, or raise with an empty log. */
  ghost predicate ExtendsCommonPrefix(before: ApiState, outcome: Outcome, log: seq<Stamp>) {
    && Sound(outcome.api)
    && (outcome.Raises? <==> !SharesFirst(before.messages, log))
    && ApiStamps(outcome.api.messages) ==
       if outcome.Raises? then [] else log[..Least(CommonPrefix(ApiStamps(before.messages), log) + 1, |log|)]
  }

  lemma NothingShared(messages: seq<ApiMessage>, log: seq<Stamp>)
    ensures !SharesFirst(messages, log) ==> CommonPrefix(ApiStamps(messages), log) == 0
  {
  }

  /**
   * Each `parse_next_event` first cuts the API log back to the common prefix with the ledger log and
   * then adds the next ledger event, if there is one; it raises exactly when message 0 is not shared.
   */
  lemma ParseNextExtendsCommonPrefix(s: ApiState, log: seq<Stamp>)
    requires Sound(s) && Chained(log) && WellFormedLog(log)
    ensures ExtendsCommonPrefix(s, ParseNext(s, log), log)
  {
    CutBackToCommonPrefix(s, log);
    if CutBack(s, log).Raises? {
      NothingShared(s.messages, log);
    } else {
      ExtendPrefix(CutBack(s, log).api, log, CommonPrefix(ApiStamps(s.messages), log));
    }
  }

  /** After a raise the API log is empty, and a call on an empty log returns whatever the ledger log is by then. */
  lemma CallAfterRaiseReturns(s: ApiState, log: seq<Stamp>, log': seq<Stamp>)
    requires Sound(s) && Chained(log) && WellFormedLog(log) && ParseNext(s, log).Raises?
    ensures ParseNext(ParseNext(s, log).api, log').Returns?
  {
    ParseNextExtendsCommonPrefix(s, log);
    assert |ApiStamps(ParseNext(s, log).api.messages)| == 0;
  }

  /** Calls one after the other; a raise leaves a state that the next call goes on from. */
  function ParseNextTimes(s: ApiState, log: seq<Stamp>, n: nat): ApiState {
    if n == 0 then s else ParseNext(ParseNextTimes(s, log, n - 1), log).api
  }

  lemma CommonPrefixOfPrefix(messages: seq<ApiMessage>, log: seq<Stamp>, k: nat)
    requires k <= |log| && ApiStamps(messages) == log[..k]
    ensures CommonPrefix(ApiStamps(messages), log) == k && SharesFirst(messages, log)
  {
    assert forall i :: 0 <= i < k ==> log[..k][i] == log[i];
    if messages != [] { assert ApiStamps(messages)[0] == log[0]; }
  }

  /** One when message 0 is there and not shared, that is, when the next call raises. */
  function Unshared(messages: seq<ApiMessage>, log: seq<Stamp>): nat {
    if SharesFirst(messages, log) then 0 else 1
  }

  /** How many events n > 0 quiet calls leave: one more for each call that did not raise. */
  function Reached(s: ApiState, log: seq<Stamp>, n: nat): nat
    requires n > 0
  {
    Least(CommonPrefix(ApiStamps(s.messages), log) + n - Unshared(s.messages, log), |log|)
  }

  /** A state that n > 0 quiet calls have led to, and from which no further quiet call raises. */
  ghost predicate QuietState(s: ApiState, after: ApiState, log: seq<Stamp>, n: nat)
    requires n > 0
  {
    && Sound(after)
    && ApiStamps(after.messages) == log[..Reached(s, log, n)]
    && ParseNext(after, log).Returns?
  }

  lemma NextReturns(s: ApiState, log: seq<Stamp>, k: nat)
    requires Sound(s) && Chained(log) && WellFormedLog(log) && k <= |log| && ApiStamps(s.messages) == log[..k]
    ensures ParseNext(s, log).Returns?
  {
    CommonPrefixOfPrefix(s.messages, log, k);
    ParseNextExtendsCommonPrefix(s, log);
  }

  lemma OneCallMore(s: ApiState, before: ApiState, log: seq<Stamp>, n: nat)
    requires Chained(log) && WellFormedLog(log) && n > 0 && QuietState(s, before, log, n)
    ensures QuietState(s, ParseNext(before, log).api, log, n + 1)
  {
    CommonPrefixOfPrefix(before.messages, log, Reached(s, log, n));
    ParseNextExtendsCommonPrefix(before, log);
    NextReturns(ParseNext(before, log).api, log, Reached(s, log, n + 1));
  }

  lemma FirstCall(s: ApiState, log: seq<Stamp>)
    requires Sound(s) && Chained(log) && WellFormedLog(log)
    ensures QuietState(s, ParseNext(s, log).api, log, 1)
  {
    ParseNextExtendsCommonPrefix(s, log);
    NothingShared(s.messages, log);
    NextReturns(ParseNext(s, log).api, log, Reached(s, log, 1));
  }

  /**
   * With the ledger quiet, n calls bring the API log to the common prefix plus one event for each call. Only the
   * first may raise, when message 0 is not shared, and costs one call; from then on every call returns.
   */
  lemma {:induction false} QuietCallsExtend(s: ApiState, log: seq<Stamp>, n: nat)
    requires Sound(s) && Chained(log) && WellFormedLog(log) && n > 0
    ensures QuietState(s, ParseNextTimes(s, log, n), log, n)
  {
    if n == 1 {
      assert ParseNextTimes(s, log, 0) == s;
      FirstCall(s, log);
    } else {
      QuietCallsExtend(s, log, n - 1);
      OneCallMore(s, ParseNextTimes(s, log, n - 1), log, n - 1);
    }
  }

  /**
   * n quiet calls leave equal logs exactly when n is at least as much as the ledger log is longer than the common
   * prefix, and one more when message 0 is not shared.
   */
  lemma QuietLedgerIsCaughtUp(s: ApiState, log: seq<Stamp>, n: nat)
    requires Sound(s) && Chained(log) && WellFormedLog(log) && n > 0
    ensures ApiStamps(ParseNextTimes(s, log, n).messages) == log <==>
            n >= |log| - CommonPrefix(ApiStamps(s.messages), log) + Unshared(s.messages, log)
  {
    QuietCallsExtend(s, log, n);
    assert log[..|log|] == log;
  }
}
