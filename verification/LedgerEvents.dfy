/** What the ledger journals about rows: every update event names a row that an earlier event inserted. */
module LedgerEvents {
  import opened Records
  import opened Journal
  import opened Ledger
  import opened LedgerRollback
  import opened BalanceJournal
  import opened ApiWatcher
  import opened WatcherProtocol
  import opened LatestRows

  /** Every row of a table that update events change has its insert event. */
  ghost predicate RowsWereInserted(s: State) {
    forall t, r :: t in s.tables && TableKeys(t) != [] && r in s.tables[t] ==> WasInserted(Stamps(s.messages), t, r)
  }

  /** An event that gives the watcher the keys of a row. */
  predicate Names(event: string, bindings: Record, b: int, table: string, row: Record) {
    && TableKeys(table) != [] && UpdateIds(event) == TableKeys(table)
    && SameKeys(EventColumns(bindings, b), bindings, TableKeys(table)) && SameKeys(row, bindings, TableKeys(table))
    && forall f :: f in TableKeys(table) ==> Cell(bindings, f) != Null
  }

  /**
   * An insert journals the keys of its row; an update, appended or in place, leaves the keys of rows alone and
   * journals those of a row of the table.
   */
  ghost predicate Announced(s: State, env: Env, op: Op) {
    match op
    case InsertRecord(table, record, event, info) =>
      TableKeys(table) == []
      || (!Skips(event) && SameKeys(EventColumns(record + info, env.blockIndex), record, TableKeys(table)))
    case InsertUpdate(table, idName, idValue, data, event, info) =>
      table in s.tables && FindRow(s.tables[table], idName, idValue).Some? ==>
        var row := FindRow(s.tables[table], idName, idValue).value;
        && SameKeys(UpdatedRow(row, data, env.blockIndex), row, TableKeys(table))
        && (Skips(event) || Names(event, UpdatePayload(idName, idValue, data, info), env.blockIndex, table, row))
    case Seal(table, _, _, sets, event, bindings) =>
      table in s.tables ==>
        && (forall f :: f in TableKeys(table) ==> f !in sets)
        && (Skips(event) || exists row :: row in s.tables[table] && Names(event, bindings, env.blockIndex, table, row))
    case _ => true
  }

  /** Every call of the run is announced. */
  ghost predicate AllAnnounced(s: State, calls: seq<Call>) {
    calls == [] ||
    var rest, last := calls[..|calls| - 1], calls[|calls| - 1];
    AllAnnounced(s, rest) && Announced(RunCalls(s, rest), last.env, last.op)
  }

  /** The log is one the watcher can follow, and goes on being one. */
  ghost predicate Followable(s: State) {
    WellFormedLog(Stamps(s.messages)) && RowsWereInserted(s)
  }

  lemma StillInserted(log: seq<Stamp>, st: Stamp, table: string, r: Record, r': Record)
    requires WasInserted(log, table, r) && SameKeys(r', r, TableKeys(table))
    ensures WasInserted(log + [st], table, r')
  {
    var j :| 0 <= j < |log| && Inserting(log[j].content) && log[j].content.category == table
             && SameKeys(RowColumns(log[j].content), r, TableKeys(table));
    assert (log + [st])[j] == log[j];
  }

  lemma NewlyInserted(log: seq<Stamp>, st: Stamp, r: Record)
    requires Inserting(st.content) && SameKeys(RowColumns(st.content), r, TableKeys(st.content.category))
    ensures WasInserted(log + [st], st.content.category, r)
  {
    assert (log + [st])[|log|] == st;
  }

  lemma NamedRowIsTarget(log: seq<Stamp>, c: Content, row: Record)
    requires Names(c.event, c.bindings, c.blockIndex, c.category, row) && WasInserted(log, c.category, row)
    ensures WellFormedUpdate(c) && HasTarget(log, c)
  {
    assert EventColumns(c.bindings, c.blockIndex) == RowColumns(c);
    var j :| 0 <= j < |log| && Inserting(log[j].content) && log[j].content.category == c.category
             && SameKeys(RowColumns(log[j].content), row, TableKeys(c.category));
    assert SameKeys(RowColumns(log[j].content), c.bindings, TableKeys(c.category));
  }

  lemma LongerLogIsWellFormed(log: seq<Stamp>, st: Stamp)
    requires WellFormedLog(log)
    requires Updating(st.content) ==> WellFormedUpdate(st.content) && HasTarget(log, st.content)
    ensures WellFormedLog(log + [st])
  {
    var longer := log + [st];
    forall i | 0 <= i < |longer|
      ensures WellFormedAt(longer, i)
    {
      if i < |log| {
        assert WellFormedAt(log, i);
        assert longer[..i] == log[..i];
      } else {
        assert longer[..i] == log;
      }
    }
  }

  lemma {:induction false} SealedRowComesFrom(rows: seq<Record>, idName: string, idValue: Value, sets: Record,
                                              sealed: Record)
    returns (was: Record)
    requires sealed in SealRows(rows, idName, idValue, sets)
    ensures was in rows && (sealed == was || sealed == was + sets)
  {
    var rest, last := rows[..|rows| - 1], rows[|rows| - 1];
    if sealed in SealRows(rest, idName, idValue, sets) {
      was := SealedRowComesFrom(rest, idName, idValue, sets, sealed);
    } else {
      was := last;
    }
  }

  /** What one announced call adds to the log, and where each row of the table after it comes from. */
  ghost predicate Grows(s: State, s': State, st: Stamp) {
    && Stamps(s'.messages) == Stamps(s.messages) + [st]
    && (Updating(st.content) ==> exists row ::
          && st.content.category in s.tables && row in s.tables[st.content.category]
          && Names(st.content.event, st.content.bindings, st.content.blockIndex, st.content.category, row))
    && forall t, r :: t in s'.tables && TableKeys(t) != [] && r in s'.tables[t] ==> ComesFrom(s, st, t, r)
  }

  ghost predicate ComesFrom(s: State, st: Stamp, t: string, r: Record) {
    || (t in s.tables && exists was :: was in s.tables[t] && SameKeys(r, was, TableKeys(t)))
    || (Inserting(st.content) && st.content.category == t && SameKeys(RowColumns(st.content), r, TableKeys(t)))
  }

  lemma GrowingStaysFollowable(s: State, s': State, st: Stamp)
    requires Followable(s) && Grows(s, s', st)
    ensures Followable(s')
  {
    var log, c := Stamps(s.messages), st.content;
    if Updating(c) {
      var row :| c.category in s.tables && row in s.tables[c.category]
                 && Names(c.event, c.bindings, c.blockIndex, c.category, row);
      NamedRowIsTarget(log, c, row);
    }
    LongerLogIsWellFormed(log, st);
    forall t, r | t in s'.tables && TableKeys(t) != [] && r in s'.tables[t]
      ensures WasInserted(log + [st], t, r)
    {
      assert ComesFrom(s, st, t, r);
      if t in s.tables && exists was :: was in s.tables[t] && SameKeys(r, was, TableKeys(t)) {
        var was :| was in s.tables[t] && SameKeys(r, was, TableKeys(t));
        StillInserted(log, st, t, was, r);
      } else {
        NewlyInserted(log, st, r);
      }
    }
  }

  // ---------------------------------------------------------------- one call

  lemma RowStays(s: State, st: Stamp, t: string, r: Record)
    requires t in s.tables && r in s.tables[t]
    ensures ComesFrom(s, st, t, r)
  {
  }

  lemma MovementGrows(s: State, env: Env, op: Op)
    requires (op.Credit? || op.Debit?) && Apply(s, env, op).Ok?
    ensures |Step(s, env, op).messages| == |s.messages| + 1
    ensures Grows(s, Step(s, env, op), Step(s, env, op).messages[|s.messages|].stamp)
  {
    JournalGrowsByOne(s, env, op);
    var s' := Step(s, env, op);
    var st := s'.messages[|s.messages|].stamp;
    assert st.content.command.Insert?;
    forall t, r | t in s'.tables && TableKeys(t) != [] && r in s'.tables[t]
      ensures ComesFrom(s, st, t, r)
    {
      assert t != "credits" && t != "debits";
      RowStays(s, st, t, r);
    }
  }

  lemma InsertGrows(s: State, env: Env, op: Op)
    requires op.InsertRecord? && Announced(s, env, op) && Apply(s, env, op).Ok?
    ensures |Step(s, env, op).messages| == |s.messages| + 1
    ensures Grows(s, Step(s, env, op), Step(s, env, op).messages[|s.messages|].stamp)
  {
    JournalGrowsByOne(s, env, op);
    var s' := Step(s, env, op);
    var st := s'.messages[|s.messages|].stamp;
    forall t, r | t in s'.tables && TableKeys(t) != [] && r in s'.tables[t]
      ensures ComesFrom(s, st, t, r)
    {
      if r in s.tables[t] { RowStays(s, st, t, r); }
    }
  }

  lemma UpdateGrows(s: State, env: Env, op: Op)
    requires op.InsertUpdate? && Announced(s, env, op) && Apply(s, env, op).Ok?
    ensures |Step(s, env, op).messages| == |s.messages| + 1
    ensures Grows(s, Step(s, env, op), Step(s, env, op).messages[|s.messages|].stamp)
  {
    JournalGrowsByOne(s, env, op);
    var s' := Step(s, env, op);
    var st, row := s'.messages[|s.messages|].stamp, FindRow(s.tables[op.table], op.idName, op.idValue).value;
    FoundRowIsARow(s.tables[op.table], op.idName, op.idValue);
    forall t, r | t in s'.tables && TableKeys(t) != [] && r in s'.tables[t]
      ensures ComesFrom(s, st, t, r)
    {
      if r in s.tables[t] { RowStays(s, st, t, r); }
    }
  }

  lemma SealGrows(s: State, env: Env, op: Op)
    requires op.Seal? && Announced(s, env, op) && Apply(s, env, op).Ok?
    ensures |Step(s, env, op).messages| == |s.messages| + 1
    ensures Grows(s, Step(s, env, op), Step(s, env, op).messages[|s.messages|].stamp)
  {
    JournalGrowsByOne(s, env, op);
    var s' := Step(s, env, op);
    var st := s'.messages[|s.messages|].stamp;
    forall t, r | t in s'.tables && TableKeys(t) != [] && r in s'.tables[t]
      ensures ComesFrom(s, st, t, r)
    {
      if t == op.table {
        var was := SealedRowComesFrom(s.tables[t], op.idName, op.idValue, op.sets, r);
        assert SameKeys(r, was, TableKeys(t));
      } else {
        RowStays(s, st, t, r);
      }
    }
  }

  lemma StepStaysFollowable(s: State, env: Env, op: Op)
    requires Followable(s) && Announced(s, env, op)
    ensures Followable(Step(s, env, op))
  {
    if Apply(s, env, op).Ok? {
      match op {
        case InsertRecord(_, _, _, _) => InsertGrows(s, env, op);
        case InsertUpdate(_, _, _, _, _, _) => UpdateGrows(s, env, op);
        case Seal(_, _, _, _, _, _) => SealGrows(s, env, op);
        case _ => MovementGrows(s, env, op);
      }
      GrowingStaysFollowable(s, Step(s, env, op), Step(s, env, op).messages[|s.messages|].stamp);
    } else {
      RaisingStepStays(s, env, op);
    }
  }

  /** After every run of announced calls each update event of the log finds the row it changes. */
  lemma {:induction false} RunStaysFollowable(s: State, calls: seq<Call>)
    requires Followable(s) && AllAnnounced(s, calls)
    ensures Followable(RunCalls(s, calls))
  {
    if calls != [] {
      var rest, last := calls[..|calls| - 1], calls[|calls| - 1];
      RunStaysFollowable(s, rest);
      StepStaysFollowable(RunCalls(s, rest), last.env, last.op);
    }
  }
}
