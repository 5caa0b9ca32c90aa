/** Appending a new version of a row, as the ledger does, against changing it in place, as the API does. */
module LatestRows {
  import opened Records
  import opened Ledger
  import opened LedgerRollback
  import opened ApiWatcher
  import opened WatcherProtocol

  /** The columns of the last API row with a key. */
  function ApiRow(rows: seq<TableRow>, key: string, v: Value): Option<Record> {
    if rows == [] then None
    else if CellIs(rows[|rows| - 1].columns, key, v) then Some(rows[|rows| - 1].columns)
    else ApiRow(rows[..|rows| - 1], key, v)
  }

  function Trim(row: Option<Record>, extra: set<string>): Option<Record> {
    match row
    case None => None
    case Some(r) => Some(r - extra)
  }

  /** Under every key both tables show the same row, up to columns that only one of them keeps. */
  ghost predicate SameView(rows: seq<Record>, apiRows: seq<TableRow>, key: string, extra: set<string>) {
    forall v :: Trim(LatestRow(rows, key, v), extra) == Trim(ApiRow(apiRows, key, v), extra)
  }

  lemma LatestOfAppend(rows: seq<Record>, r: Record, key: string, v: Value)
    ensures LatestRow(rows + [r], key, v) == if CellIs(r, key, v) then Some(r) else LatestRow(rows, key, v)
  {
    assert (rows + [r])[..|rows|] == rows;
  }

  lemma ApiRowOfAppend(rows: seq<TableRow>, r: TableRow, key: string, v: Value)
    ensures ApiRow(rows + [r], key, v) == if CellIs(r.columns, key, v) then Some(r.columns) else ApiRow(rows, key, v)
  {
    assert (rows + [r])[..|rows|] == rows;
  }

  lemma {:induction false} LatestRowHasItsKey(rows: seq<Record>, key: string, v: Value)
    ensures LatestRow(rows, key, v).Some? ==> CellIs(LatestRow(rows, key, v).value, key, v)
  {
    if rows != [] { LatestRowHasItsKey(rows[..|rows| - 1], key, v); }
  }

  lemma {:induction false} LatestRowExists(rows: seq<Record>, row: Record, key: string, v: Value)
    requires row in rows && CellIs(row, key, v)
    ensures LatestRow(rows, key, v).Some?
  {
    if !CellIs(rows[|rows| - 1], key, v) {
      assert row in rows[..|rows| - 1];
      LatestRowExists(rows[..|rows| - 1], row, key, v);
    }
  }

  lemma {:induction false} LatestRowIsARow(rows: seq<Record>, key: string, v: Value)
    ensures LatestRow(rows, key, v).Some? ==> LatestRow(rows, key, v).value in rows
  {
    if rows != [] { LatestRowIsARow(rows[..|rows| - 1], key, v); }
  }

  lemma FoundRowIsARow(rows: seq<Record>, idName: string, idValue: Value)
    ensures FindRow(rows, idName, idValue).Some? ==> FindRow(rows, idName, idValue).value in rows
  {
    LatestRowIsARow(rows, idName, idValue);
  }

  /** An in-place UPDATE under one key changes that key's row and no other. */
  lemma {:induction false} ApiRowOfUpdate(rows: seq<TableRow>, changed: seq<TableRow>, key: string, wanted: Record,
                                          sets: Record, v: Value)
    requires key !in sets && changed == UpdateRows(rows, [key], wanted, sets)
    ensures ApiRow(changed, key, v) ==
            match ApiRow(rows, key, v)
            case None => None
            case Some(r) => if v == Cell(wanted, key) then Some(r + sets) else Some(r)
  {
    if rows != [] {
      var n := |rows| - 1;
      assert changed[..n] == UpdateRows(rows[..n], [key], wanted, sets);
      ApiRowOfUpdate(rows[..n], changed[..n], key, wanted, sets, v);
      assert Matches(rows[n].columns, [key], wanted) <==> CellIs(rows[n].columns, key, Cell(wanted, key)) by {
        assert [key][0] == key;
      }
      assert Cell(changed[n].columns, key) == Cell(rows[n].columns, key);
    }
  }

  /** The in-place UPDATE of the ledger does the same. */
  lemma {:induction false} LatestOfSeal(rows: seq<Record>, key: string, w: Value, sets: Record, v: Value)
    requires key !in sets
    ensures LatestRow(SealRows(rows, key, w, sets), key, v) ==
            match LatestRow(rows, key, v)
            case None => None
            case Some(r) => if v == w then Some(r + sets) else Some(r)
  {
    if rows != [] {
      var n := |rows| - 1;
      LatestOfSeal(rows[..n], key, w, sets, v);
      var sealed := if CellIs(rows[n], key, w) then rows[n] + sets else rows[n];
      LatestOfAppend(SealRows(rows[..n], key, w, sets), sealed, key, v);
    }
  }

  // ---------------------------------------------------------------- the event of a call

  /** The columns an update event carries, as the watcher reads them. */
  function EventColumns(bindings: Record, blockIndex: int): Record {
    (if "order_match_id" in bindings && "id" in bindings && bindings["order_match_id"] == bindings["id"]
     then bindings - {"order_match_id"} else bindings)["block_index" := Int(blockIndex)]
  }

  /** What the watcher's UPDATE sets. */
  function EventSets(bindings: Record, blockIndex: int, key: string): Record {
    Without(EventColumns(bindings, blockIndex), [key])
  }

  ghost predicate SameOutside(a: Record, b: Record, columns: set<string>) {
    forall f :: f !in columns ==> (f in a <==> f in b) && (f in a && f in b ==> a[f] == b[f])
  }

  lemma SameOutsideMeans(a: Record, b: Record, columns: set<string>)
    ensures SameOutside(a, b, columns) <==> a - columns == b - columns
  {
    if a - columns == b - columns {
      forall f | f !in columns
        ensures f in a <==> f in b
        ensures f in a && f in b ==> a[f] == b[f]
      {
        assert f in a <==> f in a - columns;
        assert f in b <==> f in b - columns;
        if f in a && f in b { assert a[f] == (a - columns)[f] == (b - columns)[f] == b[f]; }
      }
    }
    if SameOutside(a, b, columns) {
      forall f
        ensures f in a - columns <==> f in b - columns
      {
        assert f !in columns ==> (f in a <==> f in b);
      }
    }
  }

  // ---------------------------------------------------------------- one update

  /** An update event of table t: it names one row by the table's key; the data may repeat key and identifier. */
  predicate NamesItsRow(op: Op, key: string) {
    && op.InsertUpdate? && !Skips(op.event) && UpdateIds(op.event) == [key]
    && key != "block_index" && key != "order_match_id"
    && op.data.Keys !! op.info.Keys && op.data.Keys !! {"rowid", "order_match_id"}
    && (op.idName in op.data ==> op.data[op.idName] == op.idValue)
  }

  function Payload(op: Op): Record
    requires op.InsertUpdate?
  {
    UpdatePayload(op.idName, op.idValue, op.data, op.info)
  }

  /** The two tables after an update, the watcher having parsed its event. */
  ghost predicate ViewAfter(rows: seq<Record>, apiRows: seq<TableRow>, b: int, op: Op, key: string, extra: set<string>)
    requires op.InsertUpdate? && FindRow(rows, op.idName, op.idValue).Some?
  {
    var row := FindRow(rows, op.idName, op.idValue).value;
    SameView(rows + [UpdatedRow(row, op.data, b)],
             UpdateRows(apiRows, [key], EventColumns(Payload(op), b), EventSets(Payload(op), b, key)), key, extra)
  }

  /** The latest version of the row an update names. */
  function LatestVersion(rows: seq<Record>, op: Op, key: string): Option<Record>
    requires op.InsertUpdate? && FindRow(rows, op.idName, op.idValue).Some?
  {
    LatestRow(rows, key, Cell(FindRow(rows, op.idName, op.idValue).value, key))
  }

  lemma PayloadColumns(op: Op, b: int, key: string)
    requires NamesItsRow(op, key)
    ensures var cols, sets := EventColumns(Payload(op), b), EventSets(Payload(op), b, key);
            && key !in sets && "block_index" in sets && sets["block_index"] == Int(b)
            && (key in Payload(op) ==> Cell(cols, key) == Payload(op)[key])
            && (key in op.data ==> key in Payload(op) && Payload(op)[key] == op.data[key])
            && forall f :: f in op.data && f != "block_index" && f != key ==> f in sets && sets[f] == op.data[f]
  {
    var cols := EventColumns(Payload(op), b);
    assert forall f :: f in [key] <==> f == key;
    assert cols["block_index"] == Int(b);
    forall f | f in op.data && f != "block_index"
      ensures f in cols && cols[f] == op.data[f]
    {
      assert f in Payload(op) && Payload(op)[f] == op.data[f];
    }
  }

  /** Both new rows hold the data and the block; they are the same exactly when they agree in the other columns. */
  lemma NewRowsAgreeIff(row: Record, latest: Record, op: Op, b: int, key: string, extra: set<string>)
    requires NamesItsRow(op, key) && (key in op.data ==> key in latest && latest[key] == op.data[key])
    ensures UpdatedRow(row, op.data, b) - extra == latest + EventSets(Payload(op), b, key) - extra <==>
            SameOutside(row, latest + EventSets(Payload(op), b, key), extra + op.data.Keys + {"block_index"})
  {
    PayloadColumns(op, b, key);
    var a, c := UpdatedRow(row, op.data, b), latest + EventSets(Payload(op), b, key);
    SameOutsideMeans(a, c, extra);
    var fixed := extra + op.data.Keys + {"block_index"};
    forall f | f !in extra && f in fixed
      ensures f in a && f in c && a[f] == c[f]
    {
    }
    forall f | f !in fixed
      ensures f in a <==> f in row
      ensures f in a ==> a[f] == row[f]
    {
    }
    if SameOutside(a, c, extra) {
      forall f | f !in fixed
        ensures f in row <==> f in c
        ensures f in row && f in c ==> row[f] == c[f]
      {
        assert f !in extra;
      }
    }
    if SameOutside(row, c, fixed) {
      forall f | f !in extra
        ensures f in a <==> f in c
        ensures f in a && f in c ==> a[f] == c[f]
      {
      }
    }
  }

  /** What an in-place UPDATE leaves of a row, up to the extra columns, depends on the row only up to them. */
  lemma TrimOfSum(a: Record, b: Record, sets: Record, extra: set<string>)
    requires a - extra == b - extra
    ensures a + sets - extra == b + sets - extra
  {
    SameOutsideMeans(a, b, extra);
    SameOutsideMeans(a + sets, b + sets, extra);
  }

  /**
   * Whatever an update is named by, a key or the rowid of any version, the tables stay alike exactly when the
   * row it found agrees with the latest version, as the event changes it, in every column outside its data.
   */
  lemma UpdateMirrorsIff(rows: seq<Record>, apiRows: seq<TableRow>, b: int, op: Op, key: string, extra: set<string>)
    requires NamesItsRow(op, key) && key !in extra && SameView(rows, apiRows, key, extra)
    requires FindRow(rows, op.idName, op.idValue).Some?
    requires var v := Cell(FindRow(rows, op.idName, op.idValue).value, key);
             v != Null && Cell(EventColumns(Payload(op), b), key) == v
    ensures LatestVersion(rows, op, key).Some?
    ensures ViewAfter(rows, apiRows, b, op, key, extra) <==>
            SameOutside(FindRow(rows, op.idName, op.idValue).value,
                        LatestVersion(rows, op, key).value + EventSets(Payload(op), b, key),
                        extra + op.data.Keys + {"block_index"})
  {
    var row := FindRow(rows, op.idName, op.idValue).value;
    var v0, cols, sets := Cell(row, key), EventColumns(Payload(op), b), EventSets(Payload(op), b, key);
    var updated, changed := UpdatedRow(row, op.data, b), UpdateRows(apiRows, [key], cols, sets);
    FoundRowIsARow(rows, op.idName, op.idValue);
    LatestRowExists(rows, row, key, v0);
    PayloadColumns(op, b, key);
    var latest := LatestVersion(rows, op, key).value;
    LatestRowHasItsKey(rows, key, v0);
    NewRowsAgreeIff(row, latest, op, b, key, extra);
    var mine := ApiRow(apiRows, key, v0);
    assert Trim(LatestRow(rows, key, v0), extra) == Trim(mine, extra);
    TrimOfSum(latest, mine.value, sets, extra);
    assert Cell(updated, key) == v0;
    forall v
      ensures Trim(LatestRow(rows + [updated], key, v), extra) ==
              if v == v0 then Some(updated - extra) else Trim(LatestRow(rows, key, v), extra)
      ensures Trim(ApiRow(changed, key, v), extra) ==
              if v == v0 then Some(latest + sets - extra) else Trim(ApiRow(apiRows, key, v), extra)
    {
      LatestOfAppend(rows, updated, key, v);
      ApiRowOfUpdate(apiRows, changed, key, cols, sets, v);
    }
    if updated - extra == latest + sets - extra {
      forall v
        ensures Trim(LatestRow(rows + [updated], key, v), extra) == Trim(ApiRow(changed, key, v), extra)
      {
        assert Trim(LatestRow(rows, key, v), extra) == Trim(ApiRow(apiRows, key, v), extra);
      }
    }
    if ViewAfter(rows, apiRows, b, op, key, extra) {
      assert Trim(LatestRow(rows + [updated], key, v0), extra) == Trim(ApiRow(changed, key, v0), extra);
    }
  }

  /** An update of the latest version: the tables stay alike exactly when what the event adds repeats the row. */
  lemma LatestUpdateMirrorsIff(rows: seq<Record>, apiRows: seq<TableRow>, b: int, op: Op, key: string,
                               extra: set<string>)
    requires NamesItsRow(op, key) && key !in extra && SameView(rows, apiRows, key, extra)
    requires FindRow(rows, op.idName, op.idValue).Some?
    requires var v := Cell(FindRow(rows, op.idName, op.idValue).value, key);
             v != Null && Cell(EventColumns(Payload(op), b), key) == v
    requires LatestVersion(rows, op, key) == FindRow(rows, op.idName, op.idValue)
    ensures var row, sets := FindRow(rows, op.idName, op.idValue).value, EventSets(Payload(op), b, key);
            ViewAfter(rows, apiRows, b, op, key, extra) <==>
            forall f :: f in sets && f !in extra && f !in op.data && f != "block_index" ==>
                f in row && row[f] == sets[f]
  {
    UpdateMirrorsIff(rows, apiRows, b, op, key, extra);
    var row, sets := FindRow(rows, op.idName, op.idValue).value, EventSets(Payload(op), b, key);
    var columns := extra + op.data.Keys + {"block_index"};
    if SameOutside(row, row + sets, columns) {
      forall f | f in sets && f !in extra && f !in op.data && f != "block_index"
        ensures f in row && row[f] == sets[f]
      {
        assert f !in columns;
      }
    }
  }

  /** Without an `order_match_id` the watcher sets every column of the event but the key, and the block. */
  lemma SetsOfEvent(bindings: Record, b: int, key: string)
    requires "order_match_id" !in bindings && key != "block_index"
    ensures Cell(EventColumns(bindings, b), key) == Cell(bindings, key)
    ensures forall f :: f in EventSets(bindings, b, key) <==> (f in bindings || f == "block_index") && f != key
    ensures forall f :: f in EventSets(bindings, b, key) && f != "block_index" ==>
              EventSets(bindings, b, key)[f] == bindings[f]
  {
    assert EventColumns(bindings, b) == bindings["block_index" := Int(b)] && forall f :: f in [key] <==> f == key;
  }

  /** What a broadcast that sets options passes: block and address once more inside the data. */
  function SetOptions(address: string, options: int, b: int): Op {
    InsertUpdate("addresses", "address", Text(address),
                 map["block_index" := Int(b), "address" := Text(address), "options" := Int(options)],
                 "ADDRESS_OPTIONS_UPDATE", map[])
  }

  lemma OptionsNamed(address: string, options: int, b: int)
    ensures NamesItsRow(SetOptions(address, options, b), "address")
    ensures Payload(SetOptions(address, options, b)) == SetOptions(address, options, b).data
  {
    assert UpdateIds("ADDRESS_OPTIONS_UPDATE") == ["address"];
    assert |"address"| == 7 && |"options"| == 7 && |"block_index"| == 11 && |"rowid"| == 5 && |"order_match_id"| == 14;
    assert "address"[0] != "options"[0];
  }

  /** It always mirrors. */
  lemma OptionsMirror(rows: seq<Record>, apiRows: seq<TableRow>, address: string, options: int, b: int, at: int)
    requires SameView(rows, apiRows, "address", {}) && FindRow(rows, "address", Text(address)).Some?
    ensures ViewAfter(rows, apiRows, at, SetOptions(address, options, b), "address", {})
  {
    var op := SetOptions(address, options, b);
    OptionsNamed(address, options, b);
    assert "order_match_id" !in Payload(op) by { assert |"order_match_id"| == 14 && |"block_index"| == 11; }
    SetsOfEvent(Payload(op), at, "address");
    LatestRowHasItsKey(rows, "address", Text(address));
    LatestUpdateMirrorsIff(rows, apiRows, at, op, "address", {});
  }

  // ---------------------------------------------------------------- an event that says more than the row

  /** A dispenser at one address, opened by another. */
  function Dispenser(source: string): Record {
    map["tx_hash" := Text("ab"), "source" := Text(source), "asset" := Text("SOMEASSET"), "status" := Int(0),
        "block_index" := Int(100)]
  }

  /** Closing it: the event names the sender of the closing transaction as its source. */
  function Close(sender: string): Op {
    InsertUpdate("dispensers", "rowid", Int(1), map["status" := Int(11)], "DISPENSER_UPDATE",
                 map["source" := Text(sender), "asset" := Text("SOMEASSET"), "tx_hash" := Text("ab")])
  }

  lemma ColumnNamesDiffer()
    ensures "status" != "source" && "rowid" != "asset" && "tx_hash" !in {"status", "source", "asset", "rowid"}
    ensures "order_match_id" !in {"status", "source", "asset", "tx_hash"} && "block_index" !in {"status", "tx_hash"}
    ensures "rowid" !in {"status", "source", "tx_hash"} && "asset" !in {"status", "source"}
  {
    assert |"status"| == 6 && |"rowid"| == 5 && |"tx_hash"| == 7 && |"order_match_id"| == 14 && |"source"| == 6
           && |"asset"| == 5;
    assert "status"[1] != "source"[1] && "rowid"[0] != "asset"[0] && |"block_index"| == 11;
  }

  lemma CloseNamesItsRow(sender: string)
    ensures NamesItsRow(Close(sender), "tx_hash")
  {
    ColumnNamesDiffer();
    assert UpdateIds("DISPENSER_UPDATE") == ["tx_hash"];
  }

  lemma ClosePayload(sender: string)
    ensures var payload := Payload(Close(sender));
            && "order_match_id" !in payload && Cell(payload, "tx_hash") == Text("ab")
            && (forall f :: f in payload <==> f == "status" || f == "source" || f == "asset" || f == "tx_hash")
            && payload["source"] == Text(sender) && payload["asset"] == Text("SOMEASSET")
  {
    ColumnNamesDiffer();
  }

  lemma OneDispenser(source: string)
    ensures var row := Dispenser(source);
            && SameView([row], [TableRow(1, row)], "tx_hash", {})
            && FindRow([row], "rowid", Int(1)) == Some(row) && LatestRow([row], "tx_hash", Text("ab")) == Some(row)
            && Cell(row, "tx_hash") == Text("ab") && Cell(row, "source") == Text(source)
  {
    var row := Dispenser(source);
    forall v ensures LatestRow([row], "tx_hash", v) == ApiRow([TableRow(1, row)], "tx_hash", v) {
      assert [row][..0] == [] && [TableRow(1, row)][..0] == [];
    }
    assert [row][..0] == [];
  }

  /** What the event says besides the new status is the row's already exactly when sender and source are the same. */
  lemma CloseRepeatsIff(source: string, sender: string, sets: Record)
    requires forall f :: f in sets <==> f == "status" || f == "source" || f == "asset" || f == "block_index"
    requires sets["source"] == Text(sender) && sets["asset"] == Text("SOMEASSET")
    ensures (forall f :: f in sets && f !in Close(sender).data && f != "block_index" ==>
               f in Dispenser(source) && Dispenser(source)[f] == sets[f]) <==> sender == source
  {
    assert "source" in sets && "source" !in Close(sender).data && "source" != "block_index";
  }

  /** The ledger keeps the dispenser's address; the watcher overwrites it with the sender, unless they are the same. */
  lemma CloseMirrorsIffSenderIsSource(source: string, sender: string)
    ensures FindRow([Dispenser(source)], "rowid", Int(1)).Some?
    ensures ViewAfter([Dispenser(source)], [TableRow(1, Dispenser(source))], 101, Close(sender), "tx_hash", {}) <==>
              sender == source
  {
    var row, op := Dispenser(source), Close(sender);
    CloseNamesItsRow(sender);
    ClosePayload(sender);
    OneDispenser(source);
    SetsOfEvent(Payload(op), 101, "tx_hash");
    LatestUpdateMirrorsIff([row], [TableRow(1, row)], 101, op, "tx_hash", {});
    CloseRepeatsIff(source, sender, EventSets(Payload(op), 101, "tx_hash"));
  }

  // ---------------------------------------------------------------- what a handler may do to one table

  /**
   * An insert journals its row, with nothing but extra columns besides; an update finds a row that agrees with the
   * latest version outside its data; an in-place UPDATE sets what its event sets.
   */
  ghost predicate Fits(s: State, env: Env, op: Op, t: string, key: string, extra: set<string>)
    requires t in s.tables
  {
    match op
    case InsertRecord(table, record, event, info) =>
      table == t ==>
        && !Skips(event) && info.Keys <= extra && CellIs(record, "block_index", Int(env.blockIndex))
        && !("order_match_id" in record + info && "id" in record + info
             && (record + info)["order_match_id"] == (record + info)["id"])
    case InsertUpdate(table, idName, idValue, data, event, info) =>
      table == t ==>
        && NamesItsRow(op, key)
        && var found := FindRow(s.tables[t], idName, idValue);
           found.Some? ==>
             && Cell(found.value, key) != Null
             && Cell(EventColumns(Payload(op), env.blockIndex), key) == Cell(found.value, key)
             && LatestVersion(s.tables[t], op, key).Some?
             && SameOutside(found.value,
                            LatestVersion(s.tables[t], op, key).value + EventSets(Payload(op), env.blockIndex, key),
                            extra + data.Keys + {"block_index"})
    case Seal(table, idName, idValue, sets, event, bindings) =>
      table == t ==>
        && !Skips(event) && idName == key && UpdateIds(event) == [key] && key !in sets
        && Cell(EventColumns(bindings, env.blockIndex), key) == idValue
        && var latest := LatestRow(s.tables[t], key, idValue);
           latest.Some? ==>
             SameOutside(latest.value + sets, latest.value + EventSets(bindings, env.blockIndex, key), extra)
    case _ => t !in {"credits", "debits"}
  }

  /** A call and the watcher after it, seen through one table. */
  ghost predicate KeepsView(s: State, env: Env, op: Op, api: map<string, seq<TableRow>>, t: string, key: string,
                            extra: set<string>) {
    var s' := Step(s, env, op);
    && t in s'.tables && |s'.messages| == |s.messages| + 1
    && var c := s'.messages[|s.messages|].stamp.content;
       !Skips(c.event) && SameView(s'.tables[t], RowsOf(ExecuteEvent(api, c), t), key, extra)
  }

  lemma InsertKeepsView(s: State, env: Env, op: Op, api: map<string, seq<TableRow>>, t: string, key: string,
                        extra: set<string>)
    requires op.InsertRecord? && op.table == t && t in s.tables && Fits(s, env, op, t, key, extra) && key !in extra
    requires SameView(s.tables[t], RowsOf(api, t), key, extra)
    ensures KeepsView(s, env, op, api, t, key, extra)
  {
    var c := Step(s, env, op).messages[|s.messages|].stamp.content;
    var columns, rows := RowColumns(c), RowsOf(api, t);
    forall f | f !in extra
      ensures f in op.record <==> f in columns
      ensures f in op.record && f in columns ==> op.record[f] == columns[f]
    {
      assert f !in op.info.Keys;
    }
    SameOutsideMeans(op.record, columns, extra);
    forall v
      ensures Trim(LatestRow(s.tables[t] + [op.record], key, v), extra) ==
              Trim(ApiRow(rows + [TableRow(NextRowid(rows), columns)], key, v), extra)
    {
      LatestOfAppend(s.tables[t], op.record, key, v);
      ApiRowOfAppend(rows, TableRow(NextRowid(rows), columns), key, v);
      assert Cell(columns, key) == Cell(op.record, key);
      assert Trim(LatestRow(s.tables[t], key, v), extra) == Trim(ApiRow(rows, key, v), extra);
    }
  }

  lemma UpdateIsJournalled(s: State, env: Env, op: Op)
    requires op.InsertUpdate? && Apply(s, env, op).Ok?
    ensures var s' := Step(s, env, op);
            && op.table in s.tables && FindRow(s.tables[op.table], op.idName, op.idValue).Some?
            && var row := FindRow(s.tables[op.table], op.idName, op.idValue).value;
            && op.table in s'.tables
            && s'.tables[op.table] == s.tables[op.table] + [UpdatedRow(row, op.data, env.blockIndex)]
            && |s'.messages| == |s.messages| + 1
            && var c := s'.messages[|s.messages|].stamp.content;
            && c.command.Update? && c.event == op.event && c.category == op.table && c.bindings == Payload(op)
            && RowColumns(c) == EventColumns(Payload(op), env.blockIndex)
  {
  }

  lemma UpdateKeepsView(s: State, env: Env, op: Op, api: map<string, seq<TableRow>>, t: string, key: string,
                        extra: set<string>)
    requires op.InsertUpdate? && op.table == t && t in s.tables && Fits(s, env, op, t, key, extra) && key !in extra
    requires Apply(s, env, op).Ok? && SameView(s.tables[t], RowsOf(api, t), key, extra)
    ensures KeepsView(s, env, op, api, t, key, extra)
  {
    UpdateMirrorsIff(s.tables[t], RowsOf(api, t), env.blockIndex, op, key, extra);
    UpdateIsJournalled(s, env, op);
  }

  lemma SealKeepsView(s: State, env: Env, op: Op, api: map<string, seq<TableRow>>, t: string, key: string,
                      extra: set<string>)
    requires op.Seal? && op.table == t && t in s.tables && Fits(s, env, op, t, key, extra) && key !in extra
    requires SameView(s.tables[t], RowsOf(api, t), key, extra)
    ensures KeepsView(s, env, op, api, t, key, extra)
  {
    var rows, apiRows := s.tables[t], RowsOf(api, t);
    var cols, sets := EventColumns(op.bindings, env.blockIndex), EventSets(op.bindings, env.blockIndex, key);
    var changed := UpdateRows(apiRows, [key], cols, sets);
    assert key in [key];
    forall v
      ensures Trim(LatestRow(SealRows(rows, key, op.idValue, op.sets), key, v), extra) ==
              Trim(ApiRow(changed, key, v), extra)
    {
      LatestOfSeal(rows, key, op.idValue, op.sets, v);
      ApiRowOfUpdate(apiRows, changed, key, cols, sets, v);
      assert Trim(LatestRow(rows, key, v), extra) == Trim(ApiRow(apiRows, key, v), extra);
      if LatestRow(rows, key, v).Some? && v == op.idValue {
        var latest := LatestRow(rows, key, v).value;
        SameOutsideMeans(latest + op.sets, latest + sets, extra);
        TrimOfSum(latest, ApiRow(apiRows, key, v).value, sets, extra);
      }
    }
    var c := Step(s, env, op).messages[|s.messages|].stamp.content;
    assert RowColumns(c) == cols;
  }

  /** Appending a version of one row never changes what is read under another key. */
  lemma UpdateTouchesOneKey(s: State, env: Env, op: Op, key: string, v: Value)
    requires op.InsertUpdate? && op.table in s.tables && key != "block_index" && (key in op.data ==> op.data[key] != v)
    requires var found := FindRow(s.tables[op.table], op.idName, op.idValue);
             found.Some? ==> Cell(found.value, key) != v
    ensures op.table in Step(s, env, op).tables
    ensures LatestRow(Step(s, env, op).tables[op.table], key, v) == LatestRow(s.tables[op.table], key, v)
  {
    var found := FindRow(s.tables[op.table], op.idName, op.idValue);
    if found.Some? {
      LatestOfAppend(s.tables[op.table], UpdatedRow(found.value, op.data, env.blockIndex), key, v);
    }
  }

  // ---------------------------------------------------------------- whole runs

  /** The API state after parsing everything the calls journalled. */
  function Mirror(s: State, api: ApiState, calls: seq<Call>): ApiState {
    if calls == [] then api
    else
      var before, last := RunCalls(s, calls[..|calls| - 1]), calls[|calls| - 1];
      var mirrored, after := Mirror(s, api, calls[..|calls| - 1]), Step(before, last.env, last.op);
      if |after.messages| <= |before.messages| then mirrored
      else ParseEvent(mirrored, after.messages[|before.messages|].stamp)
  }

  lemma OtherTablesStay(s: State, env: Env, op: Op, api: map<string, seq<TableRow>>, t: string)
    requires t in s.tables && |Step(s, env, op).messages| > |s.messages|
    requires match op
             case InsertRecord(table, _, _, _) => table != t
             case InsertUpdate(table, _, _, _, _, _) => table != t
             case Seal(table, _, _, _, _, _) => table != t
             case _ => t !in {"credits", "debits"}
    ensures var s' := Step(s, env, op);
            t in s'.tables && s'.tables[t] == s.tables[t] &&
            RowsOf(ExecuteEvent(api, s'.messages[|s.messages|].stamp.content), t) == RowsOf(api, t)
  {
  }

  lemma RaisingStepStays(s: State, env: Env, op: Op)
    requires Apply(s, env, op).Err?
    ensures Step(s, env, op) == s
  {
  }

  lemma StepKeepsView(s: State, env: Env, op: Op, api: ApiState, t: string, key: string, extra: set<string>)
    requires t in s.tables && Fits(s, env, op, t, key, extra) && key !in extra
    requires SameView(s.tables[t], RowsOf(api.tables, t), key, extra) && Apply(s, env, op).Ok?
    ensures var s' := Step(s, env, op);
            t in s'.tables && |s'.messages| > |s.messages| &&
            SameView(s'.tables[t], RowsOf(ParseEvent(api, s'.messages[|s.messages|].stamp).tables, t), key, extra)
  {
    ParseShape(api, Step(s, env, op).messages[|s.messages|].stamp);
    if op.InsertRecord? && op.table == t {
      InsertKeepsView(s, env, op, api.tables, t, key, extra);
    } else if op.InsertUpdate? && op.table == t {
      UpdateKeepsView(s, env, op, api.tables, t, key, extra);
    } else if op.Seal? && op.table == t {
      SealKeepsView(s, env, op, api.tables, t, key, extra);
    } else {
      OtherTablesStay(s, env, op, api.tables, t);
    }
  }

  /** Every call of the run does to table t what its event tells the watcher. */
  ghost predicate AllFit(s: State, calls: seq<Call>, t: string, key: string, extra: set<string>) {
    calls == [] ||
    var rest, last := calls[..|calls| - 1], calls[|calls| - 1];
    AllFit(s, rest, t, key, extra) && t in RunCalls(s, rest).tables
    && Fits(RunCalls(s, rest), last.env, last.op, t, key, extra)
  }

  /**
   * Insert-only refines in place: after any run of calls, the latest row of the ledger table under every key
   * is the row of the API table that was inserted once and then updated in place.
   */
  lemma {:induction false} LatestRowsMirrorInPlaceRows(s: State, api: ApiState, calls: seq<Call>, t: string,
                                                       key: string, extra: set<string>)
    requires t in s.tables && key !in extra && SameView(s.tables[t], RowsOf(api.tables, t), key, extra)
    requires AllFit(s, calls, t, key, extra)
    ensures t in RunCalls(s, calls).tables
    ensures SameView(RunCalls(s, calls).tables[t], RowsOf(Mirror(s, api, calls).tables, t), key, extra)
  {
    if calls != [] {
      var rest, last := calls[..|calls| - 1], calls[|calls| - 1];
      var before := RunCalls(s, rest);
      LatestRowsMirrorInPlaceRows(s, api, rest, t, key, extra);
      if Apply(before, last.env, last.op).Ok? {
        StepKeepsView(before, last.env, last.op, Mirror(s, api, rest), t, key, extra);
      } else {
        RaisingStepStays(before, last.env, last.op);
      }
    }
  }
}
