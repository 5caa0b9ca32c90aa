/** Undoing events: exact for inserts, no undo at all for updates, exact again over whole blocks. */
module WatcherUndo {
  import opened Records
  import opened Journal
  import opened Ledger
  import opened BalanceJournal
  import opened ApiWatcher
  import opened WatcherProtocol

  // ---------------------------------------------------------------- balances

  /** The quantity of a holder's row in the API, missing counting as zero. */
  function ApiQuantity(balances: seq<ApiBalance>, h: Holder, asset: string): int {
    if balances == [] then 0
    else
      var last := balances[|balances| - 1];
      if last.holder == h && last.asset == asset then last.quantity
      else ApiQuantity(balances[..|balances| - 1], h, asset)
  }

  predicate OneRowPerKey(balances: seq<ApiBalance>) {
    forall i, j :: 0 <= i < j < |balances| ==>
        !(balances[i].holder == balances[j].holder && balances[i].asset == balances[j].asset)
  }

  lemma {:induction false} QuantityOfChange(balances: seq<ApiBalance>, changed: seq<ApiBalance>, h: Holder,
                                            asset: string, delta: int,
                                            h': Holder, asset': string)
    requires |changed| == |balances|
    requires forall i :: 0 <= i < |balances| ==>
      changed[i] == if balances[i].holder == h && balances[i].asset == asset
                    then balances[i].(quantity := balances[i].quantity + delta) else balances[i]
    ensures ApiQuantity(changed, h', asset') == ApiQuantity(balances, h', asset')
            + if h' == h && asset' == asset && HasBalance(balances, h, asset) then delta else 0
  {
    if balances != [] {
      var n := |balances| - 1;
      QuantityOfChange(balances[..n], changed[..n], h, asset, delta, h', asset');
      assert HasBalance(balances, h, asset) <==>
             HasBalance(balances[..n], h, asset) || (balances[n].holder == h && balances[n].asset == asset) by {
        if i :| 0 <= i < |balances| && balances[i].holder == h && balances[i].asset == asset {
          assert i == n || balances[..n][i] == balances[i];
        }
      }
    }
  }

  lemma {:induction false} QuantityOfAbsent(balances: seq<ApiBalance>, h: Holder, asset: string)
    requires !HasBalance(balances, h, asset)
    ensures ApiQuantity(balances, h, asset) == 0
  {
    if balances != [] {
      var n := |balances| - 1;
      assert forall i :: 0 <= i < n ==> balances[..n][i] == balances[i];
      QuantityOfAbsent(balances[..n], h, asset);
    }
  }

  /** Updating in place moves one quantity by delta, and a key never gets a second row. */
  lemma ChangeMovesOneKey(balances: seq<ApiBalance>, h: Holder, asset: string, delta: int, utxoAddress: Value)
    ensures forall h', asset' :: ApiQuantity(ChangeBalance(balances, h, asset, delta, utxoAddress), h', asset') ==
              ApiQuantity(balances, h', asset') + if h' == h && asset' == asset then delta else 0
    ensures OneRowPerKey(balances) ==> OneRowPerKey(ChangeBalance(balances, h, asset, delta, utxoAddress))
  {
    var changed := ChangeBalance(balances, h, asset, delta, utxoAddress);
    forall h', asset'
      ensures ApiQuantity(changed, h', asset') ==
              ApiQuantity(balances, h', asset') + if h' == h && asset' == asset then delta else 0
    {
      if HasBalance(balances, h, asset) {
        QuantityOfChange(balances, changed, h, asset, delta, h', asset');
      } else {
        QuantityOfAbsent(balances, h, asset);
        assert changed[..|balances|] == balances;
      }
    }
  }

  /** One event, or its reversal, moves every quantity by what the journal says it moves. */
  lemma EventMovesBalances(balances: seq<ApiBalance>, c: Content, sign: int)
    ensures forall h, asset :: ApiQuantity(UpdateBalances(balances, c, sign), h, asset) ==
              ApiQuantity(balances, h, asset) + sign * Moved(c, h, asset)
    ensures OneRowPerKey(balances) ==> OneRowPerKey(UpdateBalances(balances, c, sign))
  {
    var h, asset, quantity := EventHolder(c.bindings), Cell(c.bindings, "asset"), Cell(c.bindings, "quantity");
    if c.event in {"DEBIT", "CREDIT"} && h.Some? && asset.Text? && quantity.Int? && quantity.n != 0 {
      var delta := if c.event == "DEBIT" then -quantity.n else quantity.n;
      ChangeMovesOneKey(balances, h.value, asset.s, sign * delta, Cell(c.bindings, "utxo_address"));
      assert forall h', asset' :: Moved(c, h', asset') == if h' == h.value && asset' == asset.s then delta else 0;
    } else {
      assert forall h', asset' :: Moved(c, h', asset') == 0;
    }
  }

  ghost predicate SameQuantities(a: seq<ApiBalance>, b: seq<ApiBalance>) {
    forall h, asset :: ApiQuantity(a, h, asset) == ApiQuantity(b, h, asset)
  }

  lemma UndoRestoresQuantities(a: seq<ApiBalance>, b: seq<ApiBalance>, c: Content)
    requires SameQuantities(a, UpdateBalances(b, c, 1))
    ensures SameQuantities(UpdateBalances(a, c, -1), b)
  {
    EventMovesBalances(b, c, 1);
    EventMovesBalances(a, c, -1);
    forall h, asset
      ensures ApiQuantity(UpdateBalances(a, c, -1), h, asset) == ApiQuantity(b, h, asset)
    {
      assert ApiQuantity(a, h, asset) == ApiQuantity(UpdateBalances(b, c, 1), h, asset);
    }
  }

  // ---------------------------------------------------------------- rows, address events, expirations

  lemma {:induction false} DropAbsentRowid(rows: seq<TableRow>, rowid: nat)
    requires forall i :: 0 <= i < |rows| ==> rows[i].rowid != rowid
    ensures DropRowid(rows, rowid) == rows
  {
    if rows != [] { DropAbsentRowid(rows[..|rows| - 1], rowid); }
  }

  lemma DropInserted(rows: seq<TableRow>, columns: Record)
    requires Increasing(rows)
    ensures DropRowid(rows + [TableRow(NextRowid(rows), columns)], NextRowid(rows)) == rows
    ensures HasRowid(rows + [TableRow(NextRowid(rows), columns)], NextRowid(rows))
  {
    var longer := rows + [TableRow(NextRowid(rows), columns)];
    assert longer[..|rows|] == rows && longer[|rows|].rowid == NextRowid(rows);
    DropAbsentRowid(rows, NextRowid(rows));
  }

  lemma {:induction false} DropAbsentEvents(events: seq<AddressEvent>, index: nat)
    requires forall e :: e in events ==> e.eventIndex != index
    ensures DropAddressEvents(events, index) == events
  {
    if events != [] { DropAbsentEvents(events[..|events| - 1], index); }
  }

  lemma {:induction false} DropAddedEvents(events: seq<AddressEvent>, added: seq<AddressEvent>, index: nat)
    requires forall e :: e in events ==> e.eventIndex != index
    requires forall e :: e in added ==> e.eventIndex == index
    ensures DropAddressEvents(events + added, index) == events
  {
    if added == [] {
      assert events + added == events;
      DropAbsentEvents(events, index);
    } else {
      var n := |added| - 1;
      assert (events + added)[..|events| + n] == events + added[..n];
      assert (events + added)[|events| + n] == added[n];
      DropAddedEvents(events, added[..n], index);
    }
  }

  lemma UndoRestoresAddressEvents(events: seq<AddressEvent>, c: Content)
    requires forall e :: e in events ==> e.eventIndex != c.messageIndex
    ensures RollbackAddressEvents(UpdateAddressEvents(events, c), c) == events
  {
    var fields := AddressFields(c.event);
    var added :=
      seq(|fields|, i requires 0 <= i < |fields| => AddressEvent(Cell(c.bindings, fields[i]), c.messageIndex));
    if RULES.addressFields(c.event).Some? {
      DropAddedEvents(events, added, c.messageIndex);
    } else {
      assert events + added == events;
    }
  }

  lemma {:induction false} DropExpirationKeeps(expirations: seq<Expiration>, e: Expiration)
    ensures |DropExpiration(expirations, e)| <= |expirations|
    ensures e !in expirations ==> DropExpiration(expirations, e) == expirations
    ensures e in expirations && e.objectId != Null && e.blockIndex != Null ==>
              |DropExpiration(expirations, e)| < |expirations|
    ensures forall x :: x in DropExpiration(expirations, e) ==>
              x in expirations && (e.objectId != Null && e.blockIndex != Null ==> x != e)
  {
    if expirations != [] {
      var rest, last := expirations[..|expirations| - 1], expirations[|expirations| - 1];
      assert forall x :: x in expirations <==> x in rest || x == last;
      DropExpirationKeeps(rest, e);
    }
  }

  /**
   * Deleting by object, block and type takes every copy: an expiration event is undone exactly when
   * no equal expiration was there before it.
   */
  lemma ExpirationUndoneIffNew(expirations: seq<Expiration>, c: Content)
    requires ExpirationOf(c).Some? && ExpirationOf(c).value.objectId != Null && ExpirationOf(c).value.blockIndex != Null
    ensures RollbackExpiration(UpdateExpiration(expirations, c), c) == expirations <==>
              ExpirationOf(c).value !in expirations
  {
    var e := ExpirationOf(c).value;
    DropExpirationKeeps(expirations, e);
    assert (expirations + [e])[..|expirations|] == expirations;
  }

  /** The expiration of an order, as an event of block 10. */
  function OrderExpired(): Content {
    Content(3, 10, Insert, "order_expirations", map["order_hash" := Text("ab"), "block_index" := Int(10)],
            "ORDER_EXPIRATION", None)
  }

  /**
   * Undone after an equal one, it takes the older one along. Only the pair of functions allows this: the ledger's
   * tables of expirations have the object as their key (messages/order.py:138-143, messages/bet.py:167-172), so its
   * log never holds two equal expirations.
   */
  lemma EqualExpirationIsLost()
    ensures var c, e := OrderExpired(), Expiration(Text("ab"), Int(10), "order");
            RollbackExpiration(UpdateExpiration([e], c), c) == []
  {
    var c, e := OrderExpired(), Expiration(Text("ab"), Int(10), "order");
    assert ExpirationOf(c) == Some(e);
    assert ([e] + [e])[..1] == [e] && [e][..0] == [];
    assert DropExpiration([e], e) == [];
  }

  // ---------------------------------------------------------------- one event

  lemma PutBack<V>(m: map<string, V>, key: string, other: V)
    requires key in m
    ensures m[key := other][key := m[key]] == m
  {
  }

  lemma InsertedRowIsDropped(tables: map<string, seq<TableRow>>, m: ApiMessage)
    requires var c := m.stamp.content; Inserting(c) && c.category in tables && Increasing(tables[c.category])
    requires m.previousState.None? && m.insertRowid == InsertedRowid(tables, m.stamp.content)
    ensures RollbackRow(ExecuteEvent(tables, m.stamp.content), m) == Some(tables)
  {
    var c := m.stamp.content;
    var rows := tables[c.category];
    DropInserted(rows, RowColumns(c));
    PutBack(tables, c.category, rows + [TableRow(NextRowid(rows), RowColumns(c))]);
  }

  lemma ParsedMessageIsDropped(s: ApiState, st: Stamp)
    requires Chained(ApiStamps(s.messages) + [st])
    ensures DropMessage(ParseEvent(s, st).messages, st.content.messageIndex) == s.messages
    ensures st.content.messageIndex == |s.messages|
  {
    ParseShape(s, st);
    assert (ApiStamps(s.messages) + [st])[|s.messages|] == st;
    DropLastMessage(ParseEvent(s, st).messages);
  }

  /** Undoing an insert event right after parsing it restores rows, address events and quantities. */
  lemma InsertIsUndone(s: ApiState, st: Stamp)
    requires Sound(s) && Inserting(st.content) && st.content.category in s.tables
    requires Chained(ApiStamps(s.messages) + [st])
    requires forall e :: e in s.addressEvents ==> e.eventIndex < |s.messages|
    ensures var parsed := ParseEvent(s, st);
            var undone := RollbackEvent(parsed, parsed.messages[|s.messages|]);
            && undone.Some? && undone.value.messages == s.messages && undone.value.tables == s.tables
            && undone.value.addressEvents == s.addressEvents && SameQuantities(undone.value.balances, s.balances)
            && undone.value.expirations == RollbackExpiration(UpdateExpiration(s.expirations, st.content), st.content)
  {
    var c, parsed := st.content, ParseEvent(s, st);
    ParsedMessageIsDropped(s, st);
    InsertedRowIsDropped(s.tables, parsed.messages[|s.messages|]);
    UndoRestoresAddressEvents(s.addressEvents, c);
    UndoRestoresQuantities(parsed.balances, s.balances, c);
  }

  predicate HasMatch(rows: seq<TableRow>, ids: seq<string>, wanted: Record) {
    exists i :: 0 <= i < |rows| && Matches(rows[i].columns, ids, wanted)
  }

  /** No two rows match. */
  predicate UniqueMatch(rows: seq<TableRow>, ids: seq<string>, wanted: Record) {
    forall i, j ::
      0 <= i < j < |rows| ==> !(Matches(rows[i].columns, ids, wanted) && Matches(rows[j].columns, ids, wanted))
  }

  lemma {:induction false} FirstMatchIsARow(rows: seq<TableRow>, ids: seq<string>, wanted: Record)
    ensures FirstMatch(rows, ids, wanted).Some? <==> HasMatch(rows, ids, wanted)
    ensures FirstMatch(rows, ids, wanted).Some? ==>
              exists i :: 0 <= i < |rows| && Matches(rows[i].columns, ids, wanted)
                          && rows[i].columns == FirstMatch(rows, ids, wanted).value
  {
    if rows != [] && !Matches(rows[0].columns, ids, wanted) {
      FirstMatchIsARow(rows[1..], ids, wanted);
      assert forall i :: 0 < i < |rows| ==> rows[i] == rows[1..][i - 1];
      assert forall i :: 0 <= i < |rows[1..]| ==> rows[i + 1] == rows[1..][i];
    }
  }

  lemma RestoringCurrentRowChangesNothing(rows: seq<TableRow>, ids: seq<string>, bindings: Record)
    requires FirstMatch(rows, ids, bindings).Some? && UniqueMatch(rows, ids, bindings)
    ensures var previous := FirstMatch(rows, ids, bindings).value;
            UpdateRows(rows, ids, previous, Without(previous, ids)) == rows
  {
    FirstMatchIsARow(rows, ids, bindings);
    var previous := FirstMatch(rows, ids, bindings).value;
    var restored := UpdateRows(rows, ids, previous, Without(previous, ids));
    forall i | 0 <= i < |rows|
      ensures restored[i] == rows[i]
    {
      if Matches(rows[i].columns, ids, previous) {
        assert Matches(rows[i].columns, ids, bindings) by {
          forall f | f in ids ensures CellIs(rows[i].columns, f, Cell(bindings, f)) {
            assert CellIs(previous, f, Cell(bindings, f));
          }
        }
        assert rows[i].columns + Without(previous, ids) == rows[i].columns;
      }
    }
  }

  /** Every column of `wanted` that is no key is there with the same value. */
  predicate Holds(columns: Record, ids: seq<string>, wanted: Record) {
    forall f :: f in wanted && f !in ids ==> f in columns && columns[f] == wanted[f]
  }

  /** The rows an update would change say already what it would set. */
  predicate AlreadyHolds(rows: seq<TableRow>, ids: seq<string>, wanted: Record) {
    forall i :: 0 <= i < |rows| && Matches(rows[i].columns, ids, wanted) ==> Holds(rows[i].columns, ids, wanted)
  }

  lemma MergeChangesNothingIff(columns: Record, ids: seq<string>, wanted: Record)
    ensures columns + Without(wanted, ids) == columns <==> Holds(columns, ids, wanted)
  {
    var merged := columns + Without(wanted, ids);
    if merged == columns {
      forall f | f in wanted && f !in ids ensures f in columns && columns[f] == wanted[f] {
        assert f in merged && merged[f] == wanted[f];
      }
    }
  }

  lemma UpdateChangesNothingIff(rows: seq<TableRow>, ids: seq<string>, wanted: Record)
    ensures UpdateRows(rows, ids, wanted, Without(wanted, ids)) == rows <==> AlreadyHolds(rows, ids, wanted)
  {
    var changed := UpdateRows(rows, ids, wanted, Without(wanted, ids));
    forall i | 0 <= i < |rows|
      ensures changed[i] == rows[i] <==>
              (Matches(rows[i].columns, ids, wanted) ==> Holds(rows[i].columns, ids, wanted))
    {
      MergeChangesNothingIff(rows[i].columns, ids, wanted);
    }
  }

  /** An update leaves the keys of every row, so the same rows match before and after. */
  lemma SameRowsMatch(rows: seq<TableRow>, ids: seq<string>, wanted: Record, bindings: Record)
    ensures var changed := UpdateRows(rows, ids, wanted, Without(wanted, ids));
            forall i :: 0 <= i < |rows| ==>
              (Matches(changed[i].columns, ids, bindings) <==> Matches(rows[i].columns, ids, bindings))
  {
    var changed := UpdateRows(rows, ids, wanted, Without(wanted, ids));
    forall i | 0 <= i < |rows|
      ensures Matches(changed[i].columns, ids, bindings) <==> Matches(rows[i].columns, ids, bindings)
    {
      assert forall f :: f in ids ==> Cell(changed[i].columns, f) == Cell(rows[i].columns, f);
    }
  }

  /** The same for what the undo is given: it finds a row exactly when the update would have, and only one. */
  lemma SameMatchAfter(rows: seq<TableRow>, changed: seq<TableRow>, ids: seq<string>, bindings: Record)
    requires |changed| == |rows|
    requires forall i :: 0 <= i < |rows| ==>
               (Matches(changed[i].columns, ids, bindings) <==> Matches(rows[i].columns, ids, bindings))
    ensures HasMatch(changed, ids, bindings) <==> HasMatch(rows, ids, bindings)
    ensures UniqueMatch(rows, ids, bindings) ==> UniqueMatch(changed, ids, bindings)
  {
    if HasMatch(rows, ids, bindings) {
      var i :| 0 <= i < |rows| && Matches(rows[i].columns, ids, bindings);
      assert Matches(changed[i].columns, ids, bindings);
    }
  }

  lemma UndoOfUpdate(tables: map<string, seq<TableRow>>, m: ApiMessage)
    requires var c := m.stamp.content; Updating(c) && c.category in tables
    requires m.insertRowid.None?
    requires m.previousState == PreviousState(ExecuteEvent(tables, m.stamp.content), m.stamp.content)
    requires var c := m.stamp.content; UniqueMatch(tables[c.category], UpdateIds(c.event), c.bindings)
    ensures var c := m.stamp.content;
            var changed := ExecuteEvent(tables, c);
            RollbackRow(changed, m) ==
            if HasMatch(tables[c.category], UpdateIds(c.event), c.bindings) then Some(changed) else None
  {
    var c := m.stamp.content;
    var ids, rows := UpdateIds(c.event), tables[c.category];
    var changed := UpdateRows(rows, ids, RowColumns(c), Without(RowColumns(c), ids));
    SameRowsMatch(rows, ids, RowColumns(c), c.bindings);
    SameMatchAfter(rows, changed, ids, c.bindings);
    FirstMatchIsARow(changed, ids, c.bindings);
    if m.previousState.Some? {
      RestoringCurrentRowChangesNothing(changed, ids, c.bindings);
      assert ExecuteEvent(tables, c)[c.category := changed] == ExecuteEvent(tables, c);
    }
  }

  /**
   * The previous state of an update is read after the update has run: undoing it raises exactly when no row has the
   * event's key, and otherwise changes no table, so that the tables come back exactly when every row with the key
   * held the new columns before.
   */
  lemma UpdateIsUndoneIffAlreadyHeld(s: ApiState, st: Stamp)
    requires Updating(st.content) && st.content.category in s.tables
    requires UniqueMatch(s.tables[st.content.category], UpdateIds(st.content.event), st.content.bindings)
    ensures var c, parsed := st.content, ParseEvent(s, st);
            var rows, ids := s.tables[c.category], UpdateIds(c.event);
            var undone := RollbackEvent(parsed, parsed.messages[|s.messages|]);
            && (undone.None? <==> !HasMatch(rows, ids, c.bindings))
            && (undone.Some? ==> undone.value.tables == parsed.tables)
            && (undone.Some? ==> (undone.value.tables == s.tables <==> AlreadyHolds(rows, ids, RowColumns(c))))
  {
    var c, parsed := st.content, ParseEvent(s, st);
    ParseShape(s, st);
    UndoOfUpdate(s.tables, parsed.messages[|s.messages|]);
    UpdateChangesNothingIff(s.tables[c.category], UpdateIds(c.event), RowColumns(c));
    assert s.tables[c.category := s.tables[c.category]] == s.tables;
  }

  function AnOpenOrder(): Record { map["tx_hash" := Text("ab"), "status" := Text("open")] }

  function OrderFilled(): Content {
    Content(0, 10, Update, "orders", map["tx_hash" := Text("ab"), "status" := Text("filled")], "ORDER_UPDATE", None)
  }

  lemma FilledNamesTheOrder()
    ensures Updating(OrderFilled()) && UpdateIds("ORDER_UPDATE") == ["tx_hash"]
    ensures Matches(AnOpenOrder(), ["tx_hash"], OrderFilled().bindings)
    ensures Matches(AnOpenOrder(), ["tx_hash"], RowColumns(OrderFilled()))
    ensures !Holds(AnOpenOrder(), ["tx_hash"], RowColumns(OrderFilled()))
  {
    assert forall f :: f in ["tx_hash"] <==> f == "tx_hash";
    assert |"status"| == 6 && |"tx_hash"| == 7 && |"block_index"| == 11 && |"open"| == 4 && |"filled"| == 6;
    assert "status" in RowColumns(OrderFilled()) && RowColumns(OrderFilled())["status"] == Text("filled");
    assert AnOpenOrder()["status"] == Text("open");
  }

  /** An order that was open stays filled when the event that filled it is undone. */
  lemma UpdateIsNotUndone(s: ApiState, eventHash: Hash)
    requires s.tables == map["orders" := [TableRow(1, AnOpenOrder())]]
    ensures var parsed := ParseEvent(s, Stamp(OrderFilled(), eventHash));
            |parsed.messages| == |s.messages| + 1 &&
            var undone := RollbackEvent(parsed, parsed.messages[|s.messages|]);
            undone.Some? && undone.value.tables == parsed.tables && undone.value.tables != s.tables
  {
    var st, rows := Stamp(OrderFilled(), eventHash), [TableRow(1, AnOpenOrder())];
    FilledNamesTheOrder();
    ParseShape(s, st);
    UpdateIsUndoneIffAlreadyHeld(s, st);
    assert rows[0].columns == AnOpenOrder();
    assert HasMatch(rows, ["tx_hash"], OrderFilled().bindings);
    assert !AlreadyHolds(rows, ["tx_hash"], RowColumns(OrderFilled()));
  }
}
