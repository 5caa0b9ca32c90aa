/** What the API's derived tables hold after a log, read off the log alone. */
module WatcherTables {
  import opened Records
  import opened Journal
  import opened Ledger
  import opened BalanceJournal
  import opened ApiWatcher
  import opened WatcherRollback

  /** The table starts empty and the events count from 0, as in a log the ledger has written. */
  predicate Counted(log: seq<Stamp>) {
    forall i :: 0 <= i < |log| ==> log[i].content.messageIndex == i
  }

  // ---------------------------------------------------------------- address events

  /** The addresses noted for one event, in order. */
  function AddressesAt(events: seq<AddressEvent>, index: nat): seq<Value> {
    if events == [] then []
    else
      var rest, last := AddressesAt(events[..|events| - 1], index), events[|events| - 1];
      if last.eventIndex == index then rest + [last.address] else rest
  }

  lemma {:induction false} AddressesAreEvents(events: seq<AddressEvent>, index: nat, v: Value)
    ensures v in AddressesAt(events, index) <==> AddressEvent(v, index) in events
  {
    if events != [] {
      var rest, last := events[..|events| - 1], events[|events| - 1];
      AddressesAreEvents(rest, index, v);
      assert events == rest + [last];
    }
  }

  lemma {:induction false} AddressesOfBoth(events: seq<AddressEvent>, added: seq<AddressEvent>, index: nat)
    ensures AddressesAt(events + added, index) == AddressesAt(events, index) + AddressesAt(added, index)
  {
    if added == [] {
      assert events + added == events;
    } else {
      var n := |added| - 1;
      assert (events + added)[..|events| + n] == events + added[..n];
      AddressesOfBoth(events, added[..n], index);
    }
  }

  lemma {:induction false} AddressesOfOne(added: seq<AddressEvent>, own: nat, index: nat)
    requires forall i :: 0 <= i < |added| ==> added[i].eventIndex == own
    ensures index != own ==> AddressesAt(added, index) == []
    ensures |AddressesAt(added, own)| == |added|
    ensures forall i :: 0 <= i < |added| ==> AddressesAt(added, own)[i] == added[i].address
  {
    if added != [] { AddressesOfOne(added[..|added| - 1], own, index); }
  }

  /** An event that is parsed, and whose kind has address fields. */
  predicate HasAddresses(c: Content) {
    c.event != "NEW_TRANSACTION_OUTPUT" && AddressFieldsFor(c.event).Some?
  }

  /** The cells of the event's address fields, one after the other, or none when it has no such fields. */
  ghost predicate NotesFields(noted: seq<Value>, c: Content) {
    if !HasAddresses(c) then noted == []
    else
      var fields := AddressFieldsFor(c.event).value;
      |noted| == |fields| && forall k :: 0 <= k < |noted| ==> noted[k] == Cell(c.bindings, fields[k])
  }

  lemma OneEventNotes(s: ApiState, st: Stamp, index: nat)
    ensures var before, after := AddressesAt(s.addressEvents, index), AddressesAt(ParseEvent(s, st).addressEvents,
                                                                                  index);
            && (index != st.content.messageIndex ==> after == before)
            && (before == [] && index == st.content.messageIndex ==> NotesFields(after, st.content))
  {
    if !Skips(st.content.event) {
      var events := UpdateAddressEvents(s.addressEvents, st.content);
      var added := events[|s.addressEvents|..];
      assert events == s.addressEvents + added;
      AddressesOfBoth(s.addressEvents, added, index);
      AddressesOfOne(added, st.content.messageIndex, index);
    }
  }

  /** After any log every event has noted each of its address fields in a row of its own, and nothing else is there. */
  lemma {:induction false} EachFieldHasItsRow(s: ApiState, log: seq<Stamp>, index: nat)
    requires s.addressEvents == [] && Counted(log)
    ensures var noted := AddressesAt(ParseAll(s, log).addressEvents, index);
            if index < |log| then NotesFields(noted, log[index].content) else noted == []
  {
    if log != [] {
      var n := |log| - 1;
      EachFieldHasItsRow(s, log[..n], index);
      OneEventNotes(ParseAll(s, log[..n]), log[n], index);
    }
  }

  /** An address is in the table for an event exactly when the event is not skipped and an address field holds it. */
  lemma AddressEventsOfLog(s: ApiState, log: seq<Stamp>, v: Value, i: nat)
    requires s.addressEvents == [] && Counted(log)
    ensures AddressEvent(v, i) in ParseAll(s, log).addressEvents <==>
            && i < |log| && HasAddresses(log[i].content)
            && exists f :: f in AddressFieldsFor(log[i].content.event).value && Cell(log[i].content.bindings, f) == v
  {
    var noted := AddressesAt(ParseAll(s, log).addressEvents, i);
    EachFieldHasItsRow(s, log, i);
    AddressesAreEvents(ParseAll(s, log).addressEvents, i, v);
    if i < |log| && HasAddresses(log[i].content) {
      var c := log[i].content;
      var fields := AddressFieldsFor(c.event).value;
      if v in noted {
        var k :| 0 <= k < |noted| && noted[k] == v;
        assert fields[k] in fields && Cell(c.bindings, fields[k]) == v;
      }
      if f :| f in fields && Cell(c.bindings, f) == v {
        var k :| 0 <= k < |fields| && fields[k] == f;
        assert noted[k] == v;
      }
    }
  }

  // ---------------------------------------------------------------- expirations

  /** An event that says this object has expired. */
  predicate Expires(c: Content, e: Expiration) {
    && c.event != "NEW_TRANSACTION_OUTPUT" && ExpirationFor(c.event).Some?
    && var k := ExpirationFor(c.event).value;
       e.objectId == Cell(c.bindings, k.objectField) && e.blockIndex == Cell(c.bindings, "block_index")
         && e.kind == k.kind
  }

  lemma OneEventExpires(s: ApiState, st: Stamp, e: Expiration)
    ensures e in ParseEvent(s, st).expirations <==> e in s.expirations || Expires(st.content, e)
  {
    if Expires(st.content, e) {
      assert ExpirationOf(st.content) == Some(e);
      assert (s.expirations + [e])[|s.expirations|] == e;
    }
  }

  predicate SomeExpires(log: seq<Stamp>, e: Expiration) {
    exists i :: 0 <= i < |log| && Expires(log[i].content, e)
  }

  lemma SomeExpiresOfMore(log: seq<Stamp>, st: Stamp, e: Expiration)
    ensures SomeExpires(log + [st], e) <==> SomeExpires(log, e) || Expires(st.content, e)
  {
    var longer := log + [st];
    assert longer[|log|] == st;
    if i :| 0 <= i < |log| && Expires(log[i].content, e) { assert Expires(longer[i].content, e); }
  }

  /** An expiration is in the table exactly when an event of the log says it. */
  lemma {:induction false} ExpirationsOfLog(s: ApiState, log: seq<Stamp>, e: Expiration)
    requires s.expirations == []
    ensures e in ParseAll(s, log).expirations <==> SomeExpires(log, e)
  {
    if log != [] {
      var rest, last := log[..|log| - 1], log[|log| - 1];
      ExpirationsOfLog(s, rest, e);
      OneEventExpires(ParseAll(s, rest), last, e);
      SomeExpiresOfMore(rest, last, e);
      assert rest + [last] == log;
    }
  }

  // ---------------------------------------------------------------- the rows of balances

  /** An output, if the event names one, and otherwise the address. */
  predicate IsAbout(bindings: Record, h: Holder) {
    var utxo := Cell(bindings, "utxo");
    match h
    case Utxo(u) => utxo == Text(u)
    case Address(a) => Cell(bindings, "address") == Text(a) && !(utxo.Text? && utxo.s != "")
  }

  /** A credit or debit of this holder and asset, not of zero. */
  predicate Moves(c: Content, h: Holder, asset: string) {
    && c.event in {"DEBIT", "CREDIT"} && IsAbout(c.bindings, h) && Cell(c.bindings, "asset") == Text(asset)
    && Cell(c.bindings, "quantity").Int? && Cell(c.bindings, "quantity") != Int(0)
  }

  predicate HasRow(balances: seq<ApiBalance>, h: Holder, asset: string, utxoAddress: Value) {
    exists i :: 0 <= i < |balances| && balances[i].holder == h && balances[i].asset == asset
                && balances[i].utxoAddress == utxoAddress
  }

  lemma ChangedRows(balances: seq<ApiBalance>, changed: seq<ApiBalance>, h: Holder, asset: string, v: Value)
    requires |changed| == |balances|
    requires forall i :: 0 <= i < |balances| ==> changed[i] == balances[i].(quantity := changed[i].quantity)
    ensures HasRow(changed, h, asset, v) <==> HasRow(balances, h, asset, v)
    ensures HasBalance(changed, h, asset) <==> HasBalance(balances, h, asset)
  {
    if i :| 0 <= i < |changed| && changed[i].holder == h && changed[i].asset == asset {
      assert balances[i].holder == h && balances[i].asset == asset;
    }
    if i :| 0 <= i < |changed| && changed[i].holder == h && changed[i].asset == asset && changed[i].utxoAddress == v {
      assert balances[i].utxoAddress == v;
    }
    if i :| 0 <= i < |balances| && balances[i].holder == h && balances[i].asset == asset {
      assert changed[i].holder == h && changed[i].asset == asset;
    }
    if HasRow(balances, h, asset, v) {
      var i :| 0 <= i < |balances| && balances[i].holder == h && balances[i].asset == asset
               && balances[i].utxoAddress == v;
      assert changed[i].utxoAddress == v;
    }
  }

  lemma AddedRow(balances: seq<ApiBalance>, row: ApiBalance, h: Holder, asset: string, v: Value)
    ensures HasRow(balances + [row], h, asset, v) <==>
            HasRow(balances, h, asset, v) || (row.holder == h && row.asset == asset && row.utxoAddress == v)
    ensures HasBalance(balances + [row], h, asset) <==>
            HasBalance(balances, h, asset) || (row.holder == h && row.asset == asset)
  {
    var longer := balances + [row];
    assert longer[|balances|] == row && forall i :: 0 <= i < |balances| ==> longer[i] == balances[i];
    if i :| 0 <= i < |balances| && balances[i].holder == h && balances[i].asset == asset {
      assert longer[i].holder == h && longer[i].asset == asset;
    }
    if HasRow(balances, h, asset, v) {
      var i :| 0 <= i < |balances| && balances[i].holder == h && balances[i].asset == asset
               && balances[i].utxoAddress == v;
      assert longer[i].utxoAddress == v;
    }
  }

  /** A first movement makes the row, with the address of its output; later ones leave that address alone. */
  lemma OneEventMakesRow(balances: seq<ApiBalance>, c: Content, h: Holder, asset: string, v: Value)
    ensures var balances' := UpdateBalances(balances, c, 1);
            && (HasBalance(balances', h, asset) <==> HasBalance(balances, h, asset) || Moves(c, h, asset))
            && (HasRow(balances', h, asset, v) <==>
                  HasRow(balances, h, asset, v)
                  || (!HasBalance(balances, h, asset) && Moves(c, h, asset) && v == Cell(c.bindings, "utxo_address")))
  {
    var h', asset', quantity := EventHolder(c.bindings), Cell(c.bindings, "asset"), Cell(c.bindings, "quantity");
    if c.event in {"DEBIT", "CREDIT"} && h'.Some? && asset'.Text? && quantity.Int? && quantity.n != 0 {
      assert Moves(c, h'.value, asset'.s);
      assert Moves(c, h, asset) <==> h == h'.value && asset == asset'.s;
      var balances' := UpdateBalances(balances, c, 1);
      if HasBalance(balances, h'.value, asset'.s) {
        ChangedRows(balances, balances', h, asset, v);
      } else {
        AddedRow(balances, balances'[|balances|], h, asset, v);
      }
    }
  }

  /** The first event of the log that moves this key. */
  predicate FirstMove(log: seq<Stamp>, i: nat, h: Holder, asset: string) {
    i < |log| && Moves(log[i].content, h, asset) && forall j :: 0 <= j < i ==> !Moves(log[j].content, h, asset)
  }

  predicate SomeMove(log: seq<Stamp>, h: Holder, asset: string) {
    exists i :: 0 <= i < |log| && Moves(log[i].content, h, asset)
  }

  ghost predicate FirstMoveHas(log: seq<Stamp>, h: Holder, asset: string, utxoAddress: Value) {
    exists i: nat :: FirstMove(log, i, h, asset) && utxoAddress == Cell(log[i].content.bindings, "utxo_address")
  }

  lemma SomeMoveOfMore(log: seq<Stamp>, st: Stamp, h: Holder, asset: string)
    ensures SomeMove(log + [st], h, asset) <==> SomeMove(log, h, asset) || Moves(st.content, h, asset)
  {
    var longer := log + [st];
    assert longer[|log|] == st;
    if i :| 0 <= i < |log| && Moves(log[i].content, h, asset) { assert Moves(longer[i].content, h, asset); }
  }

  lemma FirstMoveOfMore(log: seq<Stamp>, st: Stamp, h: Holder, asset: string, v: Value)
    ensures FirstMoveHas(log + [st], h, asset, v) <==>
            || FirstMoveHas(log, h, asset, v)
            || (!SomeMove(log, h, asset) && Moves(st.content, h, asset)
                && v == Cell(st.content.bindings, "utxo_address"))
  {
    var longer := log + [st];
    assert longer[|log|] == st && forall i :: 0 <= i < |log| ==> longer[i] == log[i];
    if FirstMoveHas(log, h, asset, v) {
      var i: nat :| FirstMove(log, i, h, asset) && v == Cell(log[i].content.bindings, "utxo_address");
      assert FirstMove(longer, i, h, asset);
    }
    if !SomeMove(log, h, asset) && Moves(st.content, h, asset) { assert FirstMove(longer, |log|, h, asset); }
    if FirstMoveHas(longer, h, asset, v) {
      var i: nat :| FirstMove(longer, i, h, asset) && v == Cell(longer[i].content.bindings, "utxo_address");
      assert i < |log| ==> FirstMove(log, i, h, asset);
    }
  }

  lemma SkippedMovesNothing(s: ApiState, st: Stamp)
    ensures ParseEvent(s, st).balances == UpdateBalances(s.balances, st.content, 1)
  {
    if Skips(st.content.event) { assert |"NEW_TRANSACTION_OUTPUT"| == 22 && |"DEBIT"| == 5 && |"CREDIT"| == 6; }
  }

  /** The row of a key is there exactly when the log moves it, and holds what the first event to do so names. */
  ghost predicate RowComesFrom(log: seq<Stamp>, balances: seq<ApiBalance>, h: Holder, asset: string, v: Value) {
    && (HasBalance(balances, h, asset) <==> SomeMove(log, h, asset))
    && (HasRow(balances, h, asset, v) <==> FirstMoveHas(log, h, asset, v))
  }

  lemma OneEventMore(log: seq<Stamp>, st: Stamp, before: seq<ApiBalance>, after: seq<ApiBalance>, h: Holder,
                     asset: string, v: Value)
    requires RowComesFrom(log, before, h, asset, v) && after == UpdateBalances(before, st.content, 1)
    ensures RowComesFrom(log + [st], after, h, asset, v)
  {
    OneEventMakesRow(before, st.content, h, asset, v);
    SomeMoveOfMore(log, st, h, asset);
    FirstMoveOfMore(log, st, h, asset, v);
  }

  /**
   * A key has a row exactly when an event of the log moves it, and the row's `utxo_address` is that of the first such
   * event.
   */
  lemma {:induction false} BalanceRowsOfLog(s: ApiState, log: seq<Stamp>, h: Holder, asset: string, v: Value)
    requires s.balances == []
    ensures RowComesFrom(log, ParseAll(s, log).balances, h, asset, v)
  {
    if log != [] {
      var rest, last := log[..|log| - 1], log[|log| - 1];
      BalanceRowsOfLog(s, rest, h, asset, v);
      SkippedMovesNothing(ParseAll(s, rest), last);
      OneEventMore(rest, last, ParseAll(s, rest).balances, ParseAll(s, log).balances, h, asset, v);
      assert rest + [last] == log;
    }
  }

  // ---------------------------------------------------------------- rowids

  /** The event inserts a row into this table. */
  predicate Inserts(c: Content, table: string) {
    c.event != "NEW_TRANSACTION_OUTPUT" && c.command.Insert? && c.category == table
  }

  function Inserted(log: seq<Stamp>, table: string): nat {
    if log == [] then 0
    else Inserted(log[..|log| - 1], table) + if Inserts(log[|log| - 1].content, table) then 1 else 0
  }

  predicate CountsUp(rows: seq<TableRow>) {
    forall i :: 0 <= i < |rows| ==> rows[i].rowid == i + 1
  }

  lemma OneEventCountsUp(s: ApiState, st: Stamp, table: string)
    requires CountsUp(RowsOf(s.tables, table))
    ensures var rows := RowsOf(ParseEvent(s, st).tables, table);
            && CountsUp(rows)
            && |rows| == |RowsOf(s.tables, table)| + if Inserts(st.content, table) then 1 else 0
  {
  }

  /** From an empty table each insert event adds one row, and the rowids count from 1. */
  lemma {:induction false} RowidsOfLog(s: ApiState, log: seq<Stamp>, table: string)
    requires RowsOf(s.tables, table) == []
    ensures var rows := RowsOf(ParseAll(s, log).tables, table); CountsUp(rows) && |rows| == Inserted(log, table)
  {
    if log != [] {
      RowidsOfLog(s, log[..|log| - 1], table);
      OneEventCountsUp(ParseAll(s, log[..|log| - 1]), log[|log| - 1], table);
    }
  }

  // ---------------------------------------------------------------- the tables of events, read the other way

  predicate NamesSource(event: string) {
    match event
    case "NEW_TRANSACTION" | "ENHANCED_SEND" | "MPMA_SEND" | "SEND" | "ASSET_TRANSFER" | "SWEEP" => true
    case "ASSET_DIVIDEND" | "RESET_ISSUANCE" | "ASSET_ISSUANCE" | "ASSET_DESTRUCTION" | "OPEN_ORDER" => true
    case "BTC_PAY" | "CANCEL_ORDER" => true
    case "ORDER_EXPIRATION" | "OPEN_DISPENSER" | "DISPENSER_UPDATE" | "REFILL_DISPENSER" | "DISPENSE" => true
    case "BROADCAST" | "BURN" | "NEW_FAIRMINT" | "NEW_FAIRMINTER" => true
    case _ => false
  }

  predicate NamesDestination(event: string) {
    match event
    case "NEW_TRANSACTION" | "ENHANCED_SEND" | "MPMA_SEND" | "SEND" | "SWEEP" | "BTC_PAY" | "REFILL_DISPENSER" => true
    case "DISPENSE" => true
    case _ => false
  }

  predicate NamesIssuer(event: string) {
    match event
    case "ASSET_TRANSFER" | "RESET_ISSUANCE" | "ASSET_ISSUANCE" => true
    case _ => false
  }

  predicate NamesBothSides(event: string) {
    match event
    case "ORDER_MATCH" | "ORDER_MATCH_EXPIRATION" => true
    case _ => false
  }

  predicate NamesField(event: string, field: string) {
    match field
    case "source" => NamesSource(event)
    case "destination" => NamesDestination(event)
    case "issuer" => NamesIssuer(event)
    case "tx0_address" => NamesBothSides(event)
    case "tx1_address" => NamesBothSides(event)
    case "address" => event == "DEBIT" || event == "CREDIT"
    case "origin" => event == "OPEN_DISPENSER"
    case "oracle_address" => event == "OPEN_DISPENSER"
    case _ => false
  }

  /** Field by field: which events name an address in it. */
  lemma FieldsOfEvents(event: string, field: string)
    ensures (AddressFieldsFor(event).Some? && field in AddressFieldsFor(event).value) <==> NamesField(event, field)
  {
  }

  predicate IdentifiedBy(event: string, field: string) {
    match event
    case "BET_MATCH_UPDATE" | "ORDER_MATCH_UPDATE" | "RPS_MATCH_UPDATE" => field == "id"
    case "TRANSACTION_PARSED" | "BET_UPDATE" | "DISPENSER_UPDATE" | "ORDER_FILLED" | "ORDER_UPDATE" => field ==
      "tx_hash"
    case "RPS_UPDATE" | "FAIRMINTER_UPDATE" => field == "tx_hash"
    case "BLOCK_PARSED" => field == "block_index"
    case "ADDRESS_OPTIONS_UPDATE" => field == "address"
    case _ => false
  }

  /** By which column each update event names its row. */
  lemma IdsOfEvents(event: string, field: string)
    ensures field in UpdateIdsFor(event) <==> IdentifiedBy(event, field)
  {
  }

  /** The rows of a table are named as its update events name them. */
  lemma KeysOfTables()
    ensures TableKeysFor("orders") == UpdateIdsFor("ORDER_UPDATE") == UpdateIdsFor("ORDER_FILLED")
    ensures TableKeysFor("order_matches") == UpdateIdsFor("ORDER_MATCH_UPDATE")
    ensures TableKeysFor("bets") == UpdateIdsFor("BET_UPDATE")
    ensures TableKeysFor("bet_matches") == UpdateIdsFor("BET_MATCH_UPDATE")
    ensures TableKeysFor("rps") == UpdateIdsFor("RPS_UPDATE")
    ensures TableKeysFor("rps_matches") == UpdateIdsFor("RPS_MATCH_UPDATE")
    ensures TableKeysFor("dispensers") == UpdateIdsFor("DISPENSER_UPDATE")
    ensures TableKeysFor("addresses") == UpdateIdsFor("ADDRESS_OPTIONS_UPDATE")
    ensures TableKeysFor("fairminters") == UpdateIdsFor("FAIRMINTER_UPDATE")
    ensures TableKeysFor("blocks") == UpdateIdsFor("BLOCK_PARSED")
    ensures TableKeysFor("transactions") == UpdateIdsFor("TRANSACTION_PARSED")
  {
  }

  /** What can expire, as it stands in the event and in the table. */
  predicate CanExpire(thing: string, kind: string) {
    (thing == "ORDER" && kind == "order") || (thing == "RPS" && kind == "rps") || (thing == "BET" && kind == "bet")
  }

  /** Orders, games and bets expire by hash, */
  lemma ExpirationsAreNamed(thing: string, kind: string)
    requires CanExpire(thing, kind)
    ensures ExpirationFor(thing + "_EXPIRATION") == Some(ExpirationKind(kind + "_hash", kind))
  {
    if kind == "order" {
      assert thing + "_EXPIRATION" == "ORDER_EXPIRATION" && kind + "_hash" == "order_hash";
    } else if kind == "rps" {
      assert thing + "_EXPIRATION" == "RPS_EXPIRATION" && kind + "_hash" == "rps_hash";
    } else {
      assert thing + "_EXPIRATION" == "BET_EXPIRATION" && kind + "_hash" == "bet_hash";
    }
  }

  /** and their matches by id. */
  lemma MatchExpirationsAreNamed(thing: string, kind: string)
    requires CanExpire(thing, kind)
    ensures ExpirationFor(thing + "_MATCH_EXPIRATION") == Some(ExpirationKind(kind + "_match_id", kind + "_match"))
  {
    if kind == "order" {
      assert thing + "_MATCH_EXPIRATION" == "ORDER_MATCH_EXPIRATION" && kind + "_match_id" == "order_match_id";
      assert kind + "_match" == "order_match";
    } else if kind == "rps" {
      assert thing + "_MATCH_EXPIRATION" == "RPS_MATCH_EXPIRATION" && kind + "_match_id" == "rps_match_id";
      assert kind + "_match" == "rps_match";
    } else {
      assert thing + "_MATCH_EXPIRATION" == "BET_MATCH_EXPIRATION" && kind + "_match_id" == "bet_match_id";
      assert kind + "_match" == "bet_match";
    }
  }
}
