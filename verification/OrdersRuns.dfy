/** Keeping the orders cache: every call of insert, update and fill, and exactly when one of them breaks it. */
module OrdersRuns {
  import opened Records
  import opened Ledger
  import opened OrdersCache

  // ---------------------------------------------------------------- the table's side

  /** `insert_update` on the orders table; without a row to update it raises and nothing changes. */
  function TableUpdate(table: seq<Record>, h: Value, data: Record, block: int): seq<Record> {
    match Latest(table, h)
    case None => table
    case Some(row) => table + [UpdatedRow(row, data, block)]
  }

  // ---------------------------------------------------------------- the cache's side

  predicate Stale(r: Record, block: int) {
    Status(r) == FILLED && Cell(r, "block_index").Int? && Cell(r, "block_index").n < block - 50
  }

  function DropStale(rows: seq<Record>, block: int): (kept: seq<Record>)
    ensures forall r :: r in kept <==> r in rows && !Stale(r, block)
  {
    if rows == [] then []
    else
      var rest, last := DropStale(rows[..|rows| - 1], block), rows[|rows| - 1];
      assert forall r :: r in rows <==> r in rows[..|rows| - 1] || r == last;
      if Stale(last, block) then rest else rest + [last]
  }

  /** Every 50 blocks at most, filled orders not touched for 50 blocks are dropped. */
  function Clean(c: Cache, block: int): Cache {
    if block - c.lastCleaning < 50 then c else Cache(DropStale(c.rows, block), block)
  }

  function CacheInsert(c: Cache, order: Record, block: int): Cache {
    if Cell(order, "block_index") == Int(MEMPOOL_BLOCK_INDEX) then c
    else Clean(c.(rows := c.rows + [order]), block)
  }

  function DropHash(rows: seq<Record>, h: Value): (kept: seq<Record>)
    ensures forall r :: r in kept <==> r in rows && !CellIs(r, "tx_hash", h)
  {
    if rows == [] then []
    else
      var rest, last := DropHash(rows[..|rows| - 1], h), rows[|rows| - 1];
      assert forall r :: r in rows <==> r in rows[..|rows| - 1] || r == last;
      if CellIs(last, "tx_hash", h) then rest else rest + [last]
  }

  function SetRow(r: Record, h: Value, data: Record, block: int): Record {
    if CellIs(r, "tx_hash", h) then UpdatedRow(r, data, block) else r
  }

  function SetHash(rows: seq<Record>, h: Value, data: Record, block: int): (updated: seq<Record>)
    ensures |updated| == |rows| && forall i :: 0 <= i < |rows| ==> updated[i] == SetRow(rows[i], h, data, block)
  {
    seq(|rows|, i requires 0 <= i < |rows| => SetRow(rows[i], h, data, block))
  }

  function CacheUpdate(c: Cache, h: Value, data: Record, block: int): Cache {
    if Cell(data, "status") == EXPIRED then c.(rows := DropHash(c.rows, h))
    else Clean(c.(rows := SetHash(c.rows, h, data, block)), block)
  }

  /** An update carries a status and leaves what identifies the order alone. */
  predicate GoodData(data: Record) {
    && "status" in data
    && "tx_hash" !in data && "tx_index" !in data && "give_asset" !in data && "get_asset" !in data
  }

  predicate Cached(c: Cache, h: Value) {
    exists i :: 0 <= i < |c.rows| && Hash(c.rows[i]) == h
  }

  // ---------------------------------------------------------------- cleaning

  lemma {:induction false} DropStaleKeepsDistinct(rows: seq<Record>, block: int)
    requires DistinctHashes(rows)
    ensures DistinctHashes(DropStale(rows, block))
  {
    if rows != [] {
      var rest, last := rows[..|rows| - 1], rows[|rows| - 1];
      DropStaleKeepsDistinct(rest, block);
      KeptDiffer(rest, DropStale(rest, block), last);
    }
  }

  lemma KeptDiffer(rest: seq<Record>, kept: seq<Record>, last: Record)
    requires DistinctHashes(rest + [last]) && forall r :: r in kept ==> r in rest
    ensures forall i :: 0 <= i < |kept| ==> Hash(kept[i]) != Hash(last)
  {
    forall i | 0 <= i < |kept|
      ensures Hash(kept[i]) != Hash(last)
    {
      assert kept[i] in rest;
      var k :| 0 <= k < |rest| && rest[k] == kept[i];
      assert (rest + [last])[k] == rest[k] && (rest + [last])[|rest|] == last;
    }
  }

  lemma {:induction false} DropHashKeepsDistinct(rows: seq<Record>, h: Value)
    requires DistinctHashes(rows)
    ensures DistinctHashes(DropHash(rows, h))
  {
    if rows != [] {
      var rest, last := rows[..|rows| - 1], rows[|rows| - 1];
      DropHashKeepsDistinct(rest, h);
      KeptDiffer(rest, DropHash(rest, h), last);
    }
  }

  /** Cleaning only drops filled orders: it never changes an answer. */
  lemma {:induction false} DropStaleKeepsMatches(rows: seq<Record>, block: int, txHash: Value, giveAsset: Value,
                                                 getAsset: Value)
    ensures MatchingRows(DropStale(rows, block), txHash, giveAsset, getAsset) ==
            MatchingRows(rows, txHash, giveAsset, getAsset)
  {
    if rows != [] {
      var rest, last := rows[..|rows| - 1], rows[|rows| - 1];
      DropStaleKeepsMatches(rest, block, txHash, giveAsset, getAsset);
      var kept := DropStale(rest, block);
      assert (kept + [last])[..|kept|] == kept;
    }
  }

  /** Nothing within 50 blocks of the last cleaning; else the filled orders go that are older than 50 blocks. */
  lemma WhatCleaningDrops(c: Cache, block: int)
    ensures var c' := Clean(c, block);
            if block < c.lastCleaning + 50 then c' == c
            else
              && c'.lastCleaning == block
              && forall r :: r in c'.rows <==>
                   r in c.rows && (Cell(r, "status") == Text("filled") && Cell(r, "block_index").Int? ==>
                                     Cell(r, "block_index").n >= block - 50)
  {
  }

  lemma CleanStaysInStep(c: Cache, table: seq<Record>, block: int)
    requires InStep(c, table)
    ensures InStep(Clean(c, block), table)
  {
    DropStaleKeepsDistinct(c.rows, block);
  }

  // ---------------------------------------------------------------- one call

  lemma LatestOfAppend(table: seq<Record>, r: Record, h: Value)
    ensures Latest(table + [r], h) == if CellIs(r, "tx_hash", h) then Some(r) else Latest(table, h)
  {
    assert (table + [r])[..|table|] == table;
  }

  /** A new order, in the table and in the cache. */
  lemma InsertStaysInStep(c: Cache, table: seq<Record>, order: Record, block: int)
    requires InStep(c, table) && Typed(order) && Latest(table, Hash(order)).None?
    requires Cell(order, "block_index") != Int(MEMPOOL_BLOCK_INDEX)
    ensures InStep(CacheInsert(c, order, block), table + [order])
  {
    var rows, table' := c.rows + [order], table + [order];
    forall h ensures Latest(table', h) == if CellIs(order, "tx_hash", h) then Some(order) else Latest(table, h) {
      LatestOfAppend(table, order, h);
    }
    forall i | 0 <= i < |c.rows|
      ensures Hash(c.rows[i]) != Hash(order)
    {
      assert c.rows[i] in c.rows;
    }
    CleanStaysInStep(c.(rows := rows), table', block);
  }

  lemma DropStaysInStep(c: Cache, table: seq<Record>, h: Value, data: Record, block: int)
    requires InStep(c, table) && Latest(table, h).Some? && Cell(data, "status") == EXPIRED && "tx_hash" !in data
    ensures InStep(c.(rows := DropHash(c.rows, h)), TableUpdate(table, h, data, block))
  {
    var row := UpdatedRow(Latest(table, h).value, data, block);
    LatestIsARow(table, h);
    forall x ensures Latest(table + [row], x) == if x == h then Some(row) else Latest(table, x) {
      LatestOfAppend(table, row, x);
    }
    DropHashKeepsDistinct(c.rows, h);
    forall x | Latest(table + [row], x).Some? && Status(Latest(table + [row], x).value) == OPEN
      ensures Latest(table + [row], x).value in DropHash(c.rows, h)
    {
      LatestIsARow(table, x);
    }
  }

  lemma SetStaysInStep(c: Cache, table: seq<Record>, h: Value, data: Record, block: int)
    requires InStep(c, table) && Latest(table, h).Some? && GoodData(data)
    requires Cell(data, "status") == OPEN ==> Cached(c, h)
    ensures InStep(c.(rows := SetHash(c.rows, h, data, block)), TableUpdate(table, h, data, block))
  {
    var rows := SetHash(c.rows, h, data, block);
    var row := UpdatedRow(Latest(table, h).value, data, block);
    LatestIsARow(table, h);
    forall x ensures Latest(table + [row], x) == if x == h then Some(row) else Latest(table, x) {
      LatestOfAppend(table, row, x);
    }
    forall i | 0 <= i < |rows|
      ensures Hash(rows[i]) == Hash(c.rows[i]) && Latest(table + [row], Hash(rows[i])) == Some(rows[i])
    {
      assert c.rows[i] in c.rows;
    }
    forall x | Latest(table + [row], x).Some? && Status(Latest(table + [row], x).value) == OPEN
      ensures Latest(table + [row], x).value in rows
    {
      if x == h {
        var i :| 0 <= i < |c.rows| && Hash(c.rows[i]) == h;
        assert c.rows[i] in c.rows && rows[i] == row;
      } else {
        var r := Latest(table, x).value;
        LatestIsARow(table, x);
        assert r in c.rows;
        var i :| 0 <= i < |c.rows| && c.rows[i] == r;
        assert rows[i] == r;
      }
    }
  }

  lemma UpdateStaysInStep(c: Cache, table: seq<Record>, h: Value, data: Record, block: int)
    requires InStep(c, table) && GoodData(data)
    requires Cell(data, "status") == OPEN ==> Cached(c, h)
    ensures Latest(table, h).Some? ==> InStep(CacheUpdate(c, h, data, block), TableUpdate(table, h, data, block))
  {
    if Latest(table, h).Some? {
      if Cell(data, "status") == EXPIRED {
        DropStaysInStep(c, table, h, data, block);
      } else {
        SetStaysInStep(c, table, h, data, block);
        CleanStaysInStep(c.(rows := SetHash(c.rows, h, data, block)), TableUpdate(table, h, data, block), block);
      }
    }
  }

  lemma UpdateKeepsTyped(c: Cache, table: seq<Record>, h: Value, data: Record, block: int)
    requires AllTyped(table) && Stable(table) && AllTyped(c.rows) && GoodData(data)
    ensures AllTyped(TableUpdate(table, h, data, block)) && Stable(TableUpdate(table, h, data, block))
    ensures AllTyped(CacheUpdate(c, h, data, block).rows)
  {
    LatestIsARow(table, h);
    var rows := SetHash(c.rows, h, data, block);
    forall r | r in rows
      ensures Typed(r)
    {
      var i :| 0 <= i < |rows| && rows[i] == r;
      assert c.rows[i] in c.rows;
    }
    if Latest(table, h).Some? {
      var row := Latest(table, h).value;
      var k :| 0 <= k < |table| && table[k] == row;
      var table' := TableUpdate(table, h, data, block);
      assert forall i :: 0 <= i < |table| ==> table'[i] == table[i];
    }
  }

  lemma OpenRowIsAnswered(table: seq<Record>, row: Record, txHash: Value)
    requires AllTyped(table) && Stable(table) && Latest(table, Hash(row)) == Some(row) && Status(row) == OPEN
    requires Typed(row) && txHash.Text? && txHash != Hash(row)
    ensures row in NoCacheQuery(table, txHash, Cell(row, "get_asset"), Cell(row, "give_asset"))
  {
    LatestPairsAreLatest(table, {}, txHash, Cell(row, "get_asset"), Cell(row, "give_asset"));
  }

  /**
   * An update keeps every query answer equal exactly when it does not open an order the cache has dropped,
   * which an expired order is at once and a filled one after 50 blocks.
   */
  lemma UpdateAgreesIffNotReopening(c: Cache, table: seq<Record>, h: Value, data: Record, block: int)
    requires AllTyped(table) && Stable(table) && AllTyped(c.rows) && InStep(c, table) && GoodData(data)
             && Latest(table, h).Some?
    ensures var c', table' := CacheUpdate(c, h, data, block), TableUpdate(table, h, data, block);
            && AllTyped(table') && Stable(table') && AllTyped(c'.rows)
            && (QueriesAgree(c', table') <==> (Cell(data, "status") == OPEN ==> Cached(c, h)))
  {
    var c', table' := CacheUpdate(c, h, data, block), TableUpdate(table, h, data, block);
    UpdateKeepsTyped(c, table, h, data, block);
    if Cell(data, "status") == OPEN ==> Cached(c, h) {
      UpdateStaysInStep(c, table, h, data, block);
      InStepAnswersAlike(c', table');
    } else {
      var row := UpdatedRow(Latest(table, h).value, data, block);
      LatestIsARow(table, h);
      LatestOfAppend(table, row, h);
      assert table' == table + [row] && row in table';
      var other := Text(h.s + "0");
      assert |other.s| == |h.s| + 1;
      OpenRowIsAnswered(table', row, other);
      NotCachedNotAnswered(c, h, data, block, row);
    }
  }

  lemma NotCachedNotAnswered(c: Cache, h: Value, data: Record, block: int, row: Record)
    requires !Cached(c, h) && Hash(row) == h && GoodData(data) && Cell(data, "status") == OPEN
    ensures row !in CacheUpdate(c, h, data, block).rows
  {
    var rows := SetHash(c.rows, h, data, block);
    forall r | r in rows
      ensures Hash(r) != h
    {
      var i :| 0 <= i < |rows| && rows[i] == r;
      assert Hash(rows[i]) == Hash(c.rows[i]);
    }
  }

  // ---------------------------------------------------------------- building the cache

  /** `SELECT *, MAX(rowid) FROM orders GROUP BY tx_hash`. */
  function LatestVersions(table: seq<Record>, seen: set<Value>): (found: seq<Record>)
    ensures forall r :: r in found ==> r in table
  {
    if table == [] then []
    else
      var rest, last := table[..|table| - 1], table[|table| - 1];
      if Hash(last) in seen then LatestVersions(rest, seen)
      else [last] + LatestVersions(rest, seen + {Hash(last)})
  }

  function InsertEach(c: Cache, orders: seq<Record>, block: int): Cache
    decreases |orders|
  {
    if orders == [] then c
    else
      var c' := if Status(orders[0]) != Null && Status(orders[0]) != EXPIRED
        then CacheInsert(c, orders[0], block) else c;
      InsertEach(c', orders[1..], block)
  }

  /** The constructor: every latest version that is not expired, then one more cleaning. */
  function Build(table: seq<Record>, block: int): Cache {
    Clean(InsertEach(Cache([], 0), LatestVersions(table, {}), block), block)
  }

  lemma {:induction false} VersionsAreLatest(table: seq<Record>, seen: set<Value>)
    requires AllTyped(table)
    ensures var found := LatestVersions(table, seen);
            && DistinctHashes(found)
            && forall r :: r in found <==> Hash(r) !in seen && Latest(table, Hash(r)) == Some(r)
  {
    if table != [] {
      var rest, last := table[..|table| - 1], table[|table| - 1];
      assert last in table && AllTyped(rest);
      if Hash(last) in seen {
        VersionsAreLatest(rest, seen);
      } else {
        VersionsAreLatest(rest, seen + {Hash(last)});
        var more := LatestVersions(rest, seen + {Hash(last)});
        assert forall i :: 0 <= i < |more| ==> more[i] in more;
        assert forall r :: r in [last] + more <==> r == last || r in more;
      }
    }
  }

  predicate NoMempoolRows(table: seq<Record>) {
    forall r :: r in table ==> Cell(r, "block_index") != Int(MEMPOOL_BLOCK_INDEX)
  }

  /** The cache so far holds latest versions only, none of those still to come, and every open one already met. */
  ghost predicate Building(c: Cache, table: seq<Record>, todo: seq<Record>) {
    && DistinctHashes(c.rows) && DistinctHashes(todo)
    && (forall r :: r in c.rows ==> Latest(table, Hash(r)) == Some(r))
    && (forall r, x :: r in c.rows && x in todo ==> Hash(r) != Hash(x))
    && (forall h :: Latest(table, h).Some? && Status(Latest(table, h).value) == OPEN ==>
          Latest(table, h).value in c.rows || Latest(table, h).value in todo)
  }

  lemma FirstOfRest(todo: seq<Record>)
    requires todo != [] && DistinctHashes(todo)
    ensures forall x :: x in todo <==> x == todo[0] || x in todo[1..]
    ensures forall x :: x in todo[1..] ==> Hash(todo[0]) != Hash(x)
    ensures DistinctHashes(todo[1..])
  {
    assert todo == [todo[0]] + todo[1..];
    forall x | x in todo[1..]
      ensures Hash(todo[0]) != Hash(x)
    {
      var k :| 0 <= k < |todo[1..]| && todo[1..][k] == x;
      assert todo[k + 1] == x;
    }
  }

  lemma SkippingOne(c: Cache, table: seq<Record>, todo: seq<Record>)
    requires todo != [] && Building(c, table, todo) && Status(todo[0]) != OPEN
    ensures Building(c, table, todo[1..])
  {
    FirstOfRest(todo);
  }

  lemma TakingOne(c: Cache, table: seq<Record>, todo: seq<Record>)
    requires todo != [] && Building(c, table, todo) && Latest(table, Hash(todo[0])) == Some(todo[0])
    ensures Building(c.(rows := c.rows + [todo[0]]), table, todo[1..])
  {
    FirstOfRest(todo);
    assert forall i :: 0 <= i < |c.rows| ==> c.rows[i] in c.rows;
  }

  lemma CleaningKeepsBuilding(c: Cache, table: seq<Record>, todo: seq<Record>, block: int)
    requires Building(c, table, todo)
    ensures Building(Clean(c, block), table, todo)
  {
    DropStaleKeepsDistinct(c.rows, block);
  }

  lemma BuildOne(c: Cache, table: seq<Record>, todo: seq<Record>, block: int)
    requires todo != [] && Building(c, table, todo) && AllTyped(c.rows) && Typed(todo[0])
    requires Latest(table, Hash(todo[0])) == Some(todo[0]) && Cell(todo[0], "block_index") != Int(MEMPOOL_BLOCK_INDEX)
    ensures var c' := if Status(todo[0]) != Null && Status(todo[0]) != EXPIRED
            then CacheInsert(c, todo[0], block) else c;
            Building(c', table, todo[1..]) && AllTyped(c'.rows)
  {
    if Status(todo[0]) != Null && Status(todo[0]) != EXPIRED {
      TakingOne(c, table, todo);
      CleaningKeepsBuilding(c.(rows := c.rows + [todo[0]]), table, todo[1..], block);
    } else {
      SkippingOne(c, table, todo);
    }
  }

  lemma {:induction false} BuildLoop(c: Cache, table: seq<Record>, todo: seq<Record>, block: int)
    requires Building(c, table, todo) && AllTyped(c.rows) && AllTyped(todo)
    requires NoMempoolRows(todo) && forall r :: r in todo ==> Latest(table, Hash(r)) == Some(r)
    ensures InStep(InsertEach(c, todo, block), table) && AllTyped(InsertEach(c, todo, block).rows)
    decreases |todo|
  {
    if todo != [] {
      assert todo[0] in todo && forall x :: x in todo[1..] ==> x in todo;
      BuildOne(c, table, todo, block);
      var c' := if Status(todo[0]) != Null && Status(todo[0]) != EXPIRED then CacheInsert(c, todo[0], block) else c;
      BuildLoop(c', table, todo[1..], block);
    }
  }

  /** A cache built from the table is in step with it. */
  lemma BuildIsInStep(table: seq<Record>, block: int)
    requires AllTyped(table) && NoMempoolRows(table)
    ensures InStep(Build(table, block), table) && AllTyped(Build(table, block).rows)
  {
    var found := LatestVersions(table, {});
    VersionsAreLatest(table, {});
    forall h | Latest(table, h).Some?
      ensures Latest(table, h).value in found
    {
      LatestIsARow(table, h);
    }
    BuildLoop(Cache([], 0), table, found, block);
    CleanStaysInStep(InsertEach(Cache([], 0), found, block), table, block);
  }

  /**
   * When the cache is first built by `insert_order` itself, the new order is already in the table it is built
   * from and then goes in again: the answers agree exactly when that order is not open.
   */
  lemma BuiltByInsertAgreesIffNotOpen(table: seq<Record>, order: Record, block: int)
    requires var table' := table + [order]; AllTyped(table') && Stable(table') && NoMempoolRows(table')
    ensures var table' := table + [order];
            var c := CacheInsert(Build(table', block), order, block);
            AllTyped(c.rows) && (QueriesAgree(c, table') <==> Status(order) != OPEN)
  {
    var table' := table + [order];
    var built := Build(table', block);
    assert order in table';
    BuildIsInStep(table', block);
    InStepAnswersAlike(built, table');
    var rows := built.rows + [order];
    assert rows[..|built.rows|] == built.rows;
    var c := CacheInsert(built, order, block);
    forall txHash, giveAsset, getAsset
      ensures MatchingRows(c.rows, txHash, giveAsset, getAsset) ==
              MatchingRows(built.rows, txHash, giveAsset, getAsset) +
                if Matching(order, txHash, giveAsset, getAsset) then [order] else []
    {
      DropStaleKeepsMatches(rows, block, txHash, giveAsset, getAsset);
    }
    if Status(order) == OPEN {
      var other := Text(Hash(order).s + "0");
      assert |other.s| == |Hash(order).s| + 1;
      var give, get := Cell(order, "get_asset"), Cell(order, "give_asset");
      assert Matching(order, other, give, get);
      assert |CachedQuery(c, other, give, get)| == |CachedQuery(built, other, give, get)| + 1;
    } else {
      assert forall txHash, giveAsset, getAsset ::
        CachedQuery(c, txHash, giveAsset, getAsset) == CachedQuery(built, txHash, giveAsset, getAsset);
    }
  }

  // ---------------------------------------------------------------- the two failures

  /** An order of SOMEASSET for XCP, last touched at block 100. */
  function AnOrder(status: string): Record {
    map["tx_index" := Int(7), "tx_hash" := Text("ab"), "block_index" := Int(100), "give_asset" := Text("SOMEASSET"),
        "get_asset" := Text("XCP"), "status" := Text(status)]
  }

  lemma AnOrderIsTyped(status: string)
    ensures Typed(AnOrder(status)) && Hash(AnOrder(status)) == Text("ab") && Status(AnOrder(status)) == Text(status)
    ensures Cell(AnOrder(status), "block_index") == Int(100)
  {
  }

  lemma OnlyVersion(r: Record)
    requires Typed(r)
    ensures LatestVersions([r], {}) == [r] && Latest([r], Hash(r)) == Some(r)
    ensures AllTyped([r]) && Stable([r]) && (Cell(r, "block_index") != Int(MEMPOOL_BLOCK_INDEX) ==> NoMempoolRows([r]))
  {
    assert [r][..0] == [];
  }

  lemma BuiltWithoutStale(r: Record, block: int)
    requires Typed(r) && Stale(r, block) && block >= 50
    ensures Build([r], block).rows == []
  {
    OnlyVersion(r);
    assert [r][1..] == [] && [] + [r] == [r] && [r][..0] == [] && |FILLED.s| != |EXPIRED.s|;
    assert DropStale([r], block) == [];
    var c := CacheInsert(Cache([], 0), r, block);
    assert c.rows == [] && Clean(c, block).rows == [];
    assert InsertEach(Cache([], 0), [r], block) == InsertEach(c, [], block) == c;
  }

  /**
   * An order filled at block 100 is gone from a cache built at block 200: when it is opened again, only the table has
   * it. The two methods allow this, but no handler does it: an order is only opened again when a match of it expires
   * (messages/order.py:287-299), which is 20 blocks after the match (messages/order.py:932), and
   * InTimeAnswersAsTheTable is about such runs.
   */
  lemma ReopenedOrderIsMissed()
    ensures var table, data := [AnOrder("filled")], map["status" := OPEN];
            var c' := CacheUpdate(Build(table, 200), Text("ab"), data, 201);
            var table' := TableUpdate(table, Text("ab"), data, 201);
            AllTyped(c'.rows) && AllTyped(table') && Stable(table') && !QueriesAgree(c', table')
  {
    var r, data := AnOrder("filled"), map["status" := OPEN];
    AnOrderIsTyped("filled");
    OnlyVersion(r);
    BuiltWithoutStale(r, 200);
    BuildIsInStep([r], 200);
    UpdateAgreesIffNotReopening(Build([r], 200), [r], Text("ab"), data, 201);
  }

  /** The first order of a process that has no cache yet goes into it twice. */
  lemma FirstOrderIsDoubled()
    ensures var order := AnOrder("open");
            var c := CacheInsert(Build([order], 100), order, 100);
            AllTyped(c.rows) && AllTyped([order]) && Stable([order]) && !QueriesAgree(c, [order])
  {
    var order := AnOrder("open");
    AnOrderIsTyped("open");
    OnlyVersion(order);
    assert [] + [order] == [order];
    BuiltByInsertAgreesIffNotOpen([], order, 100);
  }

  // ---------------------------------------------------------------- whole runs

  /** The calls the handlers make, each at a block. */
  datatype OrderCall =
    | Open(order: Record, block: int)
    | Change(txHash: Value, data: Record, block: int)
    | Fill(tx0Hash: Value, tx1Hash: Value, source: Option<Value>, block: int)

  datatype Both = Both(table: seq<Record>, cache: Cache)

  function ChangeBoth(s: Both, h: Value, data: Record, block: int): Both {
    if Latest(s.table, h).None? then s
    else Both(TableUpdate(s.table, h, data, block), CacheUpdate(s.cache, h, data, block))
  }

  /** Which latest version `mark_order_as_filled` selects; every version of an order has the same source. */
  predicate Exhausted(table: seq<Record>, h: Value, source: Option<Value>) {
    match Latest(table, h)
    case None => false
    case Some(row) =>
      && (source.Some? ==> CellIs(row, "source", source.value))
      && (CellIs(row, "give_remaining", Int(0)) || CellIs(row, "get_remaining", Int(0)))
  }

  function FillOne(s: Both, selected: bool, h: Value, block: int): Both {
    if selected then ChangeBoth(s, h, map["status" := FILLED], block) else s
  }

  /** `insert_order`, `update_order` and `mark_order_as_filled`, outside mempool parsing. */
  function Make(s: Both, call: OrderCall): Both {
    match call
    case Open(order, block) => Both(s.table + [order], CacheInsert(s.cache, order, block))
    case Change(h, data, block) => ChangeBoth(s, h, data, block)
    case Fill(h0, h1, source, block) =>
      var first, second := Exhausted(s.table, h0, source), Exhausted(s.table, h1, source) && h1 != h0;
      FillOne(FillOne(s, first, h0, block), second, h1, block)
  }

  /** An order with nothing left on one side, of this source when one is asked for. */
  predicate UsedUp(row: Record, source: Option<Value>) {
    && (Cell(row, "give_remaining") == Int(0) || Cell(row, "get_remaining") == Int(0))
    && (source.Some? ==> source.value != Null && Cell(row, "source") == source.value)
  }

  /** The newest version of an order after `mark_order_as_filled`. */
  ghost predicate FilledWhenUsedUp(s: Both, after: Both, h: Value, named: bool, source: Option<Value>, block: int) {
    Latest(after.table, h) ==
      match Latest(s.table, h)
      case None => None
      case Some(row) =>
        if named && UsedUp(row, source) then Some(row["status" := Text("filled")]["block_index" := Int(block)])
        else Some(row)
  }

  lemma ChangeOfOne(s: Both, h: Value, block: int, x: Value)
    ensures Latest(ChangeBoth(s, h, map["status" := FILLED], block).table, x) ==
              if x == h && Latest(s.table, h).Some?
              then Some(Latest(s.table, h).value["status" := Text("filled")]["block_index" := Int(block)])
              else Latest(s.table, x)
  {
    LatestIsARow(s.table, h);
    if Latest(s.table, h).Some? {
      var row := Latest(s.table, h).value;
      assert row + map["status" := FILLED] == row["status" := FILLED];
      LatestOfAppend(s.table, UpdatedRow(row, map["status" := FILLED], block), x);
    }
  }

  /** Of the two orders named, those that are used up get a filled version at this block; no other order changes. */
  lemma FillMarksUsedUp(s: Both, h0: Value, h1: Value, source: Option<Value>, block: int, h: Value)
    ensures FilledWhenUsedUp(s, Make(s, Fill(h0, h1, source, block)), h, h == h0 || h == h1, source, block)
  {
    var first, second := Exhausted(s.table, h0, source), Exhausted(s.table, h1, source) && h1 != h0;
    var mid := FillOne(s, first, h0, block);
    ChangeOfOne(s, h0, block, h);
    ChangeOfOne(mid, h1, block, h);
    ChangeOfOne(s, h0, block, h1);
    assert first <==> Latest(s.table, h0).Some? && UsedUp(Latest(s.table, h0).value, source);
    assert second ==> Latest(s.table, h1).Some? && UsedUp(Latest(s.table, h1).value, source);
  }

  function MakeAll(s: Both, calls: seq<OrderCall>): Both {
    if calls == [] then s else Make(MakeAll(s, calls[..|calls| - 1]), calls[|calls| - 1])
  }

  /** A new order is new; an update does not open an order the cache has dropped. */
  ghost predicate Allowed(s: Both, call: OrderCall) {
    match call
    case Open(order, _) =>
      Typed(order) && Latest(s.table, Hash(order)).None? && Cell(order, "block_index") != Int(MEMPOOL_BLOCK_INDEX)
    case Change(h, data, _) =>
      GoodData(data) && (Cell(data, "status") == OPEN && Latest(s.table, h).Some? ==> Cached(s.cache, h))
    case Fill(_, _, _, _) => true
  }

  ghost predicate AllAllowed(s: Both, calls: seq<OrderCall>) {
    calls != [] ==> AllAllowed(s, calls[..|calls| - 1]) && Allowed(MakeAll(s, calls[..|calls| - 1]), calls[|calls| - 1])
  }

  ghost predicate Healthy(s: Both) {
    AllTyped(s.table) && Stable(s.table) && AllTyped(s.cache.rows) && InStep(s.cache, s.table)
  }

  lemma ChangeStaysHealthy(s: Both, h: Value, data: Record, block: int)
    requires Healthy(s) && GoodData(data)
    requires Cell(data, "status") == OPEN && Latest(s.table, h).Some? ==> Cached(s.cache, h)
    ensures Healthy(ChangeBoth(s, h, data, block))
  {
    if Latest(s.table, h).Some? {
      UpdateStaysInStep(s.cache, s.table, h, data, block);
      UpdateKeepsTyped(s.cache, s.table, h, data, block);
    }
  }

  lemma NewOrderIsStable(table: seq<Record>, order: Record)
    requires AllTyped(table) && Stable(table) && Typed(order) && Latest(table, Hash(order)).None?
    ensures AllTyped(table + [order]) && Stable(table + [order])
  {
    LatestIsARow(table, Hash(order));
    assert forall i :: 0 <= i < |table| ==> table[i] in table;
  }

  lemma OpenStaysHealthy(s: Both, order: Record, block: int)
    requires Healthy(s) && Allowed(s, Open(order, block))
    ensures Healthy(Make(s, Open(order, block)))
  {
    InsertStaysInStep(s.cache, s.table, order, block);
    NewOrderIsStable(s.table, order);
  }

  lemma MakeStaysHealthy(s: Both, call: OrderCall)
    requires Healthy(s) && Allowed(s, call)
    ensures Healthy(Make(s, call))
  {
    match call {
      case Open(order, block) => OpenStaysHealthy(s, order, block);
      case Change(h, data, block) => ChangeStaysHealthy(s, h, data, block);
      case Fill(h0, h1, source, block) =>
        var first, second := Exhausted(s.table, h0, source), Exhausted(s.table, h1, source) && h1 != h0;
        var mid := FillOne(s, first, h0, block);
        if first { ChangeStaysHealthy(s, h0, map["status" := FILLED], block); }
        if second { ChangeStaysHealthy(mid, h1, map["status" := FILLED], block); }
    }
  }

  lemma {:induction false} RunStaysHealthy(s: Both, calls: seq<OrderCall>)
    requires Healthy(s) && AllAllowed(s, calls)
    ensures Healthy(MakeAll(s, calls))
  {
    if calls != [] {
      RunStaysHealthy(s, calls[..|calls| - 1]);
      MakeStaysHealthy(MakeAll(s, calls[..|calls| - 1]), calls[|calls| - 1]);
    }
  }

  /**
   * From a cache built beforehand, after any run of inserts, updates, fills and cleanings in which no dropped
   * order is opened again, the cache and the table give the same orders in the same sequence for every query.
   */
  lemma CacheAnswersAsTheTable(table: seq<Record>, builtAt: int, calls: seq<OrderCall>)
    requires AllTyped(table) && Stable(table) && NoMempoolRows(table)
    requires AllAllowed(Both(table, Build(table, builtAt)), calls)
    ensures var end := MakeAll(Both(table, Build(table, builtAt)), calls);
            AllTyped(end.table) && AllTyped(end.cache.rows) && QueriesAgree(end.cache, end.table)
  {
    BuildIsInStep(table, builtAt);
    RunStaysHealthy(Both(table, Build(table, builtAt)), calls);
    var end := MakeAll(Both(table, Build(table, builtAt)), calls);
    InStepAnswersAlike(end.cache, end.table);
  }

  // ---------------------------------------------------------------- orders touched in time

  /** An order that no cleaning has dropped up to this block. */
  predicate Lively(r: Record, block: int) {
    var touched := Cell(r, "block_index");
    && Status(r) != Null && Status(r) != Text("expired")
    && (Status(r) == Text("filled") && touched.Int? ==> touched.n >= block - 50)
  }

  predicate LivelyAt(table: seq<Record>, h: Value, block: int) {
    Latest(table, h).Some? && Lively(Latest(table, h).value, block)
  }

  /** Filled orders are there as well, as long as they are lively. */
  ghost predicate HasLively(c: Cache, table: seq<Record>, block: int) {
    forall h :: LivelyAt(table, h, block) ==> Latest(table, h).value in c.rows
  }

  /** What can be seen in the table alone: an order that has not just expired is only touched while it is lively. */
  predicate InTime(table: seq<Record>, call: OrderCall) {
    match call
    case Open(order, _) =>
      Typed(order) && Latest(table, Hash(order)).None? && Cell(order, "block_index") != Int(MEMPOOL_BLOCK_INDEX)
    case Change(h, data, block) =>
      GoodData(data) && (Cell(data, "status") != EXPIRED && Latest(table, h).Some? ==> LivelyAt(table, h, block))
    case Fill(h0, h1, source, block) =>
      && (Exhausted(table, h0, source) ==> LivelyAt(table, h0, block))
      && (Exhausted(table, h1, source) ==> LivelyAt(table, h1, block))
  }

  /** The block of the last call, or the one the cache was built at. */
  function LastBlock(builtAt: int, calls: seq<OrderCall>): int {
    if calls == [] then builtAt else calls[|calls| - 1].block
  }

  /** Blocks only go up, and every call comes in time. */
  ghost predicate AllInTime(s: Both, builtAt: int, calls: seq<OrderCall>) {
    calls == [] ||
    var rest, last := calls[..|calls| - 1], calls[|calls| - 1];
    AllInTime(s, builtAt, rest) && LastBlock(builtAt, rest) <= last.block && InTime(MakeAll(s, rest).table, last)
  }

  lemma {:induction false} BuildingKeepsLively(c: Cache, todo: seq<Record>, block: int)
    requires NoMempoolRows(todo)
    ensures forall r :: Lively(r, block) && (r in c.rows || r in todo) ==> r in InsertEach(c, todo, block).rows
    decreases |todo|
  {
    if todo != [] {
      assert todo == [todo[0]] + todo[1..] && forall r :: r in todo <==> r == todo[0] || r in todo[1..];
      var c' := if Status(todo[0]) != Null && Status(todo[0]) != EXPIRED then CacheInsert(c, todo[0], block) else c;
      BuildingKeepsLively(c', todo[1..], block);
    }
  }

  lemma BuiltHasLively(table: seq<Record>, block: int)
    requires AllTyped(table) && NoMempoolRows(table)
    ensures HasLively(Build(table, block), table, block)
  {
    VersionsAreLatest(table, {});
    BuildingKeepsLively(Cache([], 0), LatestVersions(table, {}), block);
    forall h | LivelyAt(table, h, block)
      ensures Latest(table, h).value in Build(table, block).rows
    {
      LatestIsARow(table, h);
    }
  }

  lemma {:induction false} BuildingTakesLively(c: Cache, todo: seq<Record>, block: int, r: Record)
    requires r in InsertEach(c, todo, block).rows
    ensures r in c.rows || (r in todo && Status(r) != Null && Status(r) != Text("expired"))
    decreases |todo|
  {
    if todo != [] {
      assert todo == [todo[0]] + todo[1..];
      var c' := if Status(todo[0]) != Null && Status(todo[0]) != EXPIRED then CacheInsert(c, todo[0], block) else c;
      BuildingTakesLively(c', todo[1..], block, r);
    }
  }

  /** A built cache holds every lively newest version, and nothing but newest versions that are not expired. */
  lemma BuiltHoldsNewest(table: seq<Record>, block: int, r: Record)
    requires AllTyped(table) && NoMempoolRows(table)
    ensures IsNewest(table, r) && Lively(r, block) ==> r in Build(table, block).rows
    ensures r in Build(table, block).rows ==> IsNewest(table, r) && Status(r) != Null && Status(r) != Text("expired")
  {
    var found := LatestVersions(table, {});
    VersionsAreLatest(table, {});
    if r in Build(table, block).rows { BuildingTakesLively(Cache([], 0), found, block, r); }
    BuildingKeepsLively(Cache([], 0), found, block);
    if r in table { LatestIsNewest(table, r); }
  }

  lemma OpenKeepsLively(c: Cache, table: seq<Record>, order: Record, before: int, block: int)
    requires HasLively(c, table, before) && before <= block
    requires Cell(order, "block_index") != Int(MEMPOOL_BLOCK_INDEX)
    ensures HasLively(CacheInsert(c, order, block), table + [order], block)
  {
    forall h | LivelyAt(table + [order], h, block)
      ensures Latest(table + [order], h).value in CacheInsert(c, order, block).rows
    {
      LatestOfAppend(table, order, h);
      assert Latest(table + [order], h) == Some(order) || LivelyAt(table, h, before);
    }
  }

  lemma SetHashKeeps(rows: seq<Record>, r: Record, h: Value, data: Record, block: int)
    requires r in rows
    ensures SetRow(r, h, data, block) in SetHash(rows, h, data, block)
  {
    var i :| 0 <= i < |rows| && rows[i] == r;
    assert SetHash(rows, h, data, block)[i] == SetRow(r, h, data, block);
  }

  lemma ChangeKeepsLively(s: Both, h: Value, data: Record, before: int, block: int)
    requires HasLively(s.cache, s.table, before) && before <= block && GoodData(data)
    requires Cell(data, "status") != EXPIRED && Latest(s.table, h).Some? ==> LivelyAt(s.table, h, block)
    ensures var after := ChangeBoth(s, h, data, block); HasLively(after.cache, after.table, block)
  {
    var after := ChangeBoth(s, h, data, block);
    forall x | LivelyAt(after.table, x, block)
      ensures Latest(after.table, x).value in after.cache.rows
    {
      LatestIsARow(s.table, x);
      if Latest(s.table, h).Some? {
        LatestIsARow(s.table, h);
        LatestOfAppend(s.table, UpdatedRow(Latest(s.table, h).value, data, block), x);
      }
      assert LivelyAt(s.table, x, before);
      SetHashKeeps(s.cache.rows, Latest(s.table, x).value, h, data, block);
    }
  }

  lemma FillKeepsLively(s: Both, selected: bool, h: Value, before: int, block: int)
    requires HasLively(s.cache, s.table, before) && before <= block && (selected ==> LivelyAt(s.table, h, block))
    ensures var after := FillOne(s, selected, h, block); HasLively(after.cache, after.table, block)
    ensures forall x :: x != h && LivelyAt(s.table, x, block) ==>
              LivelyAt(FillOne(s, selected, h, block).table, x, block)
  {
    if selected {
      var data := map["status" := FILLED];
      ChangeKeepsLively(s, h, data, before, block);
      LatestIsARow(s.table, h);
      forall x | x != h
        ensures Latest(FillOne(s, selected, h, block).table, x) == Latest(s.table, x)
      {
        LatestOfAppend(s.table, UpdatedRow(Latest(s.table, h).value, data, block), x);
      }
    }
  }

  lemma MakeKeepsLively(s: Both, call: OrderCall, before: int)
    requires HasLively(s.cache, s.table, before) && before <= call.block && InTime(s.table, call)
    ensures HasLively(Make(s, call).cache, Make(s, call).table, call.block)
  {
    match call {
      case Open(order, block) => OpenKeepsLively(s.cache, s.table, order, before, block);
      case Change(h, data, block) => ChangeKeepsLively(s, h, data, before, block);
      case Fill(h0, h1, source, block) =>
        var first, second := Exhausted(s.table, h0, source), Exhausted(s.table, h1, source) && h1 != h0;
        FillKeepsLively(s, first, h0, before, block);
        FillKeepsLively(FillOne(s, first, h0, block), second, h1, block, block);
    }
  }

  lemma InTimeIsAllowed(s: Both, call: OrderCall, before: int)
    requires HasLively(s.cache, s.table, before) && before <= call.block && InTime(s.table, call)
    ensures Allowed(s, call)
  {
    if call.Change? && Cell(call.data, "status") == OPEN && Latest(s.table, call.txHash).Some? {
      var r := Latest(s.table, call.txHash).value;
      LatestIsARow(s.table, call.txHash);
      assert |OPEN.s| != |EXPIRED.s| && LivelyAt(s.table, call.txHash, before);
      var i :| 0 <= i < |s.cache.rows| && s.cache.rows[i] == r;
      assert Hash(s.cache.rows[i]) == call.txHash;
    }
  }

  lemma {:induction false} RunInTimeIsAllowed(s: Both, builtAt: int, calls: seq<OrderCall>)
    requires HasLively(s.cache, s.table, builtAt) && AllInTime(s, builtAt, calls)
    ensures AllAllowed(s, calls)
    ensures HasLively(MakeAll(s, calls).cache, MakeAll(s, calls).table, LastBlock(builtAt, calls))
  {
    if calls != [] {
      var rest, last := calls[..|calls| - 1], calls[|calls| - 1];
      RunInTimeIsAllowed(s, builtAt, rest);
      InTimeIsAllowed(MakeAll(s, rest), last, LastBlock(builtAt, rest));
      MakeKeepsLively(MakeAll(s, rest), last, LastBlock(builtAt, rest));
    }
  }

  /**
   * A condition on table and blocks alone: as long as orders are touched only within 50 blocks of being filled, an
   * order opened again is still in the cache, and both queries give the same orders in the same sequence.
   */
  lemma InTimeAnswersAsTheTable(table: seq<Record>, builtAt: int, calls: seq<OrderCall>)
    requires AllTyped(table) && Stable(table) && NoMempoolRows(table)
    requires AllInTime(Both(table, Build(table, builtAt)), builtAt, calls)
    ensures var end := MakeAll(Both(table, Build(table, builtAt)), calls);
            AllTyped(end.table) && AllTyped(end.cache.rows) && QueriesAgree(end.cache, end.table)
  {
    BuiltHasLively(table, builtAt);
    RunInTimeIsAllowed(Both(table, Build(table, builtAt)), builtAt, calls);
    CacheAnswersAsTheTable(table, builtAt, calls);
  }

  // ---------------------------------------------------------------- the cache object

  class OrdersCacheDb {
    var rows: seq<Record>
    var lastCleaning: int

    function Now(): Cache
      reads this
    {
      Cache(rows, lastCleaning)
    }

    /** Loads every latest version that is not expired, then cleans. */
    constructor (table: seq<Record>, block: int)
      ensures Now() == Build(table, block)
    {
      rows, lastCleaning := [], 0;
      new;
      var found := LatestVersions(table, {});
      var i := 0;
      while i < |found|
        invariant 0 <= i <= |found|
        invariant InsertEach(Cache([], 0), found, block) == InsertEach(Now(), found[i..], block)
      {
        assert found[i..][0] == found[i] && found[i..][1..] == found[i + 1..];
        if Status(found[i]) != Null && Status(found[i]) != EXPIRED {
          InsertOrder(found[i], block);
        }
        i := i + 1;
      }
      CleanFilledOrders(block);
    }

    method CleanFilledOrders(block: int)
      modifies this
      ensures Now() == Clean(old(Now()), block)
    {
      if block - lastCleaning < 50 { return; }
      lastCleaning := block;
      rows := DropStale(rows, block);
    }

    method InsertOrder(order: Record, block: int)
      modifies this
      ensures Now() == CacheInsert(old(Now()), order, block)
      ensures Cell(order, "block_index") == Int(9999999) ==> Now() == old(Now())
    {
      if Cell(order, "block_index") == Int(MEMPOOL_BLOCK_INDEX) { return; }
      rows := rows + [order];
      CleanFilledOrders(block);
    }

    method UpdateOrder(txHash: Value, data: Record, block: int)
      requires "status" in data
      modifies this
      ensures Now() == CacheUpdate(old(Now()), txHash, data, block)
    {
      if data["status"] == EXPIRED {
        rows := DropHash(rows, txHash);
        return;
      }
      rows := SetHash(rows, txHash, data, block);
      CleanFilledOrders(block);
    }

    /** In step with a table, the cache's answer is the table's: the open orders that pair, by index and hash. */
    method GetMatchingOrders(txHash: Value, giveAsset: Value, getAsset: Value, ghost table: seq<Record>)
      returns (found: seq<Record>)
      requires AllTyped(rows) && AllTyped(table) && Stable(table) && InStep(Now(), table)
      ensures found == NoCacheQuery(table, txHash, giveAsset, getAsset)
      ensures RightAnswer(found, table, txHash, giveAsset, getAsset)
    {
      InStepAnswersAlike(Now(), table);
      QueryAnswers(table, txHash, giveAsset, getAsset);
      found := OrderBy(MatchingRows(rows, txHash, giveAsset, getAsset));
      assert found == CachedQuery(Now(), txHash, giveAsset, getAsset);
    }
  }
}
