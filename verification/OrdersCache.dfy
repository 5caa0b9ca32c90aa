/** The in-memory copy of the open orders, against the query over the append-only orders table. */
module OrdersCache {
  import opened Records

  const MEMPOOL_BLOCK_INDEX := 9999999

  const OPEN := Text("open")
  const FILLED := Text("filled")
  const EXPIRED := Text("expired")

  datatype Cache = Cache(rows: seq<Record>, lastCleaning: int)

  function Hash(r: Record): Value { Cell(r, "tx_hash") }

  function Status(r: Record): Value { Cell(r, "status") }

  // ---------------------------------------------------------------- ORDER BY tx_index, tx_hash

  predicate TextLess(a: string, b: string) {
    if b == "" then false
    else if a == "" then true
    else a[0] < b[0] || (a[0] == b[0] && TextLess(a[1..], b[1..]))
  }

  /** An order as the tables hold it: a position, a transaction hash and two assets. */
  predicate Typed(r: Record) {
    Cell(r, "tx_index").Int? && Hash(r).Text? && Cell(r, "give_asset").Text? && Cell(r, "get_asset").Text?
  }

  predicate Before(a: Record, b: Record)
    requires Typed(a) && Typed(b)
  {
    Cell(a, "tx_index").n < Cell(b, "tx_index").n
    || (Cell(a, "tx_index").n == Cell(b, "tx_index").n && TextLess(Hash(a).s, Hash(b).s))
  }

  predicate AllTyped(rows: seq<Record>) {
    forall r :: r in rows ==> Typed(r)
  }

  predicate Sorted(rows: seq<Record>)
    requires AllTyped(rows)
  {
    forall i, j :: 0 <= i < j < |rows| ==> Before(rows[i], rows[j])
  }

  predicate DistinctHashes(rows: seq<Record>) {
    forall i, j :: 0 <= i < j < |rows| ==> Hash(rows[i]) != Hash(rows[j])
  }

  function Place(sorted: seq<Record>, r: Record): (placed: seq<Record>)
    requires AllTyped(sorted) && Typed(r)
    ensures forall x :: x in placed <==> x in sorted || x == r
    ensures |placed| == |sorted| + 1
  {
    if sorted == [] || !Before(sorted[0], r) then [r] + sorted
    else
      var rest := Place(sorted[1..], r);
      assert forall x :: x in sorted <==> x == sorted[0] || x in sorted[1..];
      [sorted[0]] + rest
  }

  /** The rows in query order. */
  function OrderBy(rows: seq<Record>): (sorted: seq<Record>)
    requires AllTyped(rows)
    ensures forall x :: x in sorted <==> x in rows
    ensures |sorted| == |rows|
  {
    if rows == [] then []
    else
      assert forall x :: x in rows <==> x in rows[..|rows| - 1] || x == rows[|rows| - 1];
      Place(OrderBy(rows[..|rows| - 1]), rows[|rows| - 1])
  }

  lemma {:induction false} TextOrder(a: string, b: string)
    ensures TextLess(a, b) || TextLess(b, a) || a == b
    ensures !(TextLess(a, b) && TextLess(b, a)) && !TextLess(a, a)
  {
    if a != [] && b != [] {
      TextOrder(a[1..], b[1..]);
      assert a == [a[0]] + a[1..] && b == [b[0]] + b[1..];
    } else if a != [] {
      TextOrder(a[1..], a[1..]);
    }
  }

  lemma {:induction false} TextTransitive(a: string, b: string, c: string)
    requires TextLess(a, b) && TextLess(b, c)
    ensures TextLess(a, c)
  {
    if a != [] && a[0] == b[0] && b[0] == c[0] {
      TextTransitive(a[1..], b[1..], c[1..]);
    }
  }

  lemma BeforeIsOrder(a: Record, b: Record)
    requires Typed(a) && Typed(b)
    ensures Hash(a) != Hash(b) ==> Before(a, b) || Before(b, a)
    ensures !(Before(a, b) && Before(b, a))
  {
    TextOrder(Hash(a).s, Hash(b).s);
  }

  lemma BeforeTransitive(a: Record, b: Record, c: Record)
    requires Typed(a) && Typed(b) && Typed(c) && Before(a, b) && Before(b, c)
    ensures Before(a, c)
  {
    if Cell(a, "tx_index") == Cell(b, "tx_index") == Cell(c, "tx_index") {
      TextTransitive(Hash(a).s, Hash(b).s, Hash(c).s);
    }
  }

  lemma {:induction false} PlaceKeepsSorted(sorted: seq<Record>, r: Record)
    requires AllTyped(sorted) && Typed(r) && Sorted(sorted)
    requires forall x :: x in sorted ==> Hash(x) != Hash(r)
    ensures AllTyped(Place(sorted, r)) && Sorted(Place(sorted, r))
  {
    if sorted != [] {
      if Before(sorted[0], r) {
        PlaceKeepsSorted(sorted[1..], r);
        var rest := Place(sorted[1..], r);
        forall j | 0 <= j < |rest|
          ensures Before(sorted[0], rest[j])
        {
          assert rest[j] in rest;
          if rest[j] != r {
            var k :| 0 <= k < |sorted[1..]| && sorted[1..][k] == rest[j];
          }
        }
      } else {
        BeforeIsOrder(sorted[0], r);
        forall j | 0 <= j < |sorted|
          ensures Before(r, sorted[j])
        {
          if j > 0 { BeforeTransitive(r, sorted[0], sorted[j]); }
        }
      }
    }
  }

  lemma {:induction false} OrderBySorts(rows: seq<Record>)
    requires AllTyped(rows) && DistinctHashes(rows)
    ensures AllTyped(OrderBy(rows)) && Sorted(OrderBy(rows))
  {
    if rows != [] {
      var rest, last := rows[..|rows| - 1], rows[|rows| - 1];
      OrderBySorts(rest);
      forall x | x in OrderBy(rest)
        ensures Hash(x) != Hash(last)
      {
        var i :| 0 <= i < |rest| && rest[i] == x;
      }
      PlaceKeepsSorted(OrderBy(rest), last);
    }
  }

  lemma HasMember(rows: seq<Record>)
    ensures rows == [] || exists x :: x in rows
  {
    if rows != [] { assert rows[0] in rows; }
  }

  /** Two sorted lists with the same elements are the same list. */
  lemma {:induction false} SortedIsUnique(a: seq<Record>, b: seq<Record>)
    requires AllTyped(a) && AllTyped(b) && Sorted(a) && Sorted(b)
    requires forall x :: x in a <==> x in b
    ensures a == b
  {
    HasMember(b);
    if a != [] {
      assert a[0] in b;
      assert b[0] in a by { assert b != []; }
      FirstIsLeast(a, b[0]);
      FirstIsLeast(b, a[0]);
      BeforeIsOrder(a[0], b[0]);
      assert a[0] == b[0];
      forall x
        ensures x in a[1..] <==> x in b[1..]
      {
        TailMembers(a, x);
        TailMembers(b, x);
      }
      SortedIsUnique(a[1..], b[1..]);
      assert a == [a[0]] + a[1..] && b == [b[0]] + b[1..];
    }
  }

  lemma FirstIsLeast(a: seq<Record>, x: Record)
    requires a != [] && AllTyped(a) && Sorted(a) && x in a
    ensures x == a[0] || Before(a[0], x)
  {
    var i :| 0 <= i < |a| && a[i] == x;
  }

  lemma TailMembers(a: seq<Record>, x: Record)
    requires a != [] && AllTyped(a) && Sorted(a)
    ensures x in a[1..] <==> x in a && x != a[0]
  {
    assert a == [a[0]] + a[1..];
    if x in a[1..] {
      var i :| 0 <= i < |a[1..]| && a[1..][i] == x;
      assert a[i + 1] == x && Before(a[0], a[i + 1]);
      BeforeIsOrder(a[0], x);
    }
  }

  // ---------------------------------------------------------------- the two queries

  /** Open orders of other transactions that give what this one gets and get what this one gives. */
  predicate Pairs(r: Record, txHash: Value, giveAsset: Value, getAsset: Value) {
    Hash(r) != Null && txHash != Null && Hash(r) != txHash && CellIs(r, "give_asset", getAsset)
      && CellIs(r, "get_asset", giveAsset)
  }

  predicate Matching(r: Record, txHash: Value, giveAsset: Value, getAsset: Value) {
    Pairs(r, txHash, giveAsset, getAsset) && Status(r) == OPEN
  }

  function MatchingRows(rows: seq<Record>, txHash: Value, giveAsset: Value, getAsset: Value): (found: seq<Record>)
    ensures forall r :: r in found <==> r in rows && Matching(r, txHash, giveAsset, getAsset)
  {
    if rows == [] then []
    else
      var rest, last := MatchingRows(rows[..|rows| - 1], txHash, giveAsset, getAsset), rows[|rows| - 1];
      assert forall x :: x in rows <==> x in rows[..|rows| - 1] || x == last;
      if Matching(last, txHash, giveAsset, getAsset) then rest + [last] else rest
  }

  function CachedQuery(cache: Cache, txHash: Value, giveAsset: Value, getAsset: Value): seq<Record>
    requires AllTyped(cache.rows)
  {
    OrderBy(MatchingRows(cache.rows, txHash, giveAsset, getAsset))
  }

  /** `SELECT *, MAX(rowid) ... WHERE pairs GROUP BY tx_hash`: the last such row of each hash, newest first. */
  function LatestPairs(rows: seq<Record>, seen: set<Value>, txHash: Value, giveAsset: Value,
                       getAsset: Value): (found: seq<Record>)
    ensures forall r :: r in found ==> r in rows
  {
    if rows == [] then []
    else
      var rest, last := rows[..|rows| - 1], rows[|rows| - 1];
      if Pairs(last, txHash, giveAsset, getAsset) && Hash(last) !in seen
      then [last] + LatestPairs(rest, seen + {Hash(last)}, txHash, giveAsset, getAsset)
      else LatestPairs(rest, seen, txHash, giveAsset, getAsset)
  }

  function NoCacheQuery(table: seq<Record>, txHash: Value, giveAsset: Value, getAsset: Value): seq<Record>
    requires AllTyped(table)
  {
    OrderBy(MatchingRows(LatestPairs(table, {}, txHash, giveAsset, getAsset), txHash, giveAsset, getAsset))
  }

  ghost predicate QueriesAgree(cache: Cache, table: seq<Record>)
    requires AllTyped(cache.rows) && AllTyped(table)
  {
    forall txHash, giveAsset, getAsset ::
      CachedQuery(cache, txHash, giveAsset, getAsset) == NoCacheQuery(table, txHash, giveAsset, getAsset)
  }

  // ---------------------------------------------------------------- what keeps them equal

  /** Versions of one order agree on what identifies it. */
  predicate Stable(table: seq<Record>) {
    forall i, j :: 0 <= i < |table| && 0 <= j < |table| && Hash(table[i]) == Hash(table[j]) ==>
      Cell(table[i], "give_asset") == Cell(table[j], "give_asset")
        && Cell(table[i], "get_asset") == Cell(table[j], "get_asset")
  }

  function Latest(table: seq<Record>, h: Value): Option<Record> {
    LatestRow(table, "tx_hash", h)
  }

  /** One cache row for a hash at most, always its latest version, and every open order is there. */
  ghost predicate InStep(cache: Cache, table: seq<Record>) {
    && DistinctHashes(cache.rows)
    && (forall r :: r in cache.rows ==> Latest(table, Hash(r)) == Some(r))
    && (forall h :: Latest(table, h).Some? && Status(Latest(table, h).value) == OPEN ==>
          Latest(table, h).value in cache.rows)
  }

  lemma {:induction false} LatestIsARow(table: seq<Record>, h: Value)
    ensures Latest(table, h).Some? ==> Latest(table, h).value in table && Hash(Latest(table, h).value) == h && h != Null
    ensures Latest(table, h).None? ==> forall r :: r in table ==> h == Null || Hash(r) != h
  {
    if table != [] {
      LatestIsARow(table[..|table| - 1], h);
      assert forall r :: r in table <==> r in table[..|table| - 1] || r == table[|table| - 1];
    }
  }

  /** When the last row is not paired, no version of its order is. */
  lemma UnpairedHidesNone(table: seq<Record>, r: Record, txHash: Value, giveAsset: Value, getAsset: Value)
    requires Stable(table) && table != [] && Hash(r) == Hash(table[|table| - 1])
             && Pairs(r, txHash, giveAsset, getAsset)
    requires !Pairs(table[|table| - 1], txHash, giveAsset, getAsset)
    ensures Latest(table[..|table| - 1], Hash(r)) != Some(r) && Latest(table, Hash(r)) != Some(r)
  {
    var rest := table[..|table| - 1];
    LatestIsARow(rest, Hash(r));
    forall i | 0 <= i < |rest|
      ensures rest[i] != r
    {
      assert rest[i] == table[i];
    }
  }

  /** The grouped query finds the latest version of every paired order, once. */
  lemma {:induction false} LatestPairsAreLatest(table: seq<Record>, seen: set<Value>, txHash: Value, giveAsset: Value,
                                                getAsset: Value)
    requires AllTyped(table) && Stable(table)
    ensures var found := LatestPairs(table, seen, txHash, giveAsset, getAsset);
            && DistinctHashes(found)
            && forall r :: r in found <==>
                 Pairs(r, txHash, giveAsset, getAsset) && Hash(r) !in seen && Latest(table, Hash(r)) == Some(r)
  {
    if table != [] {
      var n := |table| - 1;
      var rest, last := table[..n], table[n];
      assert Stable(rest) by { assert forall i :: 0 <= i < n ==> rest[i] == table[i]; }
      assert AllTyped(rest);
      assert last in table;
      if Pairs(last, txHash, giveAsset, getAsset) && Hash(last) !in seen {
        LatestPairsAreLatest(rest, seen + {Hash(last)}, txHash, giveAsset, getAsset);
        var more := LatestPairs(rest, seen + {Hash(last)}, txHash, giveAsset, getAsset);
        var found := [last] + more;
        assert forall r :: r in found <==> r == last || r in more;
        assert forall i :: 0 <= i < |more| ==> more[i] in more;
      } else {
        LatestPairsAreLatest(rest, seen, txHash, giveAsset, getAsset);
        forall r | Pairs(r, txHash, giveAsset, getAsset) && Hash(r) !in seen && Hash(r) == Hash(last)
          ensures Latest(rest, Hash(r)) != Some(r) && Latest(table, Hash(r)) != Some(r)
        {
          UnpairedHidesNone(table, r, txHash, giveAsset, getAsset);
        }
      }
    }
  }

  lemma {:induction false} MatchingKeepsDistinct(rows: seq<Record>, txHash: Value, giveAsset: Value, getAsset: Value)
    requires DistinctHashes(rows)
    ensures DistinctHashes(MatchingRows(rows, txHash, giveAsset, getAsset))
  {
    if rows != [] {
      var rest, last := rows[..|rows| - 1], rows[|rows| - 1];
      MatchingKeepsDistinct(rest, txHash, giveAsset, getAsset);
      var found := MatchingRows(rest, txHash, giveAsset, getAsset);
      forall i | 0 <= i < |found|
        ensures Hash(found[i]) != Hash(last)
      {
        assert found[i] in rest;
        var k :| 0 <= k < |rest| && rest[k] == found[i];
        assert rows[k] == rest[k];
      }
    }
  }

  /** A cache in step answers every matching query as the table does, in the same order. */
  lemma InStepAnswersAlike(cache: Cache, table: seq<Record>)
    requires AllTyped(cache.rows) && AllTyped(table) && Stable(table) && InStep(cache, table)
    ensures QueriesAgree(cache, table)
  {
    forall txHash, giveAsset, getAsset
      ensures CachedQuery(cache, txHash, giveAsset, getAsset) == NoCacheQuery(table, txHash, giveAsset, getAsset)
    {
      var cached := MatchingRows(cache.rows, txHash, giveAsset, getAsset);
      var grouped := LatestPairs(table, {}, txHash, giveAsset, getAsset);
      var queried := MatchingRows(grouped, txHash, giveAsset, getAsset);
      LatestPairsAreLatest(table, {}, txHash, giveAsset, getAsset);
      MatchingKeepsDistinct(cache.rows, txHash, giveAsset, getAsset);
      MatchingKeepsDistinct(grouped, txHash, giveAsset, getAsset);
      OrderBySorts(cached);
      OrderBySorts(queried);
      SortedIsUnique(OrderBy(cached), OrderBy(queried));
    }
  }

  // ---------------------------------------------------------------- what an answer is

  /** The row that no later row with its hash replaces. */
  ghost predicate IsNewest(table: seq<Record>, r: Record) {
    exists i :: 0 <= i < |table| && table[i] == r
                && forall j :: i < j < |table| ==> Cell(table[j], "tx_hash") != Cell(r, "tx_hash")
  }

  /** The newest version of another order: open, giving what is asked for and asking for what is given. */
  ghost predicate Answers(r: Record, table: seq<Record>, txHash: Value, giveAsset: Value, getAsset: Value) {
    && IsNewest(table, r) && txHash != Null && Cell(r, "tx_hash") != txHash
    && Cell(r, "give_asset") == getAsset && Cell(r, "get_asset") == giveAsset && Cell(r, "status") == Text("open")
  }

  /** The first differing character decides, and a proper prefix comes first. */
  ghost predicate LexicallyLess(a: string, b: string) {
    exists k :: 0 <= k <= |a| && k < |b| && a[..k] == b[..k] && (k == |a| || a[k] < b[k])
  }

  /** A lower transaction index first, and of equal ones the lesser hash. */
  ghost predicate ComesFirst(a: Record, b: Record) {
    && Cell(a, "tx_index").Int? && Cell(b, "tx_index").Int? && Hash(a).Text? && Hash(b).Text?
    && (Cell(a, "tx_index").n < Cell(b, "tx_index").n
        || (Cell(a, "tx_index").n == Cell(b, "tx_index").n && LexicallyLess(Hash(a).s, Hash(b).s)))
  }

  /** Every order that answers and no other, each once, by index and hash. */
  ghost predicate RightAnswer(found: seq<Record>, table: seq<Record>, txHash: Value, giveAsset: Value,
                              getAsset: Value) {
    && (forall r :: r in found <==> Answers(r, table, txHash, giveAsset, getAsset))
    && (forall i, j :: 0 <= i < j < |found| ==> ComesFirst(found[i], found[j]))
  }

  lemma {:induction false} TextLessIsLexical(a: string, b: string)
    ensures TextLess(a, b) ==> LexicallyLess(a, b)
  {
    if TextLess(a, b) {
      if a == "" || a[0] < b[0] {
        assert a[..0] == b[..0];
      } else {
        TextLessIsLexical(a[1..], b[1..]);
        var k :| 0 <= k <= |a[1..]| && k < |b[1..]| && a[1..][..k] == b[1..][..k]
                 && (k == |a[1..]| || a[1..][k] < b[1..][k]);
        assert a[..k + 1] == [a[0]] + a[1..][..k] && b[..k + 1] == [b[0]] + b[1..][..k];
      }
    }
  }

  lemma {:induction false} LatestIsNewest(table: seq<Record>, r: Record)
    requires Hash(r) != Null
    ensures Latest(table, Hash(r)) == Some(r) <==> IsNewest(table, r)
  {
    if table != [] {
      var n := |table| - 1;
      LatestIsNewest(table[..n], r);
      if Hash(table[n]) == Hash(r) {
        assert IsNewest(table, r) <==> table[n] == r;
      } else {
        NewestOfRest(table, r);
      }
    }
  }

  lemma NewestOfRest(table: seq<Record>, r: Record)
    requires table != [] && Hash(table[|table| - 1]) != Hash(r)
    ensures IsNewest(table, r) <==> IsNewest(table[..|table| - 1], r)
  {
    var n := |table| - 1;
    var rest := table[..n];
    assert forall i :: 0 <= i < n ==> rest[i] == table[i];
    if IsNewest(rest, r) {
      var i :| 0 <= i < n && rest[i] == r && forall j :: i < j < n ==> Cell(rest[j], "tx_hash") != Cell(r, "tx_hash");
      assert table[i] == r;
    }
  }

  lemma SortedComesFirst(rows: seq<Record>)
    requires AllTyped(rows) && Sorted(rows)
    ensures forall i, j :: 0 <= i < j < |rows| ==> ComesFirst(rows[i], rows[j])
  {
    forall i, j | 0 <= i < j < |rows|
      ensures ComesFirst(rows[i], rows[j])
    {
      assert Before(rows[i], rows[j]) && rows[i] in rows && rows[j] in rows;
      TextLessIsLexical(Hash(rows[i]).s, Hash(rows[j]).s);
    }
  }

  /** The query over the table finds exactly the orders that answer. */
  lemma QueryAnswers(table: seq<Record>, txHash: Value, giveAsset: Value, getAsset: Value)
    requires AllTyped(table) && Stable(table)
    ensures RightAnswer(NoCacheQuery(table, txHash, giveAsset, getAsset), table, txHash, giveAsset, getAsset)
  {
    var grouped := LatestPairs(table, {}, txHash, giveAsset, getAsset);
    var queried := MatchingRows(grouped, txHash, giveAsset, getAsset);
    LatestPairsAreLatest(table, {}, txHash, giveAsset, getAsset);
    MatchingKeepsDistinct(grouped, txHash, giveAsset, getAsset);
    OrderBySorts(queried);
    SortedComesFirst(OrderBy(queried));
    forall r
      ensures r in queried <==> Answers(r, table, txHash, giveAsset, getAsset)
    {
      if IsNewest(table, r) { assert r in table; }
      if Hash(r) != Null { LatestIsNewest(table, r); }
    }
  }
}
