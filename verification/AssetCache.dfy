/** The running totals and last issuances kept in memory, against reading them again from the tables. */
module AssetCache {
  import opened Records

  datatype Assets = Assets(last: map<Value, Record>, issued: map<Value, Value>, destroyed: map<Value, Value>)

  function Asset(r: Record): Value { Cell(r, "asset") }

  function Longname(r: Record): Value { Cell(r, "asset_longname") }

  function Quantity(r: Record): Value { Cell(r, "quantity") }

  predicate Valid(r: Record) { Cell(r, "status") == Text("valid") }

  // ---------------------------------------------------------------- adding one row

  /** A row is filed under its long name, when it has one, and under its asset. */
  function File(last: map<Value, Record>, r: Record): map<Value, Record> {
    var named := if Longname(r) != Null then last[Longname(r) := r] else last;
    named[Asset(r) := r]
  }

  /** Adding a quantity to a total that reads NULL raises. */
  predicate Adds(totals: map<Value, Value>, r: Record) {
    Quantity(r).Int? && Asset(r) in totals ==> totals[Asset(r)].Int?
  }

  function AddTotal(totals: map<Value, Value>, a: Value, q: Value): map<Value, Value> {
    if !q.Int? then totals
    else if a !in totals then totals[a := q]
    else if totals[a].Int? then totals[a := Int(totals[a].n + q.n)]
    else totals
  }

  function AddIssuance(c: Assets, r: Record): Assets {
    c.(last := File(c.last, r), issued := AddTotal(c.issued, Asset(r), Quantity(r)))
  }

  function AddDestroyed(c: Assets, r: Record): Assets {
    c.(destroyed := AddTotal(c.destroyed, Asset(r), Quantity(r)))
  }

  // ---------------------------------------------------------------- reading the tables

  function AssetsIn(rows: seq<Record>): set<Value> {
    set i | 0 <= i < |rows| && Valid(rows[i]) :: Asset(rows[i])
  }

  /** `SUM(quantity)` over the valid rows of an asset: NULL until a quantity is not NULL, None without rows. */
  function ValidSum(rows: seq<Record>, a: Value): Option<Value> {
    if rows == [] then None
    else
      var rest, last := ValidSum(rows[..|rows| - 1], a), rows[|rows| - 1];
      if !Valid(last) || Asset(last) != a then rest
      else if !Quantity(last).Int? then (if rest.Some? then rest else Some(Null))
      else if rest.Some? && rest.value.Int? then Some(Int(rest.value.n + Quantity(last).n))
      else Some(Quantity(last))
  }

  function Totals(rows: seq<Record>): map<Value, Value> {
    map a | a in AssetsIn(rows) :: match ValidSum(rows, a) case Some(t) => t case None => Null
  }

  function ValidRows(rows: seq<Record>): seq<Record> {
    if rows == [] then []
    else
      var rest, last := ValidRows(rows[..|rows| - 1]), rows[|rows| - 1];
      if Valid(last) then rest + [last] else rest
  }

  /** The last valid row of an asset: `MAX(rowid) ... WHERE status = 'valid' GROUP BY asset`. */
  function LastValid(rows: seq<Record>, a: Value): Option<Record> {
    if rows == [] then None
    else if Valid(rows[|rows| - 1]) && Asset(rows[|rows| - 1]) == a then Some(rows[|rows| - 1])
    else LastValid(rows[..|rows| - 1], a)
  }

  /** The groups of that query, in whatever order they come. */
  ghost predicate IsGrouping(groups: seq<Record>, rows: seq<Record>) {
    && (forall i, j :: 0 <= i < j < |groups| ==> Asset(groups[i]) != Asset(groups[j]))
    && (forall i :: 0 <= i < |groups| ==> LastValid(rows, Asset(groups[i])) == Some(groups[i]))
    && (forall a :: LastValid(rows, a).Some? ==> LastValid(rows, a).value in groups)
  }

  function FileAll(groups: seq<Record>): map<Value, Record> {
    if groups == [] then map[] else File(FileAll(groups[..|groups| - 1]), groups[|groups| - 1])
  }

  /** One grouping, newest asset first. */
  function Group(rows: seq<Record>, seen: set<Value>): seq<Record> {
    if rows == [] then []
    else
      var rest, last := rows[..|rows| - 1], rows[|rows| - 1];
      if !Valid(last) || Asset(last) in seen then Group(rest, seen)
      else [last] + Group(rest, seen + {Asset(last)})
  }

  lemma {:induction false} LastValidIsValid(rows: seq<Record>, a: Value)
    ensures LastValid(rows, a).Some? ==>
              var r := LastValid(rows, a).value; r in rows && Valid(r) && Asset(r) == a
    ensures LastValid(rows, a).Some? <==> a in AssetsIn(rows)
  {
    if rows != [] {
      var rest, last := rows[..|rows| - 1], rows[|rows| - 1];
      LastValidIsValid(rest, a);
      AssetsOfAppend(rest, last);
      assert rows == rest + [last];
    }
  }

  /** Filtering first changes nothing for the query, which filters itself. */
  lemma {:induction false} LastValidOfValid(rows: seq<Record>, a: Value)
    ensures LastValid(ValidRows(rows), a) == LastValid(rows, a)
    ensures forall r :: r in ValidRows(rows) <==> r in rows && Valid(r)
  {
    if rows != [] {
      var rest, last := rows[..|rows| - 1], rows[|rows| - 1];
      LastValidOfValid(rest, a);
      assert forall r :: r in rows <==> r in rest || r == last;
      assert (ValidRows(rest) + [last])[..|ValidRows(rest)|] == ValidRows(rest);
    }
  }

  lemma AssetsOfAppend(rows: seq<Record>, r: Record)
    ensures AssetsIn(rows + [r]) == AssetsIn(rows) + if Valid(r) then {Asset(r)} else {}
  {
    var longer := rows + [r];
    assert longer[|rows|] == r && forall i :: 0 <= i < |rows| ==> longer[i] == rows[i];
    forall a
      ensures a in AssetsIn(longer) <==> a in AssetsIn(rows) || (Valid(r) && a == Asset(r))
    {
      if a in AssetsIn(rows) {
        var i :| 0 <= i < |rows| && Valid(rows[i]) && Asset(rows[i]) == a;
        assert Valid(longer[i]) && Asset(longer[i]) == a;
      }
    }
  }

  lemma {:induction false} GroupIsGrouping(rows: seq<Record>, seen: set<Value>)
    ensures var groups := Group(rows, seen);
            && (forall i, j :: 0 <= i < j < |groups| ==> Asset(groups[i]) != Asset(groups[j]))
            && (forall r :: r in groups <==> Asset(r) !in seen && LastValid(rows, Asset(r)) == Some(r))
  {
    if rows != [] {
      var rest, last := rows[..|rows| - 1], rows[|rows| - 1];
      if !Valid(last) || Asset(last) in seen {
        GroupIsGrouping(rest, seen);
      } else {
        GroupIsGrouping(rest, seen + {Asset(last)});
        var more := Group(rest, seen + {Asset(last)});
        assert forall i :: 0 <= i < |more| ==> more[i] in more;
        assert forall r :: r in [last] + more <==> r == last || r in more;
      }
    }
  }

  lemma GroupingExists(rows: seq<Record>)
    ensures IsGrouping(Group(rows, {}), rows)
  {
    var groups := Group(rows, {});
    GroupIsGrouping(rows, {});
    assert forall i :: 0 <= i < |groups| ==> groups[i] in groups;
    forall a | LastValid(rows, a).Some?
      ensures LastValid(rows, a).value in groups
    {
      LastValidIsValid(rows, a);
    }
  }

  // ---------------------------------------------------------------- names

  predicate FiledUnder(r: Record, key: Value) {
    Asset(r) == key || (Longname(r) != Null && Longname(r) == key)
  }

  /** The last row filed under a key. */
  function LastFiled(rows: seq<Record>, key: Value): Option<Record> {
    if rows == [] then None
    else if FiledUnder(rows[|rows| - 1], key) then Some(rows[|rows| - 1])
    else LastFiled(rows[..|rows| - 1], key)
  }

  lemma {:induction false} FileAllIsLastFiled(rows: seq<Record>, key: Value)
    ensures key in FileAll(rows) <==> LastFiled(rows, key).Some?
    ensures key in FileAll(rows) ==> LastFiled(rows, key) == Some(FileAll(rows)[key])
  {
    if rows != [] { FileAllIsLastFiled(rows[..|rows| - 1], key); }
  }

  lemma {:induction false} LastFiledIsARow(rows: seq<Record>, key: Value)
    ensures LastFiled(rows, key).Some? ==>
              LastFiled(rows, key).value in rows && FiledUnder(LastFiled(rows, key).value, key)
    ensures LastFiled(rows, key).None? ==> forall r :: r in rows ==> !FiledUnder(r, key)
  {
    if rows != [] {
      LastFiledIsARow(rows[..|rows| - 1], key);
      assert forall r :: r in rows <==> r in rows[..|rows| - 1] || r == rows[|rows| - 1];
    }
  }

  lemma {:induction false} LastFiledOfBoth(a: seq<Record>, b: seq<Record>, key: Value)
    ensures LastFiled(a + b, key) == if LastFiled(b, key).Some? then LastFiled(b, key) else LastFiled(a, key)
  {
    if b == [] {
      assert a + b == a;
    } else {
      assert (a + b)[..|a + b| - 1] == a + b[..|b| - 1];
      LastFiledOfBoth(a, b[..|b| - 1], key);
    }
  }

  /** The last valid row of its asset, filed under the key: one that a rebuilt cache may show there. */
  predicate Claims(rows: seq<Record>, key: Value, r: Record) {
    LastValid(rows, Asset(r)) == Some(r) && FiledUnder(r, key)
  }

  ghost predicate OnlyClaim(rows: seq<Record>, key: Value, r: Record) {
    Claims(rows, key, r) && forall x :: Claims(rows, key, x) ==> x == r
  }

  lemma GroupingShowsAClaim(groups: seq<Record>, rows: seq<Record>, key: Value)
    requires IsGrouping(groups, rows)
    ensures LastFiled(groups, key).Some? ==> Claims(rows, key, LastFiled(groups, key).value)
    ensures LastFiled(groups, key).None? ==> forall x :: !Claims(rows, key, x)
  {
    LastFiledIsARow(groups, key);
    if LastFiled(groups, key).Some? {
      var i :| 0 <= i < |groups| && groups[i] == LastFiled(groups, key).value;
    } else {
      forall x | LastValid(rows, Asset(x)) == Some(x)
        ensures !FiledUnder(x, key)
      {
        assert x in groups;
      }
    }
  }

  function WithoutRow(groups: seq<Record>, r: Record): (others: seq<Record>)
    ensures forall x :: x in others <==> x in groups && x != r
  {
    if groups == [] then []
    else
      var rest, last := WithoutRow(groups[..|groups| - 1], r), groups[|groups| - 1];
      assert forall x :: x in groups <==> x in groups[..|groups| - 1] || x == last;
      if last == r then rest else rest + [last]
  }

  predicate DistinctAssets(groups: seq<Record>) {
    forall i, j :: 0 <= i < j < |groups| ==> Asset(groups[i]) != Asset(groups[j])
  }

  lemma {:induction false} WithoutRowStaysDistinct(groups: seq<Record>, r: Record)
    requires DistinctAssets(groups)
    ensures DistinctAssets(WithoutRow(groups, r))
  {
    if groups != [] {
      var rest, last := groups[..|groups| - 1], groups[|groups| - 1];
      WithoutRowStaysDistinct(rest, r);
      var others := WithoutRow(rest, r);
      forall i | 0 <= i < |others|
        ensures Asset(others[i]) != Asset(last)
      {
        assert others[i] in rest;
        var k :| 0 <= k < |rest| && rest[k] == others[i];
        assert groups[k] == rest[k];
      }
    }
  }

  /** The query may return the row of any asset last, so any claim may win. */
  lemma AnyClaimMayWin(rows: seq<Record>, key: Value, r: Record) returns (groups: seq<Record>)
    requires Claims(rows, key, r)
    ensures IsGrouping(groups, rows) && LastFiled(groups, key) == Some(r)
  {
    GroupingExists(rows);
    var others := WithoutRow(Group(rows, {}), r);
    groups := others + [r];
    WithoutRowStaysDistinct(Group(rows, {}), r);
    forall i | 0 <= i < |others|
      ensures LastValid(rows, Asset(others[i])) == Some(others[i]) && Asset(others[i]) != Asset(r)
    {
      assert others[i] in Group(rows, {});
      var k :| 0 <= k < |Group(rows, {})| && Group(rows, {})[k] == others[i];
    }
    forall a | LastValid(rows, a).Some?
      ensures LastValid(rows, a).value in groups
    {
      assert LastValid(rows, a).value in Group(rows, {});
      assert groups[|others|] == r && forall x :: x in others ==> x in groups;
    }
  }

  // ---------------------------------------------------------------- totals

  lemma {:induction false} SumMeansRows(rows: seq<Record>, a: Value)
    ensures ValidSum(rows, a).Some? <==> a in AssetsIn(rows)
  {
    if rows != [] {
      var rest, last := rows[..|rows| - 1], rows[|rows| - 1];
      SumMeansRows(rest, a);
      AssetsOfAppend(rest, last);
      assert rows == rest + [last];
    }
  }

  /** What a row adds to the sum read from the table. */
  lemma SumOfAppend(rows: seq<Record>, r: Record, a: Value)
    ensures ValidSum(rows + [r], a) ==
            var rest := ValidSum(rows, a);
            if !Valid(r) || Asset(r) != a then rest
            else if !Quantity(r).Int? then (if rest.Some? then rest else Some(Null))
            else if rest.Some? && rest.value.Int? then Some(Int(rest.value.n + Quantity(r).n))
            else Some(Quantity(r))
  {
    assert (rows + [r])[..|rows|] == rows;
  }

  /**
   * A row after which the running total is the table's: of valid rows any with a total to show, of others none that
   * counts.
   */
  predicate Counts(rows: seq<Record>, r: Record) {
    if Valid(r) then Quantity(r).Int? || Asset(r) in AssetsIn(rows)
    else !Quantity(r).Int? || (Asset(r) in AssetsIn(rows) && Quantity(r).n == 0)
  }

  /** Both maps say the same about one asset. */
  predicate SameAt(cached: map<Value, Value>, summed: map<Value, Value>, a: Value) {
    (a in cached <==> a in summed) && (a in cached && a in summed ==> cached[a] == summed[a])
  }

  lemma OtherTotalsStay(rows: seq<Record>, r: Record, other: Value)
    requires other != Asset(r)
    ensures SameAt(AddTotal(Totals(rows), Asset(r), Quantity(r)), Totals(rows + [r]), other)
  {
    AssetsOfAppend(rows, r);
    SumOfAppend(rows, r, other);
  }

  lemma OwnTotalIff(rows: seq<Record>, r: Record)
    requires Adds(Totals(rows), r)
    ensures SameAt(AddTotal(Totals(rows), Asset(r), Quantity(r)), Totals(rows + [r]), Asset(r)) <==> Counts(rows, r)
  {
    AssetsOfAppend(rows, r);
    SumMeansRows(rows, Asset(r));
    SumOfAppend(rows, r, Asset(r));
  }

  lemma SameEverywhere(cached: map<Value, Value>, summed: map<Value, Value>)
    ensures cached == summed <==> forall a :: SameAt(cached, summed, a)
  {
    if forall a :: SameAt(cached, summed, a) {
      forall a
        ensures a in cached <==> a in summed
        ensures a in cached && a in summed ==> cached[a] == summed[a]
      {
        assert SameAt(cached, summed, a);
      }
    }
  }

  /** The running total ignores the status: adding to it is summing the table again exactly for a row that counts. */
  lemma TotalsOfAppendIff(rows: seq<Record>, r: Record)
    requires Adds(Totals(rows), r)
    ensures AddTotal(Totals(rows), Asset(r), Quantity(r)) == Totals(rows + [r]) <==> Counts(rows, r)
  {
    SameEverywhere(AddTotal(Totals(rows), Asset(r), Quantity(r)), Totals(rows + [r]));
    OwnTotalIff(rows, r);
    forall other | other != Asset(r)
      ensures SameAt(AddTotal(Totals(rows), Asset(r), Quantity(r)), Totals(rows + [r]), other)
    {
      OtherTotalsStay(rows, r, other);
    }
  }

  // ---------------------------------------------------------------- one insert, and whole runs

  datatype Tables = Tables(issuances: seq<Record>, destructions: seq<Record>)

  datatype Call = Issue(issuance: Record) | Destroy(destruction: Record) | Touch

  function Insert(t: Tables, call: Call): Tables {
    match call
    case Issue(r) => t.(issuances := t.issuances + [r])
    case Destroy(r) => t.(destructions := t.destructions + [r])
    case Touch => t
  }

  function InsertAll(t: Tables, calls: seq<Call>): Tables {
    if calls == [] then t else Insert(InsertAll(t, calls[..|calls| - 1]), calls[|calls| - 1])
  }

  function Rebuilt(groups: seq<Record>, t: Tables): Assets {
    Assets(FileAll(groups), Totals(t.issuances), Totals(t.destructions))
  }

  /** What `insert_record` does to a cache that exists. */
  function Note(c: Assets, call: Call): Assets {
    match call
    case Issue(r) => AddIssuance(c, r)
    case Destroy(r) => AddDestroyed(c, r)
    case Touch => c
  }

  function NoteAll(c: Assets, calls: seq<Call>): Assets {
    if calls == [] then c else Note(NoteAll(c, calls[..|calls| - 1]), calls[|calls| - 1])
  }

  /** Outside mempool parsing an existing cache gets the row, and a missing one is built from tables that have it. */
  function CacheAfter(cache: Option<Assets>, t: Tables, call: Call, groups: seq<Record>): Assets {
    match cache
    case Some(c) => Note(c, call)
    case None => Rebuilt(groups, Insert(t, call))
  }

  /** A call after which the totals of an existing cache are still right, and only valid issuances are filed. */
  predicate Harmless(t: Tables, call: Call) {
    match call
    case Issue(r) => Adds(Totals(t.issuances), r) && Valid(r) && Counts(t.issuances, r)
    case Destroy(r) => Adds(Totals(t.destructions), r) && Counts(t.destructions, r)
    case Touch => true
  }

  predicate AllHarmless(t: Tables, calls: seq<Call>) {
    calls == [] ||
    var rest, last := calls[..|calls| - 1], calls[|calls| - 1];
    AllHarmless(t, rest) && Harmless(InsertAll(t, rest), last)
  }

  /** The issuances of a run, as they came. */
  function Issued(calls: seq<Call>): seq<Record> {
    if calls == [] then []
    else
      var rest, last := Issued(calls[..|calls| - 1]), calls[|calls| - 1];
      if last.Issue? then rest + [last.issuance] else rest
  }

  /** What a cache built with these groups has become: the groups and every issuance since filed one after the other. */
  lemma {:induction false} RunFiles(t: Tables, groups: seq<Record>, calls: seq<Call>)
    requires AllHarmless(t, calls)
    ensures InsertAll(t, calls).issuances == t.issuances + Issued(calls)
    ensures var end := InsertAll(t, calls);
            NoteAll(Rebuilt(groups, t), calls) ==
            Assets(FileAll(groups + Issued(calls)), Totals(end.issuances), Totals(end.destructions))
  {
    if calls == [] {
      assert groups + [] == groups && t.issuances + [] == t.issuances;
    } else {
      var rest, last := calls[..|calls| - 1], calls[|calls| - 1];
      var before := InsertAll(t, rest);
      RunFiles(t, groups, rest);
      match last {
        case Issue(r) =>
          TotalsOfAppendIff(before.issuances, r);
          assert t.issuances + (Issued(rest) + [r]) == t.issuances + Issued(rest) + [r];
          assert groups + (Issued(rest) + [r]) == groups + Issued(rest) + [r];
          assert (groups + Issued(rest) + [r])[..|groups + Issued(rest)|] == groups + Issued(rest);
        case Destroy(r) =>
          TotalsOfAppendIff(before.destructions, r);
        case Touch =>
      }
    }
  }

  // ---------------------------------------------------------------- under which key cache and rebuilt cache agree

  /**
   * No choice of the two queries matters for a key. When an issuance since the cache was built is filed under it, the
   * last of these has the only claim; otherwise whatever had a claim when the cache was built had the only one, and
   * still has it.
   */
  ghost predicate Settled(before: seq<Record>, since: seq<Record>, key: Value) {
    if LastFiled(since, key).Some? then OnlyClaim(before + since, key, LastFiled(since, key).value)
    else forall x :: Claims(before, key, x) ==> OnlyClaim(before, key, x) && Claims(before + since, key, x)
  }

  lemma {:induction false} ClaimOfBefore(before: seq<Record>, since: seq<Record>, key: Value, x: Record)
    requires Claims(before + since, key, x) && LastFiled(since, key).None?
    ensures Claims(before, key, x)
  {
    if since == [] {
      assert before + since == before;
    } else {
      var n := |since| - 1;
      assert (before + since)[..|before| + n] == before + since[..n] && (before + since)[|before| + n] == since[n];
      ClaimOfBefore(before, since[..n], key, x);
    }
  }

  ghost predicate AlikeAt(before: seq<Record>, since: seq<Record>, first: seq<Record>, groups: seq<Record>, key: Value)
  {
    IsGrouping(first, before) && IsGrouping(groups, before + since) ==>
      LastFiled(first + since, key) == LastFiled(groups, key)
  }

  /** Settled keys show the same row however either query ordered its groups. */
  lemma SettledKeyAgrees(before: seq<Record>, since: seq<Record>, first: seq<Record>, groups: seq<Record>, key: Value)
    requires Settled(before, since, key)
    ensures AlikeAt(before, since, first, groups, key)
  {
    if IsGrouping(first, before) && IsGrouping(groups, before + since) {
      LastFiledOfBoth(first, since, key);
      GroupingShowsAClaim(groups, before + since, key);
      GroupingShowsAClaim(first, before, key);
      if LastFiled(since, key).None? && LastFiled(groups, key).Some? {
        ClaimOfBefore(before, since, key, LastFiled(groups, key).value);
      }
    }
  }

  lemma UnsettledSinceDiffers(before: seq<Record>, since: seq<Record>, key: Value, first: seq<Record>)
    returns (groups: seq<Record>)
    requires IsGrouping(first, before) && LastFiled(since, key).Some? && !Settled(before, since, key)
    ensures !AlikeAt(before, since, first, groups, key)
  {
    var r := LastFiled(since, key).value;
    GroupingExists(before + since);
    groups := Group(before + since, {});
    LastFiledOfBoth(first, since, key);
    GroupingShowsAClaim(groups, before + since, key);
    if Claims(before + since, key, r) {
      var x :| Claims(before + since, key, x) && x != r;
      groups := AnyClaimMayWin(before + since, key, x);
    }
  }

  lemma UnsettledBeforeDiffers(before: seq<Record>, since: seq<Record>, key: Value, groups: seq<Record>)
    returns (first: seq<Record>)
    requires IsGrouping(groups, before + since) && LastFiled(since, key).None? && !Settled(before, since, key)
    ensures !AlikeAt(before, since, first, groups, key)
  {
    var x :| Claims(before, key, x) && !(OnlyClaim(before, key, x) && Claims(before + since, key, x));
    GroupingShowsAClaim(groups, before + since, key);
    first := AnyClaimMayWin(before, key, x);
    LastFiledOfBoth(first, since, key);
    if LastFiled(groups, key) == Some(x) {
      var y :| Claims(before, key, y) && y != x;
      first := AnyClaimMayWin(before, key, y);
      LastFiledOfBoth(first, since, key);
    }
  }

  /** For any other key there are two orders that make a difference. */
  lemma UnsettledKeyDiffers(before: seq<Record>, since: seq<Record>, key: Value)
    returns (first: seq<Record>, groups: seq<Record>)
    requires !Settled(before, since, key)
    ensures !AlikeAt(before, since, first, groups, key)
  {
    GroupingExists(before);
    GroupingExists(before + since);
    first, groups := Group(before, {}), Group(before + since, {});
    if LastFiled(since, key).Some? {
      groups := UnsettledSinceDiffers(before, since, key, first);
    } else {
      first := UnsettledBeforeDiffers(before, since, key, groups);
    }
  }

  // ---------------------------------------------------------------- the cache against a rebuilt one

  predicate SameRow(a: Assets, b: Assets, key: Value) {
    (key in a.last <==> key in b.last) && (key in a.last && key in b.last ==> a.last[key] == b.last[key])
  }

  /** A cache built with one order, after a run, against one built from the tables now with another. */
  ghost predicate AgreeAt(t: Tables, calls: seq<Call>, first: seq<Record>, groups: seq<Record>, key: Value) {
    IsGrouping(first, t.issuances) && IsGrouping(groups, InsertAll(t, calls).issuances) ==>
      SameRow(NoteAll(Rebuilt(first, t), calls), Rebuilt(groups, InsertAll(t, calls)), key)
  }

  lemma AgreeAtIsAlikeAt(t: Tables, calls: seq<Call>, first: seq<Record>, groups: seq<Record>, key: Value)
    requires AllHarmless(t, calls)
    ensures AgreeAt(t, calls, first, groups, key) <==> AlikeAt(t.issuances, Issued(calls), first, groups, key)
  {
    RunFiles(t, first, calls);
    FileAllIsLastFiled(first + Issued(calls), key);
    FileAllIsLastFiled(groups, key);
  }

  /**
   * From any tables, whichever call first created the cache and in whatever order the two queries return their
   * groups: after any harmless run both totals are those of the tables, and under every settled key the cache shows
   * what a rebuilt one would.
   */
  lemma CacheEqualsRebuilt(t: Tables, calls: seq<Call>, first: seq<Record>, groups: seq<Record>, key: Value)
    requires AllHarmless(t, calls) && IsGrouping(first, t.issuances)
    requires IsGrouping(groups, InsertAll(t, calls).issuances)
    ensures var cache, rebuilt := NoteAll(Rebuilt(first, t), calls), Rebuilt(groups, InsertAll(t, calls));
            && cache.issued == rebuilt.issued && cache.destroyed == rebuilt.destroyed
            && (Settled(t.issuances, Issued(calls), key) ==> SameRow(cache, rebuilt, key))
  {
    RunFiles(t, first, calls);
    AgreeAtIsAlikeAt(t, calls, first, groups, key);
    if Settled(t.issuances, Issued(calls), key) {
      SettledKeyAgrees(t.issuances, Issued(calls), first, groups, key);
    }
  }

  /** The cache is the rebuilt one, whatever the orders. */
  ghost predicate AlwaysEqual(t: Tables, calls: seq<Call>) {
    forall first, groups ::
      IsGrouping(first, t.issuances) && IsGrouping(groups, InsertAll(t, calls).issuances) ==>
        NoteAll(Rebuilt(first, t), calls) == Rebuilt(groups, InsertAll(t, calls))
  }

  lemma SameEverywhereIsEqual(a: Assets, b: Assets)
    requires a.issued == b.issued && a.destroyed == b.destroyed && forall key :: SameRow(a, b, key)
    ensures a == b
  {
    forall key
      ensures key in a.last <==> key in b.last
      ensures key in a.last && key in b.last ==> a.last[key] == b.last[key]
    {
      assert SameRow(a, b, key);
    }
    assert a.last == b.last;
  }

  lemma AllSettledIsEqual(t: Tables, calls: seq<Call>, first: seq<Record>, groups: seq<Record>)
    requires AllHarmless(t, calls) && forall key :: Settled(t.issuances, Issued(calls), key)
    requires IsGrouping(first, t.issuances) && IsGrouping(groups, InsertAll(t, calls).issuances)
    ensures NoteAll(Rebuilt(first, t), calls) == Rebuilt(groups, InsertAll(t, calls))
  {
    var cache, rebuilt := NoteAll(Rebuilt(first, t), calls), Rebuilt(groups, InsertAll(t, calls));
    forall key
      ensures SameRow(cache, rebuilt, key)
    {
      CacheEqualsRebuilt(t, calls, first, groups, key);
    }
    CacheEqualsRebuilt(t, calls, first, groups, Null);
    SameEverywhereIsEqual(cache, rebuilt);
  }

  lemma UnsettledIsNotAlwaysEqual(t: Tables, calls: seq<Call>, key: Value)
    requires AllHarmless(t, calls) && !Settled(t.issuances, Issued(calls), key)
    ensures !AlwaysEqual(t, calls)
  {
    var first, groups := UnsettledKeyDiffers(t.issuances, Issued(calls), key);
    RunFiles(t, first, calls);
    AgreeAtIsAlikeAt(t, calls, first, groups, key);
    assert NoteAll(Rebuilt(first, t), calls) != Rebuilt(groups, InsertAll(t, calls));
  }

  /** After a harmless run the cache equals a rebuilt one for all orders exactly when every key is settled. */
  lemma AlwaysEqualIffSettled(t: Tables, calls: seq<Call>)
    requires AllHarmless(t, calls)
    ensures AlwaysEqual(t, calls) <==> forall key :: Settled(t.issuances, Issued(calls), key)
  {
    if forall key :: Settled(t.issuances, Issued(calls), key) {
      forall first, groups | IsGrouping(first, t.issuances) && IsGrouping(groups, InsertAll(t, calls).issuances)
        ensures NoteAll(Rebuilt(first, t), calls) == Rebuilt(groups, InsertAll(t, calls))
      {
        AllSettledIsEqual(t, calls, first, groups);
      }
    } else {
      var key :| !Settled(t.issuances, Issued(calls), key);
      UnsettledIsNotAlwaysEqual(t, calls, key);
    }
  }

  lemma {:induction false} FiledAreOfOne(rows: seq<Record>, key: Value, a: Value)
    requires forall r :: r in rows ==> Valid(r) && (FiledUnder(r, key) <==> Asset(r) == a)
    ensures LastFiled(rows, key) == LastValid(rows, a)
  {
    if rows != [] {
      assert rows[|rows| - 1] in rows && forall r :: r in rows[..|rows| - 1] ==> r in rows;
      FiledAreOfOne(rows[..|rows| - 1], key, a);
    }
  }

  lemma {:induction false} LastValidOfBoth(a: seq<Record>, b: seq<Record>, asset: Value)
    ensures LastValid(a + b, asset) == if LastValid(b, asset).Some? then LastValid(b, asset) else LastValid(a, asset)
  {
    if b == [] {
      assert a + b == a;
    } else {
      assert (a + b)[..|a + b| - 1] == a + b[..|b| - 1];
      LastValidOfBoth(a, b[..|b| - 1], asset);
    }
  }

  /**
   * A key under which all valid rows of one asset are filed and no others is settled: the name of an asset that is
   * nobody's long name, and a long name that its asset has had from the start and shares with no other.
   */
  lemma KeyOfOneAssetIsSettled(before: seq<Record>, since: seq<Record>, key: Value, a: Value)
    requires forall r :: r in since ==> Valid(r)
    requires forall r :: r in before + since && Valid(r) ==> (FiledUnder(r, key) <==> Asset(r) == a)
    ensures Settled(before, since, key)
  {
    assert forall r :: r in since ==> r in before + since;
    assert forall r :: r in before ==> r in before + since;
    FiledAreOfOne(since, key, a);
    LastValidOfBoth(before, since, a);
    forall x | LastValid(before + since, Asset(x)) == Some(x) || LastValid(before, Asset(x)) == Some(x)
      ensures FiledUnder(x, key) <==> Asset(x) == a
    {
      LastValidIsValid(before + since, Asset(x));
      LastValidIsValid(before, Asset(x));
    }
    LastValidIsValid(since, a);
    LastValidIsValid(before, a);
  }

  // ---------------------------------------------------------------- one call more

  /** `add_issuance` does not look at the status: an invalid row is filed where no rebuilt cache has it. */
  lemma InvalidIssuanceDisagrees(c: Assets, r: Record, groups: seq<Record>, t: Tables)
    requires !Valid(r) && IsGrouping(groups, t.issuances)
    ensures !SameRow(AddIssuance(c, r), Rebuilt(groups, t), Asset(r))
  {
    FileAllIsLastFiled(groups, Asset(r));
    GroupingShowsAClaim(groups, t.issuances, Asset(r));
    if LastFiled(groups, Asset(r)).Some? {
      LastValidIsValid(t.issuances, Asset(LastFiled(groups, Asset(r)).value));
    }
  }

  lemma OneCallMore(t: Tables, calls: seq<Call>, call: Call)
    ensures InsertAll(t, calls + [call]) == Insert(InsertAll(t, calls), call)
    ensures forall c :: NoteAll(c, calls + [call]) == Note(NoteAll(c, calls), call)
    ensures AllHarmless(t, calls + [call]) <==> AllHarmless(t, calls) && Harmless(InsertAll(t, calls), call)
    ensures Issued(calls + [call]) == Issued(calls) + if call.Issue? then [call.issuance] else []
  {
    assert (calls + [call])[..|calls|] == calls;
  }

  /**
   * After an issuance the cache equals a rebuilt one for all orders exactly when the row is valid, its quantity counts
   * and every key is settled.
   */
  lemma IssuanceAgreesIffValid(t: Tables, calls: seq<Call>, r: Record)
    requires AllHarmless(t, calls) && Adds(Totals(InsertAll(t, calls).issuances), r)
    ensures AlwaysEqual(t, calls + [Issue(r)]) <==>
            && Valid(r) && Counts(InsertAll(t, calls).issuances, r)
            && forall key :: Settled(t.issuances, Issued(calls) + [r], key)
  {
    var end := InsertAll(t, calls);
    OneCallMore(t, calls, Issue(r));
    if Valid(r) && Counts(end.issuances, r) {
      AlwaysEqualIffSettled(t, calls + [Issue(r)]);
    } else {
      var first, groups := Group(t.issuances, {}), Group(end.issuances + [r], {});
      GroupingExists(t.issuances);
      GroupingExists(end.issuances + [r]);
      RunFiles(t, first, calls);
      TotalsOfAppendIff(end.issuances, r);
      if !Valid(r) {
        InvalidIssuanceDisagrees(NoteAll(Rebuilt(first, t), calls), r, groups, Insert(end, Issue(r)));
      }
      assert NoteAll(Rebuilt(first, t), calls + [Issue(r)]) != Rebuilt(groups, InsertAll(t, calls + [Issue(r)]));
    }
  }

  /** Nor does `add_destroyed`: after a destruction they are equal exactly when it counts and every key is settled. */
  lemma DestructionAgreesIffCounts(t: Tables, calls: seq<Call>, r: Record)
    requires AllHarmless(t, calls) && Adds(Totals(InsertAll(t, calls).destructions), r)
    ensures AlwaysEqual(t, calls + [Destroy(r)]) <==>
            Counts(InsertAll(t, calls).destructions, r) && forall key :: Settled(t.issuances, Issued(calls), key)
  {
    var end := InsertAll(t, calls);
    OneCallMore(t, calls, Destroy(r));
    assert Issued(calls) + [] == Issued(calls);
    if Counts(end.destructions, r) {
      AlwaysEqualIffSettled(t, calls + [Destroy(r)]);
    } else {
      var first, groups := Group(t.issuances, {}), Group(end.issuances, {});
      GroupingExists(t.issuances);
      GroupingExists(end.issuances);
      RunFiles(t, first, calls);
      TotalsOfAppendIff(end.destructions, r);
      assert NoteAll(Rebuilt(first, t), calls + [Destroy(r)]) != Rebuilt(groups, InsertAll(t, calls + [Destroy(r)]));
    }
  }

  // ---------------------------------------------------------------- rows that break it

  const NO_TABLES := Tables([], [])

  /** What a fairminter that is no subasset issues when it opens: a long name that is empty, but not NULL. */
  function FairminterRow(asset: string): Record {
    map["asset" := Text(asset), "asset_longname" := Text(""), "quantity" := Int(0), "status" := Text("valid")]
  }

  lemma FairmintersDiffer()
    ensures var x, y := FairminterRow("XOURS"), FairminterRow("YOURS");
            Asset(x) != Asset(y) && Valid(x) && Valid(y) && FiledUnder(x, Text("")) && FiledUnder(y, Text(""))
  {
    assert "XOURS"[0] != "YOURS"[0];
  }

  lemma TwoIssuances(one: Record, two: Record)
    requires Valid(one) && Valid(two) && Quantity(one).Int? && Quantity(two).Int? && Asset(one) != Asset(two)
    ensures var calls := [Issue(one), Issue(two)];
            && AllHarmless(NO_TABLES, calls) && Issued(calls) == [one, two]
            && InsertAll(NO_TABLES, calls) == Tables([one, two], [])
  {
    var calls := [Issue(one)];
    assert AssetsIn([]) == {};
    AssetsOfAppend([], one);
    assert [] + calls == calls && calls + [Issue(two)] == [Issue(one), Issue(two)] && [] + [one] == [one];
    OneCallMore(NO_TABLES, [], Issue(one));
    OneCallMore(NO_TABLES, calls, Issue(two));
  }

  lemma GroupingOfTwo(one: Record, two: Record)
    requires Valid(one) && Valid(two) && Asset(one) != Asset(two)
    ensures IsGrouping([], []) && IsGrouping([one, two], [two, one])
  {
    var rows := [two, one];
    assert rows[..1] == [two] && [two][..0] == [];
    forall a
      ensures LastValid(rows, a) ==
              if a == Asset(one) then Some(one) else if a == Asset(two) then Some(two) else None
    {
      assert LastValid([two], a) == if a == Asset(two) then Some(two) else LastValid([], a);
    }
    assert [one, two][0] == one && [one, two][1] == two;
  }

  /**
   * Two fairminters share the empty long name. The cache has the later one under it, and a rebuilt one the last in the
   * order of the query, here by asset.
   */
  lemma EmptyLongNamesDrift()
    ensures var x, y := FairminterRow("XOURS"), FairminterRow("YOURS");
            var calls := [Issue(y), Issue(x)];
            && AllHarmless(NO_TABLES, calls) && IsGrouping([], [])
               && IsGrouping([x, y], InsertAll(NO_TABLES, calls).issuances)
            && !SameRow(NoteAll(Rebuilt([], NO_TABLES), calls), Rebuilt([x, y], InsertAll(NO_TABLES, calls)), Text(""))
  {
    var x, y := FairminterRow("XOURS"), FairminterRow("YOURS");
    TwoIssuances(y, x);
    FairmintersDiffer();
    GroupingOfTwo(x, y);
    AgreeAtIsAlikeAt(NO_TABLES, [Issue(y), Issue(x)], [], [x, y], Text(""));
    assert [] + [y, x] == [y, x] && [y, x][..1] == [y] && [x, y][..1] == [x];
  }

  /** An issuance as a failed parse leaves it: a name, a quantity, and why it does not count. */
  function InvalidRow(asset: string, quantity: int): Record {
    map["asset" := Text(asset), "asset_longname" := Null, "quantity" := Int(quantity),
        "status" := Text("invalid: insufficient funds")]
  }

  lemma InvalidRowIsInvalid(asset: string, quantity: int)
    ensures !Valid(InvalidRow(asset, quantity)) && Quantity(InvalidRow(asset, quantity)) == Int(quantity)
    ensures !Counts([], InvalidRow(asset, quantity)) && Totals([]) == map[]
  {
    assert |"invalid: insufficient funds"| != |"valid"| && AssetsIn([]) == {};
  }

  /** The first issuance of all is invalid: the cache takes it for the asset's last one. */
  lemma InvalidIssuanceIsFiled(quantity: int)
    ensures var r := InvalidRow("SOMEASSET", quantity);
            && NoteAll(Rebuilt([], NO_TABLES), [Issue(r)]).last == map[Asset(r) := r]
            && !AlwaysEqual(NO_TABLES, [Issue(r)])
  {
    var r := InvalidRow("SOMEASSET", quantity);
    InvalidRowIsInvalid("SOMEASSET", quantity);
    assert [] + [Issue(r)] == [Issue(r)];
    OneCallMore(NO_TABLES, [], Issue(r));
    IssuanceAgreesIffValid(NO_TABLES, [], r);
  }

  /** The first destruction of all is invalid: the cache subtracts it from the supply. */
  lemma InvalidDestructionIsSubtracted(quantity: int)
    ensures var r := InvalidRow("SOMEASSET", quantity);
            && NoteAll(Rebuilt([], NO_TABLES), [Destroy(r)]).destroyed == map[Asset(r) := Int(quantity)]
            && !AlwaysEqual(NO_TABLES, [Destroy(r)])
  {
    var r := InvalidRow("SOMEASSET", quantity);
    InvalidRowIsInvalid("SOMEASSET", quantity);
    assert [] + [Destroy(r)] == [Destroy(r)];
    OneCallMore(NO_TABLES, [], Destroy(r));
    DestructionAgreesIffCounts(NO_TABLES, [], r);
  }

  // ---------------------------------------------------------------- the cache object

  class AssetCacheDb {
    var assets: map<Value, Record>
    var assetsTotalIssued: map<Value, Value>
    var assetsTotalDestroyed: map<Value, Value>

    function Now(): Assets
      reads this
    {
      Assets(assets, assetsTotalIssued, assetsTotalDestroyed)
    }

    /** Files the groups of the query one after the other, then reads both totals. */
    constructor (groups: seq<Record>, t: Tables)
      ensures Now() == Rebuilt(groups, t)
    {
      assets, assetsTotalIssued, assetsTotalDestroyed := map[], Totals(t.issuances), Totals(t.destructions);
      new;
      for i := 0 to |groups|
        invariant assets == FileAll(groups[..i])
        invariant assetsTotalIssued == Totals(t.issuances) && assetsTotalDestroyed == Totals(t.destructions)
      {
        assert groups[..i + 1][..i] == groups[..i];
        FileRow(groups[i]);
      }
      assert groups[..|groups|] == groups;
    }

    method FileRow(r: Record)
      modifies this`assets
      ensures assets == File(old(assets), r)
    {
      if Longname(r) != Null {
        assets := assets[Longname(r) := r];
      }
      assets := assets[Asset(r) := r];
    }

    method AddIssuedRow(r: Record)
      requires Adds(assetsTotalIssued, r)
      modifies this
      ensures Now() == AddIssuance(old(Now()), r)
    {
      FileRow(r);
      if Quantity(r).Int? {
        if Asset(r) in assetsTotalIssued {
          assetsTotalIssued := assetsTotalIssued[Asset(r) := Int(assetsTotalIssued[Asset(r)].n + Quantity(r).n)];
        } else {
          assetsTotalIssued := assetsTotalIssued[Asset(r) := Quantity(r)];
        }
      }
    }

    method AddDestroyedRow(r: Record)
      requires Adds(assetsTotalDestroyed, r)
      modifies this
      ensures Now() == AddDestroyed(old(Now()), r)
    {
      if Quantity(r).Int? {
        if Asset(r) in assetsTotalDestroyed {
          var total := assetsTotalDestroyed[Asset(r)].n + Quantity(r).n;
          assetsTotalDestroyed := assetsTotalDestroyed[Asset(r) := Int(total)];
        } else {
          assetsTotalDestroyed := assetsTotalDestroyed[Asset(r) := Quantity(r)];
        }
      }
    }
  }

  /** The two tables and the one instance of the cache, as soon as there is one. */
  class IssuanceDb {
    var tables: Tables
    var cache: AssetCacheDb?

    function Cached(): Option<Assets>
      reads this, cache
    {
      if cache == null then None else Some(cache.Now())
    }

    /** No total reads NULL that the row of the call would be added to. */
    predicate Accepts(call: Call)
      reads this, cache
    {
      cache != null ==>
        match call
        case Issue(r) => Adds(cache.assetsTotalIssued, r)
        case Destroy(r) => Adds(cache.assetsTotalDestroyed, r)
        case Touch => true
    }

    constructor (tables: Tables)
      ensures this.tables == tables && cache == null
    {
      this.tables, cache := tables, null;
    }

    /** Writes the row, if there is one, then passes it on or creates the cache; `groups` is what the query returns. */
    method InsertRecord(call: Call, groups: seq<Record>)
      requires Accepts(call)
      modifies this, cache
      ensures cache != null && tables == Insert(old(tables), call)
      ensures Cached() == Some(CacheAfter(old(Cached()), old(tables), call, groups))
    {
      match call {
        case Issue(r) => tables := tables.(issuances := tables.issuances + [r]);
        case Destroy(r) => tables := tables.(destructions := tables.destructions + [r]);
        case Touch =>
      }
      if cache == null {
        cache := new AssetCacheDb(groups, tables);
      } else {
        match call {
          case Issue(r) => cache.AddIssuedRow(r);
          case Destroy(r) => cache.AddDestroyedRow(r);
          case Touch =>
        }
      }
    }
  }
}
