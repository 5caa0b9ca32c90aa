/** The key-value store of the fetcher: entry tables, their height index, and the two range deletions. */
module HeightIndex {
  import opened Records
  import opened Bytes

  type Key = ByteString

  type U32 = h: int | 0 <= h < 0x1_0000_0000

  // ---------------------------------------------------------------- big-endian heights

  /** The first byte in which two strings differ is the smaller one in the first of them. */
  ghost predicate DiffersBelow(a: ByteString, b: ByteString, i: nat) {
    i < |a| && i < |b| && a[..i] == b[..i] && a[i] < b[i]
  }

  lemma DiffersBelowLonger(a: ByteString, b: ByteString, i: nat, c: Byte, d: Byte)
    requires DiffersBelow(a, b, i)
    ensures DiffersBelow(a + [c], b + [d], i)
  {
    assert (a + [c])[..i] == a[..i] && (b + [d])[..i] == b[..i];
  }

  lemma {:induction false} BytesOrder(x: nat, y: nat, n: nat) returns (i: nat)
    requires x < y < Power256(n)
    ensures DiffersBelow(BigEndianBytes(x, n), BigEndianBytes(y, n), i)
  {
    var a, b := BigEndianBytes(x / 256, n - 1), BigEndianBytes(y / 256, n - 1);
    var c, d := (x % 256) as Byte, (y % 256) as Byte;
    assert BigEndianBytes(x, n) == a + [c] && BigEndianBytes(y, n) == b + [d];
    if x / 256 < y / 256 {
      i := BytesOrder(x / 256, y / 256, n - 1);
      DiffersBelowLonger(a, b, i, c, d);
    } else {
      i := n - 1;
      assert (a + [c])[..i] == a && (b + [d])[..i] == b;
    }
  }

  /** `to_be_bytes` of a 32-bit height. */
  function BigEndian(h: U32): (k: Key)
    ensures |k| == 4
  {
    BigEndianBytes(h, 4)
  }

  lemma FourBigEndianBytes()
    ensures Power256(4) == 0x1_0000_0000
  {
    assert Power256(2) == 65536;
    assert Power256(3) == 16777216;
  }

  function FromBigEndian(k: Key): (h: U32)
    requires |k| == 4
  {
    BytesOfNumber(k);
    FourBigEndianBytes();
    Number(k)
  }

  lemma BigEndianRoundTrip(h: U32)
    ensures FromBigEndian(BigEndian(h)) == h
  {
    FourBigEndianBytes();
    NumberOfBytes(h, 4);
  }

  lemma FromBigEndianRoundTrip(k: Key)
    requires |k| == 4
    ensures BigEndian(FromBigEndian(k)) == k
  {
    BytesOfNumber(k);
  }

  /** The order the store keeps its keys in. */
  predicate KeyLess(a: Key, b: Key) {
    if b == [] then false
    else if a == [] then true
    else a[0] < b[0] || (a[0] == b[0] && KeyLess(a[1..], b[1..]))
  }

  lemma {:induction false} KeyTotal(a: Key, b: Key)
    ensures KeyLess(a, b) || KeyLess(b, a) || a == b
    ensures !(KeyLess(a, b) && KeyLess(b, a)) && !KeyLess(a, a)
  {
    if a != [] && b != [] {
      KeyTotal(a[1..], b[1..]);
      KeyIrreflexive(a);
      assert a == [a[0]] + a[1..] && b == [b[0]] + b[1..];
    } else {
      KeyIrreflexive(a);
    }
  }

  lemma {:induction false} KeyIrreflexive(a: Key)
    ensures !KeyLess(a, a)
  {
    if a != [] { KeyIrreflexive(a[1..]); }
  }

  lemma {:induction false} KeyTransitive(a: Key, b: Key, c: Key)
    requires KeyLess(a, b) && KeyLess(b, c)
    ensures KeyLess(a, c)
  {
    if a != [] && a[0] == b[0] && b[0] == c[0] {
      KeyTransitive(a[1..], b[1..], c[1..]);
    }
  }

  /** After n equal bytes the next ones decide. */
  lemma {:induction false} FirstDifferenceDecides(a: Key, b: Key, n: nat)
    requires n < |a| && n < |b| && a[..n] == b[..n] && a[n] < b[n]
    ensures KeyLess(a, b)
  {
    if n > 0 {
      assert a[0] == a[..n][0] == b[..n][0] == b[0];
      assert a[1..][..n - 1] == a[..n][1..] && b[1..][..n - 1] == b[..n][1..];
      FirstDifferenceDecides(a[1..], b[1..], n - 1);
    }
  }

  /** The lower height has the smaller key, whatever follows it. */
  lemma HeightOrderIsKeyOrder(h1: U32, s1: Key, h2: U32, s2: Key)
    requires h1 < h2
    ensures KeyLess(BigEndian(h1) + s1, BigEndian(h2) + s2)
  {
    var a, b := BigEndian(h1), BigEndian(h2);
    FourBigEndianBytes();
    var n := BytesOrder(h1, h2, 4);
    assert (a + s1)[..n] == a[..n] && (b + s2)[..n] == b[..n];
    FirstDifferenceDecides(a + s1, b + s2, n);
  }

  lemma {:induction false} PrefixIsNotGreater(p: Key, s: Key)
    ensures !KeyLess(p + s, p)
  {
    if p == [] {
    } else {
      assert (p + s)[1..] == p[1..] + s;
      PrefixIsNotGreater(p[1..], s);
    }
  }

  // ---------------------------------------------------------------- entries and index keys

  /** One record: the column family, what identifies it there, its height and its value. */
  datatype Entry = Entry(column: nat, suffix: Key, height: U32, value: Key)

  function EntryKey(e: Entry): Key { e.suffix + BigEndian(e.height) }

  function IndexKey(e: Entry): Key { BigEndian(e.height) + e.suffix }

  /** From an index key back to its entry key. */
  function Rotate(k: Key): Key {
    if |k| > 4 then k[4..] + k[..4] else k
  }

  function HeightOf(indexKey: Key): U32
    requires |indexKey| >= 4
  {
    FromBigEndian(indexKey[..4])
  }

  function EntryHeight(entryKey: Key): U32
    requires |entryKey| >= 4
  {
    FromBigEndian(entryKey[|entryKey| - 4..])
  }

  lemma RotateIndexKey(e: Entry)
    ensures Rotate(IndexKey(e)) == EntryKey(e) && HeightOf(IndexKey(e)) == e.height
  {
    assert IndexKey(e)[..4] == BigEndian(e.height) && IndexKey(e)[4..] == e.suffix;
    BigEndianRoundTrip(e.height);
    if e.suffix == [] { assert EntryKey(e) == BigEndian(e.height) == IndexKey(e); }
  }

  lemma RotateKeepsHeight(k: Key)
    requires |k| >= 4
    ensures |Rotate(k)| == |k| && EntryHeight(Rotate(k)) == HeightOf(k)
  {
    var rotated := Rotate(k);
    assert rotated[|k| - 4..] == k[..4];
  }

  lemma RotateIsInjective(a: Key, b: Key)
    requires |a| >= 4 && |b| >= 4 && Rotate(a) == Rotate(b)
    ensures a == b
  {
    if |a| > 4 {
      assert Rotate(a)[..|a| - 4] == a[4..] && Rotate(a)[|a| - 4..] == a[..4];
      assert Rotate(b)[..|b| - 4] == b[4..] && Rotate(b)[|b| - 4..] == b[..4];
      assert a == a[..4] + a[4..] && b == b[..4] + b[4..];
    }
  }

  // ---------------------------------------------------------------- a column family and its index

  /** The entries by key, and the index keys in the order of the store. */
  datatype Column = Column(entries: map<Key, Key>, index: seq<Key>)

  predicate SortedKeys(keys: seq<Key>) {
    forall i, j :: 0 <= i < j < |keys| ==> KeyLess(keys[i], keys[j])
  }

  predicate HasIndexKey(index: seq<Key>, entryKey: Key) {
    exists k :: k in index && Rotate(k) == entryKey
  }

  /** Every index key leads to an entry; entries written without an index key are allowed. */
  ghost predicate Sound(c: Column) {
    SortedKeys(c.index) && forall k :: k in c.index ==> |k| >= 4 && Rotate(k) in c.entries
  }

  /** Index keys and entry keys correspond one to one through the rotation. */
  ghost predicate Paired(c: Column) {
    Sound(c) && forall e :: e in c.entries ==> HasIndexKey(c.index, e)
  }

  function InsertKey(keys: seq<Key>, key: Key): (longer: seq<Key>)
    ensures forall k :: k in longer <==> k in keys || k == key
  {
    if keys == [] then [key]
    else if keys[0] == key then keys
    else if KeyLess(key, keys[0]) then [key] + keys
    else
      assert forall k :: k in keys <==> k == keys[0] || k in keys[1..];
      [keys[0]] + InsertKey(keys[1..], key)
  }

  lemma {:induction false} InsertKeepsSorted(keys: seq<Key>, key: Key)
    requires SortedKeys(keys)
    ensures SortedKeys(InsertKey(keys, key))
  {
    if keys != [] && keys[0] != key {
      if KeyLess(key, keys[0]) {
        forall j | 0 <= j < |keys|
          ensures KeyLess(key, keys[j])
        {
          if j > 0 { KeyTransitive(key, keys[0], keys[j]); }
        }
      } else {
        KeyTotal(keys[0], key);
        InsertKeepsSorted(keys[1..], key);
        var rest := InsertKey(keys[1..], key);
        forall j | 0 <= j < |rest|
          ensures KeyLess(keys[0], rest[j])
        {
          assert rest[j] in rest;
          if rest[j] != key {
            var i :| 0 <= i < |keys[1..]| && keys[1..][i] == rest[j];
            assert keys[i + 1] == rest[j];
          }
        }
      }
    }
  }

  /** One `put`, with the index key only when a minimum height is given. */
  function PutEntry(c: Column, e: Entry, indexed: bool): Column {
    Column(c.entries[EntryKey(e) := e.value], if indexed then InsertKey(c.index, IndexKey(e)) else c.index)
  }

  /** A put never spoils the index; it keeps every entry indexed exactly when its own entry is. */
  lemma PutStaysPaired(c: Column, e: Entry, indexed: bool)
    requires Sound(c)
    ensures Sound(PutEntry(c, e, indexed))
    ensures Paired(c) ==> (Paired(PutEntry(c, e, indexed)) <==> indexed || HasIndexKey(c.index, EntryKey(e)))
  {
    RotateIndexKey(e);
    InsertKeepsSorted(c.index, IndexKey(e));
    var c' := PutEntry(c, e, indexed);
    forall x | HasIndexKey(c.index, x)
      ensures HasIndexKey(c'.index, x)
    {
      var k :| k in c.index && Rotate(k) == x;
      assert k in c'.index;
    }
    if indexed { assert IndexKey(e) in c'.index; }
  }

  // ---------------------------------------------------------------- what the deletions leave

  /** The heights to keep, both ends included. */
  datatype Range = Range(low: int, high: int)

  predicate Within(r: Range, h: int) { r.low <= h <= r.high }

  function KeysWithin(keys: seq<Key>, r: Range): (kept: seq<Key>)
    requires forall k :: k in keys ==> |k| >= 4
    ensures forall k :: k in kept <==> k in keys && Within(r, HeightOf(k))
  {
    if keys == [] then []
    else
      assert forall k :: k in keys <==> k in keys[..|keys| - 1] || k == keys[|keys| - 1];
      var rest, last := KeysWithin(keys[..|keys| - 1], r), keys[|keys| - 1];
      if Within(r, HeightOf(last)) then rest + [last] else rest
  }

  /** The index keys with a height in range, and of the entries with an index key those as well. */
  ghost function ColumnWithin(c: Column, r: Range): Column
    requires Sound(c)
  {
    Column(map e | e in c.entries && (HasIndexKey(c.index, e) ==> EntryWithin(r, e)) :: c.entries[e],
           KeysWithin(c.index, r))
  }

  predicate EntryWithin(r: Range, entryKey: Key) {
    |entryKey| >= 4 && Within(r, EntryHeight(entryKey))
  }

  /**
   * No entry out of range stays exactly when none without an index key is out of range; when every entry has one,
   * exactly those in range stay, each still with its index key.
   */
  lemma NothingOutsideStaysIff(c: Column, r: Range)
    requires Sound(c)
    ensures (forall e :: e in ColumnWithin(c, r).entries ==> EntryWithin(r, e)) <==>
            (forall e :: e in c.entries && !HasIndexKey(c.index, e) ==> EntryWithin(r, e))
    ensures Paired(c) ==>
              && Paired(ColumnWithin(c, r))
              && forall e :: e in ColumnWithin(c, r).entries <==> e in c.entries && EntryWithin(r, e)
  {
    var c' := ColumnWithin(c, r);
    WithinStaysSound(c, r);
    if Paired(c) {
      forall e | e in c'.entries
        ensures HasIndexKey(c'.index, e)
      {
        var k :| k in c.index && Rotate(k) == e;
        RotateKeepsHeight(k);
        assert k in c'.index;
      }
    }
    forall e | e in c.entries && !HasIndexKey(c.index, e)
      ensures e in c'.entries
    {
    }
  }

  /** Written without an index key, the only entry of a column outlives a rollback to any lower height. */
  lemma UnindexedEntryStays(e: Entry, height: U32)
    requires height < e.height
    ensures var c, r := PutEntry(Column(map[], []), e, false), Range(0, height);
            Sound(c) && EntryKey(e) in ColumnWithin(c, r).entries && !EntryWithin(r, EntryKey(e))
  {
    var c := PutEntry(Column(map[], []), e, false);
    assert c.index == [] && !HasIndexKey(c.index, EntryKey(e));
    RotateIndexKey(e);
    RotateKeepsHeight(IndexKey(e));
  }

  lemma {:induction false} WithinStaysSorted(keys: seq<Key>, r: Range)
    requires SortedKeys(keys) && forall k :: k in keys ==> |k| >= 4
    ensures SortedKeys(KeysWithin(keys, r))
  {
    if keys != [] {
      var rest, last := keys[..|keys| - 1], keys[|keys| - 1];
      assert forall k :: k in rest ==> k in keys;
      WithinStaysSorted(rest, r);
      var kept := KeysWithin(rest, r);
      forall i | 0 <= i < |kept|
        ensures KeyLess(kept[i], last)
      {
        assert kept[i] in rest;
        var j :| 0 <= j < |rest| && rest[j] == kept[i];
        assert keys[j] == rest[j];
      }
    }
  }

  lemma WithinStaysSound(c: Column, r: Range)
    requires Sound(c)
    ensures Sound(ColumnWithin(c, r))
  {
    WithinStaysSorted(c.index, r);
    forall k | k in KeysWithin(c.index, r)
      ensures |k| >= 4 && Rotate(k) in ColumnWithin(c, r).entries
    {
      RotateKeepsHeight(k);
    }
  }

  // ---------------------------------------------------------------- batches of deletions

  /** What a batch deletes from one column. */
  datatype Deletes = Deletes(indexKeys: set<Key>, entryKeys: set<Key>)

  function KeysExcept(keys: seq<Key>, gone: set<Key>): (kept: seq<Key>)
    ensures forall k :: k in kept <==> k in keys && k !in gone
  {
    if keys == [] then []
    else
      assert forall k :: k in keys <==> k in keys[..|keys| - 1] || k == keys[|keys| - 1];
      var rest, last := KeysExcept(keys[..|keys| - 1], gone), keys[|keys| - 1];
      if last in gone then rest else rest + [last]
  }

  function Commit(c: Column, d: Deletes): Column {
    Column(c.entries - d.entryKeys, KeysExcept(c.index, d.indexKeys))
  }

  /** A batch that deletes exactly the index keys out of range, and their rotations, leaves the range. */
  ghost predicate DeletesOutside(c: Column, d: Deletes, r: Range) {
    && (forall k :: k in c.index ==> |k| >= 4 && (k in d.indexKeys <==> !Within(r, HeightOf(k))))
    && (forall e :: e in d.entryKeys <==> exists k :: k in c.index && k in d.indexKeys && Rotate(k) == e)
  }

  lemma {:induction false} ExceptIsWithin(keys: seq<Key>, gone: set<Key>, r: Range)
    requires forall k :: k in keys ==> |k| >= 4 && (k in gone <==> !Within(r, HeightOf(k)))
    ensures KeysExcept(keys, gone) == KeysWithin(keys, r)
  {
    if keys != [] {
      assert forall k :: k in keys[..|keys| - 1] ==> k in keys;
      ExceptIsWithin(keys[..|keys| - 1], gone, r);
    }
  }

  lemma CommitLeavesRange(c: Column, d: Deletes, r: Range)
    requires Sound(c) && DeletesOutside(c, d, r)
    ensures Commit(c, d) == ColumnWithin(c, r) && Sound(Commit(c, d))
  {
    ExceptIsWithin(c.index, d.indexKeys, r);
    forall e | e in c.entries
      ensures e in d.entryKeys <==> HasIndexKey(c.index, e) && !EntryWithin(r, e)
    {
      if HasIndexKey(c.index, e) {
        var k :| k in c.index && Rotate(k) == e;
        RotateKeepsHeight(k);
        if e in d.entryKeys {
          var k' :| k' in c.index && k' in d.indexKeys && Rotate(k') == e;
          RotateIsInjective(k, k');
        }
      }
    }
    assert Commit(c, d).entries == ColumnWithin(c, r).entries;
    WithinStaysSound(c, r);
  }

  // ---------------------------------------------------------------- the iterations

  lemma HeightsFollowKeys(keys: seq<Key>, i: nat, j: nat)
    requires SortedKeys(keys) && i < j < |keys| && |keys[i]| >= 4 && |keys[j]| >= 4
    ensures HeightOf(keys[i]) <= HeightOf(keys[j])
  {
    var a, b := keys[i], keys[j];
    if HeightOf(b) < HeightOf(a) {
      FromBigEndianRoundTrip(a[..4]);
      FromBigEndianRoundTrip(b[..4]);
      HeightOrderIsKeyOrder(HeightOf(b), b[4..], HeightOf(a), a[4..]);
      assert a == a[..4] + a[4..] && b == b[..4] + b[4..];
      KeyTotal(a, b);
    }
  }

  /** A key is at or after the prefix of a height exactly when its own height is. */
  lemma FromPrefixIsFromHeight(k: Key, h: U32)
    requires |k| >= 4
    ensures KeyLess(k, BigEndian(h)) <==> HeightOf(k) < h
  {
    FromBigEndianRoundTrip(k[..4]);
    assert k == BigEndian(HeightOf(k)) + k[4..];
    assert BigEndian(h) == BigEndian(h) + [];
    if HeightOf(k) < h {
      HeightOrderIsKeyOrder(HeightOf(k), k[4..], h, []);
    } else if HeightOf(k) > h {
      HeightOrderIsKeyOrder(h, [], HeightOf(k), k[4..]);
      KeyTotal(k, BigEndian(h));
    } else {
      PrefixIsNotGreater(BigEndian(h), k[4..]);
    }
  }

  ghost predicate AllSound(columns: seq<Column>) {
    forall i :: 0 <= i < |columns| ==> Sound(columns[i])
  }

  /** What a loop over the index has put into its batch after the keys seen so far. */
  ghost predicate Collected(keys: seq<Key>, d: Deletes, r: Range) {
    IndexCollected(keys, d.indexKeys, r) && RotationsCollected(d)
  }

  ghost predicate IndexCollected(keys: seq<Key>, gone: set<Key>, r: Range) {
    forall k :: k in gone <==> k in keys && |k| >= 4 && !Within(r, HeightOf(k))
  }

  ghost predicate RotationsCollected(d: Deletes) {
    forall e :: e in d.entryKeys <==> exists k :: k in d.indexKeys && Rotate(k) == e
  }

  lemma CollectOne(keys: seq<Key>, d: Deletes, r: Range, k: Key)
    requires Collected(keys, d, r) && |k| >= 4
    ensures Within(r, HeightOf(k)) ==> Collected(keys + [k], d, r)
    ensures !Within(r, HeightOf(k)) ==>
              Collected(keys + [k], Deletes(d.indexKeys + {k}, d.entryKeys + {Rotate(k)}), r)
  {
    if !Within(r, HeightOf(k)) {
      var d' := Deletes(d.indexKeys + {k}, d.entryKeys + {Rotate(k)});
      forall e
        ensures e in d'.entryKeys <==> exists x :: x in d'.indexKeys && Rotate(x) == e
      {
        if e in d.entryKeys {
          var x :| x in d.indexKeys && Rotate(x) == e;
          assert x in d'.indexKeys;
        } else if e == Rotate(k) {
          assert k in d'.indexKeys;
        }
      }
    }
  }

  lemma AboveIsOutside(k: Key, height: U32)
    requires |k| >= 4 && height < 0xFFFF_FFFF
    ensures KeyLess(k, BigEndian(height + 1)) <==> Within(Range(0, height), HeightOf(k))
  {
    FromPrefixIsFromHeight(k, height + 1);
  }

  lemma CollectedAll(c: Column, d: Deletes, r: Range)
    requires Sound(c) && Collected(c.index, d, r)
    ensures DeletesOutside(c, d, r)
  {
  }

  lemma CollectTurn(keys: seq<Key>, d: Deletes, key: Key, height: U32)
    requires Collected(keys, d, Range(0, height)) && |key| >= 4 && height < 0xFFFF_FFFF
    ensures Collected(keys + [key],
                      if KeyLess(key, BigEndian(height + 1)) then d
                      else Deletes(d.indexKeys + {key}, d.entryKeys + {Rotate(key)}),
                      Range(0, height))
  {
    CollectOne(keys, d, Range(0, height), key);
    AboveIsOutside(key, height);
  }

  /** From the first key at or after the prefix to the end of the index. */
  method CollectAbove(c: Column, height: U32) returns (d: Deletes)
    requires Sound(c) && height < 0xFFFF_FFFF
    ensures DeletesOutside(c, d, Range(0, height))
  {
    var prefix := BigEndian(height + 1);
    ghost var r := Range(0, height);
    d := Deletes({}, {});
    for i := 0 to |c.index|
      invariant Collected(c.index[..i], d, r)
    {
      var key := c.index[i];
      assert key in c.index;
      assert c.index[..i + 1] == c.index[..i] + [key];
      CollectTurn(c.index[..i], d, key, height);
      if !KeyLess(key, prefix) {
        d := Deletes(d.indexKeys + {key}, d.entryKeys + {Rotate(key)});
      }
    }
    assert c.index[..|c.index|] == c.index;
    CollectedAll(c, d, r);
  }

  /** Once one key is high enough all later keys are: stopping there misses nothing. */
  lemma StoppingMissesNothing(keys: seq<Key>, gone: set<Key>, height: U32, i: nat)
    requires SortedKeys(keys) && (forall k :: k in keys ==> |k| >= 4)
    requires i < |keys| && HeightOf(keys[i]) >= height
    requires IndexCollected(keys[..i], gone, Range(height, 0xFFFF_FFFF))
    ensures IndexCollected(keys, gone, Range(height, 0xFFFF_FFFF))
  {
    forall k | k in keys && HeightOf(k) < height
      ensures k in keys[..i]
    {
      var j :| 0 <= j < |keys| && keys[j] == k;
      LowKeyIsEarly(keys, height, i, j);
      assert keys[..i][j] == k;
    }
    assert forall k :: k in keys[..i] ==> k in keys;
  }

  lemma LowKeyIsEarly(keys: seq<Key>, height: U32, i: nat, j: nat)
    requires SortedKeys(keys) && i < |keys| && j < |keys| && |keys[i]| >= 4 && |keys[j]| >= 4
    requires HeightOf(keys[i]) >= height > HeightOf(keys[j])
    ensures j < i
  {
    if i < j { HeightsFollowKeys(keys, i, j); }
  }

  /** From the start of the index up to the first key whose height is not below. */
  method CollectBelow(keys: seq<Key>, height: U32) returns (d: Deletes)
    requires SortedKeys(keys) && forall k :: k in keys ==> |k| >= 4
    ensures Collected(keys, d, Range(height, 0xFFFF_FFFF))
  {
    ghost var r := Range(height, 0xFFFF_FFFF);
    d := Deletes({}, {});
    var i := 0;
    while i < |keys|
      invariant 0 <= i <= |keys| && Collected(keys[..i], d, r)
    {
      var key := keys[i];
      if HeightOf(key) >= height {
        StoppingMissesNothing(keys, d.indexKeys, height, i);
        return;
      }
      assert keys[..i + 1] == keys[..i] + [key];
      CollectOne(keys[..i], d, r, key);
      d := Deletes(d.indexKeys + {key}, d.entryKeys + {Rotate(key)});
      i := i + 1;
    }
    assert keys[..|keys|] == keys;
  }

  // ---------------------------------------------------------------- the database

  ghost function AllWithin(columns: seq<Column>, r: Range): (kept: seq<Column>)
    requires AllSound(columns)
    ensures |kept| == |columns| && forall i :: 0 <= i < |columns| ==> kept[i] == ColumnWithin(columns[i], r)
  {
    seq(|columns|, i requires 0 <= i < |columns| => ColumnWithin(columns[i], r))
  }

  function PutAll(columns: seq<Column>, entries: seq<Entry>, indexed: bool): (after: seq<Column>)
    requires forall e :: e in entries ==> e.column < |columns|
    ensures |after| == |columns|
  {
    if entries == [] then columns
    else
      var before, e := PutAll(columns, entries[..|entries| - 1], indexed), entries[|entries| - 1];
      before[e.column := PutEntry(before[e.column], e, indexed)]
  }

  lemma {:induction false} PutAllStaysSound(columns: seq<Column>, entries: seq<Entry>, indexed: bool)
    requires AllSound(columns) && forall e :: e in entries ==> e.column < |columns|
    ensures AllSound(PutAll(columns, entries, indexed))
  {
    if entries != [] {
      PutAllStaysSound(columns, entries[..|entries| - 1], indexed);
      var before, e := PutAll(columns, entries[..|entries| - 1], indexed), entries[|entries| - 1];
      PutStaysPaired(before[e.column], e, indexed);
    }
  }

  // ---------------------------------------------------------------- reading back what was put

  predicate WritesTo(e: Entry, j: nat, k: Key) { e.column == j && k == e.suffix + BigEndian(e.height) }

  predicate Written(entries: seq<Entry>, j: nat, k: Key) {
    exists i :: 0 <= i < |entries| && WritesTo(entries[i], j, k)
  }

  /** The last of the entries with this key in this family. */
  predicate LastWrite(entries: seq<Entry>, i: nat, j: nat, k: Key) {
    i < |entries| && WritesTo(entries[i], j, k) && forall l :: i < l < |entries| ==> !WritesTo(entries[l], j, k)
  }

  /** Under a key that was written its last value, under any other what was there. */
  ghost predicate ReadsBack(columns: seq<Column>, entries: seq<Entry>, after: seq<Column>, j: nat, k: Key)
    requires j < |columns| == |after|
  {
    && (forall i: nat :: LastWrite(entries, i, j, k) ==>
          k in after[j].entries && after[j].entries[k] == entries[i].value)
    && (!Written(entries, j, k) ==>
          && (k in after[j].entries <==> k in columns[j].entries)
          && (k in after[j].entries && k in columns[j].entries ==> after[j].entries[k] == columns[j].entries[k]))
  }

  lemma OneWriteMore(entries: seq<Entry>, e: Entry, j: nat, k: Key)
    ensures Written(entries + [e], j, k) <==> Written(entries, j, k) || WritesTo(e, j, k)
    ensures forall i: nat :: LastWrite(entries + [e], i, j, k) ==>
              if i < |entries| then LastWrite(entries, i, j, k) && !WritesTo(e, j, k) else i == |entries|
  {
    var longer := entries + [e];
    assert longer[|entries|] == e && forall i :: 0 <= i < |entries| ==> longer[i] == entries[i];
    if Written(entries, j, k) {
      var i :| 0 <= i < |entries| && WritesTo(entries[i], j, k);
      assert WritesTo(longer[i], j, k);
    }
  }

  lemma PutReadsBack(columns: seq<Column>, entries: seq<Entry>, before: seq<Column>, e: Entry, indexed: bool, j: nat,
                     k: Key)
    requires j < |columns| == |before| && e.column < |columns| && ReadsBack(columns, entries, before, j, k)
    ensures ReadsBack(columns, entries + [e], before[e.column := PutEntry(before[e.column], e, indexed)], j, k)
  {
    OneWriteMore(entries, e, j, k);
  }

  lemma {:induction false} PutAllReadsBack(columns: seq<Column>, entries: seq<Entry>, indexed: bool, j: nat, k: Key)
    requires j < |columns| && forall e :: e in entries ==> e.column < |columns|
    ensures ReadsBack(columns, entries, PutAll(columns, entries, indexed), j, k)
  {
    if entries != [] {
      var rest, last := entries[..|entries| - 1], entries[|entries| - 1];
      PutAllReadsBack(columns, rest, indexed, j, k);
      PutReadsBack(columns, rest, PutAll(columns, rest, indexed), last, indexed, j, k);
      assert rest + [last] == entries;
    }
  }

  /** A written entry is found again as long as the deletion that follows does not ask for a higher one. */
  ghost predicate FindsWritten(columns: seq<Column>, entries: seq<Entry>, low: int, after: seq<Column>, j: nat, k: Key)
    requires j < |columns| == |after|
  {
    && (forall i: nat :: LastWrite(entries, i, j, k) && low <= entries[i].height ==>
          k in after[j].entries && after[j].entries[k] == entries[i].value)
    && (!Written(entries, j, k) && k in after[j].entries ==>
          k in columns[j].entries && after[j].entries[k] == columns[j].entries[k])
  }

  function Lowest(min: Option<U32>): U32 { if min.Some? then min.value else 0 }

  ghost predicate FindsAllWritten(columns: seq<Column>, entries: seq<Entry>, low: int, after: seq<Column>) {
    && |after| == |columns|
    && forall j: nat, k: Key | j < |columns| :: FindsWritten(columns, entries, low, after, j, k)
  }

  lemma WithinFindsWritten(columns: seq<Column>, entries: seq<Entry>, low: U32, after: seq<Column>, j: nat, k: Key)
    requires j < |columns| == |after| && AllSound(after) && ReadsBack(columns, entries, after, j, k)
    ensures FindsWritten(columns, entries, low, AllWithin(after, Range(low, 0xFFFF_FFFF)), j, k)
  {
    forall i: nat | LastWrite(entries, i, j, k)
      ensures |k| >= 4 && EntryHeight(k) == entries[i].height
    {
      var h := entries[i].height;
      assert k[|k| - 4..] == BigEndian(h);
      BigEndianRoundTrip(h);
    }
  }

  /** The entries written, and with a minimum height what is below it deleted. */
  ghost function Stored(columns: seq<Column>, entries: seq<Entry>, min: Option<U32>): seq<Column>
    requires (forall e :: e in entries ==> e.column < |columns|) && AllSound(PutAll(columns, entries, min.Some?))
  {
    match min
    case None => PutAll(columns, entries, false)
    case Some(height) => AllWithin(PutAll(columns, entries, true), Range(height, 0xFFFF_FFFF))
  }

  lemma PutFindsWritten(columns: seq<Column>, entries: seq<Entry>, min: Option<U32>)
    requires AllSound(columns) && forall e :: e in entries ==> e.column < |columns|
    requires AllSound(PutAll(columns, entries, min.Some?))
    ensures FindsAllWritten(columns, entries, Lowest(min), Stored(columns, entries, min))
  {
    var after := Stored(columns, entries, min);
    forall j: nat, k: Key | j < |columns|
      ensures FindsWritten(columns, entries, Lowest(min), after, j, k)
    {
      PutAllReadsBack(columns, entries, min.Some?, j, k);
      if min.Some? {
        WithinFindsWritten(columns, entries, min.value, PutAll(columns, entries, true), j, k);
      }
    }
  }

  ghost predicate BatchOutside(columns: seq<Column>, batch: seq<Deletes>, r: Range) {
    |batch| == |columns| && forall i :: 0 <= i < |columns| ==> DeletesOutside(columns[i], batch[i], r)
  }

  lemma ExtendBatch(columns: seq<Column>, batch: seq<Deletes>, r: Range, c: Column, d: Deletes)
    requires BatchOutside(columns, batch, r) && DeletesOutside(c, d, r)
    ensures BatchOutside(columns + [c], batch + [d], r)
  {
    forall i | 0 <= i < |columns| + 1
      ensures DeletesOutside((columns + [c])[i], (batch + [d])[i], r)
    {
      if i < |columns| { assert (columns + [c])[i] == columns[i] && (batch + [d])[i] == batch[i]; }
    }
  }

  class Database {
    var columns: seq<Column>
    var maxBlockHeight: Option<U32>

    ghost predicate Valid()
      reads this
    {
      AllSound(columns)
    }

    constructor (families: nat)
      ensures Valid() && |columns| == families && maxBlockHeight == None
      ensures forall i :: 0 <= i < families ==> columns[i] == Column(map[], [])
    {
      columns, maxBlockHeight := seq(families, i => Column(map[], [])), None;
    }

    /** One deletion set per column family, in one loop over the families. */
    method RollbackBatch(height: U32) returns (batch: seq<Deletes>)
      requires Valid() && height < 0xFFFF_FFFF
      ensures BatchOutside(columns, batch, Range(0, height))
    {
      batch := [];
      for i := 0 to |columns|
        invariant |batch| == i && BatchOutside(columns[..i], batch, Range(0, height))
      {
        assert columns[..i + 1] == columns[..i] + [columns[i]];
        var d := CollectAbove(columns[i], height);
        ExtendBatch(columns[..i], batch, Range(0, height), columns[i], d);
        batch := batch + [d];
      }
      assert columns[..|columns|] == columns;
    }

    method DeleteBelowBatch(height: U32) returns (batch: seq<Deletes>)
      requires Valid()
      ensures BatchOutside(columns, batch, Range(height, 0xFFFF_FFFF))
    {
      batch := [];
      for i := 0 to |columns|
        invariant |batch| == i && BatchOutside(columns[..i], batch, Range(height, 0xFFFF_FFFF))
      {
        assert columns[..i + 1] == columns[..i] + [columns[i]];
        var d := CollectBelow(columns[i].index, height);
        CollectedAll(columns[i], d, Range(height, 0xFFFF_FFFF));
        ExtendBatch(columns[..i], batch, Range(height, 0xFFFF_FFFF), columns[i], d);
        batch := batch + [d];
      }
      assert columns[..|columns|] == columns;
    }

    method WriteBatch(batch: seq<Deletes>, ghost r: Range)
      requires Valid() && BatchOutside(columns, batch, r)
      modifies this`columns
      ensures Valid() && columns == AllWithin(old(columns), r)
    {
      forall i | 0 <= i < |columns|
        ensures Commit(columns[i], batch[i]) == ColumnWithin(columns[i], r) && Sound(Commit(columns[i], batch[i]))
      {
        CommitLeavesRange(columns[i], batch[i], r);
      }
      var before := columns;
      columns := seq(|before|, i requires 0 <= i < |before| && |batch| == |before| => Commit(before[i], batch[i]));
    }

    /**
     * Afterwards, of the index keys and of the entries that have one, exactly those up to the height remain, in every
     * family.
     */
    method RollbackToHeight(height: U32)
      requires Valid() && height < 0xFFFF_FFFF
      modifies this
      ensures Valid() && columns == AllWithin(old(columns), Range(0, height)) && maxBlockHeight == Some(height)
    {
      var batch := RollbackBatch(height);
      WriteBatch(batch, Range(0, height));
      maxBlockHeight := Some(height);
    }

    /** Afterwards, of the index keys and of the entries that have one, exactly those from the height on remain. */
    method DeleteBelowHeight(height: U32)
      requires Valid()
      modifies this`columns
      ensures Valid() && columns == AllWithin(old(columns), Range(height, 0xFFFF_FFFF))
    {
      var batch := DeleteBelowBatch(height);
      WriteBatch(batch, Range(height, 0xFFFF_FFFF));
    }

    /**
     * Writes every entry. With a minimum height each gets its index key, and what has become too old is deleted;
     * without one nothing else is written, and no later deletion will find the entry.
     */
    method PutEntries(minIndexHeight: Option<U32>, entries: seq<Entry>)
      requires Valid() && forall e :: e in entries ==> e.column < |columns|
      modifies this`columns
      ensures Valid() && AllSound(PutAll(old(columns), entries, minIndexHeight.Some?))
      ensures columns == Stored(old(columns), entries, minIndexHeight)
      ensures FindsAllWritten(old(columns), entries, Lowest(minIndexHeight), columns)
    {
      PutAllStaysSound(columns, entries, minIndexHeight.Some?);
      PutFindsWritten(columns, entries, minIndexHeight);
      for i := 0 to |entries|
        invariant |columns| == |old(columns)| && columns == PutAll(old(columns), entries[..i], minIndexHeight.Some?)
      {
        assert entries[..i + 1][..i] == entries[..i] && entries[i] in entries;
        var e := entries[i];
        columns := columns[e.column := PutEntry(columns[e.column], e, minIndexHeight.Some?)];
      }
      assert entries[..|entries|] == entries;
      if minIndexHeight.Some? { DeleteBelowHeight(minIndexHeight.value); }
    }
  }
}
