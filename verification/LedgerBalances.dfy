/** What credits and debits do to balances over whole runs: range, conservation, and when `held` sees all of it. */
module LedgerBalances {
  import opened Records
  import opened Ledger
  import opened LedgerRollback

  // ---------------------------------------------------------------- the sums of `held`

  function HolderText(h: Holder): string {
    match h
    case Address(a) => a
    case Utxo(u) => u
  }

  /** `(address || asset) AS aa`: the text the query groups by. */
  function GroupKey(row: BalanceRow): string {
    HolderText(row.holder) + row.asset
  }

  /**
   * `SELECT asset, SUM(quantity) FROM (SELECT ..., MAX(rowid) ... GROUP BY aa) GROUP BY asset`, for one
   * asset and one kind of holder, reading rows from the last: only the first row met of a group counts.
   */
  function HeldQuery(rows: seq<BalanceRow>, utxos: bool, seen: set<string>, asset: string): int {
    if rows == [] then 0
    else
      var rest, last := rows[..|rows| - 1], rows[|rows| - 1];
      if last.holder.Utxo? != utxos then HeldQuery(rest, utxos, seen, asset)
      else
        (if GroupKey(last) !in seen && last.asset == asset then last.quantity else 0)
        + HeldQuery(rest, utxos, seen + {GroupKey(last)}, asset)
  }

  /** The part of `held` that reads the balances table. */
  function Held(rows: seq<BalanceRow>, asset: string): int {
    HeldQuery(rows, false, {}, asset) + HeldQuery(rows, true, {}, asset)
  }

  /** What the last row of a group contributes to an asset's sum. */
  function GroupValue(rows: seq<BalanceRow>, utxos: bool, key: string, asset: string): int {
    if rows == [] then 0
    else
      var last := rows[|rows| - 1];
      if last.holder.Utxo? == utxos && GroupKey(last) == key then (if last.asset == asset then last.quantity else 0)
      else GroupValue(rows[..|rows| - 1], utxos, key, asset)
  }

  lemma {:induction false} SkippedGroup(rows: seq<BalanceRow>, utxos: bool, seen: set<string>, key: string,
                                        asset: string)
    ensures HeldQuery(rows, utxos, seen, asset) ==
            HeldQuery(rows, utxos, seen + {key}, asset) + if key in seen then 0 else GroupValue(rows, utxos, key, asset)
  {
    if key in seen {
      assert seen + {key} == seen;
    } else if rows != [] {
      var rest, last := rows[..|rows| - 1], rows[|rows| - 1];
      if last.holder.Utxo? != utxos {
        SkippedGroup(rest, utxos, seen, key, asset);
      } else {
        assert seen + {key} + {GroupKey(last)} == seen + {GroupKey(last)} + {key};
        SkippedGroup(rest, utxos, seen + {GroupKey(last)}, key, asset);
      }
    }
  }

  /**
   * One more row moves `held` by the difference to the balance it replaces exactly when its group's last row is that
   * balance.
   */
  lemma HeldOfAppendIff(rows: seq<BalanceRow>, row: BalanceRow, asset: string)
    ensures Held(rows + [row], asset) ==
            Held(rows, asset) + (if row.asset == asset then row.quantity - Balance(rows, row.holder, asset) else 0)
            <==> GroupValue(rows, row.holder.Utxo?, GroupKey(row), asset) ==
                 if row.asset == asset then Balance(rows, row.holder, asset) else 0
  {
    assert (rows + [row])[..|rows|] == rows;
    assert {} + {GroupKey(row)} == {GroupKey(row)};
    SkippedGroup(rows, row.holder.Utxo?, {}, GroupKey(row), asset);
  }

  // ---------------------------------------------------------------- what all holders have

  /** The latest quantities of all holders of one kind that have not been met yet, reading rows from the last. */
  function LatestSum(rows: seq<BalanceRow>, utxos: bool, met: set<Holder>, asset: string): int {
    if rows == [] then 0
    else
      var rest, last := rows[..|rows| - 1], rows[|rows| - 1];
      if last.holder.Utxo? != utxos || last.asset != asset then LatestSum(rest, utxos, met, asset)
      else (if last.holder !in met then last.quantity else 0) + LatestSum(rest, utxos, met + {last.holder}, asset)
  }

  /** The sum over all holders of what they have of an asset. */
  function Holdings(rows: seq<BalanceRow>, asset: string): int {
    LatestSum(rows, false, {}, asset) + LatestSum(rows, true, {}, asset)
  }

  lemma {:induction false} WithoutHolder(rows: seq<BalanceRow>, utxos: bool, met: set<Holder>, h: Holder, asset: string)
    requires h.Utxo? == utxos
    ensures LatestSum(rows, utxos, met, asset) ==
            LatestSum(rows, utxos, met + {h}, asset) + if h in met then 0 else Balance(rows, h, asset)
  {
    if h in met {
      assert met + {h} == met;
    } else if rows != [] {
      var rest, last := rows[..|rows| - 1], rows[|rows| - 1];
      if last.holder.Utxo? != utxos || last.asset != asset {
        WithoutHolder(rest, utxos, met, h, asset);
      } else {
        assert met + {h} + {last.holder} == met + {last.holder} + {h};
        WithoutHolder(rest, utxos, met + {last.holder}, h, asset);
      }
    }
  }

  /** One more row moves the sum by the difference to the balance it replaces. */
  lemma HoldingsOfAppend(rows: seq<BalanceRow>, row: BalanceRow, asset: string)
    ensures Holdings(rows + [row], asset) ==
            Holdings(rows, asset) + if row.asset == asset then row.quantity - Balance(rows, row.holder, asset) else 0
  {
    assert (rows + [row])[..|rows|] == rows;
    if row.asset == asset {
      assert {} + {row.holder} == {row.holder};
      WithoutHolder(rows, row.holder.Utxo?, {}, row.holder, asset);
    }
  }

  // ---------------------------------------------------------------- what `held` misses

  /** The latest quantities that are not the last row of their group. */
  function Missed(rows: seq<BalanceRow>, utxos: bool, seen: set<string>, met: set<Holder>, asset: string): int {
    if rows == [] then 0
    else
      var rest, last := rows[..|rows| - 1], rows[|rows| - 1];
      if last.holder.Utxo? != utxos then Missed(rest, utxos, seen, met, asset)
      else
        (if last.asset == asset && last.holder !in met && GroupKey(last) in seen then last.quantity else 0)
        + Missed(rest, utxos, seen + {GroupKey(last)}, if last.asset == asset then met + {last.holder} else met, asset)
  }

  lemma {:induction false} HeldAndMissed(rows: seq<BalanceRow>, utxos: bool, seen: set<string>, met: set<Holder>,
                                         asset: string)
    requires forall h :: h in met ==> HolderText(h) + asset in seen
    ensures LatestSum(rows, utxos, met, asset) == HeldQuery(rows, utxos, seen, asset) +
            Missed(rows, utxos, seen, met, asset)
  {
    if rows != [] {
      var rest, last := rows[..|rows| - 1], rows[|rows| - 1];
      if last.holder.Utxo? != utxos {
        HeldAndMissed(rest, utxos, seen, met, asset);
      } else {
        HeldAndMissed(rest, utxos, seen + {GroupKey(last)}, if last.asset == asset then met + {last.holder} else met,
                      asset);
      }
    }
  }

  /** Row i is what its holder has of its asset now. */
  predicate Current(rows: seq<BalanceRow>, i: nat)
    requires i < |rows|
  {
    forall j :: i < j < |rows| ==> !(rows[j].holder == rows[i].holder && rows[j].asset == rows[i].asset)
  }

  predicate SameGroup(a: BalanceRow, b: BalanceRow) {
    a.holder.Utxo? == b.holder.Utxo? && GroupKey(a) == GroupKey(b)
  }

  /** A later row falls into the same group. */
  predicate Covered(rows: seq<BalanceRow>, i: nat)
    requires i < |rows|
  {
    exists j :: i < j < |rows| && SameGroup(rows[j], rows[i])
  }

  /** No balance other than zero stands in front of a later row of its group. */
  predicate NothingLost(rows: seq<BalanceRow>, asset: string) {
    forall i :: 0 <= i < |rows| && rows[i].asset == asset && Current(rows, i) && Covered(rows, i) ==>
        rows[i].quantity == 0
  }

  predicate MayBeMissed(rows: seq<BalanceRow>, i: nat, utxos: bool, seen: set<string>, met: set<Holder>, asset: string)
    requires i < |rows|
  {
    && rows[i].holder.Utxo? == utxos && rows[i].asset == asset && rows[i].holder !in met
    && Current(rows, i) && (Covered(rows, i) || GroupKey(rows[i]) in seen)
  }

  /** The same for one kind of holder, behind groups seen and holders met. */
  predicate NothingMissed(rows: seq<BalanceRow>, utxos: bool, seen: set<string>, met: set<Holder>, asset: string) {
    forall i :: 0 <= i < |rows| && MayBeMissed(rows, i, utxos, seen, met, asset) ==> rows[i].quantity == 0
  }

  lemma CurrentBefore(rows: seq<BalanceRow>, i: nat)
    requires i < |rows| - 1
    ensures var rest, last := rows[..|rows| - 1], rows[|rows| - 1];
            Current(rows, i) <==>
            Current(rest, i) && !(last.holder == rows[i].holder && last.asset == rows[i].asset)
  {
    var n := |rows| - 1;
    var rest := rows[..n];
    assert forall j :: 0 <= j < n ==> rest[j] == rows[j];
    if Current(rows, i) {
      forall j | i < j < n ensures !(rest[j].holder == rest[i].holder && rest[j].asset == rest[i].asset) {
        assert rest[j] == rows[j];
      }
    }
    if Current(rest, i) && !(rows[n].holder == rows[i].holder && rows[n].asset == rows[i].asset) {
      forall j | i < j < |rows| ensures !(rows[j].holder == rows[i].holder && rows[j].asset == rows[i].asset) {
        assert j < n ==> rest[j] == rows[j];
      }
    }
  }

  lemma CoveredBefore(rows: seq<BalanceRow>, i: nat)
    requires i < |rows| - 1
    ensures var rest, last := rows[..|rows| - 1], rows[|rows| - 1];
            Covered(rows, i) <==> Covered(rest, i) || SameGroup(last, rows[i])
  {
    var n := |rows| - 1;
    var rest := rows[..n];
    if Covered(rows, i) {
      var j :| i < j < |rows| && SameGroup(rows[j], rows[i]);
      assert j < n ==> rest[j] == rows[j];
    }
    if Covered(rest, i) {
      var j :| i < j < n && SameGroup(rest[j], rest[i]);
      assert rows[j] == rest[j];
    }
  }

  /** Nothing is missed exactly when nothing is missed at the last row and before it. */
  lemma NothingMissedStep(rows: seq<BalanceRow>, utxos: bool, seen: set<string>, met: set<Holder>, asset: string)
    requires rows != []
    ensures var rest, last := rows[..|rows| - 1], rows[|rows| - 1];
            NothingMissed(rows, utxos, seen, met, asset) <==>
            if last.holder.Utxo? != utxos then NothingMissed(rest, utxos, seen, met, asset)
            else
              && (last.asset == asset && last.holder !in met && GroupKey(last) in seen ==> last.quantity == 0)
              && NothingMissed(rest, utxos, seen + {GroupKey(last)},
                               if last.asset == asset then met + {last.holder} else met, asset)
  {
    var n := |rows| - 1;
    var rest, last := rows[..n], rows[n];
    forall i | 0 <= i < n
      ensures rest[i] == rows[i]
      ensures Current(rows, i) <==> Current(rest, i) && !(last.holder == rows[i].holder && last.asset == rows[i].asset)
      ensures Covered(rows, i) <==> Covered(rest, i) || SameGroup(last, rows[i])
    {
      CurrentBefore(rows, i);
      CoveredBefore(rows, i);
    }
    assert Current(rows, n) && !Covered(rows, n);
  }

  lemma {:induction false} MissedIsZeroIff(rows: seq<BalanceRow>, utxos: bool, seen: set<string>, met: set<Holder>,
                                           asset: string)
    requires InRange(rows)
    ensures Missed(rows, utxos, seen, met, asset) >= 0
    ensures Missed(rows, utxos, seen, met, asset) == 0 <==> NothingMissed(rows, utxos, seen, met, asset)
  {
    if rows != [] {
      var rest, last := rows[..|rows| - 1], rows[|rows| - 1];
      assert InRange(rest) && last.quantity >= 0;
      NothingMissedStep(rows, utxos, seen, met, asset);
      if last.holder.Utxo? != utxos {
        MissedIsZeroIff(rest, utxos, seen, met, asset);
      } else {
        MissedIsZeroIff(rest, utxos, seen + {GroupKey(last)}, if last.asset == asset then met + {last.holder} else met,
                        asset);
      }
    }
  }

  /**
   * `held` gives what all holders have exactly when no balance other than zero is hidden behind a later row of its
   * group.
   */
  lemma HeldIsRightIff(rows: seq<BalanceRow>, asset: string)
    requires InRange(rows)
    ensures Held(rows, asset) <= Holdings(rows, asset)
    ensures Held(rows, asset) == Holdings(rows, asset) <==> NothingLost(rows, asset)
  {
    HeldAndMissed(rows, false, {}, {}, asset);
    HeldAndMissed(rows, true, {}, {}, asset);
    MissedIsZeroIff(rows, false, {}, {}, asset);
    MissedIsZeroIff(rows, true, {}, {}, asset);
  }

  // ---------------------------------------------------------------- which keys are safe

  predicate IsCapital(c: char) { 'A' <= c <= 'Z' }

  /** Transaction outputs and bech32 addresses have no capital letter; the name of an asset begins with one. */
  predicate PlainRow(row: BalanceRow) {
    && (forall i :: 0 <= i < |HolderText(row.holder)| ==> !IsCapital(HolderText(row.holder)[i]))
    && row.asset != "" && IsCapital(row.asset[0])
  }

  lemma PlainKeysDiffer(a: BalanceRow, b: BalanceRow)
    requires PlainRow(a) && PlainRow(b) && a.holder.Utxo? == b.holder.Utxo? && GroupKey(a) == GroupKey(b)
    ensures a.holder == b.holder && a.asset == b.asset
  {
    var x, y, key := HolderText(a.holder), HolderText(b.holder), GroupKey(a);
    FirstCapital(x, a.asset);
    FirstCapital(y, b.asset);
    assert |x| == |y|;
    assert x == key[..|x|] && y == key[..|y|] && a.asset == key[|x|..] && b.asset == key[|y|..];
  }

  lemma FirstCapital(x: string, asset: string)
    requires (forall i :: 0 <= i < |x| ==> !IsCapital(x[i])) && asset != "" && IsCapital(asset[0])
    ensures IsCapital((x + asset)[|x|]) && forall i :: 0 <= i < |x| ==> !IsCapital((x + asset)[i])
  {
  }

  /** With such keys nothing is ever lost. */
  lemma PlainKeysLoseNothing(rows: seq<BalanceRow>, asset: string)
    requires forall i :: 0 <= i < |rows| ==> PlainRow(rows[i])
    ensures NothingLost(rows, asset)
  {
    forall i | 0 <= i < |rows| && rows[i].asset == asset && Current(rows, i)
      ensures !Covered(rows, i)
    {
      forall j | i < j < |rows| && rows[j].holder.Utxo? == rows[i].holder.Utxo?
        ensures GroupKey(rows[j]) != GroupKey(rows[i])
      {
        if GroupKey(rows[j]) == GroupKey(rows[i]) { PlainKeysDiffer(rows[i], rows[j]); }
      }
    }
  }

  /**
   * Base58 addresses differ in length and contain capitals: for any text x, what x has of an asset hides behind
   * what the address one letter longer has of the asset without that letter.
   */
  lemma CapitalMovesOver(x: string, letter: char, asset: string, q: int, q': int)
    requires 0 < q <= MAX_INT && 0 <= q' <= MAX_INT
    ensures var rows := [BalanceRow(Address(x), [letter] + asset, q, 1, 0, Null),
                         BalanceRow(Address(x + [letter]), asset, q', 1, 1, Null)];
            !NothingLost(rows, [letter] + asset) && Holdings(rows, [letter] + asset) == q
              && Held(rows, [letter] + asset) < q
  {
    var longer := [letter] + asset;
    var first := BalanceRow(Address(x), longer, q, 1, 0, Null);
    var second := BalanceRow(Address(x + [letter]), asset, q', 1, 1, Null);
    var rows := [first, second];
    assert GroupKey(first) == x + ([letter] + asset) == (x + [letter]) + asset == GroupKey(second);
    assert |longer| != |asset| && |x| != |x + [letter]|;
    assert Current(rows, 0) && Covered(rows, 0) by { assert rows[1] == second; }
    assert rows[0].quantity != 0 && rows[0].asset == longer;
    HoldingsOfAppend([first], second, longer);
    HoldingsOfAppend([], first, longer);
    assert [] + [first] == [first] && [first] + [second] == rows;
    HeldIsRightIff(rows, longer);
  }

  /** 5 of TBCDE held by one address disappear behind 7 of BCDE held by another (base58 texts, checksums aside). */
  lemma HeldLosesABalance()
    ensures var one, other := "1BoatSLRHtKNngkdXEeobR76b53LETtpy", "1BoatSLRHtKNngkdXEeobR76b53LETtpyT";
            var rows := [BalanceRow(Address(one), "TBCDE", 5, 1, 0, Null),
                         BalanceRow(Address(other), "BCDE", 7, 1, 1, Null)];
            Holdings(rows, "TBCDE") == 5 && Held(rows, "TBCDE") < 5
  {
    var one, other := "1BoatSLRHtKNngkdXEeobR76b53LETtpy", "1BoatSLRHtKNngkdXEeobR76b53LETtpyT";
    CapitalMovesOver(one, 'T', "BCDE", 5, 7);
    assert one + ['T'] == other && ['T'] + "BCDE" == "TBCDE";
  }

  // ---------------------------------------------------------------- conservation

  /** `SUM(quantity)` over the records of one asset. */
  function Total(records: seq<Record>, asset: string): int {
    if records == [] then 0
    else
      var last := records[|records| - 1];
      Total(records[..|records| - 1], asset)
      + if Cell(last, "asset") == Text(asset) && Cell(last, "quantity").Int? then Cell(last, "quantity").n else 0
  }

  predicate HasMovementTables(s: State) {
    "credits" in s.tables && "debits" in s.tables
  }

  predicate Conserved(s: State, asset: string)
    requires HasMovementTables(s)
  {
    Holdings(s.balances, asset) == Total(s.tables["credits"], asset) - Total(s.tables["debits"], asset)
  }

  /** The same with what the balance queries of `held` find. */
  predicate HeldConserved(s: State, asset: string)
    requires HasMovementTables(s)
  {
    Held(s.balances, asset) == Total(s.tables["credits"], asset) - Total(s.tables["debits"], asset)
  }

  predicate InRange(rows: seq<BalanceRow>) {
    forall i :: 0 <= i < |rows| ==> 0 <= rows[i].quantity <= MAX_INT
  }

  /** A credit the 63-bit limit cuts short. */
  predicate Clips(s: State, op: Op) {
    op.Credit? && Balance(s.balances, op.credit.holder, op.credit.asset) + op.credit.quantity > MAX_INT
  }

  /** Only `credit` and `debit` write the movement tables and their events. */
  predicate Proper(op: Op) {
    match op
    case InsertRecord(table, _, event, _) => table !in {"credits", "debits"} && event !in {"CREDIT", "DEBIT"}
    case InsertUpdate(table, _, _, _, event, _) => table !in {"credits", "debits"} && event !in {"CREDIT", "DEBIT"}
    case Seal(table, _, _, _, event, _) => table !in {"credits", "debits"} && event !in {"CREDIT", "DEBIT"}
    case _ => true
  }

  lemma {:induction false} RangeOfLatest(rows: seq<BalanceRow>, h: Holder, asset: string)
    requires InRange(rows)
    ensures 0 <= Balance(rows, h, asset) <= MAX_INT
  {
    if rows != [] { RangeOfLatest(rows[..|rows| - 1], h, asset); }
  }

  lemma TotalOfAppend(records: seq<Record>, r: Record, asset: string)
    ensures Total(records + [r], asset) == Total(records, asset)
            + if Cell(r, "asset") == Text(asset) && Cell(r, "quantity").Int? then Cell(r, "quantity").n else 0
  {
    assert (records + [r])[..|records|] == records;
  }

  /** A credit or a debit that is not clipped keeps every asset's books balanced, and so does any other call. */
  lemma StepConserves(s: State, env: Env, op: Op, asset: string)
    requires HasMovementTables(s) && Conserved(s, asset) && InRange(s.balances) && Proper(op) && !Clips(s, op)
    ensures HasMovementTables(Step(s, env, op)) && Conserved(Step(s, env, op), asset)
  {
    match op {
      case Credit(m) => CreditConserves(s, env, m, asset);
      case Debit(m) => DebitConserves(s, env, m, asset);
      case _ =>
    }
  }

  lemma CreditConserves(s: State, env: Env, m: Movement, asset: string)
    requires HasMovementTables(s) && Conserved(s, asset) && !Clips(s, Credit(m))
    ensures HasMovementTables(Step(s, env, Credit(m))) && Conserved(Step(s, env, Credit(m)), asset)
  {
    if CheckMovement(env, m).None? {
      HoldingsOfAppend(s.balances, BalanceRowFor(env, m, Balance(s.balances, m.holder, m.asset) + m.quantity), asset);
      TotalOfAppend(s.tables["credits"], MovementRecord(env, m, "calling_function"), asset);
    }
  }

  lemma DebitConserves(s: State, env: Env, m: Movement, asset: string)
    requires HasMovementTables(s) && Conserved(s, asset) && InRange(s.balances)
    ensures HasMovementTables(Step(s, env, Debit(m))) && Conserved(Step(s, env, Debit(m)), asset)
  {
    RangeOfLatest(s.balances, m.holder, m.asset);
    HoldingsOfAppend(s.balances, BalanceRowFor(env, m, Balance(s.balances, m.holder, m.asset) - m.quantity), asset);
    TotalOfAppend(s.tables["debits"], MovementRecord(env, m, "action"), asset);
  }

  lemma StepKeepsRange(s: State, env: Env, op: Op)
    requires InRange(s.balances)
    ensures InRange(Step(s, env, op).balances)
  {
    if op.Credit? {
      RangeOfLatest(s.balances, op.credit.holder, op.credit.asset);
    } else if op.Debit? {
      RangeOfLatest(s.balances, op.debit.holder, op.debit.asset);
    }
  }

  /** A successful credit keeps the asset's books balanced exactly when the limit does not cut it. */
  lemma CreditConservesIffNotClipped(s: State, env: Env, m: Movement)
    requires HasMovementTables(s) && Conserved(s, m.asset) && CheckMovement(env, m).None?
    ensures Conserved(Step(s, env, Credit(m)), m.asset) <==>
              Balance(s.balances, m.holder, m.asset) + m.quantity <= MAX_INT
  {
    var credited := Least(Balance(s.balances, m.holder, m.asset) + m.quantity, MAX_INT);
    HoldingsOfAppend(s.balances, BalanceRowFor(env, m, credited), m.asset);
    TotalOfAppend(s.tables["credits"], MovementRecord(env, m, "calling_function"), m.asset);
  }

  /** Nobody holds anything yet. */
  function Untouched(): State { State([], map["credits" := [], "debits" := []], []) }

  function Receives(address: string, quantity: int): Movement {
    Movement(Address(address), "SOMEASSET", quantity, 7, Text("issuance"), Null, Null)
  }

  lemma ReceivingIsFine(env: Env, address: string, quantity: int)
    requires 0 <= quantity <= MAX_INT && !env.contractsOnlyXcp
    ensures CheckMovement(env, Receives(address, quantity)).None?
  {
    assert |"SOMEASSET"| == 9 && |"BTC"| == 3;
  }

  /** The largest credit there is, and one unit more: both succeed, and the unit is gone. */
  lemma ClippedCreditIsLost(env: Env, address: string)
    requires !env.contractsOnlyXcp
    ensures var full := Step(Untouched(), env, Credit(Receives(address, MAX_INT)));
            var clipped := Step(full, env, Credit(Receives(address, 1)));
            && HasMovementTables(full) && Conserved(full, "SOMEASSET")
               && Apply(full, env, Credit(Receives(address, 1))).Ok?
            && HasMovementTables(clipped) && !Conserved(clipped, "SOMEASSET")
  {
    var s := Untouched();
    var most, more := Receives(address, MAX_INT), Receives(address, 1);
    var full := Step(s, env, Credit(most));
    ReceivingIsFine(env, address, MAX_INT);
    ReceivingIsFine(env, address, 1);
    assert Conserved(s, "SOMEASSET");
    CreditConservesIffNotClipped(s, env, most);
    assert full.balances == [BalanceRowFor(env, most, MAX_INT)];
    assert Balance(full.balances, most.holder, "SOMEASSET") == MAX_INT;
    CreditConservesIffNotClipped(full, env, more);
  }

  /** A quantity that fits, not of BTC, and only XCP for an address of forty characters once contracts are limited. */
  predicate Acceptable(env: Env, m: Movement) {
    && 0 <= m.quantity <= 9223372036854775807 && m.asset != "BTC"
    && (env.contractsOnlyXcp && m.holder.Address? && |m.holder.address| == 40 ==> m.asset == "XCP")
  }

  /** One row more, and nothing else, in the table of credits or of debits. */
  ghost predicate RowRecorded(rows: seq<Record>, rows': seq<Record>, env: Env, m: Movement, actionColumn: string) {
    && |rows'| == |rows| + 1 && rows'[..|rows|] == rows
    && var row := rows'[|rows|];
       && row.Keys == {"block_index", "address", "utxo", "utxo_address", "asset", "quantity", "event", "tx_index",
                       actionColumn}
       && row["block_index"] == Int(env.blockIndex) && row["tx_index"] == Int(m.txIndex)
       && row["address"] == (if m.holder.Address? then Text(m.holder.address) else Null)
       && row["utxo"] == (if m.holder.Utxo? then Text(m.holder.utxo) else Null)
       && row["utxo_address"] == m.utxoAddress && row["asset"] == Text(m.asset) && row["quantity"] == Int(m.quantity)
       && row["event"] == m.event && row[actionColumn] == m.action
  }

  /** The row is also the event of the movement. */
  ghost predicate Recorded(s: State, s': State, env: Env, m: Movement, table: string, actionColumn: string,
                           event: string) {
    && s'.tables.Keys == s.tables.Keys && table in s.tables
    && (forall t :: t in s.tables && t != table ==> s'.tables[t] == s.tables[t])
    && RowRecorded(s.tables[table], s'.tables[table], env, m, actionColumn)
    && |s'.messages| == |s.messages| + 1 && s'.messages[..|s.messages|] == s.messages
    && var c := s'.messages[|s.messages|].stamp.content;
       && c.event == event && c.category == table && c.command.Insert? && c.blockIndex == env.blockIndex
       && c.txHash == env.txHash && s'.messages[|s.messages|].timestamp == env.now
       && c.bindings == s'.tables[table][|s.tables[table]|]
  }

  lemma MovementRow(env: Env, m: Movement, rows: seq<Record>, actionColumn: string)
    requires actionColumn in {"action", "calling_function"}
    ensures RowRecorded(rows, rows + [MovementRecord(env, m, actionColumn)], env, m, actionColumn)
  {
    assert |"action"| == 6 && |"calling_function"| == 16;
    assert "action"[0] != "quantity"[0] && "calling_function"[1] != "block_index"[1];
    assert (rows + [MovementRecord(env, m, actionColumn)])[..|rows|] == rows;
  }

  /** The balance row of a movement: what is left, where and when it was made, and the address of the output. */
  function WrittenRow(after: State, env: Env, m: Movement): BalanceRow {
    BalanceRow(m.holder, m.asset, Balance(after.balances, m.holder, m.asset), env.blockIndex, m.txIndex, m.utxoAddress)
  }

  /** `credit` succeeds exactly for an acceptable movement; the balance grows up to the limit, no other changes. */
  lemma CreditOutcome(s: State, env: Env, m: Movement)
    requires HasMovementTables(s)
    ensures Apply(s, env, Credit(m)).Ok? <==> Acceptable(env, m)
    ensures var s' := Step(s, env, Credit(m));
            if Acceptable(env, m) then
              && Recorded(s, s', env, m, "credits", "calling_function", "CREDIT")
              && s'.balances == s.balances + [WrittenRow(s', env, m)]
              && Balance(s'.balances, m.holder, m.asset) ==
                 Least(Balance(s.balances, m.holder, m.asset) + m.quantity, 9223372036854775807)
              && forall h, a :: (h, a) != (m.holder, m.asset) ==>
                   Balance(s'.balances, h, a) == Balance(s.balances, h, a)
            else s' == s
  {
    if Acceptable(env, m) {
      var rows, record := s.tables["credits"], MovementRecord(env, m, "calling_function");
      MovementRow(env, m, rows, "calling_function");
      assert record + map[] == record;
      assert AddToBalance(s.balances, env, m)[..|s.balances|] == s.balances;
    }
  }

  /** The first reason, in the order of the checks, for which a movement is not acceptable. */
  predicate Refuses(env: Env, m: Movement, e: LedgerError) {
    match e
    case NegativeQuantity => m.quantity < 0
    case QuantityTooHigh => m.quantity > 9223372036854775807
    case BitcoinBalance => 0 <= m.quantity <= 9223372036854775807 && m.asset == "BTC"
    case ContractAsset =>
      && 0 <= m.quantity <= 9223372036854775807 && m.asset != "BTC" && m.asset != "XCP" && env.contractsOnlyXcp
      && m.holder.Address? && |m.holder.address| == 40
    case _ => false
  }

  lemma WhyMovementsRaise(s: State, env: Env, m: Movement, e: LedgerError)
    requires HasMovementTables(s)
    ensures Apply(s, env, Credit(m)) == Err(e) <==> Refuses(env, m, e)
    ensures Apply(s, env, Debit(m)) == Err(e) <==>
            || Refuses(env, m, e)
            || (e == InsufficientFunds && Acceptable(env, m) && Balance(s.balances, m.holder, m.asset) < m.quantity)
  {
  }

  /** `debit` succeeds exactly when the holder has enough as well; when it raises, nothing has changed. */
  lemma DebitOutcome(s: State, env: Env, m: Movement)
    requires HasMovementTables(s) && InRange(s.balances)
    ensures Apply(s, env, Debit(m)).Ok? <==>
            Acceptable(env, m) && m.quantity <= Balance(s.balances, m.holder, m.asset)
    ensures Apply(s, env, Debit(m)).Ok? ==> Recorded(s, Step(s, env, Debit(m)), env, m, "debits", "action", "DEBIT")
    ensures Apply(s, env, Debit(m)).Err? ==> Step(s, env, Debit(m)) == s
    ensures Apply(s, env, Debit(m)).Ok? ==>
              Balance(Step(s, env, Debit(m)).balances, m.holder, m.asset) ==
              Balance(s.balances, m.holder, m.asset) - m.quantity
    ensures var s' := Step(s, env, Debit(m));
            Apply(s, env, Debit(m)).Ok? && FindBalance(s.balances, m.holder, m.asset).Some? ==>
              s'.balances == s.balances + [WrittenRow(s', env, m)]
    ensures FindBalance(s.balances, m.holder, m.asset).None? ==> Step(s, env, Debit(m)).balances == s.balances
    ensures forall h, a :: (h, a) != (m.holder, m.asset) ==>
              Balance(Step(s, env, Debit(m)).balances, h, a) == Balance(s.balances, h, a)
  {
    RangeOfLatest(s.balances, m.holder, m.asset);
    MovementRow(env, m, s.tables["debits"], "action");
    assert MovementRecord(env, m, "action") + map[] == MovementRecord(env, m, "action");
    var rows := Step(s, env, Debit(m)).balances;
    if rows != s.balances {
      assert rows[..|s.balances|] == s.balances;
    }
  }

  predicate ProperRun(s: State, calls: seq<Call>) {
    forall k :: 0 <= k < |calls| ==> Proper(calls[k].op) && !Clips(RunCalls(s, calls[..k]), calls[k].op)
  }

  /**
   * Conservation over every run: each row stays within [0, MAX_INT] and, for every asset, what all
   * holders have adds up to everything credited minus everything debited.
   */
  lemma {:induction false} RunConserves(s: State, calls: seq<Call>, asset: string)
    requires HasMovementTables(s) && Conserved(s, asset) && InRange(s.balances) && ProperRun(s, calls)
    ensures HasMovementTables(RunCalls(s, calls)) && Conserved(RunCalls(s, calls), asset)
    ensures InRange(RunCalls(s, calls).balances)
  {
    if calls != [] {
      var rest, last := calls[..|calls| - 1], calls[|calls| - 1];
      forall k | 0 <= k < |rest|
        ensures Proper(rest[k].op) && !Clips(RunCalls(s, rest[..k]), rest[k].op)
      {
        assert rest[..k] == calls[..k];
      }
      var before := RunCalls(s, rest);
      RunConserves(s, rest, asset);
      StepConserves(before, last.env, last.op, asset);
      StepKeepsRange(before, last.env, last.op);
    }
  }

  /** The same through any number of reorganisations. */
  lemma ReorgsConserve(s: State, history: seq<Happening>, asset: string)
    requires Orderly(s, history) && KeepsStart(s, history)
    requires HasMovementTables(s) && Conserved(s, asset) && InRange(s.balances)
    requires ProperRun(s, Survivors(history))
    ensures HasMovementTables(Replay(s, history)) && Conserved(Replay(s, history), asset)
    ensures InRange(Replay(s, history).balances)
  {
    ReorgsLeaveNoTrace(s, history);
    RunConserves(s, Survivors(history), asset);
  }

  /** After all of it, `held` finds the asset conserved exactly when no balance is hidden in its group. */
  lemma HeldConservesIff(s: State, history: seq<Happening>, asset: string)
    requires Orderly(s, history) && KeepsStart(s, history)
    requires HasMovementTables(s) && Conserved(s, asset) && InRange(s.balances)
    requires ProperRun(s, Survivors(history))
    ensures HasMovementTables(Replay(s, history))
    ensures HeldConserved(Replay(s, history), asset) <==> NothingLost(Replay(s, history).balances, asset)
  {
    ReorgsConserve(s, history, asset);
    HeldIsRightIff(Replay(s, history).balances, asset);
  }
}
