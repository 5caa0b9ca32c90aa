/** One process: the database, its three in-memory caches, and mempool parsing that must leave no trace. */
module Node {
  import opened Records
  import opened Journal
  import opened Ledger
  import OC = OrdersCache
  import OR = OrdersRuns
  import AC = AssetCache

  datatype Caches = Caches(utxos: Option<set<string>>, assets: Option<AC.Assets>, orders: Option<OC.Cache>)

  /**
   * What a handler may call; the three reads create a cache that does not exist yet. An order is updated by its hash,
   * or by the rowid of its latest version when it has been filled. `NoteUtxo` is what reading a transaction's outputs
   * does to the UTXO cache for the destination of a move.
   */
  datatype Call =
    | Plain(op: Op)
    | InsertOrder(order: Record)
    | UpdateOrder(txHash: Value, idName: string, idValue: Value, data: Record, event: string, info: Record)
    | NoteUtxo(utxo: UtxoId)
    | ReadUtxos
    | ReadAssets
    | ReadOrders

  datatype Step = Step(env: Env, call: Call)

  /** A transaction of the database: when it aborts its rows go, what it did to caches stays. */
  datatype Transaction = Transaction(steps: seq<Step>, aborts: bool)

  datatype Process = Process(db: State, caches: Caches)

  function TableOf(s: State, table: string): seq<Record> {
    if table in s.tables then s.tables[table] else []
  }

  // ---------------------------------------------------------------- the database side of a call

  function DbResult(s: State, step: Step): Result<State, LedgerError> {
    match step.call
    case Plain(op) => Apply(s, step.env, op)
    case InsertOrder(order) => DoInsertRecord(s, step.env, "orders", order, "OPEN_ORDER", map[])
    case UpdateOrder(_, idName, idValue, data, event, info) =>
      DoInsertUpdate(s, step.env, "orders", idName, idValue, data, event, info)
    case _ => Ok(s)
  }

  function DbAfter(s: State, step: Step): State {
    match DbResult(s, step)
    case Ok(s') => s'
    case Err(_) => s
  }

  // ---------------------------------------------------------------- the caches' side of a call

  /** `SELECT utxo ... WHERE utxo IS NOT NULL GROUP BY utxo, asset`. */
  function UtxosIn(rows: seq<BalanceRow>): set<string> {
    set i | 0 <= i < |rows| && rows[i].holder.Utxo? :: rows[i].holder.utxo
  }

  function UtxosOf(c: Caches, s: State): set<string> {
    match c.utxos
    case Some(known) => known
    case None => UtxosIn(s.balances)
  }

  /** The query may return its groups in any order; here the newest asset comes first. */
  function BuildAssets(t: AC.Tables): AC.Assets { AC.Rebuilt(AC.Group(t.issuances, {}), t) }

  function AssetsOf(c: Caches, s: State): AC.Assets {
    match c.assets
    case Some(known) => known
    case None => BuildAssets(AC.Tables(TableOf(s, "issuances"), TableOf(s, "destructions")))
  }

  function OrdersOf(c: Caches, s: State, block: int): OC.Cache {
    match c.orders
    case Some(known) => known
    case None => OR.Build(TableOf(s, "orders"), block)
  }

  /** A credit to a UTXO is noted before its row is written, but never for the mempool. */
  predicate NotesUtxo(env: Env, op: Op, parsing: bool) {
    op.Credit? && op.credit.holder.Utxo? && CheckMovement(env, op.credit).None?
      && env.blockIndex != OC.MEMPOOL_BLOCK_INDEX && !parsing
  }

  function CachesAfterPlain(s: State, c: Caches, env: Env, op: Op, parsing: bool): Caches {
    var after := Ledger.Step(s, env, op);
    if NotesUtxo(env, op, parsing) then c.(utxos := Some(UtxosOf(c, s) + {op.credit.holder.utxo}))
    else if parsing || !op.InsertRecord? || Apply(s, env, op).Err? then c
    else if op.table == "issuances" then
      c.(assets := Some(if c.assets.Some? then AC.AddIssuance(c.assets.value, op.record) else AssetsOf(c, after)))
    else if op.table == "destructions" then
      c.(assets := Some(if c.assets.Some? then AC.AddDestroyed(c.assets.value, op.record) else AssetsOf(c, after)))
    else c
  }

  /** The caches after a call that `util.PARSING_MEMPOOL` allows or forbids to write to them. */
  function CachesAfter(s: State, c: Caches, step: Step, parsing: bool): Caches {
    var after, block := DbAfter(s, step), step.env.blockIndex;
    match step.call
    case Plain(op) => CachesAfterPlain(s, c, step.env, op, parsing)
    case InsertOrder(order) =>
      if parsing || DbResult(s, step).Err? then c
      else c.(orders := Some(OR.CacheInsert(OrdersOf(c, after, block), order, block)))
    case UpdateOrder(h, _, _, data, _, _) =>
      if parsing || DbResult(s, step).Err? then c
      else c.(orders := Some(OR.CacheUpdate(OrdersOf(c, after, block), h, data, block)))
    case NoteUtxo(utxo) => if parsing then c else c.(utxos := Some(UtxosOf(c, s) + {utxo}))
    case ReadUtxos => c.(utxos := Some(UtxosOf(c, s)))
    case ReadAssets => c.(assets := Some(AssetsOf(c, s)))
    case ReadOrders => c.(orders := Some(OrdersOf(c, s, block)))
  }

  // ---------------------------------------------------------------- running

  function RunStep(p: Process, step: Step, parsing: bool): Process {
    Process(DbAfter(p.db, step), CachesAfter(p.db, p.caches, step, parsing))
  }

  function RunSteps(p: Process, steps: seq<Step>, parsing: bool): Process {
    if steps == [] then p else RunStep(RunSteps(p, steps[..|steps| - 1], parsing), steps[|steps| - 1], parsing)
  }

  lemma OneStepMore(p: Process, steps: seq<Step>, i: nat, parsing: bool)
    requires i < |steps|
    ensures RunSteps(p, steps[..i + 1], parsing) == RunStep(RunSteps(p, steps[..i], parsing), steps[i], parsing)
  {
    assert steps[..i + 1][..i] == steps[..i];
  }

  function RunTransaction(p: Process, t: Transaction, parsing: bool): Process {
    var after := RunSteps(p, t.steps, parsing);
    if t.aborts then after.(db := p.db) else after
  }

  function RunTransactions(p: Process, ts: seq<Transaction>, parsing: bool): Process {
    if ts == [] then p else RunTransaction(RunTransactions(p, ts[..|ts| - 1], parsing), ts[|ts| - 1], parsing)
  }

  /** `parse_mempool_transactions`: everything runs, then the enclosing transaction is made to abort. */
  function ParseMempool(p: Process, ts: seq<Transaction>): Process {
    Process(p.db, RunTransactions(p, ts, true).caches)
  }

  /** The messages above the last index there was; without one `message_index > NULL` finds nothing. */
  function MessagesAbove(before: seq<Message>, after: seq<Message>): seq<Message> {
    if before == [] || |before| > |after| then [] else after[|before|..]
  }

  /** The events such a parse leaves in the `mempool` table. */
  function MempoolEvents(p: Process, ts: seq<Transaction>): seq<Message> {
    MessagesAbove(p.db.messages, RunTransactions(p, ts, true).db.messages)
  }

  // ---------------------------------------------------------------- mempool parses are invisible

  predicate AllBuilt(c: Caches) {
    c.utxos.Some? && c.assets.Some? && c.orders.Some?
  }

  /** A call that would create a cache. */
  predicate Creates(c: Caches, call: Call) {
    (call.ReadUtxos? && c.utxos.None?) || (call.ReadAssets? && c.assets.None?) || (call.ReadOrders? && c.orders.None?)
  }

  /** While parsing the mempool a call leaves every cache alone exactly when it does not create one. */
  lemma MempoolStepKeepsCachesIff(p: Process, step: Step)
    ensures RunStep(p, step, true).caches == p.caches <==> !Creates(p.caches, step.call)
  {
  }

  /** Some call of a transaction creates a cache that was missing before it. */
  predicate ReadsMissing(c: Caches, ts: seq<Transaction>) {
    exists i, j :: 0 <= i < |ts| && 0 <= j < |ts[i].steps| && Creates(c, ts[i].steps[j].call)
  }

  predicate StepsReadMissing(c: Caches, steps: seq<Step>) {
    exists j :: 0 <= j < |steps| && Creates(c, steps[j].call)
  }

  /** Nothing a mempool parse does turns a built cache into another one. */
  predicate Grows(before: Caches, after: Caches) {
    && (before.utxos.Some? ==> after.utxos == before.utxos)
    && (before.assets.Some? ==> after.assets == before.assets)
    && (before.orders.Some? ==> after.orders == before.orders)
  }

  lemma {:induction false} MempoolSteps(p: Process, steps: seq<Step>, c: Caches)
    requires Grows(c, p.caches)
    ensures var after := RunSteps(p, steps, true).caches;
            && Grows(c, after) && Grows(p.caches, after)
            && (after == c <==> p.caches == c && !StepsReadMissing(c, steps))
  {
    if steps != [] {
      var rest, last := steps[..|steps| - 1], steps[|steps| - 1];
      MempoolSteps(p, rest, c);
      var mid := RunSteps(p, rest, true);
      MempoolStepKeepsCachesIff(mid, last);
      assert StepsReadMissing(c, steps) <==> StepsReadMissing(c, rest) || Creates(c, last.call) by {
        assert forall j :: 0 <= j < |rest| ==> rest[j] == steps[j];
        if Creates(c, last.call) { assert steps[|rest|] == last; }
        if StepsReadMissing(c, rest) {
          var j :| 0 <= j < |rest| && Creates(c, rest[j].call);
          assert steps[j] == rest[j];
        }
      }
    }
  }

  lemma {:induction false} MempoolTransactions(p: Process, ts: seq<Transaction>)
    ensures var after := RunTransactions(p, ts, true).caches;
            Grows(p.caches, after) && (after == p.caches <==> !ReadsMissing(p.caches, ts))
  {
    if ts != [] {
      var rest, last := ts[..|ts| - 1], ts[|ts| - 1];
      MempoolTransactions(p, rest);
      MempoolSteps(RunTransactions(p, rest, true), last.steps, p.caches);
      assert ReadsMissing(p.caches, ts) <==> ReadsMissing(p.caches, rest) || StepsReadMissing(p.caches, last.steps) by {
        assert forall i :: 0 <= i < |rest| ==> rest[i] == ts[i];
        if StepsReadMissing(p.caches, last.steps) {
          var j :| 0 <= j < |last.steps| && Creates(p.caches, last.steps[j].call);
          assert ts[|rest|] == last;
        }
        if ReadsMissing(p.caches, rest) {
          var i, j :| 0 <= i < |rest| && 0 <= j < |rest[i].steps| && Creates(p.caches, rest[i].steps[j].call);
          assert ts[i] == rest[i];
        }
      }
    }
  }

  /** A mempool parse changes nothing exactly when it reads no cache that is still missing. */
  lemma MempoolParseIsInvisibleIff(p: Process, ts: seq<Transaction>)
    ensures ParseMempool(p, ts) == p <==> !ReadsMissing(p.caches, ts)
  {
    MempoolTransactions(p, ts);
  }

  // ---------------------------------------------------------------- a cache created while parsing the mempool

  /** An issuance of PIGMENT in a block, or in the block that stands for the mempool. */
  function Issuance(block: int, quantity: int): Step {
    var record := map["asset" := Text("PIGMENT"), "asset_longname" := Null, "quantity" := Int(quantity),
                      "status" := Text("valid"), "block_index" := Int(block)];
    Step(Env(block, None, 0, false), Plain(InsertRecord("issuances", record, "ASSET_ISSUANCE", map[])))
  }

  /**
   * The mempool holds that issuance and something that asks for a supply, such as a fairmint. Listing the transactions
   * has looked for inputs with a balance before any of them is parsed.
   */
  function IssuedUnconfirmed(quantity: int): Transaction {
    var env := Env(OC.MEMPOOL_BLOCK_INDEX, None, 0, false);
    Transaction([Step(env, ReadUtxos), Issuance(OC.MEMPOOL_BLOCK_INDEX, quantity), Step(env, ReadAssets)], false)
  }

  lemma ThreeSteps(p: Process, steps: seq<Step>, parsing: bool)
    requires |steps| == 3
    ensures RunSteps(p, steps, parsing) ==
            RunStep(RunStep(RunStep(p, steps[0], parsing), steps[1], parsing), steps[2], parsing)
  {
    assert steps[..0] == [] && steps[..3] == steps;
    OneStepMore(p, steps, 0, parsing);
    OneStepMore(p, steps, 1, parsing);
    OneStepMore(p, steps, 2, parsing);
  }

  lemma TotalOfOneRow(r: Record)
    requires AC.Valid(r)
    ensures AC.Totals([r]) == map[AC.Asset(r) := if AC.Quantity(r).Int? then AC.Quantity(r) else Null]
  {
    AC.AssetsOfAppend([], r);
    AC.SumOfAppend([], r, AC.Asset(r));
    assert [] + [r] == [r];
  }

  /** A process whose database and caches are new, as far as issuances go. */
  function Restarted(): Process {
    Process(State([], map["issuances" := [], "destructions" := []], []), Caches(None, None, None))
  }

  lemma OneTransaction(p: Process, t: Transaction, parsing: bool)
    ensures RunTransactions(p, [t], parsing) == RunTransaction(p, t, parsing)
  {
    assert [t][..0] == [] && RunTransactions(p, [], parsing) == p;
  }

  lemma IssuanceIsInTheTable(quantity: int)
    ensures var t := IssuedUnconfirmed(quantity);
            var mid := RunStep(RunStep(Restarted(), t.steps[0], true), t.steps[1], true);
            && mid.caches.assets.None? && TableOf(mid.db, "issuances") == [t.steps[1].call.op.record]
  {
  }

  lemma UnconfirmedIsParsed(quantity: int)
    ensures var after := ParseMempool(Restarted(), [IssuedUnconfirmed(quantity)]);
            && after.db == Restarted().db && after.caches.assets.Some?
            && after.caches.assets.value.issued == map[Text("PIGMENT") := Int(quantity)]
  {
    var p, t := Restarted(), IssuedUnconfirmed(quantity);
    OneTransaction(p, t, true);
    ThreeSteps(p, t.steps, true);
    IssuanceIsInTheTable(quantity);
    TotalOfOneRow(Issuance(OC.MEMPOOL_BLOCK_INDEX, quantity).call.op.record);
  }

  /**
   * Without an asset cache, the read creates one from rows that the abort takes away: it goes on counting what was
   * only in the mempool, and counts it once more when a block confirms it.
   */
  lemma UnconfirmedIssuanceStaysCounted(block: nat, quantity: int)
    ensures var after := ParseMempool(Restarted(), [IssuedUnconfirmed(quantity)]);
            var confirmed := RunStep(after, Issuance(block, quantity), false);
            && after.db == Restarted().db && after.caches.assets.Some? && confirmed.caches.assets.Some?
            && after.caches.assets.value.issued == map[Text("PIGMENT") := Int(quantity)]
            && confirmed.caches.assets.value.issued == map[Text("PIGMENT") := Int(2 * quantity)]
            && AC.Totals(TableOf(confirmed.db, "issuances")) == map[Text("PIGMENT") := Int(quantity)]
  {
    UnconfirmedIsParsed(quantity);
    var after := ParseMempool(Restarted(), [IssuedUnconfirmed(quantity)]);
    var record := Issuance(block, quantity).call.op.record;
    TotalOfOneRow(record);
    assert TableOf(RunStep(after, Issuance(block, quantity), false).db, "issuances") == [record];
  }

  // ---------------------------------------------------------------- mempool parses between blocks

  /** Handlers are functions of the database and the caches; a mempool parse also sees the mempool table. */
  datatype Stage =
    | Block(handlers: Process -> seq<Transaction>)
    | Mempool(transactions: (Process, seq<Message>) -> seq<Transaction>)

  datatype Machine = Machine(process: Process, mempool: seq<Message>)

  function RunStage(m: Machine, stage: Stage): Machine {
    match stage
    case Block(handlers) => m.(process := RunTransactions(m.process, handlers(m.process), false))
    case Mempool(transactions) =>
      var ts := transactions(m.process, m.mempool);
      Machine(ParseMempool(m.process, ts), m.mempool + MempoolEvents(m.process, ts))
  }

  function RunStages(m: Machine, stages: seq<Stage>): Machine {
    if stages == [] then m else RunStage(RunStages(m, stages[..|stages| - 1]), stages[|stages| - 1])
  }

  function BlocksOnly(stages: seq<Stage>): seq<Stage> {
    if stages == [] then []
    else
      var rest, last := BlocksOnly(stages[..|stages| - 1]), stages[|stages| - 1];
      if last.Block? then rest + [last] else rest
  }

  lemma {:induction false} StepsKeepBuilt(p: Process, steps: seq<Step>, parsing: bool)
    requires AllBuilt(p.caches)
    ensures AllBuilt(RunSteps(p, steps, parsing).caches)
  {
    if steps != [] { StepsKeepBuilt(p, steps[..|steps| - 1], parsing); }
  }

  lemma {:induction false} TransactionsKeepBuilt(p: Process, ts: seq<Transaction>, parsing: bool)
    requires AllBuilt(p.caches)
    ensures AllBuilt(RunTransactions(p, ts, parsing).caches)
  {
    if ts != [] {
      TransactionsKeepBuilt(p, ts[..|ts| - 1], parsing);
      StepsKeepBuilt(RunTransactions(p, ts[..|ts| - 1], parsing), ts[|ts| - 1].steps, parsing);
    }
  }

  /**
   * With the caches built, any number of mempool parses put anywhere into a run of blocks leaves every ledger
   * table and all three caches as the blocks alone would.
   */
  lemma {:induction false} MempoolParsesAreInvisible(m: Machine, stages: seq<Stage>)
    requires AllBuilt(m.process.caches)
    ensures AllBuilt(RunStages(m, stages).process.caches)
    ensures RunStages(m, stages).process == RunStages(m, BlocksOnly(stages)).process
  {
    if stages != [] {
      var rest, last := stages[..|stages| - 1], stages[|stages| - 1];
      MempoolParsesAreInvisible(m, rest);
      var mid := RunStages(m, rest);
      match last {
        case Block(handlers) =>
          TransactionsKeepBuilt(mid.process, handlers(mid.process), false);
          assert BlocksOnly(stages)[..|BlocksOnly(rest)|] == BlocksOnly(rest);
        case Mempool(transactions) =>
          MempoolParseIsInvisibleIff(mid.process, transactions(mid.process, mid.mempool));
      }
    }
  }

  // ---------------------------------------------------------------- the UTXO cache never misses

  /** Every UTXO with a balance row is in the cache, if there is one. */
  predicate Covers(p: Process) {
    p.caches.utxos.Some? ==> UtxosIn(p.db.balances) <= p.caches.utxos.value
  }

  lemma UtxosOfAppend(rows: seq<BalanceRow>, row: BalanceRow)
    ensures UtxosIn(rows + [row]) == UtxosIn(rows) + if row.holder.Utxo? then {row.holder.utxo} else {}
  {
    var longer := rows + [row];
    assert longer[|rows|] == row && forall i :: 0 <= i < |rows| ==> longer[i] == rows[i];
    forall u
      ensures u in UtxosIn(longer) <==> u in UtxosIn(rows) || (row.holder.Utxo? && u == row.holder.utxo)
    {
      if u in UtxosIn(rows) {
        var i :| 0 <= i < |rows| && rows[i].holder.Utxo? && rows[i].holder.utxo == u;
        assert longer[i] == rows[i];
      }
    }
  }

  lemma {:induction false} BalanceMeansRow(rows: seq<BalanceRow>, h: Holder, asset: string)
    requires FindBalance(rows, h, asset).Some?
    ensures h.Utxo? ==> h.utxo in UtxosIn(rows)
  {
    var rest, last := rows[..|rows| - 1], rows[|rows| - 1];
    UtxosOfAppend(rest, last);
    assert rows == rest + [last];
    if !(last.holder == h && last.asset == asset) {
      BalanceMeansRow(rest, h, asset);
    }
  }

  /** The database gains at most one balance row, and for a debit its holder already had one. */
  lemma StepUtxos(s: State, step: Step)
    ensures UtxosIn(s.balances) <= UtxosIn(DbAfter(s, step).balances)
    ensures UtxosIn(DbAfter(s, step).balances) <= UtxosIn(s.balances) +
              if step.call.Plain? && step.call.op.Credit? && step.call.op.credit.holder.Utxo?
                 && CheckMovement(step.env, step.call.op.credit).None?
              then {step.call.op.credit.holder.utxo} else {}
  {
    var after := DbAfter(s, step);
    if after.balances != s.balances {
      var row := after.balances[|s.balances|];
      assert after.balances == s.balances + [row];
      UtxosOfAppend(s.balances, row);
      if step.call.op.Debit? {
        BalanceMeansRow(s.balances, row.holder, row.asset);
      }
    }
  }

  predicate OutsideMempool(steps: seq<Step>) {
    forall i :: 0 <= i < |steps| ==> steps[i].env.blockIndex != OC.MEMPOOL_BLOCK_INDEX
  }

  /** Every UTXO known at the start of a transaction stays known, and in a block every new one gets known. */
  lemma {:induction false} StepsCover(p: Process, steps: seq<Step>, parsing: bool, base: set<string>)
    requires base <= UtxosIn(p.db.balances) && (p.caches.utxos.Some? ==> base <= p.caches.utxos.value)
    ensures var after := RunSteps(p, steps, parsing);
            && base <= UtxosIn(after.db.balances) && (after.caches.utxos.Some? ==> base <= after.caches.utxos.value)
            && (!parsing && OutsideMempool(steps) && Covers(p) ==> Covers(after))
  {
    if steps != [] {
      var rest, last := steps[..|steps| - 1], steps[|steps| - 1];
      StepsCover(p, rest, parsing, base);
      assert OutsideMempool(steps) ==> OutsideMempool(rest) && last.env.blockIndex != OC.MEMPOOL_BLOCK_INDEX by {
        assert forall i :: 0 <= i < |rest| ==> rest[i] == steps[i];
      }
      StepUtxos(RunSteps(p, rest, parsing).db, last);
    }
  }

  lemma TransactionCovers(p: Process, t: Transaction, parsing: bool)
    requires Covers(p) && (parsing ==> t.aborts) && (!parsing ==> OutsideMempool(t.steps))
    ensures Covers(RunTransaction(p, t, parsing))
  {
    StepsCover(p, t.steps, parsing, UtxosIn(p.db.balances));
  }

  lemma {:induction false} TransactionsCoverBase(p: Process, ts: seq<Transaction>, parsing: bool, base: set<string>)
    requires base <= UtxosIn(p.db.balances) && (p.caches.utxos.Some? ==> base <= p.caches.utxos.value)
    ensures var after := RunTransactions(p, ts, parsing);
            base <= UtxosIn(after.db.balances) && (after.caches.utxos.Some? ==> base <= after.caches.utxos.value)
  {
    if ts != [] {
      TransactionsCoverBase(p, ts[..|ts| - 1], parsing, base);
      StepsCover(RunTransactions(p, ts[..|ts| - 1], parsing), ts[|ts| - 1].steps, parsing, base);
    }
  }

  lemma {:induction false} BlockCovers(p: Process, ts: seq<Transaction>)
    requires Covers(p) && forall i :: 0 <= i < |ts| ==> OutsideMempool(ts[i].steps)
    ensures Covers(RunTransactions(p, ts, false))
  {
    if ts != [] {
      BlockCovers(p, ts[..|ts| - 1]);
      TransactionCovers(RunTransactions(p, ts[..|ts| - 1], false), ts[|ts| - 1], false);
    }
  }

  /** What can happen to a process between two committed states. */
  datatype Deed =
    | Parse(block: seq<Transaction>)
    | ParseAborted(block: seq<Transaction>)
    | ParseUnconfirmed(transactions: seq<Transaction>)
    | RollBack(n: int)

  function DoDeed(p: Process, d: Deed): Process {
    match d
    case Parse(ts) => RunTransactions(p, ts, false)
    case ParseAborted(ts) => RunTransactions(p, ts, false).(db := p.db)
    case ParseUnconfirmed(ts) => ParseMempool(p, ts)
    case RollBack(n) => p.(db := Rollback(p.db, n))
  }

  function DoDeeds(p: Process, deeds: seq<Deed>): Process {
    if deeds == [] then p else DoDeed(DoDeeds(p, deeds[..|deeds| - 1]), deeds[|deeds| - 1])
  }

  predicate Confirmed(d: Deed) {
    match d
    case Parse(ts) => forall i :: 0 <= i < |ts| ==> OutsideMempool(ts[i].steps)
    case _ => true
  }

  lemma {:induction false} RollbackUtxos(rows: seq<BalanceRow>, n: int)
    ensures UtxosIn(BalancesBelow(rows, n)) <= UtxosIn(rows)
  {
    if rows != [] {
      var rest, last := rows[..|rows| - 1], rows[|rows| - 1];
      RollbackUtxos(rest, n);
      UtxosOfAppend(rest, last);
      UtxosOfAppend(BalancesBelow(rest, n), last);
      assert rows == rest + [last];
    }
  }

  lemma DeedCovers(p: Process, d: Deed)
    requires Covers(p) && Confirmed(d)
    ensures Covers(DoDeed(p, d))
  {
    match d {
      case Parse(ts) => BlockCovers(p, ts);
      case ParseAborted(ts) => TransactionsCoverBase(p, ts, false, UtxosIn(p.db.balances));
      case ParseUnconfirmed(ts) => TransactionsCoverBase(p, ts, true, UtxosIn(p.db.balances));
      case RollBack(n) => RollbackUtxos(p.db.balances, n);
    }
  }

  /**
   * Through blocks, aborted transactions, aborted blocks, mempool parses and reorganisations, whenever the cache
   * was created, every UTXO with a balance row in a committed state is in it.
   */
  lemma {:induction false} UtxoCacheNeverMisses(p: Process, deeds: seq<Deed>)
    requires Covers(p) && forall i :: 0 <= i < |deeds| ==> Confirmed(deeds[i])
    ensures Covers(DoDeeds(p, deeds))
  {
    if deeds != [] {
      UtxoCacheNeverMisses(p, deeds[..|deeds| - 1]);
      DeedCovers(DoDeeds(p, deeds[..|deeds| - 1]), deeds[|deeds| - 1]);
    }
  }

  // ---------------------------------------------------------------- the process object

  class NodeProcess {
    var db: State
    var utxos: Option<set<string>>
    var assets: Option<AC.Assets>
    var orders: Option<OC.Cache>
    var mempool: seq<Message>
    var parsingMempool: bool

    function Now(): Process
      reads this
    {
      Process(db, Caches(utxos, assets, orders))
    }

    constructor (db: State)
      ensures Now() == Process(db, Caches(None, None, None)) && mempool == [] && !parsingMempool
      ensures Covers(Now())
    {
      this.db, utxos, assets, orders, mempool, parsingMempool := db, None, None, None, [], false;
    }

    method Run(step: Step)
      modifies this`db, this`utxos, this`assets, this`orders
      ensures Now() == RunStep(old(Now()), step, parsingMempool)
    {
      var caches := CachesAfter(db, Caches(utxos, assets, orders), step, parsingMempool);
      db := DbAfter(db, step);
      utxos, assets, orders := caches.utxos, caches.assets, caches.orders;
    }

    /** `with db`: an exception inside restores the database and nothing else. */
    method RunInTransaction(t: Transaction)
      modifies this`db, this`utxos, this`assets, this`orders
      ensures Now() == RunTransaction(old(Now()), t, parsingMempool)
    {
      var savepoint := db;
      var i := 0;
      while i < |t.steps|
        invariant 0 <= i <= |t.steps|
        invariant Now() == RunSteps(old(Now()), t.steps[..i], parsingMempool)
      {
        OneStepMore(old(Now()), t.steps, i, parsingMempool);
        Run(t.steps[i]);
        i := i + 1;
      }
      assert t.steps[..|t.steps|] == t.steps;
      if t.aborts { db := savepoint; }
    }

    /**
     * Runs everything with the flag up, keeps the new events aside, aborts, then stores the events. The database is as
     * before; so are the caches exactly when no read created one.
     */
    method ParseMempoolTransactions(ts: seq<Transaction>)
      requires !parsingMempool
      modifies this
      ensures db == old(db) && !parsingMempool && Now() == ParseMempool(old(Now()), ts)
      ensures Now() == old(Now()) <==> !ReadsMissing(old(Now()).caches, ts)
      ensures mempool == old(mempool) + MempoolEvents(old(Now()), ts)
    {
      parsingMempool := true;
      var savepoint := db;
      var i := 0;
      while i < |ts|
        invariant 0 <= i <= |ts| && parsingMempool && mempool == old(mempool)
        invariant Now() == RunTransactions(old(Now()), ts[..i], true)
      {
        assert ts[..i + 1][..i] == ts[..i];
        RunInTransaction(ts[i]);
        i := i + 1;
      }
      assert ts[..|ts|] == ts;
      var events := MessagesAbove(savepoint.messages, db.messages);
      db := savepoint;
      mempool := mempool + events;
      parsingMempool := false;
      MempoolParseIsInvisibleIff(old(Now()), ts);
    }

    method UtxoHasBalance(utxo: string) returns (known: bool)
      requires Covers(Now())
      modifies this`utxos
      ensures Covers(Now()) && utxos == Some(UtxosOf(old(Now()).caches, db))
      ensures known <==> utxo in UtxosOf(old(Now()).caches, db)
      ensures utxo in UtxosIn(db.balances) ==> known
    {
      if utxos.None? { utxos := Some(UtxosIn(db.balances)); }
      known := utxo in utxos.value;
    }

    /**
     * The inputs the cache knows, in order and each as often as it is an input: none that holds assets is missed, and a
     * cache that this call creates knows only outputs with a balance row.
     */
    method GetInputsWithBalance(vin: seq<UtxoId>) returns (sources: seq<string>)
      requires Covers(Now())
      modifies this`utxos
      ensures Covers(Now()) && sources == KnownInputs(vin, UtxosOf(old(Now()).caches, db))
      ensures forall u, asset :: u in vin && Balance(db.balances, Utxo(u), asset) != 0 ==> u in sources
      ensures exists at :: Selects(at, vin, UtxosOf(old(Now()).caches, db), sources)
      ensures forall u :: u in sources <==>
                u in vin && if old(utxos).Some? then u in old(utxos).value else HasRow(db.balances, u)
      ensures utxos == if vin == [] then old(utxos) else Some(UtxosOf(old(Now()).caches, db))
    {
      sources := [];
      ghost var known := UtxosOf(Now().caches, db);
      var i := 0;
      while i < |vin|
        invariant 0 <= i <= |vin| && Covers(Now()) && UtxosOf(Now().caches, db) == known
        invariant sources == KnownInputs(vin[..i], known)
        invariant utxos == if i == 0 then old(utxos) else Some(known)
      {
        assert vin[..i + 1][..i] == vin[..i];
        var hasBalance := UtxoHasBalance(vin[i]);
        if hasBalance { sources := sources + [vin[i]]; }
        i := i + 1;
      }
      assert vin[..|vin|] == vin;
      forall u, asset | u in vin && Balance(db.balances, Utxo(u), asset) != 0
        ensures u in sources
      {
        BalanceMeansRow(db.balances, Utxo(u), asset);
        KnownInputsKeep(vin, known, u);
      }
      var at := KnownInputsSelect(vin, known);
      SelectedMembers(at, vin, known, sources);
    }
  }

  function KnownInputs(vin: seq<UtxoId>, known: set<string>): seq<string> {
    if vin == [] then []
    else
      var rest, last := KnownInputs(vin[..|vin| - 1], known), vin[|vin| - 1];
      if last in known then rest + [last] else rest
  }

  /** The selected positions, going up: all those whose input is known. */
  ghost predicate Selects(at: seq<nat>, vin: seq<UtxoId>, known: set<string>, sources: seq<string>) {
    && |at| == |sources| && (forall i, j :: 0 <= i < j < |at| ==> at[i] < at[j])
    && (forall i :: 0 <= i < |at| ==> at[i] < |vin| && sources[i] == vin[at[i]])
    && (forall p :: 0 <= p < |vin| ==> (p in at <==> vin[p] in known))
  }

  lemma SelectedMembers(at: seq<nat>, vin: seq<UtxoId>, known: set<string>, sources: seq<string>)
    requires Selects(at, vin, known, sources)
    ensures forall u :: u in sources <==> u in vin && u in known
  {
    forall u
      ensures u in sources <==> u in vin && u in known
    {
      if u in sources {
        var i :| 0 <= i < |sources| && sources[i] == u;
        assert at[i] in at;
      }
      if u in vin && u in known {
        var p :| 0 <= p < |vin| && vin[p] == u;
        var i :| 0 <= i < |at| && at[i] == p;
      }
    }
  }

  predicate HasRow(rows: seq<BalanceRow>, u: string) {
    exists i :: 0 <= i < |rows| && rows[i].holder.Utxo? && rows[i].holder.utxo == u
  }

  lemma OneInputMore(at: seq<nat>, vin: seq<UtxoId>, u: UtxoId, known: set<string>, sources: seq<string>)
    requires Selects(at, vin, known, sources)
    ensures if u in known then Selects(at + [|vin|], vin + [u], known, sources + [u])
            else Selects(at, vin + [u], known, sources)
  {
    assert forall i :: 0 <= i < |at| ==> at[i] in at;
    assert forall p :: p in at + [|vin|] <==> p in at || p == |vin|;
  }

  lemma {:induction false} KnownInputsSelect(vin: seq<UtxoId>, known: set<string>) returns (at: seq<nat>)
    ensures Selects(at, vin, known, KnownInputs(vin, known))
  {
    at := [];
    if vin != [] {
      var n := |vin| - 1;
      at := KnownInputsSelect(vin[..n], known);
      assert vin == vin[..n] + [vin[n]];
      OneInputMore(at, vin[..n], vin[n], known, KnownInputs(vin[..n], known));
      if vin[n] in known { at := at + [n]; }
    }
  }

  lemma {:induction false} KnownInputsKeep(vin: seq<UtxoId>, known: set<string>, u: UtxoId)
    requires u in known && u in vin
    ensures u in KnownInputs(vin, known)
  {
    if u != vin[|vin| - 1] {
      KnownInputsKeep(vin[..|vin| - 1], known, u);
    }
  }
}
