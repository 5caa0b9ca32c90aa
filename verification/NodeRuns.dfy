/** One process over whole runs: its caches follow their tables, and a mempool parse stores exactly its own events. */
module NodeRuns {
  import opened Records
  import opened Journal
  import opened Ledger
  import opened LedgerBalances
  import opened BalanceJournal
  import opened Node
  import OC = OrdersCache
  import OR = OrdersRuns
  import AC = AssetCache

  /** The step is no call of its own on these tables. */
  predicate LeavesTable(op: Op, table: string) {
    match op
    case InsertRecord(t, _, _, _) => t != table
    case InsertUpdate(t, _, _, _, _, _) => t != table
    case Seal(t, _, _, _, _, _) => t != table
    case Credit(_) => table != "credits"
    case Debit(_) => table != "debits"
  }

  // ---------------------------------------------------------------- orders

  function OrdersNow(p: Process): OR.Both
    requires p.caches.orders.Some?
  {
    OR.Both(TableOf(p.db, "orders"), p.caches.orders.value)
  }

  /** Orders are only touched by their own calls, and an update finds the latest version of the order it names. */
  predicate OrderStep(s: State, step: Step) {
    match step.call
    case Plain(op) => LeavesTable(op, "orders")
    case UpdateOrder(h, idName, idValue, _, _, _) =>
      FindRow(TableOf(s, "orders"), idName, idValue) == OC.Latest(TableOf(s, "orders"), h)
    case _ => true
  }

  predicate OrderSteps(p: Process, steps: seq<Step>) {
    steps == [] ||
    var rest, last := steps[..|steps| - 1], steps[|steps| - 1];
    OrderSteps(p, rest) && OrderStep(RunSteps(p, rest, false).db, last)
  }

  /** The calls that a run makes on the orders. */
  function OrderCalls(steps: seq<Step>): seq<OR.OrderCall> {
    if steps == [] then []
    else
      var rest, last := OrderCalls(steps[..|steps| - 1]), steps[|steps| - 1];
      match last.call
      case InsertOrder(order) => rest + [OR.Open(order, last.env.blockIndex)]
      case UpdateOrder(h, _, _, data, _, _) => rest + [OR.Change(h, data, last.env.blockIndex)]
      case _ => rest
  }

  lemma OneOrderStep(p: Process, step: Step)
    requires "orders" in p.db.tables && p.caches.orders.Some? && OrderStep(p.db, step)
    ensures var p' := RunStep(p, step, false);
            && "orders" in p'.db.tables && p'.caches.orders.Some?
            && OrdersNow(p') == match step.call
                                case InsertOrder(order) => OR.Make(OrdersNow(p), OR.Open(order, step.env.blockIndex))
                                case UpdateOrder(h, _, _, data, _, _) =>
                                  OR.Make(OrdersNow(p), OR.Change(h, data, step.env.blockIndex))
                                case _ => OrdersNow(p)
  {
  }

  /** A missing cache is built from the table as the call leaves it, and then gets the call. */
  lemma MissingOrdersAreBuilt(p: Process, step: Step)
    requires "orders" in p.db.tables && p.caches.orders.None?
    ensures var p', block := RunStep(p, step, false), step.env.blockIndex;
            var built := OR.Build(TableOf(p'.db, "orders"), block);
            && (step.call.InsertOrder? ==> p'.caches.orders == Some(OR.CacheInsert(built, step.call.order, block)))
            && (step.call.UpdateOrder? && DbResult(p.db, step).Ok? ==>
                  p'.caches.orders == Some(OR.CacheUpdate(built, step.call.txHash, step.call.data, block)))
            && (step.call.ReadOrders? ==> p'.caches.orders == Some(built))
  {
  }

  lemma OneCallMore(s: OR.Both, calls: seq<OR.OrderCall>, call: OR.OrderCall)
    ensures OR.MakeAll(s, calls + [call]) == OR.Make(OR.MakeAll(s, calls), call)
  {
    assert (calls + [call])[..|calls|] == calls;
  }

  /** Table and cache of the orders go the way of their own calls, whatever else a block does in between. */
  lemma {:induction false} OrdersFollow(p: Process, steps: seq<Step>)
    requires "orders" in p.db.tables && p.caches.orders.Some? && OrderSteps(p, steps)
    ensures var p' := RunSteps(p, steps, false);
            && "orders" in p'.db.tables && p'.caches.orders.Some?
            && OrdersNow(p') == OR.MakeAll(OrdersNow(p), OrderCalls(steps))
  {
    if steps != [] {
      var rest, last := steps[..|steps| - 1], steps[|steps| - 1];
      OrdersFollow(p, rest);
      OneOrderStep(RunSteps(p, rest, false), last);
      match last.call {
        case InsertOrder(order) =>
          OneCallMore(OrdersNow(p), OrderCalls(rest), OR.Open(order, last.env.blockIndex));
        case UpdateOrder(h, _, _, data, _, _) =>
          OneCallMore(OrdersNow(p), OrderCalls(rest), OR.Change(h, data, last.env.blockIndex));
        case _ =>
      }
    }
  }

  /** So from a cache in step a block that opens no dropped order again leaves one that answers as the table does. */
  lemma NodeAnswersAsTheTable(p: Process, steps: seq<Step>)
    requires "orders" in p.db.tables && p.caches.orders.Some? && OrderSteps(p, steps)
    requires OR.Healthy(OrdersNow(p)) && OR.AllAllowed(OrdersNow(p), OrderCalls(steps))
    ensures var p' := RunSteps(p, steps, false);
            && p'.caches.orders.Some? && OR.Healthy(OrdersNow(p'))
            && OC.QueriesAgree(p'.caches.orders.value, TableOf(p'.db, "orders"))
  {
    OrdersFollow(p, steps);
    OR.RunStaysHealthy(OrdersNow(p), OrderCalls(steps));
    var end := OrdersNow(RunSteps(p, steps, false));
    OC.InStepAnswersAlike(end.cache, end.table);
  }

  // ---------------------------------------------------------------- assets

  function AssetTables(s: State): AC.Tables { AC.Tables(TableOf(s, "issuances"), TableOf(s, "destructions")) }

  /** Issuances and destructions are only inserted. */
  predicate AssetStep(step: Step) {
    step.call.Plain? ==>
      step.call.op.InsertRecord? || (LeavesTable(step.call.op, "issuances")
                                     && LeavesTable(step.call.op, "destructions"))
  }

  function AssetCall(step: Step): AC.Call {
    if step.call.Plain? && step.call.op.InsertRecord? && step.call.op.table == "issuances"
    then AC.Issue(step.call.op.record)
    else if step.call.Plain? && step.call.op.InsertRecord? && step.call.op.table == "destructions"
    then AC.Destroy(step.call.op.record)
    else AC.Touch
  }

  function AssetCalls(steps: seq<Step>): seq<AC.Call> {
    if steps == [] then [] else AssetCalls(steps[..|steps| - 1]) + [AssetCall(steps[|steps| - 1])]
  }

  predicate HasAssetTables(s: State) { "issuances" in s.tables && "destructions" in s.tables }

  lemma TablesDiffer()
    ensures "issuances" != "destructions" && "orders" != "issuances" && "orders" != "destructions"
    ensures "credits" != "issuances" && "credits" != "destructions" && "debits" != "issuances"
    ensures "debits" != "destructions"
  {
    assert |"issuances"| == 9 && |"destructions"| == 12 && |"orders"| == 6 && |"credits"| == 7 && |"debits"| == 6;
  }

  lemma OneAssetStep(p: Process, step: Step)
    requires HasAssetTables(p.db) && AssetStep(step)
    ensures var p', call := RunStep(p, step, false), AssetCall(step);
            && HasAssetTables(p'.db) && AssetTables(p'.db) == AC.Insert(AssetTables(p.db), call)
            && (p.caches.assets.Some? ==> p'.caches.assets == Some(AC.Note(p.caches.assets.value, call)))
            && (p.caches.assets.None? && !call.Touch? ==>
                  p'.caches.assets == Some(BuildAssets(AC.Insert(AssetTables(p.db), call))))
  {
    TablesDiffer();
  }

  /** Tables and cache of the assets go the way of the issuances and destructions of a block. */
  lemma {:induction false} AssetsFollow(p: Process, steps: seq<Step>)
    requires HasAssetTables(p.db) && p.caches.assets.Some? && forall i :: 0 <= i < |steps| ==> AssetStep(steps[i])
    ensures var p' := RunSteps(p, steps, false);
            && HasAssetTables(p'.db) && AssetTables(p'.db) == AC.InsertAll(AssetTables(p.db), AssetCalls(steps))
            && p'.caches.assets == Some(AC.NoteAll(p.caches.assets.value, AssetCalls(steps)))
  {
    if steps != [] {
      var rest, last := steps[..|steps| - 1], steps[|steps| - 1];
      AssetsFollow(p, rest);
      OneAssetStep(RunSteps(p, rest, false), last);
      assert AssetCalls(steps)[..|rest|] == AssetCalls(rest) by { CallForEach(rest); }
      CallForEach(steps);
    }
  }

  lemma {:induction false} CallForEach(steps: seq<Step>)
    ensures |AssetCalls(steps)| == |steps|
  {
    if steps != [] { CallForEach(steps[..|steps| - 1]); }
  }

  /**
   * So from a cache that was built from the tables, a block of valid issuances and counting destructions leaves the
   * totals of the tables, and under every settled key the row of a rebuilt cache.
   */
  lemma NodeCountsAsTheTables(p: Process, steps: seq<Step>, first: seq<Record>, groups: seq<Record>, key: Value)
    requires HasAssetTables(p.db) && (forall i :: 0 <= i < |steps| ==> AssetStep(steps[i]))
    requires AC.IsGrouping(first, AssetTables(p.db).issuances)
    requires p.caches.assets == Some(AC.Rebuilt(first, AssetTables(p.db)))
    requires AC.AllHarmless(AssetTables(p.db), AssetCalls(steps))
    requires AC.IsGrouping(groups, TableOf(RunSteps(p, steps, false).db, "issuances"))
    ensures var p' := RunSteps(p, steps, false);
            var rebuilt := AC.Rebuilt(groups, AssetTables(p'.db));
            && p'.caches.assets.Some? && p'.caches.assets.value.issued == rebuilt.issued
            && p'.caches.assets.value.destroyed == rebuilt.destroyed
            && (AC.Settled(AssetTables(p.db).issuances, AC.Issued(AssetCalls(steps)), key) ==>
                  AC.SameRow(p'.caches.assets.value, rebuilt, key))
  {
    AssetsFollow(p, steps);
    AC.CacheEqualsRebuilt(AssetTables(p.db), AssetCalls(steps), first, groups, key);
  }

  // ---------------------------------------------------------------- outputs

  /** A call that makes an output known: an accepted credit outside the mempool, or the destination of a move. */
  predicate MakesKnown(step: Step, u: string) {
    match step.call
    case Plain(op) =>
      && op.Credit? && op.credit.holder.Utxo? && op.credit.holder.utxo == u && Acceptable(step.env, op.credit)
      && step.env.blockIndex != 9999999
    case NoteUtxo(utxo) => utxo == u
    case _ => false
  }

  lemma OneStepKnows(p: Process, step: Step, u: string)
    requires p.caches.utxos.Some?
    ensures var p' := RunStep(p, step, false);
            && p'.caches.utxos.Some?
            && (u in p'.caches.utxos.value <==> u in p.caches.utxos.value || MakesKnown(step, u))
  {
  }

  /** A missing cache is created by the first call that needs it, from the rows there are. */
  lemma MissingOutputsAreBuilt(p: Process, step: Step, u: string)
    requires p.caches.utxos.None?
    ensures var p' := RunStep(p, step, false);
            && (p'.caches.utxos.Some? <==>
                  step.call.ReadUtxos? || step.call.NoteUtxo?
                  || (step.call.Plain? && step.call.op.Credit? && step.call.op.credit.holder.Utxo?
                      && MakesKnown(step, step.call.op.credit.holder.utxo)))
            && (p'.caches.utxos.Some? ==>
                  (u in p'.caches.utxos.value <==> HasRow(p.db.balances, u) || MakesKnown(step, u)))
  {
  }

  /** A cache of outputs learns exactly those, and forgets none. */
  lemma {:induction false} UtxosFollow(p: Process, steps: seq<Step>, u: string)
    requires p.caches.utxos.Some?
    ensures var p' := RunSteps(p, steps, false);
            && p'.caches.utxos.Some?
            && (u in p'.caches.utxos.value <==>
                  u in p.caches.utxos.value || exists i :: 0 <= i < |steps| && MakesKnown(steps[i], u))
  {
    if steps != [] {
      var n := |steps| - 1;
      UtxosFollow(p, steps[..n], u);
      OneStepKnows(RunSteps(p, steps[..n], false), steps[n], u);
      assert forall i :: 0 <= i < n ==> steps[..n][i] == steps[i];
    }
  }

  // ---------------------------------------------------------------- the events of a mempool parse

  /** The log goes on from these messages. */
  ghost predicate GoesOnFrom(base: seq<Message>, s: State) {
    base <= s.messages && Chained(Stamps(s.messages))
  }

  lemma StepGoesOn(base: seq<Message>, s: State, step: Step)
    requires GoesOnFrom(base, s)
    ensures GoesOnFrom(base, DbAfter(s, step))
  {
    match step.call {
      case Plain(op) => OpGoesOn(base, s, step.env, op);
      case InsertOrder(order) => OpGoesOn(base, s, step.env, InsertRecord("orders", order, "OPEN_ORDER", map[]));
      case UpdateOrder(_, idName, idValue, data, event, info) =>
        OpGoesOn(base, s, step.env, InsertUpdate("orders", idName, idValue, data, event, info));
      case _ =>
    }
  }

  lemma OpGoesOn(base: seq<Message>, s: State, env: Env, op: Op)
    requires GoesOnFrom(base, s)
    ensures GoesOnFrom(base, Ledger.Step(s, env, op))
  {
    StepKeepsChain(s, env, op);
    var after := Ledger.Step(s, env, op);
    if after != s { assert after.messages == s.messages + [after.messages[|s.messages|]]; }
  }

  lemma {:induction false} StepsGoOn(base: seq<Message>, p: Process, steps: seq<Step>, parsing: bool)
    requires GoesOnFrom(base, p.db)
    ensures GoesOnFrom(base, RunSteps(p, steps, parsing).db)
  {
    if steps != [] {
      StepsGoOn(base, p, steps[..|steps| - 1], parsing);
      StepGoesOn(base, RunSteps(p, steps[..|steps| - 1], parsing).db, steps[|steps| - 1]);
    }
  }

  lemma {:induction false} TransactionsGoOn(base: seq<Message>, p: Process, ts: seq<Transaction>, parsing: bool)
    requires GoesOnFrom(base, p.db)
    ensures GoesOnFrom(base, RunTransactions(p, ts, parsing).db)
  {
    if ts != [] {
      TransactionsGoOn(base, p, ts[..|ts| - 1], parsing);
      StepsGoOn(base, RunTransactions(p, ts[..|ts| - 1], parsing), ts[|ts| - 1].steps, parsing);
    }
  }

  lemma IndexIsPlace(messages: seq<Message>)
    requires Chained(Stamps(messages))
    ensures forall i :: 0 <= i < |messages| ==> messages[i].stamp.content.messageIndex == i
  {
    forall i | 0 <= i < |messages|
      ensures messages[i].stamp.content.messageIndex == i
    {
      assert Stamps(messages)[i] == messages[i].stamp;
    }
  }

  lemma MessagesAfter(before: seq<Message>, run: seq<Message>, m: Message)
    requires before != [] && before <= run && Chained(Stamps(run))
    ensures var events := MessagesAbove(before, run);
            && run == before + events
            && (m in events <==>
                  m in run && m.stamp.content.messageIndex > before[|before| - 1].stamp.content.messageIndex)
  {
    var events := MessagesAbove(before, run);
    IndexIsPlace(run);
    assert before[|before| - 1] == run[|before| - 1];
    if m in events {
      var i :| 0 <= i < |events| && events[i] == m;
      assert run[|before| + i] == m;
    }
    if m in run && m.stamp.content.messageIndex >= |before| {
      var i :| 0 <= i < |run| && run[i] == m;
      assert events[i - |before|] == m;
    }
  }

  /**
   * The events that a mempool parse stores are those of the aborted run whose index is above the last one there was, in
   * their order; with no message before there are none.
   */
  lemma MempoolEventsAreTheNew(p: Process, ts: seq<Transaction>, m: Message)
    requires Chained(Stamps(p.db.messages))
    ensures var before, run := p.db.messages, RunTransactions(p, ts, true).db.messages;
            if before == [] then MempoolEvents(p, ts) == []
            else
              && run == before + MempoolEvents(p, ts)
              && (m in MempoolEvents(p, ts) <==>
                    m in run && m.stamp.content.messageIndex > before[|before| - 1].stamp.content.messageIndex)
  {
    TransactionsGoOn(p.db.messages, p, ts, true);
    if p.db.messages != [] { MessagesAfter(p.db.messages, RunTransactions(p, ts, true).db.messages, m); }
  }
}
