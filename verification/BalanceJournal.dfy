/** What the journal alone says about balances, and why the ledger's latest rows agree with it. */
module BalanceJournal {
  import opened Records
  import opened Journal
  import opened Ledger
  import opened LedgerRollback
  import opened LedgerBalances

  /** A truthy `utxo` binding wins over `address`. */
  function EventHolder(bindings: Record): Option<Holder> {
    var utxo, address := Cell(bindings, "utxo"), Cell(bindings, "address");
    if utxo.Text? && utxo.s != "" then Some(Utxo(utxo.s))
    else if address.Text? then Some(Address(address.s))
    else None
  }

  /** By how much one event moves a balance. */
  function Moved(c: Content, h: Holder, asset: string): int {
    var quantity := Cell(c.bindings, "quantity");
    if EventHolder(c.bindings) != Some(h) || Cell(c.bindings, "asset") != Text(asset) || !quantity.Int? then 0
    else if c.event == "CREDIT" then quantity.n
    else if c.event == "DEBIT" then -quantity.n
    else 0
  }

  /** Credits minus debits of one holder and asset over a whole log. */
  function Net(log: seq<Stamp>, h: Holder, asset: string): int {
    if log == [] then 0
    else Net(log[..|log| - 1], h, asset) + Moved(log[|log| - 1].content, h, asset)
  }

  lemma NetOfAppend(log: seq<Stamp>, st: Stamp, h: Holder, asset: string)
    ensures Net(log + [st], h, asset) == Net(log, h, asset) + Moved(st.content, h, asset)
  {
    assert (log + [st])[..|log|] == log;
  }

  /** The latest rows say what the journal says. */
  ghost predicate BooksMatchJournal(s: State) {
    forall h, asset :: Balance(s.balances, h, asset) == Net(Stamps(s.messages), h, asset)
  }

  lemma JournalGrowsByOne(s: State, env: Env, op: Op)
    ensures Step(s, env, op) != s ==>
              var log, log' := Stamps(s.messages), Stamps(Step(s, env, op).messages);
              |log'| == |log| + 1 && log' == log + [log'[|log|]]
  {
    var s' := Step(s, env, op);
    if s' != s {
      assert s'.messages == s.messages + [s'.messages[|s.messages|]];
      assert Stamps(s'.messages) == Stamps(s.messages) + [s'.messages[|s.messages|].stamp];
    }
  }

  lemma JournalledMovement(env: Env, m: Movement, column: string)
    requires column in {"action", "calling_function"}
    ensures var r := MovementRecord(env, m, column);
            && EventHolder(r) == Some(m.holder) && Cell(r, "asset") == Text(m.asset)
            && Cell(r, "quantity") == Int(m.quantity)
  {
    assert |"action"| == 6 && |"calling_function"| == 16 && |"utxo"| == 4 && |"address"| == 7 && |"asset"| == 5
           && |"quantity"| == 8;
  }

  lemma StepMatchesJournal(s: State, env: Env, op: Op)
    requires BooksMatchJournal(s) && InRange(s.balances) && Proper(op) && !Clips(s, op)
    ensures BooksMatchJournal(Step(s, env, op))
  {
    var s' := Step(s, env, op);
    if s' != s {
      JournalGrowsByOne(s, env, op);
      var st := s'.messages[|s.messages|].stamp;
      forall h, asset
        ensures Balance(s'.balances, h, asset) == Net(Stamps(s'.messages), h, asset)
      {
        NetOfAppend(Stamps(s.messages), st, h, asset);
        MovedByStep(s, env, op, h, asset);
      }
    }
  }

  lemma BalanceOfAppend(rows: seq<BalanceRow>, row: BalanceRow, h: Holder, asset: string)
    ensures Balance(rows + [row], h, asset) ==
            if row.holder == h && row.asset == asset then row.quantity else Balance(rows, h, asset)
  {
    assert (rows + [row])[..|rows|] == rows;
  }

  lemma MovedByCredit(s: State, env: Env, m: Movement, h: Holder, asset: string)
    requires InRange(s.balances) && !Clips(s, Credit(m)) && Step(s, env, Credit(m)) != s
    ensures |Step(s, env, Credit(m)).messages| == |s.messages| + 1
    ensures Balance(Step(s, env, Credit(m)).balances, h, asset) ==
            Balance(s.balances, h, asset)
            + Moved(Step(s, env, Credit(m)).messages[|s.messages|].stamp.content, h, asset)
  {
    JournalledMovement(env, m, "calling_function");
    var r := MovementRecord(env, m, "calling_function");
    assert r + map[] == r;
    BalanceOfAppend(s.balances, BalanceRowFor(env, m, Balance(s.balances, m.holder, m.asset) + m.quantity), h, asset);
  }

  lemma MovedByDebit(s: State, env: Env, m: Movement, h: Holder, asset: string)
    requires InRange(s.balances) && Step(s, env, Debit(m)) != s
    ensures |Step(s, env, Debit(m)).messages| == |s.messages| + 1
    ensures Balance(Step(s, env, Debit(m)).balances, h, asset) ==
            Balance(s.balances, h, asset) + Moved(Step(s, env, Debit(m)).messages[|s.messages|].stamp.content, h, asset)
  {
    RangeOfLatest(s.balances, m.holder, m.asset);
    JournalledMovement(env, m, "action");
    var r := MovementRecord(env, m, "action");
    assert r + map[] == r;
    BalanceOfAppend(s.balances, BalanceRowFor(env, m, Balance(s.balances, m.holder, m.asset) - m.quantity), h, asset);
  }

  lemma MovedByStep(s: State, env: Env, op: Op, h: Holder, asset: string)
    requires InRange(s.balances) && Proper(op) && !Clips(s, op) && Step(s, env, op) != s
    ensures |Step(s, env, op).messages| == |s.messages| + 1
    ensures Balance(Step(s, env, op).balances, h, asset) ==
            Balance(s.balances, h, asset) + Moved(Step(s, env, op).messages[|s.messages|].stamp.content, h, asset)
  {
    match op {
      case Credit(m) => MovedByCredit(s, env, m, h, asset);
      case Debit(m) => MovedByDebit(s, env, m, h, asset);
      case _ => assert Step(s, env, op).balances == s.balances;
    }
  }

  /** From matching books, every run without a clipped credit ends with matching books. */
  lemma {:induction false} RunMatchesJournal(s: State, calls: seq<Call>)
    requires BooksMatchJournal(s) && InRange(s.balances) && ProperRun(s, calls)
    ensures BooksMatchJournal(RunCalls(s, calls)) && InRange(RunCalls(s, calls).balances)
  {
    if calls != [] {
      var rest, last := calls[..|calls| - 1], calls[|calls| - 1];
      forall k | 0 <= k < |rest|
        ensures Proper(rest[k].op) && !Clips(RunCalls(s, rest[..k]), rest[k].op)
      {
        assert rest[..k] == calls[..k];
      }
      RunMatchesJournal(s, rest);
      StepMatchesJournal(RunCalls(s, rest), last.env, last.op);
      StepKeepsRange(RunCalls(s, rest), last.env, last.op);
    }
  }

  /** A clipped credit breaks the agreement, any other keeps it. */
  lemma CreditMatchesJournalIffNotClipped(s: State, env: Env, m: Movement)
    requires BooksMatchJournal(s) && HasMovementTables(s) && CheckMovement(env, m).None?
    ensures BooksMatchJournal(Step(s, env, Credit(m))) <==>
              Balance(s.balances, m.holder, m.asset) + m.quantity <= MAX_INT
  {
    var s' := Step(s, env, Credit(m));
    assert s'.balances[..|s.balances|] == s.balances;
    JournalGrowsByOne(s, env, Credit(m));
    JournalledMovement(env, m, "calling_function");
    assert MovementRecord(env, m, "calling_function") + map[] == MovementRecord(env, m, "calling_function");
    var st := s'.messages[|s.messages|].stamp;
    forall h, asset
      ensures Net(Stamps(s'.messages), h, asset) == Net(Stamps(s.messages), h, asset) + Moved(st.content, h, asset)
    {
      NetOfAppend(Stamps(s.messages), st, h, asset);
    }
    assert Net(Stamps(s'.messages), m.holder, m.asset) == Balance(s.balances, m.holder, m.asset) + m.quantity;
  }

  lemma StepKeepsChain(s: State, env: Env, op: Op)
    requires Chained(Stamps(s.messages))
    ensures Chained(Stamps(Step(s, env, op).messages))
  {
    var s' := Step(s, env, op);
    if s' != s {
      JournalGrowsByOne(s, env, op);
      var c := s'.messages[|s.messages|].stamp.content;
      AppendKeepsChain(Stamps(s.messages), env.blockIndex, c.command, c.category, c.event, c.bindings, env.txHash);
    }
  }

  /** Every run keeps the message log contiguous and hash-chained. */
  lemma {:induction false} RunKeepsChain(s: State, calls: seq<Call>)
    requires Chained(Stamps(s.messages))
    ensures Chained(Stamps(RunCalls(s, calls).messages))
  {
    if calls != [] {
      var rest, last := calls[..|calls| - 1], calls[|calls| - 1];
      RunKeepsChain(s, rest);
      StepKeepsChain(RunCalls(s, rest), last.env, last.op);
    }
  }
}
