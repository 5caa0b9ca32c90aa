/** Ledger and API together: any interleaving of ledger calls, reorganisations and watcher steps. */
module Replication {
  import opened Records
  import opened Journal
  import opened Ledger
  import opened LedgerRollback
  import opened LedgerBalances
  import opened BalanceJournal
  import opened ApiWatcher
  import opened WatcherProtocol
  import opened WatcherUndo
  import opened LedgerEvents

  datatype System = System(ledger: State, api: ApiState)

  datatype Act = LedgerDoes(happening: Happening) | ApiCall

  function LedgerAfter(s: State, h: Happening): State {
    match h
    case Run(c) => Step(s, c.env, c.op)
    case Reorg(n) => Rollback(s, n)
  }

  function Perform(sys: System, act: Act): System {
    match act
    case LedgerDoes(h) => sys.(ledger := LedgerAfter(sys.ledger, h))
    case ApiCall => sys.(api := ParseNext(sys.api, Stamps(sys.ledger.messages)).api)
  }

  function PerformAll(sys: System, acts: seq<Act>): System {
    if acts == [] then sys
    else Perform(PerformAll(sys, acts[..|acts| - 1]), acts[|acts| - 1])
  }

  /** What happened to the ledger alone. */
  function LedgerHistory(acts: seq<Act>): seq<Happening> {
    if acts == [] then []
    else
      var before, last := LedgerHistory(acts[..|acts| - 1]), acts[|acts| - 1];
      if last.LedgerDoes? then before + [last.happening] else before
  }

  ghost predicate BooksOf(balances: seq<ApiBalance>, log: seq<Stamp>) {
    && OneRowPerKey(balances)
    && forall h, asset :: ApiQuantity(balances, h, asset) == Net(log, h, asset)
  }

  /** The API's quantities are what its own log says, with one row for each key. */
  ghost predicate ApiBooks(s: ApiState) {
    BooksOf(s.balances, ApiStamps(s.messages))
  }

  /** The two databases the run starts from. */
  ghost predicate Start(sys: System) {
    && Chained(Stamps(sys.ledger.messages)) && Followable(sys.ledger) && BooksMatchJournal(sys.ledger)
       && InRange(sys.ledger.balances)
    && Sound(sys.api) && ApiBooks(sys.api)
  }

  /** Through all of the run the ledger's calls announce what they do and reorganisations spare the start. */
  ghost predicate Lawful(sys: System, acts: seq<Act>) {
    && Orderly(sys.ledger, LedgerHistory(acts)) && KeepsStart(sys.ledger, LedgerHistory(acts))
    && AllAnnounced(sys.ledger, Survivors(LedgerHistory(acts)))
    && (acts != [] ==> Lawful(sys, acts[..|acts| - 1]))
  }

  // ---------------------------------------------------------------- the ledger's side

  lemma {:induction false} LedgerIsReplayed(sys: System, acts: seq<Act>)
    ensures PerformAll(sys, acts).ledger == Replay(sys.ledger, LedgerHistory(acts))
  {
    if acts != [] {
      var before, last := acts[..|acts| - 1], acts[|acts| - 1];
      LedgerIsReplayed(sys, before);
      if last.LedgerDoes? {
        assert LedgerHistory(acts)[..|LedgerHistory(before)|] == LedgerHistory(before);
      }
    }
  }

  lemma LedgerStaysFollowable(sys: System, acts: seq<Act>)
    requires Start(sys) && Lawful(sys, acts)
    ensures var log := Stamps(PerformAll(sys, acts).ledger.messages); Chained(log) && WellFormedLog(log)
  {
    LedgerIsReplayed(sys, acts);
    ReorgsLeaveNoTrace(sys.ledger, LedgerHistory(acts));
    RunKeepsChain(sys.ledger, Survivors(LedgerHistory(acts)));
    RunStaysFollowable(sys.ledger, Survivors(LedgerHistory(acts)));
  }

  // ---------------------------------------------------------------- the API's side

  /** One event more in the log and in the balances, or one fewer in both. */
  lemma BooksMove(balances: seq<ApiBalance>, moved: seq<ApiBalance>, log: seq<Stamp>, st: Stamp)
    ensures BooksOf(balances, log) && moved == UpdateBalances(balances, st.content, 1) ==> BooksOf(moved, log + [st])
    ensures BooksOf(balances, log + [st]) && moved == UpdateBalances(balances, st.content, -1) ==> BooksOf(moved, log)
  {
    EventMovesBalances(balances, st.content, 1);
    EventMovesBalances(balances, st.content, -1);
    forall h, asset
      ensures Net(log + [st], h, asset) == Net(log, h, asset) + Moved(st.content, h, asset)
    {
      NetOfAppend(log, st, h, asset);
    }
  }

  lemma ParseKeepsBooks(s: ApiState, st: Stamp)
    requires ApiBooks(s)
    ensures ApiBooks(ParseEvent(s, st))
  {
    var s' := ParseEvent(s, st);
    ParseShape(s, st);
    BooksMove(s.balances, s'.balances, ApiStamps(s.messages), st);
  }

  lemma UndoMovesBack(s: ApiState, m: ApiMessage)
    ensures RollbackEvent(s, m).Some? ==>
              RollbackEvent(s, m).value.balances == UpdateBalances(s.balances, m.stamp.content, -1)
  {
  }

  lemma UndoneBooks(s: ApiState, undone: ApiState)
    requires ApiBooks(s) && s.messages != [] && undone.messages == s.messages[..|s.messages| - 1]
    requires undone.balances == UpdateBalances(s.balances, s.messages[|s.messages| - 1].stamp.content, -1)
    ensures ApiBooks(undone)
  {
    var log, n := ApiStamps(s.messages), |s.messages| - 1;
    assert ApiStamps(undone.messages) == log[..n] && log == log[..n] + [log[n]];
    BooksMove(s.balances, undone.balances, log[..n], log[n]);
  }

  lemma UndoKeepsBooks(s: ApiState)
    requires Sound(s) && ApiBooks(s) && s.messages != []
    ensures var undone := RollbackEvent(s, s.messages[|s.messages| - 1]); undone.Some? && ApiBooks(undone.value)
  {
    UndoLastKeepsSound(s);
    UndoMovesBack(s, s.messages[|s.messages| - 1]);
    UndoneBooks(s, RollbackEvent(s, s.messages[|s.messages| - 1]).value);
  }

  lemma {:induction false} CutBackKeepsBooks(s: ApiState, log: seq<Stamp>)
    requires Sound(s) && ApiBooks(s)
    ensures ApiBooks(CutBack(s, log).api)
    decreases |s.messages|
  {
    if s.messages != [] {
      var last := s.messages[|s.messages| - 1];
      UndoLastKeepsSound(s);
      UndoKeepsBooks(s);
      CutBackKeepsBooks(RollbackEvent(s, last).value, log);
    }
  }

  lemma ParseNextKeepsBooks(s: ApiState, log: seq<Stamp>)
    requires Sound(s) && ApiBooks(s)
    ensures ApiBooks(ParseNext(s, log).api)
  {
    CutBackKeepsBooks(s, log);
    var cut := CutBack(s, log);
    if cut.Returns? {
      match NextAfter(cut.api.messages, log) {
        case None =>
        case Some(st) => ParseKeepsBooks(cut.api, st);
      }
    }
  }

  lemma OneCallKeepsBooks(s: ApiState, log: seq<Stamp>, after: ApiState)
    requires Sound(s) && ApiBooks(s) && Chained(log) && WellFormedLog(log) && after == ParseNext(s, log).api
    ensures Sound(after) && ApiBooks(after)
  {
    ParseNextExtendsCommonPrefix(s, log);
    ParseNextKeepsBooks(s, log);
  }

  lemma {:induction false} ApiStaysSound(sys: System, acts: seq<Act>)
    requires Start(sys) && Lawful(sys, acts)
    ensures Sound(PerformAll(sys, acts).api) && ApiBooks(PerformAll(sys, acts).api)
  {
    if acts != [] {
      var before := acts[..|acts| - 1];
      ApiStaysSound(sys, before);
      if acts[|acts| - 1].ApiCall? {
        var mid := PerformAll(sys, before);
        LedgerStaysFollowable(sys, before);
        OneCallKeepsBooks(mid.api, Stamps(mid.ledger.messages), PerformAll(sys, acts).api);
      }
    }
  }

  // ---------------------------------------------------------------- the main results

  /**
   * A watcher step taken now ends on a prefix of the ledger's log: the longest common prefix of the two logs of this
   * moment and, if there is one, the ledger's next event. It raises exactly when message 0 is there and not shared.
   */
  ghost predicate NextCallEndsOnAPrefix(sys: System) {
    var log := Stamps(sys.ledger.messages);
    ExtendsCommonPrefix(sys.api, ParseNext(sys.api, log), log)
  }

  /** After every interleaving the next watcher step cuts back to exactly the common prefix and goes one on. */
  lemma EveryCallEndsOnAPrefix(sys: System, acts: seq<Act>)
    requires Start(sys) && Lawful(sys, acts)
    ensures NextCallEndsOnAPrefix(PerformAll(sys, acts))
  {
    ApiStaysSound(sys, acts);
    LedgerStaysFollowable(sys, acts);
    ParseNextExtendsCommonPrefix(PerformAll(sys, acts).api, Stamps(PerformAll(sys, acts).ledger.messages));
  }

  // ---------------------------------------------------------------- message 0

  lemma {:induction false} KeptMessages(messages: seq<Message>, n: int)
    ensures forall m :: m in MessagesBelow(messages, n) ==> m.stamp.content.blockIndex < n
    ensures messages != [] && messages[0].stamp.content.blockIndex < n ==>
              MessagesBelow(messages, n) != [] && MessagesBelow(messages, n)[0] == messages[0]
  {
    if messages != [] { KeptMessages(messages[..|messages| - 1], n); }
  }

  lemma StepKeepsFirst(s: State, env: Env, op: Op)
    requires s.messages != []
    ensures Step(s, env, op).messages != [] && Step(s, env, op).messages[0].stamp == s.messages[0].stamp
  {
    JournalGrowsByOne(s, env, op);
    var log := Stamps(s.messages);
    if Step(s, env, op) != s { assert Stamps(Step(s, env, op).messages)[0] == log[0]; }
  }

  lemma HistoryGrows(acts: seq<Act>)
    requires acts != [] && acts[|acts| - 1].LedgerDoes?
    ensures acts[|acts| - 1].happening in LedgerHistory(acts)
  {
  }

  lemma {:induction false} FirstMessageStays(sys: System, acts: seq<Act>)
    requires sys.ledger.messages != [] && Lawful(sys, acts)
    ensures var messages := PerformAll(sys, acts).ledger.messages;
            messages != [] && messages[0].stamp == sys.ledger.messages[0].stamp
  {
    if acts != [] {
      var before, last := acts[..|acts| - 1], acts[|acts| - 1];
      var mid := PerformAll(sys, before);
      FirstMessageStays(sys, before);
      if last.LedgerDoes? {
        HistoryGrows(acts);
        match last.happening {
          case Run(c) => StepKeepsFirst(mid.ledger, c.env, c.op);
          case Reorg(n) =>
            KeptMessages(sys.ledger.messages, n);
            assert MessagesBelow(sys.ledger.messages, n) == sys.ledger.messages;
            assert sys.ledger.messages[0] in sys.ledger.messages;
            KeptMessages(mid.ledger.messages, n);
        }
      }
    }
  }

  lemma CallKeepsSharing(before: ApiState, outcome: Outcome, log: seq<Stamp>)
    requires ExtendsCommonPrefix(before, outcome, log) && SharesFirst(before.messages, log)
    ensures outcome.Returns? && SharesFirst(outcome.api.messages, log)
  {
    CommonPrefixOfPrefix(outcome.api.messages, log, Least(CommonPrefix(ApiStamps(before.messages), log) + 1, |log|));
  }

  lemma SharingIsAboutTheFirst(messages: seq<ApiMessage>, log: seq<Stamp>, log': seq<Stamp>)
    requires log != [] && log' != [] && log[0] == log'[0] && SharesFirst(messages, log)
    ensures SharesFirst(messages, log')
  {
  }

  /** Once the ledger has a first message that no reorganisation takes, and the API shares it, no call ever raises. */
  lemma {:induction false} NoCallRaises(sys: System, acts: seq<Act>)
    requires Start(sys) && Lawful(sys, acts)
    requires sys.ledger.messages != [] && SharesFirst(sys.api.messages, Stamps(sys.ledger.messages))
    ensures var end := PerformAll(sys, acts); var log := Stamps(end.ledger.messages);
            SharesFirst(end.api.messages, log) && ParseNext(end.api, log).Returns?
  {
    var end := PerformAll(sys, acts);
    var log := Stamps(end.ledger.messages);
    FirstMessageStays(sys, acts);
    if acts != [] {
      var mid := PerformAll(sys, acts[..|acts| - 1]);
      NoCallRaises(sys, acts[..|acts| - 1]);
      FirstMessageStays(sys, acts[..|acts| - 1]);
      if acts[|acts| - 1].ApiCall? {
        EveryCallEndsOnAPrefix(sys, acts[..|acts| - 1]);
        CallKeepsSharing(mid.api, ParseNext(mid.api, log), log);
      } else {
        SharingIsAboutTheFirst(mid.api.messages, Stamps(mid.ledger.messages), log);
      }
    }
    EveryCallEndsOnAPrefix(sys, acts);
  }

  // ---------------------------------------------------------------- how often a call raises

  /** One when this act is a call that raises. */
  function RaisedBy(sys: System, act: Act): nat {
    if act.ApiCall? && ParseNext(sys.api, Stamps(sys.ledger.messages)).Raises? then 1 else 0
  }

  /** The number of calls in a run that raise. */
  function Raised(sys: System, acts: seq<Act>): nat {
    if acts == [] then 0
    else
      var before := acts[..|acts| - 1];
      Raised(sys, before) + RaisedBy(PerformAll(sys, before), acts[|acts| - 1])
  }

  /** One when message 0 is another than before, or there is none any more. */
  function LostBy(log: seq<Stamp>, log': seq<Stamp>): nat {
    if log != [] && (log' == [] || log'[0] != log[0]) then 1 else 0
  }

  /** How often in a run the ledger's message 0 went away. */
  function FirstLost(sys: System, acts: seq<Act>): nat {
    if acts == [] then 0
    else
      var before := acts[..|acts| - 1];
      var mid, end := PerformAll(sys, before).ledger, PerformAll(sys, acts).ledger;
      FirstLost(sys, before) + LostBy(Stamps(mid.messages), Stamps(end.messages))
  }

  /** Whether the next call of a state raises, as a number. */
  function Pending(sys: System): nat {
    Unshared(sys.api.messages, Stamps(sys.ledger.messages))
  }

  /** A raise settles what was pending, and only a lost message 0 makes a raise pending. */
  lemma OneActRaises(mid: System, act: Act)
    requires NextCallEndsOnAPrefix(mid)
    ensures RaisedBy(mid, act) + Pending(Perform(mid, act)) <=
            Pending(mid) + LostBy(Stamps(mid.ledger.messages), Stamps(Perform(mid, act).ledger.messages))
    ensures act.ApiCall? ==> RaisedBy(mid, act) == Pending(mid) && Pending(Perform(mid, act)) == 0
  {
    if act.ApiCall? {
      var log := Stamps(mid.ledger.messages);
      var outcome := ParseNext(mid.api, log);
      var k := Least(CommonPrefix(ApiStamps(mid.api.messages), log) + 1, |log|);
      CommonPrefixOfPrefix(outcome.api.messages, log, if outcome.Raises? then 0 else k);
    }
  }

  /**
   * In every lawful run from every start: a call raises only once for the start, when message 0 is not shared there,
   * and once for each time the ledger loses its message 0.
   */
  lemma {:induction false} RaisesAreBounded(sys: System, acts: seq<Act>)
    requires Start(sys) && Lawful(sys, acts)
    ensures Raised(sys, acts) + Pending(PerformAll(sys, acts)) <= Pending(sys) + FirstLost(sys, acts)
  {
    if acts != [] {
      var before := acts[..|acts| - 1];
      RaisesAreBounded(sys, before);
      EveryCallEndsOnAPrefix(sys, before);
      OneActRaises(PerformAll(sys, before), acts[|acts| - 1]);
    }
  }

  lemma SameFirstSamePending(mid: System, end: System)
    requires mid.api == end.api && mid.ledger.messages != [] && end.ledger.messages != []
    requires mid.ledger.messages[0].stamp == end.ledger.messages[0].stamp
    ensures Pending(mid) == Pending(end)
  {
  }

  /** What the raises of a run are when message 0 of the ledger stays. */
  predicate RaisesCounted(sys: System, acts: seq<Act>, end: System) {
    && Raised(sys, acts) == (if ApiCall in acts then Pending(sys) else 0)
    && Pending(end) == (if ApiCall in acts then 0 else Pending(sys))
  }

  lemma OneActCounted(sys: System, acts: seq<Act>, act: Act, mid: System, end: System)
    requires RaisesCounted(sys, acts, mid) && mid == PerformAll(sys, acts) && end == Perform(mid, act)
    requires act.ApiCall? ==> RaisedBy(mid, act) == Pending(mid) && Pending(end) == 0
    requires act.LedgerDoes? ==> Pending(end) == Pending(mid)
    ensures RaisesCounted(sys, acts + [act], end)
  {
    assert (acts + [act])[..|acts|] == acts;
  }

  /**
   * Once the ledger has a first message that no reorganisation takes, exactly the first call of a run raises, when
   * the API starts with another message 0, and otherwise no call does.
   */
  lemma {:induction false} AtMostTheFirstCallRaises(sys: System, acts: seq<Act>)
    requires Start(sys) && Lawful(sys, acts) && sys.ledger.messages != []
    ensures RaisesCounted(sys, acts, PerformAll(sys, acts))
  {
    if acts != [] {
      var before, last := acts[..|acts| - 1], acts[|acts| - 1];
      var mid, end := PerformAll(sys, before), PerformAll(sys, acts);
      assert acts == before + [last];
      AtMostTheFirstCallRaises(sys, before);
      EveryCallEndsOnAPrefix(sys, before);
      OneActRaises(mid, last);
      FirstMessageStays(sys, before);
      FirstMessageStays(sys, acts);
      if last.LedgerDoes? { SameFirstSamePending(mid, end); }
      OneActCounted(sys, before, last, mid, end);
    }
  }

  // ---------------------------------------------------------------- message 0 lost

  /** The ledger before its first block, and an API that has parsed nothing. */
  function Beginning(): System {
    System(State([], map["blocks" := []], []), ApiState([], map["blocks" := []], [], [], []))
  }

  /** Block 10 arrives with the given hash and is journalled as NEW_BLOCK. */
  function FirstBlock(hash: string): Call {
    var record := map["block_index" := Int(10), "block_hash" := Text(hash)];
    Call(Env(10, None, 0, false), InsertRecord("blocks", record, "NEW_BLOCK", map[]))
  }

  function Orphaned(hash: string, other: string): seq<Act> {
    [LedgerDoes(Run(FirstBlock(hash))), ApiCall, LedgerDoes(Reorg(10)), LedgerDoes(Run(FirstBlock(other)))]
  }

  lemma BeginningIsAStart()
    ensures Start(Beginning())
  {
    var sys := Beginning();
    assert Stamps(sys.ledger.messages) == [] && ApiStamps(sys.api.messages) == [];
    assert forall h, asset :: Balance(sys.ledger.balances, h, asset) == 0 == Net([], h, asset);
    assert forall h, asset :: ApiQuantity(sys.api.balances, h, asset) == 0;
    assert forall t, r :: t in sys.ledger.tables && r in sys.ledger.tables[t] ==> false;
  }

  lemma FirstBlockIsLawful(hash: string)
    ensures Stamped(FirstBlock(hash).env, FirstBlock(hash).op)
    ensures Announced(Beginning().ledger, FirstBlock(hash).env, FirstBlock(hash).op)
  {
    var record := FirstBlock(hash).op.record;
    assert record + map[] == record;
    assert TableKeys("blocks") == ["block_index"];
    assert forall f :: f in ["block_index"] ==> f == "block_index";
  }

  /** What a run needs to go on lawfully. */
  ghost predicate MayEndWith(s: State, history: seq<Happening>, calls: seq<Call>) {
    && Survivors(history) == calls && Ordered(calls) && OwnSeals(s, calls) && AllAnnounced(s, calls)
       && KeepsStart(s, history)
  }

  lemma OneActMore(sys: System, acts: seq<Act>, h: Happening, calls: seq<Call>)
    requires Lawful(sys, acts) && MayEndWith(sys.ledger, LedgerHistory(acts) + [h], calls)
    ensures Lawful(sys, acts + [LedgerDoes(h)]) && LedgerHistory(acts + [LedgerDoes(h)]) == LedgerHistory(acts) + [h]
  {
    assert (acts + [LedgerDoes(h)])[..|acts|] == acts;
    assert (LedgerHistory(acts) + [h])[..|LedgerHistory(acts)|] == LedgerHistory(acts);
  }

  lemma OneWatcherCallMore(sys: System, acts: seq<Act>)
    requires Lawful(sys, acts)
    ensures Lawful(sys, acts + [ApiCall]) && LedgerHistory(acts + [ApiCall]) == LedgerHistory(acts)
  {
    assert (acts + [ApiCall])[..|acts|] == acts;
  }

  lemma OneCallRuns(s: State, c: Call)
    ensures RunCalls(s, []) == s && RunCalls(s, [c]) == Step(s, c.env, c.op)
    ensures Stamped(c.env, c.op) ==> Ordered([c])
    ensures OwnSeal(s, c.env, c.op) ==> OwnSeals(s, [c])
    ensures Announced(s, c.env, c.op) ==> AllAnnounced(s, [c])
  {
    assert [c][..0] == [];
  }

  lemma SurvivorsOfMore(history: seq<Happening>, h: Happening)
    ensures h.Run? ==> Survivors(history + [h]) == Survivors(history) + [h.call]
    ensures h.Reorg? ==> Survivors(history + [h]) == CallsBelow(Survivors(history), h.n)
  {
    assert (history + [h])[..|history|] == history;
  }

  lemma OneOrphan(s: State, a: Call, b: Call)
    requires a.env.blockIndex == 10 && SettledBelow(s, 10)
    requires Stamped(a.env, a.op) && OwnSeal(s, a.env, a.op) && Announced(s, a.env, a.op)
    requires Stamped(b.env, b.op) && OwnSeal(s, b.env, b.op) && Announced(s, b.env, b.op)
    ensures MayEndWith(s, [] + [Run(a)], [a])
    ensures MayEndWith(s, [] + [Run(a)] + [Reorg(10)], [])
    ensures MayEndWith(s, [] + [Run(a)] + [Reorg(10)] + [Run(b)], [b])
  {
    OneCallRuns(s, a);
    OneCallRuns(s, b);
    SurvivorsOfMore([], Run(a));
    assert [a][..0] == [] && CallsBelow([a], 10) == [];
    SurvivorsOfMore([] + [Run(a)], Reorg(10));
    SurvivorsOfMore([] + [Run(a)] + [Reorg(10)], Run(b));
  }

  /** A block whose only call is undone and replaced is a lawful run, with a watcher call in between. */
  lemma OneOrphanIsLawful(sys: System, a: Call, b: Call)
    requires a.env.blockIndex == 10 && SettledBelow(sys.ledger, 10)
    requires Stamped(a.env, a.op) && OwnSeal(sys.ledger, a.env, a.op) && Announced(sys.ledger, a.env, a.op)
    requires Stamped(b.env, b.op) && OwnSeal(sys.ledger, b.env, b.op) && Announced(sys.ledger, b.env, b.op)
    ensures Lawful(sys, [LedgerDoes(Run(a)), ApiCall, LedgerDoes(Reorg(10)), LedgerDoes(Run(b))])
  {
    OneOrphan(sys.ledger, a, b);
    assert Lawful(sys, []) by { OneCallRuns(sys.ledger, a); }
    var acts, history := [], [];
    assert LedgerHistory(acts) == history;
    OneActMore(sys, acts, Run(a), [a]);
    acts, history := acts + [LedgerDoes(Run(a))], history + [Run(a)];
    OneWatcherCallMore(sys, acts);
    acts := acts + [ApiCall];
    OneActMore(sys, acts, Reorg(10), []);
    acts, history := acts + [LedgerDoes(Reorg(10))], history + [Reorg(10)];
    OneActMore(sys, acts, Run(b), [b]);
    assert acts + [LedgerDoes(Run(b))] == [LedgerDoes(Run(a)), ApiCall, LedgerDoes(Reorg(10)), LedgerDoes(Run(b))];
  }

  lemma PerformUpTo(sys: System, acts: seq<Act>, k: nat)
    requires k < |acts|
    ensures PerformAll(sys, acts[..k + 1]) == Perform(PerformAll(sys, acts[..k]), acts[k])
  {
    assert acts[..k + 1][..k] == acts[..k];
  }

  lemma FirstBlockIsStored(s: State, hash: string)
    requires s == Beginning().ledger
    ensures var c := FirstBlock(hash); var messages := Step(s, c.env, c.op).messages;
            && |messages| == 1 && Cell(messages[0].stamp.content.bindings, "block_hash") == Text(hash)
            && messages[0].stamp.content.blockIndex == 10 && messages[0].stamp.content.messageIndex == 0
  {
  }

  lemma FirstEventIsParsed(s: ApiState, log: seq<Stamp>)
    requires s.messages == [] && |log| == 1 && log[0].content.messageIndex == 0
    ensures var api := ParseNext(s, log).api; |api.messages| == 1 && api.messages[0].stamp == log[0]
  {
    assert FindStamp(log, 0) == Some(log[0]);
    ParseShape(s, log[0]);
  }

  lemma FourActs(sys: System, acts: seq<Act>, a: Call, b: Call, fed: System, unfed: System)
    requires |acts| == 4 && acts[0] == LedgerDoes(Run(a)) && acts[1] == ApiCall
    requires acts[2] == LedgerDoes(Reorg(10)) && acts[3] == LedgerDoes(Run(b))
    requires fed == Perform(Perform(sys, LedgerDoes(Run(a))), ApiCall)
    requires unfed == Perform(fed, LedgerDoes(Reorg(10)))
    ensures PerformAll(sys, acts) == Perform(unfed, LedgerDoes(Run(b)))
  {
    PerformUpTo(sys, acts, 0);
    PerformUpTo(sys, acts, 1);
    PerformUpTo(sys, acts, 2);
    PerformUpTo(sys, acts, 3);
    assert acts[..4] == acts;
  }

  lemma DifferentFirst(messages: seq<ApiMessage>, log: seq<Stamp>)
    requires |messages| == 1 && |log| == 1
    requires Cell(messages[0].stamp.content.bindings, "block_hash") != Cell(log[0].content.bindings, "block_hash")
    ensures !SharesFirst(messages, log)
  {
  }

  lemma FirstMessages(hash: string, other: string)
    requires hash != other
    ensures var end := PerformAll(Beginning(), Orphaned(hash, other));
            !SharesFirst(end.api.messages, Stamps(end.ledger.messages))
  {
    var sys, a, b := Beginning(), FirstBlock(hash), FirstBlock(other);
    var grown := Perform(sys, LedgerDoes(Run(a)));
    var fed := Perform(grown, ApiCall);
    var unfed := Perform(fed, LedgerDoes(Reorg(10)));
    var end := Perform(unfed, LedgerDoes(Run(b)));
    FourActs(sys, Orphaned(hash, other), a, b, fed, unfed);
    FirstBlockIsStored(sys.ledger, hash);
    FirstEventIsParsed(sys.api, Stamps(grown.ledger.messages));
    FirstBlockIsForgotten(hash);
    assert unfed.ledger == sys.ledger;
    FirstBlockIsStored(unfed.ledger, other);
    DifferentFirst(end.api.messages, Stamps(end.ledger.messages));
  }

  lemma FirstBlockIsForgotten(hash: string)
    ensures var c := FirstBlock(hash); Rollback(Step(Beginning().ledger, c.env, c.op), 10) == Beginning().ledger
  {
    var c, s := FirstBlock(hash), Beginning().ledger;
    FirstBlockIsLawful(hash);
    assert Rollback(s, 10) == s;
    StepAboveIsForgotten(s, c.env, c.op, 10);
  }

  /**
   * When the very first block is replaced, the next call of the watcher that has parsed its first event raises.
   * That call leaves an empty log, and the call after it returns.
   */
  lemma FirstBlockOrphaned(hash: string, other: string)
    requires hash != other
    ensures Start(Beginning()) && Lawful(Beginning(), Orphaned(hash, other))
    ensures var end := PerformAll(Beginning(), Orphaned(hash, other)); var log := Stamps(end.ledger.messages);
            ParseNext(end.api, log).Raises? && ParseNext(ParseNext(end.api, log).api, log).Returns?
  {
    var sys := Beginning();
    BeginningIsAStart();
    FirstBlockIsLawful(hash);
    FirstBlockIsLawful(other);
    OneOrphanIsLawful(sys, FirstBlock(hash), FirstBlock(other));
    EveryCallEndsOnAPrefix(sys, Orphaned(hash, other));
    FirstMessages(hash, other);
    var end := PerformAll(sys, Orphaned(hash, other));
    ApiStaysSound(sys, Orphaned(hash, other));
    LedgerStaysFollowable(sys, Orphaned(hash, other));
    CallAfterRaiseReturns(end.api, Stamps(end.ledger.messages), Stamps(end.ledger.messages));
  }

  // ---------------------------------------------------------------- balances

  /**
   * Whenever the two logs are equal, after any interleaving in which no surviving credit was clipped, the
   * API's in-place balances are the ledger's latest rows for every holder and asset; at every moment the
   * API holds one row per key and its quantities are the net movements of its own log.
   */
  lemma EqualLogsEqualBalances(sys: System, acts: seq<Act>)
    requires Start(sys) && Lawful(sys, acts)
    requires ProperRun(sys.ledger, Survivors(LedgerHistory(acts)))
    ensures var end := PerformAll(sys, acts);
            && ApiBooks(end.api)
            && (ApiStamps(end.api.messages) == Stamps(end.ledger.messages) ==>
                  forall h, asset :: ApiQuantity(end.api.balances, h, asset) == Balance(end.ledger.balances, h, asset))
  {
    var end := PerformAll(sys, acts);
    ApiStaysSound(sys, acts);
    LedgerIsReplayed(sys, acts);
    ReorgsLeaveNoTrace(sys.ledger, LedgerHistory(acts));
    RunMatchesJournal(sys.ledger, Survivors(LedgerHistory(acts)));
    if ApiStamps(end.api.messages) == Stamps(end.ledger.messages) {
      EqualBooks(end.api, end.ledger);
    }
  }

  lemma EqualBooks(api: ApiState, s: State)
    requires ApiBooks(api) && BooksMatchJournal(s) && ApiStamps(api.messages) == Stamps(s.messages)
    ensures forall h, asset :: ApiQuantity(api.balances, h, asset) == Balance(s.balances, h, asset)
  {
    forall h, asset
      ensures ApiQuantity(api.balances, h, asset) == Balance(s.balances, h, asset)
    {
      assert Balance(s.balances, h, asset) == Net(Stamps(s.messages), h, asset);
    }
  }

  lemma LastCall(s: ApiState, log: seq<Stamp>, n: nat)
    requires n > 0
    ensures ParseNextTimes(s, log, n) == ParseNext(ParseNextTimes(s, log, n - 1), log).api
  {
  }

  lemma {:induction false} QuietCallsKeepBooks(s: ApiState, log: seq<Stamp>, n: nat, after: ApiState)
    requires Sound(s) && ApiBooks(s) && Chained(log) && WellFormedLog(log) && after == ParseNextTimes(s, log, n)
    ensures Sound(after) && ApiBooks(after)
    decreases n
  {
    if n > 0 {
      var before := ParseNextTimes(s, log, n - 1);
      QuietCallsKeepBooks(s, log, n - 1, before);
      LastCall(s, log, n);
      OneCallKeepsBooks(before, log, after);
    }
  }

  /**
   * Whatever happened before, and whatever was raised: as many quiet calls as the ledger log is longer than the common
   * prefix, one more when message 0 is not shared, and at least one, leave both databases with the same log and the
   * same balances.
   */
  lemma QuietDatabasesAgree(sys: System, acts: seq<Act>, n: nat)
    requires Start(sys) && Lawful(sys, acts)
    requires ProperRun(sys.ledger, Survivors(LedgerHistory(acts)))
    requires var end := PerformAll(sys, acts); var log := Stamps(end.ledger.messages);
             n > 0 && n >= |log| - CommonPrefix(ApiStamps(end.api.messages), log) + Pending(end)
    ensures var end := PerformAll(sys, acts); var log := Stamps(end.ledger.messages);
            var quiet := ParseNextTimes(end.api, log, n);
            && ApiStamps(quiet.messages) == log
            && forall h, asset :: ApiQuantity(quiet.balances, h, asset) == Balance(end.ledger.balances, h, asset)
  {
    var end := PerformAll(sys, acts);
    var log := Stamps(end.ledger.messages);
    ApiStaysSound(sys, acts);
    LedgerStaysFollowable(sys, acts);
    QuietLedgerIsCaughtUp(end.api, log, n);
    QuietCallsKeepBooks(end.api, log, n, ParseNextTimes(end.api, log, n));
    LedgerIsReplayed(sys, acts);
    ReorgsLeaveNoTrace(sys.ledger, LedgerHistory(acts));
    RunMatchesJournal(sys.ledger, Survivors(LedgerHistory(acts)));
    EqualBooks(ParseNextTimes(end.api, log, n), end.ledger);
  }
}
