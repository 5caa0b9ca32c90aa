/** Following a reorganising chain: the fork search, the rollback and the catch-up loop. */
module Blocks {
  import opened Records
  import opened Ledger
  import opened LedgerRollback

  /** A block hash covers the block and, through its parent, everything before it. */
  datatype BlockHash = Root | HashOf(block: Block)

  datatype Block = Block(body: int, prev: BlockHash)

  /** The consensus hash of a block covers what it did to the ledger and the hash before it. */
  datatype ConsensusHash = Seed | Consensus(previous: ConsensusHash, content: seq<Call>)

  /** A row of the `blocks` table. */
  datatype BlockRow = BlockRow(index: int, block: Block, ledgerHash: ConsensusHash)

  /** The handlers: what parsing a block at a height does to a database, a function of the two. */
  type Parser = (State, Block, int) -> seq<Call>

  /** A parsed block stamps its own height and changes no row of another block. */
  ghost predicate ParsesAt(parse: Parser, s: State, b: Block, h: int) {
    OwnSeals(s, parse(s, b, h)) && forall c :: c in parse(s, b, h) ==> c.env.blockIndex == h && Stamped(c.env, c.op)
  }

  /** Each block names its parent by hash. */
  predicate Linked(chain: seq<Block>) {
    forall i :: 0 < i < |chain| ==> chain[i].prev == HashOf(chain[i - 1])
  }

  function BlocksOf(rows: seq<BlockRow>): (chain: seq<Block>)
    ensures |chain| == |rows| && forall i :: 0 <= i < |rows| ==> chain[i] == rows[i].block
  {
    seq(|rows|, i requires 0 <= i < |rows| => rows[i].block)
  }

  function RowsBelow(rows: seq<BlockRow>, n: int): seq<BlockRow> {
    if rows == [] then []
    else
      var rest, last := RowsBelow(rows[..|rows| - 1], n), rows[|rows| - 1];
      if last.index >= n then rest else rest + [last]
  }

  /** The ledger of a node that parsed a chain once, from its first block to its last. */
  function ReplayChain(initial: State, parse: Parser, chain: seq<Block>, blockFirst: int): State {
    if chain == [] then initial
    else
      var before := ReplayChain(initial, parse, chain[..|chain| - 1], blockFirst);
      RunCalls(before, parse(before, chain[|chain| - 1], blockFirst + |chain| - 1))
  }

  /** The next block of a linked chain is parsed well by a node that has parsed the chain. */
  ghost predicate ParsesNext(initial: State, parse: Parser, chain: seq<Block>, b: Block, blockFirst: int) {
    Linked(chain + [b]) ==> ParsesAt(parse, ReplayChain(initial, parse, chain, blockFirst), b, blockFirst + |chain|)
  }

  /** Handlers that parse well in every state that a chain leads to. */
  ghost predicate GoodParser(initial: State, parse: Parser, blockFirst: int) {
    forall chain, b :: ParsesNext(initial, parse, chain, b, blockFirst)
  }

  // ---------------------------------------------------------------- hash-linked chains

  /** In linked chains one equal block makes everything before it equal. */
  lemma {:induction false} LinkedEqualBelow(a: seq<Block>, b: seq<Block>, i: nat, j: nat)
    requires Linked(a) && Linked(b) && j <= i < |a| && i < |b| && a[i] == b[i]
    ensures a[j] == b[j]
    decreases i
  {
    if j < i {
      assert HashOf(a[i - 1]) == a[i].prev == b[i].prev == HashOf(b[i - 1]);
      LinkedEqualBelow(a, b, i - 1, j);
    }
  }

  lemma ForkIsCommonPrefix(a: seq<Block>, b: seq<Block>, k: nat)
    requires Linked(a) && Linked(b) && 0 < k <= |a| && k <= |b|
    requires a[k - 1] == b[k - 1]
    requires k == |a| || k == |b| || a[k] != b[k]
    ensures CommonPrefix(a, b) == k
  {
    forall j | 0 <= j < k
      ensures a[j] == b[j]
    {
      LinkedEqualBelow(a, b, k - 1, j);
    }
  }

  // ---------------------------------------------------------------- rollback of a replayed chain

  predicate Indexed(rows: seq<BlockRow>, blockFirst: int) {
    forall i :: 0 <= i < |rows| ==> rows[i].index == blockFirst + i
  }

  lemma {:induction false} RowsBelowIsPrefix(rows: seq<BlockRow>, blockFirst: int, k: nat)
    requires Indexed(rows, blockFirst) && k <= |rows|
    ensures RowsBelow(rows, blockFirst + k) == rows[..k]
  {
    if rows != [] {
      if k == |rows| {
        assert RowsBelow(rows[..k - 1], blockFirst + k) == rows[..k - 1] by {
          RowsAllBelow(rows[..k - 1], blockFirst + k);
        }
        assert rows == rows[..k - 1] + [rows[k - 1]];
      } else {
        RowsBelowIsPrefix(rows[..|rows| - 1], blockFirst, k);
      }
    }
  }

  lemma {:induction false} RowsAllBelow(rows: seq<BlockRow>, n: int)
    requires forall r :: r in rows ==> r.index < n
    ensures RowsBelow(rows, n) == rows
  {
    if rows != [] { RowsAllBelow(rows[..|rows| - 1], n); }
  }

  lemma {:induction false} CallsAboveAreForgotten(s: State, calls: seq<Call>, n: int)
    requires OwnSeals(s, calls) && forall c :: c in calls ==> Stamped(c.env, c.op) && n <= c.env.blockIndex
    ensures Rollback(RunCalls(s, calls), n) == Rollback(s, n)
  {
    if calls != [] {
      var rest, last := calls[..|calls| - 1], calls[|calls| - 1];
      CallsAboveAreForgotten(s, rest, n);
      StepAboveIsForgotten(RunCalls(s, rest), last.env, last.op, n);
    }
  }

  /** Nothing in the starting database belongs to a block of the chain. */
  ghost predicate SettledStart(initial: State, blockFirst: int) {
    forall n :: n > blockFirst ==> SettledBelow(initial, n)
  }

  lemma BlockAboveIsForgotten(parse: Parser, s: State, b: Block, h: int, n: int)
    requires ParsesAt(parse, s, b, h) && n <= h
    ensures Rollback(RunCalls(s, parse(s, b, h)), n) == Rollback(s, n)
  {
    CallsAboveAreForgotten(s, parse(s, b, h), n);
  }

  lemma BlockBelowStaysSettled(parse: Parser, s: State, b: Block, h: int, n: int)
    requires ParsesAt(parse, s, b, h) && h < n && SettledBelow(s, n)
    ensures SettledBelow(RunCalls(s, parse(s, b, h)), n)
  {
    CallsBelowStaySettled(s, parse(s, b, h), n);
  }

  lemma LastParsesWell(initial: State, parse: Parser, chain: seq<Block>, blockFirst: int)
    requires GoodParser(initial, parse, blockFirst) && Linked(chain) && chain != []
    ensures var n := |chain| - 1;
            ParsesAt(parse, ReplayChain(initial, parse, chain[..n], blockFirst), chain[n], blockFirst + |chain| - 1)
    ensures Linked(chain[..|chain| - 1])
  {
    var n := |chain| - 1;
    assert chain == chain[..n] + [chain[n]];
    assert ParsesNext(initial, parse, chain[..n], chain[n], blockFirst);
  }

  lemma {:induction false} ReplayStaysSettled(initial: State, parse: Parser, chain: seq<Block>, blockFirst: int, n: int)
    requires GoodParser(initial, parse, blockFirst) && SettledStart(initial, blockFirst) && Linked(chain)
    requires n > blockFirst && blockFirst + |chain| <= n
    ensures SettledBelow(ReplayChain(initial, parse, chain, blockFirst), n)
  {
    if chain != [] {
      var rest, h := chain[..|chain| - 1], blockFirst + |chain| - 1;
      LastParsesWell(initial, parse, chain, blockFirst);
      ReplayStaysSettled(initial, parse, rest, blockFirst, n);
      var before := ReplayChain(initial, parse, rest, blockFirst);
      BlockBelowStaysSettled(parse, before, chain[|chain| - 1], h, n);
    }
  }

  lemma LastOfReplay(initial: State, parse: Parser, chain: seq<Block>, blockFirst: int, before: State, b: Block, h: int)
    requires chain != [] && h == blockFirst + |chain| - 1 && b == chain[|chain| - 1]
    requires before == ReplayChain(initial, parse, chain[..|chain| - 1], blockFirst)
    ensures ReplayChain(initial, parse, chain, blockFirst) == RunCalls(before, parse(before, b, h))
  {
  }

  /** What a block on top of a chain did is forgotten with it. */
  lemma LastBlockIsForgotten(initial: State, parse: Parser, chain: seq<Block>, blockFirst: int, before: State, h: int,
                             n: int)
    requires chain != [] && h == blockFirst + |chain| - 1 && n <= h
    requires before == ReplayChain(initial, parse, chain[..|chain| - 1], blockFirst)
    requires ParsesAt(parse, before, chain[|chain| - 1], h)
    ensures Rollback(ReplayChain(initial, parse, chain, blockFirst), n) == Rollback(before, n)
  {
    var b := chain[|chain| - 1];
    BlockAboveIsForgotten(parse, before, b, h, n);
    LastOfReplay(initial, parse, chain, blockFirst, before, b, h);
  }

  /** Rolling a replayed chain back to its k-th block is replaying the first k blocks. */
  lemma {:induction false} RollbackReplay(initial: State, parse: Parser, chain: seq<Block>, blockFirst: int, k: nat)
    requires GoodParser(initial, parse, blockFirst) && SettledStart(initial, blockFirst) && Linked(chain)
    requires 0 < k <= |chain|
    ensures Rollback(ReplayChain(initial, parse, chain, blockFirst), blockFirst + k) ==
            ReplayChain(initial, parse, chain[..k], blockFirst)
  {
    if k == |chain| {
      assert chain[..k] == chain;
      ReplayStaysSettled(initial, parse, chain, blockFirst, blockFirst + k);
    } else {
      var rest := chain[..|chain| - 1];
      assert rest[..k] == chain[..k];
      LastParsesWell(initial, parse, chain, blockFirst);
      var before, h := ReplayChain(initial, parse, rest, blockFirst), blockFirst + |chain| - 1;
      LastBlockIsForgotten(initial, parse, chain, blockFirst, before, h, blockFirst + k);
      RollbackReplay(initial, parse, rest, blockFirst, k);
    }
  }

  lemma RolledBackState(initial: State, parse: Parser, rows: seq<BlockRow>, blockFirst: int, height: int)
    requires GoodParser(initial, parse, blockFirst) && SettledStart(initial, blockFirst)
    requires Indexed(rows, blockFirst) && Linked(BlocksOf(rows))
    requires blockFirst < height <= blockFirst + |rows|
    ensures RowsBelow(rows, height) == rows[..height - blockFirst]
    ensures Linked(BlocksOf(rows[..height - blockFirst]))
    ensures Rollback(ReplayChain(initial, parse, BlocksOf(rows), blockFirst), height) ==
            ReplayChain(initial, parse, BlocksOf(rows[..height - blockFirst]), blockFirst)
  {
    var k := height - blockFirst;
    RowsBelowIsPrefix(rows, blockFirst, k);
    RollbackReplay(initial, parse, BlocksOf(rows), blockFirst, k);
    assert BlocksOf(rows)[..k] == BlocksOf(rows[..k]);
  }

  /** Every row's hash covers the calls that its block was parsed into, on top of the rows before it. */
  ghost predicate CoversCalls(initial: State, parse: Parser, rows: seq<BlockRow>, blockFirst: int) {
    rows == [] ||
    var rest, last := rows[..|rows| - 1], rows[|rows| - 1];
    && CoversCalls(initial, parse, rest, blockFirst) && last.ledgerHash.Consensus?
    && last.ledgerHash.content ==
       parse(ReplayChain(initial, parse, BlocksOf(rest), blockFirst), last.block, blockFirst + |rest|)
  }

  lemma {:induction false} PrefixCoversCalls(initial: State, parse: Parser, rows: seq<BlockRow>, blockFirst: int,
                                             k: nat)
    requires CoversCalls(initial, parse, rows, blockFirst) && k <= |rows|
    ensures CoversCalls(initial, parse, rows[..k], blockFirst)
  {
    if k == |rows| {
      assert rows[..k] == rows;
    } else {
      assert rows[..|rows| - 1][..k] == rows[..k];
      PrefixCoversCalls(initial, parse, rows[..|rows| - 1], blockFirst, k);
    }
  }

  lemma OneMoreCovers(initial: State, parse: Parser, rows: seq<BlockRow>, row: BlockRow, blockFirst: int)
    requires CoversCalls(initial, parse, rows, blockFirst) && row.ledgerHash.Consensus?
    requires row.ledgerHash.content ==
             parse(ReplayChain(initial, parse, BlocksOf(rows), blockFirst), row.block, blockFirst + |rows|)
    ensures CoversCalls(initial, parse, rows + [row], blockFirst)
  {
    assert (rows + [row])[..|rows + [row]| - 1] == rows;
  }

  /** The next row with its block parsed. */
  lemma RowMore(initial: State, parse: Parser, rows: seq<BlockRow>, row: BlockRow, blockFirst: int)
    requires Linked(BlocksOf(rows)) && (rows != [] ==> row.block.prev == HashOf(rows[|rows| - 1].block))
    requires CoversCalls(initial, parse, rows, blockFirst) && row.ledgerHash.Consensus?
    requires row.ledgerHash.content ==
             parse(ReplayChain(initial, parse, BlocksOf(rows), blockFirst), row.block, blockFirst + |rows|)
    ensures Linked(BlocksOf(rows + [row])) && CoversCalls(initial, parse, rows + [row], blockFirst)
    ensures var before := ReplayChain(initial, parse, BlocksOf(rows), blockFirst);
            ReplayChain(initial, parse, BlocksOf(rows + [row]), blockFirst) ==
            RunCalls(before, parse(before, row.block, blockFirst + |rows|))
  {
    var chain := BlocksOf(rows) + [row.block];
    assert chain[..|chain| - 1] == BlocksOf(rows) && BlocksOf(rows + [row]) == chain;
    var before := ReplayChain(initial, parse, BlocksOf(rows), blockFirst);
    LastOfReplay(initial, parse, chain, blockFirst, before, row.block, blockFirst + |rows|);
    OneMoreCovers(initial, parse, rows, row, blockFirst);
  }

  // ---------------------------------------------------------------- the node

  function LastHash(rows: seq<BlockRow>): ConsensusHash {
    if rows == [] then Seed else rows[|rows| - 1].ledgerHash
  }

  /** Every row's consensus hash continues the row before it. */
  predicate HashChained(rows: seq<BlockRow>) {
    rows == [] ||
    var rest, h := rows[..|rows| - 1], rows[|rows| - 1].ledgerHash;
    HashChained(rest) && h.Consensus? && h.previous == LastHash(rest)
  }

  class BlockParser {
    const blockFirst: int
    const initial: State
    const parse: Parser
    var blocks: seq<BlockRow>
    var ledger: State
    var currentBlockIndex: int

    ghost predicate Valid()
      reads this
    {
      && GoodParser(initial, parse, blockFirst) && SettledStart(initial, blockFirst)
      && Indexed(blocks, blockFirst) && Linked(BlocksOf(blocks)) && currentBlockIndex == blockFirst + |blocks| - 1
      && ledger == ReplayChain(initial, parse, BlocksOf(blocks), blockFirst)
      && CoversCalls(initial, parse, blocks, blockFirst)
    }

    constructor (blockFirst: int, initial: State, parse: Parser)
      requires GoodParser(initial, parse, blockFirst) && SettledStart(initial, blockFirst)
      ensures Valid() && blocks == [] && this.blockFirst == blockFirst && this.initial == initial && this.parse == parse
    {
      this.blockFirst, this.initial, this.parse := blockFirst, initial, parse;
      blocks, ledger, currentBlockIndex := [], initial, blockFirst - 1;
    }

    /** `getblockhash` at a height of the backend's chain. */
    function BackendBlock(chain: seq<Block>, height: int): Block
      requires blockFirst <= height < blockFirst + |chain|
    {
      chain[height - blockFirst]
    }

    /** The last height at which the table and the backend agree, searched downwards. */
    method FindFork(chain: seq<Block>) returns (height: int)
      requires Valid() && Linked(chain) && 0 < |blocks| <= |chain| && chain[0] == blocks[0].block
      ensures height == blockFirst + CommonPrefix(BlocksOf(blocks), chain) - 1 && height >= blockFirst
    {
      height := currentBlockIndex;
      while BackendBlock(chain, height) != blocks[height - blockFirst].block
        invariant blockFirst <= height < blockFirst + |blocks|
        invariant height < currentBlockIndex ==> chain[height + 1 - blockFirst] != blocks[height + 1 - blockFirst].block
        decreases height - blockFirst
      {
        height := height - 1;
      }
      ForkIsCommonPrefix(BlocksOf(blocks), chain, height - blockFirst + 1);
    }

    /** Cleans the tables, or at the first block drops and creates them again. */
    method RollbackTo(height: int)
      requires Valid() && height <= currentBlockIndex + 1
      modifies this
      ensures Valid() && currentBlockIndex == (if height <= blockFirst then blockFirst else height) - 1
      ensures blocks == if height <= blockFirst then [] else old(blocks)[..height - blockFirst]
    {
      var n := if height <= blockFirst then blockFirst else height;
      if n == blockFirst {
        blocks, ledger := [], initial;
      } else {
        RolledBackState(initial, parse, blocks, blockFirst, n);
        PrefixCoversCalls(initial, parse, blocks, blockFirst, n - blockFirst);
        blocks := RowsBelow(blocks, n);
        ledger := Rollback(ledger, n);
      }
      currentBlockIndex := n - 1;
    }

    /** The block row, the calls of its handlers and the consensus hash over them, all or nothing. */
    method InsertBlock(block: Block, previousHash: ConsensusHash)
      requires Valid() && (blocks != [] ==> block.prev == HashOf(blocks[|blocks| - 1].block))
      modifies this
      ensures Valid() && |blocks| == |old(blocks)| + 1 && blocks[..|old(blocks)|] == old(blocks)
      ensures blocks[|old(blocks)|].block == block
      ensures blocks[|old(blocks)|].ledgerHash.Consensus? && blocks[|old(blocks)|].ledgerHash.previous == previousHash
      ensures var content := blocks[|old(blocks)|].ledgerHash.content;
              content == parse(old(ledger), block, currentBlockIndex) && ledger == RunCalls(old(ledger), content)
    {
      var height := currentBlockIndex + 1;
      var calls := parse(ledger, block, height);
      RowMore(initial, parse, blocks, BlockRow(height, block, Consensus(previousHash, calls)), blockFirst);
      ledger := RunCalls(ledger, calls);
      blocks := blocks + [BlockRow(height, block, Consensus(previousHash, calls))];
      currentBlockIndex := height;
    }

    /** A decoded block goes on from the table: it is the first one, or its parent is the last row. */
    predicate GoesOn(decoded: Block)
      reads this
    {
      blocks == [] || decoded.prev == HashOf(blocks[|blocks| - 1].block)
    }

    predicate Known(decoded: Block)
      reads this
    {
      exists i :: 0 <= i < |blocks| && blocks[i].block == decoded
    }

    predicate HasParent(decoded: Block)
      reads this
    {
      exists i :: 0 <= i < |blocks| && decoded.prev == HashOf(blocks[i].block)
    }

    /** A block that is in the table, or that comes with an unknown parent in a chain no longer than the table. */
    predicate Ignores(chain: seq<Block>, decoded: Block)
      reads this
    {
      Known(decoded) || (!HasParent(decoded) && |chain| <= |blocks|)
    }

    /** What the fork search asks of the backend: the table's first block, and a block above the fork. */
    predicate HasFork(chain: seq<Block>)
      reads this
    {
      && 0 < |blocks| <= |chain| && Linked(chain) && chain[0] == blocks[0].block
      && CommonPrefix(BlocksOf(blocks), chain) < |chain|
    }

    /**
     * Parses any block: one that goes on from the table is added; for any other the table first goes back to the fork
     * with the backend's chain, and the backend's block above the fork is parsed in its place. `previousHash` is
     * read before the fork search and not read again after it.
     */
    method ParseNewBlock(chain: seq<Block>, decoded: Block) returns (parsedIndex: int)
      requires Valid() && (GoesOn(decoded) || HasFork(chain))
      modifies this
      ensures Valid() && parsedIndex == currentBlockIndex
      ensures old(GoesOn(decoded)) ==>
                && |blocks| == |old(blocks)| + 1 && blocks[..|old(blocks)|] == old(blocks)
                && BlocksOf(blocks) == BlocksOf(old(blocks)) + [decoded]
      ensures !old(GoesOn(decoded)) ==>
                var k := CommonPrefix(BlocksOf(old(blocks)), chain);
                BlocksOf(blocks) == chain[..k + 1] && blocks[..k] == old(blocks)[..k]
      ensures HashChained(old(blocks)) ==> (HashChained(blocks) <==> |blocks| == |old(blocks)| + 1)
    {
      ghost var before := blocks;
      var previousHash := if blocks == [] then Seed else blocks[|blocks| - 1].ledgerHash;
      var block := GoToFork(chain, decoded);
      ghost var k := |blocks|;
      InsertBlock(block, previousHash);
      parsedIndex := currentBlockIndex;
      BlocksOfMore(before, blocks, k, block);
      assert BlocksOf(before)[..k] == if k == |before| then BlocksOf(before) else chain[..k];
      if HashChained(before) {
        ChainedIffNoReorg(before, blocks[k], k);
      }
    }

    /** The block to parse: the decoded one, or the backend's next one after going back to the fork. */
    method GoToFork(chain: seq<Block>, decoded: Block) returns (block: Block)
      requires Valid() && (GoesOn(decoded) || HasFork(chain))
      modifies this
      ensures Valid() && GoesOn(block)
      ensures old(GoesOn(decoded)) ==> block == decoded && blocks == old(blocks)
      ensures !old(GoesOn(decoded)) ==>
                var k := CommonPrefix(BlocksOf(old(blocks)), chain);
                && k < |chain| && block == chain[k]
                && blocks == old(blocks)[..k] && BlocksOf(old(blocks))[..k] == chain[..k]
    {
      block := decoded;
      if currentBlockIndex + 1 > blockFirst {
        if decoded.prev != HashOf(blocks[|blocks| - 1].block) {
          ghost var table, k := BlocksOf(blocks), CommonPrefix(BlocksOf(blocks), chain);
          var fork := FindFork(chain);
          block := BackendBlock(chain, fork + 1);
          RollbackTo(fork + 1);
          assert table[..k] == chain[..k];
        }
      }
    }

    /** Parses the backend's block at the height after the current one. */
    method ParseFetched(chain: seq<Block>, decoded: Block) returns (parsedIndex: int)
      requires Valid() && Linked(chain) && |blocks| < |chain| && decoded == chain[|blocks|]
      requires blocks != [] ==> chain[0] == blocks[0].block
      modifies this
      ensures Valid() && parsedIndex == currentBlockIndex
      ensures BlocksOf(blocks) == chain[..CommonPrefix(BlocksOf(old(blocks)), chain) + 1]
      ensures CommonPrefix(BlocksOf(blocks), chain) == |blocks|
      ensures |blocks| == |chain| ==> BlocksOf(blocks) == chain
    {
      ghost var k := CommonPrefix(BlocksOf(blocks), chain);
      if blocks != [] { GoesOnIffPrefix(blocks, chain); }
      parsedIndex := ParseNewBlock(chain, decoded);
      assert BlocksOf(blocks) == chain[..k + 1];
      PrefixOfChain(chain, k + 1);
    }

    /** Takes the blocks from a fetcher that restarts after each reorganisation, until the table is the chain. */
    method CatchUp(chain: seq<Block>)
      requires Valid() && Linked(chain) && (blocks != [] && chain != [] ==> chain[0] == blocks[0].block)
      modifies this
      ensures Valid()
      ensures |old(blocks)| < |chain| ==>
                BlocksOf(blocks) == chain && ledger == ReplayChain(initial, parse, chain, blockFirst)
      ensures |old(blocks)| >= |chain| ==> blocks == old(blocks) && ledger == old(ledger)
    {
      var blockCount := blockFirst + |chain| - 1;
      var fetchHeight := currentBlockIndex + 1;
      while currentBlockIndex < blockCount
        invariant Valid() && fetchHeight == currentBlockIndex + 1
        invariant |blocks| <= |chain| || blocks == old(blocks)
        invariant blocks != [] && chain != [] ==> chain[0] == blocks[0].block
        invariant |old(blocks)| >= |chain| ==> blocks == old(blocks) && ledger == old(ledger)
        invariant |old(blocks)| < |chain| ==> |blocks| < |chain| || BlocksOf(blocks) == chain
        decreases |chain| - CommonPrefix(BlocksOf(blocks), chain)
      {
        var height := fetchHeight;
        fetchHeight := fetchHeight + 1;
        var parsedIndex := ParseFetched(chain, BackendBlock(chain, height));
        if parsedIndex < height {
          fetchHeight := currentBlockIndex + 1;
        } else {
          assert parsedIndex == height;
        }
      }
    }

    /**
     * A block announced by the backend: nothing for a known block, `parse_new_block` for one whose parent is known,
     * and catching up for any other. Catching up waits for a chain longer than the table; the fork search asks the
     * backend for a block as high as the table's last.
     */
    method ReceiveRawBlock(chain: seq<Block>, decoded: Block)
      requires Valid() && Linked(chain) && decoded in chain
      requires !Known(decoded) && HasParent(decoded) ==> |blocks| <= |chain|
      requires blocks != [] ==> chain[0] == blocks[0].block
      modifies this
      ensures Valid()
      ensures old(Ignores(chain, decoded)) ==> blocks == old(blocks) && ledger == old(ledger)
      ensures !old(Ignores(chain, decoded)) ==>
                BlocksOf(blocks) <= chain && |blocks| > CommonPrefix(BlocksOf(old(blocks)), chain)
    {
      if Known(decoded) { return; }
      MissingBlockIsAbove(blocks, chain, decoded);
      if !HasParent(decoded) {
        CatchUp(chain);
        return;
      }
      ParseChild(chain, decoded);
    }

    method ParseChild(chain: seq<Block>, decoded: Block)
      requires Valid() && blocks != [] && Linked(chain) && decoded in chain && decoded !in BlocksOf(blocks)
      requires |blocks| <= |chain| && chain[0] == blocks[0].block && CommonPrefix(BlocksOf(blocks), chain) < |chain|
      modifies this
      ensures Valid() && BlocksOf(blocks) == chain[..CommonPrefix(BlocksOf(old(blocks)), chain) + 1]
    {
      if GoesOn(decoded) { GoingOnIsNext(blocks, chain, decoded); }
      var _ := ParseNewBlock(chain, decoded);
    }
  }

  function Height(b: Block): nat {
    match b.prev
    case Root => 0
    case HashOf(parent) => Height(parent) + 1
  }

  lemma {:induction false} HeightInChain(chain: seq<Block>, i: nat)
    requires Linked(chain) && i < |chain|
    ensures Height(chain[i]) == Height(chain[0]) + i
  {
    if i > 0 {
      HeightInChain(chain, i - 1);
      assert chain[i].prev == HashOf(chain[i - 1]);
    }
  }

  /** A block of two chains with the same first block is at the same place in both. */
  lemma SamePlace(a: seq<Block>, b: seq<Block>, i: nat, j: nat)
    requires Linked(a) && Linked(b) && i < |a| && j < |b| && a[0] == b[0] && a[i] == b[j]
    ensures i == j
  {
    HeightInChain(a, i);
    HeightInChain(b, j);
  }

  /** A block of the chain that goes on from the table is the chain's next block. */
  lemma GoingOnIsNext(rows: seq<BlockRow>, chain: seq<Block>, decoded: Block)
    requires rows != [] && Linked(BlocksOf(rows)) && Linked(chain) && chain != [] && chain[0] == rows[0].block
    requires decoded in chain && decoded !in BlocksOf(rows) && decoded.prev == HashOf(rows[|rows| - 1].block)
    ensures |rows| < |chain| && CommonPrefix(BlocksOf(rows), chain) == |rows|
    ensures BlocksOf(rows) + [decoded] == chain[..|rows| + 1]
  {
    var i :| 0 <= i < |chain| && chain[i] == decoded;
    assert BlocksOf(rows)[0] in BlocksOf(rows);
    assert chain[i].prev == HashOf(chain[i - 1]);
    SamePlace(chain, BlocksOf(rows), i - 1, |rows| - 1);
    ForkIsCommonPrefix(BlocksOf(rows), chain, |rows|);
  }

  /** A chain with a block the table lacks is longer than the common prefix. */
  lemma MissingBlockIsAbove(rows: seq<BlockRow>, chain: seq<Block>, decoded: Block)
    requires decoded in chain && decoded !in BlocksOf(rows)
    ensures CommonPrefix(BlocksOf(rows), chain) < |chain|
  {
    var i :| 0 <= i < |chain| && chain[i] == decoded;
    assert i < |rows| ==> BlocksOf(rows)[i] in BlocksOf(rows);
  }

  lemma BlocksOfMore(before: seq<BlockRow>, after: seq<BlockRow>, k: nat, block: Block)
    requires k <= |before| && |after| == k + 1 && after[..k] == before[..k] && after[k].block == block
    ensures BlocksOf(after) == BlocksOf(before)[..k] + [block] && after == before[..k] + [after[k]]
  {
    assert forall i :: 0 <= i < k ==> after[i] == after[..k][i] == before[i];
  }

  /** The backend's next block goes on from the table exactly when the table is a prefix of its chain. */
  lemma GoesOnIffPrefix(rows: seq<BlockRow>, chain: seq<Block>)
    requires Linked(BlocksOf(rows)) && Linked(chain) && 0 < |rows| < |chain|
    ensures chain[|rows|].prev == HashOf(rows[|rows| - 1].block) <==> CommonPrefix(BlocksOf(rows), chain) == |rows|
    ensures CommonPrefix(BlocksOf(rows), chain) == |rows| ==> BlocksOf(rows) + [chain[|rows|]] == chain[..|rows| + 1]
  {
    assert chain[|rows|].prev == HashOf(chain[|rows| - 1]);
    if chain[|rows| - 1] == rows[|rows| - 1].block { ForkIsCommonPrefix(BlocksOf(rows), chain, |rows|); }
  }

  lemma PrefixOfChain(chain: seq<Block>, k: nat)
    requires k <= |chain|
    ensures CommonPrefix(chain[..k], chain) == k
    ensures k == |chain| ==> chain[..k] == chain
  {
    var prefix := chain[..k];
    assert forall i :: 0 <= i < k ==> prefix[i] == chain[i];
    assert chain[..|chain|] == chain;
  }

  // ---------------------------------------------------------------- consensus hashes

  function Depth(h: ConsensusHash): nat {
    match h
    case Seed => 0
    case Consensus(previous, _) => 1 + Depth(previous)
  }

  lemma {:induction false} DepthOfLast(rows: seq<BlockRow>)
    requires HashChained(rows)
    ensures Depth(LastHash(rows)) == |rows|
  {
    if rows != [] { DepthOfLast(rows[..|rows| - 1]); }
  }

  /** The ledger that a consensus hash stands for. */
  function LedgerOf(initial: State, h: ConsensusHash): State {
    match h
    case Seed => initial
    case Consensus(previous, content) => RunCalls(LedgerOf(initial, previous), content)
  }

  /** In a chained table the last hash stands for the ledger of the node, whatever its handlers are. */
  lemma {:induction false} HashStandsForLedger(initial: State, parse: Parser, rows: seq<BlockRow>, blockFirst: int)
    requires HashChained(rows) && CoversCalls(initial, parse, rows, blockFirst)
    ensures LedgerOf(initial, LastHash(rows)) == ReplayChain(initial, parse, BlocksOf(rows), blockFirst)
  {
    if rows != [] {
      var n := |rows| - 1;
      HashStandsForLedger(initial, parse, rows[..n], blockFirst);
      assert BlocksOf(rows)[..n] == BlocksOf(rows[..n]);
      var before := ReplayChain(initial, parse, BlocksOf(rows[..n]), blockFirst);
      LastOfReplay(initial, parse, BlocksOf(rows), blockFirst, before, rows[n].block, blockFirst + n);
    }
  }

  /**
   * Two nodes that start alike, maybe with different handlers and different chains: when their tables are chained and
   * end on one consensus hash, they have as many blocks and the same ledger.
   */
  lemma EqualHashesEqualLedgers(initial: State, blockFirst: int, parse: Parser, rows: seq<BlockRow>, parse': Parser,
                                rows': seq<BlockRow>)
    requires HashChained(rows) && CoversCalls(initial, parse, rows, blockFirst)
    requires HashChained(rows') && CoversCalls(initial, parse', rows', blockFirst)
    requires LastHash(rows) == LastHash(rows')
    ensures |rows| == |rows'|
    ensures ReplayChain(initial, parse, BlocksOf(rows), blockFirst) ==
            ReplayChain(initial, parse', BlocksOf(rows'), blockFirst)
  {
    DepthOfLast(rows);
    DepthOfLast(rows');
    HashStandsForLedger(initial, parse, rows, blockFirst);
    HashStandsForLedger(initial, parse', rows', blockFirst);
  }

  lemma {:induction false} PrefixStaysChained(rows: seq<BlockRow>, k: nat)
    requires HashChained(rows) && k <= |rows|
    ensures HashChained(rows[..k])
  {
    if k == |rows| {
      assert rows[..k] == rows;
    } else {
      assert rows[..|rows| - 1][..k] == rows[..k];
      PrefixStaysChained(rows[..|rows| - 1], k);
    }
  }

  /**
   * The new row carries on from the last row of the old table, so the chain of consensus hashes
   * continues exactly when no row was rolled back.
   */
  lemma ChainedIffNoReorg(before: seq<BlockRow>, row: BlockRow, k: nat)
    requires HashChained(before) && k <= |before|
    requires row.ledgerHash.Consensus? && row.ledgerHash.previous == LastHash(before)
    ensures HashChained(before[..k] + [row]) <==> k == |before|
  {
    var kept := before[..k];
    PrefixStaysChained(before, k);
    DepthOfLast(before);
    DepthOfLast(kept);
    assert (kept + [row])[..k] == kept;
    if k == |before| { assert kept == before; }
  }

  /** Two blocks at height 11: the hash of the second one continues the orphaned first. */
  lemma OrphanedHashLivesOn(first: seq<Call>, orphaned: seq<Call>, next: seq<Call>)
    ensures var root := BlockRow(10, Block(0, Root), Consensus(Seed, first));
            var orphan := BlockRow(11, Block(1, HashOf(root.block)), Consensus(root.ledgerHash, orphaned));
            var row := BlockRow(11, Block(2, HashOf(root.block)), Consensus(orphan.ledgerHash, next));
            HashChained([root, orphan]) && !HashChained([root, row])
  {
    var root := BlockRow(10, Block(0, Root), Consensus(Seed, first));
    var orphan := BlockRow(11, Block(1, HashOf(root.block)), Consensus(root.ledgerHash, orphaned));
    var row := BlockRow(11, Block(2, HashOf(root.block)), Consensus(orphan.ledgerHash, next));
    assert [root][..0] == [] && HashChained([]) && HashChained([root]);
    assert [root, orphan][..1] == [root];
    ChainedIffNoReorg([root, orphan], row, 1);
    assert [root] + [row] == [root, row];
  }
}
