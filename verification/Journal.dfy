/** The append-only message log of the ledger database: contiguous indexes, chained hashes. */
module Journal {
  import opened Records

  datatype Command = Insert | Update | Parse

  /** The columns of a message that enter its hash. */
  datatype Content = Content(
    messageIndex: nat,
    blockIndex: int,
    command: Command,
    category: string,
    bindings: Record,
    event: string,
    txHash: Option<string>)

  /** Double SHA-256 of a content and the previous hash, kept symbolic: equal hashes have equal inputs. */
  datatype Hash = NoHash | Dhash(content: Content, previous: Hash)

  /** A message as both databases can compare it. */
  datatype Stamp = Stamp(content: Content, eventHash: Hash)

  /** A row of the ledger's `messages` table; the timestamp is not hashed. */
  datatype Message = Message(stamp: Stamp, timestamp: int)

  function Stamps(messages: seq<Message>): (log: seq<Stamp>)
    ensures |log| == |messages|
    ensures forall i :: 0 <= i < |log| ==> log[i] == messages[i].stamp
  {
    seq(|messages|, i requires 0 <= i < |messages| => messages[i].stamp)
  }

  function PreviousHash(log: seq<Stamp>): Hash {
    if log == [] then NoHash else log[|log| - 1].eventHash
  }

  /** Indexes count up from zero and each hash covers the content and the hash before it. */
  ghost predicate Chained(log: seq<Stamp>) {
    forall i :: 0 <= i < |log| ==>
      log[i].content.messageIndex == i && log[i].eventHash == Dhash(log[i].content, PreviousHash(log[..i]))
  }

  function NextIndex(log: seq<Stamp>): nat {
    if log == [] then 0 else log[|log| - 1].content.messageIndex + 1
  }

  /** The stamp `add_to_journal` gives to the next message. */
  function NextStamp(log: seq<Stamp>, blockIndex: int, command: Command, category: string,
                     event: string, bindings: Record, txHash: Option<string>): Stamp
  {
    var content := Content(NextIndex(log), blockIndex, command, category, bindings, event, txHash);
    Stamp(content, Dhash(content, PreviousHash(log)))
  }

  lemma AppendKeepsChain(log: seq<Stamp>, blockIndex: int, command: Command, category: string,
                         event: string, bindings: Record, txHash: Option<string>)
    requires Chained(log)
    ensures Chained(log + [NextStamp(log, blockIndex, command, category, event, bindings, txHash)])
    ensures NextIndex(log) == |log|
  {
    var longer := log + [NextStamp(log, blockIndex, command, category, event, bindings, txHash)];
    assert longer[..|log|] == log;
    forall i | 0 <= i < |log|
      ensures longer[..i] == log[..i]
    {
    }
  }

  lemma PrefixKeepsChain(log: seq<Stamp>, k: nat)
    requires Chained(log) && k <= |log|
    ensures Chained(log[..k])
  {
    forall i | 0 <= i < k
      ensures log[..k][..i] == log[..i]
    {
    }
  }

  /** One equal hash makes everything up to it equal: comparing the last hashes compares whole logs. */
  lemma {:induction false} EqualHashEqualPrefix(a: seq<Stamp>, b: seq<Stamp>, i: nat)
    requires Chained(a) && Chained(b)
    requires i < |a| && i < |b| && a[i].eventHash == b[i].eventHash
    ensures a[..i + 1] == b[..i + 1]
  {
    if i > 0 {
      assert PreviousHash(a[..i]) == a[i - 1].eventHash;
      assert PreviousHash(b[..i]) == b[i - 1].eventHash;
      EqualHashEqualPrefix(a, b, i - 1);
      assert a[..i + 1] == a[..i] + [a[i]];
      assert b[..i + 1] == b[..i] + [b[i]];
    } else {
      assert a[..1] == [a[0]] && b[..1] == [b[0]];
    }
  }
}
