/** The byte stream of bc_data_stream.py: a buffer, a cursor, and readers that move it. */
module DataStream {
  import opened Records
  import opened Bytes

  /** A value and the cursor after it, or a raise. */
  datatype Read<T> = Raises | Reads(value: T, end: nat)

  /** A slice of bytes: bounds past the end are cut to it. */
  function Slice(s: ByteString, from: nat, to: int): ByteString {
    if from <= to then s[Least(from, |s|)..Least(to, |s|)] else []
  }

  function BytesAt(input: ByteString, cursor: nat, length: nat): (r: Read<ByteString>)
    ensures r.Reads? && r.end == cursor + length
  {
    Reads(Slice(input, cursor, cursor + length), cursor + length)
  }

  /** `struct.unpack_from` raises when fewer bytes are left than it needs. */
  function UnsignedAt(input: ByteString, cursor: nat, width: nat): (r: Read<nat>)
    ensures r.Reads? ==> r.end == cursor + width
  {
    if cursor + width <= |input| then Reads(LittleNumberAt(input, cursor, width), cursor + width) else Raises
  }

  /** Two's complement. */
  function Signed(u: nat, modulus: nat): int {
    if 2 * u >= modulus then u - modulus else u
  }

  function SignedAt(input: ByteString, cursor: nat, width: nat): (r: Read<int>)
    ensures r.Reads? ==> r.end == cursor + width
  {
    match UnsignedAt(input, cursor, width)
    case Raises => Raises
    case Reads(u, c) => Reads(Signed(u, Power256(width)), c)
  }

  function CompactSizeAt(input: ByteString, cursor: nat): (r: Read<nat>)
    ensures r.Reads? ==> cursor < r.end
  {
    if cursor >= |input| then Raises
    else if input[cursor] == 253 then UnsignedAt(input, cursor + 1, 2)
    else if input[cursor] == 254 then UnsignedAt(input, cursor + 1, 4)
    else if input[cursor] == 255 then UnsignedAt(input, cursor + 1, 8)
    else Reads(input[cursor] as nat, cursor + 1)
  }

  /** A string of bytes behind its length. */
  function SizedAt(input: ByteString, cursor: nat): (r: Read<ByteString>)
    ensures r.Reads? ==> cursor < r.end
  {
    match CompactSizeAt(input, cursor)
    case Raises => Raises
    case Reads(size, c) => BytesAt(input, c, size)
  }

  // ---------------------------------------------------------------- reading many of a kind

  type Reader<T> = (ByteString, nat) -> Read<T>

  /** The values read first, in front of those still to come. */
  function Prepend<T>(done: seq<T>, rest: Read<seq<T>>): Read<seq<T>> {
    match rest
    case Raises => Raises
    case Reads(values, end) => Reads(done + values, end)
  }

  function ManyAt<T>(reader: Reader<T>, input: ByteString, cursor: nat, count: nat): Read<seq<T>>
    decreases count
  {
    if count == 0 then Reads([], cursor)
    else
      match reader(input, cursor)
      case Raises => Raises
      case Reads(x, c) => Prepend([x], ManyAt(reader, input, c, count - 1))
  }

  function CountedAt<T>(reader: Reader<T>, input: ByteString, cursor: nat): Read<seq<T>> {
    match CompactSizeAt(input, cursor)
    case Raises => Raises
    case Reads(count, c) => ManyAt(reader, input, c, count)
  }

  // ---------------------------------------------------------------- the stream itself

  class BCDataStream {
    var input: ByteString
    var readCursor: nat

    constructor (bytes: ByteString)
      ensures input == bytes && readCursor == 0
    {
      input, readCursor := bytes, 0;
    }

    method ReadBytes(length: nat) returns (result: ByteString)
      modifies this`readCursor
      ensures Reads(result, readCursor) == BytesAt(input, old(readCursor), length)
    {
      result := Slice(input, readCursor, readCursor + length);
      readCursor := readCursor + length;
    }

    method ReadUnsigned(width: nat) returns (r: Option<nat>)
      modifies this`readCursor
      ensures Follows(UnsignedAt(input, old(readCursor), width), r, readCursor)
    {
      if readCursor + width > |input| { return None; }
      r := Some(LittleNumberAt(input, readCursor, width));
      readCursor := readCursor + width;
    }

    method ReadSigned(width: nat) returns (r: Option<int>)
      modifies this`readCursor
      ensures Follows(SignedAt(input, old(readCursor), width), r, readCursor)
    {
      if readCursor + width > |input| { return None; }
      r := Some(Signed(LittleNumberAt(input, readCursor, width), Power256(width)));
      readCursor := readCursor + width;
    }

    method ReadCompactSize() returns (r: Option<nat>)
      modifies this`readCursor
      ensures Follows(CompactSizeAt(input, old(readCursor)), r, readCursor)
    {
      if readCursor >= |input| { return None; }
      var size := input[readCursor];
      readCursor := readCursor + 1;
      if size == 253 {
        r := ReadUnsigned(2);
      } else if size == 254 {
        r := ReadUnsigned(4);
      } else if size == 255 {
        r := ReadUnsigned(8);
      } else {
        r := Some(size as nat);
      }
    }
  }

  /**
   * A reader that returned r with the cursor at c did what the specification says; a raise may leave the cursor
   * anywhere.
   */
  ghost predicate Follows<T>(spec: Read<T>, r: Option<T>, c: nat) {
    match spec
    case Raises => r.None?
    case Reads(value, cursor) => r == Some(value) && c == cursor
  }

  // ---------------------------------------------------------------- writing, and reading what was written

  function CompactSize(n: nat): ByteString {
    if n < 253 then [n as Byte]
    else if n < 0x1_0000 then [253] + LittleEndianBytes(n, 2)
    else if n < 0x1_0000_0000 then [254] + LittleEndianBytes(n, 4)
    else [255] + LittleEndianBytes(n, 8)
  }

  function Sized(bytes: ByteString): ByteString { CompactSize(|bytes|) + bytes }

  predicate Fits64(n: nat) { n < 0x1_0000_0000_0000_0000 }

  /** The input goes on with these bytes from the cursor. */
  predicate Holds(input: ByteString, cursor: nat, bytes: ByteString) {
    cursor + |bytes| <= |input| && input[cursor..cursor + |bytes|] == bytes
  }

  lemma HoldsBoth(input: ByteString, cursor: nat, a: ByteString, b: ByteString)
    requires Holds(input, cursor, a + b)
    ensures Holds(input, cursor, a) && Holds(input, cursor + |a|, b)
  {
    var whole := input[cursor..cursor + |a + b|];
    assert input[cursor..cursor + |a|] == whole[..|a|];
    assert whole[..|a|] == a;
    assert input[cursor + |a|..cursor + |a| + |b|] == whole[|a|..];
    assert whole[|a|..] == b;
  }

  lemma HoldsBetween(before: ByteString, bytes: ByteString, after: ByteString)
    ensures Holds(before + bytes + after, |before|, bytes)
  {
    var input := before + bytes + after;
    assert input[|before|..|before| + |bytes|] == bytes;
  }

  lemma HoldsFirst(input: ByteString, cursor: nat, bytes: ByteString)
    requires Holds(input, cursor, bytes) && bytes != []
    ensures cursor < |input| && input[cursor] == bytes[0]
  {
    assert input[cursor] == input[cursor..cursor + |bytes|][0];
  }

  lemma ReadsBytes(input: ByteString, cursor: nat, bytes: ByteString)
    requires Holds(input, cursor, bytes)
    ensures BytesAt(input, cursor, |bytes|) == Reads(bytes, cursor + |bytes|)
  {
  }

  lemma ReadsUnsigned(input: ByteString, cursor: nat, x: nat, width: nat)
    requires x < Power256(width) && Holds(input, cursor, LittleEndianBytes(x, width))
    ensures UnsignedAt(input, cursor, width) == Reads(x, cursor + width)
  {
    LittleNumberOfBytes(input, cursor, x, width);
  }

  lemma ReadsSigned(input: ByteString, cursor: nat, v: int, u: nat, width: nat)
    requires u < Power256(width) && v == Signed(u, Power256(width))
    requires Holds(input, cursor, LittleEndianBytes(u, width))
    ensures SignedAt(input, cursor, width) == Reads(v, cursor + width)
  {
    ReadsUnsigned(input, cursor, u, width);
  }

  lemma ReadsCompactSize(input: ByteString, cursor: nat, n: nat)
    requires Fits64(n) && Holds(input, cursor, CompactSize(n))
    ensures CompactSizeAt(input, cursor) == Reads(n, cursor + |CompactSize(n)|)
  {
    PowersOf256();
    HoldsFirst(input, cursor, CompactSize(n));
    if n >= 253 {
      var width := if n < 0x1_0000 then 2 else if n < 0x1_0000_0000 then 4 else 8;
      HoldsBoth(input, cursor, [CompactSize(n)[0]], LittleEndianBytes(n, width));
      ReadsUnsigned(input, cursor + 1, n, width);
    }
  }

  lemma ReadsSized(input: ByteString, cursor: nat, bytes: ByteString)
    requires Fits64(|bytes|) && Holds(input, cursor, Sized(bytes))
    ensures SizedAt(input, cursor) == Reads(bytes, cursor + |Sized(bytes)|)
  {
    HoldsBoth(input, cursor, CompactSize(|bytes|), bytes);
    ReadsCompactSize(input, cursor, |bytes|);
    ReadsBytes(input, cursor + |CompactSize(|bytes|)|, bytes);
  }

  function PutMany<T>(put: T -> ByteString, xs: seq<T>): ByteString
    decreases |xs|
  {
    if xs == [] then [] else put(xs[0]) + PutMany(put, xs[1..])
  }

  function PutCounted<T>(put: T -> ByteString, xs: seq<T>): ByteString { CompactSize(|xs|) + PutMany(put, xs) }

  predicate AllGood<T>(good: T -> bool, xs: seq<T>) { forall i :: 0 <= i < |xs| ==> good(xs[i]) }

  ghost predicate InvertsHere<T>(reader: Reader<T>, put: T -> ByteString, good: T -> bool, input: ByteString,
                                 cursor: nat, x: T) {
    good(x) && Holds(input, cursor, put(x)) ==> reader(input, cursor) == Reads(x, cursor + |put(x)|)
  }

  /** The reader gives back every good value whose bytes are before it, and stops right behind them. */
  ghost predicate Inverts<T(!new)>(reader: Reader<T>, put: T -> ByteString, good: T -> bool) {
    forall input: ByteString, cursor: nat, x: T :: InvertsHere(reader, put, good, input, cursor, x)
  }

  lemma {:induction false} ReadsMany<T(!new)>(
      reader: Reader<T>, put: T -> ByteString, good: T -> bool, input: ByteString, cursor: nat, xs: seq<T>)
    requires Inverts(reader, put, good) && AllGood(good, xs) && Holds(input, cursor, PutMany(put, xs))
    ensures ManyAt(reader, input, cursor, |xs|) == Reads(xs, cursor + |PutMany(put, xs)|)
    decreases |xs|
  {
    if xs != [] {
      HoldsBoth(input, cursor, put(xs[0]), PutMany(put, xs[1..]));
      assert InvertsHere(reader, put, good, input, cursor, xs[0]);
      var next := cursor + |put(xs[0])|;
      ReadsMany(reader, put, good, input, next, xs[1..]);
      assert ManyAt(reader, input, cursor, |xs|) == Prepend([xs[0]], ManyAt(reader, input, next, |xs[1..]|));
      assert xs == [xs[0]] + xs[1..];
    }
  }

  lemma ReadsCounted<T(!new)>(
      reader: Reader<T>, put: T -> ByteString, good: T -> bool, input: ByteString, cursor: nat, xs: seq<T>)
    requires Inverts(reader, put, good) && Fits64(|xs|) && AllGood(good, xs)
             && Holds(input, cursor, PutCounted(put, xs))
    ensures CountedAt(reader, input, cursor) == Reads(xs, cursor + |PutCounted(put, xs)|)
  {
    HoldsBoth(input, cursor, CompactSize(|xs|), PutMany(put, xs));
    ReadsCompactSize(input, cursor, |xs|);
    ReadsMany(reader, put, good, input, cursor + |CompactSize(|xs|)|, xs);
  }

  /** Every length the stream reads back is one it could have written, and the writer picks the shortest form. */
  lemma CompactSizeIsShortest(input: ByteString, cursor: nat)
    requires CompactSizeAt(input, cursor).Reads?
    ensures var Reads(n, end) := CompactSizeAt(input, cursor);
            && Fits64(n) && end <= |input| && |CompactSize(n)| <= end - cursor
            && (|CompactSize(n)| == end - cursor ==> input[cursor..end] == CompactSize(n))
  {
    PowersOf256();
    var Reads(n, end) := CompactSizeAt(input, cursor);
    if input[cursor] < 253 {
      assert input[cursor..end] == [n as Byte];
    } else {
      LittleBytesOfNumber(input, cursor + 1, end - cursor - 1);
      assert input[cursor..end] == [input[cursor]] + input[cursor + 1..end];
    }
  }

  function LengthBytes(first: Byte): nat {
    if first < 253 then 0 else if first == 253 then 2 else if first == 254 then 4 else 8
  }

  lemma TwoBytes(input: ByteString, at: nat)
    requires at + 2 <= |input|
    ensures LittleNumberAt(input, at, 2) == input[at] as nat + 0x100 * input[at + 1] as nat
  {
    assert LittleNumberAt(input, at + 1, 1) == input[at + 1] as nat + 256 * LittleNumberAt(input, at + 2, 0);
  }

  lemma FourBytes(input: ByteString, at: nat)
    requires at + 4 <= |input|
    ensures LittleNumberAt(input, at, 4) ==
            input[at] as nat + 0x100 * input[at + 1] as nat + 0x1_0000 * input[at + 2] as nat
            + 0x100_0000 * input[at + 3] as nat
  {
    TwoBytes(input, at + 2);
    assert LittleNumberAt(input, at + 1, 3) == input[at + 1] as nat + 256 * LittleNumberAt(input, at + 2, 2);
  }

  /** The first byte tells how many follow: the length itself, or two, four or eight bytes of it. */
  lemma CompactSizeStandsThere(input: ByteString, cursor: nat)
    ensures var r := CompactSizeAt(input, cursor);
            && (r.Reads? <==> cursor < |input| && cursor + 1 + LengthBytes(input[cursor]) <= |input|)
            && (r.Reads? ==>
                  && r.end == cursor + 1 + LengthBytes(input[cursor])
                  && (input[cursor] < 253 ==> r.value == input[cursor] as nat)
                  && (input[cursor] == 253 ==>
                        r.value == input[cursor + 1] as nat + 0x100 * input[cursor + 2] as nat)
                  && (input[cursor] == 254 ==>
                        r.value == input[cursor + 1] as nat + 0x100 * input[cursor + 2] as nat
                                   + 0x1_0000 * input[cursor + 3] as nat + 0x100_0000 * input[cursor + 4] as nat)
                  && (input[cursor] == 255 ==> r.value == LittleNumberAt(input, cursor + 1, 8)))
  {
    if cursor + 3 <= |input| { TwoBytes(input, cursor + 1); }
    if cursor + 5 <= |input| { FourBytes(input, cursor + 1); }
  }
}
