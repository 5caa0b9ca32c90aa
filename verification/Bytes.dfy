/** Byte strings and the numbers they stand for. */
module Bytes {

  newtype Byte = b: int | 0 <= b < 256

  type ByteString = seq<Byte>

  /** The n low bytes of a number, most significant first. */
  function BigEndianBytes(x: nat, n: nat): (k: ByteString)
    ensures |k| == n
    decreases n, x
  {
    if n == 0 then [] else BigEndianBytes(x / 256, n - 1) + [(x % 256) as Byte]
  }

  function Number(k: ByteString): nat {
    if k == [] then 0 else Number(k[..|k| - 1]) * 256 + k[|k| - 1] as nat
  }

  function Power256(n: nat): nat {
    if n == 0 then 1 else 256 * Power256(n - 1)
  }

  lemma {:induction false} NumberOfBytes(x: nat, n: nat)
    requires x < Power256(n)
    ensures Number(BigEndianBytes(x, n)) == x
  {
    if n > 0 {
      NumberOfBytes(x / 256, n - 1);
      assert BigEndianBytes(x, n)[..n - 1] == BigEndianBytes(x / 256, n - 1);
    }
  }

  lemma {:induction false} BytesOfNumber(k: ByteString)
    ensures Number(k) < Power256(|k|) && BigEndianBytes(Number(k), |k|) == k
  {
    if k != [] {
      BytesOfNumber(k[..|k| - 1]);
      assert k == k[..|k| - 1] + [k[|k| - 1]];
    }
  }

  // ---------------------------------------------------------------- least significant byte first

  function LittleEndianBytes(x: nat, n: nat): (k: ByteString)
    ensures |k| == n
    decreases n, x
  {
    if n == 0 then [] else [(x % 256) as Byte] + LittleEndianBytes(x / 256, n - 1)
  }

  /** The number whose n bytes stand in the input from the cursor on. */
  function LittleNumberAt(input: ByteString, cursor: nat, n: nat): nat
    requires cursor + n <= |input|
    decreases n, cursor
  {
    if n == 0 then 0 else input[cursor] as nat + 256 * LittleNumberAt(input, cursor + 1, n - 1)
  }

  lemma {:induction false} LittleNumberOfBytes(input: ByteString, cursor: nat, x: nat, n: nat)
    requires x < Power256(n) && cursor + n <= |input| && input[cursor..cursor + n] == LittleEndianBytes(x, n)
    ensures LittleNumberAt(input, cursor, n) == x
    decreases n
  {
    if n > 0 {
      var here := input[cursor..cursor + n];
      assert here[0] == (x % 256) as Byte;
      assert input[cursor + 1..cursor + n] == here[1..] == LittleEndianBytes(x / 256, n - 1);
      LittleNumberOfBytes(input, cursor + 1, x / 256, n - 1);
    }
  }

  lemma {:induction false} LittleBytesOfNumber(input: ByteString, cursor: nat, n: nat)
    requires cursor + n <= |input|
    ensures LittleNumberAt(input, cursor, n) < Power256(n)
    ensures LittleEndianBytes(LittleNumberAt(input, cursor, n), n) == input[cursor..cursor + n]
    decreases n
  {
    if n > 0 {
      LittleBytesOfNumber(input, cursor + 1, n - 1);
      assert input[cursor..cursor + n] == [input[cursor]] + input[cursor + 1..cursor + n];
    }
  }

  lemma PowersOf256()
    ensures Power256(1) == 0x100
    ensures Power256(2) == 0x1_0000
    ensures Power256(4) == 0x1_0000_0000
    ensures Power256(8) == 0x1_0000_0000_0000_0000
  {
    assert Power256(3) == 0x100_0000;
    assert Power256(5) == 0x100_0000_0000;
    assert Power256(6) == 0x1_0000_0000_0000;
    assert Power256(7) == 0x100_0000_0000_0000;
  }

  // ---------------------------------------------------------------- what a byte counts

  lemma Multiples(a: nat, b: nat, d: nat)
    requires a <= b
    ensures a * d <= b * d
  {
  }

  lemma QuotientIs(x: nat, d: nat, q: nat, r: nat)
    requires d > 0 && x == q * d + r && r < d
    ensures x / d == q
  {
    if x / d < q {
      Multiples(x / d + 1, q, d);
      assert false;
    } else if x / d > q {
      Multiples(q + 1, x / d, d);
      assert false;
    }
  }

  lemma OneByteMore(x: nat, b: nat, p: nat)
    requires b < 256 && p > 0
    ensures (b + 256 * x) / (256 * p) == x / p
  {
    var q, r := x / p, x % p;
    assert x == q * p + r;
    assert q * (256 * p) == 256 * (q * p);
    QuotientIs(b + 256 * x, 256 * p, q, b + 256 * r);
  }

  lemma {:induction false} PowerIsPositive(n: nat)
    ensures Power256(n) > 0
  {
    if n > 0 { PowerIsPositive(n - 1); }
  }

  /** Little-endian: the i-th byte counts 256 to the i-th power. */
  lemma {:induction false} LittleByteCounts(input: ByteString, cursor: nat, n: nat, i: nat)
    requires cursor + n <= |input| && i < n
    ensures Power256(i) > 0 && LittleNumberAt(input, cursor, n) / Power256(i) % 256 == input[cursor + i] as nat
    decreases i
  {
    PowerIsPositive(i);
    if i > 0 {
      LittleByteCounts(input, cursor + 1, n - 1, i - 1);
      OneByteMore(LittleNumberAt(input, cursor + 1, n - 1), input[cursor] as nat, Power256(i - 1));
    }
  }

  /** Big-endian: the last byte counts one, and each byte before it 256 times more. */
  lemma {:induction false} BigByteCounts(x: nat, n: nat, i: nat)
    requires i < n
    ensures Power256(i) > 0 && BigEndianBytes(x, n)[n - 1 - i] as nat == x / Power256(i) % 256
    decreases i
  {
    PowerIsPositive(i);
    if i > 0 {
      BigByteCounts(x / 256, n - 1, i - 1);
      OneByteMore(x / 256, x % 256, Power256(i - 1));
    }
  }
}
