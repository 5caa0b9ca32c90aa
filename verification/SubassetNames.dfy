/** Subasset names packed into bytes and back: base 68 with the digits 1 to 67, then minimal big-endian bytes. */
module SubassetNames {
  import opened Records
  import opened Bytes

  // ---------------------------------------------------------------- the digit tables

  /** SUBASSET_DIGITS: small letters, capitals, figures, and five signs. */
  function Digit(k: nat): char
    requires k < 67
  {
    if k < 26 then ('a' as int + k) as char
    else if k < 52 then ('A' as int + k - 26) as char
    else if k < 62 then ('0' as int + k - 52) as char
    else if k == 62 then '.' else if k == 63 then '-' else if k == 64 then '_' else if k == 65 then '@' else '!'
  }

  /** Indexing that string: -1 is its last character. */
  function DigitAt(i: int): char
    requires -1 <= i < 67
  {
    if i == -1 then Digit(66) else Digit(i)
  }

  /** SUBASSET_REVERSE, which has no entry for other characters. */
  function Reverse(c: char): Option<nat> {
    if 'a' <= c <= 'z' then Some(c as nat - 'a' as nat + 1)
    else if 'A' <= c <= 'Z' then Some(c as nat - 'A' as nat + 27)
    else if '0' <= c <= '9' then Some(c as nat - '0' as nat + 53)
    else if c == '.' then Some(63) else if c == '-' then Some(64) else if c == '_' then Some(65)
    else if c == '@' then Some(66) else if c == '!' then Some(67) else None
  }

  /** The two tables fit each other: the k-th character has the digit k + 1, and no other character has one. */
  lemma TablesFit(k: nat, c: char)
    requires k < 67
    ensures Reverse(Digit(k)) == Some(k + 1)
    ensures Reverse(c).Some? ==> 1 <= Reverse(c).value <= 67 && Digit(Reverse(c).value - 1) == c
  {
  }

  // ---------------------------------------------------------------- numbers

  function Power68(n: nat): nat { if n == 0 then 1 else 68 * Power68(n - 1) }

  predicate Encodable(name: string) { forall i :: 0 <= i < |name| ==> Reverse(name[i]).Some? }

  /** A name as a number in base 68. */
  function NameNumber(name: string): nat
    requires Encodable(name)
  {
    if name == [] then 0 else NameNumber(name[..|name| - 1]) * 68 + Reverse(name[|name| - 1]).value
  }

  function Expanded(n: nat): string {
    if n == 0 then [] else Expanded(n / 68) + [DigitAt(n % 68 - 1)]
  }

  function BitLength(x: nat): nat { if x == 0 then 0 else 1 + BitLength(x / 2) }

  /** `to_bytes` with as many bytes as the bits need. */
  function MinimalBytes(x: nat): ByteString { BigEndianBytes(x, (BitLength(x) + 7) / 8) }

  function Compacted(name: string): Option<ByteString> {
    if Encodable(name) then Some(MinimalBytes(NameNumber(name))) else None
  }

  // ---------------------------------------------------------------- the two functions

  /** Adds the digits from the last character to the first, each times its power of 68. */
  method CompactSubassetLongname(name: string) returns (r: Option<ByteString>)
    ensures r == Compacted(name)
  {
    var nameInt, power := 0, 1;
    for i := 0 to |name|
      invariant forall j :: |name| - i <= j < |name| ==> Reverse(name[j]).Some?
      invariant power == Power68(i)
      invariant Encodable(name[|name| - i..]) && nameInt == NameNumber(name[|name| - i..])
    {
      var c := name[|name| - 1 - i];
      var digit := Reverse(c);
      if digit.None? { return None; }
      var rest := name[|name| - i..];
      assert name[|name| - (i + 1)..] == [c] + rest;
      FirstDigit(c, rest);
      nameInt := nameInt + power * digit.value;
      power := 68 * power;
    }
    assert name[0..] == name;
    r := Some(BigEndianBytes(nameInt, (BitLength(nameInt) + 7) / 8));
  }

  lemma ShiftDigit(head: nat, p: nat, d: nat)
    ensures (head + p * d) * 68 == head * 68 + 68 * p * d
  {
  }

  /** A character in front counts its digit times the power of 68 behind it. */
  lemma {:induction false} FirstDigit(c: char, rest: string)
    requires Reverse(c).Some? && Encodable(rest)
    ensures Encodable([c] + rest)
    ensures NameNumber([c] + rest) == NameNumber(rest) + Power68(|rest|) * Reverse(c).value
  {
    var name, d := [c] + rest, Reverse(c).value;
    if rest == [] {
      assert name[..0] == [] && NameNumber(name) == NameNumber(name[..0]) * 68 + d;
    } else {
      var last := |rest| - 1;
      var init := rest[..last];
      FirstDigit(c, init);
      assert name[..|rest|] == [c] + init && name[|rest|] == rest[last];
      assert NameNumber(name) == NameNumber([c] + init) * 68 + Reverse(rest[last]).value;
      ShiftDigit(NameNumber(init), Power68(last), d);
    }
  }

  method ExpandSubassetLongname(rawBytes: ByteString) returns (ret: string)
    ensures ret == Expanded(Number(rawBytes))
  {
    var integer: nat := Number(rawBytes);
    if integer == 0 { return ""; }
    ret := "";
    while integer != 0
      invariant Expanded(integer) + ret == Expanded(Number(rawBytes))
      decreases integer
    {
      ghost var rest, digit := Expanded(integer / 68), DigitAt(integer % 68 - 1);
      assert rest + [digit] + ret == rest + ([digit] + ret);
      ret := [DigitAt(integer % 68 - 1)] + ret;
      integer := integer / 68;
    }
  }

  // ---------------------------------------------------------------- minimal bytes

  function ByteLength(x: nat): nat { if x == 0 then 0 else 1 + ByteLength(x / 256) }

  lemma TwoMoreBits(x: nat)
    requires x >= 4
    ensures BitLength(x) == 2 + BitLength(x / 4)
  {
    assert x / 2 / 2 == x / 4;
    assert BitLength(x) == 1 + BitLength(x / 2);
  }

  lemma EightMoreBits(x: nat)
    requires x >= 256
    ensures BitLength(x) == 8 + BitLength(x / 256)
  {
    assert x / 4 / 4 == x / 16 && x / 16 / 4 == x / 64 && x / 64 / 4 == x / 256;
    TwoMoreBits(x);
    TwoMoreBits(x / 4);
    TwoMoreBits(x / 16);
    TwoMoreBits(x / 64);
  }

  lemma FewBits(x: nat)
    requires 0 < x < 256
    ensures 1 <= BitLength(x) <= 8
  {
    BitsBound(x, 8);
  }

  function Power2(n: nat): nat { if n == 0 then 1 else 2 * Power2(n - 1) }

  lemma {:induction false} BitsBound(x: nat, n: nat)
    requires x < Power2(n)
    ensures BitLength(x) <= n
  {
    if n > 0 { BitsBound(x / 2, n - 1); }
  }

  lemma {:induction false} BytesForBits(x: nat)
    ensures (BitLength(x) + 7) / 8 == ByteLength(x)
  {
    if x >= 256 {
      BytesForBits(x / 256);
      EightMoreBits(x);
    } else if x > 0 {
      FewBits(x);
      assert ByteLength(x / 256) == 0;
    }
  }

  lemma {:induction false} FitsItsBytes(x: nat)
    ensures x < Power256(ByteLength(x))
  {
    if x > 0 { FitsItsBytes(x / 256); }
  }

  /** Reading the minimal bytes gives the number back. */
  lemma NumberOfMinimalBytes(x: nat)
    ensures Number(MinimalBytes(x)) == x
  {
    BytesForBits(x);
    FitsItsBytes(x);
    NumberOfBytes(x, ByteLength(x));
  }

  lemma {:induction false} LeadingByte(x: nat)
    requires x > 0
    ensures BigEndianBytes(x, ByteLength(x))[0] != 0
  {
    if x >= 256 {
      LeadingByte(x / 256);
    } else {
      assert ByteLength(x / 256) == 0 && BigEndianBytes(x, 1) == BigEndianBytes(0, 0) + [x as Byte];
    }
  }

  lemma {:induction false} LengthOfNumber(k: ByteString)
    requires k == [] || k[0] != 0
    ensures ByteLength(Number(k)) == |k|
  {
    if |k| == 1 {
      assert Number(k[..0]) == 0 && Number(k) == k[0] as nat;
      assert ByteLength(Number(k) / 256) == 0;
    } else if k != [] {
      var init := k[..|k| - 1];
      LengthOfNumber(init);
      assert Number(k) == Number(init) * 256 + k[|k| - 1] as nat;
      assert Number(k) / 256 == Number(init);
    }
  }

  /** The bytes of a number are minimal exactly when they do not begin with a zero. */
  lemma MinimalIff(k: ByteString)
    ensures MinimalBytes(Number(k)) == k <==> k == [] || k[0] != 0
  {
    var x := Number(k);
    BytesForBits(x);
    if k == [] || k[0] != 0 {
      LengthOfNumber(k);
      BytesOfNumber(k);
    } else if x > 0 {
      LeadingByte(x);
    }
  }

  // ---------------------------------------------------------------- round trips

  lemma {:induction false} ExpandsBack(name: string)
    requires Encodable(name)
    ensures Expanded(NameNumber(name)) == name
  {
    if name != [] {
      var init, c := name[..|name| - 1], name[|name| - 1];
      ExpandsBack(init);
      TablesFit(0, c);
      var d, n := Reverse(c).value, NameNumber(name);
      assert n / 68 == NameNumber(init) && n % 68 == d;
      assert name == init + [c];
    }
  }

  /** Every name over the subasset characters comes back from its bytes; any other name is refused. */
  lemma CompactThenExpand(name: string)
    ensures Compacted(name).Some? <==> Encodable(name)
    ensures Encodable(name) ==> Expanded(Number(Compacted(name).value)) == name
  {
    if Encodable(name) {
      NumberOfMinimalBytes(NameNumber(name));
      ExpandsBack(name);
    }
  }

  predicate NoZeroDigit(n: nat) { n == 0 || (n % 68 != 0 && NoZeroDigit(n / 68)) }

  /** A zero digit expands to the last character, which counts 67 when it is packed again. */
  lemma {:induction false} PacksAgain(n: nat)
    ensures Encodable(Expanded(n)) && NameNumber(Expanded(n)) >= n
    ensures NameNumber(Expanded(n)) == n <==> NoZeroDigit(n)
  {
    if n > 0 {
      PacksAgain(n / 68);
      var head, i := Expanded(n / 68), n % 68 - 1;
      TablesFit(if i == -1 then 66 else i, 'a');
      assert Expanded(n)[..|head|] == head;
    }
  }

  /**
   * Bytes come back from the name they expand to exactly when no digit is zero and they do not begin with a zero byte.
   */
  lemma ExpandThenCompactIff(rawBytes: ByteString)
    ensures Compacted(Expanded(Number(rawBytes))) == Some(rawBytes) <==>
            NoZeroDigit(Number(rawBytes)) && (rawBytes == [] || rawBytes[0] != 0)
  {
    var n := Number(rawBytes);
    PacksAgain(n);
    NumberOfMinimalBytes(NameNumber(Expanded(n)));
    MinimalIff(rawBytes);
  }

  // ---------------------------------------------------------------- the order of the digits

  predicate SameClass(c: char, d: char) {
    ('a' <= c <= d <= 'z') || ('A' <= c <= d <= 'Z') || ('0' <= c <= d <= '9')
  }

  /** Small letters count from 1, capitals from 27, figures from 53, each in their order, and then come five signs. */
  lemma DigitsInOrder(c: char, d: char)
    requires SameClass(c, d)
    ensures Reverse('a') == Some(1) && Reverse('A') == Some(27) && Reverse('0') == Some(53)
    ensures Reverse('.') == Some(63) && Reverse('-') == Some(64) && Reverse('_') == Some(65)
    ensures Reverse('@') == Some(66) && Reverse('!') == Some(67)
    ensures Reverse(c).Some? && Reverse(d) == Some(Reverse(c).value + (d as nat - c as nat))
  {
  }
}
