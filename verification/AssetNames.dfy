/** Asset names and the numbers they stand for: base 26 letters, or A and a decimal number. */
module AssetNames {
  import opened Records

  datatype NameError = TooShort | NotNumeric | NotInRange | LongNotNumeric | InvalidCharacter | IdTooLow | IdTooHigh

  const LOWEST: nat := 17576                       // 26 ** 3
  const NUMERIC_ABOVE: nat := 95428956661682176    // 26 ** 12
  const HIGHEST: nat := 0xFFFF_FFFF_FFFF_FFFF      // 2 ** 64 - 1

  // ---------------------------------------------------------------- letters

  function LetterOf(digit: nat): char
    requires digit < 26
  {
    ('A' as int + digit) as char
  }

  predicate IsLetter(c: char) { 'A' <= c <= 'Z' }

  function DigitOf(c: char): nat
    requires IsLetter(c)
  {
    c as nat - 'A' as nat
  }

  predicate AllLetters(name: string) { forall i :: 0 <= i < |name| ==> IsLetter(name[i]) }

  function LettersNumber(name: string): nat
    requires AllLetters(name)
  {
    if name == [] then 0 else LettersNumber(name[..|name| - 1]) * 26 + DigitOf(name[|name| - 1])
  }

  function Letters(n: nat): string {
    if n == 0 then [] else Letters(n / 26) + [LetterOf(n % 26)]
  }

  function Power26(n: nat): nat { if n == 0 then 1 else 26 * Power26(n - 1) }

  // ---------------------------------------------------------------- figures

  predicate IsFigure(c: char) { '0' <= c <= '9' }

  predicate AllFigures(s: string) { forall i :: 0 <= i < |s| ==> IsFigure(s[i]) }

  function Decimal(n: nat): (s: string)
    ensures s != []
  {
    if n < 10 then [('0' as int + n) as char] else Decimal(n / 10) + [('0' as int + n % 10) as char]
  }

  /** Figures, with single underscores between them. */
  function Figures(s: string): Option<nat> {
    if s == [] || !IsFigure(s[|s| - 1]) then None
    else
      var d := s[|s| - 1] as nat - '0' as nat;
      if |s| == 1 then Some(d)
      else
        match Figures(if s[|s| - 2] == '_' then s[..|s| - 2] else s[..|s| - 1])
        case None => None
        case Some(v) => Some(v * 10 + d)
  }

  predicate IsSpace(c: char) { c == ' ' || '\t' <= c <= '\r' }

  function Strip(s: string): string {
    if s == [] then s
    else if IsSpace(s[0]) then Strip(s[1..])
    else if IsSpace(s[|s| - 1]) then Strip(s[..|s| - 1])
    else s
  }

  /** `int` of a string: spaces around it and a sign in front are allowed. */
  function ParseInt(text: string): Option<int> {
    var s := Strip(text);
    if s != [] && (s[0] == '+' || s[0] == '-') then
      match Figures(s[1..])
      case None => None
      case Some(v) => Some(if s[0] == '-' then -(v as int) else v)
    else
      match Figures(s)
      case None => None
      case Some(v) => Some(v)
  }

  // ---------------------------------------------------------------- names and numbers

  function LettersId(name: string): Result<nat, NameError> {
    if name == [] || name[0] == 'A' then Err(NotNumeric)
    else if !AllLetters(name) then Err(InvalidCharacter)
    else if LettersNumber(name) < LOWEST then Err(TooShort)
    else Ok(LettersNumber(name))
  }

  function NumericId(name: string): Result<nat, NameError>
    requires name != []
  {
    match ParseInt(name[1..])
    case None => Err(NotNumeric)
    case Some(v) => if NUMERIC_ABOVE + 1 <= v <= HIGHEST then Ok(v) else Err(NotInRange)
  }

  function AssetId(name: string, numericEnabled: bool): Result<nat, NameError> {
    if name == "BTC" then Ok(0)
    else if name == "XCP" then Ok(1)
    else if |name| < 4 then Err(TooShort)
    else if numericEnabled && name[0] == 'A' then NumericId(name)
    else if numericEnabled && |name| >= 13 then Err(LongNotNumeric)
    else LettersId(name)
  }

  function AssetName(id: int, numericEnabled: bool): Result<string, NameError> {
    if id == 0 then Ok("BTC")
    else if id == 1 then Ok("XCP")
    else if id < LOWEST then Err(IdTooLow)
    else if numericEnabled && id > HIGHEST then Err(IdTooHigh)
    else if numericEnabled && NUMERIC_ABOVE + 1 <= id then Ok("A" + Decimal(id))
    else Ok(Letters(id))
  }

  // ---------------------------------------------------------------- the two functions

  method GenerateAssetId(assetName: string, numericEnabled: bool) returns (r: Result<nat, NameError>)
    ensures r == AssetId(assetName, numericEnabled)
  {
    if assetName == "BTC" {
      return Ok(0);
    } else if assetName == "XCP" {
      return Ok(1);
    }
    if |assetName| < 4 { return Err(TooShort); }
    if numericEnabled {
      if assetName[0] == 'A' {
        var assetId := ParseInt(assetName[1..]);
        if assetId.None? { return Err(NotNumeric); }
        if !(NUMERIC_ABOVE + 1 <= assetId.value <= HIGHEST) { return Err(NotInRange); }
        return Ok(assetId.value);
      } else if |assetName| >= 13 {
        return Err(LongNotNumeric);
      }
    }
    if assetName[0] == 'A' { return Err(NotNumeric); }
    var n: nat := 0;
    for i := 0 to |assetName|
      invariant AllLetters(assetName[..i])
      invariant n == LettersNumber(assetName[..i])
    {
      n := n * 26;
      var c := assetName[i];
      if !IsLetter(c) { return Err(InvalidCharacter); }
      n := n + DigitOf(c);
      assert assetName[..i + 1][..i] == assetName[..i];
    }
    assert assetName[..|assetName|] == assetName;
    if n < LOWEST { return Err(TooShort); }
    return Ok(n);
  }

  function Reversed(s: string): string {
    if s == [] then [] else [s[|s| - 1]] + Reversed(s[..|s| - 1])
  }

  lemma LetterMoves(n: nat, res: string)
    requires n > 0
    ensures Letters(n / 26) + Reversed(res + [LetterOf(n % 26)]) == Letters(n) + Reversed(res)
  {
    var letter := LetterOf(n % 26);
    assert (res + [letter])[..|res|] == res;
    var higher, lower := Letters(n / 26), Reversed(res);
    assert higher + [letter] + lower == higher + ([letter] + lower);
  }

  method GenerateAssetName(assetId: int, numericEnabled: bool) returns (r: Result<string, NameError>)
    ensures r == AssetName(assetId, numericEnabled)
  {
    if assetId == 0 {
      return Ok("BTC");
    } else if assetId == 1 {
      return Ok("XCP");
    }
    if assetId < LOWEST { return Err(IdTooLow); }
    if numericEnabled {
      if assetId <= HIGHEST {
        if NUMERIC_ABOVE + 1 <= assetId { return Ok("A" + Decimal(assetId)); }
      } else {
        return Err(IdTooHigh);
      }
    }
    var res: string := [];
    var n: nat := assetId;
    while n > 0
      invariant Letters(n) + Reversed(res) == Letters(assetId)
    {
      LetterMoves(n, res);
      n, res := n / 26, res + [LetterOf(n % 26)];
    }
    assert Letters(0) + Reversed(res) == Reversed(res);
    return Ok(Reversed(res));
  }

  // ---------------------------------------------------------------- letters there and back

  lemma Powers()
    ensures Power26(3) == LOWEST && Power26(12) == NUMERIC_ABOVE
  {
    assert Power26(4) == 456976 && Power26(8) == 208827064576;
  }

  lemma {:induction false} LettersBack(n: nat)
    ensures AllLetters(Letters(n)) && LettersNumber(Letters(n)) == n
  {
    if n > 0 {
      LettersBack(n / 26);
      assert Letters(n)[..|Letters(n)| - 1] == Letters(n / 26);
    }
  }

  /** The name of a number has no leading A, and its length is the number's in base 26. */
  lemma {:induction false} LettersShape(n: nat, k: nat)
    requires Power26(k) <= n < Power26(k + 1)
    ensures |Letters(n)| == k + 1 && Letters(n)[0] != 'A'
  {
    if k == 0 {
      assert Power26(1) == 26 && n / 26 == 0;
    } else {
      assert Power26(k + 1) == 26 * Power26(k) && Power26(k) == 26 * Power26(k - 1);
      LettersShape(n / 26, k - 1);
    }
  }

  lemma {:induction false} SizeOf(n: nat) returns (k: nat)
    requires n > 0
    ensures Power26(k) <= n < Power26(k + 1)
  {
    if n < 26 {
      k := 0;
      assert Power26(1) == 26;
    } else {
      k := SizeOf(n / 26);
      assert Power26(k + 2) == 26 * Power26(k + 1) && Power26(k + 1) == 26 * Power26(k);
      k := k + 1;
    }
  }

  lemma {:induction false} PowersGrow(j: nat, k: nat)
    requires j <= k
    ensures Power26(j) <= Power26(k)
    decreases k
  {
    if j < k { PowersGrow(j, k - 1); }
  }

  /** Four letters at least from 26^3 on; thirteen at least from 26^12 on. */
  lemma LettersLength(n: nat)
    requires n >= LOWEST
    ensures |Letters(n)| >= 4 && Letters(n)[0] != 'A'
    ensures |Letters(n)| >= 13 <==> n >= NUMERIC_ABOVE
  {
    Powers();
    var k := SizeOf(n);
    LettersShape(n, k);
    if k < 3 { PowersGrow(k + 1, 3); }
    if k < 12 { PowersGrow(k + 1, 12); } else { PowersGrow(12, k); }
  }

  /** A name without leading A is the name of its number, which is as large as its length says. */
  lemma {:induction false} NumbersBack(name: string)
    requires AllLetters(name) && name != [] && name[0] != 'A'
    ensures Letters(LettersNumber(name)) == name
    ensures Power26(|name| - 1) <= LettersNumber(name) < Power26(|name|)
  {
    var init, n := name[..|name| - 1], LettersNumber(name);
    assert name == init + [name[|name| - 1]];
    if init == [] {
      assert LettersNumber(init) == 0 && n / 26 == 0 && Power26(1) == 26;
      assert Letters(n / 26) == [];
    } else {
      NumbersBack(init);
      assert n / 26 == LettersNumber(init);
    }
  }

  // ---------------------------------------------------------------- figures there and back

  /** The decimal form of a number: figures only, and no zero in front of others. */
  predicate Canonical(s: string) { s != [] && AllFigures(s) && (|s| > 1 ==> s[0] != '0') }

  lemma {:induction false} DecimalBack(n: nat)
    ensures Canonical(Decimal(n)) && Figures(Decimal(n)) == Some(n)
    ensures n > 0 ==> Decimal(n)[0] != '0'
  {
    if n >= 10 {
      DecimalBack(n / 10);
      assert Decimal(n)[..|Decimal(n)| - 1] == Decimal(n / 10);
    }
  }

  lemma FiguresOfMore(s: string, c: char)
    requires Figures(s).Some? && IsFigure(c)
    ensures Figures(s + [c]) == Some(Figures(s).value * 10 + (c as nat - '0' as nat))
  {
    var one := s + [c];
    assert one[..|one| - 1] == s && one[|one| - 2] == s[|s| - 1] && one[|one| - 1] == c;
  }

  lemma InitIsCanonical(s: string)
    requires Canonical(s) && |s| > 1
    ensures Canonical(s[..|s| - 1])
  {
    assert forall i :: 0 <= i < |s| - 1 ==> s[..|s| - 1][i] == s[i];
  }

  lemma DecimalOfMore(v: nat, c: char)
    requires v > 0 && IsFigure(c)
    ensures Decimal(v * 10 + (c as nat - '0' as nat)) == Decimal(v) + [c]
  {
    var n := v * 10 + (c as nat - '0' as nat);
    assert n / 10 == v && n % 10 == c as nat - '0' as nat;
  }

  lemma {:induction false} FiguresBack(s: string)
    requires Canonical(s)
    ensures Figures(s).Some? && Decimal(Figures(s).value) == s
    ensures s[0] != '0' ==> Figures(s).value > 0
  {
    if |s| > 1 {
      var init, c := s[..|s| - 1], s[|s| - 1];
      InitIsCanonical(s);
      FiguresBack(init);
      assert s == init + [c];
      FiguresOfMore(init, c);
      DecimalOfMore(Figures(init).value, c);
    }
  }

  lemma CanonicalParses(s: string)
    requires Canonical(s)
    ensures ParseInt(s) == Figures(s) && ParseInt(s).Some?
  {
    FiguresBack(s);
    assert IsFigure(s[0]) && IsFigure(s[|s| - 1]);
  }

  // ---------------------------------------------------------------- round trips

  /** The letters of a number are the name it gets back from, unless numeric names are on and the name is too long. */
  lemma LettersRoundTrip(id: nat, numericEnabled: bool)
    requires id >= LOWEST
    ensures AssetId(Letters(id), numericEnabled) ==
            if numericEnabled && id >= NUMERIC_ABOVE then Err(LongNotNumeric) else Ok(id)
  {
    LettersLength(id);
    LettersBack(id);
  }

  /** With numeric names, a number is its name's number exactly when it has a name and is not 26^12. */
  lemma NumberRoundTripIff(id: int)
    ensures (AssetName(id, true).Ok? && AssetId(AssetName(id, true).value, true) == Ok(id)) <==>
            id == 0 || id == 1 || (LOWEST <= id <= HIGHEST && id != NUMERIC_ABOVE)
    ensures AssetName(id, true).Ok? <==> id == 0 || id == 1 || LOWEST <= id <= HIGHEST
    ensures AssetId(AssetName(NUMERIC_ABOVE, true).value, true) == Err(LongNotNumeric)
  {
    LettersRoundTrip(NUMERIC_ABOVE, true);
    if LOWEST <= id <= NUMERIC_ABOVE {
      LettersRoundTrip(id, true);
    } else if NUMERIC_ABOVE < id <= HIGHEST {
      DecimalBack(id);
      CanonicalParses(Decimal(id));
      assert ("A" + Decimal(id))[1..] == Decimal(id);
      LongDecimal(id);
    }
  }

  lemma LongDecimal(id: nat)
    requires id >= 1000
    ensures |Decimal(id)| >= 3
  {
    assert |Decimal(id / 10)| >= 2 by { assert |Decimal(id / 10 / 10)| >= 1; }
  }

  /** Before numeric names, every number from 26^3 on is its name's number. */
  lemma NumberRoundTripBeforeIff(id: int)
    ensures (AssetName(id, false).Ok? && AssetId(AssetName(id, false).value, false) == Ok(id)) <==>
            id == 0 || id == 1 || LOWEST <= id
  {
    if LOWEST <= id { LettersRoundTrip(id, false); }
  }

  /** The check for too small a number at the end never fails: four letters without leading A are large enough. */
  lemma LettersAreLargeEnough(name: string)
    requires |name| >= 4
    ensures LettersId(name) != Err(TooShort)
  {
    if name[0] != 'A' && AllLetters(name) {
      NumbersBack(name);
      Powers();
      PowersGrow(3, |name| - 1);
    }
  }

  /**
   * An accepted name is its number's name exactly when it is not one of the other spellings that `int` takes
   * behind the A: with spaces, sign, underscores or leading zeros.
   */
  lemma NameRoundTripIff(name: string, numericEnabled: bool)
    requires AssetId(name, numericEnabled).Ok?
    ensures AssetName(AssetId(name, numericEnabled).value, numericEnabled) == Ok(name) <==>
            name[0] != 'A' || Canonical(name[1..])
  {
    var id := AssetId(name, numericEnabled).value;
    if name != "BTC" && name != "XCP" {
      if name[0] == 'A' {
        DecimalBack(id);
        assert ("A" + Decimal(id))[1..] == Decimal(id);
        if Canonical(name[1..]) {
          FiguresBack(name[1..]);
          CanonicalParses(name[1..]);
          assert name == "A" + name[1..];
        }
      } else {
        NumbersBack(name);
        Powers();
        if numericEnabled { PowersGrow(|name|, 12); }
      }
    }
  }

  /** No two accepted names in their plain spelling have the same number. */
  lemma NamesAreUnique(one: string, other: string, numericEnabled: bool)
    requires AssetId(one, numericEnabled).Ok? && AssetId(other, numericEnabled) == AssetId(one, numericEnabled)
    requires (one[0] != 'A' || Canonical(one[1..])) && (other[0] != 'A' || Canonical(other[1..]))
    ensures one == other
  {
    NameRoundTripIff(one, numericEnabled);
    NameRoundTripIff(other, numericEnabled);
  }

  // ---------------------------------------------------------------- the order of names

  /** The first differing letter decides. */
  ghost predicate AlphabeticallyLess(a: string, b: string) {
    exists k :: 0 <= k < |a| && k < |b| && a[..k] == b[..k] && a[k] < b[k]
  }

  lemma {:induction false} LettersBelow(name: string)
    requires AllLetters(name)
    ensures LettersNumber(name) < Power26(|name|)
  {
    if name != [] { LettersBelow(name[..|name| - 1]); }
  }

  lemma LastLetterDecides(a: string, b: string)
    requires AllLetters(a) && AllLetters(b) && |a| == |b| > 0
    ensures var x, y := LettersNumber(a[..|a| - 1]), LettersNumber(b[..|b| - 1]);
            && (x < y ==> LettersNumber(a) < LettersNumber(b))
            && (x == y ==> (LettersNumber(a) < LettersNumber(b) <==> a[|a| - 1] < b[|b| - 1]))
  {
  }

  lemma {:induction false} FirstLetterDecides(a: string, b: string, k: nat)
    requires AllLetters(a) && AllLetters(b) && k < |a| == |b| && a[..k] == b[..k] && a[k] < b[k]
    ensures LettersNumber(a) < LettersNumber(b)
  {
    var n := |a| - 1;
    LastLetterDecides(a, b);
    if k < n {
      assert a[..n][..k] == a[..k] && b[..n][..k] == b[..k];
      FirstLetterDecides(a[..n], b[..n], k);
    }
  }

  /** Among names of one length the numbers follow the alphabet. */
  lemma NumbersFollowTheAlphabet(a: string, b: string)
    requires AllLetters(a) && AllLetters(b) && |a| == |b| && AlphabeticallyLess(a, b)
    ensures LettersNumber(a) < LettersNumber(b)
  {
    var k :| 0 <= k < |a| && a[..k] == b[..k] && a[k] < b[k];
    FirstLetterDecides(a, b, k);
  }

  lemma LastFigure(s: string, init: string, c: char)
    requires s == init + [c] && Canonical(init) && IsFigure(c)
    ensures Figures(init).Some? && Figures(s) == Some(Figures(init).value * 10 + (c as nat - '0' as nat))
  {
    FiguresBack(init);
    FiguresOfMore(init, c);
  }

  lemma {:induction false} FirstFigureDecides(a: string, b: string, k: nat)
    requires Canonical(a) && Canonical(b) && k < |a| == |b| && a[..k] == b[..k] && a[k] < b[k]
    ensures Figures(a).Some? && Figures(b).Some? && Figures(a).value < Figures(b).value
  {
    var n := |a| - 1;
    if n > 0 {
      InitIsCanonical(a);
      InitIsCanonical(b);
      LastFigure(a, a[..n], a[n]);
      LastFigure(b, b[..n], b[n]);
      if k < n {
        assert a[..n][..k] == a[..k] && b[..n][..k] == b[..k];
        FirstFigureDecides(a[..n], b[..n], k);
      }
    }
  }

  /** So do decimal numbers. */
  lemma FiguresFollowTheirOrder(a: string, b: string)
    requires Canonical(a) && Canonical(b) && |a| == |b| && AlphabeticallyLess(a, b)
    ensures Figures(a).Some? && Figures(b).Some? && Figures(a).value < Figures(b).value
  {
    var k :| 0 <= k < |a| && a[..k] == b[..k] && a[k] < b[k];
    FirstFigureDecides(a, b, k);
  }

  // ---------------------------------------------------------------- what is accepted

  predicate AllSpaces(s: string) { forall i :: 0 <= i < |s| ==> s[i] == ' ' || '\t' <= s[i] <= '\r' }

  lemma {:induction false} SpacesAreStripped(a: string, s: string, b: string)
    requires AllSpaces(a) && AllSpaces(b) && s != [] && !IsSpace(s[0]) && !IsSpace(s[|s| - 1])
    ensures Strip(a + s + b) == s
    decreases |a| + |b|
  {
    var text := a + s + b;
    if a != [] {
      assert text[0] == a[0] && text[1..] == a[1..] + s + b;
      SpacesAreStripped(a[1..], s, b);
    } else {
      assert text == s + b && text[0] == s[0];
      if b != [] {
        var n := |b| - 1;
        assert text[|text| - 1] == b[n] && text[..|text| - 1] == a + s + b[..n];
        SpacesAreStripped(a, s, b[..n]);
      }
    }
  }

  /** A number may stand between spaces, with a sign or without, and only a minus changes it. */
  lemma SpellingsOfNumber(n: nat, a: string, b: string)
    requires AllSpaces(a) && AllSpaces(b)
    ensures ParseInt(a + Decimal(n) + b) == Some(n)
    ensures ParseInt(a + ("+" + Decimal(n)) + b) == Some(n)
    ensures ParseInt(a + ("-" + Decimal(n)) + b) == Some(-(n as int))
  {
    var s := Decimal(n);
    DecimalBack(n);
    assert IsFigure(s[0]) && IsFigure(s[|s| - 1]);
    SpacesAreStripped(a, s, b);
    SpacesAreStripped(a, "+" + s, b);
    SpacesAreStripped(a, "-" + s, b);
    assert ("+" + s)[1..] == s && ("-" + s)[1..] == s;
  }

  lemma PlusParses(n: nat)
    ensures ParseInt("+" + Decimal(n)) == Some(n) && Decimal(n)[0] != '+'
  {
    SpellingsOfNumber(n, "", "");
    assert "" + ("+" + Decimal(n)) + "" == "+" + Decimal(n);
    DecimalBack(n);
  }

  lemma NumericName(text: string, id: nat)
    requires |text| >= 3 && NUMERIC_ABOVE < id <= HIGHEST && ParseInt(text) == Some(id)
    ensures AssetId("A" + text, true) == Ok(id)
  {
    assert ("A" + text)[1..] == text;
  }

  /** A plus sign behind the A is another spelling of the same number. */
  lemma PlusSpellsAlike(id: nat)
    requires NUMERIC_ABOVE < id <= HIGHEST
    ensures AssetId("A" + ("+" + Decimal(id)), true) == Ok(id) && AssetName(id, true) != Ok("A" + ("+" + Decimal(id)))
  {
    var s := Decimal(id);
    PlusParses(id);
    LongDecimal(id);
    NumericName("+" + s, id);
    assert ("A" + s)[1] == s[0] && ("A" + ("+" + s))[1] == '+';
  }

  lemma FiguresBehindUnderscore(text: string, s: string, c: char)
    requires |text| == |s| + 2 && text[..|s|] == s && text[|s|] == '_' && text[|s| + 1] == c && IsFigure(c)
    ensures Figures(text) == match Figures(s) case None => None case Some(v) => Some(v * 10 + (c as nat - '0' as nat))
  {
    assert text[..|text| - 2] == s;
  }

  /** An underscore between two figures says nothing. */
  lemma UnderscoreSaysNothing(s: string, c: char)
    requires Figures(s).Some? && IsFigure(c)
    ensures Figures(s + "_" + [c]) == Figures(s + [c])
  {
    FiguresOfMore(s, c);
    FiguresBehindUnderscore(s + "_" + [c], s, c);
  }

  /** Two fixed names, letters without leading A, and with numeric names an A before a number in their range. */
  predicate Acceptable(name: string, numericEnabled: bool) {
    || name == "BTC" || name == "XCP"
    || (|name| >= 4 && name[0] != 'A' && AllLetters(name) && (numericEnabled ==> |name| <= 12))
    || (|name| >= 4 && name[0] == 'A' && numericEnabled && ParseInt(name[1..]).Some?
        && 95428956661682177 <= ParseInt(name[1..]).value <= 18446744073709551615)
  }

  lemma AcceptedIff(name: string, numericEnabled: bool)
    ensures AssetId(name, numericEnabled).Ok? <==> Acceptable(name, numericEnabled)
  {
    if |name| >= 4 { LettersAreLargeEnough(name); }
  }

  /** The first reason in the order of the checks. */
  lemma WhyRefused(name: string, numericEnabled: bool)
    requires name != "BTC" && name != "XCP"
    ensures var r := AssetId(name, numericEnabled);
            && (r == Err(TooShort) <==> |name| < 4)
            && (r == Err(NotNumeric) <==>
                  |name| >= 4 && name[0] == 'A' && (numericEnabled ==> ParseInt(name[1..]).None?))
            && (r == Err(NotInRange) <==>
                  && |name| >= 4 && name[0] == 'A' && numericEnabled && ParseInt(name[1..]).Some?
                  && !(NUMERIC_ABOVE < ParseInt(name[1..]).value <= HIGHEST))
            && (r == Err(LongNotNumeric) <==> |name| >= 13 && name[0] != 'A' && numericEnabled)
            && (r == Err(InvalidCharacter) <==>
                  |name| >= 4 && name[0] != 'A' && !AllLetters(name) && (numericEnabled ==> |name| < 13))
  {
    if |name| >= 4 { LettersAreLargeEnough(name); }
  }

  /** Ids below the names of four letters and, with numeric names, above 64 bits have no name. */
  lemma WhyUnnamed(id: int, numericEnabled: bool)
    ensures AssetName(id, numericEnabled) == Err(IdTooLow) <==> id < 26 * 26 * 26 && id != 0 && id != 1
    ensures AssetName(id, numericEnabled) == Err(IdTooHigh) <==> id > 18446744073709551615 && numericEnabled
    ensures AssetName(id, numericEnabled).Err? ==> AssetName(id, numericEnabled).error in {IdTooLow, IdTooHigh}
  {
  }
}
