/** The fare policy of the route engine: reading a provider's fare display
    text such as "₹32.00" as an amount, and the per-kilometre auto fare. */
module Fare {

  import opened Wrappers
  import opened Text

  /** The characters `replaceAll("[^0-9.]", "")` keeps. */
  predicate Kept(c: char) {
    IsDigit(c) || c == '.'
  }

  /** The fare text with every character other than a digit or `.` removed. */
  function Clean(s: string): (r: string)
    ensures |r| <= |s|
    ensures forall i :: 0 <= i < |r| ==> Kept(r[i])
  {
    if |s| == 0 then []
    else (if Kept(s[0]) then [s[0]] else []) + Clean(s[1..])
  }

  /** Position of the first `.`, if any. */
  function DotIndex(s: string): (r: Option<nat>)
    ensures r.Some? ==> r.value < |s| && s[r.value] == '.' && '.' !in s[..r.value]
    ensures r.None? ==> '.' !in s
  {
    if |s| == 0 then None
    else if s[0] == '.' then Some(0)
    else
      var rest := DotIndex(s[1..]);
      if rest.None? then None
      else
        assert s[..rest.value + 1] == [s[0]] + s[1..][..rest.value];
        Some(rest.value + 1)
  }

  function Pow10(n: nat): (p: nat)
    ensures p >= 1
  {
    if n == 0 then 1 else 10 * Pow10(n - 1)
  }

  /** `Double.parseDouble` on a string made of digits and dots only: such a
      string is a decimal number exactly when it has at most one dot and at
      least one digit ("7", "7.", ".5", "7.25"); otherwise the parse throws
      (".", "1.2.3"). The value is exact here. */
  function ParseDecimal(s: string): (r: Option<real>)
    requires forall i :: 0 <= i < |s| ==> Kept(s[i])
    ensures r.Some? ==> r.value >= 0.0
  {
    match DotIndex(s)
    case None =>
      KeptWithoutDotIsDigits(s);
      if |s| == 0 then None else Some(DigitsValue(s) as real)
    case Some(d) =>
      var whole := s[..d];
      var frac := s[d + 1..];
      if '.' in frac || |whole| + |frac| == 0 then None
      else
        KeptWithoutDotIsDigits(whole);
        KeptWithoutDotIsDigits(frac);
        Some(DecimalValue(whole, frac))
  }

  /** The value of "<whole>.<frac>" for two digit runs. */
  function DecimalValue(whole: string, frac: string): real
    requires AllDigits(whole) && AllDigits(frac)
  {
    DigitsValue(whole) as real + (DigitsValue(frac) as real) / (Pow10(|frac|) as real)
  }

  lemma KeptWithoutDotIsDigits(s: string)
    requires forall i :: 0 <= i < |s| ==> Kept(s[i])
    requires '.' !in s
    ensures AllDigits(s)
  {
    forall i | 0 <= i < |s|
      ensures IsDigit(s[i])
    {
      assert s[i] in s;
    }
  }

  lemma DigitsHaveNoDot(s: string)
    requires AllDigits(s)
    ensures DotIndex(s).None?
  {
    assert '.' !in s by {
      forall i | 0 <= i < |s|
        ensures s[i] != '.'
      {
        assert IsDigit(s[i]);
      }
    }
  }

  /** `parseFareTextToDouble`: 0 for a null or blank text, for a text with
      nothing left after cleaning, and for a cleaned text that does not
      parse; otherwise the decimal the cleaned text spells. */
  function ParseFare(fareText: Option<string>): (r: real)
    ensures r >= 0.0
    ensures fareText.None? ==> r == 0.0
  {
    if fareText.None? || IsBlank(fareText.value) then 0.0
    else
      var cleaned := Clean(fareText.value);
      if |cleaned| == 0 then 0.0
      else ParseDecimal(cleaned).GetOr(0.0)
  }

  /** `Math.round(x)` for the values the engine rounds: the nearest integer,
      halves rounded up. */
  function Round(x: real): (r: int)
    ensures r as real - 0.5 <= x < r as real + 0.5
  {
    (x + 0.5).Floor
  }

  /** The auto fare of one driving leg:
      `Math.round(distanceMeters / 1000.0 * autoRatePerKmRs)`. */
  function AutoFare(distanceMeters: int, ratePerKm: real): (r: int)
    ensures var x := (distanceMeters as real) / 1000.0 * ratePerKm;
            r as real - 0.5 <= x < r as real + 0.5
    ensures distanceMeters >= 0 && ratePerKm >= 0.0 ==> r >= 0
  {
    Round((distanceMeters as real) / 1000.0 * ratePerKm)
  }

  lemma {:induction false} CleanAppend(a: string, b: string)
    ensures Clean(a + b) == Clean(a) + Clean(b)
  {
    if |a| == 0 {
      assert a + b == b;
    } else {
      assert (a + b)[0] == a[0];
      assert (a + b)[1..] == a[1..] + b;
      CleanAppend(a[1..], b);
    }
  }

  lemma {:induction false} CleanKeepsKept(s: string)
    requires forall i :: 0 <= i < |s| ==> Kept(s[i])
    ensures Clean(s) == s
  {
    if |s| > 0 {
      CleanKeepsKept(s[1..]);
      assert s == [s[0]] + s[1..];
    }
  }

  lemma {:induction false} CleanDropsNoise(s: string)
    requires forall i :: 0 <= i < |s| ==> !Kept(s[i])
    ensures Clean(s) == []
  {
    if |s| > 0 {
      CleanDropsNoise(s[1..]);
    }
  }

  /** Only digits and dots matter: the fare read from a text is the fare read
      from its cleaned form. */
  lemma ParseFareOnlyReadsKept(s: string)
    ensures ParseFare(Some(s)) == ParseFare(Some(Clean(s)))
  {
    var c := Clean(s);
    CleanKeepsKept(c);
    if IsBlank(s) {
      BlankCleansEmpty(s);
    } else if |c| > 0 {
      assert !IsWhitespace(c[0]);
    }
  }

  /** Whitespace is never kept, so a blank text cleans to nothing. */
  lemma {:induction false} BlankCleansEmpty(s: string)
    requires IsBlank(s)
    ensures Clean(s) == []
  {
    if |s| > 0 {
      assert IsWhitespace(s[0]);
      BlankCleansEmpty(s[1..]);
    }
  }

  lemma {:induction false} CleanMembers(s: string, x: char)
    ensures x in Clean(s) ==> x in s
  {
    if |s| > 0 {
      CleanMembers(s[1..], x);
      assert s == [s[0]] + s[1..];
    }
  }

  /** A text without any digit is worth nothing ("Free", "", "₹."). */
  lemma ParseFareNoDigits(s: string)
    requires forall i :: 0 <= i < |s| ==> !IsDigit(s[i])
    ensures ParseFare(Some(s)) == 0.0
  {
    var c := Clean(s);
    forall i | 0 <= i < |c|
      ensures c[i] == '.'
    {
      assert c[i] in c;
      CleanMembers(s, c[i]);
    }
    if |c| > 0 && !IsBlank(s) {
      var d := DotIndex(c);
      assert d.Some?;
      var frac := c[d.value + 1..];
      if |frac| > 0 {
        assert frac[0] == '.';
      }
    }
  }

  /** A cleaned text with two or more dots does not parse and is worth
      nothing ("1.2.3"). */
  lemma ParseFareTwoDots(s: string, i: nat, j: nat)
    requires i < j < |Clean(s)| && Clean(s)[i] == '.' && Clean(s)[j] == '.'
    ensures ParseFare(Some(s)) == 0.0
  {
    var c := Clean(s);
    if !IsBlank(s) {
      var d := DotIndex(c);
      assert d.Some? && d.value <= i;
      assert c[d.value + 1..][j - d.value - 1] == '.';
    }
  }

  /** After a prefix of noise, the fare is what the kept part parses to. */
  lemma ParseFareAfterNoise(prefix: string, amount: string)
    requires forall i :: 0 <= i < |prefix| ==> !Kept(prefix[i])
    requires 0 < |amount| && forall i :: 0 <= i < |amount| ==> Kept(amount[i])
    ensures ParseFare(Some(prefix + amount)) == ParseDecimal(amount).GetOr(0.0)
  {
    CleanAppend(prefix, amount);
    CleanDropsNoise(prefix);
    CleanKeepsKept(amount);
    assert Clean(prefix + amount) == amount;
    var c := (prefix + amount)[|prefix|];
    assert c == amount[0];
    KeptIsNotWhitespace(c);
    assert !IsBlank(prefix + amount);
  }

  /** Digits and dots are not whitespace. */
  lemma KeptIsNotWhitespace(c: char)
    requires Kept(c)
    ensures !IsWhitespace(c)
  {
    assert 0x2E <= c as int <= 0x39;
  }

  /** Round trip with the decimal printer: a whole amount printed after a
      currency prefix reads back as that amount. */
  lemma ParseFareWhole(prefix: string, n: nat)
    requires forall i :: 0 <= i < |prefix| ==> !Kept(prefix[i])
    ensures ParseFare(Some(prefix + NatToString(n))) == n as real
  {
    var digits := NatToString(n);
    ParseFareAfterNoise(prefix, digits);
    NatToStringRoundTrip(n);
    DigitsHaveNoDot(digits);
  }

  /** Round trip for the provider's usual "₹<rupees>.<paise>" shape: the text
      reads back as rupees plus paise hundredths; in particular "₹32.00"
      is 32. */
  lemma ParseFareRupeesPaise(prefix: string, rupees: nat, p1: nat, p2: nat)
    requires forall i :: 0 <= i < |prefix| ==> !Kept(prefix[i])
    requires p1 < 10 && p2 < 10
    ensures ParseFare(Some(prefix + NatToString(rupees) + "." + [DigitChar(p1), DigitChar(p2)]))
            == rupees as real + ((10 * p1 + p2) as real) / 100.0
  {
    var digits := NatToString(rupees);
    var paise := [DigitChar(p1), DigitChar(p2)];
    var amount := digits + "." + paise;
    assert prefix + digits + "." + paise == prefix + amount;
    ParseFareAfterNoise(prefix, amount);
    DecimalRupeesPaise(rupees, p1, p2);
  }

  /** "<whole>.<frac>" with digit runs on both sides and at least one digit
      after the dot parses as whole + frac / 10^|frac|. */
  lemma ParseDecimalSplit(whole: string, frac: string)
    requires AllDigits(whole) && AllDigits(frac) && 0 < |frac|
    ensures forall i :: 0 <= i < |whole + "." + frac| ==> Kept((whole + "." + frac)[i])
    ensures ParseDecimal(whole + "." + frac) == Some(DecimalValue(whole, frac))
  {
    DecimalKept(whole, frac);
    DecimalDot(whole, frac);
    DigitsHaveNoDot(frac);
    ParseDecimalAt(whole + "." + frac, |whole|);
  }

  /** A digits-and-dots text whose only dot is at `d`, with a digit on at
      least one side, parses as the digits before plus the digits after
      scaled down. */
  lemma ParseDecimalAt(amount: string, d: nat)
    requires forall i :: 0 <= i < |amount| ==> Kept(amount[i])
    requires DotIndex(amount) == Some(d) && '.' !in amount[d + 1..] && 1 < |amount|
    ensures AllDigits(amount[..d]) && AllDigits(amount[d + 1..])
    ensures ParseDecimal(amount) == Some(DecimalValue(amount[..d], amount[d + 1..]))
  {
    KeptWithoutDotIsDigits(amount[..d]);
    KeptWithoutDotIsDigits(amount[d + 1..]);
  }

  /** "<whole>.<frac>" is made of digits and dots only. */
  lemma DecimalKept(whole: string, frac: string)
    requires AllDigits(whole) && AllDigits(frac)
    ensures forall i :: 0 <= i < |whole + "." + frac| ==> Kept((whole + "." + frac)[i])
  {
    var amount := whole + "." + frac;
    forall i | 0 <= i < |amount|
      ensures Kept(amount[i])
    {
      if i < |whole| {
        assert amount[i] == whole[i];
      } else if |whole| < i {
        assert amount[i] == frac[i - |whole| - 1];
      }
    }
  }

  /** The dot of "<whole>.<frac>" is the first one, and splitting there gives
      back the two digit runs. */
  lemma DecimalDot(whole: string, frac: string)
    requires AllDigits(whole)
    ensures var amount := whole + "." + frac;
            && DotIndex(amount) == Some(|whole|)
            && amount[..|whole|] == whole
            && amount[|whole| + 1..] == frac
  {
    DigitsHaveNoDot(whole);
    DotIndexAfterDigits(whole, "." + frac);
    assert whole + "." + frac == whole + ("." + frac);
  }

  /** Two digits read as a two-digit number. */
  lemma TwoDigits(p1: nat, p2: nat)
    requires p1 < 10 && p2 < 10
    ensures DigitsValue([DigitChar(p1), DigitChar(p2)]) == 10 * p1 + p2
  {
    var paise := [DigitChar(p1), DigitChar(p2)];
    assert paise[..1] == [DigitChar(p1)];
    assert [DigitChar(p1)][..0] == [];
    assert DigitsValue([DigitChar(p1)]) == p1;
  }

  /** The decimal reading of "<rupees>.<p1><p2>". */
  lemma DecimalRupeesPaise(rupees: nat, p1: nat, p2: nat)
    requires p1 < 10 && p2 < 10
    ensures var amount := NatToString(rupees) + "." + [DigitChar(p1), DigitChar(p2)];
            ParseDecimal(amount) == Some(rupees as real + ((10 * p1 + p2) as real) / 100.0)
  {
    var digits := NatToString(rupees);
    var paise := [DigitChar(p1), DigitChar(p2)];
    NatToStringRoundTrip(rupees);
    ParseDecimalSplit(digits, paise);
    assert DecimalValue(digits, paise) == rupees as real + ((10 * p1 + p2) as real) / 100.0 by {
      TwoDigits(p1, p2);
      assert Pow10(|paise|) == 100;
    }
  }

  lemma {:induction false} DotIndexAfterDigits(a: string, b: string)
    requires DotIndex(a).None? && DotIndex(b) == Some(0)
    ensures DotIndex(a + b) == Some(|a|)
  {
    if |a| == 0 {
      assert a + b == b;
    } else {
      assert (a + b)[1..] == a[1..] + b;
      assert DotIndex(a[1..]).None?;
      DotIndexAfterDigits(a[1..], b);
    }
  }

  /** The fare text "₹32.00" of the source's own comment is worth 32. */
  lemma ParseFareExample()
    ensures ParseFare(Some("₹32.00")) == 32.0
  {
    assert NatToString(32) == "32";
    assert "₹32.00" == "₹" + NatToString(32) + "." + [DigitChar(0), DigitChar(0)];
    ParseFareRupeesPaise("₹", 32, 0, 0);
  }
}
