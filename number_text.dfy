/**
 * Reading the locale-formatted price strings of the Steam market
 * (`parseNumberString` in lib/pricing.ts): keep digits, dots and commas,
 * drop the commas, and convert what is left with JavaScript's `Number`.
 */
module NumberText {
  import opened Common

  /** The characters that survive the `/[^0-9.,]/g` replacement. */
  predicate IsNumberChar(c: char) {
    IsDigit(c) || c == '.' || c == ','
  }

  predicate NotComma(c: char) {
    c != ','
  }

  /** `s.replace(/[^…]/g, '')`: the characters of `s` that satisfy `keep`, in order. */
  function Retain(s: string, keep: char -> bool): (r: string)
    ensures |r| <= |s|
    ensures forall i :: 0 <= i < |r| ==> keep(r[i]) && r[i] in s
  {
    if s == [] then []
    else (if keep(s[0]) then [s[0]] else []) + Retain(s[1..], keep)
  }

  lemma {:induction false} RetainAppend(a: string, b: string, keep: char -> bool)
    ensures Retain(a + b, keep) == Retain(a, keep) + Retain(b, keep)
  {
    if a == [] {
      assert a + b == b;
    } else {
      assert (a + b)[1..] == a[1..] + b;
      RetainAppend(a[1..], b, keep);
    }
  }

  lemma {:induction false} RetainAll(s: string, keep: char -> bool)
    requires forall i :: 0 <= i < |s| ==> keep(s[i])
    ensures Retain(s, keep) == s
  {
    if s != [] {
      RetainAll(s[1..], keep);
    }
  }

  lemma {:induction false} RetainNone(s: string, keep: char -> bool)
    requires forall i :: 0 <= i < |s| ==> !keep(s[i])
    ensures Retain(s, keep) == []
  {
    if s != [] {
      RetainNone(s[1..], keep);
    }
  }

  predicate DigitsAndDots(s: string) {
    forall i :: 0 <= i < |s| ==> IsDigit(s[i]) || s[i] == '.'
  }

  /** The position of the first '.' in `s`, if any. */
  function DotIndex(s: string): (r: Option<nat>)
    ensures r.None? <==> '.' !in s
    ensures r.Some? ==> r.value < |s| && s[r.value] == '.' && '.' !in s[..r.value]
  {
    if s == [] then None
    else if s[0] == '.' then Some(0)
    else
      var k := DotIndex(s[1..]);
      if k.None? then None
      else
        assert s[..k.value + 1] == [s[0]] + s[1..][..k.value];
        Some(k.value + 1)
  }

  /** Digits and dots that `Number` reads as NaN: a second dot, or a dot alone. */
  predicate NotANumber(s: string) {
    DotIndex(s).Some? && ('.' in s[DotIndex(s).value + 1..] || s == ".")
  }

  /**
   * JavaScript's `Number` on a string made only of digits and dots: the
   * empty string is 0; one optional dot separates the integer and the
   * fraction digits; a lone dot or a second dot gives NaN (`None`).
   */
  function JsNumber(s: string): (r: Option<real>)
    requires DigitsAndDots(s)
    ensures r.None? <==> NotANumber(s)
    ensures DotIndex(s).None? ==> AllDigits(s) && r == Some(DigitsValue(s) as real)
    ensures r.Some? ==> r.value >= 0.0
  {
    match DotIndex(s)
    case None => Some(DigitsValue(s) as real)
    case Some(k) =>
      var whole, fraction := s[..k], s[k + 1..];
      if '.' in fraction || (whole == [] && fraction == []) then None
      else
        assert AllDigits(whole) && AllDigits(fraction) by {
          assert forall i :: 0 <= i < |whole| ==> whole[i] in s[..k];
        }
        QuotientNonNegative(DigitsValue(fraction) as real, Pow10(|fraction|) as real);
        Some(DigitsValue(whole) as real
             + DigitsValue(fraction) as real / Pow10(|fraction|) as real)
  }

  lemma QuotientNonNegative(a: real, b: real)
    requires a >= 0.0 && b > 0.0
    ensures a / b >= 0.0
  {
    assert a / b * b == a;
  }

  /**
   * `parseNumberString`: absent or empty text is `null`; otherwise the
   * number left after stripping everything but digits and dots.
   */
  function ParseNumberString(s: Option<string>): (r: Option<real>)
    ensures (s.None? || s.value == "") ==> r.None?
    ensures s.Some? && s.value != "" ==> (r.None? <==> NotANumber(Stripped(s.value)))
    ensures s.Some? && s.value != "" && '.' !in Stripped(s.value) ==>
      AllDigits(Stripped(s.value)) && r == Some(DigitsValue(Stripped(s.value)) as real)
    ensures r.Some? ==> r.value >= 0.0
  {
    if s.None? || s.value == "" then None
    else JsNumber(Stripped(s.value))
  }

  /** `s.replace(/[^0-9.,]/g, '').replace(/,/g, '')`: the digits and dots of `s`, in order. */
  function Stripped(s: string): (t: string)
    ensures DigitsAndDots(t)
  {
    Retain(Retain(s, IsNumberChar), NotComma)
  }

  /** A second dot, or a dot with no digit beside it, makes the price null. */
  lemma MalformedNumbersAreNull()
    ensures ParseNumberString(Some("1.2.3")) == None
    ensures ParseNumberString(Some("$.")) == None
  {
    StrippedKeepsDigitsAndDots("1.2.3");
    TwoDotsAreNaN();
    LoneDotStripped();
    LoneDotIsNaN();
  }

  lemma TwoDotsAreNaN()
    ensures NotANumber("1.2.3")
  {
    assert "1.2.3"[1..][0] == '.';
    assert DotIndex("1.2.3") == Some(1);
    assert "1.2.3"[2..][1] == '.';
  }

  lemma LoneDotStripped()
    ensures Stripped("$.") == "."
  {
    assert "$."[1..] == ".";
    StrippedKeepsDigitsAndDots(".");
  }

  lemma LoneDotIsNaN()
    ensures NotANumber(".")
  {
    assert DotIndex(".") == Some(0);
  }

  lemma StrippedKeepsDigitsAndDots(s: string)
    requires DigitsAndDots(s)
    ensures Stripped(s) == s
  {
    RetainAll(s, IsNumberChar);
    RetainAll(s, NotComma);
  }

  /** Text without any digit, dot or comma, such as a currency sign or code. */
  predicate Decoration(s: string) {
    forall i :: 0 <= i < |s| ==> !IsNumberChar(s[i])
  }

  /** Two decimal digits for a number of cents below 100. */
  function CentsDigits(c: nat): (s: string)
    requires c < 100
    ensures |s| == 2 && AllDigits(s)
  {
    [DigitChar(c / 10), DigitChar(c % 10)]
  }

  lemma CentsValue(c: nat)
    requires c < 100
    ensures DigitsValue(CentsDigits(c)) == c
  {
    var fraction := CentsDigits(c);
    assert fraction[..1] == [DigitChar(c / 10)];
    assert [DigitChar(c / 10)][..0] == [];
    assert DigitsValue(fraction[..1]) == c / 10;
    assert DigitsValue(fraction) == c / 10 * 10 + c % 10;
  }

  lemma NumberOfPrice(d: nat, c: nat)
    requires c < 100
    ensures DigitsAndDots(NatDigits(d) + "." + CentsDigits(c))
    ensures JsNumber(NatDigits(d) + "." + CentsDigits(c))
         == Some(d as real + c as real / 100.0)
  {
    var whole, fraction := NatDigits(d), CentsDigits(c);
    var s := whole + "." + fraction;
    assert '.' !in whole by {
      assert forall i :: 0 <= i < |whole| ==> IsDigit(whole[i]);
    }
    assert s[..|whole|] == whole && s[|whole|] == '.';
    assert '.' !in s[..|whole|];
    assert DotIndex(s) == Some(|whole|);
    assert s[|whole| + 1..] == fraction;
    DigitsOfNat(d);
    CentsValue(c);
    assert Pow10(2) == 100;
  }

  /** Decoration around the number text is dropped; so are commas inside it. */
  lemma StripDecoration(prefix: string, body: string, suffix: string)
    requires Decoration(prefix) && Decoration(suffix)
    requires forall i :: 0 <= i < |body| ==> IsNumberChar(body[i])
    ensures Retain(Retain(prefix + body + suffix, IsNumberChar), NotComma)
         == Retain(body, NotComma)
  {
    var kept := Retain(prefix + body + suffix, IsNumberChar);
    assert kept == body by {
      assert prefix + body + suffix == prefix + (body + suffix);
      RetainAppend(prefix, body + suffix, IsNumberChar);
      RetainAppend(body, suffix, IsNumberChar);
      RetainNone(prefix, IsNumberChar);
      RetainNone(suffix, IsNumberChar);
      RetainAll(body, IsNumberChar);
    }
  }

  /**
   * A price rendered as decoration, whole units, a dot, two cent digits and
   * decoration (for instance "$12.05 USD") reads back as units + cents/100.
   */
  lemma ParsePriceText(d: nat, c: nat, prefix: string, suffix: string)
    requires c < 100 && Decoration(prefix) && Decoration(suffix)
    ensures ParseNumberString(Some(prefix + NatDigits(d) + "." + CentsDigits(c) + suffix))
         == Some(d as real + c as real / 100.0)
  {
    var body := NatDigits(d) + "." + CentsDigits(c);
    var text := prefix + NatDigits(d) + "." + CentsDigits(c) + suffix;
    assert text == prefix + body + suffix;
    assert text != "";
    NumberOfPrice(d, c);
    StripDecoration(prefix, body, suffix);
    assert forall i :: 0 <= i < |body| ==> NotComma(body[i]);
    RetainAll(body, NotComma);
    assert ParseNumberString(Some(text)) == JsNumber(body);
  }

  /**
   * Non-empty text with no digit, dot or comma ("N/A", "--") is stripped to
   * the empty string, which `Number` reads as 0: it parses as 0, not null.
   */
  lemma NonNumericTextIsZero(s: string)
    requires s != "" && Decoration(s)
    ensures ParseNumberString(Some(s)) == Some(0.0)
  {
    RetainNone(s, IsNumberChar);
  }

  lemma AllDigitsConcat(a: string, b: string)
    requires AllDigits(a) && AllDigits(b)
    ensures AllDigits(a + b)
  {
  }

  lemma ShiftStep(va: int, vb: int, p: int, d: int)
    ensures (va * p + vb) * 10 + d == va * (10 * p) + (vb * 10 + d)
  {
  }

  lemma {:induction false} DigitsValueAppend(a: string, b: string)
    requires AllDigits(a) && AllDigits(b)
    ensures AllDigits(a + b)
    ensures DigitsValue(a + b) == DigitsValue(a) * Pow10(|b|) + DigitsValue(b)
  {
    AllDigitsConcat(a, b);
    if b == [] {
      assert a + b == a;
    } else {
      var b', last := b[..|b| - 1], b[|b| - 1];
      assert (a + b)[..|a + b| - 1] == a + b';
      assert (a + b)[|a + b| - 1] == last;
      DigitsValueAppend(a, b');
      ShiftStep(DigitsValue(a), DigitsValue(b'), Pow10(|b'|), DigitValue(last));
    }
  }

  /**
   * Every comma is taken for a grouping separator, so a decimal comma (a
   * price rendered as "12,05€") reads as a hundred times the amount.
   */
  lemma DropSeparator(whole: string, fraction: string)
    requires AllDigits(whole) && AllDigits(fraction)
    ensures Retain(whole + "," + fraction, NotComma) == whole + fraction
  {
    var tail := "," + fraction;
    assert whole + "," + fraction == whole + tail;
    RetainAppend(whole, tail, NotComma);
    assert tail[0] == ',' && tail[1..] == fraction;
    assert Retain(tail, NotComma) == Retain(fraction, NotComma);
    assert forall i :: 0 <= i < |whole| ==> NotComma(whole[i]);
    assert forall i :: 0 <= i < |fraction| ==> NotComma(fraction[i]);
    RetainAll(whole, NotComma);
    RetainAll(fraction, NotComma);
  }

  lemma CommaPriceNumber(d: nat, c: nat)
    requires c < 100
    ensures DigitsAndDots(NatDigits(d) + CentsDigits(c))
    ensures JsNumber(NatDigits(d) + CentsDigits(c)) == Some((100 * d + c) as real)
  {
    var whole, fraction := NatDigits(d), CentsDigits(c);
    DigitsValueAppend(whole, fraction);
    DigitsOfNat(d);
    CentsValue(c);
    assert Pow10(2) == 100;
    assert '.' !in whole + fraction by {
      assert forall i :: 0 <= i < |whole + fraction| ==> IsDigit((whole + fraction)[i]);
    }
  }

  lemma DecimalCommaPrice(d: nat, c: nat, prefix: string, suffix: string)
    requires c < 100 && Decoration(prefix) && Decoration(suffix)
    ensures ParseNumberString(Some(prefix + NatDigits(d) + "," + CentsDigits(c) + suffix))
         == Some((100 * d + c) as real)
  {
    var whole, fraction := NatDigits(d), CentsDigits(c);
    var body := whole + "," + fraction;
    var text := prefix + NatDigits(d) + "," + CentsDigits(c) + suffix;
    assert text == prefix + body + suffix;
    assert text != "";
    assert forall i :: 0 <= i < |body| ==> IsNumberChar(body[i]) by {
      forall i | 0 <= i < |body| ensures IsNumberChar(body[i]) {
        if i < |whole| {
          assert body[i] == whole[i];
        } else if i > |whole| {
          assert body[i] == fraction[i - |whole| - 1];
        }
      }
    }
    StripDecoration(prefix, body, suffix);
    DropSeparator(whole, fraction);
    CommaPriceNumber(d, c);
    assert ParseNumberString(Some(text)) == JsNumber(whole + fraction);
  }

  /** `Number(v.replace(/[^0-9]/g, ''))`: the digits of `v` read as one number. */
  function DigitsOnlyNumber(v: string): (n: nat)
    ensures AllDigits(v) ==> n == DigitsValue(v)
    ensures (forall i :: 0 <= i < |v| ==> !IsDigit(v[i])) ==> n == 0
  {
    var digits := Retain(v, IsDigit);
    assert AllDigits(digits);
    if AllDigits(v) then
      RetainAll(v, IsDigit);
      DigitsValue(digits)
    else
      if forall i :: 0 <= i < |v| ==> !IsDigit(v[i]) then
        RetainNone(v, IsDigit);
        DigitsValue(digits)
      else DigitsValue(digits)
  }

  /** A character that is not a digit, wherever it stands, does not change the number read. */
  lemma NonDigitIgnored(a: string, c: char, b: string)
    requires !IsDigit(c)
    ensures DigitsOnlyNumber(a + [c] + b) == DigitsOnlyNumber(a + b)
  {
    RetainAppend(a + [c], b, IsDigit);
    RetainAppend(a, [c], IsDigit);
    RetainNone([c], IsDigit);
    RetainAppend(a, b, IsDigit);
    assert Retain(a + [c] + b, IsDigit) == Retain(a + b, IsDigit);
    assert DigitsOnlyNumber(a + [c] + b) == DigitsValue(Retain(a + [c] + b, IsDigit));
    assert DigitsOnlyNumber(a + b) == DigitsValue(Retain(a + b, IsDigit));
  }

  /** Grouping commas are dropped with everything else that is not a digit. */
  lemma GroupedVolume()
    ensures DigitsOnlyNumber("1,234") == 1234
  {
    GroupedDigits();
    ValueOf1234();
  }

  lemma GroupedDigits()
    ensures Retain("1,234", IsDigit) == "1234"
  {
    assert "1,234"[1..] == ",234" && ",234"[1..] == "234";
    RetainAll("234", IsDigit);
  }

  lemma ValueOf1234()
    requires AllDigits("1234")
    ensures DigitsValue("1234") == 1234
  {
    assert "1234"[..3] == "123" && "123"[..2] == "12" && "12"[..1] == "1";
  }
}
