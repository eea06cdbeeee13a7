/** The field normaliser: currency/percentage cleaning (`clean_currency`,
    `safe_float`), the numeric coercion used for unit counts and the
    priority-ordered alias lookup for columns. Numbers follow a plain decimal
    grammar: an optional sign, digits, at most one decimal point. */
module Normalize {
  import opened Values
  import opened Text

  predicate IsDigit(c: char) { '0' <= c <= '9' }

  predicate AllDigits(s: string)
  {
    forall i :: 0 <= i < |s| ==> IsDigit(s[i])
  }

  /** The number a string of decimal digits denotes. */
  function DigitsValue(s: string): nat
    requires AllDigits(s)
  {
    if |s| == 0 then 0 else DigitsValue(s[..|s| - 1]) * 10 + (s[|s| - 1] as int - '0' as int)
  }

  function Pow10(k: nat): (r: nat)
    ensures r >= 1
  {
    if k == 0 then 1 else 10 * Pow10(k - 1)
  }

  /** Unsigned decimal: digits, optionally followed or split by one '.', with
      at least one digit in all. */
  function ParseUnsigned(s: string): Option<real>
  {
    var ip := Before(s, '.');
    if |ip| == |s| then
      if |s| > 0 && AllDigits(s) then Some(DigitsValue(s) as real) else None
    else
      var fp := s[|ip| + 1..];
      if AllDigits(ip) && AllDigits(fp) && |ip| + |fp| > 0
      then Some(DigitsValue(ip) as real + DigitsValue(fp) as real / Pow10(|fp|) as real)
      else None
  }

  /** The number a text denotes under the decimal grammar, or None: stands for
      Python's `float(text)` raising. */
  function ParseDecimal(s: string): Option<real>
  {
    if |s| > 0 && s[0] == '-' then
      match ParseUnsigned(s[1..])
      case Some(x) => Some(-x)
      case None => None
    else if |s| > 0 && s[0] == '+' then ParseUnsigned(s[1..])
    else ParseUnsigned(s)
  }

  function ParseOrZero(s: string): real
  {
    match ParseDecimal(s)
    case Some(x) => x
    case None => 0.0
  }

  /** Both cleaners' text step: drop every "S/", "," and "%" (in that order,
      one pass each) and strip surrounding whitespace. */
  function CleanText(s: string): (r: string)
    ensures ',' !in r && '%' !in r
    ensures r == [] || (!IsSpace(r[0]) && !IsSpace(r[|r| - 1]))
    ensures forall c :: c in r ==> c in s
  {
    var a := ReplaceAll(s, "S/", "");
    var b := ReplaceAll(a, ",", "");
    var c := ReplaceAll(b, "%", "");
    ReplaceAllChars(s, "S/");
    ReplaceAllChars(a, ",");
    ReplaceAllCharGone(a, ',');
    ReplaceAllCharGone(b, '%');
    ReplaceAllChars(b, "%");
    StripChars(c);
    Strip(c)
  }

  /** `clean_currency`: text is cleaned and parsed, falling back to 0.0;
      anything that is not text is returned unchanged. */
  function CleanCurrency(v: Value): (r: Value)
    ensures !v.Text? ==> r == v
    ensures v.Text? ==> r.Number?
    ensures v.Text? && ParseDecimal(CleanText(v.s)).None? ==> r == Number(0.0)
    ensures v.Text? && ParseDecimal(CleanText(v.s)).Some? ==> r == Number(ParseDecimal(CleanText(v.s)).value)
  {
    match v
    case Text(s) => Number(ParseOrZero(CleanText(s)))
    case _ => v
  }

  /** `safe_float`: missing values and "" give 0.0, numbers are kept, other
      values are cleaned like `clean_currency` does (a timestamp's printed
      form is not a number, so it gives 0.0). */
  function SafeFloat(v: Value): (r: real)
    ensures v.Null? || v == Text("") || v.Date? ==> r == 0.0
    ensures v.Number? ==> r == v.x
  {
    match v
    case Null => 0.0
    case Number(x) => x
    case Date(_) => 0.0
    case Text(s) => if s == "" then 0.0 else ParseOrZero(CleanText(s))
  }

  /** `pd.to_numeric(x, errors='coerce').fillna(0)`: no currency cleaning, so
      "1,000" is not a number and becomes 0. */
  function ToNumeric(v: Value): (r: real)
    ensures v.Null? ==> r == 0.0
    ensures v.Number? ==> r == v.x
    ensures v.Text? && ParseDecimal(Strip(v.s)).Some? ==> r == ParseDecimal(Strip(v.s)).value
    ensures v.Text? && ParseDecimal(Strip(v.s)).None? ==> r == 0.0
  {
    match v
    case Number(x) => x
    case Text(s) => ParseOrZero(Strip(s))
    case _ => 0.0
  }

  /** A comma is outside the number grammar: text holding one does not parse. */
  lemma CommaUnparsable(t: string)
    requires ',' in t
    ensures ParseDecimal(t).None?
  {
    if ParseDecimal(t).Some? {
      ParsedAlphabet(t);
      assert false;
    }
  }

  /** Unlike the currency cleaners, the unit coercion keeps the thousands
      separator, so a count written with one becomes 0. */
  lemma ThousandsCoercedToZero()
    ensures ToNumeric(Text("1,000")) == 0.0
  {
    var t := "1,000";
    StripStripped(t);
    assert t[1] == ',';
    CommaUnparsable(t);
  }

  /** `next((c for c in aliases if c in headers), None)`: the first alias, in
      priority order, that is a header. */
  function FirstPresent(aliases: seq<string>, headers: seq<string>): (r: Option<string>)
    ensures r.None? <==> forall i :: 0 <= i < |aliases| ==> aliases[i] !in headers
    ensures r.Some? ==> exists i :: 0 <= i < |aliases| && aliases[i] == r.value
                                    && r.value in headers
                                    && forall j :: 0 <= j < i ==> aliases[j] !in headers
  {
    if |aliases| == 0 then None
    else if aliases[0] in headers then Some(aliases[0])
    else
      var r := FirstPresent(aliases[1..], headers);
      assert forall i :: 1 <= i < |aliases| ==> aliases[i] == aliases[1..][i - 1];
      if r.Some? then
        var i :| 0 <= i < |aliases| - 1 && aliases[1..][i] == r.value
                 && r.value in headers && forall j :: 0 <= j < i ==> aliases[1..][j] !in headers;
        assert aliases[i + 1] == r.value;
        r
      else r
  }

  // ---------------------------------------------------------------------------
  // The decimal grammar and its printer

  function DigitChar(d: nat): (c: char)
    requires d < 10
    ensures IsDigit(c) && c as int - '0' as int == d
  {
    ('0' as int + d) as char
  }

  /** Decimal digits of a natural number, without leading zeros. */
  function NatToString(n: nat): (s: string)
    ensures |s| > 0 && AllDigits(s)
    decreases n
  {
    if n < 10 then [DigitChar(n)] else NatToString(n / 10) + [DigitChar(n % 10)]
  }

  lemma {:induction false} DigitsOfNat(n: nat)
    ensures DigitsValue(NatToString(n)) == n
    decreases n
  {
    if n >= 10 {
      DigitsOfNat(n / 10);
      var s := NatToString(n);
      assert s[..|s| - 1] == NatToString(n / 10);
    }
  }

  /** A digit string without a point denotes its digits' value. */
  lemma DigitsParse(s: string)
    requires |s| > 0 && AllDigits(s)
    ensures ParseDecimal(s) == Some(DigitsValue(s) as real)
  {
    assert forall i :: 0 <= i < |s| ==> s[i] != '.';
  }

  /** Round trip: printing a natural number and parsing it back gives it back,
      also with a leading minus sign. */
  lemma NatRoundTrip(n: nat)
    ensures ParseDecimal(NatToString(n)) == Some(n as real)
    ensures ParseDecimal("-" + NatToString(n)) == Some(-(n as real))
  {
    var s := NatToString(n);
    DigitsOfNat(n);
    DigitsParse(s);
    assert ("-" + s)[1..] == s;
  }

  /** Only digits, one '.', and a leading sign can make up a number: any other
      character makes the parse fail (and the cleaners then yield 0.0). */
  lemma {:induction false} ParsedAlphabet(s: string)
    requires ParseDecimal(s).Some?
    ensures forall i :: 0 <= i < |s| ==> IsDigit(s[i]) || s[i] == '.' || (i == 0 && (s[i] == '-' || s[i] == '+'))
  {
    if |s| > 0 && (s[0] == '-' || s[0] == '+') {
      UnsignedAlphabet(s[1..]);
      assert forall i :: 1 <= i < |s| ==> s[i] == s[1..][i - 1];
    } else {
      UnsignedAlphabet(s);
    }
  }

  lemma UnsignedAlphabet(s: string)
    requires ParseUnsigned(s).Some?
    ensures forall i :: 0 <= i < |s| ==> IsDigit(s[i]) || s[i] == '.'
  {
    var ip := Before(s, '.');
    if |ip| < |s| {
      var fp := s[|ip| + 1..];
      forall i | 0 <= i < |s| ensures IsDigit(s[i]) || s[i] == '.' {
        if i < |ip| { assert s[i] == ip[i]; }
        else if i > |ip| { assert s[i] == fp[i - |ip| - 1]; }
      }
    }
  }

  // ---------------------------------------------------------------------------
  // Properties of the cleaners

  /** Cleaning a cleaned value changes nothing: `clean_currency` is idempotent
      and a number passes through unchanged. */
  lemma CleanCurrencyIdempotent(v: Value)
    ensures CleanCurrency(CleanCurrency(v)) == CleanCurrency(v)
    ensures v.Number? ==> CleanCurrency(v) == v
  {
  }

  /** `safe_float` and `clean_currency` agree on text and numbers: the extra
      `val == ""` guard of `safe_float` is what the parse fallback gives anyway. */
  lemma SafeFloatAgrees(v: Value)
    requires v.Text? || v.Number?
    ensures CleanCurrency(v) == Number(SafeFloat(v))
  {
    if v == Text("") {
      assert ReplaceAll("", "S/", "") == "";
      assert ReplaceAll("", ",", "") == "";
      assert ReplaceAll("", "%", "") == "";
      assert CleanText("") == "";
      assert Before("", '.') == "";
    }
  }

  lemma NatHasNoMarks(n: nat)
    ensures !Contains(NatToString(n), "S/") && !Contains(NatToString(n), ",")
    ensures !Contains(NatToString(n), "%")
    ensures forall i :: 0 <= i < |NatToString(n)| ==> !IsSpace(NatToString(n)[i])
  {
    var s := NatToString(n);
    assert forall i :: 0 <= i < |s| ==> IsDigit(s[i]);
    NotContainsMissingChar(s, "S/", 0);
    NotContainsMissingChar(s, ",", 0);
    NotContainsMissingChar(s, "%", 0);
  }

  lemma StripNoSpace(s: string)
    requires forall i :: 0 <= i < |s| ==> !IsSpace(s[i])
    ensures Strip(s) == s
  {
  }

  /** A percentage is stripped of its sign, not divided: "n%" cleans to n. */
  lemma PercentNotDivided(n: nat)
    ensures CleanCurrency(Text(NatToString(n) + "%")) == Number(n as real)
  {
    var s := NatToString(n);
    NatHasNoMarks(n);
    var t := s + "%";
    NotContainsMissingChar(t, "S/", 0);
    ReplaceAllAbsent(t, "S/", "");
    NotContainsMissingChar(t, ",", 0);
    ReplaceAllAbsent(t, ",", "");
    PercentAtEnd(s);
    StripNoSpace(s);
    NatRoundTrip(n);
  }

  lemma PercentAtEnd(s: string)
    requires !Contains(s, "%")
    ensures ReplaceAll(s + "%", "%", "") == s
  {
    calc {
      ReplaceAll(s + "%", "%", "");
      { ReplaceAllCharConcat(s, "%", '%', ""); }
      ReplaceAll(s, "%", "") + ReplaceAll("%", "%", "");
      { ReplaceAllAbsent(s, "%", ""); assert "%" == "%" + ""; ReplaceAllPrefix("%", "", ""); }
      s + "";
    }
  }

  /** A currency-prefixed amount cleans to the amount: "S/n" is n. */
  lemma CurrencyPrefixRemoved(n: nat)
    ensures CleanCurrency(Text("S/" + NatToString(n))) == Number(n as real)
  {
    var s := NatToString(n);
    NatHasNoMarks(n);
    ReplaceAllPrefix("S/", s, "");
    ReplaceAllAbsent(s, "S/", "");
    assert ReplaceAll("S/" + s, "S/", "") == s;
    ReplaceAllAbsent(s, ",", "");
    ReplaceAllAbsent(s, "%", "");
    StripNoSpace(s);
    assert CleanText("S/" + s) == s;
    NatRoundTrip(n);
  }

  /** A text with no currency sign, comma or percent sign is only stripped. */
  lemma CleanTextPlain(s: string)
    requires !Contains(s, "S/") && ',' !in s && '%' !in s
    ensures CleanText(s) == Strip(s)
  {
    ReplaceAllAbsent(s, "S/", "");
    NotContainsMissingChar(s, ",", 0);
    ReplaceAllAbsent(s, ",", "");
    NotContainsMissingChar(s, "%", 0);
    ReplaceAllAbsent(s, "%", "");
  }

  /** The comma between two digit strings is dropped. */
  lemma CommaDropped(s: string, p: string)
    requires AllDigits(s) && AllDigits(p)
    ensures ReplaceAll(s + "," + p, ",", "") == s + p
  {
    assert forall i :: 0 <= i < |s| ==> IsDigit(s[i]);
    assert forall i :: 0 <= i < |p| ==> IsDigit(p[i]);
    CommaBetween(s, p);
  }

  /** A comma between two comma-free texts is dropped. */
  lemma CommaBetween(s: string, p: string)
    requires ',' !in s && ',' !in p
    ensures ReplaceAll(s + "," + p, ",", "") == s + p
  {
    calc {
      ReplaceAll(s + "," + p, ",", "");
      { ReplaceAllCharConcat(s + ",", p, ',', ""); }
      ReplaceAll(s + ",", ",", "") + ReplaceAll(p, ",", "");
      { ReplaceAllCharConcat(s, ",", ',', ""); }
      ReplaceAll(s, ",", "") + ReplaceAll(",", ",", "") + ReplaceAll(p, ",", "");
      { CommaFree(s); CommaFree(p); CommaAlone(); }
      s + "" + p;
    }
  }

  lemma CommaFree(s: string)
    requires ',' !in s
    ensures ReplaceAll(s, ",", "") == s
  {
    NotContainsMissingChar(s, ",", 0);
    ReplaceAllAbsent(s, ",", "");
  }

  lemma CommaAlone()
    ensures ReplaceAll(",", ",", "") == ""
  {
    assert "," == "," + "";
    ReplaceAllPrefix(",", "", "");
  }

  /** Digits and commas hold no currency sign. */
  lemma NoCurrencySign(s: string, p: string)
    requires AllDigits(s) && AllDigits(p)
    ensures ReplaceAll(s + "," + p, "S/", "") == s + "," + p
  {
    var t := s + "," + p;
    assert forall i :: 0 <= i < |t| ==> IsDigit(t[i]) || t[i] == ',';
    NotContainsMissingChar(t, "S/", 0);
    ReplaceAllAbsent(t, "S/", "");
  }

  /** A digit string is its own cleaned text. */
  lemma DigitsClean(u: string)
    requires AllDigits(u)
    ensures ReplaceAll(u, "%", "") == u && Strip(u) == u
  {
    NotContainsMissingChar(u, "%", 0);
    ReplaceAllAbsent(u, "%", "");
    StripNoSpace(u);
  }

  /** A thousands separator is dropped: for digit strings `s` and `p`, `p`
      of three digits, "s,p" cleans to s * 1000 + p. */
  lemma ThousandsSeparator(s: string, p: string)
    requires |s| > 0 && AllDigits(s) && |p| == 3 && AllDigits(p)
    ensures AllDigits(s + p) && DigitsValue(s + p) == DigitsValue(s) * 1000 + DigitsValue(p)
    ensures CleanCurrency(Text(s + "," + p)) == Number(DigitsValue(s + p) as real)
  {
    ThreeDigitsAppended(s, p);
    GroupedText(s, p);
    DigitsParse(s + p);
  }

  /** Three digits written after others shift them by a thousand. */
  lemma ThreeDigitsAppended(s: string, p: string)
    requires AllDigits(s) && AllDigits(p) && |p| == 3
    ensures AllDigits(s + p)
    ensures DigitsValue(s + p) == DigitsValue(s) * 1000 + DigitsValue(p)
  {
    var x := s + p;
    var x2, x1 := s + p[..2], s + p[..1];
    assert x[..|x| - 1] == x2 && x2[..|x2| - 1] == x1 && x1[..|x1| - 1] == s;
    assert p[..2][..1] == p[..1] && p[..1][..0] == [];
    var d0, d1, d2 := p[0] as int - '0' as int, p[1] as int - '0' as int, p[2] as int - '0' as int;
    assert DigitsValue(x1) == DigitsValue(s) * 10 + d0;
    assert DigitsValue(x2) == DigitsValue(x1) * 10 + d1;
    assert DigitsValue(x) == DigitsValue(x2) * 10 + d2;
    assert DigitsValue(p[..1]) == d0;
    assert DigitsValue(p[..2]) == d0 * 10 + d1;
    assert DigitsValue(p) == (d0 * 10 + d1) * 10 + d2;
  }

  /** Two digit strings around a comma clean to the digits alone. */
  lemma GroupedText(s: string, p: string)
    requires AllDigits(s) && AllDigits(p) && AllDigits(s + p)
    ensures CleanText(s + "," + p) == s + p
  {
    NoCurrencySign(s, p);
    CommaDropped(s, p);
    DigitsClean(s + p);
  }

  /** The two worked examples of the cleaner: a currency amount with a
      thousands separator, and a percentage (kept as 45, not 0.45). */
  lemma CurrencyExamples()
    ensures CleanCurrency(Text("45%")) == Number(45.0)
    ensures CleanCurrency(Text("S/ 1,234.50")) == Number(1234.5)
  {
    PercentExample();
    CleanTextExample();
    ParseExample();
  }

  lemma PercentExample()
    ensures CleanCurrency(Text("45%")) == Number(45.0)
  {
    PercentCleanText();
    PercentParse();
  }

  lemma PercentCleanText()
    ensures CleanText("45%") == "45"
  {
    NotContainsMissingChar("45%", "S/", 0);
    ReplaceAllAbsent("45%", "S/", "");
    NotContainsMissingChar("45%", ",", 0);
    ReplaceAllAbsent("45%", ",", "");
    NotContainsMissingChar("45", "%", 0);
    assert "45%" == "45" + "%";
    PercentAtEnd("45");
    assert !IsSpace('4') && !IsSpace('5');
    StripNoSpace("45");
  }

  lemma PercentParse()
    ensures ParseDecimal("45") == Some(45.0)
  {
    assert "45"[..1] == "4";
    DigitsParse("45");
  }

  lemma CleanTextExample()
    ensures CleanText("S/ 1,234.50") == "1234.50"
  {
    DropCurrencyExample();
    DropCommaExample();
    NotContainsMissingChar(" 1234.50", "%", 0);
    ReplaceAllAbsent(" 1234.50", "%", "");
    StripExample();
  }

  lemma StripExample()
    ensures Strip(" 1234.50") == "1234.50"
  {
    var b := " 1234.50";
    var t := "1234.50";
    assert b[1..] == t;
    assert !IsSpace(t[0]);
    assert StripLeft(t) == t;
    assert StripLeft(b) == t;
    assert !IsSpace(t[|t| - 1]);
    assert StripRight(t) == t;
  }

  lemma DropCurrencyExample()
    ensures ReplaceAll("S/ 1,234.50", "S/", "") == " 1,234.50"
  {
    var rest := " 1,234.50";
    assert "S/ 1,234.50" == "S/" + rest;
    ReplaceAllPrefix("S/", rest, "");
    NotContainsMissingChar(rest, "S/", 0);
    ReplaceAllAbsent(rest, "S/", "");
  }

  lemma DropCommaExample()
    ensures ReplaceAll(" 1,234.50", ",", "") == " 1234.50"
  {
    assert " 1,234.50" == " 1" + "," + "234.50";
    assert ',' !in " 1" && ',' !in "234.50";
    CommaBetween(" 1", "234.50");
    assert " 1" + "234.50" == " 1234.50";
  }

  lemma ParseExample()
    ensures ParseDecimal("1234.50") == Some(1234.5)
  {
    var t := "1234.50";
    var ip := Before(t, '.');
    assert t[4] == '.' && '.' !in t[..4];
    assert |ip| == 4;
    assert ip == "1234";
    assert t[5..] == "50";
    ValueOf1234();
    ValueOf50();
    assert Pow10(2) == 100;
  }

  lemma ValueOf1234()
    ensures DigitsValue("1234") == 1234
  {
    assert "1234"[..3] == "123" && "123"[..2] == "12" && "12"[..1] == "1";
  }

  lemma ValueOf50()
    ensures DigitsValue("50") == 50
  {
    assert "50"[..1] == "5";
  }
}
