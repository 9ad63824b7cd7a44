/** Money as text: the client's `parseMoney` and `formatMoney` (frontend/src/ride/billing.ts). */
module Money {
  import opened Options

  predicate IsDigit(c: char) { '0' <= c <= '9' }
  predicate AllDigits(s: string) { forall i :: 0 <= i < |s| ==> IsDigit(s[i]) }
  function DigitOf(n: nat): char requires n < 10 { '0' + n as char }
  function DigitValue(c: char): nat requires IsDigit(c) { (c - '0') as nat }

  /** A number written in decimal, as String(n) does for a non-negative integer. */
  function Digits(n: nat): (s: string)
    ensures s != "" && AllDigits(s)
    ensures s[0] == '0' ==> n == 0 && |s| == 1
    decreases n
  {
    if n < 10 then [DigitOf(n)] else Digits(n / 10) + [DigitOf(n % 10)]
  }

  function Value(s: string): nat
    requires AllDigits(s)
  {
    if s == "" then 0 else Value(s[..|s| - 1]) * 10 + DigitValue(s[|s| - 1])
  }

  /** Number(text): the empty text is 0, a run of digits its value. None stands for every other
      text (NaN, or a spelling such as "1e3" that no server response contains). */
  function Number(s: string): Option<nat> {
    if AllDigits(s) then Some(Value(s)) else None
  }

  /** What JavaScript's trim strips: white space and line terminators of ECMA-262. */
  predicate IsSpace(c: char) {
    || '\t' <= c <= '\r' || c == ' ' || c == '\U{00A0}' || c == '\U{1680}'
    || '\U{2000}' <= c <= '\U{200A}' || c == '\U{2028}' || c == '\U{2029}'
    || c == '\U{202F}' || c == '\U{205F}' || c == '\U{3000}' || c == '\U{FEFF}'
  }

  function Trim(s: string): string
    decreases |s|
  {
    if s != "" && IsSpace(s[0]) then Trim(s[1..])
    else if s != "" && IsSpace(s[|s| - 1]) then Trim(s[..|s| - 1])
    else s
  }

  /** The text before the first full stop. */
  function Head(s: string): string {
    if s == "" || s[0] == '.' then "" else [s[0]] + Head(s[1..])
  }

  /** What follows the first full stop, up to the next one. */
  function Fraction(s: string): string {
    if |Head(s)| < |s| then Head(s[|Head(s)| + 1..]) else ""
  }

  /** Two digits of a fraction, zeros added or the rest cut off. */
  function Cents(fraction: string): string { (fraction + "00")[..2] }

  function ParseUnsigned(s: string): Option<int> {
    var whole, cents := Number(Head(s)), Number(Cents(Fraction(s)));
    if whole.Some? && cents.Some? then Some(whole.value * 100 + cents.value) else None
  }

  function ParseMoney(text: string): Option<int> {
    var trimmed := Trim(text);
    if trimmed != "" && trimmed[0] == '-' then
      var k := ParseUnsigned(trimmed[1..]);
      if k.Some? then Some(-k.value) else None
    else ParseUnsigned(trimmed)
  }

  function PadTwo(s: string): string {
    if |s| >= 2 then s else if |s| == 1 then "0" + s else "00"
  }

  function FormatUnsigned(n: nat): string {
    Digits(n / 100) + "." + PadTwo(Digits(n % 100))
  }

  function FormatMoney(kopecks: int): string {
    if kopecks < 0 then "-" + FormatUnsigned(-kopecks) else FormatUnsigned(kopecks)
  }

  // ----- canonical two-decimal texts, described on their own

  /** Digits, a full stop, two digits; no leading zero before another digit. */
  predicate CanonicalUnsigned(s: string) {
    && |s| >= 4 && s[|s| - 3] == '.'
    && AllDigits(s[..|s| - 3]) && AllDigits(s[|s| - 2..])
    && (s[0] == '0' ==> |s| == 4)
  }

  predicate Canonical(s: string) {
    CanonicalUnsigned(s)
    || (s != "" && s[0] == '-' && CanonicalUnsigned(s[1..]) && s[1..] != "0.00")
  }

  // ----- digits

  lemma {:induction false} ValueOfDigits(n: nat)
    ensures Value(Digits(n)) == n
  {
    if n >= 10 {
      ValueOfDigits(n / 10);
      assert Digits(n)[..|Digits(n)| - 1] == Digits(n / 10);
    } else {
      assert Digits(n)[..0] == "";
      assert Value("") == 0;
    }
  }

  lemma {:induction false} ValuePositive(s: string)
    requires s != "" && AllDigits(s) && s[0] != '0'
    ensures Value(s) > 0
  {
    if |s| > 1 {
      ValuePositive(s[..|s| - 1]);
    } else {
      assert s[..0] == "";
    }
  }

  lemma {:induction false} DigitsOfValue(s: string)
    requires s != "" && AllDigits(s) && (|s| > 1 ==> s[0] != '0')
    ensures Digits(Value(s)) == s
  {
    var init, d := s[..|s| - 1], DigitValue(s[|s| - 1]);
    assert s == init + [DigitOf(d)];
    if |s| > 1 {
      DigitsOfValue(init);
      ValuePositive(init);
      assert Value(s) / 10 == Value(init) && Value(s) % 10 == d;
    } else {
      assert Value(init) == 0;
    }
  }

  /** Two digits, padded or not, carry the same value. */
  lemma PadTwoOfValue(s: string)
    requires |s| == 2 && AllDigits(s)
    ensures Value(s) < 100 && PadTwo(Digits(Value(s))) == s
  {
    assert s[..1][..0] == "" && Value(s[..1]) == DigitValue(s[0]);
    if s[0] == '0' {
      assert s == "0" + [s[1]];
      assert Digits(Value(s)) == [s[1]];
    } else {
      DigitsOfValue(s);
    }
  }

  lemma ValueOfPadTwo(n: nat)
    requires n < 100
    ensures |PadTwo(Digits(n))| == 2 && AllDigits(PadTwo(Digits(n))) && Value(PadTwo(Digits(n))) == n
  {
    ValueOfDigits(n);
    if n < 10 {
      var s := "0" + [DigitOf(n)];
      assert s[..1][..0] == "" && s[..1] == "0" && Value("0") == 0;
      assert PadTwo(Digits(n)) == s;
    } else {
      assert Digits(n) == Digits(n / 10) + [DigitOf(n % 10)];
    }
  }

  // ----- the two parts of a text

  lemma {:induction false} HeadOfJoined(whole: string, rest: string)
    requires AllDigits(whole)
    ensures Head(whole + "." + rest) == whole
  {
    var s := whole + "." + rest;
    if whole == "" {
      assert s[0] == '.';
    } else {
      HeadOfJoined(whole[1..], rest);
      assert s[1..] == whole[1..] + "." + rest;
    }
  }

  lemma {:induction false} HeadOfDigits(s: string)
    requires AllDigits(s)
    ensures Head(s) == s
  {
    if s != "" {
      HeadOfDigits(s[1..]);
    }
  }

  lemma FractionOfJoined(whole: string, cents: string)
    requires AllDigits(whole) && AllDigits(cents)
    ensures Head(whole + "." + cents) == whole && Fraction(whole + "." + cents) == cents
  {
    HeadOfJoined(whole, cents);
    HeadOfDigits(cents);
    assert (whole + "." + cents)[|whole| + 1..] == cents;
  }

  lemma CentsOfTwo(cents: string)
    requires |cents| == 2
    ensures Cents(cents) == cents
  {}

  lemma ParseJoined(whole: string, cents: string)
    requires AllDigits(whole) && AllDigits(cents) && |cents| == 2
    ensures ParseUnsigned(whole + "." + cents) == Some(Value(whole) * 100 + Value(cents))
  {
    FractionOfJoined(whole, cents);
    CentsOfTwo(cents);
    ParsedParts(whole + "." + cents, whole, cents);
  }

  lemma ParsedParts(s: string, whole: string, cents: string)
    requires Head(s) == whole && Cents(Fraction(s)) == cents && AllDigits(whole) && AllDigits(cents)
    ensures ParseUnsigned(s) == Some(Value(whole) * 100 + Value(cents))
  {}

  lemma TrimKeeps(s: string)
    requires s != "" && !IsSpace(s[0]) && !IsSpace(s[|s| - 1])
    ensures Trim(s) == s
  {}

  lemma CanonicalEnds(s: string)
    requires CanonicalUnsigned(s)
    ensures IsDigit(s[0]) && IsDigit(s[|s| - 1])
  {
    assert s[0] == s[..|s| - 3][0] && s[|s| - 1] == s[|s| - 2..][1];
  }

  lemma CanonicalIsTrimmed(s: string)
    requires Canonical(s)
    ensures Trim(s) == s
    ensures s[0] == '-' <==> !CanonicalUnsigned(s)
  {
    if CanonicalUnsigned(s) {
      CanonicalEnds(s);
    } else {
      CanonicalEnds(s[1..]);
    }
    TrimKeeps(s);
  }

  lemma UnsignedRoundTrip(n: nat)
    ensures CanonicalUnsigned(FormatUnsigned(n)) && ParseUnsigned(FormatUnsigned(n)) == Some(n)
    ensures FormatUnsigned(n) == "0.00" ==> n == 0
  {
    var whole, cents, s := Digits(n / 100), PadTwo(Digits(n % 100)), FormatUnsigned(n);
    ValueOfDigits(n / 100);
    ValueOfPadTwo(n % 100);
    ParseJoined(whole, cents);
    assert s[..|s| - 3] == whole && s[|s| - 2..] == cents;
    if s == "0.00" {
      assert whole == s[..1] == "0" && cents == s[2..] == "00";
      assert "00"[..1][..0] == "" && Value("00") == 0;
    }
  }

  lemma UnsignedTextRoundTrip(s: string)
    requires CanonicalUnsigned(s)
    ensures ParseUnsigned(s).Some? && ParseUnsigned(s).value >= 0
    ensures FormatUnsigned(ParseUnsigned(s).value) == s
  {
    var whole, cents := s[..|s| - 3], s[|s| - 2..];
    assert s == whole + "." + cents;
    ParseJoined(whole, cents);
    DigitsOfValue(whole);
    PadTwoOfValue(cents);
    var n := Value(whole) * 100 + Value(cents);
    assert n / 100 == Value(whole) && n % 100 == Value(cents);
  }

  /** What the client writes it reads back, for every amount, and it writes canonical texts. */
  lemma ParseOfFormat(kopecks: int)
    ensures Canonical(FormatMoney(kopecks))
    ensures ParseMoney(FormatMoney(kopecks)) == Some(kopecks)
  {
    var n := if kopecks < 0 then -kopecks else kopecks;
    UnsignedRoundTrip(n);
    var s := FormatMoney(kopecks);
    if kopecks < 0 {
      assert s[1..] == FormatUnsigned(n);
    }
    CanonicalIsTrimmed(s);
  }

  lemma NegativeText(body: string)
    requires CanonicalUnsigned(body) && body != "0.00"
    ensures ParseUnsigned(body).Some? && FormatMoney(-ParseUnsigned(body).value) == "-" + body
  {
    UnsignedTextRoundTrip(body);
    ZeroIsZero();
  }

  lemma ParseTrimmed(s: string)
    requires Trim(s) == s && s != ""
    ensures s[0] != '-' ==> ParseMoney(s) == ParseUnsigned(s)
    ensures s[0] == '-' && ParseUnsigned(s[1..]).Some? ==>
      ParseMoney(s) == Some(-ParseUnsigned(s[1..]).value)
  {}

  /** What it reads from a canonical text it writes back letter for letter. */
  lemma FormatOfParse(s: string)
    requires Canonical(s)
    ensures ParseMoney(s).Some? && FormatMoney(ParseMoney(s).value) == s
  {
    CanonicalIsTrimmed(s);
    ParseTrimmed(s);
    if CanonicalUnsigned(s) {
      UnsignedTextRoundTrip(s);
    } else {
      NegativeText(s[1..]);
      assert s == "-" + s[1..];
    }
  }

  lemma ZeroIsZero()
    ensures FormatUnsigned(0) == "0.00"
  {
    assert Digits(0) == "0";
  }
}
