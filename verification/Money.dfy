/** Money as text: raw integer strings to display form and back, without a float anywhere. */
module Money {
  import opened Wrappers
  import opened Decimal

  // ---- the display forms ----

  function PadStart(s: string, width: nat): string {
    if |s| >= width then s else Zeros(width - |s|) + s
  }

  /** Leading zeros dropped as long as a digit follows. */
  function StripLeading(s: string): string {
    if |s| >= 2 && s[0] == '0' && IsDigit(s[1]) then StripLeading(s[1..]) else s
  }

  function StripTrailing(s: string): string {
    if s != "" && s[|s| - 1] == '0' then StripTrailing(s[..|s| - 1]) else s
  }

  /** A comma at every inner position with a whole number of threes after it. */
  function CommasFrom(s: string, i: nat): string
    requires i <= |s|
    decreases |s| - i
  {
    if i == |s| then ""
    else (if i > 0 && (|s| - i) % 3 == 0 then "," else "") + [s[i]] + CommasFrom(s, i + 1)
  }

  function Fraction(fraction: string): string {
    if fraction == "" then "" else "." + fraction
  }

  function FormatUnsigned(raw: string, decimals: nat): string {
    var digits := PadStart(raw, decimals + 1);
    var whole := StripLeading(digits[..|digits| - decimals]);
    var fraction := StripTrailing(digits[|digits| - decimals..]);
    CommasFrom(whole, 0) + Fraction(fraction)
  }

  function FormatRawAmount(raw: string, decimals: nat): string {
    if raw != "" && raw[0] == '-' then "-" + FormatUnsigned(raw[1..], decimals) else FormatUnsigned(raw, decimals)
  }

  /** Grouped in threes from the right, as the locale formatter groups. */
  function Grouped(s: string): string {
    if |s| <= 3 then s else Grouped(s[..|s| - 3]) + "," + s[|s| - 3..]
  }

  const USDC_DECIMALS: nat := 6
  const USDC_UNIT: nat := 1_000_000

  function FormatUsdcRaw(raw: string): string
    requires AllDigits(raw)
  {
    var value := Parse(raw);
    "$" + Grouped(Digits(value / USDC_UNIT))
    + Fraction(StripTrailing(PadStart(Digits(value % USDC_UNIT), USDC_DECIMALS)))
  }

  /** What a number at some decimals reads as: its whole part grouped, its last digits without trailing zeros. */
  function Rendered(n: nat, decimals: nat): string {
    Grouped(Digits(Drop(n, decimals))) + Fraction(StripTrailing(Fixed(n, decimals)))
  }

  // ---- commas ----

  lemma {:induction false} CommasAhead(a: string, b: string, i: nat)
    requires |b| == 3 && 0 < |a| && i <= |a|
    ensures CommasFrom(a + b, i) == CommasFrom(a, i) + "," + b
    decreases |a| - i
  {
    var s := a + b;
    if i == |a| {
      assert CommasFrom(s, i + 3) == "";
      assert CommasFrom(s, i + 2) == [b[2]];
      assert CommasFrom(s, i + 1) == [b[1], b[2]];
      assert CommasFrom(s, i) == "," + [b[0]] + [b[1], b[2]];
      assert b == [b[0]] + [b[1], b[2]];
      assert CommasFrom(a, i) == "";
    } else {
      CommasAhead(a, b, i + 1);
      assert s[i] == a[i] && (|s| - i) % 3 == (|a| - i) % 3;
      var here := (if i > 0 && (|a| - i) % 3 == 0 then "," else "") + [a[i]];
      assert CommasFrom(s, i) == here + (CommasFrom(a, i + 1) + "," + b);
      assert CommasFrom(a, i) == here + CommasFrom(a, i + 1);
    }
  }

  lemma {:induction false} NoCommas(s: string, i: nat)
    requires |s| <= 3 && i <= |s|
    ensures CommasFrom(s, i) == s[i..]
    decreases |s| - i
  {
    if i < |s| {
      NoCommas(s, i + 1);
      assert s[i..] == [s[i]] + s[i + 1..];
    }
  }

  /** Placing commas by position from the left is grouping in threes from the right. */
  lemma {:induction false} CommasGroup(s: string)
    ensures CommasFrom(s, 0) == Grouped(s)
  {
    if |s| <= 3 {
      NoCommas(s, 0);
    } else {
      var a, b := s[..|s| - 3], s[|s| - 3..];
      assert s == a + b;
      CommasGroup(a);
      CommasAhead(a, b, 0);
    }
  }

  // ---- string surgery is arithmetic ----

  lemma DigitsOfParts(a: string, b: string)
    requires AllDigits(a + b)
    ensures AllDigits(a) && AllDigits(b)
  {
    assert forall i :: 0 <= i < |a| ==> a[i] == (a + b)[i];
    assert forall i :: 0 <= i < |b| ==> b[i] == (a + b)[|a| + i];
  }

  lemma PadParses(s: string, width: nat)
    requires AllDigits(s)
    ensures AllDigits(PadStart(s, width)) && Parse(PadStart(s, width)) == Parse(s)
    ensures |PadStart(s, width)| == if |s| >= width then |s| else width
  {
    if |s| < width {
      ParseJoin(Zeros(width - |s|), s);
      ZerosParse(width - |s|);
      ShiftZero(|s|);
    }
  }

  lemma {:induction false} StripLeadingCanonical(s: string)
    requires AllDigits(s) && s != ""
    ensures StripLeading(s) == Digits(Parse(s))
  {
    if |s| >= 2 && s[0] == '0' {
      DigitsOfParts(s[..1], s[1..]);
      assert s == s[..1] + s[1..];
      ParseJoin(s[..1], s[1..]);
      assert s[..1] == Zeros(1);
      ZerosParse(1);
      ShiftZero(|s| - 1);
      StripLeadingCanonical(s[1..]);
    } else {
      CanonicalDigits(s);
    }
  }

  lemma PadIsFixed(n: nat, k: nat)
    requires n < Pow10(k) && k >= 1
    ensures PadStart(Digits(n), k) == Fixed(n, k)
  {
    DigitsFit(n, k);
    PadParses(Digits(n), k);
    ParseBack(n);
    ParseCut("", PadStart(Digits(n), k));
    assert "" + PadStart(Digits(n), k) == PadStart(Digits(n), k);
  }

  /** The padded digits, cut at the point: the quotient's digits and the remainder's. */
  lemma CutAtPoint(raw: string, decimals: nat)
    requires AllDigits(raw)
    ensures var digits := PadStart(raw, decimals + 1);
            && |digits| > decimals
            && StripLeading(digits[..|digits| - decimals]) == Digits(Drop(Parse(raw), decimals))
            && digits[|digits| - decimals..] == Fixed(Parse(raw), decimals)
  {
    var digits := PadStart(raw, decimals + 1);
    PadParses(raw, decimals + 1);
    var a, b := digits[..|digits| - decimals], digits[|digits| - decimals..];
    assert digits == a + b;
    DigitsOfParts(a, b);
    ParseCut(a, b);
    StripLeadingCanonical(a);
  }

  /** For every digit string and every number of decimals, the surgery gives the rendering. */
  lemma FormatIsRendering(raw: string, decimals: nat)
    requires AllDigits(raw)
    ensures FormatRawAmount(raw, decimals) == Rendered(Parse(raw), decimals)
    ensures FormatRawAmount("-" + raw, decimals) == "-" + Rendered(Parse(raw), decimals)
  {
    CutAtPoint(raw, decimals);
    CommasGroup(Digits(Drop(Parse(raw), decimals)));
    assert FormatUnsigned(raw, decimals) == Rendered(Parse(raw), decimals);
    assert ("-" + raw)[1..] == raw;
  }

  /** And the rendering is the quotient grouped and the remainder trimmed. */
  lemma RenderingIsDivision(n: nat, decimals: nat)
    ensures Rendered(n, decimals)
         == Grouped(Digits(Quotient(n, Pow10(decimals))))
            + Fraction(StripTrailing(Fixed(Remainder(n, Pow10(decimals)), decimals)))
  {
    DropIsDivide(n, decimals);
  }

  lemma UsdcUnit()
    ensures Pow10(USDC_DECIMALS) == USDC_UNIT
  {
  }

  /** At USDC's decimals the two formatters agree. */
  lemma FormattersAgree(raw: string)
    requires AllDigits(raw)
    ensures FormatUsdcRaw(raw) == "$" + FormatRawAmount(raw, USDC_DECIMALS)
  {
    FormatIsRendering(raw, USDC_DECIMALS);
    UsdcRendering(Parse(raw));
  }

  lemma UsdcRendering(n: nat)
    ensures "$" + Rendered(n, USDC_DECIMALS)
         == "$" + Grouped(Digits(n / USDC_UNIT))
             + Fraction(StripTrailing(PadStart(Digits(n % USDC_UNIT), USDC_DECIMALS)))
  {
    UsdcUnit();
    DropIsDivide(n, USDC_DECIMALS);
    PadIsFixed(n % USDC_UNIT, USDC_DECIMALS);
    var whole, fraction := Grouped(Digits(n / USDC_UNIT)), Fraction(StripTrailing(Fixed(n, USDC_DECIMALS)));
    assert "$" + whole + fraction == "$" + (whole + fraction);
  }

  // ---- reading it back ----

  predicate IsSpace(c: char) {
    var u := c as int;
    || 0x9 <= u <= 0xD || u == 0x20 || u == 0xA0 || u == 0x1680 || 0x2000 <= u <= 0x200A
    || u == 0x2028 || u == 0x2029 || u == 0x202F || u == 0x205F || u == 0x3000 || u == 0xFEFF
  }

  function TrimLeft(s: string): string {
    if s != "" && IsSpace(s[0]) then TrimLeft(s[1..]) else s
  }

  function TrimRight(s: string): string {
    if s != "" && IsSpace(s[|s| - 1]) then TrimRight(s[..|s| - 1]) else s
  }

  function Trim(s: string): string {
    TrimRight(TrimLeft(s))
  }

  /** What stands before the first point and after it. */
  function SplitPoint(s: string): (r: (string, string))
    ensures '.' in s ==> s == r.0 + "." + r.1 && '.' !in r.0
    ensures '.' !in s ==> r == (s, "")
  {
    match IndexOf(s, '.')
    case None => (s, "")
    case Some(i) =>
      assert s == s[..i] + "." + s[i + 1..];
      (s[..i], s[i + 1..])
  }

  /** Digits with at most one point among them. */
  predicate IsAmount(s: string) {
    AllDigits(SplitPoint(s).0) && AllDigits(SplitPoint(s).1)
  }

  /** A fraction to six places, cut or filled out. */
  function Cents(fraction: string): (cents: string)
    requires AllDigits(fraction)
    ensures AllDigits(cents)
    ensures |cents| == USDC_DECIMALS
    ensures |fraction| <= USDC_DECIMALS ==> cents == fraction + Zeros(USDC_DECIMALS - |fraction|)
    ensures |fraction| > USDC_DECIMALS ==> fraction == cents + fraction[USDC_DECIMALS..]
  {
    (fraction + Zeros(USDC_DECIMALS))[..USDC_DECIMALS]
  }

  function ToUsdcRaw(amount: string): Option<nat> {
    var trimmed := Trim(amount);
    if !IsAmount(trimmed) || trimmed == "" || trimmed == "." then None
    else
      var (whole, fraction) := SplitPoint(trimmed);
      Some(Parse(whole) * USDC_UNIT + Parse(Cents(fraction)))
  }

  /** What is read is the typed value times a million, rounded down. */
  lemma ReadsTheFloor(amount: string)
    requires ToUsdcRaw(amount).Some?
    ensures var (whole, fraction) := SplitPoint(Trim(amount));
            && AllDigits(whole + fraction)
            && ToUsdcRaw(amount).value == Quotient(Parse(whole + fraction) * USDC_UNIT, Pow10(|fraction|))
  {
    var (whole, fraction) := SplitPoint(Trim(amount));
    ParseJoin(whole, fraction);
    CentsAreCut(whole, fraction);
    ReadIsJoin(whole, Cents(fraction));
    UsdcUnit();
    ShiftIsTimes(Parse(whole + fraction), USDC_DECIMALS);
    DropIsDivide(Shift(Parse(whole + fraction), USDC_DECIMALS), |fraction|);
  }

  lemma ReadIsJoin(whole: string, cents: string)
    requires AllDigits(whole) && AllDigits(cents) && |cents| == USDC_DECIMALS
    ensures AllDigits(whole + cents) && Parse(whole + cents) == Parse(whole) * USDC_UNIT + Parse(cents)
  {
    ParseJoin(whole, cents);
    UsdcUnit();
    ShiftIsTimes(Parse(whole), USDC_DECIMALS);
  }

  /** Keeping six digits of a fraction is writing six zeros after it and dropping as many digits as it had. */
  lemma CentsAreCut(whole: string, fraction: string)
    requires AllDigits(whole) && AllDigits(fraction) && AllDigits(whole + fraction)
        && AllDigits(whole + Cents(fraction))
    ensures Parse(whole + Cents(fraction)) == Drop(Shift(Parse(whole + fraction), USDC_DECIMALS), |fraction|)
  {
    var tail := Tail(fraction);
    Regroup(whole, fraction, Zeros(USDC_DECIMALS), Cents(fraction), tail);
    ParseJoin(whole + fraction, Zeros(USDC_DECIMALS));
    ZerosParse(USDC_DECIMALS);
    ParseCut(whole + Cents(fraction), tail);
  }

  lemma Regroup(whole: string, a: string, b: string, c: string, d: string)
    requires a + b == c + d
    ensures (whole + a) + b == (whole + c) + d
  {
    assert (whole + a) + b == whole + (a + b);
    assert whole + (c + d) == (whole + c) + d;
  }

  /** What cutting a fraction to six places leaves off, once six zeros are written after it. */
  function Tail(fraction: string): (tail: string)
    requires AllDigits(fraction)
    ensures AllDigits(tail) && |tail| == |fraction| && fraction + Zeros(USDC_DECIMALS) == Cents(fraction) + tail
  {
    (fraction + Zeros(USDC_DECIMALS))[USDC_DECIMALS..]
  }

  // ---- the round trip ----

  /** The text with the dollar sign and the commas taken out. */
  function Unmarked(s: string): string {
    if s == "" then ""
    else (if s[0] == '$' || s[0] == ',' then "" else [s[0]]) + Unmarked(s[1..])
  }

  lemma {:induction false} UnmarkedJoin(a: string, b: string)
    ensures Unmarked(a + b) == Unmarked(a) + Unmarked(b)
  {
    if a == "" {
      assert a + b == b;
    } else {
      assert (a + b)[1..] == a[1..] + b;
      UnmarkedJoin(a[1..], b);
    }
  }

  lemma {:induction false} UnmarkedDigits(s: string)
    requires AllDigits(s)
    ensures Unmarked(s) == s
  {
    if s != "" {
      UnmarkedDigits(s[1..]);
      assert s == [s[0]] + s[1..];
    }
  }

  lemma {:induction false} UnmarkedGroups(s: string)
    requires AllDigits(s)
    ensures Unmarked(Grouped(s)) == s
  {
    if |s| <= 3 {
      UnmarkedDigits(s);
    } else {
      var a, b := s[..|s| - 3], s[|s| - 3..];
      assert s == a + b;
      DigitsOfParts(a, b);
      UnmarkedGroups(a);
      UnmarkedDigits(b);
      UnmarkedJoin(Grouped(a) + ",", b);
      UnmarkedJoin(Grouped(a), ",");
      assert Unmarked(",") == "";
    }
  }

  lemma {:induction false} StripTrailingRefills(s: string)
    requires AllDigits(s)
    ensures AllDigits(StripTrailing(s)) && |StripTrailing(s)| <= |s|
    ensures s == StripTrailing(s) + Zeros(|s| - |StripTrailing(s)|)
  {
    if s != "" && s[|s| - 1] == '0' {
      var front, last := TakeLast(s);
      StripTrailingRefills(front);
      assert Zeros(|s| - |StripTrailing(s)|) == Zeros(|front| - |StripTrailing(front)|) + "0";
    } else {
      assert s == s + Zeros(0);
    }
  }

  lemma UntouchedByTrim(s: string)
    requires s != "" && !IsSpace(s[0]) && !IsSpace(s[|s| - 1])
    ensures Trim(s) == s
  {
  }

  lemma {:induction false} PointAfter(whole: string, fraction: string)
    requires AllDigits(whole)
    ensures SplitPoint(whole + ("." + fraction)) == (whole, fraction)
  {
    var text := whole + ("." + fraction);
    var i := IndexOf(text, '.').value;
    assert text[|whole|] == '.';
    FirstPoint(text, |whole|, i);
    assert text[..i] == whole && text[i + 1..] == fraction;
  }

  lemma FirstPoint(text: string, i: nat, j: nat)
    requires i < |text| && text[i] == '.' && forall k :: 0 <= k < i ==> text[k] != '.'
    requires j < |text| && text[j] == '.' && '.' !in text[..j]
    ensures i == j
  {
    assert forall k :: 0 <= k < j ==> text[..j][k] == text[k];
  }

  lemma NoPoint(whole: string)
    requires AllDigits(whole)
    ensures SplitPoint(whole) == (whole, "")
  {
  }

  /** A whole part and a fraction, put together, read as themselves. */
  lemma ReadsParts(whole: string, fraction: string)
    requires AllDigits(whole) && AllDigits(fraction) && whole != ""
    ensures ToUsdcRaw(whole + Fraction(fraction)) == Some(Parse(whole) * USDC_UNIT + Parse(Cents(fraction)))
  {
    var text := whole + Fraction(fraction);
    SplitsBack(whole, fraction);
    NeitherEmpty(text, whole);
    ReadsSplit(text, whole, fraction);
  }

  lemma NeitherEmpty(text: string, whole: string)
    requires AllDigits(whole) && whole != "" && whole <= text
    ensures text != "" && text != "."
  {
    assert IsDigit(text[0]);
  }

  lemma SplitsBack(whole: string, fraction: string)
    requires AllDigits(whole) && AllDigits(fraction) && whole != ""
    ensures Trim(whole + Fraction(fraction)) == whole + Fraction(fraction)
    ensures SplitPoint(whole + Fraction(fraction)) == (whole, fraction)
  {
    var text := whole + Fraction(fraction);
    assert IsDigit(text[0]) && IsDigit(text[|text| - 1]);
    UntouchedByTrim(text);
    if fraction == "" {
      assert text == whole;
      NoPoint(whole);
    } else {
      PointAfter(whole, fraction);
    }
  }

  lemma ReadsSplit(text: string, whole: string, fraction: string)
    requires Trim(text) == text && text != "" && text != "."
    requires SplitPoint(text) == (whole, fraction) && AllDigits(whole) && AllDigits(fraction)
    ensures ToUsdcRaw(text) == Some(Parse(whole) * USDC_UNIT + Parse(Cents(fraction)))
  {
  }

  lemma RenderedReadsBack(n: nat)
    ensures ToUsdcRaw(Unmarked("$" + Rendered(n, USDC_DECIMALS))) == Some(n)
  {
    var whole, rest := Digits(Drop(n, USDC_DECIMALS)), Fixed(n, USDC_DECIMALS);
    Refilled(rest);
    var text := TextReadsBack(whole, StripTrailing(rest));
    PartsParse(n);
  }

  lemma TextReadsBack(whole: string, fraction: string) returns (text: string)
    requires AllDigits(whole) && AllDigits(fraction) && whole != ""
    ensures text == Unmarked("$" + (Grouped(whole) + Fraction(fraction)))
    ensures ToUsdcRaw(text) == Some(Parse(whole) * USDC_UNIT + Parse(Cents(fraction)))
  {
    text := whole + Fraction(fraction);
    UnmarkedText(whole, fraction);
    ReadsParts(whole, fraction);
  }

  lemma Refilled(rest: string)
    requires AllDigits(rest) && |rest| == USDC_DECIMALS
    ensures AllDigits(StripTrailing(rest)) && Cents(StripTrailing(rest)) == rest
  {
    StripTrailingRefills(rest);
  }

  /** Formatting, taking the marks out and reading back is the identity, on every raw amount. */
  lemma FormatReadsBack(raw: string)
    requires AllDigits(raw)
    ensures ToUsdcRaw(Unmarked(FormatUsdcRaw(raw))) == Some(Parse(raw))
    ensures ToUsdcRaw(Unmarked("$" + FormatRawAmount(raw, USDC_DECIMALS))) == Some(Parse(raw))
  {
    FormattersAgree(raw);
    FormatIsRendering(raw, USDC_DECIMALS);
    RenderedReadsBack(Parse(raw));
  }

  lemma PartsParse(n: nat)
    ensures Parse(Digits(Drop(n, USDC_DECIMALS))) * USDC_UNIT + Parse(Fixed(n, USDC_DECIMALS)) == n
  {
    var whole, rest := Digits(Drop(n, USDC_DECIMALS)), Fixed(n, USDC_DECIMALS);
    ParseBack(Drop(n, USDC_DECIMALS));
    FixedParse(n, USDC_DECIMALS);
    DropAndLow(n, USDC_DECIMALS);
    UsdcUnit();
    ShiftIsTimes(Drop(n, USDC_DECIMALS), USDC_DECIMALS);
  }

  lemma UnmarkedText(whole: string, fraction: string)
    requires AllDigits(whole) && AllDigits(fraction)
    ensures Unmarked("$" + (Grouped(whole) + Fraction(fraction))) == whole + Fraction(fraction)
  {
    UnmarkedJoin("$", Grouped(whole) + Fraction(fraction));
    UnmarkedJoin(Grouped(whole), Fraction(fraction));
    UnmarkedGroups(whole);
    UnmarkedDigits(fraction);
    UnmarkedJoin(".", fraction);
    assert Unmarked("$") == "" && Unmarked(".") == "." && Unmarked("") == "";
  }
}
