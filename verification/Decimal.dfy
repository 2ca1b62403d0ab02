/** Natural numbers as decimal digit strings. */
module Decimal {
  function Pow10(n: nat): (r: nat)
    ensures r > 0
  {
    if n == 0 then 1 else 10 * Pow10(n - 1)
  }

  function Quotient(n: nat, m: nat): nat
    requires m > 0
  {
    n / m
  }

  function Remainder(n: nat, m: nat): nat
    requires m > 0
  {
    n % m
  }

  lemma QuotientIs(q: nat, r: nat, m: nat)
    requires r < m
    ensures Quotient(q * m + r, m) == q && Remainder(q * m + r, m) == r
  {
    var n := q * m + r;
    assert n == (n / m) * m + n % m;
    SameQuotient(n / m - q, r - n % m, m);
  }

  lemma SameQuotient(d: int, e: int, m: int)
    requires d * m == e && -m < e < m
    ensures d == 0
  {
    assert d >= 1 ==> d * m >= m;
    assert d <= -1 ==> d * m <= -m;
  }

  predicate IsDigit(c: char) {
    '0' <= c <= '9'
  }

  predicate AllDigits(s: string) {
    forall i :: 0 <= i < |s| ==> IsDigit(s[i])
  }

  function DigitOf(d: nat): (c: char)
    requires d < 10
    ensures IsDigit(c) && ValueOf(c) == d
  {
    ('0' as int + d) as char
  }

  function ValueOf(c: char): (d: nat)
    requires IsDigit(c)
    ensures d < 10
  {
    c as int - '0' as int
  }

  /** A number's digits, none of them a leading zero. */
  function Digits(n: nat): (s: string)
    ensures AllDigits(s) && s != ""
  {
    if n < 10 then [DigitOf(n)] else Digits(n / 10) + [DigitOf(n % 10)]
  }

  function Parse(s: string): nat
    requires AllDigits(s)
  {
    if s == "" then 0
    else
      10 * Parse(s[..|s| - 1]) + ValueOf(s[|s| - 1])
  }

  lemma ParseSnoc(s: string, c: char)
    requires AllDigits(s) && IsDigit(c)
    ensures AllDigits(s + [c]) && Parse(s + [c]) == 10 * Parse(s) + ValueOf(c)
  {
    assert (s + [c])[..|s|] == s;
  }

  lemma {:induction false} ParseBack(n: nat)
    ensures Parse(Digits(n)) == n
  {
    if n >= 10 {
      ParseBack(n / 10);
      ParseSnoc(Digits(n / 10), DigitOf(n % 10));
    } else {
      ParseSnoc("", DigitOf(n));
      assert "" + [DigitOf(n)] == [DigitOf(n)];
    }
  }

  /** A digit string's last digit, taken off. */
  lemma TakeLast(s: string) returns (front: string, last: char)
    requires AllDigits(s) && s != ""
    ensures s == front + [last] && AllDigits(front) && IsDigit(last) && |front| == |s| - 1
    ensures Parse(s) == 10 * Parse(front) + ValueOf(last)
    ensures s[0] == if front == "" then last else front[0]
  {
    front, last := s[..|s| - 1], s[|s| - 1];
  }

  /** The number with `k` zeros written after it. */
  function Shift(n: nat, k: nat): nat {
    if k == 0 then n else 10 * Shift(n, k - 1)
  }

  /** The number without its last `k` digits. */
  function Drop(n: nat, k: nat): nat {
    if k == 0 then n else Drop(n / 10, k - 1)
  }

  /** Exactly `k` digits, the last ones of `n`. */
  function Fixed(n: nat, k: nat): (s: string)
    ensures |s| == k && AllDigits(s)
    decreases k
  {
    if k == 0 then "" else Fixed(n / 10, k - 1) + [DigitOf(n % 10)]
  }

  /** Writing digits after digits shifts. */
  lemma {:induction false} ParseJoin(a: string, b: string)
    requires AllDigits(a) && AllDigits(b)
    ensures AllDigits(a + b) && Parse(a + b) == Shift(Parse(a), |b|) + Parse(b)
    decreases |b|
  {
    if b == "" {
      assert a + b == a;
    } else {
      var front, last := TakeLast(b);
      ParseJoin(a, front);
      ParseSnoc(a + front, last);
      assert a + b == (a + front) + [last];
    }
  }

  /** And dropping as many digits as were written takes them off again. */
  lemma {:induction false} ParseCut(a: string, b: string)
    requires AllDigits(a) && AllDigits(b) && AllDigits(a + b)
    ensures Drop(Parse(a + b), |b|) == Parse(a) && Fixed(Parse(a + b), |b|) == b
    decreases |b|
  {
    if b == "" {
      assert a + b == a;
    } else {
      var front, last := TakeLast(b);
      assert a + b == (a + front) + [last];
      assert forall i :: 0 <= i < |a + front| ==> (a + front)[i] == (a + b)[i];
      ParseCut(a, front);
      ParseSnoc(a + front, last);
      OneMore(Parse(a + b), Parse(a + front), |front|, last);
      assert |b| == |front| + 1;
    }
  }

  lemma OneMore(m: nat, n: nat, k: nat, last: char)
    requires IsDigit(last) && m == 10 * n + ValueOf(last)
    ensures Drop(m, k + 1) == Drop(n, k)
    ensures Fixed(m, k + 1) == Fixed(n, k) + [last]
  {
  }

  lemma {:induction false} LeadingDigit(s: string)
    requires AllDigits(s) && s != "" && s[0] != '0'
    ensures Parse(s) >= 1
  {
    if |s| > 1 {
      LeadingDigit(s[..|s| - 1]);
    } else {
      assert s[..0] == "";
    }
  }

  /** A digit string without leading zeros is its value's digits. */
  lemma {:induction false} CanonicalDigits(s: string)
    requires AllDigits(s) && s != "" && (|s| > 1 ==> s[0] != '0')
    ensures Digits(Parse(s)) == s
    decreases |s|
  {
    var front, last := TakeLast(s);
    if front == "" {
      assert s == [last];
    } else {
      CanonicalDigits(front);
      LeadingDigit(front);
    }
  }

  // ---- zeros ----

  function Zeros(n: nat): (s: string)
    ensures |s| == n && AllDigits(s)
  {
    seq(n, _ => '0')
  }

  lemma {:induction false} ZerosParse(n: nat)
    ensures Parse(Zeros(n)) == 0
  {
    if n > 0 {
      ZerosParse(n - 1);
      assert Zeros(n)[..n - 1] == Zeros(n - 1);
    }
  }

  lemma {:induction false} ShiftZero(k: nat)
    ensures Shift(0, k) == 0
  {
    if k > 0 { ShiftZero(k - 1); }
  }

  lemma {:induction false} DigitsFit(n: nat, k: nat)
    requires n < Pow10(k) && k >= 1
    ensures |Digits(n)| <= k
    decreases k
  {
    if n >= 10 { DigitsFit(n / 10, k - 1); }
  }

  // ---- the same things as powers of ten ----

  lemma {:induction false} ShiftIsTimes(n: nat, k: nat)
    ensures Shift(n, k) == n * Pow10(k)
  {
    if k > 0 {
      ShiftIsTimes(n, k - 1);
    }
  }

  /** Dropping digits is dividing, and what was dropped is the remainder. */
  lemma DropIsDivide(n: nat, k: nat)
    ensures Drop(n, k) == Quotient(n, Pow10(k))
    ensures Fixed(n, k) == Fixed(Remainder(n, Pow10(k)), k)
  {
    var low := Low(n, k);
    DropAndLow(n, k);
    ShiftIsTimes(Drop(n, k), k);
    QuotientIs(Drop(n, k), low, Pow10(k));
  }

  /** The last `k` digits, as a number. */
  function Low(n: nat, k: nat): nat
    decreases k
  {
    if k == 0 then 0 else 10 * Low(n / 10, k - 1) + n % 10
  }

  lemma {:induction false} FixedParse(n: nat, k: nat)
    ensures Parse(Fixed(n, k)) == Low(n, k)
    decreases k
  {
    if k > 0 {
      FixedParse(n / 10, k - 1);
      ParseSnoc(Fixed(n / 10, k - 1), DigitOf(n % 10));
    }
  }

  lemma {:induction false} DropAndLow(n: nat, k: nat)
    ensures n == Shift(Drop(n, k), k) + Low(n, k) && Low(n, k) < Pow10(k)
    ensures Fixed(Low(n, k), k) == Fixed(n, k)
    decreases k
  {
    if k > 0 {
      DropAndLow(n / 10, k - 1);
      assert Low(n, k) / 10 == Low(n / 10, k - 1) && Low(n, k) % 10 == n % 10;
    }
  }
}
