/** String helpers the scraper relies on: scanning for the first character of a
    kind, the digit stripping `s.replace(/[^0-9]/g, '')` followed by unary `+`,
    decimal printing of numbers, and the query stripping: a replace of the
    regular expression `\?.*`, with no flags, by the empty string. */
module Text {

  /** The first index at or after `from` whose character satisfies `stop`,
      or `|s|` when there is none. */
  function Find(s: string, from: nat, stop: char -> bool): (k: nat)
    requires from <= |s|
    ensures from <= k <= |s|
    ensures forall m :: from <= m < k ==> !stop(s[m])
    ensures k < |s| ==> stop(s[k])
    decreases |s| - from
  {
    if from == |s| || stop(s[from]) then from else Find(s, from + 1, stop)
  }

  predicate IsDigit(c: char) { '0' <= c <= '9' }

  predicate AllDigits(s: string) { forall c | c in s :: IsDigit(c) }

  /** `s.replace(/[^0-9]/g, '')`: the ASCII digits of `s`, in order. */
  function DigitsOf(s: string): (r: string)
    ensures AllDigits(r)
    ensures |r| <= |s|
  {
    if s == [] then []
    else (if IsDigit(s[0]) then [s[0]] else []) + DigitsOf(s[1..])
  }

  function DigitValue(c: char): nat
    requires IsDigit(c)
  {
    c as int - '0' as int
  }

  function DigitChar(d: nat): (c: char)
    requires d < 10
    ensures IsDigit(c) && DigitValue(c) == d
  {
    ('0' as int + d) as char
  }

  /** Unary `+` applied to a string of decimal digits; the empty string reads as 0,
      as `+""` does. */
  function DecimalValue(ds: string): nat
    requires AllDigits(ds)
  {
    if ds == [] then 0
    else DecimalValue(ds[..|ds| - 1]) * 10 + DigitValue(ds[|ds| - 1])
  }

  /** The decimal notation of a natural number, without leading zeros. */
  function NatToDecimal(n: nat): (r: string)
    ensures AllDigits(r) && r != []
  {
    if n < 10 then [DigitChar(n)] else NatToDecimal(n / 10) + [DigitChar(n % 10)]
  }

  /** `+s.replace(/[^0-9]/g, '')`: the number written by the digits of a display
      string such as "1,234 videos". */
  function CountFromDisplay(s: string): nat {
    DecimalValue(DigitsOf(s))
  }

  predicate IsLineTerminator(c: char) {
    c == '\n' || c == '\r' || c == '\U{2028}' || c == '\U{2029}'
  }

  predicate IsQuestionMark(c: char) { c == '?' }

  /** The text before the first line terminator. */
  function FirstLine(s: string): string {
    s[..Find(s, 0, IsLineTerminator)]
  }

  /** A replace of the regular expression `\?.*`, with no flags, by the empty
      string: removes the first `?` and the rest of its line (without the `s`
      flag, `.` stops at a line terminator). */
  function StripQuery(s: string): string {
    var q := Find(s, 0, IsQuestionMark);
    if q == |s| then s else s[..q] + s[Find(s, q, IsLineTerminator)..]
  }

  lemma {:induction false} DigitsOfAppend(a: string, b: string)
    ensures DigitsOf(a + b) == DigitsOf(a) + DigitsOf(b)
  {
    if a == [] {
      assert a + b == b;
    } else {
      assert (a + b)[0] == a[0];
      assert (a + b)[1..] == a[1..] + b;
      DigitsOfAppend(a[1..], b);
    }
  }

  /** Stripping keeps a string of digits as it is. */
  lemma {:induction false} DigitsOfDigits(s: string)
    requires AllDigits(s)
    ensures DigitsOf(s) == s
  {
    if s != [] {
      assert s[0] in s;
      assert AllDigits(s[1..]) by {
        forall c | c in s[1..] ensures IsDigit(c) { assert c in s; }
      }
      DigitsOfDigits(s[1..]);
    }
  }

  /** A display string without digits counts as 0 (`+""` is 0). */
  lemma NoDigitsCountsZero(s: string)
    requires forall c | c in s :: !IsDigit(c)
    ensures CountFromDisplay(s) == 0
  {
    assert DigitsOf(s) == [] by { NoDigitsStripEmpty(s); }
  }

  lemma {:induction false} NoDigitsStripEmpty(s: string)
    requires forall c | c in s :: !IsDigit(c)
    ensures DigitsOf(s) == []
  {
    if s != [] {
      assert s[0] in s;
      forall c | c in s[1..] ensures !IsDigit(c) { assert c in s; }
      NoDigitsStripEmpty(s[1..]);
    }
  }

  /** Reading back the decimal notation of a number gives the number. */
  lemma {:induction false} DecimalRoundTrip(n: nat)
    ensures DecimalValue(NatToDecimal(n)) == n
  {
    var r := NatToDecimal(n);
    if n >= 10 {
      DecimalRoundTrip(n / 10);
      assert r[..|r| - 1] == NatToDecimal(n / 10);
    }
  }

  /** The count read from a display string is the number its digits spell,
      whatever text surrounds them: `prefix + "1234" + suffix` counts 1234 when
      neither side holds a digit. */
  lemma CountOfDecoratedNumber(prefix: string, n: nat, suffix: string)
    requires forall c | c in prefix :: !IsDigit(c)
    requires forall c | c in suffix :: !IsDigit(c)
    ensures CountFromDisplay(prefix + NatToDecimal(n) + suffix) == n
  {
    var ds := NatToDecimal(n);
    assert DigitsOf(prefix + ds) == ds by {
      DigitsOfAppend(prefix, ds);
      NoDigitsStripEmpty(prefix);
      DigitsOfDigits(ds);
      assert [] + ds == ds;
    }
    assert DigitsOf(prefix + ds + suffix) == ds by {
      DigitsOfAppend(prefix + ds, suffix);
      NoDigitsStripEmpty(suffix);
      assert ds + [] == ds;
    }
    DecimalRoundTrip(n);
  }

  /** Characters that are not digits, such as thousands separators, do not
      change the count. */
  lemma CountIgnoresSeparators(a: string, sep: string, b: string)
    requires forall c | c in sep :: !IsDigit(c)
    ensures CountFromDisplay(a + sep + b) == CountFromDisplay(a + b)
  {
    DigitsOfAppend(a + sep, b);
    DigitsOfAppend(a, sep);
    DigitsOfAppend(a, b);
    NoDigitsStripEmpty(sep);
    assert DigitsOf(a) + [] == DigitsOf(a);
  }

  /** A display string with a thousands separator: "1,234 videos" counts 1234. */
  lemma CountWithSeparatorExample()
    ensures CountFromDisplay("1,234 videos") == 1234
  {
    assert "1,234 videos" == "1" + "," + "234 videos";
    CountIgnoresSeparators("1", ",", "234 videos");
    assert NatToDecimal(1234) == "1234";
    assert "1" + "234 videos" == [] + NatToDecimal(1234) + " videos";
    CountOfDecoratedNumber([], 1234, " videos");
  }

  /** The first line of a stripped string holds no `?`. */
  lemma StripQueryFirstLine(s: string)
    ensures '?' !in FirstLine(StripQuery(s))
  {
    var q := Find(s, 0, IsQuestionMark);
    var r := StripQuery(s);
    var e := Find(r, 0, IsLineTerminator);
    if q < |s| {
      var j := Find(s, q, IsLineTerminator);
      assert r == s[..q] + s[j..];
      if j < |s| {
        assert r[q] == s[j];
      }
      assert e <= q;
      assert forall m | 0 <= m < e :: r[m] == s[m];
    }
    assert forall m | 0 <= m < e :: FirstLine(r)[m] == r[m];
  }

  /** On a single-line string, stripping keeps exactly the text before the first
      `?`, and stripping again changes nothing. */
  lemma StripQuerySingleLine(s: string)
    requires forall c | c in s :: !IsLineTerminator(c)
    ensures var r := StripQuery(s);
      && r == s[..Find(s, 0, IsQuestionMark)]
      && '?' !in r
      && StripQuery(r) == r
  {
    var q := Find(s, 0, IsQuestionMark);
    if q < |s| {
      var j := Find(s, q, IsLineTerminator);
      assert forall m | 0 <= m < |s| :: s[m] in s && !IsLineTerminator(s[m]);
      assert j == |s|;
    }
    var r := s[..q];
    assert forall m | 0 <= m < |r| :: r[m] == s[m];
    assert Find(r, 0, IsQuestionMark) == |r|;
  }
}
