/** Text helpers the restaurant code relies on: decimal rendering of integers,
    the two `strftime` layouts used for order identifiers, Python's `str.strip`,
    `str.lower` and `str.upper`, and the substring test behind `in`. */
module Text {
  import opened Wrappers

  // ---------------------------------------------------------------------------
  // Decimal digits

  predicate IsDigit(c: char) { '0' <= c <= '9' }

  predicate AllDigits(s: string) { forall i :: 0 <= i < |s| ==> IsDigit(s[i]) }

  function DigitChar(d: int): (c: char)
    requires 0 <= d < 10
    ensures IsDigit(c) && c as int - '0' as int == d
  {
    (d + '0' as int) as char
  }

  function DigitValue(c: char): int
    requires IsDigit(c)
  {
    c as int - '0' as int
  }

  function Pow10(n: nat): (r: nat)
    ensures r >= 1
  {
    if n == 0 then 1 else 10 * Pow10(n - 1)
  }

  /** The value of a string of decimal digits, most significant first. */
  function DigitsValue(s: string): nat
    requires AllDigits(s)
  {
    if s == [] then 0 else 10 * DigitsValue(s[..|s| - 1]) + DigitValue(s[|s| - 1])
  }

  /** `n` written with exactly `width` digits, padded with leading zeros
      (strftime's %Y with width 4; %m, %d, %H, %M, %S with width 2). */
  function Fixed(n: nat, width: nat): (s: string)
    requires n < Pow10(width)
    ensures |s| == width && AllDigits(s)
  {
    if width == 0 then "" else Fixed(n / 10, width - 1) + [DigitChar(n % 10)]
  }

  lemma {:induction false} FixedRoundTrip(n: nat, width: nat)
    requires n < Pow10(width)
    ensures DigitsValue(Fixed(n, width)) == n
  {
    if width > 0 {
      var s := Fixed(n, width);
      assert s[..|s| - 1] == Fixed(n / 10, width - 1);
      FixedRoundTrip(n / 10, width - 1);
    }
  }

  /** Python's `str(n)` for a non-negative integer: no leading zeros. */
  function NatText(n: nat): (s: string)
    ensures |s| >= 1 && AllDigits(s)
    ensures s[0] == '0' ==> n == 0
  {
    if n < 10 then [DigitChar(n)] else NatText(n / 10) + [DigitChar(n % 10)]
  }

  lemma {:induction false} NatTextRoundTrip(n: nat)
    ensures DigitsValue(NatText(n)) == n
  {
    if n >= 10 {
      var s := NatText(n);
      assert s[..|s| - 1] == NatText(n / 10);
      NatTextRoundTrip(n / 10);
    }
  }

  /** Python's `str(n)` for any integer. */
  function IntText(n: int): (s: string)
    ensures |s| >= 1
    ensures (s[0] == '-') == (n < 0)
  {
    if n < 0 then "-" + NatText(-n) else NatText(n)
  }

  // ---------------------------------------------------------------------------
  // Clock readings and the strftime layouts used for identifiers

  /** A reading of `datetime.now()`, passed in explicitly. */
  datatype Timestamp = Timestamp(year: int, month: int, day: int, hour: int, minute: int, second: int)

  predicate IsLeapYear(y: int) { (y % 4 == 0 && y % 100 != 0) || y % 400 == 0 }

  function DaysInMonth(y: int, m: int): int
    requires 1 <= m <= 12
  {
    if m == 2 then (if IsLeapYear(y) then 29 else 28)
    else if m == 4 || m == 6 || m == 9 || m == 11 then 30
    else 31
  }

  /** A calendar instant whose year `strftime('%Y')` writes with four digits. */
  predicate ValidTimestamp(t: Timestamp) {
    && 1000 <= t.year <= 9999
    && 1 <= t.month <= 12
    && 1 <= t.day <= DaysInMonth(t.year, t.month)
    && 0 <= t.hour < 24 && 0 <= t.minute < 60 && 0 <= t.second < 60
  }

  /** `t.strftime('%Y%m%d')`. */
  function CompactDate(t: Timestamp): (s: string)
    requires ValidTimestamp(t)
    ensures |s| == 8 && AllDigits(s)
  {
    Fixed(t.year, 4) + Fixed(t.month, 2) + Fixed(t.day, 2)
  }

  /** `t.strftime('%Y%m%d_%H%M%S')`. */
  function CompactDateTime(t: Timestamp): (s: string)
    requires ValidTimestamp(t)
    ensures |s| == 15 && s[8] == '_'
    ensures AllDigits(s[..8]) && AllDigits(s[9..])
  {
    var s := CompactDate(t) + "_" + Fixed(t.hour, 2) + Fixed(t.minute, 2) + Fixed(t.second, 2);
    assert s[..8] == CompactDate(t);
    s
  }

  /** Reads back the year, month and day written by `CompactDate`. */
  function ParseCompactDate(s: string): Option<(int, int, int)> {
    if |s| == 8 && AllDigits(s)
    then Some((DigitsValue(s[..4]), DigitsValue(s[4..6]), DigitsValue(s[6..])))
    else None
  }

  /** Reads back the instant written by `CompactDateTime`. */
  function ParseCompactDateTime(s: string): Option<Timestamp> {
    if |s| == 15 && s[8] == '_' && AllDigits(s[..8]) && AllDigits(s[9..])
    then
      match ParseCompactDate(s[..8])
      case None => None
      case Some(ymd) =>
        Some(Timestamp(ymd.0, ymd.1, ymd.2,
                       DigitsValue(s[9..11]), DigitsValue(s[11..13]), DigitsValue(s[13..])))
    else None
  }

  lemma {:induction false} CompactDateRoundTrip(t: Timestamp)
    requires ValidTimestamp(t)
    ensures ParseCompactDate(CompactDate(t)) == Some((t.year, t.month, t.day))
  {
    var s := CompactDate(t);
    assert s[..4] == Fixed(t.year, 4);
    assert s[4..6] == Fixed(t.month, 2);
    assert s[6..] == Fixed(t.day, 2);
    FixedRoundTrip(t.year, 4);
    FixedRoundTrip(t.month, 2);
    FixedRoundTrip(t.day, 2);
  }

  lemma {:induction false} CompactDateTimeRoundTrip(t: Timestamp)
    requires ValidTimestamp(t)
    ensures ParseCompactDateTime(CompactDateTime(t)) == Some(t)
  {
    var s := CompactDateTime(t);
    assert s[..8] == CompactDate(t);
    CompactDateRoundTrip(t);
    assert s[9..11] == Fixed(t.hour, 2);
    assert s[11..13] == Fixed(t.minute, 2);
    assert s[13..] == Fixed(t.second, 2);
    FixedRoundTrip(t.hour, 2);
    FixedRoundTrip(t.minute, 2);
    FixedRoundTrip(t.second, 2);
  }

  // ---------------------------------------------------------------------------
  // Python string methods

  /** Python's `str.isspace()` for one character: the characters `str.strip()` removes. */
  predicate IsSpace(c: char) {
    || ('\t' <= c <= '\r')
    || ('\U{1C}' <= c <= ' ')
    || c == '\U{85}' || c == '\U{A0}' || c == '\U{1680}'
    || ('\U{2000}' <= c <= '\U{200A}')
    || c == '\U{2028}' || c == '\U{2029}' || c == '\U{202F}' || c == '\U{205F}' || c == '\U{3000}'
  }

  predicate AllSpace(s: string) { forall i :: 0 <= i < |s| ==> IsSpace(s[i]) }

  function StripLeft(s: string): (r: string)
    ensures |r| <= |s| && r == s[|s| - |r|..]
    ensures AllSpace(s[..|s| - |r|])
    ensures r == [] || !IsSpace(r[0])
  {
    if s != [] && IsSpace(s[0]) then StripLeft(s[1..]) else s
  }

  function StripRight(s: string): (r: string)
    ensures |r| <= |s| && r == s[..|r|]
    ensures AllSpace(s[|r|..])
    ensures r == [] || !IsSpace(r[|r| - 1])
  {
    if s != [] && IsSpace(s[|s| - 1]) then StripRight(s[..|s| - 1]) else s
  }

  /** Python's `str.strip()`: the input without its leading and trailing whitespace;
      it is empty exactly when the input is blank. */
  function Strip(s: string): (r: string)
    ensures r == [] || (!IsSpace(r[0]) && !IsSpace(r[|r| - 1]))
    ensures r == [] <==> AllSpace(s)
  {
    var l := StripLeft(s);
    var r := StripRight(l);
    assert r == [] ==> s == s[..|s| - |l|] + l;
    assert r != [] ==> r[0] == l[0];
    r
  }

  /** `str.lower()` on one character: ASCII, Latin-1 and Cyrillic capitals. */
  function LowerChar(c: char): char {
    if 'A' <= c <= 'Z' then (c as int + 32) as char
    else if '\U{C0}' <= c <= '\U{DE}' && c != '\U{D7}' then (c as int + 32) as char
    else if '\U{410}' <= c <= '\U{42F}' then (c as int + 32) as char
    else if '\U{400}' <= c <= '\U{40F}' then (c as int + 80) as char
    else c
  }

  function Lower(s: string): (r: string)
    ensures |r| == |s| && forall i :: 0 <= i < |s| ==> r[i] == LowerChar(s[i])
  {
    seq(|s|, i requires 0 <= i < |s| => LowerChar(s[i]))
  }

  /** `str.upper()` on the hexadecimal digits `uuid.hex` produces. */
  function UpperChar(c: char): char {
    if 'a' <= c <= 'z' then (c as int - 32) as char else c
  }

  function Upper(s: string): (r: string)
    ensures |r| == |s| && forall i :: 0 <= i < |s| ==> r[i] == UpperChar(s[i])
  {
    seq(|s|, i requires 0 <= i < |s| => UpperChar(s[i]))
  }

  predicate IsLowerHex(c: char) { IsDigit(c) || 'a' <= c <= 'f' }

  predicate IsUpperHex(c: char) { IsDigit(c) || 'A' <= c <= 'F' }

  /** Python's `needle in hay` on strings; the empty needle occurs everywhere. */
  predicate Contains(needle: string, hay: string)
    decreases |hay|
  {
    (|needle| <= |hay| && hay[..|needle|] == needle) || (hay != [] && Contains(needle, hay[1..]))
  }

  lemma {:induction false} ContainsAt(needle: string, hay: string, k: nat)
    requires k + |needle| <= |hay| && hay[k..k + |needle|] == needle
    ensures Contains(needle, hay)
  {
    if k > 0 {
      assert hay[1..][k - 1..k - 1 + |needle|] == needle;
      ContainsAt(needle, hay[1..], k - 1);
    }
  }

  // ---------------------------------------------------------------------------
  // Ordering of text

  /** Code-point lexicographic order on strings (the "C" collation). */
  predicate StrLe(a: string, b: string) {
    if a == [] then true
    else if b == [] then false
    else if a[0] != b[0] then a[0] < b[0]
    else StrLe(a[1..], b[1..])
  }

  lemma {:induction false} StrLeTotal(a: string, b: string)
    ensures StrLe(a, b) || StrLe(b, a)
  {
    if a != [] && b != [] && a[0] == b[0] {
      StrLeTotal(a[1..], b[1..]);
    }
  }

  /** Lexicographic order on pairs of strings: by the first, then by the second. */
  predicate PairLe(x: (string, string), y: (string, string)) {
    if x.0 != y.0 then StrLe(x.0, y.0) else StrLe(x.1, y.1)
  }

  lemma {:induction false} PairLeTotal(x: (string, string), y: (string, string))
    ensures PairLe(x, y) || PairLe(y, x)
  {
    StrLeTotal(x.0, y.0);
    StrLeTotal(x.1, y.1);
  }
}
