/** The Python values the log model handles: the scalar kinds a general-file
    field can take, the built-in conversions `int(text)` and `float(text)`,
    `str(int)`, and the `datetime` that `TIME` is parsed into, with its
    `strptime` format and its `str()` form. */
module PyValues {
  import opened Wrappers
  import opened Text

  /** A value stored in a log's general data. `List` is the raw per-key list
      that the importer builds; `format_general` replaces it with a scalar. */
  datatype Value =
    | Bool(b: bool)
    | Int(i: int)
    | Float(x: real)
    | Str(s: string)
    | Time(t: DateTime)
    | List(items: seq<string>)

  /** A `datetime.datetime` without sub-second part. */
  datatype DateTime = DateTime(year: int, month: int, day: int, hour: int, minute: int, second: int)

  // ---------------------------------------------------------------- digits

  predicate IsDigit(c: char) {
    '0' <= c <= '9'
  }

  predicate AllDigits(s: string) {
    forall i :: 0 <= i < |s| ==> IsDigit(s[i])
  }

  function DigitValue(c: char): nat
    requires IsDigit(c)
  {
    (c as int) - ('0' as int)
  }

  function DigitChar(d: nat): (c: char)
    requires d < 10
    ensures IsDigit(c) && DigitValue(c) == d
  {
    ('0' as int + d) as char
  }

  /** The number a string of decimal digits denotes (leading zeros allowed). */
  function DigitsValue(s: string): nat
    requires AllDigits(s)
  {
    if s == [] then 0 else 10 * DigitsValue(s[..|s| - 1]) + DigitValue(Last(s))
  }

  function Pow10(n: nat): (p: nat)
    ensures p >= 1
  {
    if n == 0 then 1 else 10 * Pow10(n - 1)
  }

  /** `n` written with exactly `width` digits, zero-padded on the left (`%0<width>d`). */
  function PadDigits(n: nat, width: nat): (s: string)
    ensures |s| == width && AllDigits(s)
  {
    if width == 0 then "" else PadDigits(n / 10, width - 1) + [DigitChar(n % 10)]
  }

  /** The shortest decimal numeral of `n` (`str(n)` for `n >= 0`). */
  function NatDigits(n: nat): (s: string)
    ensures |s| >= 1 && AllDigits(s)
  {
    if n < 10 then [DigitChar(n)] else NatDigits(n / 10) + [DigitChar(n % 10)]
  }

  /** A zero-padded numeral denotes the number it was written from. */
  lemma {:induction false} PadDigitsValue(n: nat, width: nat)
    requires n < Pow10(width)
    ensures DigitsValue(PadDigits(n, width)) == n
  {
    if width > 0 {
      var s := PadDigits(n, width);
      assert s[..|s| - 1] == PadDigits(n / 10, width - 1);
      PadDigitsValue(n / 10, width - 1);
    }
  }

  /** Re-padding the value of a digit string to its own width gives it back. */
  lemma {:induction false} DigitsValuePad(s: string)
    requires AllDigits(s)
    ensures DigitsValue(s) < Pow10(|s|)
    ensures PadDigits(DigitsValue(s), |s|) == s
  {
    if s != [] {
      var p := s[..|s| - 1];
      DigitsValuePad(p);
      var v := DigitsValue(s);
      assert v / 10 == DigitsValue(p);
      assert v % 10 == DigitValue(Last(s));
      assert DigitChar(DigitValue(Last(s))) == Last(s);
      assert s == p + [Last(s)];
    }
  }

  /** The shortest numeral of `n` denotes `n`. */
  lemma {:induction false} NatDigitsValue(n: nat)
    ensures DigitsValue(NatDigits(n)) == n
  {
    var s := NatDigits(n);
    if n >= 10 {
      assert s[..|s| - 1] == NatDigits(n / 10);
      NatDigitsValue(n / 10);
    }
  }

  // ----------------------------------------------------------- conversions

  /** Splits an optional leading sign off a stripped numeral. */
  function Unsigned(t: string): (r: (bool, string))
    ensures |r.1| <= |t|
  {
    if |t| > 0 && (t[0] == '-' || t[0] == '+') then (t[0] == '-', t[1..]) else (false, t)
  }

  /** A digit part as Python's numerals write it, `digit (["_"] digit)*`:
      ASCII digits, with single underscores allowed between two digits
      (`1_000`). Read from the right: a last digit after a shorter digit
      part, or after an underscore that follows one. */
  predicate DigitPart(s: string)
    decreases |s|
  {
    && |s| > 0 && IsDigit(Last(s))
    && (|s| == 1
        || (s[|s| - 2] == '_' && |s| > 2 && DigitPart(s[..|s| - 2]))
        || (s[|s| - 2] != '_' && DigitPart(s[..|s| - 1])))
  }

  /** A digit part without its last digit and the underscore before it. */
  function Front(s: string): (p: string)
    requires DigitPart(s) && |s| > 1
    ensures DigitPart(p) && |p| < |s| && p <= s
  {
    if s[|s| - 2] == '_' then s[..|s| - 2] else s[..|s| - 1]
  }

  /** The number a digit part denotes, the underscores left out (0 for no digits). */
  function PartValue(s: string): nat
    requires s == [] || DigitPart(s)
    decreases |s|
  {
    if s == [] then 0
    else if |s| == 1 then DigitValue(s[0])
    else 10 * PartValue(Front(s)) + DigitValue(Last(s))
  }

  /** How many digits a digit part has. */
  function PartDigits(s: string): nat
    requires s == [] || DigitPart(s)
    decreases |s|
  {
    if s == [] then 0
    else if |s| == 1 then 1
    else PartDigits(Front(s)) + 1
  }

  /** A plain run of digits is a digit part denoting what the run denotes. */
  lemma {:induction false} DigitsPart(s: string)
    requires |s| > 0 && AllDigits(s)
    ensures DigitPart(s) && PartValue(s) == DigitsValue(s)
  {
    if |s| > 1 {
      var p := s[..|s| - 1];
      assert AllDigits(p) by {
        assert forall i :: 0 <= i < |p| ==> p[i] == s[i];
      }
      assert s[|s| - 2] == p[|p| - 1];
      DigitsPart(p);
    }
  }

  /** Every character of a digit part is a digit or an underscore. */
  lemma {:induction false} DigitPartChars(s: string, i: nat)
    requires DigitPart(s) && i < |s|
    ensures IsDigit(s[i]) || s[i] == '_'
    decreases |s|
  {
    if i < |s| - 1 {
      var p := Front(s);
      if i < |p| {
        DigitPartChars(p, i);
        assert p[i] == s[i];
      }
    }
  }

  /** In a digit part every underscore stands between two digits. */
  lemma {:induction false} UnderscoreBetweenDigits(s: string, i: nat)
    requires DigitPart(s) && i < |s| && s[i] == '_'
    ensures 0 < i < |s| - 1 && IsDigit(s[i - 1]) && IsDigit(s[i + 1])
    decreases |s|
  {
    var p := Front(s);
    if i < |p| {
      UnderscoreBetweenDigits(p, i);
      assert p[i - 1] == s[i - 1] && p[i + 1] == s[i + 1];
    } else {
      assert i == |s| - 2 && s[|s| - 2] == '_';
      assert IsDigit(Last(p)) && Last(p) == s[i - 1];
    }
  }

  /** A digit part followed by a digit is a digit part whose value is
      shifted by one digit. */
  lemma DigitPartSnoc(p: string, d: char)
    requires DigitPart(p) && IsDigit(d)
    ensures DigitPart(p + [d]) && PartValue(p + [d]) == 10 * PartValue(p) + DigitValue(d)
  {
    var t := p + [d];
    assert t[|t| - 2] == Last(p) && t[..|t| - 1] == p;
  }

  /** So is a digit part followed by an underscore and a digit. */
  lemma DigitPartGroupSnoc(p: string, d: char)
    requires DigitPart(p) && IsDigit(d)
    ensures DigitPart(p + "_" + [d]) && PartValue(p + "_" + [d]) == 10 * PartValue(p) + DigitValue(d)
  {
    var t := p + "_" + [d];
    assert t[|t| - 2] == '_' && t[..|t| - 2] == p;
  }

  /** A digit run followed by a digit denotes its value shifted by one digit. */
  lemma DigitsSnoc(s: string, d: char)
    requires AllDigits(s) && IsDigit(d)
    ensures AllDigits(s + [d]) && DigitsValue(s + [d]) == 10 * DigitsValue(s) + DigitValue(d)
  {
    assert (s + [d])[..|s|] == s;
  }

  /** Two digit runs joined by one underscore form a digit part that reads
      as the two runs written together (`1_000` as `1000`). */
  lemma {:induction false} GroupedPart(a: string, b: string)
    requires |a| > 0 && |b| > 0 && AllDigits(a) && AllDigits(b)
    ensures AllDigits(a + b)
    ensures DigitPart(a + "_" + b) && PartValue(a + "_" + b) == DigitsValue(a + b)
    decreases |b|
  {
    var d := Last(b);
    var q := b[..|b| - 1];
    assert b == q + [d];
    assert AllDigits(q) && IsDigit(d) by {
      assert forall i :: 0 <= i < |q| ==> q[i] == b[i];
    }
    if q == [] {
      DigitsPart(a);
      DigitsSnoc(a, d);
      DigitPartGroupSnoc(a, d);
    } else {
      GroupedPart(a, q);
      DigitsSnoc(a + q, d);
      DigitPartSnoc(a + "_" + q, d);
      AppendSnoc(a, q, d);
      AppendSnoc(a + "_", q, d);
    }
  }

  /** `int(a + "_" + b) == int(a + b)` for digit runs `a` and `b`. */
  lemma ParseIntGrouped(a: string, b: string)
    requires |a| > 0 && |b| > 0 && AllDigits(a) && AllDigits(b)
    ensures ParseInt(a + "_" + b) == Some(DigitsValue(a + b))
  {
    var t := a + "_" + b;
    GroupedPart(a, b);
    assert t[0] == a[0] && IsDigit(a[0]);
    assert Last(t) == Last(b) && IsDigit(Last(b));
    StripTrimmed(t);
    assert Unsigned(t) == (false, t);
  }

  /** `int(text)`: surrounding whitespace, an optional sign and a digit part;
      any other text of ASCII characters raises ValueError (here `None`).
      Unicode decimal digits other than `0`-`9` are not read. */
  function ParseInt(text: string): (r: Option<int>)
  {
    var (negative, body) := Unsigned(Strip(text));
    if DigitPart(body) then
      Some(if negative then -(PartValue(body) as int) else PartValue(body))
    else None
  }

  /** The value of an unsigned decimal numeral: a digit part, or an optional
      digit part, a `.` and an optional digit part with at least one of the
      two present (`"12"`, `"1_000"`, `"1.5"`, `"3."`, `".25"`). */
  function DecimalValue(body: string): Option<real>
  {
    if '.' in body then
      var i := FirstIndex(body, '.');
      var whole, fraction := body[..i], body[i + 1..];
      if (whole == [] || DigitPart(whole)) && (fraction == [] || DigitPart(fraction)) && |whole| + |fraction| > 0 then
        Some(PartValue(whole) as real + PartValue(fraction) as real / Pow10(PartDigits(fraction)) as real)
      else None
    else if DigitPart(body) then Some(PartValue(body) as real)
    else None
  }

  /** A numeral with two `.` is not a float. */
  lemma SecondPointRejected(body: string, i: nat, j: nat)
    requires i < j < |body| && body[i] == '.' && body[j] == '.'
    ensures DecimalValue(body) == None
  {
    var k := FirstIndex(body, '.');
    FirstIndexFirst(body, '.');
    assert k <= i;
    var fraction := body[k + 1..];
    assert fraction[j - k - 1] == '.';
    if DigitPart(fraction) {
      DigitPartChars(fraction, j - k - 1);
    }
  }

  /** `float(text)` on plain decimal notation: surrounding whitespace and an
      optional sign around a decimal numeral; other text raises ValueError
      (here `None`), including the exponent, `inf`/`nan` and non-ASCII digit
      forms Python would read. The value is the exact decimal. */
  function ParseFloat(text: string): (r: Option<real>)
  {
    var (negative, body) := Unsigned(Strip(text));
    match DecimalValue(body)
    case None => None
    case Some(x) => Some(if negative then -x else x)
  }

  /** `str(n)` for an int. */
  function FormatInt(n: int): (s: string)
    ensures |s| >= 1
  {
    if n < 0 then "-" + NatDigits(-n) else NatDigits(n)
  }

  /** `str(n)` has no surrounding whitespace; its sign and digits are those
      of `n`. */
  lemma FormatIntParts(n: int)
    ensures Unsigned(Strip(FormatInt(n))) == (n < 0, NatDigits(if n < 0 then -n else n))
  {
    var s := FormatInt(n);
    var body := NatDigits(if n < 0 then -n else n);
    assert IsDigit(Last(body));
    if n < 0 {
      assert s == "-" + body;
      assert s[1..] == body;
    } else {
      assert s == body;
    }
    assert Last(s) == Last(body);
    StripTrimmed(s);
  }

  /** `int(str(n)) == n`. */
  lemma ParseFormatInt(n: int)
    ensures ParseInt(FormatInt(n)) == Some(n)
  {
    FormatIntParts(n);
    DigitsPart(NatDigits(if n < 0 then -n else n));
    NatDigitsValue(if n < 0 then -n else n);
  }

  /** `float(str(n)) == n`: an int numeral also reads as a float. */
  lemma ParseFloatFormatInt(n: int)
    ensures ParseFloat(FormatInt(n)) == Some(n as real)
  {
    var m: nat := if n < 0 then -n else n;
    FormatIntParts(n);
    NatDigitsValue(m);
    DecimalValueDigits(NatDigits(m));
  }

  /** A numeral without a point reads as the integer it denotes. */
  lemma DecimalValueDigits(body: string)
    requires |body| > 0 && AllDigits(body)
    ensures DecimalValue(body) == Some(DigitsValue(body) as real)
  {
    assert '.' !in body by {
      assert forall i :: 0 <= i < |body| ==> IsDigit(body[i]);
    }
    DigitsPart(body);
  }

  // ------------------------------------------------------------ date/time

  predicate IsLeapYear(y: int) {
    y % 4 == 0 && (y % 100 != 0 || y % 400 == 0)
  }

  function DaysInMonth(y: int, m: int): int
    requires 1 <= m <= 12
  {
    if m == 2 then (if IsLeapYear(y) then 29 else 28)
    else if m == 4 || m == 6 || m == 9 || m == 11 then 30
    else 31
  }

  /** The values `datetime.datetime` accepts (years 1 to 9999). */
  predicate ValidDateTime(t: DateTime) {
    && 1 <= t.year <= 9999
    && 1 <= t.month <= 12
    && 1 <= t.day <= DaysInMonth(t.year, t.month)
    && 0 <= t.hour <= 23
    && 0 <= t.minute <= 59
    && 0 <= t.second <= 59
  }

  /** `str(t)` for a `datetime` without microseconds: `YYYY-MM-DD HH:MM:SS`. */
  function FormatTime(t: DateTime): (s: string)
    requires ValidDateTime(t)
    ensures |s| == 19
  {
    PadDigits(t.year, 4) + "-" + PadDigits(t.month, 2) + "-" + PadDigits(t.day, 2) + " "
    + PadDigits(t.hour, 2) + ":" + PadDigits(t.minute, 2) + ":" + PadDigits(t.second, 2)
  }

  /** The digit fields and separators of `YYYY-MM-DD HH:MM:SS`. */
  predicate TimeShaped(s: string) {
    && |s| == 19
    && s[4] == '-' && s[7] == '-' && s[10] == ' ' && s[13] == ':' && s[16] == ':'
    && AllDigits(s[0..4]) && AllDigits(s[5..7]) && AllDigits(s[8..10])
    && AllDigits(s[11..13]) && AllDigits(s[14..16]) && AllDigits(s[17..19])
  }

  /** `datetime.strptime(s, "%Y-%m-%d %H:%M:%S")` on the zero-padded form;
      `None` stands for the ValueError it raises otherwise. */
  function ParseTime(s: string): (r: Option<DateTime>)
    ensures r.Some? ==> ValidDateTime(r.value)
  {
    if TimeShaped(s) then
      var t := DateTime(DigitsValue(s[0..4]), DigitsValue(s[5..7]), DigitsValue(s[8..10]),
                        DigitsValue(s[11..13]), DigitsValue(s[14..16]), DigitsValue(s[17..19]));
      if ValidDateTime(t) then Some(t) else None
    else None
  }

  /** Parsing the text of a timestamp gives the timestamp back. */
  lemma ParseFormatTime(t: DateTime)
    requires ValidDateTime(t)
    ensures ParseTime(FormatTime(t)) == Some(t)
  {
    var s := FormatTime(t);
    assert s[0..4] == PadDigits(t.year, 4);
    assert s[5..7] == PadDigits(t.month, 2);
    assert s[8..10] == PadDigits(t.day, 2);
    assert s[11..13] == PadDigits(t.hour, 2);
    assert s[14..16] == PadDigits(t.minute, 2);
    assert s[17..19] == PadDigits(t.second, 2);
    PadDigitsValue(t.year, 4);
    PadDigitsValue(t.month, 2);
    PadDigitsValue(t.day, 2);
    PadDigitsValue(t.hour, 2);
    PadDigitsValue(t.minute, 2);
    PadDigitsValue(t.second, 2);
  }

  /** A text that parses as a timestamp is exactly that timestamp's text. */
  lemma FormatParseTime(s: string)
    requires ParseTime(s).Some?
    ensures FormatTime(ParseTime(s).value) == s
  {
    DigitsValuePad(s[0..4]);
    DigitsValuePad(s[5..7]);
    DigitsValuePad(s[8..10]);
    DigitsValuePad(s[11..13]);
    DigitsValuePad(s[14..16]);
    DigitsValuePad(s[17..19]);
    TimeTextFields(s);
  }

  /** A timestamp-shaped text is its digit fields joined by its separators. */
  lemma TimeTextFields(s: string)
    requires TimeShaped(s)
    ensures s == s[0..4] + "-" + s[5..7] + "-" + s[8..10] + " " + s[11..13] + ":" + s[14..16] + ":" + s[17..19]
  {
  }

  /** Distinct timestamps have distinct texts. */
  lemma FormatTimeInjective(t: DateTime, u: DateTime)
    requires ValidDateTime(t) && ValidDateTime(u)
    requires FormatTime(t) == FormatTime(u)
    ensures t == u
  {
    ParseFormatTime(t);
    ParseFormatTime(u);
  }

  /** The text of a timestamp has `:` exactly at its two time separators and no `;`. */
  lemma FormatTimeChars(t: DateTime)
    requires ValidDateTime(t)
    ensures ';' !in FormatTime(t)
  {
    var s := FormatTime(t);
    assert AllDigits(PadDigits(t.year, 4));
    forall i | 0 <= i < 19 ensures s[i] != ';' {
      assert s[0..4] == PadDigits(t.year, 4);
      assert s[5..7] == PadDigits(t.month, 2);
      assert s[8..10] == PadDigits(t.day, 2);
      assert s[11..13] == PadDigits(t.hour, 2);
      assert s[14..16] == PadDigits(t.minute, 2);
      assert s[17..19] == PadDigits(t.second, 2);
    }
  }
}
