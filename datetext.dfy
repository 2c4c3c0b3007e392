// Dates as text: datetime.strptime(s, '%Y-%m-%d') and strftime('%Y-%m-%d').
//
// strptime matches CPython's directive patterns: %Y is exactly four digits,
// %m is 1[0-2] | 0[1-9] | [1-9], and %d is 3[01] | [12]\d | 0[1-9] | [1-9] | ' '[1-9],
// tried in that order. Text left over after the match, year 0, and a day past
// the end of the month are ValueErrors too. So '2024-1-5' is accepted, while
// '2024-13-01', '15-01-2024' and '2024/01/15' are not.
module DateText {
  import opened Wrappers
  import opened Calendar

  /** The ValueErrors strptime raises for this format. */
  datatype ParseError =
    | NoMatch                           // "time data ... does not match format '%Y-%m-%d'"
    | UnconvertedData(rest: string)     // "unconverted data remains: ..."
    | YearOutOfRange                    // "year 0 is out of range"
    | DayOutOfRange                     // "day is out of range for month"

  predicate IsDigit(c: char) {
    '0' <= c <= '9'
  }

  function DigitValue(c: char): (v: int)
    requires IsDigit(c)
    ensures 0 <= v <= 9
  {
    c as int - '0' as int
  }

  function Digit(n: int): (c: char)
    requires 0 <= n <= 9
    ensures IsDigit(c) && DigitValue(c) == n
  {
    (n + '0' as int) as char
  }

  /** A matched directive: its value and how many characters it consumed. */
  datatype Token = Token(value: int, width: nat)

  /** %m: 1[0-2] | 0[1-9] | [1-9]. */
  function MonthToken(t: string): (r: Option<Token>)
    ensures r.Some? ==> 1 <= r.value.value <= 12 && 1 <= r.value.width <= 2 && r.value.width <= |t|
  {
    if |t| >= 2 && t[0] == '1' && '0' <= t[1] <= '2' then Some(Token(10 + DigitValue(t[1]), 2))
    else if |t| >= 2 && t[0] == '0' && '1' <= t[1] <= '9' then Some(Token(DigitValue(t[1]), 2))
    else if |t| >= 1 && '1' <= t[0] <= '9' then Some(Token(DigitValue(t[0]), 1))
    else None
  }

  /** %d: 3[01] | [12]\d | 0[1-9] | [1-9] | ' '[1-9]; the first alternative that matches wins. */
  function DayToken(t: string): (r: Option<Token>)
    ensures r.Some? ==> 1 <= r.value.value <= 31 && 1 <= r.value.width <= 2 && r.value.width <= |t|
  {
    if |t| >= 2 && t[0] == '3' && '0' <= t[1] <= '1' then Some(Token(30 + DigitValue(t[1]), 2))
    else if |t| >= 2 && '1' <= t[0] <= '2' && IsDigit(t[1]) then Some(Token(10 * DigitValue(t[0]) + DigitValue(t[1]), 2))
    else if |t| >= 2 && t[0] == '0' && '1' <= t[1] <= '9' then Some(Token(DigitValue(t[1]), 2))
    else if |t| >= 1 && '1' <= t[0] <= '9' then Some(Token(DigitValue(t[0]), 1))
    else if |t| >= 2 && t[0] == ' ' && '1' <= t[1] <= '9' then Some(Token(DigitValue(t[1]), 2))
    else None
  }

  function YearValue(s: string): (y: int)
    requires |s| >= 4 && IsDigit(s[0]) && IsDigit(s[1]) && IsDigit(s[2]) && IsDigit(s[3])
    ensures 0 <= y <= 9999
  {
    1000 * DigitValue(s[0]) + 100 * DigitValue(s[1]) + 10 * DigitValue(s[2]) + DigitValue(s[3])
  }

  /** datetime.strptime(s, '%Y-%m-%d'): the date, or the ValueError it raises. */
  function Parse(s: string): (r: Result<Date, ParseError>)
    ensures r.Ok? ==> Valid(r.value)
    ensures r.Ok? ==> 8 <= |s| <= 10 && s[4] == '-'
  {
    if !(|s| >= 5 && IsDigit(s[0]) && IsDigit(s[1]) && IsDigit(s[2]) && IsDigit(s[3]) && s[4] == '-') then Err(NoMatch)
    else
      var y := YearValue(s);
      var mt := MonthToken(s[5..]);
      if mt.None? then Err(NoMatch)
      else
        var afterMonth := 5 + mt.value.width;
        if !(afterMonth < |s| && s[afterMonth] == '-') then Err(NoMatch)
        else
          var dt := DayToken(s[afterMonth + 1..]);
          if dt.None? then Err(NoMatch)
          else
            var end := afterMonth + 1 + dt.value.width;
            if end < |s| then Err(UnconvertedData(s[end..]))
            else if y < MinYear then Err(YearOutOfRange)
            else if dt.value.value > DaysInMonth(y, mt.value.value) then Err(DayOutOfRange)
            else Ok(Date(y, mt.value.value, dt.value.value))
  }

  function Pad2(n: int): (s: string)
    requires 0 <= n <= 99
    ensures |s| == 2 && IsDigit(s[0]) && IsDigit(s[1])
    ensures 10 * DigitValue(s[0]) + DigitValue(s[1]) == n
  {
    [Digit(n / 10), Digit(n % 10)]
  }

  function Pad4(n: int): (s: string)
    requires 0 <= n <= 9999
    ensures |s| == 4 && IsDigit(s[0]) && IsDigit(s[1]) && IsDigit(s[2]) && IsDigit(s[3])
    ensures YearValue(s) == n
  {
    var q1, d0 := n / 10, n % 10;
    var q2, d1 := q1 / 10, q1 % 10;
    var q3, d2 := q2 / 10, q2 % 10;
    [Digit(q3), Digit(d2), Digit(d1), Digit(d0)]
  }

  lemma Pad2Of(c0: char, c1: char)
    requires IsDigit(c0) && IsDigit(c1)
    ensures Pad2(10 * DigitValue(c0) + DigitValue(c1)) == [c0, c1]
  {
    var n := 10 * DigitValue(c0) + DigitValue(c1);
    assert n / 10 == DigitValue(c0) && n % 10 == DigitValue(c1);
  }

  lemma Pad4Of(s: string)
    requires |s| == 4 && IsDigit(s[0]) && IsDigit(s[1]) && IsDigit(s[2]) && IsDigit(s[3])
    ensures Pad4(YearValue(s)) == s
  {
    var n := YearValue(s);
    var a, b, c, d := DigitValue(s[0]), DigitValue(s[1]), DigitValue(s[2]), DigitValue(s[3]);
    assert n / 10 == 100 * a + 10 * b + c && n % 10 == d;
    assert (n / 10) / 10 == 10 * a + b && (n / 10) % 10 == c;
    assert ((n / 10) / 10) / 10 == a && ((n / 10) / 10) % 10 == b;
  }

  /** date.strftime('%Y-%m-%d'), with the year zero-padded to four digits. */
  function Format(d: Date): (s: string)
    requires Valid(d)
    ensures |s| == 10 && s[4] == '-' && s[7] == '-'
  {
    Pad4(d.year) + "-" + Pad2(d.month) + "-" + Pad2(d.day)
  }

  /** Every date prints as text that strptime reads back as the same date. */
  lemma ParseFormat(d: Date)
    requires Valid(d)
    ensures Parse(Format(d)) == Ok(d)
  {
    var s := Format(d);
    var ms, ds := Pad2(d.month), Pad2(d.day);
    assert s[5..] == ms + "-" + ds;
    assert s[8..] == ds;
    assert MonthToken(s[5..]) == Some(Token(d.month, 2));
    assert DayToken(s[8..]) == Some(Token(d.day, 2));
  }

  /** Conversely, ten characters without a blank that strptime accepts are
      exactly the printed form of the date they denote. */
  lemma FormatParse(s: string)
    requires Parse(s).Ok? && |s| == 10 && ' ' !in s
    ensures Format(Parse(s).value) == s
  {
    var d := Parse(s).value;
    var mt := MonthToken(s[5..]).value;
    assert mt.width == 2;
    assert s[8] != ' ' by { assert s[8] in s; }
    assert d.month == 10 * DigitValue(s[5]) + DigitValue(s[6]);
    assert d.day == 10 * DigitValue(s[8]) + DigitValue(s[9]);
    Pad4Of(s[..4]);
    Pad2Of(s[5], s[6]);
    Pad2Of(s[8], s[9]);
    assert s == s[..4] + "-" + [s[5], s[6]] + "-" + [s[8], s[9]];
  }

  /** Dates tests/test_app.py expects strptime to accept. */
  lemma ParseAccepts()
    ensures Parse("2024-01-15") == Ok(Date(2024, 1, 15))
    ensures Parse("2023-12-31") == Ok(Date(2023, 12, 31))
  {
  }

  /** Dates tests/test_app.py expects strptime to reject. */
  lemma ParseRejects()
    ensures Parse("2024-13-01") == Err(NoMatch)
    ensures Parse("15-01-2024") == Err(NoMatch)
    ensures Parse("2024/01/15") == Err(NoMatch)
    ensures Parse("invalid") == Err(NoMatch)
  {
  }

  /** A day past the month's end and trailing text are rejected; a one-digit
      month and day are accepted. */
  lemma ParseEdgeCases()
    ensures Parse("2024-02-30") == Err(DayOutOfRange)
    ensures Parse("2024-01-151") == Err(UnconvertedData("1"))
    ensures Parse("2024-1-5") == Ok(Date(2024, 1, 5))
  {
  }
}
