/** The date-of-birth check of submit_form: `datetime.strptime(dob, '%Y-%m-%d')`,
    which either returns or raises ValueError.  CPython's strptime turns the format
    into the regular expression
      (?P<Y>\d\d\d\d)-(?P<m>1[0-2]|0[1-9]|[1-9])-(?P<d>3[01]|[12]\d|0[1-9]|[1-9]| [1-9])
    matches it at the start of the text, raises "unconverted data remains" when the
    match stops short of the end, and then builds the date, which raises when the
    year is 0 or the day lies outside the month.  The same module holds strftime's
    '%Y-%m-%d' rendering, which fetch_users applies to stored dates. */
module DobFormat {
  import opened Wrappers

  datatype Date = Date(year: int, month: int, day: int)

  /** Gregorian leap years. */
  predicate IsLeap(y: int) {
    y % 4 == 0 && (y % 100 != 0 || y % 400 == 0)
  }

  function DaysInMonth(y: int, m: int): (n: int)
    requires 1 <= m <= 12
    ensures 28 <= n <= 31
    ensures n == 29 ==> m == 2 && IsLeap(y)
    ensures n == 31 <==> m in {1, 3, 5, 7, 8, 10, 12}
  {
    if m == 2 then (if IsLeap(y) then 29 else 28)
    else if m == 4 || m == 6 || m == 9 || m == 11 then 30
    else 31
  }

  /** `datetime.date(year, month, day)` accepts the triple (MINYEAR is 1, MAXYEAR 9999). */
  predicate ValidDate(d: Date) {
    1 <= d.year <= 9999 && 1 <= d.month <= 12 && 1 <= d.day <= DaysInMonth(d.year, d.month)
  }

  predicate IsDigit(c: char) {
    '0' <= c <= '9'
  }

  function DigitValue(c: char): int
    requires IsDigit(c)
  {
    c as int - '0' as int
  }

  function DigitChar(n: int): char
    requires 0 <= n <= 9
  {
    ('0' as int + n) as char
  }

  /** The value of the `Y` group. */
  function FourDigitValue(a: char, b: char, c: char, d: char): int
    requires IsDigit(a) && IsDigit(b) && IsDigit(c) && IsDigit(d)
  {
    1000 * DigitValue(a) + 100 * DigitValue(b) + 10 * DigitValue(c) + DigitValue(d)
  }

  /** The `m` group followed by the '-' after it: the value and the length of
      the month token.  The regex tries the alternatives in order and backtracks
      to the next one when the '-' does not follow. */
  function MatchMonth(r: string): (m: Option<(int, nat)>)
    ensures m.Some? ==> 1 <= m.value.1 <= 2 && m.value.1 < |r| && r[m.value.1] == '-'
    ensures m.Some? ==> 1 <= m.value.0 <= 12
  {
    if |r| >= 3 && r[0] == '1' && '0' <= r[1] <= '2' && r[2] == '-' then Some((10 + DigitValue(r[1]), 2))
    else if |r| >= 3 && r[0] == '0' && '1' <= r[1] <= '9' && r[2] == '-' then Some((DigitValue(r[1]), 2))
    else if |r| >= 2 && '1' <= r[0] <= '9' && r[1] == '-' then Some((DigitValue(r[0]), 1))
    else None
  }

  /** The `d` group, the last in the pattern, so the first alternative that
      matches a prefix of r is taken; strptime then rejects any text left over. */
  function MatchDay(r: string): (d: Option<int>)
    ensures d.Some? ==> 1 <= d.value <= 31 && 1 <= |r| <= 2
  {
    var token: Option<(int, nat)> :=
      if |r| >= 2 && r[0] == '3' && '0' <= r[1] <= '1' then Some((30 + DigitValue(r[1]), 2))
      else if |r| >= 2 && '1' <= r[0] <= '2' && IsDigit(r[1]) then Some((10 * DigitValue(r[0]) + DigitValue(r[1]), 2))
      else if |r| >= 2 && r[0] == '0' && '1' <= r[1] <= '9' then Some((DigitValue(r[1]), 2))
      else if |r| >= 1 && '1' <= r[0] <= '9' then Some((DigitValue(r[0]), 1))
      else if |r| >= 2 && r[0] == ' ' && '1' <= r[1] <= '9' then Some((DigitValue(r[1]), 2))
      else None;
    match token
    case Some((day, n)) => if n == |r| then Some(day) else None
    case None => None
  }

  /** The regex stage of strptime: the year, month and day it reads from s,
      or None when the pattern does not match all of s. */
  function ParseDob(s: string): (r: Option<Date>)
    ensures r.Some? ==> 0 <= r.value.year <= 9999 && 1 <= r.value.month <= 12 && 1 <= r.value.day <= 31
    ensures r.Some? ==> 8 <= |s| <= 10 && s[4] == '-'
  {
    if |s| < 5 || !(IsDigit(s[0]) && IsDigit(s[1]) && IsDigit(s[2]) && IsDigit(s[3])) || s[4] != '-' then None
    else
      var year := FourDigitValue(s[0], s[1], s[2], s[3]);
      match MatchMonth(s[5..])
      case None => None
      case Some((month, n)) =>
        match MatchDay(s[5 + n + 1..])
        case None => None
        case Some(day) => Some(Date(year, month, day))
  }

  /** `datetime.strptime(s, '%Y-%m-%d')` returns without raising ValueError. */
  predicate DateShapeOk(s: string)
    ensures DateShapeOk(s) ==> 8 <= |s| <= 10 && IsDigit(s[0]) && s[4] == '-' && s[|s| - 1] != '\n'
  {
    match ParseDob(s)
    case Some(d) => ValidDate(d)
    case None => false
  }

  /** %Y as strftime renders it: four digits, zero-padded. */
  function Year4(y: int): string
    requires 0 <= y <= 9999
  {
    [DigitChar(y / 1000), DigitChar(y / 100 % 10), DigitChar(y / 10 % 10), DigitChar(y % 10)]
  }

  /** %m and %d as strftime renders them: two digits, zero-padded. */
  function Pad2(n: int): string
    requires 0 <= n <= 99
  {
    [DigitChar(n / 10), DigitChar(n % 10)]
  }

  /** `date.strftime('%Y-%m-%d')`. */
  function FormatDate(d: Date): (s: string)
    requires ValidDate(d)
    ensures |s| == 10 && s[4] == '-' && s[7] == '-'
    ensures forall k :: 0 <= k < 10 && k != 4 && k != 7 ==> IsDigit(s[k])
  {
    Year4(d.year) + "-" + Pad2(d.month) + "-" + Pad2(d.day)
  }

  /** The ways the `m` group can spell a month. */
  function MonthSpellings(m: int): set<string>
    requires 1 <= m <= 12
  {
    {Pad2(m)} + (if m <= 9 then {[DigitChar(m)]} else {})
  }

  /** The ways the `d` group can spell a day. */
  function DaySpellings(d: int): set<string>
    requires 1 <= d <= 31
  {
    {Pad2(d)} + (if d <= 9 then {[DigitChar(d)], [' ', DigitChar(d)]} else {})
  }

  /** s spells the valid date d in the '%Y-%m-%d' format, as strptime reads it. */
  ghost predicate Spells(s: string, d: Date) {
    ValidDate(d) &&
    exists mm, dd :: mm in MonthSpellings(d.month) && dd in DaySpellings(d.day) &&
      s == Year4(d.year) + "-" + mm + "-" + dd
  }

  /** The strings strptime accepts: the spellings of valid calendar dates. */
  ghost predicate DateSpec(s: string) {
    exists d :: Spells(s, d)
  }

  lemma DigitRoundTrip(c: char)
    requires IsDigit(c)
    ensures DigitChar(DigitValue(c)) == c
  {
  }

  /** The four digits of %Y read back as the year. */
  lemma YearRoundTrip(y: int)
    requires 0 <= y <= 9999
    ensures var t := Year4(y); IsDigit(t[0]) && IsDigit(t[1]) && IsDigit(t[2]) && IsDigit(t[3])
    ensures var t := Year4(y); FourDigitValue(t[0], t[1], t[2], t[3]) == y
  {
    assert 1000 * (y / 1000) + 100 * (y / 100 % 10) + 10 * (y / 10 % 10) + y % 10 == y;
  }

  /** Every spelling of a month, followed by '-', matches the `m` group with that month. */
  lemma MonthSpellingMatches(m: int, mm: string, rest: string)
    requires 1 <= m <= 12 && mm in MonthSpellings(m)
    ensures MatchMonth(mm + "-" + rest) == Some((m, |mm|))
  {
    var r := mm + "-" + rest;
    if mm == Pad2(m) {
      assert r[0] == DigitChar(m / 10) && r[1] == DigitChar(m % 10) && r[2] == '-';
    } else {
      assert r[0] == DigitChar(m) && r[1] == '-';
    }
  }

  /** Every spelling of a day matches the `d` group with that day and nothing left over. */
  lemma DaySpellingMatches(d: int, dd: string)
    requires 1 <= d <= 31 && dd in DaySpellings(d)
    ensures MatchDay(dd) == Some(d)
  {
  }

  /** Every spelling of a valid date reads back as that date. */
  lemma ParseSpelling(d: Date, mm: string, dd: string)
    requires ValidDate(d) && mm in MonthSpellings(d.month) && dd in DaySpellings(d.day)
    ensures ParseDob(Year4(d.year) + "-" + mm + "-" + dd) == Some(d)
  {
    var s := Year4(d.year) + "-" + mm + "-" + dd;
    YearRoundTrip(d.year);
    assert s[..4] == Year4(d.year);
    assert s[4] == '-';
    assert s[5..] == mm + "-" + dd;
    assert s[5 + |mm| + 1..] == dd;
    MonthSpellingMatches(d.month, mm, dd);
    DaySpellingMatches(d.day, dd);
  }

  lemma PlaceValues(p: int, q: int, u: int, v: int)
    requires 0 <= p <= 9 && 0 <= q <= 9 && 0 <= u <= 9 && 0 <= v <= 9
    ensures var y := 1000 * p + 100 * q + 10 * u + v;
      y / 1000 == p && y / 100 % 10 == q && y / 10 % 10 == u && y % 10 == v
  {
    var y := 1000 * p + 100 * q + 10 * u + v;
    assert y / 10 == 100 * p + 10 * q + u;
    assert y / 100 == 10 * p + q;
  }

  /** Four digits are the %Y rendering of their value. */
  lemma DigitsAreYear4(a: char, b: char, c: char, d: char)
    requires IsDigit(a) && IsDigit(b) && IsDigit(c) && IsDigit(d)
    ensures 0 <= FourDigitValue(a, b, c, d) <= 9999
    ensures Year4(FourDigitValue(a, b, c, d)) == [a, b, c, d]
  {
    PlaceValues(DigitValue(a), DigitValue(b), DigitValue(c), DigitValue(d));
    DigitRoundTrip(a);
    DigitRoundTrip(b);
    DigitRoundTrip(c);
    DigitRoundTrip(d);
  }

  /** The month token the `m` group consumed is a spelling of the month it read. */
  lemma MatchedMonthIsSpelling(r: string)
    requires MatchMonth(r).Some?
    ensures var (m, n) := MatchMonth(r).value; 1 <= m <= 12 && r[..n] in MonthSpellings(m)
  {
    var (m, n) := MatchMonth(r).value;
    if n == 2 {
      DigitRoundTrip(r[1]);
      assert r[..n] == [r[0], r[1]] == Pad2(m);
    } else {
      DigitRoundTrip(r[0]);
      assert r[..n] == [r[0]] == [DigitChar(m)];
    }
  }

  /** The text the `d` group accepted is a spelling of the day it read. */
  lemma MatchedDayIsSpelling(r: string)
    requires MatchDay(r).Some?
    ensures 1 <= MatchDay(r).value <= 31 && r in DaySpellings(MatchDay(r).value)
  {
    var d := MatchDay(r).value;
    if |r| == 2 {
      DigitRoundTrip(r[1]);
      if r[0] == ' ' {
        assert r == [' ', DigitChar(d)];
      } else {
        DigitRoundTrip(r[0]);
        assert r == Pad2(d);
      }
    } else {
      DigitRoundTrip(r[0]);
      assert r == [DigitChar(d)];
    }
  }

  /** What ParseDob reads, it reads from a spelling of the date it returns. */
  lemma ParsedIsSpelling(s: string)
    requires ParseDob(s).Some? && ValidDate(ParseDob(s).value)
    ensures Spells(s, ParseDob(s).value)
  {
    var d := ParseDob(s).value;
    var (month, n) := MatchMonth(s[5..]).value;
    var mm := s[5..5 + n];
    var dd := s[5 + n + 1..];
    DigitsAreYear4(s[0], s[1], s[2], s[3]);
    assert s[..4] == Year4(d.year);
    MatchedMonthIsSpelling(s[5..]);
    assert s[5..][..n] == mm;
    MatchedDayIsSpelling(dd);
    assert s == s[..4] + "-" + mm + "-" + dd;
  }

  /** DateShapeOk accepts exactly the spellings of valid calendar dates. */
  lemma DateShapeOkIff(s: string)
    ensures DateShapeOk(s) <==> DateSpec(s)
  {
    if DateShapeOk(s) {
      ParsedIsSpelling(s);
    }
    if DateSpec(s) {
      var d :| Spells(s, d);
      var mm, dd :| mm in MonthSpellings(d.month) && dd in DaySpellings(d.day) &&
        s == Year4(d.year) + "-" + mm + "-" + dd;
      ParseSpelling(d, mm, dd);
    }
  }

  /** strftime's rendering of a valid date passes strptime and reads back as the same date. */
  lemma FormatParseRoundTrip(d: Date)
    requires ValidDate(d)
    ensures ParseDob(FormatDate(d)) == Some(d) && DateShapeOk(FormatDate(d))
  {
    ParseSpelling(d, Pad2(d.month), Pad2(d.day));
  }

  /** An accepted dob reads as a date whose rendering is itself accepted and
      reads back as the same date: the normal form of the submitted text. */
  lemma AcceptedNormalizes(s: string)
    requires DateShapeOk(s)
    ensures ParseDob(FormatDate(ParseDob(s).value)) == ParseDob(s)
  {
    FormatParseRoundTrip(ParseDob(s).value);
  }

  /** February has 29 days exactly in Gregorian leap years. */
  lemma FebruaryLeapDay(y: int)
    requires 1 <= y <= 9999
    ensures ValidDate(Date(y, 2, 29)) <==> IsLeap(y)
  {
  }

  /** Worked cases: a plain date, the leap day in a leap and in a common year,
      an impossible month and day, a day-first spelling, year 0, a trailing
      newline, and the one-digit and space-padded fields strptime also accepts. */
  lemma AcceptedExamples()
    ensures DateShapeOk("1990-05-10") && DateShapeOk("2024-02-29")
    ensures DateShapeOk("2024-1-5") && DateShapeOk("2024-01- 5")
  {
    assert ParseDob("1990-05-10") == Some(Date(1990, 5, 10));
    assert ParseDob("2024-02-29") == Some(Date(2024, 2, 29));
    assert ParseDob("2024-1-5") == Some(Date(2024, 1, 5));
    assert ParseDob("2024-01- 5") == Some(Date(2024, 1, 5));
  }

  lemma RejectedExamples()
    ensures !DateShapeOk("2023-02-29") && !DateShapeOk("2024-13-40")
    ensures !DateShapeOk("13-01-2024") && !DateShapeOk("0000-01-01")
    ensures !DateShapeOk("1990-05-10\n")
  {
  }
}
