/**
 * The two date/text conversions the tools rely on:
 *  - `ParseStrict` is `datetime.strptime(s, "%Y-%m-%d")`, following the patterns of
 *    CPython's `_strptime`: the year is exactly four digits, the month is `1[0-2]`, `0[1-9]`
 *    or `[1-9]`, the day is the FIRST of `3[01]`, `[12]\d`, `0[1-9]`, `[1-9]`, ` [1-9]` that
 *    matches, the whole string must be consumed, and the fields must make a real date;
 *  - `Format` is `date.strftime("%Y-%m-%d")`, the ISO 8601 calendar date `YYYY-MM-DD`.
 */
module DateText {
  import opened Wrappers
  import opened CivilDate

  predicate IsDigit(c: char) {
    '0' <= c <= '9'
  }

  function DigitValue(c: char): int
    requires IsDigit(c)
  {
    c as int - '0' as int
  }

  function DigitChar(n: int): char
    requires 0 <= n < 10
  {
    ('0' as int + n) as char
  }

  function Pad2(n: int): string
    requires 0 <= n < 100
  {
    [DigitChar(n / 10), DigitChar(n % 10)]
  }

  function Pad4(n: int): string
    requires 0 <= n < 10000
  {
    Pad2(n / 100) + Pad2(n % 100)
  }

  /** Zero-padded `YYYY-MM-DD` text, ten characters with dashes at positions 4 and 7. */
  predicate IsCanonical(s: string) {
    |s| == 10 && s[4] == '-' && s[7] == '-' &&
    forall i :: 0 <= i < 10 && i != 4 && i != 7 ==> IsDigit(s[i])
  }

  function Value2(a: char, b: char): int
    requires IsDigit(a) && IsDigit(b)
  {
    10 * DigitValue(a) + DigitValue(b)
  }

  /** The date a canonical text spells, whether or not it is a real date. */
  function CanonicalFields(s: string): Date
    requires IsCanonical(s)
  {
    Date(1000 * DigitValue(s[0]) + 100 * DigitValue(s[1]) + 10 * DigitValue(s[2]) + DigitValue(s[3]),
         Value2(s[5], s[6]), Value2(s[8], s[9]))
  }

  /** `strftime("%Y-%m-%d")`. */
  function Format(d: Date): (s: string)
    requires ValidDate(d)
    ensures IsCanonical(s)
  {
    Pad4(d.year) + "-" + Pad2(d.month) + "-" + Pad2(d.day)
  }

  // ---------------------------------------------------------------------------------------
  // strptime("%Y-%m-%d")
  // ---------------------------------------------------------------------------------------

  /** The texts `%m` takes for month `m`: zero-padded, or one digit for months below 10. */
  function MonthSpellings(m: int): set<string>
    requires 1 <= m <= 12
  {
    {Pad2(m)} + (if m < 10 then {[DigitChar(m)]} else {})
  }

  /**
   * The texts `%d` takes for day `d` when nothing follows: zero-padded, or for days below 10
   * one digit, or a space and one digit.
   */
  function DaySpellings(d: int): set<string>
    requires 1 <= d <= 31
  {
    {Pad2(d)} + (if d < 10 then {[DigitChar(d)], [' ', DigitChar(d)]} else {})
  }

  /** A matched numeric directive: its value and the number of characters it took. */
  datatype Field = Field(value: int, width: nat)

  /** The `%m` directive followed by the literal `-`: `1[0-2]`, `0[1-9]` or `[1-9]`. */
  function MonthField(t: string): (r: Option<Field>)
    ensures r.Some? ==> 1 <= r.value.value <= 12 && 1 <= r.value.width <= 2
    ensures r.Some? ==> r.value.width < |t| && t[r.value.width] == '-'
    ensures r.Some? ==> t[..r.value.width] in MonthSpellings(r.value.value)
  {
    if |t| >= 3 && t[2] == '-' &&
       ((t[0] == '1' && '0' <= t[1] <= '2') || (t[0] == '0' && '1' <= t[1] <= '9'))
    then
      Pad2Letters(t[0], t[1]); assert t[..2] == [t[0], t[1]]; Some(Field(Value2(t[0], t[1]), 2))
    else if |t| >= 2 && t[1] == '-' && '1' <= t[0] <= '9'
    then
      DigitLetter(t[0]); assert t[..1] == [t[0]]; Some(Field(DigitValue(t[0]), 1))
    else None
  }

  /** The `%d` directive: the first of `3[01]`, `[12]\d`, `0[1-9]`, `[1-9]`, ` [1-9]` that matches. */
  function DayField(t: string): (r: Option<Field>)
    ensures r.Some? ==> 1 <= r.value.value <= 31 && 1 <= r.value.width <= 2 && r.value.width <= |t|
    ensures r.Some? ==> t[..r.value.width] in DaySpellings(r.value.value)
  {
    if |t| >= 2 && t[0] == '3' && '0' <= t[1] <= '1' then
      Pad2Letters(t[0], t[1]); assert t[..2] == [t[0], t[1]]; Some(Field(Value2(t[0], t[1]), 2))
    else if |t| >= 2 && '1' <= t[0] <= '2' && IsDigit(t[1]) then
      Pad2Letters(t[0], t[1]); assert t[..2] == [t[0], t[1]]; Some(Field(Value2(t[0], t[1]), 2))
    else if |t| >= 2 && t[0] == '0' && '1' <= t[1] <= '9' then
      Pad2Letters(t[0], t[1]); assert t[..2] == [t[0], t[1]]; Some(Field(DigitValue(t[1]), 2))
    else if |t| >= 1 && '1' <= t[0] <= '9' then
      DigitLetter(t[0]); assert t[..1] == [t[0]]; Some(Field(DigitValue(t[0]), 1))
    else if |t| >= 2 && t[0] == ' ' && '1' <= t[1] <= '9' then
      DigitLetter(t[1]); assert t[..2] == [' ', t[1]]; Some(Field(DigitValue(t[1]), 2))
    else None
  }

  /** `datetime(y, m, d)`: rejects year 0 and a day past the end of its month. */
  function MakeDate(y: int, m: int, d: int): (r: Option<Date>)
    requires 1 <= m <= 12
    ensures r.Some? <==> ValidDate(Date(y, m, d))
    ensures r.Some? ==> r.value == Date(y, m, d)
  {
    if MinYear <= y <= MaxYear && 1 <= d <= DaysInMonth(y, m) then Some(Date(y, m, d)) else None
  }

  /** `strptime(s, "%Y-%m-%d")`; `None` stands for the `ValueError` it raises. */
  function ParseStrict(s: string): (r: Option<Date>)
    ensures r.Some? ==> ValidDate(r.value)
  {
    if |s| < 5 || !(IsDigit(s[0]) && IsDigit(s[1]) && IsDigit(s[2]) && IsDigit(s[3])) || s[4] != '-' then None
    else
      var year := 1000 * DigitValue(s[0]) + 100 * DigitValue(s[1]) + 10 * DigitValue(s[2]) + DigitValue(s[3]);
      match MonthField(s[5..])
      case None => None
      case Some(m) =>
        var dayStart := 6 + m.width;
        match DayField(s[dayStart..])
        case None => None
        case Some(d) =>
          if dayStart + d.width != |s| then None   // unconverted data remains
          else MakeDate(year, m.value, d.value)
  }

  // ---------------------------------------------------------------------------------------
  // Round trips
  // ---------------------------------------------------------------------------------------

  lemma DigitRoundTrip(n: int)
    requires 0 <= n < 10
    ensures IsDigit(DigitChar(n)) && DigitValue(DigitChar(n)) == n
  {
  }

  lemma Pad2Digits(n: int)
    requires 0 <= n < 100
    ensures IsDigit(Pad2(n)[0]) && IsDigit(Pad2(n)[1])
    ensures Value2(Pad2(n)[0], Pad2(n)[1]) == n
  {
    DigitRoundTrip(n / 10);
    DigitRoundTrip(n % 10);
  }

  lemma Pad4Digits(n: int)
    requires 0 <= n < 10000
    ensures forall i :: 0 <= i < 4 ==> IsDigit(Pad4(n)[i])
    ensures 1000 * DigitValue(Pad4(n)[0]) + 100 * DigitValue(Pad4(n)[1])
          + 10 * DigitValue(Pad4(n)[2]) + DigitValue(Pad4(n)[3]) == n
  {
    Pad2Digits(n / 100);
    Pad2Digits(n % 100);
  }

  /** Parsing the formatted text of any representable date gives the date back. */
  lemma {:induction false} ParseFormat(d: Date)
    requires ValidDate(d)
    ensures ParseStrict(Format(d)) == Some(d)
  {
    var s := Format(d);
    Pad4Digits(d.year);
    Pad2Digits(d.month);
    Pad2Digits(d.day);
    assert s[..4] == Pad4(d.year);
    assert s[5..] == Pad2(d.month) + "-" + Pad2(d.day);
    assert s[8..] == Pad2(d.day);
    assert MonthField(s[5..]) == Some(Field(d.month, 2));
    assert DayField(s[8..]) == Some(Field(d.day, 2));
  }

  /** Formatting the date parsed from a canonical text gives that text back. */
  lemma {:induction false} FormatParse(s: string)
    requires IsCanonical(s) && ParseStrict(s).Some?
    ensures Format(ParseStrict(s).value) == s
  {
    CanonicalAccepted(s);
    var d := CanonicalFields(s);
    Pad4Letters(s[0], s[1], s[2], s[3]);
    assert Pad4(d.year) == s[..4];
    Pad2Letters(s[5], s[6]);
    assert Pad2(d.month) == s[5..7];
    Pad2Letters(s[8], s[9]);
    assert Pad2(d.day) == s[8..];
    assert s == s[..4] + "-" + s[5..7] + "-" + s[8..];
  }

  lemma DigitLetter(c: char)
    requires IsDigit(c)
    ensures DigitChar(DigitValue(c)) == c
  {
  }

  lemma Pad2Letters(a: char, b: char)
    requires IsDigit(a) && IsDigit(b)
    ensures Pad2(Value2(a, b)) == [a, b]
  {
  }

  lemma Pad4Letters(a: char, b: char, c: char, e: char)
    requires IsDigit(a) && IsDigit(b) && IsDigit(c) && IsDigit(e)
    ensures Pad4(1000 * DigitValue(a) + 100 * DigitValue(b) + 10 * DigitValue(c) + DigitValue(e)) == [a, b, c, e]
  {
    var high, low := Value2(a, b), Value2(c, e);
    var n := 100 * high + low;
    assert n / 100 == high && n % 100 == low;
    Pad2Letters(a, b);
    Pad2Letters(c, e);
  }

  /** The canonical text of a real date is accepted, and of nothing else. */
  lemma {:induction false} CanonicalAccepted(s: string)
    requires IsCanonical(s)
    ensures ParseStrict(s).Some? <==> ValidDate(CanonicalFields(s))
    ensures ParseStrict(s).Some? ==> ParseStrict(s).value == CanonicalFields(s)
  {
    var d := CanonicalFields(s);
    assert s[8..] == [s[8], s[9]];
    if ValidDate(d) {
      assert MonthField(s[5..]) == Some(Field(d.month, 2));
      assert DayField(s[8..]) == Some(Field(d.day, 2));
    }
  }

  /** A month spelling followed by a dash is always matched, with its value and width. */
  lemma MonthFieldAccepts(m: int, spelling: string, rest: string)
    requires 1 <= m <= 12 && spelling in MonthSpellings(m)
    ensures MonthField(spelling + "-" + rest) == Some(Field(m, |spelling|))
  {
    DigitRoundTrip(m / 10);
    DigitRoundTrip(m % 10);
  }

  /**
   * A day spelling always starts a match; on its own it is matched whole, with its value.
   * (With more text after it the first matching pattern may take a different prefix.)
   */
  lemma DayFieldAccepts(d: int, spelling: string, rest: string)
    requires 1 <= d <= 31 && spelling in DaySpellings(d)
    ensures DayField(spelling + rest).Some?
    ensures DayField(spelling) == Some(Field(d, |spelling|))
  {
    DigitRoundTrip(d / 10);
    DigitRoundTrip(d % 10);
    assert (spelling + rest)[0] == spelling[0];
    assert |spelling| == 2 ==> (spelling + rest)[1] == spelling[1];
  }

  /**
   * Whatever text `strptime` accepts spells the date it returns: four year digits, a dash, a
   * spelling of the month, a dash and a spelling of the day, and nothing more.
   */
  lemma {:induction false} ParsedTextSpellsDate(s: string)
    requires ParseStrict(s).Some?
    ensures var d := ParseStrict(s).value;
            var w := if |s| > 6 && s[6] == '-' then 1 else 2;
            |s| >= 7 + w && s[..4] == Pad4(d.year) && s[4] == '-' &&
            s[5..5 + w] in MonthSpellings(d.month) && s[5 + w] == '-' &&
            s[6 + w..] in DaySpellings(d.day)
  {
    var d := ParseStrict(s).value;
    Pad4Letters(s[0], s[1], s[2], s[3]);
    var m := MonthField(s[5..]).value;
    assert s[5..][..m.width] == s[5..5 + m.width];
    var day := DayField(s[6 + m.width..]).value;
    assert s[6 + m.width..][..day.width] == s[6 + m.width..];
  }

  /** Every spelling of every representable date is accepted, and gives that date. */
  lemma {:induction false} SpelledDateParses(d: Date, month: string, day: string)
    requires ValidDate(d) && month in MonthSpellings(d.month) && day in DaySpellings(d.day)
    ensures ParseStrict(Pad4(d.year) + "-" + month + "-" + day) == Some(d)
  {
    var s := Pad4(d.year) + "-" + month + "-" + day;
    Pad4Digits(d.year);
    assert s[5..] == month + "-" + day;
    MonthFieldAccepts(d.month, month, day);
    assert s[6 + |month|..] == day;
    DayFieldAccepts(d.day, day, "");
  }

  /** What `strptime` lets through besides the canonical form. */
  lemma LenientInputsAccepted()
    ensures ParseStrict("2025-5-1") == Some(Date(2025, 5, 1))
    ensures ParseStrict("2025-05- 1") == Some(Date(2025, 5, 1))
    ensures ParseStrict("2024-02-29") == Some(Date(2024, 2, 29))
  {
  }

  /** Dates that do not exist are refused. */
  lemma NonexistentDatesRefused()
    ensures ParseStrict("2023-02-29") == None
    ensures ParseStrict("2025-04-31") == None
    ensures ParseStrict("0000-01-01") == None
  {
  }

  /** Texts of the wrong shape are refused: month 13, trailing characters, a two-digit year. */
  lemma MalformedInputsRefused()
    ensures ParseStrict("2025-13-01") == None
    ensures ParseStrict("2025-01-123") == None
    ensures ParseStrict("25-01-01") == None
  {
  }
}
