/**
 * Age derivation from a Wikidata time value such as `+1970-06-15T00:00:00Z`:
 * the `+YYYY-MM-DDT` prefix is parsed and the whole years elapsed up to
 * "today" are counted. "Today" is a parameter instead of the clock.
 */
module WikidataTime {
  import opened Wrappers

  /** A calendar date. For a parsed birth date the fields are the digit groups as written. */
  datatype Date = Date(year: int, month: int, day: int)

  /** What the clock can report: `getMonth() + 1` in 1..12 and `getDate()` in 1..31. */
  predicate IsClockDate(d: Date) {
    1 <= d.month <= 12 && 1 <= d.day <= 31
  }

  /** `10^n`. */
  function Pow10(n: nat): (r: nat)
    ensures r >= 1
  {
    if n == 0 then 1 else 10 * Pow10(n - 1)
  }

  /** A decimal digit, as `\d` matches it. */
  predicate IsDigit(c: char) {
    '0' <= c <= '9'
  }

  /** Every character of `s` is a decimal digit (`\d+`, or empty). */
  predicate AllDigits(s: string) {
    s == [] || (AllDigits(s[..|s| - 1]) && IsDigit(s[|s| - 1]))
  }

  /** The value of one decimal digit. */
  function DigitValue(c: char): (r: nat)
    requires IsDigit(c)
    ensures r < 10
  {
    (c as int) - ('0' as int)
  }

  /** The decimal digit of a value below ten. */
  function DigitChar(n: nat): (c: char)
    requires n < 10
    ensures IsDigit(c) && DigitValue(c) == n
  {
    ((('0' as int) + n) as char)
  }

  /** The number a string of decimal digits denotes (`Number("0042")` is 42). */
  function DigitsValue(s: string): (r: nat)
    requires AllDigits(s)
    ensures r < Pow10(|s|)
  {
    if s == [] then 0 else DigitsValue(s[..|s| - 1]) * 10 + DigitValue(s[|s| - 1])
  }

  /** The `n`-digit zero-padded decimal rendering of `v`. */
  function Digits(v: nat, n: nat): (s: string)
    requires v < Pow10(n)
    ensures |s| == n && AllDigits(s) && DigitsValue(s) == v
  {
    if n == 0 then "" else
      var s := Digits(v / 10, n - 1) + [DigitChar(v % 10)];
      assert s[..|s| - 1] == Digits(v / 10, n - 1);
      s
  }

  /** `s` matches the regular expression `^\+(\d{4})-(\d{2})-(\d{2})T`. */
  predicate MatchesTimePrefix(s: string) {
    && |s| >= 12
    && s[0] == '+' && AllDigits(s[1..5])
    && s[5] == '-' && AllDigits(s[6..8])
    && s[8] == '-' && AllDigits(s[9..11])
    && s[11] == 'T'
  }

  /** The year, month and day groups of a matching prefix; `None` when it does not match. */
  function ParseTimePrefix(s: string): (r: Option<Date>)
    ensures r.Some? <==> MatchesTimePrefix(s)
    ensures r.Some? ==> 0 <= r.value.year < 10000 && 0 <= r.value.month < 100 && 0 <= r.value.day < 100
  {
    if MatchesTimePrefix(s) then
      Some(Date(DigitsValue(s[1..5]), DigitsValue(s[6..8]), DigitsValue(s[9..11])))
    else None
  }

  /** The prefix `+YYYY-MM-DDT` that denotes `d`. */
  function FormatTimePrefix(d: Date): (s: string)
    requires 0 <= d.year < 10000 && 0 <= d.month < 100 && 0 <= d.day < 100
    ensures |s| == 12
  {
    "+" + Digits(d.year, 4) + "-" + Digits(d.month, 2) + "-" + Digits(d.day, 2) + "T"
  }

  /** Parsing a formatted prefix, whatever follows it, gives the date back. */
  lemma ParseFormat(d: Date, rest: string)
    requires 0 <= d.year < 10000 && 0 <= d.month < 100 && 0 <= d.day < 100
    ensures ParseTimePrefix(FormatTimePrefix(d) + rest) == Some(d)
  {
    var s := FormatTimePrefix(d) + rest;
    assert s[1..5] == Digits(d.year, 4);
    assert s[6..8] == Digits(d.month, 2);
    assert s[9..11] == Digits(d.day, 2);
  }

  /** A digit string is the padded rendering of its own value. */
  lemma {:induction false} DigitsOfValue(s: string)
    requires AllDigits(s)
    ensures DigitsValue(s) < Pow10(|s|) && Digits(DigitsValue(s), |s|) == s
  {
    if s != [] {
      var init := s[..|s| - 1];
      DigitsOfValue(init);
      var v := DigitsValue(s);
      assert v / 10 == DigitsValue(init) && v % 10 == DigitValue(s[|s| - 1]);
      assert s == init + [s[|s| - 1]];
    }
  }

  /** Whatever parses is exactly the rendering of what it parses to, followed by anything. */
  lemma FormatParse(s: string)
    requires ParseTimePrefix(s).Some?
    ensures s[..12] == FormatTimePrefix(ParseTimePrefix(s).value)
  {
    DigitsOfValue(s[1..5]);
    DigitsOfValue(s[6..8]);
    DigitsOfValue(s[9..11]);
    assert s[..12] == [s[0]] + s[1..5] + [s[5]] + s[6..8] + [s[8]] + s[9..11] + [s[11]];
  }

  /** A time with a minus sign (a year before the common era) never parses. */
  lemma NegativeYearRejected(s: string)
    requires |s| > 0 && s[0] == '-'
    ensures ParseTimePrefix(s) == None
  {
  }

  /** The date `years` years after `birth` (its anniversary), month and day as written. */
  function Anniversary(birth: Date, years: int): Date {
    Date(birth.year + years, birth.month, birth.day)
  }

  /** Calendar order on (year, month, day), compared field by field. */
  predicate OnOrBefore(a: Date, b: Date) {
    a.year < b.year
    || (a.year == b.year && (a.month < b.month || (a.month == b.month && a.day <= b.day)))
  }

  /**
   * Whole years elapsed from the birth date written in `time` to `today`,
   * or `None` when `time` is missing, empty or not of the form `+DDDD-DD-DDT`.
   * The result is the number of anniversaries reached by `today`: the
   * `r`-th falls on or before `today`, the next one after it.
   */
  function ComputeAgeFromWikidataTime(time: Option<string>, today: Date): (r: Option<int>)
    ensures r.Some? <==> time.Some? && MatchesTimePrefix(time.value)
    ensures r.Some? ==>
      var birth := ParseTimePrefix(time.value).value;
      OnOrBefore(Anniversary(birth, r.value), today) && !OnOrBefore(Anniversary(birth, r.value + 1), today)
  {
    if time.None? || time.value == "" then None
    else
      match ParseTimePrefix(time.value)
      case None => None
      case Some(birth) =>
        var age := today.year - birth.year;
        var hadBirthday := today.month > birth.month || (today.month == birth.month && today.day >= birth.day);
        Some(if hadBirthday then age else age - 1)
  }

  /** The anniversary characterisation admits exactly one age. */
  lemma {:induction false} WholeYearsUnique(birth: Date, today: Date, n: int, m: int)
    requires OnOrBefore(Anniversary(birth, n), today) && !OnOrBefore(Anniversary(birth, n + 1), today)
    requires OnOrBefore(Anniversary(birth, m), today) && !OnOrBefore(Anniversary(birth, m + 1), today)
    ensures n == m
  {
    if n < m {
      ReachedBelow(birth, today, m, n + 1);
    } else if m < n {
      ReachedBelow(birth, today, n, m + 1);
    }
  }

  /** Every anniversary before a reached one is reached. */
  lemma ReachedBelow(birth: Date, today: Date, n: int, k: int)
    requires k <= n && OnOrBefore(Anniversary(birth, n), today)
    ensures OnOrBefore(Anniversary(birth, k), today)
  {
  }

  /** A birthday that falls today counts as reached. */
  lemma BirthdayTodayCounts(time: string, today: Date)
    requires ParseTimePrefix(time).Some?
    requires ParseTimePrefix(time).value.month == today.month && ParseTimePrefix(time).value.day == today.day
    ensures ComputeAgeFromWikidataTime(Some(time), today) == Some(today.year - ParseTimePrefix(time).value.year)
  {
  }

  /** The day before the birthday, the age is one less than the difference of the years. */
  lemma DayBeforeBirthday(time: string, today: Date)
    requires ParseTimePrefix(time).Some?
    requires ParseTimePrefix(time).value.month == today.month && ParseTimePrefix(time).value.day == today.day + 1
    ensures ComputeAgeFromWikidataTime(Some(time), today) == Some(today.year - ParseTimePrefix(time).value.year - 1)
  {
  }

  /** A birth month written `00` always counts as already passed. */
  lemma MonthZeroCountsAsPassed(time: string, today: Date)
    requires IsClockDate(today)
    requires ParseTimePrefix(time).Some? && ParseTimePrefix(time).value.month == 0
    ensures ComputeAgeFromWikidataTime(Some(time), today) == Some(today.year - ParseTimePrefix(time).value.year)
  {
  }

  /** A string of digits one digit longer is worth ten times as much plus that digit. */
  lemma DigitsValueSnoc(s: string, c: char)
    requires AllDigits(s) && IsDigit(c)
    ensures AllDigits(s + [c]) && DigitsValue(s + [c]) == DigitsValue(s) * 10 + DigitValue(c)
  {
    assert (s + [c])[..|s|] == s;
  }

  /** The year group of the example below, digit by digit. */
  lemma Year1970()
    ensures AllDigits("1970") && DigitsValue("1970") == 1970
  {
    DigitsValueSnoc("", '1');
    assert "" + ['1'] == "1";
    DigitsValueSnoc("1", '9');
    assert "1" + ['9'] == "19";
    DigitsValueSnoc("19", '7');
    assert "19" + ['7'] == "197";
    DigitsValueSnoc("197", '0');
    assert "197" + ['0'] == "1970";
  }

  /** The month and day groups of the example below. */
  lemma Month06Day15()
    ensures AllDigits("06") && DigitsValue("06") == 6
    ensures AllDigits("15") && DigitsValue("15") == 15
  {
    DigitsValueSnoc("", '0');
    assert "" + ['0'] == "0";
    DigitsValueSnoc("0", '6');
    assert "0" + ['6'] == "06";
    DigitsValueSnoc("", '1');
    assert "" + ['1'] == "1";
    DigitsValueSnoc("1", '5');
    assert "1" + ['5'] == "15";
  }

  /** The time value of a person born on 15 June 1970 parses to that date. */
  lemma ParseBirthExample()
    ensures ParseTimePrefix("+1970-06-15T00:00:00Z") == Some(Date(1970, 6, 15))
  {
    var s := "+1970-06-15T00:00:00Z";
    Year1970();
    Month06Day15();
    assert s[1..5] == "1970" && s[6..8] == "06" && s[9..11] == "15";
    assert MatchesTimePrefix(s);
  }

  /** Born 15 June 1970: 53 on 14 June 2024, 54 on 15 June 2024. */
  lemma BirthdayBoundaryExample()
    ensures ComputeAgeFromWikidataTime(Some("+1970-06-15T00:00:00Z"), Date(2024, 6, 14)) == Some(53)
    ensures ComputeAgeFromWikidataTime(Some("+1970-06-15T00:00:00Z"), Date(2024, 6, 15)) == Some(54)
  {
    ParseBirthExample();
  }
}
