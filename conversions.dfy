/**
 * The command-line value types of `util.py`, identical in behaviour across
 * the three generations: durations (`parse_duration`), dates
 * (`DateParamType.convert`) and time intervals
 * (`TimeIntervalParamType.convert`). A date is a UTC time in integer
 * seconds; the current time is a parameter.
 */
module Conversions {
  import opened Common
  import opened Dates

  predicate IsUnit(c: char) {
    c == 'd' || c == 'w' || c == 'm' || c == 'y'
  }

  /** `_durations`: days per unit, a month being 30 days and a year 365. */
  function UnitDays(f: char): (days: nat)
    requires IsUnit(f)
    ensures days >= 1
  {
    match f
    case 'd' => 1
    case 'w' => 7
    case 'm' => 30
    case 'y' => 365
  }

  /**
   * The match of `^([0-9]+)([dwmy])?$`: the count and the unit, `d` when
   * the unit is absent. Python's `$` also matches just before a final
   * newline.
   */
  function ParseDuration(value: string): (r: Option<(nat, char)>)
    ensures r.Some? ==> IsUnit(r.value.1)
  {
    var k := LeadingDigits(value);
    if k == 0 then None
    else
      var n := DecimalValue(value[..k]);
      var rest := value[k..];
      if rest == [] || rest == "\n" then Some((n, 'd'))
      else if IsUnit(rest[0]) && (rest[1..] == [] || rest[1..] == "\n") then Some((n, rest[0]))
      else None
  }

  /** `timedelta(days=days)` in seconds: OverflowError beyond `timedelta.max`. */
  function Timedelta(days: nat): (r: Result<int>)
    ensures r.Ok? <==> days <= MaxDays
    ensures r.Ok? ==> r.value == days * Day
  {
    if days > MaxDays then Err(OverflowError) else Ok(days * Day)
  }

  /** `parse_duration(value)`: a `timedelta` in seconds, None when the text does not match. */
  function DurationDelta(value: string): Result<Option<int>> {
    match ParseDuration(value)
    case None => Ok(None)
    case Some((n, f)) =>
      var seconds :- Timedelta(n * UnitDays(f));
      Ok(Some(seconds))
  }

  /**
   * A `relativedelta` of years, months and days as it normalises itself:
   * weeks become days and twelve months a year.
   */
  datatype RelDelta = RelDelta(years: int, months: int, days: int)

  /** `relativedelta(**{_periods[f]: n})`. */
  function Relative(n: nat, f: char): (d: RelDelta)
    requires IsUnit(f)
    ensures 0 <= d.months < 12
  {
    match f
    case 'd' => RelDelta(0, 0, n)
    case 'w' => RelDelta(0, 0, 7 * n)
    case 'm' => RelDelta(n / 12, n % 12, 0)
    case 'y' => RelDelta(n, 0, 0)
  }

  /** `parse_duration(value, relative=True)`. */
  function DurationRelative(value: string): Option<RelDelta> {
    match ParseDuration(value)
    case None => None
    case Some((n, f)) => Some(Relative(n, f))
  }

  /** A relative duration is `n` calendar units: days (a week being seven), or months (a year being twelve). */
  lemma RelativeUnits(n: nat, f: char)
    requires IsUnit(f)
    ensures f == 'd' || f == 'w' ==> Relative(n, f) == RelDelta(0, 0, n * UnitDays(f))
    ensures f == 'm' ==> Relative(n, f).days == 0 && 12 * Relative(n, f).years + Relative(n, f).months == n
    ensures f == 'y' ==> Relative(n, f).days == 0 && 12 * Relative(n, f).years + Relative(n, f).months == 12 * n
  {
  }

  // ---------------------------------------------------------------------
  // What the duration syntax accepts
  // ---------------------------------------------------------------------

  /** A count followed by a unit, or by nothing, optionally with a final newline, reads back as that count and unit. */
  lemma DurationRoundTrip(ds: string, u: char)
    requires ds != [] && AllDigits(ds) && IsUnit(u)
    ensures ParseDuration(ds + [u]) == Some((DecimalValue(ds), u))
    ensures ParseDuration(ds + [u] + "\n") == Some((DecimalValue(ds), u))
    ensures ParseDuration(ds) == Some((DecimalValue(ds), 'd'))
    ensures ParseDuration(ds + "\n") == Some((DecimalValue(ds), 'd'))
  {
    LeadingDigitsOfDigitsThen(ds, []);
    assert ds + [] == ds;
    LeadingDigitsOfDigitsThen(ds, [u]);
    assert (ds + [u])[..|ds|] == ds && (ds + [u])[|ds|..] == [u];
    LeadingDigitsOfDigitsThen(ds, [u] + "\n");
    assert ds + [u] + "\n" == ds + ([u] + "\n");
    assert (ds + [u] + "\n")[..|ds|] == ds && (ds + [u] + "\n")[|ds|..] == [u] + "\n";
    assert ([u] + "\n")[1..] == "\n";
    LeadingDigitsOfDigitsThen(ds, "\n");
    assert (ds + "\n")[..|ds|] == ds && (ds + "\n")[|ds|..] == "\n";
  }

  /**
   * What the duration syntax refuses: text that does not start with a
   * digit, a character after the count that is neither a unit nor a final
   * newline (so `s` is not a unit here), and anything after the unit but a
   * final newline.
   */
  lemma DurationRejects(ds: string, c: char, rest: string)
    requires ds != [] && AllDigits(ds)
    ensures !IsDigit(c) && !IsUnit(c) && !(c == '\n' && rest == []) ==> ParseDuration(ds + [c] + rest) == None
    ensures IsUnit(c) && rest != [] && rest != "\n" ==> ParseDuration(ds + [c] + rest) == None
    ensures !IsDigit(c) ==> ParseDuration([c] + rest) == None
  {
    var v := ds + [c] + rest;
    assert v == ds + ([c] + rest);
    if !IsDigit(c) {
      LeadingDigitsOfDigitsThen(ds, [c] + rest);
      assert v[..|ds|] == ds && v[|ds|..] == [c] + rest;
      assert ([c] + rest)[1..] == rest;
    }
    if IsUnit(c) {
      assert !IsDigit(c);
    }
  }

  /**
   * Reading a duration back: an accepted text is its leading digits,
   * whose value is the count, then the unit (or nothing for days), then
   * possibly a final newline.
   */
  lemma DurationInverse(value: string)
    requires ParseDuration(value).Some?
    ensures var (n, f) := ParseDuration(value).value;
      var k := LeadingDigits(value);
      k > 0 && DecimalValue(value[..k]) == n &&
      ((f == 'd' && (value[k..] == [] || value[k..] == "\n")) ||
       value[k..] == [f] || value[k..] == [f] + "\n")
  {
    var k := LeadingDigits(value);
    var rest := value[k..];
    if rest != [] && rest != "\n" {
      assert rest == [rest[0]] + rest[1..];
    }
  }

  // ---------------------------------------------------------------------
  // Dates
  // ---------------------------------------------------------------------

  /** What `strptime` accepts for `%Y`: exactly four digits. */
  predicate YearField(s: string) {
    |s| == 4 && AllDigits(s)
  }

  /** What `strptime` accepts for `%m`: `1[0-2]|0[1-9]|[1-9]`. */
  predicate MonthField(s: string) {
    (|s| == 1 && '1' <= s[0] <= '9') ||
    (|s| == 2 && ((s[0] == '0' && '1' <= s[1] <= '9') || (s[0] == '1' && '0' <= s[1] <= '2')))
  }

  /** What `strptime` accepts for `%d`: `3[01]|[12]\d|0[1-9]|[1-9]| [1-9]`. */
  predicate DayField(s: string) {
    (|s| == 1 && '1' <= s[0] <= '9') ||
    (|s| == 2 && ((s[0] == '3' && (s[1] == '0' || s[1] == '1')) ||
                  ((s[0] == '1' || s[0] == '2') && IsDigit(s[1])) ||
                  ((s[0] == '0' || s[0] == ' ') && '1' <= s[1] <= '9')))
  }

  function DayValue(s: string): nat
    requires DayField(s)
  {
    if s[0] == ' ' then DigitValue(s[1]) else DecimalValue(s)
  }

  /**
   * `datetime.strptime(value, fmt).replace(tzinfo=utc)` for `%Y-%m-%d`,
   * then `%Y-%m`: the whole text must match one of the formats and name a
   * day that exists.
   */
  function ParseDate(value: string): Option<int> {
    var parts := SplitOn(value, "-");
    if |parts| == 3 && YearField(parts[0]) && MonthField(parts[1]) && DayField(parts[2]) &&
       ValidDate(DecimalValue(parts[0]), DecimalValue(parts[1]), DayValue(parts[2])) then
      Some(Timestamp(DecimalValue(parts[0]), DecimalValue(parts[1]), DayValue(parts[2])))
    else if |parts| == 2 && YearField(parts[0]) && MonthField(parts[1]) &&
       ValidDate(DecimalValue(parts[0]), DecimalValue(parts[1]), 1) then
      Some(Timestamp(DecimalValue(parts[0]), DecimalValue(parts[1]), 1))
    else None
  }

  /** A date parameter: already a `datetime`, or text from the command line. */
  datatype DateValue = AsDate(time: int) | AsText(text: string)

  /**
   * `DateParamType.convert(value)` at time `now`: `now` and `origin`
   * (any case), then a duration before `now`, then a date; anything else
   * is refused. A duration reaching before year 1 overflows.
   */
  function ConvertDate(value: DateValue, now: int): Result<int> {
    match value
    case AsDate(t) => Ok(t)
    case AsText(s) =>
      if Lower(s) == "now" then Ok(now)
      else if Lower(s) == "origin" then Ok(MinTime)
      else
        var delta :- DurationDelta(s);
        if delta.Some? then
          if now - delta.value < MinTime then Err(OverflowError) else Ok(now - delta.value)
        else if ParseDate(s).Some? then Ok(ParseDate(s).value)
        else Err(BadParameter)
  }

  /** A text that starts with a digit is neither keyword. */
  lemma DigitIsNoDateKeyword(s: string)
    requires s != [] && IsDigit(s[0])
    ensures Lower(s) != "now" && Lower(s) != "origin"
  {
    assert Lower(s)[0] == s[0];
    assert "now"[0] == 'n' && "origin"[0] == 'o';
  }

  /** The keywords, in any case, and a value that already is a date. */
  lemma ConvertDateKeywords(s: string, now: int, t: int)
    ensures Lower(s) == "now" ==> ConvertDate(AsText(s), now) == Ok(now)
    ensures Lower(s) == "origin" ==> ConvertDate(AsText(s), now) == Ok(MinTime)
    ensures ConvertDate(AsText("NOW"), now) == Ok(now) && ConvertDate(AsText("Origin"), now) == Ok(MinTime)
    ensures ConvertDate(AsDate(t), now) == Ok(t)
  {
    assert Lower("NOW") == "now";
    assert Lower("Origin") == "origin";
  }

  /**
   * A text the duration syntax accepts is that many days, weeks (7),
   * months (30) or years (365) before `now`; a count beyond what a
   * `timedelta` holds, or one reaching before year 1, overflows.
   */
  lemma ConvertDateDuration(s: string, now: int)
    requires ParseDuration(s).Some?
    ensures var days := ParseDuration(s).value.0 * UnitDays(ParseDuration(s).value.1);
      ConvertDate(AsText(s), now) ==
        if days > MaxDays || now - days * Day < MinTime then Err(OverflowError) else Ok(now - days * Day)
  {
    var k := LeadingDigits(s);
    assert IsDigit(s[..k][0]);
    DigitIsNoDateKeyword(s);
  }

  /** Splitting at the first separator of a text whose head holds none. */
  lemma SplitAfter(a: string, rest: string)
    requires '-' !in a
    ensures SplitOn(a + "-" + rest, "-") == [a] + SplitOn(rest, "-")
    ensures SplitOn(a, "-") == [a]
  {
    var s := a + "-" + rest;
    assert OccursAt(s, "-", |a|) by { assert s[|a|..|a| + 1] == "-"; }
    forall j | 0 <= j < |a| ensures !OccursAt(s, "-", j) {
      assert s[j] == a[j];
    }
    FirstOccurrence(s, |a|);
    assert s[..|a|] == a && s[|a| + 1..] == rest;
    forall j: nat ensures !OccursAt(a, "-", j) {
      if j < |a| { assert a[j] != '-'; }
    }
    assert FindFrom(a, "-", 0).None?;
  }

  /** The first index at which a one-character separator occurs is what `FindFrom` finds. */
  lemma FirstOccurrence(s: string, i: nat)
    requires OccursAt(s, "-", i)
    requires forall j :: 0 <= j < i ==> !OccursAt(s, "-", j)
    ensures FindFrom(s, "-", 0) == Some(i)
  {
    var r := FindFrom(s, "-", 0);
    assert r.Some? by { assert !(forall j :: 0 <= j ==> !OccursAt(s, "-", j)); }
    assert !(r.value < i);
    assert !(i < r.value);
  }

  /** Text that starts with a digit and is no duration is read as a date, or refused. */
  lemma ConvertDateFallsToDate(s: string, now: int)
    requires s != [] && IsDigit(s[0]) && ParseDuration(s).None?
    ensures ConvertDate(AsText(s), now) == if ParseDate(s).Some? then Ok(ParseDate(s).value) else Err(BadParameter)
  {
    DigitIsNoDateKeyword(s);
  }

  /** Four digits then a dash is no duration. */
  lemma NotDuration(ys: string, rest: string)
    requires |ys| == 4 && AllDigits(ys) && rest != [] && rest[0] == '-'
    ensures ParseDuration(ys + rest).None?
  {
    LeadingDigitsOfDigitsThen(ys, rest);
    assert (ys + rest)[4..] == rest;
  }

  /** Digits hold no separator. */
  lemma NoDash(ds: string)
    requires AllDigits(ds)
    ensures '-' !in ds
  {
    assert forall i :: 0 <= i < |ds| ==> ds[i] != '-';
  }

  /** The value of two digits. */
  lemma TwoDigitValue(s: string)
    requires |s| == 2 && AllDigits(s)
    ensures DecimalValue(s) == 10 * DigitValue(s[0]) + DigitValue(s[1])
  {
    assert s[..1][..0] == [] && s[..1][0] == s[0];
    assert DecimalValue(s[..1]) == DigitValue(s[0]);
  }

  /** `%m` and `%d` accept two digits spelling a month, or a day of the month. */
  lemma TwoDigitFields(ms: string, dd: string)
    requires |ms| == 2 && AllDigits(ms) && 1 <= DecimalValue(ms) <= 12
    requires |dd| == 2 && AllDigits(dd) && 1 <= DecimalValue(dd) <= 31
    ensures MonthField(ms) && DayField(dd) && DayValue(dd) == DecimalValue(dd)
  {
    TwoDigitValue(ms);
    TwoDigitValue(dd);
  }

  /** The pieces of `YYYY-MM-DD` and `YYYY-MM`. */
  lemma SplitDate(ys: string, ms: string, dd: string)
    requires AllDigits(ys) && AllDigits(ms) && AllDigits(dd)
    ensures SplitOn(ys + "-" + ms + "-" + dd, "-") == [ys, ms, dd]
    ensures SplitOn(ys + "-" + ms, "-") == [ys, ms]
  {
    NoDash(ys);
    NoDash(ms);
    NoDash(dd);
    assert ys + "-" + ms + "-" + dd == ys + "-" + (ms + "-" + dd);
    SplitAfter(ys, ms + "-" + dd);
    SplitAfter(ms, dd);
    SplitAfter(dd, []);
    SplitAfter(ys, ms);
  }

  /** `YYYY-MM-DD` with fields `strptime` accepts reads as that day when it exists. */
  lemma ParseDateFields(ys: string, ms: string, dd: string, y: int, m: int, d: int)
    requires YearField(ys) && MonthField(ms) && DayField(dd) && AllDigits(ms) && AllDigits(dd)
    requires DecimalValue(ys) == y && DecimalValue(ms) == m && DayValue(dd) == d
    ensures ParseDate(ys + "-" + ms + "-" + dd) == if ValidDate(y, m, d) then Some(Timestamp(y, m, d)) else None
  {
    SplitDate(ys, ms, dd);
  }

  /** `YYYY-MM` with fields `strptime` accepts reads as the first of that month when it exists. */
  lemma ParseMonthFields(ys: string, ms: string, y: int, m: int)
    requires YearField(ys) && MonthField(ms) && AllDigits(ms)
    requires DecimalValue(ys) == y && DecimalValue(ms) == m
    ensures ParseDate(ys + "-" + ms) == if ValidDate(y, m, 1) then Some(Timestamp(y, m, 1)) else None
  {
    SplitDate(ys, ms, "");
  }

  /**
   * The date forms: `YYYY-MM-DD` and `YYYY-MM`, with two-digit month and
   * day, read as that day (the first of the month) at midnight UTC.
   */
  lemma ConvertDateText(ys: string, ms: string, dd: string, now: int)
    requires YearField(ys) && |ms| == 2 && AllDigits(ms) && |dd| == 2 && AllDigits(dd)
    requires ValidDate(DecimalValue(ys), DecimalValue(ms), DecimalValue(dd))
    ensures var y, m, d := DecimalValue(ys), DecimalValue(ms), DecimalValue(dd);
      ConvertDate(AsText(ys + "-" + ms + "-" + dd), now) == Ok(Timestamp(y, m, d)) &&
      ConvertDate(AsText(ys + "-" + ms), now) == Ok(Timestamp(y, m, 1))
  {
    var y, m, d := DecimalValue(ys), DecimalValue(ms), DecimalValue(dd);
    TwoDigitFields(ms, dd);
    ParseDateFields(ys, ms, dd, y, m, d);
    ConvertDateOfFields(ys + "-" + ms + "-" + dd, now);
    ParseMonthFields(ys, ms, y, m);
    ConvertDateOfFields(ys + "-" + ms, now);
  }

  /** A year field then a dash is read as a date or refused. */
  lemma ConvertDateOfFields(s: string, now: int)
    requires |s| > 4 && YearField(s[..4]) && s[4] == '-'
    ensures ConvertDate(AsText(s), now) == if ParseDate(s).Some? then Ok(ParseDate(s).value) else Err(BadParameter)
  {
    NotDuration(s[..4], s[4..]);
    assert s[..4] + s[4..] == s;
    ConvertDateFallsToDate(s, now);
  }


  /** Date fields naming no real day (the 30th of February, year 0) are refused. */
  lemma ConvertDateInvalid(ys: string, ms: string, dd: string, now: int)
    requires YearField(ys) && |ms| == 2 && AllDigits(ms) && |dd| == 2 && AllDigits(dd)
    requires 1 <= DecimalValue(ms) <= 12 && 1 <= DecimalValue(dd) <= 31
    requires !ValidDate(DecimalValue(ys), DecimalValue(ms), DecimalValue(dd))
    ensures ConvertDate(AsText(ys + "-" + ms + "-" + dd), now) == Err(BadParameter)
  {
    var y, m, d := DecimalValue(ys), DecimalValue(ms), DecimalValue(dd);
    TwoDigitFields(ms, dd);
    ParseDateFields(ys, ms, dd, y, m, d);
    ConvertDateOfFields(ys + "-" + ms + "-" + dd, now);
  }

  // ---------------------------------------------------------------------
  // Intervals
  // ---------------------------------------------------------------------

  /** An interval parameter: already a `relativedelta`, or text from the command line. */
  datatype IntervalValue = AsInterval(delta: RelDelta) | AsIntervalText(text: string)

  /**
   * `TimeIntervalParamType.convert(value)`: the text, lower-cased, is a
   * keyword or a relative duration; anything else is refused.
   */
  function ConvertInterval(value: IntervalValue): Result<RelDelta> {
    match value
    case AsInterval(d) => Ok(d)
    case AsIntervalText(s) => IntervalOfLowered(Lower(s))
  }

  /** The reading of an already lower-cased interval text. */
  function IntervalOfLowered(v: string): Result<RelDelta> {
    if v == "weekly" then Ok(RelDelta(0, 0, 7))
    else if v == "monthly" then Ok(RelDelta(0, 1, 0))
    else if v == "quarterly" then Ok(RelDelta(0, 3, 0))
    else if v == "yearly" then Ok(RelDelta(1, 0, 0))
    else if DurationRelative(v).Some? then Ok(DurationRelative(v).value)
    else Err(BadParameter)
  }

  /**
   * Each keyword, in any case, is the interval of its numeric spelling:
   * `weekly` is `1w`, `monthly` is `1m`, `quarterly` is `3m` and `yearly`
   * is `1y`.
   */
  lemma IntervalKeywords(s: string, d: RelDelta)
    ensures Lower(s) == "weekly" ==> ConvertInterval(AsIntervalText(s)) == ConvertInterval(AsIntervalText("1w")) == Ok(RelDelta(0, 0, 7))
    ensures Lower(s) == "monthly" ==> ConvertInterval(AsIntervalText(s)) == ConvertInterval(AsIntervalText("1m")) == Ok(RelDelta(0, 1, 0))
    ensures Lower(s) == "quarterly" ==> ConvertInterval(AsIntervalText(s)) == ConvertInterval(AsIntervalText("3m")) == Ok(RelDelta(0, 3, 0))
    ensures Lower(s) == "yearly" ==> ConvertInterval(AsIntervalText(s)) == ConvertInterval(AsIntervalText("1y")) == Ok(RelDelta(1, 0, 0))
    ensures ConvertInterval(AsInterval(d)) == Ok(d)
  {
    OneDigitInterval('1', 'w');
    OneDigitInterval('1', 'm');
    OneDigitInterval('3', 'm');
    OneDigitInterval('1', 'y');
  }

  /** A single digit and a unit. */
  lemma OneDigitInterval(c: char, u: char)
    requires IsDigit(c) && IsUnit(u)
    ensures ConvertInterval(AsIntervalText([c, u])) == Ok(Relative(DigitValue(c), u))
  {
    assert DecimalValue([c]) == DigitValue(c) by { assert [c][..0] == []; }
    assert [c] + [u] == [c, u];
    IntervalDuration([c], u);
  }

  /** A count and unit, in any case, is that relative duration; an upper-case unit is refused as a date but not as an interval. */
  lemma IntervalDuration(ds: string, u: char)
    requires ds != [] && AllDigits(ds) && IsUnit(u)
    ensures ConvertInterval(AsIntervalText(ds + [u])) == Ok(Relative(DecimalValue(ds), u))
    ensures ConvertInterval(AsIntervalText(ds)) == Ok(Relative(DecimalValue(ds), 'd'))
    ensures ConvertInterval(AsIntervalText(ds + "D")) == Ok(Relative(DecimalValue(ds), 'd'))
  {
    LowerKeepsDigits(ds);
    assert Lower(ds + [u]) == ds + [u];
    assert Lower(ds + "D") == ds + "d";
    DurationRoundTrip(ds, u);
    DurationRoundTrip(ds, 'd');
    DigitIsNoIntervalKeyword(ds + [u]);
    DigitIsNoIntervalKeyword(ds);
    DigitIsNoIntervalKeyword(ds + "d");
  }

  lemma DigitIsNoIntervalKeyword(v: string)
    requires v != [] && IsDigit(v[0])
    ensures v != "weekly" && v != "monthly" && v != "quarterly" && v != "yearly"
  {
    assert "weekly"[0] == 'w' && "monthly"[0] == 'm' && "quarterly"[0] == 'q' && "yearly"[0] == 'y';
  }

  /** An upper-case unit makes a date text fail, since dates are matched before lower-casing. */
  lemma UpperUnitIsNoDate(ds: string, now: int)
    requires ds != [] && AllDigits(ds)
    ensures ConvertDate(AsText(ds + "D"), now) == Err(BadParameter)
  {
    var s := ds + "D";
    DurationRejects(ds, 'D', []);
    assert s == ds + ['D'] + [];
    DigitIsNoDateKeyword(s);
    var parts := SplitOn(s, "-");
    assert '-' !in s by {
      assert forall i :: 0 <= i < |ds| ==> IsDigit(s[i]);
      assert s[|ds|] == 'D';
    }
    SplitAfter(s, []);
  }
}
