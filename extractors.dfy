/** Validation of what the user types during a paid flow: the birth date
    `DD.MM.YYYY`, the birth time (strict `HH:MM`, or the lenient all-in-one
    form with optional separator, minutes and am/pm suffix), the city, the
    four-line "natal PRO" message, the `DD.MM.YYYY Name` numerology message,
    and the palm-reading context with its dominant-hand guess. */
module Extractors {
  import opened Text

  // ------------------------------------------------------------------
  // Dates

  predicate IsLeap(y: int) {
    y % 4 == 0 && (y % 100 != 0 || y % 400 == 0)
  }

  function DaysInMonth(y: int, m: int): (r: int)
    requires 1 <= m <= 12
    ensures 28 <= r <= 31
    ensures r == 29 <==> m == 2 && IsLeap(y)
  {
    if m == 2 then (if IsLeap(y) then 29 else 28)
    else if m == 4 || m == 6 || m == 9 || m == 11 then 30
    else 31
  }

  /** A day, month and year that `datetime` accepts (years from 1). */
  predicate ValidDate(d: int, m: int, y: int) {
    1 <= m <= 12 && 1 <= d <= DaysInMonth(y, m) && y >= 1
  }

  predicate DigitsOnly(s: string) {
    forall i :: 0 <= i < |s| ==> IsAsciiDigit(s[i])
  }

  /** The decimal value of a string of digits. */
  function DigitsValue(s: string): (v: nat)
    requires DigitsOnly(s)
  {
    if s == [] then 0 else DigitsValue(s[..|s| - 1]) * 10 + DigitValue(s[|s| - 1])
  }

  /** `re.fullmatch(r"\d{2}\.\d{2}\.\d{4}", s)` */
  predicate DateShape(s: string) {
    |s| == 10 && s[2] == '.' && s[5] == '.' && DigitsOnly(s[..2]) && DigitsOnly(s[3..5]) && DigitsOnly(s[6..])
  }

  function DayOf(s: string): nat requires DateShape(s) { DigitsValue(s[..2]) }
  function MonthOf(s: string): nat requires DateShape(s) { DigitsValue(s[3..5]) }
  function YearOf(s: string): nat requires DateShape(s) { DigitsValue(s[6..]) }

  datatype DateCheck = DateOk | BadDateShape | BadCalendarDate

  /** The two checks every date entry goes through: the shape regex, then
      `datetime.strptime(s, "%d.%m.%Y")`. */
  function CheckDate(s: string): (r: DateCheck)
    ensures r == BadDateShape <==> !DateShape(s)
    ensures r == DateOk <==> DateShape(s) && ValidDate(DayOf(s), MonthOf(s), YearOf(s))
  {
    if !DateShape(s) then BadDateShape
    else if ValidDate(DayOf(s), MonthOf(s), YearOf(s)) then DateOk
    else BadCalendarDate
  }

  function Pad4(n: nat): (r: string)
    requires n <= 9999
    ensures |r| == 4 && DigitsOnly(r)
  {
    [DigitChar(n / 10 / 10 / 10), DigitChar(n / 10 / 10 % 10), DigitChar(n / 10 % 10), DigitChar(n % 10)]
  }

  /** `f"{d:02d}.{m:02d}.{y:04d}"` */
  function FormatDate(d: nat, m: nat, y: nat): string
    requires d <= 99 && m <= 99 && y <= 9999
  {
    Pad2(d) + "." + Pad2(m) + "." + Pad4(y)
  }

  lemma DigitsValue1(s: string)
    requires |s| == 1 && DigitsOnly(s)
    ensures DigitsValue(s) == DigitValue(s[0])
  {
    assert s[..0] == [];
  }

  lemma DigitsValue2(s: string)
    requires |s| == 2 && DigitsOnly(s)
    ensures DigitsValue(s) == DigitValue(s[0]) * 10 + DigitValue(s[1])
    ensures DigitsValue(s) <= 99
  {
    DigitsValue1(s[..1]);
  }

  lemma DigitsValue4(s: string)
    requires |s| == 4 && DigitsOnly(s)
    ensures DigitsValue(s) == ((DigitValue(s[0]) * 10 + DigitValue(s[1])) * 10 + DigitValue(s[2])) * 10 + DigitValue(s[3])
    ensures DigitsValue(s) <= 9999
  {
    assert s[..3][..2] == s[..2];
    DigitsValue2(s[..2]);
  }

  lemma Pad2Value(n: nat)
    requires n <= 99
    ensures DigitsOnly(Pad2(n)) && DigitsValue(Pad2(n)) == n
  {
    DigitsValue2(Pad2(n));
  }

  lemma Pad4Value(n: nat)
    requires n <= 9999
    ensures DigitsValue(Pad4(n)) == n
  {
    DigitsValue4(Pad4(n));
    var q1 := n / 10;
    var q2 := q1 / 10;
    assert n == q1 * 10 + n % 10;
    assert q1 == q2 * 10 + q1 % 10;
    assert q2 == (q2 / 10) * 10 + q2 % 10;
  }

  /** Formatting a day, month and year gives a string of the date shape that
      reads back as the same three numbers, and it passes both checks exactly
      when the date exists. */
  lemma FormatDateRoundTrip(d: nat, m: nat, y: nat)
    requires d <= 99 && m <= 99 && y <= 9999
    ensures DateShape(FormatDate(d, m, y))
    ensures DayOf(FormatDate(d, m, y)) == d && MonthOf(FormatDate(d, m, y)) == m && YearOf(FormatDate(d, m, y)) == y
    ensures CheckDate(FormatDate(d, m, y)) == DateOk <==> ValidDate(d, m, y)
  {
    var s := FormatDate(d, m, y);
    Pad2Value(d);
    Pad2Value(m);
    Pad4Value(y);
    assert s[..2] == Pad2(d);
    assert s[3..5] == Pad2(m);
    assert s[6..] == Pad4(y);
  }

  /** Every string of the date shape is the formatting of its own fields. */
  lemma DateShapeIsFormatted(s: string)
    requires DateShape(s)
    ensures DayOf(s) <= 99 && MonthOf(s) <= 99 && YearOf(s) <= 9999
    ensures FormatDate(DayOf(s), MonthOf(s), YearOf(s)) == s
  {
    DigitsValue2(s[..2]);
    DigitsValue2(s[3..5]);
    DigitsValue4(s[6..]);
    var d, m, y := DayOf(s), MonthOf(s), YearOf(s);
    FormatDateRoundTrip(d, m, y);
    var f := FormatDate(d, m, y);
    DigitsInjective(f[..2], s[..2]);
    DigitsInjective(f[3..5], s[3..5]);
    DigitsInjective(f[6..], s[6..]);
    assert s == s[..2] + "." + s[3..5] + "." + s[6..];
    assert f == f[..2] + "." + f[3..5] + "." + f[6..];
  }

  /** Two digit strings of the same length with the same value are equal. */
  lemma {:induction false} DigitsInjective(a: string, b: string)
    requires DigitsOnly(a) && DigitsOnly(b) && |a| == |b|
    requires DigitsValue(a) == DigitsValue(b)
    ensures a == b
    decreases |a|
  {
    if a != [] {
      var a', b' := a[..|a| - 1], b[..|b| - 1];
      var x, y := DigitValue(a[|a| - 1]), DigitValue(b[|b| - 1]);
      assert DigitsValue(a') * 10 + x == DigitsValue(b') * 10 + y;
      assert x == y && DigitsValue(a') == DigitsValue(b');
      DigitsInjective(a', b');
      assert a == a' + [a[|a| - 1]] && b == b' + [b[|b| - 1]];
    }
  }

  // ------------------------------------------------------------------
  // Times

  /** The answers that mean "time unknown". */
  const UnknownTimeWords: seq<string> := ["не знаю", "неизвестно", "нет", "-"]

  /** `f"{hh:02d}:{mm:02d}"` */
  function FormatClock(hh: nat, mm: nat): string {
    Pad2(hh) + ":" + Pad2(mm)
  }

  /** A stored birth time: `HH:MM` with hours 00..23 and minutes 00..59. */
  predicate ValidClock(s: string) {
    |s| == 5 && s[2] == ':' && DigitsOnly(s[..2]) && DigitsOnly(s[3..])
    && DigitsValue(s[..2]) <= 23 && DigitsValue(s[3..]) <= 59
  }

  lemma FormatClockValid(hh: nat, mm: nat)
    requires hh <= 23 && mm <= 59
    ensures ValidClock(FormatClock(hh, mm))
    ensures DigitsValue(FormatClock(hh, mm)[..2]) == hh && DigitsValue(FormatClock(hh, mm)[3..]) == mm
  {
    var s := FormatClock(hh, mm);
    Pad2Value(hh);
    Pad2Value(mm);
    assert s[..2] == Pad2(hh) && s[3..] == Pad2(mm);
  }

  /** One reading of a string against the lenient time pattern
      `(\d{1,2})[:\.]?(\d{2})?(?:\s*(утра|вечера|am|pm))?`. */
  datatype TimeParts = TimeParts(hour: string, sep: string, minute: string, gap: string, word: string)

  predicate SuffixWord(w: string) {
    w == "утра" || w == "вечера" || w == "am" || w == "pm"
  }

  /** Everything after the hour: `[:\.]?(\d{2})?(?:\s*(утра|вечера|am|pm))?`. */
  predicate WellFormedTail(p: TimeParts) {
    && (p.sep == [] || p.sep == ":" || p.sep == ".")
    && (p.minute == [] || (|p.minute| == 2 && DigitsOnly(p.minute)))
    && AllSpace(p.gap)
    && (p.word == [] ==> p.gap == [])
    && (p.word == [] || SuffixWord(p.word))
  }

  predicate WellFormedTime(p: TimeParts) {
    1 <= |p.hour| <= 2 && DigitsOnly(p.hour) && WellFormedTail(p)
  }

  /** The text a reading covers after its separator. */
  function Tail(p: TimeParts): string {
    p.minute + (p.gap + p.word)
  }

  /** The whole text a reading covers. */
  function Concat(p: TimeParts): string {
    p.hour + (p.sep + Tail(p))
  }

  /** `(?:\s*(утра|вечера|am|pm))?` matched against all of `t`: the gap and the word. */
  function SuffixPart(t: string): (r: Option<(string, string)>)
    ensures r.Some? ==> AllSpace(r.value.0) && (r.value.1 == [] ==> r.value.0 == [])
                        && (r.value.1 == [] || SuffixWord(r.value.1)) && r.value.0 + r.value.1 == t
  {
    if t == [] then Some(([], []))
    else
      var n := LeadingSpaces(t);
      if SuffixWord(t[n..]) then
        LeadingSpacesRun(t);
        assert t == t[..n] + t[n..];
        Some((t[..n], t[n..]))
      else None
  }

  /** `(\d{2})?` and the suffix part matched against all of `r`, after the separator `sep`. */
  function AfterSep(sep: string, r: string): (res: Option<TimeParts>)
    requires sep == [] || sep == ":" || sep == "."
    ensures res.Some? ==> res.value.hour == [] && res.value.sep == sep && WellFormedTail(res.value) && Tail(res.value) == r
  {
    if |r| >= 2 && IsAsciiDigit(r[0]) && IsAsciiDigit(r[1]) then
      var sfx := SuffixPart(r[2..]);
      if sfx.None? then None
      else
        assert r == r[..2] + r[2..];
        Some(TimeParts([], sep, r[..2], sfx.value.0, sfx.value.1))
    else
      var sfx := SuffixPart(r);
      if sfx.None? then None
      else
        assert [] + (sfx.value.0 + sfx.value.1) == r;
        Some(TimeParts([], sep, [], sfx.value.0, sfx.value.1))
  }

  /** `[:\.]?` then `AfterSep`, matched against all of `r`. */
  function AfterHour(r: string): (res: Option<TimeParts>)
    ensures res.Some? ==> res.value.hour == [] && WellFormedTail(res.value) && res.value.sep + Tail(res.value) == r
  {
    if r != [] && r[0] == ':' then
      assert r == ":" + r[1..];
      AfterSep(":", r[1..])
    else if r != [] && r[0] == '.' then
      assert r == "." + r[1..];
      AfterSep(".", r[1..])
    else AfterSep([], r)
  }

  /** The hour digits followed by a reading of the rest. */
  function WithHour(hour: string, rest: string): (r: Option<TimeParts>)
    requires 1 <= |hour| <= 2 && DigitsOnly(hour)
    ensures r.Some? ==> WellFormedTime(r.value) && Concat(r.value) == hour + rest
  {
    var t := AfterHour(rest);
    if t.None? then None
    else
      var q := t.value;
      Some(TimeParts(hour, q.sep, q.minute, q.gap, q.word))
  }

  /** `re.fullmatch` of the lenient time pattern, with Python's preference for
      a two-digit hour and backtracking to a one-digit hour. */
  function MatchFreeTime(low: string): (r: Option<TimeParts>)
    ensures r.Some? ==> WellFormedTime(r.value) && Concat(r.value) == low
  {
    if |low| >= 2 && IsAsciiDigit(low[0]) && IsAsciiDigit(low[1]) then
      assert low == low[..2] + low[2..] == low[..1] + low[1..];
      var two := WithHour(low[..2], low[2..]);
      if two.Some? then two else WithHour(low[..1], low[1..])
    else if |low| >= 1 && IsAsciiDigit(low[0]) then
      assert low == low[..1] + low[1..];
      WithHour(low[..1], low[1..])
    else None
  }

  lemma SuffixWordsStart(w: string)
    requires SuffixWord(w)
    ensures w != [] && !IsSpace(w[0]) && !IsAsciiDigit(w[0]) && w[0] != ':' && w[0] != '.'
  {
  }

  lemma SuffixPartComplete(gap: string, word: string)
    requires AllSpace(gap) && (word == [] ==> gap == []) && (word == [] || SuffixWord(word))
    ensures SuffixPart(gap + word) == Some((gap, word))
  {
    if word != [] {
      SuffixWordsStart(word);
      LeadingSpacesOfGap(gap, word);
      assert (gap + word)[..|gap|] == gap && (gap + word)[|gap|..] == word;
    } else {
      assert gap + word == [];
    }
  }

  /** Nothing starting with a digit matches the suffix part. */
  lemma SuffixPartNotDigit(r: string)
    requires r != [] && IsAsciiDigit(r[0])
    ensures SuffixPart(r) == None
  {
    assert LeadingSpaces(r) == 0;
    assert r[0..] == r;
  }

  /** The first character of a well-formed tail's gap and word. */
  lemma GapWordStart(p: TimeParts)
    requires WellFormedTail(p) && p.gap + p.word != []
    ensures var g := p.gap + p.word; !IsAsciiDigit(g[0]) && g[0] != ':' && g[0] != '.'
  {
    if p.gap != [] {
      assert (p.gap + p.word)[0] == p.gap[0];
    } else {
      SuffixWordsStart(p.word);
      assert p.gap + p.word == p.word;
    }
  }

  /** A tail that starts with a digit has no separator and starts with its minutes. */
  lemma TailStart(p: TimeParts)
    requires WellFormedTail(p) && p.sep + Tail(p) != []
    ensures IsAsciiDigit((p.sep + Tail(p))[0]) ==> p.sep == [] && p.minute != []
  {
    var r := p.sep + Tail(p);
    if p.sep != [] {
      assert r[0] == p.sep[0];
    } else if p.minute == [] {
      assert r == p.gap + p.word;
      GapWordStart(p);
    }
  }

  lemma AfterSepComplete(p: TimeParts)
    requires WellFormedTail(p)
    ensures AfterSep(p.sep, Tail(p)) == Some(p.(hour := []))
  {
    var rest := Tail(p);
    SuffixPartComplete(p.gap, p.word);
    if p.minute != [] {
      assert rest[2..] == p.gap + p.word;
      assert rest[..2] == p.minute;
    } else {
      assert rest == p.gap + p.word;
      if rest != [] { GapWordStart(p); }
    }
  }

  lemma AfterHourComplete(p: TimeParts)
    requires WellFormedTail(p)
    ensures AfterHour(p.sep + Tail(p)) == Some(p.(hour := []))
  {
    var rest := Tail(p);
    var r := p.sep + rest;
    AfterSepComplete(p);
    if p.sep != [] {
      assert r[0] == p.sep[0] && r[1..] == rest;
    } else {
      assert r == rest;
      if p.minute != [] {
        assert r[0] == p.minute[0];
      } else if rest != [] {
        assert rest == p.gap + p.word;
        GapWordStart(p);
      }
    }
  }

  /** The matcher is complete: every reading of a string against the pattern is
      the one it returns. Since it is also sound, each string has at most one
      reading, and the matcher finds it. */
  lemma MatchFreeTimeComplete(p: TimeParts)
    requires WellFormedTime(p)
    ensures MatchFreeTime(Concat(p)) == Some(p)
  {
    var low := Concat(p);
    var tail := p.sep + Tail(p);
    AfterHourComplete(p);
    if |p.hour| == 2 {
      assert low[2..] == tail && low[..2] == p.hour;
    } else {
      assert low[1..] == tail && low[..1] == p.hour;
      if |low| >= 2 && IsAsciiDigit(low[1]) {
        // the second character can only be the first minute digit; a
        // two-digit hour would leave a lone digit that nothing can match
        NoSecondHourDigit(p);
      }
    }
  }

  lemma NoSecondHourDigit(p: TimeParts)
    requires WellFormedTime(p) && |p.hour| == 1
    requires |Concat(p)| >= 2 && IsAsciiDigit(Concat(p)[1])
    ensures AfterHour(Concat(p)[2..]) == None
  {
    var low := Concat(p);
    var rest := p.sep + Tail(p);
    assert low[1..] == rest;
    TailStart(p);
    assert p.sep == [] && p.minute != [];
    var r := low[2..];
    assert r == p.minute[1..] + (p.gap + p.word);
    assert r[0] == p.minute[1];
    if |r| > 1 {
      assert r[1] == (p.gap + p.word)[0];
      GapWordStart(p);
    }
    SuffixPartNotDigit(r);
  }

  datatype TimeError = TimeFormat | TimeRange

  /** Hours after the am/pm rule: pm/вечера adds 12 to hours 1..11, am/утра
      turns 12 into 0. */
  function TwelveHour(hh: nat, word: string): (r: nat)
    ensures !SuffixWord(word) ==> r == hh
    ensures (word == "pm" || word == "вечера") ==> r == (if 1 <= hh <= 11 then hh + 12 else hh)
    ensures (word == "am" || word == "утра") ==> r == (if hh == 12 then 0 else hh)
  {
    if (word == "pm" || word == "вечера") && 1 <= hh <= 11 then hh + 12
    else if (word == "am" || word == "утра") && hh == 12 then 0
    else hh
  }

  /** The hour a reading denotes, after the am/pm rule. */
  function HourOf(p: TimeParts): nat
    requires WellFormedTime(p)
  {
    TwelveHour(DigitsValue(p.hour), p.word)
  }

  /** The minutes a reading denotes: 0 when the minute group is absent. */
  function MinuteOf(p: TimeParts): nat
    requires WellFormedTime(p)
  {
    if p.minute == [] then 0 else DigitsValue(p.minute)
  }

  /** The time a reading denotes: minutes default to 0, the am/pm rule is
      applied, and hours 0..23 and minutes 0..59 are required; the result is
      the zero-padded `HH:MM` whose two fields read back as that hour and
      minute. */
  function ClockOf(p: TimeParts): (r: Result<Option<string>, TimeError>)
    requires WellFormedTime(p)
    ensures r.Ok? <==> HourOf(p) <= 23 && MinuteOf(p) <= 59
    ensures r.Err? ==> r == Err(TimeRange)
    ensures r.Ok? ==> && r.value.Some? && ValidClock(r.value.value)
                      && DigitsValue(r.value.value[..2]) == HourOf(p)
                      && DigitsValue(r.value.value[3..]) == MinuteOf(p)
  {
    var hh := TwelveHour(DigitsValue(p.hour), p.word);
    var mm := if p.minute == [] then 0 else DigitsValue(p.minute);
    if hh <= 23 && mm <= 59 then
      FormatClockValid(hh, mm);
      Ok(Some(FormatClock(hh, mm)))
    else Err(TimeRange)
  }

  /** The time line of the all-in-one natal message: unknown, a normalised
      `HH:MM`, or one of the two errors. */
  function ParseFreeTime(raw: string): (r: Result<Option<string>, TimeError>)
    ensures r.Ok? && r.value.Some? ==> ValidClock(r.value.value)
    ensures r == Ok(None) <==> Strip(Lower(raw)) in UnknownTimeWords
    ensures r == Err(TimeFormat) <==> Strip(Lower(raw)) !in UnknownTimeWords && MatchFreeTime(Strip(Lower(raw))).None?
    ensures Strip(Lower(raw)) !in UnknownTimeWords && MatchFreeTime(Strip(Lower(raw))).Some? ==>
              r == ClockOf(MatchFreeTime(Strip(Lower(raw))).value)
  {
    var low := Strip(Lower(raw));
    if low in UnknownTimeWords then Ok(None)
    else
      var m := MatchFreeTime(low);
      if m.None? then Err(TimeFormat) else ClockOf(m.value)
  }

  lemma DigitStartNotUnknown(s: string)
    requires s != [] && IsAsciiDigit(s[0])
    ensures s !in UnknownTimeWords
  {
  }

  /** Once the lowered, stripped input has a reading, the parser returns the
      time that reading denotes. */
  lemma FreeTimeOfReading(raw: string, p: TimeParts)
    requires WellFormedTime(p) && Strip(Lower(raw)) == Concat(p)
    ensures ParseFreeTime(raw) == ClockOf(p)
  {
    MatchFreeTimeComplete(p);
    assert Concat(p)[0] == p.hour[0];
    DigitStartNotUnknown(Concat(p));
  }

  lemma LowerDigitsColon(s: string)
    requires forall i :: 0 <= i < |s| ==> IsAsciiDigit(s[i]) || s[i] == ':'
    ensures Lower(s) == s
  {
  }

  lemma ClockRead(hh: nat, mm: nat)
    requires hh <= 23 && mm <= 59
    ensures WellFormedTime(TimeParts(Pad2(hh), ":", Pad2(mm), [], []))
    ensures ClockOf(TimeParts(Pad2(hh), ":", Pad2(mm), [], [])) == Ok(Some(FormatClock(hh, mm)))
    ensures Concat(TimeParts(Pad2(hh), ":", Pad2(mm), [], [])) == FormatClock(hh, mm)
  {
    Pad2Value(hh);
    Pad2Value(mm);
  }

  /** A lower-case, trimmed input is read as itself. */
  lemma FreeTimeOfPlain(raw: string, p: TimeParts)
    requires Lower(raw) == raw && raw != [] && !IsSpace(raw[0]) && !IsSpace(raw[|raw| - 1])
    requires WellFormedTime(p) && Concat(p) == raw
    ensures ParseFreeTime(raw) == ClockOf(p)
  {
    StripTrimmed(raw);
    FreeTimeOfReading(raw, p);
  }

  /** A stored time fed back into the lenient parser comes out unchanged. */
  lemma FreeTimeFixesClock(hh: nat, mm: nat)
    requires hh <= 23 && mm <= 59
    ensures ParseFreeTime(FormatClock(hh, mm)) == Ok(Some(FormatClock(hh, mm)))
  {
    var s := FormatClock(hh, mm);
    ClockRead(hh, mm);
    FormatClockPlain(hh, mm);
    FreeTimeOfPlain(s, TimeParts(Pad2(hh), ":", Pad2(mm), [], []));
  }

  /** A formatted time is already lower-case and starts and ends with a digit. */
  lemma FormatClockPlain(hh: nat, mm: nat)
    requires hh <= 23 && mm <= 59
    ensures var s := FormatClock(hh, mm);
      Lower(s) == s && s != [] && !IsSpace(s[0]) && !IsSpace(s[|s| - 1])
  {
    var s := FormatClock(hh, mm);
    var h, m := Pad2(hh), Pad2(mm);
    assert s == [h[0], h[1], ':', m[0], m[1]];
    LowerDigitsColon(s);
  }

  lemma SevenPmClock()
    ensures ClockOf(TimeParts("7", [], [], " ", "pm")) == Ok(Some("19:00"))
  {
    DigitsValue1("7");
    assert FormatClock(19, 0) == "19:00";
  }

  /** `7 pm` is 19:00. */
  lemma FreeTimePm()
    ensures ParseFreeTime("7 pm") == Ok(Some("19:00"))
  {
    SevenPmClock();
    FreeTimeOfPlain("7 pm", TimeParts("7", [], [], " ", "pm"));
  }

  lemma NineThirtyClock()
    ensures ClockOf(TimeParts("9", [], "30", [], [])) == Ok(Some("09:30"))
  {
    DigitsValue1("9");
    DigitsValue2("30");
    assert FormatClock(9, 30) == "09:30";
  }

  /** `930` is 09:30: the one-digit hour is taken because a two-digit one
      would leave a lone digit. */
  lemma FreeTimeNoSeparator()
    ensures ParseFreeTime("930") == Ok(Some("09:30"))
  {
    NineThirtyClock();
    LowerDigitsColon("930");
    FreeTimeOfPlain("930", TimeParts("9", [], "30", [], []));
  }

  /** `re.fullmatch(r"\d{1,2}:\d{2}", text)` */
  predicate StrictClockShape(s: string) {
    && (|s| == 4 || |s| == 5) && s[|s| - 3] == ':'
    && DigitsOnly(s[..|s| - 3]) && DigitsOnly(s[|s| - 2..])
  }

  /** The step-by-step time entry: an unknown-time word, or `H:MM`/`HH:MM` in range. */
  function ParseStrictTime(text: string): (r: Result<Option<string>, TimeError>)
    ensures r.Ok? && r.value.Some? ==> ValidClock(r.value.value)
    ensures r == Ok(None) <==> Lower(text) in UnknownTimeWords
    ensures r == Err(TimeFormat) <==> Lower(text) !in UnknownTimeWords && !StrictClockShape(text)
  {
    if Lower(text) in UnknownTimeWords then Ok(None)
    else if !StrictClockShape(text) then Err(TimeFormat)
    else
      var hh := DigitsValue(text[..|text| - 3]);
      var mm := DigitsValue(text[|text| - 2..]);
      if hh <= 23 && mm <= 59 then
        FormatClockValid(hh, mm);
        Ok(Some(FormatClock(hh, mm)))
      else Err(TimeRange)
  }

  /** The reading of a strict `H:MM`/`HH:MM` text: hour, colon, minutes. */
  lemma StrictClockParts(text: string)
    requires StrictClockShape(text)
    ensures WellFormedTime(TimeParts(text[..|text| - 3], ":", text[|text| - 2..], [], []))
    ensures Concat(TimeParts(text[..|text| - 3], ":", text[|text| - 2..], [], [])) == text
  {
    var h := text[..|text| - 3];
    var m := text[|text| - 2..];
    var p := TimeParts(h, ":", m, [], []);
    assert Tail(p) == m;
    assert text == h + (":" + m);
  }

  /** The strict step computes the time of the reading with a colon. */
  lemma StrictClockOf(text: string)
    requires StrictClockShape(text)
    ensures WellFormedTime(TimeParts(text[..|text| - 3], ":", text[|text| - 2..], [], []))
    ensures ParseStrictTime(text) == ClockOf(TimeParts(text[..|text| - 3], ":", text[|text| - 2..], [], []))
    ensures Concat(TimeParts(text[..|text| - 3], ":", text[|text| - 2..], [], [])) == text
  {
    StrictClockParts(text);
    LowerDigitsColon(text);
    DigitStartNotUnknown(text);
    var h := text[..|text| - 3];
    assert TwelveHour(DigitsValue(h), []) == DigitsValue(h);
  }

  /** What the strict step accepts, the all-in-one form accepts with the same
      result. */
  lemma StrictRefinesFree(text: string)
    requires StrictClockShape(text)
    ensures ParseFreeTime(text) == ParseStrictTime(text)
  {
    StrictClockOf(text);
    StrictShapePlain(text);
    FreeTimeOfPlain(text, TimeParts(text[..|text| - 3], ":", text[|text| - 2..], [], []));
  }

  /** A strict `H:MM`/`HH:MM` text is already lower-case and starts and ends
      with a digit. */
  lemma StrictShapePlain(text: string)
    requires StrictClockShape(text)
    ensures Lower(text) == text && text != [] && !IsSpace(text[0]) && !IsSpace(text[|text| - 1])
  {
    var h, m := text[..|text| - 3], text[|text| - 2..];
    assert text[0] == h[0] && text[|text| - 1] == m[1];
    forall i | 0 <= i < |text| ensures IsAsciiDigit(text[i]) || text[i] == ':' {
      if i < |text| - 3 {
        assert text[i] == h[i];
      } else if i >= |text| - 2 {
        assert text[i] == m[i - (|text| - 2)];
      }
    }
    LowerDigitsColon(text);
  }

  /** The city line must have at least two characters. */
  predicate CityOk(city: string) {
    |city| >= 2
  }

  // ------------------------------------------------------------------
  // The four-line natal message

  function KeepNonBlank(pieces: seq<string>): (r: seq<string>)
    ensures |r| <= |pieces|
    ensures forall k :: 0 <= k < |r| ==> r[k] != [] && !IsSpace(r[k][0]) && !IsSpace(r[k][|r[k]| - 1])
  {
    if pieces == [] then []
    else
      var rest := KeepNonBlank(pieces[1..]);
      var head := Strip(pieces[0]);
      if head == [] then rest else [head] + rest
  }

  /** `[ln.strip() for ln in text.replace("\r", "").split("\n") if ln.strip()]` */
  function NonBlankLines(text: string): seq<string> {
    KeepNonBlank(SplitOn(RemoveChar(text, '\r'), '\n'))
  }

  datatype NatalInput = NatalInput(fullName: string, date: string, time: Option<string>, city: string)

  datatype NatalAllError = TooFewLines | BadDateFormat | BadDate | BadTimeFormat | BadTimeRange | CityTooShort

  /** `_parse_natal_all_input`: the first four non-blank lines are name, date,
      time and city, checked in that order. */
  function ParseNatalAll(text: string): (r: Result<NatalInput, NatalAllError>)
    ensures r.Ok? ==> CheckDate(r.value.date) == DateOk && CityOk(r.value.city) && r.value.fullName != []
    ensures r.Ok? && r.value.time.Some? ==> ValidClock(r.value.time.value)
    ensures var lines := NonBlankLines(text);
      && (r == Err(TooFewLines) <==> |lines| < 4)
      && (r == Err(BadDateFormat) <==> |lines| >= 4 && CheckDate(lines[1]) == BadDateShape)
      && (r == Err(BadDate) <==> |lines| >= 4 && CheckDate(lines[1]) == BadCalendarDate)
      && (r == Err(BadTimeFormat) <==>
            |lines| >= 4 && CheckDate(lines[1]) == DateOk && ParseFreeTime(lines[2]) == Err(TimeFormat))
      && (r == Err(BadTimeRange) <==>
            |lines| >= 4 && CheckDate(lines[1]) == DateOk && ParseFreeTime(lines[2]) == Err(TimeRange))
      && (r == Err(CityTooShort) <==>
            |lines| >= 4 && CheckDate(lines[1]) == DateOk && ParseFreeTime(lines[2]).Ok? && !CityOk(lines[3]))
      && (r.Ok? ==> |lines| >= 4 && ParseFreeTime(lines[2]).Ok?
                    && r.value == NatalInput(lines[0], lines[1], ParseFreeTime(lines[2]).value, lines[3]))
  {
    var lines := NonBlankLines(text);
    if |lines| < 4 then Err(TooFewLines)
    else match CheckDate(lines[1])
      case BadDateShape => Err(BadDateFormat)
      case BadCalendarDate => Err(BadDate)
      case DateOk =>
        match ParseFreeTime(lines[2])
        case Err(TimeFormat) => Err(BadTimeFormat)
        case Err(TimeRange) => Err(BadTimeRange)
        case Ok(time) =>
          if !CityOk(lines[3]) then Err(CityTooShort)
          else Ok(NatalInput(lines[0], lines[1], time, lines[3]))
  }

  /** A line the user can type for a field: non-empty, no line breaks, no
      surrounding whitespace. */
  predicate TypedLine(s: string) {
    s != [] && !IsSpace(s[0]) && !IsSpace(s[|s| - 1]) && '\n' !in s && '\r' !in s
  }

  /** How the unknown time is written back: the first of the unknown-time words. */
  function TimeLine(t: Option<string>): string {
    if t.Some? then t.value else "не знаю"
  }

  /** The four-line message for a natal input. */
  function ComposeNatal(n: NatalInput): string {
    Join("\n", [n.fullName, n.date, TimeLine(n.time), n.city])
  }

  lemma {:induction false} KeepTyped(ps: seq<string>)
    requires forall k :: 0 <= k < |ps| ==> TypedLine(ps[k])
    ensures KeepNonBlank(ps) == ps
    decreases |ps|
  {
    if ps != [] {
      var rest := ps[1..];
      KeepTyped(rest);
      StripTrimmed(ps[0]);
      assert [ps[0]] + rest == ps;
    }
  }

  /** Typed lines joined by line breaks are read back as the same lines. */
  lemma TypedLinesKept(ps: seq<string>)
    requires |ps| >= 1
    requires forall k :: 0 <= k < |ps| ==> TypedLine(ps[k])
    ensures NonBlankLines(Join("\n", ps)) == ps
  {
    JoinAvoids("\n", ps, '\r');
    RemoveAbsent(Join("\n", ps), '\r');
    SplitOnJoinAll(ps, '\n');
    KeepTyped(ps);
  }

  /** A well-shaped date is a typed line. */
  lemma DateLineTyped(d: string)
    requires DateShape(d)
    ensures TypedLine(d)
  {
    forall i | 0 <= i < 10 ensures d[i] != '\n' && d[i] != '\r' && !IsSpace(d[i]) {
      if i < 2 { assert d[i] == d[..2][i]; }
      else if 3 <= i < 5 { assert d[i] == d[3..5][i - 3]; }
      else if i >= 6 { assert d[i] == d[6..][i - 6]; }
    }
  }

  /** Every stored clock value is the formatting of its own hour and minute. */
  lemma ValidClockIsFormatted(t: string)
    requires ValidClock(t)
    ensures t == FormatClock(DigitsValue(t[..2]), DigitsValue(t[3..]))
  {
    var hh, mm := DigitsValue(t[..2]), DigitsValue(t[3..]);
    Pad2Value(hh);
    Pad2Value(mm);
    DigitsInjective(Pad2(hh), t[..2]);
    DigitsInjective(Pad2(mm), t[3..]);
    assert t == t[..2] + ":" + t[3..];
  }

  /** A stored clock value is a typed line. */
  lemma ClockLineTyped(t: string)
    requires ValidClock(t)
    ensures TypedLine(t)
  {
    forall i | 0 <= i < 5 ensures t[i] != '\n' && t[i] != '\r' && (i != 2 ==> !IsSpace(t[i])) {
      if i < 2 { assert t[i] == t[..2][i]; }
      else if i > 2 { assert t[i] == t[3..][i - 3]; }
    }
  }

  /** A stored clock value reads back as itself. */
  lemma ClockLineParses(t: string)
    requires ValidClock(t)
    ensures ParseFreeTime(t) == Ok(Some(t))
  {
    ValidClockIsFormatted(t);
    FreeTimeFixesClock(DigitsValue(t[..2]), DigitsValue(t[3..]));
  }

  lemma UnknownLineTrimmed()
    ensures Strip(Lower(TimeLine(None))) == UnknownTimeWords[0]
  {
    var t := TimeLine(None);
    forall i | 0 <= i < |t| ensures LowerChar(t[i]) == t[i] { }
    assert Lower(t) == t;
    StripTrimmed(t);
  }

  /** The unknown time is written as the first unknown-time word, which reads back as unknown. */
  lemma UnknownLineParses()
    ensures TypedLine(TimeLine(None)) && ParseFreeTime(TimeLine(None)) == Ok(None)
  {
    UnknownLineTrimmed();
  }

  /** The time line written for a stored time (or for an unknown one) reads back as that time. */
  lemma TimeLineReads(time: Option<string>)
    requires time.Some? ==> ValidClock(time.value)
    ensures TypedLine(TimeLine(time)) && ParseFreeTime(TimeLine(time)) == Ok(time)
  {
    if time.Some? {
      ClockLineTyped(time.value);
      ClockLineParses(time.value);
    } else {
      UnknownLineParses();
    }
  }

  lemma FourLinesKept(a: string, b: string, c: string, d: string)
    requires TypedLine(a) && TypedLine(b) && TypedLine(c) && TypedLine(d)
    ensures NonBlankLines(Join("\n", [a, b, c, d])) == [a, b, c, d]
  {
    TypedLinesKept([a, b, c, d]);
  }

  /** A message whose lines all pass their checks is accepted with exactly those lines. */
  lemma NatalAllAccepts(text: string, lines: seq<string>, time: Option<string>)
    requires NonBlankLines(text) == lines && |lines| == 4
    requires CheckDate(lines[1]) == DateOk && ParseFreeTime(lines[2]) == Ok(time) && CityOk(lines[3])
    ensures ParseNatalAll(text) == Ok(NatalInput(lines[0], lines[1], time, lines[3]))
  {
  }

  /** Round trip: writing a well-formed natal input as four lines and parsing
      it back gives the same input. */
  lemma NatalAllRoundTrip(n: NatalInput)
    requires TypedLine(n.fullName) && TypedLine(n.city) && CityOk(n.city)
    requires CheckDate(n.date) == DateOk
    requires n.time.Some? ==> ValidClock(n.time.value)
    ensures ParseNatalAll(ComposeNatal(n)) == Ok(n)
  {
    var t := TimeLine(n.time);
    TimeLineReads(n.time);
    DateLineTyped(n.date);
    FourLinesKept(n.fullName, n.date, t, n.city);
    NatalAllAccepts(ComposeNatal(n), [n.fullName, n.date, t, n.city], n.time);
  }

  // ------------------------------------------------------------------
  // The numerology message

  datatype NumError = NumShape | NumDate

  /** The numerology entry `DD.MM.YYYY Name`: the date and the name. */
  function ParseNumInput(text: string): (r: Result<(string, string), NumError>)
    ensures r.Ok? ==> CheckDate(r.value.0) == DateOk && r.value.1 != []
    ensures r == Err(NumShape) <==> |SplitFirstWord(text)| < 2 || !DateShape(SplitFirstWord(text)[0])
    ensures r == Err(NumDate) <==>
              |SplitFirstWord(text)| >= 2 && DateShape(SplitFirstWord(text)[0])
              && CheckDate(SplitFirstWord(text)[0]) != DateOk
    ensures r.Ok? ==> |SplitFirstWord(text)| == 2 && r.value == (SplitFirstWord(text)[0], SplitFirstWord(text)[1])
  {
    var parts := SplitFirstWord(text);
    if |parts| < 2 || !DateShape(parts[0]) then Err(NumShape)
    else if CheckDate(parts[0]) != DateOk then Err(NumDate)
    else Ok((parts[0], parts[1]))
  }

  /** Round trip: a valid date, a space and a name parse back into the two. */
  lemma NumInputRoundTrip(date: string, name: string)
    requires CheckDate(date) == DateOk
    requires name != [] && !IsSpace(name[0])
    ensures ParseNumInput(date + " " + name) == Ok((date, name))
  {
    forall i | 0 <= i < |date| ensures !IsSpace(date[i]) {
      if i < 2 { assert date[i] == date[..2][i]; }
      else if 3 <= i < 5 { assert date[i] == date[3..5][i - 3]; }
      else if i >= 6 { assert date[i] == date[6..][i - 6]; }
    }
    SplitFirstWordJoin(date, name);
  }

  // ------------------------------------------------------------------
  // Palm reading context

  const SkipWords: seq<string> := ["пропустить", "skip", "нет"]

  /** The optional context: `None` for a skip word, otherwise the stripped text. */
  function PalmContext(text: string): (r: Option<string>)
    ensures r.None? <==> Lower(Strip(text)) in SkipWords
    ensures r.Some? ==> r.value == Strip(text)
  {
    var ctx := Strip(text);
    if Lower(ctx) in SkipWords then None else Some(ctx)
  }

  /** The dominant-hand guess: "правая" if the context mentions it (it is checked
      last and wins), otherwise "левая" if mentioned, otherwise none. */
  function DominantHand(ctx: Option<string>): (r: Option<string>)
    ensures r.Some? ==> ctx.Some? && ctx.value != []
    ensures ctx.Some? && Contains(Lower(ctx.value), "правая") ==> r == Some("правая")
    ensures ctx.Some? && Contains(Lower(ctx.value), "левая") && !Contains(Lower(ctx.value), "правая") ==> r == Some("левая")
    ensures ctx.Some? && !Contains(Lower(ctx.value), "левая") && !Contains(Lower(ctx.value), "правая") ==> r.None?
  {
    if ctx.None? || ctx.value == [] then None
    else
      var low := Lower(ctx.value);
      var left := if Contains(low, "левая") then Some("левая") else None;
      if Contains(low, "правая") then Some("правая") else left
  }

  lemma LowerCharIdempotent(c: char)
    ensures LowerChar(LowerChar(c)) == LowerChar(c)
  {
  }

  /** The guess ignores letter case: lower-casing the context first changes nothing. */
  lemma DominantHandIgnoresCase(s: string)
    ensures DominantHand(Some(Lower(s))) == DominantHand(Some(s))
  {
    forall i | 0 <= i < |s| ensures LowerChar(LowerChar(s[i])) == LowerChar(s[i]) {
      LowerCharIdempotent(s[i]);
    }
    assert Lower(Lower(s)) == Lower(s);
  }
}
