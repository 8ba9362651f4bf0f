/**
 The texts of the timetable: weekday lists and clock times, read the way the
 service reads them and written the way it stores them.
 */
module TimetableTexts {
  import opened Wrappers
  import opened Texts
  import opened Sequences

  datatype TextError = NotHourMinute | NoWeekday

  // ------------------------------------------------------------------- numbers

  /** Digits, with single underscores between them, after a digit has been read. */
  function ReadDigits(s: string, sofar: nat): Option<nat>
    decreases |s|
  {
    if s == "" then Some(sofar)
    else if IsDigit(s[0]) then ReadDigits(s[1..], sofar * 10 + DigitValue(s[0]))
    else if s[0] == '_' && |s| > 1 && IsDigit(s[1]) then ReadDigits(s[2..], sofar * 10 + DigitValue(s[1]))
    else None
  }

  function ReadNat(s: string): Option<nat> {
    if s != "" && IsDigit(s[0]) then ReadDigits(s[1..], DigitValue(s[0])) else None
  }

  /** int(text): surrounding spaces and a sign are allowed. */
  function ReadInt(text: string): Option<int> {
    var s := Strip(text);
    if s != "" && (s[0] == '+' || s[0] == '-') then
      match ReadNat(s[1..])
      case None => None
      case Some(n) => Some(if s[0] == '-' then -(n as int) else n as int)
    else
      match ReadNat(s)
      case None => None
      case Some(n) => Some(n)
  }

  /** Digits, and single underscores each followed by a digit. */
  predicate DigitGroups(s: string) {
    forall i :: 0 <= i < |s| ==> PartOk(s, i)
  }

  predicate PartOk(s: string, i: nat)
    requires i < |s|
  {
    IsDigit(s[i]) || (s[i] == '_' && i + 1 < |s| && IsDigit(s[i + 1]))
  }

  function WithoutUnderscores(s: string): string {
    if s == "" then "" else (if s[0] == '_' then "" else [s[0]]) + WithoutUnderscores(s[1..])
  }

  lemma GroupsTail(s: string)
    requires s != ""
    ensures DigitGroups(s) <==> PartOk(s, 0) && DigitGroups(s[1..])
  {
    assert forall i :: 0 <= i < |s[1..]| ==> (PartOk(s[1..], i) <==> PartOk(s, i + 1));
    assert forall i :: 1 <= i < |s| ==> (PartOk(s, i) <==> PartOk(s[1..], i - 1));
  }

  lemma GroupsStep(s: string)
    requires s != ""
    ensures DigitGroups(s)
            <==> if IsDigit(s[0]) then DigitGroups(s[1..]) else s[0] == '_' && |s| > 1 && IsDigit(s[1]) && DigitGroups(s[2..])
  {
    GroupsTail(s);
    if |s| > 1 {
      GroupsTail(s[1..]);
      assert s[1..][1..] == s[2..] && s[1..][0] == s[1];
    }
  }

  lemma DigitAppended(read: string, c: char)
    requires AllDigits(read) && IsDigit(c)
    ensures AllDigits(read + [c]) && Value(read + [c]) == Value(read) * 10 + DigitValue(c)
  {
    assert (read + [c])[..|read|] == read;
  }

  /** A digit, or an underscore with the digit after it, is read in one step. */
  lemma OneDigitOn(s: string, n: nat, skip: nat)
    requires (skip == 0 && s != "" && IsDigit(s[0])) || (skip == 1 && |s| > 1 && s[0] == '_' && IsDigit(s[1]))
    ensures ReadDigits(s, n) == ReadDigits(s[skip + 1..], n * 10 + DigitValue(s[skip]))
    ensures WithoutUnderscores(s) == [s[skip]] + WithoutUnderscores(s[skip + 1..])
    ensures DigitGroups(s) <==> DigitGroups(s[skip + 1..])
  {
    GroupsStep(s);
    if skip == 1 {
      assert s[1..][1..] == s[2..] && s[1..][0] == s[1];
    }
  }

  /** After a text of digits, the rest is read exactly when it is in groups, and extends the number. */
  predicate ReadsAs(s: string, read: string)
    requires AllDigits(read)
  {
    && (ReadDigits(s, Value(read)).Some? <==> DigitGroups(s))
    && (DigitGroups(s) ==>
          AllDigits(read + WithoutUnderscores(s)) && ReadDigits(s, Value(read)) == Some(Value(read + WithoutUnderscores(s))))
  }

  lemma ReadsOneMore(s: string, read: string, skip: nat)
    requires AllDigits(read)
    requires (skip == 0 && s != "" && IsDigit(s[0])) || (skip == 1 && |s| > 1 && s[0] == '_' && IsDigit(s[1]))
    requires AllDigits(read + [s[skip]]) && ReadsAs(s[skip + 1..], read + [s[skip]])
    ensures ReadsAs(s, read)
  {
    OneDigitOn(s, Value(read), skip);
    DigitAppended(read, s[skip]);
    Associate(read, [s[skip]], WithoutUnderscores(s[skip + 1..]));
  }

  lemma {:induction false} ReadsOn(s: string, read: string)
    requires AllDigits(read)
    ensures ReadsAs(s, read)
    decreases |s|
  {
    if s == "" {
      assert read + "" == read;
    } else if IsDigit(s[0]) {
      ReadsOn(s[1..], read + [s[0]]);
      ReadsOneMore(s, read, 0);
    } else if s[0] == '_' && |s| > 1 && IsDigit(s[1]) {
      ReadsOn(s[2..], read + [s[1]]);
      ReadsOneMore(s, read, 1);
    } else {
      GroupsStep(s);
    }
  }

  /** A natural number is read exactly when its groups begin with a digit, as the number that its digits show. */
  lemma ReadNatExactly(s: string)
    ensures ReadNat(s).Some? <==> s != "" && IsDigit(s[0]) && DigitGroups(s)
    ensures ReadNat(s).Some? ==> AllDigits(WithoutUnderscores(s)) && ReadNat(s).value == Value(WithoutUnderscores(s))
  {
    if s != "" && IsDigit(s[0]) {
      var first := [s[0]];
      assert first[..0] == "" && Value(first) == DigitValue(s[0]);
      GroupsStep(s);
      ReadsOn(s[1..], first);
      assert WithoutUnderscores(s) == first + WithoutUnderscores(s[1..]);
    }
  }

  /** Around the number there may be spaces, and before it one sign, of which only the minus counts. */
  lemma SignedExactly(text: string, digits: string)
    requires Strip(text) in {digits, "+" + digits, "-" + digits}
    requires digits != "" && IsDigit(digits[0]) && DigitGroups(digits)
    ensures AllDigits(WithoutUnderscores(digits))
    ensures ReadInt(text) == Some(if Strip(text) == "-" + digits then -(Value(WithoutUnderscores(digits)) as int) else Value(WithoutUnderscores(digits)))
  {
    ReadNatExactly(digits);
    assert ("+" + digits)[1..] == digits && ("-" + digits)[1..] == digits;
  }

  // --------------------------------------------------------------------- times

  /** The text before and after the first colon. */
  function SplitColon(s: string): Option<(string, string)> {
    if s == "" then None
    else if s[0] == ':' then Some(("", s[1..]))
    else
      match SplitColon(s[1..])
      case None => None
      case Some((hour, minute)) => Some(([s[0]] + hour, minute))
  }

  function TimeToMinutes(value: string): Result<int, TextError> {
    var parts := SplitColon(Strip(value));
    if parts.None? then Failure(NotHourMinute)
    else
      var hour, minute := ReadInt(parts.value.0), ReadInt(parts.value.1);
      if hour.None? || minute.None? then Failure(NotHourMinute)
      else
        var total := hour.value * 60 + minute.value;
        if total < 0 || total >= 24 * 60 || !(0 <= minute.value <= 59) then Failure(NotHourMinute)
        else Success(total)
  }

  /** A time is read exactly when an hour of the day and a minute of the hour stand around the first colon. */
  lemma TimeReadsExactly(value: string, m: int)
    ensures TimeToMinutes(value) == Success(m)
            <==> exists hour, minute :: IsClock(value, hour, minute) && 0 <= hour <= 23 && 0 <= minute <= 59 && m == 60 * hour + minute
  {
    var parts := SplitColon(Strip(value));
    if parts.Some? {
      var hour, minute := ReadInt(parts.value.0), ReadInt(parts.value.1);
      if hour.Some? && minute.Some? {
        assert IsClock(value, hour.value, minute.value);
        forall h, n | IsClock(value, h, n)
          ensures h == hour.value && n == minute.value
        {
        }
      }
    }
  }

  /** The text names these numbers before and after its first colon. */
  predicate IsClock(value: string, hour: int, minute: int) {
    var parts := SplitColon(Strip(value));
    parts.Some? && ReadInt(parts.value.0) == Some(hour) && ReadInt(parts.value.1) == Some(minute)
  }

  /** The colon splits a text at its first occurrence. */
  lemma {:induction false} SplitsAtColon(s: string)
    ensures SplitColon(s).None? <==> ':' !in s
    ensures SplitColon(s).Some? ==> ':' !in SplitColon(s).value.0 && s == SplitColon(s).value.0 + ":" + SplitColon(s).value.1
  {
    if s != "" && s[0] != ':' {
      SplitsAtColon(s[1..]);
      assert s == [s[0]] + s[1..];
    }
  }

  function TwoDigits(n: nat): string
    requires n < 100
  {
    [Digit(n / 10), Digit(n % 10)]
  }

  /** HH24:MI. */
  function PrintTime(minutes: nat): string
    requires minutes < 24 * 60
  {
    TwoDigits(minutes / 60) + ":" + TwoDigits(minutes % 60)
  }

  lemma ReadTwoDigits(n: nat)
    requires n < 100
    ensures ReadInt(TwoDigits(n)) == Some(n)
  {
    var s := TwoDigits(n);
    assert Strip(s) == s;
    assert s[1..] == [s[1]] && s[1..][1..] == "";
    assert ReadDigits(s[1..], n / 10) == ReadDigits(s[1..][1..], n / 10 * 10 + n % 10);
  }

  lemma SplitPrinted(hour: string, minute: string)
    requires |hour| == 2 && hour[0] != ':' && hour[1] != ':'
    ensures SplitColon(hour + ":" + minute) == Some((hour, minute))
  {
    var s := hour + ":" + minute;
    assert s[1..][1..][0] == ':' && s[1..][1..][1..] == minute;
    assert SplitColon(s[1..][1..]) == Some(("", minute));
    assert SplitColon(s[1..]) == Some(([s[1]] + "", minute));
    assert SplitColon(s) == Some(([s[0]] + ([s[1]] + ""), minute));
    assert hour == [s[0]] + ([s[1]] + "");
  }

  /** A stored time reads back as the same minute of the day, and only times of one day are read. */
  lemma TimeRoundTrip(minutes: nat)
    requires minutes < 24 * 60
    ensures TimeToMinutes(PrintTime(minutes)) == Success(minutes)
  {
    var hour, minute := TwoDigits(minutes / 60), TwoDigits(minutes % 60);
    var s := PrintTime(minutes);
    assert Strip(s) == s;
    SplitPrinted(hour, minute);
    ReadTwoDigits(minutes / 60);
    ReadTwoDigits(minutes % 60);
  }

  lemma TimeIsOfOneDay(value: string)
    requires TimeToMinutes(value).Success?
    ensures 0 <= TimeToMinutes(value).value < 24 * 60
    ensures TimeToMinutes(PrintTime(TimeToMinutes(value).value)) == TimeToMinutes(value)
  {
    TimeRoundTrip(TimeToMinutes(value).value);
  }

  // ------------------------------------------------------------------ weekdays

  function DayName(text: string): Option<int> {
    if text == "mon" || text == "monday" then Some(0)
    else if text == "tue" || text == "tuesday" then Some(1)
    else if text == "wed" || text == "wednesday" then Some(2)
    else if text == "thu" || text == "thursday" then Some(3)
    else if text == "fri" || text == "friday" then Some(4)
    else if text == "sat" || text == "saturday" then Some(5)
    else if text == "sun" || text == "sunday" then Some(6)
    else None
  }

  /** The seven names, in full and with three letters, in the order of the week. */
  const LONG_NAMES: seq<string> := ["monday", "tuesday", "wednesday", "thursday", "friday", "saturday", "sunday"]
  const SHORT_NAMES: seq<string> := ["mon", "tue", "wed", "thu", "fri", "sat", "sun"]

  /** A text is a day's name exactly when it stands at the day's place in one of the lists. */
  lemma DayNameExactly(text: string, day: int)
    ensures DayName(text) == Some(day) <==> 0 <= day <= 6 && (text == LONG_NAMES[day] || text == SHORT_NAMES[day])
  {
    assert |LONG_NAMES[0]| == 6 && |LONG_NAMES[1]| == 7 && |LONG_NAMES[2]| == 9 && |LONG_NAMES[3]| == 8;
    assert |LONG_NAMES[4]| == 6 && |LONG_NAMES[5]| == 8 && |LONG_NAMES[6]| == 6;
    assert LONG_NAMES[0][0] == 'm' && LONG_NAMES[4][0] == 'f' && LONG_NAMES[6][0] == 's' && LONG_NAMES[3][0] == 't' && LONG_NAMES[5][0] == 's';
    assert forall d :: 0 <= d <= 6 ==> SHORT_NAMES[d] == LONG_NAMES[d][..3];
  }

  /** The weekday that an item of the list names, Monday being 0. */
  function DayOf(item: string): Option<int> {
    var text := Lower(Strip(item));
    if text == "" then None
    else
      var day := if DayName(text).Some? then DayName(text) else ReadInt(text);
      if day.Some? && 0 <= day.value <= 6 then day else None
  }

  function InsertDay(day: int, days: seq<int>): seq<int> {
    if days == [] || day <= days[0] then [day] + days else [days[0]] + InsertDay(day, days[1..])
  }

  /** The days that the items name, in order and once each. */
  function NamedDays(items: seq<string>): seq<int> {
    if items == [] then []
    else
      var before := NamedDays(items[..|items| - 1]);
      var day := DayOf(items[|items| - 1]);
      if day.None? || day.value in before then before else InsertDay(day.value, before)
  }

  predicate Increasing(days: seq<int>) {
    forall i, j :: 0 <= i < j < |days| ==> days[i] < days[j]
  }

  predicate AllWeekdays(days: seq<int>) {
    forall i :: 0 <= i < |days| ==> 0 <= days[i] <= 6
  }

  predicate ValidDays(days: seq<int>) {
    days != [] && Increasing(days) && AllWeekdays(days)
  }

  /** What _normalize_weekdays answers for a list of items. */
  function WeekdaysOf(items: seq<string>): Result<seq<int>, TextError> {
    if NamedDays(items) == [] then Failure(NoWeekday) else Success(NamedDays(items))
  }

  lemma {:induction false} InsertDayOk(day: int, days: seq<int>)
    requires Increasing(days) && day !in days
    ensures forall d :: d in InsertDay(day, days) <==> d == day || d in days
    ensures Increasing(InsertDay(day, days))
  {
    if days != [] && day > days[0] {
      assert days == [days[0]] + days[1..];
      InsertDayOk(day, days[1..]);
      var rest := InsertDay(day, days[1..]);
      assert forall k :: 0 <= k < |rest| ==> rest[k] in rest;
    } else if days != [] {
      assert day < days[0];
    }
  }

  predicate Names(items: seq<string>, d: int) {
    exists i :: 0 <= i < |items| && DayOf(items[i]) == Some(d)
  }

  lemma NamesStep(items: seq<string>, last: string, d: int)
    ensures Names(items + [last], d) <==> Names(items, d) || DayOf(last) == Some(d)
  {
    var longer := items + [last];
    assert longer[|items|] == last;
    assert forall i :: 0 <= i < |items| ==> longer[i] == items[i];
    if Names(items, d) {
      var i :| 0 <= i < |items| && DayOf(items[i]) == Some(d);
      assert DayOf(longer[i]) == Some(d);
    }
  }

  lemma {:induction false} NamedDaysOk(items: seq<string>)
    ensures Increasing(NamedDays(items))
    ensures forall d :: d in NamedDays(items) <==> Names(items, d)
  {
    if items != [] {
      var before, day := NamedDays(items[..|items| - 1]), DayOf(items[|items| - 1]);
      NamedDaysOk(items[..|items| - 1]);
      if day.Some? && day.value !in before {
        InsertDayOk(day.value, before);
      }
      var last := items[|items| - 1];
      assert items == items[..|items| - 1] + [last];
      forall d
        ensures d in NamedDays(items) <==> Names(items, d)
      {
        NamesStep(items[..|items| - 1], last, d);
      }
    }
  }

  /** The answer holds exactly the days that some item names, in order; it fails exactly when no item names one. */
  lemma WeekdaysOfOk(items: seq<string>)
    ensures WeekdaysOf(items).Success? ==> ValidDays(WeekdaysOf(items).value)
    ensures WeekdaysOf(items).Success? ==> forall d :: d in WeekdaysOf(items).value <==> Names(items, d)
    ensures WeekdaysOf(items).Failure? <==> forall d :: !Names(items, d)
  {
    NamedDaysOk(items);
    var days := NamedDays(items);
    forall k | 0 <= k < |days|
      ensures 0 <= days[k] <= 6 && Names(items, days[k])
    {
      assert days[k] in days;
    }
    assert days != [] ==> Names(items, days[0]);
    assert days == [] ==> forall d :: d !in days;
  }

  /** Two increasing lists with the same days are the same list. */
  lemma SameDays(a: seq<int>, b: seq<int>)
    requires Increasing(a) && Increasing(b) && forall d :: d in a <==> d in b
    ensures a == b
  {
    assert (forall d :: d in a ==> d in b) && (forall d :: d in b ==> d in a);
    SortedIsUnique(a, b, (x: int, y: int) => x < y);
  }

  /** split(",") after semicolons have been replaced. */
  function SplitList(s: string): (parts: seq<string>)
    ensures parts != []
  {
    if s == "" then [""]
    else
      var rest := SplitList(s[1..]);
      if s[0] == ',' || s[0] == ';' then [""] + rest else [[s[0]] + rest[0]] + rest[1..]
  }

  /** The parts with commas between them. */
  function Glue(parts: seq<string>): string
    requires parts != []
  {
    if |parts| == 1 then parts[0] else parts[0] + "," + Glue(parts[1..])
  }

  function CommaFor(c: char): char {
    if c == ';' then ',' else c
  }

  /** A text is cut at every comma and semicolon and nowhere else. */
  lemma {:induction false} SplitsAtSeparators(s: string)
    ensures |Glue(SplitList(s))| == |s| && forall i :: 0 <= i < |s| ==> Glue(SplitList(s))[i] == CommaFor(s[i])
    ensures forall part :: part in SplitList(s) ==> ',' !in part && ';' !in part
  {
    if s != "" {
      SplitsAtSeparators(s[1..]);
      var rest := SplitList(s[1..]);
      if s[0] == ',' || s[0] == ';' {
        assert ([""] + rest)[1..] == rest;
        assert Glue(SplitList(s)) == "," + Glue(rest);
      } else {
        GlueHead(s[0], rest);
        assert rest[0] in rest && forall part :: part in rest[1..] ==> part in rest;
      }
      assert forall i :: 1 <= i < |s| ==> s[i] == s[1..][i - 1];
    }
  }

  lemma GlueHead(c: char, parts: seq<string>)
    requires parts != []
    ensures Glue([[c] + parts[0]] + parts[1..]) == [c] + Glue(parts)
  {
    var longer := [[c] + parts[0]] + parts[1..];
    assert longer[1..] == parts[1..];
    if |parts| > 1 {
      Associate([c], parts[0], ",");
      Associate([c], parts[0] + ",", Glue(parts[1..]));
    }
  }

  /** ",".join(str(day) for day in days), the stored form. */
  function Join(days: seq<int>): string
    requires AllWeekdays(days)
  {
    if days == [] then ""
    else if |days| == 1 then [Digit(days[0])]
    else [Digit(days[0])] + "," + Join(days[1..])
  }

  function WeekdaysOfText(text: string): Result<seq<int>, TextError> {
    WeekdaysOf(SplitList(text))
  }

  lemma {:induction false} SplitJoined(days: seq<int>)
    requires days != [] && AllWeekdays(days)
    ensures |SplitList(Join(days))| == |days|
    ensures forall i :: 0 <= i < |days| ==> SplitList(Join(days))[i] == [Digit(days[i])]
  {
    var s := Join(days);
    if |days| == 1 {
      assert s[1..] == "";
      assert SplitList(s) == [[s[0]] + ""];
    } else {
      SplitJoined(days[1..]);
      assert s[1..][0] == ',' && s[1..][1..] == Join(days[1..]);
      assert SplitList(s[1..]) == [""] + SplitList(Join(days[1..]));
      assert SplitList(s) == [[s[0]] + ""] + SplitList(Join(days[1..]));
    }
  }

  lemma DayOfDigit(d: int)
    requires 0 <= d <= 6
    ensures DayOf([Digit(d)]) == Some(d)
  {
    var s := [Digit(d)];
    assert Strip(s) == s && s[1..] == "";
    assert Lower(s) == s;
    assert ReadNat(s) == Some(d);
  }

  lemma JoinedNames(days: seq<int>, d: int)
    requires ValidDays(days)
    ensures Names(SplitList(Join(days)), d) <==> d in days
  {
    var parts := SplitList(Join(days));
    SplitJoined(days);
    forall i | 0 <= i < |days|
      ensures DayOf(parts[i]) == Some(days[i])
    {
      DayOfDigit(days[i]);
    }
    if d in days {
      var i :| 0 <= i < |days| && days[i] == d;
      assert DayOf(parts[i]) == Some(d);
    }
  }

  /** The stored weekday list reads back as the same days. */
  lemma WeekdaysRoundTrip(days: seq<int>)
    requires ValidDays(days)
    ensures WeekdaysOfText(Join(days)) == Success(days)
  {
    var parts := SplitList(Join(days));
    NamedDaysOk(parts);
    forall d
      ensures d in NamedDays(parts) <==> d in days
    {
      JoinedNames(days, d);
    }
    SameDays(NamedDays(parts), days);
  }

  /** The loop over the items: keeps each named day the first time, then sorts. */
  method NormalizeWeekdays(items: seq<string>) returns (answer: Result<seq<int>, TextError>)
    ensures answer == WeekdaysOf(items)
  {
    var weekdays: seq<int> := [];
    for i := 0 to |items|
      invariant forall d :: d in weekdays <==> d in NamedDays(items[..i])
      invariant forall a, b :: 0 <= a < b < |weekdays| ==> weekdays[a] != weekdays[b]
    {
      NamedDaysStep(items, i);
      var day := DayOf(items[i]);
      if day.Some? && day.value !in weekdays {
        weekdays := weekdays + [day.value];
      }
    }
    assert items[..|items|] == items;
    assert forall d :: d in weekdays <==> d in NamedDays(items);
    NamedDaysOk(items);
    if weekdays == [] {
      SameDays(NamedDays(items), []);
      return Failure(NoWeekday);
    }
    assert weekdays[0] in weekdays;
    var sorted := SortDays(weekdays);
    SameDays(sorted, NamedDays(items));
    return Success(sorted);
  }

  method SortDays(days: seq<int>) returns (sorted: seq<int>)
    requires forall a, b :: 0 <= a < b < |days| ==> days[a] != days[b]
    ensures Increasing(sorted) && forall d :: d in sorted <==> d in days
  {
    sorted := [];
    for i := 0 to |days|
      invariant forall d :: d in sorted <==> d in days[..i]
      invariant Increasing(sorted)
    {
      assert days[..i + 1] == days[..i] + [days[i]];
      InsertDayOk(days[i], sorted);
      sorted := InsertDay(days[i], sorted);
    }
    assert days[..|days|] == days;
  }

  lemma NamedDaysStep(items: seq<string>, i: nat)
    requires i < |items|
    ensures forall d :: d in NamedDays(items[..i + 1]) <==> d in NamedDays(items[..i]) || DayOf(items[i]) == Some(d)
  {
    assert items[..i + 1][..i] == items[..i];
    NamedDaysOk(items[..i]);
    var before, day := NamedDays(items[..i]), DayOf(items[i]);
    if day.Some? && day.value !in before {
      InsertDayOk(day.value, before);
    }
  }
}
