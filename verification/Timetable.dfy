/**
 Weekly schedules of groups and the check that keeps two lessons of a group or
 a teacher from sharing a minute.  Dates are day numbers counted from
 1 January of year 1, minutes count from midnight.
 */
module Timetable {
  import opened Wrappers
  import opened TimetableTexts
  import opened Numbers

  type Date = int

  /** date.weekday(), Monday being 0. */
  function Weekday(d: Date): int {
    (d + 6) % 7
  }

  /**
   A stored rule.  firstLesson is the date from which lessons were generated,
   free the dates that the generation left out; startDate is what the table
   keeps.  Teacher 0 stands for none.
   */
  datatype Rule = Rule(
    id: nat, group: nat, teacher: nat, weekdays: string,
    startDate: Date, endDate: Date, firstLesson: Date, free: set<Date>, start: nat, end: nat, active: bool)

  /** closed holds the dates on which a group gets no lesson: its cancelled slots and the school's closures. */
  datatype Table = Table(rules: seq<Rule>, nextId: nat, activeGroups: set<nat>, closed: map<nat, set<Date>>)

  function ClosedFor(t: Table, group: nat): set<Date> {
    if group in t.closed then t.closed[group] else {}
  }

  /** A checked request: one candidate rule for one group, without lessons on the blocked dates. */
  datatype Wanted = Wanted(
    group: nat, teacher: nat, days: seq<int>, startDate: Date, endDate: Date, blocked: set<Date>, start: nat, end: nat)

  datatype Refusal =
    | UnknownGroup
    | ScopeMissing
    | BadText(error: TextError)
    | BadDuration
    | PastMidnight
    | EndsBeforeStart
    | TooLong
    | NoTeachingDay
    | GroupBusy(group: nat)
    | TeacherBusy(teacher: nat)

  // ------------------------------------------------------- lessons and clashes

  function Days(r: Rule): seq<int> {
    var days := WeekdaysOfText(r.weekdays);
    if days.Success? then days.value else []
  }

  predicate LessonDay(r: Rule, d: Date) {
    r.firstLesson <= d <= r.endDate && Weekday(d) in Days(r) && d !in r.free
  }

  /** The rule has a lesson in progress at that minute of that date. */
  predicate Teaches(r: Rule, d: Date, m: int) {
    LessonDay(r, d) && r.start <= m < r.end
  }

  predicate Rivals(a: Rule, b: Rule) {
    a.group == b.group || (a.teacher > 0 && a.teacher == b.teacher)
  }

  predicate Live(t: Table, r: Rule) {
    r.active && r.group in t.activeGroups
  }

  predicate MeetAt(a: Rule, b: Rule, d: Date, m: int) {
    Teaches(a, d, m) && Teaches(b, d, m)
  }

  ghost predicate Clash(a: Rule, b: Rule) {
    exists d: Date, m: int :: MeetAt(a, b, d, m)
  }

  /** No group and no teacher has two lessons in the same minute. */
  ghost predicate Safe(t: Table) {
    forall a, b :: a in t.rules && b in t.rules && a.id != b.id && Live(t, a) && Live(t, b) && Rivals(a, b)
                   ==> !Clash(a, b)
  }

  /** No lesson of the rule comes before its stored range. */
  ghost predicate InRange(r: Rule) {
    forall d, m :: Teaches(r, d, m) ==> r.startDate <= d
  }

  ghost predicate Covered(t: Table) {
    forall r :: r in t.rules && Live(t, r) ==> InRange(r)
  }

  predicate RuleOk(r: Rule) {
    WeekdaysOfText(r.weekdays).Success? && r.start < r.end < 24 * 60
  }

  predicate DistinctRules(rules: seq<Rule>) {
    forall i, j :: 0 <= i < j < |rules| ==> rules[i].id != rules[j].id
  }

  predicate TableOk(t: Table) {
    (forall r :: r in t.rules ==> RuleOk(r) && r.id < t.nextId) && DistinctRules(t.rules)
  }

  ghost predicate Inv(t: Table) {
    TableOk(t) && Covered(t) && Safe(t)
  }

  // ------------------------------------------------------------- the coarse test

  predicate DatesOverlap(a: Date, aEnd: Date, b: Date, bEnd: Date) {
    a <= bEnd && b <= aEnd
  }

  predicate TimesOverlap(a: int, aEnd: int, b: int, bEnd: int) {
    a < bEnd && b < aEnd
  }

  predicate ShareDay(a: seq<int>, b: seq<int>) {
    exists d :: d in a && d in b
  }

  /** Weekday sets, date ranges and time ranges all meet. */
  predicate Overlaps(w: Wanted, r: Rule) {
    && ShareDay(w.days, Days(r))
    && DatesOverlap(w.startDate, w.endDate, r.startDate, r.endDate)
    && TimesOverlap(w.start, w.end, r.start, r.end)
  }

  /** The rows that the check reads: active rules of active groups for the group or the teacher. */
  predicate Consulted(t: Table, w: Wanted, r: Rule, exclude: Option<nat>) {
    && Live(t, r)
    && (r.group == w.group || (w.teacher > 0 && r.teacher == w.teacher))
    && Some(r.id) != exclude
  }

  function BusyWith(w: Wanted, r: Rule): Refusal {
    if r.group == w.group then GroupBusy(w.group) else TeacherBusy(w.teacher)
  }

  /** The first consulted rule that overlaps, or the first whose weekdays cannot be read. */
  function ConflictOf(t: Table, rules: seq<Rule>, w: Wanted, exclude: Option<nat>): Result<Option<Refusal>, TextError> {
    if rules == [] then Success(None)
    else if !Consulted(t, w, rules[0], exclude) then ConflictOf(t, rules[1..], w, exclude)
    else if WeekdaysOfText(rules[0].weekdays).Failure? then Failure(WeekdaysOfText(rules[0].weekdays).error)
    else if Overlaps(w, rules[0]) then Success(Some(BusyWith(w, rules[0])))
    else ConflictOf(t, rules[1..], w, exclude)
  }

  predicate Obstructs(t: Table, w: Wanted, exclude: Option<nat>, r: Rule) {
    Consulted(t, w, r, exclude) && Overlaps(w, r)
  }

  /** No message exactly when no consulted rule overlaps; a message names a resource that one occupies. */
  lemma {:induction false} ConflictOfExactly(t: Table, rules: seq<Rule>, w: Wanted, exclude: Option<nat>)
    requires forall r :: r in rules ==> RuleOk(r)
    ensures ConflictOf(t, rules, w, exclude).Success?
    ensures var busy := ConflictOf(t, rules, w, exclude).value;
            && (busy.None? <==> forall r :: r in rules ==> !Obstructs(t, w, exclude, r))
            && (busy.Some? ==> exists r :: r in rules && Obstructs(t, w, exclude, r) && busy.value == BusyWith(w, r))
  {
    if rules != [] {
      var rest := rules[1..];
      assert forall r :: r in rules <==> r == rules[0] || r in rest;
      assert RuleOk(rules[0]);
      ConflictOfExactly(t, rest, w, exclude);
      ConflictStep(t, rules, w, exclude);
    }
  }

  lemma ConflictStep(t: Table, rules: seq<Rule>, w: Wanted, exclude: Option<nat>)
    requires rules != [] && RuleOk(rules[0])
    ensures ConflictOf(t, rules, w, exclude)
            == if Obstructs(t, w, exclude, rules[0]) then Success(Some(BusyWith(w, rules[0])))
               else ConflictOf(t, rules[1..], w, exclude)
  {
  }

  /**
   The scan as the service writes it: every row's stored texts are parsed again
   before they are compared.
   */
  method ScanConflicts(t: Table, w: Wanted, exclude: Option<nat>) returns (answer: Result<Option<Refusal>, TextError>)
    requires forall r :: r in t.rules ==> r.start < 24 * 60 && r.end < 24 * 60
    ensures answer == ConflictOf(t, t.rules, w, exclude)
  {
    for i := 0 to |t.rules|
      invariant ConflictOf(t, t.rules, w, exclude) == ConflictOf(t, t.rules[i..], w, exclude)
    {
      var row := t.rules[i];
      assert t.rules[i..][1..] == t.rules[i + 1..];
      assert row in t.rules;
      if !Consulted(t, w, row, exclude) {
        continue;
      }
      var otherDays := NormalizeWeekdays(SplitList(row.weekdays));
      if otherDays.Failure? {
        return Failure(otherDays.error);
      }
      assert Days(row) == otherDays.value;
      if !ShareDay(w.days, otherDays.value) {
        continue;
      }
      if !DatesOverlap(w.startDate, w.endDate, row.startDate, row.endDate) {
        continue;
      }
      TimeRoundTrip(row.start);
      TimeRoundTrip(row.end);
      var otherStart, otherEnd := TimeToMinutes(PrintTime(row.start)), TimeToMinutes(PrintTime(row.end));
      if !TimesOverlap(w.start, w.end, otherStart.value, otherEnd.value) {
        continue;
      }
      return Success(Some(BusyWith(w, row)));
    }
    return Success(None);
  }

  /** The rule that the service would store, teaching from a given date. */
  function RuleFor(w: Wanted, id: nat, launch: Date): Rule
    requires AllWeekdays(w.days)
  {
    Rule(id, w.group, w.teacher, Join(w.days), launch, w.endDate, w.startDate, w.blocked, w.start, w.end, true)
  }

  predicate WantedOk(w: Wanted) {
    ValidDays(w.days) && w.start < w.end < 24 * 60
  }

  /** The rule teaches what was wanted, wherever its stored range begins. */
  predicate Realises(own: Rule, w: Wanted) {
    && Days(own) == w.days && own.firstLesson == w.startDate && own.endDate == w.endDate && own.free == w.blocked
    && own.start == w.start && own.end == w.end
  }

  lemma RuleForRealises(w: Wanted, id: nat, launch: Date)
    requires WantedOk(w)
    ensures Realises(RuleFor(w, id, launch), w) && RuleOk(RuleFor(w, id, launch))
  {
    WeekdaysRoundTrip(w.days);
  }

  lemma ClashSymmetric(a: Rule, b: Rule)
    ensures Clash(a, b) <==> Clash(b, a)
  {
    if Clash(a, b) {
      var d: Date, m: int :| MeetAt(a, b, d, m);
      assert MeetAt(b, a, d, m);
    }
    if Clash(b, a) {
      var d: Date, m: int :| MeetAt(b, a, d, m);
      assert MeetAt(a, b, d, m);
    }
  }

  lemma MeetingShares(a: Rule, b: Rule, d: Date, m: int)
    requires MeetAt(a, b, d, m)
    ensures ShareDay(Days(a), Days(b))
  {
    assert Weekday(d) in Days(a) && Weekday(d) in Days(b);
  }

  /** The coarse test sees every real clash with a rule whose lessons lie in its stored range. */
  lemma ClashIsOverlap(w: Wanted, own: Rule, r: Rule)
    requires Realises(own, w) && InRange(r) && Clash(own, r)
    ensures Overlaps(w, r)
  {
    var d: Date, m: int :| MeetAt(own, r, d, m);
    assert Teaches(r, d, m);
    MeetingShares(own, r, d, m);
  }

  /** Any seven consecutive days hold every weekday. */
  lemma EveryWeekday(from: Date, day: int) returns (d: Date)
    requires 0 <= day <= 6
    ensures from <= d <= from + 6 && Weekday(d) == day
  {
    d := from + (day - Weekday(from)) % 7;
    assert Weekday(d) == day by {
      assert (from + 6 + (day - (from + 6) % 7) % 7) % 7 == day;
    }
  }

  /** The days that both date ranges hold. */
  function SharedDays(w: Wanted, r: Rule): int {
    Min(w.endDate, r.endDate) - Max(w.startDate, r.startDate) + 1
  }

  /** A date on which both rules have a lesson, read off their fields. */
  predicate CommonDate(a: Rule, b: Rule, d: Date) {
    && Max(a.firstLesson, b.firstLesson) <= d <= Min(a.endDate, b.endDate)
    && Weekday(d) in Days(a) && Weekday(d) in Days(b) && d !in a.free && d !in b.free
  }

  ghost predicate ShareDate(a: Rule, b: Rule) {
    exists d :: CommonDate(a, b, d)
  }

  /** Two rules clash exactly when their times overlap and some open date of both has a weekday of both. */
  lemma ClashOnFields(a: Rule, b: Rule)
    requires a.start < a.end && b.start < b.end
    ensures Clash(a, b) <==> TimesOverlap(a.start, a.end, b.start, b.end) && ShareDate(a, b)
  {
    if Clash(a, b) {
      var d: Date, m: int :| MeetAt(a, b, d, m);
      MeetingFields(a, b, d, m);
    }
    if TimesOverlap(a.start, a.end, b.start, b.end) && ShareDate(a, b) {
      var d :| CommonDate(a, b, d);
      FieldsMeet(a, b, d, if a.start < b.start then b.start else a.start);
    }
  }

  lemma MeetingFields(a: Rule, b: Rule, d: Date, m: int)
    requires MeetAt(a, b, d, m)
    ensures CommonDate(a, b, d) && TimesOverlap(a.start, a.end, b.start, b.end)
  {
  }

  lemma FieldsMeet(a: Rule, b: Rule, d: Date, m: int)
    requires CommonDate(a, b, d) && a.start <= m < a.end && b.start <= m < b.end
    ensures MeetAt(a, b, d, m)
  {
  }

  /** For all ranges: a reported overlap is a real clash exactly when some shared date has a shared weekday. */
  lemma ClashExactly(w: Wanted, own: Rule, r: Rule)
    requires WantedOk(w) && RuleOk(r) && Realises(own, w) && InRange(r)
    ensures Clash(own, r) <==> Overlaps(w, r) && ShareDate(own, r)
  {
    ClashOnFields(own, r);
    if Clash(own, r) {
      ClashIsOverlap(w, own, r);
    }
  }

  /** A date of both ranges with a weekday of both. */
  predicate SharedSlot(w: Wanted, r: Rule, d: Date) {
    && Max(w.startDate, r.startDate) <= d <= Min(w.endDate, r.endDate)
    && Weekday(d) in w.days && Weekday(d) in Days(r)
  }

  /**
   Conversely, when the ranges share at least seven days and the other rule
   teaches from its stored start, a reported overlap has a concrete date: both
   rules have a lesson then, at overlapping times, unless one leaves it out.
   */
  lemma LongOverlapHasDate(w: Wanted, own: Rule, r: Rule) returns (d: Date)
    requires WantedOk(w) && RuleOk(r) && Realises(own, w) && r.firstLesson == r.startDate
    requires Overlaps(w, r) && SharedDays(w, r) >= 7
    ensures SharedSlot(w, r, d) && TimesOverlap(w.start, w.end, r.start, r.end)
    ensures d !in w.blocked && d !in r.free ==> Clash(own, r)
  {
    var day :| day in w.days && day in Days(r);
    d := EveryWeekday(Max(w.startDate, r.startDate), day);
    ClashOnFields(own, r);
    assert d !in w.blocked && d !in r.free ==> CommonDate(own, r, d);
  }

  /** So without left-out dates seven shared days make every reported overlap a real clash. */
  lemma LongOverlapIsClash(w: Wanted, own: Rule, r: Rule)
    requires WantedOk(w) && RuleOk(r) && Realises(own, w) && r.firstLesson == r.startDate
    requires Overlaps(w, r) && SharedDays(w, r) >= 7
    requires forall d :: SharedSlot(w, r, d) ==> d !in w.blocked && d !in r.free
    ensures Clash(own, r)
  {
    var d := LongOverlapHasDate(w, own, r);
  }

  lemma FirstWeek(d: Date)
    requires 1 <= d <= 7
    ensures Weekday(d) == d - 1
  {
  }

  /** Seven is the least such number: with any smaller one a report can be false. */
  lemma ShortOverlapNeedNotClash(n: int) returns (w: Wanted, r: Rule)
    requires 1 <= n <= 6
    ensures WantedOk(w) && RuleOk(r) && r.firstLesson == r.startDate
    ensures Overlaps(w, r) && SharedDays(w, r) == n && !Clash(RuleFor(w, 1, w.startDate), r)
  {
    var days := [n];
    w := Wanted(1, 1, days, 1, n, {}, 540, 620);
    r := Rule(0, 1, 1, Join(days), 1, n, 1, {}, 540, 620, true);
    WeekdaysRoundTrip(days);
    assert n in w.days && n in Days(r);
    RuleForRealises(w, 1, w.startDate);
    ClashOnFields(RuleFor(w, 1, w.startDate), r);
    if ShareDate(RuleFor(w, 1, w.startDate), r) {
      var d :| CommonDate(RuleFor(w, 1, w.startDate), r, d);
      FirstWeek(d);
    }
  }

  // ------------------------------------------------------------- teaching dates

  predicate Teachable(d: Date, days: seq<int>, blocked: set<Date>) {
    Weekday(d) in days && d !in blocked
  }

  /** All teaching dates of a range, in order. */
  function DatesIn(from: Date, stop: Date, days: seq<int>, blocked: set<Date>): seq<Date>
    decreases stop - from
  {
    if from > stop then []
    else (if Teachable(from, days, blocked) then [from] else []) + DatesIn(from + 1, stop, days, blocked)
  }

  function LastDate(start: Date, end: Option<Date>): Date {
    if end.Some? && end.value < start + 3660 then end.value else start + 3660
  }

  /** generate_teaching_dates: count 0 asks for all dates up to the end. */
  function Generated(start: Date, count: nat, days: seq<int>, blocked: set<Date>, end: Option<Date>): Option<seq<Date>> {
    var all := DatesIn(start, LastDate(start, end), days, blocked);
    if count == 0 then Some(all) else if |all| < count then None else Some(all[..count])
  }

  /** The dates of the lessons that a wanted slot stands for. */
  function LessonsOf(w: Wanted): seq<Date> {
    DatesIn(w.startDate, w.endDate, w.days, w.blocked)
  }

  lemma {:induction false} DatesInConcat(from: Date, mid: Date, stop: Date, days: seq<int>, blocked: set<Date>)
    requires from <= mid <= stop + 1
    ensures DatesIn(from, stop, days, blocked) == DatesIn(from, mid - 1, days, blocked) + DatesIn(mid, stop, days, blocked)
    decreases mid - from
  {
    if from < mid {
      DatesInConcat(from + 1, mid, stop, days, blocked);
    }
  }

  lemma {:induction false} DatesInOk(from: Date, stop: Date, days: seq<int>, blocked: set<Date>)
    ensures forall i :: 0 <= i < |DatesIn(from, stop, days, blocked)| ==>
              from <= DatesIn(from, stop, days, blocked)[i] <= stop && Teachable(DatesIn(from, stop, days, blocked)[i], days, blocked)
    ensures forall i, j :: 0 <= i < j < |DatesIn(from, stop, days, blocked)| ==>
              DatesIn(from, stop, days, blocked)[i] < DatesIn(from, stop, days, blocked)[j]
    decreases stop - from
  {
    if from <= stop {
      DatesInOk(from + 1, stop, days, blocked);
    }
  }

  lemma {:induction false} DatesInComplete(from: Date, stop: Date, days: seq<int>, blocked: set<Date>, d: Date)
    requires from <= d <= stop && Teachable(d, days, blocked)
    ensures d in DatesIn(from, stop, days, blocked)
    decreases stop - from
  {
    if from < d {
      DatesInComplete(from + 1, stop, days, blocked, d);
    }
  }

  /** The first of them is the first open date with a taught weekday. */
  lemma FirstLessonIs(w: Wanted)
    requires LessonsOf(w) != []
    ensures var first := LessonsOf(w)[0];
            && w.startDate <= first <= w.endDate && Teachable(first, w.days, w.blocked)
            && forall d :: w.startDate <= d <= w.endDate && Teachable(d, w.days, w.blocked) ==> first <= d
  {
    var dates := LessonsOf(w);
    DatesInOk(w.startDate, w.endDate, w.days, w.blocked);
    forall d | w.startDate <= d <= w.endDate && Teachable(d, w.days, w.blocked)
      ensures dates[0] <= d
    {
      DatesInComplete(w.startDate, w.endDate, w.days, w.blocked, d);
      var k :| 0 <= k < |dates| && dates[k] == d;
    }
  }

  /** The dates are teaching dates of the range, in order, and none before the last one is missed. */
  predicate TeachingDates(start: Date, days: seq<int>, blocked: set<Date>, end: Option<Date>, dates: seq<Date>) {
    && (forall i :: 0 <= i < |dates| ==>
          start <= dates[i] && (end.Some? ==> dates[i] <= end.value) && Teachable(dates[i], days, blocked))
    && (forall i, j :: 0 <= i < j < |dates| ==> dates[i] < dates[j])
    && (dates != [] ==> forall d :: start <= d <= dates[|dates| - 1] && Teachable(d, days, blocked) ==> d in dates)
  }

  lemma GeneratedOk(start: Date, count: nat, days: seq<int>, blocked: set<Date>, end: Option<Date>)
    requires Generated(start, count, days, blocked, end).Some?
    ensures TeachingDates(start, days, blocked, end, Generated(start, count, days, blocked, end).value)
    ensures count > 0 ==> |Generated(start, count, days, blocked, end).value| == count
  {
    DatesInOk(start, LastDate(start, end), days, blocked);
    var dates := Generated(start, count, days, blocked, end).value;
    if dates != [] {
      forall d | start <= d <= dates[|dates| - 1] && Teachable(d, days, blocked)
        ensures d in dates
      {
        NoneMissed(start, count, days, blocked, end, d);
      }
    }
  }

  lemma NoneMissed(start: Date, count: nat, days: seq<int>, blocked: set<Date>, end: Option<Date>, d: Date)
    requires Generated(start, count, days, blocked, end).Some? && Generated(start, count, days, blocked, end).value != []
    requires var dates := Generated(start, count, days, blocked, end).value; start <= d <= dates[|dates| - 1]
    requires Teachable(d, days, blocked)
    ensures d in Generated(start, count, days, blocked, end).value
  {
    var stop := LastDate(start, end);
    var all := DatesIn(start, stop, days, blocked);
    var dates := Generated(start, count, days, blocked, end).value;
    DatesInOk(start, stop, days, blocked);
    assert dates[|dates| - 1] == all[|dates| - 1];
    DatesInComplete(start, stop, days, blocked, d);
    var k :| 0 <= k < |all| && all[k] == d;
    assert k < |dates| && dates[k] == d;
  }

  /** The day-by-day search, which stops as soon as it has enough dates. */
  method GenerateTeachingDates(start: Date, count: nat, days: seq<int>, blocked: set<Date>, end: Option<Date>)
    returns (dates: Option<seq<Date>>)
    ensures dates == Generated(start, count, days, blocked, end)
  {
    var found: seq<Date> := [];
    var cursor := start;
    var limit := start + 3660;
    ghost var stop := LastDate(start, end);
    while (count == 0 || |found| < count) && cursor <= limit
      invariant start <= cursor && (cursor <= stop + 1 || (cursor == start && found == []))
      invariant found == DatesIn(start, cursor - 1, days, blocked)
      invariant count > 0 ==> |found| <= count
      decreases limit - cursor
    {
      if end.Some? && cursor > end.value {
        break;
      }
      DatesInConcat(start, cursor, cursor, days, blocked);
      assert DatesIn(cursor, cursor, days, blocked) == if Teachable(cursor, days, blocked) then [cursor] else [];
      if Teachable(cursor, days, blocked) {
        found := found + [cursor];
      }
      cursor := cursor + 1;
    }
    if cursor <= stop + 1 {
      DatesInConcat(start, cursor, stop, days, blocked);
    }
    if count > 0 && |found| < count {
      return None;
    }
    return Some(found);
  }
}
