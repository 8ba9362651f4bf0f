/**
 The timetable's operations read off requests and tables: when a request or a
 change is refused, which slot it stands for, and what it stores.
 */
module TimetableRules {
  import opened Wrappers
  import opened TimetableTexts
  import opened Timetable
  import opened TimetableRuns

  // ------------------------------------------------------------- teaching dates

  /** Day 1 is a Monday, and the seven weekdays follow each other. */
  lemma WeekdaysFollow(d: Date)
    ensures Weekday(1) == 0 && 0 <= Weekday(d) <= 6
    ensures Weekday(d + 1) == if Weekday(d) == 6 then 0 else Weekday(d) + 1
  {
  }

  /** The dates of a range on a taught weekday, closed ones apart. */
  function OpenDates(from: Date, stop: Date, days: seq<int>, closed: set<Date>): set<Date> {
    set d | from <= d <= stop && Weekday(d) in days && d !in closed
  }

  lemma {:induction false} DatesInAre(from: Date, stop: Date, days: seq<int>, closed: set<Date>)
    ensures |DatesIn(from, stop, days, closed)| == |OpenDates(from, stop, days, closed)|
    ensures forall d :: d in DatesIn(from, stop, days, closed) <==> d in OpenDates(from, stop, days, closed)
    decreases stop - from
  {
    var all := OpenDates(from, stop, days, closed);
    if from > stop {
      assert all == {};
    } else {
      DatesInAre(from + 1, stop, days, closed);
      var rest := OpenDates(from + 1, stop, days, closed);
      if Weekday(from) in days && from !in closed {
        assert all == {from} + rest;
      } else {
        assert all == rest;
      }
    }
  }

  lemma DatesStep(from: Date, stop: Date, days: seq<int>, closed: set<Date>)
    requires from <= stop
    ensures DatesIn(from, stop, days, closed)
            == (if Teachable(from, days, closed) then [from] + DatesIn(from + 1, stop, days, closed) else DatesIn(from + 1, stop, days, closed))
  {
  }

  /** A shorter list of the first dates is the whole list up to its last date. */
  lemma {:induction false} FirstDates(from: Date, stop: Date, days: seq<int>, closed: set<Date>, count: nat)
    requires 0 < count <= |DatesIn(from, stop, days, closed)|
    ensures var all := DatesIn(from, stop, days, closed);
            from <= all[count - 1] <= stop && DatesIn(from, all[count - 1], days, closed) == all[..count]
    decreases stop - from
  {
    assert from <= stop;
    DatesStep(from, stop, days, closed);
    var rest := DatesIn(from + 1, stop, days, closed);
    if !Teachable(from, days, closed) {
      FirstDates(from + 1, stop, days, closed, count);
      DatesStep(from, rest[count - 1], days, closed);
    } else if count > 1 {
      FirstDates(from + 1, stop, days, closed, count - 1);
      DatesStep(from, rest[count - 2], days, closed);
      Prepended(from, rest, count);
    } else {
      DatesStep(from, from, days, closed);
    }
  }

  lemma Prepended(from: Date, rest: seq<Date>, count: nat)
    requires 1 < count <= |rest| + 1
    ensures ([from] + rest)[count - 1] == rest[count - 2] && ([from] + rest)[..count] == [from] + rest[..count - 1]
  {
  }

  lemma EnoughDates(from: Date, last: Date, stop: Date, days: seq<int>, closed: set<Date>)
    requires from <= last <= stop
    ensures |DatesIn(from, stop, days, closed)| >= |DatesIn(from, last, days, closed)|
  {
    DatesInConcat(from, last + 1, stop, days, closed);
  }

  lemma FewerDates(from: Date, stop: Date, last: Date, days: seq<int>, closed: set<Date>)
    requires from <= last && stop < last && Teachable(last, days, closed)
    ensures |DatesIn(from, stop, days, closed)| < |DatesIn(from, last, days, closed)|
  {
    DatesInConcat(from, last, last, days, closed);
    DatesStep(last, last, days, closed);
    if from <= stop {
      EnoughDates(from, stop, last - 1, days, closed);
    }
  }

  /** A range holds enough open dates exactly when the date that makes up the number lies in it. */
  lemma CountedWithin(from: Date, stop: Date, far: Date, days: seq<int>, closed: set<Date>, count: nat)
    requires 0 < count <= |DatesIn(from, far, days, closed)| && stop <= far
    ensures |OpenDates(from, stop, days, closed)| >= count <==> DatesIn(from, far, days, closed)[count - 1] <= stop
  {
    var last := DatesIn(from, far, days, closed)[count - 1];
    FirstDates(from, far, days, closed, count);
    DatesInAre(from, stop, days, closed);
    DatesInOk(from, far, days, closed);
    if last <= stop {
      EnoughDates(from, last, stop, days, closed);
    } else {
      FewerDates(from, stop, last, days, closed);
    }
  }

  /**
   Asked for a number of dates, the search answers exactly when ten years hold
   that many, and its last date is the one that makes up the number; asked for
   none in particular, it answers all dates up to the end.
   */
  lemma GeneratedExactly(start: Date, count: nat, days: seq<int>, closed: set<Date>, end: Option<Date>)
    ensures var far := if end.Some? && end.value < start + 3660 then end.value else start + 3660;
            var dates := Generated(start, count, days, closed, end);
            && (dates.Some? <==> count <= |OpenDates(start, far, days, closed)|)
            && (dates.Some? && count > 0 ==>
                  && |dates.value| == count
                  && (var last := dates.value[count - 1]; last <= far && OpensAt(start, last, days, closed, count)))
            && (count == 0 ==> forall d :: d in dates.value <==> d in OpenDates(start, far, days, closed))
  {
    var far := LastDate(start, end);
    DatesInAre(start, far, days, closed);
    if 0 < count <= |DatesIn(start, far, days, closed)| {
      FirstDates(start, far, days, closed, count);
      DatesInOk(start, far, days, closed);
      DatesInAre(start, DatesIn(start, far, days, closed)[count - 1], days, closed);
    }
  }

  /** The date is open, and makes up that number of open dates from the start. */
  predicate OpensAt(start: Date, last: Date, days: seq<int>, closed: set<Date>, count: nat) {
    last in OpenDates(start, last, days, closed) && |OpenDates(start, last, days, closed)| == count
  }

  // ------------------------------------------------------------------ requests

  function ClosedDates(t: Table, group: nat): set<Date> {
    if group in t.closed then t.closed[group] else {}
  }

  /** The lesson ends after its duration, or at the time that is given instead. */
  predicate EndsAt(req: Request, start: int, end: int) {
    if req.duration == 0 then TimeToMinutes(req.endTime) == Success(end) else end == start + req.duration
  }

  /** The slot that a request stands for. */
  predicate StandsFor(t: Table, req: Request, w: Wanted) {
    && w.group == req.group && w.teacher == req.teacher
    && WeekdaysOf(req.items) == Success(w.days)
    && TimeToMinutes(req.startTime) == Success(w.start) && EndsAt(req, w.start, w.end)
    && w.startDate == req.startDate && w.blocked == ClosedDates(t, req.group)
    && (req.endDate.Some? ==> w.endDate == req.endDate.value)
    && (req.endDate.None? ==> OpensAt(w.startDate, w.endDate, w.days, w.blocked, req.sessions))
  }

  /** No date of the asked range is open, or ten years have fewer than the programme needs. */
  predicate NothingToTeach(t: Table, req: Request) {
    && WeekdaysOf(req.items).Success?
    && var days, closed := WeekdaysOf(req.items).value, ClosedDates(t, req.group);
       if req.endDate.Some? then
         OpenDates(req.startDate, if req.endDate.value < req.startDate + 3660 then req.endDate.value else req.startDate + 3660, days, closed) == {}
       else req.sessions == 0 || |OpenDates(req.startDate, req.startDate + 3660, days, closed)| < req.sessions
  }

  /** The range is longer than a year, or a year has fewer open dates than the programme needs. */
  predicate LongerThanAYear(t: Table, req: Request) {
    if req.endDate.Some? then req.endDate.value > req.startDate + 366
    else
      && WeekdaysOf(req.items).Success?
      && |OpenDates(req.startDate, req.startDate + 366, WeekdaysOf(req.items).value, ClosedDates(t, req.group))| < req.sessions
  }

  /** The lesson's end, when it can be read, does not come after its start. */
  predicate EndsTooEarly(req: Request) {
    && req.duration == 0 && TimeToMinutes(req.startTime).Success? && TimeToMinutes(req.endTime).Success?
    && TimeToMinutes(req.endTime).value <= TimeToMinutes(req.startTime).value
  }

  predicate Unreadable(req: Request, error: TextError) {
    match error
    case NoWeekday => forall d :: 0 <= d <= 6 ==> !Names(req.items, d)
    case NotHourMinute => TimeToMinutes(req.startTime).Failure? || (req.duration == 0 && TimeToMinutes(req.endTime).Failure?)
  }

  /** What stands against a request by itself, whichever check comes first. */
  predicate RequestCause(t: Table, req: Request, e: Refusal) {
    match e
    case BadText(error) => Unreadable(req, error)
    case BadDuration => req.duration != 0 && !(15 <= req.duration <= 240)
    case PastMidnight =>
      req.duration > 0 && TimeToMinutes(req.startTime).Success? && TimeToMinutes(req.startTime).value + req.duration >= 24 * 60
    case UnknownGroup => req.group !in t.activeGroups
    case NoTeachingDay => NothingToTeach(t, req)
    case EndsBeforeStart => (req.endDate.Some? && req.endDate.value < req.startDate) || EndsTooEarly(req)
    case TooLong => LongerThanAYear(t, req)
    case _ => false
  }

  lemma WeekdaysReadable(items: seq<string>)
    ensures WeekdaysOf(items).Failure? <==> forall d :: 0 <= d <= 6 ==> !Names(items, d)
    ensures WeekdaysOf(items).Failure? ==> WeekdaysOf(items).error == NoWeekday
  {
    WeekdaysOfOk(items);
    if WeekdaysOf(items).Success? {
      var days := WeekdaysOf(items).value;
      assert days[0] in days;
    }
  }

  lemma SlotRefused(t: Table, req: Request, e: Refusal)
    ensures SlotOf(req).Failure? ==> RequestCause(t, req, SlotOf(req).error)
    ensures SlotOf(req).Success? ==>
              && !RequestCause(t, req, BadText(NoWeekday)) && !RequestCause(t, req, BadText(NotHourMinute))
              && !RequestCause(t, req, BadDuration) && !RequestCause(t, req, PastMidnight)
              && WeekdaysOf(req.items) == Success(SlotOf(req).value.days)
              && TimeToMinutes(req.startTime) == Success(SlotOf(req).value.start)
              && EndsAt(req, SlotOf(req).value.start, SlotOf(req).value.end)
  {
    WeekdaysReadable(req.items);
  }

  /** The answer of the second half of the validation, given the slot. */
  predicate DatesAnswered(t: Table, req: Request, slot: Slot, w: Result<Wanted, Refusal>) {
    match w
    case Failure(e) => RequestCause(t, req, e)
    case Success(w) =>
      && !NothingToTeach(t, req) && !LongerThanAYear(t, req) && !RequestCause(t, req, EndsBeforeStart)
      && w.days == slot.days && w.start == slot.start && w.end == slot.end
      && w.group == req.group && w.teacher == req.teacher
      && w.startDate == req.startDate && w.blocked == ClosedDates(t, req.group)
      && (req.endDate.Some? ==> w.endDate == req.endDate.value)
      && (req.endDate.None? ==> OpensAt(w.startDate, w.endDate, w.days, w.blocked, req.sessions))
  }

  lemma DatesRefused(t: Table, req: Request, slot: Slot)
    requires SlotOf(req) == Success(slot) && SlotOk(slot)
    ensures var closed := ClosedDates(t, req.group);
            DatesAnswered(t, req, slot, ValidateDates(req, slot, closed, LessonDates(req, slot.days, closed)))
  {
    SlotRefused(t, req, UnknownGroup);
    SlotEnds(req, slot);
    if req.endDate.Some? {
      EndGiven(t, req, slot);
    } else {
      EndPredicted(t, req, slot);
    }
  }

  /** The slot's end comes too early exactly when a given end does; a duration never makes it so. */
  lemma SlotEnds(req: Request, slot: Slot)
    requires SlotOf(req) == Success(slot)
    ensures slot.end <= slot.start <==> EndsTooEarly(req)
  {
  }

  lemma EndGiven(t: Table, req: Request, slot: Slot)
    requires SlotOk(slot) && WeekdaysOf(req.items) == Success(slot.days) && req.endDate.Some? && (slot.end <= slot.start <==> EndsTooEarly(req))
    ensures var closed := ClosedDates(t, req.group);
            DatesAnswered(t, req, slot, ValidateDates(req, slot, closed, LessonDates(req, slot.days, closed)))
  {
    EmptyDates(req, slot.days, ClosedDates(t, req.group));
  }

  lemma EndPredicted(t: Table, req: Request, slot: Slot)
    requires SlotOk(slot) && WeekdaysOf(req.items) == Success(slot.days) && req.endDate.None? && (slot.end <= slot.start <==> EndsTooEarly(req))
    ensures var closed := ClosedDates(t, req.group);
            DatesAnswered(t, req, slot, ValidateDates(req, slot, closed, LessonDates(req, slot.days, closed)))
  {
    var closed := ClosedDates(t, req.group);
    if req.sessions > 0 {
      PredictedDates(req.startDate, req.sessions, slot.days, closed);
    }
  }

  lemma PredictedDates(start: Date, count: nat, days: seq<int>, closed: set<Date>)
    requires count > 0
    ensures var dates := Generated(start, count, days, closed, None);
            && (dates.None? <==> |OpenDates(start, start + 3660, days, closed)| < count)
            && (dates.Some? ==>
                  && |dates.value| == count && start <= dates.value[count - 1]
                  && OpensAt(start, dates.value[count - 1], days, closed, count)
                  && (dates.value[count - 1] <= start + 366 <==> |OpenDates(start, start + 366, days, closed)| >= count))
  {
    GeneratedExactly(start, count, days, closed, None);
    if Generated(start, count, days, closed, None).Some? {
      DatesInAre(start, start + 3660, days, closed);
      FirstDates(start, start + 3660, days, closed, count);
      CountedWithin(start, start + 366, start + 3660, days, closed, count);
    }
  }

  lemma EmptyDates(req: Request, days: seq<int>, closed: set<Date>)
    requires req.endDate.Some?
    ensures var far := if req.endDate.value < req.startDate + 3660 then req.endDate.value else req.startDate + 3660;
            LessonDates(req, days, closed).Some?
            && (LessonDates(req, days, closed).value == [] <==> OpenDates(req.startDate, far, days, closed) == {})
  {
    var far := LastDate(req.startDate, req.endDate);
    DatesInAre(req.startDate, far, days, closed);
    var dates := DatesIn(req.startDate, far, days, closed);
    assert dates != [] ==> dates[0] in OpenDates(req.startDate, far, days, closed);
  }

  /**
   A request is valid exactly when none of the causes stands against it, it is
   refused for one of them, and then stands for the slot that its texts and the
   calendar name.
   */
  lemma ValidExactly(t: Table, req: Request)
    ensures Validate(t, req).Success? <==> forall e :: !RequestCause(t, req, e)
    ensures Validate(t, req).Failure? ==> RequestCause(t, req, Validate(t, req).error)
    ensures Validate(t, req).Success? ==> StandsFor(t, req, Validate(t, req).value)
  {
    SlotRefused(t, req, UnknownGroup);
    if SlotOf(req).Success? && req.group in t.activeGroups {
      SlotOfOk(req);
      DatesRefused(t, req, SlotOf(req).value);
      if Validate(t, req).Success? {
        forall e
          ensures !RequestCause(t, req, e)
        {
          NoOtherCause(t, req, e);
        }
      }
    }
    assert Validate(t, req).Failure? ==> RequestCause(t, req, Validate(t, req).error);
  }

  lemma NoOtherCause(t: Table, req: Request, e: Refusal)
    requires !RequestCause(t, req, BadText(NoWeekday)) && !RequestCause(t, req, BadText(NotHourMinute))
    requires !RequestCause(t, req, BadDuration) && !RequestCause(t, req, PastMidnight) && !RequestCause(t, req, UnknownGroup)
    requires !RequestCause(t, req, NoTeachingDay) && !RequestCause(t, req, EndsBeforeStart) && !RequestCause(t, req, TooLong)
    ensures !RequestCause(t, req, e)
  {
    match e
    case BadText(error) => assert error.NoWeekday? || error.NotHourMinute?;
    case _ =>
  }

  // ----------------------------------------------------------------- conflicts

  /** The newest active rule of the group. */
  predicate Current(rules: seq<Rule>, group: nat, r: Rule) {
    && r in rules && r.active && r.group == group
    && forall o :: o in rules && o.active && o.group == group ==> o.id <= r.id
  }

  predicate HasRule(rules: seq<Rule>, group: nat) {
    exists r :: r in rules && r.active && r.group == group
  }

  predicate SomeNamed(days: seq<int>, items: seq<string>) {
    exists d :: d in days && Names(items, d)
  }

  /** An active rule of an active group, other than the one to be replaced, that the slot runs into. */
  predicate InTheWay(t: Table, w: Wanted, replacing: bool, r: Rule) {
    && r in t.rules && r.active && r.group in t.activeGroups
    && (r.group == w.group || (w.teacher != 0 && r.teacher == w.teacher))
    && !(replacing && Current(t.rules, w.group, r))
    && SomeNamed(w.days, SplitList(r.weekdays))
    && r.startDate <= w.endDate && w.startDate <= r.endDate
    && r.start < w.end && w.start < r.end
  }

  lemma CurrentIsLatest(t: Table, group: nat, r: Rule)
    requires TableOk(t) && r in t.rules
    ensures Current(t.rules, group, r) <==> LatestId(t, group) == Some(r.id)
    ensures HasRule(t.rules, group) <==> LatestRule(t.rules, group).Some?
  {
    LatestRuleIs(t.rules, group);
    var latest := LatestRule(t.rules, group);
    if latest.Some? && (latest.value.id == r.id || Current(t.rules, group, r)) {
      SameRule(t.rules, latest.value, r);
    }
  }

  lemma SameRule(rules: seq<Rule>, a: Rule, b: Rule)
    requires DistinctRules(rules) && a in rules && b in rules && a.id == b.id
    ensures a == b
  {
  }

  lemma InTheWayIs(t: Table, w: Wanted, replacing: bool, r: Rule)
    requires TableOk(t) && r in t.rules
    ensures InTheWay(t, w, replacing, r) <==> Obstructs(t, w, if replacing then LatestId(t, w.group) else None, r)
  {
    CurrentIsLatest(t, w.group, r);
    OverlapsIs(w, r);
  }

  lemma OverlapsIs(w: Wanted, r: Rule)
    requires RuleOk(r)
    ensures Overlaps(w, r)
            <==> && SomeNamed(w.days, SplitList(r.weekdays))
                 && r.startDate <= w.endDate && w.startDate <= r.endDate
                 && r.start < w.end && w.start < r.end
  {
    WeekdaysOfOk(SplitList(r.weekdays));
    SharesNamed(w.days, Days(r), SplitList(r.weekdays));
  }

  lemma SharesNamed(wanted: seq<int>, days: seq<int>, items: seq<string>)
    requires forall d :: d in days <==> Names(items, d)
    ensures ShareDay(wanted, days) <==> SomeNamed(wanted, items)
  {
    if ShareDay(wanted, days) {
      var d :| d in wanted && d in days;
      assert d in wanted && Names(items, d);
    }
    if d :| d in wanted && Names(items, d) {
      assert d in days;
    }
  }

  predicate Blocked(t: Table, w: Wanted, replacing: bool) {
    exists r :: r in t.rules && InTheWay(t, w, replacing, r)
  }

  /** The refusal names the group, or the teacher of another group, that some rule in the way occupies. */
  predicate NamesBusy(t: Table, w: Wanted, replacing: bool, e: Refusal) {
    match e
    case GroupBusy(group) => group == w.group && exists r :: r in t.rules && InTheWay(t, w, replacing, r) && r.group == group
    case TeacherBusy(teacher) =>
      teacher == w.teacher && exists r :: r in t.rules && InTheWay(t, w, replacing, r) && r.group != w.group && r.teacher == teacher
    case _ => false
  }

  lemma CheckedExactly(t: Table, w: Wanted, replacing: bool)
    requires TableOk(t)
    ensures var checked := Checked(t, w, if replacing then LatestId(t, w.group) else None);
            && (checked.Success? <==> !Blocked(t, w, replacing))
            && (checked.Failure? ==> NamesBusy(t, w, replacing, checked.error))
  {
    var existing := if replacing then LatestId(t, w.group) else None;
    ConflictOfExactly(t, t.rules, w, existing);
    CheckedMeans(t, w, existing);
    forall r | r in t.rules
      ensures InTheWay(t, w, replacing, r) <==> Obstructs(t, w, existing, r)
    {
      InTheWayIs(t, w, replacing, r);
    }
  }

  // -------------------------------------------------------- what requests store

  /** The rule stores the slot: its lessons begin with the slot's range and leave out the closed dates. */
  predicate Stores(own: Rule, w: Wanted) {
    && own.active && own.group == w.group && own.teacher == w.teacher
    && WeekdaysOf(SplitList(own.weekdays)) == Success(w.days)
    && own.firstLesson == w.startDate && own.endDate == w.endDate && own.free == w.blocked
    && own.start == w.start && own.end == w.end
  }

  lemma RuleForStores(w: Wanted, id: nat, launch: Date)
    requires WantedOk(w)
    ensures Stores(RuleFor(w, id, launch), w)
  {
    RuleForRealises(w, id, launch);
  }

  /** The group's rule is to be overwritten. */
  predicate Overwrites(t: Table, req: Request) {
    req.replaceExisting && HasRule(t.rules, req.group)
  }

  /**
   A valid request is granted exactly when no rule is in its way, and otherwise
   names the group or teacher that one occupies.  It then stores its slot from
   its start date on: over the group's newest active rule, when that is to be
   replaced, and as a further rule otherwise; nothing else changes.
   */
  lemma RequestExactly(t: Table, req: Request)
    requires TableOk(t) && Validate(t, req).Success?
    ensures var w, result := Validate(t, req).value, Schedule(t, req);
            && (result.Success? <==> !Blocked(t, w, req.replaceExisting))
            && (result.Failure? ==> NamesBusy(t, w, req.replaceExisting, result.error))
    ensures Schedule(t, req).Success? ==>
              var w, after, replacing := Validate(t, req).value, Schedule(t, req).value, Overwrites(t, req);
              && after.activeGroups == t.activeGroups && after.closed == t.closed
              && after.nextId == t.nextId + (if replacing then 0 else 1)
              && |after.rules| == |t.rules| + (if replacing then 0 else 1)
              && (!replacing ==>
                    var own := after.rules[|t.rules|]; own.id == t.nextId && own.startDate == req.startDate && Stores(own, w))
              && forall k :: 0 <= k < |t.rules| ==>
                   if replacing && Current(t.rules, req.group, t.rules[k]) then
                     after.rules[k].id == t.rules[k].id && after.rules[k].startDate == req.startDate && Stores(after.rules[k], w)
                   else after.rules[k] == t.rules[k]
  {
    var w := Validate(t, req).value;
    ValidateOk(t, req);
    CheckedExactly(t, w, req.replaceExisting);
    ValidExactly(t, req);
    HasRuleIs(t, req.group);
    if Schedule(t, req).Success? {
      var after := Schedule(t, req).value;
      forall k | 0 <= k < |t.rules|
        ensures Current(t.rules, req.group, t.rules[k]) <==> LatestId(t, req.group) == Some(t.rules[k].id)
      {
        CurrentIsLatest(t, req.group, t.rules[k]);
      }
      RuleForStores(w, if Replaced(t, req).Some? then Replaced(t, req).value else t.nextId, w.startDate);
    }
  }

  lemma HasRuleIs(t: Table, group: nat)
    ensures HasRule(t.rules, group) <==> LatestId(t, group).Some?
  {
    LatestRuleIs(t.rules, group);
  }

  // ------------------------------------------------------------------- changes

  /** The slot that a change stands for: its lessons from the anchor on, as many as move. */
  predicate ChangeStandsFor(t: Table, change: Change, w: Wanted) {
    && w.group == change.group && w.teacher == change.teacher
    && WeekdaysOf(change.items) == Success(w.days)
    && TimeToMinutes(change.lessonTime) == Success(w.start) && w.end == w.start + change.duration
    && w.startDate == change.anchor && w.blocked == ClosedDates(t, change.group)
    && OpensAt(change.anchor, w.endDate, w.days, w.blocked, change.lessons)
  }

  /** What stands against a change by itself, whichever check comes first. */
  predicate ChangeCause(t: Table, change: Change, e: Refusal) {
    match e
    case BadText(NoWeekday) => forall d :: 0 <= d <= 6 ==> !Names(change.items, d)
    case BadText(NotHourMinute) => TimeToMinutes(change.lessonTime).Failure?
    case BadDuration =>
      || !(15 <= change.duration <= 240)
      || (TimeToMinutes(change.lessonTime).Success? && TimeToMinutes(change.lessonTime).value + change.duration >= 24 * 60)
    case UnknownGroup => change.group !in t.activeGroups
    case ScopeMissing => HasRule(t.rules, change.group) && !change.hasScope
    case NoTeachingDay =>
      || change.lessons == 0
      || (WeekdaysOf(change.items).Success?
          && |OpenDates(change.anchor, change.anchor + 3660, WeekdaysOf(change.items).value, ClosedDates(t, change.group))| < change.lessons)
    case _ => false
  }

  lemma ChangeSlotRefused(t: Table, change: Change)
    ensures var slot := ChangeSlot(change);
            && (slot.Failure? ==> ChangeCause(t, change, slot.error))
            && (slot.Success? ==>
                  && !ChangeCause(t, change, BadText(NoWeekday)) && !ChangeCause(t, change, BadText(NotHourMinute))
                  && !ChangeCause(t, change, BadDuration)
                  && WeekdaysOf(change.items) == Success(slot.value.days) && TimeToMinutes(change.lessonTime) == Success(slot.value.start)
                  && slot.value.end == slot.value.start + change.duration)
  {
    WeekdaysReadable(change.items);
  }

  lemma NoOtherChangeCause(t: Table, change: Change, e: Refusal)
    requires !ChangeCause(t, change, BadText(NoWeekday)) && !ChangeCause(t, change, BadText(NotHourMinute))
    requires !ChangeCause(t, change, BadDuration) && !ChangeCause(t, change, UnknownGroup)
    requires !ChangeCause(t, change, ScopeMissing) && !ChangeCause(t, change, NoTeachingDay)
    ensures !ChangeCause(t, change, e)
  {
    match e
    case BadText(error) => assert error.NoWeekday? || error.NotHourMinute?;
    case _ =>
  }

  lemma ChangeDates(t: Table, change: Change, days: seq<int>)
    requires WeekdaysOf(change.items) == Success(days) && change.lessons > 0
    ensures var dates := MovedDates(t, change, days);
            && (dates.None? <==> ChangeCause(t, change, NoTeachingDay))
            && (dates.Some? ==>
                  && |dates.value| == change.lessons
                  && OpensAt(change.anchor, dates.value[change.lessons - 1], days, ClosedDates(t, change.group), change.lessons))
  {
    PredictedDates(change.anchor, change.lessons, days, ClosedDates(t, change.group));
  }

  lemma ChangeAnswered(t: Table, change: Change)
    ensures ValidateChange(t, change).Failure? ==> ChangeCause(t, change, ValidateChange(t, change).error)
    ensures ValidateChange(t, change).Success? ==>
              && ChangeStandsFor(t, change, ValidateChange(t, change).value)
              && !ChangeCause(t, change, UnknownGroup) && !ChangeCause(t, change, ScopeMissing) && !ChangeCause(t, change, NoTeachingDay)
  {
    ChangeSlotRefused(t, change);
    HasRuleIs(t, change.group);
    if ChangeSlot(change).Success? && change.lessons > 0 {
      ChangeDates(t, change, ChangeSlot(change).value.days);
    }
  }

  /** A change is valid exactly when none of the causes stands against it, and is refused for one of them otherwise. */
  lemma ChangeValidExactly(t: Table, change: Change)
    ensures ValidateChange(t, change).Success? <==> forall e :: !ChangeCause(t, change, e)
    ensures ValidateChange(t, change).Failure? ==> ChangeCause(t, change, ValidateChange(t, change).error)
    ensures ValidateChange(t, change).Success? ==> ChangeStandsFor(t, change, ValidateChange(t, change).value)
  {
    ChangeAnswered(t, change);
    if ValidateChange(t, change).Success? {
      ChangeSlotRefused(t, change);
      forall e
        ensures !ChangeCause(t, change, e)
      {
        NoOtherChangeCause(t, change, e);
      }
    }
  }

  /**
   A valid change is granted exactly when no rule but the group's newest active
   one is in its way.  It then stores its slot as a further rule and cancels
   that newest one.  The new rule starts on the launch date that the caller
   gives when the group had no active rule or the caller may choose, and
   otherwise where the cancelled rule started.
   */
  lemma ChangeExactly(t: Table, change: Change)
    requires TableOk(t) && ValidateChange(t, change).Success?
    ensures var w, result := ValidateChange(t, change).value, Reschedule(t, change);
            && (result.Success? <==> !Blocked(t, w, true))
            && (result.Failure? ==> NamesBusy(t, w, true, result.error))
    ensures Reschedule(t, change).Success? ==>
              var w, after := ValidateChange(t, change).value, Reschedule(t, change).value;
              && after.activeGroups == t.activeGroups && after.closed == t.closed && after.nextId == t.nextId + 1
              && |after.rules| == |t.rules| + 1
              && (var own := after.rules[|t.rules|];
                  && own.id == t.nextId && Stores(own, w)
                  && (!HasRule(t.rules, change.group) || change.allowLaunchChange ==> own.startDate == change.launch)
                  && (!change.allowLaunchChange ==> forall r :: Current(t.rules, change.group, r) ==> own.startDate == r.startDate))
              && forall k :: 0 <= k < |t.rules| ==>
                   after.rules[k] == if Current(t.rules, change.group, t.rules[k]) then t.rules[k].(active := false) else t.rules[k]
  {
    var w := ValidateChange(t, change).value;
    ValidateChangeOk(t, change);
    CheckedExactly(t, w, true);
    HasRuleIs(t, change.group);
    if Reschedule(t, change).Success? {
      forall r | r in t.rules
        ensures Current(t.rules, change.group, r) <==> LatestId(t, change.group) == Some(r.id)
        ensures Current(t.rules, change.group, r) ==> LatestRule(t.rules, change.group) == Some(r)
      {
        CurrentIsLatest(t, change.group, r);
        LatestRuleIs(t.rules, change.group);
        if Current(t.rules, change.group, r) {
          SameRule(t.rules, LatestRule(t.rules, change.group).value, r);
        }
      }
      RuleForStores(w, t.nextId, LaunchOf(t, change));
      LatestRuleIs(t.rules, change.group);
      assert LatestId(t, change.group).Some? ==> LatestId(t, change.group).value < t.nextId;
    }
  }

  /** Opening, archiving and closing dates touch their own group alone; only a group without any rule can be opened. */
  lemma GroupsExactly(t: Table, group: nat, dates: set<Date>, g: nat)
    ensures OpenGroup(t, group).rules == t.rules && Archive(t, group).rules == t.rules && SetClosed(t, group, dates).rules == t.rules
    ensures g in OpenGroup(t, group).activeGroups
            <==> g in t.activeGroups || (g == group && forall r :: r in t.rules ==> r.group != group)
    ensures g in Archive(t, group).activeGroups <==> g in t.activeGroups && g != group
    ensures g in SetClosed(t, group, dates).activeGroups <==> g in t.activeGroups
    ensures ClosedDates(SetClosed(t, group, dates), g) == if g == group then dates else ClosedDates(t, g)
  {
    if forall r :: r in t.rules ==> r.group != group {
      assert !exists r :: r in t.rules && r.group == group;
    }
  }
}
