/**
 Where the conflict check does not reach: late launches, racing requests and
 moved end dates, each with the exact condition under which nobody is double
 booked, and with requests that the service would grant.
 */
module TimetableGaps {
  import opened Wrappers
  import opened TimetableTexts
  import opened Numbers
  import opened Timetable
  import opened TimetableRuns

  // ---------------------------------------------------- requests for given slots

  /** A request whose texts ask for exactly the wanted slot. */
  function RequestFor(w: Wanted): Request
    requires WantedOk(w)
  {
    Request(w.group, w.teacher, SplitList(Join(w.days)), PrintTime(w.start), 0, PrintTime(w.end),
            w.startDate, Some(w.endDate), 0, false)
  }

  /** The slot leaves out its group's closed dates, has a lesson and spans at most a year. */
  predicate Askable(t: Table, w: Wanted) {
    && WantedOk(w) && w.group in t.activeGroups && w.blocked == ClosedFor(t, w.group)
    && LessonsOf(w) != [] && w.endDate <= w.startDate + 366
  }

  lemma DatesAsked(t: Table, w: Wanted)
    requires Askable(t, w)
    ensures LessonDates(RequestFor(w), w.days, w.blocked) == Some(LessonsOf(w))
    ensures w.startDate <= w.endDate
  {
    FirstLessonIs(w);
  }

  lemma SlotAsked(w: Wanted)
    requires WantedOk(w)
    ensures SlotOf(RequestFor(w)) == Success(Slot(w.days, w.start, w.end))
  {
    WeekdaysRoundTrip(w.days);
    TimeRoundTrip(w.start);
    TimeRoundTrip(w.end);
  }

  lemma RequestForIs(t: Table, w: Wanted)
    requires Askable(t, w)
    ensures Validate(t, RequestFor(w)) == Success(w)
  {
    SlotAsked(w);
    DatesAsked(t, w);
    ValidatedSlot(t, RequestFor(w), Slot(w.days, w.start, w.end), LessonsOf(w), w);
  }

  lemma ValidatedSlot(t: Table, req: Request, slot: Slot, dates: seq<Date>, w: Wanted)
    requires Askable(t, w) && req == RequestFor(w) && slot == Slot(w.days, w.start, w.end)
    requires dates != [] && w.startDate <= w.endDate
    ensures SlotOk(slot) && ValidateDates(req, slot, w.blocked, Some(dates)) == Success(w)
  {
  }

  /** Whatever passes the conflict check is granted on request. */
  lemma RequestGranted(t: Table, w: Wanted)
    requires Askable(t, w) && Checked(t, w, None).Success?
    ensures Schedule(t, RequestFor(w)) == Success(Place(t, w, None))
  {
    RequestForIs(t, w);
  }

  // --------------------------------------------------------------- late launches

  /** A rule that teaches on a date of the new one, at the same time and for the same group. */
  lemma PlacedClashes(t: Table, v: Wanted, own: Rule, d: Date)
    requires WantedOk(v) && v.group in t.activeGroups && own in t.rules && Live(t, own) && own.id < t.nextId
    requires own.group == v.group || (own.teacher > 0 && own.teacher == v.teacher)
    requires RuleOk(own) && TimesOverlap(own.start, own.end, v.start, v.end)
    requires LessonDay(own, d) && v.startDate <= d <= v.endDate && Teachable(d, v.days, v.blocked)
    ensures !Safe(Place(t, v, None))
  {
    var after := Place(t, v, None);
    var added := RuleFor(v, t.nextId, v.startDate);
    RuleForRealises(v, t.nextId, v.startDate);
    assert after.rules[|t.rules|] == added;
    assert own in after.rules && Live(after, own) && Live(after, added) && Rivals(own, added);
    assert CommonDate(own, added, d);
    ClashOnFields(own, added);
  }

  /** One lesson, of the same group and time, on the date of the first. */
  function LateLesson(w: Wanted): Wanted
    requires WantedOk(w) && LessonsOf(w) != []
  {
    var d := LessonsOf(w)[0];
    Wanted(w.group, w.teacher, [Weekday(d)], d, d, w.blocked, w.start, w.end)
  }

  lemma LateLessonOk(t: Table, w: Wanted)
    requires WantedOk(w) && LessonsOf(w) != [] && w.group in t.activeGroups && w.blocked == ClosedFor(t, w.group)
    ensures Askable(t, LateLesson(w))
    ensures w.startDate <= LateLesson(w).startDate <= w.endDate && LateLesson(w).days[0] in w.days
    ensures Teachable(LateLesson(w).startDate, w.days, w.blocked)
  {
    FirstLessonIs(w);
    var v := LateLesson(w);
    assert Weekday(v.startDate) in v.days;
    DatesInComplete(v.startDate, v.endDate, v.days, v.blocked, v.startDate);
  }

  lemma LateLessonOverlaps(t: Table, w: Wanted, r: Rule)
    requires WantedOk(w) && LessonsOf(w) != [] && w.group in t.activeGroups && w.blocked == ClosedFor(t, w.group)
    requires Overlaps(LateLesson(w), r)
    ensures Overlaps(w, r) && r.startDate <= LateLesson(w).startDate
  {
    LateLessonOk(t, w);
    var v := LateLesson(w);
    var day :| day in v.days && day in Days(r);
    assert day == v.days[0] && day in w.days;
  }

  lemma LateLessonUnseen(t: Table, w: Wanted, launch: Date, existing: Option<nat>)
    requires Inv(t) && WantedOk(w) && w.group in t.activeGroups && (existing.Some? ==> existing.value < t.nextId)
    requires w.blocked == ClosedFor(t, w.group) && LessonsOf(w) != []
    requires Checked(t, w, existing).Success? && LateLesson(w).startDate < launch
    ensures Checked(Supersede(t, w, launch, existing), LateLesson(w), None).Success?
  {
    var after, v := Supersede(t, w, launch, existing), LateLesson(w);
    CheckedMeans(t, w, existing);
    SupersedeTableOk(t, w, launch, existing);
    SupersedeRules(t, w, launch, existing);
    forall r | r in after.rules
      ensures !Obstructs(after, v, None, r)
    {
      if Obstructs(after, v, None, r) {
        LateLessonOverlaps(t, w, r);
        assert Obstructs(t, w, existing, r);
      }
    }
    CheckedMeans(after, v, None);
  }

  /** A launch after the first lesson leaves room for a request that is granted and double-books the group on that date. */
  lemma LateLaunchAdmitsClash(t: Table, change: Change) returns (req: Request)
    requires Inv(t) && Reschedule(t, change).Success? && !LaunchInTime(t, change)
    ensures Schedule(Reschedule(t, change).value, req).Success?
    ensures !Safe(Schedule(Reschedule(t, change).value, req).value)
  {
    var w, existing, launch := ValidateChange(t, change).value, LatestId(t, change.group), LaunchOf(t, change);
    ValidateChangeOk(t, change);
    LatestRuleIs(t.rules, change.group);
    var after, v := Supersede(t, w, launch, existing), LateLesson(w);
    LateLessonOk(t, w);
    LateLessonUnseen(t, w, launch, existing);
    assert Askable(after, v);
    RequestGranted(after, v);
    SupersedeLive(t, w, launch, existing);
    RuleForRealises(w, t.nextId, launch);
    assert LessonDay(RuleFor(w, t.nextId, launch), v.startDate);
    PlacedClashes(after, v, RuleFor(w, t.nextId, launch), v.startDate);
    req := RequestFor(v);
  }

  /** After a granted change every further granted request is safe exactly when the change launched in time. */
  lemma LaunchInTimeExactly(t: Table, change: Change)
    requires Inv(t) && Reschedule(t, change).Success?
    ensures LaunchInTime(t, change)
            <==> forall req :: Schedule(Reschedule(t, change).value, req).Success?
                               ==> Safe(Schedule(Reschedule(t, change).value, req).value)
  {
    var after := Reschedule(t, change).value;
    RescheduleExactly(t, change);
    if LaunchInTime(t, change) {
      forall req | Schedule(after, req).Success?
        ensures Safe(Schedule(after, req).value)
      {
        ScheduleKeepsInv(after, req);
      }
    } else {
      var req := LateLaunchAdmitsClash(t, change);
    }
  }

  // -------------------------------------------------------------- racing requests

  predicate CommonDay(a: Wanted, b: Wanted, d: Date) {
    && Max(a.startDate, b.startDate) <= d <= Min(a.endDate, b.endDate)
    && Teachable(d, a.days, a.blocked) && Teachable(d, b.days, b.blocked)
  }

  /** Same group or teacher, overlapping times, and an open date of both ranges with a weekday of both. */
  ghost predicate Meet(a: Wanted, b: Wanted) {
    && (a.group == b.group || (a.teacher > 0 && a.teacher == b.teacher))
    && TimesOverlap(a.start, a.end, b.start, b.end)
    && exists d :: CommonDay(a, b, d)
  }

  /** Both requests were checked against the same table; both are stored. */
  function Raced(t: Table, a: Wanted, ea: Option<nat>, b: Wanted, eb: Option<nat>): Table
    requires WantedOk(a) && WantedOk(b)
  {
    Place(Place(t, a, ea), b, eb)
  }

  function FirstRule(t: Table, a: Wanted, ea: Option<nat>): Rule
    requires WantedOk(a)
  {
    RuleFor(a, if ea.Some? then ea.value else t.nextId, a.startDate)
  }

  function SecondRule(t: Table, a: Wanted, ea: Option<nat>, b: Wanted, eb: Option<nat>): Rule
    requires WantedOk(a) && WantedOk(b)
  {
    RuleFor(b, if eb.Some? then eb.value else Place(t, a, ea).nextId, b.startDate)
  }

  /** The existing rule of a replacement is a live rule of its group. */
  ghost predicate Replaces(t: Table, w: Wanted, e: Option<nat>) {
    && w.group in t.activeGroups
    && (e.Some? ==> exists r :: r in t.rules && r.id == e.value && r.active && r.group == w.group)
  }

  lemma PlacedIsIn(t: Table, w: Wanted, e: Option<nat>)
    requires WantedOk(w) && Replaces(t, w, e)
    ensures FirstRule(t, w, e) in Place(t, w, e).rules && Live(Place(t, w, e), FirstRule(t, w, e))
    ensures forall r :: r in t.rules && Some(r.id) != e ==> r in Place(t, w, e).rules
  {
    var after := Place(t, w, e);
    match e
    case Some(id) =>
      var r :| r in t.rules && r.id == id;
      var k :| 0 <= k < |t.rules| && t.rules[k] == r;
      assert after.rules[k] == FirstRule(t, w, e);
      forall o | o in t.rules && o.id != id
        ensures o in after.rules
      {
        var j :| 0 <= j < |t.rules| && t.rules[j] == o;
        assert after.rules[j] == o;
      }
    case None =>
      assert after.rules[|t.rules|] == FirstRule(t, w, e);
  }

  /** Which live rules the race leaves: the second one, the first unless overwritten, and untouched old ones. */
  lemma RacedRules(t: Table, a: Wanted, ea: Option<nat>, b: Wanted, eb: Option<nat>)
    requires TableOk(t) && WantedOk(a) && WantedOk(b) && Replaces(t, a, ea) && Replaces(t, b, eb)
    ensures var after := Raced(t, a, ea, b, eb);
            && SecondRule(t, a, ea, b, eb) in after.rules && Live(after, SecondRule(t, a, ea, b, eb))
            && (!(ea.Some? && ea == eb) ==>
                  && FirstRule(t, a, ea) in after.rules && Live(after, FirstRule(t, a, ea))
                  && FirstRule(t, a, ea).id != SecondRule(t, a, ea, b, eb).id)
            && (forall r :: r in after.rules && Live(after, r) ==>
                  || r == SecondRule(t, a, ea, b, eb)
                  || (r == FirstRule(t, a, ea) && !(ea.Some? && ea == eb))
                  || (r in t.rules && Live(t, r) && Some(r.id) != ea && Some(r.id) != eb))
  {
    var mid := Place(t, a, ea);
    PlacedIsIn(t, a, ea);
    PlacedRules(t, a, ea);
    MidReplaces(t, a, ea, b, eb);
    PlacedIsIn(mid, b, eb);
    PlacedRules(mid, b, eb);
    SecondIsFirstOfMid(t, a, ea, b, eb);
  }

  lemma SecondIsFirstOfMid(t: Table, a: Wanted, ea: Option<nat>, b: Wanted, eb: Option<nat>)
    requires WantedOk(a) && WantedOk(b)
    ensures FirstRule(Place(t, a, ea), b, eb) == SecondRule(t, a, ea, b, eb)
  {
  }

  lemma MidReplaces(t: Table, a: Wanted, ea: Option<nat>, b: Wanted, eb: Option<nat>)
    requires TableOk(t) && WantedOk(a) && WantedOk(b) && Replaces(t, a, ea) && Replaces(t, b, eb)
    ensures Replaces(Place(t, a, ea), b, eb)
    ensures ea.None? && eb.Some? ==> eb.value < t.nextId
    ensures ea.Some? ==> ea.value < t.nextId
  {
    PlacedIsIn(t, a, ea);
    if eb.Some? {
      var r :| r in t.rules && r.id == eb.value && r.active && r.group == b.group;
      if Some(r.id) == ea {
        var o :| o in t.rules && o.id == ea.value && o.active && o.group == a.group;
        SameRule(t, o, r);
        assert FirstRule(t, a, ea).id == eb.value && FirstRule(t, a, ea).group == b.group;
      }
    }
  }

  lemma SameRule(t: Table, o: Rule, r: Rule)
    requires DistinctRules(t.rules) && o in t.rules && r in t.rules && o.id == r.id
    ensures o == r
  {
  }

  lemma MeetIsClash(a: Wanted, x: Rule, b: Wanted, y: Rule)
    requires WantedOk(a) && WantedOk(b) && Realises(x, a) && Realises(y, b)
    requires x.group == a.group && x.teacher == a.teacher && y.group == b.group && y.teacher == b.teacher
    ensures Meet(a, b) <==> Rivals(x, y) && Clash(x, y)
  {
    ClashOnFields(x, y);
    if Meet(a, b) {
      var d :| CommonDay(a, b, d);
      assert CommonDate(x, y, d);
    }
    if ShareDate(x, y) {
      var d :| CommonDate(x, y, d);
      assert CommonDay(a, b, d);
    }
  }

  lemma RacedSafe(t: Table, a: Wanted, ea: Option<nat>, b: Wanted, eb: Option<nat>)
    requires Inv(t) && WantedOk(a) && WantedOk(b) && Replaces(t, a, ea) && Replaces(t, b, eb)
    requires Checked(t, a, ea).Success? && Checked(t, b, eb).Success?
    requires (ea.Some? && ea == eb) || !Meet(a, b)
    ensures Safe(Raced(t, a, ea, b, eb))
  {
    var after, x, y := Raced(t, a, ea, b, eb), FirstRule(t, a, ea), SecondRule(t, a, ea, b, eb);
    RacedRules(t, a, ea, b, eb);
    RuleForRealises(a, x.id, a.startDate);
    RuleForRealises(b, y.id, b.startDate);
    MeetIsClash(a, x, b, y);
    CheckedMeans(t, a, ea);
    CheckedMeans(t, b, eb);
    forall p, q | p in after.rules && q in after.rules && p.id != q.id && Live(after, p) && Live(after, q) && Rivals(p, q)
      ensures !Clash(p, q)
    {
      ClashSymmetric(p, q);
      if p == y && q != x {
        NoClashWithOwn(t, b, y, eb, q);
      } else if q == y && p != x {
        NoClashWithOwn(t, b, y, eb, p);
      } else if p == x && q != y {
        NoClashWithOwn(t, a, x, ea, q);
      } else if q == x && p != y {
        NoClashWithOwn(t, a, x, ea, p);
      }
    }
  }

  lemma RacedClash(t: Table, a: Wanted, ea: Option<nat>, b: Wanted, eb: Option<nat>)
    requires TableOk(t) && WantedOk(a) && WantedOk(b) && Replaces(t, a, ea) && Replaces(t, b, eb)
    requires !(ea.Some? && ea == eb) && Meet(a, b)
    ensures !Safe(Raced(t, a, ea, b, eb))
  {
    var x, y := FirstRule(t, a, ea), SecondRule(t, a, ea, b, eb);
    RacedRules(t, a, ea, b, eb);
    RuleForRealises(a, x.id, a.startDate);
    RuleForRealises(b, y.id, b.startDate);
    MeetIsClash(a, x, b, y);
  }

  /**
   Check and insert take no common lock.  Two requests that are both granted on
   the same table can both be stored safely exactly when they replace the same
   rule, or are for different groups and teachers, or do not overlap in time,
   or have no open date of both ranges with a weekday of both.
   */
  lemma RacingExactly(t: Table, first: Request, second: Request)
    requires Inv(t) && Schedule(t, first).Success? && Schedule(t, second).Success?
    ensures var a, b := Validate(t, first).value, Validate(t, second).value;
            && WantedOk(a) && WantedOk(b)
            && (Safe(Raced(t, a, Replaced(t, first), b, Replaced(t, second)))
                <==> (Replaced(t, first).Some? && Replaced(t, first) == Replaced(t, second)) || !Meet(a, b))
  {
    var a, b := Validate(t, first).value, Validate(t, second).value;
    ValidateOk(t, first);
    ValidateOk(t, second);
    LatestRuleIs(t.rules, first.group);
    LatestRuleIs(t.rules, second.group);
    if (Replaced(t, first).Some? && Replaced(t, first) == Replaced(t, second)) || !Meet(a, b) {
      RacedSafe(t, a, Replaced(t, first), b, Replaced(t, second));
    } else {
      RacedClash(t, a, Replaced(t, first), b, Replaced(t, second));
    }
  }

  // -------------------------------------------------------------- moved end dates

  /** An added date of the rule, open to it and within the other's lessons, with a weekday of both. */
  predicate AddedDate(t: Table, r: Rule, end: Date, o: Rule, d: Date) {
    && Max(r.endDate + 1, Max(r.firstLesson, o.firstLesson)) <= d <= Min(end, o.endDate)
    && Teachable(d, Days(r), r.free + ClosedFor(t, r.group)) && Teachable(d, Days(o), o.free)
  }

  ghost predicate MeetsAdded(t: Table, r: Rule, end: Date, o: Rule) {
    TimesOverlap(r.start, r.end, o.start, o.end) && exists d :: AddedDate(t, r, end, o, d)
  }

  lemma MovedClash(t: Table, r: Rule, end: Date, o: Rule)
    requires RuleOk(r) && RuleOk(o) && !Clash(r, o)
    ensures Clash(Moved(t, r, end), o) <==> MeetsAdded(t, r, end, o)
  {
    var moved := Moved(t, r, end);
    ClashOnFields(r, o);
    ClashOnFields(moved, o);
    if TimesOverlap(r.start, r.end, o.start, o.end) && ShareDate(moved, o) {
      var d :| CommonDate(moved, o, d);
      assert !CommonDate(r, o, d);
      assert AddedDate(t, r, end, o, d);
    }
    if MeetsAdded(t, r, end, o) {
      var d :| AddedDate(t, r, end, o, d);
      assert CommonDate(moved, o, d);
    }
  }

  /**
   Moving a rule's last date is not checked.  It is safe exactly when no live
   rule of the group or teacher overlaps in time and shares a weekday on one of
   the added open dates.
   */
  lemma MoveEndExactly(t: Table, r: Rule, end: Date)
    requires Inv(t) && r in t.rules && Live(t, r)
    ensures Safe(MoveEnd(t, r.id, end))
            <==> forall o :: o in t.rules && o.id != r.id && Live(t, o) && Rivals(r, o) ==> !MeetsAdded(t, r, end, o)
  {
    var after := MoveEnd(t, r.id, end);
    var moved := Moved(t, r, end);
    MoveEndRules(t, r, end);
    forall o | o in t.rules && o.id != r.id && Live(t, o) && Rivals(r, o)
      ensures o in after.rules && (Clash(moved, o) <==> MeetsAdded(t, r, end, o)) && (Clash(o, moved) <==> Clash(moved, o))
    {
      MovedClash(t, r, end, o);
      ClashSymmetric(o, moved);
    }
  }

  lemma MoveEndRules(t: Table, r: Rule, end: Date)
    requires DistinctRules(t.rules) && r in t.rules
    ensures forall x :: x in MoveEnd(t, r.id, end).rules <==> x == Moved(t, r, end) || (x in t.rules && x.id != r.id)
  {
    var after := MoveEnd(t, r.id, end);
    var i :| 0 <= i < |t.rules| && t.rules[i] == r;
    assert after.rules[i] == Moved(t, r, end);
    forall x | x in after.rules
      ensures x == Moved(t, r, end) || (x in t.rules && x.id != r.id)
    {
      var k :| 0 <= k < |after.rules| && after.rules[k] == x;
      SameIdSameRule(t, k, r);
    }
    forall x | x in t.rules && x.id != r.id
      ensures x in after.rules
    {
      var k :| 0 <= k < |t.rules| && t.rules[k] == x;
      assert after.rules[k] == x;
    }
  }

  lemma SameIdSameRule(t: Table, k: nat, r: Rule)
    requires DistinctRules(t.rules) && r in t.rules && k < |t.rules|
    ensures t.rules[k].id == r.id <==> t.rules[k] == r
  {
    var i :| 0 <= i < |t.rules| && t.rules[i] == r;
    assert i < k ==> t.rules[i].id != t.rules[k].id;
    assert k < i ==> t.rules[k].id != t.rules[i].id;
  }

  // Concrete timetables: teacher 5, Mondays from 9:00 to 10:20; 8 is a Monday.

  function NoRules(): Table {
    Table([], 0, {1, 2}, map[])
  }

  function MondayLesson(group: nat, date: Date): Wanted {
    Wanted(group, 5, [0], date, date, {}, 540, 620)
  }

  lemma MondayAskable(t: Table, group: nat, date: Date)
    requires (date == 1 || date == 8) && group in t.activeGroups && t.closed == map[]
    ensures Askable(t, MondayLesson(group, date))
  {
    FirstWeek(1);
    assert Weekday(date) == 0;
    DatesInComplete(date, date, [0], {}, date);
  }

  lemma MondayMeet()
    ensures Meet(MondayLesson(1, 8), MondayLesson(2, 8))
  {
    assert Weekday(8) == 0;
    assert CommonDay(MondayLesson(1, 8), MondayLesson(2, 8), 8);
  }

  /** A change for group 1 that moves one lesson to Monday the 8th under a launch date one week later. */
  function LateChange(): Change {
    Change(1, 5, SplitList(Join([0])), PrintTime(540), 80, 15, true, 8, 1, true)
  }

  lemma LateChangeGranted()
    ensures Inv(NoRules()) && Reschedule(NoRules(), LateChange()).Success? && !LaunchInTime(NoRules(), LateChange())
    ensures var w := MondayLesson(1, 8);
            WantedOk(w) && Reschedule(NoRules(), LateChange()).value == Supersede(NoRules(), w, 15, None)
  {
    var change, w := LateChange(), MondayLesson(1, 8);
    MondayAskable(NoRules(), 1, 8);
    WeekdaysRoundTrip([0]);
    TimeRoundTrip(540);
    assert ChangeSlot(change) == Success(Slot([0], 540, 620));
    OneMonday();
    assert ValidateChange(NoRules(), change) == Success(w);
    CheckedMeans(NoRules(), w, None);
  }

  lemma OneMonday()
    ensures Weekday(8) == 0
    ensures Generated(8, 1, [0], {}, None) == Some([8])
  {
    assert Weekday(8) == 0;
    assert DatesIn(8, 8 + 3660, [0], {}) == [8] + DatesIn(9, 8 + 3660, [0], {});
  }

  /** Any such change stores a rule from the 15th on whose lesson is on the 8th. */
  lemma LateChangeStored(t: Table, w: Wanted, own: Rule)
    requires t.rules == [] && t.nextId == 0 && w == MondayLesson(1, 8) && own == RuleFor(w, 0, 15) && WantedOk(w)
    ensures Supersede(t, w, 15, None) == t.(rules := [own], nextId := 1)
    ensures RuleOk(own) && LessonDay(own, 8) && own.start == 540 && own.end == 620
  {
    RuleForRealises(w, 0, 15);
    assert Weekday(8) == 0;
  }

  /** A later request of another group for that Monday is granted and double-books the teacher. */
  lemma LateLaunchDoubleBooks(t: Table, change: Change, other: Wanted)
    requires t == NoRules() && change == LateChange() && other == MondayLesson(2, 8)
    ensures Inv(t) && Reschedule(t, change).Success?
    ensures var moved := Reschedule(t, change).value;
            && Safe(moved) && Askable(moved, other)
            && Schedule(moved, RequestFor(other)).Success?
            && !Safe(Schedule(moved, RequestFor(other)).value)
  {
    LateChangeGranted();
    RescheduleExactly(t, change);
    var w := MondayLesson(1, 8);
    var own := RuleFor(w, 0, 15);
    LateChangeStored(t, w, own);
    LateRuleMissed(Reschedule(t, change).value, own, other);
  }

  lemma LateRuleMissed(t: Table, own: Rule, other: Wanted)
    requires t.rules == [own] && t.nextId == 1 && t.activeGroups == {1, 2} && t.closed == map[] && other == MondayLesson(2, 8)
    requires own.id == 0 && own.active && own.group == 1 && own.teacher == 5 && own.startDate == 15
    requires RuleOk(own) && LessonDay(own, 8) && own.start == 540 && own.end == 620
    ensures Askable(t, other)
    ensures Schedule(t, RequestFor(other)).Success? && !Safe(Schedule(t, RequestFor(other)).value)
  {
    MondayAskable(t, 2, 8);
    CheckedMeans(t, other, None);
    RequestGranted(t, other);
    assert Weekday(8) == 0;
    PlacedClashes(t, other, own, 8);
  }

  lemma FirstMondayGranted(group: nat, date: Date)
    requires (date == 1 || date == 8) && (group == 1 || group == 2)
    ensures Askable(NoRules(), MondayLesson(group, date)) && Inv(Place(NoRules(), MondayLesson(group, date), None))
    ensures Checked(NoRules(), MondayLesson(group, date), None).Success?
    ensures Schedule(NoRules(), RequestFor(MondayLesson(group, date))) == Success(Place(NoRules(), MondayLesson(group, date), None))
  {
    MondayAskable(NoRules(), group, date);
    CheckedMeans(NoRules(), MondayLesson(group, date), None);
    RequestGranted(NoRules(), MondayLesson(group, date));
    PlaceKeepsInv(NoRules(), MondayLesson(group, date), None);
  }

  /** Two requests that are both granted on the same empty table and double-book the teacher when both are stored. */
  lemma RacingRequestsDoubleBook()
    ensures Askable(NoRules(), MondayLesson(1, 8)) && Askable(NoRules(), MondayLesson(2, 8)) && Inv(NoRules())
    ensures var first, second := RequestFor(MondayLesson(1, 8)), RequestFor(MondayLesson(2, 8));
            && Schedule(NoRules(), first).Success? && Schedule(NoRules(), second).Success?
            && !Safe(Raced(NoRules(), MondayLesson(1, 8), None, MondayLesson(2, 8), None))
  {
    FirstMondayGranted(1, 8);
    FirstMondayGranted(2, 8);
    MondayMeet();
    RacedClash(NoRules(), MondayLesson(1, 8), None, MondayLesson(2, 8), None);
  }

  lemma SecondMondayGranted(t: Table, first: Rule)
    requires Inv(t) && t.rules == [first] && first.endDate == 1 && t.activeGroups == {1, 2} && t.closed == map[]
    ensures Askable(t, MondayLesson(2, 8)) && Inv(Place(t, MondayLesson(2, 8), None))
    ensures Schedule(t, RequestFor(MondayLesson(2, 8))) == Success(Place(t, MondayLesson(2, 8), None))
  {
    MondayAskable(t, 2, 8);
    CheckedMeans(t, MondayLesson(2, 8), None);
    RequestGranted(t, MondayLesson(2, 8));
    PlaceKeepsInv(t, MondayLesson(2, 8), None);
  }

  /** Two granted requests a week apart; pushing the first rule's last date by that week double-books the teacher. */
  lemma MovedEndDoubleBooks()
    ensures WantedOk(MondayLesson(1, 1)) && WantedOk(MondayLesson(2, 8))
    ensures var first, second := RequestFor(MondayLesson(1, 1)), RequestFor(MondayLesson(2, 8));
            && Schedule(NoRules(), first).Success?
            && Schedule(Schedule(NoRules(), first).value, second).Success?
            && (var t := Schedule(Schedule(NoRules(), first).value, second).value;
                Inv(t) && !Safe(MoveEnd(t, 0, 8)))
  {
    var a, b := MondayLesson(1, 1), MondayLesson(2, 8);
    FirstMondayGranted(1, 1);
    SecondMondayGranted(Place(NoRules(), a, None), RuleFor(a, 0, 1));
    RuleForRealises(a, 0, 1);
    RuleForRealises(b, 1, 8);
    MovedMonday(Place(Place(NoRules(), a, None), b, None), RuleFor(a, 0, 1), RuleFor(b, 1, 8));
  }

  lemma MovedMonday(t: Table, first: Rule, second: Rule)
    requires Inv(t) && t.rules == [first, second] && t.activeGroups == {1, 2} && t.closed == map[]
    requires first.id == 0 && second.id == 1 && first.group == 1 && second.group == 2 && first.active && second.active
    requires first.teacher == second.teacher == 5
    requires Realises(first, MondayLesson(1, 1)) && Realises(second, MondayLesson(2, 8))
    ensures !Safe(MoveEnd(t, 0, 8))
  {
    assert t.rules[0] == first && t.rules[1] == second;
    assert first in t.rules && second in t.rules && Rivals(first, second);
    FirstWeek(1);
    assert Weekday(8) == 0;
    assert AddedDate(t, first, 8, second, 8);
    assert MeetsAdded(t, first, 8, second);
    MoveEndExactly(t, first, 8);
  }
}
