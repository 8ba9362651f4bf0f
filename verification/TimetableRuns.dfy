/**
 The operations that change the timetable, and what runs of them keep: no
 group and no teacher ever has two lessons in the same minute.
 */
module TimetableRuns {
  import opened Wrappers
  import opened TimetableTexts
  import opened Timetable

  // ---------------------------------------------------------------- requests

  /** What the caller asks for; sessions is the length of the programme. */
  datatype Request = Request(
    group: nat, teacher: nat, items: seq<string>, startTime: string, duration: int, endTime: string,
    startDate: Date, endDate: Option<Date>, sessions: nat, replaceExisting: bool)

  /** A change of a group's timetable; anchor is the first date of the lessons that move. */
  datatype Change = Change(
    group: nat, teacher: nat, items: seq<string>, lessonTime: string, duration: int,
    launch: Date, allowLaunchChange: bool, anchor: Date, lessons: nat, hasScope: bool)

  function EndMinutes(start: int, duration: int, endTime: string): Result<int, Refusal> {
    if duration != 0 then
      if duration < 15 || duration > 240 then Failure(BadDuration)
      else if start + duration >= 24 * 60 then Failure(PastMidnight)
      else Success(start + duration)
    else
      match TimeToMinutes(endTime)
      case Failure(error) => Failure(BadText(error))
      case Success(end) => Success(end)
  }

  /** The dates of the lessons, predicted from the programme when no end is given. */
  function LessonDates(req: Request, days: seq<int>, blocked: set<Date>): Option<seq<Date>> {
    if req.endDate.Some? then Generated(req.startDate, 0, days, blocked, req.endDate)
    else if req.sessions == 0 then None
    else Generated(req.startDate, req.sessions, days, blocked, None)
  }

  datatype Slot = Slot(days: seq<int>, start: int, end: int)

  /** The weekly slot that the texts of a request name; its end may still precede its start. */
  function SlotOf(req: Request): Result<Slot, Refusal> {
    var days := WeekdaysOf(req.items);
    var start := TimeToMinutes(req.startTime);
    if days.Failure? then Failure(BadText(days.error))
    else if start.Failure? then Failure(BadText(start.error))
    else
      var end := EndMinutes(start.value, req.duration, req.endTime);
      if end.Failure? then Failure(end.error) else Success(Slot(days.value, start.value, end.value))
  }

  predicate SlotOk(slot: Slot) {
    ValidDays(slot.days) && 0 <= slot.start < 24 * 60 && 0 <= slot.end < 24 * 60
  }

  lemma SlotOfOk(req: Request)
    requires SlotOf(req).Success?
    ensures SlotOk(SlotOf(req).value)
  {
    WeekdaysOfOk(req.items);
    TimeIsOfOneDay(req.startTime);
    EndMinutesOk(TimeToMinutes(req.startTime).value, req.duration, req.endTime);
  }

  function EndOf(req: Request, dates: seq<Date>): Date
    requires req.endDate.None? ==> dates != []
  {
    if req.endDate.Some? then req.endDate.value else dates[|dates| - 1]
  }

  function Validate(t: Table, req: Request): Result<Wanted, Refusal> {
    var slot := SlotOf(req);
    if slot.Failure? then Failure(slot.error)
    else if req.group !in t.activeGroups then Failure(UnknownGroup)
    else
      SlotOfOk(req);
      ValidateDates(req, slot.value, ClosedFor(t, req.group), LessonDates(req, slot.value.days, ClosedFor(t, req.group)))
  }

  function ValidateDates(req: Request, slot: Slot, blocked: set<Date>, dates: Option<seq<Date>>): Result<Wanted, Refusal>
    requires SlotOk(slot)
  {
    if dates.None? || (req.endDate.None? && dates.value == []) then Failure(NoTeachingDay)
    else
      var endDate := EndOf(req, dates.value);
      if endDate < req.startDate then Failure(EndsBeforeStart)
      else if endDate - req.startDate > 366 then Failure(TooLong)
      else if slot.end <= slot.start then Failure(EndsBeforeStart)
      else if dates.value == [] then Failure(NoTeachingDay)
      else Success(Wanted(req.group, req.teacher, slot.days, req.startDate, endDate, blocked, slot.start, slot.end))
  }

  lemma EndMinutesOk(start: int, duration: int, endTime: string)
    requires 0 <= start && EndMinutes(start, duration, endTime).Success?
    ensures 0 <= EndMinutes(start, duration, endTime).value < 24 * 60
  {
    if duration == 0 {
      TimeIsOfOneDay(endTime);
    }
  }

  /** A request that passes is well formed, for an active group, and spans at most a year. */
  lemma ValidateOk(t: Table, req: Request)
    requires Validate(t, req).Success?
    ensures var w := Validate(t, req).value;
            && WantedOk(w) && w.group == req.group && w.group in t.activeGroups
            && w.startDate <= w.endDate <= w.startDate + 366 && w.blocked == ClosedFor(t, w.group)
            && (req.duration != 0 ==> w.end - w.start == req.duration && 15 <= req.duration <= 240)
  {
    SlotOfOk(req);
  }

  /** Its lessons are lessons that the stored rule teaches, and on no closed date. */
  lemma LessonsAreTaught(t: Table, req: Request, id: nat, d: Date, m: int)
    requires Validate(t, req).Success?
    requires var w := Validate(t, req).value;
             var dates := LessonDates(req, w.days, ClosedFor(t, req.group));
             dates.Some? && d in dates.value && w.start <= m < w.end
    ensures WantedOk(Validate(t, req).value)
    ensures Teaches(RuleFor(Validate(t, req).value, id, req.startDate), d, m) && d !in ClosedFor(t, req.group)
  {
    var w, blocked := Validate(t, req).value, ClosedFor(t, req.group);
    SlotOfOk(req);
    ValidateOk(t, req);
    ValidatedDates(req, SlotOf(req).value, blocked, LessonDates(req, SlotOf(req).value.days, blocked));
    LessonDateOk(req, w.days, blocked, d);
    RealisedTeaches(w, id, d, m);
  }

  predicate LessonDate(req: Request, days: seq<int>, blocked: set<Date>, end: Date, d: Date) {
    req.startDate <= d <= end && Teachable(d, days, blocked)
  }

  lemma ValidatedDates(req: Request, slot: Slot, blocked: set<Date>, dates: Option<seq<Date>>)
    requires SlotOk(slot) && ValidateDates(req, slot, blocked, dates).Success?
    ensures var w := ValidateDates(req, slot, blocked, dates).value;
            w.days == slot.days && dates.Some? && dates.value != [] && w.blocked == blocked
            && w.startDate == req.startDate && w.endDate == EndOf(req, dates.value)
  {
  }

  lemma RealisedTeaches(w: Wanted, id: nat, d: Date, m: int)
    requires WantedOk(w) && w.startDate <= d <= w.endDate && Teachable(d, w.days, w.blocked) && w.start <= m < w.end
    ensures Teaches(RuleFor(w, id, w.startDate), d, m)
  {
    RuleForRealises(w, id, w.startDate);
  }

  lemma LessonDateOk(req: Request, days: seq<int>, blocked: set<Date>, d: Date)
    requires LessonDates(req, days, blocked).Some? && d in LessonDates(req, days, blocked).value
    ensures LessonDate(req, days, blocked, EndOf(req, LessonDates(req, days, blocked).value), d)
  {
    var count := if req.endDate.Some? then 0 else req.sessions;
    var dates := LessonDates(req, days, blocked).value;
    GeneratedOk(req.startDate, count, days, blocked, req.endDate);
    var k :| 0 <= k < |dates| && dates[k] == d;
  }

  // --------------------------------------------------------------- operations

  /** The active rule of a group, ORDER BY id DESC LIMIT 1. */
  function LatestRule(rules: seq<Rule>, group: nat): Option<Rule> {
    if rules == [] then None
    else
      var rest := LatestRule(rules[1..], group);
      if rules[0].active && rules[0].group == group && (rest.None? || rules[0].id > rest.value.id)
      then Some(rules[0]) else rest
  }

  function LatestId(t: Table, group: nat): Option<nat> {
    var rule := LatestRule(t.rules, group);
    if rule.Some? then Some(rule.value.id) else None
  }

  lemma {:induction false} LatestRuleIs(rules: seq<Rule>, group: nat)
    ensures LatestRule(rules, group).None? <==> forall r :: r in rules ==> !(r.active && r.group == group)
    ensures LatestRule(rules, group).Some? ==>
              var latest := LatestRule(rules, group).value;
              && latest in rules && latest.active && latest.group == group
              && forall r :: r in rules && r.active && r.group == group ==> r.id <= latest.id
  {
    if rules != [] {
      assert rules == [rules[0]] + rules[1..];
      LatestRuleIs(rules[1..], group);
    }
  }

  function Overwrite(rules: seq<Rule>, id: nat, rule: Rule): seq<Rule> {
    seq(|rules|, i requires 0 <= i < |rules| => if rules[i].id == id then rule else rules[i])
  }

  function Deactivate(rules: seq<Rule>, id: nat): seq<Rule> {
    seq(|rules|, i requires 0 <= i < |rules| => if rules[i].id == id then rules[i].(active := false) else rules[i])
  }

  /** Updates the existing rule, or inserts a new one. */
  function Place(t: Table, w: Wanted, existing: Option<nat>): Table
    requires WantedOk(w)
  {
    match existing
    case Some(id) => t.(rules := Overwrite(t.rules, id, RuleFor(w, id, w.startDate)))
    case None => t.(rules := t.rules + [RuleFor(w, t.nextId, w.startDate)], nextId := t.nextId + 1)
  }

  /** Inserts the new version of a group's rule and cancels the old one. */
  function Supersede(t: Table, w: Wanted, launch: Date, existing: Option<nat>): Table
    requires WantedOk(w)
  {
    var own := RuleFor(w, t.nextId, launch);
    t.(rules := if existing.Some? then Deactivate(t.rules + [own], existing.value) else t.rules + [own],
       nextId := t.nextId + 1)
  }

  function Checked(t: Table, w: Wanted, existing: Option<nat>): Result<(), Refusal> {
    match ConflictOf(t, t.rules, w, existing)
    case Failure(error) => Failure(BadText(error))
    case Success(Some(refusal)) => Failure(refusal)
    case Success(None) => Success(())
  }

  function Replaced(t: Table, req: Request): Option<nat> {
    if req.replaceExisting then LatestId(t, req.group) else None
  }

  function Schedule(t: Table, req: Request): Result<Table, Refusal> {
    var w := Validate(t, req);
    if w.Failure? then Failure(w.error)
    else
      ValidateOk(t, req);
      var checked := Checked(t, w.value, Replaced(t, req));
      if checked.Failure? then Failure(checked.error) else Success(Place(t, w.value, Replaced(t, req)))
  }

  /** The launch date stays that of the existing rule unless the caller may change it. */
  function LaunchOf(t: Table, change: Change): Date {
    var existing := LatestRule(t.rules, change.group);
    if existing.Some? && !change.allowLaunchChange then existing.value.startDate else change.launch
  }

  function ChangeSlot(change: Change): Result<Slot, Refusal> {
    var days := WeekdaysOf(change.items);
    var start := TimeToMinutes(change.lessonTime);
    if days.Failure? then Failure(BadText(days.error))
    else if start.Failure? then Failure(BadText(start.error))
    else if change.duration < 15 || change.duration > 240 || start.value + change.duration >= 24 * 60 then Failure(BadDuration)
    else Success(Slot(days.value, start.value, start.value + change.duration))
  }

  lemma ChangeSlotOk(change: Change)
    requires ChangeSlot(change).Success?
    ensures SlotOk(ChangeSlot(change).value) && ChangeSlot(change).value.start < ChangeSlot(change).value.end
  {
    WeekdaysOfOk(change.items);
    TimeIsOfOneDay(change.lessonTime);
  }

  /** The dates that the service gives the lessons that move; it reports the first as the first lesson. */
  function MovedDates(t: Table, change: Change, days: seq<int>): Option<seq<Date>> {
    Generated(change.anchor, change.lessons, days, ClosedFor(t, change.group), None)
  }

  function ValidateChange(t: Table, change: Change): Result<Wanted, Refusal> {
    var slot := ChangeSlot(change);
    if slot.Failure? then Failure(slot.error)
    else if change.group !in t.activeGroups then Failure(UnknownGroup)
    else if change.lessons == 0 then Failure(NoTeachingDay)
    else if LatestRule(t.rules, change.group).Some? && !change.hasScope then Failure(ScopeMissing)
    else
      var dates := MovedDates(t, change, slot.value.days);
      if dates.None? || dates.value == [] then Failure(NoTeachingDay)
      else
        ChangeSlotOk(change);
        Success(Wanted(change.group, change.teacher, slot.value.days, change.anchor, dates.value[|dates.value| - 1],
                       ClosedFor(t, change.group), slot.value.start, slot.value.end))
  }

  lemma ValidateChangeOk(t: Table, change: Change)
    requires ValidateChange(t, change).Success?
    ensures var w := ValidateChange(t, change).value;
            && WantedOk(w) && w.group == change.group && w.group in t.activeGroups && w.startDate == change.anchor
            && w.blocked == ClosedFor(t, change.group)
            && MovedDates(t, change, w.days).Some? && MovedDates(t, change, w.days).value != []
            && LessonsOf(w) != [] && LessonsOf(w)[0] == MovedDates(t, change, w.days).value[0]
  {
    ChangeSlotOk(change);
    var w := ValidateChange(t, change).value;
    var dates := MovedDates(t, change, w.days).value;
    GeneratedOk(change.anchor, change.lessons, w.days, w.blocked, None);
    DatesInComplete(w.startDate, w.endDate, w.days, w.blocked, dates[0]);
    FirstLessonIs(w);
    assert LessonsOf(w)[0] in dates;
    var k :| 0 <= k < |dates| && dates[k] == LessonsOf(w)[0];
  }

  /** The launch date is not after the first lesson that moves. */
  predicate LaunchInTime(t: Table, change: Change)
    requires ValidateChange(t, change).Success?
  {
    ValidateChangeOk(t, change);
    LaunchOf(t, change) <= MovedDates(t, change, ValidateChange(t, change).value.days).value[0]
  }

  function Reschedule(t: Table, change: Change): Result<Table, Refusal> {
    var w := ValidateChange(t, change);
    if w.Failure? then Failure(w.error)
    else
      ValidateChangeOk(t, change);
      var checked := Checked(t, w.value, LatestId(t, change.group));
      if checked.Failure? then Failure(checked.error)
      else Success(Supersede(t, w.value, LaunchOf(t, change), LatestId(t, change.group)))
  }

  function Archive(t: Table, group: nat): Table {
    t.(activeGroups := t.activeGroups - {group})
  }

  /** A new group has no rules yet; nothing else makes a group active. */
  function OpenGroup(t: Table, group: nat): Table {
    if exists r :: r in t.rules && r.group == group then t else t.(activeGroups := t.activeGroups + {group})
  }

  /** Cancelled slots and closures come and go. */
  function SetClosed(t: Table, group: nat, dates: set<Date>): Table {
    t.(closed := t.closed[group := dates])
  }

  /** The rule after its lessons have been moved up to a new last date, none of them onto a closed one. */
  function Moved(t: Table, r: Rule, end: Date): Rule {
    r.(endDate := end, free := r.free + ClosedFor(t, r.group))
  }

  function MoveEnd(t: Table, id: nat, end: Date): Table {
    t.(rules := seq(|t.rules|, i requires 0 <= i < |t.rules| =>
                  if t.rules[i].id == id then Moved(t, t.rules[i], end) else t.rules[i]))
  }

  // ------------------------------------------------------------ what they keep

  /** Replacing one rule, or adding one, without an overlap keeps the timetable safe. */
  lemma JoinKeepsSafe(t: Table, after: Table, w: Wanted, own: Rule, existing: Option<nat>)
    requires Covered(t) && Safe(t)
    requires Realises(own, w) && own.group == w.group && own.teacher == w.teacher
    requires forall r :: r in t.rules ==> !Obstructs(t, w, existing, r)
    requires forall r :: r in after.rules && Live(after, r) ==>
               r == own || (r in t.rules && Live(t, r) && Some(r.id) != existing)
    ensures Safe(after)
  {
    forall a, b | a in after.rules && b in after.rules && a.id != b.id && Live(after, a) && Live(after, b) && Rivals(a, b)
      ensures !Clash(a, b)
    {
      if a == own {
        NoClashWithOwn(t, w, own, existing, b);
      } else if b == own {
        ClashSymmetric(a, b);
        NoClashWithOwn(t, w, own, existing, a);
      }
    }
  }

  lemma NoClashWithOwn(t: Table, w: Wanted, own: Rule, existing: Option<nat>, r: Rule)
    requires Covered(t) && Realises(own, w) && own.group == w.group && own.teacher == w.teacher
    requires r in t.rules && Live(t, r) && Some(r.id) != existing && Rivals(own, r)
    requires !Obstructs(t, w, existing, r)
    ensures !Clash(own, r)
  {
    if Clash(own, r) {
      ClashIsOverlap(w, own, r);
    }
  }

  lemma OverwriteKeepsTableOk(t: Table, id: nat, rule: Rule)
    requires TableOk(t) && RuleOk(rule) && rule.id == id < t.nextId
    ensures TableOk(t.(rules := Overwrite(t.rules, id, rule)))
  {
    var after := Overwrite(t.rules, id, rule);
    forall r | r in after
      ensures RuleOk(r) && r.id < t.nextId
    {
      var k :| 0 <= k < |after| && after[k] == r;
      assert t.rules[k] in t.rules && (r == rule || r == t.rules[k]);
    }
    OverwriteKeepsIds(t.rules, id, rule);
  }

  lemma OverwriteKeepsIds(rules: seq<Rule>, id: nat, rule: Rule)
    requires DistinctRules(rules) && rule.id == id
    ensures DistinctRules(Overwrite(rules, id, rule))
  {
  }

  lemma PlaceKeepsTableOk(t: Table, w: Wanted, existing: Option<nat>)
    requires TableOk(t) && WantedOk(w) && (existing.Some? ==> existing.value < t.nextId)
    ensures TableOk(Place(t, w, existing))
  {
    match existing
    case Some(id) =>
      RuleForRealises(w, id, w.startDate);
      OverwriteKeepsTableOk(t, id, RuleFor(w, id, w.startDate));
    case None =>
      RuleForRealises(w, t.nextId, w.startDate);
      AppendKeepsTableOk(t, RuleFor(w, t.nextId, w.startDate));
  }

  lemma CheckedMeans(t: Table, w: Wanted, existing: Option<nat>)
    requires TableOk(t)
    ensures Checked(t, w, existing).Success? <==> forall r :: r in t.rules ==> !Obstructs(t, w, existing, r)
  {
    ConflictOfExactly(t, t.rules, w, existing);
  }

  lemma PlacedRules(t: Table, w: Wanted, existing: Option<nat>)
    requires WantedOk(w)
    ensures var after := Place(t, w, existing);
            var id := if existing.Some? then existing.value else t.nextId;
            forall r :: r in after.rules && Live(after, r) ==>
              r == RuleFor(w, id, w.startDate) || (r in t.rules && Live(t, r) && Some(r.id) != existing)
  {
    var after := Place(t, w, existing);
    forall r | r in after.rules && Live(after, r)
      ensures var id := if existing.Some? then existing.value else t.nextId;
              r == RuleFor(w, id, w.startDate) || (r in t.rules && Live(t, r) && Some(r.id) != existing)
    {
      var k :| 0 <= k < |after.rules| && after.rules[k] == r;
      assert k < |t.rules| ==> t.rules[k] in t.rules;
    }
  }

  lemma OwnInRange(w: Wanted, own: Rule)
    requires WantedOk(w) && Realises(own, w)
    ensures own.startDate <= w.startDate ==> InRange(own)
    ensures LessonsOf(w) != [] ==> (InRange(own) <==> own.startDate <= LessonsOf(w)[0])
  {
    if LessonsOf(w) != [] {
      FirstLessonIs(w);
      assert Teaches(own, LessonsOf(w)[0], w.start);
      if own.startDate <= LessonsOf(w)[0] {
        forall d, m | Teaches(own, d, m)
          ensures own.startDate <= d
        {
          assert Teachable(d, w.days, w.blocked);
        }
      }
    }
  }

  lemma PlaceKeepsInv(t: Table, w: Wanted, existing: Option<nat>)
    requires Inv(t) && WantedOk(w) && (existing.Some? ==> existing.value < t.nextId)
    requires Checked(t, w, existing).Success?
    ensures Inv(Place(t, w, existing))
  {
    var id := if existing.Some? then existing.value else t.nextId;
    PlaceKeepsTableOk(t, w, existing);
    RuleForRealises(w, id, w.startDate);
    OwnInRange(w, RuleFor(w, id, w.startDate));
    CheckedMeans(t, w, existing);
    PlacedRules(t, w, existing);
    JoinKeepsSafe(t, Place(t, w, existing), w, RuleFor(w, id, w.startDate), existing);
  }

  /** A granted request keeps every group and every teacher free of double booking. */
  lemma ScheduleKeepsInv(t: Table, req: Request)
    requires Inv(t) && Schedule(t, req).Success?
    ensures Inv(Schedule(t, req).value)
  {
    ValidateOk(t, req);
    LatestRuleIs(t.rules, req.group);
    PlaceKeepsInv(t, Validate(t, req).value, Replaced(t, req));
  }

  lemma SupersedeRules(t: Table, w: Wanted, launch: Date, existing: Option<nat>)
    requires TableOk(t) && WantedOk(w) && (existing.Some? ==> existing.value < t.nextId)
    ensures var after := Supersede(t, w, launch, existing);
            && RuleFor(w, t.nextId, launch) in after.rules
            && (forall r :: r in after.rules && Live(after, r) ==>
                  r == RuleFor(w, t.nextId, launch) || (r in t.rules && Live(t, r) && Some(r.id) != existing))
  {
    var after := Supersede(t, w, launch, existing);
    var own := RuleFor(w, t.nextId, launch);
    assert after.rules[|t.rules|] == own;
    forall r | r in after.rules && Live(after, r)
      ensures r == own || (r in t.rules && Live(t, r) && Some(r.id) != existing)
    {
      var k :| 0 <= k < |after.rules| && after.rules[k] == r;
      if k < |t.rules| {
        assert t.rules[k] in t.rules;
      }
    }
  }

  lemma DeactivateKeepsTableOk(t: Table, id: nat)
    requires TableOk(t)
    ensures TableOk(t.(rules := Deactivate(t.rules, id)))
  {
    var after := Deactivate(t.rules, id);
    forall r | r in after
      ensures RuleOk(r) && r.id < t.nextId
    {
      var k :| 0 <= k < |after| && after[k] == r;
      assert t.rules[k] in t.rules;
    }
  }

  lemma AppendKeepsTableOk(t: Table, rule: Rule)
    requires TableOk(t) && RuleOk(rule) && rule.id == t.nextId
    ensures TableOk(t.(rules := t.rules + [rule], nextId := t.nextId + 1))
  {
    forall r | r in t.rules + [rule]
      ensures RuleOk(r) && r.id < t.nextId + 1
    {
      assert r in t.rules || r == rule;
    }
    AppendKeepsIds(t.rules, rule, t.nextId);
  }

  lemma AppendKeepsIds(rules: seq<Rule>, rule: Rule, nextId: nat)
    requires forall r :: r in rules ==> r.id < nextId
    requires DistinctRules(rules) && rule.id == nextId
    ensures DistinctRules(rules + [rule])
  {
    forall i, j | 0 <= i < j < |rules + [rule]|
      ensures (rules + [rule])[i].id != (rules + [rule])[j].id
    {
      assert rules[i] in rules;
    }
  }

  lemma SupersedeTableOk(t: Table, w: Wanted, launch: Date, existing: Option<nat>)
    requires TableOk(t) && WantedOk(w)
    ensures TableOk(Supersede(t, w, launch, existing))
  {
    RuleForRealises(w, t.nextId, launch);
    AppendKeepsTableOk(t, RuleFor(w, t.nextId, launch));
    if existing.Some? {
      DeactivateKeepsTableOk(t.(rules := t.rules + [RuleFor(w, t.nextId, launch)], nextId := t.nextId + 1), existing.value);
    }
  }

  lemma SupersedeKeeps(t: Table, w: Wanted, launch: Date, existing: Option<nat>)
    requires Inv(t) && WantedOk(w) && w.group in t.activeGroups && (existing.Some? ==> existing.value < t.nextId)
    requires Checked(t, w, existing).Success? && LessonsOf(w) != []
    ensures TableOk(Supersede(t, w, launch, existing)) && Safe(Supersede(t, w, launch, existing))
    ensures Covered(Supersede(t, w, launch, existing)) <==> launch <= LessonsOf(w)[0]
  {
    var own := RuleFor(w, t.nextId, launch);
    var after := Supersede(t, w, launch, existing);
    SupersedeTableOk(t, w, launch, existing);
    SupersedeRules(t, w, launch, existing);
    RuleForRealises(w, t.nextId, launch);
    CheckedMeans(t, w, existing);
    JoinKeepsSafe(t, after, w, own, existing);
    SupersedeLive(t, w, launch, existing);
    OwnInRange(w, own);
  }

  lemma SupersedeLive(t: Table, w: Wanted, launch: Date, existing: Option<nat>)
    requires WantedOk(w) && w.group in t.activeGroups && (existing.Some? ==> existing.value < t.nextId)
    ensures var after := Supersede(t, w, launch, existing);
            RuleFor(w, t.nextId, launch) in after.rules && Live(after, RuleFor(w, t.nextId, launch))
  {
    assert Supersede(t, w, launch, existing).rules[|t.rules|] == RuleFor(w, t.nextId, launch);
  }

  /**
   A granted change of timetable is always safe at once.  Its lessons lie in
   the stored range, on which later checks rely, exactly when the launch date
   is not after the first of them.
   */
  lemma RescheduleExactly(t: Table, change: Change)
    requires Inv(t) && Reschedule(t, change).Success?
    ensures TableOk(Reschedule(t, change).value) && Safe(Reschedule(t, change).value)
    ensures Covered(Reschedule(t, change).value) <==> LaunchInTime(t, change)
  {
    ValidateChangeOk(t, change);
    LatestRuleIs(t.rules, change.group);
    SupersedeKeeps(t, ValidateChange(t, change).value, LaunchOf(t, change), LatestId(t, change.group));
  }

  lemma OpenGroupKeepsInv(t: Table, group: nat)
    requires Inv(t)
    ensures Inv(OpenGroup(t, group))
  {
    var after := OpenGroup(t, group);
    forall r | r in after.rules && Live(after, r)
      ensures Live(t, r)
    {
      assert r.group != group || after == t;
    }
  }

  lemma SetClosedKeepsInv(t: Table, group: nat, dates: set<Date>)
    requires Inv(t)
    ensures Inv(SetClosed(t, group, dates))
  {
    assert forall r :: Live(SetClosed(t, group, dates), r) <==> Live(t, r);
  }

  lemma ArchiveKeepsInv(t: Table, group: nat)
    requires Inv(t)
    ensures Inv(Archive(t, group))
  {
  }

  // --------------------------------------------------------------------- runs

  datatype Action =
    | Add(req: Request) | Move(change: Change) | Open(group: nat) | Retire(group: nat) | Close(group: nat, dates: set<Date>)

  function Step(t: Table, a: Action): Table {
    match a
    case Add(req) => (match Schedule(t, req) case Success(after) => after case Failure(_) => t)
    case Move(change) => (match Reschedule(t, change) case Success(after) => after case Failure(_) => t)
    case Open(group) => OpenGroup(t, group)
    case Retire(group) => Archive(t, group)
    case Close(group, dates) => SetClosed(t, group, dates)
  }

  function Run(t: Table, actions: seq<Action>): Table
    decreases |actions|
  {
    if actions == [] then t else Run(Step(t, actions[0]), actions[1..])
  }

  /** A granted change leaves no lesson before its launch date. */
  predicate InTime(t: Table, a: Action) {
    a.Move? && Reschedule(t, a.change).Success? ==> LaunchInTime(t, a.change)
  }

  predicate LaunchesInTime(t: Table, actions: seq<Action>)
    decreases |actions|
  {
    actions == [] || (InTime(t, actions[0]) && LaunchesInTime(Step(t, actions[0]), actions[1..]))
  }

  lemma StepKeepsInv(t: Table, a: Action)
    requires Inv(t) && InTime(t, a)
    ensures Inv(Step(t, a))
  {
    match a {
      case Add(req) =>
        if Schedule(t, req).Success? {
          ScheduleKeepsInv(t, req);
        }
      case Move(change) =>
        if Reschedule(t, change).Success? {
          RescheduleExactly(t, change);
        }
      case Open(group) => OpenGroupKeepsInv(t, group);
      case Retire(group) => ArchiveKeepsInv(t, group);
      case Close(group, dates) => SetClosedKeepsInv(t, group, dates);
    }
  }

  /** Over every run, no group and no teacher ever has two lessons in the same minute of the same date. */
  lemma {:induction false} RunKeepsInv(t: Table, actions: seq<Action>)
    requires Inv(t) && LaunchesInTime(t, actions)
    ensures Inv(Run(t, actions))
    decreases |actions|
  {
    if actions != [] {
      StepKeepsInv(t, actions[0]);
      RunKeepsInv(Step(t, actions[0]), actions[1..]);
    }
  }

  // ---------------------------------------------------------- in-place tables

  /** The rules as the service updates them. */
  class TimetableStore {
    var rules: seq<Rule>
    var nextId: nat
    var activeGroups: set<nat>
    var closed: map<nat, set<Date>>

    function Tables(): Table
      reads this
    {
      Table(rules, nextId, activeGroups, closed)
    }

    constructor (t: Table)
      ensures Tables() == t
    {
      rules, nextId, activeGroups, closed := t.rules, t.nextId, t.activeGroups, t.closed;
    }

    method FindLatest(group: nat) returns (id: Option<nat>)
      ensures id == LatestId(Tables(), group)
    {
      var latest: Option<Rule> := None;
      var i := |rules|;
      while i > 0
        invariant 0 <= i <= |rules| && latest == LatestRule(rules[i..], group)
      {
        i := i - 1;
        assert rules[i..][1..] == rules[i + 1..];
        if rules[i].active && rules[i].group == group && (latest.None? || rules[i].id > latest.value.id) {
          latest := Some(rules[i]);
        }
      }
      return if latest.Some? then Some(latest.value.id) else None;
    }

    method CheckConflicts(w: Wanted, existing: Option<nat>) returns (outcome: Result<(), Refusal>)
      requires TableOk(Tables())
      ensures outcome == Checked(Tables(), w, existing)
    {
      var conflict := ScanConflicts(Tables(), w, existing);
      match conflict
      case Failure(error) => return Failure(BadText(error));
      case Success(None) => return Success(());
      case Success(Some(refusal)) => return Failure(refusal);
    }

    method Store(w: Wanted, existing: Option<nat>)
      requires WantedOk(w)
      modifies this
      ensures Tables() == Place(old(Tables()), w, existing)
    {
      if existing.Some? {
        rules := Overwrite(rules, existing.value, RuleFor(w, existing.value, w.startDate));
      } else {
        rules := rules + [RuleFor(w, nextId, w.startDate)];
        nextId := nextId + 1;
      }
    }

    /** Validates, checks for conflicts and stores the rule; a refusal changes nothing. */
    method SaveSchedule(req: Request) returns (outcome: Result<(), Refusal>)
      requires Inv(Tables())
      modifies this
      ensures Tables() == Step(old(Tables()), Add(req)) && Inv(Tables())
      ensures outcome.Success? <==> Schedule(old(Tables()), req).Success?
      ensures outcome.Failure? ==> Schedule(old(Tables()), req) == Failure(outcome.error)
    {
      StepKeepsInv(Tables(), Add(req));
      var validated := Validate(Tables(), req);
      if validated.Failure? {
        return Failure(validated.error);
      }
      ValidateOk(Tables(), req);
      var existing: Option<nat> := None;
      if req.replaceExisting {
        existing := FindLatest(req.group);
      }
      outcome := CheckConflicts(validated.value, existing);
      if outcome.Success? {
        Store(validated.value, existing);
      }
    }

    /** Stores a new version of the group's rule and cancels the old one. */
    method ChangeTimetable(change: Change) returns (outcome: Result<(), Refusal>)
      requires Inv(Tables())
      modifies this
      ensures Tables() == Step(old(Tables()), Move(change)) && TableOk(Tables()) && Safe(Tables())
      ensures outcome.Success? <==> Reschedule(old(Tables()), change).Success?
      ensures outcome.Failure? ==> Reschedule(old(Tables()), change) == Failure(outcome.error)
    {
      if Reschedule(Tables(), change).Success? {
        RescheduleExactly(Tables(), change);
      }
      var validated := ValidateChange(Tables(), change);
      if validated.Failure? {
        return Failure(validated.error);
      }
      ValidateChangeOk(Tables(), change);
      var launch := LaunchOf(Tables(), change);
      var existing := FindLatest(change.group);
      outcome := CheckConflicts(validated.value, existing);
      if outcome.Success? {
        Replace(validated.value, launch, existing);
      }
    }

    method Replace(w: Wanted, launch: Date, existing: Option<nat>)
      requires WantedOk(w)
      modifies this
      ensures Tables() == Supersede(old(Tables()), w, launch, existing)
    {
      rules := rules + [RuleFor(w, nextId, launch)];
      nextId := nextId + 1;
      if existing.Some? {
        rules := Deactivate(rules, existing.value);
      }
    }
  }
}
