/**
 The first billing cycles: which period a profile is billed for next, what the
 cycle expects, and the items that it is made of.  Days count from
 1 January 2000, instants are seconds from its midnight in UTC, months count
 from January 2000.
 */
module BillingCycles {
  import opened Wrappers
  import opened Sequences

  type Instant = int

  const DAY_SECONDS: int := 86400
  /** Asia/Tashkent keeps UTC+5 all year. */
  const TASHKENT_OFFSET: int := 18000

  // ------------------------------------------------------------------ calendar

  predicate LeapYear(year: int) {
    year % 4 == 0 && (year % 100 != 0 || year % 400 == 0)
  }

  function DaysIn(month: nat): (n: nat)
    ensures 28 <= n <= 31
  {
    var m := month % 12;
    if m == 1 then (if LeapYear(2000 + month / 12) then 29 else 28)
    else if m == 3 || m == 5 || m == 8 || m == 10 then 30
    else 31
  }

  /** The day on which a month begins. */
  function MonthStart(month: nat): nat {
    if month == 0 then 0 else MonthStart(month - 1) + DaysIn(month - 1)
  }

  function MonthFrom(day: nat, month: nat): nat
    requires MonthStart(month) <= day
    decreases day - MonthStart(month)
  {
    if day < MonthStart(month + 1) then month else MonthFrom(day, month + 1)
  }

  /** date_trunc('month', day). */
  function MonthOf(day: nat): nat {
    MonthFrom(day, 0)
  }

  function LocalDay(at: Instant): int {
    (at + TASHKENT_OFFSET) / DAY_SECONDS
  }

  /** Five minutes past local midnight on the billing day of the month. */
  function Due(month: nat, billingDay: int): Instant {
    (MonthStart(month) + billingDay - 1) * DAY_SECONDS + 300 - TASHKENT_OFFSET
  }

  function BillingDate(month: nat, billingDay: int): int {
    MonthStart(month) + billingDay - 1
  }

  /** This month while its due instant is still to come, otherwise the next. */
  function NextPeriod(now: Instant, billingDay: int): nat
    requires LocalDay(now) >= 0
  {
    var month := MonthOf(LocalDay(now));
    if now < Due(month, billingDay) then month else month + 1
  }

  /** The days of all years before a given one. */
  function DaysBefore(year: nat): int {
    365 * year + year / 4 - year / 100 + year / 400
  }

  /** The days from 1 March to the start of the month that comes `m` months later. */
  function DaysSinceMarch(m: nat): nat {
    (153 * m + 2) / 5
  }

  /** A month's first day in the civil calendar, by the closed form for years that begin in March. */
  function CivilDay(month: nat): int {
    var year, m := 2000 + month / 12, month % 12;
    if m < 2 then DaysBefore(year - 1) + DaysSinceMarch(m + 10) else DaysBefore(year) + DaysSinceMarch(m - 2)
  }

  lemma YearStep(year: nat)
    requires year >= 1
    ensures DaysBefore(year) == DaysBefore(year - 1) + 365 + (if LeapYear(year) then 1 else 0)
  {
    CenturyStep(year);
    assert year / 4 == (year - 1) / 4 + (if year % 4 == 0 then 1 else 0);
    assert year % 100 == 0 ==> year % 4 == 0;
  }

  lemma CenturyStep(year: nat)
    requires year >= 1
    ensures year / 100 == (year - 1) / 100 + (if year % 100 == 0 then 1 else 0)
    ensures year / 400 == (year - 1) / 400 + (if year % 400 == 0 then 1 else 0)
    ensures year % 400 == 0 ==> year % 100 == 0
  {
  }

  lemma MonthStep(m: nat)
    requires m < 11
    ensures DaysSinceMarch(m + 1)
            == DaysSinceMarch(m) + (if m == 1 || m == 3 || m == 6 || m == 8 then 30 else 31)
    ensures DaysSinceMarch(0) == 0 && DaysSinceMarch(11) == 337
  {
  }

  lemma CivilStep(month: nat, year: nat, m: nat)
    requires m < 12 && month == 12 * (year - 2000) + m && year >= 2000
    ensures CivilDay(month + 1) == CivilDay(month) + DaysIn(month)
  {
    assert month / 12 == year - 2000 && month % 12 == m;
    if m < 11 {
      assert (month + 1) / 12 == year - 2000 && (month + 1) % 12 == m + 1;
    } else {
      assert (month + 1) / 12 == year - 1999 && (month + 1) % 12 == 0;
    }
    YearStep(year);
    if m != 1 {
      MonthStep(if m < 2 then m + 10 else m - 2);
    } else {
      MonthStep(0);
    }
  }

  /** Months begin where the civil calendar has them begin, leap years and century rules included. */
  lemma {:induction false} MonthStartIsCivil(month: nat)
    ensures MonthStart(month) == CivilDay(month) - CivilDay(0)
  {
    if month > 0 {
      MonthStartIsCivil(month - 1);
      CivilStep(month - 1, 2000 + (month - 1) / 12, (month - 1) % 12);
    }
  }

  lemma {:induction false} MonthFromOk(day: nat, month: nat)
    requires MonthStart(month) <= day
    ensures MonthStart(MonthFrom(day, month)) <= day < MonthStart(MonthFrom(day, month) + 1)
    decreases day - MonthStart(month)
  {
    if day >= MonthStart(month + 1) {
      MonthFromOk(day, month + 1);
    }
  }

  lemma {:induction false} MonthStartGrows(a: nat, b: nat)
    requires a <= b
    ensures MonthStart(a) + 28 * (b - a) <= MonthStart(b)
    decreases b - a
  {
    if a < b {
      MonthStartGrows(a, b - 1);
    }
  }

  lemma DueGrows(a: nat, b: nat, billingDay: int)
    requires a < b
    ensures Due(a, billingDay) < Due(b, billingDay)
  {
    MonthStartGrows(a, b);
  }

  /** The period is the one whose due instant comes first after now. */
  ghost predicate IsEarliestDue(now: Instant, billingDay: int, period: nat) {
    && now < Due(period, billingDay)
    && forall month: nat :: now < Due(month, billingDay) ==> Due(period, billingDay) <= Due(month, billingDay)
  }

  lemma NextPeriodIsEarliest(now: Instant, billingDay: int)
    requires LocalDay(now) >= 0 && 1 <= billingDay <= 28
    ensures IsEarliestDue(now, billingDay, NextPeriod(now, billingDay))
  {
    var month := MonthOf(LocalDay(now));
    MonthFromOk(LocalDay(now), 0);
    forall other: nat | now < Due(other, billingDay)
      ensures Due(NextPeriod(now, billingDay), billingDay) <= Due(other, billingDay)
    {
      if other < month {
        assert other + 1 <= month;
        MonthStartGrows(other + 1, month);
        assert Due(other, billingDay) <= MonthStart(other + 1) * DAY_SECONDS - TASHKENT_OFFSET;
        assert false;
      } else if other > month + 1 {
        DueGrows(month + 1, other, billingDay);
      }
      if other > month {
        DueGrows(month, other, billingDay);
      }
    }
  }

  /** The bound 28 is exact: for every larger day of the month some moment picks the wrong period. */
  lemma NextPeriodNeedsDay28(billingDay: int)
    requires 1 <= billingDay <= 31
    ensures billingDay <= 28 <==>
            forall now :: LocalDay(now) >= 0 ==> IsEarliestDue(now, billingDay, NextPeriod(now, billingDay))
  {
    if billingDay <= 28 {
      forall now | LocalDay(now) >= 0
        ensures IsEarliestDue(now, billingDay, NextPeriod(now, billingDay))
      {
        NextPeriodIsEarliest(now, billingDay);
      }
    } else {
      var now := LateFebruary(billingDay);
    }
  }

  /** Just before the overrun of February 2001 into March falls due. */
  lemma LateFebruary(billingDay: int) returns (now: Instant)
    requires 29 <= billingDay <= 31
    ensures LocalDay(now) >= 0 && !IsEarliestDue(now, billingDay, NextPeriod(now, billingDay))
  {
    now := Due(13, billingDay) - 1;
    var day := LocalDay(now);
    assert DaysIn(13) == 28;
    assert MonthStart(14) == MonthStart(13) + 28;
    assert day == MonthStart(13) + billingDay - 1;
    MonthFromOk(day, 0);
    assert MonthStart(15) == MonthStart(14) + DaysIn(14);
    var month := MonthOf(day);
    if month < 14 {
      MonthStartGrows(month + 1, 14);
    } else if month > 14 {
      MonthStartGrows(15, month);
    }
    DueGrows(13, 14, billingDay);
  }

  /**
   The due instant falls, in local time, at five past midnight of the billing
   day, which lies in the period's month.
   */
  lemma DueFallsInPeriod(month: nat, billingDay: int)
    requires 1 <= billingDay <= 28
    ensures LocalDay(Due(month, billingDay)) == BillingDate(month, billingDay)
    ensures (Due(month, billingDay) + TASHKENT_OFFSET) % DAY_SECONDS == 5 * 60
    ensures MonthOf(BillingDate(month, billingDay)) == month
  {
    var day := BillingDate(month, billingDay);
    MonthFromOk(day, 0);
    var found := MonthOf(day);
    if found < month {
      MonthStartGrows(found + 1, month);
    } else if found > month {
      MonthStartGrows(month + 1, found);
    }
  }

  // -------------------------------------------------------------------- tables

  datatype Profile = Profile(
    id: nat, student: nat, billingDay: int, startsOn: int, endsOn: Option<int>, active: bool)

  datatype Item = Item(
    id: nat, profile: nat, group: nat, amount: int, activeFrom: int, activeUntil: Option<int>, active: bool)

  datatype Enrollment = Enrollment(student: nat, group: nat, active: bool)

  datatype State = Scheduled | ReviewRequired | Invoiced | Satisfied | Cancelled

  datatype Cycle = Cycle(
    id: nat, profile: nat, student: nat, period: nat, dueAt: Instant, expected: int, state: State, version: int)

  datatype CycleItem = CycleItem(cycle: nat, item: nat, amount: int, order: nat)

  /** An invoice of a month, as far as the review of cycles reads it. */
  datatype Invoice = Invoice(student: nat, period: nat, linked: bool, manualOrLegacy: bool, voided: bool, paid: int)

  datatype Db = Db(
    profiles: seq<Profile>,
    activeStudents: set<nat>,
    items: seq<Item>,
    enrollments: seq<Enrollment>,
    invoices: seq<Invoice>,
    cycles: seq<Cycle>,
    cycleItems: seq<CycleItem>,
    nextId: nat)

  /** The tables' own constraints. */
  predicate DbOk(db: Db) {
    && (forall p :: p in db.profiles ==> 1 <= p.billingDay <= 28)
    && (forall i, j :: 0 <= i < j < |db.profiles| ==> db.profiles[i].id != db.profiles[j].id)
    && (forall x :: x in db.items ==> x.amount > 0)
    && ItemsAscend(db.items)
    && CyclesOk(db.cycles, db.nextId)
    && (forall x :: x in db.cycleItems ==> x.cycle < db.nextId)
  }

  /** Items are listed by their ids. */
  predicate ItemsAscend(items: seq<Item>) {
    forall i, j :: 0 <= i < j < |items| ==> items[i].id < items[j].id
  }

  /** Ids are distinct and below the next one, and a profile has one cycle a period. */
  predicate CyclesOk(cycles: seq<Cycle>, nextId: nat) {
    && (forall c :: c in cycles ==> c.id < nextId)
    && (forall i, j :: 0 <= i < j < |cycles| ==> cycles[i].id != cycles[j].id)
    && (forall i, j :: 0 <= i < j < |cycles| ==> cycles[i].profile != cycles[j].profile || cycles[i].period != cycles[j].period)
  }

  // --------------------------------------------------------------- the two queries

  predicate Billable(x: Item, profile: nat, date: int) {
    x.profile == profile && x.active && x.activeFrom <= date && (x.activeUntil.None? || x.activeUntil.value >= date)
  }

  predicate Attends(e: Enrollment, student: nat, group: nat) {
    e.student == student && e.group == group && e.active
  }

  /** The amount once for each active enrolment in the item's group. */
  function AmountFor(x: Item, enrollments: seq<Enrollment>, student: nat): int {
    if enrollments == [] then 0
    else (if Attends(enrollments[0], student, x.group) then x.amount else 0) + AmountFor(x, enrollments[1..], student)
  }

  /** sum(item.amount_minor) of the first query. */
  function Expected(items: seq<Item>, enrollments: seq<Enrollment>, profile: nat, student: nat, date: int): int {
    if items == [] then 0
    else (if Billable(items[0], profile, date) then AmountFor(items[0], enrollments, student) else 0)
         + Expected(items[1..], enrollments, profile, student, date)
  }

  function RowsFor(x: Item, enrollments: seq<Enrollment>, student: nat): seq<Item> {
    if enrollments == [] then []
    else (if Attends(enrollments[0], student, x.group) then [x] else []) + RowsFor(x, enrollments[1..], student)
  }

  /** The joined rows of the second query for one cycle, in item order. */
  function JoinedRows(items: seq<Item>, enrollments: seq<Enrollment>, profile: nat, student: nat, date: int): seq<Item> {
    if items == [] then []
    else (if Billable(items[0], profile, date) then RowsFor(items[0], enrollments, student) else [])
         + JoinedRows(items[1..], enrollments, profile, student, date)
  }

  /** row_number() - 1 within the cycle. */
  function Numbered(cycle: nat, rows: seq<Item>, from: nat): seq<CycleItem>
    decreases |rows|
  {
    if rows == [] then []
    else [CycleItem(cycle, rows[0].id, rows[0].amount, from)] + Numbered(cycle, rows[1..], from + 1)
  }

  function ItemsFor(db: Db, c: Cycle): seq<CycleItem> {
    Numbered(c.id, JoinedRows(db.items, db.enrollments, c.profile, c.student, LocalDay(c.dueAt)), 0)
  }

  predicate HasItems(cycleItems: seq<CycleItem>, cycle: nat) {
    exists x :: x in cycleItems && x.cycle == cycle
  }

  function Filled(db: Db, cycles: seq<Cycle>): seq<CycleItem> {
    if cycles == [] then []
    else (if HasItems(db.cycleItems, cycles[0].id) then [] else ItemsFor(db, cycles[0])) + Filled(db, cycles[1..])
  }

  /** The items of one cycle. */
  function ItemsOf(cycleItems: seq<CycleItem>, cycle: nat): seq<CycleItem> {
    if cycleItems == [] then []
    else (if cycleItems[0].cycle == cycle then [cycleItems[0]] else []) + ItemsOf(cycleItems[1..], cycle)
  }

  function Total(cycleItems: seq<CycleItem>): int {
    if cycleItems == [] then 0 else cycleItems[0].amount + Total(cycleItems[1..])
  }

  // ------------------------------------------------------------- the statements

  function DateFor(p: Profile, now: Instant): int
    requires LocalDay(now) >= 0
  {
    BillingDate(NextPeriod(now, p.billingDay), p.billingDay)
  }

  /** The profile is active on its billing date and bills something then. */
  predicate DueForCycle(db: Db, p: Profile, now: Instant)
    requires LocalDay(now) >= 0
  {
    var date := DateFor(p, now);
    && p.active && p.student in db.activeStudents
    && p.startsOn <= date && (p.endsOn.None? || p.endsOn.value >= date)
    && Expected(db.items, db.enrollments, p.id, p.student, date) > 0
  }

  function NewCycle(db: Db, p: Profile, now: Instant, id: nat): Cycle
    requires LocalDay(now) >= 0
  {
    var period := NextPeriod(now, p.billingDay);
    Cycle(id, p.id, p.student, period, Due(period, p.billingDay),
          Expected(db.items, db.enrollments, p.id, p.student, DateFor(p, now)), Scheduled, 1)
  }

  predicate Taken(cycles: seq<Cycle>, profile: nat, period: nat) {
    exists c :: c in cycles && c.profile == profile && c.period == period
  }

  datatype Opened = Opened(cycles: seq<Cycle>, nextId: nat)

  /** INSERT ... ON CONFLICT (profile_id, billing_period) DO NOTHING, profile after profile. */
  function OpenAll(db: Db, ps: seq<Profile>, now: Instant, cycles: seq<Cycle>, nextId: nat): Opened
    requires LocalDay(now) >= 0
    decreases |ps|
  {
    if ps == [] then Opened(cycles, nextId)
    else if DueForCycle(db, ps[0], now) && !Taken(cycles, ps[0].id, NextPeriod(now, ps[0].billingDay)) then
      OpenAll(db, ps[1..], now, cycles + [NewCycle(db, ps[0], now, nextId)], nextId + 1)
    else OpenAll(db, ps[1..], now, cycles, nextId)
  }

  function OpenCycles(db: Db, now: Instant): Db
    requires LocalDay(now) >= 0
  {
    var extended := OpenAll(db, db.profiles, now, db.cycles, db.nextId);
    db.(cycles := extended.cycles, nextId := extended.nextId)
  }

  function FillCycles(db: Db): Db {
    db.(cycleItems := db.cycleItems + Filled(db, db.cycles))
  }

  predicate NeedsReview(db: Db, c: Cycle) {
    c.state == Scheduled
    && exists v :: v in db.invoices && v.student == c.student && v.period == c.period && !v.linked
                   && v.manualOrLegacy && !v.voided && v.paid > 0
  }

  function Review(db: Db): Db {
    db.(cycles := seq(|db.cycles|, i requires 0 <= i < |db.cycles| =>
                    if NeedsReview(db, db.cycles[i]) then db.cycles[i].(state := ReviewRequired, version := db.cycles[i].version + 1)
                    else db.cycles[i]))
  }

  function Migrate(db: Db, now: Instant): Db
    requires LocalDay(now) >= 0
  {
    Review(FillCycles(OpenCycles(db, now)))
  }

  // ------------------------------------------------------ totals against items

  lemma {:induction false} RowsForTotal(x: Item, enrollments: seq<Enrollment>, student: nat, cycle: nat, from: nat)
    ensures Total(Numbered(cycle, RowsFor(x, enrollments, student), from)) == AmountFor(x, enrollments, student)
    decreases |enrollments|
  {
    if enrollments != [] {
      if Attends(enrollments[0], student, x.group) {
        assert RowsFor(x, enrollments, student)[1..] == RowsFor(x, enrollments[1..], student);
        RowsForTotal(x, enrollments[1..], student, cycle, from + 1);
      } else {
        assert RowsFor(x, enrollments, student) == RowsFor(x, enrollments[1..], student);
        RowsForTotal(x, enrollments[1..], student, cycle, from);
      }
    }
  }

  lemma {:induction false} TotalConcat(a: seq<CycleItem>, b: seq<CycleItem>)
    ensures Total(a + b) == Total(a) + Total(b)
  {
    if a == [] {
      assert a + b == b;
    } else {
      assert (a + b)[1..] == a[1..] + b;
      TotalConcat(a[1..], b);
    }
  }

  lemma {:induction false} NumberedConcat(cycle: nat, a: seq<Item>, b: seq<Item>, from: nat)
    ensures Numbered(cycle, a + b, from) == Numbered(cycle, a, from) + Numbered(cycle, b, from + |a|)
    decreases |a|
  {
    if a == [] {
      assert a + b == b;
    } else {
      assert (a + b)[1..] == a[1..] + b;
      NumberedConcat(cycle, a[1..], b, from + 1);
    }
  }

  /** The sum of the first query is the total of the rows of the second, on the same date. */
  lemma {:induction false} QueriesAgree(items: seq<Item>, enrollments: seq<Enrollment>, profile: nat, student: nat, date: int,
                                        cycle: nat, from: nat)
    ensures Total(Numbered(cycle, JoinedRows(items, enrollments, profile, student, date), from))
            == Expected(items, enrollments, profile, student, date)
    decreases |items|
  {
    if items != [] {
      var head := if Billable(items[0], profile, date) then RowsFor(items[0], enrollments, student) else [];
      var rest := JoinedRows(items[1..], enrollments, profile, student, date);
      RowsForTotal(items[0], enrollments, student, cycle, from);
      QueriesAgree(items[1..], enrollments, profile, student, date, cycle, from + |head|);
      NumberedConcat(cycle, head, rest, from);
      TotalConcat(Numbered(cycle, head, from), Numbered(cycle, rest, from + |head|));
    }
  }

  lemma {:induction false} NumberedAt(cycle: nat, rows: seq<Item>, from: nat)
    ensures |Numbered(cycle, rows, from)| == |rows|
    ensures forall k :: 0 <= k < |rows| ==> Numbered(cycle, rows, from)[k] == CycleItem(cycle, rows[k].id, rows[k].amount, from + k)
    decreases |rows|
  {
    if rows != [] {
      NumberedAt(cycle, rows[1..], from + 1);
    }
  }

  lemma {:induction false} ItemsOfConcat(a: seq<CycleItem>, b: seq<CycleItem>, cycle: nat)
    ensures ItemsOf(a + b, cycle) == ItemsOf(a, cycle) + ItemsOf(b, cycle)
  {
    if a == [] {
      assert a + b == b;
    } else {
      assert (a + b)[1..] == a[1..] + b;
      ItemsOfConcat(a[1..], b, cycle);
      Associate(if a[0].cycle == cycle then [a[0]] else [], ItemsOf(a[1..], cycle), ItemsOf(b, cycle));
    }
  }

  lemma {:induction false} ItemsOfOwn(rows: seq<CycleItem>, cycle: nat)
    ensures (forall x :: x in rows ==> x.cycle == cycle) ==> ItemsOf(rows, cycle) == rows
    ensures (forall x :: x in rows ==> x.cycle != cycle) ==> ItemsOf(rows, cycle) == []
  {
    if rows != [] {
      assert rows == [rows[0]] + rows[1..];
      ItemsOfOwn(rows[1..], cycle);
    }
  }

  lemma ItemsForOwn(db: Db, c: Cycle, cycle: nat)
    ensures ItemsOf(ItemsFor(db, c), cycle) == if c.id == cycle then ItemsFor(db, c) else []
  {
    NumberedAt(c.id, JoinedRows(db.items, db.enrollments, c.profile, c.student, LocalDay(c.dueAt)), 0);
    ItemsOfOwn(ItemsFor(db, c), cycle);
  }

  lemma FilledHead(db: Db, cycles: seq<Cycle>, id: nat)
    requires cycles != []
    ensures ItemsOf(Filled(db, cycles), id)
            == (if cycles[0].id == id && !HasItems(db.cycleItems, id) then ItemsFor(db, cycles[0]) else [])
               + ItemsOf(Filled(db, cycles[1..]), id)
  {
    ItemsForOwn(db, cycles[0], id);
    ItemsOfConcat(if HasItems(db.cycleItems, cycles[0].id) then [] else ItemsFor(db, cycles[0]), Filled(db, cycles[1..]), id);
  }

  lemma {:induction false} FilledOf(db: Db, cycles: seq<Cycle>, c: Cycle)
    requires forall i, j :: 0 <= i < j < |cycles| ==> cycles[i].id != cycles[j].id
    ensures (forall x :: x in cycles ==> x.id != c.id) ==> ItemsOf(Filled(db, cycles), c.id) == []
    ensures c in cycles ==>
              ItemsOf(Filled(db, cycles), c.id) == if HasItems(db.cycleItems, c.id) then [] else ItemsFor(db, c)
  {
    if cycles != [] {
      assert cycles == [cycles[0]] + cycles[1..];
      FilledOf(db, cycles[1..], c);
      FilledHead(db, cycles, c.id);
    }
  }

  // ----------------------------------------------------------- what is extended

  /** Existing cycles stay, and every further one is a new cycle for a due profile. */
  predicate Extends(db: Db, now: Instant, before: seq<Cycle>, first: nat, after: Opened)
    requires LocalDay(now) >= 0
  {
    && |before| <= |after.cycles| && after.cycles[..|before|] == before
    && first <= after.nextId
    && forall k :: |before| <= k < |after.cycles| ==>
         && first <= after.cycles[k].id < after.nextId
         && exists p :: p in db.profiles && DueForCycle(db, p, now) && after.cycles[k] == NewCycle(db, p, now, after.cycles[k].id)
  }

  lemma AppendCycle(cycles: seq<Cycle>, nextId: nat, c: Cycle)
    requires CyclesOk(cycles, nextId) && c.id == nextId && !Taken(cycles, c.profile, c.period)
    ensures CyclesOk(cycles + [c], nextId + 1)
  {
    var longer := cycles + [c];
    forall i, j | 0 <= i < j < |longer|
      ensures longer[i].id != longer[j].id
      ensures longer[i].profile != longer[j].profile || longer[i].period != longer[j].period
    {
      assert longer[i] == cycles[i] && cycles[i] in cycles;
    }
  }

  lemma {:induction false} OpenAllOk(db: Db, ps: seq<Profile>, now: Instant, cycles: seq<Cycle>, nextId: nat)
    requires LocalDay(now) >= 0 && CyclesOk(cycles, nextId) && forall p :: p in ps ==> p in db.profiles
    ensures CyclesOk(OpenAll(db, ps, now, cycles, nextId).cycles, OpenAll(db, ps, now, cycles, nextId).nextId)
    ensures Extends(db, now, cycles, nextId, OpenAll(db, ps, now, cycles, nextId))
    decreases |ps|
  {
    if ps != [] {
      var p := ps[0];
      assert p in ps && forall q :: q in ps[1..] ==> q in ps;
      if DueForCycle(db, p, now) && !Taken(cycles, p.id, NextPeriod(now, p.billingDay)) {
        var c := NewCycle(db, p, now, nextId);
        AppendCycle(cycles, nextId, c);
        OpenAllOk(db, ps[1..], now, cycles + [c], nextId + 1);
        ExtendsStep(db, now, cycles, nextId, c, p, OpenAll(db, ps[1..], now, cycles + [c], nextId + 1));
      } else {
        OpenAllOk(db, ps[1..], now, cycles, nextId);
      }
    }
  }

  lemma ExtendsStep(db: Db, now: Instant, cycles: seq<Cycle>, nextId: nat, c: Cycle, p: Profile, after: Opened)
    requires LocalDay(now) >= 0 && p in db.profiles && DueForCycle(db, p, now) && c == NewCycle(db, p, now, nextId)
    requires Extends(db, now, cycles + [c], nextId + 1, after)
    ensures Extends(db, now, cycles, nextId, after)
  {
    assert after.cycles[..|cycles|] == (cycles + [c])[..|cycles|] == cycles;
    assert after.cycles[|cycles|] == after.cycles[..|cycles| + 1][|cycles|] == c;
  }

  /** Every due profile ends with a cycle for its next period. */
  lemma {:induction false} OpenAllCovers(db: Db, ps: seq<Profile>, now: Instant, cycles: seq<Cycle>, nextId: nat, p: Profile)
    requires LocalDay(now) >= 0
    requires (p in ps && DueForCycle(db, p, now)) || Taken(cycles, p.id, NextPeriod(now, p.billingDay))
    ensures Taken(OpenAll(db, ps, now, cycles, nextId).cycles, p.id, NextPeriod(now, p.billingDay))
    decreases |ps|
  {
    if ps != [] {
      assert ps == [ps[0]] + ps[1..];
      var opens := DueForCycle(db, ps[0], now) && !Taken(cycles, ps[0].id, NextPeriod(now, ps[0].billingDay));
      var longer := cycles + [NewCycle(db, ps[0], now, nextId)];
      if opens {
        assert longer[|cycles|] in longer;
        if Taken(cycles, p.id, NextPeriod(now, p.billingDay)) {
          var c :| c in cycles && c.profile == p.id && c.period == NextPeriod(now, p.billingDay);
          assert c in longer;
        }
        OpenAllCovers(db, ps[1..], now, longer, nextId + 1, p);
      } else {
        OpenAllCovers(db, ps[1..], now, cycles, nextId, p);
      }
    }
  }

  // -------------------------------------------------------------- main results

  /** What a newly scheduled cycle promises. */
  ghost predicate Balanced(after: Db, c: Cycle, billingDay: int, now: Instant) {
    && c.expected == Total(ItemsOf(after.cycleItems, c.id)) && c.expected > 0
    && c.dueAt == Due(c.period, billingDay) && IsEarliestDue(now, billingDay, c.period)
    && (forall k :: 0 <= k < |ItemsOf(after.cycleItems, c.id)| ==> ItemsOf(after.cycleItems, c.id)[k].order == k)
  }

  lemma ItemsOfNone(cycleItems: seq<CycleItem>, cycle: nat)
    ensures ItemsOf(cycleItems, cycle) == [] <== forall x :: x in cycleItems ==> x.cycle != cycle
  {
    ItemsOfOwn(cycleItems, cycle);
  }

  lemma FreshCycleItems(db: Db, c: Cycle)
    requires CyclesOk(db.cycles, db.nextId) && c in db.cycles && forall x :: x in db.cycleItems ==> x.cycle != c.id
    ensures ItemsOf(FillCycles(db).cycleItems, c.id) == ItemsFor(db, c)
  {
    FilledOf(db, db.cycles, c);
    ItemsOfNone(db.cycleItems, c.id);
    ItemsOfConcat(db.cycleItems, Filled(db, db.cycles), c.id);
  }

  lemma NewCycleBalanced(db: Db, p: Profile, now: Instant, c: Cycle)
    requires LocalDay(now) >= 0 && 1 <= p.billingDay <= 28 && DueForCycle(db, p, now)
    requires c == NewCycle(db, p, now, c.id)
    ensures Total(ItemsFor(db, c)) == c.expected > 0
    ensures IsEarliestDue(now, p.billingDay, c.period)
    ensures forall k :: 0 <= k < |ItemsFor(db, c)| ==> ItemsFor(db, c)[k].order == k
  {
    DueFallsInPeriod(c.period, p.billingDay);
    QueriesAgree(db.items, db.enrollments, c.profile, c.student, LocalDay(c.dueAt), c.id, 0);
    NumberedAt(c.id, JoinedRows(db.items, db.enrollments, c.profile, c.student, LocalDay(c.dueAt)), 0);
    NextPeriodIsEarliest(now, p.billingDay);
  }

  /**
   Every cycle that the migration adds expects exactly the sum of its own items,
   though the two come from separate queries, and is due first after now.
   */
  lemma NewCyclesBalanced(db: Db, now: Instant, k: nat)
    requires LocalDay(now) >= 0 && DbOk(db)
    requires |db.cycles| <= k < |Migrate(db, now).cycles|
    ensures exists p :: p in db.profiles && p.id == Migrate(db, now).cycles[k].profile
                        && Balanced(Migrate(db, now), Migrate(db, now).cycles[k], p.billingDay, now)
  {
    var extended := OpenCycles(db, now);
    var c := extended.cycles[k];
    OpenAllOk(db, db.profiles, now, db.cycles, db.nextId);
    var p :| p in db.profiles && DueForCycle(db, p, now) && c == NewCycle(db, p, now, c.id);
    assert Migrate(db, now).cycles[k].(state := Scheduled, version := 1) == c;
    assert c in extended.cycles;
    NewCycleBalanced(db, p, now, c);
    SameItems(db, extended, c);
    FreshCycleItems(extended, c);
    assert Balanced(Migrate(db, now), Migrate(db, now).cycles[k], p.billingDay, now);
  }

  lemma SameItems(a: Db, b: Db, c: Cycle)
    requires a.items == b.items && a.enrollments == b.enrollments
    ensures ItemsFor(a, c) == ItemsFor(b, c)
  {
  }

  /** Earlier cycles keep all but their review state; a profile never has two cycles of one period; none is missing. */
  lemma MigrateKeepsCycles(db: Db, now: Instant)
    requires LocalDay(now) >= 0 && DbOk(db)
    ensures var after := Migrate(db, now);
            && |db.cycles| <= |after.cycles| && CyclesOk(after.cycles, after.nextId)
            && (forall k :: 0 <= k < |db.cycles| ==>
                  after.cycles[k].(state := Scheduled, version := 0) == db.cycles[k].(state := Scheduled, version := 0))
            && (forall p :: p in db.profiles && DueForCycle(db, p, now) ==> Taken(after.cycles, p.id, NextPeriod(now, p.billingDay)))
  {
    var extended := OpenCycles(db, now);
    OpenAllOk(db, db.profiles, now, db.cycles, db.nextId);
    ReviewKeeps(FillCycles(extended));
    forall p | p in db.profiles && DueForCycle(db, p, now)
      ensures Taken(Migrate(db, now).cycles, p.id, NextPeriod(now, p.billingDay))
    {
      OpenAllCovers(db, db.profiles, now, db.cycles, db.nextId, p);
      var c :| c in extended.cycles && c.profile == p.id && c.period == NextPeriod(now, p.billingDay);
      var k :| 0 <= k < |extended.cycles| && extended.cycles[k] == c;
      assert Migrate(db, now).cycles[k] in Migrate(db, now).cycles;
    }
    assert extended.cycles[..|db.cycles|] == db.cycles;
    forall k | 0 <= k < |db.cycles|
      ensures extended.cycles[k] == db.cycles[k]
    {
      assert extended.cycles[..|db.cycles|][k] == extended.cycles[k];
    }
  }

  lemma ReviewKeeps(db: Db)
    requires CyclesOk(db.cycles, db.nextId)
    ensures var after := Review(db);
            && CyclesOk(after.cycles, db.nextId) && |after.cycles| == |db.cycles|
            && forall k :: 0 <= k < |db.cycles| ==>
                 after.cycles[k].(state := Scheduled, version := 0) == db.cycles[k].(state := Scheduled, version := 0)
  {
    var after := Review(db);
    forall k | 0 <= k < |db.cycles|
      ensures after.cycles[k].id == db.cycles[k].id && after.cycles[k].profile == db.cycles[k].profile
      ensures after.cycles[k].period == db.cycles[k].period && after.cycles[k].id < db.nextId
    {
      assert db.cycles[k] in db.cycles;
    }
  }

  // -------------------------------------------- what is opened, billed, reviewed

  /** How often the student attends the group: active enrolments of the pair. */
  function TimesEnrolled(enrollments: seq<Enrollment>, student: nat, group: nat): nat {
    if enrollments == [] then 0
    else (if enrollments[0].student == student && enrollments[0].group == group && enrollments[0].active then 1 else 0)
         + TimesEnrolled(enrollments[1..], student, group)
  }

  /** The rows of a cycle that bill one item. */
  function RowCount(cycleItems: seq<CycleItem>, item: nat): nat {
    if cycleItems == [] then 0 else (if cycleItems[0].item == item then 1 else 0) + RowCount(cycleItems[1..], item)
  }

  lemma {:induction false} RowCountConcat(a: seq<CycleItem>, b: seq<CycleItem>, item: nat)
    ensures RowCount(a + b, item) == RowCount(a, item) + RowCount(b, item)
  {
    if a == [] {
      assert a + b == b;
    } else {
      assert (a + b)[1..] == a[1..] + b;
      RowCountConcat(a[1..], b, item);
    }
  }

  lemma {:induction false} RowsForCount(x: Item, enrollments: seq<Enrollment>, student: nat, cycle: nat, from: nat, item: nat)
    ensures RowCount(Numbered(cycle, RowsFor(x, enrollments, student), from), item)
            == if x.id == item then TimesEnrolled(enrollments, student, x.group) else 0
    decreases |enrollments|
  {
    if enrollments != [] {
      var rest := RowsFor(x, enrollments[1..], student);
      if RowsFor(x, enrollments, student) == [x] + rest {
        assert ([x] + rest)[1..] == rest;
        RowsForCount(x, enrollments[1..], student, cycle, from + 1, item);
      } else {
        assert RowsFor(x, enrollments, student) == rest;
        RowsForCount(x, enrollments[1..], student, cycle, from, item);
      }
    }
  }

  /** One item's part of a cycle, read off the item, the student and the date. */
  function TimesBilled(x: Item, enrollments: seq<Enrollment>, profile: nat, student: nat, date: int): nat {
    if x.profile == profile && x.active && x.activeFrom <= date && (x.activeUntil.Some? ==> date <= x.activeUntil.value)
    then TimesEnrolled(enrollments, student, x.group) else 0
  }

  function HeadRows(items: seq<Item>, enrollments: seq<Enrollment>, profile: nat, student: nat, date: int): seq<Item>
    requires items != []
  {
    if Billable(items[0], profile, date) then RowsFor(items[0], enrollments, student) else []
  }

  /** The first item's rows come first, and bill it as often as its fields say. */
  lemma JoinedHead(items: seq<Item>, enrollments: seq<Enrollment>, profile: nat, student: nat, date: int,
                   cycle: nat, from: nat, item: nat)
    requires items != []
    ensures var head := HeadRows(items, enrollments, profile, student, date);
            var rows := Numbered(cycle, head, from);
            var rest := Numbered(cycle, JoinedRows(items[1..], enrollments, profile, student, date), from + |head|);
            && Numbered(cycle, JoinedRows(items, enrollments, profile, student, date), from) == rows + rest
            && RowCount(rows + rest, item) == RowCount(rows, item) + RowCount(rest, item)
            && RowCount(rows, item) == (if items[0].id == item then TimesBilled(items[0], enrollments, profile, student, date) else 0)
  {
    var head := HeadRows(items, enrollments, profile, student, date);
    var rest := JoinedRows(items[1..], enrollments, profile, student, date);
    assert JoinedRows(items, enrollments, profile, student, date) == head + rest;
    NumberedConcat(cycle, head, rest, from);
    RowCountConcat(Numbered(cycle, head, from), Numbered(cycle, rest, from + |head|), item);
    RowsForCount(items[0], enrollments, student, cycle, from, item);
  }

  lemma {:induction false} JoinedRowsCount(items: seq<Item>, enrollments: seq<Enrollment>, profile: nat, student: nat, date: int,
                                           cycle: nat, from: nat, x: Item)
    requires forall i, j :: 0 <= i < j < |items| ==> items[i].id != items[j].id
    ensures var rows := Numbered(cycle, JoinedRows(items, enrollments, profile, student, date), from);
            && (x in items ==> RowCount(rows, x.id) == TimesBilled(x, enrollments, profile, student, date))
            && ((forall y :: y in items ==> y.id != x.id) ==> RowCount(rows, x.id) == 0)
    decreases |items|
  {
    if items != [] {
      JoinedHead(items, enrollments, profile, student, date, cycle, from, x.id);
      JoinedRowsCount(items[1..], enrollments, profile, student, date, cycle,
                      from + |HeadRows(items, enrollments, profile, student, date)|, x);
      OthersDiffer(items);
    }
  }

  /** The row bills one of the items at its amount. */
  predicate Prices(items: seq<Item>, row: CycleItem) {
    exists y :: y in items && y.id == row.item && y.amount == row.amount
  }

  lemma {:induction false} RowsForMembers(x: Item, enrollments: seq<Enrollment>, student: nat)
    ensures forall y :: y in RowsFor(x, enrollments, student) ==> y == x
  {
    if enrollments != [] {
      RowsForMembers(x, enrollments[1..], student);
    }
  }

  lemma {:induction false} JoinedRowsMembers(items: seq<Item>, enrollments: seq<Enrollment>, profile: nat, student: nat, date: int)
    ensures forall y :: y in JoinedRows(items, enrollments, profile, student, date) ==> y in items
  {
    if items != [] {
      RowsForMembers(items[0], enrollments, student);
      JoinedRowsMembers(items[1..], enrollments, profile, student, date);
    }
  }

  predicate InItemOrder(rows: seq<Item>) {
    forall i, j :: 0 <= i < j < |rows| ==> rows[i].id <= rows[j].id
  }

  lemma {:induction false} JoinedRowsAscend(items: seq<Item>, enrollments: seq<Enrollment>, profile: nat, student: nat, date: int)
    requires ItemsAscend(items)
    ensures InItemOrder(JoinedRows(items, enrollments, profile, student, date))
  {
    if items != [] {
      var head := HeadRows(items, enrollments, profile, student, date);
      var rest := JoinedRows(items[1..], enrollments, profile, student, date);
      RowsForMembers(items[0], enrollments, student);
      JoinedRowsAscend(items[1..], enrollments, profile, student, date);
      JoinedRowsMembers(items[1..], enrollments, profile, student, date);
      AscendingParts(items[0], head, rest, items[1..]);
    }
  }

  lemma AscendingParts(x: Item, head: seq<Item>, rest: seq<Item>, others: seq<Item>)
    requires forall y :: y in head ==> y == x
    requires forall y :: y in rest ==> y in others
    requires forall k :: 0 <= k < |others| ==> x.id < others[k].id
    requires InItemOrder(rest)
    ensures InItemOrder(head + rest)
  {
    forall i, j | 0 <= i < j < |head + rest|
      ensures (head + rest)[i].id <= (head + rest)[j].id
    {
      if i < |head| {
        assert head[i] in head;
        if j < |head| {
          assert head[j] in head;
        } else {
          assert rest[j - |head|] in others;
        }
      }
    }
  }

  lemma JoinedRowsPriced(items: seq<Item>, enrollments: seq<Enrollment>, profile: nat, student: nat, date: int, cycle: nat)
    ensures forall row :: row in Numbered(cycle, JoinedRows(items, enrollments, profile, student, date), 0) ==> Prices(items, row)
  {
    var joined := JoinedRows(items, enrollments, profile, student, date);
    var rows := Numbered(cycle, joined, 0);
    NumberedAt(cycle, joined, 0);
    JoinedRowsMembers(items, enrollments, profile, student, date);
    forall k | 0 <= k < |rows|
      ensures Prices(items, rows[k])
    {
      assert joined[k] in joined;
    }
  }

  lemma OthersDiffer(items: seq<Item>)
    requires items != [] && forall i, j :: 0 <= i < j < |items| ==> items[i].id != items[j].id
    ensures forall y :: y in items <==> y == items[0] || y in items[1..]
    ensures forall y :: y in items[1..] ==> y.id != items[0].id
  {
    assert items == [items[0]] + items[1..];
    forall y | y in items[1..]
      ensures y.id != items[0].id
    {
      var k :| 0 <= k < |items[1..]| && items[1..][k] == y;
      assert items[k + 1] == y;
    }
  }

  lemma ItemsAfterFilling(db: Db, c: Cycle)
    requires CyclesOk(db.cycles, db.nextId) && c in db.cycles
    ensures ItemsOf(FillCycles(db).cycleItems, c.id)
            == if ItemsOf(db.cycleItems, c.id) == [] then ItemsFor(db, c) else ItemsOf(db.cycleItems, c.id)
  {
    FilledOf(db, db.cycles, c);
    ItemsOfConcat(db.cycleItems, Filled(db, db.cycles), c.id);
    ItemsOfMembers(db.cycleItems, c.id);
    if HasItems(db.cycleItems, c.id) {
      var row :| row in db.cycleItems && row.cycle == c.id;
      assert row in ItemsOf(db.cycleItems, c.id);
    } else {
      assert forall row :: row in ItemsOf(db.cycleItems, c.id) ==> row in db.cycleItems;
      ItemsOfNone(db.cycleItems, c.id);
    }
  }

  lemma {:induction false} ItemsOfMembers(cycleItems: seq<CycleItem>, cycle: nat)
    ensures forall row :: row in ItemsOf(cycleItems, cycle) <==> row in cycleItems && row.cycle == cycle
  {
    if cycleItems != [] {
      assert cycleItems == [cycleItems[0]] + cycleItems[1..];
      ItemsOfMembers(cycleItems[1..], cycle);
    }
  }

  /**
   What a cycle bills, whether it is new or was there without items: each item
   of the profile that is active on the local due date, both ends of its range
   included, once for each active enrolment of the student in its group, at the
   item's amount, in item order, and nothing else.  A cycle that had items keeps
   them.
   */
  lemma BillsExactly(db: Db, now: Instant, k: nat, x: Item)
    requires LocalDay(now) >= 0 && DbOk(db) && k < |Migrate(db, now).cycles| && x in db.items
    ensures var c := Migrate(db, now).cycles[k];
            var was, rows := ItemsOf(db.cycleItems, c.id), ItemsOf(Migrate(db, now).cycleItems, c.id);
            && (was != [] ==> rows == was)
            && (was == [] ==> RowCount(rows, x.id) == TimesBilled(x, db.enrollments, c.profile, c.student, LocalDay(c.dueAt)))
            && (was == [] ==> forall row :: row in rows ==> Prices(db.items, row))
            && (was == [] ==> forall i, j :: 0 <= i < j < |rows| ==> rows[i].item <= rows[j].item && rows[i].order < rows[j].order)
  {
    var extended := OpenCycles(db, now);
    var c := extended.cycles[k];
    OpenAllOk(db, db.profiles, now, db.cycles, db.nextId);
    assert c in extended.cycles && SameButReview(c, Migrate(db, now).cycles[k]);
    ItemsAfterFilling(extended, c);
    SameItems(db, extended, c);
    JoinedRowsCount(db.items, db.enrollments, c.profile, c.student, LocalDay(c.dueAt), c.id, 0, x);
    JoinedRowsPriced(db.items, db.enrollments, c.profile, c.student, LocalDay(c.dueAt), c.id);
    JoinedRowsAscend(db.items, db.enrollments, c.profile, c.student, LocalDay(c.dueAt));
    NumberedAt(c.id, JoinedRows(db.items, db.enrollments, c.profile, c.student, LocalDay(c.dueAt)), 0);
  }

  predicate SameButReview(c: Cycle, d: Cycle) {
    d.(state := c.state, version := c.version) == c
  }

  lemma {:induction false} AmountIsTimes(x: Item, enrollments: seq<Enrollment>, student: nat)
    ensures AmountFor(x, enrollments, student) == TimesEnrolled(enrollments, student, x.group) * x.amount
  {
    if enrollments != [] {
      AmountIsTimes(x, enrollments[1..], student);
    }
  }

  predicate BillsSomething(items: seq<Item>, enrollments: seq<Enrollment>, profile: nat, student: nat, date: int) {
    exists x :: x in items && TimesBilled(x, enrollments, profile, student, date) > 0
  }

  lemma {:induction false} ExpectedPositive(items: seq<Item>, enrollments: seq<Enrollment>, profile: nat, student: nat, date: int)
    requires forall x :: x in items ==> x.amount > 0
    ensures Expected(items, enrollments, profile, student, date) >= 0
    ensures Expected(items, enrollments, profile, student, date) > 0 <==> BillsSomething(items, enrollments, profile, student, date)
  {
    if items != [] {
      var x := items[0];
      assert items == [x] + items[1..];
      ExpectedPositive(items[1..], enrollments, profile, student, date);
      AmountIsTimes(x, enrollments, student);
      assert x.amount > 0;
      TimesPositive(TimesEnrolled(enrollments, student, x.group), x.amount);
      assert TimesBilled(x, enrollments, profile, student, date) > 0 ==> BillsSomething(items, enrollments, profile, student, date);
      if y :| y in items[1..] && TimesBilled(y, enrollments, profile, student, date) > 0 {
        assert y in items;
      }
    }
  }

  lemma TimesPositive(times: nat, amount: int)
    requires amount > 0
    ensures times * amount >= 0 && (times * amount > 0 <==> times > 0)
  {
  }

  /** The profile runs on its next billing date and bills something then. */
  predicate Runs(db: Db, p: Profile, date: int) {
    && p.active && p.student in db.activeStudents
    && p.startsOn <= date && (p.endsOn.Some? ==> date <= p.endsOn.value)
    && BillsSomething(db.items, db.enrollments, p.id, p.student, date)
  }

  /**
   A profile gets a new cycle exactly when its next period has none yet, it and
   its student are active, the billing date lies in its range and some active
   item of it, at an active enrolment, is billed then; the new cycle is for the
   profile's student and due at the period's due instant.
   */
  lemma OpensExactly(db: Db, now: Instant, p: Profile)
    requires LocalDay(now) >= 0 && DbOk(db) && p in db.profiles
    ensures var after, period := Migrate(db, now).cycles, NextPeriod(now, p.billingDay);
            && |db.cycles| <= |after|
            && ((exists k :: |db.cycles| <= k < |after| && after[k].profile == p.id)
                <==> !Taken(db.cycles, p.id, period) && Runs(db, p, MonthStart(period) + p.billingDay - 1))
            && forall k :: |db.cycles| <= k < |after| && after[k].profile == p.id ==>
                 after[k].student == p.student && after[k].period == period && after[k].dueAt == Due(period, p.billingDay)
  {
    var before, after, period := OpenCycles(db, now).cycles, Migrate(db, now).cycles, NextPeriod(now, p.billingDay);
    OpenAllOk(db, db.profiles, now, db.cycles, db.nextId);
    RunsIsDue(db, p, now);
    forall k | |db.cycles| <= k < |after| && after[k].profile == p.id
      ensures SameButReview(NewCycle(db, p, now, before[k].id), after[k]) && DueForCycle(db, p, now) && !Taken(db.cycles, p.id, period)
    {
      AddedFor(db, now, p, k);
    }
    if DueForCycle(db, p, now) && !Taken(db.cycles, p.id, period) {
      var k := OpenedFor(db, now, p);
      assert after[k].profile == p.id;
    }
  }

  lemma RunsIsDue(db: Db, p: Profile, now: Instant)
    requires LocalDay(now) >= 0 && DbOk(db)
    ensures DueForCycle(db, p, now) <==> Runs(db, p, MonthStart(NextPeriod(now, p.billingDay)) + p.billingDay - 1)
  {
    ExpectedPositive(db.items, db.enrollments, p.id, p.student, DateFor(p, now));
  }

  lemma OpenedFor(db: Db, now: Instant, p: Profile) returns (k: nat)
    requires LocalDay(now) >= 0 && DbOk(db) && p in db.profiles
    requires DueForCycle(db, p, now) && !Taken(db.cycles, p.id, NextPeriod(now, p.billingDay))
    ensures |db.cycles| <= k < |OpenCycles(db, now).cycles| && OpenCycles(db, now).cycles[k].profile == p.id
  {
    var cycles := OpenCycles(db, now).cycles;
    OpenAllOk(db, db.profiles, now, db.cycles, db.nextId);
    OpenAllCovers(db, db.profiles, now, db.cycles, db.nextId, p);
    var c :| c in cycles && c.profile == p.id && c.period == NextPeriod(now, p.billingDay);
    forall j | 0 <= j < |db.cycles|
      ensures cycles[j] in db.cycles
    {
      assert cycles[j] == cycles[..|db.cycles|][j] == db.cycles[j];
    }
    k :| 0 <= k < |cycles| && cycles[k] == c;
  }

  lemma AddedFor(db: Db, now: Instant, p: Profile, k: nat)
    requires LocalDay(now) >= 0 && DbOk(db) && p in db.profiles
    requires |db.cycles| <= k < |OpenCycles(db, now).cycles| && OpenCycles(db, now).cycles[k].profile == p.id
    ensures OpenCycles(db, now).cycles[k] == NewCycle(db, p, now, OpenCycles(db, now).cycles[k].id) && DueForCycle(db, p, now)
    ensures !Taken(db.cycles, p.id, NextPeriod(now, p.billingDay))
  {
    var cycles := OpenCycles(db, now).cycles;
    OpenAllOk(db, db.profiles, now, db.cycles, db.nextId);
    var q :| q in db.profiles && DueForCycle(db, q, now) && cycles[k] == NewCycle(db, q, now, cycles[k].id);
    assert q == p;
    forall c | c in db.cycles
      ensures c.profile != p.id || c.period != NextPeriod(now, p.billingDay)
    {
      var j :| 0 <= j < |db.cycles| && db.cycles[j] == c;
      assert cycles[j] == cycles[..|db.cycles|][j] == c;
    }
  }

  /**
   Exactly the cycles that were scheduled, or have just been opened, go to
   review whose student has a paid invoice of that month by hand or from before
   that no cycle is linked to; every other cycle keeps its state and version.
   */
  lemma ReviewsExactly(db: Db, now: Instant, k: nat)
    requires LocalDay(now) >= 0 && DbOk(db) && k < |Migrate(db, now).cycles|
    ensures |db.cycles| <= |Migrate(db, now).cycles|
    ensures var c := Migrate(db, now).cycles[k];
            var state, version := if k < |db.cycles| then db.cycles[k].state else Scheduled, if k < |db.cycles| then db.cycles[k].version else 1;
            var paidOtherwise := exists v :: v in db.invoices && v.student == c.student && v.period == c.period
                                              && v.manualOrLegacy && v.paid > 0 && !(v.linked || v.voided);
            if state.Scheduled? && paidOtherwise then c.state.ReviewRequired? && c.version == version + 1
            else c.state == state && c.version == version
  {
    var extended := OpenCycles(db, now);
    OpenAllOk(db, db.profiles, now, db.cycles, db.nextId);
    assert k < |db.cycles| ==> extended.cycles[..|db.cycles|][k] == extended.cycles[k];
  }

  // ---------------------------------------------------------- in-place tables

  /** The cycle tables, filled by the migration's statements in order. */
  class BillingTables {
    const profiles: seq<Profile>
    const activeStudents: set<nat>
    const items: seq<Item>
    const enrollments: seq<Enrollment>
    const invoices: seq<Invoice>
    var cycles: seq<Cycle>
    var cycleItems: seq<CycleItem>
    var nextId: nat

    function Tables(): Db
      reads this
    {
      Db(profiles, activeStudents, items, enrollments, invoices, cycles, cycleItems, nextId)
    }

    constructor (db: Db)
      ensures Tables() == db
    {
      profiles, activeStudents, items := db.profiles, db.activeStudents, db.items;
      enrollments, invoices := db.enrollments, db.invoices;
      cycles, cycleItems, nextId := db.cycles, db.cycleItems, db.nextId;
    }

    /** Inserts the next cycle of every due profile. */
    method InsertCycles(now: Instant)
      requires LocalDay(now) >= 0
      modifies this
      ensures Tables() == OpenCycles(old(Tables()), now)
    {
      ghost var before := Tables();
      for i := 0 to |profiles|
        invariant OpenAll(before, profiles[i..], now, cycles, nextId) == OpenAll(before, profiles, now, before.cycles, before.nextId)
        invariant cycleItems == before.cycleItems
      {
        assert profiles[i..][1..] == profiles[i + 1..];
        SameDue(before, Tables(), profiles[i], now, nextId);
        if DueForCycle(Tables(), profiles[i], now) && !Taken(cycles, profiles[i].id, NextPeriod(now, profiles[i].billingDay)) {
          cycles := cycles + [NewCycle(Tables(), profiles[i], now, nextId)];
          nextId := nextId + 1;
        }
      }
    }

    /** Inserts the items of every cycle that has none. */
    method InsertCycleItems()
      modifies this
      ensures Tables() == FillCycles(old(Tables()))
    {
      cycleItems := cycleItems + Filled(Tables(), cycles);
    }

    method MarkForReview()
      modifies this
      ensures Tables() == Review(old(Tables()))
    {
      cycles := Review(Tables()).cycles;
    }

    /** The whole run: every cycle that it adds is balanced and due first after now. */
    method ScheduleCycles(now: Instant)
      requires LocalDay(now) >= 0 && DbOk(Tables())
      modifies this
      ensures Tables() == Migrate(old(Tables()), now)
      ensures |old(cycles)| <= |cycles| && CyclesOk(cycles, nextId)
      ensures forall k :: |old(cycles)| <= k < |cycles| ==>
                exists p :: p in profiles && p.id == cycles[k].profile && Balanced(Tables(), cycles[k], p.billingDay, now)
    {
      ghost var before := Tables();
      MigrateKeepsCycles(before, now);
      InsertCycles(now);
      InsertCycleItems();
      MarkForReview();
      forall k | |before.cycles| <= k < |cycles|
        ensures exists p :: p in profiles && p.id == cycles[k].profile && Balanced(Tables(), cycles[k], p.billingDay, now)
      {
        NewCyclesBalanced(before, now, k);
      }
    }
  }

  lemma SameDue(a: Db, b: Db, p: Profile, now: Instant, id: nat)
    requires LocalDay(now) >= 0
    requires a.items == b.items && a.enrollments == b.enrollments && a.activeStudents == b.activeStudents
    ensures DueForCycle(a, p, now) == DueForCycle(b, p, now) && NewCycle(a, p, now, id) == NewCycle(b, p, now, id)
  {
  }
}
