/**
 The stage history of teacher candidates and the four migrations that shape
 it: the rebuild from the audit log, the removal of the On Hold stage, the
 repair of unsupported active teachers and the capping of future intervals.
 */
module StageHistory {
  import opened Wrappers
  import opened Sequences
  import opened Numbers

  type Time = int

  const DAY: int := 86400

  datatype Stage =
    | NewCandidate | Responded | JobInterview | TestAndDemo | UnderReview | OnHold
    | TeacherAcademy | ActiveTeacher | Rejected | CandidateWithdrew | TrashBin

  datatype Candidate = Candidate(
    id: nat, status: Stage, stageChangedAt: Option<Time>, updatedAt: Option<Time>, createdAt: Time, version: int)

  datatype EventKind = Created | StageChanged | MovedToTrash | PlacedOnHold | FinalDecision | OtherKind

  /** An audit event; a detail is None when it is missing, empty or no known stage. */
  datatype Event = Event(
    id: nat, candidate: nat, kind: EventKind, stage: Option<Stage>, decision: Option<Stage>, to: Option<Stage>, at: Time)

  datatype Row = Row(candidate: nat, stage: Stage, enteredAt: Time, exitedAt: Option<Time>, slaDueAt: Option<Time>)

  datatype Hold = Hold(id: nat, candidate: nat, origin: Option<Stage>, placedAt: Time, releasedAt: Option<Time>)

  datatype Teacher = Teacher(candidate: Option<nat>, active: bool)

  datatype AcademyTeacher = AcademyTeacher(candidate: Option<nat>, promoted: bool, leftAcademy: bool)

  datatype Db = Db(
    candidates: seq<Candidate>,
    history: seq<Row>,
    holds: seq<Hold>,
    events: seq<Event>,
    teachers: seq<Teacher>,
    academy: seq<AcademyTeacher>,
    sla: map<Stage, nat>)

  // --------------------------------------------------------------- invariants

  predicate IsOpen(r: Row, id: nat) {
    r.candidate == id && r.exitedAt.None?
  }

  /** The number of open intervals of a candidate. */
  function OpenCount(history: seq<Row>, id: nat): nat {
    if history == [] then 0
    else (if IsOpen(history[0], id) then 1 else 0) + OpenCount(history[1..], id)
  }

  predicate DistinctCandidates(cs: seq<Candidate>) {
    forall i, j :: 0 <= i < j < |cs| ==> cs[i].id != cs[j].id
  }

  predicate OneOpen(db: Db) {
    forall c :: c in db.candidates ==> OpenCount(db.history, c.id) == 1
  }

  predicate AtMostOneOpen(db: Db) {
    forall c :: c in db.candidates ==> OpenCount(db.history, c.id) <= 1
  }

  /** Every open interval shows the candidate's current stage. */
  predicate StageMatches(db: Db) {
    forall r, c :: r in db.history && c in db.candidates && IsOpen(r, c.id) ==> r.stage == c.status
  }

  /** The table's time constraint for one row. */
  predicate RowTimeOk(r: Row) {
    r.exitedAt.Some? ==> r.exitedAt.value >= r.enteredAt
  }

  predicate TimesOk(db: Db) {
    forall r :: r in db.history ==> RowTimeOk(r)
  }

  lemma {:induction false} OpenCountConcat(a: seq<Row>, b: seq<Row>, id: nat)
    ensures OpenCount(a + b, id) == OpenCount(a, id) + OpenCount(b, id)
  {
    if a == [] {
      assert a + b == b;
    } else {
      assert (a + b)[1..] == a[1..] + b;
      OpenCountConcat(a[1..], b, id);
    }
  }

  lemma {:induction false} OpenCountZero(h: seq<Row>, id: nat)
    ensures OpenCount(h, id) == 0 <==> forall r :: r in h ==> !IsOpen(r, id)
  {
    if h != [] {
      assert h == [h[0]] + h[1..];
      OpenCountZero(h[1..], id);
    }
  }

  // ------------------------------------------------- the rebuild from the log

  /** The stage that an event puts its candidate in. */
  function EventStage(e: Event): Option<Stage> {
    match e.kind
    case Created => e.stage
    case FinalDecision => e.decision
    case OtherKind => None
    case _ => e.to
  }

  predicate Concerns(e: Event, id: nat) {
    e.candidate == id && EventStage(e).Some?
  }

  predicate Before(e: Event, f: Event) {
    e.at < f.at || (e.at == f.at && e.id < f.id)
  }

  function InsertEvent(e: Event, s: seq<Event>): seq<Event> {
    if s == [] || Before(e, s[0]) then [e] + s else [s[0]] + InsertEvent(e, s[1..])
  }

  /** The candidate's stage events, ORDER BY entered_at, id. */
  function Timeline(events: seq<Event>, id: nat): seq<Event> {
    if events == [] then []
    else if Concerns(events[0], id) then InsertEvent(events[0], Timeline(events[1..], id))
    else Timeline(events[1..], id)
  }

  predicate DistinctEvents(events: seq<Event>) {
    forall i, j :: 0 <= i < j < |events| ==> events[i].id != events[j].id
  }

  predicate InOrder(s: seq<Event>) {
    forall i, j :: 0 <= i < j < |s| ==> Before(s[i], s[j])
  }

  lemma {:induction false} InsertEventOk(e: Event, s: seq<Event>)
    requires InOrder(s) && forall x :: x in s ==> x.id != e.id
    ensures InOrder(InsertEvent(e, s))
    ensures forall x :: x in InsertEvent(e, s) <==> x == e || x in s
    ensures |InsertEvent(e, s)| == |s| + 1
  {
    if s != [] && !Before(e, s[0]) {
      assert s == [s[0]] + s[1..];
      InsertEventOk(e, s[1..]);
      var t := InsertEvent(e, s[1..]);
      assert forall k :: 0 <= k < |t| ==> t[k] in t;
    }
  }

  /** The timeline holds exactly the candidate's stage events, in log order. */
  lemma {:induction false} TimelineIsTheLog(events: seq<Event>, id: nat)
    requires DistinctEvents(events)
    ensures InOrder(Timeline(events, id))
    ensures forall e :: e in Timeline(events, id) <==> e in events && Concerns(e, id)
  {
    if events != [] {
      var rest := events[1..];
      assert events == [events[0]] + rest;
      TimelineIsTheLog(rest, id);
      if Concerns(events[0], id) {
        forall x | x in Timeline(rest, id)
          ensures x.id != events[0].id
        {
          var k :| 0 <= k < |rest| && rest[k] == x;
          assert events[k + 1] == x;
        }
        InsertEventOk(events[0], Timeline(rest, id));
      }
    }
  }

  function Coalesce(a: Option<Time>, b: Time): Time {
    if a.Some? then a.value else b
  }

  function SlaDue(sla: map<Stage, nat>, stage: Stage, from: Time): Option<Time> {
    if stage in sla then Some(from + sla[stage] * DAY) else None
  }

  /** When the interval that begins with event i of the timeline ends. */
  function ExitOf(c: Candidate, t: seq<Event>, i: nat): Time
    requires i < |t|
  {
    if i + 1 < |t| then t[i + 1].at else Max(t[i].at, Coalesce(c.stageChangedAt, t[i].at))
  }

  predicate IsTimeline(t: seq<Event>) {
    forall e :: e in t ==> EventStage(e).Some?
  }

  function ClosedRow(c: Candidate, t: seq<Event>, sla: map<Stage, nat>, i: nat): Row
    requires i < |t| && IsTimeline(t)
  {
    var stage := EventStage(t[i]).value;
    Row(c.id, stage, t[i].at, Some(ExitOf(c, t, i)), SlaDue(sla, stage, t[i].at))
  }

  /** All events but a last one that agrees with the candidate's current stage. */
  function ClosedRows(c: Candidate, t: seq<Event>, sla: map<Stage, nat>, i: nat): seq<Row>
    requires i <= |t| && IsTimeline(t)
    decreases |t| - i
  {
    if i == |t| then []
    else if i + 1 < |t| || EventStage(t[i]).value != c.status then
      [ClosedRow(c, t, sla, i)] + ClosedRows(c, t, sla, i + 1)
    else ClosedRows(c, t, sla, i + 1)
  }

  lemma {:induction false} TimelineStages(events: seq<Event>, id: nat)
    ensures IsTimeline(Timeline(events, id))
    ensures |Timeline(events, id)| <= |events|
  {
    if events != [] {
      TimelineStages(events[1..], id);
      if Concerns(events[0], id) {
        InsertKeeps(events[0], Timeline(events[1..], id));
      }
    }
  }

  lemma {:induction false} InsertKeeps(e: Event, s: seq<Event>)
    ensures forall x :: x in InsertEvent(e, s) <==> x == e || x in s
    ensures |InsertEvent(e, s)| == |s| + 1
  {
    if s != [] && !Before(e, s[0]) {
      assert s == [s[0]] + s[1..];
      InsertKeeps(e, s[1..]);
    }
  }

  function ClosedOf(db: Db, c: Candidate): seq<Row> {
    TimelineStages(db.events, c.id);
    ClosedRows(c, Timeline(db.events, c.id), db.sla, 0)
  }

  /** The first insert: closed intervals of every candidate in turn. */
  function InsertClosed(db: Db, cs: seq<Candidate>): seq<Row> {
    if cs == [] then [] else ClosedOf(db, cs[0]) + InsertClosed(db, cs[1..])
  }

  function OpenSince(c: Candidate): Time {
    Coalesce(c.stageChangedAt, Coalesce(c.updatedAt, c.createdAt))
  }

  function OpenRow(db: Db, c: Candidate): Row {
    Row(c.id, c.status, OpenSince(c), None, SlaDue(db.sla, c.status, OpenSince(c)))
  }

  /** The second insert: an open interval for every candidate without one. */
  function InsertOpen(db: Db, history: seq<Row>, cs: seq<Candidate>): seq<Row> {
    if cs == [] then []
    else if OpenCount(history, cs[0].id) == 0 then [OpenRow(db, cs[0])] + InsertOpen(db, history, cs[1..])
    else InsertOpen(db, history, cs[1..])
  }

  function Rebuild(db: Db): Db {
    var closed := db.history + InsertClosed(db, db.candidates);
    db.(history := closed + InsertOpen(db, closed, db.candidates))
  }

  /** The rows of one candidate. */
  function RowsOf(h: seq<Row>, id: nat): seq<Row> {
    if h == [] then [] else (if h[0].candidate == id then [h[0]] else []) + RowsOf(h[1..], id)
  }

  lemma {:induction false} RowsOfConcat(a: seq<Row>, b: seq<Row>, id: nat)
    ensures RowsOf(a + b, id) == RowsOf(a, id) + RowsOf(b, id)
  {
    if a == [] {
      assert a + b == b;
    } else {
      assert (a + b)[1..] == a[1..] + b;
      RowsOfConcat(a[1..], b, id);
      Associate(if a[0].candidate == id then [a[0]] else [], RowsOf(a[1..], id), RowsOf(b, id));
    }
  }

  lemma {:induction false} RowsOfOwn(h: seq<Row>, id: nat)
    requires forall r :: r in h ==> r.candidate == id
    ensures RowsOf(h, id) == h
  {
    if h != [] {
      assert h == [h[0]] + h[1..];
      RowsOfOwn(h[1..], id);
    }
  }

  lemma {:induction false} RowsOfNone(h: seq<Row>, id: nat)
    requires forall r :: r in h ==> r.candidate != id
    ensures RowsOf(h, id) == []
  {
    if h != [] {
      RowsOfNone(h[1..], id);
    }
  }

  /** How many of the timeline's events become closed intervals. */
  function Kept(c: Candidate, t: seq<Event>): nat
    requires IsTimeline(t)
  {
    if t != [] && EventStage(t[|t| - 1]).value == c.status then |t| - 1 else |t|
  }

  lemma {:induction false} ClosedRowsAt(c: Candidate, t: seq<Event>, sla: map<Stage, nat>, i: nat)
    requires i <= |t| && IsTimeline(t)
    ensures |ClosedRows(c, t, sla, i)| == (if i <= Kept(c, t) then Kept(c, t) - i else 0)
    ensures forall k :: 0 <= k < |ClosedRows(c, t, sla, i)| ==>
              ClosedRows(c, t, sla, i)[k] == ClosedRow(c, t, sla, i + k)
    decreases |t| - i
  {
    if i < |t| {
      ClosedRowsAt(c, t, sla, i + 1);
    }
  }

  lemma {:induction false} InsertClosedOf(db: Db, cs: seq<Candidate>, id: nat)
    requires DistinctCandidates(cs)
    ensures (forall c :: c in cs ==> c.id != id) ==> RowsOf(InsertClosed(db, cs), id) == []
    ensures forall c :: c in cs && c.id == id ==> RowsOf(InsertClosed(db, cs), id) == ClosedOf(db, c)
  {
    if cs != [] {
      assert cs == [cs[0]] + cs[1..];
      InsertClosedOf(db, cs[1..], id);
      RowsOfConcat(ClosedOf(db, cs[0]), InsertClosed(db, cs[1..]), id);
      ClosedOfOwn(db, cs[0]);
      if cs[0].id == id {
        RowsOfOwn(ClosedOf(db, cs[0]), id);
      } else {
        RowsOfNone(ClosedOf(db, cs[0]), id);
      }
    }
  }

  lemma ClosedOfOwn(db: Db, c: Candidate)
    ensures forall r :: r in ClosedOf(db, c) ==> r.candidate == c.id && r.exitedAt.Some?
  {
    TimelineStages(db.events, c.id);
    ClosedRowsAt(c, Timeline(db.events, c.id), db.sla, 0);
  }

  lemma {:induction false} InsertClosedIsClosed(db: Db, cs: seq<Candidate>)
    ensures forall r :: r in InsertClosed(db, cs) ==> r.exitedAt.Some?
  {
    if cs != [] {
      ClosedOfOwn(db, cs[0]);
      InsertClosedIsClosed(db, cs[1..]);
    }
  }

  lemma {:induction false} InsertOpenOf(db: Db, history: seq<Row>, cs: seq<Candidate>, id: nat)
    requires DistinctCandidates(cs)
    ensures (forall c :: c in cs ==> c.id != id) ==> RowsOf(InsertOpen(db, history, cs), id) == []
    ensures forall c :: c in cs && c.id == id ==>
              RowsOf(InsertOpen(db, history, cs), id) == if OpenCount(history, id) == 0 then [OpenRow(db, c)] else []
  {
    if cs != [] {
      assert cs == [cs[0]] + cs[1..];
      InsertOpenOf(db, history, cs[1..], id);
      if OpenCount(history, cs[0].id) == 0 {
        RowsOfConcat([OpenRow(db, cs[0])], InsertOpen(db, history, cs[1..]), id);
      }
    }
  }

  lemma {:induction false} OpenCountOfRows(h: seq<Row>, id: nat)
    ensures OpenCount(RowsOf(h, id), id) == OpenCount(h, id)
    ensures forall r :: r in RowsOf(h, id) <==> r in h && r.candidate == id
  {
    if h != [] {
      assert h == [h[0]] + h[1..];
      OpenCountOfRows(h[1..], id);
      OpenCountConcat(if h[0].candidate == id then [h[0]] else [], RowsOf(h[1..], id), id);
    }
  }

  /** A candidate's rows after the rebuild: what was there, the closed intervals, and one open one if none was. */
  lemma RebuiltRows(db: Db, c: Candidate)
    requires DistinctCandidates(db.candidates) && c in db.candidates
    ensures RowsOf(Rebuild(db).history, c.id)
            == RowsOf(db.history, c.id) + ClosedOf(db, c)
               + (if OpenCount(db.history, c.id) == 0 then [OpenRow(db, c)] else [])
  {
    var first := db.history + InsertClosed(db, db.candidates);
    InsertClosedOf(db, db.candidates, c.id);
    InsertOpenOf(db, first, db.candidates, c.id);
    RowsOfConcat(db.history, InsertClosed(db, db.candidates), c.id);
    RowsOfConcat(first, InsertOpen(db, first, db.candidates), c.id);
    OpenCountConcat(db.history, InsertClosed(db, db.candidates), c.id);
    InsertClosedIsClosed(db, db.candidates);
    OpenCountZero(InsertClosed(db, db.candidates), c.id);
  }

  lemma RebuildOpens(db: Db, c: Candidate)
    requires DistinctCandidates(db.candidates) && c in db.candidates
    ensures OpenCount(Rebuild(db).history, c.id) == if OpenCount(db.history, c.id) == 0 then 1 else OpenCount(db.history, c.id)
    ensures forall r :: r in Rebuild(db).history && IsOpen(r, c.id) ==>
              r in db.history || r == OpenRow(db, c)
  {
    var before, closed := RowsOf(db.history, c.id), ClosedOf(db, c);
    var added := if OpenCount(db.history, c.id) == 0 then [OpenRow(db, c)] else [];
    RebuiltRows(db, c);
    OpenCountOfRows(db.history, c.id);
    OpenCountOfRows(Rebuild(db).history, c.id);
    ClosedOfOwn(db, c);
    OpenCountZero(closed, c.id);
    OpenCountConcat(before, closed, c.id);
    OpenCountConcat(before + closed, added, c.id);
  }

  /**
   After the rebuild every candidate has exactly one open interval, it shows
   the current stage, and every row meets the table's time constraint.
   */
  lemma RebuildEstablishes(db: Db)
    requires DistinctCandidates(db.candidates) && DistinctEvents(db.events)
    requires AtMostOneOpen(db) && StageMatches(db) && TimesOk(db)
    ensures OneOpen(Rebuild(db)) && StageMatches(Rebuild(db)) && TimesOk(Rebuild(db))
  {
    forall c | c in db.candidates
      ensures OpenCount(Rebuild(db).history, c.id) == 1
      ensures forall r :: r in Rebuild(db).history && IsOpen(r, c.id) ==> r.stage == c.status
    {
      RebuildOpens(db, c);
    }
    RebuildTimes(db);
  }

  lemma RebuildTimes(db: Db)
    requires DistinctEvents(db.events) && TimesOk(db)
    ensures TimesOk(Rebuild(db))
  {
    InsertClosedTimes(db, db.candidates);
    InsertOpenIsOpen(db, db.history + InsertClosed(db, db.candidates), db.candidates);
  }

  lemma {:induction false} InsertClosedTimes(db: Db, cs: seq<Candidate>)
    requires DistinctEvents(db.events)
    ensures forall r :: r in InsertClosed(db, cs) ==> RowTimeOk(r)
  {
    if cs != [] {
      var t := Timeline(db.events, cs[0].id);
      TimelineStages(db.events, cs[0].id);
      TimelineIsTheLog(db.events, cs[0].id);
      ClosedRowsAt(cs[0], t, db.sla, 0);
      InsertClosedTimes(db, cs[1..]);
    }
  }

  lemma {:induction false} InsertOpenIsOpen(db: Db, history: seq<Row>, cs: seq<Candidate>)
    ensures forall r :: r in InsertOpen(db, history, cs) ==> r.exitedAt.None?
  {
    if cs != [] {
      InsertOpenIsOpen(db, history, cs[1..]);
    }
  }

  // ------------------------------------------------ what the rebuild preserves

  /** The stage that the log shows at a time: that of the last event so far. */
  function StageAt(t: seq<Event>, time: Time): Option<Stage> {
    if t == [] then None
    else if t[|t| - 1].at <= time then EventStage(t[|t| - 1])
    else StageAt(t[..|t| - 1], time)
  }

  predicate Covers(r: Row, time: Time) {
    r.enteredAt <= time && (r.exitedAt.Some? ==> time < r.exitedAt.value)
  }

  lemma {:induction false} StageAtIs(t: seq<Event>, time: Time, k: nat)
    requires InOrder(t) && k < |t| && t[k].at <= time && (k + 1 < |t| ==> time < t[k + 1].at)
    ensures StageAt(t, time) == EventStage(t[k])
    decreases |t|
  {
    if k + 1 < |t| {
      assert k + 1 == |t| - 1 || Before(t[k + 1], t[|t| - 1]);
      StageAtIs(t[..|t| - 1], time, k);
    }
  }

  /** The rows take stage and start from the events, in log order. */
  predicate Follows(rows: seq<Row>, t: seq<Event>) {
    && |rows| <= |t|
    && forall k :: 0 <= k < |rows| ==> Some(rows[k].stage) == EventStage(t[k]) && rows[k].enteredAt == t[k].at
  }

  /** Each row ends where the next begins, and none before its own start. */
  predicate Abut(rows: seq<Row>) {
    && (forall k :: 0 <= k && k + 1 < |rows| ==> rows[k].exitedAt == Some(rows[k + 1].enteredAt))
    && (forall k :: 0 <= k < |rows| ==> rows[k].exitedAt.Some? && rows[k].enteredAt <= rows[k].exitedAt.value)
  }

  /** All events but a last one of the current stage become closed intervals, in order and without gaps. */
  lemma ClosedIntervalsAbut(db: Db, c: Candidate)
    requires DistinctEvents(db.events)
    ensures var t := Timeline(db.events, c.id); IsTimeline(t) && |ClosedOf(db, c)| == Kept(c, t)
    ensures Follows(ClosedOf(db, c), Timeline(db.events, c.id)) && Abut(ClosedOf(db, c))
  {
    var t := Timeline(db.events, c.id);
    TimelineStages(db.events, c.id);
    TimelineIsTheLog(db.events, c.id);
    ClosedRowsAt(c, t, db.sla, 0);
    ClosedRowsAbut(c, t, db.sla);
  }

  lemma ClosedRowsAbut(c: Candidate, t: seq<Event>, sla: map<Stage, nat>)
    requires IsTimeline(t) && InOrder(t)
    ensures Follows(ClosedRows(c, t, sla, 0), t) && Abut(ClosedRows(c, t, sla, 0))
  {
    var rows := ClosedRows(c, t, sla, 0);
    ClosedRowsAt(c, t, sla, 0);
    forall k | 0 <= k < |rows|
      ensures Some(rows[k].stage) == EventStage(t[k]) && rows[k].enteredAt == t[k].at
      ensures rows[k].exitedAt.Some? && rows[k].enteredAt <= rows[k].exitedAt.value
    {
      assert rows[k] == ClosedRow(c, t, sla, k);
      assert k + 1 < |t| ==> Before(t[k], t[k + 1]);
    }
  }

  /**
   The intervals replay the log: at any time between the first and the last
   event exactly one closed interval is in force, and it shows the stage of the
   last event until then.
   */
  lemma HistoryReplaysLog(db: Db, c: Candidate, time: Time) returns (k: nat)
    requires DistinctEvents(db.events)
    requires var t := Timeline(db.events, c.id); t != [] && t[0].at <= time < t[|t| - 1].at
    ensures k < |ClosedOf(db, c)| && Covers(ClosedOf(db, c)[k], time)
    ensures StageAt(Timeline(db.events, c.id), time) == Some(ClosedOf(db, c)[k].stage)
    ensures forall j :: 0 <= j < |ClosedOf(db, c)| && j != k ==> !Covers(ClosedOf(db, c)[j], time)
  {
    var t, rows := Timeline(db.events, c.id), ClosedOf(db, c);
    TimelineIsTheLog(db.events, c.id);
    TimelineStages(db.events, c.id);
    ClosedRowsAt(c, t, db.sla, 0);
    k := 0;
    while t[k + 1].at <= time
      invariant k + 1 < |t| && t[k].at <= time
      decreases |t| - k
    {
      k := k + 1;
    }
    StageAtIs(t, time, k);
    forall j | 0 <= j < |rows| && j != k
      ensures !Covers(rows[j], time)
    {
      if j < k {
        assert j + 1 == k || Before(t[j + 1], t[k]);
      } else {
        assert j == k + 1 || Before(t[k + 1], t[j]);
      }
    }
  }

  /** When the open interval begins exactly where the last closed one ends. */
  lemma OpenFollowsExactly(db: Db, c: Candidate)
    requires DistinctEvents(db.events) && c.stageChangedAt.Some? && ClosedOf(db, c) != []
    ensures var t, rows := Timeline(db.events, c.id), ClosedOf(db, c);
            && IsTimeline(t)
            && (rows[|rows| - 1].exitedAt == Some(OpenRow(db, c).enteredAt)
                <==> if EventStage(t[|t| - 1]).value == c.status then t[|t| - 1].at == c.stageChangedAt.value
                     else t[|t| - 1].at <= c.stageChangedAt.value)
  {
    var t := Timeline(db.events, c.id);
    TimelineStages(db.events, c.id);
    ClosedRowsAt(c, t, db.sla, 0);
  }

  // ------------------------------------------- the rebuild against the raw log

  /** The detail that the kind of event carries names the stage. */
  predicate Enters(e: Event, c: Candidate, stage: Stage) {
    && e.candidate == c.id
    && (e.kind.Created? ==> e.stage == Some(stage))
    && (e.kind.FinalDecision? ==> e.decision == Some(stage))
    && (e.kind.StageChanged? || e.kind.MovedToTrash? || e.kind.PlacedOnHold? ==> e.to == Some(stage))
    && !e.kind.OtherKind?
  }

  predicate Later(e: Event, f: Event) {
    f.at > e.at || (f.at == e.at && f.id > e.id)
  }

  /** Another stage event of the candidate comes after this one. */
  ghost predicate IsFollowed(events: seq<Event>, c: Candidate, e: Event) {
    exists f, stage :: f in events && Enters(f, c, stage) && Later(e, f)
  }

  /** The interval of an event ends with the next stage event, or after the last one with the current stage's start. */
  ghost predicate EndsWith(events: seq<Event>, c: Candidate, e: Event, end: Time) {
    if IsFollowed(events, c, e) then
      && (exists f, stage :: f in events && Enters(f, c, stage) && Later(e, f) && f.at == end)
      && (forall f, stage :: f in events && Enters(f, c, stage) && Later(e, f) ==> end <= f.at)
    else end == if c.stageChangedAt.Some? && c.stageChangedAt.value > e.at then c.stageChangedAt.value else e.at
  }

  /** The event is not a last one that shows the current stage. */
  ghost predicate BecomesRow(events: seq<Event>, c: Candidate, e: Event, stage: Stage) {
    e in events && Enters(e, c, stage) && (IsFollowed(events, c, e) || stage != c.status)
  }

  ghost predicate RowFor(events: seq<Event>, c: Candidate, e: Event, r: Row) {
    && r.candidate == c.id && r.enteredAt == e.at
    && r.exitedAt.Some? && EndsWith(events, c, e, r.exitedAt.value)
  }

  lemma EntersIsStage(e: Event, c: Candidate, stage: Stage)
    ensures Enters(e, c, stage) <==> Concerns(e, c.id) && EventStage(e) == Some(stage)
  {
  }

  lemma TimelineEntry(events: seq<Event>, c: Candidate, e: Event, stage: Stage) returns (i: nat)
    requires DistinctEvents(events) && e in events && Enters(e, c, stage)
    ensures i < |Timeline(events, c.id)| && Timeline(events, c.id)[i] == e
  {
    TimelineIsTheLog(events, c.id);
    EntersIsStage(e, c, stage);
    i :| 0 <= i < |Timeline(events, c.id)| && Timeline(events, c.id)[i] == e;
  }

  lemma TimelineMember(events: seq<Event>, c: Candidate, i: nat)
    requires DistinctEvents(events) && i < |Timeline(events, c.id)|
    ensures var e := Timeline(events, c.id)[i];
            e in events && EventStage(e).Some? && Enters(e, c, EventStage(e).value)
  {
    var e := Timeline(events, c.id)[i];
    TimelineIsTheLog(events, c.id);
    assert e in Timeline(events, c.id) && Concerns(e, c.id);
    EntersIsStage(e, c, EventStage(e).value);
  }

  lemma LaterIsAfter(t: seq<Event>, i: nat, j: nat)
    requires InOrder(t) && i < |t| && j < |t|
    ensures Later(t[i], t[j]) <==> i < j
  {
  }

  lemma FollowedInTimeline(events: seq<Event>, c: Candidate, i: nat)
    requires DistinctEvents(events) && i < |Timeline(events, c.id)|
    ensures IsFollowed(events, c, Timeline(events, c.id)[i]) <==> i + 1 < |Timeline(events, c.id)|
    ensures EndsWith(events, c, Timeline(events, c.id)[i], ExitOf(c, Timeline(events, c.id), i))
  {
    var t := Timeline(events, c.id);
    TimelineIsTheLog(events, c.id);
    forall f, stage | f in events && Enters(f, c, stage) && Later(t[i], f)
      ensures i + 1 < |t| && t[i + 1].at <= f.at
    {
      var j := TimelineEntry(events, c, f, stage);
      LaterIsAfter(t, i, j);
      assert j > i + 1 ==> Before(t[i + 1], t[j]);
    }
    if i + 1 < |t| {
      TimelineMember(events, c, i + 1);
      assert Before(t[i], t[i + 1]);
      assert Enters(t[i + 1], c, EventStage(t[i + 1]).value) && Later(t[i], t[i + 1]);
    }
  }

  lemma ClosedRowIs(db: Db, c: Candidate, i: nat)
    requires DistinctEvents(db.events) && i < |ClosedOf(db, c)|
    ensures i < |Timeline(db.events, c.id)|
    ensures var e, r := Timeline(db.events, c.id)[i], ClosedOf(db, c)[i];
            RowFor(db.events, c, e, r) && BecomesRow(db.events, c, e, r.stage)
  {
    TimelineStages(db.events, c.id);
    ClosedRowsAt(c, Timeline(db.events, c.id), db.sla, 0);
    TimelineMember(db.events, c, i);
    FollowedInTimeline(db.events, c, i);
  }

  /** The rows that the rebuild adds for a candidate, after those that it had. */
  function AddedRows(db: Db, c: Candidate): seq<Row>
    requires DistinctCandidates(db.candidates) && c in db.candidates
  {
    RebuiltRows(db, c);
    RowsOf(Rebuild(db).history, c.id)[|RowsOf(db.history, c.id)|..]
  }

  lemma AddedRowsAre(db: Db, c: Candidate)
    requires DistinctCandidates(db.candidates) && c in db.candidates
    ensures AddedRows(db, c) == ClosedOf(db, c) + (if OpenCount(db.history, c.id) == 0 then [OpenRow(db, c)] else [])
    ensures RowsOf(Rebuild(db).history, c.id) == RowsOf(db.history, c.id) + AddedRows(db, c)
  {
    RebuiltRows(db, c);
  }

  /**
   Every closed interval that the rebuild adds comes from an event of the
   candidate whose own detail names the stage, begins with it and ends with the
   next one; and every such event but a last one that shows the current stage
   has its interval.
   */
  lemma RebuildFromRawLog(db: Db, c: Candidate)
    requires DistinctCandidates(db.candidates) && DistinctEvents(db.events) && c in db.candidates
    ensures forall r :: r in AddedRows(db, c) && r.exitedAt.Some? ==>
              exists e :: BecomesRow(db.events, c, e, r.stage) && RowFor(db.events, c, e, r)
    ensures forall e, stage :: BecomesRow(db.events, c, e, stage) ==>
              exists r :: r in AddedRows(db, c) && r.stage == stage && RowFor(db.events, c, e, r)
  {
    AddedRowsAre(db, c);
    forall r | r in AddedRows(db, c) && r.exitedAt.Some?
      ensures exists e :: BecomesRow(db.events, c, e, r.stage) && RowFor(db.events, c, e, r)
    {
      var e := EventOfRow(db, c, r);
    }
    forall e, stage | BecomesRow(db.events, c, e, stage)
      ensures exists r :: r in AddedRows(db, c) && r.stage == stage && RowFor(db.events, c, e, r)
    {
      var r := RowOfEvent(db, c, e, stage);
      assert r in AddedRows(db, c);
    }
  }

  lemma EventOfRow(db: Db, c: Candidate, r: Row) returns (e: Event)
    requires DistinctEvents(db.events) && r in ClosedOf(db, c)
    ensures BecomesRow(db.events, c, e, r.stage) && RowFor(db.events, c, e, r)
  {
    var i :| 0 <= i < |ClosedOf(db, c)| && ClosedOf(db, c)[i] == r;
    ClosedRowIs(db, c, i);
    e := Timeline(db.events, c.id)[i];
  }

  lemma RowOfEvent(db: Db, c: Candidate, e: Event, stage: Stage) returns (r: Row)
    requires DistinctEvents(db.events) && BecomesRow(db.events, c, e, stage)
    ensures r in ClosedOf(db, c) && r.stage == stage && RowFor(db.events, c, e, r)
  {
    var i := TimelineEntry(db.events, c, e, stage);
    EntersIsStage(e, c, stage);
    FollowedInTimeline(db.events, c, i);
    TimelineStages(db.events, c.id);
    ClosedRowsAt(c, Timeline(db.events, c.id), db.sla, 0);
    r := ClosedOf(db, c)[i];
    ClosedRowIs(db, c, i);
  }

  /** One open interval is added exactly for a candidate without one, in the current stage, since it was entered. */
  lemma RebuildOpensCurrent(db: Db, c: Candidate, r: Row)
    requires DistinctCandidates(db.candidates) && c in db.candidates
    ensures (exists q :: q in AddedRows(db, c) && q.exitedAt.None?) <==> forall q :: q in db.history && q.candidate == c.id ==> q.exitedAt.Some?
    ensures r in AddedRows(db, c) && r.exitedAt.None? ==>
              && r.stage == c.status
              && (c.stageChangedAt.Some? ==> r.enteredAt == c.stageChangedAt.value)
              && (c.stageChangedAt.None? && c.updatedAt.Some? ==> r.enteredAt == c.updatedAt.value)
              && (c.stageChangedAt.None? && c.updatedAt.None? ==> r.enteredAt == c.createdAt)
  {
    AddedRowsAre(db, c);
    ClosedOfOwn(db, c);
    OpenCountZero(db.history, c.id);
    assert forall q :: q in db.history ==> (IsOpen(q, c.id) <==> q.candidate == c.id && q.exitedAt.None?);
    if OpenCount(db.history, c.id) == 0 {
      assert AddedRows(db, c)[|ClosedOf(db, c)|] == OpenRow(db, c);
    }
  }

  // ----------------------------------------------------- the end of On Hold

  predicate Newer(a: Hold, b: Hold) {
    a.placedAt > b.placedAt || (a.placedAt == b.placedAt && a.id > b.id)
  }

  predicate ActiveHold(h: Hold, id: nat) {
    h.candidate == id && h.releasedAt.None?
  }

  /** ORDER BY placed_at DESC, id DESC LIMIT 1 over the unreleased holds. */
  function LatestHold(holds: seq<Hold>, id: nat): Option<Hold> {
    if holds == [] then None
    else
      var rest := LatestHold(holds[1..], id);
      if ActiveHold(holds[0], id) && (rest.None? || Newer(holds[0], rest.value)) then Some(holds[0]) else rest
  }

  lemma {:induction false} LatestHoldIsLatest(holds: seq<Hold>, id: nat)
    ensures LatestHold(holds, id).None? <==> forall h :: h in holds ==> !ActiveHold(h, id)
    ensures LatestHold(holds, id).Some? ==>
              && LatestHold(holds, id).value in holds && ActiveHold(LatestHold(holds, id).value, id)
              && forall h :: h in holds && ActiveHold(h, id) ==> !Newer(h, LatestHold(holds, id).value)
  {
    if holds != [] {
      assert holds == [holds[0]] + holds[1..];
      LatestHoldIsLatest(holds[1..], id);
    }
  }

  function RestoreStage(holds: seq<Hold>, id: nat): Stage {
    var hold := LatestHold(holds, id);
    if hold.Some? && hold.value.origin.Some?
       && hold.value.origin.value in {NewCandidate, Responded, JobInterview, TestAndDemo, UnderReview}
    then hold.value.origin.value
    else Responded
  }

  /** The candidates to restore, taken before anything changes. */
  function Holding(cs: seq<Candidate>): set<nat> {
    set i | 0 <= i < |cs| && cs[i].status == OnHold :: cs[i].id
  }

  /** The close that never ends an interval before its start. */
  function CloseAtLeast(r: Row, ids: set<nat>, now: Time): Row {
    if r.candidate in ids && r.exitedAt.None? then r.(exitedAt := Some(Max(now, r.enteredAt))) else r
  }

  function CloseAllAtLeast(h: seq<Row>, ids: set<nat>, now: Time): seq<Row> {
    if h == [] then [] else [CloseAtLeast(h[0], ids, now)] + CloseAllAtLeast(h[1..], ids, now)
  }

  function Restage(c: Candidate, stage: Stage, now: Time): Candidate {
    c.(status := stage, stageChangedAt := Some(now), updatedAt := Some(now), version := c.version + 1)
  }

  function RestoreCandidates(cs: seq<Candidate>, holds: seq<Hold>, now: Time): seq<Candidate> {
    if cs == [] then []
    else [if cs[0].status == OnHold then Restage(cs[0], RestoreStage(holds, cs[0].id), now) else cs[0]]
         + RestoreCandidates(cs[1..], holds, now)
  }

  function RestoredRows(cs: seq<Candidate>, holds: seq<Hold>, sla: map<Stage, nat>, now: Time): seq<Row> {
    if cs == [] then []
    else if cs[0].status == OnHold then
      var stage := RestoreStage(holds, cs[0].id);
      [Row(cs[0].id, stage, now, None, SlaDue(sla, stage, now))] + RestoredRows(cs[1..], holds, sla, now)
    else RestoredRows(cs[1..], holds, sla, now)
  }

  function ReleaseHolds(holds: seq<Hold>, now: Time): seq<Hold> {
    if holds == [] then []
    else [if holds[0].releasedAt.None? then holds[0].(releasedAt := Some(now)) else holds[0]] + ReleaseHolds(holds[1..], now)
  }

  function RemoveOnHold(db: Db, now: Time): Db {
    db.(history := CloseAllAtLeast(db.history, Holding(db.candidates), now)
                   + RestoredRows(db.candidates, db.holds, db.sla, now),
        candidates := RestoreCandidates(db.candidates, db.holds, now),
        holds := ReleaseHolds(db.holds, now))
  }

  lemma {:induction false} CloseAllAtLeastAt(h: seq<Row>, ids: set<nat>, now: Time)
    ensures |CloseAllAtLeast(h, ids, now)| == |h|
    ensures forall k :: 0 <= k < |h| ==> CloseAllAtLeast(h, ids, now)[k] == CloseAtLeast(h[k], ids, now)
  {
    if h != [] {
      CloseAllAtLeastAt(h[1..], ids, now);
    }
  }

  lemma {:induction false} CloseAllAtLeastCount(h: seq<Row>, ids: set<nat>, now: Time, id: nat)
    ensures OpenCount(CloseAllAtLeast(h, ids, now), id) == if id in ids then 0 else OpenCount(h, id)
  {
    if h != [] {
      CloseAllAtLeastCount(h[1..], ids, now, id);
    }
  }

  lemma {:induction false} RestoreCandidatesAt(cs: seq<Candidate>, holds: seq<Hold>, now: Time)
    ensures |RestoreCandidates(cs, holds, now)| == |cs|
    ensures forall k :: 0 <= k < |cs| ==>
              RestoreCandidates(cs, holds, now)[k]
              == if cs[k].status == OnHold then Restage(cs[k], RestoreStage(holds, cs[k].id), now) else cs[k]
  {
    if cs != [] {
      RestoreCandidatesAt(cs[1..], holds, now);
    }
  }

  lemma {:induction false} RestoredRowsOf(cs: seq<Candidate>, holds: seq<Hold>, sla: map<Stage, nat>, now: Time, id: nat)
    requires DistinctCandidates(cs)
    ensures OpenCount(RestoredRows(cs, holds, sla, now), id) == if id in Holding(cs) then 1 else 0
    ensures forall r :: r in RestoredRows(cs, holds, sla, now) && r.candidate == id ==>
              r.stage == RestoreStage(holds, id) && r.enteredAt == now && r.exitedAt.None? && id in Holding(cs)
  {
    if cs != [] {
      RestoredRowsOf(cs[1..], holds, sla, now, id);
      HoldingTail(cs);
    }
  }

  lemma HoldingTail(cs: seq<Candidate>)
    requires cs != [] && DistinctCandidates(cs)
    ensures Holding(cs) == Holding(cs[1..]) + (if cs[0].status == OnHold then {cs[0].id} else {})
    ensures cs[0].id !in Holding(cs[1..])
  {
    forall id | id in Holding(cs)
      ensures id in Holding(cs[1..]) || (cs[0].status == OnHold && id == cs[0].id)
    {
      var i :| 0 <= i < |cs| && cs[i].status == OnHold && cs[i].id == id;
      if i > 0 {
        assert cs[1..][i - 1].id == id && cs[1..][i - 1].status == OnHold;
      }
    }
    forall id | id in Holding(cs[1..])
      ensures id in Holding(cs)
    {
      var i :| 0 <= i < |cs[1..]| && cs[1..][i].status == OnHold && cs[1..][i].id == id;
      assert cs[i + 1].id == id;
    }
  }

  /** Past rows keep their candidate, stage, start and deadline; only open rows may gain an end. */
  predicate Extends(before: seq<Row>, after: seq<Row>) {
    && |before| <= |after|
    && forall k :: 0 <= k < |before| ==>
         after[k] == before[k] || (before[k].exitedAt.None? && after[k].(exitedAt := None) == before[k])
  }

  lemma {:induction false} ReleasedHolds(holds: seq<Hold>, now: Time)
    ensures forall h :: h in ReleaseHolds(holds, now) ==> h.releasedAt.Some?
  {
    if holds != [] {
      ReleasedHolds(holds[1..], now);
    }
  }

  /** No candidate remains on hold, no hold remains active, and the history keeps all its rules. */
  lemma RemoveOnHoldKeepsHistory(db: Db, now: Time)
    requires DistinctCandidates(db.candidates) && OneOpen(db) && StageMatches(db) && TimesOk(db)
    ensures var after := RemoveOnHold(db, now);
            && DistinctCandidates(after.candidates) && OneOpen(after) && StageMatches(after) && TimesOk(after)
            && (forall c :: c in after.candidates ==> c.status != OnHold)
            && (forall h :: h in after.holds ==> h.releasedAt.Some?)
            && Extends(db.history, after.history)
  {
    var after := RemoveOnHold(db, now);
    RestoreCandidatesAt(db.candidates, db.holds, now);
    ReleasedHolds(db.holds, now);
    RemoveOnHoldExtends(db, now);
    forall c | c in after.candidates
      ensures OpenCount(after.history, c.id) == 1
      ensures forall r :: r in after.history && IsOpen(r, c.id) ==> r.stage == c.status
    {
      var k :| 0 <= k < |after.candidates| && after.candidates[k] == c;
      assert db.candidates[k] in db.candidates;
      RemoveOnHoldOpens(db, now, k);
      forall r | r in after.history && IsOpen(r, c.id)
        ensures r.stage == c.status
      {
        OpenRowAfterRestore(db, now, k, r);
      }
    }
  }

  lemma RemoveOnHoldOpens(db: Db, now: Time, k: nat)
    requires DistinctCandidates(db.candidates) && k < |db.candidates|
    ensures OpenCount(RemoveOnHold(db, now).history, db.candidates[k].id)
            == if db.candidates[k].status == OnHold then 1 else OpenCount(db.history, db.candidates[k].id)
  {
    var c, ids := db.candidates[k], Holding(db.candidates);
    CloseAllAtLeastCount(db.history, ids, now, c.id);
    RestoredRowsOf(db.candidates, db.holds, db.sla, now, c.id);
    OpenCountConcat(CloseAllAtLeast(db.history, ids, now), RestoredRows(db.candidates, db.holds, db.sla, now), c.id);
    HoldingIs(db.candidates, k);
  }

  lemma RemoveOnHoldExtends(db: Db, now: Time)
    requires DistinctCandidates(db.candidates) && TimesOk(db)
    ensures TimesOk(RemoveOnHold(db, now)) && Extends(db.history, RemoveOnHold(db, now).history)
  {
    var closed := CloseAllAtLeast(db.history, Holding(db.candidates), now);
    var after := RemoveOnHold(db, now);
    CloseAllAtLeastAt(db.history, Holding(db.candidates), now);
    forall r | r in after.history
      ensures RowTimeOk(r)
    {
      RestoredRowsOf(db.candidates, db.holds, db.sla, now, r.candidate);
      if r in closed {
        var j :| 0 <= j < |closed| && closed[j] == r;
        assert db.history[j] in db.history;
      }
    }
  }

  lemma HoldingIs(cs: seq<Candidate>, k: nat)
    requires k < |cs| && DistinctCandidates(cs)
    ensures cs[k].id in Holding(cs) <==> cs[k].status == OnHold
  {
  }

  lemma OpenRowAfterRestore(db: Db, now: Time, k: nat, r: Row)
    requires DistinctCandidates(db.candidates) && StageMatches(db) && k < |db.candidates|
    requires r in RemoveOnHold(db, now).history && IsOpen(r, db.candidates[k].id)
    ensures r.stage == if db.candidates[k].status == OnHold then RestoreStage(db.holds, db.candidates[k].id)
                       else db.candidates[k].status
  {
    var c, ids := db.candidates[k], Holding(db.candidates);
    var closed := CloseAllAtLeast(db.history, ids, now);
    RestoredRowsOf(db.candidates, db.holds, db.sla, now, c.id);
    HoldingIs(db.candidates, k);
    if r in closed {
      CloseAllAtLeastAt(db.history, ids, now);
      var j :| 0 <= j < |closed| && closed[j] == r;
      assert db.history[j] == r && r in db.history;
      assert c in db.candidates;
    }
  }

  predicate OpenStage(stage: Stage) {
    stage.NewCandidate? || stage.Responded? || stage.JobInterview? || stage.TestAndDemo? || stage.UnderReview?
  }

  /** The hold is not released, and every other such hold of the candidate was placed earlier, or then with a smaller id. */
  predicate NewestWaiting(holds: seq<Hold>, id: nat, h: Hold) {
    && h in holds && h.candidate == id && h.releasedAt.None?
    && forall o :: o in holds && o.candidate == id && o.releasedAt.None? && o != h ==>
         o.placedAt <= h.placedAt && (o.placedAt == h.placedAt ==> o.id < h.id)
  }

  /** A candidate on hold returns to where its newest active hold came from; without a usable origin, to Responded. */
  lemma RestoresNewestOrigin(db: Db, now: Time, k: nat)
    requires k < |db.candidates| && db.candidates[k].status == OnHold
    ensures |RemoveOnHold(db, now).candidates| == |db.candidates|
    ensures var id, after := db.candidates[k].id, RemoveOnHold(db, now).candidates[k];
            && OpenStage(after.status) && after.stageChangedAt == Some(now) && after.version == db.candidates[k].version + 1
            && (forall h :: NewestWaiting(db.holds, id, h)
                            ==> after.status == if h.origin.Some? && OpenStage(h.origin.value) then h.origin.value else Responded)
            && ((forall h :: h in db.holds && h.candidate == id ==> h.releasedAt.Some?) ==> after.status == Responded)
  {
    var id := db.candidates[k].id;
    RestoreCandidatesAt(db.candidates, db.holds, now);
    LatestHoldIsLatest(db.holds, id);
    forall h | NewestWaiting(db.holds, id, h)
      ensures LatestHold(db.holds, id) == Some(h)
    {
      assert ActiveHold(h, id);
      var latest := LatestHold(db.holds, id).value;
      assert latest in db.holds && ActiveHold(latest, id);
    }
  }

  /** The candidate waits on hold. */
  predicate OnHoldHere(db: Db, id: nat) {
    exists c :: c in db.candidates && c.id == id && c.status.OnHold?
  }

  /**
   What the end of On Hold does to each table: only open intervals of held
   candidates end, now or at a later start; each of them, and nobody else, is
   restaged now and gets one new interval from now on; active holds end now.
   */
  lemma EndOnHoldExactly(db: Db, now: Time, k: nat)
    requires DistinctCandidates(db.candidates)
    ensures var after := RemoveOnHold(db, now);
            && |after.history| >= |db.history| && |after.candidates| == |db.candidates| && |after.holds| == |db.holds|
            && (k < |db.history| ==>
                  after.history[k] == if db.history[k].exitedAt.None? && OnHoldHere(db, db.history[k].candidate)
                                      then db.history[k].(exitedAt := Some(if now < db.history[k].enteredAt then db.history[k].enteredAt else now))
                                      else db.history[k])
            && (|db.history| <= k < |after.history| ==>
                  OnHoldHere(db, after.history[k].candidate) && after.history[k].enteredAt == now && after.history[k].exitedAt.None?)
            && (k < |db.candidates| ==>
                  if db.candidates[k].status.OnHold?
                  then after.candidates[k] == db.candidates[k].(status := after.candidates[k].status, stageChangedAt := Some(now),
                                                                updatedAt := Some(now), version := db.candidates[k].version + 1)
                  else after.candidates[k] == db.candidates[k])
            && (k < |db.holds| ==>
                  after.holds[k] == if db.holds[k].releasedAt.None? then db.holds[k].(releasedAt := Some(now)) else db.holds[k])
  {
    CloseAllAtLeastAt(db.history, Holding(db.candidates), now);
    RestoreCandidatesAt(db.candidates, db.holds, now);
    ReleasedAt(db.holds, now);
    var rows := RestoredRows(db.candidates, db.holds, db.sla, now);
    forall id
      ensures id in Holding(db.candidates) <==> OnHoldHere(db, id)
    {
      if OnHoldHere(db, id) {
        var c :| c in db.candidates && c.id == id && c.status.OnHold?;
        var j :| 0 <= j < |db.candidates| && db.candidates[j] == c;
      }
    }
    forall j | 0 <= j < |rows|
      ensures rows[j].candidate in Holding(db.candidates) && rows[j].enteredAt == now && rows[j].exitedAt.None?
    {
      RestoredRowsOf(db.candidates, db.holds, db.sla, now, rows[j].candidate);
      assert rows[j] in rows;
    }
  }

  lemma {:induction false} ReleasedAt(holds: seq<Hold>, now: Time)
    ensures |ReleaseHolds(holds, now)| == |holds|
    ensures forall k :: 0 <= k < |holds| ==>
              ReleaseHolds(holds, now)[k] == if holds[k].releasedAt.None? then holds[k].(releasedAt := Some(now)) else holds[k]
  {
    if holds != [] {
      ReleasedAt(holds[1..], now);
    }
  }

  // ------------------------------------------ unsupported active teachers

  predicate Supported(db: Db, id: nat) {
    || (exists t :: t in db.teachers && t.candidate == Some(id) && t.active)
    || (exists a :: a in db.academy && a.candidate == Some(id) && !a.promoted && !a.leftAcademy)
  }

  predicate Unsupported(db: Db, c: Candidate) {
    c.status == ActiveTeacher && !Supported(db, c.id)
  }

  function Repairing(db: Db): set<nat> {
    set i | 0 <= i < |db.candidates| && Unsupported(db, db.candidates[i]) :: db.candidates[i].id
  }

  /** The close that ends an interval now, whenever it began. */
  function CloseNow(r: Row, ids: set<nat>, now: Time): Row {
    if r.candidate in ids && r.exitedAt.None? then r.(exitedAt := Some(now)) else r
  }

  function CloseAllNow(h: seq<Row>, ids: set<nat>, now: Time): seq<Row> {
    if h == [] then [] else [CloseNow(h[0], ids, now)] + CloseAllNow(h[1..], ids, now)
  }

  function RepairCandidates(cs: seq<Candidate>, ids: set<nat>, now: Time): seq<Candidate> {
    if cs == [] then []
    else [if cs[0].id in ids then Restage(cs[0], UnderReview, now) else cs[0]] + RepairCandidates(cs[1..], ids, now)
  }

  /** NOT EXISTS guards the insert: the candidate already entered the stage at that time. */
  predicate Entered(h: seq<Row>, id: nat, stage: Stage, at: Time) {
    exists r :: r in h && r.candidate == id && r.stage == stage && r.enteredAt == at
  }

  function ReviewRows(cs: seq<Candidate>, ids: set<nat>, h: seq<Row>, sla: map<Stage, nat>, now: Time): seq<Row> {
    if cs == [] then []
    else
      (if cs[0].id in ids && !Entered(h, cs[0].id, UnderReview, now)
       then [Row(cs[0].id, UnderReview, now, None, SlaDue(sla, UnderReview, now))] else [])
      + ReviewRows(cs[1..], ids, h, sla, now)
  }

  datatype MigrationError = TimeConstraintViolated

  /** The whole migration, or the constraint that stops it. */
  function Repair(db: Db, now: Time): Result<Db, MigrationError> {
    var ids := Repairing(db);
    var closed := CloseAllNow(db.history, ids, now);
    if exists r :: r in closed && !RowTimeOk(r) then Failure(TimeConstraintViolated)
    else
      Success(db.(history := closed + ReviewRows(db.candidates, ids, closed, db.sla, now),
                  candidates := RepairCandidates(db.candidates, ids, now)))
  }

  lemma {:induction false} CloseAllNowAt(h: seq<Row>, ids: set<nat>, now: Time)
    ensures |CloseAllNow(h, ids, now)| == |h|
    ensures forall k :: 0 <= k < |h| ==> CloseAllNow(h, ids, now)[k] == CloseNow(h[k], ids, now)
  {
    if h != [] {
      CloseAllNowAt(h[1..], ids, now);
    }
  }

  lemma {:induction false} CloseAllNowCount(h: seq<Row>, ids: set<nat>, now: Time, id: nat)
    ensures OpenCount(CloseAllNow(h, ids, now), id) == if id in ids then 0 else OpenCount(h, id)
  {
    if h != [] {
      CloseAllNowCount(h[1..], ids, now, id);
    }
  }

  lemma {:induction false} RepairCandidatesAt(cs: seq<Candidate>, ids: set<nat>, now: Time)
    ensures |RepairCandidates(cs, ids, now)| == |cs|
    ensures forall k :: 0 <= k < |cs| ==>
              RepairCandidates(cs, ids, now)[k] == if cs[k].id in ids then Restage(cs[k], UnderReview, now) else cs[k]
  {
    if cs != [] {
      RepairCandidatesAt(cs[1..], ids, now);
    }
  }

  lemma {:induction false} ReviewRowsOf(cs: seq<Candidate>, ids: set<nat>, h: seq<Row>, sla: map<Stage, nat>, now: Time, id: nat)
    requires DistinctCandidates(cs)
    ensures OpenCount(ReviewRows(cs, ids, h, sla, now), id)
            == if (exists c :: c in cs && c.id == id) && id in ids && !Entered(h, id, UnderReview, now) then 1 else 0
    ensures forall r :: r in ReviewRows(cs, ids, h, sla, now) && r.candidate == id ==>
              r.stage == UnderReview && r.enteredAt == now && r.exitedAt.None? && id in ids
  {
    if cs != [] {
      var rest := cs[1..];
      assert cs == [cs[0]] + rest;
      ReviewRowsOf(rest, ids, h, sla, now, id);
      var row := if cs[0].id in ids && !Entered(h, cs[0].id, UnderReview, now)
                   then [Row(cs[0].id, UnderReview, now, None, SlaDue(sla, UnderReview, now))] else [];
      OpenCountConcat(row, ReviewRows(rest, ids, h, sla, now), id);
      if cs[0].id == id {
        assert forall c :: c in rest ==> c.id != id;
      }
    }
  }

  /** An open interval of a repaired candidate begins after the migration's time. */
  predicate BlocksRepair(db: Db, now: Time) {
    exists r :: r in db.history && r.candidate in Repairing(db) && r.exitedAt.None? && r.enteredAt > now
  }

  /** The repair fails exactly when some interval that it closes begins in the future. */
  lemma RepairSucceedsExactly(db: Db, now: Time)
    requires TimesOk(db)
    ensures Repair(db, now).Success? <==> !BlocksRepair(db, now)
  {
    var ids := Repairing(db);
    var closed := CloseAllNow(db.history, ids, now);
    CloseAllNowAt(db.history, ids, now);
    if r :| r in closed && !RowTimeOk(r) {
      var k :| 0 <= k < |closed| && closed[k] == r;
      assert db.history[k] in db.history;
    }
    if BlocksRepair(db, now) {
      var r :| r in db.history && r.candidate in ids && r.exitedAt.None? && r.enteredAt > now;
      var k :| 0 <= k < |db.history| && db.history[k] == r;
      assert closed[k] in closed && !RowTimeOk(closed[k]);
    }
  }

  lemma RepairingIs(db: Db, k: nat)
    requires k < |db.candidates| && DistinctCandidates(db.candidates)
    ensures db.candidates[k].id in Repairing(db) <==> Unsupported(db, db.candidates[k])
  {
  }

  lemma EnteredAfterClose(h: seq<Row>, ids: set<nat>, now: Time, id: nat, stage: Stage, at: Time)
    ensures Entered(CloseAllNow(h, ids, now), id, stage, at) <==> Entered(h, id, stage, at)
  {
    var closed := CloseAllNow(h, ids, now);
    CloseAllNowAt(h, ids, now);
    if Entered(closed, id, stage, at) {
      var r :| r in closed && r.candidate == id && r.stage == stage && r.enteredAt == at;
      var k :| 0 <= k < |closed| && closed[k] == r;
      assert h[k] in h;
    }
    if Entered(h, id, stage, at) {
      var r :| r in h && r.candidate == id && r.stage == stage && r.enteredAt == at;
      var k :| 0 <= k < |h| && h[k] == r;
      assert closed[k] in closed;
    }
  }

  lemma RepairOpens(db: Db, now: Time, k: nat)
    requires DistinctCandidates(db.candidates) && k < |db.candidates| && Repair(db, now).Success?
    ensures OpenCount(Repair(db, now).value.history, db.candidates[k].id)
            == if !Unsupported(db, db.candidates[k]) then OpenCount(db.history, db.candidates[k].id)
               else if Entered(db.history, db.candidates[k].id, UnderReview, now) then 0 else 1
  {
    var c, ids := db.candidates[k], Repairing(db);
    var closed := CloseAllNow(db.history, ids, now);
    CloseAllNowCount(db.history, ids, now, c.id);
    ReviewRowsOf(db.candidates, ids, closed, db.sla, now, c.id);
    OpenCountConcat(closed, ReviewRows(db.candidates, ids, closed, db.sla, now), c.id);
    EnteredAfterClose(db.history, ids, now, c.id, UnderReview, now);
    RepairingIs(db, k);
  }

  /** Some repaired candidate already has an Under Review interval that begins at the migration's time. */
  predicate RepeatsEntry(db: Db, now: Time) {
    exists c :: c in db.candidates && Unsupported(db, c) && Entered(db.history, c.id, UnderReview, now)
  }

  /** The one-open rule survives the repair exactly when no repaired candidate's entry is skipped. */
  lemma RepairKeepsOneOpenExactly(db: Db, now: Time)
    requires DistinctCandidates(db.candidates) && OneOpen(db) && Repair(db, now).Success?
    ensures OneOpen(Repair(db, now).value) <==> !RepeatsEntry(db, now)
  {
    var after := Repair(db, now).value;
    RepairCandidatesAt(db.candidates, Repairing(db), now);
    forall k | 0 <= k < |db.candidates|
      ensures after.candidates[k].id == db.candidates[k].id
      ensures OpenCount(after.history, db.candidates[k].id) == 1
              <==> !(Unsupported(db, db.candidates[k]) && Entered(db.history, db.candidates[k].id, UnderReview, now))
    {
      assert db.candidates[k] in db.candidates;
      RepairOpens(db, now, k);
    }
    if RepeatsEntry(db, now) {
      var c :| c in db.candidates && Unsupported(db, c) && Entered(db.history, c.id, UnderReview, now);
      var k :| 0 <= k < |db.candidates| && db.candidates[k] == c;
      assert after.candidates[k] in after.candidates;
    }
  }

  lemma RepairedStages(db: Db, now: Time, k: nat, r: Row)
    requires StageMatches(db) && Repair(db, now).Success? && k < |db.candidates|
    requires r in Repair(db, now).value.history && IsOpen(r, db.candidates[k].id) && DistinctCandidates(db.candidates)
    ensures r.stage == if db.candidates[k].id in Repairing(db) then UnderReview else db.candidates[k].status
  {
    var ids := Repairing(db);
    var closed := CloseAllNow(db.history, ids, now);
    ReviewRowsOf(db.candidates, ids, closed, db.sla, now, r.candidate);
    if r in closed {
      CloseAllNowAt(db.history, ids, now);
      var j :| 0 <= j < |closed| && closed[j] == r;
      assert db.history[j] in db.history && db.candidates[k] in db.candidates;
    }
  }

  lemma RepairedTimes(db: Db, now: Time)
    requires DistinctCandidates(db.candidates) && Repair(db, now).Success?
    ensures TimesOk(Repair(db, now).value) && Extends(db.history, Repair(db, now).value.history)
  {
    var ids := Repairing(db);
    var closed := CloseAllNow(db.history, ids, now);
    CloseAllNowAt(db.history, ids, now);
    forall r | r in ReviewRows(db.candidates, ids, closed, db.sla, now)
      ensures RowTimeOk(r)
    {
      ReviewRowsOf(db.candidates, ids, closed, db.sla, now, r.candidate);
    }
  }

  /** Past rows, times and stages are kept whenever the repair succeeds. */
  lemma RepairKeepsHistory(db: Db, now: Time)
    requires DistinctCandidates(db.candidates) && StageMatches(db) && Repair(db, now).Success?
    ensures var after := Repair(db, now).value;
            && DistinctCandidates(after.candidates) && StageMatches(after) && TimesOk(after)
            && Extends(db.history, after.history)
            && (forall c :: c in after.candidates ==> !Unsupported(after, c))
  {
    var after := Repair(db, now).value;
    RepairCandidatesAt(db.candidates, Repairing(db), now);
    RepairedTimes(db, now);
    forall c | c in after.candidates
      ensures forall r :: r in after.history && IsOpen(r, c.id) ==> r.stage == c.status
      ensures !Unsupported(after, c)
    {
      var k :| 0 <= k < |after.candidates| && after.candidates[k] == c;
      RepairingIs(db, k);
      assert Supported(after, c.id) == Supported(db, c.id);
      forall r | r in after.history && IsOpen(r, c.id)
        ensures r.stage == c.status
      {
        RepairedStages(db, now, k, r);
      }
    }
  }

  /**
   An active teacher stays one exactly when some teacher row of it is active or
   some academy row is neither promoted nor left; every other one is put back
   under review now, its open intervals end now, and no other row changes.
   */
  lemma RepairExactly(db: Db, now: Time, c: Candidate, k: nat)
    requires DistinctCandidates(db.candidates) && Repair(db, now).Success? && k < |db.candidates| && c == db.candidates[k]
    ensures |Repair(db, now).value.candidates| == |db.candidates| && |Repair(db, now).value.history| >= |db.history|
    ensures var after := Repair(db, now).value;
            var employed := exists t :: t in db.teachers && t.candidate == Some(c.id) && t.active;
            var training := exists a :: a in db.academy && a.candidate == Some(c.id) && !(a.promoted || a.leftAcademy);
            if c.status.ActiveTeacher? && !employed && !training then
              && after.candidates[k] == c.(status := UnderReview, stageChangedAt := Some(now), updatedAt := Some(now), version := c.version + 1)
              && (forall j :: 0 <= j < |db.history| && db.history[j].candidate == c.id && db.history[j].exitedAt.None? ==>
                    after.history[j] == db.history[j].(exitedAt := Some(now)))
            else
              && after.candidates[k] == c
              && (forall j :: 0 <= j < |db.history| && db.history[j].candidate == c.id ==> after.history[j] == db.history[j])
    ensures forall j :: |db.history| <= j < |Repair(db, now).value.history| ==>
              var r := Repair(db, now).value.history[j]; r.stage == UnderReview && r.enteredAt == now && r.exitedAt.None?
  {
    var ids := Repairing(db);
    var closed := CloseAllNow(db.history, ids, now);
    var rows := ReviewRows(db.candidates, ids, closed, db.sla, now);
    CloseAllNowAt(db.history, ids, now);
    RepairCandidatesAt(db.candidates, ids, now);
    RepairingIs(db, k);
    forall j | 0 <= j < |rows|
      ensures rows[j].stage == UnderReview && rows[j].enteredAt == now && rows[j].exitedAt.None?
    {
      ReviewRowsOf(db.candidates, ids, closed, db.sla, now, rows[j].candidate);
      assert rows[j] in rows;
    }
  }

  // ---------------------------------------------------------- future intervals

  /** An open interval that begins in the future begins now instead; its deadline stays. */
  function CapRow(r: Row, now: Time): Row {
    if r.exitedAt.None? && r.enteredAt > now then r.(enteredAt := now) else r
  }

  function CapRows(h: seq<Row>, now: Time): seq<Row> {
    if h == [] then [] else [CapRow(h[0], now)] + CapRows(h[1..], now)
  }

  function CapFuture(db: Db, now: Time): Db {
    db.(history := CapRows(db.history, now))
  }

  /** Every open interval of the table can be closed at the given time. */
  predicate Closable(h: seq<Row>, at: Time) {
    forall r :: r in h && r.exitedAt.None? ==> RowTimeOk(r.(exitedAt := Some(at)))
  }

  lemma {:induction false} CapRowsAt(h: seq<Row>, now: Time)
    ensures |CapRows(h, now)| == |h|
    ensures forall k :: 0 <= k < |h| ==> CapRows(h, now)[k] == CapRow(h[k], now)
    ensures forall id :: OpenCount(CapRows(h, now), id) == OpenCount(h, id)
  {
    if h != [] {
      CapRowsAt(h[1..], now);
    }
  }

  /**
   After the cap every open interval can be closed from now on; deadlines,
   stages, closed rows and the number of open intervals are untouched.
   */
  lemma CapMakesClosable(db: Db, now: Time, later: Time)
    requires now <= later
    ensures var after := CapFuture(db, now);
            && Closable(after.history, later)
            && |after.history| == |db.history|
            && (forall k :: 0 <= k < |db.history| ==>
                  && after.history[k].(enteredAt := 0) == db.history[k].(enteredAt := 0)
                  && (db.history[k].exitedAt.None? ==> after.history[k].enteredAt == Min(db.history[k].enteredAt, now))
                  && (db.history[k].exitedAt.Some? || db.history[k].enteredAt <= now ==> after.history[k] == db.history[k]))
            && (OneOpen(after) <==> OneOpen(db)) && (TimesOk(after) <==> TimesOk(db))
            && (StageMatches(db) ==> StageMatches(after))
  {
    var after := CapFuture(db, now);
    CapRowsAt(db.history, now);
    forall r | r in after.history
      ensures exists q :: q in db.history && r == CapRow(q, now)
    {
      var k :| 0 <= k < |after.history| && after.history[k] == r;
      assert db.history[k] in db.history;
    }
    forall q | q in db.history
      ensures CapRow(q, now) in after.history
    {
      var k :| 0 <= k < |db.history| && db.history[k] == q;
      assert after.history[k] in after.history;
    }
  }

  lemma CappedIsClosable(h: seq<Row>, now: Time)
    ensures Closable(CapRows(h, now), now)
  {
    CapRowsAt(h, now);
  }

  /** Before the cap, a time at which every open interval can be closed is one that none begins after. */
  lemma ClosableExactly(h: seq<Row>, at: Time)
    ensures Closable(h, at) <==> CapRows(h, at) == h
  {
    CapRowsAt(h, at);
    if Closable(h, at) {
      forall k | 0 <= k < |h|
        ensures CapRows(h, at)[k] == h[k]
      {
        assert h[k] in h;
      }
      assert CapRows(h, at) == h;
    } else {
      var r :| r in h && r.exitedAt.None? && !RowTimeOk(r.(exitedAt := Some(at)));
      var k :| 0 <= k < |h| && h[k] == r;
      assert CapRows(h, at)[k] != h[k];
    }
  }

  /** On capped tables the earlier repair cannot fail. */
  lemma CapUnblocksRepair(db: Db, now: Time, later: Time)
    requires now <= later && TimesOk(db)
    ensures Repair(CapFuture(db, now), later).Success?
  {
    CapMakesClosable(db, now, later);
    ClosableDoesNotBlock(CapFuture(db, now), later);
    RepairSucceedsExactly(CapFuture(db, now), later);
  }

  lemma ClosableDoesNotBlock(db: Db, later: Time)
    requires Closable(db.history, later)
    ensures !BlocksRepair(db, later)
  {
    forall r | r in db.history && r.exitedAt.None?
      ensures r.enteredAt <= later
    {
      assert RowTimeOk(r.(exitedAt := Some(later)));
    }
  }

  // -------------------------------------------------------------- two failures

  /** An unsupported active teacher whose interval was anchored at a future application date. */
  function FutureAnchor(): Db {
    Db([Candidate(1, ActiveTeacher, Some(0), Some(0), 0, 1)], [Row(1, ActiveTeacher, 1000, None, None)], [], [], [], [], map[])
  }

  lemma FutureAnchorStopsRepair()
    ensures DistinctCandidates(FutureAnchor().candidates) && OneOpen(FutureAnchor())
    ensures StageMatches(FutureAnchor()) && TimesOk(FutureAnchor())
    ensures Repair(FutureAnchor(), 500) == Failure(TimeConstraintViolated)
  {
    var db := FutureAnchor();
    RepairingIs(db, 0);
    RepairSucceedsExactly(db, 500);
    assert db.history[0] in db.history;
  }

  /** One whose Under Review interval began at the very time of the migration. */
  function RepeatedEntry(now: Time): Db {
    Db([Candidate(1, ActiveTeacher, Some(now), Some(now), 0, 1)],
       [Row(1, UnderReview, now, Some(now), None), Row(1, ActiveTeacher, now, None, None)], [], [], [], [], map[])
  }

  lemma RepeatedEntryLosesInterval(now: Time)
    ensures DistinctCandidates(RepeatedEntry(now).candidates) && OneOpen(RepeatedEntry(now))
    ensures Repair(RepeatedEntry(now), now).Success? && OpenCount(Repair(RepeatedEntry(now), now).value.history, 1) == 0
  {
    var db := RepeatedEntry(now);
    var h := db.history;
    assert OpenCount(h, 1) == OpenCount(h[1..], 1) == 1 + OpenCount(h[1..][1..], 1);
    RepairingIs(db, 0);
    RepairSucceedsExactly(db, now);
    assert db.history[0] in db.history;
    assert Unsupported(db, db.candidates[0]);
    RepairOpens(db, now, 0);
  }

  /** Rows that a migration adds are due the stage's target days after their start, when the stage has a target. */
  predicate AddedDeadlines(before: seq<Row>, after: seq<Row>, sla: map<Stage, nat>) {
    && |before| <= |after|
    && forall k :: |before| <= k < |after| ==>
         after[k].slaDueAt == if after[k].stage in sla then Some(after[k].enteredAt + sla[after[k].stage] * DAY) else None
  }

  lemma {:induction false} InsertClosedDeadlines(db: Db, cs: seq<Candidate>)
    ensures AddedDeadlines([], InsertClosed(db, cs), db.sla)
  {
    if cs != [] {
      TimelineStages(db.events, cs[0].id);
      ClosedRowsAt(cs[0], Timeline(db.events, cs[0].id), db.sla, 0);
      InsertClosedDeadlines(db, cs[1..]);
    }
  }

  lemma {:induction false} InsertOpenDeadlines(db: Db, history: seq<Row>, cs: seq<Candidate>)
    ensures AddedDeadlines([], InsertOpen(db, history, cs), db.sla)
  {
    if cs != [] {
      InsertOpenDeadlines(db, history, cs[1..]);
    }
  }

  lemma {:induction false} RestoredDeadlines(cs: seq<Candidate>, holds: seq<Hold>, sla: map<Stage, nat>, now: Time)
    ensures AddedDeadlines([], RestoredRows(cs, holds, sla, now), sla)
  {
    if cs != [] {
      RestoredDeadlines(cs[1..], holds, sla, now);
    }
  }

  lemma {:induction false} ReviewDeadlines(cs: seq<Candidate>, ids: set<nat>, h: seq<Row>, sla: map<Stage, nat>, now: Time)
    ensures AddedDeadlines([], ReviewRows(cs, ids, h, sla, now), sla)
  {
    if cs != [] {
      ReviewDeadlines(cs[1..], ids, h, sla, now);
    }
  }

  /** All three migrations that add rows give every one of them the deadline of its stage. */
  lemma DeadlinesFollowTheStage(db: Db, now: Time)
    ensures AddedDeadlines(db.history, Rebuild(db).history, db.sla)
    ensures AddedDeadlines(db.history, RemoveOnHold(db, now).history, db.sla)
    ensures Repair(db, now).Success? ==> AddedDeadlines(db.history, Repair(db, now).value.history, db.sla)
  {
    var first := db.history + InsertClosed(db, db.candidates);
    InsertClosedDeadlines(db, db.candidates);
    InsertOpenDeadlines(db, first, db.candidates);
    CloseAllAtLeastAt(db.history, Holding(db.candidates), now);
    RestoredDeadlines(db.candidates, db.holds, db.sla, now);
    var ids := Repairing(db);
    CloseAllNowAt(db.history, ids, now);
    ReviewDeadlines(db.candidates, ids, CloseAllNow(db.history, ids, now), db.sla, now);
  }

  // ---------------------------------------------------------- in-place tables

  /** The tables that the migrations update, statement by statement. */
  class RecruitmentTables {
    var candidates: seq<Candidate>
    var history: seq<Row>
    var holds: seq<Hold>
    const events: seq<Event>
    const teachers: seq<Teacher>
    const academy: seq<AcademyTeacher>
    const sla: map<Stage, nat>

    function Tables(): Db
      reads this
    {
      Db(candidates, history, holds, events, teachers, academy, sla)
    }

    constructor (db: Db)
      ensures Tables() == db
    {
      candidates, history, holds := db.candidates, db.history, db.holds;
      events, teachers, academy, sla := db.events, db.teachers, db.academy, db.sla;
    }

    /** Two inserts fill the history from the audit log. */
    method RebuildHistory()
      requires DistinctCandidates(candidates) && DistinctEvents(events) && AtMostOneOpen(Tables())
      requires StageMatches(Tables()) && TimesOk(Tables())
      modifies this
      ensures Tables() == Rebuild(old(Tables()))
      ensures OneOpen(Tables()) && StageMatches(Tables()) && TimesOk(Tables())
    {
      var tables := Tables();
      RebuildEstablishes(tables);
      history := history + InsertClosed(tables, candidates);
      history := history + InsertOpen(tables, history, candidates);
    }

    /** Closes the intervals on hold, restages the candidates, releases all holds and reopens. */
    method EndOnHold(now: Time)
      requires DistinctCandidates(candidates) && OneOpen(Tables()) && StageMatches(Tables()) && TimesOk(Tables())
      modifies this
      ensures Tables() == RemoveOnHold(old(Tables()), now)
      ensures OneOpen(Tables()) && StageMatches(Tables()) && TimesOk(Tables())
    {
      RemoveOnHoldKeepsHistory(Tables(), now);
      var restoring, activeHolds := candidates, holds;
      history := CloseAllAtLeast(history, Holding(restoring), now);
      candidates := RestoreCandidates(candidates, activeHolds, now);
      holds := ReleaseHolds(holds, now);
      history := history + RestoredRows(restoring, activeHolds, sla, now);
    }

    /** Restages unsupported active teachers; a violated constraint undoes everything. */
    method ReconcileActiveTeachers(now: Time) returns (outcome: Result<Db, MigrationError>)
      requires TimesOk(Tables())
      modifies this
      ensures outcome == Repair(old(Tables()), now)
      ensures Tables() == if outcome.Success? then outcome.value else old(Tables())
      ensures outcome.Success? <==> !BlocksRepair(old(Tables()), now)
    {
      RepairSucceedsExactly(Tables(), now);
      var ids := Repairing(Tables());
      var closed := CloseAllNow(history, ids, now);
      if exists r :: r in closed && !RowTimeOk(r) {
        return Failure(TimeConstraintViolated);
      }
      history := closed;
      var reviews := ReviewRows(candidates, ids, history, sla, now);
      candidates := RepairCandidates(candidates, ids, now);
      history := history + reviews;
      return Success(Tables());
    }

    method CapFutureIntervals(now: Time)
      modifies this
      ensures Tables() == CapFuture(old(Tables()), now)
      ensures Closable(history, now)
    {
      CappedIsClosable(history, now);
      history := CapRows(history, now);
    }
  }
}
