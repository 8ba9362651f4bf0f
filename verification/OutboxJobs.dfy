/**
 The durable job table: its rows, the effect each statement of the job
 repository has on one row, and the class whose methods apply those statements
 to the table.  Times are microseconds; every statement receives the value of
 its transaction's now() as a parameter.
 */
module OutboxJobs {
  import opened Wrappers
  import opened Numbers
  import opened Sequences

  type Time = int

  const SECOND: int := 1_000_000

  datatype Status = Pending | Running | Retry | Completed | Dead

  datatype Job = Job(
    id: nat,
    topic: string,
    payload: string,
    key: string,
    status: Status,
    attempts: nat,
    maxAttempts: nat,
    availableAt: Time,
    leaseOwner: Option<string>,
    leaseExpiresAt: Option<Time>,
    createdAt: Time,
    startedAt: Option<Time>,
    completedAt: Option<Time>,
    lastError: Option<string>)

  type Table = map<nat, Job>

  /** What a producer may ask for; the schema keeps maxAttempts within 1 to 100. */
  datatype Command = Command(
    topic: string,
    payload: string,
    key: string,
    availableAt: Option<Time>,
    maxAttempts: nat)
  {
    predicate Valid() {
      topic != "" && key != "" && 1 <= maxAttempts <= 100
    }
  }

  // ---------------------------------------------------------------- row effects

  /** No topic list means every topic. */
  predicate TopicAllowed(topics: set<string>, topic: string) {
    topics == {} || topic in topics
  }

  function NewJob(id: nat, command: Command, now: Time): Job {
    Job(id, command.topic, command.payload, command.key, Pending, 0, command.maxAttempts,
        if command.availableAt.Some? then command.availableAt.value else now,
        None, None, now, None, None, None)
  }

  /** A missing expiry never satisfies the comparison. */
  predicate Expired(job: Job, now: Time, topics: set<string>) {
    && job.status.Running?
    && job.leaseExpiresAt.Some? && job.leaseExpiresAt.value <= now
    && TopicAllowed(topics, job.topic)
  }

  function ReleasedRow(job: Job, now: Time): Job {
    var exhausted := job.attempts >= job.maxAttempts;
    job.(status := if exhausted then Dead else Retry,
         leaseOwner := None,
         leaseExpiresAt := None,
         availableAt := now,
         completedAt := if exhausted then Some(now) else job.completedAt,
         lastError := if job.lastError.Some? then job.lastError else Some("Worker lease expired."))
  }

  predicate Claimable(job: Job, now: Time, topics: set<string>) {
    && (job.status.Pending? || job.status.Retry?)
    && job.availableAt <= now
    && (job.leaseExpiresAt.None? || job.leaseExpiresAt.value <= now)
    && TopicAllowed(topics, job.topic)
  }

  function ClaimedRow(job: Job, worker: string, now: Time, leaseSeconds: nat): Job {
    job.(status := Running,
         attempts := job.attempts + 1,
         leaseOwner := Some(worker),
         leaseExpiresAt := Some(now + leaseSeconds * SECOND),
         startedAt := if job.startedAt.Some? then job.startedAt else Some(now))
  }

  /** The fence of both write-backs: the row runs under this worker's name. */
  predicate HeldBy(job: Job, worker: string) {
    job.status.Running? && job.leaseOwner == Some(worker)
  }

  function CompletedRow(job: Job, now: Time): Job {
    job.(status := Completed, leaseOwner := None, leaseExpiresAt := None,
         completedAt := Some(now), lastError := None)
  }

  function FailedRow(job: Job, isDead: bool, nextAvailableAt: Time, error: string, now: Time): Job {
    job.(status := if isDead then Dead else Retry,
         availableAt := nextAvailableAt,
         leaseOwner := None,
         leaseExpiresAt := None,
         completedAt := if isDead then Some(now) else None,
         lastError := Some(error))
  }

  function ReplayedRow(job: Job, now: Time): Job {
    job.(status := Retry, attempts := 0, availableAt := now,
         leaseOwner := None, leaseExpiresAt := None,
         startedAt := None, completedAt := None, lastError := None)
  }

  // ------------------------------------------------------------- table effects

  function ExpiredIds(t: Table, now: Time, topics: set<string>): set<nat> {
    set id | id in t && Expired(t[id], now, topics)
  }

  function Released(t: Table, ids: set<nat>, now: Time): Table {
    map id | id in t :: if id in ids then ReleasedRow(t[id], now) else t[id]
  }

  /** Rows a claim may take: due, of an allowed topic, and not locked elsewhere. */
  function EligibleIds(t: Table, now: Time, topics: set<string>, locked: set<nat>): set<nat> {
    set id | id in t && id !in locked && Claimable(t[id], now, topics)
  }

  function Claimed(t: Table, ids: set<nat>, worker: string, now: Time, leaseSeconds: nat): Table {
    map id | id in t :: if id in ids then ClaimedRow(t[id], worker, now, leaseSeconds) else t[id]
  }

  // -------------------------------------------------- ORDER BY ... LIMIT choice

  /** ORDER BY available_at ASC, id ASC. */
  predicate Before(t: Table, a: nat, b: nat)
    requires a in t && b in t
  {
    t[a].availableAt < t[b].availableAt || (t[a].availableAt == t[b].availableAt && a < b)
  }

  /** `picked` is the first `limit` of `ids`: never more, and nobody left out comes earlier. */
  predicate IsFirst(t: Table, ids: set<nat>, limit: nat, picked: set<nat>)
    requires ids <= t.Keys
  {
    && picked <= ids
    && |picked| == (if |ids| < limit then |ids| else limit)
    && forall p, e :: p in picked && e in ids - picked ==> Before(t, p, e)
  }

  predicate IsEarliest(t: Table, ids: set<nat>, m: nat)
    requires ids <= t.Keys
  {
    m in ids && forall o :: o in ids && o != m ==> Before(t, m, o)
  }

  lemma {:induction false} EarliestExists(t: Table, ids: set<nat>) returns (m: nat)
    requires ids != {} && ids <= t.Keys
    ensures IsEarliest(t, ids, m)
    decreases |ids|
  {
    var x :| x in ids;
    if ids == {x} {
      m := x;
    } else {
      assert ids - {x} != {};
      var rest := EarliestExists(t, ids - {x});
      m := if Before(t, x, rest) then x else rest;
      forall o | o in ids && o != m
        ensures Before(t, m, o)
      {
        assert o == x || o in ids - {x};
      }
    }
  }

  function Earliest(t: Table, ids: set<nat>): (m: nat)
    requires ids != {} && ids <= t.Keys
    ensures IsEarliest(t, ids, m)
  {
    assert exists e :: IsEarliest(t, ids, e) by {
      var e := EarliestExists(t, ids);
    }
    var m :| m in ids && IsEarliest(t, ids, m);
    m
  }

  /** The rows ORDER BY available_at, id LIMIT n delivers, one at a time. */
  function TakeFirst(t: Table, ids: set<nat>, limit: nat): (picked: set<nat>)
    requires ids <= t.Keys
    ensures picked <= ids
  {
    if limit == 0 || ids == {} then {}
    else
      var m := Earliest(t, ids);
      {m} + TakeFirst(t, ids - {m}, limit - 1)
  }

  lemma {:induction false} TakeFirstIsFirst(t: Table, ids: set<nat>, limit: nat)
    requires ids <= t.Keys
    ensures IsFirst(t, ids, limit, TakeFirst(t, ids, limit))
    decreases limit
  {
    if limit != 0 && ids != {} {
      var m := Earliest(t, ids);
      TakeFirstIsFirst(t, ids - {m}, limit - 1);
      var rest := TakeFirst(t, ids - {m}, limit - 1);
      assert |ids - {m}| == |ids| - 1;
      assert m !in rest;
      assert |{m} + rest| == 1 + |rest|;
      assert ids - ({m} + rest) == (ids - {m}) - rest;
    }
  }

  lemma LeftOutIsLater(t: Table, ids: set<nat>, limit: nat, picked: set<nat>, a: nat, b: nat)
    requires ids <= t.Keys && IsFirst(t, ids, limit, picked)
    requires a in picked && b in ids && b !in picked
    ensures Before(t, a, b)
  {
    assert b in ids - picked;
  }

  /** Being first fixes the choice: a claim has no freedom left. */
  lemma FirstIsUnique(t: Table, ids: set<nat>, limit: nat, p: set<nat>, q: set<nat>)
    requires ids <= t.Keys
    requires IsFirst(t, ids, limit, p) && IsFirst(t, ids, limit, q)
    ensures p == q
  {
    if p != q {
      assert p == (p * q) + (p - q) && q == (p * q) + (q - p);
      assert |p| == |p * q| + |p - q|;
      assert |q| == |p * q| + |q - p|;
      assert p - q != {} || q - p != {};
      assert |p - q| > 0 && |q - p| > 0;
      var a :| a in p - q;
      var b :| b in q - p;
      LeftOutIsLater(t, ids, limit, p, a, b);
      LeftOutIsLater(t, ids, limit, q, b, a);
      assert false;
    }
  }

  /** Whoever is left out is due later than everybody taken, or as early with a larger id; and as many go as may. */
  predicate ClaimedInOrder(t: Table, ids: set<nat>, limit: nat, picked: set<nat>)
    requires ids <= t.Keys
  {
    && picked <= ids && |picked| <= limit && |picked| <= |ids| && (|picked| == limit || picked == ids)
    && forall p, e :: p in picked && e in ids && e !in picked ==>
         t[p].availableAt <= t[e].availableAt && (t[p].availableAt == t[e].availableAt ==> p < e)
  }

  lemma FirstInOrder(t: Table, ids: set<nat>, limit: nat, picked: set<nat>)
    requires ids <= t.Keys && IsFirst(t, ids, limit, picked)
    ensures ClaimedInOrder(t, ids, limit, picked)
  {
    SubsetSize(picked, ids);
    forall p, e | p in picked && e in ids && e !in picked
      ensures t[p].availableAt <= t[e].availableAt && (t[p].availableAt == t[e].availableAt ==> p < e)
    {
      LeftOutIsLater(t, ids, limit, picked, p, e);
    }
  }

  // --------------------------------------------------------------- retry delay

  function Pow2(n: nat): (p: nat)
    ensures p >= 1
  {
    if n == 0 then 1 else 2 * Pow2(n - 1)
  }

  /** Seconds until the next attempt of a job that has used `attempts` attempts. */
  function RetryDelay(attempts: nat, base: nat, cap: nat): nat {
    Min(base * Pow2(if attempts >= 1 then attempts - 1 else 0), cap)
  }

  lemma {:induction false} Pow2Monotone(a: nat, b: nat)
    requires a <= b
    ensures Pow2(a) <= Pow2(b)
    decreases b
  {
    if a < b {
      Pow2Monotone(a, b - 1);
    }
  }

  /** Under the configured minimum of one second, every delay lies within [1, cap]. */
  lemma RetryDelayBounds(attempts: nat, base: nat, cap: nat)
    requires base >= 1 && cap >= 1
    ensures 1 <= RetryDelay(attempts, base, cap) <= cap
  {
    var p := Pow2(if attempts >= 1 then attempts - 1 else 0);
    assert base * p >= 1 by {
      ProductMonotone(1, base, p);
    }
  }

  lemma ProductMonotone(a: nat, b: nat, k: nat)
    requires a <= b
    ensures a * k <= b * k
  {
  }

  lemma RetryDelayMonotone(a: nat, b: nat, base: nat, cap: nat)
    requires a <= b
    ensures RetryDelay(a, base, cap) <= RetryDelay(b, base, cap)
  {
    var x, y := if a >= 1 then a - 1 else 0, if b >= 1 then b - 1 else 0;
    Pow2Monotone(x, y);
    assert base * Pow2(x) <= base * Pow2(y) by {
      ProductMonotone(Pow2(x), Pow2(y), base);
      assert Pow2(x) * base == base * Pow2(x) && Pow2(y) * base == base * Pow2(y);
    }
  }

  /** From the first failure on, each delay is twice the one before, until the cap. */
  lemma RetryDelayDoubles(attempts: nat, base: nat, cap: nat)
    requires attempts >= 1
    ensures RetryDelay(1, base, cap) == Min(base, cap)
    ensures RetryDelay(attempts + 1, base, cap) == Min(2 * RetryDelay(attempts, base, cap), cap)
  {
    var p := Pow2(attempts - 1);
    assert Pow2(attempts) == 2 * p;
    assert base * (2 * p) == 2 * (base * p);
    assert Pow2(0) == 1;
  }

  // ------------------------------------------------------------- row invariant

  /** What holds of every row between transactions. */
  predicate RowOk(job: Job) {
    && 1 <= job.maxAttempts
    && (job.status.Running? <==> job.leaseOwner.Some?)
    && (job.status.Running? <==> job.leaseExpiresAt.Some?)
    && (job.status.Pending? ==> job.attempts == 0 && job.startedAt.None?)
    && (job.status.Retry? ==> job.attempts < job.maxAttempts)
    && (job.status.Running? ==> 1 <= job.attempts <= job.maxAttempts && job.startedAt.Some?)
    && (job.status.Dead? ==> job.attempts == job.maxAttempts)
    && (job.status.Completed? ==> 1 <= job.attempts <= job.maxAttempts)
    && (job.completedAt.Some? <==> job.status.Completed? || job.status.Dead?)
  }

  predicate TableOk(t: Table) {
    && (forall id :: id in t ==> t[id].id == id && RowOk(t[id]))
    && (forall i, j :: i in t && j in t && t[i].key == t[j].key ==> i == j)
  }

  predicate KeyTaken(t: Table, key: string) {
    exists id :: id in t && t[id].key == key
  }

  /** Work left in a row: no sequence of effective statements without a replay is longer. */
  function Rank(job: Job): int {
    if job.status.Completed? || job.status.Dead? then 0
    else 2 * (job.maxAttempts - job.attempts) + (if job.status.Running? then 1 else 0)
  }

  /** Every effect keeps the row invariant and, replay apart, strictly lowers the rank. */
  lemma RowEffects(job: Job, now: Time, worker: string, leaseSeconds: nat, nextAt: Time, error: string)
    requires RowOk(job)
    ensures 0 <= Rank(job) <= 2 * job.maxAttempts
    ensures job.status.Running? ==>
              && RowOk(ReleasedRow(job, now))
              && RowOk(CompletedRow(job, now))
              && RowOk(FailedRow(job, job.attempts >= job.maxAttempts, nextAt, error, now))
              && Rank(ReleasedRow(job, now)) < Rank(job)
              && Rank(CompletedRow(job, now)) < Rank(job)
              && Rank(FailedRow(job, job.attempts >= job.maxAttempts, nextAt, error, now)) < Rank(job)
    ensures job.status.Pending? || job.status.Retry? ==>
              && RowOk(ClaimedRow(job, worker, now, leaseSeconds))
              && Rank(ClaimedRow(job, worker, now, leaseSeconds)) < Rank(job)
    ensures job.status.Dead? ==> RowOk(ReplayedRow(job, now))
  {
  }

  // -------------------------------------------------- the effects, as seen later

  /** What no statement ever changes of a job. */
  predicate SameJob(a: Job, b: Job) {
    && a.id == b.id && a.topic == b.topic && a.payload == b.payload && a.key == b.key
    && a.maxAttempts == b.maxAttempts && a.createdAt == b.createdAt
  }

  /** A free row may be claimed from the time on at which it is available. */
  lemma DueExactly(job: Job, now: Time, topics: set<string>)
    requires RowOk(job)
    ensures Claimable(job, now, topics)
            <==> (job.status.Pending? || job.status.Retry?) && now >= job.availableAt && (topics == {} || job.topic in topics)
  {
  }

  /** A new job waits for the time asked for, or for nothing, and carries what was asked for. */
  lemma EnqueuedIsDue(id: nat, command: Command, now: Time, later: Time, topics: set<string>)
    requires command.Valid()
    ensures var job := NewJob(id, command, now);
            && RowOk(job) && job.status.Pending? && job.attempts == 0 && job.id == id && job.createdAt == now && job.lastError.None?
            && job.topic == command.topic && job.payload == command.payload && job.key == command.key
            && job.maxAttempts == command.maxAttempts
            && (Claimable(job, later, topics) <==>
                  && (command.availableAt.Some? ==> command.availableAt.value <= later) && (command.availableAt.None? ==> now <= later)
                  && (topics == {} || command.topic in topics))
  {
    DueExactly(NewJob(id, command, now), later, topics);
  }

  /**
   A claim uses one attempt, holds the row for its worker alone, and lasts its
   lease: no release touches the row before, and from the end on every release
   that works on its topic does.  The first claim's time stays.
   */
  lemma ClaimLastsItsLease(job: Job, worker: string, now: Time, leaseSeconds: nat, later: Time, topics: set<string>, other: string)
    ensures var claimed := ClaimedRow(job, worker, now, leaseSeconds);
            && claimed.attempts == job.attempts + 1 && SameJob(job, claimed)
            && (HeldBy(claimed, other) <==> other == worker)
            && !Claimable(claimed, later, topics)
            && (Expired(claimed, later, topics) <==> now + leaseSeconds * 1_000_000 <= later && (topics == {} || job.topic in topics))
            && (job.startedAt.Some? ==> claimed.startedAt == job.startedAt) && (job.startedAt.None? ==> claimed.startedAt == Some(now))
            && claimed.availableAt == job.availableAt && claimed.lastError == job.lastError && claimed.completedAt == job.completedAt
  {
  }

  /**
   A released row is due at once when it has attempts left and dead otherwise,
   with the time; an error that it already had stays.
   */
  lemma ReleasedIsDueOrDead(job: Job, now: Time, later: Time, topics: set<string>)
    requires RowOk(job) && job.status.Running?
    ensures var row := ReleasedRow(job, now);
            && SameJob(job, row) && row.attempts == job.attempts && row.startedAt == job.startedAt
            && row.leaseOwner.None? && row.leaseExpiresAt.None?
            && (Claimable(row, later, topics) <==>
                  job.attempts < job.maxAttempts && now <= later && (topics == {} || job.topic in topics))
            && (job.attempts == job.maxAttempts ==> row.status.Dead? && row.completedAt == Some(now) && row.availableAt == now)
            && (job.lastError.Some? ==> row.lastError == job.lastError)
            && (job.lastError.None? ==> row.lastError == Some("Worker lease expired."))
  {
    DueExactly(ReleasedRow(job, now), later, topics);
  }

  /** A replayed row is due at once, as if it had never been tried. */
  lemma ReplayedIsDue(job: Job, now: Time, later: Time, topics: set<string>)
    requires RowOk(job)
    ensures var row := ReplayedRow(job, now);
            && SameJob(job, row) && row.attempts == 0 && row.startedAt.None? && row.completedAt.None? && row.lastError.None?
            && row.leaseOwner.None? && row.leaseExpiresAt.None?
            && (Claimable(row, later, topics) <==> now <= later && (topics == {} || job.topic in topics))
  {
    DueExactly(ReplayedRow(job, now), later, topics);
  }

  lemma UpdateTableOk(t: Table, id: nat, job: Job)
    requires TableOk(t) && id in t
    requires RowOk(job) && job.id == id && job.key == t[id].key
    ensures TableOk(t[id := job])
  {
  }

  lemma ReleasedTableOk(t: Table, ids: set<nat>, now: Time)
    requires TableOk(t)
    requires forall id :: id in ids && id in t ==> t[id].status.Running?
    ensures TableOk(Released(t, ids, now))
  {
    var r := Released(t, ids, now);
    forall id | id in r
      ensures r[id].id == id && RowOk(r[id]) && r[id].key == t[id].key
    {
      RowEffects(t[id], now, "", 0, 0, "");
    }
  }

  lemma ClaimedTableOk(t: Table, ids: set<nat>, worker: string, now: Time, leaseSeconds: nat)
    requires TableOk(t)
    requires forall id :: id in ids && id in t ==> t[id].status.Pending? || t[id].status.Retry?
    ensures TableOk(Claimed(t, ids, worker, now, leaseSeconds))
  {
    var r := Claimed(t, ids, worker, now, leaseSeconds);
    forall id | id in r
      ensures r[id].id == id && RowOk(r[id]) && r[id].key == t[id].key
    {
      RowEffects(t[id], now, worker, leaseSeconds, 0, "");
    }
  }

  // -------------------------------------------------------------- job records

  function IdsOf(jobs: seq<Job>): set<nat> {
    set i | 0 <= i < |jobs| :: jobs[i].id
  }

  /** `jobs` lists the rows `ids` of `t`, each exactly once, in some order. */
  predicate AreRowsOf(jobs: seq<Job>, t: Table, ids: set<nat>) {
    && IdsOf(jobs) == ids
    && (forall i :: 0 <= i < |jobs| ==> jobs[i].id in t && jobs[i] == t[jobs[i].id])
    && (forall i, j :: 0 <= i < j < |jobs| ==> jobs[i].id != jobs[j].id)
  }

  lemma IdsOfPrefix(jobs: seq<Job>, i: nat)
    requires i < |jobs|
    ensures IdsOf(jobs[..i + 1]) == IdsOf(jobs[..i]) + {jobs[i].id}
  {
    var before, after := jobs[..i], jobs[..i + 1];
    assert after[i].id == jobs[i].id;
    forall id | id in IdsOf(before) + {jobs[i].id}
      ensures id in IdsOf(after)
    {
      if id in IdsOf(before) {
        var k :| 0 <= k < i && before[k].id == id;
        assert after[k].id == id;
      }
    }
  }

  method RecordsOf(t: Table, ids: set<nat>) returns (jobs: seq<Job>)
    requires TableOk(t) && ids <= t.Keys
    ensures AreRowsOf(jobs, t, ids)
  {
    jobs := [];
    var rest := ids;
    while rest != {}
      invariant rest <= ids
      invariant AreRowsOf(jobs, t, ids - rest)
      decreases rest
    {
      var id :| id in rest;
      ghost var before := jobs;
      jobs := jobs + [t[id]];
      IdsOfPrefix(jobs, |before|);
      assert jobs[..|before|] == before && jobs[..|before| + 1] == jobs;
      assert forall i :: 0 <= i < |before| ==> before[i].id in IdsOf(before);
      rest := rest - {id};
      assert ids - rest == IdsOf(before) + {id};
    }
  }

  // --------------------------------------------------------------- repository

  /** The table outbox_jobs together with its identity sequence. */
  class OutboxRepository {
    var rows: Table
    var nextId: nat

    ghost predicate Valid()
      reads this
    {
      TableOk(rows) && forall id :: id in rows ==> id < nextId
    }

    constructor ()
      ensures Valid() && rows == map[]
    {
      rows, nextId := map[], 1;
    }

    /** INSERT ... ON CONFLICT (idempotency_key) DO NOTHING, then the id of the key's row. */
    method InsertJob(command: Command, now: Time) returns (id: nat)
      requires Valid() && command.Valid()
      modifies this
      ensures Valid() && nextId >= old(nextId)
      ensures id in rows && rows[id].key == command.key
      ensures KeyTaken(old(rows), command.key) ==> rows == old(rows)
      ensures !KeyTaken(old(rows), command.key) ==>
                id !in old(rows) && rows == old(rows)[id := NewJob(id, command, now)]
    {
      var existing := set i | i in rows && rows[i].key == command.key;
      if existing == {} {
        id := nextId;
        rows := rows[id := NewJob(id, command, now)];
        nextId := nextId + 1;
        assert forall i :: i in old(rows) ==> rows[i] == old(rows)[i];
        assert forall i :: i in old(rows) && old(rows)[i].key == command.key ==> i in existing;
      } else {
        id :| id in existing;
        assert KeyTaken(rows, command.key);
      }
    }

    method ReleaseExpiredLeases(topics: set<string>, now: Time) returns (count: nat)
      requires Valid()
      modifies this`rows
      ensures Valid() && rows.Keys == old(rows).Keys
      ensures count == |ExpiredIds(old(rows), now, topics)|
      ensures forall id :: id in rows ==>
                rows[id] == if Expired(old(rows)[id], now, topics)
                            then ReleasedRow(old(rows)[id], now) else old(rows)[id]
      ensures ExpiredIds(rows, now, topics) == {}
    {
      var ids := ExpiredIds(rows, now, topics);
      count := |ids|;
      ReleasedTableOk(rows, ids, now);
      rows := Released(rows, ids, now);
    }

    /** The rows taken are exactly the first `limit` eligible ones, each returned once. */
    method ClaimDueJobs(worker: string, limit: nat, leaseSeconds: nat, topics: set<string>,
                        locked: set<nat>, now: Time) returns (jobs: seq<Job>)
      requires Valid()
      modifies this`rows
      ensures Valid() && rows.Keys == old(rows).Keys
      ensures var taken := IdsOf(jobs);
              && IsFirst(old(rows), EligibleIds(old(rows), now, topics, locked), limit, taken)
              && ClaimedInOrder(old(rows), EligibleIds(old(rows), now, topics, locked), limit, taken)
              && rows == Claimed(old(rows), taken, worker, now, leaseSeconds)
              && AreRowsOf(jobs, rows, taken)
    {
      var eligible := EligibleIds(rows, now, topics, locked);
      var picked := TakeFirst(rows, eligible, limit);
      TakeFirstIsFirst(rows, eligible, limit);
      FirstInOrder(rows, eligible, limit, picked);
      ClaimedTableOk(rows, picked, worker, now, leaseSeconds);
      rows := Claimed(rows, picked, worker, now, leaseSeconds);
      jobs := RecordsOf(rows, picked);
    }

    method CompleteJob(jobId: nat, worker: string, now: Time) returns (ok: bool)
      requires Valid()
      modifies this`rows
      ensures Valid()
      ensures ok <==> jobId in old(rows) && HeldBy(old(rows)[jobId], worker)
      ensures rows == if ok then old(rows)[jobId := CompletedRow(old(rows)[jobId], now)] else old(rows)
    {
      ok := jobId in rows && HeldBy(rows[jobId], worker);
      if ok {
        UpdateTableOk(rows, jobId, CompletedRow(rows[jobId], now));
        rows := rows[jobId := CompletedRow(rows[jobId], now)];
      }
    }

    /** The row invariant survives exactly when the dead decision fits the row's own attempts. */
    method RecordJobFailure(jobId: nat, worker: string, nextAvailableAt: Time, error: string,
                            isDead: bool, now: Time) returns (ok: bool)
      requires Valid()
      modifies this`rows
      ensures ok <==> jobId in old(rows) && HeldBy(old(rows)[jobId], worker)
      ensures Valid() <==>
                (ok ==> (isDead <==> old(rows)[jobId].attempts >= old(rows)[jobId].maxAttempts))
      ensures rows == if ok then old(rows)[jobId := FailedRow(old(rows)[jobId], isDead, nextAvailableAt, error, now)]
                      else old(rows)
    {
      ok := jobId in rows && HeldBy(rows[jobId], worker);
      if ok {
        ghost var job := rows[jobId];
        rows := rows[jobId := FailedRow(rows[jobId], isDead, nextAvailableAt, error, now)];
        assert RowOk(rows[jobId]) <==> (isDead <==> job.attempts >= job.maxAttempts);
        if isDead <==> job.attempts >= job.maxAttempts {
          UpdateTableOk(old(rows), jobId, rows[jobId]);
        }
      }
    }

    method ReplayDeadJob(jobId: nat, now: Time) returns (ok: bool)
      requires Valid()
      modifies this`rows
      ensures Valid()
      ensures ok <==> jobId in old(rows) && old(rows)[jobId].status.Dead?
      ensures rows == if ok then old(rows)[jobId := ReplayedRow(old(rows)[jobId], now)] else old(rows)
    {
      ok := jobId in rows && rows[jobId].status.Dead?;
      if ok {
        UpdateTableOk(rows, jobId, ReplayedRow(rows[jobId], now));
        rows := rows[jobId := ReplayedRow(rows[jobId], now)];
      }
    }
  }
}
