/**
 The job commands and the worker loop, applied to one repository with nobody
 else at work.  Interleavings with other workers are the subject of WorkerRuns.
 */
module JobCommands {
  import opened Wrappers
  import opened Numbers
  import opened OutboxJobs

  datatype Settings = Settings(
    batchSize: nat,
    leaseSeconds: nat,
    retryBase: nat,
    retryMax: nat,
    topics: set<string>)

  /** A write-back's own now(), and the service clock that the retry delay counts from. */
  datatype Moment = Moment(now: Time, clockNow: Time)

  /** How a handler ends; a topic without a handler ends in a failure too. */
  datatype Outcome = Handled | Raised(error: string)

  /** The row a claim transaction leaves: expired leases released first, then the picks claimed. */
  function ClaimTxn(t: Table, released: set<nat>, picked: set<nat>, worker: string,
                    now: Time, leaseSeconds: nat): Table
  {
    Claimed(Released(t, released, now), picked, worker, now, leaseSeconds)
  }

  /** What fail_job writes, computed from the worker's snapshot of the job. */
  function FailureOf(row: Job, snapshot: Job, settings: Settings, error: string, now: Time, clockNow: Time): Job {
    FailedRow(row, snapshot.attempts >= snapshot.maxAttempts,
              clockNow + RetryDelay(snapshot.attempts, settings.retryBase, settings.retryMax) * SECOND,
              error, now)
  }

  /** Seconds to wait after the n-th failed attempt: the base at first, then twice the wait before, up to the cap. */
  function Backoff(settings: Settings, n: nat): (wait: nat)
    ensures wait <= settings.retryMax
  {
    if n <= 1 then Min(settings.retryBase, settings.retryMax) else Min(2 * Backoff(settings, n - 1), settings.retryMax)
  }

  lemma {:induction false} BackoffIsDelay(settings: Settings, n: nat)
    ensures RetryDelay(n, settings.retryBase, settings.retryMax) == Backoff(settings, n)
  {
    RetryDelayDoubles(if n > 1 then n - 1 else 1, settings.retryBase, settings.retryMax);
    if n > 1 {
      BackoffIsDelay(settings, n - 1);
    } else {
      assert RetryDelay(n, settings.retryBase, settings.retryMax) == RetryDelay(1, settings.retryBase, settings.retryMax);
    }
  }

  /** The wait is the cap from the attempt on at which the doubled base reaches it, and below the cap it is that base. */
  lemma {:induction false} BackoffReachesCap(settings: Settings, n: nat)
    requires n >= 1
    ensures settings.retryBase * Pow2(n - 1) >= settings.retryMax ==> Backoff(settings, n) == settings.retryMax
    ensures settings.retryBase * Pow2(n - 1) < settings.retryMax ==> Backoff(settings, n) == settings.retryBase * Pow2(n - 1)
  {
    var doubled := settings.retryBase * Pow2(n - 1);
    if n > 1 {
      BackoffReachesCap(settings, n - 1);
      assert doubled == 2 * (settings.retryBase * Pow2(n - 2));
    } else {
      assert Pow2(0) == 1 && doubled == settings.retryBase;
    }
  }

  /** What a recorded failure leaves of a row, field by field: dead or waiting by the snapshot's attempts, and held by nobody. */
  predicate FailureRecorded(was: Job, row: Job, snapshot: Job, settings: Settings, error: string, now: Time, clockNow: Time) {
    && (if snapshot.attempts < snapshot.maxAttempts then row.status.Retry? && row.completedAt.None?
        else row.status.Dead? && row.completedAt == Some(now))
    && row.availableAt - clockNow == Backoff(settings, snapshot.attempts) * SECOND
    && row.lastError == Some(error) && row.leaseOwner.None? && row.leaseExpiresAt.None?
    && row.attempts == was.attempts && row.startedAt == was.startedAt && SameJob(was, row)
  }

  lemma FailureIsRecorded(was: Job, snapshot: Job, settings: Settings, error: string, now: Time, clockNow: Time)
    ensures FailureRecorded(was, FailureOf(was, snapshot, settings, error, now, clockNow), snapshot, settings, error, now, clockNow)
  {
    BackoffIsDelay(settings, snapshot.attempts);
  }

  /** What a completion leaves of a row: completed now, without an error, and held by nobody. */
  predicate CompletionRecorded(was: Job, row: Job, now: Time) {
    && row.status.Completed? && row.completedAt == Some(now) && row.lastError.None?
    && row.leaseOwner.None? && row.leaseExpiresAt.None?
    && row.attempts == was.attempts && row.startedAt == was.startedAt && row.availableAt == was.availableAt && SameJob(was, row)
  }

  /** What a write-back leaves of the row that it finds, by the handler's outcome. */
  predicate OutcomeRecorded(was: Job, row: Job, snapshot: Job, outcome: Outcome, settings: Settings, at: Moment) {
    match outcome
    case Handled => CompletionRecorded(was, row, at.now)
    case Raised(error) => FailureRecorded(was, row, snapshot, settings, error, at.now, at.clockNow)
  }

  lemma OutcomeIsRecorded(was: Job, snapshot: Job, outcome: Outcome, settings: Settings, at: Moment)
    ensures OutcomeRecorded(was, SettledRow(was, snapshot, outcome, settings, at), snapshot, outcome, settings, at)
  {
    if outcome.Raised? {
      FailureIsRecorded(was, snapshot, settings, outcome.error, at.now, at.clockNow);
    }
  }

  /** Release, then claim, in one transaction: nothing of an allowed topic stays expired. */
  method ClaimJobs(repo: OutboxRepository, worker: string, settings: Settings, locked: set<nat>, now: Time)
    returns (jobs: seq<Job>)
    requires repo.Valid()
    modifies repo`rows
    ensures repo.Valid() && repo.rows.Keys == old(repo.rows).Keys
    ensures var released := ExpiredIds(old(repo.rows), now, settings.topics);
            var mid := Released(old(repo.rows), released, now);
            && IsFirst(mid, EligibleIds(mid, now, settings.topics, locked), settings.batchSize, IdsOf(jobs))
            && repo.rows == ClaimTxn(old(repo.rows), released, IdsOf(jobs), worker, now, settings.leaseSeconds)
            && AreRowsOf(jobs, repo.rows, IdsOf(jobs))
  {
    var count := repo.ReleaseExpiredLeases(settings.topics, now);
    assert repo.rows == Released(old(repo.rows), ExpiredIds(old(repo.rows), now, settings.topics), now);
    jobs := repo.ClaimDueJobs(worker, settings.batchSize, settings.leaseSeconds, settings.topics, locked, now);
  }

  method FailJob(repo: OutboxRepository, job: Job, worker: string, error: string,
                 settings: Settings, now: Time, clockNow: Time) returns (ok: bool)
    requires repo.Valid()
    modifies repo`rows
    ensures ok <==> job.id in old(repo.rows) && HeldBy(old(repo.rows)[job.id], worker)
    ensures repo.rows == if ok then old(repo.rows)[job.id := FailureOf(old(repo.rows)[job.id], job, settings, error, now, clockNow)]
                         else old(repo.rows)
    ensures ok ==> FailureRecorded(old(repo.rows)[job.id], repo.rows[job.id], job, settings, error, now, clockNow)
    ensures repo.Valid() <==>
              (ok ==> (job.attempts >= job.maxAttempts <==>
                         old(repo.rows)[job.id].attempts >= old(repo.rows)[job.id].maxAttempts))
  {
    if job.id in repo.rows {
      FailureIsRecorded(repo.rows[job.id], job, settings, error, now, clockNow);
    }
    var isDead := job.attempts >= job.maxAttempts;
    var delay := RetryDelay(job.attempts, settings.retryBase, settings.retryMax);
    ok := repo.RecordJobFailure(job.id, worker, clockNow + delay * SECOND, error, isDead, now);
  }

  /** What a write-back makes of the row that it finds, from the worker's snapshot of the job. */
  function SettledRow(row: Job, snapshot: Job, outcome: Outcome, settings: Settings, at: Moment): Job {
    if outcome.Handled? then CompletedRow(row, at.now)
    else FailureOf(row, snapshot, settings, outcome.error, at.now, at.clockNow)
  }

  /** Run one claimed job; true when the worker has to stop because its lease was lost. */
  method ExecuteJob(repo: OutboxRepository, job: Job, worker: string, settings: Settings,
                    outcome: Outcome, at: Moment) returns (leaseLost: bool)
    requires repo.Valid()
    modifies repo`rows
    ensures var held := job.id in old(repo.rows) && HeldBy(old(repo.rows)[job.id], worker);
            && (leaseLost <==> outcome.Handled? && !held)
            && repo.rows == (if held then old(repo.rows)[job.id := SettledRow(old(repo.rows)[job.id], job, outcome, settings, at)]
                             else old(repo.rows))
            && (held ==> OutcomeRecorded(old(repo.rows)[job.id], repo.rows[job.id], job, outcome, settings, at))
            && (held && outcome.Raised? ==> (repo.Valid() <==>
                  (job.attempts >= job.maxAttempts <==> old(repo.rows)[job.id].attempts >= old(repo.rows)[job.id].maxAttempts)))
            && (!held || outcome.Handled? ==> repo.Valid())
  {
    if job.id in repo.rows {
      OutcomeIsRecorded(repo.rows[job.id], job, outcome, settings, at);
    }
    if outcome.Handled? {
      var ok := repo.CompleteJob(job.id, worker, at.now);
      leaseLost := !ok;
    } else {
      var recorded := FailJob(repo, job, worker, outcome.error, settings, at.now, at.clockNow);
      leaseLost := false;
    }
  }

  /** The rows after the first `done` jobs of a batch, each settled by its handler's outcome at its own moment. */
  predicate Progress(rows: Table, claimed: Table, batch: seq<Job>, done: nat,
                     handle: Job -> Outcome, settings: Settings, clock: nat -> Moment)
    requires done <= |batch|
  {
    && rows.Keys == claimed.Keys
    && (forall k :: 0 <= k < done ==>
          batch[k].id in rows && rows[batch[k].id] == SettledRow(batch[k], batch[k], handle(batch[k]), settings, clock(k)))
    && (forall id :: id in claimed && id !in IdsOf(batch[..done]) ==> rows[id] == claimed[id])
  }

  lemma ProgressStep(rows: Table, rows': Table, claimed: Table, batch: seq<Job>, done: nat,
                     handle: Job -> Outcome, settings: Settings, clock: nat -> Moment)
    requires done < |batch| && AreRowsOf(batch, claimed, IdsOf(batch))
    requires Progress(rows, claimed, batch, done, handle, settings, clock)
    requires var job := batch[done];
             rows' == rows[job.id := SettledRow(job, job, handle(job), settings, clock(done))]
    ensures Progress(rows', claimed, batch, done + 1, handle, settings, clock)
  {
    IdsOfPrefix(batch, done);
    assert batch[done].id in claimed;
  }

  lemma NotYetDone(batch: seq<Job>, done: nat)
    requires done < |batch|
    requires forall i, j :: 0 <= i < j < |batch| ==> batch[i].id != batch[j].id
    ensures batch[done].id !in IdsOf(batch[..done])
  {
  }

  /** Works through a batch, stopping at the first lost lease, which cannot happen while nobody interferes. */
  method ExecuteBatch(repo: OutboxRepository, worker: string, settings: Settings, handle: Job -> Outcome,
                      batch: seq<Job>, clock: nat -> Moment) returns (leaseLost: bool)
    requires repo.Valid() && AreRowsOf(batch, repo.rows, IdsOf(batch))
    requires forall k :: 0 <= k < |batch| ==> HeldBy(batch[k], worker)
    modifies repo`rows
    ensures repo.Valid() && !leaseLost
    ensures Progress(repo.rows, old(repo.rows), batch, |batch|, handle, settings, clock)
  {
    ghost var claimed := repo.rows;
    leaseLost := false;
    var i := 0;
    while i < |batch| && !leaseLost
      invariant 0 <= i <= |batch| && !leaseLost
      invariant repo.Valid()
      invariant Progress(repo.rows, claimed, batch, i, handle, settings, clock)
    {
      ghost var before := repo.rows;
      NotYetDone(batch, i);
      assert before[batch[i].id] == claimed[batch[i].id] == batch[i];
      leaseLost := ExecuteJob(repo, batch[i], worker, settings, handle(batch[i]), clock(i));
      ProgressStep(before, repo.rows, claimed, batch, i, handle, settings, clock);
      i := i + 1;
    }
  }

  /**
   One round of a worker that nobody disturbs: it claims the first due jobs as
   its release left them, no lease is ever lost, every claimed job is settled
   by its own handler's outcome, no other row differs from what the claim left,
   and the number of claimed jobs is returned.  Every transaction of the round
   has its own time.
   */
  method RunWorkerOnce(repo: OutboxRepository, worker: string, settings: Settings,
                       handle: Job -> Outcome, now: Time, clock: nat -> Moment)
    returns (count: nat, leaseLost: bool, ghost jobs: seq<Job>, ghost claimed: Table)
    requires repo.Valid()
    modifies repo`rows
    ensures repo.Valid()
    ensures !leaseLost && count == |jobs|
    ensures var released := ExpiredIds(old(repo.rows), now, settings.topics);
            var mid := Released(old(repo.rows), released, now);
            && IsFirst(mid, EligibleIds(mid, now, settings.topics, {}), settings.batchSize, IdsOf(jobs))
            && claimed == ClaimTxn(old(repo.rows), released, IdsOf(jobs), worker, now, settings.leaseSeconds)
            && AreRowsOf(jobs, claimed, IdsOf(jobs))
    ensures Progress(repo.rows, claimed, jobs, |jobs|, handle, settings, clock)
    ensures forall k :: 0 <= k < |jobs| ==>
              && jobs[k].id in repo.rows
              && OutcomeRecorded(jobs[k], repo.rows[jobs[k].id], jobs[k], handle(jobs[k]), settings, clock(k))
  {
    var batch := ClaimJobs(repo, worker, settings, {}, now);
    jobs, claimed := batch, repo.rows;
    assert forall k :: 0 <= k < |batch| ==> batch[k].id in IdsOf(batch) && HeldBy(batch[k], worker);
    leaseLost := ExecuteBatch(repo, worker, settings, handle, batch, clock);
    forall k | 0 <= k < |jobs|
      ensures jobs[k].id in repo.rows
      ensures OutcomeRecorded(jobs[k], repo.rows[jobs[k].id], jobs[k], handle(jobs[k]), settings, clock(k))
    {
      OutcomeIsRecorded(jobs[k], jobs[k], handle(jobs[k]), settings, clock(k));
    }
    count := |batch|;
  }
}
