/**
 Several workers, producers and operators over one job table.

 A run is a sequence of actions.  Each database statement of the worker is one
 action, except that a claim transaction is three: the release of expired
 leases and the choice of due rows each take row locks on the state of the
 table that they find, and the commit publishes the changes of both, so other
 actions can fall in between.  Every action carries its own now(): nothing below relies on the
 clocks of different transactions agreeing.  A worker may crash at any point
 and come back under the same worker id.
 */
module WorkerRuns {
  import opened Wrappers
  import opened Sequences
  import opened OutboxJobs
  import opened JobCommands

  datatype Phase =
    | Releasing(now: Time, released: set<nat>)
    | Claiming(now: Time, released: set<nat>, picked: set<nat>)
    | Working(batch: seq<Job>)

  datatype Process = Process(workerId: string, settings: Settings, phase: Phase)

  datatype World = World(rows: Table, procs: map<nat, Process>)

  datatype Action =
    | Enqueue(id: nat, command: Command, now: Time)
    | BeginClaim(p: nat, now: Time)
    | SelectClaim(p: nat)
    | CommitClaim(p: nat, batch: seq<Job>)
    | Succeed(p: nat, now: Time)
    | Fail(p: nat, error: string, now: Time, clockNow: Time)
    | Crash(p: nat)
    | Replay(id: nat, now: Time)

  // --------------------------------------------------------------------- locks

  function Locks(phase: Phase): set<nat> {
    match phase
    case Releasing(_, released) => released
    case Claiming(_, released, picked) => released + picked
    case Working(_) => {}
  }

  /** Rows locked by claim transactions of processes other than p. */
  predicate LockedByOther(w: World, p: nat, id: nat) {
    exists q :: q in w.procs && q != p && id in Locks(w.procs[q].phase)
  }

  predicate Locked(w: World, id: nat) {
    exists q :: q in w.procs && id in Locks(w.procs[q].phase)
  }

  function LockedIds(w: World, p: nat): set<nat> {
    set id | id in w.rows && LockedByOther(w, p, id)
  }

  // --------------------------------------------------------------------- steps

  predicate IsWorking(w: World, p: nat) {
    p in w.procs && w.procs[p].phase.Working?
  }

  /** The snapshot of the job that p is executing. */
  predicate IsExecuting(w: World, p: nat) {
    IsWorking(w, p) && w.procs[p].phase.batch != []
  }

  function Snapshot(w: World, p: nat): Job
    requires IsExecuting(w, p)
  {
    w.procs[p].phase.batch[0]
  }

  /** The write-back of p's current job matches a row. */
  predicate Matches(w: World, p: nat)
    requires IsExecuting(w, p)
  {
    var id := Snapshot(w, p).id;
    id in w.rows && HeldBy(w.rows[id], w.procs[p].workerId)
  }

  /** An UPDATE waits for a locked row that it matches; a disabled action is one that waits. */
  predicate Enabled(w: World, a: Action) {
    match a
    case Enqueue(id, command, _) => command.Valid() && id !in w.rows
    case BeginClaim(p, now) =>
      && IsWorking(w, p) && w.procs[p].phase.batch == []
      && forall id :: id in ExpiredIds(w.rows, now, w.procs[p].settings.topics) ==> !LockedByOther(w, p, id)
    case SelectClaim(p) => p in w.procs && w.procs[p].phase.Releasing?
    case CommitClaim(p, batch) =>
      && p in w.procs && w.procs[p].phase.Claiming?
      && AreRowsOf(batch, AfterClaim(w, p), w.procs[p].phase.picked)
    case Succeed(p, _) => IsExecuting(w, p) && (Matches(w, p) ==> !Locked(w, Snapshot(w, p).id))
    case Fail(p, _, _, _) => IsExecuting(w, p) && (Matches(w, p) ==> !Locked(w, Snapshot(w, p).id))
    case Crash(p) => p in w.procs
    case Replay(id, _) => id in w.rows && w.rows[id].status.Dead? ==> !Locked(w, id)
  }

  function AfterClaim(w: World, p: nat): Table
    requires p in w.procs && w.procs[p].phase.Claiming?
  {
    var proc := w.procs[p];
    ClaimTxn(w.rows, proc.phase.released, proc.phase.picked, proc.workerId, proc.phase.now, proc.settings.leaseSeconds)
  }

  function WithPhase(w: World, p: nat, phase: Phase): World
    requires p in w.procs
  {
    w.(procs := w.procs[p := w.procs[p].(phase := phase)])
  }

  function Began(w: World, p: nat, now: Time): Phase
    requires p in w.procs
  {
    Releasing(now, ExpiredIds(w.rows, now, w.procs[p].settings.topics))
  }

  /** The rows as the transaction itself sees them after its release. */
  function SeenBy(w: World, p: nat): Table
    requires p in w.procs && w.procs[p].phase.Releasing?
  {
    Released(w.rows, w.procs[p].phase.released, w.procs[p].phase.now)
  }

  function Selected(w: World, p: nat): Phase
    requires p in w.procs && w.procs[p].phase.Releasing?
  {
    var s, phase := w.procs[p].settings, w.procs[p].phase;
    var seen := SeenBy(w, p);
    Claiming(phase.now, phase.released,
             TakeFirst(seen, EligibleIds(seen, phase.now, s.topics, LockedIds(w, p)), s.batchSize))
  }

  /**
   A success that finds no matching row raises and stops the worker, dropping
   the rest of its batch; a failure that finds none is ignored.
   */
  function Apply(w: World, a: Action): World
    requires Enabled(w, a)
  {
    match a
    case Enqueue(id, command, now) =>
      if KeyTaken(w.rows, command.key) then w else w.(rows := w.rows[id := NewJob(id, command, now)])
    case BeginClaim(p, now) => WithPhase(w, p, Began(w, p, now))
    case SelectClaim(p) => WithPhase(w, p, Selected(w, p))
    case CommitClaim(p, batch) => WithPhase(w, p, Working(batch)).(rows := AfterClaim(w, p))
    case Succeed(p, now) =>
      if Matches(w, p) then
        var id := Snapshot(w, p).id;
        WithPhase(w, p, Working(w.procs[p].phase.batch[1..])).(rows := w.rows[id := CompletedRow(w.rows[id], now)])
      else
        WithPhase(w, p, Working([]))
    case Fail(p, error, now, clockNow) =>
      var next := WithPhase(w, p, Working(w.procs[p].phase.batch[1..]));
      if Matches(w, p) then
        var s := Snapshot(w, p);
        next.(rows := w.rows[s.id := FailureOf(w.rows[s.id], s, w.procs[p].settings, error, now, clockNow)])
      else next
    case Crash(p) => WithPhase(w, p, Working([]))
    case Replay(id, now) =>
      if id in w.rows && w.rows[id].status.Dead? then
        w.(rows := w.rows[id := ReplayedRow(w.rows[id], now)])
      else w
  }

  // ---------------------------------------------------------------------- runs

  predicate IsRun(w: World, acts: seq<Action>)
    decreases |acts|
  {
    acts == [] || (Enabled(w, acts[0]) && IsRun(Apply(w, acts[0]), acts[1..]))
  }

  function After(w: World, acts: seq<Action>): World
    requires IsRun(w, acts)
    decreases |acts|
  {
    if acts == [] then w else After(Apply(w, acts[0]), acts[1..])
  }

  /** Two processes never share a worker id. */
  predicate DistinctIds(w: World) {
    forall p, q :: p in w.procs && q in w.procs && w.procs[p].workerId == w.procs[q].workerId ==> p == q
  }

  predicate CanClaim(proc: Process, topic: string) {
    proc.settings.batchSize >= 1 && TopicAllowed(proc.settings.topics, topic)
  }

  /** Two processes share a worker id and could both claim a job of the topic. */
  predicate SharesAt(w: World, p: nat, q: nat, topic: string) {
    && p in w.procs && q in w.procs && p != q && w.procs[p].workerId == w.procs[q].workerId
    && topic != "" && CanClaim(w.procs[p], topic) && CanClaim(w.procs[q], topic)
  }

  /** No worker id is shared by two processes that could claim the same job. */
  ghost predicate NoneShare(w: World) {
    forall p, q, topic: string :: !SharesAt(w, p, q, topic)
  }

  lemma DistinctIdsDoNotShare(w: World)
    requires DistinctIds(w)
    ensures NoneShare(w)
  {
  }

  /** Before anything happened: no rows, and every process idle. */
  predicate Init(w: World) {
    w.rows == map[] && forall p :: p in w.procs ==> w.procs[p].phase == Working([])
  }

  // ----------------------------------------------------------------- invariant

  /** A snapshot is a claimed row, and while its owner still holds the row nothing in it has changed. */
  predicate SnapshotOk(rows: Table, worker: string, s: Job) {
    && HeldBy(s, worker) && RowOk(s)
    && s.id in rows
    && (HeldBy(rows[s.id], worker) ==> rows[s.id] == s)
  }

  predicate BatchOk(rows: Table, worker: string, batch: seq<Job>) {
    && (forall i :: 0 <= i < |batch| ==> SnapshotOk(rows, worker, batch[i]))
    && (forall i, j :: 0 <= i < j < |batch| ==> batch[i].id != batch[j].id)
  }

  /** The process was allowed to claim the jobs of its batch. */
  predicate BatchAllowed(rows: Table, proc: Process, batch: seq<Job>) {
    forall i :: 0 <= i < |batch| ==> batch[i].id in rows && CanClaim(proc, rows[batch[i].id].topic)
  }

  /** Locked rows still satisfy the condition under which their statement chose them. */
  predicate LocksOk(rows: Table, released: set<nat>, picked: set<nat>, now: Time, topics: set<string>) {
    && released <= rows.Keys && picked <= rows.Keys
    && (forall id :: id in released ==> Expired(rows[id], now, topics))
    && (forall id :: id in picked ==> Claimable(Released(rows, released, now)[id], now, topics))
  }

  predicate ProcessOk(rows: Table, proc: Process) {
    match proc.phase
    case Releasing(now, released) => LocksOk(rows, released, {}, now, proc.settings.topics)
    case Claiming(now, released, picked) =>
      LocksOk(rows, released, picked, now, proc.settings.topics) && (picked != {} ==> proc.settings.batchSize >= 1)
    case Working(batch) => BatchOk(rows, proc.workerId, batch) && BatchAllowed(rows, proc, batch)
  }

  /** No job has an empty topic. */
  predicate TopicsOk(rows: Table) {
    forall id :: id in rows ==> rows[id].topic != ""
  }

  predicate DisjointLocks(w: World) {
    forall p, q, id ::
      (p in w.procs && q in w.procs && id in Locks(w.procs[p].phase) && id in Locks(w.procs[q].phase)) ==> p == q
  }

  ghost predicate Inv(w: World) {
    && TableOk(w.rows) && TopicsOk(w.rows)
    && NoneShare(w)
    && DisjointLocks(w)
    && (forall p :: p in w.procs ==> ProcessOk(w.rows, w.procs[p]))
  }

  // ------------------------------------------------- what one action can change

  /** The rows an action may rewrite. */
  function Touched(w: World, a: Action): set<nat>
    requires Enabled(w, a)
  {
    match a
    case Enqueue(_, _, _) => {}
    case BeginClaim(_, _) => {}
    case SelectClaim(_) => {}
    case CommitClaim(p, _) => Locks(w.procs[p].phase)
    case Succeed(p, _) => if Matches(w, p) then {Snapshot(w, p).id} else {}
    case Fail(p, _, _, _) => if Matches(w, p) then {Snapshot(w, p).id} else {}
    case Crash(_) => {}
    case Replay(id, _) => if id in w.rows && w.rows[id].status.Dead? then {id} else {}
  }

  lemma OnlyTouchedChange(w: World, a: Action)
    requires Enabled(w, a)
    ensures w.rows.Keys <= Apply(w, a).rows.Keys
    ensures forall id :: id in w.rows && id !in Touched(w, a) ==> Apply(w, a).rows[id] == w.rows[id]
    ensures forall id :: id in w.rows ==> Apply(w, a).rows[id].topic == w.rows[id].topic
  {
  }

  /** Workers keep their ids and settings for good. */
  lemma ProcessesKept(w: World, a: Action)
    requires Enabled(w, a)
    ensures Apply(w, a).procs.Keys == w.procs.Keys
    ensures forall p :: p in w.procs ==> Apply(w, a).procs[p].(phase := w.procs[p].phase) == w.procs[p]
    ensures NoneShare(w) ==> NoneShare(Apply(w, a))
    ensures TopicsOk(w.rows) ==> TopicsOk(Apply(w, a).rows)
  {
    OnlyTouchedChange(w, a);
    var after := Apply(w, a);
    forall p | p in w.procs
      ensures after.procs[p].workerId == w.procs[p].workerId && after.procs[p].settings == w.procs[p].settings
    {
    }
    if NoneShare(w) {
      forall p, q, topic: string
        ensures !SharesAt(after, p, q, topic)
      {
        assert !SharesAt(w, p, q, topic);
      }
    }
  }

  /** No action rewrites a row that somebody else's claim transaction has locked. */
  lemma TouchedAreUnlocked(w: World, a: Action, q: nat, id: nat)
    requires Inv(w) && Enabled(w, a)
    requires q in w.procs && id in Locks(w.procs[q].phase)
    requires a.CommitClaim? ==> a.p != q
    ensures id !in Touched(w, a)
  {
  }

  /** A row that an action rewrites is afterwards held by nobody but the worker that claims it. */
  lemma TouchedAreNotHeld(w: World, a: Action, worker: string, id: nat)
    requires Inv(w) && Enabled(w, a) && id in Touched(w, a)
    requires a.CommitClaim? && id in w.procs[a.p].phase.picked ==> worker != w.procs[a.p].workerId
    ensures id in Apply(w, a).rows && !HeldBy(Apply(w, a).rows[id], worker)
  {
    if a.CommitClaim? {
      var phase := w.procs[a.p].phase;
      assert ProcessOk(w.rows, w.procs[a.p]);
      assert id in w.rows;
      if id in phase.picked {
        assert AfterClaim(w, a.p)[id].leaseOwner == Some(w.procs[a.p].workerId);
      } else {
        assert AfterClaim(w, a.p)[id] == ReleasedRow(w.rows[id], phase.now);
      }
    }
  }

  /** A job that one process claims belongs to the batch of no other process under the same worker id. */
  lemma ClaimerIsAnother(w: World, a: Action, q: nat, id: nat)
    requires Inv(w) && Enabled(w, a) && a.CommitClaim? && a.p != q && q in w.procs
    requires id in w.procs[a.p].phase.picked && id in w.rows && CanClaim(w.procs[q], w.rows[id].topic)
    ensures w.procs[q].workerId != w.procs[a.p].workerId
  {
    assert ProcessOk(w.rows, w.procs[a.p]);
    var phase := w.procs[a.p].phase;
    assert Released(w.rows, phase.released, phase.now)[id].topic == w.rows[id].topic;
    assert CanClaim(w.procs[a.p], w.rows[id].topic);
    assert !SharesAt(w, a.p, q, w.rows[id].topic);
  }

  // ------------------------------------------------------------- invariant step

  lemma ClaimedBatchOk(w: World, a: Action)
    requires Inv(w) && Enabled(w, a) && a.CommitClaim?
    ensures TableOk(Apply(w, a).rows)
    ensures BatchOk(Apply(w, a).rows, w.procs[a.p].workerId, a.batch)
    ensures BatchAllowed(Apply(w, a).rows, w.procs[a.p], a.batch)
  {
    var proc := w.procs[a.p];
    var phase := proc.phase;
    assert ProcessOk(w.rows, proc);
    ReleasedTableOk(w.rows, phase.released, phase.now);
    var mid := Released(w.rows, phase.released, phase.now);
    ClaimedTableOk(mid, phase.picked, proc.workerId, phase.now, proc.settings.leaseSeconds);
    var rows := AfterClaim(w, a.p);
    forall i | 0 <= i < |a.batch|
      ensures SnapshotOk(rows, proc.workerId, a.batch[i])
    {
      assert a.batch[i].id in IdsOf(a.batch);
      assert rows[a.batch[i].id] == ClaimedRow(mid[a.batch[i].id], proc.workerId, phase.now, proc.settings.leaseSeconds);
    }
  }

  /** The table invariant: here the dead decision, taken from a snapshot, needs the fence. */
  lemma StepTableOk(w: World, a: Action)
    requires Inv(w) && Enabled(w, a)
    ensures TableOk(Apply(w, a).rows)
  {
    match a
    case CommitClaim(p, batch) => ClaimedBatchOk(w, a);
    case Succeed(p, now) =>
      if Matches(w, p) {
        RowEffects(w.rows[Snapshot(w, p).id], now, "", 0, 0, "");
        UpdateTableOk(w.rows, Snapshot(w, p).id, CompletedRow(w.rows[Snapshot(w, p).id], now));
      }
    case Fail(p, error, now, clockNow) =>
      if Matches(w, p) {
        Fence(w, p);
        var s := Snapshot(w, p);
        RowEffects(s, now, "", 0, 0, "");
        UpdateTableOk(w.rows, s.id, FailureOf(s, s, w.procs[p].settings, error, now, clockNow));
      }
    case Replay(id, now) =>
      if id in w.rows && w.rows[id].status.Dead? {
        UpdateTableOk(w.rows, id, ReplayedRow(w.rows[id], now));
      }
    case Enqueue(id, command, now) =>
      if !KeyTaken(w.rows, command.key) {
        var rows := Apply(w, a).rows;
        forall i, j | i in rows && j in rows && rows[i].key == rows[j].key
          ensures i == j
        {
        }
      }
    case _ =>
  }

  /** A process that does not act keeps its part of the invariant. */
  lemma BystanderOk(w: World, a: Action, q: nat)
    requires Inv(w) && Enabled(w, a) && q in w.procs
    requires Apply(w, a).procs[q] == w.procs[q]
    requires a.CommitClaim? ==> a.p != q
    ensures ProcessOk(Apply(w, a).rows, w.procs[q])
  {
    var rows := Apply(w, a).rows;
    var proc := w.procs[q];
    OnlyTouchedChange(w, a);
    assert ProcessOk(w.rows, proc);
    match proc.phase
    case Releasing(now, released) =>
      forall id | id in released
        ensures rows[id] == w.rows[id]
      {
        TouchedAreUnlocked(w, a, q, id);
      }
    case Claiming(now, released, picked) =>
      forall id | id in released + picked
        ensures rows[id] == w.rows[id]
      {
        TouchedAreUnlocked(w, a, q, id);
      }
    case Working(batch) =>
      BatchUndisturbed(w, a, q, batch);
  }

  lemma BatchUndisturbed(w: World, a: Action, q: nat, batch: seq<Job>)
    requires Inv(w) && Enabled(w, a) && q in w.procs
    requires BatchOk(w.rows, w.procs[q].workerId, batch) && BatchAllowed(w.rows, w.procs[q], batch)
    requires a.CommitClaim? ==> a.p != q
    ensures BatchOk(Apply(w, a).rows, w.procs[q].workerId, batch)
    ensures BatchAllowed(Apply(w, a).rows, w.procs[q], batch)
  {
    var rows := Apply(w, a).rows;
    OnlyTouchedChange(w, a);
    forall i | 0 <= i < |batch|
      ensures SnapshotOk(rows, w.procs[q].workerId, batch[i])
    {
      assert SnapshotOk(w.rows, w.procs[q].workerId, batch[i]);
      var id := batch[i].id;
      if id in Touched(w, a) {
        if a.CommitClaim? && id in w.procs[a.p].phase.picked {
          ClaimerIsAnother(w, a, q, id);
        }
        TouchedAreNotHeld(w, a, w.procs[q].workerId, id);
      }
    }
  }

  lemma BeganOk(w: World, p: nat, now: Time)
    requires Inv(w) && Enabled(w, BeginClaim(p, now))
    ensures ProcessOk(w.rows, w.procs[p].(phase := Began(w, p, now)))
    ensures forall id :: id in Locks(Began(w, p, now)) ==> !LockedByOther(w, p, id)
  {
  }

  lemma SelectedOk(w: World, p: nat)
    requires Inv(w) && Enabled(w, SelectClaim(p))
    ensures ProcessOk(w.rows, w.procs[p].(phase := Selected(w, p)))
    ensures forall id :: id in Locks(Selected(w, p)) ==> !LockedByOther(w, p, id)
  {
    var s, phase := w.procs[p].settings, w.procs[p].phase;
    assert ProcessOk(w.rows, w.procs[p]);
    var seen := SeenBy(w, p);
    var eligible := EligibleIds(seen, phase.now, s.topics, LockedIds(w, p));
    TakeFirstIsFirst(seen, eligible, s.batchSize);
    forall id | id in phase.released
      ensures !LockedByOther(w, p, id)
    {
      assert id in Locks(w.procs[p].phase);
    }
  }

  lemma WriterOk(w: World, a: Action)
    requires Inv(w) && Enabled(w, a) && (a.Succeed? || a.Fail?)
    ensures ProcessOk(Apply(w, a).rows, Apply(w, a).procs[a.p])
  {
    var batch := w.procs[a.p].phase.batch;
    assert ProcessOk(w.rows, w.procs[a.p]);
    BatchUndisturbed(w, a, a.p, batch[1..]);
  }

  lemma ActorOk(w: World, a: Action, p: nat)
    requires Inv(w) && Enabled(w, a) && p in w.procs
    requires Apply(w, a).procs[p] != w.procs[p] || (a.CommitClaim? && a.p == p)
    ensures ProcessOk(Apply(w, a).rows, Apply(w, a).procs[p])
  {
    match a
    case BeginClaim(_, now) => BeganOk(w, p, now);
    case SelectClaim(_) => SelectedOk(w, p);
    case CommitClaim(_, _) => ClaimedBatchOk(w, a);
    case Succeed(_, _) => WriterOk(w, a);
    case Fail(_, _, _, _) => WriterOk(w, a);
    case _ =>
  }

  lemma LocksStayDisjoint(w: World, a: Action)
    requires Inv(w) && Enabled(w, a)
    ensures DisjointLocks(Apply(w, a))
  {
    var w' := Apply(w, a);
    if a.BeginClaim? {
      BeganOk(w, a.p, a.now);
    } else if a.SelectClaim? {
      SelectedOk(w, a.p);
    }
    forall p, q, id | p in w'.procs && q in w'.procs
                      && id in Locks(w'.procs[p].phase) && id in Locks(w'.procs[q].phase)
      ensures p == q
    {
    }
  }

  /** Every action keeps the invariant. */
  lemma StepKeepsInv(w: World, a: Action)
    requires Inv(w) && Enabled(w, a)
    ensures Inv(Apply(w, a))
  {
    var w' := Apply(w, a);
    StepTableOk(w, a);
    ProcessesKept(w, a);
    LocksStayDisjoint(w, a);
    forall p | p in w'.procs
      ensures ProcessOk(w'.rows, w'.procs[p])
    {
      if w'.procs[p] != w.procs[p] || (a.CommitClaim? && a.p == p) {
        ActorOk(w, a, p);
      } else {
        BystanderOk(w, a, p);
      }
    }
  }

  lemma {:induction false} RunKeepsInv(w: World, acts: seq<Action>)
    requires Inv(w) && IsRun(w, acts)
    ensures Inv(After(w, acts))
    decreases |acts|
  {
    if acts != [] {
      StepKeepsInv(w, acts[0]);
      RunKeepsInv(Apply(w, acts[0]), acts[1..]);
    }
  }

  // -------------------------------------------------------------------- fencing

  /** Whoever still holds a row sees it exactly as claimed. */
  lemma Fence(w: World, p: nat)
    requires Inv(w) && IsExecuting(w, p) && Matches(w, p)
    ensures w.rows[Snapshot(w, p).id] == Snapshot(w, p)
  {
    assert ProcessOk(w.rows, w.procs[p]);
    assert SnapshotOk(w.rows, w.procs[p].workerId, w.procs[p].phase.batch[0]);
  }

  /**
   Fencing over every run: a success or failure that takes effect acts on the
   very claim its snapshot was taken from, attempt count included, and records
   the outcome there: completed, or waiting as long as the attempts ask, or dead.
   */
  lemma Fencing(w: World, acts: seq<Action>, a: Action)
    requires Init(w) && NoneShare(w) && IsRun(w, acts)
    requires (a.Succeed? || a.Fail?) && Enabled(After(w, acts), a)
    requires Apply(After(w, acts), a).rows != After(w, acts).rows
    ensures var v := After(w, acts);
            var s := Snapshot(v, a.p);
            && s.id in v.rows && v.rows[s.id] == s
            && Apply(v, a).rows[s.id].attempts == s.attempts
            && OutcomeRecorded(s, Apply(v, a).rows[s.id], s, OutcomeOf(a), v.procs[a.p].settings, MomentOf(a))
            && forall id :: id in v.rows && id != s.id ==> Apply(v, a).rows[id] == v.rows[id]
  {
    RunKeepsInv(w, acts);
    Fence(After(w, acts), a.p);
    var v := After(w, acts);
    OutcomeIsRecorded(v.rows[Snapshot(v, a.p).id], Snapshot(v, a.p), OutcomeOf(a), v.procs[a.p].settings, MomentOf(a));
  }

  function OutcomeOf(a: Action): Outcome
    requires a.Succeed? || a.Fail?
  {
    if a.Succeed? then Handled else Raised(a.error)
  }

  /** A completion does not look at the service clock. */
  function MomentOf(a: Action): Moment
    requires a.Succeed? || a.Fail?
  {
    if a.Succeed? then Moment(a.now, a.now) else Moment(a.now, a.clockNow)
  }

  /** In every reachable state the row invariant holds and no key is used twice. */
  lemma ReachableRows(w: World, acts: seq<Action>)
    requires Init(w) && NoneShare(w) && IsRun(w, acts)
    ensures TableOk(After(w, acts).rows)
  {
    RunKeepsInv(w, acts);
  }

  /** Claimers that overlap in time hold disjoint sets, and each set is the first of what was left. */
  lemma ConcurrentClaimsAreDisjoint(w: World, acts: seq<Action>, p: nat, q: nat)
    requires Init(w) && NoneShare(w) && IsRun(w, acts)
    requires var v := After(w, acts);
             p != q && p in v.procs && q in v.procs && v.procs[p].phase.Claiming? && v.procs[q].phase.Claiming?
    ensures var v := After(w, acts);
            v.procs[p].phase.picked * v.procs[q].phase.picked == {}
  {
    RunKeepsInv(w, acts);
    var v := After(w, acts);
    assert Locks(v.procs[p].phase) * Locks(v.procs[q].phase) == {};
  }

  lemma ClaimTakesTheFirst(w: World, p: nat)
    requires Inv(w) && Enabled(w, SelectClaim(p))
    ensures var s, seen := w.procs[p].settings, SeenBy(w, p);
            var due := set id | id in seen && !LockedByOther(w, p, id) && Claimable(seen[id], w.procs[p].phase.now, s.topics);
            && IsFirst(seen, due, s.batchSize, Apply(w, SelectClaim(p)).procs[p].phase.picked)
            && ClaimedInOrder(seen, due, s.batchSize, Apply(w, SelectClaim(p)).procs[p].phase.picked)
  {
    var s, seen := w.procs[p].settings, SeenBy(w, p);
    var eligible := EligibleIds(seen, w.procs[p].phase.now, s.topics, LockedIds(w, p));
    assert eligible == set id | id in seen && !LockedByOther(w, p, id) && Claimable(seen[id], w.procs[p].phase.now, s.topics);
    TakeFirstIsFirst(seen, eligible, s.batchSize);
    FirstInOrder(seen, eligible, s.batchSize, TakeFirst(seen, eligible, s.batchSize));
  }

  /** No claim transaction ever has a dead row locked, so a replay never waits. */
  lemma ReplayNeverWaits(w: World, id: nat, now: Time)
    requires Inv(w)
    ensures Enabled(w, Replay(id, now))
    ensures id in w.rows && w.rows[id].status.Dead? ==> Apply(w, Replay(id, now)).rows == w.rows[id := ReplayedRow(w.rows[id], now)]
    ensures !(id in w.rows && w.rows[id].status.Dead?) ==> Apply(w, Replay(id, now)) == w
  {
    if id in w.rows && w.rows[id].status.Dead? {
      forall q | q in w.procs
        ensures id !in Locks(w.procs[q].phase)
      {
        assert ProcessOk(w.rows, w.procs[q]);
      }
    }
  }

  // ------------------------------------------------------------ lease exclusivity

  /** The action is taken by the worker named, or its transaction's clock has reached `expiry`. */
  predicate MayDisturb(w: World, a: Action, worker: string, expiry: Time) {
    match a
    case CommitClaim(p, _) => p in w.procs && w.procs[p].phase.Claiming? && w.procs[p].phase.now >= expiry
    case Succeed(p, _) => p in w.procs && w.procs[p].workerId == worker
    case Fail(p, _, _, _) => p in w.procs && w.procs[p].workerId == worker
    case _ => false
  }

  /** A claim transaction touches a running row only after its lease has ended on that transaction's clock. */
  lemma RunningRowsAreOnlyReleased(w: World, p: nat, id: nat)
    requires Inv(w) && p in w.procs && w.procs[p].phase.Claiming?
    requires id in w.rows && w.rows[id].status.Running? && id in Locks(w.procs[p].phase)
    ensures w.rows[id].leaseExpiresAt.value <= w.procs[p].phase.now
  {
    assert ProcessOk(w.rows, w.procs[p]);
  }

  /** Until the lease ends, nobody but its owner changes a running row. */
  lemma LeaseIsExclusive(w: World, a: Action, id: nat, worker: string)
    requires Inv(w) && Enabled(w, a)
    requires id in w.rows && HeldBy(w.rows[id], worker)
    requires !MayDisturb(w, a, worker, w.rows[id].leaseExpiresAt.value)
    ensures id in Apply(w, a).rows && Apply(w, a).rows[id] == w.rows[id]
  {
    if a.CommitClaim? {
      assert ProcessOk(w.rows, w.procs[a.p]);
      if id in Locks(w.procs[a.p].phase) {
        RunningRowsAreOnlyReleased(w, a.p, id);
      }
    }
  }

  predicate Undisturbed(w: World, acts: seq<Action>, worker: string, expiry: Time)
    requires IsRun(w, acts)
    decreases |acts|
  {
    acts == [] || (!MayDisturb(w, acts[0], worker, expiry) && Undisturbed(Apply(w, acts[0]), acts[1..], worker, expiry))
  }

  lemma {:induction false} LeaseIsExclusiveOverRuns(w: World, acts: seq<Action>, id: nat, worker: string)
    requires Inv(w) && IsRun(w, acts)
    requires id in w.rows && HeldBy(w.rows[id], worker)
    requires Undisturbed(w, acts, worker, w.rows[id].leaseExpiresAt.value)
    ensures id in After(w, acts).rows && After(w, acts).rows[id] == w.rows[id]
    decreases |acts|
  {
    if acts != [] {
      LeaseIsExclusive(w, acts[0], id, worker);
      StepKeepsInv(w, acts[0]);
      LeaseIsExclusiveOverRuns(Apply(w, acts[0]), acts[1..], id, worker);
    }
  }

  // ------------------------------------------------------- terminal states, rank

  predicate IsReplayOf(a: Action, id: nat) {
    a.Replay? && a.id == id
  }

  lemma ClaimLowersRank(w: World, a: Action, id: nat)
    requires Inv(w) && Enabled(w, a) && a.CommitClaim? && id in Locks(w.procs[a.p].phase)
    ensures id in w.rows && id in Apply(w, a).rows && Rank(Apply(w, a).rows[id]) < Rank(w.rows[id])
  {
    var phase := w.procs[a.p].phase;
    assert ProcessOk(w.rows, w.procs[a.p]);
    RowEffects(w.rows[id], phase.now, "", 0, 0, "");
    var mid := Released(w.rows, phase.released, phase.now);
    assert id in phase.picked ==> mid[id].status.Pending? || mid[id].status.Retry?;
    RowEffects(mid[id], phase.now, w.procs[a.p].workerId, w.procs[a.p].settings.leaseSeconds, 0, "");
  }

  lemma WriteBackLowersRank(w: World, a: Action)
    requires Inv(w) && Enabled(w, a) && (a.Succeed? || a.Fail?) && Matches(w, a.p)
    ensures var id := Snapshot(w, a.p).id;
            id in Apply(w, a).rows && Rank(Apply(w, a).rows[id]) < Rank(w.rows[id])
  {
    Fence(w, a.p);
    RowEffects(Snapshot(w, a.p), a.now, "", 0, 0, "");
  }

  /** Each change of a row other than its replay strictly lowers the row's rank. */
  lemma StepLowersRank(w: World, a: Action, id: nat)
    requires Inv(w) && Enabled(w, a) && id in w.rows && !IsReplayOf(a, id)
    ensures id in Apply(w, a).rows && Apply(w, a).rows[id].maxAttempts == w.rows[id].maxAttempts
    ensures Apply(w, a).rows[id] != w.rows[id] ==> Rank(Apply(w, a).rows[id]) < Rank(w.rows[id])
    ensures Rank(Apply(w, a).rows[id]) >= 0
  {
    OnlyTouchedChange(w, a);
    AttemptsStep(w, a, id);
    StepTableOk(w, a);
    assert RowOk(Apply(w, a).rows[id]);
    if id in Touched(w, a) {
      if a.CommitClaim? {
        ClaimLowersRank(w, a, id);
      } else if a.Succeed? || a.Fail? {
        WriteBackLowersRank(w, a);
      }
    }
  }

  /** A completed row never changes; a dead one changes only by replay. */
  lemma {:induction false} TerminalRows(w: World, acts: seq<Action>, id: nat)
    requires Inv(w) && IsRun(w, acts) && id in w.rows
    requires w.rows[id].status.Completed?
             || (w.rows[id].status.Dead? && forall k :: 0 <= k < |acts| ==> !IsReplayOf(acts[k], id))
    ensures id in After(w, acts).rows && After(w, acts).rows[id] == w.rows[id]
    decreases |acts|
  {
    if acts != [] {
      if IsReplayOf(acts[0], id) {
        OnlyTouchedChange(w, acts[0]);
      } else {
        StepLowersRank(w, acts[0], id);
        assert Rank(w.rows[id]) == 0;
      }
      StepKeepsInv(w, acts[0]);
      TerminalRows(Apply(w, acts[0]), acts[1..], id);
    }
  }

  predicate NoReplay(acts: seq<Action>, id: nat) {
    forall k :: 0 <= k < |acts| ==> !IsReplayOf(acts[k], id)
  }

  /** How many actions of the run changed the row. */
  function Changes(w: World, acts: seq<Action>, id: nat): nat
    requires IsRun(w, acts) && id in w.rows
    decreases |acts|
  {
    if acts == [] then 0
    else
      var w' := Apply(w, acts[0]);
      OnlyTouchedChange(w, acts[0]);
      (if w'.rows[id] != w.rows[id] then 1 else 0) + Changes(w', acts[1..], id)
  }

  /** Without replay a row changes at most 2 * max_attempts times, whatever the workers do. */
  lemma {:induction false} ChangesAreBounded(w: World, acts: seq<Action>, id: nat)
    requires Inv(w) && IsRun(w, acts) && id in w.rows && NoReplay(acts, id)
    ensures Changes(w, acts, id) <= Rank(w.rows[id]) <= 2 * w.rows[id].maxAttempts
    decreases |acts|
  {
    RowEffects(w.rows[id], 0, "", 0, 0, "");
    if acts != [] {
      StepLowersRank(w, acts[0], id);
      StepKeepsInv(w, acts[0]);
      ChangesAreBounded(Apply(w, acts[0]), acts[1..], id);
    }
  }

  // ------------------------------------------------------------- handler starts

  /** The action ends an execution of the job's handler, by result or by crash. */
  predicate RunsHandler(w: World, a: Action, id: nat) {
    && (a.Succeed? || a.Fail? || a.Crash?)
    && IsExecuting(w, a.p) && Snapshot(w, a.p).id == id
  }

  function HandlerRuns(w: World, acts: seq<Action>, id: nat): nat
    requires IsRun(w, acts)
    decreases |acts|
  {
    if acts == [] then 0
    else (if RunsHandler(w, acts[0], id) then 1 else 0) + HandlerRuns(Apply(w, acts[0]), acts[1..], id)
  }

  /** Processes whose remaining batch still contains the job. */
  function Holders(w: World, id: nat): set<nat> {
    set p | p in w.procs && w.procs[p].phase.Working? && id in IdsOf(w.procs[p].phase.batch)
  }

  /** Attempts not yet used, plus those claimed but not yet executed. */
  function Budget(w: World, id: nat): int
    requires id in w.rows
  {
    w.rows[id].maxAttempts - w.rows[id].attempts + |Holders(w, id)|
  }

  lemma HeadIsNotInTail(batch: seq<Job>)
    requires batch != []
    requires forall i, j :: 0 <= i < j < |batch| ==> batch[i].id != batch[j].id
    ensures IdsOf(batch[1..]) <= IdsOf(batch)
    ensures batch[0].id in IdsOf(batch) && batch[0].id !in IdsOf(batch[1..])
  {
    forall id | id in IdsOf(batch[1..])
      ensures id in IdsOf(batch) && id != batch[0].id
    {
      var i :| 0 <= i < |batch[1..]| && batch[1..][i].id == id;
      assert batch[i + 1].id == id;
    }
  }

  /** How one action changes the set of holders. */
  lemma HoldersStep(w: World, a: Action, id: nat)
    requires Inv(w) && Enabled(w, a)
    ensures !a.CommitClaim? ==> Holders(Apply(w, a), id) <= Holders(w, id)
    ensures RunsHandler(w, a, id) ==> a.p in Holders(w, id) && a.p !in Holders(Apply(w, a), id)
    ensures a.CommitClaim? ==>
              Holders(Apply(w, a), id)
                == Holders(w, id) + (if id in w.procs[a.p].phase.picked then {a.p} else {})
  {
    if (a.Succeed? || a.Fail? || a.Crash?) && IsExecuting(w, a.p) {
      assert ProcessOk(w.rows, w.procs[a.p]);
      HeadIsNotInTail(w.procs[a.p].phase.batch);
    }
    if a.CommitClaim? {
      assert IdsOf(a.batch) == w.procs[a.p].phase.picked;
    }
  }

  lemma AttemptsStep(w: World, a: Action, id: nat)
    requires Inv(w) && Enabled(w, a) && id in w.rows && !IsReplayOf(a, id)
    ensures id in Apply(w, a).rows && Apply(w, a).rows[id].maxAttempts == w.rows[id].maxAttempts
    ensures Apply(w, a).rows[id].attempts
            == w.rows[id].attempts + (if a.CommitClaim? && id in w.procs[a.p].phase.picked then 1 else 0)
  {
    OnlyTouchedChange(w, a);
    if a.CommitClaim? {
      assert ProcessOk(w.rows, w.procs[a.p]);
    }
  }

  /** A handler run uses up budget, and nothing but a replay adds any. */
  lemma BudgetStep(w: World, a: Action, id: nat)
    requires Inv(w) && Enabled(w, a) && id in w.rows && !IsReplayOf(a, id)
    ensures id in Apply(w, a).rows
    ensures Budget(Apply(w, a), id) + (if RunsHandler(w, a, id) then 1 else 0) <= Budget(w, id)
  {
    AttemptsStep(w, a, id);
    HoldersStep(w, a, id);
    if !a.CommitClaim? {
      SubsetSize(Holders(Apply(w, a), id), Holders(w, id));
    } else {
      assert a.p !in Holders(w, id);
    }
  }

  lemma {:induction false} BudgetOverRuns(w: World, acts: seq<Action>, id: nat)
    requires Inv(w) && IsRun(w, acts) && id in w.rows && NoReplay(acts, id)
    ensures id in After(w, acts).rows
    ensures HandlerRuns(w, acts, id) + Budget(After(w, acts), id) <= Budget(w, id)
    decreases |acts|
  {
    if acts != [] {
      BudgetStep(w, acts[0], id);
      StepKeepsInv(w, acts[0]);
      BudgetOverRuns(Apply(w, acts[0]), acts[1..], id);
    }
  }

  /** The action makes the job some process's current one: its handler starts. */
  predicate StartsHandler(w: World, a: Action, id: nat)
    requires Enabled(w, a)
  {
    && (a.CommitClaim? || a.Succeed? || a.Fail?)
    && IsExecuting(Apply(w, a), a.p) && Snapshot(Apply(w, a), a.p).id == id
  }

  function HandlerStarts(w: World, acts: seq<Action>, id: nat): nat
    requires IsRun(w, acts)
    decreases |acts|
  {
    if acts == [] then 0
    else (if StartsHandler(w, acts[0], id) then 1 else 0) + HandlerStarts(Apply(w, acts[0]), acts[1..], id)
  }

  /** Processes that are executing the job right now. */
  function Executors(w: World, id: nat): set<nat> {
    set p | p in w.procs && IsExecuting(w, p) && Snapshot(w, p).id == id
  }

  predicate ActsFor(a: Action, p: nat) {
    (a.BeginClaim? || a.SelectClaim? || a.CommitClaim? || a.Succeed? || a.Fail? || a.Crash?) && a.p == p
  }

  lemma BystanderExecutes(w: World, a: Action, p: nat, id: nat)
    requires Enabled(w, a) && !ActsFor(a, p)
    ensures p in Executors(Apply(w, a), id) <==> p in Executors(w, id)
  {
    assert p in w.procs ==> Apply(w, a).procs[p] == w.procs[p];
  }

  lemma ActorExecutes(w: World, a: Action, p: nat, id: nat)
    requires Enabled(w, a) && ActsFor(a, p)
    ensures p in Executors(w, id) <==> RunsHandler(w, a, id)
    ensures p in Executors(Apply(w, a), id) <==> StartsHandler(w, a, id)
  {
  }

  lemma ExecutorsStep(w: World, a: Action, id: nat)
    requires Inv(w) && Enabled(w, a)
    ensures |Executors(Apply(w, a), id)| + (if RunsHandler(w, a, id) then 1 else 0)
            == |Executors(w, id)| + (if StartsHandler(w, a, id) then 1 else 0)
  {
    forall q | !ActsFor(a, q)
      ensures q in Executors(Apply(w, a), id) <==> q in Executors(w, id)
    {
      BystanderExecutes(w, a, q, id);
    }
    if a.Enqueue? || a.Replay? {
      assert Executors(Apply(w, a), id) == Executors(w, id);
    } else {
      ActorExecutes(w, a, a.p, id);
      if RunsHandler(w, a, id) {
        NextIsAnother(w, a, id);
      }
      OneChanges(Executors(w, id), Executors(Apply(w, a), id), a.p);
    }
  }

  lemma OneChanges(before: set<nat>, after: set<nat>, p: nat)
    requires forall q :: q != p ==> (q in after <==> q in before)
    ensures |after| + (if p in before then 1 else 0) == |before| + (if p in after then 1 else 0)
  {
    assert after - {p} == before - {p};
    assert |after - {p}| == |after| - (if p in after then 1 else 0);
    assert |before - {p}| == |before| - (if p in before then 1 else 0);
  }

  lemma NextIsAnother(w: World, a: Action, id: nat)
    requires Inv(w) && Enabled(w, a) && RunsHandler(w, a, id)
    ensures !StartsHandler(w, a, id) && a.p !in Executors(Apply(w, a), id)
  {
    var batch := w.procs[a.p].phase.batch;
    assert ProcessOk(w.rows, w.procs[a.p]);
    assert |batch| > 1 ==> batch[1..][0] == batch[1] && batch[1].id != batch[0].id;
  }

  /** Every start is either still in progress or has ended. */
  lemma {:induction false} StartsBalance(w: World, acts: seq<Action>, id: nat)
    requires Inv(w) && IsRun(w, acts)
    ensures HandlerStarts(w, acts, id) + |Executors(w, id)| == HandlerRuns(w, acts, id) + |Executors(After(w, acts), id)|
    decreases |acts|
  {
    if acts != [] {
      ExecutorsStep(w, acts[0], id);
      StepKeepsInv(w, acts[0]);
      StartsBalance(Apply(w, acts[0]), acts[1..], id);
    }
  }

  lemma ExecutorsWithinBudget(w: World, id: nat)
    requires Inv(w) && id in w.rows
    ensures |Executors(w, id)| <= Budget(w, id)
  {
    forall p | p in Executors(w, id)
      ensures p in Holders(w, id)
    {
      assert ProcessOk(w.rows, w.procs[p]);
      HeadIsNotInTail(w.procs[p].phase.batch);
    }
    SubsetSize(Executors(w, id), Holders(w, id));
    assert RowOk(w.rows[id]);
  }

  lemma HolderHasRow(w: World, p: nat, id: nat)
    requires Inv(w) && p in Holders(w, id)
    ensures id in w.rows
  {
    var batch := w.procs[p].phase.batch;
    assert ProcessOk(w.rows, w.procs[p]);
    var i :| 0 <= i < |batch| && batch[i].id == id;
    assert SnapshotOk(w.rows, w.procs[p].workerId, batch[i]);
  }

  /** From its enqueueing on, and until an operator replays it, a job's handler starts at most max_attempts times. */
  lemma HandlerStartsAreBounded(w: World, id: nat, command: Command, now: Time, acts: seq<Action>)
    requires Inv(w) && Enabled(w, Enqueue(id, command, now)) && !KeyTaken(w.rows, command.key)
    requires IsRun(Apply(w, Enqueue(id, command, now)), acts) && NoReplay(acts, id)
    ensures HandlerStarts(Apply(w, Enqueue(id, command, now)), acts, id) <= command.maxAttempts
  {
    var a := Enqueue(id, command, now);
    var v := Apply(w, a);
    StepKeepsInv(w, a);
    if Holders(w, id) != {} {
      var p :| p in Holders(w, id);
      HolderHasRow(w, p, id);
    }
    assert Holders(v, id) == {};
    BudgetOverRuns(v, acts, id);
    StartsBalance(v, acts, id);
    RunKeepsInv(v, acts);
    ExecutorsWithinBudget(After(v, acts), id);
  }
}
