/**
 Exactly when the fence of the job table holds: in every run no write-back acts
 on another claim than its own, if and only if no two processes that could
 claim the same job share a worker id.
 */
module SharedWorkerIds {
  import opened Wrappers
  import opened OutboxJobs
  import opened JobCommands
  import opened WorkerRuns

  /** A write-back that takes effect after the run finds the row exactly as its own claim left it. */
  predicate FencedAt(w: World, acts: seq<Action>, a: Action)
    requires IsRun(w, acts)
  {
    var v := After(w, acts);
    (a.Succeed? || a.Fail?) && Enabled(v, a) && Matches(v, a.p) ==> v.rows[Snapshot(v, a.p).id] == Snapshot(v, a.p)
  }

  ghost predicate Fenced(w: World) {
    forall acts, a :: IsRun(w, acts) ==> FencedAt(w, acts, a)
  }

  // ------------------------------------------------- the run that breaks the fence

  /** Job 1 of the topic, as its producer leaves it. */
  function Fresh(topic: string): Job {
    NewJob(1, Command(topic, "", "k", None, 3), 0)
  }

  function FirstClaim(topic: string, worker: string, lease: nat): Job {
    ClaimedRow(Fresh(topic), worker, 0, lease)
  }

  /** The same worker id claims again at the moment the first lease ends. */
  function SecondClaim(topic: string, worker: string, lease: nat, again: nat): Job {
    ClaimedRow(ReleasedRow(FirstClaim(topic, worker, lease), lease * SECOND), worker, lease * SECOND, again)
  }

  /** The world with one row and given phases of two processes. */
  function With(w: World, row: Job, p: nat, zero: Phase, q: nat, one: Phase): World
    requires p in w.procs && q in w.procs
  {
    World(map[1 := row], w.procs[p := w.procs[p].(phase := zero)][q := w.procs[q].(phase := one)])
  }

  predicate Idle(w: World, p: nat, q: nat, topic: string) {
    Init(w) && SharesAt(w, p, q, topic)
  }

  lemma TakesTheOnlyRow(t: Table, limit: nat)
    requires t.Keys == {1} && limit >= 1
    ensures TakeFirst(t, {1}, limit) == {1}
  {
    assert Earliest(t, {1}) in {1};
    assert {1} - {1} == {};
    assert TakeFirst(t, {}, limit - 1) == {};
  }

  lemma Enqueued(w: World, p: nat, q: nat, topic: string)
    requires Idle(w, p, q, topic)
    ensures var a := Enqueue(1, Command(topic, "", "k", None, 3), 0);
            Enabled(w, a) && Apply(w, a) == With(w, Fresh(topic), p, Working([]), q, Working([]))
  {
    assert w.procs[p := w.procs[p].(phase := Working([]))][q := w.procs[q].(phase := Working([]))] == w.procs;
  }

  lemma OthersHoldNoLocks(w: World, p: nat, q: nat, topic: string, v: World, x: nat)
    requires Idle(w, p, q, topic) && v.procs.Keys == w.procs.Keys
    requires forall r :: r in w.procs && r != x ==> v.procs[r].phase.Working?
    ensures forall id :: !LockedByOther(v, x, id)
  {
  }

  lemma FirstBegins(w: World, p: nat, q: nat, topic: string, v: World)
    requires Idle(w, p, q, topic) && v == With(w, Fresh(topic), p, Working([]), q, Working([]))
    ensures Enabled(v, BeginClaim(p, 0))
    ensures Apply(v, BeginClaim(p, 0)) == With(w, Fresh(topic), p, Releasing(0, {}), q, Working([]))
  {
    assert ExpiredIds(v.rows, 0, v.procs[p].settings.topics) == {};
    assert Apply(v, BeginClaim(p, 0)).procs == With(w, Fresh(topic), p, Releasing(0, {}), q, Working([])).procs;
  }

  lemma FirstSelects(w: World, p: nat, q: nat, topic: string, v: World)
    requires Idle(w, p, q, topic) && v == With(w, Fresh(topic), p, Releasing(0, {}), q, Working([]))
    ensures Enabled(v, SelectClaim(p))
    ensures Apply(v, SelectClaim(p)) == With(w, Fresh(topic), p, Claiming(0, {}, {1}), q, Working([]))
  {
    var s := v.procs[p].settings;
    assert SeenBy(v, p) == v.rows;
    OthersHoldNoLocks(w, p, q, topic, v, p);
    assert LockedIds(v, p) == {};
    assert EligibleIds(v.rows, 0, s.topics, {}) == {1};
    TakesTheOnlyRow(v.rows, s.batchSize);
    assert Apply(v, SelectClaim(p)).procs == With(w, Fresh(topic), p, Claiming(0, {}, {1}), q, Working([])).procs;
  }

  lemma OneRecord(job: Job, t: Table)
    requires t == map[1 := job] && job.id == 1
    ensures AreRowsOf([job], t, {1})
  {
    assert [job][0].id == 1;
    assert IdsOf([job]) == {1};
  }

  lemma FirstCommits(w: World, p: nat, q: nat, topic: string, v: World)
    requires Idle(w, p, q, topic) && v == With(w, Fresh(topic), p, Claiming(0, {}, {1}), q, Working([]))
    ensures var proc := w.procs[p];
            var first := FirstClaim(topic, proc.workerId, proc.settings.leaseSeconds);
            && Enabled(v, CommitClaim(p, [first]))
            && Apply(v, CommitClaim(p, [first])) == With(w, first, p, Working([first]), q, Working([]))
  {
    var proc := w.procs[p];
    var first := FirstClaim(topic, proc.workerId, proc.settings.leaseSeconds);
    assert AfterClaim(v, p) == map[1 := first];
    OneRecord(first, map[1 := first]);
    assert Apply(v, CommitClaim(p, [first])).procs == With(w, first, p, Working([first]), q, Working([])).procs;
  }

  lemma SecondBegins(w: World, p: nat, q: nat, topic: string, v: World, first: Job)
    requires Idle(w, p, q, topic) && first == FirstClaim(topic, w.procs[p].workerId, w.procs[p].settings.leaseSeconds)
    requires v == With(w, first, p, Working([first]), q, Working([]))
    ensures var late := w.procs[p].settings.leaseSeconds * SECOND;
            && Enabled(v, BeginClaim(q, late))
            && Apply(v, BeginClaim(q, late)) == With(w, first, p, Working([first]), q, Releasing(late, {1}))
  {
    var late := w.procs[p].settings.leaseSeconds * SECOND;
    assert ExpiredIds(v.rows, late, v.procs[q].settings.topics) == {1};
    OthersHoldNoLocks(w, p, q, topic, v, q);
    assert Apply(v, BeginClaim(q, late)).procs == With(w, first, p, Working([first]), q, Releasing(late, {1})).procs;
  }

  lemma SecondSelects(w: World, p: nat, q: nat, topic: string, v: World, first: Job, late: Time)
    requires Idle(w, p, q, topic) && first == FirstClaim(topic, w.procs[p].workerId, w.procs[p].settings.leaseSeconds)
    requires late == w.procs[p].settings.leaseSeconds * SECOND
    requires v == With(w, first, p, Working([first]), q, Releasing(late, {1}))
    ensures Enabled(v, SelectClaim(q))
    ensures Apply(v, SelectClaim(q)) == With(w, first, p, Working([first]), q, Claiming(late, {1}, {1}))
  {
    var s := v.procs[q].settings;
    var seen := SeenBy(v, q);
    assert seen == map[1 := ReleasedRow(first, late)];
    OthersHoldNoLocks(w, p, q, topic, v, q);
    assert LockedIds(v, q) == {};
    assert EligibleIds(seen, late, s.topics, {}) == {1};
    TakesTheOnlyRow(seen, s.batchSize);
    assert Apply(v, SelectClaim(q)).procs == With(w, first, p, Working([first]), q, Claiming(late, {1}, {1})).procs;
  }

  lemma SecondCommits(w: World, p: nat, q: nat, topic: string, v: World, first: Job, late: Time)
    requires Idle(w, p, q, topic) && first == FirstClaim(topic, w.procs[p].workerId, w.procs[p].settings.leaseSeconds)
    requires late == w.procs[p].settings.leaseSeconds * SECOND
    requires v == With(w, first, p, Working([first]), q, Claiming(late, {1}, {1}))
    ensures var second := SecondClaim(topic, w.procs[p].workerId, w.procs[p].settings.leaseSeconds, w.procs[q].settings.leaseSeconds);
            && Enabled(v, CommitClaim(q, [second]))
            && Apply(v, CommitClaim(q, [second])) == With(w, second, p, Working([first]), q, Working([second]))
  {
    var second := SecondClaim(topic, w.procs[p].workerId, w.procs[p].settings.leaseSeconds, w.procs[q].settings.leaseSeconds);
    assert AfterClaim(v, q) == map[1 := second];
    OneRecord(second, map[1 := second]);
    assert Apply(v, CommitClaim(q, [second])).procs == With(w, second, p, Working([first]), q, Working([second])).procs;
  }

  lemma RunCons(w: World, a: Action, acts: seq<Action>)
    requires Enabled(w, a) && IsRun(Apply(w, a), acts)
    ensures IsRun(w, [a] + acts) && After(w, [a] + acts) == After(Apply(w, a), acts)
  {
    assert ([a] + acts)[1..] == acts;
  }

  /** Two claims of one job under one worker id, from any idle world in which two processes share it. */
  lemma TwoClaims(w: World, p: nat, q: nat, topic: string) returns (acts: seq<Action>)
    requires Idle(w, p, q, topic)
    ensures IsRun(w, acts)
    ensures var first := FirstClaim(topic, w.procs[p].workerId, w.procs[p].settings.leaseSeconds);
            var second := SecondClaim(topic, w.procs[p].workerId, w.procs[p].settings.leaseSeconds, w.procs[q].settings.leaseSeconds);
            After(w, acts) == With(w, second, p, Working([first]), q, Working([second]))
  {
    var worker, lease := w.procs[p].workerId, w.procs[p].settings.leaseSeconds;
    var late := lease * SECOND;
    var first := FirstClaim(topic, worker, lease);
    var second := SecondClaim(topic, worker, lease, w.procs[q].settings.leaseSeconds);
    var v6 := With(w, first, p, Working([first]), q, Claiming(late, {1}, {1}));
    SecondCommits(w, p, q, topic, v6, first, late);
    acts := [];
    RunCons(v6, CommitClaim(q, [second]), acts);
    acts := [CommitClaim(q, [second])] + acts;
    var v5 := With(w, first, p, Working([first]), q, Releasing(late, {1}));
    SecondSelects(w, p, q, topic, v5, first, late);
    RunCons(v5, SelectClaim(q), acts);
    acts := [SelectClaim(q)] + acts;
    var v4 := With(w, first, p, Working([first]), q, Working([]));
    SecondBegins(w, p, q, topic, v4, first);
    RunCons(v4, BeginClaim(q, late), acts);
    acts := [BeginClaim(q, late)] + acts;
    acts := FirstClaimRun(w, p, q, topic, acts);
  }

  lemma FirstClaimRun(w: World, p: nat, q: nat, topic: string, later: seq<Action>) returns (acts: seq<Action>)
    requires Idle(w, p, q, topic)
    requires var first := FirstClaim(topic, w.procs[p].workerId, w.procs[p].settings.leaseSeconds);
             IsRun(With(w, first, p, Working([first]), q, Working([])), later)
    ensures IsRun(w, acts)
    ensures var first := FirstClaim(topic, w.procs[p].workerId, w.procs[p].settings.leaseSeconds);
            After(w, acts) == After(With(w, first, p, Working([first]), q, Working([])), later)
  {
    var first := FirstClaim(topic, w.procs[p].workerId, w.procs[p].settings.leaseSeconds);
    var v3 := With(w, Fresh(topic), p, Claiming(0, {}, {1}), q, Working([]));
    FirstCommits(w, p, q, topic, v3);
    RunCons(v3, CommitClaim(p, [first]), later);
    acts := [CommitClaim(p, [first])] + later;
    var v2 := With(w, Fresh(topic), p, Releasing(0, {}), q, Working([]));
    FirstSelects(w, p, q, topic, v2);
    RunCons(v2, SelectClaim(p), acts);
    acts := [SelectClaim(p)] + acts;
    var v1 := With(w, Fresh(topic), p, Working([]), q, Working([]));
    FirstBegins(w, p, q, topic, v1);
    RunCons(v1, BeginClaim(p, 0), acts);
    acts := [BeginClaim(p, 0)] + acts;
    Enqueued(w, p, q, topic);
    RunCons(w, Enqueue(1, Command(topic, "", "k", None, 3), 0), acts);
    acts := [Enqueue(1, Command(topic, "", "k", None, 3), 0)] + acts;
  }

  /**
   Whatever the settings: when two processes share a worker id and could claim
   the same job, there is a run after which the first one's write-back, taken
   from attempt 1, completes the second one's attempt 2.
   */
  lemma SharedIdBreaksFence(w: World, p: nat, q: nat, topic: string) returns (acts: seq<Action>, a: Action)
    requires Init(w) && SharesAt(w, p, q, topic)
    ensures IsRun(w, acts) && a.Succeed? && a.p == p && Enabled(After(w, acts), a) && Matches(After(w, acts), p)
    ensures var v := After(w, acts);
            var id := Snapshot(v, p).id;
            && Snapshot(v, p).attempts == 1 && v.rows[id].attempts == 2
            && Apply(v, a).rows[id].status.Completed?
    ensures !FencedAt(w, acts, a)
  {
    acts := TwoClaims(w, p, q, topic);
    a := Succeed(p, w.procs[p].settings.leaseSeconds * SECOND);
    var v := After(w, acts);
    assert forall r :: r in v.procs ==> v.procs[r].phase.Working?;
  }

  /** Over all runs from an idle world, the fence holds if and only if no two processes that could claim the same job share a worker id. */
  lemma FenceExactly(w: World)
    requires Init(w)
    ensures Fenced(w) <==> NoneShare(w)
  {
    if NoneShare(w) {
      forall acts, a | IsRun(w, acts)
        ensures FencedAt(w, acts, a)
      {
        RunKeepsInv(w, acts);
        var v := After(w, acts);
        if (a.Succeed? || a.Fail?) && Enabled(v, a) && Matches(v, a.p) {
          Fence(v, a.p);
        }
      }
    } else {
      var p, q, topic: string :| SharesAt(w, p, q, topic);
      var acts, a := SharedIdBreaksFence(w, p, q, topic);
    }
  }

  /** Concrete: one worker id configured for two processes with the default settings. */
  lemma TwoProcessesOneId()
    ensures var proc := Process("worker", Settings(25, 300, 15, 3600, {}), Working([]));
            var w := World(map[], map[0 := proc, 1 := proc]);
            Init(w) && SharesAt(w, 0, 1, "curriculum") && !Fenced(w)
  {
    var proc := Process("worker", Settings(25, 300, 15, 3600, {}), Working([]));
    var w := World(map[], map[0 := proc, 1 := proc]);
    assert SharesAt(w, 0, 1, "curriculum");
    FenceExactly(w);
  }
}
