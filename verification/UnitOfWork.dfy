/**
 One unit of work: a connection, a transaction, and the flags that decide which
 calls are refused.  The lifecycle is a pure step function over the object's
 observable state; the class below performs the same steps on mutable fields.
 */
module Lifecycle {
  import opened Wrappers

  /** A write of the transaction: a business statement or a job row. */
  datatype Entry = Business(text: string) | JobRow(key: string)

  datatype Config = Config(readOnly: bool, hasEnqueuer: bool)

  /**
   `fails` is the database's answer: the statement itself raises.  `guardFails`
   says so of the statement that makes a read-only transaction read-only.
   */
  datatype Call =
    | Enter(fails: bool, guardFails: bool)
    | Execute(entry: Entry, fails: bool)
    | Enqueue(key: string, fails: bool)
    | Commit(fails: bool)
    | Rollback(fails: bool)
    | Exit(fails: bool)

  datatype Error =
    | Reentered | NotEntered | ReadOnlyCommit | ReadOnlyEnqueue | ReadOnlyWrite
    | AlreadyComplete | NoEnqueuer | DatabaseError

  /**
   `published` is what this unit of work has made visible to others; `guarded`
   holds while the current transaction is read-only, `aborted` after one of its
   statements failed.
   */
  datatype State = State(
    hasEntered: bool,
    connected: bool,
    isComplete: bool,
    guarded: bool,
    aborted: bool,
    pending: seq<Entry>,
    published: seq<Entry>,
    commits: nat,
    rollbacks: nat)

  const FRESH: State := State(false, false, false, false, false, [], [], 0, 0)

  /** A statement that fails aborts the transaction: its writes are lost, and it refuses any further statement. */
  function Write(s: State, entry: Entry, fails: bool): (State, Option<Error>) {
    if !s.connected then (s, Some(NotEntered))
    else if s.aborted then (s, Some(DatabaseError))
    else if s.guarded then (s.(pending := [], aborted := true), Some(ReadOnlyWrite))
    else if fails then (s.(pending := [], aborted := true), Some(DatabaseError))
    else (s.(pending := s.pending + [entry]), None)
  }

  /** Committing an aborted transaction raises nothing and publishes nothing. */
  function Step(c: Config, s: State, call: Call): (State, Option<Error>) {
    match call
    case Enter(fails, guardFails) =>
      if s.hasEntered then (s, Some(Reentered))
      else if fails then (s.(hasEntered := true), Some(DatabaseError))
      else
        var entered := s.(hasEntered := true, connected := true, pending := []);
        if c.readOnly && guardFails then (entered.(aborted := true), Some(DatabaseError))
        else (entered.(guarded := c.readOnly), None)
    case Execute(entry, fails) => Write(s, entry, fails)
    case Enqueue(key, fails) =>
      if c.readOnly then (s, Some(ReadOnlyEnqueue))
      else if !c.hasEnqueuer then (s, Some(NoEnqueuer))
      else Write(s, JobRow(key), fails)
    case Commit(fails) =>
      if c.readOnly then (s, Some(ReadOnlyCommit))
      else if s.isComplete then (s, Some(AlreadyComplete))
      else if !s.connected then (s, Some(NotEntered))
      else if fails then (s.(pending := [], aborted := false), Some(DatabaseError))
      else (s.(published := s.published + s.pending, pending := [], aborted := false, isComplete := true,
               commits := s.commits + 1), None)
    case Rollback(fails) =>
      if s.isComplete then (s, Some(AlreadyComplete))
      else if !s.connected then (s, Some(NotEntered))
      else if fails then (s, Some(DatabaseError))
      else (s.(pending := [], guarded := false, aborted := false, isComplete := true, rollbacks := s.rollbacks + 1), None)
    case Exit(fails) =>
      var closed := s.(connected := false, guarded := false, aborted := false, pending := []);
      if !s.connected then (s, None)
      else if s.isComplete then (closed, None)
      else if fails then (closed, Some(DatabaseError))
      else (closed.(isComplete := true, rollbacks := s.rollbacks + 1), None)
  }

  function Run(c: Config, s: State, calls: seq<Call>): State
    decreases |calls|
  {
    if calls == [] then s else Run(c, Step(c, s, calls[0]).0, calls[1..])
  }

  predicate Consistent(s: State) {
    && s.commits + s.rollbacks <= 1
    && (s.isComplete <==> s.commits + s.rollbacks == 1)
    && (s.commits == 0 ==> s.published == [])
    && (s.connected ==> s.hasEntered)
    && (!s.hasEntered ==> !s.isComplete)
    && (s.aborted ==> s.pending == [])
  }

  /** In any order of calls whatsoever, at most one commit or rollback takes effect. */
  lemma {:induction false} EndsAtMostOnce(c: Config, s: State, calls: seq<Call>)
    requires Consistent(s)
    ensures Consistent(Run(c, s, calls))
    decreases |calls|
  {
    if calls != [] {
      EndsAtMostOnce(c, Step(c, s, calls[0]).0, calls[1..]);
    }
  }

  /** Once a transaction has ended, nothing any later call does becomes visible. */
  lemma {:induction false} NothingAfterTheEnd(c: Config, s: State, calls: seq<Call>)
    requires Consistent(s) && s.isComplete
    ensures Run(c, s, calls).published == s.published
    ensures Run(c, s, calls).commits == s.commits
    ensures Run(c, s, calls).isComplete
    decreases |calls|
  {
    if calls != [] {
      NothingAfterTheEnd(c, Step(c, s, calls[0]).0, calls[1..]);
    }
  }

  lemma {:induction false} ReadOnlyPublishesNothing(c: Config, s: State, calls: seq<Call>)
    requires c.readOnly && Consistent(s) && s.commits == 0
    ensures Run(c, s, calls).published == [] && Run(c, s, calls).commits == 0
    decreases |calls|
  {
    if calls != [] {
      ReadOnlyPublishesNothing(c, Step(c, s, calls[0]).0, calls[1..]);
    }
  }

  lemma {:induction false} RunAppend(c: Config, s: State, a: seq<Call>, b: seq<Call>)
    ensures Run(c, s, a + b) == Run(c, Run(c, s, a), b)
    decreases |a|
  {
    if a == [] {
      assert a + b == b;
    } else {
      assert (a + b)[1..] == a[1..] + b;
      RunAppend(c, Step(c, s, a[0]).0, a[1..], b);
    }
  }

  // ---------------------------------------------------- refusals and effects

  predicate IsStatement(call: Call) {
    call.Execute? || call.Enqueue?
  }

  predicate IsEnd(call: Call) {
    call.Commit? || call.Rollback?
  }

  /** What stands against a call, whichever check comes first. */
  predicate Cause(c: Config, s: State, call: Call, e: Error) {
    match e
    case Reentered => call.Enter? && s.hasEntered
    case NotEntered => (IsStatement(call) || IsEnd(call)) && !s.connected
    case ReadOnlyCommit => call.Commit? && c.readOnly
    case ReadOnlyEnqueue => call.Enqueue? && c.readOnly
    case ReadOnlyWrite => IsStatement(call) && s.guarded
    case AlreadyComplete => IsEnd(call) && s.isComplete
    case NoEnqueuer => call.Enqueue? && !c.hasEnqueuer
    case DatabaseError =>
      || (IsStatement(call) && s.aborted)
      || (call.Exit? && call.fails && s.connected && !s.isComplete)
      || (!call.Exit? && call.fails)
      || (call.Enter? && c.readOnly && call.guardFails)
  }

  /** A call is refused exactly when some cause stands against it, and the error that it raises is such a cause. */
  lemma RefusedExactly(c: Config, s: State, call: Call, e: Error)
    requires Consistent(s) && (s.guarded || s.aborted ==> s.connected)
    ensures Step(c, s, call).1.Some? ==> Cause(c, s, call, Step(c, s, call).1.value)
    ensures Cause(c, s, call, e) ==> Step(c, s, call).1.Some?
  {
  }

  /** The entry that a statement adds. */
  function EntryOf(call: Call): Entry
    requires IsStatement(call)
  {
    match call
    case Execute(entry, _) => entry
    case Enqueue(key, _) => JobRow(key)
  }

  /** A statement that reaches the database and is refused there. */
  predicate Breaks(c: Config, s: State, call: Call) {
    && IsStatement(call) && s.connected && !s.aborted && (call.Enqueue? ==> !c.readOnly && c.hasEnqueuer)
    && (s.guarded || call.fails)
  }

  /** The call that ends the transaction: an accepted commit or rollback, or leaving with the transaction open. */
  predicate Ends(c: Config, s: State, call: Call) {
    (IsEnd(call) || (call.Exit? && s.connected && !s.isComplete)) && Step(c, s, call).1.None?
  }

  /**
   What a call does: an accepted statement adds its entry to what waits, a
   commit alone makes what waits visible, a statement that the database refuses
   and every end lose it; only entering connects and only leaving disconnects.
   */
  lemma CallEffect(c: Config, s: State, call: Call)
    requires Consistent(s) && (s.guarded || s.aborted || s.pending != [] ==> s.connected)
    ensures var after, accepted := Step(c, s, call).0, Step(c, s, call).1.None?;
            && after.published == (if call.Commit? && accepted then s.published + s.pending else s.published)
            && (IsStatement(call) ==> after.pending == if accepted then s.pending + [EntryOf(call)] else if Breaks(c, s, call) then [] else s.pending)
            && (Ends(c, s, call) || call.Exit? ==> after.pending == [])
            && (after.hasEntered <==> s.hasEntered || call.Enter?)
            && (after.connected <==> if call.Enter? && !s.hasEntered then !call.fails else s.connected && !call.Exit?)
            && (after.isComplete <==> s.isComplete || Ends(c, s, call))
            && after.commits == s.commits + (if call.Commit? && accepted then 1 else 0)
            && after.rollbacks == s.rollbacks + (if !call.Commit? && Ends(c, s, call) then 1 else 0)
            && (IsStatement(call) ==> (after.aborted <==> s.aborted || Breaks(c, s, call)) && (after.guarded <==> s.guarded))
            && (Ends(c, s, call) || call.Exit? ==> !after.aborted)
            && ((call.Rollback? && accepted) || call.Exit? ==> !after.guarded)
            && (call.Enter? && accepted ==> (after.guarded <==> c.readOnly) && after.pending == [])
  {
  }

  // ------------------------------------------------------- a whole with-block

  /** What the calls of a block's body write, read off the body alone. */
  function Writes(c: Config, calls: seq<Call>): seq<Entry>
    decreases |calls|
  {
    if calls == [] then []
    else (match calls[0]
          case Execute(entry, _) => [entry]
          case Enqueue(key, _) => if c.hasEnqueuer then [JobRow(key)] else []
          case _ => []) + Writes(c, calls[1..])
  }

  /** The database refuses the call's statement. */
  predicate StatementFails(c: Config, call: Call) {
    (call.Execute? && call.fails) || (call.Enqueue? && c.hasEnqueuer && call.fails)
  }

  predicate SomeFails(c: Config, calls: seq<Call>) {
    exists i :: 0 <= i < |calls| && StatementFails(c, calls[i])
  }

  predicate NoEnd(calls: seq<Call>) {
    forall i :: 0 <= i < |calls| ==> calls[i].Execute? || calls[i].Enqueue?
  }

  lemma SomeFailsStep(c: Config, calls: seq<Call>)
    requires calls != []
    ensures SomeFails(c, calls) <==> StatementFails(c, calls[0]) || SomeFails(c, calls[1..])
  {
    if SomeFails(c, calls[1..]) {
      var i :| 0 <= i < |calls[1..]| && StatementFails(c, calls[1..][i]);
      assert calls[i + 1] == calls[1..][i];
    }
    if SomeFails(c, calls) && !StatementFails(c, calls[0]) {
      var i :| 0 <= i < |calls| && StatementFails(c, calls[i]);
      assert calls[1..][i - 1] == calls[i];
    }
  }

  lemma {:induction false} WritesAccumulate(c: Config, s: State, calls: seq<Call>)
    requires !c.readOnly && s.connected && !s.guarded && NoEnd(calls) && (s.aborted ==> s.pending == [])
    ensures Run(c, s, calls)
            == if s.aborted || SomeFails(c, calls) then s.(pending := [], aborted := true)
               else s.(pending := s.pending + Writes(c, calls))
    decreases |calls|
  {
    if calls != [] {
      var s' := Step(c, s, calls[0]).0;
      SomeFailsStep(c, calls);
      assert NoEnd(calls[1..]);
      WritesAccumulate(c, s', calls[1..]);
      if !s.aborted && !SomeFails(c, calls) {
        assert s.pending + Writes(c, calls) == s'.pending + Writes(c, calls[1..]);
      }
    }
  }

  /** The unit right before the block's commit. */
  function Written(c: Config, body: seq<Call>): State {
    var entered := FRESH.(hasEntered := true, connected := true);
    if SomeFails(c, body) then entered.(aborted := true) else entered.(pending := Writes(c, body))
  }

  lemma BlockWritten(c: Config, body: seq<Call>, guardFails: bool)
    requires !c.readOnly && NoEnd(body)
    ensures Run(c, FRESH, [Enter(false, guardFails)] + body) == Written(c, body)
  {
    var enter := Enter(false, guardFails);
    var entered := FRESH.(hasEntered := true, connected := true);
    assert [enter][1..] == [];
    assert Run(c, FRESH, [enter]) == entered;
    RunAppend(c, FRESH, [enter], body);
    WritesAccumulate(c, entered, body);
    assert [] + Writes(c, body) == Writes(c, body);
  }

  lemma RunOne(c: Config, s: State, call: Call, rest: seq<Call>)
    ensures Run(c, s, [call] + rest) == Run(c, Step(c, s, call).0, rest)
  {
    assert ([call] + rest)[1..] == rest;
  }

  /**
   A block that writes, then commits, then does anything at all: its business
   writes and job rows become visible together exactly when no statement was
   refused by the database and that commit succeeded.  After a commit that
   failed everything goes on as if the block had written nothing.  The caller
   may have caught the errors of refused statements.
   */
  lemma CommittedBlock(c: Config, body: seq<Call>, fails: bool, rest: seq<Call>, guardFails: bool)
    requires !c.readOnly && NoEnd(body)
    ensures Run(c, FRESH, [Enter(false, guardFails)] + body + ([Commit(fails)] + rest)).published
            == if fails then Run(c, FRESH, [Enter(false, guardFails)] + ([Commit(fails)] + rest)).published
               else if SomeFails(c, body) then []
               else Writes(c, body)
  {
    var enter := Enter(false, guardFails);
    var written := Written(c, body);
    BlockWritten(c, body, guardFails);
    RunAppend(c, FRESH, [enter] + body, [Commit(fails)] + rest);
    RunOne(c, written, Commit(fails), rest);
    if fails {
      RunOne(c, FRESH, enter, [Commit(fails)] + rest);
      RunOne(c, FRESH.(hasEntered := true, connected := true), Commit(fails), rest);
    } else {
      NothingAfterTheEnd(c, Step(c, written, Commit(fails)).0, rest);
    }
  }

  /** Without a commit nothing becomes visible: leaving the block early rolls it back. */
  lemma {:induction false} NoCommitNoPublication(c: Config, s: State, calls: seq<Call>)
    requires forall i :: 0 <= i < |calls| ==> !calls[i].Commit?
    ensures Run(c, s, calls).published == s.published
    ensures Run(c, s, calls).commits == s.commits
    decreases |calls|
  {
    if calls != [] {
      NoCommitNoPublication(c, Step(c, s, calls[0]).0, calls[1..]);
    }
  }

  /** After the block the connection is gone and, unless the database failed, the transaction is over. */
  lemma ExitCloses(c: Config, s: State, fails: bool)
    requires Consistent(s)
    ensures !Step(c, s, Exit(fails)).0.connected
    ensures s.connected && !fails ==> Step(c, s, Exit(fails)).0.isComplete
    ensures Step(c, s, Exit(fails)).0.published == s.published
  {
  }

  // ------------------------------------------------------------- mutable form

  /** A connection with its open transaction; `visible` is what others can read. */
  class Connection {
    var pending: seq<Entry>
    var visible: seq<Entry>
    var readOnly: bool
    var aborted: bool

    constructor (visible: seq<Entry>)
      ensures this.visible == visible && pending == [] && !readOnly && !aborted
    {
      this.pending, this.visible, this.readOnly, this.aborted := [], visible, false, false;
    }

    method SetReadOnly(fails: bool) returns (ok: bool)
      requires !aborted
      modifies this`readOnly, this`aborted
      ensures ok == !fails && aborted == fails && readOnly == (old(readOnly) || !fails)
    {
      ok, aborted := !fails, fails;
      readOnly := readOnly || !fails;
    }

    method Execute(entry: Entry, fails: bool) returns (ok: bool)
      modifies this`pending, this`aborted
      ensures ok <==> !old(aborted) && !readOnly && !fails
      ensures aborted == !ok
      ensures pending == if ok then old(pending) + [entry] else if old(aborted) then old(pending) else []
    {
      ok := !aborted && !readOnly && !fails;
      if ok {
        pending := pending + [entry];
      } else if !aborted {
        pending, aborted := [], true;
      }
    }

    method Commit(fails: bool) returns (ok: bool)
      modifies this`pending, this`visible, this`aborted
      ensures ok == !fails && pending == [] && !aborted
      ensures visible == if fails then old(visible) else old(visible) + old(pending)
    {
      if !fails {
        visible := visible + pending;
      }
      pending, aborted := [], false;
      ok := !fails;
    }

    method Rollback(fails: bool) returns (ok: bool)
      modifies this`pending, this`aborted, this`readOnly
      ensures ok == !fails
      ensures pending == (if fails then old(pending) else [])
      ensures aborted == (fails && old(aborted)) && readOnly == (fails && old(readOnly))
    {
      ok := !fails;
      if !fails {
        pending, aborted, readOnly := [], false, false;
      }
    }
  }

  class UnitOfWork {
    const config: Config
    var connection: Connection?
    var isComplete: bool
    var hasEntered: bool
    ghost var published: seq<Entry>
    ghost var commits: nat
    ghost var rollbacks: nat

    ghost function Abstract(): State
      reads this, connection
    {
      State(hasEntered, connection != null, isComplete,
            connection != null && connection.readOnly, connection != null && connection.aborted,
            if connection != null then connection.pending else [], published, commits, rollbacks)
    }

    /** While connected, others see exactly what this unit of work has published. */
    ghost predicate Valid()
      reads this, connection
    {
      && Consistent(Abstract())
      && (connection != null ==> connection.visible == published)
    }

    constructor (config: Config)
      ensures Valid() && Abstract() == FRESH && this.config == config
    {
      this.config := config;
      connection, isComplete, hasEntered := null, false, false;
      published, commits, rollbacks := [], 0, 0;
    }

    method Enter(fails: bool, guardFails: bool) returns (error: Option<Error>)
      requires Valid()
      modifies this
      ensures Valid() && (Abstract(), error) == Step(config, old(Abstract()), Call.Enter(fails, guardFails))
      ensures connection == old(connection) || fresh(connection)
    {
      if hasEntered {
        return Some(Reentered);
      }
      hasEntered := true;
      if fails {
        return Some(DatabaseError);
      }
      connection := new Connection([]);
      if config.readOnly {
        var ok := connection.SetReadOnly(guardFails);
        if !ok {
          return Some(DatabaseError);
        }
      }
      error := None;
    }

    method Execute(entry: Entry, fails: bool) returns (error: Option<Error>)
      requires Valid()
      modifies connection
      ensures Valid() && (Abstract(), error) == Step(config, old(Abstract()), Call.Execute(entry, fails))
    {
      if connection == null {
        return Some(NotEntered);
      }
      var refused := if connection.aborted || !connection.readOnly then DatabaseError else ReadOnlyWrite;
      var ok := connection.Execute(entry, fails);
      error := if ok then None else Some(refused);
    }

    method Enqueue(key: string, fails: bool) returns (error: Option<Error>)
      requires Valid()
      modifies connection
      ensures Valid() && (Abstract(), error) == Step(config, old(Abstract()), Call.Enqueue(key, fails))
    {
      if config.readOnly {
        return Some(ReadOnlyEnqueue);
      }
      if !config.hasEnqueuer {
        return Some(NoEnqueuer);
      }
      error := Execute(JobRow(key), fails);
    }

    method Commit(fails: bool) returns (error: Option<Error>)
      requires Valid()
      modifies this, connection
      ensures Valid() && (Abstract(), error) == Step(config, old(Abstract()), Call.Commit(fails))
      ensures connection == old(connection)
    {
      if config.readOnly {
        return Some(ReadOnlyCommit);
      }
      if isComplete {
        return Some(AlreadyComplete);
      }
      if connection == null {
        return Some(NotEntered);
      }
      var ok := connection.Commit(fails);
      if !ok {
        return Some(DatabaseError);
      }
      isComplete := true;
      published, commits := connection.visible, commits + 1;
      error := None;
    }

    method Rollback(fails: bool) returns (error: Option<Error>)
      requires Valid()
      modifies this, connection
      ensures Valid() && (Abstract(), error) == Step(config, old(Abstract()), Call.Rollback(fails))
      ensures connection == old(connection)
    {
      if isComplete {
        return Some(AlreadyComplete);
      }
      if connection == null {
        return Some(NotEntered);
      }
      var ok := connection.Rollback(fails);
      if !ok {
        return Some(DatabaseError);
      }
      isComplete, rollbacks := true, rollbacks + 1;
      error := None;
    }

    /** The connection is closed even when the rollback fails. */
    method Exit(fails: bool) returns (error: Option<Error>)
      requires Valid()
      modifies this, connection
      ensures Valid() && (Abstract(), error) == Step(config, old(Abstract()), Call.Exit(fails))
    {
      error := None;
      if connection == null {
        return;
      }
      if !isComplete {
        var ok := connection.Rollback(fails);
        if ok {
          isComplete, rollbacks := true, rollbacks + 1;
        } else {
          error := Some(DatabaseError);
        }
      }
      connection := null;
    }
  }
}

/**
 Many transactions enqueueing jobs at once.  An insert of a key that another
 open transaction has inserted waits for that transaction's end; in this model
 it is not enabled until then.
 */
module OutboxTransactions {
  import opened Wrappers

  datatype Row = Row(id: nat, key: string)

  /** An open transaction: rows and business writes not yet visible, and the ids it handed out. */
  datatype Txn = Txn(rows: set<Row>, writes: seq<string>, answers: map<string, nat>)

  /** `done` keeps the answers of committed transactions. */
  datatype World = World(
    rows: set<Row>,
    writes: seq<(nat, string)>,
    open: map<nat, Txn>,
    done: map<nat, Txn>,
    nextId: nat)

  datatype Action =
    | Start(t: nat)
    | Write(t: nat, text: string)
    | Enqueue(t: nat, key: string)
    | Commit(t: nat)
    | Abort(t: nat)

  predicate HasKey(rows: set<Row>, key: string) {
    exists r :: r in rows && r.key == key
  }

  predicate Enabled(w: World, a: Action) {
    match a
    case Start(t) => t !in w.open && t !in w.done
    case Write(t, _) => t in w.open
    case Enqueue(t, key) =>
      t in w.open && forall u :: u in w.open && u != t ==> !HasKey(w.open[u].rows, key)
    case Commit(t) => t in w.open
    case Abort(t) => t in w.open
  }

  /** The statement sees committed rows and the transaction's own. */
  function Visible(w: World, t: nat): set<Row>
    requires t in w.open
  {
    w.rows + w.open[t].rows
  }

  /** Insert or, on conflict, look the existing row up: zero stands for no row found. */
  function Answer(w: World, t: nat, key: string): nat
    requires t in w.open
  {
    if HasKey(Visible(w, t), key) then
      var ids := set r | r in Visible(w, t) && r.key == key :: r.id;
      Least(ids)
    else w.nextId
  }

  function Least(ids: set<nat>): nat {
    if ids == {} then 0 else LeastOf(ids)
  }

  lemma {:induction false} LeastExists(ids: set<nat>) returns (m: nat)
    requires ids != {}
    ensures m in ids && forall i :: i in ids ==> m <= i
    decreases |ids|
  {
    var x :| x in ids;
    if ids == {x} {
      m := x;
    } else {
      assert ids - {x} != {};
      var rest := LeastExists(ids - {x});
      m := if x <= rest then x else rest;
      assert forall i :: i in ids ==> i == x || i in ids - {x};
    }
  }

  function LeastOf(ids: set<nat>): (m: nat)
    requires ids != {}
    ensures m in ids && forall i :: i in ids ==> m <= i
  {
    assert exists m :: m in ids && forall i :: i in ids ==> m <= i by {
      var m := LeastExists(ids);
    }
    var m :| m in ids && forall i :: i in ids ==> m <= i;
    m
  }

  function Tag(t: nat, writes: seq<string>): seq<(nat, string)> {
    seq(|writes|, i requires 0 <= i < |writes| => (t, writes[i]))
  }

  function Apply(w: World, a: Action): World
    requires Enabled(w, a)
  {
    match a
    case Start(t) => w.(open := w.open[t := Txn({}, [], map[])])
    case Write(t, text) =>
      w.(open := w.open[t := w.open[t].(writes := w.open[t].writes + [text])])
    case Enqueue(t, key) =>
      var id := Answer(w, t, key);
      var txn := w.open[t].(answers := w.open[t].answers[key := id]);
      if HasKey(Visible(w, t), key) then w.(open := w.open[t := txn])
      else w.(open := w.open[t := txn.(rows := txn.rows + {Row(id, key)})], nextId := w.nextId + 1)
    case Commit(t) =>
      var txn := w.open[t];
      w.(rows := w.rows + txn.rows, writes := w.writes + Tag(t, txn.writes),
         open := w.open - {t}, done := w.done[t := txn])
    case Abort(t) => w.(open := w.open - {t})
  }

  predicate IsRun(w: World, acts: seq<Action>)
    decreases |acts|
  {
    acts == [] || (Enabled(w, acts[0]) && IsRun(Apply(w, acts[0]), acts[1..]))
  }

  function After(w: World, acts: seq<Action>): World
    requires IsRun(w, acts)
    decreases |acts|
  {
    if acts == [] then w else After(Apply(w, acts[0]), acts[1..])
  }

  const EMPTY: World := World({}, [], map[], map[], 1)

  predicate UniqueKeys(rows: set<Row>) {
    forall r, s :: r in rows && s in rows && (r.key == s.key || r.id == s.id) ==> r == s
  }

  predicate Inv(w: World) {
    && w.nextId >= 1
    && UniqueKeys(w.rows)
    && (forall r :: r in w.rows ==> 1 <= r.id < w.nextId)
    && (forall t :: t in w.open ==> TxnOk(w, t))
    && (forall t, u :: t in w.open && u in w.open && t != u ==> Apart(w.open[t].rows, w.open[u].rows))
    && (forall t :: t in w.done ==> t !in w.open && w.done[t].rows <= w.rows)
    && (forall t, k :: t in w.done && k in w.done[t].answers ==> Row(w.done[t].answers[k], k) in w.rows)
  }

  predicate Apart(a: set<Row>, b: set<Row>) {
    forall r, s :: r in a && s in b ==> r.key != s.key && r.id != s.id
  }

  /** An open transaction's rows are new, and its answers name visible rows. */
  predicate TxnOk(w: World, t: nat)
    requires t in w.open
  {
    var txn := w.open[t];
    && UniqueKeys(w.rows + txn.rows)
    && (forall r :: r in txn.rows ==> 1 <= r.id < w.nextId && r !in w.rows)
    && (forall k :: k in txn.answers ==> Row(txn.answers[k], k) in w.rows + txn.rows)
  }

  lemma AnswerNamesTheRow(w: World, t: nat, key: string)
    requires Inv(w) && t in w.open
    ensures Answer(w, t, key) >= 1
    ensures HasKey(Visible(w, t), key) ==> Row(Answer(w, t, key), key) in Visible(w, t)
  {
    if HasKey(Visible(w, t), key) {
      var r :| r in Visible(w, t) && r.key == key;
      var ids := set s | s in Visible(w, t) && s.key == key :: s.id;
      assert r.id in ids;
      var s :| s in Visible(w, t) && s.key == key && s.id == Least(ids);
      assert s == Row(Least(ids), key);
    }
  }

  /** A transaction that does not act stays well-formed when only fresh ids are used up. */
  lemma BystanderOk(w: World, w': World, u: nat)
    requires u in w.open && TxnOk(w, u)
    requires u in w'.open && w'.open[u] == w.open[u]
    requires w'.rows == w.rows && w'.nextId >= w.nextId
    ensures TxnOk(w', u)
  {
  }

  lemma KnownKeyKeepsInv(w: World, t: nat, key: string)
    requires Inv(w) && Enabled(w, Enqueue(t, key)) && HasKey(Visible(w, t), key)
    ensures Inv(Apply(w, Enqueue(t, key)))
  {
    AnswerNamesTheRow(w, t, key);
    var w' := Apply(w, Enqueue(t, key));
    forall u | u in w'.open
      ensures TxnOk(w', u)
    {
      assert TxnOk(w, u);
    }
  }

  lemma AddedRowIsUnique(rows: set<Row>, row: Row)
    requires UniqueKeys(rows) && forall r :: r in rows ==> r.key != row.key && r.id != row.id
    ensures UniqueKeys(rows + {row})
  {
  }

  lemma FreshRowIsApart(w: World, t: nat, key: string, u: nat)
    requires Inv(w) && Enabled(w, Enqueue(t, key)) && u in w.open && u != t
    ensures Apart(w.open[t].rows + {Row(w.nextId, key)}, w.open[u].rows)
  {
    assert TxnOk(w, u) && Apart(w.open[t].rows, w.open[u].rows);
    assert !HasKey(w.open[u].rows, key);
  }

  lemma FreshRowOk(w: World, t: nat, key: string)
    requires Inv(w) && Enabled(w, Enqueue(t, key)) && !HasKey(Visible(w, t), key)
    ensures TxnOk(Apply(w, Enqueue(t, key)), t)
  {
    assert TxnOk(w, t);
    var newRow := Row(w.nextId, key);
    forall r | r in Visible(w, t)
      ensures r.key != key && r.id < w.nextId
    {
    }
    AddedRowIsUnique(Visible(w, t), newRow);
    assert w.rows + (w.open[t].rows + {newRow}) == Visible(w, t) + {newRow};
    assert newRow !in w.rows;
  }

  lemma NewKeyKeepsInv(w: World, t: nat, key: string)
    requires Inv(w) && Enabled(w, Enqueue(t, key)) && !HasKey(Visible(w, t), key)
    ensures Inv(Apply(w, Enqueue(t, key)))
  {
    FreshRowOk(w, t, key);
    var w' := Apply(w, Enqueue(t, key));
    forall u | u in w'.open
      ensures TxnOk(w', u)
    {
      if u != t {
        BystanderOk(w, w', u);
      }
    }
    forall u, v | u in w'.open && v in w'.open && u != v
      ensures Apart(w'.open[u].rows, w'.open[v].rows)
    {
      assert Apart(w.open[u].rows, w.open[v].rows);
      if u == t {
        FreshRowIsApart(w, t, key, v);
      } else if v == t {
        FreshRowIsApart(w, t, key, u);
        assert Apart(w'.open[v].rows, w'.open[u].rows);
      }
    }
  }

  lemma CommitKeepsInv(w: World, t: nat)
    requires Inv(w) && Enabled(w, Commit(t))
    ensures Inv(Apply(w, Commit(t)))
  {
    var w' := Apply(w, Commit(t));
    assert TxnOk(w, t);
    forall u | u in w'.open
      ensures TxnOk(w', u)
    {
      assert TxnOk(w, u);
    }
  }

  lemma StartKeepsInv(w: World, t: nat)
    requires Inv(w) && Enabled(w, Start(t))
    ensures Inv(Apply(w, Start(t)))
  {
    var w' := Apply(w, Start(t));
    assert UniqueKeys(w.rows + {});
    assert w.rows + {} == w.rows;
    forall u | u in w'.open
      ensures TxnOk(w', u)
    {
      if u != t {
        BystanderOk(w, w', u);
      }
    }
    forall u, v | u in w'.open && v in w'.open && u != v
      ensures Apart(w'.open[u].rows, w'.open[v].rows)
    {
      assert u != t && v != t ==> Apart(w.open[u].rows, w.open[v].rows);
    }
  }

  lemma WriteKeepsInv(w: World, t: nat, text: string)
    requires Inv(w) && Enabled(w, Write(t, text))
    ensures Inv(Apply(w, Write(t, text)))
  {
    var w' := Apply(w, Write(t, text));
    assert TxnOk(w, t) && w'.open[t].rows == w.open[t].rows;
    forall u | u in w'.open
      ensures TxnOk(w', u)
    {
      if u != t {
        BystanderOk(w, w', u);
      }
    }
    forall u, v | u in w'.open && v in w'.open && u != v
      ensures Apart(w'.open[u].rows, w'.open[v].rows)
    {
      assert Apart(w.open[u].rows, w.open[v].rows);
    }
  }

  lemma AbortKeepsInv(w: World, t: nat)
    requires Inv(w) && Enabled(w, Abort(t))
    ensures Inv(Apply(w, Abort(t)))
  {
    var w' := Apply(w, Abort(t));
    forall u | u in w'.open
      ensures TxnOk(w', u)
    {
      BystanderOk(w, w', u);
    }
  }

  lemma StepKeepsInv(w: World, a: Action)
    requires Inv(w) && Enabled(w, a)
    ensures Inv(Apply(w, a))
  {
    match a
    case Start(t) => StartKeepsInv(w, t);
    case Write(t, text) => WriteKeepsInv(w, t, text);
    case Enqueue(t, key) =>
      if HasKey(Visible(w, t), key) {
        KnownKeyKeepsInv(w, t, key);
      } else {
        NewKeyKeepsInv(w, t, key);
      }
    case Commit(t) => CommitKeepsInv(w, t);
    case Abort(t) => AbortKeepsInv(w, t);
  }

  lemma {:induction false} RunKeepsInv(w: World, acts: seq<Action>)
    requires Inv(w) && IsRun(w, acts)
    ensures Inv(After(w, acts))
    decreases |acts|
  {
    if acts != [] {
      StepKeepsInv(w, acts[0]);
      RunKeepsInv(Apply(w, acts[0]), acts[1..]);
    }
  }

  /**
   Over all interleavings: a key names at most one row, and every committed
   transaction that enqueued it, creator or not, was answered with that row's id.
   */
  lemma OneRowPerKey(acts: seq<Action>, r: Row, s: Row, t: nat, u: nat, key: string)
    requires IsRun(EMPTY, acts)
    ensures var w := After(EMPTY, acts);
            && (r in w.rows && s in w.rows && r.key == s.key ==> r == s)
            && (t in w.done && u in w.done && key in w.done[t].answers && key in w.done[u].answers ==>
                  w.done[t].answers[key] == w.done[u].answers[key]
                  && Row(w.done[t].answers[key], key) in w.rows)
  {
    RunKeepsInv(EMPTY, acts);
  }

  /** Everything but an enqueue that waits for another transaction's row may happen to an open transaction, and any unused one may start. */
  lemma EnabledExactly(w: World, a: Action)
    ensures Enabled(w, a)
            <==> if a.Start? then a.t !in w.open && a.t !in w.done
                 else a.t in w.open
                      && (a.Enqueue? ==> forall u, r :: u in w.open && u != a.t && r in w.open[u].rows ==> r.key != a.key)
  {
    if a.Enqueue? && a.t in w.open {
      forall u | u in w.open && u != a.t
        ensures HasKey(w.open[u].rows, a.key) <==> exists r :: r in w.open[u].rows && r.key == a.key
      {
      }
    }
  }

  /**
   An enqueue is answered with the id of a row of its key that the transaction
   then sees; it adds that row, under an id that nobody has, exactly when it saw
   none before.
   */
  lemma EnqueueEffect(w: World, t: nat, key: string)
    requires Inv(w) && Enabled(w, Enqueue(t, key))
    ensures var after := Apply(w, Enqueue(t, key));
            && after.rows == w.rows && after.writes == w.writes && after.done == w.done
            && after.open.Keys == w.open.Keys && (forall u :: u in w.open && u != t ==> after.open[u] == w.open[u])
            && after.open[t].writes == w.open[t].writes
            && key in after.open[t].answers && Row(after.open[t].answers[key], key) in after.rows + after.open[t].rows
            && (forall k :: k != key ==> (k in after.open[t].answers <==> k in w.open[t].answers))
            && (forall k :: k != key && k in w.open[t].answers ==> after.open[t].answers[k] == w.open[t].answers[k])
            && (if exists r :: r in w.rows + w.open[t].rows && r.key == key then after.open[t].rows == w.open[t].rows
                else
                  && after.open[t].rows == w.open[t].rows + {Row(after.open[t].answers[key], key)}
                  && (forall r :: r in w.rows ==> r.id != after.open[t].answers[key])
                  && (forall u, r :: u in w.open && r in w.open[u].rows ==> r.id != after.open[t].answers[key]))
  {
    AnswerNamesTheRow(w, t, key);
    assert TxnOk(w, t);
    if !HasKey(Visible(w, t), key) {
      forall u, r | u in w.open && r in w.open[u].rows
        ensures r.id != w.nextId
      {
        assert TxnOk(w, u);
      }
    }
  }

  /** A transaction starts empty, gathers its writes in order, and is gone after its end, with its answers kept by a commit alone. */
  lemma TransactionEffect(w: World, a: Action)
    requires Inv(w) && Enabled(w, a) && !a.Enqueue?
    ensures var after := Apply(w, a);
            && (forall u :: u != a.t && u in w.open ==> u in after.open && after.open[u] == w.open[u])
            && (a.Start? ==> a.t in after.open && after.open[a.t] == Txn({}, [], map[]))
            && (a.Write? ==> a.t in after.open && after.open[a.t] == w.open[a.t].(writes := w.open[a.t].writes + [a.text]))
            && (a.Commit? || a.Abort? ==> a.t !in after.open)
            && (forall u :: u in after.done <==> u in w.done || (a == Commit(a.t) && u == a.t))
            && (a.Commit? ==> after.done[a.t].answers == w.open[a.t].answers)
            && (!a.Commit? ==> after.rows == w.rows && after.writes == w.writes)
  {
  }

  /** Rows and business writes appear in the same step, the commit, and in no other. */
  lemma VisibleTogether(w: World, a: Action, t: nat)
    requires Inv(w) && Enabled(w, a) && t in w.open
    ensures w.open[t].rows * w.rows == {}
    ensures a == Commit(t) ==>
              && Apply(w, a).rows == w.rows + w.open[t].rows
              && Apply(w, a).writes == w.writes + Tag(t, w.open[t].writes)
    ensures a != Commit(t) ==>
              && w.open[t].rows * Apply(w, a).rows == {}
              && (forall x :: (t, x) in Apply(w, a).writes ==> (t, x) in w.writes)
  {
    assert TxnOk(w, t);
    if a.Commit? && a.t != t {
      assert Apart(w.open[t].rows, w.open[a.t].rows);
    }
  }
}
