# Verified models of the school platform's core

Each Dafny file models one part of the backend and proves what that part is
for. Values are datatypes and functions; objects and tables that the source
updates in place are classes whose methods are proved against those functions.

| File | Models |
|---|---|
| `OutboxJobs.dfy`, `JobCommands.dfy` | the lease-based job table, its six statements and the commands and worker round built on them |
| `WorkerRuns.dfy` | runs of several workers, producers and operators over one table: claims in three steps, crashes, expiries, replays, every transaction with its own clock |
| `SharedWorkerIds.dfy` | exactly when the job table's fence holds |
| `UnitOfWork.dfy` | the life cycle of one transaction object, and interleaved transactions that enqueue jobs under idempotency keys |
| `Ledger.dfy`, `LedgerRules.dfy` | admission invoices, payments by hand, by the provider and on the finance pages, reversals, refunds, contracts and activation, and every operation's refusals and effects read off rows |
| `TimetableTexts.dfy`, `Timetable.dfy`, `TimetableRuns.dfy`, `TimetableRules.dfy`, `TimetableGaps.dfy` | weekday lists and clock times, the coarse conflict check, runs of timetable requests, what each request stands for and stores, and where the check does not reach |
| `StageHistory.dfy` | four migrations of the recruitment stage history |
| `Catalogue.dfy`, `CatalogueRules.dfy` | the merge of outcome reasons, with its five literal groups, and which reason and options it ends with |
| `BillingCycles.dfy` | next periods, cycle totals and cycle items on a Gregorian calendar |
| `Codes.dfy` | teacher and student codes |
| `Preloads.dfy`, `SafeJson.dfy` | the module-preload walk and the script-safe JSON printer |
| `Chat.dfy` | message pages, paging back, polling and the message operations |
| `Names.dfy` | snake_case and camelCase names |
| `Wrappers.dfy`, `Numbers.dfy`, `Texts.dfy`, `Sequences.dfy` | optional values and results; the larger and smaller number; spaces, digits and letter case; facts about sequences and sets |

`dafny verify dfyconfig.toml` checks everything.

## Findings

The models follow the code. Where a property that the code or its
documentation suggests does not hold, its exact condition is proved for all
inputs, beside a concrete input that shows the failure.

- The fence of the job table compares worker ids only. It holds over all runs
  exactly when no two processes that could claim the same job share a worker
  id (`SharedWorkerIds.FenceExactly`, `SharedWorkerIds.TwoProcessesOneId`).
- Paying again after a reversal re-activates an admission and creates a second
  student, or leaves it out of service although everything is paid
  (`Ledger.SingleStudentExactly`, `Ledger.RepayingReactivatesExactly`,
  `Ledger.TwoStudentsOfOneAdmission`, `Ledger.PaidButInactive`).
- A first invoice that is paid in full on the finance pages does not activate its
  admission, and no other payment of it is accepted afterwards
  (`Ledger.SettledOutOfServiceExactly`, `Ledger.PaidThroughFinance`).
- `0029` closes intervals with `now()` where `0023` uses `GREATEST`, so an
  interval anchored in the future stops the migration
  (`StageHistory.RepairSucceedsExactly`, `StageHistory.FutureAnchorStopsRepair`);
  its guarded insert can leave a candidate without an open interval
  (`StageHistory.RepairKeepsOneOpenExactly`,
  `StageHistory.RepeatedEntryLosesInterval`).
- A catalogue option that already carries a new canonical label under another
  value takes the reason of its decisions away (`Catalogue.LosesExactly`,
  `Catalogue.StrayLosesReason`). The comment in the migration says that
  references keep resolving.
- A timetable change may place lessons before the stored start of its rule,
  where later checks do not see them (`TimetableGaps.LaunchInTimeExactly`,
  `TimetableGaps.LateLaunchDoubleBooks`); check and insert are not serialised
  (`TimetableGaps.RacingExactly`, `TimetableGaps.RacingRequestsDoubleBook`); and
  moving a rule's end date is not checked (`TimetableGaps.MoveEndExactly`,
  `TimetableGaps.MovedEndDoubleBooks`).
- The choice of a billing period needs a billing day of at most 28
  (`BillingCycles.NextPeriodNeedsDay28`, with `BillingCycles.LateFebruary` as the
  failing moment), which the profile table enforces.
- Teacher codes from TCH10000 on are not recognised by the search for used
  codes (`Codes.RecognisedExactly`, `Codes.TenThousandIsUnseen`), and a second
  backfill keeps such a code only when the free numbers below it are as many as
  the earlier codes of that kind (`Codes.SecondBackfillExactly`,
  `Codes.FreedNumberChangesCode`).
- A polled chat message is received exactly when its id is beyond the cursor at
  the time it becomes visible; one that another process commits later than a
  larger id is not (`Chat.PollDeliversExactly`, `Chat.LateCommitIsMissed`).
- Field names with a part that starts with a digit do not come back from their
  wire names (`Names.RoundTripExactly`); the review form of the academy declares
  such fields (`Names.SessionFieldDoesNotReturn`).

## Assumptions

- Integers are unbounded: counters and amounts are far below the widths of
  their columns. Times and dates are whole units on one line.
- One statement of SQL acts on one state of its tables. Skip-locked claims,
  unique keys and row locks are modelled by their effect on which steps may
  happen; SQL text, indexes and pooling are not.
- Rows whose order SQL leaves open are taken in table order; no result that is
  claimed depends on it unless said below.

## Model

| member | source | states |
|---|---|---|
| OutboxJobs.OutboxRepository.InsertJob | backend/modules/jobs/repository.py:37-62 | A new key adds exactly one pending row; a known key changes nothing and answers with the id of the row that has it. |
| OutboxJobs.OutboxRepository.ReleaseExpiredLeases | backend/modules/jobs/repository.py:157-185 | Exactly the running rows of allowed topics whose lease has ended go to retry, or to dead when their attempts are used up; no expired lease is left; the number is returned. |
| OutboxJobs.OutboxRepository.ClaimDueJobs | backend/modules/jobs/repository.py:65-104 | The rows taken are exactly the first `limit` due, unlocked ones in (available_at, id) order, each returned once in its claimed state; no other row changes. |
| OutboxJobs.OutboxRepository.CompleteJob | backend/modules/jobs/repository.py:107-121 | Takes effect if and only if the row runs under this worker's name; then only that row changes. |
| OutboxJobs.OutboxRepository.RecordJobFailure | backend/modules/jobs/repository.py:124-154 | Takes effect only through the same fence; the table invariant survives if and only if the dead decision fits the attempts of the row written, which is what a stale snapshot would break. |
| OutboxJobs.OutboxRepository.ReplayDeadJob | backend/modules/jobs/repository.py:188-205 | Only a dead row is reset, with no attempts used. |
| OutboxJobs.TakeFirstIsFirst | backend/modules/jobs/repository.py:79-90 | Choosing the earliest row `limit` times is ORDER BY available_at, id LIMIT n: as many rows as there are or as asked for, and nobody left out comes before anybody taken. |
| OutboxJobs.FirstIsUnique | backend/modules/jobs/repository.py:79-90 | The order and the limit determine the claimed set completely. |
| OutboxJobs.RetryDelayBounds | backend/modules/jobs/commands.py:56-60 | With the configured minimum of one second every delay lies in [1, cap]. |
| OutboxJobs.RetryDelayMonotone | backend/modules/jobs/commands.py:56-60 | The delay never decreases from one attempt to a later one. |
| OutboxJobs.RetryDelayDoubles | backend/modules/jobs/commands.py:56-60 | It starts at the base and doubles until the cap. |
| OutboxJobs.RowEffects | backend/modules/jobs/repository.py:65-205 | Each statement keeps the row invariant where it applies, and every one but a replay strictly lowers a rank between 0 and 2 * max_attempts. |
| OutboxJobs.DueExactly | backend/modules/jobs/repository.py:73-90 | A pending or retry row of an allowed topic is claimable exactly from the time on at which it is available. |
| OutboxJobs.EnqueuedIsDue | backend/modules/jobs/repository.py:37-62 | A new row carries what was asked for, without attempts, and is claimable exactly from the time asked for, or at once when none is. |
| OutboxJobs.ClaimLastsItsLease | backend/modules/jobs/repository.py:92-104 | A claim uses one attempt, holds the row for its worker alone and lasts leaseSeconds: expired exactly from then on; the first claim's time stays. |
| OutboxJobs.ReleasedIsDueOrDead | backend/modules/jobs/repository.py:157-185 | A released row is claimable at once while attempts are left and dead with the time otherwise; an earlier error stays, and the lease message stands only where there was none. |
| OutboxJobs.ReplayedIsDue | backend/modules/jobs/repository.py:188-205 | A replayed row is claimable at once, with no attempts, error or times of its former runs. |
| OutboxJobs.FirstInOrder | backend/modules/jobs/repository.py:79-90 | Whoever is left out of a claim is due later than everybody taken, or as early with a larger id. |
| JobCommands.ClaimJobs | backend/modules/jobs/commands.py:18-34 | One transaction releases and then claims; the claim chooses among the rows as the release left them. |
| JobCommands.FailJob | backend/modules/jobs/commands.py:47-69 | The row is dead or waiting by the worker's snapshot; the wait is the configured base after the first attempt, doubles with every further one and never exceeds the configured cap; the other fields are stated one by one, and the table stays valid if and only if the dead decision also fits the row that is written. |
| JobCommands.ExecuteJob | backend/application/worker.py:49-80 | Whatever row it finds: a success without a matching row stops the worker, a failure without one is ignored, and a matching row records the outcome field by field, the wait of a failure included; the table stays valid exactly when a recorded failure fits the row. |
| JobCommands.RunWorkerOnce | backend/application/worker.py:83-99 | A round that nobody disturbs claims the first due jobs, loses no lease, records each one's own outcome at its own time, the wait of a failure included, leaves every other row as the claim left it and returns the number claimed. |
| JobCommands.BackoffReachesCap | backend/modules/jobs/commands.py:56-60 | The wait after n attempts is the base doubled n - 1 times while that stays below the cap, and the cap from then on. |
| WorkerRuns.StepKeepsInv | backend/modules/jobs/repository.py:65-205 | Every action of every worker, crash included, keeps the table, lock and snapshot invariants; a claim is three steps, so other actions fall between its release, its choice of rows and its commit. |
| WorkerRuns.Fencing | backend/application/worker.py:24-46 | Over every run in which no worker id is shared by two processes that could claim the same job, a success or failure that changes anything acts on a row equal to the writer's snapshot, attempt count included, records the outcome there and changes no other row. |
| WorkerRuns.DistinctIdsDoNotShare | backend/application/worker.py:20-21 | Distinct worker ids, such as host and process number give, meet the condition of Fencing. |
| WorkerRuns.ReachableRows | backend/modules/jobs/repository.py:65-205 | In every reachable state: running if and only if both lease fields are set; pending and retry have attempts left; running has used 1 to max_attempts; dead has used all; keys are unique. |
| WorkerRuns.ConcurrentClaimsAreDisjoint | backend/modules/jobs/repository.py:79-90 | Claim transactions that overlap in time hold disjoint sets of rows. |
| WorkerRuns.ClaimTakesTheFirst | backend/modules/jobs/repository.py:79-90 | Each takes the first rows, by available time and then id, of those due that no other transaction has locked. |
| WorkerRuns.ReplayNeverWaits | backend/modules/jobs/repository.py:188-205 | No claim transaction ever holds a dead row, so a replay takes effect at once on a dead row and does nothing to any other. |
| WorkerRuns.LeaseIsExclusive | backend/modules/jobs/repository.py:157-185 | Until a lease ends on the clock of a claiming transaction, no step of anybody but its owner alters the row. |
| WorkerRuns.LeaseIsExclusiveOverRuns | backend/modules/jobs/repository.py:157-185 | The same over any run of such steps. |
| WorkerRuns.StepLowersRank | backend/modules/jobs/commands.py:47-69 | In every reachable state, any step that changes a row other than by replay lowers its rank and keeps its attempt bound. |
| WorkerRuns.TerminalRows | backend/modules/jobs/repository.py:188-205 | Over every run a completed row never changes, and a dead row changes only by replay. |
| WorkerRuns.ChangesAreBounded | backend/modules/jobs/repository.py:65-205 | Without replay a row changes at most 2 * max_attempts times, whatever the workers do. |
| WorkerRuns.HandlerStartsAreBounded | backend/modules/jobs/repository.py:92-97 | From its enqueueing on, and until it is replayed, a job's handler is started at most max_attempts times, the executions in progress, crashed or overtaken by an expired lease included. |
| SharedWorkerIds.FenceExactly | backend/application/worker.py:20-46 | Over all runs from an idle start, whatever the numbers of workers, topics, batch sizes and leases: every write-back that takes effect finds its own claim if and only if no two processes that could claim the same job share a worker id. |
| SharedWorkerIds.SharedIdBreaksFence | backend/application/worker.py:24-46 | For every two such processes a run is constructed after which the first one's stale write-back of attempt 1 completes the second one's attempt 2. |
| SharedWorkerIds.TwoProcessesOneId | backend/application/worker.py:89-89 | Concrete: two processes with the default settings and one configured worker id. |
| Lifecycle.EndsAtMostOnce | backend/core/unit_of_work.py:66-78 | In any order of calls whatsoever, commits and rollbacks together take effect at most once. |
| Lifecycle.NothingAfterTheEnd | backend/core/unit_of_work.py:66-87 | After the transaction has ended no call makes anything visible. |
| Lifecycle.RefusedExactly | backend/core/unit_of_work.py:57-98 | A call is refused exactly when one of the listed causes stands against it, and its error names such a cause. |
| Lifecycle.CallEffect | backend/core/unit_of_work.py:57-98 | What a call does to each part of the unit: an accepted statement adds its entry, a commit alone publishes, a statement that the database refuses and every end lose what waits, only entering connects and only leaving disconnects. |
| Lifecycle.ReadOnlyPublishesNothing | backend/core/unit_of_work.py:66-84 | A read-only unit never commits and publishes nothing. |
| Lifecycle.CommittedBlock | backend/core/unit_of_work.py:57-98 | Business writes and job rows of a block become visible together if and only if the database refused none of its statements and its commit succeeded; nothing done afterwards is added, and after a failed commit the block counts for nothing. |
| Lifecycle.NoCommitNoPublication | backend/core/unit_of_work.py:89-98 | Leaving early without a commit publishes nothing. |
| Lifecycle.ExitCloses | backend/core/unit_of_work.py:89-98 | After the block the connection is gone and, unless the rollback failed, the transaction is over. |
| Lifecycle.UnitOfWork.Enter | backend/core/unit_of_work.py:57-64 | Entering refines the state machine's step: a second entry is refused and changes nothing; a connection that could not be made read-only stays open in a failed transaction. |
| Lifecycle.UnitOfWork.Execute | backend/core/unit_of_work.py:47-51 | A statement of the block refines the step: refused outside the block, by a read-only or failed transaction, or by the database for its own reasons; a refused one fails the transaction. |
| Lifecycle.UnitOfWork.Commit | backend/core/unit_of_work.py:66-72 | Commit refines the step: refused when read-only or complete; it completes the unit only when the database answered, and publishes nothing of a failed transaction. |
| Lifecycle.UnitOfWork.Rollback | backend/core/unit_of_work.py:74-78 | Rollback refines the step: refused when complete. |
| Lifecycle.UnitOfWork.Enqueue | backend/core/unit_of_work.py:80-87 | Enqueueing refines the step: refused when read-only or without an enqueuer, otherwise one more statement of this transaction. |
| Lifecycle.UnitOfWork.Exit | backend/core/unit_of_work.py:89-98 | Leaving refines the step: rolls back what is open and always closes the connection. |
| OutboxTransactions.StepKeepsInv | backend/modules/jobs/repository.py:37-62 | Over interleaved transactions every step keeps: committed and pending keys are unique, a fresh key waits for a concurrent one, and answers name rows. |
| OutboxTransactions.EnabledExactly | backend/modules/jobs/repository.py:37-62 | Any unused transaction may start and any open one may act, except that an enqueue waits exactly while another open transaction holds a row of its key. |
| OutboxTransactions.EnqueueEffect | backend/modules/jobs/repository.py:37-62 | An enqueue is answered with the id of a row of its key that the transaction then sees, and adds that row, under a fresh id, exactly when it saw none before. |
| OutboxTransactions.TransactionEffect | backend/core/unit_of_work.py:57-98 | A transaction starts empty, gathers its writes in order and is gone after its end; a commit alone keeps its answers. |
| OutboxTransactions.AnswerNamesTheRow | backend/modules/jobs/repository.py:55-62 | An enqueue whose key is visible is answered with the id of that very row. |
| OutboxTransactions.OneRowPerKey | backend/modules/jobs/repository.py:37-62 | Over all interleavings a key names at most one row, and every committed transaction that enqueued it was answered with that row's id. |
| OutboxTransactions.VisibleTogether | backend/core/unit_of_work.py:66-87 | Rows and business writes of one transaction appear in the same step, its commit, and in no other step. |
| Preloads.VisitIsPreorder | backend/core/web/rendering.py:169-186 | The recursive walk with a shared seen set lists the same keys as a worklist preorder traversal. |
| Preloads.VisitProperties | backend/core/web/rendering.py:169-186 | It lists fresh keys only, each once, and leaves no visited key with an unvisited import. |
| Preloads.WalkedIsReachable | backend/core/web/rendering.py:156-188 | On every manifest, cycles included, it terminates and lists exactly the keys reachable from index.html through imports, other than index.html itself, each once, in preorder. |
| Preloads.PreloadedExactly | backend/core/web/rendering.py:156-188 | A file is preloaded if and only if it is the non-empty file of an object, other than index.html, at the end of a chain of string imports from index.html. |
| Preloads.KeysAre | backend/core/web/rendering.py:169-177 | Items that are not strings are skipped, and the others keep their places. |
| Preloads.PreloadWalk.Walk | backend/core/web/rendering.py:169-184 | The method that mutates the seen set and the file list extends both by exactly that visit. |
| Preloads.ResolvePreloads | backend/core/web/rendering.py:156-188 | The answer is the files of the walked keys in walk order, keys without a file contributing none. |
| SafeJson.EscapesOnlyWhereNeeded | backend/core/web/rendering.py:207-211 | Quote, backslash and five control characters take two characters, other control characters six, and every other character stands for itself. |
| SafeJson.SafeIsSafeChars | backend/core/web/rendering.py:212-212 | The three replacement passes act like one character-wise replacement: none disturbs what another wrote. |
| SafeJson.PrintSafe | backend/core/web/rendering.py:207-212 | Replacing over the whole printed text only rewrites string contents; structure, numbers and keywords stay. |
| SafeJson.ScriptSafe | backend/core/web/rendering.py:201-212 | For every page name and props the text holds no `<`, `>` or `&`. |
| SafeJson.ParseText | backend/core/web/rendering.py:201-212 | A decoder with the string escapes of section 7 of RFC 8259, applied to a value's delivered text followed by anything that may follow it, gives the value and leaves the rest. |
| SafeJson.SafeDocumentRoundTrip | backend/core/web/rendering.py:201-212 | Decoding the delivered text gives back an object of exactly the page name, under "page", and the props, under "props", with nothing left over. |
| Ledger.StepKeepsLedger | backend/modules/domains/admissions/contracts.py:662-1072 | Every operation keeps: total is the sum of the lines, paid is the sum of the completed payments and lies between 0 and the total, one live invoice a period. |
| Ledger.RunKeepsLedger | backend/modules/domains/admissions/contracts.py:662-1072 | The same over every run of issue, pay, reverse, void, activate and contract operations, of the provider's payments and refunds, and of the payments, reversals and voids of the finance pages. |
| Ledger.ReversalNeverClips | backend/modules/domains/admissions/contracts.py:993-1007 | In every reachable state the max(0, ...) of a reversal returns its argument, and the new status is the one the balance asks for. |
| Ledger.RefundNeverClips | backend/modules/domains/finance/integrations/payme/repository.py:227-270 | The same of the GREATEST(0, ...) of a provider's refund: it returns its argument, and the status follows from the balance but for the overdue mark of an unpaid invoice. |
| Ledger.SettlementNeverClips | backend/modules/domains/finance/ledger_repository.py:403-434 | In every reachable state the LEAST(sum, total) of a payment through the finance pages returns the sum: the paid amount rises by exactly what is paid, and the status is the one the balance asks for. |
| Ledger.ReverseUndoesPayment | backend/modules/domains/admissions/contracts.py:951-1027 | Reversing a payment just recorded restores the paid sum and the status, except that an overdue invoice comes back with the status of its balance. |
| Ledger.BecomesActive | backend/modules/domains/admissions/contracts.py:725-854 | An admission becomes active only by a payment, by hand of its first invoice or by the provider of any of its invoices, with an accepted contract, the first invoice paid and every group available; exactly one student is added. |
| Ledger.ReactivationIsIdle | backend/modules/domains/admissions/contracts.py:725-760 | Activating an active admission changes nothing. |
| Ledger.OneStudentPerAdmission | backend/modules/domains/admissions/contracts.py:725-854 | In every run without reversals and refunds an admission has one student and one activation job when active and none otherwise. |
| Ledger.SingleStudentExactly | backend/modules/domains/admissions/contracts.py:725-854 | In every run: an activation leaves the admission with exactly one student if and only if its row named no student before. |
| Ledger.RepayingReactivatesExactly | backend/modules/domains/admissions/contracts.py:938-1021 | Reversing any payment of a fully paid invoice of an active admission and paying the same amount again leaves the admission active, with one more student, if and only if the invoice is a first one, the newest first invoice is paid, the contract is accepted and every group is available; otherwise a later invoice is paid again and a first one is refused. |
| Ledger.TwoStudentsOfOneAdmission | backend/modules/domains/admissions/contracts.py:938-1021 | Concrete run from empty tables that ends with two students of one admission. |
| Ledger.PaidButInactive | backend/modules/domains/admissions/contracts.py:938-1015 | Concrete run from empty tables that ends with every invoice paid and the admission out of service. |
| Ledger.FinanceNeverActivates | backend/modules/domains/finance/commands.py:162-345 | Over every run of payments, reversals and voids of the finance pages no admission, student or activation job changes. |
| Ledger.SettledOutOfServiceExactly | backend/modules/domains/finance/commands.py:162-216 | A payment of the newest first invoice there leaves that invoice paid, with the admission as it was and no later payment accepted, if and only if it pays the whole balance. |
| Ledger.PaidThroughFinance | backend/modules/domains/finance/commands.py:162-216 | Concrete run from empty tables: contract accepted, first invoice paid in full on the finance pages, admission not active. |
| Ledger.LedgerTables.Issue | backend/modules/domains/admissions/contracts.py:662-722 | In place: the invoice of the period, existing or new with its copied lines, or the error with nothing changed. |
| Ledger.LedgerTables.ActivatePaidAdmission | backend/modules/domains/admissions/contracts.py:725-854 | In place: activation as specified, naming the created student, none for an active admission. |
| Ledger.LedgerTables.RecordManualPayment | backend/modules/domains/admissions/contracts.py:857-948 | In place: the payment, the balance-derived status and, for a paid first invoice, the activation; a failed activation undoes the payment too. |
| Ledger.LedgerTables.ReverseManualPayment | backend/modules/domains/admissions/contracts.py:951-1027 | In place: only a completed payment by hand is reversed, and the admission goes back to awaiting payment or to review, whichever invoice it was, unless it is cancelled or expired. |
| Ledger.LedgerTables.PerformTransaction | backend/modules/domains/finance/integrations/payme/service.py:275-380 | In place: the provider pays the exact balance of an invoice whose admission awaits payment, and activates in the same transaction or not at all. |
| Ledger.LedgerTables.RefundTransaction | backend/modules/domains/finance/integrations/payme/service.py:382-454 | In place: a performed payment of the provider is taken back, with the invoice's status and the admission's state that follow. |
| Ledger.LedgerTables.Void | backend/modules/domains/admissions/contracts.py:1030-1072 | In place: only an unpaid invoice without pending provider transaction is voided. |
| Ledger.LedgerTables.SettleInvoice | backend/modules/domains/finance/commands.py:162-216 | In place: a payment on the finance pages, after which paid amount and status are recomputed from the completed payments. |
| Ledger.LedgerTables.UnsettleInvoice | backend/modules/domains/finance/commands.py:264-312 | In place: only a completed payment by hand is taken back there, and the invoice is recomputed. |
| Ledger.LedgerTables.DiscardInvoice | backend/modules/domains/finance/commands.py:315-345 | In place: an invoice with nothing paid is voided there, whether or not a provider transaction is pending. |
| LedgerRules.RefusedExactly | backend/modules/domains/admissions/contracts.py:662-1072 | Every operation is refused exactly when one of its listed causes, read off rows and arguments, stands against it, and the error that it gives is such a cause. |
| LedgerRules.InvoiceEffect | backend/modules/domains/admissions/contracts.py:857-1072 | What an operation does to an invoice: the paid amount moves by what is paid or taken back, the status shows the balance, the version rises by one, and every other invoice is untouched. |
| LedgerRules.NewInvoice | backend/modules/domains/admissions/contracts.py:662-722 | Only an issue for a month and kind without a live invoice adds one, unpaid, with one line a selected group at its amount. |
| LedgerRules.PaymentEffect | backend/modules/domains/admissions/contracts.py:857-1027 | Payments are added with their source and amount, marked reversed or refunded by the operation that says so, and otherwise stay. |
| LedgerRules.AdmissionEffect | backend/modules/domains/admissions/repository.py:1015-1034 | What an operation does to an admission: after a payment is taken back a cancelled or expired one is unchanged, any other goes to payment review if its service has begun and else awaits payment; a completing payment activates it; contract steps and the cancellation set their own status; nothing else changes it. |
| LedgerRules.ContractEffect | backend/modules/domains/admissions/contracts.py:662-1072 | A contract follows uploads, sendings, submissions and reviews, and nothing else. |
| LedgerRules.ProviderAfterTakingBack | backend/modules/domains/finance/integrations/payme/service.py:275-454 | An invoice whose payment was taken back can be paid by the provider if and only if the admission was neither cancelled nor expired, its service has not begun, and contract, groups and newest first invoice allow the activation. |
| Texts.StripIs | backend/modules/domains/academics/foundation.py:103-103 | Stripping takes away the spaces at both ends and nothing else. |
| Texts.LettersPair | backend/core/api/schemas.py:11-21 | Changing case maps the two alphabets onto each other, letter by letter, and leaves other characters. |
| TimetableTexts.NormalizeWeekdays | backend/modules/domains/academics/foundation.py:118-150 | The loop over mixed names and numbers answers exactly the named weekdays, in order and once each, and fails if and only if none is named. |
| TimetableTexts.WeekdaysOfOk | backend/modules/domains/academics/foundation.py:118-150 | The answer holds exactly the weekdays that some item, by name or number, names, in order without repetitions; it fails if and only if no item names one. |
| TimetableTexts.WeekdaysRoundTrip | backend/modules/domains/academics/foundation.py:118-150 | The stored comma list of any valid set of days reads back as the same days. |
| TimetableTexts.TimeRoundTrip | backend/modules/domains/academics/foundation.py:101-110 | Every minute of the day printed as HH24:MI reads back as itself. |
| TimetableTexts.TimeIsOfOneDay | backend/modules/domains/academics/foundation.py:101-110 | Whatever text is accepted, the result is a minute of one day, and printing it loses nothing. |
| TimetableTexts.TimeReadsExactly | backend/modules/domains/academics/foundation.py:101-110 | A text is read as a time exactly when an hour 0 to 23 and a minute 0 to 59 stand around its first colon, and as that minute of the day. |
| TimetableTexts.DayNameExactly | backend/modules/domains/academics/foundation.py:123-131 | A text names a weekday exactly when it is the full or the three-letter name at that place of the week. |
| TimetableTexts.SplitsAtSeparators | backend/modules/domains/academics/foundation.py:118-121 | A stored weekday text is cut at every comma and semicolon and nowhere else. |
| TimetableTexts.ReadNatExactly | backend/modules/domains/academics/foundation.py:101-110 | Digits with single underscores between them, and nothing else, are read as a natural number, the one that the digits show. |
| TimetableTexts.SignedExactly | backend/modules/domains/academics/foundation.py:101-110 | Around a number spaces are allowed and before it one sign, of which only the minus counts. |
| Timetable.ScanConflicts | backend/modules/domains/academics/foundation.py:172-196 | The scan that parses every row's stored texts again gives the specified first conflict, or the first unreadable row's error. |
| Timetable.ConflictOfExactly | backend/modules/domains/academics/foundation.py:172-196 | No message if and only if no consulted rule overlaps; a message names the group, or the teacher of another group, that an overlapping rule occupies. |
| Timetable.ClashIsOverlap | backend/modules/domains/academics/foundation.py:153-158 | The coarse test of weekday sets, date ranges and time ranges sees every real clash with a rule whose lessons lie in its stored range. |
| Timetable.LongOverlapHasDate | backend/modules/domains/academics/foundation.py:153-158 | Conversely, when the date ranges share at least seven days a reported conflict has a concrete date with a weekday of both, at overlapping times; it is a real clash unless one of the two leaves that date out. |
| Timetable.LongOverlapIsClash | backend/modules/domains/academics/foundation.py:153-158 | So when no date with a weekday of both is left out, seven shared days make every reported conflict real. |
| Timetable.ClashExactly | backend/modules/domains/academics/foundation.py:172-196 | For all ranges: a reported overlap is a real clash if and only if some date of both rules, left out by neither, has a weekday of both. |
| Timetable.ClashOnFields | backend/modules/domains/academics/foundation.py:153-158 | Two rules have lessons in a common minute if and only if their times overlap and some date of both, left out by neither, has a weekday of both. |
| Timetable.FirstLessonIs | backend/modules/domains/academics/calendar/scheduling.py:43-53 | The first generated date is the first open date of the range whose weekday is taught. |
| Timetable.ShortOverlapNeedNotClash | backend/modules/domains/academics/foundation.py:153-158 | For every number of shared days from 1 to 6 there are two rules that the test reports and that never meet. |
| Timetable.GeneratedOk | backend/modules/domains/academics/calendar/scheduling.py:23-55 | The generated dates are open teaching dates in order, none before the last one is missed, and as many as asked for. |
| Timetable.GenerateTeachingDates | backend/modules/domains/academics/calendar/scheduling.py:23-55 | The day-by-day search with its ten-year limit gives exactly those dates or reports that there are too few. |
| TimetableRuns.ValidateOk | backend/modules/domains/academics/timetable/service.py:35-97 | A request that passes names valid weekdays and times within one day, for an active group, over at most a year, and a given duration of 15 to 240 minutes is the lesson's length. |
| TimetableRuns.LessonsAreTaught | backend/modules/domains/academics/timetable/service.py:131-152 | Every generated lesson is one that the stored rule covers, minute by minute, and none is on a closed date of the group. |
| TimetableRuns.ScheduleKeepsInv | backend/modules/domains/academics/timetable/service.py:107-143 | A granted request, new or replacing the group's rule, keeps every group and every teacher free of double booking. |
| TimetableRuns.RescheduleExactly | backend/modules/domains/academics/timetable/service.py:327-349 | A granted change is safe at once; every lesson of every active rule lies in its stored range afterwards if and only if the launch date is not after the first of the moved lessons. |
| TimetableRuns.RunKeepsInv | backend/modules/domains/academics/timetable/service.py:107-349 | Over every run of requests, changes, new groups, archivals and new closed dates in which no granted change leaves a lesson before its launch date, no group or teacher has two lessons of active rules in the same minute of the same date. |
| TimetableRuns.TimetableStore.SaveSchedule | backend/modules/domains/academics/timetable/service.py:17-182 | In place: the outcome and the tables of a request, a refusal changing nothing, and the invariant kept. |
| TimetableRuns.TimetableStore.ChangeTimetable | backend/modules/domains/academics/timetable/service.py:259-349 | In place: the new version is stored and the old one cancelled, or nothing changes; the tables stay safe. |
| TimetableRuns.TimetableStore.FindLatest | backend/modules/domains/academics/timetable/repository.py:273-284 | The active rule of a group with the largest id. |
| TimetableRules.WeekdaysFollow | backend/modules/domains/academics/foundation.py:118-150 | Day 1 is a Monday and the seven weekdays follow each other. |
| TimetableRules.GeneratedExactly | backend/modules/domains/academics/calendar/scheduling.py:23-55 | Asked for a number of dates, the search answers if and only if ten years hold that many open ones, and ends on the date that makes up the number; asked for none in particular, it gives all open dates up to the end. |
| TimetableRules.ValidExactly | backend/modules/domains/academics/timetable/service.py:35-97 | A request is valid exactly when none of the listed causes stands against it, is refused for one of them otherwise, and stands for the slot that its texts and the calendar name. |
| TimetableRules.RequestExactly | backend/modules/domains/academics/timetable/service.py:107-152 | A valid request is granted exactly when no active rule is in its way, else names the group or teacher that one occupies; it is stored over the newest active rule of the group when that is to be replaced and as a further rule otherwise, and nothing else changes. |
| TimetableRules.ChangeValidExactly | backend/modules/domains/academics/timetable/service.py:259-325 | The same of the validation of a change, with the dates of the lessons that move. |
| TimetableRules.ChangeExactly | backend/modules/domains/academics/timetable/service.py:190-349 | A granted change stores its slot as a further rule and cancels the newest active one; the new rule starts on the caller's launch date when there was no active rule or the caller may choose, and otherwise where the cancelled one started. |
| TimetableRules.GroupsExactly | backend/modules/domains/academics/timetable/repository.py:273-302 | Opening, archiving and closing dates touch their own group alone, and only a group without any rule can be opened. |
| TimetableGaps.RequestForIs | backend/modules/domains/academics/timetable/service.py:35-97 | Every well-formed slot of at most a year with an open teaching date, closed dates as the group has them, is what some request, given as texts, asks for. |
| TimetableGaps.LateLaunchAdmitsClash | backend/modules/domains/academics/timetable/service.py:326-339 | For every granted change that launches after its first lesson there is a request that is then granted and double-books the group. |
| TimetableGaps.LaunchInTimeExactly | backend/modules/domains/academics/timetable/service.py:326-339 | After a granted change every further granted request is safe if and only if the change launches no later than its first lesson. |
| TimetableGaps.LateLaunchDoubleBooks | backend/modules/domains/academics/timetable/service.py:326-339 | Concrete change and request: the lesson moved before the launch date is not seen, and the teacher is double-booked. |
| TimetableGaps.RacingExactly | backend/modules/domains/academics/timetable/service.py:111-137 | Two requests that are both granted on the same table can both be stored safely if and only if they replace the same rule, or differ in group and teacher, or do not overlap in time, or have no date open to both, of both ranges, with a weekday of both. |
| TimetableGaps.RacingRequestsDoubleBook | backend/modules/domains/academics/timetable/service.py:111-137 | Concrete: two requests, both granted on the empty table, that double-book the teacher when both are stored. |
| TimetableGaps.MoveEndExactly | backend/modules/domains/academics/timetable/repository.py:298-302 | Moving a rule's end date is unchecked: it is safe if and only if no active rule of the group or teacher overlaps in time and shares a weekday on one of the added open dates. |
| TimetableGaps.MovedEndDoubleBooks | backend/modules/domains/academics/timetable/operations.py:108-109 | Concrete: two granted requests a week apart; a reflow that pushes the first rule's last date by that week double-books the teacher. |
| StageHistory.TimelineIsTheLog | database/alembic/versions/0022_hr_recruitment_operations_analytics.py:78-125 | A candidate's ordered events are exactly its events with a known stage, in (time, id) order. |
| StageHistory.ClosedIntervalsAbut | database/alembic/versions/0022_hr_recruitment_operations_analytics.py:97-153 | All events but a last one of the current stage become closed intervals, in event order, each ending where the next begins and none before its own start. |
| StageHistory.HistoryReplaysLog | database/alembic/versions/0022_hr_recruitment_operations_analytics.py:78-153 | At any time between the first and the last event exactly one closed interval is in force, and it shows the stage that replaying the log shows then. |
| StageHistory.RebuildFromRawLog | database/alembic/versions/0022_hr_recruitment_operations_analytics.py:78-153 | Every closed interval that is added comes from an event of the candidate whose own detail, stage for a creation, decision for a final decision and to for the other kinds, names the stage; it begins with the event and ends with the next one; and every such event but a last one of the current stage has its interval. |
| StageHistory.RebuildOpensCurrent | database/alembic/versions/0022_hr_recruitment_operations_analytics.py:138-174 | An open interval is added exactly for a candidate without one, in the current stage, since that stage was entered, else since the last update, else since the creation. |
| StageHistory.RebuildEstablishes | database/alembic/versions/0022_hr_recruitment_operations_analytics.py:78-179 | Afterwards every candidate has exactly one open interval, it shows the current stage, and every row meets the time constraint. |
| StageHistory.RebuiltRows | database/alembic/versions/0022_hr_recruitment_operations_analytics.py:78-179 | A candidate's rows are what was there, its closed intervals and an open one if there was none. |
| StageHistory.OpenFollowsExactly | database/alembic/versions/0022_hr_recruitment_operations_analytics.py:133-174 | When the open interval begins exactly where the last closed one ends. |
| StageHistory.LatestHoldIsLatest | database/alembic/versions/0023_remove_recruitment_on_hold.py:32-40 | The hold consulted is the unreleased one with the greatest (placed_at, id). |
| StageHistory.RestoresNewestOrigin | database/alembic/versions/0023_remove_recruitment_on_hold.py:20-58 | A candidate on hold returns to the origin of its newest active hold when that is one of five open stages, otherwise or without such a hold to Responded, with the change dated now and its version raised by one. |
| StageHistory.RemoveOnHoldKeepsHistory | database/alembic/versions/0023_remove_recruitment_on_hold.py:20-85 | One open interval each, matching stages and times all survive; nobody stays on hold, every hold is released, and past rows keep everything but an open row's end. |
| StageHistory.EndOnHoldExactly | database/alembic/versions/0023_remove_recruitment_on_hold.py:20-85 | What the migration does to each table, row by row: only open intervals of held candidates end, now or at a later start; only these candidates are restaged and get one new interval from now on; only active holds are released, now. |
| StageHistory.RepairSucceedsExactly | database/alembic/versions/0029_hr_recruitment_core.py:84-88 | The unguarded close meets the time constraint if and only if no interval that it closes begins in the future. |
| StageHistory.RepairKeepsOneOpenExactly | database/alembic/versions/0029_hr_recruitment_core.py:97-116 | The one-open rule survives if and only if no repaired candidate entered Under Review at the very time of the migration. |
| StageHistory.RepairKeepsHistory | database/alembic/versions/0029_hr_recruitment_core.py:62-116 | A repair that succeeds keeps past rows, stages and times and leaves no unsupported active teacher. |
| StageHistory.RepairExactly | database/alembic/versions/0029_hr_recruitment_core.py:62-116 | An active teacher is put back exactly when no teacher row of it is active and no academy row is neither promoted nor left; its open intervals end now, and no other row changes. |
| StageHistory.FutureAnchorStopsRepair | database/alembic/versions/0029_hr_recruitment_core.py:84-88 | Concrete: an open interval anchored at a future date makes the migration fail, with nothing changed. |
| StageHistory.RepeatedEntryLosesInterval | database/alembic/versions/0029_hr_recruitment_core.py:97-116 | Concrete: a skipped insert leaves a candidate without an open interval. |
| StageHistory.DeadlinesFollowTheStage | database/alembic/versions/0022_hr_recruitment_operations_analytics.py:138-174 | Every row that the rebuild, the end of On Hold or the repair adds is due the target days of its stage after its start, or never when the stage has no target. |
| StageHistory.CapMakesClosable | database/alembic/versions/0036_future_application_stage_history.py:26-36 | Afterwards every open interval begins at its former start or now, whichever is earlier, and can be closed at any later time; deadlines, stages, closed rows and the number of open intervals are untouched. |
| StageHistory.ClosableExactly | database/alembic/versions/0036_future_application_stage_history.py:26-36 | All open intervals can be closed at a time if and only if capping at that time changes nothing. |
| StageHistory.CapUnblocksRepair | database/alembic/versions/0036_future_application_stage_history.py:26-36 | On capped tables the earlier repair cannot fail. |
| StageHistory.RecruitmentTables.RebuildHistory | database/alembic/versions/0022_hr_recruitment_operations_analytics.py:78-179 | In place: the two inserts give the rebuilt tables and establish the rules. |
| StageHistory.RecruitmentTables.EndOnHold | database/alembic/versions/0023_remove_recruitment_on_hold.py:20-85 | In place: the statements in order give the specified tables and keep the rules. |
| StageHistory.RecruitmentTables.ReconcileActiveTeachers | database/alembic/versions/0029_hr_recruitment_core.py:62-116 | In place: the repaired tables, or the error with the tables as before, if and only if some closed interval begins in the future. |
| StageHistory.RecruitmentTables.CapFutureIntervals | database/alembic/versions/0036_future_application_stage_history.py:26-36 | In place: the capped tables, every open interval closable now. |
| Catalogue.ReasonGroupsOk | database/alembic/versions/0040_consolidate_recruitment_reasons.py:32-126 | The five literal groups meet every condition the proofs need: no canonical form of one is listed by another. |
| Catalogue.RoundsKeepCatalogue | database/alembic/versions/0040_consolidate_recruitment_reasons.py:127-236 | Values and labels stay unique within a category through all rounds, and no decision is lost. |
| Catalogue.KeptRow | database/alembic/versions/0040_consolidate_recruitment_reasons.py:167-188 | The option kept for a group is an existing row when there is one: a canonical value goes first, then a canonical label, then the preferred value, and otherwise the oldest. |
| Catalogue.DecisionsOtherwiseUnchanged | database/alembic/versions/0040_consolidate_recruitment_reasons.py:129-169 | Only the reason of the decision's own outcome is ever rewritten. |
| Catalogue.ResolvesExactly | database/alembic/versions/0040_consolidate_recruitment_reasons.py:26-236 | For every decision, resolved before or not: its reason names an option afterwards if and only if a condition read off the tables beforehand holds. |
| Catalogue.MergeKeepsResolved | database/alembic/versions/0040_consolidate_recruitment_reasons.py:26-236 | Without an option that carries a canonical label under an unlisted value, every reason that resolved before resolves afterwards. |
| Catalogue.LosesExactly | database/alembic/versions/0040_consolidate_recruitment_reasons.py:171-232 | A reason that resolved before is lost if and only if nothing names a group for it and its option bears an unlisted canonical label. |
| Catalogue.StrayLosesReason | database/alembic/versions/0040_consolidate_recruitment_reasons.py:171-232 | Concrete: with the new label already present under another value, a decision loses its option. |
| Catalogue.RoundsSettle | database/alembic/versions/0040_consolidate_recruitment_reasons.py:127-236 | Afterwards every group has one canonical option and no decision left to remap. |
| Catalogue.SecondRunIsIdle | database/alembic/versions/0040_consolidate_recruitment_reasons.py:26-236 | A second run changes nothing but timestamps. |
| Catalogue.ReasonTables.RemapDecisions | database/alembic/versions/0040_consolidate_recruitment_reasons.py:129-169 | In place: exactly the decisions of the group get its canonical value. |
| Catalogue.ReasonTables.MergeGroup | database/alembic/versions/0040_consolidate_recruitment_reasons.py:127-235 | In place: one pass of the loop remaps, keeps or inserts the canonical option and deletes its aliases. |
| Catalogue.ReasonTables.Consolidate | database/alembic/versions/0040_consolidate_recruitment_reasons.py:26-236 | In place: all five passes; the catalogue stays unique, every group ends settled and, without stray labels, no reason is lost. |
| CatalogueRules.NewReasonExactly | database/alembic/versions/0040_consolidate_recruitment_reasons.py:127-169 | The reason that a decision ends with: that of the group whose labels hold a withdrawal's own words; otherwise that of the first group that claims the reason, by value, label or its option's label; unclaimed decisions are untouched. |
| CatalogueRules.OptionsExactly | database/alembic/versions/0040_consolidate_recruitment_reasons.py:167-236 | Afterwards the catalogue holds every option that belongs to no group, unchanged, and otherwise only the groups' own options. |
| CatalogueRules.EachGroupHasItsOption | database/alembic/versions/0040_consolidate_recruitment_reasons.py:190-230 | Every group has its option with its own value, title and place, active, neither system nor legacy, dated now. |
| CatalogueRules.TrimIs | database/alembic/versions/0040_consolidate_recruitment_reasons.py:127-188 | The trimming behind all comparisons of labels takes away the spaces at both ends and nothing else. |
| BillingCycles.NextPeriodIsEarliest | database/alembic/versions/0050_student_billing_cycles.py:238-260 | For every moment and billing day up to 28 the chosen period is the one whose due instant comes first after now. |
| BillingCycles.NextPeriodNeedsDay28 | database/alembic/versions/0050_student_billing_cycles.py:238-260 | The bound is exact: a billing day works at every moment if and only if it is at most 28. |
| BillingCycles.DueFallsInPeriod | database/alembic/versions/0050_student_billing_cycles.py:329-334 | The due instant falls, in local time, at five past midnight of the billing day, within the period's month. |
| BillingCycles.MonthStartIsCivil | database/alembic/versions/0050_student_billing_cycles.py:238-260 | The months of the model begin where the civil calendar, by its closed form, has them begin, leap years and century rules included. |
| BillingCycles.OpensExactly | database/alembic/versions/0050_student_billing_cycles.py:238-343 | A profile gets a new cycle if and only if its next period has none, it and its student are active, the billing date lies within its range and some running item of it, at an active enrolment, is billed then; the cycle is for its student and that due instant. |
| BillingCycles.BillsExactly | database/alembic/versions/0050_student_billing_cycles.py:345-383 | A cycle without items gets, for every item of the profile that is active on the local due date, both ends included, one row for each active enrolment in its group, at its amount, in item order, and nothing else; a cycle that has items keeps them. |
| BillingCycles.ReviewsExactly | database/alembic/versions/0050_student_billing_cycles.py:385-402 | Exactly the scheduled cycles go to review whose student has a paid, unlinked manual or migrated invoice of that month that is not voided; the others keep state and version. |
| BillingCycles.QueriesAgree | database/alembic/versions/0050_student_billing_cycles.py:262-380 | The sum of the first query equals the total of the rows of the second on the same date. |
| BillingCycles.NewCyclesBalanced | database/alembic/versions/0050_student_billing_cycles.py:238-380 | Every cycle that the migration adds expects exactly the sum of its own items, is positive, is due first after now, and numbers its items from 0. |
| BillingCycles.MigrateKeepsCycles | database/alembic/versions/0050_student_billing_cycles.py:310-402 | Earlier cycles keep all but their review state, a profile has one cycle a period, and every due profile has one for its next period. |
| BillingCycles.BillingTables.InsertCycles | database/alembic/versions/0050_student_billing_cycles.py:310-343 | In place: the insert that skips taken periods, profile after profile. |
| BillingCycles.BillingTables.ScheduleCycles | database/alembic/versions/0050_student_billing_cycles.py:238-402 | In place: the three statements in order; every added cycle is balanced. |
| Codes.PaddedValue | database/alembic/versions/0005_canonical_account_identity.py:337-343 | A zero-padded number reads back as itself, whatever its width. |
| Codes.TeacherCodeInjective | database/alembic/versions/0005_canonical_account_identity.py:337-343 | Different numbers give different codes. |
| Codes.RecognisedExactly | database/alembic/versions/0005_canonical_account_identity.py:30-30 | A handed-out code has the form that later searches recognise if and only if its number is below 10000. |
| Codes.TenThousandIsUnseen | database/alembic/versions/0005_canonical_account_identity.py:30-30 | Concrete: the first code that is too wide. |
| Codes.WideCodeUnseen | database/alembic/versions/0005_canonical_account_identity.py:316-331 | A code of five digits is never counted as used, however often it is stored. |
| Codes.NextNumberIsLeast | database/alembic/versions/0005_canonical_account_identity.py:334-340 | The search ends, at the least positive number whose code is unused, at most one above the number of used codes. |
| Codes.NextTeacherCode | database/alembic/versions/0005_canonical_account_identity.py:334-340 | The loop terminates with that code and adds it to the used ones. |
| Codes.AdoptedAreUsed | database/alembic/versions/0005_canonical_account_identity.py:316-331 | Every code a teacher may keep is among the used codes read beforehand. |
| Codes.KeepsFirstCode | database/alembic/versions/0005_canonical_account_identity.py:374-391 | A teacher keeps the profile's code when it is one, else the account's, else the staff login's, trimmed and in capitals; the search runs exactly when none of the three is a code. |
| Codes.UsedCodesAre | database/alembic/versions/0005_canonical_account_identity.py:316-331 | The codes in use are exactly the rows that are codes, trimmed and in capitals. |
| Codes.BackfillDistinctExactly | database/alembic/versions/0005_canonical_account_identity.py:374-391 | All teachers end with distinct codes if and only if those that already had one had distinct ones. |
| Codes.SecondBackfillKeeps | database/alembic/versions/0005_canonical_account_identity.py:374-391 | When every login is a recognised code, a second backfill gives every teacher the same one. |
| Codes.NewCodeExactly | database/alembic/versions/0005_canonical_account_identity.py:334-391 | A teacher without a code gets the code of number n if and only if n is positive, its code is not among those used beforehand and exactly as many smaller numbers are free as earlier teachers of the list lack a code. |
| Codes.SecondBackfillExactly | database/alembic/versions/0005_canonical_account_identity.py:374-391 | A second backfill over the stored codes keeps a teacher's code if and only if it is a recognised one, or its number is free in the second run's used codes with exactly as many smaller free numbers as earlier stored codes are unrecognised. |
| Codes.FreedNumberChangesCode | database/alembic/versions/0005_canonical_account_identity.py:316-391 | Concrete: with codes 1 to 9999 in use a teacher gets TCH10000; once code 5 is free, a second backfill gives the same teacher TCH0005. |
| Codes.BackfillTeachers | database/alembic/versions/0005_canonical_account_identity.py:343-391 | The loop over all teachers with its growing set of used codes, and the exact condition for distinct results. |
| Codes.NextStudentCode | backend/modules/domains/academics/foundation.py:75-87 | The new code is none of the listed ones, and its number is one above a listed number or 1. |
| Codes.CountsExactly | backend/modules/domains/academics/foundation.py:80-86 | A listed code counts with a number exactly when it is the prefix followed by digits of that value and nothing else. |
| Codes.StudentCodeWidth | backend/modules/domains/academics/foundation.py:87-87 | A code has five digits below 100000 and more from there on. |
| Codes.PrefixIs | backend/modules/domains/academics/foundation.py:76-76 | The prefix is the text asked for, trimmed and in capitals, and MSI when that leaves nothing. |
| Codes.StudentCodeInjective | backend/modules/domains/academics/foundation.py:87-87 | Different numbers give different codes, also beyond five digits. |
| Chat.PageIs | backend/modules/domains/communications/chat_service.py:70-77 | Every page is the first forty rows after a cursor, or the last forty before one, of the room's undeleted messages, ascending in both cases. |
| Chat.PageBackAscends | backend/modules/domains/communications/chat_service.py:70-77 | A client that follows before_id receives its room's messages in order and none twice, whatever happens between the pages. |
| Chat.PageBackComplete | backend/modules/domains/communications/chat_repository.py:47-66 | Every message that stays visible until the empty page is received. |
| Chat.PageBackIsTheRoom | backend/modules/domains/communications/chat_repository.py:47-66 | Over an unchanging table the client ends with exactly the room's undeleted messages. |
| Chat.PollAscends | backend/modules/domains/communications/chat_repository.py:47-66 | A client that polls with after_id receives messages in id order and none twice. |
| Chat.PollDeliversExactly | backend/modules/domains/communications/chat_repository.py:47-66 | A message that becomes visible between two polls is received if and only if its id exceeds the client's cursor at that moment or, for a client that has received nothing yet, fewer than forty messages are newer. |
| Chat.LateCommitIsMissed | backend/modules/domains/communications/chat_repository.py:47-77 | Concrete: a client receives messages 1 and 3; message 2, whose transaction of another process commits only then, stays visible and is never received. |
| Chat.FirstPageIsAllExactly | backend/modules/domains/communications/chat_service.py:70-77 | The first page is the whole room if and only if the room has at most forty messages. |
| Chat.OwnedMeans | backend/modules/domains/communications/chat_service.py:96-101 | A message is somebody's own when it is there, not deleted, and the logins agree but for case and outer spaces. |
| Chat.ChatStore.SendMessage | backend/modules/domains/communications/chat_service.py:80-93 | A blocked student changes nothing; otherwise one message with a greater id than all is appended. |
| Chat.ChatStore.RequireOwned | backend/modules/domains/communications/chat_service.py:96-101 | The three answers: owned, somebody else's, not there or deleted. |
| Chat.ChatStore.EditMessage | backend/modules/domains/communications/chat_service.py:104-110 | Only the author's own undeleted message changes, and only its body and edit mark. |
| Chat.ChatStore.DeleteMessage | backend/modules/domains/communications/chat_service.py:113-120 | Only the author's own message is marked; it leaves every page of every room. |
| Names.CamelIsToCamel | backend/core/api/schemas.py:11-15 | Splitting, capitalising and joining is one left-to-right pass that drops underscores and raises the next character. |
| Names.RoundTripExactly | backend/core/api/schemas.py:11-21 | For every ASCII text: to the wire and back gives the text again if and only if it has no capitals and each underscore stands between something and a lower-case letter. |
| Names.AliasesAreDistinct | backend/core/api/schemas.py:11-15 | Distinct field names of that form never share a wire alias. |
| Names.DigitPartSharesAlias | backend/core/api/schemas.py:11-15 | An underscore before a digit is lost: the names with and without it share an alias. |
| Names.SessionFieldDoesNotReturn | backend/modules/domains/teacher_academy/schemas.py:85-85 | A declared field with a numbered part does not come back from its alias. |

## Left out

- WorkerRuns.Fencing: a process is sequential by construction, and the bodies of handlers are arbitrary outcomes.
- JobCommands.RunWorkerOnce: models one round; the polling loop with its stop event, logging and the trimming of error texts to 2000 characters are not modelled.
- OutboxJobs.OutboxRepository.InsertJob: payloads are opaque texts; created_at and updated_at are not kept.
- Lifecycle.CommittedBlock: a commit that fails is taken to publish nothing; a database that loses the answer to a successful commit is not modelled.
- Ledger.BecomesActive: the enrolments, parent links, billing profiles and notifications that an activation also writes are not modelled; of the Payme protocol only its effects on invoices and admissions are, not its messages, timeouts and identifiers, and invoices that belong to no admission are not.
- Ledger.LedgerTables.SettleInvoice: the access restrictions for overdue invoices that the finance pages reconcile afterwards, and the students' own invoices that they issue, are not modelled.
- Preloads.WalkedIsReachable: the recursion limit of the interpreter is not modelled, and the manifest is taken as already parsed.
- SafeJson.SafeDocumentRoundTrip: numbers are lexemes of the JSON grammar, so NaN and infinities are out; keys are texts, and characters are single units, so lone surrogates are out.
- TimetableRuns.RunKeepsInv: speaks of the lessons of active rules; lessons that a change leaves under the cancelled rule are not consulted by later checks, and requests are taken one after the other.
- TimetableRuns.RescheduleExactly: which lessons a change moves, and hence its anchor, is an input; the choice by scope and recorded history is not modelled. A lesson that later returns to a date which the rule left out is not covered.
- Timetable.ScanConflicts: which of several conflicts is reported depends on the order of the rows, here that of the table.
- TimetableTexts.NormalizeWeekdays: letters and digits are ASCII; the source also accepts other Unicode digits.
- StageHistory.RebuiltRows: comments, responsible accounts and the audit events that the migrations write are not modelled.
- Catalogue.ResolvesExactly: a missing reason or detail is read as an empty text, which no group lists.
- BillingCycles.NewCyclesBalanced: both queries read the same profiles, items and enrolments; a concurrent change between the two statements would break the equation. The cycles that the migration first copies from existing invoices, with their lines, are taken as given.
- BillingCycles.NextPeriodIsEarliest: moments from the year 2000 on, and the present offset of Tashkent.
- Codes.NextStudentCode: digits are ASCII, and the listed codes are those of the query by prefix.
- Codes.BackfillTeachers: accounts, password hashes and profile rows written beside the code are not modelled.
- Chat.PageBackComplete: time formats and room membership are not modelled.
- Names.RoundTripExactly: texts are ASCII; casing of other letters is not modelled.
- Downgrades of the migrations, pure schema changes, routes, middleware, sessions, page shells, file storage, messaging and the front end are not part of these models.
- Role and capability tables, cache headers and settings parsing are finite tables that would only add easy members.
