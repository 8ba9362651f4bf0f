/**
 The admission ledger: invoices, their lines and payments, and the activation
 of an admission whose first invoice is paid.

 Rows are numbered by their position.  An operation that raises is rolled back
 by its unit of work, so it leaves the tables as they were.
 */
module Ledger {
  import opened Wrappers
  import opened Numbers

  datatype AdmissionStatus =
    | Draft | ContractSent | ContractSubmitted | AwaitingPayment
    | Active | Cancelled | Expired | PaymentReview

  datatype ContractStatus = Uploaded | Sent | Submitted | Accepted | Rejected

  datatype InvoiceStatus = Issued | PartiallyPaid | Paid | Overdue | Voided

  datatype InvoiceKind = First | Monthly | Manual

  datatype PaymentSource = ByPayme | ByHand

  datatype PaymentStatus = Completed | Reversed | Refunded

  datatype Selection = Selection(groupId: nat, amountMinor: int)

  /** `student` is activated_student_id; `groups` are the selected groups, fixed at creation. */
  datatype Admission = Admission(
    school: nat,
    status: AdmissionStatus,
    version: nat,
    serviceStart: Option<int>,
    student: Option<nat>,
    groups: seq<Selection>)

  datatype Invoice = Invoice(
    admission: nat,
    kind: InvoiceKind,
    period: int,
    total: int,
    paid: int,
    status: InvoiceStatus,
    version: nat)

  datatype Line = Line(invoice: nat, groupId: nat, amount: int)

  datatype Payment = Payment(invoice: nat, source: PaymentSource, amount: int, status: PaymentStatus)

  /** `students` holds, for each student created, the admission it was created for. */
  datatype Db = Db(
    admissions: seq<Admission>,
    contracts: map<nat, ContractStatus>,
    invoices: seq<Invoice>,
    lines: seq<Line>,
    payments: seq<Payment>,
    students: seq<nat>,
    activationJobs: set<nat>,
    paymePending: set<nat>)

  datatype Scope = Scope(allSchools: bool, schools: set<nat>)
  {
    predicate Allows(school: nat) {
      allSchools || school in schools
    }
  }

  datatype Error =
    | NotFound | VersionConflict | CannotIssue | NoBillableGroups | CannotAcceptPayment
    | PaymePendingError | ExceedsBalance | ConstraintViolation | CannotReverse | CannotVoid
    | ContractRequired | FirstInvoiceUnpaid | GroupUnavailable | CannotSend | CannotSubmit
    | CannotReview | CannotCancel | DuplicateGroup | IncorrectAmount | CannotPerform

  // ---------------------------------------------------------------------- sums

  function SumGroups(groups: seq<Selection>): int {
    if groups == [] then 0 else SumGroups(groups[..|groups| - 1]) + groups[|groups| - 1].amountMinor
  }

  function LinePart(l: Line, invoice: nat): int {
    if l.invoice == invoice then l.amount else 0
  }

  function SumLines(lines: seq<Line>, invoice: nat): int {
    if lines == [] then 0
    else SumLines(lines[..|lines| - 1], invoice) + LinePart(lines[|lines| - 1], invoice)
  }

  function PaidPart(p: Payment, invoice: nat): int {
    if p.invoice == invoice && p.status.Completed? then p.amount else 0
  }

  /** What the completed payments of an invoice add up to. */
  function SumPaid(payments: seq<Payment>, invoice: nat): int {
    if payments == [] then 0
    else SumPaid(payments[..|payments| - 1], invoice) + PaidPart(payments[|payments| - 1], invoice)
  }

  // ------------------------------------------------------------------- policies

  function StatusForBalance(total: int, paid: int): InvoiceStatus {
    if paid <= 0 then Issued else if paid < total then PartiallyPaid else Paid
  }

  predicate CanAcceptPayment(status: InvoiceStatus) {
    status.Issued? || status.PartiallyPaid? || status.Overdue?
  }

  predicate CanIssue(db: Db, a: nat)
    requires a < |db.admissions|
  {
    && a in db.contracts && db.contracts[a].Accepted?
    && (var s := db.admissions[a].status; s.ContractSubmitted? || s.AwaitingPayment? || s.Active?)
  }

  // -------------------------------------------------------------------- queries

  predicate Matching(inv: Invoice, a: nat, period: int, kind: InvoiceKind) {
    inv.admission == a && inv.period == period && inv.kind == kind && !inv.status.Voided?
  }

  /** The newest invoice of the period and kind that is not voided. */
  function FindForPeriod(invoices: seq<Invoice>, a: nat, period: int, kind: InvoiceKind): (r: Option<nat>)
    ensures r.Some? ==> r.value < |invoices| && Matching(invoices[r.value], a, period, kind)
    ensures r.None? ==> forall i :: 0 <= i < |invoices| ==> !Matching(invoices[i], a, period, kind)
  {
    if invoices == [] then None
    else if Matching(invoices[|invoices| - 1], a, period, kind) then Some(|invoices| - 1)
    else FindForPeriod(invoices[..|invoices| - 1], a, period, kind)
  }

  predicate IsFirstOf(inv: Invoice, a: nat) {
    inv.admission == a && inv.kind.First? && !inv.status.Voided?
  }

  /** The newest first invoice of the admission that is not voided. */
  function FirstInvoice(invoices: seq<Invoice>, a: nat): (r: Option<nat>)
    ensures r.Some? ==> r.value < |invoices| && IsFirstOf(invoices[r.value], a)
    ensures r.Some? ==> forall i :: r.value < i < |invoices| ==> !IsFirstOf(invoices[i], a)
    ensures r.None? ==> forall i :: 0 <= i < |invoices| ==> !IsFirstOf(invoices[i], a)
  {
    if invoices == [] then None
    else if IsFirstOf(invoices[|invoices| - 1], a) then Some(|invoices| - 1)
    else FirstInvoice(invoices[..|invoices| - 1], a)
  }

  predicate InScope(db: Db, a: nat, scope: Scope) {
    a < |db.admissions| && scope.Allows(db.admissions[a].school)
  }

  // ----------------------------------------------------------------- operations

  function LinesFor(groups: seq<Selection>, invoice: nat): seq<Line> {
    if groups == [] then []
    else LinesFor(groups[..|groups| - 1], invoice)
         + [Line(invoice, groups[|groups| - 1].groupId, groups[|groups| - 1].amountMinor)]
  }

  function IssueInvoice(db: Db, a: nat, period: int, kind: InvoiceKind, scope: Scope): Result<Db, Error> {
    if !InScope(db, a, scope) then Failure(NotFound)
    else if !CanIssue(db, a) then Failure(CannotIssue)
    else if FindForPeriod(db.invoices, a, period, kind).Some? then Success(db)
    else
      var total := SumGroups(db.admissions[a].groups);
      if total <= 0 then Failure(NoBillableGroups)
      else Success(db.(
        invoices := db.invoices + [Invoice(a, kind, period, total, 0, Issued, 1)],
        lines := db.lines + LinesFor(db.admissions[a].groups, |db.invoices|)))
  }

  predicate GroupsAvailable(groups: seq<Selection>, available: set<nat>) {
    forall i :: 0 <= i < |groups| ==> groups[i].groupId in available
  }

  predicate FirstInvoicePaid(db: Db, a: nat) {
    var first := FirstInvoice(db.invoices, a);
    first.Some? && db.invoices[first.value].status.Paid?
  }

  /** `available` are the groups of the school that are still open. */
  function Activate(db: Db, a: nat, available: set<nat>): Result<Db, Error> {
    if a >= |db.admissions| then Failure(NotFound)
    else if db.admissions[a].status.Active? then Success(db)
    else if a !in db.contracts || !db.contracts[a].Accepted? then Failure(ContractRequired)
    else if !FirstInvoicePaid(db, a) then Failure(FirstInvoiceUnpaid)
    else if !GroupsAvailable(db.admissions[a].groups, available) then Failure(GroupUnavailable)
    else Success(Activated(db, a))
  }

  function Activated(db: Db, a: nat): Db
    requires a < |db.admissions|
  {
    var row := db.admissions[a];
    db.(students := db.students + [a],
        admissions := db.admissions[a := row.(status := Active, student := Some(|db.students|), version := row.version + 1)],
        activationJobs := db.activationJobs + {a})
  }

  /** The tables after the payment row and the invoice update, before any activation. */
  function Paying(db: Db, i: nat, amount: int, source: PaymentSource): Db
    requires i < |db.invoices|
  {
    var inv := db.invoices[i];
    db.(payments := db.payments + [Payment(i, source, amount, Completed)],
        invoices := db.invoices[i := inv.(paid := inv.paid + amount,
                                          status := StatusForBalance(inv.total, inv.paid + amount),
                                          version := inv.version + 1)])
  }

  function RecordPayment(db: Db, i: nat, amount: int, expected: nat, scope: Scope, available: set<nat>): Result<Db, Error> {
    if i >= |db.invoices| || !InScope(db, db.invoices[i].admission, scope) then Failure(NotFound)
    else if db.invoices[i].version != expected then Failure(VersionConflict)
    else if !CanAcceptPayment(db.invoices[i].status) then Failure(CannotAcceptPayment)
    else if i in db.paymePending then Failure(PaymePendingError)
    else if amount > db.invoices[i].total - db.invoices[i].paid then Failure(ExceedsBalance)
    else if amount <= 0 then Failure(ConstraintViolation)
    else
      var next := Paying(db, i, amount, ByHand);
      if next.invoices[i].status.Paid? && next.invoices[i].kind.First? then
        Activate(next, next.invoices[i].admission, available)
      else Success(next)
  }

  function Reviewed(row: Admission, today: int): Admission {
    if row.status.Cancelled? || row.status.Expired? then row
    else row.(status := if row.serviceStart.None? || row.serviceStart.value > today then AwaitingPayment else PaymentReview,
              version := row.version + 1)
  }

  function ReversePayment(db: Db, k: nat, expected: nat, scope: Scope, today: int): Result<Db, Error> {
    if k >= |db.payments| || db.payments[k].invoice >= |db.invoices| then Failure(NotFound)
    else
      var i := db.payments[k].invoice;
      var inv := db.invoices[i];
      if !InScope(db, inv.admission, scope) then Failure(NotFound)
      else if inv.version != expected then Failure(VersionConflict)
      else if !(db.payments[k].source.ByHand? && db.payments[k].status.Completed?) then Failure(CannotReverse)
      else
        var paid := Max(0, inv.paid - db.payments[k].amount);
        Success(db.(
          payments := db.payments[k := db.payments[k].(status := Reversed)],
          invoices := db.invoices[i := inv.(paid := paid, status := StatusForBalance(inv.total, paid), version := inv.version + 1)],
          admissions := db.admissions[inv.admission := Reviewed(db.admissions[inv.admission], today)]))
  }

  /** The provider may take a payment only from an admission that awaits one and could be activated. */
  predicate Payable(db: Db, i: nat, available: set<nat>)
    requires i < |db.invoices|
  {
    var a := db.invoices[i].admission;
    && CanAcceptPayment(db.invoices[i].status)
    && a in db.contracts && db.contracts[a].Accepted?
    && a < |db.admissions| && db.admissions[a].status.AwaitingPayment?
    && db.admissions[a].groups != [] && GroupsAvailable(db.admissions[a].groups, available)
  }

  /** The provider performs its pending transaction for an invoice; whatever its kind, the admission is activated. */
  function PerformPayme(db: Db, i: nat, amount: int, available: set<nat>): Result<Db, Error> {
    if i >= |db.invoices| || i !in db.paymePending then Failure(NotFound)
    else if amount != db.invoices[i].total - db.invoices[i].paid then Failure(IncorrectAmount)
    else if !Payable(db, i, available) then Failure(CannotPerform)
    else if amount <= 0 then Failure(ConstraintViolation)
    else
      var next := Paying(db, i, amount, ByPayme).(paymePending := db.paymePending - {i});
      Activate(next, next.invoices[i].admission, available)
  }

  /** The provider takes a performed payment back; `late` says that the invoice is past its due date. */
  function RefundPayme(db: Db, k: nat, late: bool, today: int): Result<Db, Error> {
    if k >= |db.payments| || db.payments[k].invoice >= |db.invoices| then Failure(NotFound)
    else
      var i := db.payments[k].invoice;
      var inv := db.invoices[i];
      if !(db.payments[k].source.ByPayme? && db.payments[k].status.Completed?) || inv.admission >= |db.admissions| then
        Failure(CannotReverse)
      else
        var paid := Max(0, inv.paid - db.payments[k].amount);
        var status := if paid == 0 && late then Overdue else if paid == 0 then Issued else PartiallyPaid;
        Success(db.(
          payments := db.payments[k := db.payments[k].(status := Refunded)],
          invoices := db.invoices[i := inv.(paid := paid, status := status, version := inv.version + 1)],
          admissions := db.admissions[inv.admission := Reviewed(db.admissions[inv.admission], today)]))
  }

  /** The finance pages recompute an invoice from its completed payments; `late` says that it is past its due date. */
  function Settled(inv: Invoice, sum: int, late: bool): Invoice {
    inv.(paid := Min(sum, inv.total),
         status := if sum >= inv.total then Paid else if sum > 0 then PartiallyPaid else if late then Overdue else Issued,
         version := inv.version + 1)
  }

  function FinancePay(db: Db, i: nat, amount: int, expected: nat, scope: Scope, late: bool): Result<Db, Error> {
    if i >= |db.invoices| || !InScope(db, db.invoices[i].admission, scope) then Failure(NotFound)
    else if db.invoices[i].version != expected then Failure(VersionConflict)
    else if !CanAcceptPayment(db.invoices[i].status) then Failure(CannotAcceptPayment)
    else if amount > db.invoices[i].total - db.invoices[i].paid then Failure(ExceedsBalance)
    else if i in db.paymePending then Failure(PaymePendingError)
    else if amount <= 0 then Failure(ConstraintViolation)
    else
      var payments := db.payments + [Payment(i, ByHand, amount, Completed)];
      Success(db.(payments := payments, invoices := db.invoices[i := Settled(db.invoices[i], SumPaid(payments, i), late)]))
  }

  function FinanceReverse(db: Db, k: nat, expected: nat, scope: Scope, late: bool): Result<Db, Error> {
    if k >= |db.payments| || db.payments[k].invoice >= |db.invoices| then Failure(NotFound)
    else
      var i := db.payments[k].invoice;
      if !InScope(db, db.invoices[i].admission, scope) then Failure(NotFound)
      else if db.invoices[i].version != expected then Failure(VersionConflict)
      else if !(db.payments[k].status.Completed? && db.payments[k].source.ByHand?) then Failure(CannotReverse)
      else
        var payments := db.payments[k := db.payments[k].(status := Reversed)];
        Success(db.(payments := payments, invoices := db.invoices[i := Settled(db.invoices[i], SumPaid(payments, i), late)]))
  }

  /** A pending transaction of the provider does not stop this void. */
  function FinanceVoid(db: Db, i: nat, expected: nat, scope: Scope): Result<Db, Error> {
    if i >= |db.invoices| || !InScope(db, db.invoices[i].admission, scope) then Failure(NotFound)
    else if db.invoices[i].status.Voided? || db.invoices[i].paid > 0 || db.invoices[i].status.Paid? then Failure(CannotVoid)
    else if db.invoices[i].version != expected || db.invoices[i].paid != 0 then Failure(VersionConflict)
    else Success(db.(invoices := db.invoices[i := db.invoices[i].(status := Voided, version := db.invoices[i].version + 1)]))
  }

  function VoidInvoice(db: Db, i: nat, expected: nat, scope: Scope): Result<Db, Error> {
    if i >= |db.invoices| || !InScope(db, db.invoices[i].admission, scope) then Failure(NotFound)
    else if i in db.paymePending then Failure(PaymePendingError)
    else
      var inv := db.invoices[i];
      if inv.version == expected && inv.paid == 0 && (inv.status.Issued? || inv.status.Overdue?) then
        Success(db.(invoices := db.invoices[i := inv.(status := Voided, version := inv.version + 1)]))
      else Failure(CannotVoid)
  }

  predicate DistinctGroups(groups: seq<Selection>) {
    forall i, j :: 0 <= i < j < |groups| ==> groups[i].groupId != groups[j].groupId
  }

  function CreateAdmission(db: Db, school: nat, serviceStart: Option<int>, groups: seq<Selection>,
                           scope: Scope, available: set<nat>): Result<Db, Error>
  {
    if !scope.Allows(school) then Failure(NotFound)
    else if !DistinctGroups(groups) then Failure(DuplicateGroup)
    else if !GroupsAvailable(groups, available) then Failure(GroupUnavailable)
    else if exists i :: 0 <= i < |groups| && groups[i].amountMinor <= 0 then Failure(ConstraintViolation)
    else Success(db.(admissions := db.admissions + [Admission(school, Draft, 1, serviceStart, None, groups)]))
  }

  function WithStatus(db: Db, a: nat, status: AdmissionStatus): Db
    requires a < |db.admissions|
  {
    db.(admissions := db.admissions[a := db.admissions[a].(status := status, version := db.admissions[a].version + 1)])
  }

  predicate CanSend(status: AdmissionStatus) {
    status.Draft? || status.ContractSent? || status.ContractSubmitted?
  }

  /** A new upload supersedes the current contract. */
  function AddContract(db: Db, a: nat, scope: Scope): Result<Db, Error> {
    if !InScope(db, a, scope) then Failure(NotFound)
    else if !CanSend(db.admissions[a].status) then Failure(CannotSend)
    else Success(db.(contracts := db.contracts[a := Uploaded]))
  }

  function SendContract(db: Db, a: nat, scope: Scope): Result<Db, Error> {
    if !InScope(db, a, scope) then Failure(NotFound)
    else if !CanSend(db.admissions[a].status) then Failure(CannotSend)
    else if a !in db.contracts then Failure(ContractRequired)
    else Success(WithStatus(db.(contracts := db.contracts[a := Sent]), a, ContractSent))
  }

  /** Sent by the public link: only the contract's own status is checked. */
  function SubmitContract(db: Db, a: nat): Result<Db, Error> {
    if a >= |db.admissions| then Failure(NotFound)
    else if a !in db.contracts then Failure(ContractRequired)
    else if !(db.contracts[a].Sent? || db.contracts[a].Rejected?) then Failure(CannotSubmit)
    else Success(WithStatus(db.(contracts := db.contracts[a := Submitted]), a, ContractSubmitted))
  }

  function ReviewContract(db: Db, a: nat, accepted: bool, scope: Scope): Result<Db, Error> {
    if !InScope(db, a, scope) then Failure(NotFound)
    else if a !in db.contracts then Failure(ContractRequired)
    else if !db.contracts[a].Submitted? then Failure(CannotReview)
    else Success(WithStatus(db.(contracts := db.contracts[a := if accepted then Accepted else Rejected]), a,
                            if accepted then AwaitingPayment else ContractSent))
  }

  function CancelAdmission(db: Db, a: nat, expected: nat, scope: Scope): Result<Db, Error> {
    if !InScope(db, a, scope) then Failure(NotFound)
    else if db.admissions[a].version != expected || db.admissions[a].status.Active? || db.admissions[a].status.Cancelled? then
      Failure(CannotCancel)
    else Success(WithStatus(db, a, Cancelled))
  }

  // ----------------------------------------------------------------------- runs

  /** The last two stand for other parts of the system: the overdue mark, and the provider opening or dropping a transaction. */
  datatype Action =
    | Create(school: nat, serviceStart: Option<int>, groups: seq<Selection>, scope: Scope, available: set<nat>)
    | Upload(a: nat, scope: Scope)
    | Send(a: nat, scope: Scope)
    | Submit(a: nat)
    | Review(a: nat, accepted: bool, scope: Scope)
    | Cancel(a: nat, expected: nat, scope: Scope)
    | Issue(a: nat, period: int, kind: InvoiceKind, scope: Scope)
    | Pay(i: nat, amount: int, expected: nat, scope: Scope, available: set<nat>)
    | Reverse(k: nat, expected: nat, scope: Scope, today: int)
    | Void(i: nat, expected: nat, scope: Scope)
    | ProviderPay(i: nat, amount: int, available: set<nat>)
    | ProviderRefund(k: nat, late: bool, today: int)
    | SettleByHand(i: nat, amount: int, expected: nat, scope: Scope, late: bool)
    | Unsettle(k: nat, expected: nat, scope: Scope, late: bool)
    | Discard(i: nat, expected: nat, scope: Scope)
    | MarkOverdue(i: nat)
    | SetPaymePending(i: nat, pending: bool)

  function Perform(db: Db, action: Action): Result<Db, Error> {
    match action
    case Create(school, start, groups, scope, available) => CreateAdmission(db, school, start, groups, scope, available)
    case Upload(a, scope) => AddContract(db, a, scope)
    case Send(a, scope) => SendContract(db, a, scope)
    case Submit(a) => SubmitContract(db, a)
    case Review(a, accepted, scope) => ReviewContract(db, a, accepted, scope)
    case Cancel(a, expected, scope) => CancelAdmission(db, a, expected, scope)
    case Issue(a, period, kind, scope) => IssueInvoice(db, a, period, kind, scope)
    case Pay(i, amount, expected, scope, available) => RecordPayment(db, i, amount, expected, scope, available)
    case Reverse(k, expected, scope, today) => ReversePayment(db, k, expected, scope, today)
    case Void(i, expected, scope) => VoidInvoice(db, i, expected, scope)
    case ProviderPay(i, amount, available) => PerformPayme(db, i, amount, available)
    case ProviderRefund(k, late, today) => RefundPayme(db, k, late, today)
    case SettleByHand(i, amount, expected, scope, late) => FinancePay(db, i, amount, expected, scope, late)
    case Unsettle(k, expected, scope, late) => FinanceReverse(db, k, expected, scope, late)
    case Discard(i, expected, scope) => FinanceVoid(db, i, expected, scope)
    case MarkOverdue(i) =>
      if i < |db.invoices| && db.invoices[i].status.Issued? then
        Success(db.(invoices := db.invoices[i := db.invoices[i].(status := Overdue, version := db.invoices[i].version + 1)]))
      else Failure(NotFound)
    case SetPaymePending(i, pending) =>
      Success(db.(paymePending := if pending then db.paymePending + {i} else db.paymePending - {i}))
  }

  /** A failed action is rolled back. */
  function Step(db: Db, action: Action): Db {
    match Perform(db, action)
    case Success(next) => next
    case Failure(_) => db
  }

  function Run(db: Db, actions: seq<Action>): Db
    decreases |actions|
  {
    if actions == [] then db else Run(Step(db, actions[0]), actions[1..])
  }

  const EMPTY: Db := Db([], map[], [], [], [], [], {}, {})

  // ------------------------------------------------------------------ invariant

  predicate StatusOk(inv: Invoice) {
    if inv.status.Voided? then inv.paid == 0
    else if inv.status.Overdue? then inv.paid < inv.total
    else inv.status == StatusForBalance(inv.total, inv.paid)
  }

  /** The books of one invoice balance. */
  predicate InvoiceOk(db: Db, i: nat)
    requires i < |db.invoices|
  {
    var inv := db.invoices[i];
    && inv.admission < |db.admissions|
    && inv.total == SumLines(db.lines, i) && inv.total > 0
    && inv.paid == SumPaid(db.payments, i) && 0 <= inv.paid <= inv.total
    && StatusOk(inv)
  }

  predicate PaymentsOk(db: Db) {
    forall k :: 0 <= k < |db.payments| ==> db.payments[k].invoice < |db.invoices| && db.payments[k].amount > 0
  }

  predicate LinesOk(db: Db) {
    forall k :: 0 <= k < |db.lines| ==> db.lines[k].invoice < |db.invoices|
  }

  predicate OnePerPeriod(invoices: seq<Invoice>) {
    forall i, j :: 0 <= i < j < |invoices| && !invoices[i].status.Voided? ==>
      !Matching(invoices[j], invoices[i].admission, invoices[i].period, invoices[i].kind)
  }

  predicate LedgerOk(db: Db) {
    && PaymentsOk(db) && LinesOk(db) && OnePerPeriod(db.invoices)
    && (forall i :: 0 <= i < |db.invoices| ==> InvoiceOk(db, i))
  }

  // ------------------------------------------------------------ facts about sums

  lemma {:induction false} SumPaidFresh(payments: seq<Payment>, invoice: nat)
    requires forall k :: 0 <= k < |payments| ==> payments[k].invoice != invoice
    ensures SumPaid(payments, invoice) == 0
  {
    if payments != [] {
      SumPaidFresh(payments[..|payments| - 1], invoice);
    }
  }

  lemma {:induction false} SumLinesFresh(lines: seq<Line>, invoice: nat)
    requires forall k :: 0 <= k < |lines| ==> lines[k].invoice != invoice
    ensures SumLines(lines, invoice) == 0
  {
    if lines != [] {
      SumLinesFresh(lines[..|lines| - 1], invoice);
    }
  }

  lemma SumPaidAppend(payments: seq<Payment>, p: Payment, invoice: nat)
    ensures SumPaid(payments + [p], invoice) == SumPaid(payments, invoice) + PaidPart(p, invoice)
  {
    assert (payments + [p])[..|payments|] == payments;
  }

  lemma {:induction false} SumPaidUpdate(payments: seq<Payment>, k: nat, p: Payment, invoice: nat)
    requires k < |payments|
    ensures SumPaid(payments[k := p], invoice)
            == SumPaid(payments, invoice) - PaidPart(payments[k], invoice) + PaidPart(p, invoice)
  {
    var n := |payments| - 1;
    if k == n {
      assert payments[k := p][..n] == payments[..n];
    } else {
      assert payments[k := p][..n] == payments[..n][k := p];
      SumPaidUpdate(payments[..n], k, p, invoice);
    }
  }

  /** A single completed payment is never more than all of them together. */
  lemma {:induction false} PaymentWithinSum(payments: seq<Payment>, k: nat)
    requires k < |payments| && forall j :: 0 <= j < |payments| ==> payments[j].amount > 0
    ensures PaidPart(payments[k], payments[k].invoice) <= SumPaid(payments, payments[k].invoice)
  {
    var n := |payments| - 1;
    SumPaidNonNegative(payments[..n], payments[k].invoice);
    if k < n {
      assert payments[..n][k] == payments[k];
      PaymentWithinSum(payments[..n], k);
    }
  }

  lemma {:induction false} SumPaidNonNegative(payments: seq<Payment>, invoice: nat)
    requires forall j :: 0 <= j < |payments| ==> payments[j].amount > 0
    ensures SumPaid(payments, invoice) >= 0
  {
    if payments != [] {
      SumPaidNonNegative(payments[..|payments| - 1], invoice);
    }
  }

  /** The lines copied from the selections add up to the total computed from them. */
  lemma {:induction false} SumLinesFor(lines: seq<Line>, groups: seq<Selection>, invoice: nat, i: nat)
    ensures SumLines(lines + LinesFor(groups, invoice), i)
            == SumLines(lines, i) + (if i == invoice then SumGroups(groups) else 0)
  {
    if groups == [] {
      assert lines + [] == lines;
    } else {
      var n := |groups| - 1;
      var all := lines + LinesFor(groups, invoice);
      assert all[..|all| - 1] == lines + LinesFor(groups[..n], invoice);
      SumLinesFor(lines, groups[..n], invoice, i);
    }
  }

  lemma {:induction false} LinesForInvoice(groups: seq<Selection>, invoice: nat)
    ensures forall k :: 0 <= k < |LinesFor(groups, invoice)| ==> LinesFor(groups, invoice)[k].invoice == invoice
  {
    if groups != [] {
      LinesForInvoice(groups[..|groups| - 1], invoice);
    }
  }

  // --------------------------------------------------------- steps keep the books

  lemma IssueKeepsLedger(db: Db, a: nat, period: int, kind: InvoiceKind, scope: Scope)
    requires LedgerOk(db) && IssueInvoice(db, a, period, kind, scope).Success?
    ensures LedgerOk(IssueInvoice(db, a, period, kind, scope).value)
  {
    var next := IssueInvoice(db, a, period, kind, scope).value;
    if next != db {
      var groups := db.admissions[a].groups;
      var n := |db.invoices|;
      LinesForInvoice(groups, n);
      SumPaidFresh(db.payments, n);
      SumLinesFresh(db.lines, n);
      forall i | 0 <= i < |next.invoices|
        ensures InvoiceOk(next, i)
      {
        SumLinesFor(db.lines, groups, n, i);
        assert i < n ==> InvoiceOk(db, i);
      }
    }
  }

  lemma PayingKeepsLedger(db: Db, i: nat, amount: int, source: PaymentSource)
    requires LedgerOk(db) && i < |db.invoices| && CanAcceptPayment(db.invoices[i].status)
    requires 0 < amount <= db.invoices[i].total - db.invoices[i].paid
    ensures LedgerOk(Paying(db, i, amount, source))
  {
    var next := Paying(db, i, amount, source);
    forall j | 0 <= j < |next.invoices|
      ensures InvoiceOk(next, j)
    {
      assert InvoiceOk(db, j);
      SumPaidAppend(db.payments, Payment(i, source, amount, Completed), j);
    }
  }

  lemma ReverseKeepsLedger(db: Db, k: nat, expected: nat, scope: Scope, today: int)
    requires LedgerOk(db) && ReversePayment(db, k, expected, scope, today).Success?
    ensures LedgerOk(ReversePayment(db, k, expected, scope, today).value)
    ensures db.invoices[db.payments[k].invoice].paid - db.payments[k].amount >= 0
  {
    var next := ReversePayment(db, k, expected, scope, today).value;
    var i := db.payments[k].invoice;
    PaymentWithinSum(db.payments, k);
    assert InvoiceOk(db, i);
    forall j | 0 <= j < |next.invoices|
      ensures InvoiceOk(next, j)
    {
      assert InvoiceOk(db, j);
      SumPaidUpdate(db.payments, k, db.payments[k].(status := Reversed), j);
    }
  }

  lemma RefundKeepsLedger(db: Db, k: nat, late: bool, today: int)
    requires LedgerOk(db) && RefundPayme(db, k, late, today).Success?
    ensures LedgerOk(RefundPayme(db, k, late, today).value)
    ensures db.invoices[db.payments[k].invoice].paid - db.payments[k].amount >= 0
  {
    var next := RefundPayme(db, k, late, today).value;
    var i := db.payments[k].invoice;
    PaymentWithinSum(db.payments, k);
    assert InvoiceOk(db, i);
    forall j | 0 <= j < |next.invoices|
      ensures InvoiceOk(next, j)
    {
      assert InvoiceOk(db, j);
      SumPaidUpdate(db.payments, k, db.payments[k].(status := Refunded), j);
    }
  }

  /** The LEAST(sum, total) of the finance pages never clips: the completed payments stay within the total. */
  lemma FinancePayKeepsLedger(db: Db, i: nat, amount: int, expected: nat, scope: Scope, late: bool)
    requires LedgerOk(db) && FinancePay(db, i, amount, expected, scope, late).Success?
    ensures LedgerOk(FinancePay(db, i, amount, expected, scope, late).value)
    ensures var next := FinancePay(db, i, amount, expected, scope, late).value;
            SumPaid(next.payments, i) == next.invoices[i].paid == db.invoices[i].paid + amount <= db.invoices[i].total
  {
    var next := FinancePay(db, i, amount, expected, scope, late).value;
    assert InvoiceOk(db, i);
    SumPaidAppend(db.payments, Payment(i, ByHand, amount, Completed), i);
    forall j | 0 <= j < |next.invoices|
      ensures InvoiceOk(next, j)
    {
      assert InvoiceOk(db, j);
      SumPaidAppend(db.payments, Payment(i, ByHand, amount, Completed), j);
    }
  }

  lemma FinanceReverseKeepsLedger(db: Db, k: nat, expected: nat, scope: Scope, late: bool)
    requires LedgerOk(db) && FinanceReverse(db, k, expected, scope, late).Success?
    ensures LedgerOk(FinanceReverse(db, k, expected, scope, late).value)
    ensures var next, i := FinanceReverse(db, k, expected, scope, late).value, db.payments[k].invoice;
            SumPaid(next.payments, i) == next.invoices[i].paid == db.invoices[i].paid - db.payments[k].amount
  {
    var next := FinanceReverse(db, k, expected, scope, late).value;
    var i := db.payments[k].invoice;
    PaymentWithinSum(db.payments, k);
    assert InvoiceOk(db, i);
    SumPaidUpdate(db.payments, k, db.payments[k].(status := Reversed), i);
    forall j | 0 <= j < |next.invoices|
      ensures InvoiceOk(next, j)
    {
      assert InvoiceOk(db, j);
      SumPaidUpdate(db.payments, k, db.payments[k].(status := Reversed), j);
    }
  }

  /** Changes that leave payments and lines alone and keep every invoice's amounts. */
  lemma OtherwiseKeepsLedger(db: Db, next: Db)
    requires LedgerOk(db)
    requires next.payments == db.payments && next.lines == db.lines
    requires |next.admissions| >= |db.admissions| && |next.invoices| == |db.invoices|
    requires forall i :: 0 <= i < |db.invoices| ==>
               && next.invoices[i].(status := db.invoices[i].status, version := db.invoices[i].version) == db.invoices[i]
               && StatusOk(next.invoices[i])
               && (db.invoices[i].status.Voided? ==> next.invoices[i].status.Voided?)
    ensures LedgerOk(next)
  {
    forall i | 0 <= i < |next.invoices|
      ensures InvoiceOk(next, i)
    {
      assert InvoiceOk(db, i);
    }
    forall i, j | 0 <= i < j < |next.invoices| && !next.invoices[i].status.Voided?
      ensures !Matching(next.invoices[j], next.invoices[i].admission, next.invoices[i].period, next.invoices[i].kind)
    {
      assert !Matching(db.invoices[j], db.invoices[i].admission, db.invoices[i].period, db.invoices[i].kind);
    }
  }

  lemma StatusesOk(db: Db)
    requires LedgerOk(db)
    ensures forall j :: 0 <= j < |db.invoices| ==> StatusOk(db.invoices[j])
  {
    forall j | 0 <= j < |db.invoices|
      ensures StatusOk(db.invoices[j])
    {
      assert InvoiceOk(db, j);
    }
  }

  lemma StepKeepsLedger(db: Db, action: Action)
    requires LedgerOk(db)
    ensures LedgerOk(Step(db, action))
  {
    if Perform(db, action).Success? {
      match action
      case Issue(a, period, kind, scope) => IssueKeepsLedger(db, a, period, kind, scope);
      case Pay(i, amount, expected, scope, available) =>
        PayingKeepsLedger(db, i, amount, ByHand);
        StatusesOk(Paying(db, i, amount, ByHand));
        OtherwiseKeepsLedger(Paying(db, i, amount, ByHand), Step(db, action));
      case Reverse(k, expected, scope, today) => ReverseKeepsLedger(db, k, expected, scope, today);
      case ProviderPay(i, amount, available) =>
        PayingKeepsLedger(db, i, amount, ByPayme);
        StatusesOk(Paying(db, i, amount, ByPayme));
        OtherwiseKeepsLedger(Paying(db, i, amount, ByPayme), Step(db, action));
      case ProviderRefund(k, late, today) => RefundKeepsLedger(db, k, late, today);
      case SettleByHand(i, amount, expected, scope, late) => FinancePayKeepsLedger(db, i, amount, expected, scope, late);
      case Unsettle(k, expected, scope, late) => FinanceReverseKeepsLedger(db, k, expected, scope, late);
      case Void(i, expected, scope) =>
        StatusesOk(db);
        OtherwiseKeepsLedger(db, Step(db, action));
      case MarkOverdue(i) =>
        assert InvoiceOk(db, i);
        StatusesOk(db);
        OtherwiseKeepsLedger(db, Step(db, action));
      case _ =>
        StatusesOk(db);
        OtherwiseKeepsLedger(db, Step(db, action));
    }
  }

  /**
   Over every run of every operation: each invoice's total is the sum of its
   lines, its paid amount is the sum of its completed payments and never
   exceeds the total, and no period is invoiced twice.
   */
  lemma {:induction false} RunKeepsLedger(db: Db, actions: seq<Action>)
    requires LedgerOk(db)
    ensures LedgerOk(Run(db, actions))
    decreases |actions|
  {
    if actions != [] {
      StepKeepsLedger(db, actions[0]);
      RunKeepsLedger(Step(db, actions[0]), actions[1..]);
    }
  }

  /** The max(0, ...) of a reversal never clips, and the new status follows from the balance. */
  lemma ReversalNeverClips(actions: seq<Action>, k: nat, expected: nat, scope: Scope, today: int)
    requires ReversePayment(Run(EMPTY, actions), k, expected, scope, today).Success?
    ensures var db := Run(EMPTY, actions);
            var next := ReversePayment(db, k, expected, scope, today).value;
            k < |db.payments| && db.payments[k].invoice < |db.invoices| &&
            var i := db.payments[k].invoice;
            && next.invoices[i].paid == db.invoices[i].paid - db.payments[k].amount
            && next.invoices[i].status == StatusForBalance(next.invoices[i].total, next.invoices[i].paid)
            && !next.invoices[i].status.Paid?
  {
    assert LedgerOk(EMPTY);
    RunKeepsLedger(EMPTY, actions);
    var db := Run(EMPTY, actions);
    ReverseKeepsLedger(db, k, expected, scope, today);
    assert InvoiceOk(db, db.payments[k].invoice);
    assert db.payments[k].amount > 0;
  }

  /** Nor does the GREATEST(0, ...) of a refund by the provider. */
  lemma RefundNeverClips(actions: seq<Action>, k: nat, late: bool, today: int)
    requires RefundPayme(Run(EMPTY, actions), k, late, today).Success?
    ensures var db := Run(EMPTY, actions);
            var next := RefundPayme(db, k, late, today).value;
            k < |db.payments| && db.payments[k].invoice < |db.invoices| &&
            var i := db.payments[k].invoice;
            && next.invoices[i].paid == db.invoices[i].paid - db.payments[k].amount
            && (next.invoices[i].status == StatusForBalance(next.invoices[i].total, next.invoices[i].paid)
                || (late && next.invoices[i].paid == 0 && next.invoices[i].status.Overdue?))
  {
    assert LedgerOk(EMPTY);
    RunKeepsLedger(EMPTY, actions);
    var db := Run(EMPTY, actions);
    RefundKeepsLedger(db, k, late, today);
    assert InvoiceOk(db, db.payments[k].invoice);
    assert db.payments[k].amount > 0;
  }

  /** In every reachable state a payment through the finance pages settles exactly what it pays. */
  lemma SettlementNeverClips(actions: seq<Action>, i: nat, amount: int, expected: nat, scope: Scope, late: bool)
    requires FinancePay(Run(EMPTY, actions), i, amount, expected, scope, late).Success?
    ensures var db := Run(EMPTY, actions);
            var next := FinancePay(db, i, amount, expected, scope, late).value;
            && i < |db.invoices|
            && next.invoices[i].paid == db.invoices[i].paid + amount == SumPaid(next.payments, i)
            && next.invoices[i].status == StatusForBalance(next.invoices[i].total, next.invoices[i].paid)
  {
    assert LedgerOk(EMPTY);
    RunKeepsLedger(EMPTY, actions);
    FinancePayKeepsLedger(Run(EMPTY, actions), i, amount, expected, scope, late);
    assert InvoiceOk(Run(EMPTY, actions), i);
  }

  /** Reversing a payment just recorded restores what was paid and, unless it was overdue, the status. */
  lemma ReverseUndoesPayment(db: Db, i: nat, amount: int, expected: nat, scope: Scope, available: set<nat>, today: int)
    requires LedgerOk(db) && RecordPayment(db, i, amount, expected, scope, available).Success?
    ensures var paid := RecordPayment(db, i, amount, expected, scope, available).value;
            var undone := ReversePayment(paid, |db.payments|, expected + 1, scope, today);
            && undone.Success?
            && undone.value.invoices[i]
               == db.invoices[i].(version := expected + 2,
                                  status := if db.invoices[i].status.Overdue? then StatusForBalance(db.invoices[i].total, db.invoices[i].paid)
                                            else db.invoices[i].status)
            && SumPaid(undone.value.payments, i) == SumPaid(db.payments, i)
  {
    var paid := RecordPayment(db, i, amount, expected, scope, available).value;
    var k := |db.payments|;
    assert InvoiceOk(db, i);
    RecordedPayment(db, i, amount, expected, scope, available);
    SumPaidAppend(db.payments, Payment(i, ByHand, amount, Completed), i);
    SumPaidUpdate(paid.payments, k, paid.payments[k].(status := Reversed), i);
  }

  /** What a recorded payment leaves in the tables a reversal looks at. */
  lemma RecordedPayment(db: Db, i: nat, amount: int, expected: nat, scope: Scope, available: set<nat>)
    requires LedgerOk(db) && RecordPayment(db, i, amount, expected, scope, available).Success?
    ensures var paid := RecordPayment(db, i, amount, expected, scope, available).value;
            && paid.payments == db.payments + [Payment(i, ByHand, amount, Completed)]
            && paid.invoices == Paying(db, i, amount, ByHand).invoices
            && InScope(paid, db.invoices[i].admission, scope)
            && amount > 0 && db.invoices[i].version == expected
  {
    assert InvoiceOk(db, i);
  }

  // ------------------------------------------------------------------ activation

  predicate IsActive(db: Db, a: nat) {
    a < |db.admissions| && db.admissions[a].status.Active?
  }

  /** How many students have been created for the admission. */
  function StudentsOf(db: Db, a: nat): nat {
    multiset(db.students)[a]
  }

  predicate IsPayment(action: Action) {
    action.Pay? || action.ProviderPay?
  }

  /** The tables right after a payment's rows, before the activation that it asks for. */
  function AfterPayment(db: Db, action: Action): Db
    requires IsPayment(action) && action.i < |db.invoices|
  {
    if action.Pay? then Paying(db, action.i, action.amount, ByHand)
    else Paying(db, action.i, action.amount, ByPayme).(paymePending := db.paymePending - {action.i})
  }

  lemma PaymentStep(db: Db, action: Action)
    requires IsPayment(action) && Perform(db, action).Success?
    ensures action.i < |db.invoices|
    ensures var next := AfterPayment(db, action);
            || Step(db, action) == next
            || (Activate(next, db.invoices[action.i].admission, action.available).Success?
                && Step(db, action) == Activated(next, db.invoices[action.i].admission))
  {
  }

  /**
   Only a payment activates: one by hand of the first invoice or one by the
   provider of any invoice, and only with an accepted contract, a paid first
   invoice and all groups available.
   */
  lemma BecomesActive(db: Db, action: Action, a: nat)
    requires !IsActive(db, a) && IsActive(Step(db, action), a)
    ensures IsPayment(action)
    ensures action.i < |db.invoices| && db.invoices[action.i].admission == a
    ensures action.Pay? ==> db.invoices[action.i].kind.First?
    ensures a in db.contracts && db.contracts[a].Accepted?
    ensures FirstInvoicePaid(Step(db, action), a)
    ensures GroupsAvailable(db.admissions[a].groups, action.available)
    ensures StudentsOf(Step(db, action), a) == StudentsOf(db, a) + 1
    ensures Step(db, action).admissions[a].student == Some(|db.students|)
  {
    assert IsPayment(action) && Perform(db, action).Success?;
    PaymentStep(db, action);
  }

  predicate OnFinancePages(action: Action) {
    action.SettleByHand? || action.Unsettle? || action.Discard?
  }

  /** However the finance pages are used, admissions and students stay as they are. */
  lemma {:induction false} FinanceNeverActivates(db: Db, actions: seq<Action>)
    requires forall action :: action in actions ==> OnFinancePages(action)
    ensures var after := Run(db, actions);
            after.admissions == db.admissions && after.students == db.students && after.activationJobs == db.activationJobs
    decreases |actions|
  {
    if actions != [] {
      assert OnFinancePages(actions[0]);
      FinanceNeverActivates(Step(db, actions[0]), actions[1..]);
    }
  }

  /**
   A payment there of the newest first invoice leaves the admission as it was
   with its first invoice paid, exactly when it pays the whole balance; no
   later payment of that invoice is then accepted.
   */
  lemma SettledOutOfServiceExactly(db: Db, i: nat, amount: int, expected: nat, scope: Scope, late: bool, a: nat)
    requires LedgerOk(db) && FinancePay(db, i, amount, expected, scope, late).Success? && FirstInvoice(db.invoices, a) == Some(i)
    ensures var after := FinancePay(db, i, amount, expected, scope, late).value;
            && after.admissions == db.admissions
            && (FirstInvoicePaid(after, a) <==> amount == db.invoices[i].total - db.invoices[i].paid)
            && (FirstInvoicePaid(after, a) ==> !CanAcceptPayment(after.invoices[i].status))
  {
    var after := FinancePay(db, i, amount, expected, scope, late).value;
    FinancePayKeepsLedger(db, i, amount, expected, scope, late);
    assert InvoiceOk(db, i) && InvoiceOk(after, i);
    SameFirstInvoice(db.invoices, after.invoices, i, a);
  }

  /** Activating an active admission again changes nothing. */
  lemma ReactivationIsIdle(db: Db, a: nat, available: set<nat>)
    requires IsActive(db, a)
    ensures Activate(db, a, available) == Success(db)
  {
  }

  /** The account of one admission in runs without reversals. */
  predicate ActivatedOnce(db: Db, a: nat) {
    && StudentsOf(db, a) == (if IsActive(db, a) then 1 else 0)
    && (a in db.activationJobs <==> IsActive(db, a))
    && (IsActive(db, a) ==> a in db.contracts && db.contracts[a].Accepted?)
  }

  /** The action takes a completed payment back. */
  predicate TakesBack(action: Action) {
    action.Reverse? || action.ProviderRefund?
  }

  /** What every other action leaves alone: students, activation jobs and the rows' memory of their student. */
  lemma OtherStep(db: Db, action: Action, a: nat)
    requires !IsPayment(action)
    ensures var after := Step(db, action);
            && after.students == db.students && after.activationJobs == db.activationJobs
            && |after.admissions| >= |db.admissions|
            && (a < |after.admissions| ==>
                  if a < |db.admissions| then
                    && after.admissions[a].student == db.admissions[a].student
                    && (after.admissions[a].status.Active? ==> db.admissions[a].status.Active?)
                  else after.admissions[a].student.None? && !after.admissions[a].status.Active?)
  {
  }

  /** An active admission stays active, with its contract, unless a payment is taken back. */
  lemma StaysActive(db: Db, action: Action, a: nat)
    requires !IsPayment(action) && !TakesBack(action)
    requires IsActive(db, a) && a in db.contracts && db.contracts[a].Accepted?
    ensures var after := Step(db, action); IsActive(after, a) && a in after.contracts && after.contracts[a].Accepted?
  {
  }

  lemma StepKeepsActivatedOnce(db: Db, action: Action, a: nat)
    requires ActivatedOnce(db, a) && !TakesBack(action)
    ensures ActivatedOnce(Step(db, action), a)
    ensures IsActive(db, a) ==> IsActive(Step(db, action), a)
  {
    if IsPayment(action) {
      if Perform(db, action).Success? {
        PaymentStep(db, action);
      }
    } else {
      OtherStep(db, action, a);
      if IsActive(db, a) {
        StaysActive(db, action, a);
      }
    }
  }

  predicate NoReversal(actions: seq<Action>) {
    forall k :: 0 <= k < |actions| ==> !TakesBack(actions[k])
  }

  lemma {:induction false} RunKeepsActivatedOnce(db: Db, actions: seq<Action>, a: nat)
    requires ActivatedOnce(db, a) && NoReversal(actions)
    ensures ActivatedOnce(Run(db, actions), a)
    decreases |actions|
  {
    if actions != [] {
      StepKeepsActivatedOnce(db, actions[0], a);
      RunKeepsActivatedOnce(Step(db, actions[0]), actions[1..], a);
    }
  }

  /** Without reversals and refunds: exactly one student and one activation job when active, none otherwise. */
  lemma OneStudentPerAdmission(actions: seq<Action>, a: nat)
    requires NoReversal(actions)
    ensures var db := Run(EMPTY, actions);
            StudentsOf(db, a) == (if IsActive(db, a) then 1 else 0)
            && (a in db.activationJobs <==> IsActive(db, a))
  {
    RunKeepsActivatedOnce(EMPTY, actions, a);
  }

  /** The account of one admission in any run: the row remembers whether it was ever activated. */
  predicate ActivationRecorded(db: Db, a: nat) {
    && (StudentsOf(db, a) >= 1 <==> a < |db.admissions| && db.admissions[a].student.Some?)
    && (a in db.activationJobs <==> StudentsOf(db, a) >= 1)
    && (IsActive(db, a) ==> StudentsOf(db, a) >= 1)
  }

  lemma StepKeepsActivationRecorded(db: Db, action: Action, a: nat)
    requires ActivationRecorded(db, a)
    ensures ActivationRecorded(Step(db, action), a)
  {
    if IsPayment(action) {
      if Perform(db, action).Success? {
        PaymentStep(db, action);
      }
    } else {
      OtherStep(db, action, a);
    }
  }

  lemma {:induction false} RunKeepsActivationRecorded(db: Db, actions: seq<Action>, a: nat)
    requires ActivationRecorded(db, a)
    ensures ActivationRecorded(Run(db, actions), a)
    decreases |actions|
  {
    if actions != [] {
      StepKeepsActivationRecorded(db, actions[0], a);
      RunKeepsActivationRecorded(Step(db, actions[0]), actions[1..], a);
    }
  }

  /**
   With reversals the single-student rule can fail: an activation leaves exactly
   one student if and only if the row did not already name an activated student.
   */
  lemma SingleStudentExactly(actions: seq<Action>, action: Action, a: nat)
    requires var db := Run(EMPTY, actions); !IsActive(db, a) && IsActive(Step(db, action), a)
    ensures var db := Run(EMPTY, actions);
            a < |db.admissions|
            && (StudentsOf(Step(db, action), a) == 1 <==> db.admissions[a].student.None?)
  {
    RunKeepsActivationRecorded(EMPTY, actions, a);
    BecomesActive(Run(EMPTY, actions), action, a);
  }

  /** Reversing a payment of a fully paid invoice and paying the same amount again. */
  function Repaid(db: Db, k: nat, scope: Scope, available: set<nat>, today: int): Db
    requires k < |db.payments| && db.payments[k].invoice < |db.invoices|
  {
    var i := db.payments[k].invoice;
    var v := db.invoices[i].version;
    Run(db, [Reverse(k, v, scope, today), Pay(i, db.payments[k].amount, v + 1, scope, available)])
  }

  predicate FullyPaidByHand(db: Db, k: nat, scope: Scope) {
    && k < |db.payments| && db.payments[k].invoice < |db.invoices|
    && var i := db.payments[k].invoice;
       && db.payments[k].source.ByHand? && db.payments[k].status.Completed?
       && db.invoices[i].status.Paid? && i !in db.paymePending
       && InScope(db, db.invoices[i].admission, scope)
  }

  /** The invoice is paid as before, whatever becomes of the admission. */
  lemma RepaidInvoice(db: Db, k: nat, scope: Scope, available: set<nat>, today: int)
    requires LedgerOk(db) && FullyPaidByHand(db, k, scope)
    ensures var i := db.payments[k].invoice;
            var mid := Step(db, Reverse(k, db.invoices[i].version, scope, today));
            && mid == ReversePayment(db, k, db.invoices[i].version, scope, today).value
            && i < |mid.invoices| && CanAcceptPayment(mid.invoices[i].status)
            && Repaid(db, k, scope, available, today)
               == Step(mid, Pay(i, db.payments[k].amount, db.invoices[i].version + 1, scope, available))
            && Paying(mid, i, db.payments[k].amount, ByHand).invoices[i] == db.invoices[i].(version := db.invoices[i].version + 2)
            && 0 < db.payments[k].amount <= mid.invoices[i].total - mid.invoices[i].paid
            && InScope(mid, db.invoices[i].admission, scope)
  {
    var i := db.payments[k].invoice;
    var v := db.invoices[i].version;
    assert InvoiceOk(db, i);
    PaymentWithinSum(db.payments, k);
    var reverse, pay := Reverse(k, v, scope, today), Pay(i, db.payments[k].amount, v + 1, scope, available);
    var mid := Step(db, reverse);
    assert mid == ReversePayment(db, k, v, scope, today).value;
    assert [reverse, pay][1..] == [pay] && [pay][1..] == [];
    assert Run(mid, [pay]) == Step(mid, pay);
  }

  /** Whether paying the invoice again brings its admission back into service. */
  predicate Reactivates(db: Db, i: nat, available: set<nat>)
    requires i < |db.invoices| && db.invoices[i].admission < |db.admissions|
  {
    var a := db.invoices[i].admission;
    && db.invoices[i].kind.First? && FirstInvoicePaid(db, a)
    && a in db.contracts && db.contracts[a].Accepted?
    && GroupsAvailable(db.admissions[a].groups, available)
  }

  /**
   Reversing any payment of a fully paid invoice of an active admission and
   paying the same amount again leaves the admission active exactly when the
   invoice is a first one, the newest first invoice is paid, the contract is
   accepted and every group is available.  It then has a further student.
   Otherwise no student is added, and the second payment stands for a later
   invoice and is refused for a first one.
   */
  lemma RepayingReactivatesExactly(db: Db, k: nat, scope: Scope, available: set<nat>, today: int)
    requires LedgerOk(db) && FullyPaidByHand(db, k, scope)
    requires IsActive(db, db.invoices[db.payments[k].invoice].admission)
    ensures var i := db.payments[k].invoice;
            var a, again := db.invoices[i].admission, Repaid(db, k, scope, available, today);
            && (IsActive(again, a) <==> Reactivates(db, i, available))
            && StudentsOf(again, a) == StudentsOf(db, a) + (if Reactivates(db, i, available) then 1 else 0)
            && i < |again.invoices|
            && (again.invoices[i] == db.invoices[i].(version := db.invoices[i].version + 2)
                <==> Reactivates(db, i, available) || !db.invoices[i].kind.First?)
            && (db.invoices[i].kind.First? && !Reactivates(db, i, available) ==>
                  again == ReversePayment(db, k, db.invoices[i].version, scope, today).value)
  {
    var i, amount := db.payments[k].invoice, db.payments[k].amount;
    var a, v := db.invoices[i].admission, db.invoices[i].version;
    RepaidInvoice(db, k, scope, available, today);
    var mid := Step(db, Reverse(k, v, scope, today));
    var paid := Paying(mid, i, amount, ByHand);
    if db.invoices[i].kind.First? {
      SameFirstPaid(db, paid, i, a);
      assert Activate(paid, a, available).Success? <==> Reactivates(db, i, available);
      assert Reactivates(db, i, available) ==> Activate(paid, a, available) == Success(Activated(paid, a));
    }
  }

  /** The newest first invoice is the same one, and as paid as before. */
  lemma SameFirstPaid(db: Db, paid: Db, i: nat, a: nat)
    requires i < |db.invoices| && IsFirstOf(db.invoices[i], a) && |paid.invoices| == |db.invoices|
    requires paid.invoices[i].(version := 0) == db.invoices[i].(version := 0)
    requires forall j :: 0 <= j < |db.invoices| && j != i ==> paid.invoices[j] == db.invoices[j]
    ensures FirstInvoicePaid(paid, a) <==> FirstInvoicePaid(db, a)
  {
    var first := FirstInvoice(db.invoices, a).value;
    assert paid.invoices[i].status == db.invoices[i].(version := 0).status;
    assert paid.invoices[i].kind == db.invoices[i].(version := 0).kind;
    assert paid.invoices[i].admission == db.invoices[i].(version := 0).admission;
    SameFirstInvoice(db.invoices, paid.invoices, first, a);
  }

  lemma {:induction false} SameFirstInvoice(before: seq<Invoice>, after: seq<Invoice>, i: nat, a: nat)
    requires |before| == |after| && FirstInvoice(before, a) == Some(i)
    requires forall j :: 0 <= j < |before| ==> IsFirstOf(after[j], a) == IsFirstOf(before[j], a)
    ensures FirstInvoice(after, a) == Some(i)
  {
    assert IsFirstOf(after[i], a);
  }

  // A run from empty tables that ends with two students of one admission.

  const ANYWHERE: Scope := Scope(true, {})
  const CHOSEN: seq<Selection> := [Selection(1, 100)]

  /** One admission with one line, as far as its tables differ during the run. */
  function OneAdmission(status: AdmissionStatus, version: nat, student: Option<nat>, contract: ContractStatus,
                        invoices: seq<Invoice>, lines: seq<Line>, payments: seq<Payment>, students: seq<nat>): Db
  {
    Db([Admission(1, status, version, None, student, CHOSEN)], map[0 := contract], invoices, lines, payments, students,
       if students == [] then {} else {0}, {})
  }

  lemma {:induction false} RunAppend(db: Db, actions: seq<Action>, last: Action)
    ensures Run(db, actions + [last]) == Step(Run(db, actions), last)
    decreases |actions|
  {
    if actions == [] {
      assert ([last])[1..] == [];
      assert actions + [last] == [last];
    } else {
      assert (actions + [last])[1..] == actions[1..] + [last];
      RunAppend(Step(db, actions[0]), actions[1..], last);
    }
  }

  lemma ContractSigned() returns (actions: seq<Action>)
    ensures Run(EMPTY, actions) == OneAdmission(AwaitingPayment, 4, None, Accepted, [], [], [], [])
  {
    var steps := [Create(1, None, CHOSEN, ANYWHERE, {1}), Upload(0, ANYWHERE), Send(0, ANYWHERE), Submit(0), Review(0, true, ANYWHERE)];
    actions := [];
    RunAppend(EMPTY, actions, steps[0]);
    actions := actions + [steps[0]];
    assert Run(EMPTY, actions) == Db([Admission(1, Draft, 1, None, None, CHOSEN)], map[], [], [], [], [], {}, {});
    RunAppend(EMPTY, actions, steps[1]);
    actions := actions + [steps[1]];
    RunAppend(EMPTY, actions, steps[2]);
    actions := actions + [steps[2]];
    assert Run(EMPTY, actions) == OneAdmission(ContractSent, 2, None, Sent, [], [], [], []);
    RunAppend(EMPTY, actions, steps[3]);
    actions := actions + [steps[3]];
    assert Run(EMPTY, actions) == OneAdmission(ContractSubmitted, 3, None, Submitted, [], [], [], []);
    RunAppend(EMPTY, actions, steps[4]);
    actions := actions + [steps[4]];
  }

  lemma InvoiceIssued(db: Db)
    requires db == OneAdmission(AwaitingPayment, 4, None, Accepted, [], [], [], [])
    ensures Step(db, Issue(0, 1, First, ANYWHERE))
            == OneAdmission(AwaitingPayment, 4, None, Accepted, [Invoice(0, First, 1, 100, 0, Issued, 1)], [Line(0, 1, 100)], [], [])
  {
    assert SumGroups(CHOSEN[..0]) == 0 && SumGroups(CHOSEN) == 100;
    assert LinesFor(CHOSEN[..0], 0) == [] && LinesFor(CHOSEN, 0) == [Line(0, 1, 100)];
  }

  lemma InvoicePaid(db: Db, version: nat, student: Option<nat>, invoiceVersion: nat, payments: seq<Payment>, students: seq<nat>)
    requires db == OneAdmission(AwaitingPayment, version, student, Accepted,
                                [Invoice(0, First, 1, 100, 0, Issued, invoiceVersion)], [Line(0, 1, 100)], payments, students)
    ensures Step(db, Pay(0, 100, invoiceVersion, ANYWHERE, {1}))
            == OneAdmission(Active, version + 1, Some(|students|), Accepted,
                            [Invoice(0, First, 1, 100, 100, Paid, invoiceVersion + 1)], [Line(0, 1, 100)],
                            payments + [Payment(0, ByHand, 100, Completed)], students + [0])
  {
    var paid := Paying(db, 0, 100, ByHand);
    assert paid.invoices == [Invoice(0, First, 1, 100, 100, Paid, invoiceVersion + 1)];
    assert FirstInvoice(paid.invoices, 0) == Some(0);
    assert Step(db, Pay(0, 100, invoiceVersion, ANYWHERE, {1})) == Activated(paid, 0);
  }

  lemma PaymentReversed(db: Db)
    requires db == OneAdmission(Active, 5, Some(0), Accepted, [Invoice(0, First, 1, 100, 100, Paid, 2)], [Line(0, 1, 100)],
                                [Payment(0, ByHand, 100, Completed)], [0])
    ensures Step(db, Reverse(0, 2, ANYWHERE, 0))
            == OneAdmission(AwaitingPayment, 6, Some(0), Accepted, [Invoice(0, First, 1, 100, 0, Issued, 3)], [Line(0, 1, 100)],
                            [Payment(0, ByHand, 100, Reversed)], [0])
  {
  }

  /** Concrete: sign, invoice, pay, reverse, pay again. */
  lemma TwoStudentsOfOneAdmission() returns (actions: seq<Action>)
    ensures IsActive(Run(EMPTY, actions), 0) && StudentsOf(Run(EMPTY, actions), 0) == 2
  {
    actions := ContractSigned();
    InvoiceIssued(Run(EMPTY, actions));
    RunAppend(EMPTY, actions, Issue(0, 1, First, ANYWHERE));
    actions := actions + [Issue(0, 1, First, ANYWHERE)];
    InvoicePaid(Run(EMPTY, actions), 4, None, 1, [], []);
    RunAppend(EMPTY, actions, Pay(0, 100, 1, ANYWHERE, {1}));
    actions := actions + [Pay(0, 100, 1, ANYWHERE, {1})];
    PaymentReversed(Run(EMPTY, actions));
    RunAppend(EMPTY, actions, Reverse(0, 2, ANYWHERE, 0));
    actions := actions + [Reverse(0, 2, ANYWHERE, 0)];
    InvoicePaid(Run(EMPTY, actions), 6, Some(0), 3, [Payment(0, ByHand, 100, Reversed)], [0]);
    RunAppend(EMPTY, actions, Pay(0, 100, 3, ANYWHERE, {1}));
    actions := actions + [Pay(0, 100, 3, ANYWHERE, {1})];
    assert Run(EMPTY, actions).students == [0, 0];
  }

  lemma InvoiceSettled(db: Db)
    requires db == OneAdmission(AwaitingPayment, 4, None, Accepted, [Invoice(0, First, 1, 100, 0, Issued, 1)], [Line(0, 1, 100)], [], [])
    ensures Step(db, SettleByHand(0, 100, 1, ANYWHERE, false))
            == OneAdmission(AwaitingPayment, 4, None, Accepted, [Invoice(0, First, 1, 100, 100, Paid, 2)], [Line(0, 1, 100)],
                            [Payment(0, ByHand, 100, Completed)], [])
  {
  }

  lemma FirstAndPaid(db: Db)
    requires db.invoices == [Invoice(0, First, 1, 100, 100, Paid, 2)]
    ensures FirstInvoicePaid(db, 0)
  {
    assert FirstInvoice(db.invoices, 0) == Some(0);
  }

  /** Concrete: paid in full on the finance pages, and out of service. */
  lemma PaidThroughFinance() returns (actions: seq<Action>)
    ensures !IsActive(Run(EMPTY, actions), 0) && FirstInvoicePaid(Run(EMPTY, actions), 0)
    ensures 0 in Run(EMPTY, actions).contracts && Run(EMPTY, actions).contracts[0].Accepted?
  {
    actions := ContractSigned();
    InvoiceIssued(Run(EMPTY, actions));
    RunAppend(EMPTY, actions, Issue(0, 1, First, ANYWHERE));
    actions := actions + [Issue(0, 1, First, ANYWHERE)];
    InvoiceSettled(Run(EMPTY, actions));
    RunAppend(EMPTY, actions, SettleByHand(0, 100, 1, ANYWHERE, false));
    actions := actions + [SettleByHand(0, 100, 1, ANYWHERE, false)];
    FirstAndPaid(Run(EMPTY, actions));
  }

  /** The active admission of that run with a second, monthly invoice. */
  function WithMonthly(status: AdmissionStatus, version: nat, paid: int, monthly: InvoiceStatus, invoiceVersion: nat,
                       payments: seq<Payment>): Db
  {
    OneAdmission(status, version, Some(0), Accepted,
                 [Invoice(0, First, 1, 100, 100, Paid, 2), Invoice(0, Monthly, 2, 100, paid, monthly, invoiceVersion)],
                 [Line(0, 1, 100), Line(1, 1, 100)], [Payment(0, ByHand, 100, Completed)] + payments, [0])
  }

  lemma MonthlyIssued(db: Db)
    requires db == OneAdmission(Active, 5, Some(0), Accepted, [Invoice(0, First, 1, 100, 100, Paid, 2)], [Line(0, 1, 100)],
                                [Payment(0, ByHand, 100, Completed)], [0])
    ensures Step(db, Issue(0, 2, Monthly, ANYWHERE)) == WithMonthly(Active, 5, 0, Issued, 1, [])
  {
    assert SumGroups(CHOSEN[..0]) == 0 && SumGroups(CHOSEN) == 100;
    assert LinesFor(CHOSEN[..0], 1) == [] && LinesFor(CHOSEN, 1) == [Line(1, 1, 100)];
    assert FindForPeriod(db.invoices, 0, 2, Monthly).None?;
  }

  lemma MonthlyPaid(db: Db, status: AdmissionStatus, version: nat, invoiceVersion: nat, payments: seq<Payment>)
    requires db == WithMonthly(status, version, 0, Issued, invoiceVersion, payments)
    ensures Step(db, Pay(1, 100, invoiceVersion, ANYWHERE, {1}))
            == WithMonthly(status, version, 100, Paid, invoiceVersion + 1, payments + [Payment(1, ByHand, 100, Completed)])
  {
    var paid := Paying(db, 1, 100, ByHand);
    assert paid.payments == [Payment(0, ByHand, 100, Completed)] + (payments + [Payment(1, ByHand, 100, Completed)]);
  }

  lemma MonthlyReversed(db: Db)
    requires db == WithMonthly(Active, 5, 100, Paid, 2, [Payment(1, ByHand, 100, Completed)])
    ensures Step(db, Reverse(1, 2, ANYWHERE, 0)) == WithMonthly(AwaitingPayment, 6, 0, Issued, 3, [Payment(1, ByHand, 100, Reversed)])
  {
  }

  /** Concrete: the same with the monthly invoice ends with both invoices paid and the admission out of service. */
  lemma PaidButInactive() returns (actions: seq<Action>)
    ensures !IsActive(Run(EMPTY, actions), 0) && |Run(EMPTY, actions).invoices| == 2
    ensures forall i :: 0 <= i < 2 ==> Run(EMPTY, actions).invoices[i].status.Paid?
  {
    actions := ContractSigned();
    InvoiceIssued(Run(EMPTY, actions));
    RunAppend(EMPTY, actions, Issue(0, 1, First, ANYWHERE));
    actions := actions + [Issue(0, 1, First, ANYWHERE)];
    InvoicePaid(Run(EMPTY, actions), 4, None, 1, [], []);
    RunAppend(EMPTY, actions, Pay(0, 100, 1, ANYWHERE, {1}));
    actions := actions + [Pay(0, 100, 1, ANYWHERE, {1})];
    MonthlyIssued(Run(EMPTY, actions));
    RunAppend(EMPTY, actions, Issue(0, 2, Monthly, ANYWHERE));
    actions := actions + [Issue(0, 2, Monthly, ANYWHERE)];
    MonthlyPaid(Run(EMPTY, actions), Active, 5, 1, []);
    RunAppend(EMPTY, actions, Pay(1, 100, 1, ANYWHERE, {1}));
    actions := actions + [Pay(1, 100, 1, ANYWHERE, {1})];
    MonthlyReversed(Run(EMPTY, actions));
    RunAppend(EMPTY, actions, Reverse(1, 2, ANYWHERE, 0));
    actions := actions + [Reverse(1, 2, ANYWHERE, 0)];
    MonthlyPaid(Run(EMPTY, actions), AwaitingPayment, 6, 3, [Payment(1, ByHand, 100, Reversed)]);
    RunAppend(EMPTY, actions, Pay(1, 100, 3, ANYWHERE, {1}));
    actions := actions + [Pay(1, 100, 3, ANYWHERE, {1})];
  }

  // ------------------------------------------------------------------ mutable form

  /** The tables, updated statement by statement; a raised error restores what the transaction found. */
  class LedgerTables {
    var admissions: seq<Admission>
    var contracts: map<nat, ContractStatus>
    var invoices: seq<Invoice>
    var lines: seq<Line>
    var payments: seq<Payment>
    var students: seq<nat>
    var activationJobs: set<nat>
    var paymePending: set<nat>

    function State(): Db
      reads this
    {
      Db(admissions, contracts, invoices, lines, payments, students, activationJobs, paymePending)
    }

    constructor ()
      ensures State() == EMPTY
    {
      admissions, contracts, invoices, lines := [], map[], [], [];
      payments, students, activationJobs, paymePending := [], [], {}, {};
    }

    method Rollback(saved: Db)
      modifies this
      ensures State() == saved
    {
      admissions, contracts, invoices, lines := saved.admissions, saved.contracts, saved.invoices, saved.lines;
      payments, students := saved.payments, saved.students;
      activationJobs, paymePending := saved.activationJobs, saved.paymePending;
    }

    method Issue(a: nat, period: int, kind: InvoiceKind, scope: Scope) returns (r: Result<nat, Error>)
      modifies this`invoices, this`lines
      ensures match IssueInvoice(old(State()), a, period, kind, scope)
              case Failure(e) => r == Failure(e) && State() == old(State())
              case Success(next) =>
                && State() == next && r.Success? && r.value < |invoices|
                && Matching(invoices[r.value], a, period, kind)
    {
      if a >= |admissions| || !scope.Allows(admissions[a].school) {
        return Failure(NotFound);
      }
      if !CanIssue(State(), a) {
        return Failure(CannotIssue);
      }
      var existing := FindForPeriod(invoices, a, period, kind);
      if existing.Some? {
        return Success(existing.value);
      }
      var total := SumGroups(admissions[a].groups);
      if total <= 0 {
        return Failure(NoBillableGroups);
      }
      var id := |invoices|;
      invoices := invoices + [Invoice(a, kind, period, total, 0, Issued, 1)];
      lines := lines + LinesFor(admissions[a].groups, id);
      r := Success(id);
    }

    /** The student created, or none when the admission was active already. */
    method ActivatePaidAdmission(a: nat, available: set<nat>) returns (r: Result<Option<nat>, Error>)
      modifies this`students, this`admissions, this`activationJobs
      ensures match Activate(old(State()), a, available)
              case Failure(e) => r == Failure(e) && State() == old(State())
              case Success(next) =>
                && State() == next
                && r == Success(if IsActive(old(State()), a) then None else Some(|old(students)|))
    {
      if a >= |admissions| {
        return Failure(NotFound);
      }
      if admissions[a].status.Active? {
        return Success(None);
      }
      if a !in contracts || !contracts[a].Accepted? {
        return Failure(ContractRequired);
      }
      if !FirstInvoicePaid(State(), a) {
        return Failure(FirstInvoiceUnpaid);
      }
      if !GroupsAvailable(admissions[a].groups, available) {
        return Failure(GroupUnavailable);
      }
      var student := |students|;
      students := students + [a];
      admissions := admissions[a := admissions[a].(status := Active, student := Some(student), version := admissions[a].version + 1)];
      activationJobs := activationJobs + {a};
      r := Success(Some(student));
    }

    method RecordManualPayment(i: nat, amount: int, expected: nat, scope: Scope, available: set<nat>)
      returns (r: Result<nat, Error>)
      modifies this
      ensures match RecordPayment(old(State()), i, amount, expected, scope, available)
              case Failure(e) => r == Failure(e) && State() == old(State())
              case Success(next) => r == Success(|old(payments)|) && State() == next
    {
      if i >= |invoices| || invoices[i].admission >= |admissions| || !scope.Allows(admissions[invoices[i].admission].school) {
        return Failure(NotFound);
      }
      var inv := invoices[i];
      if inv.version != expected {
        return Failure(VersionConflict);
      }
      if !CanAcceptPayment(inv.status) {
        return Failure(CannotAcceptPayment);
      }
      if i in paymePending {
        return Failure(PaymePendingError);
      }
      if amount > inv.total - inv.paid {
        return Failure(ExceedsBalance);
      }
      if amount <= 0 {
        return Failure(ConstraintViolation);
      }
      var saved := State();
      var id := |payments|;
      payments := payments + [Payment(i, ByHand, amount, Completed)];
      var status := StatusForBalance(inv.total, inv.paid + amount);
      invoices := invoices[i := inv.(paid := inv.paid + amount, status := status, version := inv.version + 1)];
      if status.Paid? && inv.kind.First? {
        var activation := ActivatePaidAdmission(inv.admission, available);
        if activation.Failure? {
          Rollback(saved);
          return Failure(activation.error);
        }
      }
      r := Success(id);
    }

    method ReverseManualPayment(k: nat, expected: nat, scope: Scope, today: int) returns (r: Result<nat, Error>)
      modifies this`payments, this`invoices, this`admissions
      ensures match ReversePayment(old(State()), k, expected, scope, today)
              case Failure(e) => r == Failure(e) && State() == old(State())
              case Success(next) => r == Success(old(invoices)[old(payments)[k].invoice].admission) && State() == next
    {
      if k >= |payments| || payments[k].invoice >= |invoices| {
        return Failure(NotFound);
      }
      var i := payments[k].invoice;
      var inv := invoices[i];
      if inv.admission >= |admissions| || !scope.Allows(admissions[inv.admission].school) {
        return Failure(NotFound);
      }
      if inv.version != expected {
        return Failure(VersionConflict);
      }
      if !(payments[k].source.ByHand? && payments[k].status.Completed?) {
        return Failure(CannotReverse);
      }
      var paid := Max(0, inv.paid - payments[k].amount);
      payments := payments[k := payments[k].(status := Reversed)];
      invoices := invoices[i := inv.(paid := paid, status := StatusForBalance(inv.total, paid), version := inv.version + 1)];
      admissions := admissions[inv.admission := Reviewed(admissions[inv.admission], today)];
      r := Success(inv.admission);
    }

    /** PerformTransaction: the whole balance at once, and the activation in the same transaction. */
    method PerformTransaction(i: nat, amount: int, available: set<nat>) returns (r: Result<nat, Error>)
      modifies this
      ensures match PerformPayme(old(State()), i, amount, available)
              case Failure(e) => r == Failure(e) && State() == old(State())
              case Success(next) => r == Success(|old(payments)|) && State() == next
    {
      if i >= |invoices| || i !in paymePending {
        return Failure(NotFound);
      }
      var inv := invoices[i];
      if amount != inv.total - inv.paid {
        return Failure(IncorrectAmount);
      }
      if !Payable(State(), i, available) {
        return Failure(CannotPerform);
      }
      if amount <= 0 {
        return Failure(ConstraintViolation);
      }
      var saved := State();
      var id := |payments|;
      payments := payments + [Payment(i, ByPayme, amount, Completed)];
      invoices := invoices[i := inv.(paid := inv.paid + amount, status := StatusForBalance(inv.total, inv.paid + amount),
                                     version := inv.version + 1)];
      paymePending := paymePending - {i};
      var activation := ActivatePaidAdmission(inv.admission, available);
      if activation.Failure? {
        Rollback(saved);
        return Failure(activation.error);
      }
      r := Success(id);
    }

    /** CancelTransaction of a performed transaction. */
    method RefundTransaction(k: nat, late: bool, today: int) returns (r: Result<nat, Error>)
      modifies this`payments, this`invoices, this`admissions
      ensures match RefundPayme(old(State()), k, late, today)
              case Failure(e) => r == Failure(e) && State() == old(State())
              case Success(next) => r == Success(old(payments)[k].invoice) && State() == next
    {
      if k >= |payments| || payments[k].invoice >= |invoices| {
        return Failure(NotFound);
      }
      var i := payments[k].invoice;
      var inv := invoices[i];
      if !(payments[k].source.ByPayme? && payments[k].status.Completed?) || inv.admission >= |admissions| {
        return Failure(CannotReverse);
      }
      var paid := Max(0, inv.paid - payments[k].amount);
      var status := if paid == 0 && late then Overdue else if paid == 0 then Issued else PartiallyPaid;
      payments := payments[k := payments[k].(status := Refunded)];
      invoices := invoices[i := inv.(paid := paid, status := status, version := inv.version + 1)];
      admissions := admissions[inv.admission := Reviewed(admissions[inv.admission], today)];
      r := Success(i);
    }

    /** record_manual_payment of the finance pages: the invoice is recomputed, the admission is not touched. */
    method SettleInvoice(i: nat, amount: int, expected: nat, scope: Scope, late: bool) returns (r: Result<nat, Error>)
      modifies this`payments, this`invoices
      ensures match FinancePay(old(State()), i, amount, expected, scope, late)
              case Failure(e) => r == Failure(e) && State() == old(State())
              case Success(next) => r == Success(|old(payments)|) && State() == next
    {
      if i >= |invoices| || invoices[i].admission >= |admissions| || !scope.Allows(admissions[invoices[i].admission].school) {
        return Failure(NotFound);
      }
      if invoices[i].version != expected {
        return Failure(VersionConflict);
      }
      if !CanAcceptPayment(invoices[i].status) {
        return Failure(CannotAcceptPayment);
      }
      if amount > invoices[i].total - invoices[i].paid {
        return Failure(ExceedsBalance);
      }
      if i in paymePending {
        return Failure(PaymePendingError);
      }
      if amount <= 0 {
        return Failure(ConstraintViolation);
      }
      payments := payments + [Payment(i, ByHand, amount, Completed)];
      invoices := invoices[i := Settled(invoices[i], SumPaid(payments, i), late)];
      r := Success(|payments| - 1);
    }

    /** reverse_invoice_payment of the finance pages. */
    method UnsettleInvoice(k: nat, expected: nat, scope: Scope, late: bool) returns (r: Result<nat, Error>)
      modifies this`payments, this`invoices
      ensures match FinanceReverse(old(State()), k, expected, scope, late)
              case Failure(e) => r == Failure(e) && State() == old(State())
              case Success(next) => r == Success(old(payments)[k].invoice) && State() == next
    {
      if k >= |payments| || payments[k].invoice >= |invoices| {
        return Failure(NotFound);
      }
      var i := payments[k].invoice;
      if invoices[i].admission >= |admissions| || !scope.Allows(admissions[invoices[i].admission].school) {
        return Failure(NotFound);
      }
      if invoices[i].version != expected {
        return Failure(VersionConflict);
      }
      if !(payments[k].status.Completed? && payments[k].source.ByHand?) {
        return Failure(CannotReverse);
      }
      payments := payments[k := payments[k].(status := Reversed)];
      invoices := invoices[i := Settled(invoices[i], SumPaid(payments, i), late)];
      r := Success(i);
    }

    /** void_student_invoice of the finance pages. */
    method DiscardInvoice(i: nat, expected: nat, scope: Scope) returns (r: Result<nat, Error>)
      modifies this`invoices
      ensures match FinanceVoid(old(State()), i, expected, scope)
              case Failure(e) => r == Failure(e) && State() == old(State())
              case Success(next) => r == Success(i) && State() == next
    {
      if i >= |invoices| || invoices[i].admission >= |admissions| || !scope.Allows(admissions[invoices[i].admission].school) {
        return Failure(NotFound);
      }
      var inv := invoices[i];
      if inv.status.Voided? || inv.paid > 0 || inv.status.Paid? {
        return Failure(CannotVoid);
      }
      if inv.version != expected || inv.paid != 0 {
        return Failure(VersionConflict);
      }
      invoices := invoices[i := inv.(status := Voided, version := inv.version + 1)];
      r := Success(i);
    }

    method Void(i: nat, expected: nat, scope: Scope) returns (r: Result<nat, Error>)
      modifies this`invoices
      ensures match VoidInvoice(old(State()), i, expected, scope)
              case Failure(e) => r == Failure(e) && State() == old(State())
              case Success(next) => r == Success(old(invoices)[i].admission) && State() == next
    {
      if i >= |invoices| || invoices[i].admission >= |admissions| || !scope.Allows(admissions[invoices[i].admission].school) {
        return Failure(NotFound);
      }
      if i in paymePending {
        return Failure(PaymePendingError);
      }
      var inv := invoices[i];
      if inv.version == expected && inv.paid == 0 && (inv.status.Issued? || inv.status.Overdue?) {
        invoices := invoices[i := inv.(status := Voided, version := inv.version + 1)];
        return Success(inv.admission);
      }
      r := Failure(CannotVoid);
    }
  }
}
