/**
 The ledger's operations read off its tables: when each one is refused, and
 what it does to an invoice, a payment, an admission and a contract.  The rules
 are stated on rows and arguments only.
 */
module LedgerRules {
  import opened Wrappers
  import opened Ledger

  // ------------------------------------------------------------------ refusals

  predicate OutOfReach(db: Db, a: nat, scope: Scope) {
    a >= |db.admissions| || !(scope.allSchools || db.admissions[a].school in scope.schools)
  }

  predicate InvoiceOutOfReach(db: Db, i: nat, scope: Scope) {
    i >= |db.invoices| || OutOfReach(db, db.invoices[i].admission, scope)
  }

  predicate PaymentOutOfReach(db: Db, k: nat, scope: Scope) {
    k >= |db.payments| || InvoiceOutOfReach(db, db.payments[k].invoice, scope)
  }

  predicate AcceptedContract(db: Db, a: nat) {
    a in db.contracts && db.contracts[a] == Accepted
  }

  /** Some selected group is no longer open. */
  predicate GroupMissing(groups: seq<Selection>, available: set<nat>) {
    exists g :: g in groups && g.groupId !in available
  }

  predicate LiveFirst(inv: Invoice, a: nat) {
    inv.admission == a && inv.kind == First && inv.status != Voided
  }

  /** The newest first invoice of the admission. */
  predicate Newest(db: Db, a: nat, j: nat) {
    j < |db.invoices| && LiveFirst(db.invoices[j], a) && forall l :: j < l < |db.invoices| ==> !LiveFirst(db.invoices[l], a)
  }

  lemma NewestIs(db: Db, a: nat, j: nat)
    ensures Newest(db, a, j) <==> FirstInvoice(db.invoices, a) == Some(j)
  {
    var first := FirstInvoice(db.invoices, a);
    assert forall inv :: LiveFirst(inv, a) <==> IsFirstOf(inv, a);
  }

  /** The newest first invoice is paid, or is the one that a payment completes. */
  predicate NewestIsPaid(db: Db, a: nat, i: nat) {
    exists j :: 0 <= j < |db.invoices| && Newest(db, a, j) && (j == i || db.invoices[j].status == Paid)
  }

  predicate Settles(db: Db, i: nat) {
    i < |db.invoices| && (db.invoices[i].status == Paid || db.invoices[i].status == Voided)
  }

  function Balance(db: Db, i: nat): int {
    if i < |db.invoices| then db.invoices[i].total - db.invoices[i].paid else 0
  }

  /** A payment by hand that completes a first invoice brings an admission into service. */
  predicate Completes(db: Db, i: nat, amount: int) {
    && i < |db.invoices| && db.invoices[i].kind == First && amount == Balance(db, i)
    && db.invoices[i].admission < |db.admissions| && db.admissions[db.invoices[i].admission].status != Active
  }

  predicate CreateCause(school: nat, groups: seq<Selection>, scope: Scope, available: set<nat>, e: Error) {
    match e
    case NotFound => !scope.allSchools && school !in scope.schools
    case DuplicateGroup => exists i, j :: 0 <= i < j < |groups| && groups[i].groupId == groups[j].groupId
    case GroupUnavailable => GroupMissing(groups, available)
    case ConstraintViolation => exists g :: g in groups && g.amountMinor <= 0
    case _ => false
  }

  /** Uploading and sending are for drafts and for contracts that are out but not accepted. */
  predicate SendCause(db: Db, a: nat, scope: Scope, sends: bool, e: Error) {
    match e
    case NotFound => OutOfReach(db, a, scope)
    case CannotSend => a < |db.admissions| && db.admissions[a].status !in {Draft, ContractSent, ContractSubmitted}
    case ContractRequired => sends && a !in db.contracts
    case _ => false
  }

  predicate SubmitCause(db: Db, a: nat, e: Error) {
    match e
    case NotFound => a >= |db.admissions|
    case ContractRequired => a !in db.contracts
    case CannotSubmit => a in db.contracts && db.contracts[a] !in {Sent, Rejected}
    case _ => false
  }

  predicate ReviewCause(db: Db, a: nat, scope: Scope, e: Error) {
    match e
    case NotFound => OutOfReach(db, a, scope)
    case ContractRequired => a !in db.contracts
    case CannotReview => a in db.contracts && db.contracts[a] != Submitted
    case _ => false
  }

  predicate CancelCause(db: Db, a: nat, expected: nat, scope: Scope, e: Error) {
    match e
    case NotFound => OutOfReach(db, a, scope)
    case CannotCancel => a < |db.admissions| && (db.admissions[a].version != expected || db.admissions[a].status in {Active, Cancelled})
    case _ => false
  }

  predicate Invoiced(db: Db, a: nat, period: int, kind: InvoiceKind) {
    exists inv :: inv in db.invoices && inv.admission == a && inv.period == period && inv.kind == kind && inv.status != Voided
  }

  predicate IssueCause(db: Db, a: nat, period: int, kind: InvoiceKind, scope: Scope, e: Error) {
    match e
    case NotFound => OutOfReach(db, a, scope)
    case CannotIssue =>
      a < |db.admissions| && (!AcceptedContract(db, a) || db.admissions[a].status !in {ContractSubmitted, AwaitingPayment, Active})
    case NoBillableGroups => a < |db.admissions| && !Invoiced(db, a, period, kind) && SumGroups(db.admissions[a].groups) <= 0
    case _ => false
  }

  /** Payments by hand, on the admission's page or on the finance pages. */
  predicate PayCause(db: Db, i: nat, amount: int, expected: nat, scope: Scope, e: Error) {
    match e
    case NotFound => InvoiceOutOfReach(db, i, scope)
    case VersionConflict => i < |db.invoices| && db.invoices[i].version != expected
    case CannotAcceptPayment => Settles(db, i)
    case PaymePendingError => i in db.paymePending
    case ExceedsBalance => i < |db.invoices| && amount > Balance(db, i)
    case ConstraintViolation => amount <= 0
    case _ => false
  }

  predicate ActivationCause(db: Db, i: nat, available: set<nat>, e: Error)
    requires i < |db.invoices| && db.invoices[i].admission < |db.admissions|
  {
    var a := db.invoices[i].admission;
    match e
    case ContractRequired => !AcceptedContract(db, a)
    case FirstInvoiceUnpaid => !NewestIsPaid(db, a, i)
    case GroupUnavailable => GroupMissing(db.admissions[a].groups, available)
    case _ => false
  }

  predicate ReverseCause(db: Db, k: nat, expected: nat, scope: Scope, e: Error) {
    match e
    case NotFound => PaymentOutOfReach(db, k, scope)
    case VersionConflict =>
      k < |db.payments| && db.payments[k].invoice < |db.invoices| && db.invoices[db.payments[k].invoice].version != expected
    case CannotReverse => k < |db.payments| && !(db.payments[k].source == ByHand && db.payments[k].status == Completed)
    case _ => false
  }

  predicate VoidCause(db: Db, i: nat, expected: nat, scope: Scope, e: Error) {
    match e
    case NotFound => InvoiceOutOfReach(db, i, scope)
    case PaymePendingError => i in db.paymePending
    case CannotVoid =>
      i < |db.invoices| && (db.invoices[i].version != expected || db.invoices[i].paid != 0 || db.invoices[i].status !in {Issued, Overdue})
    case _ => false
  }

  /** On the finance pages a pending transaction of the provider is no obstacle. */
  predicate DiscardCause(db: Db, i: nat, expected: nat, scope: Scope, e: Error) {
    match e
    case NotFound => InvoiceOutOfReach(db, i, scope)
    case CannotVoid => Settles(db, i) || (i < |db.invoices| && db.invoices[i].paid > 0)
    case VersionConflict => i < |db.invoices| && db.invoices[i].version != expected
    case _ => false
  }

  predicate ProviderPayCause(db: Db, i: nat, amount: int, available: set<nat>, e: Error) {
    match e
    case NotFound => i >= |db.invoices| || i !in db.paymePending
    case IncorrectAmount => i < |db.invoices| && amount != Balance(db, i)
    case CannotPerform =>
      i < |db.invoices|
      && var a := db.invoices[i].admission;
         || Settles(db, i) || !AcceptedContract(db, a)
         || a >= |db.admissions| || db.admissions[a].status != AwaitingPayment
         || db.admissions[a].groups == [] || GroupMissing(db.admissions[a].groups, available)
    case ConstraintViolation => amount <= 0
    case FirstInvoiceUnpaid =>
      i < |db.invoices| && !NewestIsPaid(db, db.invoices[i].admission, i)
    case _ => false
  }

  predicate ProviderRefundCause(db: Db, k: nat, e: Error) {
    match e
    case NotFound => k >= |db.payments| || db.payments[k].invoice >= |db.invoices|
    case CannotReverse => k < |db.payments| && !(db.payments[k].source == ByPayme && db.payments[k].status == Completed)
    case _ => false
  }

  /** What stands against an operation, whichever check comes first. */
  predicate Cause(db: Db, action: Action, e: Error) {
    match action
    case Create(school, _, groups, scope, available) => CreateCause(school, groups, scope, available, e)
    case Upload(a, scope) => SendCause(db, a, scope, false, e)
    case Send(a, scope) => SendCause(db, a, scope, true, e)
    case Submit(a) => SubmitCause(db, a, e)
    case Review(a, _, scope) => ReviewCause(db, a, scope, e)
    case Cancel(a, expected, scope) => CancelCause(db, a, expected, scope, e)
    case Issue(a, period, kind, scope) => IssueCause(db, a, period, kind, scope, e)
    case Pay(i, amount, expected, scope, available) =>
      PayCause(db, i, amount, expected, scope, e) || (Completes(db, i, amount) && ActivationCause(db, i, available, e))
    case Reverse(k, expected, scope, _) => ReverseCause(db, k, expected, scope, e)
    case Void(i, expected, scope) => VoidCause(db, i, expected, scope, e)
    case ProviderPay(i, amount, available) => ProviderPayCause(db, i, amount, available, e)
    case ProviderRefund(k, _, _) => ProviderRefundCause(db, k, e)
    case SettleByHand(i, amount, expected, scope, _) => PayCause(db, i, amount, expected, scope, e)
    case Unsettle(k, expected, scope, _) => ReverseCause(db, k, expected, scope, e)
    case Discard(i, expected, scope) => DiscardCause(db, i, expected, scope, e)
    case MarkOverdue(i) => e == NotFound && (i >= |db.invoices| || db.invoices[i].status != Issued)
    case SetPaymePending(_, _) => false
  }

  lemma GroupsMissing(groups: seq<Selection>, available: set<nat>)
    ensures GroupsAvailable(groups, available) <==> !GroupMissing(groups, available)
  {
    if GroupMissing(groups, available) {
      var g :| g in groups && g.groupId !in available;
    } else {
      assert forall i :: 0 <= i < |groups| ==> groups[i] in groups;
    }
  }

  /** The first invoice is paid after a payment exactly when the newest one is the invoice paid now or was paid before. */
  lemma FirstPaidAfter(db: Db, i: nat, amount: int, source: PaymentSource)
    requires LedgerOk(db) && i < |db.invoices| && !Settles(db, i) && amount == Balance(db, i) > 0
    ensures var a := db.invoices[i].admission;
            FirstInvoicePaid(Paying(db, i, amount, source), a)
            <==> NewestIsPaid(db, a, i)
  {
    var a, next := db.invoices[i].admission, Paying(db, i, amount, source);
    assert InvoiceOk(db, i);
    var first := FirstInvoice(db.invoices, a);
    if first.Some? {
      SameFirstInvoice(db.invoices, next.invoices, first.value, a);
      NewestIs(db, a, first.value);
    }
    forall j | 0 <= j < |db.invoices| && Newest(db, a, j)
      ensures first == Some(j)
    {
      NewestIs(db, a, j);
    }
    if first.None? {
      assert forall j :: 0 <= j < |db.invoices| ==> IsFirstOf(next.invoices[j], a) == IsFirstOf(db.invoices[j], a);
    }
  }

  /** What the activation after a completing payment by hand finds. */
  lemma ActivationBarred(db: Db, i: nat, available: set<nat>)
    requires LedgerOk(db) && i < |db.invoices| && !Settles(db, i) && Balance(db, i) > 0
    requires db.invoices[i].admission < |db.admissions| && db.admissions[db.invoices[i].admission].status != Active
    ensures var result := Activate(Paying(db, i, Balance(db, i), ByHand), db.invoices[i].admission, available);
            && (result.Failure? ==> ActivationCause(db, i, available, result.error))
            && forall e :: ActivationCause(db, i, available, e) ==> result.Failure?
  {
    GroupsMissing(db.admissions[db.invoices[i].admission].groups, available);
    FirstPaidAfter(db, i, Balance(db, i), ByHand);
  }

  /** A payment by hand within its own limits only depends on the activation that it asks for. */
  lemma PayWithinLimits(db: Db, i: nat, amount: int, expected: nat, scope: Scope, available: set<nat>)
    requires LedgerOk(db)
    ensures var paid := RecordPayment(db, i, amount, expected, scope, available);
            if exists e :: PayCause(db, i, amount, expected, scope, e) then
              paid.Failure? && PayCause(db, i, amount, expected, scope, paid.error)
            else
              && i < |db.invoices| && !Settles(db, i) && 0 < amount <= Balance(db, i) && db.invoices[i].admission < |db.admissions|
              && paid == if amount == Balance(db, i) && db.invoices[i].kind == First
                         then Activate(Paying(db, i, amount, ByHand), db.invoices[i].admission, available)
                         else Success(Paying(db, i, amount, ByHand))
  {
    if i < |db.invoices| {
      assert InvoiceOk(db, i);
    }
    var paid := RecordPayment(db, i, amount, expected, scope, available);
    if !PayCause(db, i, amount, expected, scope, NotFound) && !PayCause(db, i, amount, expected, scope, VersionConflict)
       && !PayCause(db, i, amount, expected, scope, CannotAcceptPayment) && !PayCause(db, i, amount, expected, scope, PaymePendingError)
       && !PayCause(db, i, amount, expected, scope, ExceedsBalance) && !PayCause(db, i, amount, expected, scope, ConstraintViolation) {
      assert forall e :: !PayCause(db, i, amount, expected, scope, e);
    }
  }

  lemma PayRefused(db: Db, i: nat, amount: int, expected: nat, scope: Scope, available: set<nat>, e: Error)
    requires LedgerOk(db)
    ensures var action := Pay(i, amount, expected, scope, available);
            && (Perform(db, action).Failure? ==> Cause(db, action, Perform(db, action).error))
            && (Cause(db, action, e) ==> Perform(db, action).Failure?)
  {
    PayWithinLimits(db, i, amount, expected, scope, available);
    if forall c :: !PayCause(db, i, amount, expected, scope, c) {
      if Completes(db, i, amount) {
        ActivationBarred(db, i, available);
      }
    }
  }

  lemma ProviderFirstPaid(db: Db, i: nat, amount: int)
    requires LedgerOk(db) && i < |db.invoices| && !Settles(db, i) && amount == Balance(db, i) > 0
    ensures var a := db.invoices[i].admission;
            FirstInvoicePaid(Paying(db, i, amount, ByPayme).(paymePending := db.paymePending - {i}), a) <==> NewestIsPaid(db, a, i)
  {
    FirstPaidAfter(db, i, amount, ByPayme);
  }

  /** What the provider's payment needs before the activation, and the activation's own check. */
  predicate ProviderMayPay(db: Db, i: nat, amount: int, available: set<nat>) {
    && i < |db.invoices| && i in db.paymePending && !Settles(db, i) && amount == Balance(db, i) > 0
    && var a := db.invoices[i].admission;
       && AcceptedContract(db, a) && a < |db.admissions| && db.admissions[a].status == AwaitingPayment
       && db.admissions[a].groups != [] && !GroupMissing(db.admissions[a].groups, available)
       && NewestIsPaid(db, a, i)
  }

  lemma ProviderPaysExactly(db: Db, i: nat, amount: int, available: set<nat>)
    requires LedgerOk(db)
    ensures Perform(db, ProviderPay(i, amount, available)).Success? <==> ProviderMayPay(db, i, amount, available)
  {
    if i < |db.invoices| {
      assert InvoiceOk(db, i);
      GroupsMissing(db.admissions[db.invoices[i].admission].groups, available);
      if !Settles(db, i) && amount == Balance(db, i) > 0 {
        ProviderFirstPaid(db, i, amount);
      }
    }
  }

  lemma ProviderPayRefused(db: Db, i: nat, amount: int, available: set<nat>, e: Error)
    requires LedgerOk(db)
    ensures var action := ProviderPay(i, amount, available);
            && (Perform(db, action).Failure? ==> Cause(db, action, Perform(db, action).error))
            && (Cause(db, action, e) ==> Perform(db, action).Failure?)
  {
    ProviderPaysExactly(db, i, amount, available);
    if Perform(db, ProviderPay(i, amount, available)).Failure? {
      ProviderRefusals(db, i, amount, available);
    }
  }

  lemma ProviderRefusals(db: Db, i: nat, amount: int, available: set<nat>)
    requires LedgerOk(db) && PerformPayme(db, i, amount, available).Failure?
    ensures ProviderPayCause(db, i, amount, available, PerformPayme(db, i, amount, available).error)
  {
    if i < |db.invoices| {
      assert InvoiceOk(db, i);
      GroupsMissing(db.admissions[db.invoices[i].admission].groups, available);
      if !Settles(db, i) && amount == Balance(db, i) > 0 {
        ProviderFirstPaid(db, i, amount);
      }
    }
  }

  lemma CreateRefused(db: Db, school: nat, start: Option<int>, groups: seq<Selection>, scope: Scope, available: set<nat>, e: Error)
    ensures var action := Create(school, start, groups, scope, available);
            && (Perform(db, action).Failure? ==> Cause(db, action, Perform(db, action).error))
            && (Cause(db, action, e) ==> Perform(db, action).Failure?)
  {
    GroupsMissing(groups, available);
    assert forall i :: 0 <= i < |groups| ==> groups[i] in groups;
  }

  lemma IssueRefused(db: Db, a: nat, period: int, kind: InvoiceKind, scope: Scope, e: Error)
    ensures var action := Issue(a, period, kind, scope);
            && (Perform(db, action).Failure? ==> Cause(db, action, Perform(db, action).error))
            && (Cause(db, action, e) ==> Perform(db, action).Failure?)
  {
    FindIsInvoiced(db, a, period, kind);
  }

  lemma FindIsInvoiced(db: Db, a: nat, period: int, kind: InvoiceKind)
    ensures FindForPeriod(db.invoices, a, period, kind).Some? <==> Invoiced(db, a, period, kind)
  {
    var found := FindForPeriod(db.invoices, a, period, kind);
    if found.Some? {
      assert db.invoices[found.value] in db.invoices;
    }
  }

  lemma ReverseRefused(db: Db, k: nat, expected: nat, scope: Scope, today: int, late: bool, e: Error)
    ensures var action := Reverse(k, expected, scope, today);
            && (Perform(db, action).Failure? ==> Cause(db, action, Perform(db, action).error))
            && (Cause(db, action, e) ==> Perform(db, action).Failure?)
    ensures var action := Unsettle(k, expected, scope, late);
            && (Perform(db, action).Failure? ==> Cause(db, action, Perform(db, action).error))
            && (Cause(db, action, e) ==> Perform(db, action).Failure?)
  {
  }

  lemma SettleRefused(db: Db, i: nat, amount: int, expected: nat, scope: Scope, late: bool, e: Error)
    ensures var action := SettleByHand(i, amount, expected, scope, late);
            && (Perform(db, action).Failure? ==> Cause(db, action, Perform(db, action).error))
            && (Cause(db, action, e) ==> Perform(db, action).Failure?)
  {
  }

  lemma VoidRefused(db: Db, i: nat, expected: nat, scope: Scope, e: Error)
    requires LedgerOk(db)
    ensures var action := Void(i, expected, scope);
            && (Perform(db, action).Failure? ==> Cause(db, action, Perform(db, action).error))
            && (Cause(db, action, e) ==> Perform(db, action).Failure?)
    ensures var action := Discard(i, expected, scope);
            && (Perform(db, action).Failure? ==> Cause(db, action, Perform(db, action).error))
            && (Cause(db, action, e) ==> Perform(db, action).Failure?)
  {
    if i < |db.invoices| {
      assert InvoiceOk(db, i);
    }
  }

  lemma RefundRefused(db: Db, k: nat, late: bool, today: int, e: Error)
    requires LedgerOk(db)
    ensures var action := ProviderRefund(k, late, today);
            && (Perform(db, action).Failure? ==> Cause(db, action, Perform(db, action).error))
            && (Cause(db, action, e) ==> Perform(db, action).Failure?)
  {
    if k < |db.payments| && db.payments[k].invoice < |db.invoices| {
      assert InvoiceOk(db, db.payments[k].invoice);
    }
  }

  lemma ContractRefused(db: Db, action: Action, e: Error)
    requires action.Upload? || action.Send? || action.Submit? || action.Review? || action.Cancel?
    ensures Perform(db, action).Failure? ==> Cause(db, action, Perform(db, action).error)
    ensures Cause(db, action, e) ==> Perform(db, action).Failure?
  {
  }

  /** An operation is refused exactly when some cause stands against it, and the error that it gives is such a cause. */
  lemma RefusedExactly(db: Db, action: Action, e: Error)
    requires LedgerOk(db)
    ensures Perform(db, action).Failure? ==> Cause(db, action, Perform(db, action).error)
    ensures Cause(db, action, e) ==> Perform(db, action).Failure?
  {
    match action
    case Pay(i, amount, expected, scope, available) => PayRefused(db, i, amount, expected, scope, available, e);
    case ProviderPay(i, amount, available) => ProviderPayRefused(db, i, amount, available, e);
    case Create(school, start, groups, scope, available) => CreateRefused(db, school, start, groups, scope, available, e);
    case Issue(a, period, kind, scope) => IssueRefused(db, a, period, kind, scope, e);
    case Reverse(k, expected, scope, today) => ReverseRefused(db, k, expected, scope, today, false, e);
    case Unsettle(k, expected, scope, late) => ReverseRefused(db, k, expected, scope, 0, late, e);
    case SettleByHand(i, amount, expected, scope, late) => SettleRefused(db, i, amount, expected, scope, late, e);
    case Void(i, expected, scope) => VoidRefused(db, i, expected, scope, e);
    case Discard(i, expected, scope) => VoidRefused(db, i, expected, scope, e);
    case ProviderRefund(k, late, today) => RefundRefused(db, k, late, today, e);
    case MarkOverdue(_) =>
    case SetPaymePending(_, _) =>
    case _ => ContractRefused(db, action, e);
  }

  // ------------------------------------------------------------------- effects

  /** The invoice that an operation pays, or takes money of, and how much the paid amount rises. */
  function Moved(db: Db, action: Action, i: nat): int {
    match action
    case Pay(j, amount, _, _, _) => if i == j then amount else 0
    case ProviderPay(j, amount, _) => if i == j then amount else 0
    case SettleByHand(j, amount, _, _, _) => if i == j then amount else 0
    case Reverse(k, _, _, _) => if k < |db.payments| && db.payments[k].invoice == i then -db.payments[k].amount else 0
    case ProviderRefund(k, _, _) => if k < |db.payments| && db.payments[k].invoice == i then -db.payments[k].amount else 0
    case Unsettle(k, _, _, _) => if k < |db.payments| && db.payments[k].invoice == i then -db.payments[k].amount else 0
    case _ => 0
  }

  /** Only the provider's refunds and the finance pages look at the due date again. */
  predicate FoundLate(action: Action) {
    (action.ProviderRefund? || action.Unsettle?) && action.late
  }

  predicate ShowsBalance(inv: Invoice, late: bool) {
    && (inv.status == Paid <==> inv.paid == inv.total)
    && (inv.status == PartiallyPaid <==> 0 < inv.paid < inv.total)
    && (inv.status == Overdue <==> inv.paid == 0 && late)
    && (inv.status == Issued <==> inv.paid == 0 && !late)
  }

  predicate InvoiceAfter(db: Db, action: Action, i: nat, inv: Invoice)
    requires i < |db.invoices|
  {
    var was := db.invoices[i];
    if Moved(db, action, i) != 0 then
      && inv.(status := was.status) == was.(paid := was.paid + Moved(db, action, i), version := was.version + 1)
      && ShowsBalance(inv, FoundLate(action))
    else if (action.Void? || action.Discard?) && action.i == i then
      inv == was.(status := Voided, version := was.version + 1)
    else if action.MarkOverdue? && action.i == i then
      inv == was.(status := Overdue, version := was.version + 1)
    else inv == was
  }

  lemma PaidInvoice(db: Db, action: Action, i: nat)
    requires LedgerOk(db) && Perform(db, action).Success? && i < |db.invoices|
    requires action.Pay? || action.ProviderPay? || action.SettleByHand?
    ensures i < |Step(db, action).invoices| && InvoiceAfter(db, action, i, Step(db, action).invoices[i])
  {
    assert InvoiceOk(db, i);
    if action.SettleByHand? {
      FinancePayKeepsLedger(db, action.i, action.amount, action.expected, action.scope, action.late);
    } else {
      PaymentStep(db, action);
      assert Step(db, action).invoices == Paying(db, action.i, action.amount, ByHand).invoices;
    }
  }

  lemma ReversedInvoice(db: Db, action: Action, i: nat)
    requires LedgerOk(db) && Perform(db, action).Success? && i < |db.invoices| && action.Reverse?
    ensures i < |Step(db, action).invoices| && InvoiceAfter(db, action, i, Step(db, action).invoices[i])
  {
    assert InvoiceOk(db, i);
    ReverseKeepsLedger(db, action.k, action.expected, action.scope, action.today);
  }

  lemma RefundedInvoice(db: Db, action: Action, i: nat)
    requires LedgerOk(db) && Perform(db, action).Success? && i < |db.invoices| && action.ProviderRefund?
    ensures i < |Step(db, action).invoices| && InvoiceAfter(db, action, i, Step(db, action).invoices[i])
  {
    assert InvoiceOk(db, i);
    RefundKeepsLedger(db, action.k, action.late, action.today);
  }

  lemma UnsettledInvoice(db: Db, action: Action, i: nat)
    requires LedgerOk(db) && Perform(db, action).Success? && i < |db.invoices| && action.Unsettle?
    ensures i < |Step(db, action).invoices| && InvoiceAfter(db, action, i, Step(db, action).invoices[i])
  {
    assert InvoiceOk(db, i);
    FinanceReverseKeepsLedger(db, action.k, action.expected, action.scope, action.late);
    assert InvoiceOk(Step(db, action), i);
  }

  /** What an operation does to an invoice. */
  lemma InvoiceEffect(db: Db, action: Action, i: nat)
    requires LedgerOk(db) && Perform(db, action).Success? && i < |db.invoices|
    ensures i < |Step(db, action).invoices| && InvoiceAfter(db, action, i, Step(db, action).invoices[i])
  {
    match action
    case Pay(_, _, _, _, _) => PaidInvoice(db, action, i);
    case ProviderPay(_, _, _) => PaidInvoice(db, action, i);
    case SettleByHand(_, _, _, _, _) => PaidInvoice(db, action, i);
    case Reverse(_, _, _, _) => ReversedInvoice(db, action, i);
    case ProviderRefund(_, _, _) => RefundedInvoice(db, action, i);
    case Unsettle(_, _, _, _) => UnsettledInvoice(db, action, i);
    case _ =>
  }

  /** One line of the invoice for each selected group, at its amount. */
  predicate LinesOf(lines: seq<Line>, groups: seq<Selection>, invoice: nat) {
    && |lines| == |groups|
    && forall j :: 0 <= j < |groups| ==> lines[j] == Line(invoice, groups[j].groupId, groups[j].amountMinor)
  }

  lemma {:induction false} LinesForAre(groups: seq<Selection>, invoice: nat)
    ensures LinesOf(LinesFor(groups, invoice), groups, invoice)
  {
    if groups != [] {
      LinesForAre(groups[..|groups| - 1], invoice);
    }
  }

  /**
   Only an issue for a month and kind without a live invoice adds one: unpaid,
   with one line for each selected group, whose amounts are its total.
   */
  lemma NewInvoice(db: Db, action: Action)
    requires LedgerOk(db) && Perform(db, action).Success?
    ensures var after := Step(db, action);
            if action.Issue? && !Invoiced(db, action.a, action.period, action.kind) then
              && action.a < |db.admissions| && |after.invoices| == |db.invoices| + 1 && after.invoices[..|db.invoices|] == db.invoices
              && (var inv := after.invoices[|db.invoices|];
                  && inv.admission == action.a && inv.kind == action.kind && inv.period == action.period
                  && inv.paid == 0 && inv.status == Issued && inv.version == 1 && inv.total == SumLines(after.lines, |db.invoices|))
              && |after.lines| >= |db.lines| && after.lines[..|db.lines|] == db.lines
              && LinesOf(after.lines[|db.lines|..], db.admissions[action.a].groups, |db.invoices|)
            else |after.invoices| == |db.invoices| && after.lines == db.lines
  {
    if action.Issue? {
      FindIsInvoiced(db, action.a, action.period, action.kind);
      if !Invoiced(db, action.a, action.period, action.kind) {
        LinesForAre(db.admissions[action.a].groups, |db.invoices|);
        IssueKeepsLedger(db, action.a, action.period, action.kind, action.scope);
        assert InvoiceOk(Step(db, action), |db.invoices|);
        var lines := LinesFor(db.admissions[action.a].groups, |db.invoices|);
        assert (db.lines + lines)[|db.lines|..] == lines;
      }
    }
  }

  predicate TakesBackPayment(action: Action, k: nat) {
    (action.Reverse? || action.ProviderRefund? || action.Unsettle?) && action.k == k
  }

  /** A payment row is added or has its status changed by the operation that says so, and by no other. */
  lemma PaymentEffect(db: Db, action: Action, k: nat)
    requires Perform(db, action).Success?
    ensures var after := Step(db, action);
            && |after.payments| == |db.payments| + (if action.Pay? || action.ProviderPay? || action.SettleByHand? then 1 else 0)
            && (action.Pay? || action.SettleByHand? ==>
                  after.payments[|db.payments|] == Payment(action.i, ByHand, action.amount, Completed))
            && (action.ProviderPay? ==> after.payments[|db.payments|] == Payment(action.i, ByPayme, action.amount, Completed))
            && (k < |db.payments| ==>
                  after.payments[k] == if !TakesBackPayment(action, k) then db.payments[k]
                                       else db.payments[k].(status := if action.ProviderRefund? then Refunded else Reversed))
            && (forall i :: i in after.paymePending <==>
                  if action.SetPaymePending? && action.i == i then action.pending
                  else i in db.paymePending && !(action.ProviderPay? && action.i == i))
  {
    if action.Pay? || action.ProviderPay? {
      PaymentStep(db, action);
    }
  }

  /**
   After a payment is taken back: a cancelled or expired admission stays as it
   is, and any other awaits payment again unless its service has begun, when it
   goes to review.
   */
  predicate PutBack(was: Admission, row: Admission, today: int) {
    if was.status == Cancelled || was.status == Expired then row == was
    else
      && row == was.(status := row.status, version := was.version + 1)
      && (row.status == PaymentReview <==> was.serviceStart.Some? && was.serviceStart.value <= today)
      && (row.status == AwaitingPayment <==> was.serviceStart.None? || today < was.serviceStart.value)
  }

  /** The payment brings the admission into service. */
  predicate Admits(db: Db, action: Action, a: nat) {
    && (action.Pay? || action.ProviderPay?)
    && action.i < |db.invoices| && db.invoices[action.i].admission == a
    && a < |db.admissions| && db.admissions[a].status != Active
    && (action.Pay? ==> db.invoices[action.i].kind == First && action.amount == Balance(db, action.i))
  }

  predicate PutsBack(db: Db, action: Action, a: nat) {
    && (action.Reverse? || action.ProviderRefund?)
    && action.k < |db.payments| && db.payments[action.k].invoice < |db.invoices|
    && db.invoices[db.payments[action.k].invoice].admission == a
  }

  predicate AdmissionAfter(db: Db, action: Action, a: nat, row: Admission)
    requires a < |db.admissions|
  {
    var was := db.admissions[a];
    if PutsBack(db, action, a) then PutBack(was, row, action.today)
    else if Admits(db, action, a) then row == was.(status := Active, student := Some(|db.students|), version := was.version + 1)
    else if action.Send? && action.a == a then row == was.(status := ContractSent, version := was.version + 1)
    else if action.Submit? && action.a == a then row == was.(status := ContractSubmitted, version := was.version + 1)
    else if action.Review? && action.a == a then
      row == was.(status := if action.accepted then AwaitingPayment else ContractSent, version := was.version + 1)
    else if action.Cancel? && action.a == a then row == was.(status := Cancelled, version := was.version + 1)
    else row == was
  }

  lemma AdmittedAfter(db: Db, action: Action, a: nat)
    requires LedgerOk(db) && Perform(db, action).Success? && (action.Pay? || action.ProviderPay?)
    ensures |Step(db, action).admissions| == |db.admissions|
    ensures a < |db.admissions| ==> AdmissionAfter(db, action, a, Step(db, action).admissions[a])
  {
    assert InvoiceOk(db, action.i);
    PaymentStep(db, action);
  }

  lemma PutBackAfter(db: Db, action: Action, a: nat)
    requires Perform(db, action).Success? && (action.Reverse? || action.ProviderRefund?)
    ensures |Step(db, action).admissions| == |db.admissions|
    ensures a < |db.admissions| ==> AdmissionAfter(db, action, a, Step(db, action).admissions[a])
  {
  }

  /** What an operation does to an admission, and which one creates one. */
  lemma AdmissionEffect(db: Db, action: Action, a: nat)
    requires LedgerOk(db) && Perform(db, action).Success?
    ensures var after := Step(db, action).admissions;
            && |after| == |db.admissions| + (if action.Create? then 1 else 0)
            && (a < |db.admissions| ==> AdmissionAfter(db, action, a, after[a]))
            && (action.Create? ==>
                  after[|db.admissions|] == Admission(action.school, Draft, 1, action.serviceStart, None, action.groups))
  {
    if action.Pay? || action.ProviderPay? {
      AdmittedAfter(db, action, a);
    } else if action.Reverse? || action.ProviderRefund? {
      PutBackAfter(db, action, a);
    }
  }

  /** The contract of an admission follows its uploads, sendings, submissions and reviews, and nothing else. */
  lemma ContractEffect(db: Db, action: Action, a: nat)
    requires Perform(db, action).Success?
    ensures var after := Step(db, action).contracts;
            if (action.Upload? || action.Send? || action.Submit? || action.Review?) && action.a == a then
              && a in after
              && (action.Upload? ==> after[a] == Uploaded) && (action.Send? ==> after[a] == Sent)
              && (action.Submit? ==> after[a] == Submitted)
              && (action.Review? ==> after[a] == if action.accepted then Accepted else Rejected)
            else (a in after <==> a in db.contracts) && (a in db.contracts ==> after[a] == db.contracts[a])
  {
  }

  /**
   The invoice of a payment that was taken back can be paid by the provider
   exactly when the admission was neither cancelled nor expired, its service has
   not begun, and the contract, the groups and the newest first invoice would
   let the admission be activated.
   */
  lemma ProviderAfterTakingBack(db: Db, action: Action, available: set<nat>)
    requires LedgerOk(db) && (action.Reverse? || action.ProviderRefund?) && Perform(db, action).Success?
    ensures action.k < |db.payments| && db.payments[action.k].invoice < |db.invoices|
    ensures var i := db.payments[action.k].invoice;
            var a, after := db.invoices[i].admission, Step(db, action);
            && a < |db.admissions|
            && (Perform(after, ProviderPay(i, Balance(after, i), available)).Success?
                <==> var was := db.admissions[a];
                     && was.status != Cancelled && was.status != Expired && (was.serviceStart.Some? ==> action.today < was.serviceStart.value)
                     && i in db.paymePending && AcceptedContract(db, a)
                     && was.groups != [] && !GroupMissing(was.groups, available) && NewestIsPaid(db, a, i))
  {
    var i := db.payments[action.k].invoice;
    var after := Step(db, action);
    assert InvoiceOk(db, i);
    StepKeepsLedger(db, action);
    assert InvoiceOk(after, i);
    AdmissionEffect(db, action, db.invoices[i].admission);
    InvoiceEffect(db, action, i);
    NewestAfterTakingBack(db, action, db.invoices[i].admission);
    ProviderPaysExactly(after, i, Balance(after, i), available);
  }

  lemma NewestAfterTakingBack(db: Db, action: Action, a: nat)
    requires LedgerOk(db) && (action.Reverse? || action.ProviderRefund?) && Perform(db, action).Success?
    ensures var i := db.payments[action.k].invoice; NewestIsPaid(Step(db, action), a, i) <==> NewestIsPaid(db, a, i)
  {
    var after, i := Step(db, action), db.payments[action.k].invoice;
    assert |after.invoices| == |db.invoices|;
    forall j | 0 <= j < |db.invoices|
      ensures LiveFirst(after.invoices[j], a) <==> LiveFirst(db.invoices[j], a)
      ensures j != i ==> after.invoices[j] == db.invoices[j]
    {
      InvoiceEffect(db, action, j);
      assert InvoiceOk(db, j);
    }
    assert forall j :: 0 <= j < |db.invoices| ==> (Newest(db, a, j) <==> Newest(after, a, j));
  }
}
