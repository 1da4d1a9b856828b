/** Escrow settlement over the payment processor: the hold placed when a paid task is created,
    the capture and worker transfer when it is accepted, the refund, and the check of the
    processor's webhook signatures. The processor is an input (`Store.Processor`); every call is
    appended to the state's call log. */
module Settlement {
  import opened Wrappers
  import opened Types
  import opened Store
  import opened Decimal
  import opened Text
  import Audit
  import Fees
  import Crypto
  import Hex
  import ConstantTime

  const UnknownError: string := "Unknown error"

  /** The message `stripeRequest` throws for a reply that is not a success. */
  function ProcessorError(message: string): string {
    "Stripe API error: " + (if message == "" then UnknownError else message)
  }

  /** `stripeRequest`: the call is recorded; a failed reply throws. */
  function Call(st: State, p: Processor, call: ProcessorCall): (r: (State, Result<string, Failure>))
    ensures r.0 == st.(calls := st.calls + [call])
    ensures r.1.Ok? <==> p(st.calls, call).Ok?
    ensures r.1.Ok? ==> r.1.value == p(st.calls, call).value
    ensures r.1.Err? ==> r.1.error == Thrown(ProcessorError(p(st.calls, call).error))
  {
    var st' := st.(calls := st.calls + [call]);
    match p(st.calls, call)
    case Ok(id) => (st', Ok(id))
    case Err(message) => (st', Err(Thrown(ProcessorError(message))))
  }

  /** `Math.round(amount * 100).toString()` for an amount of `cents` cents expressed in dollars. */
  function ChargeAmount(cents: int): (r: string)
    ensures r == IntToDecimal(cents)
  {
    Fees.RoundCents(cents);
    IntToDecimal(Fees.Round(Fees.Dollars(cents) * 100.0))
  }

  // ---------------------------------------------------------------- hold

  /** The first half of `createTaskPayment`: the customer to charge. A supplied (truthy) customer
      id is used as is; otherwise a customer is created and its id stored on the employer's row
      before anything else can fail. */
  function EnsureCustomer(st: State, p: Processor, employerId: string, customerId: Option<string>)
    : (r: (State, Result<string, Failure>))
    ensures Truthy(customerId) ==> r == (st, Ok(customerId.value))
    ensures !Truthy(customerId) ==> r.0.calls == st.calls + [CreateCustomer(employerId)]
    ensures r.0.tasks == st.tasks && r.0.audit == st.audit && |r.0.agents| == |st.agents|
    ensures r.0 == st.(calls := r.0.calls, agents := r.0.agents)
    ensures r.1.Err? ==> r.1.error.Thrown? && r.0.agents == st.agents
    ensures !Truthy(customerId) && r.1.Ok? ==>
              forall i :: 0 <= i < |st.agents| ==>
                r.0.agents[i] == if st.agents[i].id == employerId
                                 then st.agents[i].(stripeCustomerId := Some(r.1.value)) else st.agents[i]
  {
    if Truthy(customerId) then (st, Ok(customerId.value))
    else
      var (st1, created) := Call(st, p, CreateCustomer(employerId));
      match created
      case Err(_) => (st1, created)
      case Ok(id) => (UpdateAgent(st1, employerId, (a: Agent) => a.(stripeCustomerId := Some(id))), created)
  }

  function HoldDetails(intentId: string, cents: int): Details {
    map[PaymentIntentIdKey := VStr(intentId), AmountKey := VCents(cents), CurrencyKey := VStr("usd")]
  }

  /** `createTaskPayment`: places a manual-capture hold of `cents` on the customer, records the
      intent on the task as held and logs one `payment_hold` entry. Answers the intent id. */
  function CreateTaskPayment(st: State, p: Processor, now: nat, taskId: string, employerId: string,
                             cents: int, customerId: Option<string>): (r: Outcome<string>)
    ensures !Truthy(customerId) ==>
              |r.state.calls| > |st.calls| && r.state.calls[|st.calls|] == CreateCustomer(employerId)
    ensures Truthy(customerId) ==>
              r.state.agents == st.agents &&
              r.state.calls == st.calls + [CreateIntent(IntToDecimal(cents), customerId.value, taskId, employerId)]
    ensures r.result.Ok? ==>
              var last := r.state.calls[|r.state.calls| - 1];
              last.CreateIntent? && last.amount == IntToDecimal(cents) && last.taskId == taskId &&
              last.employerId == employerId
    ensures r.result.Ok? ==>
              |r.state.tasks| == |st.tasks| &&
              forall i :: 0 <= i < |st.tasks| ==>
                r.state.tasks[i] == if st.tasks[i].id == taskId
                                    then st.tasks[i].(paymentIntentId := Some(r.result.value), paymentStatus := PaymentHeld)
                                    else st.tasks[i]
    ensures r.result.Ok? ==>
              r.state.audit == st.audit + [AuditEntry(taskId, PaymentHold, "system", PlatformActor,
                                                      HoldDetails(r.result.value, cents), None, now)]
    ensures r.result.Err? ==> r.result.error.Thrown? && r.state.tasks == st.tasks && r.state.audit == st.audit
  {
    var (st1, customer) := EnsureCustomer(st, p, employerId, customerId);
    match customer
    case Err(e) => Outcome(st1, Err(e))
    case Ok(cust) =>
      var (st2, intent) := Call(st1, p, CreateIntent(ChargeAmount(cents), cust, taskId, employerId));
      match intent
      case Err(e) => Outcome(st2, Err(e))
      case Ok(pi) =>
        var st3 := UpdateTask(st2, taskId, (t: Task) => t.(paymentIntentId := Some(pi), paymentStatus := PaymentHeld));
        Outcome(Audit.LogSystem(st3, now, taskId, PaymentHold, HoldDetails(pi, cents)), Ok(pi))
  }

  // ---------------------------------------------------------------- settle

  const TaskNotFound: string := "Task not found"
  const NoIntent: string := "No payment intent found for this task"
  const NoWorker: string := "No worker assigned to this task"
  const WorkerNotFound: string := "Worker not found"
  const DeferredWarning: string := "Worker has no Stripe Connect account. Transfer deferred."
  const NotConfigured: string := "not_configured"

  /** The split of a budget between worker and platform, in dollars. A fee percentage that
      parsed to NaN (None) makes both amounts NaN (None). */
  datatype Shares = Shares(workerAmount: Option<real>, platformFee: Option<real>)

  function SplitBudget(cents: int, feePercent: Option<int>): (r: Shares)
    ensures feePercent.None? <==> r.workerAmount.None?
    ensures r.workerAmount.None? <==> r.platformFee.None?
    ensures feePercent.Some? ==> r.workerAmount.value + r.platformFee.value == Fees.Dollars(cents)
    ensures feePercent.Some? && cents >= 0 && 0 <= feePercent.value <= 100 ==>
              0.0 <= r.workerAmount.value <= Fees.Dollars(cents) && 0.0 <= r.platformFee.value <= Fees.Dollars(cents)
  {
    match feePercent
    case None => Shares(None, None)
    case Some(pct) =>
      var amount := Fees.Dollars(cents);
      ShareFacts(amount, pct as real);
      Shares(Some(Fees.WorkerShare(amount, pct as real)), Some(Fees.PlatformShare(amount, pct as real)))
  }

  lemma ShareFacts(amount: real, percent: real)
    ensures Fees.WorkerShare(amount, percent) + Fees.PlatformShare(amount, percent) == amount
    ensures amount >= 0.0 && 0.0 <= percent <= 100.0 ==>
              0.0 <= Fees.WorkerShare(amount, percent) <= amount && 0.0 <= Fees.PlatformShare(amount, percent) <= amount
  {
    Fees.SharesSum(amount, percent);
    if amount >= 0.0 && 0.0 <= percent <= 100.0 {
      Fees.SharesBounded(amount, percent);
    }
  }

  /** `Math.round(worker_amount * 100).toString()`: NaN renders as `NaN`. */
  function TransferAmount(split: Shares): string {
    match split.workerAmount
    case Some(w) => IntToDecimal(Fees.Round(w * 100.0))
    case None => "NaN"
  }

  /** A number as JSON keeps it: NaN becomes null. */
  function NumberValue(x: Option<real>): Value {
    match x
    case Some(v) => VNum(v)
    case None => VNull
  }

  function CaptureDetails(intentId: string, cents: int): Details {
    map[PaymentIntentIdKey := VStr(intentId), AmountKey := VCents(cents)]
  }

  function DeferredDetails(workerId: string, cents: int): Details {
    map[WarningKey := VStr(DeferredWarning), WorkerIdKey := VStr(workerId), AmountKey := VCents(cents)]
  }

  /** The final `payment_split` details; `accountId` is the payout account or `not_configured`. */
  function SplitDetails(cents: int, feePercent: Option<int>, accountId: string): Details {
    var split := SplitBudget(cents, feePercent);
    map[TotalAmountKey := VCents(cents),
        WorkerAmountKey := NumberValue(split.workerAmount),
        PlatformFeeKey := NumberValue(split.platformFee),
        PlatformFeePercentKey := if feePercent.Some? then VInt(feePercent.value) else VNull,
        WorkerAccountIdKey := VStr(accountId)]
  }

  /** The last part of `settleTask`, once the payment is captured: a worker without a payout
      account gets a `Transfer deferred` entry and no transfer; otherwise the worker's share is
      transferred. Either way a final `payment_split` entry is logged. */
  function Distribute(st: State, p: Processor, now: nat, taskId: string, budget: int, workerId: string,
                      worker: Agent, feePercent: Option<int>): (r: Outcome<()>)
    ensures r.state == st.(calls := r.state.calls, audit := r.state.audit)
    ensures |r.state.audit| >= |st.audit| && r.state.audit[..|st.audit|] == st.audit
    ensures r.result.Ok? ==> |r.state.audit| > |st.audit| && r.state.audit[|r.state.audit| - 1].action == PaymentSplit
    ensures !Truthy(worker.stripeAccountId) ==>
              r.result.Ok? && r.state.calls == st.calls &&
              r.state.audit == st.audit +
                [AuditEntry(taskId, PaymentSplit, "system", PlatformActor, DeferredDetails(worker.id, budget), None, now),
                 AuditEntry(taskId, PaymentSplit, "system", PlatformActor,
                            SplitDetails(budget, feePercent, NotConfigured), None, now)]
    ensures Truthy(worker.stripeAccountId) ==>
              var transfer := CreateTransfer(TransferAmount(SplitBudget(budget, feePercent)),
                                             worker.stripeAccountId.value, taskId, workerId);
              r.state.calls == st.calls + [transfer] &&
              (r.result.Ok? <==> p(st.calls, transfer).Ok?) &&
              (r.result.Err? ==> r.state.audit == st.audit) &&
              (r.result.Ok? ==>
                 r.state.audit == st.audit +
                   [AuditEntry(taskId, PaymentSplit, "system", PlatformActor,
                               SplitDetails(budget, feePercent, worker.stripeAccountId.value), None, now)])
  {
    var account := worker.stripeAccountId;
    var final := SplitDetails(budget, feePercent, if Truthy(account) then account.value else NotConfigured);
    if !Truthy(account) then
      var st1 := Audit.LogSystem(st, now, taskId, PaymentSplit, DeferredDetails(worker.id, budget));
      Outcome(Audit.LogSystem(st1, now, taskId, PaymentSplit, final), Ok(()))
    else
      var transfer := CreateTransfer(TransferAmount(SplitBudget(budget, feePercent)), account.value, taskId, workerId);
      var (st1, sent) := Call(st, p, transfer);
      match sent
      case Err(e) => Outcome(st1, Err(e))
      case Ok(_) => Outcome(Audit.LogSystem(st1, now, taskId, PaymentSplit, final), Ok(()))
  }

  /** The checks `settleTask` makes before touching the processor. */
  predicate Settleable(st: State, taskId: string) {
    FindTask(st, taskId).Some? && Truthy(FindTask(st, taskId).value.paymentIntentId) &&
    Truthy(FindTask(st, taskId).value.workerId)
  }

  /** A payment step changes no task field but the payment status, leaves submissions and
      reviews alone, and only appends to the log. */
  predicate PaymentOnly(before: State, after: State) {
    |after.tasks| == |before.tasks| &&
    (forall i :: 0 <= i < |before.tasks| ==>
       after.tasks[i] == before.tasks[i].(paymentStatus := after.tasks[i].paymentStatus)) &&
    |after.audit| >= |before.audit| && after.audit[..|before.audit|] == before.audit &&
    after.submissions == before.submissions && after.reviews == before.reviews
  }

  /** Appending a log entry after a payment step keeps it a payment step. */
  lemma PaymentOnlyLogged(before: State, after: State, e: AuditEntry)
    requires PaymentOnly(before, after)
    ensures PaymentOnly(before, after.(audit := after.audit + [e]))
  {
    var logged := after.audit + [e];
    assert logged[..|after.audit|] == after.audit;
    assert logged[..|before.audit|] == after.audit[..|before.audit|];
  }

  /** A payment step followed by a step that only appends to the log is a payment step. */
  lemma PaymentOnlyThen(a: State, b: State, c: State)
    requires PaymentOnly(a, b)
    requires c.tasks == b.tasks && c.submissions == b.submissions && c.reviews == b.reviews
    requires |c.audit| >= |b.audit| && c.audit[..|b.audit|] == b.audit
    ensures PaymentOnly(a, c)
  {
    assert c.audit[..|a.audit|] == c.audit[..|b.audit|][..|a.audit|];
  }

  /** The capture step of `settleTask`: the capture call, then on success the task marked
      captured and one `payment_capture` entry. */
  function Capture(st: State, p: Processor, now: nat, t: Task): (r: Outcome<()>)
    requires Truthy(t.paymentIntentId)
    ensures r.state.calls == st.calls + [CaptureIntent(t.paymentIntentId.value)]
    ensures r.state.agents == st.agents && r.state.submissions == st.submissions && r.state.reviews == st.reviews
    ensures r.result.Ok? <==> p(st.calls, CaptureIntent(t.paymentIntentId.value)).Ok?
    ensures r.result.Err? ==>
              r == Outcome(st.(calls := st.calls + [CaptureIntent(t.paymentIntentId.value)]),
                           Err(Thrown(ProcessorError(p(st.calls, CaptureIntent(t.paymentIntentId.value)).error))))
    ensures r.result.Ok? ==>
              |r.state.tasks| == |st.tasks| &&
              (forall i :: 0 <= i < |st.tasks| ==>
                 r.state.tasks[i] == if st.tasks[i].id == t.id
                                     then st.tasks[i].(paymentStatus := PaymentCaptured) else st.tasks[i]) &&
              r.state.audit == st.audit + [AuditEntry(t.id, PaymentCapture, "system", PlatformActor,
                                                      CaptureDetails(t.paymentIntentId.value, t.budget), None, now)]
  {
    var pi := t.paymentIntentId.value;
    var (st1, captured) := Call(st, p, CaptureIntent(pi));
    match captured
    case Err(e) => Outcome(st1, Err(e))
    case Ok(_) =>
      var st2 := UpdateTask(st1, t.id, (x: Task) => x.(paymentStatus := PaymentCaptured));
      Outcome(Audit.LogSystem(st2, now, t.id, PaymentCapture, CaptureDetails(pi, t.budget)), Ok(()))
  }

  /** The capture step is a payment step. */
  lemma CaptureIsPaymentOnly(st: State, p: Processor, now: nat, t: Task)
    requires Truthy(t.paymentIntentId)
    ensures PaymentOnly(st, Capture(st, p, now, t).state)
  {
    var c := Capture(st, p, now, t);
    if c.result.Ok? {
      assert c.state.audit[..|st.audit|] == st.audit;
    }
  }

  /** The capture and payout of `settleTask`, for a task that passed its checks. */
  function CaptureAndPay(st: State, p: Processor, now: nat, t: Task, feePercent: Option<int>): (r: Outcome<()>)
    requires Truthy(t.paymentIntentId) && Truthy(t.workerId)
    ensures PaymentOnly(st, r.state)
    ensures |r.state.calls| > |st.calls| && r.state.calls[|st.calls|] == CaptureIntent(t.paymentIntentId.value)
    ensures r.result.Err? ==> r.result.error.Thrown?
    ensures p(st.calls, CaptureIntent(t.paymentIntentId.value)).Err? ==>
              r == Outcome(st.(calls := st.calls + [CaptureIntent(t.paymentIntentId.value)]),
                           Err(Thrown(ProcessorError(p(st.calls, CaptureIntent(t.paymentIntentId.value)).error))))
    ensures p(st.calls, CaptureIntent(t.paymentIntentId.value)).Ok? ==>
              |r.state.tasks| == |st.tasks| &&
              forall i :: 0 <= i < |st.tasks| ==>
                r.state.tasks[i] == if st.tasks[i].id == t.id
                                    then st.tasks[i].(paymentStatus := PaymentCaptured) else st.tasks[i]
    ensures r.result.Ok? ==>
              |r.state.audit| >= |st.audit| + 2 && r.state.audit[..|st.audit|] == st.audit &&
              r.state.audit[|st.audit|] ==
                AuditEntry(t.id, PaymentCapture, "system", PlatformActor,
                           CaptureDetails(t.paymentIntentId.value, t.budget), None, now) &&
              r.state.audit[|r.state.audit| - 1].action == PaymentSplit
  {
    var c := Capture(st, p, now, t);
    CaptureIsPaymentOnly(st, p, now, t);
    if c.result.Err? then c
    else
      match FindAgent(c.state, t.workerId.value)
      case None => Outcome(c.state, Err(Thrown(WorkerNotFound)))
      case Some(worker) =>
        var d := Distribute(c.state, p, now, t.id, t.budget, t.workerId.value, worker, feePercent);
        PaymentOnlyThen(st, c.state, d.state);
        PaidAfterCapture(st.audit, c.state.audit, d.state.audit, d.result.Ok?);
        d
  }

  /** The log after a capture entry and a payout keeps the old log, then the capture entry. */
  lemma PaidAfterCapture(log: seq<AuditEntry>, captured: seq<AuditEntry>, paid: seq<AuditEntry>, ok: bool)
    requires |captured| == |log| + 1 && captured[..|log|] == log
    requires |paid| >= |captured| && paid[..|captured|] == captured
    requires ok ==> |paid| > |captured|
    ensures paid[..|log|] == log && paid[|log|] == captured[|log|]
    ensures ok ==> |paid| >= |log| + 2
  {
    assert paid[..|log|] == paid[..|captured|][..|log|];
    assert paid[|log|] == paid[..|captured|][|log|];
  }

  /** `settleTask`: captures the held payment, marks the task captured and logs it, then pays the
      worker out. The three checks fail in order, before any call. */
  function SettleTask(st: State, p: Processor, now: nat, taskId: string, feePercent: Option<int>): (r: Outcome<()>)
    ensures FindTask(st, taskId).None? ==> r == Outcome(st, Err(Thrown(TaskNotFound)))
    ensures FindTask(st, taskId).Some? && !Truthy(FindTask(st, taskId).value.paymentIntentId) ==>
              r == Outcome(st, Err(Thrown(NoIntent)))
    ensures FindTask(st, taskId).Some? && Truthy(FindTask(st, taskId).value.paymentIntentId) &&
            !Truthy(FindTask(st, taskId).value.workerId) ==>
              r == Outcome(st, Err(Thrown(NoWorker)))
    ensures Settleable(st, taskId) ==>
              r == CaptureAndPay(st, p, now, FindTask(st, taskId).value, feePercent)
    ensures PaymentOnly(st, r.state)
  {
    match FindTask(st, taskId)
    case None => Outcome(st, Err(Thrown(TaskNotFound)))
    case Some(t) =>
      if !Truthy(t.paymentIntentId) then Outcome(st, Err(Thrown(NoIntent)))
      else if !Truthy(t.workerId) then Outcome(st, Err(Thrown(NoWorker)))
      else CaptureAndPay(st, p, now, t, feePercent)
  }

  /** A worker without a payout account: the capture goes through, no transfer is attempted, and
      three entries are logged — the capture, the deferral warning and the split. */
  lemma DeferredTransfer(st: State, p: Processor, now: nat, t: Task, worker: Agent, feePercent: Option<int>)
    requires FindTask(st, t.id) == Some(t) && Truthy(t.paymentIntentId) && Truthy(t.workerId)
    requires p(st.calls, CaptureIntent(t.paymentIntentId.value)).Ok?
    requires FindAgent(st, t.workerId.value) == Some(worker) && !Truthy(worker.stripeAccountId)
    ensures var r := SettleTask(st, p, now, t.id, feePercent);
            r.result.Ok? &&
            r.state.calls == st.calls + [CaptureIntent(t.paymentIntentId.value)] &&
            r.state.audit == st.audit +
              [AuditEntry(t.id, PaymentCapture, "system", PlatformActor, CaptureDetails(t.paymentIntentId.value, t.budget), None, now),
               AuditEntry(t.id, PaymentSplit, "system", PlatformActor, DeferredDetails(worker.id, t.budget), None, now),
               AuditEntry(t.id, PaymentSplit, "system", PlatformActor, SplitDetails(t.budget, feePercent, NotConfigured), None, now)]
  {
    var c := Capture(st, p, now, t);
    assert FindAgent(c.state, t.workerId.value) == Some(worker);
    assert SettleTask(st, p, now, t.id, feePercent) ==
           Distribute(c.state, p, now, t.id, t.budget, t.workerId.value, worker, feePercent);
    var captured := AuditEntry(t.id, PaymentCapture, "system", PlatformActor,
                               CaptureDetails(t.paymentIntentId.value, t.budget), None, now);
    assert c.state.audit == st.audit + [captured];
    Audit.AppendAfter(st.audit, captured,
      [AuditEntry(t.id, PaymentSplit, "system", PlatformActor, DeferredDetails(worker.id, t.budget), None, now),
       AuditEntry(t.id, PaymentSplit, "system", PlatformActor, SplitDetails(t.budget, feePercent, NotConfigured), None, now)]);
  }

  // ---------------------------------------------------------------- refund

  function RefundDetails(intentId: string, cents: int, reason: string): Details {
    map[PaymentIntentIdKey := VStr(intentId), AmountKey := VCents(cents), ReasonKey := VStr(reason)]
  }

  /** The processor call a refund makes for a payment in `status`: a held payment is cancelled,
      a captured one refunded, anything else needs no call. */
  function RefundCall(status: PaymentStatus, intentId: string): (r: Option<ProcessorCall>)
    ensures r.Some? <==> status == PaymentHeld || status == PaymentCaptured
  {
    match status
    case PaymentHeld => Some(CancelIntent(intentId))
    case PaymentCaptured => Some(CreateRefund(intentId))
    case _ => None
  }

  /** `refundTask`: releases or refunds the payment, then marks the task refunded whatever its
      payment status was and logs one `payment_refund` entry. */
  function RefundTask(st: State, p: Processor, now: nat, taskId: string, reason: string): (r: Outcome<()>)
    ensures FindTask(st, taskId).None? ==> r == Outcome(st, Err(Thrown(TaskNotFound)))
    ensures FindTask(st, taskId).Some? && !Truthy(FindTask(st, taskId).value.paymentIntentId) ==>
              r == Outcome(st, Err(Thrown(NoIntent)))
    ensures r.result.Ok? ==>
              var t := FindTask(st, taskId).value;
              var pi := t.paymentIntentId.value;
              Truthy(t.paymentIntentId) &&
              r.state.calls == st.calls + (match RefundCall(t.paymentStatus, pi)
                                           case Some(c) => [c]
                                           case None => []) &&
              |r.state.tasks| == |st.tasks| &&
              (forall i :: 0 <= i < |st.tasks| ==>
                r.state.tasks[i] == if st.tasks[i].id == taskId
                                    then st.tasks[i].(paymentStatus := PaymentRefunded) else st.tasks[i]) &&
              r.state.audit == st.audit +
                [AuditEntry(taskId, PaymentRefund, "system", PlatformActor, RefundDetails(pi, t.budget, reason), None, now)]
    ensures r.result.Err? ==> r.result.error.Thrown? && r.state.tasks == st.tasks && r.state.audit == st.audit
  {
    match FindTask(st, taskId)
    case None => Outcome(st, Err(Thrown(TaskNotFound)))
    case Some(t) =>
      if !Truthy(t.paymentIntentId) then Outcome(st, Err(Thrown(NoIntent)))
      else
        var pi := t.paymentIntentId.value;
        var (st1, released) :=
          match RefundCall(t.paymentStatus, pi)
          case Some(c) => Call(st, p, c)
          case None => (st, Ok(""));
        match released
        case Err(e) => Outcome(st1, Err(e))
        case Ok(_) =>
          var st2 := UpdateTask(st1, taskId, (x: Task) => x.(paymentStatus := PaymentRefunded));
          Outcome(Audit.LogSystem(st2, now, taskId, PaymentRefund, RefundDetails(pi, t.budget, reason)), Ok(()))
  }

  /** A refund is a payment step: it changes no task field but the payment status, and only
      appends to the log. */
  lemma RefundIsPaymentOnly(st: State, p: Processor, now: nat, taskId: string, reason: string)
    ensures PaymentOnly(st, RefundTask(st, p, now, taskId, reason).state)
  {
    var r := RefundTask(st, p, now, taskId, reason);
    if r.result.Ok? {
      assert r.state.audit[..|st.audit|] == st.audit;
    } else if FindTask(st, taskId).Some? && Truthy(FindTask(st, taskId).value.paymentIntentId) {
      var t := FindTask(st, taskId).value;
      match RefundCall(t.paymentStatus, t.paymentIntentId.value)
      case Some(c) => assert r.state == Call(st, p, c).0;
      case None =>
    }
  }

  /** Refunding a payment just captured makes exactly one more processor call, the refund of
      the same intent, and succeeds exactly when the processor accepts it. */
  lemma RefundAfterCapture(st: State, p: Processor, now: nat, t: Task, later: nat, reason: string)
    requires FindTask(st, t.id) == Some(t) && Truthy(t.paymentIntentId)
    requires Capture(st, p, now, t).result.Ok?
    ensures var pi := t.paymentIntentId.value;
            var c := Capture(st, p, now, t).state;
            var r := RefundTask(c, p, later, t.id, reason);
            r.state.calls == st.calls + [CaptureIntent(pi), CreateRefund(pi)] &&
            (r.result.Ok? <==> p(c.calls, CreateRefund(pi)).Ok?)
  {
    var pi := t.paymentIntentId.value;
    var c := Capture(st, p, now, t).state;
    CapturedFound(st, p, now, t);
    RefundOfCaptured(c, p, later, t.id, reason, t.(paymentStatus := PaymentCaptured));
    assert (st.calls + [CaptureIntent(pi)]) + [CreateRefund(pi)] == st.calls + [CaptureIntent(pi), CreateRefund(pi)];
  }

  /** A capture followed by an accepted refund leaves every task as it was before the capture,
      except that this one's payment is refunded. */
  lemma RefundAfterCaptureTasks(st: State, p: Processor, now: nat, t: Task, later: nat, reason: string)
    requires Truthy(t.paymentIntentId)
    requires Capture(st, p, now, t).result.Ok?
    requires RefundTask(Capture(st, p, now, t).state, p, later, t.id, reason).result.Ok?
    ensures var r := RefundTask(Capture(st, p, now, t).state, p, later, t.id, reason);
            |r.state.tasks| == |st.tasks| &&
            forall i :: 0 <= i < |st.tasks| ==>
              r.state.tasks[i] == if st.tasks[i].id == t.id
                                  then st.tasks[i].(paymentStatus := PaymentRefunded) else st.tasks[i]
  {
    var c := Capture(st, p, now, t).state;
    var r := RefundTask(c, p, later, t.id, reason);
    forall i | 0 <= i < |st.tasks|
      ensures r.state.tasks[i] == if st.tasks[i].id == t.id
                                  then st.tasks[i].(paymentStatus := PaymentRefunded) else st.tasks[i]
    {
      assert c.tasks[i] == if st.tasks[i].id == t.id then st.tasks[i].(paymentStatus := PaymentCaptured) else st.tasks[i];
    }
  }

  /** After a capture the task is found with its payment captured. */
  lemma CapturedFound(st: State, p: Processor, now: nat, t: Task)
    requires FindTask(st, t.id) == Some(t) && Truthy(t.paymentIntentId)
    requires Capture(st, p, now, t).result.Ok?
    ensures FindTask(Capture(st, p, now, t).state, t.id) == Some(t.(paymentStatus := PaymentCaptured))
  {
    var c := Capture(st, p, now, t).state;
    var f := (x: Task) => x.(paymentStatus := PaymentCaptured);
    assert c.tasks == UpdateTask(st, t.id, f).tasks;
    FindUpdatedTask(st, t.id, f);
    assert FindTask(c, t.id) == FindTask(UpdateTask(st, t.id, f), t.id);
  }

  /** Refunding a captured payment makes the one refund call, accepted or not. */
  lemma RefundOfCaptured(st: State, p: Processor, now: nat, taskId: string, reason: string, t: Task)
    requires FindTask(st, taskId) == Some(t) && t.paymentStatus == PaymentCaptured && Truthy(t.paymentIntentId)
    ensures var r := RefundTask(st, p, now, taskId, reason);
            r.state.calls == st.calls + [CreateRefund(t.paymentIntentId.value)] &&
            (r.result.Ok? <==> p(st.calls, CreateRefund(t.paymentIntentId.value)).Ok?)
  {
    var pi := t.paymentIntentId.value;
    assert RefundCall(PaymentCaptured, pi) == Some(CreateRefund(pi));
    var r := RefundTask(st, p, now, taskId, reason);
    assert r.state.calls == Call(st, p, CreateRefund(pi)).0.calls;
  }

  // ---------------------------------------------------------------- webhook signature

  const ToleranceSeconds: int := 300

  /** The text after `prefix` in the first of `parts` that starts with it
      (`parts.find(p => p.startsWith(prefix))?.slice(prefix.length)`). */
  function FieldValue(parts: seq<string>, prefix: string): (r: Option<string>)
    ensures r.None? <==> forall i :: 0 <= i < |parts| ==> !StartsWith(parts[i], prefix)
    ensures r.Some? ==> exists i :: 0 <= i < |parts| && StartsWith(parts[i], prefix) &&
                                    r.value == parts[i][|prefix|..] &&
                                    forall j :: 0 <= j < i ==> !StartsWith(parts[j], prefix)
  {
    if |parts| == 0 then None
    else if StartsWith(parts[0], prefix) then Some(parts[0][|prefix|..])
    else
      var r := FieldValue(parts[1..], prefix);
      assert forall i :: 1 <= i < |parts| ==> parts[i] == parts[1..][i - 1];
      if r.Some? then
        var i :| 0 <= i < |parts[1..]| && StartsWith(parts[1..][i], prefix) && r.value == parts[1..][i][|prefix|..] &&
                  forall j :: 0 <= j < i ==> !StartsWith(parts[1..][j], prefix);
        assert forall j :: 0 <= j < i + 1 ==> !StartsWith(parts[j], prefix) by {
          forall j | 0 <= j < i + 1 ensures !StartsWith(parts[j], prefix) {
            if j > 0 {
              assert parts[j] == parts[1..][j - 1];
            }
          }
        }
        r
      else r
  }

  /** The signature the processor puts in `v1=` for a delivery stamped `t` (seconds). */
  function ExpectedSignature(sha: Crypto.Sha256, secret: string, t: int, payload: string): (r: string)
    ensures |r| == 64 && Hex.IsLowerHex(r)
  {
    Hex.Encode(Crypto.HmacText(sha, secret, IntToDecimal(t) + "." + payload))
  }

  function Abs(x: int): nat {
    if x < 0 then -x else x
  }

  /** The stamp is a number within 300 seconds of now (milliseconds). */
  predicate Fresh(stamp: string, now: nat) {
    ParseInt(stamp).Some? && Abs(now / 1000 - ParseInt(stamp).value) <= ToleranceSeconds
  }

  /** The checks on the two extracted fields: a numeric stamp within 300 seconds of now, and a
      signature equal to the expected one, compared in constant time after a length check. Only
      a fresh stamp reaches the key import, which throws on an empty secret. */
  function CheckFields(sha: Crypto.Sha256, payload: string, stamp: string, signature: string, secret: string,
                       now: nat): (r: Result<bool, string>)
    ensures r.Err? <==> Fresh(stamp, now) && secret == ""
    ensures r.Err? ==> r.error == Crypto.EmptyKeyRefused
    ensures r == Ok(true) <==> Fresh(stamp, now) && secret != "" &&
                               signature == ExpectedSignature(sha, secret, ParseInt(stamp).value, payload)
  {
    match ParseInt(stamp)
    case None => Ok(false)
    case Some(t) =>
      if Abs(now / 1000 - t) > ToleranceSeconds then Ok(false)
      else
        Crypto.SignRefusesOnlyEmpty(sha, secret, IntToDecimal(t) + "." + payload);
        match Crypto.Sign(sha, secret, IntToDecimal(t) + "." + payload)
        case Err(e) => Err(e)
        case Ok(digest) =>
          var expected := Hex.Encode(digest);
          if |expected| != |signature| then Ok(false)
          else Ok(ConstantTime.TimingSafeEqual(expected, signature))
  }

  /** `verifyWebhookSignature` at instant `now` (milliseconds): the header must carry non-empty
      `t=` and `v1=` fields that pass `CheckFields`. A missing field refuses before any key is
      imported; a well-formed, fresh header under an empty secret throws. */
  function VerifyWebhookSignature(sha: Crypto.Sha256, payload: string, header: string, secret: string, now: nat)
    : (r: Result<bool, string>)
    ensures var parts := Split(header, ',');
            r.Err? <==> Truthy(FieldValue(parts, "t=")) && Truthy(FieldValue(parts, "v1=")) &&
                        Fresh(FieldValue(parts, "t=").value, now) && secret == ""
    ensures r.Err? ==> r.error == Crypto.EmptyKeyRefused
    ensures var parts := Split(header, ',');
            r == Ok(true) <==> (Truthy(FieldValue(parts, "t=")) && Truthy(FieldValue(parts, "v1=")) &&
                              CheckFields(sha, payload, FieldValue(parts, "t=").value, FieldValue(parts, "v1=").value,
                                          secret, now) == Ok(true))
  {
    var parts := Split(header, ',');
    var ts := FieldValue(parts, "t=");
    var sig := FieldValue(parts, "v1=");
    if !Truthy(ts) || !Truthy(sig) then Ok(false)
    else CheckFields(sha, payload, ts.value, sig.value, secret, now)
  }

  /** A header of the processor's shape: `t=<stamp>,v1=<signature>`. */
  function HeaderText(stamp: string, signature: string): string {
    "t=" + stamp + ",v1=" + signature
  }

  /** The header the processor sends for a delivery stamped `t`. */
  function SignatureHeader(sha: Crypto.Sha256, secret: string, t: nat, payload: string): string {
    HeaderText(NatToDecimal(t), ExpectedSignature(sha, secret, t, payload))
  }

  lemma SplitSingle(s: string, sep: char)
    requires sep !in s
    ensures Split(s, sep) == [s]
  {
  }

  lemma NotInConcat(c: char, a: string, b: string)
    requires c !in a && c !in b
    ensures c !in a + b
  {
  }

  /** A header whose stamp is digits and whose signature is lower-case hex splits at its one
      comma into the `t=` field and the `v1=` field. */
  lemma HeaderSplits(stamp: string, signature: string)
    requires AllDigits(stamp) && Hex.IsLowerHex(signature)
    ensures Split(HeaderText(stamp, signature), ',') == ["t=" + stamp, "v1=" + signature]
  {
    assert ',' !in stamp;
    assert ',' !in signature by {
      assert !Hex.IsLowerHexDigit(',');
    }
    NotInConcat(',', "t=", stamp);
    NotInConcat(',', "v1=", signature);
    assert HeaderText(stamp, signature) == ("t=" + stamp) + [','] + ("v1=" + signature);
    SplitCons("t=" + stamp, ',', "v1=" + signature);
    SplitSingle("v1=" + signature, ',');
  }

  lemma FirstField(a: string, b: string, prefix: string)
    requires StartsWith(a, prefix)
    ensures FieldValue([a, b], prefix) == Some(a[|prefix|..])
  {
  }

  lemma SecondField(a: string, b: string, prefix: string)
    requires !StartsWith(a, prefix) && StartsWith(b, prefix)
    ensures FieldValue([a, b], prefix) == Some(b[|prefix|..])
  {
    assert [a, b][1..] == [b];
  }

  lemma Prefixed(p: string, s: string)
    ensures StartsWith(p + s, p) && (p + s)[|p|..] == s
  {
    assert (p + s)[..|p|] == p;
  }

  /** Such a header yields its stamp and its signature as the two fields. */
  lemma HeaderTextFields(stamp: string, signature: string)
    requires AllDigits(stamp) && Hex.IsLowerHex(signature)
    ensures var parts := Split(HeaderText(stamp, signature), ',');
            FieldValue(parts, "t=") == Some(stamp) && FieldValue(parts, "v1=") == Some(signature)
  {
    HeaderSplits(stamp, signature);
    Prefixed("t=", stamp);
    Prefixed("v1=", signature);
    assert !StartsWith("t=" + stamp, "v1=") by {
      assert ("t=" + stamp)[0] == 't';
    }
    FirstField("t=" + stamp, "v1=" + signature, "t=");
    SecondField("t=" + stamp, "v1=" + signature, "v1=");
  }

  /** The processor's header yields its stamp and its signature as the two fields. */
  lemma HeaderFields(sha: Crypto.Sha256, secret: string, t: nat, payload: string)
    ensures var parts := Split(SignatureHeader(sha, secret, t, payload), ',');
            FieldValue(parts, "t=") == Some(NatToDecimal(t)) &&
            FieldValue(parts, "v1=") == Some(ExpectedSignature(sha, secret, t, payload))
  {
    HeaderTextFields(NatToDecimal(t), ExpectedSignature(sha, secret, t, payload));
  }

  /** A header built with the right secret for this payload verifies at any instant within 300
      seconds of its stamp; under an empty secret the same header throws at the key import. */
  lemma SignedHeaderVerifies(sha: Crypto.Sha256, secret: string, t: nat, payload: string, now: nat)
    requires Abs(now / 1000 - t) <= ToleranceSeconds
    ensures secret != "" ==> VerifyWebhookSignature(sha, payload, SignatureHeader(sha, secret, t, payload), secret, now) == Ok(true)
    ensures secret == "" ==> VerifyWebhookSignature(sha, payload, SignatureHeader(sha, secret, t, payload), secret, now) ==
                             Err(Crypto.EmptyKeyRefused)
  {
    var header := SignatureHeader(sha, secret, t, payload);
    var signature := ExpectedSignature(sha, secret, t, payload);
    HeaderFields(sha, secret, t, payload);
    ParseStamp(t);
    CheckFieldsAccept(sha, payload, NatToDecimal(t), signature, secret, now, t);
    assert Truthy(Some(NatToDecimal(t))) && Truthy(Some(signature)) by {
      assert |signature| == 64;
    }
    assert VerifyWebhookSignature(sha, payload, header, secret, now) ==
           CheckFields(sha, payload, NatToDecimal(t), signature, secret, now);
  }

  lemma CheckFieldsAccept(sha: Crypto.Sha256, payload: string, stamp: string, signature: string, secret: string,
                          now: nat, t: int)
    requires ParseInt(stamp) == Some(t) && Abs(now / 1000 - t) <= ToleranceSeconds
    requires signature == ExpectedSignature(sha, secret, t, payload)
    ensures CheckFields(sha, payload, stamp, signature, secret, now) == if secret == "" then Err(Crypto.EmptyKeyRefused) else Ok(true)
  {
  }

  lemma ParseStamp(t: nat)
    ensures ParseInt(NatToDecimal(t)) == Some(t)
  {
    ParseNatDecimal(t, "");
    assert NatToDecimal(t) + "" == NatToDecimal(t);
  }

  /** The same header is refused once the stamp is more than 300 seconds away from now: a replay
      outside the window fails whatever the signature. */
  lemma StaleHeaderRefused(sha: Crypto.Sha256, secret: string, t: nat, payload: string, now: nat)
    requires Abs(now / 1000 - t) > ToleranceSeconds
    ensures VerifyWebhookSignature(sha, payload, SignatureHeader(sha, secret, t, payload), secret, now) == Ok(false)
  {
    HeaderFields(sha, secret, t, payload);
    ParseStamp(t);
  }
}
