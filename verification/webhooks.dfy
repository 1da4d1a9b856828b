/** The processor's webhook endpoint: signature check, then dispatch on the event type. */
module Webhooks {
  import opened Wrappers
  import opened Types
  import opened Store
  import Audit
  import Table
  import Crypto
  import Settlement

  /** The fields of an event's `data.object` the handlers read: its id, `metadata.task_id`,
      `payment_intent` (on a charge) and `last_payment_error.message`. */
  datatype EventObject = EventObject(id: string, metadataTaskId: Option<string>, paymentIntent: Option<string>,
                                     lastErrorMessage: Option<string>)

  datatype Event = Event(eventType: string, data: EventObject)

  /** `JSON.parse` of the payload as an event; None when the text is not one (which throws). */
  type EventParser = string -> Option<Event>

  const PaymentSucceeded: string := "payment_intent.succeeded"
  const PaymentFailed: string := "payment_intent.payment_failed"
  const ChargeRefunded: string := "charge.refunded"
  const TransferCreated: string := "transfer.created"

  const InvalidJson: string := "Unexpected token in JSON"

  /** `UPDATE tasks SET payment_status = 'captured' WHERE id = ? AND payment_intent_id = ?`. */
  function OnPaymentSucceeded(st: State, pi: EventObject): (r: State)
    ensures !Truthy(pi.metadataTaskId) ==> r == st
    ensures r == st.(tasks := r.tasks) && |r.tasks| == |st.tasks|
    ensures forall i :: 0 <= i < |st.tasks| ==>
              r.tasks[i] == if Truthy(pi.metadataTaskId) && st.tasks[i].id == pi.metadataTaskId.value &&
                               st.tasks[i].paymentIntentId == Some(pi.id)
                            then st.tasks[i].(paymentStatus := PaymentCaptured) else st.tasks[i]
  {
    if !Truthy(pi.metadataTaskId) then st
    else
      var taskId := pi.metadataTaskId.value;
      st.(tasks := Table.UpdateWhere(st.tasks, (t: Task) => t.id == taskId && t.paymentIntentId == Some(pi.id),
                                     (t: Task) => t.(paymentStatus := PaymentCaptured)))
  }

  function FailureDetails(pi: EventObject): Details {
    var base := map[StatusKey := VStr("failed"), PaymentIntentIdKey := VStr(pi.id)];
    if pi.lastErrorMessage.Some? then base[ErrorKey := VStr(pi.lastErrorMessage.value)] else base
  }

  /** Records a `payment_capture` entry with status `failed`; the payment status is untouched. */
  function OnPaymentFailed(st: State, now: nat, pi: EventObject): (r: State)
    ensures !Truthy(pi.metadataTaskId) ==> r == st
    ensures r == st.(audit := r.audit)
    ensures Truthy(pi.metadataTaskId) ==>
              r.audit == st.audit + [AuditEntry(pi.metadataTaskId.value, PaymentCapture, "system", PlatformActor,
                                                FailureDetails(pi), None, now)]
  {
    if !Truthy(pi.metadataTaskId) then st
    else Audit.LogSystem(st, now, pi.metadataTaskId.value, PaymentCapture, FailureDetails(pi))
  }

  /** `SELECT * FROM tasks WHERE payment_intent_id = ?`: the first task holding the intent. A
      missing intent is bound as NULL, which matches no row. */
  function TaskWithIntent(st: State, intentId: Option<string>): (r: Option<Task>)
    ensures r.Some? ==> intentId.Some? && r.value in st.tasks && r.value.paymentIntentId == intentId
    ensures r.None? <==> intentId.None? || forall i :: 0 <= i < |st.tasks| ==> st.tasks[i].paymentIntentId != intentId
  {
    match intentId
    case None => None
    case Some(pi) => Table.First(st.tasks, (t: Task) => t.paymentIntentId == Some(pi))
  }

  /** Marks refunded the task holding the charge's payment intent; a charge with no matching task
      changes nothing. */
  function OnChargeRefunded(st: State, charge: EventObject): (r: State)
    ensures TaskWithIntent(st, charge.paymentIntent).None? ==> r == st
    ensures r == st.(tasks := r.tasks) && |r.tasks| == |st.tasks|
    ensures var found := TaskWithIntent(st, charge.paymentIntent);
            forall i :: 0 <= i < |st.tasks| ==>
              r.tasks[i] == if found.Some? && st.tasks[i].id == found.value.id
                            then st.tasks[i].(paymentStatus := PaymentRefunded) else st.tasks[i]
  {
    match TaskWithIntent(st, charge.paymentIntent)
    case None => st
    case Some(task) => UpdateTask(st, task.id, (t: Task) => t.(paymentStatus := PaymentRefunded))
  }

  /** The state change an event makes. `transfer.created` and unknown types only log to the
      console. */
  function Dispatch(st: State, now: nat, event: Event): (r: State)
    ensures event.eventType !in {PaymentSucceeded, PaymentFailed, ChargeRefunded} ==> r == st
    ensures r.agents == st.agents && r.submissions == st.submissions && r.reviews == st.reviews &&
            r.calls == st.calls && r.blobs == st.blobs
  {
    if event.eventType == PaymentSucceeded then OnPaymentSucceeded(st, event.data)
    else if event.eventType == PaymentFailed then OnPaymentFailed(st, now, event.data)
    else if event.eventType == ChargeRefunded then OnChargeRefunded(st, event.data)
    else st
  }

  const MissingSignature: string := "Missing stripe-signature header"
  const InvalidSignature: string := "Invalid webhook signature"

  /** `POST /webhooks/stripe`: answers `{received: true}` for every event whose signature checks
      out, once its effect is applied. A signature check that throws (an empty secret meeting a
      fresh, well-formed header) escapes the handler as a 500 before anything is applied. */
  function Receive(st: State, sha: Crypto.Sha256, parse: EventParser, cfg: Config, now: nat,
                   signature: Option<string>, payload: string): (r: Outcome<bool>)
    ensures !Truthy(signature) ==> r == Fail(st, 400, MissingSignature)
    ensures Truthy(signature) && Settlement.VerifyWebhookSignature(sha, payload, signature.value, cfg.webhookSecret, now).Err? ==>
              r == Outcome(st, Err(Thrown(Crypto.EmptyKeyRefused)))
    ensures Truthy(signature) && Settlement.VerifyWebhookSignature(sha, payload, signature.value, cfg.webhookSecret, now) == Ok(false) ==>
              r == Fail(st, 401, InvalidSignature)
    ensures r.result.Ok? ==>
              r.result.value && cfg.webhookSecret != "" &&
              Truthy(signature) && Settlement.VerifyWebhookSignature(sha, payload, signature.value, cfg.webhookSecret, now) == Ok(true) &&
              parse(payload).Some? && r.state == Dispatch(st, now, parse(payload).value)
    ensures r.result.Err? ==> r.state == st
  {
    if !Truthy(signature) then Fail(st, 400, MissingSignature)
    else
      match Settlement.VerifyWebhookSignature(sha, payload, signature.value, cfg.webhookSecret, now)
      case Err(e) => Outcome(st, Err(Thrown(e)))
      case Ok(valid) =>
        if !valid then Fail(st, 401, InvalidSignature)
        else
          match parse(payload)
          case None => Outcome(st, Err(Thrown(InvalidJson)))
          case Some(event) => Outcome(Dispatch(st, now, event), Ok(true))
  }

  /** A succeeded event without a task id, a refund for an unknown intent, a transfer and an
      unknown type leave the state as it was. */
  lemma IgnoredEvents(st: State, now: nat, event: Event)
    requires (event.eventType == PaymentSucceeded && !Truthy(event.data.metadataTaskId)) ||
             (event.eventType == ChargeRefunded && TaskWithIntent(st, event.data.paymentIntent).None?) ||
             event.eventType == TransferCreated
    ensures Dispatch(st, now, event) == st
  {
  }

  /** A failed payment logs one entry and leaves every task's payment status as it was. */
  lemma FailureKeepsStatus(st: State, now: nat, event: Event)
    requires event.eventType == PaymentFailed && Truthy(event.data.metadataTaskId)
    ensures Dispatch(st, now, event).tasks == st.tasks
    ensures |Dispatch(st, now, event).audit| == |st.audit| + 1
    ensures Dispatch(st, now, event).audit[|st.audit|].action == PaymentCapture
  {
  }
  /** A delivery the processor signed with the configured secret, received within 300 seconds of
      its stamp, is applied and acknowledged when its payload parses as an event; with the secret
      unset the same delivery is answered 500 and nothing is applied. */
  lemma SignedEventApplied(st: State, sha: Crypto.Sha256, parse: EventParser, cfg: Config, now: nat,
                           t: nat, payload: string)
    requires Settlement.Abs(now / 1000 - t) <= Settlement.ToleranceSeconds
    requires parse(payload).Some?
    ensures var header := Settlement.SignatureHeader(sha, cfg.webhookSecret, t, payload);
            cfg.webhookSecret != "" ==>
              Receive(st, sha, parse, cfg, now, Some(header), payload) ==
                Outcome(Dispatch(st, now, parse(payload).value), Ok(true))
    ensures var header := Settlement.SignatureHeader(sha, cfg.webhookSecret, t, payload);
            cfg.webhookSecret == "" ==>
              Receive(st, sha, parse, cfg, now, Some(header), payload) == Outcome(st, Err(Thrown(Crypto.EmptyKeyRefused)))
  {
    var header := Settlement.SignatureHeader(sha, cfg.webhookSecret, t, payload);
    Settlement.SignedHeaderVerifies(sha, cfg.webhookSecret, t, payload, now);
    assert header[0] == 't';
  }

  /** The same delivery replayed more than 300 seconds from its stamp is refused with 401 and
      changes nothing. */
  lemma ReplayRefused(st: State, sha: Crypto.Sha256, parse: EventParser, cfg: Config, now: nat,
                      t: nat, payload: string)
    requires Settlement.Abs(now / 1000 - t) > Settlement.ToleranceSeconds
    ensures var header := Settlement.SignatureHeader(sha, cfg.webhookSecret, t, payload);
            Receive(st, sha, parse, cfg, now, Some(header), payload) == Fail(st, 401, InvalidSignature)
  {
    var header := Settlement.SignatureHeader(sha, cfg.webhookSecret, t, payload);
    Settlement.StaleHeaderRefused(sha, cfg.webhookSecret, t, payload, now);
    assert header[0] == 't';
  }
}
