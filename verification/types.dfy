/** The closed enumerations and the row records of the marketplace. Timestamps are instants in
    milliseconds (rendered as ISO text where the source stores text); money is whole cents. */
module Types {
  import opened Wrappers
  import opened Bytes

  /** The task lifecycle states. */
  datatype TaskStatus = Open | Claimed | Submitted | UnderReview | Completed | Rejected | Cancelled | Expired
  {
    function Name(): string {
      match this
      case Open => "open"
      case Claimed => "claimed"
      case Submitted => "submitted"
      case UnderReview => "under_review"
      case Completed => "completed"
      case Rejected => "rejected"
      case Cancelled => "cancelled"
      case Expired => "expired"
    }
  }

  const TaskStatusNames: seq<string> :=
    ["open", "claimed", "submitted", "under_review", "completed", "rejected", "cancelled", "expired"]

  /** The status a stored name denotes, if any. */
  function ParseTaskStatus(s: string): (r: Option<TaskStatus>)
    ensures r.Some? <==> s in TaskStatusNames
    ensures r.Some? ==> r.value.Name() == s
  {
    if s == "open" then Some(Open)
    else if s == "claimed" then Some(Claimed)
    else if s == "submitted" then Some(Submitted)
    else if s == "under_review" then Some(UnderReview)
    else if s == "completed" then Some(Completed)
    else if s == "rejected" then Some(Rejected)
    else if s == "cancelled" then Some(Cancelled)
    else if s == "expired" then Some(Expired)
    else None
  }

  /** Exactly eight states, each with its own name: parsing a state's name gives the state back. */
  lemma TaskStatusClosed(t: TaskStatus)
    ensures ParseTaskStatus(t.Name()) == Some(t)
    ensures t.Name() in TaskStatusNames && |TaskStatusNames| == 8
  {
  }

  /** Where the escrowed money stands. */
  datatype PaymentStatus = PaymentPending | PaymentHeld | PaymentCaptured | PaymentRefunded
  {
    function Name(): string {
      match this
      case PaymentPending => "pending"
      case PaymentHeld => "held"
      case PaymentCaptured => "captured"
      case PaymentRefunded => "refunded"
    }
  }

  const PaymentStatusNames: seq<string> := ["pending", "held", "captured", "refunded"]

  function ParsePaymentStatus(s: string): (r: Option<PaymentStatus>)
    ensures r.Some? <==> s in PaymentStatusNames
    ensures r.Some? ==> r.value.Name() == s
  {
    if s == "pending" then Some(PaymentPending)
    else if s == "held" then Some(PaymentHeld)
    else if s == "captured" then Some(PaymentCaptured)
    else if s == "refunded" then Some(PaymentRefunded)
    else None
  }

  lemma PaymentStatusClosed(p: PaymentStatus)
    ensures ParsePaymentStatus(p.Name()) == Some(p)
    ensures p.Name() in PaymentStatusNames && |PaymentStatusNames| == 4
  {
  }

  /** The automated review verdict recorded on a submission. */
  datatype ReviewStatus = ReviewPending | ReviewApproved | ReviewRejected
  {
    function Name(): string {
      match this
      case ReviewPending => "pending"
      case ReviewApproved => "approved"
      case ReviewRejected => "rejected"
    }
  }

  const ReviewStatusNames: seq<string> := ["pending", "approved", "rejected"]

  function ParseReviewStatus(s: string): (r: Option<ReviewStatus>)
    ensures r.Some? <==> s in ReviewStatusNames
    ensures r.Some? ==> r.value.Name() == s
  {
    if s == "pending" then Some(ReviewPending)
    else if s == "approved" then Some(ReviewApproved)
    else if s == "rejected" then Some(ReviewRejected)
    else None
  }

  lemma ReviewStatusClosed(r: ReviewStatus)
    ensures ParseReviewStatus(r.Name()) == Some(r)
    ensures r.Name() in ReviewStatusNames && |ReviewStatusNames| == 3
  {
  }

  /** An employer's decision on a submission. */
  datatype Verdict = Accept | Reject
  {
    function Name(): string {
      match this
      case Accept => "accept"
      case Reject => "reject"
    }
  }

  function ParseVerdict(s: string): (r: Option<Verdict>)
    ensures r.Some? <==> s == "accept" || s == "reject"
    ensures r.Some? ==> r.value.Name() == s
  {
    if s == "accept" then Some(Accept) else if s == "reject" then Some(Reject) else None
  }

  lemma VerdictClosed(v: Verdict)
    ensures ParseVerdict(v.Name()) == Some(v)
  {
  }

  /** What an agent may do: post tasks, take them, or both. */
  datatype Role = EmployerRole | WorkerRole | BothRoles
  {
    function Name(): string {
      match this
      case EmployerRole => "employer"
      case WorkerRole => "worker"
      case BothRoles => "both"
    }
  }

  const RoleNames: seq<string> := ["employer", "worker", "both"]

  function ParseRole(s: string): (r: Option<Role>)
    ensures r.Some? <==> s in RoleNames
    ensures r.Some? ==> r.value.Name() == s
  {
    if s == "employer" then Some(EmployerRole)
    else if s == "worker" then Some(WorkerRole)
    else if s == "both" then Some(BothRoles)
    else None
  }

  lemma RoleClosed(r: Role)
    ensures ParseRole(r.Name()) == Some(r)
    ensures r.Name() in RoleNames && |RoleNames| == 3
  {
  }

  /** Who performed an audited action. */
  datatype ActorType = EmployerActor | WorkerActor | PlatformActor | SystemActor
  {
    function Name(): string {
      match this
      case EmployerActor => "employer"
      case WorkerActor => "worker"
      case PlatformActor => "platform"
      case SystemActor => "system"
    }
  }

  const ActorTypeNames: seq<string> := ["employer", "worker", "platform", "system"]

  function ParseActorType(s: string): (r: Option<ActorType>)
    ensures r.Some? <==> s in ActorTypeNames
    ensures r.Some? ==> r.value.Name() == s
  {
    if s == "employer" then Some(EmployerActor)
    else if s == "worker" then Some(WorkerActor)
    else if s == "platform" then Some(PlatformActor)
    else if s == "system" then Some(SystemActor)
    else None
  }

  lemma ActorTypeClosed(a: ActorType)
    ensures ParseActorType(a.Name()) == Some(a)
    ensures a.Name() in ActorTypeNames && |ActorTypeNames| == 4
  {
  }

  /** The eleven audited actions. */
  datatype AuditAction =
    | TaskCreate | TaskClaim | TaskUnclaim
    | SubmissionCreate | SubmissionReview | SubmissionAccept | SubmissionReject
    | PaymentHold | PaymentCapture | PaymentSplit | PaymentRefund
  {
    function Name(): string {
      match this
      case TaskCreate => "task_create"
      case TaskClaim => "task_claim"
      case TaskUnclaim => "task_unclaim"
      case SubmissionCreate => "submission_create"
      case SubmissionReview => "submission_review"
      case SubmissionAccept => "submission_accept"
      case SubmissionReject => "submission_reject"
      case PaymentHold => "payment_hold"
      case PaymentCapture => "payment_capture"
      case PaymentSplit => "payment_split"
      case PaymentRefund => "payment_refund"
    }
  }

  const AuditActionNames: seq<string> :=
    ["task_create", "task_claim", "task_unclaim", "submission_create", "submission_review",
     "submission_accept", "submission_reject", "payment_hold", "payment_capture", "payment_split",
     "payment_refund"]

  function ParseAuditAction(s: string): (r: Option<AuditAction>)
    ensures r.Some? <==> s in AuditActionNames
    ensures r.Some? ==> r.value.Name() == s
  {
    if s == "task_create" then Some(TaskCreate)
    else if s == "task_claim" then Some(TaskClaim)
    else if s == "task_unclaim" then Some(TaskUnclaim)
    else if s == "submission_create" then Some(SubmissionCreate)
    else if s == "submission_review" then Some(SubmissionReview)
    else if s == "submission_accept" then Some(SubmissionAccept)
    else if s == "submission_reject" then Some(SubmissionReject)
    else if s == "payment_hold" then Some(PaymentHold)
    else if s == "payment_capture" then Some(PaymentCapture)
    else if s == "payment_split" then Some(PaymentSplit)
    else if s == "payment_refund" then Some(PaymentRefund)
    else None
  }

  lemma AuditActionClosed(a: AuditAction)
    ensures ParseAuditAction(a.Name()) == Some(a)
    ensures a.Name() in AuditActionNames && |AuditActionNames| == 11
  {
  }

  /** A star rating: a number from 1 to 5. */
  type Rating = r: real | 1.0 <= r <= 5.0 witness 1.0

  /** The JSON values that audit details carry. */
  datatype Value =
    | VStr(s: string)
    | VInt(i: int)
    | VCents(cents: int)     // a dollar amount, kept exact in cents
    | VNum(x: real)
    | VBool(b: bool)
    | VStrs(items: seq<string>)
    | VNull

  /** The property names that audit details use; `Name()` is the JSON key. */
  datatype DetailKey =
    | PaymentIntentIdKey
    | AmountKey
    | CurrencyKey
    | WarningKey
    | WorkerIdKey
    | TotalAmountKey
    | WorkerAmountKey
    | PlatformFeeKey
    | PlatformFeePercentKey
    | WorkerAccountIdKey
    | ReasonKey
    | SubmissionIdKey
    | ResultKey
    | AutomatedKey
    | IssuesKey
    | FileNameKey
    | FileHashKey
    | FileSizeKey
    | ReviewIdKey
    | RatingKey
    | FeedbackKey
    | ErrorKey
    | RejectionCountKey
    | MaxRejectionsKey
    | TitleKey
    | BudgetKey
    | AgentNameKey
    | ClaimedAtKey
    | StatusKey
    | ViaKey
  {
    function Name(): string {
      match this
      case PaymentIntentIdKey => "payment_intent_id"
      case AmountKey => "amount"
      case CurrencyKey => "currency"
      case WarningKey => "warning"
      case WorkerIdKey => "worker_id"
      case TotalAmountKey => "total_amount"
      case WorkerAmountKey => "worker_amount"
      case PlatformFeeKey => "platform_fee"
      case PlatformFeePercentKey => "platform_fee_percent"
      case WorkerAccountIdKey => "worker_account_id"
      case ReasonKey => "reason"
      case SubmissionIdKey => "submission_id"
      case ResultKey => "result"
      case AutomatedKey => "automated"
      case IssuesKey => "issues"
      case FileNameKey => "file_name"
      case FileHashKey => "file_hash"
      case FileSizeKey => "file_size"
      case ReviewIdKey => "review_id"
      case RatingKey => "rating"
      case FeedbackKey => "feedback"
      case ErrorKey => "error"
      case RejectionCountKey => "rejection_count"
      case MaxRejectionsKey => "max_rejections"
      case TitleKey => "title"
      case BudgetKey => "budget"
      case AgentNameKey => "agent_name"
      case ClaimedAtKey => "claimed_at"
      case StatusKey => "status"
      case ViaKey => "via"
    }
  }

  /** Audit details: a key that is absent stands for an `undefined` property. */
  type Details = map<DetailKey, Value>

  /** A registered agent. `capabilities` is NULL in the row when the agent gave none. */
  datatype Agent = Agent(
    id: string,
    name: string,
    ownerEmail: string,
    apiKey: string,
    capabilities: Option<seq<string>>,
    stripeCustomerId: Option<string>,
    stripeAccountId: Option<string>,
    role: Role,
    createdAt: nat,
    updatedAt: nat)

  /** A posted task. `deadline` is kept as the text the employer supplied. */
  datatype Task = Task(
    id: string,
    employerId: string,
    workerId: Option<string>,
    title: string,
    description: string,
    skills: seq<string>,
    budget: int,
    deadline: string,
    status: TaskStatus,
    paymentIntentId: Option<string>,
    paymentStatus: PaymentStatus,
    createdAt: nat,
    claimedAt: Option<nat>,
    submittedAt: Option<nat>,
    completedAt: Option<nat>,
    updatedAt: nat)

  /** A delivered file and the automated verdict on it. */
  datatype Submission = Submission(
    id: string,
    taskId: string,
    workerId: string,
    fileKey: string,
    fileName: string,
    fileSize: nat,
    fileHash: string,
    notes: Option<string>,
    reviewStatus: ReviewStatus,
    reviewNotes: Option<string>,
    reviewedAt: Option<nat>,
    submittedAt: nat)

  /** An employer's accept or reject decision on a submission. */
  datatype Review = Review(
    id: string,
    taskId: string,
    submissionId: string,
    employerId: string,
    result: Verdict,
    feedback: Option<string>,
    rating: Option<Rating>,
    reviewedAt: nat)

  /** One audit-log row (its own id is not modelled: nothing reads it). */
  datatype AuditEntry = AuditEntry(
    taskId: string,
    action: AuditAction,
    actor: string,
    actorType: ActorType,
    details: Details,
    ipAddress: Option<string>,
    timestamp: nat)

  /** The custom metadata of a stored object; a field the object does not carry is None. */
  datatype ObjectMetadata = ObjectMetadata(
    taskId: Option<string>,
    submissionId: Option<string>,
    originalName: Option<string>,
    contentHash: Option<string>,
    uploadTime: Option<string>,
    contentType: Option<string>,
    size: Option<string>)

  /** A stored object: its bytes and its custom metadata. */
  datatype Blob = Blob(data: seq<byte>, metadata: ObjectMetadata)

  /** One entry of a profile's skill list. */
  datatype SkillLevel = SkillLevel(id: string, name: string, level: Option<string>)

  /** An agent's public profile. Absent optional columns are NULL. */
  datatype Profile = Profile(
    id: string,
    agentId: string,
    displayName: string,
    tagline: Option<string>,
    bio: Option<string>,
    avatarUrl: Option<string>,
    primarySkills: seq<SkillLevel>,
    languages: seq<string>,
    specializations: seq<string>,
    acceptsFree: bool,
    acceptsPaid: bool,
    minBudget: Option<real>,
    maxBudget: Option<real>,
    typicalResponseTime: Option<string>,
    openclawVersion: Option<string>,
    openclawSkillsCount: int,
    openclawModel: Option<string>,
    isVerified: bool,
    isListed: bool,
    createdAt: nat,
    updatedAt: nat)

  /** One skill an agent advertises on its agent-to-agent card. */
  datatype CardSkill = CardSkill(id: string, name: string, description: Option<string>, tags: Option<seq<string>>)

  /** An agent-to-agent card: where to reach a worker and what it offers. */
  datatype Card = Card(
    id: string,
    agentId: string,
    a2aUrl: string,
    name: string,
    description: string,
    skills: seq<CardSkill>,
    inputModes: seq<string>,
    outputModes: seq<string>,
    isAvailable: bool,
    lastSeen: nat,
    createdAt: nat,
    updatedAt: nat)

  datatype SubscriberStatus = Active | Unsubscribed

  /** A newsletter subscriber, keyed by normalised email. */
  datatype Subscriber = Subscriber(
    id: string,
    email: string,
    name: Option<string>,
    locale: string,
    source: string,
    status: SubscriberStatus,
    subscribedAt: nat,
    unsubscribedAt: Option<nat>)
}
