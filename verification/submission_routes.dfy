/** The submission routes: a worker's delivery with its automated review, reading and downloading
    a submission, and the employer's accept (with settlement) and reject (with the rejection
    ceiling). As with the task routes, each handler receives the authenticated caller. */
module SubmissionRoutes {
  import opened Wrappers
  import opened Bytes
  import opened Types
  import opened Store
  import opened Decimal
  import Text
  import Table
  import Ids
  import Audit
  import ContentHash
  import ReviewEngine
  import Settlement
  import AuthMiddleware
  import TaskRoutes

  const SubmissionNotFound: string := "Submission not found"

  // ---------------------------------------------------------------- submit

  const TaskIdRequired: string := "task_id is required"
  const FileRequired: string := "file is required"
  const NotClaimed: string := "Task must be in claimed status to submit"
  const ApprovedMessage: string := "Submission uploaded and approved. Awaiting employer review."
  const RejectedMessage: string :=
    "Submission uploaded but failed automated review. Please fix the issues and resubmit."

  function SizeExceeded(maxMb: int): string {
    "File size exceeds " + IntToDecimal(maxMb) + "MB limit"
  }

  /** The multipart form of a delivery; a missing field is None. */
  datatype SubmitForm = SubmitForm(taskId: Option<string>, notes: Option<string>,
                                   file: Option<ContentHash.UploadFile>)

  /** The `data` and `message` of a delivery's answer, and its status: 201 when the automated
      review approved, otherwise 400 (still a success body). */
  datatype Receipt = Receipt(submissionId: string, fileHash: string, reviewStatus: ReviewStatus,
                             reviewNotes: Option<string>, message: string, code: nat)

  /** `issues?.join('\n') || ''`. */
  function JoinLines(lines: seq<string>): string {
    if |lines| == 0 then "" else Text.Join(lines, '\n')
  }

  /** The review notes an automated rejection stores: the reason, a newline, the issues. */
  function RejectionNotes(review: ReviewEngine.ReviewResult): string {
    review.reason.GetOr("") + "\n" + JoinLines(review.issues.GetOr([]))
  }

  function ApprovedDetails(submissionId: string): Details {
    map[SubmissionIdKey := VStr(submissionId), ResultKey := VStr("approved"), AutomatedKey := VBool(true)]
  }

  function RejectedDetails(submissionId: string, review: ReviewEngine.ReviewResult): Details {
    map[SubmissionIdKey := VStr(submissionId), ResultKey := VStr("rejected"),
        ReasonKey := VStr(review.reason.GetOr("")), IssuesKey := VStrs(review.issues.GetOr([])),
        AutomatedKey := VBool(true)]
  }

  /** The verdict written onto a submission row: approved, or rejected with notes. */
  function Marked(s: Submission, review: ReviewEngine.ReviewResult, now: nat): (r: Submission)
    ensures r.id == s.id && r.taskId == s.taskId && r.workerId == s.workerId && r.fileName == s.fileName &&
            r.fileSize == s.fileSize && r.fileHash == s.fileHash && r.fileKey == s.fileKey
    ensures r.reviewStatus == (if review.approved then ReviewApproved else ReviewRejected)
    ensures r.reviewedAt == Some(now)
  {
    if review.approved then s.(reviewStatus := ReviewApproved, reviewedAt := Some(now))
    else s.(reviewStatus := ReviewRejected, reviewNotes := Some(RejectionNotes(review)), reviewedAt := Some(now))
  }

  /** The `submission_review` entry the platform records for an automated verdict. */
  function ReviewEntry(now: nat, sub: Submission, review: ReviewEngine.ReviewResult): AuditEntry {
    AuditEntry(sub.taskId, SubmissionReview, "system", PlatformActor,
               if review.approved then ApprovedDetails(sub.id) else RejectedDetails(sub.id, review), None, now)
  }

  /** What the automated review of a stored submission writes: an approval marks the submission
      approved and the task under review; a rejection marks the submission rejected with notes and
      leaves the task's status alone. Either way one `submission_review` entry. */
  function Judge(st: State, now: nat, sub: Submission, review: ReviewEngine.ReviewResult): (r: Outcome<Receipt>)
    ensures r.result.Ok? && r.result.value.submissionId == sub.id && r.result.value.fileHash == sub.fileHash
    ensures r.result.value.reviewStatus == ReviewApproved <==> review.approved
    ensures r.result.value.code == 201 <==> review.approved
    ensures !review.approved ==> r.result.value.code == 400 && r.result.value.reviewNotes == review.reason
    ensures r.state.blobs == st.blobs && r.state.reviews == st.reviews && r.state.calls == st.calls
    ensures |r.state.submissions| == |st.submissions| &&
            forall i :: 0 <= i < |st.submissions| ==>
              r.state.submissions[i] ==
                if st.submissions[i].id == sub.id then Marked(st.submissions[i], review, now) else st.submissions[i]
    ensures |r.state.tasks| == |st.tasks| &&
            forall i :: 0 <= i < |st.tasks| ==>
              r.state.tasks[i] ==
                if st.tasks[i].id == sub.taskId && review.approved
                then st.tasks[i].(status := UnderReview, updatedAt := now)
                else st.tasks[i]
    ensures r.state.audit == st.audit + [ReviewEntry(now, sub, review)]
  {
    var st1 := UpdateSubmission(st, sub.id, (s: Submission) => Marked(s, review, now));
    if review.approved then
      var st2 := UpdateTask(st1, sub.taskId, (t: Task) => t.(status := UnderReview, updatedAt := now));
      Outcome(Audit.LogSystem(st2, now, sub.taskId, SubmissionReview, ApprovedDetails(sub.id)),
              Ok(Receipt(sub.id, sub.fileHash, ReviewApproved, None, ApprovedMessage, 201)))
    else
      Outcome(Audit.LogSystem(st1, now, sub.taskId, SubmissionReview, RejectedDetails(sub.id, review)),
              Ok(Receipt(sub.id, sub.fileHash, ReviewRejected, review.reason, RejectedMessage, 400)))
  }

  function CreateDetails(sub: Submission): Details {
    map[SubmissionIdKey := VStr(sub.id), FileNameKey := VStr(sub.fileName), FileHashKey := VStr(sub.fileHash),
        FileSizeKey := VInt(sub.fileSize)]
  }

  /** The pending row a delivery stores for an upload. */
  function Pending(id: string, taskId: string, workerId: string, file: ContentHash.UploadFile,
                   up: ContentHash.UploadResult, notes: Option<string>, now: nat): Submission {
    Submission(id, taskId, workerId, up.key, file.name, up.size, up.hash,
               if Truthy(notes) then notes else None, ReviewPending, None, None, now)
  }

  /** Where and how an upload is stored: its key, digest and size. */
  function Stored(sha: Crypto.Sha256, ctx: Ctx, taskId: string, file: ContentHash.UploadFile, id: string): ContentHash.UploadResult {
    ContentHash.UploadResult(ContentHash.StorageKey(taskId, id, ctx.now, file.name),
                             ContentHash.ComputeContentHash(sha, file.data), |file.data|)
  }

  /** The stored half of a delivery: the file goes to the object store, the pending submission
      row is inserted, the task moves to `submitted`, and `submission_create` is logged. A taken
      submission id fails the insert after the upload, so the object stays stored. */
  function Receive(st: State, sha: Crypto.Sha256, ctx: Ctx, agent: Agent, taskId: string,
                   notes: Option<string>, file: ContentHash.UploadFile, id: string): (r: Outcome<Submission>)
    ensures r.result.Err? ==> r.result.error == Thrown(DuplicateKey) && r.state == st.(blobs := r.state.blobs)
    ensures r.result.Ok? ==>
              FindSubmission(st, id).None? &&
              r.result.value == Pending(id, taskId, agent.id, file, Stored(sha, ctx, taskId, file, id), notes, ctx.now) &&
              ContentHash.VerifyIntegrity(sha, r.state.blobs, r.result.value.fileKey) == ContentHash.Intact
    ensures r.result.Ok? ==>
              r.state.submissions == st.submissions + [r.result.value] &&
              r.state.reviews == st.reviews && r.state.calls == st.calls &&
              r.state.audit == st.audit + [Audit.Entry(ctx.now, taskId, SubmissionCreate, agent.id, WorkerActor,
                                                       Some(CreateDetails(r.result.value)), ctx.ip)]
    ensures r.result.Ok? ==>
              |r.state.tasks| == |st.tasks| &&
              forall i :: 0 <= i < |st.tasks| ==>
                r.state.tasks[i] ==
                  if st.tasks[i].id == taskId
                  then st.tasks[i].(status := Submitted, submittedAt := Some(ctx.now), updatedAt := ctx.now)
                  else st.tasks[i]
  {
    var (blobs, up) := ContentHash.Upload(sha, st.blobs, file, taskId, id, ctx.now);
    ContentHash.UploadThenVerify(sha, st.blobs, file, taskId, id, ctx.now);
    var sub := Pending(id, taskId, agent.id, file, up, notes, ctx.now);
    var ins := InsertSubmission(st.(blobs := blobs), sub);
    if ins.result.Err? then Outcome(ins.state, Err(ins.result.error))
    else
      var st2 := UpdateTask(ins.state, taskId, (t: Task) => t.(status := Submitted, submittedAt := Some(ctx.now), updatedAt := ctx.now));
      Outcome(Audit.Log(st2, ctx.now, taskId, SubmissionCreate, agent.id, WorkerActor, Some(CreateDetails(sub)), ctx.ip),
              Ok(sub))
  }

  /** `autoReviewSubmission` on a stored submission: the object is read back from the store
      and its digest checked before the file checks run. */
  function Inspect(st: State, sha: Crypto.Sha256, sub: Submission, maxMb: Option<int>): ReviewEngine.ReviewResult {
    ReviewEngine.AutoReview(sub, ContentHash.VerifyIntegrity(sha, st.blobs, sub.fileKey), maxMb)
  }

  /** A delivery: the stored half, then the automated review on what was stored. The verdict is
      the review of an intact object, and the task ends `under_review` when it approves and
      `submitted` when it does not. */
  function Deliver(st: State, sha: Crypto.Sha256, cfg: Config, ctx: Ctx, agent: Agent, taskId: string,
                   notes: Option<string>, file: ContentHash.UploadFile, id: string): (r: Outcome<Receipt>)
    ensures r.result.Err? ==> r.result.error == Thrown(DuplicateKey) && r.state.tasks == st.tasks &&
                              r.state.submissions == st.submissions && r.state.audit == st.audit
    ensures r.result.Ok? ==>
              var sub := Pending(id, taskId, agent.id, file, Stored(sha, ctx, taskId, file, id), notes, ctx.now);
              var review := ReviewEngine.AutoReview(sub, ContentHash.Intact, cfg.MaxFileSizeMb());
              FindSubmission(st, id).None? &&
              (r.result.value.reviewStatus == ReviewApproved <==> review.approved) &&
              (r.result.value.code == 201 <==> review.approved) &&
              r.result.value.submissionId == id &&
              r.result.value.fileHash == ContentHash.ComputeContentHash(sha, file.data)
  {
    var received := Receive(st, sha, ctx, agent, taskId, notes, file, id);
    if received.result.Err? then Outcome(received.state, Err(received.result.error))
    else
      var sub := received.result.value;
      Judge(received.state, ctx.now, sub, Inspect(received.state, sha, sub, cfg.MaxFileSizeMb()))
  }

  /** A delivery appends one submission row, already marked with the review of the intact
      object, and changes no other row. */
  lemma DeliveryAppendsRow(st: State, sha: Crypto.Sha256, cfg: Config, ctx: Ctx, agent: Agent, taskId: string,
                           notes: Option<string>, file: ContentHash.UploadFile, id: string)
    requires Deliver(st, sha, cfg, ctx, agent, taskId, notes, file, id).result.Ok?
    ensures var r := Deliver(st, sha, cfg, ctx, agent, taskId, notes, file, id);
            var sub := Pending(id, taskId, agent.id, file, Stored(sha, ctx, taskId, file, id), notes, ctx.now);
            r.state.submissions ==
              st.submissions + [Marked(sub, ReviewEngine.AutoReview(sub, ContentHash.Intact, cfg.MaxFileSizeMb()), ctx.now)]
  {
    var received := Receive(st, sha, ctx, agent, taskId, notes, file, id);
    var sub := received.result.value;
    var review := Inspect(received.state, sha, sub, cfg.MaxFileSizeMb());
    assert Judge(received.state, ctx.now, sub, review) == Deliver(st, sha, cfg, ctx, agent, taskId, notes, file, id);
    JudgeMarksAppended(received.state, st.submissions, sub, review, ctx.now);
  }

  /** A delivery writes two audit entries: the worker's `submission_create`, then the
      platform's verdict on the intact object. */
  lemma DeliveryLogged(st: State, sha: Crypto.Sha256, cfg: Config, ctx: Ctx, agent: Agent, taskId: string,
                       notes: Option<string>, file: ContentHash.UploadFile, id: string)
    requires Deliver(st, sha, cfg, ctx, agent, taskId, notes, file, id).result.Ok?
    ensures var r := Deliver(st, sha, cfg, ctx, agent, taskId, notes, file, id);
            var sub := Pending(id, taskId, agent.id, file, Stored(sha, ctx, taskId, file, id), notes, ctx.now);
            r.state.audit == st.audit + [Audit.Entry(ctx.now, taskId, SubmissionCreate, agent.id, WorkerActor,
                                                     Some(CreateDetails(sub)), ctx.ip),
                                         ReviewEntry(ctx.now, sub, ReviewEngine.AutoReview(sub, ContentHash.Intact, cfg.MaxFileSizeMb()))]
  {
    var received := Receive(st, sha, ctx, agent, taskId, notes, file, id);
    var sub := received.result.value;
    var review := Inspect(received.state, sha, sub, cfg.MaxFileSizeMb());
    var judged := Judge(received.state, ctx.now, sub, review);
    assert judged == Deliver(st, sha, cfg, ctx, agent, taskId, notes, file, id);
    var created := Audit.Entry(ctx.now, taskId, SubmissionCreate, agent.id, WorkerActor, Some(CreateDetails(sub)), ctx.ip);
    Audit.AppendTwo(st.audit, created, ReviewEntry(ctx.now, sub, review));
  }

  /** A delivery moves the task to `under_review` when the automated review approves and leaves
      it `submitted` otherwise, and touches no other task. */
  lemma DeliveryMovesTask(st: State, sha: Crypto.Sha256, cfg: Config, ctx: Ctx, agent: Agent, taskId: string,
                          notes: Option<string>, file: ContentHash.UploadFile, id: string)
    requires Deliver(st, sha, cfg, ctx, agent, taskId, notes, file, id).result.Ok?
    ensures var r := Deliver(st, sha, cfg, ctx, agent, taskId, notes, file, id);
            |r.state.tasks| == |st.tasks| &&
            forall i :: 0 <= i < |st.tasks| ==>
              r.state.tasks[i] ==
                if st.tasks[i].id == taskId
                then st.tasks[i].(status := if r.result.value.reviewStatus == ReviewApproved then UnderReview else Submitted,
                                  submittedAt := Some(ctx.now), updatedAt := ctx.now)
                else st.tasks[i]
  {
    var received := Receive(st, sha, ctx, agent, taskId, notes, file, id);
    var review := Inspect(received.state, sha, received.result.value, cfg.MaxFileSizeMb());
    var judged := Judge(received.state, ctx.now, received.result.value, review);
    assert judged == Deliver(st, sha, cfg, ctx, agent, taskId, notes, file, id);
    assert received.result.value.taskId == taskId;
    forall i | 0 <= i < |st.tasks|
      ensures judged.state.tasks[i] ==
                if st.tasks[i].id == taskId
                then st.tasks[i].(status := if review.approved then UnderReview else Submitted,
                                  submittedAt := Some(ctx.now), updatedAt := ctx.now)
                else st.tasks[i]
    {
      assert received.state.tasks[i].id == st.tasks[i].id;
    }
  }

  /** Judging a row just appended under a fresh id marks that row only. */
  lemma JudgeMarksAppended(st: State, before: seq<Submission>, sub: Submission, review: ReviewEngine.ReviewResult, now: nat)
    requires forall i :: 0 <= i < |before| ==> before[i].id != sub.id
    requires st.submissions == before + [sub]
    ensures Judge(st, now, sub, review).state.submissions == before + [Marked(sub, review, now)]
  {
    var judged := Judge(st, now, sub, review);
    AppendedRowMarked(before, sub, st.submissions, judged.state.submissions, review, now);
  }

  /** Marking the rows of a fresh id touches the appended row only. */
  lemma AppendedRowMarked(before: seq<Submission>, sub: Submission, rows: seq<Submission>, after: seq<Submission>,
                          review: ReviewEngine.ReviewResult, now: nat)
    requires forall i :: 0 <= i < |before| ==> before[i].id != sub.id
    requires rows == before + [sub]
    requires |after| == |rows|
    requires forall i :: 0 <= i < |rows| ==>
               after[i] == if rows[i].id == sub.id then Marked(rows[i], review, now) else rows[i]
    ensures after == before + [Marked(sub, review, now)]
  {
    forall i | 0 <= i < |before| ensures after[i] == before[i] {
      assert rows[i] == before[i];
    }
    assert rows[|before|] == sub;
  }

  /** `POST /submissions`. The submission id comes from `idBytes`, the random part of
      `generateId('sub')`. The guards run in order: role, task id, file, existence, worker,
      status, size; nothing is stored when one fails. */
  function Submit(st: State, sha: Crypto.Sha256, cfg: Config, ctx: Ctx, agent: Agent, form: SubmitForm,
                  idBytes: seq<byte>): (r: Outcome<Receipt>)
    ensures r.result.Err? && !r.result.error.Thrown? ==> r.state == st
    ensures AuthMiddleware.RequireRole(agent, AuthMiddleware.WorkerRoles).Ok? ==>
              (!Truthy(form.taskId) ==> r.result == Err(HttpError(400, TaskIdRequired))) &&
              (Truthy(form.taskId) && form.file.None? ==> r.result == Err(HttpError(400, FileRequired)))
    ensures AuthMiddleware.RequireRole(agent, AuthMiddleware.WorkerRoles).Ok? && Truthy(form.taskId) && form.file.Some? ==>
              match FindTask(st, form.taskId.value)
              case None => r.result == Err(HttpError(404, TaskRoutes.TaskNotFound))
              case Some(t) =>
                (t.workerId != Some(agent.id) ==> r.result == Err(HttpError(403, TaskRoutes.NotTheWorker))) &&
                (t.workerId == Some(agent.id) && t.status != Claimed ==> r.result == Err(HttpError(400, NotClaimed))) &&
                (t.workerId == Some(agent.id) && t.status == Claimed &&
                 ReviewEngine.OverLimit(|form.file.value.data|, cfg.MaxFileSizeMb()) ==>
                   r.result == Err(HttpError(400, SizeExceeded(cfg.MaxFileSizeMb().value))))
    ensures r.result.Ok? ==>
              agent.role != EmployerRole && Truthy(form.taskId) && form.file.Some? &&
              FindTask(st, form.taskId.value).Some? &&
              var t := FindTask(st, form.taskId.value).value;
              var file := form.file.value;
              var name := Text.ToLower(file.name);
              t.workerId == Some(agent.id) && t.status == Claimed &&
              !ReviewEngine.OverLimit(|file.data|, cfg.MaxFileSizeMb()) &&
              r.result.value.submissionId == Ids.GenerateId("sub", idBytes) &&
              (r.result.value.reviewStatus == ReviewApproved <==>
                 |file.data| != 0 && ReviewEngine.HasAllowedExtension(name) && !ReviewEngine.HasDangerousPattern(name)) &&
              (r.result.value.code == 201 <==> r.result.value.reviewStatus == ReviewApproved) &&
              r.result.value.fileHash == ContentHash.ComputeContentHash(sha, file.data)
    ensures r.result.Ok? ==>
              r == Deliver(st, sha, cfg, ctx, agent, form.taskId.value, form.notes, form.file.value,
                           r.result.value.submissionId)
  {
    match SubmitTarget(st, cfg, agent, form)
    case Err(e) => Outcome(st, Err(e))
    case Ok(_) =>
      Deliver(st, sha, cfg, ctx, agent, form.taskId.value, form.notes, form.file.value, Ids.GenerateId("sub", idBytes))
  }

  /** The guards of a delivery, in order; on success the claimed task the file is for. */
  function SubmitTarget(st: State, cfg: Config, agent: Agent, form: SubmitForm): (r: Result<Task, Failure>)
    ensures AuthMiddleware.RequireRole(agent, AuthMiddleware.WorkerRoles).Err? ==>
              r == Err(AuthMiddleware.RequireRole(agent, AuthMiddleware.WorkerRoles).error)
    ensures AuthMiddleware.RequireRole(agent, AuthMiddleware.WorkerRoles).Ok? ==>
              (!Truthy(form.taskId) ==> r == Err(HttpError(400, TaskIdRequired))) &&
              (Truthy(form.taskId) && form.file.None? ==> r == Err(HttpError(400, FileRequired)))
    ensures AuthMiddleware.RequireRole(agent, AuthMiddleware.WorkerRoles).Ok? && Truthy(form.taskId) && form.file.Some? ==>
              match FindTask(st, form.taskId.value)
              case None => r == Err(HttpError(404, TaskRoutes.TaskNotFound))
              case Some(t) =>
                (t.workerId != Some(agent.id) ==> r == Err(HttpError(403, TaskRoutes.NotTheWorker))) &&
                (t.workerId == Some(agent.id) && t.status != Claimed ==> r == Err(HttpError(400, NotClaimed))) &&
                (t.workerId == Some(agent.id) && t.status == Claimed &&
                 ReviewEngine.OverLimit(|form.file.value.data|, cfg.MaxFileSizeMb()) ==>
                   r == Err(HttpError(400, SizeExceeded(cfg.MaxFileSizeMb().value))))
    ensures r.Err? ==> !r.error.Thrown?
    ensures r.Ok? ==>
              agent.role != EmployerRole && Truthy(form.taskId) && form.file.Some? &&
              FindTask(st, form.taskId.value) == Some(r.value) &&
              r.value.workerId == Some(agent.id) && r.value.status == Claimed &&
              !ReviewEngine.OverLimit(|form.file.value.data|, cfg.MaxFileSizeMb())
  {
    AuthMiddleware.WorkerGate(agent);
    var gate := AuthMiddleware.RequireRole(agent, AuthMiddleware.WorkerRoles);
    if gate.Err? then Err(gate.error)
    else if !Truthy(form.taskId) then Err(HttpError(400, TaskIdRequired))
    else if form.file.None? then Err(HttpError(400, FileRequired))
    else
      var maxMb := cfg.MaxFileSizeMb();
      match FindTask(st, form.taskId.value)
      case None => Err(HttpError(404, TaskRoutes.TaskNotFound))
      case Some(t) =>
        if t.workerId != Some(agent.id) then Err(HttpError(403, TaskRoutes.NotTheWorker))
        else if t.status != Claimed then Err(HttpError(400, NotClaimed))
        else if ReviewEngine.OverLimit(|form.file.value.data|, maxMb) then Err(HttpError(400, SizeExceeded(maxMb.value)))
        else Ok(t)
  }

  // ---------------------------------------------------------------- read and download

  const NoViewPermission: string := "You do not have permission to view this submission"
  const NoDownloadPermission: string := "You do not have permission to download this file"
  const FileMissing: string := "File not found in storage"
  const OctetStream: string := "application/octet-stream"

  /** The submission with that id and its task, when the caller is that task's employer or
      worker; `denied` is the 403 message. */
  function Visible(st: State, agent: Agent, submissionId: string, denied: string): (r: Result<(Submission, Task), Failure>)
    ensures r.Ok? <==>
              FindSubmission(st, submissionId).Some? && FindTask(st, FindSubmission(st, submissionId).value.taskId).Some? &&
              var t := FindTask(st, FindSubmission(st, submissionId).value.taskId).value;
              (t.employerId == agent.id || t.workerId == Some(agent.id))
    ensures r.Ok? ==> r.value.0 == FindSubmission(st, submissionId).value && r.value.1.id == r.value.0.taskId &&
                      r.value.1 in st.tasks
    ensures FindSubmission(st, submissionId).None? ==> r == Err(HttpError(404, SubmissionNotFound))
    ensures FindSubmission(st, submissionId).Some? && FindTask(st, FindSubmission(st, submissionId).value.taskId).None? ==>
              r == Err(HttpError(404, TaskRoutes.TaskNotFound))
    ensures r.Err? && FindSubmission(st, submissionId).Some? && FindTask(st, FindSubmission(st, submissionId).value.taskId).Some? ==>
              r == Err(HttpError(403, denied))
  {
    match FindSubmission(st, submissionId)
    case None => Err(HttpError(404, SubmissionNotFound))
    case Some(sub) =>
      match FindTask(st, sub.taskId)
      case None => Err(HttpError(404, TaskRoutes.TaskNotFound))
      case Some(t) =>
        if t.employerId != agent.id && t.workerId != Some(agent.id) then Err(HttpError(403, denied))
        else Ok((sub, t))
  }

  /** `GET /submissions/:id`: only the task's employer or worker may read a submission. */
  function GetSubmission(st: State, agent: Agent, submissionId: string): (r: Result<Submission, Failure>)
    ensures r.Ok? ==> r.value in st.submissions && r.value.id == submissionId
    ensures r.Ok? ==> exists i :: 0 <= i < |st.tasks| && st.tasks[i].id == r.value.taskId &&
                                  (st.tasks[i].employerId == agent.id || st.tasks[i].workerId == Some(agent.id))
    ensures r.Err? ==> r.error.HttpError? && r.error.status in {403, 404}
  {
    var (sub, _) :- Visible(st, agent, submissionId, NoViewPermission);
    Ok(sub)
  }

  /** The downloaded file and its headers. */
  datatype FileReply = FileReply(data: seq<byte>, contentType: string, disposition: string, contentLength: string)

  /** `GET /submissions/:id/download`: the stored bytes, for the task's employer or worker. The
      media type is the stored one, `application/octet-stream` when none was stored. */
  function Download(st: State, agent: Agent, submissionId: string): (r: Result<FileReply, Failure>)
    ensures r.Ok? ==>
              Visible(st, agent, submissionId, NoDownloadPermission).Ok? &&
              var sub := FindSubmission(st, submissionId).value;
              sub.fileKey in st.blobs && r.value.data == st.blobs[sub.fileKey].data &&
              r.value.disposition == "attachment; filename=\"" + sub.fileName + "\"" &&
              r.value.contentLength == NatToDecimal(sub.fileSize) &&
              r.value.contentType != ""
    ensures Visible(st, agent, submissionId, NoDownloadPermission).Ok? &&
            FindSubmission(st, submissionId).value.fileKey !in st.blobs ==>
              r == Err(HttpError(404, FileMissing))
    ensures Visible(st, agent, submissionId, NoDownloadPermission).Err? ==>
              r == Err(Visible(st, agent, submissionId, NoDownloadPermission).error)
  {
    var (sub, _) :- Visible(st, agent, submissionId, NoDownloadPermission);
    if sub.fileKey !in st.blobs then Err(HttpError(404, FileMissing))
    else
      var blob := st.blobs[sub.fileKey];
      Ok(FileReply(blob.data, OrElse(blob.metadata.contentType, OctetStream), "attachment; filename=\"" + sub.fileName + "\"",
                   NatToDecimal(sub.fileSize)))
  }

  /** The media type recorded at upload comes back on download. */
  lemma DownloadKeepsMediaType(st: State, agent: Agent, submissionId: string)
    requires Download(st, agent, submissionId).Ok?
    requires var b := st.blobs[FindSubmission(st, submissionId).value.fileKey];
             Truthy(b.metadata.contentType)
    ensures Download(st, agent, submissionId).value.contentType ==
            st.blobs[FindSubmission(st, submissionId).value.fileKey].metadata.contentType.value
  {
  }

  // ---------------------------------------------------------------- accept

  const OnlyEmployerAccepts: string := "Only the employer can accept submissions"
  const NotReady: string := "Task is not ready for acceptance"
  const CannotAccept: string := "Cannot accept submission"

  /** The review body: optional feedback and an optional rating. */
  datatype ReviewInput = ReviewInput(feedback: Option<string>, rating: Option<real>)

  /** The review schema: a rating, when given, lies between 1 and 5. */
  predicate ValidReview(input: ReviewInput) {
    input.rating.None? || 1.0 <= input.rating.value <= 5.0
  }

  /** The answer to an accept or reject. `remainingAttempts` is None for NaN. */
  datatype Decision = Decision(reviewId: string, taskStatus: TaskStatus, remainingAttempts: Option<int>)

  function AcceptDetails(submissionId: string, reviewId: string, input: ReviewInput): Details {
    var base := map[SubmissionIdKey := VStr(submissionId), ReviewIdKey := VStr(reviewId)];
    var rated := if input.rating.Some? then base[RatingKey := VNum(input.rating.value)] else base;
    if input.feedback.Some? then rated[FeedbackKey := VStr(input.feedback.value)] else rated
  }

  function SettlementErrorDetails(message: string, submissionId: string): Details {
    map[ErrorKey := VStr(message), SubmissionIdKey := VStr(submissionId)]
  }

  /** The row of an employer's decision. Empty feedback is stored as NULL. */
  function DecisionRow(id: string, t: Task, submissionId: string, employerId: string, verdict: Verdict,
                       input: ReviewInput, now: nat): Review
    requires ValidReview(input)
  {
    Review(id, t.id, submissionId, employerId, verdict, if Truthy(input.feedback) then input.feedback else None,
           if input.rating.Some? then Some(input.rating.value as Rating) else None, now)
  }

  /** The recording half of an accept: the review row, the task completed, the log entry. */
  function Approve(st: State, ctx: Ctx, agent: Agent, t: Task, submissionId: string, input: ReviewInput,
                   reviewId: string): (r: Outcome<()>)
    requires ValidReview(input)
    ensures r.result.Err? ==> r.state == st && r.result.error == Thrown(DuplicateKey)
    ensures r.result.Ok? ==>
              r.state.reviews == st.reviews + [DecisionRow(reviewId, t, submissionId, agent.id, Accept, input, ctx.now)] &&
              r.state.submissions == st.submissions && r.state.calls == st.calls &&
              r.state.audit == st.audit + [Audit.Entry(ctx.now, t.id, SubmissionAccept, agent.id, EmployerActor,
                                                       Some(AcceptDetails(submissionId, reviewId, input)), ctx.ip)]
    ensures r.result.Ok? ==>
              |r.state.tasks| == |st.tasks| &&
              forall i :: 0 <= i < |st.tasks| ==>
                r.state.tasks[i] ==
                  if st.tasks[i].id == t.id
                  then st.tasks[i].(status := Completed, completedAt := Some(ctx.now), updatedAt := ctx.now)
                  else st.tasks[i]
  {
    var ins := InsertReview(st, DecisionRow(reviewId, t, submissionId, agent.id, Accept, input, ctx.now));
    if ins.result.Err? then Outcome(ins.state, Err(ins.result.error))
    else
      var st1 := UpdateTask(ins.state, t.id, (x: Task) => x.(status := Completed, completedAt := Some(ctx.now), updatedAt := ctx.now));
      Outcome(Audit.Log(st1, ctx.now, t.id, SubmissionAccept, agent.id, EmployerActor,
                        Some(AcceptDetails(submissionId, reviewId, input)), ctx.ip),
              Ok(()))
  }

  /** Settlement after an accept: a failure is logged as a `payment_capture` entry carrying its
      message and does not fail the accept. Only payment fields and the log change. */
  function SettleAccepted(st: State, p: Processor, cfg: Config, now: nat, taskId: string, submissionId: string): (r: State)
    ensures Settlement.PaymentOnly(st, r)
    ensures var settled := Settlement.SettleTask(st, p, now, taskId, cfg.FeePercent());
            r == if settled.result.Ok? then settled.state
                 else settled.state.(audit := settled.state.audit +
                        [AuditEntry(taskId, PaymentCapture, "system", PlatformActor,
                                    SettlementErrorDetails(settled.result.error.message, submissionId), None, now)])
  {
    var settled := Settlement.SettleTask(st, p, now, taskId, cfg.FeePercent());
    if settled.result.Ok? then settled.state
    else
      var e := AuditEntry(taskId, PaymentCapture, "system", PlatformActor,
                          SettlementErrorDetails(settled.result.error.message, submissionId), None, now);
      Settlement.PaymentOnlyLogged(st, settled.state, e);
      Audit.LogSystem(settled.state, now, taskId, PaymentCapture,
                      SettlementErrorDetails(settled.result.error.message, submissionId))
  }

  /** The completion of an accept: recorded, then settled. */
  function Complete(st: State, p: Processor, cfg: Config, ctx: Ctx, agent: Agent, t: Task, submissionId: string,
                    input: ReviewInput, reviewId: string): (r: Outcome<Decision>)
    requires ValidReview(input)
    ensures r.result.Err? ==> r.state == st && r.result.error == Thrown(DuplicateKey)
    ensures r.result.Ok? ==>
              r.result.value == Decision(reviewId, Completed, None) &&
              r.state.reviews == st.reviews + [DecisionRow(reviewId, t, submissionId, agent.id, Accept, input, ctx.now)] &&
              r.state.submissions == st.submissions
  {
    var approved := Approve(st, ctx, agent, t, submissionId, input, reviewId);
    if approved.result.Err? then Outcome(approved.state, Err(approved.result.error))
    else Outcome(SettleAccepted(approved.state, p, cfg, ctx.now, t.id, submissionId), Ok(Decision(reviewId, Completed, None)))
  }

  /** An accept completes the task, whatever settlement then does to its payment fields, and
      leaves every other task's status alone. */
  lemma CompletionMovesTask(st: State, p: Processor, cfg: Config, ctx: Ctx, agent: Agent, t: Task, submissionId: string,
                            input: ReviewInput, reviewId: string)
    requires ValidReview(input)
    requires Complete(st, p, cfg, ctx, agent, t, submissionId, input, reviewId).result.Ok?
    ensures var r := Complete(st, p, cfg, ctx, agent, t, submissionId, input, reviewId);
            |r.state.tasks| == |st.tasks| &&
            forall i :: 0 <= i < |st.tasks| ==>
              r.state.tasks[i] ==
                if st.tasks[i].id == t.id
                then st.tasks[i].(status := Completed, completedAt := Some(ctx.now), updatedAt := ctx.now,
                                  paymentStatus := r.state.tasks[i].paymentStatus)
                else st.tasks[i].(paymentStatus := r.state.tasks[i].paymentStatus)
  {
    var approved := Approve(st, ctx, agent, t, submissionId, input, reviewId);
    var settled := SettleAccepted(approved.state, p, cfg, ctx.now, t.id, submissionId);
    assert Complete(st, p, cfg, ctx, agent, t, submissionId, input, reviewId).state == settled;
    forall i | 0 <= i < |st.tasks|
      ensures settled.tasks[i] ==
                if st.tasks[i].id == t.id
                then st.tasks[i].(status := Completed, completedAt := Some(ctx.now), updatedAt := ctx.now,
                                  paymentStatus := settled.tasks[i].paymentStatus)
                else st.tasks[i].(paymentStatus := settled.tasks[i].paymentStatus)
    {
      assert settled.tasks[i] == approved.state.tasks[i].(paymentStatus := settled.tasks[i].paymentStatus);
    }
  }

  /** An accept's first new log entry is the employer's `submission_accept`; settlement entries
      follow it and the earlier log is kept. */
  lemma CompletionLogged(st: State, p: Processor, cfg: Config, ctx: Ctx, agent: Agent, t: Task, submissionId: string,
                         input: ReviewInput, reviewId: string)
    requires ValidReview(input)
    requires Complete(st, p, cfg, ctx, agent, t, submissionId, input, reviewId).result.Ok?
    ensures var r := Complete(st, p, cfg, ctx, agent, t, submissionId, input, reviewId);
            |r.state.audit| > |st.audit| && r.state.audit[..|st.audit|] == st.audit &&
            r.state.audit[|st.audit|] ==
              Audit.Entry(ctx.now, t.id, SubmissionAccept, agent.id, EmployerActor,
                          Some(AcceptDetails(submissionId, reviewId, input)), ctx.ip)
  {
    var approved := Approve(st, ctx, agent, t, submissionId, input, reviewId);
    var settled := SettleAccepted(approved.state, p, cfg, ctx.now, t.id, submissionId);
    assert Complete(st, p, cfg, ctx, agent, t, submissionId, input, reviewId).state == settled;
    Audit.KeptAfter(st.audit, Audit.Entry(ctx.now, t.id, SubmissionAccept, agent.id, EmployerActor,
                                          Some(AcceptDetails(submissionId, reviewId, input)), ctx.ip), settled.audit);
  }

  /** `POST /submissions/:id/accept`. The review id comes from `idBytes`, the random part of
      `generateId('rev')`. Guards in order: role, body, submission, task, employer, task status,
      submission verdict. */
  function AcceptSubmission(st: State, p: Processor, cfg: Config, ctx: Ctx, agent: Agent, submissionId: string,
                            input: ReviewInput, idBytes: seq<byte>): (r: Outcome<Decision>)
    ensures r.result.Err? ==> r.state == st
    ensures AuthMiddleware.RequireRole(agent, AuthMiddleware.EmployerRoles).Ok? && ValidReview(input) ==>
              match FindSubmission(st, submissionId)
              case None => r.result == Err(HttpError(404, SubmissionNotFound))
              case Some(sub) =>
                match FindTask(st, sub.taskId)
                case None => r.result == Err(HttpError(404, TaskRoutes.TaskNotFound))
                case Some(t) =>
                  (t.employerId != agent.id ==> r.result == Err(HttpError(403, OnlyEmployerAccepts))) &&
                  (t.employerId == agent.id && t.status != UnderReview ==> r.result == Err(HttpError(400, NotReady))) &&
                  (t.employerId == agent.id && t.status == UnderReview && sub.reviewStatus != ReviewApproved ==>
                     r.result == Err(HttpError(400, ReviewEngine.NotApproved)))
    ensures r.result.Ok? ==>
              agent.role != WorkerRole && ValidReview(input) && FindSubmission(st, submissionId).Some? &&
              var sub := FindSubmission(st, submissionId).value;
              FindTask(st, sub.taskId).Some? &&
              var t := FindTask(st, sub.taskId).value;
              t.employerId == agent.id && t.status == UnderReview && sub.reviewStatus == ReviewApproved &&
              r == Complete(st, p, cfg, ctx, agent, t, submissionId, input, Ids.GenerateId("rev", idBytes))
  {
    AuthMiddleware.EmployerGate(agent);
    var gate := AuthMiddleware.RequireRole(agent, AuthMiddleware.EmployerRoles);
    if gate.Err? then Outcome(st, Err(gate.error))
    else if !ValidReview(input) then Outcome(st, Err(Thrown(SchemaViolation)))
    else
      match FindSubmission(st, submissionId)
      case None => Fail(st, 404, SubmissionNotFound)
      case Some(sub) =>
        match FindTask(st, sub.taskId)
        case None => Fail(st, 404, TaskRoutes.TaskNotFound)
        case Some(t) =>
          if t.employerId != agent.id then Fail(st, 403, OnlyEmployerAccepts)
          else if t.status != UnderReview then Fail(st, 400, NotReady)
          else
            var allowed := ReviewEngine.CanAccept(sub);
            if allowed.Denied? then Fail(st, 400, OrElse(Some(allowed.reason), CannotAccept))
            else Complete(st, p, cfg, ctx, agent, t, submissionId, input, Ids.GenerateId("rev", idBytes))
  }

  // ---------------------------------------------------------------- reject

  const FeedbackRequired: string := "Feedback is required when rejecting"
  const OnlyEmployerRejects: string := "Only the employer can reject submissions"
  const CannotReject: string := "Cannot reject submission"

  /** `SELECT COUNT(*) FROM reviews WHERE task_id = ? AND result = 'reject'`. */
  function RejectCount(reviews: seq<Review>, taskId: string): nat {
    Table.Count(reviews, (rv: Review) => rv.taskId == taskId && rv.result == Reject)
  }

  /** `${n}` for a number that may be NaN. */
  function NumberText(n: Option<int>): string {
    if n.Some? then IntToDecimal(n.value) else "NaN"
  }

  function RejectDetails(submissionId: string, reviewId: string, feedback: string, count: nat,
                         maxRejections: Option<int>): Details {
    map[SubmissionIdKey := VStr(submissionId), ReviewIdKey := VStr(reviewId), FeedbackKey := VStr(feedback),
        RejectionCountKey := VInt(count + 1),
        MaxRejectionsKey := if maxRejections.Some? then VInt(maxRejections.value) else VNull]
  }

  /** The response message of a reject. */
  function RejectMessage(count: nat, maxRejections: Option<int>): string {
    "Submission rejected. Worker can resubmit (" + IntToDecimal(count + 1) + "/" + NumberText(maxRejections) +
    " rejections)."
  }

  /** `max_rejections - (count + 1)`, NaN (None) when the ceiling is NaN. */
  function Remaining(count: nat, maxRejections: Option<int>): (r: Option<int>)
    ensures r.Some? <==> maxRejections.Some?
    ensures r.Some? && ReviewEngine.CanReject(count, maxRejections).Allowed? ==> r.value >= 0
  {
    if maxRejections.Some? then Some(maxRejections.value - (count + 1)) else None
  }

  /** The recording half of a reject: the review row, the task rejected (whatever its status
      was), and the log entry. */
  function Record(st: State, ctx: Ctx, agent: Agent, t: Task, submissionId: string, feedback: string,
                  count: nat, maxRejections: Option<int>, reviewId: string): (r: Outcome<Decision>)
    ensures r.result.Err? ==> r.state == st && r.result.error == Thrown(DuplicateKey)
    ensures r.result.Ok? ==>
              r.result.value == Decision(reviewId, Rejected, Remaining(count, maxRejections)) &&
              r.state == UpdateTask(st, t.id, (x: Task) => x.(status := Rejected, updatedAt := ctx.now))
                           .(reviews := r.state.reviews, audit := r.state.audit) &&
              r.state.reviews == st.reviews + [Review(reviewId, t.id, submissionId, agent.id, Reject, Some(feedback), None, ctx.now)] &&
              r.state.audit == st.audit +
                [Audit.Entry(ctx.now, t.id, SubmissionReject, agent.id, EmployerActor,
                             Some(RejectDetails(submissionId, reviewId, feedback, count, maxRejections)), ctx.ip)]
  {
    var row := Review(reviewId, t.id, submissionId, agent.id, Reject, Some(feedback), None, ctx.now);
    var ins := InsertReview(st, row);
    if ins.result.Err? then Outcome(ins.state, Err(ins.result.error))
    else
      var st1 := UpdateTask(ins.state, t.id, (x: Task) => x.(status := Rejected, updatedAt := ctx.now));
      Outcome(Audit.Log(st1, ctx.now, t.id, SubmissionReject, agent.id, EmployerActor,
                        Some(RejectDetails(submissionId, reviewId, feedback, count, maxRejections)), ctx.ip),
              Ok(Decision(reviewId, Rejected, Remaining(count, maxRejections))))
  }

  /** `POST /submissions/:id/reject`. Guards in order: role, body, feedback, submission, task,
      employer, rejection ceiling. There is no guard on the task's status. */
  function RejectSubmission(st: State, cfg: Config, ctx: Ctx, agent: Agent, submissionId: string,
                            input: ReviewInput, idBytes: seq<byte>): (r: Outcome<Decision>)
    ensures r.result.Err? ==> r.state == st
    ensures AuthMiddleware.RequireRole(agent, AuthMiddleware.EmployerRoles).Ok? && ValidReview(input) &&
            !Truthy(input.feedback) ==>
              r.result == Err(HttpError(400, FeedbackRequired))
    ensures AuthMiddleware.RequireRole(agent, AuthMiddleware.EmployerRoles).Ok? && ValidReview(input) &&
            Truthy(input.feedback) ==>
              match FindSubmission(st, submissionId)
              case None => r.result == Err(HttpError(404, SubmissionNotFound))
              case Some(sub) =>
                match FindTask(st, sub.taskId)
                case None => r.result == Err(HttpError(404, TaskRoutes.TaskNotFound))
                case Some(t) =>
                  (t.employerId != agent.id ==> r.result == Err(HttpError(403, OnlyEmployerRejects))) &&
                  (t.employerId == agent.id &&
                   ReviewEngine.CanReject(RejectCount(st.reviews, t.id), cfg.MaxRejections()).Denied? ==>
                     r.result == Err(HttpError(400, ReviewEngine.RejectLimitReached(cfg.MaxRejections().value))))
    ensures r.result.Ok? ==>
              agent.role != WorkerRole && Truthy(input.feedback) && FindSubmission(st, submissionId).Some? &&
              var sub := FindSubmission(st, submissionId).value;
              FindTask(st, sub.taskId).Some? &&
              var t := FindTask(st, sub.taskId).value;
              var count := RejectCount(st.reviews, t.id);
              t.employerId == agent.id &&
              (cfg.MaxRejections().None? || count < cfg.MaxRejections().value) &&
              r == Record(st, ctx, agent, t, submissionId, input.feedback.value, count, cfg.MaxRejections(),
                          Ids.GenerateId("rev", idBytes))
  {
    AuthMiddleware.EmployerGate(agent);
    match RejectTarget(st, cfg, agent, submissionId, input)
    case Err(e) => Outcome(st, Err(e))
    case Ok((t, count)) =>
      Record(st, ctx, agent, t, submissionId, input.feedback.value, count, cfg.MaxRejections(),
             Ids.GenerateId("rev", idBytes))
  }

  /** A reject moves the submission's task to `rejected` whatever its status was, a `completed`
      task included, and touches no other task. */
  lemma RejectMovesTask(st: State, cfg: Config, ctx: Ctx, agent: Agent, submissionId: string,
                        input: ReviewInput, idBytes: seq<byte>, t: Task)
    requires FindSubmission(st, submissionId).Some? && FindTask(st, FindSubmission(st, submissionId).value.taskId) == Some(t)
    requires RejectSubmission(st, cfg, ctx, agent, submissionId, input, idBytes).result.Ok?
    ensures var after := RejectSubmission(st, cfg, ctx, agent, submissionId, input, idBytes).state;
            FindTask(after, t.id) == Some(t.(status := Rejected, updatedAt := ctx.now)) &&
            |after.tasks| == |st.tasks| &&
            forall i :: 0 <= i < |st.tasks| && st.tasks[i].id != t.id ==> after.tasks[i] == st.tasks[i]
  {
    var f := (x: Task) => x.(status := Rejected, updatedAt := ctx.now);
    var after := RejectSubmission(st, cfg, ctx, agent, submissionId, input, idBytes).state;
    assert after.tasks == UpdateTask(st, t.id, f).tasks;
    FindUpdatedTask(st, t.id, f);
    assert FindTask(after, t.id) == FindTask(UpdateTask(st, t.id, f), t.id);
  }

  /** After a reject the worker cannot deliver again: the task is `rejected`, not `claimed`, so
      the next submission for it is refused with 400, although the reject's answer says that the
      worker can resubmit. */
  lemma NoResubmitAfterReject(st: State, cfg: Config, ctx: Ctx, agent: Agent, submissionId: string,
                              input: ReviewInput, idBytes: seq<byte>, t: Task,
                              sha: Crypto.Sha256, later: Ctx, worker: Agent, form: SubmitForm, subBytes: seq<byte>)
    requires FindSubmission(st, submissionId).Some? && FindTask(st, FindSubmission(st, submissionId).value.taskId) == Some(t)
    requires RejectSubmission(st, cfg, ctx, agent, submissionId, input, idBytes).result.Ok?
    requires t.workerId == Some(worker.id) && AuthMiddleware.RequireRole(worker, AuthMiddleware.WorkerRoles).Ok?
    requires form.taskId == Some(t.id) && t.id != "" && form.file.Some?
    ensures var after := RejectSubmission(st, cfg, ctx, agent, submissionId, input, idBytes).state;
            Submit(after, sha, cfg, later, worker, form, subBytes).result == Err(HttpError(400, NotClaimed))
  {
    RejectMovesTask(st, cfg, ctx, agent, submissionId, input, idBytes, t);
  }

  /** The guards of a reject, in order; on success the submission's task and its current
      rejection count. */
  function RejectTarget(st: State, cfg: Config, agent: Agent, submissionId: string, input: ReviewInput)
    : (r: Result<(Task, nat), Failure>)
    ensures AuthMiddleware.RequireRole(agent, AuthMiddleware.EmployerRoles).Ok? && ValidReview(input) &&
            !Truthy(input.feedback) ==>
              r == Err(HttpError(400, FeedbackRequired))
    ensures AuthMiddleware.RequireRole(agent, AuthMiddleware.EmployerRoles).Ok? && ValidReview(input) &&
            Truthy(input.feedback) ==>
              match FindSubmission(st, submissionId)
              case None => r == Err(HttpError(404, SubmissionNotFound))
              case Some(sub) =>
                match FindTask(st, sub.taskId)
                case None => r == Err(HttpError(404, TaskRoutes.TaskNotFound))
                case Some(t) =>
                  (t.employerId != agent.id ==> r == Err(HttpError(403, OnlyEmployerRejects))) &&
                  (t.employerId == agent.id &&
                   ReviewEngine.CanReject(RejectCount(st.reviews, t.id), cfg.MaxRejections()).Denied? ==>
                     r == Err(HttpError(400, ReviewEngine.RejectLimitReached(cfg.MaxRejections().value))))
    ensures r.Ok? ==>
              agent.role != WorkerRole && Truthy(input.feedback) && FindSubmission(st, submissionId).Some? &&
              FindTask(st, FindSubmission(st, submissionId).value.taskId) == Some(r.value.0) &&
              r.value.1 == RejectCount(st.reviews, r.value.0.id) && r.value.0.employerId == agent.id &&
              (cfg.MaxRejections().None? || r.value.1 < cfg.MaxRejections().value)
  {
    AuthMiddleware.EmployerGate(agent);
    var gate := AuthMiddleware.RequireRole(agent, AuthMiddleware.EmployerRoles);
    if gate.Err? then Err(gate.error)
    else if !ValidReview(input) then Err(Thrown(SchemaViolation))
    else if !Truthy(input.feedback) then Err(HttpError(400, FeedbackRequired))
    else
      match FindSubmission(st, submissionId)
      case None => Err(HttpError(404, SubmissionNotFound))
      case Some(sub) =>
        match FindTask(st, sub.taskId)
        case None => Err(HttpError(404, TaskRoutes.TaskNotFound))
        case Some(t) =>
          if t.employerId != agent.id then Err(HttpError(403, OnlyEmployerRejects))
          else
            var count := RejectCount(st.reviews, t.id);
            var allowed := ReviewEngine.CanReject(count, cfg.MaxRejections());
            if allowed.Denied? then Err(HttpError(400, OrElse(Some(allowed.reason), CannotReject)))
            else Ok((t, count))
  }
}
