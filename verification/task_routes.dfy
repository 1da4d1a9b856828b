/** The task routes: posting a task with its escrow hold, the listing by status, reading one
    task, and a worker's claim and unclaim. Each handler runs after authentication: the agent it
    receives is the authenticated caller, and the route's role gate is its first check. */
module TaskRoutes {
  import opened Wrappers
  import opened Bytes
  import opened Types
  import opened Store
  import opened Decimal
  import Text
  import Clock
  import Crypto
  import Table
  import Ids
  import Audit
  import TaskToken
  import Settlement
  import AuthMiddleware

  const TaskNotFound: string := "Task not found"

  // ---------------------------------------------------------------- create

  const MinTitleLength: nat := 5
  const MaxTitleLength: nat := 200
  const MinDescriptionLength: nat := 10
  const MaxDescriptionLength: nat := 5000
  /** The schema's ceiling of 10000 dollars, in cents. */
  const MaxBudgetCents: nat := 1_000_000

  const DeadlineInPast: string := "Deadline must be in the future"
  const PaymentSetupFailed: string := "Payment setup failed: "
  const FreeTask: string := "free_task"

  /** The body of a create request; the budget is in cents. */
  datatype CreateInput = CreateInput(title: string, description: string, skills: Option<seq<string>>,
                                     budget: int, deadline: string)

  /** The request schema: the length bounds, the budget range, and a deadline in the date-time
      format (`isDateTime` stands for the schema library's own format test). */
  predicate ValidCreateInput(input: CreateInput, isDateTime: string -> bool) {
    MinTitleLength <= |input.title| <= MaxTitleLength &&
    MinDescriptionLength <= |input.description| <= MaxDescriptionLength &&
    0 <= input.budget <= MaxBudgetCents &&
    isDateTime(input.deadline)
  }

  /** `new Date(text) < new Date()`: an invalid date compares false with everything. */
  predicate Before(dateOf: string -> Option<int>, text: string, now: int) {
    dateOf(text).Some? && dateOf(text).value < now
  }

  /** The row a create inserts: open, payment pending, created and updated now. */
  function NewTask(id: string, employerId: string, input: CreateInput, now: nat): Task {
    Task(id, employerId, None, input.title, input.description, input.skills.GetOr([]), input.budget,
         input.deadline, Open, None, PaymentPending, now, None, None, None, now)
  }

  /** The row after a successful hold. */
  function Held(t: Task, intentId: string): Task {
    t.(paymentIntentId := Some(intentId), paymentStatus := PaymentHeld)
  }

  /** The `data` of a create response (sent with status 201). */
  datatype Created = Created(taskId: string, taskToken: string, title: string, budget: int,
                             deadline: string, status: TaskStatus, paymentStatus: PaymentStatus)

  function CreateDetails(input: CreateInput, intentId: Option<string>): Details {
    map[TitleKey := VStr(input.title), BudgetKey := VCents(input.budget),
        PaymentIntentIdKey := VStr(OrElse(intentId, FreeTask))]
  }

  /** The escrow step for a row just inserted under a fresh id: a paid task gets a hold; when the
      hold fails the row is deleted again and the answer is 402 with the processor's message. */
  function Escrow(st: State, p: Processor, now: nat, t: Task, customerId: Option<string>)
    : (r: Outcome<Option<string>>)
    requires FindTask(st, t.id).None?
    ensures t.budget <= 0 ==> r == Outcome(InsertTask(st, t).state, Ok(None))
    ensures t.budget > 0 && r.result.Ok? ==>
              r.result.value.Some? && r.state.tasks == st.tasks + [Held(t, r.result.value.value)] &&
              |r.state.audit| == |st.audit| + 1 && r.state.audit[..|st.audit|] == st.audit &&
              r.state.audit[|st.audit|].action == PaymentHold
    ensures r.result.Err? ==>
              r.state.tasks == st.tasks && r.state.audit == st.audit &&
              r.result.error.HttpError? && r.result.error.status == 402 &&
              Text.StartsWith(r.result.error.message, PaymentSetupFailed)
  {
    var st1 := InsertTask(st, t).state;
    if t.budget > 0 then
      var pay := Settlement.CreateTaskPayment(st1, p, now, t.id, t.employerId, t.budget, customerId);
      if pay.result.Err? then
        DeleteRestores(st, t, pay.state);
        Outcome(DeleteTask(pay.state, t.id), Err(HttpError(402, PaymentSetupFailed + pay.result.error.message)))
      else
        HoldOnLastRow(st, t, pay.result.value, pay.state);
        Outcome(pay.state, Ok(Some(pay.result.value)))
    else Outcome(st1, Ok(None))
  }

  /** Deleting the fresh row from any state whose task table is the table after the insert
      restores the table. */
  lemma DeleteRestores(st: State, t: Task, after: State)
    requires FindTask(st, t.id).None?
    requires after.tasks == st.tasks + [t]
    ensures DeleteTask(after, t.id).tasks == st.tasks
  {
    InsertThenDelete(st, t);
    assert DeleteTask(after, t.id).tasks == DeleteTask(InsertTask(st, t).state, t.id).tasks;
  }

  /** Marking the fresh row held changes the last row only. */
  lemma HoldOnLastRow(st: State, t: Task, pi: string, after: State)
    requires FindTask(st, t.id).None?
    requires |after.tasks| == |st.tasks| + 1
    requires forall i :: 0 <= i < |st.tasks| + 1 ==>
               after.tasks[i] == if (st.tasks + [t])[i].id == t.id then Held((st.tasks + [t])[i], pi)
                                 else (st.tasks + [t])[i]
    ensures after.tasks == st.tasks + [Held(t, pi)]
  {
    forall i | 0 <= i < |st.tasks| ensures after.tasks[i] == st.tasks[i] {
      assert (st.tasks + [t])[i] == st.tasks[i];
    }
    assert (st.tasks + [t])[|st.tasks|] == t;
  }

  /** What a create does once the guards have passed and the id is fresh: insert, hold, issue the
      token and log `task_create`. A refused hold deletes the row again (402); a token that cannot
      be issued (an empty secret) throws and leaves the row, and its hold, in place. */
  function Publish(st: State, ext: Ext, cfg: Config, ctx: Ctx, agent: Agent, input: CreateInput, id: string)
    : (r: Outcome<Created>)
    requires FindTask(st, id).None?
    ensures r.result.Err? && r.result.error.HttpError? ==> r.state.tasks == st.tasks
    ensures r.result.Err? && r.result.error.Thrown? ==>
              cfg.taskSecret == "" && r.result.error.message == Crypto.EmptyKeyRefused &&
              |r.state.tasks| == |st.tasks| + 1 && r.state.tasks[..|st.tasks|] == st.tasks &&
              r.state.tasks[|st.tasks|].id == id && r.state.tasks[|st.tasks|].status == Open
    ensures r.result.Ok? ==> cfg.taskSecret != ""
    ensures input.budget <= 0 ==> (r.result.Ok? <==> cfg.taskSecret != "") && r.state.calls == st.calls
    ensures r.result.Ok? ==>
              var c := r.result.value;
              c.taskId == id && c.status == Open && c.title == input.title && c.budget == input.budget &&
              c.deadline == input.deadline &&
              c.taskToken == TaskToken.Token(ext.sha, NewTask(id, agent.id, input, ctx.now), cfg.taskSecret) &&
              c.paymentStatus == (if input.budget > 0 then PaymentHeld else PaymentPending)
  {
    var t := NewTask(id, agent.id, input, ctx.now);
    var held := Escrow(st, ext.processor, ctx.now, t, agent.stripeCustomerId);
    match held.result
    case Err(e) => Outcome(held.state, Err(e))
    case Ok(intentId) => Announce(held.state, ext.sha, cfg, ctx, agent, input, t, intentId)
  }

  /** A successful create appends the new row: held under the processor's intent when the task is
      paid, as inserted when it is free. */
  lemma PublishStoresRow(st: State, ext: Ext, cfg: Config, ctx: Ctx, agent: Agent, input: CreateInput, id: string)
    requires FindTask(st, id).None?
    ensures var r := Publish(st, ext, cfg, ctx, agent, input, id);
      var t := NewTask(id, agent.id, input, ctx.now);
      r.result.Ok? ==>
        (input.budget > 0 ==> exists pi :: r.state.tasks == st.tasks + [Held(t, pi)]) &&
        (input.budget <= 0 ==> r.state.tasks == st.tasks + [t])
  {
    var t := NewTask(id, agent.id, input, ctx.now);
    var held := Escrow(st, ext.processor, ctx.now, t, agent.stripeCustomerId);
    if held.result.Ok? {
      var a := Announce(held.state, ext.sha, cfg, ctx, agent, input, t, held.result.value);
      assert Publish(st, ext, cfg, ctx, agent, input, id) == a;
      assert a.state.tasks == held.state.tasks;
    }
  }

  /** A free task's create appends exactly one entry, `task_create`, with no intent; under an
      empty secret it appends none. */
  lemma FreePublishLogged(st: State, ext: Ext, cfg: Config, ctx: Ctx, agent: Agent, input: CreateInput, id: string)
    requires FindTask(st, id).None? && input.budget <= 0
    ensures Publish(st, ext, cfg, ctx, agent, input, id).state.audit ==
            st.audit + if cfg.taskSecret == "" then []
                       else [Audit.Entry(ctx.now, id, TaskCreate, agent.id, EmployerActor, Some(CreateDetails(input, None)), ctx.ip)]
  {
    var t := NewTask(id, agent.id, input, ctx.now);
    var held := Escrow(st, ext.processor, ctx.now, t, agent.stripeCustomerId);
    assert held == Outcome(InsertTask(st, t).state, Ok(None));
    assert Publish(st, ext, cfg, ctx, agent, input, id) == Announce(held.state, ext.sha, cfg, ctx, agent, input, t, None);
  }

  /** A paid task's successful create keeps the log and appends two entries: the hold's, then
      `task_create` naming the intent the new row is held under. */
  lemma PaidPublishLogged(st: State, ext: Ext, cfg: Config, ctx: Ctx, agent: Agent, input: CreateInput, id: string)
    requires FindTask(st, id).None? && input.budget > 0
    requires Publish(st, ext, cfg, ctx, agent, input, id).result.Ok?
    ensures var log := Publish(st, ext, cfg, ctx, agent, input, id).state.audit;
      |log| == |st.audit| + 2 && log[..|st.audit|] == st.audit && log[|st.audit|].action == PaymentHold &&
      exists pi: string ::
        Publish(st, ext, cfg, ctx, agent, input, id).state.tasks == st.tasks + [Held(NewTask(id, agent.id, input, ctx.now), pi)] &&
        log[|st.audit| + 1] ==
          Audit.Entry(ctx.now, id, TaskCreate, agent.id, EmployerActor, Some(CreateDetails(input, Some(pi))), ctx.ip)
  {
    var t := NewTask(id, agent.id, input, ctx.now);
    var held := Escrow(st, ext.processor, ctx.now, t, agent.stripeCustomerId);
    var pi := held.result.value.value;
    var e := Audit.Entry(ctx.now, id, TaskCreate, agent.id, EmployerActor, Some(CreateDetails(input, Some(pi))), ctx.ip);
    var a := Announce(held.state, ext.sha, cfg, ctx, agent, input, t, Some(pi));
    assert Publish(st, ext, cfg, ctx, agent, input, id) == a;
    assert a.state.audit == held.state.audit + [e];
    Audit.AppendedAfter(st.audit, held.state.audit, 1, e);
    assert a.state.audit[|st.audit|] == held.state.audit[|st.audit|];
    assert a.state.tasks == st.tasks + [Held(t, pi)];
  }

  /** The last step of a create: the token for the new row and the `task_create` entry. Under an
      empty secret the token's generation throws, after the row and any hold are stored, and
      nothing is logged. */
  function Announce(st: State, sha: Crypto.Sha256, cfg: Config, ctx: Ctx, agent: Agent, input: CreateInput,
                    t: Task, intentId: Option<string>): (r: Outcome<Created>)
    ensures r.result.Ok? <==> cfg.taskSecret != ""
    ensures r.result.Err? ==> r == Outcome(st, Err(Thrown(Crypto.EmptyKeyRefused)))
    ensures r.result.Ok? ==> r.state == st.(audit := r.state.audit)
    ensures r.result.Ok? ==> var c := r.result.value;
      c.taskId == t.id && c.status == Open && c.title == input.title && c.budget == input.budget &&
      c.deadline == input.deadline && c.taskToken == TaskToken.Token(sha, t, cfg.taskSecret) &&
      c.paymentStatus == (if input.budget > 0 then PaymentHeld else PaymentPending)
    ensures r.result.Ok? ==>
              r.state.audit == st.audit + [Audit.Entry(ctx.now, t.id, TaskCreate, agent.id, EmployerActor,
                                                        Some(CreateDetails(input, intentId)), ctx.ip)]
  {
    match TaskToken.Generate(sha, t, cfg.taskSecret)
    case Err(e) => Outcome(st, Err(Thrown(e)))
    case Ok(token) =>
      var st1 := Audit.Log(st, ctx.now, t.id, TaskCreate, agent.id, EmployerActor,
                           Some(CreateDetails(input, intentId)), ctx.ip);
      Outcome(st1, Ok(Created(t.id, token, input.title, input.budget, input.deadline, Open,
                              if input.budget > 0 then PaymentHeld else PaymentPending)))
  }

  /** `POST /tasks`. The task id comes from `idBytes`, the random part of `generateId('task')`. */
  function Create(st: State, ext: Ext, isDateTime: string -> bool, cfg: Config, ctx: Ctx, agent: Agent,
                  input: CreateInput, idBytes: seq<byte>): (r: Outcome<Created>)
    ensures AuthMiddleware.RequireRole(agent, AuthMiddleware.EmployerRoles).Err? ==>
              r == Outcome(st, Err(AuthMiddleware.RequireRole(agent, AuthMiddleware.EmployerRoles).error))
    ensures AuthMiddleware.RequireRole(agent, AuthMiddleware.EmployerRoles).Ok? && !ValidCreateInput(input, isDateTime) ==>
              r == Outcome(st, Err(Thrown(SchemaViolation)))
    ensures AuthMiddleware.RequireRole(agent, AuthMiddleware.EmployerRoles).Ok? && ValidCreateInput(input, isDateTime) &&
            Before(ext.dateOf, input.deadline, ctx.now) ==>
              r == Fail(st, 400, DeadlineInPast)
    ensures r.result.Err? && r.result.error != Thrown(Crypto.EmptyKeyRefused) ==> r.state.tasks == st.tasks
    ensures r.result == Err(Thrown(Crypto.EmptyKeyRefused)) ==>
              cfg.taskSecret == "" && |r.state.tasks| == |st.tasks| + 1 && r.state.tasks[..|st.tasks|] == st.tasks
    ensures input.budget <= 0 ==> r.state.calls == st.calls
    ensures r.result.Ok? ==>
              cfg.taskSecret != "" && agent.role != WorkerRole && ValidCreateInput(input, isDateTime) &&
              !Before(ext.dateOf, input.deadline, ctx.now) &&
              r.result.value.taskId == Ids.GenerateId("task", idBytes) &&
              FindTask(st, r.result.value.taskId).None? &&
              r == Publish(st, ext, cfg, ctx, agent, input, r.result.value.taskId)
  {
    match CreateCheck(ext, isDateTime, ctx, agent, input)
    case Err(e) => Outcome(st, Err(e))
    case Ok(_) =>
      var id := Ids.GenerateId("task", idBytes);
      if FindTask(st, id).Some? then Outcome(st, Err(Thrown(DuplicateKey)))
      else Publish(st, ext, cfg, ctx, agent, input, id)
  }

  /** The guards of a create, in order: role, schema, deadline. */
  function CreateCheck(ext: Ext, isDateTime: string -> bool, ctx: Ctx, agent: Agent, input: CreateInput)
    : (r: Result<(), Failure>)
    ensures AuthMiddleware.RequireRole(agent, AuthMiddleware.EmployerRoles).Err? ==>
              r == Err(AuthMiddleware.RequireRole(agent, AuthMiddleware.EmployerRoles).error)
    ensures AuthMiddleware.RequireRole(agent, AuthMiddleware.EmployerRoles).Ok? && !ValidCreateInput(input, isDateTime) ==>
              r == Err(Thrown(SchemaViolation))
    ensures AuthMiddleware.RequireRole(agent, AuthMiddleware.EmployerRoles).Ok? && ValidCreateInput(input, isDateTime) &&
            Before(ext.dateOf, input.deadline, ctx.now) ==>
              r == Err(HttpError(400, DeadlineInPast))
    ensures r.Ok? <==>
              agent.role != WorkerRole && ValidCreateInput(input, isDateTime) && !Before(ext.dateOf, input.deadline, ctx.now)
  {
    AuthMiddleware.EmployerGate(agent);
    var gate := AuthMiddleware.RequireRole(agent, AuthMiddleware.EmployerRoles);
    if gate.Err? then Err(gate.error)
    else if !ValidCreateInput(input, isDateTime) then Err(Thrown(SchemaViolation))
    else if Before(ext.dateOf, input.deadline, ctx.now) then Err(HttpError(400, DeadlineInPast))
    else Ok(())
  }

  /** As written, a free create under an empty secret stores the open row and only then throws
      at the token: the 500 leaves behind a task whose employer never received its token. */
  lemma EmptySecretOrphansTask(st: State, ext: Ext, cfg: Config, ctx: Ctx, agent: Agent, input: CreateInput,
                               id: string)
    requires FindTask(st, id).None? && input.budget <= 0 && cfg.taskSecret == ""
    ensures Publish(st, ext, cfg, ctx, agent, input, id) ==
            Outcome(st.(tasks := st.tasks + [NewTask(id, agent.id, input, ctx.now)]), Err(Thrown(Crypto.EmptyKeyRefused)))
  {
    var t := NewTask(id, agent.id, input, ctx.now);
    var held := Escrow(st, ext.processor, ctx.now, t, agent.stripeCustomerId);
    assert held == Outcome(st.(tasks := st.tasks + [t]), Ok(None));
    assert Publish(st, ext, cfg, ctx, agent, input, id) == Announce(held.state, ext.sha, cfg, ctx, agent, input, t, None);
  }

  /** The create the 402 path evidently intends for every failure: once the guards pass, an empty
      secret is refused before anything is stored, so no failed create leaves a row behind.
      Under a set secret it is the create as written. */
  function CreateIntended(st: State, ext: Ext, isDateTime: string -> bool, cfg: Config, ctx: Ctx, agent: Agent,
                          input: CreateInput, idBytes: seq<byte>): (r: Outcome<Created>)
    ensures r.result.Err? ==> r.state.tasks == st.tasks
    ensures cfg.taskSecret == "" ==> r.result.Err? && r.state == st
    ensures CreateCheck(ext, isDateTime, ctx, agent, input).Err? ==>
              r == Outcome(st, Err(CreateCheck(ext, isDateTime, ctx, agent, input).error))
    ensures r.result.Ok? <==> Create(st, ext, isDateTime, cfg, ctx, agent, input, idBytes).result.Ok?
    ensures r.result.Ok? ==> r == Create(st, ext, isDateTime, cfg, ctx, agent, input, idBytes)
  {
    match CreateCheck(ext, isDateTime, ctx, agent, input)
    case Err(e) => Outcome(st, Err(e))
    case Ok(_) =>
      if cfg.taskSecret == "" then Outcome(st, Err(Thrown(Crypto.EmptyKeyRefused)))
      else Create(st, ext, isDateTime, cfg, ctx, agent, input, idBytes)
  }

  // ---------------------------------------------------------------- list

  const DefaultListStatus: string := "open"
  const DefaultPage: nat := 1
  const DefaultPerPage: nat := 20
  const MaxPerPage: int := 100

  datatype ListQuery = ListQuery(status: Option<string>, skills: Option<string>, page: Option<string>,
                                 perPage: Option<string>)

  /** The `data` of a listing. */
  datatype TaskPage = TaskPage(items: seq<Task>, total: nat, page: int, perPage: int, hasMore: bool)

  function CreatedAt(t: Task): int {
    t.createdAt
  }

  function Min(a: int, b: int): int {
    if a <= b then a else b
  }

  /** `WHERE status = ?`. */
  function InStatus(status: string): Task -> bool {
    (t: Task) => t.status.Name() == status
  }

  /** The tasks in a status, newest first: each row in the status appears as often as in the
      table, no other row appears, and there are `COUNT(*)` of them. */
  function ByStatus(tasks: seq<Task>, status: string): (r: seq<Task>)
    ensures forall t: Task :: multiset(r)[t] == if t.status.Name() == status then multiset(tasks)[t] else 0
    ensures |r| == Table.Count(tasks, InStatus(status))
    ensures forall i :: 0 <= i < |r| ==> r[i] in tasks && r[i].status.Name() == status
    ensures forall i :: 0 <= i < |tasks| && tasks[i].status.Name() == status ==> tasks[i] in r
    ensures forall i, j :: 0 <= i < j < |r| ==> r[i].createdAt >= r[j].createdAt
  {
    var matching := Table.Filter(tasks, InStatus(status));
    Table.CountIsFilterLength(tasks, InStatus(status));
    assert forall t: Task :: multiset(matching)[t] == if t.status.Name() == status then multiset(tasks)[t] else 0 by {
      forall t: Task ensures multiset(matching)[t] == if t.status.Name() == status then multiset(tasks)[t] else 0 {
        Table.FilterMultiplicity(tasks, InStatus(status), t);
      }
    }
    Table.SortDescBy(matching, CreatedAt)
  }

  /** `LIMIT size OFFSET (page - 1) * size` over rows sorted newest first: a run of them, as
      long as the size, still newest first. */
  function PageOf(all: seq<Task>, page: int, size: int): (r: seq<Task>)
    requires forall i, j :: 0 <= i < j < |all| ==> all[i].createdAt >= all[j].createdAt
    ensures size >= 0 ==> |r| <= size
    ensures forall i :: 0 <= i < |r| ==> r[i] in all
    ensures forall i, j :: 0 <= i < j < |r| ==> r[i].createdAt >= r[j].createdAt
  {
    Table.WindowSlice(all, size, (page - 1) * size);
    Table.Window(all, size, (page - 1) * size)
  }

  /** The page number and the capped page size (`parseInt(page || '1')`,
      `Math.min(parseInt(limit || '20'), 100)`), or None when either is NaN. */
  function Paging(q: ListQuery): (r: Option<(int, int)>)
    ensures r.Some? <==> ParseIntOr(q.page, DefaultPage).Some? && ParseIntOr(q.perPage, DefaultPerPage).Some?
    ensures r.Some? ==> r.value.0 == ParseIntOr(q.page, DefaultPage).value && r.value.1 <= MaxPerPage
    ensures r.Some? ==> r.value.1 == ParseIntOr(q.perPage, DefaultPerPage).value || r.value.1 == MaxPerPage
    ensures !Truthy(q.page) && !Truthy(q.perPage) ==> r == Some((1, 20))
  {
    var page := ParseIntOr(q.page, DefaultPage);
    var per := ParseIntOr(q.perPage, DefaultPerPage);
    if page.None? || per.None? then None else Some((page.value, Min(per.value, MaxPerPage)))
  }

  /** `GET /tasks`: one page of the tasks in a status (default `open`), newest first. Page and
      page size are read with `parseInt`; the page size is capped at 100. A NaN page or page size
      reaches the row store as a binding it refuses. The skills filter is not applied. */
  function List(st: State, q: ListQuery): (r: Result<TaskPage, Failure>)
    ensures r.Ok? <==> Paging(q).Some?
    ensures r.Err? ==> r.error == Thrown(UnboundNumber)
    ensures r.Ok? ==>
              r.value.page == Paging(q).value.0 && r.value.perPage == Paging(q).value.1 &&
              r.value.total == Table.Count(st.tasks, InStatus(OrElse(q.status, DefaultListStatus))) &&
              r.value.items == PageOf(ByStatus(st.tasks, OrElse(q.status, DefaultListStatus)), r.value.page, r.value.perPage) &&
              (r.value.hasMore <==> r.value.total > r.value.page * r.value.perPage)
    ensures r.Ok? ==>
              var status := OrElse(q.status, DefaultListStatus);
              var items := r.value.items;
              (r.value.perPage >= 0 ==> |items| <= r.value.perPage) &&
              (forall i :: 0 <= i < |items| ==> items[i] in st.tasks && items[i].status.Name() == status) &&
              (forall i, j :: 0 <= i < j < |items| ==> items[i].createdAt >= items[j].createdAt)
  {
    match Paging(q)
    case None => Err(Thrown(UnboundNumber))
    case Some((page, size)) =>
      var all := ByStatus(st.tasks, OrElse(q.status, DefaultListStatus));
      Ok(TaskPage(PageOf(all, page, size), |all|, page, size, |all| > page * size))
  }

  /** Pages of a positive size walk the rows in order: a page with more rows after it is a full
      slice, and the first page that reaches the end holds every row that is left. */
  lemma PageOfSlices(all: seq<Task>, page: int, size: int)
    requires forall i, j :: 0 <= i < j < |all| ==> all[i].createdAt >= all[j].createdAt
    requires page >= 1 && size > 0
    ensures var start := (page - 1) * size;
      (|all| > page * size ==> PageOf(all, page, size) == all[start..start + size]) &&
      (|all| <= page * size && start <= |all| ==> PageOf(all, page, size) == all[start..])
  {
    var start := (page - 1) * size;
    assert start + size == page * size;
    Table.WindowSlice(all, size, start);
  }

  // ---------------------------------------------------------------- get

  /** `GET /tasks/:id`: the task with that id, or 404. */
  function Get(st: State, taskId: string): (r: Result<Task, Failure>)
    ensures r.Ok? <==> exists i :: 0 <= i < |st.tasks| && st.tasks[i].id == taskId
    ensures r.Ok? ==> r.value in st.tasks && r.value.id == taskId
    ensures r.Err? ==> r.error == HttpError(404, TaskNotFound)
  {
    match FindTask(st, taskId)
    case None => Err(HttpError(404, TaskNotFound))
    case Some(t) => Ok(t)
  }

  // ---------------------------------------------------------------- claim

  const NotClaimable: string := "Task is not available for claiming"
  const OwnTask: string := "Cannot claim your own task"
  const InvalidToken: string := "Invalid task token"
  const TaskExpired: string := "Task has expired"

  /** The row after a claim by `workerId` at `now`. */
  function ClaimedBy(t: Task, workerId: string, now: nat): Task {
    t.(workerId := Some(workerId), status := Claimed, claimedAt := Some(now), updatedAt := now)
  }

  function ClaimDetails(agent: Agent, now: nat): Details {
    map[AgentNameKey := VStr(agent.name), ClaimedAtKey := VStr(Clock.IsoText(now))]
  }

  /** The token check of a claim, with the deployment's expiry in hours. */
  function TokenCheck(sha: Crypto.Sha256, cfg: Config, now: nat, t: Task, token: string)
    : (r: Result<TaskToken.Validation, string>)
    ensures r == Ok(TaskToken.Valid) <==>
              !TaskToken.IsExpired(t.createdAt, now, cfg.TokenExpiryHours()) && cfg.taskSecret != "" &&
              token == TaskToken.Token(sha, t, cfg.taskSecret)
  {
    TaskToken.VerifyWithExpiry(sha, t, token, cfg.taskSecret, now, cfg.TokenExpiryHours())
  }

  /** `POST /tasks/:id/claim`. The body's `task_token` is None when missing. The guards run in
      the order: role, body, existence, status, own task, token, deadline; a live token checked
      under an empty secret throws. The update that follows is not conditional on the status
      the guards read. */
  function Claim(st: State, ext: Ext, cfg: Config, ctx: Ctx, agent: Agent, taskId: string,
                 token: Option<string>): (r: Outcome<()>)
    ensures r.result.Err? ==> r.state == st
    ensures AuthMiddleware.RequireRole(agent, AuthMiddleware.WorkerRoles).Err? ==>
              r.result == Err(AuthMiddleware.RequireRole(agent, AuthMiddleware.WorkerRoles).error)
    ensures AuthMiddleware.RequireRole(agent, AuthMiddleware.WorkerRoles).Ok? && token.None? ==>
              r.result == Err(Thrown(SchemaViolation))
    ensures AuthMiddleware.RequireRole(agent, AuthMiddleware.WorkerRoles).Ok? && token.Some? ==>
              match FindTask(st, taskId)
              case None => r.result == Err(HttpError(404, TaskNotFound))
              case Some(t) =>
                (t.status != Open ==> r.result == Err(HttpError(400, NotClaimable))) &&
                (t.status == Open && t.employerId == agent.id ==> r.result == Err(HttpError(400, OwnTask))) &&
                (t.status == Open && t.employerId != agent.id && TokenCheck(ext.sha, cfg, ctx.now, t, token.value).Err? ==>
                   r.result == Err(Thrown(TokenCheck(ext.sha, cfg, ctx.now, t, token.value).error))) &&
                (t.status == Open && t.employerId != agent.id && TokenCheck(ext.sha, cfg, ctx.now, t, token.value).Ok? &&
                 TokenCheck(ext.sha, cfg, ctx.now, t, token.value).value.Invalid? ==>
                   r.result == Err(HttpError(401, TokenCheck(ext.sha, cfg, ctx.now, t, token.value).value.reason))) &&
                (t.status == Open && t.employerId != agent.id && TokenCheck(ext.sha, cfg, ctx.now, t, token.value) == Ok(TaskToken.Valid) &&
                 Before(ext.dateOf, t.deadline, ctx.now) ==>
                   r.result == Err(HttpError(400, TaskExpired)))
    ensures r.result.Ok? ==>
              var t := FindTask(st, taskId).value;
              agent.role != EmployerRole && token.Some? &&
              t.status == Open && t.employerId != agent.id &&
              !TaskToken.IsExpired(t.createdAt, ctx.now, cfg.TokenExpiryHours()) &&
              cfg.taskSecret != "" && token.value == TaskToken.Token(ext.sha, t, cfg.taskSecret) &&
              !Before(ext.dateOf, t.deadline, ctx.now)
    ensures r.result.Ok? ==>
              r.state == UpdateTask(st, taskId, (x: Task) => ClaimedBy(x, agent.id, ctx.now)).(audit := r.state.audit) &&
              r.state.audit == st.audit + [Audit.Entry(ctx.now, taskId, TaskClaim, agent.id, WorkerActor,
                                                        Some(ClaimDetails(agent, ctx.now)), ctx.ip)]
  {
    match ClaimTarget(st, ext, cfg, ctx, agent, taskId, token)
    case Err(e) => Outcome(st, Err(e))
    case Ok(t) =>
      var st1 := UpdateTask(st, taskId, (x: Task) => ClaimedBy(x, agent.id, ctx.now));
      Outcome(Audit.Log(st1, ctx.now, taskId, TaskClaim, agent.id, WorkerActor,
                        Some(ClaimDetails(agent, ctx.now)), ctx.ip), Ok(()))
  }

  /** The guards of a claim, in order; on success the task they admit. */
  function ClaimTarget(st: State, ext: Ext, cfg: Config, ctx: Ctx, agent: Agent, taskId: string,
                       token: Option<string>): (r: Result<Task, Failure>)
    ensures AuthMiddleware.RequireRole(agent, AuthMiddleware.WorkerRoles).Err? ==>
              r == Err(AuthMiddleware.RequireRole(agent, AuthMiddleware.WorkerRoles).error)
    ensures AuthMiddleware.RequireRole(agent, AuthMiddleware.WorkerRoles).Ok? && token.None? ==>
              r == Err(Thrown(SchemaViolation))
    ensures AuthMiddleware.RequireRole(agent, AuthMiddleware.WorkerRoles).Ok? && token.Some? ==>
              match FindTask(st, taskId)
              case None => r == Err(HttpError(404, TaskNotFound))
              case Some(t) =>
                (t.status != Open ==> r == Err(HttpError(400, NotClaimable))) &&
                (t.status == Open && t.employerId == agent.id ==> r == Err(HttpError(400, OwnTask))) &&
                (t.status == Open && t.employerId != agent.id && TokenCheck(ext.sha, cfg, ctx.now, t, token.value).Err? ==>
                   r == Err(Thrown(TokenCheck(ext.sha, cfg, ctx.now, t, token.value).error))) &&
                (t.status == Open && t.employerId != agent.id && TokenCheck(ext.sha, cfg, ctx.now, t, token.value).Ok? &&
                 TokenCheck(ext.sha, cfg, ctx.now, t, token.value).value.Invalid? ==>
                   r == Err(HttpError(401, TokenCheck(ext.sha, cfg, ctx.now, t, token.value).value.reason))) &&
                (t.status == Open && t.employerId != agent.id && TokenCheck(ext.sha, cfg, ctx.now, t, token.value) == Ok(TaskToken.Valid) &&
                 Before(ext.dateOf, t.deadline, ctx.now) ==>
                   r == Err(HttpError(400, TaskExpired)))
    ensures r.Ok? ==>
              FindTask(st, taskId) == Some(r.value) &&
              agent.role != EmployerRole && token.Some? &&
              r.value.status == Open && r.value.employerId != agent.id &&
              !TaskToken.IsExpired(r.value.createdAt, ctx.now, cfg.TokenExpiryHours()) &&
              cfg.taskSecret != "" && token.value == TaskToken.Token(ext.sha, r.value, cfg.taskSecret) &&
              !Before(ext.dateOf, r.value.deadline, ctx.now)
  {
    AuthMiddleware.WorkerGate(agent);
    var gate := AuthMiddleware.RequireRole(agent, AuthMiddleware.WorkerRoles);
    if gate.Err? then Err(gate.error)
    else if token.None? then Err(Thrown(SchemaViolation))
    else
      match FindTask(st, taskId)
      case None => Err(HttpError(404, TaskNotFound))
      case Some(t) =>
        if t.status != Open then Err(HttpError(400, NotClaimable))
        else if t.employerId == agent.id then Err(HttpError(400, OwnTask))
        else
          match TokenCheck(ext.sha, cfg, ctx.now, t, token.value)
          case Err(e) => Err(Thrown(e))
          case Ok(check) =>
            if check.Invalid? then Err(HttpError(401, OrElse(Some(check.reason), InvalidToken)))
            else if Before(ext.dateOf, t.deadline, ctx.now) then Err(HttpError(400, TaskExpired))
            else Ok(t)
  }

  // ---------------------------------------------------------------- unclaim

  const NotTheWorker: string := "You are not the worker of this task"
  const NotUnclaimable: string := "Task cannot be unclaimed at this stage"

  /** The row after an unclaim at `now`: open again, with no worker and no claim time. */
  function Released(t: Task, now: nat): Task {
    t.(workerId := None, status := Open, claimedAt := None, updatedAt := now)
  }

  /** `POST /tasks/:id/unclaim`: only the task's worker, and only while the task is claimed. */
  function Unclaim(st: State, ctx: Ctx, agent: Agent, taskId: string): (r: Outcome<()>)
    ensures r.result.Err? ==> r.state == st
    ensures AuthMiddleware.RequireRole(agent, AuthMiddleware.WorkerRoles).Err? ==>
              r.result == Err(AuthMiddleware.RequireRole(agent, AuthMiddleware.WorkerRoles).error)
    ensures AuthMiddleware.RequireRole(agent, AuthMiddleware.WorkerRoles).Ok? ==>
              match FindTask(st, taskId)
              case None => r.result == Err(HttpError(404, TaskNotFound))
              case Some(t) =>
                (t.workerId != Some(agent.id) ==> r.result == Err(HttpError(403, NotTheWorker))) &&
                (t.workerId == Some(agent.id) && t.status != Claimed ==>
                   r.result == Err(HttpError(400, NotUnclaimable)))
    ensures r.result.Ok? <==>
              agent.role != EmployerRole && FindTask(st, taskId).Some? &&
              FindTask(st, taskId).value.workerId == Some(agent.id) && FindTask(st, taskId).value.status == Claimed
    ensures r.result.Ok? ==>
              r.state == UpdateTask(st, taskId, (x: Task) => Released(x, ctx.now)).(audit := r.state.audit) &&
              r.state.audit == st.audit + [Audit.Entry(ctx.now, taskId, TaskUnclaim, agent.id, WorkerActor,
                                                        Some(map[]), ctx.ip)]
  {
    var gate := AuthMiddleware.RequireRole(agent, AuthMiddleware.WorkerRoles);
    if gate.Err? then Outcome(st, Err(gate.error))
    else
      match FindTask(st, taskId)
      case None => Fail(st, 404, TaskNotFound)
      case Some(t) =>
        if t.workerId != Some(agent.id) then Fail(st, 403, NotTheWorker)
        else if t.status != Claimed then Fail(st, 400, NotUnclaimable)
        else
          var st1 := UpdateTask(st, taskId, (x: Task) => Released(x, ctx.now));
          Outcome(Audit.Log(st1, ctx.now, taskId, TaskUnclaim, agent.id, WorkerActor, Some(map[]), ctx.ip), Ok(()))
  }

  // ---------------------------------------------------------------- lifecycle

  /** A claim passes when every guard does: the caller may work, the task is open and someone
      else's, the token is the task's own and young enough, and the deadline has not passed.
      Under an empty secret the same claim throws at the token check and changes nothing. */
  lemma ClaimAccepted(st: State, ext: Ext, cfg: Config, ctx: Ctx, agent: Agent, taskId: string, t: Task,
                      token: string)
    requires agent.role != EmployerRole && FindTask(st, taskId) == Some(t)
    requires t.status == Open && t.employerId != agent.id
    requires !TaskToken.IsExpired(t.createdAt, ctx.now, cfg.TokenExpiryHours())
    requires token == TaskToken.Token(ext.sha, t, cfg.taskSecret)
    requires !Before(ext.dateOf, t.deadline, ctx.now)
    ensures cfg.taskSecret != "" ==> Claim(st, ext, cfg, ctx, agent, taskId, Some(token)).result.Ok?
    ensures cfg.taskSecret == "" ==>
              Claim(st, ext, cfg, ctx, agent, taskId, Some(token)) == Outcome(st, Err(Thrown(Crypto.EmptyKeyRefused)))
  {
    AuthMiddleware.WorkerGate(agent);
  }

  /** The token a create hands out lets any other worker claim the task, as long as neither the
      token's age limit nor the deadline has passed. */
  lemma IssuedTokenClaims(st: State, ext: Ext, isDateTime: string -> bool, cfg: Config, ctx: Ctx,
                          employer: Agent, input: CreateInput, idBytes: seq<byte>,
                          worker: Agent, later: Ctx)
    requires Create(st, ext, isDateTime, cfg, ctx, employer, input, idBytes).result.Ok?
    requires worker.role != EmployerRole && worker.id != employer.id
    requires !TaskToken.IsExpired(ctx.now, later.now, cfg.TokenExpiryHours())
    requires !Before(ext.dateOf, input.deadline, later.now)
    ensures var c := Create(st, ext, isDateTime, cfg, ctx, employer, input, idBytes);
      Claim(c.state, ext, cfg, later, worker, c.result.value.taskId, Some(c.result.value.taskToken)).result.Ok?
  {
    var c := Create(st, ext, isDateTime, cfg, ctx, employer, input, idBytes);
    var id := c.result.value.taskId;
    assert c == Publish(st, ext, cfg, ctx, employer, input, id);
    PublishStoresRow(st, ext, cfg, ctx, employer, input, id);
    var t := NewTask(id, employer.id, input, ctx.now);
    var stored: Task;
    if input.budget > 0 {
      var pi :| c.state.tasks == st.tasks + [Held(t, pi)];
      stored := Held(t, pi);
    } else {
      stored := t;
    }
    assert c.state.tasks == st.tasks + [stored];
    FreshRowFound(st.tasks, stored);
    assert FindTask(c.state, id) == Some(stored);
    TaskToken.GenerateDependsOnSignedFields(ext.sha, t, stored, cfg.taskSecret);
    ClaimAccepted(c.state, ext, cfg, later, worker, id, stored, c.result.value.taskToken);
  }

  /** A row appended under an id no earlier row has is the row a lookup by that id finds. */
  lemma FreshRowFound(tasks: seq<Task>, t: Task)
    requires forall i :: 0 <= i < |tasks| ==> tasks[i].id != t.id
    ensures Table.First(tasks + [t], (x: Task) => x.id == t.id) == Some(t)
  {
    var all := tasks + [t];
    var found := Table.First(all, (x: Task) => x.id == t.id);
    assert all[|tasks|] == t;
    var i :| 0 <= i < |all| && all[i] == found.value && forall j :: 0 <= j < i ==> all[j].id != t.id;
  }

  /** Unclaiming right after a claim gives the task back as it was before the claim, save for its
      update time, and leaves one claim and one unclaim entry in the log. */
  lemma UnclaimUndoesClaim(st: State, ext: Ext, cfg: Config, ctx: Ctx, agent: Agent, taskId: string,
                           token: Option<string>, later: Ctx)
    requires Claim(st, ext, cfg, ctx, agent, taskId, token).result.Ok?
    requires FindTask(st, taskId).value.workerId.None? && FindTask(st, taskId).value.claimedAt.None?
    ensures var claimed := Claim(st, ext, cfg, ctx, agent, taskId, token).state;
      var back := Unclaim(claimed, later, agent, taskId);
      var t := FindTask(st, taskId).value;
      back.result.Ok? &&
      FindTask(back.state, taskId) == Some(t.(updatedAt := later.now)) &&
      |back.state.audit| == |st.audit| + 2 &&
      back.state.audit[|st.audit|].action == TaskClaim && back.state.audit[|st.audit| + 1].action == TaskUnclaim
  {
    var t := FindTask(st, taskId).value;
    var claimed := Claim(st, ext, cfg, ctx, agent, taskId, token).state;
    FoundAfterUpdate(st, taskId, (x: Task) => ClaimedBy(x, agent.id, ctx.now));
    assert FindTask(claimed, taskId) == Some(ClaimedBy(t, agent.id, ctx.now));
    var back := Unclaim(claimed, later, agent, taskId);
    FoundAfterUpdate(claimed, taskId, (x: Task) => Released(x, later.now));
    assert FindTask(back.state, taskId) == Some(Released(ClaimedBy(t, agent.id, ctx.now), later.now));
    assert Released(ClaimedBy(t, agent.id, ctx.now), later.now) == t.(updatedAt := later.now);
  }

  /** After updating the rows with an id, a lookup by that id finds the updated first row. */
  lemma FoundAfterUpdate(st: State, id: string, f: Task -> Task)
    requires FindTask(st, id).Some?
    requires forall x: Task :: f(x).id == x.id
    ensures FindTask(UpdateTask(st, id, f), id) == Some(f(FindTask(st, id).value))
  {
    var p := (x: Task) => x.id == id;
    assert FindTask(st, id) == Table.First(st.tasks, p);
    Table.FirstAfterUpdate(st.tasks, p, f);
    assert UpdateTask(st, id, f).tasks == Table.UpdateWhere(st.tasks, p, f);
  }
}
