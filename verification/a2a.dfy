/** The agent-to-agent JSON-RPC 2.0 gateway, `POST /a2a`: envelope validation, the `message/send`
    dispatch on the first data part's action, and its three actions (finding workers, posting a
    paid task, reading a task's state). Errors travel as JSON-RPC error objects with their own
    HTTP status; anything the handlers throw becomes an internal error carrying its message. */
module A2A {
  import opened Wrappers
  import opened Bytes
  import opened Text
  import opened Types
  import opened Store
  import Table
  import Ids
  import Audit
  import Crypto
  import TaskToken
  import AuthMiddleware
  import TaskRoutes

  const ParseError: int := -32700
  const InvalidRequest: int := -32600
  const MethodNotFound: int := -32601
  const InvalidParams: int := -32602
  const InternalError: int := -32603
  const TaskMissing: int := -32001
  const Unauthorized: int := -32002

  const Version: string := "2.0"
  const MessageSend: string := "message/send"
  const FindWorkersAction: string := "find-workers"
  const PostTaskAction: string := "post-task"
  const TaskStatusAction: string := "get-task-status"

  const NoParts: string := "Message must contain at least one part"
  const Unrecognized: string := "Unrecognized message format"
  const TokenRequired: string := "Authorization Bearer token required for paid tasks"
  const BadKey: string := "Invalid API key"
  const FieldsRequired: string := "Required: title, description, budget, deadline"
  const TaskIdRequired: string := "task_id required"
  const WorkersHint: string := "Use a2a_url to connect directly (free) or use action:post-task for paid escrow"
  const NoWorkersHint: string := "No workers found. Try broader skills or check back later."

  /** The default and the ceiling of `find-workers`' limit. */
  const DefaultWorkers: int := 10
  const MaxWorkers: int := 50

  datatype RpcId = NumId(n: int) | StrId(s: string) | NullId

  /** The fields a data part may carry; a field the client left out is None. `budget` is in
      cents. */
  datatype ActionData = ActionData(action: Option<string>, skills: Option<seq<string>>, limit: Option<int>,
                                   title: Option<string>, description: Option<string>, budget: Option<int>,
                                   deadline: Option<string>, taskId: Option<string>)

  /** One part of a message: its `kind`, and the text or data it carries. */
  datatype Part = Part(kind: string, text: Option<string>, data: Option<ActionData>)

  /** A request body that parsed as JSON. */
  datatype Request = Request(jsonrpc: Option<string>, id: Option<RpcId>, methodName: Option<string>,
                             parts: Option<seq<Part>>)

  /** A worker as `find-workers` reports it. */
  datatype Worker = Worker(name: string, description: string, a2aUrl: string, skills: seq<CardSkill>, lastSeen: nat)

  datatype Reply =
    | RpcError(code: int, message: string)
    | Workers(workers: seq<Worker>, total: nat, hint: string)
    | TaskPosted(taskId: string, state: string, timestamp: nat, taskToken: string, budget: int,
                 deadline: string, platformFee: string)
    | TaskState(taskId: string, state: string, timestamp: nat, status: TaskStatus, budget: int,
                workerId: Option<string>, paymentStatus: PaymentStatus)
    | Hint

  /** An answer with its HTTP status; an `id` of None leaves the member out of the JSON. */
  datatype Response = Response(status: nat, id: Option<RpcId>, reply: Reply)

  /** The store after a request, and the answer. */
  datatype Exchange = Exchange(state: State, response: Response)

  function Failed(status: nat, id: Option<RpcId>, code: int, message: string): Response {
    Response(status, id, RpcError(code, message))
  }

  // ---------------------------------------------------------------- find-workers

  /** `Math.min(limit || 10, 50)`: a missing or zero limit is ten; nothing raises it above fifty. */
  function WorkerLimit(limit: Option<int>): (r: int)
    ensures r <= MaxWorkers
    ensures limit.None? || limit.value == 0 ==> r == DefaultWorkers
    ensures limit.Some? && limit.value != 0 && limit.value <= MaxWorkers ==> r == limit.value
  {
    var n := if limit.Some? && limit.value != 0 then limit.value else DefaultWorkers;
    if n < MaxWorkers then n else MaxWorkers
  }

  /** `FROM agent_cards ac JOIN agents a … WHERE ac.is_available = 1`: no recency test. */
  predicate Offered(st: State, c: Card) {
    c.isAvailable && FindAgent(st, c.agentId).Some?
  }

  function Reachable(st: State): Card -> bool {
    c => Offered(st, c)
  }

  /** The condition as a value selects exactly the offered cards. */
  lemma ReachableMeans(st: State)
    ensures forall c :: Reachable(st)(c) == Offered(st, c)
  {
  }

  function LastSeen(c: Card): int {
    c.lastSeen
  }

  /** The cards `find-workers` reports (the `skills` filter is not modelled): available cards of
      existing agents, most recently seen first, the first `limit` of them, so that no offered
      card left out was seen later than one reported; all of them when the limit does not cut. */
  function FoundCards(st: State, limit: Option<int>): (r: seq<Card>)
    ensures var n := WorkerLimit(limit);
            var total := Table.Count(st.cards, Reachable(st));
            |r| == if 0 <= n < total then n else total
    ensures multiset(r) <= multiset(Table.Filter(st.cards, Reachable(st)))
    ensures Table.NoneAboveBy(r, st.cards, Reachable(st), LastSeen)
    ensures forall i :: 0 <= i < |r| ==> r[i] in st.cards && Offered(st, r[i])
    ensures forall i, j :: 0 <= i < j < |r| ==> LastSeen(r[i]) >= LastSeen(r[j])
    ensures WorkerLimit(limit) < 0 || Table.Count(st.cards, Reachable(st)) <= WorkerLimit(limit) ==>
              forall i :: 0 <= i < |st.cards| && Offered(st, st.cards[i]) ==> st.cards[i] in r
  {
    ReachableMeans(st);
    Table.TopBy(st.cards, Reachable(st), LastSeen, WorkerLimit(limit))
  }

  function WorkerOf(c: Card): Worker {
    Worker(c.name, c.description, c.a2aUrl, c.skills, c.lastSeen)
  }

  /** The `find-workers` answer: the found cards as workers, their number, and a hint that depends
      on whether any were found. */
  function FindWorkers(st: State, id: Option<RpcId>, data: ActionData): (r: Response)
    ensures r.status == 200 && r.id == id && r.reply.Workers?
    ensures var cards := FoundCards(st, data.limit);
            |r.reply.workers| == r.reply.total == |cards| &&
            (forall i :: 0 <= i < |cards| ==> r.reply.workers[i] == WorkerOf(cards[i])) &&
            r.reply.hint == (if |cards| > 0 then WorkersHint else NoWorkersHint)
  {
    var workers := WorkersOf(FoundCards(st, data.limit));
    Response(200, id, Workers(workers, |workers|, if |workers| > 0 then WorkersHint else NoWorkersHint))
  }

  /** The cards as workers, one for one. */
  function WorkersOf(cards: seq<Card>): (r: seq<Worker>)
    ensures |r| == |cards| && forall i :: 0 <= i < |cards| ==> r[i] == WorkerOf(cards[i])
  {
    seq(|cards|, i requires 0 <= i < |cards| => WorkerOf(cards[i]))
  }

  /** The ceiling only holds from above: a negative limit reaches `LIMIT` as is, and every
      available card of an existing agent is reported. */
  lemma NegativeLimitFindsAll(st: State, limit: int)
    requires limit < 0
    ensures forall i :: 0 <= i < |st.cards| && Offered(st, st.cards[i]) ==> st.cards[i] in FoundCards(st, Some(limit))
  {
    assert WorkerLimit(Some(limit)) == limit;
  }

  // ---------------------------------------------------------------- post-task

  /** `!title || !description || !budget || !deadline` rejects: each must be truthy, so a budget
      of zero is refused while a negative one is not. */
  predicate PostFields(data: ActionData) {
    Truthy(data.title) && Truthy(data.description) && data.budget.Some? && data.budget.value != 0 &&
    Truthy(data.deadline)
  }

  /** The row a posted task gets: open, payment pending, no hold. */
  function PostedTask(id: string, employerId: string, data: ActionData, now: nat): Task
    requires PostFields(data)
  {
    Task(id, employerId, None, data.title.value, data.description.value, data.skills.GetOr([]), data.budget.value,
         data.deadline.value, Open, None, PaymentPending, now, None, None, None, now)
  }

  function PostDetails(data: ActionData): Details
    requires PostFields(data)
  {
    map[TitleKey := VStr(data.title.value), BudgetKey := VCents(data.budget.value), ViaKey := VStr("a2a")]
  }

  /** `${PLATFORM_FEE_PERCENT || '1'}%`: the configured text itself, unparsed. */
  function FeeText(cfg: Config): string {
    OrElse(cfg.platformFeePercent, "1") + "%"
  }

  /** `post-task`: a key is required and must belong to an agent, whatever its role; the four
      fields must be truthy; then the task is inserted open with payment pending and no hold, its
      token is issued and `task_create` is logged with `via: a2a`. A clashing task id throws; so
      does the token's generation under an empty secret, after the insert, which stays. */
  function PostTask(st: State, sha: Crypto.Sha256, cfg: Config, now: nat, id: Option<RpcId>, data: ActionData,
                    apiKey: Option<string>, idBytes: seq<byte>): (r: Outcome<Response>)
    ensures !Truthy(apiKey) ==> r == Outcome(st, Ok(Failed(401, id, Unauthorized, TokenRequired)))
    ensures Truthy(apiKey) && AuthMiddleware.AgentByKey(st, apiKey.value).None? ==>
              r == Outcome(st, Ok(Failed(401, id, Unauthorized, BadKey)))
    ensures Truthy(apiKey) && AuthMiddleware.AgentByKey(st, apiKey.value).Some? && !PostFields(data) ==>
              r == Outcome(st, Ok(Failed(400, id, InvalidParams, FieldsRequired)))
    ensures r.result.Err? ==>
              r == Outcome(st, Err(Thrown(DuplicateKey))) ||
              (cfg.taskSecret == "" && r.result == Err(Thrown(Crypto.EmptyKeyRefused)) &&
               r.state == st.(tasks := r.state.tasks) && |r.state.tasks| == |st.tasks| + 1 &&
               r.state.tasks[..|st.tasks|] == st.tasks)
    ensures r.result.Ok? && r.result.value.reply.TaskPosted? ==>
              Truthy(apiKey) && AuthMiddleware.AgentByKey(st, apiKey.value).Some? && PostFields(data) &&
              var agent := AuthMiddleware.AgentByKey(st, apiKey.value).value;
              var taskId := Ids.GenerateId("task", idBytes);
              var t := PostedTask(taskId, agent.id, data, now);
              FindTask(st, taskId).None? &&
              r.state == st.(tasks := st.tasks + [t], audit := r.state.audit) &&
              r.state.audit == st.audit + [Audit.Entry(now, taskId, TaskCreate, agent.id, EmployerActor,
                                                        Some(PostDetails(data)), None)] &&
              r.result.value == Response(200, id, TaskPosted(taskId, "submitted", now,
                                                             TaskToken.Token(sha, t, cfg.taskSecret),
                                                             data.budget.value, data.deadline.value, FeeText(cfg)))
    ensures Truthy(apiKey) && AuthMiddleware.AgentByKey(st, apiKey.value).Some? && PostFields(data) ==>
              (r.result.Ok? <==> FindTask(st, Ids.GenerateId("task", idBytes)).None? && cfg.taskSecret != "") &&
              (r.result.Ok? ==> r.result.value.reply.TaskPosted?) &&
              (FindTask(st, Ids.GenerateId("task", idBytes)).None? && cfg.taskSecret == "" ==>
                 var t := PostedTask(Ids.GenerateId("task", idBytes), AuthMiddleware.AgentByKey(st, apiKey.value).value.id,
                                     data, now);
                 r == Outcome(st.(tasks := st.tasks + [t]), Err(Thrown(Crypto.EmptyKeyRefused))))
  {
    if !Truthy(apiKey) then Outcome(st, Ok(Failed(401, id, Unauthorized, TokenRequired)))
    else match AuthMiddleware.AgentByKey(st, apiKey.value)
      case None => Outcome(st, Ok(Failed(401, id, Unauthorized, BadKey)))
      case Some(agent) =>
        if !PostFields(data) then Outcome(st, Ok(Failed(400, id, InvalidParams, FieldsRequired)))
        else
          var taskId := Ids.GenerateId("task", idBytes);
          var t := PostedTask(taskId, agent.id, data, now);
          var ins := InsertTask(st, t);
          if ins.result.Err? then Outcome(st, Err(ins.result.error))
          else
            match TaskToken.Generate(sha, t, cfg.taskSecret)
            case Err(e) => Outcome(ins.state, Err(Thrown(e)))
            case Ok(token) =>
              var logged := Audit.Log(ins.state, now, taskId, TaskCreate, agent.id, EmployerActor,
                                      Some(PostDetails(data)), None);
              Outcome(logged, Ok(Response(200, id, TaskPosted(taskId, "submitted", now, token, data.budget.value,
                                                              data.deadline.value, FeeText(cfg)))))
  }

  // ---------------------------------------------------------------- get-task-status

  /** The state map of `get-task-status`, looked up by the stored status text; a text the map
      does not name reads as `submitted`. */
  function StateOfText(status: string): string {
    if status == "open" then "submitted"
    else if status == "claimed" || status == "submitted" || status == "under_review" then "working"
    else if status == "completed" then "completed"
    else if status == "rejected" then "input-required"
    else if status == "cancelled" || status == "expired" then "failed"
    else "submitted"
  }

  /** What each task status means to an agent-to-agent client: not yet taken, being worked on,
      done, waiting for the worker again, or over without a result. */
  lemma StateMapMeaning(s: TaskStatus)
    ensures StateOfText(s.Name()) == "submitted" <==> s == Open
    ensures StateOfText(s.Name()) == "working" <==> s in {Claimed, Submitted, UnderReview}
    ensures StateOfText(s.Name()) == "completed" <==> s == Completed
    ensures StateOfText(s.Name()) == "input-required" <==> s == Rejected
    ensures StateOfText(s.Name()) == "failed" <==> s in {Cancelled, Expired}
  {
  }

  /** A text that names no task status falls back to `submitted`. */
  lemma UnknownStatusReadsSubmitted(status: string)
    requires status !in TaskStatusNames
    ensures StateOfText(status) == "submitted"
  {
  }

  /** `get-task-status`: the id must be truthy and name a task; the answer carries the mapped
      state, the stored status, budget, worker (an empty id reads as null) and payment status. */
  function TaskStatusOf(st: State, id: Option<RpcId>, data: ActionData): (r: Response)
    ensures !Truthy(data.taskId) ==> r == Failed(400, id, InvalidParams, TaskIdRequired)
    ensures Truthy(data.taskId) && FindTask(st, data.taskId.value).None? ==>
              r == Failed(404, id, TaskMissing, TaskRoutes.TaskNotFound)
    ensures Truthy(data.taskId) && FindTask(st, data.taskId.value).Some? ==>
              var t := FindTask(st, data.taskId.value).value;
              r.status == 200 && r.id == id && r.reply.TaskState? &&
              r.reply.taskId == t.id == data.taskId.value && r.reply.status == t.status &&
              r.reply.state == StateOfText(t.status.Name()) && r.reply.timestamp == t.updatedAt &&
              r.reply.budget == t.budget && r.reply.paymentStatus == t.paymentStatus &&
              (r.reply.workerId.Some? <==> Truthy(t.workerId)) && (r.reply.workerId.Some? ==> r.reply.workerId == t.workerId)
  {
    if !Truthy(data.taskId) then Failed(400, id, InvalidParams, TaskIdRequired)
    else match FindTask(st, data.taskId.value)
      case None => Failed(404, id, TaskMissing, TaskRoutes.TaskNotFound)
      case Some(t) =>
        Response(200, id, TaskState(t.id, StateOfText(t.status.Name()), t.updatedAt, t.status, t.budget,
                                    if Truthy(t.workerId) then t.workerId else None, t.paymentStatus))
  }

  // ---------------------------------------------------------------- message/send

  predicate IsDataPart(p: Part) {
    p.kind == "data" && p.data.Some?
  }

  predicate IsTextPart(p: Part) {
    p.kind == "text" && Truthy(p.text)
  }

  /** The action of the first data part, when it is one the gateway handles. */
  function Action(parts: seq<Part>): (r: Option<ActionData>)
    ensures r.Some? <==> Table.First(parts, IsDataPart).Some? &&
                         Table.First(parts, IsDataPart).value.data.value.action in
                           {Some(FindWorkersAction), Some(PostTaskAction), Some(TaskStatusAction)}
    ensures r.Some? ==> r == Table.First(parts, IsDataPart).value.data
  {
    match Table.First(parts, IsDataPart)
    case None => None
    case Some(p) =>
      if p.data.value.action in {Some(FindWorkersAction), Some(PostTaskAction), Some(TaskStatusAction)} then p.data
      else None
  }

  /** `message/send`: at least one part is required; the first data part's action picks the
      handler, and any other request is answered with a hint when some part has text, and refused
      otherwise. */
  function Send(st: State, sha: Crypto.Sha256, cfg: Config, now: nat, id: Option<RpcId>, parts: Option<seq<Part>>,
                apiKey: Option<string>, idBytes: seq<byte>): (r: Outcome<Response>)
    ensures parts.None? || |parts.value| == 0 ==> r == Outcome(st, Ok(Failed(400, id, InvalidParams, NoParts)))
    ensures parts.Some? && |parts.value| > 0 && Action(parts.value).None? ==>
              r.state == st &&
              (Table.Any(parts.value, IsTextPart) ==> r.result == Ok(Response(200, id, Hint))) &&
              (!Table.Any(parts.value, IsTextPart) ==> r.result == Ok(Failed(400, id, InvalidParams, Unrecognized)))
    ensures parts.Some? && Action(parts.value).Some? ==>
              var data := Action(parts.value).value;
              (data.action == Some(FindWorkersAction) ==> r == Outcome(st, Ok(FindWorkers(st, id, data)))) &&
              (data.action == Some(PostTaskAction) ==> r == PostTask(st, sha, cfg, now, id, data, apiKey, idBytes)) &&
              (data.action == Some(TaskStatusAction) ==> r == Outcome(st, Ok(TaskStatusOf(st, id, data))))
  {
    if parts.None? || |parts.value| == 0 then Outcome(st, Ok(Failed(400, id, InvalidParams, NoParts)))
    else match Action(parts.value)
      case Some(data) =>
        if data.action == Some(FindWorkersAction) then Outcome(st, Ok(FindWorkers(st, id, data)))
        else if data.action == Some(PostTaskAction) then PostTask(st, sha, cfg, now, id, data, apiKey, idBytes)
        else Outcome(st, Ok(TaskStatusOf(st, id, data)))
      case None =>
        if Table.First(parts.value, IsTextPart).Some? then Outcome(st, Ok(Response(200, id, Hint)))
        else Outcome(st, Ok(Failed(400, id, InvalidParams, Unrecognized)))
  }

  // ---------------------------------------------------------------- the endpoint

  /** `authHeader?.startsWith('Bearer ') ? authHeader.slice(7) : null`. */
  function BearerKey(authorization: Option<string>): (r: Option<string>)
    ensures r.Some? <==> authorization.Some? && StartsWith(authorization.value, AuthMiddleware.BearerPrefix)
    ensures r.Some? ==> AuthMiddleware.BearerPrefix + r.value == authorization.value
  {
    if authorization.Some? && StartsWith(authorization.value, AuthMiddleware.BearerPrefix) then
      assert authorization.value == authorization.value[..7] + authorization.value[7..];
      Some(authorization.value[7..])
    else None
  }

  predicate WellFormed(b: Request) {
    b.jsonrpc == Some(Version) && Truthy(b.methodName)
  }

  /** `POST /a2a`. A body that is not JSON (None) is a parse error; a body that is not a JSON-RPC
      2.0 call is an invalid request; only `message/send` is known; whatever the handler throws
      is answered as an internal error with the thrown message. */
  function Handle(st: State, sha: Crypto.Sha256, cfg: Config, now: nat, body: Option<Request>,
                  authorization: Option<string>, idBytes: seq<byte>): (r: Exchange)
    ensures body.None? ==> r == Exchange(st, Failed(400, Some(NullId), ParseError, "Parse error"))
    ensures body.Some? && !WellFormed(body.value) ==>
              r == Exchange(st, Failed(400, Some(body.value.id.GetOr(NullId)), InvalidRequest, "Invalid JSON-RPC request"))
    ensures body.Some? && WellFormed(body.value) && body.value.methodName.value != MessageSend ==>
              r == Exchange(st, Failed(404, body.value.id, MethodNotFound, "Method " + body.value.methodName.value + " not found"))
    ensures body.Some? && WellFormed(body.value) && body.value.methodName.value == MessageSend ==>
              var b := body.value;
              var o := Send(st, sha, cfg, now, b.id, b.parts, BearerKey(authorization), idBytes);
              r.state == o.state &&
              (o.result.Ok? ==> r.response == o.result.value) &&
              (o.result.Err? ==> r.response == Failed(500, b.id, InternalError, o.result.error.message))
  {
    match body
    case None => Exchange(st, Failed(400, Some(NullId), ParseError, "Parse error"))
    case Some(b) =>
      if !WellFormed(b) then
        Exchange(st, Failed(400, Some(b.id.GetOr(NullId)), InvalidRequest, "Invalid JSON-RPC request"))
      else if b.methodName.value != MessageSend then
        Exchange(st, Failed(404, b.id, MethodNotFound, "Method " + b.methodName.value + " not found"))
      else
        var o := Send(st, sha, cfg, now, b.id, b.parts, BearerKey(authorization), idBytes);
        match o.result
        case Ok(resp) => Exchange(o.state, resp)
        case Err(e) => Exchange(o.state, Failed(500, b.id, InternalError, e.message))
  }

  // ---------------------------------------------------------------- properties

  /** A task posted through the gateway reads back through it: `get-task-status` on the new id
      reports it as submitted, open, with payment pending and no worker, and the token it was
      given verifies against the stored row. */
  lemma PostedTaskReadsBack(st: State, sha: Crypto.Sha256, cfg: Config, now: nat, id: Option<RpcId>,
                            data: ActionData, apiKey: Option<string>, idBytes: seq<byte>, later: ActionData)
    requires PostTask(st, sha, cfg, now, id, data, apiKey, idBytes).result.Ok?
    requires PostTask(st, sha, cfg, now, id, data, apiKey, idBytes).result.value.reply.TaskPosted?
    requires later.taskId == Some(PostTask(st, sha, cfg, now, id, data, apiKey, idBytes).result.value.reply.taskId)
    ensures var o := PostTask(st, sha, cfg, now, id, data, apiKey, idBytes);
            var r := TaskStatusOf(o.state, id, later).reply;
            r.TaskState? && r.state == o.result.value.reply.state == "submitted" && r.status == Open &&
            r.paymentStatus == PaymentPending && r.workerId.None? && r.budget == o.result.value.reply.budget &&
            TaskToken.Verify(sha, FindTask(o.state, r.taskId).value, o.result.value.reply.taskToken, cfg.taskSecret) == Ok(true)
  {
    var o := PostTask(st, sha, cfg, now, id, data, apiKey, idBytes);
    var agent := AuthMiddleware.AgentByKey(st, apiKey.value).value;
    var taskId := Ids.GenerateId("task", idBytes);
    var t := PostedTask(taskId, agent.id, data, now);
    assert o.state.tasks == st.tasks + [t];
    assert Ids.GenerateId("task", idBytes) != "";
    Table.FirstAt(o.state.tasks, (x: Task) => x.id == taskId, |st.tasks|);
    assert FindTask(o.state, taskId) == Some(t);
    TaskToken.GeneratedVerifies(sha, t, cfg.taskSecret);
  }

  /** The gateway posts tasks without the employer gate: an agent registered as a worker only,
      which `POST /tasks` refuses with 403, posts through `post-task` whenever the task secret
      is set. */
  lemma WorkerPostsThroughGateway(st: State, sha: Crypto.Sha256, cfg: Config, now: nat, id: Option<RpcId>,
                                  data: ActionData, apiKey: Option<string>, idBytes: seq<byte>)
    requires Truthy(apiKey) && AuthMiddleware.AgentByKey(st, apiKey.value).Some?
    requires AuthMiddleware.AgentByKey(st, apiKey.value).value.role == WorkerRole
    requires PostFields(data) && FindTask(st, Ids.GenerateId("task", idBytes)).None?
    ensures cfg.taskSecret != "" ==>
              PostTask(st, sha, cfg, now, id, data, apiKey, idBytes).result.Ok? &&
              PostTask(st, sha, cfg, now, id, data, apiKey, idBytes).result.value.reply.TaskPosted?
    ensures AuthMiddleware.RequireRole(AuthMiddleware.AgentByKey(st, apiKey.value).value, AuthMiddleware.EmployerRoles).Err?
  {
    AuthMiddleware.EmployerGate(AuthMiddleware.AgentByKey(st, apiKey.value).value);
  }

  /** Budgets are only tested for truthiness: zero is refused, a negative budget is stored. */
  lemma BudgetOnlyTruthy(data: ActionData)
    requires Truthy(data.title) && Truthy(data.description) && Truthy(data.deadline) && data.budget.Some?
    ensures PostFields(data) <==> data.budget.value != 0
  {
  }
}
