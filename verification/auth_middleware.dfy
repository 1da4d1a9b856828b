/** Bearer-key authentication and role gating in front of the protected routes. */
module AuthMiddleware {
  import opened Wrappers
  import opened Text
  import opened Types
  import opened Store
  import Table

  const BearerPrefix: string := "Bearer "

  /** The agent whose API key is `key`: the first such row. */
  function AgentByKey(st: State, key: string): (r: Option<Agent>)
    ensures r.Some? ==> r.value in st.agents && r.value.apiKey == key
    ensures r.None? <==> forall i :: 0 <= i < |st.agents| ==> st.agents[i].apiKey != key
  {
    Table.First(st.agents, (a: Agent) => a.apiKey == key)
  }

  /** `authMiddleware`: the Authorization header must be `Bearer <key>` and the key must belong to
      an agent; the agent is installed with its capabilities defaulting to the empty list. */
  function Authenticate(st: State, authorization: Option<string>): (r: Result<Agent, Failure>)
    ensures r.Ok? <==> authorization.Some? && StartsWith(authorization.value, BearerPrefix) &&
                       AgentByKey(st, authorization.value[7..]).Some?
    ensures r.Ok? ==> var a := AgentByKey(st, authorization.value[7..]).value;
                      r.value == a.(capabilities := Some(a.capabilities.GetOr([])))
    ensures r.Err? && (authorization.None? || !StartsWith(authorization.value, BearerPrefix)) ==>
              r.error == HttpError(401, "Missing or invalid Authorization header")
    ensures r.Err? && authorization.Some? && StartsWith(authorization.value, BearerPrefix) ==>
              r.error == HttpError(401, "Invalid API key")
  {
    if !Truthy(authorization) || !StartsWith(authorization.value, BearerPrefix) then
      Err(HttpError(401, "Missing or invalid Authorization header"))
    else
      match AgentByKey(st, authorization.value[7..])
      case None => Err(HttpError(401, "Invalid API key"))
      case Some(a) => Ok(a.(capabilities := Some(a.capabilities.GetOr([]))))
  }

  /** Presenting an agent's own key authenticates as that agent, when no earlier agent has the
      same key. */
  lemma BearerAuthenticates(st: State, i: nat)
    requires i < |st.agents|
    requires forall j :: 0 <= j < i ==> st.agents[j].apiKey != st.agents[i].apiKey
    ensures var r := Authenticate(st, Some(BearerPrefix + st.agents[i].apiKey));
            r.Ok? && r.value.id == st.agents[i].id && r.value.role == st.agents[i].role
  {
    var h := BearerPrefix + st.agents[i].apiKey;
    assert h[7..] == st.agents[i].apiKey;
    assert StartsWith(h, BearerPrefix);
    var p := (a: Agent) => a.apiKey == st.agents[i].apiKey;
    var k := Table.FindIndex(st.agents, p);
    assert p(st.agents[i]);
    assert k.Some? && k.value == i;
  }

  /** `roles.join(', ')`. */
  function JoinComma(names: seq<string>): string {
    if |names| == 0 then "" else if |names| == 1 then names[0] else names[0] + ", " + JoinComma(names[1..])
  }

  function RoleNameList(roles: seq<Role>): (r: seq<string>)
    ensures |r| == |roles| && forall i :: 0 <= i < |roles| ==> r[i] == roles[i].Name()
  {
    seq(|roles|, i requires 0 <= i < |roles| => roles[i].Name())
  }

  /** `requireRole(...roles)`: an agent with role `both` always passes; any other passes iff its
      role is listed. */
  function RequireRole(agent: Agent, roles: seq<Role>): (r: Result<(), Failure>)
    ensures r.Ok? <==> agent.role == BothRoles || agent.role in roles
    ensures r.Err? ==> r.error == HttpError(403, "This endpoint requires one of these roles: " + JoinComma(RoleNameList(roles)))
  {
    if agent.role == BothRoles || agent.role in roles then Ok(())
    else Err(HttpError(403, "This endpoint requires one of these roles: " + JoinComma(RoleNameList(roles))))
  }

  /** The role lists of the routes that post tasks or review work, and of those that take or
      deliver work. */
  const EmployerRoles: seq<Role> := [EmployerRole, BothRoles]
  const WorkerRoles: seq<Role> := [WorkerRole, BothRoles]

  /** The routes that post tasks or review work admit employers and dual-role agents only. */
  lemma EmployerGate(agent: Agent)
    ensures RequireRole(agent, EmployerRoles).Ok? <==> agent.role != WorkerRole
    ensures RequireRole(agent, EmployerRoles).Err? ==>
              RequireRole(agent, EmployerRoles).error ==
              HttpError(403, "This endpoint requires one of these roles: employer, both")
  {
    assert RoleNameList(EmployerRoles) == ["employer", "both"];
    assert JoinComma(["employer", "both"]) == "employer" + ", " + JoinComma(["both"]);
  }

  /** The routes that take or deliver work admit workers and dual-role agents only. */
  lemma WorkerGate(agent: Agent)
    ensures RequireRole(agent, WorkerRoles).Ok? <==> agent.role != EmployerRole
  {
  }

  /** `authMiddleware` followed by `requireRole(...roles)`. */
  function Authorize(st: State, authorization: Option<string>, roles: seq<Role>): (r: Result<Agent, Failure>)
    ensures r.Ok? <==> Authenticate(st, authorization).Ok? &&
                       RequireRole(Authenticate(st, authorization).value, roles).Ok?
    ensures r.Ok? ==> r.value == Authenticate(st, authorization).value
  {
    var agent :- Authenticate(st, authorization);
    var _ :- RequireRole(agent, roles);
    Ok(agent)
  }
}
