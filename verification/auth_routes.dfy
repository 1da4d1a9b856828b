/** Agent registration and the caller's own record: `POST /auth/register` and `GET /auth/me`. */
module AuthRoutes {
  import opened Wrappers
  import opened Bytes
  import opened Text
  import opened Types
  import opened Store
  import Table
  import Ids
  import AuthMiddleware

  const EmailTaken: string := "Email already registered"
  const KeyPrefix: string := "clawhire_"
  const AgentPrefix: string := "agent"
  /** The length of the random part of an API key. */
  const KeyLength: nat := 32
  const MaxNameLength: nat := 100

  /** The body of a registration; `isEmail` stands for the schema library's address test. */
  datatype RegisterInput = RegisterInput(name: string, ownerEmail: string, capabilities: Option<seq<string>>,
                                         role: Option<Role>)

  predicate ValidRegisterInput(input: RegisterInput, isEmail: string -> bool) {
    1 <= |input.name| <= MaxNameLength && isEmail(input.ownerEmail)
  }

  /** The `data` of a registration (sent with status 201); the key is shown only here. */
  datatype Registered = Registered(agentId: string, name: string, ownerEmail: string, apiKey: string, role: Role)

  /** `clawhire_` followed by an id with prefix `agent` and a 32-character random part. */
  function ApiKey(keyBytes: seq<byte>): (r: string)
    ensures StartsWith(r, KeyPrefix + AgentPrefix + "_")
    ensures |r| == |KeyPrefix| + |AgentPrefix| + 1 + |keyBytes|
  {
    var id := Ids.GenerateId(AgentPrefix, keyBytes);
    assert (KeyPrefix + id)[..|KeyPrefix| + |AgentPrefix| + 1] == KeyPrefix + id[..|AgentPrefix| + 1];
    KeyPrefix + id
  }

  /** The new agent's row: capabilities default to the empty list and the role to `both`. */
  function NewAgent(id: string, key: string, input: RegisterInput, now: nat): Agent {
    Agent(id, input.name, input.ownerEmail, key, Some(input.capabilities.GetOr([])), None, None,
          input.role.GetOr(BothRoles), now, now)
  }

  /** The default public profile made at registration: listed, shown under the agent's name.
      The columns the insert leaves to the schema take the profile route's defaults. */
  function DefaultProfile(agentId: string, name: string, now: nat): Profile {
    Profile(agentId, agentId, name, None, None, None, [], [], [], true, true, None, None, None, None, 0, None,
            false, true, now, now)
  }

  predicate HasProfile(st: State, agentId: string) {
    exists i :: 0 <= i < |st.profiles| && (st.profiles[i].id == agentId || st.profiles[i].agentId == agentId)
  }

  /** `INSERT OR IGNORE INTO agent_profiles`: skipped when a profile with that id or agent exists. */
  function EnsureProfile(st: State, agentId: string, name: string, now: nat): (r: State)
    ensures HasProfile(st, agentId) ==> r == st
    ensures !HasProfile(st, agentId) ==> r == st.(profiles := st.profiles + [DefaultProfile(agentId, name, now)])
  {
    if HasProfile(st, agentId) then st else st.(profiles := st.profiles + [DefaultProfile(agentId, name, now)])
  }

  predicate EmailRegistered(st: State, email: string) {
    exists i :: 0 <= i < |st.agents| && st.agents[i].ownerEmail == email
  }

  /** `POST /auth/register`. The schema is checked first, then the address must be new; the agent
      is inserted under a fresh `agent_` id with a new key, and a default profile is added when
      the agent has none. */
  function Register(st: State, isEmail: string -> bool, now: nat, input: RegisterInput,
                    idBytes: seq<byte>, keyBytes: seq<byte>): (r: Outcome<Registered>)
    ensures !ValidRegisterInput(input, isEmail) ==> r == Outcome(st, Err(Thrown(SchemaViolation)))
    ensures ValidRegisterInput(input, isEmail) && EmailRegistered(st, input.ownerEmail) ==>
              r == Outcome(st, Err(HttpError(400, EmailTaken)))
    ensures ValidRegisterInput(input, isEmail) && !EmailRegistered(st, input.ownerEmail) ==>
              var id := Ids.GenerateId(AgentPrefix, idBytes);
              (r.result.Ok? <==> FindAgent(st, id).None?) &&
              (r.result.Err? ==> r == Outcome(st, Err(Thrown(DuplicateKey))))
    ensures r.result.Ok? ==>
              var id := Ids.GenerateId(AgentPrefix, idBytes);
              var key := ApiKey(keyBytes);
              r.result.value == Registered(id, input.name, input.ownerEmail, key, input.role.GetOr(BothRoles)) &&
              r.state == EnsureProfile(st.(agents := st.agents + [NewAgent(id, key, input, now)]), id, input.name, now)
  {
    if !ValidRegisterInput(input, isEmail) then Outcome(st, Err(Thrown(SchemaViolation)))
    else if Table.Any(st.agents, (a: Agent) => a.ownerEmail == input.ownerEmail) then
      Outcome(st, Err(HttpError(400, EmailTaken)))
    else
      var id := Ids.GenerateId(AgentPrefix, idBytes);
      var key := ApiKey(keyBytes);
      if FindAgent(st, id).Some? then Outcome(st, Err(Thrown(DuplicateKey)))
      else
        var withAgent := st.(agents := st.agents + [NewAgent(id, key, input, now)]);
        Outcome(EnsureProfile(withAgent, id, input.name, now),
                Ok(Registered(id, input.name, input.ownerEmail, key, input.role.GetOr(BothRoles))))
  }

  /** The key a registration hands out has the `clawhire_agent_` shape and its id part validates
      as an `agent` id. */
  lemma IssuedKeyShape(keyBytes: seq<byte>)
    requires |keyBytes| == KeyLength
    ensures |ApiKey(keyBytes)| == 47
    ensures Ids.ValidateId(ApiKey(keyBytes)[|KeyPrefix|..], AgentPrefix)
  {
    assert ApiKey(keyBytes)[|KeyPrefix|..] == Ids.GenerateId(AgentPrefix, keyBytes);
    Ids.GeneratedIdValidates(AgentPrefix, keyBytes);
  }

  /** A second registration with the same address is refused and changes nothing. */
  lemma RegisterTwiceRefused(st: State, isEmail: string -> bool, now: nat, input: RegisterInput,
                             idBytes: seq<byte>, keyBytes: seq<byte>, later: nat, again: RegisterInput,
                             idBytes2: seq<byte>, keyBytes2: seq<byte>)
    requires Register(st, isEmail, now, input, idBytes, keyBytes).result.Ok?
    requires ValidRegisterInput(again, isEmail) && again.ownerEmail == input.ownerEmail
    ensures var s := Register(st, isEmail, now, input, idBytes, keyBytes).state;
            Register(s, isEmail, later, again, idBytes2, keyBytes2) == Outcome(s, Err(HttpError(400, EmailTaken)))
  {
    var s := Register(st, isEmail, now, input, idBytes, keyBytes).state;
    assert s.agents[|st.agents|].ownerEmail == input.ownerEmail;
  }

  /** The new key authenticates as the new agent, when no earlier agent holds the same key. */
  lemma RegisteredKeyAuthenticates(st: State, isEmail: string -> bool, now: nat, input: RegisterInput,
                                   idBytes: seq<byte>, keyBytes: seq<byte>)
    requires Register(st, isEmail, now, input, idBytes, keyBytes).result.Ok?
    requires forall i :: 0 <= i < |st.agents| ==> st.agents[i].apiKey != ApiKey(keyBytes)
    ensures var r := Register(st, isEmail, now, input, idBytes, keyBytes);
            var a := AuthMiddleware.Authenticate(r.state, Some(AuthMiddleware.BearerPrefix + r.result.value.apiKey));
            a.Ok? && a.value.id == r.result.value.agentId && a.value.role == r.result.value.role
  {
    var r := Register(st, isEmail, now, input, idBytes, keyBytes);
    var n := |st.agents|;
    assert r.state.agents[n] == NewAgent(Ids.GenerateId(AgentPrefix, idBytes), ApiKey(keyBytes), input, now);
    assert forall j :: 0 <= j < n ==> r.state.agents[j] == st.agents[j];
    AuthMiddleware.BearerAuthenticates(r.state, n);
  }

  /** A registration leaves the agent with exactly one new profile when it had none, and the
      existing profiles untouched in any case. */
  lemma RegisterProfile(st: State, isEmail: string -> bool, now: nat, input: RegisterInput,
                        idBytes: seq<byte>, keyBytes: seq<byte>)
    requires Register(st, isEmail, now, input, idBytes, keyBytes).result.Ok?
    ensures var r := Register(st, isEmail, now, input, idBytes, keyBytes);
            var id := r.result.value.agentId;
            r.state.profiles[..|st.profiles|] == st.profiles &&
            HasProfile(r.state, id) &&
            (HasProfile(st, id) <==> r.state.profiles == st.profiles)
  {
    var r := Register(st, isEmail, now, input, idBytes, keyBytes);
    var id := r.result.value.agentId;
    if !HasProfile(st, id) {
      assert r.state.profiles[|st.profiles|].id == id;
      assert |r.state.profiles| != |st.profiles|;
    }
  }

  // ---------------------------------------------------------------- me

  /** An agent record without its API key. */
  datatype AgentView = AgentView(
    id: string,
    name: string,
    ownerEmail: string,
    capabilities: Option<seq<string>>,
    stripeCustomerId: Option<string>,
    stripeAccountId: Option<string>,
    role: Role,
    createdAt: nat,
    updatedAt: nat)

  /** `GET /auth/me`: the authenticated agent with its key left out. */
  function Me(agent: Agent): (r: AgentView)
    ensures r.id == agent.id && r.name == agent.name && r.ownerEmail == agent.ownerEmail
    ensures r.capabilities == agent.capabilities && r.role == agent.role
    ensures r.stripeCustomerId == agent.stripeCustomerId && r.stripeAccountId == agent.stripeAccountId
    ensures r.createdAt == agent.createdAt && r.updatedAt == agent.updatedAt
  {
    AgentView(agent.id, agent.name, agent.ownerEmail, agent.capabilities, agent.stripeCustomerId,
              agent.stripeAccountId, agent.role, agent.createdAt, agent.updatedAt)
  }

  /** The view reveals nothing about the key: agents that differ only in their key look the same,
      and the view determines every other field. */
  lemma MeHidesKey(a: Agent, b: Agent)
    ensures a.(apiKey := b.apiKey) == b <==> Me(a) == Me(b)
  {
  }
}
