/** The persistent state every handler reads and writes — the row store's tables, the object
    store, and the payment processor's call log — together with the deployment configuration,
    the request context and the failure kinds a handler can end with. */
module Store {
  import opened Wrappers
  import opened Types
  import opened Decimal
  import Crypto
  import Table

  /** A request sent to the payment processor. Amounts are decimal text in cents. */
  datatype ProcessorCall =
    | CreateCustomer(agentId: string)
    | CreateIntent(amount: string, customer: string, taskId: string, employerId: string)
    | CaptureIntent(intentId: string)
    | CancelIntent(intentId: string)
    | CreateRefund(intentId: string)
    | CreateTransfer(amount: string, destination: string, taskId: string, workerId: string)

  /** The processor's answer to a call, given the calls made before it: the id of the created or
      updated object, or the error message its reply carried ("" when it carried none). */
  type Processor = (seq<ProcessorCall>, ProcessorCall) -> Result<string, string>

  /** What the model takes from outside: the hash function, the processor, and the date parser
      (`new Date(text)` in milliseconds; None for an invalid date). */
  datatype Ext = Ext(sha: Crypto.Sha256, processor: Processor, dateOf: string -> Option<int>)

  datatype State = State(
    agents: seq<Agent>,
    tasks: seq<Task>,
    submissions: seq<Submission>,
    reviews: seq<Review>,
    audit: seq<AuditEntry>,
    profiles: seq<Profile>,
    cards: seq<Card>,
    subscribers: seq<Subscriber>,
    blobs: map<string, Blob>,
    calls: seq<ProcessorCall>)

  /** The deployment's variables, as raw text; None when unset. The two secrets are only ever
      encoded as key bytes, where an unset secret encodes like the empty text. */
  datatype Config = Config(
    environment: string,
    platformFeePercent: Option<string>,
    maxRejectionCount: Option<string>,
    maxFileSizeMb: Option<string>,
    tokenExpiryHours: Option<string>,
    taskSecret: string,
    webhookSecret: string)
  {
    /** `parseInt(PLATFORM_FEE_PERCENT || '1')`; None is NaN. */
    function FeePercent(): Option<int> {
      ParseIntOr(platformFeePercent, DefaultFeePercent)
    }

    /** `parseInt(MAX_REJECTION_COUNT || '3')`. */
    function MaxRejections(): Option<int> {
      ParseIntOr(maxRejectionCount, DefaultMaxRejections)
    }

    /** `parseInt(MAX_FILE_SIZE_MB || '50')`. */
    function MaxFileSizeMb(): Option<int> {
      ParseIntOr(maxFileSizeMb, DefaultMaxFileSizeMb)
    }

    /** `parseInt(TOKEN_EXPIRY_HOURS)` with no default: unset is NaN. */
    function TokenExpiryHours(): Option<int> {
      if tokenExpiryHours.Some? then ParseIntAuto(tokenExpiryHours.value) else None
    }

    predicate IsDevelopment() {
      environment == "development"
    }
  }

  /** JavaScript `s || d` on an optional string. */
  function OrElse(s: Option<string>, d: string): (r: string)
    ensures Truthy(s) ==> r == s.value
    ensures !Truthy(s) ==> r == d
  {
    if Truthy(s) then s.value else d
  }

  const DefaultFeePercent: nat := 1
  const DefaultMaxRejections: nat := 3
  const DefaultMaxFileSizeMb: nat := 50

  /** `parseInt(s || '<d>')` read in two steps: an unset or empty `s` gives `d` itself. */
  function ParseIntOr(s: Option<string>, d: nat): Option<int> {
    if Truthy(s) then ParseIntAuto(s.value) else Some(d)
  }

  /** Reading the default directly agrees with parsing its decimal text. */
  lemma ParseIntOrAgrees(s: Option<string>, d: nat)
    ensures ParseIntOr(s, d) == ParseIntAuto(OrElse(s, NatToDecimal(d)))
  {
    if !Truthy(s) {
      ParseAutoNatDecimal(d);
    }
  }

  /** A rendered natural number reads back as itself, whatever the default. */
  lemma ParseIntOrDecimal(n: nat, d: nat)
    ensures ParseIntOr(Some(NatToDecimal(n)), d) == Some(n)
  {
    ParseAutoNatDecimal(n);
  }

  /** A query or variable given as `0x2` reads as 2. */
  lemma HexQueryValue()
    ensures ParseIntOr(Some("0x2"), 1) == Some(2)
  {
    HexPrefixReadings();
  }

  /** The configuration reads its variables as `parseInt(v || default)` with no radix, the token
      expiry as `parseInt(v)` with `undefined` read as NaN. */
  lemma ConfigParses(c: Config)
    ensures c.FeePercent() == ParseIntAuto(OrElse(c.platformFeePercent, "1"))
    ensures c.MaxRejections() == ParseIntAuto(OrElse(c.maxRejectionCount, "3"))
    ensures c.MaxFileSizeMb() == ParseIntAuto(OrElse(c.maxFileSizeMb, "50"))
    ensures c.TokenExpiryHours() == ParseIntAuto(c.tokenExpiryHours.GetOr(""))
  {
    DecimalTexts();
    ParseIntOrAgrees(c.platformFeePercent, DefaultFeePercent);
    ParseIntOrAgrees(c.maxRejectionCount, DefaultMaxRejections);
    ParseIntOrAgrees(c.maxFileSizeMb, DefaultMaxFileSizeMb);
  }

  lemma DecimalTexts()
    ensures NatToDecimal(1) == "1" && NatToDecimal(3) == "3" && NatToDecimal(50) == "50"
  {
    assert NatToDecimal(5) == "5";
  }

  /** What the handler sees of the request besides its body: the instant it runs at (every clock
      read of one request is taken as the same instant) and the `cf-connecting-ip` header. */
  datatype Ctx = Ctx(now: nat, ip: Option<string>)

  /** How a handler fails: an `HTTPException`, or any other thrown error (schema violations,
      service errors, constraint violations). */
  datatype Failure = HttpError(status: nat, message: string) | Thrown(message: string)

  /** The message of a schema (zod) violation; its exact text is not modelled. */
  const SchemaViolation: string := "Invalid input"

  /** The message of a unique-key violation in the row store. */
  const DuplicateKey: string := "UNIQUE constraint failed"

  /** The message of the row store's refusal of a NaN binding; its exact text is not modelled. */
  const UnboundNumber: string := "Invalid LIMIT or OFFSET binding"

  /** A handler's end state and result. The state is kept on failure as well, since several
      paths throw after writing. */
  datatype Outcome<+T> = Outcome(state: State, result: Result<T, Failure>)

  function Fail<T>(st: State, status: nat, message: string): (o: Outcome<T>)
    ensures o.state == st && o.result == Err(HttpError(status, message))
  {
    Outcome(st, Err(HttpError(status, message)))
  }

  function FindAgent(st: State, id: string): (r: Option<Agent>)
    ensures r.Some? ==> r.value in st.agents && r.value.id == id
    ensures r.None? <==> forall i :: 0 <= i < |st.agents| ==> st.agents[i].id != id
  {
    Table.First(st.agents, (a: Agent) => a.id == id)
  }

  function FindTask(st: State, id: string): (r: Option<Task>)
    ensures r.Some? ==> r.value in st.tasks && r.value.id == id
    ensures r.None? <==> forall i :: 0 <= i < |st.tasks| ==> st.tasks[i].id != id
  {
    Table.First(st.tasks, (t: Task) => t.id == id)
  }

  function FindSubmission(st: State, id: string): (r: Option<Submission>)
    ensures r.Some? ==> r.value in st.submissions && r.value.id == id
    ensures r.None? <==> forall i :: 0 <= i < |st.submissions| ==> st.submissions[i].id != id
  {
    Table.First(st.submissions, (s: Submission) => s.id == id)
  }

  /** `UPDATE tasks SET … WHERE id = ?`. */
  function UpdateTask(st: State, id: string, f: Task -> Task): (r: State)
    ensures r == st.(tasks := r.tasks) && |r.tasks| == |st.tasks|
    ensures forall i :: 0 <= i < |st.tasks| ==>
              r.tasks[i] == if st.tasks[i].id == id then f(st.tasks[i]) else st.tasks[i]
  {
    st.(tasks := Table.UpdateWhere(st.tasks, (t: Task) => t.id == id, f))
  }

  /** Looking a task up after updating it by id finds the updated row, when the update keeps the id. */
  lemma FindUpdatedTask(st: State, id: string, f: Task -> Task)
    requires FindTask(st, id).Some?
    requires forall t :: f(t).id == t.id
    ensures FindTask(UpdateTask(st, id, f), id) == Some(f(FindTask(st, id).value))
  {
    var p := (t: Task) => t.id == id;
    assert FindTask(st, id) == Table.First(st.tasks, p);
    Table.FirstAfterUpdate(st.tasks, p, f);
  }

  function UpdateSubmission(st: State, id: string, f: Submission -> Submission): (r: State)
    ensures r == st.(submissions := r.submissions) && |r.submissions| == |st.submissions|
    ensures forall i :: 0 <= i < |st.submissions| ==>
              r.submissions[i] == if st.submissions[i].id == id then f(st.submissions[i]) else st.submissions[i]
  {
    st.(submissions := Table.UpdateWhere(st.submissions, (s: Submission) => s.id == id, f))
  }

  function UpdateAgent(st: State, id: string, f: Agent -> Agent): (r: State)
    ensures r == st.(agents := r.agents) && |r.agents| == |st.agents|
    ensures forall i :: 0 <= i < |st.agents| ==>
              r.agents[i] == if st.agents[i].id == id then f(st.agents[i]) else st.agents[i]
  {
    st.(agents := Table.UpdateWhere(st.agents, (a: Agent) => a.id == id, f))
  }

  /** `INSERT INTO tasks`: appended, or a constraint error when the id is taken. */
  function InsertTask(st: State, t: Task): (r: Outcome<()>)
    ensures r.result.Ok? <==> FindTask(st, t.id).None?
    ensures r.result.Ok? ==> r.state == st.(tasks := st.tasks + [t])
    ensures r.result.Err? ==> r.state == st && r.result.error == Thrown(DuplicateKey)
  {
    if FindTask(st, t.id).Some? then Outcome(st, Err(Thrown(DuplicateKey)))
    else Outcome(st.(tasks := st.tasks + [t]), Ok(()))
  }

  function InsertSubmission(st: State, s: Submission): (r: Outcome<()>)
    ensures r.result.Ok? <==> FindSubmission(st, s.id).None?
    ensures r.result.Ok? ==> r.state == st.(submissions := st.submissions + [s])
    ensures r.result.Err? ==> r.state == st && r.result.error == Thrown(DuplicateKey)
  {
    if FindSubmission(st, s.id).Some? then Outcome(st, Err(Thrown(DuplicateKey)))
    else Outcome(st.(submissions := st.submissions + [s]), Ok(()))
  }

  function InsertReview(st: State, rv: Review): (r: Outcome<()>)
    ensures r.result.Ok? <==> forall i :: 0 <= i < |st.reviews| ==> st.reviews[i].id != rv.id
    ensures r.result.Ok? ==> r.state == st.(reviews := st.reviews + [rv])
    ensures r.result.Err? ==> r.state == st && r.result.error == Thrown(DuplicateKey)
  {
    if Table.Any(st.reviews, (x: Review) => x.id == rv.id) then Outcome(st, Err(Thrown(DuplicateKey)))
    else Outcome(st.(reviews := st.reviews + [rv]), Ok(()))
  }

  /** `DELETE FROM tasks WHERE id = ?`. */
  function DeleteTask(st: State, id: string): (r: State)
    ensures r == st.(tasks := r.tasks)
    ensures forall i :: 0 <= i < |r.tasks| ==> r.tasks[i] in st.tasks && r.tasks[i].id != id
    ensures forall i :: 0 <= i < |st.tasks| && st.tasks[i].id != id ==> st.tasks[i] in r.tasks
  {
    st.(tasks := Table.DeleteWhere(st.tasks, (t: Task) => t.id == id))
  }

  /** Deleting a row just inserted under a fresh id restores the table. */
  lemma InsertThenDelete(st: State, t: Task)
    requires FindTask(st, t.id).None?
    ensures DeleteTask(InsertTask(st, t).state, t.id) == st
  {
    Table.DeleteAppended(st.tasks, t, (x: Task) => x.id == t.id);
  }
}
