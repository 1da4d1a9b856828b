/** The agent-to-agent registry: a worker publishes a card saying where to reach it, keeps it
    fresh with heartbeats, and anyone can list the recently seen available cards. */
module Discovery {
  import opened Wrappers
  import opened Types
  import opened Store
  import opened Text
  import Table
  import Clock
  import AuthMiddleware

  const MaxDescriptionLength: nat := 500
  const DefaultModes: seq<string> := ["text"]
  const DefaultDiscoverLimit: nat := 20
  const MaxDiscoverLimit: int := 50
  /** How long after its last heartbeat a card still counts as online. */
  const RecentWindowMs: nat := 10 * Clock.MsPerMinute

  /** The body of a card registration; `isUrl` stands for the schema library's URL test. */
  datatype CardInput = CardInput(a2aUrl: string, description: Option<string>, skills: seq<CardSkill>,
                                 inputModes: Option<seq<string>>, outputModes: Option<seq<string>>)

  predicate ValidCardInput(input: CardInput, isUrl: string -> bool) {
    isUrl(input.a2aUrl) && (input.description.Some? ==> |input.description.value| <= MaxDescriptionLength)
  }

  /** The `data` of a registration. */
  datatype Published = Published(agentId: string, a2aUrl: string, skills: seq<CardSkill>)

  /** Seen within the last ten minutes. */
  predicate SeenRecently(lastSeen: int, now: int) {
    lastSeen > now - RecentWindowMs
  }

  /** The row store keeps one card per agent. */
  predicate OneCardPerAgent(cards: seq<Card>) {
    forall i, j :: 0 <= i < j < |cards| ==> cards[i].agentId != cards[j].agentId
  }

  function CardOf(st: State, agentId: string): (r: Option<Card>)
    ensures r.Some? ==> r.value in st.cards && r.value.agentId == agentId
    ensures r.None? <==> forall i :: 0 <= i < |st.cards| ==> st.cards[i].agentId != agentId
  {
    Table.First(st.cards, (c: Card) => c.agentId == agentId)
  }

  /** The insert's row: keyed by the agent's id, named after the agent, available now. */
  function NewCard(agent: Agent, input: CardInput, now: nat): Card {
    Card(agent.id, agent.id, input.a2aUrl, agent.name, OrElse(input.description, ""), input.skills,
         input.inputModes.GetOr(DefaultModes), input.outputModes.GetOr(DefaultModes), true, now, now, now)
  }

  /** The conflict update: address, description, skills and modes replaced, available again and
      seen now; id, name and creation time kept. */
  function Refreshed(c: Card, input: CardInput, now: nat): Card {
    c.(a2aUrl := input.a2aUrl, description := OrElse(input.description, ""), skills := input.skills,
       inputModes := input.inputModes.GetOr(DefaultModes), outputModes := input.outputModes.GetOr(DefaultModes),
       isAvailable := true, lastSeen := now, updatedAt := now)
  }

  /** `INSERT … ON CONFLICT(agent_id) DO UPDATE`: the agent's card is refreshed when it has one;
      otherwise a new card is inserted, which fails only if its id is already taken. */
  function Upsert(st: State, agent: Agent, input: CardInput, now: nat): (r: Outcome<()>)
    ensures r.state == st.(cards := r.state.cards)
    ensures CardOf(st, agent.id).Some? ==>
              r.result.Ok? && |r.state.cards| == |st.cards| &&
              forall i :: 0 <= i < |st.cards| ==>
                r.state.cards[i] == if st.cards[i].agentId == agent.id then Refreshed(st.cards[i], input, now) else st.cards[i]
    ensures CardOf(st, agent.id).None? ==>
              (r.result.Ok? <==> forall i :: 0 <= i < |st.cards| ==> st.cards[i].id != agent.id) &&
              (r.result.Ok? ==> r.state.cards == st.cards + [NewCard(agent, input, now)]) &&
              (r.result.Err? ==> r == Outcome(st, Err(Thrown(DuplicateKey))))
  {
    if CardOf(st, agent.id).Some? then
      Outcome(st.(cards := Table.UpdateWhere(st.cards, (c: Card) => c.agentId == agent.id,
                                             (c: Card) => Refreshed(c, input, now))), Ok(()))
    else if Table.Any(st.cards, (c: Card) => c.id == agent.id) then Outcome(st, Err(Thrown(DuplicateKey)))
    else Outcome(st.(cards := st.cards + [NewCard(agent, input, now)]), Ok(()))
  }

  /** `POST /agents/register-a2a`: for workers only; the body is checked, then the card upserted. */
  function RegisterCard(st: State, isUrl: string -> bool, now: nat, agent: Agent, input: CardInput)
    : (r: Outcome<Published>)
    ensures AuthMiddleware.RequireRole(agent, AuthMiddleware.WorkerRoles).Err? ==>
              r == Outcome(st, Err(AuthMiddleware.RequireRole(agent, AuthMiddleware.WorkerRoles).error))
    ensures AuthMiddleware.RequireRole(agent, AuthMiddleware.WorkerRoles).Ok? && !ValidCardInput(input, isUrl) ==>
              r == Outcome(st, Err(Thrown(SchemaViolation)))
    ensures r.result.Ok? ==>
              agent.role != EmployerRole && ValidCardInput(input, isUrl) &&
              r.result.value == Published(agent.id, input.a2aUrl, input.skills) &&
              r.state == Upsert(st, agent, input, now).state
    ensures r.result.Err? ==> r.state == st
  {
    AuthMiddleware.WorkerGate(agent);
    match AuthMiddleware.RequireRole(agent, AuthMiddleware.WorkerRoles)
    case Err(e) => Outcome(st, Err(e))
    case Ok(_) =>
      if !ValidCardInput(input, isUrl) then Outcome(st, Err(Thrown(SchemaViolation)))
      else
        var u := Upsert(st, agent, input, now);
        if u.result.Err? then Outcome(st, Err(u.result.error))
        else Outcome(u.state, Ok(Published(agent.id, input.a2aUrl, input.skills)))
  }

  /** Rewriting cards without changing whose they are keeps one card per agent. */
  lemma OwnersKept(xs: seq<Card>, ys: seq<Card>)
    requires OneCardPerAgent(xs)
    requires |ys| == |xs| && forall i :: 0 <= i < |xs| ==> ys[i].agentId == xs[i].agentId
    ensures OneCardPerAgent(ys)
  {
  }

  /** Appending the card of an agent that had none keeps one card per agent. */
  lemma NewOwnerAppended(xs: seq<Card>, c: Card)
    requires OneCardPerAgent(xs)
    requires forall i :: 0 <= i < |xs| ==> xs[i].agentId != c.agentId
    ensures OneCardPerAgent(xs + [c])
  {
    var ys := xs + [c];
    forall i, j | 0 <= i < j < |ys| ensures ys[i].agentId != ys[j].agentId {
      assert ys[i] == xs[i];
    }
  }

  /** The upsert keeps one card per agent. */
  lemma UpsertKeepsOneCard(st: State, agent: Agent, input: CardInput, now: nat)
    requires OneCardPerAgent(st.cards)
    requires Upsert(st, agent, input, now).result.Ok?
    ensures OneCardPerAgent(Upsert(st, agent, input, now).state.cards)
  {
    var after := Upsert(st, agent, input, now).state;
    if CardOf(st, agent.id).None? {
      NewOwnerAppended(st.cards, NewCard(agent, input, now));
    } else {
      OwnersKept(st.cards, after.cards);
    }
  }

  /** After a successful upsert the agent's card carries what was registered. */
  lemma UpsertedCard(st: State, agent: Agent, input: CardInput, now: nat)
    requires Upsert(st, agent, input, now).result.Ok?
    ensures var after := Upsert(st, agent, input, now).state;
            CardOf(after, agent.id).Some? &&
            var c := CardOf(after, agent.id).value;
            c.a2aUrl == input.a2aUrl && c.skills == input.skills && c.isAvailable && c.lastSeen == now &&
            c.description == OrElse(input.description, "") &&
            c.inputModes == input.inputModes.GetOr(DefaultModes) && c.outputModes == input.outputModes.GetOr(DefaultModes)
  {
    var after := Upsert(st, agent, input, now).state;
    var p := (c: Card) => c.agentId == agent.id;
    var f := (c: Card) => Refreshed(c, input, now);
    assert CardOf(after, agent.id) == Table.First(after.cards, p);
    if CardOf(st, agent.id).None? {
      Table.FirstAt(after.cards, p, |st.cards|);
    } else {
      assert after.cards == Table.UpdateWhere(st.cards, p, f);
      assert CardOf(st, agent.id) == Table.First(st.cards, p);
      Table.FirstAfterUpdate(st.cards, p, f);
    }
  }

  /** Re-registering replaces what the earlier registration said but keeps the card's identity:
      its id, the name it shows and when it was first made. */
  lemma ReRegisterOverwrites(st: State, agent: Agent, first: CardInput, now: nat, second: CardInput, later: nat)
    requires Upsert(st, agent, first, now).result.Ok?
    ensures var mid := Upsert(st, agent, first, now).state;
            var end := Upsert(mid, agent, second, later);
            CardOf(mid, agent.id).Some? && end.result.Ok? && CardOf(end.state, agent.id) == Some(Refreshed(CardOf(mid, agent.id).value, second, later))
  {
    UpsertedCard(st, agent, first, now);
    var mid := Upsert(st, agent, first, now).state;
    var p := (c: Card) => c.agentId == agent.id;
    assert CardOf(mid, agent.id) == Table.First(mid.cards, p);
    Table.FirstAfterUpdate(mid.cards, p, (c: Card) => Refreshed(c, second, later));
    assert Upsert(mid, agent, second, later).state.cards ==
           Table.UpdateWhere(mid.cards, p, (c: Card) => Refreshed(c, second, later));
  }

  // ---------------------------------------------------------------- heartbeat

  function Beat(c: Card, now: nat): Card {
    c.(lastSeen := now, isAvailable := true, updatedAt := now)
  }

  /** `POST /agents/heartbeat`: the caller's card, if it has one, is marked available and seen
      now; the answer carries the time. An agent without a card changes nothing. */
  function Heartbeat(st: State, now: nat, agent: Agent): (r: (State, string))
    ensures r.1 == Clock.IsoText(now)
    ensures r.0 == st.(cards := r.0.cards) && |r.0.cards| == |st.cards|
    ensures CardOf(st, agent.id).None? ==> r.0 == st
    ensures forall i :: 0 <= i < |st.cards| ==>
              r.0.cards[i] == if st.cards[i].agentId == agent.id then Beat(st.cards[i], now) else st.cards[i]
  {
    var p := (c: Card) => c.agentId == agent.id;
    if CardOf(st, agent.id).None? then
      Table.UpdateNothing(st.cards, p, (c: Card) => Beat(c, now));
      (st, Clock.IsoText(now))
    else (st.(cards := Table.UpdateWhere(st.cards, p, (c: Card) => Beat(c, now))), Clock.IsoText(now))
  }

  /** A heartbeat right after it makes the caller's card count as online. */
  lemma HeartbeatMakesOnline(st: State, now: nat, agent: Agent)
    requires CardOf(st, agent.id).Some?
    ensures var c := CardOf(Heartbeat(st, now, agent).0, agent.id);
            c.Some? && c.value.isAvailable && SeenRecently(c.value.lastSeen, now)
  {
    var p := (c: Card) => c.agentId == agent.id;
    assert CardOf(st, agent.id) == Table.First(st.cards, p);
    Table.FirstAfterUpdate(st.cards, p, (c: Card) => Beat(c, now));
    assert Heartbeat(st, now, agent).0.cards == Table.UpdateWhere(st.cards, p, (c: Card) => Beat(c, now));
  }

  // ---------------------------------------------------------------- discover

  /** The recency test as the row store evaluates it, `last_seen > datetime('now', '-10 minutes')`:
      the stored ISO text compared as text with SQLite's space-separated date and time of the
      threshold instant. */
  predicate StoredAfter(lastSeen: nat, threshold: nat) {
    TextBefore(Clock.SqlDateTime(threshold), Clock.IsoText(lastSeen))
  }

  /** As written, every heartbeat on the threshold's calendar day passes the test, whatever its
      time: the texts share the date and then a `T` meets a space, which sorts lower. */
  lemma SameDayPassesStoredTest(lastSeen: nat, threshold: nat)
    requires lastSeen / Clock.MsPerDay == threshold / Clock.MsPerDay
    ensures StoredAfter(lastSeen, threshold)
  {
    assert Clock.DateText(lastSeen) == Clock.DateText(threshold);
    Clock.IsoStartsWithDate(lastSeen);
    TextBeforeAfterPrefix(Clock.DateText(threshold), " " + Clock.SqlTime(threshold), "T" + Clock.IsoTime(lastSeen));
  }

  /** A card last seen at midnight counts as online at noon the same day under the stored test,
      while it is twelve hours stale. */
  lemma StaleCardPassesStoredTest()
    ensures var now := 12 * Clock.MsPerHour;
            StoredAfter(0, now - RecentWindowMs) && !SeenRecently(0, now)
  {
    SameDayPassesStoredTest(0, 12 * Clock.MsPerHour - RecentWindowMs);
  }

  datatype DiscoverQuery = DiscoverQuery(skills: Option<string>, limit: Option<string>)

  function LastSeen(c: Card): int {
    c.lastSeen
  }

  /** The recency test of the `WHERE` clause at instant `now`. Within ten minutes of the epoch the
      threshold falls in 1969, below every stored time. */
  predicate StoredRecently(lastSeen: nat, now: int) {
    now < RecentWindowMs || StoredAfter(lastSeen, now - RecentWindowMs)
  }

  /** The cards that can be discovered, as the query selects them: available, passing the stored
      recency test, and of a registered agent. */
  predicate Discoverable(st: State, c: Card, now: int) {
    c.isAvailable && StoredRecently(c.lastSeen, now) && FindAgent(st, c.agentId).Some?
  }

  /** The cards meant to be discoverable: available, seen within the last ten minutes, and of a
      registered agent. */
  predicate DiscoverableIntended(st: State, c: Card, now: int) {
    c.isAvailable && SeenRecently(c.lastSeen, now) && FindAgent(st, c.agentId).Some?
  }

  function DiscoverableAt(st: State, now: int): Card -> bool {
    c => Discoverable(st, c, now)
  }

  /** The condition as a value selects exactly the discoverable cards. */
  lemma DiscoverableAtMeans(st: State, now: int)
    ensures forall c :: DiscoverableAt(st, now)(c) == Discoverable(st, c, now)
  {
  }

  function IntendedAt(st: State, now: int): Card -> bool {
    c => DiscoverableIntended(st, c, now)
  }

  /** The condition as a value selects exactly the cards meant to be discoverable. */
  lemma IntendedAtMeans(st: State, now: int)
    ensures forall c :: IntendedAt(st, now)(c) == DiscoverableIntended(st, c, now)
  {
  }

  /** `Math.min(parseInt(limit || '20'), 50)`; None for NaN. */
  function DiscoverLimit(limit: Option<string>): (r: Option<int>)
    ensures r.Some? <==> ParseIntOr(limit, DefaultDiscoverLimit).Some?
    ensures r.Some? ==> r.value <= MaxDiscoverLimit
    ensures r.Some? && ParseIntOr(limit, DefaultDiscoverLimit).value <= MaxDiscoverLimit ==>
              r.value == ParseIntOr(limit, DefaultDiscoverLimit).value
    ensures !Truthy(limit) ==> r == Some(20)
  {
    match ParseIntOr(limit, DefaultDiscoverLimit)
    case None => None
    case Some(n) => Some(if n <= MaxDiscoverLimit then n else MaxDiscoverLimit)
  }

  /** `GET /agents/discover`: the discoverable cards, most recently seen first, the first `limit`
      of them: no discoverable card left out was seen later than one listed. A NaN limit reaches
      the row store as a binding it refuses; a negative one means no limit. The skills filter is
      not applied. */
  function Discover(st: State, now: nat, q: DiscoverQuery): (r: Result<seq<Card>, Failure>)
    ensures r.Ok? <==> DiscoverLimit(q.limit).Some?
    ensures r.Err? ==> r.error == Thrown(UnboundNumber)
    ensures r.Ok? ==> var cards := r.value;
              var n := DiscoverLimit(q.limit).value;
              var total := Table.Count(st.cards, DiscoverableAt(st, now));
              |cards| == (if 0 <= n < total then n else total) &&
              (forall i :: 0 <= i < |cards| ==> cards[i] in st.cards && Discoverable(st, cards[i], now)) &&
              (forall i, j :: 0 <= i < j < |cards| ==> cards[i].lastSeen >= cards[j].lastSeen) &&
              multiset(cards) <= multiset(Table.Filter(st.cards, DiscoverableAt(st, now))) &&
              Table.NoneAboveBy(cards, st.cards, DiscoverableAt(st, now), LastSeen)
    ensures r.Ok? && (DiscoverLimit(q.limit).value < 0 || Table.Count(st.cards, DiscoverableAt(st, now)) <= DiscoverLimit(q.limit).value) ==>
              forall i :: 0 <= i < |st.cards| && Discoverable(st, st.cards[i], now) ==> st.cards[i] in r.value
  {
    match DiscoverLimit(q.limit)
    case None => Err(Thrown(UnboundNumber))
    case Some(n) => DiscoverableAtMeans(st, now); Ok(Table.TopBy(st.cards, DiscoverableAt(st, now), LastSeen, n))
  }

  /** `GET /agents/discover` with the recency test it is meant to have: only cards seen within the
      last ten minutes, most recently seen first, the first `limit` of them. */
  function DiscoverIntended(st: State, now: nat, q: DiscoverQuery): (r: Result<seq<Card>, Failure>)
    ensures r.Ok? <==> DiscoverLimit(q.limit).Some?
    ensures r.Err? ==> r.error == Thrown(UnboundNumber)
    ensures r.Ok? ==> var cards := r.value;
              var n := DiscoverLimit(q.limit).value;
              var total := Table.Count(st.cards, IntendedAt(st, now));
              |cards| == (if 0 <= n < total then n else total) &&
              (forall i :: 0 <= i < |cards| ==> cards[i] in st.cards && DiscoverableIntended(st, cards[i], now)) &&
              (forall i, j :: 0 <= i < j < |cards| ==> cards[i].lastSeen >= cards[j].lastSeen) &&
              multiset(cards) <= multiset(Table.Filter(st.cards, IntendedAt(st, now))) &&
              Table.NoneAboveBy(cards, st.cards, IntendedAt(st, now), LastSeen)
    ensures r.Ok? && (DiscoverLimit(q.limit).value < 0 || Table.Count(st.cards, IntendedAt(st, now)) <= DiscoverLimit(q.limit).value) ==>
              forall i :: 0 <= i < |st.cards| && DiscoverableIntended(st, st.cards[i], now) ==> st.cards[i] in r.value
  {
    match DiscoverLimit(q.limit)
    case None => Err(Thrown(UnboundNumber))
    case Some(n) => IntendedAtMeans(st, now); Ok(Table.TopBy(st.cards, IntendedAt(st, now), LastSeen, n))
  }

  /** As written, the only card of a registered agent, available and last seen at midnight, is
      discovered at noon the same day, twelve hours after its last heartbeat. */
  lemma StaleCardDiscovered(st: State, c: Card)
    requires st.cards == [c] && c.isAvailable && c.lastSeen == 0 && FindAgent(st, c.agentId).Some?
    ensures var r := Discover(st, 12 * Clock.MsPerHour, DiscoverQuery(None, None));
            r.Ok? && c in r.value && !SeenRecently(c.lastSeen, 12 * Clock.MsPerHour)
  {
    var now := 12 * Clock.MsPerHour;
    StaleCardPassesStoredTest();
    assert Discoverable(st, c, now);
    assert DiscoverLimit(None) == Some(20);
    assert st.cards[0] == c;
  }
}
