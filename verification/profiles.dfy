/** Agent profiles: the owner's create-or-update and read, the public card and stats, and the
    public listings (`browse`, `featured`). */
module Profiles {
  import opened Wrappers
  import opened Types
  import opened Store
  import opened Decimal
  import Table
  import Fees
  import Clock
  import Discovery
  import AuthRoutes
  import Site
  import ErrorHandler

  const NoFields: string := "No fields to update"
  const ProfileUpdated: string := "Profile updated"
  const ProfileCreated: string := "Profile created"
  const NoOwnProfile: string := "Profile not found. Create one via POST /v1/agents/profile"
  const NoPublicProfile: string := "Agent profile not found"
  const AgentMissing: string := "Agent not found"
  const SkillLevels: seq<string> := ["beginner", "intermediate", "expert", "native"]

  /** The body of `POST /agents/profile`: every field optional. */
  datatype ProfileInput = ProfileInput(
    displayName: Option<string>,
    tagline: Option<string>,
    bio: Option<string>,
    avatarUrl: Option<string>,
    primarySkills: Option<seq<SkillLevel>>,
    languages: Option<seq<string>>,
    specializations: Option<seq<string>>,
    acceptsFree: Option<bool>,
    acceptsPaid: Option<bool>,
    minBudget: Option<real>,
    maxBudget: Option<real>,
    typicalResponseTime: Option<string>,
    openclawVersion: Option<string>,
    openclawSkillsCount: Option<int>,
    openclawModel: Option<string>,
    isListed: Option<bool>)

  /** A body with no field at all. */
  const NoInput: ProfileInput :=
    ProfileInput(None, None, None, None, None, None, None, None, None, None, None, None, None, None, None, None)

  predicate AtMost(s: Option<string>, n: nat) {
    s.Some? ==> |s.value| <= n
  }

  predicate NonNegative(x: Option<real>) {
    x.Some? ==> x.value >= 0.0
  }

  predicate KnownLevels(skills: Option<seq<SkillLevel>>) {
    skills.Some? ==> forall i :: 0 <= i < |skills.value| ==>
      skills.value[i].level.Some? ==> skills.value[i].level.value in SkillLevels
  }

  /** The schema: text lengths, a URL avatar (`isUrl` stands for the schema library's test),
      known skill levels, and non-negative budgets and skill count. */
  predicate ValidProfileInput(input: ProfileInput, isUrl: string -> bool) {
    (input.displayName.Some? ==> 1 <= |input.displayName.value|) && AtMost(input.displayName, 100) &&
    AtMost(input.tagline, 160) && AtMost(input.bio, 2000) &&
    (input.avatarUrl.Some? ==> isUrl(input.avatarUrl.value)) &&
    KnownLevels(input.primarySkills) &&
    NonNegative(input.minBudget) && NonNegative(input.maxBudget) &&
    AtMost(input.typicalResponseTime, 50) && AtMost(input.openclawVersion, 20) &&
    (input.openclawSkillsCount.Some? ==> input.openclawSkillsCount.value >= 0) &&
    AtMost(input.openclawModel, 50)
  }

  /** Some field is present, so an update has a column to set. */
  predicate Supplies(input: ProfileInput) {
    input.displayName.Some? || input.tagline.Some? || input.bio.Some? || input.avatarUrl.Some? ||
    input.primarySkills.Some? || input.languages.Some? || input.specializations.Some? ||
    input.acceptsFree.Some? || input.acceptsPaid.Some? || input.minBudget.Some? || input.maxBudget.Some? ||
    input.typicalResponseTime.Some? || input.openclawVersion.Some? || input.openclawSkillsCount.Some? ||
    input.openclawModel.Some? || input.isListed.Some?
  }

  function Pick<T>(supplied: Option<T>, current: T): T {
    if supplied.Some? then supplied.value else current
  }

  function PickOptional<T>(supplied: Option<T>, current: Option<T>): Option<T> {
    if supplied.Some? then supplied else current
  }

  /** The `UPDATE`: each present field replaces its column, the rest are kept, and the row is
      stamped. */
  function Updated(p: Profile, input: ProfileInput, now: nat): Profile {
    p.(displayName := Pick(input.displayName, p.displayName),
       tagline := PickOptional(input.tagline, p.tagline),
       bio := PickOptional(input.bio, p.bio),
       avatarUrl := PickOptional(input.avatarUrl, p.avatarUrl),
       primarySkills := Pick(input.primarySkills, p.primarySkills),
       languages := Pick(input.languages, p.languages),
       specializations := Pick(input.specializations, p.specializations),
       acceptsFree := Pick(input.acceptsFree, p.acceptsFree),
       acceptsPaid := Pick(input.acceptsPaid, p.acceptsPaid),
       minBudget := PickOptional(input.minBudget, p.minBudget),
       maxBudget := PickOptional(input.maxBudget, p.maxBudget),
       typicalResponseTime := PickOptional(input.typicalResponseTime, p.typicalResponseTime),
       openclawVersion := PickOptional(input.openclawVersion, p.openclawVersion),
       openclawSkillsCount := Pick(input.openclawSkillsCount, p.openclawSkillsCount),
       openclawModel := PickOptional(input.openclawModel, p.openclawModel),
       isListed := Pick(input.isListed, p.isListed),
       updatedAt := now)
  }

  /** `value || null` for a text column of the insert. */
  function TextOrNull(s: Option<string>): (r: Option<string>)
    ensures r.Some? <==> Truthy(s)
    ensures r.Some? ==> r == s
  {
    if Truthy(s) then s else None
  }

  /** The `INSERT`: keyed and owned by the agent, shown under the agent's name unless a display
      name is given, empty text stored as NULL, lists empty, both kinds of work accepted and
      listed unless said otherwise, no skills installed, not verified. */
  function NewProfile(agent: Agent, input: ProfileInput, now: nat): Profile {
    Profile(agent.id, agent.id, OrElse(input.displayName, agent.name), TextOrNull(input.tagline),
            TextOrNull(input.bio), TextOrNull(input.avatarUrl), input.primarySkills.GetOr([]),
            input.languages.GetOr([]), input.specializations.GetOr([]), input.acceptsFree.GetOr(true),
            input.acceptsPaid.GetOr(true), input.minBudget, input.maxBudget, TextOrNull(input.typicalResponseTime),
            TextOrNull(input.openclawVersion), input.openclawSkillsCount.GetOr(0), TextOrNull(input.openclawModel),
            false, input.isListed.GetOr(true), now, now)
  }

  /** `SELECT … FROM agent_profiles WHERE agent_id = ?` and `.first()`. */
  function OwnProfile(st: State, agentId: string): (r: Option<Profile>)
    ensures r.Some? ==> r.value in st.profiles && r.value.agentId == agentId
    ensures r.None? <==> forall i :: 0 <= i < |st.profiles| ==> st.profiles[i].agentId != agentId
  {
    Table.First(st.profiles, (p: Profile) => p.agentId == agentId)
  }

  /** The update half of a save: refused when nothing is supplied; otherwise every profile of
      the agent is rewritten and all others are kept. */
  function Modify(st: State, now: nat, agent: Agent, input: ProfileInput): (r: Outcome<string>)
    ensures !Supplies(input) ==> r == Outcome(st, Err(HttpError(400, NoFields)))
    ensures Supplies(input) ==>
              r.result == Ok(ProfileUpdated) && r.state == st.(profiles := r.state.profiles) &&
              |r.state.profiles| == |st.profiles| &&
              forall i :: 0 <= i < |st.profiles| ==>
                r.state.profiles[i] ==
                  if st.profiles[i].agentId == agent.id then Updated(st.profiles[i], input, now) else st.profiles[i]
  {
    if !Supplies(input) then Outcome(st, Err(HttpError(400, NoFields)))
    else
      Outcome(st.(profiles := Table.UpdateWhere(st.profiles, (p: Profile) => p.agentId == agent.id,
                                                (p: Profile) => Updated(p, input, now))),
              Ok(ProfileUpdated))
  }

  /** The insert half of a save: the new row is appended unless its id is taken. */
  function Create(st: State, now: nat, agent: Agent, input: ProfileInput): (r: Outcome<string>)
    ensures r.result.Ok? <==> forall i :: 0 <= i < |st.profiles| ==> st.profiles[i].id != agent.id
    ensures r.result.Ok? ==>
              r.result.value == ProfileCreated &&
              r.state == st.(profiles := st.profiles + [NewProfile(agent, input, now)])
    ensures r.result.Err? ==> r == Outcome(st, Err(Thrown(DuplicateKey)))
  {
    if Table.Any(st.profiles, (p: Profile) => p.id == agent.id) then Outcome(st, Err(Thrown(DuplicateKey)))
    else Outcome(st.(profiles := st.profiles + [NewProfile(agent, input, now)]), Ok(ProfileCreated))
  }

  /** `POST /agents/profile`: the body is checked, then the agent's profile is updated when it
      has one and created otherwise. */
  function SaveProfile(st: State, isUrl: string -> bool, now: nat, agent: Agent, input: ProfileInput)
    : (r: Outcome<string>)
    ensures !ValidProfileInput(input, isUrl) ==> r == Outcome(st, Err(Thrown(SchemaViolation)))
    ensures ValidProfileInput(input, isUrl) && OwnProfile(st, agent.id).Some? ==> r == Modify(st, now, agent, input)
    ensures ValidProfileInput(input, isUrl) && OwnProfile(st, agent.id).None? ==> r == Create(st, now, agent, input)
    ensures r.result.Err? ==> r.state == st
  {
    if !ValidProfileInput(input, isUrl) then Outcome(st, Err(Thrown(SchemaViolation)))
    else if OwnProfile(st, agent.id).Some? then Modify(st, now, agent, input)
    else Create(st, now, agent, input)
  }

  /** `GET /agents/profile`: the caller's profile, or 404. */
  function GetOwnProfile(st: State, agent: Agent): (r: Result<Profile, Failure>)
    ensures r.Ok? <==> exists i :: 0 <= i < |st.profiles| && st.profiles[i].agentId == agent.id
    ensures r.Ok? ==> r.value in st.profiles && r.value.agentId == agent.id
    ensures r.Err? ==> r.error == HttpError(404, NoOwnProfile)
  {
    match OwnProfile(st, agent.id)
    case None => Err(HttpError(404, NoOwnProfile))
    case Some(p) => Ok(p)
  }

  /** After a save the caller reads back the updated profile, or the created one. */
  lemma SavedProfileReadsBack(st: State, isUrl: string -> bool, now: nat, agent: Agent, input: ProfileInput)
    requires SaveProfile(st, isUrl, now, agent, input).result.Ok?
    ensures var after := SaveProfile(st, isUrl, now, agent, input).state;
            GetOwnProfile(after, agent) ==
              Ok(if OwnProfile(st, agent.id).Some? then Updated(OwnProfile(st, agent.id).value, input, now)
                 else NewProfile(agent, input, now))
  {
    var after := SaveProfile(st, isUrl, now, agent, input).state;
    var p := (x: Profile) => x.agentId == agent.id;
    assert OwnProfile(after, agent.id) == Table.First(after.profiles, p);
    if OwnProfile(st, agent.id).Some? {
      var f := (x: Profile) => Updated(x, input, now);
      assert OwnProfile(st, agent.id) == Table.First(st.profiles, p);
      assert after.profiles == Table.UpdateWhere(st.profiles, p, f);
      Table.FirstAfterUpdate(st.profiles, p, f);
    } else {
      Table.FirstAt(after.profiles, p, |st.profiles|);
    }
  }

  /** An update keeps the row's identity, owner, verification and creation time, and applying
      the same fields again only moves the time stamp. */
  lemma UpdateKeepsIdentity(p: Profile, input: ProfileInput, now: nat, later: nat)
    ensures var q := Updated(p, input, now);
            q.id == p.id && q.agentId == p.agentId && q.isVerified == p.isVerified && q.createdAt == p.createdAt &&
            q.updatedAt == now
    ensures Updated(Updated(p, input, now), input, later) == Updated(p, input, later)
    ensures !Supplies(input) ==> Updated(p, input, now) == p.(updatedAt := now)
  {
  }

  /** A profile created with an empty body is the default profile a registration makes. */
  lemma EmptyCreateIsRegistrationDefault(agent: Agent, now: nat)
    ensures NewProfile(agent, NoInput, now) == AuthRoutes.DefaultProfile(agent.id, agent.name, now)
  {
  }

  /** An empty tagline is stored as NULL when the profile is created but as the empty text when
      it is updated. */
  lemma EmptyTextCreateVersusUpdate(agent: Agent, p: Profile, now: nat)
    ensures var input := NoInput.(tagline := Some(""));
            NewProfile(agent, input, now).tagline == None && Updated(p, input, now).tagline == Some("")
  {
  }

  // ---------------------------------------------------------------- stats

  /** `success_rate`: the share of a worker's tasks that completed, as a percentage rounded to one
      decimal; none for a worker with no tasks. */
  function SuccessRate(completed: nat, succeeded: nat): (r: Option<real>)
    ensures r.None? <==> completed == 0
    ensures r.Some? ==> var exact := 100.0 * (succeeded as real / completed as real);
              exact - 0.05 < r.value <= exact + 0.05
    ensures r.Some? && succeeded <= completed ==> 0.0 <= r.value <= 100.0
  {
    if completed > 0 then
      var share := succeeded as real / completed as real;
      var n := Fees.Round(1000.0 * share);
      assert succeeded <= completed ==> share <= 1.0 by {
        if succeeded <= completed {
          ShareAtMostWhole(succeeded, completed);
        }
      }
      Some(n as real / 10.0)
    else None
  }

  /** A part of a whole is at most the whole. */
  lemma ShareAtMostWhole(part: nat, whole: nat)
    requires part <= whole && whole > 0
    ensures part as real / whole as real <= 1.0
  {
    var q := part as real / whole as real;
    assert q * whole as real == part as real;
  }

  /** The figures the card and the stats route report. The averages and the earnings total are
      left out. */
  datatype AgentStats = AgentStats(tasksCompleted: nat, tasksSucceeded: nat, successRate: Option<real>,
                                   reviewCount: nat)

  predicate WorkedBy(t: Task, agentId: string) {
    t.workerId == Some(agentId)
  }

  predicate SucceededBy(t: Task, agentId: string) {
    t.workerId == Some(agentId) && t.status == Completed
  }

  /** A review of one of the agent's tasks that accepted the work with a rating. */
  predicate RatedAcceptance(st: State, rv: Review, agentId: string) {
    rv.result == Accept && rv.rating.Some? &&
    exists i :: 0 <= i < |st.tasks| && st.tasks[i].id == rv.taskId && WorkedBy(st.tasks[i], agentId)
  }

  /** `computeAgentStats`: every task the agent worked on, those that completed, the rate, and
      the rated acceptances among their reviews. */
  function ComputeStats(st: State, agentId: string): (r: AgentStats)
    ensures r.tasksSucceeded <= r.tasksCompleted
    ensures r.tasksCompleted == Table.Count(st.tasks, (t: Task) => WorkedBy(t, agentId))
    ensures r.tasksSucceeded == Table.Count(st.tasks, (t: Task) => SucceededBy(t, agentId))
    ensures r.successRate.None? <==> r.tasksCompleted == 0
    ensures r.successRate.Some? ==> 0.0 <= r.successRate.value <= 100.0
    ensures r.reviewCount == Table.Count(st.reviews, (rv: Review) => RatedAcceptance(st, rv, agentId))
  {
    var worked := (t: Task) => WorkedBy(t, agentId);
    var succeeded := (t: Task) => SucceededBy(t, agentId);
    var c := Table.Count(st.tasks, worked);
    var s := Table.Count(st.tasks, succeeded);
    Table.CountMonotone(st.tasks, succeeded, worked);
    AgentStats(c, s, SuccessRate(c, s), Table.Count(st.reviews, (rv: Review) => RatedAcceptance(st, rv, agentId)))
  }

  /** `GET /agents/:id/stats`: 404 for an unknown agent. */
  function Stats(st: State, agentId: string): (r: Result<AgentStats, Failure>)
    ensures r.Ok? <==> FindAgent(st, agentId).Some?
    ensures r.Err? ==> r.error == HttpError(404, AgentMissing)
    ensures r.Ok? ==> r.value == ComputeStats(st, agentId)
  {
    if FindAgent(st, agentId).None? then Err(HttpError(404, AgentMissing)) else Ok(ComputeStats(st, agentId))
  }

  /** A worker whose every task completed has a rate of exactly 100. */
  lemma AllSucceededIsHundred(n: nat)
    requires n > 0
    ensures SuccessRate(n, n) == Some(100.0)
  {
    assert n as real / n as real == 1.0;
    assert Fees.Round(1000.0 * 1.0) == 1000;
  }

  // ---------------------------------------------------------------- helpers

  /** `safeJsonParse`: the parsed value, or the fallback for empty or unparsable text. `parse`
      stands for `JSON.parse`, None when it throws. */
  function SafeJsonParse<T>(s: Option<string>, parse: string -> Option<T>, fallback: T): (r: T)
    ensures !Truthy(s) ==> r == fallback
    ensures Truthy(s) && parse(s.value).None? ==> r == fallback
    ensures Truthy(s) && parse(s.value).Some? ==> r == parse(s.value).value
  {
    if !Truthy(s) then fallback
    else match parse(s.value)
      case None => fallback
      case Some(v) => v
  }

  /** Whatever was stored through a faithful encoding reads back, whatever the fallback. */
  lemma SafeJsonRoundTrip<T>(x: T, encode: T -> string, parse: string -> Option<T>, fallback: T)
    requires parse(encode(x)) == Some(x) && encode(x) != ""
    ensures SafeJsonParse(Some(encode(x)), parse, fallback) == x
  {
  }

  /** `isRecentlySeen`: false for a missing or empty time and for one that does not parse
      (`dateOf` stands for `new Date(…).getTime()`, None for NaN); otherwise whether it is later
      than ten minutes ago. */
  function IsRecentlySeen(lastSeen: Option<string>, dateOf: string -> Option<int>, now: int): (r: bool)
    ensures r <==> Truthy(lastSeen) && dateOf(lastSeen.value).Some? &&
                   dateOf(lastSeen.value).value > now - Discovery.RecentWindowMs
  {
    Truthy(lastSeen) && dateOf(lastSeen.value).Some? && dateOf(lastSeen.value).value > now - 10 * 60 * 1000
  }

  /** On a stored ISO time that parses back to its instant, the helper agrees with the recency
      test the listings use. */
  lemma RecentlySeenAgrees(ms: nat, dateOf: string -> Option<int>, now: nat)
    requires dateOf(Clock.IsoText(ms)) == Some(ms)
    ensures IsRecentlySeen(Some(Clock.IsoText(ms)), dateOf, now) == Discovery.SeenRecently(ms, now)
  {
    assert Clock.IsoText(ms) != "" by {
      var p := Clock.IsoParts(ms);
      assert Clock.IsoText(ms) == p[0] + ":" + p[1] + ":" + p[2];
    }
  }

  // ---------------------------------------------------------------- listings

  /** A profile joined with its agent and, when it has one, the agent's card. */
  datatype Joined = Joined(profile: Profile, agent: Agent, card: Option<Card>)

  /** `FROM agent_profiles p JOIN agents a … LEFT JOIN agent_cards ac …`: the profiles whose agent
      exists, in table order; with one card per agent each profile appears once. */
  function Join(st: State, ps: seq<Profile>): (r: seq<Joined>)
    ensures forall i :: 0 <= i < |r| ==>
              r[i].profile in ps && FindAgent(st, r[i].profile.agentId) == Some(r[i].agent) &&
              r[i].card == Discovery.CardOf(st, r[i].profile.agentId)
    ensures forall i :: 0 <= i < |ps| && FindAgent(st, ps[i].agentId).Some? ==>
              Joined(ps[i], FindAgent(st, ps[i].agentId).value, Discovery.CardOf(st, ps[i].agentId)) in r
  {
    if |ps| == 0 then []
    else
      var rest := Join(st, ps[1..]);
      assert forall i :: 1 <= i < |ps| ==> ps[i] == ps[1..][i - 1];
      match FindAgent(st, ps[0].agentId)
      case None => rest
      case Some(a) => [Joined(ps[0], a, Discovery.CardOf(st, ps[0].agentId))] + rest
  }

  /** The card's recency as the listings report it (`is_online`). */
  predicate Online(j: Joined, now: int) {
    j.card.Some? && j.card.value.isAvailable && Discovery.SeenRecently(j.card.value.lastSeen, now)
  }

  /** The card's recency as the `is_online` filter selects it, with the stored text test. */
  predicate StoredOnline(j: Joined, now: int) {
    j.card.Some? && j.card.value.isAvailable && Discovery.StoredRecently(j.card.value.lastSeen, now)
  }

  function IsVerified(j: Joined): bool {
    j.profile.isVerified
  }

  function MemberSince(j: Joined): int {
    j.agent.createdAt
  }

  function LastUpdated(j: Joined): int {
    j.profile.updatedAt
  }

  /** The filters and order of `GET /agents/browse`. The `skills` filter is not modelled. */
  datatype BrowseFilter = BrowseFilter(acceptsPaid: Option<string>, acceptsFree: Option<string>,
                                       isVerified: Option<string>, isOnline: Option<string>, sort: Option<string>)

  /** The whole query: filters and the requested page. */
  datatype BrowseQuery = BrowseQuery(filter: BrowseFilter, page: Option<string>, perPage: Option<string>)

  /** The profile filters of browse: listed, and each pricing or trust filter set to `true` holds. */
  predicate Matches(q: BrowseFilter, j: Joined) {
    j.profile.isListed &&
    (q.acceptsPaid == Some("true") ==> j.profile.acceptsPaid) &&
    (q.acceptsFree == Some("true") ==> j.profile.acceptsFree) &&
    (q.isVerified == Some("true") ==> j.profile.isVerified)
  }

  /** The `WHERE` of browse: the profile filters, and with `is_online=true` the stored recency test. */
  predicate Wanted(q: BrowseFilter, j: Joined, now: int) {
    Matches(q, j) && (q.isOnline == Some("true") ==> StoredOnline(j, now))
  }

  /** The `WHERE` browse is meant to have: `is_online=true` keeps the rows it reports online. */
  predicate WantedIntended(q: BrowseFilter, j: Joined, now: int) {
    Matches(q, j) && (q.isOnline == Some("true") ==> Online(j, now))
  }

  /** The `WHERE` of browse as a row condition. */
  function WantedBy(q: BrowseFilter, now: int): Joined -> bool {
    j => Wanted(q, j, now)
  }

  /** The matching rows in browse order: newest member first; with `sort=rating` the verified
      profiles come first. */
  function BrowseRows(rows: seq<Joined>, now: int, q: BrowseFilter): (r: seq<Joined>)
    ensures forall i :: 0 <= i < |r| ==> r[i] in rows && Wanted(q, r[i], now)
    ensures forall i :: 0 <= i < |rows| && Wanted(q, rows[i], now) ==> rows[i] in r
    ensures q.sort == Some("rating") ==>
              forall i, j :: 0 <= i < j < |r| && IsVerified(r[j]) ==> IsVerified(r[i])
    ensures forall i, j :: 0 <= i < j < |r| && (q.sort != Some("rating") || IsVerified(r[i]) == IsVerified(r[j])) ==>
              MemberSince(r[i]) >= MemberSince(r[j])
    ensures |r| == Table.Count(rows, WantedBy(q, now))
  {
    Table.RankBy(rows, WantedBy(q, now), q.sort == Some("rating"), IsVerified, MemberSince)
  }

  function WantedIntendedBy(q: BrowseFilter, now: int): Joined -> bool {
    j => WantedIntended(q, j, now)
  }

  /** The rows browse is meant to list, in browse order: with `is_online=true` every row shown
      reports itself online, and every matching row that does is kept. */
  function BrowseRowsIntended(rows: seq<Joined>, now: int, q: BrowseFilter): (r: seq<Joined>)
    ensures forall i :: 0 <= i < |r| ==> r[i] in rows && Matches(q, r[i])
    ensures q.isOnline == Some("true") ==> forall i :: 0 <= i < |r| ==> ListingOf(r[i], now).isOnline
    ensures forall i :: 0 <= i < |rows| && WantedIntended(q, rows[i], now) ==> rows[i] in r
    ensures forall i, j :: 0 <= i < j < |r| && (q.sort != Some("rating") || IsVerified(r[i]) == IsVerified(r[j])) ==>
              MemberSince(r[i]) >= MemberSince(r[j])
  {
    Table.RankBy(rows, WantedIntendedBy(q, now), q.sort == Some("rating"), IsVerified, MemberSince)
  }

  /** As written, `is_online=true` lists a profile whose card was last seen at midnight when asked
      at noon the same day, and the listing itself reports that profile offline. */
  lemma StaleRowListedOffline(j: Joined)
    requires j.profile.isListed && j.card.Some? && j.card.value.isAvailable && j.card.value.lastSeen == 0
    ensures var q := BrowseFilter(None, None, None, Some("true"), None);
            var now := 12 * Clock.MsPerHour;
            j in BrowseRows([j], now, q) && !ListingOf(j, now).isOnline
  {
    var q := BrowseFilter(None, None, None, Some("true"), None);
    var now := 12 * Clock.MsPerHour;
    Discovery.StaleCardPassesStoredTest();
    assert Discovery.StoredRecently(j.card.value.lastSeen, now);
    assert Wanted(q, j, now);
    assert [j][0] == j;
  }

  /** `page = max(1, parseInt(page || '1'))` and `per_page = min(50, max(1, parseInt(per_page || '20')))`;
      None when either is NaN. */
  function BrowsePaging(page: Option<string>, perPage: Option<string>): (r: Option<(int, int)>)
    ensures r.Some? <==> ParseIntOr(page, 1).Some? && ParseIntOr(perPage, 20).Some?
    ensures r.Some? ==> r.value.0 >= 1 && 1 <= r.value.1 <= 50
    ensures r.Some? && ParseIntOr(page, 1).value >= 1 ==> r.value.0 == ParseIntOr(page, 1).value
    ensures r.Some? && 1 <= ParseIntOr(perPage, 20).value <= 50 ==> r.value.1 == ParseIntOr(perPage, 20).value
    ensures !Truthy(page) && !Truthy(perPage) ==> r == Some((1, 20))
  {
    match (ParseIntOr(page, 1), PageSize(perPage))
    case (Some(p), Some(n)) => Some((if p >= 1 then p else 1, n))
    case _ => None
  }

  /** `min(50, max(1, parseInt(per_page || '20')))`; None for NaN. */
  function PageSize(perPage: Option<string>): (r: Option<int>)
    ensures r.Some? <==> ParseIntOr(perPage, 20).Some?
    ensures r.Some? ==> 1 <= r.value <= 50
    ensures r.Some? && 1 <= ParseIntOr(perPage, 20).value <= 50 ==> r.value == ParseIntOr(perPage, 20).value
  {
    match ParseIntOr(perPage, 20)
    case None => None
    case Some(n) => Some(if n < 1 then 1 else if n > 50 then 50 else n)
  }

  /** Without a radix a `0x` page number is read as hexadecimal: `?page=0x2` is page 2. */
  lemma HexPageNumber()
    ensures BrowsePaging(Some("0x2"), None) == Some((2, 20))
  {
    HexQueryValue();
    assert PageSize(None) == Some(20);
  }

  /** One profile as browse lists it. */
  datatype Listing = Listing(agentId: string, displayName: string, tagline: Option<string>, avatarUrl: Option<string>,
                             skills: seq<SkillLevel>, acceptsFree: bool, acceptsPaid: bool, minBudget: Option<real>,
                             isVerified: bool, isOnline: bool)

  function ListingOf(j: Joined, now: int): Listing {
    Listing(j.profile.agentId, j.profile.displayName, j.profile.tagline, j.profile.avatarUrl, j.profile.primarySkills,
            j.profile.acceptsFree, j.profile.acceptsPaid, j.profile.minBudget, j.profile.isVerified, Online(j, now))
  }

  datatype BrowsePage = BrowsePage(agents: seq<Listing>, total: nat, page: int, perPage: int, hasMore: bool)

  /** One page of ordered rows (`LIMIT per OFFSET (page - 1) * per`) with the total and whether
      rows remain past this page. */
  function PageOf(rows: seq<Joined>, page: int, per: int, now: int): (r: BrowsePage)
    requires page >= 1 && per >= 1
    ensures var w := Table.Window(rows, per, (page - 1) * per);
            r.page == page && r.perPage == per && |r.agents| <= per && r.total == |rows| &&
            (r.hasMore <==> page * per < |rows|) &&
            |r.agents| == |w| && forall i :: 0 <= i < |w| ==> r.agents[i] == ListingOf(w[i], now)
  {
    var w := Table.Window(rows, per, (page - 1) * per);
    BrowsePage(seq(|w|, i requires 0 <= i < |w| => ListingOf(w[i], now)), |rows|, page, per, page * per < |rows|)
  }

  /** The names every object literal inherits from `Object.prototype`. Looked up in the sort
      map they yield an inherited function, or the prototype itself for `__proto__`: truthy, so
      the fallback to `newest` does not apply, and rendered into the query as text that is no
      valid `ORDER BY` term. */
  const InheritedKeys: set<string> := {"constructor", "hasOwnProperty", "isPrototypeOf", "propertyIsEnumerable",
                                       "toLocaleString", "toString", "valueOf", "__proto__", "__defineGetter__",
                                       "__defineSetter__", "__lookupGetter__", "__lookupSetter__"}

  /** The row store's refusal of a query whose `ORDER BY` is not valid SQL. */
  const BadOrderBy: string := "Invalid ORDER BY clause"

  /** `sortMap[sort] || sortMap.newest` puts an inherited member into the query. */
  predicate OrderBroken(sort: Option<string>) {
    sort.Some? && sort.value in InheritedKeys
  }

  /** `GET /agents/browse`: a `sort` naming an inherited member makes the query fail; a NaN page
      or page size fails; otherwise the clamped page of the matching rows in browse order. */
  function Browse(st: State, now: int, q: BrowseQuery): (r: Result<BrowsePage, Failure>)
    ensures r.Ok? <==> !OrderBroken(q.filter.sort) && BrowsePaging(q.page, q.perPage).Some?
    ensures OrderBroken(q.filter.sort) ==> r == Err(Thrown(BadOrderBy))
    ensures !OrderBroken(q.filter.sort) && BrowsePaging(q.page, q.perPage).None? ==> r == Err(Thrown(UnboundNumber))
    ensures r.Ok? ==> var (page, per) := BrowsePaging(q.page, q.perPage).value;
                      r.value == PageOf(BrowseRows(Join(st, st.profiles), now, q.filter), page, per, now)
  {
    if OrderBroken(q.filter.sort) then Err(Thrown(BadOrderBy))
    else match BrowsePaging(q.page, q.perPage)
      case None => Err(Thrown(UnboundNumber))
      case Some((page, per)) => Ok(PageOf(BrowseRows(Join(st, st.profiles), now, q.filter), page, per, now))
  }

  /** `?sort=constructor` answers no page at all: the query is refused, and the error handler
      turns the refusal into a 500. */
  lemma InheritedSortFails(st: State, now: int, q: BrowseQuery, cfg: Config)
    requires q.filter.sort.Some? && q.filter.sort.value in InheritedKeys
    ensures Browse(st, now, q) == Err(Thrown(BadOrderBy))
    ensures ErrorHandler.Handle(Browse(st, now, q).error, cfg).code == 500
  {
  }

  /** `has_more` says that the next page has rows, for any ordered rows. */
  lemma PageHasMore(rows: seq<Joined>, k: int, per: int, now: int)
    requires k >= 1 && per >= 1
    ensures PageOf(rows, k, per, now).hasMore <==> |PageOf(rows, k + 1, per, now).agents| > 0
  {
    assert (k + 1 - 1) * per == k * per;
  }

  /** A page text that reads as `k >= 1` gives page `k` with the page size of `perPage`. */
  lemma PagingAt(page: Option<string>, perPage: Option<string>, k: int)
    requires k >= 1 && ParseIntOr(page, 1) == Some(k) && PageSize(perPage).Some?
    ensures BrowsePaging(page, perPage) == Some((k, PageSize(perPage).value))
  {
  }

  /** Asking for the next page, `page=${k + 1}` after `page=${k}` or any page texts that read as
      those numbers, returns rows exactly when page k reported more. */
  lemma HasMoreMeansNextPage(st: State, now: int, q: BrowseQuery, next: BrowseQuery, k: int)
    requires k >= 1 && ParseIntOr(q.page, 1) == Some(k) && ParseIntOr(next.page, 1) == Some(k + 1)
    requires next.filter == q.filter && next.perPage == q.perPage && PageSize(q.perPage).Some?
    requires !OrderBroken(q.filter.sort)
    ensures Browse(st, now, next).Ok? &&
            (Browse(st, now, q).value.hasMore <==> |Browse(st, now, next).value.agents| > 0)
  {
    var per := PageSize(q.perPage).value;
    PagingAt(q.page, q.perPage, k);
    PagingAt(next.page, next.perPage, k + 1);
    BrowseAt(st, now, q, k, per);
    BrowseAt(st, now, next, k + 1, per);
    PageHasMore(BrowseRows(Join(st, st.profiles), now, q.filter), k, per, now);
  }

  /** With the paging read as `(page, per)`, browse answers that page of the ordered rows. */
  lemma BrowseAt(st: State, now: int, q: BrowseQuery, page: int, per: int)
    requires BrowsePaging(q.page, q.perPage) == Some((page, per)) && !OrderBroken(q.filter.sort)
    ensures Browse(st, now, q) == Ok(PageOf(BrowseRows(Join(st, st.profiles), now, q.filter), page, per, now))
  {
  }

  // ---------------------------------------------------------------- featured

  /** `Math.min(10, parseInt(limit || '6'))`; None when it is NaN. */
  const MaxFeatured: int := 10
  const DefaultFeatured: nat := 6

  function FeaturedLimit(limit: Option<string>): (r: Option<int>)
    ensures r.Some? <==> ParseIntOr(limit, DefaultFeatured).Some?
    ensures r.Some? ==> r.value <= MaxFeatured
    ensures r.Some? && ParseIntOr(limit, DefaultFeatured).value <= MaxFeatured ==>
              r.value == ParseIntOr(limit, DefaultFeatured).value
    ensures !Truthy(limit) ==> r == Some(DefaultFeatured as int)
  {
    match ParseIntOr(limit, DefaultFeatured)
    case None => None
    case Some(n) => Some(if n < MaxFeatured then n else MaxFeatured)
  }

  function IsListed(j: Joined): bool {
    j.profile.isListed
  }

  /** The listed rows, verified first, each group most recently updated first, the first `n` of
      them (a negative `n` does not cut, as with SQLite's `LIMIT`): no listed row left out ranks
      above one featured. */
  function FeaturedRows(rows: seq<Joined>, n: int): (r: seq<Joined>)
    ensures |r| == if 0 <= n < Table.Count(rows, IsListed) then n else Table.Count(rows, IsListed)
    ensures multiset(r) <= multiset(Table.Filter(rows, IsListed))
    ensures Table.NoneAboveGrouped(r, rows, IsListed, IsVerified, LastUpdated)
    ensures Table.AllKept(r, rows, IsListed)
    ensures Table.FlaggedFirst(r, IsVerified) && Table.DescWithin(r, IsVerified, LastUpdated)
    ensures n < 0 || Table.Count(rows, IsListed) <= n ==>
              forall i :: 0 <= i < |rows| && IsListed(rows[i]) ==> rows[i] in r
  {
    Table.TopGroupedBy(rows, IsListed, IsVerified, LastUpdated, n)
  }

  /** One profile as the featured list shows it. */
  datatype FeaturedRow = FeaturedRow(agentId: string, displayName: string, tagline: Option<string>,
                                     avatarUrl: Option<string>, skills: seq<SkillLevel>, isVerified: bool,
                                     isOnline: bool)

  function FeaturedRowOf(j: Joined, now: int): FeaturedRow {
    FeaturedRow(j.profile.agentId, j.profile.displayName, j.profile.tagline, j.profile.avatarUrl,
                j.profile.primarySkills, j.profile.isVerified, Online(j, now))
  }

  /** The rows as the featured list shows them, in the same order. */
  function Shown(rows: seq<Joined>, now: int): (r: seq<FeaturedRow>)
    ensures |r| == |rows| && forall i :: 0 <= i < |rows| ==> r[i] == FeaturedRowOf(rows[i], now)
  {
    seq(|rows|, i requires 0 <= i < |rows| => FeaturedRowOf(rows[i], now))
  }

  /** `GET /agents/featured`: a NaN limit fails; otherwise the featured rows, shown. */
  function Featured(st: State, now: int, limit: Option<string>): (r: Result<seq<FeaturedRow>, Failure>)
    ensures r.Ok? <==> FeaturedLimit(limit).Some?
    ensures r.Err? ==> r.error == Thrown(UnboundNumber)
    ensures r.Ok? ==> r.value == Shown(FeaturedRows(Join(st, st.profiles), FeaturedLimit(limit).value), now)
  {
    match FeaturedLimit(limit)
    case None => Err(Thrown(UnboundNumber))
    case Some(n) => Ok(Shown(FeaturedRows(Join(st, st.profiles), n), now))
  }

  /** The featured list is capped at ten rows for every limit that parses to zero or more, and
      shows no more than six when no limit is given. */
  lemma FeaturedCapped(st: State, now: int, limit: Option<string>)
    requires Featured(st, now, limit).Ok? && FeaturedLimit(limit).value >= 0
    ensures |Featured(st, now, limit).value| <= MaxFeatured
    ensures !Truthy(limit) ==> |Featured(st, now, limit).value| <= DefaultFeatured
  {
  }

  /** Without a cut every listed row is shown. */
  lemma UncutShowsAll(rows: seq<Joined>, now: int)
    ensures forall i :: 0 <= i < |rows| && rows[i].profile.isListed ==>
              FeaturedRowOf(rows[i], now) in Shown(FeaturedRows(rows, -1), now)
  {
    var top := FeaturedRows(rows, -1);
    forall i | 0 <= i < |rows| && rows[i].profile.isListed
      ensures FeaturedRowOf(rows[i], now) in Shown(top, now)
    {
      assert IsListed(rows[i]);
      assert rows[i] in top;
      var k :| 0 <= k < |top| && top[k] == rows[i];
      assert Shown(top, now)[k] == FeaturedRowOf(top[k], now);
    }
  }

  /** `?limit=-1` reads as -1, below the cap. */
  lemma MinusOne()
    ensures FeaturedLimit(Some("-1")) == Some(-1)
  {
    NegativeOneReads();
    assert Truthy(Some("-1"));
    assert ParseIntOr(Some("-1"), DefaultFeatured) == Some(-1);
  }

  /** The cap only holds from above: a limit that parses negative (`?limit=-1`) is passed to
      `LIMIT` as is, and every listed profile is featured. */
  lemma NegativeLimitFeaturesAll(st: State, now: int)
    ensures var r := Featured(st, now, Some("-1"));
            r.Ok? && forall i :: 0 <= i < |Join(st, st.profiles)| && Join(st, st.profiles)[i].profile.isListed ==>
                       FeaturedRowOf(Join(st, st.profiles)[i], now) in r.value
  {
    MinusOne();
    UncutShowsAll(Join(st, st.profiles), now);
  }

  // ---------------------------------------------------------------- public card

  /** Whole days between joining and now, rounded down (`Math.floor`). */
  function MemberDays(createdAt: int, now: int): (r: int)
    ensures r * Clock.MsPerDay <= now - createdAt < (r + 1) * Clock.MsPerDay
  {
    (now - createdAt) / Clock.MsPerDay
  }

  /** The public card of `GET /agents/:id/card`. JSON-only parts (featured work, the verification
      columns, the profile link) are not modelled. */
  datatype CardView = CardView(profile: Profile, memberSince: nat, memberDays: int, hasStripe: bool,
                               a2aUrl: Option<string>, isOnline: bool, lastSeen: Option<nat>, platformFee: string,
                               stats: AgentStats, skillsInstalled: int)

  function CardViewOf(st: State, j: Joined, now: int): CardView {
    CardView(j.profile, j.agent.createdAt, MemberDays(j.agent.createdAt, now), Truthy(j.agent.stripeAccountId),
             if j.card.Some? then Some(j.card.value.a2aUrl) else None, Online(j, now),
             if j.card.Some? then Some(j.card.value.lastSeen) else None, "1%",
             ComputeStats(st, j.profile.agentId), j.profile.openclawSkillsCount)
  }

  /** `GET /agents/:id/card`: 404 unless the agent has a profile and exists; otherwise its first
      profile with the agent's record, card and live stats. All joined rows for one id share the
      agent, so the first row of the query is the first profile. */
  function PublicCard(st: State, now: int, agentId: string): (r: Result<CardView, Failure>)
    ensures r.Err? <==> OwnProfile(st, agentId).None? || FindAgent(st, agentId).None?
    ensures r.Err? ==> r.error == HttpError(404, NoPublicProfile)
  {
    match (OwnProfile(st, agentId), FindAgent(st, agentId))
    case (Some(p), Some(a)) => Ok(CardViewOf(st, Joined(p, a, Discovery.CardOf(st, agentId)), now))
    case _ => Err(HttpError(404, NoPublicProfile))
  }

  /** A found card shows the agent's own profile, its registration date and age in whole days,
      whether it can be paid, its live stats and its installed skill count. */
  lemma PublicCardRecord(st: State, now: int, agentId: string)
    requires PublicCard(st, now, agentId).Ok?
    ensures var v := PublicCard(st, now, agentId).value;
            v.profile in st.profiles && v.profile.agentId == agentId && FindAgent(st, agentId).Some? &&
            var a := FindAgent(st, agentId).value;
            v.memberSince == a.createdAt && v.memberDays == MemberDays(a.createdAt, now) &&
            (v.hasStripe <==> Truthy(a.stripeAccountId)) &&
            v.stats == ComputeStats(st, agentId) && v.skillsInstalled == v.profile.openclawSkillsCount
  {
  }

  /** The card's age is the whole number of days since the agent registered. */
  lemma PublicCardAge(st: State, now: int, agentId: string)
    requires PublicCard(st, now, agentId).Ok?
    ensures var v := PublicCard(st, now, agentId).value;
            var since := FindAgent(st, agentId).value.createdAt;
            v.memberDays * Clock.MsPerDay <= now - since < (v.memberDays + 1) * Clock.MsPerDay
  {
    PublicCardRecord(st, now, agentId);
    var v := PublicCard(st, now, agentId).value;
    var since := FindAgent(st, agentId).value.createdAt;
    assert v.memberDays == MemberDays(since, now);
  }

  /** A found card gives the agent's endpoint when it has registered a card, and reports it online
      when that card is available and was seen within the last ten minutes. */
  lemma PublicCardPresence(st: State, now: int, agentId: string)
    requires PublicCard(st, now, agentId).Ok?
    ensures var v := PublicCard(st, now, agentId).value;
            var c := Discovery.CardOf(st, agentId);
            (v.a2aUrl.Some? <==> c.Some?) && (c.Some? ==> v.a2aUrl == Some(c.value.a2aUrl)) &&
            (v.isOnline <==> c.Some? && c.value.isAvailable && Discovery.SeenRecently(c.value.lastSeen, now))
  {
  }

  /** The card is built from a row of the listing join, so it shows what browse and featured
      would show for that profile. */
  lemma PublicCardIsJoinRow(st: State, now: int, agentId: string)
    requires PublicCard(st, now, agentId).Ok?
    ensures var v := PublicCard(st, now, agentId).value;
            Joined(v.profile, FindAgent(st, agentId).value, Discovery.CardOf(st, agentId)) in Join(st, st.profiles)
  {
    var p := OwnProfile(st, agentId).value;
    var i :| 0 <= i < |st.profiles| && st.profiles[i] == p;
    assert FindAgent(st, st.profiles[i].agentId).Some?;
  }

  /** The card's stats are what the stats route reports for the same agent, and its fee is the
      platform's displayed fee while the configured percentage is one. */
  lemma PublicCardAgrees(st: State, now: int, agentId: string)
    requires PublicCard(st, now, agentId).Ok?
    ensures Stats(st, agentId) == Ok(PublicCard(st, now, agentId).value.stats)
    ensures PublicCard(st, now, agentId).value.platformFee == Site.FeeDisplay()
  {
    Site.FeeDisplayText();
  }
}
