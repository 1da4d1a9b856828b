/** The append-only audit log: one entry per recorded action, and its three read projections
    (a task's trail, an agent's history, and the per-action histogram). */
module Audit {
  import opened Wrappers
  import opened Types
  import opened Store
  import Table
  import Clock

  /** `logAudit`: the entry built from the input and the request instant. Absent details are
      stored as `{}`, and an absent or empty IP address as NULL. */
  function Entry(now: nat, taskId: string, action: AuditAction, actor: string, actorType: ActorType,
                 details: Option<Details>, ip: Option<string>): (e: AuditEntry)
    ensures e.taskId == taskId && e.action == action && e.actor == actor && e.actorType == actorType
    ensures e.timestamp == now
    ensures details.None? ==> e.details == map[]
    ensures details.Some? ==> e.details == details.value
    ensures e.ipAddress.Some? <==> Truthy(ip)
    ensures e.ipAddress.Some? ==> e.ipAddress == ip
  {
    AuditEntry(taskId, action, actor, actorType, details.GetOr(map[]),
               if Truthy(ip) then ip else None, now)
  }

  /** Appends exactly one entry and leaves every earlier entry and every other table as it was. */
  function Log(st: State, now: nat, taskId: string, action: AuditAction, actor: string,
               actorType: ActorType, details: Option<Details>, ip: Option<string>): (r: State)
    ensures r == st.(audit := r.audit)
    ensures |r.audit| == |st.audit| + 1 && r.audit[..|st.audit|] == st.audit
    ensures r.audit[|st.audit|] == Entry(now, taskId, action, actor, actorType, details, ip)
  {
    st.(audit := st.audit + [Entry(now, taskId, action, actor, actorType, details, ip)])
  }

  /** An entry the platform itself records: actor `system`, actor type `platform`, no IP. */
  function LogSystem(st: State, now: nat, taskId: string, action: AuditAction, details: Details): (r: State)
    ensures r == st.(audit := r.audit)
    ensures r.audit == st.audit + [AuditEntry(taskId, action, "system", PlatformActor, details, None, now)]
  {
    Log(st, now, taskId, action, "system", PlatformActor, Some(details), None)
  }

  /** A log that extends `log + [e]` keeps `log` and has `e` right after it. */
  lemma KeptAfter(log: seq<AuditEntry>, e: AuditEntry, later: seq<AuditEntry>)
    requires |later| >= |log| + 1 && later[..|log| + 1] == log + [e]
    ensures |later| > |log| && later[..|log|] == log && later[|log|] == e
  {
    assert later[..|log|] == (log + [e])[..|log|];
  }

  /** An entry appended to a log that extends `log` by `k` entries leaves `log` in front and
      itself last. */
  lemma AppendedAfter(log: seq<AuditEntry>, mid: seq<AuditEntry>, k: nat, e: AuditEntry)
    requires |mid| == |log| + k && mid[..|log|] == log
    ensures |mid + [e]| == |log| + k + 1 && (mid + [e])[..|log|] == log && (mid + [e])[|mid|] == e
  {
    assert (mid + [e])[..|log|] == mid[..|log|];
  }

  /** Appending an entry and then more entries appends them all at once. */
  lemma AppendAfter(log: seq<AuditEntry>, first: AuditEntry, rest: seq<AuditEntry>)
    ensures (log + [first]) + rest == log + ([first] + rest)
  {
  }

  /** Appending two entries one after the other appends the pair. */
  lemma AppendTwo(log: seq<AuditEntry>, first: AuditEntry, second: AuditEntry)
    ensures log + [first] + [second] == log + [first, second]
  {
  }

  function Timestamp(e: AuditEntry): int {
    e.timestamp
  }

  /** `WHERE task_id = ?`. */
  function OfTask(taskId: string): AuditEntry -> bool {
    (e: AuditEntry) => e.taskId == taskId
  }

  /** `WHERE actor = ?`. */
  function ByActor(agentId: string): AuditEntry -> bool {
    (e: AuditEntry) => e.actor == agentId
  }

  /** The condition as a value selects exactly the agent's entries. */
  lemma ByActorMeans(agentId: string)
    ensures forall e :: ByActor(agentId)(e) <==> e.actor == agentId
  {
  }

  /** `getAuditTrail`: the entries of one task, oldest first: a reordering of exactly the task's
      entries in the log. */
  function AuditTrail(log: seq<AuditEntry>, taskId: string): (r: seq<AuditEntry>)
    ensures Table.SortedBy(r, Timestamp)
    ensures forall i :: 0 <= i < |r| ==> r[i] in log && r[i].taskId == taskId
    ensures forall i :: 0 <= i < |log| && log[i].taskId == taskId ==> log[i] in r
    ensures multiset(r) == multiset(Table.Filter(log, OfTask(taskId)))
  {
    Table.SortBy(Table.Filter(log, OfTask(taskId)), Timestamp)
  }

  /** `getAgentAuditHistory`: the entries an agent performed, newest first, the newest `limit` of
      them (the caller's default is 100; SQLite treats a negative limit as none). */
  function AgentHistory(log: seq<AuditEntry>, agentId: string, limit: int): (r: seq<AuditEntry>)
    ensures forall i, j :: 0 <= i < j < |r| ==> r[i].timestamp >= r[j].timestamp
    ensures forall i :: 0 <= i < |r| ==> r[i] in log && r[i].actor == agentId
    ensures |r| == if 0 <= limit < Table.Count(log, ByActor(agentId)) then limit else Table.Count(log, ByActor(agentId))
    ensures multiset(r) <= multiset(Table.Filter(log, ByActor(agentId)))
    ensures Table.NoneAboveBy(r, log, ByActor(agentId), Timestamp)
  {
    ByActorMeans(agentId);
    Table.TopBy(log, ByActor(agentId), Timestamp, limit)
  }

  /** The history holds no entry more often than the log does; none of the agent's entries left
      out is newer than one kept; and when the limit does not cut, every one of the agent's
      entries is there. */
  lemma AgentHistoryKeeps(log: seq<AuditEntry>, agentId: string, limit: int)
    ensures multiset(AgentHistory(log, agentId, limit)) <= multiset(log)
    ensures var h := AgentHistory(log, agentId, limit);
            forall i, j :: 0 <= i < |log| && 0 <= j < |h| && log[i].actor == agentId && log[i] !in h ==>
              log[i].timestamp <= h[j].timestamp
    ensures limit < 0 || Table.Count(log, ByActor(agentId)) <= limit ==>
              forall i :: 0 <= i < |log| && log[i].actor == agentId ==> log[i] in AgentHistory(log, agentId, limit)
  {
    var h := AgentHistory(log, agentId, limit);
    var p := ByActor(agentId);
    assert Table.NoneAboveBy(h, log, p, Timestamp);
    forall i, j | 0 <= i < |log| && 0 <= j < |h| && log[i].actor == agentId && log[i] !in h
      ensures log[i].timestamp <= h[j].timestamp
    {
      assert p(log[i]);
    }
    forall i | 0 <= i < |log| && log[i].actor == agentId && (limit < 0 || Table.Count(log, p) <= limit)
      ensures log[i] in h
    {
      assert p(log[i]);
    }
  }

  /** How many entries of `xs` record `a` after the instant `since`. */
  function CountSince(xs: seq<AuditEntry>, a: AuditAction, since: int): nat {
    if |xs| == 0 then 0
    else (if xs[0].action == a && xs[0].timestamp > since then 1 else 0) + CountSince(xs[1..], a, since)
  }

  /** An action is counted exactly when some entry records it after `since`. */
  lemma {:induction false} CountSincePositive(xs: seq<AuditEntry>, a: AuditAction, since: int)
    ensures CountSince(xs, a, since) > 0 <==>
            exists i :: 0 <= i < |xs| && xs[i].action == a && xs[i].timestamp > since
  {
    if |xs| > 0 {
      CountSincePositive(xs[1..], a, since);
      if exists i :: 0 <= i < |xs| && xs[i].action == a && xs[i].timestamp > since {
        var i :| 0 <= i < |xs| && xs[i].action == a && xs[i].timestamp > since;
        if i > 0 {
          assert xs[1..][i - 1] == xs[i];
        }
      }
      if exists j :: 0 <= j < |xs| - 1 && xs[1..][j].action == a && xs[1..][j].timestamp > since {
        var j :| 0 <= j < |xs| - 1 && xs[1..][j].action == a && xs[1..][j].timestamp > since;
        assert xs[j + 1] == xs[1..][j];
      }
    }
  }

  /** The histogram of actions recorded after `since`: an action with no such entry is absent. */
  function Histogram(xs: seq<AuditEntry>, since: int): (r: map<AuditAction, nat>)
    ensures forall a :: a in r <==> CountSince(xs, a, since) > 0
    ensures forall a :: a in r ==> r[a] == CountSince(xs, a, since)
  {
    if |xs| == 0 then map[]
    else
      var h := Histogram(xs[1..], since);
      var a := xs[0].action;
      if xs[0].timestamp > since then h[a := (if a in h then h[a] else 0) + 1] else h
  }

  /** `getActionStats`: the count per action over the last `hours` hours (the caller's default is
      24), taking only entries strictly after the cut-off. */
  function ActionStats(log: seq<AuditEntry>, now: int, hours: int): (r: map<AuditAction, nat>)
    ensures forall a :: a in r <==>
              exists i :: 0 <= i < |log| && log[i].action == a && log[i].timestamp > now - hours * Clock.MsPerHour
    ensures forall a :: a in r ==> r[a] == CountSince(log, a, now - hours * Clock.MsPerHour)
  {
    var since := now - hours * Clock.MsPerHour;
    forall a: AuditAction
      ensures CountSince(log, a, since) > 0 <==>
              exists i :: 0 <= i < |log| && log[i].action == a && log[i].timestamp > since
    {
      CountSincePositive(log, a, since);
    }
    Histogram(log, since)
  }

  /** Logging an entry of one task leaves every other task's trail as it was. */
  lemma TrailUnaffected(log: seq<AuditEntry>, e: AuditEntry, other: string)
    requires e.taskId != other
    ensures AuditTrail(log + [e], other) == AuditTrail(log, other)
  {
    var p := OfTask(other);
    Table.FilterAppend(log, [e], p);
    assert Table.Filter([e], p) == [];
    assert Table.Filter(log + [e], p) == Table.Filter(log, p);
  }
}
