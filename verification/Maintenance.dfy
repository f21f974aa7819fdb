/** Lease maintenance: workers that stopped reporting, and tasks whose lease ran out. Stored times are texts, compared
    as texts (module Timestamps says why that is time order). */
module Maintenance {
  import opened Options
  import opened Sorting
  import opened Text
  import Timestamps

  datatype AgentStatus = Online | Busy | Offline
  datatype Agent = Agent(id: int, status: AgentStatus, lastHeartbeat: Option<string>)

  datatype TaskStatus = Pending | Running | Succeeded | Failed | Cancelled

  datatype Task = Task(
    id: string, tenant: string, status: TaskStatus, agent: Option<int>, attempt: Option<string>,
    delivered: Option<string>, lease: Option<string>, leaseHeartbeat: Option<string>, ack: Option<string>,
    retries: nat, error: Option<string>, result: Option<string>, response: Option<string>,
    created: string, updated: string)

  datatype Transition = Transition(id: string, tenant: string, status: TaskStatus, retries: nat)

  const EXPIRED := "task lease expired after the configured retry limit"
  const EXPIRED_RESULT := "{\"duration_s\":0,\"logs\":\"" + EXPIRED + "\",\"output\":{}}"

  // ---------- Stale agents ----------

  predicate IsStale(a: Agent, cutoff: string)
  {
    !a.status.Offline? && a.lastHeartbeat.Some? && LexLessEq(a.lastHeartbeat.value, cutoff)
  }

  predicate AssignedTo(t: Task, ids: seq<int>)
  {
    t.status.Running? && t.agent.Some? && t.agent.value in ids
  }

  function StaleIds(agents: seq<Agent>, cutoff: string): seq<int>
  {
    if agents == [] then []
    else
      var a := agents[|agents| - 1];
      StaleIds(agents[..|agents| - 1], cutoff) + (if IsStale(a, cutoff) then [a.id] else [])
  }

  function Retired(agents: seq<Agent>, ids: seq<int>): seq<Agent>
  {
    seq(|agents|, i requires 0 <= i < |agents| => if agents[i].id in ids then agents[i].(status := Offline) else agents[i])
  }

  /** A stale worker's claims expire now, so that the same pass can reap them. */
  function Released(tasks: seq<Task>, ids: seq<int>, now: string): seq<Task>
  {
    seq(|tasks|, i requires 0 <= i < |tasks| =>
      if AssignedTo(tasks[i], ids) then tasks[i].(lease := Some(now), updated := now) else tasks[i])
  }

  // ---------- Expired leases ----------

  predicate IsExpired(t: Task, now: string)
  {
    t.status.Running? && (t.lease.None? || LexLessEq(t.lease.value, now))
  }

  /** What one expiry does to a task: back to the queue with one more retry, or failed for good. */
  function Reaped(t: Task, now: string, maxRetries: nat): Task
  {
    if t.retries < maxRetries then
      t.(status := Pending, agent := None, delivered := None, attempt := None, lease := None, leaseHeartbeat := None,
         ack := None, retries := t.retries + 1, error := None, updated := now)
    else
      t.(status := Failed, result := Some(EXPIRED_RESULT), error := Some(EXPIRED), lease := None, leaseHeartbeat := None,
         response := Some(now), updated := now)
  }

  /** What the update for `row` makes of a task. */
  function Updated(t: Task, row: Task, now: string, maxRetries: nat): Task
  {
    if t.id == row.id && IsExpired(t, now) then Reaped(t.(retries := row.retries), now, maxRetries) else t
  }

  function TransitionOf(t: Task, now: string, maxRetries: nat): Transition
  {
    var r := Reaped(t, now, maxRetries);
    Transition(t.id, t.tenant, r.status, r.retries)
  }

  predicate OlderFirst(a: Task, b: Task)
  {
    LexLess(a.created, b.created) || (a.created == b.created && LexLess(a.id, b.id))
  }

  /** The rows the reaper selects, oldest first. */
  function ExpiredRows(tasks: seq<Task>, now: string): seq<Task>
  {
    Sort(Filter(tasks, (t: Task) => IsExpired(t, now)), OlderFirst)
  }

  function ReapAll(tasks: seq<Task>, now: string, maxRetries: nat): seq<Task>
  {
    seq(|tasks|, i requires 0 <= i < |tasks| =>
      if IsExpired(tasks[i], now) then Reaped(tasks[i], now, maxRetries) else tasks[i])
  }

  function Transitions(rows: seq<Task>, now: string, maxRetries: nat): seq<Transition>
  {
    seq(|rows|, i requires 0 <= i < |rows| => TransitionOf(rows[i], now, maxRetries))
  }

  ghost predicate DistinctIds(tasks: seq<Task>)
  {
    forall i, j :: 0 <= i < j < |tasks| ==> tasks[i].id != tasks[j].id
  }

  lemma OlderFirstStrictWeak()
    ensures StrictWeak(OlderFirst)
  {
    forall x: Task, y: Task | OlderFirst(x, y)
      ensures !OlderFirst(y, x)
    {
      TextAsymmetric(x.created, y.created);
      TextAsymmetric(x.id, y.id);
    }
    forall x: Task, y: Task, z: Task | !OlderFirst(x, y) && !OlderFirst(y, z)
      ensures !OlderFirst(x, z)
    {
      TextChain(x.created, y.created, z.created);
      TextChain(x.id, y.id, z.id);
    }
  }

  lemma TextAsymmetric(x: string, y: string)
    ensures !(LexLess(x, y) && LexLess(y, x)) && !LexLess(x, x)
  {
    LexIrreflexive(x);
    if LexLess(x, y) && LexLess(y, x) { LexTransitive(x, y, x); }
  }

  /** If neither step of a chain goes up, the chain goes down or stays. */
  lemma TextChain(x: string, y: string, z: string)
    ensures !LexLess(x, y) && !LexLess(y, z) ==> !LexLess(x, z) && (x == z ==> x == y)
    ensures !LexLess(x, y) ==> x == y || LexLess(y, x)
    ensures !LexLess(y, z) ==> y == z || LexLess(z, y)
    ensures LexLess(y, x) ==> x != y && !LexLess(x, y)
    ensures LexLess(y, x) && LexLess(z, y) ==> LexLess(z, x)
    ensures LexLess(z, x) ==> x != z && !LexLess(x, z)
  {
    LexTotal(x, y);
    LexTotal(y, z);
    TextAsymmetric(x, y);
    TextAsymmetric(y, z);
    TextAsymmetric(x, z);
    if LexLess(y, x) && LexLess(z, y) { LexTransitive(z, y, x); }
  }

  lemma ExpiredRowsAre(tasks: seq<Task>, now: string)
    requires DistinctIds(tasks)
    ensures forall t :: t in ExpiredRows(tasks, now) <==> t in tasks && IsExpired(t, now)
    ensures Distinct(ExpiredRows(tasks, now)) && Sorted(ExpiredRows(tasks, now), OlderFirst)
  {
    var p := (t: Task) => IsExpired(t, now);
    var found := Filter(tasks, p);
    SortPermutes(found, OlderFirst);
    SameMembers(ExpiredRows(tasks, now), found);
    forall t
      ensures t in found <==> t in tasks && IsExpired(t, now)
    {
      FilterMember(tasks, p, t);
    }
    FilterDistinct(tasks, p);
    DistinctPermutes(found, ExpiredRows(tasks, now));
    OlderFirstStrictWeak();
    SortSorted(found, OlderFirst);
  }

  // ---------- What the transactions do, row by row ----------

  /** Not offline, and silent since the cutoff or longer; an agent that never reported is left alone. */
  predicate Silent(a: Agent, cutoff: string)
  {
    a.status != Offline && a.lastHeartbeat != None && (a.lastHeartbeat.value == cutoff || LexLess(a.lastHeartbeat.value, cutoff))
  }

  /** Some silent agent has that number. */
  predicate SilentId(agents: seq<Agent>, id: int, cutoff: string)
  {
    exists j :: 0 <= j < |agents| && agents[j].id == id && Silent(agents[j], cutoff)
  }

  /** Exactly the silent agents are named and taken offline. */
  ghost predicate TakenOffline(agents: seq<Agent>, agents': seq<Agent>, ids: seq<int>, cutoff: string)
  {
    && (forall id :: id in ids <==> SilentId(agents, id, cutoff))
    && |agents'| == |agents|
    && forall i :: 0 <= i < |agents| ==>
         if SilentId(agents, agents[i].id, cutoff) then agents'[i] == Agent(agents[i].id, Offline, agents[i].lastHeartbeat)
         else agents'[i] == agents[i]
  }

  /** Exactly the running tasks of the named agents have their lease end now. */
  ghost predicate LeasesCut(tasks: seq<Task>, tasks': seq<Task>, ids: seq<int>, now: string)
  {
    && |tasks'| == |tasks|
    && forall i :: 0 <= i < |tasks| ==>
         if tasks[i].status == Running && tasks[i].agent != None && tasks[i].agent.value in ids
         then tasks'[i] == tasks[i].(lease := Some(now), updated := now)
         else tasks'[i] == tasks[i]
  }

  lemma ExpireIsExact(agents: seq<Agent>, tasks: seq<Task>, now: string, cutoff: string)
    ensures var ids := StaleIds(agents, cutoff);
      TakenOffline(agents, Retired(agents, ids), ids, cutoff) && LeasesCut(tasks, Released(tasks, ids, now), ids, now)
  {
    forall id
      ensures id in StaleIds(agents, cutoff) <==> SilentId(agents, id, cutoff)
    {
      StaleIdsAre(agents, cutoff, id);
    }
  }

  /** With agents told apart by their numbers, and times written as texts: an agent is taken offline if and only if it is
      not offline and its last heartbeat is not after the cutoff. */
  lemma StaleIsByTime(agents: seq<Agent>, i: nat, ids: seq<int>, agents': seq<Agent>, beat: Timestamps.DateTime, cutoff: Timestamps.DateTime)
    requires i < |agents| && (forall j, k :: 0 <= j < k < |agents| ==> agents[j].id != agents[k].id)
    requires Timestamps.Valid(beat) && Timestamps.Valid(cutoff) && agents[i].lastHeartbeat == Some(Timestamps.TaskText(beat))
    requires TakenOffline(agents, agents', ids, Timestamps.TaskText(cutoff))
    ensures agents[i].id in ids <==> agents[i].status != Offline && Timestamps.Instant(beat) <= Timestamps.Instant(cutoff)
    ensures agents'[i].status == if agents[i].id in ids then Offline else agents[i].status
  {
    Timestamps.TaskTextOrder(beat, cutoff);
    assert SilentId(agents, agents[i].id, Timestamps.TaskText(cutoff)) <==> Silent(agents[i], Timestamps.TaskText(cutoff));
  }

  lemma NeverReportedIsSpared(agents: seq<Agent>, i: nat, ids: seq<int>, agents': seq<Agent>, cutoff: string)
    requires i < |agents| && (forall j, k :: 0 <= j < k < |agents| ==> agents[j].id != agents[k].id)
    requires agents[i].lastHeartbeat == None && TakenOffline(agents, agents', ids, cutoff)
    ensures agents[i].id !in ids && agents'[i] == agents[i]
  {
    assert !SilentId(agents, agents[i].id, cutoff);
  }

  /** Running without a lease, or with one that ends now or before. */
  predicate RanOut(t: Task, now: string)
  {
    t.status == Running && (t.lease == None || t.lease.value == now || LexLess(t.lease.value, now))
  }

  /** A task whose lease ran out goes back to the queue with nothing left of its attempt and one more retry, or, after the
      last retry, has failed with the expiry as its result; any other task is as it was. */
  ghost predicate ReapedAs(t: Task, t': Task, now: string, maxRetries: nat)
  {
    if !RanOut(t, now) then t' == t
    else if t.retries < maxRetries then
      t' == Task(t.id, t.tenant, Pending, None, None, None, None, None, None, t.retries + 1, None, t.result, t.response, t.created, now)
    else
      t' == Task(t.id, t.tenant, Failed, t.agent, t.attempt, t.delivered, None, None, t.ack, t.retries, Some(EXPIRED),
                 Some("{\"duration_s\":0,\"logs\":\"" + EXPIRED + "\",\"output\":{}}"), Some(now), t.created, now)
  }

  ghost predicate AllReaped(tasks: seq<Task>, tasks': seq<Task>, now: string, maxRetries: nat)
  {
    |tasks'| == |tasks| && forall i :: 0 <= i < |tasks| ==> ReapedAs(tasks[i], tasks'[i], now, maxRetries)
  }

  lemma ReapsEach(tasks: seq<Task>, now: string, maxRetries: nat)
    ensures AllReaped(tasks, ReapAll(tasks, now, maxRetries), now, maxRetries)
  {
  }

  /** The transitions, oldest task first: by time of creation, then by id. */
  lemma OldestFirst(tasks: seq<Task>, now: string, j: nat, k: nat)
    requires DistinctIds(tasks) && j < k < |ExpiredRows(tasks, now)|
    ensures var (a, b) := (ExpiredRows(tasks, now)[j], ExpiredRows(tasks, now)[k]);
      LexLess(a.created, b.created) || (a.created == b.created && LexLess(a.id, b.id))
  {
    var rows := ExpiredRows(tasks, now);
    ExpiredRowsAre(tasks, now);
    assert rows[j] in rows && rows[k] in rows && rows[j] != rows[k];
    IdsDiffer(tasks, rows[j], rows[k]);
    LexTotal(rows[j].created, rows[k].created);
    LexTotal(rows[j].id, rows[k].id);
  }

  lemma IdsDiffer(tasks: seq<Task>, a: Task, b: Task)
    requires DistinctIds(tasks) && a in tasks && b in tasks && a != b
    ensures a.id != b.id
  {
    var i :| 0 <= i < |tasks| && tasks[i] == a;
    var j :| 0 <= j < |tasks| && tasks[j] == b;
    assert i != j;
  }

  class Store {
    var agents: seq<Agent>
    var tasks: seq<Task>

    constructor (agents: seq<Agent>, tasks: seq<Task>)
      ensures this.agents == agents && this.tasks == tasks
    {
      this.agents, this.tasks := agents, tasks;
    }

    /** `expire_stale_agents`. */
    method ExpireStaleAgents(now: string, cutoff: string) returns (ids: seq<int>)
      modifies this
      ensures ids == StaleIds(old(agents), cutoff)
      ensures agents == Retired(old(agents), ids) && tasks == Released(old(tasks), ids, now)
      ensures TakenOffline(old(agents), agents, ids, cutoff) && LeasesCut(old(tasks), tasks, ids, now)
    {
      ExpireIsExact(agents, tasks, now, cutoff);
      ids := [];
      var i := 0;
      while i < |agents|
        invariant 0 <= i <= |agents| && ids == StaleIds(agents[..i], cutoff)
      {
        assert agents[..i + 1][..i] == agents[..i];
        if IsStale(agents[i], cutoff) { ids := ids + [agents[i].id]; }
        i := i + 1;
      }
      assert agents[..i] == agents;
      agents := Retired(agents, ids);
      tasks := Released(tasks, ids, now);
    }

    /** `UPDATE tasks ... WHERE id=? AND status='running' AND lease expired`. */
    method ReapOne(row: Task, now: string, maxRetries: nat)
      requires DistinctIds(tasks)
      modifies this`tasks
      ensures |tasks| == |old(tasks)| && forall i :: 0 <= i < |tasks| ==> tasks[i] == Updated(old(tasks)[i], row, now, maxRetries)
    {
      var i := 0;
      while i < |tasks|
        invariant 0 <= i <= |tasks| == |old(tasks)|
        invariant forall j :: 0 <= j < |tasks| ==>
          tasks[j] == if j < i then Updated(old(tasks)[j], row, now, maxRetries) else old(tasks)[j]
      {
        if tasks[i].id == row.id && IsExpired(tasks[i], now) {
          tasks := tasks[i := Reaped(tasks[i].(retries := row.retries), now, maxRetries)];
        }
        i := i + 1;
      }
    }

    /** `reap_expired_tasks`: every expired task exactly once, oldest first, and a transition for each. */
    method ReapExpiredTasks(now: string, maxRetries: nat) returns (transitions: seq<Transition>)
      requires DistinctIds(tasks)
      modifies this`tasks
      ensures tasks == ReapAll(old(tasks), now, maxRetries)
      ensures transitions == Transitions(ExpiredRows(old(tasks), now), now, maxRetries)
      ensures AllReaped(old(tasks), tasks, now, maxRetries)
    {
      ReapsEach(tasks, now, maxRetries);
      ghost var was := tasks;
      var rows := ExpiredRows(tasks, now);
      ExpiredRowsAre(tasks, now);
      transitions := [];
      var i := 0;
      while i < |rows|
        invariant 0 <= i <= |rows| && PartlyReaped(was, tasks, rows[..i], now, maxRetries)
        invariant transitions == Transitions(rows[..i], now, maxRetries)
      {
        var row := rows[i];
        TransitionsStep(rows, i, now, maxRetries);
        ghost var mid := tasks;
        PartIds(was, mid, rows[..i], now, maxRetries);
        ReapOne(row, now, maxRetries);
        PartStep(was, mid, tasks, rows, i, now, maxRetries);
        transitions := transitions + [TransitionOf(row, now, maxRetries)];
        i := i + 1;
      }
      assert rows[..i] == rows;
      ReapedAll(was, tasks, rows, now, maxRetries);
    }
  }

  /** The rows in `done` have been reaped, the others not. */
  ghost predicate PartlyReaped(was: seq<Task>, tasks: seq<Task>, done: seq<Task>, now: string, maxRetries: nat)
  {
    && |tasks| == |was|
    && forall j :: 0 <= j < |was| ==> tasks[j] == if was[j] in done then Reaped(was[j], now, maxRetries) else was[j]
  }

  lemma PartIds(was: seq<Task>, tasks: seq<Task>, done: seq<Task>, now: string, maxRetries: nat)
    requires DistinctIds(was) && PartlyReaped(was, tasks, done, now, maxRetries)
    ensures DistinctIds(tasks)
  {
    assert forall j :: 0 <= j < |was| ==> tasks[j].id == was[j].id;
  }

  lemma PartStep(was: seq<Task>, mid: seq<Task>, tasks: seq<Task>, rows: seq<Task>, i: nat, now: string, maxRetries: nat)
    requires DistinctIds(was) && Distinct(rows) && i < |rows| && forall t :: t in rows ==> t in was && IsExpired(t, now)
    requires PartlyReaped(was, mid, rows[..i], now, maxRetries)
    requires |tasks| == |mid| && forall j :: 0 <= j < |mid| ==> tasks[j] == Updated(mid[j], rows[i], now, maxRetries)
    ensures PartlyReaped(was, tasks, rows[..i + 1], now, maxRetries)
  {
    var row := rows[i];
    RowByRow(was, rows, i);
    assert row in rows && rows[..i + 1] == rows[..i] + [row];
    forall j | 0 <= j < |was|
      ensures tasks[j] == if was[j] in rows[..i + 1] then Reaped(was[j], now, maxRetries) else was[j]
    {
      if was[j].id == row.id {
        assert was[j] == row && mid[j] == row;
        assert row.(retries := row.retries) == row;
      } else {
        assert mid[j].id == was[j].id;
      }
    }
  }

  lemma TransitionsStep(rows: seq<Task>, i: nat, now: string, maxRetries: nat)
    requires i < |rows|
    ensures rows[i] in rows && rows[..i + 1] == rows[..i] + [rows[i]]
    ensures Transitions(rows[..i + 1], now, maxRetries) == Transitions(rows[..i], now, maxRetries) + [TransitionOf(rows[i], now, maxRetries)]
  {
  }

  lemma ReapedAll(was: seq<Task>, tasks: seq<Task>, rows: seq<Task>, now: string, maxRetries: nat)
    requires PartlyReaped(was, tasks, rows, now, maxRetries) && forall t :: t in rows <==> t in was && IsExpired(t, now)
    ensures tasks == ReapAll(was, now, maxRetries)
  {
    forall j | 0 <= j < |was|
      ensures was[j] in rows <==> IsExpired(was[j], now)
    {
      assert was[j] in was;
    }
  }

  /** Selected by identity: the rows done so far never include the next one, and no other row has its id. */
  lemma RowByRow(tasks: seq<Task>, rows: seq<Task>, i: nat)
    requires DistinctIds(tasks) && Distinct(rows) && i < |rows| && forall t :: t in rows ==> t in tasks
    ensures rows[i] !in rows[..i]
    ensures forall j :: 0 <= j < |tasks| && tasks[j].id == rows[i].id ==> tasks[j] == rows[i]
  {
    assert rows[i] in rows;
    var k :| 0 <= k < |tasks| && tasks[k] == rows[i];
  }

  // ---------- What a pass guarantees ----------

  /** A lease written as text is expired exactly when its instant is not after the pass's. */
  lemma ExpiryIsByTime(t: Task, lease: Timestamps.DateTime, now: Timestamps.DateTime)
    requires Timestamps.Valid(lease) && Timestamps.Valid(now) && t.lease == Some(Timestamps.TaskText(lease)) && t.status.Running?
    ensures IsExpired(t, Timestamps.TaskText(now)) <==> Timestamps.Instant(lease) <= Timestamps.Instant(now)
  {
    Timestamps.TaskTextOrder(lease, now);
  }

  /** After the reaper no running task has an expired lease; rows not expired are untouched, and the returned
      transitions name exactly the rows that changed, with the status and count they now have. */
  lemma ReapIsExact(tasks: seq<Task>, now: string, maxRetries: nat, i: nat)
    requires DistinctIds(tasks) && i < |tasks|
    ensures var (tasks', ts) := (ReapAll(tasks, now, maxRetries), Transitions(ExpiredRows(tasks, now), now, maxRetries));
      && !IsExpired(tasks'[i], now)
      && (tasks'[i] != tasks[i] <==> exists k :: 0 <= k < |ts| && ts[k].id == tasks[i].id)
      && (forall k :: 0 <= k < |ts| && ts[k].id == tasks[i].id ==>
            ts[k] == Transition(tasks'[i].id, tasks'[i].tenant, tasks'[i].status, tasks'[i].retries))
  {
    var rows := ExpiredRows(tasks, now);
    var ts := Transitions(rows, now, maxRetries);
    ExpiredRowsAre(tasks, now);
    assert tasks[i] in tasks;
    if IsExpired(tasks[i], now) {
      var k :| 0 <= k < |rows| && rows[k] == tasks[i];
      assert ts[k].id == tasks[i].id;
    }
    forall k | 0 <= k < |ts| && ts[k].id == tasks[i].id
      ensures rows[k] == tasks[i]
    {
      assert rows[k] in rows;
      var j :| 0 <= j < |tasks| && tasks[j] == rows[k];
    }
  }

  /** Each expired task has one transition, not several. */
  lemma OneTransitionEach(tasks: seq<Task>, now: string, maxRetries: nat, j: nat, k: nat)
    requires DistinctIds(tasks) && j < k < |ExpiredRows(tasks, now)|
    ensures var ts := Transitions(ExpiredRows(tasks, now), now, maxRetries); ts[j].id != ts[k].id
  {
    ExpiredRowsAre(tasks, now);
    var rows := ExpiredRows(tasks, now);
    assert rows[j] in rows && rows[k] in rows;
    var a :| 0 <= a < |tasks| && tasks[a] == rows[j];
    var b :| 0 <= b < |tasks| && tasks[b] == rows[k];
    assert a != b;
  }

  lemma {:induction false} StaleIdsAre(agents: seq<Agent>, cutoff: string, id: int)
    ensures id in StaleIds(agents, cutoff) <==> exists i :: 0 <= i < |agents| && agents[i].id == id && IsStale(agents[i], cutoff)
  {
    if agents != [] {
      var n := |agents| - 1;
      StaleIdsAre(agents[..n], cutoff, id);
      assert agents[n].id == id && IsStale(agents[n], cutoff) ==> id in StaleIds(agents, cutoff);
      if id in StaleIds(agents[..n], cutoff) {
        var i :| 0 <= i < n && agents[..n][i].id == id && IsStale(agents[..n][i], cutoff);
        assert agents[i].id == id && IsStale(agents[i], cutoff);
      }
    }
  }

  lemma ReleasedIds(tasks: seq<Task>, ids: seq<int>, now: string)
    requires DistinctIds(tasks)
    ensures DistinctIds(Released(tasks, ids, now))
  {
  }

  /** A whole pass: no stale agent is left online, no running task has an expired lease, and none belongs to an agent
      this pass took offline. */
  lemma PassLeavesNoOrphans(agents: seq<Agent>, tasks: seq<Task>, now: string, cutoff: string, maxRetries: nat, i: nat, a: nat)
    requires DistinctIds(tasks) && i < |tasks| && a < |agents|
    ensures var ids := StaleIds(agents, cutoff);
      var tasks' := ReapAll(Released(tasks, ids, now), now, maxRetries);
      && !IsStale(Retired(agents, ids)[a], cutoff)
      && !IsExpired(tasks'[i], now)
      && !AssignedTo(tasks'[i], ids)
  {
    var ids := StaleIds(agents, cutoff);
    StaleIdsAre(agents, cutoff, agents[a].id);
    ReleasedIds(tasks, ids, now);
    ReapIsExact(Released(tasks, ids, now), now, maxRetries, i);
    assert LexLessEq(now, now);
  }

  /** When the routes write between the two transactions, what they leave is `rows`: still no running task has an expired
      lease afterwards, and a task of an agent just taken offline is running if and only if a route gave it one that is not. */
  lemma PassAmidWriters(tasks: seq<Task>, ids: seq<int>, now: string, rows: seq<Task>, maxRetries: nat, i: nat)
    requires DistinctIds(tasks) && Allowed(Released(tasks, ids, now), rows) && i < |rows|
    ensures var tasks' := ReapAll(rows, now, maxRetries);
      && !IsExpired(tasks'[i], now)
      && (AssignedTo(tasks'[i], ids) <==> AssignedTo(rows[i], ids) && !IsExpired(rows[i], now))
      && (AssignedTo(tasks'[i], ids) ==> i >= |tasks| || rows[i] != Released(tasks, ids, now)[i])
  {
    assert DistinctIds(rows);
    ReapIsExact(rows, now, maxRetries, i);
    assert LexLessEq(now, now);
  }

  // ---------- Retries over a run ----------

  /** One step of a run: a reaping, or anything the claim, heartbeat and result routes do to the rows. */
  datatype Step = Reap(now: string) | Environment(tasks: seq<Task>)

  /** Routes add tasks and change rows, but never a retry count or an identity. */
  predicate Allowed(tasks: seq<Task>, tasks': seq<Task>)
  {
    && |tasks| <= |tasks'|
    && (forall i :: 0 <= i < |tasks| ==> tasks'[i].id == tasks[i].id && tasks'[i].retries == tasks[i].retries)
    && (forall i :: |tasks| <= i < |tasks'| ==> tasks'[i].retries == 0)
    && (forall i, j :: 0 <= i < j < |tasks'| ==> tasks'[i].id != tasks'[j].id)
  }

  predicate Possible(tasks: seq<Task>, s: Step)
  {
    s.Environment? ==> Allowed(tasks, s.tasks)
  }

  function After(steps: seq<Step>, maxRetries: nat): seq<Task>
  {
    if steps == [] then []
    else
      var tasks := After(steps[..|steps| - 1], maxRetries);
      match steps[|steps| - 1] case Reap(now) => ReapAll(tasks, now, maxRetries) case Environment(tasks') => tasks'
  }

  predicate IsRun(steps: seq<Step>, maxRetries: nat)
  {
    forall i :: 0 <= i < |steps| ==> Possible(After(steps[..i], maxRetries), steps[i])
  }

  /** The transitions the reaper has returned so far. */
  function Emitted(steps: seq<Step>, maxRetries: nat): seq<Transition>
  {
    if steps == [] then []
    else
      var front := steps[..|steps| - 1];
      Emitted(front, maxRetries) + match steps[|steps| - 1]
        case Reap(now) => Transitions(ExpiredRows(After(front, maxRetries), now), now, maxRetries)
        case Environment(_) => []
  }

  /** How often a task was sent back to the queue. */
  function Requeues(ts: seq<Transition>, id: string): nat
  {
    if ts == [] then 0
    else Requeues(ts[..|ts| - 1], id) + if ts[|ts| - 1].id == id && ts[|ts| - 1].status.Pending? then 1 else 0
  }

  lemma {:induction false} RequeuesAppend(a: seq<Transition>, b: seq<Transition>, id: string)
    ensures Requeues(a + b, id) == Requeues(a, id) + Requeues(b, id)
  {
    if b == [] {
      assert a + b == a;
    } else {
      RequeuesAppend(a, b[..|b| - 1], id);
      assert (a + b)[..|a + b| - 1] == a + b[..|b| - 1];
    }
  }

  lemma {:induction false} RequeuesNone(ts: seq<Transition>, id: string)
    requires forall k :: 0 <= k < |ts| ==> ts[k].id != id
    ensures Requeues(ts, id) == 0
  {
    if ts != [] { RequeuesNone(ts[..|ts| - 1], id); }
  }

  lemma {:induction false} RequeuesOne(ts: seq<Transition>, id: string, k: nat)
    requires k < |ts| && ts[k].id == id && forall j :: 0 <= j < |ts| && ts[j].id == id ==> j == k
    ensures Requeues(ts, id) == if ts[k].status.Pending? then 1 else 0
  {
    if k == |ts| - 1 {
      RequeuesNone(ts[..|ts| - 1], id);
    } else {
      RequeuesOne(ts[..|ts| - 1], id, k);
    }
  }

  /** One reaping adds to a task's requeues exactly what it adds to its retry count. */
  lemma ReapCounts(tasks: seq<Task>, now: string, maxRetries: nat, i: nat)
    requires DistinctIds(tasks) && i < |tasks|
    ensures ReapAll(tasks, now, maxRetries)[i].retries
         == tasks[i].retries + Requeues(Transitions(ExpiredRows(tasks, now), now, maxRetries), tasks[i].id)
  {
    var rows := ExpiredRows(tasks, now);
    var ts := Transitions(rows, now, maxRetries);
    ExpiredRowsAre(tasks, now);
    assert tasks[i] in tasks;
    forall k | 0 <= k < |ts| && ts[k].id == tasks[i].id
      ensures rows[k] == tasks[i]
    {
      assert rows[k] in rows;
      var j :| 0 <= j < |tasks| && tasks[j] == rows[k];
    }
    if IsExpired(tasks[i], now) {
      var k :| 0 <= k < |rows| && rows[k] == tasks[i];
      RequeuesOne(ts, tasks[i].id, k);
    } else {
      RequeuesNone(ts, tasks[i].id);
    }
  }

  /** At every point of a run: identities are distinct, each count is the number of requeues, and none exceeds the limit;
      a task not yet added has none. */
  ghost predicate Counted(tasks: seq<Task>, ts: seq<Transition>, maxRetries: nat)
  {
    && DistinctIds(tasks)
    && (forall i :: 0 <= i < |tasks| ==> tasks[i].retries == Requeues(ts, tasks[i].id) <= maxRetries)
    && (forall k :: 0 <= k < |ts| ==> Has(tasks, ts[k].id))
  }

  predicate Has(tasks: seq<Task>, id: string)
  {
    exists i :: 0 <= i < |tasks| && tasks[i].id == id
  }

  lemma ReapKeepsCount(tasks: seq<Task>, ts: seq<Transition>, now: string, maxRetries: nat)
    requires Counted(tasks, ts, maxRetries)
    ensures Counted(ReapAll(tasks, now, maxRetries), ts + Transitions(ExpiredRows(tasks, now), now, maxRetries), maxRetries)
  {
    var (tasks', more) := (ReapAll(tasks, now, maxRetries), Transitions(ExpiredRows(tasks, now), now, maxRetries));
    forall i | 0 <= i < |tasks|
      ensures tasks'[i].id == tasks[i].id && tasks'[i].retries == Requeues(ts + more, tasks[i].id) <= maxRetries
    {
      ReapCounts(tasks, now, maxRetries, i);
      RequeuesAppend(ts, more, tasks[i].id);
    }
    AllKnown(tasks, tasks', ts, now, maxRetries);
  }

  /** Every transition, old or new, names a task of the table. */
  lemma AllKnown(tasks: seq<Task>, tasks': seq<Task>, ts: seq<Transition>, now: string, maxRetries: nat)
    requires DistinctIds(tasks) && |tasks'| == |tasks| && forall i :: 0 <= i < |tasks| ==> tasks'[i].id == tasks[i].id
    requires forall k :: 0 <= k < |ts| ==> Has(tasks, ts[k].id)
    ensures var all := ts + Transitions(ExpiredRows(tasks, now), now, maxRetries);
      forall k :: 0 <= k < |all| ==> Has(tasks', all[k].id)
  {
    var rows := ExpiredRows(tasks, now);
    var all := ts + Transitions(rows, now, maxRetries);
    ExpiredRowsAre(tasks, now);
    forall k | 0 <= k < |all|
      ensures Has(tasks', all[k].id)
    {
      if k >= |ts| {
        assert rows[k - |ts|] in rows;
        var j :| 0 <= j < |tasks| && tasks[j] == rows[k - |ts|];
        assert tasks[j].id == all[k].id;
      } else {
        assert all[k] == ts[k];
      }
      assert Has(tasks, all[k].id);
      var i :| 0 <= i < |tasks| && tasks[i].id == all[k].id;
      assert tasks'[i].id == all[k].id;
    }
  }

  lemma EnvironmentKeepsCount(tasks: seq<Task>, ts: seq<Transition>, tasks': seq<Task>, maxRetries: nat)
    requires Counted(tasks, ts, maxRetries) && Allowed(tasks, tasks')
    ensures Counted(tasks', ts, maxRetries)
  {
    forall i | |tasks| <= i < |tasks'|
      ensures Requeues(ts, tasks'[i].id) == 0
    {
      forall k | 0 <= k < |ts|
        ensures ts[k].id != tasks'[i].id
      {
        assert Has(tasks, ts[k].id);
        var j :| 0 <= j < |tasks| && tasks[j].id == ts[k].id;
        assert tasks'[j].id == tasks[j].id;
      }
      RequeuesNone(ts, tasks'[i].id);
    }
    forall k | 0 <= k < |ts|
      ensures Has(tasks', ts[k].id)
    {
      assert Has(tasks, ts[k].id);
      var j :| 0 <= j < |tasks| && tasks[j].id == ts[k].id;
      assert tasks'[j].id == ts[k].id;
    }
  }

  lemma {:induction false} RunCounts(steps: seq<Step>, maxRetries: nat)
    requires IsRun(steps, maxRetries)
    ensures Counted(After(steps, maxRetries), Emitted(steps, maxRetries), maxRetries)
  {
    if steps != [] {
      var n := |steps| - 1;
      var front := steps[..n];
      assert forall i :: 0 <= i < n ==> front[..i] == steps[..i];
      RunCounts(front, maxRetries);
      var (tasks, ts) := (After(front, maxRetries), Emitted(front, maxRetries));
      assert Possible(tasks, steps[n]);
      match steps[n]
      case Reap(now) => ReapKeepsCount(tasks, ts, now, maxRetries);
      case Environment(tasks') =>
        EnvironmentKeepsCount(tasks, ts, tasks', maxRetries);
        assert ts + [] == ts;
    }
  }

  /** Over any run a task is requeued at most `maxRetries` times, and the expiry after the last of them fails it. */
  lemma RetriesAreBounded(steps: seq<Step>, maxRetries: nat, i: nat, now: string)
    requires IsRun(steps, maxRetries) && i < |After(steps, maxRetries)|
    ensures var t := After(steps, maxRetries)[i];
      && Requeues(Emitted(steps, maxRetries), t.id) <= maxRetries
      && (IsExpired(t, now) ==>
            (ReapAll(After(steps, maxRetries), now, maxRetries)[i].status.Failed?
             <==> Requeues(Emitted(steps, maxRetries), t.id) == maxRetries))
  {
    RunCounts(steps, maxRetries);
  }
}
