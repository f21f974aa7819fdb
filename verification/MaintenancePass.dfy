/** One maintenance pass: three transactions, between which the routes may write to the task table. */
module MaintenancePass {
  import opened Options
  import opened Text
  import opened Maintenance
  import Sessions

  datatype Summary = Summary(staleAgents: nat, staleSessions: nat, taskTransitions: nat)

  /** `run_maintenance_once`. `rows` is what the routes leave in the task table before the reaper's transaction. */
  method RunMaintenanceOnce(store: Store, registry: Sessions.SessionManager, now: string, agentCutoff: string,
                            sessionCutoff: string, maxRetries: nat, rows: seq<Task>)
    returns (summary: Summary, transitions: seq<Transition>)
    requires DistinctIds(store.tasks)
    requires Allowed(Released(store.tasks, StaleIds(store.agents, agentCutoff), now), rows)
    modifies store, registry`rows
    ensures store.agents == Retired(old(store.agents), StaleIds(old(store.agents), agentCutoff))
    ensures store.tasks == ReapAll(rows, now, maxRetries)
    ensures transitions == Transitions(ExpiredRows(rows, now), now, maxRetries)
    ensures registry.rows == Sessions.Apply(old(registry.rows), Sessions.ExpireStale(sessionCutoff), registry.limits)
    ensures summary.staleAgents == |StaleIds(old(store.agents), agentCutoff)| && summary.taskTransitions == |transitions|
    // afterwards: no stale agent online, no running task expired, and an agent just taken offline keeps only what a
    // route gave it in between
    ensures forall a :: 0 <= a < |store.agents| ==> !Silent(store.agents[a], agentCutoff)
    ensures forall i :: 0 <= i < |store.tasks| ==> !RanOut(store.tasks[i], now)
    ensures AllReaped(rows, store.tasks, now, maxRetries)
    ensures forall i :: 0 <= i < |store.tasks| && AssignedTo(store.tasks[i], StaleIds(old(store.agents), agentCutoff)) ==>
      i >= |old(store.tasks)| || rows[i] != Released(old(store.tasks), StaleIds(old(store.agents), agentCutoff), now)[i]
  {
    ghost var (agents, tasks) := (store.agents, store.tasks);
    var staleAgents := store.ExpireStaleAgents(now, agentCutoff);
    var staleSessions := registry.ExpireStaleSessions(sessionCutoff);
    store.tasks := rows;
    transitions := store.ReapExpiredTasks(now, maxRetries);
    summary := Summary(|staleAgents|, |staleSessions|, |transitions|);
    PassHolds(agents, tasks, now, agentCutoff, maxRetries, rows);
    ReapsEach(rows, now, maxRetries);
    assert forall a: Agent :: Silent(a, agentCutoff) <==> IsStale(a, agentCutoff);
    assert forall t: Task :: RanOut(t, now) <==> IsExpired(t, now);
  }

  /** What a pass leaves behind, whatever the routes wrote in between. */
  lemma PassHolds(agents: seq<Agent>, tasks: seq<Task>, now: string, cutoff: string, maxRetries: nat, rows: seq<Task>)
    requires DistinctIds(tasks) && Allowed(Released(tasks, StaleIds(agents, cutoff), now), rows)
    ensures forall a :: 0 <= a < |agents| ==> !IsStale(Retired(agents, StaleIds(agents, cutoff))[a], cutoff)
    ensures var (ids, tasks') := (StaleIds(agents, cutoff), ReapAll(rows, now, maxRetries));
      forall i :: 0 <= i < |rows| ==>
        && !IsExpired(tasks'[i], now)
        && (AssignedTo(tasks'[i], ids) ==> i >= |tasks| || rows[i] != Released(tasks, ids, now)[i])
  {
    var ids := StaleIds(agents, cutoff);
    forall a | 0 <= a < |agents|
      ensures !IsStale(Retired(agents, ids)[a], cutoff)
    {
      StaleIdsAre(agents, cutoff, agents[a].id);
    }
    forall i | 0 <= i < |rows|
      ensures !IsExpired(ReapAll(rows, now, maxRetries)[i], now)
      ensures AssignedTo(ReapAll(rows, now, maxRetries)[i], ids) ==> i >= |tasks| || rows[i] != Released(tasks, ids, now)[i]
    {
      PassAmidWriters(tasks, ids, now, rows, maxRetries, i);
    }
  }
}
