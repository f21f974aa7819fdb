/** The workflow scheduler's run state: the backlog, the batches claimed from it, and the commands that change them. */
module Scheduler {
  import opened Options
  import opened Sorting
  import opened Text

  datatype Status = Pending | InProgress | Done | Completed | Failed | Deferred

  datatype Task = Task(
    id: string, description: string, priority: int, status: Status, depends: seq<string>, group: Option<string>,
    createdAt: string, claimedAt: Option<string>, completedAt: Option<string>, batchId: Option<string>)

  datatype BatchStatus = Active | Succeeded | Broken

  datatype Batch = Batch(
    id: string, status: BatchStatus, mode: string, startedAt: string, completedAt: Option<string>,
    taskIds: seq<string>, completedIds: seq<string>, failedIds: seq<string>)

  datatype State = State(
    backlog: seq<Task>, batches: seq<Batch>,
    tasksCompleted: nat, batchesCompleted: nat, currentBatch: Option<string>,
    active: bool, mode: string, heartbeat: Option<string>, checkpoint: Option<(string, string)>)

  /** `default_state`: a fresh project. The empty text stands for a mode that was never set. */
  const DEFAULT_STATE := State([], [], 0, 0, None, false, "", None, None)

  datatype Command =
    | Add(description: string, priority: int, depends: seq<string>, group: Option<string>)
    | Complete(taskId: string)
    | StartBatch(modeName: string)
    | FinishBatch
    | Heartbeat
    | Checkpoint(instruction: string)
    | Mark(taskId: string, outcome: Status)   // the operator's edit: a running task failed or was put off

  /** A command with the clock reading and the mode files (name to `parallel_agents`) it finds. */
  datatype Call = Call(command: Command, now: string, modes: map<string, int>)

  // ---------- Fresh identifiers ----------

  /** The number in `T-<digits>...`, or 0 for any other text. */
  function TaskNumber(id: string): nat
  {
    if "T-" <= id && SpanDigits(id[2..]).0 != "" then ParseNat(SpanDigits(id[2..]).0) else 0
  }

  /** The number in exactly `B-<digits>`, or 0 for any other text. */
  function BatchNumber(id: string): nat
  {
    if "B-" <= id && |id| > 2 && AllDigits(id[2..]) then ParseNat(id[2..]) else 0
  }

  function TaskId(n: nat): string
  {
    "T-" + Print03(n)
  }

  function BatchId(n: nat): string
  {
    "B-" + Print03(n)
  }

  lemma {:induction false} SpanAllDigits(s: string)
    requires AllDigits(s)
    ensures SpanDigits(s) == (s, "")
  {
    if s != [] {
      SpanAllDigits(s[1..]);
      assert [s[0]] + s[1..] == s;
    }
  }

  lemma NumberOfId(n: nat)
    ensures TaskNumber(TaskId(n)) == n && BatchNumber(BatchId(n)) == n
  {
    ParsePrint03(n);
    assert TaskId(n)[2..] == Print03(n) && BatchId(n)[2..] == Print03(n);
    SpanAllDigits(Print03(n));
  }

  /** `_next_task_id`: one more than the largest number in use, so the id is new whatever the backlog holds. */
  method NextTaskId(backlog: seq<Task>) returns (id: string)
    ensures forall t :: t in backlog ==> t.id != id && TaskNumber(t.id) < TaskNumber(id)
    ensures id == TaskId(TopTask(backlog) + 1)
  {
    var top := HighestTask(backlog);
    NumberOfId(top + 1);
    return TaskId(top + 1);
  }

  method HighestTask(backlog: seq<Task>) returns (top: nat)
    ensures top == TopTask(backlog) && forall j :: 0 <= j < |backlog| ==> TaskNumber(backlog[j].id) <= top
  {
    var i := 0;
    top := 0;
    while i < |backlog|
      invariant 0 <= i <= |backlog| && top == TopTask(backlog[..i])
      invariant forall j :: 0 <= j < i ==> TaskNumber(backlog[j].id) <= top
    {
      assert backlog[..i + 1][..i] == backlog[..i];
      if TaskNumber(backlog[i].id) > top { top := TaskNumber(backlog[i].id); }
      i := i + 1;
    }
    assert backlog[..i] == backlog;
  }

  function TopTask(backlog: seq<Task>): nat
  {
    if backlog == [] then 0
    else
      var (n, rest) := (TaskNumber(backlog[|backlog| - 1].id), TopTask(backlog[..|backlog| - 1]));
      if n > rest then n else rest
  }

  /** `_next_batch_id`, in the same way. */
  method NextBatchId(batches: seq<Batch>) returns (id: string)
    ensures forall b :: b in batches ==> b.id != id && BatchNumber(b.id) < BatchNumber(id)
    ensures id == BatchId(TopBatch(batches) + 1)
  {
    var top := HighestBatch(batches);
    NumberOfId(top + 1);
    return BatchId(top + 1);
  }

  method HighestBatch(batches: seq<Batch>) returns (top: nat)
    ensures top == TopBatch(batches) && forall j :: 0 <= j < |batches| ==> BatchNumber(batches[j].id) <= top
  {
    var i := 0;
    top := 0;
    while i < |batches|
      invariant 0 <= i <= |batches| && top == TopBatch(batches[..i])
      invariant forall j :: 0 <= j < i ==> BatchNumber(batches[j].id) <= top
    {
      assert batches[..i + 1][..i] == batches[..i];
      if BatchNumber(batches[i].id) > top { top := BatchNumber(batches[i].id); }
      i := i + 1;
    }
    assert batches[..i] == batches;
  }

  function TopBatch(batches: seq<Batch>): nat
  {
    if batches == [] then 0
    else
      var (n, rest) := (BatchNumber(batches[|batches| - 1].id), TopBatch(batches[..|batches| - 1]));
      if n > rest then n else rest
  }

  lemma {:induction false} TopTaskBounds(backlog: seq<Task>, i: nat)
    requires i < |backlog|
    ensures TaskNumber(backlog[i].id) <= TopTask(backlog)
  {
    if i < |backlog| - 1 { TopTaskBounds(backlog[..|backlog| - 1], i); }
  }

  lemma {:induction false} TopBatchBounds(batches: seq<Batch>, i: nat)
    requires i < |batches|
    ensures BatchNumber(batches[i].id) <= TopBatch(batches)
  {
    if i < |batches| - 1 { TopBatchBounds(batches[..|batches| - 1], i); }
  }

  /** A task id with a larger number than any in the backlog is new. */
  lemma AboveTop(backlog: seq<Task>, id: string)
    requires TaskNumber(id) > TopTask(backlog)
    ensures forall i :: 0 <= i < |backlog| ==> backlog[i].id != id && TaskNumber(backlog[i].id) < TaskNumber(id)
  {
    forall i | 0 <= i < |backlog|
      ensures TaskNumber(backlog[i].id) <= TopTask(backlog)
    {
      TopTaskBounds(backlog, i);
    }
  }

  lemma AboveTopBatch(batches: seq<Batch>, id: string)
    requires BatchNumber(id) > TopBatch(batches)
    ensures forall i :: 0 <= i < |batches| ==> batches[i].id != id
  {
    forall i | 0 <= i < |batches|
      ensures BatchNumber(batches[i].id) <= TopBatch(batches)
    {
      TopBatchBounds(batches, i);
    }
  }

  // ---------- Selecting ready tasks ----------

  predicate IsResolved(s: Status)
  {
    s.Done? || s.Completed? || s.Deferred?
  }

  /** Some task of that id is finished or put off. */
  predicate Resolved(backlog: seq<Task>, id: string)
  {
    exists i :: 0 <= i < |backlog| && backlog[i].id == id && IsResolved(backlog[i].status)
  }

  predicate DependenciesMet(backlog: seq<Task>, t: Task)
  {
    forall d :: d in t.depends ==> Resolved(backlog, d)
  }

  predicate Ready(backlog: seq<Task>, t: Task)
  {
    t.status.Pending? && DependenciesMet(backlog, t)
  }

  predicate TaskLess(a: Task, b: Task)
  {
    a.priority < b.priority || (a.priority == b.priority && LexLess(a.id, b.id))
  }

  function Prefix<T>(s: seq<T>, n: nat): seq<T>
  {
    if n < |s| then s[..n] else s
  }

  function Select(backlog: seq<Task>, limit: nat): seq<Task>
  {
    Prefix(Sort(Filter(backlog, t => Ready(backlog, t)), TaskLess), limit)
  }

  /** `max(1, int(parallel_agents))`. */
  function Limit(parallelAgents: int): nat
  {
    if parallelAgents < 1 then 1 else parallelAgents
  }

  lemma TaskLessStrictWeak()
    ensures StrictWeak(TaskLess)
  {
    LexStrictWeak();
  }

  /** `_resolve_dependencies`: keep, in order, the tasks whose dependencies are all finished or put off. */
  method ResolveDependencies(tasks: seq<Task>, backlog: seq<Task>) returns (ready: seq<Task>)
    ensures ready == Filter(tasks, t => DependenciesMet(backlog, t))
  {
    var doneIds := set t | t in backlog && IsResolved(t.status) :: t.id;
    forall d
      ensures d in doneIds <==> Resolved(backlog, d)
    {
      if d in doneIds {
        var t :| t in backlog && IsResolved(t.status) && t.id == d;
      }
    }
    ready := [];
    var p := (t: Task) => DependenciesMet(backlog, t);
    var i := 0;
    while i < |tasks|
      invariant 0 <= i <= |tasks|
      invariant Filter(tasks, p) == ready + Filter(tasks[i..], p)
    {
      var t := tasks[i];
      assert tasks[i..][0] == t && tasks[i..][1..] == tasks[i + 1..];
      if forall d :: d in t.depends ==> d in doneIds {
        ready := ready + [t];
      }
      i := i + 1;
    }
    assert tasks[i..] == [];
  }

  lemma {:induction false} FilterTwice(s: seq<Task>, p: Task -> bool, q: Task -> bool)
    ensures Filter(Filter(s, p), q) == Filter(s, t => p(t) && q(t))
  {
    if s != [] {
      FilterTwice(s[1..], p, q);
      if p(s[0]) { assert Filter(s, p)[1..] == Filter(s[1..], p); }
    }
  }

  lemma {:induction false} FilterSame(s: seq<Task>, p: Task -> bool, q: Task -> bool)
    requires forall t :: p(t) == q(t)
    ensures Filter(s, p) == Filter(s, q)
  {
    if s != [] { FilterSame(s[1..], p, q); }
  }

  /** `_select_ready_tasks`. */
  method SelectReady(backlog: seq<Task>, parallelAgents: int) returns (selected: seq<Task>)
    ensures selected == Select(backlog, Limit(parallelAgents))
  {
    var isPending := (t: Task) => t.status.Pending?;
    var pending := Filter(backlog, isPending);
    var ready := ResolveDependencies(pending, backlog);
    FilterTwice(backlog, isPending, t => DependenciesMet(backlog, t));
    FilterSame(backlog, t => isPending(t) && ((u: Task) => DependenciesMet(backlog, u))(t), t => Ready(backlog, t));
    selected := Prefix(Sort(ready, TaskLess), Limit(parallelAgents));
  }

  /** The selection holds only ready tasks, each once, at most `limit`, none of them behind a ready task left out. */
  lemma SelectSound(backlog: seq<Task>, limit: nat)
    requires Distinct(backlog)
    ensures var sel := Select(backlog, limit);
      && |sel| <= limit && Distinct(sel)
      && (forall t :: t in sel ==> t in backlog && Ready(backlog, t))
      && (forall t, u :: t in sel && u in backlog && Ready(backlog, u) && u !in sel ==> !TaskLess(u, t))
      && (limit > 0 && sel == [] ==> forall u :: u in backlog ==> !Ready(backlog, u))
  {
    var p := (t: Task) => Ready(backlog, t);
    var ready := Filter(backlog, p);
    var sorted := Sort(ready, TaskLess);
    var sel := Select(backlog, limit);
    TaskLessStrictWeak();
    SortSorted(ready, TaskLess);
    SortPermutes(ready, TaskLess);
    SameMembers(sorted, ready);
    FilterDistinct(backlog, p);
    DistinctPermutes(ready, sorted);
    forall t | t in sorted
      ensures t in backlog && Ready(backlog, t)
    {
      FilterMember(backlog, p, t);
    }
    forall u | u in backlog && Ready(backlog, u)
      ensures u in sorted
    {
      FilterMember(backlog, p, u);
    }
    forall t, u | t in sel && u in backlog && Ready(backlog, u) && u !in sel
      ensures !TaskLess(u, t)
    {
      var i :| 0 <= i < |sel| && sel[i] == t;
      var j :| 0 <= j < |sorted| && sorted[j] == u;
      assert j >= |sel| && sorted[i] == t;
    }
  }

  // ---------- Commands ----------

  predicate HasActive(batches: seq<Batch>)
  {
    exists i :: 0 <= i < |batches| && batches[i].status.Active?
  }

  function Find(backlog: seq<Task>, id: string): (i: nat)
    ensures i <= |backlog|
    ensures forall j :: 0 <= j < i ==> backlog[j].id != id
    ensures i < |backlog| ==> backlog[i].id == id
  {
    if backlog == [] then 0 else if backlog[0].id == id then 0 else 1 + Find(backlog[1..], id)
  }

  /** The status a batch sees for one of its ids; a missing task has none. */
  function StatusOf(backlog: seq<Task>, id: string): Option<Status>
  {
    var i := Find(backlog, id);
    if i < |backlog| then Some(backlog[i].status) else None
  }

  predicate IsSettled(s: Option<Status>)
  {
    s == Some(Done) || s == Some(Failed) || s == Some(Deferred)
  }

  function Ids(tasks: seq<Task>): seq<string>
  {
    seq(|tasks|, i requires 0 <= i < |tasks| => tasks[i].id)
  }

  function ClaimAll(backlog: seq<Task>, ids: seq<string>, now: string, batchId: string): seq<Task>
  {
    seq(|backlog|, i requires 0 <= i < |backlog| =>
      if backlog[i].id in ids
      then backlog[i].(status := InProgress, claimedAt := Some(now), batchId := Some(batchId))
      else backlog[i])
  }

  function Keep(ids: seq<string>, backlog: seq<Task>, s: Status): seq<string>
  {
    Filter(ids, (id: string) => StatusOf(backlog, id) == Some(s))
  }

  function Close(b: Batch, backlog: seq<Task>, now: string): Batch
  {
    if !b.status.Active? then b
    else
      var failed := Keep(b.taskIds, backlog, Failed);
      b.(status := if failed == [] then Succeeded else Broken, completedAt := Some(now),
         completedIds := Keep(b.taskIds, backlog, Done), failedIds := failed)
  }

  function CloseAll(batches: seq<Batch>, backlog: seq<Task>, now: string): seq<Batch>
  {
    seq(|batches|, i requires 0 <= i < |batches| => Close(batches[i], backlog, now))
  }

  function CountActive(batches: seq<Batch>): nat
  {
    if batches == [] then 0
    else CountActive(batches[..|batches| - 1]) + if batches[|batches| - 1].status.Active? then 1 else 0
  }

  predicate AllSettled(s: State)
  {
    forall i, id :: 0 <= i < |s.batches| && s.batches[i].status.Active? && id in s.batches[i].taskIds ==>
      IsSettled(StatusOf(s.backlog, id))
  }

  function NewTask(s: State, c: Command, now: string): Task
    requires c.Add?
  {
    Task(TaskId(TopTask(s.backlog) + 1), c.description, c.priority, Pending, c.depends, if c.group == Some("") then None else c.group,
         now, None, None, None)
  }

  function EffectiveMode(s: State, modeName: string): string
  {
    if modeName != "" then modeName else if s.mode != "" then s.mode else "daily"
  }

  /** One command run to the end: the state it saves, or nothing when it exits with an error. */
  function Exec(s: State, call: Call): Option<State>
  {
    var now := call.now;
    match call.command
    case Add(_, _, _, _) => Some(s.(backlog := s.backlog + [NewTask(s, call.command, now)]))
    case Complete(id) =>
      var i := Find(s.backlog, id);
      if i == |s.backlog| || s.backlog[i].status.Done? then Some(s)
      else Some(s.(backlog := s.backlog[i := s.backlog[i].(status := Done, completedAt := Some(now))],
                   tasksCompleted := s.tasksCompleted + 1))
    case StartBatch(name) => ExecStart(s, EffectiveMode(s, name), now, call.modes)
    case FinishBatch =>
      if !HasActive(s.batches) || !AllSettled(s) then None
      else Some(s.(batches := CloseAll(s.batches, s.backlog, now),
                   batchesCompleted := s.batchesCompleted + CountActive(s.batches), currentBatch := None))
    case Heartbeat => Some(s.(heartbeat := Some(now)))
    case Checkpoint(text) => Some(s.(checkpoint := Some((text, now))))
    case Mark(id, outcome) =>
      var i := Find(s.backlog, id);
      if i == |s.backlog| || !s.backlog[i].status.InProgress? || !(outcome.Failed? || outcome.Deferred?) then None
      else Some(s.(backlog := s.backlog[i := s.backlog[i].(status := outcome)]))
  }

  function ExecStart(s: State, mode: string, now: string, modes: map<string, int>): Option<State>
  {
    if HasActive(s.batches) || mode !in modes then None
    else
      var ids := Ids(Select(s.backlog, Limit(modes[mode])));
      if ids == [] then None
      else Some(OpenBatch(s, mode, now, ids))
  }

  /** A new active batch that claims the ids. */
  function OpenBatch(s: State, mode: string, now: string, ids: seq<string>): State
  {
    var batchId := BatchId(TopBatch(s.batches) + 1);
    s.(backlog := ClaimAll(s.backlog, ids, now, batchId),
       batches := s.batches + [Batch(batchId, Active, mode, now, None, ids, [], [])],
       currentBatch := Some(batchId), active := true, mode := mode, heartbeat := Some(now))
  }
}
