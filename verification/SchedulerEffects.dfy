/** What each command does to the ledger, said field by field: when it succeeds, what it changes and what it leaves. */
module SchedulerEffects {
  import opened Options
  import opened Sorting
  import opened Text
  import opened Scheduler
  import opened SchedulerLaws

  // ---------- Adding and completing ----------

  /** One task more, exactly as asked for: pending, claimed by nobody, in no batch. */
  ghost predicate Added(s: State, s': State, description: string, priority: int, depends: seq<string>, group: Option<string>, now: string)
  {
    && |s'.backlog| == |s.backlog| + 1 && s'.backlog[..|s.backlog|] == s.backlog
    && s' == s.(backlog := s'.backlog)
    && var t := s'.backlog[|s.backlog|];
       && t.description == description && t.priority == priority && t.depends == depends && t.createdAt == now
       && t.group == (if group == Some("") then None else group)
       && t.status.Pending? && t.claimedAt.None? && t.completedAt.None? && t.batchId.None?
       && forall u :: u in s.backlog ==> u.id != t.id
  }

  lemma AddsTheTask(s: State, call: Call)
    requires call.command.Add?
    ensures var c := call.command;
      Exec(s, call).Some? && Added(s, Exec(s, call).value, c.description, c.priority, c.depends, c.group, call.now)
  {
    var s' := Exec(s, call).value;
    NumberOfId(TopTask(s.backlog) + 1);
    AboveTop(s.backlog, s'.backlog[|s.backlog|].id);
    assert s'.backlog[..|s.backlog|] == s.backlog;
  }

  /** The first task of that id is done now, and counted; nothing happens when there is none, or when it was done. */
  ghost predicate MarkedDone(s: State, s': State, id: string, now: string)
  {
    && ((forall i :: 0 <= i < |s.backlog| ==> s.backlog[i].id != id) ==> s' == s)
    && forall i :: FirstWithId(s.backlog, i, id) ==>
         if s.backlog[i].status == Done then s' == s
         else
           && s'.backlog == s.backlog[i := s.backlog[i].(status := Done, completedAt := Some(now))]
           && s' == s.(backlog := s'.backlog, tasksCompleted := s.tasksCompleted + 1)
  }

  predicate FirstWithId(backlog: seq<Task>, i: int, id: string)
  {
    0 <= i < |backlog| && backlog[i].id == id && forall j :: 0 <= j < i ==> backlog[j].id != id
  }

  lemma CompletesTheTask(s: State, call: Call)
    requires call.command.Complete?
    ensures Exec(s, call).Some? && MarkedDone(s, Exec(s, call).value, call.command.taskId, call.now)
  {
    var i := Find(s.backlog, call.command.taskId);
    forall j | FirstWithId(s.backlog, j, call.command.taskId)
      ensures j == i
    {
    }
  }

  // ---------- Starting a batch ----------

  /** A task of that id is done, completed or put off. */
  predicate Settled(backlog: seq<Task>, id: string)
  {
    exists j :: 0 <= j < |backlog| && backlog[j].id == id && backlog[j].status in {Done, Completed, Deferred}
  }

  /** Pending, with every dependency settled. */
  predicate ReadyAt(backlog: seq<Task>, i: int)
  {
    0 <= i < |backlog| && backlog[i].status == Pending && forall d :: d in backlog[i].depends ==> Settled(backlog, d)
  }

  function ReadyTasks(backlog: seq<Task>): set<int>
  {
    set i | 0 <= i < |backlog| && ReadyAt(backlog, i)
  }

  /** Smaller priority numbers first, then smaller ids. */
  predicate Before(a: Task, b: Task)
  {
    a.priority < b.priority || (a.priority == b.priority && LexLess(a.id, b.id))
  }

  /** The mode a start runs in: the one named, or the one last used, or the daily one. */
  function ModeOf(s: State, name: string): string
  {
    if name != "" then name else if s.mode != "" then s.mode else "daily"
  }

  lemma ReadyIsReadyAt(backlog: seq<Task>, i: nat)
    requires i < |backlog|
    ensures Ready(backlog, backlog[i]) <==> ReadyAt(backlog, i)
  {
    forall d
      ensures Resolved(backlog, d) <==> Settled(backlog, d)
    {
    }
  }

  /** A start succeeds if and only if no batch is open, the mode exists and some task is ready. */
  lemma StartsIff(s: State, call: Call)
    requires call.command.StartBatch? && DistinctIds(s.backlog)
    ensures Exec(s, call).Some? <==>
      && (forall k :: 0 <= k < |s.batches| ==> s.batches[k].status != Active)
      && ModeOf(s, call.command.modeName) in call.modes
      && exists i :: ReadyAt(s.backlog, i)
  {
    var mode := ModeOf(s, call.command.modeName);
    assert mode == EffectiveMode(s, call.command.modeName);
    if mode in call.modes {
      var limit := Limit(call.modes[mode]);
      DistinctTasks(s.backlog);
      SelectSound(s.backlog, limit);
      if exists i :: ReadyAt(s.backlog, i) {
        var i :| ReadyAt(s.backlog, i);
        ReadyIsReadyAt(s.backlog, i);
        assert s.backlog[i] in s.backlog;
      }
      var sel := Select(s.backlog, limit);
      if sel != [] {
        assert sel[0] in sel;
        var i :| 0 <= i < |s.backlog| && s.backlog[i] == sel[0];
        ReadyIsReadyAt(s.backlog, i);
      }
    }
  }

  /** Task `i` is the `k`-th that the batch lists. */
  predicate ListedAs(b: Batch, backlog: seq<Task>, k: int, i: int)
  {
    0 <= k < |b.taskIds| && 0 <= i < |backlog| && backlog[i].id == b.taskIds[k]
  }

  /** Task `i` is listed in the batch. */
  predicate ListedAt(b: Batch, backlog: seq<Task>, i: int)
  {
    0 <= i < |backlog| && backlog[i].id in b.taskIds
  }

  ghost predicate NamesATask(b: Batch, backlog: seq<Task>, k: int)
  {
    exists i :: ListedAs(b, backlog, k, i)
  }

  /** The batch lists ready tasks only, each once, as many as the mode allows or all there are, in order, and no ready task
      that is left out comes before one that is listed. */
  ghost predicate ListsBest(b: Batch, backlog: seq<Task>, parallelAgents: int)
  {
    && (forall i :: ListedAt(b, backlog, i) ==> ReadyAt(backlog, i))
    && (forall k :: 0 <= k < |b.taskIds| ==> NamesATask(b, backlog, k))
    && Distinct(b.taskIds)
    && |b.taskIds| == AtMost(if parallelAgents < 1 then 1 else parallelAgents, |ReadyTasks(backlog)|)
    && (forall i, j :: ListedAt(b, backlog, i) && ReadyAt(backlog, j) && !ListedAt(b, backlog, j) ==> !Before(backlog[j], backlog[i]))
    && (forall k, m, i, j :: k < m && ListedAs(b, backlog, k, i) && ListedAs(b, backlog, m, j) ==> !Before(backlog[j], backlog[i]))
  }

  function AtMost(a: int, b: int): int
  {
    if a < b then a else b
  }

  /** The tasks the batch lists are claimed for it now; no other task changes. */
  ghost predicate Claimed(backlog: seq<Task>, backlog': seq<Task>, b: Batch, now: string)
  {
    && |backlog'| == |backlog|
    && forall i :: 0 <= i < |backlog| ==>
         && (ListedAt(b, backlog, i) ==>
               backlog'[i] == backlog[i].(status := InProgress, claimedAt := Some(now), batchId := Some(b.id)))
         && (!ListedAt(b, backlog, i) ==> backlog'[i] == backlog[i])
  }

  ghost predicate Started(s: State, s': State, mode: string, parallelAgents: int, now: string)
  {
    && |s'.batches| == |s.batches| + 1 && s'.batches[..|s.batches|] == s.batches
    && var b := s'.batches[|s.batches|];
       && b == Batch(b.id, Active, mode, now, None, b.taskIds, [], []) && (forall c :: c in s.batches ==> c.id != b.id)
       && b.taskIds != [] && ListsBest(b, s.backlog, parallelAgents) && Claimed(s.backlog, s'.backlog, b, now)
       && s' == s.(backlog := s'.backlog, batches := s'.batches, currentBatch := Some(b.id), active := true, mode := mode, heartbeat := Some(now))
  }

  lemma {:induction false} FilterSnoc<T>(s: seq<T>, x: T, p: T -> bool)
    ensures Filter(s + [x], p) == Filter(s, p) + if p(x) then [x] else []
  {
    if s == [] {
      assert [] + [x] == [x];
    } else {
      assert (s + [x])[1..] == s[1..] + [x];
      FilterSnoc(s[1..], x, p);
    }
  }

  function Positions<T>(s: seq<T>, p: T -> bool): set<int>
  {
    set i | 0 <= i < |s| && p(s[i])
  }

  lemma PositionsSnoc<T>(s: seq<T>, x: T, p: T -> bool)
    ensures Positions(s + [x], p) == Positions(s, p) + if p(x) then {|s|} else {}
  {
  }

  lemma {:induction false} FilterCounts<T>(s: seq<T>, p: T -> bool)
    ensures |Filter(s, p)| == |Positions(s, p)|
  {
    if s == [] {
      assert Positions(s, p) == {};
    } else {
      var n := |s| - 1;
      FilterCounts(s[..n], p);
      FilterSnoc(s[..n], s[n], p);
      PositionsSnoc(s[..n], s[n], p);
      assert s == s[..n] + [s[n]];
    }
  }

  /** As many are selected as are ready, up to the limit, and in order. */
  lemma SelectsInOrder(backlog: seq<Task>, limit: nat)
    requires DistinctIds(backlog)
    ensures var sel := Select(backlog, limit);
      |sel| == AtMost(limit, |ReadyTasks(backlog)|) && forall k, m :: 0 <= k < m < |sel| ==> !Before(sel[m], sel[k])
  {
    var p := (t: Task) => Ready(backlog, t);
    var ready := Filter(backlog, p);
    TaskLessStrictWeak();
    SortSorted(ready, TaskLess);
    SortPermutes(ready, TaskLess);
    SameMembers(Sort(ready, TaskLess), ready);
    FilterCounts(backlog, p);
    forall i | 0 <= i < |backlog|
      ensures p(backlog[i]) <==> i in ReadyTasks(backlog)
    {
      ReadyIsReadyAt(backlog, i);
    }
    assert Positions(backlog, p) == ReadyTasks(backlog);
    var sel := Select(backlog, limit);
    assert sel == Prefix(Sort(ready, TaskLess), limit) && |Sort(ready, TaskLess)| == |ReadyTasks(backlog)|;
  }

  lemma SelectListsBest(backlog: seq<Task>, parallelAgents: int, b: Batch)
    requires DistinctIds(backlog) && b.taskIds == Ids(Select(backlog, Limit(parallelAgents)))
    ensures ListsBest(b, backlog, parallelAgents)
  {
    var sel := Select(backlog, Limit(parallelAgents));
    DistinctTasks(backlog);
    SelectSound(backlog, Limit(parallelAgents));
    SelectsInOrder(backlog, Limit(parallelAgents));
    IdsDistinct(backlog, sel);
    ListedAreReady(backlog, sel, b);
    ListedInOrder(backlog, sel, b);
    ListedBeatRest(backlog, sel, b);
  }

  lemma ListedAreReady(backlog: seq<Task>, sel: seq<Task>, b: Batch)
    requires DistinctIds(backlog) && b.taskIds == Ids(sel) && forall t :: t in sel ==> t in backlog && Ready(backlog, t)
    ensures forall i :: ListedAt(b, backlog, i) ==> ReadyAt(backlog, i)
    ensures forall k :: 0 <= k < |b.taskIds| ==> NamesATask(b, backlog, k)
  {
    forall i | ListedAt(b, backlog, i)
      ensures ReadyAt(backlog, i)
    {
      ListedIsSelected(backlog, sel, i);
      ReadyIsReadyAt(backlog, i);
    }
    forall k | 0 <= k < |b.taskIds|
      ensures NamesATask(b, backlog, k)
    {
      assert sel[k] in sel;
      var i :| 0 <= i < |backlog| && backlog[i] == sel[k];
      assert ListedAs(b, backlog, k, i);
    }
  }

  lemma ListedInOrder(backlog: seq<Task>, sel: seq<Task>, b: Batch)
    requires DistinctIds(backlog) && b.taskIds == Ids(sel) && forall t :: t in sel ==> t in backlog
    requires forall k, m :: 0 <= k < m < |sel| ==> !Before(sel[m], sel[k])
    ensures forall k, m, i, j :: k < m && ListedAs(b, backlog, k, i) && ListedAs(b, backlog, m, j) ==> !Before(backlog[j], backlog[i])
  {
    forall k, i | ListedAs(b, backlog, k, i)
      ensures backlog[i] == sel[k]
    {
      assert sel[k] in sel;
      var j :| 0 <= j < |backlog| && backlog[j] == sel[k];
      assert i == j;
    }
  }

  lemma ListedBeatRest(backlog: seq<Task>, sel: seq<Task>, b: Batch)
    requires DistinctIds(backlog) && b.taskIds == Ids(sel) && forall t :: t in sel ==> t in backlog
    requires forall t, u :: t in sel && u in backlog && Ready(backlog, u) && u !in sel ==> !TaskLess(u, t)
    ensures forall i, j :: ListedAt(b, backlog, i) && ReadyAt(backlog, j) && !ListedAt(b, backlog, j) ==> !Before(backlog[j], backlog[i])
  {
    forall i, j | ListedAt(b, backlog, i) && ReadyAt(backlog, j) && !ListedAt(b, backlog, j)
      ensures !Before(backlog[j], backlog[i])
    {
      ListedIsSelected(backlog, sel, i);
      ListedIsSelected(backlog, sel, j);
      ReadyIsReadyAt(backlog, j);
      assert backlog[j] in backlog && !TaskLess(backlog[j], backlog[i]);
    }
  }

  lemma ListedIsSelected(backlog: seq<Task>, sel: seq<Task>, i: nat)
    requires DistinctIds(backlog) && i < |backlog| && forall t :: t in sel ==> t in backlog
    ensures backlog[i].id in Ids(sel) <==> backlog[i] in sel
  {
    if backlog[i].id in Ids(sel) {
      var k :| 0 <= k < |sel| && sel[k].id == backlog[i].id;
      assert sel[k] in backlog;
    }
    if backlog[i] in sel {
      var k :| 0 <= k < |sel| && sel[k] == backlog[i];
      assert Ids(sel)[k] == backlog[i].id;
    }
  }

  lemma StartsTheBatch(s: State, call: Call)
    requires call.command.StartBatch? && DistinctIds(s.backlog) && Exec(s, call).Some?
    ensures ModeOf(s, call.command.modeName) in call.modes
    ensures var mode := ModeOf(s, call.command.modeName); Started(s, Exec(s, call).value, mode, call.modes[mode], call.now)
  {
    var (s', mode) := (Exec(s, call).value, ModeOf(s, call.command.modeName));
    assert mode == EffectiveMode(s, call.command.modeName);
    var b := s'.batches[|s.batches|];
    SelectListsBest(s.backlog, call.modes[mode], b);
    NumberOfId(TopBatch(s.batches) + 1);
    AboveTopBatch(s.batches, b.id);
  }

  /** A task is listed by no start while one of its dependencies is unsettled. */
  lemma DependentsWait(s: State, call: Call, i: nat, d: string)
    requires call.command.StartBatch? && DistinctIds(s.backlog) && Exec(s, call).Some?
    requires i < |s.backlog| && d in s.backlog[i].depends && !Settled(s.backlog, d)
    ensures s.backlog[i].id !in Exec(s, call).value.batches[|s.batches|].taskIds
    ensures Exec(s, call).value.backlog[i] == s.backlog[i]
  {
    StartsTheBatch(s, call);
    assert !ReadyAt(s.backlog, i);
  }

  // ---------- Finishing a batch ----------

  /** The task of that id has that status. */
  predicate HasStatus(backlog: seq<Task>, id: string, status: Status)
  {
    exists i :: 0 <= i < |backlog| && backlog[i].id == id && backlog[i].status == status
  }

  lemma StatusIs(backlog: seq<Task>, id: string, status: Status)
    requires DistinctIds(backlog)
    ensures StatusOf(backlog, id) == Some(status) <==> HasStatus(backlog, id, status)
  {
    var i := Find(backlog, id);
    if HasStatus(backlog, id, status) {
      var j :| 0 <= j < |backlog| && backlog[j].id == id && backlog[j].status == status;
      assert i == j;
    }
  }

  predicate IsActive(b: Batch)
  {
    b.status == Active
  }

  /** A finish succeeds if and only if a batch is active and every task of every active batch is done, failed or put off. */
  lemma FinishesIff(s: State, call: Call)
    requires call.command.FinishBatch? && DistinctIds(s.backlog)
    ensures Exec(s, call).Some? <==>
      && (exists k :: 0 <= k < |s.batches| && IsActive(s.batches[k]))
      && forall k, id :: 0 <= k < |s.batches| && IsActive(s.batches[k]) && id in s.batches[k].taskIds ==>
           HasStatus(s.backlog, id, Done) || HasStatus(s.backlog, id, Failed) || HasStatus(s.backlog, id, Deferred)
  {
    forall id, st
      ensures StatusOf(s.backlog, id) == Some(st) <==> HasStatus(s.backlog, id, st)
    {
      StatusIs(s.backlog, id, st);
    }
  }

  /** An active batch is closed: failed if one of its tasks failed, completed otherwise, with the ids of its done and of its
      failed tasks, each in the batch's order. */
  ghost predicate ClosedAs(b: Batch, b': Batch, backlog: seq<Task>, now: string)
  {
    if b.status != Active then b' == b
    else
      && b' == b.(status := b'.status, completedAt := Some(now), completedIds := b'.completedIds, failedIds := b'.failedIds)
      && b'.status == (if exists id :: id in b.taskIds && HasStatus(backlog, id, Failed) then Broken else Succeeded)
      && b'.completedIds == Filter(b.taskIds, (id: string) => HasStatus(backlog, id, Done))
      && b'.failedIds == Filter(b.taskIds, (id: string) => HasStatus(backlog, id, Failed))
  }

  ghost predicate AllClosed(batches: seq<Batch>, batches': seq<Batch>, backlog: seq<Task>, now: string)
  {
    |batches'| == |batches| && forall k :: 0 <= k < |batches| ==> ClosedAs(batches[k], batches'[k], backlog, now)
  }

  ghost predicate Finished(s: State, s': State, now: string)
  {
    && AllClosed(s.batches, s'.batches, s.backlog, now)
    && s'.batchesCompleted == s.batchesCompleted + |Positions(s.batches, IsActive)|
    && s' == s.(batches := s'.batches, batchesCompleted := s'.batchesCompleted, currentBatch := None)
  }

  lemma {:induction false} FilterAgrees<T>(s: seq<T>, p: T -> bool, q: T -> bool)
    requires forall x :: x in s ==> p(x) == q(x)
    ensures Filter(s, p) == Filter(s, q)
  {
    if s != [] { FilterAgrees(s[1..], p, q); }
  }

  lemma KeepIs(ids: seq<string>, backlog: seq<Task>, st: Status)
    requires DistinctIds(backlog)
    ensures Keep(ids, backlog, st) == Filter(ids, (id: string) => HasStatus(backlog, id, st))
  {
    var (p, q) := ((id: string) => StatusOf(backlog, id) == Some(st), (id: string) => HasStatus(backlog, id, st));
    forall id
      ensures p(id) == q(id)
    {
      StatusIs(backlog, id, st);
    }
    FilterAgrees(ids, p, q);
  }

  lemma ClosesTheBatch(b: Batch, backlog: seq<Task>, now: string)
    requires DistinctIds(backlog)
    ensures ClosedAs(b, Close(b, backlog, now), backlog, now)
  {
    KeepIs(b.taskIds, backlog, Done);
    KeepIs(b.taskIds, backlog, Failed);
    var p := (id: string) => HasStatus(backlog, id, Failed);
    var failed := Filter(b.taskIds, p);
    forall id
      ensures id in failed <==> id in b.taskIds && HasStatus(backlog, id, Failed)
    {
      FilterMember(b.taskIds, p, id);
    }
    if failed != [] { assert failed[0] in failed; }
  }

  lemma {:induction false} ActiveCount(batches: seq<Batch>)
    ensures CountActive(batches) == |Positions(batches, IsActive)|
  {
    if batches == [] {
      assert Positions(batches, IsActive) == {};
    } else {
      var n := |batches| - 1;
      ActiveCount(batches[..n]);
      PositionsSnoc(batches[..n], batches[n], IsActive);
      assert batches == batches[..n] + [batches[n]];
    }
  }

  lemma ClosesAll(batches: seq<Batch>, backlog: seq<Task>, now: string)
    requires DistinctIds(backlog)
    ensures AllClosed(batches, CloseAll(batches, backlog, now), backlog, now)
  {
    forall k | 0 <= k < |batches|
      ensures ClosedAs(batches[k], CloseAll(batches, backlog, now)[k], backlog, now)
    {
      ClosesTheBatch(batches[k], backlog, now);
    }
  }

  lemma FinishedBy(s: State, s': State, batches: seq<Batch>, n: nat, now: string)
    requires AllClosed(s.batches, batches, s.backlog, now) && n == |Positions(s.batches, IsActive)|
    requires s' == s.(batches := batches, batchesCompleted := s.batchesCompleted + n, currentBatch := None)
    ensures Finished(s, s', now)
  {
  }

  lemma FinishIs(s: State, call: Call)
    requires call.command.FinishBatch? && Exec(s, call).Some?
    ensures Exec(s, call).value == s.(batches := CloseAll(s.batches, s.backlog, call.now),
                                      batchesCompleted := s.batchesCompleted + CountActive(s.batches), currentBatch := None)
  {
  }

  lemma FinishesTheBatch(s: State, call: Call)
    requires call.command.FinishBatch? && DistinctIds(s.backlog) && Exec(s, call).Some?
    ensures Finished(s, Exec(s, call).value, call.now)
  {
    var closed := CloseAll(s.batches, s.backlog, call.now);
    ClosesAll(s.batches, s.backlog, call.now);
    ActiveCount(s.batches);
    FinishIs(s, call);
    FinishedBy(s, Exec(s, call).value, closed, CountActive(s.batches), call.now);
  }

  // ---------- The small commands ----------

  /** The first task of that id is in progress. */
  ghost predicate Running(backlog: seq<Task>, id: string)
  {
    exists i :: FirstWithId(backlog, i, id) && backlog[i].status == InProgress
  }

  /** A heartbeat and a checkpoint set one field; an operator's mark changes the status of the first task of that id, and
      only if it is running and the mark says failed or put off. */
  lemma SmallCommands(s: State, call: Call)
    ensures call.command.Heartbeat? ==> Exec(s, call) == Some(s.(heartbeat := Some(call.now)))
    ensures call.command.Checkpoint? ==> Exec(s, call) == Some(s.(checkpoint := Some((call.command.instruction, call.now))))
    ensures call.command.Mark? ==>
      (Exec(s, call).Some? <==> call.command.outcome in {Failed, Deferred} && Running(s.backlog, call.command.taskId))
    ensures call.command.Mark? && Exec(s, call).Some? ==>
      forall i :: FirstWithId(s.backlog, i, call.command.taskId) ==>
        Exec(s, call).value == s.(backlog := s.backlog[i := s.backlog[i].(status := call.command.outcome)])
  {
    if call.command.Mark? {
      var i := Find(s.backlog, call.command.taskId);
      assert i < |s.backlog| ==> FirstWithId(s.backlog, i, call.command.taskId);
      assert forall j :: FirstWithId(s.backlog, j, call.command.taskId) ==> j == i;
    }
  }

  /** The effect of a command that succeeds. */
  ghost predicate Effect(s: State, s': State, call: Call)
  {
    match call.command
    case Add(description, priority, depends, group) => Added(s, s', description, priority, depends, group, call.now)
    case Complete(id) => MarkedDone(s, s', id, call.now)
    case StartBatch(name) =>
      ModeOf(s, name) in call.modes && Started(s, s', ModeOf(s, name), call.modes[ModeOf(s, name)], call.now)
    case FinishBatch => Finished(s, s', call.now)
    case Heartbeat => s' == s.(heartbeat := Some(call.now))
    case Checkpoint(text) => s' == s.(checkpoint := Some((text, call.now)))
    case Mark(id, outcome) =>
      exists i :: FirstWithId(s.backlog, i, id) && s' == s.(backlog := s.backlog[i := s.backlog[i].(status := outcome)])
  }

  lemma ExecHasEffect(s: State, call: Call)
    requires DistinctIds(s.backlog) && Exec(s, call).Some?
    ensures Effect(s, Exec(s, call).value, call)
  {
    match call.command
    case Add(_, _, _, _) => AddsTheTask(s, call);
    case Complete(_) => CompletesTheTask(s, call);
    case StartBatch(_) => StartsTheBatch(s, call);
    case FinishBatch => FinishesTheBatch(s, call);
    case Heartbeat =>
    case Checkpoint(_) =>
    case Mark(_, _) => SmallCommands(s, call);
  }
}
