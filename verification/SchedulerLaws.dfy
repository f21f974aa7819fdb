/** What every sequence of scheduler commands keeps, and how the backlog drains. */
module SchedulerLaws {
  import opened Options
  import opened Sorting
  import opened Text
  import opened Scheduler

  // ---------- The invariant ----------

  ghost predicate DistinctIds(backlog: seq<Task>)
  {
    forall i, j :: 0 <= i < j < |backlog| ==> backlog[i].id != backlog[j].id
  }

  /** Ids are numbered in the order the tasks were added. */
  ghost predicate Numbered(backlog: seq<Task>)
  {
    forall i, j :: 0 <= i < j < |backlog| ==> TaskNumber(backlog[i].id) < TaskNumber(backlog[j].id)
  }

  ghost predicate DistinctBatchIds(batches: seq<Batch>)
  {
    forall i, j :: 0 <= i < j < |batches| ==> batches[i].id != batches[j].id
  }

  ghost predicate OneActive(batches: seq<Batch>)
  {
    forall i, j :: 0 <= i < |batches| && 0 <= j < |batches| && batches[i].status.Active? && batches[j].status.Active? ==> i == j
  }

  /** Batch `k` lists the id. */
  predicate Lists(batches: seq<Batch>, k: int, id: string)
  {
    0 <= k < |batches| && id in batches[k].taskIds
  }

  ghost predicate ListedOnce(batches: seq<Batch>)
  {
    && (forall k :: 0 <= k < |batches| ==> Distinct(batches[k].taskIds))
    && (forall k, m, id :: Lists(batches, k, id) && Lists(batches, m, id) ==> k == m)
  }

  /** A listed id names a claimed task of that batch, whose dependencies are all resolved. */
  predicate GoodListing(s: State, k: int, id: string)
  {
    var i := Find(s.backlog, id);
    && 0 <= k < |s.batches|
    && i < |s.backlog|
    && !s.backlog[i].status.Pending?
    && s.backlog[i].batchId == Some(s.batches[k].id)
    && DependenciesMet(s.backlog, s.backlog[i])
  }

  ghost predicate AllListings(s: State)
  {
    forall k, id :: Lists(s.batches, k, id) ==> GoodListing(s, k, id)
  }

  /** A running task is listed in an active batch. */
  ghost predicate RunningIsListed(s: State, i: int)
    requires 0 <= i < |s.backlog|
  {
    s.backlog[i].status.InProgress? ==>
      exists k :: Lists(s.batches, k, s.backlog[i].id) && s.batches[k].status.Active?
  }

  ghost predicate AllRunningListed(s: State)
  {
    forall i :: 0 <= i < |s.backlog| ==> RunningIsListed(s, i)
  }

  /** Whatever a listed task depends on was listed, if at all, in an earlier batch. */
  ghost predicate DependenciesFirst(s: State)
  {
    forall k, m, id, d :: Lists(s.batches, k, id) && Lists(s.batches, m, d) && d in DependsOf(s.backlog, id) ==> m < k
  }

  function DependsOf(backlog: seq<Task>, id: string): seq<string>
  {
    var i := Find(backlog, id);
    if i < |backlog| then backlog[i].depends else []
  }

  ghost predicate Inv(s: State)
  {
    && DistinctIds(s.backlog)
    && Numbered(s.backlog)
    && DistinctBatchIds(s.batches)
    && OneActive(s.batches)
    && ListedOnce(s.batches)
    && AllListings(s)
    && AllRunningListed(s)
    && DependenciesFirst(s)
  }

  lemma FindAt(backlog: seq<Task>, i: nat)
    requires DistinctIds(backlog) && i < |backlog|
    ensures Find(backlog, backlog[i].id) == i
  {
  }

  lemma FindUnique(a: seq<Task>, b: seq<Task>, id: string)
    requires |a| <= |b| && (forall i :: 0 <= i < |a| ==> a[i].id == b[i].id) && Find(a, id) < |a|
    ensures Find(b, id) == Find(a, id)
  {
    var i := Find(a, id);
    assert a[i].id == id && b[i].id == id;
  }

  /** A change of the backlog that keeps every id, dependency list and batch, and never unresolves a task. */
  predicate Advances(a: seq<Task>, b: seq<Task>)
  {
    && |a| <= |b|
    && forall i :: 0 <= i < |a| ==>
      && b[i].id == a[i].id && b[i].depends == a[i].depends
      && (IsResolved(a[i].status) ==> IsResolved(b[i].status))
      && (!a[i].status.Pending? ==> !b[i].status.Pending? && b[i].batchId == a[i].batchId)
  }

  lemma DependenciesStayMet(a: seq<Task>, b: seq<Task>, t: Task, u: Task)
    requires Advances(a, b) && DependenciesMet(a, t) && u.depends == t.depends
    ensures DependenciesMet(b, u)
  {
    forall d | d in u.depends
      ensures Resolved(b, d)
    {
      assert Resolved(a, d);
      var i :| 0 <= i < |a| && a[i].id == d && IsResolved(a[i].status);
      assert b[i].id == d && IsResolved(b[i].status);
    }
  }

  lemma ListingStays(s: State, s': State, k: int, id: string)
    requires Advances(s.backlog, s'.backlog) && Lists(s.batches, k, id) && GoodListing(s, k, id)
    requires k < |s'.batches| && s'.batches[k].id == s.batches[k].id
    ensures GoodListing(s', k, id) && DependsOf(s'.backlog, id) == DependsOf(s.backlog, id)
  {
    FindUnique(s.backlog, s'.backlog, id);
    var i := Find(s.backlog, id);
    DependenciesStayMet(s.backlog, s'.backlog, s.backlog[i], s'.backlog[i]);
  }

  /** Edits that leave the batches alone keep everything said about listings. */
  lemma BacklogEdit(s: State, s': State)
    requires Inv(s) && s'.batches == s.batches && Advances(s.backlog, s'.backlog) && DistinctIds(s'.backlog) && Numbered(s'.backlog)
    requires forall i :: 0 <= i < |s'.backlog| && s'.backlog[i].status.InProgress? ==>
      i < |s.backlog| && s.backlog[i].status.InProgress?
    ensures Inv(s')
  {
    forall k, id | Lists(s.batches, k, id)
      ensures GoodListing(s', k, id) && DependsOf(s'.backlog, id) == DependsOf(s.backlog, id)
    {
      ListingStays(s, s', k, id);
    }
    forall i | 0 <= i < |s'.backlog|
      ensures RunningIsListed(s', i)
    {
      assert i < |s.backlog| ==> RunningIsListed(s, i);
    }
  }

  /** A new task with a new, larger number takes its place at the end. */
  lemma AppendKeeps(s: State, t: Task)
    requires Inv(s) && !t.status.InProgress?
    requires forall i :: 0 <= i < |s.backlog| ==> s.backlog[i].id != t.id && TaskNumber(s.backlog[i].id) < TaskNumber(t.id)
    ensures Inv(s.(backlog := s.backlog + [t]))
  {
    var s' := s.(backlog := s.backlog + [t]);
    assert forall i :: 0 <= i < |s.backlog| ==> s'.backlog[i] == s.backlog[i];
    BacklogEdit(s, s');
  }

  lemma AddKeeps(s: State, call: Call)
    requires Inv(s) && call.command.Add?
    ensures Inv(Exec(s, call).value)
  {
    var t := NewTask(s, call.command, call.now);
    NumberOfId(TopTask(s.backlog) + 1);
    AboveTop(s.backlog, t.id);
    AppendKeeps(s, t);
  }

  lemma CompleteKeeps(s: State, call: Call)
    requires Inv(s) && call.command.Complete?
    ensures Inv(Exec(s, call).value)
  {
    BacklogEdit(s, Exec(s, call).value);
  }

  lemma MarkKeeps(s: State, call: Call)
    requires Inv(s) && call.command.Mark? && Exec(s, call).Some?
    ensures Inv(Exec(s, call).value)
  {
    var s' := Exec(s, call).value;
    forall i | 0 <= i < |s.backlog| && !s'.backlog[i].status.InProgress?
      ensures IsResolved(s.backlog[i].status) ==> IsResolved(s'.backlog[i].status)
    {
    }
    BacklogEdit(s, s');
  }

  lemma ActiveIsSettled(s: State, k: int, id: string)
    requires AllSettled(s) && Lists(s.batches, k, id) && s.batches[k].status.Active?
    ensures IsSettled(StatusOf(s.backlog, id))
  {
  }

  /** Once every task of the active batch is settled, nothing is running. */
  lemma SettledMeansIdle(s: State, i: nat)
    requires DistinctIds(s.backlog) && AllRunningListed(s) && AllSettled(s) && i < |s.backlog|
    ensures !s.backlog[i].status.InProgress?
  {
    assert RunningIsListed(s, i);
    FindAt(s.backlog, i);
    if s.backlog[i].status.InProgress? {
      var k :| Lists(s.batches, k, s.backlog[i].id) && s.batches[k].status.Active?;
      ActiveIsSettled(s, k, s.backlog[i].id);
    }
  }

  lemma FinishKeeps(s: State, call: Call)
    requires Inv(s) && call.command.FinishBatch? && Exec(s, call).Some?
    ensures Inv(Exec(s, call).value)
  {
    var s' := Exec(s, call).value;
    forall k | 0 <= k < |s.batches|
      ensures s'.batches[k].taskIds == s.batches[k].taskIds && s'.batches[k].id == s.batches[k].id
      ensures !s'.batches[k].status.Active?
    {
    }
    forall i | 0 <= i < |s.backlog|
      ensures RunningIsListed(s', i)
    {
      SettledMeansIdle(s, i);
    }
    SameListings(s, s');
  }

  /** Nothing said about listings depends on how far a batch has got. */
  lemma SameListings(s: State, s': State)
    requires Inv(s) && s'.backlog == s.backlog && |s'.batches| == |s.batches|
    requires forall k :: 0 <= k < |s.batches| ==>
      s'.batches[k].taskIds == s.batches[k].taskIds && s'.batches[k].id == s.batches[k].id
    ensures DistinctBatchIds(s'.batches) && ListedOnce(s'.batches) && AllListings(s') && DependenciesFirst(s')
  {
    assert forall k, id :: Lists(s'.batches, k, id) <==> Lists(s.batches, k, id);
    forall k, id | Lists(s'.batches, k, id)
      ensures GoodListing(s', k, id)
    {
      assert GoodListing(s, k, id);
    }
  }

  lemma DistinctTasks(backlog: seq<Task>)
    requires DistinctIds(backlog)
    ensures Distinct(backlog)
  {
  }

  lemma IdsDistinct(backlog: seq<Task>, sel: seq<Task>)
    requires DistinctIds(backlog) && Distinct(sel) && forall t :: t in sel ==> t in backlog
    ensures Distinct(Ids(sel))
  {
    forall i, j | 0 <= i < j < |sel|
      ensures sel[i].id != sel[j].id
    {
      assert sel[i] in backlog && sel[j] in backlog;
      var a :| 0 <= a < |backlog| && backlog[a] == sel[i];
      var b :| 0 <= b < |backlog| && backlog[b] == sel[j];
      assert a != b;
    }
  }

  /** An id taken from the selection is that of a ready task of the backlog. */
  lemma SelectedId(backlog: seq<Task>, limit: nat, id: string)
    requires DistinctIds(backlog) && id in Ids(Select(backlog, limit))
    ensures var i := Find(backlog, id); i < |backlog| && Ready(backlog, backlog[i])
  {
    DistinctTasks(backlog);
    SelectSound(backlog, limit);
    var sel := Select(backlog, limit);
    var j :| 0 <= j < |sel| && sel[j].id == id;
    assert sel[j] in backlog;
    var i :| 0 <= i < |backlog| && backlog[i] == sel[j];
    FindAt(backlog, i);
  }

  lemma ClaimAdvances(backlog: seq<Task>, ids: seq<string>, now: string, batchId: string)
    requires DistinctIds(backlog)
    requires forall id :: id in ids ==> var i := Find(backlog, id); i < |backlog| && Ready(backlog, backlog[i])
    ensures Advances(backlog, ClaimAll(backlog, ids, now, batchId))
  {
    forall i | 0 <= i < |backlog| && backlog[i].id in ids
      ensures backlog[i].status.Pending?
    {
      FindAt(backlog, i);
    }
  }

  /** The new batch: its ids are listed nowhere else, each names a task it just claimed, and no old task waits for one. */
  lemma NewBatchListings(s: State, s': State, ids: seq<string>, id: string)
    requires Inv(s) && id in ids && Advances(s.backlog, s'.backlog)
    requires |s'.batches| == |s.batches| + 1 && s'.batches[|s.batches|].taskIds == ids
    requires s'.backlog == ClaimAll(s.backlog, ids, s'.batches[|s.batches|].startedAt, s'.batches[|s.batches|].id)
    requires var i := Find(s.backlog, id); i < |s.backlog| && Ready(s.backlog, s.backlog[i])
    ensures GoodListing(s', |s.batches|, id)
    ensures forall k :: !Lists(s.batches, k, id)
    ensures forall d :: d in DependsOf(s'.backlog, id) ==> Resolved(s.backlog, d)
    ensures forall k, other :: Lists(s.batches, k, other) ==> id !in DependsOf(s.backlog, other)
  {
    var i := Find(s.backlog, id);
    FindUnique(s.backlog, s'.backlog, id);
    DependenciesStayMet(s.backlog, s'.backlog, s.backlog[i], s'.backlog[i]);
    forall k
      ensures !Lists(s.batches, k, id)
    {
      assert Lists(s.batches, k, id) ==> GoodListing(s, k, id);
    }
    forall k, other | Lists(s.batches, k, other)
      ensures id !in DependsOf(s.backlog, other)
    {
      assert GoodListing(s, k, other);
      if id in DependsOf(s.backlog, other) { PendingIsUnresolved(s.backlog, i); }
    }
  }

  lemma PendingIsUnresolved(backlog: seq<Task>, i: nat)
    requires DistinctIds(backlog) && i < |backlog| && backlog[i].status.Pending?
    ensures !Resolved(backlog, backlog[i].id)
  {
  }

  lemma StartBatches(s: State, b: Batch)
    requires Inv(s) && !HasActive(s.batches) && forall k :: 0 <= k < |s.batches| ==> s.batches[k].id != b.id
    ensures DistinctBatchIds(s.batches + [b]) && OneActive(s.batches + [b])
  {
  }

  lemma StartKeeps(s: State, call: Call)
    requires Inv(s) && call.command.StartBatch? && Exec(s, call).Some?
    ensures Inv(Exec(s, call).value)
  {
    var s' := Exec(s, call).value;
    var mode := EffectiveMode(s, call.command.modeName);
    var limit := Limit(call.modes[mode]);
    var (ids, n) := (Ids(Select(s.backlog, limit)), |s.batches|);
    DistinctTasks(s.backlog);
    SelectSound(s.backlog, limit);
    IdsDistinct(s.backlog, Select(s.backlog, limit));
    forall id | id in ids
      ensures var i := Find(s.backlog, id); i < |s.backlog| && Ready(s.backlog, s.backlog[i])
    {
      SelectedId(s.backlog, limit, id);
    }
    ClaimAdvances(s.backlog, ids, call.now, s'.batches[n].id);
    NumberOfId(TopBatch(s.batches) + 1);
    AboveTopBatch(s.batches, s'.batches[n].id);
    StartBatches(s, s'.batches[n]);
    StartListings(s, s', ids);
    forall i | 0 <= i < |s'.backlog|
      ensures RunningIsListed(s', i)
    {
      if s'.backlog[i].id in ids {
        assert Lists(s'.batches, n, s'.backlog[i].id);
      } else {
        assert RunningIsListed(s, i);
      }
    }
  }

  lemma StartListings(s: State, s': State, ids: seq<string>)
    requires Inv(s) && Distinct(ids) && |s'.batches| == |s.batches| + 1
    requires s'.batches[..|s.batches|] == s.batches && s'.batches[|s.batches|].taskIds == ids
    requires Advances(s.backlog, s'.backlog)
    requires s'.backlog == ClaimAll(s.backlog, ids, s'.batches[|s.batches|].startedAt, s'.batches[|s.batches|].id)
    requires forall id :: id in ids ==> var i := Find(s.backlog, id); i < |s.backlog| && Ready(s.backlog, s.backlog[i])
    ensures ListedOnce(s'.batches) && AllListings(s') && DependenciesFirst(s')
  {
    var n := |s.batches|;
    forall k, id
      ensures Lists(s'.batches, k, id) <==> Lists(s.batches, k, id) || (k == n && id in ids)
    {
      if 0 <= k < n { assert s'.batches[k] == s.batches[k]; }
    }
    forall k, id | Lists(s.batches, k, id)
      ensures GoodListing(s', k, id) && DependsOf(s'.backlog, id) == DependsOf(s.backlog, id)
    {
      assert s'.batches[k] == s.batches[k];
      ListingStays(s, s', k, id);
    }
    forall id | id in ids
      ensures GoodListing(s', n, id) && (forall k :: !Lists(s.batches, k, id))
      ensures forall d :: d in DependsOf(s'.backlog, id) ==> Resolved(s.backlog, d)
      ensures forall k, other :: Lists(s.batches, k, other) ==> id !in DependsOf(s.backlog, other)
    {
      NewBatchListings(s, s', ids, id);
    }
    forall k | 0 <= k < |s'.batches|
      ensures Distinct(s'.batches[k].taskIds)
    {
      if k < n { assert s'.batches[k] == s.batches[k]; }
    }
    forall id, d | id in ids && d in DependsOf(s'.backlog, id)
      ensures d !in ids
    {
      if d in ids { PendingIsUnresolved(s.backlog, Find(s.backlog, d)); }
    }
  }

  /** Every command keeps the invariant. */
  lemma ExecKeeps(s: State, call: Call)
    requires Inv(s) && Exec(s, call).Some?
    ensures Inv(Exec(s, call).value)
  {
    match call.command
    case Add(_, _, _, _) => AddKeeps(s, call);
    case Complete(_) => CompleteKeeps(s, call);
    case StartBatch(_) => StartKeeps(s, call);
    case FinishBatch => FinishKeeps(s, call);
    case Mark(_, _) => MarkKeeps(s, call);
    case _ => BacklogEdit(s, Exec(s, call).value);
  }

  /** The state after a sequence of commands; one that exits with an error saves nothing. */
  function Replay(s: State, calls: seq<Call>): State
  {
    if calls == [] then s
    else
      var before := Replay(s, calls[..|calls| - 1]);
      match Exec(before, calls[|calls| - 1]) case Some(after) => after case None => before
  }

  lemma DefaultInv()
    ensures Inv(DEFAULT_STATE)
  {
  }

  lemma {:induction false} ReplayKeeps(calls: seq<Call>)
    ensures Inv(Replay(DEFAULT_STATE, calls))
  {
    if calls == [] {
      DefaultInv();
    } else {
      var before := Replay(DEFAULT_STATE, calls[..|calls| - 1]);
      ReplayKeeps(calls[..|calls| - 1]);
      if Exec(before, calls[|calls| - 1]).Some? { ExecKeeps(before, calls[|calls| - 1]); }
    }
  }

  // ---------- Draining the backlog ----------

  function CountPending(backlog: seq<Task>): nat
  {
    if backlog == [] then 0
    else CountPending(backlog[..|backlog| - 1]) + if backlog[|backlog| - 1].status.Pending? then 1 else 0
  }

  /** Fewer tasks are pending when some stop being pending and none starts. */
  lemma {:induction false} PendingDrops(a: seq<Task>, b: seq<Task>, i: nat)
    requires |a| == |b| && forall j :: 0 <= j < |a| && b[j].status.Pending? ==> a[j].status.Pending?
    ensures CountPending(b) <= CountPending(a)
    ensures i < |a| && a[i].status.Pending? && !b[i].status.Pending? ==> CountPending(b) < CountPending(a)
  {
    if a != [] { PendingDrops(a[..|a| - 1], b[..|b| - 1], i); }
  }

  lemma {:induction false} NonePending(backlog: seq<Task>, i: nat)
    requires CountPending(backlog) == 0 && i < |backlog|
    ensures !backlog[i].status.Pending?
  {
    if i < |backlog| - 1 { NonePending(backlog[..|backlog| - 1], i); }
  }

  lemma {:induction false} SomePending(backlog: seq<Task>) returns (i: nat)
    requires CountPending(backlog) > 0
    ensures i < |backlog| && backlog[i].status.Pending?
    ensures forall j :: 0 <= j < i ==> !backlog[j].status.Pending?
  {
    var front := backlog[..|backlog| - 1];
    if CountPending(front) > 0 {
      i := SomePending(front);
    } else {
      i := |backlog| - 1;
      forall j | 0 <= j < i
        ensures !backlog[j].status.Pending?
      {
        NonePending(front, j);
      }
    }
  }

  /** Every dependency names an existing task with a lower number. */
  ghost predicate Grounded(backlog: seq<Task>)
  {
    forall i, d :: 0 <= i < |backlog| && d in backlog[i].depends ==> NamesLower(backlog, TaskNumber(backlog[i].id), d)
  }

  ghost predicate NamesLower(backlog: seq<Task>, number: nat, d: string)
  {
    exists j :: 0 <= j < |backlog| && backlog[j].id == d && TaskNumber(d) < number
  }

  /** No batch is open, nothing has failed, dependencies look back, and the mode exists. */
  ghost predicate Drainable(s: State, call: Call)
  {
    && Inv(s) && !HasActive(s.batches) && Grounded(s.backlog)
    && (forall i :: 0 <= i < |s.backlog| ==> !s.backlog[i].status.Failed?)
    && call.command.StartBatch? && EffectiveMode(s, call.command.modeName) in call.modes
  }

  lemma NothingRuns(s: State, i: nat)
    requires AllRunningListed(s) && !HasActive(s.batches) && i < |s.backlog|
    ensures !s.backlog[i].status.InProgress?
  {
    assert RunningIsListed(s, i);
  }

  /** The first pending task waits for nothing, so there is always something to claim. */
  lemma FirstPendingIsReady(s: State, call: Call, i: nat)
    requires Drainable(s, call) && i < |s.backlog| && s.backlog[i].status.Pending?
    requires forall j :: 0 <= j < i ==> !s.backlog[j].status.Pending?
    ensures Ready(s.backlog, s.backlog[i])
  {
    forall d | d in s.backlog[i].depends
      ensures Resolved(s.backlog, d)
    {
      assert NamesLower(s.backlog, TaskNumber(s.backlog[i].id), d);
      var j :| 0 <= j < |s.backlog| && s.backlog[j].id == d && TaskNumber(d) < TaskNumber(s.backlog[i].id);
      assert j < i;
      NothingRuns(s, j);
      assert IsResolved(s.backlog[j].status);
    }
  }

  /** Complete each of the ids in turn. */
  function CompleteAll(s: State, ids: seq<string>, now: string): State
  {
    if ids == [] then s
    else Exec(CompleteAll(s, ids[..|ids| - 1], now), Call(Complete(ids[|ids| - 1]), now, map[])).value
  }

  lemma CompleteEffect(s: State, id: string, now: string)
    requires DistinctIds(s.backlog)
    ensures var s' := Exec(s, Call(Complete(id), now, map[])).value;
      && s'.batches == s.batches && s'.mode == s.mode && |s'.backlog| == |s.backlog|
      && forall i :: 0 <= i < |s.backlog| ==>
           && s'.backlog[i].id == s.backlog[i].id && s'.backlog[i].depends == s.backlog[i].depends
           && s'.backlog[i].status == if s.backlog[i].id == id then Done else s.backlog[i].status
  {
    forall i | 0 <= i < |s.backlog| && s.backlog[i].id == id
      ensures Find(s.backlog, id) == i
    {
      FindAt(s.backlog, i);
    }
  }

  /** Completing some ids changes the status of exactly those tasks, to done. */
  lemma {:induction false} CompleteAllEffect(s: State, ids: seq<string>, now: string)
    requires DistinctIds(s.backlog)
    ensures var s' := CompleteAll(s, ids, now);
      && s'.batches == s.batches && s'.mode == s.mode && |s'.backlog| == |s.backlog|
      && forall i :: 0 <= i < |s.backlog| ==>
           && s'.backlog[i].id == s.backlog[i].id && s'.backlog[i].depends == s.backlog[i].depends
           && s'.backlog[i].status == if s.backlog[i].id in ids then Done else s.backlog[i].status
  {
    if ids != [] {
      var (front, last) := (ids[..|ids| - 1], ids[|ids| - 1]);
      CompleteAllEffect(s, front, now);
      assert ids == front + [last];
      CompleteEffect(CompleteAll(s, front, now), last, now);
    }
  }

  lemma {:induction false} CompleteAllKeeps(s: State, ids: seq<string>, now: string)
    requires Inv(s)
    ensures Inv(CompleteAll(s, ids, now))
  {
    if ids != [] {
      CompleteAllKeeps(s, ids[..|ids| - 1], now);
      CompleteKeeps(CompleteAll(s, ids[..|ids| - 1], now), Call(Complete(ids[|ids| - 1]), now, map[]));
    }
  }

  /** One round: start a batch, complete each of its tasks, finish the batch. */
  function Round(s: State, start: Call): Option<State>
  {
    match Exec(s, start)
    case None => None
    case Some(claimed) =>
      if claimed.batches == [] then None
      else
        var worked := CompleteAll(claimed, claimed.batches[|claimed.batches| - 1].taskIds, start.now);
        Exec(worked, Call(FinishBatch, start.now, map[]))
  }

  lemma StartSucceeds(s: State, call: Call)
    requires Drainable(s, call) && CountPending(s.backlog) > 0
    ensures Exec(s, call).Some?
  {
    var limit := Limit(call.modes[EffectiveMode(s, call.command.modeName)]);
    var i := SomePending(s.backlog);
    FirstPendingIsReady(s, call, i);
    DistinctTasks(s.backlog);
    SelectSound(s.backlog, limit);
    assert s.backlog[i] in s.backlog;
  }

  /** After the claimed tasks are completed, the batch can be finished. */
  lemma FinishSucceeds(s: State, ids: seq<string>, now: string)
    requires Inv(s) && s.batches != [] && HasActive(s.batches) && s.batches[|s.batches| - 1].status.Active?
    requires s.batches[|s.batches| - 1].taskIds == ids
    ensures Exec(CompleteAll(s, ids, now), Call(FinishBatch, now, map[])).Some?
  {
    var w := CompleteAll(s, ids, now);
    CompleteAllEffect(s, ids, now);
    forall k, id | 0 <= k < |w.batches| && w.batches[k].status.Active? && id in w.batches[k].taskIds
      ensures IsSettled(StatusOf(w.backlog, id))
    {
      assert k == |s.batches| - 1 && Lists(s.batches, k, id);
      ListedIsDone(s, w, k, id);
    }
  }

  lemma ListedIsDone(s: State, w: State, k: int, id: string)
    requires Inv(s) && Lists(s.batches, k, id) && |w.backlog| == |s.backlog|
    requires forall i :: 0 <= i < |s.backlog| ==>
      w.backlog[i].id == s.backlog[i].id && (s.backlog[i].id == id ==> w.backlog[i].status == Done)
    ensures IsSettled(StatusOf(w.backlog, id))
  {
    assert GoodListing(s, k, id);
    FindUnique(s.backlog, w.backlog, id);
  }

  /** What a round leaves: the tasks it claimed are done, nothing else has changed, and no batch is open. */
  lemma RoundEffect(s: State, call: Call)
    requires Drainable(s, call) && CountPending(s.backlog) > 0
    ensures Exec(s, call).Some? && Round(s, call).Some? && Inv(Round(s, call).value)
    ensures var (ids, s') := (Exec(s, call).value.batches[|s.batches|].taskIds, Round(s, call).value);
      && Appends(s.batches, s'.batches, ids)
      && ids != [] && !HasActive(s'.batches) && s'.mode == EffectiveMode(s, call.command.modeName)
      && |s'.backlog| == |s.backlog|
      && forall i :: 0 <= i < |s.backlog| ==>
           && s'.backlog[i].id == s.backlog[i].id && s'.backlog[i].depends == s.backlog[i].depends
           && s'.backlog[i].status == if s.backlog[i].id in ids then Done else s.backlog[i].status
  {
    StartSucceeds(s, call);
    var claimed := Exec(s, call).value;
    ExecKeeps(s, call);
    StartEffect(s, call);
    FinishEffect(claimed, claimed.batches[|s.batches|].taskIds, call.now);
  }

  /** The same batches, as far as their tasks go, and one more that lists exactly the ids. */
  predicate Appends(a: seq<Batch>, b: seq<Batch>, ids: seq<string>)
  {
    && |b| == |a| + 1 && b[|a|].taskIds == ids
    && forall k :: 0 <= k < |a| ==> b[k].taskIds == a[k].taskIds
  }

  /** A batch that starts claims its tasks and nothing else. */
  lemma StartEffect(s: State, call: Call)
    requires call.command.StartBatch? && Exec(s, call).Some?
    ensures var claimed := Exec(s, call).value;
      && |claimed.batches| == |s.batches| + 1 && claimed.batches[|s.batches|].status.Active?
      && Appends(s.batches, claimed.batches, claimed.batches[|s.batches|].taskIds)
      && claimed.mode == EffectiveMode(s, call.command.modeName) && claimed.batches[|s.batches|].taskIds != []
      && |claimed.backlog| == |s.backlog|
      && forall i :: 0 <= i < |s.backlog| ==>
           && claimed.backlog[i].id == s.backlog[i].id && claimed.backlog[i].depends == s.backlog[i].depends
           && (claimed.backlog[i].id in claimed.batches[|s.batches|].taskIds || claimed.backlog[i].status == s.backlog[i].status)
  {
  }

  predicate SameTaskIds(a: seq<Batch>, b: seq<Batch>)
  {
    |b| == |a| && forall k :: 0 <= k < |a| ==> b[k].taskIds == a[k].taskIds
  }

  lemma CloseOne(b: Batch, backlog: seq<Task>, now: string)
    ensures Close(b, backlog, now).taskIds == b.taskIds && !Close(b, backlog, now).status.Active?
  {
  }

  lemma CloseShape(batches: seq<Batch>, backlog: seq<Task>, now: string)
    ensures SameTaskIds(batches, CloseAll(batches, backlog, now)) && !HasActive(CloseAll(batches, backlog, now))
  {
    forall k | 0 <= k < |batches|
      ensures CloseAll(batches, backlog, now)[k].taskIds == batches[k].taskIds
      ensures !CloseAll(batches, backlog, now)[k].status.Active?
    {
      CloseOne(batches[k], backlog, now);
    }
  }

  lemma FinishShape(s: State, now: string)
    requires Exec(s, Call(FinishBatch, now, map[])).Some?
    ensures var r := Exec(s, Call(FinishBatch, now, map[])).value;
      r.backlog == s.backlog && r.mode == s.mode && SameTaskIds(s.batches, r.batches) && !HasActive(r.batches)
  {
    CloseShape(s.batches, s.backlog, now);
  }

  /** Completing a batch's tasks and finishing it. */
  lemma FinishEffect(s: State, ids: seq<string>, now: string)
    requires Inv(s) && s.batches != [] && s.batches[|s.batches| - 1].status.Active? && s.batches[|s.batches| - 1].taskIds == ids
    ensures var r := Exec(CompleteAll(s, ids, now), Call(FinishBatch, now, map[]));
      && r.Some? && Inv(r.value) && SameTaskIds(s.batches, r.value.batches)
      && !HasActive(r.value.batches) && r.value.mode == s.mode && |r.value.backlog| == |s.backlog|
      && forall i :: 0 <= i < |s.backlog| ==>
           && r.value.backlog[i].id == s.backlog[i].id && r.value.backlog[i].depends == s.backlog[i].depends
           && r.value.backlog[i].status == if s.backlog[i].id in ids then Done else s.backlog[i].status
  {
    FinishSucceeds(s, ids, now);
    CompleteAllEffect(s, ids, now);
    CompleteAllKeeps(s, ids, now);
    FinishShape(CompleteAll(s, ids, now), now);
    FinishKeeps(CompleteAll(s, ids, now), Call(FinishBatch, now, map[]));
  }

  lemma GroundedStays(a: seq<Task>, b: seq<Task>)
    requires Settles(a, b) && Grounded(a)
    ensures Grounded(b)
  {
    forall i, d | 0 <= i < |b| && d in b[i].depends
      ensures NamesLower(b, TaskNumber(b[i].id), d)
    {
      assert NamesLower(a, TaskNumber(a[i].id), d);
      var j :| 0 <= j < |a| && a[j].id == d && TaskNumber(d) < TaskNumber(a[i].id);
      assert b[j].id == d;
    }
  }

  /** A round of a drainable backlog succeeds, claims at least one task, and leaves it drainable. */
  lemma RoundProgress(s: State, call: Call)
    requires Drainable(s, call) && CountPending(s.backlog) > 0
    ensures Round(s, call).Some? && Drainable(Round(s, call).value, call)
    ensures CountPending(Round(s, call).value.backlog) < CountPending(s.backlog)
    ensures Settles(s.backlog, Round(s, call).value.backlog)
  {
    RoundEffect(s, call);
    var (ids, s') := (Exec(s, call).value.batches[|s.batches|].taskIds, Round(s, call).value);
    forall i | 0 <= i < |s.backlog| && s.backlog[i].id in ids
      ensures s.backlog[i].status.Pending?
    {
      ClaimedIsPending(s, call, s.backlog[i].id);
      FindAt(s.backlog, i);
    }
    GroundedStays(s.backlog, s'.backlog);
    ClaimedIsPending(s, call, ids[0]);
    PendingDrops(s.backlog, s'.backlog, Find(s.backlog, ids[0]));
  }

  lemma ClaimedIsPending(s: State, call: Call, id: string)
    requires DistinctIds(s.backlog) && call.command.StartBatch? && Exec(s, call).Some?
    requires id in Exec(s, call).value.batches[|s.batches|].taskIds
    ensures var i := Find(s.backlog, id); i < |s.backlog| && s.backlog[i].status.Pending?
  {
    SelectedId(s.backlog, Limit(call.modes[EffectiveMode(s, call.command.modeName)]), id);
  }

  /** The same tasks in the same order, each as it was or moved from pending to done. */
  ghost predicate Settles(a: seq<Task>, b: seq<Task>)
  {
    && |a| == |b|
    && forall i :: 0 <= i < |a| ==>
      && b[i].id == a[i].id && b[i].depends == a[i].depends
      && (b[i].status == a[i].status || (a[i].status.Pending? && b[i].status.Done?))
  }

  lemma SettlesTwice(a: seq<Task>, b: seq<Task>, c: seq<Task>)
    requires Settles(a, b) && Settles(b, c)
    ensures Settles(a, c)
  {
  }

  function Rounds(s: State, call: Call, n: nat): Option<State>
    decreases n
  {
    if n == 0 then Some(s)
    else match Round(s, call) case None => None case Some(s') => Rounds(s', call, n - 1)
  }

  lemma RoundsStep(s: State, call: Call, n: nat, s': State, end: State)
    requires Round(s, call) == Some(s') && Rounds(s', call, n) == Some(end)
    ensures Rounds(s, call, n + 1) == Some(end)
  {
  }

  lemma AllResolved(s: State, call: Call)
    requires Drainable(s, call) && CountPending(s.backlog) == 0
    ensures forall i :: 0 <= i < |s.backlog| ==> IsResolved(s.backlog[i].status)
  {
    forall i | 0 <= i < |s.backlog|
      ensures IsResolved(s.backlog[i].status)
    {
      NonePending(s.backlog, i);
      NothingRuns(s, i);
    }
  }

  /** Since batch `from`, the pending tasks of `a` have all been claimed. */
  ghost predicate AllClaimed(a: seq<Task>, batches: seq<Batch>, from: nat)
  {
    forall i :: 0 <= i < |a| && a[i].status.Pending? ==> ClaimedSince(batches, from, a[i].id)
  }

  ghost predicate ClaimedSince(batches: seq<Batch>, from: nat, id: string)
  {
    exists k :: from <= k && Lists(batches, k, id)
  }

  /** `d` is claimed in an earlier batch than `id`, both since batch `from`. */
  ghost predicate ClaimedBefore(batches: seq<Batch>, from: nat, d: string, id: string)
  {
    exists m, k :: from <= m < k && Lists(batches, m, d) && Lists(batches, k, id)
  }

  /** Task `i` is pending and depends on task `j`, which is pending too. */
  predicate WaitsFor(backlog: seq<Task>, i: int, j: int)
  {
    && 0 <= i < |backlog| && 0 <= j < |backlog|
    && backlog[i].status.Pending? && backlog[j].status.Pending? && backlog[j].id in backlog[i].depends
  }

  /** Older batches keep their tasks. */
  predicate Grows(a: seq<Batch>, b: seq<Batch>, n: nat)
  {
    |b| == |a| + n && forall k :: 0 <= k < |a| ==> b[k].taskIds == a[k].taskIds
  }

  /** What one round claims stays claimed, and the later rounds claim the rest. */
  lemma RoundClaims(s: State, s': State, end: State, ids: seq<string>, n: nat)
    requires Appends(s.batches, s'.batches, ids) && Grows(s'.batches, end.batches, n) && Settles(s.backlog, s'.backlog)
    requires forall i :: 0 <= i < |s.backlog| && s.backlog[i].status.Pending? ==>
      s.backlog[i].id in ids || s'.backlog[i].status.Pending?
    requires AllClaimed(s'.backlog, end.batches, |s'.batches|)
    ensures Grows(s.batches, end.batches, n + 1) && AllClaimed(s.backlog, end.batches, |s.batches|)
  {
    forall i | 0 <= i < |s.backlog| && s.backlog[i].status.Pending?
      ensures ClaimedSince(end.batches, |s.batches|, s.backlog[i].id)
    {
      if s.backlog[i].id in ids {
        assert Lists(end.batches, |s.batches|, s.backlog[i].id);
      } else {
        assert ClaimedSince(end.batches, |s'.batches|, s'.backlog[i].id);
      }
    }
  }

  /** A dependency that was still pending is claimed strictly before its dependent. */
  lemma DependencyClaimedFirst(s: State, end: State, i: nat, j: nat)
    requires Inv(end) && Settles(s.backlog, end.backlog) && AllClaimed(s.backlog, end.batches, |s.batches|)
    requires WaitsFor(s.backlog, i, j)
    ensures ClaimedBefore(end.batches, |s.batches|, s.backlog[j].id, s.backlog[i].id)
  {
    var (id, d) := (s.backlog[i].id, s.backlog[j].id);
    assert ClaimedSince(end.batches, |s.batches|, id) && ClaimedSince(end.batches, |s.batches|, d);
    var k :| |s.batches| <= k && Lists(end.batches, k, id);
    var m :| |s.batches| <= m && Lists(end.batches, m, d);
    assert end.backlog[i].id == id;
    FindAt(end.backlog, i);
    assert d in DependsOf(end.backlog, id);
  }

  ghost predicate OrderKept(s: State, end: State)
  {
    forall i, j :: WaitsFor(s.backlog, i, j) ==> ClaimedBefore(end.batches, |s.batches|, s.backlog[j].id, s.backlog[i].id)
  }

  lemma ClaimedInOrder(s: State, end: State)
    requires Inv(end) && Settles(s.backlog, end.backlog) && AllClaimed(s.backlog, end.batches, |s.batches|)
    ensures OrderKept(s, end)
  {
    forall i, j | WaitsFor(s.backlog, i, j)
      ensures ClaimedBefore(end.batches, |s.batches|, s.backlog[j].id, s.backlog[i].id)
    {
      DependencyClaimedFirst(s, end, i, j);
    }
  }

  lemma NothingToClaim(s: State)
    requires CountPending(s.backlog) == 0
    ensures AllClaimed(s.backlog, s.batches, |s.batches|) && Grows(s.batches, s.batches, 0) && Settles(s.backlog, s.backlog)
  {
    forall i | 0 <= i < |s.backlog|
      ensures !s.backlog[i].status.Pending?
    {
      NonePending(s.backlog, i);
    }
  }

  /** A grounded backlog drains, in no more rounds than it has pending tasks; the rounds only move pending to done.
      Each round adds one batch, every pending task is claimed in one of them, and a dependency among them strictly
      before its dependent. */
  lemma {:induction false} Drains(s: State, call: Call) returns (n: nat, end: State)
    requires Drainable(s, call)
    ensures n <= CountPending(s.backlog) && Rounds(s, call, n) == Some(end)
    ensures Inv(end) && Settles(s.backlog, end.backlog)
    ensures forall i :: 0 <= i < |end.backlog| ==> IsResolved(end.backlog[i].status)
    ensures Grows(s.batches, end.batches, n) && AllClaimed(s.backlog, end.batches, |s.batches|)
    ensures OrderKept(s, end)
    decreases CountPending(s.backlog)
  {
    if CountPending(s.backlog) == 0 {
      n, end := 0, s;
      AllResolved(s, call);
      NothingToClaim(s);
    } else {
      RoundEffect(s, call);
      RoundProgress(s, call);
      var (ids, s') := (Exec(s, call).value.batches[|s.batches|].taskIds, Round(s, call).value);
      n, end := Drains(s', call);
      SettlesTwice(s.backlog, s'.backlog, end.backlog);
      RoundsStep(s, call, n, s', end);
      RoundClaims(s, s', end, ids, n);
      n := n + 1;
    }
    ClaimedInOrder(s, end);
  }
}
