/** The run state as the commands edit it: loaded under the lock, changed in place, saved only on success. */
module SchedulerLedger {
  import opened Options
  import opened Sorting
  import opened Scheduler
  import opened SchedulerLaws
  import opened SchedulerEffects

  lemma SelectedInBacklog(backlog: seq<Task>, limit: nat)
    requires DistinctIds(backlog)
    ensures forall t :: t in Select(backlog, limit) ==> t in backlog
  {
    DistinctTasks(backlog);
    SelectSound(backlog, limit);
  }

  lemma IdsStep(selected: seq<Task>, i: nat)
    requires i < |selected|
    ensures Ids(selected[..i + 1]) == Ids(selected[..i]) + [selected[i].id]
  {
  }

  lemma CloseGrows(was: seq<Batch>, i: nat, backlog: seq<Task>, now: string)
    requires i < |was|
    ensures |CloseAll(was[..i], backlog, now)| == i
    ensures CloseAll(was[..i + 1], backlog, now) == CloseAll(was[..i], backlog, now) + [Close(was[i], backlog, now)]
  {
    assert was[..i + 1] == was[..i] + [was[i]];
  }

  lemma SetNext(done: seq<Batch>, rest: seq<Batch>, b: Batch)
    requires rest != []
    ensures (done + rest)[|done| := b] == done + [b] + rest[1..]
  {
  }

  lemma CloseIdle(b: Batch, backlog: seq<Task>, now: string)
    requires !b.status.Active?
    ensures Close(b, backlog, now) == b
  {
  }

  lemma CountStep(batches: seq<Batch>, i: nat)
    requires i < |batches|
    ensures CountActive(batches[..i + 1]) == CountActive(batches[..i]) + if batches[i].status.Active? then 1 else 0
  {
    assert batches[..i + 1][..i] == batches[..i];
  }

  /** Claiming one more id changes one more row. */
  lemma ClaimOne(backlog: seq<Task>, ids: seq<string>, k: nat, now: string, batchId: string)
    requires DistinctIds(backlog) && k < |backlog|
    ensures var was := ClaimAll(backlog, ids, now, batchId);
      && |was| == |backlog|
      && ClaimAll(backlog, ids + [backlog[k].id], now, batchId)
         == was[k := was[k].(status := InProgress, claimedAt := Some(now), batchId := Some(batchId))]
  {
  }

  class Ledger {
    var backlog: seq<Task>
    var batches: seq<Batch>
    var tasksCompleted: nat
    var batchesCompleted: nat
    var currentBatch: Option<string>
    var active: bool
    var mode: string
    var heartbeat: Option<string>
    var checkpoint: Option<(string, string)>

    function Value(): State
      reads this
    {
      State(backlog, batches, tasksCompleted, batchesCompleted, currentBatch, active, mode, heartbeat, checkpoint)
    }

    constructor (s: State)
      ensures Value() == s
    {
      backlog, batches := s.backlog, s.batches;
      tasksCompleted, batchesCompleted, currentBatch := s.tasksCompleted, s.batchesCompleted, s.currentBatch;
      active, mode, heartbeat, checkpoint := s.active, s.mode, s.heartbeat, s.checkpoint;
    }

    /** `cmd_add`. */
    method AddTask(description: string, priority: int, depends: seq<string>, group: Option<string>, now: string)
      modifies this
      ensures Some(Value()) == Exec(old(Value()), Call(Add(description, priority, depends, group), now, map[]))
      ensures Added(old(Value()), Value(), description, priority, depends, group, now)
    {
      AddsTheTask(Value(), Call(Add(description, priority, depends, group), now, map[]));
      var id := NextTaskId(backlog);
      var g := if group == Some("") then None else group;
      backlog := backlog + [Task(id, description, priority, Pending, depends, g, now, None, None, None)];
    }

    /** `cmd_complete`: the first task of that id, unless it is done already. */
    method CompleteTask(taskId: string, now: string)
      modifies this
      ensures Some(Value()) == Exec(old(Value()), Call(Complete(taskId), now, map[]))
      ensures MarkedDone(old(Value()), Value(), taskId, now)
    {
      CompletesTheTask(Value(), Call(Complete(taskId), now, map[]));
      MarkFirst(taskId, now);
    }

    method MarkFirst(taskId: string, now: string)
      modifies this
      ensures Some(Value()) == Exec(old(Value()), Call(Complete(taskId), now, map[]))
    {
      var i := 0;
      while i < |backlog|
        invariant 0 <= i <= |backlog| && Value() == old(Value())
        invariant forall j :: 0 <= j < i ==> backlog[j].id != taskId
      {
        if backlog[i].id == taskId {
          assert i == Find(backlog, taskId);
          if !backlog[i].status.Done? {
            backlog := backlog[i := backlog[i].(status := Done, completedAt := Some(now))];
            tasksCompleted := tasksCompleted + 1;
          }
          return;
        }
        i := i + 1;
      }
    }

    /** The claiming loop of `cmd_batch start`: mark each selected task. */
    method Claim(selected: seq<Task>, now: string, batchId: string) returns (taskIds: seq<string>)
      requires DistinctIds(backlog) && forall t :: t in selected ==> t in backlog
      modifies this`backlog
      ensures taskIds == Ids(selected)
      ensures backlog == ClaimAll(old(backlog), taskIds, now, batchId)
    {
      taskIds := [];
      var i := 0;
      while i < |selected|
        invariant 0 <= i <= |selected| && taskIds == Ids(selected[..i])
        invariant backlog == ClaimAll(old(backlog), taskIds, now, batchId)
      {
        var id := selected[i].id;
        assert selected[i] in old(backlog);
        ghost var k :| 0 <= k < |old(backlog)| && old(backlog)[k] == selected[i];
        var at := Find(backlog, id);
        assert backlog[k].id == id;
        FindUnique(old(backlog), backlog, id);
        FindAt(old(backlog), k);
        ClaimOne(old(backlog), taskIds, k, now, batchId);
        IdsStep(selected, i);
        backlog := backlog[at := backlog[at].(status := InProgress, claimedAt := Some(now), batchId := Some(batchId))];
        taskIds := taskIds + [id];
        i := i + 1;
      }
      assert selected[..i] == selected;
    }

    /** `cmd_batch start`. */
    method Start(modeName: string, now: string, modes: map<string, int>) returns (ok: bool)
      requires DistinctIds(backlog)
      modifies this
      ensures ok == Exec(old(Value()), Call(StartBatch(modeName), now, modes)).Some?
      ensures Value() == if ok then Exec(old(Value()), Call(StartBatch(modeName), now, modes)).value else old(Value())
      ensures ok ==> Effect(old(Value()), Value(), Call(StartBatch(modeName), now, modes))
    {
      ghost var s := Value();
      ok := StartIn(EffectiveMode(Value(), modeName), now, modes);
      if ok { ExecHasEffect(s, Call(StartBatch(modeName), now, modes)); }
    }

    method StartIn(effective: string, now: string, modes: map<string, int>) returns (ok: bool)
      requires DistinctIds(backlog)
      modifies this
      ensures ok == ExecStart(old(Value()), effective, now, modes).Some?
      ensures Value() == if ok then ExecStart(old(Value()), effective, now, modes).value else old(Value())
    {
      if HasActive(batches) || effective !in modes { return false; }
      var selected := SelectReady(backlog, modes[effective]);
      if selected == [] { return false; }
      SelectedInBacklog(backlog, Limit(modes[effective]));
      OpenBatchFor(selected, effective, now);
      return true;
    }

    method OpenBatchFor(selected: seq<Task>, effective: string, now: string)
      requires DistinctIds(backlog) && forall t :: t in selected ==> t in backlog
      modifies this
      ensures Value() == OpenBatch(old(Value()), effective, now, Ids(selected))
    {
      var batchId := NextBatchId(batches);
      OpenBatchAs(batchId, selected, effective, now);
    }

    method OpenBatchAs(batchId: string, selected: seq<Task>, effective: string, now: string)
      requires DistinctIds(backlog) && forall t :: t in selected ==> t in backlog
      requires batchId == BatchId(TopBatch(batches) + 1)
      modifies this
      ensures Value() == OpenBatch(old(Value()), effective, now, Ids(selected))
    {
      var taskIds := Claim(selected, now, batchId);
      batches := batches + [Batch(batchId, Active, effective, now, None, taskIds, [], [])];
      currentBatch, active, mode, heartbeat := Some(batchId), true, effective, Some(now);
    }

    /** `cmd_batch complete`. */
    method Finish(now: string) returns (ok: bool)
      modifies this
      ensures ok == Exec(old(Value()), Call(FinishBatch, now, map[])).Some?
      ensures Value() == if ok then Exec(old(Value()), Call(FinishBatch, now, map[])).value else old(Value())
    {
      if !HasActive(batches) || !AllSettled(Value()) { return false; }
      CloseActive(now);
      currentBatch := None;
      return true;
    }

    /** The closing loop: every active batch is closed and counted. */
    method CloseActive(now: string)
      modifies this`batches, this`batchesCompleted
      ensures batches == CloseAll(old(batches), backlog, now)
      ensures batchesCompleted == old(batchesCompleted) + CountActive(old(batches))
    {
      var (was, rows) := (batches, backlog);
      var i := 0;
      while i < |was|
        invariant 0 <= i <= |was| && backlog == rows
        invariant batches == CloseAll(was[..i], rows, now) + was[i..]
        invariant batchesCompleted == old(batchesCompleted) + CountActive(was[..i])
      {
        CountStep(was, i);
        CloseGrows(was, i, rows, now);
        SetNext(CloseAll(was[..i], rows, now), was[i..], Close(was[i], rows, now));
        if was[i].status.Active? {
          batches := batches[i := Close(was[i], rows, now)];
          batchesCompleted := batchesCompleted + 1;
        } else {
          CloseIdle(was[i], rows, now);
        }
        i := i + 1;
      }
      assert was[..i] == was;
    }

    method Beat(now: string)
      modifies this`heartbeat
      ensures Some(Value()) == Exec(old(Value()), Call(Heartbeat, now, map[]))
    {
      heartbeat := Some(now);
    }

    method SaveCheckpoint(instruction: string, now: string)
      modifies this`checkpoint
      ensures Some(Value()) == Exec(old(Value()), Call(Checkpoint(instruction), now, map[]))
    {
      checkpoint := Some((instruction, now));
    }

    /** The operator's edit of a running task. */
    method MarkTask(taskId: string, outcome: Status) returns (ok: bool)
      modifies this`backlog
      ensures ok == Exec(old(Value()), Call(Mark(taskId, outcome), "", map[])).Some?
      ensures Value() == if ok then Exec(old(Value()), Call(Mark(taskId, outcome), "", map[])).value else old(Value())
    {
      var i := Find(backlog, taskId);
      if i == |backlog| || !backlog[i].status.InProgress? || !(outcome.Failed? || outcome.Deferred?) { return false; }
      backlog := backlog[i := backlog[i].(status := outcome)];
      return true;
    }

    /** Any command, in place: it succeeds exactly when the command function does and leaves the state that says, or
        fails and leaves the ledger alone; the ledger's laws hold either way. */
    method Perform(call: Call) returns (ok: bool)
      requires Inv(Value())
      modifies this
      ensures ok == Exec(old(Value()), call).Some?
      ensures Value() == if ok then Exec(old(Value()), call).value else old(Value())
      ensures Inv(Value()) && (ok ==> Effect(old(Value()), Value(), call))
    {
      ghost var s := Value();
      ok := true;
      match call.command {
        case Add(description, priority, depends, group) => AddTask(description, priority, depends, group, call.now);
        case Complete(id) => CompleteTask(id, call.now);
        case StartBatch(name) => ok := Start(name, call.now, call.modes);
        case FinishBatch => ok := Finish(call.now);
        case Heartbeat => Beat(call.now);
        case Checkpoint(text) => SaveCheckpoint(text, call.now);
        case Mark(id, outcome) => ok := MarkTask(id, outcome);
      }
      OnlyStartReads(s, call);
      if ok {
        ExecKeeps(s, call);
        ExecHasEffect(s, call);
      }
    }
  }

  /** Mode files matter to starting a batch alone, and marking a task needs no clock. */
  lemma OnlyStartReads(s: State, call: Call)
    ensures !call.command.StartBatch? ==> Exec(s, call) == Exec(s, Call(call.command, call.now, map[]))
    ensures call.command.Mark? ==> Exec(s, call) == Exec(s, Call(call.command, "", map[]))
  {
  }
}
