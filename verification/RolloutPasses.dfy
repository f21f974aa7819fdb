/** The rollout table and the transactions that change it: publish, evaluation pass, operator pin. */
module RolloutPasses {
  import opened Options
  import opened Sorting
  import opened Text
  import opened Rollout

  datatype Metrics = Metrics(
    samples: nat, errorRate: real, connectSuccess: real, taskSuccess: real, upgradeFailRate: real, baseline: real)

  datatype Verdict = Green | TooFewSamples | ErrorRate | ConnectSuccess | TaskSuccess | UpgradeFailRate

  /** `is_green`: the first criterion that fails, in the order they are checked. */
  function Judge(m: Metrics): Verdict
  {
    if m.samples < MIN_SAMPLES then TooFewSamples
    else if m.errorRate / (if m.baseline > MIN_BASELINE then m.baseline else MIN_BASELINE) > MAX_ERROR_RATE_MULT then ErrorRate
    else if m.connectSuccess < MIN_CONNECT_SUCCESS then ConnectSuccess
    else if m.taskSuccess < MIN_TASK_SUCCESS then TaskSuccess
    else if m.upgradeFailRate > MAX_UPGRADE_FAIL_RATE then UpgradeFailRate
    else Green
  }

  datatype Event = Published(at: int, notes: string) | Promoted(pass: nat, at: int, metrics: Metrics) | Pinned(at: int)

  datatype Action = Promote(version: string, from: Stage, to: Stage) | RollBack(version: string, verdict: Verdict)

  datatype Table = Table(
    rows: seq<Row>,
    ticks: nat,                          // clock readings taken so far
    passes: nat,                         // evaluation passes begun so far
    history: map<string, seq<Event>>)    // history: how each version moved

  /** What the outside world supplies: the clock's successive readings and the dwell period. */
  datatype Env = Env(tick: nat -> Reading, dwell: nat)

  ghost predicate Increasing(env: Env)
  {
    forall i, j :: 0 <= i < j ==> env.tick(i).at < env.tick(j).at
  }

  function Moved(r: Row, stage: Stage, now: Reading, reason: string): Row
  {
    r.(stage := stage, enteredAt := now.at,
       notes := if reason == "" then r.notes else r.notes + "\n[" + now.text + "] " + reason)
  }

  /** `set_stage`: one clock reading, and the row of that version moved. */
  function SetStage(t: Table, version: string, stage: Stage, reason: string, env: Env): Table
  {
    t.(rows := seq(|t.rows|, i requires 0 <= i < |t.rows| =>
                 if t.rows[i].version == version then Moved(t.rows[i], stage, env.tick(t.ticks), reason) else t.rows[i]),
       ticks := t.ticks + 1)
  }

  /** `_supersede_previous_stable`: every other stable row, its entry time kept. */
  function Supersede(t: Table, version: string): Table
  {
    t.(rows := seq(|t.rows|, i requires 0 <= i < |t.rows| =>
         if t.rows[i].stage.Stable? && t.rows[i].version != version then t.rows[i].(stage := Superseded) else t.rows[i]))
  }

  predicate WasStable(s: Stage)
  {
    s.Stable? || s.Superseded?
  }

  function LastStable(rows: seq<Row>, failed: string): Option<Row>
  {
    Head(Sort(Filter(rows, (r: Row) => WasStable(r.stage) && r.version != failed), EnteredLater))
  }

  /** `_restore_prev_stable`. */
  function Restore(t: Table, failed: string, env: Env): Table
  {
    match LastStable(t.rows, failed)
    case None => t
    case Some(r) => if r.stage.Stable? then t else SetStage(t, r.version, Stable, "restore after rollback of " + failed, env)
  }

  function Note(t: Table, version: string, e: Event): Table
  {
    t.(history := t.history[version := (if version in t.history then t.history[version] else []) + [e]])
  }

  function VerdictText(v: Verdict): string
  {
    match v
    case Green => "" case TooFewSamples => "insufficient samples" case ErrorRate => "error_rate"
    case ConnectSuccess => "connect_success" case TaskSuccess => "task_success" case UpgradeFailRate => "upgrade_fail_rate"
  }

  function RolledBackBy(t: Table, version: string, verdict: Verdict, env: Env): Table
  {
    SetStage(t, version, RolledBack, "auto rollback: " + VerdictText(verdict), env)
  }

  /** One version of the pass: rolled back when red, promoted when green for long enough, otherwise left. */
  function Consider(t: Table, v: Row, now: int, m: Metrics, env: Env): (Table, seq<Action>)
  {
    if !IsCanary(v.stage) then (t, [])
    else if !Judge(m).Green? && m.samples >= MIN_SAMPLES then
      (Restore(RolledBackBy(t, v.version, Judge(m), env), v.version, env),
       [RollBack(v.version, Judge(m))])
    else if Judge(m).Green? && now - v.enteredAt >= env.dwell then
      var moved := Note(SetStage(t, v.version, NextStage(v.stage), "auto promote", env), v.version,
                        Promoted(t.passes, env.tick(t.ticks).at, m));
      (if v.stage.Canary50? then Supersede(moved, v.version) else moved, [Promote(v.version, v.stage, NextStage(v.stage))])
    else (t, [])
  }

  function ConsiderAll(t: Table, list: seq<Row>, now: int, metrics: string -> Metrics, env: Env): (Table, seq<Action>)
  {
    if list == [] then (t, [])
    else
      var (t1, a1) := ConsiderAll(t, list[..|list| - 1], now, metrics, env);
      var v := list[|list| - 1];
      var (t2, a2) := Consider(t1, v, now, metrics(v.version), env);
      (t2, a1 + a2)
  }

  lemma ConsiderNext(t: Table, list: seq<Row>, i: nat, now: int, metrics: string -> Metrics, env: Env)
    requires i < |list|
    ensures var (t1, a1) := ConsiderAll(t, list[..i], now, metrics, env);
      var (t2, a2) := Consider(t1, list[i], now, metrics(list[i].version), env);
      ConsiderAll(t, list[..i + 1], now, metrics, env) == (t2, a1 + a2)
  {
    assert list[..i + 1][..i] == list[..i];
  }

  /** `list_versions`: newest entry first. */
  function Listing(rows: seq<Row>): seq<Row>
  {
    Sort(rows, EnteredLater)
  }

  /** `evaluate_rollout` on its own clock: one reading, the versions as listed then, each considered once. */
  function Evaluate(t: Table, metrics: string -> Metrics, env: Env): (Table, seq<Action>)
  {
    var (t', actions) := ConsiderAll(t.(ticks := t.ticks + 1), Listing(t.rows), env.tick(t.ticks).at, metrics, env);
    (t'.(passes := t.passes + 1), actions)
  }

  lemma EvaluateIs(t: Table, t1: Table, metrics: string -> Metrics, env: Env, t': Table, actions: seq<Action>)
    requires t1 == t.(ticks := t.ticks + 1)
    requires (t', actions) == ConsiderAll(t1, Listing(t.rows), env.tick(t.ticks).at, metrics, env)
    ensures Evaluate(t, metrics, env) == (t'.(passes := t.passes + 1), actions)
  {
  }

  function RollBackAll(t: Table, list: seq<Row>, reason: string, env: Env): Table
  {
    if list == [] then t
    else
      var t1 := RollBackAll(t, list[..|list| - 1], reason, env);
      var v := list[|list| - 1];
      if IsCanary(v.stage) then SetStage(t1, v.version, RolledBack, "Operator pin override: " + reason, env) else t1
  }

  function FindRow(rows: seq<Row>, version: string): (r: Option<Row>)
    ensures r.Some? ==> r.value in rows && r.value.version == version
    ensures r.None? ==> forall x :: x in rows ==> x.version != version
  {
    if rows == [] then None else if rows[0].version == version then Some(rows[0]) else FindRow(rows[1..], version)
  }

  /** `operator_pin`: nothing for an unknown version. */
  function Pin(t: Table, version: string, reason: string, env: Env): Option<Table>
  {
    match FindRow(t.rows, version)
    case None => None
    case Some(r) =>
      var t1 := RollBackAll(t, Listing(t.rows), reason, env);
      var t2 := if r.stage.Stable? then t1
                else Note(SetStage(t1, version, Stable, "Operator pin: " + reason, env), version, Pinned(env.tick(t1.ticks).at));
      Some(Supersede(t2, version))
  }

  datatype Release = Release(version: string, artifact: Artifact, stage: Stage, notes: string, urlsOk: bool)

  predicate IsVersionChar(c: char)
  {
    IsDigit(c) || 'A' <= c <= 'Z' || 'a' <= c <= 'z' || c == '.' || c == '_' || c == '+' || c == '-'
  }

  predicate IsHexDigit(c: char)
  {
    IsDigit(c) || 'a' <= c <= 'f' || 'A' <= c <= 'F'
  }

  predicate Publishable(r: Release)
  {
    && 1 <= |r.version| <= 64 && (forall i :: 0 <= i < |r.version| ==> IsVersionChar(r.version[i]))
    && r.version[0] !in "._+-"
    && |r.artifact.sha256| == 64 && (forall i :: 0 <= i < 64 ==> IsHexDigit(r.artifact.sha256[i]))
    && (r.stage.Draft? || r.stage.Canary1?)
    && r.artifact.minProtocol >= 1
    && r.urlsOk
  }

  function Lower(s: string): string
  {
    seq(|s|, i requires 0 <= i < |s| => if 'A' <= s[i] <= 'Z' then s[i] + 32 as char else s[i])
  }

  function Recorded(r: Release): Artifact
  {
    r.artifact.(sha256 := Lower(r.artifact.sha256))
  }

  /** `publish_version`: insert a new row; an exact repetition changes nothing; anything else is an error. */
  function Publish(t: Table, r: Release, env: Env): Option<Table>
  {
    if !Publishable(r) then None
    else match FindRow(t.rows, r.version)
      case Some(x) =>
        if (x.artifact, x.notes) == (Recorded(r), r.notes) then Some(t.(ticks := t.ticks + 1)) else None
      case None =>
        var now := env.tick(t.ticks).at;
        Some(t.(rows := t.rows + [Row(r.version, r.stage, now, now, Recorded(r), r.notes)],
                ticks := t.ticks + 1, history := t.history[r.version := [Published(now, r.notes)]]))
  }

  datatype Op =
    | Publishing(release: Release)
    | Evaluating(metrics: string -> Metrics)
    | Pinning(version: string, reason: string)

  /** One transaction; a refused one leaves the table as it was. */
  function Apply(t: Table, op: Op, env: Env): Table
  {
    match op
    case Publishing(r) => (match Publish(t, r, env) case Some(t') => t' case None => t)
    case Evaluating(m) => Evaluate(t, m, env).0
    case Pinning(v, reason) => (match Pin(t, v, reason, env) case Some(t') => t' case None => t)
  }

  const EMPTY_TABLE := Table([], 0, 0, map[])

  function After(ops: seq<Op>, env: Env): Table
  {
    if ops == [] then EMPTY_TABLE else Apply(After(ops[..|ops| - 1], env), ops[|ops| - 1], env)
  }

  // ---------- The transactions as they run ----------

  class Rollouts {
    var rows: seq<Row>
    var ticks: nat
    ghost var passes: nat
    ghost var history: map<string, seq<Event>>

    ghost function Value(): Table
      reads this
    {
      Table(rows, ticks, passes, history)
    }

    constructor ()
      ensures Value() == EMPTY_TABLE
    {
      rows, ticks, passes, history := [], 0, 0, map[];
    }

    method ReadClock(env: Env) returns (now: Reading)
      modifies this`ticks
      ensures now == env.tick(old(ticks)) && ticks == old(ticks) + 1
    {
      now := env.tick(ticks);
      ticks := ticks + 1;
    }

    /** `UPDATE ... WHERE version = ?`, row by row. */
    method MoveTo(version: string, stage: Stage, reason: string, env: Env)
      modifies this`rows, this`ticks
      ensures Value() == SetStage(old(Value()), version, stage, reason, env)
    {
      var now := ReadClock(env);
      var i := 0;
      while i < |rows|
        invariant 0 <= i <= |rows| == |old(rows)| && ticks == old(ticks) + 1
        invariant forall j :: 0 <= j < |rows| ==>
          rows[j] == if j < i && old(rows)[j].version == version then Moved(old(rows)[j], stage, now, reason) else old(rows)[j]
      {
        if rows[i].version == version { rows := rows[i := Moved(rows[i], stage, now, reason)]; }
        i := i + 1;
      }
    }

    method SupersedeOthers(version: string)
      modifies this`rows
      ensures Value() == Supersede(old(Value()), version)
    {
      var i := 0;
      while i < |rows|
        invariant 0 <= i <= |rows| == |old(rows)|
        invariant forall j :: 0 <= j < |rows| ==>
          rows[j] == if j < i && old(rows)[j].stage.Stable? && old(rows)[j].version != version
                     then old(rows)[j].(stage := Superseded) else old(rows)[j]
      {
        if rows[i].stage.Stable? && rows[i].version != version { rows := rows[i := rows[i].(stage := Superseded)]; }
        i := i + 1;
      }
    }

    method RestorePrevious(failed: string, env: Env)
      modifies this`rows, this`ticks
      ensures Value() == Restore(old(Value()), failed, env)
    {
      var last := LastStable(rows, failed);
      if last.Some? && !last.value.stage.Stable? {
        MoveTo(last.value.version, Stable, "restore after rollback of " + failed, env);
      }
    }

    ghost method Record(version: string, e: Event)
      modifies this`history
      ensures Value() == Note(old(Value()), version, e)
    {
      history := Note(Value(), version, e).history;
    }

    method ConsiderOne(v: Row, now: int, m: Metrics, env: Env) returns (actions: seq<Action>)
      modifies this
      ensures (Value(), actions) == Consider(old(Value()), v, now, m, env)
    {
      if !IsCanary(v.stage) { return []; }
      var verdict := Judge(m);
      if !verdict.Green? && m.samples >= MIN_SAMPLES {
        MoveTo(v.version, RolledBack, "auto rollback: " + VerdictText(verdict), env);
        RestorePrevious(v.version, env);
        return [RollBack(v.version, verdict)];
      }
      if verdict.Green? && now - v.enteredAt >= env.dwell {
        var next := NextStage(v.stage);
        ghost var at := env.tick(ticks).at;
        MoveTo(v.version, next, "auto promote", env);
        Record(v.version, Promoted(passes, at, m));
        if next.Stable? { SupersedeOthers(v.version); }
        return [Promote(v.version, v.stage, next)];
      }
      return [];
    }

    /** `evaluate_rollout`. */
    method EvaluatePass(metrics: string -> Metrics, env: Env) returns (actions: seq<Action>)
      modifies this
      ensures (Value(), actions) == Evaluate(old(Value()), metrics, env)
    {
      var list := Listing(rows);
      ghost var t := Value();
      var now := ReadClock(env);
      ghost var t1 := Value();
      actions := ConsiderList(list, now.at, metrics, env);
      EvaluateIs(t, t1, metrics, env, Value(), actions);
      passes := old(passes) + 1;
    }

    method ConsiderList(list: seq<Row>, now: int, metrics: string -> Metrics, env: Env) returns (actions: seq<Action>)
      modifies this
      ensures (Value(), actions) == ConsiderAll(old(Value()), list, now, metrics, env)
    {
      actions := [];
      ghost var start := Value();
      var i := 0;
      while i < |list|
        invariant 0 <= i <= |list|
        invariant (Value(), actions) == ConsiderAll(start, list[..i], now, metrics, env)
      {
        var v := list[i];
        ConsiderNext(start, list, i, now, metrics, env);
        var more := ConsiderOne(v, now, metrics(v.version), env);
        actions := actions + more;
        i := i + 1;
      }
      assert list[..i] == list;
    }

    /** `operator_pin`. */
    method PinVersion(version: string, reason: string, env: Env) returns (ok: bool)
      modifies this
      ensures ok == Pin(old(Value()), version, reason, env).Some?
      ensures Value() == if ok then Pin(old(Value()), version, reason, env).value else old(Value())
    {
      var existing := FindRow(rows, version);
      if existing.None? { return false; }
      RollBackCanaries(reason, env);
      if !existing.value.stage.Stable? {
        ghost var at := env.tick(ticks).at;
        MoveTo(version, Stable, "Operator pin: " + reason, env);
        Record(version, Pinned(at));
      }
      SupersedeOthers(version);
      return true;
    }

    method RollBackCanaries(reason: string, env: Env)
      modifies this`rows, this`ticks
      ensures Value() == RollBackAll(old(Value()), Listing(old(rows)), reason, env)
    {
      var list := Listing(rows);
      var i := 0;
      while i < |list|
        invariant 0 <= i <= |list|
        invariant Value() == RollBackAll(old(Value()), list[..i], reason, env)
      {
        assert list[..i + 1][..i] == list[..i];
        if IsCanary(list[i].stage) {
          MoveTo(list[i].version, RolledBack, "Operator pin override: " + reason, env);
        }
        i := i + 1;
      }
      assert list[..i] == list;
    }

    /** `publish_version`. */
    method PublishVersion(r: Release, env: Env) returns (ok: bool)
      modifies this
      ensures ok == Publish(old(Value()), r, env).Some?
      ensures Value() == if ok then Publish(old(Value()), r, env).value else old(Value())
    {
      if !Publishable(r) { return false; }
      var existing := FindRow(rows, r.version);
      if existing.Some? {
        if (existing.value.artifact, existing.value.notes) != (Recorded(r), r.notes) { return false; }
        var _ := ReadClock(env);
        return true;
      }
      var now := ReadClock(env);
      rows := rows + [Row(r.version, r.stage, now.at, now.at, Recorded(r), r.notes)];
      history := history[r.version := [Published(now.at, r.notes)]];
      return true;
    }
  }
}
