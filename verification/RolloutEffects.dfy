/** What publications, evaluation passes and pins do to each row, said by thresholds, stages and times alone. */
module RolloutEffects {
  import opened Options
  import opened Sorting
  import opened Rollout
  import opened RolloutPasses
  import opened RolloutLaws

  predicate InCanary(s: Stage)
  {
    s == Canary1 || s == Canary10 || s == Canary50
  }

  /** Every criterion holds: errors at most five times the baseline (which counts as at least a millionth), 95% of
      connections and 90% of tasks succeed, and at most 1% of upgrades fail. */
  predicate Healthy(m: Metrics)
  {
    && m.errorRate / (if m.baseline > 0.000001 then m.baseline else 0.000001) <= 5.0
    && m.connectSuccess >= 0.95 && m.taskSuccess >= 0.90 && m.upgradeFailRate <= 0.01
  }

  /** A canary with enough samples to judge that misses some criterion. */
  predicate Red(v: Row, m: Metrics)
  {
    InCanary(v.stage) && m.samples >= 20 && !Healthy(m)
  }

  /** A healthy canary that has dwelt in its stage long enough. */
  predicate Due(v: Row, m: Metrics, now: int, dwell: nat)
  {
    InCanary(v.stage) && m.samples >= 20 && Healthy(m) && now - v.enteredAt >= dwell
  }

  function Up(s: Stage): Stage
  {
    if s == Canary1 then Canary10 else if s == Canary10 then Canary50 else Stable
  }

  /** The same release at another stage since after `now`, its notes longer. */
  predicate MovedTo(v: Row, v': Row, stage: Stage, now: int)
  {
    v' == v.(stage := stage, enteredAt := v'.enteredAt, notes := v'.notes) && v'.enteredAt > now && v.notes <= v'.notes
  }

  /** The first criterion that fails, in the order they are checked. */
  predicate Cause(m: Metrics, verdict: Verdict)
  {
    var errors := m.errorRate / (if m.baseline > 0.000001 then m.baseline else 0.000001);
    match verdict
    case ErrorRate => errors > 5.0
    case ConnectSuccess => errors <= 5.0 && m.connectSuccess < 0.95
    case TaskSuccess => errors <= 5.0 && m.connectSuccess >= 0.95 && m.taskSuccess < 0.90
    case UpgradeFailRate => errors <= 5.0 && m.connectSuccess >= 0.95 && m.taskSuccess >= 0.90 && m.upgradeFailRate > 0.01
    case _ => false
  }

  lemma JudgeMeans(m: Metrics)
    ensures Judge(m).Green? <==> m.samples >= 20 && Healthy(m)
    ensures m.samples >= 20 && !Healthy(m) ==> Cause(m, Judge(m))
  {
  }

  // ---------- One pass, row by row ----------

  /** The version of the last row of the list that this pass makes stable. */
  function Crowned(list: seq<Row>, metrics: string -> Metrics, now: int, dwell: nat): Option<string>
  {
    if list == [] then None
    else
      var v := list[|list| - 1];
      if v.stage == Canary50 && Due(v, metrics(v.version), now, dwell) then Some(v.version)
      else Crowned(list[..|list| - 1], metrics, now, dwell)
  }

  /** What has become of a row when those `seen` have been considered and `crowned` was made stable last. */
  predicate RowSoFar(v: Row, v': Row, seen: bool, m: Metrics, crowned: Option<string>, now: int, dwell: nat)
  {
    if seen && Red(v, m) then MovedTo(v, v', RolledBack, now)
    else if seen && Due(v, m, now, dwell) then
      MovedTo(v, v', if v.stage == Canary50 && crowned != Some(v.version) then Superseded else Up(v.stage), now)
    else if v.stage == Stable && crowned.Some? then v' == v.(stage := Superseded)
    else v' == v
  }

  ghost predicate RowsSoFar(rows: seq<Row>, rows': seq<Row>, list: seq<Row>, metrics: string -> Metrics, now: int, dwell: nat)
  {
    && |rows'| == |rows|
    && forall k :: 0 <= k < |rows| ==>
         RowSoFar(rows[k], rows'[k], rows[k] in list, metrics(rows[k].version), Crowned(list, metrics, now, dwell), now, dwell)
  }

  /** One version considered in the table `t1`: what changes in each row. */
  lemma ConsiderRow(t1: Table, v: Row, now: int, m: Metrics, env: Env, k: nat)
    requires k < |t1.rows| && now < env.tick(t1.ticks).at && (InCanary(v.stage) ==> RestoresNothing(t1, v, m, env))
    ensures var (r, rows') := (t1.rows[k], Consider(t1, v, now, m, env).0.rows);
      && |rows'| == |t1.rows|
      && (!Red(v, m) && !Due(v, m, now, env.dwell) ==> rows'[k] == r)
      && (Red(v, m) ==> if r.version == v.version then MovedTo(r, rows'[k], RolledBack, now) else rows'[k] == r)
      && (Due(v, m, now, env.dwell) && r.version == v.version ==> MovedTo(r, rows'[k], Up(v.stage), now))
      && (Due(v, m, now, env.dwell) && r.version != v.version ==>
            rows'[k] == if v.stage == Canary50 && r.stage == Stable then r.(stage := Superseded) else r)
  {
    JudgeMeans(m);
  }

  lemma RowStep(t: Table, t1: Table, list: seq<Row>, i: nat, now: int, metrics: string -> Metrics, env: Env, k: nat)
    requires i < |list| && k < |t.rows| && RowsSoFar(t.rows, t1.rows, list[..i], metrics, now, env.dwell)
    requires DistinctVersions(list) && DistinctVersions(t.rows) && list[i] in t.rows && forall v :: v in t.rows ==> v in list
    requires now < env.tick(t1.ticks).at && (InCanary(list[i].stage) ==> RestoresNothing(t1, list[i], metrics(list[i].version), env))
    ensures var v := list[i];
      RowSoFar(t.rows[k], Consider(t1, v, now, metrics(v.version), env).0.rows[k], t.rows[k] in list[..i + 1], metrics(t.rows[k].version),
               Crowned(list[..i + 1], metrics, now, env.dwell), now, env.dwell)
  {
    var (v, r) := (list[i], t.rows[k]);
    var m := metrics(v.version);
    assert list[..i + 1] == list[..i] + [v] && list[..i + 1][..i] == list[..i];
    ConsiderRow(t1, v, now, m, env, k);
    SeenOnce(t.rows, list, i, k);
    assert RowSoFar(r, t1.rows[k], r in list[..i], metrics(r.version), Crowned(list[..i], metrics, now, env.dwell), now, env.dwell);
  }

  /** The row considered now is the only one of its version, and was not considered before. */
  lemma SeenOnce(rows: seq<Row>, list: seq<Row>, i: nat, k: nat)
    requires i < |list| && k < |rows| && DistinctVersions(list) && DistinctVersions(rows) && list[i] in rows
    ensures rows[k].version == list[i].version ==> rows[k] == list[i] && rows[k] !in list[..i]
    ensures rows[k].version != list[i].version ==> (rows[k] in list[..i + 1] <==> rows[k] in list[..i])
  {
    var j :| 0 <= j < |rows| && rows[j] == list[i];
    assert list[..i + 1] == list[..i] + [list[i]];
  }

  lemma RowsStep(t: Table, t1: Table, list: seq<Row>, i: nat, now: int, metrics: string -> Metrics, env: Env)
    requires i < |list| && RowsSoFar(t.rows, t1.rows, list[..i], metrics, now, env.dwell)
    requires DistinctVersions(list) && DistinctVersions(t.rows) && list[i] in t.rows && forall v :: v in t.rows ==> v in list
    requires now < env.tick(t1.ticks).at && (InCanary(list[i].stage) ==> RestoresNothing(t1, list[i], metrics(list[i].version), env))
    ensures RowsSoFar(t.rows, Consider(t1, list[i], now, metrics(list[i].version), env).0.rows, list[..i + 1], metrics, now, env.dwell)
  {
    var t2 := Consider(t1, list[i], now, metrics(list[i].version), env).0;
    forall k | 0 <= k < |t.rows|
      ensures RowSoFar(t.rows[k], t2.rows[k], t.rows[k] in list[..i + 1], metrics(t.rows[k].version),
                       Crowned(list[..i + 1], metrics, now, env.dwell), now, env.dwell)
    {
      RowStep(t, t1, list, i, now, metrics, env, k);
      ConsiderRow(t1, list[i], now, metrics(list[i].version), env, k);
    }
    assert |t.rows| > 0;
    ConsiderRow(t1, list[i], now, metrics(list[i].version), env, 0);
  }

  lemma RowsNext(t: Table, t1: Table, mid: Table, list: seq<Row>, i: nat, now: int, metrics: string -> Metrics, env: Env)
    requires Increasing(env) && i < |list| && DistinctVersions(list) && InPass(t1, mid, list, i, now, env)
    requires DistinctVersions(t.rows) && forall v :: v in t.rows <==> v in list
    requires RowsSoFar(t.rows, mid.rows, list[..i], metrics, now, env.dwell)
    ensures RowsSoFar(t.rows, Consider(mid, list[i], now, metrics(list[i].version), env).0.rows, list[..i + 1], metrics, now, env.dwell)
  {
    assert list[i] in list;
    ConsiderKeeps(mid, list[i], now, metrics(list[i].version), env);
    RowsStep(t, mid, list, i, now, metrics, env);
  }

  lemma {:induction false} RowsAfter(t: Table, t1: Table, list: seq<Row>, i: nat, now: int, metrics: string -> Metrics, env: Env)
    requires Increasing(env) && Core(t1, env) && Journeys(t1, t1.passes + 1, env) && now < env.tick(t1.ticks).at && t1.rows == t.rows
    requires i <= |list| && DistinctVersions(list) && Waiting(t1, list, 0, env) && forall v :: v in t.rows <==> v in list
    ensures RowsSoFar(t.rows, ConsiderAll(t1, list[..i], now, metrics, env).0.rows, list[..i], metrics, now, env.dwell)
  {
    if i > 0 {
      RowsAfter(t, t1, list, i - 1, now, metrics, env);
      ConsiderAllKeeps(t1, list, i - 1, now, metrics, env);
      ConsiderNext(t1, list, i - 1, now, metrics, env);
      RowsNext(t, t1, ConsiderAll(t1, list[..i - 1], now, metrics, env).0, list, i - 1, now, metrics, env);
    }
  }

  // ---------- The whole pass ----------

  /** Another version is made stable by this pass, and it stays: it entered its stage before `v`, so it is considered later. */
  ghost predicate Overtaken(rows: seq<Row>, v: Row, metrics: string -> Metrics, now: int, dwell: nat)
  {
    exists u :: u in rows && u.stage == Canary50 && Due(u, metrics(u.version), now, dwell)
      && (v.stage == Canary50 ==> u.enteredAt < v.enteredAt)
  }

  /** What a pass makes of one row: rolled back if red, promoted if due -- and superseded at once if a later promotion of
      the same pass overtakes it --, superseded if it was stable and is overtaken, and otherwise untouched. */
  ghost predicate RowEvaluated(rows: seq<Row>, v: Row, v': Row, metrics: string -> Metrics, now: int, dwell: nat)
  {
    var m := metrics(v.version);
    && (v'.stage == RolledBack <==> v.stage == RolledBack || Red(v, m))
    && if Red(v, m) then MovedTo(v, v', RolledBack, now)
       else if Due(v, m, now, dwell) then
         MovedTo(v, v', if v.stage == Canary50 && Overtaken(rows, v, metrics, now, dwell) then Superseded else Up(v.stage), now)
       else if v.stage == Stable && Overtaken(rows, v, metrics, now, dwell) then v' == v.(stage := Superseded)
       else v' == v
  }

  lemma {:induction false} CrownedIs(list: seq<Row>, metrics: string -> Metrics, now: int, dwell: nat) returns (p: int)
    ensures -1 <= p < |list|
    ensures p == -1 <==> Crowned(list, metrics, now, dwell) == None
    ensures p >= 0 ==> Crowned(list, metrics, now, dwell) == Some(list[p].version)
    ensures p >= 0 ==> list[p].stage == Canary50 && Due(list[p], metrics(list[p].version), now, dwell)
    ensures forall q :: p < q < |list| ==> !(list[q].stage == Canary50 && Due(list[q], metrics(list[q].version), now, dwell))
  {
    if list == [] {
      p := -1;
    } else {
      var n := |list| - 1;
      if list[n].stage == Canary50 && Due(list[n], metrics(list[n].version), now, dwell) {
        p := n;
      } else {
        p := CrownedIs(list[..n], metrics, now, dwell);
        assert forall q :: 0 <= q < n ==> list[..n][q] == list[q];
      }
    }
  }

  /** Considered last means entered first: the listing is newest first. */
  lemma OvertakenIs(rows: seq<Row>, list: seq<Row>, v: Row, metrics: string -> Metrics, now: int, dwell: nat)
    requires list == Listing(rows) && DistinctVersions(rows) && DistinctEntries(rows) && v in rows
    ensures v.stage == Stable ==> (Crowned(list, metrics, now, dwell).Some? <==> Overtaken(rows, v, metrics, now, dwell))
    ensures v.stage == Canary50 && Due(v, metrics(v.version), now, dwell) ==>
      (Crowned(list, metrics, now, dwell) != Some(v.version) <==> Overtaken(rows, v, metrics, now, dwell))
  {
    var p := CrownedIs(list, metrics, now, dwell);
    ListingOf(rows);
    StagesStrictWeak();
    SortSorted(rows, EnteredLater);
    if p >= 0 { assert list[p] in list; }
    forall u | u in rows && u.stage == Canary50 && Due(u, metrics(u.version), now, dwell)
      ensures p >= 0 && list[p].enteredAt <= u.enteredAt
    {
      assert u in list;
      var q :| 0 <= q < |list| && list[q] == u;
      assert q <= p;
      assert q == p || !EnteredLater(list[p], list[q]);
    }
    if v.stage == Canary50 && p >= 0 && list[p].version != v.version { EntriesDiffer(rows, v, list[p]); }
    if v.stage == Canary50 && p >= 0 && list[p].version == v.version { SameVersion(rows, v, list[p]); }
  }

  lemma EntriesDiffer(rows: seq<Row>, u: Row, v: Row)
    requires DistinctEntries(rows) && u in rows && v in rows && u != v
    ensures u.enteredAt != v.enteredAt
  {
    var i :| 0 <= i < |rows| && rows[i] == u;
    var j :| 0 <= j < |rows| && rows[j] == v;
    assert i != j;
  }

  lemma SameVersion(rows: seq<Row>, u: Row, v: Row)
    requires DistinctVersions(rows) && u in rows && v in rows && u.version == v.version
    ensures u == v
  {
    var i :| 0 <= i < |rows| && rows[i] == u;
    var j :| 0 <= j < |rows| && rows[j] == v;
    assert i == j;
  }

  ghost predicate Evaluated(rows: seq<Row>, rows': seq<Row>, metrics: string -> Metrics, now: int, dwell: nat)
  {
    |rows'| == |rows| && forall k :: 0 <= k < |rows| ==> RowEvaluated(rows, rows[k], rows'[k], metrics, now, dwell)
  }

  /** One evaluation pass, for every table that satisfies the invariant. */
  lemma EvaluatesEachRow(t: Table, metrics: string -> Metrics, env: Env)
    requires Increasing(env) && Inv(t, env)
    ensures Evaluated(t.rows, Evaluate(t, metrics, env).0.rows, metrics, env.tick(t.ticks).at, env.dwell)
  {
    var (t1, list, now) := (t.(ticks := t.ticks + 1), Listing(t.rows), env.tick(t.ticks).at);
    PassBegins(t, env);
    ListingOf(t.rows);
    RowsAfter(t, t1, list, |list|, now, metrics, env);
    assert list[..|list|] == list;
    var all := ConsiderAll(t1, list, now, metrics, env);
    EvaluateIs(t, t1, metrics, env, all.0, all.1);
    forall k | 0 <= k < |t.rows|
      ensures RowEvaluated(t.rows, t.rows[k], all.0.rows[k], metrics, now, env.dwell)
    {
      assert t.rows[k] in t.rows && t.rows[k] in list;
      OvertakenIs(t.rows, list, t.rows[k], metrics, now, env.dwell);
      RowFinal(t.rows, t.rows[k], all.0.rows[k], metrics, Crowned(list, metrics, now, env.dwell), now, env.dwell);
    }
  }

  lemma RowFinal(rows: seq<Row>, v: Row, v': Row, metrics: string -> Metrics, crowned: Option<string>, now: int, dwell: nat)
    requires RowSoFar(v, v', true, metrics(v.version), crowned, now, dwell)
    requires v.stage == Stable ==> (crowned.Some? <==> Overtaken(rows, v, metrics, now, dwell))
    requires v.stage == Canary50 && Due(v, metrics(v.version), now, dwell) ==>
      (crowned != Some(v.version) <==> Overtaken(rows, v, metrics, now, dwell))
    ensures RowEvaluated(rows, v, v', metrics, now, dwell)
  {
  }

  // ---------- What a pass reports ----------

  /** The action that reports what happened to `v`. */
  predicate Reports(a: Action, v: Row, m: Metrics, now: int, dwell: nat)
  {
    || (Red(v, m) && a.RollBack? && a.version == v.version && Cause(m, a.verdict))
    || (Due(v, m, now, dwell) && a == Promote(v.version, v.stage, Up(v.stage)))
  }

  /** Every action fits a row of the list, every row that changes has one, and no version has two. */
  ghost predicate ReportsOf(actions: seq<Action>, list: seq<Row>, fits: (Action, Row) -> bool, changes: Row -> bool)
  {
    && (forall j :: 0 <= j < |actions| ==> FitsSome(actions[j], list, fits))
    && (forall v :: v in list && changes(v) ==> HasAction(actions, v, fits))
    && (forall j, k :: 0 <= j < k < |actions| ==> actions[j].version != actions[k].version)
  }

  ghost predicate FitsSome(a: Action, list: seq<Row>, fits: (Action, Row) -> bool)
  {
    exists v :: v in list && fits(a, v) && a.version == v.version
  }

  ghost predicate HasAction(actions: seq<Action>, v: Row, fits: (Action, Row) -> bool)
  {
    exists a :: a in actions && fits(a, v)
  }

  /** The actions report exactly the rows of the list that are red or due, each once, as what it is. */
  ghost predicate ReportsExactly(actions: seq<Action>, list: seq<Row>, metrics: string -> Metrics, now: int, dwell: nat)
  {
    ReportsOf(actions, list, (a: Action, v: Row) => Reports(a, v, metrics(v.version), now, dwell),
              (v: Row) => Red(v, metrics(v.version)) || Due(v, metrics(v.version), now, dwell))
  }

  lemma ConsiderReports(t: Table, v: Row, now: int, m: Metrics, env: Env)
    ensures var actions := Consider(t, v, now, m, env).1;
      if Red(v, m) || Due(v, m, now, env.dwell) then |actions| == 1 && Reports(actions[0], v, m, now, env.dwell) else actions == []
  {
    JudgeMeans(m);
  }

  lemma FitsMore(a: Action, list: seq<Row>, v: Row, fits: (Action, Row) -> bool)
    ensures FitsSome(a, list, fits) ==> FitsSome(a, list + [v], fits)
    ensures fits(a, v) && a.version == v.version ==> FitsSome(a, list + [v], fits)
  {
    assert v in list + [v];
    if FitsSome(a, list, fits) {
      var u :| u in list && fits(a, u) && a.version == u.version;
      assert u in list + [v];
    }
  }

  lemma ActionStays(actions: seq<Action>, more: seq<Action>, v: Row, fits: (Action, Row) -> bool)
    ensures HasAction(actions, v, fits) || HasAction(more, v, fits) ==> HasAction(actions + more, v, fits)
  {
    var all := actions + more;
    assert forall a :: a in actions || a in more ==> a in all;
  }

  lemma ReportsNext(actions: seq<Action>, more: seq<Action>, list: seq<Row>, v: Row, fits: (Action, Row) -> bool, changes: Row -> bool)
    requires ReportsOf(actions, list, fits, changes) && forall u :: u in list ==> u.version != v.version
    requires if changes(v) then |more| == 1 && fits(more[0], v) && more[0].version == v.version else more == []
    ensures ReportsOf(actions + more, list + [v], fits, changes)
  {
    var all := actions + more;
    forall j | 0 <= j < |all|
      ensures FitsSome(all[j], list + [v], fits)
    {
      FitsMore(all[j], list, v, fits);
    }
    forall u | u in list + [v] && changes(u)
      ensures HasAction(all, u, fits)
    {
      ActionStays(actions, more, u, fits);
      assert u == v ==> more[0] in more;
    }
    forall j | 0 <= j < |actions|
      ensures actions[j].version != v.version
    {
      assert FitsSome(actions[j], list, fits);
    }
  }

  lemma {:induction false} AllReported(t: Table, list: seq<Row>, i: nat, now: int, metrics: string -> Metrics, env: Env)
    requires i <= |list| && DistinctVersions(list)
    ensures ReportsExactly(ConsiderAll(t, list[..i], now, metrics, env).1, list[..i], metrics, now, env.dwell)
  {
    if i > 0 {
      AllReported(t, list, i - 1, now, metrics, env);
      ConsiderNext(t, list, i - 1, now, metrics, env);
      var before := ConsiderAll(t, list[..i - 1], now, metrics, env);
      ReportsLast(before.0, before.1, list, i - 1, now, metrics, env);
    }
  }

  lemma ReportsLast(t: Table, actions: seq<Action>, list: seq<Row>, i: nat, now: int, metrics: string -> Metrics, env: Env)
    requires i < |list| && DistinctVersions(list) && ReportsExactly(actions, list[..i], metrics, now, env.dwell)
    ensures ReportsExactly(actions + Consider(t, list[i], now, metrics(list[i].version), env).1, list[..i + 1], metrics, now, env.dwell)
  {
    var (front, v) := (list[..i], list[i]);
    ConsiderReports(t, v, now, metrics(v.version), env);
    assert list[..i + 1] == front + [v];
    forall u | u in front
      ensures u.version != v.version
    {
      var k :| 0 <= k < |front| && front[k] == u;
      assert list[k] == u;
    }
    ReportsNext(actions, Consider(t, v, now, metrics(v.version), env).1, front, v,
                (a: Action, u: Row) => Reports(a, u, metrics(u.version), now, env.dwell),
                (u: Row) => Red(u, metrics(u.version)) || Due(u, metrics(u.version), now, env.dwell));
  }

  /** The actions of a pass report exactly its changes. */
  lemma EvaluateReports(t: Table, metrics: string -> Metrics, env: Env)
    requires DistinctVersions(t.rows)
    ensures ReportsExactly(Evaluate(t, metrics, env).1, Listing(t.rows), metrics, env.tick(t.ticks).at, env.dwell)
    ensures forall v :: v in Listing(t.rows) <==> v in t.rows
  {
    var (t1, list, now) := (t.(ticks := t.ticks + 1), Listing(t.rows), env.tick(t.ticks).at);
    ListingOf(t.rows);
    AllReported(t1, list, |list|, now, metrics, env);
    assert list[..|list|] == list;
    var all := ConsiderAll(t1, list, now, metrics, env);
    EvaluateIs(t, t1, metrics, env, all.0, all.1);
  }

  // ---------- Pins ----------

  /** A pin makes its version stable, rolls back every other canary, supersedes the version that was stable, and leaves the
      rest; whatever moves does so not before the clock reading `now`. */
  predicate RowPinned(v: Row, v': Row, version: string, now: int)
  {
    if v.version == version then (if v.stage == Stable then v' == v else MovedTo(v, v', Stable, now - 1))
    else if InCanary(v.stage) then MovedTo(v, v', RolledBack, now - 1)
    else if v.stage == Stable then v' == v.(stage := Superseded)
    else v' == v
  }

  ghost predicate PinnedTo(rows: seq<Row>, rows': seq<Row>, version: string, now: int)
  {
    |rows'| == |rows| && forall k :: 0 <= k < |rows| ==> RowPinned(rows[k], rows'[k], version, now)
  }

  lemma PinnedLeavesNoCanary(rows: seq<Row>, rows': seq<Row>, version: string, now: int)
    requires PinnedTo(rows, rows', version, now)
    ensures forall k :: 0 <= k < |rows'| ==> !InCanary(rows'[k].stage)
    ensures forall k :: 0 <= k < |rows'| ==> (rows'[k].stage == Stable <==> rows'[k].version == version)
  {
    forall k | 0 <= k < |rows'|
      ensures !InCanary(rows'[k].stage) && (rows'[k].stage == Stable <==> rows'[k].version == version)
    {
      assert RowPinned(rows[k], rows'[k], version, now);
    }
  }

  /** The canaries of `list` are rolled back, the other rows as they were. */
  ghost predicate CanariesOut(rows: seq<Row>, rows': seq<Row>, list: seq<Row>, now: int)
  {
    && |rows'| == |rows|
    && forall k :: 0 <= k < |rows| ==>
         if InCanary(rows[k].stage) && rows[k] in list then MovedTo(rows[k], rows'[k], RolledBack, now - 1) else rows'[k] == rows[k]
  }

  lemma CanaryOut(t: Table, t1: Table, list: seq<Row>, i: nat, reason: string, now: int, env: Env)
    requires i < |list| && DistinctVersions(list) && DistinctVersions(t.rows) && list[i] in t.rows
    requires CanariesOut(t.rows, t1.rows, list[..i], now) && now <= env.tick(t1.ticks).at
    ensures var t2 := if IsCanary(list[i].stage) then SetStage(t1, list[i].version, RolledBack, reason, env) else t1;
      CanariesOut(t.rows, t2.rows, list[..i + 1], now)
  {
    var t2 := if IsCanary(list[i].stage) then SetStage(t1, list[i].version, RolledBack, reason, env) else t1;
    assert list[..i + 1] == list[..i] + [list[i]];
    forall k | 0 <= k < |t.rows|
      ensures if InCanary(t.rows[k].stage) && t.rows[k] in list[..i + 1] then MovedTo(t.rows[k], t2.rows[k], RolledBack, now - 1)
              else t2.rows[k] == t.rows[k]
    {
      SeenOnce(t.rows, list, i, k);
    }
  }

  lemma {:induction false} CanariesGo(t: Table, list: seq<Row>, i: nat, reason: string, env: Env)
    requires Increasing(env) && i <= |list| && DistinctVersions(list) && DistinctVersions(t.rows) && forall v :: v in list ==> v in t.rows
    ensures var t1 := RollBackAll(t, list[..i], reason, env);
      CanariesOut(t.rows, t1.rows, list[..i], env.tick(t.ticks).at) && t1.ticks >= t.ticks
  {
    if i > 0 {
      CanariesGo(t, list, i - 1, reason, env);
      assert list[..i][..i - 1] == list[..i - 1] && list[i - 1] in list;
      CanaryOut(t, RollBackAll(t, list[..i - 1], reason, env), list, i - 1, "Operator pin override: " + reason, env.tick(t.ticks).at, env);
    }
  }

  /** A pin succeeds if and only if its version is known, and then does exactly that. */
  lemma PinsTheVersion(t: Table, version: string, reason: string, env: Env)
    requires Increasing(env) && DistinctVersions(t.rows)
    ensures Pin(t, version, reason, env).Some? <==> exists k :: 0 <= k < |t.rows| && t.rows[k].version == version
    ensures Pin(t, version, reason, env).Some? ==>
      PinnedTo(t.rows, Pin(t, version, reason, env).value.rows, version, env.tick(t.ticks).at)
  {
    var found := FindRow(t.rows, version);
    if found.Some? {
      var list := Listing(t.rows);
      ListingOf(t.rows);
      CanariesGo(t, list, |list|, reason, env);
      assert list[..|list|] == list;
      var t1 := RollBackAll(t, list, reason, env);
      forall k | 0 <= k < |t.rows|
        ensures RowPinned(t.rows[k], Pin(t, version, reason, env).value.rows[k], version, env.tick(t.ticks).at)
      {
        assert t.rows[k] in t.rows && t.rows[k] in list;
        if t.rows[k].version == version { SameVersion(t.rows, t.rows[k], found.value); }
        PinRow(t, t1, version, reason, env, k);
      }
      var j :| 0 <= j < |t.rows| && t.rows[j] == found.value;
    }
  }

  lemma PinRow(t: Table, t1: Table, version: string, reason: string, env: Env, k: nat)
    requires Increasing(env) && k < |t.rows| == |t1.rows| && t1.ticks >= t.ticks
    requires t1 == RollBackAll(t, Listing(t.rows), reason, env) && FindRow(t.rows, version).Some?
    requires var now := env.tick(t.ticks).at;
      if InCanary(t.rows[k].stage) then MovedTo(t.rows[k], t1.rows[k], RolledBack, now - 1) else t1.rows[k] == t.rows[k]
    requires t.rows[k].version == version ==> t.rows[k] == FindRow(t.rows, version).value
    ensures |Pin(t, version, reason, env).value.rows| == |t.rows|
    ensures RowPinned(t.rows[k], Pin(t, version, reason, env).value.rows[k], version, env.tick(t.ticks).at)
  {
  }

  // ---------- Publications ----------

  predicate Hex(c: char)
  {
    '0' <= c <= '9' || 'a' <= c <= 'f' || 'A' <= c <= 'F'
  }

  predicate WordChar(c: char)
  {
    '0' <= c <= '9' || 'a' <= c <= 'z' || 'A' <= c <= 'Z'
  }

  /** A canonical version, a full digest, a first stage, a protocol floor and allowed URLs. */
  predicate WellFormed(r: Release)
  {
    && 1 <= |r.version| <= 64 && WordChar(r.version[0])
    && (forall i :: 0 <= i < |r.version| ==> WordChar(r.version[i]) || r.version[i] == '.' || r.version[i] == '_' || r.version[i] == '+' || r.version[i] == '-')
    && |r.artifact.sha256| == 64 && (forall i :: 0 <= i < 64 ==> Hex(r.artifact.sha256[i]))
    && (r.stage == Draft || r.stage == Canary1) && r.artifact.minProtocol >= 1 && r.urlsOk
  }

  /** The row has the release's URLs, protocol floor and notes, and its digest in lower case. */
  predicate Carries(v: Row, r: Release)
  {
    && v.version == r.version && v.notes == r.notes && v.artifact.downloadUrl == r.artifact.downloadUrl
    && v.artifact.sigUrl == r.artifact.sigUrl && v.artifact.minProtocol == r.artifact.minProtocol
    && |v.artifact.sha256| == |r.artifact.sha256|
    && forall i :: 0 <= i < |v.artifact.sha256| ==> InLower(r.artifact.sha256[i], v.artifact.sha256[i])
  }

  predicate InLower(c: char, c': char)
  {
    if 'A' <= c <= 'Z' then c' as int == c as int + 32 else c' == c
  }

  predicate Known(rows: seq<Row>, version: string)
  {
    exists k :: 0 <= k < |rows| && rows[k].version == version
  }

  /** A publication is accepted if and only if the release is well-formed and a row of its version, if there is one,
      carries exactly it; and then a new version gets one new row that does, and a known one nothing. */
  lemma PublishesTheRelease(t: Table, r: Release, env: Env)
    requires DistinctVersions(t.rows)
    ensures Publish(t, r, env).Some? <==>
      WellFormed(r) && forall k :: 0 <= k < |t.rows| && t.rows[k].version == r.version ==> Carries(t.rows[k], r)
    ensures Publish(t, r, env).Some? && Known(t.rows, r.version) ==> Publish(t, r, env).value.rows == t.rows
    ensures Publish(t, r, env).Some? && !Known(t.rows, r.version) ==>
      var (rows', now) := (Publish(t, r, env).value.rows, env.tick(t.ticks).at);
      && |rows'| == |t.rows| + 1 && rows'[..|t.rows|] == t.rows && Carries(rows'[|t.rows|], r)
      && rows'[|t.rows|].stage == r.stage && rows'[|t.rows|].publishedAt == now && rows'[|t.rows|].enteredAt == now
  {
    PublishableIs(r);
    forall v
      ensures Carries(v, r) <==> v.version == r.version && v.notes == r.notes && v.artifact == Recorded(r)
    {
      CarriesIs(v, r);
    }
    var found := FindRow(t.rows, r.version);
    if found.Some? {
      var j :| 0 <= j < |t.rows| && t.rows[j] == found.value;
      forall k | 0 <= k < |t.rows| && t.rows[k].version == r.version
        ensures t.rows[k] == found.value
      {
        SameVersion(t.rows, t.rows[k], found.value);
      }
    }
  }

  lemma PublishableIs(r: Release)
    ensures Publishable(r) <==> WellFormed(r)
  {
  }

  lemma CarriesIs(v: Row, r: Release)
    ensures Carries(v, r) <==> v.version == r.version && v.notes == r.notes && v.artifact == Recorded(r)
  {
    var (a, b) := (v.artifact.sha256, r.artifact.sha256);
    if |a| == |b| && forall i :: 0 <= i < |a| ==> InLower(b[i], a[i]) {
      assert a == Lower(b);
    }
    assert forall i :: 0 <= i < |b| ==> InLower(b[i], Lower(b)[i]);
  }
}
