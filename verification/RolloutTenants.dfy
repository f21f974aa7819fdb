/** What an evaluation pass means for a tenant: with one canary in flight, a tenant who had it keeps it unless the pass
    rolls it back. */
module RolloutTenants {
  import opened Options
  import opened Sorting
  import opened Rollout
  import opened RolloutPasses
  import opened RolloutLaws

  ghost predicate OnlyCanary(rows: seq<Row>, c: Row)
  {
    c in rows && IsCanary(c.stage) && forall v :: v in rows && IsCanary(v.stage) ==> v == c
  }

  /** A listing with one canary is considered as if the canary were alone in it. */
  lemma {:induction false} OnlyCanaryCounts(t: Table, list: seq<Row>, p: nat, i: nat, now: int, metrics: string -> Metrics, env: Env)
    requires p < |list| && i <= |list| && forall j :: 0 <= j < |list| && j != p ==> !IsCanary(list[j].stage)
    ensures ConsiderAll(t, list[..i], now, metrics, env).0
         == if p < i then Consider(t, list[p], now, metrics(list[p].version), env).0 else t
  {
    if i > 0 {
      OnlyCanaryCounts(t, list, p, i - 1, now, metrics, env);
      ConsiderNext(t, list, i - 1, now, metrics, env);
    }
  }

  /** What a pass may do to the row of the one canary `c`: leave it, promote it, or roll it back. */
  predicate Moved(c: Row, c': Row)
  {
    && c'.version == c.version && IsCanary(c.stage)
    && (c' == c || c'.stage == NextStage(c.stage) || c'.stage.RolledBack?)
  }

  /** The table after the canary was considered: its row moved, and of the others a stable one superseded at most. */
  ghost predicate OneMoved(rows: seq<Row>, rows': seq<Row>, c: Row, c': Row)
  {
    && Moved(c, c') && c' in rows' && OneStable(rows')
    && forall v :: v in rows' && IsLive(v.stage) && v != c' ==> v.stage.Stable?
  }

  lemma ConsiderMoves(t: Table, c: Row, now: int, m: Metrics, env: Env, k: nat)
    requires Core(t, env) && OnlyCanary(t.rows, c) && k < |t.rows| && t.rows[k] == c
    requires RestoresNothing(t, c, m, env)
    ensures var rows' := Consider(t, c, now, m, env).0.rows;
      && |rows'| == |t.rows| && Moved(c, rows'[k])
      && forall j :: 0 <= j < |t.rows| && j != k ==> rows'[j].stage.Superseded? || rows'[j] == t.rows[j]
  {
  }

  lemma CanaryListed(rows: seq<Row>, c: Row) returns (p: nat)
    requires DistinctVersions(rows) && OnlyCanary(rows, c)
    ensures p < |Listing(rows)| && Listing(rows)[p] == c
    ensures forall j :: 0 <= j < |Listing(rows)| && j != p ==> !IsCanary(Listing(rows)[j].stage)
  {
    var list := Listing(rows);
    ListingOf(rows);
    assert c in list;
    p :| 0 <= p < |list| && list[p] == c;
    forall j | 0 <= j < |list| && j != p
      ensures !IsCanary(list[j].stage)
    {
      assert list[j] in list && list[j].version != list[p].version;
    }
  }

  lemma EvaluateIsConsider(t: Table, metrics: string -> Metrics, env: Env, c: Row)
    requires Increasing(env) && Inv(t, env) && OnlyCanary(t.rows, c)
    ensures var t1 := t.(ticks := t.ticks + 1);
      Evaluate(t, metrics, env).0.rows == Consider(t1, c, env.tick(t.ticks).at, metrics(c.version), env).0.rows
  {
    var list := Listing(t.rows);
    var p := CanaryListed(t.rows, c);
    var (t1, now) := (t.(ticks := t.ticks + 1), env.tick(t.ticks).at);
    OnlyCanaryCounts(t1, list, p, |list|, now, metrics, env);
    assert list[..|list|] == list;
    var all := ConsiderAll(t1, list, now, metrics, env);
    EvaluateIs(t, t1, metrics, env, all.0, all.1);
  }

  lemma CanaryAtRest(t: Table, env: Env, c: Row, now: int, m: Metrics)
    requires Increasing(env) && Inv(t, env) && OnlyCanary(t.rows, c) && now == env.tick(t.ticks).at
    ensures Core(t.(ticks := t.ticks + 1), env) && RestoresNothing(t.(ticks := t.ticks + 1), c, m, env)
  {
    PassBegins(t, env);
    var i :| 0 <= i < |t.rows| && t.rows[i] == c;
    assert Journey(t.rows[i], t.history, t.passes, env.dwell);
    ConsiderKeeps(t.(ticks := t.ticks + 1), c, now, m, env);
  }

  lemma EvaluateMoves(t: Table, metrics: string -> Metrics, env: Env, c: Row) returns (c': Row)
    requires Increasing(env) && Inv(t, env) && OnlyCanary(t.rows, c)
    ensures OneMoved(t.rows, Evaluate(t, metrics, env).0.rows, c, c')
  {
    var (t1, now, m) := (t.(ticks := t.ticks + 1), env.tick(t.ticks).at, metrics(c.version));
    EvaluateKeeps(t, metrics, env);
    EvaluateIsConsider(t, metrics, env, c);
    CanaryAtRest(t, env, c, now, m);
    var k :| 0 <= k < |t1.rows| && t1.rows[k] == c;
    ConsiderMoves(t1, c, now, m, env, k);
    c' := Consider(t1, c, now, m, env).0.rows[k];
    OthersStable(t.rows, Consider(t1, c, now, m, env).0.rows, c, k);
  }

  lemma OthersStable(rows: seq<Row>, rows': seq<Row>, c: Row, k: nat)
    requires k < |rows| == |rows'| && rows[k] == c && OnlyCanary(rows, c) && DistinctVersions(rows)
    requires forall j :: 0 <= j < |rows| && j != k ==> rows'[j].stage.Superseded? || rows'[j] == rows[j]
    ensures forall v :: v in rows' && IsLive(v.stage) && v != rows'[k] ==> v.stage.Stable?
  {
    forall v | v in rows' && IsLive(v.stage) && v != rows'[k]
      ensures v.stage.Stable?
    {
      var j :| 0 <= j < |rows'| && rows'[j] == v;
      assert rows[j] in rows && rows[j].version != c.version;
    }
  }

  /** A tenant without a flag who runs the one canary runs it after the pass too -- at its new stage, stable included --
      if and only if the pass did not roll it back. */
  lemma PromotionKeepsTenants(t: Table, metrics: string -> Metrics, env: Env, bucket: nat, c: Row, a: Assignment, a': Assignment)
    returns (c': Row)
    requires Increasing(env) && Inv(t, env) && bucket < 100 && OnlyCanary(t.rows, c)
    requires Chosen(bucket, Listing(t.rows), NoFlag, a) && a.version == Some(c)
    requires Chosen(bucket, Listing(Evaluate(t, metrics, env).0.rows), NoFlag, a')
    ensures c' in Evaluate(t, metrics, env).0.rows && Moved(c, c')
    ensures a'.version == Some(c') <==> !c'.stage.RolledBack?
  {
    c' := EvaluateMoves(t, metrics, env, c);
    var rows' := Evaluate(t, metrics, env).0.rows;
    EvaluateKeeps(t, metrics, env);
    ListingOf(t.rows);
    ListingOf(rows');
    OneCanaryReach(bucket, Listing(t.rows), c, a);
    NewestStableIsNewest(Listing(rows'));
    if !c'.stage.RolledBack? { StaysReached(bucket, Listing(rows'), c, c', a'); }
  }

  /** The percentage never shrinks on the way up, so the bucket still reaches the version. */
  lemma StaysReached(bucket: nat, versions: seq<Row>, c: Row, c': Row, a: Assignment)
    requires bucket < 100 && bucket < CohortPct(c.stage) && Moved(c, c') && !c'.stage.RolledBack? && c' in versions
    requires forall v :: v in versions && IsLive(v.stage) && v != c' ==> v.stage.Stable?
    requires c'.stage.Stable? ==> forall v :: v in versions && v.stage.Stable? ==> v == c'
    requires Chosen(bucket, versions, NoFlag, a)
    ensures a.version == Some(c')
  {
    NewestStableIsNewest(versions);
    assert IsLive(c'.stage);
    if IsCanary(c'.stage) { OneCanaryReach(bucket, versions, c', a); }
  }
}
