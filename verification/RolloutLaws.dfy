/** What every run of publish, evaluation and pin transactions keeps, under a strictly increasing clock. */
module RolloutLaws {
  import opened Options
  import opened Sorting
  import opened Rollout
  import opened RolloutPasses

  // ---------- The table ----------

  ghost predicate DistinctVersions(rows: seq<Row>)
  {
    forall i, j :: 0 <= i < j < |rows| ==> rows[i].version != rows[j].version
  }

  ghost predicate DistinctEntries(rows: seq<Row>)
  {
    forall i, j :: 0 <= i < j < |rows| ==> rows[i].enteredAt != rows[j].enteredAt
  }

  ghost predicate OneStable(rows: seq<Row>)
  {
    forall i, j :: 0 <= i < |rows| && 0 <= j < |rows| && rows[i].stage.Stable? && rows[j].stage.Stable? ==> i == j
  }

  predicate HasStable(rows: seq<Row>)
  {
    exists i :: 0 <= i < |rows| && rows[i].stage.Stable?
  }

  /** Some stable version entered later than this row. */
  ghost predicate Outranked(rows: seq<Row>, r: Row)
  {
    exists i :: 0 <= i < |rows| && rows[i].stage.Stable? && rows[i].enteredAt > r.enteredAt
  }

  /** A superseded version is always outranked by the stable one. */
  ghost predicate Crowned(rows: seq<Row>)
  {
    forall i :: 0 <= i < |rows| && rows[i].stage.Superseded? ==> Outranked(rows, rows[i])
  }

  /** Later clock readings are later than `at`. */
  ghost predicate Past(at: int, ticks: nat, env: Env)
  {
    forall k :: k >= ticks ==> at < env.tick(k).at
  }

  ghost predicate Core(t: Table, env: Env)
  {
    && DistinctVersions(t.rows) && DistinctEntries(t.rows)
    && OneStable(t.rows) && Crowned(t.rows)
    && forall i :: 0 <= i < |t.rows| ==> Past(t.rows[i].enteredAt, t.ticks, env)
  }

  lemma TickPasses(at: int, ticks: nat, env: Env)
    requires Increasing(env) && Past(at, ticks, env)
    ensures Past(at, ticks + 1, env) && at < env.tick(ticks).at && Past(env.tick(ticks).at, ticks + 1, env)
  {
  }

  lemma TicksPass(t: Table, env: Env)
    requires Increasing(env) && Core(t, env)
    ensures forall i :: 0 <= i < |t.rows| ==>
      Past(t.rows[i].enteredAt, t.ticks + 1, env) && t.rows[i].enteredAt < env.tick(t.ticks).at
    ensures Past(env.tick(t.ticks).at, t.ticks + 1, env)
  {
    forall i | 0 <= i < |t.rows|
      ensures Past(t.rows[i].enteredAt, t.ticks + 1, env) && t.rows[i].enteredAt < env.tick(t.ticks).at
    {
      TickPasses(t.rows[i].enteredAt, t.ticks, env);
    }
  }

  /** Moving one version to a fresh entry time keeps versions and entry times distinct, and every time past. */
  lemma MoveTimes(t: Table, version: string, stage: Stage, reason: string, env: Env)
    requires Increasing(env) && Core(t, env)
    ensures var t' := SetStage(t, version, stage, reason, env);
      && DistinctVersions(t'.rows) && DistinctEntries(t'.rows)
      && forall i :: 0 <= i < |t'.rows| ==> Past(t'.rows[i].enteredAt, t'.ticks, env)
  {
    TicksPass(t, env);
  }

  /** Moving a version that is not (and was not) stable to another such stage. */
  lemma MoveCore(t: Table, version: string, stage: Stage, reason: string, env: Env)
    requires Increasing(env) && Core(t, env) && !WasStable(stage)
    requires forall i :: 0 <= i < |t.rows| && t.rows[i].version == version ==> !WasStable(t.rows[i].stage)
    ensures Core(SetStage(t, version, stage, reason, env), env)
    ensures HasStable(t.rows) ==> HasStable(SetStage(t, version, stage, reason, env).rows)
  {
    MoveTimes(t, version, stage, reason, env);
    MoveStable(t.rows, SetStage(t, version, stage, reason, env).rows);
  }

  /** Whether a row is or was stable, and since when, has not changed. */
  predicate SameStanding(r: Row, r': Row)
  {
    if WasStable(r.stage) then r' == r else !WasStable(r'.stage)
  }

  lemma MoveStable(rows: seq<Row>, rows': seq<Row>)
    requires OneStable(rows) && Crowned(rows) && |rows'| == |rows|
    requires forall i :: 0 <= i < |rows| ==> SameStanding(rows[i], rows'[i])
    ensures OneStable(rows') && Crowned(rows') && (HasStable(rows) ==> HasStable(rows'))
  {
    forall i | 0 <= i < |rows'| && rows'[i].stage.Superseded?
      ensures Outranked(rows', rows'[i])
    {
      assert SameStanding(rows[i], rows'[i]) && Outranked(rows, rows[i]);
      var k :| 0 <= k < |rows| && rows[k].stage.Stable? && rows[k].enteredAt > rows[i].enteredAt;
      assert SameStanding(rows[k], rows'[k]);
    }
    if HasStable(rows) {
      var k :| 0 <= k < |rows| && rows[k].stage.Stable?;
      assert SameStanding(rows[k], rows'[k]);
    }
  }

  function Crown(t: Table, version: string, reason: string, env: Env): Table
  {
    Supersede(SetStage(t, version, Stable, reason, env), version)
  }

  /** Making a version stable and superseding the others. */
  lemma CrownCore(t: Table, version: string, reason: string, env: Env, k: nat)
    requires Increasing(env) && Core(t, env) && k < |t.rows| && t.rows[k].version == version
    ensures Core(Crown(t, version, reason, env), env) && HasStable(Crown(t, version, reason, env).rows)
  {
    TicksPass(t, env);
    var t' := Crown(t, version, reason, env);
    assert t'.rows[k].stage.Stable? && t'.rows[k].enteredAt == env.tick(t.ticks).at;
    forall i | 0 <= i < |t'.rows| && t'.rows[i].stage.Superseded?
      ensures Outranked(t'.rows, t'.rows[i])
    {
      assert t'.rows[i].enteredAt == t.rows[i].enteredAt;
    }
  }

  /** Superseding around the version that is stable already changes nothing. */
  lemma CrownedAlready(t: Table, version: string, k: nat)
    requires OneStable(t.rows) && k < |t.rows| && t.rows[k].version == version && t.rows[k].stage.Stable?
    ensures Supersede(t, version) == t
  {
    assert Supersede(t, version).rows == t.rows;
  }

  /** The row a restore would pick is the stable one, so a rollback never revives a superseded version. */
  lemma RestoreIsIdle(t: Table, failed: string, env: Env)
    requires Core(t, env) && forall i :: 0 <= i < |t.rows| && t.rows[i].version == failed ==> !WasStable(t.rows[i].stage)
    ensures Restore(t, failed, env) == t
  {
    var p := (r: Row) => WasStable(r.stage) && r.version != failed;
    var found := Filter(t.rows, p);
    var s := Sort(found, EnteredLater);
    StagesStrictWeak();
    SortSorted(found, EnteredLater);
    SortPermutes(found, EnteredLater);
    SameMembers(s, found);
    if s != [] {
      assert s[0] in s;
      FilterMember(t.rows, p, s[0]);
      forall k | 0 <= k < |t.rows| && WasStable(t.rows[k].stage)
        ensures t.rows[k].enteredAt <= s[0].enteredAt
      {
        FilterMember(t.rows, p, t.rows[k]);
        assert t.rows[k] in s;
        var j :| 0 <= j < |s| && s[j] == t.rows[k];
        assert j == 0 || !EnteredLater(s[j], s[0]);
      }
      NewestIsStable(t.rows, s[0]);
    }
  }

  lemma NewestIsStable(rows: seq<Row>, r: Row)
    requires Crowned(rows) && r in rows && WasStable(r.stage)
    requires forall k :: 0 <= k < |rows| && WasStable(rows[k].stage) ==> rows[k].enteredAt <= r.enteredAt
    ensures r.stage.Stable?
  {
    var i :| 0 <= i < |rows| && rows[i] == r;
    assert r.stage.Superseded? ==> Outranked(rows, rows[i]);
  }

  // ---------- How a version got where it is ----------

  predicate StageCount(s: Stage, n: int)
  {
    match s
    case Draft => n == 0 case Canary1 => n == 0 case Canary10 => n == 1 case Canary50 => n == 2
    case Stable => n == 3 case Superseded => n == 3 case RolledBack => n <= 2
  }

  predicate IsPinned(h: seq<Event>)
  {
    exists k :: 0 <= k < |h| && h[k].Pinned?
  }

  /** Every move after publication was a green promotion, a dwell period after the last, each in a pass of its own. */
  predicate Earned(h: seq<Event>, passes: nat, dwell: nat)
  {
    forall k :: 1 <= k < |h| ==>
      && h[k].Promoted? && Judge(h[k].metrics).Green? && h[k].pass < passes
      && h[k].at > h[k - 1].at + dwell
      && (k > 1 ==> h[k - 1].Promoted? && h[k - 1].pass < h[k].pass)
  }

  predicate Walked(r: Row, h: seq<Event>, passes: nat, dwell: nat)
  {
    && Earned(h, passes, dwell)
    && StageCount(r.stage, |h| - 1)
    && (!r.stage.RolledBack? ==> h != [] && r.enteredAt == h[|h| - 1].at)
  }

  /** The row began as it was published, and an unpinned version walked every step. */
  predicate Journey(r: Row, history: map<string, seq<Event>>, passes: nat, dwell: nat)
  {
    r.version in history && var h := history[r.version];
    && h != [] && h[0].Published? && h[0].at == r.publishedAt
    && h[0].notes <= r.notes && (r.notes == h[0].notes <==> r.enteredAt == r.publishedAt)
    && r.publishedAt <= r.enteredAt
    && (IsPinned(h) || Walked(r, h, passes, dwell))
    && (IsCanary(r.stage) ==> !IsPinned(h))
  }

  ghost predicate Journeys(t: Table, passes: nat, env: Env)
  {
    forall i :: 0 <= i < |t.rows| ==> Journey(t.rows[i], t.history, passes, env.dwell)
  }

  ghost predicate Inv(t: Table, env: Env)
  {
    Core(t, env) && Journeys(t, t.passes, env)
  }

  lemma JourneyGrows(r: Row, history: map<string, seq<Event>>, passes: nat, passes': nat, dwell: nat)
    requires Journey(r, history, passes, dwell) && passes <= passes'
    ensures Journey(r, history, passes', dwell)
  {
  }

  /** A row that was moved for a reason keeps its beginning: only its stage, entry time and notes change. */
  lemma MovedNotes(r: Row, stage: Stage, now: Reading, reason: string, first: string)
    requires reason != "" && first <= r.notes
    ensures first < Moved(r, stage, now, reason).notes
  {
    assert r.notes < Moved(r, stage, now, reason).notes;
  }

  lemma RollBackJourney(r: Row, history: map<string, seq<Event>>, passes: nat, dwell: nat, now: Reading, reason: string)
    requires Journey(r, history, passes, dwell) && IsCanary(r.stage) && r.enteredAt < now.at && reason != ""
    ensures Journey(Moved(r, RolledBack, now, reason), history, passes, dwell)
  {
    MovedNotes(r, RolledBack, now, reason, history[r.version][0].notes);
  }

  lemma RollBackKeeps(t: Table, v: Row, passes: nat, reason: string, env: Env)
    requires Increasing(env) && Core(t, env) && Journeys(t, passes, env)
    requires v in t.rows && IsCanary(v.stage) && reason != ""
    ensures var t' := SetStage(t, v.version, RolledBack, reason, env);
      Core(t', env) && Journeys(t', passes, env) && (HasStable(t.rows) ==> HasStable(t'.rows))
  {
    var t' := SetStage(t, v.version, RolledBack, reason, env);
    TheRow(t, v);
    MoveCore(t, v.version, RolledBack, reason, env);
    TicksPass(t, env);
    forall i | 0 <= i < |t'.rows|
      ensures Journey(t'.rows[i], t'.history, passes, env.dwell)
    {
      assert Journey(t.rows[i], t.history, passes, env.dwell);
      if t.rows[i].version == v.version { RollBackJourney(t.rows[i], t.history, passes, env.dwell, env.tick(t.ticks), reason); }
    }
  }

  lemma TheRow(t: Table, v: Row)
    requires DistinctVersions(t.rows) && v in t.rows
    ensures forall i :: 0 <= i < |t.rows| && t.rows[i].version == v.version ==> t.rows[i] == v
  {
    var k :| 0 <= k < |t.rows| && t.rows[k] == v;
  }

  // ---------- Promotion ----------

  lemma PromotionJourney(v: Row, v': Row, h: seq<Event>, h': seq<Event>, passes: nat, dwell: nat)
    requires h != [] && IsCanary(v.stage) && Walked(v, h, passes, dwell) && !IsPinned(h)
    requires |h'| == |h| + 1 && h'[..|h|] == h && h'[|h|].Promoted? && h'[|h|].pass == passes && Judge(h'[|h|].metrics).Green?
    requires h'[|h|].at > v.enteredAt + dwell && v'.stage == NextStage(v.stage) && v'.enteredAt == h'[|h|].at
    ensures Walked(v', h', passes + 1, dwell) && !IsPinned(h')
  {
    forall k | 1 <= k < |h'|
      ensures h'[k].Promoted? && Judge(h'[k].metrics).Green? && h'[k].pass < passes + 1
      ensures h'[k].at > h'[k - 1].at + dwell
      ensures k > 1 ==> h'[k - 1].Promoted? && h'[k - 1].pass < h'[k].pass
    {
      assert h'[k - 1] == h'[..|h|][k - 1];
      if k < |h| { assert h'[k] == h'[..|h|][k]; }
    }
  }

  /** The table right after a promotion, before any superseding. */
  function Promotion(t: Table, v: Row, m: Metrics, env: Env): Table
    requires IsCanary(v.stage)
  {
    Note(SetStage(t, v.version, NextStage(v.stage), "auto promote", env), v.version, Promoted(t.passes, env.tick(t.ticks).at, m))
  }

  lemma PromotionJourneys(t: Table, v: Row, now: int, m: Metrics, env: Env)
    requires Increasing(env) && Core(t, env) && Journeys(t, t.passes + 1, env) && v in t.rows && IsCanary(v.stage)
    requires Journey(v, t.history, t.passes, env.dwell)
    requires Judge(m).Green? && now - v.enteredAt >= env.dwell && now < env.tick(t.ticks).at
    ensures Journeys(Promotion(t, v, m, env), t.passes + 1, env)
  {
    var t' := Promotion(t, v, m, env);
    TheRow(t, v);
    TicksPass(t, env);
    forall i | 0 <= i < |t'.rows|
      ensures Journey(t'.rows[i], t'.history, t.passes + 1, env.dwell)
    {
      assert Journey(t.rows[i], t.history, t.passes + 1, env.dwell);
      if t.rows[i].version == v.version {
        var (h, h') := (t.history[v.version], t'.history[v.version]);
        assert h'[|h|] == Promoted(t.passes, env.tick(t.ticks).at, m) && h'[..|h|] == h;
        PromotionJourney(v, t'.rows[i], h, h', t.passes, env.dwell);
        MovedNotes(v, NextStage(v.stage), env.tick(t.ticks), "auto promote", h[0].notes);
        assert h'[0] == h[0];
      }
    }
  }

  lemma SupersedeJourneys(t: Table, version: string, passes: nat, env: Env)
    requires Journeys(t, passes, env)
    ensures Journeys(Supersede(t, version), passes, env)
  {
    var t' := Supersede(t, version);
    forall i | 0 <= i < |t'.rows|
      ensures Journey(t'.rows[i], t'.history, passes, env.dwell)
    {
      assert Journey(t.rows[i], t.history, passes, env.dwell);
    }
  }

  lemma PromotionKeeps(t: Table, v: Row, now: int, m: Metrics, env: Env)
    requires Increasing(env) && Core(t, env) && Journeys(t, t.passes + 1, env) && v in t.rows && IsCanary(v.stage)
    requires Journey(v, t.history, t.passes, env.dwell)
    requires Judge(m).Green? && now - v.enteredAt >= env.dwell && now < env.tick(t.ticks).at
    ensures var t' := Consider(t, v, now, m, env).0;
      Core(t', env) && Journeys(t', t.passes + 1, env) && (HasStable(t.rows) ==> HasStable(t'.rows))
  {
    PromotionJourneys(t, v, now, m, env);
    TheRow(t, v);
    if v.stage.Canary50? {
      CrowningKeeps(t, v, now, m, env);
    } else {
      MoveCore(t, v.version, NextStage(v.stage), "auto promote", env);
    }
  }

  lemma CrowningKeeps(t: Table, v: Row, now: int, m: Metrics, env: Env)
    requires Increasing(env) && Core(t, env) && v in t.rows && v.stage.Canary50?
    requires Journeys(Promotion(t, v, m, env), t.passes + 1, env)
    requires Judge(m).Green? && now - v.enteredAt >= env.dwell
    ensures var t' := Consider(t, v, now, m, env).0;
      Core(t', env) && Journeys(t', t.passes + 1, env) && (HasStable(t.rows) ==> HasStable(t'.rows))
  {
    var k :| 0 <= k < |t.rows| && t.rows[k] == v;
    CrownCore(t, v.version, "auto promote", env, k);
    SupersedeJourneys(Promotion(t, v, m, env), v.version, t.passes + 1, env);
    assert Consider(t, v, now, m, env).0.rows == Crown(t, v.version, "auto promote", env).rows;
  }

  predicate RestoresNothing(t: Table, v: Row, m: Metrics, env: Env)
  {
    var rolled := RolledBackBy(t, v.version, Judge(m), env);
    Restore(rolled, v.version, env) == rolled
  }

  /** Considering one version leaves every other canary as it was. */
  lemma ConsiderFrame(t: Table, v: Row, now: int, m: Metrics, env: Env, u: Row)
    requires Core(t, env) && v in t.rows && u in t.rows && u.version != v.version && IsCanary(u.stage)
    requires IsCanary(v.stage) ==> RestoresNothing(t, v, m, env)
    ensures var t' := Consider(t, v, now, m, env).0;
      u in t'.rows && t'.passes == t.passes && (u.version in t.history ==> u.version in t'.history && t'.history[u.version] == t.history[u.version])
  {
    var t' := Consider(t, v, now, m, env).0;
    var k :| 0 <= k < |t.rows| && t.rows[k] == u;
    assert t'.rows[k] == u;
  }

  lemma ConsiderKeeps(t: Table, v: Row, now: int, m: Metrics, env: Env)
    requires Increasing(env) && Core(t, env) && Journeys(t, t.passes + 1, env)
    requires IsCanary(v.stage) ==> v in t.rows && Journey(v, t.history, t.passes, env.dwell)
    requires now < env.tick(t.ticks).at
    ensures var t' := Consider(t, v, now, m, env).0;
      && Core(t', env) && Journeys(t', t.passes + 1, env) && (HasStable(t.rows) ==> HasStable(t'.rows))
      && t'.passes == t.passes && t'.ticks >= t.ticks
    ensures IsCanary(v.stage) ==> RestoresNothing(t, v, m, env)
  {
    if IsCanary(v.stage) {
      RollBackKeeps(t, v, t.passes + 1, "auto rollback: " + VerdictText(Judge(m)), env);
      RestoreIsIdle(RolledBackBy(t, v.version, Judge(m), env), v.version, env);
      if Judge(m).Green? && now - v.enteredAt >= env.dwell { PromotionKeeps(t, v, now, m, env); }
    }
  }

  // ---------- A whole pass ----------

  /** Versions still to be considered are as they were listed, and have not moved in this pass. */
  ghost predicate Waiting(t: Table, list: seq<Row>, i: nat, env: Env)
  {
    forall j :: i <= j < |list| && IsCanary(list[j].stage) ==>
      list[j] in t.rows && Journey(list[j], t.history, t.passes, env.dwell)
  }

  lemma ConsiderWaits(t: Table, list: seq<Row>, i: nat, now: int, m: Metrics, env: Env)
    requires Increasing(env) && Core(t, env) && Journeys(t, t.passes + 1, env) && now < env.tick(t.ticks).at
    requires i < |list| && DistinctVersions(list) && Waiting(t, list, i, env)
    ensures Waiting(Consider(t, list[i], now, m, env).0, list, i + 1, env)
  {
    var v := list[i];
    ConsiderKeeps(t, v, now, m, env);
    var t' := Consider(t, v, now, m, env).0;
    forall j | i + 1 <= j < |list| && IsCanary(list[j].stage)
      ensures list[j] in t'.rows && Journey(list[j], t'.history, t'.passes, env.dwell)
    {
      assert Journey(list[j], t.history, t.passes, env.dwell);
      if IsCanary(v.stage) { ConsiderFrame(t, v, now, m, env, list[j]); }
    }
  }

  /** Where a pass that began in `t` stands after the first `i` of its listing. */
  ghost predicate InPass(t: Table, t': Table, list: seq<Row>, i: nat, now: int, env: Env)
  {
    && Core(t', env) && Journeys(t', t.passes + 1, env) && (HasStable(t.rows) ==> HasStable(t'.rows))
    && t'.passes == t.passes && t'.ticks >= t.ticks && now < env.tick(t'.ticks).at && Waiting(t', list, i, env)
  }

  lemma ConsiderStep(t: Table, t1: Table, list: seq<Row>, i: nat, now: int, m: Metrics, env: Env)
    requires Increasing(env) && i < |list| && DistinctVersions(list) && InPass(t, t1, list, i, now, env)
    ensures InPass(t, Consider(t1, list[i], now, m, env).0, list, i + 1, now, env)
  {
    ConsiderKeeps(t1, list[i], now, m, env);
    ConsiderWaits(t1, list, i, now, m, env);
  }

  lemma {:induction false} ConsiderAllKeeps(t: Table, list: seq<Row>, i: nat, now: int, metrics: string -> Metrics, env: Env)
    requires Increasing(env) && Core(t, env) && Journeys(t, t.passes + 1, env) && now < env.tick(t.ticks).at
    requires i <= |list| && DistinctVersions(list) && Waiting(t, list, 0, env)
    ensures InPass(t, ConsiderAll(t, list[..i], now, metrics, env).0, list, i, now, env)
  {
    if i > 0 {
      ConsiderAllKeeps(t, list, i - 1, now, metrics, env);
      ConsiderNext(t, list, i - 1, now, metrics, env);
      ConsiderStep(t, ConsiderAll(t, list[..i - 1], now, metrics, env).0, list, i - 1, now, metrics(list[i - 1].version), env);
    }
  }

  lemma ListingOf(rows: seq<Row>)
    requires DistinctVersions(rows)
    ensures DistinctVersions(Listing(rows))
    ensures forall r :: r in Listing(rows) <==> r in rows
  {
    var list := Listing(rows);
    SortPermutes(rows, EnteredLater);
    SameMembers(list, rows);
    DistinctPermutes(rows, list);
    forall i, j | 0 <= i < j < |list|
      ensures list[i].version != list[j].version
    {
      assert list[i] in rows && list[j] in rows && list[i] != list[j];
      var a :| 0 <= a < |rows| && rows[a] == list[i];
      var b :| 0 <= b < |rows| && rows[b] == list[j];
      assert a != b;
    }
  }

  /** The state in which a pass begins to consider its listing. */
  lemma PassBegins(t: Table, env: Env)
    requires Increasing(env) && Inv(t, env)
    ensures var (t1, list) := (t.(ticks := t.ticks + 1), Listing(t.rows));
      && Core(t1, env) && Journeys(t1, t.passes + 1, env) && env.tick(t.ticks).at < env.tick(t1.ticks).at
      && DistinctVersions(list) && Waiting(t1, list, 0, env)
  {
    TicksPass(t, env);
    var (t1, list) := (t.(ticks := t.ticks + 1), Listing(t.rows));
    ListingOf(t.rows);
    forall i | 0 <= i < |t.rows|
      ensures Journey(t.rows[i], t.history, t.passes + 1, env.dwell)
    {
      JourneyGrows(t.rows[i], t.history, t.passes, t.passes + 1, env.dwell);
    }
    forall j | 0 <= j < |list|
      ensures list[j] in t1.rows && Journey(list[j], t1.history, t1.passes, env.dwell)
    {
      assert list[j] in list;
      var i :| 0 <= i < |t.rows| && t.rows[i] == list[j];
    }
  }

  lemma EvaluateKeeps(t: Table, metrics: string -> Metrics, env: Env)
    requires Increasing(env) && Inv(t, env)
    ensures Inv(Evaluate(t, metrics, env).0, env)
    ensures HasStable(t.rows) ==> HasStable(Evaluate(t, metrics, env).0.rows)
  {
    PassBegins(t, env);
    var (t1, list, now) := (t.(ticks := t.ticks + 1), Listing(t.rows), env.tick(t.ticks).at);
    ConsiderAllKeeps(t1, list, |list|, now, metrics, env);
    assert list[..|list|] == list;
    PassEnds(ConsiderAll(t1, list, now, metrics, env).0, t.passes + 1, env);
  }

  lemma PassEnds(t: Table, passes: nat, env: Env)
    requires Core(t, env) && Journeys(t, passes, env)
    ensures Inv(t.(passes := passes), env)
  {
  }

  // ---------- Pin and publish ----------

  /** After the canaries seen so far were rolled back, the rest of the list is untouched. */
  ghost predicate StillListed(t: Table, list: seq<Row>, i: nat)
  {
    forall j :: i <= j < |list| ==> list[j] in t.rows
  }

  /** Where an operator pin stands after rolling back the canaries among the first `i` of its listing. */
  ghost predicate InPin(t: Table, t': Table, list: seq<Row>, i: nat, env: Env)
  {
    && Core(t', env) && Journeys(t', t.passes, env) && StillListed(t', list, i)
    && t'.passes == t.passes && t'.history == t.history && |t'.rows| == |t.rows|
    && (HasStable(t.rows) ==> HasStable(t'.rows))
    && forall k :: 0 <= k < |t.rows| ==>
         t'.rows[k].version == t.rows[k].version && SameStanding(t.rows[k], t'.rows[k])
  }

  lemma RollBackStep(t: Table, t1: Table, list: seq<Row>, i: nat, reason: string, env: Env)
    requires Increasing(env) && i < |list| && DistinctVersions(list) && InPin(t, t1, list, i, env)
    requires IsCanary(list[i].stage) && reason != ""
    ensures InPin(t, SetStage(t1, list[i].version, RolledBack, reason, env), list, i + 1, env)
  {
    var t' := SetStage(t1, list[i].version, RolledBack, reason, env);
    RollBackKeeps(t1, list[i], t.passes, reason, env);
    TheRow(t1, list[i]);
    forall j | i + 1 <= j < |list|
      ensures list[j] in t'.rows
    {
      var k :| 0 <= k < |t1.rows| && t1.rows[k] == list[j];
      assert t'.rows[k] == list[j];
    }
  }

  lemma {:induction false} RollBackAllKeeps(t: Table, list: seq<Row>, i: nat, reason: string, env: Env)
    requires Increasing(env) && Inv(t, env) && i <= |list| && DistinctVersions(list) && StillListed(t, list, 0)
    ensures InPin(t, RollBackAll(t, list[..i], reason, env), list, i, env)
  {
    if i > 0 {
      assert list[..i][..i - 1] == list[..i - 1];
      RollBackAllKeeps(t, list, i - 1, reason, env);
      if IsCanary(list[i - 1].stage) {
        RollBackStep(t, RollBackAll(t, list[..i - 1], reason, env), list, i - 1, "Operator pin override: " + reason, env);
      }
    }
  }

  lemma PinJourney(t: Table, k: nat, version: string, reason: string, env: Env)
    requires Increasing(env) && Core(t, env) && Journeys(t, t.passes, env) && k < |t.rows| && t.rows[k].version == version
    requires reason != ""
    ensures Journeys(Note(SetStage(t, version, Stable, reason, env), version, Pinned(env.tick(t.ticks).at)), t.passes, env)
  {
    var t' := Note(SetStage(t, version, Stable, reason, env), version, Pinned(env.tick(t.ticks).at));
    TicksPass(t, env);
    forall i | 0 <= i < |t'.rows|
      ensures Journey(t'.rows[i], t'.history, t.passes, env.dwell)
    {
      assert Journey(t.rows[i], t.history, t.passes, env.dwell);
      if t.rows[i].version == version {
        var (h, h') := (t.history[version], t'.history[version]);
        assert h'[|h|].Pinned? && h'[0] == h[0];
        MovedNotes(t.rows[i], Stable, env.tick(t.ticks), reason, h[0].notes);
      }
    }
  }

  lemma PinKeeps(t: Table, version: string, reason: string, env: Env)
    requires Increasing(env) && Inv(t, env) && Pin(t, version, reason, env).Some?
    ensures Inv(Pin(t, version, reason, env).value, env) && HasStable(Pin(t, version, reason, env).value.rows)
  {
    var list := Listing(t.rows);
    ListingOf(t.rows);
    assert forall j :: 0 <= j < |list| ==> list[j] in list;
    RollBackAllKeeps(t, list, |list|, reason, env);
    assert list[..|list|] == list;
    var t1 := RollBackAll(t, list, reason, env);
    var r := FindRow(t.rows, version).value;
    var k :| 0 <= k < |t.rows| && t.rows[k] == r;
    if r.stage.Stable? {
      assert SameStanding(t.rows[k], t1.rows[k]);
      CrownedAlready(t1, version, k);
    } else {
      var why := "Operator pin: " + reason;
      PinJourney(t1, k, version, why, env);
      CrownCore(t1, version, why, env, k);
      SupersedeJourneys(Note(SetStage(t1, version, Stable, why, env), version, Pinned(env.tick(t1.ticks).at)), version, t.passes, env);
    }
  }

  lemma PublishKeeps(t: Table, r: Release, env: Env)
    requires Increasing(env) && Inv(t, env) && Publish(t, r, env).Some?
    ensures Inv(Publish(t, r, env).value, env)
    ensures HasStable(t.rows) ==> HasStable(Publish(t, r, env).value.rows)
  {
    TicksPass(t, env);
    var t' := Publish(t, r, env).value;
    forall i | 0 <= i < |t'.rows|
      ensures Journey(t'.rows[i], t'.history, t.passes, env.dwell)
    {
      if i < |t.rows| {
        assert t'.rows[i] == t.rows[i] && Journey(t.rows[i], t.history, t.passes, env.dwell);
        assert t.rows[i] in t.rows;
      }
    }
    if |t'.rows| > |t.rows| { NewRowStanding(t.rows, t'.rows[|t.rows|]); }
  }

  lemma NewRowStanding(rows: seq<Row>, r: Row)
    requires OneStable(rows) && Crowned(rows) && !WasStable(r.stage)
    ensures OneStable(rows + [r]) && Crowned(rows + [r]) && (HasStable(rows) ==> HasStable(rows + [r]))
  {
    var rows' := rows + [r];
    forall i | 0 <= i < |rows'| && rows'[i].stage.Superseded?
      ensures Outranked(rows', rows'[i])
    {
      assert rows'[i] == rows[i] && Outranked(rows, rows[i]);
      var k :| 0 <= k < |rows| && rows[k].stage.Stable? && rows[k].enteredAt > rows[i].enteredAt;
      assert rows'[k] == rows[k];
    }
    if HasStable(rows) {
      var k :| 0 <= k < |rows| && rows[k].stage.Stable?;
      assert rows'[k] == rows[k];
    }
  }

  // ---------- Every run ----------

  lemma ApplyKeeps(t: Table, op: Op, env: Env)
    requires Increasing(env) && Inv(t, env)
    ensures Inv(Apply(t, op, env), env) && (HasStable(t.rows) ==> HasStable(Apply(t, op, env).rows))
  {
    match op
    case Publishing(r) => if Publish(t, r, env).Some? { PublishKeeps(t, r, env); }
    case Evaluating(m) => EvaluateKeeps(t, m, env);
    case Pinning(v, reason) => if Pin(t, v, reason, env).Some? { PinKeeps(t, v, reason, env); }
  }

  lemma {:induction false} RunKeeps(ops: seq<Op>, env: Env)
    requires Increasing(env)
    ensures Inv(After(ops, env), env)
  {
    if ops != [] {
      RunKeeps(ops[..|ops| - 1], env);
      ApplyKeeps(After(ops[..|ops| - 1], env), ops[|ops| - 1], env);
    }
  }

  lemma AfterStep(ops: seq<Op>, i: nat, env: Env)
    requires i < |ops|
    ensures After(ops[..i + 1], env) == Apply(After(ops[..i], env), ops[i], env)
  {
    assert ops[..i + 1][..i] == ops[..i];
  }

  /** Once there is a stable version there always is one. */
  lemma {:induction false} StableStays(ops: seq<Op>, i: nat, env: Env)
    requires Increasing(env) && i <= |ops|
    ensures HasStable(After(ops[..i], env).rows) ==> HasStable(After(ops, env).rows)
    decreases |ops| - i
  {
    if i < |ops| {
      AfterStep(ops, i, env);
      RunKeeps(ops[..i], env);
      ApplyKeeps(After(ops[..i], env), ops[i], env);
      StableStays(ops, i + 1, env);
    } else {
      assert ops[..i] == ops;
    }
  }

  /** One stable version at most, newer in its stage than every superseded one. */
  lemma StableReigns(ops: seq<Op>, env: Env, r: Row, s: Row)
    requires Increasing(env)
    requires r in After(ops, env).rows && s in After(ops, env).rows && WasStable(r.stage) && s.stage.Stable? && r != s
    ensures r.stage.Superseded? && r.enteredAt < s.enteredAt
  {
    RunKeeps(ops, env);
    var rows := After(ops, env).rows;
    var a :| 0 <= a < |rows| && rows[a] == r;
    var b :| 0 <= b < |rows| && rows[b] == s;
    assert r.stage.Superseded? ==> Outranked(rows, rows[a]);
  }

  /** A superseded version implies a stable one. */
  lemma NeverHeadless(ops: seq<Op>, env: Env, r: Row)
    requires Increasing(env) && r in After(ops, env).rows && r.stage.Superseded?
    ensures HasStable(After(ops, env).rows)
  {
    RunKeeps(ops, env);
    var rows := After(ops, env).rows;
    var a :| 0 <= a < |rows| && rows[a] == r;
    assert Outranked(rows, rows[a]);
  }

  /** Stable without a pin means: three promotions, each on green metrics of at least twenty samples, each in a pass
      of its own and more than a dwell period after the last, so more than three dwell periods after publication. */
  lemma StableIsEarned(ops: seq<Op>, env: Env, r: Row)
    requires Increasing(env) && r in After(ops, env).rows && WasStable(r.stage)
    requires r.version in After(ops, env).history ==> !IsPinned(After(ops, env).history[r.version])
    ensures r.version in After(ops, env).history
    ensures var h := After(ops, env).history[r.version];
      && |h| == 4 && h[0].Published? && h[0].at == r.publishedAt
      && (forall k :: 1 <= k < 4 ==> h[k].Promoted? && Judge(h[k].metrics).Green? && h[k].metrics.samples >= MIN_SAMPLES)
      && h[1].pass < h[2].pass < h[3].pass
      && r.enteredAt == h[3].at > r.publishedAt + 3 * env.dwell
  {
    RunKeeps(ops, env);
    var t := After(ops, env);
    var i :| 0 <= i < |t.rows| && t.rows[i] == r;
    assert Journey(t.rows[i], t.history, t.passes, env.dwell);
    var h := t.history[r.version];
    assert Earned(h, t.passes, env.dwell) && |h| == 4;
    assert h[1].at > h[0].at + env.dwell && h[2].at > h[1].at + env.dwell && h[3].at > h[2].at + env.dwell;
  }

  /** A canary stage likewise tells exactly how many green passes a version has behind it. */
  lemma CanaryIsEarned(ops: seq<Op>, env: Env, r: Row)
    requires Increasing(env) && r in After(ops, env).rows && IsCanary(r.stage)
    ensures r.version in After(ops, env).history
    ensures var h := After(ops, env).history[r.version];
      |h| == StageOrder(r.stage) && Earned(h, After(ops, env).passes, env.dwell)
  {
    RunKeeps(ops, env);
    var t := After(ops, env);
    var i :| 0 <= i < |t.rows| && t.rows[i] == r;
    assert Journey(t.rows[i], t.history, t.passes, env.dwell);
  }

  // ---------- What never changes ----------

  /** The same release: only its stage, entry time and (at the end) its notes may differ. */
  predicate SameRelease(r: Row, r': Row)
  {
    r'.version == r.version && r'.artifact == r.artifact && r'.publishedAt == r.publishedAt && r.notes <= r'.notes
  }

  ghost predicate Persist(rows: seq<Row>, rows': seq<Row>)
  {
    |rows| <= |rows'| && forall i :: 0 <= i < |rows| ==> SameRelease(rows[i], rows'[i])
  }

  lemma PersistTwice(a: seq<Row>, b: seq<Row>, c: seq<Row>)
    requires Persist(a, b) && Persist(b, c)
    ensures Persist(a, c)
  {
    forall i | 0 <= i < |a|
      ensures SameRelease(a[i], c[i])
    {
      assert SameRelease(a[i], b[i]) && SameRelease(b[i], c[i]);
    }
  }

  lemma SetStagePersists(t: Table, version: string, stage: Stage, reason: string, env: Env)
    ensures Persist(t.rows, SetStage(t, version, stage, reason, env).rows)
  {
    var rows' := SetStage(t, version, stage, reason, env).rows;
    forall i | 0 <= i < |t.rows|
      ensures SameRelease(t.rows[i], rows'[i])
    {
      assert t.rows[i].notes <= t.rows[i].notes + "\n[" + env.tick(t.ticks).text + "] " + reason;
    }
  }

  lemma SupersedePersists(t: Table, version: string)
    ensures Persist(t.rows, Supersede(t, version).rows)
  {
  }

  lemma ConsiderPersists(t: Table, v: Row, now: int, m: Metrics, env: Env)
    ensures Persist(t.rows, Consider(t, v, now, m, env).0.rows)
  {
    if IsCanary(v.stage) {
      var rolled := RolledBackBy(t, v.version, Judge(m), env);
      SetStagePersists(t, v.version, RolledBack, "auto rollback: " + VerdictText(Judge(m)), env);
      var last := LastStable(rolled.rows, v.version);
      if last.Some? {
        SetStagePersists(rolled, last.value.version, Stable, "restore after rollback of " + v.version, env);
        PersistTwice(t.rows, rolled.rows, Restore(rolled, v.version, env).rows);
      }
      SetStagePersists(t, v.version, NextStage(v.stage), "auto promote", env);
      var moved := Promotion(t, v, m, env);
      SupersedePersists(moved, v.version);
      PersistTwice(t.rows, moved.rows, Supersede(moved, v.version).rows);
    }
  }

  lemma {:induction false} ConsiderAllPersists(t: Table, list: seq<Row>, now: int, metrics: string -> Metrics, env: Env)
    ensures Persist(t.rows, ConsiderAll(t, list, now, metrics, env).0.rows)
  {
    if list != [] {
      var front := list[..|list| - 1];
      var v := list[|list| - 1];
      ConsiderAllPersists(t, front, now, metrics, env);
      var t1 := ConsiderAll(t, front, now, metrics, env).0;
      ConsiderPersists(t1, v, now, metrics(v.version), env);
      PersistTwice(t.rows, t1.rows, ConsiderAll(t, list, now, metrics, env).0.rows);
    }
  }

  lemma {:induction false} RollBackAllPersists(t: Table, list: seq<Row>, reason: string, env: Env)
    ensures Persist(t.rows, RollBackAll(t, list, reason, env).rows)
  {
    if list != [] {
      RollBackAllPersists(t, list[..|list| - 1], reason, env);
      var t1 := RollBackAll(t, list[..|list| - 1], reason, env);
      SetStagePersists(t1, list[|list| - 1].version, RolledBack, "Operator pin override: " + reason, env);
      PersistTwice(t.rows, t1.rows, RollBackAll(t, list, reason, env).rows);
    }
  }

  lemma PinPersists(t: Table, version: string, reason: string, env: Env)
    requires Pin(t, version, reason, env).Some?
    ensures Persist(t.rows, Pin(t, version, reason, env).value.rows)
  {
    var t1 := RollBackAll(t, Listing(t.rows), reason, env);
    RollBackAllPersists(t, Listing(t.rows), reason, env);
    var t2 := SetStage(t1, version, Stable, "Operator pin: " + reason, env);
    SetStagePersists(t1, version, Stable, "Operator pin: " + reason, env);
    PersistTwice(t.rows, t1.rows, t2.rows);
    SupersedePersists(t1, version);
    SupersedePersists(t2, version);
    PersistTwice(t.rows, t1.rows, Supersede(t1, version).rows);
    PersistTwice(t.rows, t2.rows, Supersede(t2, version).rows);
  }

  lemma ApplyPersists(t: Table, op: Op, env: Env)
    ensures Persist(t.rows, Apply(t, op, env).rows)
  {
    match op
    case Publishing(r) =>
    case Evaluating(m) => ConsiderAllPersists(t.(ticks := t.ticks + 1), Listing(t.rows), env.tick(t.ticks).at, m, env);
    case Pinning(v, reason) => if Pin(t, v, reason, env).Some? { PinPersists(t, v, reason, env); }
  }

  /** URLs, digest, protocol floor and publication time never change, rows are never deleted, and notes only grow. */
  lemma {:induction false} ReleasesAreImmutable(ops: seq<Op>, i: nat, env: Env)
    requires i <= |ops|
    ensures Persist(After(ops[..i], env).rows, After(ops, env).rows)
    decreases |ops| - i
  {
    if i < |ops| {
      assert ops[..i + 1][..i] == ops[..i];
      ApplyPersists(After(ops[..i], env), ops[i], env);
      ReleasesAreImmutable(ops, i + 1, env);
      PersistTwice(After(ops[..i], env).rows, After(ops[..i + 1], env).rows, After(ops, env).rows);
    } else {
      assert ops[..i] == ops;
    }
  }

  /** Publishing the same release again is accepted exactly while the version has not changed stage since:
      a stage change appends to the notes, and the notes are compared. */
  lemma RepublishAccepted(ops: seq<Op>, env: Env, row: Row, r: Release)
    requires Increasing(env) && row in After(ops, env).rows
    requires Publishable(r) && r.version == row.version && Recorded(r) == row.artifact
    requires row.version in After(ops, env).history && After(ops, env).history[row.version] != []
    requires After(ops, env).history[row.version][0] == Published(row.publishedAt, r.notes)
    ensures Publish(After(ops, env), r, env).Some? <==> row.enteredAt == row.publishedAt
  {
    RunKeeps(ops, env);
    var t := After(ops, env);
    var i :| 0 <= i < |t.rows| && t.rows[i] == row;
    assert Journey(t.rows[i], t.history, t.passes, env.dwell);
    TheRow(t, row);
    var found := FindRow(t.rows, r.version);
    assert found.Some? && found.value in t.rows;
    var j :| 0 <= j < |t.rows| && t.rows[j] == found.value;
  }

  /** So the idempotence its documentation promises fails: publish a release, pin it, and publish it again. */
  lemma RepublishAfterPinRefused(r: Release, reason: string, env: Env)
    requires Increasing(env) && Publishable(r) && r.stage.Draft?
    ensures Publish(After([Publishing(r), Pinning(r.version, reason)], env), r, env).None?
  {
    var ops := [Publishing(r), Pinning(r.version, reason)];
    assert ops[..1] == [Publishing(r)] && ops[..1][..0] == [];
    var t1 := After(ops[..1], env);
    assert After([], env) == EMPTY_TABLE && FindRow([], r.version) == None;
    assert t1 == Apply(EMPTY_TABLE, Publishing(r), env);
    assert t1.rows == [Row(r.version, Draft, env.tick(0).at, env.tick(0).at, Recorded(r), r.notes)];
    assert t1.rows[1..] == [] && Listing([]) == [] && t1.rows[..0] == [];
    assert Listing(t1.rows) == t1.rows;
    assert RollBackAll(t1, Listing(t1.rows), reason, env) == t1;
    var moved := SetStage(t1, r.version, Stable, "Operator pin: " + reason, env);
    MovedNotes(t1.rows[0], Stable, env.tick(1), "Operator pin: " + reason, r.notes);
    assert After(ops, env).rows[0].notes == moved.rows[0].notes;
  }
}
