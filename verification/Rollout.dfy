/** Canary rollout of agent versions: publishing, evaluation passes, operator pins, and which tenant gets which version. */
module Rollout {
  import opened Options
  import opened Sorting
  import opened Text

  datatype Stage = Draft | Canary1 | Canary10 | Canary50 | Stable | RolledBack | Superseded

  /** One clock reading: the instant, and the text that is stored for it. */
  datatype Reading = Reading(at: int, text: string)

  datatype Artifact = Artifact(downloadUrl: string, sigUrl: string, sha256: string, minProtocol: int)

  datatype Row = Row(version: string, stage: Stage, publishedAt: int, enteredAt: int, artifact: Artifact, notes: string)

  const MIN_SAMPLES: nat := 20
  const MAX_ERROR_RATE_MULT: real := 5.0
  const MIN_CONNECT_SUCCESS: real := 0.95
  const MIN_TASK_SUCCESS: real := 0.90
  const MAX_UPGRADE_FAIL_RATE: real := 0.01
  const MIN_BASELINE: real := 0.000001

  function StageOrder(s: Stage): int
  {
    match s
    case Draft => 0 case Canary1 => 1 case Canary10 => 2 case Canary50 => 3 case Stable => 4
    case RolledBack => -1 case Superseded => -2
  }

  /** The share of the hundred buckets a stage reaches. */
  function CohortPct(s: Stage): int
  {
    match s case Canary1 => 1 case Canary10 => 10 case Canary50 => 50 case Stable => 100 case _ => 0
  }

  predicate IsCanary(s: Stage)
  {
    s.Canary1? || s.Canary10? || s.Canary50?
  }

  function NextStage(s: Stage): Stage
    requires IsCanary(s)
  {
    match s case Canary1 => Canary10 case Canary10 => Canary50 case Canary50 => Stable
  }

  // ---------- Which version a tenant runs ----------

  datatype Flag = NoFlag | OptIn | OptOut
  datatype Reason = StableFallback | CanaryMatch | OptedIn | OptedOut | NoVersion
  datatype Assignment = Assignment(version: Option<Row>, reason: Reason)

  predicate EnteredLater(a: Row, b: Row)
  {
    a.enteredAt > b.enteredAt
  }

  predicate HigherStage(a: Row, b: Row)
  {
    StageOrder(a.stage) > StageOrder(b.stage)
  }

  predicate LowerStage(a: Row, b: Row)
  {
    StageOrder(a.stage) < StageOrder(b.stage)
  }

  function Head(s: seq<Row>): Option<Row>
  {
    if s == [] then None else Some(s[0])
  }

  function Canaries(versions: seq<Row>): seq<Row>
  {
    Filter(versions, (v: Row) => IsCanary(v.stage))
  }

  function Stables(versions: seq<Row>): seq<Row>
  {
    Filter(versions, (v: Row) => v.stage.Stable?)
  }

  function NewestStable(versions: seq<Row>): Option<Row>
  {
    Head(Sort(Stables(versions), EnteredLater))
  }

  predicate IsLive(s: Stage)
  {
    IsCanary(s) || s.Stable?
  }

  predicate Matches(bucket: nat, v: Row)
  {
    IsCanary(v.stage) && bucket < CohortPct(v.stage)
  }

  lemma LiveRows(versions: seq<Row>)
    ensures Canaries(versions) == [] && Stables(versions) == [] <==> forall v :: v in versions ==> !IsLive(v.stage)
  {
    var (p, q) := ((v: Row) => IsCanary(v.stage), (v: Row) => v.stage.Stable?);
    forall v | v in versions && IsLive(v.stage)
      ensures v in Canaries(versions) || v in Stables(versions)
    {
      FilterMember(versions, p, v);
      FilterMember(versions, q, v);
    }
    if Canaries(versions) != [] { FilterMember(versions, p, Canaries(versions)[0]); }
    if Stables(versions) != [] { FilterMember(versions, q, Stables(versions)[0]); }
  }

  function SmallFirst(versions: seq<Row>): seq<Row>
  {
    Sort(Sort(Canaries(versions), HigherStage), LowerStage)
  }

  lemma SmallFirstMembers(versions: seq<Row>, v: Row)
    ensures v in SmallFirst(versions) <==> v in versions && IsCanary(v.stage)
  {
    var d := Sort(Canaries(versions), HigherStage);
    SortPermutes(d, LowerStage);
    SameMembers(SmallFirst(versions), d);
    SortPermutes(Canaries(versions), HigherStage);
    SameMembers(d, Canaries(versions));
    FilterMember(versions, (u: Row) => IsCanary(u.stage), v);
  }

  /** The ascending scan: the first canary whose cohort holds the bucket. */
  method ScanCanaries(bucket: nat, versions: seq<Row>) returns (found: Option<Row>)
    ensures found.Some? ==> FirstSmallest(versions, bucket, found.value)
    ensures found.None? ==> forall v :: v in versions ==> !Matches(bucket, v)
  {
    var c := SmallFirst(versions);
    var i := 0;
    while i < |c|
      invariant 0 <= i <= |c|
      invariant forall j :: 0 <= j < i ==> bucket >= CohortPct(c[j].stage)
    {
      if bucket < CohortPct(c[i].stage) {
        SmallestFirst(versions, bucket, i);
        return Some(c[i]);
      }
      i := i + 1;
    }
    forall v | v in versions
      ensures !Matches(bucket, v)
    {
      SmallFirstMembers(versions, v);
    }
    return None;
  }

  /** What `version_for` promises about its choice. */
  ghost predicate Chosen(bucket: nat, versions: seq<Row>, flag: Flag, a: Assignment)
  {
    match a.reason
    case NoVersion => a.version.None? && forall v :: v in versions ==> !IsLive(v.stage)
    case OptedOut => flag.OptOut? && a.version == NewestStable(versions)
    case OptedIn =>
      flag.OptIn? && (if Canaries(versions) == [] then a.version == NewestStable(versions)
                      else a.version.Some? && FirstHighest(versions, a.version.value))
    case CanaryMatch => flag.NoFlag? && a.version.Some? && FirstSmallest(versions, bucket, a.version.value)
    case StableFallback =>
      flag.NoFlag? && a.version == NewestStable(versions) && forall v :: v in versions ==> !Matches(bucket, v)
  }

  /** `version_for`, given the tenant's bucket: two stable sorts and a scan choose the smallest matching canary,
      first in input order among equals, and otherwise the newest stable. */
  method VersionFor(bucket: nat, versions: seq<Row>, flag: Flag) returns (a: Assignment)
    requires bucket < 100
    ensures Chosen(bucket, versions, flag, a)
    ensures a.reason.NoVersion? <==> forall v :: v in versions ==> !IsLive(v.stage)
  {
    LiveRows(versions);
    if Canaries(versions) == [] && Stables(versions) == [] { return Assignment(None, NoVersion); }
    var stable := NewestStable(versions);
    if flag.OptOut? { return Assignment(stable, OptedOut); }
    if flag.OptIn? {
      if Canaries(versions) == [] { return Assignment(stable, OptedIn); }
      HighestFirst(versions);
      return Assignment(Some(Sort(Canaries(versions), HigherStage)[0]), OptedIn);
    }
    var found := ScanCanaries(bucket, versions);
    if found.Some? { return Assignment(found, CanaryMatch); }
    return Assignment(stable, StableFallback);
  }

  /** `v` is the first of its stage in the list. */
  ghost predicate FirstOfStage(versions: seq<Row>, v: Row)
  {
    exists k :: 0 <= k < |versions| && versions[k] == v && forall j :: 0 <= j < k ==> versions[j].stage != v.stage
  }

  ghost predicate FirstHighest(versions: seq<Row>, v: Row)
  {
    && IsCanary(v.stage) && FirstOfStage(versions, v)
    && forall u :: u in versions && IsCanary(u.stage) ==> StageOrder(u.stage) <= StageOrder(v.stage)
  }

  ghost predicate FirstSmallest(versions: seq<Row>, bucket: nat, v: Row)
  {
    && Matches(bucket, v) && FirstOfStage(versions, v)
    && forall u :: u in versions && Matches(bucket, u) ==> StageOrder(v.stage) <= StageOrder(u.stage)
  }

  lemma {:induction false} SortTies(s: seq<Row>, less: (Row, Row) -> bool)
    requires forall x, y :: x in s && y in s ==> !less(x, y)
    ensures Sort(s, less) == s
  {
    if s != [] {
      SortTies(s[1..], less);
      assert s == [s[0]] + s[1..];
      if |s| > 1 { assert s[1] in s && s[0] in s; }
    }
  }

  /** Sorting by stage, either way, keeps the order of rows that share a stage. */
  lemma StageOrderStable(s: seq<Row>, less: (Row, Row) -> bool, stage: Stage)
    requires StrictWeak(less) && forall x: Row, y: Row :: x.stage == y.stage ==> !less(x, y)
    ensures Filter(Sort(s, less), (v: Row) => v.stage == stage) == Filter(s, (v: Row) => v.stage == stage)
  {
    var p := (v: Row) => v.stage == stage;
    SortFilter(s, less, p);
    forall x | x in Filter(s, p)
      ensures x.stage == stage
    {
      FilterMember(s, p, x);
    }
    SortTies(Filter(s, p), less);
  }

  lemma {:induction false} FilterOfCanaries(versions: seq<Row>, stage: Stage)
    requires IsCanary(stage)
    ensures Filter(Canaries(versions), (v: Row) => v.stage == stage) == Filter(versions, (v: Row) => v.stage == stage)
  {
    if versions != [] {
      FilterOfCanaries(versions[1..], stage);
      if IsCanary(versions[0].stage) { assert Canaries(versions)[1..] == Canaries(versions[1..]); }
    }
  }

  lemma {:induction false} FirstInFilter(s: seq<Row>, stage: Stage, k: nat)
    requires k < |s| && s[k].stage == stage && forall j :: 0 <= j < k ==> s[j].stage != stage
    ensures var f := Filter(s, (v: Row) => v.stage == stage); f != [] && f[0] == s[k]
  {
    if k > 0 { FirstInFilter(s[1..], stage, k - 1); }
  }

  lemma FirstOfStageFromFilter(versions: seq<Row>, v: Row)
    requires var f := Filter(versions, (u: Row) => u.stage == v.stage); f != [] && f[0] == v
    ensures FirstOfStage(versions, v)
  {
    var k := FilterHead(versions, (u: Row) => u.stage == v.stage);
  }

  lemma StagesStrictWeak()
    ensures StrictWeak(LowerStage) && StrictWeak(HigherStage) && StrictWeak(EnteredLater)
  {
  }

  lemma HighestFirst(versions: seq<Row>)
    requires Canaries(versions) != []
    ensures var c := Sort(Canaries(versions), HigherStage); c != [] && FirstHighest(versions, c[0])
  {
    var c := Sort(Canaries(versions), HigherStage);
    StagesStrictWeak();
    SortSorted(Canaries(versions), HigherStage);
    SortPermutes(Canaries(versions), HigherStage);
    SameMembers(c, Canaries(versions));
    assert c[0] in c;
    FilterMember(versions, (v: Row) => IsCanary(v.stage), c[0]);
    StageOrderStable(Canaries(versions), HigherStage, c[0].stage);
    FilterOfCanaries(versions, c[0].stage);
    FirstInFilter(c, c[0].stage, 0);
    FirstOfStageFromFilter(versions, c[0]);
    forall u | u in versions && IsCanary(u.stage)
      ensures StageOrder(u.stage) <= StageOrder(c[0].stage)
    {
      FilterMember(versions, (v: Row) => IsCanary(v.stage), u);
      assert u in c;
      var j :| 0 <= j < |c| && c[j] == u;
      assert j == 0 || !HigherStage(c[j], c[0]);
    }
  }

  /** The first match of the ascending scan. */
  lemma SmallestFirst(versions: seq<Row>, bucket: nat, i: nat)
    requires i < |SmallFirst(versions)| && bucket < CohortPct(SmallFirst(versions)[i].stage)
    requires forall j :: 0 <= j < i ==> bucket >= CohortPct(SmallFirst(versions)[j].stage)
    ensures FirstSmallest(versions, bucket, SmallFirst(versions)[i])
  {
    var d := Sort(Canaries(versions), HigherStage);
    var c := SmallFirst(versions);
    var v := c[i];
    StagesStrictWeak();
    SortSorted(d, LowerStage);
    assert v in c;
    SmallFirstMembers(versions, v);
    StageOrderStable(Canaries(versions), HigherStage, v.stage);
    StageOrderStable(d, LowerStage, v.stage);
    FilterOfCanaries(versions, v.stage);
    FirstInFilter(c, v.stage, i);
    FirstOfStageFromFilter(versions, v);
    forall u | u in versions && Matches(bucket, u)
      ensures StageOrder(v.stage) <= StageOrder(u.stage)
    {
      SmallFirstMembers(versions, u);
      var j :| 0 <= j < |c| && c[j] == u;
      assert j >= i;
      assert j == i || !LowerStage(c[j], c[i]);
    }
  }

  lemma NewestStableIsNewest(versions: seq<Row>)
    ensures NewestStable(versions).None? <==> forall v :: v in versions ==> !v.stage.Stable?
    ensures NewestStable(versions).Some? ==>
      && NewestStable(versions).value in versions && NewestStable(versions).value.stage.Stable?
      && forall v :: v in versions && v.stage.Stable? ==> v.enteredAt <= NewestStable(versions).value.enteredAt
  {
    var p := (v: Row) => v.stage.Stable?;
    var s := Sort(Stables(versions), EnteredLater);
    StagesStrictWeak();
    SortSorted(Stables(versions), EnteredLater);
    SortPermutes(Stables(versions), EnteredLater);
    SameMembers(s, Stables(versions));
    forall v
      ensures v in s <==> v in versions && v.stage.Stable?
    {
      FilterMember(versions, p, v);
    }
    if s != [] {
      assert s[0] in s;
      forall v | v in s
        ensures v.enteredAt <= s[0].enteredAt
      {
        var j :| 0 <= j < |s| && s[j] == v;
        assert j == 0 || !EnteredLater(s[j], s[0]);
      }
    }
  }

  /** With one live canary, an unflagged tenant gets it exactly when its bucket is below the stage's percentage. */
  lemma OneCanaryReach(bucket: nat, versions: seq<Row>, c: Row, a: Assignment)
    requires c in versions && IsCanary(c.stage) && (forall v :: v in versions && IsCanary(v.stage) ==> v == c)
    requires Chosen(bucket, versions, NoFlag, a)
    ensures a.version == Some(c) <==> bucket < (if c.stage == Canary1 then 1 else if c.stage == Canary10 then 10 else 50)
  {
    NewestStableIsNewest(versions);
    assert Matches(bucket, c) <==> bucket < CohortPct(c.stage);
    assert IsLive(c.stage);
  }
}
