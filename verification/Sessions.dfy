/** The session registry: creation within two capacity limits, heartbeats, termination and expiry, each one transaction. */
module Sessions {
  import opened Options
  import opened Text
  import Timestamps

  datatype Status = Active | Expired | Terminated
  datatype Kind = Interactive | Batch | Review

  datatype Session = Session(
    id: string, user: string, kind: Kind, status: Status, created: string, lastHeartbeat: string,
    ended: Option<(string, string)>)   // reason and time of termination

  datatype Limits = Limits(global: nat, perUser: nat)

  /** One transaction. A create call runs two: the expiry of stale sessions, then the insertion. */
  datatype Op =
    | ExpireStale(cutoff: string)
    | Insert(id: string, user: string, kind: Kind, now: string)
    | Beat(id: string, user: string, now: string)
    | Terminate(id: string, user: string, reason: string, now: string)

  predicate IsActive(s: Session)
  {
    s.status.Active?
  }

  predicate ActiveOf(s: Session, user: string)
  {
    s.status.Active? && s.user == user
  }

  function CountActive(rows: seq<Session>): nat
  {
    if rows == [] then 0 else CountActive(rows[..|rows| - 1]) + if IsActive(rows[|rows| - 1]) then 1 else 0
  }

  function CountActiveOf(rows: seq<Session>, user: string): nat
  {
    if rows == [] then 0 else CountActiveOf(rows[..|rows| - 1], user) + if ActiveOf(rows[|rows| - 1], user) then 1 else 0
  }

  predicate HasId(rows: seq<Session>, id: string)
  {
    exists i :: 0 <= i < |rows| && rows[i].id == id
  }

  function ExpiredBy(s: Session, cutoff: string): Session
  {
    if s.status.Active? && LexLessEq(s.lastHeartbeat, cutoff) then s.(status := Expired) else s
  }

  function BeatenBy(s: Session, id: string, user: string, now: string): Session
  {
    if s.id == id && s.user == user && s.status.Active? then s.(lastHeartbeat := now) else s
  }

  /** Termination does not ask whether the session was still active. */
  function TerminatedBy(s: Session, id: string, user: string, reason: string, now: string): Session
  {
    if s.id == id && s.user == user
    then s.(status := Terminated, ended := Some((if reason == "" then "user_request" else reason, now)))
    else s
  }

  /** Both limits leave room, the user is named and the identifier is new. */
  predicate MayCreate(rows: seq<Session>, id: string, user: string, limits: Limits)
  {
    user != "" && CountActiveOf(rows, user) < limits.perUser && CountActive(rows) < limits.global && !HasId(rows, id)
  }

  function Apply(rows: seq<Session>, op: Op, limits: Limits): seq<Session>
  {
    match op
    case ExpireStale(cutoff) => seq(|rows|, i requires 0 <= i < |rows| => ExpiredBy(rows[i], cutoff))
    case Insert(id, user, kind, now) =>
      if MayCreate(rows, id, user, limits) then rows + [Session(id, user, kind, Active, now, now, None)] else rows
    case Beat(id, user, now) => seq(|rows|, i requires 0 <= i < |rows| => BeatenBy(rows[i], id, user, now))
    case Terminate(id, user, reason, now) =>
      seq(|rows|, i requires 0 <= i < |rows| => TerminatedBy(rows[i], id, user, reason, now))
  }

  function After(ops: seq<Op>, limits: Limits): seq<Session>
  {
    if ops == [] then [] else Apply(After(ops[..|ops| - 1], limits), ops[|ops| - 1], limits)
  }

  datatype Created = Created | NoUser | UserLimit | GlobalLimit | DuplicateId

  // ---------- What the transactions do, row by row ----------

  /** Exactly the active sessions last heard of at the cutoff or before are expired. */
  ghost predicate StaleExpired(rows: seq<Session>, rows': seq<Session>, cutoff: string)
  {
    && |rows'| == |rows|
    && forall i :: 0 <= i < |rows| ==>
         var s := rows[i];
         if s.status == Active && (s.lastHeartbeat == cutoff || LexLess(s.lastHeartbeat, cutoff))
         then rows'[i] == Session(s.id, s.user, s.kind, Expired, s.created, s.lastHeartbeat, s.ended)
         else rows'[i] == s
  }

  /** Exactly the user's own active session of that id is refreshed. */
  ghost predicate Refreshed(rows: seq<Session>, rows': seq<Session>, id: string, user: string, now: string)
  {
    && |rows'| == |rows|
    && forall i :: 0 <= i < |rows| ==>
         var s := rows[i];
         if s.id == id && s.user == user && s.status == Active
         then rows'[i] == Session(s.id, s.user, s.kind, Active, s.created, now, s.ended)
         else rows'[i] == s
  }

  /** Exactly the user's own session of that id is ended, whatever its status, with a reason and a time. */
  ghost predicate Ended(rows: seq<Session>, rows': seq<Session>, id: string, user: string, reason: string, now: string)
  {
    && |rows'| == |rows|
    && forall i :: 0 <= i < |rows| ==>
         var s := rows[i];
         if s.id == id && s.user == user
         then rows'[i] == Session(s.id, s.user, s.kind, Terminated, s.created, s.lastHeartbeat,
                                  Some((if reason == "" then "user_request" else reason, now)))
         else rows'[i] == s
  }

  /** The positions of the active sessions, of one user or of all. */
  function ActiveRows(rows: seq<Session>): set<int>
  {
    set i | 0 <= i < |rows| && rows[i].status == Active
  }

  function ActiveRowsOf(rows: seq<Session>, user: string): set<int>
  {
    set i | 0 <= i < |rows| && rows[i].status == Active && rows[i].user == user
  }

  /** There is room for one more under both limits, the user is named, and no session has the id. */
  predicate HasRoom(rows: seq<Session>, id: string, user: string, limits: Limits)
  {
    && user != "" && |ActiveRowsOf(rows, user)| < limits.perUser && |ActiveRows(rows)| < limits.global
    && forall i :: 0 <= i < |rows| ==> rows[i].id != id
  }

  lemma OneMoreRow(rows: seq<Session>, s: Session, user: string)
    ensures |ActiveRows(rows + [s])| == |ActiveRows(rows)| + if s.status == Active then 1 else 0
    ensures |ActiveRowsOf(rows + [s], user)| == |ActiveRowsOf(rows, user)| + if s.status == Active && s.user == user then 1 else 0
  {
    assert ActiveRows(rows + [s]) == ActiveRows(rows) + if s.status == Active then {|rows|} else {};
    assert ActiveRowsOf(rows + [s], user) == ActiveRowsOf(rows, user) + if s.status == Active && s.user == user then {|rows|} else {};
  }

  lemma {:induction false} CountsAre(rows: seq<Session>, user: string)
    ensures CountActive(rows) == |ActiveRows(rows)| && CountActiveOf(rows, user) == |ActiveRowsOf(rows, user)|
  {
    if rows == [] {
      assert ActiveRows(rows) == {} && ActiveRowsOf(rows, user) == {};
    } else {
      var n := |rows| - 1;
      CountsAre(rows[..n], user);
      assert rows == rows[..n] + [rows[n]];
      OneMoreRow(rows[..n], rows[n], user);
    }
  }

  /** What each transaction does, and when a creation succeeds. */
  lemma TransactionsAre(rows: seq<Session>, op: Op, limits: Limits)
    ensures op.ExpireStale? ==> StaleExpired(rows, Apply(rows, op, limits), op.cutoff)
    ensures op.Beat? ==> Refreshed(rows, Apply(rows, op, limits), op.id, op.user, op.now)
    ensures op.Terminate? ==> Ended(rows, Apply(rows, op, limits), op.id, op.user, op.reason, op.now)
    ensures op.Insert? && HasRoom(rows, op.id, op.user, limits) ==>
      Apply(rows, op, limits) == rows + [Session(op.id, op.user, op.kind, Active, op.now, op.now, None)]
    ensures op.Insert? && !HasRoom(rows, op.id, op.user, limits) ==> Apply(rows, op, limits) == rows
  {
    if op.Insert? { CountsAre(rows, op.user); }
  }

  /** Written as texts, the times compare by whole seconds. */
  lemma SilenceIsByTime(rows: seq<Session>, rows': seq<Session>, i: nat, beat: Timestamps.DateTime, cutoff: Timestamps.DateTime)
    requires i < |rows| && Timestamps.Valid(beat) && Timestamps.Valid(cutoff)
    requires rows[i].lastHeartbeat == Timestamps.SessionText(beat) && StaleExpired(rows, rows', Timestamps.SessionText(cutoff))
    ensures rows'[i].status == if rows[i].status == Active && Timestamps.Second(beat) <= Timestamps.Second(cutoff) then Expired else rows[i].status
  {
    Timestamps.SessionTextOrder(beat, cutoff);
    Timestamps.SessionTextOrder(cutoff, beat);
    LexTotal(Timestamps.SessionText(beat), Timestamps.SessionText(cutoff));
    LexIrreflexive(Timestamps.SessionText(beat));
    if LexLess(Timestamps.SessionText(beat), Timestamps.SessionText(cutoff)) && LexLess(Timestamps.SessionText(cutoff), Timestamps.SessionText(beat)) {
      LexTransitive(Timestamps.SessionText(beat), Timestamps.SessionText(cutoff), Timestamps.SessionText(beat));
    }
  }

  class SessionManager {
    var rows: seq<Session>
    const limits: Limits

    constructor (limits: Limits)
      requires limits.global > 0 && limits.perUser > 0
      ensures rows == [] && this.limits == limits
    {
      rows, this.limits := [], limits;
    }

    method ExpireStaleSessions(cutoff: string) returns (ids: seq<string>)
      modifies this`rows
      ensures rows == Apply(old(rows), ExpireStale(cutoff), limits) && StaleExpired(old(rows), rows, cutoff)
      ensures forall id :: id in ids <==> exists i :: 0 <= i < |rows| && old(rows)[i].id == id && rows[i] != old(rows)[i]
    {
      ids := [];
      var i := 0;
      while i < |rows|
        invariant 0 <= i <= |rows| == |old(rows)|
        invariant forall j :: 0 <= j < |rows| ==> rows[j] == if j < i then ExpiredBy(old(rows)[j], cutoff) else old(rows)[j]
        invariant forall id :: id in ids <==> exists j :: 0 <= j < i && old(rows)[j].id == id && rows[j] != old(rows)[j]
      {
        var s := rows[i];
        if s.status.Active? && LexLessEq(s.lastHeartbeat, cutoff) {
          ids := ids + [s.id];
          rows := rows[i := s.(status := Expired)];
        }
        i := i + 1;
      }
    }

    method CountRows(user: Option<string>) returns (n: nat)
      ensures n == match user case None => CountActive(rows) case Some(u) => CountActiveOf(rows, u)
    {
      n := 0;
      var i := 0;
      while i < |rows|
        invariant 0 <= i <= |rows|
        invariant n == match user case None => CountActive(rows[..i]) case Some(u) => CountActiveOf(rows[..i], u)
      {
        assert rows[..i + 1][..i] == rows[..i];
        if IsActive(rows[i]) && (user.None? || rows[i].user == user.value) { n := n + 1; }
        i := i + 1;
      }
      assert rows[..i] == rows;
    }

    /** `create_session`, after its expiry transaction. */
    method CreateSession(id: string, user: string, kind: Kind, now: string) returns (outcome: Created)
      modifies this`rows
      ensures rows == Apply(old(rows), Insert(id, user, kind, now), limits)
      ensures outcome.Created? <==> HasRoom(old(rows), id, user, limits)
      ensures rows == if outcome.Created? then old(rows) + [Session(id, user, kind, Active, now, now, None)] else old(rows)
      ensures outcome.UserLimit? ==> CountActiveOf(old(rows), user) >= limits.perUser
      ensures outcome.GlobalLimit? ==> CountActiveOf(old(rows), user) < limits.perUser && CountActive(old(rows)) >= limits.global
    {
      CountsAre(rows, user);
      if user == "" { return NoUser; }
      var mine := CountRows(Some(user));
      if mine >= limits.perUser { return UserLimit; }
      var all := CountRows(None);
      if all >= limits.global { return GlobalLimit; }
      if HasId(rows, id) { return DuplicateId; }
      rows := rows + [Session(id, user, kind, Active, now, now, None)];
      return Created;
    }

    method Heartbeat(id: string, user: string, now: string) returns (found: bool)
      modifies this`rows
      ensures rows == Apply(old(rows), Beat(id, user, now), limits) && Refreshed(old(rows), rows, id, user, now)
      ensures found <==> exists i :: 0 <= i < |rows| && old(rows)[i].id == id && ActiveOf(old(rows)[i], user)
    {
      found := false;
      var i := 0;
      while i < |rows|
        invariant 0 <= i <= |rows| == |old(rows)|
        invariant forall j :: 0 <= j < |rows| ==> rows[j] == if j < i then BeatenBy(old(rows)[j], id, user, now) else old(rows)[j]
        invariant found <==> exists j :: 0 <= j < i && old(rows)[j].id == id && ActiveOf(old(rows)[j], user)
      {
        if rows[i].id == id && ActiveOf(rows[i], user) {
          rows := rows[i := rows[i].(lastHeartbeat := now)];
          found := true;
        }
        i := i + 1;
      }
    }

    method TerminateSession(id: string, user: string, reason: string, now: string) returns (found: bool)
      modifies this`rows
      ensures rows == Apply(old(rows), Terminate(id, user, reason, now), limits) && Ended(old(rows), rows, id, user, reason, now)
      ensures found <==> exists i :: 0 <= i < |rows| && old(rows)[i].id == id && old(rows)[i].user == user
    {
      found := false;
      var i := 0;
      while i < |rows|
        invariant 0 <= i <= |rows| == |old(rows)|
        invariant forall j :: 0 <= j < |rows| ==>
          rows[j] == if j < i then TerminatedBy(old(rows)[j], id, user, reason, now) else old(rows)[j]
        invariant found <==> exists j :: 0 <= j < i && old(rows)[j].id == id && old(rows)[j].user == user
      {
        if rows[i].id == id && rows[i].user == user {
          rows := rows[i := TerminatedBy(rows[i], id, user, reason, now)];
          found := true;
        }
        i := i + 1;
      }
    }
  }

  // ---------- Every interleaving ----------

  /** Rows are only added; a row keeps its identity and user, and none becomes active that was not. */
  predicate Ages(s: Session, s': Session)
  {
    s'.id == s.id && s'.user == s.user && (IsActive(s') ==> IsActive(s))
  }

  ghost predicate AllAge(rows: seq<Session>, rows': seq<Session>)
  {
    |rows| <= |rows'| && forall i :: 0 <= i < |rows| ==> Ages(rows[i], rows'[i])
  }

  lemma ApplyAges(rows: seq<Session>, op: Op, limits: Limits)
    ensures AllAge(rows, Apply(rows, op, limits))
  {
  }

  lemma {:induction false} CountsFall(rows: seq<Session>, rows': seq<Session>, user: string)
    requires |rows| == |rows'| && AllAge(rows, rows')
    ensures CountActive(rows') <= CountActive(rows) && CountActiveOf(rows', user) <= CountActiveOf(rows, user)
  {
    if rows != [] {
      var n := |rows| - 1;
      assert Ages(rows[n], rows'[n]);
      forall i | 0 <= i < n
        ensures Ages(rows[..n][i], rows'[..n][i])
      {
        assert Ages(rows[i], rows'[i]);
      }
      CountsFall(rows[..n], rows'[..n], user);
    }
  }

  ghost predicate WithinLimits(rows: seq<Session>, limits: Limits)
  {
    CountActive(rows) <= limits.global && forall user :: CountActiveOf(rows, user) <= limits.perUser
  }

  lemma ApplyWithinLimits(rows: seq<Session>, op: Op, limits: Limits)
    requires WithinLimits(rows, limits)
    ensures WithinLimits(Apply(rows, op, limits), limits)
  {
    var rows' := Apply(rows, op, limits);
    ApplyAges(rows, op, limits);
    if |rows'| > |rows| {
      assert rows'[..|rows|] == rows;
      forall user
        ensures CountActiveOf(rows', user) <= limits.perUser
      {
        assert CountActiveOf(rows', user) == CountActiveOf(rows, user) + if ActiveOf(rows'[|rows|], user) then 1 else 0;
      }
    } else {
      CountsFall(rows, rows', "");
      forall user
        ensures CountActiveOf(rows', user) <= limits.perUser
      {
        CountsFall(rows, rows', user);
      }
    }
  }

  /** In every interleaving of transactions, neither limit is ever exceeded. */
  lemma {:induction false} LimitsHold(ops: seq<Op>, limits: Limits)
    ensures WithinLimits(After(ops, limits), limits)
  {
    if ops != [] {
      LimitsHold(ops[..|ops| - 1], limits);
      ApplyWithinLimits(After(ops[..|ops| - 1], limits), ops[|ops| - 1], limits);
    }
  }

  ghost predicate UniqueIds(rows: seq<Session>)
  {
    forall i, j :: 0 <= i < j < |rows| ==> rows[i].id != rows[j].id
  }

  lemma {:induction false} IdsUnique(ops: seq<Op>, limits: Limits)
    ensures UniqueIds(After(ops, limits))
  {
    if ops != [] {
      IdsUnique(ops[..|ops| - 1], limits);
      ApplyAges(After(ops[..|ops| - 1], limits), ops[|ops| - 1], limits);
    }
  }

  lemma {:induction false} RunAges(ops: seq<Op>, i: nat, limits: Limits)
    requires i <= |ops|
    ensures AllAge(After(ops[..i], limits), After(ops, limits))
    decreases |ops| - i
  {
    if i < |ops| {
      var (a, b, c) := (After(ops[..i], limits), After(ops[..i + 1], limits), After(ops, limits));
      assert ops[..i + 1][..i] == ops[..i];
      ApplyAges(a, ops[i], limits);
      RunAges(ops, i + 1, limits);
      forall k | 0 <= k < |a|
        ensures Ages(a[k], c[k])
      {
        assert Ages(a[k], b[k]) && Ages(b[k], c[k]);
      }
    } else {
      assert ops[..i] == ops;
    }
  }

  /** A session that stopped being active never becomes active again, whatever happens later. */
  lemma NeverReactivated(ops: seq<Op>, i: nat, limits: Limits, s: Session, s': Session)
    requires i <= |ops| && s in After(ops[..i], limits) && s' in After(ops, limits) && s.id == s'.id && !IsActive(s)
    ensures !IsActive(s')
  {
    RunAges(ops, i, limits);
    IdsUnique(ops, limits);
    var (a, c) := (After(ops[..i], limits), After(ops, limits));
    var k :| 0 <= k < |a| && a[k] == s;
    var m :| 0 <= m < |c| && c[m] == s';
    assert Ages(a[k], c[k]) && k == m;
  }
}
