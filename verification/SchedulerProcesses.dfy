/** Scheduler commands run by many processes at once: lock, read, change, write aside, replace, release --
    with a crash possible between any two steps. The state file is only ever replaced whole. */
module SchedulerProcesses {
  import opened Options
  import opened Scheduler
  import opened SchedulerLaws

  /** A temporary file: partly written, or holding the whole of a state. */
  datatype Temp = Torn | Whole(state: State)

  /** How far a process has got with the call it was given under `serial`. */
  datatype Phase =
    | Idle
    | Waiting(serial: nat, call: Call)
    | Holding(serial: nat, call: Call)
    | Loaded(serial: nat, call: Call, snapshot: State)
    | Writing(serial: nat, call: Call, result: State, temp: nat)
    | Committed(serial: nat)
    | Failing(serial: nat)

  datatype Entry = Entry(serial: nat, call: Call)

  datatype World = World(
    file: Option<State>,
    temps: map<nat, Temp>,
    owner: Option<nat>,
    phases: map<nat, Phase>,
    nextTemp: nat,
    nextSerial: nat,
    log: seq<Entry>,              // history: the calls that replaced the file, in that order
    reports: map<nat, bool>)      // history: what each finished call told its caller

  datatype Op =
    | Request(p: nat, call: Call)
    | Acquire(p: nat)
    | TimeOut(p: nat)
    | Load(p: nat)
    | Refuse(p: nat)
    | OpenTemp(p: nat)
    | FillTemp(p: nat)
    | Replace(p: nat)
    | GiveUp(p: nat, unlinked: bool)
    | Release(p: nat)
    | Crash(p: nat)

  function PhaseOf(w: World, p: nat): Phase
  {
    if p in w.phases then w.phases[p] else Idle
  }

  /** What a read of the state file gives; a missing file reads as the default state. */
  function Current(w: World): State
  {
    match w.file case Some(s) => s case None => DEFAULT_STATE
  }

  predicate Enabled(w: World, op: Op)
  {
    var phase := PhaseOf(w, op.p);
    match op
    case Request(_, _) => phase.Idle?
    case Acquire(_) => phase.Waiting? && w.owner.None?
    case TimeOut(_) => phase.Waiting?
    case Load(_) => phase.Holding?
    case Refuse(_) => phase.Loaded? && Exec(phase.snapshot, phase.call).None?
    case OpenTemp(_) => phase.Loaded? && Exec(phase.snapshot, phase.call).Some?
    case FillTemp(_) => phase.Writing?
    case Replace(_) => phase.Writing? && phase.temp in w.temps && w.temps[phase.temp].Whole?
    case GiveUp(_, _) => phase.Writing?
    case Release(_) => phase.Committed? || phase.Failing?
    case Crash(_) => true
  }

  function Apply(w: World, op: Op): World
    requires Enabled(w, op)
  {
    var p := op.p;
    var phase := PhaseOf(w, p);
    match op
    case Request(_, call) => w.(phases := w.phases[p := Waiting(w.nextSerial, call)], nextSerial := w.nextSerial + 1)
    case Acquire(_) => w.(phases := w.phases[p := Holding(phase.serial, phase.call)], owner := Some(p))
    case TimeOut(_) => w.(phases := w.phases[p := Idle], reports := w.reports[phase.serial := false])
    case Load(_) => w.(phases := w.phases[p := Loaded(phase.serial, phase.call, Current(w))])
    case Refuse(_) => w.(phases := w.phases[p := Failing(phase.serial)])
    case OpenTemp(_) =>
      w.(phases := w.phases[p := Writing(phase.serial, phase.call, Exec(phase.snapshot, phase.call).value, w.nextTemp)],
         temps := w.temps[w.nextTemp := Torn], nextTemp := w.nextTemp + 1)
    case FillTemp(_) => w.(temps := w.temps[phase.temp := Whole(phase.result)])
    case Replace(_) =>
      w.(file := Some(w.temps[phase.temp].state), temps := w.temps - {phase.temp},
         phases := w.phases[p := Committed(phase.serial)], log := w.log + [Entry(phase.serial, phase.call)])
    case GiveUp(_, unlinked) =>
      w.(temps := if unlinked then w.temps - {phase.temp} else w.temps, phases := w.phases[p := Failing(phase.serial)])
    case Release(_) =>
      w.(phases := w.phases[p := Idle], owner := None, reports := w.reports[phase.serial := phase.Committed?])
    case Crash(_) => w.(phases := w.phases[p := Idle], owner := if w.owner == Some(p) then None else w.owner)
  }

  predicate Init(w: World)
  {
    w == World(None, map[], None, map[], 0, 0, [], map[])
  }

  ghost predicate Run(worlds: seq<World>, ops: seq<Op>)
  {
    && |worlds| == |ops| + 1
    && Init(worlds[0])
    && forall i :: 0 <= i < |ops| ==> Enabled(worlds[i], ops[i]) && worlds[i + 1] == Apply(worlds[i], ops[i])
  }

  // ---------- One at a time ----------

  predicate Inside(phase: Phase)
  {
    !phase.Idle? && !phase.Waiting?
  }

  /** Past the lock is exactly one process: the owner. */
  ghost predicate Exclusive(w: World)
  {
    forall p: nat :: Inside(PhaseOf(w, p)) <==> w.owner == Some(p)
  }

  /** What a process past the lock knows is still what the file holds. */
  predicate Informed(w: World, p: nat)
  {
    match PhaseOf(w, p)
    case Loaded(_, _, snapshot) => snapshot == Current(w)
    case Writing(_, call, result, temp) =>
      && Exec(Current(w), call) == Some(result)
      && temp < w.nextTemp
      && (temp in w.temps ==> w.temps[temp] == Torn || w.temps[temp] == Whole(result))
    case _ => true
  }

  function Calls(log: seq<Entry>): seq<Call>
  {
    seq(|log|, i requires 0 <= i < |log| => log[i].call)
  }

  /** The calls run one after another, each to a successful end; nothing if one of them would have failed. */
  function InTurn(calls: seq<Call>): Option<State>
  {
    if calls == [] then Some(DEFAULT_STATE)
    else match InTurn(calls[..|calls| - 1]) case None => None case Some(s) => Exec(s, calls[|calls| - 1])
  }

  ghost predicate Serial(w: World)
  {
    && Exclusive(w)
    && (forall p :: Informed(w, p))
    && InTurn(Calls(w.log)) == Some(Current(w))
  }

  lemma ExclusiveStep(w: World, op: Op)
    requires Exclusive(w) && Enabled(w, op)
    ensures Exclusive(Apply(w, op))
  {
    var w' := Apply(w, op);
    assert Inside(PhaseOf(w, op.p)) <==> w.owner == Some(op.p);
    forall p
      ensures Inside(PhaseOf(w', p)) <==> w'.owner == Some(p)
    {
      assert p != op.p ==> PhaseOf(w', p) == PhaseOf(w, p);
      assert Inside(PhaseOf(w, p)) <==> w.owner == Some(p);
    }
  }

  lemma InformedStep(w: World, op: Op, p: nat)
    requires Exclusive(w) && Informed(w, p) && Informed(w, op.p) && Enabled(w, op)
    ensures Informed(Apply(w, op), p)
  {
    var w' := Apply(w, op);
    assert p != op.p ==> PhaseOf(w', p) == PhaseOf(w, p);
    assert Inside(PhaseOf(w, p)) <==> w.owner == Some(p);
    assert Inside(PhaseOf(w, op.p)) <==> w.owner == Some(op.p);
  }

  /** Replacing the file appends its call to the serial order; no other step touches either. */
  lemma SerialStep(w: World, op: Op)
    requires Serial(w) && Enabled(w, op)
    ensures Serial(Apply(w, op))
  {
    var w' := Apply(w, op);
    ExclusiveStep(w, op);
    assert Informed(w, op.p);
    forall p
      ensures Informed(w', p)
    {
      assert Informed(w, p);
      InformedStep(w, op, p);
    }
    if op.Replace? {
      var calls := Calls(w'.log);
      assert calls[..|calls| - 1] == Calls(w.log);
    }
  }

  // ---------- Each call once ----------

  predicate Logged(w: World, serial: nat)
  {
    exists i :: 0 <= i < |w.log| && w.log[i].serial == serial
  }

  /** A call in progress is the only one under its serial, unreported, and logged exactly when it has committed. */
  predicate GoodPhase(w: World, p: nat)
  {
    var phase := PhaseOf(w, p);
    phase.Idle? || (
      && phase.serial < w.nextSerial
      && phase.serial !in w.reports
      && (phase.Committed? <==> Logged(w, phase.serial)))
  }

  ghost predicate Once(w: World)
  {
    && (forall p :: GoodPhase(w, p))
    && (forall p, q :: !PhaseOf(w, p).Idle? && !PhaseOf(w, q).Idle? && PhaseOf(w, p).serial == PhaseOf(w, q).serial ==> p == q)
    && (forall i :: 0 <= i < |w.log| ==> w.log[i].serial < w.nextSerial)
    && (forall i, j :: 0 <= i < j < |w.log| ==> w.log[i].serial != w.log[j].serial)
    && (forall n :: n in w.reports ==> n < w.nextSerial && (w.reports[n] <==> Logged(w, n)))
  }

  lemma LoggedStep(w: World, op: Op, n: nat)
    requires Enabled(w, op)
    ensures Logged(Apply(w, op), n) <==> Logged(w, n) || (op.Replace? && PhaseOf(w, op.p).serial == n)
  {
    var w' := Apply(w, op);
    if Logged(w, n) {
      var i :| 0 <= i < |w.log| && w.log[i].serial == n;
      assert w'.log[i].serial == n;
    }
    if op.Replace? { assert w'.log[|w.log|].serial == PhaseOf(w, op.p).serial; }
  }

  lemma GoodPhaseStep(w: World, op: Op, p: nat)
    requires Once(w) && Enabled(w, op)
    ensures GoodPhase(Apply(w, op), p)
  {
    var w' := Apply(w, op);
    var phase := PhaseOf(w', p);
    assert GoodPhase(w, p) && GoodPhase(w, op.p);
    if !phase.Idle? { LoggedStep(w, op, phase.serial); }
    assert p != op.p ==> phase == PhaseOf(w, p);
  }

  lemma ReportStep(w: World, op: Op, n: nat)
    requires Once(w) && Enabled(w, op) && n in Apply(w, op).reports
    ensures n < Apply(w, op).nextSerial && (Apply(w, op).reports[n] <==> Logged(Apply(w, op), n))
  {
    LoggedStep(w, op, n);
    assert GoodPhase(w, op.p);
  }

  lemma OnceStep(w: World, op: Op)
    requires Once(w) && Enabled(w, op)
    ensures Once(Apply(w, op))
  {
    var w' := Apply(w, op);
    forall p
      ensures GoodPhase(w', p)
    {
      GoodPhaseStep(w, op, p);
    }
    forall n | n in w'.reports
      ensures n < w'.nextSerial && (w'.reports[n] <==> Logged(w', n))
    {
      ReportStep(w, op, n);
    }
    assert GoodPhase(w, op.p);
    forall p, q | !PhaseOf(w', p).Idle? && !PhaseOf(w', q).Idle? && PhaseOf(w', p).serial == PhaseOf(w', q).serial
      ensures p == q
    {
      assert GoodPhase(w, p) && GoodPhase(w, q);
      assert p != op.p ==> PhaseOf(w', p) == PhaseOf(w, p);
      assert q != op.p ==> PhaseOf(w', q) == PhaseOf(w, q);
    }
  }

  // ---------- What every run promises ----------

  lemma InitKeeps(w: World)
    requires Init(w)
    ensures Serial(w) && Once(w)
  {
    forall p
      ensures GoodPhase(w, p) && Informed(w, p) && !Inside(PhaseOf(w, p))
    {
      assert PhaseOf(w, p).Idle?;
    }
  }

  lemma {:induction false} RunKeeps(worlds: seq<World>, ops: seq<Op>, k: nat)
    requires Run(worlds, ops) && k < |worlds|
    ensures Serial(worlds[k]) && Once(worlds[k])
  {
    if k == 0 {
      InitKeeps(worlds[0]);
    } else {
      RunKeeps(worlds, ops, k - 1);
      SerialStep(worlds[k - 1], ops[k - 1]);
      OnceStep(worlds[k - 1], ops[k - 1]);
    }
  }

  lemma {:induction false} InTurnIsReplay(calls: seq<Call>)
    requires InTurn(calls).Some?
    ensures Replay(DEFAULT_STATE, calls) == InTurn(calls).value
  {
    if calls != [] { InTurnIsReplay(calls[..|calls| - 1]); }
  }

  /** Serialisability: at every point of every interleaving the state file holds what the committed calls,
      run one at a time in commit order, would have left -- each of them successfully -- and keeps the ledger's laws. */
  lemma Serialisable(worlds: seq<World>, ops: seq<Op>, k: nat)
    requires Run(worlds, ops) && k < |worlds|
    ensures InTurn(Calls(worlds[k].log)) == Some(Current(worlds[k]))
    ensures Inv(Current(worlds[k]))
  {
    RunKeeps(worlds, ops, k);
    InTurnIsReplay(Calls(worlds[k].log));
    ReplayKeeps(Calls(worlds[k].log));
  }

  predicate OnlyEntry(log: seq<Entry>, n: nat, i: int)
  {
    && 0 <= i < |log| && log[i].serial == n
    && forall j :: 0 <= j < |log| && log[j].serial == n ==> j == i
  }

  /** A call reported as done was committed exactly once; one reported as an error never was. */
  lemma ReportsAreTrue(worlds: seq<World>, ops: seq<Op>, k: nat, n: nat)
    requires Run(worlds, ops) && k < |worlds| && n in worlds[k].reports
    ensures worlds[k].reports[n] ==> exists i :: OnlyEntry(worlds[k].log, n, i)
    ensures !worlds[k].reports[n] ==> forall i :: 0 <= i < |worlds[k].log| ==> worlds[k].log[i].serial != n
  {
    RunKeeps(worlds, ops, k);
    var w := worlds[k];
    assert w.reports[n] <==> Logged(w, n);
    if w.reports[n] {
      var i :| 0 <= i < |w.log| && w.log[i].serial == n;
      assert OnlyEntry(w.log, n, i);
    }
  }

  lemma {:induction false} LogGrows(worlds: seq<World>, ops: seq<Op>, i: nat, j: nat)
    requires Run(worlds, ops) && i <= j < |worlds|
    ensures worlds[i].log <= worlds[j].log
    decreases j
  {
    if i < j { LogGrows(worlds, ops, i, j - 1); }
  }

  /** Real time is respected: a call that was answered before another was made comes before it in the serial order. */
  lemma RealTimeOrder(worlds: seq<World>, ops: seq<Op>, i: nat, j: nat, a: nat, b: nat)
    requires Run(worlds, ops) && i <= j < |worlds| && a < |worlds[j].log| && b < |worlds[j].log|
    requires worlds[j].log[a].serial in worlds[i].reports && worlds[j].log[b].serial >= worlds[i].nextSerial
    ensures a < b
  {
    RunKeeps(worlds, ops, i);
    RunKeeps(worlds, ops, j);
    LogGrows(worlds, ops, i, j);
    ReportedIsOld(worlds, ops, i, j, worlds[j].log[a].serial);
    var k :| 0 <= k < |worlds[i].log| && worlds[i].log[k].serial == worlds[j].log[a].serial;
    assert worlds[j].log[k] == worlds[i].log[k];
    assert k == a;
    assert worlds[j].log[..|worlds[i].log|] == worlds[i].log;
  }

  lemma {:induction false} ReportedIsOld(worlds: seq<World>, ops: seq<Op>, i: nat, j: nat, n: nat)
    requires Run(worlds, ops) && i <= j < |worlds| && n in worlds[i].reports
    ensures n in worlds[j].reports && worlds[j].reports[n] == worlds[i].reports[n]
    ensures Logged(worlds[j], n) <==> Logged(worlds[i], n)
    decreases j
  {
    if i < j {
      ReportedIsOld(worlds, ops, i, j - 1, n);
      RunKeeps(worlds, ops, j - 1);
      ReportStays(worlds[j - 1], ops[j - 1], n);
    }
  }

  /** What a call was told is final, and so is whether it was committed. */
  lemma ReportStays(w: World, op: Op, n: nat)
    requires Once(w) && Enabled(w, op) && n in w.reports
    ensures n in Apply(w, op).reports && Apply(w, op).reports[n] == w.reports[n]
    ensures Logged(Apply(w, op), n) <==> Logged(w, n)
  {
    assert GoodPhase(w, op.p);
    LoggedStep(w, op, n);
  }
}
