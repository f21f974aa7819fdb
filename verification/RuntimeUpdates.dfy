/** Activation of downloaded runtimes as a transition system: one operation per filesystem step of the updater, with a
    crash possible between any two and the recovery from a missing binary interleaved anywhere. The digest function is a
    parameter: nothing is assumed of it. */
module RuntimeUpdates {
  import opened Options
  import opened Sorting

  const CHECK_INTERVAL_MS: int := 6 * 60 * 60 * 1000

  type Sha = s: string | |s| == 64 witness seq(64, _ => '0')

  /** A signed manifest, reduced to the artifact of this platform. */
  datatype Manifest = Manifest(version: string, sha: Sha, bytes: Option<nat>)

  /** What the version file names. */
  datatype Active = Active(version: string, dir: string)

  datatype Meta = Meta(active: Option<Active>, lastCheck: int, lastUpdate: int)

  const EMPTY_META: Meta := Meta(None, 0, 0)

  /** A version file being written is torn until its last byte is there. */
  datatype Doc = Torn | Whole(meta: Meta)

  /** An entry of the versions directory. */
  datatype Name = Release(dir: string) | Staging(dir: string, uuid: nat)

  datatype Dir = Dir(exe: Option<string>, mtime: int)

  function DirName(m: Manifest): string
  {
    m.version + "--" + m.sha[..12]
  }

  function ActiveOf(m: Manifest): Active
  {
    Active(m.version, DirName(m))
  }

  /** `readMeta() ?? emptyMeta()`. */
  function Known(pointer: Option<Doc>): Meta
  {
    if pointer.Some? && pointer.value.Whole? then pointer.value.meta else EMPTY_META
  }

  function ActiveDir(pointer: Option<Doc>): Option<string>
  {
    if Known(pointer).active.Some? then Some(Known(pointer).active.value.dir) else None
  }

  /** The executable on disk is the one the manifest pins. */
  predicate Matches(dirs: map<Name, Dir>, m: Manifest, digest: string -> Sha)
  {
    var name := Release(DirName(m));
    name in dirs && dirs[name].exe.Some? && digest(dirs[name].exe.value) == m.sha
  }

  // What the promises below are said in: the disk and the version file alone.

  /** The directory of the manifest's version and digest is there, complete, and its executable has that digest. */
  predicate Pinned(dirs: map<Name, Dir>, m: Manifest, digest: string -> Sha)
  {
    var name := Release(m.version + "--" + m.sha[..12]);
    name in dirs && dirs[name].exe != None && digest(dirs[name].exe.value) == m.sha
  }

  /** What the version file names; a missing or torn one names nothing. */
  function NamedIn(file: Option<Doc>): Option<Active>
  {
    match file case Some(Whole(meta)) => meta.active case _ => None
  }

  lemma PinnedIs(dirs: map<Name, Dir>, m: Manifest, file: Option<Doc>, digest: string -> Sha)
    ensures Pinned(dirs, m, digest) <==> Matches(dirs, m, digest)
    ensures NamedIn(file) == Known(file).active
    ensures ActiveOf(m) == Active(m.version, m.version + "--" + m.sha[..12])
  {
  }

  /** Two manifests share a directory if and only if they agree on the version and on twelve digits of the digest. */
  lemma DirectoriesDiffer(m: Manifest, m': Manifest)
    ensures DirName(m) == DirName(m') <==> m.version == m'.version && m.sha[..12] == m'.sha[..12]
  {
    var (a, b) := (DirName(m), DirName(m'));
    assert a[|a| - 12..] == m.sha[..12] && a[..|a| - 14] == m.version;
    assert b[|b| - 12..] == m'.sha[..12] && b[..|b| - 14] == m'.version;
  }

  // ---------- Pruning: which entries go ----------

  /** The modification time, or zero for an entry that cannot be examined. */
  function Mtime(dirs: map<Name, Dir>, e: Name): int
  {
    if e in dirs then dirs[e].mtime else 0
  }

  function Newer(dirs: map<Name, Dir>): (Name, Name) -> bool
  {
    (a, b) => Mtime(dirs, a) > Mtime(dirs, b)
  }

  predicate IsStaging(e: Name) { e.Staging? }

  function Inactive(active: Option<string>): Name -> bool
  {
    (e: Name) => e.Release? && active != Some(e.dir)
  }

  function Candidates(entries: seq<Name>, dirs: map<Name, Dir>, active: Option<string>): seq<Name>
  {
    Sort(Filter(entries, Inactive(active)), Newer(dirs))
  }

  function Min(a: int, b: int): int { if a < b then a else b }
  function Max(a: int, b: int): int { if a > b then a else b }

  /** How many of the inactive versions stay. */
  function Retained(entries: seq<Name>, dirs: map<Name, Dir>, active: Option<string>, keep: int): (n: nat)
    ensures n <= |Candidates(entries, dirs, active)|
  {
    Min(Max(0, keep - (if active.Some? then 1 else 0)), |Candidates(entries, dirs, active)|)
  }

  function Victims(entries: seq<Name>, dirs: map<Name, Dir>, active: Option<string>, keep: int): seq<Name>
  {
    Filter(entries, IsStaging) + Candidates(entries, dirs, active)[Retained(entries, dirs, active, keep)..]
  }

  /** A directory listing: every entry once, in any order. */
  ghost predicate Lists(entries: seq<Name>, dirs: map<Name, Dir>)
  {
    Distinct(entries) && forall e :: e in entries <==> e in dirs
  }

  // ---------- The state ----------

  /** How far the one update in flight has come; lost when the process dies. */
  datatype Job =
    | Idle
    | Fetching(previous: Meta, force: bool)
    | Rechecking(previous: Meta, m: Manifest)
    | Starting(m: Manifest)
    | Downloading(m: Manifest, uuid: nat)
    | Promoting(m: Manifest, uuid: nat)
    | Saving(meta: Meta, after: Option<Manifest>)
    | Filling(meta: Meta, uuid: nat, after: Option<Manifest>)
    | Renaming(meta: Meta, uuid: nat, after: Option<Manifest>)
    | Confirming(m: Manifest)
    | Tidying
    | Sweeping(victims: seq<Name>)

  /** A recovery that is rewriting the version file. */
  datatype Recovery = Calm | Clearing(meta: Meta, uuid: nat) | Cleared(meta: Meta, uuid: nat)

  datatype World = World(
    dirs: map<Name, Dir>,
    pointer: Option<Doc>,
    temps: map<nat, Doc>,       // `.version.<uuid>.tmp`
    nextUuid: nat,
    job: Job,
    recovery: Recovery,
    verified: Option<Manifest>, // `_verifiedManagedRuntime`
    signed: seq<Manifest>)      // history: manifests whose signature was verified

  datatype Op =
    | Crash
    | Begin(force: bool, now: int)
    | GiveUp(removed: bool)
    | Fetch(manifest: Manifest, tooOld: bool, now: int)
    | Recheck(now: int)
    | Start(now: int, mtime: int)
    | Receive(piece: string, mtime: int)
    | Downloaded
    | Abort
    | Promote(now: int)
    | OpenTemp
    | FillTemp
    | RenameTemp
    | Confirm
    | BeginSweep(entries: seq<Name>, keep: int)
    | Tear
    | Remove
    | Skip
    | EndSweep
    | RecoverForget
    | RecoverOpen
    | RecoverFill
    | RecoverRename
    | RecoverFail(removed: bool)

  /** The executable of a staging directory. */
  function Staged(w: World, m: Manifest, uuid: nat): Option<string>
  {
    var name := Staging(DirName(m), uuid);
    if name in w.dirs then w.dirs[name].exe else None
  }

  /** `getCliPath` without an external executable: what was verified, if it is still there. */
  function Usable(dirs: map<Name, Dir>, verified: Option<Manifest>): Option<string>
  {
    if verified.None? then None
    else
      var name := Release(DirName(verified.value));
      if name in dirs && dirs[name].exe.Some? then Some(name.dir) else None
  }

  function CliDir(w: World): Option<string>
  {
    Usable(w.dirs, w.verified)
  }

  /** A check may be skipped while this process holds a verified runtime and the last check is recent. */
  predicate Fresh(dirs: map<Name, Dir>, verified: Option<Manifest>, pointer: Option<Doc>, now: int)
  {
    Usable(dirs, verified).Some? && now - Known(pointer).lastCheck < CHECK_INTERVAL_MS
  }

  ghost predicate Enabled(w: World, op: Op, digest: string -> Sha)
  {
    match op
    case Crash => true
    case Begin(force, now) => w.job.Idle? && (force || !Fresh(w.dirs, w.verified, w.pointer, now))
    case GiveUp(_) => !w.job.Idle? && !w.job.Downloading? && !w.job.Promoting? && !w.job.Sweeping?
    case Fetch(_, _, _) => w.job.Fetching?
    case Recheck(_) => w.job.Rechecking?
    case Start(_, _) => w.job.Starting?
    case Receive(_, _) => w.job.Downloading?
    case Downloaded =>
      && w.job.Downloading?
      && Staged(w, w.job.m, w.job.uuid).Some?
      && digest(Staged(w, w.job.m, w.job.uuid).value) == w.job.m.sha
    case Abort => w.job.Downloading? || w.job.Promoting?
    case Promote(_) => w.job.Promoting? && Release(DirName(w.job.m)) !in w.dirs && Staging(DirName(w.job.m), w.job.uuid) in w.dirs
    case OpenTemp => w.job.Saving?
    case FillTemp => w.job.Filling?
    case RenameTemp => w.job.Renaming? && w.job.uuid in w.temps
    case Confirm => w.job.Confirming?
    case BeginSweep(entries, _) => (w.job.Tidying? || w.job.Idle?) && Lists(entries, w.dirs)
    case Tear => w.job.Sweeping? && w.job.victims != [] && w.job.victims[0] in w.dirs
    case Remove => w.job.Sweeping? && w.job.victims != []
    case Skip => w.job.Sweeping? && w.job.victims != []
    case EndSweep => w.job.Sweeping? && w.job.victims == []
    case RecoverForget => true
    case RecoverOpen => w.recovery.Calm?
    case RecoverFill => w.recovery.Clearing?
    case RecoverRename => w.recovery.Cleared? && w.recovery.uuid in w.temps
    case RecoverFail(_) => !w.recovery.Calm?
  }

  function Activation(m: Manifest, now: int): Job
  {
    Saving(Meta(Some(ActiveOf(m)), now, now), Some(m))
  }

  ghost function Apply(w: World, op: Op, digest: string -> Sha): World
    requires Enabled(w, op, digest)
  {
    match op
    case Crash => w.(job := Idle, recovery := Calm, verified := None)
    case Begin(force, _) => w.(job := Fetching(Known(w.pointer), force))
    case GiveUp(removed) =>
      w.(job := Idle, temps := if removed && (w.job.Filling? || w.job.Renaming?) then w.temps - {w.job.uuid} else w.temps)
    case Fetch(m, tooOld, now) =>
      w.(signed := w.signed + [m], verified := None,
         job := if tooOld then Saving(w.job.previous.(lastCheck := now), None)
                else if !w.job.force && w.job.previous.active == Some(ActiveOf(m)) then Rechecking(w.job.previous, m)
                else Starting(m))
    case Recheck(now) =>
      if Matches(w.dirs, w.job.m, digest)
      then w.(verified := Some(w.job.m), job := Saving(w.job.previous.(lastCheck := now), None))
      else w.(job := Starting(w.job.m))
    case Start(now, mtime) =>
      var m := w.job.m;
      if Release(DirName(m)) !in w.dirs
      then w.(dirs := w.dirs[Staging(DirName(m), w.nextUuid) := Dir(None, mtime)], nextUuid := w.nextUuid + 1,
              job := Downloading(m, w.nextUuid))
      else w.(job := if Matches(w.dirs, m, digest) then Activation(m, now) else Idle)
    case Receive(piece, mtime) =>
      var sofar := Staged(w, w.job.m, w.job.uuid);
      var name := Staging(DirName(w.job.m), w.job.uuid);
      w.(dirs := w.dirs[name := Dir(Some((if sofar.Some? then sofar.value else "") + piece), mtime)])
    case Downloaded => w.(job := Promoting(w.job.m, w.job.uuid))
    case Abort => w.(job := Sweeping([Staging(DirName(w.job.m), w.job.uuid)]))
    case Promote(now) =>
      var (from, to) := (Staging(DirName(w.job.m), w.job.uuid), Release(DirName(w.job.m)));
      w.(dirs := (w.dirs - {from})[to := w.dirs[from]], job := Activation(w.job.m, now))
    case OpenTemp =>
      w.(temps := w.temps[w.nextUuid := Torn], nextUuid := w.nextUuid + 1, job := Filling(w.job.meta, w.nextUuid, w.job.after))
    case FillTemp => w.(temps := w.temps[w.job.uuid := Whole(w.job.meta)], job := Renaming(w.job.meta, w.job.uuid, w.job.after))
    case RenameTemp =>
      w.(pointer := Some(w.temps[w.job.uuid]), temps := w.temps - {w.job.uuid},
         job := if w.job.after.Some? then Confirming(w.job.after.value) else Idle)
    case Confirm =>
      if Known(w.pointer).active == Some(ActiveOf(w.job.m)) && Matches(w.dirs, w.job.m, digest)
      then w.(verified := Some(w.job.m), job := Tidying)
      else w.(job := Idle)
    case BeginSweep(entries, keep) => w.(job := Sweeping(Victims(entries, w.dirs, ActiveDir(w.pointer), keep)))
    case Tear => var v := w.job.victims[0]; w.(dirs := w.dirs[v := w.dirs[v].(exe := None)])
    case Remove => w.(dirs := w.dirs - {w.job.victims[0]}, job := Sweeping(w.job.victims[1..]))
    case Skip => w.(job := Sweeping(w.job.victims[1..]))
    case EndSweep => w.(job := Idle)
    case RecoverForget => w.(verified := None)
    case RecoverOpen =>
      w.(temps := w.temps[w.nextUuid := Torn], nextUuid := w.nextUuid + 1,
         recovery := Clearing(Known(w.pointer).(active := None), w.nextUuid))
    case RecoverFill =>
      w.(temps := w.temps[w.recovery.uuid := Whole(w.recovery.meta)], recovery := Cleared(w.recovery.meta, w.recovery.uuid))
    case RecoverRename =>
      w.(pointer := Some(w.temps[w.recovery.uuid]), temps := w.temps - {w.recovery.uuid}, recovery := Calm)
    case RecoverFail(removed) =>
      w.(temps := if removed then w.temps - {w.recovery.uuid} else w.temps, recovery := Calm)
  }

  ghost predicate Step(w: World, op: Op, w': World, digest: string -> Sha)
  {
    Enabled(w, op, digest) && w' == Apply(w, op, digest)
  }

  ghost predicate Run(worlds: seq<World>, ops: seq<Op>, digest: string -> Sha)
  {
    && |worlds| == |ops| + 1
    && forall i {:trigger ops[i]} :: 0 <= i < |ops| ==> Step(worlds[i], ops[i], worlds[i + 1], digest)
  }

  /** A first start: no version file yet, and whatever directories an earlier installation left. */
  predicate Init(w: World)
  {
    && w.pointer.None? && w.temps == map[] && w.job.Idle? && w.recovery.Calm? && w.verified.None? && w.signed == []
    && (forall e :: e in w.dirs && e.Staging? ==> e.uuid < w.nextUuid)
  }

  // ---------- The invariant ----------

  /** The named directory is complete, and its executable has the digest a signed manifest pinned for that version. */
  ghost predicate Genuine(w: World, a: Active, digest: string -> Sha)
  {
    exists i :: 0 <= i < |w.signed| && a == Active(w.signed[i].version, w.signed[i].version + "--" + w.signed[i].sha[..12])
      && Pinned(w.dirs, w.signed[i], digest)
  }

  ghost predicate Backed(w: World, meta: Meta, digest: string -> Sha)
  {
    meta.active.Some? ==> Genuine(w, meta.active.value, digest)
  }

  ghost predicate PointerSound(w: World, digest: string -> Sha)
  {
    w.pointer.Some? ==> w.pointer.value.Whole? && Backed(w, w.pointer.value.meta, digest)
  }

  /** The last manifest fetched is the one the update is working for. */
  predicate Latest(w: World, m: Manifest)
  {
    |w.signed| > 0 && w.signed[|w.signed| - 1] == m
  }

  /** What is about to become the version file is already true of the disk. */
  ghost predicate SavingSound(w: World, meta: Meta, after: Option<Manifest>, digest: string -> Sha)
  {
    && Backed(w, meta, digest)
    && (after.Some? ==> Latest(w, after.value) && Matches(w.dirs, after.value, digest) && meta.active == Some(ActiveOf(after.value)))
  }

  ghost predicate JobSound(w: World, digest: string -> Sha)
  {
    match w.job
    case Idle => true
    case Fetching(previous, _) => Backed(w, previous, digest)
    case Rechecking(previous, m) => Backed(w, previous, digest) && Latest(w, m) && w.verified.None?
    case Starting(m) => Latest(w, m) && w.verified.None?
    case Downloading(m, uuid) => Latest(w, m) && w.verified.None? && uuid < w.nextUuid
    case Promoting(m, uuid) =>
      && Latest(w, m) && w.verified.None? && uuid < w.nextUuid
      && Staged(w, m, uuid).Some? && digest(Staged(w, m, uuid).value) == m.sha
    case Saving(meta, after) => SavingSound(w, meta, after, digest)
    case Filling(meta, uuid, after) => SavingSound(w, meta, after, digest) && uuid < w.nextUuid
    case Renaming(meta, uuid, after) =>
      SavingSound(w, meta, after, digest) && uuid < w.nextUuid && (uuid in w.temps ==> w.temps[uuid] == Whole(meta))
    case Confirming(m) => Latest(w, m) && Matches(w.dirs, m, digest)
    case Tidying => true
    case Sweeping(victims) => SparesActive(w, victims)
  }

  ghost predicate SparesActive(w: World, victims: seq<Name>)
  {
    forall v :: v in victims && v.Release? ==> ActiveDir(w.pointer) != Some(v.dir)
  }

  predicate JobTemp(w: World, uuid: nat)
  {
    (w.job.Filling? || w.job.Renaming?) && w.job.uuid == uuid
  }

  predicate RecoverySound(w: World)
  {
    && (w.recovery.Clearing? || w.recovery.Cleared? ==>
          w.recovery.meta.active.None? && w.recovery.uuid < w.nextUuid && !JobTemp(w, w.recovery.uuid))
    && (w.recovery.Cleared? && w.recovery.uuid in w.temps ==> w.temps[w.recovery.uuid] == Whole(w.recovery.meta))
  }

  /** A runtime this process hands out is the one the latest signed manifest pins. */
  predicate VerifiedSound(w: World, digest: string -> Sha)
  {
    w.verified.Some? ==>
      Latest(w, w.verified.value) && (CliDir(w).Some? ==> Matches(w.dirs, w.verified.value, digest))
  }

  ghost predicate Inv(w: World, digest: string -> Sha)
  {
    PointerSound(w, digest) && JobSound(w, digest) && RecoverySound(w) && VerifiedSound(w, digest)
  }

  // ---------- Preservation ----------

  lemma FilterOnly<T>(s: seq<T>, p: T -> bool)
    ensures forall x :: x in Filter(s, p) <==> x in s && p(x)
  {
    forall x { FilterMember(s, p, x); }
  }

  lemma CandidatesOnly(entries: seq<Name>, dirs: map<Name, Dir>, active: Option<string>)
    ensures forall e :: e in Candidates(entries, dirs, active) <==> e in entries && e.Release? && active != Some(e.dir)
  {
    var inactive := Filter(entries, Inactive(active));
    SortPermutes(inactive, Newer(dirs));
    SameMembers(Candidates(entries, dirs, active), inactive);
    FilterOnly(entries, Inactive(active));
  }

  lemma VictimsSpareActive(entries: seq<Name>, dirs: map<Name, Dir>, active: Option<string>, keep: int)
    ensures forall v :: v in Victims(entries, dirs, active, keep) ==> v in entries && (v.Release? ==> active != Some(v.dir))
  {
    CandidatesOnly(entries, dirs, active);
    FilterOnly(entries, IsStaging);
  }

  /** Directories and history only grow where it matters. */
  ghost predicate Preserves(w: World, w': World)
  {
    && w.signed <= w'.signed
    && (forall e :: e in w.dirs && e.Release? ==> e in w'.dirs && w'.dirs[e] == w.dirs[e])
  }

  lemma PreservesBacked(w: World, w': World, meta: Meta, digest: string -> Sha)
    requires Preserves(w, w') && Backed(w, meta, digest)
    ensures Backed(w', meta, digest)
  {
    if meta.active.Some? {
      var i :| 0 <= i < |w.signed| && ActiveOf(w.signed[i]) == meta.active.value && Pinned(w.dirs, w.signed[i], digest);
      assert w'.signed[i] == w.signed[i];
    }
  }

  lemma LatestBacked(w: World, m: Manifest, meta: Meta, digest: string -> Sha)
    requires Latest(w, m) && Matches(w.dirs, m, digest) && meta.active == Some(ActiveOf(m))
    ensures Backed(w, meta, digest)
  {
    assert ActiveOf(w.signed[|w.signed| - 1]) == meta.active.value;
  }

  predicate Deletes(op: Op)
  {
    op.Tear? || op.Remove?
  }

  lemma StepPreserves(w: World, op: Op, digest: string -> Sha)
    requires Enabled(w, op, digest) && !Deletes(op)
    ensures Preserves(w, Apply(w, op, digest))
  {
  }

  /** A deletion touches only the entry at the head of the sweep. */
  lemma DeletionBacked(w: World, op: Op, meta: Meta, digest: string -> Sha)
    requires Enabled(w, op, digest) && Deletes(op) && Backed(w, meta, digest)
    requires meta.active.Some? ==> w.job.victims[0] != Release(meta.active.value.dir)
    ensures Backed(Apply(w, op, digest), meta, digest)
  {
    if meta.active.Some? {
      var w' := Apply(w, op, digest);
      var i :| 0 <= i < |w.signed| && ActiveOf(w.signed[i]) == meta.active.value && Pinned(w.dirs, w.signed[i], digest);
      PinnedIs(w.dirs, w.signed[i], w.pointer, digest);
      var name := Release(w.signed[i].version + "--" + w.signed[i].sha[..12]);
      assert name == Release(meta.active.value.dir) && name in w'.dirs && w'.dirs[name] == w.dirs[name];
      assert w'.signed[i] == w.signed[i] && Pinned(w'.dirs, w'.signed[i], digest);
    }
  }

  lemma PointerStep(w: World, op: Op, digest: string -> Sha)
    requires Inv(w, digest) && Enabled(w, op, digest)
    ensures PointerSound(Apply(w, op, digest), digest)
  {
    var w' := Apply(w, op, digest);
    if op.RenameTemp? {
      PreservesBacked(w, w', w.job.meta, digest);
    } else if op.RecoverRename? {
    } else if w.pointer.Some? {
      if Deletes(op) {
        assert w.job.victims[0] in w.job.victims;
        DeletionBacked(w, op, w.pointer.value.meta, digest);
      } else {
        StepPreserves(w, op, digest);
        PreservesBacked(w, w', w.pointer.value.meta, digest);
      }
    }
  }

  lemma JobStep(w: World, op: Op, digest: string -> Sha)
    requires Inv(w, digest) && Enabled(w, op, digest)
    ensures JobSound(Apply(w, op, digest), digest)
  {
    match op
    case Begin(_, _) => CheckStep(w, op, digest);
    case Fetch(_, _, _) => CheckStep(w, op, digest);
    case Recheck(_) => CheckStep(w, op, digest);
    case Start(_, _) => StartStep(w, op, digest);
    case Promote(_) => PromoteStep(w, op, digest);
    case OpenTemp => SavingStep(w, op, digest);
    case FillTemp => SavingStep(w, op, digest);
    case RenameTemp => SavingStep(w, op, digest);
    case BeginSweep(_, _) => SweepStep(w, op, digest);
    case Tear => SweepStep(w, op, digest);
    case Remove => SweepStep(w, op, digest);
    case Skip => SweepStep(w, op, digest);
    case RecoverForget => RecoveryKeepsJob(w, op, digest);
    case RecoverOpen => RecoveryKeepsJob(w, op, digest);
    case RecoverFill => RecoveryKeepsJob(w, op, digest);
    case RecoverRename => RecoveryKeepsJob(w, op, digest);
    case RecoverFail(_) => RecoveryKeepsJob(w, op, digest);
    case _ => QuietStep(w, op, digest);
  }

  /** Steps after which the update relies on nothing more than before. */
  lemma QuietStep(w: World, op: Op, digest: string -> Sha)
    requires Inv(w, digest) && Enabled(w, op, digest)
    requires op.Crash? || op.GiveUp? || op.Receive? || op.Downloaded? || op.Abort? || op.Confirm? || op.EndSweep?
    ensures JobSound(Apply(w, op, digest), digest)
  {
  }

  lemma CheckStep(w: World, op: Op, digest: string -> Sha)
    requires Inv(w, digest) && Enabled(w, op, digest) && (op.Begin? || op.Fetch? || op.Recheck?)
    ensures JobSound(Apply(w, op, digest), digest)
  {
    var w' := Apply(w, op, digest);
    var previous := if op.Begin? then Known(w.pointer) else w.job.previous;
    PreservesBacked(w, w', previous, digest);
    PreservesBacked(w, w', previous.(lastCheck := op.now), digest);
  }

  lemma PromoteStep(w: World, op: Op, digest: string -> Sha)
    requires Inv(w, digest) && Enabled(w, op, digest) && op.Promote?
    ensures JobSound(Apply(w, op, digest), digest)
  {
    LatestBacked(Apply(w, op, digest), w.job.m, Meta(Some(ActiveOf(w.job.m)), op.now, op.now), digest);
  }

  lemma SavingStep(w: World, op: Op, digest: string -> Sha)
    requires Inv(w, digest) && Enabled(w, op, digest) && (op.OpenTemp? || op.FillTemp? || op.RenameTemp?)
    ensures JobSound(Apply(w, op, digest), digest)
  {
    PreservesBacked(w, Apply(w, op, digest), w.job.meta, digest);
  }

  lemma SweepStep(w: World, op: Op, digest: string -> Sha)
    requires Inv(w, digest) && Enabled(w, op, digest) && (op.BeginSweep? || op.Tear? || op.Remove? || op.Skip?)
    ensures JobSound(Apply(w, op, digest), digest)
  {
    if op.BeginSweep? { VictimsSpareActive(op.entries, w.dirs, ActiveDir(w.pointer), op.keep); }
  }

  lemma StartStep(w: World, op: Op, digest: string -> Sha)
    requires Inv(w, digest) && Enabled(w, op, digest) && op.Start?
    ensures JobSound(Apply(w, op, digest), digest)
  {
    if Matches(w.dirs, w.job.m, digest) {
      LatestBacked(Apply(w, op, digest), w.job.m, Meta(Some(ActiveOf(w.job.m)), op.now, op.now), digest);
    }
  }

  predicate IsRecovery(op: Op)
  {
    op.RecoverForget? || op.RecoverOpen? || op.RecoverFill? || op.RecoverRename? || op.RecoverFail?
  }

  /** A recovery in the middle of an update only ever clears the version file, so what the update relies on stays true. */
  lemma RecoveryKeepsJob(w: World, op: Op, digest: string -> Sha)
    requires Inv(w, digest) && Enabled(w, op, digest) && IsRecovery(op)
    ensures JobSound(Apply(w, op, digest), digest)
  {
    var w' := Apply(w, op, digest);
    StepPreserves(w, op, digest);
    assert w'.job == w.job;
    match w.job
    case Fetching(previous, _) => PreservesBacked(w, w', previous, digest);
    case Rechecking(previous, _) => PreservesBacked(w, w', previous, digest);
    case Saving(meta, _) => PreservesBacked(w, w', meta, digest);
    case Filling(meta, _, _) => PreservesBacked(w, w', meta, digest);
    case Renaming(meta, _, _) => PreservesBacked(w, w', meta, digest);
    case _ =>
  }

  /** Directories come and go, but what is verified stays what it was. */
  lemma VerifiedStays(w: World, w': World, digest: string -> Sha)
    requires VerifiedSound(w, digest) && w'.signed == w.signed && w'.verified == w.verified
    requires forall e :: e in w'.dirs && e.Release? ==> e in w.dirs && (w'.dirs[e] == w.dirs[e] || w'.dirs[e].exe.None?)
    ensures VerifiedSound(w', digest)
  {
  }

  lemma VerifiedStep(w: World, op: Op, digest: string -> Sha)
    requires Inv(w, digest) && Enabled(w, op, digest)
    ensures VerifiedSound(Apply(w, op, digest), digest)
  {
    match op
    case Crash => VerifiedAnew(w, op, digest);
    case Fetch(_, _, _) => VerifiedAnew(w, op, digest);
    case Recheck(_) => VerifiedAnew(w, op, digest);
    case Promote(_) => VerifiedAnew(w, op, digest);
    case Confirm => VerifiedAnew(w, op, digest);
    case RecoverForget => VerifiedAnew(w, op, digest);
    case Start(_, _) => VerifiedStays(w, Apply(w, op, digest), digest);
    case Receive(_, _) => VerifiedStays(w, Apply(w, op, digest), digest);
    case Tear => VerifiedStays(w, Apply(w, op, digest), digest);
    case Remove => VerifiedStays(w, Apply(w, op, digest), digest);
    case _ => VerifiedUntouched(w, op, digest);
  }

  predicate TouchesVerified(op: Op)
  {
    op.Crash? || op.Fetch? || op.Recheck? || op.Promote? || op.Confirm? || op.RecoverForget?
  }

  /** What is verified is forgotten, or set to what was just compared with the disk. */
  lemma VerifiedAnew(w: World, op: Op, digest: string -> Sha)
    requires Inv(w, digest) && Enabled(w, op, digest) && TouchesVerified(op)
    ensures VerifiedSound(Apply(w, op, digest), digest)
  {
  }

  lemma VerifiedUntouched(w: World, op: Op, digest: string -> Sha)
    requires VerifiedSound(w, digest) && Enabled(w, op, digest) && !TouchesVerified(op)
    requires !op.Start? && !op.Receive? && !op.Tear? && !op.Remove?
    ensures VerifiedSound(Apply(w, op, digest), digest)
  {
    var w' := Apply(w, op, digest);
    assert w'.dirs == w.dirs && w'.signed == w.signed && w'.verified == w.verified;
    VerifiedStays(w, w', digest);
  }

  lemma RecoveryStep(w: World, op: Op, digest: string -> Sha)
    requires Inv(w, digest) && Enabled(w, op, digest)
    ensures RecoverySound(Apply(w, op, digest))
  {
    match op
    case OpenTemp => TempStep(w, op, digest);
    case FillTemp => TempStep(w, op, digest);
    case RenameTemp => TempStep(w, op, digest);
    case GiveUp(_) => TempStep(w, op, digest);
    case RecoverForget => ClearingStep(w, op, digest);
    case RecoverOpen => ClearingStep(w, op, digest);
    case RecoverFill => ClearingStep(w, op, digest);
    case RecoverRename => ClearingStep(w, op, digest);
    case RecoverFail(_) => ClearingStep(w, op, digest);
    case _ => ClearingWaits(w, op, digest);
  }

  /** The update writes under a name of its own. */
  lemma TempStep(w: World, op: Op, digest: string -> Sha)
    requires Inv(w, digest) && Enabled(w, op, digest) && (op.OpenTemp? || op.FillTemp? || op.RenameTemp? || op.GiveUp?)
    ensures RecoverySound(Apply(w, op, digest))
  {
  }

  lemma ClearingStep(w: World, op: Op, digest: string -> Sha)
    requires Inv(w, digest) && Enabled(w, op, digest) && IsRecovery(op)
    ensures RecoverySound(Apply(w, op, digest))
  {
  }

  lemma ClearingWaits(w: World, op: Op, digest: string -> Sha)
    requires RecoverySound(w) && Enabled(w, op, digest) && !IsRecovery(op)
    requires !op.OpenTemp? && !op.FillTemp? && !op.RenameTemp? && !op.GiveUp?
    ensures RecoverySound(Apply(w, op, digest))
  {
    var w' := Apply(w, op, digest);
    assert w'.temps == w.temps && w'.nextUuid >= w.nextUuid;
  }

  lemma {:induction false} InvRun(worlds: seq<World>, ops: seq<Op>, digest: string -> Sha, k: nat)
    requires Run(worlds, ops, digest) && Init(worlds[0]) && k < |worlds|
    ensures Inv(worlds[k], digest)
  {
    if k > 0 {
      InvRun(worlds, ops, digest, k - 1);
      var (w, op) := (worlds[k - 1], ops[k - 1]);
      assert Step(w, op, worlds[k], digest);
      PointerStep(w, op, digest);
      JobStep(w, op, digest);
      VerifiedStep(w, op, digest);
      RecoveryStep(w, op, digest);
    }
  }

  /** At every step and crash point, a version file that names a directory names a complete one whose executable has the
      digest of the signed manifest it was installed under. */
  lemma ActiveIsGenuine(worlds: seq<World>, ops: seq<Op>, digest: string -> Sha, k: nat, a: Active)
    requires Run(worlds, ops, digest) && Init(worlds[0]) && k < |worlds| && NamedIn(worlds[k].pointer) == Some(a)
    ensures Genuine(worlds[k], a, digest)
  {
    InvRun(worlds, ops, digest, k);
  }

  /** A crash never leaves a half-written version file. */
  lemma PointerNeverTorn(worlds: seq<World>, ops: seq<Op>, digest: string -> Sha, k: nat)
    requires Run(worlds, ops, digest) && Init(worlds[0]) && k < |worlds|
    ensures worlds[k].pointer != Some(Torn)
  {
    InvRun(worlds, ops, digest, k);
  }

  /** The executable handed out by this process is the one pinned by the last signed manifest it saw. */
  lemma ServedIsLatest(worlds: seq<World>, ops: seq<Op>, digest: string -> Sha, k: nat, dir: string)
    requires Run(worlds, ops, digest) && Init(worlds[0]) && k < |worlds| && CliDir(worlds[k]) == Some(dir)
    ensures var w := worlds[k];
      && |w.signed| > 0 && dir == w.signed[|w.signed| - 1].version + "--" + w.signed[|w.signed| - 1].sha[..12]
      && Pinned(w.dirs, w.signed[|w.signed| - 1], digest)
  {
    InvRun(worlds, ops, digest, k);
  }

  /** No deletion ever touches the active directory. */
  lemma DeletionsSpareActive(worlds: seq<World>, ops: seq<Op>, digest: string -> Sha, k: nat)
    requires Run(worlds, ops, digest) && Init(worlds[0]) && k < |ops| && Deletes(ops[k])
    ensures worlds[k].job.Sweeping? && worlds[k].job.victims != []
    ensures var v := worlds[k].job.victims[0]; v.Release? && NamedIn(worlds[k].pointer) != None ==> NamedIn(worlds[k].pointer).value.dir != v.dir
  {
    InvRun(worlds, ops, digest, k);
    assert Step(worlds[k], ops[k], worlds[k + 1], digest);
    assert worlds[k].job.victims[0] in worlds[k].job.victims;
  }

  /** Entry `e` is deleted, or begins to be, at step `k`. */
  ghost predicate DeletedAt(worlds: seq<World>, ops: seq<Op>, e: Name, k: int)
  {
    && 0 <= k < |ops| && k < |worlds| && Deletes(ops[k])
    && worlds[k].job.Sweeping? && worlds[k].job.victims != [] && worlds[k].job.victims[0] == e
  }

  /** A version directory, once there, keeps its contents until a prune takes it: promotion never replaces one. */
  lemma {:induction false} ReleasesAreImmutable(worlds: seq<World>, ops: seq<Op>, digest: string -> Sha, i: nat, j: nat, e: Name)
    requires Run(worlds, ops, digest) && i <= j < |worlds| && e.Release? && e in worlds[i].dirs
    requires forall k :: i <= k < j ==> !DeletedAt(worlds, ops, e, k)
    ensures e in worlds[j].dirs && worlds[j].dirs[e] == worlds[i].dirs[e]
  {
    if i < j {
      ReleasesAreImmutable(worlds, ops, digest, i, j - 1, e);
      assert Step(worlds[j - 1], ops[j - 1], worlds[j], digest);
      assert !DeletedAt(worlds, ops, e, j - 1);
      if !Deletes(ops[j - 1]) { StepPreserves(worlds[j - 1], ops[j - 1], digest); }
    }
  }

  // ---------- What a prune keeps ----------

  /** The inactive versions newer than `e`. */
  function NewerThan(dirs: map<Name, Dir>, active: Option<string>, e: Name): set<Name>
    requires e in dirs
  {
    set c | c in dirs && c.Release? && active != Some(c.dir) && dirs[c].mtime > dirs[e].mtime
  }

  ghost predicate DistinctTimes(dirs: map<Name, Dir>)
  {
    forall a, b :: a in dirs && b in dirs && a.Release? && b.Release? && a != b ==> dirs[a].mtime != dirs[b].mtime
  }

  lemma CandidatesOrdered(entries: seq<Name>, dirs: map<Name, Dir>, active: Option<string>)
    requires Distinct(entries)
    ensures Distinct(Candidates(entries, dirs, active)) && Sorted(Candidates(entries, dirs, active), Newer(dirs))
  {
    var inactive := Filter(entries, Inactive(active));
    FilterDistinct(entries, Inactive(active));
    SortPermutes(inactive, Newer(dirs));
    DistinctPermutes(inactive, Sort(inactive, Newer(dirs)));
    SortSorted(inactive, Newer(dirs));
  }

  /** The number of newer candidates is the position in the sorted list. */
  lemma RankIsPosition(entries: seq<Name>, dirs: map<Name, Dir>, active: Option<string>, i: nat)
    requires Lists(entries, dirs) && DistinctTimes(dirs) && i < |Candidates(entries, dirs, active)|
    requires Candidates(entries, dirs, active)[i] in dirs
    ensures |NewerThan(dirs, active, Candidates(entries, dirs, active)[i])| == i
  {
    var c := Candidates(entries, dirs, active);
    CandidatesOrdered(entries, dirs, active);
    CandidatesOnly(entries, dirs, active);
    var newer := set x | x in c[..i];
    forall x
      ensures x in newer <==> x in NewerThan(dirs, active, c[i])
    {
      if x in NewerThan(dirs, active, c[i]) {
        assert x in c;
        var j :| 0 <= j < |c| && c[j] == x;
        assert j < i;
        assert c[..i][j] == x;
      }
    }
    assert newer == NewerThan(dirs, active, c[i]);
    DistinctSize(c[..i]);
  }

  lemma TailMember<T>(s: seq<T>, n: nat, i: nat)
    requires Distinct(s) && n <= |s| && i < |s|
    ensures s[i] in s[n..] <==> i >= n
  {
    if i >= n { assert s[n..][i - n] == s[i]; }
  }

  /** Pruning takes every staging directory, never the active version, and of the others exactly those that have at
      least as many newer ones as may be retained. */
  lemma PrunedIff(entries: seq<Name>, dirs: map<Name, Dir>, active: Option<string>, keep: int, e: Name)
    requires Lists(entries, dirs) && DistinctTimes(dirs) && e in dirs
    ensures e in Victims(entries, dirs, active, keep) <==>
      e.Staging? || (active != Some(e.dir) && |NewerThan(dirs, active, e)| >= keep - (if active.Some? then 1 else 0))
  {
    var c := Candidates(entries, dirs, active);
    var n := Retained(entries, dirs, active, keep);
    CandidatesOnly(entries, dirs, active);
    CandidatesOrdered(entries, dirs, active);
    FilterOnly(entries, IsStaging);
    assert e in Victims(entries, dirs, active, keep) <==> e.Staging? || e in c[n..];
    if e in c {
      var i :| 0 <= i < |c| && c[i] == e;
      RankIsPosition(entries, dirs, active, i);
      TailMember(c, n, i);
    }
  }
}
