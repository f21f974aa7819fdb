/** The updater itself. Each method records the operations it performs, so every point at which the process could die
    is a point of a run of the transition system. */
module RuntimeUpdater {
  import opened Options
  import opened Text
  import opened Sorting
  import opened RuntimeUpdates

  const MAX_ARTIFACT_BYTES: nat := 512 * 1024 * 1024
  const RENAME_RETRIES: nat := 7

  datatype Attempt = Renamed | Sharing | Failed
  /** Where a write of the version file fails, and whether its temporary file can be removed then. */
  datatype WriteFault = NoFault | OpenFails | FillFails(removed: bool) | RenameFails(removed: bool)
  datatype UpdateResult = NotNeeded | Updated(previous: Option<Active>, to: Manifest) | Refused | Busy

  /** What the outside world does during one update. */
  datatype Env = Env(
    now: int,
    mtime: int,
    manifest: Option<Manifest>, // what the feed returns, if its signature holds
    tooOld: bool,               // the manifest demands a newer desktop
    pieces: seq<string>,        // the body of the download
    broken: bool,               // the download or the write ends in an error
    renames: nat -> Attempt,
    fault: WriteFault,
    stuck: set<Name>)           // entries `rmSync` cannot remove

  /** The body is acceptable: complete, not empty, within the limits, of the announced size and the pinned digest. */
  predicate Acceptable(env: Env, m: Manifest, digest: string -> Sha)
  {
    var body := Joined(env.pieces);
    && !env.broken && 0 < |body| <= 536_870_912
    && (m.bytes.Some? ==> |body| == m.bytes.value)
    && digest(body) == m.sha
  }

  predicate TooLong(n: nat, m: Manifest)
  {
    n > MAX_ARTIFACT_BYTES || (m.bytes.Some? && n > m.bytes.value)
  }

  /** The rename succeeds within the allowed attempts. */
  ghost predicate GoesThrough(renames: nat -> Attempt)
  {
    exists i: nat :: i <= 7 && renames(i).Renamed? && forall j: nat :: j < i ==> renames(j).Sharing?
  }

  /** `installVersion` can put the directory in place, or finds it there. */
  ghost predicate Installable(env: Env, m: Manifest, dirs: map<Name, Dir>, digest: string -> Sha)
  {
    if Release(m.version + "--" + m.sha[..12]) in dirs then Pinned(dirs, m, digest) else Acceptable(env, m, digest) && GoesThrough(env.renames)
  }

  /** The check gets as far as installing: not skipped, not refused, not already up to date. */
  predicate Wanted(env: Env, force: bool, dirs: map<Name, Dir>, file: Option<Doc>, verified: Option<Manifest>, digest: string -> Sha)
  {
    && (force || !HasRuntime(dirs, verified) || env.now - LastCheck(file) >= 21_600_000)
    && env.manifest != None && !env.tooOld
    && (force || NamedIn(file) != Some(Active(env.manifest.value.version, env.manifest.value.version + "--" + env.manifest.value.sha[..12]))
        || !Pinned(dirs, env.manifest.value, digest))
  }

  /** This process verified a runtime, and its executable is still there. */
  predicate HasRuntime(dirs: map<Name, Dir>, verified: Option<Manifest>)
  {
    && verified != None
    && var name := Release(verified.value.version + "--" + verified.value.sha[..12]); name in dirs && dirs[name].exe != None
  }

  function LastCheck(file: Option<Doc>): int
  {
    match file case Some(Whole(meta)) => meta.lastCheck case _ => 0
  }

  lemma FreshIs(dirs: map<Name, Dir>, verified: Option<Manifest>, file: Option<Doc>, now: int)
    ensures Fresh(dirs, verified, file, now) <==> HasRuntime(dirs, verified) && now - LastCheck(file) < 21_600_000
  {
  }

  /** Versions already there are untouched. */
  ghost predicate KeepsReleases(before: map<Name, Dir>, after: map<Name, Dir>)
  {
    forall e :: e in before && e.Release? ==> e in after && after[e] == before[e]
  }

  lemma {:induction false} JoinedGrows(pieces: seq<string>, i: nat)
    requires i <= |pieces|
    ensures |Joined(pieces[..i])| <= |Joined(pieces)|
    decreases |pieces|
  {
    if i < |pieces| {
      JoinedGrows(pieces[..|pieces| - 1], i);
      assert pieces[..|pieces| - 1][..i] == pieces[..i];
    } else {
      assert pieces[..i] == pieces;
    }
  }

  lemma JoinedStep(pieces: seq<string>, i: nat)
    requires i < |pieces|
    ensures Joined(pieces[..i + 1]) == Joined(pieces[..i]) + pieces[i]
  {
    assert pieces[..i + 1][..i] == pieces[..i];
  }

  lemma RunExtends(worlds: seq<World>, ops: seq<Op>, op: Op, w': World, digest: string -> Sha)
    requires Run(worlds, ops, digest) && Step(worlds[|ops|], op, w', digest)
    ensures Run(worlds + [w'], ops + [op], digest)
  {
    forall i | 0 <= i < |ops| + 1
      ensures Step((worlds + [w'])[i], (ops + [op])[i], (worlds + [w'])[i + 1], digest)
    {
      assert i < |ops| ==> Step(worlds[i], ops[i], worlds[i + 1], digest);
    }
  }

  class Updater {
    const digest: string -> Sha
    var dirs: map<Name, Dir>
    var pointer: Option<Doc>
    var temps: map<nat, Doc>
    var nextUuid: nat
    var verified: Option<Manifest>
    var updating: bool
    ghost var worlds: seq<World>
    ghost var ops: seq<Op>

    ghost predicate Traced()
      reads this
    {
      Run(worlds, ops, digest) && Init(worlds[0])
    }

    ghost function Now(): World
      reads this
      requires |worlds| > 0
    {
      worlds[|worlds| - 1]
    }

    /** The fields are those of the run's last state, and the update has come as far as `job`. */
    ghost predicate At(job: Job)
      reads this
    {
      && Traced() && updating == !job.Idle?
      && Now() == World(dirs, pointer, temps, nextUuid, job, Calm, verified, Now().signed)
    }

    /** Between two calls: nothing in flight, or an update suspended at one of its awaits. */
    ghost predicate Valid()
      reads this
    {
      Traced() && At(Now().job)
    }

    constructor (digest: string -> Sha, found: map<Name, Dir>, nextUuid: nat)
      requires forall e :: e in found && e.Staging? ==> e.uuid < nextUuid
      ensures At(Idle) && dirs == found && pointer.None? && verified.None? && this.digest == digest && ops == []
    {
      this.digest := digest;
      dirs, pointer, temps, this.nextUuid, verified, updating := found, None, map[], nextUuid, None, false;
      worlds, ops := [World(found, None, map[], nextUuid, Idle, Calm, None, [])], [];
    }

    ghost method Note(op: Op)
      requires Traced() && Enabled(Now(), op, digest)
      modifies this`worlds, this`ops
      ensures Traced()
      ensures Now() == Apply(old(Now()), op, digest) && old(worlds) <= worlds
    {
      RunExtends(worlds, ops, op, Apply(Now(), op, digest), digest);
      worlds := worlds + [Apply(Now(), op, digest)];
      ops := ops + [op];
    }

    /** `writeMeta`: a new temporary file, then a rename over the version file; the temporary file goes either way if it
        can be removed. */
    method WriteMeta(meta: Meta, after: Option<Manifest>, fault: WriteFault) returns (ok: bool)
      requires At(Saving(meta, after))
      modifies this
      ensures old(worlds) <= worlds
      ensures ok <==> fault.NoFault?
      ensures At(if ok && after.Some? then Confirming(after.value) else Idle)
      ensures pointer == if ok then Some(Whole(meta)) else old(pointer)
      ensures dirs == old(dirs) && verified == old(verified)
      ensures forall t :: t in temps && t !in old(temps) ==> (fault.FillFails? || fault.RenameFails?) && !fault.removed
      ensures Now().signed == old(Now().signed)
    {
      if fault.OpenFails? {
        AbandonSaving(meta, after);
        return false;
      }
      var temp := OpenTempFile(meta, after);
      if fault.FillFails? {
        DropTempFile(temp, fault.removed);
        return false;
      }
      FillTempFile(meta, temp, after);
      if fault.RenameFails? {
        DropTempFile(temp, fault.removed);
        return false;
      }
      RenameTempFile(meta, temp, after);
      return true;
    }

    method AbandonSaving(ghost meta: Meta, ghost after: Option<Manifest>)
      requires At(Saving(meta, after))
      modifies this
      ensures old(worlds) <= worlds
      ensures At(Idle) && temps == old(temps)
      ensures dirs == old(dirs) && pointer == old(pointer) && verified == old(verified) && Now().signed == old(Now().signed)
    {
      updating := false;
      Note(GiveUp(false));
    }

    method RenameTempFile(ghost meta: Meta, temp: nat, after: Option<Manifest>)
      requires At(Renaming(meta, temp, after)) && temp in temps
      modifies this
      ensures old(worlds) <= worlds
      ensures At(if after.Some? then Confirming(after.value) else Idle)
      ensures pointer == Some(old(temps)[temp]) && temps == old(temps) - {temp}
      ensures dirs == old(dirs) && verified == old(verified) && Now().signed == old(Now().signed)
    {
      pointer, temps, updating := Some(temps[temp]), temps - {temp}, after.Some?;
      Note(RenameTemp);
    }

    method OpenTempFile(meta: Meta, ghost after: Option<Manifest>) returns (temp: nat)
      requires At(Saving(meta, after))
      modifies this
      ensures old(worlds) <= worlds
      ensures At(Filling(meta, temp, after)) && temps == old(temps)[temp := Torn]
      ensures dirs == old(dirs) && pointer == old(pointer) && verified == old(verified) && Now().signed == old(Now().signed)
    {
      temp := nextUuid;
      temps, nextUuid := temps[temp := Torn], nextUuid + 1;
      Note(OpenTemp);
    }

    method FillTempFile(meta: Meta, temp: nat, ghost after: Option<Manifest>)
      requires At(Filling(meta, temp, after))
      modifies this
      ensures old(worlds) <= worlds
      ensures At(Renaming(meta, temp, after)) && temps == old(temps)[temp := Whole(meta)]
      ensures dirs == old(dirs) && pointer == old(pointer) && verified == old(verified) && Now().signed == old(Now().signed)
    {
      temps := temps[temp := Whole(meta)];
      Note(FillTemp);
    }

    /** The write failed: the update ends, and the temporary file is cleaned up. */
    method DropTempFile(temp: nat, removed: bool)
      requires Valid() && (Now().job.Filling? || Now().job.Renaming?) && Now().job.uuid == temp
      modifies this
      ensures old(worlds) <= worlds
      ensures At(Idle) && temps == if removed then old(temps) - {temp} else old(temps)
      ensures dirs == old(dirs) && pointer == old(pointer) && verified == old(verified) && Now().signed == old(Now().signed)
    {
      temps, updating := if removed then temps - {temp} else temps, false;
      Note(GiveUp(removed));
    }

    /** `rmSync` on each entry in turn: its contents go first, so a crash can leave an empty directory behind. */
    method RemoveEntries(victims: seq<Name>, stuck: set<Name>)
      requires At(Sweeping(victims))
      modifies this
      ensures old(worlds) <= worlds
      ensures At(Idle)
      ensures dirs == old(dirs) - (set v | v in victims && v !in stuck)
      ensures pointer == old(pointer) && verified == old(verified) && Now().signed == old(Now().signed)
    {
      var i := 0;
      while i < |victims|
        invariant 0 <= i <= |victims| && At(Sweeping(victims[i..]))
        invariant dirs == old(dirs) - (set v | v in victims[..i] && v !in stuck)
        invariant pointer == old(pointer) && verified == old(verified) && Now().signed == old(Now().signed)
        invariant old(worlds) <= worlds
      {
        var v := victims[i];
        assert victims[i..][0] == v && victims[i..][1..] == victims[i + 1..];
        assert victims[..i + 1] == victims[..i] + [v];
        if v in stuck { Note(Skip); } else { RemoveEntry(v, victims[i..]); }
        i := i + 1;
      }
      assert victims[i..] == [] && victims[..i] == victims;
      updating := false;
      Note(EndSweep);
    }

    method RemoveEntry(v: Name, ghost victims: seq<Name>)
      requires At(Sweeping(victims)) && victims != [] && victims[0] == v
      modifies this
      ensures old(worlds) <= worlds
      ensures At(Sweeping(victims[1..])) && dirs == old(dirs) - {v}
      ensures pointer == old(pointer) && verified == old(verified) && Now().signed == old(Now().signed)
    {
      if v in dirs {
        dirs := dirs[v := dirs[v].(exe := None)];
        Note(Tear);
      }
      dirs := dirs - {v};
      Note(Remove);
      assert dirs == old(dirs) - {v};
    }

    /** `pruneOldVersions`: staging directories, and all but the newest of the versions that are not active. */
    method PruneOldVersions(keep: int, stuck: set<Name>) returns (ghost entries: seq<Name>)
      requires At(Idle) || At(Tidying)
      modifies this
      ensures old(worlds) <= worlds
      ensures At(Idle) && Lists(entries, old(dirs))
      ensures dirs == old(dirs) - (set v | v in Victims(entries, old(dirs), ActiveDir(pointer), keep) && v !in stuck)
      ensures pointer == old(pointer) && verified == old(verified) && Now().signed == old(Now().signed)
    {
      var listing := Enumerate(dirs.Keys);
      var victims := Victims(listing, dirs, ActiveDir(pointer), keep);
      entries := listing;
      updating := true;
      Note(BeginSweep(entries, keep));
      RemoveEntries(victims, stuck);
    }

    /** `downloadExecutable`: the body goes to the staging directory piece by piece and is judged at the end. */
    method DownloadExecutable(m: Manifest, uuid: nat, env: Env) returns (ok: bool)
      requires At(Downloading(m, uuid)) && Staging(DirName(m), uuid) in dirs && dirs[Staging(DirName(m), uuid)].exe.None?
      modifies this
      ensures old(worlds) <= worlds
      ensures ok <==> Acceptable(env, m, digest)
      ensures At(if ok then Promoting(m, uuid) else Downloading(m, uuid))
      ensures exists d :: dirs == old(dirs)[Staging(DirName(m), uuid) := d] && (ok ==> d.exe == Some(Joined(env.pieces)))
      ensures pointer == old(pointer) && verified == old(verified) && Now().signed == old(Now().signed)
    {
      ghost var before := dirs;
      var fits, body := ReceiveBody(m, uuid, env);
      assert dirs == before[Staging(DirName(m), uuid) := Dir(Some(body), env.mtime)];
      if !fits { return false; }
      ok := JudgeDownload(m, uuid, body, env);
    }

    /** The pieces in turn, as long as they fit the limit and the announced size. */
    method ReceiveBody(m: Manifest, uuid: nat, env: Env) returns (fits: bool, body: string)
      requires At(Downloading(m, uuid)) && Staging(DirName(m), uuid) in dirs && dirs[Staging(DirName(m), uuid)].exe.None?
      modifies this
      ensures old(worlds) <= worlds && At(Downloading(m, uuid))
      ensures fits <==> !TooLong(|Joined(env.pieces)|, m)
      ensures fits ==> body == Joined(env.pieces)
      ensures dirs == old(dirs)[Staging(DirName(m), uuid) := Dir(Some(body), env.mtime)]
      ensures pointer == old(pointer) && verified == old(verified) && Now().signed == old(Now().signed)
    {
      var name := Staging(DirName(m), uuid);
      WritePiece(m, uuid, "", "", env.mtime);
      var i := 0;
      body := "";
      while i < |env.pieces|
        invariant 0 <= i <= |env.pieces| && body == Joined(env.pieces[..i]) && !TooLong(|body|, m)
        invariant dirs == old(dirs)[name := Dir(Some(body), env.mtime)] && At(Downloading(m, uuid))
        invariant pointer == old(pointer) && verified == old(verified) && Now().signed == old(Now().signed)
        invariant old(worlds) <= worlds
      {
        JoinedStep(env.pieces, i);
        if TooLong(|body + env.pieces[i]|, m) {
          JoinedGrows(env.pieces, i + 1);
          return false, body;
        }
        WritePiece(m, uuid, body, env.pieces[i], env.mtime);
        body := body + env.pieces[i];
        i := i + 1;
      }
      assert env.pieces[..i] == env.pieces;
      fits := true;
    }

    /** The size and the digest, once the file is closed. */
    method JudgeDownload(m: Manifest, uuid: nat, body: string, env: Env) returns (ok: bool)
      requires At(Downloading(m, uuid)) && Staging(DirName(m), uuid) in dirs
      requires dirs[Staging(DirName(m), uuid)].exe == Some(body)
      modifies this
      ensures old(worlds) <= worlds
      ensures ok <==> !env.broken && (m.bytes.Some? ==> |body| == m.bytes.value) && |body| > 0 && digest(body) == m.sha
      ensures At(if ok then Promoting(m, uuid) else Downloading(m, uuid))
      ensures dirs == old(dirs) && pointer == old(pointer) && verified == old(verified) && Now().signed == old(Now().signed)
    {
      ok := !env.broken && (m.bytes.Some? ==> |body| == m.bytes.value) && |body| > 0 && digest(body) == m.sha;
      if ok { Note(Downloaded); }
    }

    /** One more piece in the staged file, which already holds `body`. */
    method WritePiece(m: Manifest, uuid: nat, body: string, piece: string, mtime: int)
      requires At(Downloading(m, uuid)) && Staging(DirName(m), uuid) in dirs
      requires dirs[Staging(DirName(m), uuid)].exe == Some(body) || (body == "" && dirs[Staging(DirName(m), uuid)].exe.None?)
      modifies this
      ensures old(worlds) <= worlds
      ensures At(Downloading(m, uuid)) && dirs == old(dirs)[Staging(DirName(m), uuid) := Dir(Some(body + piece), mtime)]
      ensures pointer == old(pointer) && verified == old(verified) && Now().signed == old(Now().signed)
    {
      dirs := dirs[Staging(DirName(m), uuid) := Dir(Some(body + piece), mtime)];
      Note(Receive(piece, mtime));
    }

    /** `promoteStagedDirectory`: never over an existing version, and again after a sharing violation. */
    method PromoteStagedDirectory(m: Manifest, uuid: nat, env: Env) returns (ok: bool)
      requires At(Promoting(m, uuid)) && Staging(DirName(m), uuid) in dirs
      modifies this
      ensures old(worlds) <= worlds
      ensures ok <==> Release(DirName(m)) !in old(dirs) && GoesThrough(env.renames)
      ensures At(if ok then Activation(m, env.now) else Promoting(m, uuid))
      ensures var (from, to) := (Staging(DirName(m), uuid), Release(DirName(m)));
        dirs == if ok then (old(dirs) - {from})[to := old(dirs)[from]] else old(dirs)
      ensures pointer == old(pointer) && verified == old(verified) && Now().signed == old(Now().signed)
    {
      var (from, to) := (Staging(DirName(m), uuid), Release(DirName(m)));
      var attempt := 0;
      while true
        invariant 0 <= attempt <= RENAME_RETRIES
        invariant forall j: nat :: j < attempt ==> env.renames(j).Sharing?
        invariant dirs == old(dirs) && At(Promoting(m, uuid))
        invariant pointer == old(pointer) && verified == old(verified) && Now().signed == old(Now().signed)
        invariant old(worlds) <= worlds
        decreases RENAME_RETRIES - attempt
      {
        if to in dirs { return false; }
        match env.renames(attempt) {
          case Renamed =>
            dirs := (dirs - {from})[to := dirs[from]];
            Note(Promote(env.now));
            return true;
          case Failed => return false;
          case Sharing =>
            if attempt >= RENAME_RETRIES { return false; }
            attempt := attempt + 1;
        }
      }
    }

    /** The directory comes into place, or is already there with the right contents. */
    method PlaceVersion(m: Manifest, env: Env) returns (ok: bool)
      requires At(Starting(m))
      modifies this
      ensures old(worlds) <= worlds
      ensures ok <==> Installable(env, m, old(dirs), digest)
      ensures At(if ok then Activation(m, env.now) else Idle)
      ensures ok ==> Pinned(dirs, m, digest)
      ensures KeepsReleases(old(dirs), dirs)
      ensures forall e :: e in dirs && e.Release? && e !in old(dirs) ==> e == Release(DirName(m)) && ok
      ensures pointer == old(pointer) && verified == old(verified) && Now().signed == old(Now().signed)
    {
      if Release(DirName(m)) in dirs {
        ok := Matches(dirs, m, digest);
        updating := ok;
        Note(Start(env.now, env.mtime));
        return;
      }
      var uuid := MakeStaging(m, env);
      ok := DownloadExecutable(m, uuid, env);
      if ok { ok := PromoteStagedDirectory(m, uuid, env); }
      if !ok { DropStaging(m, uuid, env); }
    }

    method MakeStaging(m: Manifest, env: Env) returns (uuid: nat)
      requires At(Starting(m)) && Release(DirName(m)) !in dirs
      modifies this
      ensures old(worlds) <= worlds
      ensures At(Downloading(m, uuid)) && dirs == old(dirs)[Staging(DirName(m), uuid) := Dir(None, env.mtime)]
      ensures pointer == old(pointer) && verified == old(verified) && Now().signed == old(Now().signed)
    {
      uuid := nextUuid;
      dirs, nextUuid := dirs[Staging(DirName(m), uuid) := Dir(None, env.mtime)], nextUuid + 1;
      Note(Start(env.now, env.mtime));
    }

    /** The `finally` of a failed installation. */
    method DropStaging(m: Manifest, uuid: nat, env: Env)
      requires At(Downloading(m, uuid)) || At(Promoting(m, uuid))
      modifies this
      ensures old(worlds) <= worlds
      ensures At(Idle) && KeepsReleases(old(dirs), dirs) && dirs.Keys <= old(dirs).Keys
      ensures pointer == old(pointer) && verified == old(verified) && Now().signed == old(Now().signed)
    {
      Note(Abort);
      RemoveEntries([Staging(DirName(m), uuid)], env.stuck);
    }

    /** `installVersion`. */
    method InstallVersion(m: Manifest, env: Env) returns (ok: bool)
      requires At(Starting(m))
      modifies this
      ensures old(worlds) <= worlds
      ensures ok <==> Installable(env, m, old(dirs), digest) && env.fault.NoFault?
      ensures At(if ok then Confirming(m) else Idle)
      ensures pointer == if ok then Some(Whole(Meta(Some(ActiveOf(m)), env.now, env.now))) else old(pointer)
      ensures ok ==> Pinned(dirs, m, digest)
      ensures KeepsReleases(old(dirs), dirs)
      ensures forall e :: e in dirs && e.Release? && e !in old(dirs) ==> e == Release(DirName(m))
      ensures verified == old(verified) && Now().signed == old(Now().signed)
    {
      ok := PlaceVersion(m, env);
      if ok { ok := WriteMeta(Meta(Some(ActiveOf(m)), env.now, env.now), Some(m), env.fault); }
    }

    /** `checkAndUpdate`. An update that does not happen leaves the active version and every directory of a version as
        they were; one that does leaves the pinned executable active, verified and spared by the prune. */
    method CheckAndUpdate(force: bool, env: Env)
      returns (r: UpdateResult, ghost installed: map<Name, Dir>, ghost entries: seq<Name>)
      requires Valid()
      modifies this
      ensures old(worlds) <= worlds
      ensures r.Busy? <==> old(updating)
      ensures if old(updating) then At(old(Now().job)) else At(Idle)
      ensures r.Updated? <==>
        && !old(updating) && Wanted(env, force, old(dirs), old(pointer), old(verified), digest)
        && Installable(env, env.manifest.value, old(dirs), digest) && env.fault.NoFault?
      ensures r.Updated? ==>
        && env.manifest == Some(r.to) && r.previous == NamedIn(old(pointer))
        && pointer == Some(Whole(Meta(Some(Active(r.to.version, r.to.version + "--" + r.to.sha[..12])), env.now, env.now)))
        && verified == Some(r.to) && Pinned(dirs, r.to, digest)
      ensures r.Updated? ==>
        && KeepsReleases(old(dirs), installed) && Lists(entries, installed)
        && dirs == installed - (set v | v in Victims(entries, installed, Some(DirName(r.to)), 2) && v !in env.stuck)
      ensures !r.Updated? ==> NamedIn(pointer) == NamedIn(old(pointer)) && KeepsReleases(old(dirs), dirs)
    {
      installed, entries := dirs, [];
      if updating { return Busy, installed, entries; }
      var previous := Known(pointer);
      if !force && Fresh(dirs, verified, pointer, env.now) { return NotNeeded, installed, entries; }
      var m := FetchLatest(force, env);
      if m.None? { return Refused, installed, entries; }
      if env.tooOld {
        var _ := WriteMeta(previous.(lastCheck := env.now), None, env.fault);
        return Refused, installed, entries;
      }
      if !force && previous.active == Some(ActiveOf(m.value)) {
        var current := CheckAgain(previous, m.value, env);
        if current {
          var saved := WriteMeta(previous.(lastCheck := env.now), None, env.fault);
          return if saved then NotNeeded else Refused, installed, entries;
        }
      }
      var ok;
      ok, installed, entries := InstallAndSettle(m.value, env);
      return if ok then Updated(previous.active, m.value) else Refused, installed, entries;
    }

    /** The rest of an update that is wanted: install, verify, prune. */
    method InstallAndSettle(m: Manifest, env: Env) returns (ok: bool, ghost installed: map<Name, Dir>, ghost entries: seq<Name>)
      requires At(Starting(m))
      modifies this
      ensures old(worlds) <= worlds && At(Idle)
      ensures ok <==> Installable(env, m, old(dirs), digest) && env.fault.NoFault?
      ensures pointer == if ok then Some(Whole(Meta(Some(ActiveOf(m)), env.now, env.now))) else old(pointer)
      ensures ok ==> verified == Some(m) && Pinned(dirs, m, digest) && KeepsReleases(old(dirs), installed) && Lists(entries, installed)
      ensures ok ==> dirs == installed - (set v | v in Victims(entries, installed, Some(DirName(m)), 2) && v !in env.stuck)
      ensures !ok ==> KeepsReleases(old(dirs), dirs)
    {
      installed, entries := dirs, [];
      ok := InstallVersion(m, env);
      if ok {
        installed := dirs;
        entries := Settle(m, env);
      }
    }

    /** The start of an update, up to the signed manifest. */
    method FetchLatest(force: bool, env: Env) returns (m: Option<Manifest>)
      requires At(Idle) && (force || !Fresh(dirs, verified, pointer, env.now))
      modifies this
      ensures old(worlds) <= worlds
      ensures m == env.manifest && dirs == old(dirs) && pointer == old(pointer)
      ensures m.None? ==> At(Idle) && verified == old(verified)
      ensures m.Some? ==> verified.None? && At(
        if env.tooOld then Saving(Known(pointer).(lastCheck := env.now), None)
        else if !force && Known(pointer).active == Some(ActiveOf(m.value)) then Rechecking(Known(pointer), m.value)
        else Starting(m.value))
    {
      updating := true;
      Note(Begin(force, env.now));
      m := env.manifest;
      if m.None? {
        updating := false;
        Note(GiveUp(false));
      } else {
        verified := None;
        Note(Fetch(m.value, env.tooOld, env.now));
      }
    }

    /** `verifyManagedRuntime` before an update: is the active version already the pinned one? */
    method CheckAgain(previous: Meta, m: Manifest, env: Env) returns (current: bool)
      requires At(Rechecking(previous, m)) && verified.None?
      modifies this
      ensures old(worlds) <= worlds
      ensures current <==> Pinned(dirs, m, digest)
      ensures At(if current then Saving(previous.(lastCheck := env.now), None) else Starting(m))
      ensures dirs == old(dirs) && pointer == old(pointer) && verified == if current then Some(m) else None
    {
      current := Matches(dirs, m, digest);
      if current { verified := Some(m); }
      Note(Recheck(env.now));
    }

    /** After an installation: verify the version that the version file names, then prune. */
    method Settle(m: Manifest, env: Env) returns (ghost entries: seq<Name>)
      requires At(Confirming(m)) && Known(pointer).active == Some(ActiveOf(m)) && Matches(dirs, m, digest)
      modifies this
      ensures old(worlds) <= worlds
      ensures At(Idle) && pointer == old(pointer) && verified == Some(m) && Lists(entries, old(dirs))
      ensures dirs == old(dirs) - (set v | v in Victims(entries, old(dirs), Some(DirName(m)), 2) && v !in env.stuck)
      ensures Pinned(dirs, m, digest)
    {
      verified := Some(m);
      Note(Confirm);
      entries := PruneOldVersions(2, env.stuck);
      VictimsSpareActive(entries, old(dirs), Some(DirName(m)), 2);
    }

    /** `recoverFromMissingBinary`, at any time: clear the version file, then force an update unless one is in flight. */
    method RecoverFromMissingBinary(clearing: WriteFault, env: Env)
      returns (r: UpdateResult, ghost installed: map<Name, Dir>, ghost entries: seq<Name>)
      requires Valid()
      modifies this
      ensures old(worlds) <= worlds
      ensures if old(updating) then At(old(Now().job)) else At(Idle)
      ensures !r.Updated? ==> KeepsReleases(old(dirs), dirs)
      ensures !clearing.NoFault? ==> pointer == old(pointer) && verified.None? && r.Refused?
      ensures clearing.NoFault? ==> (r.Busy? <==> old(updating))
      ensures clearing.NoFault? && !r.Updated? ==> NamedIn(pointer).None?
      ensures r.Updated? <==>
        && clearing.NoFault? && !old(updating) && env.manifest.Some? && !env.tooOld
        && Installable(env, env.manifest.value, old(dirs), digest) && env.fault.NoFault?
      ensures r.Updated? ==>
        env.manifest == Some(r.to) && Known(pointer).active == Some(ActiveOf(r.to)) && Matches(dirs, r.to, digest)
    {
      installed, entries := dirs, [];
      var ok := ClearPointer(clearing);
      if !ok { return Refused, installed, entries; }
      r, installed, entries := CheckAndUpdate(true, env);
    }

    /** Like `At`, in the middle of a recovery. */
    ghost predicate During(job: Job, recovery: Recovery)
      reads this
    {
      && Traced() && updating == !job.Idle?
      && Now() == World(dirs, pointer, temps, nextUuid, job, recovery, verified, Now().signed)
    }

    method ClearPointer(fault: WriteFault) returns (ok: bool)
      requires Valid()
      modifies this
      ensures old(worlds) <= worlds
      ensures ok <==> fault.NoFault?
      ensures At(old(Now().job)) && dirs == old(dirs) && verified.None?
      ensures pointer == if ok then Some(Whole(Known(old(pointer)).(active := None))) else old(pointer)
    {
      ghost var job := Now().job;
      Forget(job);
      if fault.OpenFails? { return false; }
      var begun := OpenClearing(job);
      var (meta, temp) := begun;
      if fault.FillFails? {
        DropClearing(job, temp, fault.removed);
        return false;
      }
      FillClearing(job, meta, temp);
      if fault.RenameFails? {
        DropClearing(job, temp, fault.removed);
        return false;
      }
      RenameClearing(job, meta, temp);
      return true;
    }

    method Forget(ghost job: Job)
      requires At(job)
      modifies this
      ensures old(worlds) <= worlds
      ensures At(job) && dirs == old(dirs) && pointer == old(pointer) && verified.None?
    {
      verified := None;
      Note(RecoverForget);
    }

    method DropClearing(ghost job: Job, temp: nat, removed: bool)
      requires Traced() && During(job, Now().recovery) && !Now().recovery.Calm? && Now().recovery.uuid == temp
      modifies this
      ensures old(worlds) <= worlds
      ensures At(job) && temps == if removed then old(temps) - {temp} else old(temps)
      ensures dirs == old(dirs) && pointer == old(pointer) && verified == old(verified)
    {
      if removed { temps := temps - {temp}; }
      Note(RecoverFail(removed));
    }

    method RenameClearing(ghost job: Job, ghost meta: Meta, temp: nat)
      requires During(job, Cleared(meta, temp)) && temp in temps
      modifies this
      ensures old(worlds) <= worlds
      ensures At(job) && pointer == Some(old(temps)[temp]) && temps == old(temps) - {temp}
      ensures dirs == old(dirs) && verified == old(verified)
    {
      pointer, temps := Some(temps[temp]), temps - {temp};
      Note(RecoverRename);
    }

    method OpenClearing(ghost job: Job) returns (r: (Meta, nat))
      requires Traced() && verified.None? && At(job)
      modifies this
      ensures old(worlds) <= worlds
      ensures r.0 == Known(pointer).(active := None) && During(job, Clearing(r.0, r.1)) && temps == old(temps)[r.1 := Torn]
      ensures dirs == old(dirs) && pointer == old(pointer) && verified.None?
    {
      r := (Known(pointer).(active := None), nextUuid);
      temps, nextUuid := temps[nextUuid := Torn], nextUuid + 1;
      Note(RecoverOpen);
    }

    method FillClearing(ghost job: Job, meta: Meta, temp: nat)
      requires During(job, Clearing(meta, temp)) && verified.None?
      modifies this
      ensures old(worlds) <= worlds
      ensures During(job, Cleared(meta, temp)) && temps == old(temps)[temp := Whole(meta)]
      ensures dirs == old(dirs) && pointer == old(pointer) && verified.None?
    {
      temps := temps[temp := Whole(meta)];
      Note(RecoverFill);
    }
  }
}
