/** The worker's client: caching results it could not send, and the replay pass that sends them later.
    Each method records the operations it performs, so every point at which it could crash is a point of a run. */
module CloudClient {
  import opened Options
  import opened Text
  import opened Json
  import opened QueueNames
  import opened QueueRecord
  import opened OfflineQueue
  import opened Replay

  class CloudClient {
    var files: map<Loc, File>
    var inodes: nat
    ghost var worlds: seq<World>
    ghost var ops: seq<Op>

    ghost predicate Traced()
      reads this
    {
      Run(worlds, ops) && Init(worlds[0])
    }

    ghost function Now(): World
      reads this
      requires |worlds| > 0
    {
      worlds[|worlds| - 1]
    }

    ghost predicate Valid()
      reads this
    {
      Traced() && Now().files == files && Now().nextId == inodes && Now().writer.None?
    }

    constructor ()
      ensures Valid() && files == map[] && ops == []
    {
      files, inodes := map[], 0;
      worlds := [World(map[], None, 0, map[], {}, [])];
      ops := [];
    }

    ghost method Note(op: Op)
      requires Traced() && Enabled(Now(), op)
      modifies this`worlds, this`ops
      ensures Traced()
      ensures ops == old(ops) + [op]
      ensures worlds == old(worlds) + [Apply(old(Now()), op)]
    {
      RunExtends(worlds, ops, op, Apply(Now(), op));
      worlds := worlds + [Apply(Now(), op)];
      ops := ops + [op];
    }

    /** `os.rename` of a queue entry to its claim name, after the checks that nothing is there already. */
    method ClaimEntry(n: string)
      requires Valid() && Queued(n) in files && Claimed(n) !in files
      modifies this
      ensures Valid() && files == Rename(old(files), Queued(n), Claimed(n))
      ensures ops == old(ops) + [Claim(n)] && worlds == old(worlds) + [Now()]
      ensures Now().delivered == old(Now().delivered)
    {
      files := Rename(files, Queued(n), Claimed(n));
      Note(Claim(n));
    }

    method ReturnClaim(n: string)
      requires Valid() && Claimed(n) in files && Queued(n) !in files
      modifies this
      ensures Valid() && files == Rename(old(files), Claimed(n), Queued(n))
      ensures ops == old(ops) + [Return(n)] && worlds == old(worlds) + [Now()]
      ensures Now().delivered == old(Now().delivered)
    {
      files := Rename(files, Claimed(n), Queued(n));
      Note(Return(n));
    }

    method RejectClaim(n: string)
      requires Valid() && Claimed(n) in files && Rejected(n) !in files
      modifies this
      ensures Valid() && files == Rename(old(files), Claimed(n), Rejected(n))
      ensures ops == old(ops) + [Reject(n)] && worlds == old(worlds) + [Now()]
      ensures Now().delivered == old(Now().delivered)
    {
      files := Rename(files, Claimed(n), Rejected(n));
      Note(Reject(n));
    }

    /** The server's acceptance of the claimed record. */
    method AcceptClaim(n: string)
      requires Valid() && Claimed(n) in files && Decode(files[Claimed(n)].text).Some?
      modifies this
      ensures Valid() && files == old(files)
      ensures var d := Delivery(n, old(files)[Claimed(n)].id, Decode(old(files)[Claimed(n)].text).value);
        ops == old(ops) + [Accept(n, d.record)] && Now().delivered == old(Now().delivered) + [d]
      ensures worlds == old(worlds) + [Now()]
      ensures Accepted(Now(), files[Claimed(n)].id)
    {
      ghost var w := Now();
      Note(Accept(n, Decode(files[Claimed(n)].text).value));
      assert Now().delivered[|w.delivered|].id == files[Claimed(n)].id;
    }

    method RemoveClaim(n: string)
      requires Valid() && Claimed(n) in files && Accepted(Now(), files[Claimed(n)].id)
      modifies this
      ensures Valid() && files == old(files) - {Claimed(n)}
      ensures ops == old(ops) + [Remove(n)] && worlds == old(worlds) + [Now()] && Now().delivered == old(Now().delivered)
    {
      files := files - {Claimed(n)};
      Note(Remove(n));
    }

    /** A successful answer, then `safe_unlink`: in that order, so a crash or a failure between them can only send again. */
    method DeliverClaim(n: string, late: Late) returns (next: Next)
      requires Valid() && Claimed(n) in files && Decode(files[Claimed(n)].text).Some?
      modifies this
      ensures Valid()
      ensures next == if late.Fine? then Go else Raise
      ensures files == if late.NotDone? then old(files) else old(files) - {Claimed(n)}
      ensures Now().delivered == old(Now().delivered)
        + [Delivery(n, old(files)[Claimed(n)].id, Decode(old(files)[Claimed(n)].text).value)]
      ensures old(ops) <= ops && old(worlds) <= worlds
      ensures forall k :: |old(ops)| <= k < |ops| && ops[k].Accept? ==> ops[k].name == n && worlds[k].files == old(files)
    {
      AcceptClaim(n);
      if late.NotDone? { return Raise; }
      RemoveClaim(n);
      return if late.Fine? then Go else Raise;
    }

    /** One orphan claim of an earlier, interrupted pass. */
    method RecoverOne(n: string, env: Env)
      requires Valid() && Claimed(n) in files
      modifies this
      ensures Valid()
      ensures SlotOf(files, n) == RecoverSlot(SlotOf(old(files), n), Claimed(n) in env.refused)
      ensures forall l: Loc :: l.name != n ==> Look(files, l) == Look(old(files), l)
      ensures old(ops) <= ops && old(worlds) <= worlds
      ensures Now().delivered == old(Now().delivered)
      ensures forall k :: |old(ops)| <= k < |ops| ==> !ops[k].Accept?
    {
      if Claimed(n) in env.refused {
      } else if Queued(n) !in files {
        ReturnClaim(n);
      } else if Rejected(n) !in files {
        RejectClaim(n);
      }
    }

    /** `_recover_orphan_claims`: all of them, in name order. */
    method RecoverOrphanClaims(env: Env)
      requires Valid()
      modifies this
      ensures Valid()
      ensures forall n :: SlotOf(files, n) == RecoverSlot(SlotOf(old(files), n), Claimed(n) in env.refused)
      ensures old(ops) <= ops && old(worlds) <= worlds
      ensures Now().delivered == old(Now().delivered)
      ensures forall k :: |old(ops)| <= k < |ops| ==> !ops[k].Accept?
    {
      StemsRun(worlds, ops, |ops|);
      var claims := OrphanClaims(files);
      var i := 0;
      while i < |claims|
        invariant 0 <= i <= |claims| && Valid()
        invariant PartlyRecovered(old(files), files, claims[..i], env)
        invariant old(ops) <= ops && old(worlds) <= worlds
        invariant Now().delivered == old(Now().delivered)
        invariant forall k :: |old(ops)| <= k < |ops| ==> !ops[k].Accept?
      {
        var n := claims[i];
        IncreasingSplit(claims, i, n);
        LexIrreflexive(n);
        assert SlotOf(files, n) == SlotOf(old(files), n);
        ghost var mid := files;
        RecoverOne(n, env);
        RecoverNext(old(files), mid, files, claims, i, env);
        i := i + 1;
      }
      assert claims[..i] == claims;
    }

    /** A claimed file: read it, send it, and act on the answer. */
    method SettleClaim(n: string, env: Env) returns (next: Next, sent: bool)
      requires Valid() && Claimed(n) in files && Queued(n) !in files
      modifies this
      ensures Valid()
      ensures (SlotOf(files, n), next) == SettleClaimed(old(files)[Claimed(n)], Look(old(files), Rejected(n)), n, env)
      ensures forall l: Loc :: l.name != n ==> Look(files, l) == Look(old(files), l)
      ensures var f := old(files)[Claimed(n)];
        && sent == (Sendable(f, n, env) && Result(env.replies(n), 2).Success?)
        && Now().delivered == old(Now().delivered) + (if sent then [Delivery(n, f.id, Decode(f.text).value)] else [])
      ensures old(ops) <= ops && old(worlds) <= worlds
      ensures forall k :: |old(ops)| <= k < |ops| && ops[k].Accept? ==>
        ops[k].name == n && worlds[k].files == old(files)
    {
      if n in env.unreadable || Decode(files[Claimed(n)].text).None? {
        next := RejectEntry(n, env.late(n));
        return next, false;
      }
      next, sent := SendClaim(n, env);
    }

    /** A readable claim: send it, and act on the answer. */
    method SendClaim(n: string, env: Env) returns (next: Next, sent: bool)
      requires Valid() && Claimed(n) in files && Queued(n) !in files
      requires Sendable(files[Claimed(n)], n, env)
      modifies this
      ensures Valid()
      ensures (SlotOf(files, n), next) == SettleClaimed(old(files)[Claimed(n)], Look(old(files), Rejected(n)), n, env)
      ensures forall l: Loc :: l.name != n ==> Look(files, l) == Look(old(files), l)
      ensures sent == Result(env.replies(n), 2).Success?
      ensures var f := old(files)[Claimed(n)];
        Now().delivered == old(Now().delivered) + (if sent then [Delivery(n, f.id, Decode(f.text).value)] else [])
      ensures old(ops) <= ops && old(worlds) <= worlds
      ensures forall k :: |old(ops)| <= k < |ops| && ops[k].Accept? ==>
        ops[k].name == n && worlds[k].files == old(files)
    {
      ghost var before := files;
      var outcome := SendRequest(env.replies(n), 2);
      if outcome.Unreachable? {
        next := ReturnEntry(n, env.late(n));
        sent := false;
      } else if outcome.Success? {
        next := DeliverClaim(n, env.late(n));
        sent := true;
      } else {
        next := RejectEntry(n, env.late(n));
        sent := false;
      }
      ClaimMoved(before, files, n);
    }

    /** One queued entry: claim it, then settle the claim. A claim that was renamed but not synced is left for later. */
    method SettleOne(n: string, env: Env) returns (next: Next, sent: bool)
      requires Valid() && Queued(n) in files
      modifies this
      ensures Valid()
      ensures (SlotOf(files, n), next) == Settle(SlotOf(old(files), n), n, env)
      ensures sent == Delivers(SlotOf(old(files), n), n, env)
      ensures forall l: Loc :: l.name != n ==> Look(files, l) == Look(old(files), l)
      ensures old(ops) <= ops && old(worlds) <= worlds
      ensures Now().delivered == old(Now().delivered) + (
        if sent then [Delivery(n, old(files)[Queued(n)].id, Decode(old(files)[Queued(n)].text).value)] else [])
      ensures forall k :: |old(ops)| <= k < |ops| && ops[k].Accept? ==>
        ops[k].name == n && forall l: Loc :: l.name != n ==> Look(worlds[k].files, l) == Look(old(files), l)
    {
      if Queued(n) in env.refused || Claimed(n) in files { return Go, false; }
      ClaimEntry(n);
      if n in env.unsynced { return Go, false; }
      next, sent := SettleClaim(n, env);
    }

    /** `_reject_claim`; an occupied rejected name raises out of the pass and leaves the claim for the next one. */
    method RejectEntry(n: string, late: Late) returns (next: Next)
      requires Valid() && Claimed(n) in files
      modifies this
      ensures Valid()
      ensures next == if late.Fine? && Rejected(n) !in old(files) then Go else Raise
      ensures files ==
        if late.NotDone? || Rejected(n) in old(files) then old(files) else Rename(old(files), Claimed(n), Rejected(n))
      ensures Now().delivered == old(Now().delivered)
      ensures old(ops) <= ops && old(worlds) <= worlds
      ensures forall k :: |old(ops)| <= k < |ops| ==> !ops[k].Accept?
    {
      if Rejected(n) in files || late.NotDone? { return Raise; }
      RejectClaim(n);
      return if late.Fine? then Go else Raise;
    }

    /** `_return_claim`, after which the pass ends. */
    method ReturnEntry(n: string, late: Late) returns (next: Next)
      requires Valid() && Claimed(n) in files && Queued(n) !in files
      modifies this
      ensures Valid()
      ensures next == if late.Fine? then Stop else Raise
      ensures files == if late.NotDone? then old(files) else Rename(old(files), Claimed(n), Queued(n))
      ensures Now().delivered == old(Now().delivered)
      ensures old(ops) <= ops && old(worlds) <= worlds
      ensures forall k :: |old(ops)| <= k < |ops| ==> !ops[k].Accept?
    {
      if late.NotDone? { return Raise; }
      ReturnClaim(n);
      return if late.Fine? then Stop else Raise;
    }

    /** The next entry of the listing, in a pass that found the directory as `base`. */
    method SettleNext(names: seq<string>, i: nat, ghost base: map<Loc, File>, ghost from: nat, env: Env)
      returns (next: Next, sent: bool, ghost more: seq<Delivery>)
      requires Valid() && i < |names| && Progress(files, base, names, i, env) && from <= |ops|
      requires Fifo(worlds, ops, from, base, env)
      modifies this
      ensures Valid() && old(ops) <= ops && old(worlds) <= worlds
      ensures next.Go? ==> Progress(files, base, names, i + 1, env)
      ensures !next.Go? ==> Ends(files, base, Some(names[i]), env) && (next.Raise? <==> Raises(base, Some(names[i]), env))
      ensures Now().delivered == old(Now().delivered) + more && |more| == (if sent then 1 else 0)
      ensures DeliveryOf(more, base, names[i], env)
      ensures next.Stop? ==> !sent
      ensures Fifo(worlds, ops, from, base, env)
    {
      var n := names[i];
      DeliverableIs(base, n, env);
      ghost var (before, ws, os) := (files, worlds, ops);
      IncreasingSplit(names, i, n);
      LexIrreflexive(n);
      assert SlotOf(files, n) == SlotOf(base, n);
      ghost var mid := Now().delivered;
      next, sent := SettleOne(n, env);
      more := if sent then [Delivery(n, before[Queued(n)].id, Decode(before[Queued(n)].text).value)] else [];
      FifoExtends(ws, os, worlds, ops, before, base, from, names, i, env);
      if next.Go? {
        ProgressStep(before, files, base, names, i, env);
      } else {
        EndsHere(before, files, base, names, i, env);
        if next.Stop? { StopsUnsent(SlotOf(before, n), n, env); }
      }
    }

    /** The same, keeping account of what the pass has delivered. */
    method SettleAndRecord(names: seq<string>, i: nat, ghost base: map<Loc, File>, ghost from: nat,
                           ghost before: seq<Delivery>, ghost sent: seq<Delivery>, env: Env)
      returns (next: Next, accepted: bool, ghost sent': seq<Delivery>)
      requires Valid() && i < |names| && Progress(files, base, names, i, env) && from <= |ops|
      requires Fifo(worlds, ops, from, base, env)
      requires Now().delivered == before + sent && DeliversOf(sent, base, Members(names[..i]), env)
      modifies this
      ensures Valid() && old(ops) <= ops && old(worlds) <= worlds
      ensures next.Go? ==> Progress(files, base, names, i + 1, env)
      ensures !next.Go? ==> Ends(files, base, Some(names[i]), env) && (next.Raise? <==> Raises(base, Some(names[i]), env))
      ensures next.Stop? ==> !accepted
      ensures Now().delivered == before + sent' && |sent'| == |sent| + (if accepted then 1 else 0)
      ensures DeliversOf(sent', base, Members(names[..i + 1]), env) && DeliversOf(sent', base, Reached(base, Some(names[i])), env)
      ensures Fifo(worlds, ops, from, base, env)
    {
      ghost var more;
      next, accepted, more := SettleNext(names, i, base, from, env);
      sent' := sent + more;
      AccountGrows(before, sent, more, Now().delivered, sent');
      DeliversGrow(sent, more, base, names, i, env);
    }

    /** The queue, in name order, until an answer ends the pass or an exception leaves it. */
    method SettleQueue(env: Env) returns (flushed: Option<nat>, ghost stop: Option<string>, ghost sent: seq<Delivery>)
      requires Valid()
      modifies this
      ensures Valid() && old(ops) <= ops && old(worlds) <= worlds
      ensures Ends(files, old(files), stop, env)
      ensures flushed.None? <==> Raises(old(files), stop, env)
      ensures flushed.Some? ==> |sent| == flushed.value
      ensures Now().delivered == old(Now().delivered) + sent && DeliversOf(sent, old(files), Reached(old(files), stop), env)
      ensures Fifo(worlds, ops, |old(ops)|, old(files), env)
    {
      ghost var (base, from) := (files, |ops|);
      StemsRun(worlds, ops, |ops|);
      var names := QueuedPaths(files);
      ProgressStarts(files, names, env);
      var count: nat := 0;
      var i := 0;
      sent := [];
      while i < |names|
        invariant 0 <= i <= |names| && Valid() && old(ops) <= ops && old(worlds) <= worlds
        invariant Progress(files, base, names, i, env) && Fifo(worlds, ops, from, base, env)
        invariant Now().delivered == old(Now().delivered) + sent && |sent| == count
        invariant DeliversOf(sent, base, Members(names[..i]), env)
      {
        var next, accepted;
        next, accepted, sent := SettleAndRecord(names, i, base, from, old(Now().delivered), sent, env);
        if !next.Go? { return if next.Raise? then None else Some(count), Some(names[i]), sent; }
        count := count + if accepted then 1 else 0;
        i := i + 1;
      }
      EndsComplete(files, base, names, env);
      ReachedAll(base, names);
      return Some(count), None, sent;
    }

    /** `flush_offline`: recover orphan claims, then settle the queue. `recovered` is the directory in between, `sent` what
        the control plane took; the count is missing when an exception left the pass. */
    method FlushOffline(env: Env)
      returns (flushed: Option<nat>, ghost stop: Option<string>, ghost recovered: map<Loc, File>, ghost sent: seq<Delivery>)
      requires Valid()
      modifies this
      ensures Valid() && old(ops) <= ops && old(worlds) <= worlds
      ensures Recovered(old(files), recovered, env)
      ensures Fates(recovered, files, stop, env)
      ensures Now().delivered == old(Now().delivered) + sent && DeliversOf(sent, recovered, Reached(recovered, stop), env)
      ensures flushed == None <==> stop != None && !EndsQuietly(recovered, stop.value, env)
      ensures flushed != None ==> flushed.value == |sent|
      ensures Ends(files, recovered, stop, env)
      ensures FifoByTime(worlds, ops, |old(ops)|, recovered, env)
    {
      RecoverOrphanClaims(env);
      recovered := files;
      RecoveryFates(old(files), recovered, env);
      ghost var from := |ops|;
      flushed, stop, sent := SettleQueue(env);
      AllFates(recovered, files, stop, env);
      RaisesIff(recovered, files, stop, env);
      assert forall k :: |old(ops)| <= k < from ==> !ops[k].Accept?;
      FifoInTime(worlds, ops, |old(ops)|, recovered, env);
    }

    /** `_write_all`: the operating system takes a prefix of what is left, or the write fails. */
    method WriteAll(name: string, text: string, taken: nat -> int) returns (ok: bool)
      requires Traced() && Now().files == files && Now().writer == Some(name) && Writing(Now())
      requires files[Queued(name)].text == "" && Now().asked[files[Queued(name)].id].text == text
      modifies this
      ensures Traced() && Now().files == files && Now().writer == Some(name) && Writing(Now())
      ensures old(ops) <= ops && old(worlds) <= worlds
      ensures inodes == old(inodes) && Now().nextId == old(Now().nextId)
      ensures Now().asked == old(Now().asked) && Now().durable == old(Now().durable)
      ensures var f := files[Queued(name)];
        && files == old(files)[Queued(name) := f]
        && f.id == old(files)[Queued(name)].id
        && f.text <= text && (ok <==> f.text == text)
    {
      var done, calls := 0, 0;
      while done < |text|
        invariant 0 <= done <= |text|
        invariant Traced() && Now().files == files && Now().writer == Some(name) && Writing(Now())
        invariant old(ops) <= ops && old(worlds) <= worlds
        invariant inodes == old(inodes) && Now().nextId == old(Now().nextId)
        invariant Now().asked == old(Now().asked) && Now().durable == old(Now().durable)
        invariant files == old(files)[Queued(name) := File(old(files)[Queued(name)].id, text[..done])]
      {
        var written := if taken(calls) > |text| - done then |text| - done else taken(calls);
        calls := calls + 1;
        if written <= 0 { return false; }
        var f := files[Queued(name)];
        var piece := text[done..done + written];
        assert text[..done] + piece == text[..done + written];
        files := files[Queued(name) := f.(text := f.text + piece)];
        Note(Write(piece));
        done := done + written;
      }
      assert text[..done] == text;
      return true;
    }

    /** `os.open` with `O_CREAT | O_EXCL`: the entry exists, empty, under its final name. */
    method OpenEntry(n: string, record: Record, text: string)
      requires Valid() && Queued(n) !in files && IsStem(n) && Cacheable(record) && text == Encode(record)
      modifies this
      ensures Traced() && Now().files == files && Now().nextId == inodes && inodes == old(inodes) + 1
      ensures old(ops) <= ops && old(worlds) <= worlds
      ensures files == old(files)[Queued(n) := File(old(inodes), "")]
      ensures Now().writer == Some(n) && Writing(Now())
      ensures Now().durable == old(Now().durable)
      ensures Now().asked == old(Now().asked)[old(inodes) := Request(n, record, text)]
    {
      files := files[Queued(n) := File(inodes, "")];
      inodes := inodes + 1;
      Note(Create(n, record, text));
    }

    /** The end of `write_exclusive`: done, or given up, and then unlinked if that is still tried and works. */
    method CloseEntry(n: string, ok: bool, unlink: bool)
      requires Traced() && Now().files == files && Now().nextId == inodes && Now().writer == Some(n) && Writing(Now())
      requires ok ==> files[Queued(n)].text == Now().asked[files[Queued(n)].id].text
      modifies this
      ensures Valid() && old(ops) <= ops && old(worlds) <= worlds
      ensures files == if !ok && unlink then old(files) - {Queued(n)} else old(files)
      ensures Now().durable == old(Now().durable) + (if ok then {old(files)[Queued(n)].id} else {})
      ensures Now().asked == old(Now().asked)
    {
      if ok {
        Note(Finish);
      } else {
        if unlink { files := files - {Queued(n)}; }
        Note(Abandon(unlink));
      }
    }

    /** `write_exclusive` of one entry whose name is free. A failed write or file sync takes the entry away again, if it
        can; a failure after the close leaves it, whole, although the caller is told nothing was stored. */
    method WriteEntry(n: string, record: Record, text: string, disk: Disk)
      returns (ok: bool, kept: bool, ghost written: string)
      requires Valid() && Queued(n) !in files && IsStem(n) && Cacheable(record) && text == Encode(record)
      modifies this
      ensures Valid() && old(ops) <= ops && old(worlds) <= worlds
      ensures written <= text && (ok ==> kept && disk.fault.AllWell? && written == text)
      ensures !ok && kept ==> !disk.canUnlink || (disk.fault.AfterClose? && written == text)
      ensures disk.fault.AfterClose? && written == text ==> kept
      ensures files == if kept then old(files)[Queued(n) := File(old(inodes), written)] else old(files)
      ensures Now().durable == old(Now().durable) + (if ok then {old(inodes)} else {})
      ensures Now().asked == old(Now().asked)[old(inodes) := Request(n, record, text)]
    {
      OpenEntry(n, record, text);
      var complete := WriteAll(n, text, disk.taken);
      written := files[Queued(n)].text;
      assert files == old(files)[Queued(n) := File(old(inodes), written)];
      ok := complete && disk.fault.AllWell?;
      kept := ok || !disk.canUnlink || (complete && disk.fault.AfterClose?);
      CloseEntry(n, ok, !kept);
    }

    /** The candidates in turn: the first whose name is free is written, and nothing is tried after a failure. */
    method CacheUnder(record: Record, names: seq<string>, disk: Disk)
      returns (cached: Option<string>, ghost left: Option<(string, string)>)
      requires Valid() && Cacheable(record) && forall n :: n in names ==> IsStem(n)
      modifies this
      ensures Valid() && old(ops) <= ops && old(worlds) <= worlds
      ensures cached.Some? ==> left.None? && FirstFree(names, old(files), cached.value)
      ensures cached.Some? ==> StoredAs(old(files), old(inodes), old(Now()), cached.value, record)
      ensures cached.None? ==> Now().durable == old(Now().durable)
      ensures cached.None? && left.None? ==> files == old(files)
      ensures cached.None? && left.Some? ==> LeftBehind(old(files), old(inodes), left.value, record, disk)
      ensures (forall n :: n in names ==> Queued(n) in old(files)) ==> cached.None? && ops == old(ops)
    {
      for i := 0 to |names|
        invariant Valid() && files == old(files) && inodes == old(inodes) && ops == old(ops) && worlds == old(worlds)
        invariant forall j :: 0 <= j < i ==> Queued(names[j]) in files
      {
        assert names[i] in names;
        if Queued(names[i]) !in files {
          var ok, kept;
          ghost var written;
          ok, kept, written := WriteEntry(names[i], record, Encode(record), disk);
          if ok { return Some(names[i]), None; }
          return None, if kept then Some((names[i], written)) else None;
        }
      }
      return None, None;
    }

    /** The record is in the queue under the name, whole, and remembered as durable. */
    ghost predicate StoredAs(before: map<Loc, File>, id: nat, past: World, name: string, record: Record)
      requires |worlds| > 0
      reads this
    {
      && Queued(name) !in before && files == before[Queued(name) := File(id, Encode(record))]
      && Now().durable == past.durable + {id} && Now().asked == past.asked[id := Request(name, record, Encode(record))]
    }

    /** One entry the caller was not told about: torn if it could not be unlinked, or else whole. */
    predicate LeftBehind(before: map<Loc, File>, id: nat, left: (string, string), record: Record, disk: Disk)
      reads this
    {
      && Queued(left.0) !in before && left.1 <= Encode(record) && files == before[Queued(left.0) := File(id, left.1)]
      && (!disk.canUnlink || (disk.fault.AfterClose? && left.1 == Encode(record)))
    }

    /** `_cache_offline`: up to eight candidate names, each a clock reading and a nonce. */
    method CacheOffline(record: Record, candidates: seq<(nat, string)>, disk: Disk)
      returns (cached: Option<string>, ghost left: Option<(string, string)>)
      requires Valid() && |candidates| == 8
      requires forall i :: 0 <= i < 8 ==> candidates[i].0 < Pow10(20) && IsNonce(candidates[i].1)
      modifies this
      ensures Valid() && old(ops) <= ops && old(worlds) <= worlds
      ensures cached.Some? ==>
        && left.None? && Cacheable(record) && StoredAs(old(files), old(inodes), old(Now()), cached.value, record)
        && FirstFree(Stems(candidates), old(files), cached.value)
        && IsStem(cached.value) && (Timestamp(cached.value), Nonce(cached.value)) in candidates
      ensures cached.None? ==> Now().durable == old(Now().durable)
      ensures cached.None? && left.None? ==> files == old(files)
      ensures cached.None? && left.Some? ==> LeftBehind(old(files), old(inodes), left.value, record, disk)
      ensures !Cacheable(record) || (forall c :: c in candidates ==> Queued(Stem(c.0, c.1)) in old(files)) ==>
        cached.None? && ops == old(ops)
    {
      if !Cacheable(record) { return None, None; }
      var names := Stems(candidates);
      forall n | n in names
        ensures IsStem(n) && (Timestamp(n), Nonce(n)) in candidates && n == Stem(Timestamp(n), Nonce(n))
      {
        var i :| 0 <= i < 8 && names[i] == n;
        StemParts(candidates[i].0, candidates[i].1);
      }
      cached, left := CacheUnder(record, names, disk);
    }
  }
}
