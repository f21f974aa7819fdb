/** Sending one request, and one replay pass over the queue, as functions of what the control plane answers and of what
    fails on disk; then the same said entry by entry, by status codes and file locations alone. */
module Replay {
  import opened Options
  import opened Text
  import opened Json
  import opened QueueNames
  import opened QueueRecord
  import opened OfflineQueue

  // ---------- One request to the control plane ----------

  datatype Body = Empty | JsonBody | Garbage
  datatype Reply = Lost | Status(code: nat, body: Body)
  datatype Outcome = Success | Unreachable | Refused | BadReply

  /** Transport failures, 429 and 5xx are worth another attempt. */
  predicate Retryable(r: Reply)
  {
    r.Lost? || r.code == 429 || r.code >= 500
  }

  /** What an answer that is not retried means: redirects and other 4xx are refusals, 2xx with broken JSON a bad reply. */
  function Meaning(r: Reply): Outcome
    requires !Retryable(r)
  {
    if r.code >= 300 then Refused else if r.body.Garbage? then BadReply else Success
  }

  function ReplyAt(replies: seq<Reply>, i: nat): Reply
  {
    if i < |replies| then replies[i] else Lost
  }

  /** The outcome of up to `retries` attempts answered by `replies`. */
  function Result(replies: seq<Reply>, retries: nat): Outcome
  {
    if retries == 0 then Unreachable
    else if Retryable(ReplyAt(replies, 0)) then Result(if replies == [] then [] else replies[1..], retries - 1)
    else Meaning(ReplyAt(replies, 0))
  }

  // What an answer is, said once more for the promises below: by its status code and body alone.

  /** No answer, 429 or a server error: worth another attempt. */
  predicate Transient(r: Reply)
  {
    r == Lost || (r.Status? && (r.code == 429 || 500 <= r.code))
  }

  /** Attempt `i` is the first of the `retries` attempts that is answered for good. */
  predicate Answered(replies: seq<Reply>, retries: nat, i: int)
  {
    && 0 <= i < |replies| && i < retries && !Transient(replies[i])
    && forall j :: 0 <= j < i ==> Transient(replies[j])
  }

  /** The first answer for good is below 300 with a body that is empty or JSON: the control plane has taken the record. */
  ghost predicate Takes(replies: seq<Reply>, retries: nat)
  {
    exists i :: Answered(replies, retries, i) && replies[i].code < 300 && replies[i].body != Garbage
  }

  /** The first answer for good is a redirect or a client error. */
  ghost predicate Declines(replies: seq<Reply>, retries: nat)
  {
    exists i :: Answered(replies, retries, i) && 300 <= replies[i].code < 500
  }

  /** The first answer for good is below 300 with broken JSON. */
  ghost predicate Garbles(replies: seq<Reply>, retries: nat)
  {
    exists i :: Answered(replies, retries, i) && replies[i].code < 300 && replies[i].body == Garbage
  }

  /** Every attempt was lost, limited or failed in the server. */
  predicate Fails(replies: seq<Reply>, retries: nat)
  {
    forall i :: 0 <= i < |replies| && i < retries ==> Transient(replies[i])
  }

  /** With `i` attempts behind it that decided nothing, the outcome is that of the rest. */
  lemma {:induction false} ResultFrom(replies: seq<Reply>, retries: nat, i: nat)
    requires i <= |replies| && i <= retries && forall j :: 0 <= j < i ==> Transient(replies[j])
    ensures Result(replies, retries) == Result(replies[i..], retries - i)
  {
    if i > 0 {
      ResultFrom(replies, retries, i - 1);
      assert replies[i - 1..][0] == replies[i - 1] && replies[i - 1..][1..] == replies[i..];
    } else {
      assert replies[0..] == replies;
    }
  }

  lemma {:induction false} NobodyAnswers(retries: nat)
    ensures Result([], retries).Unreachable?
  {
    if retries > 0 { NobodyAnswers(retries - 1); }
  }

  /** The outcome of a request by the answers themselves. */
  lemma ResultMeans(replies: seq<Reply>, retries: nat)
    ensures Result(replies, retries).Success? <==> Takes(replies, retries)
    ensures Result(replies, retries).Refused? <==> Declines(replies, retries)
    ensures Result(replies, retries).BadReply? <==> Garbles(replies, retries)
    ensures Result(replies, retries).Unreachable? <==> Fails(replies, retries)
  {
    if Fails(replies, retries) {
      var n := if |replies| < retries then |replies| else retries;
      ResultFrom(replies, retries, n);
      if n == |replies| {
        assert replies[n..] == [];
        NobodyAnswers(retries - n);
      }
    } else {
      var i := FirstAnswer(replies, retries);
      ResultFrom(replies, retries, i);
      assert replies[i..][0] == replies[i];
      assert forall k :: Answered(replies, retries, k) ==> k == i;
    }
  }

  lemma {:induction false} FirstAnswer(replies: seq<Reply>, retries: nat) returns (i: nat)
    requires !Fails(replies, retries)
    ensures Answered(replies, retries, i)
  {
    i := 0;
    while Transient(replies[i])
      invariant i < |replies| && i < retries && forall j :: 0 <= j < i ==> Transient(replies[j])
      invariant exists k :: i <= k < |replies| && k < retries && !Transient(replies[k])
      decreases |replies| - i
    {
      i := i + 1;
    }
  }

  /** `_request`: accepted, refused, garbled or unreachable as the first answer for good says. */
  method SendRequest(replies: seq<Reply>, retries: nat) returns (o: Outcome)
    ensures o == Result(replies, retries)
    ensures o.Success? <==> Takes(replies, retries)
    ensures o.Refused? <==> Declines(replies, retries)
    ensures o.BadReply? <==> Garbles(replies, retries)
    ensures o.Unreachable? <==> Fails(replies, retries)
    ensures o.Unreachable? <==> forall i :: 0 <= i < retries ==> Retryable(ReplyAt(replies, i))
  {
    ResultMeans(replies, retries);
    var attempt := 0;
    while attempt < retries
      invariant 0 <= attempt <= retries
      invariant forall i :: 0 <= i < attempt ==> Retryable(ReplyAt(replies, i))
      invariant Result(replies, retries) ==
        Result(if attempt <= |replies| then replies[attempt..] else [], retries - attempt)
    {
      var reply := ReplyAt(replies, attempt);
      if attempt < |replies| { assert replies[attempt..][1..] == replies[attempt + 1..]; }
      if !Retryable(reply) { return Meaning(reply); }
      attempt := attempt + 1;
    }
    return Unreachable;
  }

  // ---------- The three roles of one stem ----------

  datatype Slot = Slot(queued: Option<File>, claimed: Option<File>, rejected: Option<File>)

  function Look(files: map<Loc, File>, l: Loc): Option<File>
  {
    if l in files then Some(files[l]) else None
  }

  function SlotOf(files: map<Loc, File>, n: string): Slot
  {
    Slot(Look(files, Queued(n)), Look(files, Claimed(n)), Look(files, Rejected(n)))
  }

  /** What the outside world does during one pass. */
  datatype Env = Env(
    refused: set<Loc>,             // files `open_existing` finds unsafe
    unreadable: set<string>,       // claims `read_bytes` fails on
    unsynced: set<string>,         // entries whose claim is renamed, but the directory sync after it fails
    replies: string -> seq<Reply>, // the control plane's answers, per entry
    late: string -> Late)          // how the last file operation on an entry goes

  /** An unlink or a rename with the directory sync that follows it: either may raise. */
  datatype Late = Fine | NotDone | DoneThenRaised

  /** Recovery of an orphan claim: back to the queue, or aside if its place was taken; stuck if both are. */
  function RecoverSlot(s: Slot, refused: bool): Slot
  {
    if s.claimed.None? || refused then s
    else if s.queued.None? then Slot(s.claimed, None, s.rejected)
    else if s.rejected.None? then Slot(s.queued, None, s.claimed)
    else s
  }

  /** Whether the pass goes on, ends, or is left by an exception. */
  datatype Next = Go | Stop | Raise

  /** Where the answer sends a claimed file; an occupied rejected name raises. */
  function Ending(f: File, rejected: Option<File>, n: string, env: Env): (Slot, Next)
  {
    var outcome := Result(env.replies(n), 2);
    if Sendable(f, n, env) && outcome.Success? then (Slot(None, None, rejected), Go)
    else if Sendable(f, n, env) && outcome.Unreachable? then (Slot(Some(f), None, rejected), Stop)
    else if rejected.None? then (Slot(None, None, Some(f)), Go)
    else (Slot(None, Some(f), rejected), Raise)
  }

  /** What becomes of it when the last step may fail: the claim stays, or the step is done all the same. */
  function SettleClaimed(f: File, rejected: Option<File>, n: string, env: Env): (Slot, Next)
  {
    match env.late(n)
    case Fine => Ending(f, rejected, n, env)
    case NotDone => (Slot(None, Some(f), rejected), Raise)
    case DoneThenRaised => (Ending(f, rejected, n, env).0, Raise)
  }

  /** What the pass does with one queued entry, and whether it goes on. */
  function Settle(s: Slot, n: string, env: Env): (Slot, Next)
  {
    if s.queued.None? || s.claimed.Some? || Queued(n) in env.refused then (s, Go)
    else if n in env.unsynced then (Slot(None, s.queued, s.rejected), Go)
    else SettleClaimed(s.queued.value, s.rejected, n, env)
  }

  predicate Sendable(f: File, n: string, env: Env)
  {
    n !in env.unreadable && Decode(f.text).Some?
  }

  /** The entry is sent and the server takes it. */
  predicate Delivers(s: Slot, n: string, env: Env)
  {
    && s.queued.Some? && s.claimed.None? && Queued(n) !in env.refused && n !in env.unsynced
    && Sendable(s.queued.value, n, env) && Result(env.replies(n), 2).Success?
  }

  /** The pass will not skip the entry: it is safe to open, its claim name is free and the claim is synced. */
  predicate Takeable(s: Slot, n: string, env: Env)
  {
    s.claimed.None? && Queued(n) !in env.refused && n !in env.unsynced
  }

  /** First in, first out: whenever a record is accepted, nothing takeable with a smaller name is queued or claimed. */
  ghost predicate Fifo(worlds: seq<World>, ops: seq<Op>, from: nat, base: map<Loc, File>, env: Env)
    requires |worlds| == |ops| + 1
  {
    forall k, n :: from <= k < |ops| && ops[k].Accept? && LexLess(n, ops[k].name) && Takeable(SlotOf(base, n), n, env)
      ==> Queued(n) !in worlds[k].files && Claimed(n) !in worlds[k].files
  }

  /** The same in terms of what the names say: nothing cached earlier is left behind. */
  ghost predicate FifoByTime(worlds: seq<World>, ops: seq<Op>, from: nat, base: map<Loc, File>, env: Env)
    requires |worlds| == |ops| + 1
  {
    forall k, n :: from <= k < |ops| && ops[k].Accept? && IsStem(n) && Takeable(SlotOf(base, n), n, env)
      ==> IsStem(ops[k].name) && (Earlier(n, ops[k].name) ==> Queued(n) !in worlds[k].files && Claimed(n) !in worlds[k].files)
  }

  lemma FifoInTime(worlds: seq<World>, ops: seq<Op>, from: nat, base: map<Loc, File>, env: Env)
    requires Run(worlds, ops) && Init(worlds[0]) && Fifo(worlds, ops, from, base, env)
    ensures FifoByTime(worlds, ops, from, base, env)
  {
    forall k, n | from <= k < |ops| && ops[k].Accept? && IsStem(n) && Takeable(SlotOf(base, n), n, env)
      ensures IsStem(ops[k].name)
      ensures Earlier(n, ops[k].name) ==> Queued(n) !in worlds[k].files && Claimed(n) !in worlds[k].files
    {
      assert Step(worlds[k], ops[k], worlds[k + 1]);
      StemsRun(worlds, ops, k);
      assert Claimed(ops[k].name) in worlds[k].files;
      StemOrder(n, ops[k].name);
    }
  }

  /** The first `i` of `names` have been settled, and none of them stopped the pass. */
  ghost predicate Progress(files: map<Loc, File>, base: map<Loc, File>, names: seq<string>, i: nat, env: Env)
    requires i <= |names|
  {
    && Increasing(names)
    && (forall n :: n in names <==> Queued(n) in base)
    && (forall n :: n in names[..i] ==> SlotOf(files, n) == Settle(SlotOf(base, n), n, env).0)
    && (forall n :: n !in names[..i] ==> SlotOf(files, n) == SlotOf(base, n))
    && (forall n :: n in names[..i] ==> Settle(SlotOf(base, n), n, env).1.Go?)
  }

  lemma SmallerAreGone(files: map<Loc, File>, base: map<Loc, File>, names: seq<string>, i: nat, env: Env, m: string)
    requires i < |names| && Progress(files, base, names, i, env)
    requires LexLess(m, names[i]) && Takeable(SlotOf(base, m), m, env)
    ensures Queued(m) !in files && Claimed(m) !in files
  {
    if m in names { IncreasingSplit(names, i, m); }
    assert SlotOf(files, m).queued.None? && SlotOf(files, m).claimed.None?;
  }

  /** Where the pass ends: at `stop`, or after the last entry. */
  ghost predicate Ends(files: map<Loc, File>, base: map<Loc, File>, stop: Option<string>, env: Env)
  {
    && (forall n :: stop.None? || LexLessEq(n, stop.value) ==> SlotOf(files, n) == Settle(SlotOf(base, n), n, env).0)
    && (forall n :: stop.Some? && LexLess(stop.value, n) ==> SlotOf(files, n) == SlotOf(base, n))
    && (forall n :: stop.None? || LexLessEq(n, stop.value) ==>
          (!Settle(SlotOf(base, n), n, env).1.Go? <==> stop == Some(n)))
  }

  /** The pass was left by an exception at `stop`. */
  predicate Raises(base: map<Loc, File>, stop: Option<string>, env: Env)
  {
    stop.Some? && Settle(SlotOf(base, stop.value), stop.value, env).1.Raise?
  }

  /** A pass that ends without an exception ends on an entry that was not delivered. */
  lemma StopsUnsent(s: Slot, n: string, env: Env)
    requires Settle(s, n, env).1.Stop?
    ensures !Delivers(s, n, env)
  {
  }

  lemma EndsHere(files: map<Loc, File>, files': map<Loc, File>, base: map<Loc, File>, names: seq<string>, i: nat, env: Env)
    requires i < |names| && Progress(files, base, names, i, env)
    requires forall l: Loc :: l.name != names[i] ==> Look(files', l) == Look(files, l)
    requires SlotOf(files', names[i]) == Settle(SlotOf(base, names[i]), names[i], env).0
    requires !Settle(SlotOf(base, names[i]), names[i], env).1.Go?
    ensures Ends(files', base, Some(names[i]), env)
  {
    forall n
      ensures LexLessEq(n, names[i]) ==>
        && SlotOf(files', n) == Settle(SlotOf(base, n), n, env).0
        && (!Settle(SlotOf(base, n), n, env).1.Go? <==> n == names[i])
      ensures LexLess(names[i], n) ==> SlotOf(files', n) == SlotOf(base, n)
    {
      LexIrreflexive(names[i]);
      if n in names { IncreasingSplit(names, i, n); }
      if LexLess(names[i], n) && LexLess(n, names[i]) { LexTransitive(n, names[i], n); LexIrreflexive(n); }
      assert n != names[i] ==> SlotOf(files', n) == SlotOf(files, n);
    }
  }

  lemma ProgressStep(files: map<Loc, File>, files': map<Loc, File>, base: map<Loc, File>, names: seq<string>, i: nat, env: Env)
    requires i < |names| && Progress(files, base, names, i, env)
    requires forall l: Loc :: l.name != names[i] ==> Look(files', l) == Look(files, l)
    requires (SlotOf(files', names[i]), Go) == Settle(SlotOf(base, names[i]), names[i], env)
    ensures Progress(files', base, names, i + 1, env)
  {
    assert names[..i + 1] == names[..i] + [names[i]];
    IncreasingSplit(names, i, names[i]);
    LexIrreflexive(names[i]);
    forall n | n != names[i]
      ensures SlotOf(files', n) == SlotOf(files, n)
    {
    }
  }

  /** The slot of one stem after its claim has moved, been removed or stayed, with nothing queued beside it. */
  lemma ClaimMoved(before: map<Loc, File>, after: map<Loc, File>, n: string)
    requires Claimed(n) in before && Queued(n) !in before
    ensures var (f, rejected) := (before[Claimed(n)], Look(before, Rejected(n)));
      && (after == before ==> SlotOf(after, n) == Slot(None, Some(f), rejected))
      && (after == before - {Claimed(n)} ==> SlotOf(after, n) == Slot(None, None, rejected))
      && (after == Rename(before, Claimed(n), Queued(n)) ==> SlotOf(after, n) == Slot(Some(f), None, rejected))
      && (after == Rename(before, Claimed(n), Rejected(n)) && rejected.None? ==> SlotOf(after, n) == Slot(None, None, Some(f)))
    ensures (
        || after == before || after == before - {Claimed(n)}
        || after == Rename(before, Claimed(n), Queued(n)) || after == Rename(before, Claimed(n), Rejected(n)))
      ==> forall l: Loc :: l.name != n ==> Look(after, l) == Look(before, l)
  {
  }

  lemma ProgressStarts(files: map<Loc, File>, names: seq<string>, env: Env)
    requires Increasing(names) && forall n :: n in names <==> Queued(n) in files
    ensures Progress(files, files, names, 0, env)
  {
  }

  lemma EndsComplete(files: map<Loc, File>, base: map<Loc, File>, names: seq<string>, env: Env)
    requires Progress(files, base, names, |names|, env)
    ensures Ends(files, base, None, env)
  {
    assert names[..|names|] == names;
  }

  /** Recovery leaves an entry within the pass's reach unless its stem is in use in all three roles at once. */
  lemma TakeableAfterRecovery(s: Slot, n: string, env: Env)
    requires Queued(n) !in env.refused && Claimed(n) !in env.refused && n !in env.unsynced
    ensures Takeable(RecoverSlot(s, Claimed(n) in env.refused), n, env)
        <==> !(s.queued.Some? && s.claimed.Some? && s.rejected.Some?)
  {
  }

  /** A stem in use in all three roles is never touched again: the condition above is exact. */
  lemma TripleUseSticks(s: Slot, n: string, env: Env)
    requires s.queued.Some? && s.claimed.Some? && s.rejected.Some?
    ensures Settle(RecoverSlot(s, Claimed(n) in env.refused), n, env) == (s, Go)
  {
  }

  /** With fresh names no stem is ever in two roles, so every safe file is within reach of every pass. */
  lemma FreshNamesAreTakeable(worlds: seq<World>, ops: seq<Op>, j: nat, n: string, env: Env)
    requires Run(worlds, ops) && Init(worlds[0]) && FreshNames(worlds, ops) && j < |worlds|
    requires Queued(n) !in env.refused && Claimed(n) !in env.refused && n !in env.unsynced
    ensures Takeable(RecoverSlot(SlotOf(worlds[j].files, n), Claimed(n) in env.refused), n, env)
  {
    if Queued(n) in worlds[j].files && Claimed(n) in worlds[j].files {
      FreshNamesNeverCollide(worlds, ops, j, Queued(n), Claimed(n));
    }
    TakeableAfterRecovery(SlotOf(worlds[j].files, n), n, env);
  }

  /** A torn entry is never sent, whatever else goes wrong: unless only its final newline is missing, a pass that takes
      it moves it to rejected. */
  lemma TornIsRejected(r: Record, torn: string, id: nat, n: string, env: Env)
    requires ValidRecord(r) && torn <= Encode(r) && |torn| + 1 < |Encode(r)|
    ensures var f := Some(File(id, torn));
      && !Delivers(Slot(f, None, None), n, env)
      && (Takeable(Slot(f, None, None), n, env) && !env.late(n).NotDone? ==>
            Settle(Slot(f, None, None), n, env).0 == Slot(None, None, f))
  {
    TornRecord(r, torn);
  }

  /** A pass that was not stopped leaves no takeable entry queued or claimed. */
  lemma CompletePassDrains(files: map<Loc, File>, base: map<Loc, File>, n: string, env: Env)
    requires Ends(files, base, None, env) && Takeable(SlotOf(base, n), n, env)
    ensures Queued(n) !in files && Claimed(n) !in files
  {
    assert SlotOf(files, n) == Settle(SlotOf(base, n), n, env).0;
    assert Settle(SlotOf(base, n), n, env).1.Go?;
    assert SlotOf(files, n).queued.None? && SlotOf(files, n).claimed.None?;
  }

  lemma FifoExtends(worlds: seq<World>, ops: seq<Op>, worlds': seq<World>, ops': seq<Op>,
                    files: map<Loc, File>, base: map<Loc, File>, from: nat, names: seq<string>, i: nat, env: Env)
    requires |worlds| == |ops| + 1 && |worlds'| == |ops'| + 1 && worlds <= worlds' && ops <= ops'
    requires Fifo(worlds, ops, from, base, env)
    requires i < |names| && Progress(files, base, names, i, env)
    requires forall k :: |ops| <= k < |ops'| && ops'[k].Accept? ==>
      ops'[k].name == names[i] && forall l: Loc :: l.name != names[i] ==> Look(worlds'[k].files, l) == Look(files, l)
    ensures Fifo(worlds', ops', from, base, env)
  {
    forall k, m | from <= k < |ops'| && ops'[k].Accept? && LexLess(m, ops'[k].name) && Takeable(SlotOf(base, m), m, env)
      ensures Queued(m) !in worlds'[k].files && Claimed(m) !in worlds'[k].files
    {
      if k < |ops| {
        assert ops'[k] == ops[k] && worlds'[k] == worlds[k];
      } else {
        LexIrreflexive(m);
        SmallerAreGone(files, base, names, i, env, m);
        assert Look(worlds'[k].files, Queued(m)) == Look(files, Queued(m));
        assert Look(worlds'[k].files, Claimed(m)) == Look(files, Claimed(m));
      }
    }
  }

  // ---------- A pass, entry by entry and file by file ----------

  /** The pass got as far as the stem. */
  predicate Within(n: string, stop: Option<string>)
  {
    stop == None || LexLessEq(n, stop.value)
  }

  /** Nothing queued, or a claim in the way, or a file that is not safe to open: the pass does not touch the entry. */
  predicate Skipped(base: map<Loc, File>, n: string, env: Env)
  {
    Queued(n) !in base || Claimed(n) in base || Queued(n) in env.refused
  }

  predicate Readable(f: File, n: string, env: Env)
  {
    n !in env.unreadable && Decode(f.text) != None
  }

  /** Recovery: an orphan claim that is safe to open goes back to its entry's name; to rejected if that is taken; and
      stays if both are. Nothing else moves. */
  ghost predicate Recovered(before: map<Loc, File>, after: map<Loc, File>, env: Env)
  {
    forall n :: RecoveredOne(before, after, n, env)
  }

  predicate RecoveredOne(before: map<Loc, File>, after: map<Loc, File>, n: string, env: Env)
  {
    if Claimed(n) !in before || Claimed(n) in env.refused || (Queued(n) in before && Rejected(n) in before) then
      && Look(after, Queued(n)) == Look(before, Queued(n)) && Look(after, Claimed(n)) == Look(before, Claimed(n))
      && Look(after, Rejected(n)) == Look(before, Rejected(n))
    else if Queued(n) !in before then
      && Look(after, Queued(n)) == Some(before[Claimed(n)]) && Claimed(n) !in after
      && Look(after, Rejected(n)) == Look(before, Rejected(n))
    else
      && Look(after, Rejected(n)) == Some(before[Claimed(n)]) && Claimed(n) !in after
      && Look(after, Queued(n)) == Look(before, Queued(n))
  }

  /** Where a file that was taken ends up when its last step is done: gone once the control plane has taken the record,
      back in the queue after two attempts that decide nothing, and otherwise in rejected, or a claim if that is occupied. */
  ghost predicate PutWhereTold(base: map<Loc, File>, after: map<Loc, File>, n: string, env: Env)
    requires Queued(n) in base
  {
    var (f, replies, rejected) := (base[Queued(n)], env.replies(n), Look(base, Rejected(n)));
    && (Readable(f, n, env) && Takes(replies, 2) ==>
          Queued(n) !in after && Claimed(n) !in after && Look(after, Rejected(n)) == rejected)
    && (Readable(f, n, env) && Fails(replies, 2) ==>
          Look(after, Queued(n)) == Some(f) && Claimed(n) !in after && Look(after, Rejected(n)) == rejected)
    && (!Readable(f, n, env) || Declines(replies, 2) || Garbles(replies, 2) ==>
          && Queued(n) !in after
          && if rejected == None then Claimed(n) !in after && Look(after, Rejected(n)) == Some(f)
             else Look(after, Claimed(n)) == Some(f) && Look(after, Rejected(n)) == rejected)
  }

  /** The pass goes on past the entry: it was accepted, or put aside under a free name. */
  ghost predicate GoesOn(base: map<Loc, File>, n: string, env: Env)
    requires Queued(n) in base
  {
    && env.late(n) == Fine
    && if Readable(base[Queued(n)], n, env)
       then Takes(env.replies(n), 2) || (!Fails(env.replies(n), 2) && Rejected(n) !in base)
       else Rejected(n) !in base
  }

  ghost predicate Fate(base: map<Loc, File>, after: map<Loc, File>, n: string, stop: Option<string>, env: Env)
  {
    if !Within(n, stop) || Skipped(base, n, env) then
      && Look(after, Queued(n)) == Look(base, Queued(n)) && Look(after, Claimed(n)) == Look(base, Claimed(n))
      && Look(after, Rejected(n)) == Look(base, Rejected(n)) && stop != Some(n)
    else if n in env.unsynced then
      && Queued(n) !in after && Look(after, Claimed(n)) == Some(base[Queued(n)])
      && Look(after, Rejected(n)) == Look(base, Rejected(n)) && stop != Some(n)
    else
      && (stop == Some(n) <==> !GoesOn(base, n, env))
      && if env.late(n) == NotDone
         then Queued(n) !in after && Look(after, Claimed(n)) == Some(base[Queued(n)]) && Look(after, Rejected(n)) == Look(base, Rejected(n))
         else PutWhereTold(base, after, n, env)
  }

  ghost predicate Fates(base: map<Loc, File>, after: map<Loc, File>, stop: Option<string>, env: Env)
  {
    forall n :: Fate(base, after, n, stop, env)
  }

  /** One entry that was taken: the specification of the pass, read by answers and files. */
  lemma TakenFate(base: map<Loc, File>, after: map<Loc, File>, n: string, env: Env)
    requires Queued(n) in base
    requires SlotOf(after, n) == SettleClaimed(base[Queued(n)], Look(base, Rejected(n)), n, env).0
    ensures SettleClaimed(base[Queued(n)], Look(base, Rejected(n)), n, env).1.Go? <==> GoesOn(base, n, env)
    ensures env.late(n) != NotDone ==> PutWhereTold(base, after, n, env)
    ensures env.late(n) == NotDone ==>
      Queued(n) !in after && Look(after, Claimed(n)) == Some(base[Queued(n)]) && Look(after, Rejected(n)) == Look(base, Rejected(n))
  {
    ResultMeans(env.replies(n), 2);
  }

  lemma EntryFate(base: map<Loc, File>, after: map<Loc, File>, n: string, stop: Option<string>, env: Env)
    requires Ends(after, base, stop, env)
    ensures Fate(base, after, n, stop, env)
  {
    if Within(n, stop) {
      assert SlotOf(after, n) == Settle(SlotOf(base, n), n, env).0;
      if !Skipped(base, n, env) && n !in env.unsynced { TakenFate(base, after, n, env); }
    } else {
      LexTotal(n, stop.value);
      assert SlotOf(after, n) == SlotOf(base, n);
    }
  }

  lemma AllFates(base: map<Loc, File>, after: map<Loc, File>, stop: Option<string>, env: Env)
    requires Ends(after, base, stop, env)
    ensures Fates(base, after, stop, env)
  {
    forall n
      ensures Fate(base, after, n, stop, env)
    {
      EntryFate(base, after, n, stop, env);
    }
  }

  lemma RecoveryFates(before: map<Loc, File>, after: map<Loc, File>, env: Env)
    requires forall n :: SlotOf(after, n) == RecoverSlot(SlotOf(before, n), Claimed(n) in env.refused)
    ensures Recovered(before, after, env)
  {
    forall n
      ensures RecoveredOne(before, after, n, env)
    {
      assert SlotOf(after, n) == RecoverSlot(SlotOf(before, n), Claimed(n) in env.refused);
    }
  }

  /** The control plane takes the record of this entry in this pass. */
  ghost predicate Deliverable(base: map<Loc, File>, n: string, env: Env)
  {
    && !Skipped(base, n, env) && n !in env.unsynced
    && Readable(base[Queued(n)], n, env) && Takes(env.replies(n), 2)
  }

  lemma DeliverableIs(base: map<Loc, File>, n: string, env: Env)
    ensures Delivers(SlotOf(base, n), n, env) <==> Deliverable(base, n, env)
  {
    ResultMeans(env.replies(n), 2);
  }

  /** The record that was queued under the name is what was delivered. */
  predicate IsDeliveryOf(base: map<Loc, File>, d: Delivery)
  {
    && Queued(d.name) in base && base[Queued(d.name)].id == d.id
    && Decode(base[Queued(d.name)].text) == Some(d.record)
  }

  /** Exactly the wanted ones of `done` were delivered, each genuinely, each once, in name order. */
  ghost predicate DeliversExactly(sent: seq<Delivery>, done: set<string>, wanted: string -> bool, genuine: Delivery -> bool)
  {
    && (forall k :: 0 <= k < |sent| ==> genuine(sent[k]) && sent[k].name in done && wanted(sent[k].name))
    && (forall n :: n in done && wanted(n) ==> DeliveredAs(sent, n))
    && (forall k, m :: 0 <= k < m < |sent| ==> LexLess(sent[k].name, sent[m].name))
  }

  predicate DeliveredAs(sent: seq<Delivery>, n: string)
  {
    exists k :: 0 <= k < |sent| && sent[k].name == n
  }

  lemma NameIn(sent: seq<Delivery>, more: seq<Delivery>, n: string)
    ensures DeliveredAs(sent + more, n) <==> DeliveredAs(sent, n) || DeliveredAs(more, n)
  {
    var all := sent + more;
    if DeliveredAs(sent, n) {
      var k :| 0 <= k < |sent| && sent[k].name == n;
      assert all[k].name == n;
    }
    if DeliveredAs(more, n) {
      var k :| 0 <= k < |more| && more[k].name == n;
      assert all[|sent| + k].name == n;
    }
  }

  /** The delivery of the one entry `n`, if it is wanted. */
  ghost predicate DeliveryFor(more: seq<Delivery>, n: string, wanted: string -> bool, genuine: Delivery -> bool)
  {
    if wanted(n) then |more| == 1 && more[0].name == n && genuine(more[0]) else more == []
  }

  lemma DeliversNext(sent: seq<Delivery>, more: seq<Delivery>, done: set<string>, n: string, wanted: string -> bool, genuine: Delivery -> bool)
    requires DeliversExactly(sent, done, wanted, genuine) && forall m :: m in done ==> LexLess(m, n)
    requires DeliveryFor(more, n, wanted, genuine)
    ensures DeliversExactly(sent + more, done + {n}, wanted, genuine)
  {
    forall m | m in done + {n} && wanted(m)
      ensures DeliveredAs(sent + more, m)
    {
      NameIn(sent, more, m);
      assert m == n ==> more[0].name == m;
    }
    if !wanted(n) { assert sent + more == sent; }
  }

  /** Of the entries `done`, exactly those whose record the control plane takes were delivered. */
  ghost predicate DeliversOf(sent: seq<Delivery>, base: map<Loc, File>, done: set<string>, env: Env)
  {
    DeliversExactly(sent, done, n => Deliverable(base, n, env), d => IsDeliveryOf(base, d))
  }

  function Members(names: seq<string>): set<string>
  {
    set n | n in names
  }

  /** The queue entries a pass got as far as. */
  function Reached(base: map<Loc, File>, stop: Option<string>): set<string>
  {
    set l | l in base && l.Queued? && Within(l.name, stop) :: l.name
  }

  lemma ReachedMember(base: map<Loc, File>, stop: Option<string>, n: string)
    ensures n in Reached(base, stop) <==> Queued(n) in base && Within(n, stop)
  {
    assert Queued(n).name == n;
  }

  lemma ReachedAre(base: map<Loc, File>, names: seq<string>, i: nat)
    requires Increasing(names) && i < |names| && forall n :: n in names <==> Queued(n) in base
    ensures Members(names[..i + 1]) == Reached(base, Some(names[i])) == Members(names[..i]) + {names[i]}
    ensures forall n :: n in Members(names[..i]) ==> LexLess(n, names[i])
  {
    assert names[..i + 1] == names[..i] + [names[i]];
    forall n
      ensures n in names[..i + 1] <==> n in Reached(base, Some(names[i]))
      ensures n in names[..i] ==> LexLess(n, names[i])
    {
      ReachedMember(base, Some(names[i]), n);
      if n in names { IncreasingSplit(names, i, n); }
    }
  }

  lemma ReachedAll(base: map<Loc, File>, names: seq<string>)
    requires forall n :: n in names <==> Queued(n) in base
    ensures Members(names[..|names|]) == Reached(base, None)
  {
    assert names[..|names|] == names;
    forall n
      ensures n in names <==> n in Reached(base, None)
    {
      ReachedMember(base, None, n);
    }
  }

  /** The delivery of one entry, if the control plane takes its record. */
  ghost predicate DeliveryOf(more: seq<Delivery>, base: map<Loc, File>, n: string, env: Env)
  {
    DeliveryFor(more, n, m => Deliverable(base, m, env), d => IsDeliveryOf(base, d))
  }

  lemma DeliversGrow(sent: seq<Delivery>, more: seq<Delivery>, base: map<Loc, File>, names: seq<string>, i: nat, env: Env)
    requires Increasing(names) && i < |names| && forall n :: n in names <==> Queued(n) in base
    requires DeliversOf(sent, base, Members(names[..i]), env) && DeliveryOf(more, base, names[i], env)
    ensures DeliversOf(sent + more, base, Members(names[..i + 1]), env)
    ensures DeliversOf(sent + more, base, Reached(base, Some(names[i])), env)
  {
    ReachedAre(base, names, i);
    DeliversNext(sent, more, Members(names[..i]), names[i], n => Deliverable(base, n, env), d => IsDeliveryOf(base, d));
  }

  lemma AccountGrows(before: seq<Delivery>, sent: seq<Delivery>, more: seq<Delivery>, after: seq<Delivery>, sent': seq<Delivery>)
    requires after == (before + sent) + more && sent' == sent + more
    ensures after == before + sent' && |sent'| == |sent| + |more|
  {
  }

  /** The pass ends, without an exception, at an entry that two attempts could not decide. */
  ghost predicate EndsQuietly(base: map<Loc, File>, n: string, env: Env)
  {
    && !Skipped(base, n, env) && n !in env.unsynced && env.late(n) == Fine
    && Readable(base[Queued(n)], n, env) && Fails(env.replies(n), 2)
  }

  lemma RaisesIff(base: map<Loc, File>, after: map<Loc, File>, stop: Option<string>, env: Env)
    requires Ends(after, base, stop, env)
    ensures Raises(base, stop, env) <==> stop != None && !EndsQuietly(base, stop.value, env)
  {
    if stop.Some? {
      ResultMeans(env.replies(stop.value), 2);
      assert LexLessEq(stop.value, stop.value);
    }
  }

  /** An answer means one thing. */
  lemma OneMeaning(replies: seq<Reply>, retries: nat)
    ensures Takes(replies, retries) || Declines(replies, retries) || Garbles(replies, retries) || Fails(replies, retries)
    ensures Fails(replies, retries) ==> !Takes(replies, retries)
  {
    ResultMeans(replies, retries);
  }

  /** The claims `done` have been recovered, the other stems are as they were. */
  ghost predicate PartlyRecovered(before: map<Loc, File>, after: map<Loc, File>, done: seq<string>, env: Env)
  {
    forall n :: SlotOf(after, n) ==
      (if n in done then RecoverSlot(SlotOf(before, n), Claimed(n) in env.refused) else SlotOf(before, n))
  }

  lemma RecoverNext(before: map<Loc, File>, mid: map<Loc, File>, after: map<Loc, File>, claims: seq<string>, i: nat, env: Env)
    requires i < |claims| && PartlyRecovered(before, mid, claims[..i], env) && SlotOf(mid, claims[i]) == SlotOf(before, claims[i])
    requires SlotOf(after, claims[i]) == RecoverSlot(SlotOf(mid, claims[i]), Claimed(claims[i]) in env.refused)
    requires forall l: Loc :: l.name != claims[i] ==> Look(after, l) == Look(mid, l)
    ensures PartlyRecovered(before, after, claims[..i + 1], env)
  {
    assert claims[..i + 1] == claims[..i] + [claims[i]];
    forall n | n != claims[i]
      ensures SlotOf(after, n) == SlotOf(mid, n)
    {
    }
  }

  /** What the disk does during one `write_exclusive`: the bytes each write takes, where it fails, and whether the entry
      can be unlinked then. */
  datatype Disk = Disk(taken: nat -> int, fault: DiskFault, canUnlink: bool)
  datatype DiskFault = AllWell | BeforeClose | AfterClose

  function Stems(candidates: seq<(nat, string)>): seq<string>
  {
    seq(|candidates|, i requires 0 <= i < |candidates| => Stem(candidates[i].0, candidates[i].1))
  }

  /** The first of the names that no queue entry has. */
  ghost predicate FirstFree(names: seq<string>, files: map<Loc, File>, n: string)
  {
    exists i :: 0 <= i < |names| && names[i] == n && Queued(n) !in files && forall j :: 0 <= j < i ==> Queued(names[j]) in files
  }

  lemma RunExtends(worlds: seq<World>, ops: seq<Op>, op: Op, w': World)
    requires Run(worlds, ops) && Step(worlds[|ops|], op, w')
    ensures Run(worlds + [w'], ops + [op])
  {
    forall i | 0 <= i < |ops| + 1
      ensures Step((worlds + [w'])[i], (ops + [op])[i], (worlds + [w'])[i + 1])
    {
      assert i < |ops| ==> Step(worlds[i], ops[i], worlds[i + 1]);
    }
  }

  /** The names a scan of the queue directory yields, the rejected directory apart. */
  function QueueDirectory(files: map<Loc, File>): (r: set<string>)
    ensures forall l :: l in files && !l.Rejected? ==> PathOf(l).name in r
    ensures forall name :: name in r ==> exists l :: l in files && !l.Rejected? && PathOf(l).name == name
  {
    set l | l in files && !l.Rejected? :: PathOf(l).name
  }

  /** The names in the directory that match a pattern are those of the files in that role. */
  lemma PatternFinds(files: map<Loc, File>, name: string)
    requires AllStems(files)
    ensures IsQueueName(name) ==> (name in QueueDirectory(files) <==> Queued(name[..53]) in files)
    ensures IsClaimName(name) ==> (name in QueueDirectory(files) <==> Claimed(name[2..55]) in files)
  {
    if IsQueueName(name) { assert EntryName(name[..53]) == name && PathOf(Queued(name[..53])).name == name; }
    if IsClaimName(name) { assert ClaimName(name[2..55]) == name && PathOf(Claimed(name[2..55])).name == name; }
    if name in QueueDirectory(files) {
      var l :| l in files && !l.Rejected? && PathOf(l).name == name;
      NameForms(l.name);
      NamesDisjoint(name);
    }
  }

  lemma StemsIncrease(names: seq<string>, stems: seq<string>)
    requires Increasing(names) && |stems| == |names| && forall i :: 0 <= i < |names| ==> IsStem(stems[i])
    requires (forall i :: 0 <= i < |names| ==> names[i] == EntryName(stems[i])) || (forall i :: 0 <= i < |names| ==> names[i] == ClaimName(stems[i]))
    ensures Increasing(stems)
  {
    forall i, j | 0 <= i < j < |stems|
      ensures LexLess(stems[i], stems[j])
    {
      StemOrder(stems[i], stems[j]);
    }
  }

  /** `_queued_paths`: the names that match the entry pattern, sorted; given here by their stems. */
  method QueuedPaths(files: map<Loc, File>) returns (stems: seq<string>)
    requires AllStems(files)
    ensures Increasing(stems) && forall n :: n in stems <==> Queued(n) in files
  {
    var names := ListSorted(set name | name in QueueDirectory(files) && IsQueueName(name));
    stems := [];
    for i := 0 to |names|
      invariant |stems| == i
      invariant forall j :: 0 <= j < i ==> IsStem(stems[j]) && names[j] == EntryName(stems[j]) && Queued(stems[j]) in files
    {
      assert names[i] in names;
      PatternFinds(files, names[i]);
      assert names[i] == EntryName(names[i][..53]);
      stems := stems + [names[i][..53]];
    }
    StemsIncrease(names, stems);
    forall n | Queued(n) in files
      ensures n in stems
    {
      assert IsStem(Queued(n).name);
      NameForms(n);
      PatternFinds(files, EntryName(n));
      assert EntryName(n) in names;
      var j :| 0 <= j < |names| && names[j] == EntryName(n);
      assert stems[j] == EntryName(stems[j])[..53] == n;
    }
  }

  /** The scan of `_recover_orphan_claims`, likewise for the claim pattern. */
  method OrphanClaims(files: map<Loc, File>) returns (stems: seq<string>)
    requires AllStems(files)
    ensures Increasing(stems) && forall n :: n in stems <==> Claimed(n) in files
  {
    var names := ListSorted(set name | name in QueueDirectory(files) && IsClaimName(name));
    stems := [];
    for i := 0 to |names|
      invariant |stems| == i
      invariant forall j :: 0 <= j < i ==> IsStem(stems[j]) && names[j] == ClaimName(stems[j]) && Claimed(stems[j]) in files
    {
      assert names[i] in names;
      PatternFinds(files, names[i]);
      assert names[i] == ClaimName(names[i][2..55]);
      stems := stems + [names[i][2..55]];
    }
    StemsIncrease(names, stems);
    forall n | Claimed(n) in files
      ensures n in stems
    {
      assert IsStem(Claimed(n).name);
      NameForms(n);
      PatternFinds(files, ClaimName(n));
      assert ClaimName(n) in names;
      var j :| 0 <= j < |names| && names[j] == ClaimName(n);
      assert stems[j] == ClaimName(stems[j])[2..55] == n;
    }
  }

  lemma IncreasingSplit(s: seq<string>, i: nat, n: string)
    requires Increasing(s) && i < |s| && n in s
    ensures n in s[..i] <==> LexLess(n, s[i])
  {
    var k :| 0 <= k < |s| && s[k] == n;
    LexIrreflexive(s[i]);
    if k > i && LexLess(n, s[i]) { LexTransitive(n, s[i], n); LexIrreflexive(n); }
    if n in s[..i] {
      var j :| 0 <= j < |s[..i]| && s[..i][j] == n;
      assert s[j] == n;
    }
  }
}
