/** The worker's offline queue as a transition system: one operation per filesystem step or server answer,
    so that a crash between any two steps is a run that stops there and is resumed by a later pass.

    Queue entries and claims live in one directory under names that correspond one-to-one through the
    53-character stem they share (module QueueNames); a location here is that stem and the role it is held in. */
module OfflineQueue {
  import opened Options
  import opened Json
  import opened QueueNames
  import opened QueueRecord

  /** Where a file can be: `<stem>.json`, `.c<stem>.s`, or `<stem>.json` in the rejected directory. */
  datatype Loc = Queued(name: string) | Claimed(name: string) | Rejected(name: string)

  /** `id` is the file's identity (device and inode); renames keep it. */
  datatype File = File(id: nat, text: string)

  /** What `_cache_offline` was asked to store when it created a file. */
  datatype Request = Request(name: string, record: Record, text: string)

  datatype Delivery = Delivery(name: string, id: nat, record: Record)

  datatype World = World(
    files: map<Loc, File>,
    writer: Option<string>,          // the entry a live `write_exclusive` is still writing
    nextId: nat,                     // identities below this have been used
    asked: map<nat, Request>,        // history: what each file was created to hold
    durable: set<nat>,               // history: files whose `_cache_offline` returned
    delivered: seq<Delivery>)        // history: records the server answered with success

  datatype Op =
    | Create(name: string, record: Record, text: string)
    | Write(piece: string)
    | Finish
    | Abandon(unlinked: bool)
    | Crash
    | Claim(name: string)
    | Accept(name: string, record: Record)
    | Remove(name: string)
    | Return(name: string)
    | Reject(name: string)

  predicate Cacheable(r: Record)
  {
    ValidRecord(r) && Utf8Size(Encode(r)) <= MAX_OFFLINE_BYTES
  }

  ghost predicate Accepted(w: World, id: nat)
  {
    exists i :: 0 <= i < |w.delivered| && w.delivered[i].id == id
  }

  /** The file a live writer is filling. */
  predicate Writing(w: World)
  {
    && w.writer.Some?
    && Queued(w.writer.value) in w.files
    && w.files[Queued(w.writer.value)].id in w.asked
  }

  function WriterFile(w: World): File
    requires Writing(w)
  {
    w.files[Queued(w.writer.value)]
  }

  /** The guard the program checks in the directory before it takes the step. */
  ghost predicate Guard(w: World, op: Op)
  {
    match op
    case Create(n, _, _) => w.writer.None? && Queued(n) !in w.files
    case Write(piece) => Writing(w) && piece != "" && WriterFile(w).text + piece <= w.asked[WriterFile(w).id].text
    case Finish => Writing(w) && WriterFile(w).text == w.asked[WriterFile(w).id].text
    case Abandon(_) => Writing(w)
    case Crash => true
    case Claim(n) => w.writer.None? && Queued(n) in w.files && Claimed(n) !in w.files
    case Accept(n, _) => w.writer.None? && Claimed(n) in w.files
    case Remove(n) => w.writer.None? && Claimed(n) in w.files && Accepted(w, w.files[Claimed(n)].id)
    case Return(n) => w.writer.None? && Claimed(n) in w.files && Queued(n) !in w.files
    case Reject(n) => w.writer.None? && Claimed(n) in w.files && Rejected(n) !in w.files
  }

  /** What is written is a validated record's encoding, and what is sent is what the claimed file decodes to. */
  predicate DataGuard(w: World, op: Op)
  {
    match op
    case Create(n, r, text) => IsStem(n) && Cacheable(r) && text == Encode(r)
    case Accept(n, r) => Claimed(n) in w.files && Decode(w.files[Claimed(n)].text) == Some(r)
    case _ => true
  }

  ghost predicate Enabled(w: World, op: Op)
  {
    Guard(w, op) && DataGuard(w, op)
  }

  function Rename(files: map<Loc, File>, from: Loc, to: Loc): map<Loc, File>
    requires from in files
  {
    (files - {from})[to := files[from]]
  }

  ghost function Apply(w: World, op: Op): World
    requires Guard(w, op)
  {
    match op
    case Create(n, r, text) =>
      w.(files := w.files[Queued(n) := File(w.nextId, "")], writer := Some(n),
         nextId := w.nextId + 1, asked := w.asked[w.nextId := Request(n, r, text)])
    case Write(piece) =>
      var f := WriterFile(w);
      w.(files := w.files[Queued(w.writer.value) := f.(text := f.text + piece)])
    case Finish => w.(durable := w.durable + {WriterFile(w).id}, writer := None)
    case Abandon(unlinked) =>
      w.(files := if unlinked then w.files - {Queued(w.writer.value)} else w.files, writer := None)
    case Crash => w.(writer := None)
    case Claim(n) => w.(files := Rename(w.files, Queued(n), Claimed(n)))
    case Accept(n, r) => w.(delivered := w.delivered + [Delivery(n, w.files[Claimed(n)].id, r)])
    case Remove(n) => w.(files := w.files - {Claimed(n)})
    case Return(n) => w.(files := Rename(w.files, Claimed(n), Queued(n)))
    case Reject(n) => w.(files := Rename(w.files, Claimed(n), Rejected(n)))
  }

  // ---------- Runs ----------

  /** The worlds an operation sequence passes through: each step was enabled where it was taken. */
  ghost predicate Run(worlds: seq<World>, ops: seq<Op>)
  {
    && |worlds| == |ops| + 1
    && forall i {:trigger ops[i]} :: 0 <= i < |ops| ==> Step(worlds[i], ops[i], worlds[i + 1])
  }

  ghost predicate Step(w: World, op: Op, w': World)
  {
    Enabled(w, op) && w' == Apply(w, op)
  }

  predicate Init(w: World)
  {
    w == World(map[], None, 0, map[], {}, [])
  }

  // ---------- The invariant of every run ----------

  /** The file holds (part of) the text it was created for, and all of it once the caller was told so. */
  predicate Sound(w: World, l: Loc, f: File)
  {
    && f.id < w.nextId
    && f.id in w.asked
    && w.asked[f.id].name == l.name
    && f.text <= w.asked[f.id].text
    && (f.id in w.durable ==> f.text == w.asked[f.id].text)
  }

  /** No file is reachable under two names. */
  ghost predicate OnePlace(w: World)
  {
    forall a, b :: a in w.files && b in w.files && w.files[a].id == w.files[b].id ==> a == b
  }

  ghost predicate AllSound(w: World)
  {
    && (forall l :: l in w.files ==> Sound(w, l, w.files[l]))
    && (forall id :: id in w.asked ==> id < w.nextId)
    && (forall id :: id in w.durable ==> id in w.asked)
    && (w.writer.Some? ==> Writing(w) && WriterFile(w).id !in w.durable)
  }

  ghost predicate Held(w: World, id: nat)
  {
    exists l :: l in w.files && w.files[l].id == id
  }

  /** A file the caller was promised leaves the disk only after the server accepted it. */
  ghost predicate Kept(w: World)
  {
    forall id :: id in w.durable ==> Held(w, id) || Accepted(w, id)
  }

  predicate ValidRequest(q: Request)
  {
    IsStem(q.name) && Cacheable(q.record) && q.text == Encode(q.record)
  }

  ghost predicate ValidRequests(w: World)
  {
    forall id :: id in w.asked ==> ValidRequest(w.asked[id])
  }

  /** A delivery carries exactly the record the worker asked to cache. */
  predicate Faithful(w: World, d: Delivery)
  {
    d.id in w.asked && w.asked[d.id].name == d.name && w.asked[d.id].record == d.record
  }

  ghost predicate AllFaithful(w: World)
  {
    forall i :: 0 <= i < |w.delivered| ==> Faithful(w, w.delivered[i])
  }

  ghost predicate Inv(w: World)
  {
    OnePlace(w) && AllSound(w) && Kept(w) && ValidRequests(w) && AllFaithful(w)
  }

  lemma OnePlaceStep(w: World, op: Op)
    requires OnePlace(w) && AllSound(w) && Guard(w, op)
    ensures OnePlace(Apply(w, op))
  {
  }

  lemma AllSoundStep(w: World, op: Op)
    requires OnePlace(w) && AllSound(w) && Guard(w, op)
    ensures AllSound(Apply(w, op))
  {
    var w' := Apply(w, op);
    forall l | l in w'.files
      ensures Sound(w', l, w'.files[l])
    {
      if op.Finish? && w.files[l].id == WriterFile(w).id { assert l == Queued(w.writer.value); }
    }
  }

  lemma HeldStep(w: World, op: Op, id: nat)
    requires AllSound(w) && Guard(w, op) && Held(w, id) && id in w.durable
    ensures Held(Apply(w, op), id) || Accepted(w, id)
  {
    var w' := Apply(w, op);
    var l :| l in w.files && w.files[l].id == id;
    var l' := match op
      case Claim(n) => if l == Queued(n) then Claimed(n) else l
      case Return(n) => if l == Claimed(n) then Queued(n) else l
      case Reject(n) => if l == Claimed(n) then Rejected(n) else l
      case _ => l;
    if !(op.Remove? && l == Claimed(op.name)) { assert l' in w'.files && w'.files[l'].id == id; }
  }

  lemma AcceptedStep(w: World, op: Op, id: nat)
    requires Guard(w, op) && Accepted(w, id)
    ensures Accepted(Apply(w, op), id)
  {
    var i :| 0 <= i < |w.delivered| && w.delivered[i].id == id;
    assert Apply(w, op).delivered[i].id == id;
  }

  lemma KeptStep(w: World, op: Op)
    requires AllSound(w) && Kept(w) && Guard(w, op)
    ensures Kept(Apply(w, op))
  {
    var w' := Apply(w, op);
    forall id | id in w'.durable
      ensures Held(w', id) || Accepted(w', id)
    {
      if id !in w.durable {
        assert Queued(w.writer.value) in w'.files && w'.files[Queued(w.writer.value)].id == id;
      } else {
        if Accepted(w, id) { AcceptedStep(w, op, id); } else { HeldStep(w, op, id); }
      }
    }
  }

  lemma ValidRequestsStep(w: World, op: Op)
    requires ValidRequests(w) && Enabled(w, op)
    ensures ValidRequests(Apply(w, op))
  {
    if op.Create? { assert ValidRequest(Request(op.name, op.record, op.text)); }
  }

  /** Torn text decodes to the requested record or to nothing, so what is sent is what was asked. */
  lemma DecodesToAsked(w: World, l: Loc, r: Record)
    requires AllSound(w) && ValidRequests(w) && l in w.files && Decode(w.files[l].text) == Some(r)
    ensures w.asked[w.files[l].id].record == r
  {
    var f := w.files[l];
    assert Sound(w, l, f) && ValidRequest(w.asked[f.id]);
    TornRecord(w.asked[f.id].record, f.text);
  }

  lemma AllFaithfulStep(w: World, op: Op)
    requires AllSound(w) && AllFaithful(w) && Guard(w, op)
    requires op.Accept? ==> w.asked[w.files[Claimed(op.name)].id].record == op.record
    ensures AllFaithful(Apply(w, op))
  {
    var w' := Apply(w, op);
    forall i | 0 <= i < |w'.delivered|
      ensures Faithful(w', w'.delivered[i])
    {
      assert i < |w.delivered| ==> Faithful(w, w.delivered[i]);
    }
  }

  lemma InvStep(w: World, op: Op)
    requires Inv(w) && Enabled(w, op)
    ensures Inv(Apply(w, op))
  {
    OnePlaceStep(w, op);
    AllSoundStep(w, op);
    KeptStep(w, op);
    ValidRequestsStep(w, op);
    if op.Accept? { DecodesToAsked(w, Claimed(op.name), op.record); }
    AllFaithfulStep(w, op);
  }

  lemma {:induction false} InvRun(worlds: seq<World>, ops: seq<Op>, k: nat)
    requires Run(worlds, ops) && Init(worlds[0]) && k < |worlds|
    ensures Inv(worlds[k])
  {
    if k > 0 {
      InvRun(worlds, ops, k - 1);
      assert Step(worlds[k - 1], ops[k - 1], worlds[k]);
      InvStep(worlds[k - 1], ops[k - 1]);
    }
  }

  // ---------- What every run promises ----------

  lemma SoundRun(worlds: seq<World>, ops: seq<Op>, k: nat)
    requires Run(worlds, ops) && Init(worlds[0]) && k < |worlds|
    ensures OnePlace(worlds[k]) && AllSound(worlds[k])
  {
    InvRun(worlds, ops, k);
  }

  /** What was asked, and that it was promised, is neither forgotten nor rewritten. */
  predicate Remembers(w: World, w': World, id: nat)
  {
    && (id in w.asked ==> id in w'.asked && w'.asked[id] == w.asked[id])
    && (id in w.durable ==> id in w'.durable)
  }

  lemma HistoryStep(w: World, op: Op, id: nat)
    requires AllSound(w) && Guard(w, op)
    ensures Remembers(w, Apply(w, op), id)
  {
  }

  lemma {:induction false} HistoryPersists(worlds: seq<World>, ops: seq<Op>, i: nat, j: nat, id: nat)
    requires Run(worlds, ops) && Init(worlds[0]) && i <= j < |worlds|
    ensures Remembers(worlds[i], worlds[j], id)
    decreases j
  {
    if i < j {
      var k := j - 1;
      assert Step(worlds[k], ops[k], worlds[j]);
      HistoryPersists(worlds, ops, i, k, id);
      SoundRun(worlds, ops, k);
      HistoryStep(worlds[k], ops[k], id);
    }
  }

  /** Exactly one location holds the file, under its own name and with its whole text. */
  ghost predicate InOnePlace(w: World, id: nat, q: Request)
  {
    exists l :: l in w.files && w.files[l] == File(id, q.text) && l.name == q.name
      && forall l' :: l' in w.files && w.files[l'].id == id ==> l' == l
  }

  /** No location holds the file, and the server accepted exactly the record it was created for. */
  ghost predicate GoneAccepted(w: World, id: nat, q: Request)
  {
    && !Held(w, id)
    && exists i :: 0 <= i < |w.delivered| && w.delivered[i] == Delivery(q.name, id, q.record)
  }

  /** Conservation: once `_cache_offline` has returned, at every later point of every run -- crashes
      included -- the record is in exactly one of queue, claims or rejected, or was removed after acceptance. */
  lemma Conservation(worlds: seq<World>, ops: seq<Op>, i: nat, j: nat, id: nat)
    requires Run(worlds, ops) && Init(worlds[0]) && i <= j < |worlds| && id in worlds[i].durable
    ensures id in worlds[i].asked
    ensures InOnePlace(worlds[j], id, worlds[i].asked[id]) || GoneAccepted(worlds[j], id, worlds[i].asked[id])
    ensures !(InOnePlace(worlds[j], id, worlds[i].asked[id]) && GoneAccepted(worlds[j], id, worlds[i].asked[id]))
  {
    InvRun(worlds, ops, i);
    InvRun(worlds, ops, j);
    HistoryPersists(worlds, ops, i, j, id);
    var (w, q) := (worlds[j], worlds[i].asked[id]);
    if Held(w, id) {
      var l :| l in w.files && w.files[l].id == id;
      assert Sound(w, l, w.files[l]) && w.files[l] == File(id, q.text);
    } else {
      var k :| 0 <= k < |w.delivered| && w.delivered[k].id == id;
      assert Faithful(w, w.delivered[k]);
    }
  }

  /** The server never accepts anything but a record some caller asked to cache, under that record's name. */
  lemma NothingElseIsSent(worlds: seq<World>, ops: seq<Op>, j: nat, d: Delivery)
    requires Run(worlds, ops) && Init(worlds[0]) && j < |worlds| && d in worlds[j].delivered
    ensures d.id in worlds[j].asked && worlds[j].asked[d.id] == Request(d.name, d.record, Encode(d.record))
  {
    InvRun(worlds, ops, j);
    assert Faithful(worlds[j], d) && ValidRequest(worlds[j].asked[d.id]);
  }

  /** Names come from a nanosecond clock and a random nonce: no name is drawn twice. */
  ghost predicate FreshNames(worlds: seq<World>, ops: seq<Op>)
    requires |worlds| == |ops| + 1
  {
    forall i, id :: 0 <= i < |ops| && ops[i].Create? && id in worlds[i].asked ==> worlds[i].asked[id].name != ops[i].name
  }

  ghost predicate NamesDistinct(w: World)
  {
    forall a, b :: a in w.asked && b in w.asked && w.asked[a].name == w.asked[b].name ==> a == b
  }

  lemma NamesDistinctStep(w: World, op: Op)
    requires NamesDistinct(w) && Guard(w, op)
    requires op.Create? ==> forall id :: id in w.asked ==> w.asked[id].name != op.name
    ensures NamesDistinct(Apply(w, op))
  {
  }

  lemma {:induction false} NamesDistinctRun(worlds: seq<World>, ops: seq<Op>, k: nat)
    requires Run(worlds, ops) && Init(worlds[0]) && FreshNames(worlds, ops) && k < |worlds|
    ensures NamesDistinct(worlds[k])
  {
    if k > 0 {
      NamesDistinctRun(worlds, ops, k - 1);
      assert Step(worlds[k - 1], ops[k - 1], worlds[k]);
      NamesDistinctStep(worlds[k - 1], ops[k - 1]);
    }
  }

  /** With fresh names a stem is never held in two roles, so no rename finds its destination taken. */
  lemma FreshNamesNeverCollide(worlds: seq<World>, ops: seq<Op>, j: nat, l: Loc, l': Loc)
    requires Run(worlds, ops) && Init(worlds[0]) && FreshNames(worlds, ops) && j < |worlds|
    requires l in worlds[j].files && l' in worlds[j].files && l.name == l'.name
    ensures l == l'
  {
    SoundRun(worlds, ops, j);
    NamesDistinctRun(worlds, ops, j);
    var w := worlds[j];
    assert Sound(w, l, w.files[l]) && Sound(w, l', w.files[l']);
  }

  // ---------- The files by their names ----------

  /** Where a file is, by directory and file name. */
  datatype Path = InQueue(name: string) | InRejected(name: string)

  function PathOf(l: Loc): Path
  {
    match l
    case Queued(n) => InQueue(EntryName(n))
    case Claimed(n) => InQueue(ClaimName(n))
    case Rejected(n) => InRejected(EntryName(n))
  }

  predicate AllStems(files: map<Loc, File>)
  {
    forall l :: l in files ==> IsStem(l.name)
  }

  lemma StemsRun(worlds: seq<World>, ops: seq<Op>, j: nat)
    requires Run(worlds, ops) && Init(worlds[0]) && j < |worlds|
    ensures AllStems(worlds[j].files)
  {
    InvRun(worlds, ops, j);
    var w := worlds[j];
    forall l | l in w.files
      ensures IsStem(l.name)
    {
      assert Sound(w, l, w.files[l]) && ValidRequest(w.asked[w.files[l].id]);
    }
  }

  /** Entries and claims share a directory, yet different locations are different paths. */
  lemma PathInjective(l: Loc, l': Loc)
    requires IsStem(l.name) && IsStem(l'.name) && PathOf(l) == PathOf(l')
    ensures l == l'
  {
    NameForms(l.name);
    NameForms(l'.name);
    NamesDisjoint(PathOf(l).name);
  }

  /** In every reachable state the files are told apart by path, and the patterns for entries and claims each find
      exactly the files in that role. */
  lemma PathsTellApart(worlds: seq<World>, ops: seq<Op>, j: nat, l: Loc, l': Loc)
    requires Run(worlds, ops) && Init(worlds[0]) && j < |worlds| && l in worlds[j].files && l' in worlds[j].files
    ensures PathOf(l) == PathOf(l') <==> l == l'
    ensures l.Queued? <==> PathOf(l).InQueue? && IsQueueName(PathOf(l).name)
    ensures l.Claimed? <==> PathOf(l).InQueue? && IsClaimName(PathOf(l).name)
  {
    StemsRun(worlds, ops, j);
    NameForms(l.name);
    NamesDisjoint(PathOf(l).name);
    if PathOf(l) == PathOf(l') { PathInjective(l, l'); }
  }
}
