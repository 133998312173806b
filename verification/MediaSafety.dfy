/** Every interleaving of the clip worker with snapshots, cancellation, deletion,
    status reads and power loss, and what each step keeps. `used` notes drawn ids,
    `recordings` the media id each clip job was given, `stopped` the jobs a
    cancellation was accepted for, `published` the jobs whose recording was renamed
    into place. */
module MediaSafety {
  import opened Options
  import opened Media

  datatype System = System(
    store: Store, worker: Option<Worker>, used: set<Id>, recordings: map<Id, Id>, stopped: set<Id>, published: set<Id>)

  datatype Step =
    | TakeSnapshot(q: SnapshotInputs)
    | RequestClip(c: ClipInputs)
    | WorkerBegins(nowMs: nat)
    | WorkerPrepares(made: bool)
    | WorkerLooks
    | WorkerLeaves(error: Option<string>)
    | WorkerWrites(size: nat, complete: bool)
    | WorkerReports
    | WorkerPublishes(at: string, written: Written, after: Option<nat>, last: Readings)
    | Cancel(id: Id)
    | Remove(id: Id, removed: bool, left: Directory, free: Option<nat>)
    | ReadStatus(free: Option<nat>)
    | PowerLoss(boot: BootInputs)
    | PowerLossInSnapshot(q: SnapshotInputs, renamed: bool, debris: Directory, boot: BootInputs)
    | PowerLossInPublish(at: string, renamed: bool, manifestBytes: nat, debris: Directory, boot: BootInputs)

  /** A frame the camera hands out (camera_manager.cpp:46-54, 263-276). */
  predicate Sound(frame: Option<CapturedFrame>) {
    frame.Some? ==> 4 <= frame.value.size <= MAX_JPEG_BYTES && frame.value.width == 640 && frame.value.height == 480
  }

  predicate Listing(card: Card, entries: seq<DirName>) {
    && (forall name :: name in card ==> name in entries)
    && (forall i, j :: 0 <= i < j < |entries| ==> entries[i] != entries[j])
  }

  predicate SnapshotDrawn(s: System, q: SnapshotInputs) {
    q.id !in s.used && Sound(q.frame) && |q.at| <= 31 && Exact(q.createdMs) && Exact(s.store.nextOrdinal)
  }

  predicate Enabled(s: System, step: Step) {
    match step
    case TakeSnapshot(q) => SnapshotDrawn(s, q)
    case RequestClip(c) => c.jobId !in s.used && c.mediaId !in s.used && c.jobId != c.mediaId && Exact(c.nowMs)
    case WorkerBegins(_) => s.worker.Some? && s.worker.value.phase.Starting?
    case WorkerPrepares(_) => s.worker.Some? && s.worker.value.phase.Preparing?
    case WorkerLooks => s.worker.Some? && s.worker.value.phase.Looking?
    case WorkerLeaves(_) => s.worker.Some? && (s.worker.value.phase.Looking? || s.worker.value.phase.Writing?)
    case WorkerWrites(size, complete) =>
      s.worker.Some? && s.worker.value.phase.Writing? && (complete ==> 4 <= size <= MAX_JPEG_BYTES)
    case WorkerReports => s.worker.Some? && s.worker.value.phase.Reporting?
    case WorkerPublishes(at, _, _, _) =>
      s.worker.Some? && s.worker.value.phase.Publishing? && s.worker.value.fps > 0
      && |at| <= 31 && Exact(s.store.nextOrdinal)
    case PowerLoss(boot) => Listing(s.store.card, boot.entries)
    case PowerLossInSnapshot(q, renamed, debris, boot) =>
      && SnapshotDrawn(s, q) && SnapshotGuard(s.store, q).1 == Done && q.frame.Some?
      && Listing(SnapshotCut(s.store, q, renamed, debris).card, boot.entries)
    case PowerLossInPublish(at, renamed, manifestBytes, debris, boot) =>
      && s.worker.Some? && s.worker.value.phase.Publishing? && s.worker.value.fps > 0
      && Commits(s.store, s.worker.value) && |at| <= 31 && Exact(s.store.nextOrdinal)
      && Listing(PublishCut(s.store, s.worker.value, at, renamed, manifestBytes, debris).card, boot.entries)
    case _ => true
  }

  predicate Commits(s: Store, w: Worker) {
    s.cancel != Some(w.job.id) && w.ok && w.job.framesWritten > 0
  }

  /** Power is lost while a snapshot is stored: before the rename the partial directory
      holds anything, after it the whole snapshot. */
  function SnapshotCut(s: Store, q: SnapshotInputs, renamed: bool, debris: Directory): Store
    requires q.frame.Some?
  {
    var t := SnapshotGuard(s, q).0;
    var item := SnapshotItem(t, q.frame.value, q.id, q.at, q.createdMs);
    var u := t.(nextOrdinal := t.nextOrdinal + 1);
    if renamed then Added(u, item, SnapshotDirectory(item, if q.written.Committed? then q.written.manifestBytes else 0))
    else u.(card := u.card[Partial(q.id) := debris])
  }

  function PublishCut(s: Store, w: Worker, at: string, renamed: bool, manifestBytes: nat, debris: Directory): Store
    requires w.fps > 0
  {
    var item := ClipItem(s, w, at);
    var u := s.(nextOrdinal := s.nextOrdinal + 1);
    if renamed then Added(u, item, ClipDirectory(PartialOf(s, w), item, manifestBytes))
    else u.(card := u.card[Partial(w.mediaId) := debris])
  }

  function Hired(c: ClipInputs): Worker {
    Worker(Job(c.jobId, Queued, c.nowMs, 0, 0, None, ""), c.mediaId, c.durationMs, c.fps, true, 0, Starting)
  }

  function Rebooted(s: System, store: Store, boot: BootInputs): System {
    s.(store := Boot(store, boot), worker := None)
  }

  function Apply(s: System, step: Step): System
    requires Enabled(s, step)
  {
    match step
    case TakeSnapshot(q) => s.(store := StoreSnapshot(s.store, q).0, used := s.used + {q.id})
    case RequestClip(c) =>
      var (t, outcome) := StartClip(s.store, c);
      s.(store := t, used := s.used + {c.jobId, c.mediaId},
         recordings := if outcome == Done then s.recordings[c.jobId := c.mediaId] else s.recordings,
         worker := if outcome == Done then Some(Hired(c)) else s.worker)
    case WorkerBegins(nowMs) => var (t, w) := Begin(s.store, s.worker.value, nowMs); s.(store := t, worker := Some(w))
    case WorkerPrepares(made) => var (t, w) := Prepare(s.store, s.worker.value, made); s.(store := t, worker := Some(w))
    case WorkerLooks => s.(worker := Some(Look(s.store, s.worker.value)))
    case WorkerLeaves(error) => s.(worker := Some(Leave(s.worker.value, error)))
    case WorkerWrites(size, complete) =>
      var (t, w) := WriteFrame(s.store, s.worker.value, size, complete); s.(store := t, worker := Some(w))
    case WorkerReports => var (t, w) := Report(s.store, s.worker.value); s.(store := t, worker := Some(w))
    case WorkerPublishes(at, written, after, last) =>
      var w := s.worker.value;
      s.(store := Publish(s.store, w, at, written, after, last), worker := None,
         published := if Commits(s.store, w) && written.Committed? then s.published + {w.job.id} else s.published)
    case Cancel(id) =>
      var (t, r) := CancelJob(s.store, id);
      s.(store := t, stopped := if r.Ok? && r.value.state.Cancelling? then s.stopped + {id} else s.stopped)
    case Remove(id, removed, left, free) => s.(store := RemoveItem(s.store, id, removed, left, free).0)
    case ReadStatus(free) => s.(store := Refreshed(s.store, free))
    case PowerLoss(boot) => Rebooted(s, s.store, boot)
    case PowerLossInSnapshot(q, renamed, debris, boot) =>
      Rebooted(s, SnapshotCut(s.store, q, renamed, debris), boot).(used := s.used + {q.id})
    case PowerLossInPublish(at, renamed, manifestBytes, debris, boot) =>
      var w := s.worker.value;
      Rebooted(s, PublishCut(s.store, w, at, renamed, manifestBytes, debris), boot)
        .(published := if renamed then s.published + {w.job.id} else s.published)
  }

  function Start(limits: Limits): System {
    System(Store([], [], None, None, 1, false, map[], limits), None, {}, map[], {}, {})
  }

  // ----- Invariant -----

  /** Items ascend strictly, below the next number. */
  ghost predicate ItemsOk(items: seq<Item>, nextOrdinal: nat) {
    && nextOrdinal > 0
    && (forall i, j :: 0 <= i < j < |items| ==> items[i].ordinal < items[j].ordinal && items[i].id != items[j].id)
    && (forall i :: 0 <= i < |items| ==> items[i].ordinal < nextOrdinal)
  }

  ghost predicate Shelved(item: Item, card: Card) {
    && Published(item.id) in card
    && (var d := card[Published(item.id)];
        && (!d.cut ==> Loads(d, item.id) && Listed(d) == item)
        && (d.manifest.Some? ==> d.manifest.value.ordinal == item.ordinal))
  }

  ghost predicate Lists(items: seq<Item>, id: Id) {
    exists i :: 0 <= i < |items| && items[i].id == id
  }

  /** The list in memory is what a scan of the card finds. */
  ghost predicate CardOk(card: Card, items: seq<Item>) {
    && (forall i :: 0 <= i < |items| ==> Shelved(items[i], card))
    && (forall id :: Published(id) in card && Loads(card[Published(id)], id) ==> Lists(items, id))
  }

  ghost predicate Shelf(items: seq<Item>, nextOrdinal: nat, card: Card) {
    ItemsOk(items, nextOrdinal) && CardOk(card, items)
  }

  predicate Ended(state: JobState) { state.Cancelled? || state.Failed? || state.Complete? }

  ghost predicate JobsOk(jobs: seq<Job>, active: Option<Id>, cancel: Option<Id>, stopped: set<Id>, published: set<Id>) {
    && |jobs| <= MAX_JOBS_REMEMBERED
    && (forall i, j :: 0 <= i < j < |jobs| ==> jobs[i].id != jobs[j].id)
    && (cancel.Some? ==> cancel == active)
    && (forall i :: 0 <= i < |jobs| && active != Some(jobs[i].id) ==> Ended(jobs[i].state))
    && (forall i :: 0 <= i < |jobs| && jobs[i].id in stopped ==>
          !jobs[i].state.Queued? && !jobs[i].state.Running? && !jobs[i].state.Complete?)
    && (forall i :: 0 <= i < |jobs| ==>
          (jobs[i].id in published <==> jobs[i].state.Complete? && jobs[i].media.Some?))
    && (forall i :: 0 <= i < |jobs| && jobs[i].state.Complete? ==> (jobs[i].media.Some? <==> jobs[i].framesWritten > 0))
    && stopped !! published
    && (active.Some? ==>
          && active.value !in published && |jobs| > 0
          && (var last := jobs[|jobs| - 1];
              && last.id == active.value && !Ended(last.state)
              && (last.state.Cancelling? <==> cancel.Some?) && (last.id in stopped <==> cancel.Some?)))
  }

  /** How far the worker's locals have come. */
  ghost predicate Progress(w: Worker, cancel: Option<Id>) {
    && ClipArguments(w.durationMs, w.fps) && Exact(w.job.createdUptimeMs)
    && w.job.framesWritten <= FramesTarget(w.durationMs, w.fps)
    && 4 * w.job.framesWritten <= w.payload <= w.job.framesWritten * MAX_JPEG_BYTES
    && (!w.phase.Starting? ==>
          && w.job.framesTarget == FramesTarget(w.durationMs, w.fps)
          && (w.job.state.Running? || cancel.Some?) && w.job.media.None?)
    && (w.phase.Starting? || w.phase.Preparing? ==> w.job.framesWritten == 0 && w.ok)
    && (w.phase.Writing? ==> w.job.framesWritten < w.job.framesTarget)
    && (w.phase.Writing? || w.phase.Reporting? ==> w.ok)
  }

  ghost predicate Recording(w: Worker, card: Card) {
    && Published(w.mediaId) !in card
    && (w.ok && !w.phase.Starting? && !w.phase.Preparing? ==>
          && Partial(w.mediaId) in card
          && forall k: nat :: k < w.job.framesWritten ==> InRange(card[Partial(w.mediaId)], Frame(k)))
  }

  ghost predicate WorkerOk(worker: Option<Worker>, active: Option<Id>, cancel: Option<Id>, jobs: seq<Job>, card: Card) {
    && (worker.None? <==> active.None?)
    && (worker.Some? ==>
          var w := worker.value;
          && active == Some(w.job.id) && Progress(w, cancel) && Recording(w, card)
          && |jobs| > 0
          && (var last := jobs[|jobs| - 1];
              && last.framesTarget == FramesTarget(w.durationMs, w.fps) && Exact(last.createdUptimeMs)
              && last.media.None? && (w.phase.Starting? ==> last.framesWritten == 0)))
  }

  ghost predicate IdsOk(s: System) {
    && (forall id :: Published(id) in s.store.card ==> id in s.used)
    && (forall i :: 0 <= i < |s.store.jobs| ==> s.store.jobs[i].id in s.used)
    && s.stopped <= s.used && s.published <= s.used
    && (s.worker.Some? ==>
          var w := s.worker.value;
          w.mediaId in s.used && w.job.id in s.recordings && s.recordings[w.job.id] == w.mediaId)
  }

  /** No two jobs record under one id, and what is on the card was published. */
  ghost predicate RecordingsOk(recordings: map<Id, Id>, published: set<Id>, card: Card, used: set<Id>) {
    && (forall j :: j in recordings ==> j in used && recordings[j] in used)
    && (forall j, k :: j in recordings && k in recordings && j != k ==> recordings[j] != recordings[k])
    && (forall j :: j in recordings && Published(recordings[j]) in card ==> j in published)
  }

  ghost predicate Inv(s: System) {
    && Shelf(s.store.items, s.store.nextOrdinal, s.store.card)
    && JobsOk(s.store.jobs, s.store.active, s.store.cancel, s.stopped, s.published)
    && WorkerOk(s.worker, s.store.active, s.store.cancel, s.store.jobs, s.store.card)
    && IdsOk(s)
    && RecordingsOk(s.recordings, s.published, s.store.card, s.used)
  }

  /** What a step that only takes published things away leaves alone. */
  ghost predicate OnlyPublishedShrinks(card: Card, after: Card) {
    && (forall name :: name in after ==> name in card)
    && (forall id :: Partial(id) in card ==> Partial(id) in after && after[Partial(id)] == card[Partial(id)])
  }

  // ----- Removal -----

  lemma CutStaysShelved(item: Item, card: Card, left: Directory)
    requires Shelved(item, card)
    ensures var d := LeftBehind(card[Published(item.id)], left);
      Shelved(item, card[Published(item.id) := d]) && (Loads(d, item.id) ==> d.manifest == card[Published(item.id)].manifest)
  {
  }

  lemma CutKeepsShelf(s: Store, i: nat, left: Directory)
    requires Shelf(s.items, s.nextOrdinal, s.card) && i < |s.items|
    ensures var name := Published(s.items[i].id);
      name in s.card && Shelf(s.items, s.nextOrdinal, s.card[name := LeftBehind(s.card[name], left)])
      && OnlyPublishedShrinks(s.card, s.card[name := LeftBehind(s.card[name], left)])
  {
    assert Shelved(s.items[i], s.card);
    var name := Published(s.items[i].id);
    var card := s.card[name := LeftBehind(s.card[name], left)];
    forall j | 0 <= j < |s.items| ensures Shelved(s.items[j], card) {
      if j == i { CutStaysShelved(s.items[i], s.card, left); }
      else { assert Shelved(s.items[j], s.card); assert s.items[j].id != s.items[i].id; }
    }
    forall id | Published(id) in card && Loads(card[Published(id)], id) ensures Lists(s.items, id) {
      if id == s.items[i].id { assert Lists(s.items, id); }
    }
  }

  lemma TakenKeepsShelf(s: Store, i: nat)
    requires Shelf(s.items, s.nextOrdinal, s.card) && i < |s.items|
    ensures var card := s.card - {Published(s.items[i].id)};
      Shelf(s.items[..i] + s.items[i + 1..], s.nextOrdinal, card) && OnlyPublishedShrinks(s.card, card)
  {
    var items := s.items[..i] + s.items[i + 1..];
    var card := s.card - {Published(s.items[i].id)};
    assert forall j :: 0 <= j < |items| ==> items[j] == s.items[if j < i then j else j + 1];
    forall j | 0 <= j < |items| ensures Shelved(items[j], card) {
      assert Shelved(items[j], s.card);
      assert items[j].id != s.items[i].id;
    }
    forall id | Published(id) in card && Loads(card[Published(id)], id) ensures Lists(items, id) {
      assert Lists(s.items, id);
      var j :| 0 <= j < |s.items| && s.items[j].id == id;
      assert items[if j < i then j else j - 1].id == id;
    }
  }

  lemma ShrinksTwice(a: Card, b: Card, c: Card)
    requires OnlyPublishedShrinks(a, b) && OnlyPublishedShrinks(b, c)
    ensures OnlyPublishedShrinks(a, c)
  {
  }

  predicate GoesOn(s: Store, r: Readings, i: nat) {
    s.items != [] && Excess(s.items, FreeAt(r, i), s.limits) && i !in r.stuck
  }

  lemma RetainStops(s: Store, r: Readings, i: nat)
    requires Shelf(s.items, s.nextOrdinal, s.card) && !GoesOn(s, r, i)
    ensures var t := Retain(s, r, i);
      Shelf(t.items, t.nextOrdinal, t.card) && OnlyPublishedShrinks(s.card, t.card)
  {
    if s.items != [] && Excess(s.items, FreeAt(r, i), s.limits) { CutKeepsShelf(s, 0, r.left); }
  }

  lemma RetainGoesOn(s: Store, r: Readings, i: nat) returns (u: Store)
    requires Shelf(s.items, s.nextOrdinal, s.card) && GoesOn(s, r, i)
    ensures Retain(s, r, i) == Retain(u, r, i + 1) && |u.items| < |s.items|
    ensures Shelf(u.items, u.nextOrdinal, u.card) && OnlyPublishedShrinks(s.card, u.card)
  {
    TakenKeepsShelf(s, 0);
    assert s.items[..0] + s.items[1..] == s.items[1..];
    u := WithoutOldest(Refreshed(s, FreeAt(r, i)));
  }

  lemma {:induction false} RetainKeepsShelf(s: Store, r: Readings, i: nat)
    requires Shelf(s.items, s.nextOrdinal, s.card)
    ensures var t := Retain(s, r, i);
      Shelf(t.items, t.nextOrdinal, t.card) && OnlyPublishedShrinks(s.card, t.card)
    decreases |s.items|
  {
    if GoesOn(s, r, i) {
      var u := RetainGoesOn(s, r, i);
      RetainKeepsShelf(u, r, i + 1);
      ShrinksTwice(s.card, u.card, Retain(u, r, i + 1).card);
    } else {
      RetainStops(s, r, i);
    }
  }

  // ----- Publication -----

  lemma AddedKeepsShelf(s: Store, item: Item, d: Directory)
    requires Shelf(s.items, item.ordinal, s.card) && item.ordinal < s.nextOrdinal
    requires Published(item.id) !in s.card && Loads(d, item.id) && !d.cut && d.manifest == Some(item)
    ensures var t := Added(s, item, d); Shelf(t.items, t.nextOrdinal, t.card)
  {
    var t := Added(s, item, d);
    forall j | 0 <= j < |t.items| ensures Shelved(t.items[j], t.card) {
      if j < |s.items| { assert Shelved(s.items[j], s.card); }
    }
    forall id | Published(id) in t.card && Loads(t.card[Published(id)], id) ensures Lists(t.items, id) {
      if id == item.id { assert t.items[|s.items|].id == id; }
      else {
        assert Lists(s.items, id);
        var j :| 0 <= j < |s.items| && s.items[j].id == id;
        assert t.items[j].id == id;
      }
    }
    forall j | 0 <= j < |s.items| ensures s.items[j].id != item.id {
      assert Shelved(s.items[j], s.card);
    }
  }

  lemma PartialKeepsShelf(items: seq<Item>, nextOrdinal: nat, card: Card, after: Card)
    requires Shelf(items, nextOrdinal, card)
    requires forall id :: Published(id) in card <==> Published(id) in after
    requires forall id :: Published(id) in card ==> after[Published(id)] == card[Published(id)]
    ensures Shelf(items, nextOrdinal, after)
  {
    forall i | 0 <= i < |items| ensures Shelved(items[i], after) { assert Shelved(items[i], card); }
  }

  /** A clip cut short is never longer than asked, whatever the frame rate. */
  lemma ClipDuration(durationMs: nat, fps: nat, frames: nat)
    requires ClipArguments(durationMs, fps) && frames <= FramesTarget(durationMs, fps)
    ensures 1000 * frames / fps <= durationMs <= MAX_CLIP_DURATION_MS && FramesTarget(durationMs, fps) <= MAX_CLIP_FRAMES
  {
    assert durationMs * fps >= 1000 by { assert durationMs * fps >= 1000 * 1; }
    assert frames <= durationMs * fps / 1000;
    assert 1000 * frames <= durationMs * fps;
    QuotientWithin(1000 * frames, durationMs, fps);
  }

  lemma QuotientWithin(a: nat, b: nat, n: nat)
    requires n > 0 && a <= b * n
    ensures a / n <= b
  {
    var q := a / n;
    assert q * n <= a;
    assert (q - b) * n <= 0;
  }

  lemma SnapshotLoads(item: Item, manifestBytes: nat)
    requires item.kind.Snapshot? && item.width == 640 && item.height == 480 && item.frameCount == 1
    requires item.fps == 0 && item.durationMs == 0 && 4 <= item.sizeBytes <= MAX_JPEG_BYTES
    requires |item.createdAt| <= 31 && Exact(item.createdUptimeMs) && Exact(item.ordinal) && item.ordinal > 0
    ensures Loads(SnapshotDirectory(item, manifestBytes), item.id)
  {
  }

  /** The manifest the worker commits is one the scan accepts. */
  lemma ClipLoads(s: Store, w: Worker, at: string, manifestBytes: nat)
    requires Progress(w, s.cancel) && Recording(w, s.card) && w.phase.Publishing? && Commits(s, w)
    requires |at| <= 31 && Exact(s.nextOrdinal) && s.nextOrdinal > 0
    ensures var item := ClipItem(s, w, at); Loads(ClipDirectory(PartialOf(s, w), item, manifestBytes), w.mediaId)
  {
    ClipDuration(w.durationMs, w.fps, w.job.framesWritten);
    assert w.payload <= MAX_CLIP_FRAMES * MAX_JPEG_BYTES;
    var d := PartialOf(s, w);
    assert InRange(d, Frame(0)) && InRange(d, Frame(w.job.framesWritten - 1));
  }

  // ----- The scan -----

  ghost predicate Ascending(items: seq<Item>) {
    forall i, j :: 0 <= i < j < |items| ==> items[i].ordinal < items[j].ordinal
  }

  ghost predicate OrdinalsDiffer(items: seq<Item>) {
    forall i, j :: 0 <= i < j < |items| ==> items[i].ordinal != items[j].ordinal
  }

  lemma {:induction false} InsertKeepsOrder(item: Item, sorted: seq<Item>)
    requires Ascending(sorted) && forall x :: x in sorted ==> x.ordinal != item.ordinal
    ensures Ascending(Insert(item, sorted))
    ensures forall x :: x in Insert(item, sorted) <==> x == item || x in sorted
  {
    if sorted != [] && item.ordinal > sorted[0].ordinal {
      InsertKeepsOrder(item, sorted[1..]);
      var rest := Insert(item, sorted[1..]);
      forall j | 0 <= j < |rest| ensures sorted[0].ordinal < rest[j].ordinal { assert rest[j] in rest; }
    }
  }

  lemma {:induction false} SortOrders(items: seq<Item>)
    requires OrdinalsDiffer(items)
    ensures Ascending(SortByOrdinal(items))
    ensures forall x :: x in SortByOrdinal(items) <==> x in items
  {
    if items != [] {
      SortOrders(items[1..]);
      InsertKeepsOrder(items[0], SortByOrdinal(items[1..]));
    }
  }

  ghost predicate LoadableApart(card: Card) {
    forall a, b | Published(a) in card && Published(b) in card && a != b ::
      Loads(card[Published(a)], a) && Loads(card[Published(b)], b) ==>
        card[Published(a)].manifest.value.ordinal != card[Published(b)].manifest.value.ordinal
  }

  lemma ShelfIsApart(items: seq<Item>, nextOrdinal: nat, card: Card)
    requires Shelf(items, nextOrdinal, card)
    ensures LoadableApart(card)
  {
    forall a, b | Published(a) in card && Published(b) in card && a != b
        && Loads(card[Published(a)], a) && Loads(card[Published(b)], b)
      ensures card[Published(a)].manifest.value.ordinal != card[Published(b)].manifest.value.ordinal
    {
      var i :| 0 <= i < |items| && items[i].id == a;
      var j :| 0 <= j < |items| && items[j].id == b;
      assert Shelved(items[i], card) && Shelved(items[j], card);
    }
  }

  /** `x` is what the scan lists for a directory of the card. */
  predicate OnCard(card: Card, x: Item) {
    Published(x.id) in card && Loads(card[Published(x.id)], x.id) && x == Listed(card[Published(x.id)])
  }

  lemma {:induction false} CollectedAreOnCard(card: Card, entries: seq<DirName>)
    requires LoadableApart(card) && forall i, j :: 0 <= i < j < |entries| ==> entries[i] != entries[j]
    ensures forall x :: x in Collected(card, entries) <==> Published(x.id) in entries && OnCard(card, x)
    ensures OrdinalsDiffer(Collected(card, entries))
  {
    if entries != [] {
      var front, name := entries[..|entries| - 1], entries[|entries| - 1];
      CollectedAreOnCard(card, front);
      assert entries == front + [name];
      var all := Collected(card, entries);
      if name.Published? && name in card && Loads(card[name], name.id) {
        var rest := Collected(card, front);
        forall i | 0 <= i < |rest| ensures rest[i].ordinal != Listed(card[name]).ordinal {
          assert rest[i] in rest;
        }
        assert all == rest + [Listed(card[name])];
      }
    }
  }

  lemma ScanFinds(s: Store, entries: seq<DirName>, stuck: set<Id>)
    requires LoadableApart(s.card) && Listing(s.card, entries)
    ensures var items := Scan(s, entries, stuck).items;
      Ascending(items) && forall x :: x in items <==> OnCard(s.card, x)
  {
    CollectedAreOnCard(s.card, entries);
    SortOrders(Collected(s.card, entries));
  }

  lemma ScanKeepsShelf(s: Store, entries: seq<DirName>, stuck: set<Id>)
    requires LoadableApart(s.card) && Listing(s.card, entries) && s.nextOrdinal > 0
    ensures var t := Scan(s, entries, stuck); Shelf(t.items, t.nextOrdinal, t.card)
  {
    ScanFinds(s, entries, stuck);
    var t := Scan(s, entries, stuck);
    forall i, j | 0 <= i < j < |t.items| ensures t.items[i].id != t.items[j].id {
      assert t.items[i] in t.items && t.items[j] in t.items;
    }
    forall i | 0 <= i < |t.items| ensures Shelved(t.items[i], t.card) {
      assert t.items[i] in t.items;
    }
    forall id | Published(id) in t.card && Loads(t.card[Published(id)], id) ensures Lists(t.items, id) {
      var x := Listed(s.card[Published(id)]);
      assert OnCard(s.card, x);
      assert x in t.items;
    }
  }

  lemma BootKeepsShelf(s: Store, boot: BootInputs)
    requires LoadableApart(s.card) && Listing(s.card, boot.entries)
    ensures var t := Boot(s, boot);
      Shelf(t.items, t.nextOrdinal, t.card) && t.jobs == [] && t.active.None? && t.cancel.None?
      && (forall name :: name in t.card ==> name in s.card)
  {
    var blank := Store([], [], None, None, Max(1, boot.stored), boot.writable, s.card, s.limits);
    ScanKeepsShelf(blank, boot.entries, boot.stuck);
    var t := Refreshed(Scan(blank, boot.entries, boot.stuck), boot.free);
    if t.writable { RetainKeepsShelf(t, boot.retention, 0); }
  }

  // ----- Job records -----

  lemma UpdatesLast(jobs: seq<Job>, job: Job)
    requires |jobs| > 0 && jobs[|jobs| - 1].id == job.id
    requires forall i, j :: 0 <= i < j < |jobs| ==> jobs[i].id != jobs[j].id
    ensures UpdateJob(jobs, job) == jobs[|jobs| - 1 := job]
  {
  }

  lemma NewJob(jobs: seq<Job>, job: Job)
    requires |jobs| <= MAX_JOBS_REMEMBERED && forall i :: 0 <= i < |jobs| ==> jobs[i].id != job.id
    ensures UpdateJob(jobs, job) == (if |jobs| == MAX_JOBS_REMEMBERED then jobs[1..] else jobs) + [job]
  {
    assert |jobs| == MAX_JOBS_REMEMBERED ==> (jobs + [job])[1..] == jobs[1..] + [job];
  }

  lemma NewJobKeeps(jobs: seq<Job>, job: Job, stopped: set<Id>, published: set<Id>)
    requires JobsOk(jobs, None, None, stopped, published) && job.state.Queued? && job.media.None?
    requires job.id !in stopped && job.id !in published && forall i :: 0 <= i < |jobs| ==> jobs[i].id != job.id
    ensures JobsOk(UpdateJob(jobs, job), Some(job.id), None, stopped, published)
    ensures var all := UpdateJob(jobs, job); |all| > 0 && all[|all| - 1] == job
    ensures forall i :: 0 <= i < |UpdateJob(jobs, job)| ==>
      UpdateJob(jobs, job)[i] == job || UpdateJob(jobs, job)[i] in jobs
  {
    NewJob(jobs, job);
  }

  /** The newest record, whose job is active, is overwritten while the job runs ... */
  lemma LastRuns(jobs: seq<Job>, job: Job, cancel: Option<Id>, stopped: set<Id>, published: set<Id>)
    requires JobsOk(jobs, Some(job.id), cancel, stopped, published)
    requires !Ended(job.state) && (job.state.Cancelling? <==> cancel.Some?) && job.media.None?
    ensures UpdateJob(jobs, job) == jobs[|jobs| - 1 := job]
    ensures JobsOk(jobs[|jobs| - 1 := job], Some(job.id), cancel, stopped, published)
  {
    UpdatesLast(jobs, job);
  }

  /** ... or as it ends. */
  lemma LastEnds(jobs: seq<Job>, job: Job, cancel: Option<Id>, stopped: set<Id>, published: set<Id>, more: set<Id>)
    requires JobsOk(jobs, Some(job.id), cancel, stopped, published) && Ended(job.state)
    requires more == (if job.state.Complete? && job.media.Some? then published + {job.id} else published)
    requires job.state.Complete? ==> cancel.None? && (job.media.Some? <==> job.framesWritten > 0)
    ensures UpdateJob(jobs, job) == jobs[|jobs| - 1 := job]
    ensures JobsOk(jobs[|jobs| - 1 := job], None, None, stopped, more)
  {
    UpdatesLast(jobs, job);
  }

  // ----- Steps -----

  /** A step that at most takes published items away. */
  lemma ShrinkKeeps(s: System, t: Store)
    requires Inv(s) && Shelf(t.items, t.nextOrdinal, t.card) && OnlyPublishedShrinks(s.store.card, t.card)
    requires t.jobs == s.store.jobs && t.active == s.store.active && t.cancel == s.store.cancel
    ensures Inv(s.(store := t))
  {
  }

  /** A new id is drawn. */
  lemma DrawKeeps(s: System, ids: set<Id>)
    requires Inv(s)
    ensures Inv(s.(used := s.used + ids))
  {
  }

  /** Only directories of a fresh id change, besides items going. */
  lemma SideStepKeeps(s: System, t: Store, id: Id)
    requires Inv(s) && Shelf(t.items, t.nextOrdinal, t.card) && id !in s.used
    requires forall name :: name in t.card ==> name in s.store.card || name.id == id
    requires forall other :: Partial(other) in s.store.card && other != id ==>
      Partial(other) in t.card && t.card[Partial(other)] == s.store.card[Partial(other)]
    requires t.jobs == s.store.jobs && t.active == s.store.active && t.cancel == s.store.cancel
    ensures Inv(s.(store := t, used := s.used + {id}))
  {
  }

  lemma GuardKeepsShelf(s: Store, q: SnapshotInputs)
    requires Shelf(s.items, s.nextOrdinal, s.card)
    ensures var t := SnapshotGuard(s, q).0;
      Shelf(t.items, t.nextOrdinal, t.card) && OnlyPublishedShrinks(s.card, t.card)
      && t == s.(items := t.items, card := t.card, writable := t.writable)
  {
    RetainKeepsShelf(s, q.first, 0);
  }

  lemma SettledKeepsShelf(s: Store, free: Option<nat>, r: Readings)
    requires Shelf(s.items, s.nextOrdinal, s.card)
    ensures var t := Settled(s, free, r);
      Shelf(t.items, t.nextOrdinal, t.card) && OnlyPublishedShrinks(s.card, t.card)
      && t == s.(items := t.items, card := t.card, writable := t.writable)
  {
    RetainKeepsShelf(Refreshed(s, free), r, 0);
  }

  /** The snapshot, once renamed into place. */
  lemma SnapshotJoinsShelf(t: Store, frame: CapturedFrame, id: Id, at: string, createdMs: nat, manifestBytes: nat)
    requires Shelf(t.items, t.nextOrdinal, t.card) && Published(id) !in t.card
    requires Sound(Some(frame)) && |at| <= 31 && Exact(createdMs) && Exact(t.nextOrdinal)
    ensures var item := SnapshotItem(t, frame, id, at, createdMs);
      var u := Added(t.(nextOrdinal := t.nextOrdinal + 1), item, SnapshotDirectory(item, manifestBytes));
      Shelf(u.items, u.nextOrdinal, u.card)
  {
    var item := SnapshotItem(t, frame, id, at, createdMs);
    SnapshotLoads(item, manifestBytes);
    AddedKeepsShelf(t.(nextOrdinal := t.nextOrdinal + 1), item, SnapshotDirectory(item, manifestBytes));
  }

  lemma SnapshotRefusedKeeps(s: System, q: SnapshotInputs)
    requires Inv(s) && q.id !in s.used
    ensures Inv(s.(store := SnapshotGuard(s.store, q).0, used := s.used + {q.id}))
  {
    GuardKeepsShelf(s.store, q);
    SideStepKeeps(s, SnapshotGuard(s.store, q).0, q.id);
  }

  lemma SnapshotLostKeeps(s: System, q: SnapshotInputs, debris: Option<Directory>)
    requires Inv(s) && q.id !in s.used
    ensures var t := SnapshotGuard(s.store, q).0;
      Inv(s.(store := t.(nextOrdinal := t.nextOrdinal + 1, card := Dropped(t.card, Partial(q.id), debris)), used := s.used + {q.id}))
  {
    var t := SnapshotGuard(s.store, q).0;
    GuardKeepsShelf(s.store, q);
    var card := Dropped(t.card, Partial(q.id), debris);
    PartialKeepsShelf(t.items, t.nextOrdinal + 1, t.card, card);
    SideStepKeeps(s, t.(nextOrdinal := t.nextOrdinal + 1, card := card), q.id);
  }

  lemma SnapshotStoredKeeps(s: System, q: SnapshotInputs, manifestBytes: nat)
    requires Inv(s) && SnapshotDrawn(s, q) && q.frame.Some?
    ensures var t := SnapshotGuard(s.store, q).0;
      var item := SnapshotItem(t, q.frame.value, q.id, q.at, q.createdMs);
      var added := Added(t.(nextOrdinal := t.nextOrdinal + 1), item, SnapshotDirectory(item, manifestBytes));
      Inv(s.(store := Settled(added, q.after, q.last), used := s.used + {q.id}))
  {
    var t := SnapshotGuard(s.store, q).0;
    GuardKeepsShelf(s.store, q);
    var item := SnapshotItem(t, q.frame.value, q.id, q.at, q.createdMs);
    SnapshotJoinsShelf(t, q.frame.value, q.id, q.at, q.createdMs, manifestBytes);
    var added := Added(t.(nextOrdinal := t.nextOrdinal + 1), item, SnapshotDirectory(item, manifestBytes));
    SettledKeepsShelf(added, q.after, q.last);
    SideStepKeeps(s, Settled(added, q.after, q.last), q.id);
  }

  lemma SnapshotKeeps(s: System, q: SnapshotInputs)
    requires Inv(s) && SnapshotDrawn(s, q)
    ensures Inv(s.(store := StoreSnapshot(s.store, q).0, used := s.used + {q.id}))
  {
    if SnapshotGuard(s.store, q).1 != Done || q.frame.None? {
      SnapshotRefusedKeeps(s, q);
    } else {
      match q.written
      case Lost(debris) => SnapshotLostKeeps(s, q, debris);
      case Committed(manifestBytes) => SnapshotStoredKeeps(s, q, manifestBytes);
    }
  }

  /** Both ids are drawn and old items have gone. */
  function Cleared(s: System, c: ClipInputs): System {
    s.(store := Refreshed(Retain(s.store, c.first, 0), c.free), used := s.used + {c.jobId, c.mediaId})
  }

  lemma ClearedKeeps(s: System, c: ClipInputs)
    requires Inv(s) && Enabled(s, RequestClip(c))
    ensures Inv(Cleared(s, c))
    ensures Published(c.mediaId) !in Cleared(s, c).store.card
    ensures c.jobId !in s.recordings && forall j :: j in s.recordings ==> s.recordings[j] != c.mediaId
    ensures c.jobId !in s.stopped && c.jobId !in s.published
    ensures forall i :: 0 <= i < |s.store.jobs| ==> s.store.jobs[i].id != c.jobId
  {
    DrawKeeps(s, {c.jobId, c.mediaId});
    RetainKeepsShelf(s.store, c.first, 0);
    ShrinkKeeps(s.(used := s.used + {c.jobId, c.mediaId}), Cleared(s, c).store);
  }

  lemma HiringKeeps(s: System, c: ClipInputs, n: System)
    requires Inv(n) && n == Cleared(s, c) && StartClip(s.store, c).1 == Done
    requires Exact(c.nowMs) && Published(c.mediaId) !in n.store.card
    requires c.jobId !in n.recordings && forall j :: j in n.recordings ==> n.recordings[j] != c.mediaId
    requires c.jobId !in n.stopped && c.jobId !in n.published
    requires forall i :: 0 <= i < |n.store.jobs| ==> n.store.jobs[i].id != c.jobId
    ensures Inv(n.(store := StartClip(s.store, c).0, recordings := n.recordings[c.jobId := c.mediaId], worker := Some(Hired(c))))
  {
    var job := Job(c.jobId, Queued, c.nowMs, 0, FramesTarget(c.durationMs, c.fps), None, "");
    NewJobKeeps(n.store.jobs, job, n.stopped, n.published);
    HiredKeeps(n, c, job);
  }

  lemma FailedJobKeeps(jobs: seq<Job>, job: Job, stopped: set<Id>, published: set<Id>)
    requires JobsOk(jobs, None, None, stopped, published) && job.state.Queued? && job.media.None? && job.error == ""
    requires job.id !in stopped && job.id !in published && forall i :: 0 <= i < |jobs| ==> jobs[i].id != job.id
    ensures var all := UpdateJob(UpdateJob(jobs, job), job.(state := Failed, error := "clip_worker_unavailable"));
      JobsOk(all, None, None, stopped, published) && forall i :: 0 <= i < |all| ==> all[i].id == job.id || all[i] in jobs
  {
    NewJobKeeps(jobs, job, stopped, published);
    LastEnds(UpdateJob(jobs, job), job.(state := Failed, error := "clip_worker_unavailable"), None, stopped, published, published);
  }

  lemma NotHiringKeeps(s: System, c: ClipInputs, n: System)
    requires Inv(n) && n == Cleared(s, c) && StartClip(s.store, c).1 == Fail
    requires c.jobId !in n.stopped && c.jobId !in n.published
    requires forall i :: 0 <= i < |n.store.jobs| ==> n.store.jobs[i].id != c.jobId
    ensures Inv(n.(store := StartClip(s.store, c).0))
  {
    var job := Job(c.jobId, Queued, c.nowMs, 0, FramesTarget(c.durationMs, c.fps), None, "");
    FailedJobKeeps(n.store.jobs, job, n.stopped, n.published);
    UnhiredKeeps(n, StartClip(s.store, c).0, c.jobId);
  }

  lemma RequestClipKeeps(s: System, c: ClipInputs)
    requires Inv(s) && Enabled(s, RequestClip(c))
    ensures Inv(Apply(s, RequestClip(c)))
  {
    ClearedKeeps(s, c);
    DrawKeeps(s, {c.jobId, c.mediaId});
    var outcome := StartClip(s.store, c).1;
    if outcome == Done {
      HiringKeeps(s, c, Cleared(s, c));
    } else if outcome == Fail {
      NotHiringKeeps(s, c, Cleared(s, c));
    }
  }

  lemma HiredKeeps(s: System, c: ClipInputs, job: Job)
    requires Inv(s) && s.store.active.None? && ClipArguments(c.durationMs, c.fps) && Exact(c.nowMs)
    requires job == Job(c.jobId, Queued, c.nowMs, 0, FramesTarget(c.durationMs, c.fps), None, "")
    requires JobsOk(UpdateJob(s.store.jobs, job), Some(c.jobId), None, s.stopped, s.published)
    requires var all := UpdateJob(s.store.jobs, job);
      |all| > 0 && all[|all| - 1] == job && forall i :: 0 <= i < |all| ==> all[i] == job || all[i] in s.store.jobs
    requires c.jobId in s.used && c.mediaId in s.used && Published(c.mediaId) !in s.store.card
    requires c.jobId !in s.recordings && forall j :: j in s.recordings ==> s.recordings[j] != c.mediaId
    ensures Inv(s.(store := s.store.(jobs := UpdateJob(s.store.jobs, job), active := Some(c.jobId)),
                   recordings := s.recordings[c.jobId := c.mediaId], worker := Some(Hired(c))))
  {
  }

  lemma UnhiredKeeps(s: System, u: Store, jobId: Id)
    requires Inv(s) && u == s.store.(jobs := u.jobs) && s.store.active.None? && jobId in s.used
    requires JobsOk(u.jobs, None, None, s.stopped, s.published)
    requires forall i :: 0 <= i < |u.jobs| ==> u.jobs[i].id == jobId || u.jobs[i] in s.store.jobs
    ensures Inv(s.(store := u))
  {
  }

  /** A step of the worker that writes its job record back as the newest one. */
  lemma RecordKeeps(s: System, w: Worker)
    requires Inv(s) && s.worker.Some? && w.job.id == s.worker.value.job.id && w.mediaId == s.worker.value.mediaId
    requires w.durationMs == s.worker.value.durationMs && w.fps == s.worker.value.fps
    requires !Ended(w.job.state) && (w.job.state.Cancelling? <==> s.store.cancel.Some?) && w.job.media.None?
    requires Progress(w, s.store.cancel) && Recording(w, s.store.card) && !w.phase.Starting?
    ensures Inv(s.(store := s.store.(jobs := UpdateJob(s.store.jobs, w.job)), worker := Some(w)))
  {
    LastRuns(s.store.jobs, w.job, s.store.cancel, s.stopped, s.published);
  }

  lemma BeginKeeps(s: System, nowMs: nat)
    requires Inv(s) && Enabled(s, WorkerBegins(nowMs))
    ensures Inv(Apply(s, WorkerBegins(nowMs)))
  {
    var w := s.worker.value;
    var last := s.store.jobs[|s.store.jobs| - 1];
    assert Find(s.store.jobs, w.job.id) == |s.store.jobs| - 1;
    var job := if last.state != Cancelling then last.(state := Running) else last;
    RecordKeeps(s, w.(job := job, phase := Preparing));
  }

  /** A step of the worker on its own locals and its partial directory. */
  lemma WorkerAloneKeeps(s: System, w: Worker, card: Card)
    requires Inv(s) && s.worker.Some? && w.job.id == s.worker.value.job.id && w.mediaId == s.worker.value.mediaId
    requires w.durationMs == s.worker.value.durationMs && w.fps == s.worker.value.fps
    requires !w.phase.Starting? && Progress(w, s.store.cancel) && Recording(w, card)
    requires forall name :: name != Partial(w.mediaId) ==>
      (name in s.store.card <==> name in card) && (name in card ==> card[name] == s.store.card[name])
    ensures Inv(s.(store := s.store.(card := card), worker := Some(w)))
  {
    PartialKeepsShelf(s.store.items, s.store.nextOrdinal, s.store.card, card);
  }

  lemma ReportKeeps(s: System)
    requires Inv(s) && Enabled(s, WorkerReports)
    ensures Inv(Apply(s, WorkerReports))
  {
    var w := s.worker.value;
    if s.store.cancel == Some(w.job.id) {
      WorkerAloneKeeps(s, w.(job := w.job.(state := Cancelled), ok := false, phase := Publishing), s.store.card);
    } else {
      RecordKeeps(s, w.(phase := Looking));
    }
  }

  lemma WriteKeeps(s: System, size: nat, complete: bool)
    requires Inv(s) && Enabled(s, WorkerWrites(size, complete))
    ensures Inv(Apply(s, WorkerWrites(size, complete)))
  {
    var (t, w) := WriteFrame(s.store, s.worker.value, size, complete);
    WorkerAloneKeeps(s, w, t.card);
  }

  lemma WorkerStepKeeps(s: System, step: Step)
    requires Inv(s) && Enabled(s, step)
    requires step.WorkerPrepares? || step.WorkerLooks? || step.WorkerLeaves?
    ensures Inv(Apply(s, step))
  {
    var r := Apply(s, step);
    WorkerAloneKeeps(s, r.worker.value, r.store.card);
  }

  /** The end of the worker: its record is final, its partial directory is gone or debris. */
  lemma FinishKeeps(s: System, t: Store, job: Job, published: set<Id>)
    requires Inv(s) && s.worker.Some? && job.id == s.worker.value.job.id && Ended(job.state)
    requires published == (if job.state.Complete? && job.media.Some? then s.published + {job.id} else s.published)
    requires job.state.Complete? ==> s.store.cancel.None? && (job.media.Some? <==> job.framesWritten > 0)
    requires Shelf(t.items, t.nextOrdinal, t.card) && t.jobs == s.store.jobs
    requires forall id :: Published(id) in t.card ==>
      Published(id) in s.store.card || (id == s.worker.value.mediaId && job.id in published)
    ensures Inv(s.(store := t.(cancel := None, active := None, jobs := UpdateJob(t.jobs, job)), worker := None,
                   published := published))
  {
    LastEnds(s.store.jobs, job, s.store.cancel, s.stopped, s.published, published);
  }

  lemma ClipJoinsShelf(s: System, at: string, manifestBytes: nat)
    requires Inv(s) && s.worker.Some? && s.worker.value.phase.Publishing? && Commits(s.store, s.worker.value)
    requires |at| <= 31 && Exact(s.store.nextOrdinal)
    ensures s.worker.value.fps > 0
    ensures var item := ClipItem(s.store, s.worker.value, at);
      var u := Added(s.store.(nextOrdinal := s.store.nextOrdinal + 1), item,
                     ClipDirectory(PartialOf(s.store, s.worker.value), item, manifestBytes));
      Shelf(u.items, u.nextOrdinal, u.card)
  {
    var w := s.worker.value;
    var item := ClipItem(s.store, w, at);
    ClipLoads(s.store, w, at, manifestBytes);
    AddedKeepsShelf(s.store.(nextOrdinal := s.store.nextOrdinal + 1), item,
                    ClipDirectory(PartialOf(s.store, w), item, manifestBytes));
  }

  lemma DiscardKeepsShelf(s: Store, job: Job, mediaId: Id, debris: Option<Directory>, error: string)
    requires Shelf(s.items, s.nextOrdinal, s.card)
    ensures var (t, j) := Discard(s, job, mediaId, debris, error);
      Shelf(t.items, t.nextOrdinal, t.card) && j.id == job.id && (j.state.Cancelled? || j.state.Failed?) && j.media == job.media
      && (forall id :: Published(id) in t.card ==> Published(id) in s.card)
  {
    PartialKeepsShelf(s.items, s.nextOrdinal, s.card, Dropped(s.card, Partial(mediaId), debris));
  }

  lemma CommitKeeps(s: System, at: string, written: Written, after: Option<nat>, last: Readings)
    requires Inv(s) && Enabled(s, WorkerPublishes(at, written, after, last)) && Commits(s.store, s.worker.value)
    ensures Inv(Apply(s, WorkerPublishes(at, written, after, last)))
  {
    var w := s.worker.value;
    var u := s.store.(nextOrdinal := s.store.nextOrdinal + 1);
    var (t, job) := Commit(s.store, w, at, written, after, last);
    match written
    case Committed(manifestBytes) =>
      ClipJoinsShelf(s, at, manifestBytes);
      var item := ClipItem(s.store, w, at);
      SettledKeepsShelf(Added(u, item, ClipDirectory(PartialOf(s.store, w), item, manifestBytes)), after, last);
      FinishKeeps(s, t, job, s.published + {w.job.id});
    case Lost(debris) =>
      DiscardKeepsShelf(u, w.job, w.mediaId, debris, "clip_commit_failed");
      FinishKeeps(s, t, job, s.published);
  }

  lemma PublishKeeps(s: System, at: string, written: Written, after: Option<nat>, last: Readings)
    requires Inv(s) && Enabled(s, WorkerPublishes(at, written, after, last))
    ensures Inv(Apply(s, WorkerPublishes(at, written, after, last)))
  {
    var w := s.worker.value;
    if Commits(s.store, w) {
      CommitKeeps(s, at, written, after, last);
    } else if s.store.cancel != Some(w.job.id) && w.ok {
      SettledKeepsShelf(s.store, after, last);
      FinishKeeps(s, Settled(s.store, after, last),
        w.job.(state := Complete, error := if w.job.error == "" then "clip_empty" else w.job.error), s.published);
    } else {
      var job := if s.store.cancel == Some(w.job.id) then w.job.(state := Cancelled) else w.job;
      var debris := if written.Lost? then written.debris else None;
      DiscardKeepsShelf(s.store, job, w.mediaId, debris, "clip_empty");
      var (t, j) := Discard(s.store, job, w.mediaId, debris, "clip_empty");
      FinishKeeps(s, t, j, s.published);
    }
  }

  lemma CancelKeepsJobs(jobs: seq<Job>, id: Id, stopped: set<Id>, published: set<Id>, i: nat)
    requires JobsOk(jobs, Some(id), None, stopped, published) && i < |jobs| && jobs[i].id == id
    ensures i == |jobs| - 1
    ensures JobsOk(jobs[i := jobs[i].(state := Cancelling)], Some(id), Some(id), stopped + {id}, published)
  {
    assert jobs[|jobs| - 1].id == id;
  }

  lemma CancelChanges(s: System, id: Id, i: nat)
    requires Inv(s) && s.store.active == Some(id) && s.store.cancel.None? && i + 1 == |s.store.jobs|
    requires var jobs := s.store.jobs[i := s.store.jobs[i].(state := Cancelling)];
      JobsOk(jobs, Some(id), Some(id), s.stopped + {id}, s.published)
    ensures var jobs := s.store.jobs[i := s.store.jobs[i].(state := Cancelling)];
      Inv(s.(store := s.store.(cancel := Some(id), jobs := jobs), stopped := s.stopped + {id}))
  {
  }

  lemma CancelTwice(s: System, id: Id)
    requires Inv(s) && !(s.store.cancel.None? && s.store.active == Some(id))
    ensures CancelJob(s.store, id).0 == s.store
    ensures CancelJob(s.store, id).1.Ok? && CancelJob(s.store, id).1.value.state.Cancelling? ==> id in s.stopped
  {
    var i := Find(s.store.jobs, id);
    if i < |s.store.jobs| && s.store.active == Some(id) {
      assert s.store.jobs[|s.store.jobs| - 1].id == id;
    }
  }

  lemma CancelKeeps(s: System, id: Id)
    requires Inv(s)
    ensures Inv(Apply(s, Cancel(id)))
  {
    if s.store.cancel.None? && s.store.active == Some(id) {
      var i := Find(s.store.jobs, id);
      assert s.store.jobs[|s.store.jobs| - 1].id == id;
      CancelKeepsJobs(s.store.jobs, id, s.stopped, s.published, i);
      CancelChanges(s, id, i);
    } else {
      CancelTwice(s, id);
      if CancelJob(s.store, id).1.Ok? && CancelJob(s.store, id).1.value.state.Cancelling? {
        assert s.stopped + {id} == s.stopped;
      }
    }
  }

  lemma RemoveKeepsShelf(s: Store, id: Id, removed: bool, left: Directory, free: Option<nat>)
    requires Shelf(s.items, s.nextOrdinal, s.card)
    ensures var t := RemoveItem(s, id, removed, left, free).0;
      Shelf(t.items, t.nextOrdinal, t.card) && OnlyPublishedShrinks(s.card, t.card)
  {
    var i := FindItem(s.items, id);
    if i < |s.items| {
      if removed { TakenKeepsShelf(s, i); } else { CutKeepsShelf(s, i, left); }
    }
  }

  lemma RemoveChanges(s: Store, id: Id, removed: bool, left: Directory, free: Option<nat>)
    ensures var t := RemoveItem(s, id, removed, left, free).0;
      t.jobs == s.jobs && t.active == s.active && t.cancel == s.cancel
  {
  }

  lemma RemoveKeeps(s: System, id: Id, removed: bool, left: Directory, free: Option<nat>)
    requires Inv(s)
    ensures Inv(Apply(s, Remove(id, removed, left, free)))
  {
    RemoveKeepsShelf(s.store, id, removed, left, free);
    RemoveChanges(s.store, id, removed, left, free);
    ShrinkKeeps(s, RemoveItem(s.store, id, removed, left, free).0);
  }

  // ----- Power loss -----

  lemma RebootKeeps(s: System, cut: Store, boot: BootInputs, used: set<Id>, published: set<Id>)
    requires Inv(s) && LoadableApart(cut.card) && Listing(cut.card, boot.entries)
    requires s.used <= used && published <= used && s.stopped !! published
    requires forall id :: Published(id) in cut.card ==> id in used
    requires forall j :: j in s.recordings && Published(s.recordings[j]) in cut.card ==> j in published
    ensures Inv(Rebooted(s, cut, boot).(used := used, published := published))
  {
    BootKeepsShelf(cut, boot);
  }

  lemma SnapshotCutShelf(s: Store, q: SnapshotInputs, renamed: bool, debris: Directory)
    requires Shelf(s.items, s.nextOrdinal, s.card) && Published(q.id) !in s.card && q.frame.Some?
    requires Sound(q.frame) && |q.at| <= 31 && Exact(q.createdMs) && Exact(s.nextOrdinal)
    ensures var t := SnapshotCut(s, q, renamed, debris);
      Shelf(t.items, t.nextOrdinal, t.card)
      && forall id :: Published(id) in t.card ==> Published(id) in s.card || id == q.id
  {
    var t := SnapshotGuard(s, q).0;
    GuardKeepsShelf(s, q);
    SnapshotJoinsShelf(t, q.frame.value, q.id, q.at, q.createdMs, if q.written.Committed? then q.written.manifestBytes else 0);
    PartialKeepsShelf(t.items, t.nextOrdinal + 1, t.card, t.card[Partial(q.id) := debris]);
  }

  lemma PublishCutShelf(s: System, at: string, renamed: bool, manifestBytes: nat, debris: Directory)
    requires Inv(s) && s.worker.Some? && s.worker.value.phase.Publishing? && Commits(s.store, s.worker.value)
    requires |at| <= 31 && Exact(s.store.nextOrdinal)
    ensures s.worker.value.fps > 0
    ensures var t := PublishCut(s.store, s.worker.value, at, renamed, manifestBytes, debris);
      Shelf(t.items, t.nextOrdinal, t.card)
      && forall id :: Published(id) in t.card ==> Published(id) in s.store.card || (renamed && id == s.worker.value.mediaId)
  {
    ClipJoinsShelf(s, at, manifestBytes);
    PartialKeepsShelf(s.store.items, s.store.nextOrdinal + 1, s.store.card,
      s.store.card[Partial(s.worker.value.mediaId) := debris]);
  }

  lemma PowerLossKeeps(s: System, step: Step)
    requires Inv(s) && Enabled(s, step)
    requires step.PowerLoss? || step.PowerLossInSnapshot? || step.PowerLossInPublish?
    ensures Inv(Apply(s, step))
  {
    match step
    case PowerLoss(boot) =>
      ShelfIsApart(s.store.items, s.store.nextOrdinal, s.store.card);
      RebootKeeps(s, s.store, boot, s.used, s.published);
    case PowerLossInSnapshot(q, renamed, debris, boot) =>
      SnapshotCutShelf(s.store, q, renamed, debris);
      var cut := SnapshotCut(s.store, q, renamed, debris);
      ShelfIsApart(cut.items, cut.nextOrdinal, cut.card);
      RebootKeeps(s, cut, boot, s.used + {q.id}, s.published);
    case PowerLossInPublish(at, renamed, manifestBytes, debris, boot) =>
      PublishCutShelf(s, at, renamed, manifestBytes, debris);
      var cut := PublishCut(s.store, s.worker.value, at, renamed, manifestBytes, debris);
      ShelfIsApart(cut.items, cut.nextOrdinal, cut.card);
      RebootKeeps(s, cut, boot, s.used, if renamed then s.published + {s.worker.value.job.id} else s.published);
    case _ =>
  }

  lemma StepKeeps(s: System, step: Step)
    requires Inv(s) && Enabled(s, step)
    ensures Inv(Apply(s, step))
  {
    match step
    case TakeSnapshot(q) => SnapshotKeeps(s, q);
    case RequestClip(c) => RequestClipKeeps(s, c);
    case WorkerBegins(nowMs) => BeginKeeps(s, nowMs);
    case WorkerWrites(size, complete) => WriteKeeps(s, size, complete);
    case WorkerReports => ReportKeeps(s);
    case WorkerPublishes(at, written, after, last) => PublishKeeps(s, at, written, after, last);
    case Cancel(id) => CancelKeeps(s, id);
    case Remove(id, removed, left, free) => RemoveKeeps(s, id, removed, left, free);
    case ReadStatus(free) => ShrinkKeeps(s, Refreshed(s.store, free));
    case PowerLoss(_) => PowerLossKeeps(s, step);
    case PowerLossInSnapshot(_, _, _, _) => PowerLossKeeps(s, step);
    case PowerLossInPublish(_, _, _, _, _) => PowerLossKeeps(s, step);
    case _ => WorkerStepKeeps(s, step);
  }
}
