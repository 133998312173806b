/** The camera's media store (camera/main/media_store.cpp): snapshots, the clip
    worker, cancellation, retention, deletion, listing and the scan after a boot.

    Each function below is one section that the source runs under the store's
    mutex, or one file-system action of the clip worker between two of them. The
    store's own class, proved against these functions, is `MediaStore.Store`. */
module Media {
  import opened Options

  type Id = nat

  const MAX_JOBS_REMEMBERED: nat := 8
  const MAX_JPEG_BYTES: nat := 256 * 1024
  const MAX_MEDIA_PAGE: nat := 50
  const FRESH_FRAME_MAX_AGE_MS: nat := 2000
  const MAX_CLIP_DURATION_MS: nat := 30000
  const MAX_CLIP_FPS: nat := 5
  const MAX_CLIP_FRAMES: nat := 150
  const MAX_EXACT_JSON_INTEGER: nat := 9007199254740991
  const MAX_UINT32: nat := 0xFFFF_FFFF

  datatype Kind = Snapshot | Clip

  datatype Item = Item(
    id: Id, kind: Kind, createdAt: string, createdUptimeMs: nat, ordinal: nat, sizeBytes: nat,
    width: nat, height: nat, frameCount: nat, fps: nat, durationMs: nat)

  datatype JobState = Queued | Running | Cancelling | Cancelled | Failed | Complete

  datatype Job = Job(
    id: Id, state: JobState, createdUptimeMs: nat, framesWritten: nat, framesTarget: nat,
    media: Option<Id>, error: string)

  // ----- The card -----

  datatype FileName = Content | Frame(index: nat)

  /** A directory of the card: image files with their sizes, the manifest if it is whole,
      the bytes of all files, and whether a removal has begun to take files away. */
  datatype Directory = Directory(files: map<FileName, nat>, manifest: Option<Item>, bytes: nat, cut: bool)

  datatype DirName = Partial(id: Id) | Published(id: Id)

  type Card = map<DirName, Directory>

  const EMPTY: Directory := Directory(map[], None, 0, false)

  predicate InRange(d: Directory, name: FileName) {
    name in d.files && 4 <= d.files[name] <= MAX_JPEG_BYTES
  }

  predicate Exact(n: nat) { n <= MAX_EXACT_JSON_INTEGER }

  /** `load_manifest_locked`, with the check that the directory has the manifest's name. */
  predicate Loads(d: Directory, id: Id) {
    && d.manifest.Some?
    && (var m := d.manifest.value;
        && m.id == id && |m.createdAt| <= 31
        && Exact(m.createdUptimeMs) && Exact(m.ordinal) && Exact(m.sizeBytes)
        && m.width <= MAX_UINT32 && m.height <= MAX_UINT32
        && m.frameCount <= MAX_UINT32 && m.durationMs <= MAX_UINT32
        && m.ordinal > 0 && m.sizeBytes > 0 && m.width == 640 && m.height == 480
        && match m.kind
           case Snapshot => m.frameCount == 1 && m.durationMs == 0 && m.fps == 0 && InRange(d, Content)
           case Clip =>
             && 1 <= m.fps <= MAX_CLIP_FPS && 1 <= m.frameCount <= MAX_CLIP_FRAMES
             && m.durationMs <= MAX_CLIP_DURATION_MS
             && InRange(d, Frame(0)) && InRange(d, Frame(m.frameCount - 1)))
  }

  /** What the scan lists for a directory that loads: its manifest with the size on the card. */
  function Listed(d: Directory): Item
    requires d.manifest.Some?
  {
    d.manifest.value.(sizeBytes := d.bytes)
  }

  // ----- The store -----

  datatype Limits = Limits(maxItems: nat, maxBytes: nat, reserve: nat)

  datatype Store = Store(
    items: seq<Item>, jobs: seq<Job>, active: Option<Id>, cancel: Option<Id>,
    nextOrdinal: nat, writable: bool, card: Card, limits: Limits)

  datatype Outcome = Done | InvalidArg | InvalidState | InvalidVersion | Timeout | NoMemory | NotFound | Fail

  /** What the card answers while old items are removed: free space after `i` removals
      (none: the card did not answer), which removals fail, and what a failed one leaves. */
  datatype Readings = Readings(free: map<nat, nat>, stuck: set<nat>, left: Directory)

  function FreeAt(r: Readings, i: nat): Option<nat> {
    if i in r.free then Some(r.free[i]) else None
  }

  /** `refresh_capacity_locked`: a card that does not answer is not written any more. */
  function Refreshed(s: Store, free: Option<nat>): Store {
    s.(writable := s.writable && free.Some?)
  }

  function TotalBytes(items: seq<Item>): nat {
    if items == [] then 0 else items[0].sizeBytes + TotalBytes(items[1..])
  }

  predicate Excess(items: seq<Item>, free: Option<nat>, limits: Limits) {
    || |items| > limits.maxItems
    || TotalBytes(items) > limits.maxBytes
    || (free.Some? && free.value < limits.reserve)
  }

  /** A removal that fails part of the way takes only files of that directory. */
  predicate Remains(d: Directory, left: Directory) {
    && left.cut && left.bytes <= d.bytes
    && (left.manifest == d.manifest || left.manifest.None?)
    && (forall name :: name in left.files ==> name in d.files && left.files[name] == d.files[name])
  }

  function LeftBehind(d: Directory, left: Directory): Directory {
    if Remains(d, left) then left else d.(cut := true)
  }

  function WithoutOldest(s: Store): Store
    requires s.items != []
  {
    s.(items := s.items[1..], card := s.card - {Published(s.items[0].id)})
  }

  /** `enforce_retention_locked`, with `i` items removed so far. */
  function Retain(s: Store, r: Readings, i: nat): (t: Store)
    ensures t == s.(items := t.items, card := t.card, writable := t.writable)
    decreases |s.items|
  {
    var t := Refreshed(s, FreeAt(r, i));
    if s.items == [] || !Excess(s.items, FreeAt(r, i), s.limits) then t
    else
      var oldest := Published(s.items[0].id);
      if i in r.stuck then
        t.(writable := false,
           card := if oldest in s.card then s.card[oldest := LeftBehind(s.card[oldest], r.left)] else s.card)
      else Retain(WithoutOldest(t), r, i + 1)
  }

  /** After something was stored: the capacity is read, then retention enforced. */
  function Settled(s: Store, free: Option<nat>, r: Readings): Store {
    Retain(Refreshed(s, free), r, 0)
  }

  function Find(jobs: seq<Job>, id: Id): (i: nat)
    ensures i <= |jobs|
    ensures i < |jobs| ==> jobs[i].id == id
    ensures forall k :: 0 <= k < i ==> jobs[k].id != id
  {
    if jobs == [] || jobs[0].id == id then 0 else 1 + Find(jobs[1..], id)
  }

  /** `update_job_locked`: in place, or as the newest of at most eight. */
  function UpdateJob(jobs: seq<Job>, job: Job): seq<Job> {
    var i := Find(jobs, job.id);
    if i < |jobs| then jobs[i := job]
    else if |jobs| + 1 > MAX_JOBS_REMEMBERED then (jobs + [job])[1..]
    else jobs + [job]
  }

  // ----- Snapshots -----

  datatype CameraView = CameraView(enabled: bool, verified: bool, generation: nat)

  datatype CapturedFrame = CapturedFrame(size: nat, width: nat, height: nat, capturedMs: nat)

  /** How storing ends on the card: committed with a manifest of so many bytes, or lost,
      leaving what the clean-up of the partial directory could not remove. */
  datatype Written = Committed(manifestBytes: nat) | Lost(debris: Option<Directory>)

  function Dropped(card: Card, name: DirName, debris: Option<Directory>): Card {
    if debris.Some? then card[name := debris.value] else card - {name}
  }

  function SnapshotItem(s: Store, frame: CapturedFrame, id: Id, at: string, createdMs: nat): Item {
    Item(id, Snapshot, at, createdMs, s.nextOrdinal, frame.size, frame.width, frame.height, 1, 0, 0)
  }

  function SnapshotDirectory(item: Item, manifestBytes: nat): Directory {
    Directory(map[Content := item.sizeBytes], Some(item), item.sizeBytes + manifestBytes, false)
  }

  function Added(s: Store, item: Item, d: Directory): Store {
    s.(items := s.items + [item.(sizeBytes := d.bytes)],
       card := (s.card - {Partial(item.id)})[Published(item.id) := d])
  }

  predicate Fresh(frame: Option<CapturedFrame>, nowMs: nat) {
    frame.Some? && frame.value.capturedMs <= nowMs && nowMs - frame.value.capturedMs <= FRESH_FRAME_MAX_AGE_MS
  }

  function CameraCheck(c: CameraView, expected: nat): Outcome {
    if !c.enabled || !c.verified then InvalidState
    else if c.generation != expected then InvalidVersion else Done
  }

  datatype SnapshotInputs = SnapshotInputs(
    before: CameraView, frame: Option<CapturedFrame>, nowMs: nat, again: CameraView, expected: nat,
    id: Id, at: string, createdMs: nat, first: Readings, free: Option<nat>, written: Written,
    after: Option<nat>, last: Readings)

  /** The guards of `store_snapshot` up to the free-space check; `Done` lets it write. */
  function SnapshotGuard(s: Store, q: SnapshotInputs): (Store, Outcome) {
    var camera := CameraCheck(q.before, q.expected);
    if camera != Done then (s, camera)
    else if !Fresh(q.frame, q.nowMs) then (s, Timeout)
    else if !s.writable || s.active.Some? then (s, InvalidState)
    else if CameraCheck(q.again, q.expected) != Done then (s, InvalidVersion)
    else
      var t := Refreshed(Retain(s, q.first, 0), q.free);
      (t, if q.free.Some? && q.free.value <= s.limits.reserve + q.frame.value.size then NoMemory else Done)
  }

  function StoreSnapshot(s: Store, q: SnapshotInputs): (Store, Outcome) {
    var (t, guard) := SnapshotGuard(s, q);
    if guard != Done || q.frame.None? then (t, guard)
    else
      var item := SnapshotItem(t, q.frame.value, q.id, q.at, q.createdMs);
      var u := t.(nextOrdinal := t.nextOrdinal + 1);
      match q.written
      case Lost(debris) => (u.(card := Dropped(u.card, Partial(q.id), debris)), Fail)
      case Committed(manifestBytes) =>
        (Settled(Added(u, item, SnapshotDirectory(item, manifestBytes)), q.after, q.last), Done)
  }

  // ----- Clips -----

  function Max(a: nat, b: nat): nat { if a < b then b else a }
  function Min(a: nat, b: nat): nat { if a < b then a else b }

  predicate ClipArguments(durationMs: nat, fps: nat) {
    && 1000 <= durationMs <= MAX_CLIP_DURATION_MS && 1 <= fps <= MAX_CLIP_FPS
    && ((durationMs + 999) / 1000) * fps <= MAX_CLIP_FRAMES
  }

  function FramesTarget(durationMs: nat, fps: nat): nat {
    Min(MAX_CLIP_FRAMES, Max(1, durationMs * fps / 1000))
  }

  datatype ClipInputs = ClipInputs(
    durationMs: nat, fps: nat, before: CameraView, again: CameraView, expected: nat,
    jobId: Id, mediaId: Id, nowMs: nat, first: Readings, free: Option<nat>, spawned: bool)

  function StartClip(s: Store, q: ClipInputs): (Store, Outcome) {
    var camera := CameraCheck(q.before, q.expected);
    if !ClipArguments(q.durationMs, q.fps) then (s, InvalidArg)
    else if camera != Done then (s, camera)
    else if !s.writable || s.active.Some? then (s, InvalidState)
    else if CameraCheck(q.again, q.expected) != Done then (s, InvalidVersion)
    else
      var target := FramesTarget(q.durationMs, q.fps);
      var t := Refreshed(Retain(s, q.first, 0), q.free);
      if q.free.Some? && q.free.value <= s.limits.reserve + target * MAX_JPEG_BYTES then (t, NoMemory)
      else
        var job := Job(q.jobId, Queued, q.nowMs, 0, target, None, "");
        if q.spawned then (t.(jobs := UpdateJob(t.jobs, job), active := Some(q.jobId)), Done)
        else
          var failed := job.(state := Failed, error := "clip_worker_unavailable");
          (t.(jobs := UpdateJob(UpdateJob(t.jobs, job), failed), active := None), Fail)
  }

  datatype Phase = Starting | Preparing | Looking | Writing | Reporting | Publishing

  /** The locals of `clip_task`; `ok` is its `success`. */
  datatype Worker = Worker(
    job: Job, mediaId: Id, durationMs: nat, fps: nat, ok: bool, payload: nat, phase: Phase)

  /** The first section of the clip worker. */
  function Begin(s: Store, w: Worker, nowMs: nat): (Store, Worker) {
    var i := Find(s.jobs, w.job.id);
    var found := if i < |s.jobs| then s.jobs[i] else Job(w.job.id, Queued, nowMs, 0, 0, None, "");
    var job := if found.state != Cancelling then found.(state := Running) else found;
    (s.(jobs := UpdateJob(s.jobs, job)), w.(job := job, phase := Preparing))
  }

  function Prepare(s: Store, w: Worker, made: bool): (Store, Worker) {
    (if made then s.(card := s.card[Partial(w.mediaId) := EMPTY]) else s, w.(ok := made, phase := Looking))
  }

  /** The top of the frame loop, with its look at the cancellation mark. */
  function Look(s: Store, w: Worker): Worker {
    if !w.ok || w.job.framesWritten >= w.job.framesTarget then w.(phase := Publishing)
    else if s.cancel == Some(w.job.id) then
      w.(job := w.job.(state := Cancelled), ok := false, phase := Publishing)
    else w.(phase := Writing)
  }

  /** The loop is left early: at the deadline, or with an error. */
  function Leave(w: Worker, error: Option<string>): Worker {
    if error.Some? then w.(job := w.job.(error := error.value), ok := false, phase := Publishing)
    else w.(phase := Publishing)
  }

  function PartialOf(s: Store, w: Worker): Directory {
    if Partial(w.mediaId) in s.card then s.card[Partial(w.mediaId)] else EMPTY
  }

  function WriteFrame(s: Store, w: Worker, size: nat, written: bool): (Store, Worker) {
    var d := PartialOf(s, w);
    var name := Frame(w.job.framesWritten);
    var t := s.(card := s.card[Partial(w.mediaId) := d.(files := d.files[name := size], bytes := d.bytes + size)]);
    if written then
      (t, w.(job := w.job.(framesWritten := w.job.framesWritten + 1), payload := w.payload + size, phase := Reporting))
    else (t, Leave(w, Some("clip_write_failed")))
  }

  /** The section after a frame: the local job record is remembered unless cancelled. */
  function Report(s: Store, w: Worker): (Store, Worker) {
    if s.cancel == Some(w.job.id) then
      (s, w.(job := w.job.(state := Cancelled), ok := false, phase := Publishing))
    else (s.(jobs := UpdateJob(s.jobs, w.job)), w.(phase := Looking))
  }

  function ClipItem(s: Store, w: Worker, at: string): Item
    requires w.fps > 0
  {
    Item(w.mediaId, Clip, at, w.job.createdUptimeMs, s.nextOrdinal, w.payload, 640, 480,
         w.job.framesWritten, w.fps, 1000 * w.job.framesWritten / w.fps)
  }

  function ClipDirectory(d: Directory, item: Item, manifestBytes: nat): Directory {
    Directory(d.files, Some(item), d.bytes + manifestBytes, false)
  }

  /** A recording with frames becomes an item, or is given up when the card fails. */
  function Commit(s: Store, w: Worker, at: string, written: Written, after: Option<nat>, last: Readings): (Store, Job)
    requires w.fps > 0
  {
    var item := ClipItem(s, w, at);
    var u := s.(nextOrdinal := s.nextOrdinal + 1);
    match written
    case Committed(manifestBytes) =>
      (Settled(Added(u, item, ClipDirectory(PartialOf(s, w), item, manifestBytes)), after, last),
       w.job.(state := Complete, media := Some(w.mediaId)))
    case Lost(debris) => Discard(u, w.job, w.mediaId, debris, "clip_commit_failed")
  }

  /** The worker's last word: its record, and no active job any more. */
  function Concluded(s: Store, job: Job, cancelled: bool): Store {
    s.(cancel := if cancelled then None else s.cancel, active := None, jobs := UpdateJob(s.jobs, job))
  }

  /** A worker that does not commit: cancelled, failed, or done without a frame. */
  function Unpublished(s: Store, w: Worker, written: Written, after: Option<nat>, last: Readings): (Store, Job) {
    var cancelled := s.cancel == Some(w.job.id);
    var job := if cancelled then w.job.(state := Cancelled) else w.job;
    if w.ok && !cancelled then
      (Settled(s, after, last), job.(state := Complete, error := if job.error == "" then "clip_empty" else job.error))
    else Discard(s, job, w.mediaId, if written.Lost? then written.debris else None, "clip_empty")
  }

  /** The final section of the clip worker: cancellation and publication share it. */
  function Publish(s: Store, w: Worker, at: string, written: Written, after: Option<nat>, last: Readings): Store
    requires w.fps > 0
  {
    var cancelled := s.cancel == Some(w.job.id);
    var (t, job) :=
      if w.ok && !cancelled && w.job.framesWritten > 0 then Commit(s, w, at, written, after, last)
      else Unpublished(s, w, written, after, last);
    Concluded(t, job, cancelled)
  }

  /** The worker gives its partial directory up. */
  function Discard(s: Store, job: Job, mediaId: Id, debris: Option<Directory>, error: string): (Store, Job) {
    var named := if job.state != Cancelled && job.error == "" then job.(error := error) else job;
    var t := s.(card := Dropped(s.card, Partial(mediaId), debris), writable := s.writable && debris.None?);
    if debris.Some? then (t, named.(state := Failed, error := "partial_cleanup_failed"))
    else (t, if named.state != Cancelled then named.(state := Failed) else named)
  }

  // ----- Cancellation, deletion, listing -----

  function CancelJob(s: Store, id: Id): (Store, Result<Job, Outcome>) {
    var i := Find(s.jobs, id);
    if i == |s.jobs| then (s, Err(NotFound))
    else if s.jobs[i].state.Cancelled? || s.jobs[i].state.Cancelling? then (s, Ok(s.jobs[i]))
    else if s.active != Some(id) || !(s.jobs[i].state.Queued? || s.jobs[i].state.Running?) then (s, Err(InvalidState))
    else
      var job := s.jobs[i].(state := Cancelling);
      (s.(cancel := Some(id), jobs := s.jobs[i := job]), Ok(job))
  }

  function FindItem(items: seq<Item>, id: Id): (i: nat)
    ensures i <= |items|
    ensures i < |items| ==> items[i].id == id
    ensures forall k :: 0 <= k < i ==> items[k].id != id
  {
    if items == [] || items[0].id == id then 0 else 1 + FindItem(items[1..], id)
  }

  function RemoveItem(s: Store, id: Id, removed: bool, left: Directory, free: Option<nat>): (Store, Outcome) {
    var i := FindItem(s.items, id);
    var name := Published(id);
    if i == |s.items| then (s, NotFound)
    else if !removed then
      (s.(writable := false, card := if name in s.card then s.card[name := LeftBehind(s.card[name], left)] else s.card), Fail)
    else (Refreshed(s.(items := s.items[..i] + s.items[i + 1..], card := s.card - {name}), free), Done)
  }

  function Newest(items: seq<Item>): (r: seq<Item>)
    ensures |r| == |items| && forall i :: 0 <= i < |r| ==> r[i] == items[|items| - 1 - i]
  {
    seq(|items|, i requires 0 <= i < |items| => items[|items| - 1 - i])
  }

  function PageFrom(newest: seq<Item>, start: nat, limit: nat): (seq<Item>, Option<Id>)
    requires start <= |newest|
  {
    var end := Min(|newest|, start + Max(1, Min(limit, MAX_MEDIA_PAGE)));
    (newest[start..end], if start < end < |newest| then Some(newest[end - 1].id) else None)
  }

  /** `list`: a page of the newest items after the cursor, and where to go on. */
  function Page(items: seq<Item>, cursor: Option<Id>, limit: nat): (seq<Item>, Option<Id>) {
    var newest := Newest(items);
    if cursor.None? then PageFrom(newest, 0, limit)
    else
      var found := FindItem(newest, cursor.value);
      if found == |newest| then ([], None) else PageFrom(newest, found + 1, limit)
  }

  // ----- The scan after a boot -----

  function Insert(item: Item, sorted: seq<Item>): seq<Item> {
    if sorted == [] || item.ordinal <= sorted[0].ordinal then [item] + sorted
    else [sorted[0]] + Insert(item, sorted[1..])
  }

  function SortByOrdinal(items: seq<Item>): seq<Item> {
    if items == [] then [] else Insert(items[0], SortByOrdinal(items[1..]))
  }

  /** The items among the first entries of the media directory, in directory order. */
  function Collected(card: Card, entries: seq<DirName>): seq<Item> {
    if entries == [] then []
    else
      var rest := Collected(card, entries[..|entries| - 1]);
      var name := entries[|entries| - 1];
      if name.Published? && name in card && Loads(card[name], name.id) then rest + [Listed(card[name])] else rest
  }

  function Swept(card: Card, entries: seq<DirName>, stuck: set<Id>): Card {
    map name | name in card && !(name.Partial? && name in entries && name.id !in stuck) :: card[name]
  }

  predicate AnyStuck(entries: seq<DirName>, stuck: set<Id>) {
    exists i :: 0 <= i < |entries| && entries[i].Partial? && entries[i].id in stuck
  }

  function Scan(s: Store, entries: seq<DirName>, stuck: set<Id>): Store {
    var items := SortByOrdinal(Collected(s.card, entries));
    s.(items := items,
       card := Swept(s.card, entries, stuck),
       writable := s.writable && !AnyStuck(entries, stuck),
       nextOrdinal := if items == [] then s.nextOrdinal else Max(s.nextOrdinal, items[|items| - 1].ordinal + 1))
  }

  datatype BootInputs = BootInputs(
    entries: seq<DirName>, stuck: set<Id>, stored: nat, writable: bool, free: Option<nat>, retention: Readings)

  /** `mount_card_locked`: everything in memory is gone; `stored` is the number kept in NVS. */
  function Boot(s: Store, q: BootInputs): Store {
    var blank := Store([], [], None, None, Max(1, q.stored), q.writable, s.card, s.limits);
    var t := Refreshed(Scan(blank, q.entries, q.stuck), q.free);
    if t.writable then Retain(t, q.retention, 0) else t
  }
}
