/** The media store as the source has it: an object updated in place. Each method
    is proved against the section of the same name in `Media`. */
module MediaStore {
  import opened Options
  import opened Media

  class Store {
    var items: seq<Item>
    var jobs: seq<Job>
    var activeJobId: Option<Id>
    var cancelJobId: Option<Id>
    var nextOrdinal: nat
    var writable: bool
    var card: Card
    var limits: Limits

    ghost function Model(): Media.Store
      reads this
    {
      Media.Store(items, jobs, activeJobId, cancelJobId, nextOrdinal, writable, card, limits)
    }

    constructor (limits: Limits)
      ensures Model() == Media.Store([], [], None, None, 1, false, map[], limits)
    {
      items, jobs := [], [];
      activeJobId, cancelJobId := None, None;
      nextOrdinal, writable := 1, false;
      card := map[];
      this.limits := limits;
    }

    method FindJob(id: Id) returns (i: nat)
      ensures i == Find(jobs, id)
    {
      i := 0;
      while i < |jobs| && jobs[i].id != id
        invariant i <= |jobs|
        invariant Find(jobs, id) == i + Find(jobs[i..], id)
      {
        assert jobs[i..][1..] == jobs[i + 1..];
        i := i + 1;
      }
    }

    method UpdateJobRecord(job: Job)
      modifies this`jobs
      ensures jobs == UpdateJob(old(jobs), job)
    {
      var i := FindJob(job.id);
      if i == |jobs| {
        jobs := jobs + [job];
        if |jobs| > MAX_JOBS_REMEMBERED {
          jobs := jobs[1..];
        }
      } else {
        jobs := jobs[i := job];
      }
    }

    method RefreshCapacity(free: Option<nat>)
      modifies this`writable
      ensures Model() == Refreshed(old(Model()), free)
    {
      if free.None? {
        writable := false;
      }
    }

    method MediaBytes() returns (total: nat)
      ensures total == TotalBytes(items)
    {
      total := 0;
      var i := 0;
      while i < |items|
        invariant i <= |items|
        invariant TotalBytes(items) == total + TotalBytes(items[i..])
      {
        assert items[i..][1..] == items[i + 1..];
        total := total + items[i].sizeBytes;
        i := i + 1;
      }
    }

    method TooMuch(free: Option<nat>) returns (excess: bool)
      ensures excess == Excess(items, free, limits)
    {
      var total := MediaBytes();
      excess := |items| > limits.maxItems || total > limits.maxBytes || (free.Some? && free.value < limits.reserve);
    }

    /** What a removal does to the card. */
    method RemoveTree(name: DirName, removed: bool, left: Directory)
      modifies this`card
      ensures card == if removed then old(card) - {name}
        else if name in old(card) then old(card)[name := LeftBehind(old(card)[name], left)] else old(card)
    {
      if removed {
        card := card - {name};
      } else if name in card {
        card := card[name := LeftBehind(card[name], left)];
      }
    }

    /** Oldest items go, one at a time, until the limits are met or one cannot be removed. */
    method EnforceRetention(r: Readings)
      modifies this
      ensures Model() == Retain(old(Model()), r, 0)
    {
      var i := 0;
      RefreshCapacity(FreeAt(r, 0));
      var excess := TooMuch(FreeAt(r, 0));
      ghost var before := old(Model());
      while items != [] && excess
        invariant Model() == Refreshed(before, FreeAt(r, i)) && limits == before.limits
        invariant excess == Excess(items, FreeAt(r, i), limits)
        invariant Retain(before, r, i) == Retain(old(Model()), r, 0)
        decreases |items|
      {
        var oldest := items[0];
        if i in r.stuck {
          RemoveTree(Published(oldest.id), false, r.left);
          writable := false;
          return;
        }
        RemoveTree(Published(oldest.id), true, r.left);
        items := items[1..];
        i := i + 1;
        before := Model();
        RefreshCapacity(FreeAt(r, i));
        excess := TooMuch(FreeAt(r, i));
      }
    }

    method StoreSnapshotFile(q: SnapshotInputs) returns (outcome: Outcome)
      modifies this
      ensures (Model(), outcome) == StoreSnapshot(old(Model()), q)
    {
      var camera := CameraCheck(q.before, q.expected);
      if camera != Done {
        return camera;
      }
      if !Fresh(q.frame, q.nowMs) {
        return Timeout;
      }
      if !writable || activeJobId.Some? {
        return InvalidState;
      }
      if CameraCheck(q.again, q.expected) != Done {
        return InvalidVersion;
      }
      EnforceRetention(q.first);
      RefreshCapacity(q.free);
      if q.free.Some? && q.free.value <= limits.reserve + q.frame.value.size {
        return NoMemory;
      }
      var ordinal := nextOrdinal;
      nextOrdinal := nextOrdinal + 1;
      var frame := q.frame.value;
      var item := Item(q.id, Snapshot, q.at, q.createdMs, ordinal, frame.size, frame.width, frame.height, 1, 0, 0);
      if q.written.Lost? {
        card := Media.Dropped(card, Partial(q.id), q.written.debris);
        return Fail;
      }
      card := card - {Partial(q.id)};
      card := card[Published(q.id) := SnapshotDirectory(item, q.written.manifestBytes)];
      items := items + [item.(sizeBytes := card[Published(q.id)].bytes)];
      RefreshCapacity(q.after);
      EnforceRetention(q.last);
      outcome := Done;
    }

    method StartClipJob(q: ClipInputs) returns (outcome: Outcome)
      modifies this
      ensures (Model(), outcome) == StartClip(old(Model()), q)
    {
      if q.durationMs < 1000 || q.durationMs > MAX_CLIP_DURATION_MS || q.fps < 1 || q.fps > MAX_CLIP_FPS
        || ((q.durationMs + 999) / 1000) * q.fps > MAX_CLIP_FRAMES {
        return InvalidArg;
      }
      var camera := CameraCheck(q.before, q.expected);
      if camera != Done {
        return camera;
      }
      if !writable || activeJobId.Some? {
        return InvalidState;
      }
      if CameraCheck(q.again, q.expected) != Done {
        return InvalidVersion;
      }
      EnforceRetention(q.first);
      RefreshCapacity(q.free);
      var target := FramesTarget(q.durationMs, q.fps);
      if q.free.Some? && q.free.value <= limits.reserve + target * MAX_JPEG_BYTES {
        return NoMemory;
      }
      var job := Job(q.jobId, Queued, q.nowMs, 0, target, None, "");
      UpdateJobRecord(job);
      activeJobId := Some(q.jobId);
      if !q.spawned {
        activeJobId := None;
        UpdateJobRecord(job.(state := Failed, error := "clip_worker_unavailable"));
        return Fail;
      }
      outcome := Done;
    }

    method BeginClip(w: Worker, nowMs: nat) returns (r: Worker)
      modifies this
      ensures (Model(), r) == Begin(old(Model()), w, nowMs)
    {
      var i := FindJob(w.job.id);
      var job := if i < |jobs| then jobs[i] else Job(w.job.id, Queued, nowMs, 0, 0, None, "");
      if job.state != Cancelling {
        job := job.(state := Running);
      }
      UpdateJobRecord(job);
      r := w.(job := job, phase := Preparing);
    }

    method ReportFrame(w: Worker) returns (r: Worker)
      modifies this
      ensures (Model(), r) == Report(old(Model()), w)
    {
      if cancelJobId == Some(w.job.id) {
        return w.(job := w.job.(state := Cancelled), ok := false, phase := Publishing);
      }
      UpdateJobRecord(w.job);
      r := w.(phase := Looking);
    }

    /** Gives the worker's partial directory up and settles how the job failed. */
    method DiscardPartial(job: Job, mediaId: Id, debris: Option<Directory>, error: string) returns (r: Job)
      modifies this`card, this`writable
      ensures (Model(), r) == Discard(old(Model()), job, mediaId, debris, error)
    {
      r := job;
      if r.state != Cancelled && r.error == "" {
        r := r.(error := error);
      }
      card := Media.Dropped(card, Partial(mediaId), debris);
      if debris.Some? {
        r := r.(state := Failed, error := "partial_cleanup_failed");
        writable := false;
      }
      if r.state != Cancelled {
        r := r.(state := Failed);
      }
    }

    method CommitClip(w: Worker, at: string, written: Written, after: Option<nat>, last: Readings) returns (job: Job)
      requires w.fps > 0
      modifies this
      ensures (Model(), job) == Commit(old(Model()), w, at, written, after, last)
    {
      var ordinal := nextOrdinal;
      nextOrdinal := nextOrdinal + 1;
      if written.Lost? {
        job := DiscardPartial(w.job, w.mediaId, written.debris, "clip_commit_failed");
        return;
      }
      var item := Item(w.mediaId, Clip, at, w.job.createdUptimeMs, ordinal, w.payload, 640, 480,
                       w.job.framesWritten, w.fps, 1000 * w.job.framesWritten / w.fps);
      var d := if Partial(w.mediaId) in card then card[Partial(w.mediaId)] else EMPTY;
      card := card - {Partial(w.mediaId)};
      card := card[Published(w.mediaId) := ClipDirectory(d, item, written.manifestBytes)];
      items := items + [item.(sizeBytes := card[Published(w.mediaId)].bytes)];
      RefreshCapacity(after);
      EnforceRetention(last);
      job := w.job.(state := Complete, media := Some(w.mediaId));
    }

    method GiveUpClip(w: Worker, written: Written, after: Option<nat>, last: Readings) returns (job: Job)
      modifies this
      ensures (Model(), job) == Unpublished(old(Model()), w, written, after, last)
    {
      job := w.job;
      var cancelled := cancelJobId == Some(w.job.id);
      if cancelled {
        job := job.(state := Cancelled);
      }
      if w.ok && !cancelled {
        job := job.(state := Complete, error := if job.error == "" then "clip_empty" else job.error);
        RefreshCapacity(after);
        EnforceRetention(last);
      } else {
        job := DiscardPartial(job, w.mediaId, if written.Lost? then written.debris else None, "clip_empty");
      }
    }

    method ConcludeClip(job: Job, cancelled: bool)
      modifies this
      ensures Model() == Concluded(old(Model()), job, cancelled)
    {
      if cancelled {
        cancelJobId := None;
      }
      activeJobId := None;
      UpdateJobRecord(job);
    }

    method PublishClip(w: Worker, at: string, written: Written, after: Option<nat>, last: Readings)
      requires w.fps > 0
      modifies this
      ensures Model() == Publish(old(Model()), w, at, written, after, last)
    {
      var cancelled := cancelJobId == Some(w.job.id);
      var job;
      if w.ok && !cancelled && w.job.framesWritten > 0 {
        job := CommitClip(w, at, written, after, last);
      } else {
        job := GiveUpClip(w, written, after, last);
      }
      ConcludeClip(job, cancelled);
    }

    method Cancel(id: Id) returns (r: Result<Job, Outcome>)
      modifies this
      ensures (Model(), r) == CancelJob(old(Model()), id)
    {
      var i := FindJob(id);
      if i == |jobs| {
        return Err(NotFound);
      }
      if jobs[i].state == Cancelled || jobs[i].state == Cancelling {
        return Ok(jobs[i]);
      }
      if activeJobId != Some(id) || (jobs[i].state != Queued && jobs[i].state != Running) {
        return Err(InvalidState);
      }
      cancelJobId := Some(id);
      jobs := jobs[i := jobs[i].(state := Cancelling)];
      r := Ok(jobs[i]);
    }

    method FindIn(list: seq<Item>, id: Id) returns (i: nat)
      ensures i == FindItem(list, id)
    {
      i := 0;
      while i < |list| && list[i].id != id
        invariant i <= |list|
        invariant FindItem(list, id) == i + FindItem(list[i..], id)
      {
        assert list[i..][1..] == list[i + 1..];
        i := i + 1;
      }
    }

    method Remove(id: Id, removed: bool, left: Directory, free: Option<nat>) returns (outcome: Outcome)
      modifies this
      ensures (Model(), outcome) == RemoveItem(old(Model()), id, removed, left, free)
    {
      var i := FindIn(items, id);
      if i == |items| {
        return NotFound;
      }
      RemoveTree(Published(id), removed, left);
      if !removed {
        writable := false;
        return Fail;
      }
      items := items[..i] + items[i + 1..];
      RefreshCapacity(free);
      outcome := Done;
    }

    method List(cursor: Option<Id>, limit: nat) returns (page: seq<Item>, next: Option<Id>)
      ensures (page, next) == Page(items, cursor, limit)
    {
      var bounded := Max(1, Min(limit, MAX_MEDIA_PAGE));
      var newest := Newest(items);
      var start := 0;
      if cursor.Some? {
        var found := FindIn(newest, cursor.value);
        if found == |newest| {
          return [], None;
        }
        start := found + 1;
      }
      var end := Min(|newest|, start + bounded);
      page := newest[start..end];
      next := if end < |newest| && page != [] then Some(page[|page| - 1].id) else None;
    }

    /** One pass over the directory: partial directories go, loadable ones are collected. */
    method ReadDirectory(entries: seq<DirName>, stuck: set<Id>)
      modifies this`items, this`card, this`writable
      ensures items == Collected(old(card), entries) && card == Swept(old(card), entries, stuck)
      ensures writable == (old(writable) && !AnyStuck(entries, stuck))
    {
      items := [];
      var i := 0;
      while i < |entries|
        invariant i <= |entries|
        invariant items == Collected(old(card), entries[..i])
        invariant card == Swept(old(card), entries[..i], stuck)
        invariant writable == (old(writable) && !AnyStuck(entries[..i], stuck))
      {
        var name := entries[i];
        assert entries[..i + 1][..i] == entries[..i];
        if name.Partial? {
          if name.id in stuck {
            writable := false;
            assert entries[..i + 1][i] == name;
          } else {
            card := card - {name};
          }
        } else if name in card && Loads(card[name], name.id) {
          items := items + [Listed(card[name])];
        }
        i := i + 1;
      }
      assert entries[..i] == entries;
    }

    method ScanMedia(entries: seq<DirName>, stuck: set<Id>)
      modifies this
      ensures Model() == Scan(old(Model()), entries, stuck)
    {
      ReadDirectory(entries, stuck);
      items := SortByOrdinal(items);
      if items != [] {
        nextOrdinal := Max(nextOrdinal, items[|items| - 1].ordinal + 1);
      }
    }

    method Mount(q: BootInputs)
      modifies this
      ensures Model() == Boot(old(Model()), q)
    {
      items, jobs := [], [];
      activeJobId, cancelJobId := None, None;
      nextOrdinal := Max(1, q.stored);
      writable := q.writable;
      ScanMedia(q.entries, q.stuck);
      RefreshCapacity(q.free);
      if writable {
        EnforceRetention(q.retention);
      }
    }
  }
}
