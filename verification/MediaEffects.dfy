/** What the media store's operations do (camera/main/media_store.cpp): deletion deletes for
    good, a stored snapshot or clip is listed as the newest, progress is reported. */
module MediaEffects {
  import opened Options
  import opened Media
  import opened MediaSafety
  import opened MediaTheorems
  import opened Runs

  // ----- Deletion -----

  /** The directory of every other name is as it was. */
  ghost predicate OthersStay(card: Card, after: Card, name: DirName) {
    forall other :: other != name ==>
      (other in after <==> other in card) && (other in card ==> after[other] == card[other])
  }

  /** The list without the items of that id, in the same order. */
  ghost predicate WithoutId(items: seq<Item>, after: seq<Item>, id: Id) {
    && (forall x :: x in after <==> x in items && x.id != id)
    && Ascending(after)
  }

  lemma TakenOut(items: seq<Item>, nextOrdinal: nat, i: nat)
    requires ItemsOk(items, nextOrdinal) && i < |items|
    ensures WithoutId(items, items[..i] + items[i + 1..], items[i].id)
  {
    var after := items[..i] + items[i + 1..];
    assert forall j :: 0 <= j < |after| ==> after[j] == items[if j < i then j else j + 1];
    forall x ensures x in after <==> x in items && x.id != items[i].id {
      if x in items && x.id != items[i].id {
        var k :| 0 <= k < |items| && items[k] == x;
        assert after[if k < i then k else k - 1] == x;
      }
    }
  }

  lemma ListedIsFound(items: seq<Item>, id: Id)
    ensures FindItem(items, id) < |items| <==> Lists(items, id)
  {
  }

  ghost predicate Deletes(s: Store, id: Id, removed: bool, t: Store, outcome: Outcome) {
    && (outcome == Done <==> Lists(s.items, id) && removed)
    && (outcome == NotFound <==> !Lists(s.items, id))
    && (outcome == Done ==> WithoutId(s.items, t.items, id) && !Lists(t.items, id) && Published(id) !in t.card)
    && (outcome != Done ==> t.items == s.items) && (outcome == NotFound ==> t == s)
    && (outcome == Fail ==> !t.writable && Published(id) in t.card)
    && OthersStay(s.card, t.card, Published(id))
    && t == s.(items := t.items, card := t.card, writable := t.writable)
  }

  lemma RemovalDeletes(s: Store, id: Id, removed: bool, left: Directory, free: Option<nat>)
    requires Shelf(s.items, s.nextOrdinal, s.card)
    ensures var (t, outcome) := RemoveItem(s, id, removed, left, free); Deletes(s, id, removed, t, outcome)
  {
    ListedIsFound(s.items, id);
    var i := FindItem(s.items, id);
    if i < |s.items| {
      TakenOut(s.items, s.nextOrdinal, i);
      assert Shelved(s.items[i], s.card);
    }
  }

  /** Deletion answers `Done` exactly if the id was listed and its files could be removed.
      Then no item has the id and its directory is gone; every other item keeps its place,
      every other directory its files, and no job changes. Otherwise the list stays, and an
      id that is not listed changes nothing. */
  lemma DeletionDeletes(s: System, id: Id, removed: bool, left: Directory, free: Option<nat>)
    requires Reachable(s)
    ensures var (t, outcome) := RemoveItem(s.store, id, removed, left, free); Deletes(s.store, id, removed, t, outcome)
  {
    ReachableInv(s);
    RemovalDeletes(s.store, id, removed, left, free);
  }

  // ----- ... for good -----

  /** No directory is published under the id, and no work under way will publish one. */
  ghost predicate Deleted(s: System, id: Id) {
    && id in s.used && Published(id) !in s.store.card
    && (s.worker.Some? ==> s.worker.value.mediaId != id)
  }

  lemma DeletedIsNotListed(s: System, id: Id)
    requires Inv(s) && Deleted(s, id)
    ensures !Lists(s.store.items, id)
  {
    forall i | 0 <= i < |s.store.items| ensures s.store.items[i].id != id {
      assert Shelved(s.store.items[i], s.store.card);
    }
  }

  lemma SnapshotAddsItsOwn(s: System, q: SnapshotInputs, id: Id)
    requires Inv(s) && SnapshotDrawn(s, q) && Published(id) in StoreSnapshot(s.store, q).0.card
    ensures Published(id) in s.store.card || id == q.id
  {
    GuardKeepsShelf(s.store, q);
    var t := SnapshotGuard(s.store, q).0;
    if SnapshotGuard(s.store, q).1 == Done && q.frame.Some? && q.written.Committed? {
      var item := SnapshotItem(t, q.frame.value, q.id, q.at, q.createdMs);
      SnapshotJoinsShelf(t, q.frame.value, q.id, q.at, q.createdMs, q.written.manifestBytes);
      var added := Added(t.(nextOrdinal := t.nextOrdinal + 1), item, SnapshotDirectory(item, q.written.manifestBytes));
      SettledKeepsShelf(added, q.after, q.last);
    }
  }

  lemma CommitAddsItsOwn(s: System, at: string, manifestBytes: nat, after: Option<nat>, last: Readings, id: Id)
    requires Inv(s) && s.worker.Some? && s.worker.value.phase.Publishing? && Commits(s.store, s.worker.value)
    requires |at| <= 31 && Exact(s.store.nextOrdinal) && s.worker.value.fps > 0
    requires Published(id) in Commit(s.store, s.worker.value, at, Committed(manifestBytes), after, last).0.card
    ensures Published(id) in s.store.card || id == s.worker.value.mediaId
  {
    var w := s.worker.value;
    ClipJoinsShelf(s, at, manifestBytes);
    var item := ClipItem(s.store, w, at);
    var added := Added(s.store.(nextOrdinal := s.store.nextOrdinal + 1), item,
                       ClipDirectory(PartialOf(s.store, w), item, manifestBytes));
    SettledKeepsShelf(added, after, last);
  }

  lemma UnpublishedAddsNothing(s: Store, w: Worker, written: Written, after: Option<nat>, last: Readings, id: Id)
    requires Shelf(s.items, s.nextOrdinal, s.card) && Published(id) in Unpublished(s, w, written, after, last).0.card
    ensures Published(id) in s.card
  {
    SettledKeepsShelf(s, after, last);
  }

  lemma PublishAddsItsOwn(s: System, at: string, written: Written, after: Option<nat>, last: Readings, id: Id)
    requires Inv(s) && Enabled(s, WorkerPublishes(at, written, after, last))
    requires Published(id) in Publish(s.store, s.worker.value, at, written, after, last).card
    ensures Published(id) in s.store.card || id == s.worker.value.mediaId
  {
    if Commits(s.store, s.worker.value) {
      if written.Committed? { CommitAddsItsOwn(s, at, written.manifestBytes, after, last, id); }
    } else {
      UnpublishedAddsNothing(s.store, s.worker.value, written, after, last, id);
    }
  }

  lemma RebootAddsNothing(cut: Store, boot: BootInputs, id: Id)
    requires LoadableApart(cut.card) && Listing(cut.card, boot.entries) && Published(id) in Boot(cut, boot).card
    ensures Published(id) in cut.card
  {
    BootKeepsShelf(cut, boot);
  }

  lemma RestartKeepsDeleted(s: System, step: Step, id: Id)
    requires Inv(s) && Enabled(s, step) && Deleted(s, id)
    requires step.PowerLoss? || step.PowerLossInSnapshot? || step.PowerLossInPublish?
    ensures Deleted(Apply(s, step), id)
  {
    var r := Apply(s, step);
    if Published(id) in r.store.card {
      match step
      case PowerLoss(boot) =>
        ShelfIsApart(s.store.items, s.store.nextOrdinal, s.store.card);
        RebootAddsNothing(s.store, boot, id);
      case PowerLossInSnapshot(q, renamed, debris, boot) =>
        SnapshotCutShelf(s.store, q, renamed, debris);
        var cut := SnapshotCut(s.store, q, renamed, debris);
        ShelfIsApart(cut.items, cut.nextOrdinal, cut.card);
        RebootAddsNothing(cut, boot, id);
      case PowerLossInPublish(at, renamed, manifestBytes, debris, boot) =>
        PublishCutShelf(s, at, renamed, manifestBytes, debris);
        var cut := PublishCut(s.store, s.worker.value, at, renamed, manifestBytes, debris);
        ShelfIsApart(cut.items, cut.nextOrdinal, cut.card);
        RebootAddsNothing(cut, boot, id);
    }
  }

  lemma WorkerKeepsDeleted(s: System, step: Step, id: Id)
    requires Deleted(s, id) && Enabled(s, step)
    requires step.WorkerBegins? || step.WorkerPrepares? || step.WorkerLooks? || step.WorkerLeaves? || step.WorkerWrites?
      || step.WorkerReports? || step.Cancel? || step.ReadStatus?
    ensures Deleted(Apply(s, step), id)
  {
  }

  lemma RequestKeepsDeleted(s: System, step: Step, id: Id)
    requires Inv(s) && Enabled(s, step) && Deleted(s, id)
    requires step.TakeSnapshot? || step.RequestClip? || step.Remove? || step.WorkerPublishes?
    ensures Deleted(Apply(s, step), id)
  {
    if Published(id) in Apply(s, step).store.card {
      match step
      case TakeSnapshot(q) => SnapshotAddsItsOwn(s, q, id);
      case RequestClip(c) => RetainKeepsShelf(s.store, c.first, 0);
      case WorkerPublishes(at, written, after, last) => PublishAddsItsOwn(s, at, written, after, last, id);
      case Remove(other, removed, left, free) => RemoveKeepsShelf(s.store, other, removed, left, free);
    }
  }

  lemma StepKeepsDeleted(s: System, step: Step, id: Id)
    requires Inv(s) && Enabled(s, step) && Deleted(s, id)
    ensures Deleted(Apply(s, step), id)
  {
    if step.PowerLoss? || step.PowerLossInSnapshot? || step.PowerLossInPublish? {
      RestartKeepsDeleted(s, step, id);
    } else if step.TakeSnapshot? || step.RequestClip? || step.Remove? || step.WorkerPublishes? {
      RequestKeepsDeleted(s, step, id);
    } else {
      WorkerKeepsDeleted(s, step, id);
    }
  }

  lemma ListedIsUsed(s: System, id: Id)
    requires Inv(s) && Lists(s.store.items, id)
    ensures id in s.used && (s.worker.Some? ==> s.worker.value.mediaId != id)
  {
    var i :| 0 <= i < |s.store.items| && s.store.items[i].id == id;
    assert Shelved(s.store.items[i], s.store.card);
  }

  lemma DeletionTakesEffect(s: System, id: Id, removed: bool, left: Directory, free: Option<nat>)
    requires Inv(s) && RemoveItem(s.store, id, removed, left, free).1 == Done
    ensures Deleted(Apply(s, Remove(id, removed, left, free)), id)
  {
    RemovalDeletes(s.store, id, removed, left, free);
    ListedIsUsed(s, id);
  }

  /** Deletion is final: in every later state, whatever is stored, lost, rebooted or scanned,
      the id is not listed, its directory is not on the card, and no scan lists it. */
  lemma DeletionIsFinal(s: System, id: Id, removed: bool, left: Directory, free: Option<nat>, r: System)
    requires Reachable(s) && RemoveItem(s.store, id, removed, left, free).1 == Done
    requires Follows(Next, Apply(s, Remove(id, removed, left, free)), r)
    ensures !Lists(r.store.items, id) && Published(id) !in r.store.card
    ensures forall entries, stuck, x :: x in Scan(r.store, entries, stuck).items ==> x.id != id
  {
    ReachableInv(s);
    DeletionTakesEffect(s, id, removed, left, free);
    StepKeeps(s, Remove(id, removed, left, free));
    forall m, n | Inv(m) && Deleted(m, id) && Next(m, n) ensures Inv(n) && Deleted(n, id) {
      var step :| Enabled(m, step) && n == Apply(m, step);
      StepKeeps(m, step);
      StepKeepsDeleted(m, step, id);
    }
    FollowsKeeps(Next, t => Inv(t) && Deleted(t, id), Apply(s, Remove(id, removed, left, free)), r);
    DeletedIsNotListed(r, id);
    forall entries, stuck, x | x in Scan(r.store, entries, stuck).items ensures x.id != id {
      SortedAreCollected(Collected(r.store.card, entries));
      CollectedAreThere(r.store.card, entries);
    }
  }

  lemma {:induction false} InsertedAreIn(item: Item, sorted: seq<Item>)
    ensures forall x :: x in Insert(item, sorted) ==> x == item || x in sorted
  {
    if sorted != [] && item.ordinal > sorted[0].ordinal { InsertedAreIn(item, sorted[1..]); }
  }

  lemma {:induction false} SortedAreCollected(items: seq<Item>)
    ensures forall x :: x in SortByOrdinal(items) ==> x in items
  {
    if items != [] {
      SortedAreCollected(items[1..]);
      InsertedAreIn(items[0], SortByOrdinal(items[1..]));
    }
  }

  lemma {:induction false} CollectedAreThere(card: Card, entries: seq<DirName>)
    ensures forall x :: x in Collected(card, entries) ==> Published(x.id) in card
  {
    if entries != [] { CollectedAreThere(card, entries[..|entries| - 1]); }
  }

  // ----- What is stored is listed -----

  /** Of these items those are left: the limits hold for them, or a removal failed, or
      nothing is left. */
  ghost predicate Bounded(items: seq<Item>, left: seq<Item>, limits: Limits, r: Readings) {
    && |left| <= |items|
    && (left == [] || !Excess(left, FreeAt(r, |items| - |left|), limits) || |items| - |left| in r.stuck)
  }

  lemma RetentionBounds(s: Store, r: Readings)
    ensures Bounded(s.items, Retain(s, r, 0).items, s.limits, r)
  {
    RetentionIsShortest(s, r, 0);
  }

  lemma RetentionTakesOldest(s: Store, r: Readings) returns (k: nat)
    ensures k <= |s.items| && Retain(s, r, 0).items == s.items[k..] && Bounded(s.items, s.items[k..], s.limits, r)
  {
    RetentionIsShortest(s, r, 0);
    k := |s.items| - |Retain(s, r, 0).items|;
  }

  /** Oldest items go, one is added as the newest, and oldest items go again. */
  lemma SuffixesJoin(items: seq<Item>, a: nat, x: Item, b: nat) returns (k: nat)
    requires a <= |items| && b <= |items[a..] + [x]|
    ensures k <= |items| + 1 && (items[a..] + [x])[b..] == (items + [x])[k..]
  {
    k := a + b;
    assert items[a..] + [x] == (items + [x])[a..];
  }

  predicate SnapshotAllowed(s: Store, q: SnapshotInputs) {
    && q.before.enabled && q.before.verified && q.before.generation == q.expected
    && q.again.enabled && q.again.verified && q.again.generation == q.expected
    && q.frame.Some? && q.frame.value.capturedMs <= q.nowMs <= q.frame.value.capturedMs + 2000
    && s.writable && s.active.None?
    && (q.free.Some? ==> q.free.value > s.limits.reserve + q.frame.value.size)
  }

  /** A snapshot is stored exactly if the camera is on, verified and at the expected
      generation before and after, its frame is fresh, the card is writable with room and no
      clip is being recorded, and the card keeps it. */
  lemma SnapshotIsStoredExactly(s: Store, q: SnapshotInputs)
    ensures StoreSnapshot(s, q).1 == Done <==> SnapshotAllowed(s, q) && q.written.Committed?
  {
  }

  /** A stored snapshot is listed as the newest item, with its frame's size and number, and
      all that is missing are the oldest items, until the limits hold. */
  lemma SnapshotIsNewest(s: Store, q: SnapshotInputs) returns (x: Item, first: nat, k: nat)
    requires StoreSnapshot(s, q).1 == Done
    ensures first <= k <= |s.items| + 1 && StoreSnapshot(s, q).0.items == (s.items + [x])[k..]
    ensures Bounded((s.items + [x])[first..], (s.items + [x])[k..], s.limits, q.last)
    ensures x.id == q.id && x.kind == Snapshot && x.createdAt == q.at && x.ordinal == s.nextOrdinal
    ensures x.width == q.frame.value.width && x.height == q.frame.value.height && x.frameCount == 1
    ensures q.written.Committed? && x.sizeBytes == q.frame.value.size + q.written.manifestBytes
    ensures StoreSnapshot(s, q).0.nextOrdinal == s.nextOrdinal + 1
  {
    SnapshotIsStoredExactly(s, q);
    var a := RetentionTakesOldest(s, q.first);
    var t := SnapshotGuard(s, q).0;
    var item := SnapshotItem(t, q.frame.value, q.id, q.at, q.createdMs);
    var d := SnapshotDirectory(item, q.written.manifestBytes);
    var added := Added(t.(nextOrdinal := t.nextOrdinal + 1), item, d);
    x := item.(sizeBytes := d.bytes);
    var b := RetentionTakesOldest(Refreshed(added, q.after), q.last);
    first := a;
    k := SuffixesJoin(s.items, a, x, b);
    assert s.items[a..] + [x] == (s.items + [x])[a..];
  }

  /** The item a committed clip becomes, and how many items retention then takes. */
  lemma CommitAddsNewest(s: Store, w: Worker, at: string, manifestBytes: nat, after: Option<nat>, last: Readings) returns (x: Item, k: nat)
    requires w.fps > 0
    ensures var (t, job) := Commit(s, w, at, Committed(manifestBytes), after, last);
      && k <= |s.items| + 1 && t.items == (s.items + [x])[k..] && t.jobs == s.jobs
      && Bounded(s.items + [x], t.items, s.limits, last)
      && job == w.job.(state := Complete, media := Some(w.mediaId))
    ensures x.id == w.mediaId && x.kind == Clip && x.frameCount == w.job.framesWritten && x.fps == w.fps
    ensures x.createdAt == at && x.ordinal == s.nextOrdinal
  {
    var item := ClipItem(s, w, at);
    var d := ClipDirectory(PartialOf(s, w), item, manifestBytes);
    var added := Added(s.(nextOrdinal := s.nextOrdinal + 1), item, d);
    x := item.(sizeBytes := d.bytes);
    k := RetentionTakesOldest(Refreshed(added, after), last);
  }

  predicate EndsAs(jobs: seq<Job>, id: Id, state: JobState, media: Option<Id>) {
    jobs != [] && jobs[|jobs| - 1].id == id && jobs[|jobs| - 1].state == state && jobs[|jobs| - 1].media == media
  }

  lemma ActiveIsLast(s: System)
    requires Reachable(s) && s.store.active.Some?
    ensures s.store.jobs != [] && s.store.jobs[|s.store.jobs| - 1].id == s.store.active.value
    ensures forall i, j :: 0 <= i < j < |s.store.jobs| ==> s.store.jobs[i].id != s.store.jobs[j].id
  {
    ReachableInv(s);
  }

  lemma LastRecord(s: System, job: Job)
    requires Reachable(s) && s.store.active == Some(job.id)
    ensures var jobs := UpdateJob(s.store.jobs, job); jobs != [] && |jobs| == |s.store.jobs| && jobs[|jobs| - 1] == job
  {
    ActiveIsLast(s);
    UpdatesLast(s.store.jobs, job);
  }

  lemma WorkerIsActive(s: System)
    requires Reachable(s) && s.worker.Some?
    ensures s.store.active == Some(s.worker.value.job.id)
  {
    ReachableInv(s);
  }

  /** A clip with frames that was not cancelled is listed as the newest item, with as many
      frames as were written, and its job is remembered as complete under the item's id. */
  lemma ClipIsNewest(s: System, at: string, written: Written, after: Option<nat>, last: Readings) returns (x: Item, k: nat)
    requires Reachable(s) && Enabled(s, WorkerPublishes(at, written, after, last))
    requires Commits(s.store, s.worker.value) && written.Committed?
    ensures var w, r := s.worker.value, Apply(s, WorkerPublishes(at, written, after, last)).store;
      && k <= |s.store.items| + 1 && r.items == (s.store.items + [x])[k..]
      && Bounded(s.store.items + [x], r.items, s.store.limits, last)
      && x.id == w.mediaId && x.kind == Clip && x.frameCount == w.job.framesWritten && x.fps == w.fps
      && x.createdAt == at && x.ordinal == s.store.nextOrdinal
      && r.active.None? && EndsAs(r.jobs, w.job.id, Complete, Some(w.mediaId))
  {
    var w := s.worker.value;
    x, k := CommitAddsNewest(s.store, w, at, written.manifestBytes, after, last);
    WorkerIsActive(s);
    LastRecord(s, w.job.(state := Complete, media := Some(w.mediaId)));
  }

  /** An accepted clip request is the active job, remembered as the newest record and queued
      for as many frames as the duration and rate ask for, at least one and at most 150. */
  lemma ClipIsQueued(s: System, c: ClipInputs)
    requires Reachable(s) && Enabled(s, RequestClip(c)) && StartClip(s.store, c).1 == Done
    ensures var r := Apply(s, RequestClip(c));
      && r.store.active == Some(c.jobId) && r.store.jobs != []
      && r.store.jobs[|r.store.jobs| - 1] == Job(c.jobId, Queued, c.nowMs, 0, FramesTarget(c.durationMs, c.fps), None, "")
      && r.worker.Some? && r.worker.value.mediaId == c.mediaId && r.worker.value.phase == Starting
    ensures 1 <= FramesTarget(c.durationMs, c.fps) <= 150
    ensures 1000 * FramesTarget(c.durationMs, c.fps) <= c.durationMs * c.fps
    ensures FramesTarget(c.durationMs, c.fps) == 150 || c.durationMs * c.fps < 1000 * (FramesTarget(c.durationMs, c.fps) + 1)
  {
    ReachableInv(s);
    ClearedKeeps(s, c);
    var t := Cleared(s, c).store;
    NewJob(t.jobs, Job(c.jobId, Queued, c.nowMs, 0, FramesTarget(c.durationMs, c.fps), None, ""));
    ClipDuration(c.durationMs, c.fps, FramesTarget(c.durationMs, c.fps));
    TargetWithin(c.durationMs, c.fps);
  }

  lemma TargetWithin(durationMs: nat, fps: nat)
    requires ClipArguments(durationMs, fps)
    ensures 1 <= FramesTarget(durationMs, fps) <= 150 && 1000 * FramesTarget(durationMs, fps) <= durationMs * fps
    ensures FramesTarget(durationMs, fps) == 150 || durationMs * fps < 1000 * (FramesTarget(durationMs, fps) + 1)
  {
    assert durationMs * fps >= 1000 * 1;
  }

  /** Unless it was cancelled, the worker's progress is what the newest record says after
      every frame. */
  lemma ProgressIsReported(s: System)
    requires Reachable(s) && Enabled(s, WorkerReports) && s.store.cancel.None?
    ensures var r := Apply(s, WorkerReports).store;
      |r.jobs| == |s.store.jobs| > 0 && r.jobs[|r.jobs| - 1] == s.worker.value.job
      && forall i :: 0 <= i < |r.jobs| - 1 ==> r.jobs[i] == s.store.jobs[i]
  {
    ReachableInv(s);
    UpdatesLast(s.store.jobs, s.worker.value.job);
  }

  predicate ClipAllowed(s: Store, c: ClipInputs) {
    && 1000 <= c.durationMs <= 30_000 && 1 <= c.fps <= 5 && ((c.durationMs + 999) / 1000) * c.fps <= 150
    && c.before.enabled && c.before.verified && c.before.generation == c.expected
    && c.again.enabled && c.again.verified && c.again.generation == c.expected
    && s.writable && s.active.None?
    && (c.free.Some? ==> c.free.value > s.limits.reserve + FramesTarget(c.durationMs, c.fps) * (256 * 1024))
  }

  /** A clip is accepted exactly if its length and rate are in range, the camera is on,
      verified and at the expected generation before and after, the card is writable with
      room for its frames at their largest, no other clip is being recorded, and a worker
      could be started; if only that failed, the job is remembered as failed. */
  lemma ClipIsStartedExactly(s: Store, c: ClipInputs)
    ensures StartClip(s, c).1 == Done <==> ClipAllowed(s, c) && c.spawned
    ensures StartClip(s, c).1 == Fail <==> ClipAllowed(s, c) && !c.spawned
    ensures StartClip(s, c).1 == Fail ==> StartClip(s, c).0.active.None?
  {
  }
}
