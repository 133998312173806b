/** How work on the media store ends (camera/main/media_store.cpp): how a clip job ends,
    what a cancellation stops, what the limits leave, and what a boot clears. */
module MediaEndings {
  import opened Options
  import opened Media
  import opened MediaSafety
  import opened MediaTheorems
  import opened MediaEffects
  import opened Runs

  // ----- How a job ends -----

  predicate WasCancelled(s: System) { s.worker.Some? && s.store.cancel == Some(s.worker.value.job.id) }

  /** Complete if nothing failed and nobody cancelled it, cancelled if somebody did, failed
      otherwise; failed too if its partial directory could not be removed. */
  function EndState(s: System, written: Written): JobState
    requires s.worker.Some?
  {
    var w := s.worker.value;
    if w.ok && !WasCancelled(s) then if w.job.framesWritten > 0 && written.Lost? then Failed else Complete
    else if written.Lost? && written.debris.Some? then Failed
    else if WasCancelled(s) || w.job.state.Cancelled? then Cancelled
    else Failed
  }

  lemma UnpublishedEnds(s: Store, w: Worker, written: Written, after: Option<nat>, last: Readings)
    requires !Commits(s, w)
    ensures var (t, job) := Unpublished(s, w, written, after, last);
      var cancelled := s.cancel == Some(w.job.id);
      && job.id == w.job.id && t.jobs == s.jobs
      && (w.ok && !cancelled ==> job.state == Complete)
      && (!(w.ok && !cancelled) ==>
            if written.Lost? && written.debris.Some?
            then job.state == Failed && Partial(w.mediaId) in t.card && !t.writable
            else job.state == (if cancelled || w.job.state.Cancelled? then Cancelled else Failed)
                 && Partial(w.mediaId) !in t.card)
  {
  }

  lemma LostEnds(s: Store, w: Worker, at: string, debris: Option<Directory>, after: Option<nat>, last: Readings)
    requires w.fps > 0 && Commits(s, w) && !w.job.state.Cancelled?
    ensures var (t, job) := Commit(s, w, at, Lost(debris), after, last);
      && job.id == w.job.id && job.state == Failed && t.jobs == s.jobs && t.items == s.items
      && (if debris.Some? then Partial(w.mediaId) in t.card && !t.writable else Partial(w.mediaId) !in t.card)
  {
  }

  lemma RunningWorkerIsNotCancelled(s: System)
    requires Reachable(s) && s.worker.Some? && s.worker.value.phase.Publishing? && Commits(s.store, s.worker.value)
    ensures !s.worker.value.job.state.Cancelled?
  {
    ReachableInv(s);
  }

  /** The job is over and remembered so; a clip that does not complete leaves no partial
      directory, or one that could not be removed and a card that is not written again. */
  predicate EndedAs(r: Store, w: Worker, state: JobState, stuck: bool) {
    && r.active.None? && r.jobs != [] && r.jobs[|r.jobs| - 1].id == w.job.id && r.jobs[|r.jobs| - 1].state == state
    && (state != Complete ==> if stuck then !r.writable else Partial(w.mediaId) !in r.card)
  }

  lemma CommittedEnds(s: System, at: string, written: Written, after: Option<nat>, last: Readings)
    requires Reachable(s) && Enabled(s, WorkerPublishes(at, written, after, last)) && Commits(s.store, s.worker.value)
    ensures EndedAs(Apply(s, WorkerPublishes(at, written, after, last)).store, s.worker.value, EndState(s, written),
                    written.Lost? && written.debris.Some?)
  {
    var w := s.worker.value;
    WorkerIsActive(s);
    LastRecord(s, Commit(s.store, w, at, written, after, last).1);
    if written.Lost? {
      RunningWorkerIsNotCancelled(s);
      LostEnds(s.store, w, at, written.debris, after, last);
    } else {
      var x, k := CommitAddsNewest(s.store, w, at, written.manifestBytes, after, last);
    }
  }

  lemma GivenUpEnds(s: System, at: string, written: Written, after: Option<nat>, last: Readings)
    requires Reachable(s) && Enabled(s, WorkerPublishes(at, written, after, last)) && !Commits(s.store, s.worker.value)
    ensures EndedAs(Apply(s, WorkerPublishes(at, written, after, last)).store, s.worker.value, EndState(s, written),
                    written.Lost? && written.debris.Some?)
  {
    WorkerIsActive(s);
    UnpublishedEnds(s.store, s.worker.value, written, after, last);
    LastRecord(s, Unpublished(s.store, s.worker.value, written, after, last).1);
  }

  /** A clip job ends as it went: complete if nothing failed and nobody cancelled it,
      cancelled if somebody did, failed otherwise or if the card lost it. Unless its partial
      directory could not be removed, which makes it failed and the card read-only, a clip
      that does not complete leaves none. */
  lemma ClipEndsAsItWent(s: System, at: string, written: Written, after: Option<nat>, last: Readings)
    requires Reachable(s) && Enabled(s, WorkerPublishes(at, written, after, last))
    ensures EndedAs(Apply(s, WorkerPublishes(at, written, after, last)).store, s.worker.value, EndState(s, written),
                    written.Lost? && written.debris.Some?)
  {
    if Commits(s.store, s.worker.value) {
      CommittedEnds(s, at, written, after, last);
    } else {
      GivenUpEnds(s, at, written, after, last);
    }
  }

  lemma StepIsReachable(s: System, step: Step)
    requires Reachable(s) && Enabled(s, step)
    ensures Reachable(Apply(s, step))
  {
    var limits :| Follows(Next, Start(limits), s);
    FollowsOne(Next, s, Apply(s, step));
    FollowsOn(Next, Start(limits), s, Apply(s, step));
  }

  lemma ErrorIsKept(s: Store, w: Worker, error: string, written: Written, after: Option<nat>, last: Readings)
    requires !w.ok && w.job.error == error != "" && s.cancel.None? && !w.job.state.Cancelled?
    requires !(written.Lost? && written.debris.Some?)
    ensures var job := Unpublished(s, w, written, after, last).1;
      job.id == w.job.id && job.state == Failed && job.error == error
  {
  }

  lemma RecorderIsNotCancelled(s: System)
    requires Reachable(s) && s.worker.Some? && s.store.cancel.None? && (s.worker.value.phase.Looking? || s.worker.value.phase.Writing?)
    ensures !s.worker.value.job.state.Cancelled?
  {
    ReachableInv(s);
  }

  /** An error while recording makes the job fail with that error, unless it was cancelled. */
  lemma RecordingErrorFails(s: System, error: string, at: string, written: Written, after: Option<nat>, last: Readings)
    requires Reachable(s) && Enabled(s, WorkerLeaves(Some(error))) && error != "" && s.store.cancel.None?
    requires Enabled(Apply(s, WorkerLeaves(Some(error))), WorkerPublishes(at, written, after, last))
    requires !(written.Lost? && written.debris.Some?)
    ensures var r := Apply(Apply(s, WorkerLeaves(Some(error))), WorkerPublishes(at, written, after, last)).store;
      r.jobs != [] && r.jobs[|r.jobs| - 1].state == Failed && r.jobs[|r.jobs| - 1].error == error
  {
    var l := Apply(s, WorkerLeaves(Some(error)));
    RecorderIsNotCancelled(s);
    StepIsReachable(s, WorkerLeaves(Some(error)));
    WorkerIsActive(l);
    ErrorIsKept(l.store, l.worker.value, error, written, after, last);
    UnpublishedEnds(l.store, l.worker.value, written, after, last);
    LastRecord(l, Unpublished(l.store, l.worker.value, written, after, last).1);
  }

  // ----- What a cancellation stops -----

  /** Frames written, and the one in hand. */
  function Frames(w: Worker): nat { w.job.framesWritten + if w.phase.Writing? then 1 else 0 }

  /** The job's worker may still finish the frame it has in hand, and no other. */
  ghost predicate Stopping(s: System, id: Id, frames: nat) {
    && id in s.used
    && (s.worker.Some? && s.worker.value.job.id == id ==> s.store.cancel == Some(id) && Frames(s.worker.value) <= frames)
  }

  lemma BeginsFromNothing(s: System, nowMs: nat)
    requires Inv(s) && Enabled(s, WorkerBegins(nowMs))
    ensures Apply(s, WorkerBegins(nowMs)).worker.value.job.framesWritten == 0
    ensures Apply(s, WorkerBegins(nowMs)).worker.value.job.id == s.worker.value.job.id
  {
    assert s.store.jobs[|s.store.jobs| - 1].id == s.worker.value.job.id;
  }

  lemma StepKeepsStopping(s: System, step: Step, id: Id, frames: nat)
    requires Inv(s) && Enabled(s, step) && Stopping(s, id, frames)
    ensures Stopping(Apply(s, step), id, frames)
  {
    match step
    case WorkerBegins(nowMs) => BeginsFromNothing(s, nowMs);
    case TakeSnapshot(q) => SnapshotKeepsJobs(s.store, q);
    case RequestClip(c) => RequestKeepsStopping(s, c, id, frames);
    case Cancel(other) => CancelKeepsMark(s.store, other);
    case Remove(other, removed, left, free) => RemoveChanges(s.store, other, removed, left, free);
    case _ =>
  }

  lemma RetainKeepsRest(s: Store, r: Readings)
    ensures Retain(s, r, 0).cancel == s.cancel && Retain(s, r, 0).active == s.active
  {
  }

  lemma SnapshotKeepsJobs(s: Store, q: SnapshotInputs)
    ensures StoreSnapshot(s, q).0.cancel == s.cancel
  {
    RetainKeepsRest(s, q.first);
  }

  lemma RequestKeepsStopping(s: System, c: ClipInputs, id: Id, frames: nat)
    requires Inv(s) && Enabled(s, RequestClip(c)) && Stopping(s, id, frames)
    ensures Stopping(Apply(s, RequestClip(c)), id, frames)
  {
    RetainKeepsRest(s.store, c.first);
  }

  lemma CancelKeepsMark(s: Store, id: Id)
    ensures s.cancel.Some? && s.cancel == s.active ==> CancelJob(s, id).0.cancel == s.cancel
  {
  }

  /** After an accepted cancellation the worker writes at most the frame it had in hand:
      over any run, as long as it is at work. */
  lemma CancellationStopsRecording(s: System, id: Id, r: System)
    requires Reachable(s) && s.worker.Some? && s.worker.value.job.id == id
    requires Follows(Next, Apply(s, Cancel(id)), r) && r.worker.Some? && r.worker.value.job.id == id
    ensures r.worker.value.job.framesWritten <= s.worker.value.job.framesWritten + if s.worker.value.phase.Writing? then 1 else 0
  {
    ReachableInv(s);
    CancellationIsAccepted(s, id);
    var c := Apply(s, Cancel(id));
    var frames := Frames(s.worker.value);
    StepKeeps(s, Cancel(id));
    CancelMarks(s, id);
    forall m, n | Inv(m) && Stopping(m, id, frames) && Next(m, n) ensures Inv(n) && Stopping(n, id, frames) {
      var step :| Enabled(m, step) && n == Apply(m, step);
      StepKeeps(m, step);
      StepKeepsStopping(m, step, id, frames);
    }
    FollowsKeeps(Next, (t: System) => Inv(t) && Stopping(t, id, frames), c, r);
  }

  lemma CancelMarks(s: System, id: Id)
    requires Inv(s) && s.store.active == Some(id)
    ensures CancelJob(s.store, id).0.cancel == Some(id)
  {
    assert s.store.jobs[|s.store.jobs| - 1].id == id;
  }

  // ----- A card that failed -----

  lemma RetainNeverWrites(s: Store, r: Readings)
    requires !s.writable
    ensures !Retain(s, r, 0).writable
  {
    RetainStaysClosed(s, r, 0);
  }

  lemma {:induction false} RetainStaysClosed(s: Store, r: Readings, i: nat)
    requires !s.writable
    ensures !Retain(s, r, i).writable
    decreases |s.items|
  {
    if GoesOn(s, r, i) { RetainStaysClosed(WithoutOldest(Refreshed(s, FreeAt(r, i))), r, i + 1); }
  }

  lemma CommitStaysClosed(s: Store, w: Worker, at: string, written: Written, after: Option<nat>, last: Readings)
    requires !s.writable && w.fps > 0
    ensures !Commit(s, w, at, written, after, last).0.writable
  {
    if written.Committed? {
      var item := ClipItem(s, w, at);
      var added := Added(s.(nextOrdinal := s.nextOrdinal + 1), item, ClipDirectory(PartialOf(s, w), item, written.manifestBytes));
      RetainNeverWrites(Refreshed(added, after), last);
    }
  }

  lemma StepStaysClosed(s: System, step: Step)
    requires Enabled(s, step) && !s.store.writable
    requires !step.PowerLoss? && !step.PowerLossInSnapshot? && !step.PowerLossInPublish?
    ensures !Apply(s, step).store.writable
  {
    match step
    case WorkerPublishes(at, written, after, last) =>
      CommitStaysClosed(s.store, s.worker.value, at, written, after, last);
      RetainNeverWrites(Refreshed(s.store, after), last);
    case _ =>
  }

  /** A card that once did not answer, or would not give up a file, is not written again
      until a boot: in every later state without power loss no snapshot is stored and no clip
      started. */
  lemma FailedCardIsLeftAlone(s: System, r: System, q: SnapshotInputs, c: ClipInputs)
    requires !s.store.writable && Follows(NextPowered, s, r)
    ensures !r.store.writable && StoreSnapshot(r.store, q).1 != Done && StartClip(r.store, c).1 != Done
  {
    forall m: System, n: System | !m.store.writable && NextPowered(m, n) ensures !n.store.writable {
      var step :| Enabled(m, step) && n == Apply(m, step)
        && !step.PowerLoss? && !step.PowerLossInSnapshot? && !step.PowerLossInPublish?;
      StepStaysClosed(m, step);
    }
    FollowsKeeps(NextPowered, (t: System) => !t.store.writable, s, r);
  }

  /** It takes only one reading that does not come, or one removal that fails. */
  lemma CardFails(s: System, id: Id, left: Directory)
    ensures !Apply(s, ReadStatus(None)).store.writable
    ensures Lists(s.store.items, id) ==> !Apply(s, Remove(id, false, left, Some(0))).store.writable
  {
    ListedIsFound(s.store.items, id);
  }

  // ----- Limits and boot -----

  /** What a scan lists on a writable card is cut to the limits, of the partial directories
      only those stay that could not be removed, and no number below the stored one is given
      again. */
  lemma BootClears(s: Store, q: BootInputs)
    requires Listing(s.card, q.entries)
    ensures forall id :: Partial(id) in Boot(s, q).card ==> id in q.stuck
    ensures Boot(s, q).jobs == [] && Boot(s, q).active.None? && Boot(s, q).cancel.None?
    ensures q.stored <= Boot(s, q).nextOrdinal && 1 <= Boot(s, q).nextOrdinal
    ensures Boot(s, q).writable ==>
      Bounded(SortByOrdinal(Collected(s.card, q.entries)), Boot(s, q).items, s.limits, q.retention)
  {
    var blank := Store([], [], None, None, Max(1, q.stored), q.writable, s.card, s.limits);
    var t := Refreshed(Scan(blank, q.entries, q.stuck), q.free);
    assert forall id :: Partial(id) in t.card ==> Partial(id) in q.entries && id in q.stuck;
    RetainOnlyTakes(t, q.retention, 0);
    if t.writable {
      RetentionBounds(t, q.retention);
    }
  }

  lemma {:induction false} RetainOnlyTakes(s: Store, r: Readings, i: nat)
    ensures forall name :: name in Retain(s, r, i).card ==> name in s.card
    decreases |s.items|
  {
    if GoesOn(s, r, i) { RetainOnlyTakes(WithoutOldest(Refreshed(s, FreeAt(r, i))), r, i + 1); }
  }
}
