/** The media store's promises over whole runs: cancellation, crash consistency,
    retention and paging. */
module MediaTheorems {
  import opened Options
  import opened Media
  import opened MediaSafety
  import opened Runs

  ghost predicate Next(s: System, r: System) {
    exists step :: Enabled(s, step) && r == Apply(s, step)
  }

  /** A step without power loss. */
  ghost predicate NextPowered(s: System, r: System) {
    exists step :: Enabled(s, step) && r == Apply(s, step)
      && !step.PowerLoss? && !step.PowerLossInSnapshot? && !step.PowerLossInPublish?
  }

  ghost predicate Reachable(s: System) {
    exists limits :: Follows(Next, Start(limits), s)
  }

  ghost predicate Blank(s: System) {
    && |s.store.items| == 0 && |s.store.jobs| == 0 && |s.store.card| == 0 && s.store.nextOrdinal == 1
    && s.store.active.None? && s.store.cancel.None? && s.worker.None?
    && (forall x :: x !in s.stopped && x !in s.published && x !in s.recordings)
  }

  lemma BlankInv(s: System)
    requires Blank(s)
    ensures Inv(s)
  {
    assert s.store.card.Keys == {};
  }

  lemma EveryStepKeeps()
    ensures Inductive(Next, Inv)
  {
    forall s, r | Inv(s) && Next(s, r) ensures Inv(r) {
      var step :| Enabled(s, step) && r == Apply(s, step);
      StepKeeps(s, step);
    }
  }

  lemma ReachableInv(s: System)
    requires Reachable(s)
    ensures Inv(s)
  {
    var limits :| Follows(Next, Start(limits), s);
    assert Blank(Start(limits));
    BlankInv(Start(limits));
    EveryStepKeeps();
    FollowsKeeps(Next, Inv, Start(limits), s);
  }

  // ----- Cancellation -----

  ghost predicate Stopped(s: System, j: Id) {
    && j in s.stopped && j !in s.published
    && (j in s.recordings ==> Published(s.recordings[j]) !in s.store.card)
    && (forall i :: 0 <= i < |s.store.items| ==> j in s.recordings ==> s.store.items[i].id != s.recordings[j])
    && (forall i :: 0 <= i < |s.store.jobs| && s.store.jobs[i].id == j ==>
          || s.store.jobs[i].state.Cancelling?
          || s.store.jobs[i].state.Cancelled?
          || s.store.jobs[i].state.Failed?)
  }

  lemma InvStopped(s: System, j: Id)
    requires Inv(s) && j in s.stopped
    ensures Stopped(s, j)
  {
    forall i | 0 <= i < |s.store.items| && j in s.recordings ensures s.store.items[i].id != s.recordings[j] {
      assert Shelved(s.store.items[i], s.store.card);
    }
  }

  lemma StoppedStays(j: Id)
    ensures Inductive(Next, s => Inv(s) && j in s.stopped)
  {
    forall s, r | Inv(s) && j in s.stopped && Next(s, r) ensures Inv(r) && j in r.stopped {
      var step :| Enabled(s, step) && r == Apply(s, step);
      StepKeeps(s, step);
    }
  }

  /** Once a cancellation has been accepted, in every later state -- whatever the worker,
      other requests, crashes and reboots do -- the job is neither published nor running,
      queued or complete again, and its recording is neither listed nor on the card. */
  lemma CancellationIsFinal(s: System, id: Id, r: System)
    requires Reachable(s)
    requires CancelJob(s.store, id).1.Ok? && CancelJob(s.store, id).1.value.state.Cancelling?
    requires Follows(Next, Apply(s, Cancel(id)), r)
    ensures Stopped(r, id)
  {
    ReachableInv(s);
    StepKeeps(s, Cancel(id));
    StoppedStays(id);
    FollowsKeeps(Next, t => Inv(t) && id in t.stopped, Apply(s, Cancel(id)), r);
    InvStopped(r, id);
  }

  predicate RememberedCancelled(jobs: seq<Job>, id: Id) {
    var i := Find(jobs, id); i < |jobs| && jobs[i].state.Cancelled?
  }

  lemma AcceptedWhenActive(s: Store, stopped: set<Id>, published: set<Id>, id: Id)
    requires JobsOk(s.jobs, s.active, s.cancel, stopped, published)
    ensures CancelJob(s, id).1.Ok? <==> s.active == Some(id) || RememberedCancelled(s.jobs, id)
    ensures s.active == Some(id) ==> CancelJob(s, id).1.value.state.Cancelling?
  {
    var i := Find(s.jobs, id);
    if s.active == Some(id) {
      assert s.jobs[|s.jobs| - 1].id == id;
      assert i == |s.jobs| - 1;
    }
  }

  /** A cancellation is accepted exactly while the job is the active one, or when it was
      accepted before and has taken effect. */
  lemma CancellationIsAccepted(s: System, id: Id)
    requires Reachable(s)
    ensures CancelJob(s.store, id).1.Ok? <==> s.store.active == Some(id) || RememberedCancelled(s.store.jobs, id)
    ensures s.store.active == Some(id) ==> CancelJob(s.store, id).1.value.state.Cancelling?
  {
    ReachableInv(s);
    AcceptedWhenActive(s.store, s.stopped, s.published, id);
  }

  /** The running job is always still remembered, as the newest record. */
  lemma ActiveJobIsRemembered(s: System)
    requires Reachable(s) && s.store.active.Some?
    ensures 0 < |s.store.jobs| <= MAX_JOBS_REMEMBERED
    ensures s.store.jobs[|s.store.jobs| - 1].id == s.store.active.value
    ensures forall i :: 0 <= i < |s.store.jobs| - 1 ==>
      s.store.jobs[i].id != s.store.active.value && Ended(s.store.jobs[i].state)
  {
    ReachableInv(s);
  }

  /** A job that reports completion was published exactly when it had written a frame. */
  lemma CompleteMeansPublishedIffFrames(s: System, i: nat)
    requires Reachable(s) && i < |s.store.jobs| && s.store.jobs[i].state.Complete?
    ensures s.store.jobs[i].id in s.published <==> s.store.jobs[i].framesWritten > 0
    ensures s.store.jobs[i].id in s.published <==> s.store.jobs[i].media.Some?
  {
    ReachableInv(s);
  }

  lemma OneMore(s: System, n: nat, m: System, step: Step)
    requires Leads(Next, s, m, n) && Enabled(m, step)
    ensures Leads(Next, s, Apply(m, step), n + 1)
  {
    assert Next(m, Apply(m, step));
  }

  const TINY: Limits := Limits(1, 1, 0)
  const ROOMY: Readings := Readings(map[0 := 40_000_000], {}, EMPTY)
  const CAMERA: CameraView := CameraView(true, true, 1)
  const SHORT_CLIP: ClipInputs := ClipInputs(1000, 1, CAMERA, CAMERA, 1, 1, 2, 0, ROOMY, Some(40_000_000), true)

  function EmptyClipJob(state: JobState, error: string): Job { Job(1, state, 0, 0, 1, None, error) }

  function EmptyClipStore(jobs: seq<Job>, active: Option<Id>, card: Card): Store {
    Store([], jobs, active, None, 1, true, card, TINY)
  }

  function EmptyClipAt(job: Job, phase: Phase, card: Card): System {
    System(EmptyClipStore([job.(state := if phase.Starting? then Queued else Running, framesTarget := 1)], Some(1), card),
           Some(Worker(job, 2, 1000, 1, true, 0, phase)), {1, 2}, map[1 := 2], {}, {})
  }

  lemma EmptyClipBoots()
    ensures Leads(Next, Start(TINY), System(EmptyClipStore([], None, map[]), None, {}, map[], {}, {}), 1)
  {
    var boot := BootInputs([], {}, 0, true, Some(40_000_000), ROOMY);
    var s := Start(TINY);
    OneMore(s, 0, s, PowerLoss(boot));
    assert Scan(EmptyClipStore([], None, map[]), [], {}).items == [];
    assert Boot(s.store, boot) == EmptyClipStore([], None, map[]);
  }

  lemma ShortClipStarts(s: Store)
    requires s == EmptyClipStore([], None, map[])
    ensures StartClip(s, SHORT_CLIP) == (EmptyClipStore([EmptyClipJob(Queued, "")], Some(1), map[]), Done)
  {
    assert FramesTarget(1000, 1) == 1;
    assert ClipArguments(1000, 1);
    assert Refreshed(Retain(s, ROOMY, 0), Some(40_000_000)) == s;
    assert Find([], 1) == 0;
    assert UpdateJob(s.jobs, EmptyClipJob(Queued, "")) == [EmptyClipJob(Queued, "")];
  }

  lemma ClipRequested(start: System, n: nat, s: System, c: ClipInputs, t: Store)
    requires Leads(Next, start, s, n) && Enabled(s, RequestClip(c)) && StartClip(s.store, c) == (t, Done)
    ensures Leads(Next, start, s.(store := t, used := s.used + {c.jobId, c.mediaId},
      recordings := s.recordings[c.jobId := c.mediaId], worker := Some(Hired(c))), n + 1)
  {
    OneMore(start, n, s, RequestClip(c));
  }

  lemma EmptyClipStarts()
    ensures Leads(Next, Start(TINY), EmptyClipAt(Job(1, Queued, 0, 0, 0, None, ""), Starting, map[]), 2)
  {
    EmptyClipBoots();
    var s := System(EmptyClipStore([], None, map[]), None, {}, map[], {}, {});
    ShortClipStarts(s.store);
    var c := SHORT_CLIP;
    ClipRequested(Start(TINY), 1, s, c, EmptyClipStore([EmptyClipJob(Queued, "")], Some(1), map[]));
    assert map[][c.jobId := c.mediaId] == map[1 := 2];
    assert s.used + {c.jobId, c.mediaId} == {1, 2};
  }

  lemma EmptyClipRecords()
    ensures Leads(Next, Start(TINY), EmptyClipAt(EmptyClipJob(Running, ""), Looking, map[Partial(2) := EMPTY]), 4)
  {
    EmptyClipStarts();
    var s := EmptyClipAt(Job(1, Queued, 0, 0, 0, None, ""), Starting, map[]);
    OneMore(Start(TINY), 2, s, WorkerBegins(0));
    var t := EmptyClipAt(EmptyClipJob(Running, ""), Preparing, map[]);
    assert Apply(s, WorkerBegins(0)) == t;
    OneMore(Start(TINY), 3, t, WorkerPrepares(true));
    assert Apply(t, WorkerPrepares(true)) == EmptyClipAt(EmptyClipJob(Running, ""), Looking, map[Partial(2) := EMPTY]);
  }

  lemma EmptyClipPublishes(w: Worker, s: Store)
    requires w == Worker(EmptyClipJob(Running, ""), 2, 1000, 1, true, 0, Publishing)
    requires s == EmptyClipStore([EmptyClipJob(Running, "")], Some(1), map[Partial(2) := EMPTY])
    ensures var t := Publish(s, w, "", Committed(0), Some(40_000_000), ROOMY);
      t.jobs == [EmptyClipJob(Complete, "clip_empty")] && t.items == []
  {
    assert Settled(s, Some(40_000_000), ROOMY).jobs == s.jobs;
    assert UpdateJob(s.jobs, EmptyClipJob(Complete, "clip_empty")) == [EmptyClipJob(Complete, "clip_empty")];
  }

  /** It does happen that no frame is written: the deadline passes before the first one
      is accepted, and the job reports completion although nothing was published. */
  lemma EmptyClipCompletes() returns (s: System)
    ensures Reachable(s)
    ensures |s.store.jobs| == 1 && s.store.jobs[0] == EmptyClipJob(Complete, "clip_empty")
    ensures s.published == {} && s.store.items == []
  {
    EmptyClipRecords();
    var r := EmptyClipAt(EmptyClipJob(Running, ""), Looking, map[Partial(2) := EMPTY]);
    OneMore(Start(TINY), 4, r, WorkerLeaves(None));
    var p := Apply(r, WorkerLeaves(None));
    var step := WorkerPublishes("", Committed(0), Some(40_000_000), ROOMY);
    OneMore(Start(TINY), 5, p, step);
    EmptyClipPublishes(p.worker.value, p.store);
    s := Apply(p, step);
  }

  // ----- Crash consistency -----

  lemma {:induction false} SameItems(a: seq<Item>, b: seq<Item>)
    requires Ascending(a) && Ascending(b) && forall x :: x in a <==> x in b
    ensures a == b
  {
    if a != [] { assert a[0] in a; }
    if b != [] { assert b[0] in b; }
    if a != [] && b != [] {
      assert a[0] in b && b[0] in a;
      assert a[0] == b[0];
      forall x ensures x in a[1..] <==> x in b[1..] {
        assert x in a[1..] ==> x in a && x != a[0];
        assert x in b[1..] ==> x in b && x != b[0];
      }
      SameItems(a[1..], b[1..]);
    }
  }

  /** No removal of a published directory has failed part of the way. */
  ghost predicate Whole(card: Card) {
    forall id :: Published(id) in card ==> !card[Published(id)].cut
  }

  lemma ScanFindsShelf(s: Store, blank: Store, entries: seq<DirName>, stuck: set<Id>)
    requires Shelf(s.items, s.nextOrdinal, s.card) && Whole(s.card)
    requires blank.card == s.card && Listing(s.card, entries)
    ensures Scan(blank, entries, stuck).items == s.items
  {
    ShelfIsApart(s.items, s.nextOrdinal, s.card);
    ScanFinds(blank, entries, stuck);
    var found := Scan(blank, entries, stuck).items;
    forall x ensures x in found <==> x in s.items {
      if x in s.items {
        var i :| 0 <= i < |s.items| && s.items[i] == x;
        assert Shelved(s.items[i], s.card);
      }
      if OnCard(s.card, x) {
        assert Lists(s.items, x.id);
        var i :| 0 <= i < |s.items| && s.items[i].id == x.id;
        assert Shelved(s.items[i], s.card);
      }
    }
    SameItems(found, s.items);
  }

  /** Power loss between two steps loses no item and invents none: the scan finds the list. */
  lemma RebootFindsTheList(s: System, blank: Store, entries: seq<DirName>, stuck: set<Id>)
    requires Reachable(s) && Whole(s.store.card)
    requires blank.card == s.store.card && Listing(s.store.card, entries)
    ensures Scan(blank, entries, stuck).items == s.store.items
  {
    ReachableInv(s);
    ScanFindsShelf(s.store, blank, entries, stuck);
  }

  /** Power loss while a snapshot is stored: the scan finds what was listed, and the
      new snapshot exactly if its rename happened -- never a partial directory. */
  lemma SnapshotSurvivesPowerLoss(s: System, q: SnapshotInputs, renamed: bool, debris: Directory,
                                  blank: Store, entries: seq<DirName>, stuck: set<Id>)
    requires Reachable(s) && SnapshotDrawn(s, q) && SnapshotGuard(s.store, q).1 == Done && q.frame.Some?
    requires var cut := SnapshotCut(s.store, q, renamed, debris);
      Whole(cut.card) && blank.card == cut.card && Listing(cut.card, entries)
    ensures var before := SnapshotGuard(s.store, q).0.items;
      var found := Scan(blank, entries, stuck).items;
      if renamed then |found| == |before| + 1 && found[..|before|] == before && found[|before|].id == q.id else found == before
  {
    ReachableInv(s);
    SnapshotCutShelf(s.store, q, renamed, debris);
    ScanFindsShelf(SnapshotCut(s.store, q, renamed, debris), blank, entries, stuck);
  }

  /** The same for a clip in its final section; its manifest is one the scan accepts. */
  lemma ClipSurvivesPowerLoss(s: System, at: string, renamed: bool, manifestBytes: nat, debris: Directory,
                              blank: Store, entries: seq<DirName>, stuck: set<Id>)
    requires Reachable(s) && s.worker.Some? && s.worker.value.phase.Publishing? && s.worker.value.fps > 0
    requires Commits(s.store, s.worker.value) && |at| <= 31 && Exact(s.store.nextOrdinal)
    requires var cut := PublishCut(s.store, s.worker.value, at, renamed, manifestBytes, debris);
      Whole(cut.card) && blank.card == cut.card && Listing(cut.card, entries)
    ensures var found := Scan(blank, entries, stuck).items;
      if renamed then
        |found| == |s.store.items| + 1 && found[..|s.store.items|] == s.store.items
        && found[|s.store.items|].id == s.worker.value.mediaId
        && found[|s.store.items|].frameCount == s.worker.value.job.framesWritten
      else found == s.store.items
  {
    ReachableInv(s);
    PublishCutShelf(s, at, renamed, manifestBytes, debris);
    ScanFindsShelf(PublishCut(s.store, s.worker.value, at, renamed, manifestBytes, debris), blank, entries, stuck);
  }

  // ----- Order and retention -----

  /** Items ascend by number, all below the next one. */
  lemma ItemsAscend(s: System)
    requires Reachable(s)
    ensures Ascending(s.store.items)
    ensures forall i :: 0 <= i < |s.store.items| ==> s.store.items[i].ordinal < s.store.nextOrdinal
  {
    ReachableInv(s);
  }

  /** The first `k` items go, because the limits fail before each removal, and no more,
      because they hold then, nothing is left, or the next removal fails. */
  ghost predicate ShortestPrefix(items: seq<Item>, r: Readings, limits: Limits, i: nat, k: nat) {
    && k <= |items|
    && (forall j: nat :: j < k ==> Excess(items[j..], FreeAt(r, i + j), limits) && i + j !in r.stuck)
    && (k == |items| || !Excess(items[k..], FreeAt(r, i + k), limits) || i + k in r.stuck)
  }

  lemma OneMoreGoes(items: seq<Item>, r: Readings, limits: Limits, i: nat, k: nat)
    requires items != [] && Excess(items, FreeAt(r, i), limits) && i !in r.stuck
    requires ShortestPrefix(items[1..], r, limits, i + 1, k)
    ensures ShortestPrefix(items, r, limits, i, k + 1)
  {
    forall j: nat | j < k + 1 ensures Excess(items[j..], FreeAt(r, i + j), limits) && i + j !in r.stuck {
      if j == 0 { assert items[0..] == items; } else { assert items[1..][j - 1..] == items[j..]; }
    }
    assert items[1..][k..] == items[k + 1..];
  }

  lemma RetentionStops(s: Store, r: Readings, i: nat)
    requires !GoesOn(s, r, i)
    ensures Retain(s, r, i).items == s.items && ShortestPrefix(s.items, r, s.limits, i, 0)
  {
    assert s.items[0..] == s.items;
  }

  lemma RetentionGoesOn(s: Store, r: Readings, i: nat) returns (u: Store)
    requires GoesOn(s, r, i)
    ensures Retain(s, r, i) == Retain(u, r, i + 1) && u.items == s.items[1..] && u.limits == s.limits
  {
    u := WithoutOldest(Refreshed(s, FreeAt(r, i)));
  }

  /** Retention takes the shortest run of oldest items after which the limits hold,
      unless a removal fails first. */
  lemma {:induction false} RetentionIsShortest(s: Store, r: Readings, i: nat)
    ensures var t := Retain(s, r, i);
      var k := |s.items| - |t.items|;
      k >= 0 && t.items == s.items[k..] && ShortestPrefix(s.items, r, s.limits, i, k)
    decreases |s.items|
  {
    if GoesOn(s, r, i) {
      var u := RetentionGoesOn(s, r, i);
      RetentionIsShortest(u, r, i + 1);
      OneMoreGoes(s.items, r, s.limits, i, |u.items| - |Retain(u, r, i + 1).items|);
    } else {
      RetentionStops(s, r, i);
    }
  }

  /** Only the directories of those items leave the card. */
  lemma {:induction false} RetentionRemovesThose(s: Store, r: Readings, i: nat, name: DirName)
    requires name in s.card && name !in Retain(s, r, i).card
    ensures exists j :: 0 <= j < |s.items| - |Retain(s, r, i).items| && name == Published(s.items[j].id)
    decreases |s.items|
  {
    var u := WithoutOldest(Refreshed(s, FreeAt(r, i)));
    RetentionIsShortest(u, r, i + 1);
    if name in u.card {
      RetentionRemovesThose(u, r, i + 1, name);
      var j :| 0 <= j < |u.items| - |Retain(u, r, i + 1).items| && name == Published(u.items[j].id);
      assert s.items[j + 1] == u.items[j];
    } else {
      assert name == Published(s.items[0].id);
    }
  }
}
