/** What the capture does: frames of a running session are published, and a mode switch can
    succeed or roll back (gateway/noob_gateway/video.py). */
module VideoProgress {
  import opened Options
  import opened Video
  import opened VideoTheorems
  import opened Runs

  // ----- A running session is the active one -----

  ghost predicate SessionShown(c: Capture, tasks: seq<Task>) {
    forall id :: 0 <= id < |tasks| && tasks[id].status.Running? && !tasks[id].idle && tasks[id].session ==>
      c.active == Some(tasks[id].profile)
  }

  ghost predicate Showing(s: System) { Whole(s) && SessionShown(s.c, s.tasks) }

  lemma NoneRuns(s: System, c: Capture)
    requires Whole(s) && s.call.Some? && !s.call.value.point.AwaitingFirst? && !s.call.value.point.AwaitingRollback?
    ensures SessionShown(c, s.tasks)
  {
  }

  lemma NoneCaptures(s: System, c: Capture)
    requires Whole(s) && s.c.stopping
    ensures SessionShown(c, s.tasks)
  {
  }

  lemma LetGoShows(s: System, c: Capture)
    requires Whole(s)
    ensures SessionShown(c, LetGo(s).tasks)
  {
    LetGoKeeps(s);
  }

  lemma WaivedShows(s: System, id: nat, c: Capture)
    requires Whole(s)
    ensures SessionShown(c, LetGo(Waived(s, id)).tasks)
  {
    WaivedKeeps(s, id);
    LetGoKeeps(Waived(s, id));
  }

  lemma HireShows(s: System, p: Profile, success: CaptureState, c: Capture)
    requires SessionShown(c, s.tasks)
    ensures SessionShown(c, Hire(s, p, success).tasks)
  {
  }

  lemma CallStepShows(s: System, step: Step)
    requires Showing(s) && Enabled(s, step)
    requires step.StartFirst? || step.StartRollback? || step.FirstFails? || step.RollbackFails? || step.SeeStop?
      || step.ReportFailure? || step.Leave? || step.Drop? || step.FirstReady? || step.RollbackReady?
    ensures SessionShown(Apply(s, step).c, Apply(s, step).tasks)
  {
    var c := Apply(s, step).c;
    match step
    case StartFirst =>
      NoneRuns(s, c);
      HireShows(s.(c := Invalidated(s.c, Switching)), s.call.value.target, Ready, c);
    case StartRollback =>
      NoneRuns(s, c);
      HireShows(s.(c := Invalidated(s.c.(desired := s.call.value.previous), Switching)), s.call.value.previous, RolledBack, c);
    case FirstFails => WaivedShows(s, s.call.value.point.id, c);
    case RollbackFails => WaivedShows(s, s.call.value.point.id, c);
    case SeeStop => WaivedShows(s, s.call.value.point.id, c);
    case ReportFailure => NoneRuns(s, c);
    case Leave => NoneRuns(s, c);
    case _ =>
  }

  lemma TaskStepShows(s: System, step: Step)
    requires Showing(s) && Enabled(s, step)
    requires step.TaskCommits? || step.TaskPublishes? || step.TaskReconnects? || step.TaskGivesUp? || step.TaskEnds?
    ensures SessionShown(Apply(s, step).c, Apply(s, step).tasks)
  {
  }

  lemma OtherStepShows(s: System, step: Step)
    requires Showing(s) && Enabled(s, step)
    requires step.Select? || step.ClientGone? || step.BeginStop? || step.FinishStop?
    ensures SessionShown(Apply(s, step).c, Apply(s, step).tasks)
  {
    var c := Apply(s, step).c;
    LetGoShows(s, c);
    match step
    case Select(target, _, _) => assert LetGo(s.(c := s.c.(requested := target, desired := target, state := Switching))).tasks == LetGo(s).tasks;
    case BeginStop => assert LetGo(s.(c := s.c.(stopping := true))).tasks == LetGo(s).tasks;
    case FinishStop => NoneCaptures(s, c);
    case _ =>
  }

  lemma StepShows(s: System, step: Step)
    requires Showing(s) && Enabled(s, step)
    ensures Showing(Apply(s, step))
  {
    StepKeeps(s, step);
    if step.Select? || step.ClientGone? || step.BeginStop? || step.FinishStop? {
      OtherStepShows(s, step);
    } else if step.TaskCommits? || step.TaskPublishes? || step.TaskReconnects? || step.TaskGivesUp? || step.TaskEnds? {
      TaskStepShows(s, step);
    } else {
      CallStepShows(s, step);
    }
  }

  lemma ReachableShows(s: System)
    requires Reachable(s)
    ensures Showing(s)
  {
    var p :| Follows(Next, Started(p), s);
    forall m, r | Showing(m) && Next(m, r) ensures Showing(r) {
      var step :| Enabled(m, step) && r == Apply(m, step);
      StepShows(m, step);
    }
    FollowsKeeps(Next, Showing, Started(p), s);
  }

  /** In every reachable state a frame that the session's supervisor hands over is published
      exactly if the profile allows its bytes: it is then the latest one, the next in
      sequence, under the current generation. A larger one changes nothing. */
  lemma FrameIsPublishedExactly(s: System, id: nat, image: Image)
    requires Reachable(s) && Enabled(s, TaskPublishes(id, image))
    ensures var r := Apply(s, TaskPublishes(id, image));
      if image.bytes <= s.tasks[id].profile.maxFrameBytes then
        && r.c.latest.Some? && r.c.latest.value.image == image && r.c.sequence == s.c.sequence + 1
        && r.c.latest.value.sequence == r.c.sequence && r.c.latest.value.generation == s.c.generation
        && r.c.generation == s.c.generation && r.c.active == s.c.active && r.commits == s.commits
      else r == s
  {
    ReachableShows(s);
  }

  /** A supervisor's first good frame starts a session that is ready: the profile is active,
      the frame is the latest one, and whoever waits for the supervisor is told. */
  lemma CommitIsVisible(s: System, id: nat, m: Mode, image: Image)
    requires Reachable(s) && Enabled(s, TaskCommits(id, m, image))
    ensures var r := Apply(s, TaskCommits(id, m, image));
      && r.c.active == Some(s.tasks[id].profile) && r.c.negotiated == Some(m) && r.c.state == s.tasks[id].success
      && r.c.latest.Some? && r.c.latest.value.image == image && r.c.generation == s.c.generation + 1
      && (s.tasks[id].ready.Pending? ==> r.tasks[id].ready.Resolved?)
      && (s.tasks[id].success.Ready? || s.tasks[id].success.RolledBack? ==> Live(r.c, true))
  {
  }

  // ----- A switch can succeed -----

  lemma Onward(s: System, m: System, step: Step) returns (r: System)
    requires Reachable(s) && Reachable(m) && Follows(Next, s, m) && Enabled(m, step)
    ensures r == Apply(m, step) && Follows(Next, s, r) && Reachable(r)
  {
    r := Apply(m, step);
    FollowsOne(Next, m, r);
    FollowsOn(Next, s, m, r);
    var p :| Follows(Next, Started(p), s);
    FollowsOn(Next, Started(p), s, r);
  }

  /** Whoever was let go comes to its end. */
  lemma LetGoEnds(s: System, m: System) returns (r: System)
    requires Reachable(s) && Reachable(m) && Follows(Next, s, m) && m.call.Some?
    requires m.call.value.point.BeforeFirst? || m.call.value.point.BeforeRollback?
    requires AwaitsEnd(m.call.value.point).Some? ==>
      AwaitsEnd(m.call.value.point).value < |m.tasks| && !m.tasks[AwaitsEnd(m.call.value.point).value].status.Running?
    ensures Follows(Next, s, r) && Reachable(r) && Finished(r, AwaitsEnd(m.call.value.point))
    ensures r == m.(tasks := r.tasks) && |r.tasks| == |m.tasks|
  {
    var of := AwaitsEnd(m.call.value.point);
    r := m;
    if of.Some? && m.tasks[of.value].status.Dying? {
      r := Onward(s, m, TaskEnds(of.value));
    }
  }

  /** The mode that the camera negotiates and its first frame are those of the profile. */
  predicate Delivers(p: Profile, m: Mode, image: Image) {
    Verified(p, m) && Video.Shows(image, p) && image.bytes <= p.maxFrameBytes
  }

  lemma NewTaskCommits(s: System, m: System, id: nat, mode: Mode, image: Image) returns (r: System)
    requires Reachable(s) && Reachable(m) && Follows(Next, s, m) && id < |m.tasks| && Delivers(m.tasks[id].profile, mode, image)
    requires m.tasks[id].status.Running? && !m.tasks[id].idle && !m.tasks[id].session && m.tasks[id].ready.Pending?
    ensures Follows(Next, s, r) && Reachable(r) && r.call == m.call && r.c.task == m.c.task && r.outcomes == m.outcomes
    ensures |r.tasks| == |m.tasks| && r.tasks[id].ready.Resolved?
    ensures r.c == Committed(m.c, m.tasks[id].profile, mode, image, m.tasks[id].success)
  {
    r := Onward(s, m, TaskCommits(id, mode, image));
  }

  lemma SelectLetsGo(s: System, target: Profile) returns (m: System)
    requires Reachable(s) && s.call.None?
    ensures Follows(Next, s, m) && Reachable(m) && m.call.Some? && m.call.value.target == target
    ensures m.call.value.point == BeforeFirst(s.c.task) && m.c.stopping == s.c.stopping && m.outcomes == s.outcomes
    ensures s.c.task.Some? ==> s.c.task.value < |m.tasks| && !m.tasks[s.c.task.value].status.Running?
    ensures m.call.value.previous == if s.c.active.Some? then s.c.active.value else s.c.desired
  {
    ReachableInv(s);
    assert Leads(Next, s, s, 0);
    m := Onward(s, s, Select(target, s.c.generation, false));
    LetGoKeeps(s.(c := s.c.(requested := target, desired := target, state := Switching)));
  }

  /** A switch can succeed: from every reachable state without a call before the stop, the
      selection lets the old supervisor go, starts one for the target, and returns with the
      target active, ready, and its first frame published. */
  lemma SwitchCanSucceed(s: System, target: Profile, mode: Mode, image: Image) returns (r: System)
    requires Reachable(s) && s.call.None? && !s.c.stopping && Delivers(target, mode, image)
    ensures Follows(Next, s, r) && r.call.None? && |r.outcomes| == |s.outcomes| + 1
    ensures r.outcomes[|s.outcomes|].result == Switched && r.outcomes[|s.outcomes|].target == target
    ensures r.c.active == Some(target) && r.c.state == Ready && r.c.latest.Some? && r.c.latest.value.image == image
  {
    var m := SelectLetsGo(s, target);
    var e := LetGoEnds(s, m);
    var h := Onward(s, e, StartFirst);
    var t := NewTaskCommits(s, h, |e.tasks|, mode, image);
    r := Onward(s, t, FirstReady);
  }

  lemma FailureLetsGo(s: System) returns (m: System)
    requires Reachable(s) && Enabled(s, FirstFails)
    ensures Follows(Next, s, m) && Reachable(m) && m.call.Some? && m.call.value.point == BeforeRollback(s.c.task)
    ensures m.call.value == s.call.value.(point := BeforeRollback(s.c.task)) && m.c.stopping == s.c.stopping && m.outcomes == s.outcomes
    ensures s.c.task.Some? ==> s.c.task.value < |m.tasks| && !m.tasks[s.c.task.value].status.Running?
  {
    ReachableInv(s);
    assert Leads(Next, s, s, 0);
    m := Onward(s, s, FirstFails);
    WaivedKeeps(s, s.call.value.point.id);
    LetGoKeeps(Waived(s, s.call.value.point.id));
  }

  /** A failed switch can roll back: from every reachable state before the stop in which the
      wait for the target fails, the previous profile is started again and the call reports
      the rollback with that profile active. */
  lemma RollbackCanSucceed(s: System, mode: Mode, image: Image) returns (r: System)
    requires Reachable(s) && Enabled(s, FirstFails) && !s.c.stopping && Delivers(s.call.value.previous, mode, image)
    ensures Follows(Next, s, r) && r.call.None? && |r.outcomes| == |s.outcomes| + 1
    ensures r.outcomes[|s.outcomes|].result == FailedBack(true)
    ensures r.c.active == Some(s.call.value.previous) && r.c.state == RolledBack
    ensures r.c.requested == s.call.value.target && r.c.latest.Some? && r.c.latest.value.image == image
  {
    var m := FailureLetsGo(s);
    var e := LetGoEnds(s, m);
    var h := Onward(s, e, StartRollback);
    var t := NewTaskCommits(s, h, |e.tasks|, mode, image);
    r := Onward(s, t, RollbackReady);
  }

  // ----- What ends a session -----

  predicate NothingShown(c: Capture) { c.latest.None? && c.active.None? && c.negotiated.None? }

  /** Whatever ends the session in progress also ends what is published of it. */
  lemma EndingsClear(s: System, step: Step)
    requires Enabled(s, step)
    requires step.StartFirst? || step.StartRollback? || step.TaskReconnects? || step.TaskGivesUp? || step.Leave?
      || step.ReportFailure? || step.FinishStop?
    ensures NothingShown(Apply(s, step).c)
    ensures step.TaskReconnects? ==> Apply(s, step).c.state == Reconnecting && IsRunning(Apply(s, step), step.id)
    ensures step.FinishStop? ==> Apply(s, step).c.state == Stopped
  {
  }

  /** A supervisor that gives up is seen by whoever waits for it, and the next move is open. */
  lemma GivingUpIsSeen(s: System, id: nat)
    requires Reachable(s) && Enabled(s, TaskGivesUp(id)) && s.tasks[id].ready.Pending? && s.call.Some?
    ensures var r := Apply(s, TaskGivesUp(id));
      && r.tasks[id].ready.Broken? && r.tasks[id].status.Over? && r.c.state == Degraded
      && (s.call.value.point == AwaitingFirst(id) ==> Enabled(r, FirstFails) && !Enabled(r, FirstReady))
      && (s.call.value.point == AwaitingRollback(id) ==> Enabled(r, RollbackFails) && !Enabled(r, RollbackReady))
  {
  }

  /** Selecting the profile that is live interrupts nothing. */
  lemma LiveProfileStays(s: System, target: Profile)
    requires s.call.None? && Live(s.c, true) && s.c.active.Some? && s.c.active.value.id == target.id
    ensures var r := Apply(s, Select(target, s.c.generation, true));
      && r.tasks == s.tasks && r.commits == s.commits && r.call.None? && r.c.latest == s.c.latest && r.c.active == s.c.active
      && r.c.task == s.c.task && r.c.requested == target && |r.outcomes| == |s.outcomes| + 1
      && r.outcomes[|s.outcomes|].result == AlreadyLive
  {
  }

  /** Once the stop has come to its end nothing is published any more. */
  lemma StopShowsNothing(s: System, r: System)
    requires Reachable(s) && Enabled(s, FinishStop) && Follows(Next, Apply(s, FinishStop), r)
    ensures r.c.latest.None?
  {
    ReachableInv(s);
    var e := Apply(s, FinishStop);
    StepKeeps(s, FinishStop);
    forall m: System, t: System | StoppedAt(m, e.commits, e.c.sequence) && m.c.latest.None? && Next(m, t)
      ensures StoppedAt(t, e.commits, e.c.sequence) && t.c.latest.None?
    {
      var step :| Enabled(m, step) && t == Apply(m, step);
      StoppedStays(m, step, e.commits, e.c.sequence);
      LetGoChangesTasksOnly(m);
      StillNothing(m, step);
    }
    FollowsKeeps(Next, (t: System) => StoppedAt(t, e.commits, e.c.sequence) && t.c.latest.None?, e, r);
  }

  lemma StillNothing(m: System, step: Step)
    requires Whole(m) && m.c.stopping && m.c.latest.None? && Enabled(m, step)
    ensures Apply(m, step).c.latest.None?
  {
    LetGoKeeps(m);
    if m.call.Some? && (step.FirstFails? || step.RollbackFails? || step.SeeStop?) {
      WaivedKeeps(m, m.call.value.point.id);
      LetGoKeeps(Waived(m, m.call.value.point.id));
    }
  }
}
