/** The mode switch is transactional: what every step keeps, and what it gives. */
module VideoTheorems {
  import opened Options
  import opened Video
  import opened Runs

  // ----- Invariant -----

  /** What is published is of the current generation and has the active profile's size. */
  ghost predicate FrameOk(c: Capture) {
    && (c.active.Some? <==> c.negotiated.Some?)
    && (c.active.Some? ==> Verified(c.active.value, c.negotiated.value))
    && (c.latest.Some? ==>
          && c.active.Some? && c.latest.value.generation == c.generation && c.latest.value.sequence <= c.sequence
          && c.latest.value.width == c.active.value.width && c.latest.value.height == c.active.value.height
          && Shows(c.latest.value.image, c.active.value) && c.latest.value.image.bytes <= c.active.value.maxFrameBytes)
  }

  /** Each generation is one committed session, the active one the last. */
  ghost predicate CommitsOk(c: Capture, commits: seq<Profile>) {
    && |commits| == c.generation
    && (c.active.Some? ==> c.generation > 0 && commits[c.generation - 1] == c.active.value)
  }

  ghost predicate LastIs(commits: seq<Profile>, p: Profile) {
    |commits| > 0 && commits[|commits| - 1] == p
  }

  /** Only the supervisor pointed to runs, and once the stop has begun it never captures. */
  ghost predicate TasksOk(task: Option<nat>, tasks: seq<Task>, stopping: bool) {
    && (task.Some? ==> task.value < |tasks| && !tasks[task.value].status.Dying?)
    && (forall id :: 0 <= id < |tasks| && tasks[id].status.Running? ==> task == Some(id) && (stopping ==> tasks[id].idle))
  }

  /** Until the stop begins, whoever let a supervisor go still waits for its end. */
  ghost predicate DyingAwaited(tasks: seq<Task>, call: Option<Call>, stopping: bool) {
    forall id :: 0 <= id < |tasks| && tasks[id].status.Dying? && !stopping ==>
      call.Some? && AwaitsEnd(call.value.point) == Some(id)
  }

  /** Only the awaited supervisor commits, so its session is the last one. */
  ghost predicate AwaitOk(id: nat, p: Profile, startAt: nat, task: Option<nat>, tasks: seq<Task>, commits: seq<Profile>) {
    && id < |tasks| && tasks[id].profile == p
    && (task.None? || task == Some(id))
    && (tasks[id].ready.Resolved? ==> |commits| > startAt && LastIs(commits, p))
  }

  /** What was live when a call began is the last session committed before it. */
  ghost predicate WasLive(live: bool, previous: Profile, startAt: nat, commits: seq<Profile>) {
    live ==> 0 < startAt <= |commits| && commits[startAt - 1] == previous
  }

  /** The target stays the visible request; the wanted profile is the target until a
      rollback starts, and then the previous one. */
  ghost predicate WantsOk(call: Option<Call>, desired: Profile, requested: Profile) {
    call.Some? ==>
      && requested == call.value.target
      && (call.value.point.BeforeFirst? || call.value.point.AwaitingFirst? || call.value.point.BeforeRollback? ==>
            desired == call.value.target)
      && (call.value.point.AwaitingRollback? || call.value.point.Failing? ==> desired == call.value.previous)
  }

  ghost predicate CallOk(call: Option<Call>, task: Option<nat>, tasks: seq<Task>, commits: seq<Profile>) {
    call.Some? ==>
      var k := call.value;
      && k.startAt <= |commits| && WasLive(k.live, k.previous, k.startAt, commits)
      && match k.point
         case AwaitingFirst(id) => AwaitOk(id, k.target, k.startAt, task, tasks, commits)
         case AwaitingRollback(id) => AwaitOk(id, k.previous, k.startAt, task, tasks, commits)
         case _ => task.None?
  }

  ghost predicate OutcomeOk(o: Outcome, commits: seq<Profile>) {
    && o.startAt <= o.endAt <= |commits| && WasLive(o.live, o.previous, o.startAt, commits)
    && match o.result
       case AlreadyLive => 0 < o.startAt && commits[o.startAt - 1].id == o.target.id
       case Switched => o.startAt < o.endAt && commits[o.endAt - 1] == o.target
       case FailedBack(true) => o.startAt < o.endAt && commits[o.endAt - 1] == o.previous
       case _ => true
  }

  ghost predicate OutcomesOk(outcomes: seq<Outcome>, commits: seq<Profile>) {
    forall i :: 0 <= i < |outcomes| ==> OutcomeOk(outcomes[i], commits)
  }

  ghost predicate Inv(s: System) {
    && FrameOk(s.c)
    && CommitsOk(s.c, s.commits)
    && TasksOk(s.c.task, s.tasks, s.c.stopping)
    && DyingAwaited(s.tasks, s.call, s.c.stopping)
    && CallOk(s.call, s.c.task, s.tasks, s.commits)
    && WantsOk(s.call, s.c.desired, s.c.requested)
    && OutcomesOk(s.outcomes, s.commits)
  }

  // ----- Steps -----

  lemma OutcomesStay(outcomes: seq<Outcome>, commits: seq<Profile>, p: Profile)
    requires OutcomesOk(outcomes, commits)
    ensures OutcomesOk(outcomes, commits + [p])
  {
    forall i | 0 <= i < |outcomes| ensures OutcomeOk(outcomes[i], commits + [p]) {
      assert OutcomeOk(outcomes[i], commits);
    }
  }

  lemma LetGoKeeps(s: System)
    requires TasksOk(s.c.task, s.tasks, s.c.stopping)
    ensures var r := LetGo(s);
      && r == s.(c := r.c, tasks := r.tasks) && r.c == s.c.(task := None) && |r.tasks| == |s.tasks|
      && TasksOk(r.c.task, r.tasks, r.c.stopping)
      && (forall id :: 0 <= id < |s.tasks| ==> !r.tasks[id].status.Running? && r.tasks[id] == s.tasks[id].(status := r.tasks[id].status))
      && (forall id :: 0 <= id < |s.tasks| && r.tasks[id].status.Dying? ==> s.tasks[id].status.Dying? || s.c.task == Some(id))
  {
  }

  lemma WaivedKeeps(s: System, id: nat)
    requires Inv(s)
    ensures Inv(Waived(s, id)) && Waived(s, id).c == s.c && Waived(s, id).call == s.call
  {
  }

  lemma HireKeeps(s: System, p: Profile, success: CaptureState)
    requires TasksOk(s.c.task, s.tasks, s.c.stopping) && s.c.task.None?
    ensures TasksOk(Hire(s, p, success).c.task, Hire(s, p, success).tasks, s.c.stopping)
  {
    var r := Hire(s, p, success);
    assert forall id :: 0 <= id < |s.tasks| ==> r.tasks[id] == s.tasks[id];
  }

  lemma SelectKeeps(s: System, target: Profile, expected: nat, recent: bool)
    requires Inv(s) && Enabled(s, Select(target, expected, recent))
    ensures Inv(Apply(s, Select(target, expected, recent)))
  {
    if !(Live(s.c, recent) && s.c.active.Some? && s.c.active.value.id == target.id) {
      LetGoKeeps(s.(c := s.c.(requested := target, desired := target, state := Switching)));
    }
  }

  /** Nobody is still ending when the next supervisor is started. */
  lemma NobodyEnds(s: System)
    requires DyingAwaited(s.tasks, s.call, s.c.stopping) && s.call.Some? && Finished(s, AwaitsEnd(s.call.value.point))
    ensures forall id :: 0 <= id < |s.tasks| && s.tasks[id].status.Dying? ==> s.c.stopping
  {
  }

  lemma StartKeeps(s: System, step: Step)
    requires Inv(s) && Enabled(s, step) && (step.StartFirst? || step.StartRollback?)
    ensures Inv(Apply(s, step))
  {
    NobodyEnds(s);
    if step.StartFirst? {
      HireKeeps(s.(c := Invalidated(s.c, Switching)), s.call.value.target, Ready);
    } else {
      HireKeeps(s.(c := Invalidated(s.c.(desired := s.call.value.previous), Switching)), s.call.value.previous, RolledBack);
    }
  }

  lemma EndKeeps(s: System, result: Ending)
    requires Inv(s) && s.call.Some? && Finished(s, AwaitsEnd(s.call.value.point))
    requires result.Switched? ==> |s.commits| > s.call.value.startAt && LastIs(s.commits, s.call.value.target)
    requires result == FailedBack(true) ==> |s.commits| > s.call.value.startAt && LastIs(s.commits, s.call.value.previous)
    requires !result.AlreadyLive?
    ensures Inv(Ended(s, result))
  {
    NobodyEnds(s);
  }

  lemma InvalidKeeps(s: System, state: CaptureState)
    requires Inv(s)
    ensures Inv(s.(c := Invalidated(s.c, state)))
  {
  }

  lemma ReadyKeeps(s: System, step: Step)
    requires Inv(s) && Enabled(s, step) && (step.FirstReady? || step.RollbackReady?)
    ensures Inv(Apply(s, step))
  {
    if step.FirstReady? {
      EndKeeps(s, Switched);
    } else {
      EndKeeps(s.(c := s.c.(requested := s.call.value.target)), FailedBack(true));
    }
  }

  /** The awaited supervisor is let go and its end is waited for. */
  lemma LetGoAndWait(s: System, point: Point)
    requires Inv(s) && s.call.Some? && (s.call.value.point.AwaitingFirst? || s.call.value.point.AwaitingRollback?)
    requires AwaitsEnd(point) == s.c.task
    requires match point
      case BeforeRollback(_) => s.call.value.point.AwaitingFirst?
      case Failing(_) => s.call.value.point.AwaitingRollback?
      case Leaving(_, _) => true
      case _ => false
    ensures Inv(AtPoint(LetGo(s), point))
  {
    LetGoKeeps(s);
  }

  lemma FailKeeps(s: System, step: Step)
    requires Inv(s) && Enabled(s, step) && (step.FirstFails? || step.RollbackFails? || step.SeeStop?)
    ensures Inv(Apply(s, step))
  {
    var w := Waived(s, s.call.value.point.id);
    WaivedKeeps(s, s.call.value.point.id);
    LetGoAndWait(w, Apply(s, step).call.value.point);
  }

  lemma GoneKeeps(s: System)
    requires Inv(s) && Enabled(s, ClientGone)
    ensures Inv(Apply(s, ClientGone))
  {
    if s.call.value.point.AwaitingFirst? || s.call.value.point.AwaitingRollback? {
      LetGoAndWait(s, Leaving(s.c.task, Cancelled));
    }
  }

  lemma LeaveKeeps(s: System, step: Step)
    requires Inv(s) && Enabled(s, step) && (step.ReportFailure? || step.Leave?) && LeavingOk(s.call)
    ensures Inv(Apply(s, step))
  {
    var state := if step.ReportFailure? then Degraded
      else if s.call.value.point.result.Unavailable? || s.c.stopping then Stopped else Degraded;
    InvalidKeeps(s, state);
    EndKeeps(s.(c := Invalidated(s.c, state)), if step.ReportFailure? then FailedBack(false) else s.call.value.point.result);
  }

  lemma StopKeeps(s: System)
    requires Inv(s)
    ensures Inv(Apply(s, BeginStop))
  {
    var t := s.(c := s.c.(stopping := true));
    LetGoKeeps(s);
    assert LetGo(t).tasks == LetGo(s).tasks;
  }

  /** Only a stop or a vanished client makes the call leave early. */
  ghost predicate LeavingOk(call: Option<Call>) {
    call.Some? && call.value.point.Leaving? ==>
      call.value.point.result.Unavailable? || call.value.point.result.Cancelled?
  }

  lemma TaskStepKeeps(s: System, step: Step)
    requires Inv(s) && Enabled(s, step)
    requires step.TaskPublishes? || step.TaskReconnects? || step.TaskGivesUp? || step.TaskEnds?
    ensures Inv(Apply(s, step))
  {
  }

  lemma CommitKeeps(s: System, id: nat, m: Mode, image: Image)
    requires Inv(s) && Enabled(s, TaskCommits(id, m, image))
    ensures Inv(Apply(s, TaskCommits(id, m, image)))
  {
    OutcomesStay(s.outcomes, s.commits, s.tasks[id].profile);
  }

  ghost predicate Whole(s: System) { Inv(s) && LeavingOk(s.call) }

  lemma StepKeeps(s: System, step: Step)
    requires Whole(s) && Enabled(s, step)
    ensures Whole(Apply(s, step))
  {
    match step
    case Select(target, expected, recent) => SelectKeeps(s, target, expected, recent);
    case StartFirst => StartKeeps(s, step);
    case StartRollback => StartKeeps(s, step);
    case FirstReady => ReadyKeeps(s, step);
    case RollbackReady => ReadyKeeps(s, step);
    case TaskCommits(id, m, image) => CommitKeeps(s, id, m, image);
    case TaskPublishes(_, _) => TaskStepKeeps(s, step);
    case TaskReconnects(_) => TaskStepKeeps(s, step);
    case TaskGivesUp(_) => TaskStepKeeps(s, step);
    case TaskEnds(_) => TaskStepKeeps(s, step);
    case ReportFailure => LeaveKeeps(s, step);
    case Leave => LeaveKeeps(s, step);
    case ClientGone => GoneKeeps(s);
    case Drop => EndKeeps(s, Cancelled);
    case BeginStop => StopKeeps(s);
    case FinishStop => InvalidKeeps(s, Stopped);
    case _ => FailKeeps(s, step);
  }

  // ----- Runs -----

  ghost predicate Next(s: System, r: System) {
    exists step :: Enabled(s, step) && r == Apply(s, step)
  }

  ghost predicate Reachable(s: System) {
    exists p :: Follows(Next, Started(p), s)
  }

  lemma EveryStepKeeps()
    ensures Inductive(Next, Whole)
  {
    forall s, r | Whole(s) && Next(s, r) ensures Whole(r) {
      var step :| Enabled(s, step) && r == Apply(s, step);
      StepKeeps(s, step);
    }
  }

  lemma ReachableInv(s: System)
    requires Reachable(s)
    ensures Whole(s)
  {
    var p :| Follows(Next, Started(p), s);
    EveryStepKeeps();
    FollowsKeeps(Next, Whole, Started(p), s);
  }

  /** A published frame is of the current generation, the image, the snapshot and the
      negotiated mode all have the active profile's size, and the profile allows its bytes. */
  lemma FramesAreCurrent(s: System)
    requires Reachable(s) && s.c.latest.Some?
    ensures s.c.active.Some? && s.c.negotiated.Some? && Verified(s.c.active.value, s.c.negotiated.value)
    ensures s.c.latest.value.generation == s.c.generation == |s.commits| > 0
    ensures s.commits[s.c.generation - 1] == s.c.active.value
    ensures Shows(s.c.latest.value.image, s.c.active.value)
    ensures s.c.latest.value.image.bytes <= s.c.active.value.maxFrameBytes
    ensures s.c.latest.value.width == s.c.negotiated.value.width && s.c.latest.value.height == s.c.negotiated.value.height
  {
    ReachableInv(s);
  }

  predicate Lives(s: System, id: nat) { id < |s.tasks| && !s.tasks[id].status.Over? }

  /** Until the stop begins at most one capture supervisor exists, counting one that was
      let go and is still ending, and whenever a call starts one every other is over. At
      no time do two run. */
  lemma OneSupervisor(s: System)
    requires Reachable(s)
    ensures !s.c.stopping ==> forall a: nat, b: nat :: Lives(s, a) && Lives(s, b) ==> a == b
    ensures !s.c.stopping && (Enabled(s, StartFirst) || Enabled(s, StartRollback)) ==>
      s.c.task.None? && forall id: nat :: !Lives(s, id)
    ensures forall a: nat, b: nat :: IsRunning(s, a) && IsRunning(s, b) ==> a == b
  {
    ReachableInv(s);
  }

  /** The stop has begun, and so many sessions and frames have been. */
  ghost predicate StoppedAt(s: System, commits: seq<Profile>, sequence: nat) {
    Whole(s) && s.c.stopping && s.commits == commits && s.c.sequence == sequence
  }

  lemma StoppedStays(s: System, step: Step, commits: seq<Profile>, sequence: nat)
    requires StoppedAt(s, commits, sequence) && Enabled(s, step)
    ensures StoppedAt(Apply(s, step), commits, sequence)
  {
    StepKeeps(s, step);
    LetGoKeeps(s);
    if s.call.Some? && (step.FirstFails? || step.RollbackFails? || step.SeeStop?) {
      var w := Waived(s, s.call.value.point.id);
      WaivedKeeps(s, s.call.value.point.id);
      LetGoKeeps(w);
    }
  }

  /** Once the stop has begun, no supervisor that a call may still start captures anything:
      no session is committed and no frame published any more, over any run. */
  lemma StopIsFinal(s: System, r: System)
    requires Reachable(s) && s.c.stopping && Follows(Next, s, r)
    ensures r.c.stopping && r.commits == s.commits && r.c.sequence == s.c.sequence
    ensures forall id: nat :: !Captures(r, id)
  {
    ReachableInv(s);
    var sequence := s.c.sequence;
    forall m, t | StoppedAt(m, s.commits, sequence) && Next(m, t) ensures StoppedAt(t, s.commits, sequence) {
      var step :| Enabled(m, step) && t == Apply(m, step);
      StoppedStays(m, step, s.commits, sequence);
    }
    FollowsKeeps(Next, t => StoppedAt(t, s.commits, sequence), s, r);
  }

  ghost predicate Later(s: System, r: System) {
    s.commits <= r.commits && r.c.generation - s.c.generation == |r.commits| - |s.commits| && s.outcomes <= r.outcomes
  }

  lemma LetGoChangesTasksOnly(s: System)
    ensures LetGo(s).commits == s.commits && LetGo(s).outcomes == s.outcomes && LetGo(s).c.generation == s.c.generation
  {
  }

  lemma StepIsLater(s: System, step: Step)
    requires Enabled(s, step)
    ensures Later(s, Apply(s, step))
  {
    LetGoChangesTasksOnly(s);
    if s.call.Some? && (step.FirstFails? || step.RollbackFails? || step.SeeStop?) {
      LetGoChangesTasksOnly(Waived(s, s.call.value.point.id));
    }
  }

  /** Over any run generations only grow, one for each session committed. */
  lemma GenerationsGrow(s: System, r: System)
    requires Follows(Next, s, r)
    ensures Later(s, r)
  {
    forall m, t | Later(s, m) && Next(m, t) ensures Later(s, t) {
      var step :| Enabled(m, step) && t == Apply(m, step);
      StepIsLater(m, step);
    }
    FollowsKeeps(Next, t => Later(s, t), s, r);
  }

  /** How `select_mode` ends is what happened: it returns only if the profile was already
      live or the last session, committed during the call, has it; it reports a rollback
      only if the last session, committed during the call, has the previous profile, which
      is the profile of the last session before the call if that was live. */
  lemma OutcomesAreTrue(s: System, i: nat)
    requires Reachable(s) && i < |s.outcomes|
    ensures OutcomeOk(s.outcomes[i], s.commits)
  {
    ReachableInv(s);
  }

  /** A reported rollback leaves the previous profile wanted and the failed request visible. */
  lemma RollbackKeepsTheRequestVisible(s: System)
    requires Reachable(s) && Enabled(s, RollbackReady)
    ensures var r := Apply(s, RollbackReady);
      r.c.desired == s.call.value.previous && r.c.requested == s.call.value.target && LastIs(s.commits, r.c.desired)
      && r.outcomes[|r.outcomes| - 1].result == FailedBack(true)
      && WasLive(s.call.value.live, r.c.desired, s.call.value.startAt, s.commits)
  {
    ReachableInv(s);
  }

  /** When the rollback failed too, nothing runs and nothing is published. */
  lemma FailureLeavesNothing(s: System)
    requires Reachable(s) && Enabled(s, ReportFailure)
    ensures var r := Apply(s, ReportFailure);
      r.outcomes[|r.outcomes| - 1].result == FailedBack(false)
      && r.c.task.None? && r.c.latest.None? && r.c.state == Degraded
      && forall id :: 0 <= id < |r.tasks| ==> !r.tasks[id].status.Running?
  {
    ReachableInv(s);
  }
}
