/** Capture sessions and the transactional mode switch (gateway/noob_gateway/video.py,
    `V4L2Capture`): the object's own updates, and the switch as a transition system
    whose steps run from one suspension point to the next. */
module Video {
  import opened Options

  datatype Profile = Profile(id: nat, width: nat, height: nat, fps: int, format: string, maxFrameBytes: nat)

  datatype Mode = Mode(width: nat, height: nat, fps: real, format: string)

  datatype Image = Image(bytes: nat, width: nat, height: nat)

  datatype Snapshot = Snapshot(image: Image, sequence: nat, generation: nat, width: nat, height: nat)

  datatype CaptureState = Starting | Ready | Switching | RolledBack | Reconnecting | Degraded | Stopped

  /** The fields of the capture object; `task` is the supervisor it points to. */
  datatype Capture = Capture(
    generation: nat, sequence: nat, active: Option<Profile>, negotiated: Option<Mode>, latest: Option<Snapshot>,
    state: CaptureState, desired: Profile, requested: Profile, stopping: bool, task: Option<nat>)

  /** `_verify_negotiated`. */
  predicate Verified(p: Profile, m: Mode) {
    && m.width == p.width && m.height == p.height && m.format == p.format
    && -0.01 <= m.fps - p.fps as real <= 0.01
  }

  predicate Shows(image: Image, p: Profile) { image.width == p.width && image.height == p.height }

  function Committed(c: Capture, p: Profile, m: Mode, image: Image, success: CaptureState): Capture {
    c.(generation := c.generation + 1, sequence := c.sequence + 1, active := Some(p), negotiated := Some(m),
       latest := Some(Snapshot(image, c.sequence + 1, c.generation + 1, m.width, m.height)), state := success)
  }

  function Shown(c: Capture, p: Profile, image: Image): Capture {
    if image.bytes > p.maxFrameBytes || c.active != Some(p) || c.negotiated.None? then c
    else c.(sequence := c.sequence + 1,
            latest := Some(Snapshot(image, c.sequence + 1, c.generation, c.negotiated.value.width, c.negotiated.value.height)))
  }

  function Invalidated(c: Capture, state: CaptureState): Capture {
    c.(latest := None, active := None, negotiated := None, state := state)
  }

  predicate Live(c: Capture, recent: bool) {
    (c.state.Ready? || c.state.RolledBack?) && c.latest.Some? && c.latest.value.generation == c.generation && recent
  }

  class V4L2Capture {
    var generation: nat
    var sequence: nat
    var activeProfile: Option<Profile>
    var negotiated: Option<Mode>
    var latestFrame: Option<Snapshot>
    var state: CaptureState
    var desiredProfile: Profile
    var requestedProfile: Profile
    var stopping: bool
    var task: Option<nat>

    ghost function Model(): Capture
      reads this
    {
      Capture(generation, sequence, activeProfile, negotiated, latestFrame, state, desiredProfile, requestedProfile, stopping, task)
    }

    constructor (p: Profile)
      ensures Model() == Capture(0, 0, None, None, None, Stopped, p, p, false, None)
    {
      generation, sequence := 0, 0;
      activeProfile, negotiated, latestFrame := None, None, None;
      state, stopping, task := Stopped, false, None;
      desiredProfile, requestedProfile := p, p;
    }

    method CommitSession(p: Profile, m: Mode, image: Image, success: CaptureState)
      modifies this
      ensures Model() == Committed(old(Model()), p, m, image, success)
    {
      generation := generation + 1;
      sequence := sequence + 1;
      activeProfile := Some(p);
      negotiated := Some(m);
      latestFrame := Some(Snapshot(image, sequence, generation, m.width, m.height));
      state := success;
    }

    method Publish(p: Profile, image: Image)
      modifies this
      ensures Model() == Shown(old(Model()), p, image)
    {
      if image.bytes > p.maxFrameBytes {
        return;
      }
      if activeProfile != Some(p) || negotiated.None? {
        return;
      }
      sequence := sequence + 1;
      latestFrame := Some(Snapshot(image, sequence, generation, negotiated.value.width, negotiated.value.height));
    }

    method InvalidateFrames(next: CaptureState)
      modifies this
      ensures Model() == Invalidated(old(Model()), next)
    {
      latestFrame := None;
      activeProfile := None;
      negotiated := None;
      state := next;
    }
  }

  // ----- The switch -----

  /** A supervisor's future that the caller waits on, if any. */
  datatype Future = NoFuture | Pending | Resolved | Broken | Dropped

  datatype Status = Running | Dying | Over

  /** `idle` if the stop had begun when it was started: its loop ends before it begins. */
  datatype Task = Task(profile: Profile, success: CaptureState, ready: Future, session: bool, status: Status, idle: bool)

  /** Where `select_mode` stands; `of` is the cancelled supervisor it waits for. A client
      that goes away during such a wait ends the call only when the wait does. */
  datatype Point =
    | BeforeFirst(of: Option<nat>)
    | AwaitingFirst(id: nat)
    | BeforeRollback(of: Option<nat>)
    | AwaitingRollback(id: nat)
    | Failing(of: Option<nat>)
    | Leaving(of: Option<nat>, result: Ending)
    | Dropping(of: Option<nat>)

  /** The supervisor let go that the call waits for. */
  function AwaitsEnd(point: Point): Option<nat> {
    match point
    case AwaitingFirst(_) => None
    case AwaitingRollback(_) => None
    case BeforeFirst(of) => of
    case BeforeRollback(of) => of
    case Failing(of) => of
    case Leaving(of, _) => of
    case Dropping(of) => of
  }

  datatype Ending = AlreadyLive | Switched | FailedBack(rolledBack: bool) | Unavailable | Cancelled

  /** `startAt` notes how many sessions had been committed, `live` whether the last one was active. */
  datatype Call = Call(target: Profile, previous: Profile, startAt: nat, live: bool, point: Point)

  datatype Outcome = Outcome(
    result: Ending, target: Profile, previous: Profile, startAt: nat, live: bool, endAt: nat)

  /** `commits` lists the profiles of all committed sessions, `outcomes` how calls ended. */
  datatype System = System(c: Capture, tasks: seq<Task>, call: Option<Call>, commits: seq<Profile>, outcomes: seq<Outcome>)

  datatype Step =
    | Select(target: Profile, expected: nat, recent: bool)
    | StartFirst
    | FirstReady
    | FirstFails
    | StartRollback
    | RollbackReady
    | RollbackFails
    | ReportFailure
    | SeeStop
    | ClientGone
    | Leave
    | Drop
    | TaskCommits(id: nat, m: Mode, image: Image)
    | TaskPublishes(id: nat, image: Image)
    | TaskReconnects(id: nat)
    | TaskGivesUp(id: nat)
    | TaskEnds(id: nat)
    | BeginStop
    | FinishStop

  predicate Finished(s: System, of: Option<nat>) {
    of.Some? ==> of.value < |s.tasks| && s.tasks[of.value].status.Over?
  }

  predicate IsRunning(s: System, id: nat) { id < |s.tasks| && s.tasks[id].status.Running? }

  predicate Captures(s: System, id: nat) { IsRunning(s, id) && !s.tasks[id].idle }

  predicate Enabled(s: System, step: Step) {
    match step
    case Select(_, expected, _) => s.call.None? && expected == s.c.generation
    case StartFirst => s.call.Some? && s.call.value.point.BeforeFirst? && Finished(s, s.call.value.point.of)
    case FirstReady =>
      s.call.Some? && s.call.value.point.AwaitingFirst? && s.call.value.point.id < |s.tasks|
      && s.tasks[s.call.value.point.id].ready.Resolved?
    case FirstFails =>
      s.call.Some? && s.call.value.point.AwaitingFirst? && s.call.value.point.id < |s.tasks|
      && (s.tasks[s.call.value.point.id].ready.Broken? || s.tasks[s.call.value.point.id].ready.Pending?)
    case StartRollback => s.call.Some? && s.call.value.point.BeforeRollback? && Finished(s, s.call.value.point.of)
    case RollbackReady =>
      s.call.Some? && s.call.value.point.AwaitingRollback? && s.call.value.point.id < |s.tasks|
      && s.tasks[s.call.value.point.id].ready.Resolved?
    case RollbackFails =>
      s.call.Some? && s.call.value.point.AwaitingRollback? && s.call.value.point.id < |s.tasks|
      && (s.tasks[s.call.value.point.id].ready.Broken? || s.tasks[s.call.value.point.id].ready.Pending?)
    case ReportFailure => s.call.Some? && s.call.value.point.Failing? && Finished(s, s.call.value.point.of)
    case SeeStop =>
      s.c.stopping && s.call.Some? && (s.call.value.point.AwaitingFirst? || s.call.value.point.AwaitingRollback?)
    case ClientGone => s.call.Some?
    case Leave => s.call.Some? && s.call.value.point.Leaving? && Finished(s, s.call.value.point.of)
    case Drop => s.call.Some? && s.call.value.point.Dropping? && Finished(s, s.call.value.point.of)
    case TaskCommits(id, m, image) =>
      && Captures(s, id) && !s.tasks[id].session && Verified(s.tasks[id].profile, m)
      && Shows(image, s.tasks[id].profile) && image.bytes <= s.tasks[id].profile.maxFrameBytes
    case TaskPublishes(id, image) => Captures(s, id) && s.tasks[id].session && Shows(image, s.tasks[id].profile)
    case TaskReconnects(id) => Captures(s, id)
    case TaskGivesUp(id) => Captures(s, id)
    case TaskEnds(id) => id < |s.tasks| && (s.tasks[id].status.Dying? || (s.tasks[id].status.Running? && s.tasks[id].idle))
    case BeginStop => true
    case FinishStop => s.c.stopping
  }

  function AtPoint(s: System, point: Point): System
    requires s.call.Some?
  {
    s.(call := Some(s.call.value.(point := point)))
  }

  function Ended(s: System, result: Ending): System
    requires s.call.Some?
  {
    var call := s.call.value;
    s.(call := None, outcomes := s.outcomes + [Outcome(result, call.target, call.previous, call.startAt, call.live, |s.commits|)])
  }

  /** `_cancel_capture_task` up to its wait: the supervisor is let go and told to die. */
  function LetGo(s: System): System {
    if s.c.task.None? || s.c.task.value >= |s.tasks| then s.(c := s.c.(task := None))
    else
      var id := s.c.task.value;
      var t := s.tasks[id];
      s.(c := s.c.(task := None), tasks := s.tasks[id := t.(status := if t.status.Running? then Dying else t.status)])
  }

  /** `_start_supervisor`; the source raises if a supervisor is already pointed to. */
  function Hire(s: System, p: Profile, success: CaptureState): System {
    s.(c := s.c.(task := Some(|s.tasks|)),
       tasks := s.tasks + [Task(p, success, Pending, false, Running, s.c.stopping)])
  }

  function SetTask(s: System, id: nat, t: Task): System
    requires id < |s.tasks|
  {
    s.(tasks := s.tasks[id := t])
  }

  /** The future is given up when the wait for it ends without it. */
  function Waived(s: System, id: nat): System {
    if id < |s.tasks| && s.tasks[id].ready.Pending? then SetTask(s, id, s.tasks[id].(ready := Dropped)) else s
  }

  function Selected(s: System, target: Profile, recent: bool): System {
    if Live(s.c, recent) && s.c.active.Some? && s.c.active.value.id == target.id then
      s.(c := s.c.(requested := target, desired := target, state := Ready),
         outcomes := s.outcomes + [Outcome(AlreadyLive, target, s.c.active.value, |s.commits|, true, |s.commits|)])
    else
      var previous := if s.c.active.Some? then s.c.active.value else s.c.desired;
      var t := s.(c := s.c.(requested := target, desired := target, state := Switching));
      LetGo(t).(call := Some(Call(target, previous, |s.commits|, s.c.active.Some?, BeforeFirst(s.c.task))))
  }

  function Apply(s: System, step: Step): System
    requires Enabled(s, step)
  {
    match step
    case Select(target, _, recent) => Selected(s, target, recent)
    case StartFirst =>
      AtPoint(Hire(s.(c := Invalidated(s.c, Switching)), s.call.value.target, Ready), AwaitingFirst(|s.tasks|))
    case FirstReady => Ended(s, Switched)
    case FirstFails => AtPoint(LetGo(Waived(s, s.call.value.point.id)), BeforeRollback(s.c.task))
    case StartRollback =>
      var t := s.(c := Invalidated(s.c.(desired := s.call.value.previous), Switching));
      AtPoint(Hire(t, s.call.value.previous, RolledBack), AwaitingRollback(|s.tasks|))
    case RollbackReady => Ended(s.(c := s.c.(requested := s.call.value.target)), FailedBack(true))
    case RollbackFails => AtPoint(LetGo(Waived(s, s.call.value.point.id)), Failing(s.c.task))
    case ReportFailure => Ended(s.(c := Invalidated(s.c, Degraded)), FailedBack(false))
    case SeeStop => AtPoint(LetGo(Waived(s, s.call.value.point.id)), Leaving(s.c.task, Unavailable))
    case ClientGone =>
      if s.call.value.point.AwaitingFirst? || s.call.value.point.AwaitingRollback? then
        AtPoint(LetGo(s), Leaving(s.c.task, Cancelled))
      else AtPoint(s, Dropping(AwaitsEnd(s.call.value.point)))
    case Leave =>
      var state := if s.call.value.point.result.Unavailable? || s.c.stopping then Stopped else Degraded;
      Ended(s.(c := Invalidated(s.c, state)), s.call.value.point.result)
    case Drop => Ended(s, Cancelled)
    case TaskCommits(id, m, image) =>
      var t := s.tasks[id];
      SetTask(s, id, t.(session := true, ready := if t.ready.Pending? then Resolved else t.ready))
        .(c := Committed(s.c, t.profile, m, image, t.success), commits := s.commits + [t.profile])
    case TaskPublishes(id, image) => s.(c := Shown(s.c, s.tasks[id].profile, image))
    case TaskReconnects(id) => SetTask(s, id, s.tasks[id].(session := false)).(c := Invalidated(s.c, Reconnecting))
    case TaskGivesUp(id) =>
      var t := s.tasks[id];
      SetTask(s, id, t.(status := Over, session := false, ready := if t.ready.Pending? then Broken else t.ready))
        .(c := Invalidated(s.c, Degraded))
    case TaskEnds(id) => SetTask(s, id, s.tasks[id].(status := Over))
    case BeginStop => LetGo(s.(c := s.c.(stopping := true)))
    case FinishStop => s.(c := Invalidated(s.c, Stopped))
  }

  /** Capture has been started with the default profile. */
  function Started(p: Profile): System {
    System(Capture(0, 0, None, None, None, Starting, p, p, false, Some(0)),
           [Task(p, Ready, NoFuture, false, Running, false)], None, [], [])
  }
}
