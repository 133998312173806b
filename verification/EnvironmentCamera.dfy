/** Public generations of the environment camera
    (gateway/noob_gateway/environment_camera.py): what the camera's boot id and
    generation become for clients, whatever order responses arrive in. */
module EnvironmentCamera {
  import opened Options
  import opened Runs

  type BootId = nat

  datatype Frame = Frame(sequence: nat, generation: nat)

  datatype Camera = Camera(
    boot: Option<BootId>, remote: nat, public: nat, epoch: nat, sequence: nat,
    latest: Option<Frame>, enabled: bool, reachable: bool, verified: bool)

  const UNKNOWN: Camera := Camera(None, 0, 0, 0, 0, None, false, false, false)

  /** `_update_remote_generation`: false for a response older than the state it would replace. */
  function Updated(c: Camera, boot: BootId, generation: nat): (Camera, bool) {
    if c.boot == Some(boot) && generation < c.remote then (c, false)
    else
      var changed := c.boot != Some(boot) || generation != c.remote;
      (c.(boot := Some(boot), remote := generation,
          public := if c.boot.None? then generation else if changed then c.public + 1 else c.public,
          latest := if c.boot.Some? && changed then None else c.latest,
          epoch := if changed then c.epoch + 1 else c.epoch), true)
  }

  /** A valid status response, under the mutation lock. */
  function Refreshed(c: Camera, boot: BootId, generation: nat, enabled: bool): Camera {
    var (u, current) := Updated(c, boot, generation);
    if !current then c
    else u.(verified := true, reachable := true, enabled := enabled, latest := if enabled then u.latest else None)
  }

  function Distrusted(c: Camera): Camera {
    c.(verified := false, reachable := false, enabled := false, latest := None, epoch := c.epoch + 1)
  }

  /** `_publish_frame` for a request made in the given epoch; none if that epoch is over. */
  function Published(c: Camera, sequence: Option<nat>, epoch: nat): (Camera, Option<Frame>) {
    if !c.enabled || epoch != c.epoch then (c, None)
    else
      var next := if sequence.None? || sequence.value <= c.sequence then c.sequence + 1 else sequence.value;
      var frame := Frame(next, c.public);
      (c.(sequence := next, latest := Some(frame)), Some(frame))
  }

  /** `_require_public_generation`: the remote generation to send along. */
  function Required(c: Camera, expected: nat): Option<nat> {
    if expected != c.public then None else Some(c.remote)
  }

  /** The camera's answer to `set_enabled`, still under the lock. */
  function Switched(c: Camera, wanted: bool, answered: bool, generation: nat): (Camera, bool) {
    if answered != wanted || c.boot.None? then (c, false)
    else
      var (u, current) := Updated(c, c.boot.value, generation);
      if !current then (c, false)
      else (u.(enabled := answered, latest := if answered then u.latest else None), true)
  }

  class EnvironmentCamera {
    var bootId: Option<BootId>
    var remoteGeneration: nat
    var publicGeneration: nat
    var connectionEpoch: nat
    var sequence: nat
    var latest: Option<Frame>
    var remoteEnabled: bool
    var reachable: bool
    var identityVerified: bool

    ghost function Model(): Camera
      reads this
    {
      Camera(bootId, remoteGeneration, publicGeneration, connectionEpoch, sequence, latest,
             remoteEnabled, reachable, identityVerified)
    }

    constructor ()
      ensures Model() == UNKNOWN
    {
      bootId, latest := None, None;
      remoteGeneration, publicGeneration, connectionEpoch, sequence := 0, 0, 0, 0;
      remoteEnabled, reachable, identityVerified := false, false, false;
    }

    method UpdateRemoteGeneration(boot: BootId, generation: nat) returns (current: bool)
      modifies this
      ensures (Model(), current) == Updated(old(Model()), boot, generation)
    {
      if bootId == Some(boot) && generation < remoteGeneration {
        return false;
      }
      var changed := bootId != Some(boot) || generation != remoteGeneration;
      if bootId.None? {
        publicGeneration := generation;
      } else if bootId != Some(boot) || generation != remoteGeneration {
        publicGeneration := publicGeneration + 1;
        latest := None;
      }
      if changed {
        connectionEpoch := connectionEpoch + 1;
      }
      bootId := Some(boot);
      remoteGeneration := generation;
      current := true;
    }

    method ApplyStatus(boot: BootId, generation: nat, enabled: bool)
      modifies this
      ensures Model() == Refreshed(old(Model()), boot, generation, enabled)
    {
      var current := UpdateRemoteGeneration(boot, generation);
      if !current {
        return;
      }
      identityVerified := true;
      remoteEnabled := enabled;
      if !remoteEnabled {
        latest := None;
      }
      reachable := true;
    }

    method InvalidateAuthenticatedStatus()
      modifies this
      ensures Model() == Distrusted(old(Model()))
    {
      identityVerified, reachable, remoteEnabled := false, false, false;
      latest := None;
      connectionEpoch := connectionEpoch + 1;
    }

    method PublishFrame(given: Option<nat>, expectedEpoch: nat) returns (frame: Option<Frame>)
      modifies this
      ensures (Model(), frame) == Published(old(Model()), given, expectedEpoch)
    {
      if !remoteEnabled || expectedEpoch != connectionEpoch {
        return None;
      }
      sequence := if given.None? || given.value <= sequence then sequence + 1 else given.value;
      frame := Some(Frame(sequence, publicGeneration));
      latest := frame;
    }

    method ApplySwitch(wanted: bool, answered: bool, generation: nat) returns (ok: bool)
      modifies this
      ensures (Model(), ok) == Switched(old(Model()), wanted, answered, generation)
    {
      if answered != wanted || bootId.None? {
        return false;
      }
      ok := UpdateRemoteGeneration(bootId.value, generation);
      if ok {
        remoteEnabled := answered;
        if !answered {
          latest := None;
        }
      }
    }
  }

  // ----- Responses in any order -----

  /** What was current when a frame or a mutation was asked for. */
  datatype Request = Request(epoch: nat, public: nat, boot: Option<BootId>, remote: nat)

  /** `names` is what each public generation has stood for; `delivered` the frames with
      the requests they answered; `mutation` the lock holder waiting for the camera. */
  datatype System = System(
    c: Camera, requests: seq<Request>, mutation: Option<Request>,
    names: map<nat, (BootId, nat)>, delivered: seq<(Frame, Request)>)

  datatype Step =
    | StatusArrives(boot: BootId, generation: nat, enabled: bool)
    | StatusRejected
    | Unreachable
    | AskForFrame
    | FrameArrives(i: nat, sequence: Option<nat>)
    | BeginMutation(expected: nat)
    | EndMutation(wanted: bool, answered: bool, generation: nat)
    | MutationFails

  function Now(c: Camera): Request { Request(c.epoch, c.public, c.boot, c.remote) }

  predicate Enabled(s: System, step: Step) {
    match step
    case StatusArrives(_, _, _) => s.mutation.None?
    case StatusRejected => s.mutation.None?
    case FrameArrives(i, _) => s.mutation.None? && i < |s.requests|
    case BeginMutation(expected) => s.mutation.None? && s.c.boot.Some? && Required(s.c, expected).Some?
    case EndMutation(_, _, _) => s.mutation.Some?
    case MutationFails => s.mutation.Some?
    case _ => true
  }

  function Noted(s: System, c: Camera): System {
    s.(c := c, names := if c.boot.Some? then s.names[c.public := (c.boot.value, c.remote)] else s.names)
  }

  function Apply(s: System, step: Step): System
    requires Enabled(s, step)
  {
    match step
    case StatusArrives(boot, generation, enabled) => Noted(s, Refreshed(s.c, boot, generation, enabled))
    case StatusRejected => s.(c := Distrusted(s.c))
    case Unreachable => s.(c := s.c.(reachable := false))
    case AskForFrame => s.(requests := s.requests + [Now(s.c)])
    case FrameArrives(i, sequence) =>
      var (c, frame) := Published(s.c, sequence, s.requests[i].epoch);
      if frame.None? then s else s.(c := c, delivered := s.delivered + [(frame.value, s.requests[i])])
    case BeginMutation(_) => s.(mutation := Some(Now(s.c)))
    case EndMutation(wanted, answered, generation) =>
      Noted(s, Switched(s.c, wanted, answered, generation).0).(mutation := None)
    case MutationFails => s.(mutation := None)
  }

  const INITIAL: System := System(UNKNOWN, [], None, map[], [])

  ghost predicate NamesOk(c: Camera, names: map<nat, (BootId, nat)>) {
    && (forall g :: g in names ==> g <= c.public)
    && (c.boot.Some? ==> c.public in names && names[c.public] == (c.boot.value, c.remote))
    && (c.boot.None? ==> |names| == 0 && c.public == 0 && !c.enabled)
    && (c.latest.Some? ==> c.enabled && c.boot.Some? && c.latest.value.generation == c.public && c.latest.value.sequence == c.sequence)
  }

  /** A request of the current epoch was made for what is current now. */
  ghost predicate AsksOk(c: Camera, asked: Request) {
    asked.epoch <= c.epoch && (asked.epoch == c.epoch ==> asked == Now(c))
  }

  ghost predicate DeliveredOk(delivered: seq<(Frame, Request)>, names: map<nat, (BootId, nat)>, sequence: nat) {
    && (forall i :: 0 <= i < |delivered| ==>
          var (frame, asked) := delivered[i];
          && frame.generation == asked.public && frame.sequence <= sequence
          && asked.boot.Some? && asked.public in names && names[asked.public] == (asked.boot.value, asked.remote))
    && (forall i, j :: 0 <= i < j < |delivered| ==> delivered[i].0.sequence < delivered[j].0.sequence)
  }

  ghost predicate Inv(s: System) {
    && NamesOk(s.c, s.names)
    && (forall i :: 0 <= i < |s.requests| ==> AsksOk(s.c, s.requests[i]))
    && DeliveredOk(s.delivered, s.names, s.c.sequence)
    && (s.mutation.Some? ==>
          s.mutation.value.boot == s.c.boot && s.mutation.value.remote == s.c.remote && s.mutation.value.public == s.c.public)
  }

  /** What a name stands for stays, and newer ones come after it. */
  ghost predicate NamesStay(s: System, r: System) {
    && s.c.public <= r.c.public && (s.c.boot.Some? ==> r.c.boot.Some?)
    && (forall g :: g in s.names ==> g in r.names && r.names[g] == s.names[g])
  }

  lemma UpdateKeeps(s: System, boot: BootId, generation: nat)
    requires Inv(s)
    ensures var r := Noted(s, Updated(s.c, boot, generation).0);
      NamesOk(r.c, r.names) && NamesStay(s, r) && DeliveredOk(r.delivered, r.names, r.c.sequence)
      && forall i :: 0 <= i < |r.requests| ==> AsksOk(r.c, r.requests[i])
  {
    var c := Updated(s.c, boot, generation).0;
    var r := Noted(s, c);
    if s.c.boot.None? { assert s.names == map[]; }
    forall g | g in s.names ensures g in r.names && r.names[g] == s.names[g] {
      if g == c.public { assert c == s.c || c.public == s.c.public; }
    }
  }

  lemma StatusKeeps(s: System, boot: BootId, generation: nat, enabled: bool)
    requires Inv(s) && Enabled(s, StatusArrives(boot, generation, enabled))
    ensures Inv(Apply(s, StatusArrives(boot, generation, enabled)))
    ensures NamesStay(s, Apply(s, StatusArrives(boot, generation, enabled)))
  {
    UpdateKeeps(s, boot, generation);
  }

  lemma SwitchKeeps(s: System, wanted: bool, answered: bool, generation: nat)
    requires Inv(s) && Enabled(s, EndMutation(wanted, answered, generation))
    ensures Inv(Apply(s, EndMutation(wanted, answered, generation)))
    ensures NamesStay(s, Apply(s, EndMutation(wanted, answered, generation)))
  {
    if s.c.boot.Some? { UpdateKeeps(s, s.c.boot.value, generation); }
  }

  lemma FrameKeeps(s: System, i: nat, sequence: Option<nat>)
    requires Inv(s) && Enabled(s, FrameArrives(i, sequence))
    ensures Inv(Apply(s, FrameArrives(i, sequence)))
    ensures NamesStay(s, Apply(s, FrameArrives(i, sequence)))
  {
    assert AsksOk(s.c, s.requests[i]);
  }

  lemma StepKeeps(s: System, step: Step)
    requires Inv(s) && Enabled(s, step)
    ensures Inv(Apply(s, step)) && NamesStay(s, Apply(s, step))
  {
    match step
    case StatusArrives(boot, generation, enabled) => StatusKeeps(s, boot, generation, enabled);
    case EndMutation(wanted, answered, generation) => SwitchKeeps(s, wanted, answered, generation);
    case FrameArrives(i, sequence) => FrameKeeps(s, i, sequence);
    case _ =>
  }

  ghost predicate Next(s: System, r: System) {
    exists step :: Enabled(s, step) && r == Apply(s, step)
  }

  ghost predicate Reachable(s: System) { Follows(Next, INITIAL, s) }

  lemma EveryStepKeeps(s: System)
    ensures Inductive(Next, r => Inv(r) && NamesStay(s, r))
  {
    forall m, r | Inv(m) && NamesStay(s, m) && Next(m, r) ensures Inv(r) && NamesStay(s, r) {
      var step :| Enabled(m, step) && r == Apply(m, step);
      StepKeeps(m, step);
    }
  }

  lemma RunKeeps(s: System, r: System)
    requires Inv(s) && Follows(Next, s, r)
    ensures Inv(r) && NamesStay(s, r)
  {
    EveryStepKeeps(s);
    FollowsKeeps(Next, t => Inv(t) && NamesStay(s, t), s, r);
  }

  lemma ReachableInv(s: System)
    requires Reachable(s)
    ensures Inv(s)
  {
    RunKeeps(INITIAL, s);
  }

  /** A public generation names one boot and remote generation for all time, and never
      decreases: a client whose generation is still current means what it meant. */
  lemma GenerationsNameOnePair(s: System, r: System)
    requires Reachable(s) && s.c.boot.Some? && Follows(Next, s, r)
    ensures s.c.public <= r.c.public
    ensures r.c.public == s.c.public ==> r.c.boot == s.c.boot && r.c.remote == s.c.remote
    ensures forall g :: g in s.names ==> g in r.names && r.names[g] == s.names[g]
  {
    ReachableInv(s);
    RunKeeps(s, r);
  }

  /** A response of the same boot never rolls the generation back, and one that is older
      than the state changes nothing. */
  lemma StaleResponsesChangeNothing(s: System, step: Step)
    requires Enabled(s, step)
    ensures Apply(s, step).c.boot == s.c.boot ==> Apply(s, step).c.remote >= s.c.remote
    ensures step.StatusArrives? && s.c.boot == Some(step.boot) && step.generation < s.c.remote ==> Apply(s, step).c == s.c
  {
  }

  /** A frame published under a generation was asked for while that generation was current,
      of the very boot and remote generation it names; sequences strictly grow. */
  lemma FramesWereAskedForCurrent(s: System, i: nat)
    requires Reachable(s) && i < |s.delivered|
    ensures var (frame, asked) := s.delivered[i];
      frame.generation == asked.public && asked.boot.Some?
      && frame.generation in s.names && s.names[frame.generation] == (asked.boot.value, asked.remote)
    ensures forall j :: i < j < |s.delivered| ==> s.delivered[i].0.sequence < s.delivered[j].0.sequence
  {
    ReachableInv(s);
  }

  /** The frame offered to clients is of the current generation. */
  lemma LatestIsCurrent(s: System)
    requires Reachable(s) && s.c.latest.Some?
    ensures s.c.latest.value.generation == s.c.public && s.c.boot.Some? && s.c.enabled
  {
    ReachableInv(s);
  }

  /** A mutation is sent with the remote generation that the client's expected public one
      names, and that is still current when the camera's answer is applied. */
  lemma MutationsMeanWhatWasExpected(s: System, expected: nat, r: System, wanted: bool, answered: bool, generation: nat)
    requires Reachable(s) && Enabled(s, BeginMutation(expected))
    requires Follows(Next, Apply(s, BeginMutation(expected)), r)
    requires Enabled(r, EndMutation(wanted, answered, generation)) && r.mutation == Some(Now(s.c))
    ensures expected in s.names && s.names[expected] == (s.c.boot.value, Required(s.c, expected).value)
    ensures r.c.boot == s.c.boot && r.c.remote == Required(s.c, expected).value && r.c.public == expected
  {
    ReachableInv(s);
    StepKeeps(s, BeginMutation(expected));
    RunKeeps(Apply(s, BeginMutation(expected)), r);
  }

  // ----- What each response does -----

  /** The public generation counts changes of the pair and nothing else: a status that
      repeats boot and generation keeps it, the epoch, and the latest frame while the camera
      stays on; a different pair that is not stale makes it one larger, starts an epoch and
      drops the frame. The first pair brings its own number. */
  lemma PublicCountsChanges(s: System, step: Step)
    requires Reachable(s) && Enabled(s, step) && step.StatusArrives?
    ensures var c, r := s.c, Apply(s, step).c;
      var same := c.boot == Some(step.boot) && step.generation == c.remote;
      var stale := c.boot == Some(step.boot) && step.generation < c.remote;
      && (same ==> r.public == c.public && r.epoch == c.epoch && r.enabled == step.enabled && r.verified && r.reachable)
      && (same && step.enabled ==> r.latest == c.latest)
      && (!same && !stale ==>
            && r.public == (if c.boot.None? then step.generation else c.public + 1) && r.epoch == c.epoch + 1
            && r.latest.None? && r.boot == Some(step.boot) && r.remote == step.generation
            && r.enabled == step.enabled && r.verified && r.reachable)
      && (!step.enabled && !stale ==> r.latest.None?)
  {
    ReachableInv(s);
  }

  /** A frame is published exactly if the camera is on and its epoch is not over; then it is
      the latest one, under the current generation and a new number. */
  lemma FrameIsPublishedExactly(s: System, i: nat, sequence: Option<nat>)
    requires Enabled(s, FrameArrives(i, sequence))
    ensures var r := Apply(s, FrameArrives(i, sequence));
      if s.c.enabled && s.requests[i].epoch == s.c.epoch then
        && r.c.latest.Some? && r.c.latest.value.generation == s.c.public && r.c.latest.value.sequence > s.c.sequence
        && (sequence.Some? && sequence.value > s.c.sequence ==> r.c.latest.value.sequence == sequence.value)
        && r.c.sequence == r.c.latest.value.sequence && r.delivered == s.delivered + [(r.c.latest.value, s.requests[i])]
      else r == s
  {
  }

  /** A mutation that the camera answered as asked and that is not stale sets what the camera
      shows; any other answer changes nothing of the camera. */
  lemma AnswerIsApplied(s: System, wanted: bool, answered: bool, generation: nat)
    requires Reachable(s) && Enabled(s, EndMutation(wanted, answered, generation))
    ensures var c, r := s.c, Apply(s, EndMutation(wanted, answered, generation)).c;
      if answered == wanted && c.boot.Some? && generation >= c.remote then
        && r.enabled == wanted && r.remote == generation && r.boot == c.boot && (!wanted ==> r.latest.None?)
        && r.public == c.public + (if generation == c.remote then 0 else 1)
        && (wanted && generation == c.remote ==> r.latest == c.latest)
      else r == c
  {
  }

  /** A distrusted status ends the epoch: nothing is offered and no request already made can
      publish a frame. */
  lemma DistrustEndsRequests(s: System, i: nat, sequence: Option<nat>)
    requires Reachable(s) && Enabled(s, StatusRejected) && i < |s.requests|
    ensures var r := Apply(s, StatusRejected);
      r.c.latest.None? && !r.c.reachable && !r.c.verified && !r.c.enabled && Apply(r, FrameArrives(i, sequence)) == r
  {
    ReachableInv(s);
    assert AsksOk(s.c, s.requests[i]);
  }

  /** A client may mutate exactly with the current public generation, while nobody else does
      and once a camera is known; then the camera is sent its own current generation. */
  lemma MutationBeginsExactly(s: System, expected: nat)
    ensures Enabled(s, BeginMutation(expected)) <==> s.mutation.None? && s.c.boot.Some? && expected == s.c.public
    ensures Enabled(s, BeginMutation(expected)) ==> Required(s.c, expected) == Some(s.c.remote)
    ensures Enabled(s, MutationFails) ==> Apply(s, MutationFails).mutation.None? && Apply(s, MutationFails).c == s.c
  {
  }

  /** A camera that does not answer is reported so and nothing else is known to have changed. */
  lemma UnreachableIsNoted(s: System)
    ensures Apply(s, Unreachable).c == s.c.(reachable := false)
  {
  }
}
