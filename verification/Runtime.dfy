/** The gateway's control plane over the serial session: lease, control gate, local
    input, video switching and stamped commands (gateway/noob_gateway/app.py,
    control_lease.py, serial_link.py).

    A handler runs atomically between suspension points. While it holds
    `control_gate` it can be suspended only in `emergency_release` (`Draining`) or
    in arming local input (`Arming`). A command admitted under the gate carries its
    lease and the abort generation it read there; afterwards it may put any lines on
    the wire, at any time, under that stamp. */
module Runtime {
  import opened Options
  import opened Pico
  import opened Wire
  import opened ControlLease

  datatype Handler =
    | ClaimHandler
    | RenewHandler(id: Lease)
    | ReleaseHandler(id: Lease)
    | InputHandler(id: Lease)
    | EmergencyHandler
    | LocalSubmit
    | LocalRelease(id: Lease)
    | ArmLocal
    | InvalidateInput
    | SwitchBegin
    | SwitchEnd
    | StatusHandler
    | LeaseWatchdog

  /** Where a handler goes on once its release is confirmed. */
  datatype Point = Body | Retry | Done

  datatype Gate = Free | Draining(handler: Handler, next: Point, stamp: nat) | Arming

  datatype Times = Times(a: real, b: real, c: real)

  datatype Runtime = Runtime(
    wire: System,
    now: real,
    ttl: real,
    lease: LeaseState,
    local: Option<Lease>,
    switching: bool,
    armed: bool,
    gate: Gate,
    admitted: set<(Lease, nat)>,
    localIds: set<Lease>,
    granted: nat,
    grants: seq<nat>,
    confirms: set<nat>)

  function Start(ttl: real): Runtime {
    Runtime(INITIAL, 0.0, ttl, NO_LEASE, None, false, false, Free, {}, {}, 0, [], {})
  }

  /** A handler touches the wire only through the abort generation, and grants a
      lease only from a state without one that owes no release. */
  ghost predicate Contained(s: Runtime, r: Runtime) {
    && r.wire == s.wire.(generation := r.wire.generation)
    && (r.granted == s.granted ==> r.grants == s.grants)
    && (r.granted != s.granted ==>
          s.lease.id.None? && !s.lease.releaseRequired
          && r.granted == s.granted + 1 && r.grants == s.grants + [|s.wire.log|])
  }

  // ----- Pieces the handlers share -----

  /** `emergency_release` up to its first suspension: the generation is bumped at once. */
  function StartDrain(s: Runtime, h: Handler, next: Point): (r: Runtime)
    ensures Contained(s, r)
  {
    s.(wire := s.wire.(generation := s.wire.generation + 1), gate := Draining(h, next, s.wire.generation + 1))
  }

  /** `release_expired_input`; the flag says whether the handler goes on at once. */
  function ReleaseExpired(s: Runtime, h: Handler, next: Point, now: real): (r: (Runtime, bool))
    ensures Contained(s, r.0)
  {
    var (lease, due) := Expired(s.lease, now);
    if due then (StartDrain(s.(lease := lease, local := None), h, next), false)
    else (s.(lease := lease), true)
  }

  /** `lease.claim()`; `grants` notes how far the Pico's log had got. */
  function ClaimOnce(s: Runtime, now: real): (r: (Runtime, Result<Lease, LeaseError>))
    ensures Contained(s, r.0)
  {
    var (lease, r) := Claimed(s.lease, now, s.ttl, s.granted);
    if r.Ok? then (s.(lease := lease, granted := s.granted + 1, grants := s.grants + [|s.wire.log|]), r)
    else (s.(lease := lease), r)
  }

  function Admit(s: Runtime, id: Lease): (r: Runtime)
    ensures Contained(s, r)
  {
    s.(admitted := s.admitted + {(id, s.wire.generation)})
  }

  // ----- Handler bodies, entered once no expired input is owed a release -----

  function ClaimBody(s: Runtime, t: Times): (r: Runtime)
    ensures Contained(s, r)
  {
    if s.armed then s
    else
      var (c, r) := ClaimOnce(s, t.b);
      if r == Err(ReleaseRequired) then
        var (d, goes) := ReleaseExpired(c, ClaimHandler, Retry, t.c);
        if goes then ClaimOnce(d, t.c).0 else d
      else c
  }

  function RenewBody(s: Runtime, id: Lease, t: Times): (r: Runtime)
    ensures Contained(s, r)
  {
    var (lease, r) := Renewed(s.lease, t.b, s.ttl, id);
    if r.Ok? then s.(lease := lease)
    else ReleaseExpired(s.(lease := lease), RenewHandler(id), Done, t.c).0
  }

  function ReleaseBody(s: Runtime, id: Lease, t: Times): (r: Runtime)
    ensures Contained(s, r)
  {
    var (lease, r) := Released(s.lease, t.b, id);
    if r.Ok? then StartDrain(s.(lease := lease), ReleaseHandler(id), Done)
    else ReleaseExpired(s.(lease := lease), ReleaseHandler(id), Done, t.c).0
  }

  function InputBody(s: Runtime, id: Lease, t: Times): (r: Runtime)
    ensures Contained(s, r)
  {
    var (lease, r) := Validated(s.lease, t.b, id);
    if r.Ok? then Admit(s.(lease := lease), id)
    else ReleaseExpired(s.(lease := lease), InputHandler(id), Done, t.c).0
  }

  /** Renew the local lease if there is one; a lost one is forgotten. */
  function LocalRenewed(s: Runtime, now: real): (r: Runtime)
    ensures Contained(s, r)
  {
    if s.local.None? then s
    else
      var (lease, r) := Renewed(s.lease, now, s.ttl, s.local.value);
      if r.Ok? then s.(lease := lease) else s.(lease := lease, local := None)
  }

  function LocalClaimed(s: Runtime, now: real): (r: Runtime)
    ensures Contained(s, r)
  {
    if s.local.Some? then s
    else
      var (c, r) := ClaimOnce(s, now);
      if r.Ok? then c.(local := Some(r.value), localIds := c.localIds + {r.value}) else c
  }

  function LocalSubmitBody(s: Runtime, t: Times): (r: Runtime)
    ensures Contained(s, r)
  {
    var c := LocalClaimed(LocalRenewed(s, t.b), t.c);
    if c.local.Some? then Admit(c, c.local.value) else c
  }

  function LocalReleaseBody(s: Runtime, id: Lease, t: Times): (r: Runtime)
    ensures Contained(s, r)
  {
    var (lease, r) := Released(s.lease, t.b, id);
    if r.Ok? then StartDrain(s.(lease := lease), LocalRelease(id), Done) else s.(lease := lease)
  }

  function ArmBody(s: Runtime, t: Times): (r: Runtime)
    ensures Contained(s, r)
  {
    var lease := Transition(s.lease, t.b);
    if lease.id.Some? && s.local.None? then s.(lease := lease) else s.(lease := lease, gate := Arming)
  }

  function SwitchBody(s: Runtime, t: Times): (r: Runtime)
    ensures Contained(s, r)
  {
    var lease := Transition(s.lease, t.b);
    if lease.id.Some? || s.armed then s.(lease := lease) else s.(lease := lease, switching := true)
  }

  function HandlerBody(s: Runtime, h: Handler, t: Times): (r: Runtime)
    ensures Contained(s, r)
  {
    match h
    case ClaimHandler => ClaimBody(s, t)
    case RenewHandler(id) => RenewBody(s, id, t)
    case ReleaseHandler(id) => ReleaseBody(s, id, t)
    case InputHandler(id) => InputBody(s, id, t)
    case LocalSubmit => LocalSubmitBody(s, t)
    case LocalRelease(id) => LocalReleaseBody(s, id, t)
    case ArmLocal => ArmBody(s, t)
    case SwitchBegin => SwitchBody(s, t)
    case _ => s
  }

  /** `async with control_gate`, then `release_expired_input`, then the body. */
  function Guarded(s: Runtime, h: Handler, t: Times): (r: Runtime)
    ensures Contained(s, r)
  {
    var (d, goes) := ReleaseExpired(s, h, Body, t.a);
    if goes then HandlerBody(d, h, t) else d
  }

  predicate NeedsStillVideo(h: Handler) {
    h.ClaimHandler? || h.LocalSubmit? || h.ArmLocal? || h.SwitchBegin?
  }

  /** A handler from taking the free gate to its first suspension or its end. */
  function Entered(s: Runtime, h: Handler, t: Times): (r: Runtime)
    ensures Contained(s, r)
  {
    match h
    case EmergencyHandler => StartDrain(s.(local := None, lease := NO_LEASE), h, Done)
    case InvalidateInput => ReleaseExpired(s.(local := None, lease := MARKED), h, Done, t.a).0
    case SwitchEnd => s.(switching := false)
    case StatusHandler =>
      var n := s.(lease := Transition(s.lease, t.a));
      if n.lease.releaseRequired then ReleaseExpired(n, h, Done, t.b).0 else n
    case LeaseWatchdog => ReleaseExpired(s, h, Done, t.a).0
    case LocalRelease(_) =>
      if s.local.None? then s else Guarded(s.(local := None), LocalRelease(s.local.value), t)
    case _ => if NeedsStillVideo(h) && s.switching then s else Guarded(s, h, t)
  }

  /** A handler whose release was confirmed goes on. */
  function Resumed(s: Runtime, h: Handler, next: Point, t: Times): (r: Runtime)
    ensures Contained(s, r)
  {
    match next
    case Body => HandlerBody(s, h, t)
    case Retry => ClaimOnce(s, t.b).0
    case Done => s
  }

  // ----- Steps -----

  datatype RuntimeStep =
    | Enter(h: Handler, t: Times)
    | DrainConfirmed(t: Times)
    | DrainFailed
    | ArmFinished(ok: bool)
    | Disarm
    | OnWire(step: Step)

  predicate InOrder(s: Runtime, t: Times) { s.now <= t.a <= t.b <= t.c }

  /** Operations that can leave nothing held. */
  predicate Harmless(op: Op) { op.Session? || op.Heartbeat? || op.ReleaseAll? }

  /** Who may queue an exchange: an admitted command, the heartbeat, or the gate
      holder's own release. */
  predicate MayRequest(s: Runtime, step: Step)
    requires step.Request?
  {
    match step.owner
    case CommandOwner(_) =>
      step.lease.Some? && step.stamp.Some? && (step.lease.value, step.stamp.value) in s.admitted
    case HeartbeatOwner => step.ops == [Heartbeat] && step.lease.None? && step.stamp.None?
    case DrainOwner =>
      s.gate.Draining? && step.ops == [ReleaseAll] && step.lease.None? && step.stamp == Some(s.gate.stamp)
    case SessionOwner => false
  }

  /** The lock holder is the release the gate holder waits for, and it was acknowledged. */
  predicate DrainAcked(s: Runtime) {
    && s.gate.Draining? && Enabled(s.wire, Finish(false))
    && (var issue := s.wire.issued[s.wire.lock.value.first];
        issue.owner.DrainOwner? && issue.stamp == Some(s.gate.stamp))
  }

  /** Lease identifiers are random and the local one is never sent to a client. */
  predicate Presentable(s: Runtime, h: Handler) {
    match h
    case RenewHandler(id) => id !in s.localIds
    case ReleaseHandler(id) => id !in s.localIds
    case InputHandler(id) => id !in s.localIds
    case SwitchEnd => s.switching
    case _ => true
  }

  predicate CanStep(s: Runtime, step: RuntimeStep) {
    match step
    case Enter(h, t) => s.gate.Free? && InOrder(s, t) && Presentable(s, h)
    case DrainConfirmed(t) => DrainAcked(s) && InOrder(s, t)
    case DrainFailed => s.gate.Draining?
    case ArmFinished(_) => s.gate.Arming?
    case Disarm => true
    case OnWire(w) =>
      Enabled(s.wire, w) && !w.Bump? && (w.Request? ==> MayRequest(s, w)) && (w.Finish? ==> !DrainAcked(s))
  }

  function Confirmed(s: Runtime): Runtime
    requires Enabled(s.wire, Finish(false))
  {
    s.(wire := Apply(s.wire, Finish(false)), gate := Free, confirms := s.confirms + {|s.wire.log|})
  }

  function StepTo(s: Runtime, step: RuntimeStep): Runtime
    requires CanStep(s, step)
  {
    match step
    case Enter(h, t) => Entered(s.(now := t.c), h, t)
    case DrainConfirmed(t) => Resumed(Confirmed(s.(now := t.c)), s.gate.handler, s.gate.next, t)
    case DrainFailed => s.(lease := MARKED, gate := Free)
    case ArmFinished(ok) => s.(armed := s.armed || ok, gate := Free)
    case Disarm => s.(armed := false)
    case OnWire(w) => s.(wire := Apply(s.wire, w))
  }
}
