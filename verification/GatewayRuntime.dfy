/** The runtime object that ties lease, serial session and local controls together
    (gateway/noob_gateway/app.py, `GatewayRuntime` and the control handlers). Each
    handler is what the source does from taking `control_gate` to its first suspension,
    and is proved to be the step of the same meaning in `Runtime`. */
module GatewayRuntime {
  import opened Options
  import opened Wire
  import opened Runtime
  import Commands
  import ControlLease
  import Pico
  import SerialLink
  import TokenBucket

  type Lease = ControlLease.Lease

  /** A switch while the adapters are grabbed only notices expiry. */
  function SwitchRefused(s: Runtime, t: Times): Runtime {
    if s.switching then s
    else
      var (d, goes) := ReleaseExpired(s, SwitchBegin, Body, t.a);
      if goes then d.(lease := ControlLease.Transition(d.lease, t.b)) else d
  }

  class GatewayRuntime {
    const serial: SerialLink.SerialLink
    const lease: ControlLease.ControlLease
    const limiter: TokenBucket.Bucket
    const maxTypeChars: nat
    var localLeaseId: Option<Lease>
    var videoSwitching: bool
    var localArmed: bool
    var gate: Gate
    /** Observers: the clock, the admitted commands and the history of grants. */
    ghost var now: real
    ghost var admitted: set<(Lease, nat)>
    ghost var localIds: set<Lease>
    ghost var granted: nat
    ghost var grants: seq<nat>
    ghost var confirms: set<nat>

    ghost function Model(): Runtime
      reads this, serial, lease
    {
      Runtime(serial.Model(), now, lease.ttl, lease.State(), localLeaseId, videoSwitching, localArmed, gate,
              admitted, localIds, granted, grants, confirms)
    }

    constructor (ttl: real, rate: real, burst: real, maxTypeChars: nat)
      requires rate > 0.0 && burst > 0.0
      ensures Model() == Start(ttl) && fresh(serial) && fresh(lease) && fresh(limiter)
    {
      serial := new SerialLink.SerialLink();
      lease := new ControlLease.ControlLease(ttl);
      limiter := new TokenBucket.Bucket(rate, burst, 0.0);
      this.maxTypeChars := maxTypeChars;
      localLeaseId, videoSwitching, localArmed, gate := None, false, false, Free;
      now, admitted, localIds, granted, grants, confirms := 0.0, {}, {}, 0, [], {};
    }

    function Cost(op: Pico.Op): real {
      if op.Type? && |op.text| > 16 then ((|op.text| + 15) / 16) as real else 1.0
    }

    /** Validation, and for what is valid the rate limit. */
    ghost function Asked(bucket: TokenBucket.State, op: Pico.Op, cost: real, now: real): (TokenBucket.State, bool) {
      if Commands.Acceptable(op, maxTypeChars)
      then TokenBucket.Allowed(bucket, limiter.rate, limiter.capacity, TokenBucket.Call(now, cost))
      else (bucket, false)
    }

    method AllowInput(op: Pico.Op, cost: real, now: real) returns (ok: bool)
      modifies limiter
      ensures (limiter.Model(), ok) == Asked(old(limiter.Model()), op, cost, now)
    {
      if !Commands.Acceptable(op, maxTypeChars) {
        return false;
      }
      ok := limiter.Allow(now, cost);
    }

    /** `attempt_emergency_release`, to the point where the release waits for the wire. */
    method BeginRelease(h: Handler, next: Point)
      modifies this`gate, serial
      ensures Model() == StartDrain(old(Model()), h, next)
    {
      serial.AbortOlder();
      gate := Draining(h, next, serial.abortGeneration);
    }

    /** `expire_if_needed` takes the latch over; a lease that ran out is not local any more. */
    method TakeLatch(at: real) returns (due: bool)
      modifies this`localLeaseId, lease
      ensures due == ControlLease.Expired(old(lease.State()), at).1
      ensures Model() == old(Model()).(lease := ControlLease.Expired(old(lease.State()), at).0,
        local := if due then None else old(localLeaseId))
    {
      due := lease.ExpireIfNeeded(at);
      if due {
        localLeaseId := None;
      }
    }

    method ReleaseExpiredInput(h: Handler, next: Point, at: real) returns (goesOn: bool)
      modifies this`gate, this`localLeaseId, serial, lease
      ensures (Model(), goesOn) == ReleaseExpired(old(Model()), h, next, at)
    {
      var due := TakeLatch(at);
      if due {
        BeginRelease(h, next);
      }
      goesOn := !due;
    }

    /** `id` is the next of the never repeated lease identifiers. */
    method ClaimLease(at: real, id: Lease) returns (r: Result<Lease, ControlLease.LeaseError>)
      requires id == granted
      modifies this`granted, this`grants, lease
      ensures (Model(), r) == ClaimOnce(old(Model()), at)
    {
      r := lease.Claim(at, id);
      if r.Ok? {
        granted, grants := granted + 1, grants + [|serial.log|];
      }
    }

    method Claim(t: Times, id: Lease)
      requires id == granted
      modifies this, serial, lease
      ensures Model() == ClaimBody(old(Model()), t)
    {
      if localArmed {
        return;
      }
      var r := ClaimLease(t.b, id);
      if r == Err(ControlLease.ReleaseRequired) {
        var goesOn := ReleaseExpiredInput(ClaimHandler, Retry, t.c);
        if goesOn {
          r := ClaimLease(t.c, id);
        }
      }
    }

    method Renew(id: Lease, t: Times)
      modifies this, serial, lease
      ensures Model() == RenewBody(old(Model()), id, t)
    {
      var r := lease.Renew(t.b, id);
      if r.Err? {
        var _ := ReleaseExpiredInput(RenewHandler(id), Done, t.c);
      }
    }

    method Release(id: Lease, t: Times)
      modifies this, serial, lease
      ensures Model() == ReleaseBody(old(Model()), id, t)
    {
      var r := lease.Release(t.b, id);
      if r.Ok? {
        BeginRelease(ReleaseHandler(id), Done);
      } else {
        var _ := ReleaseExpiredInput(ReleaseHandler(id), Done, t.c);
      }
    }

    /** A valid command is stamped with the abort generation read under the gate. */
    method AdmitInput(id: Lease, t: Times) returns (stamp: Option<nat>)
      modifies this, serial, lease
      ensures Model() == InputBody(old(Model()), id, t)
      ensures stamp.Some? ==> (id, stamp.value) in admitted && stamp.value == serial.abortGeneration
    {
      var r := lease.Validate(t.b, id);
      if r.Err? {
        var _ := ReleaseExpiredInput(InputHandler(id), Done, t.c);
        return None;
      }
      stamp := Some(serial.abortGeneration);
      admitted := admitted + {(id, serial.abortGeneration)};
    }

    method SubmitLocal(t: Times, id: Lease) returns (stamp: Option<nat>)
      requires id == granted
      modifies this, serial, lease
      ensures Model() == LocalSubmitBody(old(Model()), t)
      ensures stamp.Some? ==> localLeaseId.Some? && (localLeaseId.value, stamp.value) in admitted
    {
      if localLeaseId.Some? {
        var renewed := lease.Renew(t.b, localLeaseId.value);
        if renewed.Err? {
          localLeaseId := None;
        }
      }
      if localLeaseId.None? {
        var r := ClaimLease(t.c, id);
        if r.Err? {
          return None;
        }
        localLeaseId := Some(r.value);
        localIds := localIds + {r.value};
      }
      stamp := Some(serial.abortGeneration);
      admitted := admitted + {(localLeaseId.value, serial.abortGeneration)};
    }

    method ReleaseLocal(id: Lease, t: Times)
      modifies this, serial, lease
      ensures Model() == LocalReleaseBody(old(Model()), id, t)
    {
      var r := lease.Release(t.b, id);
      if r.Ok? {
        BeginRelease(LocalRelease(id), Done);
      }
    }

    method BeginArming(t: Times)
      modifies this, lease
      ensures Model() == ArmBody(old(Model()), t)
    {
      var active, remaining, required := lease.Snapshot(t.b);
      if !(active && localLeaseId.None?) {
        gate := Arming;
      }
    }

    method BeginVideoSwitch(t: Times, grabbed: bool)
      modifies this, lease
      ensures Model() ==
        if grabbed then old(Model()).(lease := ControlLease.Transition(old(lease.State()), t.b)) else SwitchBody(old(Model()), t)
    {
      var active, remaining, required := lease.Snapshot(t.b);
      if !active && !localArmed && !grabbed {
        videoSwitching := true;
      }
    }

    // ----- Handlers -----

    /** `POST claim`. `grabbed` is the adapters' exclusive grab, which only refuses. */
    method HandleClaim(t: Times, id: Lease, grabbed: bool)
      requires id == granted
      modifies this, serial, lease
      ensures Model() ==
        if grabbed && !old(videoSwitching) then ReleaseExpired(old(Model()), ClaimHandler, Body, t.a).0
        else Entered(old(Model()), ClaimHandler, t)
    {
      if videoSwitching {
        return;
      }
      var goesOn := ReleaseExpiredInput(ClaimHandler, Body, t.a);
      if goesOn && !grabbed {
        Claim(t, id);
      }
    }

    method HandleRenew(id: Lease, t: Times)
      modifies this, serial, lease
      ensures Model() == Entered(old(Model()), RenewHandler(id), t)
    {
      var goesOn := ReleaseExpiredInput(RenewHandler(id), Body, t.a);
      if goesOn {
        Renew(id, t);
      }
    }

    method HandleRelease(id: Lease, t: Times)
      modifies this, serial, lease
      ensures Model() == Entered(old(Model()), ReleaseHandler(id), t)
    {
      var goesOn := ReleaseExpiredInput(ReleaseHandler(id), Body, t.a);
      if goesOn {
        Release(id, t);
      }
    }

    method EnterInput(id: Lease, t: Times) returns (stamp: Option<nat>)
      modifies this, serial, lease
      ensures Model() == Entered(old(Model()), InputHandler(id), t)
      ensures stamp.Some? ==> (id, stamp.value) in admitted && stamp.value == serial.abortGeneration
    {
      var goesOn := ReleaseExpiredInput(InputHandler(id), Body, t.a);
      if !goesOn {
        return None;
      }
      stamp := AdmitInput(id, t);
    }

    /** `POST input`: validation, the rate limit, and then under the gate the lease. A stamp
        is returned for a command that goes on to the serial link. */
    method HandleInput(op: Pico.Op, id: Lease, now: real, t: Times) returns (stamp: Option<nat>)
      modifies this, serial, lease, limiter
      ensures limiter.Model() == Asked(old(limiter.Model()), op, Cost(op), now).0
      ensures Model() == if Asked(old(limiter.Model()), op, Cost(op), now).1 then Entered(old(Model()), InputHandler(id), t) else old(Model())
      ensures stamp.Some? ==> Asked(old(limiter.Model()), op, Cost(op), now).1
      ensures stamp.Some? ==> (id, stamp.value) in admitted && stamp.value == serial.abortGeneration
    {
      var ok := AllowInput(op, Cost(op), now);
      if !ok {
        return None;
      }
      stamp := EnterInput(id, t);
    }

    method EnterLocal(t: Times, id: Lease) returns (stamp: Option<nat>)
      requires id == granted
      modifies this, serial, lease
      ensures Model() == Entered(old(Model()), LocalSubmit, t)
      ensures stamp.Some? ==> localLeaseId.Some? && (localLeaseId.value, stamp.value) in admitted
    {
      if videoSwitching {
        return None;
      }
      var goesOn := ReleaseExpiredInput(LocalSubmit, Body, t.a);
      if !goesOn {
        return None;
      }
      stamp := SubmitLocal(t, id);
    }

    /** `submit_local_input`: every valid event costs one. */
    method HandleLocalSubmit(op: Pico.Op, now: real, t: Times, id: Lease) returns (stamp: Option<nat>)
      requires id == granted
      modifies this, serial, lease, limiter
      ensures limiter.Model() == Asked(old(limiter.Model()), op, 1.0, now).0
      ensures Model() == if Asked(old(limiter.Model()), op, 1.0, now).1 then Entered(old(Model()), LocalSubmit, t) else old(Model())
      ensures stamp.Some? ==> Asked(old(limiter.Model()), op, 1.0, now).1
      ensures stamp.Some? ==> localLeaseId.Some? && (localLeaseId.value, stamp.value) in admitted
    {
      var ok := AllowInput(op, 1.0, now);
      if !ok {
        return None;
      }
      stamp := EnterLocal(t, id);
    }

    /** `release_local_input`. */
    method HandleLocalRelease(t: Times)
      modifies this, serial, lease
      ensures Model() == Entered(old(Model()), LocalRelease(0), t)
    {
      var id := localLeaseId;
      localLeaseId := None;
      if id.None? {
        return;
      }
      var goesOn := ReleaseExpiredInput(LocalRelease(id.value), Body, t.a);
      if goesOn {
        ReleaseLocal(id.value, t);
      }
    }

    /** `arm_local_input`, to the point where the adapters are grabbed. */
    method HandleArm(t: Times)
      modifies this, serial, lease
      ensures Model() == Entered(old(Model()), ArmLocal, t)
    {
      if videoSwitching {
        return;
      }
      var goesOn := ReleaseExpiredInput(ArmLocal, Body, t.a);
      if goesOn {
        BeginArming(t);
      }
    }

    /** `switch_video_mode`, to the point where the gate is given back. */
    method HandleVideoSwitch(t: Times, grabbed: bool)
      modifies this, serial, lease
      ensures Model() == if grabbed then SwitchRefused(old(Model()), t) else Entered(old(Model()), SwitchBegin, t)
    {
      if videoSwitching {
        return;
      }
      var goesOn := ReleaseExpiredInput(SwitchBegin, Body, t.a);
      if goesOn {
        BeginVideoSwitch(t, grabbed);
      }
    }

    method HandleStatus(t: Times)
      modifies this, serial, lease
      ensures Model() == Entered(old(Model()), StatusHandler, t)
    {
      var active, remaining, required := lease.Snapshot(t.a);
      if required {
        var _ := ReleaseExpiredInput(StatusHandler, Done, t.b);
      }
    }

    /** `_emergency_release`: whoever holds the lease loses it, and all older stamps die. */
    method EmergencyRelease(t: Times)
      modifies this, serial, lease
      ensures Model() == Entered(old(Model()), EmergencyHandler, t)
    {
      localLeaseId := None;
      var _ := lease.ForceClear();
      BeginRelease(EmergencyHandler, Done);
    }

    /** `invalidate_indeterminate_input`. */
    method Invalidate(t: Times)
      modifies this, serial, lease
      ensures Model() == Entered(old(Model()), InvalidateInput, t)
    {
      localLeaseId := None;
      var _ := lease.ForceClear();
      lease.MarkReleaseRequired();
      var _ := ReleaseExpiredInput(InvalidateInput, Done, t.a);
    }

    /** A release that failed, was cancelled or stayed unanswered is owed again. */
    method ReleaseFailed()
      requires gate.Draining?
      modifies this, lease
      ensures Model() == StepTo(old(Model()), DrainFailed)
    {
      lease.MarkReleaseRequired();
      gate := Free;
    }
  }
}
