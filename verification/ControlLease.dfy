/** The single-controller deadman lease with its release latch
    (gateway/noob_gateway/control_lease.py). The clock reading and the fresh
    random identifier are parameters. */
module ControlLease {
  import opened Options

  type Lease = nat

  datatype LeaseError = Busy | Invalid | ReleaseRequired

  datatype LeaseState = LeaseState(id: Option<Lease>, expiresAt: real, releaseRequired: bool)

  const NO_LEASE: LeaseState := LeaseState(None, 0.0, false)

  /** An active lease owes no release. */
  predicate LeaseOk(l: LeaseState) { l.id.Some? ==> !l.releaseRequired }

  function Transition(l: LeaseState, now: real): LeaseState {
    if l.id.Some? && now >= l.expiresAt then LeaseState(None, 0.0, true) else l
  }

  function Claimed(l: LeaseState, now: real, ttl: real, id: Lease): (LeaseState, Result<Lease, LeaseError>) {
    var t := Transition(l, now);
    if t.id.Some? then (t, Err(Busy))
    else if t.releaseRequired then (t, Err(ReleaseRequired))
    else (t.(id := Some(id), expiresAt := now + ttl), Ok(id))
  }

  function Renewed(l: LeaseState, now: real, ttl: real, id: Lease): (LeaseState, Result<(), LeaseError>) {
    var t := Transition(l, now);
    if t.id != Some(id) then (t, Err(Invalid)) else (t.(expiresAt := now + ttl), Ok(()))
  }

  function Validated(l: LeaseState, now: real, id: Lease): (LeaseState, Result<(), LeaseError>) {
    var t := Transition(l, now);
    (t, if t.id != Some(id) then Err(Invalid) else Ok(()))
  }

  function Released(l: LeaseState, now: real, id: Lease): (LeaseState, Result<(), LeaseError>) {
    var t := Transition(l, now);
    if t.id != Some(id) then (t, Err(Invalid)) else (t.(id := None, expiresAt := 0.0), Ok(()))
  }

  function Expired(l: LeaseState, now: real): (LeaseState, bool) {
    var t := Transition(l, now);
    (t.(releaseRequired := false), t.releaseRequired)
  }

  const MARKED: LeaseState := LeaseState(None, 0.0, true)

  /** Time alone never loses an obligation: a lease that ran out is latched, and
      only `expire_if_needed` takes the latch, telling its caller so. */
  lemma LatchIsHandedOver(l: LeaseState, now: real, ttl: real, id: Lease)
    requires LeaseOk(l)
    ensures var owed := l.releaseRequired || (l.id.Some? && now >= l.expiresAt);
      && LeaseOk(Claimed(l, now, ttl, id).0) && (owed ==> Claimed(l, now, ttl, id).1 == Err(ReleaseRequired))
      && (owed <==> Transition(l, now).releaseRequired)
      && Renewed(l, now, ttl, id).0.releaseRequired == owed
      && Released(l, now, id).0.releaseRequired == owed
      && Expired(l, now).1 == owed
      && (Claimed(l, now, ttl, id).1.Ok? <==> l.id.None? && !l.releaseRequired)
  {
  }

  class ControlLease {
    const ttl: real
    var leaseId: Option<Lease>
    var expiresAt: real
    var releaseRequired: bool

    function State(): LeaseState
      reads this
    {
      LeaseState(leaseId, expiresAt, releaseRequired)
    }

    constructor (ttl: real)
      ensures State() == NO_LEASE && this.ttl == ttl
    {
      this.ttl := ttl;
      leaseId, expiresAt, releaseRequired := None, 0.0, false;
    }

    method TransitionExpired(now: real)
      modifies this
      ensures State() == Transition(old(State()), now)
    {
      if leaseId.Some? && now >= expiresAt {
        leaseId := None;
        expiresAt := 0.0;
        releaseRequired := true;
      }
    }

    method Claim(now: real, id: Lease) returns (r: Result<Lease, LeaseError>)
      modifies this
      ensures (State(), r) == Claimed(old(State()), now, ttl, id)
    {
      TransitionExpired(now);
      if leaseId.Some? {
        return Err(Busy);
      }
      if releaseRequired {
        return Err(ReleaseRequired);
      }
      leaseId := Some(id);
      expiresAt := now + ttl;
      r := Ok(id);
    }

    method Renew(now: real, id: Lease) returns (r: Result<(), LeaseError>)
      modifies this
      ensures (State(), r) == Renewed(old(State()), now, ttl, id)
    {
      TransitionExpired(now);
      if leaseId != Some(id) {
        return Err(Invalid);
      }
      expiresAt := now + ttl;
      r := Ok(());
    }

    method Validate(now: real, id: Lease) returns (r: Result<(), LeaseError>)
      modifies this
      ensures (State(), r) == Validated(old(State()), now, id)
    {
      TransitionExpired(now);
      if leaseId != Some(id) {
        return Err(Invalid);
      }
      r := Ok(());
    }

    method Release(now: real, id: Lease) returns (r: Result<(), LeaseError>)
      modifies this
      ensures (State(), r) == Released(old(State()), now, id)
    {
      TransitionExpired(now);
      if leaseId != Some(id) {
        return Err(Invalid);
      }
      leaseId := None;
      expiresAt := 0.0;
      r := Ok(());
    }

    method ForceClear() returns (had: bool)
      modifies this
      ensures State() == NO_LEASE
      ensures had <==> old(State()).id.Some? || old(State()).releaseRequired
    {
      had := leaseId.Some? || releaseRequired;
      leaseId := None;
      expiresAt := 0.0;
      releaseRequired := false;
    }

    method ExpireIfNeeded(now: real) returns (due: bool)
      modifies this
      ensures (State(), due) == Expired(old(State()), now)
    {
      TransitionExpired(now);
      due := releaseRequired;
      releaseRequired := false;
    }

    method MarkReleaseRequired()
      modifies this
      ensures State() == MARKED
    {
      leaseId := None;
      expiresAt := 0.0;
      releaseRequired := true;
    }

    method Snapshot(now: real) returns (active: bool, remaining: real, required: bool)
      modifies this
      ensures State() == Transition(old(State()), now)
      ensures active == State().id.Some? && required == State().releaseRequired
      ensures remaining >= 0.0 && (active ==> remaining == State().expiresAt - now)
    {
      TransitionExpired(now);
      active, required := leaseId.Some?, releaseRequired;
      remaining := if leaseId.Some? && expiresAt > now then expiresAt - now else 0.0;
    }
  }
}
