/** What each control handler does from a reachable state: who gets the lease, what is
    admitted, and when a release begins (gateway/noob_gateway/app.py). */
module RuntimeEffects {
  import opened Options
  import opened Wire
  import opened ControlLease
  import opened Runtime
  import opened RuntimeSafety
  import opened RuntimeTheorems

  /** At that time a release is owed. */
  predicate DueBy(l: LeaseState, at: real) { l.releaseRequired || (l.id.Some? && at >= l.expiresAt) }

  /** The lease is presented in time. */
  predicate Presented(l: LeaseState, id: Lease, at: real) { l.id == Some(id) && at < l.expiresAt }

  /** A release has begun: every older stamp is dead, and the gate is held for it. */
  predicate Releasing(s: Runtime, r: Runtime) {
    && r.gate.Draining? && r.gate.stamp == r.wire.generation == s.wire.generation + 1
    && r.lease.id.None? && !r.lease.releaseRequired && r.granted == s.granted && r.admitted == s.admitted
  }

  predicate Unmoved(s: Runtime, r: Runtime) {
    && r.gate == s.gate && r.wire == s.wire && r.granted == s.granted && r.admitted == s.admitted
    && r.local == s.local && r.switching == s.switching && r.armed == s.armed
  }

  predicate Admits(s: Runtime, r: Runtime, id: Lease) {
    r.admitted == s.admitted + {(id, s.wire.generation)} && r.wire == s.wire && r.gate == s.gate
  }

  /** Handlers that look for expired input as soon as they have the gate. */
  predicate LooksFirst(s: Runtime, h: Handler) {
    match h
    case EmergencyHandler => false
    case SwitchEnd => false
    case LocalRelease(_) => s.local.Some?
    case _ => !(NeedsStillVideo(h) && s.switching)
  }

  ghost predicate Sound(s: Runtime) { LeaseFits(s.lease, s.granted, s.gate) && LocalFits(s) }

  lemma LeaseIsSound(s: Runtime)
    requires Reachable(s)
    ensures Sound(s)
  {
    ReachableInv(s);
  }

  /** Whoever comes first finds a release that is owed and begins it. */
  lemma OwedReleaseBegins(s: Runtime, h: Handler, t: Times)
    requires Reachable(s) && CanStep(s, Enter(h, t)) && LooksFirst(s, h) && DueBy(s.lease, t.a)
    ensures var r := StepTo(s, Enter(h, t)); Releasing(s, r) && r.local.None?
  {
    LeaseIsSound(s);
  }

  /** A claim is granted at once exactly if video is not switching, no local control is
      armed, nobody has the lease and no release is owed; the new lease lasts its time from
      then on. A claim that only itself notices an expired lease begins the release. */
  lemma ClaimGrantsExactly(s: Runtime, t: Times)
    requires Reachable(s) && CanStep(s, Enter(ClaimHandler, t))
    ensures var r := StepTo(s, Enter(ClaimHandler, t));
      && (r.granted == s.granted + 1 <==> !s.switching && !s.armed && s.lease.id.None? && !s.lease.releaseRequired)
      && (r.granted != s.granted ==> r.lease == LeaseState(Some(s.granted), t.b + s.ttl, false) && r.gate.Free?)
      && (!s.switching && !s.armed && DueBy(s.lease, t.b) ==> Releasing(s, r))
      && (s.switching || (!DueBy(s.lease, t.a) && s.armed) || Presented(s.lease, s.granted, t.b) ==> Unmoved(s, r))
  {
    LeaseIsSound(s);
  }

  /** A renewal in time gives the lease its whole time again. */
  lemma RenewalExtends(s: Runtime, id: Lease, t: Times)
    requires Reachable(s) && CanStep(s, Enter(RenewHandler(id), t))
    ensures var r := StepTo(s, Enter(RenewHandler(id), t));
      && (Presented(s.lease, id, t.b) ==> r.lease == s.lease.(expiresAt := t.b + s.ttl) && Unmoved(s, r))
      && (!DueBy(s.lease, t.c) && !Presented(s.lease, id, t.b) ==> Unmoved(s, r) && r.lease == s.lease)
  {
    LeaseIsSound(s);
  }

  /** A release by the holder ends the lease and begins the release of what it holds; by
      anybody else it changes nothing. */
  lemma ReleaseBegins(s: Runtime, id: Lease, t: Times)
    requires Reachable(s) && CanStep(s, Enter(ReleaseHandler(id), t))
    ensures var r := StepTo(s, Enter(ReleaseHandler(id), t));
      && (Presented(s.lease, id, t.b) ==> Releasing(s, r))
      && (!DueBy(s.lease, t.c) && s.lease.id != Some(id) ==> Unmoved(s, r) && r.lease == s.lease)
  {
    LeaseIsSound(s);
  }

  /** Input is admitted, under the current generation, exactly for the lease that is
      presented in time. */
  lemma InputIsAdmittedExactly(s: Runtime, id: Lease, t: Times)
    requires Reachable(s) && CanStep(s, Enter(InputHandler(id), t))
    ensures var r := StepTo(s, Enter(InputHandler(id), t));
      if Presented(s.lease, id, t.b) then Admits(s, r, id) && r.lease == s.lease
      else r.admitted == s.admitted
  {
    LeaseIsSound(s);
  }

  /** Local input takes a free lease, if video is not switching and no release is owed. */
  lemma LocalInputClaims(s: Runtime, t: Times)
    requires Reachable(s) && CanStep(s, Enter(LocalSubmit, t))
    requires !s.switching && s.lease.id.None? && !s.lease.releaseRequired
    ensures var r := StepTo(s, Enter(LocalSubmit, t));
      r.local == Some(s.granted) && Admits(s, r, s.granted) && r.lease == LeaseState(Some(s.granted), t.c + s.ttl, false)
  {
    LeaseIsSound(s);
  }

  /** Local input under its own lease renews it. */
  lemma LocalInputRenews(s: Runtime, t: Times)
    requires Reachable(s) && CanStep(s, Enter(LocalSubmit, t))
    requires !s.switching && s.local.Some? && Presented(s.lease, s.local.value, t.b)
    ensures var r := StepTo(s, Enter(LocalSubmit, t));
      r.local == s.local && Admits(s, r, s.local.value) && r.lease == s.lease.(expiresAt := t.b + s.ttl)
  {
    LeaseIsSound(s);
  }

  /** In every other case local input is not admitted, and nobody else's lease is taken. */
  lemma LocalInputIsRefused(s: Runtime, t: Times)
    requires Reachable(s) && CanStep(s, Enter(LocalSubmit, t))
    requires s.switching || (s.lease.id.Some? && s.lease.id != s.local) || DueBy(s.lease, t.b)
    ensures var r := StepTo(s, Enter(LocalSubmit, t));
      && r.admitted == s.admitted && r.granted == s.granted
      && (s.lease.id.Some? && !DueBy(s.lease, t.c) ==> r.lease == s.lease)
  {
    LeaseIsSound(s);
  }

  /** Giving back the local lease begins its release. */
  lemma LocalReleaseBegins(s: Runtime, id: Lease, t: Times)
    requires Reachable(s) && CanStep(s, Enter(LocalRelease(id), t))
    ensures var r := StepTo(s, Enter(LocalRelease(id), t));
      && r.local.None?
      && (s.local.Some? && Presented(s.lease, s.local.value, t.b) ==> Releasing(s, r))
      && (s.local.None? ==> Unmoved(s, r) && r.lease == s.lease)
  {
    LeaseIsSound(s);
  }

  /** Arming begins exactly if video is not switching, no release is owed when it looks, and
      the lease is free, has run out, or is the local one. */
  lemma ArmingBeginsExactly(s: Runtime, t: Times)
    requires Reachable(s) && CanStep(s, Enter(ArmLocal, t))
    ensures var r := StepTo(s, Enter(ArmLocal, t));
      && (r.gate.Arming? <==>
            !s.switching && !DueBy(s.lease, t.a) && (s.local.Some? || s.lease.id.None? || t.b >= s.lease.expiresAt))
      && r.admitted == s.admitted && r.granted == s.granted
  {
    LeaseIsSound(s);
  }

  /** Video switching begins exactly if it has not, no release is owed when it looks, nobody
      has the lease and no local control is armed. */
  lemma SwitchingBeginsExactly(s: Runtime, t: Times)
    requires Reachable(s) && CanStep(s, Enter(SwitchBegin, t))
    ensures var r := StepTo(s, Enter(SwitchBegin, t));
      && (!s.switching ==>
            (r.switching <==> !DueBy(s.lease, t.a) && !s.armed && (s.lease.id.None? || t.b >= s.lease.expiresAt)))
      && (s.switching ==> r.switching && Unmoved(s, r))
  {
    LeaseIsSound(s);
  }

  lemma SwitchingEnds(s: Runtime, t: Times)
    requires CanStep(s, Enter(SwitchEnd, t))
    ensures var r := StepTo(s, Enter(SwitchEnd, t)); !r.switching && Unmoved(s.(switching := false), r) && r.lease == s.lease
  {
  }

  /** An emergency release takes the lease from whoever has it and begins, whatever the state. */
  lemma EmergencyBegins(s: Runtime, t: Times)
    requires CanStep(s, Enter(EmergencyHandler, t))
    ensures var r := StepTo(s, Enter(EmergencyHandler, t)); Releasing(s, r) && r.local.None?
  {
  }

  /** Input of unknown outcome takes the lease away and begins a release. */
  lemma InvalidationBegins(s: Runtime, t: Times)
    requires CanStep(s, Enter(InvalidateInput, t))
    ensures var r := StepTo(s, Enter(InvalidateInput, t)); Releasing(s, r) && r.local.None?
  {
  }

  /** A claim that had to wait for a release is granted when it is confirmed, unless local
      control was armed before the claim's own check. */
  lemma ConfirmedClaimIsGranted(s: Runtime, t: Times)
    requires Reachable(s) && CanStep(s, DrainConfirmed(t)) && s.gate.handler.ClaimHandler?
    requires s.gate.next.Retry? || (s.gate.next.Body? && !s.armed)
    ensures var r := StepTo(s, DrainConfirmed(t));
      r.granted == s.granted + 1 && r.lease == LeaseState(Some(s.granted), t.b + s.ttl, false) && r.gate.Free?
  {
    LeaseIsSound(s);
  }

  /** A release that fails is owed again and gives the gate back. */
  lemma FailedReleaseIsOwed(s: Runtime)
    requires CanStep(s, DrainFailed)
    ensures var r := StepTo(s, DrainFailed); r.lease.releaseRequired && r.lease.id.None? && r.gate.Free?
  {
  }

  /** Local controls count as armed once the grab has worked, until they are disarmed. */
  lemma ArmingEnds(s: Runtime, ok: bool)
    requires CanStep(s, ArmFinished(ok))
    ensures var r := StepTo(s, ArmFinished(ok));
      r.armed == (s.armed || ok) && r.gate.Free? && r.lease == s.lease && r.wire == s.wire && !StepTo(r, Disarm).armed
  {
  }
}
