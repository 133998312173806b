/** The promises of the control plane over whole runs: every interleaving of
    handlers, local input, expiry, wire faults and Pico restarts. */
module RuntimeTheorems {
  import opened Options
  import opened Pico
  import opened Wire
  import opened Runs
  import WireSafety
  import opened ControlLease
  import opened Runtime
  import opened RuntimeSafety

  ghost predicate Next(s: Runtime, r: Runtime) {
    exists step :: CanStep(s, step) && r == StepTo(s, step)
  }

  ghost predicate Reachable(s: Runtime) {
    exists ttl: real :: Follows(Next, Start(ttl), s)
  }

  lemma BumpsKeepWire(s: Runtime, r: Runtime)
    requires WireSafety.Inv(s.wire) && Contained(s, r)
    ensures WireSafety.Inv(r.wire)
  {
    WireSafety.EndingKeeps(s.wire, r.wire);
  }

  // ----- The invariant over every step -----

  lemma EnterKeeps(s: Runtime, h: Handler, t: Times)
    requires Inv(s) && CanStep(s, Enter(h, t))
    ensures Inv(StepTo(s, Enter(h, t)))
  {
    var n := s.(now := t.c);
    assert Control(n);
    EnteredKeeps(n, h, t);
    BumpsKeepWire(n, Entered(n, h, t));
  }

  lemma FinishKeepsWire(s: Runtime)
    requires WireSafety.Inv(s.wire) && DrainAcked(s)
    ensures WireSafety.Inv(Confirmed(s).wire)
  {
    WireSafety.StepKeeps(s.wire, Finish(false));
  }

  lemma ConfirmedInv(s: Runtime, t: Times)
    requires Inv(s) && CanStep(s, DrainConfirmed(t))
    ensures Control(Confirmed(s.(now := t.c))) && WireSafety.Inv(Confirmed(s.(now := t.c)).wire)
  {
    var n := s.(now := t.c);
    assert Control(n);
    ConfirmedKeeps(n);
    FinishKeepsWire(n);
  }

  lemma ResumedInv(c: Runtime, h: Handler, next: Point, t: Times)
    requires Inv(c) && c.gate.Free? && c.lease.id.None? && !c.lease.releaseRequired
    requires NeedsStillVideo(h) ==> !c.switching
    requires next.Retry? ==> h.ClaimHandler? && !c.armed
    ensures Inv(Resumed(c, h, next, t))
  {
    ResumedKeeps(c, h, next, t);
    BumpsKeepWire(c, Resumed(c, h, next, t));
  }

  lemma DrainConfirmedKeeps(s: Runtime, t: Times)
    requires Inv(s) && CanStep(s, DrainConfirmed(t))
    ensures Inv(StepTo(s, DrainConfirmed(t)))
  {
    ConfirmedInv(s, t);
    ResumedInv(Confirmed(s.(now := t.c)), s.gate.handler, s.gate.next, t);
  }

  lemma LogIsWithin(w: System)
    requires WireSafety.Inv(w)
    ensures LogWithin(w)
  {
  }

  lemma OnWireKeeps(s: Runtime, step: Step)
    requires Inv(s) && CanStep(s, OnWire(step))
    ensures Inv(StepTo(s, OnWire(step)))
  {
    LogIsWithin(s.wire);
    WireStepFits(s, step);
    WireSafety.StepKeeps(s.wire, step);
  }

  lemma SmallStepKeeps(s: Runtime, step: RuntimeStep)
    requires Control(s) && CanStep(s, step) && (step.DrainFailed? || step.ArmFinished? || step.Disarm?)
    ensures Control(StepTo(s, step))
  {
  }

  /** Every step of the control plane keeps the invariant. */
  lemma StepKeeps(s: Runtime, step: RuntimeStep)
    requires Inv(s) && CanStep(s, step)
    ensures Inv(StepTo(s, step))
  {
    match step
    case Enter(h, t) => EnterKeeps(s, h, t);
    case DrainConfirmed(t) => DrainConfirmedKeeps(s, t);
    case OnWire(w) => OnWireKeeps(s, w);
    case _ => SmallStepKeeps(s, step);
  }

  lemma NextKeeps(s: Runtime, r: Runtime)
    requires Inv(s) && Next(s, r)
    ensures Inv(r)
  {
    var step :| CanStep(s, step) && r == StepTo(s, step);
    StepKeeps(s, step);
  }

  lemma EveryStepKeeps()
    ensures Inductive(Next, Inv)
  {
    forall s, r | Inv(s) && Next(s, r) ensures Inv(r) { NextKeeps(s, r); }
  }

  lemma ReachableInv(s: Runtime)
    requires Reachable(s)
    ensures Inv(s)
  {
    var ttl: real :| Follows(Next, Start(ttl), s);
    StartInv(ttl);
    EveryStepKeeps();
    FollowsKeeps(Next, Inv, Start(ttl), s);
  }

  // ----- Promises -----

  /** The release that confirmation `c` stands for: requested by the gateway itself,
      executed as entry `c - 1` of the Pico's log, and acknowledged before entry `c`. */
  ghost predicate ConfirmedRelease(s: Runtime, c: nat) {
    && c in s.confirms && 0 < c <= |s.wire.log| && s.wire.log[c - 1].x < |s.wire.issued|
    && s.wire.issued[s.wire.log[c - 1].x].command.op.ReleaseAll?
    && s.wire.issued[s.wire.log[c - 1].x].owner.DrainOwner?
  }

  /** Lease isolation: whatever ran for a lease ran after its grant, and before any
      later grant, with an executed and acknowledged release between the two. */
  lemma LeaseIsolation(s: Runtime, i: nat, lease: nat, later: nat)
    requires Reachable(s) && LeaseAt(s.wire, i, lease)
    ensures lease < |s.grants| && s.grants[lease] <= i
    ensures lease < later < |s.grants| ==>
      exists c :: ConfirmedRelease(s, c) && i + 1 < c <= s.grants[later]
  {
    ReachableInv(s);
    if lease < later < |s.grants| {
      var c :| c in s.confirms && i + 1 < c <= s.grants[later];
      assert ConfirmedRelease(s, c);
    }
  }

  /** Two controllers' inputs never interleave: the Pico executes for leases in the
      order they were granted. */
  lemma ControllersNeverInterleave(s: Runtime, i: nat, j: nat, first: nat, second: nat)
    requires Reachable(s) && i < j && LeaseAt(s.wire, i, first) && LeaseAt(s.wire, j, second)
    ensures first <= second
  {
    ReachableInv(s);
  }

  ghost predicate OnlyHarmless(w: System) {
    && (forall x: nat :: Line(x) in w.forward && x < |w.issued| ==> Harmless(w.issued[x].command.op))
    && (w.lock.Some? ==>
          forall x :: w.lock.value.first <= x < |w.issued| ==> Harmless(w.issued[x].command.op))
  }

  lemma QuietIsHarmless(s: Runtime)
    requires Control(s) && Quiet(s.wire, s.admitted, s.confirms)
    ensures OnlyHarmless(s.wire)
  {
    forall x: nat | x < |s.wire.issued| && s.wire.issued[x].lease.None?
      ensures Harmless(s.wire.issued[x].command.op)
    {
      assert IssueFits(s.wire.issued[x], s.granted);
    }
  }

  lemma SettledIsQuiet(s: Runtime)
    requires Control(s) && Settled(s)
    ensures Quiet(s.wire, s.admitted, s.confirms) && OnlyHarmless(s.wire)
  {
    QuietIsHarmless(s);
  }

  ghost predicate Clean(s: Runtime, r: Runtime) {
    && NothingHeld(r.wire.pico) && OnlyHarmless(r.wire)
    && (forall a :: a in s.admitted ==> a.1 < r.wire.generation)
    && r.granted == s.granted + 1 && r.grants == s.grants + [|r.wire.log|]
  }

  lemma EnteredGrantIsClean(s: Runtime, h: Handler, t: Times)
    requires Control(s) && s.gate.Free? && Entered(s, h, t).granted != s.granted
    ensures Clean(s, Entered(s, h, t))
  {
    SettledIsQuiet(s);
  }

  lemma ResumedGrantIsClean(s: Runtime, h: Handler, next: Point, t: Times)
    requires Control(s) && s.gate.Free? && Resumed(s, h, next, t).granted != s.granted
    ensures Clean(s, Resumed(s, h, next, t))
  {
    SettledIsQuiet(s);
  }

  /** A new controller starts clean: after the step that grants a lease the Pico holds
      nothing, and no earlier controller's line is on its way or can still be written. */
  lemma GrantsStartClean(s: Runtime, step: RuntimeStep)
    requires Reachable(s) && CanStep(s, step) && StepTo(s, step).granted != s.granted
    ensures Clean(s, StepTo(s, step))
  {
    ReachableInv(s);
    if step.Enter? {
      var n := s.(now := step.t.c);
      assert Control(n);
      EnteredGrantIsClean(n, step.h, step.t);
    } else if step.DrainConfirmed? {
      var n := s.(now := step.t.c);
      assert Control(n);
      ConfirmedKeeps(n);
      ResumedGrantIsClean(Confirmed(n), s.gate.handler, s.gate.next, step.t);
    }
  }

  /** Some ended controller could still act, or its traces are not yet released. */
  ghost predicate Owed(s: Runtime) {
    || !NothingHeld(s.wire.pico)
    || !OnlyHarmless(s.wire)
    || (exists a :: a in s.admitted && a.1 == s.wire.generation)
    || (exists i: nat, lease: nat :: LeaseAt(s.wire, i, lease) && !ReleasedAfter(i, s.confirms, |s.wire.log|))
  }

  /** Release obligations are never lost: between gate holders, anything an ended
      controller has left unreleased is latched (or its lease is still recorded and
      will be latched), and no claim succeeds until a release is confirmed. */
  lemma ObligationsAreNeverLost(s: Runtime, now: real)
    requires Reachable(s) && !s.gate.Draining? && Owed(s)
    ensures s.lease.id.Some? || s.lease.releaseRequired
    ensures ClaimOnce(s, now).1.Err?
  {
    ReachableInv(s);
    if Settled(s) { SettledIsQuiet(s); }
  }

  /** Video switching excludes every controller; armed local controls exclude every
      lease but their own. */
  lemma OwnershipIsExclusive(s: Runtime)
    requires Reachable(s)
    ensures s.switching ==> s.lease.id.None? && !s.armed
    ensures s.armed && s.lease.id.Some? ==> s.lease.id == s.local
  {
    ReachableInv(s);
  }
}
