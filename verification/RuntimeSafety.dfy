/** What every step of the control plane keeps: only the latest lease can reach the
    Pico, an ended lease is either owed a release or has left no trace, local
    ownership and video switching exclude other controllers. */
module RuntimeSafety {
  import opened Options
  import opened Pico
  import opened Wire
  import WireSafety
  import WireTheorems
  import opened ControlLease
  import opened Runtime

  // ----- Invariant -----

  ghost predicate LeaseFits(lease: LeaseState, granted: nat, gate: Gate) {
    && LeaseOk(lease)
    && (lease.id.Some? ==> lease.id.value + 1 == granted)
    && (gate.Draining? ==> lease.id.None? && !lease.releaseRequired)
  }

  /** Only the latest lease has commands under the current generation, and none has
      while the gate holder's release is out. */
  ghost predicate AdmittedFits(admitted: set<(Lease, nat)>, generation: nat, granted: nat, gate: Gate) {
    && (forall a :: a in admitted ==>
          a.1 <= generation && a.0 < granted && (a.1 == generation ==> a.0 + 1 == granted))
    && (gate.Draining? ==> gate.stamp <= generation && forall a :: a in admitted ==> a.1 < gate.stamp)
  }

  ghost predicate TicketFits(t: Ticket, admitted: set<(Lease, nat)>) {
    if t.lease.Some? then
      t.owner.CommandOwner? && t.stamp.Some? && (t.lease.value, t.stamp.value) in admitted
    else
      && !t.owner.CommandOwner?
      && (forall i :: 0 <= i < |t.ops| ==> Harmless(t.ops[i]))
      && (t.owner.DrainOwner? ==> t.ops == [ReleaseAll])
  }

  ghost predicate TicketsFit(tickets: set<Ticket>, admitted: set<(Lease, nat)>) {
    forall t :: t in tickets ==> TicketFits(t, admitted)
  }

  ghost predicate IssueFits(issue: Issue, granted: nat) {
    if issue.lease.Some? then issue.lease.value < granted && issue.owner.CommandOwner?
    else
      && Harmless(issue.command.op) && !issue.owner.CommandOwner?
      && (issue.owner.DrainOwner? ==> issue.command.op.ReleaseAll?)
  }

  ghost predicate IssuedFits(issued: seq<Issue>, granted: nat, lock: Option<Exchange>) {
    && (forall x :: 0 <= x < |issued| ==> IssueFits(issued[x], granted))
    && (lock.Some? && lock.value.first < |issued| && issued[lock.value.first].owner.DrainOwner? ==>
          lock.value.count == 1)
  }

  /** Every line on its way to the Pico, or about to be written, is a harmless one or
      satisfies `lease`. */
  ghost predicate Traffic(forward: seq<Slot>, lock: Option<Exchange>, issued: seq<Issue>, lease: Lease -> bool) {
    && (forall x: nat :: Line(x) in forward && x < |issued| && issued[x].lease.Some? ==> lease(issued[x].lease.value))
    && (lock.Some? ==>
          forall x :: lock.value.first <= x < |issued| && issued[x].lease.Some? ==> lease(issued[x].lease.value))
  }

  ghost predicate Latest(forward: seq<Slot>, lock: Option<Exchange>, issued: seq<Issue>, granted: nat) {
    Traffic(forward, lock, issued, lease => lease + 1 == granted)
  }

  ghost predicate LeaseAt(s: System, i: nat, lease: Lease) {
    i < |s.log| && s.log[i].x < |s.issued| && s.issued[s.log[i].x].lease == Some(lease)
  }

  /** Some confirmed release came after the `i`-th execution. */
  ghost predicate ReleasedAfter(i: nat, confirms: set<nat>, bound: nat) {
    exists c :: c in confirms && i + 1 < c <= bound
  }

  /** No lease that has ended can still act or has left anything behind. */
  ghost predicate Quiet(w: System, admitted: set<(Lease, nat)>, confirms: set<nat>) {
    && NothingHeld(w.pico)
    && Traffic(w.forward, w.lock, w.issued, lease => false)
    && (forall a :: a in admitted ==> a.1 < w.generation)
    && (forall i: nat, lease: nat :: LeaseAt(w, i, lease) ==> ReleasedAfter(i, confirms, |w.log|))
  }

  ghost predicate Settled(s: Runtime) {
    s.lease.id.None? && !s.lease.releaseRequired && !s.gate.Draining?
  }

  /** A confirmation follows the execution of a release no controller asked for. */
  ghost predicate ConfirmsFit(w: System, confirms: set<nat>) {
    forall c :: c in confirms ==>
      && 0 < c <= |w.log| && w.log[c - 1].x < |w.issued|
      && w.issued[w.log[c - 1].x].command.op.ReleaseAll? && w.issued[w.log[c - 1].x].owner.DrainOwner?
  }

  /** Executions for a lease lie between its grant and the next, with a confirmed
      release before the next grant. */
  ghost predicate GrantsFit(w: System, grants: seq<nat>, confirms: set<nat>) {
    && (forall g :: 0 <= g < |grants| ==> grants[g] <= |w.log|)
    && (forall i: nat, lease: nat :: LeaseAt(w, i, lease) ==> lease < |grants| && grants[lease] <= i)
    && (forall i: nat, lease: nat, g :: LeaseAt(w, i, lease) && lease < g < |grants| ==>
          i < grants[g] && ReleasedAfter(i, confirms, grants[g]))
  }

  ghost predicate LocalFits(s: Runtime) {
    && (s.local.Some? ==> s.local.value in s.localIds)
    && (s.local.Some? ==> s.lease.id == s.local || (s.lease.id.None? && s.lease.releaseRequired))
    && (forall id :: id in s.localIds ==> id < s.granted)
  }

  ghost predicate OwnershipFits(s: Runtime) {
    && (s.armed || s.gate.Arming? ==> s.lease.id.None? || s.lease.id == s.local)
    && (s.switching ==> s.lease.id.None? && !s.armed && !s.gate.Arming?)
    && (s.gate.Draining? && NeedsStillVideo(s.gate.handler) ==> !s.switching)
    && (s.gate.Draining? && s.gate.next.Retry? ==> s.gate.handler.ClaimHandler? && !s.armed)
  }

  ghost predicate Control(s: Runtime) {
    && LeaseFits(s.lease, s.granted, s.gate)
    && AdmittedFits(s.admitted, s.wire.generation, s.granted, s.gate)
    && TicketsFit(s.wire.tickets, s.admitted)
    && IssuedFits(s.wire.issued, s.granted, s.wire.lock)
    && Latest(s.wire.forward, s.wire.lock, s.wire.issued, s.granted)
    && (Settled(s) ==> Quiet(s.wire, s.admitted, s.confirms))
    && ConfirmsFit(s.wire, s.confirms)
    && GrantsFit(s.wire, s.grants, s.confirms) && |s.grants| == s.granted
    && LocalFits(s)
    && OwnershipFits(s)
  }

  ghost predicate Inv(s: Runtime) {
    WireSafety.Inv(s.wire) && Control(s)
  }

  ghost predicate Blank(s: Runtime) {
    && WireSafety.Blank(s.wire)
    && NothingHeld(s.wire.pico)
    && (forall a :: a !in s.admitted) && (forall id :: id !in s.localIds) && (forall c :: c !in s.confirms)
    && |s.grants| == 0 && s.granted == 0
    && s.lease.id.None? && !s.lease.releaseRequired && s.local.None?
    && !s.switching && !s.armed && s.gate.Free?
  }

  lemma BlankControl(s: Runtime)
    requires Blank(s)
    ensures Control(s)
  {
  }

  lemma StartControl(ttl: real)
    ensures Control(Start(ttl))
  {
    assert Blank(Start(ttl));
    BlankControl(Start(ttl));
  }

  lemma StartInv(ttl: real)
    ensures Inv(Start(ttl))
  {
    WireSafety.InitialInv();
    StartControl(ttl);
  }

  // ----- Control steps -----

  /** Any handler may end in a release once the lease is gone and owes nothing else. */
  lemma StartDrainKeeps(s: Runtime, lease: LeaseState, h: Handler, next: Point)
    requires Control(s) && s.gate.Free?
    requires lease.id.None? && !lease.releaseRequired
    requires NeedsStillVideo(h) ==> !s.switching
    requires next.Retry? ==> h.ClaimHandler? && !s.armed
    ensures Control(StartDrain(s.(lease := lease, local := None), h, next))
  {
    var r := StartDrain(s.(lease := lease, local := None), h, next);
    assert forall i: nat, id: nat :: LeaseAt(r.wire, i, id) ==> LeaseAt(s.wire, i, id);
  }

  lemma ReleaseExpiredKeeps(s: Runtime, h: Handler, next: Point, now: real)
    requires Control(s) && s.gate.Free?
    requires NeedsStillVideo(h) ==> !s.switching
    requires next.Retry? ==> h.ClaimHandler? && !s.armed
    ensures var (r, goes) := ReleaseExpired(s, h, next, now);
      Control(r) && (goes ==> r == s && !s.lease.releaseRequired)
  {
    var (lease, due) := Expired(s.lease, now);
    if due { StartDrainKeeps(s, lease, h, next); }
  }

  /** A lease may only run on, or end owing a release. */
  lemma LeaseRunsKeeps(s: Runtime, lease: LeaseState)
    requires Control(s) && !s.gate.Draining?
    requires LeaseOk(lease)
    requires lease.id == s.lease.id || lease.id.None?
    requires lease.releaseRequired <==> s.lease.releaseRequired || lease.id != s.lease.id
    ensures Control(s.(lease := lease))
  {
  }

  lemma GrantKeepsLog(s: Runtime)
    requires GrantsFit(s.wire, s.grants, s.confirms) && Quiet(s.wire, s.admitted, s.confirms)
    ensures GrantsFit(s.wire, s.grants + [|s.wire.log|], s.confirms)
  {
    var r := s.grants + [|s.wire.log|];
    forall i: nat, lease: nat, g: nat | LeaseAt(s.wire, i, lease) && lease < g < |r|
      ensures i < r[g] && ReleasedAfter(i, s.confirms, r[g])
    {
    }
  }

  /** A new lease is granted only when every earlier one is over without trace. */
  lemma GrantKeeps(s: Runtime, expiresAt: real, localId: bool)
    requires Control(s) && Settled(s) && s.gate.Free? && !s.switching && (s.armed ==> localId) && s.local.None?
    ensures Quiet(s.wire, s.admitted, s.confirms)
    ensures Control(s.(lease := LeaseState(Some(s.granted), expiresAt, false), granted := s.granted + 1,
                   grants := s.grants + [|s.wire.log|],
                   local := if localId then Some(s.granted) else None,
                   localIds := if localId then s.localIds + {s.granted} else s.localIds))
  {
    GrantKeepsLog(s);
  }

  lemma TransitionKeeps(s: Runtime, now: real)
    requires Control(s) && !s.gate.Draining?
    ensures Control(s.(lease := Transition(s.lease, now)))
  {
    LeaseRunsKeeps(s, Transition(s.lease, now));
  }

  lemma ClaimOnceKeeps(s: Runtime, now: real)
    requires Control(s) && s.gate.Free? && !s.switching && !s.armed
    ensures Control(ClaimOnce(s, now).0)
    ensures var r := ClaimOnce(s, now).0; r == s.(lease := r.lease, granted := r.granted, grants := r.grants)
    ensures ClaimOnce(s, now).1 == Err(ReleaseRequired) ==> ClaimOnce(s, now).0.granted == s.granted
  {
    if ClaimOnce(s, now).1.Ok? {
      GrantKeeps(s, now + s.ttl, false);
    } else {
      TransitionKeeps(s, now);
    }
  }

  lemma ClaimBodyKeeps(s: Runtime, t: Times)
    requires Control(s) && s.gate.Free? && !s.switching
    ensures Control(ClaimBody(s, t))
  {
    if !s.armed {
      ClaimOnceKeeps(s, t.b);
      var (c, r) := ClaimOnce(s, t.b);
      if r == Err(ReleaseRequired) {
        ReleaseExpiredKeeps(c, ClaimHandler, Retry, t.c);
        var (d, goes) := ReleaseExpired(c, ClaimHandler, Retry, t.c);
        if goes { ClaimOnceKeeps(d, t.c); }
      }
    }
  }

  lemma RenewBodyKeeps(s: Runtime, id: Lease, t: Times)
    requires Control(s) && s.gate.Free?
    ensures Control(RenewBody(s, id, t))
  {
    var (lease, r) := Renewed(s.lease, t.b, s.ttl, id);
    LeaseRunsKeeps(s, lease);
    if r.Err? { ReleaseExpiredKeeps(s.(lease := lease), RenewHandler(id), Done, t.c); }
  }

  lemma ReleaseBodyKeeps(s: Runtime, id: Lease, t: Times)
    requires Control(s) && s.gate.Free? && (id !in s.localIds || s.lease.id.None?)
    ensures Control(ReleaseBody(s, id, t))
  {
    var (lease, r) := Released(s.lease, t.b, id);
    if r.Ok? {
      StartDrainKeeps(s, lease, ReleaseHandler(id), Done);
      assert s.local.None?;
    } else {
      LeaseRunsKeeps(s, lease);
      ReleaseExpiredKeeps(s.(lease := lease), ReleaseHandler(id), Done, t.c);
    }
  }

  lemma AdmitKeeps(s: Runtime, id: Lease)
    requires Control(s) && s.gate.Free? && s.lease.id == Some(id)
    ensures Control(Admit(s, id))
  {
    assert forall t :: t in s.wire.tickets && TicketFits(t, s.admitted) ==> TicketFits(t, Admit(s, id).admitted);
  }

  lemma InputBodyKeeps(s: Runtime, id: Lease, t: Times)
    requires Control(s) && s.gate.Free?
    ensures Control(InputBody(s, id, t))
  {
    var (lease, r) := Validated(s.lease, t.b, id);
    LeaseRunsKeeps(s, lease);
    if r.Ok? {
      AdmitKeeps(s.(lease := lease), id);
    } else {
      ReleaseExpiredKeeps(s.(lease := lease), InputHandler(id), Done, t.c);
    }
  }

  lemma LocalRenewedKeeps(s: Runtime, now: real)
    requires Control(s) && s.gate.Free? && !s.lease.releaseRequired
    ensures var r := LocalRenewed(s, now);
      && Control(r) && r == s.(lease := r.lease, local := r.local)
      && (r.local.Some? ==> r.lease.id == r.local)
  {
    if s.local.Some? {
      var (lease, r) := Renewed(s.lease, now, s.ttl, s.local.value);
      LeaseRunsKeeps(s, lease);
    }
  }

  lemma LocalClaimedKeeps(s: Runtime, now: real)
    requires Control(s) && s.gate.Free? && !s.switching
    requires s.local.Some? ==> s.lease.id == s.local
    ensures var r := LocalClaimed(s, now);
      && Control(r) && r.gate.Free? && (r.local.Some? ==> r.lease.id == r.local)
  {
    if s.local.None? {
      if ClaimOnce(s, now).1.Ok? {
        GrantKeeps(s, now + s.ttl, true);
      } else {
        TransitionKeeps(s, now);
      }
    }
  }

  lemma LocalSubmitBodyKeeps(s: Runtime, t: Times)
    requires Control(s) && s.gate.Free? && !s.switching && !s.lease.releaseRequired
    ensures Control(LocalSubmitBody(s, t))
  {
    LocalRenewedKeeps(s, t.b);
    var n := LocalRenewed(s, t.b);
    LocalClaimedKeeps(n, t.c);
    var c := LocalClaimed(n, t.c);
    if c.local.Some? { AdmitKeeps(c, c.local.value); }
  }

  lemma ArmBodyKeeps(s: Runtime, t: Times)
    requires Control(s) && s.gate.Free? && !s.switching
    ensures Control(ArmBody(s, t))
  {
    TransitionKeeps(s, t.b);
  }

  lemma SwitchBodyKeeps(s: Runtime, t: Times)
    requires Control(s) && s.gate.Free?
    ensures Control(SwitchBody(s, t))
  {
    TransitionKeeps(s, t.b);
  }

  lemma LocalReleaseBodyKeeps(s: Runtime, id: Lease, t: Times)
    requires Control(s) && s.gate.Free? && s.local.None?
    ensures Control(LocalReleaseBody(s, id, t))
  {
    var (lease, r) := Released(s.lease, t.b, id);
    if r.Ok? {
      StartDrainKeeps(s, lease, LocalRelease(id), Done);
    } else {
      TransitionKeeps(s, t.b);
    }
  }

  /** The local controls give their lease up; nobody else's is touched. */
  lemma LocalReleaseKeeps(s: Runtime, t: Times)
    requires Control(s) && s.gate.Free?
    ensures Control(Entered(s, LocalRelease(0), t))
  {
    if s.local.Some? {
      var id := s.local.value;
      var (lease, due) := Expired(s.lease, t.a);
      if due {
        StartDrainKeeps(s, lease, LocalRelease(id), Body);
      } else {
        var (after, r) := Released(s.lease, t.b, id);
        if r.Ok? {
          StartDrainKeeps(s, after, LocalRelease(id), Done);
        } else {
          LeaseRunsKeeps(s, after);
        }
      }
    }
  }

  lemma HandlerBodyKeeps(s: Runtime, h: Handler, t: Times)
    requires Control(s) && s.gate.Free? && !s.lease.releaseRequired
    requires NeedsStillVideo(h) ==> !s.switching
    requires h.ReleaseHandler? ==> h.id !in s.localIds || s.lease.id.None?
    requires h.LocalRelease? ==> s.local.None?
    ensures Control(HandlerBody(s, h, t))
  {
    match h
    case ClaimHandler => ClaimBodyKeeps(s, t);
    case RenewHandler(id) => RenewBodyKeeps(s, id, t);
    case ReleaseHandler(id) => ReleaseBodyKeeps(s, id, t);
    case InputHandler(id) => InputBodyKeeps(s, id, t);
    case LocalSubmit => LocalSubmitBodyKeeps(s, t);
    case LocalRelease(id) => LocalReleaseBodyKeeps(s, id, t);
    case ArmLocal => ArmBodyKeeps(s, t);
    case SwitchBegin => SwitchBodyKeeps(s, t);
    case _ =>
  }

  lemma GuardedKeeps(s: Runtime, h: Handler, t: Times)
    requires Control(s) && s.gate.Free? && Presentable(s, h)
    requires NeedsStillVideo(h) ==> !s.switching
    requires !h.LocalRelease?
    ensures Control(Guarded(s, h, t))
  {
    ReleaseExpiredKeeps(s, h, Body, t.a);
    if ReleaseExpired(s, h, Body, t.a).1 { HandlerBodyKeeps(s, h, t); }
  }

  lemma EnteredKeeps(s: Runtime, h: Handler, t: Times)
    requires Control(s) && s.gate.Free? && Presentable(s, h)
    ensures Control(Entered(s, h, t))
  {
    match h
    case EmergencyHandler => StartDrainKeeps(s, NO_LEASE, h, Done);
    case InvalidateInput => StartDrainKeeps(s, Expired(MARKED, t.a).0, h, Done);
    case SwitchEnd =>
    case StatusHandler =>
      TransitionKeeps(s, t.a);
      ReleaseExpiredKeeps(s.(lease := Transition(s.lease, t.a)), h, Done, t.b);
    case LeaseWatchdog => ReleaseExpiredKeeps(s, h, Done, t.a);
    case LocalRelease(_) => LocalReleaseKeeps(s, t);
    case _ => if !(NeedsStillVideo(h) && s.switching) { GuardedKeeps(s, h, t); }
  }

  lemma ResumedKeeps(s: Runtime, h: Handler, next: Point, t: Times)
    requires Control(s) && s.gate.Free? && s.lease.id.None? && !s.lease.releaseRequired
    requires NeedsStillVideo(h) ==> !s.switching
    requires next.Retry? ==> h.ClaimHandler? && !s.armed
    ensures Control(Resumed(s, h, next, t))
  {
    match next
    case Body => HandlerBodyKeeps(s, h, t);
    case Retry => ClaimOnceKeeps(s, t.b);
    case Done =>
  }

  // ----- The confirmed release -----

  lemma FinalReleaseIsQuiet(s: Runtime, x: nat)
    requires Control(s) && DrainAcked(s) && x == s.wire.lock.value.first
    requires NothingHeld(s.wire.pico)
    requires s.wire.log != [] && s.wire.log[|s.wire.log| - 1].x == x
    requires forall i :: 0 <= i < |s.wire.forward| ==> s.wire.forward[i] == Noise || s.wire.forward[i] == Line(x)
    ensures var r := Confirmed(s); Quiet(r.wire, r.admitted, r.confirms) && ConfirmsFit(r.wire, r.confirms)
  {
    var r := Confirmed(s);
    assert IssueFits(s.wire.issued[x], s.granted);
    forall i: nat, lease: nat | LeaseAt(r.wire, i, lease) ensures ReleasedAfter(i, r.confirms, |r.wire.log|) {
      assert i != |s.wire.log| - 1;
      assert |s.wire.log| in r.confirms;
    }
  }

  /** When the gate holder's release is acknowledged, every lease that has ended is
      over without trace. */
  lemma ConfirmedIsQuiet(s: Runtime)
    requires Inv(s) && DrainAcked(s)
    ensures var r := Confirmed(s); Quiet(r.wire, r.admitted, r.confirms) && ConfirmsFit(r.wire, r.confirms)
  {
    var x := s.wire.lock.value.first;
    assert IssueFits(s.wire.issued[x], s.granted);
    WireTheorems.ReleaseIsFinal(s.wire);
    FinalReleaseIsQuiet(s, x);
  }

  lemma MoreConfirmsKeepGrants(w: System, grants: seq<nat>, confirms: set<nat>, c: nat)
    requires GrantsFit(w, grants, confirms)
    ensures GrantsFit(w, grants, confirms + {c})
  {
    forall i: nat, lease: nat, g: nat | LeaseAt(w, i, lease) && lease < g < |grants|
      ensures ReleasedAfter(i, confirms + {c}, grants[g])
    {
      var d :| d in confirms && i + 1 < d <= grants[g];
      assert d in confirms + {c};
    }
  }

  lemma QuietControl(s: Runtime)
    requires Control(s) && DrainAcked(s)
    requires var r := Confirmed(s);
      Quiet(r.wire, r.admitted, r.confirms) && ConfirmsFit(r.wire, r.confirms) && GrantsFit(r.wire, r.grants, r.confirms)
    ensures Control(Confirmed(s))
  {
    var r := Confirmed(s);
    assert forall i: nat, id: nat :: LeaseAt(r.wire, i, id) ==> LeaseAt(s.wire, i, id);
  }

  lemma ConfirmedKeeps(s: Runtime)
    requires Inv(s) && DrainAcked(s)
    ensures Control(Confirmed(s))
  {
    ConfirmedIsQuiet(s);
    ConfirmedKeepsGrants(s);
    QuietControl(s);
  }

  lemma ConfirmedKeepsGrants(s: Runtime)
    requires Control(s) && DrainAcked(s)
    ensures var r := Confirmed(s); GrantsFit(r.wire, r.grants, r.confirms)
  {
    MoreConfirmsKeepGrants(s.wire, s.grants, s.confirms, |s.wire.log|);
    var r := Confirmed(s);
    assert forall i: nat, id: nat :: LeaseAt(r.wire, i, id) ==> LeaseAt(s.wire, i, id);
  }

  // ----- Steps on the wire -----

  /** A wire step that leaves issued lines, tickets and the Pico's log alone. */
  lemma WireEndingKeeps(s: Runtime, w: System)
    requires Control(s)
    requires w == s.wire.(lock := w.lock, ready := w.ready, generation := w.generation, sid := w.sid, back := w.back)
    requires s.wire.generation <= w.generation
    requires w.lock.None? || w.lock == s.wire.lock
      || (s.wire.lock.Some? && w.lock.value.first == s.wire.lock.value.first && w.lock.value.count == s.wire.lock.value.count)
    ensures Control(s.(wire := w))
  {
    assert forall i: nat, id: nat :: LeaseAt(w, i, id) ==> LeaseAt(s.wire, i, id);
  }

  lemma WireTicketsKeep(s: Runtime, w: System)
    requires Control(s)
    requires w == s.wire.(tickets := w.tickets, sid := w.sid, nextSid := w.nextSid, greeted := w.greeted,
                          sequence := w.sequence, ready := w.ready)
    requires TicketsFit(w.tickets, s.admitted)
    ensures Control(s.(wire := w))
  {
    assert forall i: nat, id: nat :: LeaseAt(w, i, id) ==> LeaseAt(s.wire, i, id);
  }

  lemma RequestFits(s: Runtime, step: Step)
    requires Control(s) && CanStep(s, OnWire(step)) && step.Request?
    ensures Control(s.(wire := Apply(s.wire, step)))
  {
    WireTicketsKeep(s, Apply(s.wire, step));
  }

  lemma OpenSessionFits(s: Runtime, step: Step)
    requires Control(s) && CanStep(s, OnWire(step)) && step.OpenSession?
    ensures Control(s.(wire := Apply(s.wire, step)))
  {
    WireTicketsKeep(s, Apply(s.wire, step));
  }

  lemma RefuseFits(s: Runtime, step: Step)
    requires Control(s) && CanStep(s, OnWire(step)) && step.Refuse?
    ensures Control(s.(wire := Apply(s.wire, step)))
  {
    WireTicketsKeep(s, Apply(s.wire, step));
  }

  lemma AcquireFitsIssued(s: Runtime, t: Ticket)
    requires Control(s) && Enabled(s.wire, Acquire(t))
    ensures var w := Acquired(s.wire, t);
      && IssuedFits(w.issued, s.granted, w.lock)
      && (t.lease.Some? ==> t.lease.value + 1 == s.granted && !Settled(s))
      && Latest(w.forward, w.lock, w.issued, s.granted)
  {
    var w := Acquired(s.wire, t);
    assert TicketFits(t, s.admitted);
    assert forall x :: 0 <= x < |s.wire.issued| ==> w.issued[x] == s.wire.issued[x];
    assert forall x :: |s.wire.issued| <= x < |w.issued| ==>
      w.issued[x] == Entries(t, s.wire.turns)[x - |s.wire.issued|];
  }

  ghost predicate LogWithin(w: System) {
    forall i :: 0 <= i < |w.log| ==> w.log[i].x < |w.issued|
  }

  lemma AcquireFits(s: Runtime, t: Ticket)
    requires Control(s) && Enabled(s.wire, Acquire(t)) && LogWithin(s.wire)
    ensures Control(s.(wire := Acquired(s.wire, t)))
  {
    AcquireFitsIssued(s, t);
    var w := Acquired(s.wire, t);
    assert forall x :: 0 <= x < |s.wire.issued| ==> w.issued[x] == s.wire.issued[x];
    assert forall x :: |s.wire.issued| <= x < |w.issued| ==> w.issued[x].lease == t.lease;
    assert forall i: nat, id: nat :: LeaseAt(w, i, id) <==> LeaseAt(s.wire, i, id);
  }

  /** A step that only gives the Pico's queue lines it had or lines of the lock holder. */
  lemma QueueFits(s: Runtime, w: System)
    requires Control(s)
    requires w == s.wire.(forward := w.forward, lock := w.lock)
    requires w.lock == s.wire.lock
      || (s.wire.lock.Some? && w.lock == Some(s.wire.lock.value.(attempt := s.wire.lock.value.attempt + 1)))
    requires forall x: nat :: Line(x) in w.forward ==>
      Line(x) in s.wire.forward || (s.wire.lock.Some? && s.wire.lock.value.first <= x)
    ensures Control(s.(wire := w))
  {
    assert forall i: nat, id: nat :: LeaseAt(w, i, id) <==> LeaseAt(s.wire, i, id);
  }

  lemma QueueStepFits(s: Runtime, step: Step)
    requires Control(s) && Enabled(s.wire, step) && (step.Send? || step.Lose? || step.Mangle?)
    ensures Control(s.(wire := Apply(s.wire, step)))
  {
    QueueFits(s, Apply(s.wire, step));
  }

  /** The Pico consumes or changes on its own, executing nothing for a lease. */
  lemma PicoIdleFits(s: Runtime, w: System)
    requires Control(s)
    requires w == s.wire.(forward := w.forward, back := w.back, pico := w.pico, seen := w.seen, cached := w.cached)
    requires forall x: nat :: Line(x) in w.forward ==> Line(x) in s.wire.forward
    requires NothingHeld(s.wire.pico) && Quiet(s.wire, s.admitted, s.confirms) ==> NothingHeld(w.pico)
    ensures Control(s.(wire := w))
  {
    assert forall i: nat, id: nat :: LeaseAt(w, i, id) <==> LeaseAt(s.wire, i, id);
  }

  lemma LogGrows(w: System, r: System, e: Event, grants: seq<nat>, confirms: set<nat>)
    requires GrantsFit(w, grants, confirms) && ConfirmsFit(w, confirms)
    requires r.issued == w.issued && r.log == w.log + [e] && e.x < |w.issued|
    requires w.issued[e.x].lease.Some? ==> w.issued[e.x].lease.value + 1 == |grants|
    ensures GrantsFit(r, grants, confirms) && ConfirmsFit(r, confirms)
  {
    assert forall i: nat, id: nat :: i < |w.log| ==> (LeaseAt(r, i, id) <==> LeaseAt(w, i, id));
    assert forall i :: 0 <= i < |w.log| ==> r.log[i] == w.log[i];
  }

  lemma QuietGrows(w: System, r: System, e: Event, admitted: set<(Lease, nat)>, confirms: set<nat>)
    requires Quiet(w, admitted, confirms)
    requires r == w.(forward := r.forward, back := r.back, pico := r.pico, seen := r.seen, cached := r.cached, log := w.log + [e])
    requires e.x < |w.issued| && w.issued[e.x].lease.None? && NothingHeld(r.pico)
    requires forall x: nat :: Line(x) in r.forward ==> Line(x) in w.forward
    ensures Quiet(r, admitted, confirms)
  {
    forall i: nat, id: nat | LeaseAt(r, i, id) ensures ReleasedAfter(i, confirms, |r.log|) {
      assert LeaseAt(w, i, id);
      var c :| c in confirms && i + 1 < c <= |w.log|;
    }
  }

  lemma ExecutionFits(s: Runtime, w: System, e: Event)
    requires Control(s)
    requires w == s.wire.(forward := w.forward, back := w.back, pico := w.pico, seen := w.seen, cached := w.cached,
                          log := s.wire.log + [e])
    requires e.x < |s.wire.issued| && Line(e.x) in s.wire.forward
    requires forall x: nat :: Line(x) in w.forward ==> Line(x) in s.wire.forward
    requires NothingHeld(s.wire.pico) && Harmless(s.wire.issued[e.x].command.op) ==> NothingHeld(w.pico)
    ensures Control(s.(wire := w))
  {
    LogGrows(s.wire, w, e, s.grants, s.confirms);
    assert IssueFits(s.wire.issued[e.x], s.granted);
    if Settled(s) { QuietGrows(s.wire, w, e, s.admitted, s.confirms); }
  }

  lemma TakenLineFits(s: Runtime, x: nat, o: Oracle)
    requires Control(s) && s.wire.forward != [] && s.wire.forward[0] == Line(x) && x < |s.wire.issued|
    ensures Control(s.(wire := TakenLine(s.wire, x, o)))
  {
    var w := TakenLine(s.wire, x, o);
    var c := s.wire.issued[x].command;
    var execution := Handle(s.wire.pico, c, o).2;
    assert Line(x) in s.wire.forward;
    assert IssueFits(s.wire.issued[x], s.granted);
    if NothingHeld(s.wire.pico) && Harmless(c.op) { OnlyPressesHold(s.wire.pico, c, o); }
    if execution.Executed? {
      ExecutionFits(s, w, Event(x, execution.done, execution.typed));
    } else {
      PicoIdleFits(s, w);
    }
  }

  lemma PicoStepFits(s: Runtime, step: Step)
    requires Control(s) && Enabled(s.wire, step)
    requires step.PicoTakes? || step.PicoTimers? || step.PicoRestarts?
    ensures Control(s.(wire := Apply(s.wire, step)))
  {
    if step.PicoTakes? && s.wire.forward[0].Line? {
      TakenLineFits(s, s.wire.forward[0].x, step.o);
    } else {
      PicoIdleFits(s, Apply(s.wire, step));
    }
  }

  lemma EndingStepFits(s: Runtime, step: Step)
    requires Control(s) && Enabled(s.wire, step)
    requires step.Finish? || step.Abandon? || step.Fault? || step.Teardown? || step.LoseBack?
    ensures Control(s.(wire := Apply(s.wire, step)))
  {
    WireEndingKeeps(s, Apply(s.wire, step));
  }

  lemma DeliverFits(s: Runtime)
    requires Control(s) && Enabled(s.wire, Deliver)
    ensures Control(s.(wire := Apply(s.wire, Deliver)))
  {
    WireEndingKeeps(s, Apply(s.wire, Deliver));
  }

  lemma GatewayStepFits(s: Runtime, step: Step)
    requires Control(s) && CanStep(s, OnWire(step)) && LogWithin(s.wire)
    requires step.OpenSession? || step.Request? || step.Refuse? || step.Acquire? || step.Deliver?
    ensures Control(s.(wire := Apply(s.wire, step)))
  {
    match step
    case OpenSession(_) => OpenSessionFits(s, step);
    case Request(_, _, _, _) => RequestFits(s, step);
    case Refuse(_) => RefuseFits(s, step);
    case Acquire(t) => AcquireFits(s, t);
    case Deliver => DeliverFits(s);
  }

  lemma WireStepFits(s: Runtime, step: Step)
    requires Control(s) && CanStep(s, OnWire(step)) && LogWithin(s.wire)
    ensures Control(s.(wire := Apply(s.wire, step)))
  {
    if step.OpenSession? || step.Request? || step.Refuse? || step.Acquire? || step.Deliver? {
      GatewayStepFits(s, step);
    } else if step.Send? || step.Lose? || step.Mangle? {
      QueueStepFits(s, step);
    } else if step.PicoTakes? || step.PicoTimers? || step.PicoRestarts? {
      PicoStepFits(s, step);
    } else {
      EndingStepFits(s, step);
    }
  }
}
