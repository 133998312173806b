/** How long a lease lives (gateway/noob_gateway/control_lease.py): over any sequence of
    operations, from the grant or renewal that set the deadline. */
module LeaseTiming {
  import opened Options
  import opened ControlLease

  datatype Op =
    | Claim(id: Lease)
    | Renew(id: Lease)
    | Validate(id: Lease)
    | Release(id: Lease)
    | ExpireIfNeeded
    | ForceClear
    | MarkReleaseRequired
    | Snapshot

  datatype Call = Call(op: Op, at: real)

  /** One operation, and whether it succeeded; for `ExpireIfNeeded` whether a release was due. */
  function Step(l: LeaseState, ttl: real, c: Call): (LeaseState, bool) {
    match c.op
    case Claim(id) => var (r, result) := Claimed(l, c.at, ttl, id); (r, result.Ok?)
    case Renew(id) => var (r, result) := Renewed(l, c.at, ttl, id); (r, result.Ok?)
    case Validate(id) => var (r, result) := Validated(l, c.at, id); (r, result.Ok?)
    case Release(id) => var (r, result) := Released(l, c.at, id); (r, result.Ok?)
    case ExpireIfNeeded => Expired(l, c.at)
    case ForceClear => (NO_LEASE, true)
    case MarkReleaseRequired => (MARKED, true)
    case Snapshot => (Transition(l, c.at), true)
  }

  function After(l: LeaseState, ttl: real, calls: seq<Call>): LeaseState {
    if calls == [] then l else Step(After(l, ttl, calls[..|calls| - 1]), ttl, calls[|calls| - 1]).0
  }

  /** Calls that leave the lease of `id` alone: questions, and whatever others try. */
  predicate LeavesAlone(c: Call, id: Lease) {
    match c.op
    case Claim(other) => other != id
    case Renew(other) => other != id
    case Release(other) => other != id
    case ForceClear => false
    case MarkReleaseRequired => false
    case _ => true
  }

  /** In order of time, from `since` to `upTo`. */
  predicate Between(calls: seq<Call>, since: real, upTo: real) {
    && since <= upTo
    && (forall i :: 0 <= i < |calls| ==> since <= calls[i].at <= upTo)
    && (forall i, j :: 0 <= i < j < |calls| ==> calls[i].at <= calls[j].at)
  }

  predicate NoneHandsOver(calls: seq<Call>) { forall i :: 0 <= i < |calls| ==> !calls[i].op.ExpireIfNeeded? }

  ghost predicate Lives(l: LeaseState, id: Lease, deadline: real) {
    l.id == Some(id) && l.expiresAt == deadline && !l.releaseRequired
  }

  /** The lease is gone for good: another one may be there, but not without the release
      having been handed over. */
  ghost predicate Gone(l: LeaseState, id: Lease, handed: bool) {
    l.id != Some(id) && (!handed ==> l.id.None? && l.releaseRequired)
  }

  lemma OneCall(l: LeaseState, ttl: real, c: Call, id: Lease, deadline: real, handed: bool)
    requires LeavesAlone(c, id) && (Lives(l, id, deadline) || Gone(l, id, handed))
    ensures var r := Step(l, ttl, c).0;
      if Lives(l, id, deadline) && c.at < deadline then Lives(r, id, deadline)
      else Gone(r, id, handed || c.op.ExpireIfNeeded?)
  {
  }

  lemma {:induction false} ManyCalls(l: LeaseState, ttl: real, calls: seq<Call>, id: Lease, deadline: real, since: real, upTo: real)
    requires Lives(l, id, deadline) && Between(calls, since, upTo)
    requires forall i :: 0 <= i < |calls| ==> LeavesAlone(calls[i], id)
    ensures var r := After(l, ttl, calls);
      if calls == [] || calls[|calls| - 1].at < deadline then Lives(r, id, deadline) else Gone(r, id, !NoneHandsOver(calls))
    decreases |calls|
  {
    if calls != [] {
      var front, last := calls[..|calls| - 1], calls[|calls| - 1];
      ManyCalls(l, ttl, front, id, deadline, since, upTo);
      assert forall i :: 0 <= i < |front| ==> front[i] == calls[i] && front[i].at <= last.at;
      var m := After(l, ttl, front);
      var handed := !NoneHandsOver(front);
      OneCall(m, ttl, last, id, deadline, handed);
      assert !NoneHandsOver(calls) <==> handed || last.op.ExpireIfNeeded? by {
        if handed {
          var i :| 0 <= i < |front| && front[i].op.ExpireIfNeeded?;
          assert calls[i].op.ExpireIfNeeded?;
        }
      }
    }
  }

  /** A grant lasts for the time to live from the moment of the claim or of the last
      renewal, and no longer: whatever else is asked, tried or failed meanwhile, the lease
      is valid at a later time exactly if that time is before the deadline. Once it is not,
      a release is owed unless `expire_if_needed` has handed it over. */
  lemma LeaseLastsExactly(l: LeaseState, ttl: real, grant: Call, id: Lease, calls: seq<Call>, at: real)
    requires LeaseOk(l) && ttl > 0.0 && (grant.op == Claim(id) || grant.op == Renew(id)) && Step(l, ttl, grant).1
    requires Between(calls, grant.at, at) && forall i :: 0 <= i < |calls| ==> LeavesAlone(calls[i], id)
    ensures var r := After(Step(l, ttl, grant).0, ttl, calls);
      && (Step(r, ttl, Call(Validate(id), at)).1 <==> at < grant.at + ttl)
      && (at < grant.at + ttl ==> r.id == Some(id) && r.expiresAt == grant.at + ttl)
      && (at >= grant.at + ttl && NoneHandsOver(calls) ==> Step(r, ttl, Call(Validate(id), at)).0.releaseRequired)
  {
    var s := Step(l, ttl, grant).0;
    assert Lives(s, id, grant.at + ttl);
    ManyCalls(s, ttl, calls, id, grant.at + ttl, grant.at, at);
  }

  /** A renewal by its holder in time succeeds, a claim by another one does not, and a
      release by its holder ends the lease without owing one. */
  lemma HolderDecides(l: LeaseState, ttl: real, id: Lease, other: Lease, at: real)
    requires LeaseOk(l) && l.id == Some(id) && at < l.expiresAt
    ensures Step(l, ttl, Call(Renew(id), at)).1 && !Step(l, ttl, Call(Claim(other), at)).1
    ensures Step(l, ttl, Call(Release(id), at)).1
    ensures !Step(Step(l, ttl, Call(Release(id), at)).0, ttl, Call(Validate(id), at)).1
    ensures !Step(Step(l, ttl, Call(Release(id), at)).0, ttl, Call(ExpireIfNeeded, at)).1
    ensures Step(Step(l, ttl, Call(Release(id), at)).0, ttl, Call(Claim(other), at)).1
  {
  }
}
