/** The promises about public commands over whole runs. */
module LinkTheorems {
  import opened Options
  import opened Pico
  import opened Wire
  import opened Commands
  import opened Link
  import opened LinkSafety
  import opened Runs
  import WireSafety
  import WireTheorems

  ghost predicate Next(s: Link, r: Link) {
    exists step :: CanStep(s, step) && r == StepTo(s, step)
  }

  ghost predicate Reachable(s: Link) {
    Follows(Next, START, s)
  }

  ghost predicate Blank(s: Link) {
    && |s.commands| == 0 && s.holder.None? && |s.wire.issued| == 0 && |s.wire.log| == 0
    && s.wire.lock.None? && (forall t :: t !in s.wire.tickets)
  }

  lemma BlankFits(s: Link)
    requires Blank(s)
    ensures Fits(s)
  {
  }

  lemma StartInv()
    ensures Inv(START)
  {
    WireSafety.InitialInv();
    assert Blank(START);
    BlankFits(START);
  }

  /** The wire step under a step of the command layer. */
  lemma WireUnderneath(s: Link, step: LinkStep)
    requires WireSafety.Inv(s.wire) && CanStep(s, step)
    ensures WireSafety.Inv(StepTo(s, step).wire)
  {
    match step
    case QueueGroup(id) => WireSafety.StepKeeps(s.wire, RequestOf(s, id));
    case GroupTakesWire(id, t) => WireSafety.StepKeeps(s.wire, Acquire(t));
    case GroupAcked(id) => WireSafety.StepKeeps(s.wire, Finish(false));
    case GroupRefused(id, t) => WireSafety.StepKeeps(s.wire, Refuse(t));
    case GroupAbandoned(id) => WireSafety.StepKeeps(s.wire, Abandon);
    case OnWire(w) => WireSafety.StepKeeps(s.wire, w);
    case _ =>
  }

  lemma AckedGroupRanOnce(s: Link, x: nat)
    requires WireSafety.Inv(s.wire) && s.wire.lock.Some? && Acked(s.wire.lock.value)
    requires s.wire.lock.value.first <= x < s.wire.lock.value.first + s.wire.lock.value.count
    requires x < |s.wire.issued| && !s.wire.issued[x].command.op.Session?
    ensures DoneOnce(s.wire.log, x)
  {
    WireTheorems.AckedRanOnce(s.wire, x);
    var i :| 0 <= i < |s.wire.log| && s.wire.log[i].x == x && s.wire.log[i].done
      && forall j :: 0 <= j < |s.wire.log| && j != i ==> s.wire.log[j].x != x;
    assert OnlyAt(s.wire.log, x, i);
  }

  lemma GroupRanOnce(s: Link, id: nat, x: nat)
    requires Inv(s) && CanStep(s, GroupAcked(id))
    requires s.wire.lock.value.first <= x < s.wire.lock.value.first + s.wire.lock.value.count
    ensures DoneOnce(s.wire.log, x)
  {
    LineIsPlain(s, id, x);
    AckedGroupRanOnce(s, x);
  }

  lemma LineIsPlain(s: Link, id: nat, x: nat)
    requires Fits(s) && CanStep(s, GroupAcked(id)) && LockFits(s.wire.lock, s.wire.issued, s.commands)
    requires s.wire.lock.value.first <= x < s.wire.lock.value.first + s.wire.lock.value.count
    ensures x < |s.wire.issued| && !s.wire.issued[x].command.op.Session?
  {
    CommandsAt(s, id);
    assert InGroup(s.commands[id], s.commands[id].acked, x);
  }

  lemma GroupAckedKeeps(s: Link, id: nat)
    requires Inv(s) && CanStep(s, GroupAcked(id))
    ensures Fits(StepTo(s, GroupAcked(id)))
  {
    var e := s.wire.lock.value;
    forall x: nat | e.first <= x < e.first + e.count ensures DoneOnce(s.wire.log, x) {
      GroupRanOnce(s, id, x);
    }
    GroupAckedFits(s, id);
  }

  lemma TicketIsShaped(s: Link, t: Ticket)
    requires WireSafety.Inv(s.wire) && t in s.wire.tickets
    ensures WireSafety.TicketShape(t)
  {
  }

  lemma FitsKept(s: Link, step: LinkStep)
    requires Inv(s) && CanStep(s, step)
    ensures Fits(StepTo(s, step))
  {
    match step
    case Submit(logical, lease, stamp) => SubmitFits(s, logical, lease, stamp);
    case TakePublicLock(id) => LockStepFits(s, id, step);
    case QueueGroup(id) => QueueGroupFits(s, id);
    case GroupTakesWire(id, t) => TicketIsShaped(s, t); GroupTakesWireFits(s, id, t);
    case GroupAcked(id) => GroupAckedKeeps(s, id);
    case GroupRefused(id, t) => GroupRefusedFits(s, id, t);
    case GroupAbandoned(id) => GroupAbandonedFits(s, id);
    case Complete(id) => LockStepFits(s, id, step);
    case Interrupt(id) => LockStepFits(s, id, step);
    case OnWire(w) => OnWireFits(s, w);
  }

  lemma EveryStepKeeps()
    ensures Inductive(Next, Inv)
  {
    forall s, r | Inv(s) && Next(s, r) ensures Inv(r) {
      var step :| CanStep(s, step) && r == StepTo(s, step);
      WireUnderneath(s, step);
      FitsKept(s, step);
    }
  }

  lemma ReachableInv(s: Link)
    requires Reachable(s)
    ensures Inv(s)
  {
    StartInv();
    EveryStepKeeps();
    FollowsKeeps(Next, Inv, START, s);
  }

  // ----- Promises -----

  lemma {:induction false} TextOfPrefix(groups: seq<seq<Op>>, n: nat)
    requires n <= |groups|
    ensures TextOf(groups[..n]) <= TextOf(groups)
    decreases |groups| - n
  {
    if n == |groups| {
      assert groups[..n] == groups;
    } else {
      TextOfPrefix(groups, n + 1);
      assert groups[..n + 1][..n] == groups[..n];
    }
  }

  lemma TypedIsPrefixOfChunk(w: System, x: nat)
    requires WireSafety.LogOk(w.log, w.seen, w.issued) && x < |w.issued| && w.issued[x].command.op.Type?
    ensures TypedAs(w.log, w.issued, x) <= w.issued[x].command.op.text
  {
    if i: nat :| i < |w.log| && w.log[i].x == x {
      LoggedOnce(w, i);
      TypedOnce(w.log, w.issued, x, i);
    } else {
      assert Unlogged(w.log, x);
      NothingTyped(w.log, w.issued, x);
    }
  }

  lemma LoggedOnce(w: System, i: nat)
    requires WireSafety.LogOk(w.log, w.seen, w.issued) && i < |w.log|
    requires w.log[i].x < |w.issued| && !w.issued[w.log[i].x].command.op.Session?
    ensures OnlyAt(w.log, w.log[i].x, i)
  {
    forall j | 0 <= j < |w.log| && j != i ensures w.log[j].x != w.log[i].x {
      if j < i { assert w.log[j].x != w.log[i].x; }
    }
  }

  lemma NextChunk(groups: seq<seq<Op>>, n: nat, typed: string)
    requires n < |groups| && |groups[n]| == 1 && groups[n][0].Type? && typed <= groups[n][0].text
    ensures TextOf(groups[..n]) + typed <= TextOf(groups)
  {
    assert groups[..n + 1][..n] == groups[..n];
    TextOfPrefix(groups, n + 1);
    assert TextOf(groups[..n + 1]) == TextOf(groups[..n]) + groups[n][0].text;
  }

  lemma ChunkUnderway(w: System, c: PublicCommand, id: nat)
    requires WireSafety.LogOk(w.log, w.seen, w.issued) && Placed(c, id, w.issued) && Shape(c)
    requires c.logical.TypeText? && |c.starts| > c.acked
    ensures TypedAs(w.log, w.issued, c.starts[c.acked]) <= Groups(c.logical)[c.acked][0].text
  {
    var x := c.starts[c.acked];
    assert InGroup(c, c.acked, x);
    TypedIsPrefixOfChunk(w, x);
  }

  lemma TextSoFar(w: System, c: PublicCommand, id: nat)
    requires WireSafety.LogOk(w.log, w.seen, w.issued)
    requires Shape(c) && Placed(c, id, w.issued) && TextFits(c, id, w.issued, w.log)
    requires c.logical.TypeText?
    ensures TypedFor(w.log, w.issued, id) <= c.logical.text
    ensures c.phase.Succeeded? ==> TypedFor(w.log, w.issued, id) == c.logical.text
  {
    var groups := Groups(c.logical);
    ChunksAreTheText(c.logical.text, c.logical.intervalMs);
    assert TextOf(groups) == c.logical.text;
    if |c.starts| > c.acked {
      ChunkUnderway(w, c, id);
      NextChunk(groups, c.acked, TypedAs(w.log, w.issued, c.starts[c.acked]));
    } else {
      TextOfPrefix(groups, c.acked);
      assert c.phase.Succeeded? ==> groups[..c.acked] == groups;
    }
  }

  /** Typed text: the whole text when the command succeeds, a prefix of it at every
      other time and on every other outcome. */
  lemma TextIsTypedInOrder(s: Link, id: nat)
    requires Reachable(s) && id < |s.commands| && s.commands[id].logical.TypeText?
    ensures TypedFor(s.wire.log, s.wire.issued, id) <= s.commands[id].logical.text
    ensures s.commands[id].phase.Succeeded? ==>
      TypedFor(s.wire.log, s.wire.issued, id) == s.commands[id].logical.text
  {
    ReachableInv(s);
    TextSoFar(s.wire, s.commands[id], id);
  }

  function Requested(c: Logical, axis: Axis): int
    requires c.Move?
  {
    match axis case X => c.dx case Y => c.dy case Wheel => c.wheel
  }

  function SumAlong(ops: seq<Op>, axis: Axis): int {
    match axis case X => SumX(ops) case Y => SumY(ops) case Wheel => SumWheel(ops)
  }

  lemma SumAppends(ops: seq<Op>, n: nat, axis: Axis)
    requires n < |ops|
    ensures SumAlong(ops[..n + 1], axis) == SumAlong(ops[..n], axis) + Along(ops[n], axis)
  {
    assert ops[..n + 1][..n] == ops[..n];
  }

  lemma {:induction false} GroupMoved(w: System, c: PublicCommand, id: nat, n: nat, axis: Axis)
    requires WireSafety.LogOk(w.log, w.seen, w.issued) && CommandFits(c, id, w.issued, w.log)
    requires forall x: nat :: OwnedBy(w.issued, x, id) ==> !w.issued[x].command.op.Session?
    requires c.logical.Move? && c.phase.Succeeded? && n <= |c.logical.reports|
    ensures MovedOver(w.log, w.issued, c.starts[0], n, axis) == SumAlong(c.logical.reports[..n], axis)
  {
    if n > 0 {
      GroupMoved(w, c, id, n - 1, axis);
      var x := c.starts[0] + n - 1;
      assert InGroup(c, 0, x);
      assert WireSafety.Ran(w.log, x);
      var i: nat :| i < |w.log| && w.log[i].x == x && w.log[i].done;
      LoggedOnce(w, i);
      MovedOnce(w.log, w.issued, x, i, axis);
      SumAppends(c.logical.reports, n - 1, axis);
    }
  }

  /** Mouse movement: when the command succeeds, the reports the Pico completed for it
      add up to exactly the requested movement, in whatever order retries ran them. */
  lemma MovementAddsUp(s: Link, id: nat, axis: Axis)
    requires Reachable(s) && id < |s.commands|
    requires s.commands[id].logical.Move? && s.commands[id].phase.Succeeded?
    ensures MovedFor(s.wire.log, s.wire.issued, id, axis) == Requested(s.commands[id].logical, axis)
  {
    ReachableInv(s);
    var c := s.commands[id];
    GroupMoved(s.wire, c, id, |c.logical.reports|, axis);
    assert c.logical.reports[..|c.logical.reports|] == c.logical.reports;
  }

  lemma DistinctOwnersDistinctTurns(w: System, i: nat, j: nat)
    requires WireSafety.IssuedOk(w.issued, w.turns, w.nextSid) && WireSafety.LogOk(w.log, w.seen, w.issued)
    requires i < j < |w.log| && w.log[i].x < |w.issued| && w.log[j].x < |w.issued|
    requires w.issued[w.log[i].x].owner != w.issued[w.log[j].x].owner
    ensures w.log[i].x < w.log[j].x
  {
    var x, y := w.log[i].x, w.log[j].x;
    assert w.issued[x].turn <= w.issued[y].turn;
  }

  /** No other public command runs between two operations of one command. */
  lemma CommandsNeverInterleave(s: Link, i: nat, j: nat, k: nat, id: nat, other: nat)
    requires Reachable(s) && i < j < k < |s.wire.log|
    requires OwnedBy(s.wire.issued, s.wire.log[i].x, id) && OwnedBy(s.wire.issued, s.wire.log[k].x, id)
    requires OwnedBy(s.wire.issued, s.wire.log[j].x, other)
    ensures other == id
  {
    ReachableInv(s);
    var x, y, z := s.wire.log[i].x, s.wire.log[j].x, s.wire.log[k].x;
    if other != id {
      DistinctOwnersDistinctTurns(s.wire, i, j);
      DistinctOwnersDistinctTurns(s.wire, j, k);
    }
  }
}
