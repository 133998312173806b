/** Public commands get somewhere: an accepted command can run to its end, and what has ended
    stays ended (gateway/noob_gateway/serial_link.py). */
module LinkProgress {
  import opened Options
  import opened Pico
  import opened Wire
  import opened Commands
  import opened Link
  import opened LinkSafety
  import opened LinkTheorems
  import opened Runs
  import WireSafety
  import WireTheorems
  import WireProgress

  // ----- Endings -----

  predicate Ends(step: LinkStep, id: nat) {
    match step
    case Complete(i) => i == id
    case Interrupt(i) => i == id
    case GroupRefused(i, _) => i == id
    case GroupAbandoned(i) => i == id
    case _ => false
  }

  /** Only a command all of whose exchanges were acknowledged succeeds; every other way to end
      is a failure. Either way the public lock is not the command's any more, a lock held by
      another command and all other commands stay as they are, and the Pico is not touched. */
  lemma EndsAsItWent(s: Link, step: LinkStep, id: nat)
    requires CanStep(s, step) && Ends(step, id)
    ensures var r := StepTo(s, step); var c := s.commands[id];
      && |r.commands| == |s.commands|
      && (forall other :: 0 <= other < |s.commands| && other != id ==> r.commands[other] == s.commands[other])
      && r.commands[id] == c.(phase := r.commands[id].phase)
      && (r.commands[id].phase.Succeeded? <==> c.phase.Between? && c.acked == |Groups(c.logical)| && step.Complete?)
      && Over(r.commands[id])
      && r.holder != Some(id) && (s.holder != Some(id) ==> r.holder == s.holder)
      && r.wire.log == s.wire.log && r.wire.pico == s.wire.pico && r.wire.forward == s.wire.forward
  {
  }

  lemma StepLeavesOver(s: Link, step: LinkStep, id: nat)
    requires TicketsFit(s.wire.tickets, s.commands) && LockFits(s.wire.lock, s.wire.issued, s.commands)
    requires CanStep(s, step) && id < |s.commands| && Over(s.commands[id])
    ensures id < |StepTo(s, step).commands| && StepTo(s, step).commands[id] == s.commands[id]
  {
  }

  ghost predicate StillOver(id: nat, c: PublicCommand, s: Link) {
    Inv(s) && id < |s.commands| && s.commands[id] == c && Over(c)
  }

  lemma OverStays(s: Link, r: Link, id: nat)
    requires Reachable(s) && id < |s.commands| && Over(s.commands[id]) && Follows(Next, s, r)
    ensures StillOver(id, s.commands[id], r)
  {
    ReachableInv(s);
    EveryStepKeeps();
    var c := s.commands[id];
    forall m: Link, t: Link | StillOver(id, c, m) && Next(m, t) ensures StillOver(id, c, t) {
      var step :| CanStep(m, step) && t == StepTo(m, step);
      StepLeavesOver(m, step, id);
    }
    FollowsKeeps(Next, (t: Link) => StillOver(id, c, t), s, r);
  }

  lemma LineIsOld(c: PublicCommand, id: nat, issued: seq<Issue>, later: seq<Issue>, x: nat)
    requires Placed(c, id, issued) && Placed(c, id, later) && OwnedBy(later, x, id)
    ensures x < |issued|
  {
    var k: nat :| InGroup(c, k, x);
    assert OwnedBy(issued, x, id);
  }

  /** What has ended stays ended: in every later state the command has the outcome it had, and
      no line of it takes the wire any more. */
  lemma EndingsAreFinal(s: Link, r: Link, id: nat, x: nat)
    requires Reachable(s) && id < |s.commands| && Over(s.commands[id]) && Follows(Next, s, r)
    ensures id < |r.commands| && r.commands[id] == s.commands[id]
    ensures OwnedBy(r.wire.issued, x, id) ==> x < |s.wire.issued|
  {
    ReachableInv(s);
    OverStays(s, r, id);
    if OwnedBy(r.wire.issued, x, id) { LineIsOld(s.commands[id], id, s.wire.issued, r.wire.issued, x); }
  }

  // ----- The session underneath -----

  lemma StepOnWire(s: Link, step: LinkStep)
    requires CanStep(s, step)
    ensures StepTo(s, step).wire == s.wire || WireTheorems.Next(s.wire, StepTo(s, step).wire)
  {
    match step
    case QueueGroup(id) => assert Enabled(s.wire, RequestOf(s, id));
    case GroupTakesWire(id, t) => assert Enabled(s.wire, Acquire(t));
    case GroupAcked(id) => assert Enabled(s.wire, Finish(false));
    case GroupRefused(id, t) => assert Enabled(s.wire, Refuse(t));
    case GroupAbandoned(id) => assert Enabled(s.wire, Abandon);
    case OnWire(w) => assert Enabled(s.wire, w);
    case _ =>
  }

  /** Whatever is true of every reachable session is true of the session under the commands. */
  lemma WireReachable(s: Link)
    requires Reachable(s)
    ensures WireTheorems.Reachable(s.wire)
  {
    assert Leads(WireTheorems.Next, INITIAL, INITIAL, 0);
    forall m: Link, t: Link | WireTheorems.Reachable(m.wire) && Next(m, t) ensures WireTheorems.Reachable(t.wire) {
      var step :| CanStep(m, step) && t == StepTo(m, step);
      StepOnWire(m, step);
      if t.wire != m.wire {
        FollowsOne(WireTheorems.Next, m.wire, t.wire);
        WireProgress.ReachesOn(m.wire, t.wire);
      }
    }
    FollowsKeeps(Next, (t: Link) => WireTheorems.Reachable(t.wire), START, s);
  }

  lemma ReachesOn(s: Link, r: Link)
    requires Reachable(s) && Follows(Next, s, r)
    ensures Reachable(r)
  {
    FollowsOn(Next, START, s, r);
  }

  lemma StepFollows(s: Link, step: LinkStep)
    requires Reachable(s) && CanStep(s, step)
    ensures Follows(Next, s, StepTo(s, step)) && Reachable(StepTo(s, step))
  {
    FollowsOne(Next, s, StepTo(s, step));
    ReachesOn(s, StepTo(s, step));
  }

  lemma TripOnWire(s: Link, o: Oracle)
    requires s.wire.forward != [] && s.wire.forward[0].Line? && s.wire.forward[0].x < |s.wire.issued|
    ensures Follows(Next, s, s.(wire := WireProgress.Trip(s.wire, o)))
  {
    var t := StepTo(s, OnWire(PicoTakes(o)));
    var r := StepTo(t, OnWire(Deliver));
    FollowsOne(Next, s, t);
    FollowsOne(Next, t, r);
    FollowsOn(Next, s, t, r);
  }

  lemma {:induction false} DrainOnWire(s: Link, o: Oracle)
    ensures Follows(Next, s, s.(wire := WireProgress.Drained(s.wire, o)))
    ensures WireProgress.Drained(s.wire, o).sequence == s.wire.sequence
    decreases |s.wire.forward|
  {
    if s.wire.forward == [] || !s.wire.forward[0].Line? || s.wire.forward[0].x >= |s.wire.issued| {
      assert Leads(Next, s, s, 0);
    } else {
      var t := s.(wire := WireProgress.Trip(s.wire, o));
      TripOnWire(s, o);
      DrainOnWire(t, o);
      FollowsOn(Next, s, t, t.(wire := WireProgress.Drained(t.wire, o)));
    }
  }

  // ----- One exchange of a command -----

  predicate Free(w: System) { WireProgress.Calm(w) && w.ready }

  lemma RequestMayTakeWire(w: System, ops: seq<Op>, lease: Option<Lease>, stamp: nat, owner: Owner) returns (t: Ticket)
    requires Enabled(w, Request(ops, lease, Some(stamp), owner)) && Free(w) && stamp == w.generation
    ensures var v := Apply(w, Request(ops, lease, Some(stamp), owner));
      && Enabled(v, Acquire(t)) && t.owner == owner && t.ops == ops && Free(v) && v.issued == w.issued
      && v.generation == w.generation && v.sequence == w.sequence + |ops|
  {
    t := Ticket(w.sid.value, w.sequence + 1, ops, lease, Some(stamp), owner);
  }

  /** The exchange is queued behind nothing, and its ticket may take the wire. */
  lemma GroupIsQueued(s: Link, id: nat) returns (q: Link, t: Ticket)
    requires Reachable(s) && CanStep(s, QueueGroup(id)) && Free(s.wire)
    ensures Follows(Next, s, q) && Reachable(q) && Free(q.wire) && CanStep(q, GroupTakesWire(id, t))
    ensures q.commands == s.commands[id := s.commands[id].(phase := Sending)] && q.holder == s.holder
    ensures q.wire.issued == s.wire.issued && q.wire.generation == s.wire.generation
    ensures q.wire.sequence == s.wire.sequence + |Groups(s.commands[id].logical)[s.commands[id].acked]|
  {
    var c := s.commands[id];
    t := RequestMayTakeWire(s.wire, Groups(c.logical)[c.acked], c.lease, c.stamp, CommandOwner(id));
    q := StepTo(s, QueueGroup(id));
    StepFollows(s, QueueGroup(id));
  }

  /** The exchange of a command has been acknowledged and holds the wire still. */
  predicate Served(w: System, id: nat) {
    && Enabled(w, Finish(false)) && w.issued[w.lock.value.first].owner == CommandOwner(id)
    && w.forward == [] && w.back == [] && w.pico.active == w.sid && w.ready && w.sid.Some?
  }

  lemma AnsweredIsServed(w: System, id: nat, t: Ticket, r: System)
    requires r.lock.Some? && Acked(r.lock.value) && r.lock.value.first == |w.issued| && |t.ops| > 0
    requires r.issued == w.issued + Entries(t, w.turns) && t.owner == CommandOwner(id) && w.sid.Some?
    requires r.forward == [] && r.back == [] && r.pico.active == r.sid && r.ready && r.sid == w.sid
    ensures Served(r, id)
  {
    assert r.issued[|w.issued|] == Entries(t, w.turns)[0];
  }

  lemma StillFree(w: System, t: Ticket, r: System)
    requires Free(w) && w.sid.Some? && WireProgress.QuietLike(Acquired(w, t), r)
    ensures r.issued == w.issued + Entries(t, w.turns) && r.forward == [] && r.back == []
    ensures r.pico.active == r.sid && r.ready && r.sid == w.sid && r.generation == w.generation
  {
  }

  lemma WireServes(w: System, id: nat, t: Ticket, o: Oracle) returns (r: System)
    requires WireTheorems.Reachable(w) && Enabled(w, Acquire(t)) && t.owner == CommandOwner(id) && Free(w) && !o.fails
    ensures Enabled(Acquired(w, t), Send) && r == WireProgress.Drained(Apply(Acquired(w, t), Send), o)
    ensures Served(r, id) && r.generation == w.generation
  {
    r := WireProgress.TicketIsServed(w, t, o);
    StillFree(w, t, r);
    AnsweredIsServed(w, id, t, r);
  }

  lemma TicketIsWritten(q: Link, id: nat, t: Ticket) returns (b: Link)
    requires Reachable(q) && CanStep(q, GroupTakesWire(id, t)) && Enabled(Acquired(q.wire, t), Send)
    ensures Follows(Next, q, b) && b.wire == Apply(Acquired(q.wire, t), Send) && b.holder == q.holder
    ensures b.commands == q.commands[id := q.commands[id].(starts := q.commands[id].starts + [|q.wire.issued|])]
  {
    var g := StepTo(q, GroupTakesWire(id, t));
    b := StepTo(g, OnWire(Send));
    FollowsOne(Next, q, g);
    FollowsOne(Next, g, b);
    FollowsOn(Next, q, g, b);
  }

  lemma GroupIsServed(q: Link, id: nat, t: Ticket, o: Oracle) returns (a: Link)
    requires Reachable(q) && CanStep(q, GroupTakesWire(id, t)) && Free(q.wire) && !o.fails
    ensures Follows(Next, q, a) && Reachable(a) && Served(a.wire, id) && a.holder == q.holder
    ensures a.commands == q.commands[id := q.commands[id].(starts := q.commands[id].starts + [|q.wire.issued|])]
    ensures a.wire.generation == q.wire.generation && a.wire.sequence == q.wire.sequence
  {
    WireReachable(q);
    var w := WireServes(q.wire, id, t, o);
    var b := TicketIsWritten(q, id, t);
    DrainOnWire(b, o);
    a := b.(wire := w);
    FollowsOn(Next, q, b, a);
    ReachesOn(q, a);
  }

  function Advanced(c: PublicCommand, first: nat): PublicCommand {
    c.(starts := c.starts + [first], acked := c.acked + 1, phase := Between)
  }

  lemma GroupIsAcked(a: Link, id: nat) returns (r: Link)
    requires Reachable(a) && Served(a.wire, id) && id < |a.commands|
    ensures Follows(Next, a, r) && Reachable(r) && Free(r.wire) && r.wire.sid.Some? && r.holder == a.holder
    ensures r.commands == a.commands[id := a.commands[id].(acked := a.commands[id].acked + 1, phase := Between)]
    ensures r.wire.generation == a.wire.generation && r.wire.sequence == a.wire.sequence
  {
    r := StepTo(a, GroupAcked(id));
    StepFollows(a, GroupAcked(id));
  }

  lemma StartedThenAcked(commands: seq<PublicCommand>, id: nat, first: nat)
    requires id < |commands|
    ensures var sent := commands[id := commands[id].(starts := commands[id].starts + [first])];
      sent[id := sent[id].(acked := sent[id].acked + 1, phase := Between)] == commands[id := Advanced(commands[id], first)]
  {
  }

  lemma GroupIsSent(q: Link, id: nat, t: Ticket, o: Oracle) returns (r: Link)
    requires Reachable(q) && CanStep(q, GroupTakesWire(id, t)) && Free(q.wire) && !o.fails
    ensures Follows(Next, q, r) && Reachable(r) && Free(r.wire) && r.wire.sid.Some? && r.holder == q.holder
    ensures r.commands == q.commands[id := Advanced(q.commands[id], |q.wire.issued|)]
    ensures r.wire.generation == q.wire.generation && r.wire.sequence == q.wire.sequence
  {
    var a := GroupIsServed(q, id, t, o);
    r := GroupIsAcked(a, id);
    StartedThenAcked(q.commands, id, |q.wire.issued|);
    FollowsOn(Next, q, a, r);
  }

  lemma AdvancedInPlace(commands: seq<PublicCommand>, id: nat, first: nat)
    requires id < |commands|
    ensures var queued := commands[id := commands[id].(phase := Sending)];
      queued[id := Advanced(queued[id], first)] == commands[id := Advanced(commands[id], first)]
  {
  }

  lemma GroupGoesThrough(s: Link, id: nat, o: Oracle) returns (r: Link)
    requires Reachable(s) && CanStep(s, QueueGroup(id)) && Free(s.wire) && !o.fails
    ensures Follows(Next, s, r) && Reachable(r) && Free(r.wire) && r.wire.sid.Some? && r.holder == s.holder
    ensures r.commands == s.commands[id := Advanced(s.commands[id], |s.wire.issued|)]
    ensures r.wire.generation == s.wire.generation
    ensures r.wire.sequence == s.wire.sequence + |Groups(s.commands[id].logical)[s.commands[id].acked]|
  {
    var q, t := GroupIsQueued(s, id);
    r := GroupIsSent(q, id, t, o);
    AdvancedInPlace(s.commands, id, |s.wire.issued|);
    FollowsOn(Next, s, q, r);
  }

  // ----- A whole command -----

  /** How many lines the exchanges from the `k`-th on still need. */
  function LinesFrom(groups: seq<seq<Op>>, k: nat): nat
    decreases |groups| - k
  {
    if k >= |groups| then 0 else |groups[k]| + LinesFrom(groups, k + 1)
  }

  lemma GroupFits(c: Logical, k: nat)
    requires Submittable(c) && k < |Groups(c)|
    ensures 1 <= |Groups(c)[k]| <= BATCH_LIMIT && Plain(Groups(c)[k])
  {
  }

  lemma IsSubmittable(commands: seq<PublicCommand>, issued: seq<Issue>, log: seq<Event>, id: nat)
    requires AllFit(commands, issued, log) && id < |commands|
    ensures Submittable(commands[id].logical)
  {
    assert CommandFits(commands[id], id, issued, log);
  }

  lemma GroupMayBeQueued(s: Link, id: nat)
    requires Reachable(s) && Free(s.wire) && s.wire.sid.Some? && id < |s.commands| && s.commands[id].phase.Between?
    requires s.commands[id].acked < |Groups(s.commands[id].logical)| && s.commands[id].stamp == s.wire.generation
    requires s.wire.sequence + |Groups(s.commands[id].logical)[s.commands[id].acked]| <= MAX_SEQUENCE
    ensures CanStep(s, QueueGroup(id))
  {
    ReachableInv(s);
    IsSubmittable(s.commands, s.wire.issued, s.wire.log, id);
    GroupFits(s.commands[id].logical, s.commands[id].acked);
  }

  /** The command may go on: it holds the public lock, its stamp is current, the session is
      free, and its numbers last. */
  predicate MayGoOn(s: Link, id: nat) {
    && Free(s.wire) && s.wire.sid.Some? && id < |s.commands| && s.holder == Some(id)
    && var c := s.commands[id];
       && c.phase.Between? && c.acked <= |Groups(c.logical)| && c.stamp == s.wire.generation
       && s.wire.sequence + LinesFrom(Groups(c.logical), c.acked) <= MAX_SEQUENCE
  }

  predicate OthersAlike(s: Link, r: Link, id: nat) {
    && |r.commands| == |s.commands|
    && forall other :: 0 <= other < |s.commands| && other != id ==> r.commands[other] == s.commands[other]
  }

  lemma NextGroup(s: Link, id: nat, o: Oracle) returns (m: Link)
    requires Reachable(s) && MayGoOn(s, id) && s.commands[id].acked < |Groups(s.commands[id].logical)| && !o.fails
    ensures Follows(Next, s, m) && Reachable(m) && MayGoOn(m, id) && OthersAlike(s, m, id)
    ensures m.commands[id].logical == s.commands[id].logical && m.commands[id].acked == s.commands[id].acked + 1
  {
    GroupMayBeQueued(s, id);
    m := GroupGoesThrough(s, id, o);
  }

  lemma {:induction false} GroupsGoThrough(s: Link, id: nat, o: Oracle) returns (r: Link)
    requires Reachable(s) && MayGoOn(s, id) && !o.fails
    ensures Follows(Next, s, r) && Reachable(r) && MayGoOn(r, id) && OthersAlike(s, r, id)
    ensures r.commands[id].logical == s.commands[id].logical
    ensures r.commands[id].acked == |Groups(r.commands[id].logical)|
    decreases |Groups(s.commands[id].logical)| - s.commands[id].acked
  {
    if s.commands[id].acked == |Groups(s.commands[id].logical)| {
      r := s;
      assert Leads(Next, s, s, 0);
    } else {
      var m := NextGroup(s, id, o);
      r := GroupsGoThrough(m, id, o);
      FollowsOn(Next, s, m, r);
    }
  }

  /** What a command asked for has been done, all of it. */
  ghost predicate Fulfilled(s: Link, id: nat)
    requires id < |s.commands|
  {
    var c := s.commands[id];
    match c.logical
    case TypeText(text, _) => TypedFor(s.wire.log, s.wire.issued, id) == text
    case Move(_, _, _, _) =>
      forall axis: Axis :: MovedFor(s.wire.log, s.wire.issued, id, axis) == LinkTheorems.Requested(c.logical, axis)
    case Simple(op) => exists x: nat ::
      OwnedBy(s.wire.issued, x, id) && s.wire.issued[x].command.op == op && WireSafety.Ran(s.wire.log, x)
  }

  lemma SimpleIsDone(c: PublicCommand, id: nat, issued: seq<Issue>, log: seq<Event>) returns (x: nat)
    requires CommandFits(c, id, issued, log) && c.logical.Simple? && c.phase.Succeeded?
    ensures OwnedBy(issued, x, id) && issued[x].command.op == c.logical.op && WireSafety.Ran(log, x)
  {
    x := c.starts[0];
    assert InGroup(c, 0, x);
  }

  /** A command reported as done has been done: success means that the whole text was typed,
      the whole movement made, or the operation executed to its end. */
  lemma SuccessMeansDone(s: Link, id: nat)
    requires Reachable(s) && id < |s.commands| && s.commands[id].phase.Succeeded?
    ensures Fulfilled(s, id)
  {
    ReachableInv(s);
    var c := s.commands[id];
    match c.logical
    case TypeText(_, _) => TextIsTypedInOrder(s, id);
    case Move(_, _, _, _) =>
      forall axis: Axis ensures MovedFor(s.wire.log, s.wire.issued, id, axis) == LinkTheorems.Requested(c.logical, axis) {
        MovementAddsUp(s, id, axis);
      }
    case Simple(_) => var x := SimpleIsDone(c, id, s.wire.issued, s.wire.log);
  }

  lemma LockIsTaken(s: Link, id: nat) returns (r: Link)
    requires Reachable(s) && CanStep(s, TakePublicLock(id))
    ensures Follows(Next, s, r) && Reachable(r) && r.wire == s.wire && r.holder == Some(id)
    ensures r.commands == s.commands[id := s.commands[id].(phase := Between)] && r.commands[id].acked == 0
  {
    ReachableInv(s);
    assert CommandFits(s.commands[id], id, s.wire.issued, s.wire.log);
    r := StepTo(s, TakePublicLock(id));
    StepFollows(s, TakePublicLock(id));
  }

  lemma CompletesWell(s: Link, id: nat) returns (r: Link)
    requires Reachable(s) && CanStep(s, Complete(id)) && s.holder == Some(id)
    ensures Follows(Next, s, r) && Reachable(r) && r.wire == s.wire && r.holder.None?
    ensures r.commands == s.commands[id := s.commands[id].(phase := Succeeded)]
  {
    r := StepTo(s, Complete(id));
    StepFollows(s, Complete(id));
  }

  /** From every reachable state in which the session is open, nothing is on its way, nobody
      holds the public lock and the numbers last, a waiting command whose stamp is current can
      take the lock, send all its exchanges, and end well, with all it asked for done, the lock
      given back, no other command touched and the session as free as before. */
  lemma CommandCanSucceed(s: Link, id: nat, o: Oracle) returns (r: Link)
    requires Reachable(s) && Free(s.wire) && s.wire.sid.Some? && id < |s.commands| && s.commands[id].phase.Waiting?
    requires s.holder.None? && s.commands[id].stamp == s.wire.generation && !o.fails
    requires s.wire.sequence + LinesFrom(Groups(s.commands[id].logical), 0) <= MAX_SEQUENCE
    ensures Follows(Next, s, r) && Free(r.wire) && r.holder.None? && OthersAlike(s, r, id)
    ensures r.commands[id].phase.Succeeded? && r.commands[id].logical == s.commands[id].logical && Fulfilled(r, id)
  {
    var b := LockIsTaken(s, id);
    var e := GroupsGoThrough(b, id, o);
    r := CompletesWell(e, id);
    FollowsOn(Next, s, b, e);
    FollowsOn(Next, s, e, r);
    SuccessMeansDone(r, id);
  }

  /** What is asked for can be had: the same for any command that may be submitted, from its
      submission on. */
  lemma SubmittedCanSucceed(s: Link, logical: Logical, lease: Option<Lease>, o: Oracle) returns (r: Link)
    requires Reachable(s) && Free(s.wire) && s.wire.sid.Some? && s.holder.None? && Submittable(logical) && !o.fails
    requires s.wire.sequence + LinesFrom(Groups(logical), 0) <= MAX_SEQUENCE
    ensures Follows(Next, s, r) && Free(r.wire) && r.holder.None? && |r.commands| == |s.commands| + 1
    ensures s.commands <= r.commands
    ensures var id := |s.commands|;
      r.commands[id].logical == logical && r.commands[id].phase.Succeeded? && Fulfilled(r, id)
  {
    var submit := Submit(logical, lease, s.wire.generation);
    var q := StepTo(s, submit);
    StepFollows(s, submit);
    r := CommandCanSucceed(q, |s.commands|, o);
    FollowsOn(Next, s, q, r);
    assert forall other :: 0 <= other < |s.commands| ==> r.commands[other] == s.commands[other];
  }
}
