/** The promises of the serial session over whole runs, for every interleaving of
    the gateway's exchanges with losses, mangled lines, timers and restarts. */
module WireTheorems {
  import opened Options
  import opened Pico
  import opened Wire
  import opened Runs
  import opened WireSafety

  ghost predicate Next(s: System, r: System) {
    exists step :: Enabled(s, step) && r == Apply(s, step)
  }

  ghost predicate Reachable(s: System) {
    Follows(Next, INITIAL, s)
  }

  lemma NextKeeps(s: System, r: System)
    requires Inv(s) && Next(s, r)
    ensures Inv(r)
  {
    var step :| Enabled(s, step) && r == Apply(s, step);
    StepKeeps(s, step);
  }

  lemma EveryStepKeeps()
    ensures Inductive(Next, Inv)
  {
    forall s, r | Inv(s) && Next(s, r) ensures Inv(r) { NextKeeps(s, r); }
  }

  lemma ReachableInv(s: System)
    requires Reachable(s)
    ensures Inv(s)
  {
    InitialInv();
    EveryStepKeeps();
    FollowsKeeps(Next, Inv, INITIAL, s);
  }

  function CommandAt(s: System, i: nat): Command
    requires i < |s.log| && s.log[i].x < |s.issued|
  {
    s.issued[s.log[i].x].command
  }

  /** At most once: over a lossy link with retransmission, alone or in batches, no
      operation with the same session and number is ever executed twice. */
  lemma AtMostOnce(s: System, i: nat, j: nat)
    requires Reachable(s) && i < j < |s.log|
    ensures s.log[i].x < |s.issued| && s.log[j].x < |s.issued|
    ensures !CommandAt(s, i).op.Session? ==>
      (CommandAt(s, i).sid, CommandAt(s, i).sequence) != (CommandAt(s, j).sid, CommandAt(s, j).sequence)
  {
    ReachableInv(s);
  }

  /** An operation of an old session never runs after one of a newer session. */
  lemma SessionsNeverMix(s: System, i: nat, j: nat)
    requires Reachable(s) && i < j < |s.log|
    ensures s.log[i].x < |s.issued| && s.log[j].x < |s.issued|
    ensures CommandAt(s, i).sid <= CommandAt(s, j).sid
  {
    ReachableInv(s);
  }

  /** A repeated session line starts nothing over: it acts a second time only on a
      Pico that has been restarted since, which holds nothing and remembers nothing. */
  lemma RepeatedSessionIsHarmless(s: System, x: nat, o: Oracle)
    requires Reachable(s) && Enabled(s, PicoTakes(o)) && s.forward[0] == Line(x)
    requires s.issued[x].command.op.Session? && x in s.seen
    ensures var p := s.pico;
      || (Handle(p, s.issued[x].command, o).0 == p && Handle(p, s.issued[x].command, o).2 == Skipped)
      || (p.active.None? && p.cache == [] && NothingHeld(p))
  {
    ReachableInv(s);
    assert Live(x, s.forward, s.lock);
    if x in s.cached { LookupFinds(s, x); }
  }

  /** A Pico without a session holds nothing, and its record covers what it holds. */
  lemma IdlePicoHoldsNothing(s: System)
    requires Reachable(s)
    ensures s.pico.active.None? ==> NothingHeld(s.pico)
    ensures s.pico.keysDown <= s.pico.heldKeys.Keys && s.pico.buttonsDown <= s.pico.heldButtons.Keys
    ensures |s.pico.cache| <= RESPONSE_CACHE_SIZE
  {
    ReachableInv(s);
  }

  ghost predicate RanOnce(s: System, x: nat) {
    exists i :: 0 <= i < |s.log| && s.log[i].x == x && s.log[i].done
      && forall j :: 0 <= j < |s.log| && j != i ==> s.log[j].x != x
  }

  lemma AckedRanOnce(s: System, x: nat)
    requires Inv(s) && s.lock.Some? && Acked(s.lock.value)
    requires s.lock.value.first <= x < s.lock.value.first + s.lock.value.count
    ensures x < |s.issued|
    ensures Ran(s.log, x)
    ensures !s.issued[x].command.op.Session? ==> RanOnce(s, x)
  {
    assert s.lock.value.answers[x];
    var i :| 0 <= i < |s.log| && s.log[i].x == x && s.log[i].done;
    if !s.issued[x].command.op.Session? {
      forall j | 0 <= j < |s.log| && j != i ensures s.log[j].x != x {
        if j < i { assert s.log[j].x != x; }
      }
    }
  }

  /** An exchange that returns to its caller with every acknowledgement ran each of
      its operations to the end, exactly once. */
  lemma AcknowledgedExactlyOnce(s: System, x: nat)
    requires Reachable(s) && s.lock.Some? && Acked(s.lock.value)
    requires s.lock.value.first <= x < s.lock.value.first + s.lock.value.count
    ensures x < |s.issued|
    ensures Ran(s.log, x)
    ensures !s.issued[x].command.op.Session? ==> RanOnce(s, x)
  {
    ReachableInv(s);
    AckedRanOnce(s, x);
  }

  /** When the exchange of a lone `release_all` ends acknowledged, the Pico holds
      nothing, that release is the last thing it executed, and the queue carries
      nothing but copies of it. */
  lemma AcknowledgedReleaseIsFinal(s: System)
    requires Reachable(s) && s.lock.Some? && Acked(s.lock.value) && s.lock.value.count == 1
    requires s.lock.value.first < |s.issued| && s.issued[s.lock.value.first].command.op.ReleaseAll?
    ensures NothingHeld(s.pico)
    ensures s.log != [] && s.log[|s.log| - 1].x == s.lock.value.first
    ensures forall i :: 0 <= i < |s.forward| ==> s.forward[i] == Noise || s.forward[i] == Line(s.lock.value.first)
  {
    ReachableInv(s);
    ReleaseIsFinal(s);
  }

  lemma OnlyTheReleaseIsLatest(s: System, x: nat, y: nat)
    requires IssuedOk(s.issued, s.turns, s.nextSid) && LastRelease(x, s.issued, s.turns)
    requires y < |s.issued| && s.issued[x].turn <= s.issued[y].turn
    ensures y == x
  {
  }

  lemma ReleaseIsFinal(s: System)
    requires Inv(s) && s.lock.Some? && Acked(s.lock.value) && s.lock.value.count == 1
    requires s.lock.value.first < |s.issued| && s.issued[s.lock.value.first].command.op.ReleaseAll?
    ensures NothingHeld(s.pico)
    ensures s.log != [] && s.log[|s.log| - 1].x == s.lock.value.first
    ensures forall i :: 0 <= i < |s.forward| ==> s.forward[i] == Noise || s.forward[i] == Line(s.lock.value.first)
  {
    var x := s.lock.value.first;
    assert s.lock.value.answers[x];
    RanWasSeen(s, x);
    assert LastRelease(x, s.issued, s.turns);
    var k :| 0 <= k < |s.log| && s.log[k].x == x && s.log[k].done;
    var last := s.log[|s.log| - 1].x;
    OnlyTheReleaseIsLatest(s, x, last);
    forall i | 0 <= i < |s.forward| && s.forward[i].Line? ensures s.forward[i] == Line(x) {
      assert Line(s.forward[i].x) in s.forward;
      OnlyTheReleaseIsLatest(s, x, s.forward[i].x);
    }
  }

  /** What a later state may have added since: only entries stamped with the current
      or a newer generation, and the queue carries only what it carried or those entries. */
  ghost predicate Newer(s: System, r: System) {
    && s.generation <= r.generation
    && s.issued <= r.issued
    && (forall x :: |s.issued| <= x < |r.issued| ==>
          r.issued[x].stamp.None? || s.generation <= r.issued[x].stamp.value)
    && (r.lock.Some? ==> |s.issued| <= r.lock.value.first)
    && (forall i :: 0 <= i < |r.forward| && r.forward[i].Line? ==>
          r.forward[i] in s.forward || |s.issued| <= r.forward[i].x)
  }

  lemma NewerQueue(s: System, r: System, forward: seq<Slot>)
    requires Newer(s, r)
    requires forall i :: 0 <= i < |forward| && forward[i].Line? ==>
      forward[i] in r.forward || |s.issued| <= forward[i].x
    ensures Newer(s, r.(forward := forward))
  {
  }

  lemma NewerAfterQueueStep(s: System, r: System, step: Step)
    requires Newer(s, r) && Enabled(r, step)
    requires step.Lose? || step.Mangle? || step.Send? || step.PicoTakes?
    ensures Newer(s, Apply(r, step))
  {
    var forward := Apply(r, step).forward;
    if step.Lose? {
      assert forall i :: 0 <= i < |forward| ==> forward[i] == r.forward[if i < step.i then i else i + 1];
    }
    NewerQueue(s, r, forward);
  }

  lemma NewerAfterAcquire(s: System, r: System, t: Ticket)
    requires Newer(s, r) && Enabled(r, Acquire(t))
    ensures Newer(s, Acquired(r, t))
  {
    var more := Acquired(r, t).issued;
    assert forall x :: |r.issued| <= x < |more| ==> more[x] == Entries(t, r.turns)[x - |r.issued|];
  }

  lemma NewerStep(s: System, r: System, step: Step)
    requires Newer(s, r) && Enabled(r, step)
    ensures Newer(s, Apply(r, step))
  {
    if step.Lose? || step.Mangle? || step.Send? || step.PicoTakes? {
      NewerAfterQueueStep(s, r, step);
    } else if step.Acquire? {
      NewerAfterAcquire(s, r, step.t);
    }
  }

  lemma NewerKeeps(s: System)
    ensures Inductive(Next, r => Newer(s, r))
  {
    forall m, r | Newer(s, m) && Next(m, r) ensures Newer(s, r) {
      var step :| Enabled(m, step) && r == Apply(m, step);
      NewerStep(s, m, step);
    }
  }

  /** After a state whose wire lock is free -- as when `emergency_release` returns --
      no operation stamped with an older generation is ever written again. */
  lemma NoOlderOperationIsWritten(s: System, r: System)
    requires s.lock.None? && Follows(Next, s, r)
    ensures Newer(s, r)
  {
    NewerKeeps(s);
    FollowsKeeps(Next, r => Newer(s, r), s, r);
  }
}
