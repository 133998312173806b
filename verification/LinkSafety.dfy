/** Logical commands refine to wire commands: text runs in order and never more than
    a prefix, movements add up, commands never interleave. */
module LinkSafety {
  import opened Options
  import opened Pico
  import opened Wire
  import opened Commands
  import opened Link
  import WireSafety

  // ----- What the Pico did for a command -----

  ghost predicate OwnedBy(issued: seq<Issue>, x: nat, id: nat) {
    x < |issued| && issued[x].owner == CommandOwner(id)
  }

  function TextAt(e: Event, issued: seq<Issue>): string {
    if e.x < |issued| && issued[e.x].command.op.Type? && e.typed <= |issued[e.x].command.op.text|
    then issued[e.x].command.op.text[..e.typed] else ""
  }

  /** The text the Pico typed for a command, in order. */
  ghost function TypedFor(log: seq<Event>, issued: seq<Issue>, id: nat): string {
    if log == [] then ""
    else
      var e := log[|log| - 1];
      TypedFor(log[..|log| - 1], issued, id) + (if OwnedBy(issued, e.x, id) then TextAt(e, issued) else "")
  }

  /** The text the Pico typed for one line. */
  function TypedAs(log: seq<Event>, issued: seq<Issue>, x: nat): string {
    if log == [] then ""
    else
      var e := log[|log| - 1];
      TypedAs(log[..|log| - 1], issued, x) + (if e.x == x then TextAt(e, issued) else "")
  }

  datatype Axis = X | Y | Wheel

  function Along(op: Op, axis: Axis): int {
    if !op.MouseMove? then 0
    else match axis case X => op.dx case Y => op.dy case Wheel => op.wheel
  }

  function MoveAt(e: Event, issued: seq<Issue>, axis: Axis): int {
    if e.x < |issued| && e.done then Along(issued[e.x].command.op, axis) else 0
  }

  /** The movement the Pico completed for a command, whatever the order of its reports. */
  ghost function MovedFor(log: seq<Event>, issued: seq<Issue>, id: nat, axis: Axis): int {
    if log == [] then 0
    else
      var e := log[|log| - 1];
      MovedFor(log[..|log| - 1], issued, id, axis) + (if OwnedBy(issued, e.x, id) then MoveAt(e, issued, axis) else 0)
  }

  function MovedAs(log: seq<Event>, issued: seq<Issue>, x: nat, axis: Axis): int {
    if log == [] then 0
    else
      var e := log[|log| - 1];
      MovedAs(log[..|log| - 1], issued, x, axis) + (if e.x == x then MoveAt(e, issued, axis) else 0)
  }

  function MovedOver(log: seq<Event>, issued: seq<Issue>, first: nat, count: nat, axis: Axis): int {
    if count == 0 then 0
    else MovedOver(log, issued, first, count - 1, axis) + MovedAs(log, issued, first + count - 1, axis)
  }

  ghost predicate LogWithin(log: seq<Event>, issued: seq<Issue>) {
    forall i :: 0 <= i < |log| ==> log[i].x < |issued|
  }

  lemma {:induction false} OldText(log: seq<Event>, issued: seq<Issue>, more: seq<Issue>, id: nat, x: nat)
    requires LogWithin(log, issued)
    ensures TypedFor(log, issued + more, id) == TypedFor(log, issued, id)
    ensures TypedAs(log, issued + more, x) == TypedAs(log, issued, x)
  {
    if log != [] {
      OldText(log[..|log| - 1], issued, more, id, x);
      assert (issued + more)[log[|log| - 1].x] == issued[log[|log| - 1].x];
    }
  }

  lemma {:induction false} OldMove(log: seq<Event>, issued: seq<Issue>, more: seq<Issue>, id: nat, x: nat, axis: Axis)
    requires LogWithin(log, issued)
    ensures MovedFor(log, issued + more, id, axis) == MovedFor(log, issued, id, axis)
    ensures MovedAs(log, issued + more, x, axis) == MovedAs(log, issued, x, axis)
  {
    if log != [] {
      OldMove(log[..|log| - 1], issued, more, id, x, axis);
      assert (issued + more)[log[|log| - 1].x] == issued[log[|log| - 1].x];
    }
  }

  lemma {:induction false} OldMoves(log: seq<Event>, issued: seq<Issue>, more: seq<Issue>, first: nat, count: nat, axis: Axis)
    requires LogWithin(log, issued)
    ensures MovedOver(log, issued + more, first, count, axis) == MovedOver(log, issued, first, count, axis)
  {
    if count > 0 {
      OldMoves(log, issued, more, first, count - 1, axis);
      OldMove(log, issued, more, 0, first + count - 1, axis);
    }
  }

  ghost predicate Unlogged(log: seq<Event>, x: nat) {
    forall i :: 0 <= i < |log| ==> log[i].x != x
  }

  lemma {:induction false} NothingTyped(log: seq<Event>, issued: seq<Issue>, x: nat)
    requires Unlogged(log, x)
    ensures TypedAs(log, issued, x) == ""
  {
    if log != [] { NothingTyped(log[..|log| - 1], issued, x); }
  }

  lemma {:induction false} NothingMoved(log: seq<Event>, issued: seq<Issue>, x: nat, axis: Axis)
    requires Unlogged(log, x)
    ensures MovedAs(log, issued, x, axis) == 0
  {
    if log != [] { NothingMoved(log[..|log| - 1], issued, x, axis); }
  }

  lemma {:induction false} NothingMovedOver(log: seq<Event>, issued: seq<Issue>, first: nat, count: nat, axis: Axis)
    requires forall x :: first <= x < first + count ==> Unlogged(log, x)
    ensures MovedOver(log, issued, first, count, axis) == 0
  {
    if count > 0 {
      NothingMovedOver(log, issued, first, count - 1, axis);
      NothingMoved(log, issued, first + count - 1, axis);
    }
  }

  lemma OneMoreText(log: seq<Event>, e: Event, issued: seq<Issue>, id: nat, x: nat)
    ensures TypedFor(log + [e], issued, id) ==
      TypedFor(log, issued, id) + (if OwnedBy(issued, e.x, id) then TextAt(e, issued) else "")
    ensures TypedAs(log + [e], issued, x) == TypedAs(log, issued, x) + (if e.x == x then TextAt(e, issued) else "")
  {
    assert (log + [e])[..|log|] == log;
  }

  lemma OneMoreMove(log: seq<Event>, e: Event, issued: seq<Issue>, id: nat, x: nat, axis: Axis)
    ensures MovedFor(log + [e], issued, id, axis) ==
      MovedFor(log, issued, id, axis) + (if OwnedBy(issued, e.x, id) then MoveAt(e, issued, axis) else 0)
    ensures MovedAs(log + [e], issued, x, axis) ==
      MovedAs(log, issued, x, axis) + (if e.x == x then MoveAt(e, issued, axis) else 0)
  {
    assert (log + [e])[..|log|] == log;
  }

  lemma {:induction false} OneMoreMoveOver(log: seq<Event>, e: Event, issued: seq<Issue>, first: nat, count: nat, axis: Axis)
    ensures MovedOver(log + [e], issued, first, count, axis) ==
      MovedOver(log, issued, first, count, axis) + (if first <= e.x < first + count then MoveAt(e, issued, axis) else 0)
  {
    if count > 0 {
      OneMoreMoveOver(log, e, issued, first, count - 1, axis);
      OneMoreMove(log, e, issued, 0, first + count - 1, axis);
    }
  }

  ghost predicate OnlyAt(log: seq<Event>, x: nat, i: nat) {
    i < |log| && log[i].x == x && forall j :: 0 <= j < |log| && j != i ==> log[j].x != x
  }

  ghost predicate DoneOnce(log: seq<Event>, x: nat) {
    exists i: nat :: OnlyAt(log, x, i) && log[i].done
  }

  /** A line executed once typed its text ... */
  lemma {:induction false} TypedOnce(log: seq<Event>, issued: seq<Issue>, x: nat, i: nat)
    requires OnlyAt(log, x, i)
    ensures TypedAs(log, issued, x) == TextAt(log[i], issued)
  {
    var n := |log| - 1;
    if i == n {
      NothingTyped(log[..n], issued, x);
    } else {
      TypedOnce(log[..n], issued, x, i);
      assert log[n].x != x;
    }
  }

  /** ... and moved its distance, once. */
  lemma {:induction false} MovedOnce(log: seq<Event>, issued: seq<Issue>, x: nat, i: nat, axis: Axis)
    requires OnlyAt(log, x, i)
    ensures MovedAs(log, issued, x, axis) == MoveAt(log[i], issued, axis)
  {
    var n := |log| - 1;
    if i == n {
      NothingMoved(log[..n], issued, x, axis);
    } else {
      MovedOnce(log[..n], issued, x, i, axis);
      assert log[n].x != x;
    }
  }

  // ----- Invariant -----

  ghost predicate Shape(c: PublicCommand) {
    && Submittable(c.logical)
    && c.acked <= |c.starts| <= c.acked + 1 && |c.starts| <= |Groups(c.logical)|
    && (c.phase.Waiting? ==> |c.starts| == 0)
    && (c.phase.Between? ==> |c.starts| == c.acked)
    && (c.phase.Succeeded? ==> c.acked == |Groups(c.logical)|)
  }

  /** `x` is one of the lines of the `k`-th exchange of the command. */
  ghost predicate InGroup(c: PublicCommand, k: nat, x: nat) {
    k < |c.starts| && k < |Groups(c.logical)| && c.starts[k] <= x < c.starts[k] + |Groups(c.logical)[k]|
  }

  /** The exchanges the command has put on the wire are its groups, in order. */
  ghost predicate Placed(c: PublicCommand, id: nat, issued: seq<Issue>) {
    && (forall k: nat, x: nat :: InGroup(c, k, x) ==>
          OwnedBy(issued, x, id) && issued[x].command.op == Groups(c.logical)[k][x - c.starts[k]])
    && (forall x: nat :: OwnedBy(issued, x, id) ==> exists k: nat :: InGroup(c, k, x))
    && (forall k: nat, l: nat, x: nat :: InGroup(c, k, x) && InGroup(c, l, x) ==> k == l)
  }

  ghost predicate AckedRan(c: PublicCommand, log: seq<Event>) {
    forall k: nat, x: nat :: k < c.acked && InGroup(c, k, x) ==> WireSafety.Ran(log, x)
  }

  ghost predicate TextFits(c: PublicCommand, id: nat, issued: seq<Issue>, log: seq<Event>) {
    c.logical.TypeText? && Shape(c) ==>
      TypedFor(log, issued, id) ==
        TextOf(Groups(c.logical)[..c.acked])
        + (if |c.starts| > c.acked then TypedAs(log, issued, c.starts[c.acked]) else "")
  }

  ghost predicate MoveFits(c: PublicCommand, id: nat, issued: seq<Issue>, log: seq<Event>) {
    c.logical.Move? ==> forall axis: Axis ::
      MovedFor(log, issued, id, axis) ==
        if |c.starts| == 0 then 0 else MovedOver(log, issued, c.starts[0], |c.logical.reports|, axis)
  }

  ghost predicate CommandFits(c: PublicCommand, id: nat, issued: seq<Issue>, log: seq<Event>) {
    Shape(c) && Placed(c, id, issued) && AckedRan(c, log) && TextFits(c, id, issued, log) && MoveFits(c, id, issued, log)
  }

  ghost predicate EventFits(e: Event, issued: seq<Issue>) {
    e.x < |issued| && issued[e.x].command.op.Type? ==>
      e.typed <= |issued[e.x].command.op.text| && (e.done ==> e.typed == |issued[e.x].command.op.text|)
  }

  ghost predicate EventsFit(log: seq<Event>, issued: seq<Issue>) {
    forall i :: 0 <= i < |log| ==> EventFits(log[i], issued)
  }

  ghost predicate TicketsFit(tickets: set<Ticket>, commands: seq<PublicCommand>) {
    && (forall t :: t in tickets && t.owner.CommandOwner? ==>
          && t.owner.id < |commands|
          && (var c := commands[t.owner.id];
              && c.phase.Sending? && |c.starts| == c.acked < |Groups(c.logical)|
              && t.ops == Groups(c.logical)[c.acked]))
    && (forall t, u :: t in tickets && u in tickets && t.owner.CommandOwner? && t.owner == u.owner ==> t == u)
  }

  ghost predicate LockFits(lock: Option<Exchange>, issued: seq<Issue>, commands: seq<PublicCommand>) {
    lock.Some? && lock.value.first < |issued| && issued[lock.value.first].owner.CommandOwner? ==>
      var id := issued[lock.value.first].owner.id;
      && id < |commands|
      && (var c := commands[id];
          && c.phase.Sending? && |c.starts| == c.acked + 1 <= |Groups(c.logical)|
          && c.starts[c.acked] == lock.value.first && lock.value.count == |Groups(c.logical)[c.acked]|)
  }

  ghost predicate Busy(c: PublicCommand) { c.phase.Between? || c.phase.Sending? }

  ghost predicate Over(c: PublicCommand) { c.phase.Succeeded? || c.phase.Failed? }

  ghost predicate HolderFits(holder: Option<nat>, commands: seq<PublicCommand>) {
    && (forall id :: 0 <= id < |commands| ==> (Busy(commands[id]) <==> holder == Some(id)))
    && (holder.Some? ==> holder.value < |commands|)
  }

  /** Lines of different commands lie apart, and an earlier command is over. */
  ghost predicate Exclusive(issued: seq<Issue>, commands: seq<PublicCommand>) {
    && (forall x, y | 0 <= x < y < |issued| && issued[x].owner.CommandOwner? && issued[y].owner.CommandOwner? ::
          issued[x].owner != issued[y].owner ==>
            issued[x].owner.id < |commands| && Over(commands[issued[x].owner.id]))
    && (forall x, y, z | 0 <= x < y < z < |issued| && issued[x].owner.CommandOwner? && issued[y].owner.CommandOwner? ::
          issued[x].owner == issued[z].owner ==> issued[y].owner == issued[x].owner)
  }

  ghost predicate AllFit(commands: seq<PublicCommand>, issued: seq<Issue>, log: seq<Event>) {
    forall id :: 0 <= id < |commands| ==> CommandFits(commands[id], id, issued, log)
  }

  ghost predicate Fits(s: Link) {
    && AllFit(s.commands, s.wire.issued, s.wire.log)
    && (forall x :: 0 <= x < |s.wire.issued| && s.wire.issued[x].owner.CommandOwner? ==>
          s.wire.issued[x].owner.id < |s.commands| && !s.wire.issued[x].command.op.Session?)
    && LogWithin(s.wire.log, s.wire.issued)
    && EventsFit(s.wire.log, s.wire.issued)
    && TicketsFit(s.wire.tickets, s.commands)
    && LockFits(s.wire.lock, s.wire.issued, s.commands)
    && HolderFits(s.holder, s.commands)
    && Exclusive(s.wire.issued, s.commands)
  }

  ghost predicate Inv(s: Link) {
    WireSafety.Inv(s.wire) && Fits(s)
  }

  // ----- One command under growth of the registry and of the log -----

  lemma OthersIssued(c: PublicCommand, id: nat, issued: seq<Issue>, more: seq<Issue>, log: seq<Event>)
    requires CommandFits(c, id, issued, log) && LogWithin(log, issued)
    requires forall x :: 0 <= x < |more| ==> more[x].owner != CommandOwner(id)
    ensures CommandFits(c, id, issued + more, log)
  {
    var all := issued + more;
    assert forall x :: 0 <= x < |issued| ==> all[x] == issued[x];
    assert forall x :: |issued| <= x < |all| ==> all[x] == more[x - |issued|];
    assert Placed(c, id, all) by {
      assert forall x: nat :: OwnedBy(all, x, id) <==> OwnedBy(issued, x, id);
    }
    OldText(log, issued, more, id, if |c.starts| > c.acked then c.starts[c.acked] else 0);
    forall axis: Axis
      ensures MovedFor(log, all, id, axis) == MovedFor(log, issued, id, axis)
      ensures |c.starts| > 0 && c.logical.Move? ==>
        MovedOver(log, all, c.starts[0], |c.logical.reports|, axis) == MovedOver(log, issued, c.starts[0], |c.logical.reports|, axis)
    {
      OldMove(log, issued, more, id, 0, axis);
      if |c.starts| > 0 && c.logical.Move? { OldMoves(log, issued, more, c.starts[0], |c.logical.reports|, axis); }
    }
  }

  lemma RanGrows(c: PublicCommand, log: seq<Event>, e: Event)
    requires AckedRan(c, log)
    ensures AckedRan(c, log + [e])
  {
    forall k: nat, x: nat | k < c.acked && InGroup(c, k, x) ensures WireSafety.Ran(log + [e], x) {
      WireSafety.RanGrows(log, e, x);
    }
  }

  /** A line of the command that runs now belongs to its current exchange. */
  lemma RunsInTurn(c: PublicCommand, id: nat, issued: seq<Issue>, log: seq<Event>, e: Event) returns (k: nat)
    requires CommandFits(c, id, issued, log) && OwnedBy(issued, e.x, id) && Unlogged(log, e.x)
    ensures InGroup(c, k, e.x) && k == c.acked && |c.starts| == c.acked + 1
    ensures c.logical.TypeText? ==> e.x == c.starts[c.acked]
    ensures c.logical.Move? ==> k == 0
  {
    k :| InGroup(c, k, e.x);
  }

  lemma EventMoves(c: PublicCommand, id: nat, issued: seq<Issue>, log: seq<Event>, e: Event)
    requires MoveFits(c, id, issued, log) && c.logical.Move? && |c.starts| == 1
    requires OwnedBy(issued, e.x, id) && c.starts[0] <= e.x < c.starts[0] + |c.logical.reports|
    ensures MoveFits(c, id, issued, log + [e])
  {
    forall axis: Axis
      ensures MovedFor(log + [e], issued, id, axis) == MovedOver(log + [e], issued, c.starts[0], |c.logical.reports|, axis)
    {
      OneMoreMove(log, e, issued, id, 0, axis);
      OneMoreMoveOver(log, e, issued, c.starts[0], |c.logical.reports|, axis);
    }
  }

  lemma EventTypes(c: PublicCommand, id: nat, issued: seq<Issue>, log: seq<Event>, e: Event)
    requires TextFits(c, id, issued, log) && c.logical.TypeText? && Shape(c)
    requires |c.starts| == c.acked + 1 && OwnedBy(issued, e.x, id) && e.x == c.starts[c.acked]
    ensures TextFits(c, id, issued, log + [e])
  {
    OneMoreText(log, e, issued, id, e.x);
  }

  lemma EventForCommand(c: PublicCommand, id: nat, issued: seq<Issue>, log: seq<Event>, e: Event)
    requires CommandFits(c, id, issued, log) && OwnedBy(issued, e.x, id) && Unlogged(log, e.x)
    ensures CommandFits(c, id, issued, log + [e])
  {
    var k := RunsInTurn(c, id, issued, log, e);
    RanGrows(c, log, e);
    if c.logical.Move? { EventMoves(c, id, issued, log, e); }
    if c.logical.TypeText? { EventTypes(c, id, issued, log, e); }
  }

  lemma EventElsewhere(c: PublicCommand, id: nat, issued: seq<Issue>, log: seq<Event>, e: Event)
    requires CommandFits(c, id, issued, log) && !OwnedBy(issued, e.x, id)
    ensures CommandFits(c, id, issued, log + [e])
  {
    RanGrows(c, log, e);
    if c.logical.TypeText? {
      var x := if |c.starts| > c.acked then c.starts[c.acked] else 0;
      assert |c.starts| > c.acked ==> InGroup(c, c.acked, x);
      OneMoreText(log, e, issued, id, x);
    }
    if c.logical.Move? {
      forall axis: Axis
        ensures MovedFor(log + [e], issued, id, axis) ==
          if |c.starts| == 0 then 0 else MovedOver(log + [e], issued, c.starts[0], |c.logical.reports|, axis)
      {
        OneMoreMove(log, e, issued, id, 0, axis);
        if |c.starts| > 0 {
          assert forall x: nat :: c.starts[0] <= x < c.starts[0] + |c.logical.reports| ==> InGroup(c, 0, x);
          OneMoreMoveOver(log, e, issued, c.starts[0], |c.logical.reports|, axis);
        }
      }
    }
  }

  // ----- One command under its own steps -----

  lemma PhaseChanges(c: PublicCommand, d: PublicCommand, id: nat, issued: seq<Issue>, log: seq<Event>)
    requires CommandFits(c, id, issued, log) && d == c.(phase := d.phase) && Shape(d)
    ensures CommandFits(d, id, issued, log)
  {
    assert forall k: nat, x: nat :: InGroup(d, k, x) <==> InGroup(c, k, x);
  }

  lemma NewCommandFits(c: PublicCommand, id: nat, issued: seq<Issue>, log: seq<Event>)
    requires Shape(c) && |c.starts| == 0
    requires forall x :: 0 <= x < |issued| && issued[x].owner.CommandOwner? ==> issued[x].owner.id < id
    ensures CommandFits(c, id, issued, log)
  {
    NothingForUnowned(id, issued, log);
  }

  lemma {:induction false} NothingForUnowned(id: nat, issued: seq<Issue>, log: seq<Event>)
    requires forall x: nat :: !OwnedBy(issued, x, id)
    ensures TypedFor(log, issued, id) == ""
    ensures forall axis: Axis :: MovedFor(log, issued, id, axis) == 0
  {
    if log != [] { NothingForUnowned(id, issued, log[..|log| - 1]); }
  }

  lemma TextAcked(c: PublicCommand, id: nat, issued: seq<Issue>, log: seq<Event>, i: nat)
    requires c.logical.TypeText? && CommandFits(c, id, issued, log) && |c.starts| == c.acked + 1
    requires OnlyAt(log, c.starts[c.acked], i) && log[i].done && EventFits(log[i], issued)
    ensures TypedFor(log, issued, id) == TextOf(Groups(c.logical)[..c.acked + 1])
  {
    var x := c.starts[c.acked];
    assert InGroup(c, c.acked, x);
    TypedOnce(log, issued, x, i);
    var groups := Groups(c.logical);
    assert groups[..c.acked + 1][..c.acked] == groups[..c.acked];
    assert groups[..c.acked + 1][c.acked] == groups[c.acked];
  }

  lemma AckedFits(c: PublicCommand, id: nat, issued: seq<Issue>, log: seq<Event>)
    requires CommandFits(c, id, issued, log) && |c.starts| == c.acked + 1 && EventsFit(log, issued)
    requires forall x: nat :: InGroup(c, c.acked, x) ==> DoneOnce(log, x)
    ensures CommandFits(c.(acked := c.acked + 1, phase := Between), id, issued, log)
  {
    var d := c.(acked := c.acked + 1, phase := Between);
    assert forall k: nat, x: nat :: InGroup(d, k, x) <==> InGroup(c, k, x);
    forall k: nat, x: nat | k < d.acked && InGroup(d, k, x) ensures WireSafety.Ran(log, x) {
      if k == c.acked {
        var i: nat :| OnlyAt(log, x, i) && log[i].done;
      }
    }
    if c.logical.TypeText? {
      assert InGroup(c, c.acked, c.starts[c.acked]);
      var i: nat :| OnlyAt(log, c.starts[c.acked], i) && log[i].done;
      TextAcked(c, id, issued, log, i);
    }
  }

  lemma StartedFits(c: PublicCommand, id: nat, issued: seq<Issue>, more: seq<Issue>, log: seq<Event>)
    requires CommandFits(c, id, issued, log) && LogWithin(log, issued)
    requires |c.starts| == c.acked < |Groups(c.logical)| && c.phase.Sending?
    requires |more| == |Groups(c.logical)[c.acked]|
    requires forall x :: 0 <= x < |more| ==>
      more[x].owner == CommandOwner(id) && more[x].command.op == Groups(c.logical)[c.acked][x]
    ensures CommandFits(c.(starts := c.starts + [|issued|]), id, issued + more, log)
  {
    var d := c.(starts := c.starts + [|issued|]);
    var all := issued + more;
    StartedPlaced(c, id, issued, more);
    assert AckedRan(d, log) by {
      assert forall k: nat, x: nat :: k < c.acked && InGroup(d, k, x) ==> InGroup(c, k, x);
    }
    OldText(log, issued, more, id, |issued|);
    NothingTyped(log, all, |issued|);
    if c.logical.Move? {
      forall axis: Axis
        ensures MovedFor(log, all, id, axis) == MovedOver(log, all, d.starts[0], |c.logical.reports|, axis)
      {
        OldMove(log, issued, more, id, 0, axis);
        NothingMovedOver(log, all, |issued|, |c.logical.reports|, axis);
      }
    }
  }

  /** The lines of a command after it has started one more exchange at line `n`. */
  lemma StartedGroups(c: PublicCommand, n: nat, k: nat, x: nat)
    requires |c.starts| == c.acked < |Groups(c.logical)|
    ensures InGroup(c.(starts := c.starts + [n]), k, x) <==>
      InGroup(c, k, x) || (k == c.acked && n <= x < n + |Groups(c.logical)[c.acked]|)
  {
  }

  ghost predicate Starts(c: PublicCommand, id: nat, issued: seq<Issue>, more: seq<Issue>) {
    && Shape(c) && Placed(c, id, issued)
    && |c.starts| == c.acked < |Groups(c.logical)| && |more| == |Groups(c.logical)[c.acked]|
    && forall x :: 0 <= x < |more| ==>
      more[x].owner == CommandOwner(id) && more[x].command.op == Groups(c.logical)[c.acked][x]
  }

  lemma StartedOwns(c: PublicCommand, id: nat, issued: seq<Issue>, more: seq<Issue>, k: nat, x: nat)
    requires Starts(c, id, issued, more) && InGroup(c.(starts := c.starts + [|issued|]), k, x)
    ensures var all := issued + more;
      OwnedBy(all, x, id) && all[x].command.op == Groups(c.logical)[k][x - (c.starts + [|issued|])[k]]
  {
    StartedGroups(c, |issued|, k, x);
    if InGroup(c, k, x) { assert OwnedBy(issued, x, id); }
  }

  lemma StartedFinds(c: PublicCommand, id: nat, issued: seq<Issue>, more: seq<Issue>, x: nat) returns (k: nat)
    requires Starts(c, id, issued, more) && OwnedBy(issued + more, x, id)
    ensures InGroup(c.(starts := c.starts + [|issued|]), k, x)
  {
    if x < |issued| {
      assert OwnedBy(issued, x, id);
      k :| InGroup(c, k, x);
    } else {
      k := c.acked;
    }
    StartedGroups(c, |issued|, k, x);
  }

  lemma StartedOnce(c: PublicCommand, id: nat, issued: seq<Issue>, more: seq<Issue>, k: nat, l: nat, x: nat)
    requires Starts(c, id, issued, more)
    requires InGroup(c.(starts := c.starts + [|issued|]), k, x) && InGroup(c.(starts := c.starts + [|issued|]), l, x)
    ensures k == l
  {
    StartedGroups(c, |issued|, k, x);
    StartedGroups(c, |issued|, l, x);
    if InGroup(c, k, x) || InGroup(c, l, x) { assert OwnedBy(issued, x, id); }
  }

  lemma StartedPlaced(c: PublicCommand, id: nat, issued: seq<Issue>, more: seq<Issue>)
    requires Starts(c, id, issued, more)
    ensures Placed(c.(starts := c.starts + [|issued|]), id, issued + more)
  {
    var d := c.(starts := c.starts + [|issued|]);
    forall k: nat, x: nat | InGroup(d, k, x)
      ensures OwnedBy(issued + more, x, id) && (issued + more)[x].command.op == Groups(c.logical)[k][x - d.starts[k]]
    {
      StartedOwns(c, id, issued, more, k, x);
    }
    forall x: nat | OwnedBy(issued + more, x, id) ensures exists k: nat :: InGroup(d, k, x) {
      var k := StartedFinds(c, id, issued, more, x);
    }
    forall k: nat, l: nat, x: nat | InGroup(d, k, x) && InGroup(d, l, x) ensures k == l {
      StartedOnce(c, id, issued, more, k, l, x);
    }
  }

  // ----- Steps -----

  lemma CommandsAt(s: Link, id: nat)
    requires Fits(s) && id < |s.commands|
    ensures CommandFits(s.commands[id], id, s.wire.issued, s.wire.log)
  {
  }

  lemma MoreCommands(s: Link, c: PublicCommand)
    requires TicketsFit(s.wire.tickets, s.commands) && LockFits(s.wire.lock, s.wire.issued, s.commands)
    requires Exclusive(s.wire.issued, s.commands) && HolderFits(s.holder, s.commands) && c.phase.Waiting?
    ensures TicketsFit(s.wire.tickets, s.commands + [c]) && LockFits(s.wire.lock, s.wire.issued, s.commands + [c])
    ensures Exclusive(s.wire.issued, s.commands + [c]) && HolderFits(s.holder, s.commands + [c])
  {
  }

  lemma SubmitFits(s: Link, logical: Logical, lease: Option<Lease>, stamp: nat)
    requires Fits(s) && CanStep(s, Submit(logical, lease, stamp))
    ensures Fits(StepTo(s, Submit(logical, lease, stamp)))
  {
    var c := PublicCommand(logical, lease, stamp, [], 0, Waiting);
    NewCommandFits(c, |s.commands|, s.wire.issued, s.wire.log);
    MoreCommands(s, c);
  }

  lemma OneChanges(commands: seq<PublicCommand>, id: nat, d: PublicCommand, issued: seq<Issue>, log: seq<Event>)
    requires AllFit(commands, issued, log) && id < |commands| && CommandFits(d, id, issued, log)
    ensures AllFit(commands[id := d], issued, log)
  {
  }

  lemma PhaseParts(s: Link, id: nat, d: PublicCommand)
    requires TicketsFit(s.wire.tickets, s.commands) && LockFits(s.wire.lock, s.wire.issued, s.commands)
    requires Exclusive(s.wire.issued, s.commands) && id < |s.commands| && d == s.commands[id].(phase := d.phase)
    requires Over(s.commands[id]) ==> Over(d)
    requires d.phase.Sending? || forall t :: t in s.wire.tickets ==> t.owner != CommandOwner(id)
    requires d.phase.Sending? || !HoldsWire(s, id)
    ensures TicketsFit(s.wire.tickets, s.commands[id := d]) && LockFits(s.wire.lock, s.wire.issued, s.commands[id := d])
    ensures Exclusive(s.wire.issued, s.commands[id := d])
  {
  }

  /** A step that changes one command's phase and perhaps who holds the public lock. */
  lemma PhaseStepFits(s: Link, id: nat, d: PublicCommand, holder: Option<nat>)
    requires Fits(s) && id < |s.commands| && d == s.commands[id].(phase := d.phase) && Shape(d)
    requires Over(s.commands[id]) ==> Over(d)
    requires HolderFits(holder, s.commands[id := d])
    requires d.phase.Sending? || forall t :: t in s.wire.tickets ==> t.owner != CommandOwner(id)
    requires d.phase.Sending? || !HoldsWire(s, id)
    ensures Fits(With(s, id, d).(holder := holder))
  {
    CommandsAt(s, id);
    PhaseChanges(s.commands[id], d, id, s.wire.issued, s.wire.log);
    OneChanges(s.commands, id, d, s.wire.issued, s.wire.log);
    PhaseParts(s, id, d);
  }

  lemma WireFrame(s: Link, w: System)
    requires Fits(s) && w.issued == s.wire.issued && w.log == s.wire.log
    requires TicketsFit(w.tickets, s.commands) && LockFits(w.lock, w.issued, s.commands)
    ensures Fits(s.(wire := w))
  {
  }

  lemma LockStepFits(s: Link, id: nat, step: LinkStep)
    requires Fits(s) && CanStep(s, step)
    requires step == TakePublicLock(id) || step == Complete(id) || step == Interrupt(id)
    ensures Fits(StepTo(s, step))
  {
    var r := StepTo(s, step);
    PhaseStepFits(s, id, r.commands[id], r.holder);
  }

  lemma QueueGroupFits(s: Link, id: nat)
    requires Fits(s) && CanStep(s, QueueGroup(id))
    ensures Fits(StepTo(s, QueueGroup(id)))
  {
    CommandsAt(s, id);
    var sending := With(s, id, s.commands[id].(phase := Sending));
    PhaseStepFits(s, id, s.commands[id].(phase := Sending), s.holder);
    WireFrame(sending, Apply(s.wire, RequestOf(s, id)));
  }

  lemma GroupRefusedFits(s: Link, id: nat, t: Ticket)
    requires Fits(s) && CanStep(s, GroupRefused(id, t))
    ensures Fits(StepTo(s, GroupRefused(id, t)))
  {
    var without := s.(wire := Apply(s.wire, Refuse(t)));
    WireFrame(s, without.wire);
    var r := Ended(without, id, Failed);
    PhaseStepFits(without, id, r.commands[id], r.holder);
  }

  lemma GroupAbandonedFits(s: Link, id: nat)
    requires Fits(s) && CanStep(s, GroupAbandoned(id))
    ensures Fits(StepTo(s, GroupAbandoned(id)))
  {
    var without := s.(wire := Apply(s.wire, Abandon));
    WireFrame(s, without.wire);
    var r := Ended(without, id, Failed);
    PhaseStepFits(without, id, r.commands[id], r.holder);
  }

  lemma AckedParts(s: Link, id: nat, d: PublicCommand)
    requires TicketsFit(s.wire.tickets, s.commands) && LockFits(s.wire.lock, s.wire.issued, s.commands)
    requires Exclusive(s.wire.issued, s.commands) && HolderFits(s.holder, s.commands)
    requires id < |s.commands| && HoldsWire(s, id) && d == s.commands[id].(acked := s.commands[id].acked + 1, phase := Between)
    ensures TicketsFit(s.wire.tickets, s.commands[id := d]) && Exclusive(s.wire.issued, s.commands[id := d])
    ensures HolderFits(s.holder, s.commands[id := d])
  {
  }

  lemma AckedCommand(s: Link, id: nat)
    requires Fits(s) && id < |s.commands| && HoldsWire(s, id)
    requires forall x: nat :: s.wire.lock.value.first <= x < s.wire.lock.value.first + s.wire.lock.value.count ==>
      DoneOnce(s.wire.log, x)
    ensures var c := s.commands[id];
      CommandFits(c.(acked := c.acked + 1, phase := Between), id, s.wire.issued, s.wire.log)
  {
    CommandsAt(s, id);
    AckedFits(s.commands[id], id, s.wire.issued, s.wire.log);
  }

  lemma GroupAckedFits(s: Link, id: nat)
    requires Fits(s) && CanStep(s, GroupAcked(id))
    requires forall x: nat :: s.wire.lock.value.first <= x < s.wire.lock.value.first + s.wire.lock.value.count ==>
      DoneOnce(s.wire.log, x)
    ensures Fits(StepTo(s, GroupAcked(id)))
  {
    var d := s.commands[id].(acked := s.commands[id].acked + 1, phase := Between);
    AckedCommand(s, id);
    OneChanges(s.commands, id, d, s.wire.issued, s.wire.log);
    AckedParts(s, id, d);
    AckedIs(s, id, d);
  }

  lemma AckedIs(s: Link, id: nat, d: PublicCommand)
    requires CanStep(s, GroupAcked(id)) && d == s.commands[id].(acked := s.commands[id].acked + 1, phase := Between)
    ensures StepTo(s, GroupAcked(id)) == s.(commands := s.commands[id := d], wire := s.wire.(lock := None))
  {
  }

  /** New lines at the end keep commands apart when they are the lock holder's own or nobody's. */
  lemma ExclusiveGrows(issued: seq<Issue>, more: seq<Issue>, commands: seq<PublicCommand>, holder: Option<nat>)
    requires Exclusive(issued, commands) && HolderFits(holder, commands)
    requires forall x :: 0 <= x < |issued| && issued[x].owner.CommandOwner? ==>
      issued[x].owner.id < |commands| && !commands[issued[x].owner.id].phase.Waiting?
    requires forall x :: 0 <= x < |more| ==>
      more[x].owner == more[0].owner && (more[x].owner.CommandOwner? ==> holder == Some(more[x].owner.id))
    ensures Exclusive(issued + more, commands)
  {
    var all := issued + more;
    assert forall x :: 0 <= x < |issued| ==> all[x] == issued[x];
    assert forall x :: |issued| <= x < |all| ==> all[x] == more[x - |issued|];
  }

  lemma StartedHaveLeftWaiting(s: Link)
    requires Fits(s)
    ensures forall x :: 0 <= x < |s.wire.issued| && s.wire.issued[x].owner.CommandOwner? ==>
      s.wire.issued[x].owner.id < |s.commands| && !s.commands[s.wire.issued[x].owner.id].phase.Waiting?
  {
    forall x | 0 <= x < |s.wire.issued| && s.wire.issued[x].owner.CommandOwner?
      ensures !s.commands[s.wire.issued[x].owner.id].phase.Waiting?
    {
      var id := s.wire.issued[x].owner.id;
      CommandsAt(s, id);
      assert OwnedBy(s.wire.issued, x, id);
    }
  }

  lemma OthersLeaveCommands(s: Link, t: Ticket)
    requires Fits(s) && CanStep(s, OnWire(Acquire(t)))
    ensures AllFit(s.commands, s.wire.issued + Entries(t, s.wire.turns), s.wire.log)
  {
    var more := Entries(t, s.wire.turns);
    forall k | 0 <= k < |s.commands| ensures CommandFits(s.commands[k], k, s.wire.issued + more, s.wire.log) {
      CommandsAt(s, k);
      OthersIssued(s.commands[k], k, s.wire.issued, more, s.wire.log);
    }
  }

  lemma EventsStay(log: seq<Event>, issued: seq<Issue>, more: seq<Issue>)
    requires LogWithin(log, issued) && EventsFit(log, issued)
    ensures LogWithin(log, issued + more) && EventsFit(log, issued + more)
  {
    forall i | 0 <= i < |log| ensures EventFits(log[i], issued + more) {
      assert EventFits(log[i], issued);
      assert (issued + more)[log[i].x] == issued[log[i].x];
    }
  }

  lemma OthersTakeWireFits(s: Link, t: Ticket)
    requires Fits(s) && CanStep(s, OnWire(Acquire(t)))
    ensures Fits(StepTo(s, OnWire(Acquire(t))))
  {
    var more := Entries(t, s.wire.turns);
    var r := StepTo(s, OnWire(Acquire(t)));
    StartedHaveLeftWaiting(s);
    ExclusiveGrows(s.wire.issued, more, s.commands, s.holder);
    OthersLeaveCommands(s, t);
    EventsStay(s.wire.log, s.wire.issued, more);
    assert forall x :: |s.wire.issued| <= x < |r.wire.issued| ==> r.wire.issued[x] == more[x - |s.wire.issued|];
    assert forall x :: 0 <= x < |s.wire.issued| ==> r.wire.issued[x] == s.wire.issued[x];
  }

  lemma ExclusiveUnderStart(issued: seq<Issue>, commands: seq<PublicCommand>, id: nat, c: PublicCommand)
    requires Exclusive(issued, commands) && id < |commands| && c == commands[id].(starts := c.starts)
    ensures Exclusive(issued, commands[id := c])
  {
  }

  lemma GroupTakesWireParts(s: Link, id: nat, t: Ticket)
    requires Fits(s) && CanStep(s, GroupTakesWire(id, t))
    ensures var r := StepTo(s, GroupTakesWire(id, t));
      && Exclusive(r.wire.issued, r.commands)
      && TicketsFit(r.wire.tickets, r.commands) && HolderFits(r.holder, r.commands)
      && (forall k :: 0 <= k < |r.commands| ==> CommandFits(r.commands[k], k, r.wire.issued, r.wire.log))
  {
    var more := Entries(t, s.wire.turns);
    var r := StepTo(s, GroupTakesWire(id, t));
    CommandsAt(s, id);
    StartedHaveLeftWaiting(s);
    ExclusiveGrows(s.wire.issued, more, s.commands, s.holder);
    ExclusiveUnderStart(s.wire.issued + more, s.commands, id, r.commands[id]);
    StartedFits(s.commands[id], id, s.wire.issued, more, s.wire.log);
    forall k | 0 <= k < |r.commands| ensures CommandFits(r.commands[k], k, r.wire.issued, r.wire.log) {
      if k != id {
        CommandsAt(s, k);
        OthersIssued(s.commands[k], k, s.wire.issued, more, s.wire.log);
      }
    }
  }

  lemma GroupTakesWireFits(s: Link, id: nat, t: Ticket)
    requires Fits(s) && CanStep(s, GroupTakesWire(id, t)) && WireSafety.TicketShape(t)
    ensures Fits(StepTo(s, GroupTakesWire(id, t)))
  {
    GroupTakesWireParts(s, id, t);
    var more := Entries(t, s.wire.turns);
    var r := StepTo(s, GroupTakesWire(id, t));
    assert forall x :: 0 <= x < |s.wire.issued| ==> r.wire.issued[x] == s.wire.issued[x];
    assert forall x :: |s.wire.issued| <= x < |r.wire.issued| ==> r.wire.issued[x] == more[x - |s.wire.issued|];
  }

  /** What the Pico reports about one execution is true of its operation. */
  lemma ExecutionTellsText(p: State, c: Command, o: Oracle)
    ensures var e := Handle(p, c, o).2;
      e.Executed? && c.op.Type? ==> e.typed <= |c.op.text| && (e.done ==> e.typed == |c.op.text|)
  {
  }

  lemma EventStepFits(s: Link, w: System, e: Event)
    requires Fits(s) && w.issued == s.wire.issued && w.log == s.wire.log + [e] && e.x < |s.wire.issued|
    requires w.tickets == s.wire.tickets && w.lock == s.wire.lock && EventFits(e, s.wire.issued)
    requires s.wire.issued[e.x].owner.CommandOwner? ==> Unlogged(s.wire.log, e.x)
    ensures Fits(s.(wire := w))
  {
    forall k | 0 <= k < |s.commands| ensures CommandFits(s.commands[k], k, w.issued, w.log) {
      CommandsAt(s, k);
      if OwnedBy(s.wire.issued, e.x, k) {
        EventForCommand(s.commands[k], k, s.wire.issued, s.wire.log, e);
      } else {
        EventElsewhere(s.commands[k], k, s.wire.issued, s.wire.log, e);
      }
    }
  }

  lemma LogStaysOk(s: System, o: Oracle)
    requires WireSafety.Inv(s) && Enabled(s, PicoTakes(o))
    ensures var r := Apply(s, PicoTakes(o)); WireSafety.LogOk(r.log, r.seen, r.issued)
  {
    WireSafety.PicoTakesKeeps(s, o);
  }

  /** A line that is executed now had not been executed before. */
  lemma FirstExecution(log: seq<Event>, e: Event, seen: set<nat>, issued: seq<Issue>)
    requires WireSafety.LogOk(log + [e], seen, issued)
    requires e.x < |issued| && !issued[e.x].command.op.Session?
    ensures Unlogged(log, e.x)
  {
    LastIsNew(log + [e], seen, issued);
    assert forall i :: 0 <= i < |log| ==> (log + [e])[i] == log[i];
  }

  lemma LastIsNew(log: seq<Event>, seen: set<nat>, issued: seq<Issue>)
    requires WireSafety.LogOk(log, seen, issued) && log != []
    ensures log[|log| - 1].x < |issued|
    ensures !issued[log[|log| - 1].x].command.op.Session? ==>
      forall i :: 0 <= i < |log| - 1 ==> log[i].x != log[|log| - 1].x
  {
  }

  lemma PicoTakesFits(s: Link, o: Oracle)
    requires Inv(s) && Enabled(s.wire, PicoTakes(o))
    ensures Fits(s.(wire := Apply(s.wire, PicoTakes(o))))
  {
    var w := Apply(s.wire, PicoTakes(o));
    if s.wire.forward[0].Line? {
      var x := s.wire.forward[0].x;
      var execution := Handle(s.wire.pico, s.wire.issued[x].command, o).2;
      if execution.Executed? {
        ExecutionTellsText(s.wire.pico, s.wire.issued[x].command, o);
        var e := Event(x, execution.done, execution.typed);
        LogStaysOk(s.wire, o);
        if s.wire.issued[x].owner.CommandOwner? { FirstExecution(s.wire.log, e, w.seen, s.wire.issued); }
        EventStepFits(s, w, e);
      } else {
        WireFrame(s, w);
      }
    } else {
      WireFrame(s, w);
    }
  }

  lemma LockKeepsPlace(s: Link)
    requires Fits(s) && s.wire.back != []
    ensures Fits(s.(wire := Apply(s.wire, Deliver)))
  {
    WireFrame(s, Apply(s.wire, Deliver));
  }

  lemma OnWireFits(s: Link, step: Step)
    requires Inv(s) && CanStep(s, OnWire(step))
    ensures Fits(s.(wire := Apply(s.wire, step)))
  {
    if step.PicoTakes? {
      PicoTakesFits(s, step.o);
    } else if step.Acquire? {
      OthersTakeWireFits(s, step.t);
    } else if step.Deliver? {
      LockKeepsPlace(s);
    } else {
      QuietWireFits(s, step);
    }
  }

  lemma QuietWireFits(s: Link, step: Step)
    requires Fits(s) && CanStep(s, OnWire(step))
    requires !step.PicoTakes? && !step.Acquire? && !step.Deliver?
    ensures Fits(s.(wire := Apply(s.wire, step)))
  {
    WireFrame(s, Apply(s.wire, step));
  }
}
