/** Public commands over the serial session: `send_command` with its public lock,
    text chunks and mouse batches (gateway/noob_gateway/serial_link.py). */
module Link {
  import opened Options
  import opened Pico
  import opened Wire
  import opened Commands
  import WireLines

  /** A validated command; a movement comes with the reports `SplitMouseMove` made of it. */
  datatype Logical =
    | TypeText(text: string, intervalMs: int)
    | Move(dx: int, dy: int, wheel: int, reports: seq<Op>)
    | Simple(op: Op)

  datatype Phase = Waiting | Between | Sending | Succeeded | Failed

  /** `starts` notes where in `issued` each exchange of the command began. */
  datatype PublicCommand = PublicCommand(
    logical: Logical, lease: Option<Lease>, stamp: nat, starts: seq<nat>, acked: nat, phase: Phase)

  datatype Link = Link(wire: System, commands: seq<PublicCommand>, holder: Option<nat>)

  function HeadLength(text: string): nat { if |text| < CHUNK then |text| else CHUNK }

  function ChunkGroups(text: string, intervalMs: int): (r: seq<seq<Op>>)
    ensures forall k :: 0 <= k < |r| ==> |r[k]| == 1 && r[k][0].Type? && r[k][0].intervalMs == intervalMs
    ensures forall k :: 0 <= k < |r| ==> 1 <= |r[k][0].text| <= CHUNK
    decreases |text|
  {
    if text == "" then []
    else [[Type(text[..HeadLength(text)], intervalMs)]] + ChunkGroups(text[HeadLength(text)..], intervalMs)
  }

  predicate Submittable(c: Logical) {
    match c
    case TypeText(_, _) => true
    case Move(dx, dy, wheel, reports) =>
      1 <= |reports| <= BATCH_LIMIT && Reports(reports)
      && SumX(reports) == dx && SumY(reports) == dy && SumWheel(reports) == wheel
    case Simple(op) => !op.Session? && !op.Type? && !op.MouseMove?
  }

  /** The exchanges of a command, in order. */
  function Groups(c: Logical): seq<seq<Op>> {
    match c
    case TypeText(text, intervalMs) => ChunkGroups(text, intervalMs)
    case Move(_, _, _, reports) => [reports]
    case Simple(op) => [[op]]
  }

  function TextOf(groups: seq<seq<Op>>): string {
    if groups == [] then ""
    else TextOf(groups[..|groups| - 1])
         + (var g := groups[|groups| - 1]; if |g| == 1 && g[0].Type? then g[0].text else "")
  }

  lemma {:induction false} TextOfPrepends(g: Op, groups: seq<seq<Op>>)
    requires g.Type?
    ensures TextOf([[g]] + groups) == g.text + TextOf(groups)
  {
    var all := [[g]] + groups;
    if groups == [] {
      assert all[..0] == [];
      assert TextOf(all) == TextOf(all[..0]) + g.text;
    } else {
      assert all[..|all| - 1] == [[g]] + groups[..|groups| - 1];
      TextOfPrepends(g, groups[..|groups| - 1]);
    }
  }

  /** The chunks are the text, cut. */
  lemma {:induction false} ChunksAreTheText(text: string, intervalMs: int)
    ensures TextOf(ChunkGroups(text, intervalMs)) == text
    decreases |text|
  {
    if text != "" {
      var n := HeadLength(text);
      ChunksAreTheText(text[n..], intervalMs);
      TextOfPrepends(Type(text[..n], intervalMs), ChunkGroups(text[n..], intervalMs));
      assert text == text[..n] + text[n..];
    }
  }

  /** Every chunk but the last is full, so that there is one for each 32 characters begun. */
  lemma {:induction false} ChunksAreFull(text: string, intervalMs: int, k: nat)
    requires k < |ChunkGroups(text, intervalMs)|
    ensures (k + 1) * CHUNK < |text| ==> |ChunkGroups(text, intervalMs)[k][0].text| == CHUNK
    ensures k * CHUNK < |text| && (k == |ChunkGroups(text, intervalMs)| - 1 <==> |text| <= (k + 1) * CHUNK)
    decreases |text|
  {
    var rest := text[HeadLength(text)..];
    if k > 0 {
      ChunksAreFull(rest, intervalMs, k - 1);
    } else if rest != "" {
      ChunksAreFull(rest, intervalMs, 0);
    }
  }

  /** Every wire operation of an accepted command is one the Pico accepts, in a line within
      the bound of both ends. */
  lemma WireOperationsParse(c: Logical, k: nat, j: nat, maxTypeChars: nat)
    requires Submittable(c) && k < |Groups(c)| && j < |Groups(c)[k]|
    requires match c
      case TypeText(text, intervalMs) => Acceptable(Type(text, intervalMs), maxTypeChars)
      case Move(dx, dy, wheel, _) => Acceptable(MouseMove(dx, dy, wheel), maxTypeChars)
      case Simple(op) => Acceptable(op, maxTypeChars)
    ensures Parses(Groups(c)[k][j]) && WireLines.FitsLine(Groups(c)[k][j])
  {
    if c.TypeText? { ChunksStayTypeable(c.text, c.intervalMs, k); }
    WireLines.AlwaysFits(Groups(c)[k][j]);
  }

  lemma {:induction false} ChunksStayTypeable(text: string, intervalMs: int, k: nat)
    requires forall i :: 0 <= i < |text| ==> Typeable(text[i])
    requires k < |ChunkGroups(text, intervalMs)|
    ensures var chunk := ChunkGroups(text, intervalMs)[k][0].text; forall i :: 0 <= i < |chunk| ==> Typeable(chunk[i])
    decreases |text|
  {
    if text != "" && k > 0 {
      ChunksStayTypeable(text[HeadLength(text)..], intervalMs, k - 1);
    }
  }

  // ----- Steps -----

  datatype LinkStep =
    | Submit(logical: Logical, lease: Option<Lease>, stamp: nat)
    | TakePublicLock(id: nat)
    | QueueGroup(id: nat)
    | GroupTakesWire(id: nat, t: Ticket)
    | GroupAcked(id: nat)
    | GroupRefused(id: nat, t: Ticket)
    | GroupAbandoned(id: nat)
    | Complete(id: nat)
    | Interrupt(id: nat)
    | OnWire(step: Step)

  predicate HoldsWire(s: Link, id: nat) {
    && s.wire.lock.Some? && s.wire.lock.value.first < |s.wire.issued|
    && s.wire.issued[s.wire.lock.value.first].owner == CommandOwner(id)
  }

  predicate NotPublic(s: Link, step: Step) {
    match step
    case Request(_, _, _, owner) => !owner.CommandOwner?
    case Refuse(t) => !t.owner.CommandOwner?
    case Acquire(t) => !t.owner.CommandOwner?
    case Finish(_) =>
      s.wire.lock.Some? && s.wire.lock.value.first < |s.wire.issued|
      && !s.wire.issued[s.wire.lock.value.first].owner.CommandOwner?
    case Abandon =>
      s.wire.lock.Some? && s.wire.lock.value.first < |s.wire.issued|
      && !s.wire.issued[s.wire.lock.value.first].owner.CommandOwner?
    case _ => true
  }

  function RequestOf(s: Link, id: nat): Step
    requires id < |s.commands| && s.commands[id].acked < |Groups(s.commands[id].logical)|
  {
    var c := s.commands[id];
    Request(Groups(c.logical)[c.acked], c.lease, Some(c.stamp), CommandOwner(id))
  }

  predicate CanStep(s: Link, step: LinkStep) {
    match step
    case Submit(logical, _, stamp) => Submittable(logical) && stamp <= s.wire.generation
    case TakePublicLock(id) =>
      id < |s.commands| && s.commands[id].phase.Waiting? && s.holder.None?
      && s.commands[id].stamp == s.wire.generation
    case QueueGroup(id) =>
      && id < |s.commands| && s.commands[id].phase.Between?
      && s.commands[id].acked < |Groups(s.commands[id].logical)|
      && s.commands[id].stamp == s.wire.generation && Enabled(s.wire, RequestOf(s, id))
    case GroupTakesWire(id, t) =>
      id < |s.commands| && t.owner == CommandOwner(id) && Enabled(s.wire, Acquire(t))
    case GroupAcked(id) => id < |s.commands| && HoldsWire(s, id) && Enabled(s.wire, Finish(false))
    case GroupRefused(id, t) => id < |s.commands| && t.owner == CommandOwner(id) && t in s.wire.tickets
    case GroupAbandoned(id) => id < |s.commands| && HoldsWire(s, id)
    case Complete(id) =>
      id < |s.commands| && s.commands[id].phase.Between? && s.commands[id].acked == |Groups(s.commands[id].logical)|
    case Interrupt(id) => id < |s.commands| && (s.commands[id].phase.Waiting? || s.commands[id].phase.Between?)
    case OnWire(w) => Enabled(s.wire, w) && NotPublic(s, w)
  }

  function With(s: Link, id: nat, c: PublicCommand): Link
    requires id < |s.commands|
  {
    s.(commands := s.commands[id := c])
  }

  /** A command that ends gives the public lock back if it holds it. */
  function Ended(s: Link, id: nat, phase: Phase): Link
    requires id < |s.commands|
  {
    With(s, id, s.commands[id].(phase := phase)).(holder := if s.holder == Some(id) then None else s.holder)
  }

  function StepTo(s: Link, step: LinkStep): Link
    requires CanStep(s, step)
  {
    match step
    case Submit(logical, lease, stamp) =>
      s.(commands := s.commands + [PublicCommand(logical, lease, stamp, [], 0, Waiting)])
    case TakePublicLock(id) => With(s, id, s.commands[id].(phase := Between)).(holder := Some(id))
    case QueueGroup(id) => With(s, id, s.commands[id].(phase := Sending)).(wire := Apply(s.wire, RequestOf(s, id)))
    case GroupTakesWire(id, t) =>
      With(s, id, s.commands[id].(starts := s.commands[id].starts + [|s.wire.issued|])).(wire := Apply(s.wire, Acquire(t)))
    case GroupAcked(id) =>
      With(s, id, s.commands[id].(acked := s.commands[id].acked + 1, phase := Between)).(wire := Apply(s.wire, Finish(false)))
    case GroupRefused(id, t) => Ended(s, id, Failed).(wire := Apply(s.wire, Refuse(t)))
    case GroupAbandoned(id) => Ended(s, id, Failed).(wire := Apply(s.wire, Abandon))
    case Complete(id) => Ended(s, id, Succeeded)
    case Interrupt(id) => Ended(s, id, Failed)
    case OnWire(w) => s.(wire := Apply(s.wire, w))
  }

  const START: Link := Link(INITIAL, [], None)
}
