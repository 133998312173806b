/** The serial session between the gateway and the Pico as one transition system
    (gateway/noob_gateway/serial_link.py, pico/code.py).

    A step is what happens between two suspension points of the gateway, one line
    handled by the Pico, or one fault of the channel. The UART is two queues: a
    line may be lost or mangled in either, but is never reordered or forged. Every
    line written belongs to an entry of `issued`, which grows when an exchange
    takes the wire lock; `turn` counts those exchanges. `seen`, `cached` and `log`
    are observers: which lines the Pico has answered anew, which entry each
    cache slot answers for, and what it executed in which order. */
module Wire {
  import opened Options
  import opened Pico

  const MAX_SEQUENCE: nat := 0xFFFF_FFFF
  const BATCH_LIMIT: nat := 8

  datatype Owner = SessionOwner | HeartbeatOwner | DrainOwner | CommandOwner(id: nat)

  /** An exchange waiting for the wire lock, its sequence numbers already drawn. */
  datatype Ticket = Ticket(
    sid: Sid, first: nat, ops: seq<Op>, lease: Option<Lease>, stamp: Option<nat>, owner: Owner)

  datatype Issue = Issue(
    command: Command, turn: nat, lease: Option<Lease>, stamp: Option<nat>, owner: Owner)

  /** The exchange holding the wire lock; `answers` maps a line to whether it was acknowledged. */
  datatype Exchange = Exchange(first: nat, count: nat, attempt: nat, answers: map<nat, bool>)

  datatype Slot = Line(x: nat) | Noise

  datatype Event = Event(x: nat, done: bool, typed: nat)

  datatype System = System(
    sid: Option<Sid>,
    nextSid: Sid,
    greeted: bool,
    sequence: nat,
    generation: nat,
    ready: bool,
    tickets: set<Ticket>,
    issued: seq<Issue>,
    turns: nat,
    lock: Option<Exchange>,
    forward: seq<Slot>,
    back: seq<Response>,
    pico: State,
    seen: set<nat>,
    cached: seq<nat>,
    log: seq<Event>)

  datatype Step =
    | OpenSession(watchdogMs: int)
    | Request(ops: seq<Op>, lease: Option<Lease>, stamp: Option<nat>, owner: Owner)
    | Refuse(t: Ticket)
    | Acquire(t: Ticket)
    | Send
    | Deliver
    | Finish(up: bool)
    | Abandon
    | Fault
    | Bump
    | Teardown
    | PicoTakes(o: Oracle)
    | PicoTimers(now: real)
    | PicoRestarts
    | Lose(i: nat)
    | Mangle(i: nat)
    | LoseBack(i: nat)

  const INITIAL: System :=
    System(None, 0, false, 0, 0, false, {}, [], 0, None, [], [], BOOT, {}, [], [])

  /** `_next_sequence`: a 32-bit counter that skips zero, the session line's own number. */
  function NextSequence(sequence: nat): (r: nat) {
    var bumped := (sequence + 1) % (MAX_SEQUENCE + 1);
    if bumped == 0 then 1 else bumped
  }

  function Draws(k: nat): nat {
    if k == 0 then 0 else NextSequence(Draws(k - 1))
  }

  function Cycles(k: nat): nat {
    if k <= 1 then 0 else Cycles(k - 1) + if Draws(k - 1) == MAX_SEQUENCE then 1 else 0
  }

  predicate IsCycles(distance: int, cycles: int) { distance == cycles * MAX_SEQUENCE }

  ghost predicate WholeCycles(distance: int) { exists cycles :: IsCycles(distance, cycles) }

  lemma NextSequenceCounts(sequence: nat)
    requires sequence <= MAX_SEQUENCE
    ensures NextSequence(sequence) == if sequence == MAX_SEQUENCE then 1 else sequence + 1
  {
    if sequence < MAX_SEQUENCE {
      assert (sequence + 1) % (MAX_SEQUENCE + 1) == sequence + 1;
    }
  }

  lemma {:induction false} DrawsSplit(k: nat)
    requires 0 < k
    ensures k == Cycles(k) * MAX_SEQUENCE + Draws(k)
    ensures 1 <= Draws(k) <= MAX_SEQUENCE
  {
    if k == 1 {
      assert Draws(1) == NextSequence(Draws(0)) == NextSequence(0);
      NextSequenceCounts(0);
    } else {
      DrawsSplit(k - 1);
      NextSequenceCounts(Draws(k - 1));
    }
  }

  /** Two numbers drawn in one session are equal exactly when a whole number of
      cycles of 2^32 - 1 draws lies between them. */
  lemma SequenceRepeatsExactly(j: nat, k: nat)
    requires 0 < j <= k
    ensures Draws(j) == Draws(k) <==> WholeCycles(k - j)
  {
    DrawsSplit(j);
    DrawsSplit(k);
    if Draws(j) == Draws(k) {
      assert IsCycles(k - j, Cycles(k) - Cycles(j));
    }
    if WholeCycles(k - j) {
      var distance := k - j;
      var cycles :| IsCycles(distance, cycles);
      assert Draws(k) - Draws(j) == (cycles - Cycles(k) + Cycles(j)) * MAX_SEQUENCE;
    }
  }

  // ----- Steps -----

  predicate Plain(ops: seq<Op>) {
    forall i :: 0 <= i < |ops| ==> !ops[i].Session?
  }

  predicate MayWrite(s: System, stamp: Option<nat>) {
    stamp.None? || stamp.value == s.generation
  }

  predicate Answered(e: Exchange) {
    forall x :: e.first <= x < e.first + e.count ==> x in e.answers
  }

  predicate Acked(e: Exchange) {
    forall x :: e.first <= x < e.first + e.count ==> x in e.answers && e.answers[x]
  }

  function Unanswered(e: Exchange, x: nat): (lines: seq<Slot>)
    requires e.first <= x <= e.first + e.count
    ensures forall i :: 0 <= i < |lines| ==>
      lines[i].Line? && x <= lines[i].x < e.first + e.count && lines[i].x !in e.answers
    ensures forall y :: x <= y < e.first + e.count && y !in e.answers ==> Line(y) in lines
    decreases e.first + e.count - x
  {
    if x == e.first + e.count then []
    else if x in e.answers then Unanswered(e, x + 1)
    else [Line(x)] + Unanswered(e, x + 1)
  }

  function Entries(t: Ticket, turn: nat): (r: seq<Issue>)
    ensures |r| == |t.ops|
    ensures forall i :: 0 <= i < |r| ==>
      r[i] == Issue(Command(t.sid, t.first + i, t.ops[i]), turn, t.lease, t.stamp, t.owner)
  {
    seq(|t.ops|, i requires 0 <= i < |t.ops| =>
      Issue(Command(t.sid, t.first + i, t.ops[i]), turn, t.lease, t.stamp, t.owner))
  }

  predicate Enabled(s: System, step: Step) {
    match step
    case OpenSession(_) => s.sid.None?
    case Request(ops, lease, stamp, owner) =>
      && s.ready && s.sid.Some?
      && 1 <= |ops| <= BATCH_LIMIT && Plain(ops) && !owner.SessionOwner?
      && s.sequence + |ops| <= MAX_SEQUENCE
    case Refuse(t) => t in s.tickets
    case Acquire(t) =>
      && s.lock.None? && t in s.tickets && s.sid == Some(t.sid)
      && MayWrite(s, t.stamp) && (s.ready || t.owner.SessionOwner?)
    case Send =>
      && s.lock.Some? && s.lock.value.attempt < 2 && !Answered(s.lock.value)
      && s.lock.value.first < |s.issued|
      && (var issue := s.issued[s.lock.value.first];
          && s.sid == Some(issue.command.sid)
          && (s.lock.value.count > 1 ==> s.ready && MayWrite(s, issue.stamp)))
    case Deliver => s.back != []
    case Finish(up) =>
      && s.lock.Some? && Acked(s.lock.value) && s.lock.value.first < |s.issued|
      && (up ==> s.issued[s.lock.value.first].owner.SessionOwner?
                 && s.sid == Some(s.issued[s.lock.value.first].command.sid))
    case Abandon => s.lock.Some?
    case Fault => true
    case Bump => true
    case Teardown => s.sid.Some?
    case PicoTakes(_) => s.forward != [] && (s.forward[0].Line? ==> s.forward[0].x < |s.issued|)
    case PicoTimers(_) => true
    case PicoRestarts => true
    case Lose(i) => i < |s.forward|
    case Mangle(i) => i < |s.forward|
    case LoseBack(i) => i < |s.back|
  }

  /** The session line waits for the wire as number zero of its session. */
  function Greeting(sid: Sid, watchdogMs: int): Ticket {
    Ticket(sid, 0, [Session(watchdogMs)], None, None, SessionOwner)
  }

  function Opened(s: System, watchdogMs: int): System {
    s.(sid := Some(s.nextSid), nextSid := s.nextSid + 1, greeted := false, sequence := 0, ready := false,
       tickets := s.tickets + {Greeting(s.nextSid, watchdogMs)})
  }

  function Requested(s: System, ops: seq<Op>, lease: Option<Lease>, stamp: Option<nat>, owner: Owner): System
    requires s.sid.Some?
  {
    s.(sequence := s.sequence + |ops|,
       tickets := s.tickets + {Ticket(s.sid.value, s.sequence + 1, ops, lease, stamp, owner)})
  }

  function Acquired(s: System, t: Ticket): System {
    s.(tickets := s.tickets - {t},
       greeted := s.greeted || t.owner.SessionOwner?,
       issued := s.issued + Entries(t, s.turns),
       turns := s.turns + 1,
       lock := Some(Exchange(|s.issued|, |t.ops|, 0, map[])))
  }

  function Sent(s: System): System
    requires s.lock.Some?
  {
    var e := s.lock.value;
    s.(forward := s.forward + Unanswered(e, e.first), lock := Some(e.(attempt := e.attempt + 1)))
  }

  /** `_read_loop`: a response of the current session resolves the pending future
      with its sequence number, once; anything else is ignored. */
  function Recorded(s: System, e: Exchange, response: Response): Exchange
    requires e.first < |s.issued|
  {
    var head := s.issued[e.first].command;
    if (response.Ack? || response.Nack?) && s.sid == Some(response.sid) && head.sid == response.sid
       && head.sequence <= response.sequence < head.sequence + e.count
       && e.first + (response.sequence - head.sequence) !in e.answers
    then e.(answers := e.answers[e.first + (response.sequence - head.sequence) := response.Ack?])
    else e
  }

  function Delivered(s: System): System
    requires s.back != []
  {
    var rest := s.(back := s.back[1..]);
    if s.lock.Some? && s.lock.value.first < |s.issued|
    then rest.(lock := Some(Recorded(s, s.lock.value, s.back[0])))
    else rest
  }

  function Remembered(cached: seq<nat>, x: nat): seq<nat> {
    var grown := cached + [x];
    if |grown| > RESPONSE_CACHE_SIZE then grown[1..] else grown
  }

  /** The Pico takes one line; `seen`, `cached` and `log` note what it did with it. */
  function TakenLine(s: System, x: nat, o: Oracle): System
    requires s.forward != [] && x < |s.issued|
  {
    var c := s.issued[x].command;
    var (pico, response, execution) := Handle(s.pico, c, o);
    var unmatched := Lookup(s.pico.cache, c.sid, c.sequence).None?;
    s.(forward := s.forward[1..],
       back := s.back + [response],
       pico := pico,
       seen := if unmatched then s.seen + {x} else s.seen,
       cached := if !unmatched then s.cached else if c.op.Session? then [x] else Remembered(s.cached, x),
       log := if execution.Executed? then s.log + [Event(x, execution.done, execution.typed)] else s.log)
  }

  function TakenNoise(s: System): System
    requires s.forward != []
  {
    s.(forward := s.forward[1..], back := s.back + [AnonymousNack("bad_json")], pico := HandleGarbage(s.pico))
  }

  function Apply(s: System, step: Step): System
    requires Enabled(s, step)
  {
    match step
    case OpenSession(watchdogMs) => Opened(s, watchdogMs)
    case Request(ops, lease, stamp, owner) => Requested(s, ops, lease, stamp, owner)
    case Refuse(t) => s.(tickets := s.tickets - {t})
    case Acquire(t) => Acquired(s, t)
    case Send => Sent(s)
    case Deliver => Delivered(s)
    case Finish(up) => s.(lock := None, ready := s.ready || up)
    case Abandon => s.(lock := None)
    case Fault => s.(ready := false, generation := s.generation + 1)
    case Bump => s.(generation := s.generation + 1)
    case Teardown => s.(ready := false, generation := s.generation + 1, sid := None)
    case PicoTakes(o) => if s.forward[0].Line? then TakenLine(s, s.forward[0].x, o) else TakenNoise(s)
    case PicoTimers(now) =>
      var (pico, event) := Timers(s.pico, now);
      s.(pico := pico, back := if event.Some? then s.back + [event.value] else s.back)
    case PicoRestarts => s.(pico := BOOT, cached := [], back := s.back + [Ready])
    case Lose(i) => s.(forward := s.forward[..i] + s.forward[i + 1..])
    case Mangle(i) => s.(forward := s.forward[i := Noise])
    case LoseBack(i) => s.(back := s.back[..i] + s.back[i + 1..])
  }
}
