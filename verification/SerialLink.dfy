/** The gateway's end of the serial session as the source has it: an object whose
    methods update its fields between suspension points
    (gateway/noob_gateway/serial_link.py, `SerialLink`). Each method is proved to be
    the step of the same meaning in `Wire`. */
module SerialLink {
  import opened Options
  import opened Pico
  import opened Wire

  /** What is still to come completes the lines of the attempt. */
  ghost predicate WritesOn(e: Exchange, x: nat, lines: seq<Slot>, all: seq<Slot>) {
    e.first <= x <= e.first + e.count && lines + Unanswered(e, x) == all
  }

  lemma OneMoreLine(e: Exchange, x: nat, lines: seq<Slot>, all: seq<Slot>)
    requires x < e.first + e.count && WritesOn(e, x, lines, all)
    ensures WritesOn(e, x + 1, if x in e.answers then lines else lines + [Line(x)], all)
  {
    if x !in e.answers {
      var rest := Unanswered(e, x + 1);
      assert lines + ([Line(x)] + rest) == (lines + [Line(x)]) + rest;
    }
  }

  lemma WritesAll(e: Exchange, x: nat, lines: seq<Slot>, all: seq<Slot>)
    requires x == e.first + e.count && WritesOn(e, x, lines, all)
    ensures lines == all
  {
    assert lines + [] == lines;
  }

  function Before(sequence: nat, numbers: seq<nat>, i: nat): nat
    requires i <= |numbers|
  {
    if i == 0 then sequence else numbers[i - 1]
  }

  /** Each number is the next one after the number before it. */
  predicate Consecutive(sequence: nat, numbers: seq<nat>) {
    forall i :: 0 <= i < |numbers| ==> numbers[i] == NextSequence(Before(sequence, numbers, i))
  }

  lemma ConsecutiveMore(sequence: nat, numbers: seq<nat>, number: nat)
    requires Consecutive(sequence, numbers) && number == NextSequence(Before(sequence, numbers, |numbers|))
    ensures Consecutive(sequence, numbers + [number])
  {
    var more := numbers + [number];
    forall i | 0 <= i < |more| ensures more[i] == NextSequence(Before(sequence, more, i)) {
      assert Before(sequence, more, i) == Before(sequence, numbers, i);
    }
  }

  class SerialLink {
    var sid: Option<Sid>
    var nextSid: Sid
    var greeted: bool
    var sequence: nat
    var abortGeneration: nat
    var ready: bool
    var waiting: set<Ticket>
    var issued: seq<Issue>
    var turns: nat
    var pending: Option<Exchange>
    var outbound: seq<Slot>
    var inbound: seq<Response>
    /** Set from the first fault of a connection until the next one is opened. */
    var disconnected: bool
    /** The other end, which no method here touches. */
    ghost var pico: State
    ghost var seen: set<nat>
    ghost var cached: seq<nat>
    ghost var log: seq<Event>

    ghost function Model(): System
      reads this
    {
      System(sid, nextSid, greeted, sequence, abortGeneration, ready, waiting, issued, turns, pending,
             outbound, inbound, pico, seen, cached, log)
    }

    constructor ()
      ensures Model() == INITIAL
    {
      sid, nextSid, greeted, sequence, abortGeneration, ready := None, 0, false, 0, 0, false;
      waiting, issued, turns, pending, outbound, inbound := {}, [], 0, None, [], [];
      disconnected := false;
      pico, seen, cached, log := BOOT, {}, [], [];
    }

    method ResetSession()
      modifies this`greeted, this`sequence, this`ready, this`disconnected
      ensures !greeted && sequence == 0 && !ready && !disconnected
    {
      greeted, sequence, ready, disconnected := false, 0, false, false;
    }

    /** `_supervise` opens a session: a fresh id, and the session line as number zero. */
    method OpenSession(watchdogMs: int)
      requires sid.None?
      modifies this`waiting, this`sid, this`nextSid, this`greeted, this`sequence, this`ready, this`disconnected
      ensures Model() == Opened(old(Model()), watchdogMs)
    {
      waiting := waiting + {Greeting(nextSid, watchdogMs)};
      sid := Some(nextSid);
      nextSid := nextSid + 1;
      ResetSession();
    }

    method DrawNumber() returns (number: nat)
      modifies this`sequence
      ensures number == sequence == NextSequence(old(sequence))
    {
      sequence := (sequence + 1) % (MAX_SEQUENCE + 1);
      if sequence == 0 {
        sequence := 1;
      }
      number := sequence;
    }

    /** One number per operation, also where the counter wraps. */
    method DrawNumbers(count: nat) returns (numbers: seq<nat>)
      requires sequence <= MAX_SEQUENCE
      modifies this`sequence
      ensures |numbers| == count && sequence <= MAX_SEQUENCE
      ensures Consecutive(old(sequence), numbers)
      ensures sequence == Before(old(sequence), numbers, count)
      ensures old(sequence) + count <= MAX_SEQUENCE ==> forall i :: 0 <= i < count ==> numbers[i] == old(sequence) + 1 + i
    {
      numbers := [];
      while |numbers| < count
        invariant |numbers| <= count && sequence <= MAX_SEQUENCE
        invariant Consecutive(old(sequence), numbers)
        invariant sequence == Before(old(sequence), numbers, |numbers|)
        invariant old(sequence) + count <= MAX_SEQUENCE ==>
          forall i :: 0 <= i < |numbers| ==> numbers[i] == old(sequence) + 1 + i
      {
        NextSequenceCounts(sequence);
        var number := DrawNumber();
        ConsecutiveMore(old(sequence), numbers, number);
        numbers := numbers + [number];
      }
    }

    method AwaitWire(t: Ticket)
      modifies this`waiting
      ensures waiting == old(waiting) + {t}
    {
      waiting := waiting + {t};
    }

    /** Numbers are drawn one per operation before the wire lock is asked for. */
    method QueueExchange(ops: seq<Op>, lease: Option<Lease>, stamp: Option<nat>, owner: Owner)
      requires sid.Some? && ops != [] && sequence + |ops| <= MAX_SEQUENCE
      modifies this`sequence, this`waiting
      ensures Model() == Requested(old(Model()), ops, lease, stamp, owner)
    {
      var numbers := DrawNumbers(|ops|);
      assert numbers[0] == old(sequence) + 1;
      AwaitWire(Ticket(sid.value, numbers[0], ops, lease, stamp, owner));
    }

    method TakeWireLock(t: Ticket)
      requires pending.None? && t in waiting
      modifies this`waiting, this`greeted, this`pending, this`issued, this`turns
      ensures Model() == Acquired(old(Model()), t)
    {
      waiting := waiting - {t};
      greeted := greeted || t.owner.SessionOwner?;
      pending := Some(Exchange(|issued|, |t.ops|, 0, map[]));
      issued := issued + Entries(t, turns);
      turns := turns + 1;
    }

    method LinesToWrite(e: Exchange) returns (lines: seq<Slot>)
      ensures lines == Unanswered(e, e.first)
    {
      lines := [];
      var x := e.first;
      ghost var all := Unanswered(e, e.first);
      while x < e.first + e.count
        invariant e.first <= x <= e.first + e.count && WritesOn(e, x, lines, all)
      {
        OneMoreLine(e, x, lines, all);
        if x !in e.answers {
          lines := lines + [Line(x)];
        }
        x := x + 1;
      }
      WritesAll(e, x, lines, all);
    }

    /** One attempt: every line not yet answered is written, in order. */
    method WriteUnanswered()
      requires pending.Some? && pending.value.attempt < 2
      modifies this
      ensures Model() == Sent(old(Model()))
    {
      var lines := LinesToWrite(pending.value);
      outbound := outbound + lines;
      pending := Some(pending.value.(attempt := pending.value.attempt + 1));
    }

    /** `_read_loop` dispatches one response to the future waiting for its number. */
    method DispatchResponse()
      requires inbound != []
      modifies this
      ensures Model() == Delivered(old(Model()))
    {
      var response := inbound[0];
      inbound := inbound[1..];
      if pending.None? || pending.value.first >= |issued| {
        return;
      }
      var e := pending.value;
      var head := issued[e.first].command;
      if !(response.Ack? || response.Nack?) || sid != Some(response.sid) || head.sid != response.sid {
        return;
      }
      if response.sequence < head.sequence || response.sequence >= head.sequence + e.count {
        return;
      }
      var x := e.first + (response.sequence - head.sequence);
      if x !in e.answers {
        pending := Some(e.(answers := e.answers[x := response.Ack?]));
      }
    }

    method FinishExchange(up: bool)
      requires Enabled(Model(), Finish(up))
      modifies this
      ensures Model() == Apply(old(Model()), Finish(up))
    {
      pending := None;
      ready := ready || up;
    }

    /** `emergency_release` invalidates every older stamp before it writes anything. */
    method AbortOlder()
      modifies this
      ensures Model() == Apply(old(Model()), Bump)
    {
      abortGeneration := abortGeneration + 1;
    }

    /** `_mark_transport_unhealthy`: the first fault of a connection invalidates every
        stamp, later ones change nothing. */
    method MarkTransportUnhealthy()
      modifies this
      ensures !ready && disconnected
      ensures Model() == if old(ready) || !old(disconnected) then Apply(old(Model()), Fault) else old(Model())
    {
      var firstTransition := ready || !disconnected;
      ready := false;
      if firstTransition {
        abortGeneration := abortGeneration + 1;
      }
      disconnected := true;
    }

    /** The end of a session in `_supervise`. */
    method CloseSession()
      requires Enabled(Model(), Teardown)
      modifies this
      ensures Model() == Apply(old(Model()), Teardown)
    {
      ready := false;
      abortGeneration := abortGeneration + 1;
      sid := None;
    }
  }
}
