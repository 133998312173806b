/** The Pico's UART-to-HID firmware: command execution, the 16-entry response
    cache, session handling and the two release timers (pico/code.py).

    `keysDown` and `buttonsDown` are what the USB reports hold down; the
    dictionaries `heldKeys` and `heldButtons` are the firmware's own record of it. */
module Pico {
  import opened Options

  type Sid = nat
  type Lease = nat

  const RESPONSE_CACHE_SIZE: nat := 16
  const DEFAULT_WATCHDOG_MS: int := 2000
  const MAX_HELD_SECONDS: real := 10.0

  datatype ButtonEvent = Press | Release | Click

  datatype Op =
    | Session(watchdogMs: int)
    | Heartbeat
    | Ping
    | ReleaseAll
    | Key(down: bool, key: string)
    | Type(text: string, intervalMs: int)
    | Combo(keys: seq<string>, holdMs: int)
    | MouseMove(dx: int, dy: int, wheel: int)
    | MouseButton(button: string, event: ButtonEvent)

  /** One accepted line. */
  datatype Command = Command(sid: Sid, sequence: nat, op: Op)

  /** One line back to the host; `Nack` without identifiers answers a line that did not parse. */
  datatype Response =
    | Ack(sid: Sid, sequence: nat)
    | Nack(sid: Sid, sequence: nat, code: string, released: bool)
    | AnonymousNack(code: string)
    | ReleasedEvent(reason: string)
    | Ready

  datatype Entry = Entry(sid: Sid, sequence: nat, response: Response)

  /** What the hardware decides while a command runs: the clock, whether a HID
      call raised, how far a failing `type` got, and which keys the layout
      library left pressed. */
  datatype Oracle = Oracle(now: real, fails: bool, typed: nat, stillDown: set<string>)

  datatype State = State(
    active: Option<Sid>,
    watchdogMs: int,
    lastValidAt: real,
    heldKeys: map<string, real>,
    heldButtons: map<string, real>,
    keysDown: set<string>,
    buttonsDown: set<string>,
    cache: seq<Entry>)

  /** `done` says whether the operation ran to its end; `typed` counts characters sent. */
  datatype Execution = Skipped | Executed(done: bool, typed: nat)

  const BOOT: State := State(None, DEFAULT_WATCHDOG_MS, 0.0, map[], map[], {}, {}, [])

  predicate NothingHeld(p: State) {
    p.heldKeys == map[] && p.heldButtons == map[] && p.keysDown == {} && p.buttonsDown == {}
  }

  /** The records cover the reports, and no session means nothing is held. */
  predicate Valid(p: State) {
    && p.keysDown <= p.heldKeys.Keys
    && p.buttonsDown <= p.heldButtons.Keys
    && (p.active.None? ==> NothingHeld(p))
    && |p.cache| <= RESPONSE_CACHE_SIZE
  }

  function ReleaseHeld(p: State): State {
    p.(heldKeys := map[], heldButtons := map[], keysDown := {}, buttonsDown := {})
  }

  function Lookup(cache: seq<Entry>, sid: Sid, sequence: nat): (r: Option<Response>)
    ensures r.Some? <==> exists i :: 0 <= i < |cache| && cache[i].sid == sid && cache[i].sequence == sequence
    ensures r.Some? ==> Entry(sid, sequence, r.value) in cache
  {
    if cache == [] then None
    else if cache[0].sid == sid && cache[0].sequence == sequence then
      assert cache[0] == Entry(sid, sequence, cache[0].response);
      Some(cache[0].response)
    else
      Lookup(cache[1..], sid, sequence)
  }

  function Remember(cache: seq<Entry>, entry: Entry): seq<Entry> {
    var grown := cache + [entry];
    if |grown| > RESPONSE_CACHE_SIZE then grown[1..] else grown
  }

  function KeyEffect(p: State, down: bool, key: string, now: real): State {
    if !down then
      p.(keysDown := p.keysDown - {key}, heldKeys := p.heldKeys - {key})
    else if key in p.heldKeys then p
    else p.(keysDown := p.keysDown + {key}, heldKeys := p.heldKeys[key := now])
  }

  function ButtonEffect(p: State, button: string, event: ButtonEvent, now: real): State {
    match event
    case Press =>
      if button in p.heldButtons then p
      else p.(buttonsDown := p.buttonsDown + {button}, heldButtons := p.heldButtons[button := now])
    case Release =>
      p.(buttonsDown := p.buttonsDown - {button}, heldButtons := p.heldButtons - {button})
    case Click =>
      p.(buttonsDown := p.buttonsDown - {button})
  }

  predicate TouchesHid(op: Op) {
    op.Key? || op.Type? || op.Combo? || op.MouseMove? || op.MouseButton?
  }

  function HidEffect(p: State, op: Op, o: Oracle): State {
    match op
    case Key(down, key) => KeyEffect(p, down, key, o.now)
    case Type(_, _) => p.(keysDown := p.keysDown * o.stillDown)
    case Combo(_, _) => ReleaseHeld(p)
    case MouseButton(button, event) => ButtonEffect(p, button, event, o.now)
    case ReleaseAll => ReleaseHeld(p)
    case _ => p
  }

  function TypedBy(op: Op, o: Oracle): nat {
    if !op.Type? then 0
    else if o.fails && o.typed < |op.text| then o.typed
    else |op.text|
  }

  /** A command that is not in the cache, before its response is remembered. */
  function Perform(p: State, c: Command, o: Oracle): (r: (State, Response, Execution)) {
    if c.op.Session? then
      (ReleaseHeld(p).(cache := [], active := Some(c.sid), watchdogMs := c.op.watchdogMs, lastValidAt := o.now),
       Ack(c.sid, c.sequence), Executed(true, 0))
    else if p.active.None? then
      (p, Nack(c.sid, c.sequence, "no_session", false), Skipped)
    else if p.active != Some(c.sid) then
      (ReleaseHeld(p).(active := None), Nack(c.sid, c.sequence, "bad_session", true), Skipped)
    else if TouchesHid(c.op) && o.fails then
      (ReleaseHeld(p).(lastValidAt := o.now), Nack(c.sid, c.sequence, "exec_failed", true),
       Executed(false, TypedBy(c.op, o)))
    else
      (HidEffect(p.(lastValidAt := o.now), c.op, o), Ack(c.sid, c.sequence),
       Executed(true, TypedBy(c.op, o)))
  }

  /** One accepted line: a cached response is repeated, anything else runs and is cached. */
  function Handle(p: State, c: Command, o: Oracle): (State, Response, Execution) {
    match Lookup(p.cache, c.sid, c.sequence)
    case Some(response) => (p, response, Skipped)
    case None =>
      var (q, response, execution) := Perform(p, c, o);
      (q.(cache := Remember(q.cache, Entry(c.sid, c.sequence, response))), response, execution)
  }

  /** A line that does not parse. */
  function HandleGarbage(p: State): State { ReleaseHeld(p) }

  predicate HeldTooLong(held: map<string, real>, now: real) {
    exists name :: name in held && now - held[name] > MAX_HELD_SECONDS
  }

  /** The part of the main loop that releases on silence or on a long hold. */
  function Timers(p: State, now: real): (State, Option<Response>) {
    if p.active.None? then (p, None)
    else if (now - p.lastValidAt) * 1000.0 > p.watchdogMs as real then
      (ReleaseHeld(p).(active := None), Some(ReleasedEvent("watchdog")))
    else if HeldTooLong(p.heldKeys, now) || HeldTooLong(p.heldButtons, now) then
      (ReleaseHeld(p).(active := None), Some(ReleasedEvent("held_timeout")))
    else (p, None)
  }

  /** Every handled line and every timer tick keeps the records covering the
      reports, and keeps an idle Pico holding nothing. */
  lemma StepsKeepValid(p: State, c: Command, o: Oracle)
    requires Valid(p)
    ensures Valid(Handle(p, c, o).0)
    ensures Valid(HandleGarbage(p)) && NothingHeld(HandleGarbage(p))
    ensures Valid(Timers(p, o.now).0)
  {
    if Lookup(p.cache, c.sid, c.sequence).None? {
      var q := Perform(p, c, o).0;
      assert q.keysDown <= q.heldKeys.Keys && q.buttonsDown <= q.heldButtons.Keys;
    }
  }

  /** Nothing but a session line starts a session, and no line runs outside its
      own session: a line of another session is never executed. */
  lemma OnlyOwnSessionExecutes(p: State, c: Command, o: Oracle)
    ensures var (q, r, e) := Handle(p, c, o);
      && (e.Executed? ==> c.op.Session? || p.active == Some(c.sid))
      && (q.active.Some? && q.active != p.active ==> c.op.Session? && e.Executed? && q.active == Some(c.sid))
      && (r == Ack(c.sid, c.sequence) && Lookup(p.cache, c.sid, c.sequence).None? ==> e.Executed? && e.done)
      && (r != Ack(c.sid, c.sequence) && e.Executed? ==> !e.done)
  {
  }

  lemma PerformAnswers(p: State, c: Command, o: Oracle)
    ensures var (q, r, e) := Perform(p, c, o);
      && (r == Ack(c.sid, c.sequence) || (r.Nack? && r.sid == c.sid && r.sequence == c.sequence))
      && (r.Ack? <==> e.Executed? && e.done)
      && (if c.op.Session? then e.Executed? && q.active == Some(c.sid) && NothingHeld(q) && q.cache == []
          else (e.Executed? ==> p.active == Some(c.sid)) && (q.active == p.active || q.active.None?) && q.cache == p.cache)
      && (c.op.ReleaseAll? && (e.Executed? || NothingHeld(p)) ==> NothingHeld(q))
  {
  }

  /** A line not in the cache: it is answered under its own identifiers, an
      acknowledgement means it ran to its end, it ran only inside its own session,
      and the answer is what the cache remembers. */
  lemma AnsweredAnew(p: State, c: Command, o: Oracle)
    requires Valid(p) && Lookup(p.cache, c.sid, c.sequence).None?
    ensures var (q, r, e) := Handle(p, c, o);
      && Valid(q)
      && (r == Ack(c.sid, c.sequence) || (r.Nack? && r.sid == c.sid && r.sequence == c.sequence))
      && (r.Ack? <==> e.Executed? && e.done)
      && (if c.op.Session? then e.Executed? && q.active == Some(c.sid) && NothingHeld(q)
          else (e.Executed? ==> p.active == Some(c.sid)) && (q.active == p.active || q.active.None?))
      && q.cache == (if c.op.Session? then [Entry(c.sid, c.sequence, r)]
                     else Remember(p.cache, Entry(c.sid, c.sequence, r)))
      && (c.op.ReleaseAll? && (e.Executed? || NothingHeld(p)) ==> NothingHeld(q))
  {
    StepsKeepValid(p, c, o);
    PerformAnswers(p, c, o);
  }

  /** What a single handled line may leave held: only a press adds to it. */
  lemma OnlyPressesHold(p: State, c: Command, o: Oracle)
    requires NothingHeld(p)
    requires !(c.op.Key? && c.op.down) && !(c.op.MouseButton? && c.op.event.Press?)
    ensures NothingHeld(Handle(p, c, o).0)
  {
  }

  /** The firmware as the module globals of pico/code.py and the handlers that assign them. */
  class Firmware {
    var activeSid: Option<Sid>
    var watchdogMs: int
    var lastValidAt: real
    var heldKeys: map<string, real>
    var heldButtons: map<string, real>
    var responseCache: seq<Entry>
    var keysDown: set<string>
    var buttonsDown: set<string>

    function Model(): State
      reads this
    {
      State(activeSid, watchdogMs, lastValidAt, heldKeys, heldButtons, keysDown, buttonsDown, responseCache)
    }

    constructor ()
      ensures Model() == BOOT
    {
      activeSid, watchdogMs, lastValidAt := None, DEFAULT_WATCHDOG_MS, 0.0;
      heldKeys, heldButtons, responseCache := map[], map[], [];
      keysDown, buttonsDown := {}, {};
    }

    method ReleaseEverything()
      modifies this
      ensures Model() == ReleaseHeld(old(Model()))
    {
      keysDown := {};
      buttonsDown := {};
      heldKeys := map[];
      heldButtons := map[];
    }

    method CacheGet(sid: Sid, sequence: nat) returns (r: Option<Response>)
      ensures r == Lookup(responseCache, sid, sequence)
    {
      var i := 0;
      while i < |responseCache|
        invariant 0 <= i <= |responseCache|
        invariant Lookup(responseCache, sid, sequence) == Lookup(responseCache[i..], sid, sequence)
      {
        if responseCache[i].sid == sid && responseCache[i].sequence == sequence {
          return Some(responseCache[i].response);
        }
        assert responseCache[i..][1..] == responseCache[i + 1..];
        i := i + 1;
      }
      r := None;
    }

    method CachePut(sid: Sid, sequence: nat, response: Response)
      modifies this`responseCache
      ensures responseCache == Remember(old(responseCache), Entry(sid, sequence, response))
    {
      responseCache := responseCache + [Entry(sid, sequence, response)];
      if |responseCache| > RESPONSE_CACHE_SIZE {
        responseCache := responseCache[1..];
      }
    }

    method AckCommand(c: Command) returns (r: Response)
      modifies this`responseCache
      ensures r == Ack(c.sid, c.sequence)
      ensures responseCache == Remember(old(responseCache), Entry(c.sid, c.sequence, r))
    {
      r := Ack(c.sid, c.sequence);
      CachePut(c.sid, c.sequence, r);
    }

    method NackCommand(code: string, c: Command, released: bool) returns (r: Response)
      modifies this`responseCache
      ensures r == Nack(c.sid, c.sequence, code, released)
      ensures responseCache == Remember(old(responseCache), Entry(c.sid, c.sequence, r))
    {
      r := Nack(c.sid, c.sequence, code, released);
      CachePut(c.sid, c.sequence, r);
    }

    method PressOrRelease(down: bool, key: string, now: real)
      modifies this`keysDown, this`heldKeys
      ensures Model() == KeyEffect(old(Model()), down, key, now)
    {
      if down {
        if key !in heldKeys {
          keysDown := keysDown + {key};
          heldKeys := heldKeys[key := now];
        }
      } else {
        keysDown := keysDown - {key};
        heldKeys := heldKeys - {key};
      }
    }

    method DriveButton(button: string, event: ButtonEvent, now: real)
      modifies this`buttonsDown, this`heldButtons
      ensures Model() == ButtonEffect(old(Model()), button, event, now)
    {
      if event.Press? {
        if button !in heldButtons {
          buttonsDown := buttonsDown + {button};
          heldButtons := heldButtons[button := now];
        }
      } else if event.Release? {
        buttonsDown := buttonsDown - {button};
        heldButtons := heldButtons - {button};
      } else {
        buttonsDown := buttonsDown - {button};
      }
    }

    /** `_execute` together with the handler that turns a raised HID error into a nack. */
    method Execute(c: Command, o: Oracle) returns (r: Response, execution: Execution)
      modifies this
      ensures (Model(), r, execution) == Handle(old(Model()), c, o)
    {
      execution := Skipped;
      var cached := CacheGet(c.sid, c.sequence);
      if cached.Some? {
        return cached.value, Skipped;
      }
      if c.op.Session? {
        ReleaseEverything();
        responseCache := [];
        activeSid := Some(c.sid);
        watchdogMs := c.op.watchdogMs;
        lastValidAt := o.now;
        r := AckCommand(c);
        return r, Executed(true, 0);
      }
      if activeSid.None? {
        r := NackCommand("no_session", c, false);
        return;
      }
      if activeSid.value != c.sid {
        ReleaseEverything();
        activeSid := None;
        r := NackCommand("bad_session", c, true);
        return;
      }
      lastValidAt := o.now;
      execution := Executed(!(TouchesHid(c.op) && o.fails), TypedBy(c.op, o));
      if TouchesHid(c.op) && o.fails {
        ReleaseEverything();
        r := NackCommand("exec_failed", c, true);
        return;
      }
      match c.op {
        case Key(down, key) => PressOrRelease(down, key, o.now);
        case Type(_, _) => keysDown := keysDown * o.stillDown;
        case Combo(_, _) => ReleaseEverything();
        case MouseButton(button, event) => DriveButton(button, event, o.now);
        case ReleaseAll => ReleaseEverything();
        case _ =>
      }
      r := AckCommand(c);
    }

    method RejectLine(code: string) returns (r: Response)
      modifies this
      ensures Model() == HandleGarbage(old(Model())) && r == AnonymousNack(code)
    {
      ReleaseEverything();
      r := AnonymousNack(code);
    }

    method CheckTimers(now: real) returns (event: Option<Response>)
      modifies this
      ensures (Model(), event) == Timers(old(Model()), now)
    {
      event := None;
      if activeSid.Some? {
        if (now - lastValidAt) * 1000.0 > watchdogMs as real {
          ReleaseEverything();
          activeSid := None;
          event := Some(ReleasedEvent("watchdog"));
        } else if HeldTooLong(heldKeys, now) || HeldTooLong(heldButtons, now) {
          ReleaseEverything();
          activeSid := None;
          event := Some(ReleasedEvent("held_timeout"));
        }
      }
    }
  }
}
