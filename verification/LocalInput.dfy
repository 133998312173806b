/** The uConsole keyboard and trackball adapter (gateway/noob_gateway/local_input.py):
    which events it forwards, the buffered emergency chord, and motion. Every event
    is handled under the event lock, so one method call is one event. */
module LocalInput {
  const AXIS_LIMIT: int := 1016
  const MAX_ACCUMULATED_MOTION: int := 4096

  datatype Control = KeyOf(name: string) | ButtonOf(name: string)

  datatype Command = Press(control: Control) | Lift(control: Control) | MoveBy(dx: int, dy: int)

  // ----- What a list of submitted commands means for the target -----

  predicate IsDown(log: seq<Command>, c: Control) {
    log != [] &&
    match log[|log| - 1]
    case Press(d) => d == c || IsDown(log[..|log| - 1], c)
    case Lift(d) => d != c && IsDown(log[..|log| - 1], c)
    case MoveBy(_, _) => IsDown(log[..|log| - 1], c)
  }

  /** Presses and lifts of the control take turns, a press first. */
  predicate Alternates(log: seq<Command>, c: Control) {
    log == [] ||
    (&& Alternates(log[..|log| - 1], c)
     && match log[|log| - 1]
        case Press(d) => d == c ==> !IsDown(log[..|log| - 1], c)
        case Lift(d) => d == c ==> IsDown(log[..|log| - 1], c)
        case MoveBy(_, _) => true)
  }

  function SumX(log: seq<Command>): int {
    if log == [] then 0 else SumX(log[..|log| - 1]) + (var c := log[|log| - 1]; if c.MoveBy? then c.dx else 0)
  }

  function SumY(log: seq<Command>): int {
    if log == [] then 0 else SumY(log[..|log| - 1]) + (var c := log[|log| - 1]; if c.MoveBy? then c.dy else 0)
  }

  function Count(log: seq<Command>, c: Command): nat {
    if log == [] then 0 else Count(log[..|log| - 1], c) + if log[|log| - 1] == c then 1 else 0
  }

  /** Taking turns means no key is stuck or doubled: every press has its lift, but for the last. */
  lemma {:induction false} AlternatingIsBalanced(log: seq<Command>, c: Control)
    requires Alternates(log, c)
    ensures Count(log, Press(c)) == Count(log, Lift(c)) + if IsDown(log, c) then 1 else 0
  {
    if log != [] { AlternatingIsBalanced(log[..|log| - 1], c); }
  }

  lemma OneMore(log: seq<Command>, e: Command, c: Control)
    ensures IsDown(log + [e], c) == match e
      case Press(d) => d == c || IsDown(log, c)
      case Lift(d) => d != c && IsDown(log, c)
      case MoveBy(_, _) => IsDown(log, c)
    ensures Alternates(log + [e], c) == (Alternates(log, c) && match e
      case Press(d) => d == c ==> !IsDown(log, c)
      case Lift(d) => d == c ==> IsDown(log, c)
      case MoveBy(_, _) => true)
    ensures SumX(log + [e]) == SumX(log) + if e.MoveBy? then e.dx else 0
    ensures SumY(log + [e]) == SumY(log) + if e.MoveBy? then e.dy else 0
  {
    assert (log + [e])[..|log|] == log;
  }

  /** At this moment some key of the chord is up. */
  ghost predicate ChordUp(log: seq<Command>, chord: set<string>) {
    exists name :: name in chord && !IsDown(log, KeyOf(name))
  }

  /** At no moment was the whole chord down on the target. */
  ghost predicate ChordNeverDown(log: seq<Command>, chord: set<string>) {
    forall n :: 0 <= n <= |log| ==> ChordUp(log[..n], chord)
  }

  lemma ChordStaysUp(log: seq<Command>, e: Command, chord: set<string>)
    requires ChordNeverDown(log, chord) && ChordUp(log + [e], chord)
    ensures ChordNeverDown(log + [e], chord)
  {
    var all := log + [e];
    forall n | 0 <= n <= |all| ensures ChordUp(all[..n], chord) {
      if n == |all| { assert all[..n] == all; } else { assert all[..n] == log[..n]; }
    }
  }

  lemma NothingSent(chord: set<string>)
    requires chord != {}
    ensures (forall c: Control :: Alternates([], c) && !IsDown([], c)) && ChordNeverDown([], chord)
    ensures SumX([]) == 0 && SumY([]) == 0
  {
    var some :| some in chord;
    assert !IsDown([], KeyOf(some));
    assert ChordUp([], chord);
  }

  // ----- Keys -----

  /** Physically down, forwarded to the target, and held back as part of the chord. */
  datatype Keys = Keys(physical: set<string>, forwarded: set<string>, pending: seq<string>)

  const NO_KEYS: Keys := Keys({}, {}, [])

  predicate Apart(k: Keys, chord: set<string>) {
    && k.forwarded <= k.physical
    && (forall i :: 0 <= i < |k.pending| ==> k.pending[i] in k.physical && k.pending[i] !in k.forwarded)
    && (forall i, j :: 0 <= i < j < |k.pending| ==> k.pending[i] != k.pending[j])
    && !(chord <= k.physical)
  }

  predicate KeysOk(k: Keys, chord: set<string>) {
    && Apart(k, chord)
    && (forall name :: name in k.pending ==> name in chord)
    && (forall name :: name in k.physical ==> name in k.forwarded || name in k.pending)
  }

  predicate Completes(k: Keys, chord: set<string>, name: string, value: int) {
    value == 1 && name !in k.physical && name in chord && chord <= k.physical + {name}
  }

  function Presses(names: seq<string>): (r: seq<Command>)
    ensures |r| == |names| && forall i :: 0 <= i < |r| ==> r[i] == Press(KeyOf(names[i]))
  {
    seq(|names|, i requires 0 <= i < |names| => Press(KeyOf(names[i])))
  }

  function SetOf(names: seq<string>): set<string> { set x | x in names }

  lemma PendingGoesOut(k: Keys, chord: set<string>, pending: seq<string>, i: nat)
    requires i < |pending| && Apart(k, chord) && k.pending == pending
    ensures pending[i] !in k.forwarded + SetOf(pending[..i]) && k.forwarded + SetOf(pending[..i]) <= k.physical
    ensures SetOf(pending[..i + 1]) == SetOf(pending[..i]) + {pending[i]}
    ensures Presses(pending[..i + 1]) == Presses(pending[..i]) + [Press(KeyOf(pending[i]))]
    ensures Presses(pending)[..i + 1] == Presses(pending[..i + 1])
  {
    assert pending[..i + 1] == pending[..i] + [pending[i]];
    forall x | x in SetOf(pending[..i]) ensures x != pending[i] && x in k.physical {
      var j :| 0 <= j < i && pending[j] == x;
    }
  }

  /** What a key event asks the target to do. */
  function KeyCommands(k: Keys, chord: set<string>, name: string, value: int): seq<Command> {
    if value == 1 then
      if name in k.physical || name in chord then [] else Presses(k.pending) + [Press(KeyOf(name))]
    else if value == 0 then
      if name in k.pending then [Press(KeyOf(name)), Lift(KeyOf(name))]
      else if name in k.forwarded then [Lift(KeyOf(name))] else []
    else []
  }

  /** Submission stopped part of the way, or after the last command. */
  ghost predicate Cut(log: seq<Command>, asked: seq<Command>, sent: seq<Command>) {
    exists n: nat :: 0 < n <= |asked| && sent == log + asked[..n]
  }

  lemma CutAll(log: seq<Command>, asked: seq<Command>)
    requires asked != []
    ensures Cut(log, asked, log + asked)
  {
    assert asked[..|asked|] == asked;
  }

  lemma CutFirst(log: seq<Command>, asked: seq<Command>)
    requires asked != []
    ensures Cut(log, asked, log + [asked[0]])
  {
    assert asked[..1] == [asked[0]];
  }

  lemma CutEarlier(log: seq<Command>, asked: seq<Command>, more: seq<Command>, sent: seq<Command>)
    requires Cut(log, asked, sent)
    ensures Cut(log, asked + more, sent)
  {
    var n: nat :| 0 < n <= |asked| && sent == log + asked[..n];
    assert (asked + more)[..n] == asked[..n];
  }

  /** The event did what `KeyCommands` asks, or was refused part of the way and disarmed. */
  ghost predicate KeyOutcome(k: Keys, chord: set<string>, name: string, value: int, log: seq<Command>,
                             armed: bool, held: Keys, sent: seq<Command>)
  {
    if Completes(k, chord, name, value) then !armed && sent == log
    else if armed then sent == log + KeyCommands(k, chord, name, value) && held == KeysAfter(k, chord, name, value)
    else Cut(log, KeyCommands(k, chord, name, value), sent)
  }

  function Without(names: seq<string>, name: string): (r: seq<string>)
    ensures forall i :: 0 <= i < |r| ==> r[i] in names
    ensures forall x :: x in names && x != name ==> x in r
  {
    if names == [] then []
    else if names[0] == name then names[1..]
    else [names[0]] + Without(names[1..], name)
  }

  /** The keys after an event whose commands were all accepted. */
  function KeysAfter(k: Keys, chord: set<string>, name: string, value: int): Keys {
    if value == 1 then
      if name in k.physical then k
      else if name in chord then
        k.(physical := k.physical + {name},
           pending := if name in k.pending || name in k.forwarded then k.pending else k.pending + [name])
      else Keys(k.physical + {name}, k.forwarded + SetOf(k.pending) + {name}, [])
    else if value == 0 then
      Keys(k.physical - {name}, k.forwarded - {name}, Without(k.pending, name))
    else k
  }

  lemma {:induction false} WithoutIsDistinct(names: seq<string>, name: string)
    requires forall i, j :: 0 <= i < j < |names| ==> names[i] != names[j]
    ensures name !in Without(names, name)
    ensures var r := Without(names, name); forall i, j :: 0 <= i < j < |r| ==> r[i] != r[j]
  {
    if names != [] && names[0] != name { WithoutIsDistinct(names[1..], name); }
  }

  lemma {:induction false} WithoutAbsent(names: seq<string>, name: string)
    ensures name !in names ==> Without(names, name) == names
  {
    if names != [] && names[0] != name { WithoutAbsent(names[1..], name); }
  }

  lemma PressKeeps(k: Keys, chord: set<string>, name: string)
    requires KeysOk(k, chord) && !Completes(k, chord, name, 1)
    ensures KeysOk(KeysAfter(k, chord, name, 1), chord)
  {
  }

  lemma LiftKeeps(k: Keys, chord: set<string>, name: string)
    requires KeysOk(k, chord)
    ensures KeysOk(KeysAfter(k, chord, name, 0), chord)
  {
    WithoutIsDistinct(k.pending, name);
    assert forall x :: x in k.pending && x != name ==> x in Without(k.pending, name);
  }

  /** Every key event keeps pending and forwarded keys apart and among the physical
      ones, and the chord incomplete, unless it completes it. */
  lemma KeyEventsKeep(k: Keys, chord: set<string>, name: string, value: int)
    requires KeysOk(k, chord) && !Completes(k, chord, name, value)
    ensures KeysOk(KeysAfter(k, chord, name, value), chord)
  {
    if value == 1 { PressKeeps(k, chord, name); } else if value == 0 { LiftKeeps(k, chord, name); }
  }

  // ----- The manager -----

  const EV_SYN: int := 0
  const EV_KEY: int := 1
  const EV_REL: int := 2
  const SYN_REPORT: int := 0
  const REL_X: int := 0
  const REL_Y: int := 1
  const POINTER_BUTTONS: map<int, string> := map[272 := "left", 273 := "right", 274 := "middle"]

  function Clamp(value: int, limit: int): int {
    if value < -limit then -limit else if value > limit then limit else value
  }

  function Abs(x: int): nat { if x < 0 then -x else x }

  /** What may be left of a movement after so many pieces. */
  predicate Within(d: int, pieces: nat) {
    d == 0 || Abs(d) <= MAX_ACCUMULATED_MOTION - pieces * AXIS_LIMIT
  }

  lemma PieceTaken(d: int, pieces: nat)
    requires Within(d, pieces)
    ensures Within(d - Clamp(d, AXIS_LIMIT), pieces + 1) && Abs(Clamp(d, AXIS_LIMIT)) <= AXIS_LIMIT
    ensures d != 0 ==> pieces < 5
  {
  }

  /** Where the motion stands: what is pending, what arrived, and whether a limit cut any. */
  datatype Motion = Motion(x: int, y: int, arrivedX: int, arrivedY: int, clamped: bool)

  /** Motion along one axis arrived: it adds to what is pending up to the limit. */
  predicate AxisMoved(before: int, value: int, after: int) {
    && (-MAX_ACCUMULATED_MOTION <= before + value <= MAX_ACCUMULATED_MOTION ==> after == before + value)
    && (before + value > MAX_ACCUMULATED_MOTION ==> after == MAX_ACCUMULATED_MOTION)
    && (before + value < -MAX_ACCUMULATED_MOTION ==> after == -MAX_ACCUMULATED_MOTION)
  }

  predicate MovedX(m: Motion, value: int, r: Motion) {
    && AxisMoved(m.x, value, r.x) && r.arrivedX == m.arrivedX + value && r.y == m.y && r.arrivedY == m.arrivedY
    && (r.clamped <==> m.clamped || m.x + value != r.x)
  }

  predicate MovedY(m: Motion, value: int, r: Motion) {
    && AxisMoved(m.y, value, r.y) && r.arrivedY == m.arrivedY + value && r.x == m.x && r.arrivedX == m.arrivedX
    && (r.clamped <==> m.clamped || m.y + value != r.y)
  }

  /** Neither motion, nor the end of a report, nor one of the three buttons. */
  predicate Meaningless(eventType: int, code: int) {
    && !(eventType == EV_REL && (code == REL_X || code == REL_Y))
    && !(eventType == EV_SYN && code == SYN_REPORT)
    && !(eventType == EV_KEY && (code == 272 || code == 273 || code == 274))
  }

  /** The button's change is submitted once; a change to what it is already is not. */
  predicate ButtonSent(button: string, value: int, held: set<string>, log: seq<Command>,
                       armed: bool, after: set<string>, sent: seq<Command>)
  {
    if value == 1 && button !in held then
      sent == log + [Press(ButtonOf(button))] && (armed ==> after == held + {button})
    else if value == 0 && button in held then
      sent == log + [Lift(ButtonOf(button))] && (armed ==> after == held - {button})
    else armed && sent == log && after == held
  }

  class LocalInputManager {
    const chord: set<string>
    const keyNames: map<int, string>
    var armed: bool
    var generation: nat
    var physicalKeys: set<string>
    var forwardedKeys: set<string>
    var pendingChord: seq<string>
    var physicalButtons: set<string>
    var forwardedButtons: set<string>
    var motionX: int
    var motionY: int
    var dropped: nat
    var idleScheduled: bool
    /** Every command submitted since local control was armed, the refused one included,
        and the motion that arrived; `clamped` notes whether a limit cut any of it. */
    ghost var sent: seq<Command>
    ghost var arrivedX: int
    ghost var arrivedY: int
    ghost var clamped: bool

    ghost function Held(): Keys
      reads this`physicalKeys, this`forwardedKeys, this`pendingChord
    {
      Keys(physicalKeys, forwardedKeys, pendingChord)
    }

    /** What key events leave alone. */
    ghost function Rest(): (set<string>, set<string>, int, int, int, int, bool)
      reads this`physicalButtons, this`forwardedButtons, this`motionX, this`motionY, this`arrivedX, this`arrivedY, this`clamped
    {
      (physicalButtons, forwardedButtons, motionX, motionY, arrivedX, arrivedY, clamped)
    }

    ghost function Moving(): Motion
      reads this`motionX, this`motionY, this`arrivedX, this`arrivedY, this`clamped
    {
      Motion(motionX, motionY, arrivedX, arrivedY, clamped)
    }

    ghost function Sums(): (int, int)
      reads this`sent
    {
      (SumX(sent), SumY(sent))
    }

    /** The target has what is recorded as forwarded, and nothing else. */
    ghost predicate Tracks()
      reads this`sent, this`forwardedKeys, this`forwardedButtons
    {
      && (forall name :: IsDown(sent, KeyOf(name)) <==> name in forwardedKeys)
      && (forall name :: IsDown(sent, ButtonOf(name)) <==> name in forwardedButtons)
    }

    ghost predicate Orderly()
      reads this`sent
    {
      && (forall c: Control :: Alternates(sent, c))
      && ChordNeverDown(sent, chord)
      && (forall i :: 0 <= i < |sent| && sent[i].MoveBy? ==>
            -AXIS_LIMIT <= sent[i].dx <= AXIS_LIMIT && -AXIS_LIMIT <= sent[i].dy <= AXIS_LIMIT)
    }

    ghost predicate Idle()
      reads this`physicalKeys, this`forwardedKeys, this`pendingChord, this`physicalButtons, this`forwardedButtons, this`motionX, this`motionY
    {
      Held() == NO_KEYS && physicalButtons == {} && forwardedButtons == {} && motionX == 0 && motionY == 0
    }

    ghost predicate MotionKept()
      reads this`sent, this`motionX, this`motionY, this`arrivedX, this`arrivedY, this`clamped
    {
      !clamped ==> SumX(sent) + motionX == arrivedX && SumY(sent) + motionY == arrivedY
    }

    /** While armed, apart from whether the buttons agree. */
    ghost predicate Steady()
      reads this`sent, this`physicalKeys, this`forwardedKeys, this`pendingChord, this`forwardedButtons,
        this`motionX, this`motionY, this`arrivedX, this`arrivedY, this`clamped
    {
      && KeysOk(Held(), chord) && Tracks() && MotionKept()
      && -MAX_ACCUMULATED_MOTION <= motionX <= MAX_ACCUMULATED_MOTION
      && -MAX_ACCUMULATED_MOTION <= motionY <= MAX_ACCUMULATED_MOTION
    }

    ghost predicate Valid()
      reads this`armed, this`sent, this`physicalKeys, this`forwardedKeys, this`pendingChord, this`physicalButtons,
        this`forwardedButtons, this`motionX, this`motionY, this`arrivedX, this`arrivedY, this`clamped
    {
      && chord != {} && Orderly()
      && (if armed then Steady() && forwardedButtons == physicalButtons else Idle())
    }

    constructor (chord: set<string>, keyNames: map<int, string>)
      requires chord != {}
      ensures Valid() && !armed && this.chord == chord && this.keyNames == keyNames
    {
      this.chord, this.keyNames := chord, keyNames;
      armed, generation, dropped, idleScheduled := false, 0, 0, false;
      physicalKeys, forwardedKeys, pendingChord := {}, {}, [];
      physicalButtons, forwardedButtons := {}, {};
      motionX, motionY := 0, 0;
      sent, arrivedX, arrivedY, clamped := [], 0, 0, false;
      new;
      NothingSent(chord);
    }

    method ResetInputState()
      modifies this`physicalKeys, this`forwardedKeys, this`pendingChord, this`physicalButtons, this`forwardedButtons,
        this`motionX, this`motionY, this`idleScheduled
      ensures Idle() && !idleScheduled
    {
      physicalKeys, forwardedKeys, pendingChord := {}, {}, [];
      physicalButtons, forwardedButtons := {}, {};
      motionX, motionY := 0, 0;
      idleScheduled := false;
    }

    /** Both devices are grabbed and drained; `ready` tells whether that worked. */
    method Arm(ready: bool) returns (ok: bool)
      requires Valid()
      modifies this
      ensures Valid() && armed == (old(armed) || ready) && ok == armed
      ensures !old(armed) && armed ==> Idle() && sent == [] && generation == old(generation) + 1
      ensures old(armed) ==> sent == old(sent) && Held() == old(Held())
    {
      if armed {
        return true;
      }
      if !ready {
        return false;
      }
      ResetInputState();
      generation := generation + 1;
      armed := true;
      sent, arrivedX, arrivedY, clamped := [], 0, 0, false;
      NothingSent(chord);
      ok := true;
    }

    method Disarm()
      requires Orderly() && chord != {}
      modifies this
      ensures Valid() && !armed && Idle() && sent == old(sent)
      ensures generation == old(generation) + if old(armed) then 1 else 0
    {
      if armed {
        generation := generation + 1;
      }
      armed := false;
      ResetInputState();
    }

    /** One submission; a refusal disarms. What the runtime answers is arbitrary. */
    method Submit(c: Command) returns (ok: bool)
      requires armed && chord != {} && Orderly()
      requires forall d: Control :: Alternates(sent + [c], d)
      requires ChordUp(sent + [c], chord)
      requires c.MoveBy? ==> -AXIS_LIMIT <= c.dx <= AXIS_LIMIT && -AXIS_LIMIT <= c.dy <= AXIS_LIMIT
      modifies this
      ensures sent == old(sent) + [c] && Orderly() && armed == ok
      ensures !ok ==> Valid()
      ensures ok ==> Held() == old(Held()) && Rest() == old(Rest())
      ensures SumX(sent) == SumX(old(sent)) + (if c.MoveBy? then c.dx else 0)
      ensures SumY(sent) == SumY(old(sent)) + (if c.MoveBy? then c.dy else 0)
    {
      ok := *;
      ChordStaysUp(sent, c, chord);
      OneMore(sent, c, KeyOf(""));
      sent := sent + [c];
      if !ok {
        dropped := dropped + 1;
        Disarm();
      }
    }

    method ScheduleIdleRelease()
      modifies this`idleScheduled
    {
      idleScheduled := armed && forwardedKeys == {} && pendingChord == [] && physicalButtons == {} && forwardedButtons == {};
    }

    // ----- Keyboard -----

    /** Forwards a key change; `cover` bounds what may be down meanwhile. */
    method ForwardKey(name: string, down: bool, ghost cover: set<string>) returns (ok: bool)
      requires armed && Orderly() && Tracks() && chord != {}
      requires down <==> name !in forwardedKeys
      requires !(chord <= cover) && forwardedKeys <= cover && name in cover
      modifies this
      ensures sent == old(sent) + [if down then Press(KeyOf(name)) else Lift(KeyOf(name))]
      ensures Orderly() && armed == ok
      ensures !ok ==> Valid()
      ensures ok ==> Tracks() && Rest() == old(Rest()) && Sums() == old(Sums())
      ensures ok ==> Held() == old(Held()).(forwarded :=
        if down then old(forwardedKeys) + {name} else old(forwardedKeys) - {name})
    {
      var c := if down then Press(KeyOf(name)) else Lift(KeyOf(name));
      forall d: Control
        ensures IsDown(sent + [c], d) == if d == KeyOf(name) then down else IsDown(sent, d)
        ensures Alternates(sent + [c], d)
      {
        OneMore(sent, c, d);
      }
      ghost var up :| up in chord && up !in cover;
      assert !IsDown(sent + [c], KeyOf(up));
      OneMore(sent, c, KeyOf(name));
      ok := Submit(c);
      if ok {
        forwardedKeys := if down then forwardedKeys + {name} else forwardedKeys - {name};
        ScheduleIdleRelease();
      }
    }

    method FlushPendingChord() returns (ok: bool)
      requires armed && chord != {} && Orderly() && Tracks() && Apart(Held(), chord)
      modifies this
      ensures Orderly() && armed == ok
      ensures ok ==> Tracks() && Rest() == old(Rest()) && Sums() == old(Sums())
      ensures ok ==> sent == old(sent) + Presses(old(pendingChord))
      ensures ok ==> Held() == Keys(old(physicalKeys), old(forwardedKeys) + SetOf(old(pendingChord)), [])
      ensures !ok ==> Valid() && Cut(old(sent), Presses(old(pendingChord)), sent)
    {
      var pending := pendingChord;
      ghost var before, sentBefore := Held(), sent;
      assert before.pending == pending;
      pendingChord := [];
      var i := 0;
      while i < |pending|
        invariant i <= |pending|
        invariant armed && Orderly() && Tracks() && Rest() == old(Rest()) && Sums() == old(Sums())
        invariant Held() == Keys(before.physical, before.forwarded + SetOf(pending[..i]), [])
        invariant sent == sentBefore + Presses(pending[..i])
      {
        PendingGoesOut(before, chord, pending, i);
        var accepted := ForwardKey(pending[i], true, before.physical);
        i := i + 1;
        if !accepted {
          return false;
        }
      }
      assert pending[..i] == pending;
      ok := true;
    }

    method PressChordKey(name: string)
      requires armed && Valid() && name in chord && name !in physicalKeys
      modifies this
      ensures Valid() && sent == old(sent) && (armed ==> Rest() == old(Rest()))
      ensures armed <==> !Completes(old(Held()), chord, name, 1)
      ensures armed ==> Held() == KeysAfter(old(Held()), chord, name, 1)
    {
      ghost var before := Held();
      physicalKeys := physicalKeys + {name};
      if name !in pendingChord && name !in forwardedKeys {
        pendingChord := pendingChord + [name];
      }
      if chord <= physicalKeys {
        Disarm();
      } else {
        KeyEventsKeep(before, chord, name, 1);
      }
    }

    method PressPlainKey(name: string)
      requires armed && Valid() && name !in chord && name !in physicalKeys
      modifies this
      ensures Valid() && (armed ==> Rest() == old(Rest()))
      ensures armed ==> Held() == KeysAfter(old(Held()), chord, name, 1)
      ensures armed ==> sent == old(sent) + (Presses(old(pendingChord)) + [Press(KeyOf(name))])
      ensures !armed ==> Cut(old(sent), Presses(old(pendingChord)) + [Press(KeyOf(name))], sent)
    {
      ghost var before, log := Held(), sent;
      ghost var asked := Presses(pendingChord) + [Press(KeyOf(name))];
      KeyEventsKeep(before, chord, name, 1);
      physicalKeys := physicalKeys + {name};
      var flushed := FlushPendingChord();
      if !flushed {
        CutEarlier(log, Presses(before.pending), [Press(KeyOf(name))], sent);
        return;
      }
      var accepted := ForwardKey(name, true, physicalKeys);
      assert sent == log + asked;
      CutAll(log, asked);
    }

    method KeyDown(name: string)
      requires armed && Valid()
      modifies this
      ensures Valid() && (armed ==> Rest() == old(Rest()))
      ensures KeyOutcome(old(Held()), chord, name, 1, old(sent), armed, Held(), sent)
    {
      if name in physicalKeys {
        return;
      }
      if name in chord {
        PressChordKey(name);
      } else {
        PressPlainKey(name);
      }
    }

    /** A press and its lift, one after the other. */
    method TapKey(name: string, ghost cover: set<string>) returns (ok: bool)
      requires armed && Orderly() && Tracks() && chord != {} && name !in forwardedKeys
      requires !(chord <= cover) && forwardedKeys <= cover && name in cover
      modifies this
      ensures Orderly() && armed == ok && (!ok ==> Valid())
      ensures ok ==> Tracks() && Rest() == old(Rest()) && Sums() == old(Sums()) && Held() == old(Held())
      ensures ok ==> sent == old(sent) + [Press(KeyOf(name)), Lift(KeyOf(name))]
      ensures !ok ==> Cut(old(sent), [Press(KeyOf(name)), Lift(KeyOf(name))], sent)
    {
      ghost var log, asked := sent, [Press(KeyOf(name)), Lift(KeyOf(name))];
      CutFirst(log, asked);
      CutAll(log, asked);
      ok := ForwardKey(name, true, cover);
      if ok {
        ok := ForwardKey(name, false, cover);
        assert sent == log + asked;
      }
    }

    method LiftPending(name: string)
      requires armed && Valid() && name in pendingChord
      modifies this
      ensures Valid() && (armed ==> Rest() == old(Rest()))
      ensures armed ==> Held() == KeysAfter(old(Held()), chord, name, 0)
      ensures armed ==> sent == old(sent) + [Press(KeyOf(name)), Lift(KeyOf(name))]
      ensures !armed ==> Cut(old(sent), [Press(KeyOf(name)), Lift(KeyOf(name))], sent)
    {
      ghost var before := Held();
      KeyEventsKeep(before, chord, name, 0);
      physicalKeys := physicalKeys - {name};
      pendingChord := Without(pendingChord, name);
      var ok := TapKey(name, before.physical);
    }

    method LiftForwarded(name: string)
      requires armed && Valid() && name !in pendingChord
      modifies this
      ensures Valid() && (armed ==> Rest() == old(Rest()))
      ensures armed ==> Held() == KeysAfter(old(Held()), chord, name, 0)
      ensures sent == old(sent) + if name in old(forwardedKeys) then [Lift(KeyOf(name))] else []
      ensures name !in old(forwardedKeys) ==> armed
    {
      ghost var before := Held();
      KeyEventsKeep(before, chord, name, 0);
      WithoutAbsent(pendingChord, name);
      physicalKeys := physicalKeys - {name};
      if name in forwardedKeys {
        var up := ForwardKey(name, false, before.physical);
      }
    }

    method KeyUp(name: string)
      requires armed && Valid()
      modifies this
      ensures Valid() && (armed ==> Rest() == old(Rest()))
      ensures KeyOutcome(old(Held()), chord, name, 0, old(sent), armed, Held(), sent)
    {
      CutAll(sent, [Lift(KeyOf(name))]);
      if name in pendingChord {
        LiftPending(name);
      } else {
        LiftForwarded(name);
      }
    }

    method HandleKeyboard(eventType: int, code: int, value: int)
      requires armed && Valid()
      modifies this
      ensures Valid() && (armed ==> Rest() == old(Rest()))
      ensures if eventType == EV_KEY && (value == 0 || value == 1) && code in keyNames
        then KeyOutcome(old(Held()), chord, keyNames[code], value, old(sent), armed, Held(), sent)
        else armed && Held() == old(Held()) && sent == old(sent)
    {
      if eventType != EV_KEY || (value != 0 && value != 1 && value != 2) {
        return;
      }
      if code !in keyNames || value == 2 {
        return;
      }
      if value == 1 {
        KeyDown(keyNames[code]);
      } else {
        KeyUp(keyNames[code]);
      }
    }

    // ----- Pointer -----

    method Accumulate(horizontal: bool, value: int)
      requires armed && Valid()
      modifies this`motionX, this`motionY, this`arrivedX, this`arrivedY, this`clamped
      ensures Valid()
      ensures if horizontal then MovedX(old(Moving()), value, Moving()) else MovedY(old(Moving()), value, Moving())
    {
      var sum := (if horizontal then motionX else motionY) + value;
      clamped := clamped || Clamp(sum, MAX_ACCUMULATED_MOTION) != sum;
      if horizontal {
        motionX := Clamp(sum, MAX_ACCUMULATED_MOTION);
        arrivedX := arrivedX + value;
      } else {
        motionY := Clamp(sum, MAX_ACCUMULATED_MOTION);
        arrivedY := arrivedY + value;
      }
    }

    method SubmitMove(dx: int, dy: int) returns (ok: bool)
      requires armed && Orderly() && Tracks() && chord != {}
      requires Abs(dx) <= AXIS_LIMIT && Abs(dy) <= AXIS_LIMIT
      modifies this
      ensures sent == old(sent) + [MoveBy(dx, dy)] && Orderly() && armed == ok && (!ok ==> Valid())
      ensures ok ==> Tracks() && Held() == old(Held()) && Rest() == old(Rest())
      ensures SumX(sent) == SumX(old(sent)) + dx && SumY(sent) == SumY(old(sent)) + dy
    {
      MoveChangesNoControl(MoveBy(dx, dy));
      ok := Submit(MoveBy(dx, dy));
    }

    /** The motion goes out in pieces within the axis limit that add up to it. */
    method SubmitPieces(x: int, y: int) returns (ok: bool)
      requires armed && Orderly() && Tracks() && chord != {} && Within(x, 0) && Within(y, 0)
      modifies this
      ensures Orderly() && armed == ok && (!ok ==> Valid())
      ensures ok ==> Tracks() && Held() == old(Held()) && Rest() == old(Rest())
      ensures ok ==> SumX(sent) == SumX(old(sent)) + x && SumY(sent) == SumY(old(sent)) + y
      ensures old(sent) <= sent && |sent| <= |old(sent)| + 5
    {
      var dx, dy := x, y;
      ghost var pieces: nat := 0;
      while dx != 0 || dy != 0
        invariant armed && Orderly() && Tracks() && Held() == old(Held()) && Rest() == old(Rest())
        invariant SumX(sent) + dx == SumX(old(sent)) + x && SumY(sent) + dy == SumY(old(sent)) + y
        invariant old(sent) <= sent && |sent| == |old(sent)| + pieces && pieces <= 5
        invariant Within(dx, pieces) && Within(dy, pieces)
        decreases 6 - pieces
      {
        var chunkX, chunkY := Clamp(dx, AXIS_LIMIT), Clamp(dy, AXIS_LIMIT);
        PieceTaken(dx, pieces);
        PieceTaken(dy, pieces);
        var accepted := SubmitMove(chunkX, chunkY);
        pieces := pieces + 1;
        if !accepted {
          return false;
        }
        dx, dy := dx - chunkX, dy - chunkY;
      }
      ok := true;
    }

    method FlushMotion()
      requires armed && Valid()
      modifies this
      ensures Valid() && (armed ==> Held() == old(Held()) && physicalButtons == old(physicalButtons))
      ensures armed ==> motionX == 0 && SumX(sent) == SumX(old(sent)) + old(motionX)
      ensures armed ==> motionY == 0 && SumY(sent) == SumY(old(sent)) + old(motionY)
      ensures armed ==> clamped == old(clamped) && arrivedX == old(arrivedX) && arrivedY == old(arrivedY)
      ensures old(sent) <= sent && |sent| <= |old(sent)| + 5
    {
      var dx, dy := motionX, motionY;
      motionX, motionY := 0, 0;
      var accepted := SubmitPieces(dx, dy);
      if accepted {
        ScheduleIdleRelease();
      }
    }

    lemma MoveChangesNoControl(c: Command)
      requires c.MoveBy? && Orderly() && chord != {}
      ensures forall d: Control :: Alternates(sent + [c], d) && (IsDown(sent + [c], d) <==> IsDown(sent, d))
      ensures ChordUp(sent + [c], chord)
      ensures SumX(sent + [c]) == SumX(sent) + c.dx && SumY(sent + [c]) == SumY(sent) + c.dy
    {
      forall d: Control
        ensures Alternates(sent + [c], d) && (IsDown(sent + [c], d) <==> IsDown(sent, d))
      {
        OneMore(sent, c, d);
      }
      OneMore(sent, c, KeyOf(""));
      assert sent[..|sent|] == sent;
      assert ChordUp(sent[..|sent|], chord);
      var name :| name in chord && !IsDown(sent, KeyOf(name));
      assert !IsDown(sent + [c], KeyOf(name));
    }

    method ForwardButton(button: string, down: bool) returns (ok: bool)
      requires armed && Orderly() && Steady() && chord != {}
      requires down <==> button !in forwardedButtons
      modifies this
      ensures sent == old(sent) + [if down then Press(ButtonOf(button)) else Lift(ButtonOf(button))]
      ensures Orderly() && armed == ok && (!ok ==> Valid())
      ensures ok ==> Steady() && Held() == old(Held()) && physicalButtons == old(physicalButtons) && Moving() == old(Moving())
      ensures ok ==> forwardedButtons == if down then old(forwardedButtons) + {button} else old(forwardedButtons) - {button}
    {
      var c := if down then Press(ButtonOf(button)) else Lift(ButtonOf(button));
      forall d: Control
        ensures IsDown(sent + [c], d) == if d == ButtonOf(button) then down else IsDown(sent, d)
        ensures Alternates(sent + [c], d)
      {
        OneMore(sent, c, d);
      }
      ghost var up :| up in chord && up !in physicalKeys;
      assert !IsDown(sent + [c], KeyOf(up));
      ok := Submit(c);
      if ok {
        forwardedButtons := if down then forwardedButtons + {button} else forwardedButtons - {button};
      }
    }

    method PressButton(button: string)
      requires armed && Valid() && button !in physicalButtons
      modifies this
      ensures Valid() && sent == old(sent) + [Press(ButtonOf(button))]
      ensures armed ==> Held() == old(Held()) && Moving() == old(Moving()) && physicalButtons == old(physicalButtons) + {button}
    {
      physicalButtons := physicalButtons + {button};
      var accepted := ForwardButton(button, true);
      if accepted {
        ScheduleIdleRelease();
      }
    }

    method LiftButton(button: string)
      requires armed && Valid()
      modifies this
      ensures Valid() && (button !in old(physicalButtons) ==> armed)
      ensures sent == old(sent) + if button in old(physicalButtons) then [Lift(ButtonOf(button))] else []
      ensures armed ==> Held() == old(Held()) && Moving() == old(Moving()) && physicalButtons == old(physicalButtons) - {button}
    {
      if button !in physicalButtons && button !in forwardedButtons {
        return;
      }
      physicalButtons := physicalButtons - {button};
      if button in forwardedButtons {
        var accepted := ForwardButton(button, false);
        if !accepted {
          return;
        }
      }
      ScheduleIdleRelease();
    }

    method HandleButton(button: string, value: int)
      requires armed && Valid()
      modifies this
      ensures Valid() && (armed ==> Held() == old(Held()) && Moving() == old(Moving()))
      ensures ButtonSent(button, value, old(physicalButtons), old(sent), armed, physicalButtons, sent)
    {
      if value == 1 {
        if button in physicalButtons {
          return;
        }
        PressButton(button);
      } else if value == 0 {
        LiftButton(button);
      }
    }

    method HandlePointer(eventType: int, code: int, value: int)
      requires armed && Valid()
      modifies this
      ensures Valid() && (armed ==> Held() == old(Held()))
      ensures eventType == EV_REL && code == REL_X ==> MovedX(old(Moving()), value, Moving())
      ensures eventType == EV_REL && code == REL_Y ==> MovedY(old(Moving()), value, Moving())
      ensures eventType == EV_REL ==> armed && sent == old(sent) && physicalButtons == old(physicalButtons)
      ensures eventType == EV_SYN && code == SYN_REPORT && armed ==>
        && Moving() == old(Moving()).(x := 0, y := 0) && physicalButtons == old(physicalButtons)
        && SumX(sent) == SumX(old(sent)) + old(motionX) && SumY(sent) == SumY(old(sent)) + old(motionY)
      ensures eventType == EV_KEY && armed ==> Moving() == old(Moving())
      ensures eventType == EV_KEY && code == 272 ==>
        ButtonSent("left", value, old(physicalButtons), old(sent), armed, physicalButtons, sent)
      ensures eventType == EV_KEY && code == 273 ==>
        ButtonSent("right", value, old(physicalButtons), old(sent), armed, physicalButtons, sent)
      ensures eventType == EV_KEY && code == 274 ==>
        ButtonSent("middle", value, old(physicalButtons), old(sent), armed, physicalButtons, sent)
      ensures Meaningless(eventType, code) ==>
        armed && sent == old(sent) && Rest() == old(Rest()) && generation == old(generation) && dropped == old(dropped)
    {
      if eventType == EV_REL && (code == REL_X || code == REL_Y) {
        Accumulate(code == REL_X, value);
      } else if eventType == EV_SYN && code == SYN_REPORT {
        FlushMotion();
      } else if eventType == EV_KEY && code in POINTER_BUTTONS && value != 2 {
        HandleButton(POINTER_BUTTONS[code], value);
      }
    }

    /** Nothing sticks: while armed with no control held, everything pressed on the target
        was lifted as often, and all unclamped motion that was flushed arrived. */
    lemma NothingSticks(c: Control)
      requires Valid() && armed && physicalKeys == {} && physicalButtons == {}
      ensures !IsDown(sent, c) && Count(sent, Press(c)) == Count(sent, Lift(c))
      ensures !clamped && motionX == 0 && motionY == 0 ==> SumX(sent) == arrivedX && SumY(sent) == arrivedY
    {
      AlternatingIsBalanced(sent, c);
      match c
      case KeyOf(name) => assert IsDown(sent, KeyOf(name)) <==> name in forwardedKeys;
      case ButtonOf(name) => assert IsDown(sent, ButtonOf(name)) <==> name in forwardedButtons;
    }

    /** Nothing is held any more for a while: the lease is given back, confirmed or not. */
    method ReleaseAfterIdle() returns (asked: bool, confirmed: bool)
      requires Valid()
      modifies this
      ensures Valid() && sent == old(sent)
      ensures asked <==> old(armed && forwardedKeys == {} && pendingChord == [] && physicalButtons == {} && forwardedButtons == {})
      ensures armed <==> old(armed) && (asked ==> confirmed)
      ensures armed ==> Held() == old(Held()) && Rest() == old(Rest())
    {
      asked := armed && forwardedKeys == {} && pendingChord == [] && physicalButtons == {} && forwardedButtons == {};
      confirmed := *;
      if asked && !confirmed {
        Disarm();
      }
    }
  }
}
