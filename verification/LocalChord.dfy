/** When the emergency chord is held back whole (gateway/noob_gateway/local_input.py):
    the key events since local control was armed decide what of it has reached the target
    by the time it completes. */
module LocalChord {
  import opened LocalInput

  /** A key event of the keyboard: 1 is a press, 0 a lift, 2 the kernel's repetition. */
  datatype KeyEvent = KeyEvent(name: string, value: int)

  /** The keys after so many events, none of which was refused. */
  function After(chord: set<string>, events: seq<KeyEvent>): Keys {
    if events == [] then NO_KEYS
    else
      var e := events[|events| - 1];
      KeysAfter(After(chord, events[..|events| - 1]), chord, e.name, e.value)
  }

  // ----- What the events alone say -----

  predicate Down(events: seq<KeyEvent>, name: string) {
    events != [] &&
    var e := events[|events| - 1];
    if e == KeyEvent(name, 1) then true
    else if e == KeyEvent(name, 0) then false
    else Down(events[..|events| - 1], name)
  }

  /** The key went down at `i`, not having been down. */
  predicate FreshPress(events: seq<KeyEvent>, i: nat)
    requires i < |events|
  {
    events[i].value == 1 && !Down(events[..i], events[i].name)
  }

  /** The key went down at `i` and was not let go since. */
  predicate HeldSince(events: seq<KeyEvent>, i: nat)
    requires i < |events|
  {
    FreshPress(events, i) && forall k :: i < k < |events| ==> events[k] != KeyEvent(events[i].name, 0)
  }

  /** An ordinary key went down at `j`. */
  predicate OrdinaryPress(events: seq<KeyEvent>, chord: set<string>, j: nat)
    requires j < |events|
  {
    FreshPress(events, j) && events[j].name !in chord
  }

  /** Behind the press with which the key went down for good, an ordinary key went down. */
  ghost predicate Overtaken(events: seq<KeyEvent>, chord: set<string>, name: string) {
    exists i: nat, j: nat :: i < j < |events| && events[i].name == name && HeldSince(events, i) && OrdinaryPress(events, chord, j)
  }

  /** At this moment some key of the chord is up. */
  ghost predicate SomeUp(events: seq<KeyEvent>, chord: set<string>) {
    exists name :: name in chord && !Down(events, name)
  }

  /** The chord was never complete so far. */
  ghost predicate Running(events: seq<KeyEvent>, chord: set<string>) {
    forall n :: 0 <= n <= |events| ==> SomeUp(events[..n], chord)
  }

  lemma RanBefore(front: seq<KeyEvent>, e: KeyEvent, chord: set<string>)
    requires Running(front + [e], chord)
    ensures Running(front, chord) && SomeUp(front + [e], chord)
  {
    var events := front + [e];
    forall n | 0 <= n <= |front| ensures SomeUp(front[..n], chord) {
      assert front[..n] == events[..n];
    }
    assert events[..|events|] == events;
  }

  lemma OneEvent(front: seq<KeyEvent>, e: KeyEvent, chord: set<string>, name: string)
    ensures After(chord, front + [e]) == KeysAfter(After(chord, front), chord, e.name, e.value)
    ensures Down(front + [e], name) ==
      (e == KeyEvent(name, 1) || (e != KeyEvent(name, 0) && Down(front, name)))
  {
    assert (front + [e])[..|front|] == front;
  }

  lemma FreshBefore(front: seq<KeyEvent>, e: KeyEvent, i: nat)
    requires i < |front|
    ensures FreshPress(front + [e], i) <==> FreshPress(front, i)
    ensures HeldSince(front + [e], i) <==> HeldSince(front, i) && e != KeyEvent(front[i].name, 0)
  {
    var events := front + [e];
    assert events[..i] == front[..i];
    assert events[|front|] == e && forall k :: 0 <= k < |front| ==> events[k] == front[k];
  }

  lemma FreshLast(front: seq<KeyEvent>, e: KeyEvent)
    ensures FreshPress(front + [e], |front|) <==> e.value == 1 && !Down(front, e.name)
    ensures HeldSince(front + [e], |front|) <==> FreshPress(front + [e], |front|)
  {
    assert (front + [e])[..|front|] == front;
  }

  /** A key is down exactly if it went down at some event and was not let go since. */
  lemma {:induction false} HeldIsDown(events: seq<KeyEvent>, i: nat)
    requires i < |events| && HeldSince(events, i)
    ensures Down(events, events[i].name)
  {
    var front, e := events[..|events| - 1], events[|events| - 1];
    if i < |front| {
      assert events == front + [e];
      FreshBefore(front, e, i);
      HeldIsDown(front, i);
    }
  }

  lemma {:induction false} DownIsHeld(events: seq<KeyEvent>, name: string) returns (i: nat)
    requires Down(events, name)
    ensures i < |events| && events[i].name == name && HeldSince(events, i)
  {
    var front, e := events[..|events| - 1], events[|events| - 1];
    assert events == front + [e];
    if Down(front, name) {
      i := DownIsHeld(front, name);
      FreshBefore(front, e, i);
    } else {
      i := |front|;
      FreshLast(front, e);
    }
  }

  // ----- What has reached the target -----

  lemma {:induction false} PhysicalIsDown(events: seq<KeyEvent>, chord: set<string>, name: string)
    ensures name in After(chord, events).physical <==> Down(events, name)
  {
    if events != [] {
      var front, e := events[..|events| - 1], events[|events| - 1];
      assert events == front + [e];
      PhysicalIsDown(front, chord, name);
      OneEvent(front, e, chord, name);
    }
  }

  lemma NeverCompletes(front: seq<KeyEvent>, e: KeyEvent, chord: set<string>)
    requires SomeUp(front + [e], chord)
    ensures !Completes(After(chord, front), chord, e.name, e.value)
  {
    var up :| up in chord && !Down(front + [e], up);
    OneEvent(front, e, chord, up);
    PhysicalIsDown(front, chord, up);
  }

  lemma {:induction false} KeysStayOk(events: seq<KeyEvent>, chord: set<string>)
    requires Running(events, chord)
    ensures KeysOk(After(chord, events), chord)
  {
    if events == [] {
      assert events[..0] == [];
      assert SomeUp([], chord);
    } else {
      var front, e := events[..|events| - 1], events[|events| - 1];
      assert events == front + [e];
      RanBefore(front, e, chord);
      KeysStayOk(front, chord);
      NeverCompletes(front, e, chord);
      KeyEventsKeep(After(chord, front), chord, e.name, e.value);
      OneEvent(front, e, chord, "");
    }
  }

  lemma OrdinaryOvertakes(front: seq<KeyEvent>, e: KeyEvent, chord: set<string>, name: string)
    requires Down(front, name) && e.value == 1 && !Down(front, e.name) && e.name !in chord && name in chord
    ensures Overtaken(front + [e], chord, name)
  {
    var i := DownIsHeld(front, name);
    FreshBefore(front, e, i);
    FreshLast(front, e);
    assert (front + [e])[i].name == name;
    assert OrdinaryPress(front + [e], chord, |front|);
  }

  lemma NotOvertakenYet(front: seq<KeyEvent>, name: string, chord: set<string>)
    requires !Down(front, name)
    ensures !Overtaken(front + [KeyEvent(name, 1)], chord, name)
  {
    var e := KeyEvent(name, 1);
    var events := front + [e];
    if Overtaken(events, chord, name) {
      var i: nat, j: nat :| i < j < |events| && events[i].name == name && HeldSince(events, i) && OrdinaryPress(events, chord, j);
      FreshBefore(front, e, i);
      HeldIsDown(front, i);
      assert false;
    }
  }

  lemma StillOvertaken(front: seq<KeyEvent>, e: KeyEvent, chord: set<string>, name: string)
    requires e != KeyEvent(name, 0) && Overtaken(front, chord, name)
    ensures Overtaken(front + [e], chord, name)
  {
    var events := front + [e];
    var i: nat, j: nat :| i < j < |front| && front[i].name == name && HeldSince(front, i) && OrdinaryPress(front, chord, j);
    FreshBefore(front, e, i);
    FreshBefore(front, e, j);
    assert events[i] == front[i] && events[j] == front[j];
    assert OrdinaryPress(events, chord, j);
  }

  lemma OvertakenBefore(front: seq<KeyEvent>, e: KeyEvent, chord: set<string>, name: string)
    requires e.value != 1 || e.name in chord || Down(front, e.name)
    requires Overtaken(front + [e], chord, name)
    ensures Overtaken(front, chord, name)
  {
    var events := front + [e];
    var i: nat, j: nat :| i < j < |events| && events[i].name == name && HeldSince(events, i) && OrdinaryPress(events, chord, j);
    FreshLast(front, e);
    assert j != |front|;
    FreshBefore(front, e, i);
    FreshBefore(front, e, j);
    assert events[i] == front[i] && events[j] == front[j];
    assert OrdinaryPress(front, chord, j);
  }

  lemma OvertakenNext(front: seq<KeyEvent>, e: KeyEvent, chord: set<string>, name: string)
    requires name in chord && Down(front, name) && e != KeyEvent(name, 0)
    ensures Overtaken(front + [e], chord, name) <==>
      Overtaken(front, chord, name) || (e.value == 1 && !Down(front, e.name) && e.name !in chord)
  {
    if Overtaken(front, chord, name) { StillOvertaken(front, e, chord, name); }
    if e.value == 1 && !Down(front, e.name) && e.name !in chord {
      OrdinaryOvertakes(front, e, chord, name);
    } else if Overtaken(front + [e], chord, name) {
      OvertakenBefore(front, e, chord, name);
    }
  }

  lemma ForwardedNext(k: Keys, chord: set<string>, e: KeyEvent, name: string)
    requires KeysOk(k, chord) && name in k.physical && name in chord && e != KeyEvent(name, 0)
    ensures name in KeysAfter(k, chord, e.name, e.value).forwarded <==>
      name in k.forwarded || (e.value == 1 && e.name !in k.physical && e.name !in chord)
  {
  }

  lemma ForwardedNever(k: Keys, chord: set<string>, name: string)
    requires KeysOk(k, chord) && name !in k.physical && name in chord
    ensures name !in KeysAfter(k, chord, name, 1).forwarded
  {
  }

  /** A member of the chord that is held has reached the target exactly if an ordinary key
      went down behind it. */
  lemma {:induction false} ReachedExactly(events: seq<KeyEvent>, chord: set<string>, name: string)
    requires Running(events, chord) && name in chord && Down(events, name)
    ensures name in After(chord, events).forwarded <==> Overtaken(events, chord, name)
  {
    var front, e := events[..|events| - 1], events[|events| - 1];
    var k := After(chord, front);
    assert events == front + [e];
    RanBefore(front, e, chord);
    KeysStayOk(front, chord);
    OneEvent(front, e, chord, name);
    PhysicalIsDown(front, chord, name);
    PhysicalIsDown(front, chord, e.name);
    if Down(front, name) {
      ReachedExactly(front, chord, name);
      OvertakenNext(front, e, chord, name);
      ForwardedNext(k, chord, e, name);
    } else {
      NotOvertakenYet(front, name, chord);
      ForwardedNever(k, chord, name);
    }
  }

  /** An ordinary key went down while a member of the chord, held since, was down. */
  ghost predicate OrdinaryBehindMember(events: seq<KeyEvent>, chord: set<string>) {
    exists name :: name in chord && Overtaken(events, chord, name)
  }

  /** The other keys of the chord are down and this one is not. */
  ghost predicate LastOfChord(events: seq<KeyEvent>, chord: set<string>, name: string) {
    name in chord && !Down(events, name) && forall other :: other in chord && other != name ==> Down(events, other)
  }

  lemma LastCompletes(events: seq<KeyEvent>, chord: set<string>, name: string)
    ensures Completes(After(chord, events), chord, name, 1) <==> LastOfChord(events, chord, name)
  {
    var k := After(chord, events);
    PhysicalIsDown(events, chord, name);
    forall other | other in chord ensures other in k.physical <==> Down(events, other) {
      PhysicalIsDown(events, chord, other);
    }
    if LastOfChord(events, chord, name) {
      assert forall other :: other in chord ==> other in k.physical + {name};
    }
  }

  /** When the next press completes the chord, nothing of the chord is down on the target
      exactly if no ordinary key went down behind the press of a member that is still held. */
  lemma ChordHeldBackExactly(events: seq<KeyEvent>, chord: set<string>, name: string)
    requires Running(events, chord) && LastOfChord(events, chord, name)
    ensures Completes(After(chord, events), chord, name, 1)
    ensures After(chord, events).forwarded !! chord <==> !OrdinaryBehindMember(events, chord)
  {
    var k := After(chord, events);
    LastCompletes(events, chord, name);
    KeysStayOk(events, chord);
    forall m | m in chord ensures m in k.forwarded <==> Overtaken(events, chord, m) {
      PhysicalIsDown(events, chord, m);
      if Down(events, m) {
        ReachedExactly(events, chord, m);
      } else if Overtaken(events, chord, m) {
        var i: nat, j: nat :| i < j < |events| && events[i].name == m && HeldSince(events, i) && OrdinaryPress(events, chord, j);
        HeldIsDown(events, i);
      }
    }
    if OrdinaryBehindMember(events, chord) {
      var m :| m in chord && Overtaken(events, chord, m);
      assert m in k.forwarded;
    }
  }

  // ----- What each event sends -----

  /** An ordinary key is down on the target exactly while it is held. */
  lemma OrdinaryKeysAreForwarded(events: seq<KeyEvent>, chord: set<string>, name: string)
    requires Running(events, chord) && name !in chord
    ensures name in After(chord, events).forwarded <==> Down(events, name)
  {
    KeysStayOk(events, chord);
    PhysicalIsDown(events, chord, name);
  }

  /** What is held back was pressed in that order. */
  ghost predicate PressedInOrder(events: seq<KeyEvent>, names: seq<string>) {
    forall i, j :: 0 <= i < j < |names| ==> PressedBefore(events, names[i], names[j])
  }

  /** Of two keys that are held, this one went down first. */
  ghost predicate PressedBefore(events: seq<KeyEvent>, first: string, second: string) {
    exists a: nat, b: nat :: a < b < |events| && events[a].name == first && events[b].name == second
      && HeldSince(events, a) && HeldSince(events, b)
  }

  lemma StillBefore(front: seq<KeyEvent>, e: KeyEvent, first: string, second: string)
    requires PressedBefore(front, first, second) && e != KeyEvent(first, 0) && e != KeyEvent(second, 0)
    ensures PressedBefore(front + [e], first, second)
  {
    var a: nat, b: nat :| a < b < |front| && front[a].name == first && front[b].name == second
      && HeldSince(front, a) && HeldSince(front, b);
    FreshBefore(front, e, a);
    FreshBefore(front, e, b);
    assert (front + [e])[a].name == first && (front + [e])[b].name == second;
  }

  lemma BeforeTheLast(front: seq<KeyEvent>, e: KeyEvent, first: string)
    requires Down(front, first) && e.value == 1 && !Down(front, e.name)
    ensures PressedBefore(front + [e], first, e.name)
  {
    var a := DownIsHeld(front, first);
    FreshBefore(front, e, a);
    FreshLast(front, e);
    assert (front + [e])[a].name == first && (front + [e])[|front|].name == e.name;
  }

  lemma {:induction false} WithoutSkips(names: seq<string>, name: string) returns (p: nat)
    ensures p <= |names|
    ensures Without(names, name) == if p < |names| then names[..p] + names[p + 1..] else names
    ensures p < |names| ==> names[p] == name
  {
    if names == [] || names[0] == name {
      p := 0;
    } else {
      var q := WithoutSkips(names[1..], name);
      p := q + 1;
    }
  }

  lemma OrderOf(events: seq<KeyEvent>, names: seq<string>, i: nat, j: nat)
    requires PressedInOrder(events, names) && i < j < |names|
    ensures PressedBefore(events, names[i], names[j])
  {
  }

  lemma OrderOfRest(events: seq<KeyEvent>, names: seq<string>, p: nat)
    requires PressedInOrder(events, names) && p < |names|
    ensures PressedInOrder(events, names[..p] + names[p + 1..])
  {
    var r := names[..p] + names[p + 1..];
    forall i, j | 0 <= i < j < |r| ensures PressedBefore(events, r[i], r[j]) {
      OrderOf(events, names, if i < p then i else i + 1, if j < p then j else j + 1);
    }
  }

  lemma OrderWithout(events: seq<KeyEvent>, names: seq<string>, name: string)
    requires PressedInOrder(events, names)
    ensures PressedInOrder(events, Without(names, name))
  {
    var p := WithoutSkips(names, name);
    if p < |names| { OrderOfRest(events, names, p); }
  }

  lemma OrderGoesOn(front: seq<KeyEvent>, e: KeyEvent, names: seq<string>)
    requires PressedInOrder(front, names) && forall i :: 0 <= i < |names| ==> e != KeyEvent(names[i], 0)
    ensures PressedInOrder(front + [e], names)
  {
    forall i, j | 0 <= i < j < |names| ensures PressedBefore(front + [e], names[i], names[j]) {
      StillBefore(front, e, names[i], names[j]);
    }
  }

  lemma OneMoreHeldBack(front: seq<KeyEvent>, e: KeyEvent, names: seq<string>)
    requires PressedInOrder(front + [e], names) && e.value == 1 && !Down(front, e.name)
    requires forall i :: 0 <= i < |names| ==> Down(front, names[i])
    ensures PressedInOrder(front + [e], names + [e.name])
  {
    var all := names + [e.name];
    forall i, j | 0 <= i < j < |all| ensures PressedBefore(front + [e], all[i], all[j]) {
      if j == |names| { BeforeTheLast(front, e, all[i]); } else { assert all[i] == names[i] && all[j] == names[j]; }
    }
  }

  lemma PendingIsDown(front: seq<KeyEvent>, chord: set<string>)
    requires KeysOk(After(chord, front), chord)
    ensures var pending := After(chord, front).pending; forall i :: 0 <= i < |pending| ==> Down(front, pending[i])
  {
    var k := After(chord, front);
    forall i | 0 <= i < |k.pending| ensures Down(front, k.pending[i]) { PhysicalIsDown(front, chord, k.pending[i]); }
  }

  lemma PendingAfter(front: seq<KeyEvent>, e: KeyEvent, chord: set<string>, k: Keys)
    requires k == After(chord, front) && KeysOk(k, chord) && PressedInOrder(front, k.pending)
    ensures PressedInOrder(front + [e], KeysAfter(k, chord, e.name, e.value).pending)
  {
    PhysicalIsDown(front, chord, e.name);
    if e.value == 0 {
      OrderWithout(front, k.pending, e.name);
      WithoutIsDistinct(k.pending, e.name);
      OrderGoesOn(front, e, Without(k.pending, e.name));
    } else {
      OrderGoesOn(front, e, k.pending);
      if e.value == 1 && e.name !in k.physical && e.name in chord {
        PendingIsDown(front, chord);
        OneMoreHeldBack(front, e, k.pending);
      }
    }
  }

  lemma {:induction false} PendingInOrder(events: seq<KeyEvent>, chord: set<string>)
    requires Running(events, chord)
    ensures PressedInOrder(events, After(chord, events).pending)
  {
    if events != [] {
      var front, e := events[..|events| - 1], events[|events| - 1];
      assert events == front + [e];
      RanBefore(front, e, chord);
      PendingInOrder(front, chord);
      KeysStayOk(front, chord);
      PendingAfter(front, e, chord, After(chord, front));
      OneEvent(front, e, chord, "");
    }
  }

  /** Presses of the keys that are held back, in the order in which they went down. */
  ghost predicate HeldBackPresses(events: seq<KeyEvent>, chord: set<string>, names: seq<string>) {
    && PressedInOrder(events, names)
    && forall name :: name in names <==> name in chord && Down(events, name) && !Overtaken(events, chord, name)
  }

  lemma PendingIsHeldBack(events: seq<KeyEvent>, chord: set<string>)
    requires Running(events, chord)
    ensures HeldBackPresses(events, chord, After(chord, events).pending)
  {
    PendingInOrder(events, chord);
    KeysStayOk(events, chord);
    var k := After(chord, events);
    forall name ensures name in k.pending <==> name in chord && Down(events, name) && !Overtaken(events, chord, name) {
      PhysicalIsDown(events, chord, name);
      if name in chord && Down(events, name) { ReachedExactly(events, chord, name); }
    }
  }

  /** For all lists of key events: when an ordinary key goes down, exactly the chord keys
      that are held and that no ordinary key has overtaken are pressed on the target, in the
      order in which they went down, and then the key itself. */
  lemma OrdinaryPressSends(events: seq<KeyEvent>, chord: set<string>, name: string) returns (before: seq<string>)
    requires Running(events, chord) && name !in chord && !Down(events, name)
    ensures HeldBackPresses(events, chord, before)
    ensures KeyCommands(After(chord, events), chord, name, 1) == Presses(before) + [Press(KeyOf(name))]
  {
    PendingIsHeldBack(events, chord);
    PhysicalIsDown(events, chord, name);
    before := After(chord, events).pending;
  }

  /** When a chord key goes down, nothing is sent; when a key is lifted, a key that was held
      back is tapped, one that has reached the target is lifted there, and one that was not
      down changes nothing. */
  lemma OtherEventsSend(events: seq<KeyEvent>, chord: set<string>, name: string)
    requires Running(events, chord)
    ensures name in chord || Down(events, name) ==> KeyCommands(After(chord, events), chord, name, 1) == []
    ensures KeyCommands(After(chord, events), chord, name, 0) ==
      if !Down(events, name) then []
      else if name in chord && !Overtaken(events, chord, name) then [Press(KeyOf(name)), Lift(KeyOf(name))]
      else [Lift(KeyOf(name))]
  {
    PendingIsHeldBack(events, chord);
    PhysicalIsDown(events, chord, name);
    KeysStayOk(events, chord);
  }

  const DEFAULT_CHORD: set<string> := {"LEFT_CONTROL", "LEFT_ALT", "ESCAPE"}

  const CONTROL_A_ALT: seq<KeyEvent> := [KeyEvent("LEFT_CONTROL", 1), KeyEvent("A", 1), KeyEvent("LEFT_ALT", 1)]

  lemma EscapeUp(events: seq<KeyEvent>)
    requires forall i :: 0 <= i < |events| ==> events[i].name != "ESCAPE"
    ensures !Down(events, "ESCAPE")
  {
    if events != [] { EscapeUp(events[..|events| - 1]); }
  }

  lemma AfterControlA()
    ensures After(DEFAULT_CHORD, CONTROL_A_ALT[..2]) == Keys({"LEFT_CONTROL", "A"}, {"LEFT_CONTROL", "A"}, [])
  {
    var events, chord := CONTROL_A_ALT, DEFAULT_CHORD;
    var one, two := events[..1], events[..2];
    assert one == [] + [events[0]] && two == one + [events[1]];
    OneEvent([], events[0], chord, "");
    OneEvent(one, events[1], chord, "");
    assert After(chord, one) == Keys({"LEFT_CONTROL"}, {}, ["LEFT_CONTROL"]);
    assert "LEFT_CONTROL" in After(chord, one).pending;
  }

  lemma EscapeStaysUp()
    ensures Running(CONTROL_A_ALT, DEFAULT_CHORD)
  {
    var events, chord := CONTROL_A_ALT, DEFAULT_CHORD;
    forall n | 0 <= n <= |events| ensures SomeUp(events[..n], chord) {
      EscapeUp(events[..n]);
      assert "ESCAPE" in chord;
    }
  }

  /** That is not always so: Control, A, Alt, then Escape, and Control is down on the target
      when the chord completes. */
  lemma OrdinaryKeySendsChordMember()
    ensures Running(CONTROL_A_ALT, DEFAULT_CHORD) && LastOfChord(CONTROL_A_ALT, DEFAULT_CHORD, "ESCAPE")
    ensures "LEFT_CONTROL" in After(DEFAULT_CHORD, CONTROL_A_ALT).forwarded && "LEFT_CONTROL" in DEFAULT_CHORD
  {
    var events, chord := CONTROL_A_ALT, DEFAULT_CHORD;
    EscapeStaysUp();
    AfterControlA();
    assert events == events[..2] + [events[2]];
    OneEvent(events[..2], events[2], chord, "");
    assert After(chord, events) == Keys({"LEFT_CONTROL", "A", "LEFT_ALT"}, {"LEFT_CONTROL", "A"}, ["LEFT_ALT"]);
    LastCompletes(events, chord, "ESCAPE");
  }
}
