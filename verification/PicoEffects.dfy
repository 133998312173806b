/** What the firmware does with keys, buttons and its timers (pico/code.py): line by line,
    and over all lines of a session. */
module PicoEffects {
  import opened Options
  import opened Pico

  // ----- One line -----

  /** A line of the active session that is answered anew and runs to its end. */
  predicate Runs(p: State, c: Command, o: Oracle) {
    && Lookup(p.cache, c.sid, c.sequence).None? && p.active == Some(c.sid)
    && Handle(p, c, o).2.Executed? && Handle(p, c, o).2.done
  }

  ghost predicate OtherKeysStay(p: State, q: State, key: string) {
    forall other :: other != key ==>
      && (other in q.keysDown <==> other in p.keysDown) && (other in q.heldKeys <==> other in p.heldKeys)
      && (other in p.heldKeys ==> q.heldKeys[other] == p.heldKeys[other])
  }

  ghost predicate OtherButtonsStay(p: State, q: State, button: string) {
    forall other :: other != button ==>
      && (other in q.buttonsDown <==> other in p.buttonsDown) && (other in q.heldButtons <==> other in p.heldButtons)
      && (other in p.heldButtons ==> q.heldButtons[other] == p.heldButtons[other])
  }

  predicate KeysStay(p: State, q: State) { q.keysDown == p.keysDown && q.heldKeys == p.heldKeys }

  predicate ButtonsStay(p: State, q: State) { q.buttonsDown == p.buttonsDown && q.heldButtons == p.heldButtons }

  /** A key-up that ran leaves the key up in report and record; a key-down leaves it in the
      record, and in the report with the time of the press if it was not held before. No
      other key and no button changes. */
  lemma KeyLineDoes(p: State, c: Command, o: Oracle)
    requires c.op.Key? && Runs(p, c, o)
    ensures var q, key := Handle(p, c, o).0, c.op.key;
      && OtherKeysStay(p, q, key) && ButtonsStay(p, q)
      && (!c.op.down ==> key !in q.keysDown && key !in q.heldKeys)
      && (c.op.down ==> key in q.heldKeys)
      && (c.op.down && key !in p.heldKeys ==> key in q.keysDown && q.heldKeys[key] == o.now)
      && (c.op.down && key in p.heldKeys ==> KeysStay(p, q))
  {
  }

  /** The same for buttons; a click leaves the button up and the record as it was. */
  lemma ButtonLineDoes(p: State, c: Command, o: Oracle)
    requires c.op.MouseButton? && Runs(p, c, o)
    ensures var q, button := Handle(p, c, o).0, c.op.button;
      && OtherButtonsStay(p, q, button) && KeysStay(p, q)
      && match c.op.event
         case Release => button !in q.buttonsDown && button !in q.heldButtons
         case Press =>
           if button in p.heldButtons then ButtonsStay(p, q)
           else button in q.buttonsDown && button in q.heldButtons && q.heldButtons[button] == o.now
         case Click => button !in q.buttonsDown && q.heldButtons == p.heldButtons
  {
  }

  /** Text presses nothing for good and no other operation touches what is held, but for
      those that release everything; every line of the session feeds the watchdog. */
  lemma OtherLineDoes(p: State, c: Command, o: Oracle)
    requires Runs(p, c, o) && !c.op.Key? && !c.op.MouseButton?
    ensures var q := Handle(p, c, o).0;
      match c.op
      case Type(_, _) =>
        ButtonsStay(p, q) && q.heldKeys == p.heldKeys
        && forall key :: key in q.keysDown <==> key in p.keysDown && key in o.stillDown
      case Combo(_, _) => NothingHeld(q)
      case ReleaseAll => NothingHeld(q)
      case Session(_) => NothingHeld(q)
      case _ => KeysStay(p, q) && ButtonsStay(p, q)
  {
  }

  /** A line whose HID call fails leaves nothing held. */
  lemma FailedLineDoes(p: State, c: Command, o: Oracle)
    requires Lookup(p.cache, c.sid, c.sequence).None? && p.active == Some(c.sid) && !Runs(p, c, o)
    ensures NothingHeld(Handle(p, c, o).0) && TouchesHid(c.op) && o.fails
    ensures Handle(p, c, o).1 == Nack(c.sid, c.sequence, "exec_failed", true) && Handle(p, c, o).0.active == p.active
  {
  }

  /** Outside a session a line changes nothing that is held; a line of another session ends
      the one there is and releases everything. Both are refused, and say which. */
  lemma ForeignLineDoes(p: State, c: Command, o: Oracle)
    requires Lookup(p.cache, c.sid, c.sequence).None? && !c.op.Session? && p.active != Some(c.sid)
    ensures var (q, r, e) := Handle(p, c, o);
      && e == Skipped && q.active.None?
      && (if p.active.None? then KeysStay(p, q) && ButtonsStay(p, q) && r == Nack(c.sid, c.sequence, "no_session", false)
          else NothingHeld(q) && r == Nack(c.sid, c.sequence, "bad_session", true))
  {
  }

  // ----- A whole session -----

  /** A line of the session and what the hardware decides while it is handled. */
  datatype Handled = Handled(op: Op, o: Oracle)

  /** The lines of a session are numbered from one. */
  function After(start: State, sid: Sid, lines: seq<Handled>): State {
    if lines == [] then start
    else
      var last := lines[|lines| - 1];
      Handle(After(start, sid, lines[..|lines| - 1]), Command(sid, |lines|, last.op), last.o).0
  }

  predicate Clears(h: Handled) {
    h.op.Combo? || h.op.ReleaseAll? || h.op.Session? || (TouchesHid(h.op) && h.o.fails)
  }

  /** The last line that concerns the key pressed it. */
  predicate KeyHeld(lines: seq<Handled>, key: string) {
    lines != [] &&
    var h := lines[|lines| - 1];
    if Clears(h) then false
    else if h.op.Key? && h.op.key == key then h.op.down
    else KeyHeld(lines[..|lines| - 1], key)
  }

  /** ... and it was not lifted by the text typed since. */
  predicate KeyDown(lines: seq<Handled>, key: string) {
    lines != [] &&
    var front, h := lines[..|lines| - 1], lines[|lines| - 1];
    if Clears(h) then false
    else if h.op.Key? && h.op.key == key then h.op.down && (KeyHeld(front, key) ==> KeyDown(front, key))
    else if h.op.Type? then KeyDown(front, key) && key in h.o.stillDown
    else KeyDown(front, key)
  }

  /** When the press came that the key is held by. */
  function KeyHeldAt(lines: seq<Handled>, key: string): real
    requires KeyHeld(lines, key)
  {
    var front, h := lines[..|lines| - 1], lines[|lines| - 1];
    if KeyHeld(front, key) then KeyHeldAt(front, key) else h.o.now
  }

  /** A click is no hold. */
  predicate ButtonHeld(lines: seq<Handled>, button: string) {
    lines != [] &&
    var h := lines[|lines| - 1];
    if Clears(h) then false
    else if h.op.MouseButton? && h.op.button == button && !h.op.event.Click? then h.op.event.Press?
    else ButtonHeld(lines[..|lines| - 1], button)
  }

  predicate ButtonDown(lines: seq<Handled>, button: string) {
    lines != [] &&
    var front, h := lines[..|lines| - 1], lines[|lines| - 1];
    if Clears(h) then false
    else if h.op.MouseButton? && h.op.button == button then
      h.op.event.Press? && (ButtonHeld(front, button) ==> ButtonDown(front, button))
    else ButtonDown(front, button)
  }

  function ButtonHeldAt(lines: seq<Handled>, button: string): real
    requires ButtonHeld(lines, button)
  {
    var front, h := lines[..|lines| - 1], lines[|lines| - 1];
    if ButtonHeld(front, button) then ButtonHeldAt(front, button) else h.o.now
  }

  /** The session has begun and none of its lines after number `n` was answered yet. */
  ghost predicate InSession(p: State, sid: Sid, n: nat) {
    p.active == Some(sid) && forall i :: 0 <= i < |p.cache| && p.cache[i].sid == sid ==> p.cache[i].sequence <= n
  }

  ghost predicate KeyTracks(p: State, lines: seq<Handled>, key: string) {
    && (key in p.heldKeys <==> KeyHeld(lines, key)) && (key in p.keysDown <==> KeyDown(lines, key))
    && (KeyHeld(lines, key) ==> p.heldKeys[key] == KeyHeldAt(lines, key))
  }

  ghost predicate ButtonTracks(p: State, lines: seq<Handled>, button: string) {
    && (button in p.heldButtons <==> ButtonHeld(lines, button)) && (button in p.buttonsDown <==> ButtonDown(lines, button))
    && (ButtonHeld(lines, button) ==> p.heldButtons[button] == ButtonHeldAt(lines, button))
  }

  lemma NotYetAnswered(p: State, sid: Sid, n: nat)
    requires InSession(p, sid, n)
    ensures Lookup(p.cache, sid, n + 1).None?
  {
  }

  lemma AnswerIsNumbered(p: State, c: Command, n: nat, o: Oracle)
    requires InSession(p, c.sid, n) && c.sequence == n + 1 && Lookup(p.cache, c.sid, c.sequence).None?
    ensures InSession(Handle(p, c, o).0, c.sid, n + 1)
  {
    PerformAnswers(p, c, o);
  }

  lemma LineInSession(p: State, sid: Sid, n: nat, op: Op, o: Oracle)
    requires InSession(p, sid, n)
    ensures var c := Command(sid, n + 1, op);
      && Lookup(p.cache, sid, n + 1).None? && InSession(Handle(p, c, o).0, sid, n + 1)
      && (Runs(p, c, o) <==> !(TouchesHid(op) && o.fails))
      && Handle(p, c, o).0.lastValidAt == o.now
  {
    NotYetAnswered(p, sid, n);
    AnswerIsNumbered(p, Command(sid, n + 1, op), n, o);
  }

  lemma KeyStep(p: State, sid: Sid, front: seq<Handled>, h: Handled, key: string)
    requires InSession(p, sid, |front|) && KeyTracks(p, front, key)
    ensures KeyTracks(Handle(p, Command(sid, |front| + 1, h.op), h.o).0, front + [h], key)
  {
    var c := Command(sid, |front| + 1, h.op);
    assert (front + [h])[..|front|] == front;
    LineInSession(p, sid, |front|, h.op, h.o);
    if !Runs(p, c, h.o) {
      FailedLineDoes(p, c, h.o);
    } else if h.op.Key? {
      KeyLineDoes(p, c, h.o);
    } else if h.op.MouseButton? {
      ButtonLineDoes(p, c, h.o);
    } else {
      OtherLineDoes(p, c, h.o);
    }
  }

  lemma ButtonStep(p: State, sid: Sid, front: seq<Handled>, h: Handled, button: string)
    requires InSession(p, sid, |front|) && ButtonTracks(p, front, button)
    ensures ButtonTracks(Handle(p, Command(sid, |front| + 1, h.op), h.o).0, front + [h], button)
  {
    var c := Command(sid, |front| + 1, h.op);
    assert (front + [h])[..|front|] == front;
    LineInSession(p, sid, |front|, h.op, h.o);
    if !Runs(p, c, h.o) {
      FailedLineDoes(p, c, h.o);
    } else if h.op.Key? {
      KeyLineDoes(p, c, h.o);
    } else if h.op.MouseButton? {
      ButtonLineDoes(p, c, h.o);
    } else {
      OtherLineDoes(p, c, h.o);
    }
  }

  lemma AfterOne(start: State, sid: Sid, front: seq<Handled>, h: Handled) returns (p: State, c: Command)
    ensures p == After(start, sid, front) && c == Command(sid, |front| + 1, h.op)
    ensures After(start, sid, front + [h]) == Handle(p, c, h.o).0
  {
    assert (front + [h])[..|front|] == front;
    p, c := After(start, sid, front), Command(sid, |front| + 1, h.op);
  }

  lemma {:induction false} StaysInSession(start: State, sid: Sid, lines: seq<Handled>)
    requires InSession(start, sid, 0)
    ensures InSession(After(start, sid, lines), sid, |lines|)
    ensures lines != [] ==> After(start, sid, lines).lastValidAt == lines[|lines| - 1].o.now
  {
    if lines != [] {
      var front, h := lines[..|lines| - 1], lines[|lines| - 1];
      StaysInSession(start, sid, front);
      LineInSession(After(start, sid, front), sid, |front|, h.op, h.o);
    }
  }

  /** For all lines of a session: a key is in the firmware's record exactly if the last line
      that concerns it pressed it, with the time of that press, and down on the target
      exactly if no typed text has lifted it since. */
  lemma {:induction false} KeysAreWhatWasPressed(start: State, sid: Sid, lines: seq<Handled>, key: string)
    requires InSession(start, sid, 0) && NothingHeld(start)
    ensures KeyTracks(After(start, sid, lines), lines, key)
  {
    if lines != [] {
      var front, h := lines[..|lines| - 1], lines[|lines| - 1];
      KeysAreWhatWasPressed(start, sid, front, key);
      StaysInSession(start, sid, front);
      assert front + [h] == lines;
      var p, c := AfterOne(start, sid, front, h);
      KeyStep(p, sid, front, h, key);
    }
  }

  /** The same for buttons, which a click leaves up. */
  lemma {:induction false} ButtonsAreWhatWasPressed(start: State, sid: Sid, lines: seq<Handled>, button: string)
    requires InSession(start, sid, 0) && NothingHeld(start)
    ensures ButtonTracks(After(start, sid, lines), lines, button)
  {
    if lines != [] {
      var front, h := lines[..|lines| - 1], lines[|lines| - 1];
      ButtonsAreWhatWasPressed(start, sid, front, button);
      StaysInSession(start, sid, front);
      assert front + [h] == lines;
      var p, c := AfterOne(start, sid, front, h);
      ButtonStep(p, sid, front, h, button);
    }
  }

  /** A session line starts a session with nothing held, its own watchdog, and a fresh clock. */
  lemma SessionBegins(p: State, c: Command, o: Oracle)
    requires c.op.Session? && c.sequence == 0 && Lookup(p.cache, c.sid, 0).None?
    ensures var q := Handle(p, c, o).0;
      InSession(q, c.sid, 0) && NothingHeld(q) && q.watchdogMs == c.op.watchdogMs && q.lastValidAt == o.now
  {
  }

  // ----- Timers -----

  predicate TooLong(since: real, now: real) { now - since > MAX_HELD_SECONDS }

  /** Some key or button is held, and was pressed more than ten seconds ago. */
  ghost predicate ForgottenHold(lines: seq<Handled>, now: real) {
    || (exists key :: KeyHeld(lines, key) && TooLong(KeyHeldAt(lines, key), now))
    || (exists button :: ButtonHeld(lines, button) && TooLong(ButtonHeldAt(lines, button), now))
  }

  lemma ForgottenIsSeen(start: State, sid: Sid, lines: seq<Handled>, now: real)
    requires InSession(start, sid, 0) && NothingHeld(start)
    ensures var p := After(start, sid, lines);
      HeldTooLong(p.heldKeys, now) || HeldTooLong(p.heldButtons, now) <==> ForgottenHold(lines, now)
  {
    var p := After(start, sid, lines);
    forall name ensures KeyTracks(p, lines, name) && ButtonTracks(p, lines, name) {
      KeysAreWhatWasPressed(start, sid, lines, name);
      ButtonsAreWhatWasPressed(start, sid, lines, name);
    }
    if HeldTooLong(p.heldKeys, now) {
      var key :| key in p.heldKeys && now - p.heldKeys[key] > MAX_HELD_SECONDS;
      assert KeyTracks(p, lines, key) && TooLong(KeyHeldAt(lines, key), now);
    }
    if HeldTooLong(p.heldButtons, now) {
      var button :| button in p.heldButtons && now - p.heldButtons[button] > MAX_HELD_SECONDS;
      assert ButtonTracks(p, lines, button) && TooLong(ButtonHeldAt(lines, button), now);
    }
    if key :| KeyHeld(lines, key) && TooLong(KeyHeldAt(lines, key), now) {
      assert KeyTracks(p, lines, key) && key in p.heldKeys;
    }
    if button :| ButtonHeld(lines, button) && TooLong(ButtonHeldAt(lines, button), now) {
      assert ButtonTracks(p, lines, button) && button in p.heldButtons;
    }
  }

  /** A timer tick releases everything and ends the session exactly if the last line is
      longer ago than the watchdog allows or something was held too long; otherwise it
      changes nothing. */
  lemma TimersReleaseExactly(start: State, sid: Sid, lines: seq<Handled>, now: real)
    requires InSession(start, sid, 0) && NothingHeld(start) && lines != []
    ensures var p := After(start, sid, lines);
      var q := Timers(p, now).0;
      if (now - lines[|lines| - 1].o.now) * 1000.0 > p.watchdogMs as real || ForgottenHold(lines, now)
      then NothingHeld(q) && q.active.None? && Timers(p, now).1.Some?
      else q == p && Timers(p, now).1.None?
  {
    StaysInSession(start, sid, lines);
    ForgottenIsSeen(start, sid, lines, now);
  }
}
