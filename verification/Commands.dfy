/** Public input commands and their wire operations: validation, text chunks and
    mouse batches (gateway/noob_gateway/models.py, serial_link.py, pico/protocol.py). */
module Commands {
  import opened Options
  import opened Pico

  const HID_MOUSE_DELTA_LIMIT: int := 127
  const MOUSE_MOVE_BATCH_LIMIT: nat := 8
  const GATEWAY_MOUSE_AXIS_LIMIT: int := HID_MOUSE_DELTA_LIMIT * MOUSE_MOVE_BATCH_LIMIT
  const CHUNK: nat := 32

  const LETTERS: set<string> := {
    "A", "B", "C", "D", "E", "F", "G", "H", "I", "J", "K", "L", "M",
    "N", "O", "P", "Q", "R", "S", "T", "U", "V", "W", "X", "Y", "Z"
  }
  const DIGITS: set<string> := {
    "ZERO", "ONE", "TWO", "THREE", "FOUR", "FIVE", "SIX", "SEVEN", "EIGHT", "NINE"
  }
  const EDITING: set<string> := {
    "ENTER", "ESCAPE", "BACKSPACE", "TAB", "SPACE", "MINUS", "EQUALS"
  }
  const PUNCTUATION: set<string> := {
    "LEFT_BRACKET", "RIGHT_BRACKET", "BACKSLASH", "SEMICOLON", "QUOTE",
    "GRAVE_ACCENT", "COMMA", "PERIOD", "FORWARD_SLASH", "CAPS_LOCK"
  }
  const FUNCTION_KEYS: set<string> := {
    "F1", "F2", "F3", "F4", "F5", "F6", "F7", "F8", "F9", "F10", "F11", "F12"
  }
  const NAVIGATION: set<string> := {
    "PRINT_SCREEN", "SCROLL_LOCK", "PAUSE", "INSERT", "HOME", "PAGE_UP",
    "DELETE", "END", "PAGE_DOWN", "RIGHT_ARROW", "LEFT_ARROW", "DOWN_ARROW", "UP_ARROW"
  }
  const MODIFIERS: set<string> := {
    "APPLICATION", "LEFT_CONTROL", "LEFT_SHIFT", "LEFT_ALT", "LEFT_GUI",
    "RIGHT_CONTROL", "RIGHT_SHIFT", "RIGHT_ALT", "RIGHT_GUI"
  }
  const KEY_NAMES: set<string> := LETTERS + DIGITS + EDITING + PUNCTUATION + FUNCTION_KEYS + NAVIGATION + MODIFIERS
  const MOUSE_BUTTONS: set<string> := {"left", "right", "middle"}

  predicate Typeable(c: char) {
    c as int in {9, 10, 13} || 32 <= c as int <= 126
  }

  predicate DistinctNames(keys: seq<string>) {
    forall i, j :: 0 <= i < j < |keys| ==> keys[i] != keys[j]
  }

  predicate InRange(value: int, limit: int) { -limit <= value <= limit }

  /** `validate_input_command` on an already normalised command. */
  predicate Acceptable(op: Op, maxTypeChars: nat) {
    match op
    case Key(_, key) => key in KEY_NAMES
    case Type(text, intervalMs) =>
      && 0 < |text| <= maxTypeChars && (forall i :: 0 <= i < |text| ==> Typeable(text[i]))
      && 0 <= intervalMs <= 25
    case Combo(keys, holdMs) =>
      && 1 <= |keys| <= 6 && DistinctNames(keys) && (forall i :: 0 <= i < |keys| ==> keys[i] in KEY_NAMES)
      && 20 <= holdMs <= 500
    case MouseMove(dx, dy, wheel) =>
      InRange(dx, GATEWAY_MOUSE_AXIS_LIMIT) && InRange(dy, GATEWAY_MOUSE_AXIS_LIMIT)
      && InRange(wheel, HID_MOUSE_DELTA_LIMIT)
    case MouseButton(button, _) => button in MOUSE_BUTTONS
    case ReleaseAll => true
    case Ping => true
    case _ => false
  }

  /** `parse_command`: what the Pico accepts, operation by operation. */
  predicate Parses(op: Op) {
    match op
    case Session(watchdogMs) => 500 <= watchdogMs <= 5000
    case Heartbeat => true
    case Ping => true
    case ReleaseAll => true
    case Key(_, key) => key in KEY_NAMES
    case Type(text, intervalMs) =>
      && 0 < |text| <= 32 && (forall i :: 0 <= i < |text| ==> Typeable(text[i]))
      && 0 <= intervalMs <= 25
    case Combo(keys, holdMs) =>
      && 1 <= |keys| <= 6 && DistinctNames(keys) && (forall i :: 0 <= i < |keys| ==> keys[i] in KEY_NAMES)
      && 20 <= holdMs <= 500
    case MouseMove(dx, dy, wheel) => InRange(dx, 127) && InRange(dy, 127) && InRange(wheel, 127)
    case MouseButton(button, _) => button in MOUSE_BUTTONS
  }

  function Clamp(value: int, limit: int): int
    requires limit >= 0
  {
    if value < -limit then -limit else if value > limit then limit else value
  }

  function Abs(value: int): nat { if value < 0 then -value else value }

  function Largest(dx: int, dy: int, wheel: int): nat {
    var a := if Abs(dx) < Abs(dy) then Abs(dy) else Abs(dx);
    if a < Abs(wheel) then Abs(wheel) else a
  }

  /** `mouse_move_chunk_count`. */
  function MoveChunkCount(dx: int, dy: int, wheel: int): nat {
    var reports := (Largest(dx, dy, wheel) + HID_MOUSE_DELTA_LIMIT - 1) / HID_MOUSE_DELTA_LIMIT;
    if reports < 1 then 1 else reports
  }

  function SumX(ops: seq<Op>): int {
    if ops == [] then 0 else SumX(ops[..|ops| - 1]) + (if ops[|ops| - 1].MouseMove? then ops[|ops| - 1].dx else 0)
  }
  function SumY(ops: seq<Op>): int {
    if ops == [] then 0 else SumY(ops[..|ops| - 1]) + (if ops[|ops| - 1].MouseMove? then ops[|ops| - 1].dy else 0)
  }
  function SumWheel(ops: seq<Op>): int {
    if ops == [] then 0
    else SumWheel(ops[..|ops| - 1]) + (if ops[|ops| - 1].MouseMove? then ops[|ops| - 1].wheel else 0)
  }

  predicate Reports(ops: seq<Op>) {
    forall i :: 0 <= i < |ops| ==>
      ops[i].MouseMove? && InRange(ops[i].dx, 127) && InRange(ops[i].dy, 127) && InRange(ops[i].wheel, 127)
  }

  function After(value: int): int { value - Clamp(value, HID_MOUSE_DELTA_LIMIT) }

  lemma OneReportLess(x: int, y: int, w: int)
    ensures Largest(After(x), After(y), After(w)) ==
      if Largest(x, y, w) <= HID_MOUSE_DELTA_LIMIT then 0 else Largest(x, y, w) - HID_MOUSE_DELTA_LIMIT
  {
  }

  lemma CountIsQuotient(dx: int, dy: int, wheel: int, n: nat)
    requires HID_MOUSE_DELTA_LIMIT * (n - 1) < Largest(dx, dy, wheel) <= HID_MOUSE_DELTA_LIMIT * n
    ensures n > 0 ==> MoveChunkCount(dx, dy, wheel) == n
  {
  }

  lemma SumsAppend(ops: seq<Op>, op: Op)
    requires op.MouseMove?
    ensures SumX(ops + [op]) == SumX(ops) + op.dx
    ensures SumY(ops + [op]) == SumY(ops) + op.dy
    ensures SumWheel(ops + [op]) == SumWheel(ops) + op.wheel
  {
    assert (ops + [op])[..|ops|] == ops;
  }

  /** `_split_mouse_move`: signed-byte reports that add up to the movement, as many as
      `mouse_move_chunk_count` says, refused exactly when that exceeds the batch limit. */
  method SplitMouseMove(dx: int, dy: int, wheel: int) returns (r: Result<seq<Op>, string>)
    ensures r.Ok? <==> Largest(dx, dy, wheel) <= GATEWAY_MOUSE_AXIS_LIMIT
    ensures r.Ok? ==>
      && Reports(r.value) && |r.value| == MoveChunkCount(dx, dy, wheel) <= MOUSE_MOVE_BATCH_LIMIT
      && SumX(r.value) == dx && SumY(r.value) == dy && SumWheel(r.value) == wheel
  {
    var x, y, w := dx, dy, wheel;
    var chunks: seq<Op> := [];
    ghost var all := Largest(dx, dy, wheel);
    while x != 0 || y != 0 || w != 0
      invariant Reports(chunks)
      invariant |chunks| <= MOUSE_MOVE_BATCH_LIMIT
      invariant SumX(chunks) + x == dx && SumY(chunks) + y == dy && SumWheel(chunks) + w == wheel
      invariant HID_MOUSE_DELTA_LIMIT * (|chunks| - 1) < all
      invariant Largest(x, y, w) == if all <= HID_MOUSE_DELTA_LIMIT * |chunks| then 0 else all - HID_MOUSE_DELTA_LIMIT * |chunks|
      decreases Largest(x, y, w)
    {
      OneReportLess(x, y, w);
      var report := MouseMove(Clamp(x, 127), Clamp(y, 127), Clamp(w, 127));
      SumsAppend(chunks, report);
      chunks := chunks + [report];
      x, y, w := After(x), After(y), After(w);
      if |chunks| > MOUSE_MOVE_BATCH_LIMIT {
        return Err("mouse movement exceeds batch limit");
      }
    }
    if chunks == [] {
      SumsAppend([], MouseMove(dx, dy, wheel));
      return Ok([MouseMove(dx, dy, wheel)]);
    }
    CountIsQuotient(dx, dy, wheel, |chunks|);
    r := Ok(chunks);
  }
}
