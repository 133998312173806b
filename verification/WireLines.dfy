/** The serial lines as text: what `json.dumps` makes of an operation
    (gateway/noob_gateway/serial_link.py, `_send_operation`), and that the Pico's receiver
    gets every such line whole. */
module WireLines {
  import opened Commands
  import opened Pico
  import Receiver
  import Wire

  // ----- JSON text -----

  function Decimal(n: nat): string {
    if n < 10 then ["0123456789"[n]] else Decimal(n / 10) + ["0123456789"[n % 10]]
  }

  function Hex(n: nat): char
    requires n < 16
  {
    "0123456789abcdef"[n]
  }

  /** A UTF-16 code unit. */
  function CodeUnit(n: nat): string
    requires n < 0x10000
  {
    ['\\', 'u', Hex(n / 4096), Hex(n / 256 % 16), Hex(n / 16 % 16), Hex(n % 16)]
  }

  function Unicode(n: nat): string
    requires n < 0x110000
  {
    if n < 0x10000 then CodeUnit(n)
    else CodeUnit(0xD800 + (n - 0x10000) / 0x400) + CodeUnit(0xDC00 + (n - 0x10000) % 0x400)
  }

  function Escaped(c: char): string {
    var n := c as int;
    if c == '"' then "\\\"" else if c == '\\' then "\\\\"
    else if c == '\n' then "\\n" else if c == '\r' then "\\r" else if c == '\t' then "\\t"
    else if n == 8 then "\\b" else if n == 12 then "\\f"
    else if 32 <= n <= 126 then [c]
    else Unicode(n)
  }

  function Joined(pieces: seq<string>, separator: string): string {
    if pieces == [] then ""
    else pieces[0] + (if |pieces| == 1 then "" else separator + Joined(pieces[1..], separator))
  }

  function EscapedAll(s: string): string {
    Joined(seq(|s|, i requires 0 <= i < |s| => Escaped(s[i])), "")
  }

  function Quoted(s: string): string { "\"" + EscapedAll(s) + "\"" }

  datatype Json = Text(text: string) | Number(value: int) | Names(names: seq<string>)

  datatype Member = Member(name: string, value: Json)

  function Listed(names: seq<string>): string {
    Joined(seq(|names|, i requires 0 <= i < |names| => Quoted(names[i])), ",")
  }

  function Dumped(v: Json): string {
    match v
    case Text(text) => Quoted(text)
    case Number(n) => if n < 0 then "-" + Decimal(-n) else Decimal(n)
    case Names(names) => "[" + Listed(names) + "]"
  }

  function MemberText(m: Member): string { Quoted(m.name) + ":" + Dumped(m.value) }

  function MemberTexts(members: seq<Member>): seq<string> {
    seq(|members|, i requires 0 <= i < |members| => MemberText(members[i]))
  }

  function Members(members: seq<Member>): string { Joined(MemberTexts(members), ",") }

  // ----- Lines -----

  function EventName(event: ButtonEvent): string {
    match event case Press => "down" case Release => "up" case Click => "click"
  }

  function Fields(op: Op): seq<Member> {
    match op
    case Session(watchdogMs) => [Member("op", Text("session")), Member("watchdog_ms", Number(watchdogMs))]
    case Heartbeat => [Member("op", Text("heartbeat"))]
    case Ping => [Member("op", Text("ping"))]
    case ReleaseAll => [Member("op", Text("release_all"))]
    case Key(down, key) =>
      [Member("op", Text("key")), Member("event", Text(if down then "down" else "up")), Member("key", Text(key))]
    case Type(text, intervalMs) =>
      [Member("op", Text("type")), Member("text", Text(text)), Member("interval_ms", Number(intervalMs))]
    case Combo(keys, holdMs) =>
      [Member("op", Text("combo")), Member("keys", Names(keys)), Member("hold_ms", Number(holdMs))]
    case MouseMove(dx, dy, wheel) =>
      [Member("op", Text("mouse_move")), Member("dx", Number(dx)), Member("dy", Number(dy)), Member("wheel", Number(wheel))]
    case MouseButton(button, event) =>
      [Member("op", Text("mouse_button")), Member("button", Text(button)), Member("event", Text(EventName(event)))]
  }

  datatype Line = Line(sid: string, sequence: nat, op: Op)

  function Head(sid: string, sequence: nat): seq<Member> {
    [Member("v", Number(1)), Member("sid", Text(sid)), Member("seq", Number(sequence))]
  }

  function Payload(line: Line): seq<Member> { Head(line.sid, line.sequence) + Fields(line.op) }

  /** Without its newline. */
  function LineText(line: Line): string { "{" + Members(Payload(line)) + "}" }

  /** A session id is sixteen hexadecimal digits, a number fits 32 bits. */
  predicate Numbered(line: Line) {
    |line.sid| == 16 && (forall i :: 0 <= i < 16 ==> line.sid[i] in "0123456789abcdef") && line.sequence <= Wire.MAX_SEQUENCE
  }

  predicate Sendable(line: Line) { Numbered(line) && Parses(line.op) }

  /** Whatever its numbers, the operation's line with its newline is within what both ends allow. */
  ghost predicate FitsLine(op: Op) {
    forall line: Line :: Numbered(line) && line.op == op ==> |LineText(line)| + 1 <= Receiver.MAX_LINE_BYTES
  }

  // ----- Characters -----

  predicate Printable(s: string) { forall i :: 0 <= i < |s| ==> 32 <= s[i] as int <= 126 }

  lemma {:induction false} DecimalPrintable(n: nat)
    ensures Printable(Decimal(n))
  {
    if n >= 10 { DecimalPrintable(n / 10); }
  }

  lemma CodeUnitPrintable(n: nat)
    requires n < 0x10000
    ensures Printable(CodeUnit(n)) && |CodeUnit(n)| == 6
  {
    assert forall k: nat :: k < 16 ==> 32 <= Hex(k) as int <= 126;
  }

  lemma UnicodePrintable(n: nat)
    requires n < 0x110000
    ensures Printable(Unicode(n))
  {
    if n < 0x10000 {
      CodeUnitPrintable(n);
    } else {
      CodeUnitPrintable(0xD800 + (n - 0x10000) / 0x400);
      CodeUnitPrintable(0xDC00 + (n - 0x10000) % 0x400);
    }
  }

  lemma EscapedPrintable(c: char)
    ensures Printable(Escaped(c))
  {
    UnicodePrintable(c as int);
  }

  lemma ThreePrintable(a: string, b: string, c: string)
    requires Printable(a) && Printable(b) && Printable(c)
    ensures Printable(a + (b + c)) && Printable(a + b + c)
  {
  }

  lemma {:induction false} JoinedPrintable(pieces: seq<string>, separator: string)
    requires Printable(separator) && forall i :: 0 <= i < |pieces| ==> Printable(pieces[i])
    ensures Printable(Joined(pieces, separator))
  {
    if pieces != [] {
      JoinedPrintable(pieces[1..], separator);
      ThreePrintable(pieces[0], separator, Joined(pieces[1..], separator));
    }
  }

  lemma QuotedPrintable(s: string)
    ensures Printable(Quoted(s))
  {
    var pieces := seq(|s|, i requires 0 <= i < |s| => Escaped(s[i]));
    forall i | 0 <= i < |s| ensures Printable(pieces[i]) { EscapedPrintable(s[i]); }
    JoinedPrintable(pieces, "");
    ThreePrintable("\"", EscapedAll(s), "\"");
  }

  lemma ListedPrintable(names: seq<string>)
    ensures Printable(Listed(names))
  {
    var pieces := seq(|names|, i requires 0 <= i < |names| => Quoted(names[i]));
    forall i | 0 <= i < |names| ensures Printable(pieces[i]) { QuotedPrintable(names[i]); }
    JoinedPrintable(pieces, ",");
  }

  lemma DumpedPrintable(v: Json)
    ensures Printable(Dumped(v))
  {
    match v
    case Text(text) => QuotedPrintable(text);
    case Number(n) => DecimalPrintable(if n < 0 then -n else n);
    case Names(names) => ListedPrintable(names);
  }

  lemma MemberPrintable(m: Member)
    ensures Printable(MemberText(m))
  {
    QuotedPrintable(m.name);
    DumpedPrintable(m.value);
    ThreePrintable(Quoted(m.name), ":", Dumped(m.value));
  }

  lemma MembersPrintable(members: seq<Member>)
    ensures Printable(Members(members))
  {
    forall i | 0 <= i < |members| ensures Printable(MemberTexts(members)[i]) { MemberPrintable(members[i]); }
    JoinedPrintable(MemberTexts(members), ",");
  }

  /** Whatever the operation holds, its line has no newline in it, nor any byte but
      printable ASCII. */
  lemma TextPrintable(line: Line)
    ensures Printable(LineText(line))
  {
    MembersPrintable(Payload(line));
  }

  // ----- Lengths -----

  predicate Plain(s: string) {
    forall i :: 0 <= i < |s| ==> 32 <= s[i] as int <= 126 && s[i] != '"' && s[i] != '\\'
  }

  function Power10(k: nat): nat { if k == 0 then 1 else 10 * Power10(k - 1) }

  lemma {:induction false} DecimalShort(n: nat, digits: nat)
    requires digits > 0 && n < Power10(digits)
    ensures |Decimal(n)| <= digits
  {
    if n >= 10 {
      assert digits > 1;
      DecimalShort(n / 10, digits - 1);
    }
  }

  lemma TenDigits()
    ensures Power10(10) == 10_000_000_000
  {
    assert Power10(3) == 1000;
    assert Power10(6) == 1000 * Power10(3);
    assert Power10(9) == 1000 * Power10(6);
  }

  lemma NumberLength(n: int)
    requires Abs(n) <= Wire.MAX_SEQUENCE
    ensures |Dumped(Number(n))| <= 11
  {
    TenDigits();
    DecimalShort(Abs(n), 10);
  }

  lemma {:induction false} JoinedLength(pieces: seq<string>, separator: string, each: nat)
    requires forall i :: 0 <= i < |pieces| ==> |pieces[i]| + |separator| <= each
    ensures |Joined(pieces, separator)| <= each * |pieces|
  {
    if pieces != [] { JoinedLength(pieces[1..], separator, each); }
  }

  lemma EscapedLength(s: string, each: nat)
    requires forall i :: 0 <= i < |s| ==> |Escaped(s[i])| <= each
    ensures |EscapedAll(s)| <= each * |s|
  {
    JoinedLength(seq(|s|, i requires 0 <= i < |s| => Escaped(s[i])), "", each);
  }

  lemma LettersPlain(key: string)
    requires key in LETTERS || key in DIGITS
    ensures |key| <= 13 && Plain(key)
  {
    if key in DIGITS { assert |key| <= 5; }
  }

  lemma EditingPlain(key: string)
    requires key in EDITING
    ensures |key| <= 13 && Plain(key)
  {
  }

  lemma PunctuationPlain(key: string)
    requires key in PUNCTUATION
    ensures |key| <= 13 && Plain(key)
  {
  }

  lemma FunctionsPlain(key: string)
    requires key in FUNCTION_KEYS
    ensures |key| <= 13 && Plain(key)
  {
  }

  lemma NavigationPlain(key: string)
    requires key in NAVIGATION
    ensures |key| <= 13 && Plain(key)
  {
  }

  lemma ModifiersPlain(key: string)
    requires key in MODIFIERS
    ensures |key| <= 13 && Plain(key)
  {
  }

  lemma KeyPlain(key: string)
    requires key in KEY_NAMES
    ensures |key| <= 13 && Plain(key)
  {
    if key in LETTERS || key in DIGITS { LettersPlain(key); }
    else if key in EDITING { EditingPlain(key); }
    else if key in PUNCTUATION { PunctuationPlain(key); }
    else if key in FUNCTION_KEYS { FunctionsPlain(key); }
    else if key in NAVIGATION { NavigationPlain(key); }
    else { ModifiersPlain(key); }
  }

  lemma PlainLength(text: string)
    requires Plain(text)
    ensures |EscapedAll(text)| <= |text|
  {
    EscapedLength(text, 1);
  }

  lemma KeyLength(text: string)
    requires text in KEY_NAMES
    ensures |EscapedAll(text)| <= 13
  {
    KeyPlain(text);
    PlainLength(text);
  }

  lemma ListedLength(names: seq<string>)
    requires forall i :: 0 <= i < |names| ==> names[i] in KEY_NAMES
    ensures |Listed(names)| <= 16 * |names|
  {
    var pieces := seq(|names|, i requires 0 <= i < |names| => Quoted(names[i]));
    forall i | 0 <= i < |names| ensures |pieces[i]| <= 15 { KeyLength(names[i]); }
    JoinedLength(pieces, ",", 16);
  }

  lemma TextLength(text: string)
    requires forall i :: 0 <= i < |text| ==> Typeable(text[i])
    ensures |EscapedAll(text)| <= 2 * |text|
  {
    EscapedLength(text, 2);
  }

  /** No character takes more than two escaped UTF-16 code units. */
  lemma EscapedAtMost(s: string)
    ensures |EscapedAll(s)| <= 12 * |s|
  {
    EscapedLength(s, 12);
  }

  lemma MemberLength(name: string, value: Json)
    ensures |MemberText(Member(name, value))| <= 12 * |name| + 3 + |Dumped(value)|
  {
    EscapedAtMost(name);
  }

  lemma WordMember(name: string, word: string)
    ensures |MemberText(Member(name, Text(word)))| <= 12 * |name| + 12 * |word| + 5
  {
    EscapedAtMost(name);
    EscapedAtMost(word);
  }

  lemma NumberMember(name: string, value: int)
    requires Abs(value) <= Wire.MAX_SEQUENCE
    ensures |MemberText(Member(name, Number(value)))| <= 12 * |name| + 14
  {
    EscapedAtMost(name);
    NumberLength(value);
  }

  lemma {:induction false} JoinedJoin(a: seq<string>, b: seq<string>)
    ensures |Joined(a + b, ",")| <= |Joined(a, ",")| + 1 + |Joined(b, ",")|
  {
    if a == [] {
      assert a + b == b;
    } else {
      JoinedJoin(a[1..], b);
      assert (a + b)[1..] == a[1..] + b;
    }
  }

  lemma TextsJoin(a: seq<Member>, b: seq<Member>)
    ensures MemberTexts(a + b) == MemberTexts(a) + MemberTexts(b)
  {
    forall i | 0 <= i < |a + b| ensures MemberTexts(a + b)[i] == (MemberTexts(a) + MemberTexts(b))[i] {
      if i >= |a| { assert (a + b)[i] == b[i - |a|]; }
    }
  }

  lemma MembersJoin(a: seq<Member>, b: seq<Member>)
    ensures |Members(a + b)| <= |Members(a)| + 1 + |Members(b)|
  {
    JoinedJoin(MemberTexts(a), MemberTexts(b));
    TextsJoin(a, b);
  }

  lemma OneMember(m: Member)
    ensures |Members([m])| == |MemberText(m)|
  {
  }

  lemma ThreeMembers(a: Member, b: Member, c: Member)
    ensures |Members([a, b, c])| <= |MemberText(a)| + |MemberText(b)| + |MemberText(c)| + 2
  {
    OneMember(a);
    OneMember(b);
    OneMember(c);
    MembersJoin([a], [b]);
    MembersJoin([a, b], [c]);
    assert [a] + [b] == [a, b] && [a, b] + [c] == [a, b, c];
  }

  lemma KeyLine(down: bool, key: string)
    requires |EscapedAll(key)| <= 13
    ensures |Members(Fields(Key(down, key)))| <= 500
  {
    var event := if down then "down" else "up";
    WordMember("op", "key");
    WordMember("event", event);
    MemberLength("key", Text(key));
    ThreeMembers(Member("op", Text("key")), Member("event", Text(event)), Member("key", Text(key)));
  }

  lemma TypeLine(text: string, intervalMs: int)
    requires Parses(Type(text, intervalMs))
    ensures |Members(Fields(Type(text, intervalMs)))| <= 500
  {
    WordMember("op", "type");
    TextLength(text);
    MemberLength("text", Text(text));
    NumberMember("interval_ms", intervalMs);
    ThreeMembers(Member("op", Text("type")), Member("text", Text(text)), Member("interval_ms", Number(intervalMs)));
  }

  lemma ComboLine(keys: seq<string>, holdMs: int)
    requires |Listed(keys)| <= 96 && 0 <= holdMs <= 500
    ensures |Members(Fields(Combo(keys, holdMs)))| <= 500
  {
    WordMember("op", "combo");
    MemberLength("keys", Names(keys));
    NumberMember("hold_ms", holdMs);
    ThreeMembers(Member("op", Text("combo")), Member("keys", Names(keys)), Member("hold_ms", Number(holdMs)));
  }

  lemma MoveLine(dx: int, dy: int, wheel: int)
    requires Parses(MouseMove(dx, dy, wheel))
    ensures |Members(Fields(MouseMove(dx, dy, wheel)))| <= 500
  {
    WordMember("op", "mouse_move");
    NumberMember("dx", dx);
    NumberMember("dy", dy);
    NumberMember("wheel", wheel);
    var head := [Member("op", Text("mouse_move")), Member("dx", Number(dx)), Member("dy", Number(dy))];
    ThreeMembers(head[0], head[1], head[2]);
    OneMember(Member("wheel", Number(wheel)));
    MembersJoin(head, [Member("wheel", Number(wheel))]);
    assert Fields(MouseMove(dx, dy, wheel)) == head + [Member("wheel", Number(wheel))];
  }

  lemma ButtonLine(button: string, event: ButtonEvent)
    requires button in MOUSE_BUTTONS
    ensures |Members(Fields(MouseButton(button, event)))| <= 500
  {
    assert |button| <= 6;
    WordMember("op", "mouse_button");
    WordMember("button", button);
    WordMember("event", EventName(event));
    ThreeMembers(Member("op", Text("mouse_button")), Member("button", Text(button)), Member("event", Text(EventName(event))));
  }

  lemma SessionLine(watchdogMs: int)
    requires Parses(Session(watchdogMs))
    ensures |Members(Fields(Session(watchdogMs)))| <= 500
  {
    WordMember("op", "session");
    NumberMember("watchdog_ms", watchdogMs);
    var a, b := Member("op", Text("session")), Member("watchdog_ms", Number(watchdogMs));
    OneMember(a);
    OneMember(b);
    MembersJoin([a], [b]);
    assert [a] + [b] == [a, b];
  }

  lemma WordLine(op: Op)
    requires op.Heartbeat? || op.Ping? || op.ReleaseAll?
    ensures |Members(Fields(op))| <= 500
  {
    WordMember("op", if op.Heartbeat? then "heartbeat" else if op.Ping? then "ping" else "release_all");
    OneMember(Fields(op)[0]);
  }

  lemma FieldsLength(op: Op)
    requires Parses(op)
    ensures |Members(Fields(op))| <= 500
  {
    match op
    case Key(down, key) => KeyLength(key); KeyLine(down, key);
    case Type(text, intervalMs) => TypeLine(text, intervalMs);
    case Combo(keys, holdMs) => ListedLength(keys); ComboLine(keys, holdMs);
    case MouseMove(dx, dy, wheel) => MoveLine(dx, dy, wheel);
    case MouseButton(button, event) => ButtonLine(button, event);
    case Session(watchdogMs) => SessionLine(watchdogMs);
    case _ => WordLine(op);
  }

  lemma HeadLength(sid: string, sequence: nat)
    requires |sid| == 16 && sequence <= Wire.MAX_SEQUENCE
    ensures |Members(Head(sid, sequence))| <= 400
  {
    NumberMember("v", 1);
    WordMember("sid", sid);
    NumberMember("seq", sequence);
    ThreeMembers(Member("v", Number(1)), Member("sid", Text(sid)), Member("seq", Number(sequence)));
  }

  /** Every line with its newline is within what both ends allow. */
  lemma LineLength(line: Line)
    requires Sendable(line)
    ensures |LineText(line)| + 1 <= Receiver.MAX_LINE_BYTES
  {
    HeadLength(line.sid, line.sequence);
    FieldsLength(line.op);
    MembersJoin(Head(line.sid, line.sequence), Fields(line.op));
  }

  lemma AlwaysFits(op: Op)
    requires Parses(op)
    ensures FitsLine(op)
  {
    forall line: Line | Numbered(line) && line.op == op ensures |LineText(line)| + 1 <= Receiver.MAX_LINE_BYTES {
      LineLength(line);
    }
  }

  // ----- Framing -----

  function ByteOf(c: char): bv8 { if c as int < 128 then (c as int) as bv8 else 0 }

  function Bytes(text: string): seq<bv8> { seq(|text|, i requires 0 <= i < |text| => ByteOf(text[i])) }

  function AllBytes(lines: seq<Line>): seq<seq<bv8>> {
    seq(|lines|, i requires 0 <= i < |lines| => Bytes(LineText(lines[i])))
  }

  lemma NoNewline(text: string)
    requires Printable(text)
    ensures Receiver.NEWLINE !in Bytes(text)
  {
    forall i | 0 <= i < |text| ensures Bytes(text)[i] != Receiver.NEWLINE {
      assert ((text[i] as int) as bv8) as int == text[i] as int;
    }
  }

  lemma {:induction false} FramedWhole(segments: seq<seq<bv8>>)
    requires forall i :: 0 <= i < |segments| ==> 0 < |segments[i]| <= Receiver.MAX_LINE_BYTES
    ensures |Receiver.AllFrames(segments)| == |segments|
    ensures forall i :: 0 <= i < |segments| ==> Receiver.AllFrames(segments)[i] == Receiver.LineIn(segments[i])
  {
    if segments != [] { FramedWhole(segments[..|segments| - 1]); }
  }

  /** Any lines the gateway sends reach the Pico as exactly those lines: none is cut, joined
      to another or too long. */
  lemma LinesArriveWhole(lines: seq<Line>)
    requires forall i :: 0 <= i < |lines| ==> Sendable(lines[i])
    ensures var frames := Receiver.Frames(Receiver.Joined(AllBytes(lines)));
      |frames| == |lines| && forall i :: 0 <= i < |lines| ==> frames[i] == Receiver.LineIn(Bytes(LineText(lines[i])))
  {
    var segments := AllBytes(lines);
    forall segment | segment in segments ensures Receiver.NEWLINE !in segment {
      var i :| 0 <= i < |segments| && segments[i] == segment;
      TextPrintable(lines[i]);
      NoNewline(LineText(lines[i]));
    }
    forall i | 0 <= i < |segments| ensures 0 < |segments[i]| <= Receiver.MAX_LINE_BYTES {
      LineLength(lines[i]);
    }
    Receiver.FramesOfJoined(segments);
    FramedWhole(segments);
  }
}
