/** What an attempt does: it writes every line that was not answered, and on a line that
    loses nothing the answers come (gateway/noob_gateway/serial_link.py, pico/code.py). */
module WireProgress {
  import opened Options
  import opened Pico
  import opened Wire
  import opened Runs
  import opened WireSafety
  import opened WireTheorems

  // ----- What an attempt writes -----

  predicate Awaited(e: Exchange, x: int) { e.first <= x < e.first + e.count && x !in e.answers }

  ghost predicate Ascends(lines: seq<Slot>) {
    && (forall i :: 0 <= i < |lines| ==> lines[i].Line?)
    && (forall i, j :: 0 <= i < j < |lines| ==> lines[i].x < lines[j].x)
  }

  /** Each line that is awaited, once, in the order of their numbers, and nothing else. */
  ghost predicate Writes(e: Exchange, lines: seq<Slot>) {
    && Ascends(lines)
    && (forall i :: 0 <= i < |lines| ==> Awaited(e, lines[i].x))
    && (forall x: nat :: Awaited(e, x) ==> Line(x) in lines)
  }

  lemma FirstComesFirst(x: nat, rest: seq<Slot>)
    requires Ascends(rest) && forall i :: 0 <= i < |rest| ==> x < rest[i].x
    ensures Ascends([Line(x)] + rest)
  {
    var lines := [Line(x)] + rest;
    forall i, j | 0 <= i < j < |lines| ensures lines[i].x < lines[j].x {
      assert lines[j] == rest[j - 1];
      if i > 0 { assert lines[i] == rest[i - 1]; }
    }
  }

  lemma UnansweredFrom(e: Exchange, x: nat) returns (rest: seq<Slot>)
    requires e.first <= x < e.first + e.count
    ensures rest == Unanswered(e, x + 1) && forall i :: 0 <= i < |rest| ==> rest[i].Line? && x < rest[i].x
    ensures Unanswered(e, x) == if x in e.answers then rest else [Line(x)] + rest
  {
    rest := Unanswered(e, x + 1);
  }

  lemma {:induction false} UnansweredInOrder(e: Exchange, x: nat) returns (lines: seq<Slot>)
    requires e.first <= x <= e.first + e.count
    ensures lines == Unanswered(e, x) && Ascends(lines)
    decreases e.first + e.count - x
  {
    if x == e.first + e.count {
      lines := [];
    } else {
      var later := UnansweredInOrder(e, x + 1);
      var rest := UnansweredFrom(e, x);
      FirstComesFirst(x, later);
      lines := if x in e.answers then later else [Line(x)] + later;
    }
  }

  /** Every attempt, the second like the first, writes every line of the exchange that was
      not answered, once each and in order, behind what is already on its way. */
  lemma AttemptWritesUnanswered(s: System) returns (lines: seq<Slot>)
    requires Enabled(s, Send)
    ensures Writes(s.lock.value, lines)
    ensures Apply(s, Send) ==
      s.(forward := s.forward + lines, lock := Some(s.lock.value.(attempt := s.lock.value.attempt + 1)))
  {
    var e := s.lock.value;
    lines := UnansweredInOrder(e, e.first);
  }

  // ----- What a handled line answers -----

  /** A remembered answer carries the identifiers it is remembered under. */
  ghost predicate AnswersMatch(cache: seq<Entry>) {
    forall i :: 0 <= i < |cache| ==> Matches(cache[i].response, cache[i].sid, cache[i].sequence)
  }

  predicate Matches(r: Response, sid: Sid, sequence: nat) {
    (r.Ack? || r.Nack?) && r.sid == sid && r.sequence == sequence
  }

  lemma HandledAnswers(p: State, c: Command, o: Oracle)
    requires AnswersMatch(p.cache)
    ensures AnswersMatch(Handle(p, c, o).0.cache) && Matches(Handle(p, c, o).1, c.sid, c.sequence)
  {
    PerformAnswers(p, c, o);
  }

  lemma StepKeepsAnswers(s: System, step: Step)
    requires AnswersMatch(s.pico.cache) && Enabled(s, step)
    ensures AnswersMatch(Apply(s, step).pico.cache)
  {
    if step.PicoTakes? && s.forward[0].Line? {
      HandledAnswers(s.pico, s.issued[s.forward[0].x].command, step.o);
    }
  }

  lemma ReachableAnswers(s: System)
    requires Reachable(s)
    ensures AnswersMatch(s.pico.cache)
  {
    forall m: System, r: System | AnswersMatch(m.pico.cache) && Next(m, r) ensures AnswersMatch(r.pico.cache) {
      var step :| Enabled(m, step) && r == Apply(m, step);
      StepKeepsAnswers(m, step);
    }
    FollowsKeeps(Next, (t: System) => AnswersMatch(t.pico.cache), INITIAL, s);
  }

  // ----- One line there and back -----

  /** The exchange that holds the lock is of the open session, and the Pico is in it or
      will be by the exchange's own line. */
  ghost predicate Served(s: System, e: Exchange) {
    && s.lock == Some(e) && e.first + e.count <= |s.issued| && e.count > 0
    && (forall x :: e.first <= x < e.first + e.count ==>
          && s.sid == Some(s.issued[x].command.sid)
          && s.issued[x].command.sequence == s.issued[e.first].command.sequence + (x - e.first)
          && (s.issued[x].command.op.Session? || s.pico.active == s.sid))
    && AnswersMatch(s.pico.cache)
  }

  /** Only lines of the exchange are on their way, and no answer is. */
  ghost predicate OnlyItsLines(s: System, e: Exchange) {
    && s.back == []
    && (forall i :: 0 <= i < |s.forward| ==> s.forward[i].Line? && e.first <= s.forward[i].x < e.first + e.count)
  }

  predicate Unheard(s: System, x: nat)
    requires x < |s.issued|
  {
    Lookup(s.pico.cache, s.issued[x].command.sid, s.issued[x].command.sequence).None?
  }

  function With(e: Exchange, x: nat, ok: bool): Exchange {
    if x in e.answers then e else e.(answers := e.answers[x := ok])
  }

  /** The Pico takes the first line and the gateway its answer. */
  function Trip(s: System, o: Oracle): System
    requires s.forward != [] && s.forward[0].Line? && s.forward[0].x < |s.issued|
  {
    Delivered(TakenLine(s, s.forward[0].x, o))
  }

  lemma TripFollows(s: System, o: Oracle)
    requires s.forward != [] && s.forward[0].Line? && s.forward[0].x < |s.issued|
    ensures Follows(Next, s, Trip(s, o))
  {
    var t := TakenLine(s, s.forward[0].x, o);
    assert Enabled(s, PicoTakes(o)) && t == Apply(s, PicoTakes(o));
    assert Enabled(t, Deliver) && Trip(s, o) == Apply(t, Deliver);
    FollowsOne(Next, s, t);
    FollowsOne(Next, t, Trip(s, o));
    FollowsOn(Next, s, t, Trip(s, o));
  }

  lemma TakenAnswers(s: System, e: Exchange, o: Oracle, x: nat) returns (r: Response)
    requires Served(s, e) && OnlyItsLines(s, e) && s.forward != [] && s.forward[0] == Line(x)
    ensures var t := TakenLine(s, x, o);
      && t.forward == s.forward[1..] && t.back == [r] && Served(t, e) && t.issued == s.issued
      && t.ready == s.ready && t.sid == s.sid && t.generation == s.generation
      && Matches(r, s.issued[x].command.sid, s.issued[x].command.sequence)
      && (Unheard(s, x) && !o.fails ==> r.Ack?)
    ensures s.pico.active == s.sid ==> TakenLine(s, x, o).pico.active == s.sid
  {
    var c := s.issued[x].command;
    HandledAnswers(s.pico, c, o);
    PerformAnswers(s.pico, c, o);
    r := Handle(s.pico, c, o).1;
  }

  lemma AnswerArrives(t: System, e: Exchange, x: nat, r: Response)
    requires Served(t, e) && t.back == [r] && e.first <= x < e.first + e.count
    requires Matches(r, t.issued[x].command.sid, t.issued[x].command.sequence)
    ensures Delivered(t) == t.(back := [], lock := Some(With(e, x, r.Ack?)))
  {
  }

  lemma TripAnswers(s: System, e: Exchange, o: Oracle, x: nat) returns (ok: bool)
    requires Served(s, e) && OnlyItsLines(s, e) && s.forward != [] && s.forward[0] == Line(x)
    ensures var t := Trip(s, o);
      && t.forward == s.forward[1..] && t.issued == s.issued && Served(t, With(e, x, ok)) && OnlyItsLines(t, With(e, x, ok))
      && t.ready == s.ready && t.sid == s.sid && t.generation == s.generation
      && (s.pico.active == s.sid ==> t.pico.active == t.sid)
      && (Unheard(s, x) && !o.fails ==> ok)
  {
    var r := TakenAnswers(s, e, o, x);
    var t := TakenLine(s, x, o);
    AnswerArrives(t, e, x, r);
    ok := r.Ack?;
  }

  // ----- A whole attempt -----

  /** What was answered stays answered. */
  predicate Extends(e: Exchange, f: Exchange) {
    && f.first == e.first && f.count == e.count && f.attempt == e.attempt
    && forall x :: x in e.answers ==> x in f.answers && f.answers[x] == e.answers[x]
  }

  ghost predicate Unrepeated(lines: seq<Slot>) {
    forall i, j :: 0 <= i < j < |lines| ==> lines[i] != lines[j]
  }

  /** Nothing on its way is known to the Pico. */
  ghost predicate NoneHeard(s: System) {
    && Unrepeated(s.forward)
    && forall i :: 0 <= i < |s.forward| && s.forward[i].Line? && s.forward[i].x < |s.issued| ==> Unheard(s, s.forward[i].x)
  }

  lemma HandledRemembers(p: State, c: Command, o: Oracle, sid: Sid, sequence: nat)
    requires Lookup(p.cache, sid, sequence).None? && sequence != c.sequence
    ensures Lookup(Handle(p, c, o).0.cache, sid, sequence).None?
  {
    PerformAnswers(p, c, o);
  }

  lemma TripRemembers(s: System, o: Oracle, x: nat, y: nat)
    requires s.forward != [] && s.forward[0] == Line(x) && x < |s.issued| && y < |s.issued| && Unheard(s, y)
    requires s.issued[y].command.sequence != s.issued[x].command.sequence
    ensures Trip(s, o).issued == s.issued && Unheard(Trip(s, o), y)
  {
    HandledRemembers(s.pico, s.issued[x].command, o, s.issued[y].command.sid, s.issued[y].command.sequence);
  }

  lemma OthersStayUnheard(s: System, e: Exchange, o: Oracle, x: nat)
    requires Served(s, e) && OnlyItsLines(s, e) && s.forward != [] && s.forward[0] == Line(x) && NoneHeard(s)
    requires Trip(s, o).forward == s.forward[1..] && Trip(s, o).issued == s.issued
    ensures NoneHeard(Trip(s, o))
  {
    var t := Trip(s, o);
    forall i | 0 <= i < |t.forward| ensures Unheard(t, t.forward[i].x) {
      var y := t.forward[i].x;
      assert s.forward[i + 1] == Line(y) && s.forward[0] != s.forward[i + 1];
      assert Unheard(s, y);
      TripRemembers(s, o, x, y);
    }
    assert forall i :: 0 <= i < |t.forward| ==> t.forward[i] == s.forward[i + 1];
  }

  /** All that is on its way goes through. */
  function Drained(s: System, o: Oracle): System
    decreases |s.forward|
  {
    if s.forward == [] || !s.forward[0].Line? || s.forward[0].x >= |s.issued| then s else Drained(Trip(s, o), o)
  }

  lemma {:induction false} DrainFollows(s: System, o: Oracle)
    ensures Follows(Next, s, Drained(s, o))
    decreases |s.forward|
  {
    if s.forward == [] || !s.forward[0].Line? || s.forward[0].x >= |s.issued| {
      assert Leads(Next, s, s, 0);
    } else {
      TripFollows(s, o);
      DrainFollows(Trip(s, o), o);
      FollowsOn(Next, s, Trip(s, o), Drained(s, o));
    }
  }

  /** Nothing is on its way, and the gateway has issued nothing and ended nothing since. */
  predicate QuietLike(s: System, r: System) {
    && r.forward == [] && r.back == [] && r.issued == s.issued && r.sid == s.sid && r.ready == s.ready
    && r.generation == s.generation && (s.pico.active == s.sid ==> r.pico.active == r.sid)
  }

  lemma AnswersGrow(e: Exchange, x: nat, ok: bool, f: Exchange)
    requires Extends(With(e, x, ok), f)
    ensures Extends(e, f) && x in f.answers && (x !in e.answers ==> f.answers[x] == ok)
  {
  }

  /** From a line that carries only the exchange's own, without loss, every one of them is
      answered. */
  lemma {:induction false} DrainAnswers(s: System, e: Exchange, o: Oracle) returns (f: Exchange)
    requires Served(s, e) && OnlyItsLines(s, e)
    ensures Drained(s, o).lock == Some(f) && Extends(e, f) && QuietLike(s, Drained(s, o))
    ensures forall i :: 0 <= i < |s.forward| ==> s.forward[i].x in f.answers
    decreases |s.forward|
  {
    f := e;
    if s.forward != [] {
      var x := s.forward[0].x;
      var ok := TripAnswers(s, e, o, x);
      var t := Trip(s, o);
      f := DrainAnswers(t, With(e, x, ok), o);
      AnswersGrow(e, x, ok, f);
      assert forall i :: 0 < i < |s.forward| ==> s.forward[i] == t.forward[i - 1];
    }
  }

  /** ... and acknowledged if the Pico had not heard them and no HID call fails. */
  lemma {:induction false} DrainAcks(s: System, e: Exchange, o: Oracle) returns (f: Exchange)
    requires Served(s, e) && OnlyItsLines(s, e) && NoneHeard(s) && !o.fails
    requires forall i :: 0 <= i < |s.forward| ==> s.forward[i].x !in e.answers
    ensures Drained(s, o).lock == Some(f) && Extends(e, f)
    ensures forall i :: 0 <= i < |s.forward| ==> s.forward[i].x in f.answers && f.answers[s.forward[i].x]
    decreases |s.forward|
  {
    f := e;
    if s.forward != [] {
      var x := s.forward[0].x;
      assert Unheard(s, x);
      var ok := TripAnswers(s, e, o, x);
      OthersStayUnheard(s, e, o, x);
      var t := Trip(s, o);
      forall i | 0 <= i < |t.forward| ensures t.forward[i].x !in With(e, x, ok).answers {
        assert t.forward[i] == s.forward[i + 1] && s.forward[0] != s.forward[i + 1];
      }
      f := DrainAcks(t, With(e, x, ok), o);
      AnswersGrow(e, x, ok, f);
      assert forall i :: 0 < i < |s.forward| ==> s.forward[i] == t.forward[i - 1];
    }
  }

  /** The Pico is in the gateway's session, or the exchange is the line that opens it. */
  predicate Understood(s: System) {
    && s.lock.Some? && s.lock.value.first < |s.issued|
    && (s.pico.active == s.sid || s.issued[s.lock.value.first].command.op.Session?)
  }

  lemma SameTurnAsSession(issued: seq<Issue>, turns: nat, nextSid: Sid, x: nat, y: nat)
    requires IssuedOk(issued, turns, nextSid) && x < |issued| && y < |issued|
    requires issued[x].command.op.Session? && issued[x].turn == issued[y].turn
    ensures y <= x
  {
  }

  lemma SessionLineAlone(s: System)
    requires Inv(s) && s.lock.Some? && s.lock.value.first < |s.issued|
    requires s.issued[s.lock.value.first].command.op.Session?
    ensures s.lock.value.count == 1
  {
    SameTurnAsSession(s.issued, s.turns, s.nextSid, s.lock.value.first, |s.issued| - 1);
  }

  lemma AttemptIsServed(s: System)
    requires Inv(s) && AnswersMatch(s.pico.cache) && Enabled(s, Send) && Understood(s)
    ensures Served(Apply(s, Send), Apply(s, Send).lock.value)
  {
    if s.issued[s.lock.value.first].command.op.Session? { SessionLineAlone(s); }
  }

  /** The Pico has not heard the lines still awaited. */
  ghost predicate NewToPico(s: System)
    requires s.lock.Some?
  {
    forall x: nat :: x < |s.issued| && Awaited(s.lock.value, x) ==> Unheard(s, x)
  }

  predicate NoneRefused(e: Exchange) { forall x :: x in e.answers ==> e.answers[x] }

  lemma AttemptIsUnheard(s: System, lines: seq<Slot>)
    requires Enabled(s, Send) && s.forward == [] && Writes(s.lock.value, lines) && NewToPico(s)
    requires s.lock.value.first + s.lock.value.count <= |s.issued|
    requires Apply(s, Send).forward == lines
    ensures NoneHeard(Apply(s, Send))
  {
  }

  lemma AllAnswered(e: Exchange, f: Exchange, lines: seq<Slot>)
    requires Writes(e, lines) && f.first == e.first && f.count == e.count
    requires forall x :: x in e.answers ==> x in f.answers
    requires forall i :: 0 <= i < |lines| ==> lines[i].x in f.answers
    ensures Answered(f)
  {
    forall x | e.first <= x < e.first + e.count ensures x in f.answers {
      if x !in e.answers {
        assert Awaited(e, x) && Line(x) in lines;
        var i :| 0 <= i < |lines| && lines[i] == Line(x);
      }
    }
  }

  lemma AllAcked(e: Exchange, f: Exchange, lines: seq<Slot>)
    requires Writes(e, lines) && NoneRefused(e) && Answered(f) && f.first == e.first && f.count == e.count
    requires forall x :: x in e.answers ==> x in f.answers && f.answers[x] == e.answers[x]
    requires forall i :: 0 <= i < |lines| ==> lines[i].x in f.answers && f.answers[lines[i].x]
    ensures Acked(f)
  {
    forall x | e.first <= x < e.first + e.count ensures f.answers[x] {
      if x !in e.answers {
        assert Awaited(e, x) && Line(x) in lines;
        var i :| 0 <= i < |lines| && lines[i] == Line(x);
      }
    }
  }

  lemma AttemptRuns(s: System, o: Oracle, lines: seq<Slot>) returns (r: System, f: Exchange)
    requires Inv(s) && AnswersMatch(s.pico.cache) && Enabled(s, Send) && Understood(s) && s.forward == [] && s.back == []
    requires Writes(s.lock.value, lines) && Apply(s, Send).forward == lines && Apply(s, Send).back == []
    requires Apply(s, Send).lock == Some(s.lock.value.(attempt := s.lock.value.attempt + 1))
    ensures Follows(Next, s, r) && r.lock == Some(f) && Extends(s.lock.value.(attempt := s.lock.value.attempt + 1), f)
    ensures forall i :: 0 <= i < |lines| ==> lines[i].x in f.answers
    ensures NewToPico(s) && !o.fails ==> forall i :: 0 <= i < |lines| ==> f.answers[lines[i].x]
    ensures QuietLike(s, r) && r == Drained(Apply(s, Send), o)
  {
    var t := Apply(s, Send);
    AttemptIsServed(s);
    FollowsOne(Next, s, t);
    DrainFollows(t, o);
    r := Drained(t, o);
    FollowsOn(Next, s, t, r);
    f := DrainAnswers(t, t.lock.value, o);
    if NewToPico(s) && !o.fails {
      AttemptIsUnheard(s, lines);
      f := DrainAcks(t, t.lock.value, o);
    }
  }

  lemma AttemptEnds(s: System, o: Oracle) returns (r: System)
    requires Inv(s) && AnswersMatch(s.pico.cache) && Enabled(s, Send) && Understood(s) && s.forward == [] && s.back == []
    ensures Follows(Next, s, r) && r.lock.Some? && Answered(r.lock.value)
    ensures r.lock.value.first == s.lock.value.first && r.lock.value.count == s.lock.value.count
    ensures QuietLike(s, r) && r == Drained(Apply(s, Send), o)
    ensures NewToPico(s) && NoneRefused(s.lock.value) && !o.fails ==> Acked(r.lock.value)
  {
    var lines := AttemptWritesUnanswered(s);
    assert s.forward + lines == lines;
    var f;
    r, f := AttemptRuns(s, o, lines);
    AllAnswered(s.lock.value, f, lines);
    if NewToPico(s) && NoneRefused(s.lock.value) && !o.fails { AllAcked(s.lock.value, f, lines); }
  }

  /** A retry recovers what was lost: in every reachable state in which an attempt is still
      to be made and nothing is on its way, the attempt can go through, and then every line
      of the exchange is answered. If the Pico had not heard the lines still awaited and no
      HID call fails, they are acknowledged and the exchange ends well. */
  lemma AttemptIsAnswered(s: System, o: Oracle) returns (r: System)
    requires Reachable(s) && Enabled(s, Send) && Understood(s) && s.forward == [] && s.back == []
    ensures Follows(Next, s, r) && r.lock.Some? && Answered(r.lock.value)
    ensures r.lock.value.first == s.lock.value.first && r.lock.value.count == s.lock.value.count
    ensures QuietLike(s, r) && r == Drained(Apply(s, Send), o)
    ensures NewToPico(s) && NoneRefused(s.lock.value) && !o.fails ==> Acked(r.lock.value)
  {
    ReachableInv(s);
    ReachableAnswers(s);
    r := AttemptEnds(s, o);
  }

  // ----- A whole exchange -----

  lemma ReachesOn(s: System, r: System)
    requires Reachable(s) && Follows(Next, s, r)
    ensures Reachable(r)
  {
    FollowsOn(Next, INITIAL, s, r);
  }

  lemma KeysApart(issued: seq<Issue>, x: nat, y: nat)
    requires KeysDistinct(issued) && x < y < |issued|
    ensures issued[x].command.sid != issued[y].command.sid || issued[x].command.sequence != issued[y].command.sequence
  {
  }

  /** What the cache remembers are lines issued before. */
  ghost predicate RemembersOld(cached: seq<nat>, cache: seq<Entry>, issued: seq<Issue>) {
    && |cached| == |cache|
    && forall i :: 0 <= i < |cached| ==>
      && cached[i] < |issued|
      && cache[i].sid == issued[cached[i]].command.sid && cache[i].sequence == issued[cached[i]].command.sequence
  }

  /** Numbers just drawn are in nobody's memory. */
  lemma NewLineIsNew(cached: seq<nat>, cache: seq<Entry>, issued: seq<Issue>, all: seq<Issue>, x: nat)
    requires RemembersOld(cached, cache, issued) && issued <= all && KeysDistinct(all) && |issued| <= x < |all|
    ensures Lookup(cache, all[x].command.sid, all[x].command.sequence).None?
  {
    forall i | 0 <= i < |cache|
      ensures cache[i].sid != all[x].command.sid || cache[i].sequence != all[x].command.sequence
    {
      KeysApart(all, cached[i], x);
    }
  }

  lemma AcquiredKeys(s: System, t: Ticket)
    requires Inv(s) && Enabled(s, Acquire(t))
    ensures RemembersOld(s.cached, s.pico.cache, s.issued) && KeysDistinct(Acquired(s, t).issued)
  {
    AcquireKeepsKeys(s, t);
  }

  lemma TakenWireIsNew(s: System, t: Ticket)
    requires Inv(s) && Enabled(s, Acquire(t))
    ensures NewToPico(Acquired(s, t)) && NoneRefused(Acquired(s, t).lock.value)
  {
    AcquiredKeys(s, t);
    var a := Acquired(s, t);
    forall x: nat | x < |a.issued| && Awaited(a.lock.value, x) ensures Unheard(a, x) {
      NewLineIsNew(s.cached, s.pico.cache, s.issued, a.issued, x);
    }
  }

  /** Nothing hinders an exchange: the wire lock is free, nothing is on its way, and the
      Pico is in the gateway's session. */
  predicate Calm(s: System) { s.lock.None? && s.forward == [] && s.back == [] && s.pico.active == s.sid }

  /** The operations are the latest lines, in order. */
  ghost predicate Issues(issued: seq<Issue>, first: nat, ops: seq<Op>) {
    |issued| == first + |ops| && forall x :: first <= x < |issued| ==> issued[x].command.op == ops[x - first]
  }

  lemma TicketTakesWire(s: System, t: Ticket)
    requires Inv(s) && Enabled(s, Acquire(t)) && s.forward == [] && s.back == []
    requires s.pico.active == s.sid || t.owner.SessionOwner?
    requires t.owner.SessionOwner? || s.ready
    ensures var a := Acquired(s, t); Enabled(a, Send) && Understood(a) && a.forward == [] && a.back == []
    ensures TicketShape(t) && Issues(Acquired(s, t).issued, |s.issued|, t.ops)
  {
    assert t in s.tickets && TicketShape(t);
    assert |s.issued| !in Acquired(s, t).lock.value.answers;
  }

  lemma TicketIsServed(s: System, t: Ticket, o: Oracle) returns (r: System)
    requires Reachable(s) && Enabled(s, Acquire(t)) && s.forward == [] && s.back == [] && !o.fails
    requires s.pico.active == s.sid || t.owner.SessionOwner?
    requires t.owner.SessionOwner? || s.ready
    ensures Follows(Next, s, r) && r.lock.Some? && Acked(r.lock.value) && QuietLike(Acquired(s, t), r)
    ensures r.lock.value.first == |s.issued| && r.lock.value.count == |t.ops|
    ensures Enabled(Acquired(s, t), Send) && r == Drained(Apply(Acquired(s, t), Send), o)
    ensures |t.ops| > 0 && Issues(r.issued, |s.issued|, t.ops)
  {
    ReachableInv(s);
    TicketTakesWire(s, t);
    TakenWireIsNew(s, t);
    var a := Acquired(s, t);
    assert a == Apply(s, Acquire(t));
    FollowsOne(Next, s, a);
    ReachesOn(s, a);
    r := AttemptIsAnswered(a, o);
    FollowsOn(Next, s, a, r);
  }

  /** The operations are the latest lines, and each ran to its end, once. */
  ghost predicate RanAll(r: System, first: nat, ops: seq<Op>) {
    Issues(r.issued, first, ops) && forall x :: first <= x < |r.issued| ==> RanOnce(r, x)
  }

  lemma AckedRanAll(r: System, first: nat, ops: seq<Op>)
    requires Reachable(r) && r.lock.Some? && Acked(r.lock.value) && Plain(ops)
    requires r.lock.value.first == first && r.lock.value.count == |ops| && Issues(r.issued, first, ops)
    ensures RanAll(r, first, ops)
  {
    forall x | first <= x < |r.issued| ensures RanOnce(r, x) {
      assert !ops[x - first].Session?;
      AcknowledgedExactlyOnce(r, x);
    }
  }

  lemma LaterRanAll(q: System, r: System, first: nat, ops: seq<Op>)
    requires Reachable(q) && Follows(Next, q, r) && r.lock.Some? && Acked(r.lock.value) && Plain(ops)
    requires r.lock.value.first == first && r.lock.value.count == |ops| && Issues(r.issued, first, ops)
    ensures RanAll(r, first, ops)
  {
    ReachesOn(q, r);
    AckedRanAll(r, first, ops);
  }

  lemma SameLogOnce(a: System, r: System, x: nat)
    requires RanOnce(a, x) && r.log == a.log
    ensures RanOnce(r, x)
  {
  }

  lemma SameLog(r: System, a: System, first: nat, ops: seq<Op>)
    requires RanAll(a, first, ops) && r.log == a.log && r.issued == a.issued
    ensures RanAll(r, first, ops)
  {
    forall x | first <= x < |r.issued| ensures RanOnce(r, x) {
      SameLogOnce(a, r, x);
    }
  }

  lemma RequestWaits(s: System, ops: seq<Op>, lease: Option<Lease>, stamp: Option<nat>, owner: Owner) returns (q: System, t: Ticket)
    requires Reachable(s) && Calm(s) && Enabled(s, Request(ops, lease, stamp, owner)) && MayWrite(s, stamp)
    ensures Follows(Next, s, q) && Reachable(q) && Calm(q) && q.ready && q.issued == s.issued
    ensures Enabled(q, Acquire(t)) && t.ops == ops
  {
    t := Ticket(s.sid.value, s.sequence + 1, ops, lease, stamp, owner);
    q := Apply(s, Request(ops, lease, stamp, owner));
    FollowsOne(Next, s, q);
    ReachesOn(s, q);
  }

  lemma TicketGoesThrough(q: System, t: Ticket, o: Oracle) returns (a: System)
    requires Reachable(q) && Calm(q) && q.ready && Enabled(q, Acquire(t)) && !o.fails
    ensures Follows(Next, q, a) && a.lock.Some? && Acked(a.lock.value) && |t.ops| > 0
    ensures a.lock.value.first == |q.issued| && a.lock.value.count == |t.ops| && Issues(a.issued, |q.issued|, t.ops)
    ensures a.forward == [] && a.back == [] && a.pico.active == a.sid && a.ready
  {
    a := TicketIsServed(q, t, o);
  }

  lemma TicketRuns(q: System, t: Ticket, o: Oracle) returns (a: System)
    requires Reachable(q) && Calm(q) && q.ready && Enabled(q, Acquire(t)) && Plain(t.ops) && !o.fails
    ensures Follows(Next, q, a) && a.lock.Some? && Acked(a.lock.value) && RanAll(a, |q.issued|, t.ops)
    ensures a.forward == [] && a.back == [] && a.pico.active == a.sid && a.ready && a.lock.value.first < |a.issued|
  {
    a := TicketGoesThrough(q, t, o);
    LaterRanAll(q, a, |q.issued|, t.ops);
  }

  /** An open session carries commands: from every reachable calm state, any exchange that
      may be requested can be queued, written, executed and acknowledged, each of its
      operations in its place, to the end and once, and the state is calm again. */
  lemma CommandCanRun(s: System, ops: seq<Op>, lease: Option<Lease>, stamp: Option<nat>, owner: Owner, o: Oracle) returns (r: System)
    requires Reachable(s) && Calm(s) && Enabled(s, Request(ops, lease, stamp, owner)) && MayWrite(s, stamp) && !o.fails
    ensures Follows(Next, s, r) && Calm(r) && r.ready && RanAll(r, |s.issued|, ops)
  {
    var q, t := RequestWaits(s, ops, lease, stamp, owner);
    var a := TicketRuns(q, t, o);
    r := Apply(a, Finish(false));
    SameLog(r, a, |s.issued|, ops);
    FollowsOne(Next, a, r);
    FollowsOn(Next, s, q, a);
    FollowsOn(Next, s, a, r);
  }

  lemma SessionLineIsHandled(p: State, c: Command, o: Oracle)
    requires c.op.Session? && Lookup(p.cache, c.sid, c.sequence).None?
    ensures var q := Handle(p, c, o).0; q.active == Some(c.sid) && NothingHeld(q) && q.watchdogMs == c.op.watchdogMs
  {
  }

  lemma SessionLineGoesThrough(s: System, o: Oracle, x: nat)
    requires s.forward == [Line(x)] && x < |s.issued| && s.issued[x].command.op.Session? && Unheard(s, x)
    ensures var r := Drained(s, o);
      r.pico.active == Some(s.issued[x].command.sid) && NothingHeld(r.pico) && r.pico.watchdogMs == s.issued[x].command.op.watchdogMs
  {
    SessionLineIsHandled(s.pico, s.issued[x].command, o);
    var t := Trip(s, o);
    assert t.forward == [];
    assert Drained(t, o) == t;
  }

  lemma SessionWaits(s: System, watchdogMs: int) returns (q: System)
    requires Reachable(s) && s.sid.None? && s.lock.None?
    ensures Follows(Next, s, q) && Reachable(q) && q == Opened(s, watchdogMs)
    ensures Enabled(q, Acquire(Greeting(s.nextSid, watchdogMs)))
  {
    q := Apply(s, OpenSession(watchdogMs));
    FollowsOne(Next, s, q);
    ReachesOn(s, q);
  }

  lemma {:induction false} AscendsBy(lines: seq<Slot>)
    requires Ascends(lines) && lines != []
    ensures lines[0].x + |lines| - 1 <= lines[|lines| - 1].x
  {
    if |lines| > 1 { AscendsBy(lines[..|lines| - 1]); }
  }

  lemma OneLine(e: Exchange, lines: seq<Slot>)
    requires Writes(e, lines) && e.count == 1 && e.answers == map[]
    ensures lines == [Line(e.first)]
  {
    assert Awaited(e, e.first) && Line(e.first) in lines;
    forall i | 0 <= i < |lines| ensures lines[i] == Line(e.first) { assert Awaited(e, lines[i].x); }
    AscendsBy(lines);
  }

  lemma GreetingIsWritten(q: System, t: Ticket, watchdogMs: int)
    requires Inv(q) && Enabled(q, Acquire(t)) && q.forward == [] && t == Greeting(q.nextSid - 1, watchdogMs) && q.nextSid > 0
    requires Enabled(Acquired(q, t), Send)
    ensures var a := Acquired(q, t); var x := |q.issued|;
      Apply(a, Send).forward == [Line(x)] && Apply(a, Send).issued == a.issued && |a.issued| == x + 1
      && a.issued[x].command == Command(t.sid, 0, Session(watchdogMs)) && a.issued[x].owner.SessionOwner?
      && Apply(a, Send).pico == q.pico && Unheard(a, x) && a.sid == q.sid
  {
    TakenWireIsNew(q, t);
    var a := Acquired(q, t);
    var lines := AttemptWritesUnanswered(a);
    var x := |q.issued|;
    OneLine(a.lock.value, lines);
    assert a.forward + lines == lines;
  }

  /** A session can be opened: from every reachable state without one, with a free lock and
      nothing on its way, the session line goes through, and the gateway is ready on a Pico
      that is in the new session, holds nothing and has the watchdog asked for. */
  lemma SessionCanOpen(s: System, watchdogMs: int, o: Oracle) returns (r: System)
    requires Reachable(s) && s.sid.None? && s.lock.None? && s.forward == [] && s.back == [] && !o.fails
    ensures Follows(Next, s, r) && Calm(r) && r.ready && r.sid == Some(s.nextSid)
    ensures NothingHeld(r.pico) && r.pico.watchdogMs == watchdogMs
  {
    var q := SessionWaits(s, watchdogMs);
    var t := Greeting(s.nextSid, watchdogMs);
    var a := TicketIsServed(q, t, o);
    ReachableInv(q);
    GreetingIsWritten(q, t, watchdogMs);
    SessionLineGoesThrough(Apply(Acquired(q, t), Send), o, |q.issued|);
    r := Apply(a, Finish(true));
    FollowsOne(Next, a, r);
    FollowsOn(Next, s, q, a);
    FollowsOn(Next, s, a, r);
  }

  // ----- Older stamps -----

  lemma GenerationGrows(s: System, r: System)
    requires Follows(Next, s, r)
    ensures s.generation <= r.generation
  {
    var least := s.generation;
    forall m: System, t: System | least <= m.generation && Next(m, t) ensures least <= t.generation {
      var step :| Enabled(m, step) && t == Apply(m, step);
    }
    FollowsKeeps(Next, (t: System) => least <= t.generation, s, r);
  }

  /** A fault, the end of a session and an emergency release each make every older stamp
      invalid for good: in no later state does an exchange stamped before take the wire, and
      the session is not ready until another line opens one. */
  lemma OlderStampsDie(s: System, step: Step, r: System, t: Ticket)
    requires Enabled(s, step) && (step.Fault? || step.Teardown? || step.Bump?) && Follows(Next, Apply(s, step), r)
    requires t.stamp.Some? && t.stamp.value <= s.generation
    ensures !Enabled(r, Acquire(t))
    ensures step.Fault? || step.Teardown? ==> !Apply(s, step).ready
    ensures step.Teardown? ==> Apply(s, step).sid.None?
  {
    GenerationGrows(Apply(s, step), r);
  }
}
