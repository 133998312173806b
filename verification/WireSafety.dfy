/** What every step of the serial session keeps, and what follows: no operation
    runs twice, an acknowledged one ran exactly once, sessions never mix, and an
    acknowledged release leaves nothing held and nothing foreign on its way. */
module WireSafety {
  import opened Options
  import opened Pico
  import opened Wire

  // ----- Invariant -----

  /** Exchanges follow one another in `issued`; a session line is an exchange of its own
      and the first line of its session. */
  ghost predicate IssuedOk(issued: seq<Issue>, turns: nat, nextSid: Sid) {
    && (forall x :: 0 <= x < |issued| ==>
          && issued[x].turn < turns && issued[x].command.sid < nextSid
          && (issued[x].command.op.Session? <==> issued[x].command.sequence == 0))
    && (forall x, y :: 0 <= x < y < |issued| ==>
          && issued[x].turn <= issued[y].turn
          && issued[x].command.sid <= issued[y].command.sid
          && (issued[x].turn == issued[y].turn ==>
                && y - x < BATCH_LIMIT && issued[x].command.sid == issued[y].command.sid
                && issued[x].owner == issued[y].owner)
          && (issued[x].command.op.Session? ==> issued[x].turn < issued[y].turn)
          && (issued[y].command.op.Session? ==>
                issued[x].turn < issued[y].turn && issued[x].command.sid < issued[y].command.sid))
  }

  /** No two lines share session and number. */
  ghost predicate KeysDistinct(issued: seq<Issue>) {
    forall x, y :: 0 <= x < y < |issued| && issued[x].command.sid == issued[y].command.sid ==>
      issued[x].command.sequence != issued[y].command.sequence
  }

  ghost predicate SessionOk(sid: Option<Sid>, nextSid: Sid, greeted: bool, sequence: nat, ready: bool) {
    && (sid.Some? ==> sid.value + 1 == nextSid && (!greeted ==> sequence == 0))
    && (ready ==> sid.Some? && greeted)
    && sequence <= MAX_SEQUENCE
  }

  ghost predicate CurrentOk(issued: seq<Issue>, sid: Option<Sid>, greeted: bool, sequence: nat) {
    forall x :: 0 <= x < |issued| && sid == Some(issued[x].command.sid) ==>
      greeted && issued[x].command.sequence <= sequence
  }

  ghost predicate TicketShape(t: Ticket) {
    && 1 <= |t.ops| <= BATCH_LIMIT
    && (if t.owner.SessionOwner? then t.first == 0 && |t.ops| == 1 && t.ops[0].Session?
        else 1 <= t.first && Plain(t.ops))
  }

  ghost predicate Apart(t: Ticket, first: nat, count: nat) {
    t.first + |t.ops| <= first || first + count <= t.first
  }

  ghost predicate TicketsOk(tickets: set<Ticket>, issued: seq<Issue>, sid: Option<Sid>, nextSid: Sid,
                      greeted: bool, sequence: nat)
  {
    && (forall t :: t in tickets ==> TicketShape(t) && t.sid < nextSid)
    && (forall t :: t in tickets && sid == Some(t.sid) ==>
          t.first + |t.ops| <= sequence + 1 && (t.owner.SessionOwner? <==> !greeted))
    && (forall t, x :: t in tickets && sid == Some(t.sid) && 0 <= x < |issued| && issued[x].command.sid == t.sid ==>
          Apart(t, issued[x].command.sequence, 1))
    && (forall t, u :: t in tickets && u in tickets && t != u && sid == Some(t.sid) && sid == Some(u.sid) ==>
          Apart(t, u.first, |u.ops|))
  }

  /** The lock holder's lines are the latest ones, with consecutive numbers. */
  ghost predicate LockOk(lock: Option<Exchange>, issued: seq<Issue>, turns: nat) {
    lock.Some? ==>
      var e := lock.value;
      && 1 <= e.count <= BATCH_LIMIT && e.first + e.count == |issued|
      && (forall x :: 0 <= x < |issued| ==> (e.first <= x <==> issued[x].turn + 1 == turns))
      && (forall x :: e.first <= x < |issued| ==>
            && issued[x].command.sid == issued[e.first].command.sid
            && issued[x].command.sequence == issued[e.first].command.sequence + (x - e.first))
      && (forall x :: x in e.answers ==> e.first <= x < |issued|)
  }

  /** The UART towards the Pico carries issued lines in the order of their exchanges. */
  ghost predicate ForwardOk(forward: seq<Slot>, issued: seq<Issue>) {
    && (forall i :: 0 <= i < |forward| && forward[i].Line? ==> forward[i].x < |issued|)
    && (forall i, j :: 0 <= i < j < |forward| && forward[i].Line? && forward[j].Line? ==>
          issued[forward[i].x].turn <= issued[forward[j].x].turn)
  }

  /** Whatever is on its way belongs to the exchange last answered or to a later one. */
  ghost predicate SeenOk(seen: set<nat>, forward: seq<Slot>, issued: seq<Issue>) {
    && (forall x :: x in seen ==> x < |issued|)
    && (forall x, y: nat :: x in seen && Line(y) in forward && y < |issued| ==> issued[x].turn <= issued[y].turn)
  }

  function AckOf(c: Command): Response { Ack(c.sid, c.sequence) }

  /** Each cache entry answers for the line in the same place of `cached`; the places
      are in exchange order. */
  ghost predicate CacheLines(cached: seq<nat>, cache: seq<Entry>, seen: set<nat>, issued: seq<Issue>) {
    && |cached| == |cache|
    && (forall i :: 0 <= i < |cached| ==> cached[i] in seen && cached[i] < |issued|)
    && (forall i :: 0 <= i < |cached| ==>
          && cache[i].sid == issued[cached[i]].command.sid
          && cache[i].sequence == issued[cached[i]].command.sequence
          && (cache[i].response.Ack? ==> cache[i].response == AckOf(issued[cached[i]].command)))
    && (forall i, j :: 0 <= i < j < |cached| ==>
          cached[i] != cached[j] && issued[cached[i]].turn <= issued[cached[j]].turn)
  }

  ghost predicate CacheOk(cached: seq<nat>, cache: seq<Entry>, seen: set<nat>, issued: seq<Issue>) {
    CacheLines(cached, cache, seen, issued) && |cache| <= RESPONSE_CACHE_SIZE
  }

  /** The Pico may still receive this line: it is in the queue or may be written again. */
  ghost predicate Live(x: nat, forward: seq<Slot>, lock: Option<Exchange>) {
    || Line(x) in forward
    || (lock.Some? && lock.value.attempt < 2 && x !in lock.value.answers
        && lock.value.first <= x < lock.value.first + lock.value.count)
  }

  /** A line that was answered and may come again is still in the cache, or its
      session is gone for good; a session line can only be new to a restarted Pico. */
  ghost predicate Covered(x: nat, c: Command, cached: seq<nat>, pico: State) {
    || x in cached
    || (if c.op.Session? then pico.active.None? && pico.cache == [] && NothingHeld(pico)
        else pico.active != Some(c.sid))
  }

  ghost predicate CoverOk(s: System) {
    forall x :: x in s.seen && x < |s.issued| && Live(x, s.forward, s.lock) ==>
      Covered(x, s.issued[x].command, s.cached, s.pico)
  }

  ghost predicate LogOk(log: seq<Event>, seen: set<nat>, issued: seq<Issue>) {
    && (forall i :: 0 <= i < |log| ==> log[i].x in seen && log[i].x < |issued|)
    && (forall i, j :: 0 <= i < j < |log| ==>
          && issued[log[i].x].turn <= issued[log[j].x].turn
          && (log[i].x == log[j].x ==> issued[log[i].x].command.op.Session?))
  }

  ghost predicate Ran(log: seq<Event>, x: nat) {
    exists i :: 0 <= i < |log| && log[i].x == x && log[i].done
  }

  ghost predicate Earned(r: Response, log: seq<Event>, issued: seq<Issue>) {
    exists x :: 0 <= x < |issued| && AckOf(issued[x].command) == r && Ran(log, x)
  }

  /** Every acknowledgement on its way back was earned by running its line. */
  ghost predicate BackOk(back: seq<Response>, log: seq<Event>, issued: seq<Issue>) {
    forall r :: r in back && r.Ack? ==> Earned(r, log, issued)
  }

  ghost predicate CachedAcksOk(cached: seq<nat>, cache: seq<Entry>, log: seq<Event>, issued: seq<Issue>) {
    forall i | 0 <= i < |cached| && i < |cache| && cached[i] < |issued| ::
      cache[i].response == AckOf(issued[cached[i]].command) ==> Ran(log, cached[i])
  }

  ghost predicate AnswersOk(lock: Option<Exchange>, log: seq<Event>) {
    lock.Some? ==> forall x :: x in lock.value.answers && lock.value.answers[x] ==> Ran(log, x)
  }

  /** `x` is a release, alone in its exchange, and the last line given to the wire. */
  ghost predicate LastRelease(x: nat, issued: seq<Issue>, turns: nat) {
    && x + 1 == |issued| && issued[x].command.op.ReleaseAll? && issued[x].turn + 1 == turns
    && (x > 0 ==> issued[x - 1].turn < issued[x].turn)
  }

  ghost predicate ReleaseOk(issued: seq<Issue>, turns: nat, log: seq<Event>, pico: State) {
    forall x: nat :: LastRelease(x, issued, turns) && Ran(log, x) ==> NothingHeld(pico)
  }

  ghost predicate Inv(s: System) {
    && IssuedOk(s.issued, s.turns, s.nextSid)
    && KeysDistinct(s.issued)
    && SessionOk(s.sid, s.nextSid, s.greeted, s.sequence, s.ready)
    && CurrentOk(s.issued, s.sid, s.greeted, s.sequence)
    && TicketsOk(s.tickets, s.issued, s.sid, s.nextSid, s.greeted, s.sequence)
    && LockOk(s.lock, s.issued, s.turns)
    && ForwardOk(s.forward, s.issued)
    && SeenOk(s.seen, s.forward, s.issued)
    && CacheOk(s.cached, s.pico.cache, s.seen, s.issued)
    && CoverOk(s)
    && LogOk(s.log, s.seen, s.issued)
    && BackOk(s.back, s.log, s.issued)
    && CachedAcksOk(s.cached, s.pico.cache, s.log, s.issued)
    && AnswersOk(s.lock, s.log)
    && Valid(s.pico)
    && ReleaseOk(s.issued, s.turns, s.log, s.pico)
  }

  /** Nothing has been opened, issued, queued, answered or executed. */
  ghost predicate Blank(s: System) {
    && s.sid.None? && !s.ready && s.sequence == 0 && s.lock.None?
    && (forall t :: t !in s.tickets) && (forall x :: x !in s.seen)
    && |s.issued| == 0 && |s.forward| == 0 && |s.back| == 0
    && |s.cached| == 0 && |s.pico.cache| == 0 && |s.log| == 0
    && Valid(s.pico)
  }

  lemma BlankInv(s: System)
    requires Blank(s)
    ensures Inv(s)
  {
  }

  lemma InitialInv()
    ensures Inv(INITIAL)
  {
    assert Blank(INITIAL);
    BlankInv(INITIAL);
  }

  // ----- The gateway opens sessions and draws numbers -----

  lemma OpenSessionKeeps(s: System, watchdogMs: int)
    requires Inv(s) && s.sid.None?
    ensures Inv(Opened(s, watchdogMs))
  {
  }

  lemma RequestKeeps(s: System, ops: seq<Op>, lease: Option<Lease>, stamp: Option<nat>, owner: Owner)
    requires Inv(s) && Enabled(s, Request(ops, lease, stamp, owner))
    ensures Inv(Requested(s, ops, lease, stamp, owner))
  {
  }

  lemma RefuseKeeps(s: System, t: Ticket)
    requires Inv(s)
    ensures Inv(s.(tickets := s.tickets - {t}))
  {
  }

  // ----- The wire lock -----

  lemma AcquireKeepsOrder(s: System, t: Ticket)
    requires Inv(s) && Enabled(s, Acquire(t))
    ensures IssuedOk(Acquired(s, t).issued, s.turns + 1, s.nextSid)
  {
    var r := s.issued + Entries(t, s.turns);
    assert TicketShape(t);
    assert forall x :: |s.issued| <= x < |r| ==> r[x] == Entries(t, s.turns)[x - |s.issued|];
  }

  lemma AcquireKeepsDistinct(s: System, t: Ticket)
    requires Inv(s) && Enabled(s, Acquire(t))
    ensures KeysDistinct(Acquired(s, t).issued)
  {
    var r := s.issued + Entries(t, s.turns);
    assert TicketShape(t);
    assert forall x :: |s.issued| <= x < |r| ==> r[x] == Entries(t, s.turns)[x - |s.issued|];
  }

  lemma AcquireKeepsTickets(s: System, t: Ticket)
    requires Inv(s) && Enabled(s, Acquire(t))
    ensures TicketsOk(s.tickets - {t}, Acquired(s, t).issued, s.sid, s.nextSid, s.greeted || t.owner.SessionOwner?, s.sequence)
  {
    var r := s.issued + Entries(t, s.turns);
    assert TicketShape(t);
    assert forall x :: |s.issued| <= x < |r| ==> r[x] == Entries(t, s.turns)[x - |s.issued|];
  }

  lemma AcquireKeepsKeys(s: System, t: Ticket)
    requires Inv(s) && Enabled(s, Acquire(t))
    ensures KeysDistinct(Acquired(s, t).issued)
    ensures CurrentOk(Acquired(s, t).issued, s.sid, s.greeted || t.owner.SessionOwner?, s.sequence)
    ensures TicketsOk(s.tickets - {t}, Acquired(s, t).issued, s.sid, s.nextSid, s.greeted || t.owner.SessionOwner?, s.sequence)
  {
    AcquireKeepsDistinct(s, t);
    AcquireKeepsTickets(s, t);
    var r := s.issued + Entries(t, s.turns);
    assert forall x :: |s.issued| <= x < |r| ==> r[x] == Entries(t, s.turns)[x - |s.issued|];
  }

  lemma AcquireKeepsOld(s: System, t: Ticket)
    requires Inv(s) && Enabled(s, Acquire(t))
    ensures var r := Acquired(s, t);
      && ForwardOk(r.forward, r.issued) && SeenOk(r.seen, r.forward, r.issued)
      && CacheOk(r.cached, r.pico.cache, r.seen, r.issued) && LogOk(r.log, r.seen, r.issued)
  {
    var r := s.issued + Entries(t, s.turns);
    assert forall x :: 0 <= x < |s.issued| ==> r[x] == s.issued[x];
  }

  lemma AcquireKeepsLock(s: System, t: Ticket)
    requires Inv(s) && Enabled(s, Acquire(t))
    ensures LockOk(Acquired(s, t).lock, Acquired(s, t).issued, s.turns + 1)
  {
    assert TicketShape(t);
  }

  lemma AcquireKeepsCover(s: System, t: Ticket)
    requires Inv(s) && Enabled(s, Acquire(t))
    ensures CoverOk(Acquired(s, t))
  {
    var r := Acquired(s, t);
    forall x | x in r.seen && x < |r.issued| && Live(x, r.forward, r.lock)
      ensures Covered(x, r.issued[x].command, r.cached, r.pico)
    {
      assert x < |s.issued| && Live(x, s.forward, s.lock);
    }
  }

  lemma NothingNewRan(s: System, x: nat)
    requires LogOk(s.log, s.seen, s.issued) && |s.issued| <= x
    ensures !Ran(s.log, x)
  {
  }

  lemma EarnedGrows(back: seq<Response>, log: seq<Event>, issued: seq<Issue>, more: seq<Issue>)
    requires BackOk(back, log, issued)
    ensures BackOk(back, log, issued + more)
  {
    forall r | r in back && r.Ack? ensures Earned(r, log, issued + more) {
      var x :| 0 <= x < |issued| && AckOf(issued[x].command) == r && Ran(log, x);
      assert (issued + more)[x] == issued[x];
    }
  }

  lemma AcquireKeepsAcks(s: System, t: Ticket)
    requires Inv(s) && Enabled(s, Acquire(t))
    ensures var r := Acquired(s, t);
      && BackOk(r.back, r.log, r.issued) && CachedAcksOk(r.cached, r.pico.cache, r.log, r.issued)
      && ReleaseOk(r.issued, r.turns, r.log, r.pico)
  {
    var r := Acquired(s, t);
    forall x: nat | LastRelease(x, r.issued, r.turns) ensures !Ran(r.log, x) { NothingNewRan(s, x); }
    EarnedGrows(s.back, s.log, s.issued, Entries(t, s.turns));
  }

  lemma AcquireKeeps(s: System, t: Ticket)
    requires Inv(s) && Enabled(s, Acquire(t))
    ensures Inv(Acquired(s, t))
  {
    AcquireKeepsOrder(s, t);
    AcquireKeepsKeys(s, t);
    AcquireKeepsOld(s, t);
    AcquireKeepsLock(s, t);
    AcquireKeepsCover(s, t);
    AcquireKeepsAcks(s, t);
  }

  /** Appending lines of the latest exchange keeps the queue in exchange order. */
  lemma AppendLatest(forward: seq<Slot>, lines: seq<Slot>, seen: set<nat>, issued: seq<Issue>, turns: nat)
    requires ForwardOk(forward, issued) && SeenOk(seen, forward, issued)
    requires forall x :: 0 <= x < |issued| ==> issued[x].turn < turns
    requires forall i :: 0 <= i < |lines| ==>
      lines[i].Line? && lines[i].x < |issued| && issued[lines[i].x].turn + 1 == turns
    ensures ForwardOk(forward + lines, issued)
    ensures SeenOk(seen, forward + lines, issued)
  {
    var r := forward + lines;
    assert forall i :: |forward| <= i < |r| ==> r[i] == lines[i - |forward|];
  }

  lemma SendKeepsCover(s: System)
    requires Inv(s) && Enabled(s, Send)
    ensures CoverOk(Sent(s))
  {
    var r := Sent(s);
    forall x | x in r.seen && x < |r.issued| && Live(x, r.forward, r.lock)
      ensures Covered(x, r.issued[x].command, r.cached, r.pico)
    {
      assert Live(x, s.forward, s.lock);
    }
  }

  lemma SendKeeps(s: System)
    requires Inv(s) && Enabled(s, Send)
    ensures Inv(Sent(s))
  {
    AppendLatest(s.forward, Unanswered(s.lock.value, s.lock.value.first), s.seen, s.issued, s.turns);
    SendKeepsCover(s);
  }

  // ----- Answers -----

  lemma DistinctKeys(issued: seq<Issue>, x: nat, y: nat)
    requires KeysDistinct(issued) && x < |issued| && y < |issued|
    requires issued[x].command.sid == issued[y].command.sid
    requires issued[x].command.sequence == issued[y].command.sequence
    ensures x == y
  {
  }

  /** The future an acknowledgement resolves is the one of the line that earned it. */
  lemma RecordedEarned(s: System, e: Exchange, response: Response)
    requires KeysDistinct(s.issued) && s.lock == Some(e) && LockOk(s.lock, s.issued, s.turns)
    requires response.Ack? ==> Earned(response, s.log, s.issued)
    requires AnswersOk(s.lock, s.log)
    ensures AnswersOk(Some(Recorded(s, e, response)), s.log)
  {
    var head := s.issued[e.first].command;
    if response.Ack? && Recorded(s, e, response) != e {
      var x := e.first + (response.sequence - head.sequence);
      var y :| 0 <= y < |s.issued| && AckOf(s.issued[y].command) == response && Ran(s.log, y);
      assert s.issued[x].command.sequence == response.sequence;
      DistinctKeys(s.issued, x, y);
    }
  }

  lemma RecordedFits(s: System, e: Exchange, response: Response)
    requires s.lock == Some(e) && LockOk(s.lock, s.issued, s.turns)
    ensures var r := Recorded(s, e, response);
      && LockOk(Some(r), s.issued, s.turns)
      && r == e.(answers := r.answers) && e.answers.Keys <= r.answers.Keys
  {
  }

  lemma DeliverKeepsCover(s: System)
    requires CoverOk(s) && s.back != [] && LockOk(s.lock, s.issued, s.turns)
    ensures CoverOk(Delivered(s))
  {
    var r := Delivered(s);
    if s.lock.Some? { RecordedFits(s, s.lock.value, s.back[0]); }
    forall x | x in r.seen && x < |r.issued| && Live(x, r.forward, r.lock)
      ensures Covered(x, r.issued[x].command, r.cached, r.pico)
    {
      assert Live(x, s.forward, s.lock);
    }
  }

  lemma DeliverKeeps(s: System)
    requires Inv(s) && s.back != []
    ensures Inv(Delivered(s))
  {
    DeliverKeepsCover(s);
    if s.lock.Some? {
      assert s.back[0] in s.back;
      RecordedEarned(s, s.lock.value, s.back[0]);
      RecordedFits(s, s.lock.value, s.back[0]);
    }
    assert forall a :: a in s.back[1..] ==> a in s.back;
  }

  /** Steps that only drop the lock, change readiness or end the session. */
  lemma EndingKeeps(s: System, r: System)
    requires Inv(s)
    requires r == s.(lock := r.lock, ready := r.ready, generation := r.generation, sid := r.sid)
    requires r.lock == s.lock || r.lock.None?
    requires r.sid == s.sid || r.sid.None?
    requires r.ready ==> r.sid.Some? && (s.ready || s.greeted)
    ensures Inv(r)
  {
    forall x | x in r.seen && x < |r.issued| && Live(x, r.forward, r.lock)
      ensures Covered(x, r.issued[x].command, r.cached, r.pico)
    {
      assert Live(x, s.forward, s.lock);
    }
  }

  // ----- The channel -----

  lemma ShorterQueueKeeps(s: System, r: System)
    requires Inv(s) && r == s.(forward := r.forward)
    requires ForwardOk(r.forward, s.issued)
    requires forall x: nat :: Line(x) in r.forward ==> Line(x) in s.forward
    ensures Inv(r)
  {
    forall x | x in r.seen && x < |r.issued| && Live(x, r.forward, r.lock)
      ensures Covered(x, r.issued[x].command, r.cached, r.pico)
    {
      assert Live(x, s.forward, s.lock);
    }
  }

  lemma LoseKeepsOrder(forward: seq<Slot>, i: nat, issued: seq<Issue>)
    requires ForwardOk(forward, issued) && i < |forward|
    ensures ForwardOk(forward[..i] + forward[i + 1..], issued)
    ensures forall x: nat :: Line(x) in forward[..i] + forward[i + 1..] ==> Line(x) in forward
  {
    var lost := forward[..i] + forward[i + 1..];
    assert forall k :: 0 <= k < |lost| ==> lost[k] == forward[if k < i then k else k + 1];
  }

  lemma LoseKeeps(s: System, i: nat)
    requires Inv(s) && i < |s.forward|
    ensures Inv(Apply(s, Lose(i)))
  {
    LoseKeepsOrder(s.forward, i, s.issued);
    ShorterQueueKeeps(s, s.(forward := s.forward[..i] + s.forward[i + 1..]));
  }

  lemma MangleKeepsOrder(forward: seq<Slot>, i: nat, issued: seq<Issue>)
    requires ForwardOk(forward, issued) && i < |forward|
    ensures ForwardOk(forward[i := Noise], issued)
  {
  }

  lemma MangleKeeps(s: System, i: nat)
    requires Inv(s) && i < |s.forward|
    ensures Inv(Apply(s, Mangle(i)))
  {
    MangleKeepsOrder(s.forward, i, s.issued);
    ShorterQueueKeeps(s, s.(forward := s.forward[i := Noise]));
  }

  lemma LoseBackKeeps(s: System, i: nat)
    requires Inv(s) && i < |s.back|
    ensures Inv(Apply(s, LoseBack(i)))
  {
    assert forall a :: a in s.back[..i] + s.back[i + 1..] ==> a in s.back;
  }

  // ----- The Pico takes a line -----

  /** The head of the queue is a line the Pico answers anew. */
  ghost predicate TakesNew(s: System, r: System, x: nat, response: Response, execution: Execution)
  {
    && s.forward != [] && s.forward[0] == Line(x) && x < |s.issued|
    && x !in s.cached
    && r == s.(forward := s.forward[1..], back := s.back + [response], pico := r.pico, seen := s.seen + {x},
               cached := r.cached, log := r.log)
    && (var c := s.issued[x].command;
        && (response == AckOf(c) || (response.Nack? && response.sid == c.sid && response.sequence == c.sequence))
        && (response.Ack? <==> execution.Executed? && execution.done)
        && r.log == (if execution.Executed? then s.log + [Event(x, execution.done, execution.typed)] else s.log)
        && Valid(r.pico)
        && (if c.op.Session?
            then r.cached == [x] && r.pico.cache == [Entry(c.sid, c.sequence, response)]
            else r.cached == Remembered(s.cached, x)
                 && r.pico.cache == Remember(s.pico.cache, Entry(c.sid, c.sequence, response))
                 && (execution.Executed? ==> s.pico.active == Some(c.sid))
                 && (r.pico.active == s.pico.active || r.pico.active.None?))
        && (c.op.ReleaseAll? && (execution.Executed? || NothingHeld(s.pico)) ==> NothingHeld(r.pico)))
  }

  lemma LookupFinds(s: System, x: nat)
    requires CacheOk(s.cached, s.pico.cache, s.seen, s.issued) && x < |s.issued| && x in s.cached
    ensures Lookup(s.pico.cache, s.issued[x].command.sid, s.issued[x].command.sequence).Some?
  {
  }

  lemma TakenLineIsNew(s: System, x: nat, o: Oracle)
    requires CacheOk(s.cached, s.pico.cache, s.seen, s.issued) && Valid(s.pico)
    requires s.forward != [] && s.forward[0] == Line(x) && x < |s.issued|
    requires Lookup(s.pico.cache, s.issued[x].command.sid, s.issued[x].command.sequence).None?
    ensures var h := Handle(s.pico, s.issued[x].command, o);
      TakesNew(s, TakenLine(s, x, o), x, h.1, h.2)
  {
    if x in s.cached { LookupFinds(s, x); }
    AnsweredAnew(s.pico, s.issued[x].command, o);
  }

  lemma {:induction false} Crowd(xs: seq<int>, low: int, n: nat)
    requires forall i, j :: 0 <= i < j < |xs| ==> xs[i] != xs[j]
    requires forall i :: 0 <= i < |xs| ==> low <= xs[i] < low + n
    ensures |xs| <= n
  {
    if xs != [] {
      assert low <= xs[0] < low + n;
      var top := low + n - 1;
      if k :| 0 <= k < |xs| && xs[k] == top {
        var rest := xs[..k] + xs[k + 1..];
        assert forall i :: 0 <= i < |rest| ==> rest[i] == xs[if i < k then i else i + 1];
        Crowd(rest, low, n - 1);
      } else {
        Crowd(xs, low, n - 1);
      }
    }
  }

  /** An answered line that may come again shares its exchange with the head of the queue. */
  lemma LiveSharesTurn(s: System, x: nat, y: nat)
    requires IssuedOk(s.issued, s.turns, s.nextSid) && LockOk(s.lock, s.issued, s.turns)
    requires ForwardOk(s.forward, s.issued) && SeenOk(s.seen, s.forward, s.issued)
    requires s.forward != [] && s.forward[0] == Line(x) && y in s.seen && Live(y, s.forward, s.lock)
    ensures x < |s.issued| && y < |s.issued| && s.issued[y].turn == s.issued[x].turn
    ensures s.issued[x].command.op.Session? || s.issued[y].command.op.Session? ==> x == y
  {
    assert Line(x) in s.forward;
  }

  /** A full cache never drops a line of the exchange being answered: an exchange has
      at most eight lines, the cache sixteen entries. */
  lemma OldestIsPast(s: System, x: nat)
    requires IssuedOk(s.issued, s.turns, s.nextSid) && SeenOk(s.seen, s.forward, s.issued)
    requires CacheOk(s.cached, s.pico.cache, s.seen, s.issued) && |s.cached| == RESPONSE_CACHE_SIZE
    requires s.forward != [] && s.forward[0] == Line(x) && x < |s.issued|
    ensures s.issued[s.cached[0]].turn < s.issued[x].turn
  {
    assert Line(x) in s.forward;
    var y := s.cached[0];
    if s.issued[y].turn == s.issued[x].turn {
      forall i | 0 <= i < |s.cached| ensures y - BATCH_LIMIT < s.cached[i] < y + BATCH_LIMIT {
        assert s.issued[s.cached[i]].turn == s.issued[y].turn;
      }
      Crowd(s.cached, y - BATCH_LIMIT + 1, 2 * BATCH_LIMIT - 1);
    }
  }

  lemma NewKeepsCover(s: System, r: System, x: nat, response: Response, execution: Execution)
    requires IssuedOk(s.issued, s.turns, s.nextSid) && LockOk(s.lock, s.issued, s.turns) && CoverOk(s)
    requires ForwardOk(s.forward, s.issued) && SeenOk(s.seen, s.forward, s.issued)
    requires CacheOk(s.cached, s.pico.cache, s.seen, s.issued)
    requires TakesNew(s, r, x, response, execution)
    ensures CoverOk(r)
  {
    if |s.cached| == RESPONSE_CACHE_SIZE { OldestIsPast(s, x); }
    forall y | y in r.seen && y < |r.issued| && Live(y, r.forward, r.lock)
      ensures Covered(y, r.issued[y].command, r.cached, r.pico)
    {
      if y != x {
        assert Live(y, s.forward, s.lock);
        LiveSharesTurn(s, x, y);
        assert Covered(y, s.issued[y].command, s.cached, s.pico);
        if i :| 0 <= i < |s.cached| && s.cached[i] == y {
          assert r.cached[if |r.cached| == |s.cached| + 1 then i else i - 1] == y;
        }
      } else {
        assert r.cached[|r.cached| - 1] == x;
      }
    }
  }

  lemma NewKeepsLog(s: System, r: System, x: nat, response: Response, execution: Execution)
    requires LogOk(s.log, s.seen, s.issued) && SeenOk(s.seen, s.forward, s.issued) && CoverOk(s)
    requires TakesNew(s, r, x, response, execution)
    ensures LogOk(r.log, r.seen, r.issued)
  {
    assert Line(x) in s.forward;
    if x in s.seen {
      assert Live(x, s.forward, s.lock);
      assert Covered(x, s.issued[x].command, s.cached, s.pico);
    }
  }

  lemma NewKeepsSeen(s: System, r: System, x: nat, response: Response, execution: Execution)
    requires ForwardOk(s.forward, s.issued) && SeenOk(s.seen, s.forward, s.issued)
    requires TakesNew(s, r, x, response, execution)
    ensures ForwardOk(r.forward, r.issued) && SeenOk(r.seen, r.forward, r.issued)
  {
    assert forall i :: 0 <= i < |r.forward| ==> r.forward[i] == s.forward[i + 1];
  }

  lemma CacheAppends(cached: seq<nat>, cache: seq<Entry>, seen: set<nat>, issued: seq<Issue>, x: nat, entry: Entry)
    requires CacheLines(cached, cache, seen, issued)
    requires x < |issued| && x !in cached
    requires forall y :: y in seen ==> y < |issued| && issued[y].turn <= issued[x].turn
    requires entry.sid == issued[x].command.sid && entry.sequence == issued[x].command.sequence
    requires entry.response.Ack? ==> entry.response == AckOf(issued[x].command)
    ensures CacheLines(cached + [x], cache + [entry], seen + {x}, issued)
  {
    assert forall i :: 0 <= i < |cached| ==> (cached + [x])[i] == cached[i] && cached[i] in cached;
  }

  lemma CacheDrops(cached: seq<nat>, cache: seq<Entry>, seen: set<nat>, issued: seq<Issue>)
    requires CacheLines(cached, cache, seen, issued) && cached != []
    ensures CacheLines(cached[1..], cache[1..], seen, issued)
  {
  }

  lemma CacheGrows(cached: seq<nat>, cache: seq<Entry>, seen: set<nat>, issued: seq<Issue>, x: nat, entry: Entry)
    requires CacheOk(cached, cache, seen, issued)
    requires x < |issued| && x !in cached
    requires forall y :: y in seen ==> y < |issued| && issued[y].turn <= issued[x].turn
    requires entry.sid == issued[x].command.sid && entry.sequence == issued[x].command.sequence
    requires entry.response.Ack? ==> entry.response == AckOf(issued[x].command)
    ensures CacheOk(Remembered(cached, x), Remember(cache, entry), seen + {x}, issued)
  {
    CacheAppends(cached, cache, seen, issued, x, entry);
    CacheDrops(cached + [x], cache + [entry], seen + {x}, issued);
  }

  lemma NewKeepsCache(s: System, r: System, x: nat, response: Response, execution: Execution)
    requires CacheOk(s.cached, s.pico.cache, s.seen, s.issued) && SeenOk(s.seen, s.forward, s.issued)
    requires TakesNew(s, r, x, response, execution)
    ensures CacheOk(r.cached, r.pico.cache, r.seen, r.issued)
  {
    assert Line(x) in s.forward;
    var c := s.issued[x].command;
    CacheGrows(s.cached, s.pico.cache, s.seen, s.issued, x, Entry(c.sid, c.sequence, response));
  }

  lemma RanGrows(log: seq<Event>, e: Event, x: nat)
    requires Ran(log, x) || (e.x == x && e.done)
    ensures Ran(log + [e], x)
  {
    if Ran(log, x) {
      var i :| 0 <= i < |log| && log[i].x == x && log[i].done;
      assert (log + [e])[i] == log[i];
    } else {
      assert (log + [e])[|log|] == e;
    }
  }

  lemma NewRan(s: System, r: System, x: nat, response: Response, execution: Execution, y: nat)
    requires TakesNew(s, r, x, response, execution)
    ensures Ran(s.log, y) ==> Ran(r.log, y)
    ensures response.Ack? ==> Ran(r.log, x)
    ensures Ran(r.log, y) ==> Ran(s.log, y) || (y == x && execution.Executed?)
  {
    if execution.Executed? {
      var e := Event(x, execution.done, execution.typed);
      if Ran(s.log, y) { RanGrows(s.log, e, y); }
      if execution.done { RanGrows(s.log, e, x); }
    }
  }

  lemma NewKeepsAcks(s: System, r: System, x: nat, response: Response, execution: Execution)
    requires BackOk(s.back, s.log, s.issued) && AnswersOk(s.lock, s.log)
    requires TakesNew(s, r, x, response, execution)
    ensures BackOk(r.back, r.log, r.issued) && AnswersOk(r.lock, r.log)
  {
    forall a | a in r.back && a.Ack? ensures Earned(a, r.log, r.issued) {
      if a in s.back {
        assert Earned(a, s.log, s.issued);
        var y :| 0 <= y < |s.issued| && AckOf(s.issued[y].command) == a && Ran(s.log, y);
        NewRan(s, r, x, response, execution, y);
      } else {
        NewRan(s, r, x, response, execution, x);
        assert AckOf(r.issued[x].command) == a;
      }
    }
    forall y | r.lock.Some? && y in r.lock.value.answers && r.lock.value.answers[y] ensures Ran(r.log, y) {
      NewRan(s, r, x, response, execution, y);
    }
  }

  lemma NewKeepsCachedAcks(s: System, r: System, x: nat, response: Response, execution: Execution)
    requires CachedAcksOk(s.cached, s.pico.cache, s.log, s.issued) && |s.cached| == |s.pico.cache|
    requires CacheOk(s.cached, s.pico.cache, s.seen, s.issued)
    requires TakesNew(s, r, x, response, execution)
    ensures CachedAcksOk(r.cached, r.pico.cache, r.log, r.issued)
  {
    forall i | 0 <= i < |r.cached| && i < |r.pico.cache| && r.cached[i] < |r.issued|
               && r.pico.cache[i].response == AckOf(r.issued[r.cached[i]].command)
      ensures Ran(r.log, r.cached[i])
    {
      NewRan(s, r, x, response, execution, r.cached[i]);
      if r.cached[i] != x {
        var j := if |r.cached| == |s.cached| + 1 then i else i + 1;
        assert s.cached[j] == r.cached[i] && s.pico.cache[j] == r.pico.cache[i];
      }
    }
  }

  lemma RanWasSeen(s: System, x: nat)
    requires LogOk(s.log, s.seen, s.issued) && Ran(s.log, x)
    ensures x in s.seen
  {
  }

  lemma NewKeepsRelease(s: System, r: System, x: nat, response: Response, execution: Execution)
    requires SeenOk(s.seen, s.forward, s.issued) && LogOk(s.log, s.seen, s.issued)
    requires forall y, z :: 0 <= y < z < |s.issued| ==> s.issued[y].turn <= s.issued[z].turn
    requires ReleaseOk(s.issued, s.turns, s.log, s.pico)
    requires TakesNew(s, r, x, response, execution)
    ensures ReleaseOk(r.issued, r.turns, r.log, r.pico)
  {
    assert Line(x) in s.forward;
    forall y: nat | LastRelease(y, r.issued, r.turns) && Ran(r.log, y) ensures NothingHeld(r.pico) {
      NewRan(s, r, x, response, execution, y);
      if Ran(s.log, y) {
        RanWasSeen(s, y);
        assert s.issued[y].turn <= s.issued[x].turn;
        assert x == y;
      }
    }
  }

  lemma NewKeeps(s: System, r: System, x: nat, response: Response, execution: Execution)
    requires Inv(s) && TakesNew(s, r, x, response, execution)
    ensures Inv(r)
  {
    NewKeepsSeen(s, r, x, response, execution);
    NewKeepsCache(s, r, x, response, execution);
    NewKeepsCover(s, r, x, response, execution);
    NewKeepsLog(s, r, x, response, execution);
    NewKeepsAcks(s, r, x, response, execution);
    NewKeepsCachedAcks(s, r, x, response, execution);
    NewKeepsRelease(s, r, x, response, execution);
  }

  // ----- The Pico repeats a cached answer, drops a bad line, or releases on its own -----

  /** Steps of the Pico that execute nothing: the queue gets no new line, the cache is
      kept or forgotten together with the session, and nothing new is held. */
  ghost predicate Idle(s: System, r: System) {
    && r == s.(forward := r.forward, back := r.back, pico := r.pico, cached := r.cached)
    && (r.forward == s.forward || (s.forward != [] && r.forward == s.forward[1..]))
    && (r.back == s.back || exists a :: r.back == s.back + [a] && (a.Ack? ==> Earned(a, s.log, s.issued)))
    && Valid(r.pico)
    && ((r.cached == s.cached && r.pico.cache == s.pico.cache)
        || (r.cached == [] && r.pico.cache == [] && r.pico.active.None?))
    && (r.pico.active == s.pico.active || r.pico.active.None?)
    && (NothingHeld(s.pico) || s.pico.active.None? ==> NothingHeld(r.pico))
  }

  lemma IdleKeepsCover(s: System, r: System)
    requires CoverOk(s) && Idle(s, r)
    ensures CoverOk(r)
  {
    forall x | x in r.seen && x < |r.issued| && Live(x, r.forward, r.lock)
      ensures Covered(x, r.issued[x].command, r.cached, r.pico)
    {
      assert Live(x, s.forward, s.lock);
      assert Covered(x, s.issued[x].command, s.cached, s.pico);
    }
  }

  lemma IdleKeepsQueue(s: System, r: System)
    requires ForwardOk(s.forward, s.issued) && SeenOk(s.seen, s.forward, s.issued)
    requires BackOk(s.back, s.log, s.issued) && Idle(s, r)
    ensures ForwardOk(r.forward, r.issued) && SeenOk(r.seen, r.forward, r.issued)
    ensures BackOk(r.back, r.log, r.issued)
  {
    assert forall i :: 0 <= i < |r.forward| ==> r.forward[i] in s.forward;
    assert forall x: nat :: Line(x) in r.forward ==> Line(x) in s.forward;
    assert r.forward != s.forward ==> forall i :: 0 <= i < |r.forward| ==> r.forward[i] == s.forward[i + 1];
  }

  lemma IdleKeeps(s: System, r: System)
    requires Inv(s) && Idle(s, r)
    ensures Inv(r)
  {
    IdleKeepsCover(s, r);
    IdleKeepsQueue(s, r);
  }

  lemma RepeatIsIdle(s: System, x: nat, o: Oracle)
    requires Inv(s) && s.forward != [] && s.forward[0] == Line(x) && x < |s.issued|
    requires Lookup(s.pico.cache, s.issued[x].command.sid, s.issued[x].command.sequence).Some?
    ensures Idle(s, TakenLine(s, x, o))
  {
    var c := s.issued[x].command;
    var a := Lookup(s.pico.cache, c.sid, c.sequence).value;
    var i :| 0 <= i < |s.pico.cache| && s.pico.cache[i] == Entry(c.sid, c.sequence, a);
    if a.Ack? {
      assert Ran(s.log, s.cached[i]);
      assert AckOf(s.issued[s.cached[i]].command) == a;
    }
    assert TakenLine(s, x, o).back == s.back + [a];
  }

  lemma PicoTakesKeeps(s: System, o: Oracle)
    requires Inv(s) && Enabled(s, PicoTakes(o))
    ensures Inv(Apply(s, PicoTakes(o)))
  {
    if s.forward[0].Noise? {
      assert TakenNoise(s).back == s.back + [AnonymousNack("bad_json")];
      IdleKeeps(s, TakenNoise(s));
    } else {
      var x := s.forward[0].x;
      var c := s.issued[x].command;
      if Lookup(s.pico.cache, c.sid, c.sequence).Some? {
        RepeatIsIdle(s, x, o);
        IdleKeeps(s, TakenLine(s, x, o));
      } else {
        TakenLineIsNew(s, x, o);
        NewKeeps(s, TakenLine(s, x, o), x, Handle(s.pico, c, o).1, Handle(s.pico, c, o).2);
      }
    }
  }

  lemma TimersAreIdle(s: System, now: real)
    requires Inv(s)
    ensures Idle(s, Apply(s, PicoTimers(now)))
  {
    if Timers(s.pico, now).1.Some? {
      assert Apply(s, PicoTimers(now)).back == s.back + [Timers(s.pico, now).1.value];
    }
  }

  lemma RestartIsIdle(s: System)
    requires Inv(s)
    ensures Idle(s, Apply(s, PicoRestarts))
  {
    assert Apply(s, PicoRestarts).back == s.back + [Ready];
  }

  // ----- Every step, every run -----

  lemma GatewayStepKeeps(s: System, step: Step)
    requires Inv(s) && Enabled(s, step)
    requires step.OpenSession? || step.Request? || step.Refuse? || step.Acquire? || step.Send?
    ensures Inv(Apply(s, step))
  {
    match step
    case OpenSession(watchdogMs) => OpenSessionKeeps(s, watchdogMs);
    case Request(ops, lease, stamp, owner) => RequestKeeps(s, ops, lease, stamp, owner);
    case Refuse(t) => RefuseKeeps(s, t);
    case Acquire(t) => AcquireKeeps(s, t);
    case Send => SendKeeps(s);
  }

  lemma PicoStepKeeps(s: System, step: Step)
    requires Inv(s) && Enabled(s, step)
    requires step.PicoTakes? || step.PicoTimers? || step.PicoRestarts?
    ensures Inv(Apply(s, step))
  {
    match step
    case PicoTakes(o) => PicoTakesKeeps(s, o);
    case PicoTimers(now) => TimersAreIdle(s, now); IdleKeeps(s, Apply(s, step));
    case PicoRestarts => RestartIsIdle(s); IdleKeeps(s, Apply(s, step));
  }

  lemma EndingStepKeeps(s: System, step: Step, r: System)
    requires Inv(s) && Enabled(s, step) && r == Apply(s, step)
    requires step.Finish? || step.Abandon? || step.Fault? || step.Bump? || step.Teardown?
    ensures Inv(r)
  {
    EndingKeeps(s, r);
  }

  /** Every step of the session keeps the invariant. */
  lemma StepKeeps(s: System, step: Step)
    requires Inv(s) && Enabled(s, step)
    ensures Inv(Apply(s, step))
  {
    if step.Finish? || step.Abandon? || step.Fault? || step.Bump? || step.Teardown? {
      EndingStepKeeps(s, step, Apply(s, step));
    } else if step.PicoTakes? || step.PicoTimers? || step.PicoRestarts? {
      PicoStepKeeps(s, step);
    } else if step.Lose? {
      LoseKeeps(s, step.i);
    } else if step.Mangle? {
      MangleKeeps(s, step.i);
    } else if step.LoseBack? {
      LoseBackKeeps(s, step.i);
    } else if step.Deliver? {
      DeliverKeeps(s);
    } else {
      GatewayStepKeeps(s, step);
    }
  }
}
