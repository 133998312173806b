/** The gateway's rate limiter (gateway/noob_gateway/rate_limit.py), over reals. */
module TokenBucket {
  datatype State = State(tokens: real, updated: real)

  datatype Call = Call(now: real, cost: real)

  function Least(a: real, b: real): real { if a < b then a else b }

  function Elapsed(updated: real, now: real): real { if now - updated > 0.0 then now - updated else 0.0 }

  function Earned(span: real, rate: real): real { span * rate }

  function Refilled(s: State, rate: real, capacity: real, now: real): real {
    Least(capacity, s.tokens + Earned(Elapsed(s.updated, now), rate))
  }

  /** `allow`, for a positive rate and capacity. */
  function Allowed(s: State, rate: real, capacity: real, c: Call): (State, bool) {
    if c.cost <= 0.0 || c.cost > capacity then (s, false)
    else
      var tokens := Refilled(s, rate, capacity, c.now);
      if tokens < c.cost then (State(tokens, c.now), false) else (State(tokens - c.cost, c.now), true)
  }

  class Bucket {
    const rate: real
    const capacity: real
    var tokens: real
    var updated: real

    ghost function Model(): State
      reads this
    {
      State(tokens, updated)
    }

    constructor (rate: real, burst: real, now: real)
      requires rate > 0.0 && burst > 0.0
      ensures Model() == State(burst, now) && this.rate == rate && capacity == burst
    {
      this.rate, capacity, tokens, updated := rate, burst, burst, now;
    }

    method Allow(now: real, cost: real) returns (ok: bool)
      modifies this
      ensures (Model(), ok) == Allowed(old(Model()), rate, capacity, Call(now, cost))
    {
      if cost <= 0.0 || cost > capacity {
        return false;
      }
      var elapsed := Elapsed(updated, now);
      tokens := Least(capacity, tokens + Earned(elapsed, rate));
      updated := now;
      if tokens < cost {
        return false;
      }
      tokens := tokens - cost;
      ok := true;
    }
  }

  // ----- Any sequence of calls -----

  function After(s: State, rate: real, capacity: real, calls: seq<Call>): State {
    if calls == [] then s
    else Allowed(After(s, rate, capacity, calls[..|calls| - 1]), rate, capacity, calls[|calls| - 1]).0
  }

  /** The cost of the calls that were allowed. */
  function Admitted(s: State, rate: real, capacity: real, calls: seq<Call>): real {
    if calls == [] then 0.0
    else
      var front, last := calls[..|calls| - 1], calls[|calls| - 1];
      Admitted(s, rate, capacity, front)
      + if Allowed(After(s, rate, capacity, front), rate, capacity, last).1 then last.cost else 0.0
  }

  /** The clock does not run backwards from `since` on. */
  predicate InTime(calls: seq<Call>, since: real) {
    && (forall i :: 0 <= i < |calls| ==> since <= calls[i].now)
    && (forall i, j :: 0 <= i < j < |calls| ==> calls[i].now <= calls[j].now)
  }

  lemma Earns(rate: real, a: real, b: real, c: real)
    requires rate > 0.0 && b <= c
    ensures Earned(b - a, rate) + Earned(c - b, rate) == Earned(c - a, rate) && Earned(c - b, rate) >= 0.0
  {
    assert (b - a) * rate + (c - b) * rate == (c - a) * rate;
  }

  /** From time `from` on, what was admitted and what is left is at most the capacity and
      what was earned since. */
  ghost predicate Holds(t: State, admitted: real, rate: real, capacity: real, from: real) {
    && 0.0 <= t.tokens <= capacity
    && (if t.updated < from then admitted == 0.0 else admitted + t.tokens <= capacity + Earned(t.updated - from, rate))
  }

  lemma OneMoreCall(t: State, admitted: real, rate: real, capacity: real, c: Call, from: real)
    requires rate > 0.0 && from <= c.now && t.updated <= c.now && Holds(t, admitted, rate, capacity, from)
    ensures var (u, ok) := Allowed(t, rate, capacity, c);
      Holds(u, if ok then admitted + c.cost else admitted, rate, capacity, from) && u.updated <= c.now
  {
    Earns(rate, from, t.updated, c.now);
    Earns(rate, from, from, c.now);
  }

  ghost predicate Balanced(s: State, rate: real, capacity: real, calls: seq<Call>, from: real) {
    && Holds(After(s, rate, capacity, calls), Admitted(s, rate, capacity, calls), rate, capacity, from)
    && After(s, rate, capacity, calls).updated <= (if calls == [] then from else calls[|calls| - 1].now)
  }

  lemma BalancedOneMore(s: State, rate: real, capacity: real, front: seq<Call>, last: Call, from: real)
    requires rate > 0.0 && Balanced(s, rate, capacity, front, from) && from <= last.now
    requires front != [] ==> front[|front| - 1].now <= last.now
    ensures Balanced(s, rate, capacity, front + [last], from)
  {
    assert (front + [last])[..|front|] == front;
    OneMoreCall(After(s, rate, capacity, front), Admitted(s, rate, capacity, front), rate, capacity, last, from);
  }

  lemma {:induction false} Balance(s: State, rate: real, capacity: real, calls: seq<Call>, from: real)
    requires rate > 0.0 && 0.0 <= s.tokens <= capacity && s.updated <= from && InTime(calls, from)
    ensures Balanced(s, rate, capacity, calls, from)
  {
    if calls != [] {
      var front, last := calls[..|calls| - 1], calls[|calls| - 1];
      Balance(s, rate, capacity, front, from);
      BalancedOneMore(s, rate, capacity, front, last, from);
      assert calls == front + [last];
    } else {
      assert Earned(0.0, rate) == 0.0;
      assert s.updated == from ==> s.updated - from == 0.0;
    }
  }

  lemma BoundAt(t: State, admitted: real, rate: real, capacity: real, from: real, upTo: real)
    requires rate > 0.0 && Holds(t, admitted, rate, capacity, from) && t.updated <= upTo && from <= upTo
    ensures admitted <= capacity + Earned(upTo - from, rate)
  {
    Earns(rate, from, t.updated, upTo);
    Earns(rate, from, from, upTo);
  }

  /** Over any stretch of calls, whatever came before, the limiter admits at most the
      burst and the rate times the time from the stretch's first call to its last. */
  lemma AdmitsAtMost(s: State, rate: real, capacity: real, calls: seq<Call>)
    requires rate > 0.0 && 0.0 <= s.tokens <= capacity && calls != []
    requires s.updated <= calls[0].now && InTime(calls, calls[0].now)
    ensures Admitted(s, rate, capacity, calls) <= capacity + Earned(calls[|calls| - 1].now - calls[0].now, rate)
  {
    Balance(s, rate, capacity, calls, calls[0].now);
    BoundAt(After(s, rate, capacity, calls), Admitted(s, rate, capacity, calls), rate, capacity, calls[0].now, calls[|calls| - 1].now);
  }

  /** A call is admitted exactly if its cost is positive, within the burst, and covered by
      what was left and what the rate has added since; a refused call costs nothing, an
      admitted one its cost. */
  lemma AdmittedExactly(s: State, rate: real, capacity: real, c: Call)
    requires rate > 0.0 && 0.0 <= s.tokens <= capacity && s.updated <= c.now
    ensures var (u, ok) := Allowed(s, rate, capacity, c);
      var earned := s.tokens + rate * (c.now - s.updated);
      && (ok <==> 0.0 < c.cost <= capacity && c.cost <= earned)
      && (0.0 < c.cost <= capacity ==>
            u.updated == c.now && u.tokens == (if earned < capacity then earned else capacity) - if ok then c.cost else 0.0)
      && (!(0.0 < c.cost <= capacity) ==> u == s)
  {
    var span := c.now - s.updated;
    assert Earned(span, rate) == rate * span;
    if span > 0.0 { assert Elapsed(s.updated, c.now) == span; } else { assert Earned(span, rate) == 0.0; }
  }

  /** Whoever waits long enough is served: once the rate has had time to fill the bucket,
      any call within the burst is admitted. */
  lemma WaitingHelps(s: State, rate: real, capacity: real, c: Call)
    requires rate > 0.0 && 0.0 <= s.tokens <= capacity && s.updated <= c.now && 0.0 < c.cost <= capacity
    requires rate * (c.now - s.updated) >= capacity
    ensures Allowed(s, rate, capacity, c).1
  {
    AdmittedExactly(s, rate, capacity, c);
  }
}
