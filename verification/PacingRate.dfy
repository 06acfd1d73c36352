/** When a connection may send: the pace it has to keep, and the catch-up line at twice the rate. */
module PacingRate {

  /** What usec_to_next_send reads and writes. throughput: requests per microsecond. */
  datatype Pace = Pace(throughput: real, threadStart: nat, complete: nat, caughtUp: bool, catchUpStart: nat,
                       completeAtCatchUp: nat)
  {
    /** The unsigned difference of the completed requests cannot wrap. */
    ghost predicate Ok() {
      throughput > 0.0 && completeAtCatchUp <= complete
    }
  }

  /** from + n / rate as an integer. */
  function Line(from: nat, n: nat, rate: real): (t: int)
    requires rate > 0.0
  {
    (from as real + n as real / rate).Floor
  }

  lemma DivideBelow(n: real, rate: real, t: real)
    requires rate > 0.0
    ensures n / rate < t <==> n < rate * t
  {
    var q := n / rate;
    assert n == rate * q;
    if q < t {
      assert rate * (t - q) > 0.0;
    } else {
      assert rate * (q - t) >= 0.0;
    }
  }

  /** The line is reached when fewer requests are complete than the rate allows for until the next
      microsecond. */
  lemma LineReached(from: nat, n: nat, rate: real, now: int)
    requires rate > 0.0
    ensures Line(from, n, rate) <= now <==> n as real < rate * (now + 1 - from) as real
    ensures from <= Line(from, n, rate)
  {
    DivideBelow(n as real, rate, (now + 1 - from) as real);
    DivideBelow(n as real, rate, 0.0);
  }

  /** t is the first microsecond in which the rate allows for more than n requests. */
  ghost predicate FirstAllowed(from: nat, n: nat, rate: real, t: int) {
    t >= from && n as real < rate * (t + 1 - from) as real && (t > from ==> rate * (t - from) as real <= n as real)
  }

  /** That is the truncated start time, and no other. */
  lemma LineIsFirst(from: nat, n: nat, rate: real, t: int)
    requires rate > 0.0
    ensures t == Line(from, n, rate) <==> FirstAllowed(from, n, rate, t)
  {
    hide Line;
    LineReached(from, n, rate, t);
    LineReached(from, n, rate, t - 1);
    if t == from && Line(from, n, rate) < t {
      assert false;
    }
  }

  function OnPace(p: Pace): int
    requires p.throughput > 0.0
  {
    Line(p.threadStart, p.complete, p.throughput)
  }

  /** The pace after a decision at time now: whether the connection is behind, and since when. */
  function Decided(p: Pace, now: nat): (q: Pace)
    requires p.throughput > 0.0
  {
    if OnPace(p) > now then p.(caughtUp := true)
    else if p.caughtUp then p.(caughtUp := false, catchUpStart := now, completeAtCatchUp := p.complete)
    else p
  }

  function CatchUpLine(p: Pace): int
    requires p.Ok()
  {
    Line(p.catchUpStart, p.complete - p.completeAtCatchUp, p.throughput * 2.0)
  }

  /** The next send time of a decided pace. */
  function NextSend(p: Pace): int
    requires p.Ok()
  {
    if p.caughtUp then OnPace(p) else CatchUpLine(p)
  }

  /** A pace that has been decided at time now. */
  ghost predicate DecidedAt(p: Pace, now: nat) {
    p.Ok() && (p.caughtUp <==> OnPace(p) > now) && (!p.caughtUp ==> p.catchUpStart <= now)
  }

  /** While nothing completes, the decision at any later time is the one that was announced. */
  lemma WaitIsExact(p: Pace, now: nat, later: nat)
    requires DecidedAt(p, now) && now <= later
    ensures NextSend(Decided(p, later)) <= later <==> NextSend(p) <= later
    ensures NextSend(p) > later ==> Decided(p, later) == p
  {
    LineReached(p.threadStart, p.complete, p.throughput, later);
    LineReached(later, 0, p.throughput * 2.0, later);
    if p.caughtUp && OnPace(p) <= later {
      assert (later as real + 0 as real / (p.throughput * 2.0)).Floor == later;
    }
  }

  /** round(usec / 1000 + 0.5) milliseconds. */
  function Milliseconds(usec: nat): (ms: nat)
    ensures 1000 * (ms - 1) <= usec < 1000 * ms
  {
    (usec as real / 1000.0 + 0.5 + 0.5).Floor
  }

  /** A connection that has slept as long as it was told to may send, and could not have sent more
      than a millisecond before. */
  lemma WakeSends(p: Pace, now: nat, later: nat)
    requires DecidedAt(p, now) && NextSend(p) > now && now + 1000 * Milliseconds(NextSend(p) - now) <= later
    ensures NextSend(Decided(p, later)) <= later
    ensures now + 1000 * (Milliseconds(NextSend(p) - now) - 1) <= NextSend(p)
  {
    WaitIsExact(p, now, later);
  }

  lemma Half(rate: real, t: real, lag: real)
    requires rate > 0.0 && lag <= t
    ensures rate * (t + lag) <= rate * 2.0 * t
  {
    assert rate * (t - lag) >= 0.0;
  }

  /** How long the connection was behind when it started to catch up. */
  ghost function Lag(p: Pace): real
    requires p.throughput > 0.0
  {
    (p.catchUpStart - p.threadStart) as real - p.completeAtCatchUp as real / p.throughput
  }

  /** Catching up takes as long as the connection was behind: after that the catch-up line never
      holds back what the pace allows. */
  lemma CatchUpEnds(p: Pace, now: nat)
    requires p.Ok() && (now + 1 - p.catchUpStart) as real >= Lag(p) && OnPace(p) <= now
    ensures CatchUpLine(p) <= now
  {
    hide Line;
    var t, a := (now + 1 - p.catchUpStart) as real, (now + 1 - p.threadStart) as real;
    var rate, n, before := p.throughput, p.complete as real, p.completeAtCatchUp as real;
    var lag := Lag(p);
    LineReached(p.threadStart, p.complete, rate, now);
    LineReached(p.catchUpStart, p.complete - p.completeAtCatchUp, rate * 2.0, now);
    Half(rate, t, lag);
    assert t + lag == a - before / rate;
    Spread(rate, before, a, t + lag);
    assert n - before < rate * 2.0 * t;
  }

  lemma Spread(rate: real, n: real, a: real, b: real)
    requires rate > 0.0 && b == a - n / rate
    ensures rate * a - n == rate * b
  {
    var q := n / rate;
    assert n == rate * q;
  }
}
