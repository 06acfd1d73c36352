/** One TCP connection of the load generator: what its event handlers do to the pace, to the batch
    that is waited for and to the events it waits for. */
module PacingConnection {
  import opened PacingRate

  /** The handler of a readable or writable socket. */
  datatype Handler = Idle | Connect | Serve

  /** The outcome of a write or of a connect. */
  datatype Outcome = Done(n: nat) | Failed | Retry

  /** What the event loop reports: that the socket is connected, that it is writable (with the times
      that the clock is read and the length of the request that a script wants to send next), that a
      timer has run out, that a response is complete, or that reading has failed. connected: whether
      connecting again succeeds, if that is what the handler does. */
  datatype Event =
    | Connected(outcome: Outcome, connected: bool)
    | Writable(t1: nat, t2: nat, requestLength: nat, outcome: Outcome, connected: bool)
    | Timer(t1: nat)
    | Response(t1: nat, keepAlive: bool, connected: bool)
    | ReadError(connected: bool)

  /** A batch is started or started again: at a time, with so many requests complete. */
  datatype Release = Release(time: nat, pace: Pace)

  /** The latency of a response, counted from the time the pace asked for and from the actual send. */
  datatype Sample = Sample(corrected: int, actual: int, recorded: bool)

  const MAX_PENDING: nat := 0xFFFF_FFFF_FFFF_FFFF

  /** The batch was allowed by the pace and by the catch-up line. */
  ghost predicate OnTime(r: Release) {
    && r.pace.Ok() && !r.pace.caughtUp && r.pace.catchUpStart <= r.time
    && OnPace(r.pace) <= r.time && CatchUpLine(r.pace) <= r.time
  }

  /** What writing makes of the bytes written, the handlers and the responses owed. A partial write goes
      on where it stopped; a complete one stops listening for writability; a failure reconnects. */
  ghost predicate Transmitted(outcome: Outcome, connected: bool, length: nat, batch: nat, written0: nat,
                              onRead0: Handler,
                              owed0: nat, written: nat, onRead: Handler, onWrite: Handler, owed: nat)
  {
    match outcome
    case Retry => written == written0 && onRead == onRead0 && onWrite == Serve && owed == owed0
    case Failed => written == written0 && onRead == onWrite == (if connected then Connect else Idle) && owed == 0
    case Done(n) =>
      && onRead == onRead0 && owed == owed0 + (if written0 == 0 && n > 0 then batch else 0)
      && if written0 + n == length then written == 0 && onWrite == Idle else written == written0 + n && onWrite == Serve
  }

  /** Every batch so far was allowed, at a rate and counted from a time. */
  ghost predicate AllOnTime(releases: seq<Release>, clock: nat, complete: nat, throughput: real, threadStart: nat) {
    forall r <- releases :: OnTime(r) && r.time <= clock && r.pace.complete <= complete
                            && r.pace.throughput == throughput && r.pace.threadStart == threadStart
  }

  lemma StillOnTime(releases: seq<Release>, clock: nat, complete: nat, clock1: nat, complete1: nat, rate: real,
                    from: nat)
    requires AllOnTime(releases, clock, complete, rate, from) && clock <= clock1 && complete <= complete1
    ensures AllOnTime(releases, clock1, complete1, rate, from)
  {
  }

  lemma LaterOnTime(p: Pace, t: nat, t2: nat)
    requires OnTime(Release(t, p)) && t <= t2
    ensures OnTime(Release(t2, p)) && OnPace(p) <= t
  {
  }

  lemma MoreOnTime(releases: seq<Release>, r: Release, clock: nat, complete: nat, throughput: real, threadStart: nat)
    requires AllOnTime(releases, clock, complete, throughput, threadStart)
    requires OnTime(r) && r.time <= clock && r.pace.complete <= complete
    requires r.pace.throughput == throughput && r.pace.threadStart == threadStart
    ensures AllOnTime(releases + [r], clock, complete, throughput, threadStart)
  {
  }

  ghost predicate NoneNegative(samples: seq<Sample>) {
    forall s <- samples :: 0 <= s.corrected && 0 <= s.actual
  }

  /** Exactly one thing is going to happen next: the socket gets connected, or a request is sent,
      or a timer runs out, or a response comes in. Only with nothing owed is a batch sent. */
  ghost predicate OneThing(length: nat, owed: nat, pending: nat, hasPending: bool, onRead: Handler, onWrite: Handler,
                           timers: nat, written: nat)
  {
    && length > 0 && (owed > 0 ==> owed == pending && hasPending && onRead == Serve)
    && match onRead
       case Idle => onWrite == Idle && timers == 0 && owed == 0
       case Connect => onWrite == Connect && timers == 0 && owed == 0
       case Serve =>
         && onWrite != Connect && timers <= 1
         && (timers == 1 ==> onWrite == Idle && written == 0 && owed == 0)
         && (timers == 0 && onWrite == Idle ==> written == 0 && owed > 0)
         && (onWrite == Serve ==> (owed > 0 <==> written > 0))
  }

  lemma BatchIsOneThing(length: nat, owed: nat, pending: nat, hasPending: bool, onRead: Handler, timers: nat,
                        pipeline: nat)
    requires OneThing(length, owed, pending, hasPending, onRead, Serve, timers, 0)
    ensures OneThing(length, owed, pipeline, true, onRead, Serve, timers, 0)
  {
  }

  class Connection {
    const throughput: real
    const catchUpThroughput: real
    const threadStart: nat
    const pipeline: nat
    const dynamic: bool
    const recordAll: bool
    const stopAt: nat
    var complete: nat
    var completeAtLastBatchStart: nat
    var catchUpStartTime: nat
    var completeAtCatchUpStart: nat
    var caughtUp: bool
    var start: nat
    var actualLatencyStart: nat
    var length: nat
    var written: nat
    var pending: nat
    var hasPending: bool
    var onRead: Handler
    var onWrite: Handler
    var timers: nat
    /** The last time that the clock was read. */
    var clock: nat
    /** The batches started so far; the latencies so far,
        recorded or not; how many responses are owed on the current socket. */
    ghost var releases: seq<Release>
    ghost var samples: seq<Sample>
    ghost var owed: nat

    ghost function Now(): Pace
      reads this
    {
      Pace(throughput, threadStart, complete, caughtUp, catchUpStartTime, completeAtCatchUpStart)
    }

    ghost predicate Valid()
      reads this
    {
      && 0 < pipeline <= MAX_PENDING && pending <= MAX_PENDING && written <= length
      && catchUpThroughput == throughput * 2.0
      && Now().Ok() && threadStart <= clock && (!caughtUp ==> catchUpStartTime <= clock)
      && completeAtLastBatchStart <= complete
      && (releases == [] ==> completeAtLastBatchStart == 0 && !hasPending && actualLatencyStart == 0)
      && (releases != [] ==> Line(threadStart, completeAtLastBatchStart, throughput) <= actualLatencyStart <= clock)
      && AllOnTime(releases, clock, complete, throughput, threadStart) && NoneNegative(samples) && |samples| == complete
    }

    ghost predicate Calm()
      reads this
    {
      OneThing(length, owed, pending, hasPending, onRead, onWrite, timers, written)
    }

    /** thread_main and delayed_initial_connect. */
    constructor (throughput: real, pipeline: nat, length: nat, dynamic: bool, recordAll: bool, stopAt: nat, now: nat,
                 connected: bool)
      requires throughput > 0.0 && 0 < pipeline <= MAX_PENDING
      ensures Valid() && clock == now && releases == [] && samples == [] && (length > 0 ==> Calm())
      ensures this.throughput == throughput && threadStart == now && this.pipeline == pipeline && this.length == length
      ensures this.dynamic == dynamic && this.recordAll == recordAll && this.stopAt == stopAt
      ensures complete == 0 && caughtUp && written == 0 && timers == 0 && owed == 0 && !hasPending
      ensures onRead == onWrite == if connected then Connect else Idle
    {
      this.dynamic := dynamic;
      this.throughput, this.catchUpThroughput, this.threadStart := throughput, throughput * 2.0, now;
      this.pipeline, this.recordAll, this.stopAt := pipeline, recordAll, stopAt;
      complete, completeAtLastBatchStart, catchUpStartTime, completeAtCatchUpStart := 0, 0, 0, 0;
      caughtUp, start, actualLatencyStart, this.length, written := true, 0, 0, length, 0;
      pending, hasPending, timers := 0, false, 0;
      onRead := if connected then Connect else Idle;
      onWrite := if connected then Connect else Idle;
      clock, releases, samples, owed := now, [], [], 0;
    }

    /** usec_to_next_send: 0 when it is time to send, else the microseconds until then. */
    method UsecToNextSend(now: nat) returns (wait: nat)
      requires Valid() && clock <= now
      modifies this`caughtUp, this`catchUpStartTime, this`completeAtCatchUpStart, this`clock
      ensures Valid() && clock == now && Now() == Decided(old(Now()), now) && DecidedAt(Now(), now)
      ensures wait == if NextSend(Now()) <= now then 0 else NextSend(Now()) - now
      ensures wait == 0 ==> OnTime(Release(now, Now()))
    {
      StillOnTime(releases, clock, complete, now, complete, throughput, threadStart);
      hide AllOnTime, NoneNegative;
      clock := now;
      LineReached(threadStart, complete, throughput, now);
      var nextStartTime := (threadStart as real + complete as real / throughput).Floor;
      var sendNow := true;
      if nextStartTime > now {
        caughtUp := true;
        sendNow := false;
      } else {
        if caughtUp {
          caughtUp := false;
          catchUpStartTime := now;
          completeAtCatchUpStart := complete;
        }
        var completeSinceCatchUpStart := complete - completeAtCatchUpStart;
        nextStartTime := (catchUpStartTime as real + completeSinceCatchUpStart as real / catchUpThroughput).Floor;
        if nextStartTime > now {
          sendNow := false;
        }
      }
      wait := if sendNow then 0 else nextStartTime - now;
    }

    /** Closes the socket and connects again. */
    method Reconnect(connected: bool)
      requires Valid()
      modifies this`onRead, this`onWrite, this`owed
      ensures Valid() && owed == 0 && onRead == onWrite == if connected then Connect else Idle
      ensures length > 0 ==> (Calm() <==> timers == 0)
    {
      onRead := if connected then Connect else Idle;
      onWrite := if connected then Connect else Idle;
      owed := 0;
    }

    /** socket_connected. */
    method SocketConnected(outcome: Outcome, connected: bool)
      requires Valid() && (onRead == Connect || onWrite == Connect)
      modifies this`onRead, this`onWrite, this`owed, this`written
      ensures Valid() && (old(Calm()) ==> Calm())
      ensures outcome.Done? ==> onRead == onWrite == Serve && written == 0 && owed == old(owed)
      ensures outcome.Retry? ==>
                onRead == old(onRead) && onWrite == old(onWrite) && written == old(written) && owed == old(owed)
      ensures outcome.Failed? ==>
                onRead == onWrite == (if connected then Connect else Idle) && owed == 0 && written == old(written)
    {
      match outcome
      case Done(_) =>
        written := 0;
        onRead := Serve;
        onWrite := Serve;
      case Retry =>
      case Failed =>
        Reconnect(connected);
    }

    /** delay_request: the timer either goes on for some milliseconds or lets the socket send. */
    method DelayRequest(now: nat) returns (msec: nat)
      requires Valid() && clock <= now && timers > 0
      modifies this`caughtUp, this`catchUpStartTime, this`completeAtCatchUpStart, this`clock, this`timers, this`onWrite
      ensures Valid() && clock == now && Now() == Decided(old(Now()), now) && DecidedAt(Now(), now)
      ensures NextSend(Now()) <= now ==> timers == old(timers) - 1 && onWrite == Serve
      ensures NextSend(Now()) > now ==>
        timers == old(timers) && onWrite == old(onWrite) && msec == Milliseconds(NextSend(Now()) - now)
      ensures old(Calm()) ==> Calm()
    {
      var usecToWait := UsecToNextSend(now);
      if usecToWait != 0 {
        return Milliseconds(usecToWait);
      }
      onWrite := Serve;
      timers := timers - 1;
      msec := 0;
    }

    /** The first part of sending: whether it is time to send, and if not, a timer. */
    method MaySend(t1: nat) returns (send: bool)
      requires Valid() && clock <= t1 && onWrite == Serve && written == 0
      modifies this`caughtUp, this`catchUpStartTime, this`completeAtCatchUpStart, this`clock, this`timers, this`onWrite
      ensures Valid() && clock == t1 && Now() == Decided(old(Now()), t1) && DecidedAt(Now(), t1)
      ensures send <==> NextSend(Now()) <= t1
      ensures send ==> timers == old(timers) && onWrite == Serve && OnTime(Release(t1, Now()))
      ensures !send ==> timers == old(timers) + 1 && onWrite == Idle
      ensures old(Calm()) ==> Calm()
    {
      var usecToWait := UsecToNextSend(t1);
      send := usecToWait == 0;
      if usecToWait != 0 {
        onWrite := Idle;
        timers := timers + 1;
      }
    }

    /** The batch starts, or starts again when it has been cut off. */
    method StartBatch(t2: nat)
      requires Valid() && clock <= t2 && OnTime(Release(clock, Now())) && written == 0 && onWrite == Serve
      modifies this`clock, this`start, this`actualLatencyStart, this`completeAtLastBatchStart, this`hasPending,
               this`pending,
               this`releases
      ensures Valid() && clock == t2 && releases == old(releases) + [Release(t2, Now())] && pending == pipeline
              && hasPending
      ensures completeAtLastBatchStart == if old(hasPending) then old(completeAtLastBatchStart) else complete
      ensures actualLatencyStart == (if old(hasPending) then old(actualLatencyStart) else t2) && start == t2
      ensures old(Calm()) ==> Calm()
    {
      hide OnTime, AllOnTime, NoneNegative, Line, CatchUpLine, OneThing;
      if Calm() {
        BatchIsOneThing(length, owed, pending, hasPending, onRead, timers, pipeline);
      }
      StillOnTime(releases, clock, complete, t2, complete, throughput, threadStart);
      LaterOnTime(Now(), clock, t2);
      MoreOnTime(releases, Release(t2, Now()), t2, complete, throughput, threadStart);
      ghost var r := Release(t2, Now());
      if !hasPending {
        actualLatencyStart, completeAtLastBatchStart, hasPending := t2, complete, true;
      }
      clock, start, pending, releases := t2, t2, pipeline, releases + [r];
    }

    /** The last part of sending. */
    method Transmit(outcome: Outcome, connected: bool)
      requires Valid() && onWrite == Serve && (written == 0 ==> pending == pipeline && hasPending)
      requires outcome.Done? ==> outcome.n <= length - written
      modifies this`written, this`onRead, this`onWrite, this`owed
      ensures Valid() && (old(Calm()) ==> Calm())
      ensures Transmitted(outcome, connected, length, pipeline, old(written), old(onRead), old(owed), written, onRead,
                          onWrite, owed)
    {
      hide AllOnTime, NoneNegative;
      match outcome
      case Retry =>
      case Failed =>
        Reconnect(connected);
      case Done(n) =>
        if written == 0 && n > 0 {
          owed := owed + pipeline;
        }
        written := written + n;
        if written == length {
          written := 0;
          onWrite := Idle;
        }
    }

    /** sock_writeable: starts a batch if it is time to, or goes on writing. */
    method SockWriteable(t1: nat, t2: nat, requestLength: nat, outcome: Outcome, connected: bool)
        returns (started: bool)
      requires Valid() && clock <= t1 <= t2 && onWrite == Serve
      requires outcome.Done? ==> outcome.n <= (if written == 0 && dynamic then requestLength else length) - written
      modifies this
      ensures Valid() && complete == old(complete) && samples == old(samples)
      ensures old(Calm()) && requestLength > 0 ==> Calm()
      ensures old(written) > 0 ==> !started && Now() == old(Now())
      ensures old(written) == 0 ==> Now() == Decided(old(Now()), t1) && (started <==> NextSend(Now()) <= t1)
      ensures !started ==> releases == old(releases) && clock == if old(written) == 0 then t1 else old(clock)
      ensures !started && old(written) == 0 ==> onWrite == Idle && timers == old(timers) + 1 && owed == old(owed)
                                                && onRead == old(onRead) && written == 0 && pending == old(pending)
                                                && hasPending == old(hasPending)
      ensures started || old(written) > 0 ==> timers == old(timers)
      ensures started ==> releases == old(releases) + [Release(t2, Now())] && clock == t2
      ensures started ==> pending == pipeline && hasPending
      ensures length == if started && dynamic then requestLength else old(length)
      ensures started ==> completeAtLastBatchStart == if old(hasPending) then old(completeAtLastBatchStart)
                else complete
      ensures started ==> actualLatencyStart == if old(hasPending) then old(actualLatencyStart) else t2
      ensures started ==> start == t2
      ensures started || old(written) > 0 ==>
        Transmitted(outcome, connected, length, pipeline, old(written), old(onRead), old(owed), written, onRead,
                    onWrite, owed)
    {
      hide AllOnTime, NoneNegative, OnTime, Decided, DecidedAt, NextSend, Line, OnPace, CatchUpLine, Transmitted;
      started := false;
      if written == 0 {
        started := MaySend(t1);
        if !started {
          return;
        }
        if dynamic {
          length := requestLength;
        }
        StartBatch(t2);
      }
      Transmit(outcome, connected);
    }

    /** The latencies of a response that is complete at time now. */
    ghost function Latency(now: nat): Sample
      reads this
      requires throughput > 0.0
    {
      Sample(now - Line(threadStart, completeAtLastBatchStart, throughput), now - actualLatencyStart, recordAll
             || !hasPending)
    }

    /** stats_request_completed: counts the response and takes its latency. */
    method StatsRequestCompleted(now: nat)
      requires Valid() && clock <= now
      modifies this`complete, this`samples, this`clock
      ensures Valid() && clock == now
      ensures now >= stopAt ==> complete == old(complete) && samples == old(samples)
      ensures now < stopAt ==> complete == old(complete) + 1 && samples == old(samples) + [Latency(now)]
      ensures FirstAllowed(threadStart, completeAtLastBatchStart, throughput, now - Latency(now).corrected)
      ensures var l := Latency(now);
              0 <= l.corrected && (l.actual <= l.corrected <==> releases != [] || threadStart == 0)
    {
      LineIsFirst(threadStart, completeAtLastBatchStart, throughput,
                  Line(threadStart, completeAtLastBatchStart, throughput));
      StillOnTime(releases, clock, complete, now, complete + 1, throughput, threadStart);
      StillOnTime(releases, clock, complete, now, complete, throughput, threadStart);
      hide AllOnTime;
      clock := now;
      LineReached(threadStart, 0, throughput, threadStart);
      if now >= stopAt {
        return;
      }
      complete := complete + 1;
      var expectedLatencyStart := (threadStart as real + completeAtLastBatchStart as real / throughput).Floor;
      var expectedLatencyTiming := now - expectedLatencyStart;
      assert expectedLatencyTiming >= 0;
      samples := samples + [Sample(expectedLatencyTiming, now - actualLatencyStart, recordAll || !hasPending)];
    }

    /** One response less is pending; the count is unsigned. */
    method CountDown()
      requires Valid()
      modifies this`owed, this`pending, this`hasPending, this`onWrite
      ensures Valid() && pending == if old(pending) == 0 then MAX_PENDING else old(pending) - 1
      ensures hasPending == (old(hasPending) && pending != 0) && onWrite == if pending == 0 then Serve else old(onWrite)
      ensures owed == if old(owed) > 0 then old(owed) - 1 else 0
      ensures old(Calm()) && old(owed) > 0 && (old(owed) == 1 ==> old(written) == 0) ==> Calm() && timers == 0
    {
      hide AllOnTime, NoneNegative;
      owed := if owed > 0 then owed - 1 else 0;
      pending := if pending == 0 then MAX_PENDING else pending - 1;
      if pending == 0 {
        hasPending := false;
        onWrite := Serve;
      }
    }

    /** response_complete. */
    method ResponseComplete(now: nat, keepAlive: bool, connected: bool)
      requires Valid() && clock <= now
      modifies this`owed, this`pending, this`hasPending, this`onWrite, this`complete, this`samples, this`clock,
               this`onRead
      ensures Valid() && clock == now
      ensures complete == old(complete) + (if now < stopAt then 1 else 0)
      ensures samples == old(samples) + if now < stopAt then [Latency(now)] else []
      ensures old(Calm()) && old(owed) > 0 ==> (Latency(now).recorded <==> recordAll || old(owed) == 1)
      ensures !keepAlive ==> onRead == onWrite == (if connected then Connect else Idle) && owed == 0
      ensures pending == (if old(pending) == 0 then MAX_PENDING else old(pending) - 1)
      ensures hasPending == (old(hasPending) && pending != 0)
      ensures keepAlive ==> onWrite == (if pending == 0 then Serve else old(onWrite)) && onRead == old(onRead)
                            && owed == if old(owed) > 0 then old(owed) - 1 else 0
      ensures old(Calm()) && old(owed) > 0 && (old(owed) == 1 ==> old(written) == 0) ==> Calm() && old(pending) > 0
    {
      hide AllOnTime, NoneNegative;
      CountDown();
      StatsRequestCompleted(now);
      if !keepAlive {
        Reconnect(connected);
      }
    }

    /** Whether the event can happen: the clock never runs back. */
    predicate Possible(e: Event)
      reads this
    {
      match e
      case Connected(_, _) => onRead == Connect || onWrite == Connect
      case Writable(t1, t2, requestLength, outcome, _) =>
        && onWrite == Serve && clock <= t1 <= t2
        && (outcome.Done? ==> outcome.n <= (if written == 0 && dynamic then requestLength else length) - written)
      case Timer(t1) => timers > 0 && clock <= t1
      case Response(t1, _, _) => clock <= t1
      case ReadError(_) => true
    }

    /** The server answers what it has been asked, and the last answer does not come before the whole
        request has been sent; a script has something to send. */
    ghost predicate Answers(e: Event)
      reads this
    {
      && (e.Response? ==> owed > 0 && (owed == 1 ==> written == 0))
      && (e.Writable? ==> e.requestLength > 0)
    }

    /** Any event, in any order. As long as the server answers what it is asked, a single thing goes
        on at a time, except exactly from a read error on while a timer runs: the timer goes on beside
        the new socket. */
    method Step(e: Event)
      requires Valid() && Possible(e)
      modifies this
      ensures Valid()
      ensures old(Calm() && Answers(e)) ==> (Calm() <==> !(e.ReadError? && old(timers) > 0))
    {
      hide AllOnTime, NoneNegative;
      match e
      case Connected(outcome, connected) => SocketConnected(outcome, connected);
      case Writable(t1, t2, requestLength, outcome, connected) => var _ := SockWriteable(t1, t2, requestLength, outcome,
          connected);
      case Timer(t1) => var _ := DelayRequest(t1);
      case Response(t1, keepAlive, connected) => ResponseComplete(t1, keepAlive, connected);
      case ReadError(connected) => Reconnect(connected);
    }

    /** A whole run: whatever happens, in whatever order, no latency is negative and no batch starts
        before its time. */
    method Run(events: seq<Event>)
      requires Valid()
      modifies this
      ensures Valid()
      ensures AllOnTime(releases, clock, complete, throughput, threadStart) && NoneNegative(samples)
    {
      for i := 0 to |events|
        invariant Valid()
      {
        hide AllOnTime, NoneNegative;
        if Possible(events[i]) {
          Step(events[i]);
        }
      }
    }
  }

  /** The first batch and its response. */
  method FirstBatch() returns (c: Connection)
    ensures fresh(c) && c.Valid() && c.pipeline == 1 && c.throughput == 0.001 && c.threadStart == 0 && c.length == 10
            && !c.dynamic
    ensures c.clock == 10 && c.complete == 1 && c.timers == 0 && c.onRead == c.onWrite == Serve && c.owed == 0
    ensures |c.releases| == 1 && !c.hasPending && c.written == 0
  {
    hide AllOnTime, NoneNegative, OnTime, Connection.Calm, Connection.Latency;
    c := new Connection(0.001, 1, 10, false, true, 1_000_000, 0, true);
    c.SocketConnected(Done(0), true);
    var _ := c.SockWriteable(0, 0, 10, Done(10), true);
    c.ResponseComplete(10, true, true);
  }

  /** The connection is reset while it waits for its turn. */
  method WaitingReset() returns (c: Connection)
    ensures fresh(c) && c.Valid() && c.pipeline == 1 && c.throughput == 0.001 && c.threadStart == 0 && c.length == 10
            && !c.dynamic
    ensures c.clock == 20 && c.complete == 1 && c.timers == 1 && c.caughtUp && c.onRead == Connect && c.owed == 0
    ensures |c.releases| == 1 && !c.hasPending
  {
    hide AllOnTime, NoneNegative, OnTime, Connection.Calm, Connection.Latency;
    c := FirstBatch();
    var _ := c.SockWriteable(20, 20, 10, Done(10), true);
    c.Reconnect(true);
  }

  /** On the new socket it waits again: two timers run. */
  method TwoTimers() returns (c: Connection)
    ensures fresh(c) && c.Valid() && c.pipeline == 1 && c.throughput == 0.001 && c.threadStart == 0 && c.length == 10
            && !c.dynamic
    ensures c.clock == 30 && c.complete == 1 && c.timers == 2 && c.caughtUp && c.onRead == Serve && c.onWrite == Idle
    ensures c.owed == 0 && |c.releases| == 1 && c.written == 0
  {
    c := WaitingReset();
    hide AllOnTime, NoneNegative, OnTime, Connection.Calm, Connection.Latency;
    c.SocketConnected(Done(0), true);
    var _ := c.SockWriteable(30, 30, 10, Done(10), true);
  }

  /** The timer of the old socket lets a second batch go while the first one is owed. */
  method StaleTimer() returns (c: Connection)
    ensures fresh(c) && c.Valid() && c.pipeline == 1 && c.owed == 2 && c.pending == 1 && |c.releases| == 3
  {
    c := TwoTimers();
    hide AllOnTime, NoneNegative, OnTime, Connection.Calm, Connection.Latency;
    var _ := c.DelayRequest(2000);
    var _ := c.SockWriteable(2000, 2000, 10, Done(10), true);
    assert c.catchUpStartTime == 2000 && c.completeAtCatchUpStart == 1 && !c.caughtUp;
    var _ := c.DelayRequest(3000);
    var _ := c.SockWriteable(3000, 3000, 10, Done(10), true);
  }
}
