/** The byte-at-a-time meaning of the parser, independent of how the input was split. */
module HttpRun {
  import opened HttpTypes
  import opened HttpVisit

  datatype Status = Running | Failed | Halted

  /** log: every event and data byte up to where the run stopped. kept: what the callbacks
      have delivered of it. rest: the bytes that were not consumed. */
  datatype Result = Result(core: Core, log: Log, kept: Log, rest: seq<byte>, status: Status)

  /** What one visit adds to the deliveries. A callback that closes a run carries no byte of
      its own: the bytes of the run were delivered when they were taken. */
  function Record(c: Core, log: Log, v: Visit, ch: byte): Log {
    var closed := if v.closes.Some? && v.closes.value != Body then Deliver(log, v.closes.value, []) else log;
    var taken := match Taken(c.state, v) case Some(k) => Deliver(closed, k, [ch]) case None => closed;
    match v.notice case Some(n) => taken + [Notified(n)] case None => taken
  }

  /** Deliveries are complete except inside a run of data, which is called back at its end. */
  function Commit(s: State, log: Log, kept: Log): Log {
    if MarkKind(s).Some? then kept else log
  }

  function Run(c: Core, log: Log, kept: Log, s: seq<byte>, client: Client): (r: Result)
    requires Inv(c)
    ensures r.status.Running? ==> Inv(r.core) && r.rest == []
    ensures r.core.errno != HeaderOverflow
    ensures !r.status.Failed? ==> r.kept == r.log
    decreases |s|, Rank(c.state)
  {
    if s == [] then Result(c, log, log, [], Running)
    else
      VisitGood(c, s[0], client);
      var v := VisitByte(c, s[0], client);
      var log' := Record(c, log, v, s[0]);
      match v.next
      case Advance => Run(v.core, log', Commit(v.core.state, log', kept), s[1..], client)
      case Again => Run(v.core, log', Commit(v.core.state, log', kept), s, client)
      case Fail => Result(v.core, log, kept, s, Failed)
      case Halt => Result(v.core, log', log', s[1..], Halted)
  }

  lemma RunNothing(c: Core, log: Log, client: Client)
    requires Inv(c)
    ensures Run(c, log, log, [], client) == Result(c, log, log, [], Running)
  {
  }

  /** The outcome apart from what an error leaves undelivered. */
  function Outcome(r: Result): (Core, Log, seq<byte>, Status) { (r.core, r.log, r.rest, r.status) }

  /** The parser, the events and the bytes consumed do not depend on what was called back when. */
  lemma {:induction false} KeptIsIrrelevant(c: Core, log: Log, k1: Log, k2: Log, s: seq<byte>, client: Client)
    requires Inv(c)
    ensures Outcome(Run(c, log, k1, s, client)) == Outcome(Run(c, log, k2, s, client))
    decreases |s|, Rank(c.state)
  {
    if s != [] {
      VisitGood(c, s[0], client);
      var v := VisitByte(c, s[0], client);
      var log' := Record(c, log, v, s[0]);
      match v.next {
        case Advance =>
          KeptIsIrrelevant(v.core, log', Commit(v.core.state, log', k1), Commit(v.core.state, log', k2), s[1..],
                           client);
        case Again =>
          KeptIsIrrelevant(v.core, log', Commit(v.core.state, log', k1), Commit(v.core.state, log', k2), s, client);
        case Fail =>
        case Halt =>
      }
    }
  }

  /** Feeding b after a is feeding a + b: a run that stopped inside a stops there. */
  lemma {:induction false} RunSplits(c: Core, log: Log, kept: Log, a: seq<byte>, b: seq<byte>, client: Client)
    requires Inv(c)
    ensures var r := Run(c, log, kept, a, client);
            Outcome(Run(c, log, kept, a + b, client))
            == if r.status.Running? then Outcome(Run(r.core, r.log, r.log, b, client))
                else Outcome(r.(rest := r.rest + b))
    decreases |a|, Rank(c.state)
  {
    if a == [] {
      assert a + b == b;
      KeptIsIrrelevant(c, log, kept, log, b, client);
    } else {
      VisitGood(c, a[0], client);
      var v := VisitByte(c, a[0], client);
      var log' := Record(c, log, v, a[0]);
      assert (a + b)[1..] == a[1..] + b && (a + b)[0] == a[0];
      match v.next {
        case Advance => RunSplits(v.core, log', Commit(v.core.state, log', kept), a[1..], b, client);
        case Again => RunSplits(v.core, log', Commit(v.core.state, log', kept), a, b, client);
        case Fail =>
        case Halt =>
      }
    }
  }
}
