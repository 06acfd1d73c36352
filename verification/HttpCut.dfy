/** What a cut of the stream does to the data of a run that an error interrupts. */
module HttpCut {
  import opened HttpTypes
  import opened HttpVisit
  import opened HttpRun
  import opened HttpRoundTrip
  import HttpParser

  /** What had been called back when the bytes ran out, before the callbacks for the mark left over. */
  function Uncalled(c: Core, log: Log, kept: Log, s: seq<byte>, client: Client): Log
    requires Inv(c)
    decreases |s|, Rank(c.state)
  {
    if s == [] then kept
    else
      VisitGood(c, s[0], client);
      var v := VisitByte(c, s[0], client);
      var log' := Record(c, log, v, s[0]);
      match v.next
      case Advance => Uncalled(v.core, log', Commit(v.core.state, log', kept), s[1..], client)
      case Again => Uncalled(v.core, log', Commit(v.core.state, log', kept), s, client)
      case Fail => kept
      case Halt => log'
  }

  /** Some byte of s leaves the run of data that was open before s. */
  predicate Closes(c: Core, s: seq<byte>, client: Client)
    requires Inv(c)
    decreases |s|, Rank(c.state)
  {
    s != [] && (
      VisitGood(c, s[0], client);
      var v := VisitByte(c, s[0], client);
      match v.next
      case Advance => MarkKind(v.core.state).None? || Closes(v.core, s[1..], client)
      case Again => MarkKind(v.core.state).None? || Closes(v.core, s, client)
      case Fail => false
      case Halt => true)
  }

  lemma {:induction false} CutInside(c: Core, log: Log, kept: Log, a: seq<byte>, b: seq<byte>, client: Client)
    requires Inv(c) && Run(c, log, kept, a, client).status.Running?
    ensures var r := Run(c, log, kept, a, client);
            Run(c, log, kept, a + b, client) == Run(r.core, r.log, Uncalled(c, log, kept, a, client), b, client)
    decreases |a|, Rank(c.state)
  {
    if a == [] {
      assert a + b == b;
    } else {
      VisitGood(c, a[0], client);
      var v := VisitByte(c, a[0], client);
      var log' := Record(c, log, v, a[0]);
      assert (a + b)[1..] == a[1..] + b && (a + b)[0] == a[0];
      match v.next {
        case Advance => CutInside(v.core, log', Commit(v.core.state, log', kept), a[1..], b, client);
        case Again => CutInside(v.core, log', Commit(v.core.state, log', kept), a, b, client);
        case Fail =>
        case Halt =>
      }
    }
  }

  /** An error call delivers what was delivered before it, or else does not depend on it. */
  lemma {:induction false} ErrorKeeps(c: Core, log: Log, k1: Log, k2: Log, s: seq<byte>, client: Client)
    requires Inv(c) && Run(c, log, k1, s, client).status.Failed?
    ensures Run(c, log, k2, s, client).status.Failed?
    ensures if Closes(c, s, client) then Run(c, log, k1, s, client).kept == Run(c, log, k2, s, client).kept
            else Run(c, log, k1, s, client).kept == k1 && Run(c, log, k2, s, client).kept == k2
    decreases |s|, Rank(c.state)
  {
    if s != [] {
      VisitGood(c, s[0], client);
      var v := VisitByte(c, s[0], client);
      var log' := Record(c, log, v, s[0]);
      match v.next {
        case Advance =>
          ErrorKeeps(v.core, log', Commit(v.core.state, log', k1), Commit(v.core.state, log', k2), s[1..], client);
        case Again =>
          ErrorKeeps(v.core, log', Commit(v.core.state, log', k1), Commit(v.core.state, log', k2), s, client);
        case Fail =>
        case Halt =>
      }
    }
  }

  // ----- whether data was pending at the cut -------------------------------------------------

  /** After a the parser is inside a run of data, and the last byte of a belongs to it: it is in the
      middle of a url, a status, a header field or a header value, or it has read data of a chunk. */
  predicate Inside(c: Core, log: Log, a: seq<byte>, client: Client)
    requires Inv(c)
  {
    a != [] &&
    var s := Run(c, log, log, a, client).core.state;
    || OpenKind(s).Some? || s.ChunkDataAlmostDone?
    || (s.ChunkData? && Run(c, log, log, a[..|a| - 1], client).core.state.ChunkData?)
  }

  function Weight(log: Log): nat {
    if log == [] then 0
    else Weight(log[..|log| - 1]) + 1 + match log[|log| - 1] case Data(_, bytes) => |bytes| case Notified(_) => 0
  }

  lemma DeliverWeighs(log: Log, k: Kind, bs: seq<byte>)
    ensures Weight(log) + |bs| <= Weight(Deliver(log, k, bs))
  {
    var d := Deliver(log, k, bs);
    if |log| > 0 && log[|log| - 1].Data? && log[|log| - 1].kind == k {
      assert d[..|d| - 1] == log[..|log| - 1];
    } else {
      assert d[..|d| - 1] == log;
    }
  }

  lemma RecordWeighs(c: Core, log: Log, v: Visit, b: byte)
    ensures Weight(log) <= Weight(Record(c, log, v, b))
    ensures Taken(c.state, v).Some? ==> Weight(log) < Weight(Record(c, log, v, b))
  {
    hide Deliver, Taken;
    var closed := if v.closes.Some? && v.closes.value != Body then Deliver(log, v.closes.value, []) else log;
    if v.closes.Some? {
      DeliverWeighs(log, v.closes.value, []);
    }
    var taken := match Taken(c.state, v) case Some(k) => Deliver(closed, k, [b]) case None => closed;
    if Taken(c.state, v).Some? {
      DeliverWeighs(closed, Taken(c.state, v).value, [b]);
    }
    if v.notice.Some? {
      var l := taken + [Notified(v.notice.value)];
      assert l[..|l| - 1] == taken;
    }
  }

  /** What is called back is part of what is recorded, and all of it outside of runs. */
  predicate Behind(c: Core, log: Log, kept: Log) {
    Weight(kept) <= Weight(log) && (MarkKind(c.state).None? ==> kept == log)
  }

  lemma BehindNext(c: Core, log: Log, kept: Log, v: Visit, b: byte)
    requires Behind(c, log, kept)
    ensures var log' := Record(c, log, v, b); Behind(v.core, log', Commit(v.core.state, log', kept))
  {
    hide Record, MarkKind, Weight;
    RecordWeighs(c, log, v, b);
  }

  lemma {:induction false} UncalledBehind(c: Core, log: Log, kept: Log, s: seq<byte>, client: Client)
    requires Inv(c) && Behind(c, log, kept) && Run(c, log, kept, s, client).status.Running? && s != []
    ensures var r := Run(c, log, kept, s, client); Behind(r.core, r.log, Uncalled(c, log, kept, s, client))
    decreases |s|, Rank(c.state)
  {
    VisitGood(c, s[0], client);
    var v := VisitByte(c, s[0], client);
    var log' := Record(c, log, v, s[0]);
    BehindNext(c, log, kept, v, s[0]);
    hide VisitByte, Inv, Record, Behind, Commit;
    match v.next {
      case Advance =>
        if |s| > 1 {
          UncalledBehind(v.core, log', Commit(v.core.state, log', kept), s[1..], client);
        }
      case Again => UncalledBehind(v.core, log', Commit(v.core.state, log', kept), s, client);
      case Fail =>
      case Halt =>
    }
  }

  lemma {:induction false} UncalledSplits(c: Core, log: Log, kept: Log, a: seq<byte>, b: seq<byte>, client: Client)
    requires Inv(c) && Run(c, log, kept, a, client).status.Running?
    ensures var r := Run(c, log, kept, a, client);
            Uncalled(c, log, kept, a + b, client)
                == Uncalled(r.core, r.log, Uncalled(c, log, kept, a, client), b, client)
    decreases |a|, Rank(c.state)
  {
    if a == [] {
      assert a + b == b;
    } else {
      VisitGood(c, a[0], client);
      var v := VisitByte(c, a[0], client);
      var log' := Record(c, log, v, a[0]);
      assert (a + b)[1..] == a[1..] + b && (a + b)[0] == a[0];
      hide VisitByte, Inv, Record, Commit;
      match v.next {
        case Advance => UncalledSplits(v.core, log', Commit(v.core.state, log', kept), a[1..], b, client);
        case Again => UncalledSplits(v.core, log', Commit(v.core.state, log', kept), a, b, client);
        case Fail =>
        case Halt =>
      }
    }
  }

  lemma StatusLineElsewhere(c: Core, b: byte)
    requires Inv(c) && PhaseOf(c.state).StatusLine?
    ensures var s := VisitStatusLine(c, b).core.state; !s.ChunkData? && !s.ChunkDataAlmostDone?
  {
  }

  lemma UrlElsewhere(c: Core, from: State, b: byte)
    ensures var s := UrlStep(c, from, b).core.state; !s.ChunkData? && !s.ChunkDataAlmostDone?
    ensures var s := UrlEndOrStep(c, b).core.state; !s.ChunkData? && !s.ChunkDataAlmostDone?
  {
    hide UrlChar;
  }

  lemma RequestLineElsewhere(c: Core, b: byte)
    requires Inv(c) && PhaseOf(c.state).RequestLine?
    ensures var s := VisitRequestLine(c, b).core.state; !s.ChunkData? && !s.ChunkDataAlmostDone?
  {
    hide Inv, FirstMethod, Sibling, MethodString, IsAlpha, IsNum, UrlStep, UrlEndOrStep;
    UrlElsewhere(c, c.state, b);
    UrlElsewhere(c, ReqServerStart, b);
  }

  lemma StartValueElsewhere(c: Core, b: byte)
    ensures var s := StartValue(c, b).core.state; s == c.state || s.HeaderValue? || s.HeaderAlmostDone?
  {
  }

  lemma HeadersElsewhere(c: Core, b: byte, client: Client)
    requires Inv(c) && PhaseOf(c.state).Headers?
    ensures var s := VisitHeader(c, b, client).core.state; !s.ChunkData? && !s.ChunkDataAlmostDone?
  {
    hide Inv, FieldStep, ValueStep, Acc, FinishFlags, Token, FirstFieldState, MessageNeedsEof, StartValue;
    StartValueElsewhere(c, b);
  }

  lemma BodiesInto(c: Core, b: byte, client: Client)
    requires Inv(c) && PhaseOf(c.state).Bodies?
    ensures var v := VisitBody(c, b, client);
            && (v.core.state.ChunkData? && !v.next.Fail? ==>
                v.next.Advance? && (c.state.ChunkData? || c.state.ChunkSizeAlmostDone?))
            && (v.core.state.ChunkDataAlmostDone? && !v.next.Fail? ==> v.next.Advance? && c.state.ChunkData?)
  {
  }

  /** How the data of a chunk is entered and left. */
  lemma IntoChunk(c: Core, b: byte, client: Client)
    requires Inv(c)
    ensures var v := VisitByte(c, b, client);
            && (v.core.state.ChunkData? && !v.next.Fail? ==>
                v.next.Advance? && (c.state.ChunkData? || c.state.ChunkSizeAlmostDone?))
            && (v.core.state.ChunkDataAlmostDone? && !v.next.Fail? ==> v.next.Advance? && c.state.ChunkData?)
  {
    hide VisitStatusLine, VisitRequestLine, VisitHeader, VisitBody, Inv, PhaseOf;
    match PhaseOf(c.state)
    case StatusLine => StatusLineElsewhere(c, b);
    case RequestLine => RequestLineElsewhere(c, b);
    case Headers => HeadersElsewhere(c, b, client);
    case Bodies => BodiesInto(c, b, client);
  }

  /** A last byte that leaves the parser in a run is recorded but not called back. */
  lemma {:induction false} LastByte(c: Core, log: Log, kept: Log, b: byte, client: Client)
    requires Inv(c) && Behind(c, log, kept) && Run(c, log, kept, [b], client).status.Running?
    ensures var r := Run(c, log, kept, [b], client);
            var s := r.core.state;
            s.BodyIdentity? || s.BodyIdentityEof?
            || (Uncalled(c, log, kept, [b], client) != r.log
                <==> OpenKind(s).Some? || s.ChunkDataAlmostDone? || (s.ChunkData? && c.state.ChunkData?))
    decreases Rank(c.state)
  {
    VisitGood(c, b, client);
    IntoChunk(c, b, client);
    var v := VisitByte(c, b, client);
    var log' := Record(c, log, v, b);
    BehindNext(c, log, kept, v, b);
    RecordWeighs(c, log, v, b);
    assert [b][1..] == [];
    match v.next {
      case Advance => TakenLast(c, log, kept, v, b);
      case Again =>
        hide VisitByte, Inv, Record, Behind, Commit;
        LastByte(v.core, log', Commit(v.core.state, log', kept), b, client);
      case Fail =>
      case Halt =>
    }
  }

  lemma TakenLast(c: Core, log: Log, kept: Log, v: Visit, b: byte)
    requires MarksFollow(c, v) && v.next.Advance? && Behind(c, log, kept)
    requires v.core.state.ChunkData? ==> c.state.ChunkData? || c.state.ChunkSizeAlmostDone?
    requires v.core.state.ChunkDataAlmostDone? ==> c.state.ChunkData?
    ensures var s := v.core.state;
            var log' := Record(c, log, v, b);
            s.BodyIdentity? || s.BodyIdentityEof?
            || (Commit(s, log', kept) != log'
                <==> OpenKind(s).Some? || s.ChunkDataAlmostDone? || (s.ChunkData? && c.state.ChunkData?))
  {
    RecordWeighs(c, log, v, b);
    hide Deliver, Weight;
  }

  /** Something recorded before the cut has not been called back exactly when the cut is inside a run. */
  lemma PendingInside(c: Core, log: Log, a: seq<byte>, client: Client)
    requires Inv(c) && Run(c, log, log, a, client).status.Running?
    ensures var r := Run(c, log, log, a, client);
            r.core.state.BodyIdentity? || r.core.state.BodyIdentityEof?
            || (Uncalled(c, log, log, a, client) != r.log <==> Inside(c, log, a, client))
  {
    hide Run, Uncalled, OpenKind, Behind;
    if a == [] {
      RunNothing(c, log, client);
      UncalledNothing(c, log, log, client);
    } else {
      var front, b := a[..|a| - 1], a[|a| - 1];
      assert front + [b] == a;
      RunSplits(c, log, log, front, [b], client);
      var r0 := Run(c, log, log, front, client);
      var kept := Uncalled(c, log, log, front, client);
      assert Behind(c, log, log) by { BehindAll(c, log); }
      if front == [] {
        RunNothing(c, log, client);
        UncalledNothing(c, log, log, client);
      } else {
        UncalledBehind(c, log, log, front, client);
      }
      UncalledSplits(c, log, log, front, [b], client);
      KeptIsIrrelevant(r0.core, r0.log, r0.log, kept, [b], client);
      LastByte(r0.core, r0.log, kept, b, client);
    }
  }

  lemma BehindAll(c: Core, log: Log)
    ensures Behind(c, log, log)
  {
  }

  lemma UncalledNothing(c: Core, log: Log, kept: Log, client: Client)
    requires Inv(c)
    ensures Uncalled(c, log, kept, [], client) == kept
  {
  }

  /** A body of known length, or until the connection closes, has no errors inside. */
  lemma {:induction false} BodyCloses(c: Core, log: Log, kept: Log, s: seq<byte>, client: Client)
    requires Inv(c) && (c.state.BodyIdentity? || c.state.BodyIdentityEof?)
             && Run(c, log, kept, s, client).status.Failed?
    ensures Closes(c, s, client)
    decreases |s|
  {
    VisitGood(c, s[0], client);
    HttpParser.BodyVisit(c, 0, s[0], client);
    HttpParser.EatenState(c, 1);
    var v := VisitByte(c, s[0], client);
    var log' := Record(c, log, v, s[0]);
    hide VisitByte, Inv, Record, Commit;
    if v.next.Advance? {
      BodyCloses(v.core, log', Commit(v.core.state, log', kept), s[1..], client);
    }
  }

  /** A stream with an error: cutting it after a changes the delivered data exactly when the cut is
      inside a run of data, and the error comes before the end of that run. */
  lemma ErrorDataDependsOnCut(c: Core, log: Log, a: seq<byte>, b: seq<byte>, client: Client)
    requires Inv(c) && Run(c, log, log, a, client).status.Running?
    requires Run(c, log, log, a + b, client).status.Failed?
    ensures var r := Run(c, log, log, a, client);
            && Run(r.core, r.log, r.log, b, client).status.Failed?
            && (Run(c, log, log, a + b, client).kept == Run(r.core, r.log, r.log, b, client).kept
                <==> Closes(r.core, b, client) || !Inside(c, log, a, client))
  {
    hide Run, Uncalled, Closes, Inside;
    var r := Run(c, log, log, a, client);
    CutInside(c, log, log, a, b, client);
    ErrorKeeps(r.core, r.log, Uncalled(c, log, log, a, client), r.log, b, client);
    PendingInside(c, log, a, client);
    if r.core.state.BodyIdentity? || r.core.state.BodyIdentityEof? {
      BodyCloses(r.core, r.log, r.log, b, client);
    }
  }

  // ----- an example ---------------------------------------------------------------------------

  /** The parser after "GET ". */
  function AfterGet(): Core {
    StartMessage(InitCore(Request)).(verb := Get, index := 4, state := ReqSpacesBeforeUrl)
  }

  lemma FirstLetter()
    ensures var c := StartMessage(InitCore(Request)).(verb := Get, index := 1, state := ReqMethod);
            Reaches(InitCore(Request), [], [71], c, [Notified(MessageBegin)], Passive)
  {
    var c := InitCore(Request);
    var v := VisitByte(c, 71, Passive);
    assert v == Begin(StartMessage(c).(verb := Get, index := 1), ReqMethod);
    assert Record(c, [], v, 71) == [Notified(MessageBegin)];
    Byte(c, [], 71, v, Passive);
  }

  /** One more letter of the method's name. */
  lemma MethodByte(c0: Core, s: seq<byte>, c: Core, log: Log, b: byte)
    requires Reaches(c0, [], s, c, log, Passive)
    requires c.state.ReqMethod? && c.verb.Get? && c.index < 4 && b == [71, 69, 84, SP][c.index]
    ensures Reaches(c0, [], s + [b],
                    c.(index := c.index + 1, state := if b == SP then ReqSpacesBeforeUrl else ReqMethod),
                    log, Passive)
  {
    InvOf(c0, [], s, c, log, Passive);
    var v := VisitByte(c, b, Passive);
    assert v == VisitRequestLine(c, b);
    assert Record(c, log, v, b) == log;
    ThenByte(c0, [], s, c, log, b, v, Passive);
  }

  lemma GetRead()
    ensures Reaches(InitCore(Request), [], [71, 69, 84, SP], AfterGet(), [Notified(MessageBegin)], Passive)
  {
    hide Reaches;
    var c := InitCore(Request);
    var log := [Notified(MessageBegin)];
    var c1 := StartMessage(c).(verb := Get, index := 1, state := ReqMethod);
    FirstLetter();
    MethodByte(c, [71], c1, log, 69);
    MethodByte(c, [71] + [69], c1.(index := 2), log, 84);
    MethodByte(c, [71] + [69] + [84], c1.(index := 3), log, SP);
    assert [71] + [69] + [84] + [SP] == [71, 69, 84, SP];
  }

  /** A byte that stays in the run of the url. */
  lemma UrlByte(c: Core, log: Log, kept: Log, b: byte, s: seq<byte>)
    requires Inv(c) && IsUrlChar(b)
             && (c.state.ReqPath? || (c.state.ReqSpacesBeforeUrl? && b == SLASH && !c.verb.Connect?))
    ensures var c1 := c.(state := ReqPath);
            && Reaches(c, log, [b], c1, Deliver(log, Url, [b]), Passive)
            && Uncalled(c, log, kept, [b] + s, Passive) == Uncalled(c1, Deliver(log, Url, [b]), kept, s, Passive)
  {
    var v := VisitByte(c, b, Passive);
    assert v.core == c.(state := ReqPath) && v.next.Advance? && v.closes.None? && v.notice.None?;
    VisitGood(c, b, Passive);
    assert ([b] + s)[0] == b && ([b] + s)[1..] == s;
    hide VisitByte, Inv, Deliver;
    Byte(c, log, b, v, Passive);
  }

  /** Of "/x" nothing is called back before the url ends. */
  lemma UrlRead()
    ensures var log := [Notified(MessageBegin)];
            && Inv(AfterGet()) && Uncalled(AfterGet(), log, log, [SLASH, 120], Passive) == log
            && Reaches(AfterGet(), log, [SLASH, 120], AfterGet().(state := ReqPath), log + [Data(Url, [SLASH, 120])],
                       Passive)
  {
    hide Reaches, Uncalled, Inv;
    GetRead();
    var log := [Notified(MessageBegin)];
    var log1 := Deliver(log, Url, [SLASH]);
    var c := AfterGet();
    var c1 := c.(state := ReqPath);
    InvOf(InitCore(Request), [], [71, 69, 84, SP], c, log, Passive);
    UrlByte(c, log, log, SLASH, [120]);
    InvOf(c, log, [SLASH], c1, log1, Passive);
    UrlByte(c1, log1, log, 120, []);
    assert [SLASH] + [120] == [SLASH, 120] && [120] + [] == [120];
    assert log1[..1] == log;
    Then(c, log, [SLASH], c1, log1, [120], c1, Deliver(log1, Url, [120]), Passive);
    InvOf(c1, log1, [120], c1, Deliver(log1, Url, [120]), Passive);
    UncalledNothing(c1, Deliver(log1, Url, [120]), log, Passive);
  }

  /** Such a cut exists, in a stream read from its beginning: a control byte after "GET /x". In one
      call on_url is told nothing, with a cut before the control byte it is told "/x". */
  lemma CutUrlExample()
    ensures var c := InitCore(Request);
            var a: seq<byte> := [71, 69, 84, SP, SLASH, 120];
            && Inv(c) && Run(c, [], [], a + [1], Passive).status.Failed?
            && Run(c, [], [], a + [1], Passive).kept == [Notified(MessageBegin)]
            && var r := Run(c, [], [], a, Passive);
               && r.status.Running? && r.log == [Notified(MessageBegin), Data(Url, [SLASH, 120])]
               && Run(r.core, r.log, r.log, [1], Passive).kept == [Notified(MessageBegin), Data(Url, [SLASH, 120])]
  {
    GetRead();
    UrlRead();
    var c := InitCore(Request);
    var get: seq<byte> := [71, 69, 84, SP];
    var log := [Notified(MessageBegin)];
    var log2 := log + [Data(Url, [SLASH, 120])];
    var c2 := AfterGet().(state := ReqPath);
    hide Uncalled, Weight;
    Then(c, [], get, AfterGet(), log, [SLASH, 120], c2, log2, Passive);
    assert get + [SLASH, 120] == [71, 69, 84, SP, SLASH, 120];
    BehindAll(c, []);
    UncalledBehind(c, [], [], get, Passive);
    UncalledSplits(c, [], [], get, [SLASH, 120], Passive);
    CutInside(c, [], [], get + [SLASH, 120], [1], Passive);
    ControlByte(c2, log2, log);
    ControlByte(c2, log2, log2);
  }

  lemma ControlByte(c: Core, log: Log, kept: Log)
    requires Inv(c) && c.state.ReqPath?
    ensures var r := Run(c, log, kept, [1], Passive); r.status.Failed? && r.kept == kept
  {
    assert VisitByte(c, 1, Passive) == Error(c.(state := Dead), InvalidUrl);
  }
}
