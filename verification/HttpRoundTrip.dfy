/** Parsing a printed message delivers the message. */
module HttpRoundTrip {
  import opened HttpTypes
  import opened HttpVisit
  import opened HttpRun
  import opened HttpMessage

  /** Reading exactly s takes the parser from c to c2 and the deliveries from log to log2. */
  ghost predicate Reaches(c: Core, log: Log, s: seq<byte>, c2: Core, log2: Log, client: Client) {
    Inv(c) && Inv(c2) && Run(c, log, log, s, client) == Result(c2, log2, log2, [], Running)
  }

  lemma Nothing(c: Core, log: Log, client: Client)
    requires Inv(c)
    ensures Reaches(c, log, [], c, log, client)
  {
  }

  lemma Then(c: Core, log: Log, a: seq<byte>, c1: Core, log1: Log, b: seq<byte>, c2: Core, log2: Log, client: Client)
    requires Reaches(c, log, a, c1, log1, client) && Reaches(c1, log1, b, c2, log2, client)
    ensures Reaches(c, log, a + b, c2, log2, client)
  {
    hide Inv;
    RunSplits(c, log, log, a, b, client);
  }

  lemma InvOf(c0: Core, log0: Log, s: seq<byte>, c: Core, log: Log, client: Client)
    requires Reaches(c0, log0, s, c, log, client)
    ensures Inv(c0) && Inv(c)
  {
  }

  lemma Byte(c: Core, log: Log, b: byte, v: Visit, client: Client)
    requires Inv(c) && v == VisitByte(c, b, client) && v.next.Advance?
    ensures Reaches(c, log, [b], v.core, Record(c, log, v, b), client)
  {
    VisitGood(c, b, client);
  }

  lemma ThenByte(c: Core, log: Log, a: seq<byte>, c1: Core, log1: Log, b: byte, v: Visit, client: Client)
    requires Reaches(c, log, a, c1, log1, client) && v == VisitByte(c1, b, client) && v.next.Advance?
    ensures Reaches(c, log, a + [b], v.core, Record(c1, log1, v, b), client)
  {
    hide Run, VisitByte;
    Byte(c1, log1, b, v, client);
    Then(c, log, a, c1, log1, [b], v.core, Record(c1, log1, v, b), client);
  }

  /** A byte that is first looked at in c and then again in the state c leads to. */
  lemma Again1(c: Core, log: Log, b: byte, v: Visit, c2: Core, log2: Log, client: Client)
    requires Inv(c) && v == VisitByte(c, b, client) && v.next.Again?
    requires Reaches(v.core, Record(c, log, v, b), [b], c2, log2, client)
    ensures Reaches(c, log, [b], c2, log2, client)
  {
    VisitGood(c, b, client);
    var log1 := Record(c, log, v, b);
    assert Run(c, log, log, [b], client) == Run(v.core, log1, Commit(v.core.state, log1, log), [b], client);
    hide VisitByte, Inv;
    KeptIsIrrelevant(v.core, log1, log1, Commit(v.core.state, log1, log), [b], client);
  }

  // ----- the status line --------------------------------------------------------------

  /** A visit that only changes the state: no data, no events. */
  lemma Silent(c: Core, log: Log, v: Visit, b: byte)
    requires v.closes.None? && v.notice.None? && v.next.Advance? && !BodyByte(c.state) && OpenKind(v.core.state).None?
    ensures Record(c, log, v, b) == log
  {
  }

  lemma Version(c: Core, log: Log, client: Client)
    requires Inv(c) && c.state.StartRes?
    ensures var c1 := StartMessage(c).(state := ResFirstHttpMajor);
            Reaches(c, log, [72, 84, 84, 80, SLASH], c1, log + [Notified(MessageBegin)], client)
  {
    var c1 := StartMessage(c).(state := ResH);
    var log1 := log + [Notified(MessageBegin)];
    var v1 := VisitByte(c, 72, client);
    assert v1 == Begin(StartMessage(c), ResH);
    assert Record(c, log, v1, 72) == log1;
    Byte(c, log, 72, v1, client);
    hide Run, Inv, VisitByte, Record;
    HT(c, log, [72], c1, log1, client);
  }

  lemma HT(c0: Core, log0: Log, s: seq<byte>, c: Core, log: Log, client: Client)
    requires Reaches(c0, log0, s, c, log, client) && c.state.ResH?
    ensures Reaches(c0, log0, s + [84, 84, 80, SLASH], c.(state := ResFirstHttpMajor), log, client)
  {
    var v1 := VisitByte(c, 84, client);
    assert v1 == Go(c, ResHT);
    Silent(c, log, v1, 84);
    ThenByte(c0, log0, s, c, log, 84, v1, client);
    hide Run, Inv, Record, VisitByte;
    HTT(c0, log0, s + [84], v1.core, log, client);
    assert s + [84] + [84, 80, SLASH] == s + [84, 84, 80, SLASH];
  }

  lemma HTT(c0: Core, log0: Log, s: seq<byte>, c: Core, log: Log, client: Client)
    requires Reaches(c0, log0, s, c, log, client) && c.state.ResHT?
    ensures Reaches(c0, log0, s + [84, 80, SLASH], c.(state := ResFirstHttpMajor), log, client)
  {
    var v1 := VisitByte(c, 84, client);
    assert v1 == Go(c, ResHTT);
    Silent(c, log, v1, 84);
    ThenByte(c0, log0, s, c, log, 84, v1, client);
    hide Run, Inv, Record, VisitByte;
    HTTP(c0, log0, s + [84], v1.core, log, client);
    assert s + [84] + [80, SLASH] == s + [84, 80, SLASH];
  }

  lemma HTTP(c0: Core, log0: Log, s: seq<byte>, c: Core, log: Log, client: Client)
    requires Reaches(c0, log0, s, c, log, client) && c.state.ResHTT?
    ensures Reaches(c0, log0, s + [80, SLASH], c.(state := ResFirstHttpMajor), log, client)
  {
    var v1 := VisitByte(c, 80, client);
    var c1 := c.(state := ResHTTP);
    assert v1 == Go(c, ResHTTP);
    Silent(c, log, v1, 80);
    ThenByte(c0, log0, s, c, log, 80, v1, client);
    var v2 := VisitByte(c1, SLASH, client);
    assert v2 == Go(c1, ResFirstHttpMajor);
    Silent(c1, log, v2, SLASH);
    ThenByte(c0, log0, s + [80], c1, log, SLASH, v2, client);
    assert s + [80] + [SLASH] == s + [80, SLASH];
  }

  lemma DecFront(s: seq<byte>)
    requires Digits(s)
    ensures forall b <- s[..|s| - 1] :: IsNum(b)
    ensures Dec(s) == Dec(s[..|s| - 1]) * 10 + (s[|s| - 1] as int - 48) && 0 <= s[|s| - 1] as int - 48 <= 9
  {
    assert IsNum(s[|s| - 1]);
  }

  lemma DecNone()
    ensures Dec([]) == 0
  {
  }

  lemma {:induction false} Major(c0: Core, log0: Log, pre: seq<byte>, c: Core, log: Log, s: seq<byte>, client: Client)
    requires Reaches(c0, log0, pre, c, log, client) && c.state.ResFirstHttpMajor? && Digits(s) && Dec(s) <= 999
    ensures Reaches(c0, log0, pre + s, c.(state := ResHttpMajor, major := Dec(s)), log, client)
  {
    InvOf(c0, log0, pre, c, log, client);
    hide Run, Inv, Record, Reaches, Dec, VisitByte;
    var n := |s|;
    DecFront(s);
    if n == 1 {
      MajorDigit(c, log, s[0], Dec(s), client);
      DecNone();
      assert s == [s[0]] && s[..0] == [];
      ThenByte(c0, log0, pre, c, log, s[0], VisitByte(c, s[0], client), client);
    } else {
      var front := s[..n - 1];
      Major(c0, log0, pre, c, log, front, client);
      var c1 := c.(state := ResHttpMajor, major := Dec(front));
      MajorDigit(c1, log, s[n - 1], Dec(s), client);
      ThenByte(c0, log0, pre + front, c1, log, s[n - 1], VisitByte(c1, s[n - 1], client), client);
      assert pre + front + [s[n - 1]] == pre + s;
    }
  }

  lemma MajorDigit(c: Core, log: Log, b: byte, value: nat, client: Client)
    requires IsNum(b) && (c.state.ResFirstHttpMajor? || c.state.ResHttpMajor?) && value <= 999 && Inv(c)
    requires value == (if c.state.ResFirstHttpMajor? then 0 else c.major * 10) + (b as int - 48)
    ensures var v := VisitByte(c, b, client);
            v.core == c.(state := ResHttpMajor, major := value) && v.next.Advance? && Record(c, log, v, b) == log
  {
  }

  lemma {:induction false} Minor(c0: Core, log0: Log, pre: seq<byte>, c: Core, log: Log, s: seq<byte>, client: Client)
    requires Reaches(c0, log0, pre, c, log, client) && c.state.ResFirstHttpMinor? && Digits(s) && Dec(s) <= 999
    ensures Reaches(c0, log0, pre + s, c.(state := ResHttpMinor, minor := Dec(s)), log, client)
  {
    InvOf(c0, log0, pre, c, log, client);
    hide Run, Inv, Record, Reaches, Dec, VisitByte;
    var n := |s|;
    DecFront(s);
    if n == 1 {
      MinorDigit(c, log, s[0], Dec(s), client);
      DecNone();
      assert s == [s[0]] && s[..0] == [];
      ThenByte(c0, log0, pre, c, log, s[0], VisitByte(c, s[0], client), client);
    } else {
      var front := s[..n - 1];
      Minor(c0, log0, pre, c, log, front, client);
      var c1 := c.(state := ResHttpMinor, minor := Dec(front));
      MinorDigit(c1, log, s[n - 1], Dec(s), client);
      ThenByte(c0, log0, pre + front, c1, log, s[n - 1], VisitByte(c1, s[n - 1], client), client);
      assert pre + front + [s[n - 1]] == pre + s;
    }
  }

  lemma MinorDigit(c: Core, log: Log, b: byte, value: nat, client: Client)
    requires IsNum(b) && (c.state.ResFirstHttpMinor? || c.state.ResHttpMinor?) && value <= 999 && Inv(c)
    requires value == (if c.state.ResFirstHttpMinor? then 0 else c.minor * 10) + (b as int - 48)
    ensures var v := VisitByte(c, b, client);
            v.core == c.(state := ResHttpMinor, minor := value) && v.next.Advance? && Record(c, log, v, b) == log
  {
  }

  lemma {:induction false} Code(c0: Core, log0: Log, pre: seq<byte>, c: Core, log: Log, s: seq<byte>, client: Client)
    requires Reaches(c0, log0, pre, c, log, client) && c.state.ResFirstStatusCode? && Digits(s) && Dec(s) <= 999
    ensures Reaches(c0, log0, pre + s, c.(state := ResStatusCode, status := Dec(s)), log, client)
  {
    InvOf(c0, log0, pre, c, log, client);
    hide Run, Inv, Record, Reaches, Dec, VisitByte;
    var n := |s|;
    DecFront(s);
    if n == 1 {
      CodeDigit(c, log, s[0], Dec(s), client);
      DecNone();
      assert s == [s[0]] && s[..0] == [];
      ThenByte(c0, log0, pre, c, log, s[0], VisitByte(c, s[0], client), client);
    } else {
      var front := s[..n - 1];
      Code(c0, log0, pre, c, log, front, client);
      var c1 := c.(state := ResStatusCode, status := Dec(front));
      CodeDigit(c1, log, s[n - 1], Dec(s), client);
      ThenByte(c0, log0, pre + front, c1, log, s[n - 1], VisitByte(c1, s[n - 1], client), client);
      assert pre + front + [s[n - 1]] == pre + s;
    }
  }

  lemma CodeDigit(c: Core, log: Log, b: byte, value: nat, client: Client)
    requires IsNum(b) && (c.state.ResFirstStatusCode? || c.state.ResStatusCode?) && value <= 999 && Inv(c)
    requires value == (if c.state.ResFirstStatusCode? then 0 else c.status * 10) + (b as int - 48)
    ensures var v := VisitByte(c, b, client);
            v.core == c.(state := ResStatusCode, status := value) && v.next.Advance? && Record(c, log, v, b) == log
  {
  }

  /** A byte that moves the parser on without data or events. */
  lemma MoveOn(c0: Core, log0: Log, pre: seq<byte>, c: Core, log: Log, b: byte, s: State, client: Client)
    requires Reaches(c0, log0, pre, c, log, client) && VisitByte(c, b, client) == Go(c, s)
    requires !BodyByte(c.state) && OpenKind(s).None?
    ensures Reaches(c0, log0, pre + [b], c.(state := s), log, client)
  {
    InvOf(c0, log0, pre, c, log, client);
    hide Run, Inv, VisitByte, Reaches;
    var v := VisitByte(c, b, client);
    Silent(c, log, v, b);
    ThenByte(c0, log0, pre, c, log, b, v, client);
  }

  function StatusCore(c: Core, major: seq<byte>, minor: seq<byte>, code: seq<byte>): Core
    requires GoodNumber(major) && GoodNumber(minor) && GoodNumber(code)
  {
    StartMessage(c).(state := ResStatusCode, major := Dec(major), minor := Dec(minor), status := Dec(code))
  }

  lemma Numbers(c0: Core, log0: Log, pre: seq<byte>, c: Core, log: Log, major: seq<byte>, minor: seq<byte>, gap: nat,
                code: seq<byte>, client: Client)
    requires Reaches(c0, log0, pre, c, log, client) && c.state.ResFirstHttpMajor?
    requires GoodNumber(major) && GoodNumber(minor) && GoodNumber(code)
    ensures Reaches(c0, log0, pre + major + [DOT] + minor + [SP] + Spaces(gap) + code,
                    c.(state := ResStatusCode, major := Dec(major), minor := Dec(minor), status := Dec(code)), log,
                    client)
  {
    hide Run, Inv, Reaches, Dec, Record, Spaces;
    Major(c0, log0, pre, c, log, major, client);
    var c2 := c.(state := ResHttpMajor, major := Dec(major));
    DotAfterMajor(c0, log0, pre + major, c2, log, client);
    var c3 := c2.(state := ResFirstHttpMinor);
    Minor(c0, log0, pre + major + [DOT], c3, log, minor, client);
    var c4 := c3.(state := ResHttpMinor, minor := Dec(minor));
    SpaceAfterMinor(c0, log0, pre + major + [DOT] + minor, c4, log, client);
    var c5 := c4.(state := ResFirstStatusCode);
    SpacesRead(c0, log0, pre + major + [DOT] + minor + [SP], c5, log, gap, client);
    Code(c0, log0, pre + major + [DOT] + minor + [SP] + Spaces(gap), c5, log, code, client);
  }

  /** Further spaces before the code. */
  lemma {:induction false} SpacesRead(c0: Core, log0: Log, pre: seq<byte>, c: Core, log: Log, n: nat, client: Client)
    requires Reaches(c0, log0, pre, c, log, client) && c.state.ResFirstStatusCode?
    ensures Reaches(c0, log0, pre + Spaces(n), c, log, client)
  {
    if n == 0 {
      assert pre + Spaces(0) == pre;
    } else {
      SpacesRead(c0, log0, pre, c, log, n - 1, client);
      InvOf(c0, log0, pre + Spaces(n - 1), c, log, client);
      assert VisitByte(c, SP, client) == Go(c, ResFirstStatusCode);
      hide Run, Inv, VisitByte, Reaches;
      MoveOn(c0, log0, pre + Spaces(n - 1), c, log, SP, ResFirstStatusCode, client);
      assert pre + Spaces(n - 1) + [SP] == pre + Spaces(n);
    }
  }

  lemma DotAfterMajor(c0: Core, log0: Log, pre: seq<byte>, c: Core, log: Log, client: Client)
    requires Reaches(c0, log0, pre, c, log, client) && c.state.ResHttpMajor?
    ensures Reaches(c0, log0, pre + [DOT], c.(state := ResFirstHttpMinor), log, client)
  {
    MoveOn(c0, log0, pre, c, log, DOT, ResFirstHttpMinor, client);
  }

  lemma SpaceAfterMinor(c0: Core, log0: Log, pre: seq<byte>, c: Core, log: Log, client: Client)
    requires Reaches(c0, log0, pre, c, log, client) && c.state.ResHttpMinor?
    ensures Reaches(c0, log0, pre + [SP], c.(state := ResFirstStatusCode), log, client)
  {
    MoveOn(c0, log0, pre, c, log, SP, ResFirstStatusCode, client);
  }

  lemma ReasonByte(c: Core, log: Log, b: byte, client: Client)
    requires Inv(c) && (c.state.ResStatusStart? || c.state.ResStatus?) && b != CR && b != LF
    ensures var v := VisitByte(c, b, client);
            v.next.Advance? && v.core == (if c.state.ResStatusStart? then c.(state := ResStatus, index := 0) else c)
            && Record(c, log, v, b) == Deliver(log, Status, [b])
  {
  }

  lemma {:induction false} Reason(c0: Core, log0: Log, pre: seq<byte>, c: Core, log: Log, r: seq<byte>, client: Client)
    requires Reaches(c0, log0, pre, c, log, client) && c.state.ResStatusStart? && GoodReason(r) && |r| > 0
    ensures Reaches(c0, log0, pre + r, c.(state := ResStatus, index := 0), Deliver(log, Status, r), client)
  {
    var c1 := c.(state := ResStatus, index := 0);
    InvOf(c0, log0, pre, c, log, client);
    hide Run, Inv, Record, Reaches, VisitByte, Deliver;
    var n := |r|;
    var front := r[..n - 1];
    var b := r[n - 1];
    assert b in r && forall x <- front :: x in r;
    if n == 1 {
      ReasonByte(c, log, b, client);
      ThenByte(c0, log0, pre, c, log, b, VisitByte(c, b, client), client);
      assert r == [b];
    } else {
      Reason(c0, log0, pre, c, log, front, client);
      InvOf(c0, log0, pre + front, c1, Deliver(log, Status, front), client);
      ReasonByte(c1, Deliver(log, Status, front), b, client);
      ThenByte(c0, log0, pre + front, c1, Deliver(log, Status, front), b, VisitByte(c1, b, client), client);
      DeliverJoins(log, Status, front, [b]);
      assert r == front + [b] && pre + front + [b] == pre + r;
    }
  }

  /** A line end after a run of data of kind k. */
  lemma CloseByte(c0: Core, log0: Log, pre: seq<byte>, c: Core, log: Log, k: Kind, bs: seq<byte>, b: byte, s: State,
                  client: Client)
    requires Reaches(c0, log0, pre, c, Deliver(log, k, bs), client) && k != Body
    requires VisitByte(c, b, client) == Go(c, s).(closes := Some(k)) && !BodyByte(c.state) && OpenKind(s).None?
    ensures Reaches(c0, log0, pre + [b], c.(state := s), Deliver(log, k, bs), client)
  {
    InvOf(c0, log0, pre, c, Deliver(log, k, bs), client);
    hide Run, Inv, VisitByte, Reaches;
    var v := VisitByte(c, b, client);
    DeliverJoins(log, k, bs, []);
    assert bs + [] == bs;
    assert Record(c, Deliver(log, k, bs), v, b) == Deliver(log, k, bs);
    ThenByte(c0, log0, pre, c, Deliver(log, k, bs), b, v, client);
  }

  /** A line end, as a line feed in c and as CR and LF, where nothing is delivered. */
  lemma EolRead(c0: Core, log0: Log, pre: seq<byte>, c: Core, log: Log, eol: Eol, mid: State, end: State,
                client: Client)
    requires Reaches(c0, log0, pre, c, log, client) && !BodyByte(c.state) && !BodyByte(mid)
    requires OpenKind(mid).None? && OpenKind(end).None?
    requires Inv(c) ==> VisitByte(c, CR, client) == Go(c, mid) && VisitByte(c, LF, client) == Go(c, end)
    requires Inv(c.(state := mid)) ==> VisitByte(c.(state := mid), LF, client) == Go(c.(state := mid), end)
    ensures Reaches(c0, log0, pre + PrintEol(eol), c.(state := end), log, client)
  {
    InvOf(c0, log0, pre, c, log, client);
    hide Run, Inv, VisitByte, Reaches;
    if eol.CrLf? {
      var c1 := c.(state := mid);
      MoveOn(c0, log0, pre, c, log, CR, mid, client);
      InvOf(c0, log0, pre + [CR], c1, log, client);
      MoveOn(c0, log0, pre + [CR], c1, log, LF, end, client);
      assert pre + [CR] + [LF] == pre + PrintEol(eol);
    } else {
      MoveOn(c0, log0, pre, c, log, LF, end, client);
    }
  }

  /** A line end behind a run of data of kind k. */
  lemma EolCloses(c0: Core, log0: Log, pre: seq<byte>, c: Core, log: Log, k: Kind, bs: seq<byte>, eol: Eol, mid: State,
                  end: State, client: Client)
    requires Reaches(c0, log0, pre, c, Deliver(log, k, bs), client) && k != Body
    requires !BodyByte(c.state) && !BodyByte(mid) && OpenKind(mid).None? && OpenKind(end).None?
    requires Inv(c) ==>
               && VisitByte(c, CR, client) == Go(c, mid).(closes := Some(k))
               && VisitByte(c, LF, client) == Go(c, end).(closes := Some(k))
    requires Inv(c.(state := mid)) ==> VisitByte(c.(state := mid), LF, client) == Go(c.(state := mid), end)
    ensures Reaches(c0, log0, pre + PrintEol(eol), c.(state := end), Deliver(log, k, bs), client)
  {
    InvOf(c0, log0, pre, c, Deliver(log, k, bs), client);
    hide Run, Inv, VisitByte, Reaches;
    if eol.CrLf? {
      var c1 := c.(state := mid);
      CloseByte(c0, log0, pre, c, log, k, bs, CR, mid, client);
      InvOf(c0, log0, pre + [CR], c1, Deliver(log, k, bs), client);
      MoveOn(c0, log0, pre + [CR], c1, Deliver(log, k, bs), LF, end, client);
      assert pre + [CR] + [LF] == pre + PrintEol(eol);
    } else {
      CloseByte(c0, log0, pre, c, log, k, bs, LF, end, client);
    }
  }

  lemma CodeVisits(c: Core, client: Client)
    requires Inv(c)
    ensures c.state.ResStatusCode? || c.state.ResStatusStart? ==>
              VisitByte(c, CR, client) == Go(c, ResLineAlmostDone)
                  && VisitByte(c, LF, client) == Go(c, HeaderFieldStart)
    ensures c.state.ResStatusCode? ==> VisitByte(c, SP, client) == Go(c, ResStatusStart)
    ensures c.state.ResStatus? ==>
              && VisitByte(c, CR, client) == Go(c, ResLineAlmostDone).(closes := Some(Status))
              && VisitByte(c, LF, client) == Go(c, HeaderFieldStart).(closes := Some(Status))
    ensures c.state.ResLineAlmostDone? ==> VisitByte(c, LF, client) == Go(c, HeaderFieldStart)
  {
  }

  /** The end of the status line without reason, or behind one that is empty. */
  lemma CodeEnd(c0: Core, log0: Log, pre: seq<byte>, c: Core, log: Log, eol: Eol, client: Client)
    requires Reaches(c0, log0, pre, c, log, client) && (c.state.ResStatusCode? || c.state.ResStatusStart?)
    ensures Reaches(c0, log0, pre + PrintEol(eol), c.(state := HeaderFieldStart), log, client)
  {
    InvOf(c0, log0, pre, c, log, client);
    CodeVisits(c, client);
    if Inv(c.(state := ResLineAlmostDone)) {
      CodeVisits(c.(state := ResLineAlmostDone), client);
    }
    hide Run, VisitByte, Reaches;
    EolRead(c0, log0, pre, c, log, eol, ResLineAlmostDone, HeaderFieldStart, client);
  }

  /** A reason and the line end behind it. */
  lemma ReasonRead(c0: Core, log0: Log, pre: seq<byte>, c: Core, log: Log, r: seq<byte>, eol: Eol, client: Client)
    requires Reaches(c0, log0, pre, c, log, client) && c.state.ResStatusStart? && GoodReason(r) && r != []
    ensures Reaches(c0, log0, pre + r + PrintEol(eol), c.(state := HeaderFieldStart, index := 0),
                    Deliver(log, Status, r), client)
  {
    var c1 := c.(state := ResStatus, index := 0);
    Reason(c0, log0, pre, c, log, r, client);
    InvOf(c0, log0, pre + r, c1, Deliver(log, Status, r), client);
    CodeVisits(c1, client);
    if Inv(c1.(state := ResLineAlmostDone)) {
      CodeVisits(c1.(state := ResLineAlmostDone), client);
    }
    hide Run, VisitByte, Reaches, Deliver;
    EolCloses(c0, log0, pre + r, c1, log, Status, r, eol, ResLineAlmostDone, HeaderFieldStart, client);
  }

  function TailIndex(c: Core, t: Tail): nat { if ReasonOf(t) == [] then c.index else 0 }

  lemma TailRead(c0: Core, log0: Log, pre: seq<byte>, c: Core, log: Log, t: Tail, client: Client)
    requires Reaches(c0, log0, pre, c, log, client) && c.state.ResStatusCode? && GoodReason(ReasonOf(t))
    ensures Reaches(c0, log0, pre + PrintTail(t), c.(state := HeaderFieldStart, index := TailIndex(c, t)),
                    ReasonLog(log, ReasonOf(t)), client)
  {
    InvOf(c0, log0, pre, c, log, client);
    CodeVisits(c, client);
    hide Run, Inv, VisitByte, Reaches, Deliver;
    match t
    case NoReason(eol) => CodeEnd(c0, log0, pre, c, log, eol, client);
    case Reason(text, eol) =>
      var c1 := c.(state := ResStatusStart);
      MoveOn(c0, log0, pre, c, log, SP, ResStatusStart, client);
      if text == [] {
        CodeEnd(c0, log0, pre + [SP], c1, log, eol, client);
        assert pre + [SP] + PrintEol(eol) == pre + PrintTail(t);
      } else {
        ReasonRead(c0, log0, pre + [SP], c1, log, text, eol, client);
        assert pre + [SP] + text + PrintEol(eol) == pre + PrintTail(t);
      }
  }

  /** The parser after line ends before a message. */
  function Led(c: Core, lead: seq<byte>): Core { if lead == [] then c else StartMessage(c) }

  lemma {:induction false} LeadRead(c: Core, log: Log, lead: seq<byte>, client: Client)
    requires Inv(c) && c.state.StartRes? && GoodLead(lead)
    ensures Reaches(c, log, lead, Led(c, lead), Begun(log, |lead|), client)
  {
    if lead == [] {
      Nothing(c, log, client);
    } else {
      var n := |lead|;
      var front, b := lead[..n - 1], lead[n - 1];
      assert b in lead && forall x <- front :: x in lead;
      assert lead == front + [b];
      LeadRead(c, log, front, client);
      var c1, log1 := Led(c, front), Begun(log, n - 1);
      InvOf(c, log, front, c1, log1, client);
      hide Run, Reaches;
      LeadByte(c1, log1, b, client);
      ThenByte(c, log, front, c1, log1, b, VisitByte(c1, b, client), client);
    }
  }

  lemma LeadByte(c: Core, log: Log, b: byte, client: Client)
    requires Inv(c) && c.state.StartRes? && (b == CR || b == LF)
    ensures var v := VisitByte(c, b, client);
            v.core == StartMessage(c) && v.next.Advance? && Record(c, log, v, b) == log + [Notified(MessageBegin)]
  {
  }

  const HTTP_SLASH: seq<byte> := [72, 84, 84, 80, SLASH]

  lemma LeadVersion(c: Core, log: Log, lead: seq<byte>, client: Client)
    requires Inv(c) && c.state.StartRes? && GoodLead(lead)
    ensures Reaches(c, log, lead + HTTP_SLASH, StartMessage(c).(state := ResFirstHttpMajor), Begun(log, |lead| + 1),
                    client)
  {
    var p0, l0 := Led(c, lead), Begun(log, |lead|);
    LeadRead(c, log, lead, client);
    InvOf(c, log, lead, p0, l0, client);
    Version(p0, l0, client);
    hide Run, Inv, Reaches;
    Then(c, log, lead, p0, l0, HTTP_SLASH, StartMessage(p0).(state := ResFirstHttpMajor), l0 + [Notified(MessageBegin)],
         client);
  }

  /** Line ends, and the whole status line in any of its forms. */
  lemma StatusLineRead(c: Core, log: Log, lead: seq<byte>, major: seq<byte>, minor: seq<byte>, gap: nat,
                       code: seq<byte>,
                       tail: Tail, client: Client)
    requires Inv(c) && c.state.StartRes? && GoodLead(lead) && GoodNumber(major) && GoodNumber(minor) && GoodNumber(code)
             && GoodReason(ReasonOf(tail))
    ensures var c1 := StatusCore(c, major, minor, code);
            Reaches(c, log, lead + PrintStatusLine(major, minor, gap, code, tail),
                    c1.(state := HeaderFieldStart, index := TailIndex(c1, tail)),
                    ReasonLog(Begun(log, |lead| + 1), ReasonOf(tail)), client)
  {
    hide *;
    LeadVersion(c, log, lead, client);
    var l1, c0 := Begun(log, |lead| + 1), StartMessage(c).(state := ResFirstHttpMajor);
    Numbers(c, log, lead + HTTP_SLASH, c0, l1, major, minor, gap, code, client);
    var text := lead + HTTP_SLASH + major + [DOT] + minor + [SP] + Spaces(gap) + code;
    StatusCoreIs(c, major, minor, code);
    TailRead(c, log, text, StatusCore(c, major, minor, code), l1, tail, client);
    StatusText(lead, major, minor, gap, code, tail);
  }

  lemma StatusCoreIs(c: Core, major: seq<byte>, minor: seq<byte>, code: seq<byte>)
    requires GoodNumber(major) && GoodNumber(minor) && GoodNumber(code)
    ensures StatusCore(c, major, minor, code)
         == StartMessage(c).(state := ResFirstHttpMajor)
            .(state := ResStatusCode, major := Dec(major), minor := Dec(minor), status := Dec(code))
  {
    hide Dec;
  }

  lemma StatusText(lead: seq<byte>, major: seq<byte>, minor: seq<byte>, gap: nat, code: seq<byte>, tail: Tail)
    ensures (lead + HTTP_SLASH + major + [DOT] + minor + [SP] + Spaces(gap) + code) + PrintTail(tail)
         == lead + PrintStatusLine(major, minor, gap, code, tail)
  {
    hide PrintTail, Spaces;
  }
}
