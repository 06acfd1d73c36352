/** What the parser accepts of a status line: bytes that are read without an error are a printed one. */
module HttpAcceptLine {
  import opened HttpTypes
  import opened HttpVisit
  import opened HttpRun
  import opened HttpMessage
  import opened HttpRoundTrip
  import opened HttpResponse

  /** What leads on through a + b leads through a. */
  lemma Front(c: Core, log: Log, a: seq<byte>, b: seq<byte>, c2: Core, log2: Log, client: Client)
    returns (c1: Core, log1: Log)
    requires Reaches(c, log, a + b, c2, log2, client)
    ensures Reaches(c, log, a, c1, log1, client) && Reaches(c1, log1, b, c2, log2, client)
  {
    RunSplits(c, log, log, a, b, client);
    var r := Run(c, log, log, a, client);
    c1, log1 := r.core, r.log;
    hide VisitByte;
  }

  lemma Determined(c: Core, log: Log, s: seq<byte>, c1: Core, log1: Log, c2: Core, log2: Log, client: Client)
    requires Reaches(c, log, s, c1, log1, client) && Reaches(c, log, s, c2, log2, client)
    ensures c1 == c2 && log1 == log2
  {
  }

  /** One byte is accepted: at the first visit, or at one that follows. */
  lemma OneByte(c: Core, log: Log, b: byte, c2: Core, log2: Log, client: Client)
    requires Reaches(c, log, [b], c2, log2, client)
    ensures var v := VisitByte(c, b, client);
            && (v.next.Advance? || v.next.Again?)
            && (v.next.Advance? ==> c2 == v.core && log2 == Record(c, log, v, b))
            && (v.next.Again? ==> Inv(v.core) && Reaches(v.core, Record(c, log, v, b), [b], c2, log2, client))
  {
    VisitGood(c, b, client);
    var v := VisitByte(c, b, client);
    var log1 := Record(c, log, v, b);
    hide VisitByte, Inv, Record;
    if v.next.Advance? {
      Byte(c, log, b, v, client);
      Determined(c, log, [b], c2, log2, v.core, log1, client);
    } else if v.next.Again? {
      KeptIsIrrelevant(v.core, log1, log1, Commit(v.core.state, log1, log), [b], client);
    }
  }

  // ----- the status line ------------------------------------------------------------------

  datatype LineParts = LineParts(lead: seq<byte>, major: seq<byte>, minor: seq<byte>, gap: nat, code: seq<byte>,
                                 tail: Tail)

  function VersionText(p: LineParts): seq<byte> { p.lead + HTTP_SLASH + p.major + [DOT] + p.minor }

  function CodeText(p: LineParts): seq<byte> { VersionText(p) + [SP] + Spaces(p.gap) + p.code }

  /** The bytes before the state, from the parts read. */
  function LineText(st: State, p: LineParts): seq<byte> {
    match st
    case StartRes => p.lead
    case ResH => p.lead + [72]
    case ResHT => p.lead + [72, 84]
    case ResHTT => p.lead + [72, 84, 84]
    case ResHTTP => p.lead + [72, 84, 84, 80]
    case ResFirstHttpMajor => p.lead + HTTP_SLASH
    case ResHttpMajor => p.lead + HTTP_SLASH + p.major
    case ResFirstHttpMinor => p.lead + HTTP_SLASH + p.major + [DOT]
    case ResHttpMinor => VersionText(p)
    case ResFirstStatusCode => VersionText(p) + [SP] + Spaces(p.gap)
    case ResStatusCode => CodeText(p)
    case ResStatusStart => CodeText(p) + [SP]
    case ResStatus => CodeText(p) + [SP] + ReasonOf(p.tail)
    case ResLineAlmostDone => CodeText(p) + (if p.tail.NoReason? then [] else [SP] + p.tail.text) + [CR]
    case _ => CodeText(p) + PrintTail(p.tail)
  }

  predicate InLine(st: State) {
    st.StartRes? || st.ResH? || st.ResHT? || st.ResHTT? || st.ResHTTP? || st.ResFirstHttpMajor? || st.ResHttpMajor?
    || st.ResFirstHttpMinor? || st.ResHttpMinor? || st.ResFirstStatusCode? || st.ResStatusCode? || st.ResStatusStart?
    || st.ResStatus? || st.ResLineAlmostDone?
  }

  /** The parts that have been read are good, and the numbers are in the parser. */
  ghost predicate LineFits(c: Core, p: LineParts) {
    var st := c.state;
    && (InLine(st) || st.HeaderFieldStart?) && GoodLead(p.lead)
    && (st.ResHttpMajor? ==> GoodNumber(p.major) && Dec(p.major) == c.major)
    && (st.ResHttpMinor? ==> GoodNumber(p.minor) && Dec(p.minor) == c.minor)
    && (st.ResStatusCode? ==> GoodNumber(p.code) && Dec(p.code) == c.status)
    && (Late(st, 1) ==> GoodNumber(p.major))
    && (Late(st, 2) ==> GoodNumber(p.minor))
    && (Late(st, 3) ==> GoodNumber(p.code) && GoodReason(ReasonOf(p.tail)))
    && (st.ResStatus? ==> p.tail.Reason?)
    && (st.ResLineAlmostDone? ==> p.tail.eol.CrLf?)
  }

  /** The state comes behind the first of the three numbers, or the first two, or all. */
  predicate Late(st: State, n: nat) {
    || st.ResStatusStart? || st.ResStatus? || st.ResLineAlmostDone? || st.HeaderFieldStart?
    || (n < 3 && (st.ResFirstStatusCode? || st.ResStatusCode?))
    || (n < 2 && (st.ResFirstHttpMinor? || st.ResHttpMinor?))
  }

  lemma {:induction false} DecMore(s: seq<byte>, b: byte)
    requires Digits(s) && IsNum(b)
    ensures Digits(s + [b]) && Dec(s + [b]) == Dec(s) * 10 + (b as int - 48)
  {
    assert (s + [b])[..|s|] == s;
  }

  lemma DecOne(b: byte)
    requires IsNum(b)
    ensures Digits([b]) && Dec([b]) == b as int - 48
  {
    assert [b][..0] == [];
  }

  lemma StartStep(c: Core, p: LineParts, b: byte) returns (p2: LineParts)
    requires LineFits(c, p) && VisitStatusLine(c, b).next.Advance?
    requires c.state.StartRes? || c.state.ResH? || c.state.ResHT? || c.state.ResHTT? || c.state.ResHTTP?
    ensures var c2 := VisitStatusLine(c, b).core;
            LineFits(c2, p2) && LineText(c2.state, p2) == LineText(c.state, p) + [b]
  {
    p2 := if c.state.StartRes? && b != 72 then p.(lead := p.lead + [b]) else p;
    hide Dec;
  }

  lemma MajorStep(c: Core, p: LineParts, b: byte) returns (p2: LineParts)
    requires LineFits(c, p) && VisitStatusLine(c, b).next.Advance?
    requires c.state.ResFirstHttpMajor? || c.state.ResHttpMajor?
    ensures var c2 := VisitStatusLine(c, b).core;
            LineFits(c2, p2) && LineText(c2.state, p2) == LineText(c.state, p) + [b]
  {
    p2 := if c.state.ResFirstHttpMajor? then p.(major := [b]) else if b == DOT then p else p.(major := p.major + [b]);
    if b != DOT {
      DecOne(b);
      if c.state.ResHttpMajor? {
        DecMore(p.major, b);
      }
    }
    hide Dec;
  }

  lemma MinorStep(c: Core, p: LineParts, b: byte) returns (p2: LineParts)
    requires LineFits(c, p) && VisitStatusLine(c, b).next.Advance?
    requires c.state.ResFirstHttpMinor? || c.state.ResHttpMinor?
    ensures var c2 := VisitStatusLine(c, b).core;
            LineFits(c2, p2) && LineText(c2.state, p2) == LineText(c.state, p) + [b]
  {
    p2 := if c.state.ResFirstHttpMinor? then p.(minor := [b]) else if b == SP then p.(gap := 0)
          else p.(minor := p.minor + [b]);
    if b != SP {
      DecOne(b);
      if c.state.ResHttpMinor? {
        DecMore(p.minor, b);
      }
    }
    hide Dec;
  }

  lemma FirstCodeStep(c: Core, p: LineParts, b: byte) returns (p2: LineParts)
    requires LineFits(c, p) && VisitStatusLine(c, b).next.Advance? && c.state.ResFirstStatusCode?
    ensures var c2 := VisitStatusLine(c, b).core;
            LineFits(c2, p2) && LineText(c2.state, p2) == LineText(c.state, p) + [b]
  {
    p2 := if b == SP then p.(gap := p.gap + 1, code := []) else p.(code := [b]);
    if b != SP {
      DecOne(b);
    }
    hide Dec;
  }

  lemma CodeStep(c: Core, p: LineParts, b: byte) returns (p2: LineParts)
    requires LineFits(c, p) && VisitStatusLine(c, b).next.Advance? && c.state.ResStatusCode?
    ensures var c2 := VisitStatusLine(c, b).core;
            LineFits(c2, p2) && LineText(c2.state, p2) == LineText(c.state, p) + [b]
  {
    hide Dec, Spaces;
    if IsNum(b) {
      p2 := p.(code := p.code + [b]);
      DecMore(p.code, b);
    } else {
      p2 := p.(tail := if b == SP then Reason([], CrLf) else NoReason(if b == CR then CrLf else BareLf));
    }
  }

  lemma ReasonStep(c: Core, p: LineParts, b: byte) returns (p2: LineParts)
    requires LineFits(c, p) && VisitStatusLine(c, b).next.Advance?
    requires c.state.ResStatusStart? || c.state.ResStatus?
    ensures var c2 := VisitStatusLine(c, b).core;
            LineFits(c2, p2) && LineText(c2.state, p2) == LineText(c.state, p) + [b]
  {
    hide Dec, Spaces, CodeText;
    var text := if c.state.ResStatusStart? then [] else ReasonOf(p.tail);
    p2 := p.(tail := if b == CR then Reason(text, CrLf) else if b == LF then Reason(text, BareLf)
                     else Reason(text + [b], CrLf));
    var code := CodeText(p);
    assert CodeText(p2) == code by { SameCode(p, p2); }
    assert LineText(c.state, p) == code + [SP] + text;
    if b == CR {
      assert code + ([SP] + text) + [CR] == code + [SP] + text + [b];
    } else if b == LF {
      assert code + ([SP] + text + [LF]) == code + [SP] + text + [b];
    } else {
      assert code + [SP] + (text + [b]) == code + [SP] + text + [b];
    }
  }

  lemma SameCode(p: LineParts, p2: LineParts)
    requires p2 == p.(tail := p2.tail)
    ensures CodeText(p2) == CodeText(p)
  {
  }

  lemma LineEndStep(c: Core, p: LineParts, b: byte)
    requires LineFits(c, p) && VisitStatusLine(c, b).next.Advance? && c.state.ResLineAlmostDone?
    ensures var c2 := VisitStatusLine(c, b).core;
            LineFits(c2, p) && LineText(c2.state, p) == LineText(c.state, p) + [b]
  {
    hide Dec, Spaces, CodeText;
  }

  /** The visits of the status line never look at a byte again. */
  lemma LineVisits(c: Core, b: byte, client: Client)
    requires Inv(c) && InLine(c.state)
    ensures VisitByte(c, b, client) == VisitStatusLine(c, b) && !VisitByte(c, b, client).next.Again?
  {
  }

  lemma LineStep(c: Core, p: LineParts, b: byte, client: Client) returns (p2: LineParts)
    requires Inv(c) && InLine(c.state) && LineFits(c, p) && VisitByte(c, b, client).next.Advance?
    ensures var c2 := VisitByte(c, b, client).core;
            LineFits(c2, p2) && LineText(c2.state, p2) == LineText(c.state, p) + [b]
  {
    hide Inv, LineFits, LineText, VisitByte, VisitStatusLine;
    LineVisits(c, b, client);
    match c.state
    case ResFirstHttpMajor => p2 := MajorStep(c, p, b);
    case ResHttpMajor => p2 := MajorStep(c, p, b);
    case ResFirstHttpMinor => p2 := MinorStep(c, p, b);
    case ResHttpMinor => p2 := MinorStep(c, p, b);
    case ResFirstStatusCode => p2 := FirstCodeStep(c, p, b);
    case ResStatusCode => p2 := CodeStep(c, p, b);
    case ResStatusStart => p2 := ReasonStep(c, p, b);
    case ResStatus => p2 := ReasonStep(c, p, b);
    case ResLineAlmostDone =>
      LineEndStep(c, p, b);
      p2 := p;
    case _ => p2 := StartStep(c, p, b);
  }

  /** The state after s. */
  function StateAt(c: Core, log: Log, s: seq<byte>, client: Client): State
    requires Inv(c)
  {
    Run(c, log, log, s, client).core.state
  }

  /** What is read without an error up to the first header line is a printed status line. */
  lemma {:induction false} LineOnly(c: Core, log: Log, s: seq<byte>, c1: Core, log1: Log, client: Client)
    returns (p: LineParts)
    requires Ready(c) && Reaches(c, log, s, c1, log1, client)
    requires forall n :: 0 <= n < |s| ==> InLine(StateAt(c, log, s[..n], client))
    ensures LineFits(c1, p) && s == LineText(c1.state, p)
  {
    if s == [] {
      p := LineParts([], [], [], 0, [], NoReason(CrLf));
      Nothing(c, log, client);
      Determined(c, log, s, c1, log1, c, log, client);
    } else {
      var n := |s| - 1;
      var front, b := s[..n], s[n];
      assert s == front + [b];
      var c0, log0 := Front(c, log, front, [b], c1, log1, client);
      hide Inv, VisitByte, LineFits, LineText, Record;
      assert forall k :: 0 <= k < n ==> front[..k] == s[..k];
      p := LineOnly(c, log, front, c0, log0, client);
      assert c0.state == StateAt(c, log, s[..n], client);
      LineVisits(c0, b, client);
      OneByte(c0, log0, b, c1, log1, client);
      p := LineStep(c0, p, b, client);
    }
  }
}
