/** What the parser accepts: the head of a response is read without an error only if it is a printed
    one. Together with reading back what is printed, this fixes the heads that are accepted. */
module HttpAccept {
  import opened HttpTypes
  import opened HttpVisit
  import opened HttpRun
  import opened HttpMessage
  import opened HttpNames
  import opened HttpFolds
  import opened HttpRoundTrip
  import opened HttpResponse
  import opened HttpAcceptLine

  // ----- header lines -----------------------------------------------------------------------

  /** The headers before, and the parts of the one that is being read. */
  datatype HeadParts = HeadParts(done: seq<Header>, current: Header)

  function BeforeValue(p: HeadParts): seq<byte> {
    PrintHeaders(p.done) + p.current.name + [COLON] + PrintPad(p.current.pad)
  }

  function ThroughValue(p: HeadParts): seq<byte> { BeforeValue(p) + (p.current.value + PrintFolds(p.current.folds)) }

  function CRof(e: Eol): seq<byte> { if e.CrLf? then [CR] else [] }

  /** The bytes since the first header line. Where a line feed is looked at again, it is not yet among them. */
  function HeadersText(st: State, p: HeadParts): seq<byte> {
    match st
    case HeaderFieldStart => PrintHeaders(p.done)
    case HeaderField => PrintHeaders(p.done) + p.current.name
    case HeaderValueDiscardWs => BeforeValue(p)
    case HeaderValueDiscardWsAlmostDone => BeforeValue(p) + [CR]
    case HeaderValueDiscardLws => BeforeValue(p) + PrintEol(p.current.eol)
    case HeaderValue => ThroughValue(p)
    case HeaderAlmostDone => ThroughValue(p) + CRof(p.current.eol)
    case HeaderValueLws => ThroughValue(p) + PrintEol(p.current.eol)
    case HeaderValueStart => ThroughValue(p) + PrintEol(p.current.eol)
    case _ => PrintHeaders(p.done) + CRof(p.current.eol)
  }

  predicate InName(st: State) {
    st.HeaderValueDiscardWs? || st.HeaderValueDiscardWsAlmostDone? || st.HeaderValueDiscardLws?
  }

  predicate InValue(st: State) { st.HeaderValue? || st.HeaderAlmostDone? || st.HeaderValueLws? || st.HeaderValueStart? }

  predicate InHeaders(st: State) {
    st.HeaderFieldStart? || st.HeaderField? || InName(st) || InValue(st) || st.HeadersAlmostDone?
  }

  /** The value that has been read is one that a header of this name can have. */
  ghost predicate ValueFits(c: Core, h: Header)
    requires GoodName(h.name)
  {
    && GoodText(h.value) && h.value != [] && (forall f <- h.folds :: GoodFold(f))
    && if NameClass(h.name).ContentLengthHeader?
       then
         && h.folds == [] && Numeric(h.value) && !TooLong(h.value)
         && c.hstate.ContentLengthHeader? && c.contentLength == Num(h.value)
       else Foldable(Acc(c))
  }

  ghost predicate HeadersFit(c: Core, p: HeadParts) {
    var st, h := c.state, p.current;
    && GoodHeaders(p.done)
    && (st.HeaderField? ==> GoodName(h.name) && (c.hstate, c.index) == ScanName(h.name))
    && (InName(st) ==> GoodName(h.name) && GoodPad(h.pad) && c.hstate == ScanName(h.name).0)
    && (InValue(st) ==> GoodName(h.name) && GoodPad(h.pad) && ValueFits(c, h))
  }

  lemma DoneMore(p: HeadParts, h: Header)
    requires GoodHeaders(p.done) && GoodHeader(h)
    ensures GoodHeaders(p.done + [h]) && PrintHeaders(p.done + [h]) == PrintHeaders(p.done) + PrintHeader(h)
  {
    assert (p.done + [h])[..|p.done|] == p.done;
    hide GoodHeader, PrintHeader;
  }

  lemma NameTexts(st: State, p: HeadParts)
    ensures st.HeaderFieldStart? ==> HeadersText(st, p) == PrintHeaders(p.done)
    ensures st.HeaderField? ==> HeadersText(st, p) == PrintHeaders(p.done) + p.current.name
    ensures st.HeaderValueDiscardWs? ==> HeadersText(st, p) == BeforeValue(p)
    ensures st.HeaderValueDiscardWsAlmostDone? ==> HeadersText(st, p) == BeforeValue(p) + [CR]
    ensures st.HeaderValueDiscardLws? ==> HeadersText(st, p) == BeforeValue(p) + PrintEol(p.current.eol)
  {
    hide PrintHeaders, BeforeValue, ThroughValue, PrintEol, CRof;
  }

  lemma ValueTexts(st: State, p: HeadParts)
    ensures st.HeaderValue? ==> HeadersText(st, p) == ThroughValue(p)
    ensures st.HeaderAlmostDone? ==> HeadersText(st, p) == ThroughValue(p) + CRof(p.current.eol)
    ensures st.HeaderValueLws? || st.HeaderValueStart? ==>
              HeadersText(st, p) == ThroughValue(p) + PrintEol(p.current.eol)
    ensures st.HeadersAlmostDone? ==> HeadersText(st, p) == PrintHeaders(p.done) + CRof(p.current.eol)
  {
    hide PrintHeaders, BeforeValue, ThroughValue, PrintEol, CRof;
  }

  /** A visit in c takes p to p2; b is consumed if the visit advances. */
  ghost predicate Goes(c: Core, p: HeadParts, b: byte, v: Visit, p2: HeadParts) {
    && (v.next.Again? || v.next.Advance?) && InHeaders(v.core.state) && HeadersFit(v.core, p2)
    && HeadersText(v.core.state, p2) == HeadersText(c.state, p) + (if v.next.Advance? then [b] else [])
    && (v.core.state.HeaderValueStart? ==> v.next.Again? && Blank(b))
  }

  lemma StartFits(c: Core, p: HeadParts)
    requires c.state.HeaderFieldStart? || c.state.HeadersAlmostDone?
    ensures HeadersFit(c, p) <==> GoodHeaders(p.done)
  {
  }

  lemma FieldFits(c: Core, p: HeadParts)
    requires c.state.HeaderField?
    ensures HeadersFit(c, p) <==>
            GoodHeaders(p.done) && GoodName(p.current.name) && (c.hstate, c.index) == ScanName(p.current.name)
  {
  }

  lemma NameFits(c: Core, p: HeadParts)
    requires InName(c.state)
    ensures HeadersFit(c, p) <==>
            GoodHeaders(p.done) && GoodName(p.current.name) && GoodPad(p.current.pad)
            && c.hstate == ScanName(p.current.name).0
  {
    hide ScanName;
  }

  lemma ValueStateFits(c: Core, p: HeadParts)
    requires InValue(c.state)
    ensures HeadersFit(c, p) <==>
            GoodHeaders(p.done) && GoodName(p.current.name) && GoodPad(p.current.pad) && ValueFits(c, p.current)
  {
    hide ScanName, ValueFits;
  }

  lemma FieldStartNext(c: Core, b: byte, client: Client)
    requires c.state.HeaderFieldStart? && !VisitHeader(c, b, client).next.Fail?
    ensures var v := VisitHeader(c, b, client);
            if b == CR then v == Go(c, HeadersAlmostDone)
            else if b == LF then v == Redo(c, HeadersAlmostDone)
            else
              && Token(b) != 0 && v.next.Advance? && v.core.state.HeaderField?
              && (v.core.hstate, v.core.index) == ScanName([b])
  {
  }

  lemma OneName(b: byte)
    requires Token(b) != 0
    ensures GoodName([b])
  {
  }

  lemma FieldStartGoes(c: Core, p: HeadParts, b: byte, client: Client) returns (p2: HeadParts)
    requires c.state.HeaderFieldStart? && HeadersFit(c, p) && !VisitHeader(c, b, client).next.Fail?
    ensures Goes(c, p, b, VisitHeader(c, b, client), p2)
  {
    var h, c2 := p.current, VisitHeader(c, b, client).core;
    FieldStartNext(c, b, client);
    hide HeadersFit, HeadersText, VisitHeader, PrintHeaders, ScanName, Token, BeforeValue, ThroughValue;
    p2 := p.(current := h.(name := [b], eol := if b == CR then CrLf else BareLf));
    StartFits(c, p);
    NameTexts(c.state, p);
    NameTexts(c2.state, p2);
    ValueTexts(c2.state, p2);
    if b == CR || b == LF {
      StartFits(c2, p2);
    } else {
      OneName(b);
      FieldFits(c2, p2);
    }
  }

  lemma FieldNext(c: Core, b: byte, client: Client)
    requires c.state.HeaderField? && !VisitHeader(c, b, client).next.Fail?
    ensures var v := VisitHeader(c, b, client);
            if Token(b) != 0
            then v.next.Advance? && v.core.state.HeaderField?
                 && (v.core.hstate, v.core.index) == FieldStep(c.hstate, c.index, b, Token(b))
            else b == COLON && v == Go(c, HeaderValueDiscardWs).(closes := Some(Field))
  {
    hide FieldStep;
  }

  lemma NoPad()
    ensures GoodPad([]) && PrintPad([]) == []
  {
  }

  lemma ScanMoreName(name: seq<byte>, b: byte)
    requires GoodName(name) && Token(b) != 0
    ensures GoodName(name + [b])
            && ScanName(name + [b]) == FieldStep(ScanName(name).0, ScanName(name).1, b, Token(b))
  {
    assert (name + [b])[..|name|] == name;
  }

  lemma FieldGoes(c: Core, p: HeadParts, b: byte, client: Client) returns (p2: HeadParts)
    requires c.state.HeaderField? && HeadersFit(c, p) && !VisitHeader(c, b, client).next.Fail?
    ensures Goes(c, p, b, VisitHeader(c, b, client), p2)
  {
    var h, c2 := p.current, VisitHeader(c, b, client).core;
    FieldNext(c, b, client);
    hide HeadersFit, HeadersText, VisitHeader, PrintHeaders, ScanName, Token, ThroughValue, FieldStep, GoodName,
         GoodPad;
    FieldFits(c, p);
    NameTexts(c.state, p);
    if Token(b) != 0 {
      p2 := p.(current := h.(name := h.name + [b]));
      ScanMoreName(h.name, b);
      FieldFits(c2, p2);
    } else {
      p2 := p.(current := h.(pad := []));
      NoPad();
      NameFits(c2, p2);
    }
    NameTexts(c2.state, p2);
  }

  lemma PadMore(pad: seq<Gap>, g: Gap)
    ensures PrintPad(pad + [g]) == PrintPad(pad) + PrintGap(g)
  {
    assert (pad + [g])[..|pad|] == pad;
  }

  /** One more gap, from the line end before it on. */
  lemma GapGoes(c: Core, p: HeadParts, b: byte, client: Client) returns (p2: HeadParts)
    requires HeadersFit(c, p) && Blank(b) && (c.state.HeaderValueDiscardWs? || c.state.HeaderValueDiscardLws?)
    ensures Goes(c, p, b, VisitHeader(c, b, client), p2)
  {
    var h := p.current;
    var g := if c.state.HeaderValueDiscardWs? then Space(b) else NextLine(h.eol, b);
    p2 := p.(current := h.(pad := h.pad + [g]));
    PadMore(h.pad, g);
    hide PrintPad, PrintHeaders, ScanName;
    var before := PrintHeaders(p.done) + h.name + [COLON];
    assert before + (PrintPad(h.pad) + PrintGap(g)) == BeforeValue(p) + PrintGap(g);
  }

  lemma EmptyNext(c: Core, b: byte, client: Client)
    requires !VisitHeader(c, b, client).next.Fail?
    requires (c.state.HeaderValueDiscardWs? && (b == CR || b == LF)) || c.state.HeaderValueDiscardWsAlmostDone?
    ensures VisitHeader(c, b, client)
         == Go(c, if b == CR then HeaderValueDiscardWsAlmostDone else HeaderValueDiscardLws)
    ensures c.state.HeaderValueDiscardWsAlmostDone? ==> b == LF
  {
  }

  lemma EmptyGoes(c: Core, p: HeadParts, b: byte, client: Client) returns (p2: HeadParts)
    requires HeadersFit(c, p) && !VisitHeader(c, b, client).next.Fail?
    requires (c.state.HeaderValueDiscardWs? && (b == CR || b == LF)) || c.state.HeaderValueDiscardWsAlmostDone?
    ensures Goes(c, p, b, VisitHeader(c, b, client), p2)
  {
    var c2 := VisitHeader(c, b, client).core;
    EmptyNext(c, b, client);
    hide HeadersFit, HeadersText, VisitHeader, PrintHeaders, ScanName, ThroughValue, PrintPad, GoodName, GoodPad;
    p2 := p.(current := p.current.(eol := if c.state.HeaderValueDiscardWs? && b == LF then BareLf else CrLf));
    NameFits(c, p);
    NameFits(c2, p2);
    assert BeforeValue(p2) == BeforeValue(p);
    hide BeforeValue;
    NameTexts(c.state, p);
    NameTexts(c2.state, p2);
  }

  lemma SettleNext(c: Core, b: byte, client: Client)
    requires !Blank(b) && (c.state.HeaderValueDiscardLws? || c.state.HeaderValueLws?)
    ensures var v := VisitHeader(c, b, client); v.next.Again? && v.core.state.HeaderFieldStart?
  {
  }

  /** The header before is complete when the next line does not begin with a blank. */
  lemma SettleGoes(c: Core, p: HeadParts, b: byte, client: Client) returns (p2: HeadParts)
    requires HeadersFit(c, p) && !Blank(b) && (c.state.HeaderValueDiscardLws? || c.state.HeaderValueLws?)
    ensures Goes(c, p, b, VisitHeader(c, b, client), p2)
  {
    var h := if c.state.HeaderValueLws? then p.current else p.current.(value := [], folds := []);
    SettleNext(c, b, client);
    hide PrintPad, PrintHeaders, ScanName, PrintFolds, FinishFlags, VisitHeader, Blank, GoodHeader, GoodName, GoodPad,
         ValueFits, HeadersFit, HeadersText, BeforeValue, ThroughValue;
    WholeHeader(c, p, h);
    DoneMore(p, h);
    p2 := p.(done := p.done + [h]);
    SettledText(c, p, h);
    StartFits(VisitHeader(c, b, client).core, p2);
    NameTexts(VisitHeader(c, b, client).core.state, p2);
  }

  lemma SettledText(c: Core, p: HeadParts, h: Header)
    requires (c.state.HeaderValueLws? && h == p.current)
             || (c.state.HeaderValueDiscardLws? && h == p.current.(value := [], folds := []))
    ensures HeadersText(c.state, p) == PrintHeaders(p.done) + PrintHeader(h)
  {
    NoFolds();
    hide PrintPad, PrintHeaders, PrintFolds, PrintEol;
    if c.state.HeaderValueDiscardLws? {
      assert h.value + PrintFolds(h.folds) == [];
    }
  }

  lemma NoFolds()
    ensures PrintFolds([]) == []
  {
  }

  lemma WholeHeader(c: Core, p: HeadParts, h: Header)
    requires HeadersFit(c, p)
    requires (c.state.HeaderValueLws? && h == p.current)
             || (c.state.HeaderValueDiscardLws? && h == p.current.(value := [], folds := []))
    ensures GoodHeader(h) && GoodHeaders(p.done)
  {
    hide ScanName, Numeric, TooLong, Foldable, NameClass, Num;
  }

  lemma StartNext(c: Core, b: byte, client: Client)
    requires !VisitHeader(c, b, client).next.Fail?
    requires c.state.HeaderValueStart? || (c.state.HeaderValueDiscardWs? && !Blank(b) && b != CR && b != LF)
    ensures var v := VisitHeader(c, b, client);
            v == StartValue(c, b) && v.next.Advance? && v.core.state.HeaderValue?
  {
  }

  lemma FirstValueGoes(c: Core, p: HeadParts, b: byte, client: Client) returns (p2: HeadParts)
    requires HeadersFit(c, p) && !VisitHeader(c, b, client).next.Fail?
    requires c.state.HeaderValueDiscardWs? && !Blank(b) && b != CR && b != LF
    ensures Goes(c, p, b, VisitHeader(c, b, client), p2)
  {
    var h := p.current;
    p2 := p.(current := h.(value := [b], folds := []));
    StartNext(c, b, client);
    hide PrintPad, PrintHeaders, ScanName, PrintFolds, NameClass, Foldable, ValueFits, VisitHeader, StartValue, Blank,
         GoodName, GoodPad, FieldState, HeadersFit, HeadersText, BeforeValue, ThroughValue;
    NameFits(c, p);
    ClassExact(h.name);
    FirstFits(c, p2.current, b);
    ValueStateFits(StartValue(c, b).core, p2);
    FirstValueText(p, b);
    NameTexts(c.state, p);
    ValueTexts(StartValue(c, b).core.state, p2);
  }

  lemma FirstValueText(p: HeadParts, b: byte)
    ensures ThroughValue(p.(current := p.current.(value := [b], folds := []))) == BeforeValue(p) + [b]
  {
    NoFolds();
    hide PrintPad, PrintHeaders, PrintFolds;
    assert [b] + PrintFolds([]) == [b];
  }

  /** The first byte of a value. */
  lemma FirstFits(c: Core, h: Header, b: byte)
    requires GoodName(h.name) && h.value == [b] && h.folds == [] && !Blank(b) && b != CR && b != LF
    requires !StartValue(c, b).next.Fail? && FieldState(c.hstate)
    requires if NameClass(h.name).ContentLengthHeader? then c.hstate.ContentLengthHeader?
             else !c.hstate.ContentLengthHeader?
    ensures ValueFits(StartValue(c, b).core, h)
  {
    hide NameClass;
    assert [b][..0] == [];
    if NameClass(h.name).ContentLengthHeader? {
      assert Num([b]) == b as int - 48;
    }
  }

  /** A further byte of a value in its first line, or in the last of its lines. */
  function MoreValue(h: Header, b: byte): Header {
    if h.folds == [] then h.(value := h.value + [b])
    else
      var n := |h.folds| - 1;
      h.(folds := h.folds[..n] + [h.folds[n].(text := h.folds[n].text + [b])])
  }

  lemma MoreText(h: Header, b: byte)
    ensures MoreValue(h, b).value + PrintFolds(MoreValue(h, b).folds) == h.value + PrintFolds(h.folds) + [b]
  {
    if h.folds == [] {
      NoFolds();
      assert h.value + [b] + [] == h.value + [] + [b];
    } else {
      var n := |h.folds| - 1;
      var f := h.folds[n];
      var f2 := f.(text := f.text + [b]);
      assert (h.folds[..n] + [f2])[..n] == h.folds[..n];
      assert PrintFold(f2) == PrintFold(f) + [b];
      assert h.folds == h.folds[..n] + [f];
      hide PrintFold;
      assert PrintFolds(h.folds[..n] + [f2]) == PrintFolds(h.folds[..n]) + PrintFold(f2);
    }
  }

  lemma MoreGood(h: Header, b: byte)
    requires GoodText(h.value) && h.value != [] && (forall f <- h.folds :: GoodFold(f)) && b != CR && b != LF
    ensures GoodText(MoreValue(h, b).value) && MoreValue(h, b).value != []
    ensures forall f <- MoreValue(h, b).folds :: GoodFold(f)
  {
    if h.folds != [] {
      var n := |h.folds| - 1;
      assert h.folds[n] in h.folds;
      assert GoodFold(h.folds[n].(text := h.folds[n].text + [b]));
      assert forall f <- h.folds[..n] :: f in h.folds;
    }
  }

  lemma MoreFits(c: Core, h: Header, b: byte)
    requires c.state.HeaderValue? && GoodName(h.name) && ValueFits(c, h) && b != CR && b != LF
             && !ValueStep(Acc(c), b).bad
    ensures ValueFits(WithAcc(c, ValueStep(Acc(c), b)), MoreValue(h, b))
  {
    hide NameClass;
    MoreGood(h, b);
    if NameClass(h.name).ContentLengthHeader? {
      assert (h.value + [b])[..|h.value|] == h.value;
      hide Num;
      LengthMore(c, h.value, b);
    } else {
      hide ValueStep, Foldable;
      StepFoldable(Acc(c), b);
      NotBad(Acc(c));
      assert Acc(WithAcc(c, ValueStep(Acc(c), b))) == ValueStep(Acc(c), b) by { NotBad(ValueStep(Acc(c), b)); }
    }
  }

  lemma LengthMore(c: Core, value: seq<byte>, b: byte)
    requires c.hstate.ContentLengthHeader? && Numeric(value) && !TooLong(value) && c.contentLength == Num(value)
    requires !ValueStep(Acc(c), b).bad
    ensures Numeric(value + [b]) && !TooLong(value + [b])
    ensures var a := ValueStep(Acc(c), b); a.h.ContentLengthHeader? && a.length == Num(value + [b])
  {
    assert (value + [b])[..|value|] == value;
    if b != SP {
      DecNoWrap(c.contentLength, b as int - 48);
    }
  }

  lemma ValueNext(c: Core, b: byte, client: Client)
    requires c.state.HeaderValue? && !VisitHeader(c, b, client).next.Fail?
    ensures var v := VisitHeader(c, b, client);
            if b == CR then v == Go(c, HeaderAlmostDone).(closes := Some(Value))
            else if b == LF then v == Redo(c, HeaderAlmostDone).(closes := Some(Value))
            else v == Stay(WithAcc(c, ValueStep(Acc(c), b))) && !ValueStep(Acc(c), b).bad
  {
  }

  lemma ValueGoes(c: Core, p: HeadParts, b: byte, client: Client) returns (p2: HeadParts)
    requires c.state.HeaderValue? && HeadersFit(c, p) && !VisitHeader(c, b, client).next.Fail?
    ensures Goes(c, p, b, VisitHeader(c, b, client), p2)
  {
    var h, c2 := p.current, VisitHeader(c, b, client).core;
    hide PrintPad, PrintHeaders, ScanName, PrintFolds, NameClass, Foldable, ValueFits, VisitHeader, ValueStep, Blank,
         GoodName, GoodPad, HeadersFit, HeadersText;
    ValueNext(c, b, client);
    ValueStateFits(c, p);
    if b == CR || b == LF {
      p2 := p.(current := h.(eol := if b == CR then CrLf else BareLf));
      EolFits(c, c2, h, p2.current);
    } else {
      p2 := p.(current := MoreValue(h, b));
      MoreFits(c, h, b);
      MoreText(h, b);
      SameName(h, b);
    }
    ValueStateFits(c2, p2);
    assert BeforeValue(p2) == BeforeValue(p);
    hide BeforeValue;
    ValueTexts(c.state, p);
    ValueTexts(c2.state, p2);
  }

  lemma SameName(h: Header, b: byte)
    ensures MoreValue(h, b).name == h.name && MoreValue(h, b).pad == h.pad
  {
  }

  /** Nothing of a value changes at a line end. */
  lemma EolFits(c: Core, c2: Core, h: Header, h2: Header)
    requires GoodName(h.name) && ValueFits(c, h) && h2 == h.(eol := h2.eol) && c2 == c.(state := c2.state)
    ensures ValueFits(c2, h2)
  {
    hide NameClass, Num, Numeric, TooLong;
  }

  lemma EolNext(c: Core, b: byte, client: Client)
    requires c.state.HeaderAlmostDone? && !VisitHeader(c, b, client).next.Fail?
    ensures VisitHeader(c, b, client) == Go(c, HeaderValueLws) && b == LF
  {
  }

  lemma EolGoes(c: Core, p: HeadParts, b: byte, client: Client) returns (p2: HeadParts)
    requires c.state.HeaderAlmostDone? && HeadersFit(c, p) && !VisitHeader(c, b, client).next.Fail?
    ensures Goes(c, p, b, VisitHeader(c, b, client), p2)
  {
    hide PrintPad, PrintHeaders, ScanName, PrintFolds, NameClass, ValueFits, VisitHeader, Blank, GoodName, GoodPad,
         HeadersFit, ThroughValue, HeadersText;
    p2 := p;
    var c2 := c.(state := HeaderValueLws);
    EolNext(c, b, client);
    ValueStateFits(c, p);
    EolFits(c, c2, p.current, p.current);
    ValueStateFits(c2, p);
    ValueTexts(c.state, p);
    ValueTexts(c2.state, p);
    assert CRof(p.current.eol) + [LF] == PrintEol(p.current.eol);
  }

  lemma FoldNext(c: Core, b: byte, client: Client)
    requires c.state.HeaderValueLws? && Blank(b)
    ensures VisitHeader(c, b, client) == Redo(c, HeaderValueStart)
  {
  }

  lemma FoldGoes(c: Core, p: HeadParts, b: byte, client: Client) returns (p2: HeadParts)
    requires c.state.HeaderValueLws? && HeadersFit(c, p) && Blank(b)
    ensures Goes(c, p, b, VisitHeader(c, b, client), p2)
  {
    hide PrintPad, PrintHeaders, ScanName, PrintFolds, NameClass, ValueFits, VisitHeader, Blank, GoodName, GoodPad,
         HeadersFit, ThroughValue, PrintEol, HeadersText;
    p2 := p;
    var c2 := c.(state := HeaderValueStart);
    FoldNext(c, b, client);
    ValueStateFits(c, p);
    EolFits(c, c2, p.current, p.current);
    ValueStateFits(c2, p);
    ValueTexts(c.state, p);
    ValueTexts(c2.state, p);
  }

  /** The blank that begins another line of a value. */
  lemma RefoldGoes(c: Core, p: HeadParts, b: byte, client: Client) returns (p2: HeadParts)
    requires c.state.HeaderValueStart? && HeadersFit(c, p) && Blank(b) && !VisitHeader(c, b, client).next.Fail?
    ensures Goes(c, p, b, VisitHeader(c, b, client), p2)
  {
    var h := p.current;
    p2 := p.(current := h.(folds := h.folds + [Fold(h.eol, b, [])]));
    hide PrintPad, PrintHeaders, ScanName, PrintFolds, NameClass, ValueFits, VisitHeader, GoodName, GoodPad,
         HeadersFit, StartValue, PrintEol, Blank, HeadersText, ThroughValue;
    StartNext(c, b, client);
    ValueStateFits(c, p);
    RefoldFits(c, h, b);
    ValueStateFits(StartValue(c, b).core, p2);
    RefoldText(p, b);
    ValueTexts(c.state, p);
    ValueTexts(StartValue(c, b).core.state, p2);
  }

  lemma RefoldFits(c: Core, h: Header, b: byte)
    requires GoodName(h.name) && ValueFits(c, h) && Blank(b) && !StartValue(c, b).next.Fail?
    ensures ValueFits(StartValue(c, b).core, h.(folds := h.folds + [Fold(h.eol, b, [])]))
  {
    hide NameClass, Num, Numeric, TooLong;
  }

  lemma RefoldText(p: HeadParts, b: byte)
    ensures var p2 := p.(current := p.current.(folds := p.current.folds + [Fold(p.current.eol, b, [])]));
            ThroughValue(p2) == ThroughValue(p) + PrintEol(p.current.eol) + [b]
  {
    var h := p.current;
    var f := Fold(h.eol, b, []);
    assert (h.folds + [f])[..|h.folds|] == h.folds;
    assert PrintFold(f) == PrintEol(h.eol) + [b];
    assert PrintFolds(h.folds + [f]) == PrintFolds(h.folds) + PrintFold(f);
    hide PrintPad, PrintHeaders, PrintFolds, PrintEol, PrintFold;
    var p2 := p.(current := h.(folds := h.folds + [f]));
    assert BeforeValue(p2) == BeforeValue(p);
    assert BeforeValue(p) + (h.value + (PrintFolds(h.folds) + (PrintEol(h.eol) + [b])))
           == BeforeValue(p) + (h.value + PrintFolds(h.folds)) + PrintEol(h.eol) + [b];
  }

  lemma HeaderVisits(c: Core, b: byte, client: Client)
    requires Inv(c) && (InHeaders(c.state) || c.state.HeadersDone?)
    ensures VisitByte(c, b, client) == VisitHeader(c, b, client)
  {
  }

  /** Any visit between the headers' beginning and their end. */
  lemma VisitGoes(c: Core, p: HeadParts, b: byte, client: Client) returns (p2: HeadParts)
    requires InHeaders(c.state) && !c.state.HeadersAlmostDone? && (c.state.HeaderValueStart? ==> Blank(b))
    requires HeadersFit(c, p) && !VisitHeader(c, b, client).next.Fail?
    ensures Goes(c, p, b, VisitHeader(c, b, client), p2)
  {
    hide VisitHeader, HeadersFit, Goes, HeadersText;
    match c.state
    case HeaderFieldStart => p2 := FieldStartGoes(c, p, b, client);
    case HeaderField => p2 := FieldGoes(c, p, b, client);
    case HeaderValueDiscardWs =>
      if Blank(b) {
        p2 := GapGoes(c, p, b, client);
      } else if b == CR || b == LF {
        p2 := EmptyGoes(c, p, b, client);
      } else {
        p2 := FirstValueGoes(c, p, b, client);
      }
    case HeaderValueDiscardWsAlmostDone => p2 := EmptyGoes(c, p, b, client);
    case HeaderValueDiscardLws =>
      if Blank(b) {
        p2 := GapGoes(c, p, b, client);
      } else {
        p2 := SettleGoes(c, p, b, client);
      }
    case HeaderValue => p2 := ValueGoes(c, p, b, client);
    case HeaderAlmostDone => p2 := EolGoes(c, p, b, client);
    case HeaderValueLws =>
      if Blank(b) {
        p2 := FoldGoes(c, p, b, client);
      } else {
        p2 := SettleGoes(c, p, b, client);
      }
    case HeaderValueStart => p2 := RefoldGoes(c, p, b, client);
  }

  /** The empty line ends with a line feed, and then the headers are over. */
  lemma LastVisits(c: Core, b: byte, client: Client)
    requires c.state.HeadersAlmostDone? || c.state.HeadersDone?
    ensures var v := VisitHeader(c, b, client);
            && (!v.next.Fail? ==> b == LF)
            && (v.next.Advance? ==> !InHeaders(v.core.state))
            && (v.next.Again? ==> v.core.state.HeadersDone?)
    ensures c.state.HeadersDone? ==> !VisitHeader(c, b, client).next.Again?
  {
  }

  lemma LastByte(c: Core, log: Log, b: byte, c2: Core, log2: Log, client: Client)
    requires Reaches(c, log, [b], c2, log2, client) && (c.state.HeadersAlmostDone? || c.state.HeadersDone?)
    ensures b == LF && !InHeaders(c2.state)
    decreases if c.state.HeadersDone? then 0 else 1
  {
    Invs(c, log, [b], c2, log2, client);
    HeaderVisits(c, b, client);
    LastVisits(c, b, client);
    OneByte(c, log, b, c2, log2, client);
    var v := VisitHeader(c, b, client);
    hide Reaches, VisitHeader, Record, VisitByte, Inv;
    if v.next.Again? {
      LastByte(v.core, Record(c, log, v, b), b, c2, log2, client);
    }
  }

  lemma Invs(c: Core, log: Log, s: seq<byte>, c2: Core, log2: Log, client: Client)
    requires Reaches(c, log, s, c2, log2, client)
    ensures Inv(c) && Inv(c2)
  {
  }

  lemma EndText(c: Core, p: HeadParts)
    requires c.state.HeadersAlmostDone? && HeadersFit(c, p)
    ensures GoodHeaders(p.done) && HeadersText(c.state, p) + [LF] == PrintHeaders(p.done) + PrintEol(p.current.eol)
  {
    hide PrintHeaders;
    assert CRof(p.current.eol) + [LF] == PrintEol(p.current.eol);
  }

  /** What a byte that is accepted in the headers makes of the parts, or that it ends them. */
  ghost predicate ByteGoes(c: Core, p: HeadParts, b: byte, c2: Core, p2: HeadParts) {
    if InHeaders(c2.state)
    then
      && HeadersFit(c2, p2) && HeadersText(c2.state, p2) == HeadersText(c.state, p) + [b]
      && !c2.state.HeaderValueStart?
    else
      GoodHeaders(p2.done)
      && HeadersText(c.state, p) + [b] == PrintHeaders(p2.done) + PrintEol(p2.current.eol)
  }

  lemma {:induction false} HeaderByte(c: Core, log: Log, p: HeadParts, b: byte, c2: Core, log2: Log, client: Client)
    returns (p2: HeadParts)
    requires Reaches(c, log, [b], c2, log2, client) && HeadersFit(c, p)
    requires InHeaders(c.state) && (c.state.HeaderValueStart? ==> Blank(b))
    ensures ByteGoes(c, p, b, c2, p2)
    decreases Rank(c.state)
  {
    if c.state.HeadersAlmostDone? {
      p2 := p;
      EndText(c, p);
      hide *;
      LastByte(c, log, b, c2, log2, client);
      EndsHere(c, p, b, c2);
    } else {
      Invs(c, log, [b], c2, log2, client);
      HeaderVisits(c, b, client);
      VisitGood(c, b, client);
      OneByte(c, log, b, c2, log2, client);
      hide Reaches, VisitHeader, Record, VisitByte, Inv, HeadersFit, HeadersText, InHeaders;
      p2 := VisitGoes(c, p, b, client);
      var v := VisitHeader(c, b, client);
      if v.next.Again? {
        var p1 := p2;
        p2 := HeaderByte(v.core, Record(c, log, v, b), p1, b, c2, log2, client);
        assert HeadersText(v.core.state, p1) == HeadersText(c.state, p);
      }
    }
  }

  lemma EndsHere(c: Core, p: HeadParts, b: byte, c2: Core)
    requires !InHeaders(c2.state) && GoodHeaders(p.done)
    requires b == LF && HeadersText(c.state, p) + [LF] == PrintHeaders(p.done) + PrintEol(p.current.eol)
    ensures ByteGoes(c, p, b, c2, p)
  {
  }

  // ----- whole heads --------------------------------------------------------------------------

  /** What is read without an error from the first header line on, as long as the headers last. */
  lemma {:induction false} HeadersOnly(c: Core, log: Log, s: seq<byte>, c1: Core, log1: Log, client: Client)
    returns (p: HeadParts)
    requires Reaches(c, log, s, c1, log1, client) && c.state.HeaderFieldStart?
    requires forall n :: 0 <= n < |s| ==> InHeaders(StateAt(c, log, s[..n], client))
    ensures if InHeaders(c1.state)
            then HeadersFit(c1, p) && s == HeadersText(c1.state, p) && !c1.state.HeaderValueStart?
            else GoodHeaders(p.done) && s == PrintHeaders(p.done) + PrintEol(p.current.eol)
  {
    if s == [] {
      p := HeadParts([], Header([], [], [], [], CrLf));
      Nothing(c, log, client);
      Determined(c, log, s, c1, log1, c, log, client);
    } else {
      var n := |s| - 1;
      var front, b := s[..n], s[n];
      assert s == front + [b];
      var c0, log0 := Front(c, log, front, [b], c1, log1, client);
      assert forall k :: 0 <= k < n ==> front[..k] == s[..k];
      assert c0.state == StateAt(c, log, s[..n], client);
      hide Inv, VisitByte, HeadersFit, HeadersText, Record, Run;
      var p0 := HeadersOnly(c, log, front, c0, log0, client);
      p := HeaderByte(c0, log0, p0, b, c1, log1, client);
    }
  }

  /** The parser is in states of the first kind, then in header lines, and at the end of s in them no more. */
  ghost predicate Leaves(before: State -> bool, c: Core, log: Log, s: seq<byte>, client: Client)
    requires Inv(c)
  {
    && s != []
    && (forall n :: 0 <= n < |s| ==>
          before(StateAt(c, log, s[..n], client)) || InHeaders(StateAt(c, log, s[..n], client)))
    && (forall n :: 0 <= n < |s| - 1 && InHeaders(StateAt(c, log, s[..n], client)) ==>
          InHeaders(StateAt(c, log, s[..n + 1], client)))
    && InHeaders(StateAt(c, log, s[..|s| - 1], client)) && !InHeaders(StateAt(c, log, s, client))
  }

  lemma {:induction false} StaysInHeaders(before: State -> bool, c: Core, log: Log, s: seq<byte>, j: nat, k: nat,
                                          client: Client)
    requires Inv(c) && Leaves(before, c, log, s, client) && j <= k < |s|
    requires InHeaders(StateAt(c, log, s[..j], client))
    ensures InHeaders(StateAt(c, log, s[..k], client))
    decreases k - j
  {
    hide Inv, StateAt;
    if j < k {
      StaysInHeaders(before, c, log, s, j + 1, k, client);
    }
  }

  /** Where the header lines begin. */
  lemma HeadersBegin(before: State -> bool, c: Core, log: Log, s: seq<byte>, client: Client) returns (k: nat)
    requires Inv(c) && Leaves(before, c, log, s, client) && !InHeaders(c.state)
    ensures 0 < k < |s| && InHeaders(StateAt(c, log, s[..k], client))
    ensures forall n :: 0 <= n < k ==> before(StateAt(c, log, s[..n], client))
    ensures forall n :: k <= n < |s| ==> InHeaders(StateAt(c, log, s[..n], client))
  {
    assert StateAt(c, log, s[..0], client) == c.state;
    hide Inv, Run;
    k := |s| - 1;
    while k > 0 && InHeaders(StateAt(c, log, s[..k - 1], client))
      invariant 0 <= k < |s| && forall n :: k <= n < |s| ==> InHeaders(StateAt(c, log, s[..n], client))
    {
      k := k - 1;
    }
    forall n | 0 <= n < k ensures before(StateAt(c, log, s[..n], client)) {
      if InHeaders(StateAt(c, log, s[..n], client)) {
        StaysInHeaders(before, c, log, s, n, k - 1, client);
      }
    }
  }

  /** The state at a later place, counted from an earlier one. */
  lemma StateBehind(c: Core, log: Log, a: seq<byte>, b: seq<byte>, c1: Core, log1: Log, c2: Core, log2: Log, n: nat,
                    client: Client)
    requires Reaches(c, log, a, c1, log1, client) && Reaches(c1, log1, b, c2, log2, client) && n <= |b|
    ensures Inv(c) && Inv(c1) && StateAt(c1, log1, b[..n], client) == StateAt(c, log, a + b[..n], client)
  {
    assert b == b[..n] + b[n..];
    var c3, log3 := Front(c1, log1, b[..n], b[n..], c2, log2, client);
    Then(c, log, a, c1, log1, b[..n], c3, log3, client);
    hide Inv;
  }

  /** The bytes where the header lines begin, and what is accepted of them. */
  lemma Split(before: State -> bool, c: Core, log: Log, s: seq<byte>, c2: Core, log2: Log, client: Client)
    returns (a: seq<byte>, b: seq<byte>, c1: Core, log1: Log)
    requires Inv(c) && Reaches(c, log, s, c2, log2, client) && Leaves(before, c, log, s, client) && !InHeaders(c.state)
    ensures s == a + b && Reaches(c, log, a, c1, log1, client) && Reaches(c1, log1, b, c2, log2, client)
    ensures InHeaders(c1.state) && !InHeaders(c2.state) && Inv(c1)
    ensures forall n :: 0 <= n < |a| ==> before(StateAt(c, log, a[..n], client))
    ensures forall n :: 0 <= n < |b| ==> InHeaders(StateAt(c1, log1, b[..n], client))
  {
    hide Inv, Run, StateAt, Reaches, Leaves;
    var k := HeadersBegin(before, c, log, s, client);
    a, b := s[..k], s[k..];
    assert s == a + b;
    c1, log1 := Front(c, log, a, b, c2, log2, client);
    forall n | 0 <= n < k ensures before(StateAt(c, log, a[..n], client)) {
      assert a[..n] == s[..n];
    }
    StateIs(c, log, a, c1, log1, client);
    Invs(c1, log1, b, c2, log2, client);
    forall n | 0 <= n < |b| ensures InHeaders(StateAt(c1, log1, b[..n], client)) {
      StateBehind(c, log, a, b, c1, log1, c2, log2, n, client);
      assert a + b[..n] == s[..k + n];
    }
    StateIs(c, log, s, c2, log2, client);
    EndsFirst(before, c, log, s, client);
  }

  function HeadOf(l: LineParts, p: HeadParts): Response {
    Response.Response(l.lead, l.major, l.minor, l.gap, l.code, l.tail, p.done, p.current.eol, NoBody)
  }

  /** A head that is read without an error is a printed one: its bytes are those of a status line and
      of header lines in the forms that are read back. */
  lemma HeadAccepted(c: Core, log: Log, s: seq<byte>, c2: Core, log2: Log, client: Client) returns (m: Response)
    requires Ready(c) && Reaches(c, log, s, c2, log2, client) && Leaves(InLine, c, log, s, client)
    ensures GoodHead(m) && s == HeadText(m) + PrintEol(m.empty)
  {
    hide Inv, Run, StateAt, HeadersFit, HeadersText, LineText, LineFits, Reaches, Leaves;
    var a, b, c1, log1 := Split(InLine, c, log, s, c2, log2, client);
    var l := LineOnly(c, log, a, c1, log1, client);
    LineDone(c1, l);
    var p := HeadersOnly(c1, log1, b, c2, log2, client);
    m := HeadOf(l, p);
    assert HeadText(m) + PrintEol(m.empty) == a + b;
  }

  lemma StateIs(c: Core, log: Log, s: seq<byte>, c1: Core, log1: Log, client: Client)
    requires Reaches(c, log, s, c1, log1, client)
    ensures Inv(c) && StateAt(c, log, s, client) == c1.state
  {
  }

  lemma EndsFirst(before: State -> bool, c: Core, log: Log, s: seq<byte>, client: Client)
    requires Inv(c) && Leaves(before, c, log, s, client)
    ensures !InHeaders(StateAt(c, log, s, client))
  {
  }

  /** The whole status line. */
  lemma LineDone(c: Core, l: LineParts)
    requires LineFits(c, l) && InHeaders(c.state)
    ensures c.state.HeaderFieldStart? && GoodLead(l.lead) && GoodNumber(l.major) && GoodNumber(l.minor)
            && GoodNumber(l.code) && GoodReason(ReasonOf(l.tail))
    ensures LineText(c.state, l) == l.lead + PrintStatusLine(l.major, l.minor, l.gap, l.code, l.tail)
  {
    StatusText(l.lead, l.major, l.minor, l.gap, l.code, l.tail);
    hide Dec, Spaces, PrintTail;
  }
}
