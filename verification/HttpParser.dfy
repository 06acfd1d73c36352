/** `http_parser_execute`: the resumable parser with its marks, its scanning loops and its
    block-wise bodies, proved to do what HttpRun.Run does byte by byte. */
module HttpParser {
  import opened HttpTypes
  import opened HttpVisit
  import opened HttpRun
  import opened HttpSize

  predicate MarksOk(marks: map<Kind, nat>, s: State, p: nat) {
    && (forall k <- marks :: MarkKind(s) == Some(k) && marks[k] <= p)
    && (OpenKind(s).Some? ==> OpenKind(s).value in marks)
  }

  /** The deliveries, counting the bytes behind a mark that is still set. */
  function Seen(log: Log, marks: map<Kind, nat>, s: State, data: seq<byte>, p: nat): Log
    requires MarksOk(marks, s, p) && p <= |data|
  {
    match MarkKind(s)
    case Some(k) => if k in marks then Deliver(log, k, data[marks[k]..p]) else log
    case None => log
  }

  // ----- what whole scans amount to ---------------------------------------------------

  lemma OneBodyByte(c: Core, log: Log, kept: Log, s: seq<byte>, client: Client)
    requires Inv(c) && 0 < |s|
    requires c.state.BodyIdentityEof? || ((c.state.BodyIdentity? || c.state.ChunkData?) && 1 < c.contentLength)
    ensures Inv(Eaten(c, 1))
            && Run(c, log, kept, s, client) == Run(Eaten(c, 1), Deliver(log, Body, [s[0]]), kept, s[1..], client)
  {
    VisitGood(c, s[0], client);
    assert VisitByte(c, s[0], client) == VisitBody(c, s[0], client);
  }

  function Eaten(c: Core, n: nat): Core
    requires c.state.BodyIdentityEof? || n <= c.contentLength
  {
    if c.state.BodyIdentityEof? then c else c.(contentLength := c.contentLength - n)
  }

  lemma EatenTwice(c: Core, n: nat)
    requires n >= 1 && (c.state.BodyIdentityEof? || n < c.contentLength)
    ensures Eaten(c, 1).state == c.state && (c.state.BodyIdentityEof? || n - 1 < Eaten(c, 1).contentLength)
    ensures Eaten(Eaten(c, 1), n - 1) == Eaten(c, n)
  {
  }

  /** Bytes of a body short of its end. */
  lemma {:induction false} RunBodyPart(c: Core, log: Log, kept: Log, s: seq<byte>, n: nat, client: Client)
    requires Inv(c) && 0 < n <= |s|
    requires c.state.BodyIdentityEof? || ((c.state.BodyIdentity? || c.state.ChunkData?) && n < c.contentLength)
    ensures Inv(Eaten(c, n))
            && Run(c, log, kept, s, client) == Run(Eaten(c, n), Deliver(log, Body, s[..n]), kept, s[n..], client)
    decreases n
  {
    hide *;
    OneBodyByte(c, log, kept, s, client);
    if n == 1 {
      assert s[..1] == [s[0]];
    } else {
      EatenTwice(c, n);
      RunBodyPart(Eaten(c, 1), Deliver(log, Body, [s[0]]), kept, s[1..], n - 1, client);
      DeliverJoins(log, Body, [s[0]], s[1..][..n - 1]);
      assert [s[0]] + s[1..][..n - 1] == s[..n];
      assert s[1..][n - 1..] == s[n..];
    }
  }

  lemma AllButOneEaten(c: Core)
    requires !c.state.BodyIdentityEof? && 0 < c.contentLength
    ensures var c1 := Eaten(c, c.contentLength - 1);
            c1.contentLength == 1 && c1.state == c.state && BodyOver(c) == BodyOver(c1)
  {
  }

  function BodyOver(c: Core): Core {
    c.(contentLength := 0, state := if c.state.BodyIdentity? then MessageDone else ChunkDataAlmostDone)
  }

  /** The last byte of a body: an identity body's is looked at again by s_message_done. */
  lemma LastBodyByte(c: Core, log: Log, kept: Log, s: seq<byte>, client: Client)
    requires Inv(c) && (c.state.BodyIdentity? || c.state.ChunkData?) && c.contentLength == 1 && 0 < |s|
    ensures Inv(BodyOver(c))
            && Run(c, log, kept, s, client)
               == Run(BodyOver(c), Deliver(log, Body, [s[0]]),
                      Commit(BodyOver(c).state, Deliver(log, Body, [s[0]]), kept), if c.state.BodyIdentity? then s
                          else s[1..], client)
  {
    VisitGood(c, s[0], client);
    assert VisitByte(c, s[0], client) == VisitBody(c, s[0], client);
  }

  lemma {:induction false} RunBodyEnd(c: Core, log: Log, kept: Log, s: seq<byte>, n: nat, client: Client)
    requires Inv(c) && (c.state.BodyIdentity? || c.state.ChunkData?) && 0 < n == c.contentLength <= |s|
    ensures Inv(BodyOver(c))
            && Run(c, log, kept, s, client)
               == Run(BodyOver(c), Deliver(log, Body, s[..n]),
                      Commit(BodyOver(c).state, Deliver(log, Body, s[..n]), kept), if c.state.BodyIdentity?
                          then s[n - 1..] else s[n..], client)
  {
    hide *;
    if n == 1 {
      LastBodyByte(c, log, kept, s, client);
      assert s[..1] == [s[0]];
    } else {
      RunBodyPart(c, log, kept, s, n - 1, client);
      var c1 := Eaten(c, n - 1);
      AllButOneEaten(c);
      LastBodyByte(c1, Deliver(log, Body, s[..n - 1]), kept, s[n - 1..], client);
      DeliverJoins(log, Body, s[..n - 1], [s[n - 1]]);
      assert s[..n - 1] + [s[n - 1]] == s[..n];
      assert s[n - 1..][1..] == s[n..];
    }
  }

  predicate LineByte(b: byte) { b != CR && b != LF }

  lemma OneGeneralByte(c: Core, log: Log, kept: Log, s: seq<byte>, client: Client)
    requires Inv(c) && c.state.HeaderValue? && c.hstate.General? && 0 < |s| && LineByte(s[0])
    ensures Run(c, log, kept, s, client) == Run(c, Deliver(log, Value, [s[0]]), kept, s[1..], client)
  {
    VisitGood(c, s[0], client);
    assert VisitByte(c, s[0], client) == VisitHeader(c, s[0], client);
  }

  /** A header value nobody is interested in: everything up to the line end. */
  lemma {:induction false} RunGeneralValue(c: Core, log: Log, kept: Log, s: seq<byte>, n: nat, client: Client)
    requires Inv(c) && c.state.HeaderValue? && c.hstate.General? && 0 < n <= |s|
    requires forall i :: 0 <= i < n ==> LineByte(s[i])
    ensures Run(c, log, kept, s, client) == Run(c, Deliver(log, Value, s[..n]), kept, s[n..], client)
    decreases n
  {
    hide *;
    OneGeneralByte(c, log, kept, s, client);
    if n == 1 {
      assert s[..1] == [s[0]];
    } else {
      RunGeneralValue(c, Deliver(log, Value, [s[0]]), kept, s[1..], n - 1, client);
      DeliverJoins(log, Value, [s[0]], s[1..][..n - 1]);
      assert [s[0]] + s[1..][..n - 1] == s[..n];
      assert s[1..][n - 1..] == s[n..];
    }
  }

  lemma OneFieldByte(c: Core, log: Log, kept: Log, s: seq<byte>, client: Client)
    requires Inv(c) && c.state.HeaderField? && 0 < |s| && Token(s[0]) != 0
    ensures var (h, i) := FieldStep(c.hstate, c.index, s[0], Token(s[0]));
            var c' := c.(hstate := h, index := i);
            Inv(c') && Run(c, log, kept, s, client) == Run(c', Deliver(log, Field, [s[0]]), kept, s[1..], client)
  {
    VisitGood(c, s[0], client);
    assert VisitByte(c, s[0], client) == VisitHeader(c, s[0], client);
  }

  lemma OneValueByte(c: Core, log: Log, kept: Log, s: seq<byte>, client: Client)
    requires Inv(c) && c.state.HeaderValue? && 0 < |s| && LineByte(s[0]) && !ValueStep(Acc(c), s[0]).bad
    ensures var c' := WithAcc(c, ValueStep(Acc(c), s[0]));
            Inv(c') && c'.state == c.state
                && Run(c, log, kept, s, client) == Run(c', Deliver(log, Value, [s[0]]), kept, s[1..], client)
  {
    VisitGood(c, s[0], client);
    assert VisitByte(c, s[0], client) == VisitHeader(c, s[0], client);
  }

  /** `memchr` over at most limit bytes from p. */
  method Memchr(data: seq<byte>, p: nat, b: byte, limit: nat) returns (r: Option<nat>)
    requires p + limit <= |data|
    ensures r.Some? ==> p <= r.value < p + limit && data[r.value] == b && b !in data[p..r.value]
    ensures r.None? ==> b !in data[p..p + limit]
  {
    var i := p;
    while i < p + limit
      invariant p <= i <= p + limit
      invariant b !in data[p..i]
    {
      if data[i] == b {
        return Some(i);
      }
      i := i + 1;
    }
    return None;
  }

  /** The position of the first CR or LF in data[p..p + limit], or |data|. */
  method FindLineEnd(data: seq<byte>, p: nat, limit: nat) returns (q: nat)
    requires p + limit <= |data| && 0 < limit && LineByte(data[p])
    ensures p < q <= |data|
    ensures q == |data| || (q < p + limit && !LineByte(data[q]))
    ensures forall i :: p <= i < q && i < p + limit ==> LineByte(data[i])
  {
    var cr := Memchr(data, p, CR, limit);
    var lf := Memchr(data, p, LF, limit);
    if cr.Some? {
      q := if lf.Some? && cr.value >= lf.value then lf.value else cr.value;
    } else if lf.Some? {
      q := lf.value;
    } else {
      q := |data|;
    }
    forall i | p <= i < q && i < p + limit ensures LineByte(data[i]) {
      assert cr.Some? && i < cr.value ==> data[p..cr.value][i - p] == data[i];
      assert lf.Some? && i < lf.value ==> data[p..lf.value][i - p] == data[i];
      assert cr.None? || lf.None? ==> data[p..p + limit][i - p] == data[i];
    }
  }

  // ----- marks ------------------------------------------------------------------------

  /** The marks after MARK and CALLBACK_DATA of a visit at position p. */
  function Marked(marks: map<Kind, nat>, v: Visit, p: nat): map<Kind, nat> {
    var m := if v.opens.Some? && v.opens.value !in marks then marks[v.opens.value := p] else marks;
    if v.closes.Some? then m - {v.closes.value} else m
  }

  /** What the callbacks of a visit at position p deliver. */
  function Called(log: Log, marks: map<Kind, nat>, v: Visit, data: seq<byte>, p: nat): Log
    requires p <= |data| && forall k <- marks :: marks[k] <= p
  {
    var l := if v.closes.None? then log
             else if v.closes.value in marks then Deliver(log, v.closes.value, data[marks[v.closes.value]..p])
             else if v.opens == v.closes then Deliver(log, v.closes.value, [])
             else log;
    match v.notice case Some(n) => l + [Notified(n)] case None => l
  }

  /** Marks and callbacks deliver what the byte-wise meaning delivers, only later. */
  predicate Keeps(c: Core, log: Log, marks: map<Kind, nat>, v: Visit, data: seq<byte>, p: nat)
    requires p < |data| && MarksOk(marks, c.state, p)
  {
    var q := if v.next.Again? then p else p + 1;
    && MarksOk(Marked(marks, v, p), v.core.state, q)
    && Record(c, Seen(log, marks, c.state, data, p), v, data[p])
       == Seen(Called(log, marks, v, data, p), Marked(marks, v, p), v.core.state, data, q)
  }

  lemma RunKinds()
    ensures OpenKind(HeaderField) == Some(Field) && !BodyByte(HeaderField)
    ensures OpenKind(HeaderValue) == Some(Value) && !BodyByte(HeaderValue)
  {
  }

  /** Bytes read in the middle of a run are behind its mark. */
  lemma SeenGrows(s: State, log: Log, marks: map<Kind, nat>, data: seq<byte>, p: nat, q: nat)
    requires p <= q <= |data| && OpenKind(s).Some? && !BodyByte(s) && MarksOk(marks, s, p)
    ensures MarksOk(marks, s, q)
    ensures Deliver(Seen(log, marks, s, data, p), OpenKind(s).value, data[p..q]) == Seen(log, marks, s, data, q)
  {
    var k := OpenKind(s).value;
    var m := marks[k];
    assert data[m..p] + data[p..q] == data[m..q];
    DeliverJoins(log, k, data[m..p], data[p..q]);
  }

  predicate Simple(c: Core, v: Visit) {
    MarksFollow(c, v) && !BodyByte(c.state) && !v.next.Fail? && (v.next.Halt? ==> OpenKind(v.core.state).None?)
  }

  lemma SeenOutside(c: Core, log: Log, marks: map<Kind, nat>, v: Visit, data: seq<byte>, p: nat)
    requires p < |data| && MarksOk(marks, c.state, p) && Simple(c, v)
    requires v.opens.None? && v.closes.None? && OpenKind(c.state).None?
    ensures Keeps(c, log, marks, v, data, p)
  {
    assert marks == map[];
  }

  lemma SeenInside(c: Core, log: Log, marks: map<Kind, nat>, v: Visit, data: seq<byte>, p: nat)
    requires p < |data| && MarksOk(marks, c.state, p) && Simple(c, v)
    requires v.opens.None? && v.closes.None? && OpenKind(c.state).Some?
    ensures Keeps(c, log, marks, v, data, p)
  {
    SeenGrows(c.state, log, marks, data, p, p + 1);
    hide Deliver;
    assert data[p..p + 1] == [data[p]];
    assert OpenKind(v.core.state) == OpenKind(c.state) && v.notice.None?;
    SameKind(c.state, v.core.state);
    hide OpenKind, MarkKind;
  }

  lemma SameKind(s: State, t: State)
    requires OpenKind(s).Some? && OpenKind(t) == OpenKind(s)
    ensures MarkKind(s) == OpenKind(s) && MarkKind(t) == OpenKind(s) && !BodyByte(t)
  {
  }

  lemma SeenClosing(c: Core, log: Log, marks: map<Kind, nat>, v: Visit, data: seq<byte>, p: nat)
    requires p < |data| && MarksOk(marks, c.state, p) && Simple(c, v)
    requires v.opens.None? && v.closes.Some?
    ensures Keeps(c, log, marks, v, data, p)
  {
    var k := v.closes.value;
    assert Marked(marks, v, p) == map[];
    if k != Body {
      var run := data[marks[k]..p];
      assert run + [] == run;
      DeliverJoins(log, k, run, []);
    }
  }

  lemma SeenOpening(c: Core, log: Log, marks: map<Kind, nat>, v: Visit, data: seq<byte>, p: nat)
    requires p < |data| && MarksOk(marks, c.state, p) && Simple(c, v)
    requires v.opens.Some?
    ensures Keeps(c, log, marks, v, data, p)
  {
    assert marks == map[];
    if v.closes.None? {
      assert Marked(marks, v, p) == map[v.opens.value := p];
      assert data[p..p + 1] == [data[p]];
    } else {
      assert Marked(marks, v, p) == map[];
    }
  }

  lemma VisitSeen(c: Core, log: Log, marks: map<Kind, nat>, v: Visit, data: seq<byte>, p: nat)
    requires p < |data| && MarksOk(marks, c.state, p) && Simple(c, v)
    ensures Keeps(c, log, marks, v, data, p)
  {
    hide *;
    if v.opens.Some? {
      SeenOpening(c, log, marks, v, data, p);
    } else if v.closes.Some? {
      SeenClosing(c, log, marks, v, data, p);
    } else if OpenKind(c.state).Some? {
      SeenInside(c, log, marks, v, data, p);
    } else {
      SeenOutside(c, log, marks, v, data, p);
    }
  }

  // ----- what whole scans count -------------------------------------------------------

  lemma FieldSizes(c: Core, n: nat, data: seq<byte>, p: nat, client: Client, last: nat, peak: nat)
    requires p < |data| && SizesAt(c, n, data, p, client, last, peak) && c.state.HeaderField? && Token(data[p]) != 0
    ensures var (h, i) := FieldStep(c.hstate, c.index, data[p], Token(data[p]));
            SizesAt(c.(hstate := h, index := i), n + 1, data, p + 1, client, last, peak)
  {
    hide *;
    SizesAtVisit(c, n, data, p, client, last, peak);
    FieldVisit(c, n, data[p], client);
  }

  lemma FieldVisit(c: Core, n: nat, b: byte, client: Client)
    requires Inv(c) && c.state.HeaderField? && Token(b) != 0
    ensures var v := VisitByte(c, b, client);
            var (h, i) := FieldStep(c.hstate, c.index, b, Token(b));
            v.next.Advance? && v.core == c.(hstate := h, index := i) && Counted(c, v, n, client) == n + 1
  {
    assert VisitByte(c, b, client) == VisitHeader(c, b, client);
  }

  lemma ValueSizes(c: Core, n: nat, data: seq<byte>, p: nat, client: Client, last: nat, peak: nat)
    requires p < |data| && SizesAt(c, n, data, p, client, last, peak) && c.state.HeaderValue? && LineByte(data[p])
    requires !ValueStep(Acc(c), data[p]).bad
    ensures SizesAt(WithAcc(c, ValueStep(Acc(c), data[p])), n + 1, data, p + 1, client, last, peak)
  {
    hide *;
    SizesAtVisit(c, n, data, p, client, last, peak);
    ValueVisit(c, n, data[p], client);
  }

  lemma ValueVisit(c: Core, n: nat, b: byte, client: Client)
    requires Inv(c) && c.state.HeaderValue? && LineByte(b) && !ValueStep(Acc(c), b).bad
    ensures var v := VisitByte(c, b, client);
            v.next.Advance? && v.core == WithAcc(c, ValueStep(Acc(c), b)) && Counted(c, v, n, client) == n + 1
    ensures c.hstate.General? ==> WithAcc(c, ValueStep(Acc(c), b)) == c
  {
    assert VisitByte(c, b, client) == VisitHeader(c, b, client);
  }

  lemma GeneralNotBad(c: Core, b: byte)
    requires c.hstate.General?
    ensures !ValueStep(Acc(c), b).bad
  {
  }

  /** A stretch of a value that nobody looks at. */
  lemma {:induction false} GeneralSizes(c: Core, n: nat, data: seq<byte>, p: nat, q: nat, client: Client, last: nat,
                                        peak: nat)
    requires p <= q <= |data| && SizesAt(c, n, data, p, client, last, peak) && c.state.HeaderValue? && c.hstate.General?
    requires forall i :: p <= i < q ==> LineByte(data[i])
    ensures SizesAt(c, n + (q - p), data, q, client, last, peak)
    decreases q - p
  {
    hide *;
    if p < q {
      SizesAtVisit(c, n, data, p, client, last, peak);
      GeneralNotBad(c, data[p]);
      ValueSizes(c, n, data, p, client, last, peak);
      ValueVisit(c, n, data[p], client);
      GeneralSizes(c, n + 1, data, p + 1, q, client, last, peak);
    }
  }

  lemma BodyVisit(c: Core, n: nat, b: byte, client: Client)
    requires Inv(c) && BodyByte(c.state)
    ensures var v := VisitByte(c, b, client);
            && Counted(c, v, n, client) == n
            && if c.state.BodyIdentityEof? || c.contentLength > 1 then v.next.Advance? && v.core == Eaten(c, 1)
               else if c.state.BodyIdentity? then v.next.Again? && v.core == BodyOver(c)
               else v.next.Advance? && v.core == BodyOver(c)
  {
    assert VisitByte(c, b, client) == VisitBody(c, b, client);
  }

  /** Bytes of a body do not count. */
  lemma {:induction false} BodySizes(c: Core, n: nat, data: seq<byte>, p: nat, q: nat, client: Client, last: nat,
                                     peak: nat)
    requires p <= q <= |data| && SizesAt(c, n, data, p, client, last, peak) && BodyByte(c.state)
    requires c.state.BodyIdentityEof? || q - p < c.contentLength
    ensures SizesAt(Eaten(c, q - p), n, data, q, client, last, peak)
    decreases q - p
  {
    hide *;
    EatenState(c, 1);
    if p < q {
      SizesAtVisit(c, n, data, p, client, last, peak);
      BodyVisit(c, n, data[p], client);
      EatenTwice(c, q - p);
      BodySizes(Eaten(c, 1), n, data, p + 1, q, client, last, peak);
    }
  }

  lemma EatenState(c: Core, n: nat)
    ensures Eaten(c, 0) == c
    ensures c.state.BodyIdentityEof? || n <= c.contentLength ==> Eaten(c, n).state == c.state
    ensures BodyByte(c.state) <==> c.state.BodyIdentityEof? || c.state.BodyIdentity? || c.state.ChunkData?
    ensures c.state.BodyIdentityEof? || 0 <= c.contentLength
  {
  }

  lemma LastBodySizes(c: Core, n: nat, data: seq<byte>, p: nat, q: nat, client: Client, last: nat, peak: nat)
    requires p < q <= |data| && SizesAt(c, n, data, p, client, last, peak) && BodyByte(c.state)
    requires !c.state.BodyIdentityEof? && q - p == c.contentLength
    ensures SizesAt(BodyOver(c), n, data, if c.state.BodyIdentity? then q - 1 else q, client, last, peak)
  {
    hide *;
    EatenState(c, q - 1 - p);
    BodySizes(c, n, data, p, q - 1, client, last, peak);
    var c1 := Eaten(c, q - 1 - p);
    AllButOneEaten(c);
    EatenState(c1, 0);
    SizesAtVisit(c1, n, data, q - 1, client, last, peak);
    BodyVisit(c1, n, data[q - 1], client);
  }

  lemma NextFieldByte(c: Core, log: Log, marks: map<Kind, nat>, data: seq<byte>, p: nat, client: Client)
    requires p < |data| && Inv(c) && c.state.HeaderField? && MarksOk(marks, HeaderField, p) && Token(data[p]) != 0
    ensures FieldState(c.hstate) && MarksOk(marks, HeaderField, p + 1)
    ensures var (h, i) := FieldStep(c.hstate, c.index, data[p], Token(data[p]));
            var c' := c.(hstate := h, index := i);
            && Inv(c') && c'.state == c.state
            && Run(c, Seen(log, marks, HeaderField, data, p), log, data[p..], client)
               == Run(c', Seen(log, marks, HeaderField, data, p + 1), log, data[p + 1..], client)
  {
    hide *;
    AssertsHold(c);
    RunKinds();
    SeenGrows(HeaderField, log, marks, data, p, p + 1);
    assert data[p..p + 1] == [data[p]] && data[p..][0] == data[p] && data[p..][1..] == data[p + 1..];
    OneFieldByte(c, Seen(log, marks, HeaderField, data, p), log, data[p..], client);
  }

  lemma NextValueByte(c: Core, log: Log, marks: map<Kind, nat>, data: seq<byte>, p: nat, client: Client)
    requires p < |data| && Inv(c) && c.state.HeaderValue? && MarksOk(marks, HeaderValue, p) && LineByte(data[p])
    requires !ValueStep(Acc(c), data[p]).bad
    ensures MarksOk(marks, HeaderValue, p + 1)
    ensures var c' := WithAcc(c, ValueStep(Acc(c), data[p]));
            && Inv(c') && c'.state == c.state
            && Run(c, Seen(log, marks, HeaderValue, data, p), log, data[p..], client)
               == Run(c', Seen(log, marks, HeaderValue, data, p + 1), log, data[p + 1..], client)
  {
    hide *;
    RunKinds();
    SeenGrows(HeaderValue, log, marks, data, p, p + 1);
    assert data[p..p + 1] == [data[p]] && data[p..][0] == data[p] && data[p..][1..] == data[p + 1..];
    OneValueByte(c, Seen(log, marks, HeaderValue, data, p), log, data[p..], client);
  }

  lemma NextGeneralBytes(c: Core, log: Log, marks: map<Kind, nat>, data: seq<byte>, p: nat, q: nat, client: Client)
    requires p < q <= |data| && Inv(c) && c.state.HeaderValue? && c.hstate.General? && MarksOk(marks, HeaderValue, p)
    requires forall i :: p <= i < q ==> LineByte(data[i])
    ensures MarksOk(marks, HeaderValue, q)
    ensures Run(c, Seen(log, marks, HeaderValue, data, p), log, data[p..], client)
            == Run(c, Seen(log, marks, HeaderValue, data, q), log, data[q..], client)
  {
    hide *;
    var s := data[p..];
    RunKinds();
    SeenGrows(HeaderValue, log, marks, data, p, q);
    assert s[..q - p] == data[p..q] && s[q - p..] == data[q..];
    forall i | 0 <= i < q - p ensures LineByte(s[i]) { assert s[i] == data[p + i]; }
    RunGeneralValue(c, Seen(log, marks, HeaderValue, data, p), log, s, q - p, client);
  }

  lemma NextBodyBytes(c: Core, log: Log, marks: map<Kind, nat>, data: seq<byte>, p: nat, q: nat, client: Client)
    requires p < q <= |data| && Inv(c) && BodyByte(c.state) && MarksOk(marks, c.state, p)
    requires c.state.BodyIdentityEof? || q - p < c.contentLength
    ensures Inv(Eaten(c, q - p)) && Eaten(c, q - p).state == c.state
    ensures var m := if Body in marks then marks else marks[Body := p];
            && MarksOk(m, c.state, q)
            && Run(c, Seen(log, marks, c.state, data, p), log, data[p..], client)
               == Run(Eaten(c, q - p), Seen(log, m, c.state, data, q), log, data[q..], client)
  {
    hide Run, VisitByte;
    BodyBytesSeen(c.state, log, marks, data, p, q);
    RunBodyPart(c, Seen(log, marks, c.state, data, p), log, data[p..], q - p, client);
    assert data[p..][q - p..] == data[q..];
  }

  lemma BodyFacts(c: Core, n: nat)
    requires Inv(c) && BodyByte(c.state) && (c.state.BodyIdentityEof? || n <= c.contentLength)
    ensures c.state.BodyIdentityEof? ==> forall k: nat :: Eaten(c, k) == c
    ensures !c.state.BodyIdentityEof? ==>
              && 0 < c.contentLength < NO_LENGTH && (c.state.BodyIdentity? || c.state.ChunkData?)
              && Eaten(c, n).contentLength == c.contentLength - n && Eaten(c, n).state == c.state
    ensures !c.state.ChunkSizeStart?
    ensures BodyOver(c).state == if c.state.BodyIdentity? then MessageDone else ChunkDataAlmostDone
  {
  }

  lemma MarksLater(marks: map<Kind, nat>, s: State, p: nat, q: nat)
    requires MarksOk(marks, s, p) && p <= q
    ensures MarksOk(marks, s, q)
  {
  }

  lemma MessageDoneClosed()
    ensures OpenKind(MessageDone).None?
  {
  }

  lemma NoMarks(s: State, log: Log, data: seq<byte>, p: nat)
    requires p <= |data| && OpenKind(s).None?
    ensures MarksOk(map[], s, p) && Seen(log, map[], s, data, p) == log
  {
  }

  lemma BodyBytesSeen(s: State, log: Log, marks: map<Kind, nat>, data: seq<byte>, p: nat, q: nat)
    requires p < q <= |data| && BodyByte(s) && MarksOk(marks, s, p)
    ensures var m := if Body in marks then marks else marks[Body := p];
            && MarksOk(m, s, q) && m == map[Body := m[Body]]
            && Deliver(Seen(log, marks, s, data, p), Body, data[p..][..q - p]) == Deliver(log, Body, data[m[Body]..q])
            && Deliver(Seen(log, marks, s, data, p), Body, data[p..][..q - p]) == Seen(log, m, s, data, q)
  {
    assert data[p..][..q - p] == data[p..q];
    if Body in marks {
      DeliverJoins(log, Body, data[marks[Body]..p], data[p..q]);
      assert data[marks[Body]..p] + data[p..q] == data[marks[Body]..q];
      assert marks == map[Body := marks[Body]];
    } else {
      assert marks == map[];
    }
  }

  /** The end of an identity body calls back at once; the end of a chunk waits for its CR. */
  lemma LastBodyBytes(c: Core, log: Log, marks: map<Kind, nat>, data: seq<byte>, p: nat, q: nat, client: Client)
    requires p < q <= |data| && Inv(c) && BodyByte(c.state) && MarksOk(marks, c.state, p)
    requires !c.state.BodyIdentityEof? && q - p == c.contentLength
    ensures Inv(BodyOver(c))
    ensures var m := if Body in marks then marks else marks[Body := p];
            if c.state.BodyIdentity? then
              m[Body] <= p && m - {Body} == map[] && Run(c, Seen(log, marks, c.state, data, p), log, data[p..], client)
              == Run(BodyOver(c), Deliver(log, Body, data[m[Body]..q]), Deliver(log, Body, data[m[Body]..q]),
                     data[q - 1..], client)
            else
              MarksOk(m, ChunkDataAlmostDone, q)
              && Run(c, Seen(log, marks, c.state, data, p), log, data[p..], client)
                 == Run(BodyOver(c), Seen(log, m, ChunkDataAlmostDone, data, q), log, data[q..], client)
  {
    hide Run, VisitByte;
    BodyBytesSeen(c.state, log, marks, data, p, q);
    RunBodyEnd(c, Seen(log, marks, c.state, data, p), log, data[p..], q - p, client);
    assert data[p..][q - p..] == data[q..];
    assert data[p..][q - p - 1..] == data[q - 1..];
  }

  /** The conditions of the asserts inside the switch. */
  lemma AssertsHold(c: Core)
    requires Inv(c)
    ensures c.state.HeaderField? ==> FieldState(c.hstate)
    ensures c.state.HeaderValue? ==> !c.hstate.ConnectionHeader? && !c.hstate.TransferEncodingHeader?
    ensures InChunks(c.state) ==> Chunked in c.flags
    ensures c.state.BodyIdentity? || c.state.ChunkData? ==> c.contentLength != 0 && c.contentLength != NO_LENGTH
    ensures c.state.ChunkDataAlmostDone? ==> c.contentLength == 0
    ensures c.errno.Ok?
  {
  }

  lemma RankIsSmall(s: State)
    ensures Rank(s) <= 3
    ensures s.HeaderField? || s.BodyIdentityEof? || s.ChunkData? || s.HeaderAlmostDone? || s.MessageDone? ==>
              Rank(s) == 0
    ensures s.HeaderValue? || s.BodyIdentity? ==> Rank(s) == 1
    ensures s.HeaderValue? ==> !BodyByte(s)
    ensures s.HeaderField? ==> !BodyByte(s)
  {
  }

  lemma BodyRanks(c: Core, c1: Core)
    requires BodyByte(c.state)
    ensures Rank(BodyOver(c).state) == 0 && (c1.state == c.state ==> Rank(c1.state) == Rank(c.state))
  {
  }

  lemma CompleteRank(c: Core, client: Client, next: Next)
    ensures Rank(Complete(c, client, next).core.state) == 0 && Complete(c, client, next).next == next
  {
  }

  lemma BodyRank(c: Core, b: byte, client: Client)
    requires Inv(c) && !ParsingHeader(c.state) && !BodyByte(c.state)
    ensures var v := VisitByte(c, b, client); v.next.Fail? || (v.next.Advance? && Rank(v.core.state) == 0)
  {
    hide Complete;
    CompleteRank(c, client, Advance);
    assert VisitByte(c, b, client) == VisitBody(c, b, client);
  }

  /** nread stays within the header bytes counted: r is nread before the visit. */
  lemma VisitTight(c: Core, b: byte, n: nat, r: nat, client: Client)
    requires Inv(c) && !BodyByte(c.state) && r + Rank(c.state) <= 5 * n + if ParsingHeader(c.state) then 4 else 3
    ensures var v := VisitByte(c, b, client);
            !v.next.Fail? ==>
              (if Resets(c, v, client) then 0 else r) + Rank(v.core.state) <= 5 * Counted(c, v, n, client) + 3
  {
    VisitGood(c, b, client);
    var v := VisitByte(c, b, client);
    RankIsSmall(v.core.state);
    if !ParsingHeader(c.state) {
      BodyRank(c, b, client);
    }
    assert c.state.HeadersDone? || v.next.Halt? ==> Resets(c, v, client) by { OnlyHeadersHalt(c, b, client); }
    hide VisitByte, Inv, Rank;
  }

  lemma StatusLineGoesOn(c: Core, b: byte)
    requires Inv(c) && PhaseOf(c.state).StatusLine?
    ensures !VisitStatusLine(c, b).next.Halt?
  {
  }

  lemma RequestLineGoesOn(c: Core, b: byte)
    requires Inv(c) && PhaseOf(c.state).RequestLine?
    ensures !VisitRequestLine(c, b).next.Halt?
  {
    hide UrlChar, FirstMethod, Sibling, MethodString;
  }

  lemma BodyGoesOn(c: Core, b: byte, client: Client)
    requires Inv(c)
    ensures !VisitBody(c, b, client).next.Halt?
  {
  }

  lemma HeadersGoOn(c: Core, b: byte, client: Client)
    requires Inv(c)
    ensures VisitHeader(c, b, client).next.Halt? ==> c.state.HeadersDone?
  {
  }

  lemma OnlyHeadersHalt(c: Core, b: byte, client: Client)
    requires Inv(c)
    ensures VisitByte(c, b, client).next.Halt? ==> c.state.HeadersDone?
  {
    hide VisitStatusLine, VisitRequestLine, VisitHeader, VisitBody, Inv, PhaseOf;
    match PhaseOf(c.state)
    case StatusLine => StatusLineGoesOn(c, b);
    case RequestLine => RequestLineGoesOn(c, b);
    case Headers => HeadersGoOn(c, b, client);
    case Bodies => BodyGoesOn(c, b, client);
  }

  lemma EndOfValue(c: Core, b: byte, n: nat, client: Client)
    requires Inv(c) && c.state.HeaderValue? && (!LineByte(b) || ValueStep(Acc(c), b).bad)
    ensures var v := VisitByte(c, b, client);
            && !v.next.Halt? && (!v.next.Fail? ==> v.core.state.HeaderAlmostDone? && (v.next.Again? <==> b == LF))
            && Counted(c, v, n, client) == n + (if v.next.Advance? then 1 else 0)
  {
    assert VisitByte(c, b, client) == VisitHeader(c, b, client);
  }

  // ----- the parser object ------------------------------------------------------------

  class Parser {
    const client: Client
    var core: Core
    var nread: nat
    var log: Log
    /** The header bytes since nread was last set back. Looking at a byte again and cutting the
        input make nread count some of them up to five times. */
    ghost var header: nat

    ghost predicate Tight()
      reads this
    {
      nread + Rank(core.state) <= 5 * header + 3
    }

    ghost predicate Valid()
      reads this
    {
      core.errno.Ok? ==>
        && Inv(core) && Tight()
        && (core.state.ChunkSizeStart? ==> nread == 0)
        && (OpenKind(core.state).Some? ==> EndsIn(log, OpenKind(core.state).value))
    }

    /** `http_parser_init`. */
    constructor (t: ParserType, client: Client)
      ensures Valid() && core == InitCore(t) && log == [] && nread == 0 && header == 0 && this.client == client
    {
      this.client := client;
      core := InitCore(t);
      nread, header := 0, 0;
      log := [];
    }

    /** COUNT_HEADER_SIZE(d): false after HPE_HEADER_OVERFLOW. */
    method CountHeaderSize(d: int) returns (ok: bool)
      requires nread + d >= 0
      modifies this`nread, this`core
      ensures nread == old(nread) + d
      ensures ok <==> nread <= MAX_HEADER_SIZE
      ensures core == if ok then old(core) else old(core).(errno := HeaderOverflow)
    {
      nread := nread + d;
      ok := nread <= MAX_HEADER_SIZE;
      if !ok {
        core := core.(errno := HeaderOverflow);
      }
    }

    /** One case of the switch, for the states that handle a byte at a time: data[p] is
        visited, marks are set, callbacks run. goal is the outcome of the whole call. */
    method Visit1(data: seq<byte>, p: nat, marks: map<Kind, nat>, ghost goal: Result, ghost last: nat, ghost peak: nat)
      returns (next: Next, marks': map<Kind, nat>)
      requires p < |data| && Inv(core) && !BodyByte(core.state) && MarksOk(marks, core.state, p)
      requires SizesAt(core, header, data, p, client, last, peak)
      requires Run(core, Seen(log, marks, core.state, data, p), log, data[p..], client) == goal
      modifies this
      ensures next.Advance? || next.Again? ==>
                var q := if next.Again? then p else p + 1;
                && Inv(core) && MarksOk(marks', core.state, q)
                && Run(core, Seen(log, marks', core.state, data, q), log, data[q..], client) == goal
                && (next.Again? ==> Rank(core.state) < Rank(old(core).state))
                && (core.state.ChunkSizeStart? ==> nread == 0)
      ensures next.Fail? ==>
                core == goal.core && goal.rest == data[p..] && goal.status.Failed? && log == goal.kept
                && !core.errno.Ok?
      ensures next.Halt? ==>
                core == goal.core && goal.rest == data[p + 1..] && goal.status.Halted? && log == goal.kept
                && core.errno.Ok? && Inv(core) && OpenKind(core.state).None?
                && (core.state.ChunkSizeStart? ==> nread == 0)
      ensures nread <= old(nread) && (old(core).state.HeaderValue? ==> nread == old(nread))
      ensures next.Advance? || next.Again? ==>
                SizesAt(core, header, data, if next.Again? then p else p + 1, client, last, peak)
      ensures next.Halt? ==> header == last
      ensures !next.Fail? ==> header == Counted(old(core), VisitByte(old(core), data[p], client), old(header), client)
                              && core == VisitByte(old(core), data[p], client).core
                              && next == VisitByte(old(core), data[p], client).next
                              && nread == if Resets(old(core), VisitByte(old(core), data[p], client), client) then 0
                                          else old(nread)
    {
      hide VisitByte, StateInv, Record, Rank, SizesAt, Counted;
      SizesAtVisit(core, header, data, p, client, last, peak);
      var v := VisitByte(core, data[p], client);
      ghost var c := core;
      ghost var seen := Seen(log, marks, c.state, data, p);
      VisitGood(c, data[p], client);
      assert data[p..][0] == data[p] && data[p..][1..] == data[p + 1..];
      next := v.next;
      if next != Fail {
        VisitSeen(c, log, marks, v, data, p);
        header := Counted(c, v, header, client);
        if ResetsCount(core.state) {
          nread := 0;
        }
        if v.notice == Some(MessageComplete) && client.LoadGenerator? && ShouldKeepAlive(core) {
          nread := 0;
        }
      }
      log := Called(log, marks, v, data, p);
      marks' := Marked(marks, v, p);
      core := v.core;
    }

    /** The loop of s_header_field: token bytes up to q. */
    method ScanField(data: seq<byte>, p: nat, marks: map<Kind, nat>, ghost goal: Result, ghost last: nat,
                     ghost peak: nat)
      returns (q: nat)
      requires p < |data| && Inv(core) && core.state.HeaderField? && MarksOk(marks, HeaderField, p)
      requires Run(core, Seen(log, marks, HeaderField, data, p), log, data[p..], client) == goal
      requires SizesAt(core, header, data, p, client, last, peak)
      modifies this`core, this`header
      ensures p <= q <= |data| && Inv(core) && core.state.HeaderField?
      ensures SizesAt(core, header, data, q, client, last, peak) && header == old(header) + (q - p)
      ensures q < |data| ==> Token(data[q]) == 0
      ensures MarksOk(marks, HeaderField, q)
      ensures Run(core, Seen(log, marks, HeaderField, data, q), log, data[q..], client) == goal
    {
      hide *;
      q := p;
      while q < |data|
        invariant p <= q <= |data| && Inv(core) && core.state.HeaderField?
        invariant SizesAt(core, header, data, q, client, last, peak) && header == old(header) + (q - p)
        invariant MarksOk(marks, HeaderField, q)
        invariant Run(core, Seen(log, marks, HeaderField, data, q), log, data[q..], client) == goal
      {
        var ch := data[q];
        var t := Token(ch);
        if t == 0 {
          break;
        }
        NextFieldByte(core, log, marks, data, q, client);
        FieldSizes(core, header, data, q, client, last, peak);
        header := header + 1;
        assert FieldState(core.hstate);  // "Unknown header_state" cannot happen
        var (h, i) := FieldStep(core.hstate, core.index, ch, t);
        core := core.(hstate := h, index := i);
        q := q + 1;
      }
    }

    /** The loop of s_header_value, up to a line end, a bad byte or the end of the data.
        Bytes of a value nobody looks at are skipped with memchr, at most MAX_HEADER_SIZE
        ahead; a longer stretch is skipped unseen, to fail the header size check. */
    method ScanValue(data: seq<byte>, p: nat, marks: map<Kind, nat>, ghost goal: Result, ghost last: nat,
                     ghost peak: nat)
      returns (q: nat)
      requires p < |data| && Inv(core) && core.state.HeaderValue? && MarksOk(marks, HeaderValue, p)
      requires Run(core, Seen(log, marks, HeaderValue, data, p), log, data[p..], client) == goal
      requires SizesAt(core, header, data, p, client, last, peak)
      modifies this`core, this`header
      ensures q - p < MAX_HEADER_SIZE || q < |data| ==>
                SizesAt(core, header, data, q, client, last, peak) && header == old(header) + (q - p)
      ensures peak < MAX_HEADER_SIZE ==>
                SizesAt(core, header, data, q, client, last, peak) && header == old(header) + (q - p)
      ensures p <= q <= |data| && core.state.HeaderValue? && MarksOk(marks, HeaderValue, q)
      ensures q - p < MAX_HEADER_SIZE || q < |data| ==>
                && Inv(core)
                && Run(core, Seen(log, marks, HeaderValue, data, q), log, data[q..], client) == goal
                && (q < |data| ==> !LineByte(data[q]) || ValueStep(Acc(core), data[q]).bad)
    {
      hide Run, Inv, Seen, ValueStep, MarksOk, LineByte, SizesAt;
      q := p;
      while q < |data| && LineByte(data[q])
        invariant p <= q <= |data| && core.state.HeaderValue? && Inv(core) && MarksOk(marks, HeaderValue, q)
        invariant SizesAt(core, header, data, q, client, last, peak) && header == old(header) + (q - p)
        invariant Run(core, Seen(log, marks, HeaderValue, data, q), log, data[q..], client) == goal
      {
        var ch := data[q];
        if core.hstate.General? {
          var limit := if |data| - q < MAX_HEADER_SIZE then |data| - q else MAX_HEADER_SIZE;
          var end := FindLineEnd(data, q, limit);
          if end == |data| && |data| - q > MAX_HEADER_SIZE {
            MarksLater(marks, HeaderValue, q, |data|);
            GeneralSizes(core, header, data, q, q + MAX_HEADER_SIZE, client, last, peak);
            SizesAtNow(core, header + MAX_HEADER_SIZE, data, q + MAX_HEADER_SIZE, client, last, peak);
            return |data|;
          }
          NextGeneralBytes(core, log, marks, data, q, end, client);
          GeneralSizes(core, header, data, q, end, client, last, peak);
          header := header + (end - q);
          q := end;
        } else {
          var a := ValueStep(Acc(core), ch);
          if a.bad {
            return;
          }
          NextValueByte(core, log, marks, data, q, client);
          ValueSizes(core, header, data, q, client, last, peak);
          header := header + 1;
          core := WithAcc(core, a);
          q := q + 1;
        }
      }
    }

    /** s_body_identity, s_body_identity_eof and s_chunk_data take all the bytes they can at once. */
    method EatBody(data: seq<byte>, p: nat, marks: map<Kind, nat>, ghost goal: Result, ghost last: nat, ghost peak: nat)
      returns (q: nat, marks': map<Kind, nat>)
      requires p < |data| && Inv(core) && BodyByte(core.state) && MarksOk(marks, core.state, p)
      requires Run(core, Seen(log, marks, core.state, data, p), log, data[p..], client) == goal
      requires SizesAt(core, header, data, p, client, last, peak)
      modifies this`core, this`log
      ensures SizesAt(core, header, data, q, client, last, peak) && Rank(core.state) <= Rank(old(core).state)
      ensures p <= q <= |data| && Inv(core) && MarksOk(marks', core.state, q)
      ensures Run(core, Seen(log, marks', core.state, data, q), log, data[q..], client) == goal
      ensures q == p ==> old(core).state.BodyIdentity? && core.state.MessageDone?
      ensures !core.state.ChunkSizeStart?
    {
      hide *;
      var c := core;
      marks' := if Body in marks then marks else marks[Body := p];
      if c.state.BodyIdentityEof? {
        BodyFacts(c, 0);
        BodySizes(c, header, data, p, |data|, client, last, peak);
        NextBodyBytes(c, log, marks, data, p, |data|, client);
        return |data|, marks';
      }
      var toRead := if c.contentLength < |data| - p then c.contentLength else |data| - p;
      BodyFacts(c, toRead);
      assert c.contentLength != 0 && c.contentLength != NO_LENGTH;
      q := p + toRead;
      core := Eaten(c, toRead);
      BodyRanks(c, core);
      if core.contentLength == 0 {
        LastBodySizes(c, header, data, p, q, client, last, peak);
        LastBodyBytes(c, log, marks, data, p, q, client);
        core := BodyOver(c);
        if c.state.BodyIdentity? {
          log := Deliver(log, Body, data[marks'[Body]..q]);
          marks' := marks' - {Body};
          q := q - 1;
          assert OpenKind(MessageDone).None? by { MessageDoneClosed(); }
          NoMarks(MessageDone, log, data, q);
        }
      } else {
        BodySizes(c, header, data, p, q, client, last, peak);
        NextBodyBytes(c, log, marks, data, p, q, client);
      }
    }

    /** Position p of data is reached and goal is still what the whole call amounts to. */
    ghost predicate Synced(data: seq<byte>, p: nat, marks: map<Kind, nat>, goal: Result)
      reads this
    {
      && p <= |data| && Inv(core) && MarksOk(marks, core.state, p)
      && Run(core, Seen(log, marks, core.state, data, p), log, data[p..], client) == goal
    }

    ghost predicate Finished(data: seq<byte>, parsed: nat, goal: Result)
      reads this
    {
      && core == goal.core && parsed + |goal.rest| == |data|
      && log == goal.kept
      && (if goal.status.Failed? then !core.errno.Ok?
          else goal.status.Halted? && core.errno.Ok? && Inv(core) && OpenKind(core.state).None?
               && (core.state.ChunkSizeStart? ==> nread == 0))
    }

    /** The limit has struck, so that many header bytes have been counted somewhere. */
    ghost predicate Overflown(peak: nat)
      reads this
    {
      core.errno.HeaderOverflow? && 5 * peak + 4 > MAX_HEADER_SIZE
    }

    /** The switch for one byte of a byte-wise state. */
    method StepVisit(data: seq<byte>, p: nat, marks: map<Kind, nat>, ghost goal: Result, ghost last: nat,
                     ghost peak: nat)
      returns (done: bool, q: nat, marks': map<Kind, nat>)
      requires p < |data| && Synced(data, p, marks, goal) && !BodyByte(core.state)
      requires SizesAt(core, header, data, p, client, last, peak)
      requires nread + Rank(core.state) <= 5 * header + if ParsingHeader(core.state) then 4 else 3
      modifies this
      ensures !done ==> SizesAt(core, header, data, q, client, last, peak) && Tight()
      ensures done ==> !core.errno.HeaderOverflow?
      ensures done && core.errno.Ok? ==> header == last && Tight()
      ensures old(core).state.HeaderValue? && (!LineByte(data[p]) || ValueStep(Acc(old(core)), data[p]).bad) ==>
                (done ==> !core.errno.Ok?)
                && (!done ==>
                    core.state.HeaderAlmostDone? && (q == p <==> data[p] == LF) && header == old(header) + (q - p))
      ensures !done ==>
                && Synced(data, q, marks', goal) && p <= q <= p + 1
                && (q == p ==> Rank(core.state) < Rank(old(core).state))
                && (core.state.ChunkSizeStart? ==> nread == 0)
      ensures done ==> Finished(data, q, goal)
      ensures nread <= old(nread) && q <= |data| && (old(core).state.HeaderValue? ==> nread == old(nread))
    {
      hide Run, Inv, Seen, MarksOk, Rank, OpenKind, SizesAt, VisitByte, Counted, Resets, LineByte, ValueStep;
      var next;
      VisitTight(core, data[p], header, nread, client);
      if core.state.HeaderValue? && (!LineByte(data[p]) || ValueStep(Acc(core), data[p]).bad) {
        EndOfValue(core, data[p], header, client);
      }
      next, marks' := Visit1(data, p, marks, goal, last, peak);
      done := next.Fail? || next.Halt?;
      q := if next.Advance? || next.Halt? then p + 1 else p;
    }

    method StepField(data: seq<byte>, p: nat, marks: map<Kind, nat>, ghost goal: Result, ghost last: nat,
                     ghost peak: nat)
      returns (done: bool, q: nat, marks': map<Kind, nat>)
      requires p < |data| && Synced(data, p, marks, goal) && core.state.HeaderField?
      requires SizesAt(core, header, data, p, client, last, peak) && nread <= 5 * header + 4
      modifies this
      ensures !done ==> SizesAt(core, header, data, q, client, last, peak) && Tight()
      ensures done && core.errno.HeaderOverflow? ==> Overflown(peak)
      ensures done && core.errno.Ok? ==> header == last && Tight()
      ensures !done ==> Synced(data, q, marks', goal) && p < q && (core.state.ChunkSizeStart? ==> nread == 0)
      ensures done ==> (core.errno.HeaderOverflow? && nread > MAX_HEADER_SIZE) || Finished(data, q, goal)
      ensures q <= |data| && nread <= old(nread) + (|data| - p)
      ensures !done ==> nread <= old(nread) + (q - p)
    {
      hide Run, Inv, Seen, MarksOk, Rank, OpenKind, Finished, MAX_HEADER_SIZE, SizesAt, LineByte, ValueStep;
      RankIsSmall(core.state);
      q := ScanField(data, p, marks, goal, last, peak);
      SizesAtNow(core, header, data, q, client, last, peak);
      var ok := CountHeaderSize(q - p);
      if !ok {
        return true, q, marks;
      }
      if q == |data| {
        return false, q, marks;
      }
      RankIsSmall(core.state);
      done, q, marks' := StepVisit(data, q, marks, goal, last, peak);
    }

    method StepValue(data: seq<byte>, p: nat, marks: map<Kind, nat>, ghost goal: Result, ghost last: nat,
                     ghost peak: nat)
      returns (done: bool, q: nat, marks': map<Kind, nat>)
      requires p < |data| && Synced(data, p, marks, goal) && core.state.HeaderValue? && nread >= 1
      requires SizesAt(core, header, data, p, client, last, peak) && nread <= 5 * header + 3
      modifies this
      ensures !done ==> SizesAt(core, header, data, q, client, last, peak) && Tight()
      ensures done && core.errno.HeaderOverflow? ==> Overflown(peak)
      ensures done && core.errno.Ok? ==> header == last && Tight()
      ensures !done ==>
                && Synced(data, q, marks', goal) && p <= q && (core.state.ChunkSizeStart? ==> nread == 0)
                && (q == p ==> Rank(core.state) == 0)
                && nread <= old(nread) + 2 * (q - p) && (q == p ==> nread <= old(nread))
      ensures done ==> (core.errno.HeaderOverflow? && nread > MAX_HEADER_SIZE) || Finished(data, q, goal)
      ensures q <= |data| && nread <= old(nread) + 2 * (|data| - p)
    {
      hide Run, Inv, Seen, MarksOk, Rank, OpenKind, Finished, SizesAt, LineByte, ValueStep;
      RankIsSmall(core.state);
      q := ScanValue(data, p, marks, goal, last, peak);
      if peak < MAX_HEADER_SIZE || q < |data| || q - p < MAX_HEADER_SIZE {
        SizesAtNow(core, header, data, q, client, last, peak);
      }
      if q == |data| {
        var ok := CountHeaderSize(q - p);
        return !ok, q, marks;
      }
      var stop := q;
      var lf := data[q] == LF;
      if lf {
        var ok := CountHeaderSize(stop - p);
        if !ok {
          return true, q, marks;
        }
      }
      RankIsSmall(core.state);
      done, q, marks' := StepVisit(data, stop, marks, goal, last, peak);
      if !done {
        RankIsSmall(core.state);
        SizesAtNow(core, header, data, q, client, last, peak);
        var ok := CountHeaderSize(if lf then stop - p - 1 else stop - p);
        if !ok {
          return true, q, marks';
        }
      }
    }

    /** One turn of the main loop of `http_parser_execute`. */
    method Step(data: seq<byte>, p: nat, marks: map<Kind, nat>, ghost goal: Result, ghost last: nat, ghost peak: nat)
      returns (done: bool, q: nat, marks': map<Kind, nat>)
      requires p < |data| && Synced(data, p, marks, goal) && (core.state.ChunkSizeStart? ==> nread == 0)
      requires SizesAt(core, header, data, p, client, last, peak) && Tight()
      modifies this
      ensures !done ==> SizesAt(core, header, data, q, client, last, peak) && Tight()
      ensures done && core.errno.HeaderOverflow? ==> Overflown(peak)
      ensures done && core.errno.Ok? ==> header == last && Tight()
      ensures !done ==>
                && Synced(data, q, marks', goal) && p <= q && (core.state.ChunkSizeStart? ==> nread == 0)
                && (q == p ==> Rank(core.state) < Rank(old(core).state))
                && nread + Rank(core.state) + 5 * p <= old(nread) + Rank(old(core).state) + 5 * q
      ensures done ==> (core.errno.HeaderOverflow? && nread > MAX_HEADER_SIZE) || Finished(data, q, goal)
      ensures q <= |data| && nread <= old(nread) + 4 * (|data| - p)
    {
      hide Run, Inv, Seen, MarksOk, Rank, OpenKind, Finished, SizesAt;
      RankIsSmall(core.state);
      AssertsHold(core);
      SizesAtNow(core, header, data, p, client, last, peak);
      if ParsingHeader(core.state) {
        var ok := CountHeaderSize(1);
        if !ok {
          return true, p, marks;
        }
      }
      assert core.state.ChunkSizeStart? ==> nread == 1;
      assert InChunks(core.state) ==> Chunked in core.flags;
      assert core.state.HeaderValue? ==> !core.hstate.ConnectionHeader? && !core.hstate.TransferEncodingHeader?;
      if core.state.HeaderField? {
        done, q, marks' := StepField(data, p, marks, goal, last, peak);
      } else if core.state.HeaderValue? {
        done, q, marks' := StepValue(data, p, marks, goal, last, peak);
      } else if BodyByte(core.state) {
        q, marks' := EatBody(data, p, marks, goal, last, peak);
        done := false;
      } else {
        done, q, marks' := StepVisit(data, p, marks, goal, last, peak);
      }
      RankIsSmall(core.state);
    }

    /** `http_parser_execute`. Whatever the marks and block-wise loops do, a call that does not
        run into the header size limit leaves the parser, the deliveries and the number of
        bytes consumed as the byte-wise meaning has them. */
    method Execute(data: seq<byte>) returns (parsed: nat)
      requires Valid()
      modifies this
      ensures Valid()
      ensures old(core).errno != Ok ==> parsed == 0 && core == old(core) && log == old(log) && nread == old(nread)
      ensures old(core).errno.Ok? && data == [] ==>
                if old(core).state.BodyIdentityEof? then
                  parsed == 0 && core == AfterComplete(old(core), client)
                      && log == old(log) + [Notified(MessageComplete)]
                else if old(core).state.Dead? || old(core).state.StartReqOrRes? || old(core).state.StartRes?
                    || old(core).state.StartReq? then
                  parsed == 0 && core == old(core) && log == old(log)
                else
                  parsed == 1 && core == old(core).(errno := InvalidEofState) && log == old(log)
      ensures old(core).errno.Ok? && data != [] && core.errno != HeaderOverflow ==>
                var r := Run(old(core), old(log), old(log), data, client);
                && core == r.core && log == r.kept && parsed + |r.rest| == |data|
                && (core.errno.Ok? <==> !r.status.Failed?)
      ensures old(core).errno.Ok? && core.errno == HeaderOverflow ==>
                nread > MAX_HEADER_SIZE && 5 * Peak(old(core), old(header), data, client) + 4 > MAX_HEADER_SIZE
      ensures old(core).errno.Ok? && core.errno.Ok? ==>
                if data == [] then header <= old(header) else header == Last(old(core), old(header), data, client)
      ensures old(core).errno.Ok? ==> nread <= old(nread) + 5 * |data| + 3
    {
      if core.errno != Ok {
        return 0;
      }
      if data == [] {
        parsed := ExecuteEof();
        return;
      }
      parsed := ExecuteBytes(data);
    }

    /** The call with len == 0: the peer closed the connection. */
    method ExecuteEof() returns (parsed: nat)
      requires Valid() && core.errno.Ok?
      modifies this
      ensures Valid() && nread <= old(nread) && header <= old(header)
      ensures if old(core).state.BodyIdentityEof? then
                parsed == 0 && core == AfterComplete(old(core), client) && log == old(log) + [Notified(MessageComplete)]
              else if old(core).state.Dead? || old(core).state.StartReqOrRes? || old(core).state.StartRes?
                  || old(core).state.StartReq? then
                parsed == 0 && core == old(core) && log == old(log)
              else
                parsed == 1 && core == old(core).(errno := InvalidEofState) && log == old(log)
    {
      if core.state.BodyIdentityEof? {
        CompleteRank(core, client, Advance);
        if client.LoadGenerator? && ShouldKeepAlive(core) {
          nread, header := 0, 0;
        }
        core := AfterComplete(core, client);
        log := log + [Notified(MessageComplete)];
        return 0;
      } else if core.state.Dead? || core.state.StartReqOrRes? || core.state.StartRes? || core.state.StartReq? {
        return 0;
      }
      core := core.(errno := InvalidEofState);
      return 1;
    }

    method ExecuteBytes(data: seq<byte>) returns (parsed: nat)
      requires Valid() && core.errno.Ok? && data != []
      modifies this
      ensures Valid()
      ensures core.errno != HeaderOverflow ==>
                var r := Run(old(core), old(log), old(log), data, client);
                && core == r.core && log == r.kept && parsed + |r.rest| == |data|
                && (core.errno.Ok? <==> !r.status.Failed?)
      ensures core.errno == HeaderOverflow ==>
                nread > MAX_HEADER_SIZE && 5 * Peak(old(core), old(header), data, client) + 4 > MAX_HEADER_SIZE
      ensures core.errno.Ok? ==> header == Last(old(core), old(header), data, client)
      ensures nread <= old(nread) + 5 * |data| + 3
    {
      hide Run, Inv, Seen, MarksOk, Rank, OpenKind, SizesAt, Last, Peak;
      ghost var goal := Run(core, log, log, data, client);
      ghost var last, peak := Last(core, header, data, client), Peak(core, header, data, client);
      SizesStart(core, header, data, client);
      var marks := EntryMarks(core.state);
      EntrySeen(core.state, log, data);
      assert data[0..] == data;
      var done;
      done, parsed, marks := MainLoop(data, marks, goal, last, peak);
      if !done {
        SizesAtNow(core, header, data, |data|, client, last, peak);
        AssertsHold(core);
        FinalCallbacks(data, marks, goal);
      }
    }

    /** The main loop of `http_parser_execute`; done: it has been left before the end of the data. */
    method MainLoop(data: seq<byte>, marks0: map<Kind, nat>, ghost goal: Result, ghost last: nat, ghost peak: nat)
      returns (done: bool, p: nat, marks: map<Kind, nat>)
      requires Synced(data, 0, marks0, goal) && (core.state.ChunkSizeStart? ==> nread == 0)
      requires SizesAt(core, header, data, 0, client, last, peak) && Tight()
      modifies this
      ensures !done ==> p == |data| && Synced(data, p, marks, goal) && (core.state.ChunkSizeStart? ==> nread == 0)
      ensures !done ==> SizesAt(core, header, data, p, client, last, peak) && Tight()
      ensures done && core.errno.HeaderOverflow? ==> Overflown(peak)
      ensures done && core.errno.Ok? ==> header == last && Tight()
      ensures done ==> (core.errno.HeaderOverflow? && nread > MAX_HEADER_SIZE) || Finished(data, p, goal)
      ensures nread <= old(nread) + 5 * |data| + 3
    {
      hide Run, Inv, Seen, MarksOk, Rank, OpenKind, SizesAt, Finished;
      marks, p, done := marks0, 0, false;
      RankIsSmall(core.state);
      while p < |data|
        invariant !done && p <= |data| && Synced(data, p, marks, goal) && (core.state.ChunkSizeStart? ==> nread == 0)
        invariant nread + Rank(core.state) <= old(nread) + 3 + 5 * p
        invariant SizesAt(core, header, data, p, client, last, peak) && Tight()
        decreases |data| - p, Rank(core.state)
      {
        done, p, marks := Step(data, p, marks, goal, last, peak);
        if done {
          return;
        }
      }
    }

    /** CALLBACK_DATA_NOADVANCE at the end of the data. */
    method CallbackData(k: Kind, data: seq<byte>, marks: map<Kind, nat>)
      requires k in marks ==> marks[k] <= |data|
      modifies this`log
      ensures log == if k in marks then Deliver(old(log), k, data[marks[k]..]) else old(log)
    {
      if k in marks {
        log := Deliver(log, k, data[marks[k]..]);
      }
    }

    /** The callbacks for the mark that is left when the bytes have run out; there is at most one. */
    method FinalCallbacks(data: seq<byte>, marks: map<Kind, nat>, ghost goal: Result)
      requires Synced(data, |data|, marks, goal)
      modifies this`log
      ensures goal == Result(core, log, log, [], Running)
      ensures OpenKind(core.state).Some? ==> EndsIn(log, OpenKind(core.state).value)
    {
      ghost var log0 := log;
      assert (if Field in marks then 1 else 0) + (if Value in marks then 1 else 0) + (if Url in marks then 1 else 0)
             + (if Body in marks then 1 else 0) + (if Status in marks then 1 else 0) <= 1;
      assert data[|data|..] == [];
      CallbackData(Field, data, marks);
      CallbackData(Value, data, marks);
      CallbackData(Url, data, marks);
      CallbackData(Body, data, marks);
      CallbackData(Status, data, marks);
      FinalSeen(core.state, log0, marks, data);
      assert log == Seen(log0, marks, core.state, data, |data|);
    }
  }

  lemma FinalSeen(s: State, log: Log, marks: map<Kind, nat>, data: seq<byte>)
    requires MarksOk(marks, s, |data|)
    ensures match MarkKind(s)
            case Some(k) => Seen(log, marks, s, data, |data|) == if k in marks then Deliver(log, k, data[marks[k]..])
                else log
            case None => Seen(log, marks, s, data, |data|) == log
    ensures OpenKind(s).Some? ==> EndsIn(Seen(log, marks, s, data, |data|), OpenKind(s).value)
  {
    match MarkKind(s) {
      case Some(k) => if k in marks { assert data[marks[k]..|data|] == data[marks[k]..]; }
      case None =>
    }
  }

  function EntryMarks(s: State): map<Kind, nat> {
    match OpenKind(s) case Some(k) => map[k := 0] case None => map[]
  }

  lemma EntrySeen(s: State, log: Log, data: seq<byte>)
    requires OpenKind(s).Some? ==> EndsIn(log, OpenKind(s).value)
    ensures MarksOk(EntryMarks(s), s, 0) && Seen(log, EntryMarks(s), s, data, 0) == log
  {
    if OpenKind(s).Some? {
      SameKind(s, s);
      hide OpenKind, MarkKind, Deliver, EndsIn;
      DeliverNothing(log, OpenKind(s).value);
      assert data[0..0] == [];
    }
  }
}