/** How much of a stream counts against the header size limit. */
module HttpSize {
  import opened HttpTypes
  import opened HttpVisit
  import opened HttpRun

  /** The visit sets `nread` back: at the end of the headers and around chunks, or because the load
      generator initialises the parser after a message. */
  predicate Resets(c: Core, v: Visit, client: Client) {
    ResetsCount(c.state) || (v.notice == Some(MessageComplete) && client.LoadGenerator? && ShouldKeepAlive(c))
  }

  /** The header bytes since the count was last set back: n before the visit. */
  function Counted(c: Core, v: Visit, n: nat, client: Client): nat {
    if Resets(c, v, client) then 0
    else if v.next.Advance? && ParsingHeader(c.state) then n + 1
    else n
  }

  /** The header bytes that have been counted when s has been read. */
  function Last(c: Core, n: nat, s: seq<byte>, client: Client): nat
    requires Inv(c)
    decreases |s|, Rank(c.state)
  {
    if s == [] then n
    else
      VisitGood(c, s[0], client);
      var v := VisitByte(c, s[0], client);
      match v.next
      case Advance => Last(v.core, Counted(c, v, n, client), s[1..], client)
      case Again => Last(v.core, Counted(c, v, n, client), s, client)
      case Fail => n
      case Halt => Counted(c, v, n, client)
  }

  /** The most that are counted at any place in s: headers, trailers, chunk sizes, but no bodies. */
  function Peak(c: Core, n: nat, s: seq<byte>, client: Client): (m: nat)
    requires Inv(c)
    ensures n <= m
    decreases |s|, Rank(c.state)
  {
    if s == [] then n
    else
      VisitGood(c, s[0], client);
      var v := VisitByte(c, s[0], client);
      var m := match v.next
               case Advance => Peak(v.core, Counted(c, v, n, client), s[1..], client)
               case Again => Peak(v.core, Counted(c, v, n, client), s, client)
               case _ => n;
      if m < n then n else m
  }

  lemma SizesNothing(c: Core, n: nat, client: Client)
    requires Inv(c)
    ensures Last(c, n, [], client) == n && Peak(c, n, [], client) == n
  {
  }

  /** From here on, so many header bytes are counted in the end, and at most peak anywhere. */
  ghost predicate Sizes(c: Core, n: nat, s: seq<byte>, client: Client, last: nat, peak: nat) {
    Inv(c) && Last(c, n, s, client) == last && Peak(c, n, s, client) <= peak
  }

  lemma SizesNow(c: Core, n: nat, s: seq<byte>, client: Client, last: nat, peak: nat)
    requires Sizes(c, n, s, client, last, peak)
    ensures n <= peak && (s == [] ==> n == last)
  {
  }

  lemma SizesVisit(c: Core, n: nat, s: seq<byte>, client: Client, last: nat, peak: nat)
    requires s != [] && Sizes(c, n, s, client, last, peak)
    ensures var v := VisitByte(c, s[0], client);
            var n2 := Counted(c, v, n, client);
            && (v.next.Advance? ==> Sizes(v.core, n2, s[1..], client, last, peak))
            && (v.next.Again? ==> Sizes(v.core, n2, s, client, last, peak))
            && (v.next.Halt? ==> n2 == last)
  {
    VisitGood(c, s[0], client);
    hide VisitByte, Inv;
  }

  /** The same, from place p of data on. */
  ghost predicate SizesAt(c: Core, n: nat, data: seq<byte>, p: nat, client: Client, last: nat, peak: nat) {
    p <= |data| && Sizes(c, n, data[p..], client, last, peak)
  }

  lemma SizesAtNow(c: Core, n: nat, data: seq<byte>, p: nat, client: Client, last: nat, peak: nat)
    requires SizesAt(c, n, data, p, client, last, peak)
    ensures n <= peak && (p == |data| ==> n == last) && Inv(c)
  {
    SizesNow(c, n, data[p..], client, last, peak);
  }

  lemma SizesStart(c: Core, n: nat, data: seq<byte>, client: Client)
    requires Inv(c)
    ensures SizesAt(c, n, data, 0, client, Last(c, n, data, client), Peak(c, n, data, client))
  {
    hide Last, Peak, Inv;
    assert data[0..] == data;
  }

  lemma SizesAtVisit(c: Core, n: nat, data: seq<byte>, p: nat, client: Client, last: nat, peak: nat)
    requires p < |data| && SizesAt(c, n, data, p, client, last, peak)
    ensures Inv(c)
    ensures var v := VisitByte(c, data[p], client);
            var n2 := Counted(c, v, n, client);
            && (v.next.Advance? ==> SizesAt(v.core, n2, data, p + 1, client, last, peak))
            && (v.next.Again? ==> SizesAt(v.core, n2, data, p, client, last, peak))
            && (v.next.Halt? ==> n2 == last)
  {
    hide Sizes, VisitByte, Inv;
    assert data[p..][0] == data[p] && data[p..][1..] == data[p + 1..];
    SizesInv(c, n, data[p..], client, last, peak);
    SizesVisit(c, n, data[p..], client, last, peak);
  }

  lemma SizesInv(c: Core, n: nat, s: seq<byte>, client: Client, last: nat, peak: nat)
    requires Sizes(c, n, s, client, last, peak)
    ensures Inv(c)
  {
  }

  function Max(a: nat, b: nat): nat { if a < b then b else a }

  /** Sizes one visit later. */
  lemma SizesOne(c: Core, n: nat, s: seq<byte>, client: Client)
    requires Inv(c) && s != []
    ensures var v := VisitByte(c, s[0], client);
            var n2 := Counted(c, v, n, client);
            match v.next
            case Advance => Inv(v.core) && Last(c, n, s, client) == Last(v.core, n2, s[1..], client)
                            && Peak(c, n, s, client) == Max(n, Peak(v.core, n2, s[1..], client))
            case Again => Inv(v.core) && Last(c, n, s, client) == Last(v.core, n2, s, client)
                          && Peak(c, n, s, client) == Max(n, Peak(v.core, n2, s, client))
            case _ => Peak(c, n, s, client) == n
  {
    VisitGood(c, s[0], client);
    hide VisitByte, Inv, Counted;
  }

  /** Counting b after a is counting a + b. */
  lemma {:induction false} SizesSplit(c: Core, log: Log, n: nat, a: seq<byte>, b: seq<byte>, client: Client)
    requires Inv(c)
    ensures var r := Run(c, log, log, a, client);
            r.status.Running? ==>
              var m := Last(c, n, a, client);
              && Last(c, n, a + b, client) == Last(r.core, m, b, client)
              && Peak(c, n, a + b, client) == Max(Peak(c, n, a, client), Peak(r.core, m, b, client))
    ensures Peak(c, n, a, client) <= Peak(c, n, a + b, client)
    decreases |a|, Rank(c.state)
  {
    if a == [] {
      assert a + b == b;
    } else {
      VisitGood(c, a[0], client);
      var v := VisitByte(c, a[0], client);
      var log2 := Record(c, log, v, a[0]);
      assert (a + b)[1..] == a[1..] + b && (a + b)[0] == a[0];
      SizesOne(c, n, a, client);
      SizesOne(c, n, a + b, client);
      var n2 := Counted(c, v, n, client);
      hide VisitByte, Inv, Record, Counted, Commit, Last, Peak;
      match v.next {
        case Advance =>
          SizesSplit(v.core, log2, n2, a[1..], b, client);
          KeptIsIrrelevant(v.core, log2, Commit(v.core.state, log2, log), log2, a[1..], client);
        case Again =>
          SizesSplit(v.core, log2, n2, a, b, client);
          KeptIsIrrelevant(v.core, log2, Commit(v.core.state, log2, log), log2, a, client);
        case Fail =>
        case Halt =>
      }
    }
  }

  /** No byte counts more than once. */
  lemma {:induction false} SizesGrow(c: Core, n: nat, s: seq<byte>, client: Client)
    requires Inv(c)
    ensures Last(c, n, s, client) <= n + |s| && Peak(c, n, s, client) <= n + |s|
    decreases |s|, Rank(c.state)
  {
    if s != [] {
      VisitGood(c, s[0], client);
      var v := VisitByte(c, s[0], client);
      var n2 := Counted(c, v, n, client);
      hide VisitByte, Inv;
      match v.next {
        case Advance => SizesGrow(v.core, n2, s[1..], client);
        case Again => SizesGrow(v.core, n2, s, client);
        case Fail =>
        case Halt =>
      }
    }
  }
}
