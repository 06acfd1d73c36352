/** How the network cuts the stream does not matter. */
module HttpSplit {
  import opened HttpTypes
  import opened HttpVisit
  import opened HttpRun
  import opened HttpSize
  import opened HttpParser

  function Joined(pieces: seq<seq<byte>>): seq<byte> {
    if pieces == [] then [] else pieces[0] + Joined(pieces[1..])
  }

  /** The read loop of a client: pieces are handed over one by one until a call does not
      consume its piece. Outcome and consumption are those of a single call on the whole
      stream, unless a message asks for an upgrade or the header size limit strikes; and it
      cannot strike while the header bytes between two resets stay below a fifth of it. */
  method Feed(p: Parser, pieces: seq<seq<byte>>) returns (parsed: nat)
    requires p.Valid() && p.core.errno.Ok?
    requires forall i :: 0 <= i < |pieces| ==> pieces[i] != []
    modifies p
    ensures p.Valid()
    ensures var r := Run(old(p.core), old(p.log), old(p.log), Joined(pieces), p.client);
            p.core.errno != HeaderOverflow && !r.status.Halted? ==>
              && p.core == r.core && parsed + |r.rest| == |Joined(pieces)|
              && (r.status.Running? ==>
                    p.log == r.log && p.header == Last(old(p.core), old(p.header), Joined(pieces), p.client))
    ensures !Run(old(p.core), old(p.log), old(p.log), Joined(pieces), p.client).status.Halted?
            && 5 * Peak(old(p.core), old(p.header), Joined(pieces), p.client) + 4 <= MAX_HEADER_SIZE
            ==> p.core.errno != HeaderOverflow
    ensures p.nread <= old(p.nread) + 8 * |Joined(pieces)|
  {
    hide Run, Inv, Last, Peak;
    parsed := 0;
    var i := 0;
    ghost var whole := Joined(pieces);
    ghost var goal := Run(p.core, p.log, p.log, whole, p.client);
    ghost var last, peak := Last(p.core, p.header, whole, p.client), Peak(p.core, p.header, whole, p.client);
    assert pieces[0..] == pieces;
    while i < |pieces|
      invariant 0 <= i <= |pieces| && p.Valid() && p.core.errno.Ok?
      invariant parsed + |Joined(pieces[i..])| == |whole|
      invariant goal.status.Halted?
                || (Outcome(Run(p.core, p.log, p.log, Joined(pieces[i..]), p.client)) == Outcome(goal)
                    && Peak(p.core, p.header, Joined(pieces[i..]), p.client) <= peak
                    && (goal.status.Running? ==> Last(p.core, p.header, Joined(pieces[i..]), p.client) == last))
      invariant p.nread <= old(p.nread) + 8 * parsed
    {
      assert pieces[i..][0] == pieces[i] && pieces[i..][1..] == pieces[i + 1..];
      RunSplits(p.core, p.log, p.log, pieces[i], Joined(pieces[i + 1..]), p.client);
      SizesSplit(p.core, p.log, p.header, pieces[i], Joined(pieces[i + 1..]), p.client);
      var n := p.Execute(pieces[i]);
      parsed := parsed + n;
      if p.core.errno != Ok || n != |pieces[i]| {
        return;
      }
      i := i + 1;
    }
    assert Joined(pieces[|pieces|..]) == [];
    RunNothing(p.core, p.log, p.client);
    SizesNothing(p.core, p.header, p.client);
  }
}
