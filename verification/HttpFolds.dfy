/** Header values that go on in other lines: what the scanner makes of them. */
module HttpFolds {
  import opened HttpTypes
  import opened HttpVisit
  import opened HttpMessage
  import opened HttpNames
  import opened HttpLists

  /** At the blank that begins another line the scan starts anew: only the beginning of an element of
      a Connection list is remembered. */
  function Refold(a: ValueAcc): ValueAcc { a.(h := if a.h.TokenStart? then a.h else General, index := 0) }

  function ScanOn(a: ValueAcc, text: seq<byte>): ValueAcc {
    if text == [] then a else ValueStep(ScanOn(a, text[..|text| - 1]), text[|text| - 1])
  }

  function ScanFolds(a: ValueAcc, fs: seq<Fold>): ValueAcc {
    if fs == [] then a else ScanOn(Refold(ScanFolds(a, fs[..|fs| - 1])), fs[|fs| - 1].text)
  }

  /** A value that can go on: not that of a length. */
  predicate Foldable(a: ValueAcc) {
    && !a.bad
    && !a.h.ConnectionHeader? && !a.h.TransferEncodingHeader? && !a.h.UpgradeHeader? && !a.h.ContentLengthHeader?
  }

  lemma FirstFoldable(h: HeaderState, f: Framing, b: byte)
    requires !h.ContentLengthHeader? && !h.TokenStart?
    ensures Foldable(FirstAcc(h, f, b))
  {
  }

  lemma StepFoldable(a: ValueAcc, b: byte)
    requires Foldable(a)
    ensures Foldable(ValueStep(a, b))
  {
  }

  lemma {:induction false} TextFoldable(h: HeaderState, f: Framing, value: seq<byte>)
    requires |value| > 0 && !h.ContentLengthHeader? && !h.TokenStart?
    ensures Foldable(ScanText(h, f, value))
  {
    hide ValueStep, FirstAcc, Foldable;
    if |value| == 1 {
      FirstFoldable(h, f, value[0]);
    } else {
      TextFoldable(h, f, value[..|value| - 1]);
      StepFoldable(ScanText(h, f, value[..|value| - 1]), value[|value| - 1]);
    }
  }

  lemma {:induction false} OnFoldable(a: ValueAcc, text: seq<byte>)
    requires Foldable(a)
    ensures Foldable(ScanOn(a, text))
  {
    hide ValueStep, Foldable;
    if text != [] {
      OnFoldable(a, text[..|text| - 1]);
      StepFoldable(ScanOn(a, text[..|text| - 1]), text[|text| - 1]);
    }
  }

  lemma {:induction false} FoldsFoldable(a: ValueAcc, fs: seq<Fold>)
    requires Foldable(a)
    ensures Foldable(ScanFolds(a, fs))
  {
    if fs != [] {
      FoldsFoldable(a, fs[..|fs| - 1]);
      OnFoldable(Refold(ScanFolds(a, fs[..|fs| - 1])), fs[|fs| - 1].text);
    }
  }

  // ----- what it means ------------------------------------------------------------------

  lemma {:induction false} OnGeneral(a: ValueAcc, text: seq<byte>)
    requires a.h.General?
    ensures ScanOn(a, text) == a
  {
    if text != [] {
      OnGeneral(a, text[..|text| - 1]);
    }
  }

  /** Once nothing is looked for any more, nothing is found. */
  lemma {:induction false} FoldsGeneral(a: ValueAcc, fs: seq<Fold>)
    requires fs != [] && !a.h.TokenStart?
    ensures ScanFolds(a, fs) == a.(h := General, index := 0)
  {
    var front := fs[..|fs| - 1];
    if front != [] {
      FoldsGeneral(a, front);
    }
    OnGeneral(Refold(ScanFolds(a, front)), fs[|fs| - 1].text);
  }

  /** The first other line comes first. */
  lemma {:induction false} FoldsFirst(a: ValueAcc, fs: seq<Fold>)
    requires fs != []
    ensures ScanFolds(a, fs) == ScanFolds(ScanOn(Refold(a), fs[0].text), fs[1..])
  {
    hide ScanOn, Refold;
    if |fs| == 1 {
      assert fs[..0] == [] && fs[1..] == [];
    } else {
      FoldsFirst(a, fs[..|fs| - 1]);
      assert fs[..|fs| - 1][1..] == fs[1..][..|fs| - 2] && fs[..|fs| - 1][0] == fs[0];
      assert fs[1..][|fs| - 2] == fs[|fs| - 1];
    }
  }

  lemma {:induction false} OnText(f: Framing, value: seq<byte>, text: seq<byte>)
    requires |value| > 0
    ensures ScanOn(ScanText(ConnectionHeader, f, value), text) == ScanText(ConnectionHeader, f, value + text)
  {
    hide ValueStep, FirstAcc;
    if text == [] {
      assert value + text == value;
    } else {
      OnText(f, value, text[..|text| - 1]);
      assert (value + text)[..|value + text| - 1] == value + text[..|text| - 1];
    }
  }

  /** At the end of a list the scanner stands at the beginning of an element just when one can begin. */
  lemma OpenEndIs(f: Framing, value: seq<byte>)
    requires |value| > 0
    ensures var a, es := ScanText(ConnectionHeader, f, value), Elements(value);
            && (a.h.TokenStart? <==> OpenEnd(es)) && (a.h.TokenStart? ==> a.index == 0)
            && a.length == f.length && a.flags == f.flags + ListFlags(es[..|es| - 1])
  {
    ListScanned(f, value);
    hide ScanText, ListFlags, Keyed, IsKeyword, Elements;
  }

  lemma AtSpace(f: Framing, value: seq<byte>)
    requires |value| > 0 && ScanText(ConnectionHeader, f, value).h.TokenStart?
    ensures ScanText(ConnectionHeader, f, value + [SP]) == ScanText(ConnectionHeader, f, value)
  {
    assert (value + [SP])[..|value|] == value;
    hide ScanText;
  }

  lemma {:induction false} ListFolded(f: Framing, value: seq<byte>, fs: seq<Fold>)
    requires |value| > 0
    ensures var a := ScanFolds(ScanText(ConnectionHeader, f, value), fs);
            && a.length == f.length && !a.h.ChunkedValue?
            && a.flags + TokenFlag(a.h) == f.flags + FoldedFlags(value, fs)
    decreases |fs|
  {
    var a0 := ScanText(ConnectionHeader, f, value);
    hide ScanText, ListFlags, Elements, ScanOn, OpenEnd;
    OpenEndIs(f, value);
    if fs == [] {
      ListText(f, value);
    } else if a0.h.TokenStart? {
      AtSpace(f, value);
      OnText(f, value + [SP], fs[0].text);
      FoldsFirst(a0, fs);
      ListFolded(f, value + [SP] + fs[0].text, fs[1..]);
    } else {
      FoldsGeneral(a0, fs);
    }
  }

  /** The message framing after a header value with all its lines: what the parser collected is what
      it means. */
  lemma FoldsEffect(h: HeaderState, f: Framing, value: seq<byte>, fs: seq<Fold>)
    requires |value| > 0 && !h.TokenStart?
    requires h.ContentLengthHeader? ==> Numeric(value) && !TooLong(value) && fs == []
    ensures var a := ScanFolds(ScanText(h, f, value), fs);
            && !a.bad
            && Framing(a.flags + (if a.h.ChunkedValue? then {Chunked} else TokenFlag(a.h)), a.length)
               == ClassEffect(f, h, value, fs)
  {
    hide ScanText, Keyed, IsKeyword, Num, ListFlags, Elements, FoldedFlags, Foldable;
    TextEffect(h, f, value);
    if fs != [] {
      var a0 := ScanText(h, f, value);
      TextFoldable(h, f, value);
      FoldsFoldable(a0, fs);
      NotBad(ScanFolds(a0, fs));
      match h {
        case ConnectionHeader => ListFolded(f, value, fs);
        case TransferEncodingHeader =>
          EncodingText(f, value);
          FoldsGeneral(a0, fs);
        case _ =>
          GeneralText(h, f, value);
          FoldsGeneral(a0, fs);
      }
    }
  }

  lemma NotBad(a: ValueAcc)
    requires Foldable(a)
    ensures !a.bad
  {
  }

  lemma {:induction false} FoldedFlagsAre(value: seq<byte>, fs: seq<Fold>)
    ensures FoldedFlags(value, fs) <= {ConnClose, ConnKeepAlive, ConnUpgrade}
    decreases |fs|
  {
    var es := Elements(value);
    hide ListFlags, Elements, OpenEnd;
    ListFlagsAre(es);
    ListFlagsAre(es[..|es| - 1]);
    if fs != [] && OpenEnd(es) {
      FoldedFlagsAre(value + [SP] + fs[0].text, fs[1..]);
    }
  }
}
