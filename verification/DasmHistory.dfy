/** Everything that was put, in order, and how the label events follow from it. */
module DasmHistory {
  import opened DasmLabels
  import opened DasmActions

  /** An action put, or a check between steps. */
  datatype Step = Did(it: Item) | Check

  function StepEvents(lists: seq<seq<Action>>, s: Step): seq<Event> {
    if s.Check? then [Forget] else Events(lists, s.it)
  }

  /** The label events of a history. */
  function Story(lists: seq<seq<Action>>, h: seq<Step>): seq<Event> {
    if h == [] then [] else Story(lists, h[..|h| - 1]) + StepEvents(lists, h[|h| - 1])
  }

  function Dids(items: seq<Item>): (h: seq<Step>)
    ensures |h| == |items| && forall k :: 0 <= k < |h| ==> h[k] == Did(items[k])
  {
    seq(|items|, k requires 0 <= k < |items| => Did(items[k]))
  }

  ghost predicate Within(trace: seq<seq<Item>>, it: Item) { exists t <- trace :: it in t }

  /** The history tells of all the items in the sections and of no others, and of all label events. */
  ghost predicate Told(lists: seq<seq<Action>>, trace: seq<seq<Item>>, log: seq<Event>, h: seq<Step>) {
    && log == Story(lists, h)
    && (forall s <- h :: s.Did? ==> Within(trace, s.it))
    && (forall t <- trace, it <- t :: Did(it) in h)
  }

  lemma Assoc(x: seq<Event>, y: seq<Event>, z: seq<Event>)
    ensures (x + y) + z == x + (y + z)
  {
  }

  lemma DidsLast(h: seq<Step>, items: seq<Item>)
    requires items != []
    ensures h + Dids(items) == (h + Dids(items[..|items| - 1])) + [Did(items[|items| - 1])]
  {
  }

  lemma {:induction false} StoryAdd(lists: seq<seq<Action>>, h: seq<Step>, items: seq<Item>)
    ensures Story(lists, h + Dids(items)) == Story(lists, h) + EventsOf(lists, items)
  {
    if items == [] {
      assert h + Dids(items) == h;
      assert EventsOf(lists, items) == [];
      hide Story;
    } else {
      hide Story, EventsOf, Events, Dids;
      var before, last := items[..|items| - 1], items[|items| - 1];
      StoryAdd(lists, h, before);
      DidsLast(h, items);
      StoryNext(lists, h + Dids(before), Did(last));
      EventsLast(lists, items);
      Assoc(Story(lists, h), EventsOf(lists, before), Events(lists, last));
    }
  }

  lemma EventsLast(lists: seq<seq<Action>>, items: seq<Item>)
    requires items != []
    ensures EventsOf(lists, items)
         == EventsOf(lists, items[..|items| - 1]) + Events(lists, items[|items| - 1])
  {
  }

  lemma StoryNext(lists: seq<seq<Action>>, h: seq<Step>, s: Step)
    ensures Story(lists, h + [s]) == Story(lists, h) + StepEvents(lists, s)
  {
    assert (h + [s])[..|h|] == h;
  }

  /** More items in section c. */
  lemma ToldMore(lists: seq<seq<Action>>, trace: seq<seq<Item>>, log: seq<Event>, h: seq<Step>, c: nat,
                 items: seq<Item>)
    requires Told(lists, trace, log, h) && c < |trace|
    ensures Told(lists, trace[c := trace[c] + items], log + EventsOf(lists, items), h + Dids(items))
  {
    hide Story, EventsOf;
    StoryAdd(lists, h, items);
    var trace2, h2 := trace[c := trace[c] + items], h + Dids(items);
    forall s | s in h2 && s.Did? ensures Within(trace2, s.it) {
      if s in h {
        var t :| t in trace && s.it in t;
        var k :| 0 <= k < |trace| && trace[k] == t;
        assert trace2[k] in trace2 && s.it in trace2[k];
      } else {
        assert trace2[c] in trace2 && s.it in items;
      }
    }
    forall t, it | t in trace2 && it in t ensures Did(it) in h2 {
      var k :| 0 <= k < |trace2| && trace2[k] == t;
      assert trace[k] in trace;
      if it !in trace[k] {
        var j :| 0 <= j < |items| && items[j] == it;
        assert h2[|h| + j] == Did(it);
      }
    }
  }

  lemma ToldCheck(lists: seq<seq<Action>>, trace: seq<seq<Item>>, log: seq<Event>, h: seq<Step>)
    requires Told(lists, trace, log, h)
    ensures Told(lists, trace, log + [Forget], h + [Check])
  {
    StoryNext(lists, h, Check);
    hide Story;
  }

  // ----- definitions in the history --------------------------------------------------------------

  /** The step puts the label with this number. */
  predicate Marks(lists: seq<seq<Action>>, s: Step, l: Label) {
    s.Did? && match l
    case Lg(n) => Act(lists, s.it) == LabelLg(n)
    case Pc(n) => Act(lists, s.it).LabelPc? && s.it.arg == n
  }

  predicate ArgsOk(lists: seq<seq<Action>>, h: seq<Step>) {
    forall s <- h :: s.Did? && Act(lists, s.it).LabelPc? ==> s.it.arg >= 0
  }

  lemma MarkEvents(lists: seq<seq<Action>>, s: Step, l: Label)
    requires s.Did? && Act(lists, s.it).LabelPc? ==> s.it.arg >= 0
    ensures Marks(lists, s, l) ==> StepEvents(lists, s) == [Def(l, s.it.slot)]
    ensures !Marks(lists, s, l) ==>
              |StepEvents(lists, s)| <= 1 && forall e <- StepEvents(lists, s) :: !(e.Def? && e.l == l)
    ensures StepEvents(lists, s) == [Forget] <==> s.Check?
  {
  }

  lemma MarksDid(lists: seq<seq<Action>>, s: Step, l: Label)
    requires Marks(lists, s, l)
    ensures s.Did? && Labels(Act(lists, s.it))
  {
  }

  /** What the step at the end of a history does to the definition that counts. */
  lemma LastDefNext(lists: seq<seq<Action>>, h: seq<Step>, s: Step, l: Label)
    requires s.Did? && Act(lists, s.it).LabelPc? ==> s.it.arg >= 0
    ensures LastDef(Story(lists, h + [s]), l)
         == if Marks(lists, s, l) then Some(s.it.slot) else if s.Check? && Local(l) then None
            else LastDef(Story(lists, h), l)
  {
    StoryNext(lists, h, s);
    MarkEvents(lists, s, l);
    var log, es := Story(lists, h), StepEvents(lists, s);
    hide Story, LastDef, Marks, StepEvents, Local;
    if es == [] {
      assert log + es == log;
    } else {
      assert es == [es[0]];
      LastDefMore(log, l, es[0]);
    }
  }

  /** The latest label that counts before the end, as the events have it. */
  lemma {:induction false} LastMark(lists: seq<seq<Action>>, h: seq<Step>, l: Label) returns (m: nat)
    requires ArgsOk(lists, h)
    ensures match LastDef(Story(lists, h), l)
            case Some(x) =>
              && m < |h| && h[m].Did? && Marks(lists, h[m], l) && h[m].it.slot == x
              && forall j :: m < j < |h| ==> !Marks(lists, h[j], l) && (Local(l) ==> !h[j].Check?)
            case None => Local(l) || forall s <- h :: !Marks(lists, s, l)
  {
    m := 0;
    if h != [] {
      var before, s := h[..|h| - 1], h[|h| - 1];
      m := LastMark(lists, before, l);
      assert h == before + [s];
      LastDefNext(lists, before, s, l);
      hide Story, LastDef, Marks, Local;
      if Marks(lists, s, l) {
        MarksDid(lists, s, l);
        m := |h| - 1;
      }
    }
  }

  /** The events before a place of the history, at it and behind it. */
  lemma {:induction false} StoryAt(lists: seq<seq<Action>>, h: seq<Step>, k: nat)
    requires k < |h|
    ensures var log, n, es := Story(lists, h), |Story(lists, h[..k])|, StepEvents(lists, h[k]);
            && n + |es| <= |log| && log[..n] == Story(lists, h[..k]) && log[n..n + |es|] == es
            && n + |es| == |Story(lists, h[..k + 1])|
  {
    hide Story, StepEvents;
    var before := h[..|h| - 1];
    assert h == before + [h[|h| - 1]];
    StoryNext(lists, before, h[|h| - 1]);
    if k == |h| - 1 {
      assert h[..k + 1] == h;
    } else {
      StoryAt(lists, before, k);
      assert before[..k] == h[..k] && before[..k + 1] == h[..k + 1];
    }
  }

  /** The first label from place k of the history on, as the events have it. */
  lemma {:induction false} FirstMark(lists: seq<seq<Action>>, h: seq<Step>, k: nat, l: Label) returns (m: nat)
    requires ArgsOk(lists, h) && k <= |h|
    ensures match FirstDef(Story(lists, h), |Story(lists, h[..k])|, l)
            case Some(x) =>
              && k <= m < |h| && h[m].Did? && Marks(lists, h[m], l) && h[m].it.slot == x
              && forall j :: k <= j < m ==> !Marks(lists, h[j], l)
            case None => forall j :: k <= j < |h| ==> !Marks(lists, h[j], l)
    decreases |h| - k
  {
    hide Story, Marks;
    m := k;
    if k == |h| {
      assert h[..k] == h;
    } else {
      FirstDefNext(lists, h, k, l);
      if Marks(lists, h[k], l) {
        MarksDid(lists, h[k], l);
      } else {
        m := FirstMark(lists, h, k + 1, l);
      }
    }
  }

  lemma FirstDefNext(lists: seq<seq<Action>>, h: seq<Step>, k: nat, l: Label)
    requires k < |h| && (h[k].Did? && Act(lists, h[k].it).LabelPc? ==> h[k].it.arg >= 0)
    ensures FirstDef(Story(lists, h), |Story(lists, h[..k])|, l)
         == if Marks(lists, h[k], l) then Some(h[k].it.slot)
            else FirstDef(Story(lists, h), |Story(lists, h[..k + 1])|, l)
  {
    hide Story, StepEvents, Marks, FirstDef;
    StoryAt(lists, h, k);
    MarkEvents(lists, h[k], l);
    FirstDefSkip(Story(lists, h), |Story(lists, h[..k])|, StepEvents(lists, h[k]), l);
  }

  lemma FirstDefSkip(log: seq<Event>, n: nat, es: seq<Event>, l: Label)
    requires n + |es| <= |log| && log[n..n + |es|] == es && |es| <= 1
    ensures if es != [] && es[0].Def? && es[0].l == l then FirstDef(log, n, l) == Some(es[0].slot)
            else FirstDef(log, n, l) == FirstDef(log, n + |es|, l)
  {
    if es != [] {
      assert log[n..n + |es|][0] == log[n];
    }
  }
}
