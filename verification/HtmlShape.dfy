/** What holds of the open-element stack after every document, and what single tags do to it. */
module HtmlShape {
  import opened Seqs
  import opened HtmlTags
  import opened HtmlStack

  /** html only at the bottom (and there, unless omitted tags are not implied), head only right above it,
      and one body at most. */
  ghost predicate Shape(names: seq<string>, omitted: bool) {
    && (omitted && names != [] ==> names[0] == "html")
    && (forall i :: 0 < i < |names| ==> names[i] != "html")
    && (forall i :: 0 <= i < |names| && names[i] == "head" ==> i == 1)
    && (forall i, j :: 0 <= i < j < |names| ==> !(names[i] == "body" && names[j] == "body"))
  }

  ghost predicate NoneEmpty(names: seq<string>) {
    forall i :: 0 <= i < |names| ==> !Empty(names[i])
  }

  /** The stack that a sequence of events leaves; None when an end event names another element than the one
      that is open. */
  function Replay(es: seq<Event>): Option<seq<string>> {
    if es == [] then Some([])
    else
      match Replay(es[..|es| - 1])
      case None => None
      case Some(s) =>
        match es[|es| - 1]
        case Start(t) => Some(s + [t])
        case End(t) => if s != [] && s[|s| - 1] == t then Some(s[..|s| - 1]) else None
  }

  /** Start events less end events. */
  function Balance(es: seq<Event>): int {
    if es == [] then 0 else Balance(es[..|es| - 1]) + if es[|es| - 1].Start? then 1 else -1
  }

  lemma {:induction false} ReplayBalance(es: seq<Event>)
    requires Replay(es).Some?
    ensures |Replay(es).value| == Balance(es)
  {
    if es != [] { ReplayBalance(es[..|es| - 1]); }
  }

  ghost predicate Ledger(st: Stack) {
    && Balance(st.events) == |st.names| + st.cuts
    && (st.cuts == 0 ==> Replay(st.events) == Some(st.names))
  }

  lemma LedgerOpened(st: Stack, t: string)
    requires Ledger(st)
    ensures Ledger(Opened(st, t))
  {
    assert (st.events + [Start(t)])[..|st.events|] == st.events;
  }

  lemma LedgerClosed(st: Stack)
    requires Ledger(st) && st.names != []
    ensures Ledger(Closed(st))
  {
    assert Closed(st).events[..|st.events|] == st.events;
  }

  lemma {:induction false} LedgerAutoClose(st: Stack, t: string)
    requires Ledger(st)
    ensures Ledger(AutoClose(st, t))
    decreases |st.names|
  {
    if st.names != [] && Closes(t, st.names[|st.names| - 1]) {
      LedgerClosed(st);
      LedgerAutoClose(Closed(st), t);
    }
    hide Ledger, Closes;
  }

  lemma {:induction false} LedgerCloseAll(st: Stack)
    requires Ledger(st)
    ensures Ledger(CloseAll(st))
    decreases |st.names|
  {
    if st.names != [] {
      LedgerClosed(st);
      LedgerCloseAll(Closed(st));
    }
    hide Ledger;
  }

  lemma {:induction false} LedgerCloseTo(st: Stack, t: string)
    requires Ledger(st) && t in st.names
    ensures Ledger(CloseTo(st, t))
    decreases |st.names|
  {
    if st.names[|st.names| - 1] != t {
      LedgerClosed(st);
      LedgerCloseTo(Closed(st), t);
    }
    hide Ledger;
  }

  lemma LedgerImplied(st: Stack, t: string, omitted: bool)
    requires Ledger(st)
    ensures Ledger(CheckImplied(st, t, omitted))
  {
    LedgerOpened(st, "html");
    var a := if st.names == [] then Opened(st, "html") else st;
    LedgerOpened(a, "head");
    LedgerOpened(a, "body");
    hide Ledger, Opened, HeadContent, FrameContent;
  }

  lemma LedgerElement(st: Stack, t: string, ending: Ending, omitted: bool)
    requires Ledger(st)
    ensures Ledger(Element(st, t, ending, omitted))
  {
    LedgerAutoClose(st, t);
    LedgerImplied(AutoClose(st, t), t, omitted);
    var b := Readied(st, t, omitted);
    hide CheckImplied, AutoClose;
    LedgerOpened(b, t);
    LedgerDepth(b, Misplaced(b.names, t));
    var c := StartTag(st, t, omitted);
    assert Ledger(c) by { hide Ledger, Opened, Misplaced, Readied; }
    hide Ledger, StartTag, Closed, Pop, Empty;
    if c.names != [] {
      LedgerClosed(c);
      LedgerCut(c);
    }
  }

  lemma LedgerEndTag(st: Stack, t: string)
    requires Ledger(st)
    ensures Ledger(EndTag(st, t))
  {
    LedgerDown(st);
    if FindOpen(st.names, t).Some? {
      LedgerCloseTo(st, t);
      LedgerClosed(CloseTo(st, t));
    }
    hide Ledger, CloseTo, Closed, FindOpen;
  }

  lemma LedgerText(st: Stack, omitted: bool)
    requires Ledger(st)
    ensures Ledger(CheckParagraph(st, omitted))
  {
    LedgerAutoClose(st, "p");
    LedgerImplied(AutoClose(st, "p"), "p", omitted);
    LedgerOpened(Readied(st, "p", omitted), "p");
    hide Ledger, Opened, CheckImplied, AutoClose, Top;
  }

  /** No tag is ever opened or closed without its event, but for cut ones. */
  lemma LedgerKept(st: Stack, a: Action, omitted: bool)
    requires Ledger(st)
    ensures Ledger(Act(st, a, omitted))
  {
    match a
    case OpenElement(t, ending) => LedgerElement(st, t, ending, omitted);
    case CloseElement(t) => LedgerEndTag(st, t);
    case Characters => LedgerText(st, omitted);
    case Announce(t) => LedgerAutoClose(st, t);
    case EndOfInput => LedgerCloseAll(st);
    hide Ledger, Element, EndTag, CheckParagraph, AutoClose, CloseAll;
  }

  lemma LedgerDepth(st: Stack, k: nat)
    requires Ledger(st)
    ensures Ledger(st.(depth := st.depth + k))
  {
  }

  lemma LedgerDown(st: Stack)
    requires Ledger(st)
    ensures st.depth > 0 ==> Ledger(st.(depth := st.depth - 1))
  {
  }

  lemma LedgerCut(st: Stack)
    requires Ledger(st) && st.names != []
    ensures var p := Pop(st); Ledger(p.(cuts := p.cuts + 1))
  {
  }

  lemma {:induction false} RunLedger(actions: seq<Action>, omitted: bool)
    ensures Ledger(Run(actions, omitted))
  {
    if actions != [] {
      RunLedger(actions[..|actions| - 1], omitted);
      LedgerKept(Run(actions[..|actions| - 1], omitted), actions[|actions| - 1], omitted);
    }
    hide Ledger, Act;
  }

  /** After any document: the events sent so far replay to the open elements exactly when no start tag was
      cut off. */
  lemma EventsReplay(actions: seq<Action>, omitted: bool)
    ensures var st := Run(actions, omitted);
      Replay(st.events) == Some(st.names) <==> st.cuts == 0
  {
    RunLedger(actions, omitted);
    var st := Run(actions, omitted);
    if Replay(st.events) == Some(st.names) { ReplayBalance(st.events); }
    hide Run, Replay, Balance;
  }

  predicate IsCut(a: Action) { a.OpenElement? && a.ending == CutOff }

  lemma ReadiedCuts(st: Stack, t: string, omitted: bool)
    ensures Readied(st, t, omitted).cuts == st.cuts
    ensures omitted && t != "html" ==> Readied(st, t, omitted).names != []
  {
    hide AutoClose, HeadContent, FrameContent;
  }

  /** With omitted tags implied, some element is always open after a start tag. */
  lemma StartTagOpens(st: Stack, t: string, omitted: bool)
    ensures StartTag(st, t, omitted).cuts == st.cuts
    ensures omitted ==> StartTag(st, t, omitted).names != []
  {
    ReadiedCuts(st, t, omitted);
    CountNone(Readied(st, t, omitted).names, "body");
    hide Readied, Count;
  }

  lemma {:induction false} CloseToCuts(st: Stack, t: string)
    requires t in st.names
    ensures CloseTo(st, t).cuts == st.cuts
    decreases |st.names|
  {
    if st.names[|st.names| - 1] != t { CloseToCuts(Closed(st), t); }
  }

  lemma ActCuts(st: Stack, a: Action)
    ensures Act(st, a, true).cuts == st.cuts + if IsCut(a) then 1 else 0
  {
    match a
    case OpenElement(t, ending) =>
      StartTagOpens(st, t, true);
      hide StartTag, Empty;
    case CloseElement(t) =>
      if FindOpen(st.names, t).Some? { CloseToCuts(st, t); }
      hide FindOpen, CloseTo;
    case Characters =>
      ReadiedCuts(st, "p", true);
      hide Readied;
    case Announce(t) =>
    case EndOfInput =>
  }

  /** No start tag in the document is cut off. */
  ghost predicate NoCut(actions: seq<Action>) {
    forall i :: 0 <= i < |actions| ==> !IsCut(actions[i])
  }

  lemma NoCutParts(actions: seq<Action>)
    ensures actions == [] ==> NoCut(actions) && Run(actions, true).cuts == 0
    ensures actions != [] ==>
      var n := |actions| - 1;
      && (NoCut(actions) <==> NoCut(actions[..n]) && !IsCut(actions[n]))
      && Run(actions, true) == Act(Run(actions[..n], true), actions[n], true)
  {
    hide IsCut, Act;
    if actions != [] { assert actions == actions[..|actions| - 1] + [actions[|actions| - 1]]; }
  }

  lemma {:induction false} CutsCounted(actions: seq<Action>)
    ensures Run(actions, true).cuts == 0 <==> NoCut(actions)
  {
    hide *;
    NoCutParts(actions);
    if actions != [] {
      var n := |actions| - 1;
      CutsCounted(actions[..n]);
      ActCuts(Run(actions[..n], true), actions[n]);
    }
  }

  /** With omitted tags implied: the events of a document replay to its open elements if and only if no start
      tag in it is cut off. */
  lemma CutTagsBreakReplay(actions: seq<Action>)
    ensures var st := Run(actions, true); Replay(st.events) == Some(st.names) <==> NoCut(actions)
  {
    hide *;
    EventsReplay(actions, true);
    CutsCounted(actions);
  }

  /** It happens: a p tag that is cut off leaves html and body open, and a start event too many. */
  lemma CutTagReplays()
    ensures var st := Run([OpenElement("p", CutOff)], true); Replay(st.events) != Some(st.names)
  {
    var actions := [OpenElement("p", CutOff)];
    assert IsCut(actions[0]);
    CutTagsBreakReplay(actions);
    hide Run, Replay;
  }

  // ---------- the shape ----------

  lemma ShapePrefix(names: seq<string>, k: nat, omitted: bool)
    requires Shape(names, omitted) && k <= |names|
    ensures Shape(names[..k], omitted)
  {
  }

  /** When an element may be opened. */
  ghost predicate Fits(names: seq<string>, t: string, omitted: bool) {
    && (t == "html" ==> names == []) && (t == "head" ==> |names| == 1) && (t == "body" ==> "body" !in names)
    && (omitted && names == [] ==> t == "html")
  }

  lemma ShapePush(names: seq<string>, t: string, omitted: bool)
    requires Shape(names, omitted) && Fits(names, t, omitted)
    ensures Shape(names + [t], omitted)
  {
  }

  lemma {:induction false} CountNone(names: seq<string>, t: string)
    ensures Count(names, t) == 0 <==> t !in names
  {
    if names != [] {
      CountNone(names[..|names| - 1], t);
      assert names == names[..|names| - 1] + [names[|names| - 1]];
    }
  }

  lemma {:induction false} CountOne(names: seq<string>, t: string)
    requires forall i, j :: 0 <= i < j < |names| ==> !(names[i] == t && names[j] == t)
    ensures Count(names, t) <= 1
  {
    if names != [] {
      var front := names[..|names| - 1];
      CountOne(front, t);
      CountNone(front, t);
    }
  }

  /** The tags that CheckImplied opens fit, and afterwards the new tag does unless it is misplaced. */
  lemma ImpliedShape(st: Stack, t: string, omitted: bool)
    requires Shape(st.names, omitted)
    ensures var r := CheckImplied(st, t, omitted);
      Shape(r.names, omitted) && st.names <= r.names && (omitted && t != "html" ==> r.names != [])
  {
    var a := if st.names == [] && omitted then Opened(st, "html") else st;
    if st.names == [] { ShapePush(st.names, "html", omitted); }
    if |a.names| == 1 { ShapePush(a.names, "head", omitted); }
    if "body" !in a.names && a.names != [] { ShapePush(a.names, "body", omitted); }
    hide Shape, HeadContent, FrameContent;
  }

  lemma MisplacedFits(names: seq<string>, t: string, omitted: bool)
    requires Misplaced(names, t) == 0 && (omitted && t != "html" ==> names != [])
    ensures Fits(names, t, omitted)
  {
    CountNone(names, "body");
  }

  lemma StartTagShape(st: Stack, t: string, omitted: bool)
    requires Shape(st.names, omitted)
    ensures Shape(StartTag(st, t, omitted).names, omitted)
  {
    ShapePrefix(st.names, |AutoClose(st, t).names|, omitted);
    ImpliedShape(AutoClose(st, t), t, omitted);
    var a := Readied(st, t, omitted);
    hide AutoClose, CheckImplied;
    if Misplaced(a.names, t) == 0 {
      MisplacedFits(a.names, t, omitted);
      ShapePush(a.names, t, omitted);
    }
    hide Shape, Misplaced, Fits, Readied;
  }

  // ---------- no empty element stays open ----------

  lemma NoneEmptyPush(names: seq<string>, t: string)
    requires NoneEmpty(names) && !Empty(t)
    ensures NoneEmpty(names + [t])
  {
    hide Empty;
  }

  lemma NoneEmptyPrefix(names: seq<string>, k: nat)
    requires NoneEmpty(names) && k <= |names|
    ensures NoneEmpty(names[..k])
  {
    hide Empty;
  }

  lemma ImpliedNoneEmpty(st: Stack, t: string, omitted: bool)
    requires NoneEmpty(st.names)
    ensures NoneEmpty(CheckImplied(st, t, omitted).names)
  {
    NotEmpty();
    NoneEmptyPush(st.names, "html");
    var a := if st.names == [] && omitted then Opened(st, "html") else st;
    NoneEmptyPush(a.names, "head");
    NoneEmptyPush(a.names, "body");
    hide NoneEmpty, Empty, HeadContent, FrameContent;
  }

  lemma ReadiedNoneEmpty(st: Stack, t: string, omitted: bool)
    requires NoneEmpty(st.names)
    ensures NoneEmpty(Readied(st, t, omitted).names)
  {
    NoneEmptyPrefix(st.names, |AutoClose(st, t).names|);
    ImpliedNoneEmpty(AutoClose(st, t), t, omitted);
    hide AutoClose, CheckImplied, NoneEmpty;
  }

  /** Everything below the top is not empty, and the top may be only when this tag opened it. */
  lemma StartTagNoneEmpty(st: Stack, t: string, omitted: bool)
    requires NoneEmpty(st.names)
    ensures var r := StartTag(st, t, omitted).names; r != [] ==> NoneEmpty(r[..|r| - 1])
  {
    hide *;
    ReadiedNoneEmpty(st, t, omitted);
    var a := Readied(st, t, omitted).names;
    if a != [] { NoneEmptyPrefix(a, |a| - 1); }
    assert (a + [t])[..|a + [t]| - 1] == a;
    StartTagNames(st, t, omitted);
  }

  lemma StartTagNames(st: Stack, t: string, omitted: bool)
    ensures var a, r := Readied(st, t, omitted).names, StartTag(st, t, omitted).names; r == a || r == a + [t]
  {
    hide Readied, Misplaced;
  }

  lemma NoneEmptyTop(names: seq<string>)
    requires names != [] && NoneEmpty(names[..|names| - 1]) && !Empty(names[|names| - 1])
    ensures NoneEmpty(names)
  {
    hide Empty;
    assert names == names[..|names| - 1] + [names[|names| - 1]];
  }

  ghost predicate Settled(names: seq<string>, omitted: bool) {
    Shape(names, omitted) && NoneEmpty(names)
  }

  lemma SettledPrefix(names: seq<string>, k: nat, omitted: bool)
    requires Settled(names, omitted) && k <= |names|
    ensures Settled(names[..k], omitted)
  {
    ShapePrefix(names, k, omitted);
    NoneEmptyPrefix(names, k);
    hide Shape, NoneEmpty;
  }

  lemma ElementSettled(st: Stack, t: string, ending: Ending, omitted: bool)
    requires Settled(st.names, omitted)
    ensures Settled(Element(st, t, ending, omitted).names, omitted)
  {
    StartTagShape(st, t, omitted);
    StartTagNoneEmpty(st, t, omitted);
    var a := StartTag(st, t, omitted).names;
    if a != [] {
      ShapePrefix(a, |a| - 1, omitted);
      if !Empty(a[|a| - 1]) { NoneEmptyTop(a); }
    }
    hide StartTag, Shape, NoneEmpty, Empty;
    assert a == [] ==> NoneEmpty(a) by { NoneEmptyNil(); }
  }

  lemma NoneEmptyNil()
    ensures NoneEmpty([])
  {
  }

  lemma TextSettled(st: Stack, omitted: bool)
    requires Settled(st.names, omitted)
    ensures Settled(CheckParagraph(st, omitted).names, omitted)
  {
    ShapePrefix(st.names, |AutoClose(st, "p").names|, omitted);
    ImpliedShape(AutoClose(st, "p"), "p", omitted);
    ReadiedNoneEmpty(st, "p", omitted);
    var a := Readied(st, "p", omitted).names;
    ShapePush(a, "p", omitted);
    NotEmpty();
    NoneEmptyPush(a, "p");
    hide AutoClose, CheckImplied, Shape, NoneEmpty, Empty;
  }

  lemma EndTagSettled(st: Stack, t: string, omitted: bool)
    requires Settled(st.names, omitted)
    ensures Settled(EndTag(st, t).names, omitted)
  {
    if FindOpen(st.names, t).Some? {
      var c := CloseTo(st, t).names;
      SettledPrefix(st.names, |c| - 1, omitted);
      assert c[..|c| - 1] == st.names[..|c| - 1];
    }
    hide Settled, FindOpen, CloseTo;
  }

  lemma ActSettled(st: Stack, a: Action, omitted: bool)
    requires Settled(st.names, omitted)
    ensures Settled(Act(st, a, omitted).names, omitted)
  {
    SettledPrefix(st.names, 0, omitted);
    assert st.names[..0] == [];
    match a
    case OpenElement(t, ending) => ElementSettled(st, t, ending, omitted);
    case CloseElement(t) => EndTagSettled(st, t, omitted);
    case Characters => TextSettled(st, omitted);
    case Announce(t) => SettledPrefix(st.names, |AutoClose(st, t).names|, omitted);
    case EndOfInput =>
    hide Settled, Element, EndTag, CheckParagraph, AutoClose, CloseAll;
  }

  /** After any document, with omitted tags implied or not. */
  lemma {:induction false} EveryDocument(actions: seq<Action>, omitted: bool)
    ensures Settled(Run(actions, omitted).names, omitted)
  {
    if actions != [] {
      EveryDocument(actions[..|actions| - 1], omitted);
      ActSettled(Run(actions[..|actions| - 1], omitted), actions[|actions| - 1], omitted);
    }
    hide Act, Empty;
  }

  // ---------- what one tag closes ----------

  /** The end events of the elements above the first k, from the top down. */
  function EndsDown(names: seq<string>, k: nat): seq<Event> {
    if |names| <= k then [] else [End(names[|names| - 1])] + EndsDown(names[..|names| - 1], k)
  }

  /** st with all but its first k elements closed. */
  function CutDown(st: Stack, k: nat): Stack
    requires k <= |st.names|
  {
    st.(names := st.names[..k], events := st.events + EndsDown(st.names, k))
  }

  lemma CutDownClosed(st: Stack, k: nat)
    requires k < |st.names|
    ensures CutDown(Closed(st), k) == CutDown(st, k)
  {
    assert st.names[..|st.names| - 1][..k] == st.names[..k];
    var e := End(st.names[|st.names| - 1]);
    var more := EndsDown(st.names[..|st.names| - 1], k);
    assert st.events + ([e] + more) == (st.events + [e]) + more;
  }

  lemma CutDownNone(st: Stack)
    ensures CutDown(st, |st.names|) == st
  {
    assert st.names[..|st.names|] == st.names;
    assert st.events + [] == st.events;
  }

  /** A start tag closes exactly the elements on top that it may close, down to the first it may not. */
  lemma {:induction false} AutoCloseIs(st: Stack, t: string, k: nat)
    requires k <= |st.names|
    requires forall j :: k <= j < |st.names| ==> Closes(t, st.names[j])
    requires k > 0 ==> !Closes(t, st.names[k - 1])
    ensures AutoClose(st, t) == CutDown(st, k)
    decreases |st.names|
  {
    if k == |st.names| {
      CutDownNone(st);
    } else {
      CutDownClosed(st, k);
      AutoCloseIs(Closed(st), t, k);
    }
    hide Closes, CutDown;
  }

  /** Hence an open html or body survives every start tag and all text. */
  lemma {:induction false} AutoCloseStops(st: Stack, t: string, i: nat)
    requires i < |st.names| && (st.names[i] == "html" || st.names[i] == "body")
    ensures |AutoClose(st, t).names| > i
    decreases |st.names|
  {
    hide Closes;
    NeverClosed(t);
    if Closes(t, st.names[|st.names| - 1]) {
      assert i < |st.names| - 1;
      AutoCloseStops(Closed(st), t, i);
    }
  }

  /** An end tag named t closes element k: the nearest of that name, and nothing above it ranks higher. */
  ghost predicate Closable(names: seq<string>, t: string, k: nat) {
    && k < |names| && names[k] == t
    && forall j :: k < j < |names| ==> names[j] != t && Priority(names[j]) <= Priority(t)
  }

  lemma {:induction false} FindOpenIs(names: seq<string>, t: string)
    ensures match FindOpen(names, t)
      case Some(k) => Closable(names, t, k)
      case None => forall k :: !Closable(names, t, k)
  {
    if names != [] {
      var front, last := names[..|names| - 1], names[|names| - 1];
      FindOpenIs(front, t);
      if last != t {
        forall k | Closable(names, t, k)
          ensures Closable(front, t, k) && Priority(last) <= Priority(t)
        {
          assert names[|names| - 1] == last;
        }
      }
    }
    hide Priority;
  }

  lemma {:induction false} CloseToIs(st: Stack, t: string, k: nat)
    requires k < |st.names| && st.names[k] == t && t in st.names
    requires forall j :: k < j < |st.names| ==> st.names[j] != t
    ensures CloseTo(st, t) == CutDown(st, k + 1)
    decreases |st.names|
  {
    if k + 1 == |st.names| {
      CutDownNone(st);
    } else {
      CutDownClosed(st, k + 1);
      assert Closed(st).names[k] == t;
      CloseToIs(Closed(st), t, k);
    }
    hide CutDown;
  }

  predicate Swallowed(st: Stack, t: string) {
    st.depth > 0 && (t == "html" || t == "body" || t == "head")
  }

  /** An end tag closes down to the nearest element of its name through elements of no higher priority, if
      there is such an element, and changes nothing otherwise. */
  lemma EndTagCloses(st: Stack, t: string)
    requires !Swallowed(st, t)
    ensures forall k :: Closable(st.names, t, k) ==> EndTag(st, t) == CutDown(st, k)
    ensures (forall k :: !Closable(st.names, t, k)) ==> EndTag(st, t) == st
  {
    FindOpenIs(st.names, t);
    forall k | Closable(st.names, t, k)
      ensures EndTag(st, t) == CutDown(st, k)
    {
      ClosableUnique(st.names, t, FindOpen(st.names, t).value, k);
      CloseToIs(st, t, k);
      var c := CloseTo(st, t);
      assert Closed(c) == CutDown(st, k) by { CutOneMore(st, k); }
    }
    hide FindOpen, CloseTo, CutDown;
  }

  lemma ClosableUnique(names: seq<string>, t: string, a: nat, b: nat)
    requires Closable(names, t, a) && Closable(names, t, b)
    ensures a == b
  {
    hide Priority;
  }

  lemma {:induction false} EndsDownOneMore(names: seq<string>, k: nat)
    requires k < |names|
    ensures EndsDown(names, k) == EndsDown(names, k + 1) + [End(names[k])]
  {
    if |names| == k + 1 {
      assert EndsDown(names[..k], k) == [];
    } else {
      var front := names[..|names| - 1];
      EndsDownOneMore(front, k);
      assert [End(names[|names| - 1])] + (EndsDown(front, k + 1) + [End(names[k])])
          == ([End(names[|names| - 1])] + EndsDown(front, k + 1)) + [End(names[k])];
    }
  }

  lemma CutOneMore(st: Stack, k: nat)
    requires k < |st.names|
    ensures Closed(CutDown(st, k + 1)) == CutDown(st, k)
  {
    EndsDownOneMore(st.names, k);
    assert st.names[..k + 1][..k] == st.names[..k];
    var a, e := EndsDown(st.names, k + 1), End(st.names[k]);
    assert (st.events + a) + [e] == st.events + (a + [e]);
  }

  // ---------- misplaced tags and text ----------

  /** A misplaced html, head or body start tag leaves a mark that its end tag takes away again, and no
      element is closed by that end tag. */
  lemma MisplacedPair(st: Stack, t: string, omitted: bool)
    requires Settled(st.names, omitted) && Misplaced(Readied(st, t, omitted).names, t) > 0
    ensures var a := Element(st, t, Normal, omitted);
      a == Readied(st, t, omitted).(depth := st.depth + 1) && EndTag(a, t) == Readied(st, t, omitted)
  {
    var b := Readied(st, t, omitted);
    ReadiedNoneEmpty(st, t, omitted);
    ShapePrefix(st.names, |AutoClose(st, t).names|, omitted);
    ImpliedShape(AutoClose(st, t), t, omitted);
    CountOne(b.names, "body");
    DepthKept(st, t, omitted);
    hide AutoClose, CheckImplied, Empty, Count;
  }

  /** What becomes of a misplaced start tag, for every way it can end. Only ">" leaves the readied stack as
      it is, but for the mark; "/>" closes the element on top, with its end event; and a tag that is cut off
      takes the top element away without one. */
  lemma MisplacedEnding(st: Stack, t: string, ending: Ending, omitted: bool)
    requires Settled(st.names, omitted) && Misplaced(Readied(st, t, omitted).names, t) > 0
    ensures var b := Readied(st, t, omitted);
      var a := Element(st, t, ending, omitted);
      && a.depth == st.depth + 1
      && (b.names == [] ==> a == b.(depth := st.depth + 1))
      && (b.names != [] ==>
           && (a.names == b.names <==> ending == Normal)
           && a.names == (if ending == Normal then b.names else b.names[..|b.names| - 1])
           && a.events == (if ending == SelfClosing then b.events + [End(b.names[|b.names| - 1])] else b.events)
           && a.cuts == b.cuts + if ending == CutOff then 1 else 0)
  {
    var b := Readied(st, t, omitted);
    ReadiedNoneEmpty(st, t, omitted);
    ShapePrefix(st.names, |AutoClose(st, t).names|, omitted);
    ImpliedShape(AutoClose(st, t), t, omitted);
    CountOne(b.names, "body");
    DepthKept(st, t, omitted);
    hide AutoClose, CheckImplied, Empty, Count, Shape;
  }

  /** It happens: in an open div, the discarded tag <body/> closes the div. */
  lemma DiscardedTagCloses()
    ensures var actions := [OpenElement("div", Normal), OpenElement("body", SelfClosing)];
      var before, after := Run(actions[..1], true), Run(actions, true);
      && before.names == ["html", "body", "div"]
      && after.names == ["html", "body"] && after.events == before.events + [End("div")]
  {
    hide *;
    var actions := [OpenElement("div", Normal), OpenElement("body", SelfClosing)];
    assert actions[..1] == [] + [OpenElement("div", Normal)] && actions == actions[..1] + [OpenElement("body", SelfClosing)];
    RunMore([], OpenElement("div", Normal));
    RunMore(actions[..1], OpenElement("body", SelfClosing));
    OpenedDiv();
    var st := Run(actions[..1], true);
    EveryDocument(actions[..1], true);
    DivStays(st);
    MisplacedEnding(st, "body", SelfClosing, true);
    assert ["html", "body", "div"][..2] == ["html", "body"];
  }

  lemma RunMore(actions: seq<Action>, a: Action)
    ensures Run([], true) == INITIAL && Run(actions + [a], true) == Act(Run(actions, true), a, true)
    ensures a.OpenElement? ==> Act(Run(actions, true), a, true) == Element(Run(actions, true), a.name, a.ending, true)
  {
    assert (actions + [a])[..|actions|] == actions;
    hide Element, EndTag, CheckParagraph, AutoClose, CloseAll;
  }

  lemma DivStays(st: Stack)
    requires st.names == ["html", "body", "div"]
    ensures Readied(st, "body", true) == st && Misplaced(st.names, "body") > 0
  {
    CountNone(st.names, "body");
    assert "body" in st.names;
    NotClosedByBody();
    hide Closes, Count, HeadContent, FrameContent;
  }

  lemma NotClosedByBody()
    ensures !Closes("body", "div")
  {
  }

  lemma OpenedDiv()
    ensures Element(INITIAL, "div", Normal, true).names == ["html", "body", "div"]
  {
    ImpliedForDiv();
    DivIsPlain();
    var a := Readied(INITIAL, "div", true);
    assert StartTag(INITIAL, "div", true) == Opened(a, "div");
    assert Opened(a, "div").names == a.names + ["div"];
    assert ["html", "body"] + ["div"] == ["html", "body", "div"];
    hide Readied, Empty, Opened;
  }

  lemma ImpliedForDiv()
    ensures Readied(INITIAL, "div", true).names == ["html", "body"]
  {
    assert AutoClose(INITIAL, "div") == INITIAL;
    OpenedNames(INITIAL, "html");
    OpenedNames(Opened(INITIAL, "html"), "body");
    assert !HeadContent("div") && !FrameContent("div");
    hide Closes, Opened, HeadContent, FrameContent;
    assert [] + ["html"] == ["html"] && ["html"] + ["body"] == ["html", "body"];
  }

  lemma OpenedNames(st: Stack, t: string)
    ensures Opened(st, t).names == st.names + [t]
    ensures t == "html" && st.html < 10 ==> Opened(st, t).html < 10
  {
  }

  lemma DivIsPlain()
    ensures !Empty("div") && forall names :: Misplaced(names, "div") == 0
  {
    hide Count;
  }

  lemma DepthKept(st: Stack, t: string, omitted: bool)
    ensures Readied(st, t, omitted).depth == st.depth
  {
    hide AutoClose, HeadContent, FrameContent;
  }

  /** With omitted tags implied, characters never go directly into html or head, nor outside all elements. */
  lemma TextPlaced(st: Stack, omitted: bool)
    requires omitted
    ensures var r := CheckParagraph(st, omitted).names;
      Top(r).Some? && Top(r) != Some("html") && Top(r) != Some("head")
  {
    hide Readied;
  }

  /** Wherever characters come in a document, with omitted tags implied, they go into an open element, and it
      is neither html nor head nor one that must be empty. */
  lemma EveryText(actions: seq<Action>)
    ensures var r := Run(actions + [Characters], true).names;
      r != [] && var top := r[|r| - 1]; top != "html" && top != "head" && !Empty(top)
  {
    var all := actions + [Characters];
    assert all[..|all| - 1] == actions && all[|all| - 1] == Characters;
    TextPlaced(Run(actions, true), true);
    EveryDocument(all, true);
    hide Act, Shape, Empty, CheckParagraph;
  }
}
