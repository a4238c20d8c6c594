/** Which elements are opened for a start tag that omits them, and what an ordinary start tag does. */
module HtmlImplied {
  import opened Seqs
  import opened HtmlTags
  import opened HtmlStack
  import opened HtmlShape

  predicate InHead(t: string) { t in ["title", "base", "meta", "link", "style", "script"] }

  predicate InFrames(t: string) { t in ["frameset", "frame", "noframes"] }

  /** The open elements after the first start tag of a document, html first. */
  function Path(t: string): seq<string> {
    if t == "html" then ["html"]
    else if t == "head" || t == "body" then ["html", t]
    else if InHead(t) then ["html", "head", t]
    else if InFrames(t) then ["html", t]
    else ["html", "body", t]
  }

  function Starts(names: seq<string>): (e: seq<Event>)
    ensures |e| == |names| && forall i :: 0 <= i < |names| ==> e[i] == Start(names[i])
  {
    seq(|names|, i requires 0 <= i < |names| => Start(names[i]))
  }

  lemma Kinds(t: string)
    ensures HeadContent(t) <==> InHead(t)
    ensures FrameContent(t) <==> InFrames(t)
    ensures InHead(t) || InFrames(t) ==> t != "html" && t != "head" && t != "body"
  {
  }

  lemma OpenedIs(st: Stack, t: string)
    ensures var r := Opened(st, t);
      && r.names == st.names + [t] && r.events == st.events + [Start(t)] && r.depth == st.depth && r.cuts == st.cuts
      && r.html == (if st.html < 3 && t == "head" then 3 else if st.html < 10 && t == "body" then 10 else st.html)
  {
  }

  /** Below html alone, with omitted tags implied: what belongs into the head gets a head unless there has been
      one, and everything else but frames gets a body unless there has been one. */
  lemma UnderHtml(st: Stack, t: string)
    requires st.names == ["html"] && t != "html" && t != "head" && t != "body"
    ensures var r := StartTag(st, t, true);
      var implied := if InHead(t) then (if st.html < 3 then ["head"] else [])
                     else if InFrames(t) || st.html >= 10 then [] else ["body"];
      && r.names == ["html"] + implied + [t] && r.events == st.events + Starts(implied + [t])
      && r.depth == st.depth && r.cuts == st.cuts
  {
    hide *;
    NeverClosed(t);
    AutoCloseNone(st, t);
    Kinds(t);
    var implied := if InHead(t) then (if st.html < 3 then ["head"] else [])
                   else if InFrames(t) || st.html >= 10 then [] else ["body"];
    ImpliedIs(st, t);
    OpenedIs(st, "head");
    OpenedIs(st, "body");
    var a := Readied(st, t, true);
    assert ["html"] + [] == ["html"];
    PlainTag(st, t, true);
    OpenedIs(a, t);
    StartsAre("head", t);
    StartsAre("body", t);
    assert implied == [] ==> implied + [t] == [t];
    Regroup(st.events, Start("head"), Start(t));
    Regroup(st.events, Start("body"), Start(t));
  }

  lemma Regroup(e: seq<Event>, a: Event, b: Event)
    ensures (e + [a]) + [b] == e + [a, b]
  {
  }

  lemma StartsAre(a: string, t: string)
    ensures Starts([t]) == [Start(t)] && Starts([a] + [t]) == [Start(a), Start(t)]
  {
  }

  lemma AutoCloseNone(st: Stack, t: string)
    requires st.names == [] || !Closes(t, st.names[|st.names| - 1])
    ensures AutoClose(st, t) == st
  {
    hide Closes;
  }

  /** What is opened for t where only html is open. */
  lemma ImpliedIs(st: Stack, t: string)
    requires st.names == ["html"] && AutoClose(st, t) == st && t != "html"
    ensures Readied(st, t, true) ==
      if t == "head" || t == "body" then st
      else if HeadContent(t) then (if st.html >= 3 then st else Opened(st, "head"))
      else if FrameContent(t) || st.html >= 10 then st else Opened(st, "body")
  {
    hide AutoClose, HeadContent, FrameContent, Opened;
  }

  /** No start tag but those of html, head and body is ever misplaced. */
  lemma PlainTag(st: Stack, t: string, omitted: bool)
    requires t != "html" && t != "head" && t != "body"
    ensures StartTag(st, t, omitted) == Opened(Readied(st, t, omitted), t)
  {
    hide Readied, Opened, Count;
  }

  /** With nothing open, html is opened first. */
  lemma HtmlFirst(st: Stack, t: string)
    requires st.names == [] && t != "html"
    ensures Readied(st, t, true) == Readied(Opened(st, "html"), t, true) && Opened(st, "html").names == ["html"]
  {
    OpenedIs(st, "html");
    NeverClosed(t);
    AutoCloseNone(st, t);
    AutoCloseNone(Opened(st, "html"), t);
    hide AutoClose, HeadContent, FrameContent, Opened, Closes;
  }

  lemma HeadOrBody(st: Stack, t: string)
    requires Readied(st, t, true).names == ["html"] && (t == "head" || t == "body")
    ensures StartTag(st, t, true) == Opened(Readied(st, t, true), t)
  {
    CountNone(["html"], t);
    hide Readied, Opened, Count;
  }

  lemma JustHtml()
    ensures StartTag(INITIAL, "html", true) == Opened(INITIAL, "html")
    ensures INITIAL.names == [] && INITIAL.events == [] && INITIAL.html == 1 && INITIAL.depth == 0 && INITIAL.cuts == 0
  {
    hide Opened;
  }

  /** The first start tag of a document: a title, a script and the like get html and head as parents, frames
      get html, html gets none, and everything else gets html and body; each parent with its start event. */
  lemma FirstTag(t: string)
    ensures var r := StartTag(INITIAL, t, true);
      r.names == Path(t) && r.events == Starts(Path(t)) && r.depth == 0 && r.cuts == 0
  {
    hide *;
    JustHtml();
    OpenedIs(INITIAL, "html");
    var st := Opened(INITIAL, "html");
    assert [] + ["html"] == ["html"] && [] + [Start("html")] == [Start("html")];
    PathIs(t);
    if t != "html" {
      HtmlFirst(INITIAL, t);
      if t == "head" || t == "body" {
        NeverClosed(t);
        AutoCloseNone(st, t);
        ImpliedIs(st, t);
        HeadOrBody(INITIAL, t);
        OpenedIs(st, t);
      } else {
        PlainTag(INITIAL, t, true);
        PlainTag(st, t, true);
        UnderHtml(st, t);
      }
    }
    StartsOfPath(t);
  }

  lemma PathIs(t: string)
    ensures t == "html" ==> Path(t) == ["html"]
    ensures t == "head" || t == "body" ==> Path(t) == ["html"] + [t]
    ensures t != "html" && t != "head" && t != "body" ==>
      Path(t) == ["html"] + (if InHead(t) then ["head"] else if InFrames(t) then [] else ["body"]) + [t]
  {
    hide InHead, InFrames;
  }

  lemma StartsOfPath(t: string)
    ensures Starts(["html"]) == [Start("html")]
    ensures forall rest: seq<string> :: Starts(["html"] + rest) == [Start("html")] + Starts(rest)
    ensures Starts([t]) == [Start(t)]
    ensures forall a: seq<string> :: (["html"] + a) + [t] == ["html"] + (a + [t])
  {
    forall rest: seq<string> ensures Starts(["html"] + rest) == [Start("html")] + Starts(rest) {}
  }

  /** An ordinary start tag in a head or a body, or anywhere when omitted tags are not implied: what it closes is closed,
      then it is opened, and it stays open exactly when it ends in ">" and is not an empty element. Otherwise
      it is closed again at once, with its end event, or without one when it is cut off. */
  lemma TagOpens(st: Stack, t: string, ending: Ending, omitted: bool)
    requires t != "html" && t != "head" && t != "body"
    requires omitted ==> |AutoClose(st, t).names| >= 2 && ("body" in AutoClose(st, t).names || "head" in AutoClose(st, t).names)
    ensures var a := AutoClose(st, t);
      var r := Element(st, t, ending, omitted);
      if ending == Normal && !Empty(t) then
        r.names == a.names + [t] && r.events == a.events + [Start(t)] && r.cuts == a.cuts
      else if ending == CutOff then
        r.names == a.names && r.events == a.events + [Start(t)] && r.cuts == a.cuts + 1
      else r.names == a.names && r.events == a.events + [Start(t), End(t)] && r.cuts == a.cuts
  {
    hide *;
    var a := AutoClose(st, t);
    NothingImplied(st, t, omitted);
    PlainTag(st, t, omitted);
    OpenedIs(a, t);
    Ended(st, t, ending, omitted);
    var b := Opened(a, t);
    assert b.names[..|b.names| - 1] == a.names;
    Regroup(a.events, Start(t), End(t));
  }

  lemma NothingImplied(st: Stack, t: string, omitted: bool)
    requires omitted ==> |AutoClose(st, t).names| >= 2 && ("body" in AutoClose(st, t).names || "head" in AutoClose(st, t).names)
    ensures Readied(st, t, omitted) == AutoClose(st, t)
  {
    hide AutoClose, HeadContent, FrameContent, Opened;
  }

  lemma Ended(st: Stack, t: string, ending: Ending, omitted: bool)
    requires var b := StartTag(st, t, omitted); b.names != [] && b.names[|b.names| - 1] == t
    ensures var b := StartTag(st, t, omitted);
      var front := b.names[..|b.names| - 1];
      var r := Element(st, t, ending, omitted);
      if ending == Normal && !Empty(t) then r == b
      else if ending == CutOff then r.names == front && r.events == b.events && r.cuts == b.cuts + 1
      else r.names == front && r.events == b.events + [End(t)] && r.cuts == b.cuts
  {
    hide StartTag, Empty;
  }

  /** Characters before any tag get a paragraph in a body; in an element that may hold them they open nothing. */
  lemma TextOpens(st: Stack, omitted: bool)
    ensures var r := CheckParagraph(INITIAL, true); r.names == ["html", "body", "p"] && r.events == Starts(r.names)
    ensures st.names != [] && (omitted ==> Top(st.names).value != "html" && Top(st.names).value != "head") ==>
      CheckParagraph(st, omitted) == st
  {
    FirstTag("p");
    PlainTag(INITIAL, "p", true);
    hide Readied, Opened;
  }

  predicate SameKind(t: string) { t in ["p", "li", "option", "a", "form", "th", "td", "tr", "colgroup", "tbody"] }

  predicate TakesTurns(top: string, t: string) {
    || (top == "dt" && t == "dd") || (top == "dd" && t == "dt") || (top == "th" && t == "td") || (top == "td" && t == "th")
    || (top == "thead" && t == "tbody") || (top == "tbody" && t == "tfoot")
  }

  predicate Block(t: string) { t == "div" || t == "ul" || t == "ol" || t == "table" || t == "form" || t == "h1" }

  /** Elements that end where the next of their kind begins, or one that takes turns with them; and what a
      paragraph ends at. */
  predicate EndsBefore(top: string, t: string) {
    (top == t && SameKind(t)) || TakesTurns(top, t) || (top == "p" && Block(t))
  }

  /** When such an element is on top, the next one's start tag ends it and takes its place. */
  lemma NextOfKind(st: Stack, top: string, t: string)
    requires EndsBefore(top, t)
    requires |st.names| >= 3 && st.names[|st.names| - 1] == top && "body" in st.names[..|st.names| - 1]
    requires !Closes(t, st.names[|st.names| - 2])
    ensures var r := Element(st, t, Normal, true);
      r.names == st.names[..|st.names| - 1] + [t] && r.events == st.events + [End(top), Start(t)] && r.cuts == st.cuts
  {
    hide *;
    OwnKind(top, t);
    ClosedIs(st);
    AutoCloseOnce(st, t);
    var c := Closed(st);
    assert c.names[|c.names| - 1] == st.names[|st.names| - 2];
    AutoCloseNone(c, t);
    TagOpens(st, t, Normal, true);
    assert (st.events + [End(top)]) + [Start(t)] == st.events + [End(top), Start(t)];
  }

  lemma OwnKind(top: string, t: string)
    requires EndsBefore(top, t)
    ensures Closes(t, top) && !Empty(t) && t != "html" && t != "head" && t != "body"
  {
    if top == t && SameKind(t) {
      KindPlain(t);
      OwnBlock(t);
      OwnTable(t);
    } else if TakesTurns(top, t) {
      Turns(top, t);
    } else {
      Blocks(t);
    }
    hide ClosedByBlock, ClosedByList, ClosedByGroup, ClosedByTable;
    hide SameKind, TakesTurns, Block, Empty;
  }

  lemma KindPlain(t: string)
    requires SameKind(t)
    ensures !Empty(t) && t != "html" && t != "head" && t != "body"
  {
  }

  lemma OwnBlock(t: string)
    requires SameKind(t)
    ensures t == "p" ==> t in ClosedByBlock(t)
    ensures t == "li" || t == "option" || t == "a" ==> t in ClosedByList(t)
    ensures t == "form" ==> t in ClosedByGroup(t)
    ensures t != "p" && t != "li" && t != "option" && t != "a" && t != "form" ==> t in ["th", "td", "tr", "colgroup", "tbody"]
  {
  }

  lemma OwnTable(t: string)
    ensures t in ["th", "td", "tr", "colgroup", "tbody"] ==> t in ClosedByTable(t)
  {
  }

  lemma Turns(top: string, t: string)
    requires TakesTurns(top, t)
    ensures (top in ClosedByList(t) || top in ClosedByTable(t)) && !Empty(t) && t != "html" && t != "head" && t != "body"
  {
    ListTurns();
    TableTurns();
    TurnsPlain(top, t);
    hide ClosedByList, ClosedByTable, Empty;
  }

  lemma TurnsPlain(top: string, t: string)
    requires TakesTurns(top, t)
    ensures !Empty(t) && t != "html" && t != "head" && t != "body"
  {
  }

  lemma ListTurns()
    ensures "dt" in ClosedByList("dd") && "dd" in ClosedByList("dt")
  {
  }

  lemma TableTurns()
    ensures "th" in ClosedByTable("td") && "td" in ClosedByTable("th")
    ensures "thead" in ClosedByTable("tbody") && "tbody" in ClosedByTable("tfoot")
  {
  }

  lemma Blocks(t: string)
    requires Block(t)
    ensures "p" in ClosedByBlock(t) || "p" in ClosedByList(t) || "p" in ClosedByGroup(t)
    ensures !Empty(t) && t != "html" && t != "head" && t != "body"
  {
    hide *;
    PlainBlocks();
    ListBlocks();
    GroupBlocks();
    BlockPlain(t);
  }

  lemma BlockPlain(t: string)
    requires Block(t)
    ensures t == "div" || t == "ul" || t == "ol" || t == "table" || t == "form" || t == "h1"
    ensures !Empty(t) && t != "html" && t != "head" && t != "body"
  {
  }

  lemma PlainBlocks()
    ensures "p" in ClosedByBlock("div") && "p" in ClosedByBlock("ol") && "p" in ClosedByBlock("h1")
  {
  }

  lemma ListBlocks()
    ensures "p" in ClosedByList("ul")
  {
  }

  lemma GroupBlocks()
    ensures "p" in ClosedByGroup("table") && "p" in ClosedByGroup("form")
  {
  }

  predicate Void(t: string) {
    t in ["br", "hr", "img", "input", "meta", "link", "base", "col", "area", "param", "frame", "basefont", "isindex"]
  }

  lemma VoidIs(t: string)
    ensures Empty(t) <==> Void(t)
    ensures Void(t) ==> t != "html" && t != "head" && t != "body"
  {
  }

  /** A tag that has no content leaves nothing open, with or without a slash, and sends both its events. */
  lemma VoidTag(st: Stack, t: string)
    requires Void(t) && |AutoClose(st, t).names| >= 2 && ("body" in AutoClose(st, t).names || "head" in AutoClose(st, t).names)
    ensures Element(st, t, Normal, true) == Element(st, t, SelfClosing, true)
    ensures var r := Element(st, t, Normal, true);
      r.names == AutoClose(st, t).names && r.events == AutoClose(st, t).events + [Start(t), End(t)]
  {
    hide *;
    VoidIs(t);
    TagOpens(st, t, Normal, true);
    PlainTag(st, t, true);
    OpenedIs(Readied(st, t, true), t);
    BothEndings(st, t);
  }

  lemma BothEndings(st: Stack, t: string)
    requires var b := StartTag(st, t, true).names; Empty(t) && b != [] && b[|b| - 1] == t
    ensures Element(st, t, Normal, true) == Element(st, t, SelfClosing, true)
  {
    hide StartTag, Empty;
  }

  lemma ClosedIs(st: Stack)
    requires st.names != []
    ensures var c := Closed(st);
      c.names == st.names[..|st.names| - 1] && c.events == st.events + [End(st.names[|st.names| - 1])] && c.cuts == st.cuts
  {
  }

  lemma AutoCloseOnce(st: Stack, t: string)
    requires st.names != [] && Closes(t, st.names[|st.names| - 1])
    ensures AutoClose(st, t) == AutoClose(Closed(st), t)
  {
    hide Closes, Closed;
  }

  // ---------- how far an end tag reaches ----------

  /** From the elements that any end tag passes to those that hardly any does. */
  function Rank(t: string): nat {
    if t == "html" then 7
    else if t == "head" || t == "body" then 6
    else if t == "table" then 5
    else if t == "thead" || t == "tbody" || t == "tfoot" then 4
    else if t == "tr" then 3
    else if t == "td" || t == "th" then 2
    else if t == "div" then 1
    else 0
  }

  lemma RankOrder(a: string, b: string)
    ensures Priority(a) > Priority(b) <==> Rank(a) > Rank(b)
  {
  }

  /** An end tag looks below an open element of another name exactly when that does not rank higher: a cell
      keeps the end tags of what stands outside it away, and a body all but its own and that of html. */
  lemma EndTagReach(names: seq<string>, x: string, t: string)
    requires x != t
    ensures FindOpen(names + [x], t) == if Rank(x) > Rank(t) then None else FindOpen(names, t)
  {
    assert (names + [x])[..|names + [x]| - 1] == names;
    RankOrder(x, t);
    hide Priority, Rank;
  }
}
