/** The open-element stack of the HTML parser (HTMLparser.c): implied, auto-closed and misplaced tags, and
    the start and end events sent to the SAX handler. */
module HtmlStack {
  import opened Seqs
  import opened HtmlTags

  datatype Event = Start(name: string) | End(name: string)

  /** The part of the parser context that tags change: nameTab, html and depth; events and cuts record
      what was sent and how many tags were cut off in the middle. */
  datatype Stack = Stack(names: seq<string>, html: nat, depth: nat, events: seq<Event>, cuts: nat)

  const INITIAL: Stack := Stack([], 1, 0, [], 0)

  function Push(st: Stack, t: string): Stack {
    st.(names := st.names + [t],
        html := if st.html < 3 && t == "head" then 3 else if st.html < 10 && t == "body" then 10 else st.html)
  }

  function Opened(st: Stack, t: string): Stack {
    var p := Push(st, t);
    p.(events := p.events + [Start(t)])
  }

  function Top(names: seq<string>): Option<string> {
    if names == [] then None else Some(names[|names| - 1])
  }

  function Pop(st: Stack): Stack
    requires st.names != []
  {
    st.(names := st.names[..|st.names| - 1])
  }

  function Closed(st: Stack): Stack
    requires st.names != []
  {
    Pop(st).(events := st.events + [End(st.names[|st.names| - 1])])
  }

  /** htmlAutoClose. */
  function AutoClose(st: Stack, t: string): (r: Stack)
    ensures r.names <= st.names && r == st.(names := r.names, events := r.events)
    decreases |st.names|
  {
    if st.names != [] && Closes(t, st.names[|st.names| - 1]) then AutoClose(Closed(st), t) else st
  }

  /** htmlAutoCloseOnEnd. */
  function CloseAll(st: Stack): (r: Stack)
    ensures r.names == [] && r == st.(names := [], events := r.events)
    decreases |st.names|
  {
    if st.names == [] then st else CloseAll(Closed(st))
  }

  predicate HeadContent(t: string) {
    t == "script" || t == "style" || t == "meta" || t == "link" || t == "title" || t == "base"
  }

  predicate FrameContent(t: string) { t == "noframes" || t == "frame" || t == "frameset" }

  /** htmlCheckImplied. */
  function CheckImplied(st: Stack, t: string, omitted: bool): Stack {
    if !omitted || t == "html" then st
    else
      var a := if st.names == [] then Opened(st, "html") else st;
      if t == "body" || t == "head" then a
      else if |a.names| <= 1 && HeadContent(t) then if a.html >= 3 then a else Opened(a, "head")
      else if FrameContent(t) || a.html >= 10 || "body" in a.names || "head" in a.names then a
      else Opened(a, "body")
  }

  function Count(names: seq<string>, t: string): nat {
    if names == [] then 0 else Count(names[..|names| - 1], t) + if names[|names| - 1] == t then 1 else 0
  }

  /** How often htmlParseStartTag finds a tag misplaced. */
  function Misplaced(names: seq<string>, t: string): nat {
    (if names != [] && t == "html" then 1 else 0) + (if |names| != 1 && t == "head" then 1 else 0)
    + if t == "body" then Count(names, "body") else 0
  }

  function Readied(st: Stack, t: string, omitted: bool): Stack {
    CheckImplied(AutoClose(st, t), t, omitted)
  }

  /** The stack part of htmlParseStartTag. */
  function StartTag(st: Stack, t: string, omitted: bool): Stack {
    var a := Readied(st, t, omitted);
    if Misplaced(a.names, t) > 0 then a.(depth := a.depth + Misplaced(a.names, t)) else Opened(a, t)
  }

  /** How the text of a start tag ends: with ">", with "/>", or before either is met. */
  datatype Ending = Normal | SelfClosing | CutOff

  /** htmlParseElement up to the content. A cut tag's name is popped without an event. */
  function Element(st: Stack, t: string, ending: Ending, omitted: bool): Stack {
    var a := StartTag(st, t, omitted);
    if a.names == [] then a
    else
      match ending
      case SelfClosing => Closed(a)
      case CutOff => Pop(a).(cuts := a.cuts + 1)
      case Normal => if Empty(a.names[|a.names| - 1]) then Closed(a) else a
  }

  /** The search of htmlAutoCloseOnClose: the nearest element of that name, unless one of higher priority
      stands in between. */
  function FindOpen(names: seq<string>, t: string): (r: Option<nat>)
    ensures r.Some? ==> r.value < |names| && names[r.value] == t
  {
    if names == [] then None
    else
      var last := names[|names| - 1];
      if last == t then Some(|names| - 1) else if Priority(last) > Priority(t) then None else FindOpen(names[..|names| - 1], t)
  }

  function CloseTo(st: Stack, t: string): (r: Stack)
    requires t in st.names
    ensures r.names <= st.names && r.names != [] && r.names[|r.names| - 1] == t
    decreases |st.names|
  {
    if st.names[|st.names| - 1] == t then st else CloseTo(Closed(st), t)
  }

  /** htmlParseEndTag, once its text is read. */
  function EndTag(st: Stack, t: string): Stack {
    if st.depth > 0 && (t == "html" || t == "body" || t == "head") then st.(depth := st.depth - 1)
    else if FindOpen(st.names, t).None? then st
    else Closed(CloseTo(st, t))
  }

  /** htmlCheckParagraph, before characters are sent. */
  function CheckParagraph(st: Stack, omitted: bool): Stack {
    if st.names == [] || (omitted && (Top(st.names) == Some("html") || Top(st.names) == Some("head"))) then
      Opened(Readied(st, "p", omitted), "p")
    else st
  }

  /** What the parser does to the stack, in any order a document can bring about. */
  datatype Action = OpenElement(name: string, ending: Ending) | CloseElement(name: string) | Characters
                  | Announce(name: string) | EndOfInput

  function Act(st: Stack, a: Action, omitted: bool): Stack {
    match a
    case OpenElement(t, ending) => Element(st, t, ending, omitted)
    case CloseElement(t) => EndTag(st, t)
    case Characters => CheckParagraph(st, omitted)
    case Announce(t) => AutoClose(st, t)
    case EndOfInput => CloseAll(st)
  }

  function Run(actions: seq<Action>, omitted: bool): Stack {
    if actions == [] then INITIAL
    else Act(Run(actions[..|actions| - 1], omitted), actions[|actions| - 1], omitted)
  }
}
