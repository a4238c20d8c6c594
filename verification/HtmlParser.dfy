/** The parser context, as far as tags go: an object whose methods update the stack in place and send events.
    Each method is proved to do what the stack functions say. */
module HtmlParser {
  import opened Seqs
  import opened HtmlTags
  import opened HtmlStack
  import opened HtmlShape

  class Context {
    const omitted: bool
    var nameTab: seq<string>
    var name: Option<string>
    var html: nat
    var depth: nat
    var events: seq<Event>
    ghost var cuts: nat

    ghost function View(): Stack
      reads this
    {
      Stack(nameTab, html, depth, events, cuts)
    }

    /** name always shows the top of the stack. */
    ghost predicate Valid()
      reads this
    {
      name == Top(nameTab)
    }

    constructor (omitted: bool)
      ensures Valid() && View() == INITIAL && this.omitted == omitted
    {
      this.omitted := omitted;
      nameTab, name, html, depth, events, cuts := [], None, 1, 0, [], 0;
    }

    /** htmlnamePush and the start event that goes with it. */
    method Open(t: string)
      requires Valid()
      modifies this
      ensures Valid() && View() == Opened(old(View()), t)
    {
      if html < 3 && t == "head" {
        html := 3;
      }
      if html < 10 && t == "body" {
        html := 10;
      }
      nameTab := nameTab + [t];
      name := Some(t);
      events := events + [Start(t)];
    }

    /** htmlnamePop. */
    method NamePop() returns (ret: Option<string>)
      requires Valid()
      modifies this`nameTab, this`name
      ensures Valid() && ret == Top(old(nameTab))
      ensures View() == if old(nameTab) == [] then old(View()) else Pop(old(View()))
    {
      if |nameTab| == 0 {
        return None;
      }
      ret := Some(nameTab[|nameTab| - 1]);
      nameTab := nameTab[..|nameTab| - 1];
      name := if |nameTab| > 0 then Some(nameTab[|nameTab| - 1]) else None;
    }

    /** The end event of the top element, and its removal. */
    method Close()
      requires Valid() && nameTab != []
      modifies this
      ensures Valid() && View() == Closed(old(View()))
    {
      events := events + [End(name.value)];
      var _ := NamePop();
    }

    method AutoCloseFor(t: string)
      requires Valid()
      modifies this
      ensures Valid() && View() == AutoClose(old(View()), t)
    {
      hide Closes;
      while name.Some? && Closes(t, name.value)
        invariant Valid() && AutoClose(View(), t) == AutoClose(old(View()), t)
        decreases |nameTab|
      {
        Close();
      }
    }

    method AutoCloseOnEnd()
      requires Valid()
      modifies this
      ensures Valid() && View() == CloseAll(old(View()))
    {
      var i := |nameTab| - 1;
      while i >= 0
        invariant Valid() && i == |nameTab| - 1 && CloseAll(View()) == CloseAll(old(View()))
      {
        Close();
        i := i - 1;
      }
    }

    /** Whether body or head is open. */
    method BodyOrHead() returns (found: bool)
      ensures found <==> "body" in nameTab || "head" in nameTab
    {
      var i := 0;
      while i < |nameTab|
        invariant 0 <= i <= |nameTab|
        invariant forall j :: 0 <= j < i ==> nameTab[j] != "body" && nameTab[j] != "head"
      {
        if nameTab[i] == "body" || nameTab[i] == "head" {
          return true;
        }
        i := i + 1;
      }
      return false;
    }

    method Imply(t: string)
      requires Valid()
      modifies this
      ensures Valid() && View() == CheckImplied(old(View()), t, omitted)
    {
      hide Opened;
      if !omitted || t == "html" {
        return;
      }
      if |nameTab| <= 0 {
        Open("html");
      }
      if t == "body" || t == "head" {
        return;
      }
      if |nameTab| <= 1 && HeadContent(t) {
        if html >= 3 {
          return;
        }
        Open("head");
      } else if !FrameContent(t) {
        if html >= 10 {
          return;
        }
        var found := BodyOrHead();
        if !found {
          Open("body");
        }
      }
    }

    /** Each body that is open already counts as one level to ignore. */
    method MarkBodies() returns (found: bool)
      modifies this`depth
      ensures depth == old(depth) + Count(nameTab, "body") && (found <==> Count(nameTab, "body") > 0)
    {
      found := false;
      var i := 0;
      while i < |nameTab|
        invariant 0 <= i <= |nameTab|
        invariant depth == old(depth) + Count(nameTab[..i], "body") && (found <==> Count(nameTab[..i], "body") > 0)
      {
        assert nameTab[..i + 1][..i] == nameTab[..i];
        if nameTab[i] == "body" {
          found := true;
          depth := depth + 1;
        }
        i := i + 1;
      }
      assert nameTab[..i] == nameTab;
    }

    method ParseStartTag(t: string) returns (discarded: bool)
      requires Valid()
      modifies this
      ensures Valid() && View() == StartTag(old(View()), t, omitted)
      ensures discarded <==> Misplaced(Readied(old(View()), t, omitted).names, t) > 0
    {
      hide *;
      ghost var st := View();
      AutoCloseFor(t);
      Imply(t);
      ghost var ready := View();
      ReadiedIs(st, t, omitted);
      Fields();
      discarded := false;
      if |nameTab| > 0 && t == "html" {
        discarded := true;
        depth := depth + 1;
      }
      if |nameTab| != 1 && t == "head" {
        discarded := true;
        depth := depth + 1;
      }
      if t == "body" {
        discarded := MarkBodies();
      }
      Fields();
      StartTagIs(st, t, omitted);
      if !discarded {
        Open(t);
      }
    }

    lemma Fields()
      ensures View() == Stack(nameTab, html, depth, events, cuts) && (Valid() <==> name == Top(nameTab))
    {
    }

    /** htmlParseElement up to the content. A discarded tag's end is taken for that of the element on top. */
    method ParseElement(t: string, ending: Ending)
      requires Valid()
      modifies this
      ensures Valid() && View() == Element(old(View()), t, ending, omitted)
    {
      hide StartTag, Readied, Misplaced, Empty;
      var discarded := ParseStartTag(t);
      if name.None? {
        return;
      }
      if ending == SelfClosing {
        Close();
        return;
      }
      if ending == CutOff {
        var _ := NamePop();
        cuts := cuts + 1;
        return;
      }
      if Empty(name.value) {
        Close();
      }
    }

    method AutoCloseOnClose(t: string)
      requires Valid()
      modifies this
      ensures Valid()
      ensures View() == var st := old(View()); if FindOpen(st.names, t).None? then st else CloseTo(st, t)
    {
      hide *;
      ViewIs();
      ghost var st := View();
      var priority := Priority(t);
      var i := |nameTab| - 1;
      assert nameTab[..i + 1] == nameTab;
      while i >= 0
        invariant -1 <= i < |nameTab| && FindOpen(nameTab, t) == FindOpen(nameTab[..i + 1], t)
        invariant View() == st && Valid()
      {
        assert nameTab[..i + 1] == nameTab[..i] + [nameTab[i]];
        FindOpenStep(nameTab[..i], nameTab[i], t);
        if t == nameTab[i] {
          break;
        }
        if Priority(nameTab[i]) > priority {
          ViewIs();
          return;
        }
        i := i - 1;
      }
      ViewIs();
      if i < 0 {
        assert nameTab[..i + 1] == [];
        FindOpenNone(t);
        return;
      }
      while name != Some(t)
        invariant Valid() && t in nameTab && View().names == nameTab && CloseTo(View(), t) == CloseTo(st, t)
        decreases |nameTab|
      {
        ViewIs();
        CloseToStep(View(), t);
        Close();
        ViewIs();
      }
      ViewIs();
      CloseToStep(View(), t);
    }

    lemma ViewIs()
      requires Valid()
      ensures View().names == nameTab && name == Top(nameTab)
      ensures name == if nameTab == [] then None else Some(nameTab[|nameTab| - 1])
    {
    }

    method ParseEndTag(t: string) returns (ended: bool)
      requires Valid()
      modifies this
      ensures Valid() && View() == EndTag(old(View()), t)
      ensures ended <==> |nameTab| < |old(nameTab)|
    {
      if depth > 0 && (t == "html" || t == "body" || t == "head") {
        depth := depth - 1;
        return false;
      }
      var i := |nameTab| - 1;
      while i >= 0 && t != nameTab[i]
        invariant -1 <= i < |nameTab|
        invariant forall j :: i < j < |nameTab| ==> nameTab[j] != t
      {
        i := i - 1;
      }
      FindOpenTop(nameTab, t);
      if i < 0 {
        return false;
      }
      AutoCloseOnClose(t);
      hide FindOpen, CloseTo;
      if name == Some(t) {
        Close();
        return true;
      }
      return false;
    }

    method CheckParagraphFor()
      requires Valid()
      modifies this
      ensures Valid() && View() == CheckParagraph(old(View()), omitted)
    {
      hide AutoClose, CheckImplied, Opened;
      if name.None? {
        AutoCloseFor("p");
        Imply("p");
        Open("p");
        return;
      }
      if !omitted {
        return;
      }
      if name == Some("html") || name == Some("head") {
        AutoCloseFor("p");
        Imply("p");
        Open("p");
      }
    }
  }

  lemma ReadiedIs(st: Stack, t: string, omitted: bool)
    ensures Readied(st, t, omitted) == CheckImplied(AutoClose(st, t), t, omitted)
  {
    hide CheckImplied;
  }

  lemma StartTagIs(st: Stack, t: string, omitted: bool)
    ensures var a := Readied(st, t, omitted);
      && Misplaced(a.names, t) == (if a.names != [] && t == "html" then 1 else 0)
           + (if |a.names| != 1 && t == "head" then 1 else 0) + (if t == "body" then Count(a.names, "body") else 0)
      && StartTag(st, t, omitted) ==
           if Misplaced(a.names, t) > 0 then a.(depth := a.depth + Misplaced(a.names, t)) else Opened(a, t)
  {
    hide Readied, Opened, Count;
  }

  lemma FindOpenStep(front: seq<string>, last: string, t: string)
    ensures FindOpen(front + [last], t) ==
      if last == t then Some(|front|) else if Priority(last) > Priority(t) then None else FindOpen(front, t)
  {
    assert (front + [last])[..|front|] == front;
    hide Priority;
  }

  lemma FindOpenNone(t: string)
    ensures FindOpen([], t).None?
  {
  }

  lemma CloseToStep(st: Stack, t: string)
    requires t in st.names
    ensures st.names != []
    ensures st.names[|st.names| - 1] == t ==> CloseTo(st, t) == st
    ensures st.names[|st.names| - 1] != t ==>
      Closed(st).names == st.names[..|st.names| - 1] && t in Closed(st).names && CloseTo(st, t) == CloseTo(Closed(st), t)
  {
    assert st.names == st.names[..|st.names| - 1] + [st.names[|st.names| - 1]];
  }

  /** The search misses only when the name is not open, or something of higher priority stands on top; then
      the top has another name. */
  lemma FindOpenTop(names: seq<string>, t: string)
    ensures t !in names ==> FindOpen(names, t).None?
    ensures FindOpen(names, t).None? ==> Top(names) != Some(t)
  {
  }
}
