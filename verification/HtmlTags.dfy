/** What HTMLparser.c knows about element names: which start tags close which open elements, the
    priorities of end tags, and the empty elements. */
module HtmlTags {
  /** Open elements that a start tag closes, first part of htmlStartClose. */
  function ClosedByBlock(t: string): seq<string> {
    match t
    case "head" | "title" | "caption" => ["p"]
    case "body" | "frameset" => ["head", "style", "link", "title", "p"]
    case "hr" | "h1" | "h2" | "h3" | "h4" | "h5" | "h6" => ["p", "head"]
    case "dir" | "listing" | "xmp" | "blockquote" | "div" | "noscript" => ["p", "head"]
    case "address" | "pre" | "ol" | "menu" => ["p", "head", "ul"]
    case "p" => ["p", "head", "h1", "h2", "h3", "h4", "h5", "h6", "tt", "i", "b", "u", "s", "strike", "big", "small"]
    case "center" => ["font", "b", "i", "p", "head"]
    case _ => []
  }

  /** Lists and definitions. */
  function ClosedByList(t: string): seq<string> {
    match t
    case "li" => ["p", "h1", "h2", "h3", "h4", "h5", "h6", "dl", "address", "pre", "listing", "xmp", "head", "li"]
    case "dl" => ["p", "dt", "menu", "dir", "address", "pre", "listing", "xmp", "head"]
    case "dt" => ["p", "menu", "dir", "address", "pre", "listing", "xmp", "head", "dd"]
    case "dd" => ["p", "menu", "dir", "address", "pre", "listing", "xmp", "head", "dt"]
    case "ul" => ["p", "head", "ol", "menu", "dir", "address", "pre", "listing", "xmp"]
    case "optgroup" | "option" => ["option"]
    case "a" => ["a"]
    case _ => []
  }

  /** Forms, field sets and tables as a whole. */
  function ClosedByGroup(t: string): seq<string> {
    match t
    case "form" => ["form", "p", "hr", "h1", "h2", "h3", "h4", "h5", "h6", "dl", "ul", "ol", "menu", "dir", "address", "pre",
                    "listing", "xmp", "head"]
    case "table" => ["p", "head", "h1", "h2", "h3", "h4", "h5", "h6", "pre", "listing", "xmp", "a"]
    case "fieldset" => ["legend", "p", "head", "h1", "h2", "h3", "h4", "h5", "h6", "pre", "listing", "xmp", "a"]
    case _ => []
  }

  /** The parts of tables. */
  function ClosedByTable(t: string): seq<string> {
    match t
    case "colgroup" => ["caption", "colgroup", "col", "p"]
    case "col" => ["caption", "col", "p"]
    case "th" | "td" => ["th", "td", "p", "span", "font", "a", "b", "i", "u"]
    case "tr" => ["th", "td", "tr", "caption", "col", "colgroup", "p"]
    case "thead" => ["caption", "col", "colgroup"]
    case "tfoot" => ["th", "td", "tr", "caption", "col", "colgroup", "thead", "tbody", "p"]
    case "tbody" => ["th", "td", "tr", "caption", "col", "colgroup", "thead", "tfoot", "tbody", "p"]
    case _ => []
  }

  /** htmlCheckAutoClose. */
  predicate Closes(newTag: string, oldTag: string) {
    oldTag in ClosedByBlock(newTag) || oldTag in ClosedByList(newTag) || oldTag in ClosedByGroup(newTag) ||
    oldTag in ClosedByTable(newTag)
  }

  /** No start tag closes an open html or body element. */
  lemma NeverClosed(t: string)
    ensures !Closes(t, "html") && !Closes(t, "body")
  {
    NeverByBlock(t);
    NeverByList(t);
    NeverByGroup(t);
    NeverByTable(t);
    hide ClosedByBlock, ClosedByList, ClosedByGroup, ClosedByTable;
  }

  lemma NeverByBlock(t: string)
    ensures "html" !in ClosedByBlock(t) && "body" !in ClosedByBlock(t)
  {
  }

  lemma NeverByList(t: string)
    ensures "html" !in ClosedByList(t) && "body" !in ClosedByList(t)
  {
  }

  lemma NeverByGroup(t: string)
    ensures "html" !in ClosedByGroup(t) && "body" !in ClosedByGroup(t)
  {
  }

  lemma NeverByTable(t: string)
    ensures "html" !in ClosedByTable(t) && "body" !in ClosedByTable(t)
  {
  }

  /** htmlGetEndPriority. */
  function Priority(t: string): nat {
    match t
    case "div" => 150
    case "td" | "th" => 160
    case "tr" => 170
    case "thead" | "tbody" | "tfoot" => 180
    case "table" => 190
    case "head" | "body" => 200
    case "html" => 220
    case _ => 100
  }

  /** Elements that the table of HTML 4 elements marks as empty. */
  predicate Empty(t: string) {
    t in ["area", "base", "basefont", "br", "col", "frame", "hr", "img", "input", "isindex", "link", "meta", "param"]
  }

  lemma NotEmpty()
    ensures !Empty("html") && !Empty("head") && !Empty("body") && !Empty("p")
  {
  }
}
