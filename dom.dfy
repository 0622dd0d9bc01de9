/**
  A read-only document tree in place of the browser DOM, and the handful of DOM
  queries the extractor makes over it: `getAttribute`, `children`,
  `querySelector(All)` with the selectors the extractor uses, `textContent` and
  `innerText`.
*/
module Dom {
  import opened Wrappers
  import opened JsString

  /** A text node, or an element with its tag name, class name, other attributes and child nodes. */
  datatype Node =
    | Text(data: string)
    | Element(tag: string, className: string, attrs: map<string, string>, children: seq<Node>)

  /** An element node (what `Element.children` and `querySelector` return). */
  type ElementNode = n: Node | n.Element? witness Element("DIV", "", map[], [])

  /** `node.childNodes`: every child, text nodes included. */
  function ChildNodes(n: Node): seq<Node> {
    if n.Element? then n.children else []
  }

  /** `n.getAttribute(name)`, `None` standing for `null`. */
  function GetAttribute(n: Node, name: string): (r: Option<string>)
    ensures r.Some? <==> n.Element? && name in n.attrs
    ensures r.Some? ==> r.value == n.attrs[name]
  {
    if n.Element? && name in n.attrs then Some(n.attrs[name]) else None
  }

  /** The element children among `ch`, in order. */
  function ElementsOf(ch: seq<Node>): (r: seq<ElementNode>)
    ensures forall c :: c in r ==> c in ch
    ensures forall c :: c in ch && c.Element? ==> c in r
    decreases |ch|
  {
    if ch == [] then []
    else if ch[0].Element? then var e: ElementNode := ch[0]; [e] + ElementsOf(ch[1..])
    else ElementsOf(ch[1..])
  }

  /** `node.children`: the element children only. */
  function ElementChildren(n: Node): seq<ElementNode> {
    ElementsOf(ChildNodes(n))
  }

  /** The selectors the extractor passes to `querySelector` and `querySelectorAll`. */
  datatype Selector =
    | ByTag(name: string)                      // img, li, span, time, video
    | ByTestId(id: string)                     // [data-testid="…"]
    | TagWithTestId(name: string, id: string)  // article[data-testid="tweet"]
    | LinkHrefPrefix(prefix: string)           // a[href^="…"]
    | LinkHrefContains(part: string)           // a[href*="…"]

  /** Whether element `n` matches `sel` (tag names compare case-insensitively, as in HTML). */
  predicate Matches(sel: Selector, n: Node) {
    n.Element? &&
    match sel
    case ByTag(name) => ToUpper(n.tag) == name
    case ByTestId(id) => GetAttribute(n, "data-testid") == Some(id)
    case TagWithTestId(name, id) => ToUpper(n.tag) == name && GetAttribute(n, "data-testid") == Some(id)
    case LinkHrefPrefix(prefix) =>
      ToUpper(n.tag) == "A" && "href" in n.attrs && StartsWith(n.attrs["href"], prefix)
    case LinkHrefContains(part) =>
      ToUpper(n.tag) == "A" && "href" in n.attrs && Contains(n.attrs["href"], part)
  }

  /** `n.querySelectorAll(sel)`: the matching descendants of `n` (not `n` itself) in document order. */
  function QueryAll(n: Node, sel: Selector): (r: seq<Node>)
    ensures forall m :: m in r ==> Matches(sel, m)
    decreases n, 1
  {
    match n
    case Text(_) => []
    case Element(_, _, _, ch) => QueryAllOf(ch, sel)
  }

  /** The matching nodes among the subtrees `ch`, in document order. */
  function QueryAllOf(ch: seq<Node>, sel: Selector): (r: seq<Node>)
    ensures forall m :: m in r ==> Matches(sel, m)
    decreases ch, 0
  {
    if ch == [] then []
    else (if Matches(sel, ch[0]) then [ch[0]] else []) + QueryAll(ch[0], sel) + QueryAllOf(ch[1..], sel)
  }

  /** `n.querySelector(sel)`: the first matching descendant, or `None` for `null`. */
  function Query(n: Node, sel: Selector): (r: Option<ElementNode>)
    ensures r.None? <==> QueryAll(n, sel) == []
    ensures r.Some? ==> Matches(sel, r.value) && r.value == QueryAll(n, sel)[0]
  {
    var all := QueryAll(n, sel);
    if all == [] then None else assert all[0] in all; var e: ElementNode := all[0]; Some(e)
  }

  /**
    `n.querySelectorAll("anc sel")`: the descendants of `n` matching `sel` that lie
    below an element matching `anc`; `inside` says whether one is above `n` already.
  */
  function QueryAllWithin(n: Node, anc: Selector, sel: Selector, inside: bool): (r: seq<Node>)
    decreases n, 1
  {
    match n
    case Text(_) => []
    case Element(_, _, _, ch) => QueryAllWithinOf(ch, anc, sel, inside || Matches(anc, n))
  }

  function QueryAllWithinOf(ch: seq<Node>, anc: Selector, sel: Selector, inside: bool): (r: seq<Node>)
    decreases ch, 0
  {
    if ch == [] then []
    else
      (if inside && Matches(sel, ch[0]) then [ch[0]] else [])
      + QueryAllWithin(ch[0], anc, sel, inside)
      + QueryAllWithinOf(ch[1..], anc, sel, inside)
  }

  /** Below an ancestor match, the descendant combinator selects exactly what `sel` alone does. */
  lemma {:induction false} WithinInsideIsQueryAll(n: Node, anc: Selector, sel: Selector)
    ensures QueryAllWithin(n, anc, sel, true) == QueryAll(n, sel)
    decreases n, 1
  {
    match n
    case Text(_) =>
    case Element(_, _, _, ch) => WithinInsideIsQueryAllOf(ch, anc, sel);
  }

  lemma {:induction false} WithinInsideIsQueryAllOf(ch: seq<Node>, anc: Selector, sel: Selector)
    ensures QueryAllWithinOf(ch, anc, sel, true) == QueryAllOf(ch, sel)
    decreases ch, 0
  {
    if ch != [] {
      WithinInsideIsQueryAll(ch[0], anc, sel);
      WithinInsideIsQueryAllOf(ch[1..], anc, sel);
    }
  }

  /** Every node the descendant combinator selects is a descendant that matches `sel` alone. */
  lemma {:induction false} WithinSubsetOfQueryAll(n: Node, anc: Selector, sel: Selector, inside: bool)
    ensures forall m :: m in QueryAllWithin(n, anc, sel, inside) ==> m in QueryAll(n, sel)
    decreases n, 1
  {
    match n
    case Text(_) =>
    case Element(_, _, _, ch) => WithinSubsetOfQueryAllOf(ch, anc, sel, inside || Matches(anc, n));
  }

  lemma {:induction false} WithinSubsetOfQueryAllOf(ch: seq<Node>, anc: Selector, sel: Selector, inside: bool)
    ensures forall m :: m in QueryAllWithinOf(ch, anc, sel, inside) ==> m in QueryAllOf(ch, sel)
    decreases ch, 0
  {
    if ch != [] {
      WithinSubsetOfQueryAll(ch[0], anc, sel, inside);
      WithinSubsetOfQueryAllOf(ch[1..], anc, sel, inside);
    }
  }

  /** `node.textContent`: the text of every text node below, concatenated. */
  function TextContent(n: Node): string
    decreases n, 1
  {
    match n
    case Text(data) => data
    case Element(_, _, _, ch) => TextContentOf(ch)
  }

  function TextContentOf(ch: seq<Node>): string
    decreases ch, 0
  {
    if ch == [] then "" else TextContent(ch[0]) + TextContentOf(ch[1..])
  }

  /**
    `element.innerText`, without layout: the text below, with every `BR`
    element read as a line break.
  */
  function InnerText(n: Node): string
    decreases n, 1
  {
    match n
    case Text(data) => data
    case Element(tag, _, _, ch) => if ToUpper(tag) == "BR" then "\n" else InnerTextOf(ch)
  }

  function InnerTextOf(ch: seq<Node>): string
    decreases ch, 0
  {
    if ch == [] then "" else InnerText(ch[0]) + InnerTextOf(ch[1..])
  }
}
