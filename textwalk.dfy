/**
  `getTextWithLineBreaks` of `TweetExtractor` (content/content.js): the text of a
  tweet body read child by child, so that the line breaks the page draws with
  `BR` elements survive.
*/
module TextWalk {
  import opened JsString
  import opened Wrappers
  import opened Dom

  /** What one child node adds to the text. */
  function ChildText(node: Node): string
    decreases node, 1
  {
    match node
    case Text(data) => data
    case Element(tag, _, _, ch) =>
      if ToUpper(tag) == "BR" then "\n"
      else if ToUpper(tag) == "A" then TextContent(node)
      else if ToUpper(tag) == "IMG" then AltText(node)
      else LineBreakText(ch)
  }

  /** The `alt` of an image, or nothing when it has none or an empty one. */
  function AltText(node: Node): string {
    match GetAttribute(node, "alt")
    case Some(alt) => alt
    case None => ""
  }

  /** The text of the child nodes `ch`, one after the other. */
  function LineBreakText(ch: seq<Node>): string
    decreases ch, 0
  {
    if ch == [] then "" else LineBreakText(ch[..|ch| - 1]) + ChildText(ch[|ch| - 1])
  }

  /**
    `getTextWithLineBreaks(element)`: text nodes are copied, `BR` becomes a line
    break, a link gives its text, an image its `alt`, and any other element is read
    the same way recursively.
  */
  method GetTextWithLineBreaks(element: Node) returns (text: string)
    ensures text == LineBreakText(ChildNodes(element))
    decreases element
  {
    text := "";
    var childNodes := ChildNodes(element);
    for k := 0 to |childNodes|
      invariant text == LineBreakText(childNodes[..k])
    {
      var node := childNodes[k];
      assert childNodes[..k + 1][..k] == childNodes[..k];
      if node.Text? {
        text := text + node.data;
      } else if ToUpper(node.tag) == "BR" {
        text := text + "\n";
      } else if ToUpper(node.tag) == "A" {
        text := text + TextContent(node);
      } else if ToUpper(node.tag) == "IMG" {
        var alt := GetAttribute(node, "alt");
        if alt.Some? && alt.value != "" {
          text := text + alt.value;
        }
      } else {
        assert node in element.children;
        var inner := GetTextWithLineBreaks(node);
        text := text + inner;
      }
    }
    assert childNodes[..|childNodes|] == childNodes;
  }

  // ---------------------------------------------------------------------------
  // Without line breaks or images the walk is the plain text

  /** No `BR` and no `IMG` element anywhere in the tree of `n`. */
  predicate NoBreakOrImage(n: Node)
    decreases n, 1
  {
    match n
    case Text(_) => true
    case Element(tag, _, _, ch) => ToUpper(tag) != "BR" && ToUpper(tag) != "IMG" && NoBreakOrImageOf(ch)
  }

  predicate NoBreakOrImageOf(ch: seq<Node>)
    decreases ch, 0
  {
    forall k :: 0 <= k < |ch| ==> NoBreakOrImage(ch[k])
  }

  /** `textContent` of two runs of nodes is the text of each, in order. */
  lemma {:induction false} TextContentOfAppend(a: seq<Node>, b: seq<Node>)
    ensures TextContentOf(a + b) == TextContentOf(a) + TextContentOf(b)
    decreases |a|
  {
    if a == [] {
      assert a + b == b;
    } else {
      assert (a + b)[1..] == a[1..] + b;
      TextContentOfAppend(a[1..], b);
    }
  }

  /** A tree without `BR` or `IMG` elements is read as the concatenation of its text nodes. */
  lemma {:induction false} PlainWalkIsTextContent(ch: seq<Node>)
    requires NoBreakOrImageOf(ch)
    ensures LineBreakText(ch) == TextContentOf(ch)
    decreases ch, 0
  {
    if ch != [] {
      var init, last := ch[..|ch| - 1], ch[|ch| - 1];
      PlainWalkIsTextContent(init);
      PlainChildIsTextContent(last);
      TextContentOfAppend(init, [last]);
      assert init + [last] == ch;
    }
  }

  lemma {:induction false} PlainChildIsTextContent(n: Node)
    requires NoBreakOrImage(n)
    ensures ChildText(n) == TextContent(n)
    decreases n, 1
  {
    match n
    case Text(_) =>
    case Element(tag, _, _, ch) =>
      if ToUpper(tag) != "A" {
        PlainWalkIsTextContent(ch);
      }
  }

  /** The text of an element's children is what each child adds, in child order. */
  lemma {:induction false} LineBreakTextAppend(a: seq<Node>, b: seq<Node>)
    ensures LineBreakText(a + b) == LineBreakText(a) + LineBreakText(b)
    decreases |b|
  {
    if b == [] {
      assert a + b == a;
    } else {
      var b' := b[..|b| - 1];
      assert (a + b)[..|a + b| - 1] == a + b';
      assert (a + b)[|a + b| - 1] == b[|b| - 1];
      LineBreakTextAppend(a, b');
    }
  }

  /** A `BR` child puts exactly one line break at its place in the text. */
  lemma BreakChild(a: seq<Node>, br: Node, b: seq<Node>)
    requires br.Element? && ToUpper(br.tag) == "BR"
    ensures LineBreakText(a + [br] + b) == LineBreakText(a) + "\n" + LineBreakText(b)
  {
    LineBreakTextAppend(a + [br], b);
    LineBreakTextAppend(a, [br]);
    assert [br][..0] == [];
  }
}
