/**
  The long-form article walker of `TweetExtractor` (content/content.js): it reads the
  content blocks of an X Article in document order, turns each into Markdown
  fragments (images, quotes, lists, sub-headings, paragraphs), joins them and
  normalises the line breaks.
*/
module ArticleWalker {
  import opened Wrappers
  import opened JsString
  import opened Patterns
  import opened Dom
  import opened ImageUrls

  // ---------------------------------------------------------------------------
  // Line break normalisation

  /** `text.replace(/\n{3,}/g, '\n\n')`: every run of three or more line breaks becomes two. */
  function CollapseNewlines(s: string): (r: string)
    ensures |r| <= |s|
    decreases |s|
  {
    match MatchLen(NewlineRun, s)
    case Some(n) => "\n\n" + CollapseNewlines(s[n..])
    case None => if s == [] then [] else [s[0]] + CollapseNewlines(s[1..])
  }

  /** Three line breaks in a row start at `i`. */
  predicate TripleNewlineAt(s: string, i: nat)
    requires i + 3 <= |s|
  {
    s[i] == '\n' && s[i + 1] == '\n' && s[i + 2] == '\n'
  }

  /** No three consecutive line breaks anywhere in `s`. */
  predicate NoTripleNewline(s: string) {
    forall i: nat :: i + 3 <= |s| ==> !TripleNewlineAt(s, i)
  }

  /** The final clean-up of the walker: collapse line-break runs, then `trim`. */
  function Normalize(s: string): (r: string)
    ensures |r| <= |s|
  {
    Trim(CollapseNewlines(s))
  }

  // ---------------------------------------------------------------------------
  // Block classification

  /** The host of article images the walker keeps. */
  const MediaHost := "pbs.twimg.com/media"

  /** What the walker decides a block is, in the order it tests the cases. */
  datatype Block =
    | ImageBlock(src: Option<string>)   // holds an img; `src` is that of the first one
    | EmptyBlock                        // no img and no visible text
    | QuoteBlock(text: string)          // BLOCKQUOTE tag or a `blockquote` class
    | ListBlock(items: seq<Node>)       // UL or OL, with its li descendants
    | SubheadingBlock(text: string)     // short text right after an image block
    | ParagraphBlock(text: string)      // anything else

  /**
    The heading test of the walker: a `header` class, or a short single-line text
    that is not the first block. Passing it is not enough for a sub-heading (see
    `Classify`), and the heuristic can still take a short paragraph for a heading.
  */
  predicate IsHeadingCandidate(className: string, text: string, i: nat) {
    Contains(className, "header") || (|text| < 80 && '\n' !in text && i > 0)
  }

  /** `block.querySelector('img')` finds something. */
  predicate HasImage(block: Node) {
    Query(block, ByTag("IMG")).Some?
  }

  /** The block before block `i` holds an img. */
  predicate PrevHasImage(blocks: seq<ElementNode>, i: nat)
    requires i < |blocks|
  {
    i > 0 && HasImage(blocks[i - 1])
  }

  /** How the walker classifies block `i` of `blocks`. */
  function Classify(blocks: seq<ElementNode>, i: nat): Block
    requires i < |blocks|
  {
    ClassifyBlock(blocks[i], i, PrevHasImage(blocks, i))
  }

  /**
    How the walker classifies `block`, the `i`-th, given whether the block before
    it holds an img: images first, then by its trimmed text.
  */
  function ClassifyBlock(block: ElementNode, i: nat, prevHasImage: bool): (r: Block)
    ensures r.ImageBlock? <==> HasImage(block)
    ensures r.SubheadingBlock? ==> prevHasImage && |r.text| < 60
  {
    match Query(block, ByTag("IMG"))
    case Some(img) => ImageBlock(GetAttribute(img, "src"))
    case None => ClassifyText(block, i, prevHasImage, Trim(InnerText(block)))
  }

  /** How the walker classifies an image-free block whose trimmed text is `text`. */
  function ClassifyText(block: ElementNode, i: nat, prevHasImage: bool, text: string): (r: Block)
    ensures r.EmptyBlock? <==> text == ""
    ensures !r.ImageBlock? && (r.QuoteBlock? || r.SubheadingBlock? || r.ParagraphBlock? ==> r.text == text)
    ensures r.SubheadingBlock? ==> prevHasImage && |text| < 60
  {
    var tagName := ToUpper(block.tag);
    if text == "" then EmptyBlock
    else if tagName == "BLOCKQUOTE" || Contains(block.className, "blockquote") then QuoteBlock(text)
    else if tagName == "UL" || tagName == "OL" then ListBlock(QueryAll(block, ByTag("LI")))
    else if IsHeadingCandidate(block.className, text, i) && prevHasImage && |text| < 60
    then SubheadingBlock(text)
    else ParagraphBlock(text)
  }

  /** The line of one list item: `- `, its trimmed text, a line break. */
  function ListItemLine(item: Node): string {
    "- " + Trim(InnerText(item)) + "\n"
  }

  /** The list-item lines of a list block, in item order. */
  function ListItemLines(items: seq<Node>): seq<string>
    decreases |items|
  {
    if items == [] then [] else ListItemLines(items[..|items| - 1]) + [ListItemLine(items[|items| - 1])]
  }

  /** The `> `-prefixed lines of a quote. */
  function QuoteLines(text: string): string {
    Join(PrefixEach("> ", Split(text, '\n')), "\n")
  }

  /** The Markdown the walker pushes for one block. */
  function Fragments(b: Block): seq<string> {
    match b
    case ImageBlock(src) =>
      if src.Some? && src.value != "" && Contains(src.value, MediaHost)
      then ["\n![图片](" + LargeImageUrl(src.value) + ")\n"]
      else []
    case EmptyBlock => []
    case QuoteBlock(text) => ["\n" + QuoteLines(text) + "\n"]
    case ListBlock(items) => ListItemLines(items) + ["\n"]
    case SubheadingBlock(text) => ["\n### " + text + "\n"]
    case ParagraphBlock(text) => ["\n" + text + "\n"]
  }

  /** The fragments of each block, one entry per block, in block order. */
  function BlockFragments(blocks: seq<ElementNode>): (r: seq<seq<string>>)
    ensures |r| == |blocks|
    ensures forall i :: 0 <= i < |blocks| ==> r[i] == Fragments(Classify(blocks, i))
  {
    seq(|blocks|, i requires 0 <= i < |blocks| => Fragments(Classify(blocks, i)))
  }

  /** The fragment lists one after the other (what the pushes of the loop build). */
  function Flatten<T>(ps: seq<seq<T>>): seq<T>
    decreases |ps|
  {
    if ps == [] then [] else Flatten(ps[..|ps| - 1]) + ps[|ps| - 1]
  }

  /**
    What `extractArticleContentPreserveOrder` returns for a container: nothing
    without one, the container's text when it has no wrapper element, and
    otherwise the normalised fragments of the wrapper's blocks.
  */
  function ArticleBody(container: Option<Node>): string {
    match container
    case None => ""
    case Some(c) =>
      var kids := ElementChildren(c);
      if kids == [] then InnerText(c)
      else
        var blocks := ElementChildren(kids[0]);
        Normalize(Join(Flatten(BlockFragments(blocks)), ""))
  }

  /** `extractArticleContentPreserveOrder(container)` */
  method ExtractArticleContentPreserveOrder(container: Option<Node>) returns (result: string)
    ensures result == ArticleBody(container)
  {
    if container.None? {
      return "";
    }
    var c := container.value;
    var kids := ElementChildren(c);
    if |kids| == 0 {
      return InnerText(c);
    }
    var contentBlocks := ElementChildren(kids[0]);
    ghost var frags := BlockFragments(contentBlocks);
    var markdownParts: seq<string> := [];
    for i := 0 to |contentBlocks|
      invariant markdownParts == Flatten(frags[..i])
    {
      markdownParts := PushBlock(contentBlocks, i, markdownParts);
      FlattenSnoc(frags, i);
    }
    assert frags[..|contentBlocks|] == frags;
    result := Join(markdownParts, "");
    result := CollapseNewlines(result);
    result := Trim(result);
  }

  /** One turn of the walker's loop: push the fragments of block `i` onto `markdownParts`. */
  method PushBlock(contentBlocks: seq<ElementNode>, i: nat, markdownParts: seq<string>) returns (parts: seq<string>)
    requires i < |contentBlocks|
    ensures parts == markdownParts + Fragments(Classify(contentBlocks, i))
  {
    parts := markdownParts;
    var block := contentBlocks[i];
    var img := Query(block, ByTag("IMG"));
    if img.Some? {
      var src := GetAttribute(img.value, "src");
      if src.Some? && src.value != "" && Contains(src.value, MediaHost) {
        var largeSrc := FormatNameLarge(LargeName(src.value), None);
        parts := parts + ["\n![图片](" + largeSrc + ")\n"];
      }
      assert ClassifyBlock(block, i, PrevHasImage(contentBlocks, i)) == ImageBlock(src);
      return;
    }
    var text := Trim(InnerText(block));
    parts := PushTextBlock(contentBlocks, i, text, parts);
  }

  /** The rest of a loop turn, for a block without an img whose trimmed text is `text`. */
  method PushTextBlock(contentBlocks: seq<ElementNode>, i: nat, text: string, markdownParts: seq<string>)
    returns (parts: seq<string>)
    requires i < |contentBlocks|
    ensures parts == markdownParts + Fragments(ClassifyText(contentBlocks[i], i, PrevHasImage(contentBlocks, i), text))
  {
    parts := markdownParts;
    ghost var b := ClassifyText(contentBlocks[i], i, PrevHasImage(contentBlocks, i), text);
    if text == "" {
      assert b == EmptyBlock;
      return;
    }
    var block := contentBlocks[i];
    var tagName := ToUpper(block.tag);
    var className := block.className;
    if tagName == "BLOCKQUOTE" || Contains(className, "blockquote") {
      var lines := Split(text, '\n');
      var quoted := Join(PrefixEach("> ", lines), "\n");
      assert b == QuoteBlock(text);
      parts := parts + ["\n" + quoted + "\n"];
    } else if tagName == "UL" || tagName == "OL" {
      var items := QueryAll(block, ByTag("LI"));
      assert b == ListBlock(items);
      parts := PushListItems(items, parts);
      parts := parts + ["\n"];
    } else {
      parts := PushHeadingOrParagraph(contentBlocks, i, text, parts);
    }
  }

  /** The last two cases of a loop turn: a sub-heading or a plain paragraph. */
  method PushHeadingOrParagraph(contentBlocks: seq<ElementNode>, i: nat, text: string, markdownParts: seq<string>)
    returns (parts: seq<string>)
    requires i < |contentBlocks|
    ensures var b := if IsHeadingCandidate(contentBlocks[i].className, text, i) && PrevHasImage(contentBlocks, i) && |text| < 60
                     then SubheadingBlock(text) else ParagraphBlock(text);
            parts == markdownParts + Fragments(b)
  {
    var className := contentBlocks[i].className;
    if Contains(className, "header") || (|text| < 80 && '\n' !in text && i > 0) {
      var prevWasImage := i > 0 && Query(contentBlocks[i - 1], ByTag("IMG")).Some?;
      if prevWasImage && |text| < 60 {
        parts := markdownParts + ["\n### " + text + "\n"];
      } else {
        parts := markdownParts + ["\n" + text + "\n"];
      }
    } else {
      parts := markdownParts + ["\n" + text + "\n"];
    }
  }

  /** `items.forEach(item => markdownParts.push(`- ${item.innerText.trim()}\n`))` */
  method PushListItems(items: seq<Node>, markdownParts: seq<string>) returns (parts: seq<string>)
    ensures parts == markdownParts + ListItemLines(items)
  {
    parts := markdownParts;
    for j := 0 to |items|
      invariant parts == markdownParts + ListItemLines(items[..j])
    {
      ListItemLinesSnoc(items, j);
      parts := parts + ["- " + Trim(InnerText(items[j])) + "\n"];
    }
    assert items[..|items|] == items;
  }

  lemma ListItemLinesSnoc(items: seq<Node>, j: nat)
    requires j < |items|
    ensures ListItemLines(items[..j + 1]) == ListItemLines(items[..j]) + ["- " + Trim(InnerText(items[j])) + "\n"]
  {
    assert items[..j + 1][..j] == items[..j];
  }

  // ---------------------------------------------------------------------------
  // Line-break normalisation leaves no run of three

  lemma RunCons(c: char, x: string, k: CharClass)
    ensures Run([c] + x, k) == if InClass(c, k) then 1 + Run(x, k) else 0
  {
    assert ([c] + x)[1..] == x;
  }

  /** A string that starts with two line breaks has a line-break run of at least two. */
  lemma TwoNewlinesRun(x: string)
    requires |x| >= 2 && x[0] == '\n' && x[1] == '\n'
    ensures Run(x, Newline) >= 2
  {
    RunCons(x[0], x[1..], Newline);
    RunCons(x[1], x[2..], Newline);
    assert x == [x[0]] + x[1..];
    assert x[1..] == [x[1]] + x[2..];
  }

  /** Putting a char in front creates a triple only when it is a break before two more. */
  lemma NoTripleCons(c: char, x: string)
    requires NoTripleNewline(x)
    requires c == '\n' ==> Run(x, Newline) < 2
    ensures NoTripleNewline([c] + x)
  {
    var y := [c] + x;
    forall i: nat | i + 3 <= |y|
      ensures !TripleNewlineAt(y, i)
    {
      if i == 0 {
        if TripleNewlineAt(y, 0) {
          TwoNewlinesRun(x);
        }
      } else {
        assert y[i] == x[i - 1] && y[i + 1] == x[i] && y[i + 2] == x[i + 1];
        assert !TripleNewlineAt(x, i - 1);
      }
    }
  }

  /** A slice of a string without a triple line break has none either. */
  lemma NoTripleSlice(s: string, a: nat, b: nat)
    requires a <= b <= |s| && NoTripleNewline(s)
    ensures NoTripleNewline(s[a..b])
  {
    var t := s[a..b];
    forall i: nat | i + 3 <= |t|
      ensures !TripleNewlineAt(t, i)
    {
      assert t[i] == s[a + i] && t[i + 1] == s[a + i + 1] && t[i + 2] == s[a + i + 2];
      assert !TripleNewlineAt(s, a + i);
    }
  }

  /** The output of the collapse has no triple, and its leading break run is capped at two. */
  predicate CollapseKeeps(s: string) {
    && NoTripleNewline(CollapseNewlines(s))
    && Run(CollapseNewlines(s), Newline) == (if Run(s, Newline) >= 3 then 2 else Run(s, Newline))
  }

  /** `replace(/\n{3,}/g, '\n\n')` leaves no three line breaks in a row. */
  lemma {:induction false} CollapseNewlinesKeeps(s: string)
    ensures CollapseKeeps(s)
    decreases |s|
  {
    match MatchLen(NewlineRun, s)
    case Some(n) =>
      CollapseNewlinesKeeps(s[n..]);
      CollapseRunStep(s);
    case None =>
      if s != [] {
        CollapseNewlinesKeeps(s[1..]);
        CollapseConsStep(s);
      }
  }

  lemma CollapseRunStep(s: string)
    requires MatchLen(NewlineRun, s).Some?
    requires CollapseKeeps(s[MatchLen(NewlineRun, s).value..])
    ensures CollapseKeeps(s)
  {
    var n := MatchLen(NewlineRun, s).value;
    var x := CollapseNewlines(s[n..]);
    assert n == Run(s, Newline);
    assert s[n..] == [] || s[n..][0] == s[n];
    assert Run(s[n..], Newline) == 0;
    NoTripleCons('\n', x);
    RunCons('\n', x, Newline);
    NoTripleCons('\n', ['\n'] + x);
    RunCons('\n', ['\n'] + x, Newline);
    assert CollapseNewlines(s) == ['\n'] + (['\n'] + x);
  }

  lemma CollapseConsStep(s: string)
    requires s != [] && MatchLen(NewlineRun, s).None?
    requires CollapseKeeps(s[1..])
    ensures CollapseKeeps(s)
  {
    var x := CollapseNewlines(s[1..]);
    assert CollapseNewlines(s) == [s[0]] + x;
    assert s == [s[0]] + s[1..];
    RunCons(s[0], s[1..], Newline);
    RunCons(s[0], x, Newline);
    NoTripleCons(s[0], x);
  }

  /**
    `replace(/\n{3,}/g, '\n\n')` unfolded at the leftmost match: text with no run of
    three line breaks is kept; otherwise everything before the leftmost run is kept,
    that whole run becomes exactly two line breaks, and the rest is processed the same way.
  */
  lemma {:induction false} CollapseNewlinesReplacesLeftmost(s: string, i: nat)
    ensures FirstMatchPos(NewlineRun, s).None? ==> CollapseNewlines(s) == s
    ensures FirstMatchPos(NewlineRun, s) == Some(i) ==>
              var n := MatchLen(NewlineRun, s[i..]).value;
              && n == Run(s[i..], Newline) && n >= 3
              && CollapseNewlines(s) == s[..i] + "\n\n" + CollapseNewlines(s[i + n..])
  {
    CollapseKeepsBefore(s);
    if FirstMatchPos(NewlineRun, s) == Some(i) {
      CollapseAtRun(s, i);
    }
  }

  /** Where a run starts, the whole run becomes two line breaks. */
  lemma CollapseAtRun(s: string, i: nat)
    requires i < |s| && MatchLen(NewlineRun, s[i..]).Some?
    requires CollapseNewlines(s) == s[..i] + CollapseNewlines(s[i..])
    ensures var n := MatchLen(NewlineRun, s[i..]).value;
      && n == Run(s[i..], Newline) && n >= 3
      && CollapseNewlines(s) == s[..i] + "\n\n" + CollapseNewlines(s[i + n..])
  {
    var n := MatchLen(NewlineRun, s[i..]).value;
    var rest := CollapseNewlines(s[i + n..]);
    assert s[i..][n..] == s[i + n..];
    assert CollapseNewlines(s[i..]) == "\n\n" + rest;
    Regroup(s[..i], "\n\n", rest);
  }

  /** Text in front of the leftmost `\n{3,}` match is copied unchanged, and so is text without one. */
  lemma {:induction false} CollapseKeepsBefore(s: string)
    ensures FirstMatchPos(NewlineRun, s).None? ==> CollapseNewlines(s) == s
    ensures FirstMatchPos(NewlineRun, s).Some? ==>
              CollapseNewlines(s) == s[..FirstMatchPos(NewlineRun, s).value] + CollapseNewlines(s[FirstMatchPos(NewlineRun, s).value..])
    decreases |s|
  {
    if s == [] {
    } else if MatchLen(NewlineRun, s).Some? {
      assert s[0..] == s;
      assert s[..0] == [];
    } else {
      CollapseKeepsBefore(s[1..]);
      FirstMatchPosCons(NewlineRun, s);
      assert CollapseNewlines(s) == [s[0]] + CollapseNewlines(s[1..]);
      match FirstMatchPos(NewlineRun, s[1..])
      case Some(j) =>
        assert s[1..][j..] == s[j + 1..];
        ConsKeepsPrefix(s, j, CollapseNewlines(s[j + 1..]));
      case None =>
        assert [s[0]] + s[1..] == s;
    }
  }

  /** Concatenation regrouped. */
  lemma Regroup(a: string, b: string, c: string)
    ensures a + (b + c) == a + b + c
  {
  }

  /** Putting the first char back in front of a prefix of the tail. */
  lemma ConsKeepsPrefix(s: string, j: nat, rest: string)
    requires j < |s|
    ensures [s[0]] + (s[1..][..j] + rest) == s[..j + 1] + rest
  {
    assert s[..j + 1] == [s[0]] + s[1..][..j];
  }

  // ---------------------------------------------------------------------------
  // What the walker promises

  /**
    When the container has a wrapper, the article text has no run of three line
    breaks and neither starts nor ends with whitespace.
  */
  lemma ArticleBodyNormalized(c: Node)
    requires ElementChildren(c) != []
    ensures var body := ArticleBody(Some(c));
      NoTripleNewline(body) && (body == [] || (!IsWhitespace(body[0]) && !IsWhitespace(body[|body| - 1])))
  {
    var blocks := ElementChildren(ElementChildren(c)[0]);
    NormalizeKeeps(Join(Flatten(BlockFragments(blocks)), ""));
  }

  /** The final clean-up leaves no triple line break and no outer whitespace. */
  lemma NormalizeKeeps(s: string)
    ensures var r := Normalize(s);
      NoTripleNewline(r) && (r == [] || (!IsWhitespace(r[0]) && !IsWhitespace(r[|r| - 1])))
  {
    CollapseNewlinesKeeps(s);
    NoTripleTrim(CollapseNewlines(s));
  }

  /** Text with no three line breaks in a row is left alone by the collapse. */
  lemma CollapseNoTriple(s: string)
    requires NoTripleNewline(s)
    ensures CollapseNewlines(s) == s
  {
    forall i | 0 <= i <= |s|
      ensures MatchLen(NewlineRun, s[i..]).None?
    {
      if MatchLen(NewlineRun, s[i..]).Some? {
        var t := s[i..];
        assert InClass(t[0], Newline) && InClass(t[1], Newline) && InClass(t[2], Newline);
        assert TripleNewlineAt(s, i);
      }
    }
    FirstMatchPosLeftmost(NewlineRun, s);
    CollapseNewlinesReplacesLeftmost(s, 0);
  }

  /** Normalising twice is normalising once. */
  lemma NormalizeIdempotent(s: string)
    ensures Normalize(Normalize(s)) == Normalize(s)
  {
    NormalizeKeeps(s);
    CollapseNoTriple(Normalize(s));
    TrimIdempotent(CollapseNewlines(s));
  }

  lemma NoTripleTrim(s: string)
    requires NoTripleNewline(s)
    ensures NoTripleNewline(Trim(s))
  {
    var t := TrimStart(s);
    NoTripleSlice(s, |s| - |t|, |s|);
    assert s[|s| - |t|..|s|] == t;
    var r := TrimEnd(t);
    NoTripleSlice(t, 0, |r|);
    assert t[0..|r|] == r;
  }

  /**
    A block holding an img contributes no text: at most the one image line, and
    that only for a `pbs.twimg.com/media` source, rewritten to its large variant.
  */
  lemma ImageBlockFragments(blocks: seq<ElementNode>, i: nat)
    requires i < |blocks| && Query(blocks[i], ByTag("IMG")).Some?
    ensures var src := GetAttribute(Query(blocks[i], ByTag("IMG")).value, "src");
      Fragments(Classify(blocks, i)) ==
        if src.Some? && Contains(src.value, MediaHost) then ["\n![图片](" + LargeImageUrl(src.value) + ")\n"] else []
  {
  }

  /** A block without an img whose trimmed text is empty contributes nothing. */
  lemma EmptyBlockFragments(blocks: seq<ElementNode>, i: nat)
    requires i < |blocks| && Query(blocks[i], ByTag("IMG")).None? && Trim(InnerText(blocks[i])) == ""
    ensures Fragments(Classify(blocks, i)) == []
  {
  }

  /**
    A `### ` sub-heading is emitted only for a block that is not the first, whose
    trimmed text is short and passed the heading test, and whose predecessor holds an img.
  */
  lemma SubheadingConditions(blocks: seq<ElementNode>, i: nat)
    requires i < |blocks| && Classify(blocks, i).SubheadingBlock?
    ensures var text := Trim(InnerText(blocks[i]));
      && i > 0
      && Query(blocks[i - 1], ByTag("IMG")).Some?
      && Query(blocks[i], ByTag("IMG")).None?
      && 0 < |text| < 60
      && IsHeadingCandidate(blocks[i].className, text, i)
      && Fragments(Classify(blocks, i)) == ["\n### " + text + "\n"]
  {
  }

  /**
    A short one-line text block after the first (`Intro`, say) is a `### ` sub-heading
    exactly when the block before it holds an img, and a plain paragraph otherwise.
  */
  lemma ShortTextAfterImage(blocks: seq<ElementNode>, i: nat)
    requires 0 < i < |blocks| && !HasImage(blocks[i])
    requires var text := Trim(InnerText(blocks[i]));
      0 < |text| < 60 && '\n' !in text
    requires ToUpper(blocks[i].tag) !in {"BLOCKQUOTE", "UL", "OL"} && !Contains(blocks[i].className, "blockquote")
    ensures var text := Trim(InnerText(blocks[i]));
      Fragments(Classify(blocks, i)) ==
        if HasImage(blocks[i - 1]) then ["\n### " + text + "\n"] else ["\n" + text + "\n"]
  {
  }

  /** The first block is never a sub-heading. */
  lemma FirstBlockNotSubheading(blocks: seq<ElementNode>)
    requires |blocks| > 0
    ensures !Classify(blocks, 0).SubheadingBlock?
  {
    if Classify(blocks, 0).SubheadingBlock? {
      SubheadingConditions(blocks, 0);
    }
  }

  /** A quote yields one `> ` line per line of its text, and nothing else. */
  lemma QuoteLinesSplit(text: string)
    ensures Split(QuoteLines(text), '\n') == PrefixEach("> ", Split(text, '\n'))
  {
    var lines := Split(text, '\n');
    var quoted := PrefixEach("> ", lines);
    forall k | 0 <= k < |quoted|
      ensures '\n' !in quoted[k]
    {
      assert quoted[k] == "> " + lines[k];
      assert '\n' !in lines[k];
    }
    SplitJoin(quoted, '\n');
  }

  /** Lines that are `lines` item by item. */
  predicate LinesOf(lines: seq<string>, items: seq<Node>) {
    |lines| == |items| && forall k :: 0 <= k < |items| ==> lines[k] == ListItemLine(items[k])
  }

  /** A list block yields one `- ` line per list item, in item order. */
  lemma {:induction false} ListItemLinesEach(items: seq<Node>)
    ensures LinesOf(ListItemLines(items), items)
    decreases |items|
  {
    if items != [] {
      ListItemLinesEach(items[..|items| - 1]);
      LinesOfSnoc(ListItemLines(items[..|items| - 1]), items[..|items| - 1], items[|items| - 1]);
      assert items[..|items| - 1] + [items[|items| - 1]] == items;
    }
  }

  lemma LinesOfSnoc(lines: seq<string>, items: seq<Node>, item: Node)
    requires LinesOf(lines, items)
    ensures LinesOf(lines + [ListItemLine(item)], items + [item])
  {
  }

  /** One more entry appends its list. */
  lemma FlattenSnoc<T>(ps: seq<seq<T>>, i: nat)
    requires i < |ps|
    ensures Flatten(ps[..i + 1]) == Flatten(ps[..i]) + ps[i]
  {
    assert ps[..i + 1][..i] == ps[..i];
  }

  /** Flattening a concatenation flattens each half. */
  lemma {:induction false} FlattenAppend<T>(a: seq<seq<T>>, b: seq<seq<T>>)
    ensures Flatten(a + b) == Flatten(a) + Flatten(b)
    decreases |b|
  {
    if b == [] {
      assert a + b == a;
    } else {
      var b' := b[..|b| - 1];
      assert (a + b)[..|a + b| - 1] == a + b';
      assert (a + b)[|a + b| - 1] == b[|b| - 1];
      FlattenAppend(a, b');
    }
  }

  /**
    The walker keeps document order: for any block `j`, the fragments of the blocks
    before it come first, then those of the blocks from it on.
  */
  lemma ArticlePartsInOrder(blocks: seq<ElementNode>, j: nat)
    requires j <= |blocks|
    ensures var fs := BlockFragments(blocks);
      Flatten(fs) == Flatten(fs[..j]) + Flatten(fs[j..])
  {
    var fs := BlockFragments(blocks);
    assert fs == fs[..j] + fs[j..];
    FlattenAppend(fs[..j], fs[j..]);
  }
}
