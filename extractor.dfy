/**
  `TweetExtractor` (content/content.js): reads the page of one tweet, or of one X
  Article, and builds the record the Markdown converter renders. The page is the
  abstract tree of module `Dom`; the page URL and the date formatter are given to
  the extractor when it is made.
*/
module Extractor {
  import opened Wrappers
  import opened JsString
  import opened Dom
  import opened Patterns
  import opened ImageUrls
  import opened TextWalk
  import opened ArticleWalker
  import opened Records

  // ---------------------------------------------------------------------------
  // Selectors

  const TweetArticle := TagWithTestId("ARTICLE", "tweet")   // article[data-testid="tweet"]
  const UserName := ByTestId("User-Name")
  const TweetText := ByTestId("tweetText")

  // ---------------------------------------------------------------------------
  // Display names

  /** A span text the extractor accepts as a display name: non-empty, not a handle, long enough. */
  predicate IsLabel(text: string, minLen: nat) {
    text != "" && !StartsWith(text, "@") && |text| >= minLen
  }

  /** The trimmed text of a span. */
  function SpanText(span: Node): string {
    Trim(TextContent(span))
  }

  /** The trimmed text of each span, in order. */
  function SpanTexts(spans: seq<Node>): (r: seq<string>)
    ensures |r| == |spans| && forall j :: 0 <= j < |spans| ==> r[j] == SpanText(spans[j])
  {
    seq(|spans|, j requires 0 <= j < |spans| => SpanText(spans[j]))
  }

  /** The index of the first text that is a label, if any. */
  function FirstLabelIndex(texts: seq<string>, minLen: nat): (r: Option<nat>)
    ensures r.Some? ==> r.value < |texts| && IsLabel(texts[r.value], minLen)
    ensures r.Some? ==> forall j :: 0 <= j < r.value ==> !IsLabel(texts[j], minLen)
    ensures r.None? ==> forall j :: 0 <= j < |texts| ==> !IsLabel(texts[j], minLen)
    decreases |texts|
  {
    if texts == [] then None
    else if IsLabel(texts[0], minLen) then Some(0)
    else
      var r := FirstLabelIndex(texts[1..], minLen);
      if r.None? then None else Some(r.value + 1)
  }

  /** `for (const span of spans) { … return text; }`: the trimmed text of the first span that is a label. */
  function FirstLabel(spans: seq<Node>, minLen: nat): (r: Option<string>)
    ensures r.Some? <==> exists j :: 0 <= j < |spans| && IsLabel(SpanText(spans[j]), minLen)
    ensures r.Some? ==> IsLabel(r.value, minLen)
    ensures r.Some? ==> exists k :: 0 <= k < |spans| && r.value == SpanText(spans[k]) &&
                          forall j :: 0 <= j < k ==> !IsLabel(SpanText(spans[j]), minLen)
  {
    var texts := SpanTexts(spans);
    match FirstLabelIndex(texts, minLen)
    case Some(k) => Some(texts[k])
    case None => None
  }

  /** The spans below `el`, in document order (`el.querySelectorAll('span')`). */
  function Spans(el: Node): seq<Node> {
    QueryAll(el, ByTag("SPAN"))
  }

  // ---------------------------------------------------------------------------
  // Stats

  /** The chars `/[^0-9KMkm.]/g` keeps. */
  predicate IsViewsChar(c: char) {
    IsDigit(c) || c in "KMkm."
  }

  /** `text.replace(/[^0-9KMkm.]/g, '')`: every other char is dropped. */
  function ViewsDigits(text: string): (r: string)
    ensures forall i :: 0 <= i < |r| ==> IsViewsChar(r[i])
    ensures |r| <= |text|
    decreases |text|
  {
    if text == [] then []
    else if IsViewsChar(text[0]) then [text[0]] + ViewsDigits(text[1..])
    else ViewsDigits(text[1..])
  }

  /** The views filter keeps every digit, suffix letter and dot, in order: on such text it is the identity. */
  lemma {:induction false} ViewsDigitsKeeps(text: string)
    requires forall i :: 0 <= i < |text| ==> IsViewsChar(text[i])
    ensures ViewsDigits(text) == text
    decreases |text|
  {
    if text != [] {
      ViewsDigitsKeeps(text[1..]);
    }
  }

  /** A single char is kept exactly when it is a digit, a suffix letter or a dot. */
  lemma ViewsDigitsChar(c: char)
    ensures ViewsDigits([c]) == if IsViewsChar(c) then [c] else []
  {
    assert [c][1..] == [];
  }

  /** The filter works char by char: the text of two parts is filtered part by part. */
  lemma {:induction false} ViewsDigitsAppend(a: string, b: string)
    ensures ViewsDigits(a + b) == ViewsDigits(a) + ViewsDigits(b)
    decreases |a|
  {
    if a == [] {
      assert a + b == b;
    } else {
      assert (a + b)[0] == a[0];
      assert (a + b)[1..] == a[1..] + b;
      ViewsDigitsAppend(a[1..], b);
    }
  }

  /** Filtering twice is filtering once. */
  lemma ViewsDigitsIdempotent(text: string)
    ensures ViewsDigits(ViewsDigits(text)) == ViewsDigits(text)
  {
    ViewsDigitsKeeps(ViewsDigits(text));
  }

  /**
    `r` is what `parseStatNumber` reads from `text`: the leftmost `[\d,.]+[KMkm]?`
    match, which is a stat token, or `"0"` when nothing matches.
  */
  predicate IsStatNumberOf(text: string, r: string) {
    && (FirstMatchPos(StatToken, text).None? ==> r == "0")
    && (FirstMatchPos(StatToken, text).Some? ==>
          var i := FirstMatchPos(StatToken, text).value;
          r == text[i..i + MatchLen(StatToken, text[i..]).value] && IsStatToken(r))
    && (r == "0" || (Contains(text, r) && IsStatToken(r)))
    && (r == "0" <== forall i :: 0 <= i <= |text| ==> MatchLen(StatToken, text[i..]).None?)
  }

  /** The first `[\d,.]+[KMkm]?` token of `text`, or `"0"` when there is none. */
  function StatNumberIn(text: string): (r: string)
    ensures IsStatNumberOf(text, r)
  {
    var m := FirstMatch(StatToken, text);
    if m.Some? then
      FirstStatToken(text);
      m.value
    else
      "0"
  }

  /**
    `parseStatNumber(buttonEl)`: the first `[\d,.]+[KMkm]?` token of the control's
    trimmed text, or `"0"` when there is none.
  */
  function ParseStatNumber(button: Node): (r: string)
    ensures IsStatNumberOf(Trim(TextContent(button)), r)
  {
    StatNumberIn(Trim(TextContent(button)))
  }

  /** A stat count as the extractor stores it. */
  function StatOf(button: Option<ElementNode>): (r: Option<StatValue>)
    ensures r.Some? <==> button.Some?
  {
    match button
    case Some(b) => Some(Str(ParseStatNumber(b)))
    case None => None
  }

  // ---------------------------------------------------------------------------
  // Tweet photos

  /** The photo imgs of a tweet: `article.querySelectorAll('[data-testid="tweetPhoto"] img')`. */
  function PhotoImages(article: Node): seq<Node> {
    QueryAllWithin(article, ByTestId("tweetPhoto"), ByTag("IMG"), false)
  }

  /** The rewritten source of every photo that has a non-empty `src`, in document order. */
  function PhotoSources(imgs: seq<Node>): (r: seq<string>)
    ensures |r| <= |imgs|
    decreases |imgs|
  {
    if imgs == [] then []
    else
      var rest := PhotoSources(imgs[..|imgs| - 1]);
      match GetAttribute(imgs[|imgs| - 1], "src")
      case Some(src) => if src != "" then rest + [JpgLarge(src)] else rest
      case None => rest
  }

  /** `xs` without repeats, each kept at its first occurrence. */
  function Dedup(xs: seq<string>): (r: seq<string>)
    ensures forall x :: x in r <==> x in xs
    decreases |xs|
  {
    if xs == [] then []
    else
      var d := Dedup(xs[..|xs| - 1]);
      assert xs == xs[..|xs| - 1] + [xs[|xs| - 1]];
      if xs[|xs| - 1] in d then d else d + [xs[|xs| - 1]]
  }

  /** No entry of `s` occurs twice. */
  predicate NoDuplicates(s: seq<string>) {
    forall i, j :: 0 <= i < j < |s| ==> s[i] != s[j]
  }

  /** The list of photos has no repeats. */
  lemma {:induction false} DedupNoDuplicates(xs: seq<string>)
    ensures NoDuplicates(Dedup(xs))
    decreases |xs|
  {
    if xs != [] {
      DedupNoDuplicates(xs[..|xs| - 1]);
    }
  }

  /** The index of the first occurrence of `x` in `xs`. */
  function FirstIndex(xs: seq<string>, x: string): (k: nat)
    requires x in xs
    ensures k < |xs| && xs[k] == x && forall j :: 0 <= j < k ==> xs[j] != x
    decreases |xs|
  {
    if xs[0] == x then 0 else 1 + FirstIndex(xs[1..], x)
  }

  lemma {:induction false} FirstIndexOfPrefix(xs: seq<string>, n: nat, x: string)
    requires n <= |xs| && x in xs[..n]
    ensures FirstIndex(xs, x) == FirstIndex(xs[..n], x)
    decreases |xs|
  {
    var k := FirstIndex(xs[..n], x);
    var m := FirstIndex(xs, x);
    assert xs[k] == x;
    assert forall j :: 0 <= j < k ==> xs[j] == xs[..n][j];
  }

  /** The photos keep the order in which each first appears on the page. */
  lemma {:induction false} DedupFirstOccurrenceOrder(xs: seq<string>)
    ensures forall i, j :: 0 <= i < j < |Dedup(xs)| ==>
              FirstIndex(xs, Dedup(xs)[i]) < FirstIndex(xs, Dedup(xs)[j])
    decreases |xs|
  {
    if xs != [] {
      var init := xs[..|xs| - 1];
      DedupFirstOccurrenceOrder(init);
      DedupOrderStep(xs);
    }
  }

  lemma DedupOrderStep(xs: seq<string>)
    requires xs != []
    requires var init := xs[..|xs| - 1];
      forall i, j :: 0 <= i < j < |Dedup(init)| ==> FirstIndex(init, Dedup(init)[i]) < FirstIndex(init, Dedup(init)[j])
    ensures forall i, j :: 0 <= i < j < |Dedup(xs)| ==> FirstIndex(xs, Dedup(xs)[i]) < FirstIndex(xs, Dedup(xs)[j])
  {
    var n := |xs| - 1;
    var init := xs[..n];
    var d := Dedup(init);
    assert xs[..n] == init;
    forall y | y in d
      ensures FirstIndex(xs, y) == FirstIndex(init, y) < n
    {
      FirstIndexOfPrefix(xs, n, y);
    }
    if xs[n] !in d {
      assert xs[n] !in init;
      assert FirstIndex(xs, xs[n]) == n;
    }
  }

  /** `img` has a non-empty `src` whose `jpg`/`large` rewrite is `url`. */
  predicate ListsPhoto(img: Node, url: string) {
    GetAttribute(img, "src").Some? && GetAttribute(img, "src").value != ""
    && url == JpgLarge(GetAttribute(img, "src").value)
  }

  /**
    The photo list holds exactly the rewritten sources of the imgs with a non-empty
    `src`: every such img contributes its URL, and every URL comes from such an img.
  */
  lemma {:induction false} PhotoSourcesMembers(imgs: seq<Node>)
    ensures forall url :: url in PhotoSources(imgs) <==> exists k :: 0 <= k < |imgs| && ListsPhoto(imgs[k], url)
    decreases |imgs|
  {
    if imgs != [] {
      var init, last := imgs[..|imgs| - 1], imgs[|imgs| - 1];
      PhotoSourcesMembers(init);
      assert forall k :: 0 <= k < |init| ==> init[k] == imgs[k];
      forall url | url in PhotoSources(imgs)
        ensures exists k :: 0 <= k < |imgs| && ListsPhoto(imgs[k], url)
      {
        if url in PhotoSources(init) {
          var k :| 0 <= k < |init| && ListsPhoto(init[k], url);
          assert ListsPhoto(imgs[k], url);
        } else {
          assert ListsPhoto(imgs[|imgs| - 1], url);
        }
      }
      forall url, k | 0 <= k < |imgs| && ListsPhoto(imgs[k], url)
        ensures url in PhotoSources(imgs)
      {
        if k < |init| {
          assert ListsPhoto(init[k], url);
        }
      }
    }
  }

  /** After removing repeats, a URL is kept exactly when some img with a non-empty `src` rewrites to it. */
  lemma CollectedPhotos(imgs: seq<Node>)
    ensures forall url :: url in Dedup(PhotoSources(imgs)) <==> exists k :: 0 <= k < |imgs| && ListsPhoto(imgs[k], url)
  {
    PhotoSourcesMembers(imgs);
  }

  /** Every photo URL in the list is in the `?format=jpg&name=large` form already. */
  lemma {:induction false} PhotoSourcesLarge(imgs: seq<Node>)
    ensures forall k :: 0 <= k < |PhotoSources(imgs)| ==> JpgLarge(PhotoSources(imgs)[k]) == PhotoSources(imgs)[k]
    decreases |imgs|
  {
    if imgs != [] {
      PhotoSourcesLarge(imgs[..|imgs| - 1]);
      match GetAttribute(imgs[|imgs| - 1], "src")
      case Some(src) => JpgLargeIdempotent(src);
      case None =>
    }
  }

  // ---------------------------------------------------------------------------
  // Body text and counters

  /** The line-broken text of the `tweetText` element below `scope`, or nothing. */
  function BodyText(scope: Node): string {
    match Query(scope, TweetText)
    case Some(el) => LineBreakText(ChildNodes(el))
    case None => ""
  }

  /** The views count: the filtered text of the analytics link, when it has text. */
  function ViewsOf(viewsEl: Option<ElementNode>): (r: Option<StatValue>)
    ensures r.Some? <==> viewsEl.Some? && TextContent(viewsEl.value) != ""
    ensures r.Some? ==> r.value == Str(ViewsDigits(TextContent(viewsEl.value)))
    ensures r.Some? ==> r.value.Str? && forall i :: 0 <= i < |r.value.s| ==> IsViewsChar(r.value.s[i])
  {
    if viewsEl.Some? && TextContent(viewsEl.value) != "" then Some(Str(ViewsDigits(TextContent(viewsEl.value))))
    else None
  }

  /** What `extractStats(article)` finds on the page for each counter. */
  predicate IsStatsOf(article: Node, stats: Stats) {
    && stats.replies == StatOf(Query(article, ByTestId("reply")))
    && stats.retweets == StatOf(Query(article, ByTestId("retweet")))
    && stats.likes == StatOf(Query(article, ByTestId("like")))
    && stats.views == ViewsOf(Query(article, LinkHrefContains("/analytics")))
  }

  // ---------------------------------------------------------------------------
  // The extractor

  class TweetExtractor {
    /** `window.location.href` when the extractor was made. */
    const currentUrl: string
    /** The page. */
    const document: Node
    /** `new Date(datetime).toLocaleString('zh-CN', …)`: locale and time zone belong to the host. */
    const localize: string -> string
    /** Set once an article has been found. */
    var isArticle: bool

    constructor (url: string, page: Node, localizeDate: string -> string)
      ensures currentUrl == url && document == page && localize == localizeDate && !isArticle
    {
      currentUrl := url;
      document := page;
      localize := localizeDate;
      isArticle := false;
    }

    /** `findMainTweetArticle()`: the first tweet article of the page, looked for on status pages only. */
    function FindMainTweetArticle(): (r: Option<ElementNode>)
      ensures r.Some? <==> Contains(currentUrl, "/status/") && QueryAll(document, TweetArticle) != []
      ensures r.Some? ==> r.value == QueryAll(document, TweetArticle)[0] && Matches(TweetArticle, r.value)
    {
      if Contains(currentUrl, "/status/") then Query(document, TweetArticle) else None
    }

    /** The `href` of the first `/…` link inside the `User-Name` element of `scope`. */
    function HandleHref(scope: Node): (r: Option<string>)
      ensures r.Some? ==> StartsWith(r.value, "/")
    {
      match Query(scope, UserName)
      case None => None
      case Some(userNameEl) =>
        match Query(userNameEl, LinkHrefPrefix("/"))
        case None => None
        case Some(handleEl) => Some(handleEl.attrs["href"])
    }

    /**
      `extractUsername(article)`: the handle in the page URL (`x.com/<handle>/status`),
      else the path of the profile link of the author block without its slash,
      else `"unknown"`.
    */
    function ExtractUsername(scope: Node): (r: string)
      ensures FirstGroup(XComStatus, currentUrl).Some? ==>
                var i := FirstMatchPos(XComStatus, currentUrl).value;
                && r == FirstGroup(XComStatus, currentUrl).value
                && StartsWith(currentUrl[i..], "x.com/" + r + "/status") && '/' !in r
                && forall j :: 0 <= j < i ==> MatchLen(XComStatus, currentUrl[j..]).None?
      ensures FirstGroup(XComStatus, currentUrl).None? && HandleHref(scope).Some? ==>
                "/" + r == HandleHref(scope).value
      ensures FirstGroup(XComStatus, currentUrl).None? && HandleHref(scope).None? ==> r == "unknown"
    {
      match FirstGroup(XComStatus, currentUrl)
      case Some(handle) =>
        HandleOccurs(XComStatus, currentUrl);
        handle
      case None =>
        match HandleHref(scope)
        case Some(href) =>
          var r := DeleteFirst(href, '/');
          assert href == "/" + href[1..];
          r
        case None => "unknown"
    }

    /**
      `extractDisplayName(article)`: the first span of the author block whose trimmed
      text is non-empty and not a handle, else the username.
    */
    function ExtractDisplayName(scope: Node): (r: string)
      ensures var el := Query(scope, UserName);
        if el.Some? && FirstLabel(Spans(el.value), 1).Some?
        then r == FirstLabel(Spans(el.value), 1).value && IsLabel(r, 1)
        else r == ExtractUsername(scope)
    {
      match Query(scope, UserName)
      case Some(userNameEl) =>
        (match FirstLabel(Spans(userNameEl), 1)
         case Some(text) => text
         case None => ExtractUsername(scope))
      case None => ExtractUsername(scope)
    }

    /** `extractContent(article)`: the text of the tweet body, or nothing without one. */
    method ExtractContent(article: Node) returns (content: string)
      ensures content == BodyText(article)
      ensures Query(article, TweetText).None? ==> content == ""
    {
      var tweetTextEl := Query(article, TweetText);
      if tweetTextEl.Some? {
        content := GetTextWithLineBreaks(tweetTextEl.value);
      } else {
        content := "";
      }
    }

    /**
      `extractTimestamp(article)`: the formatted `datetime` of the first time element,
      its text when it has no (or an empty) `datetime`, nothing without a time element.
    */
    function ExtractTimestamp(scope: Node): (r: string)
      ensures Query(scope, ByTag("TIME")).None? ==> r == ""
      ensures Query(scope, ByTag("TIME")).Some? ==>
                var timeEl := Query(scope, ByTag("TIME")).value;
                if "datetime" in timeEl.attrs && timeEl.attrs["datetime"] != ""
                then r == localize(timeEl.attrs["datetime"])
                else r == TextContent(timeEl)
    {
      match Query(scope, ByTag("TIME"))
      case None => ""
      case Some(timeEl) =>
        match GetAttribute(timeEl, "datetime")
        case Some(datetime) => if datetime != "" then localize(datetime) else TextContent(timeEl)
        case None => TextContent(timeEl)
    }

    /**
      `extractImages(article)`: the sources of the tweet's photos, rewritten to
      `?format=jpg&name=large`, each once, in the order they first appear.
    */
    method ExtractImages(article: Node) returns (images: seq<string>)
      ensures images == Dedup(PhotoSources(PhotoImages(article)))
      ensures forall url :: url in images <==>
        exists k :: 0 <= k < |PhotoImages(article)| && ListsPhoto(PhotoImages(article)[k], url)
    {
      images := [];
      var photoEls := PhotoImages(article);
      for k := 0 to |photoEls|
        invariant images == Dedup(PhotoSources(photoEls[..k]))
      {
        var img := photoEls[k];
        assert photoEls[..k + 1][..k] == photoEls[..k];
        var src := GetAttribute(img, "src");
        if src.Some? && src.value != "" {
          var large := FormatNameLarge(src.value, Some("jpg"));
          ghost var xs := PhotoSources(photoEls[..k + 1]);
          assert xs == PhotoSources(photoEls[..k]) + [large];
          assert xs[..|xs| - 1] == PhotoSources(photoEls[..k]);
          if large !in images {
            images := images + [large];
          }
        }
      }
      assert photoEls[..|photoEls|] == photoEls;
      CollectedPhotos(photoEls);
    }

    /** `extractVideoThumbnail(article)`: the video's poster, else its first image's `src`. */
    function ExtractVideoThumbnail(article: Node): (r: Option<string>)
      ensures Query(article, ByTestId("videoPlayer")).None? ==> r.None?
      ensures Query(article, ByTestId("videoPlayer")).Some? ==>
        var videoEl := Query(article, ByTestId("videoPlayer")).value;
        var video, thumb := Query(videoEl, ByTag("VIDEO")), Query(videoEl, ByTag("IMG"));
        if video.Some? && GetAttribute(video.value, "poster").Some? && GetAttribute(video.value, "poster").value != ""
        then r == GetAttribute(video.value, "poster")
        else if thumb.Some? then r == GetAttribute(thumb.value, "src")
        else r.None?
    {
      match Query(article, ByTestId("videoPlayer"))
      case None => None
      case Some(videoEl) =>
        var video := Query(videoEl, ByTag("VIDEO"));
        var poster := if video.Some? then GetAttribute(video.value, "poster") else None;
        if poster.Some? && poster.value != "" then poster
        else
          match Query(videoEl, ByTag("IMG"))
          case Some(thumbImg) => GetAttribute(thumbImg, "src")
          case None => None
    }

    /** `extractUsernameFromQuote(el)`: the handle in the first `/status/` link of the quote. */
    function ExtractUsernameFromQuote(el: Node): (r: string)
      ensures var link := Query(el, LinkHrefContains("/status/"));
        link.None? || FirstGroup(PathStatus, link.value.attrs["href"]).None? ==> r == "unknown"
      ensures var link := Query(el, LinkHrefContains("/status/"));
        link.Some? && FirstGroup(PathStatus, link.value.attrs["href"]).Some? ==>
          var href := link.value.attrs["href"];
          var i := FirstMatchPos(PathStatus, href).value;
          && r == FirstGroup(PathStatus, href).value
          && StartsWith(href[i..], "/" + r + "/status") && '/' !in r
          && forall j :: 0 <= j < i ==> MatchLen(PathStatus, href[j..]).None?
    {
      match Query(el, LinkHrefContains("/status/"))
      case None => "unknown"
      case Some(link) =>
        var href := link.attrs["href"];
        match FirstGroup(PathStatus, href)
        case Some(handle) => HandleOccurs(PathStatus, href); handle
        case None => "unknown"
    }

    /**
      `extractDisplayNameFromQuote(el)`: like the author's display name, but a label
      must be longer than one character, and the fallback is the quote's handle.
    */
    function ExtractDisplayNameFromQuote(el: Node): (r: string)
      ensures FirstLabel(Spans(el), 2).Some? ==> r == FirstLabel(Spans(el), 2).value && |r| >= 2 && !StartsWith(r, "@")
      ensures FirstLabel(Spans(el), 2).None? ==> r == ExtractUsernameFromQuote(el)
    {
      match FirstLabel(Spans(el), 2)
      case Some(text) => text
      case None => ExtractUsernameFromQuote(el)
    }

    /** `extractContentFromQuote(el)`: the quote's body text, or nothing. */
    method ExtractContentFromQuote(el: Node) returns (content: string)
      ensures content == BodyText(el)
      ensures Query(el, TweetText).None? ==> content == ""
    {
      var textEl := Query(el, TweetText);
      if textEl.Some? {
        content := GetTextWithLineBreaks(textEl.value);
      } else {
        content := "";
      }
    }

    /** What `extractQuotedTweet(article)` finds: the quote's record exactly when the page has a quote. */
    predicate IsQuoteOf(article: Node, quoted: Option<QuotedTweet>) {
      && (quoted.Some? <==> Query(article, ByTestId("quoteTweet")).Some?)
      && (quoted.Some? ==> var el := Query(article, ByTestId("quoteTweet")).value;
            && quoted.value.username == ExtractUsernameFromQuote(el)
            && quoted.value.displayName == ExtractDisplayNameFromQuote(el)
            && quoted.value.content == BodyText(el))
    }

    /** `extractQuotedTweet(article)`: the reduced record of the quoted tweet, if there is one. */
    method ExtractQuotedTweet(article: Node) returns (quoted: Option<QuotedTweet>)
      ensures IsQuoteOf(article, quoted)
      ensures quoted.Some? <==> Query(article, ByTestId("quoteTweet")).Some?
    {
      var quotedTweetEl := Query(article, ByTestId("quoteTweet"));
      if quotedTweetEl.None? {
        return None;
      }
      var el := quotedTweetEl.value;
      var content := ExtractContentFromQuote(el);
      quoted := Some(QuotedTweet(ExtractUsernameFromQuote(el), ExtractDisplayNameFromQuote(el), content));
    }

    /**
      `extractStats(article)`: a counter is present exactly when its control is on the
      page (for views: when the analytics link has text); a missing one is never zero.
    */
    method ExtractStats(article: Node) returns (stats: Stats)
      ensures IsStatsOf(article, stats)
    {
      stats := NoStats;

      var replyBtn := Query(article, ByTestId("reply"));
      if replyBtn.Some? {
        stats := stats.(replies := Some(Str(ParseStatNumber(replyBtn.value))));
      }

      var retweetBtn := Query(article, ByTestId("retweet"));
      if retweetBtn.Some? {
        stats := stats.(retweets := Some(Str(ParseStatNumber(retweetBtn.value))));
      }

      var likeBtn := Query(article, ByTestId("like"));
      if likeBtn.Some? {
        stats := stats.(likes := Some(Str(ParseStatNumber(likeBtn.value))));
      }

      var viewsEl := Query(article, LinkHrefContains("/analytics"));
      if viewsEl.Some? {
        var text := TextContent(viewsEl.value);
        if text != "" {
          stats := stats.(views := Some(Str(ViewsDigits(text))));
        }
      }
    }

    /** `extractArticleTitle()`: the trimmed title of the article, or nothing. */
    function ExtractArticleTitle(): (r: string)
      ensures Query(document, ByTestId("twitter-article-title")).None? ==> r == ""
      ensures Query(document, ByTestId("twitter-article-title")).Some? ==>
                r == Trim(InnerText(Query(document, ByTestId("twitter-article-title")).value))
      ensures r == [] || (!IsWhitespace(r[0]) && !IsWhitespace(r[|r| - 1]))
    {
      match Query(document, ByTestId("twitter-article-title"))
      case Some(titleEl) => Trim(InnerText(titleEl))
      case None => ""
    }

    /**
      `extractArticle(container)`: the article body from the walker, the author fields
      from the page's tweet article (or the whole page), no images, video or quote of
      its own, and the stats of the tweet article when there is one.
    */
    method ExtractArticle(container: Node) returns (data: TweetData)
      ensures data.isArticle && data.url == currentUrl
      ensures data.content == ArticleBody(Some(container))
      ensures data.title == Some(ExtractArticleTitle())
      ensures data.images == [] && data.videoThumbnail.None? && data.quotedTweet.None?
      ensures IsArticleAuthorOf(data)
    {
      var authorArticle := Query(document, TweetArticle);
      var content := ExtractArticleContentPreserveOrder(Some(container));
      var scope := AuthorScope();
      var stats := NoStats;
      if authorArticle.Some? {
        stats := ExtractStats(authorArticle.value);
      }
      data := TweetData(
        url := currentUrl,
        username := ExtractUsername(scope),
        displayName := ExtractDisplayName(scope),
        title := Some(ExtractArticleTitle()),
        content := content,
        timestamp := ExtractTimestamp(scope),
        images := [],
        videoThumbnail := None,
        quotedTweet := None,
        stats := stats,
        isArticle := true);
    }

    /** The page's tweet article, which holds the article's author, or else the whole page. */
    function AuthorScope(): Node {
      match Query(document, TweetArticle)
      case Some(authorArticle) => authorArticle
      case None => document
    }

    /**
      The author fields and stats of an article record: read from the page's tweet
      article (or the whole page), with stats only when there is a tweet article.
    */
    predicate IsArticleAuthorOf(data: TweetData) {
      var authorArticle := Query(document, TweetArticle);
      && data.username == ExtractUsername(AuthorScope())
      && data.displayName == ExtractDisplayName(AuthorScope())
      && data.timestamp == ExtractTimestamp(AuthorScope())
      && (authorArticle.Some? ==> IsStatsOf(authorArticle.value, data.stats))
      && (authorArticle.None? ==> data.stats == NoStats)
    }

    /** The long-form container of the page, if it has one. */
    function ArticleContainer(): (r: Option<ElementNode>)
      ensures r.Some? <==> Query(document, ByTestId("longformRichTextComponent")).Some?
                           || Query(document, ByTestId("twitterArticleRichTextView")).Some?
      ensures Query(document, ByTestId("longformRichTextComponent")).Some? ==>
                r == Query(document, ByTestId("longformRichTextComponent"))
    {
      var longformContent := Query(document, ByTestId("longformRichTextComponent"));
      if longformContent.Some? then longformContent
      else Query(document, ByTestId("twitterArticleRichTextView"))
    }

    /**
      `extract()`: article mode when the page has a long-form container, else tweet
      mode on the main tweet article, else `null`.
    */
    method Extract() returns (data: Option<TweetData>)
      modifies this
      ensures isArticle == (old(isArticle) || ArticleContainer().Some?)
      ensures data.None? <==> ArticleContainer().None? && FindMainTweetArticle().None?
      ensures data.Some? ==> data.value.isArticle == ArticleContainer().Some?
      ensures data.Some? && data.value.isArticle ==>
        && data.value.url == currentUrl
        && data.value.content == ArticleBody(ArticleContainer())
        && IsArticleAuthorOf(data.value)
        && data.value.title == Some(ExtractArticleTitle())
        && data.value.images == [] && data.value.videoThumbnail.None? && data.value.quotedTweet.None?
      ensures data.Some? && !data.value.isArticle ==>
        var article := FindMainTweetArticle().value;
        && data.value.title.None?
        && data.value.url == currentUrl
        && data.value.username == ExtractUsername(article)
        && data.value.displayName == ExtractDisplayName(article)
        && data.value.content == BodyText(article)
        && data.value.timestamp == ExtractTimestamp(article)
        && data.value.images == Dedup(PhotoSources(PhotoImages(article)))
        && data.value.videoThumbnail == ExtractVideoThumbnail(article)
        && IsQuoteOf(article, data.value.quotedTweet)
        && IsStatsOf(article, data.value.stats)
    {
      var longformContent := Query(document, ByTestId("longformRichTextComponent"));
      var richTextView := Query(document, ByTestId("twitterArticleRichTextView"));
      var container := if longformContent.Some? then longformContent else richTextView;

      if container.Some? {
        isArticle := true;
        var articleData := ExtractArticle(container.value);
        return Some(articleData);
      }

      var article := FindMainTweetArticle();
      if article.None? {
        return None;
      }
      var a := article.value;
      var content := ExtractContent(a);
      var images := ExtractImages(a);
      var quotedTweet := ExtractQuotedTweet(a);
      var stats := ExtractStats(a);
      var tweetData := TweetData(
        url := currentUrl,
        username := ExtractUsername(a),
        displayName := ExtractDisplayName(a),
        title := None,
        content := content,
        timestamp := ExtractTimestamp(a),
        images := images,
        videoThumbnail := ExtractVideoThumbnail(a),
        quotedTweet := quotedTweet,
        stats := stats,
        isArticle := false);
      return Some(tweetData);
    }
  }
}
