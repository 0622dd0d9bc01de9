# xarticletomd extractor and Markdown converter, modelled in Dafny

xarticletomd is a browser extension that turns the X (Twitter) page you are
reading into Markdown. It handles a single tweet or an X Article (a long-form
post). This project models the two parts of it that do the real work and proves
properties of them:

- **`TweetExtractor`** (`content/content.js`) reads the page and builds a record:
  - the author's handle and display name, the body text and the publication time;
  - the photos, a video thumbnail, a quoted tweet and the engagement counters;
  - for an article, its title and a body rebuilt block by block with images in place.
- **`MarkdownConverter`** (`lib/markdown-converter.js`) renders that record as a
  Markdown document, one line at a time:
  - `formatContent` bolds `@mentions` and `#hashtags`;
  - `formatNumber` abbreviates counts with `K` and `M`.

## How the model is organised

| file | module | what it holds |
|---|---|---|
| `wrappers.dfy` | `Wrappers` | `Option`, which stands for JavaScript's `null`/`undefined` |
| `records.dfy` | `Records` | the record `extract()` returns (`TweetData`, `QuotedTweet`, `Stats`) |
| `jsstring.dfy` | `JsString` | the string methods the code uses: `trim`, `split`, `join`, `includes`, `startsWith`, `toUpperCase`, a one-char `replace`, number printing |
| `dom.dfy` | `Dom` | a read-only page tree, plus `getAttribute`, `children`, `childNodes`, `querySelector(All)` for the selectors the extractor uses, `textContent` and `innerText` |
| `patterns.dfy` | `Patterns` | the regular expressions of the source as greedy matchers, `match`/leftmost-match semantics and capture groups |
| `imageurl.dfy` | `ImageUrls` | the `&name=` / `?format=` URL rewrites, proved to be first-match replaces and idempotent |
| `textwalk.dfy` | `TextWalk` | `getTextWithLineBreaks`, a loop with recursion |
| `article.dfy` | `ArticleWalker` | `extractArticleContentPreserveOrder`: block classification, the fragment loop and the final line-break clean-up |
| `extractor.dfy` | `Extractor` | the `TweetExtractor` class and its `extract*` methods |
| `markdown.dfy` | `MarkdownConverter` | `convert` as a method that pushes lines, specified by `MarkdownLines`; `formatContent`; `formatNumber` |

Modelling choices:

- **The class.** `TweetExtractor` is a Dafny class.
  - `currentUrl` is a constant field, as in the source, where only the constructor sets it.
  - `isArticle` is a mutable field that only `Extract` sets.
  - The page (`document`) and the date formatter are constant fields given to the constructor.
- **Imperative code stays imperative.** Where the source builds its result step by
  step, the model is a method with a loop:
  - the `forEach`/`for` loops in `getTextWithLineBreaks`, `extractImages`, the article walker and `convert`;
  - each method is proved equal to a specification function, and the properties are proved about that function.
- **Regular expressions.** Each regex is a greedy matcher at a position (`MatchLen`).
  - `match` and a non-global `replace` use the leftmost match.
  - A global `replace` rewrites every match, left to right.

## Model

| member | source | states |
|---|---|---|
| Extractor.TweetExtractor.constructor | content/content.js:7-10 | the extractor keeps the page URL it was made with and starts outside article mode |
| Extractor.TweetExtractor.Extract | content/content.js:15-56 | article mode exactly when a long-form container exists (and then `isArticle` is set); otherwise `null` exactly when no main tweet article is found. In tweet mode every field comes from the main tweet article: handle, display name, body text, time, photo list, video thumbnail, quote record (`IsQuoteOf`) and stats (`IsStatsOf`), without a title. In article mode the record carries the page URL, the walker body, the page title, the author fields and stats of `IsArticleAuthorOf`, and no images, video or quote |
| Extractor.TweetExtractor.ArticleContainer | content/content.js:19-21 | a container exists exactly when the page has a `longformRichTextComponent` or a `twitterArticleRichTextView`, and the first kind wins |
| Extractor.TweetExtractor.ExtractArticle | content/content.js:61-83 | article record: the page URL, the walker body, the page title, no images, video or quote; the author fields and stats satisfy `IsArticleAuthorOf` |
| Extractor.TweetExtractor.AuthorScope | content/content.js:62-74 | (definition) the page's first tweet article, or the whole page without one: the `authorArticle \|\| document` argument |
| Extractor.TweetExtractor.IsArticleAuthorOf | content/content.js:62-78 | (definition) handle, display name and time are read from `AuthorScope`; the stats are `extractStats(authorArticle)` when there is a tweet article and empty otherwise |
| Extractor.TweetExtractor.ExtractArticleTitle | content/content.js:88-94 | with a title element, its trimmed `innerText`; without one, empty; never with outer whitespace |
| ArticleWalker.ExtractArticleContentPreserveOrder | content/content.js:100-172 | the loop's result equals `ArticleBody`: empty without a container, the container's text without a wrapper, otherwise the normalised concatenation of every block's fragments in block order |
| ArticleWalker.ArticleBody | content/content.js:100-172 | (definition) empty without a container, the container's `innerText` without a wrapper, else the normalised join of every block's fragments; `ArticleBodyNormalized` and `ArticlePartsInOrder` state what it promises |
| ArticleWalker.ClassifyBlock | content/content.js:115-135 | a block is an image block exactly when it holds an img; a sub-heading only after an image block and under 60 chars |
| ArticleWalker.ClassifyText | content/content.js:133-163 | an image-free block is empty exactly when its trimmed text is; quotes, sub-headings and paragraphs carry that text; a sub-heading only after an image block and under 60 chars |
| ArticleWalker.Fragments | content/content.js:117-163 | (definition) the Markdown of each kind of block; `ImageBlockFragments`, `EmptyBlockFragments`, `QuoteLinesSplit` and `ListItemLinesEach` state it per kind |
| ArticleWalker.PushBlock | content/content.js:115-164 | one loop turn appends exactly the fragments of block `i`'s classification |
| ArticleWalker.PushTextBlock | content/content.js:133-163 | an image-free block appends the fragments for its trimmed text: nothing, a quote, list lines, a sub-heading or a paragraph |
| ArticleWalker.PushHeadingOrParagraph | content/content.js:150-163 | the heading branch appends `### text` only when the block passes the heading test, follows an image block and is under 60 chars, and a plain paragraph otherwise |
| ArticleWalker.PushListItems | content/content.js:145-148 | one `- item` line per `li`, in order |
| ArticleWalker.ListItemLinesEach | content/content.js:145-148 | line `k` of a list is `- ` + the trimmed text of item `k` + a line break, one line per item |
| ArticleWalker.BlockFragments | content/content.js:115-164 | entry `i` is the fragments of block `i`, one entry per block |
| ArticleWalker.ArticlePartsInOrder | content/content.js:113-167 | the fragments of the blocks before `j` precede those of the blocks from `j` on: text and image order is kept |
| ArticleWalker.ArticleBodyNormalized | content/content.js:166-171 | the article body has no run of three line breaks and no outer whitespace |
| ArticleWalker.NormalizeKeeps | content/content.js:167-169 | collapsing `\n{3,}` and trimming leaves no triple line break and no outer whitespace |
| ArticleWalker.CollapseNewlinesKeeps | content/content.js:168 | the global `\n{3,}` → `\n\n` replace leaves no triple line break |
| ArticleWalker.CollapseNewlines | content/content.js:168 | (definition) never lengthens the text; `CollapseNewlinesReplacesLeftmost` pins its value on every input |
| ArticleWalker.Normalize | content/content.js:167-169 | (definition) the collapse, then `trim`; never lengthens the text; `NormalizeKeeps` and `NormalizeIdempotent` state what it promises |
| ArticleWalker.CollapseNewlinesReplacesLeftmost | content/content.js:168 | text where `\n{3,}` matches nowhere is kept; otherwise the text before the leftmost match is kept, that whole maximal run of three or more line breaks becomes exactly `\n\n`, and the rest is collapsed the same way |
| ArticleWalker.CollapseKeepsBefore | content/content.js:168 | the text before the leftmost `\n{3,}` match is copied unchanged, and text without a match is kept whole |
| ArticleWalker.CollapseNoTriple | content/content.js:168 | text with no three line breaks in a row is left alone by the replace |
| ArticleWalker.NormalizeIdempotent | content/content.js:167-169 | collapsing and trimming a second time changes nothing |
| ArticleWalker.ImageBlockFragments | content/content.js:120-131 | a block with an img yields one image line for a `pbs.twimg.com/media` source, rewritten to the large variant, and nothing otherwise |
| ArticleWalker.EmptyBlockFragments | content/content.js:133-135 | an image-free block with empty trimmed text yields nothing |
| ArticleWalker.SubheadingConditions | content/content.js:150-156 | a sub-heading is emitted only for a non-first block without img, with short text that passed the heading test, after a block with an img |
| ArticleWalker.ShortTextAfterImage | content/content.js:150-159 | a short one-line text block is a `###` sub-heading exactly when the previous block holds an img, and a paragraph otherwise |
| ArticleWalker.FirstBlockNotSubheading | content/content.js:150-155 | the first block is never a sub-heading |
| ArticleWalker.QuoteLinesSplit | content/content.js:138-142 | a quote block gives one `> ` line per line of its text |
| ImageUrls.LargeNameReplacesFirst | content/content.js:126 | `LargeName` rewrites exactly the leftmost `&name=\w+` to `&name=large` and leaves a URL without one unchanged |
| ImageUrls.LargeName | content/content.js:126 | (definition) the `&name=\w+` → `&name=large` replace; `LargeNameReplacesFirst` states it |
| ImageUrls.FormatNameLarge | content/content.js:127 | (definition) the `?format=(\w+)&name=\w+` replace; `FormatNameLargeReplacesFirst` states it |
| ImageUrls.LargeImageUrl | content/content.js:126-127 | (definition) the two article image rewrites in source order; `LargeImageUrlIdempotent` states it |
| ImageUrls.JpgLarge | content/content.js:299 | (definition) the tweet photo rewrite; `JpgLargeIdempotent` states it |
| ImageUrls.FormatNameLargeReplacesFirst | content/content.js:127 | the `?format=(\w+)&name=\w+` rewrite replaces exactly the leftmost match, keeping the captured format or forcing the given one |
| ImageUrls.LargeNameIdempotent | content/content.js:126 | asking twice for the large name changes nothing more |
| ImageUrls.FormatNameLargeIdempotent | content/content.js:127 | the format rewrite is idempotent |
| ImageUrls.LargeNameAfterFormat | content/content.js:126-127 | the format rewrite creates no new `&name=` match |
| ImageUrls.LargeImageUrlIdempotent | content/content.js:126-127 | the article image rewrite, applied to its own output, changes nothing |
| ImageUrls.JpgLargeIdempotent | content/content.js:299 | the tweet photo rewrite to `?format=jpg&name=large` is idempotent |
| Extractor.TweetExtractor.FindMainTweetArticle | content/content.js:177-185 | found exactly when the URL contains `/status/` and the page has an `article[data-testid="tweet"]`, and then it is the first of them in document order |
| Extractor.TweetExtractor.HandleHref | content/content.js:197-205 | the author profile link found is a `/`-prefixed href |
| Extractor.TweetExtractor.ExtractUsername | content/content.js:190-209 | with an `x.com/…/status` match in the URL, the group of the leftmost match: no earlier position matches, the URL spells `x.com/` + handle + `/status` there, and the handle has no slash; else the profile href without its leading slash; else `unknown` |
| Patterns.HandleOccurs | content/content.js:191-193 | the captured handle is spelled out between the literal and `/status` at the leftmost matching position, no earlier position matches, and it holds no slash |
| Patterns.FirstMatch | content/content.js:390-391 | `match(...)[0]` is found exactly when some position matches, and is then the text of the match at the leftmost matching position (`FirstMatchPos`), a non-empty substring |
| Patterns.FirstMatchPosLeftmost | content/content.js:390 | the first-match position has no match before it, and there is none only when nothing matches |
| Patterns.FirstGroup | content/content.js:191-193 | `match(...)[1]` exists exactly when the pattern matches, and is then the group of the match at the leftmost matching position: non-empty and made of the group's chars |
| Extractor.TweetExtractor.ExtractDisplayName | content/content.js:214-229 | with an author block holding a qualifying span, the text of the first such span (`FirstLabel`), non-empty and not a handle; else the username |
| Extractor.FirstLabel | content/content.js:220-226 | found exactly when some span's trimmed text qualifies, and then it is the first such span's text |
| Extractor.FirstLabelIndex | content/content.js:221-225 | the index of the first qualifying text, and none when no text qualifies |
| Extractor.TweetExtractor.ExtractContent | content/content.js:234-240 | the line-broken text of the `tweetText` element, empty without one |
| Extractor.BodyText | content/content.js:234-240 | (definition) the line-broken text of the first `tweetText` element below the scope, or nothing |
| TextWalk.GetTextWithLineBreaks | content/content.js:245-264 | the loop's text equals `LineBreakText` of the child nodes: text as is, `BR` as a line break, a link's text, an image's `alt`, anything else read recursively |
| TextWalk.ChildText | content/content.js:248-260 | (definition) what one child adds: text as is, `BR` a line break, a link its text, an image its `alt`, anything else its own walk |
| TextWalk.LineBreakText | content/content.js:247-262 | (definition) the children's contributions in order; `LineBreakTextAppend`, `BreakChild` and `PlainWalkIsTextContent` state it |
| TextWalk.PlainWalkIsTextContent | content/content.js:245-264 | on a subtree without `BR` and `IMG` the walk equals `textContent` |
| TextWalk.LineBreakTextAppend | content/content.js:247-262 | the text of consecutive children is the text of each, in child order |
| TextWalk.BreakChild | content/content.js:251-252 | a `BR` child puts exactly one line break at its place |
| Extractor.TweetExtractor.ExtractTimestamp | content/content.js:269-288 | the localised `datetime` of the first time element when it is non-empty, else its text, empty without a time element |
| Extractor.TweetExtractor.ExtractImages | content/content.js:293-306 | the loop's list equals the deduplicated, rewritten sources of the photo images with a non-empty `src`, in page order; a URL is in it exactly when some photo img has a non-empty `src` that rewrites to it |
| Extractor.Dedup | content/content.js:300-302 | the list without repeats holds exactly the same URLs |
| Extractor.DedupNoDuplicates | content/content.js:300-302 | the photo list has no repeats |
| Extractor.DedupFirstOccurrenceOrder | content/content.js:296-304 | the photos are listed in the order of their first appearance |
| Extractor.PhotoSourcesLarge | content/content.js:297-299 | every listed photo URL is already in its `jpg`/`large` form |
| Extractor.PhotoSources | content/content.js:296-299 | (definition) one rewritten URL per photo img with a non-empty `src`, in page order, so at most one per img; `PhotoSourcesMembers` states which URLs it holds |
| Extractor.PhotoSourcesMembers | content/content.js:296-299 | a URL is listed exactly when some photo img has a non-empty `src` whose `jpg`/`large` rewrite it is: every such img contributes, and nothing else does |
| Extractor.CollectedPhotos | content/content.js:296-303 | after repeats are dropped, a URL is kept exactly when some photo img has a non-empty `src` that rewrites to it |
| Extractor.TweetExtractor.ExtractVideoThumbnail | content/content.js:311-320 | none without a video player; inside it, the `poster` of the first `video` when that is non-empty, else the `src` of the first `img` (none when it has no `src`), else none |
| Extractor.TweetExtractor.ExtractQuotedTweet | content/content.js:325-334 | the result satisfies `IsQuoteOf`: present exactly when a `quoteTweet` element exists |
| Extractor.TweetExtractor.IsQuoteOf | content/content.js:325-334 | (definition) a quote record exactly when the page has a `quoteTweet` element, holding its handle, display name and body text as the three quote extractors read them |
| Extractor.TweetExtractor.ExtractUsernameFromQuote | content/content.js:336-343 | `unknown` without a `/status/` link or without a match in its href; otherwise the group of the leftmost `/…/status` match of the href: no earlier position matches, the href spells `/` + handle + `/status` there, and the handle has no slash |
| Extractor.TweetExtractor.ExtractDisplayNameFromQuote | content/content.js:345-354 | the text of the first span that qualifies with a two-char minimum (`FirstLabel`), at least two chars and not a handle; else the quote's handle |
| Extractor.TweetExtractor.ExtractContentFromQuote | content/content.js:356-362 | the quote's line-broken body text, empty without one |
| Extractor.TweetExtractor.ExtractStats | content/content.js:367-386 | each counter is present exactly when its control is on the page; views only when the analytics link has text |
| Extractor.StatOf | content/content.js:370-377 | a counter is present exactly when its button is |
| Extractor.ViewsOf | content/content.js:379-383 | views are present exactly when the link exists with non-empty text, and are then that text passed through `ViewsDigits`, which leaves only digits, `K`, `M`, `k`, `m` and dots |
| Extractor.ViewsDigits | content/content.js:382 | the filter leaves only digits, `KMkm` and dots, and never lengthens the text |
| Extractor.ViewsDigitsChar | content/content.js:382 | one char is kept exactly when it is a digit, `KMkm` or a dot |
| Extractor.ViewsDigitsAppend | content/content.js:382 | the filter works char by char: filtering `a + b` is filtering `a` and then `b`, so every kept char survives in order |
| Extractor.ViewsDigitsKeeps | content/content.js:382 | text made of kept chars passes the filter unchanged |
| Extractor.ViewsDigitsIdempotent | content/content.js:382 | filtering twice is filtering once |
| Extractor.ParseStatNumber | content/content.js:388-392 | with a `[\d,.]+[KMkm]?` match in the trimmed text, the text of the leftmost match, a stat token; without one, `0` |
| Extractor.StatNumberIn | content/content.js:390-391 | the leftmost `[\d,.]+[KMkm]?` match of any text, which is a stat token occurring in it; `0` when no position matches |
| Patterns.FirstStatToken | content/content.js:390 | the leftmost stat match is digits, commas and dots with at most one trailing `KMkm` |
| JsString.DeleteFirst | content/content.js:203 | `.replace('/', '')` removes exactly the first `/` (the one at `IndexOf`) and leaves a string without one alone |
| JsString.IndexOf | content/content.js:203 | the position of the first occurrence of the char: it is there, and not before |
| JsString.TrimIdempotent | content/content.js:169 | trimming twice is trimming once; `NormalizeIdempotent` relies on it |
| JsString.JoinSplit | lib/markdown-converter.js:72-75 | joining the pieces of a split with the separator gives back the string |
| Dom.Query | content/content.js:235 | `querySelector` is null exactly when nothing matches, and otherwise gives the first match in document order |
| Dom.WithinSubsetOfQueryAll | content/content.js:295 | the descendant-combinator query selects only images that the plain `img` query selects too |
| MarkdownConverter.Convert | lib/markdown-converter.js:11-112 | the document is `MarkdownLines` joined with line breaks |
| MarkdownConverter.PushHeader | lib/markdown-converter.js:14-30 | title and byline for an article with a title, else the tweet author line, then a blank line and the time lines |
| MarkdownConverter.PushBody | lib/markdown-converter.js:36-45 | the body line, verbatim for an article and bolded for a tweet, only for a non-empty body |
| MarkdownConverter.PushImages | lib/markdown-converter.js:47-54 | a blank line and two lines per image, only when there are images |
| MarkdownConverter.PushVideo | lib/markdown-converter.js:56-62 | the four video lines, only for a non-empty thumbnail |
| MarkdownConverter.PushQuotedTweet | lib/markdown-converter.js:64-78 | the quote heading, the author line, the quoted lines and a blank line, only with a quoted tweet |
| MarkdownConverter.PushQuotedLines | lib/markdown-converter.js:71-76 | each line of the quoted text behind `> `, in order |
| MarkdownConverter.PushStatsAndLink | lib/markdown-converter.js:84-109 | the stats line with the present counters in fixed order, then the link line for a non-empty URL |
| MarkdownConverter.Layout | lib/markdown-converter.js:11-112 | the document is the front matter, a rule, the middle sections, a rule and the footer |
| MarkdownConverter.Heading | lib/markdown-converter.js:14-24 | the first line is `# title` with the byline two lines below, inside the front matter, for an article with a title, else `# name (@handle) 的推文` |
| MarkdownConverter.Rules | lib/markdown-converter.js:32-45 | the two `---` lines sit right after the front matter and right after the middle; the body line opens the middle, bolded for a tweet and verbatim for an article |
| MarkdownConverter.ImageLineAt | lib/markdown-converter.js:50-53 | image line `2k` is `![图片 k+1](url_k)` and line `2k+1` is blank |
| MarkdownConverter.QuotedContentRoundTrip | lib/markdown-converter.js:71-76 | stripping `> ` from the quoted lines and joining them gives back the quoted text, without bolding |
| MarkdownConverter.EndsWithLineBreak | lib/markdown-converter.js:106-111 | the document always ends with a line break |
| MarkdownConverter.LastLineBlank | lib/markdown-converter.js:101-111 | the last pushed line is blank |
| MarkdownConverter.LinkIsLast | lib/markdown-converter.js:105-109 | with a URL the link line is the last non-blank line |
| MarkdownConverter.StatsLinePresence | lib/markdown-converter.js:85-103 | the stats line exists exactly when some counter is present, and joins the items with ` \| ` |
| MarkdownConverter.StatItemsCount | lib/markdown-converter.js:86-98 | one item per present counter, replies first and views last |
| MarkdownConverter.TweetScenario | lib/markdown-converter.js:11-112 | a plain tweet with a body, a like count of 1200 and a URL renders as exactly twelve lines, ending with `❤️ 1.2K` and the link |
| MarkdownConverter.ImageEntries | lib/markdown-converter.js:50-53 | two lines per image |
| MarkdownConverter.FormatContentPlain | lib/markdown-converter.js:120-130 | text without `@` and `#` is not changed |
| MarkdownConverter.FormatContent | lib/markdown-converter.js:120-130 | the mention pass and then the hashtag pass; the result is never shorter than the input |
| MarkdownConverter.BoldAll | lib/markdown-converter.js:124-127 | a global replace wrapping every match in `**`, left to right; the result is never shorter than the input |
| MarkdownConverter.BoldAllSplit | lib/markdown-converter.js:124-127 | for any text cut where a non-word char (or the end) begins, the global replace of the whole is that of each part, one after the other |
| MarkdownConverter.FormatContentSplit | lib/markdown-converter.js:120-130 | for any text cut where a non-word char begins, `formatContent` of the whole is that of each part, one after the other |
| MarkdownConverter.FormatContentTag | lib/markdown-converter.js:124-127 | a lone `@word` or `#word` comes out as `**@word**` or `**#word**` |
| MarkdownConverter.FormatContentChunk | lib/markdown-converter.js:120-130 | a non-word char and the word chars after it come out bold exactly when the char is `@` or `#` and the word is non-empty, and unchanged otherwise; with `FormatContentSplit` and `FormatContentPlain` this fixes the output for every input |
| MarkdownConverter.FormatContentBoldsTag | lib/markdown-converter.js:120-130 | every mention and hashtag taken in full, wherever it stands, is wrapped in `**`, and the text on each side is formatted on its own |
| MarkdownConverter.FormatContentMentionThenHashtag | lib/markdown-converter.js:120-130 | a mention and then a hashtag are each wrapped in `**`, and the text around them is kept |
| MarkdownConverter.FormatContentExample | lib/markdown-converter.js:120-130 | `hello @bob #fun` becomes `hello **@bob** **#fun**` |
| MarkdownConverter.BoldAllWord | lib/markdown-converter.js:124 | a whole `@word` is wrapped in `**` and the rest is processed after it |
| MarkdownConverter.BoldAllCopies | lib/markdown-converter.js:124 | a char that does not start a match is copied |
| MarkdownConverter.BoldAllNoLead | lib/markdown-converter.js:124-127 | text without the marker char is left alone |
| MarkdownConverter.BoldAllPrefix | lib/markdown-converter.js:124-127 | a marker-free prefix is copied in front of the processed rest |
| MarkdownConverter.FormatNumber | lib/markdown-converter.js:135-146 | a string passes through; a count of at least a million reads back as the nearest tenth of millions with `M`; one of at least a thousand as the nearest tenth of thousands with `K`; a smaller count as its decimal digits without a leading zero, with a minus sign when negative |
| MarkdownConverter.Tenths | lib/markdown-converter.js:140-143 | the nearest tenth of the quotient, the upper one on a tie |
| MarkdownConverter.Abbreviate | lib/markdown-converter.js:140-143 | `digits.digit` plus the suffix, reading back as the nearest tenth |
| MarkdownConverter.DecimalRoundTrip | lib/markdown-converter.js:140-143 | the one-decimal string has no leading zero before other digits, and reading it back gives the tenths |
| MarkdownConverter.FormatNumberExamples | lib/markdown-converter.js:135-146 | 999 → `999`, 1000 → `1.0K`, 1200 → `1.2K`, 1500000 → `1.5M` |

## Left out

- The popup (`popup/popup.js`), the service worker (`background/service-worker.js`), the `chrome.runtime.onMessage` listener (content/content.js:396-417) and all `console` output: they are I/O around the core.
- Extractor.TweetExtractor.ExtractTimestamp: `new Date(datetime).toLocaleString('zh-CN', …)` depends on the host's locale data and time zone, so the formatter is a parameter (`localize`) given to the constructor.
- MarkdownConverter.FormatNumber: rounds the exact quotient to the nearest tenth, ties upward. `toFixed(1)` works on a binary double, so on an exact tie the two may differ. Counts are whole numbers here; a fractional JavaScript number is not modelled.
- Dom.InnerText: `innerText` depends on CSS layout. The model reads it as `textContent` with each `BR` as a line break.
- Extractor.PhotoImages: the descendant combinator in `[data-testid="tweetPhoto"] img` is evaluated inside the tweet article only. A `tweetPhoto` ancestor above the article is not considered.
- Extractor.TweetExtractor.ExtractUsername: the `article ? … : document` and `article.querySelector ?` guards never see a null argument from `extract`. The model therefore takes the search scope directly: the tweet article or the whole page. The same holds for `ExtractDisplayName` and `ExtractTimestamp`.
- TextWalk.GetTextWithLineBreaks: the source compares `node.tagName` with upper-case names. An HTML page reports tag names in upper case. The model stores tags as written and upper-cases them each time it compares one, so a lower-case tag in the model stands for what the page reports in upper case. Comment and other non-text, non-element nodes are not modelled.
- ArticleWalker.ClassifyText: the 80- and 60-character limits count chars, where JavaScript counts UTF-16 code units. So does the two-character minimum of `ExtractDisplayNameFromQuote`.
- `block.className || ''`: the model's elements always have a string class name. SVG elements, whose `className` is an object, are not modelled.
- Records.Stats: the stats object has exactly the four counters. The converter's `Object.keys(stats).length > 0` test is modelled as "some counter is present", which is what `extractStats` can produce.
- Regular expressions: only the patterns the core uses are modelled, each as a greedy matcher. No general regex engine is modelled.
