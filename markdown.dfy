/**
  `MarkdownConverter` (lib/markdown-converter.js): renders the extracted record as a
  Markdown document, line by line, plus its two helpers: `formatContent`, which
  bolds mentions and hashtags, and `formatNumber`, which abbreviates counts.
*/
module MarkdownConverter {
  import opened Wrappers
  import opened JsString
  import opened Patterns
  import opened Records

  // ---------------------------------------------------------------------------
  // formatNumber

  /** `t / 10` is the nearest tenth to `n / unit`, the upper one on a tie. */
  predicate IsNearestTenth(t: nat, n: nat, unit: nat)
    requires unit > 0
  {
    t * (2 * unit) <= 20 * n + unit < t * (2 * unit) + 2 * unit
  }

  /** `(n / unit).toFixed(1)` in tenths, on exact arithmetic. */
  function Tenths(n: nat, unit: nat): (t: nat)
    requires unit > 0
    ensures IsNearestTenth(t, n, unit)
  {
    var a, b := 20 * n + unit, 2 * unit;
    var t := a / b;
    assert a == t * b + a % b;
    t
  }

  /** A tenths count written with one decimal: `12` is `"1.2"`. */
  function DecimalString(t: nat): string {
    NatToString(t / 10) + "." + [DigitChar(t % 10)]
  }

  /** `s` looks like `digits.digit`, with no leading zero in front of other digits. */
  predicate IsDecimal(s: string) {
    && |s| >= 3 && s[|s| - 2] == '.' && AllDigits(s[..|s| - 2]) && IsDigit(s[|s| - 1])
    && (|s| > 3 ==> s[0] != '0')
  }

  /** The number of tenths a `digits.digit` string stands for. */
  function ReadDecimal(s: string): nat
    requires IsDecimal(s)
  {
    10 * ParseNat(s[..|s| - 2]) + DigitValue(s[|s| - 1])
  }

  /** Reading back the decimal string gives the tenths. */
  lemma DecimalRoundTrip(t: nat)
    ensures IsDecimal(DecimalString(t)) && ReadDecimal(DecimalString(t)) == t
  {
    var s := DecimalString(t);
    var w := NatToString(t / 10);
    assert s[..|s| - 2] == w;
    ParseNatToString(t / 10);
  }

  /** `s` ends in `suffix` after a one-decimal number that is `n / unit` to the nearest tenth. */
  predicate ShowsAbbreviated(s: string, n: nat, unit: nat, suffix: char)
    requires unit > 0
  {
    && |s| >= 1 && s[|s| - 1] == suffix
    && IsDecimal(s[..|s| - 1])
    && IsNearestTenth(ReadDecimal(s[..|s| - 1]), n, unit)
  }

  /**
    `formatNumber(num)`: a string is returned as it is; a count of a million or more
    is shown in millions with one decimal and `M`, one of a thousand or more in
    thousands with `K`, anything lower as its plain decimal digits.
  */
  function FormatNumber(v: StatValue): (r: string)
    ensures v.Str? ==> r == v.s
    ensures v.Num? && v.n >= 1000000 ==> ShowsAbbreviated(r, v.n, 1000000, 'M')
    ensures v.Num? && 1000 <= v.n < 1000000 ==> ShowsAbbreviated(r, v.n, 1000, 'K')
    ensures v.Num? && 0 <= v.n < 1000 ==> |r| >= 1 && AllDigits(r) && ParseNat(r) == v.n && (|r| > 1 ==> r[0] != '0')
    ensures v.Num? && v.n < 0 ==>
      |r| >= 2 && r[0] == '-' && AllDigits(r[1..]) && ParseNat(r[1..]) == -v.n && (|r| > 2 ==> r[1] != '0')
  {
    match v
    case Str(s) => s
    case Num(n) =>
      if n >= 1000000 then Abbreviate(n, 1000000, 'M')
      else if n >= 1000 then Abbreviate(n, 1000, 'K')
      else
        if n >= 0 then ParseNatToString(n); IntToString(n)
        else
          ParseNatToString(-n);
          assert IntToString(n)[1..] == NatToString(-n);
          IntToString(n)
  }

  function Abbreviate(n: nat, unit: nat, suffix: char): (r: string)
    requires unit > 0
    ensures ShowsAbbreviated(r, n, unit, suffix)
  {
    var t := Tenths(n, unit);
    DecimalRoundTrip(t);
    var r := DecimalString(t) + [suffix];
    assert r[..|r| - 1] == DecimalString(t);
    r
  }

  /** The examples of the converter's thresholds. */
  lemma FormatNumberExamples()
    ensures FormatNumber(Num(999)) == "999"
    ensures FormatNumber(Num(1000)) == "1.0K"
    ensures FormatNumber(Num(1200)) == "1.2K"
    ensures FormatNumber(Num(1500000)) == "1.5M"
  {
    assert NatToString(9) == "9";
    assert NatToString(99) == "99";
    assert NatToString(999) == "999";
    assert NatToString(1) == "1";
    assert Tenths(1000, 1000) == 10;
    assert Tenths(1200, 1000) == 12;
    assert Tenths(1500000, 1000000) == 15;
  }

  // ---------------------------------------------------------------------------
  // formatContent

  /** `s.replace(p, m => "**" + m + "**")` for every match of `p` (a global replace). */
  function BoldAll(p: Pattern, s: string): (r: string)
    ensures |r| >= |s|
    decreases |s|
  {
    match MatchLen(p, s)
    case Some(n) => Bold(s[..n]) + BoldAll(p, s[n..])
    case None => if s == [] then [] else [s[0]] + BoldAll(p, s[1..])
  }

  /** The char a mention or hashtag starts with. */
  function Lead(p: Pattern): char
    requires p.Mention? || p.Hashtag?
  {
    if p.Mention? then '@' else '#'
  }

  /**
    `formatContent(content)`: `@(\w+)` becomes `**@$1**`, then `#(\w+)` becomes
    `**#$1**`, everywhere in the text.
  */
  function FormatContent(content: string): (r: string)
    ensures |r| >= |content|
  {
    BoldAll(Hashtag, BoldAll(Mention, content))
  }

  /** A non-empty run of `\w` chars. */
  predicate IsWord(w: string) {
    |w| > 0 && forall i :: 0 <= i < |w| ==> IsWordChar(w[i])
  }

  lemma MatchStartsWithLead(p: Pattern, s: string)
    requires p.Mention? || p.Hashtag?
    requires MatchLen(p, s).Some?
    ensures s[0] == Lead(p)
  {
  }

  /** A match wrapped in bold markers, as the replacement `**@$1**` writes it. */
  function Bold(m: string): string {
    "**" + m + "**"
  }

  /** A char that does not start a mention (or hashtag) is copied as it is. */
  lemma BoldAllCopies(p: Pattern, c: char, rest: string)
    requires p.Mention? || p.Hashtag?
    requires c != Lead(p) || rest == [] || !IsWordChar(rest[0])
    ensures BoldAll(p, [c] + rest) == [c] + BoldAll(p, rest)
  {
    var s := [c] + rest;
    assert s[1..] == rest;
  }

  /** A word after the lead char matches in full. */
  lemma WordMatches(p: Pattern, w: string, rest: string)
    requires p.Mention? || p.Hashtag?
    requires IsWord(w) && (rest == [] || !IsWordChar(rest[0]))
    ensures MatchLen(p, [Lead(p)] + w + rest) == Some(1 + |w|)
  {
    var s := [Lead(p)] + w + rest;
    assert s[1..] == w + rest;
    assert s[..1] == [Lead(p)];
    RunAll(w, rest, Word);
  }

  /** Every `@word` (or `#word`) taken in full is wrapped in `**…**`. */
  lemma BoldAllWord(p: Pattern, w: string, rest: string)
    requires p.Mention? || p.Hashtag?
    requires IsWord(w) && (rest == [] || !IsWordChar(rest[0]))
    ensures BoldAll(p, [Lead(p)] + w + rest) == Bold([Lead(p)] + w) + BoldAll(p, rest)
  {
    var s := [Lead(p)] + w + rest;
    WordMatches(p, w, rest);
    assert s[..1 + |w|] == [Lead(p)] + w;
    assert s[1 + |w|..] == rest;
  }

  /** Text without the lead char is left alone. */
  lemma {:induction false} BoldAllNoLead(p: Pattern, s: string)
    requires p.Mention? || p.Hashtag?
    requires Lead(p) !in s
    ensures BoldAll(p, s) == s
    decreases |s|
  {
    if s != [] {
      BoldAllNoLead(p, s[1..]);
      BoldAllCopies(p, s[0], s[1..]);
      assert [s[0]] + s[1..] == s;
    }
  }

  /** Text with no `@` and no `#` is not changed by `formatContent`. */
  lemma FormatContentPlain(content: string)
    requires '@' !in content && '#' !in content
    ensures FormatContent(content) == content
  {
    BoldAllNoLead(Mention, content);
    BoldAllNoLead(Hashtag, content);
  }

  /** A word has neither `@` nor `#` in it. */
  lemma WordHasNoLead(w: string)
    requires IsWord(w)
    ensures '@' !in w && '#' !in w
  {
  }

  /**
    A mention, a gap, then a hashtag, after text with neither marker (the body
    `hello @bob #fun` is one): both come out bold and nothing else changes.
  */
  lemma FormatContentMentionThenHashtag(a: string, w: string, b: string, h: string)
    requires '@' !in a && '#' !in a && '@' !in b && '#' !in b
    requires IsWord(w) && IsWord(h) && b != [] && !IsWordChar(b[0])
    ensures FormatContent(a + "@" + w + b + "#" + h) == a + Bold("@" + w) + b + Bold("#" + h)
  {
    WordHasNoLead(w);
    var front := a + Bold("@" + w) + b;
    calc {
      FormatContent(a + "@" + w + b + "#" + h);
      { MentionPass(a, w, b, h); }
      BoldAll(Hashtag, front + "#" + h);
      { HashtagPass(front, h); }
      front + Bold("#" + h);
    }
  }

  /** The first pass: the mention is bolded, the rest is not touched. */
  lemma MentionPass(a: string, w: string, b: string, h: string)
    requires '@' !in a && '@' !in b && IsWord(w) && IsWord(h) && b != [] && !IsWordChar(b[0])
    ensures BoldAll(Mention, a + "@" + w + b + "#" + h) == a + Bold("@" + w) + b + "#" + h
  {
    var rest := b + "#" + h;
    WordHasNoLead(h);
    assert rest[0] == b[0];
    assert '@' !in rest;
    assert a + "@" + w + b + "#" + h == a + "@" + w + rest;
    BoldMentionBetween(a, w, rest);
    assert a + Bold("@" + w) + rest == a + Bold("@" + w) + b + "#" + h;
  }

  /** A mention between text without `@` is the only thing bolded. */
  lemma BoldMentionBetween(a: string, w: string, rest: string)
    requires '@' !in a && '@' !in rest && IsWord(w) && (rest == [] || !IsWordChar(rest[0]))
    ensures BoldAll(Mention, a + "@" + w + rest) == a + Bold("@" + w) + rest
  {
    var x := [Lead(Mention)] + w + rest;
    assert a + "@" + w + rest == a + x;
    BoldAllPrefix(Mention, a, x);
    BoldAllWord(Mention, w, rest);
    BoldAllNoLead(Mention, rest);
    assert a + (Bold("@" + w) + rest) == a + Bold("@" + w) + rest;
  }

  /** The second pass: a hashtag at the end is bolded. */
  lemma HashtagPass(front: string, h: string)
    requires '#' !in front && IsWord(h)
    ensures BoldAll(Hashtag, front + "#" + h) == front + Bold("#" + h)
  {
    calc {
      BoldAll(Hashtag, front + "#" + h);
      { assert front + "#" + h == front + ([Lead(Hashtag)] + h + []); }
      BoldAll(Hashtag, front + ([Lead(Hashtag)] + h + []));
      { BoldAllPrefix(Hashtag, front, [Lead(Hashtag)] + h + []); }
      front + BoldAll(Hashtag, [Lead(Hashtag)] + h + []);
      { BoldAllWord(Hashtag, h, []); }
      front + (Bold([Lead(Hashtag)] + h) + BoldAll(Hashtag, []));
      { assert BoldAll(Hashtag, []) == []; }
      front + (Bold([Lead(Hashtag)] + h) + []);
      { assert Bold([Lead(Hashtag)] + h) + [] == Bold("#" + h); }
      front + Bold("#" + h);
    }
  }

  /** The example body of a tweet. */
  lemma FormatContentExample()
    ensures FormatContent("hello @bob #fun") == "hello **@bob** **#fun**"
  {
    var a, w, b, h := "hello ", "bob", " ", "fun";
    ExamplePieces(a, w, b, h);
    FormatContentMentionThenHashtag(a, w, b, h);
  }

  lemma ExamplePieces(a: string, w: string, b: string, h: string)
    requires a == "hello " && w == "bob" && b == " " && h == "fun"
    ensures '@' !in a && '#' !in a && '@' !in b && '#' !in b
    ensures IsWord(w) && IsWord(h) && b != [] && !IsWordChar(b[0])
    ensures a + "@" + w + b + "#" + h == "hello @bob #fun"
    ensures a + Bold("@" + w) + b + Bold("#" + h) == "hello **@bob** **#fun**"
  {
  }

  /** A prefix without the lead char is copied in front of the rest. */
  lemma {:induction false} BoldAllPrefix(p: Pattern, a: string, b: string)
    requires p.Mention? || p.Hashtag?
    requires Lead(p) !in a
    ensures BoldAll(p, a + b) == a + BoldAll(p, b)
    decreases |a|
  {
    if a != [] {
      assert a == [a[0]] + a[1..];
      assert a[0] in a;
      assert a + b == [a[0]] + (a[1..] + b);
      BoldAllCopies(p, a[0], a[1..] + b);
      BoldAllPrefix(p, a[1..], b);
      assert [a[0]] + (a[1..] + BoldAll(p, b)) == a + BoldAll(p, b);
    } else {
      assert a + b == b;
    }
  }

  // ---------------------------------------------------------------------------
  // formatContent on any text: it works piece by piece

  /** Empty, or starting with a char outside `\w`: no mention or hashtag can run on into it. */
  predicate StartsWithBreak(b: string) {
    b == [] || !IsWordChar(b[0])
  }

  /** A run of class `k` stops where text starting outside `k` is appended. */
  lemma {:induction false} RunExtend(x: string, b: string, k: CharClass)
    requires b == [] || !InClass(b[0], k)
    ensures Run(x + b, k) == Run(x, k)
    decreases |x|
  {
    if x == [] {
      assert x + b == b;
    } else if InClass(x[0], k) {
      assert (x + b)[1..] == x[1..] + b;
      RunExtend(x[1..], b, k);
    }
  }

  /** Appending text that starts with a break does not change the match at the start. */
  lemma MatchLenExtend(p: Pattern, a: string, b: string)
    requires p.Mention? || p.Hashtag?
    requires a != [] && StartsWithBreak(b)
    ensures MatchLen(p, a + b) == MatchLen(p, a)
  {
    assert (a + b)[..1] == a[..1];
    assert (a + b)[1..] == a[1..] + b;
    RunExtend(a[1..], b, Word);
  }

  /** The global replace handles the text before a break and the text from it on separately. */
  lemma {:induction false} BoldAllSplit(p: Pattern, a: string, b: string)
    requires p.Mention? || p.Hashtag?
    requires StartsWithBreak(b)
    ensures BoldAll(p, a + b) == BoldAll(p, a) + BoldAll(p, b)
    decreases |a|
  {
    if a == [] {
      assert a + b == b;
    } else {
      MatchLenExtend(p, a, b);
      match MatchLen(p, a)
      case Some(n) =>
        assert (a + b)[n..] == a[n..] + b;
        BoldAllSplit(p, a[n..], b);
        BoldAllSplitMatch(p, a, b, n);
      case None =>
        assert (a + b)[1..] == a[1..] + b;
        BoldAllSplit(p, a[1..], b);
        BoldAllSplitCopy(p, a, b);
    }
  }

  /** `BoldAllSplit` when a match starts the text: the match is bolded in both. */
  lemma BoldAllSplitMatch(p: Pattern, a: string, b: string, n: nat)
    requires MatchLen(p, a) == Some(n) && MatchLen(p, a + b) == Some(n)
    requires (a + b)[n..] == a[n..] + b
    requires BoldAll(p, a[n..] + b) == BoldAll(p, a[n..]) + BoldAll(p, b)
    ensures BoldAll(p, a + b) == BoldAll(p, a) + BoldAll(p, b)
  {
    assert (a + b)[..n] == a[..n];
    calc {
      BoldAll(p, a + b);
      Bold(a[..n]) + BoldAll(p, a[n..] + b);
      Bold(a[..n]) + BoldAll(p, a[n..]) + BoldAll(p, b);
      BoldAll(p, a) + BoldAll(p, b);
    }
  }

  /** `BoldAllSplit` when no match starts the text: the first char is copied in both. */
  lemma BoldAllSplitCopy(p: Pattern, a: string, b: string)
    requires a != [] && MatchLen(p, a).None? && MatchLen(p, a + b).None?
    requires (a + b)[1..] == a[1..] + b
    requires BoldAll(p, a[1..] + b) == BoldAll(p, a[1..]) + BoldAll(p, b)
    ensures BoldAll(p, a + b) == BoldAll(p, a) + BoldAll(p, b)
  {
    calc {
      BoldAll(p, a + b);
      [a[0]] + BoldAll(p, a[1..] + b);
      [a[0]] + BoldAll(p, a[1..]) + BoldAll(p, b);
      BoldAll(p, a) + BoldAll(p, b);
    }
  }

  /** The replace keeps a leading break: it writes `*` or copies the char. */
  lemma BoldAllKeepsBreak(p: Pattern, b: string)
    requires p.Mention? || p.Hashtag?
    requires StartsWithBreak(b)
    ensures StartsWithBreak(BoldAll(p, b))
  {
    if MatchLen(p, b).Some? {
      assert BoldAll(p, b)[0] == '*';
    }
  }

  /** `formatContent` of text cut where a non-word char begins is the two pieces formatted on their own. */
  lemma FormatContentSplit(a: string, b: string)
    requires StartsWithBreak(b)
    ensures FormatContent(a + b) == FormatContent(a) + FormatContent(b)
  {
    BoldAllSplit(Mention, a, b);
    BoldAllKeepsBreak(Mention, b);
    BoldAllSplit(Hashtag, BoldAll(Mention, a), BoldAll(Mention, b));
  }

  /** A mention or a hashtag on its own is wrapped in `**`. */
  lemma FormatContentTag(lead: char, w: string)
    requires lead == '@' || lead == '#'
    requires IsWord(w)
    ensures FormatContent([lead] + w) == Bold([lead] + w)
  {
    WordHasNoLead(w);
    assert [lead] + w + [] == [lead] + w;
    if lead == '@' {
      MentionAlone(w);
    } else {
      HashtagAlone(w);
    }
  }

  lemma MentionAlone(w: string)
    requires IsWord(w) && '#' !in w
    ensures FormatContent("@" + w) == Bold("@" + w)
  {
    BoldAllWord(Mention, w, []);
    assert [Lead(Mention)] + w + [] == "@" + w;
    assert BoldAll(Mention, "@" + w) == Bold("@" + w);
    BoldAllNoLead(Hashtag, Bold("@" + w));
  }

  lemma HashtagAlone(w: string)
    requires IsWord(w) && '@' !in w
    ensures FormatContent("#" + w) == Bold("#" + w)
  {
    BoldAllNoLead(Mention, "#" + w);
    BoldAllWord(Hashtag, w, []);
    assert [Lead(Hashtag)] + w + [] == "#" + w;
  }

  /**
    One piece of any text: a char outside `\w` and the run of `\w` chars after it. It
    comes out bold exactly when it is `@` or `#` with a non-empty word; otherwise it
    is kept as it is.
  */
  lemma FormatContentChunk(c: char, w: string)
    requires !IsWordChar(c) && forall i :: 0 <= i < |w| ==> IsWordChar(w[i])
    ensures FormatContent([c] + w) == if (c == '@' || c == '#') && w != [] then Bold([c] + w) else [c] + w
  {
    assert '@' !in w && '#' !in w;
    if (c == '@' || c == '#') && w != [] {
      FormatContentTag(c, w);
    } else if c == '@' || c == '#' {
      assert [c] + w == [c];
      assert [c][1..] == [];
    } else {
      FormatContentPlain([c] + w);
    }
  }

  /**
    Every mention and every hashtag taken in full, wherever it stands, comes out
    wrapped in `**`, and the text on either side is formatted on its own.
  */
  lemma FormatContentBoldsTag(a: string, lead: char, w: string, b: string)
    requires lead == '@' || lead == '#'
    requires IsWord(w) && StartsWithBreak(b)
    ensures FormatContent(a + [lead] + w + b) == FormatContent(a) + Bold([lead] + w) + FormatContent(b)
  {
    FormatContentSplit(a + [lead] + w, b);
    assert a + [lead] + w == a + ([lead] + w);
    FormatContentSplit(a, [lead] + w);
    FormatContentTag(lead, w);
  }

  // ---------------------------------------------------------------------------
  // convert: the lines, section by section

  /** The heading: the article title and a byline, or the tweet's author line. */
  function HeaderLines(d: TweetData): seq<string> {
    if d.isArticle && d.title.Some? && d.title.value != "" then
      ["# " + d.title.value, "", "> 作者: **" + d.displayName + "** (@" + d.username + ")", ""]
    else
      ["# " + d.displayName + " (@" + d.username + ") 的推文", ""]
  }

  /** The publication time, when there is one. */
  function MetaLines(d: TweetData): seq<string> {
    if d.timestamp != "" then ["> 📅 发布时间: " + d.timestamp, ""] else []
  }

  const Rule: seq<string> := ["---", ""]

  /** The body: an article's as it is, a tweet's through `formatContent`. */
  function BodyLines(d: TweetData): seq<string> {
    if d.content != "" then [if d.isArticle then d.content else FormatContent(d.content), ""] else []
  }

  /** `![图片 k](url)` and a blank line for each image, k counting from 1. */
  function ImageEntries(images: seq<string>): (r: seq<string>)
    ensures |r| == 2 * |images|
    decreases |images|
  {
    if images == [] then []
    else
      var k := |images| - 1;
      ImageEntries(images[..k]) + ["![图片 " + NatToString(k + 1) + "](" + images[k] + ")", ""]
  }

  function ImageSection(images: seq<string>): seq<string> {
    if |images| > 0 then [""] + ImageEntries(images) else []
  }

  function VideoSection(videoThumbnail: Option<string>): seq<string> {
    if videoThumbnail.Some? && videoThumbnail.value != "" then
      ["", "> 🎬 视频推文", "> ![视频缩略图](" + videoThumbnail.value + ")", ""]
    else []
  }

  /** The quoted tweet's lines, each behind `> `, without `formatContent`. */
  function QuotedBodyLines(q: QuotedTweet): seq<string> {
    if q.content != "" then PrefixEach("> ", Split(q.content, '\n')) else []
  }

  function QuoteSection(quotedTweet: Option<QuotedTweet>): seq<string> {
    match quotedTweet
    case None => []
    case Some(q) =>
      ["", "> **引用推文:**", "> **" + q.displayName + "** (@" + q.username + ")"] + QuotedBodyLines(q) + [""]
  }

  /** One counter with its emoji, when it is present. */
  function StatItem(v: Option<StatValue>, tag: string): seq<string> {
    if v.Some? then [tag + FormatNumber(v.value)] else []
  }

  /** The present counters in the fixed order replies, retweets, likes, views. */
  function StatItems(s: Stats): seq<string> {
    StatItem(s.replies, "💬 ") + StatItem(s.retweets, "🔁 ") + StatItem(s.likes, "❤️ ") + StatItem(s.views, "👁️ ")
  }

  function StatsLines(d: TweetData): seq<string> {
    if AnyStat(d.stats) && |StatItems(d.stats)| > 0 then ["**互动数据:** " + Join(StatItems(d.stats), " | "), ""] else []
  }

  function LinkLines(d: TweetData): seq<string> {
    if d.url != "" then ["[🔗 查看原文](" + d.url + ")", ""] else []
  }

  /** Everything before the first rule. */
  function FrontLines(d: TweetData): seq<string> {
    HeaderLines(d) + MetaLines(d)
  }

  /** Everything between the two rules. */
  function MiddleLines(d: TweetData): seq<string> {
    BodyLines(d) + ImageSection(d.images) + VideoSection(d.videoThumbnail) + QuoteSection(d.quotedTweet)
  }

  /** Everything after the second rule. */
  function BackLines(d: TweetData): seq<string> {
    StatsLines(d) + LinkLines(d)
  }

  /** The lines `convert` pushes, in order. */
  function MarkdownLines(d: TweetData): seq<string> {
    HeaderLines(d) + MetaLines(d) + ["---"] + [""]
    + BodyLines(d) + ImageSection(d.images) + VideoSection(d.videoThumbnail) + QuoteSection(d.quotedTweet)
    + ["---"] + [""]
    + StatsLines(d) + LinkLines(d)
  }

  /** `convert(tweetData)`: the lines joined with line breaks. */
  method Convert(tweetData: TweetData) returns (markdown: string)
    ensures markdown == Join(MarkdownLines(tweetData), "\n")
  {
    var d := tweetData;
    var lines := PushHeader(d, []);
    assert [] + HeaderLines(d) == HeaderLines(d);
    lines := lines + ["---"];
    lines := lines + [""];
    lines := PushBody(d, lines);
    lines := PushImages(d.images, lines);
    lines := PushVideo(d.videoThumbnail, lines);
    lines := PushQuotedTweet(d.quotedTweet, lines);
    lines := lines + ["---"];
    lines := lines + [""];
    lines := PushStatsAndLink(d, lines);
    markdown := Join(lines, "\n");
  }

  /** The heading and the time line of `convert`. */
  method PushHeader(d: TweetData, lines0: seq<string>) returns (lines: seq<string>)
    ensures lines == lines0 + HeaderLines(d) + MetaLines(d)
  {
    lines := lines0;
    if d.isArticle && d.title.Some? && d.title.value != "" {
      lines := lines + ["# " + d.title.value];
      lines := lines + [""];
      lines := lines + ["> 作者: **" + d.displayName + "** (@" + d.username + ")"];
    } else {
      lines := lines + ["# " + d.displayName + " (@" + d.username + ") 的推文"];
    }
    lines := lines + [""];
    if d.timestamp != "" {
      lines := lines + ["> 📅 发布时间: " + d.timestamp];
      lines := lines + [""];
    }
  }

  /** The body section of `convert`. */
  method PushBody(d: TweetData, lines0: seq<string>) returns (lines: seq<string>)
    ensures lines == lines0 + BodyLines(d)
  {
    lines := lines0;
    if d.content != "" {
      if d.isArticle {
        lines := lines + [d.content];
      } else {
        lines := lines + [FormatContent(d.content)];
      }
      lines := lines + [""];
    }
  }

  /** The video section of `convert`. */
  method PushVideo(videoThumbnail: Option<string>, lines0: seq<string>) returns (lines: seq<string>)
    ensures lines == lines0 + VideoSection(videoThumbnail)
  {
    lines := lines0;
    if videoThumbnail.Some? && videoThumbnail.value != "" {
      lines := lines + [""];
      lines := lines + ["> 🎬 视频推文"];
      lines := lines + ["> ![视频缩略图](" + videoThumbnail.value + ")"];
      lines := lines + [""];
    }
  }

  /** The image section of `convert`. */
  method PushImages(images: seq<string>, lines0: seq<string>) returns (lines: seq<string>)
    ensures lines == lines0 + ImageSection(images)
  {
    lines := lines0;
    if |images| > 0 {
      lines := lines + [""];
      for index := 0 to |images|
        invariant lines == lines0 + [""] + ImageEntries(images[..index])
      {
        assert images[..index + 1][..index] == images[..index];
        lines := lines + ["![图片 " + NatToString(index + 1) + "](" + images[index] + ")"];
        lines := lines + [""];
      }
      assert images[..|images|] == images;
    }
  }

  /** The quoted-tweet section of `convert`. */
  method PushQuotedTweet(quotedTweet: Option<QuotedTweet>, lines0: seq<string>) returns (lines: seq<string>)
    ensures lines == lines0 + QuoteSection(quotedTweet)
  {
    lines := lines0;
    if quotedTweet.Some? {
      var q := quotedTweet.value;
      lines := lines + [""];
      lines := lines + ["> **引用推文:**"];
      lines := lines + ["> **" + q.displayName + "** (@" + q.username + ")"];
      if q.content != "" {
        var quotedLines := Split(q.content, '\n');
        lines := PushQuotedLines(quotedLines, lines);
      }
      lines := lines + [""];
    }
  }

  /** Each line of the quoted text behind `> `. */
  method PushQuotedLines(quotedLines: seq<string>, lines0: seq<string>) returns (lines: seq<string>)
    ensures lines == lines0 + PrefixEach("> ", quotedLines)
  {
    lines := lines0;
    for k := 0 to |quotedLines|
      invariant lines == lines0 + PrefixEach("> ", quotedLines[..k])
    {
      PrefixEachSnoc("> ", quotedLines, k);
      lines := lines + ["> " + quotedLines[k]];
    }
    assert quotedLines[..|quotedLines|] == quotedLines;
  }

  lemma PrefixEachSnoc(prefix: string, xs: seq<string>, k: nat)
    requires k < |xs|
    ensures PrefixEach(prefix, xs[..k + 1]) == PrefixEach(prefix, xs[..k]) + [prefix + xs[k]]
  {
    var a, b := PrefixEach(prefix, xs[..k + 1]), PrefixEach(prefix, xs[..k]) + [prefix + xs[k]];
    assert |a| == |b|;
    forall i | 0 <= i < |a| ensures a[i] == b[i] {}
  }

  /** The stats line and the link line of `convert`. */
  method PushStatsAndLink(d: TweetData, lines0: seq<string>) returns (lines: seq<string>)
    ensures lines == lines0 + StatsLines(d) + LinkLines(d)
  {
    lines := lines0;
    if AnyStat(d.stats) {
      var s := d.stats;
      var statsLine: seq<string> := [];
      if s.replies.Some? {
        statsLine := statsLine + ["💬 " + FormatNumber(s.replies.value)];
      }
      assert statsLine == StatItem(s.replies, "💬 ");
      if s.retweets.Some? {
        statsLine := statsLine + ["🔁 " + FormatNumber(s.retweets.value)];
      }
      assert statsLine == StatItem(s.replies, "💬 ") + StatItem(s.retweets, "🔁 ");
      if s.likes.Some? {
        statsLine := statsLine + ["❤️ " + FormatNumber(s.likes.value)];
      }
      assert statsLine == StatItem(s.replies, "💬 ") + StatItem(s.retweets, "🔁 ") + StatItem(s.likes, "❤️ ");
      if s.views.Some? {
        statsLine := statsLine + ["👁️ " + FormatNumber(s.views.value)];
      }
      assert statsLine == StatItems(s);
      if |statsLine| > 0 {
        lines := lines + ["**互动数据:** " + Join(statsLine, " | ")];
        lines := lines + [""];
      }
    }
    if d.url != "" {
      lines := lines + ["[🔗 查看原文](" + d.url + ")"];
      lines := lines + [""];
    }
  }

  // ---------------------------------------------------------------------------
  // What the document looks like

  /** The document is the front matter, a rule, the middle, a rule and the footer. */
  lemma Layout(d: TweetData)
    ensures MarkdownLines(d) == FrontLines(d) + Rule + MiddleLines(d) + Rule + BackLines(d)
  {
    Regroup(HeaderLines(d), MetaLines(d), BodyLines(d), ImageSection(d.images),
      VideoSection(d.videoThumbnail), QuoteSection(d.quotedTweet), StatsLines(d), LinkLines(d));
  }

  lemma Regroup(h: seq<string>, m: seq<string>, b: seq<string>, i: seq<string>,
                v: seq<string>, q: seq<string>, s: seq<string>, l: seq<string>)
    ensures h + m + ["---"] + [""] + b + i + v + q + ["---"] + [""] + s + l
         == (h + m) + Rule + (b + i + v + q) + Rule + (s + l)
  {
  }

  /** Where each part of a document `f + Rule + m + Rule + b` sits. */
  lemma Placement(f: seq<string>, m: seq<string>, b: seq<string>, lines: seq<string>)
    requires lines == f + Rule + m + Rule + b
    ensures |lines| == |f| + |m| + |b| + 4
    ensures forall i :: 0 <= i < |f| ==> lines[i] == f[i]
    ensures lines[|f|] == "---" && lines[|f| + 1] == ""
    ensures forall i :: 0 <= i < |m| ==> lines[|f| + 2 + i] == m[i]
    ensures lines[|f| + 2 + |m|] == "---" && lines[|f| + 3 + |m|] == ""
    ensures forall i :: 0 <= i < |b| ==> lines[|f| + 4 + |m| + i] == b[i]
  {
  }

  /**
    The first line is the article title when there is one (then the byline, two lines
    further down), and otherwise the author line of a tweet.
  */
  lemma Heading(d: TweetData)
    ensures |MarkdownLines(d)| >= 6
    ensures d.isArticle && d.title.Some? && d.title.value != "" ==>
      2 < |FrontLines(d)| &&
      MarkdownLines(d)[0] == "# " + d.title.value &&
      MarkdownLines(d)[2] == "> 作者: **" + d.displayName + "** (@" + d.username + ")"
    ensures !(d.isArticle && d.title.Some? && d.title.value != "") ==>
      MarkdownLines(d)[0] == "# " + d.displayName + " (@" + d.username + ") 的推文"
  {
    Layout(d);
    var h := HeaderLines(d);
    Placement(FrontLines(d), MiddleLines(d), BackLines(d), MarkdownLines(d));
    assert |FrontLines(d)| >= |h| >= 2;
    assert FrontLines(d)[0] == h[0];
    if |h| == 4 {
      assert FrontLines(d)[2] == h[2];
    }
  }

  /**
    The two rules: the first right after the front matter, the second right after the
    middle; the body, when there is one, comes first in the middle, bolded in a tweet
    and verbatim in an article.
  */
  lemma Rules(d: TweetData)
    ensures var lines, k := MarkdownLines(d), |FrontLines(d)|;
      k + 3 + |MiddleLines(d)| < |lines| &&
      lines[k] == "---" && lines[k + 1] == "" &&
      lines[k + 2 + |MiddleLines(d)|] == "---" && lines[k + 3 + |MiddleLines(d)|] == ""
    ensures d.content != "" ==>
      |FrontLines(d)| + 2 < |MarkdownLines(d)| &&
      MarkdownLines(d)[|FrontLines(d)| + 2] == (if d.isArticle then d.content else FormatContent(d.content))
  {
    Layout(d);
    Placement(FrontLines(d), MiddleLines(d), BackLines(d), MarkdownLines(d));
    if d.content != "" {
      assert MiddleLines(d)[0] == BodyLines(d)[0];
    }
  }

  /** Line `2k` of the image section names image `k + 1` and its URL; line `2k + 1` is blank. */
  lemma {:induction false} ImageLineAt(images: seq<string>, k: nat)
    requires k < |images|
    ensures ImageEntries(images)[2 * k] == "![图片 " + NatToString(k + 1) + "](" + images[k] + ")"
    ensures ImageEntries(images)[2 * k + 1] == ""
    decreases |images|
  {
    var n := |images| - 1;
    if k < n {
      ImageLineAt(images[..n], k);
      assert images[..n][k] == images[k];
    }
  }

  /** Removing the `> ` in front of each quoted line. */
  function Unquote(lines: seq<string>): (r: seq<string>)
    ensures |r| == |lines|
  {
    seq(|lines|, i requires 0 <= i < |lines| => if |lines[i]| >= 2 then lines[i][2..] else lines[i])
  }

  /**
    The quoted text is kept exactly: without the `> ` in front of each line, the
    quoted lines joined with line breaks are the quoted tweet's text, unbolded.
  */
  lemma QuotedContentRoundTrip(q: QuotedTweet)
    requires q.content != ""
    ensures Join(Unquote(QuotedBodyLines(q)), "\n") == q.content
  {
    var parts := Split(q.content, '\n');
    var lines := QuotedBodyLines(q);
    assert Unquote(lines) == parts by {
      forall i | 0 <= i < |parts| ensures Unquote(lines)[i] == parts[i] {
        assert lines[i] == "> " + parts[i];
        assert lines[i][2..] == parts[i];
      }
    }
    JoinSplit(q.content, '\n');
  }

  /** Joining one more piece adds the separator and the piece. */
  lemma {:induction false} JoinSnoc(parts: seq<string>, x: string, sep: string)
    requires |parts| >= 1
    ensures Join(parts + [x], sep) == Join(parts, sep) + sep + x
    decreases |parts|
  {
    if |parts| > 1 {
      assert (parts + [x])[1..] == parts[1..] + [x];
      JoinSnoc(parts[1..], x, sep);
    } else {
      assert (parts + [x])[1..] == [x];
    }
  }

  /** The document ends with a line break: the last line is always blank. */
  lemma EndsWithLineBreak(d: TweetData)
    ensures var md := Join(MarkdownLines(d), "\n"); |md| > 0 && md[|md| - 1] == '\n'
  {
    var lines := MarkdownLines(d);
    Heading(d);
    LastLineBlank(d);
    var n := |lines| - 1;
    assert lines == lines[..n] + [""];
    JoinSnoc(lines[..n], "", "\n");
  }

  lemma LastLineBlank(d: TweetData)
    ensures |MarkdownLines(d)| >= 1 && MarkdownLines(d)[|MarkdownLines(d)| - 1] == ""
  {
  }

  /** With a URL, the link to the original is the last non-blank line. */
  lemma LinkIsLast(d: TweetData)
    requires d.url != ""
    ensures var lines := MarkdownLines(d);
      |lines| >= 2 && lines[|lines| - 2] == "[🔗 查看原文](" + d.url + ")" && lines[|lines| - 1] == ""
  {
  }

  /** The stats line is there exactly when some counter is present. */
  lemma StatsLinePresence(d: TweetData)
    ensures |StatsLines(d)| > 0 <==> AnyStat(d.stats)
    ensures AnyStat(d.stats) ==> StatsLines(d)[0] == "**互动数据:** " + Join(StatItems(d.stats), " | ")
  {
  }

  /** The counters are listed one per present key, each through `formatNumber`. */
  lemma StatItemsCount(s: Stats)
    ensures |StatItems(s)| == Present(s.replies) + Present(s.retweets) + Present(s.likes) + Present(s.views)
    ensures s.replies.Some? ==> StatItems(s)[0] == "💬 " + FormatNumber(s.replies.value)
    ensures s.views.Some? ==> StatItems(s)[|StatItems(s)| - 1] == "👁️ " + FormatNumber(s.views.value)
  {
  }

  function Present<T>(v: Option<T>): nat {
    if v.Some? then 1 else 0
  }

  /**
    A plain tweet with text, a like count of 1200 and a URL, and nothing else,
    line by line.
  */
  lemma TweetScenario(d: TweetData)
    requires !d.isArticle && d.timestamp == "" && d.content != "" && d.images == []
    requires d.videoThumbnail.None? && d.quotedTweet.None? && d.url != ""
    requires d.stats == Stats(None, None, Some(Num(1200)), None)
    ensures MarkdownLines(d) ==
      ["# " + d.displayName + " (@" + d.username + ") 的推文", "",
       "---", "",
       FormatContent(d.content), "",
       "---", "",
       "**互动数据:** ❤️ 1.2K", "",
       "[🔗 查看原文](" + d.url + ")", ""]
  {
    Layout(d);
    TweetFront(d);
    TweetMiddle(d);
    TweetBack(d);
    Assemble("# " + d.displayName + " (@" + d.username + ") 的推文", FormatContent(d.content),
      "**互动数据:** ❤️ 1.2K", "[🔗 查看原文](" + d.url + ")");
  }

  lemma Assemble(head: string, body: string, stats: string, link: string)
    ensures [head, ""] + Rule + [body, ""] + Rule + [stats, "", link, ""]
         == [head, "", "---", "", body, "", "---", "", stats, "", link, ""]
  {
  }

  lemma TweetFront(d: TweetData)
    requires !d.isArticle && d.timestamp == ""
    ensures FrontLines(d) == ["# " + d.displayName + " (@" + d.username + ") 的推文", ""]
  {
  }

  lemma TweetMiddle(d: TweetData)
    requires !d.isArticle && d.content != "" && d.images == [] && d.videoThumbnail.None? && d.quotedTweet.None?
    ensures MiddleLines(d) == [FormatContent(d.content), ""]
  {
  }

  lemma TweetBack(d: TweetData)
    requires d.url != "" && d.stats == Stats(None, None, Some(Num(1200)), None)
    ensures BackLines(d) == ["**互动数据:** ❤️ 1.2K", "", "[🔗 查看原文](" + d.url + ")", ""]
  {
    LikesLine(d.stats);
  }

  lemma LikesLine(s: Stats)
    requires s == Stats(None, None, Some(Num(1200)), None)
    ensures |StatItems(s)| == 1
    ensures "**互动数据:** " + Join(StatItems(s), " | ") == "**互动数据:** ❤️ 1.2K"
  {
    FormatNumberExamples();
    assert StatItems(s) == ["❤️ " + "1.2K"];
  }

}
