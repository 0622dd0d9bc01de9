/**
  The record the extractor hands to the Markdown converter (the `tweetData` object
  built in content/content.js and read by lib/markdown-converter.js).
*/
module Records {
  import opened Wrappers

  /** A stat count as the converter receives it: text (what the extractor gives) or a number. */
  datatype StatValue = Str(s: string) | Num(n: int)

  /** The engagement counters; a missing key is `None`, never a zero. */
  datatype Stats = Stats(
    replies: Option<StatValue>,
    retweets: Option<StatValue>,
    likes: Option<StatValue>,
    views: Option<StatValue>)

  /** `{}`: no counter found. */
  const NoStats := Stats(None, None, None, None)

  /** `Object.keys(stats).length > 0` */
  predicate AnyStat(s: Stats) {
    s.replies.Some? || s.retweets.Some? || s.likes.Some? || s.views.Some?
  }

  /** The reduced record of a quoted tweet. */
  datatype QuotedTweet = QuotedTweet(username: string, displayName: string, content: string)

  /**
    One extracted tweet or article. `title` is `None` for a tweet (the key is absent);
    `videoThumbnail` and `quotedTweet` are `None` for `null`.
  */
  datatype TweetData = TweetData(
    url: string,
    username: string,
    displayName: string,
    title: Option<string>,
    content: string,
    timestamp: string,
    images: seq<string>,
    videoThumbnail: Option<string>,
    quotedTweet: Option<QuotedTweet>,
    stats: Stats,
    isArticle: bool)
}
