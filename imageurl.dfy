/**
  The image URL rewrites of `TweetExtractor` (content/content.js). They are
  first-match `String.prototype.replace` calls on the `name` and `format` query
  parameters of a media URL:
    - the article walker asks for the `large` size and keeps the format;
    - the tweet image list asks for the `large` size and forces `jpg`.
*/
module ImageUrls {
  import opened Wrappers
  import opened JsString
  import opened Patterns

  /** A non-empty string of `\w` chars: what `(\w+)` can capture. */
  predicate IsWord(w: string) {
    |w| > 0 && forall i :: 0 <= i < |w| ==> IsWordChar(w[i])
  }

  /** `s.replace(/&name=\w+/, '&name=large')`: the first `&name=` value becomes `large`. */
  function LargeName(s: string): string
    decreases |s|
  {
    match MatchLen(NameParam, s)
    case Some(n) => "&name=large" + s[n..]
    case None => if s == [] then [] else [s[0]] + LargeName(s[1..])
  }

  /**
    The replacement text for a `?format=(\w+)&name=\w+` match at the start of `t`:
    `?format=F&name=large`, where F is `format` when one is given and otherwise the
    format the URL already had (`$1`).
  */
  function FormatNameReplacement(t: string, format: Option<string>): string
    requires format.Some? ==> IsWord(format.value)
    requires MatchLen(FormatNameParam, t).Some?
  {
    "?format=" + (if format.Some? then format.value else Group(FormatNameParam, t)) + "&name=large"
  }

  /** `s.replace(/\?format=(\w+)&name=\w+/, …)` with the replacement above. */
  function FormatNameLarge(s: string, format: Option<string>): string
    requires format.Some? ==> IsWord(format.value)
    decreases |s|
  {
    match MatchLen(FormatNameParam, s)
    case Some(n) => FormatNameReplacement(s, format) + s[n..]
    case None => if s == [] then [] else [s[0]] + FormatNameLarge(s[1..], format)
  }

  /** The high-resolution variant of an article image: both rewrites, in source order. */
  function LargeImageUrl(src: string): string {
    FormatNameLarge(LargeName(src), None)
  }

  /** The tweet photo rewrite: `large` size, `jpg` format. */
  function JpgLarge(src: string): string {
    FormatNameLarge(src, Some("jpg"))
  }

  // ---------------------------------------------------------------------------
  // Sequence facts, stated over plain variables so that using them stays cheap

  lemma ConsSplice(c: char, t: string, i: nat, l: string, j: nat)
    requires i <= j <= |t|
    ensures [c] + (t[..i] + l + t[j..]) == ([c] + t)[..i + 1] + l + ([c] + t)[j + 1..]
  {
    assert ([c] + t)[..i + 1] == [c] + t[..i];
    assert ([c] + t)[j + 1..] == t[j..];
  }

  lemma ConsTail(c: char, a: string, b: string)
    requires [c] + a == b
    ensures b != [] && b[0] == c && b[1..] == a
  {
    assert b[1..] == ([c] + a)[1..];
  }

  lemma AppendCons(p: string, c: char, x: string)
    ensures p + ([c] + x) == (p + [c]) + x
  {
  }

  lemma ConsAppend(a: string, l: string)
    requires a != []
    ensures [a[0]] + (a[1..] + l) == a + l
  {
    assert a == [a[0]] + a[1..];
  }

  lemma ConsPrefix(c: char, v: string, w: string, k: nat)
    requires |v| >= k && |w| >= k && v[..k] == w[..k]
    ensures ([c] + v)[..k + 1] == ([c] + w)[..k + 1]
  {
    assert ([c] + v)[..k + 1] == [c] + v[..k];
    assert ([c] + w)[..k + 1] == [c] + w[..k];
  }

  lemma TailWithout(a: string, c: char)
    requires a != [] && c !in a
    ensures a[0] != c && c !in a[1..]
  {
    assert a[0] in a;
    assert forall i :: 0 <= i < |a[1..]| ==> a[1..][i] == a[i + 1];
  }

  // ---------------------------------------------------------------------------
  // Where the two patterns can match

  /** `&name=\w+` matches at the start of `x` exactly when `x` starts with `&name=` and a word char. */
  lemma NameParamAt(x: string)
    ensures MatchLen(NameParam, x).Some? <==> |x| >= 7 && StartsWith(x, "&name=") && IsWordChar(x[6])
  {
    if |x| >= 7 {
      assert x[6..][0] == x[6];
    }
  }

  /** Whether `&name=\w+` matches at the start is decided by the first seven chars. */
  lemma NameParamPrefix(u: string, s: string)
    requires |u| >= 7 && |s| >= 7 && u[..7] == s[..7]
    ensures MatchLen(NameParam, u).None? <==> MatchLen(NameParam, s).None?
  {
    assert u[..6] == u[..7][..6] == s[..7][..6] == s[..6];
    assert u[6] == u[..7][6] == s[..7][6] == s[6];
    NameParamAt(u);
    NameParamAt(s);
  }

  /** A match of `&name=\w+` starts with `&`. */
  lemma NameParamStart(x: string)
    ensures MatchLen(NameParam, x).Some? ==> x[0] == '&'
  {
    if MatchLen(NameParam, x).Some? {
      assert x[..6] == "&name=";
    }
  }

  /** A match of `&name=\w+` takes the whole word run. */
  lemma NameParamEnd(x: string)
    requires MatchLen(NameParam, x).Some?
    ensures var n := MatchLen(NameParam, x).value; n == |x| || !IsWordChar(x[n])
  {
    var n := MatchLen(NameParam, x).value;
    if n < |x| {
      assert x[6..][n - 6] == x[n];
    }
  }

  /** A match of `?format=\w+&name=\w+` starts with `?` and is at least 16 chars long. */
  lemma FormatNameParamStart(x: string)
    ensures MatchLen(FormatNameParam, x).Some? ==> |x| >= 16 && x[0] == '?'
  {
    if MatchLen(FormatNameParam, x).Some? {
      assert x[..8] == "?format=";
    }
  }

  /** A match of `?format=\w+&name=\w+` takes the whole second word run. */
  lemma FormatNameParamEnd(x: string)
    requires MatchLen(FormatNameParam, x).Some?
    ensures var n := MatchLen(FormatNameParam, x).value; n == |x| || !IsWordChar(x[n])
  {
    var e := RunBetween(x, "?format=", Word, "&name=").value;
    var n := MatchLen(FormatNameParam, x).value;
    assert n == e + Run(x[e..], Word);
    if n < |x| {
      assert x[e..][n - e] == x[n];
    }
  }

  /** `&name=large` followed by a non-word char (or nothing) is a match of `&name=\w+` of length 11. */
  lemma LargeNameMatches(rest: string)
    requires rest == [] || !IsWordChar(rest[0])
    ensures MatchLen(NameParam, "&name=large" + rest) == Some(11)
  {
    var u := "&name=large" + rest;
    assert u[..6] == "&name=";
    assert u[6..] == "large" + rest;
    RunAll("large", rest, Word);
  }

  /** The match of `?format=(\w+)&name=\w+` at the start of `u`, read off its parts. */
  lemma FormatNameParamValue(u: string, r: nat, r2: nat)
    requires StartsWith(u, "?format=")
    requires 0 < r == Run(u[8..], Word)
    requires StartsWith(u[8 + r..], "&name=")
    requires 0 < r2 == Run(u[8 + r + 6..], Word)
    ensures MatchLen(FormatNameParam, u) == Some(8 + r + 6 + r2)
    ensures Group(FormatNameParam, u) == u[8..8 + r]
  {
    assert LiteralThenRun(u, "?format=", Word) == Some(8 + r);
    assert RunBetween(u, "?format=", Word, "&name=") == Some(8 + r + 6);
  }

  /**
    `?format=F&name=large` followed by a non-word char (or nothing) is a match of
    `?format=(\w+)&name=\w+` that takes all of it and captures F.
  */
  lemma FormatNameLargeMatches(f: string, rest: string)
    requires IsWord(f)
    requires rest == [] || !IsWordChar(rest[0])
    ensures var u := "?format=" + f + "&name=large" + rest;
      MatchLen(FormatNameParam, u) == Some(|f| + 19) && Group(FormatNameParam, u) == f
  {
    var v := "&name=large" + rest;
    var u := "?format=" + f + v;
    assert "?format=" + f + "&name=large" + rest == u;
    FormatNameLargeMatchesParts(f, v, u);
    RunAll(f, v, Word);
    LargeNameMatchesParts(rest, v);
    RunAll("large", rest, Word);
    FormatNameParamValue(u, |f|, 5);
  }

  lemma FormatNameLargeMatchesParts(f: string, v: string, u: string)
    requires u == "?format=" + f + v
    ensures StartsWith(u, "?format=") && u[8..] == f + v && u[8 + |f|..] == v && u[8..8 + |f|] == f
  {
  }

  lemma LargeNameMatchesParts(rest: string, v: string)
    requires v == "&name=large" + rest
    ensures StartsWith(v, "&name=") && v[6..] == "large" + rest
  {
  }

  /** Whether `p + c` starts with `lit` is decided within `p` and the first char of `c`. */
  lemma StartsWithLocal(p: string, c: string, d: string, lit: string)
    requires c != [] && d != [] && c[0] == d[0]
    requires |p| < |lit| ==> lit[|p|] != c[0]
    ensures StartsWith(p + c, lit) <==> StartsWith(p + d, lit)
    ensures StartsWith(p + c, lit) ==> |lit| <= |p|
  {
    if |lit| <= |p| {
      assert (p + c)[..|lit|] == p[..|lit|] == (p + d)[..|lit|];
    } else {
      assert (p + c)[|p|] == c[0];
      assert (p + d)[|p|] == d[0];
    }
  }

  /** `?format=` holds its only `?` at index 0. */
  lemma QueryOnlyAtStart(k: nat)
    requires 1 <= k < 8
    ensures "?format="[k] != '?'
  {
    var lit := "?format=";
    assert lit[1..] == "format=";
    assert lit[k] == lit[1..][k - 1];
  }

  /** Whether `&name=\w+` matches at the start of `p + c` is decided before a `?` that starts `c`. */
  lemma NameParamLocal(p: string, c: string, d: string)
    requires c != [] && d != [] && c[0] == '?' && d[0] == '?'
    ensures MatchLen(NameParam, p + c) == MatchLen(NameParam, p + d)
  {
    assert '?' !in "&name=";
    StartsWithLocal(p, c, d, "&name=");
    if StartsWith(p + c, "&name=") {
      assert (p + c)[6..] == p[6..] + c;
      assert (p + d)[6..] == p[6..] + d;
      RunSameTail(p[6..], c, d, Word);
    }
  }

  lemma AppendDrop(p: string, c: string, e: nat)
    requires e <= |p|
    ensures (p + c)[e..] == p[e..] + c
  {
  }

  /** A greedy `\w` run from inside `p` stops before a `?` that starts `c`. */
  lemma RunLocal(p: string, c: string, d: string, e: nat)
    requires e <= |p|
    requires c != [] && d != [] && c[0] == '?' && d[0] == '?'
    ensures Run((p + c)[e..], Word) == Run((p + d)[e..], Word) <= |p| - e
  {
    AppendDrop(p, c, e);
    AppendDrop(p, d, e);
    RunSameTail(p[e..], c, d, Word);
  }

  /** Whether `&name=` starts at `e` inside `p + c` is decided before a `?` that starts `c`. */
  lemma NameLiteralLocal(p: string, c: string, d: string, e: nat)
    requires e <= |p|
    requires c != [] && d != [] && c[0] == '?' && d[0] == '?'
    ensures StartsWith((p + c)[e..], "&name=") <==> StartsWith((p + d)[e..], "&name=")
    ensures StartsWith((p + c)[e..], "&name=") ==> e + 6 <= |p|
  {
    AppendDrop(p, c, e);
    AppendDrop(p, d, e);
    assert '?' !in "&name=";
    StartsWithLocal(p[e..], c, d, "&name=");
  }

  /** Without the leading `?format=` there is no match. */
  lemma FormatNameParamNoPrefix(x: string)
    requires !StartsWith(x, "?format=")
    ensures MatchLen(FormatNameParam, x).None?
  {
  }

  /** Two strings whose `?format=\w+&name=\w+` parts agree have the same match. */
  lemma FormatNameParamByParts(x: string, y: string, r: nat)
    requires StartsWith(x, "?format=") && StartsWith(y, "?format=")
    requires r == Run(x[8..], Word) == Run(y[8..], Word)
    requires StartsWith(x[8 + r..], "&name=") <==> StartsWith(y[8 + r..], "&name=")
    requires StartsWith(x[8 + r..], "&name=") ==> Run(x[8 + r + 6..], Word) == Run(y[8 + r + 6..], Word)
    ensures MatchLen(FormatNameParam, x) == MatchLen(FormatNameParam, y)
  {
    if r == 0 {
      assert LiteralThenRun(x, "?format=", Word).None? && LiteralThenRun(y, "?format=", Word).None?;
    } else {
      assert LiteralThenRun(x, "?format=", Word) == Some(8 + r) == LiteralThenRun(y, "?format=", Word);
      if StartsWith(x[8 + r..], "&name=") {
        assert RunBetween(x, "?format=", Word, "&name=") == Some(8 + r + 6) == RunBetween(y, "?format=", Word, "&name=");
      } else {
        assert RunBetween(x, "?format=", Word, "&name=").None? && RunBetween(y, "?format=", Word, "&name=").None?;
      }
    }
  }

  /**
    Whether `?format=\w+&name=\w+` matches at the start of `p + c` is decided before
    the `?` that starts `c`, when `p` is not empty.
  */
  lemma FormatNameParamLocal(p: string, c: string, d: string)
    requires p != []
    requires c != [] && d != [] && c[0] == '?' && d[0] == '?'
    ensures MatchLen(FormatNameParam, p + c) == MatchLen(FormatNameParam, p + d)
  {
    var x, y := p + c, p + d;
    if |p| < 8 {
      QueryOnlyAtStart(|p|);
    }
    StartsWithLocal(p, c, d, "?format=");
    if StartsWith(x, "?format=") {
      RunLocal(p, c, d, 8);
      var r := Run(x[8..], Word);
      NameLiteralLocal(p, c, d, 8 + r);
      if StartsWith(x[8 + r..], "&name=") {
        RunLocal(p, c, d, 8 + r + 6);
      }
      FormatNameParamByParts(x, y, r);
    } else {
      FormatNameParamNoPrefix(x);
      FormatNameParamNoPrefix(y);
    }
  }

  // ---------------------------------------------------------------------------
  // One step of each rewrite

  lemma LargeNameCons(x: string)
    requires x != [] && MatchLen(NameParam, x).None?
    ensures LargeName(x) == [x[0]] + LargeName(x[1..])
  {
  }

  lemma FormatNameLargeCons(x: string, format: Option<string>)
    requires format.Some? ==> IsWord(format.value)
    requires x != [] && MatchLen(FormatNameParam, x).None?
    ensures FormatNameLarge(x, format) == [x[0]] + FormatNameLarge(x[1..], format)
  {
  }

  // ---------------------------------------------------------------------------
  // The rewrites replace the leftmost match and keep everything around it

  /** `s` with the chars from `i` to `j` replaced by `l`. */
  function Splice(s: string, i: nat, l: string, j: nat): string
    requires i <= j <= |s|
  {
    s[..i] + l + s[j..]
  }

  lemma SpliceCons(s: string, i: nat, l: string, j: nat)
    requires s != [] && i <= j <= |s| - 1
    ensures [s[0]] + Splice(s[1..], i, l, j) == Splice(s, i + 1, l, j + 1)
  {
    assert s == [s[0]] + s[1..];
    ConsSplice(s[0], s[1..], i, l, j);
  }

  /** Where the match of `p` that starts at `i` ends. */
  function MatchEnd(p: Pattern, s: string, i: nat): (j: nat)
    requires i < |s| && MatchLen(p, s[i..]).Some?
    ensures i < j <= |s|
  {
    i + MatchLen(p, s[i..]).value
  }

  lemma DropTail(s: string, i: nat)
    requires i + 1 <= |s|
    ensures s[1..][i..] == s[i + 1..]
  {
  }

  /** A match at `i` in the tail is the match at `i + 1` in the whole string. */
  lemma MatchEndCons(p: Pattern, s: string, i: nat)
    requires s != [] && i + 1 < |s| && MatchLen(p, s[i + 1..]).Some?
    ensures i < |s[1..]| && MatchLen(p, s[1..][i..]).Some?
    ensures MatchEnd(p, s[1..], i) + 1 == MatchEnd(p, s, i + 1)
  {
    DropTail(s, i);
  }

  /** `LargeName` leaves a URL without `&name=\w+` alone and otherwise rewrites its leftmost one. */
  predicate LargeNameIsReplaceFirst(s: string) {
    && (FirstMatchPos(NameParam, s).None? ==> LargeName(s) == s)
    && (FirstMatchPos(NameParam, s).Some? ==>
          var i := FirstMatchPos(NameParam, s).value;
          LargeName(s) == Splice(s, i, "&name=large", MatchEnd(NameParam, s, i)))
  }

  /** The same for the format rewrite. */
  predicate FormatNameLargeIsReplaceFirst(s: string, format: Option<string>)
    requires format.Some? ==> IsWord(format.value)
  {
    && (FirstMatchPos(FormatNameParam, s).None? ==> FormatNameLarge(s, format) == s)
    && (FirstMatchPos(FormatNameParam, s).Some? ==>
          var i := FirstMatchPos(FormatNameParam, s).value;
          FormatNameLarge(s, format) == Splice(s, i, FormatNameReplacement(s[i..], format), MatchEnd(FormatNameParam, s, i)))
  }

  /** `LargeName` is a first-match replace: it rewrites the leftmost `&name=\w+` and nothing else. */
  lemma {:induction false} LargeNameReplacesFirst(s: string)
    ensures LargeNameIsReplaceFirst(s)
    decreases |s|
  {
    if s != [] && MatchLen(NameParam, s).None? {
      LargeNameReplacesFirst(s[1..]);
      LargeNameReplacesFirstStep(s);
    } else if s != [] {
      assert s[0..] == s;
    }
  }

  lemma LargeNameReplacesFirstStep(s: string)
    requires s != [] && MatchLen(NameParam, s).None?
    requires LargeNameIsReplaceFirst(s[1..])
    ensures LargeNameIsReplaceFirst(s)
  {
    LargeNameCons(s);
    FirstMatchPosCons(NameParam, s);
    var r := FirstMatchPos(NameParam, s[1..]);
    if r.Some? {
      MatchEndCons(NameParam, s, r.value);
      SpliceCons(s, r.value, "&name=large", MatchEnd(NameParam, s[1..], r.value));
    } else {
      assert [s[0]] + s[1..] == s;
    }
  }

  /**
    `FormatNameLarge` is a first-match replace: it rewrites the leftmost
    `?format=\w+&name=\w+`, keeping the captured format unless one is forced.
  */
  lemma {:induction false} FormatNameLargeReplacesFirst(s: string, format: Option<string>)
    requires format.Some? ==> IsWord(format.value)
    ensures FormatNameLargeIsReplaceFirst(s, format)
    decreases |s|
  {
    if s != [] && MatchLen(FormatNameParam, s).None? {
      FormatNameLargeReplacesFirst(s[1..], format);
      FormatNameLargeReplacesFirstStep(s, format);
    } else if s != [] {
      FormatNameLargeReplacesFirstAtStart(s, format);
    }
  }

  lemma FormatNameLargeReplacesFirstAtStart(s: string, format: Option<string>)
    requires format.Some? ==> IsWord(format.value)
    requires MatchLen(FormatNameParam, s).Some?
    ensures FormatNameLargeIsReplaceFirst(s, format)
  {
    FormatNameParamStart(s);
    assert s[0..] == s;
    assert FirstMatchPos(FormatNameParam, s) == Some(0);
    assert s[..0] + FormatNameReplacement(s, format) == FormatNameReplacement(s, format);
  }

  lemma FormatNameLargeReplacesFirstStep(s: string, format: Option<string>)
    requires format.Some? ==> IsWord(format.value)
    requires s != [] && MatchLen(FormatNameParam, s).None?
    requires FormatNameLargeIsReplaceFirst(s[1..], format)
    ensures FormatNameLargeIsReplaceFirst(s, format)
  {
    FormatNameLargeCons(s, format);
    FirstMatchPosCons(FormatNameParam, s);
    var r := FirstMatchPos(FormatNameParam, s[1..]);
    if r.Some? {
      var i := r.value;
      assert s[1..][i..] == s[i + 1..];
      MatchEndCons(FormatNameParam, s, i);
      SpliceCons(s, i, FormatNameReplacement(s[i + 1..], format), MatchEnd(FormatNameParam, s[1..], i));
    } else {
      assert [s[0]] + s[1..] == s;
    }
  }

  // ---------------------------------------------------------------------------
  // What the rewrites keep

  /** A string too short for `&name=\w+` is left alone. */
  lemma {:induction false} LargeNameShort(s: string)
    requires |s| < 7
    ensures LargeName(s) == s
    decreases |s|
  {
    NameParamAt(s);
    if s != [] {
      LargeNameShort(s[1..]);
      LargeNameCons(s);
      assert [s[0]] + s[1..] == s;
    }
  }

  /** `LargeName` keeps the first six chars (a rewrite starts with `&name=` itself). */
  lemma {:induction false} LargeNameHead(s: string)
    requires |s| >= 6
    ensures |LargeName(s)| >= 6 && LargeName(s)[..6] == s[..6]
    decreases |s|
  {
    if MatchLen(NameParam, s).None? {
      if |s| == 6 {
        LargeNameShort(s);
      } else {
        LargeNameHead(s[1..]);
        LargeNameHeadStep(s);
      }
    } else {
      assert s[..6] == "&name=";
    }
  }

  lemma LargeNameHeadStep(s: string)
    requires |s| >= 7 && MatchLen(NameParam, s).None?
    requires |LargeName(s[1..])| >= 6 && LargeName(s[1..])[..6] == s[1..][..6]
    ensures |LargeName(s)| >= 6 && LargeName(s)[..6] == s[..6]
  {
    LargeNameCons(s);
    var u := LargeName(s[1..]);
    assert ([s[0]] + u)[..6] == [s[0]] + u[..5];
    assert s[..6] == [s[0]] + s[1..][..5];
  }

  /** Text without a `&` passes through `LargeName` untouched. */
  lemma {:induction false} LargeNameSkip(a: string, b: string)
    requires '&' !in a
    ensures LargeName(a + b) == a + LargeName(b)
    decreases |a|
  {
    if a == [] {
      assert a + b == b;
    } else {
      TailWithout(a, '&');
      LargeNameSkip(a[1..], b);
      LargeNameSkipStep(a, b);
    }
  }

  lemma LargeNameSkipStep(a: string, b: string)
    requires a != [] && a[0] != '&'
    requires LargeName(a[1..] + b) == a[1..] + LargeName(b)
    ensures LargeName(a + b) == a + LargeName(b)
  {
    ConsAppend(a, b);
    LargeNameConsChar(a[0], a[1..] + b);
    ConsAppend(a, LargeName(b));
  }

  /** A char other than `&` in front passes through `LargeName`. */
  lemma LargeNameConsChar(c: char, y: string)
    requires c != '&'
    ensures LargeName([c] + y) == [c] + LargeName(y)
  {
    var x := [c] + y;
    ConsTail(c, y, x);
    NameParamStart(x);
    LargeNameCons(x);
  }

  /** The format rewrite keeps the first char. */
  lemma FormatNameLargeFirst(t: string, format: Option<string>)
    requires format.Some? ==> IsWord(format.value)
    requires t != []
    ensures FormatNameLarge(t, format) != [] && FormatNameLarge(t, format)[0] == t[0]
  {
    FormatNameParamStart(t);
  }

  /** Text without a `?` passes through `FormatNameLarge` untouched. */
  lemma {:induction false} FormatNameLargeSkip(a: string, b: string, format: Option<string>)
    requires format.Some? ==> IsWord(format.value)
    requires '?' !in a
    ensures FormatNameLarge(a + b, format) == a + FormatNameLarge(b, format)
    decreases |a|
  {
    if a == [] {
      assert a + b == b;
    } else {
      TailWithout(a, '?');
      FormatNameLargeSkip(a[1..], b, format);
      FormatNameLargeSkipStep(a, b, format);
    }
  }

  lemma FormatNameLargeSkipStep(a: string, b: string, format: Option<string>)
    requires format.Some? ==> IsWord(format.value)
    requires a != [] && a[0] != '?'
    requires FormatNameLarge(a[1..] + b, format) == a[1..] + FormatNameLarge(b, format)
    ensures FormatNameLarge(a + b, format) == a + FormatNameLarge(b, format)
  {
    var x := a + b;
    assert x[0] == a[0];
    assert x[1..] == a[1..] + b;
    FormatNameParamStart(x);
    FormatNameLargeCons(x, format);
    ConsAppend(a, FormatNameLarge(b, format));
  }

  /** `FormatNameLarge` creates no `?format=…&name=…` match in front of what it rewrites. */
  lemma {:induction false} NoNewFormatMatch(p: string, t: string, format: Option<string>)
    requires format.Some? ==> IsWord(format.value)
    requires p != []
    requires MatchLen(FormatNameParam, p + t).None?
    ensures MatchLen(FormatNameParam, p + FormatNameLarge(t, format)).None?
    decreases |t|
  {
    if t == [] {
      assert p + FormatNameLarge(t, format) == p + t;
    } else if t[0] == '?' {
      FormatNameLargeFirst(t, format);
      FormatNameParamLocal(p, t, FormatNameLarge(t, format));
    } else {
      NoNewFormatMatchStep(p, t, format);
      NoNewFormatMatch(p + [t[0]], t[1..], format);
      AppendCons(p, t[0], FormatNameLarge(t[1..], format));
    }
  }

  lemma NoNewFormatMatchStep(p: string, t: string, format: Option<string>)
    requires format.Some? ==> IsWord(format.value)
    requires t != [] && t[0] != '?'
    requires MatchLen(FormatNameParam, p + t).None?
    ensures MatchLen(FormatNameParam, (p + [t[0]]) + t[1..]).None?
    ensures FormatNameLarge(t, format) == [t[0]] + FormatNameLarge(t[1..], format)
  {
    FormatNameParamStart(t);
    FormatNameLargeCons(t, format);
    assert t == [t[0]] + t[1..];
    AppendCons(p, t[0], t[1..]);
  }

  /** `FormatNameLarge` creates no `&name=\w+` match in front of what it rewrites. */
  lemma {:induction false} NoNewNameMatch(p: string, t: string, format: Option<string>)
    requires format.Some? ==> IsWord(format.value)
    requires MatchLen(NameParam, p + t).None?
    ensures MatchLen(NameParam, p + FormatNameLarge(t, format)).None?
    decreases |t|
  {
    if t == [] {
      assert p + FormatNameLarge(t, format) == p + t;
    } else if t[0] == '?' {
      FormatNameLargeFirst(t, format);
      NameParamLocal(p, t, FormatNameLarge(t, format));
    } else {
      NoNewNameMatchStep(p, t, format);
      NoNewNameMatch(p + [t[0]], t[1..], format);
      AppendCons(p, t[0], FormatNameLarge(t[1..], format));
    }
  }

  lemma NoNewNameMatchStep(p: string, t: string, format: Option<string>)
    requires format.Some? ==> IsWord(format.value)
    requires t != [] && t[0] != '?'
    requires MatchLen(NameParam, p + t).None?
    ensures MatchLen(NameParam, (p + [t[0]]) + t[1..]).None?
    ensures FormatNameLarge(t, format) == [t[0]] + FormatNameLarge(t[1..], format)
  {
    FormatNameParamStart(t);
    FormatNameLargeCons(t, format);
    assert t == [t[0]] + t[1..];
    AppendCons(p, t[0], t[1..]);
  }

  // ---------------------------------------------------------------------------
  // Idempotence

  /** Asking twice for the `large` name changes nothing more. */
  lemma {:induction false} LargeNameIdempotent(s: string)
    ensures LargeName(LargeName(s)) == LargeName(s)
    decreases |s|
  {
    match MatchLen(NameParam, s)
    case Some(n) =>
      NameParamEnd(s);
      LargeNameMatches(s[n..]);
      assert ("&name=large" + s[n..])[11..] == s[n..];
    case None =>
      if |s| < 7 {
        LargeNameShort(s);
      } else {
        LargeNameIdempotent(s[1..]);
        LargeNameIdempotentStep(s);
      }
  }

  lemma LargeNameIdempotentStep(s: string)
    requires |s| >= 7 && MatchLen(NameParam, s).None?
    requires LargeName(LargeName(s[1..])) == LargeName(s[1..])
    ensures LargeName(LargeName(s)) == LargeName(s)
  {
    LargeNameCons(s);
    var v := LargeName(s[1..]);
    var u := LargeName(s);
    ConsTail(s[0], v, u);
    LargeNameHead(s[1..]);
    ConsPrefix(s[0], v, s[1..], 6);
    assert [s[0]] + s[1..] == s;
    NameParamPrefix(u, s);
    LargeNameCons(u);
  }

  /** Asking twice for the `large` name with a given or kept format changes nothing more. */
  lemma {:induction false} FormatNameLargeIdempotent(s: string, format: Option<string>)
    requires format.Some? ==> IsWord(format.value)
    ensures FormatNameLarge(FormatNameLarge(s, format), format) == FormatNameLarge(s, format)
    decreases |s|
  {
    if MatchLen(FormatNameParam, s).Some? {
      FormatNameLargeIdempotentAt(s, format);
    } else if s != [] {
      FormatNameLargeIdempotent(s[1..], format);
      FormatNameLargeIdempotentStep(s, format);
    }
  }

  lemma FormatNameLargeIdempotentAt(s: string, format: Option<string>)
    requires format.Some? ==> IsWord(format.value)
    requires MatchLen(FormatNameParam, s).Some?
    ensures FormatNameLarge(FormatNameLarge(s, format), format) == FormatNameLarge(s, format)
  {
    var n := MatchLen(FormatNameParam, s).value;
    FormatNameParamEnd(s);
    var f := if format.Some? then format.value else Group(FormatNameParam, s);
    var u := "?format=" + f + "&name=large" + s[n..];
    assert FormatNameLarge(s, format) == u;
    FormatNameLargeMatches(f, s[n..]);
    assert u[|f| + 19..] == s[n..];
  }

  lemma FormatNameLargeIdempotentStep(s: string, format: Option<string>)
    requires format.Some? ==> IsWord(format.value)
    requires s != [] && MatchLen(FormatNameParam, s).None?
    requires FormatNameLarge(FormatNameLarge(s[1..], format), format) == FormatNameLarge(s[1..], format)
    ensures FormatNameLarge(FormatNameLarge(s, format), format) == FormatNameLarge(s, format)
  {
    FormatNameLargeCons(s, format);
    var v := FormatNameLarge(s[1..], format);
    var u := FormatNameLarge(s, format);
    ConsTail(s[0], v, u);
    if s[0] == '?' {
      assert ['?'] + s[1..] == s;
      NoNewFormatMatch(['?'], s[1..], format);
      assert ['?'] + v == u;
    } else {
      FormatNameParamStart(u);
    }
    FormatNameLargeCons(u, format);
  }

  /** The format rewrite never gives `LargeName` something new to rewrite. */
  lemma {:induction false} LargeNameAfterFormat(t: string, format: Option<string>)
    requires format.Some? ==> IsWord(format.value)
    requires LargeName(t) == t
    ensures LargeName(FormatNameLarge(t, format)) == FormatNameLarge(t, format)
    decreases |t|
  {
    if MatchLen(FormatNameParam, t).Some? {
      LargeNameAfterFormatAtFormat(t, format);
    } else if MatchLen(NameParam, t).Some? {
      LargeNameAfterFormatAtName(t, format);
    } else if t != [] {
      LargeNameCons(t);
      ConsTail(t[0], LargeName(t[1..]), t);
      LargeNameAfterFormat(t[1..], format);
      LargeNameAfterFormatStep(t, format);
    }
  }

  lemma LargeNameAfterFormatAtFormat(t: string, format: Option<string>)
    requires format.Some? ==> IsWord(format.value)
    requires MatchLen(FormatNameParam, t).Some?
    ensures LargeName(FormatNameLarge(t, format)) == FormatNameLarge(t, format)
  {
    var n := MatchLen(FormatNameParam, t).value;
    FormatNameParamEnd(t);
    var f := if format.Some? then format.value else Group(FormatNameParam, t);
    assert FormatNameLarge(t, format) == "?format=" + f + "&name=large" + t[n..];
    LargeNameOfReplacement(f, t[n..]);
  }

  /** `LargeName` leaves the text the format rewrite puts in alone. */
  lemma LargeNameOfReplacement(f: string, rest: string)
    requires IsWord(f)
    requires rest == [] || !IsWordChar(rest[0])
    ensures LargeName("?format=" + f + "&name=large" + rest) == "?format=" + f + "&name=large" + rest
  {
    var a := "?format=" + f;
    var v := "&name=large" + rest;
    assert "?format=" + f + "&name=large" + rest == a + v;
    FormatPrefixNoAmp(f);
    LargeNameSkip(a, v);
    LargeNameMatches(rest);
    assert v[11..] == rest;
  }

  lemma FormatPrefixNoAmp(f: string)
    requires IsWord(f)
    ensures '&' !in "?format=" + f
  {
    var a := "?format=" + f;
    assert forall i :: 8 <= i < |a| ==> a[i] == f[i - 8];
  }

  lemma LargeNameAfterFormatAtName(t: string, format: Option<string>)
    requires format.Some? ==> IsWord(format.value)
    requires LargeName(t) == t
    requires MatchLen(NameParam, t).Some?
    ensures LargeName(FormatNameLarge(t, format)) == FormatNameLarge(t, format)
  {
    var m := MatchLen(NameParam, t).value;
    var r := t[m..];
    assert t == "&name=large" + r;
    NameParamEnd(t);
    assert r == [] || r[0] == t[m];
    assert '?' !in "&name=large";
    FormatNameLargeSkip("&name=large", r, format);
    var w := FormatNameLarge(r, format);
    if r != [] {
      FormatNameLargeFirst(r, format);
    }
    LargeNameMatches(w);
    assert ("&name=large" + w)[11..] == w;
  }

  lemma LargeNameAfterFormatStep(t: string, format: Option<string>)
    requires format.Some? ==> IsWord(format.value)
    requires t != [] && MatchLen(NameParam, t).None? && MatchLen(FormatNameParam, t).None?
    requires LargeName(FormatNameLarge(t[1..], format)) == FormatNameLarge(t[1..], format)
    ensures LargeName(FormatNameLarge(t, format)) == FormatNameLarge(t, format)
  {
    FormatNameLargeCons(t, format);
    var v := FormatNameLarge(t[1..], format);
    var u := FormatNameLarge(t, format);
    ConsTail(t[0], v, u);
    assert [t[0]] + t[1..] == t;
    NoNewNameMatch([t[0]], t[1..], format);
    assert [t[0]] + v == u;
    LargeNameCons(u);
  }

  /** The article image rewrite is idempotent. */
  lemma LargeImageUrlIdempotent(src: string)
    ensures LargeImageUrl(LargeImageUrl(src)) == LargeImageUrl(src)
  {
    var t := LargeName(src);
    LargeNameIdempotent(src);
    LargeNameAfterFormat(t, None);
    FormatNameLargeIdempotent(t, None);
  }

  /** The tweet image rewrite is idempotent. */
  lemma JpgLargeIdempotent(src: string)
    ensures JpgLarge(JpgLarge(src)) == JpgLarge(src)
  {
    FormatNameLargeIdempotent(src, Some("jpg"));
  }
}
