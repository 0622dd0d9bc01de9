/**
  The fixed regular expressions of the extension, each written as a hand-made matcher.
  Every one of them is deterministic: its greedy runs are followed by a character the
  run cannot contain (or by nothing), so the only match at a position is the one that
  takes each run in full. `MatchLen` gives that match at the start of a string; the
  leftmost match of a search is the first suffix on which `MatchLen` succeeds.
*/
module Patterns {
  import opened Wrappers
  import opened JsString

  /** Character classes used inside the patterns. */
  datatype CharClass =
    | Word       // \w
    | NotSlash   // [^\/]
    | StatChar   // [\d,.]
    | Newline    // \n

  predicate InClass(c: char, k: CharClass) {
    match k
    case Word => IsWordChar(c)
    case NotSlash => c != '/'
    case StatChar => IsDigit(c) || c == ',' || c == '.'
    case Newline => c == '\n'
  }

  /** Length of the longest prefix of `t` made of class `k`: what a greedy `k*` takes. */
  function Run(t: string, k: CharClass): (n: nat)
    ensures n <= |t|
    ensures forall i :: 0 <= i < n ==> InClass(t[i], k)
    ensures n == |t| || !InClass(t[n], k)
    decreases |t|
  {
    if t != [] && InClass(t[0], k) then 1 + Run(t[1..], k) else 0
  }

  /** A run over a string of class `k` chars stops at the first char outside `k`. */
  lemma {:induction false} RunAll(w: string, t: string, k: CharClass)
    requires forall i :: 0 <= i < |w| ==> InClass(w[i], k)
    requires t == [] || !InClass(t[0], k)
    ensures Run(w + t, k) == |w|
    decreases |w|
  {
    if w != [] {
      assert (w + t)[1..] == w[1..] + t;
      RunAll(w[1..], t, k);
    }
  }

  /** Two strings that agree up to a char outside `k` have the same run of `k`. */
  lemma {:induction false} RunSameTail(q: string, c: string, d: string, k: CharClass)
    requires c != [] && d != [] && c[0] == d[0] && !InClass(c[0], k)
    ensures Run(q + c, k) == Run(q + d, k) <= |q|
    decreases |q|
  {
    if q != [] {
      assert (q + c)[1..] == q[1..] + c;
      assert (q + d)[1..] == q[1..] + d;
      RunSameTail(q[1..], c, d, k);
    }
  }

  /** The patterns, as they are written in the source. */
  datatype Pattern =
    | NameParam        // /&name=\w+/
    | FormatNameParam  // /\?format=(\w+)&name=\w+/
    | XComStatus       // /x\.com\/([^\/]+)\/status/
    | PathStatus       // /\/([^\/]+)\/status/
    | StatToken        // /[\d,.]+[KMkm]?/
    | Mention          // /@(\w+)/
    | Hashtag          // /#(\w+)/
    | NewlineRun       // /\n{3,}/

  /** `lit` followed by a non-empty greedy run of class `k`: the length of that match. */
  function LiteralThenRun(t: string, lit: string, k: CharClass): (r: Option<nat>)
    ensures r.Some? <==> StartsWith(t, lit) && Run(t[|lit|..], k) > 0
    ensures r.Some? ==> r.value == |lit| + Run(t[|lit|..], k)
  {
    if StartsWith(t, lit) && Run(t[|lit|..], k) > 0 then Some(|lit| + Run(t[|lit|..], k)) else None
  }

  /** `lit1`, a non-empty greedy run of class `k`, then `lit2`: the length of that match. */
  function RunBetween(t: string, lit1: string, k: CharClass, lit2: string): (r: Option<nat>)
    ensures r.Some? ==> StartsWith(t, lit1) && Run(t[|lit1|..], k) > 0
    ensures r.Some? ==> var e := |lit1| + Run(t[|lit1|..], k);
                        StartsWith(t[e..], lit2) && r.value == e + |lit2|
  {
    match LiteralThenRun(t, lit1, k)
    case None => None
    case Some(e) => if StartsWith(t[e..], lit2) then Some(e + |lit2|) else None
  }

  /** The length of the match of `p` at the very start of `t`, if `p` matches there. */
  function MatchLen(p: Pattern, t: string): (r: Option<nat>)
    ensures r.Some? ==> 0 < r.value <= |t|
  {
    match p
    case NameParam => LiteralThenRun(t, "&name=", Word)
    case FormatNameParam =>
      (match RunBetween(t, "?format=", Word, "&name=")
       case None => None
       case Some(e) => if Run(t[e..], Word) > 0 then Some(e + Run(t[e..], Word)) else None)
    case XComStatus => RunBetween(t, "x.com/", NotSlash, "/status")
    case PathStatus => RunBetween(t, "/", NotSlash, "/status")
    case StatToken =>
      var n := Run(t, StatChar);
      if n == 0 then None
      else if n < |t| && t[n] in "KMkm" then Some(n + 1)
      else Some(n)
    case Mention => LiteralThenRun(t, "@", Word)
    case Hashtag => LiteralThenRun(t, "#", Word)
    case NewlineRun => if Run(t, Newline) >= 3 then Some(Run(t, Newline)) else None
  }

  /** Patterns with one capturing group, and the literal that precedes the group. */
  function GroupStart(p: Pattern): nat {
    match p
    case FormatNameParam => 8
    case XComStatus => 6
    case PathStatus => 1
    case _ => 0
  }

  /** The class the capturing group is made of. */
  function GroupClass(p: Pattern): CharClass {
    if p.FormatNameParam? then Word else NotSlash
  }

  /** `match[1]` of a match of `p` at the start of `t`. */
  function Group(p: Pattern, t: string): (g: string)
    requires p.FormatNameParam? || p.XComStatus? || p.PathStatus?
    requires MatchLen(p, t).Some?
    ensures |g| > 0 && forall i :: 0 <= i < |g| ==> InClass(g[i], GroupClass(p))
  {
    var k := GroupStart(p);
    t[k..k + Run(t[k..], GroupClass(p))]
  }

  /** The index of the leftmost match of `p` in `s`, if any. */
  function FirstMatchPos(p: Pattern, s: string): (r: Option<nat>)
    ensures r.Some? ==> r.value < |s| && MatchLen(p, s[r.value..]).Some?
    decreases |s|
  {
    if MatchLen(p, s).Some? then assert s[0..] == s; Some(0)
    else if s == [] then None
    else
      var r := FirstMatchPos(p, s[1..]);
      assert r.Some? ==> s[1..][r.value..] == s[r.value + 1..];
      Shift(r)
  }

  /** `s.match(p)[0]`: the text of the leftmost match, if any. */
  function FirstMatch(p: Pattern, s: string): (r: Option<string>)
    ensures r.Some? <==> FirstMatchPos(p, s).Some?
    ensures r.Some? ==> var i := FirstMatchPos(p, s).value;
                        r.value == s[i..i + MatchLen(p, s[i..]).value]
    ensures r.Some? ==> r.value != [] && Contains(s, r.value)
    ensures r.None? <==> forall i :: 0 <= i <= |s| ==> MatchLen(p, s[i..]).None?
  {
    FirstMatchPosLeftmost(p, s);
    match FirstMatchPos(p, s)
    case Some(i) =>
      var m := s[i..i + MatchLen(p, s[i..]).value];
      assert StartsWith(s[i..], m);
      ContainsAt(s, i, m);
      Some(m)
    case None => None
  }

  /** A position found in the tail, as a position in the whole string. */
  function Shift(r: Option<nat>): (q: Option<nat>)
    ensures q.None? <==> r.None?
    ensures q.Some? ==> q.value == r.value + 1
  {
    if r.None? then None else Some(r.value + 1)
  }

  /** With no match at the start, the first match is the first match of the tail, one further on. */
  lemma FirstMatchPosCons(p: Pattern, s: string)
    requires s != [] && MatchLen(p, s).None?
    ensures FirstMatchPos(p, s) == Shift(FirstMatchPos(p, s[1..]))
  {
  }

  /** `FirstMatchPos` finds the leftmost match, and finds none only when there is none. */
  lemma {:induction false} FirstMatchPosLeftmost(p: Pattern, s: string)
    ensures FirstMatchPos(p, s).Some? ==> forall j :: 0 <= j < FirstMatchPos(p, s).value ==> MatchLen(p, s[j..]).None?
    ensures FirstMatchPos(p, s).None? <==> forall i :: 0 <= i <= |s| ==> MatchLen(p, s[i..]).None?
    decreases |s|
  {
    if MatchLen(p, s).Some? {
      assert s[0..] == s;
    } else if s != [] {
      FirstMatchPosLeftmost(p, s[1..]);
      assert forall i :: 1 <= i <= |s| ==> s[1..][i - 1..] == s[i..];
    }
  }

  /** `s.match(p)[1]`: the capturing group of the leftmost match, if any. */
  function FirstGroup(p: Pattern, s: string): (r: Option<string>)
    requires p.FormatNameParam? || p.XComStatus? || p.PathStatus?
    ensures r.Some? <==> FirstMatchPos(p, s).Some?
    ensures r.Some? ==> r.value == Group(p, s[FirstMatchPos(p, s).value..])
    ensures r.Some? ==> r.value != [] && forall i :: 0 <= i < |r.value| ==> InClass(r.value[i], GroupClass(p))
  {
    match FirstMatchPos(p, s)
    case Some(i) => Some(Group(p, s[i..]))
    case None => None
  }

  // ---------------------------------------------------------------------------
  // What a match looks like

  /** The literal in front of the handle in the two `…/status` patterns. */
  function HandleLead(p: Pattern): string
    requires p.XComStatus? || p.PathStatus?
  {
    if p.XComStatus? then "x.com/" else "/"
  }

  /** `t` starts with `a`, then `b`, then `c`. */
  lemma StartsWithThree(t: string, a: string, b: string, c: string)
    requires StartsWith(t, a) && |a| + |b| <= |t| && t[|a|..|a| + |b|] == b && StartsWith(t[|a| + |b|..], c)
    ensures StartsWith(t, a + b + c)
  {
    var w := a + b + c;
    forall i | 0 <= i < |w|
      ensures t[i] == w[i]
    {
      if i < |a| {
        assert t[..|a|][i] == a[i];
      } else if i < |a| + |b| {
        assert t[|a|..|a| + |b|][i - |a|] == b[i - |a|];
      } else {
        assert t[|a| + |b|..][..|c|][i - |a| - |b|] == c[i - |a| - |b|];
      }
    }
    assert t[..|w|] == w;
  }

  /** A match of a `…/status` pattern at the start of `t` spells the handle out in full. */
  lemma HandleMatchSpelled(p: Pattern, t: string)
    requires p.XComStatus? || p.PathStatus?
    requires MatchLen(p, t).Some?
    ensures StartsWith(t, HandleLead(p) + Group(p, t) + "/status")
  {
    var lead := HandleLead(p);
    var g := Group(p, t);
    assert GroupStart(p) == |lead|;
    StartsWithThree(t, lead, g, "/status");
  }

  /**
    The handle that `s.match(/x\.com\/([^\/]+)\/status/)[1]` (or the `/…/status` pattern)
    captures is spelled out, between the literal and `/status`, at the leftmost place
    in `s` where the pattern matches, and holds no slash.
  */
  lemma HandleOccurs(p: Pattern, s: string)
    requires p.XComStatus? || p.PathStatus?
    requires FirstGroup(p, s).Some?
    ensures var i := FirstMatchPos(p, s).value;
      && StartsWith(s[i..], HandleLead(p) + FirstGroup(p, s).value + "/status")
      && forall j :: 0 <= j < i ==> MatchLen(p, s[j..]).None?
    ensures Contains(s, HandleLead(p) + FirstGroup(p, s).value + "/status")
    ensures '/' !in FirstGroup(p, s).value
  {
    var i := FirstMatchPos(p, s).value;
    var g := FirstGroup(p, s).value;
    assert forall k :: 0 <= k < |g| ==> InClass(g[k], NotSlash);
    HandleMatchSpelled(p, s[i..]);
    ContainsAt(s, i, HandleLead(p) + g + "/status");
    FirstMatchPosLeftmost(p, s);
  }

  /** What `/[\d,.]+[KMkm]?/` matches: digits, commas and dots, then at most one suffix letter. */
  predicate IsStatToken(t: string) {
    && |t| >= 1
    && InClass(t[0], StatChar)
    && (forall i :: 0 <= i < |t| - 1 ==> InClass(t[i], StatChar))
    && (InClass(t[|t| - 1], StatChar) || t[|t| - 1] in "KMkm")
  }

  lemma StatTokenAtStart(t: string)
    requires MatchLen(StatToken, t).Some?
    ensures IsStatToken(t[..MatchLen(StatToken, t).value])
  {
  }

  /** The leftmost `/[\d,.]+[KMkm]?/` match is a stat token. */
  lemma FirstStatToken(s: string)
    requires FirstMatch(StatToken, s).Some?
    ensures IsStatToken(FirstMatch(StatToken, s).value)
  {
    StatTokenAtStart(s[FirstMatchPos(StatToken, s).value..]);
  }
}
