/** The unanchored, case-sensitive `re.search` patterns that pull
    identifiers out of YouTube, Twitter/X and TikTok URLs.

    Every pattern has the shape `(?:https?://)?(?:www\.)?HOST/REST`. The
    optional prefix never changes which groups are returned: no suffix of
    `https://www.` begins a host literal, so the leftmost match of the
    whole pattern is the one at the leftmost host occurrence from which
    REST matches. The model therefore searches host positions from left to
    right (`Search`) and matches REST there (`MatchAt`). */
module IdPatterns {
  import opened Wrappers
  import opened Text

  /** The character classes used in the patterns (ASCII only). */
  datatype CharClass =
    | Word          // `\w`
    | Digit         // `\d`
    | VideoIdChar   // `[0-9A-Za-z_-]`
    | HandleChar    // `[\w.-]`

  predicate InClass(cl: CharClass, c: char) {
    match cl
    case Word => IsWordChar(c)
    case Digit => IsDigit(c)
    case VideoIdChar => IsAsciiLetter(c) || IsDigit(c) || c == '_' || c == '-'
    case HandleChar => IsWordChar(c) || c == '.' || c == '-'
  }

  /** End of the longest run of `cl` characters from `k`: what a greedy
      `cl+` consumes when the pattern goes on with a character outside the
      class (so backtracking to a shorter run cannot help). */
  function RunEnd(cl: CharClass, s: string, k: nat): (r: nat)
    requires k <= |s|
    ensures k <= r <= |s|
    ensures forall i :: k <= i < r ==> InClass(cl, s[i])
    ensures r == |s| || !InClass(cl, s[r])
    decreases |s| - k
  {
    if k < |s| && InClass(cl, s[k]) then RunEnd(cl, s, k + 1) else k
  }

  /** A run of class characters ending at `e` is exactly what `RunEnd`
      measures. */
  lemma {:induction false} RunEndAt(cl: CharClass, s: string, t: nat, e: nat)
    requires t <= e <= |s|
    requires forall i :: t <= i < e ==> InClass(cl, s[i])
    requires e == |s| || !InClass(cl, s[e])
    ensures RunEnd(cl, s, t) == e
    decreases e - t
  {
    if t < e {
      RunEndAt(cl, s, t + 1, e);
    }
  }

  /** An eleven-character YouTube video id. */
  predicate IsVideoId(id: string) {
    |id| == 11 && forall i :: 0 <= i < |id| ==> InClass(VideoIdChar, id[i])
  }

  /** `(?:[?&]|$)`: a `?` or `&`, the end, or a final newline. */
  predicate TerminatorAt(s: string, k: nat) {
    || k == |s|
    || (k < |s| && (s[k] == '?' || s[k] == '&'))
    || (k + 1 == |s| && s[k] == '\n')
  }

  /** `([0-9A-Za-z_-]{11})(?:[?&]|$)` at position `k`. */
  function VideoIdAt(s: string, k: nat): (r: Option<string>)
    ensures r.Some? ==> k + 11 <= |s| && r.value == s[k..k + 11] && IsVideoId(r.value) && TerminatorAt(s, k + 11)
    ensures r.None? ==> !(k + 11 <= |s| && IsVideoId(s[k..k + 11]) && TerminatorAt(s, k + 11))
  {
    if k + 11 <= |s| && IsVideoId(s[k..k + 11]) && TerminatorAt(s, k + 11) then Some(s[k..k + 11])
    else None
  }

  /** `(\d+)` at position `k`: the longest digit run, if non-empty. */
  function DigitsAt(s: string, k: nat): (r: Option<string>)
    requires k <= |s|
    ensures r.Some? ==> IsDigits(r.value) && StartsWith(s[k..], r.value)
    ensures r.Some? ==> k + |r.value| == |s| || !IsDigit(s[k + |r.value|])
    ensures r.None? <==> k == |s| || !IsDigit(s[k])
  {
    var e := RunEnd(Digit, s, k);
    if e > k then
      assert s[k..][..e - k] == s[k..e];
      Some(s[k..e])
    else None
  }

  /** A digit string running to the end of `s` is taken whole. */
  lemma DigitsAtEnd(s: string, k: nat)
    requires k <= |s| && IsDigits(s[k..])
    ensures DigitsAt(s, k) == Some(s[k..])
  {
    assert forall i :: k <= i < |s| ==> s[i] == s[k..][i - k];
    RunEndAt(Digit, s, k, |s|);
    assert s[k..|s|] == s[k..];
  }

  /** Index of the first newline at or after `k`, or the length: `.*` cannot
      run past it. */
  function LineEnd(s: string, k: nat): (r: nat)
    requires k <= |s|
    ensures k <= r <= |s|
    ensures '\n' !in s[k..r]
    ensures r == |s| || s[r] == '\n'
    decreases |s| - k
  {
    if k == |s| || s[k] == '\n' then k
    else
      var r := LineEnd(s, k + 1);
      assert s[k..r] == [s[k]] + s[k + 1..r];
      r
  }

  const AttributionTarget: string := "&u=/watch?v%3D"

  /** `.*&u=/watch?v%3D(id)(?:[?&]|$)` with the greedy `.*` starting at
      `lo`: the id after the LAST target occurrence in `[lo, m]` that is
      followed by a valid id. */
  function LastAttribution(s: string, lo: nat, m: nat): (r: Option<string>)
    requires lo <= m <= |s|
    ensures r.Some? ==> exists n :: lo <= n <= m && StartsWith(s[n..], AttributionTarget) && VideoIdAt(s, n + 14) == r
    ensures r.None? ==> forall n :: lo <= n <= m && StartsWith(s[n..], AttributionTarget) ==> VideoIdAt(s, n + 14).None?
    decreases m - lo
  {
    if StartsWith(s[m..], AttributionTarget) && VideoIdAt(s, m + 14).Some? then VideoIdAt(s, m + 14)
    else if m == lo then None
    else LastAttribution(s, lo, m - 1)
  }

  /** The path alternatives after `youtube.com/`, at position `t`. They
      start with different characters, so at most one applies. */
  function YouTubePathId(s: string, t: nat): (r: Option<string>)
    requires t <= |s|
    ensures r.Some? ==> IsVideoId(r.value)
  {
    var rest := s[t..];
    if StartsWith(rest, "watch?v=") then VideoIdAt(s, t + 8)
    else if StartsWith(rest, "embed/") then VideoIdAt(s, t + 6)
    else if StartsWith(rest, "shorts/") then VideoIdAt(s, t + 7)
    else if StartsWith(rest, "live/") then VideoIdAt(s, t + 5)
    else if StartsWith(rest, "v/") then VideoIdAt(s, t + 2)
    else if StartsWith(rest, "attribution_link?a=") then
      var lo := t + 19;
      LastAttribution(s, lo, LineEnd(s, lo))
    else None
  }

  /** The patterns, each named after what it recognises. */
  datatype Pattern =
    | YouTubeLong     // youtube.com/(watch?v=|embed/|shorts/|live/|v/|attribution_link?a=.*&u=/watch?v%3D)(id)
    | YouTubeShort    // youtu.be/(id)
    | TweetStatus     // (twitter.com|x.com)/\w+/status/(\d+)
    | TweetWebStatus  // (twitter.com|x.com)/i/web/status/(\d+)
    | TikTokVideo     // tiktok.com/@([\w.-]+)/video/(\d+)

  function GroupCount(p: Pattern): nat {
    if p == TikTokVideo then 2 else 1
  }

  /** The host literal of `p` (with its slash) starts at `j`. */
  predicate HostAt(p: Pattern, s: string, j: nat)
    requires j <= |s|
  {
    match p
    case YouTubeLong => StartsWith(s[j..], "youtube.com/")
    case YouTubeShort => StartsWith(s[j..], "youtu.be/")
    case TikTokVideo => StartsWith(s[j..], "tiktok.com/@")
    case _ => StartsWith(s[j..], "twitter.com/") || StartsWith(s[j..], "x.com/")
  }

  /** Position just after `(twitter.com|x.com)/`. */
  function TwitterHostEnd(s: string, j: nat): (r: Option<nat>)
    requires j <= |s|
    ensures r.Some? ==> j < r.value <= |s|
  {
    if StartsWith(s[j..], "twitter.com/") then Some(j + 12)
    else if StartsWith(s[j..], "x.com/") then Some(j + 6)
    else None
  }

  function Single(o: Option<string>): Option<seq<string>> {
    match o
    case None => None
    case Some(g) => Some([g])
  }

  /** The groups of `p` when its host occurrence is taken at `j`. */
  function MatchAt(p: Pattern, s: string, j: nat): (r: Option<seq<string>>)
    requires j <= |s|
    ensures r.Some? ==> HostAt(p, s, j) && |r.value| == GroupCount(p)
    ensures r.Some? && (p == TweetStatus || p == TweetWebStatus) ==> IsDigits(r.value[0])
    ensures r.Some? && (p == YouTubeLong || p == YouTubeShort) ==> IsVideoId(r.value[0])
  {
    match p
    case YouTubeLong =>
      if StartsWith(s[j..], "youtube.com/") then Single(YouTubePathId(s, j + 12)) else None
    case YouTubeShort =>
      if StartsWith(s[j..], "youtu.be/") then Single(VideoIdAt(s, j + 9)) else None
    case TweetStatus =>
      (match TwitterHostEnd(s, j)
       case None => None
       case Some(t) =>
         var w := RunEnd(Word, s, t);
         if w > t && StartsWith(s[w..], "/status/") then Single(DigitsAt(s, w + 8)) else None)
    case TweetWebStatus =>
      (match TwitterHostEnd(s, j)
       case None => None
       case Some(t) =>
         if StartsWith(s[t..], "i/web/status/") then Single(DigitsAt(s, t + 13)) else None)
    case TikTokVideo =>
      if StartsWith(s[j..], "tiktok.com/@") then
        var u := RunEnd(HandleChar, s, j + 12);
        if u > j + 12 && StartsWith(s[u..], "/video/") then
          match DigitsAt(s, u + 7)
          case None => None
          case Some(v) => Some([s[j + 12..u], v])
        else None
      else None
  }

  /** `re.search`: the groups at the leftmost position from `j` on where the
      pattern matches. */
  function Search(p: Pattern, s: string, j: nat): (r: Option<seq<string>>)
    requires j <= |s|
    ensures r.Some? ==> exists k :: j <= k <= |s| && MatchAt(p, s, k) == r &&
                          forall i :: j <= i < k ==> MatchAt(p, s, i).None?
    ensures r.None? ==> forall k :: j <= k <= |s| ==> MatchAt(p, s, k).None?
    decreases |s| - j
  {
    var here := MatchAt(p, s, j);
    if here.Some? then here
    else if j == |s| then None
    else Search(p, s, j + 1)
  }

  /** The search returns the match at `k` when nothing matches before it. */
  lemma {:induction false} SearchFinds(p: Pattern, s: string, j: nat, k: nat)
    requires j <= k <= |s|
    requires forall i :: j <= i < k ==> MatchAt(p, s, i).None?
    requires MatchAt(p, s, k).Some?
    ensures Search(p, s, j) == MatchAt(p, s, k)
    decreases k - j
  {
    if j < k {
      assert MatchAt(p, s, j).None?;
      SearchFinds(p, s, j + 1, k);
    }
  }

  /** Where no host occurrence exists from `j` on, the search finds nothing. */
  lemma SearchNoHost(p: Pattern, s: string, j: nat)
    requires j <= |s|
    requires forall k :: j <= k <= |s| ==> !HostAt(p, s, k)
    ensures Search(p, s, j).None?
  {
  }
}
