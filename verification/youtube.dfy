/** The YouTube platform: its URL recogniser, video id extraction and the
    canonical watch URL rebuilt from an id. */
module YouTubePlatform {
  import opened Wrappers
  import opened Text
  import opened IdPatterns
  import UrlPatterns

  const Name: string := "YouTube"
  const Domains: seq<string> := ["youtube.com", "youtu.be"]

  /** The host alternation `youtube\.com|youtu\.?be` of the recogniser. */
  const MatchHosts: seq<string> := ["youtube.com", "youtube", "youtu.be"]

  /** Case-insensitive recogniser of YouTube URLs. */
  predicate MatchesUrl(url: string) {
    UrlPatterns.AnchoredHostMatch(MatchHosts, true, url)
  }

  /** The id from the first of the two patterns that finds one: long
      `youtube.com/...` forms first, then `youtu.be/<id>`. Case-sensitive. */
  function ExtractId(url: string): (r: Option<string>)
    ensures r.Some? ==> IsVideoId(r.value)
    ensures r.Some? ==> exists k :: 0 <= k <= |url| && (HostAt(YouTubeLong, url, k) || HostAt(YouTubeShort, url, k))
    ensures Search(YouTubeLong, url, 0).Some? ==> r == Some(Search(YouTubeLong, url, 0).value[0])
    ensures Search(YouTubeLong, url, 0).None? && Search(YouTubeShort, url, 0).Some? ==>
      r == Some(Search(YouTubeShort, url, 0).value[0])
    ensures r.None? <==> Search(YouTubeLong, url, 0).None? && Search(YouTubeShort, url, 0).None?
  {
    match Search(YouTubeLong, url, 0)
    case Some(g) => Some(g[0])
    case None =>
      match Search(YouTubeShort, url, 0)
      case Some(g) => Some(g[0])
      case None => None
  }

  const Scheme: string := "https://www."
  const Host: string := "youtube.com/"
  const Watch: string := "watch?v="

  /** `https://www.youtube.com/watch?v=<id>`. */
  function WatchUrl(id: string): string {
    Scheme + Host + Watch + id
  }

  /** The canonical watch URL for a video id: a URL the recogniser accepts
      and from which extraction gives the id back. A token over the id
      alphabet of any other length is not given back. */
  function ReconstructUrl(id: string): (r: string)
    ensures IsVideoId(id) ==> ExtractId(r) == Some(id) && MatchesUrl(r)
    ensures |id| != 11 && (forall i :: 0 <= i < |id| ==> InClass(VideoIdChar, id[i])) ==> ExtractId(r).None?
  {
    if IsVideoId(id) then
      ExtractIdOfWatchUrl(id);
      MatchesWatchUrl(id);
      WatchUrl(id)
    else if |id| != 11 && forall i :: 0 <= i < |id| ==> InClass(VideoIdChar, id[i]) then
      WrongLengthIdRejected(id);
      WatchUrl(id)
    else
      WatchUrl(id)
  }

  const ShortScheme: string := "https://"
  const ShortHost: string := "youtu.be/"

  /** `https://youtu.be/<id>`, the short link form. */
  function ShortUrl(id: string): string {
    ShortScheme + ShortHost + id
  }

  /** A short link gives its id back: the long pattern finds no
      `youtube.com/` in it, and the short one matches at the host. */
  lemma ExtractIdOfShortUrl(id: string)
    requires IsVideoId(id)
    ensures ExtractId(ShortUrl(id)) == Some(id)
  {
    var s := ShortUrl(id);
    assert s == ShortScheme + (ShortHost + id);
    ShortUrlDots(s, id);
    forall k | 0 <= k <= |s|
      ensures !HostAt(YouTubeLong, s, k)
      ensures HostAt(YouTubeShort, s, k) ==> k == 8
    {
      if k + 9 <= |s| {
        assert s[k..][0] == s[k] && s[k..][5] == s[k + 5] && s[k..][7] == s[k + 7];
      }
    }
    SearchNoHost(YouTubeLong, s, 0);
    assert s[8..] == ShortHost + id;
    assert StartsWith(s[8..], "youtu.be/");
    assert s[17..28] == id;
    assert VideoIdAt(s, 17) == Some(id);
    SearchFinds(YouTubeShort, s, 0, 8);
  }

  /** The only dot of a short link is the one in `youtu.be`. */
  lemma ShortUrlDots(s: string, id: string)
    requires IsVideoId(id)
    requires s == ShortUrl(id)
    ensures |s| == 28
    ensures forall i :: 0 <= i < |s| && s[i] == '.' ==> i == 13
    ensures s[8] == 'y' && s[6] == '/' && s[0] == 'h'
  {
    assert s == ShortScheme + (ShortHost + id);
    forall i | 0 <= i < |s| && s[i] == '.'
      ensures i == 13
    {
      if 8 <= i < 17 {
        assert s[i] == ShortHost[i - 8];
      }
    }
    assert s[8] == ShortHost[0];
  }

  /** Rebuilding the URL from an id and extracting again gives the id back. */
  lemma ExtractIdOfWatchUrl(id: string)
    requires IsVideoId(id)
    ensures ExtractId(WatchUrl(id)) == Some(id)
  {
    var s := WatchUrl(id);
    NoHostInScheme(s, id);
    WatchPathAtHost(s, id);
    SearchFinds(YouTubeLong, s, 0, 12);
  }

  lemma NoHostInScheme(s: string, id: string)
    requires s == WatchUrl(id)
    ensures forall k :: 0 <= k < 12 ==> MatchAt(YouTubeLong, s, k).None?
  {
    forall k | 0 <= k < 12
      ensures !StartsWith(s[k..], "youtube.com/")
    {
      assert s[k] == Scheme[k];
      assert s[k..][0] == s[k];
    }
  }

  lemma WatchPathAtHost(s: string, id: string)
    requires IsVideoId(id)
    requires s == WatchUrl(id)
    ensures MatchAt(YouTubeLong, s, 12) == Some([id])
  {
    assert s == Scheme + (Host + (Watch + id));
    assert s[12..] == Host + (Watch + id);
    assert StartsWith(s[12..], "youtube.com/");
    assert s[24..] == Watch + id;
    assert StartsWith(s[24..], "watch?v=");
    assert s[32..43] == id;
    assert VideoIdAt(s, 32) == Some(id);
  }

  /** In a watch URL built from id-alphabet characters, the only dots are
      those of `www.` and `youtube.com`. */
  lemma WatchUrlDots(s: string, t: string)
    requires forall i :: 0 <= i < |t| ==> InClass(VideoIdChar, t[i])
    requires s == WatchUrl(t)
    ensures |s| == 32 + |t|
    ensures forall i :: 0 <= i < |s| && s[i] == '.' ==> i == 11 || i == 19
    ensures s[4] == 's' && s[6] == '/' && s[14] == 'u'
  {
    assert s == Scheme + (Host + (Watch + t));
    forall i | 0 <= i < |s| && s[i] == '.'
      ensures i == 11 || i == 19
    {
      if i < 12 {
        assert s[i] == Scheme[i];
      } else if i < 24 {
        assert s[i] == Host[i - 12];
      }
    }
    assert s[14] == Host[2];
  }

  /** The only host occurrence in a watch URL is the one at position 12. */
  lemma WatchUrlHosts(s: string, t: string)
    requires forall i :: 0 <= i < |t| ==> InClass(VideoIdChar, t[i])
    requires s == WatchUrl(t)
    ensures forall k :: 0 <= k <= |s| && HostAt(YouTubeLong, s, k) ==> k == 12
    ensures forall k :: 0 <= k <= |s| ==> !HostAt(YouTubeShort, s, k)
  {
    WatchUrlLongHost(s, t);
    WatchUrlNoShortHost(s, t);
  }

  lemma WatchUrlLongHost(s: string, t: string)
    requires forall i :: 0 <= i < |t| ==> InClass(VideoIdChar, t[i])
    requires s == WatchUrl(t)
    ensures forall k :: 0 <= k <= |s| && HostAt(YouTubeLong, s, k) ==> k == 12
  {
    WatchUrlDots(s, t);
    forall k | 0 <= k <= |s| && HostAt(YouTubeLong, s, k)
      ensures k == 12
    {
      assert s[k..][7] == s[k + 7] && s[k..][0] == s[k];
    }
  }

  lemma WatchUrlNoShortHost(s: string, t: string)
    requires forall i :: 0 <= i < |t| ==> InClass(VideoIdChar, t[i])
    requires s == WatchUrl(t)
    ensures forall k :: 0 <= k <= |s| ==> !HostAt(YouTubeShort, s, k)
  {
    WatchUrlDots(s, t);
    forall k | 0 <= k <= |s|
      ensures !HostAt(YouTubeShort, s, k)
    {
      if k + 9 <= |s| {
        assert s[k..][5] == s[k + 5] && s[k..][0] == s[k];
      }
    }
  }

  /** A token of the id alphabet that is not eleven characters long is not
      extracted from the watch URL: the id must end at `?`, `&` or the end
      of the string, so a twelve-character token yields nothing. */
  lemma WrongLengthIdRejected(t: string)
    requires forall i :: 0 <= i < |t| ==> InClass(VideoIdChar, t[i])
    requires |t| != 11
    ensures ExtractId(WatchUrl(t)).None?
  {
    var s := WatchUrl(t);
    WatchUrlHosts(s, t);
    WrongLengthNoMatchAtHost(t);
    assert forall k :: 0 <= k <= |s| ==> MatchAt(YouTubeLong, s, k).None?;
    SearchNoHost(YouTubeShort, s, 0);
  }

  /** At the host occurrence itself, the token of the wrong length does not
      end where an id must. */
  lemma WrongLengthNoMatchAtHost(t: string)
    requires forall i :: 0 <= i < |t| ==> InClass(VideoIdChar, t[i])
    requires |t| != 11
    ensures MatchAt(YouTubeLong, WatchUrl(t), 12).None?
  {
    var s := WatchUrl(t);
    WatchUrlDots(s, t);
    assert s == (Scheme + Host) + (Watch + t);
    assert s[24..] == Watch + t;
    assert StartsWith(s[24..], "watch?v=");
    if |t| > 11 {
      assert s[43] == t[11];
    }
    assert VideoIdAt(s, 32).None?;
  }

  /** For tokens of the id alphabet, the watch URL round-trips exactly when
      the token is a video id. */
  lemma ExtractIdOfReconstructUrlIff(t: string)
    requires forall i :: 0 <= i < |t| ==> InClass(VideoIdChar, t[i])
    ensures ExtractId(ReconstructUrl(t)) == Some(t) <==> IsVideoId(t)
  {
    if IsVideoId(t) {
      ExtractIdOfWatchUrl(t);
    } else {
      WrongLengthIdRejected(t);
    }
  }

  /** The canonical URL is recognised as a YouTube URL. */
  lemma MatchesWatchUrl(id: string)
    requires IsVideoId(id)
    ensures MatchesUrl(WatchUrl(id))
  {
    var url := WatchUrl(id);
    assert url == (Scheme + Host) + (Watch + id);
    LowerOfStable(Scheme + Host);
    UrlPatterns.AcceptsListedHost(MatchHosts, true, url, Scheme + Host, Watch + id, 5, 0);
  }

  /** Extraction is case-sensitive: a URL without a lower-case `y` yields
      no id. */
  lemma NoIdWithoutLowerY(url: string)
    requires 'y' !in url
    ensures ExtractId(url).None?
  {
    forall k | 0 <= k <= |url|
      ensures !HostAt(YouTubeLong, url, k) && !HostAt(YouTubeShort, url, k)
    {
      if k < |url| {
        assert url[k..][0] == url[k];
      }
    }
    SearchNoHost(YouTubeLong, url, 0);
    SearchNoHost(YouTubeShort, url, 0);
  }

  /** The recogniser ignores case but extraction does not: the upper-cased
      watch URL is accepted as YouTube and yields no id. */
  lemma UpperCaseUrlRecognisedWithoutId(id: string)
    requires IsVideoId(id)
    ensures MatchesUrl(Upper(ReconstructUrl(id)))
    ensures ExtractId(Upper(ReconstructUrl(id))).None?
  {
    MatchesWatchUrl(id);
    LowerOfUpper(ReconstructUrl(id));
    NoLowerAfterUpper(ReconstructUrl(id), 'y');
    NoIdWithoutLowerY(Upper(ReconstructUrl(id)));
  }
}
