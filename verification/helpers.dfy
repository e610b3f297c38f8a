/** The URL helpers built on the platform registry: platform names and ids
    for callback payloads, the reverse mapping from a short platform name
    and an id back to a URL, and the legacy per-platform extractors that
    only extract from URLs the platform recognises. */
module Helpers {
  import opened Wrappers
  import opened Text
  import opened Platforms
  import IdPatterns
  import YouTubePlatform
  import TwitterPlatform
  import TikTokPlatform

  /** `is_valid_video_url`: the registry's support test. */
  predicate IsValidVideoUrl(url: string) {
    IsSupportedUrl(url)
  }

  /** Only the generic platform is called "Video Platform". */
  lemma GenericNameUnique(p: Platform)
    ensures Name(p) == "Video Platform" <==> p == Generic
  {
  }

  /** `get_platform_name`: the display name of the resolved platform, which
      is the generic "Video Platform" exactly for unsupported URLs. */
  function GetPlatformName(url: string): (r: string)
    ensures r == "Video Platform" <==> !IsValidVideoUrl(url)
    ensures MatchesUrl(GetPlatformForUrl(url), url) && r == Name(GetPlatformForUrl(url))
  {
    SupportedIffNotGeneric(url);
    GenericNameUnique(GetPlatformForUrl(url));
    Name(GetPlatformForUrl(url))
  }

  /** `extract_platform_id`: the resolved platform's id, when that platform
      offers id extraction at all. */
  function ExtractPlatformId(url: string): (r: Option<string>)
    ensures !SupportsIdExtraction(GetPlatformForUrl(url)) ==> r.None?
    ensures r.Some? ==> GetPlatformForUrl(url) in {YouTube, Twitter}
    ensures r.Some? && GetPlatformForUrl(url) == YouTube ==> IdPatterns.IsVideoId(r.value)
    ensures r.Some? && GetPlatformForUrl(url) == Twitter ==> IsDigits(r.value)
  {
    var p := GetPlatformForUrl(url);
    if SupportsIdExtraction(p) then ExtractId(p, url) else None
  }

  /** The first platform of `ps` whose short name is `name` lower-cased. */
  function FindByShortName(ps: seq<Platform>, name: string): (r: Option<Platform>)
    ensures r.Some? ==> exists i :: 0 <= i < |ps| && ps[i] == r.value && ShortName(ps[i]) == Lower(name)
    ensures r.None? <==> forall i :: 0 <= i < |ps| ==> ShortName(ps[i]) != Lower(name)
  {
    if |ps| == 0 then None
    else if ShortName(ps[0]) == Lower(name) then Some(ps[0])
    else
      assert forall i :: 1 <= i < |ps| ==> ps[i] == ps[1..][i - 1];
      FindByShortName(ps[1..], name)
  }

  /** `reconstruct_url_from_id`: the URL rebuilt by the platform whose short
      name matches, ignoring case; an unknown name gives the id back. Only
      "youtube" and "twitter_x" rebuild anything, since every other
      platform reconstructs by identity. */
  function ReconstructUrlFromId(id: string, platformName: string): (r: string)
    ensures Lower(platformName) == "youtube" ==> r == YouTubePlatform.ReconstructUrl(id)
    ensures Lower(platformName) == "twitter_x" ==> r == TwitterPlatform.ReconstructUrl(id)
    ensures Lower(platformName) != "youtube" && Lower(platformName) != "twitter_x" ==> r == id
  {
    ShortNames();
    assert Registry[0] == YouTube && Registry[2] == Twitter;
    match FindByShortName(Registry, platformName)
    case Some(p) => ReconstructUrl(p, id)
    case None => id
  }

  /** The canonical YouTube URL resolves to YouTube. */
  lemma YouTubeUrlResolves(id: string)
    requires IdPatterns.IsVideoId(id)
    ensures GetPlatformForUrl(YouTubePlatform.ReconstructUrl(id)) == YouTube
  {
  }

  /** The canonical Twitter/X URL resolves to Twitter/X: neither YouTube nor
      TikTok, which come first, accepts it. */
  lemma TwitterUrlResolves(id: string)
    requires IsDigits(id)
    ensures GetPlatformForUrl(TwitterPlatform.ReconstructUrl(id)) == Twitter
  {
    assert TwitterPlatform.ReconstructUrl(id) == TwitterPlatform.CanonicalUrl(id);
    CanonicalTwitterUrlResolves(id);
  }

  /** The same, for the canonical status URL spelled out. */
  lemma CanonicalTwitterUrlResolves(id: string)
    requires IsDigits(id)
    ensures GetPlatformForUrl(TwitterPlatform.CanonicalUrl(id)) == Twitter
  {
    var url := TwitterPlatform.CanonicalUrl(id);
    var rest := "com/i/web/status/" + id;
    assert url == "https://" + "twitter" + "." + rest;
    YouTubeRejectsTwitterHost(rest);
    TikTokRejectsTwitterHost(rest);
    TwitterPlatform.MatchesCanonicalUrl(id);
    var r := GetPlatformForUrl(url);
    assert MatchesUrl(Twitter, url);
    assert Priority(r) <= 2;
  }

  /** YouTube's hosts do not start with `twitter.`, so YouTube refuses a
      `twitter.` host. */
  lemma YouTubeRejectsTwitterHost(rest: string)
    ensures !MatchesUrl(YouTube, "https://" + "twitter" + "." + rest)
  {
    LowerOfStable("twitter");
    MismatchNotStartsWith("youtube.com", "twitter.", 0);
    MismatchNotStartsWith("youtube", "twitter.", 0);
    MismatchNotStartsWith("youtu.be", "twitter.", 0);
    SubdomainRejected(YouTube, "https://", "twitter", rest);
  }

  /** Neither does TikTok's host. */
  lemma TikTokRejectsTwitterHost(rest: string)
    ensures !MatchesUrl(TikTok, "https://" + "twitter" + "." + rest)
  {
    LowerOfStable("twitter");
    MismatchNotStartsWith("tiktok.com", "twitter.", 1);
    SubdomainRejected(TikTok, "https://", "twitter", rest);
  }

  /** A YouTube id survives the trip through a callback payload: the URL
      rebuilt under the short name "youtube" yields the id again. */
  lemma YouTubePayloadRoundTrip(id: string)
    requires IdPatterns.IsVideoId(id)
    ensures ExtractPlatformId(ReconstructUrlFromId(id, "youtube")) == Some(id)
  {
    LowerOfStable("youtube");
    YouTubeUrlResolves(id);
    YouTubePlatform.ExtractIdOfWatchUrl(id);
  }

  /** A tweet id survives the trip under the short name "twitter_x". */
  lemma TwitterPayloadRoundTrip(id: string)
    requires IsDigits(id)
    ensures ExtractPlatformId(ReconstructUrlFromId(id, "twitter_x")) == Some(id)
  {
    LowerOfStable("twitter_x");
    TwitterUrlResolves(id);
    TwitterPlatform.ExtractIdOfCanonicalUrl(id);
  }

  /** "twitter" is not a registered short name, so it rebuilds nothing. */
  lemma PlainTwitterNameNotRegistered(id: string)
    ensures ReconstructUrlFromId(id, "twitter") == id
    ensures ReconstructUrlFromId(id, "tiktok") == id
  {
    MismatchNotStartsWith("youtube", Lower("twitter"), 0);
    MismatchNotStartsWith("youtube", Lower("tiktok"), 0);
  }

  /** `extract_youtube_video_id`: the YouTube id, but only from a URL the
      YouTube recogniser accepts. */
  function ExtractYouTubeVideoId(url: string): (r: Option<string>)
    ensures !YouTubePlatform.MatchesUrl(url) ==> r.None?
    ensures r.Some? ==> IdPatterns.IsVideoId(r.value)
    ensures r.Some? ==> ExtractPlatformId(url) == r
  {
    if YouTubePlatform.MatchesUrl(url) then
      assert MatchesUrl(YouTube, url) && Priority(YouTube) == 0;
      YouTubePlatform.ExtractId(url)
    else None
  }

  /** `extract_tiktok_video_info`: handle and id, but only from a URL the
      TikTok recogniser accepts. */
  function ExtractTikTokVideoInfo(url: string): (r: Option<(string, string)>)
    ensures !TikTokPlatform.MatchesUrl(url) ==> r.None?
    ensures r.Some? ==> TikTokPlatform.IsHandle(r.value.0) && IsDigits(r.value.1)
  {
    if TikTokPlatform.MatchesUrl(url) then TikTokPlatform.ExtractVideoInfo(url) else None
  }

  /** `extract_twitter_tweet_id`: the tweet id, but only from a URL the
      Twitter/X recogniser accepts. */
  function ExtractTwitterTweetId(url: string): (r: Option<string>)
    ensures !TwitterPlatform.MatchesUrl(url) ==> r.None?
    ensures r.Some? ==> IsDigits(r.value)
  {
    if TwitterPlatform.MatchesUrl(url) then TwitterPlatform.ExtractId(url) else None
  }

  /** The legacy extractors read back the canonical URLs. */
  lemma LegacyExtractorsRoundTrip(id: string, tweet: string, user: string, video: string)
    requires IdPatterns.IsVideoId(id) && IsDigits(tweet)
    requires TikTokPlatform.IsHandle(user) && IsDigits(video)
    ensures ExtractYouTubeVideoId(YouTubePlatform.ReconstructUrl(id)) == Some(id)
    ensures ExtractTwitterTweetId(TwitterPlatform.ReconstructUrl(tweet)) == Some(tweet)
    ensures ExtractTikTokVideoInfo(TikTokPlatform.VideoUrl(user, video)) == Some((user, video))
  {
    YouTubePlatform.MatchesWatchUrl(id);
    YouTubePlatform.ExtractIdOfWatchUrl(id);
    TwitterPlatform.MatchesCanonicalUrl(tweet);
    TwitterPlatform.ExtractIdOfCanonicalUrl(tweet);
    TikTokPlatform.MatchesVideoUrl(user, video);
    TikTokPlatform.ExtractVideoInfoOfVideoUrl(user, video);
  }

  /** A URL that only the case-insensitive recogniser accepts gives no id:
      the upper-cased watch URL passes the gate and extraction then fails. */
  lemma UpperCaseYouTubeUrlYieldsNoId(id: string)
    requires IdPatterns.IsVideoId(id)
    ensures YouTubePlatform.MatchesUrl(Upper(YouTubePlatform.ReconstructUrl(id)))
    ensures ExtractYouTubeVideoId(Upper(YouTubePlatform.ReconstructUrl(id))).None?
  {
    YouTubePlatform.UpperCaseUrlRecognisedWithoutId(id);
  }
}
