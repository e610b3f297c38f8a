/** The platform registry: every supported site with its display name,
    domains and URL recogniser, the first-match resolution of a URL to a
    platform, and the inherited defaults for id extraction. */
module Platforms {
  import opened Wrappers
  import opened Text
  import UrlPatterns
  import YouTubePlatform
  import TwitterPlatform
  import TikTokPlatform

  datatype Platform =
    | YouTube | TikTok | Twitter | Instagram | Facebook | Vimeo
    | Dailymotion | Twitch | Reddit | Streamable | Imgur | Generic

  /** The registry in matching priority order; the catch-all comes last. */
  const Registry: seq<Platform> :=
    [YouTube, TikTok, Twitter, Instagram, Facebook, Vimeo,
     Dailymotion, Twitch, Reddit, Streamable, Imgur, Generic]

  /** Position of a platform in the registry. */
  function Priority(p: Platform): (r: nat)
    ensures r < |Registry| && Registry[r] == p
  {
    match p
    case YouTube => 0
    case TikTok => 1
    case Twitter => 2
    case Instagram => 3
    case Facebook => 4
    case Vimeo => 5
    case Dailymotion => 6
    case Twitch => 7
    case Reddit => 8
    case Streamable => 9
    case Imgur => 10
    case Generic => 11
  }

  function Name(p: Platform): string {
    match p
    case YouTube => YouTubePlatform.Name
    case TikTok => TikTokPlatform.Name
    case Twitter => TwitterPlatform.Name
    case Instagram => "Instagram"
    case Facebook => "Facebook"
    case Vimeo => "Vimeo"
    case Dailymotion => "Dailymotion"
    case Twitch => "Twitch"
    case Reddit => "Reddit"
    case Streamable => "Streamable"
    case Imgur => "Imgur"
    case Generic => "Video Platform"
  }

  function Domains(p: Platform): seq<string> {
    match p
    case YouTube => YouTubePlatform.Domains
    case TikTok => TikTokPlatform.Domains
    case Twitter => TwitterPlatform.Domains
    case Instagram => ["instagram.com"]
    case Facebook => ["facebook.com", "fb.watch"]
    case Vimeo => ["vimeo.com"]
    case Dailymotion => ["dailymotion.com"]
    case Twitch => ["twitch.tv"]
    case Reddit => ["reddit.com"]
    case Streamable => ["streamable.com"]
    case Imgur => ["imgur.com"]
    case Generic => []
  }

  /** The host alternation of each hand-written recogniser: the domain list,
      except that YouTube's `youtu\.?be` also admits the bare `youtube`. */
  function MatchHosts(p: Platform): (r: seq<string>)
    ensures p != YouTube ==> r == Domains(p)
  {
    if p == YouTube then YouTubePlatform.MatchHosts else Domains(p)
  }

  /** `matches_url`: the anchored, case-insensitive recogniser; the generic
      platform accepts every string. */
  predicate MatchesUrl(p: Platform, url: string) {
    p == Generic || UrlPatterns.AnchoredHostMatch(MatchHosts(p), true, url)
  }

  predicate SupportsIdExtraction(p: Platform) {
    p == YouTube || p == Twitter
  }

  /** `extract_id`: only YouTube and Twitter/X override the default, which
      returns None. */
  function ExtractId(p: Platform, url: string): (r: Option<string>)
    ensures !SupportsIdExtraction(p) ==> r.None?
    ensures p == YouTube ==> r == YouTubePlatform.ExtractId(url)
    ensures p == Twitter ==> r == TwitterPlatform.ExtractId(url)
  {
    match p
    case YouTube => YouTubePlatform.ExtractId(url)
    case Twitter => TwitterPlatform.ExtractId(url)
    case _ => None
  }

  /** `reconstruct_url`: the default returns the id itself. */
  function ReconstructUrl(p: Platform, id: string): (r: string)
    ensures !SupportsIdExtraction(p) ==> r == id
    ensures p == YouTube ==> r == YouTubePlatform.ReconstructUrl(id)
    ensures p == Twitter ==> r == TwitterPlatform.ReconstructUrl(id)
  {
    match p
    case YouTube => YouTubePlatform.ReconstructUrl(id)
    case Twitter => TwitterPlatform.ReconstructUrl(id)
    case _ => id
  }

  /** `get_short_name`: the lower-cased name with `/` and spaces turned
      into `_`. */
  function ShortName(p: Platform): (r: string)
    ensures |r| == |Name(p)|
    ensures forall i :: 0 <= i < |r| ==>
      r[i] == (if Name(p)[i] == '/' || Name(p)[i] == ' ' then '_' else LowerChar(Name(p)[i]))
  {
    ReplaceChar(ReplaceChar(Lower(Name(p)), '/', '_'), ' ', '_')
  }

  /** The short names the registry produces. */
  lemma ShortNames()
    ensures ShortName(YouTube) == "youtube"
    ensures ShortName(TikTok) == "tiktok"
    ensures ShortName(Twitter) == "twitter_x"
    ensures ShortName(Instagram) == "instagram"
    ensures ShortName(Facebook) == "facebook"
    ensures ShortName(Vimeo) == "vimeo"
    ensures ShortName(Dailymotion) == "dailymotion"
    ensures ShortName(Twitch) == "twitch"
    ensures ShortName(Reddit) == "reddit"
    ensures ShortName(Streamable) == "streamable"
    ensures ShortName(Imgur) == "imgur"
    ensures ShortName(Generic) == "video_platform"
  {
    SpecificShortNames();
    LaterShortNames();
  }

  lemma SpecificShortNames()
    ensures ShortName(YouTube) == "youtube"
    ensures ShortName(TikTok) == "tiktok"
    ensures ShortName(Twitter) == "twitter_x"
    ensures ShortName(Instagram) == "instagram"
    ensures ShortName(Facebook) == "facebook"
    ensures ShortName(Vimeo) == "vimeo"
  {
  }

  lemma LaterShortNames()
    ensures ShortName(Dailymotion) == "dailymotion"
    ensures ShortName(Twitch) == "twitch"
    ensures ShortName(Reddit) == "reddit"
    ensures ShortName(Streamable) == "streamable"
    ensures ShortName(Imgur) == "imgur"
    ensures ShortName(Generic) == "video_platform"
  {
  }

  /** Distinct platforms have distinct short names, and lower-casing leaves
      a short name unchanged. */
  lemma ShortNamesDistinct(p: Platform, q: Platform)
    ensures ShortName(p) == ShortName(q) ==> p == q
    ensures Lower(ShortName(p)) == ShortName(p)
  {
    ShortNames();
  }

  /** The first platform of `ps` whose recogniser accepts `url`. */
  function FirstMatch(ps: seq<Platform>, url: string): (r: Option<Platform>)
    ensures r.Some? ==> exists i :: 0 <= i < |ps| && ps[i] == r.value && MatchesUrl(ps[i], url) &&
                          forall j :: 0 <= j < i ==> !MatchesUrl(ps[j], url)
    ensures r.None? <==> forall i :: 0 <= i < |ps| ==> !MatchesUrl(ps[i], url)
  {
    if |ps| == 0 then None
    else if MatchesUrl(ps[0], url) then Some(ps[0])
    else
      var r := FirstMatch(ps[1..], url);
      assert forall i :: 1 <= i < |ps| ==> ps[i] == ps[1..][i - 1];
      r
  }

  /** `get_platform_for_url`: the first registered platform that accepts the
      URL, with the generic platform as the fallback. */
  function GetPlatformForUrl(url: string): (r: Platform)
    ensures MatchesUrl(r, url)
    ensures forall q :: Priority(q) < Priority(r) ==> !MatchesUrl(q, url)
  {
    match FirstMatch(Registry, url)
    case Some(p) => p
    case None => Generic
  }

  /** Resolution never needs its fallback: the registry's last entry
      accepts everything. */
  lemma FallbackUnreachable(url: string)
    ensures FirstMatch(Registry, url).Some?
  {
    assert MatchesUrl(Registry[11], url);
  }

  /** `is_supported_url`: some registered platform other than the generic
      one accepts the URL. */
  predicate IsSupportedUrl(url: string) {
    FirstMatch(Specific, url).Some?
  }

  /** Searching a concatenation searches the first part, then the second. */
  lemma {:induction false} FirstMatchAppend(ps: seq<Platform>, qs: seq<Platform>, url: string)
    ensures FirstMatch(ps + qs, url) == if FirstMatch(ps, url).Some? then FirstMatch(ps, url) else FirstMatch(qs, url)
    decreases |ps|
  {
    if |ps| == 0 {
      assert ps + qs == qs;
    } else {
      assert (ps + qs)[0] == ps[0];
      assert (ps + qs)[1..] == ps[1..] + qs;
      FirstMatchAppend(ps[1..], qs, url);
    }
  }

  /** The registry without its generic fallback. */
  const Specific: seq<Platform> :=
    [YouTube, TikTok, Twitter, Instagram, Facebook, Vimeo,
     Dailymotion, Twitch, Reddit, Streamable, Imgur]

  /** `Specific` lists every platform except the generic one, each at its
      registry position. */
  lemma SpecificListsNonGeneric()
    ensures Registry == Specific + [Generic]
    ensures forall i :: 0 <= i < |Specific| ==> Specific[i] != Generic
    ensures forall p :: p != Generic ==> Priority(p) < |Specific| && Specific[Priority(p)] == p
  {
  }

  /** A URL is supported exactly when a specific platform accepts it. */
  lemma SupportedIffSpecific(url: string)
    ensures IsSupportedUrl(url) <==> exists p :: p != Generic && MatchesUrl(p, url)
  {
    SpecificListsNonGeneric();
    var r := FirstMatch(Specific, url);
    if r.Some? {
      var i :| 0 <= i < |Specific| && Specific[i] == r.value && MatchesUrl(Specific[i], url);
      assert r.value != Generic && MatchesUrl(r.value, url);
    } else {
      forall p | p != Generic ensures !MatchesUrl(p, url) {
        assert Specific[Priority(p)] == p;
      }
    }
  }

  /** A URL is supported exactly when it does not resolve to the generic
      platform. */
  lemma SupportedIffNotGeneric(url: string)
    ensures IsSupportedUrl(url) <==> GetPlatformForUrl(url) != Generic
  {
    SpecificListsNonGeneric();
    FirstMatchAppend(Specific, [Generic], url);
    var r := FirstMatch(Specific, url);
    if r.Some? {
      var i :| 0 <= i < |Specific| && Specific[i] == r.value && MatchesUrl(Specific[i], url);
      assert FirstMatch(Registry, url) == r;
    } else {
      assert MatchesUrl([Generic][0], url);
      assert FirstMatch(Registry, url) == Some(Generic);
    }
  }

  /** The domain lists contain neither `/` nor `:`. */
  lemma HostsAreBare(p: Platform)
    ensures forall k :: 0 <= k < |MatchHosts(p)| ==> UrlPatterns.NoSlashOrColon(MatchHosts(p)[k])
  {
    if p == YouTube || p == TikTok || p == Twitter || p == Instagram {
      FirstHostsBare(p);
    } else {
      LaterHostsBare(p);
    }
  }

  lemma FirstHostsBare(p: Platform)
    requires p == YouTube || p == TikTok || p == Twitter || p == Instagram
    ensures forall k :: 0 <= k < |MatchHosts(p)| ==> UrlPatterns.NoSlashOrColon(MatchHosts(p)[k])
  {
  }

  lemma LaterHostsBare(p: Platform)
    requires !(p == YouTube || p == TikTok || p == Twitter || p == Instagram)
    ensures forall k :: 0 <= k < |MatchHosts(p)| ==> UrlPatterns.NoSlashOrColon(MatchHosts(p)[k])
  {
  }

  lemma HostsAreLowerCase(p: Platform)
    ensures forall k :: 0 <= k < |MatchHosts(p)| ==> IsLowerStable(MatchHosts(p)[k])
  {
    if p == YouTube || p == TikTok || p == Twitter || p == Instagram {
      FirstHostsLowerCase(p);
    } else {
      LaterHostsLowerCase(p);
    }
  }

  lemma FirstHostsLowerCase(p: Platform)
    requires p == YouTube || p == TikTok || p == Twitter || p == Instagram
    ensures forall k :: 0 <= k < |MatchHosts(p)| ==> IsLowerStable(MatchHosts(p)[k])
  {
  }

  lemma LaterHostsLowerCase(p: Platform)
    requires !(p == YouTube || p == TikTok || p == Twitter || p == Instagram)
    ensures forall k :: 0 <= k < |MatchHosts(p)| ==> IsLowerStable(MatchHosts(p)[k])
  {
  }

  /** A listed host followed by `/` alone is rejected by its platform. */
  lemma BareHostRejected(p: Platform, prefix: nat, k: nat)
    requires p != Generic
    requires prefix < |UrlPatterns.Prefixes| && k < |MatchHosts(p)|
    ensures !MatchesUrl(p, UrlPatterns.Prefixes[prefix] + MatchHosts(p)[k] + "/")
  {
    HostsAreBare(p);
    UrlPatterns.BareHostRejected(MatchHosts(p), true, prefix, k);
  }

  /** Every platform accepts each of its hosts after any of the six
      scheme/`www.` prefixes, followed by `/` and a non-empty rest of line. */
  lemma AcceptsOwnHost(p: Platform, prefix: nat, k: nat, rest: string)
    requires p != Generic
    requires prefix < |UrlPatterns.Prefixes| && k < |MatchHosts(p)|
    requires UrlPatterns.RestOfLine(rest)
    ensures MatchesUrl(p, UrlPatterns.Prefixes[prefix] + MatchHosts(p)[k] + "/" + rest)
  {
    var head := UrlPatterns.Prefixes[prefix] + MatchHosts(p)[k] + "/";
    HostsAreLowerCase(p);
    assert IsLowerStable(UrlPatterns.Prefixes[prefix]);
    LowerStableConcat(UrlPatterns.Prefixes[prefix], MatchHosts(p)[k]);
    LowerStableConcat(UrlPatterns.Prefixes[prefix] + MatchHosts(p)[k], "/");
    LowerOfStable(head);
    UrlPatterns.AcceptsListedHost(MatchHosts(p), true, head + rest, head, rest, prefix, k);
  }

  /** A URL whose first label after the optional scheme is a subdomain
      other than `www` (`m.`, `player.`, `clips.`, `old.`, `v.`, `i.`, ...)
      is rejected whenever no host of the platform begins with that label
      and a dot. */
  lemma SubdomainRejected(p: Platform, sch: string, sub: string, rest: string)
    requires p != Generic
    requires sch == "" || sch == "http://" || sch == "https://"
    requires UrlPatterns.IsLabel(sub) && Lower(sub) != "www"
    requires forall k :: 0 <= k < |MatchHosts(p)| ==> !StartsWith(MatchHosts(p)[k], Lower(sub) + ".")
    ensures !MatchesUrl(p, sch + sub + "." + rest)
  {
    HostsAreBare(p);
    UrlPatterns.SubdomainRejected(MatchHosts(p), sch, sub, rest);
  }

  /** The mobile `m.` subdomain is rejected by every platform that serves
      one. */
  lemma MobileSubdomainRejected(sch: string, rest: string)
    requires sch == "" || sch == "http://" || sch == "https://"
    ensures !MatchesUrl(Facebook, sch + "m" + "." + rest)
    ensures !MatchesUrl(Instagram, sch + "m" + "." + rest)
    ensures !MatchesUrl(Dailymotion, sch + "m" + "." + rest)
    ensures !MatchesUrl(Streamable, sch + "m" + "." + rest)
  {
    LowerOfStable("m");
    MobileRejectedBy(Facebook, sch, rest);
    MobileRejectedBy(Instagram, sch, rest);
    MobileRejectedBy(Dailymotion, sch, rest);
    MobileRejectedBy(Streamable, sch, rest);
  }

  lemma MobileRejectedBy(p: Platform, sch: string, rest: string)
    requires p == Facebook || p == Instagram || p == Dailymotion || p == Streamable
    requires sch == "" || sch == "http://" || sch == "https://"
    ensures !MatchesUrl(p, sch + "m" + "." + rest)
  {
    LowerOfStable("m");
    forall k | 0 <= k < |MatchHosts(p)|
      ensures !StartsWith(MatchHosts(p)[k], Lower("m") + ".")
    {
      MismatchNotStartsWith(MatchHosts(p)[k], "m.", 0);
    }
    SubdomainRejected(p, sch, "m", rest);
  }

  /** Vimeo's embedded-player subdomain is rejected. */
  lemma PlayerSubdomainRejected(sch: string, rest: string)
    requires sch == "" || sch == "http://" || sch == "https://"
    ensures !MatchesUrl(Vimeo, sch + "player" + "." + rest)
  {
    LowerOfStable("player");
    MismatchNotStartsWith("vimeo.com", "player.", 0);
    SubdomainRejected(Vimeo, sch, "player", rest);
  }

  /** Twitch's clip subdomain is rejected. */
  lemma ClipsSubdomainRejected(sch: string, rest: string)
    requires sch == "" || sch == "http://" || sch == "https://"
    ensures !MatchesUrl(Twitch, sch + "clips" + "." + rest)
  {
    LowerOfStable("clips");
    MismatchNotStartsWith("twitch.tv", "clips.", 0);
    SubdomainRejected(Twitch, sch, "clips", rest);
  }

  /** Reddit's old-layout and media subdomains are rejected. */
  lemma RedditSubdomainsRejected(sch: string, rest: string)
    requires sch == "" || sch == "http://" || sch == "https://"
    ensures !MatchesUrl(Reddit, sch + "old" + "." + rest)
    ensures !MatchesUrl(Reddit, sch + "v" + "." + rest)
  {
    LowerOfStable("old");
    MismatchNotStartsWith("reddit.com", "old.", 0);
    SubdomainRejected(Reddit, sch, "old", rest);
    LowerOfStable("v");
    MismatchNotStartsWith("reddit.com", "v.", 0);
    SubdomainRejected(Reddit, sch, "v", rest);
  }

  /** Imgur's direct-image subdomain is rejected. */
  lemma ImageSubdomainRejected(sch: string, rest: string)
    requires sch == "" || sch == "http://" || sch == "https://"
    ensures !MatchesUrl(Imgur, sch + "i" + "." + rest)
  {
    LowerOfStable("i");
    MismatchNotStartsWith("imgur.com", "i.", 1);
    SubdomainRejected(Imgur, sch, "i", rest);
  }

  /** The YouTube recogniser is wider than its domain list: the bare host
      `youtube` is accepted too. */
  lemma BareYoutubeHostAccepted(rest: string)
    requires UrlPatterns.RestOfLine(rest)
    ensures MatchesUrl(YouTube, "youtube/" + rest)
    ensures "youtube" !in Domains(YouTube)
  {
    AcceptsOwnHost(YouTube, 0, 1, rest);
    assert UrlPatterns.Prefixes[0] + MatchHosts(YouTube)[1] + "/" == "youtube/";
  }
}
