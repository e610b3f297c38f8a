/** The Twitter/X platform: its URL recogniser, tweet id extraction and the
    canonical status URL rebuilt from an id. */
module TwitterPlatform {
  import opened Wrappers
  import opened Text
  import opened IdPatterns
  import UrlPatterns

  const Name: string := "Twitter/X"
  const Domains: seq<string> := ["twitter.com", "x.com"]

  /** Case-insensitive recogniser; its host alternation is the domain list. */
  predicate MatchesUrl(url: string) {
    UrlPatterns.AnchoredHostMatch(Domains, true, url)
  }

  /** The tweet id from `<host>/<user>/status/<digits>`, else from
      `<host>/i/web/status/<digits>`. Case-sensitive. */
  function ExtractId(url: string): (r: Option<string>)
    ensures r.Some? ==> IsDigits(r.value)
    ensures Search(TweetStatus, url, 0).Some? ==> r == Some(Search(TweetStatus, url, 0).value[0])
    ensures Search(TweetStatus, url, 0).None? && Search(TweetWebStatus, url, 0).Some? ==>
      r == Some(Search(TweetWebStatus, url, 0).value[0])
    ensures r.None? <==> Search(TweetStatus, url, 0).None? && Search(TweetWebStatus, url, 0).None?
  {
    match Search(TweetStatus, url, 0)
    case Some(g) => Some(g[0])
    case None =>
      match Search(TweetWebStatus, url, 0)
      case Some(g) => Some(g[0])
      case None => None
  }

  const Scheme: string := "https://"
  const Host: string := "twitter.com/"
  const WebPath: string := "i/web/status/"
  const Canonical: string := "https://twitter.com/i/web/status/"

  /** `https://twitter.com/i/web/status/<id>`. */
  function CanonicalUrl(id: string): string {
    Scheme + Host + WebPath + id
  }

  /** The canonical status URL for a tweet id, always on twitter.com: a
      URL the recogniser accepts and from which extraction gives the id
      back. */
  function ReconstructUrl(id: string): (r: string)
    ensures IsDigits(id) ==> ExtractId(r) == Some(id) && MatchesUrl(r)
  {
    if IsDigits(id) then
      ExtractIdOfCanonicalUrl(id);
      MatchesCanonicalUrl(id);
      CanonicalUrl(id)
    else
      CanonicalUrl(id)
  }

  /** `(twitter.com|x.com)/` cannot start at `k` when the character there is
      neither `t` nor `x`, or is a `t` not followed by `w`. */
  lemma NoTwitterHostAt(s: string, k: nat)
    requires k < |s|
    requires (s[k] != 't' && s[k] != 'x') || (s[k] == 't' && k + 1 < |s| && s[k + 1] != 'w')
    ensures TwitterHostEnd(s, k).None?
  {
    assert s[k..][0] == s[k];
    if k + 1 < |s| {
      assert s[k..][1] == s[k + 1];
    }
  }

  lemma CanonicalHasNoStatusHost(s: string, id: string)
    requires IsDigits(id) && s == CanonicalUrl(id)
    ensures forall k :: 0 <= k <= |s| && k != 8 ==> TwitterHostEnd(s, k).None?
  {
    assert s == Canonical + id;
    forall k | 0 <= k <= |s| && k != 8
      ensures TwitterHostEnd(s, k).None?
    {
      if k < |Canonical| - 1 {
        assert s[k] == Canonical[k] && s[k + 1] == Canonical[k + 1];
        NoTwitterHostAt(s, k);
      } else if k < |s| {
        assert IsDigit(s[k]) || s[k] == '/';
        NoTwitterHostAt(s, k);
      }
    }
  }

  lemma CanonicalMatches(s: string, id: string)
    requires IsDigits(id) && s == CanonicalUrl(id)
    ensures MatchAt(TweetStatus, s, 8).None?
    ensures MatchAt(TweetWebStatus, s, 8) == Some([id])
  {
    CanonicalHostEnd(s, id);
    CanonicalStatusFails(s, id);
    CanonicalWebPath(s, id);
  }

  lemma CanonicalHostEnd(s: string, id: string)
    requires s == CanonicalUrl(id)
    ensures TwitterHostEnd(s, 8) == Some(20)
  {
    assert s == Scheme + (Host + (WebPath + id));
    assert s[8..] == Host + (WebPath + id);
  }

  lemma CanonicalStatusFails(s: string, id: string)
    requires s == CanonicalUrl(id)
    ensures RunEnd(Word, s, 20) == 21
    ensures !StartsWith(s[21..], "/status/")
  {
    assert s == Canonical + id;
    assert s[20] == 'i' && s[21] == '/' && s[22] == 'w';
    RunEndAt(Word, s, 20, 21);
    assert s[21..][1] == s[22];
  }

  lemma CanonicalWebPath(s: string, id: string)
    requires IsDigits(id) && s == CanonicalUrl(id)
    ensures StartsWith(s[20..], "i/web/status/")
    ensures DigitsAt(s, 33) == Some(id)
  {
    assert s == (Scheme + Host) + (WebPath + id);
    assert s[20..] == WebPath + id;
    assert s[33..] == id;
    DigitsAtEnd(s, 33);
  }

  /** Rebuilding the canonical URL from an id and extracting again gives the
      id back. */
  lemma ExtractIdOfCanonicalUrl(id: string)
    requires IsDigits(id)
    ensures ExtractId(CanonicalUrl(id)) == Some(id)
  {
    var s := CanonicalUrl(id);
    CanonicalHasNoStatusHost(s, id);
    CanonicalMatches(s, id);
    assert forall k :: 0 <= k <= |s| ==> MatchAt(TweetStatus, s, k).None?;
    SearchFinds(TweetWebStatus, s, 0, 8);
  }

  /** The canonical URL is recognised as a Twitter/X URL. */
  lemma MatchesCanonicalUrl(id: string)
    requires IsDigits(id)
    ensures MatchesUrl(CanonicalUrl(id))
  {
    var url := CanonicalUrl(id);
    assert url == (Scheme + Host) + (WebPath + id);
    LowerOfStable(Scheme + Host);
    assert '\n' !in WebPath + id by {
      assert forall i :: 0 <= i < |id| ==> (WebPath + id)[13 + i] == id[i];
    }
    UrlPatterns.AcceptsListedHost(Domains, true, url, Scheme + Host, WebPath + id, 4, 0);
  }

  /** `https://<host>/<user>/status/<id>`. */
  function StatusUrl(host: string, user: string, id: string): string {
    Scheme + host + "/" + user + "/status/" + id
  }

  predicate IsUserName(user: string) {
    |user| > 0 && forall i :: 0 <= i < |user| ==> IsWordChar(user[i])
  }

  predicate IsHost(host: string) {
    host == "twitter.com" || host == "x.com"
  }

  /** A status URL on either host yields the id. */
  lemma ExtractIdOfStatusUrl(host: string, user: string, id: string)
    requires IsHost(host) && IsUserName(user) && IsDigits(id)
    ensures ExtractId(StatusUrl(host, user, id)) == Some(id)
  {
    var s := StatusUrl(host, user, id);
    StatusUrlScheme(s, host, user, id);
    StatusUrlMatch(s, host, user, id);
    SearchFinds(TweetStatus, s, 0, 8);
  }

  lemma StatusUrlScheme(s: string, host: string, user: string, id: string)
    requires s == StatusUrl(host, user, id) && IsHost(host)
    ensures forall k :: 0 <= k < 8 ==> MatchAt(TweetStatus, s, k).None?
  {
    assert s == Scheme + (host + "/" + user + "/status/" + id);
    forall k | 0 <= k < 8
      ensures TwitterHostEnd(s, k).None?
    {
      assert s[k] == Scheme[k];
      if k < 7 {
        assert s[k + 1] == Scheme[k + 1];
      }
      NoTwitterHostAt(s, k);
    }
  }

  lemma StatusUrlMatch(s: string, host: string, user: string, id: string)
    requires s == StatusUrl(host, user, id)
    requires IsHost(host) && IsUserName(user) && IsDigits(id)
    ensures MatchAt(TweetStatus, s, 8) == Some([id])
  {
    var t := 8 + |host| + 1;
    var e := t + |user|;
    StatusUrlHostEnd(s, host, user, id);
    assert s == (Scheme + host + "/") + (user + ("/status/" + id));
    assert s[t..] == user + ("/status/" + id);
    assert forall i :: t <= i < e ==> s[i] == user[i - t];
    assert s[e..] == "/status/" + id;
    assert s[e] == '/';
    RunEndAt(Word, s, t, e);
    assert s[e + 8..] == id;
    DigitsAtEnd(s, e + 8);
  }

  lemma StatusUrlHostEnd(s: string, host: string, user: string, id: string)
    requires s == StatusUrl(host, user, id) && IsHost(host)
    ensures TwitterHostEnd(s, 8) == Some(8 + |host| + 1)
  {
    assert s == Scheme + ((host + "/") + (user + "/status/" + id));
    assert s[8..] == (host + "/") + (user + "/status/" + id);
    assert StartsWith(s[8..], host + "/");
    if host == "x.com" {
      assert s[8..][0] == 'x';
    }
  }

  /** A status URL on x.com and its canonical twitter.com form yield the
      same id. */
  lemma XComCanonicalisedToTwitter(user: string, id: string)
    requires IsUserName(user) && IsDigits(id)
    ensures ExtractId(StatusUrl("x.com", user, id)) == ExtractId(ReconstructUrl(id)) == Some(id)
  {
    ExtractIdOfStatusUrl("x.com", user, id);
    ExtractIdOfCanonicalUrl(id);
  }
}
