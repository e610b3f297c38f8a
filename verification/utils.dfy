/** The older YouTube URL check: the same anchored shape as the YouTube
    recogniser, but compiled without IGNORECASE. */
module Utils {
  import opened Text
  import UrlPatterns
  import YouTubePlatform
  import IdPatterns

  /** `is_valid_youtube_url`: case-sensitive `^(https?://)?(www\.)?(youtube\.com|youtu\.?be)/.+$`. */
  predicate IsValidYouTubeUrl(url: string) {
    UrlPatterns.AnchoredHostMatch(YouTubePlatform.MatchHosts, false, url)
  }

  /** Every URL the case-sensitive check accepts is recognised as YouTube. */
  lemma ValidYouTubeUrlIsRecognised(url: string)
    requires IsValidYouTubeUrl(url)
    ensures YouTubePlatform.MatchesUrl(url)
  {
    UrlPatterns.CaseSensitiveMatchIsInsensitive(YouTubePlatform.MatchHosts, url);
  }

  /** The converse fails: the upper-cased watch URL is recognised as YouTube
      but is not a valid YouTube URL, for want of a lower-case `y`. */
  lemma UpperCaseUrlNotValid(id: string)
    requires IdPatterns.IsVideoId(id)
    ensures YouTubePlatform.MatchesUrl(Upper(YouTubePlatform.ReconstructUrl(id)))
    ensures !IsValidYouTubeUrl(Upper(YouTubePlatform.ReconstructUrl(id)))
  {
    var url := Upper(YouTubePlatform.ReconstructUrl(id));
    YouTubePlatform.UpperCaseUrlRecognisedWithoutId(id);
    NoLowerAfterUpper(YouTubePlatform.ReconstructUrl(id), 'y');
    assert YouTubePlatform.MatchHosts[0][0] == 'y';
    assert YouTubePlatform.MatchHosts[1][0] == 'y';
    assert YouTubePlatform.MatchHosts[2][0] == 'y';
    UrlPatterns.MatchNeedsHostChar(YouTubePlatform.MatchHosts, url, 'y');
  }

  /** The canonical watch URL is valid. */
  lemma ReconstructUrlIsValid(id: string)
    requires IdPatterns.IsVideoId(id)
    ensures IsValidYouTubeUrl(YouTubePlatform.ReconstructUrl(id))
  {
    assert YouTubePlatform.ReconstructUrl(id) == YouTubePlatform.WatchUrl(id);
    WatchUrlIsValid(id);
  }

  lemma WatchUrlIsValid(id: string)
    requires IdPatterns.IsVideoId(id)
    ensures IsValidYouTubeUrl(YouTubePlatform.WatchUrl(id))
  {
    var url := YouTubePlatform.WatchUrl(id);
    var head := YouTubePlatform.Scheme + YouTubePlatform.Host;
    var rest := YouTubePlatform.Watch + id;
    assert url == head + rest;
    assert head == UrlPatterns.Prefixes[5] + YouTubePlatform.MatchHosts[0] + "/";
    assert '\n' !in rest by {
      assert forall i :: 0 <= i < |id| ==> rest[8 + i] == id[i];
    }
    UrlPatterns.AcceptsListedHost(YouTubePlatform.MatchHosts, false, url, head, rest, 5, 0);
  }

  /** At least one character must follow the slash after the host. */
  lemma BareHostNotValid(prefix: nat, k: nat)
    requires prefix < |UrlPatterns.Prefixes| && k < |YouTubePlatform.MatchHosts|
    ensures !IsValidYouTubeUrl(UrlPatterns.Prefixes[prefix] + YouTubePlatform.MatchHosts[k] + "/")
  {
    UrlPatterns.BareHostRejected(YouTubePlatform.MatchHosts, false, prefix, k);
  }
}
