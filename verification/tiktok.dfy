/** The TikTok platform: its URL recogniser and the extraction of the
    account handle and video id. TikTok offers no id extraction for
    callback payloads, so its URLs are passed on whole. */
module TikTokPlatform {
  import opened Wrappers
  import opened Text
  import opened IdPatterns
  import UrlPatterns

  const Name: string := "TikTok"
  const Domains: seq<string> := ["tiktok.com"]

  predicate MatchesUrl(url: string) {
    UrlPatterns.AnchoredHostMatch(Domains, true, url)
  }

  /** A handle as `[\w.-]+` matches it. */
  predicate IsHandle(user: string) {
    |user| > 0 && forall i :: 0 <= i < |user| ==> InClass(HandleChar, user[i])
  }

  /** `(username, video_id)` from `tiktok.com/@<handle>/video/<digits>`,
      searched case-sensitively. */
  function ExtractVideoInfo(url: string): (r: Option<(string, string)>)
    ensures r.Some? ==> IsHandle(r.value.0) && IsDigits(r.value.1)
    ensures r.None? <==> Search(TikTokVideo, url, 0).None?
  {
    match Search(TikTokVideo, url, 0)
    case Some(g) =>
      assert IsHandle(g[0]) && IsDigits(g[1]) by {
        var k :| 0 <= k <= |url| && MatchAt(TikTokVideo, url, k) == Some(g);
        HandleGroup(url, k);
      }
      Some((g[0], g[1]))
    case None => None
  }

  lemma HandleGroup(s: string, j: nat)
    requires j <= |s| && MatchAt(TikTokVideo, s, j).Some?
    ensures IsHandle(MatchAt(TikTokVideo, s, j).value[0])
    ensures IsDigits(MatchAt(TikTokVideo, s, j).value[1])
  {
    var u := RunEnd(HandleChar, s, j + 12);
    var handle := s[j + 12..u];
    assert MatchAt(TikTokVideo, s, j).value[0] == handle;
    assert forall i :: 0 <= i < |handle| ==> handle[i] == s[j + 12 + i];
  }

  const Scheme: string := "https://www."
  const Host: string := "tiktok.com/@"

  /** `https://www.tiktok.com/@<handle>/video/<id>`. */
  function VideoUrl(user: string, id: string): string {
    Scheme + Host + user + "/video/" + id
  }

  /** The handle and id are read back from the canonical video URL. */
  lemma ExtractVideoInfoOfVideoUrl(user: string, id: string)
    requires IsHandle(user) && IsDigits(id)
    ensures ExtractVideoInfo(VideoUrl(user, id)) == Some((user, id))
  {
    var s := VideoUrl(user, id);
    VideoUrlScheme(s, user, id);
    VideoUrlMatch(s, user, id);
    SearchFinds(TikTokVideo, s, 0, 12);
  }

  lemma VideoUrlScheme(s: string, user: string, id: string)
    requires s == VideoUrl(user, id)
    ensures forall k :: 0 <= k < 12 ==> MatchAt(TikTokVideo, s, k).None?
  {
    assert s == Scheme + (Host + user + "/video/" + id);
    forall k | 0 <= k < 12
      ensures !StartsWith(s[k..], "tiktok.com/@")
    {
      assert s[k] == Scheme[k] && s[k + 1] == (Scheme + Host)[k + 1];
      assert s[k..][0] == s[k] && s[k..][1] == s[k + 1];
    }
  }

  lemma VideoUrlMatch(s: string, user: string, id: string)
    requires s == VideoUrl(user, id)
    requires IsHandle(user) && IsDigits(id)
    ensures MatchAt(TikTokVideo, s, 12) == Some([user, id])
  {
    var e := 24 + |user|;
    assert s == (Scheme + Host) + (user + ("/video/" + id));
    assert StartsWith(s[12..], "tiktok.com/@");
    assert forall i :: 24 <= i < e ==> s[i] == user[i - 24];
    assert s[24..e] == user;
    assert s[e..] == "/video/" + id;
    assert s[e] == '/';
    RunEndAt(HandleChar, s, 24, e);
    assert s[e + 7..] == id;
    DigitsAtEnd(s, e + 7);
  }

  /** The canonical video URL is recognised as a TikTok URL. */
  lemma MatchesVideoUrl(user: string, id: string)
    requires IsHandle(user) && IsDigits(id)
    ensures MatchesUrl(VideoUrl(user, id))
  {
    var url := VideoUrl(user, id);
    var rest := "@" + user + "/video/" + id;
    assert url == (Scheme + "tiktok.com/") + rest;
    LowerOfStable(Scheme + "tiktok.com/");
    assert '\n' !in rest by {
      assert forall i :: 0 <= i < |rest| ==> rest[i] != '\n' by {
        assert rest == "@" + (user + ("/video/" + id));
        forall i | 0 <= i < |rest| ensures rest[i] != '\n' {
          if 1 <= i < 1 + |user| {
            assert rest[i] == user[i - 1];
          } else if i >= 8 + |user| {
            assert rest[i] == id[i - 8 - |user|];
          }
        }
      }
    }
    UrlPatterns.AcceptsListedHost(Domains, true, url, Scheme + "tiktok.com/", rest, 5, 0);
  }
}
