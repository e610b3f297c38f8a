# foxy_fetch media bot — a Dafny model of its request lifecycle

foxy_fetch is a Telegram bot. A user sends a link; the bot works out which
platform the link belongs to, offers a keyboard of download formats, and
downloads the chosen format with yt-dlp. It optionally turns the download
into a GIF with ffmpeg, uploads the result if it fits Telegram's size limit,
records the status of every download, and deletes the temporary file. Admins
can also browse usage statistics through a menu of buttons.

This project models that logic as pure Dafny functions and proves properties
of it. The outside world becomes plain data:

- the filesystem is a `set<string>` of existing paths (`FileSystem.FileSet`);
- yt-dlp, ffmpeg, Telegram and database outcomes are function parameters
  (`YtDlp.Extraction`, `GifConverter.FfmpegRun`, `DownloadFlow.World`, ...);
- everything the bot persists or shows is a sequence of `Trace.Effect`
  values, so "persists a terminal status exactly once" and
  "uploads at most once" are predicates over that sequence.

Modules follow the program's structure:

| module | file | models |
|---|---|---|
| `Text`, `Wrappers`, `Errors`, `YtDlp` | text.dfy, wrappers.dfy, errors.dfy, yt_dlp.dfy | string helpers, `Option`/`Result`, the bot's exception classes, the shape of yt-dlp's info dictionary |
| `UrlPatterns`, `IdPatterns` | url_patterns.dfy, id_patterns.dfy | the anchored `^(https?://)?(www\.)?(hosts)/.+$` recognisers, and the unanchored id-extraction searches |
| `YouTubePlatform`, `TwitterPlatform`, `TikTokPlatform`, `Platforms` | youtube.dfy, twitter.dfy, tiktok.dfy, platforms.dfy | bot/platforms/*: the twelve recognisers, the registry and its first-match resolution |
| `Helpers`, `Utils`, `FileSystem` | helpers.dfy, utils.dfy, file_system.dfy | bot/helpers.py, bot/utils.py, path handling |
| `Keyboards`, `CallbackParsing` | keyboards.dfy, callback_parsing.dfy | the callback data the keyboards carry and the parsers that read it back |
| `QualityOptions` | quality_options.dfy | `process_formats`: filter, keep the best format per height, sort |
| `MediaDownloader`, `LegacyDownloader` | media_downloader.dfy, legacy_downloader.dfy | format selection, output-path resolution and error wrapping of both downloader generations |
| `GifConverter` | gif_converter.dfy | the two-pass ffmpeg conversion and its cleanup |
| `StatusUpdater` | status_updater.dfy | the progress-message throttle |
| `Trace`, `Service`, `DownloadFlow` | trace.dfy, youtube_service.dfy, download_flow.dfy | the service's status trace and the current download callback |
| `StatsCallbacks` | stats_callbacks.dfy | admin gate, stats menus and statistic texts |
| `LegacyHandlers`, `LegacyCallback` | legacy_handlers.dfy, legacy_callback.dfy | the older bot/handlers.py and bot/handlers/callback_handlers.py flows |

## Model

| member | source | states |
|---|---|---|
| Platforms.Priority | bot/platforms/__init__.py:16-29 | every platform has a position in the registry, and that position holds it (YouTube, TikTok, Twitter/X, Instagram, Facebook, Vimeo, Dailymotion, Twitch, Reddit, Streamable, Imgur, Generic) |
| Platforms.MatchHosts | bot/platforms/youtube.py:17 | the host alternation equals the domain list for every platform but YouTube, whose `youtu\.?be` adds the bare `youtube` |
| Platforms.ExtractId | bot/platforms/base.py:25-27 | platforms without id support return None; YouTube and Twitter/X use their own extractors |
| Platforms.ReconstructUrl | bot/platforms/base.py:29-31 | the default is the identity on the id; YouTube and Twitter/X build their canonical URLs |
| Platforms.ShortName | bot/platforms/base.py:33-35 | the short name has the display name's length; each character is `_` where the name has `/` or a space, and the lower-cased character otherwise |
| Platforms.ShortNames | bot/platforms/base.py:33-35 | the twelve short names, e.g. "Twitter/X" gives "twitter_x" and "Video Platform" gives "video_platform" |
| Platforms.SpecificShortNames | bot/platforms/base.py:33-35 | the short names of the first six registry entries |
| Platforms.LaterShortNames | bot/platforms/base.py:33-35 | the short names of the last six registry entries |
| Platforms.ShortNamesDistinct | bot/platforms/base.py:33-35 | short names are lower-case and identify their platform uniquely |
| Platforms.FirstMatch | bot/platforms/__init__.py:31-35 | returns the first platform in the list that matches, and None exactly when none matches |
| Platforms.GetPlatformForUrl | bot/platforms/__init__.py:31-36 | the resolved platform matches the URL and every platform before it in the registry does not |
| Platforms.FallbackUnreachable | bot/platforms/__init__.py:28-36 | the registry loop always finds a platform (Generic is last and matches all), so the fallback return is never reached |
| Platforms.SpecificListsNonGeneric | bot/platforms/__init__.py:16-43 | the registry is the specific platforms followed by Generic, and `PLATFORMS[:-1]` holds every other platform |
| Platforms.SupportedIffSpecific | bot/platforms/__init__.py:38-43 | a URL is supported iff some non-generic platform matches it |
| Platforms.SupportedIffNotGeneric | bot/platforms/__init__.py:31-43 | a URL is supported iff it does not resolve to the generic platform |
| Platforms.HostsAreBare | bot/platforms/base.py:41-45 | no recogniser host contains `/` or `:` |
| Platforms.FirstHostsBare | bot/platforms/base.py:41-45 | the same, for YouTube, TikTok, Twitter/X and Instagram |
| Platforms.LaterHostsBare | bot/platforms/base.py:41-45 | the same, for the remaining platforms |
| Platforms.HostsAreLowerCase | bot/platforms/base.py:41-45 | every recogniser host is unchanged by lower-casing, so matching with IGNORECASE is matching the lower-cased URL |
| Platforms.FirstHostsLowerCase | bot/platforms/base.py:41-45 | the same, for the first four platforms |
| Platforms.LaterHostsLowerCase | bot/platforms/base.py:41-45 | the same, for the remaining platforms |
| Platforms.BareHostRejected | bot/platforms/facebook.py:14-18 | for every non-generic platform, a scheme/`www.` prefix, a listed host and a slash with nothing after it is rejected |
| Platforms.AcceptsOwnHost | bot/platforms/base.py:41-45 | for every non-generic platform, each of the six prefixes, each listed host, a slash and a non-empty rest of line is accepted |
| Platforms.SubdomainRejected | bot/platforms/instagram.py:14-18 | a non-`www` label before the host is rejected when no listed host starts with that label |
| Platforms.MobileSubdomainRejected | bot/platforms/facebook.py:14-18 | `m.` URLs are rejected by Facebook, Instagram, Dailymotion and Streamable |
| Platforms.MobileRejectedBy | bot/platforms/dailymotion.py:14-18 | each of those four platforms rejects an `m.` URL |
| Platforms.PlayerSubdomainRejected | bot/platforms/vimeo.py:14-18 | Vimeo rejects `player.` URLs |
| Platforms.ClipsSubdomainRejected | bot/platforms/twitch.py:14-18 | Twitch rejects `clips.` URLs |
| Platforms.RedditSubdomainsRejected | bot/platforms/reddit.py:14-18 | Reddit rejects `old.` and `v.` URLs |
| Platforms.ImageSubdomainRejected | bot/platforms/imgur.py:14-18 | Imgur rejects `i.` URLs |
| Platforms.BareYoutubeHostAccepted | bot/platforms/youtube.py:15-19 | `youtube/<rest>` is accepted although `youtube` is not a listed domain, because `youtu\.?be` matches it |
| UrlPatterns.LowerKeepsRestOfLine | bot/platforms/base.py:44-45 | lower-casing keeps a `.+$` tail a valid tail |
| UrlPatterns.AcceptsListedHost | bot/platforms/base.py:41-45 | a URL made of a prefix, a listed host, a slash and a non-empty rest of line matches, with or without IGNORECASE |
| UrlPatterns.AnyPrefixWitness | bot/platforms/base.py:44 | a match uses one of the six prefixes `""`, `www.`, `http://`, `http://www.`, `https://`, `https://www.` |
| UrlPatterns.MatchedHead | bot/platforms/base.py:44 | every match has a prefix, a host from the list, a slash and a non-empty rest of line |
| UrlPatterns.CaseSensitiveMatchIsInsensitive | bot/utils.py:8-14 | with lower-case hosts, a case-sensitive match is also a case-insensitive match |
| UrlPatterns.MatchNeedsHostChar | bot/utils.py:8-14 | a character common to every host must appear in any case-sensitive match |
| UrlPatterns.NoShorterHead | bot/platforms/base.py:44 | `prefix + host + "/"` with nothing after it cannot be matched by any other prefix and host |
| UrlPatterns.SchemeBlocksBareHost | bot/platforms/base.py:44 | a URL that starts with a scheme cannot be read as a scheme-less host |
| UrlPatterns.BareHostRejected | bot/platforms/base.py:44 | `.+` after the slash needs a character: a prefix, a listed host and a slash alone never match |
| UrlPatterns.SubdomainRejected | bot/platforms/base.py:44 | after an optional scheme, a label other than `www` followed by a dot is rejected unless some host starts with that label |
| IdPatterns.RunEnd | bot/platforms/twitter.py:24 | the greedy end of a `\w+`/`\d+` run: every character before it is in the class and the next one is not |
| IdPatterns.VideoIdAt | bot/platforms/youtube.py:24-25 | `([0-9A-Za-z_-]{11})(?:[?&]|$)` at a position: the 11 characters form an id and are followed by `?`, `&`, the end, or a final newline, and None exactly when they do not |
| IdPatterns.DigitsAt | bot/platforms/twitter.py:24-25 | `(\d+)` at a position: a maximal non-empty digit run, and None exactly when no digit is there |
| IdPatterns.DigitsAtEnd | bot/platforms/twitter.py:24-25 | a digit run that reaches the end of the string is taken whole |
| IdPatterns.LastAttribution | bot/platforms/youtube.py:24 | the greedy `.*&u=/watch?v%3D` takes the last `&u=` occurrence whose id matches, and reports none only if no occurrence yields an id |
| IdPatterns.YouTubePathId | bot/platforms/youtube.py:24 | an id read after the youtube.com path alternation is an 11-character id |
| IdPatterns.MatchAt | bot/platforms/youtube.py:24-25 | a match at a position starts at the pattern's host literal, has the pattern's number of groups, and yields digits for tweets and 11-character ids for YouTube |
| IdPatterns.Search | bot/platforms/youtube.py:27-30 | `re.search` takes the leftmost position that matches, and finds nothing only when no position matches |
| IdPatterns.SearchNoHost | bot/platforms/twitter.py:24-28 | without the host literal anywhere, the search finds nothing |
| YouTubePlatform.ExtractId | bot/platforms/youtube.py:21-31 | a found id is an 11-character id after a youtube host; the long pattern's group is returned when it matches anywhere, otherwise the `youtu.be/` pattern's group when that matches; None iff neither pattern finds a match |
| YouTubePlatform.ReconstructUrl | bot/platforms/youtube.py:15-35 | round trip: the URL built for an 11-character id is recognised as YouTube and extraction gives the id back; for a token over the id alphabet of any other length extraction finds nothing |
| YouTubePlatform.ExtractIdOfShortUrl | bot/platforms/youtube.py:25-30 | extracting from the short link `https://youtu.be/<id>` gives back every 11-character id: the long pattern finds nothing there and the short one matches at the host |
| YouTubePlatform.ShortUrlDots | bot/platforms/youtube.py:25 | the only dot of a short link is the one in `youtu.be`, so no other host literal fits |
| YouTubePlatform.ExtractIdOfWatchUrl | bot/platforms/youtube.py:24-35 | extracting from `https://www.youtube.com/watch?v=<id>` gives back every 11-character id |
| YouTubePlatform.NoHostInScheme | bot/platforms/youtube.py:24-35 | no match of the long pattern starts inside `https://www.` |
| YouTubePlatform.WatchPathAtHost | bot/platforms/youtube.py:24-35 | the long pattern matched at the host of a watch URL yields the id |
| YouTubePlatform.WatchUrlDots | bot/platforms/youtube.py:35 | the reconstructed URL has dots only at positions 11 and 19 |
| YouTubePlatform.WatchUrlHosts | bot/platforms/youtube.py:24-35 | in a reconstructed URL the youtube.com literal occurs only at position 12, and youtu.be never occurs |
| YouTubePlatform.WatchUrlLongHost | bot/platforms/youtube.py:24-35 | the youtube.com literal occurs only at position 12 |
| YouTubePlatform.WatchUrlNoShortHost | bot/platforms/youtube.py:25-35 | the youtu.be literal never occurs |
| YouTubePlatform.WrongLengthIdRejected | bot/platforms/youtube.py:24-35 | a token over the id alphabet that is not 11 characters long does not survive the round trip: extraction returns None |
| YouTubePlatform.WrongLengthNoMatchAtHost | bot/platforms/youtube.py:24 | such a token gives no match at the host |
| YouTubePlatform.ExtractIdOfReconstructUrlIff | bot/platforms/youtube.py:24-35 | for a token over the id alphabet, the round trip gives it back iff it is 11 characters long |
| YouTubePlatform.MatchesWatchUrl | bot/platforms/youtube.py:15-35 | the reconstructed URL is recognised as YouTube |
| YouTubePlatform.NoIdWithoutLowerY | bot/platforms/youtube.py:24-25 | extraction is case-sensitive: a URL without a lower-case `y` yields no id |
| YouTubePlatform.UpperCaseUrlRecognisedWithoutId | bot/platforms/youtube.py:17-25 | the upper-cased watch URL is recognised, yet no id is extracted from it |
| TwitterPlatform.ExtractId | bot/platforms/twitter.py:21-31 | a found id is a digit string; the `<user>/status/` pattern's group is returned when it matches anywhere, otherwise the `i/web/status/` pattern's group when that matches; None iff neither pattern matches |
| TwitterPlatform.ReconstructUrl | bot/platforms/twitter.py:15-35 | round trip: the URL built for a non-empty digit string is recognised as Twitter/X and extraction gives the id back |
| TwitterPlatform.NoTwitterHostAt | bot/platforms/twitter.py:24 | no host literal starts at a character other than `t`/`x` |
| TwitterPlatform.CanonicalHasNoStatusHost | bot/platforms/twitter.py:24-35 | in the canonical URL a host occurs only at position 8 |
| TwitterPlatform.CanonicalMatches | bot/platforms/twitter.py:24-35 | on the canonical URL the first pattern fails at the host (`i` is followed by `/web`, not `/status`) and the second yields the id |
| TwitterPlatform.CanonicalHostEnd | bot/platforms/twitter.py:35 | the canonical host ends at position 20 |
| TwitterPlatform.CanonicalStatusFails | bot/platforms/twitter.py:24-35 | `\w+` after the host takes `i`, and `/status/` does not follow |
| TwitterPlatform.CanonicalWebPath | bot/platforms/twitter.py:25-35 | after the host comes `i/web/status/` and then the id's digit run |
| TwitterPlatform.ExtractIdOfCanonicalUrl | bot/platforms/twitter.py:26-35 | every non-empty digit string is extracted back from `https://twitter.com/i/web/status/<id>` |
| TwitterPlatform.MatchesCanonicalUrl | bot/platforms/twitter.py:15-35 | the canonical URL is recognised as Twitter/X |
| TwitterPlatform.ExtractIdOfStatusUrl | bot/platforms/twitter.py:24-30 | `https://<twitter.com or x.com>/<user>/status/<digits>` yields the digits |
| TwitterPlatform.StatusUrlScheme | bot/platforms/twitter.py:24 | no match starts inside the scheme |
| TwitterPlatform.StatusUrlMatch | bot/platforms/twitter.py:24 | the status pattern at the host yields the id |
| TwitterPlatform.StatusUrlHostEnd | bot/platforms/twitter.py:24 | the host of a status URL ends after its slash |
| TwitterPlatform.XComCanonicalisedToTwitter | bot/platforms/twitter.py:24-35 | an x.com status URL and its twitter.com reconstruction carry the same id |
| TikTokPlatform.ExtractVideoInfo | bot/platforms/tiktok.py:21-30 | a found pair is a `[\w.-]+` handle and a digit id, and None iff the pattern occurs nowhere |
| TikTokPlatform.HandleGroup | bot/platforms/tiktok.py:23 | a match's first group is a handle and its second a digit string |
| TikTokPlatform.ExtractVideoInfoOfVideoUrl | bot/platforms/tiktok.py:23-29 | round trip: `https://www.tiktok.com/@<handle>/video/<digits>` yields the handle and the digits |
| TikTokPlatform.VideoUrlScheme | bot/platforms/tiktok.py:23 | no match starts inside the scheme |
| TikTokPlatform.VideoUrlMatch | bot/platforms/tiktok.py:23 | the pattern at the host yields handle and id |
| TikTokPlatform.MatchesVideoUrl | bot/platforms/tiktok.py:15-19 | a video URL is recognised as TikTok |
| Helpers.GenericNameUnique | bot/platforms/generic.py:5-7 | only the generic platform is named "Video Platform" |
| Helpers.GetPlatformName | bot/helpers.py:13-19 | the name of the resolved platform, and "Video Platform" iff the URL is not supported |
| Helpers.ExtractPlatformId | bot/helpers.py:21-29 | None unless the resolved platform supports extraction; a YouTube id has 11 id characters and a tweet id is digits |
| Helpers.FindByShortName | bot/helpers.py:38-40 | the first platform whose short name equals the lower-cased name, and None iff there is none |
| Helpers.ReconstructUrlFromId | bot/helpers.py:31-43 | "youtube" and "twitter_x" (in any case) rebuild their canonical URLs; every other name returns the id unchanged |
| Helpers.YouTubeUrlResolves | bot/platforms/__init__.py:31-35 | a reconstructed YouTube URL resolves to YouTube |
| Helpers.TwitterUrlResolves | bot/platforms/__init__.py:31-35 | a reconstructed tweet URL resolves to Twitter/X, not to the earlier YouTube or TikTok |
| Helpers.YouTubeRejectsTwitterHost | bot/platforms/youtube.py:15-19 | YouTube rejects `https://twitter.<rest>` |
| Helpers.TikTokRejectsTwitterHost | bot/platforms/tiktok.py:15-19 | TikTok rejects `https://twitter.<rest>` |
| Helpers.YouTubePayloadRoundTrip | bot/helpers.py:21-43 | round trip: an id rebuilt under "youtube" is extracted back |
| Helpers.TwitterPayloadRoundTrip | bot/helpers.py:21-43 | round trip: a tweet id rebuilt under "twitter_x" is extracted back |
| Helpers.PlainTwitterNameNotRegistered | bot/helpers.py:38-43 | "twitter" is no short name (the short name is "twitter_x"), and TikTok has no reconstruction, so both return the id unchanged |
| Helpers.ExtractYouTubeVideoId | bot/helpers.py:45-54 | None whenever the YouTube recogniser rejects the URL; a found id agrees with `extract_platform_id` |
| Helpers.ExtractTikTokVideoInfo | bot/helpers.py:56-65 | None whenever the TikTok recogniser rejects the URL; a found pair is a handle and digits |
| Helpers.ExtractTwitterTweetId | bot/helpers.py:67-76 | None whenever the Twitter/X recogniser rejects the URL; a found id is digits |
| Helpers.LegacyExtractorsRoundTrip | bot/helpers.py:45-76 | the three legacy extractors read back the id, tweet and (handle, video) of their canonical URLs |
| Helpers.UpperCaseYouTubeUrlYieldsNoId | bot/helpers.py:45-54 | an upper-cased watch URL passes the case-insensitive gate but yields no id |
| Utils.ValidYouTubeUrlIsRecognised | bot/utils.py:8-14 | every URL the case-sensitive check accepts is recognised by the YouTube platform |
| Utils.UpperCaseUrlNotValid | bot/utils.py:8-14 | the check is case-sensitive: an upper-cased watch URL is recognised as YouTube but not valid |
| Utils.ReconstructUrlIsValid | bot/utils.py:8-14 | every reconstructed watch URL is valid |
| Utils.BareHostNotValid | bot/utils.py:9 | a host with nothing after its slash is not valid |
| Text.SplitOnce | bot/handlers/callback_handlers/utils.py:10 | `str.split(":", 1)` unpacked into two names: no pair exactly when the separator is absent; otherwise the head holds no separator and head, separator and tail rebuild the input |
| Text.SplitOnceOfJoin | bot/handlers/callback_handlers/utils.py:10 | joining a separator-free head and any tail with the separator splits back into the same two parts |
| FileSystem.SplitExt | bot/external/ffmpeg_processor.py:47 | `os.path.splitext`: root and extension rebuild the path, and the extension is empty or one dot followed by no dot and no slash |
| FileSystem.FirstExisting | bot/downloader.py:92-99 | the probe of the fallback extensions: the first extension, in list order, whose file exists, and None exactly when none does |
| FileSystem.CleanupFile | bot/helpers.py:78-87 | the path is gone afterwards and every other path is unchanged; there is no error path |
| FileSystem.CleanupFileIdempotent | bot/utils.py:16-25 | cleaning twice equals cleaning once, and cleaning an absent path changes nothing |
| Keyboards.FormatFilesize | bot/presentation/keyboard.py:11-16 | "" for a missing or zero size, `"<n> B"` below 1024, and None (the float branches) exactly for sizes of 1024 and more |
| Keyboards.FormatFilesizeReadsBack | bot/presentation/keyboard.py:13 | below 1024 the text is the decimal size and " B", and its digits read back as the size |
| Keyboards.Payload | bot/presentation/keyboard.py:25-35 | `"id:" + <11-character id>` when a YouTube id is extracted, and the URL verbatim otherwise |
| Keyboards.KeptOptions | bot/presentation/keyboard.py:48-60 | the resolution rows: heights are truthy, unused and pairwise distinct; every truthy unused height appears; each row carries the selector of the first option of its height |
| Keyboards.ResolutionButtons | bot/presentation/keyboard.py:53-58 | one button per kept row, with data `q_<selector>:<payload>` |
| Keyboards.QualityKeyboard | bot/presentation/keyboard.py:18-72 | at least three rows: the best option first (selector defaulting to "best"), then audio and GIF as the last two |
| Keyboards.KeyboardData | bot/presentation/keyboard.py:43-69 | every button's data is `q_<selector>:` followed by the same payload |
| Keyboards.IdPayloadFits | bot/presentation/keyboard.py:35-36 | with an id payload every button's data has length 17 + the selector's length, so selectors of at most 47 characters keep all data within Telegram's 64 bytes |
| Keyboards.ProcessedOptionsShown | bot/presentation/keyboard.py:48-60 | every processed option whose height is non-zero and differs from the best option's height gets a button |
| Keyboards.StatsMainMenu | bot/presentation/keyboard.py:76-88 | two rows of two buttons |
| Keyboards.SubmenuActions | bot/presentation/keyboard.py:95-105 | users has 3 statistics, interactions 2, downloads 3, and any other menu none |
| Keyboards.StatsSubmenu | bot/presentation/keyboard.py:90-106 | the menu's statistics as `stats_show:<action>` buttons, followed by the back button, which is always last |
| Keyboards.DownloadOptionsKeyboard | bot/keyboard.py:3-16 | exactly three rows, video_audio, video_only and audio_only, each with data `download_<choice>:<url>` and the URL verbatim |
| Keyboards.LegacyDataUnbounded | bot/keyboard.py:7 | no length bound is applied: a URL longer than 64 characters makes every button's data exceed the limit |
| CallbackParsing.ParseQualityCallback | bot/handlers/callback_handlers/utils.py:7-29 | None without a `:` or a `q_` prefix; on success the selector has no `:`, the data is `q_<selector>:<payload>`, and the URL is what the payload resolver returned; a resolver failure is None. The resolver is a parameter: utils.py:3 imports `resolve_callback_payload` from bot/presentation/keyboard.py, which defines no such function |
| CallbackParsing.ParseQualityData | bot/handlers/callback_handlers/utils.py:10-22 | inverse of the builder: `q_<selector>:<payload>` parses to the selector and the resolved payload, or None when the resolver fails |
| CallbackParsing.QualityKeyboardRoundTrip | bot/presentation/keyboard.py:43-69 | every button of the quality keyboard parses back to its selector and the resolved payload |
| CallbackParsing.ParseRawQualityCallback | bot/handlers/callback_handlers.py:31-39 | the older parser accepts exactly the data the newer one accepts with a resolver that changes nothing, and returns the same pair |
| CallbackParsing.RawParseKeepsIdPayload | bot/handlers/callback_handlers.py:31-36 | the older parser keeps an `id:<video id>` payload verbatim instead of resolving it |
| CallbackParsing.ParseStatsCallback | bot/handlers/callback_handlers/utils.py:31-40 | None without a `:`; on success the prefix is `stats_menu` or `stats_show` and the data is `<prefix>:<action>` |
| CallbackParsing.ParseStatsData | bot/handlers/callback_handlers.py:41-48 | `<prefix>:<action>` parses to the pair iff the prefix is one of the two accepted ones |
| CallbackParsing.StatsMainMenuParses | bot/presentation/keyboard.py:76-88 | each main-menu button parses to its menu or to the summary |
| CallbackParsing.StatsSubmenuParses | bot/presentation/keyboard.py:90-106 | each submenu button parses to `stats_show` and its action, and the back button to `stats_menu:main` |
| CallbackParsing.ParseLegacyDownload | bot/handlers.py:131-143 | no `:` is an invalid request; an accepted action starts with `download_`; the only errors are the invalid-request and unknown-action texts |
| CallbackParsing.ParseLegacyData | bot/handlers.py:131-143 | a `download_` action without `:` parses to the action with every `download_` removed, and the URL |
| CallbackParsing.ParseLegacyChoice | bot/handlers.py:131-143 | `download_<choice>:<url>` gives back the choice when it holds no `:` and no `w` |
| CallbackParsing.LegacyKeyboardRoundTrip | bot/keyboard.py:7-13 | every button of the three-choice keyboard parses back to its choice and the URL, whatever the URL contains |
| CallbackParsing.LegacyChoiceDropsRepeats | bot/handlers.py:143 | the choice removes every `download_`, not only the prefix: `download_download_<c>` also gives `<c>` |
| QualityOptions.FindHeight | bot/handlers/message_handlers.py:38-39 | the dictionary lookup by height: a found position holds that height, and None means no option has it |
| QualityOptions.InsertDesc | bot/handlers/message_handlers.py:46 | inserting into a strictly descending list keeps it strictly descending and holds exactly the old elements and the new one |
| QualityOptions.SortDesc | bot/handlers/message_handlers.py:45-46 | `sorted(..., reverse=True)` by height: the result is strictly descending, as long as the input, and holds the same options |
| QualityOptions.Absorb | bot/handlers/message_handlers.py:33-39 | a non-qualifying format changes nothing; a qualifying one lands in its height's slot (appended when the height is new), with at least its preference there, every other slot unchanged, and an equal-or-worse format leaves the dictionary as it was |
| QualityOptions.AbsorbStep | bot/handlers/message_handlers.py:32-39 | one loop iteration keeps the summary invariant: distinct heights, `h<height>` selectors at heights of at least 240, each option the best of its height, and every qualifying format's height present |
| QualityOptions.SkipStep | bot/handlers/message_handlers.py:33-35 | a format skipped by the vcodec, height or codec filters keeps the invariant |
| QualityOptions.NewHeightStep | bot/handlers/message_handlers.py:39 | a format of a new height, added as a fresh entry, keeps the invariant |
| QualityOptions.BetterStep | bot/handlers/message_handlers.py:39 | a format with a strictly greater preference replaces its height's entry and keeps the invariant |
| QualityOptions.UpdateBest | bot/handlers/message_handlers.py:40-42 | the best-format tracker still points at an entry of the greatest height after each format |
| QualityOptions.SortedSummary | bot/handlers/message_handlers.py:43-47 | after sorting, every option is labelled and best of its height, every qualifying height is offered, and the first option is the tracked best |
| QualityOptions.TopIsHighest | bot/handlers/message_handlers.py:42-46 | the highest entry of the dictionary comes first after the descending sort |
| QualityOptions.ProcessFormats | bot/handlers/message_handlers.py:28-47 | the options are strictly descending by height, each with selector `h<height>`, height at least 240 and the greatest preference (an int or a float, a non-number counting as -1) among the qualifying formats of its height; every qualifying height is offered; the best option is the first one relabelled "best", or height 0 with preference -1 when there is none |
| MediaDownloader.FormatString | bot/external/downloader.py:63-82 | a format string exactly for "audio", "gif", "best" and `h<digits>` (the height-capped fallback chain); every other selector, "h" alone included, is the ValueError "Invalid quality selector: ..." |
| MediaDownloader.HeightSelectorAccepted | bot/external/downloader.py:77-80 | the selector `h<n>` the quality keyboard builds is accepted and caps the height at n |
| MediaDownloader.LeadingZeroIgnored | bot/external/downloader.py:77-78 | `int()` drops leading zeros, so `h0720` selects the same format as `h720` |
| MediaDownloader.FirstTruthy | bot/external/downloader.py:103-109 | the first truthy candidate path: none before it is truthy |
| MediaDownloader.FoundPath | bot/external/downloader.py:99-111 | the first truthy of `requested_downloads[0].filepath`, `filepath`, `_filename` and the prepared name; None without an info dictionary; never empty |
| MediaDownloader.ResolvePath | bot/external/downloader.py:113-132 | an existing found path is kept; otherwise the first existing `<base>.<ext>` over the selector's extension list; a missing path or no existing extension is the wrapped "Sync download error" |
| MediaDownloader.ResolvePrefersEarlierExtension | bot/external/downloader.py:123-127 | the probe stops at the first existing extension in list order |
| MediaDownloader.DownloadMedia | bot/external/downloader.py:42-159 | an unknown selector is a ValueError before anything runs; otherwise every error is a DownloaderError ("Download failed: ..." for yt-dlp errors, "Sync download error: ..." for the rest); success returns the path `ResolvePath` gives for the first truthy of the requested download's `filepath`, the `filepath` key, the `_filename` key and the prepared name (an existing path as is, else the first existing file under the selector's extensions), with the title defaulting to "downloaded_file"; when that resolution fails, its error is the result |
| MediaDownloader.RequestedPathWins | bot/external/downloader.py:103-114 | an existing `requested_downloads[0].filepath` is the result |
| MediaDownloader.MissingFileReported | bot/external/downloader.py:115-140 | a determined path with no existing extension variant is reported as "Sync download error: Determined path ... but file not found with any extension." |
| MediaDownloader.InfoErrorIgnoresCase | bot/external/downloader.py:33-34 | the unavailable/private classification ignores the message's case |
| MediaDownloader.UnavailableBeforePrivate | bot/external/downloader.py:33-34 | a message mentioning both is classified as unavailable |
| MediaDownloader.GetVideoInfo | bot/external/downloader.py:19-39 | success returns the extracted dictionary with a non-empty format list; a missing or empty list is re-wrapped by the outer handler as "Unexpected error fetching video info: DownloaderError"; yt-dlp errors are classified by message |
| LegacyDownloader.FormatFor | bot/downloader.py:53-64 | a format exactly for video_audio, video_only and audio_only; anything else is the ValueError "Invalid format choice: ..." |
| LegacyDownloader.OfferedChoicesHaveFormats | bot/downloader.py:54-60 | the three offered choices map to their yt-dlp format strings |
| LegacyDownloader.FallbackPath | bot/downloader.py:83-108 | without `requested_downloads`: the guessed `<base>.m4a`/`<base>.mp4` when it exists, else the first existing of mkv, webm, mp3, opus, else the prepared name; the result exists iff one of these does |
| LegacyDownloader.FallbackProbeOrder | bot/downloader.py:92-99 | the probe takes the first existing extension in list order |
| LegacyDownloader.FinalPath | bot/downloader.py:76-111 | the first requested download's path, a KeyError when it has no `filepath`, the fallback when there is no requested download, and a DownloaderError without an info dictionary |
| LegacyDownloader.DownloadMedia | bot/downloader.py:42-140 | the file set is unchanged (the cleanups only touch paths that do not exist); a bad choice is a ValueError; every other error is a DownloaderError; the result follows `FinalPath`: its KeyError or DownloaderError class is reported through the catch-all, an existing non-empty path is returned with the title, and any other path is the catch-all's "DownloaderError" |
| LegacyDownloader.NotFoundReportedByClassName | bot/downloader.py:116-140 | a requested path that does not exist surfaces as "An unexpected error occurred during download: DownloaderError", because the not-found error is raised inside the try and re-wrapped |
| LegacyDownloader.GetVideoInfo | bot/downloader.py:21-39 | success iff yt-dlp extracted, returning its (possibly missing) dictionary; yt-dlp errors and other exceptions get their two message texts |
| GifConverter.PaletteIsNotInput | bot/external/ffmpeg_processor.py:47-48 | the palette path never equals the input path, so the `finally` cleanup never deletes the input |
| Text.Strip | bot/external/ffmpeg_processor.py:34 | `str.strip()`: a slice of the input that neither starts nor ends with a character `str.isspace()` accepts, with only such characters cut on either side |
| Text.Take | bot/external/ffmpeg_processor.py:36 | `s[:n]`: the first min(n, len(s)) characters of s, all of s when it is no longer than n |
| GifConverter.RunError | bot/external/ffmpeg_processor.py:19-40 | no ffmpeg is "not installed"; a run succeeds iff it exits with code 0; a non-zero exit is "ffmpeg failed: " followed by the first min(200, its length) characters of the stderr with every character `str.isspace()` accepts cut from both ends; a process that cannot start raises its own exception |
| GifConverter.Finish | bot/external/ffmpeg_processor.py:52-81 | the palette is always removed; on failure the GIF is removed too and the error is a ConversionError, other exceptions being wrapped; nothing else changes |
| GifConverter.ConvertToGif | bot/external/ffmpeg_processor.py:42-81 | a missing input is FileNotFoundError before any command; a path without a directory part fails in `os.makedirs('')`; otherwise the palette never survives, a failure leaves no GIF, success returns an existing `<base>.gif` after both passes succeeded, the second pass runs iff the first succeeded, and at most two commands run |
| GifConverter.InputSurvives | bot/external/ffmpeg_processor.py:47-81 | conversion never deletes its input unless the input is itself the GIF path |
| GifConverter.GifPathOfGif | bot/external/ffmpeg_processor.py:47-49 | the GIF path of a `.gif` file is the file itself |
| GifConverter.GifInputRemovedOnFailure | bot/external/ffmpeg_processor.py:75-77 | so a failed conversion of a `.gif` input deletes the input |
| StatusUpdater.TotalBytes | bot/handlers/status_updater.py:82-83 | `total_bytes_estimate or total_bytes`: a truthy estimate wins, else a truthy total; None (no edit) iff both are missing or zero |
| StatusUpdater.Percentage | bot/handlers/status_updater.py:85-87 | the truncated percentage clamped to 0..100: below 100 it is the floor of downloaded*100/total, and 100 iff the download has reached the total |
| StatusUpdater.Step | bot/handlers/status_updater.py:76-115 | one hook call: no edit keeps the state; an edit records its percentage (and, while downloading, the time); `finished` edits iff 100 was not yet shown; other statuses never edit; the first percentage always edits; the throttle needs strictly more than 1.5 s since the last edit (status_updater.py:97) |
| StatusUpdater.DownloadingEmitsWhen | bot/handlers/status_updater.py:95-99 | a downloading event edits iff nothing was shown yet, or strictly more than 1.5 s passed and the percentage moved by at least 5, or it reaches 100 for the first time |
| StatusUpdater.UpdateStatus | bot/handlers/status_updater.py:117-119 | a direct status edit leaves the throttle state alone |
| StatusUpdater.Run | bot/handlers/status_updater.py:76-115 | every edited percentage of a stream of hook calls is between 0 and 100 |
| StatusUpdater.RunWithinBudget | bot/handlers/status_updater.py:92-99 | on a non-decreasing stream, the number of edits is bounded by one per 5 % step still possible, one for 100, and one for the first |
| StatusUpdater.MonotoneRunBounded | bot/handlers/status_updater.py:92-115 | from the initial state, a non-decreasing stream causes at most 22 progress edits, ceil(100/5) + 2, however many hook calls there are and whether or not it reaches 100 % |
| StatusUpdater.NothingAfterHundred | bot/handlers/status_updater.py:98-112 | once 100 % has been shown, a stream that stays at 100 causes no further edit |
| StatusUpdater.HundredShownOnce | bot/handlers/status_updater.py:98-115 | on a non-decreasing stream 100 % is shown at most once, and never again once it has been shown |
| Trace.StatusNameInjective | bot/services/youtube_service.py:63-80 | distinct statuses are persisted under distinct names |
| Trace.Statuses | bot/services/youtube_service.py:63-80 | the persisted statuses of a run are drawn from its effects, in order |
| Trace.StatusesAppend | bot/services/youtube_service.py:63-80 | the statuses of two consecutive parts of a run are those of the first followed by those of the second |
| Trace.Uploads | bot/handlers/callback_handlers/download_callbacks.py:158-164 | the number of uploads is zero iff no effect is an upload |
| Trace.UploadsAppend | bot/handlers/callback_handlers/download_callbacks.py:158-164 | uploads of consecutive parts add up |
| Trace.ServicePrefix | bot/services/youtube_service.py:61-103 | the service writes only non-terminal statuses and never uploads, so putting its effects before the handler's keeps the upload protocol, the upload count, and the single terminal status at the end |
| Trace.ServiceStatusesNotTerminal | bot/services/youtube_service.py:63-80 | the service persists neither 'completed' nor 'failed' |
| Service.FallbackLabelIffRefused | bot/services/youtube_service.py:53-59 | the label is "Selected Quality" exactly for the selectors the downloader refuses |
| Service.HeightLabel | bot/services/youtube_service.py:56-57 | `h<n>` is labelled `<n>p Video` |
| Service.GetVideoDetails | bot/services/youtube_service.py:20-34 | success iff the info fetch succeeds, giving the title (default "Unknown Title"), duration and formats; a failure is "Failed to get video details: " and the fetch's message |
| Service.Reraised | bot/services/youtube_service.py:105-119 | the bot's own errors pass through unchanged and anything else becomes a ServiceError |
| Service.ConversionRaised | bot/services/youtube_service.py:87-93 | conversion failures surface as ConversionError or FileNotFoundError |
| Service.CleanupOnError | bot/services/youtube_service.py:107-111 | the downloaded and final paths are removed and nothing else changes |
| Service.Started | bot/services/youtube_service.py:62-63 | the start notice and 'download_started' are service effects with the single status download_started |
| Service.Downloaded | bot/services/youtube_service.py:62-68 | the same after the title has been stored |
| Service.Converted | bot/services/youtube_service.py:71-80 | a GIF run persists download_started, conversion_started, converting in that order |
| Service.ConvertDownload | bot/services/youtube_service.py:71-98 | the GIF branch: on success the result is the `.gif` path, which exists, while the video is gone; on failure a bot error with no new file and the video removed; files unrelated to the conversion survive |
| Service.ConversionFailed | bot/services/youtube_service.py:87-119 | a failed conversion raises a bot error and removes the video, keeping every other file |
| Service.ConversionFinished | bot/services/youtube_service.py:82-98 | after ffmpeg succeeded, success iff the GIF exists and differs from the video; otherwise "Processed media file not found" with both removed |
| Service.ProcessAndDownload | bot/services/youtube_service.py:36-119 | statuses are download_started, plus conversion_started and converting exactly for a GIF made from a finished download; only service effects; a download failure is re-raised with the files untouched; success returns an existing non-empty path, the title and the label; a GIF replaces its video; a failure leaves no new file and removes the download; nothing unrelated is removed |
| Service.AfterDownload | bot/services/youtube_service.py:68-103 | the part after a successful download: the title is stored, a non-GIF download is returned as is, and a GIF replaces the video |
| Service.GifDownloadNotFound | bot/services/youtube_service.py:82-98 | when the downloaded file is already a `.gif`, conversion writes onto it, the service then deletes it, and raises "Processed media file not found for record ..." |
| DownloadFlow.UploadFor | bot/handlers/callback_handlers/download_callbacks.py:169-182 | the upload carries the path and caption; it goes through send_audio (with the title) iff the selector is "audio", send_animation iff it is "gif", and send_video otherwise |
| DownloadFlow.ServiceFailure | bot/handlers/callback_handlers/download_callbacks.py:193-201 | a handled service error persists 'failed' once and uploads nothing |
| DownloadFlow.TimeoutTextIgnoresCase | bot/handlers/callback_handlers/download_callbacks.py:206-208 | a network error whose text mentions "timed out" in any case gets the timeout text; other Telegram errors get "Telegram Error: <message>" |
| DownloadFlow.TelegramFailed | bot/handlers/callback_handlers/download_callbacks.py:203-212 | a Telegram error persists 'failed' once and uploads nothing |
| DownloadFlow.UnexpectedFailed | bot/handlers/callback_handlers/download_callbacks.py:214-220 | an unexpected error persists 'failed' once and uploads nothing |
| DownloadFlow.TooLargeEffects | bot/handlers/callback_handlers/download_callbacks.py:146-152 | an oversized file persists 'failed' once (with its size) and is not uploaded |
| DownloadFlow.AfterUpload | bot/handlers/callback_handlers/download_callbacks.py:85-164 | a finished upload persists 'completed' with the size and then deletes the status message; a raised upload persists 'failed' instead; either way exactly one terminal status |
| DownloadFlow.UploadThenTail | bot/handlers/callback_handlers/download_callbacks.py:154-164 | 'upload_started', the uploading notice and the upload, followed by a tail without uploads, keep the protocol with exactly one upload |
| DownloadFlow.SendStage | bot/handlers/callback_handlers/download_callbacks.py:154-164 | 'upload_started', the notice, then one upload of the file, then the outcome; one terminal status; 'completed' is persisted iff the upload went through |
| DownloadFlow.UploadStage | bot/handlers/callback_handlers/download_callbacks.py:138-167 | a missing file is "Processed media file not found after download/conversion."; a file over 50 MiB is refused; one at or under the limit is uploaded exactly once |
| DownloadFlow.ServiceThenHandler | bot/handlers/callback_handlers/download_callbacks.py:70-83 | the service's effects followed by the handler's keep the single terminal status and the protocol, and add no upload of their own |
| DownloadFlow.AfterService | bot/handlers/callback_handlers/download_callbacks.py:70-95 | after the service: one terminal status, at most one upload, only of a file within the limit; a service error persists 'failed' after the service's effects and uploads nothing; a result goes on to the upload stage, is uploaded exactly when it is within the limit, and is removed by `_cleanup_resources` whether it was uploaded or not |
| DownloadFlow.RunTracked | bot/handlers/callback_handlers/download_callbacks.py:58-95 | a tracked run ends with exactly one terminal status and keeps the upload protocol; neither the download nor the file made from it survives, every file the request did not produce is kept, and the final file is uploaded exactly when it is within the limit |
| DownloadFlow.HandleDownloadCallback | bot/handlers/callback_handlers/download_callbacks.py:20-95 | a database error while logging the press (lines 43-45, inside the `try`) ends it in the catch-all with nothing shown; unparsable data only edits the message; no record means no status and no work; a tracked request ends with exactly one terminal status, leaves neither the download nor its final file, keeps every other file, and uploads the final file exactly when it is within the limit; statuses are only ever written for a tracked request |
| StatsCallbacks.InsertByKey | bot/handlers/callback_handlers/stats_callbacks.py:186-217 | inserting a new key keeps the rows sorted by key and adds exactly that row |
| StatsCallbacks.SortByKey | bot/handlers/callback_handlers/stats_callbacks.py:186-217 | `sorted(counts.items())` with distinct keys: sorted by key and a permutation of the rows |
| StatsCallbacks.SortedUnique | bot/handlers/callback_handlers/stats_callbacks.py:186 | two key-sorted lists holding the same rows are equal |
| StatsCallbacks.SortByKeyIgnoresOrder | bot/handlers/callback_handlers/stats_callbacks.py:183-187 | the listing does not depend on the order in which the database returned the counts |
| StatsCallbacks.QualityDisplay | bot/handlers/callback_handlers/stats_callbacks.py:218 | a key starting with `h` is shown as its characters other than `h`, in order, each upper-cased; any other key is title-cased |
| StatsCallbacks.HeightQualityShowsNumber | bot/handlers/callback_handlers/stats_callbacks.py:218 | the quality stored for a height button, `h<height>`, is shown as the bare number |
| StatsCallbacks.Lines | bot/handlers/callback_handlers/stats_callbacks.py:186-187 | one line per row, so no rows give no text |
| StatsCallbacks.Grouped | bot/handlers/callback_handlers/stats_callbacks.py:182-199 | the text starts with its heading; with no counts the empty-text follows; otherwise the lines are those of every arrangement of the same items whose keys ascend, whatever order the database returned them in |
| StatsCallbacks.CountOf | bot/handlers/callback_handlers/stats_callbacks.py:152-153 | `dict.get(key, 0)`: the count stored under the key, and 0 when the key is absent |
| StatsCallbacks.SummaryText | bot/handlers/callback_handlers/stats_callbacks.py:147-165 | the summary shows, each on its own line, the user counts, the attempts as the sum of all status counts, the completed and failed downloads as those statuses' counts (zero when absent), and the success rate |
| StatsCallbacks.SummaryFiguresConsistent | bot/handlers/callback_handlers/stats_callbacks.py:147-165 | with counts that are not negative, the attempts the summary shows are at least the completed plus the failed downloads it shows |
| StatsCallbacks.TotalCoversCompletedAndFailed | bot/handlers/callback_handlers/stats_callbacks.py:151-154 | with non-negative counts, the total attempts are at least the completed plus the failed downloads |
| StatsCallbacks.UserStats | bot/handlers/callback_handlers/stats_callbacks.py:167-178 | "Unknown user statistic." exactly for the actions the users submenu does not offer |
| StatsCallbacks.InteractionStats | bot/handlers/callback_handlers/stats_callbacks.py:180-200 | "Unknown interaction statistic." exactly for the actions the interactions submenu does not offer |
| StatsCallbacks.DisplayUrl | bot/handlers/callback_handlers/stats_callbacks.py:228 | URLs of at most 60 characters are shown whole; longer ones as their first 60 characters and "..." |
| StatsCallbacks.UrlLines | bot/handlers/callback_handlers/stats_callbacks.py:226-229 | one numbered line per URL, so no URLs give no text |
| StatsCallbacks.DownloadStats | bot/handlers/callback_handlers/stats_callbacks.py:202-233 | "Unknown download statistic." exactly for the actions the downloads submenu does not offer |
| StatsCallbacks.MenuView | bot/handlers/callback_handlers/stats_callbacks.py:100-121 | a known menu shows its submenu and any other action the main menu; "Unknown menu." exactly for actions other than "main" and the three menus |
| StatsCallbacks.FamiliesDisjoint | bot/handlers/callback_handlers/stats_callbacks.py:128-139 | the summary and the three `users_`/`interactions_`/`downloads_` families exclude each other, so the branch order does not matter |
| StatsCallbacks.ShowBody | bot/handlers/callback_handlers/stats_callbacks.py:123-145 | the back button iff the summary; a family's submenu for a family action, with the family's unknown text iff the submenu does not offer it; the main menu and "Unknown statistics view." for anything else |
| StatsCallbacks.ShowView | bot/handlers/callback_handlers/stats_callbacks.py:123-145 | every view starts with the statistics header; the summary (and only it) comes over the back button; a family action shows the family's submenu, with the family's unknown text iff the submenu does not offer it; anything else is "Unknown statistics view." over the main menu, and only then |
| StatsCallbacks.ProcessStatsRequest | bot/handlers/callback_handlers/stats_callbacks.py:79-98 | `stats_menu` routes to the menu view, `stats_show` to the statistics view, and anything else to "Error: Unknown statistics menu." over the main menu |
| StatsCallbacks.QueriedActionsOffered | bot/handlers/callback_handlers/stats_callbacks.py:128-139 | the actions that query the database are exactly the summary and the items the submenus offer |
| StatsCallbacks.AdminReply | bot/handlers/callback_handlers/stats_callbacks.py:40-77 | a view with its keyboard is shown exactly when the connection held for logging, the data parses and the view's queries worked, and it is the routed view |
| StatsCallbacks.HandleStatsCallback | bot/handlers/callback_handlers/stats_callbacks.py:20-77 | empty data is "Invalid request."; a non-admin gets "Access Denied." before anything is logged or queried; an admin's press is acknowledged, logged, and then answered with the routed view or an error text; only admins' presses are logged |
| StatsCallbacks.HandlerNeverShowsUnknownMenuType | bot/handlers/callback_handlers/stats_callbacks.py:93-96 | the unknown-menu-type branch is unreachable from the handler, whose parser admits only the two prefixes |
| StatsCallbacks.OfferedStatisticShown | bot/handlers/callback_handlers/stats_callbacks.py:131-139 | every statistic a submenu offers is shown over that submenu and not as unknown |
| StatsCallbacks.KnownViewNotUnknown | bot/handlers/callback_handlers/stats_callbacks.py:100-145 | no known view is answered with an unknown text |
| StatsCallbacks.MainMenuLeadsToKnownViews | bot/presentation/keyboard.py:76-88 | every main-menu button leads to a known view |
| StatsCallbacks.SubmenuLeadsToKnownViews | bot/presentation/keyboard.py:90-106 | every submenu button, back button included, parses and leads to a known view |
| StatsCallbacks.BackLeadsToMainMenu | bot/handlers/callback_handlers/stats_callbacks.py:126 | the summary's back button leads to the main menu |
| LegacyHandlers.HandleMessage | bot/handlers.py:53-119 | no text gets no reply and a text that is not a YouTube link gets the invalid-link reply; a valid link is answered "Processing" and then edited, and the format keyboard, carrying the link as sent, is shown exactly when yt-dlp reports a video of at most an hour |
| LegacyHandlers.Send | bot/handlers.py:166-173 | the downloaded file is sent, as audio exactly for `audio_only` and as video otherwise |
| LegacyHandlers.AfterDownload | bot/handlers.py:153-198 | a file over 50 MiB is reported and never sent; otherwise the upload notice, the send and the delivery text follow; either way the file is removed afterwards |
| LegacyHandlers.DownloadChoice | bot/handlers.py:143-198 | the start text comes first; an upload is attempted at most once, and exactly when the download worked and is within 50 MiB; a failed download leaves the files alone and shows its error text; the file of an attempted upload is gone afterwards, whether or not Telegram accepted it |
| LegacyHandlers.HandleDownloadCallback | bot/handlers.py:122-198 | empty data is only acknowledged; unparsable data only edits the message with the parser's error; a parsed choice runs the download with the guarantees above, and nothing but the downloaded file is ever removed |
| LegacyHandlers.OfferedButtonStarts | bot/keyboard.py:7-13 | every button of the offered keyboard parses back to its choice and the link, and pressing it starts that download |
| LegacyHandlers.OversizedNeverSent | bot/handlers.py:155-198 | an oversized download ends with the start text and the size error, nothing sent, and the file removed |
| LegacyCallback.HandleAsWritten | bot/handlers/callback_handlers.py:51-109 | a missing connection and unparsable data are answered; every parsed press raises TypeError at the service's construction, before anything else happens |
| LegacyCallback.AsWrittenNeverDownloads | bot/handlers/callback_handlers.py:96-109 | as written, no press ever sets a status or uploads, and the exception escapes exactly for the parsed presses |
| LegacyCallback.TelegramText | bot/handlers/callback_handlers.py:209-216 | a network error mentioning "timed out" in any case is reported as a timeout with the GIF read timeout or `default`; any other Telegram error shows its message |
| LegacyCallback.AfterUpload | bot/handlers/callback_handlers.py:186-220 | after the upload exactly one status is set, 'completed' iff the upload went through, and nothing is uploaded again |
| LegacyCallback.MissingFile | bot/handlers/callback_handlers.py:145-208 | a missing final file sets 'failed' twice, once before raising and once in the handler for it |
| LegacyCallback.MissingFileEndsTwice | bot/handlers/callback_handlers.py:145-208 | on that path the run does not end with a single terminal status |
| LegacyCallback.Oversized | bot/handlers/callback_handlers.py:155-162 | a file over the limit sets 'failed' once and is never uploaded |
| LegacyCallback.UploadStage | bot/handlers/callback_handlers.py:143-223 | after the service, a missing file takes the double-failure path, an oversized one the size path, and a present file within the limit is uploaded exactly once with 'upload_started' before it; a present file always ends with one terminal status |
| LegacyCallback.SendStage | bot/handlers/callback_handlers.py:165-220 | 'upload_started', the notice and the upload come first; one upload of that file; one terminal status, 'completed' iff the upload went through |
| LegacyCallback.Succeeded | bot/handlers/callback_handlers.py:134-223 | after a successful service call the service's effects are followed by the upload stage; the file is uploaded exactly when it is within the limit, only that file is uploaded, the run ends with one terminal status, and the file is removed afterwards |
| LegacyCallback.AfterService | bot/handlers/callback_handlers.py:134-223 | after any service outcome: one terminal status last and the upload protocol; a service error is reported as the handled-error path and uploads nothing; a result goes on to the upload stage, is uploaded exactly when it is within the limit, and is removed by the `finally` clause either way |
| LegacyCallback.Handle | bot/handlers/callback_handlers.py:51-223 | the handler as written against the older, connection-passing database and service API, modelled as if that API existed: missing connection, bad data, no record and a falsy record id each get their own notice; a tracked press ends with exactly one terminal status, leaves neither the download nor its final file, keeps every other file, and uploads the final file exactly when it is within the limit; statuses appear only for a tracked press |
| LegacyCallback.RunTracked | bot/handlers/callback_handlers.py:109-223 | a tracked run ends with exactly one terminal status; neither the download nor the file made from it survives, every file the request did not produce is kept, and the final file is uploaded exactly when it is within the limit |
| LegacyCallback.UnresolvedPayloadReachesService | bot/handlers/callback_handlers.py:31-36 | an `id:<video id>` payload reaches the service unresolved, as the URL, and the run still ends with one terminal status |

## Left out

- Telegram transport: sending, editing and deleting messages, `_edit_message_safe` and its retries, `InputFile`, handler registration. The model keeps only the effects: statuses, notices and uploads. A failed message edit is not modelled.
- asyncio plumbing (`run_in_executor`, `run_coroutine_threadsafe`, subprocess streams) and concurrency: every run is sequential.
- yt-dlp and ffmpeg internals: `extract_info` is an uninterpreted `YtDlp.Extraction`, and each ffmpeg pass is its exit code, standard error and whether its output was written.
- SQLite (bot/database.py): the store is the sequence of status effects, and the SQL is not modelled. The interaction logging and user upserts are modelled only by whether they returned (`DownloadFlow.World`'s `logged`): in the package handler they run inside the `try` (bot/handlers/callback_handlers/download_callbacks.py:43-45), so a failure ends the press in `_handle_unexpected_error` with no record and no status updater, which shows nothing. The older handler catches and logs such errors itself (bot/handlers/callback_handlers.py:75-94), so there they do not affect the flow.
- The statistics queries are answered by a `StatsCallbacks.Database` value. A failing query is one `QueryOutcome` for the whole view: a connection error or another error. Which individual query failed is not modelled.
- Config and environment (bot/config.py): the upload limit is the constant 50 MiB of the default server.
- `ADMIN_IDS` is a parameter of the admin gate. `resolve_callback_payload` is a parameter of the download flow: bot/handlers/callback_handlers/utils.py:3 imports it from bot/presentation/keyboard.py, which defines no such function, and the payloads it would decode come with no cache to decode them from.
- Floating point: the KB/MB/GB branches of `format_filesize`, the MB figures in the size-error texts, and the success-rate percentage. The success rate enters `StatsCallbacks` as a ready-made string. Time is integer milliseconds, and the progress percentage is computed on integers.
- Keyboards.FormatFilesize: sizes of 1024 bytes or more give `None` instead of the KB/MB/GB text, because those branches format floats.
- Regular expressions fold case and classify `\w`/`\d` over ASCII only, and so do the `str` methods the bot calls: `isdigit`, `int`, `lower`, `upper` and `title` (`Text.IsDigit`, `Text.DigitsValue`, `Text.Lower`, `Text.Upper`, `Text.Title`). A selector such as `h` followed by Arabic-Indic digits passes `isdigit()` and `int()` in bot/external/downloader.py:77-78 and selects that height, but `MediaDownloader.FormatString` reports it as an invalid selector. Non-ASCII letters and digits are not modelled. `strip` is the exception: `Text.IsSpace` is the full set `str.isspace()` accepts.
- LegacyHandlers.HandleMessage: a `duration` key present with the value None is treated like a missing key. The code compares `None > 3600` and ends in its catch-all instead. The thumbnail/photo path and its fallback are not distinguished from the plain edit; both show the same caption and keyboard.
- QualityOptions.ProcessFormats: a float preference that is NaN or infinite is not modelled; preferences are `real` numbers, which covers every int and finite float.
- QualityOptions.ProcessFormats: a format whose `vcodec` key is present with the value None is skipped like a video-less one. The code calls `.lower()` on that None (bot/handlers/message_handlers.py:34) and raises AttributeError, because an `Option` field cannot tell a present None from a missing key.
- Service.GetVideoDetails: a `title` key present with the value None gives "Unknown Title". The code's `info_dict.get('title', 'Unknown Title')` returns None there (bot/services/youtube_service.py:25; likewise bot/handlers.py:69), for the same reason.
- The "No upload method" branches (bot/handlers/callback_handlers/download_callbacks.py:166-167, bot/handlers/callback_handlers.py:190-194) are unreachable: every selector maps to an upload method. They are left out.
- LegacyCallback.Handle: bot/handlers/callback_handlers.py was written against an older, connection-passing database and service API: it passes `db_connection` to `create_download_record` (lines 116-122), `process_and_download` (lines 134-141) and `update_download_status` (lines 148-189), none of which take one (bot/database.py:123, bot/database.py:142, bot/services/youtube_service.py:36-43). With today's API the record creation would raise TypeError, and the handler's own `except` would answer "Could not track download request." for every press. The model assumes the API the handler was written for. The module is also never imported: bot/handlers/__init__.py:3 imports the `callback_handlers/` package, which shadows it.
- The legacy statistics handler in bot/handlers/callback_handlers.py:226-397 is superseded by stats_callbacks.py and is not modelled. Only its `parse_stats_callback` is.
- `handle_message` and `find_youtube_url_in_message` in bot/handlers/message_handlers.py and bot/handlers/command_handlers.py are transport plus a regex search; only `process_formats` is modelled. That `handle_message` also builds `YouTubeService()` without its database manager (bot/handlers/message_handlers.py:108).
- main.py, bot/context.py, bot/utils/decorators.py and the package re-exports are framework glue and are not modelled.

## Findings

| source | as written | input that shows it | evidently intended | confidence | as-written member | corrected member |
|---|---|---|---|---|---|---|
| bot/handlers/callback_handlers.py:109 | `YouTubeService()` is built without the `db_manager` its constructor requires (bot/services/youtube_service.py:17), so it raises TypeError before any download record exists; the exception escapes the handler, which never downloads | any press whose data parses, e.g. `q_best:https://youtu.be/x`, with the database connected | the handler as it would run against the older, connection-passing database and service API it was written for: the service built with its manager (as bot/handlers/callback_handlers/download_callbacks.py:59 does), and `create_download_record`, `process_and_download` and `update_download_status` accepting the connection the handler passes. Fixing the constructor alone is not enough: those three calls do not match bot/database.py:123, bot/database.py:142 or bot/services/youtube_service.py:36-43 either | high, not executed | LegacyCallback.HandleAsWritten, LegacyCallback.AsWrittenNeverDownloads | LegacyCallback.Handle |

