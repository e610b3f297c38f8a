/** The current downloader: the map from a quality selector to a yt-dlp
    format string, the resolution of the downloaded file's path against
    the file set, and the error texts of `get_video_info` and
    `download_media`. The format string itself only reaches yt-dlp, whose
    outcome is a parameter; it is kept as the value the selector maps to. */
module MediaDownloader {
  import opened Wrappers
  import opened Text
  import opened Errors
  import opened YtDlp
  import FileSystem
  import QualityOptions

  const AudioFormat: string := "bestaudio/best[acodec!=none]/best"
  const GifFormat: string := "best"
  const BestFormat: string := "bestvideo+bestaudio/best"

  /** The height-capped format string for the height `n`, written as
      `str(int(N))`. */
  function HeightFormat(n: nat): string {
    var h := NatToString(n);
    "bestvideo[height<=" + h + "]+bestaudio/best[height<=" + h + "]/bestvideo[height<=" + h + "]/best"
  }

  /** `selector.startswith('h') and selector[1:].isdigit()`. */
  predicate IsHeightSelector(sel: string) {
    |sel| > 0 && sel[0] == 'h' && IsDigits(sel[1..])
  }

  /** The selectors `download_media` accepts. */
  predicate IsKnownSelector(sel: string) {
    sel == "audio" || sel == "gif" || sel == "best" || IsHeightSelector(sel)
  }

  /** The format selection of `download_media`: every other selector,
      `h` alone included, is a ValueError raised before anything runs. */
  function FormatString(sel: string): (r: Result<string, Error>)
    ensures r.Ok? <==> IsKnownSelector(sel)
    ensures r.Err? ==> r.error == ValueError("Invalid quality selector: " + sel)
    ensures IsHeightSelector(sel) ==> r == Ok(HeightFormat(DigitsValue(sel[1..])))
  {
    if sel == "audio" then Ok(AudioFormat)
    else if sel == "gif" then Ok(GifFormat)
    else if sel == "best" then Ok(BestFormat)
    else if IsHeightSelector(sel) then Ok(HeightFormat(DigitsValue(sel[1..])))
    else Err(ValueError("Invalid quality selector: " + sel))
  }

  /** The selector the quality options carry for a height maps to the
      format capped at that height. */
  lemma HeightSelectorAccepted(n: nat)
    ensures FormatString(QualityOptions.HeightSelector(n)) == Ok(HeightFormat(n))
  {
    var sel := QualityOptions.HeightSelector(n);
    assert sel[1..] == NatToString(n);
    DigitsValueOfNatToString(n);
  }

  lemma {:induction false} DigitsValueLeadingZero(s: string)
    requires AllDigits(s)
    ensures AllDigits("0" + s) && DigitsValue("0" + s) == DigitsValue(s)
    decreases |s|
  {
    if |s| > 0 {
      var z := "0" + s;
      assert z[..|z| - 1] == "0" + s[..|s| - 1];
      DigitsValueLeadingZero(s[..|s| - 1]);
    }
  }

  /** `int(N)` drops leading zeros, so `h0720` selects what `h720` does. */
  lemma LeadingZeroIgnored(digits: string)
    requires IsDigits(digits)
    ensures FormatString("h0" + digits) == FormatString("h" + digits)
  {
    assert ("h0" + digits)[1..] == "0" + digits;
    assert ("h" + digits)[1..] == digits;
    DigitsValueLeadingZero(digits);
  }

  /** The candidates for the downloaded file, in the order `download_media`
      consults them: the first requested download's `filepath`, the
      `filepath` key, the `_filename` key, then `prepare_filename`. */
  function Candidates(info: InfoDict, prepared: string): seq<Option<string>> {
    [if |info.requested| > 0 then info.requested[0] else None, info.filepath, info.filename, Some(prepared)]
  }

  /** The position of the first truthy candidate at or after `from`,
      `|cs|` when there is none. */
  function FirstTruthy(cs: seq<Option<string>>, from: nat): (r: nat)
    requires from <= |cs|
    ensures from <= r <= |cs|
    ensures forall j :: from <= j < r ==> !Truthy(cs[j])
    ensures r < |cs| ==> Truthy(cs[r])
    decreases |cs| - from
  {
    if from == |cs| then from
    else if Truthy(cs[from]) then from
    else FirstTruthy(cs, from + 1)
  }

  /** `found_path` after the key lookups: absent when there is no info
      dictionary or every candidate is empty. */
  function FoundPath(info: Option<InfoDict>, prepared: string): (r: Option<string>)
    ensures r.Some? ==> r.value != ""
    ensures info.None? ==> r.None?
    ensures info.Some? ==> var cs := Candidates(info.value, prepared);
      r == (if FirstTruthy(cs, 0) < |cs| then cs[FirstTruthy(cs, 0)] else None)
  {
    match info
    case None => None
    case Some(d) =>
      var cs := Candidates(d, prepared);
      var fromRequested := if |d.requested| > 0 then d.requested[0] else None;
      if Truthy(fromRequested) then fromRequested
      else if Truthy(d.filepath) then
        assert FirstTruthy(cs, 0) == FirstTruthy(cs, 1) == 1;
        d.filepath
      else if Truthy(d.filename) then
        assert FirstTruthy(cs, 0) == FirstTruthy(cs, 1) == FirstTruthy(cs, 2) == 2;
        d.filename
      else
        assert FirstTruthy(cs, 0) == FirstTruthy(cs, 1) == FirstTruthy(cs, 2) == FirstTruthy(cs, 3);
        if prepared != "" then Some(prepared)
        else
          assert FirstTruthy(cs, 3) == FirstTruthy(cs, 4) == 4;
          None
  }

  function Extensions(sel: string): seq<string> {
    if sel == "audio" then ["m4a", "mp3", "aac", "ogg", "wav"]
    else ["mp4", "webm", "mkv", "avi", "mov", "flv"]
  }

  const NoPathMessage: string := "yt-dlp finished, but could not determine file path."

  function NoExtensionMessage(found: string): string {
    "Determined path '" + found + "' but file not found with any extension."
  }

  /** The inner handler's wrapping of every non-yt-dlp exception. */
  function SyncError(msg: string): Error {
    DownloaderError("Sync download error: " + msg)
  }

  /** The resolution of the final path: the found path when it exists,
      else the first existing file with the found path's base and one of
      the selector's extensions. */
  function ResolvePath(sel: string, found: Option<string>, fs: FileSystem.FileSet): (r: Result<string, Error>)
    ensures r.Ok? ==> r.value in fs
    ensures found.None? ==> r == Err(SyncError(NoPathMessage))
    ensures found.Some? && found.value in fs ==> r == Ok(found.value)
    ensures found.Some? && found.value !in fs ==>
      var base := FileSystem.SplitExt(found.value).0;
      && (r.Ok? ==> exists e :: e in Extensions(sel) && r.value == FileSystem.WithExtension(base, e))
      && (r.Err? <==> forall e :: e in Extensions(sel) ==> FileSystem.WithExtension(base, e) !in fs)
      && (r.Err? ==> r.error == SyncError(NoExtensionMessage(found.value)))
  {
    match found
    case None => Err(SyncError(NoPathMessage))
    case Some(p) =>
      if p in fs then Ok(p)
      else
        var base := FileSystem.SplitExt(p).0;
        var exts := Extensions(sel);
        match FileSystem.FirstExisting(base, exts, fs)
        case Some(i) => Ok(FileSystem.WithExtension(base, exts[i]))
        case None =>
          assert forall e :: e in exts ==> FileSystem.WithExtension(base, e) !in fs;
          Err(SyncError(NoExtensionMessage(p)))
  }

  /** Among the extensions, an earlier existing one always wins. */
  lemma ResolvePrefersEarlierExtension(sel: string, p: string, fs: FileSystem.FileSet, i: nat)
    requires p != "" && p !in fs
    requires i < |Extensions(sel)|
    requires FileSystem.WithExtension(FileSystem.SplitExt(p).0, Extensions(sel)[i]) in fs
    requires forall j :: 0 <= j < i ==> FileSystem.WithExtension(FileSystem.SplitExt(p).0, Extensions(sel)[j]) !in fs
    ensures ResolvePath(sel, Some(p), fs) == Ok(FileSystem.WithExtension(FileSystem.SplitExt(p).0, Extensions(sel)[i]))
  {
    var base := FileSystem.SplitExt(p).0;
    var k := FileSystem.FirstExisting(base, Extensions(sel), fs);
    assert k.Some?;
    assert k.value == i by {
      if k.value < i {
      } else if k.value > i {
      }
    }
  }

  /** `download_media` given the outcome of yt-dlp's extraction, the name
      `prepare_filename` would give, and the file set once yt-dlp is done.
      Success gives the path and title. The cleanup in the outer handlers
      never fires: the final path is only set to a file that exists, and
      nothing after that raises. */
  function DownloadMedia(sel: string, outcome: Extraction, prepared: string, fs: FileSystem.FileSet): (r: Result<(string, string), Error>)
    ensures !IsKnownSelector(sel) ==> r == Err(ValueError("Invalid quality selector: " + sel))
    ensures r.Err? && IsKnownSelector(sel) ==> r.error.DownloaderError?
    ensures r.Ok? ==> r.value.0 in fs && outcome.Extracted? && outcome.info.Some?
    ensures r.Ok? ==> r.value.1 == outcome.info.value.title.GetOr("downloaded_file")
    ensures IsKnownSelector(sel) && outcome.DownloadError? ==> r == Err(DownloaderError("Download failed: " + outcome.msg))
    ensures IsKnownSelector(sel) && outcome.Raised? ==> r == Err(SyncError(outcome.msg))
    ensures IsKnownSelector(sel) && outcome == Extracted(None) ==> r == Err(SyncError(NoPathMessage))
    ensures r.Ok? ==> ResolvePath(sel, FoundPath(outcome.info, prepared), fs) == Ok(r.value.0)
    ensures IsKnownSelector(sel) && outcome.Extracted? ==>
      match ResolvePath(sel, FoundPath(outcome.info, prepared), fs)
      case Err(e) => r == Err(e)
      case Ok(path) => r == Ok((path, outcome.info.value.title.GetOr("downloaded_file")))
  {
    match FormatString(sel)
    case Err(e) => Err(e)
    case Ok(_) =>
      match outcome
      case DownloadError(msg) => Err(DownloaderError("Download failed: " + msg))
      case Raised(_, msg) => Err(SyncError(msg))
      case Extracted(info) =>
        match ResolvePath(sel, FoundPath(info, prepared), fs)
        case Err(e) => Err(e)
        case Ok(path) =>
          if path in fs && info.Some? then Ok((path, info.value.title.GetOr("downloaded_file")))
          else Err(DownloaderError("Download process ok, but final file path invalid or missing."))
  }

  /** The first requested download's path is taken whenever it exists. */
  lemma RequestedPathWins(sel: string, info: InfoDict, prepared: string, fs: FileSystem.FileSet)
    requires IsKnownSelector(sel)
    requires |info.requested| > 0 && Truthy(info.requested[0]) && info.requested[0].value in fs
    ensures DownloadMedia(sel, Extracted(Some(info)), prepared, fs) == Ok((info.requested[0].value, info.title.GetOr("downloaded_file")))
  {
  }

  /** A path that is found but missing, with no file under any of the
      selector's extensions, fails with the determined path in the text. */
  lemma MissingFileReported(sel: string, info: InfoDict, prepared: string, fs: FileSystem.FileSet)
    requires IsKnownSelector(sel)
    requires FoundPath(Some(info), prepared).Some?
    requires FoundPath(Some(info), prepared).value !in fs
    requires forall e :: e in Extensions(sel) ==> FileSystem.WithExtension(FileSystem.SplitExt(FoundPath(Some(info), prepared).value).0, e) !in fs
    ensures DownloadMedia(sel, Extracted(Some(info)), prepared, fs) == Err(SyncError(NoExtensionMessage(FoundPath(Some(info), prepared).value)))
  {
  }

  /** The message `get_video_info` gives for a yt-dlp DownloadError: the
      unavailable test comes first, and both tests ignore case. */
  function InfoErrorMessage(msg: string): string {
    if Contains(Lower(msg), "video unavailable") then "This video is unavailable."
    else if Contains(Lower(msg), "private video") then "This is a private video."
    else "Could not get video info: " + msg
  }

  /** The classification does not depend on the message's case. */
  lemma InfoErrorIgnoresCase(msg: string)
    requires Contains(Lower(msg), "video unavailable") || Contains(Lower(msg), "private video")
    ensures InfoErrorMessage(Upper(msg)) == InfoErrorMessage(msg)
  {
    LowerOfUpper(msg);
  }

  /** A message naming both causes is reported as unavailable. */
  lemma UnavailableBeforePrivate(msg: string)
    requires Contains(Lower(msg), "video unavailable") && Contains(Lower(msg), "private video")
    ensures InfoErrorMessage(msg) == "This video is unavailable."
  {
  }

  /** `get_video_info`: the info dictionary when it lists formats. A missing
      or empty format list raises a DownloaderError inside the try, which
      the catch-all handler reports by class name; a missing dictionary
      fails the `in` test with a TypeError, reported the same way. */
  function GetVideoInfo(outcome: Extraction): (r: Result<InfoDict, Error>)
    ensures r.Ok? ==> outcome == Extracted(Some(r.value))
    ensures r.Ok? ==> r.value.formats.Some? && |r.value.formats.value| > 0
    ensures r.Err? ==> r.error.DownloaderError?
    ensures outcome.Extracted? && outcome.info.Some? && (outcome.info.value.formats.None? || outcome.info.value.formats.value == []) ==>
      r == Err(DownloaderError("Unexpected error fetching video info: DownloaderError"))
    ensures outcome.DownloadError? ==> r == Err(DownloaderError(InfoErrorMessage(outcome.msg)))
  {
    match outcome
    case Extracted(None) => Err(DownloaderError("Unexpected error fetching video info: TypeError"))
    case Extracted(Some(info)) =>
      if info.formats.None? || |info.formats.value| == 0 then
        Err(DownloaderError("Unexpected error fetching video info: DownloaderError"))
      else Ok(info)
    case DownloadError(msg) => Err(DownloaderError(InfoErrorMessage(msg)))
    case Raised(name, _) => Err(DownloaderError("Unexpected error fetching video info: " + name))
  }
}
