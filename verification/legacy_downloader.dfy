/** The first downloader, which the first handlers module still calls: a
    map from the three format choices to format strings, a guessed path
    with a fixed probing order when yt-dlp reports no requested download,
    and its error wrapping. Every error it raises inside its outer `try`,
    its own DownloaderErrors included, reaches the catch-all handler, which
    keeps only the exception's class name. */
module LegacyDownloader {
  import opened Wrappers
  import opened Errors
  import opened YtDlp
  import FileSystem

  /** The format string of each of the three choices. */
  function FormatFor(choice: string): (r: Result<string, Error>)
    ensures r.Ok? <==> choice in {"video_audio", "video_only", "audio_only"}
    ensures r.Err? ==> r.error == ValueError("Invalid format choice: " + choice)
  {
    if choice == "video_audio" then Ok("bestvideo+bestaudio/best")
    else if choice == "video_only" then Ok("bestvideo[ext=mp4]/bestvideo")
    else if choice == "audio_only" then Ok("bestaudio[ext=m4a]/bestaudio")
    else Err(ValueError("Invalid format choice: " + choice))
  }

  /** Every choice the three-button keyboard offers has a format. */
  lemma OfferedChoicesHaveFormats()
    ensures FormatFor("video_audio") == Ok("bestvideo+bestaudio/best")
    ensures FormatFor("video_only") == Ok("bestvideo[ext=mp4]/bestvideo")
    ensures FormatFor("audio_only") == Ok("bestaudio[ext=m4a]/bestaudio")
  {
  }

  /** The extension guessed from the options: the audio format for audio,
      the merge format for video with audio, and mp4 for video only. */
  function GuessedExtension(choice: string): string {
    if choice == "audio_only" then "m4a" else "mp4"
  }

  const ProbedExtensions: seq<string> := ["mkv", "webm", "mp3", "opus"]

  /** The path guessed from `prepare_filename` when yt-dlp reports no
      requested download: the guess when it exists, else the first probed
      extension that exists, else the name as prepared when that exists,
      else the guess again. */
  function FallbackPath(choice: string, prepared: string, fs: FileSystem.FileSet): (r: string)
    ensures var guess := FileSystem.WithExtension(FileSystem.SplitExt(prepared).0, GuessedExtension(choice));
      && (guess in fs ==> r == guess)
      && (r in fs <==> (guess in fs || prepared in fs
            || exists e :: e in ProbedExtensions && FileSystem.WithExtension(FileSystem.SplitExt(prepared).0, e) in fs))
      && (r == guess || r == prepared
            || exists e :: e in ProbedExtensions && r == FileSystem.WithExtension(FileSystem.SplitExt(prepared).0, e))
  {
    var (base, ext) := FileSystem.SplitExt(prepared);
    var guess := FileSystem.WithExtension(base, GuessedExtension(choice));
    if guess in fs then guess
    else
      match FileSystem.FirstExisting(base, ProbedExtensions, fs)
      case Some(i) => FileSystem.WithExtension(base, ProbedExtensions[i])
      case None =>
        assert forall e :: e in ProbedExtensions ==> FileSystem.WithExtension(base, e) !in fs;
        if base + ext in fs then base + ext else guess
  }

  /** The probed extensions are tried in their order, before the name as
      prepared. */
  lemma FallbackProbeOrder(choice: string, prepared: string, fs: FileSystem.FileSet, i: nat)
    requires i < |ProbedExtensions|
    requires FileSystem.WithExtension(FileSystem.SplitExt(prepared).0, GuessedExtension(choice)) !in fs
    requires FileSystem.WithExtension(FileSystem.SplitExt(prepared).0, ProbedExtensions[i]) in fs
    requires forall j :: 0 <= j < i ==> FileSystem.WithExtension(FileSystem.SplitExt(prepared).0, ProbedExtensions[j]) !in fs
    ensures FallbackPath(choice, prepared, fs) == FileSystem.WithExtension(FileSystem.SplitExt(prepared).0, ProbedExtensions[i])
  {
    var base := FileSystem.SplitExt(prepared).0;
    var k := FileSystem.FirstExisting(base, ProbedExtensions, fs);
    assert k.Some?;
    assert k.value == i by {
      if k.value < i {
      } else if k.value > i {
      }
    }
  }

  /** What the catch-all handler turns every other exception into. */
  function Unexpected(className: string): Error {
    DownloaderError("An unexpected error occurred during download: " + className)
  }

  /** The final path of the synchronous part, or the class of the
      exception it raises: a requested download without a `filepath` key
      is a KeyError, and a missing info dictionary a DownloaderError. */
  function FinalPath(choice: string, info: Option<InfoDict>, prepared: string, fs: FileSystem.FileSet): (r: Result<string, string>)
    ensures info.None? ==> r == Err("DownloaderError")
    ensures info.Some? && |info.value.requested| > 0 ==>
      r == (if info.value.requested[0].Some? then Ok(info.value.requested[0].value) else Err("KeyError"))
    ensures info.Some? && |info.value.requested| == 0 ==> r == Ok(FallbackPath(choice, prepared, fs))
  {
    match info
    case None => Err("DownloaderError")
    case Some(d) =>
      if |d.requested| > 0 then
        match d.requested[0]
        case Some(p) => Ok(p)
        case None => Err("KeyError")
      else Ok(FallbackPath(choice, prepared, fs))
  }

  /** `download_media` of the first downloader, given yt-dlp's outcome, the
      name `prepare_filename` gives and the file set once yt-dlp is done;
      it also returns the file set after its cleanup calls, which never
      remove anything: they only run on a path that does not exist. */
  function DownloadMedia(choice: string, outcome: Extraction, prepared: string, fs: FileSystem.FileSet): (r: (Result<(string, string), Error>, FileSystem.FileSet))
    ensures r.1 == fs
    ensures FormatFor(choice).Err? ==> r.0 == Err(FormatFor(choice).error)
    ensures r.0.Err? && FormatFor(choice).Ok? ==> r.0.error.DownloaderError?
    ensures r.0.Ok? ==> r.0.value.0 in fs && outcome.Extracted? && outcome.info.Some?
    ensures r.0.Ok? ==> r.0.value.1 == outcome.info.value.title.GetOr("downloaded_file")
    ensures FormatFor(choice).Ok? && outcome.DownloadError? ==> r.0 == Err(DownloaderError("Download failed. Error: " + outcome.msg))
    ensures FormatFor(choice).Ok? && outcome.Raised? ==> r.0 == Err(Unexpected(outcome.className))
    ensures r.0.Ok? ==> FinalPath(choice, outcome.info, prepared, fs) == Ok(r.0.value.0)
    ensures FormatFor(choice).Ok? && outcome.Extracted? ==>
      match FinalPath(choice, outcome.info, prepared, fs)
      case Err(name) => r.0 == Err(Unexpected(name))
      case Ok(path) =>
        r.0 == (if path != "" && path in fs then Ok((path, outcome.info.value.title.GetOr("downloaded_file")))
                else Err(Unexpected("DownloaderError")))
  {
    match FormatFor(choice)
    case Err(e) => (Err(e), fs)
    case Ok(_) =>
      match outcome
      case DownloadError(msg) => (Err(DownloaderError("Download failed. Error: " + msg)), fs)
      case Raised(name, _) => (Err(Unexpected(name)), fs)
      case Extracted(info) =>
        match FinalPath(choice, info, prepared, fs)
        case Err(name) => (Err(Unexpected(name)), fs)
        case Ok(path) =>
          if path != "" && path in fs && info.Some? then (Ok((path, info.value.title.GetOr("downloaded_file"))), fs)
          else
            // the not-found branch cleans the path up, raises, and the
            // catch-all handler cleans it up again
            var afterNotFound := if path != "" then FileSystem.CleanupFile(fs, path) else fs;
            var afterHandler := if path != "" then FileSystem.CleanupFile(afterNotFound, path) else afterNotFound;
            (Err(Unexpected("DownloaderError")), afterHandler)
  }

  /** The "final file could not be found" error never reaches the caller
      under its own text: the catch-all handler reports it by class name. */
  lemma NotFoundReportedByClassName(choice: string, info: InfoDict, prepared: string, fs: FileSystem.FileSet)
    requires FormatFor(choice).Ok?
    requires |info.requested| > 0 && info.requested[0].Some? && info.requested[0].value !in fs
    ensures DownloadMedia(choice, Extracted(Some(info)), prepared, fs).0 == Err(Unexpected("DownloaderError"))
    ensures Unexpected("DownloaderError") == DownloaderError("An unexpected error occurred during download: DownloaderError")
  {
    assert FinalPath(choice, Some(info), prepared, fs) == Ok(info.requested[0].value);
  }

  /** `get_video_info` of the first downloader: the info dictionary as
      yt-dlp returns it, possibly missing. */
  function GetVideoInfo(outcome: Extraction): (r: Result<Option<InfoDict>, Error>)
    ensures r.Ok? <==> outcome.Extracted?
    ensures r.Ok? ==> r.value == outcome.info
    ensures outcome.DownloadError? ==> r == Err(DownloaderError("Could not fetch video info. Is the URL correct? Error: " + outcome.msg))
    ensures outcome.Raised? ==> r == Err(DownloaderError("An unexpected error occurred while fetching video info: " + outcome.className))
  {
    match outcome
    case Extracted(info) => Ok(info)
    case DownloadError(msg) => Err(DownloaderError("Could not fetch video info. Is the URL correct? Error: " + msg))
    case Raised(name, _) => Err(DownloaderError("An unexpected error occurred while fetching video info: " + name))
  }
}
