/** `YouTubeService`: the download, the optional GIF conversion, the
    statuses written on the way and the cleanup on failure. The service
    writes only the statuses of the work it does itself; the handler that
    calls it writes the upload statuses and the failure. */
module Service {
  import opened Wrappers
  import opened Text
  import opened Errors
  import opened YtDlp
  import opened Trace
  import FileSystem
  import QualityOptions
  import MediaDownloader
  import GifConverter

  /** The description of a selector shown to the user and returned with the
      file. A height selector keeps its digits as written. */
  function ChoiceLabel(sel: string): (r: string) {
    if sel == "audio" then "Audio Only"
    else if sel == "gif" then "GIF (Full Video)"
    else if sel == "best" then "Best Quality Video"
    else if MediaDownloader.IsHeightSelector(sel) then sel[1..] + "p Video"
    else "Selected Quality"
  }

  /** The fallback label is shown exactly for the selectors the downloader
      refuses. */
  lemma FallbackLabelIffRefused(sel: string)
    ensures ChoiceLabel(sel) == "Selected Quality" <==> !MediaDownloader.IsKnownSelector(sel)
  {
    if MediaDownloader.IsHeightSelector(sel) {
      var d := sel[1..];
      assert ChoiceLabel(sel) == d + "p Video";
      assert |ChoiceLabel(sel)| == |d| + 7;
      if |d| == 9 {
        assert ChoiceLabel(sel)[0] != 'S' by {
          assert ChoiceLabel(sel)[0] == d[0];
        }
      }
    }
  }

  /** The selector a quality option carries for a height is labelled with
      that height. */
  lemma HeightLabel(n: nat)
    ensures ChoiceLabel(QualityOptions.HeightSelector(n)) == NatToString(n) + "p Video"
  {
    MediaDownloader.HeightSelectorAccepted(n);
    assert QualityOptions.HeightSelector(n)[1..] == NatToString(n);
  }

  /** `get_video_details`: the title (default `Unknown Title`), the
      duration and the formats (default none) of the info dictionary. */
  datatype Details = Details(title: string, duration: Option<int>, formats: seq<QualityOptions.Format>)

  function GetVideoDetails(outcome: Extraction): (r: Result<Details, Error>)
    ensures r.Ok? <==> MediaDownloader.GetVideoInfo(outcome).Ok?
    ensures r.Ok? ==> (outcome.Extracted? && outcome.info.Some?
      && r.value == Details(outcome.info.value.title.GetOr("Unknown Title"), outcome.info.value.duration, outcome.info.value.formats.value))
    ensures r.Err? ==> r.error == ServiceError("Failed to get video details: " + MediaDownloader.GetVideoInfo(outcome).error.msg)
  {
    match MediaDownloader.GetVideoInfo(outcome)
    case Ok(info) => Ok(Details(info.title.GetOr("Unknown Title"), info.duration, info.formats.GetOr([])))
    case Err(e) => Err(ServiceError("Failed to get video details: " + e.Message()))
  }

  /** The outer handlers: the bot's own errors pass unchanged, any other is
      wrapped by class name. */
  function Reraised(e: Error): (r: Error)
    ensures r.IsBotError()
    ensures e.IsBotError() ==> r == e
  {
    if e.IsBotError() then e else ServiceError("An unexpected error occurred during processing: " + e.TypeName())
  }

  /** The inner handler around the conversion: ConversionError and
      FileNotFoundError pass, anything else becomes a ConversionError. */
  function ConversionRaised(e: Error): (r: Error)
    ensures r.ConversionError? || r.FileNotFoundError?
  {
    if e.ConversionError? || e.FileNotFoundError? then e
    else ConversionError("Unexpected GIF conversion error: " + e.TypeName())
  }

  /** The cleanup of the outer handlers: the downloaded path when set, and
      the final path when set and different. Removing an absent file
      changes nothing, so the existence tests are left to `CleanupFile`. */
  function CleanupOnError(fs: FileSystem.FileSet, downloaded: Option<string>, final: Option<string>): (r: FileSystem.FileSet)
    ensures downloaded.Some? ==> downloaded.value !in r
    ensures final.Some? ==> final.value !in r
    ensures forall q :: (downloaded.Some? ==> q != downloaded.value) && (final.Some? ==> q != final.value) ==> (q in r <==> q in fs)
  {
    var afterDownloaded := if downloaded.Some? then FileSystem.CleanupFile(fs, downloaded.value) else fs;
    if final.Some? && final != downloaded then FileSystem.CleanupFile(afterDownloaded, final.value) else afterDownloaded
  }

  function NotFoundMessage(record: int): string {
    "Processed media file not found for record " + IntToString(record) + "."
  }

  function StartNotice(sel: string): Effect {
    Notice("\U{1F680} Starting download (" + ChoiceLabel(sel) + ")...")
  }

  const ConvertingNotice: Effect := Notice("\U{23F3} Converting to GIF...")

  /** What `process_and_download` returns or raises, the file set after it,
      and the effects it had. */
  datatype Processed = Processed(result: Result<(string, string, string), Error>, fs: FileSystem.FileSet, effects: seq<Effect>)

  /** The effects of a run up to the download. */
  function Started(sel: string): (r: seq<Effect>)
    ensures forall i :: 0 <= i < |r| ==> ServiceEffect(r[i])
    ensures Statuses(r) == [DownloadStarted]
  {
    var r := [StartNotice(sel), StatusSet(DownloadStarted, None, None)];
    assert r[1..][1..] == [];
    r
  }

  /** The effects of a run that got through the download with `title`. */
  function Downloaded(sel: string, title: string): (r: seq<Effect>)
    ensures forall i :: 0 <= i < |r| ==> ServiceEffect(r[i])
    ensures Statuses(r) == [DownloadStarted]
  {
    var r := Started(sel) + [TitleSet(title)];
    assert [TitleSet(title)][1..] == [];
    StatusesAppend(Started(sel), [TitleSet(title)]);
    r
  }

  /** The effects of a run that went on to convert the download. */
  function Converted(sel: string, title: string): (r: seq<Effect>)
    ensures forall i :: 0 <= i < |r| ==> ServiceEffect(r[i])
    ensures Statuses(r) == [DownloadStarted, ConversionStarted, Converting]
  {
    var tail := [ConvertingNotice, StatusSet(ConversionStarted, None, None), StatusSet(Converting, None, None)];
    assert tail[1..][1..][1..] == [];
    assert Statuses(tail[1..][1..]) == [Converting];
    assert Statuses(tail) == [ConversionStarted, Converting];
    StatusesAppend(Downloaded(sel, title), tail);
    Downloaded(sel, title) + tail
  }

  /** The conversion step of `process_and_download` for a download at
      `path` titled `title`: the GIF replaces the download, or the failure
      is raised after the download is removed. */
  function ConvertDownload(record: int, path: string, title: string, fs: FileSystem.FileSet,
                           ffmpeg: Option<string>, pass1: GifConverter.FfmpegRun, pass2: GifConverter.FfmpegRun): (r: Processed)
    ensures r.effects == Converted("gif", title)
    ensures r.result.Err? ==> r.result.error.IsBotError() && r.fs <= fs && (path != "" ==> path !in r.fs)
    ensures r.result.Ok? ==>
      && r.result.value == (GifConverter.GifPath(path), title, ChoiceLabel("gif"))
      && GifConverter.GifPath(path) in r.fs && path !in r.fs
      && r.fs <= fs + {GifConverter.GifPath(path)}
    ensures forall q :: q in fs && q != path && q != GifConverter.GifPath(path) && q != GifConverter.PalettePath(path) ==> q in r.fs
  {
    var conv := GifConverter.ConvertToGif(path, fs, ffmpeg, pass1, pass2);
    match conv.result
    case Err(e) => ConversionFailed(path, title, e, conv.fs)
    case Ok(gif) => ConversionFinished(record, path, title, gif, conv.fs)
  }

  /** A failed conversion is raised after the download is removed. */
  function ConversionFailed(path: string, title: string, e: Error, convFs: FileSystem.FileSet): (r: Processed)
    ensures r.effects == Converted("gif", title)
    ensures r.result.Err? && r.result.error.IsBotError()
    ensures r.fs <= convFs && (path != "" ==> path !in r.fs)
    ensures forall q :: q in convFs && q != path ==> q in r.fs
  {
    var downloaded := if path != "" then Some(path) else None;
    Processed(Err(Reraised(ConversionRaised(e))), CleanupOnError(convFs, downloaded, downloaded), Converted("gif", title))
  }

  /** After a conversion that wrote `gif`, the download is removed and the
      GIF is returned; a GIF that is gone by then is reported not found. */
  function ConversionFinished(record: int, path: string, title: string, gif: string, convFs: FileSystem.FileSet): (r: Processed)
    requires gif != ""
    ensures r.effects == Converted("gif", title)
    ensures r.result.Err? ==> r.result.error.IsBotError() && r.fs <= convFs - {gif} && path !in r.fs
    ensures r.result.Ok? ==> r.result.value == (gif, title, ChoiceLabel("gif")) && gif in r.fs && path !in r.fs && r.fs <= convFs
    ensures r.result.Ok? <==> gif in convFs && gif != path
    ensures forall q :: q in convFs && q != path && q != gif ==> q in r.fs
  {
    var fs2 := FileSystem.CleanupFile(convFs, path);
    if gif in fs2 then Processed(Ok((gif, title, ChoiceLabel("gif"))), fs2, Converted("gif", title))
    else Processed(Err(ServiceError(NotFoundMessage(record))), CleanupOnError(fs2, None, Some(gif)), Converted("gif", title))
  }

  /** `process_and_download` for the record `record`, given yt-dlp's outcome,
      the name it would prepare, the file set once yt-dlp is done, and what
      ffmpeg does when the selector is `gif`. */
  function ProcessAndDownload(sel: string, record: int, outcome: Extraction, prepared: string, fs: FileSystem.FileSet,
                              ffmpeg: Option<string>, pass1: GifConverter.FfmpegRun, pass2: GifConverter.FfmpegRun): (r: Processed)
    // the statuses: download_started, then the two conversion statuses
    // exactly when a GIF is to be made from a finished download
    ensures var dl := MediaDownloader.DownloadMedia(sel, outcome, prepared, fs);
      Statuses(r.effects) == if sel == "gif" && dl.Ok? then [DownloadStarted, ConversionStarted, Converting] else [DownloadStarted]
    ensures |r.effects| >= 2 && r.effects[..2] == [StartNotice(sel), StatusSet(DownloadStarted, None, None)]
    ensures var dl := MediaDownloader.DownloadMedia(sel, outcome, prepared, fs);
      && (dl.Err? ==> |r.effects| == 2 && r.fs == fs && r.result == Err(Reraised(dl.error)))
      && (dl.Ok? ==> |r.effects| > 2 && r.effects[2] == TitleSet(dl.value.1))
    // no upload, and no status of the upload or of the end of the run
    ensures forall i :: 0 <= i < |r.effects| ==> ServiceEffect(r.effects[i])
    // what is raised is always one of the bot's own errors
    ensures r.result.Err? ==> r.result.error.IsBotError()
    ensures r.result.Ok? ==> var dl := MediaDownloader.DownloadMedia(sel, outcome, prepared, fs);
      && dl.Ok?
      && r.result.value.0 != "" && r.result.value.0 in r.fs
      && r.result.value.1 == dl.value.1 && r.result.value.2 == ChoiceLabel(sel)
    // without conversion the downloaded file is the result
    ensures var dl := MediaDownloader.DownloadMedia(sel, outcome, prepared, fs);
      sel != "gif" && dl.Ok? && dl.value.0 != "" ==> r == Processed(Ok((dl.value.0, dl.value.1, ChoiceLabel(sel))), fs, Downloaded(sel, dl.value.1))
    // a GIF replaces the download it was made from
    ensures var dl := MediaDownloader.DownloadMedia(sel, outcome, prepared, fs);
      sel == "gif" && r.result.Ok? ==> r.result.value.0 == GifConverter.GifPath(dl.value.0) && dl.value.0 !in r.fs
    // a failure leaves no new file behind and removes the download
    ensures r.result.Err? ==> r.fs <= fs
    ensures var dl := MediaDownloader.DownloadMedia(sel, outcome, prepared, fs);
      r.result.Err? && dl.Ok? && dl.value.0 != "" ==> dl.value.0 !in r.fs
    ensures r.result.Ok? ==> r.fs <= fs + {r.result.value.0}
    // and nothing but the download and the files derived from it is removed
    ensures var dl := MediaDownloader.DownloadMedia(sel, outcome, prepared, fs);
      forall q :: q in fs && !(dl.Ok? && (q == dl.value.0 || q == GifConverter.GifPath(dl.value.0) || q == GifConverter.PalettePath(dl.value.0))) ==> q in r.fs
  {
    match MediaDownloader.DownloadMedia(sel, outcome, prepared, fs)
    case Err(e) => Processed(Err(Reraised(e)), fs, Started(sel))
    case Ok((path, title)) => AfterDownload(sel, record, path, title, fs, ffmpeg, pass1, pass2)
  }

  /** The part of `process_and_download` after a download to `path`, which
      is in the file set, titled `title`. */
  function AfterDownload(sel: string, record: int, path: string, title: string, fs: FileSystem.FileSet,
                         ffmpeg: Option<string>, pass1: GifConverter.FfmpegRun, pass2: GifConverter.FfmpegRun): (r: Processed)
    requires path in fs
    ensures Statuses(r.effects) == if sel == "gif" then [DownloadStarted, ConversionStarted, Converting] else [DownloadStarted]
    ensures |r.effects| > 2 && r.effects[..2] == [StartNotice(sel), StatusSet(DownloadStarted, None, None)] && r.effects[2] == TitleSet(title)
    ensures forall i :: 0 <= i < |r.effects| ==> ServiceEffect(r.effects[i])
    ensures r.result.Err? ==> r.result.error.IsBotError() && r.fs <= fs && (path != "" ==> path !in r.fs)
    ensures r.result.Ok? ==> r.result.value.0 != "" && r.result.value.0 in r.fs && r.result.value.1 == title && r.result.value.2 == ChoiceLabel(sel)
    ensures sel != "gif" && path != "" ==> r == Processed(Ok((path, title, ChoiceLabel(sel))), fs, Downloaded(sel, title))
    ensures sel == "gif" && r.result.Ok? ==> r.result.value.0 == GifConverter.GifPath(path) && path !in r.fs
    ensures r.result.Ok? ==> r.fs <= fs + {r.result.value.0}
    ensures forall q :: q in fs && q != path && q != GifConverter.GifPath(path) && q != GifConverter.PalettePath(path) ==> q in r.fs
  {
    if sel == "gif" then ConvertDownload(record, path, title, fs, ffmpeg, pass1, pass2)
    // the download is in the file set, so of the not-found test only the
    // falsy empty path is left
    else if path != "" then Processed(Ok((path, title, ChoiceLabel(sel))), fs, Downloaded(sel, title))
    else
      Processed(Err(ServiceError(NotFoundMessage(record))), fs, Downloaded(sel, title))
  }

  /** A download that already is a `.gif` file is its own GIF path, so a
      conversion that succeeds is followed by the removal of its own
      result, and the run fails with the not-found error. */
  lemma GifDownloadNotFound(record: int, dir: string, name: string, title: string, fs: FileSystem.FileSet,
                            ffmpeg: Option<string>, pass1: GifConverter.FfmpegRun, pass2: GifConverter.FfmpegRun)
    requires '.' !in name && '/' !in name && |name| > 0
    requires GifConverter.ConvertToGif(dir + "/" + name + ".gif", fs, ffmpeg, pass1, pass2).result.Ok?
    ensures ConvertDownload(record, dir + "/" + name + ".gif", title, fs, ffmpeg, pass1, pass2).result == Err(ServiceError(NotFoundMessage(record)))
    ensures dir + "/" + name + ".gif" !in ConvertDownload(record, dir + "/" + name + ".gif", title, fs, ffmpeg, pass1, pass2).fs
  {
    GifConverter.GifPathOfGif(dir, name);
  }
}
