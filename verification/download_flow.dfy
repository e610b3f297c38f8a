/** The quality-button handler: parse the button's data, create the
    download record, run the service, gate the upload on the file size,
    upload, and clean up. Everything outside the process is a parameter:
    the payload resolver, the record the database hands back, yt-dlp and
    ffmpeg, the file sizes and what Telegram does with the upload. */
module DownloadFlow {
  import opened Wrappers
  import opened Text
  import opened Errors
  import opened YtDlp
  import opened Trace
  import FileSystem
  import GifConverter
  import CallbackParsing
  import Service
  import MediaDownloader

  /** The upload limit of the default Bot API server. */
  const MaxUploadBytes: int := 50 * 1024 * 1024

  /** What Telegram does with an upload: accept it, refuse it with a
      `TelegramError` (its `message`, whether it is a `NetworkError`, and
      its `str`), or fail with any other exception. */
  datatype UploadOutcome =
    | Uploaded
    | TelegramFailure(message: string, isNetwork: bool, text: string)
    | UploadRaised(className: string)

  /** Everything the handler's run depends on besides the button's data.
      `logged` says whether `upsert_user` and `log_interaction` returned:
      they run inside the handler's `try`, so a database error there ends
      the press in the catch-all before anything else happens. */
  datatype World = World(
    logged: bool,
    resolve: string -> Option<string>,
    record: Option<int>,
    extraction: Extraction,
    prepared: string,
    fs: FileSystem.FileSet,
    ffmpeg: Option<string>,
    pass1: GifConverter.FfmpegRun,
    pass2: GifConverter.FfmpegRun,
    sizeOf: string -> int,
    upload: UploadOutcome)

  /** `if not download_record_id`: a record that could not be created, or
      the id 0. */
  predicate Tracked(record: Option<int>) {
    record.Some? && record.value != 0
  }

  /** `_get_upload_method_and_args`: audio is sent as audio with its title,
      a GIF as an animation, anything else as a video. */
  function UploadFor(sel: string, path: string, title: string, caption: string): (r: Effect)
    ensures r.Upload? && r.path == path && r.caption == caption
    ensures r.via == SendAudio <==> sel == "audio"
    ensures r.via == SendAnimation <==> sel == "gif"
    ensures r.audioTitle.Some? <==> sel == "audio"
    ensures r.audioTitle.Some? ==> r.audioTitle.value == title
  {
    if sel == "audio" then Upload(SendAudio, path, caption, Some(title))
    else if sel == "gif" then Upload(SendAnimation, path, caption, None)
    else Upload(SendVideo, path, caption, None)
  }

  function Caption(title: string, description: string, url: string): string {
    title + "\n\nQuality: " + description + "\nSource: " + url
  }

  const InvalidFormat: string := "\U{274C} Invalid request format."
  const NotTracked: string := "\U{274C} Internal error: Failed to track download ID."
  const UploadingNotice: string := "\U{2B06}\U{FE0F} Uploading to Telegram..."
  const NotFoundAfterProcessing: string := "Processed media file not found after download/conversion."

  /** `_handle_service_error` with a record: `failed` with the error's text,
      then the error shown. */
  function ServiceFailure(e: Error): (r: seq<Effect>)
    ensures Statuses(r) == [Failed] && Uploads(r) == 0 && UploadProtocol(r)
  {
    var r := [StatusSet(Failed, Some(e.Message()), None), Notice("\U{274C} Failed: " + e.Message())];
    assert r[1..][1..] == [];
    r
  }

  /** The text `_handle_telegram_error` shows: a network error that timed
      out gets its own text, whatever the case of "timed out". */
  function TelegramText(message: string, isNetwork: bool, text: string): string {
    if isNetwork && Contains(Lower(text), "timed out") then "\U{274C} Upload failed: Connection timed out."
    else "\U{274C} Telegram Error: " + message
  }

  lemma TimeoutTextIgnoresCase(message: string, text: string)
    requires Contains(Lower(text), "timed out")
    ensures TelegramText(message, true, Upper(text)) == "\U{274C} Upload failed: Connection timed out."
    ensures TelegramText(message, false, text) == "\U{274C} Telegram Error: " + message
  {
    LowerOfUpper(text);
  }

  function TelegramFailed(message: string, isNetwork: bool, text: string): (r: seq<Effect>)
    ensures Statuses(r) == [Failed] && Uploads(r) == 0 && UploadProtocol(r)
  {
    var r := [StatusSet(Failed, Some("TelegramError: " + message), None), Notice(TelegramText(message, isNetwork, text))];
    assert r[1..][1..] == [];
    r
  }

  function UnexpectedFailed(className: string): (r: seq<Effect>)
    ensures Statuses(r) == [Failed] && Uploads(r) == 0 && UploadProtocol(r)
  {
    var r := [StatusSet(Failed, Some("Unexpected error: " + className), None), Notice("\U{274C} An unexpected error occurred.")];
    assert r[1..][1..] == [];
    r
  }

  /** The "file too large" outcome: `failed` with the size, the notice, and
      then, since the upload step returns normally, the deletion of the
      status message that holds the notice. */
  function TooLargeEffects(size: int): (r: seq<Effect>)
    ensures Statuses(r) == [Failed] && Uploads(r) == 0 && UploadProtocol(r)
  {
    var r := [StatusSet(Failed, Some("File too large (" + IntToString(size) + " bytes)"), Some(size)), TooLarge(size), StatusMessageDeleted];
    assert r[1..][1..][1..] == [];
    assert Statuses(r[1..][1..]) == [] && Uploads(r[1..][1..]) == 0;
    r
  }

  /** The upload itself and what follows it: `completed` with the size and
      the deletion of the status message, or the handler of the failure. */
  function AfterUpload(upload: UploadOutcome, size: int): (r: seq<Effect>)
    ensures EndsOnce(Statuses(r)) && Uploads(r) == 0
    ensures Statuses(r) == [if upload.Uploaded? then Completed else Failed]
    ensures forall i :: 0 < i < |r| ==> !(r[i].StatusSet? && r[i].status == Completed)
    ensures upload.Uploaded? ==> r == [StatusSet(Completed, None, Some(size)), StatusMessageDeleted]
    ensures !upload.Uploaded? ==> Statuses(r) == [Failed] && UploadProtocol(r)
  {
    match upload
    case Uploaded =>
      var r := [StatusSet(Completed, None, Some(size)), StatusMessageDeleted];
      assert r[1..][1..] == [];
      r
    case TelegramFailure(message, isNetwork, text) => TelegramFailed(message, isNetwork, text)
    case UploadRaised(name) => UnexpectedFailed(name)
  }

  /** An upload announced by `upload_started`, followed by effects that
      upload nothing and write `completed` at most first, keeps the
      protocol and adds `upload_started` in front of the statuses. */
  lemma UploadThenTail(head: seq<Effect>, tail: seq<Effect>)
    requires |head| == 3 && head[0] == StatusSet(UploadStarted, None, None)
    requires head[1].Notice? && head[2].Upload?
    requires Uploads(tail) == 0
    requires forall i :: 0 < i < |tail| ==> !(tail[i].StatusSet? && tail[i].status == Completed)
    ensures UploadProtocol(head + tail)
    ensures Uploads(head + tail) == 1
    ensures Statuses(head + tail) == [UploadStarted] + Statuses(tail)
    ensures (head + tail)[..3] == head && (head + tail)[3..] == tail
  {
    var r := head + tail;
    assert head[1..][1..][1..] == [];
    assert Uploads(head[1..][1..]) == 1 && Statuses(head[1..][1..]) == [];
    UploadsAppend(head, tail);
    StatusesAppend(head, tail);
    assert forall i :: 3 <= i < |r| ==> r[i] == tail[i - 3];
    forall i | 0 <= i < |r| && r[i].StatusSet? && r[i].status == Completed
      ensures 1 <= i && r[i - 1].Upload?
    {
      assert i == 3 && r[i] == tail[0];
    }
  }

  /** The upload of a file within the limit and what follows it. */
  function SendStage(sel: string, url: string, path: string, title: string, description: string,
                     size: int, upload: UploadOutcome): (r: seq<Effect>)
    ensures EndsOnce(Statuses(r)) && UploadProtocol(r) && Uploads(r) == 1
    ensures |r| > 3
    ensures r[..3] == [StatusSet(UploadStarted, None, None), Notice(UploadingNotice), UploadFor(sel, path, title, Caption(title, description, url))]
    ensures r[3..] == AfterUpload(upload, size)
    ensures forall i :: 0 <= i < |r| && r[i].Upload? ==> r[i].path == path
    ensures Completed in Statuses(r) <==> upload.Uploaded?
  {
    var head := [StatusSet(UploadStarted, None, None), Notice(UploadingNotice), UploadFor(sel, path, title, Caption(title, description, url))];
    var tail := AfterUpload(upload, size);
    UploadThenTail(head, tail);
    head + tail
  }

  /** `_upload_media_file` on the service's result and everything after it
      in the handler, for a tracked record. */
  function UploadStage(sel: string, url: string, path: string, title: string, description: string,
                       fs: FileSystem.FileSet, sizeOf: string -> int, upload: UploadOutcome): (r: seq<Effect>)
    ensures EndsOnce(Statuses(r)) && UploadProtocol(r)
    ensures path == "" || path !in fs ==> r == ServiceFailure(ServiceError(NotFoundAfterProcessing))
    // the size gate: a file over the limit is never uploaded, one at the
    // limit is
    ensures path != "" && path in fs && sizeOf(path) > MaxUploadBytes ==> r == TooLargeEffects(sizeOf(path))
    ensures path != "" && path in fs && sizeOf(path) <= MaxUploadBytes ==> r == SendStage(sel, url, path, title, description, sizeOf(path), upload)
    ensures Uploads(r) == (if path != "" && path in fs && sizeOf(path) <= MaxUploadBytes then 1 else 0)
    ensures forall i :: 0 <= i < |r| && r[i].Upload? ==> r[i].path == path && sizeOf(path) <= MaxUploadBytes
  {
    if path == "" || path !in fs then ServiceFailure(ServiceError(NotFoundAfterProcessing))
    else if sizeOf(path) > MaxUploadBytes then TooLargeEffects(sizeOf(path))
    else SendStage(sel, url, path, title, description, sizeOf(path), upload)
  }

  /** What a press of a quality button leaves behind: the file set and the
      effects, in order. */
  datatype Outcome = Outcome(fs: FileSystem.FileSet, effects: seq<Effect>)

  /** The handler's effects after the service's: the protocol, the single
      terminal status and the upload of one path within the limit carry
      over from the handler's part to the whole run. */
  lemma ServiceThenHandler(a: seq<Effect>, b: seq<Effect>, path: string, sizeOf: string -> int)
    requires forall i :: 0 <= i < |a| ==> ServiceEffect(a[i])
    requires UploadProtocol(b) && EndsOnce(Statuses(b)) && Uploads(b) <= 1
    requires forall i :: 0 <= i < |b| && b[i].Upload? ==> b[i].path == path && sizeOf(path) <= MaxUploadBytes
    ensures UploadProtocol(a + b) && EndsOnce(Statuses(a + b)) && Uploads(a + b) == Uploads(b)
    ensures forall i :: 0 <= i < |a + b| && (a + b)[i].Upload? ==> (a + b)[i].path == path && sizeOf(path) <= MaxUploadBytes
    ensures (a + b)[..|a|] == a && (a + b)[|a|..] == b
  {
    ServicePrefix(a, b);
    assert forall i :: 0 <= i < |a| ==> (a + b)[i] == a[i] && !a[i].Upload?;
    assert forall i :: |a| <= i < |a + b| ==> (a + b)[i] == b[i - |a|];
  }

  /** The service's effects followed by the report of its failure. */
  lemma FailureAfterService(a: seq<Effect>, e: Error)
    requires forall i :: 0 <= i < |a| ==> ServiceEffect(a[i])
    ensures EndsOnce(Statuses(a + ServiceFailure(e))) && UploadProtocol(a + ServiceFailure(e))
    ensures Uploads(a + ServiceFailure(e)) == 0
    ensures forall i :: 0 <= i < |a + ServiceFailure(e)| ==> !(a + ServiceFailure(e))[i].Upload?
    ensures |a + ServiceFailure(e)| > |a|
    ensures (a + ServiceFailure(e))[..|a|] == a && (a + ServiceFailure(e))[|a|..] == ServiceFailure(e)
  {
    ServiceThenHandler(a, ServiceFailure(e), "", x => 0);
  }

  /** The handler's run once the service has come back with `p`. */
  function AfterService(sel: string, url: string, p: Service.Processed, fs: FileSystem.FileSet,
                        sizeOf: string -> int, upload: UploadOutcome): (r: Outcome)
    requires forall i :: 0 <= i < |p.effects| ==> ServiceEffect(p.effects[i])
    requires p.result.Err? ==> p.fs <= fs
    requires p.result.Ok? ==> p.fs <= fs + {p.result.value.0}
    ensures EndsOnce(Statuses(r.effects))
    ensures UploadProtocol(r.effects)
    ensures Uploads(r.effects) <= 1
    ensures forall i :: 0 <= i < |r.effects| && r.effects[i].Upload? ==>
      sizeOf(r.effects[i].path) <= MaxUploadBytes && r.effects[i].path !in r.fs
    ensures r.fs <= fs
    ensures |r.effects| > |p.effects| && r.effects[..|p.effects|] == p.effects
    ensures p.result.Err? ==> r.fs == p.fs && r.effects[|p.effects|..] == ServiceFailure(p.result.error) && Uploads(r.effects) == 0
    // a result goes on to the upload stage, and `_cleanup_resources`
    // removes the final file whether it was uploaded or not
    ensures p.result.Ok? ==>
      && r.effects[|p.effects|..] == UploadStage(sel, url, p.result.value.0, p.result.value.1, p.result.value.2, p.fs, sizeOf, upload)
      && r.fs == FileSystem.CleanupFile(p.fs, p.result.value.0)
    // a final file that exists is uploaded exactly when it is within the limit
    ensures p.result.Ok? && p.result.value.0 != "" && p.result.value.0 in p.fs ==>
      (Uploads(r.effects) == 1 <==> sizeOf(p.result.value.0) <= MaxUploadBytes)
  {
    match p.result
    case Err(e) =>
      var tail := ServiceFailure(e);
      FailureAfterService(p.effects, e);
      Outcome(p.fs, p.effects + tail)
    case Ok((path, title, description)) =>
      var stage := UploadStage(sel, url, path, title, description, p.fs, sizeOf, upload);
      ServiceThenHandler(p.effects, stage, path, sizeOf);
      // `_cleanup_resources` removes the final file
      Outcome(FileSystem.CleanupFile(p.fs, path), p.effects + stage)
  }

  /** The handler's run from the service call on, for a parsed button and
      a tracked record. */
  function RunTracked(sel: string, url: string, record: int, w: World): (r: Outcome)
    ensures EndsOnce(Statuses(r.effects))
    ensures UploadProtocol(r.effects)
    ensures Uploads(r.effects) <= 1
    ensures forall i :: 0 <= i < |r.effects| && r.effects[i].Upload? ==>
      w.sizeOf(r.effects[i].path) <= MaxUploadBytes && r.effects[i].path !in r.fs
    ensures r.fs <= w.fs
    ensures PressFiles(sel, record, w, r.fs)
    ensures UploadedIffFits(sel, record, w, r.effects)
    // a failed service run is reported with one `failed` status
    // the service's own effects come first
    ensures var p := Service.ProcessAndDownload(sel, record, w.extraction, w.prepared, w.fs, w.ffmpeg, w.pass1, w.pass2);
      |r.effects| > |p.effects| && r.effects[..|p.effects|] == p.effects
    ensures var p := Service.ProcessAndDownload(sel, record, w.extraction, w.prepared, w.fs, w.ffmpeg, w.pass1, w.pass2);
      p.result.Err? ==> Uploads(r.effects) == 0 && r.effects[|p.effects|..] == ServiceFailure(p.result.error)
  {
    var p := Service.ProcessAndDownload(sel, record, w.extraction, w.prepared, w.fs, w.ffmpeg, w.pass1, w.pass2);
    var r := AfterService(sel, url, p, w.fs, w.sizeOf, w.upload);
    TrackedFiles(sel, record, w, p, r.fs);
    r
  }

  /** What a tracked press for `sel` leaves in the file set `fs`: neither
      the download nor the file the service made from it survives, and
      every file the request did not produce is kept. */
  predicate PressFiles(sel: string, record: int, w: World, fs: FileSystem.FileSet) {
    var dl := MediaDownloader.DownloadMedia(sel, w.extraction, w.prepared, w.fs);
    var p := Service.ProcessAndDownload(sel, record, w.extraction, w.prepared, w.fs, w.ffmpeg, w.pass1, w.pass2);
    && (dl.Ok? && dl.value.0 != "" ==> dl.value.0 !in fs)
    && (p.result.Ok? ==> p.result.value.0 !in fs)
    && (forall q :: q in w.fs && !(dl.Ok? && (q == dl.value.0 || q == GifConverter.GifPath(dl.value.0) || q == GifConverter.PalettePath(dl.value.0))) ==> q in fs)
  }

  /** A file the service hands back is uploaded exactly when it is within
      the limit. */
  predicate UploadedIffFits(sel: string, record: int, w: World, effects: seq<Effect>) {
    var p := Service.ProcessAndDownload(sel, record, w.extraction, w.prepared, w.fs, w.ffmpeg, w.pass1, w.pass2);
    p.result.Ok? ==> (Uploads(effects) == 1 <==> w.sizeOf(p.result.value.0) <= MaxUploadBytes)
  }

  /** The files a tracked press leaves: the service's, less its result. */
  lemma TrackedFiles(sel: string, record: int, w: World, p: Service.Processed, fs: FileSystem.FileSet)
    requires p == Service.ProcessAndDownload(sel, record, w.extraction, w.prepared, w.fs, w.ffmpeg, w.pass1, w.pass2)
    requires p.result.Err? ==> fs == p.fs
    requires p.result.Ok? ==> fs == FileSystem.CleanupFile(p.fs, p.result.value.0)
    ensures PressFiles(sel, record, w, fs)
  {
  }

  /** `handle_download_callback` of the callback package, for a query with
      its message, data and user present. */
  function HandleDownloadCallback(data: string, w: World): (r: Outcome)
    // a database error while logging the press ends it with nothing shown
    ensures !w.logged ==> r == Outcome(w.fs, [])
    // a button that does not parse only gets the message edited
    ensures w.logged && CallbackParsing.ParseQualityCallback(data, w.resolve).None? ==> r == Outcome(w.fs, [Notice(InvalidFormat)])
    // without a record the handler stops before any work and any status
    ensures w.logged && CallbackParsing.ParseQualityCallback(data, w.resolve).Some? && !Tracked(w.record) ==> r == Outcome(w.fs, [Notice(NotTracked)])
    // a tracked request ends with exactly one terminal status, its last
    ensures w.logged && CallbackParsing.ParseQualityCallback(data, w.resolve).Some? && Tracked(w.record) ==> EndsOnce(Statuses(r.effects))
    ensures |Statuses(r.effects)| > 0 ==> Tracked(w.record)
    // uploads happen in order, at most once, and only within the limit
    ensures UploadProtocol(r.effects)
    ensures Uploads(r.effects) <= 1
    ensures forall i :: 0 <= i < |r.effects| && r.effects[i].Upload? ==>
      w.sizeOf(r.effects[i].path) <= MaxUploadBytes && r.effects[i].path !in r.fs
    ensures r.fs <= w.fs
    // for a tracked press: the download and the final file are gone
    // afterwards, every file the request did not produce is kept, and a
    // final file is uploaded exactly when it fits
    ensures w.logged && CallbackParsing.ParseQualityCallback(data, w.resolve).Some? && Tracked(w.record) ==>
      && PressFiles(CallbackParsing.ParseQualityCallback(data, w.resolve).value.0, w.record.value, w, r.fs)
      && UploadedIffFits(CallbackParsing.ParseQualityCallback(data, w.resolve).value.0, w.record.value, w, r.effects)
  {
    if !w.logged then Outcome(w.fs, [])
    else
      match CallbackParsing.ParseQualityCallback(data, w.resolve)
      case None => NoticeAlone(InvalidFormat); Outcome(w.fs, [Notice(InvalidFormat)])
      case Some((sel, url)) =>
        if !Tracked(w.record) then NoticeAlone(NotTracked); Outcome(w.fs, [Notice(NotTracked)])
        else RunTracked(sel, url, w.record.value, w)
  }
}
