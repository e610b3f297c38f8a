/** The quality-button handler of the single callback module that preceded
    the callback package. It builds its service without the database
    manager the service's constructor requires, so as written every press
    that gets past the parser raises a TypeError before a download record
    exists. The rest of the handler was written against an older database
    and service API that took the connection as an argument; it is modelled
    as if that API existed: its statuses, its size gate, its upload and the
    removal of the final file. */
module LegacyCallback {
  import opened Wrappers
  import opened Text
  import opened Errors
  import opened Trace
  import FileSystem
  import CallbackParsing
  import Keyboards
  import Service
  import DownloadFlow
  import MediaDownloader
  import GifConverter

  const DbMissing: string := "\U{274C} Internal Error (DB Missing). Please notify the administrator."
  const NotRecorded: string := "\U{274C} Internal error: Could not track download request."
  const ProcessingComplete: string := "\U{2705} Processing complete! Preparing upload..."
  const SentSuccessfully: string := "\U{1F389} File sent successfully!"

  /** The effects of a run and the class of the exception that escapes it,
      if any. */
  datatype Escaping = Escaping(effects: seq<Effect>, raised: Option<string>)

  /** The handler as written, for a query with its message, data and user
      present: the missing connection and the unparsable data are
      answered, and anything else reaches the service's construction. */
  function HandleAsWritten(connected: bool, data: string): (r: Escaping)
    ensures !connected ==> r == Escaping([Notice(DbMissing)], None)
    ensures connected && CallbackParsing.ParseRawQualityCallback(data).None? ==> r == Escaping([Notice(DownloadFlow.InvalidFormat)], None)
    ensures connected && CallbackParsing.ParseRawQualityCallback(data).Some? ==> r == Escaping([], Some("TypeError"))
  {
    if !connected then Escaping([Notice(DbMissing)], None)
    else if CallbackParsing.ParseRawQualityCallback(data).None? then Escaping([Notice(DownloadFlow.InvalidFormat)], None)
    // `YouTubeService()` without its `db_manager` argument
    else Escaping([], Some("TypeError"))
  }

  /** As written, the handler never records, downloads or uploads anything. */
  lemma AsWrittenNeverDownloads(connected: bool, data: string)
    ensures Statuses(HandleAsWritten(connected, data).effects) == []
    ensures Uploads(HandleAsWritten(connected, data).effects) == 0
    ensures HandleAsWritten(connected, data).raised.Some? <==> connected && CallbackParsing.ParseRawQualityCallback(data).Some?
  {
    var r := HandleAsWritten(connected, data);
    if |r.effects| == 1 {
      assert r.effects[1..] == [];
    }
  }

  /** The timeout text quotes the read timeout of the upload's arguments,
      which only a GIF sets. */
  function TelegramText(sel: string, message: string, isNetwork: bool, text: string): (r: string)
    ensures isNetwork && Contains(Lower(text), "timed out") && sel == "gif" ==>
      r == "\U{274C} Upload failed: Connection timed out (limit: 600.0s)."
    ensures isNetwork && Contains(Lower(text), "timed out") && sel != "gif" ==>
      r == "\U{274C} Upload failed: Connection timed out (limit: defaults)."
    ensures !(isNetwork && Contains(Lower(text), "timed out")) ==> r == "\U{274C} Telegram Error: " + message
  {
    if isNetwork && Contains(Lower(text), "timed out") then
      "\U{274C} Upload failed: Connection timed out (limit: " + (if sel == "gif" then "600.0" else "default") + "s)."
    else "\U{274C} Telegram Error: " + message
  }

  /** The upload and what follows it: `completed` with the size and the
      deletion of the status message, or a notice when the deletion fails;
      or the handler of the failure. */
  function AfterUpload(sel: string, upload: DownloadFlow.UploadOutcome, size: int, deleted: bool): (r: seq<Effect>)
    ensures Uploads(r) == 0
    ensures Statuses(r) == [if upload.Uploaded? then Completed else Failed]
    ensures forall i :: 0 < i < |r| ==> !r[i].StatusSet?
    ensures upload.Uploaded? ==> r == [StatusSet(Completed, None, Some(size)), if deleted then StatusMessageDeleted else Notice(SentSuccessfully)]
  {
    var r :=
      match upload
      case Uploaded => [StatusSet(Completed, None, Some(size)), if deleted then StatusMessageDeleted else Notice(SentSuccessfully)]
      case TelegramFailure(message, isNetwork, text) =>
        [StatusSet(Failed, Some("TelegramError: " + message), None), Notice(TelegramText(sel, message, isNetwork, text))]
      case UploadRaised(name) =>
        [StatusSet(Failed, Some("Unexpected error: " + name), None), Notice("\U{274C} An unexpected error occurred.")];
    assert r[1..][1..] == [];
    r
  }

  /** A final path that is missing: `failed` is written, a ServiceError
      raised, and its handler writes `failed` a second time. */
  function MissingFile(): (r: seq<Effect>)
    ensures Statuses(r) == [Failed, Failed] && Uploads(r) == 0
  {
    var msg := DownloadFlow.NotFoundAfterProcessing;
    var r := [StatusSet(Failed, Some(msg), None)] + DownloadFlow.ServiceFailure(ServiceError(msg));
    StatusesAppend([StatusSet(Failed, Some(msg), None)], DownloadFlow.ServiceFailure(ServiceError(msg)));
    UploadsAppend([StatusSet(Failed, Some(msg), None)], DownloadFlow.ServiceFailure(ServiceError(msg)));
    r
  }

  /** The missing-file branch ends the record twice. */
  lemma MissingFileEndsTwice()
    ensures !EndsOnce(Statuses(MissingFile()))
  {
    assert IsTerminal(Statuses(MissingFile())[0]);
  }

  /** The oversize branch: `failed` with the size and the notice, without
      the deletion of the status message the later handler performs. */
  function Oversized(size: int): (r: seq<Effect>)
    ensures Statuses(r) == [Failed] && Uploads(r) == 0 && UploadProtocol(r)
  {
    var r := [StatusSet(Failed, Some("File too large (" + IntToString(size) + " bytes)"), Some(size)), TooLarge(size)];
    assert r[1..][1..] == [];
    r
  }

  /** Everything after the service returned `(path, title, description)`:
      the processing notice, then the missing-file branch, the size gate or
      the upload. */
  function UploadStage(sel: string, url: string, path: string, title: string, description: string,
                       fs: FileSystem.FileSet, sizeOf: string -> int, upload: DownloadFlow.UploadOutcome, deleted: bool): (r: seq<Effect>)
    ensures |r| > 1 && r[0] == Notice(ProcessingComplete)
    ensures path == "" || path !in fs ==> r[1..] == MissingFile()
    ensures path != "" && path in fs && sizeOf(path) > DownloadFlow.MaxUploadBytes ==> r[1..] == Oversized(sizeOf(path))
    ensures path != "" && path in fs ==> EndsOnce(Statuses(r)) && UploadProtocol(r)
    ensures Uploads(r) == (if path != "" && path in fs && sizeOf(path) <= DownloadFlow.MaxUploadBytes then 1 else 0)
    ensures forall i :: 0 <= i < |r| && r[i].Upload? ==> r[i].path == path && sizeOf(path) <= DownloadFlow.MaxUploadBytes
    ensures path != "" && path in fs && sizeOf(path) <= DownloadFlow.MaxUploadBytes ==>
      r[1..4] == [StatusSet(UploadStarted, None, None), Notice(DownloadFlow.UploadingNotice),
                  DownloadFlow.UploadFor(sel, path, title, DownloadFlow.Caption(title, description, url))]
  {
    if path == "" || path !in fs then
      NoticeThen(ProcessingComplete, MissingFile());
      [Notice(ProcessingComplete)] + MissingFile()
    else if sizeOf(path) > DownloadFlow.MaxUploadBytes then
      NoticeThen(ProcessingComplete, Oversized(sizeOf(path)));
      [Notice(ProcessingComplete)] + Oversized(sizeOf(path))
    else
      var tail := SendStage(sel, url, path, title, description, sizeOf(path), upload, deleted);
      NoticeThen(ProcessingComplete, tail);
      [Notice(ProcessingComplete)] + tail
  }

  /** A notice in front of a run changes neither its statuses, its uploads
      nor its protocol. */
  lemma NoticeThen(text: string, tail: seq<Effect>)
    ensures Statuses([Notice(text)] + tail) == Statuses(tail)
    ensures Uploads([Notice(text)] + tail) == Uploads(tail)
    ensures UploadProtocol(tail) ==> UploadProtocol([Notice(text)] + tail)
    ensures ([Notice(text)] + tail)[1..] == tail
  {
    var r := [Notice(text)] + tail;
    assert r[1..] == tail;
    assert forall i :: 1 <= i < |r| ==> r[i] == tail[i - 1];
  }

  /** The upload of a file within the limit and what follows it. */
  function SendStage(sel: string, url: string, path: string, title: string, description: string,
                     size: int, upload: DownloadFlow.UploadOutcome, deleted: bool): (r: seq<Effect>)
    ensures EndsOnce(Statuses(r)) && UploadProtocol(r) && Uploads(r) == 1
    ensures |r| > 3
    ensures r[..3] == [StatusSet(UploadStarted, None, None), Notice(DownloadFlow.UploadingNotice),
                       DownloadFlow.UploadFor(sel, path, title, DownloadFlow.Caption(title, description, url))]
    ensures forall i :: 0 <= i < |r| && r[i].Upload? ==> r[i].path == path
    ensures Completed in Statuses(r) <==> upload.Uploaded?
  {
    var head := [StatusSet(UploadStarted, None, None), Notice(DownloadFlow.UploadingNotice),
                 DownloadFlow.UploadFor(sel, path, title, DownloadFlow.Caption(title, description, url))];
    var tail := AfterUpload(sel, upload, size, deleted);
    DownloadFlow.UploadThenTail(head, tail);
    head + tail
  }

  /** The handler's run once the service has come back with `p`; the
      `finally` clause removes the final file when there is one. */
  function AfterService(sel: string, url: string, p: Service.Processed, fs: FileSystem.FileSet,
                        sizeOf: string -> int, upload: DownloadFlow.UploadOutcome, deleted: bool): (r: DownloadFlow.Outcome)
    requires forall i :: 0 <= i < |p.effects| ==> ServiceEffect(p.effects[i])
    requires p.result.Err? ==> p.fs <= fs
    requires p.result.Ok? ==> p.fs <= fs + {p.result.value.0} && p.result.value.0 != "" && p.result.value.0 in p.fs
    ensures EndsOnce(Statuses(r.effects))
    ensures UploadProtocol(r.effects)
    ensures Uploads(r.effects) <= 1
    ensures forall i :: 0 <= i < |r.effects| && r.effects[i].Upload? ==>
      sizeOf(r.effects[i].path) <= DownloadFlow.MaxUploadBytes && r.effects[i].path !in r.fs
    ensures r.fs <= fs
    ensures |r.effects| > |p.effects| && r.effects[..|p.effects|] == p.effects
    ensures p.result.Err? ==> r.fs == p.fs && r.effects[|p.effects|..] == DownloadFlow.ServiceFailure(p.result.error) && Uploads(r.effects) == 0
    // a result goes on to the upload stage, the final file is removed
    // whether it was uploaded or not, and it is uploaded exactly when it
    // is within the limit
    ensures p.result.Ok? ==>
      && r.effects[|p.effects|..] == UploadStage(sel, url, p.result.value.0, p.result.value.1, p.result.value.2, p.fs, sizeOf, upload, deleted)
      && r.fs == FileSystem.CleanupFile(p.fs, p.result.value.0)
      && (Uploads(r.effects) == 1 <==> sizeOf(p.result.value.0) <= DownloadFlow.MaxUploadBytes)
  {
    match p.result
    case Err(e) =>
      var tail := DownloadFlow.ServiceFailure(e);
      DownloadFlow.FailureAfterService(p.effects, e);
      DownloadFlow.Outcome(p.fs, p.effects + tail)
    case Ok((path, title, description)) => Succeeded(sel, url, p.effects, p.fs, path, title, description, sizeOf, upload, deleted)
  }

  /** The handler's run after a service run with effects `prior` that
      produced `path`, which is in the file set `fs`. */
  function Succeeded(sel: string, url: string, prior: seq<Effect>, fs: FileSystem.FileSet, path: string, title: string,
                     description: string, sizeOf: string -> int, upload: DownloadFlow.UploadOutcome, deleted: bool): (r: DownloadFlow.Outcome)
    requires forall i :: 0 <= i < |prior| ==> ServiceEffect(prior[i])
    requires path != "" && path in fs
    ensures EndsOnce(Statuses(r.effects)) && UploadProtocol(r.effects) && Uploads(r.effects) <= 1
    ensures forall i :: 0 <= i < |r.effects| && r.effects[i].Upload? ==>
      sizeOf(r.effects[i].path) <= DownloadFlow.MaxUploadBytes && r.effects[i].path == path
    ensures r.fs == FileSystem.CleanupFile(fs, path)
    ensures |r.effects| > |prior| && r.effects[..|prior|] == prior
    // after the service's effects comes the upload stage, which uploads the
    // file exactly when it is within the limit
    ensures r.effects[|prior|..] == UploadStage(sel, url, path, title, description, fs, sizeOf, upload, deleted)
    ensures Uploads(r.effects) == 1 <==> sizeOf(path) <= DownloadFlow.MaxUploadBytes
  {
    var stage := UploadStage(sel, url, path, title, description, fs, sizeOf, upload, deleted);
    StageAfterService(prior, stage, path, sizeOf);
    DownloadFlow.Outcome(FileSystem.CleanupFile(fs, path), prior + stage)
  }

  /** The service's effects followed by an upload stage for `path` that
      uploads it exactly when it fits. */
  lemma StageAfterService(prior: seq<Effect>, stage: seq<Effect>, path: string, sizeOf: string -> int)
    requires forall i :: 0 <= i < |prior| ==> ServiceEffect(prior[i])
    requires UploadProtocol(stage) && EndsOnce(Statuses(stage)) && |stage| > 0
    requires Uploads(stage) == (if sizeOf(path) <= DownloadFlow.MaxUploadBytes then 1 else 0)
    requires forall i :: 0 <= i < |stage| && stage[i].Upload? ==> stage[i].path == path && sizeOf(path) <= DownloadFlow.MaxUploadBytes
    ensures EndsOnce(Statuses(prior + stage)) && UploadProtocol(prior + stage) && Uploads(prior + stage) <= 1
    ensures forall i :: 0 <= i < |prior + stage| && (prior + stage)[i].Upload? ==>
      sizeOf((prior + stage)[i].path) <= DownloadFlow.MaxUploadBytes && (prior + stage)[i].path == path
    ensures |prior + stage| > |prior| && (prior + stage)[..|prior|] == prior && (prior + stage)[|prior|..] == stage
    ensures Uploads(prior + stage) == 1 <==> sizeOf(path) <= DownloadFlow.MaxUploadBytes
  {
    DownloadFlow.ServiceThenHandler(prior, stage, path, sizeOf);
  }

  /** The handler with a service that can be built, for a query with its
      message, data and user present. The world's record is `None` when
      creating it raised. Errors while logging the press are caught and
      only logged here, so `w.logged` plays no part. */
  function Handle(connected: bool, data: string, w: DownloadFlow.World, deleted: bool): (r: DownloadFlow.Outcome)
    ensures !connected ==> r == DownloadFlow.Outcome(w.fs, [Notice(DbMissing)])
    ensures connected && CallbackParsing.ParseRawQualityCallback(data).None? ==> r == DownloadFlow.Outcome(w.fs, [Notice(DownloadFlow.InvalidFormat)])
    // a record that could not be created and a falsy id are told apart
    ensures connected && CallbackParsing.ParseRawQualityCallback(data).Some? && w.record.None? ==> r == DownloadFlow.Outcome(w.fs, [Notice(NotRecorded)])
    ensures connected && CallbackParsing.ParseRawQualityCallback(data).Some? && w.record == Some(0) ==> r == DownloadFlow.Outcome(w.fs, [Notice(DownloadFlow.NotTracked)])
    // a tracked request ends with exactly one terminal status, its last
    ensures connected && CallbackParsing.ParseRawQualityCallback(data).Some? && DownloadFlow.Tracked(w.record) ==> EndsOnce(Statuses(r.effects))
    ensures |Statuses(r.effects)| > 0 ==> DownloadFlow.Tracked(w.record)
    ensures UploadProtocol(r.effects)
    ensures Uploads(r.effects) <= 1
    ensures forall i :: 0 <= i < |r.effects| && r.effects[i].Upload? ==>
      w.sizeOf(r.effects[i].path) <= DownloadFlow.MaxUploadBytes && r.effects[i].path !in r.fs
    ensures r.fs <= w.fs
    // for a tracked press: the download and the final file are gone
    // afterwards, every file the request did not produce is kept, and a
    // final file is uploaded exactly when it fits
    ensures connected && CallbackParsing.ParseRawQualityCallback(data).Some? && DownloadFlow.Tracked(w.record) ==>
      && DownloadFlow.PressFiles(CallbackParsing.ParseRawQualityCallback(data).value.0, w.record.value, w, r.fs)
      && DownloadFlow.UploadedIffFits(CallbackParsing.ParseRawQualityCallback(data).value.0, w.record.value, w, r.effects)
  {
    if !connected then NoticeAlone(DbMissing); DownloadFlow.Outcome(w.fs, [Notice(DbMissing)])
    else
      match CallbackParsing.ParseRawQualityCallback(data)
      case None => NoticeAlone(DownloadFlow.InvalidFormat); DownloadFlow.Outcome(w.fs, [Notice(DownloadFlow.InvalidFormat)])
      case Some((sel, url)) =>
        if w.record.None? then NoticeAlone(NotRecorded); DownloadFlow.Outcome(w.fs, [Notice(NotRecorded)])
        else if w.record.value == 0 then NoticeAlone(DownloadFlow.NotTracked); DownloadFlow.Outcome(w.fs, [Notice(DownloadFlow.NotTracked)])
        else
          RunTracked(sel, url, w.record.value, w, deleted)
  }

  /** The handler's run from the service call on, for a parsed button and
      a tracked record. */
  function RunTracked(sel: string, url: string, record: int, w: DownloadFlow.World, deleted: bool): (r: DownloadFlow.Outcome)
    ensures EndsOnce(Statuses(r.effects))
    ensures UploadProtocol(r.effects)
    ensures Uploads(r.effects) <= 1
    ensures forall i :: 0 <= i < |r.effects| && r.effects[i].Upload? ==>
      w.sizeOf(r.effects[i].path) <= DownloadFlow.MaxUploadBytes && r.effects[i].path !in r.fs
    ensures r.fs <= w.fs
    ensures DownloadFlow.PressFiles(sel, record, w, r.fs)
    ensures DownloadFlow.UploadedIffFits(sel, record, w, r.effects)
    // a failed service run uploads nothing
    ensures var p := Service.ProcessAndDownload(sel, record, w.extraction, w.prepared, w.fs, w.ffmpeg, w.pass1, w.pass2);
      p.result.Err? ==> Uploads(r.effects) == 0
  {
    var p := Service.ProcessAndDownload(sel, record, w.extraction, w.prepared, w.fs, w.ffmpeg, w.pass1, w.pass2);
    var r := AfterService(sel, url, p, w.fs, w.sizeOf, w.upload, deleted);
    DownloadFlow.TrackedFiles(sel, record, w, p, r.fs);
    r
  }

  /** The parser of this module keeps the payload as it is, where the
      package's handler resolves it: an `id:` payload reaches the service
      as the URL `id:…`. */
  lemma UnresolvedPayloadReachesService(sel: string, id: string, w: DownloadFlow.World, deleted: bool)
    requires ':' !in sel
    requires DownloadFlow.Tracked(w.record)
    ensures CallbackParsing.ParseRawQualityCallback(Keyboards.QualityData(sel, "id:" + id)) == Some((sel, "id:" + id))
    ensures EndsOnce(Statuses(Handle(true, Keyboards.QualityData(sel, "id:" + id), w, deleted).effects))
  {
    CallbackParsing.RawParseKeepsIdPayload(sel, id);
  }
}
