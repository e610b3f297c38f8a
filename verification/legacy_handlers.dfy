/** The first handlers module: a YouTube link is answered with the
    three-choice keyboard unless the video is longer than an hour, and a
    press of one of its buttons downloads with the first downloader, gates
    the upload on the file size, sends audio or video, and removes the file
    whatever happens. Telegram's side is the sequence of replies and edits;
    yt-dlp's outcome, the file sizes and Telegram's answer to the upload
    are parameters. */
module LegacyHandlers {
  import opened Wrappers
  import opened Text
  import opened Errors
  import opened YtDlp
  import FileSystem
  import Utils
  import Keyboards
  import CallbackParsing
  import LegacyDownloader

  /** The upload limit of the Bot API. */
  const MaxFileSizeBytes: int := 50 * 1024 * 1024

  /** The longest video offered for download, in seconds. */
  const MaxDurationSeconds: int := 3600

  /** What the user sees, in order. An edit stands for
      `_edit_message_or_caption`, which never raises. */
  datatype Reply =
    | Said(text: string)
    | Edited(text: string)
      /** the title and the keyboard, as a photo caption or as the edited
          text, whichever Telegram accepts */
    | Options(caption: string, keyboard: seq<Keyboards.Button>)
      /** the "too large" edit, whose megabyte figure is floating point and
          is kept as the byte count it is computed from */
    | TooLargeShown(size: int)
    | SentAudio(path: string, caption: string, title: string)
    | SentVideo(path: string, caption: string)
  {
    predicate IsSend() {
      SentAudio? || SentVideo?
    }

    function SentPath(): string
      requires IsSend()
    {
      path
    }
  }

  const InvalidLink: string := "Please send a valid YouTube URL."
  const Processing: string := "\U{23F3} Processing YouTube link..."
  const TooLong: string := "\U{274C} Video is too long (max 1 hour). Please choose a shorter video."
  const MessageUnexpected: string := "\U{274C} An unexpected error occurred. Please try again later."

  function OptionsCaption(title: string): string {
    "\U{1F3AC} **" + title + "**\n\nSelect a download format:"
  }

  /** The message handler shows the keyboard for these outcomes only: an
      info dictionary whose duration, 0 when missing, is at most an hour. */
  predicate Offers(info: Extraction) {
    info.Extracted? && info.info.Some? && info.info.value.duration.GetOr(0) <= MaxDurationSeconds
  }

  /** `handle_message` for a message with text `text`, given what yt-dlp
      reports for it. */
  function HandleMessage(text: string, info: Extraction): (r: seq<Reply>)
    ensures text == "" ==> r == []
    ensures text != "" && !Utils.IsValidYouTubeUrl(text) ==> r == [Said(InvalidLink)]
    ensures Utils.IsValidYouTubeUrl(text) ==> |r| == 2 && r[0] == Said(Processing)
    // the keyboard is shown exactly for a valid link whose video is short
    // enough, and it carries the link as sent
    ensures (exists i :: 0 <= i < |r| && r[i].Options?) <==> Utils.IsValidYouTubeUrl(text) && Offers(info)
    ensures forall i :: 0 <= i < |r| && r[i].Options? ==> r[i].keyboard == Keyboards.DownloadOptionsKeyboard(text)
    ensures Utils.IsValidYouTubeUrl(text) && info.Extracted? && info.info.Some? && info.info.value.duration.GetOr(0) > MaxDurationSeconds
      ==> r[1] == Edited(TooLong)
    ensures Utils.IsValidYouTubeUrl(text) && !info.Extracted? ==> r[1] == Edited("\U{274C} Error processing link: " + LegacyDownloader.GetVideoInfo(info).error.Message())
  {
    if text == "" then []
    else if !Utils.IsValidYouTubeUrl(text) then [Said(InvalidLink)]
    else
      var answer :=
        match LegacyDownloader.GetVideoInfo(info)
        case Err(e) => Edited("\U{274C} Error processing link: " + e.Message())
        // `.get` on a missing dictionary is an AttributeError
        case Ok(None) => Edited(MessageUnexpected)
        case Ok(Some(d)) =>
          if d.duration.GetOr(0) > MaxDurationSeconds then Edited(TooLong)
          else Options(OptionsCaption(d.title.GetOr("Unknown Title")), Keyboards.DownloadOptionsKeyboard(text));
      var r := [Said(Processing), answer];
      assert r[1] == answer && !r[0].Options?;
      r
  }

  /** What Telegram does with the upload. */
  datatype Delivery = Delivered | TelegramRefused(message: string) | DeliveryRaised(className: string)

  /** The edits of the handlers of the download callback. */
  function FailureText(e: Error): string {
    match e
    case DownloaderError(msg) => "\U{274C} Download failed: " + msg
    case FileNotFoundError(_) => "\U{274C} Error: Downloaded file not found. Please try again."
    case _ => UnexpectedText
  }

  const UnexpectedText: string := "\U{274C} An unexpected error occurred during download or upload."
  const Uploading: string := "\U{2705} Download complete! Uploading to Telegram..."
  const SentText: string := "\U{1F389} File sent successfully!"

  function StartText(choice: string): string {
    "\U{1F680} Starting download (" + ReplaceChar(choice, '_', ' ') + ")... Please wait."
  }

  function RefusedText(message: string): string {
    "\U{274C} Failed to upload file to Telegram: " + message + ". It might be too large or another issue occurred."
  }

  /** `audio_only` is sent as audio with its title, every other choice as
      video; the caption is the title alone. */
  function Send(choice: string, path: string, title: string): (r: Reply)
    ensures r.IsSend() && r.SentPath() == path
    ensures r.SentAudio? <==> choice == "audio_only"
  {
    if choice == "audio_only" then SentAudio(path, title, title) else SentVideo(path, title)
  }

  /** The edit after the upload. */
  function DeliveryText(d: Delivery): string {
    match d
    case Delivered => SentText
    case TelegramRefused(message) => RefusedText(message)
    case DeliveryRaised(_) => UnexpectedText
  }

  /** The file set and the replies a button press leaves behind. */
  datatype Run = Run(fs: FileSystem.FileSet, replies: seq<Reply>)

  /** The part of the callback after a download to `path` titled `title`:
      an oversized file is removed and reported, any other is sent; the
      `finally` clause removes the file again, which changes nothing more. */
  function AfterDownload(choice: string, path: string, title: string, fs: FileSystem.FileSet,
                         size: int, delivery: Delivery): (r: Run)
    requires path in fs
    ensures path != "" ==> r.fs == FileSystem.CleanupFile(fs, path)
    ensures size > MaxFileSizeBytes ==> r.replies == [TooLargeShown(size)]
    ensures size <= MaxFileSizeBytes ==>
      r.replies == [Edited(Uploading), Send(choice, path, title), Edited(DeliveryText(delivery))]
  {
    if size > MaxFileSizeBytes then
      var afterGate := FileSystem.CleanupFile(fs, path);
      Run(if path != "" then FileSystem.CleanupFile(afterGate, path) else afterGate, [TooLargeShown(size)])
    else
      var replies := [Edited(Uploading), Send(choice, path, title), Edited(DeliveryText(delivery))];
      Run(if path != "" then FileSystem.CleanupFile(fs, path) else fs, replies)
  }

  /** The replies hold at most one upload. */
  predicate SendsAtMostOnce(replies: seq<Reply>) {
    forall i, j :: 0 <= i < |replies| && 0 <= j < |replies| && replies[i].IsSend() && replies[j].IsSend() ==> i == j
  }

  /** `handle_download_callback` of the first handlers module, for a query
      with its message present. */
  function HandleDownloadCallback(data: string, outcome: Extraction, prepared: string, fs: FileSystem.FileSet,
                                  sizeOf: string -> int, delivery: Delivery): (r: Run)
    // no data: nothing beyond the acknowledgement
    ensures data == "" ==> r == Run(fs, [])
    // data that does not parse only gets the message edited
    ensures data != "" && CallbackParsing.ParseLegacyDownload(data).Err? ==>
      r == Run(fs, [Edited(CallbackParsing.ParseLegacyDownload(data).error)])
    ensures data != "" && CallbackParsing.ParseLegacyDownload(data).Ok? ==>
      |r.replies| >= 2 && r.replies[0] == Edited(StartText(CallbackParsing.ParseLegacyDownload(data).value.0))
    // an upload is attempted exactly when the download succeeded and is
    // within the limit, at most once, audio for `audio_only` and video
    // otherwise; whether Telegram accepts it is the `delivery` parameter
    ensures SendsAtMostOnce(r.replies)
    ensures (exists i :: 0 <= i < |r.replies| && r.replies[i].IsSend()) <==>
      data != "" && CallbackParsing.ParseLegacyDownload(data).Ok?
      && var dl := LegacyDownloader.DownloadMedia(CallbackParsing.ParseLegacyDownload(data).value.0, outcome, prepared, fs).0;
         dl.Ok? && sizeOf(dl.value.0) <= MaxFileSizeBytes
    ensures forall i :: 0 <= i < |r.replies| && r.replies[i].IsSend() ==>
      && sizeOf(r.replies[i].SentPath()) <= MaxFileSizeBytes
      && r.replies[i].SentPath() !in r.fs
      && (r.replies[i].SentAudio? <==> CallbackParsing.ParseLegacyDownload(data).value.0 == "audio_only")
    // the downloaded file never outlives the handler, and nothing else is
    // removed or left behind
    ensures r.fs <= fs
    ensures data != "" && CallbackParsing.ParseLegacyDownload(data).Ok? ==>
      var dl := LegacyDownloader.DownloadMedia(CallbackParsing.ParseLegacyDownload(data).value.0, outcome, prepared, fs).0;
      && (dl.Ok? && dl.value.0 != "" ==> r.fs == FileSystem.CleanupFile(fs, dl.value.0))
      && (dl.Err? ==> r.fs == fs && r.replies[1] == Edited(FailureText(dl.error)))
  {
    if data == "" then Run(fs, [])
    else
      match CallbackParsing.ParseLegacyDownload(data)
      case Err(text) => Run(fs, [Edited(text)])
      case Ok((choice, _)) => DownloadChoice(choice, outcome, prepared, fs, sizeOf, delivery)
  }

  /** The callback from the start notice on, for a parsed `choice`. */
  function DownloadChoice(choice: string, outcome: Extraction, prepared: string, fs: FileSystem.FileSet,
                          sizeOf: string -> int, delivery: Delivery): (r: Run)
    ensures |r.replies| >= 2 && r.replies[0] == Edited(StartText(choice))
    ensures SendsAtMostOnce(r.replies)
    ensures var dl := LegacyDownloader.DownloadMedia(choice, outcome, prepared, fs).0;
      && ((exists i :: 0 <= i < |r.replies| && r.replies[i].IsSend()) <==> dl.Ok? && sizeOf(dl.value.0) <= MaxFileSizeBytes)
      && (dl.Ok? && dl.value.0 != "" ==> r.fs == FileSystem.CleanupFile(fs, dl.value.0))
      && (dl.Err? ==> r.fs == fs && r.replies[1] == Edited(FailureText(dl.error)))
    ensures forall i :: 0 <= i < |r.replies| && r.replies[i].IsSend() ==>
      && sizeOf(r.replies[i].SentPath()) <= MaxFileSizeBytes
      && r.replies[i].SentPath() !in r.fs
      && (r.replies[i].SentAudio? <==> choice == "audio_only")
    ensures r.fs <= fs
  {
    var start := Edited(StartText(choice));
    var (result, fs1) := LegacyDownloader.DownloadMedia(choice, outcome, prepared, fs);
    match result
    case Err(e) => Run(fs1, [start, Edited(FailureText(e))])
    case Ok((path, title)) =>
      var rest := AfterDownload(choice, path, title, fs1, sizeOf(path), delivery);
      var replies := [start] + rest.replies;
      assert forall i :: 1 <= i < |replies| ==> replies[i] == rest.replies[i - 1];
      assert sizeOf(path) <= MaxFileSizeBytes ==> replies[2].IsSend();
      Run(rest.fs, replies)
  }

  /** Every button of the keyboard the message handler shows starts the
      download of its own choice for the link that was sent. */
  lemma OfferedButtonStarts(text: string, info: Extraction, i: nat, k: nat, outcome: Extraction, prepared: string,
                             fs: FileSystem.FileSet, sizeOf: string -> int, delivery: Delivery)
    requires k < 3
    requires i < |HandleMessage(text, info)| && HandleMessage(text, info)[i].Options?
    ensures var data := HandleMessage(text, info)[i].keyboard[k].data;
      && data != ""
      && CallbackParsing.ParseLegacyDownload(data) == Ok((Keyboards.LegacyChoices[k], text))
      && HandleDownloadCallback(data, outcome, prepared, fs, sizeOf, delivery).replies[0]
         == Edited(StartText(Keyboards.LegacyChoices[k]))
  {
    CallbackParsing.LegacyKeyboardRoundTrip(text, k);
  }

  /** An oversized download is reported and removed, and nothing is sent. */
  lemma OversizedNeverSent(choice: string, url: string, outcome: Extraction, prepared: string,
                           fs: FileSystem.FileSet, sizeOf: string -> int, delivery: Delivery)
    requires ':' !in choice && 'w' !in choice
    requires LegacyDownloader.DownloadMedia(choice, outcome, prepared, fs).0.Ok?
    requires sizeOf(LegacyDownloader.DownloadMedia(choice, outcome, prepared, fs).0.value.0) > MaxFileSizeBytes
    ensures var path := LegacyDownloader.DownloadMedia(choice, outcome, prepared, fs).0.value.0;
      HandleDownloadCallback("download_" + choice + ":" + url, outcome, prepared, fs, sizeOf, delivery)
        == Run(if path != "" then FileSystem.CleanupFile(fs, path) else fs, [Edited(StartText(choice)), TooLargeShown(sizeOf(path))])
  {
    CallbackParsing.ParseLegacyChoice(choice, url);
    var path := LegacyDownloader.DownloadMedia(choice, outcome, prepared, fs).0.value.0;
    FileSystem.CleanupFileIdempotent(fs, path);
  }
}
