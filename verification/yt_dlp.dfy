/** What a call to yt-dlp's `extract_info` can come back with. Only the
    info-dictionary keys the bot reads are kept; `requested` holds the
    `filepath` entry of each `requested_downloads` item, and a missing key
    is `None`. Whatever a download writes shows up in the file set the
    caller passes alongside. */
module YtDlp {
  import opened Wrappers
  import QualityOptions

  datatype InfoDict = InfoDict(
    formats: Option<seq<QualityOptions.Format>>,
    requested: seq<Option<string>>,
    filepath: Option<string>,
    filename: Option<string>,
    title: Option<string>,
    duration: Option<int>)

  datatype Extraction =
    | Extracted(info: Option<InfoDict>)
    | DownloadError(msg: string)
    | Raised(className: string, msg: string)

  /** Python truthiness of an optional string value. */
  predicate Truthy(s: Option<string>) {
    s.Some? && s.value != ""
  }
}
