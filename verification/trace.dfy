/** What a request leaves behind outside the process: the statuses written
    to its download record, the messages the user sees and the uploads.
    A handler's run is the sequence of these effects, in order. */
module Trace {
  import opened Wrappers

  /** The values the `status` column of the downloads table admits. */
  datatype Status =
    | Requested
    | InfoFetched
    | DownloadStarted
    | Downloading
    | ConversionStarted
    | Converting
    | UploadStarted
    | Completed
    | Failed

  /** The spelling stored in the database. */
  function StatusName(s: Status): string {
    match s
    case Requested => "requested"
    case InfoFetched => "info_fetched"
    case DownloadStarted => "download_started"
    case Downloading => "downloading"
    case ConversionStarted => "conversion_started"
    case Converting => "converting"
    case UploadStarted => "upload_started"
    case Completed => "completed"
    case Failed => "failed"
  }

  /** Distinct statuses are stored under distinct names. */
  lemma StatusNameInjective(a: Status, b: Status)
    requires a != b
    ensures StatusName(a) != StatusName(b)
  {
  }

  /** A record's run is over once it is completed or failed. */
  predicate IsTerminal(s: Status) {
    s == Completed || s == Failed
  }

  datatype UploadMethod = SendAudio | SendAnimation | SendVideo

  datatype Effect =
      /** `update_download_status`, with its optional error message and size */
    | StatusSet(status: Status, errorMessage: Option<string>, fileSize: Option<int>)
      /** `set_download_title` */
    | TitleSet(title: string)
      /** an edit of the status message with the given text */
    | Notice(text: string)
      /** the "file too large" edit, whose megabyte figures are floating
          point and are kept as the byte count they are computed from */
    | TooLarge(size: int)
      /** an upload of `path` with `caption`; `title` is only sent with audio */
    | Upload(via: UploadMethod, path: string, caption: string, audioTitle: Option<string>)
      /** the deletion of the status message */
    | StatusMessageDeleted

  /** The statuses a run writes, in order. */
  function Statuses(effects: seq<Effect>): (r: seq<Status>)
    ensures |r| <= |effects|
    decreases |effects|
  {
    if |effects| == 0 then []
    else
      var rest := Statuses(effects[1..]);
      match effects[0]
      case StatusSet(s, _, _) => [s] + rest
      case _ => rest
  }

  lemma {:induction false} StatusesAppend(a: seq<Effect>, b: seq<Effect>)
    ensures Statuses(a + b) == Statuses(a) + Statuses(b)
    decreases |a|
  {
    if |a| > 0 {
      assert (a + b)[1..] == a[1..] + b;
      StatusesAppend(a[1..], b);
    } else {
      assert a + b == b;
    }
  }

  /** A run whose last status is its only terminal one. */
  predicate EndsOnce(statuses: seq<Status>) {
    && |statuses| > 0
    && IsTerminal(statuses[|statuses| - 1])
    && forall i :: 0 <= i < |statuses| - 1 ==> !IsTerminal(statuses[i])
  }

  /** The number of uploads in a run. */
  function Uploads(effects: seq<Effect>): (r: nat)
    ensures r <= |effects|
    ensures r == 0 <==> forall i :: 0 <= i < |effects| ==> !effects[i].Upload?
    decreases |effects|
  {
    if |effects| == 0 then 0
    else
      assert forall i :: 0 <= i < |effects| - 1 ==> effects[1..][i] == effects[i + 1];
      (if effects[0].Upload? then 1 else 0) + Uploads(effects[1..])
  }

  lemma {:induction false} UploadsAppend(a: seq<Effect>, b: seq<Effect>)
    ensures Uploads(a + b) == Uploads(a) + Uploads(b)
    decreases |a|
  {
    if |a| > 0 {
      assert (a + b)[1..] == a[1..] + b;
      UploadsAppend(a[1..], b);
    } else {
      assert a + b == b;
    }
  }

  /** The effects the service itself may have: notices, the title and the
      statuses of its own work. */
  predicate ServiceEffect(e: Effect) {
    || e.Notice?
    || e.TitleSet?
    || (e.StatusSet? && (e.status == DownloadStarted || e.status == ConversionStarted || e.status == Converting))
  }

  /** Every upload comes two effects after `upload_started` is written, and
      `completed` is only written right after an upload. */
  predicate UploadProtocol(effects: seq<Effect>) {
    && (forall i :: 0 <= i < |effects| && effects[i].Upload? ==> 2 <= i && effects[i - 2] == StatusSet(UploadStarted, None, None))
    && (forall i :: 0 <= i < |effects| && effects[i].StatusSet? && effects[i].status == Completed ==> 1 <= i && effects[i - 1].Upload?)
  }

  /** A lone edit of the status message writes no status and uploads
      nothing. */
  lemma NoticeAlone(text: string)
    ensures Statuses([Notice(text)]) == [] && Uploads([Notice(text)]) == 0 && UploadProtocol([Notice(text)])
    ensures forall i :: 0 <= i < |[Notice(text)]| ==> ![Notice(text)][i].Upload?
  {
    assert [Notice(text)][1..] == [];
  }

  /** Putting the service's effects in front keeps the protocol and the
      single terminal status at the end. */
  lemma ServicePrefix(a: seq<Effect>, b: seq<Effect>)
    requires forall i :: 0 <= i < |a| ==> ServiceEffect(a[i])
    requires UploadProtocol(b)
    ensures UploadProtocol(a + b)
    ensures Uploads(a + b) == Uploads(b)
    ensures EndsOnce(Statuses(b)) ==> EndsOnce(Statuses(a + b))
  {
    ServiceKeepsProtocol(a, b);
    UploadsAppend(a, b);
    assert Uploads(a) == 0;
    StatusesAppend(a, b);
    ServiceStatusesNotTerminal(a);
  }

  lemma ServiceKeepsProtocol(a: seq<Effect>, b: seq<Effect>)
    requires forall i :: 0 <= i < |a| ==> ServiceEffect(a[i])
    requires UploadProtocol(b)
    ensures UploadProtocol(a + b)
  {
    var ab := a + b;
    forall i | 0 <= i < |ab| && ab[i].Upload?
      ensures 2 <= i && ab[i - 2] == StatusSet(UploadStarted, None, None)
    {
      assert i >= |a| && ab[i] == b[i - |a|];
      assert ab[i - 2] == b[i - |a| - 2];
    }
    forall i | 0 <= i < |ab| && ab[i].StatusSet? && ab[i].status == Completed
      ensures 1 <= i && ab[i - 1].Upload?
    {
      assert i >= |a| && ab[i] == b[i - |a|];
      assert ab[i - 1] == b[i - |a| - 1];
    }
  }

  lemma {:induction false} ServiceStatusesNotTerminal(a: seq<Effect>)
    requires forall i :: 0 <= i < |a| ==> ServiceEffect(a[i])
    ensures forall i :: 0 <= i < |Statuses(a)| ==> !IsTerminal(Statuses(a)[i])
    decreases |a|
  {
    if |a| > 0 {
      ServiceStatusesNotTerminal(a[1..]);
    }
  }
}
