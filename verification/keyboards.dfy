/** The inline keyboards: the quality keyboard whose callback data carries a
    short payload, the stats menus, and the older three-choice download
    keyboard. A keyboard is modelled as its buttons in row order, one
    button per row except for the two-column stats main menu. */
module Keyboards {
  import opened Wrappers
  import opened Text
  import IdPatterns
  import Helpers
  import QualityOptions

  datatype Button = Button(text: string, data: string)

  /** Telegram's bound on callback data, in bytes; every character the
      bounded payloads use is ASCII, so characters count bytes. */
  const MaxCallbackData: nat := 64

  /** `format_filesize` for the integer branches: the empty text for a
      missing or zero size and `"{n} B"` below 1024. `None` stands for the
      KB/MB/GB texts, which are computed in floating point. */
  function FormatFilesize(size: Option<int>): (r: Option<string>)
    ensures r.None? <==> size.Some? && size.value >= 1024
    ensures size.None? || size == Some(0) ==> r == Some("")
    ensures size.Some? && size.value != 0 && size.value < 1024 ==>
      r.Some? && |r.value| >= 3 && r.value[|r.value| - 2..] == " B"
  {
    if size.None? || size.value == 0 then Some("")
    else if size.value < 1024 then Some(IntToString(size.value) + " B")
    else None
  }

  /** The byte count can be read back from the text of a small size. */
  lemma FormatFilesizeReadsBack(n: nat)
    requires 0 < n < 1024
    ensures FormatFilesize(Some(n)) == Some(NatToString(n) + " B")
    ensures DigitsValue(FormatFilesize(Some(n)).value[..|FormatFilesize(Some(n)).value| - 2]) == n
  {
    var t := NatToString(n) + " B";
    assert t[..|t| - 2] == NatToString(n);
    DigitsValueOfNatToString(n);
  }

  /** The callback payload: `id:<video id>` when the URL yields a YouTube
      id, otherwise the URL itself. */
  function Payload(url: string): (r: string)
    ensures Helpers.ExtractYouTubeVideoId(url).None? ==> r == url
    ensures Helpers.ExtractYouTubeVideoId(url).Some? ==>
      |r| == 14 && r[..3] == "id:" && IdPatterns.IsVideoId(r[3..])
  {
    match Helpers.ExtractYouTubeVideoId(url)
    case Some(id) => "id:" + id
    case None => url
  }

  /** The callback data of a quality button. */
  function QualityData(selector: string, payload: string): (r: string)
    ensures |r| == 3 + |selector| + |payload|
    ensures StartsWith(r, "q_")
  {
    "q_" + selector + ":" + payload
  }

  /** An entry of the options list as the keyboard reads it: `None` for a
      missing key. */
  datatype KeyOption = KeyOption(height: Option<int>, selector: Option<string>)

  function FromQuality(o: QualityOptions.QualityOption): KeyOption {
    KeyOption(Some(o.height), Some(o.selector))
  }

  /** A height the keyboard shows: present and non-zero. */
  predicate Truthy(h: Option<int>) {
    h.Some? && h.value != 0
  }

  /** The selector of an option, defaulting to `h<height>`. */
  function SelectorOf(o: KeyOption): string {
    o.selector.GetOr(QualityOptions.HeightSelector(o.height.GetOr(0)))
  }

  /** The resolution rows, as (height, selector) pairs: an option is shown
      when its height is truthy and not yet used, so the first option of a
      height wins and the best option's height is never repeated. */
  function KeptOptions(options: seq<KeyOption>, seen: set<Option<int>>): (r: seq<(int, string)>)
    ensures KeptFresh(r, seen)
    ensures forall i, j :: 0 <= i < j < |r| ==> r[i].0 != r[j].0
    ensures KeptCovers(options, seen, r)
    ensures KeptFromFirst(options, r)
    decreases |options|
  {
    if |options| == 0 then []
    else
      var o := options[0];
      var tail := options[1..];
      if !Truthy(o.height) || o.height in seen then
        var t := KeptOptions(tail, seen);
        KeptShift(options, tail, seen, t);
        t
      else
        var t := KeptOptions(tail, seen + {o.height});
        var r := [(o.height.value, SelectorOf(o))] + t;
        KeptCons(options, tail, seen, t, r);
        r
  }

  /** Option `k` is the first of its height. */
  predicate FirstOfHeight(options: seq<KeyOption>, k: int)
    requires 0 <= k < |options|
  {
    forall m :: 0 <= m < k ==> options[m].height != options[k].height
  }

  /** Every kept height is truthy and was not used before. */
  predicate KeptFresh(r: seq<(int, string)>, seen: set<Option<int>>) {
    forall i :: 0 <= i < |r| ==> r[i].0 != 0 && Some(r[i].0) !in seen
  }

  /** Some kept pair has height `h`. */
  predicate KeepsHeight(r: seq<(int, string)>, h: int) {
    exists i :: 0 <= i < |r| && r[i].0 == h
  }

  /** Every truthy, unused height of the options is kept. */
  predicate KeptCovers(options: seq<KeyOption>, seen: set<Option<int>>, r: seq<(int, string)>) {
    forall k :: 0 <= k < |options| && Truthy(options[k].height) && options[k].height !in seen ==>
      KeepsHeight(r, options[k].height.value)
  }

  /** The first option of height `h` has selector `sel`. */
  predicate FirstHasSelector(options: seq<KeyOption>, h: int, sel: string) {
    exists k :: 0 <= k < |options| && FirstOfHeight(options, k) && options[k].height == Some(h) && sel == SelectorOf(options[k])
  }

  /** Every kept pair comes from the first option of its height. */
  predicate KeptFromFirst(options: seq<KeyOption>, r: seq<(int, string)>) {
    forall i :: 0 <= i < |r| ==> FirstHasSelector(options, r[i].0, r[i].1)
  }

  /** Pairs kept from the options after the first are kept from the
      whole list when the first option has none of their heights. */
  lemma {:induction false} FromFirstShift(options: seq<KeyOption>, tail: seq<KeyOption>, r: seq<(int, string)>)
    requires |options| > 0 && tail == options[1..]
    requires KeptFromFirst(tail, r)
    requires forall i :: 0 <= i < |r| ==> options[0].height != Some(r[i].0)
    ensures KeptFromFirst(options, r)
  {
    forall i | 0 <= i < |r|
      ensures FirstHasSelector(options, r[i].0, r[i].1)
    {
      assert FirstHasSelector(tail, r[i].0, r[i].1);
      var k :| 0 <= k < |tail| && FirstOfHeight(tail, k) && tail[k].height == Some(r[i].0) && r[i].1 == SelectorOf(tail[k]);
      assert options[k + 1] == tail[k];
      assert forall m :: 1 <= m < k + 1 ==> options[m] == tail[m - 1];
      assert FirstOfHeight(options, k + 1);
    }
  }

  lemma {:induction false} KeptShift(options: seq<KeyOption>, tail: seq<KeyOption>, seen: set<Option<int>>, t: seq<(int, string)>)
    requires |options| > 0 && tail == options[1..]
    requires !Truthy(options[0].height) || options[0].height in seen
    requires KeptFresh(t, seen) && KeptCovers(tail, seen, t) && KeptFromFirst(tail, t)
    ensures KeptCovers(options, seen, t) && KeptFromFirst(options, t)
  {
    forall k | 0 <= k < |options| && Truthy(options[k].height) && options[k].height !in seen
      ensures KeepsHeight(t, options[k].height.value)
    {
      assert options[k] == tail[k - 1];
    }
    FromFirstShift(options, tail, t);
  }

  lemma {:induction false} KeptCons(options: seq<KeyOption>, tail: seq<KeyOption>, seen: set<Option<int>>, t: seq<(int, string)>, r: seq<(int, string)>)
    requires |options| > 0 && tail == options[1..]
    requires Truthy(options[0].height) && options[0].height !in seen
    requires r == [(options[0].height.value, SelectorOf(options[0]))] + t
    requires KeptFresh(t, seen + {options[0].height})
    requires forall i, j :: 0 <= i < j < |t| ==> t[i].0 != t[j].0
    requires KeptCovers(tail, seen + {options[0].height}, t) && KeptFromFirst(tail, t)
    ensures KeptFresh(r, seen)
    ensures forall i, j :: 0 <= i < j < |r| ==> r[i].0 != r[j].0
    ensures KeptCovers(options, seen, r) && KeptFromFirst(options, r)
  {
    assert forall i :: 1 <= i < |r| ==> r[i] == t[i - 1];
    ConsCovers(options, tail, seen, t, r);
    FromFirstShift(options, tail, t);
    ConsFromFirst(options, t, r);
  }

  /** The first option's own pair is kept from the first option. */
  lemma {:induction false} ConsFromFirst(options: seq<KeyOption>, t: seq<(int, string)>, r: seq<(int, string)>)
    requires |options| > 0 && Truthy(options[0].height)
    requires r == [(options[0].height.value, SelectorOf(options[0]))] + t
    requires KeptFromFirst(options, t)
    ensures KeptFromFirst(options, r)
  {
    assert FirstOfHeight(options, 0);
    assert FirstHasSelector(options, r[0].0, r[0].1);
    assert forall i :: 1 <= i < |r| ==> r[i] == t[i - 1];
  }

  lemma {:induction false} ConsCovers(options: seq<KeyOption>, tail: seq<KeyOption>, seen: set<Option<int>>, t: seq<(int, string)>, r: seq<(int, string)>)
    requires |options| > 0 && tail == options[1..] && Truthy(options[0].height)
    requires r == [(options[0].height.value, SelectorOf(options[0]))] + t
    requires KeptCovers(tail, seen + {options[0].height}, t)
    ensures KeptCovers(options, seen, r)
  {
    forall k | 0 <= k < |options| && Truthy(options[k].height) && options[k].height !in seen
      ensures KeepsHeight(r, options[k].height.value)
    {
      if options[k].height == options[0].height {
        assert r[0].0 == options[k].height.value;
      } else {
        assert options[k] == tail[k - 1];
        assert KeepsHeight(t, tail[k - 1].height.value);
        var i :| 0 <= i < |t| && t[i].0 == tail[k - 1].height.value;
        assert r[i + 1] == t[i];
      }
    }
  }

  /** The height shown on the best button, `?` when it is missing. */
  function HeightText(h: Option<int>): string {
    match h
    case Some(v) => IntToString(v)
    case None => "?"
  }

  const AudioLabel: string := "\U{1F3B5} Audio Only (m4a)"
  const GifLabel: string := "\U{2728} Create GIF (Full Video)"

  /** The resolution buttons for kept (height, selector) pairs. */
  function ResolutionButtons(kept: seq<(int, string)>, payload: string): (r: seq<Button>)
    ensures |r| == |kept|
    ensures forall i :: 0 <= i < |r| ==> r[i].data == QualityData(kept[i].1, payload)
  {
    seq(|kept|, i requires 0 <= i < |kept| => Button("\U{1F3AC} " + IntToString(kept[i].0) + "p", QualityData(kept[i].1, payload)))
  }

  /** `create_quality_options_keyboard`: the best button first, then one
      button per shown resolution, then audio, then GIF; every button's
      data carries the same payload. */
  function QualityKeyboard(url: string, options: seq<KeyOption>, best: KeyOption): (r: seq<Button>)
    ensures |r| >= 3
    ensures r[0].data == QualityData(best.selector.GetOr("best"), Payload(url))
    ensures r[|r| - 2] == Button(AudioLabel, QualityData("audio", Payload(url)))
    ensures r[|r| - 1] == Button(GifLabel, QualityData("gif", Payload(url)))
  {
    var payload := Payload(url);
    var kept := KeptOptions(options, {best.height});
    [Button("\U{1F3C6} Best (" + HeightText(best.height) + "p)", QualityData(best.selector.GetOr("best"), payload))]
      + ResolutionButtons(kept, payload)
      + [Button(AudioLabel, QualityData("audio", payload)), Button(GifLabel, QualityData("gif", payload))]
  }

  /** The selectors a quality keyboard puts in its buttons, in order. */
  function KeyboardSelectors(options: seq<KeyOption>, best: KeyOption): (r: seq<string>)
  {
    [best.selector.GetOr("best")]
      + seq(|KeptOptions(options, {best.height})|, i requires 0 <= i < |KeptOptions(options, {best.height})| => KeptOptions(options, {best.height})[i].1)
      + ["audio", "gif"]
  }

  /** Every button of the quality keyboard is `q_<selector>:<payload>` for
      the keyboard's selectors and the one payload. */
  lemma KeyboardData(url: string, options: seq<KeyOption>, best: KeyOption)
    ensures |QualityKeyboard(url, options, best)| == |KeyboardSelectors(options, best)|
    ensures forall i :: 0 <= i < |QualityKeyboard(url, options, best)| ==>
      QualityKeyboard(url, options, best)[i].data == QualityData(KeyboardSelectors(options, best)[i], Payload(url))
  {
  }

  /** With an id payload every button's data is 17 characters longer than
      its selector, so it fits Telegram's 64 bytes whenever every selector
      the keyboard uses has at most 47 characters. */
  lemma IdPayloadFits(url: string, options: seq<KeyOption>, best: KeyOption)
    requires Helpers.ExtractYouTubeVideoId(url).Some?
    requires |best.selector.GetOr("best")| <= 47
    requires forall k :: 0 <= k < |options| ==> |SelectorOf(options[k])| <= 47
    ensures forall i :: 0 <= i < |QualityKeyboard(url, options, best)| ==>
      |QualityKeyboard(url, options, best)[i].data| == 17 + |KeyboardSelectors(options, best)[i]|
    ensures forall b :: b in QualityKeyboard(url, options, best) ==> |b.data| <= MaxCallbackData
  {
    KeyboardData(url, options, best);
    var kb := QualityKeyboard(url, options, best);
    var sels := KeyboardSelectors(options, best);
    var kept := KeptOptions(options, {best.height});
    forall i | 0 <= i < |sels| ensures |sels[i]| <= 47 {
      if 1 <= i < |sels| - 2 {
        assert FirstHasSelector(options, kept[i - 1].0, kept[i - 1].1);
        var k :| 0 <= k < |options| && FirstOfHeight(options, k) && options[k].height == Some(kept[i - 1].0) && kept[i - 1].1 == SelectorOf(options[k]);
      }
    }
    forall b | b in kb ensures |b.data| <= MaxCallbackData {
      var i :| 0 <= i < |kb| && kb[i] == b;
    }
  }

  /** The options list of `process_formats` as the keyboard reads it. */
  function KeyOptions(opts: seq<QualityOptions.QualityOption>): (r: seq<KeyOption>)
    ensures |r| == |opts|
    ensures forall j :: 0 <= j < |opts| ==> r[j] == FromQuality(opts[j])
  {
    seq(|opts|, j requires 0 <= j < |opts| => FromQuality(opts[j]))
  }

  /** On `process_formats` output every option whose height differs from
      the best option's gets a resolution row of its own. */
  lemma ProcessedOptionsShown(opts: seq<QualityOptions.QualityOption>, best: QualityOptions.QualityOption, k: nat)
    requires k < |opts| && opts[k].height != 0 && opts[k].height != best.height
    ensures KeepsHeight(KeptOptions(KeyOptions(opts), {Some(best.height)}), opts[k].height)
  {
    var os := KeyOptions(opts);
    var seen := {Some(best.height)};
    assert os[k].height == Some(opts[k].height) && Truthy(os[k].height) && os[k].height !in seen;
    assert KeptCovers(os, seen, KeptOptions(os, seen));
  }

  // Stats keyboards.

  /** The callback data of a stats button. */
  function StatsData(prefix: string, action: string): (r: string)
    ensures |r| == |prefix| + 1 + |action|
  {
    prefix + ":" + action
  }

  const BackButton: Button := Button("\U{00AB} Back to Main Menu", StatsData("stats_menu", "main"))

  /** `create_stats_main_menu_keyboard`: two rows of two buttons. */
  function StatsMainMenu(): (r: seq<seq<Button>>)
    ensures |r| == 2 && |r[0]| == 2 && |r[1]| == 2
  {
    [ [Button("\U{1F464} User Statistics", StatsData("stats_menu", "users")), Button("\U{1F4AC} Interaction Stats", StatsData("stats_menu", "interactions"))],
      [Button("\U{1F4E5} Download Statistics", StatsData("stats_menu", "downloads")), Button("\U{1F4CA} Overall Summary", StatsData("stats_show", "summary"))] ]
  }

  /** The `stats_show` actions a submenu offers. */
  function SubmenuActions(current: string): (r: seq<string>)
    ensures current == "users" ==> |r| == 3
    ensures current == "interactions" ==> |r| == 2
    ensures current == "downloads" ==> |r| == 3
    ensures current != "users" && current != "interactions" && current != "downloads" ==> r == []
  {
    if current == "users" then ["users_total", "users_active_24h", "users_active_7d"]
    else if current == "interactions" then ["interactions_by_type", "interactions_24h"]
    else if current == "downloads" then ["downloads_by_status", "downloads_by_quality", "downloads_top_urls"]
    else []
  }

  function SubmenuLabel(action: string): string {
    if action == "users_total" then "Total Users"
    else if action == "users_active_24h" then "Active Users (24h)"
    else if action == "users_active_7d" then "Active Users (7d)"
    else if action == "interactions_by_type" then "Total by Type"
    else if action == "interactions_24h" then "Interactions (24h)"
    else if action == "downloads_by_status" then "Count by Status"
    else if action == "downloads_by_quality" then "Completed by Quality"
    else "Top 5 URLs"
  }

  /** `create_stats_submenu_keyboard`: the menu's items inserted before the
      back button, which stays last. */
  function StatsSubmenu(current: string): (r: seq<Button>)
    ensures |r| == |SubmenuActions(current)| + 1
    ensures r[|r| - 1] == BackButton
    ensures forall i :: 0 <= i < |r| - 1 ==> r[i].data == StatsData("stats_show", SubmenuActions(current)[i])
  {
    var acts := SubmenuActions(current);
    seq(|acts|, i requires 0 <= i < |acts| => Button(SubmenuLabel(acts[i]), StatsData("stats_show", acts[i]))) + [BackButton]
  }

  // The three-choice keyboard of the first version.

  const LegacyChoices: seq<string> := ["video_audio", "video_only", "audio_only"]

  function LegacyLabel(i: nat): string
    requires i < 3
  {
    if i == 0 then "\U{1F3AC} Video + Audio"
    else if i == 1 then "\U{1F507} Video Only"
    else "\U{1F3B5} Audio Only (m4a)"
  }

  /** `create_download_options_keyboard`: three rows in the fixed order,
      the URL copied verbatim and unbounded into each button's data. */
  function DownloadOptionsKeyboard(url: string): (r: seq<Button>)
    ensures |r| == 3
    ensures forall i :: 0 <= i < 3 ==> r[i].data == "download_" + LegacyChoices[i] + ":" + url
    ensures forall i :: 0 <= i < 3 ==> |r[i].data| == 10 + |LegacyChoices[i]| + |url|
  {
    seq(3, i requires 0 <= i < 3 => Button(LegacyLabel(i), "download_" + LegacyChoices[i] + ":" + url))
  }

  /** No bound applies: a long enough URL overflows Telegram's limit. */
  lemma LegacyDataUnbounded(url: string)
    requires |url| > MaxCallbackData
    ensures forall b :: b in DownloadOptionsKeyboard(url) ==> |b.data| > MaxCallbackData
  {
  }
}
