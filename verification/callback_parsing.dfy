/** The callback-data parsers, current and superseded, and their round
    trips with the keyboards that produce the data. Every parser splits at
    the first `:`; the part before it names the action. */
module CallbackParsing {
  import opened Wrappers
  import opened Text
  import Keyboards

  /** `parse_download_callback` of the callback package: the selector after
      `q_` and the payload resolved by `resolve`, which stands for the
      payload resolver (`None` where it raises). Every failure is `None`. */
  function ParseQualityCallback(data: string, resolve: string -> Option<string>): (r: Option<(string, string)>)
    ensures ':' !in data ==> r.None?
    ensures !StartsWith(data, "q_") ==> r.None?
    ensures r.Some? ==> |r.value.0| + 3 <= |data| && ':' !in r.value.0
    ensures r.Some? ==> resolve(data[|r.value.0| + 3..]) == Some(r.value.1)
    ensures r.Some? ==> data == Keyboards.QualityData(r.value.0, data[|r.value.0| + 3..])
  {
    match SplitOnce(data, ':')
    case None => None
    case Some((action, payload)) =>
      if !StartsWith(action, "q_") then
        assert !StartsWith(data, "q_") by {
          if |action| >= 2 {
            assert data[..2] == action[..2];
          } else {
            assert data[|action|] == ':';
            MismatchNotStartsWith(data, "q_", |action|);
          }
        }
        None
      else
        assert action == "q_" + action[2..];
        match resolve(payload)
        case None => None
        case Some(url) => Some((action[2..], url))
  }

  /** Quality data parses back to its selector and the resolved payload,
      since selectors hold no `:`; a payload containing `:` stays whole. */
  lemma ParseQualityData(selector: string, payload: string, resolve: string -> Option<string>)
    requires ':' !in selector
    ensures resolve(payload).Some? ==> ParseQualityCallback(Keyboards.QualityData(selector, payload), resolve) == Some((selector, resolve(payload).value))
    ensures resolve(payload).None? ==> ParseQualityCallback(Keyboards.QualityData(selector, payload), resolve).None?
  {
    assert ':' !in "q_" + selector;
    assert Keyboards.QualityData(selector, payload) == ("q_" + selector) + [':'] + payload;
    SplitOnceOfJoin("q_" + selector, ':', payload);
    assert ("q_" + selector)[2..] == selector;
  }

  /** Every button of the quality keyboard parses back to its selector and
      the keyboard's payload. */
  lemma QualityKeyboardRoundTrip(url: string, options: seq<Keyboards.KeyOption>, best: Keyboards.KeyOption, resolve: string -> Option<string>, i: nat)
    requires i < |Keyboards.QualityKeyboard(url, options, best)|
    requires ':' !in Keyboards.KeyboardSelectors(options, best)[i]
    requires resolve(Keyboards.Payload(url)).Some?
    ensures ParseQualityCallback(Keyboards.QualityKeyboard(url, options, best)[i].data, resolve)
      == Some((Keyboards.KeyboardSelectors(options, best)[i], resolve(Keyboards.Payload(url)).value))
  {
    Keyboards.KeyboardData(url, options, best);
    ParseQualityData(Keyboards.KeyboardSelectors(options, best)[i], Keyboards.Payload(url), resolve);
  }

  /** `parse_download_callback` of the first callback module: the same split
      and prefix test, the payload returned verbatim. */
  function ParseRawQualityCallback(data: string): (r: Option<(string, string)>)
    ensures r.Some? <==> ParseQualityCallback(data, (p: string) => Some(p)).Some?
    ensures r.Some? ==> r == ParseQualityCallback(data, (p: string) => Some(p))
  {
    match SplitOnce(data, ':')
    case None => None
    case Some((action, payload)) =>
      if StartsWith(action, "q_") then Some((action[2..], payload)) else None
  }

  /** The verbatim parser leaves an id payload unresolved: the URL it
      reports is `id:<video id>`, not a URL. */
  lemma RawParseKeepsIdPayload(selector: string, id: string)
    requires ':' !in selector
    ensures ParseRawQualityCallback(Keyboards.QualityData(selector, "id:" + id)) == Some((selector, "id:" + id))
  {
    ParseQualityData(selector, "id:" + id, (p: string) => Some(p));
  }

  /** `parse_stats_callback`: the prefix must be `stats_menu` or
      `stats_show`; the rest, which may contain `:`, is the action. */
  function ParseStatsCallback(data: string): (r: Option<(string, string)>)
    ensures ':' !in data ==> r.None?
    ensures r.Some? ==> (r.value.0 == "stats_menu" || r.value.0 == "stats_show") && data == r.value.0 + ":" + r.value.1
  {
    match SplitOnce(data, ':')
    case None => None
    case Some((prefix, action)) =>
      if prefix == "stats_menu" || prefix == "stats_show" then Some((prefix, action)) else None
  }

  /** The stats data built from an accepted prefix parses back; any other
      prefix without `:` is refused. */
  lemma ParseStatsData(prefix: string, action: string)
    requires ':' !in prefix
    ensures ParseStatsCallback(Keyboards.StatsData(prefix, action)) ==
      (if prefix == "stats_menu" || prefix == "stats_show" then Some((prefix, action)) else None)
  {
    assert prefix + ":" + action == prefix + [':'] + action;
    SplitOnceOfJoin(prefix, ':', action);
  }

  /** Every button of the stats main menu parses. */
  lemma StatsMainMenuParses()
    ensures ParseStatsCallback(Keyboards.StatsMainMenu()[0][0].data) == Some(("stats_menu", "users"))
    ensures ParseStatsCallback(Keyboards.StatsMainMenu()[0][1].data) == Some(("stats_menu", "interactions"))
    ensures ParseStatsCallback(Keyboards.StatsMainMenu()[1][0].data) == Some(("stats_menu", "downloads"))
    ensures ParseStatsCallback(Keyboards.StatsMainMenu()[1][1].data) == Some(("stats_show", "summary"))
  {
    ParseStatsData("stats_menu", "users");
    ParseStatsData("stats_menu", "interactions");
    ParseStatsData("stats_menu", "downloads");
    ParseStatsData("stats_show", "summary");
  }

  /** Every button of every stats submenu parses: its items as `stats_show`
      actions and the back button as the main menu. */
  lemma StatsSubmenuParses(current: string)
    ensures forall i :: 0 <= i < |Keyboards.StatsSubmenu(current)| - 1 ==>
      ParseStatsCallback(Keyboards.StatsSubmenu(current)[i].data) == Some(("stats_show", Keyboards.SubmenuActions(current)[i]))
    ensures ParseStatsCallback(Keyboards.BackButton.data) == Some(("stats_menu", "main"))
  {
    ParseStatsData("stats_menu", "main");
    forall i | 0 <= i < |Keyboards.StatsSubmenu(current)| - 1
      ensures ParseStatsCallback(Keyboards.StatsSubmenu(current)[i].data) == Some(("stats_show", Keyboards.SubmenuActions(current)[i]))
    {
      ParseStatsData("stats_show", Keyboards.SubmenuActions(current)[i]);
    }
  }

  const InvalidRequest: string := "\U{274C} Error: Invalid request."
  const UnknownAction: string := "\U{274C} Error: Unknown action."

  /** The callback parsing of the first version's download handler: no `:`
      is an invalid request, an action not starting with `download_` is
      unknown, and the format choice is the action with every `download_`
      removed. The error is the text the message is edited to. */
  function ParseLegacyDownload(data: string): (r: Result<(string, string), string>)
    ensures ':' !in data ==> r == Err(InvalidRequest)
    ensures r.Ok? ==> StartsWith(data, "download_")
    ensures r.Err? ==> r.error == InvalidRequest || r.error == UnknownAction
  {
    match SplitOnce(data, ':')
    case None => Err(InvalidRequest)
    case Some((action, url)) =>
      if !StartsWith(action, "download_") then Err(UnknownAction)
      else
        assert data[..9] == action[..9];
        Ok((ReplaceAll(action, "download_", ""), url))
  }

  /** Data with a `download_` action and no other `:` before the URL
      parses to the action with `download_` removed, and the URL. */
  lemma {:induction false} ParseLegacyData(action: string, url: string)
    requires StartsWith(action, "download_") && ':' !in action
    ensures ParseLegacyDownload(action + ":" + url) == Ok((ReplaceAll(action, "download_", ""), url))
  {
    assert action + ":" + url == action + [':'] + url;
    SplitOnceOfJoin(action, ':', url);
  }

  /** `download_` followed by a choice without `w` or `:` yields the choice. */
  lemma {:induction false} ParseLegacyChoice(choice: string, url: string)
    requires ':' !in choice && 'w' !in choice
    ensures ParseLegacyDownload("download_" + choice + ":" + url) == Ok((choice, url))
  {
    var action := "download_" + choice;
    assert action[..9] == "download_";
    assert ':' !in action by {
      assert forall k :: 0 <= k < |choice| ==> action[9 + k] == choice[k];
    }
    ParseLegacyData(action, url);
    ReplaceAllLeading("download_", choice, "");
    ReplaceAllAbsent(choice, "download_", "", 'w');
    assert ReplaceAll(action, "download_", "") == choice;
    assert ParseLegacyDownload(action + ":" + url) == Ok((choice, url));
    assert "download_" + choice + ":" + url == action + ":" + url;
  }

  /** Every button of the three-choice keyboard parses back to its choice
      and the URL, whatever the URL holds: no choice contains `:` or a
      `download_`. */
  lemma LegacyKeyboardRoundTrip(url: string, i: nat)
    requires i < 3
    ensures ParseLegacyDownload(Keyboards.DownloadOptionsKeyboard(url)[i].data) == Ok((Keyboards.LegacyChoices[i], url))
  {
    var choice := Keyboards.LegacyChoices[i];
    assert ':' !in choice && 'w' !in choice;
    ParseLegacyChoice(choice, url);
  }

  /** Removing every occurrence is not removing the prefix: an action that
      repeats `download_` loses both copies. */
  lemma {:induction false} LegacyChoiceDropsRepeats(choice: string, url: string)
    requires ':' !in choice && 'w' !in choice
    ensures ParseLegacyDownload("download_" + "download_" + choice + ":" + url) == Ok((choice, url))
  {
    var inner := "download_" + choice;
    var action := "download_" + inner;
    assert action[..9] == "download_";
    assert ':' !in action by {
      assert forall k :: 0 <= k < |choice| ==> action[18 + k] == choice[k];
    }
    ParseLegacyData(action, url);
    ReplaceAllLeading("download_", inner, "");
    ReplaceAllLeading("download_", choice, "");
    ReplaceAllAbsent(choice, "download_", "", 'w');
    assert ReplaceAll(action, "download_", "") == choice;
    assert ParseLegacyDownload(action + ":" + url) == Ok((choice, url));
    assert "download_" + "download_" + choice + ":" + url == action + ":" + url;
  }
}
