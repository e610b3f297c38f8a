/** The admin statistics interface: the admin gate, the routing of
    `stats_menu`/`stats_show` buttons to a text and a keyboard, and the
    texts built from the counts the database returns. The database is a
    parameter holding the answers to the queries; a grouped count, a Python
    dict, is the list of its `(key, count)` items with distinct keys, in
    whatever order the database produced them. */
module StatsCallbacks {
  import opened Wrappers
  import opened Text
  import Keyboards
  import CallbackParsing
  import QualityOptions

  type Row = (string, int)

  /** No key occurs twice: the items of a dict. */
  predicate DistinctKeys(rows: seq<Row>) {
    forall i, j :: 0 <= i < j < |rows| ==> rows[i].0 != rows[j].0
  }

  /** Keys strictly ascending, the order of `sorted(counts.items())`
      when keys are distinct. */
  predicate SortedKeys(rows: seq<Row>) {
    forall i, j :: 0 <= i < j < |rows| ==> LexLess(rows[i].0, rows[j].0)
  }

  /** Inserts an entry with a new key into a key-sorted list. */
  function InsertByKey(x: Row, s: seq<Row>): (r: seq<Row>)
    requires SortedKeys(s)
    requires forall i :: 0 <= i < |s| ==> s[i].0 != x.0
    ensures SortedKeys(r)
    ensures multiset(r) == multiset(s) + multiset{x}
    decreases |s|
  {
    if |s| == 0 then [x]
    else if LexLess(x.0, s[0].0) then
      assert forall j :: 0 <= j < |s| ==> ([x] + s)[j + 1] == s[j];
      forall j | 0 < j < |s| ensures LexLess(x.0, s[j].0) {
        LexLessTransitive(x.0, s[0].0, s[j].0);
      }
      [x] + s
    else
      var rest := InsertByKey(x, s[1..]);
      assert s == [s[0]] + s[1..];
      LexLessTotal(x.0, s[0].0);
      forall j | 0 <= j < |rest| ensures LexLess(s[0].0, rest[j].0) {
        assert rest[j] in multiset(rest);
        if rest[j] != x {
          assert rest[j] in multiset(s[1..]);
          var k :| 0 <= k < |s[1..]| && s[1..][k] == rest[j];
          assert s[k + 1] == rest[j];
        }
      }
      [s[0]] + rest
  }

  /** `sorted(counts.items())`. */
  function SortByKey(rows: seq<Row>): (r: seq<Row>)
    requires DistinctKeys(rows)
    ensures SortedKeys(r)
    ensures multiset(r) == multiset(rows)
    decreases |rows|
  {
    if |rows| == 0 then []
    else
      var rest := SortByKey(rows[1..]);
      FirstKeyNotInRest(rows, rest);
      assert rows == [rows[0]] + rows[1..];
      InsertByKey(rows[0], rest)
  }

  /** The first key of a dict's items is not among the rest, however they
      are arranged. */
  lemma FirstKeyNotInRest(rows: seq<Row>, rest: seq<Row>)
    requires DistinctKeys(rows) && |rows| > 0
    requires multiset(rest) == multiset(rows[1..])
    ensures forall i :: 0 <= i < |rest| ==> rest[i].0 != rows[0].0
  {
    forall i | 0 <= i < |rest| ensures rest[i].0 != rows[0].0 {
      assert rest[i] in multiset(rest);
      assert rest[i] in multiset(rows[1..]);
      var k :| 0 <= k < |rows[1..]| && rows[1..][k] == rest[i];
      assert rows[k + 1] == rest[i];
    }
  }

  /** Of two key-sorted lists with the same entries, neither can start
      with an entry the other holds further on. */
  lemma SortedHeads(a: seq<Row>, b: seq<Row>)
    requires SortedKeys(a) && SortedKeys(b)
    requires multiset(a) == multiset(b) && |a| > 0
    ensures |b| > 0 && a[0] == b[0]
  {
    assert |b| == |multiset(b)| == |multiset(a)| == |a|;
    assert a[0] in multiset(b) && b[0] in multiset(a);
    var k :| 0 <= k < |b| && b[k] == a[0];
    var m :| 0 <= m < |a| && a[m] == b[0];
    if k > 0 {
      assert LexLess(b[0].0, b[k].0);
      if m > 0 {
        LexLessTransitive(a[0].0, a[m].0, a[0].0);
      }
      LexLessIrreflexive(a[0].0);
    }
  }

  /** Dropping the same first entry keeps the multisets equal. */
  lemma SameTails(a: seq<Row>, b: seq<Row>)
    requires |a| > 0 && |b| > 0 && a[0] == b[0]
    requires multiset(a) == multiset(b)
    ensures multiset(a[1..]) == multiset(b[1..])
  {
    assert a == [a[0]] + a[1..] && b == [b[0]] + b[1..];
    assert multiset(a) == multiset{a[0]} + multiset(a[1..]);
    assert multiset(b) == multiset{a[0]} + multiset(b[1..]);
    forall x ensures multiset(a[1..])[x] == multiset(b[1..])[x] {
      assert multiset(a)[x] == multiset{a[0]}[x] + multiset(a[1..])[x];
      assert multiset(b)[x] == multiset{a[0]}[x] + multiset(b[1..])[x];
    }
  }

  /** Two key-sorted lists with the same entries are the same list. */
  lemma {:induction false} SortedUnique(a: seq<Row>, b: seq<Row>)
    requires SortedKeys(a) && SortedKeys(b)
    requires multiset(a) == multiset(b)
    ensures a == b
    decreases |a|
  {
    if |a| == 0 {
      assert |b| == |multiset(b)| == 0;
    } else {
      SortedHeads(a, b);
      SameTails(a, b);
      SortedUnique(a[1..], b[1..]);
      assert a == [a[0]] + a[1..] && b == [b[0]] + b[1..];
    }
  }

  /** The listing does not depend on the order the database returned the
      items in: any reordering of the same dict sorts to the same list. */
  lemma SortByKeyIgnoresOrder(rows: seq<Row>, shuffled: seq<Row>)
    requires DistinctKeys(rows) && DistinctKeys(shuffled)
    requires multiset(rows) == multiset(shuffled)
    ensures SortByKey(rows) == SortByKey(shuffled)
  {
    SortedUnique(SortByKey(rows), SortByKey(shuffled));
  }

  /** How a grouped count's key is shown. */
  datatype KeyStyle =
      /** interaction types: `_` as a space, then title case */
    | Spaced
      /** statuses: title case */
    | Titled
      /** qualities: see `QualityDisplay` */
    | QualityStyle

  /** A quality starting with `h` loses every `h` and is upper-cased, so
      `h720` shows as `720`; any other is title-cased, so `best` shows as
      `Best`. */
  function QualityDisplay(name: string): (r: string)
    ensures StartsWith(name, "h") ==> |r| < |name| && 'h' !in r
    ensures StartsWith(name, "h") ==>
      |r| == |RemoveChar(name, 'h')| && forall i :: 0 <= i < |r| ==> r[i] == UpperChar(RemoveChar(name, 'h')[i])
    ensures !StartsWith(name, "h") ==> r == Title(name)
  {
    if StartsWith(name, "h") then
      var kept := RemoveChar(name, 'h');
      assert name[0] == 'h';
      var r := Upper(kept);
      assert 'h' !in r by {
        forall i | 0 <= i < |r| ensures r[i] != 'h' {
          assert r[i] == UpperChar(kept[i]);
        }
      }
      r
    else Title(name)
  }

  /** The quality an option button stores for a height shows as the bare
      number: `h720` as `720`. */
  lemma HeightQualityShowsNumber(h: int)
    ensures QualityDisplay(QualityOptions.HeightSelector(h)) == IntToString(h)
  {
    var digits := IntToString(h);
    var name := QualityOptions.HeightSelector(h);
    assert name[0] == 'h' && name[1..] == digits;
    assert forall i :: 0 <= i < |digits| ==> IsDigit(digits[i]) || digits[i] == '-' by {
      if h < 0 { assert digits == "-" + NatToString(-h); }
    }
    assert 'h' !in digits;
    assert RemoveChar(name, 'h') == RemoveChar(digits, 'h');
    assert Upper(digits) == digits;
  }

  function KeyDisplay(style: KeyStyle, key: string): string {
    match style
    case Spaced => Title(ReplaceChar(key, '_', ' '))
    case Titled => Title(key)
    case QualityStyle => QualityDisplay(key)
  }

  /** One listed count: `- {key}: `{count}``. */
  function EntryLine(style: KeyStyle, row: Row): string {
    "- " + KeyDisplay(style, row.0) + ": `" + IntToString(row.1) + "`\n"
  }

  /** The lines of the given rows, in the order given. */
  function Lines(style: KeyStyle, rows: seq<Row>): (r: string)
    ensures |rows| == 0 <==> r == ""
    decreases |rows|
  {
    if |rows| == 0 then "" else EntryLine(style, rows[0]) + Lines(style, rows[1..])
  }

  /** A grouped count: its heading, then one line per key in key order, or
      the empty text when there are no keys. Whatever order the database
      returned the items in, the lines are those of the one arrangement of
      the same items whose keys ascend. */
  function Grouped(heading: string, empty: string, style: KeyStyle, rows: seq<Row>): (r: string)
    requires DistinctKeys(rows)
    ensures |r| >= |heading| && r[..|heading|] == heading
    ensures |rows| == 0 ==> r == heading + empty
    ensures forall sorted :: |rows| > 0 && SortedKeys(sorted) && multiset(sorted) == multiset(rows) ==>
      r == heading + Lines(style, sorted)
  {
    if |rows| == 0 then heading + empty
    else
      var sorted := SortByKey(rows);
      forall other | SortedKeys(other) && multiset(other) == multiset(rows)
        ensures other == sorted
      {
        SortedUnique(other, sorted);
      }
      heading + Lines(style, sorted)
  }

  /** What the database answers. Dates are fixed by the caller, so each
      query over a period is a plain count. The success rate is computed in
      floating point and is kept as its formatted text. */
  datatype Database = Database(
    totalUsers: int,
    active24h: int,
    active7d: int,
    interactionsAll: seq<Row>,
    interactions24h: seq<Row>,
    statusCounts: seq<Row>,
    qualityCounts: seq<Row>,
    topUrls: seq<Row>,
    successRate: string)

  /** The grouped counts are dicts. */
  predicate WellFormed(db: Database) {
    && DistinctKeys(db.interactionsAll)
    && DistinctKeys(db.interactions24h)
    && DistinctKeys(db.statusCounts)
    && DistinctKeys(db.qualityCounts)
  }

  /** `dict.get(key, 0)`. */
  function CountOf(rows: seq<Row>, key: string): (r: int)
    requires DistinctKeys(rows)
    ensures (forall i :: 0 <= i < |rows| ==> rows[i].0 != key) ==> r == 0
    ensures forall i :: 0 <= i < |rows| && rows[i].0 == key ==> r == rows[i].1
    decreases |rows|
  {
    if |rows| == 0 then 0
    else if rows[0].0 == key then rows[0].1
    else
      assert forall i :: 1 <= i < |rows| ==> rows[1..][i - 1] == rows[i];
      CountOf(rows[1..], key)
  }

  /** `sum(counts.values())`. */
  function Total(rows: seq<Row>): int
    decreases |rows|
  {
    if |rows| == 0 then 0 else rows[0].1 + Total(rows[1..])
  }

  /** With counts that are not negative, the attempts shown in the summary
      are at least the completed plus the failed downloads. */
  lemma {:induction false} TotalCoversCompletedAndFailed(rows: seq<Row>)
    requires DistinctKeys(rows)
    requires forall i :: 0 <= i < |rows| ==> rows[i].1 >= 0
    ensures Total(rows) >= CountOf(rows, "completed") + CountOf(rows, "failed")
    ensures Total(rows) >= 0
    decreases |rows|
  {
    if |rows| > 0 {
      assert forall i, j :: 0 <= i < j < |rows[1..]| ==> rows[1..][i] == rows[i + 1] && rows[1..][j] == rows[j + 1];
      TotalCoversCompletedAndFailed(rows[1..]);
      if rows[0].0 == "completed" || rows[0].0 == "failed" {
        assert CountOf(rows[1..], rows[0].0) == 0;
      }
    }
  }

  const Header: string := "\U{1F4CA} *Bot Statistics*\n\n"

  /** One figure of the summary: `- {name}: `{value}`{mark}`. */
  function SummaryLine(name: string, value: string, mark: string): string {
    "- " + name + ": `" + value + "`" + mark + "\n"
  }

  /** `_get_summary_stats`: under its heading, one line per figure; the
      attempts are the sum of all status counts, and the completed and
      failed downloads are the counts of those two statuses, zero when
      absent. */
  function SummaryText(db: Database): (r: string)
    requires WellFormed(db)
    ensures |r| > 0 && r[0] == '\U{1F4CA}'
    ensures Contains(r, SummaryLine("Total Users", IntToString(db.totalUsers), ""))
    ensures Contains(r, SummaryLine("Active Users (24h)", IntToString(db.active24h), ""))
    ensures Contains(r, SummaryLine("Total Download Attempts", IntToString(Total(db.statusCounts)), ""))
    ensures Contains(r, SummaryLine("Completed Downloads", IntToString(CountOf(db.statusCounts, "completed")), " \U{2705}"))
    ensures Contains(r, SummaryLine("Failed Downloads", IntToString(CountOf(db.statusCounts, "failed")), " \U{274C}"))
    ensures Contains(r, SummaryLine("Success Rate", db.successRate + "%", ""))
  {
    var head := "\U{1F4CA} *Overall Summary*\n";
    var l1 := SummaryLine("Total Users", IntToString(db.totalUsers), "");
    var l2 := SummaryLine("Active Users (24h)", IntToString(db.active24h), "");
    var l3 := SummaryLine("Total Download Attempts", IntToString(Total(db.statusCounts)), "");
    var l4 := SummaryLine("Completed Downloads", IntToString(CountOf(db.statusCounts, "completed")), " \U{2705}");
    var l5 := SummaryLine("Failed Downloads", IntToString(CountOf(db.statusCounts, "failed")), " \U{274C}");
    var l6 := SummaryLine("Success Rate", db.successRate + "%", "");
    var lines := [l1, l2, l3, l4, l5, l6];
    var r := head + Concat(lines);
    assert r[0] == head[0];
    forall k | 0 <= k < 6 ensures Contains(r, lines[k]) {
      ConcatContains(lines, k);
      ContainsAfter(head, Concat(lines), lines[k]);
    }
    assert lines[0] == l1 && lines[1] == l2 && lines[2] == l3 && lines[3] == l4 && lines[4] == l5 && lines[5] == l6;
    assert Contains(r, lines[0]) && Contains(r, lines[1]) && Contains(r, lines[2]);
    assert Contains(r, lines[3]) && Contains(r, lines[4]) && Contains(r, lines[5]);
    r
  }

  /** The summary's figures agree: with counts that are not negative, the
      attempts it shows are at least the completed plus the failed
      downloads it shows. */
  lemma SummaryFiguresConsistent(db: Database)
    requires WellFormed(db)
    requires forall i :: 0 <= i < |db.statusCounts| ==> db.statusCounts[i].1 >= 0
    ensures var a, c, f := Total(db.statusCounts), CountOf(db.statusCounts, "completed"), CountOf(db.statusCounts, "failed");
      && Contains(SummaryText(db), SummaryLine("Total Download Attempts", IntToString(a), ""))
      && Contains(SummaryText(db), SummaryLine("Completed Downloads", IntToString(c), " \U{2705}"))
      && Contains(SummaryText(db), SummaryLine("Failed Downloads", IntToString(f), " \U{274C}"))
      && a >= c + f && c >= 0 && f >= 0
  {
    TotalCoversCompletedAndFailed(db.statusCounts);
  }

  const UnknownUserStatistic: string := "Unknown user statistic."
  const UnknownInteractionStatistic: string := "Unknown interaction statistic."
  const UnknownDownloadStatistic: string := "Unknown download statistic."

  /** `_get_user_stats`. */
  function UserStats(db: Database, action: string): (r: string)
    ensures r == UnknownUserStatistic <==> action !in Keyboards.SubmenuActions("users")
  {
    if action == "users_total" then "\U{1F464} Total Unique Users: `" + IntToString(db.totalUsers) + "`"
    else if action == "users_active_24h" then "\U{1F464} Active Users (last 24h): `" + IntToString(db.active24h) + "`"
    else if action == "users_active_7d" then "\U{1F464} Active Users (last 7 days): `" + IntToString(db.active7d) + "`"
    else UnknownUserStatistic
  }

  /** `_get_interaction_stats`. */
  function InteractionStats(db: Database, action: string): (r: string)
    requires WellFormed(db)
    ensures r == UnknownInteractionStatistic <==> action !in Keyboards.SubmenuActions("interactions")
  {
    if action == "interactions_by_type" then
      Grouped("\U{1F4AC} *Interactions by Type (All Time)*\n", "_No interactions recorded._\n", Spaced, db.interactionsAll)
    else if action == "interactions_24h" then
      Grouped("\U{1F4AC} *Interactions by Type (Last 24h)*\n", "_No interactions in the last 24 hours._\n", Spaced, db.interactions24h)
    else UnknownInteractionStatistic
  }

  const UrlLimit: nat := 60

  /** A URL over 60 characters is cut to its first 60 and marked `...`. */
  function DisplayUrl(url: string): (r: string)
    ensures |url| <= UrlLimit ==> r == url
    ensures |url| > UrlLimit ==> |r| == UrlLimit + 3 && r[..UrlLimit] == url[..UrlLimit] && r[UrlLimit..] == "..."
  {
    if |url| > UrlLimit then url[..UrlLimit] + "..." else url
  }

  /** The numbered lines of the top URLs, starting at `n`. */
  function UrlLines(urls: seq<Row>, n: nat): (r: string)
    ensures |urls| == 0 <==> r == ""
    decreases |urls|
  {
    if |urls| == 0 then ""
    else
      var line := NatToString(n) + ". `" + DisplayUrl(urls[0].0) + "` (Count: `" + IntToString(urls[0].1) + "`)\n";
      line + UrlLines(urls[1..], n + 1)
  }

  /** `_get_download_stats`. */
  function DownloadStats(db: Database, action: string): (r: string)
    requires WellFormed(db)
    ensures r == UnknownDownloadStatistic <==> action !in Keyboards.SubmenuActions("downloads")
  {
    if action == "downloads_by_status" then
      Grouped("\U{1F4E5} *Downloads by Status (All Time)*\n", "_No downloads recorded._\n", Titled, db.statusCounts)
    else if action == "downloads_by_quality" then
      Grouped("\U{1F4E5} *Completed Downloads by Quality*\n", "_No completed downloads recorded._\n", QualityStyle, db.qualityCounts)
    else if action == "downloads_top_urls" then
      "\U{1F4E5} *Top 5 Requested URLs*\n" + (if |db.topUrls| == 0 then "_No URLs requested yet._\n" else UrlLines(db.topUrls, 1))
    else UnknownDownloadStatistic
  }

  /** The keyboards the interface shows. */
  datatype Markup = MainMenu | Submenu(menu: string) | BackToMain

  /** The button rows of a keyboard. */
  function Rows(m: Markup): seq<seq<Keyboards.Button>> {
    match m
    case MainMenu => Keyboards.StatsMainMenu()
    case Submenu(menu) =>
      var bs := Keyboards.StatsSubmenu(menu);
      seq(|bs|, i requires 0 <= i < |bs| => [bs[i]])
    case BackToMain => [[Keyboards.BackButton]]
  }

  const MenuNames: seq<string> := ["users", "interactions", "downloads"]

  const UnknownMenu: string := Header + "Unknown menu."

  /** `_handle_stats_menu`: the main menu and the three submenus; any other
      action shows "Unknown menu." over the main menu. */
  function MenuView(action: string): (r: (string, Markup))
    ensures action in MenuNames ==> r.1 == Submenu(action)
    ensures action !in MenuNames ==> r.1 == MainMenu
    ensures r.0 == UnknownMenu <==> action != "main" && action !in MenuNames
    ensures |r.0| > 0 && r.0[0] == Header[0]
  {
    var (body, markup) :=
      if action == "main" then ("Select a category:", MainMenu)
      else if action == "users" then ("\U{1F464} *User Statistics*\nSelect an option:", Submenu("users"))
      else if action == "interactions" then ("\U{1F4AC} *Interaction Statistics*\nSelect an option:", Submenu("interactions"))
      else if action == "downloads" then ("\U{1F4E5} *Download Statistics*\nSelect an option:", Submenu("downloads"))
      else ("Unknown menu.", MainMenu);
    assert (Header + body)[|Header|..] == body && (Header + body)[0] == Header[0];
    assert UnknownMenu[|Header|..] == "Unknown menu.";
    (Header + body, markup)
  }

  /** The text a family answers for an action it does not know. */
  function UnknownStatistic(menu: string): string {
    if menu == "users" then UnknownUserStatistic
    else if menu == "interactions" then UnknownInteractionStatistic
    else UnknownDownloadStatistic
  }

  /** The summary and the three families of statistics are told apart by
      their first character, so at most one of them applies. */
  lemma FamiliesDisjoint(action: string)
    ensures StartsWith(action, "users_") ==> !StartsWith(action, "interactions_") && !StartsWith(action, "downloads_") && action != "summary"
    ensures StartsWith(action, "interactions_") ==> !StartsWith(action, "downloads_") && action != "summary"
    ensures StartsWith(action, "downloads_") ==> action != "summary"
  {
    if |action| > 0 {
      if action[0] != 'u' { MismatchNotStartsWith(action, "users_", 0); }
      if action[0] != 'i' { MismatchNotStartsWith(action, "interactions_", 0); }
      if action[0] != 'd' { MismatchNotStartsWith(action, "downloads_", 0); }
    }
  }

  /** `_handle_stats_show` below the common header: the summary over a back
      button, a statistic of a family over that family's submenu, anything
      else "Unknown statistics view." over the main menu. */
  function ShowBody(db: Database, action: string): (r: (string, Markup))
    requires WellFormed(db)
    ensures r.1 == BackToMain <==> action == "summary"
    ensures r.1.Submenu? ==> r.1.menu in MenuNames && StartsWith(action, r.1.menu + "_")
    ensures r.1 == MainMenu <==>
      action != "summary" && !StartsWith(action, "users_") && !StartsWith(action, "interactions_") && !StartsWith(action, "downloads_")
    ensures r.1 == MainMenu <==> r.0 == UnknownView
    // within a family, an action the family's submenu does not offer gets
    // the family's own unknown text
    ensures r.1.Submenu? ==> (r.0 == UnknownStatistic(r.1.menu) <==> action !in Keyboards.SubmenuActions(r.1.menu))
  {
    FamiliesDisjoint(action);
    assert "users" + "_" == "users_" && "interactions" + "_" == "interactions_" && "downloads" + "_" == "downloads_";
    if action == "summary" then
      var r := (SummaryText(db), BackToMain);
      assert UnknownView[0] != r.0[0];
      r
    else if StartsWith(action, "users_") then (UserStats(db, action), Submenu("users"))
    else if StartsWith(action, "interactions_") then (InteractionStats(db, action), Submenu("interactions"))
    else if StartsWith(action, "downloads_") then (DownloadStats(db, action), Submenu("downloads"))
    else (UnknownView, MainMenu)
  }

  const UnknownView: string := "Unknown statistics view."

  /** `_handle_stats_show`: every view opens with the statistics header;
      the summary comes over the back button, a family's statistic over
      that family's submenu, and anything else is "Unknown statistics
      view." over the main menu. */
  function ShowView(db: Database, action: string): (r: (string, Markup))
    requires WellFormed(db)
    ensures |r.0| >= |Header| && r.0[..|Header|] == Header
    ensures r.1 == BackToMain <==> action == "summary"
    ensures action == "summary" ==> r.0 == Header + SummaryText(db)
    ensures r.1.Submenu? ==> r.1.menu in MenuNames && StartsWith(action, r.1.menu + "_")
    ensures r.1 == MainMenu <==>
      action != "summary" && !StartsWith(action, "users_") && !StartsWith(action, "interactions_") && !StartsWith(action, "downloads_")
    ensures r.1 == MainMenu <==> r.0 == Header + UnknownView
    ensures r.1.Submenu? ==> (r.0 == Header + UnknownStatistic(r.1.menu) <==> action !in Keyboards.SubmenuActions(r.1.menu))
  {
    var body := ShowBody(db, action);
    var r := (Header + body.0, body.1);
    assert r.0[|Header|..] == body.0;
    forall t ensures r.0 == Header + t <==> body.0 == t {
      if r.0 == Header + t { assert (Header + t)[|Header|..] == t; }
    }
    r
  }

  /** `_process_stats_request`: a prefix other than the two menu types is
      answered with an error over the main menu. */
  function ProcessStatsRequest(db: Database, menuType: string, action: string): (r: (string, Markup))
    requires WellFormed(db)
    ensures menuType == "stats_menu" ==> r == MenuView(action)
    ensures menuType == "stats_show" ==> r == ShowView(db, action)
    ensures menuType != "stats_menu" && menuType != "stats_show" ==> r == ("Error: Unknown statistics menu.", MainMenu)
  {
    if menuType == "stats_menu" then MenuView(action)
    else if menuType == "stats_show" then ShowView(db, action)
    else ("Error: Unknown statistics menu.", MainMenu)
  }

  /** The `stats_show` actions whose view queries the database: the
      summary and every statistic a submenu offers. */
  const QueriedActions: set<string> := {
    "summary",
    "users_total", "users_active_24h", "users_active_7d",
    "interactions_by_type", "interactions_24h",
    "downloads_by_status", "downloads_by_quality", "downloads_top_urls"}

  predicate Queries(menuType: string, action: string) {
    menuType == "stats_show" && action in QueriedActions
  }

  /** The queried actions are the summary and the submenus' items. */
  lemma QueriedActionsOffered(action: string)
    ensures action in QueriedActions <==>
      action == "summary" || exists m :: m in MenuNames && action in Keyboards.SubmenuActions(m)
  {
    var users := Keyboards.SubmenuActions("users");
    var interactions := Keyboards.SubmenuActions("interactions");
    var downloads := Keyboards.SubmenuActions("downloads");
    assert MenuNames == ["users", "interactions", "downloads"];
    if action in QueriedActions && action != "summary" {
      if action in users {
        assert "users" in MenuNames;
      } else if action in interactions {
        assert "interactions" in MenuNames;
      } else {
        assert action in downloads && "downloads" in MenuNames;
      }
    }
  }

  /** What the logging of the interaction does. */
  datatype LogOutcome = LogOk | LogConnectionError | LogOtherError

  /** How the queries behind a view end. */
  datatype QueryOutcome = QueryOk | QueryConnectionError | QueryOtherError

  /** What the handler does, in order: answer the query (with an alert
      text or silently), log the interaction, edit the message. */
  datatype StatsEffect =
    | Answer(alert: Option<string>)
    | LogInteraction
    | Edit(text: string, markup: Option<Markup>)

  const AccessDenied: string := "Access Denied."

  /** The edit an admin's press ends with. */
  function AdminReply(data: string, log: LogOutcome, db: Database, query: QueryOutcome): (r: StatsEffect)
    requires WellFormed(db)
    ensures r.Edit?
    // a view is shown with a keyboard exactly when the database connection
    // held for the log, the data parses, and the view's queries worked
    ensures var parsed := CallbackParsing.ParseStatsCallback(data);
      r.markup.Some? <==> (log != LogConnectionError && parsed.Some? && (query == QueryOk || !Queries(parsed.value.0, parsed.value.1)))
    ensures r.markup.Some? ==>
      var (menuType, action) := CallbackParsing.ParseStatsCallback(data).value;
      (r.text, r.markup.value) == ProcessStatsRequest(db, menuType, action)
  {
    if log == LogConnectionError then Edit("\U{274C} Internal Error (DB Connection). Please try again later.", None)
    else
      match CallbackParsing.ParseStatsCallback(data)
      case None => Edit("\U{274C} Invalid stats request format.", None)
      case Some((menuType, action)) =>
        if Queries(menuType, action) && query == QueryConnectionError then
          Edit("\U{274C} A database connection error occurred while fetching statistics.", None)
        else if Queries(menuType, action) && query == QueryOtherError then
          Edit("\U{274C} An error occurred while fetching statistics.", None)
        else
          var view := ProcessStatsRequest(db, menuType, action);
          Edit(view.0, Some(view.1))
  }

  /** `handle_stats_callback` for a query with its message present; empty
      data is Python-falsy and refused like missing data. The admin list is
      a parameter. */
  function HandleStatsCallback(user: int, admins: set<int>, data: string, log: LogOutcome,
                               db: Database, query: QueryOutcome): (r: seq<StatsEffect>)
    requires WellFormed(db)
    ensures data == "" ==> r == [Answer(Some("Invalid request."))]
    // the admin gate comes before any logging or query
    ensures data != "" && user !in admins ==> r == [Answer(Some(AccessDenied))]
    ensures LogInteraction in r <==> data != "" && user in admins
    ensures data != "" && user in admins ==> r == [Answer(None), LogInteraction, AdminReply(data, log, db, query)]
  {
    if data == "" then [Answer(Some("Invalid request."))]
    else if user !in admins then [Answer(Some(AccessDenied))]
    else [Answer(None), LogInteraction, AdminReply(data, log, db, query)]
  }

  /** The parser only lets the two menu types through, so the handler never
      shows the unknown-menu-type error. */
  lemma HandlerNeverShowsUnknownMenuType(user: int, admins: set<int>, data: string, log: LogOutcome,
                                         db: Database, query: QueryOutcome)
    requires WellFormed(db)
    ensures Edit("Error: Unknown statistics menu.", Some(MainMenu)) !in HandleStatsCallback(user, admins, data, log, db, query)
  {
    var r := AdminReply(data, log, db, query);
    if r.markup.Some? {
      var (menuType, action) := CallbackParsing.ParseStatsCallback(data).value;
      assert r.text[0] == Header[0] != 'E';
    }
  }

  /** A view routes to a known screen: a menu the keyboards name, or a view
      that queries the database. */
  predicate KnownView(menuType: string, action: string) {
    (menuType == "stats_menu" && (action == "main" || action in MenuNames)) || Queries(menuType, action)
  }

  /** Every statistic a submenu offers is shown over that submenu, and
      not as unknown. */
  lemma OfferedStatisticShown(db: Database, m: string, i: nat)
    requires WellFormed(db)
    requires m in MenuNames && i < |Keyboards.SubmenuActions(m)|
    ensures ShowBody(db, Keyboards.SubmenuActions(m)[i]).1 == Submenu(m)
    ensures ShowBody(db, Keyboards.SubmenuActions(m)[i]).0 != UnknownStatistic(m)
  {
    var action := Keyboards.SubmenuActions(m)[i];
    assert action in Keyboards.SubmenuActions(m);
    assert StartsWith(action, m + "_");
    FamiliesDisjoint(action);
  }

  /** Every known view is shown without an "Unknown" text. */
  lemma KnownViewNotUnknown(db: Database, menuType: string, action: string)
    requires WellFormed(db)
    requires KnownView(menuType, action)
    ensures menuType == "stats_menu" ==> MenuView(action).0 != UnknownMenu
    ensures menuType == "stats_show" ==> ShowBody(db, action).1 != MainMenu
    ensures menuType == "stats_show" && ShowBody(db, action).1.Submenu? ==>
      ShowBody(db, action).0 != UnknownStatistic(ShowBody(db, action).1.menu)
  {
    if menuType == "stats_show" && action != "summary" {
      QueriedActionsOffered(action);
      var m :| m in MenuNames && action in Keyboards.SubmenuActions(m);
      var i :| 0 <= i < |Keyboards.SubmenuActions(m)| && Keyboards.SubmenuActions(m)[i] == action;
      OfferedStatisticShown(db, m, i);
    }
  }

  /** Every button of the main menu, two rows of two, parses to a known
      view. */
  lemma MainMenuLeadsToKnownViews()
    ensures |Rows(MainMenu)| == 2 && |Rows(MainMenu)[0]| == 2 && |Rows(MainMenu)[1]| == 2
    ensures CallbackParsing.ParseStatsCallback(Rows(MainMenu)[0][0].data) == Some(("stats_menu", "users"))
    ensures CallbackParsing.ParseStatsCallback(Rows(MainMenu)[0][1].data) == Some(("stats_menu", "interactions"))
    ensures CallbackParsing.ParseStatsCallback(Rows(MainMenu)[1][0].data) == Some(("stats_menu", "downloads"))
    ensures CallbackParsing.ParseStatsCallback(Rows(MainMenu)[1][1].data) == Some(("stats_show", "summary"))
    ensures KnownView("stats_menu", "users") && KnownView("stats_menu", "interactions")
    ensures KnownView("stats_menu", "downloads") && KnownView("stats_show", "summary")
  {
    CallbackParsing.StatsMainMenuParses();
    assert MenuNames[0] == "users" && MenuNames[1] == "interactions" && MenuNames[2] == "downloads";
    assert "summary" in QueriedActions;
  }

  /** Every button of a submenu parses to a statistic of that menu or, for
      the back button, to the main menu. */
  lemma SubmenuLeadsToKnownViews(menu: string, i: nat)
    requires i < |Rows(Submenu(menu))|
    ensures |Rows(Submenu(menu))[i]| == 1
    ensures CallbackParsing.ParseStatsCallback(Rows(Submenu(menu))[i][0].data).Some?
    ensures var (menuType, action) := CallbackParsing.ParseStatsCallback(Rows(Submenu(menu))[i][0].data).value;
      KnownView(menuType, action)
  {
    var bs := Keyboards.StatsSubmenu(menu);
    assert Rows(Submenu(menu))[i] == [bs[i]];
    CallbackParsing.StatsSubmenuParses(menu);
    if i < |bs| - 1 {
      var acts := Keyboards.SubmenuActions(menu);
      assert menu in MenuNames;
      assert acts[i] in acts;
    }
  }

  /** The back button leads to the main menu. */
  lemma BackLeadsToMainMenu()
    ensures Rows(BackToMain) == [[Keyboards.BackButton]]
    ensures CallbackParsing.ParseStatsCallback(Keyboards.BackButton.data) == Some(("stats_menu", "main"))
    ensures KnownView("stats_menu", "main")
  {
    CallbackParsing.StatsSubmenuParses("");
  }
}
