/** `process_formats`: from the format list yt-dlp reports, the quality
    options offered to the user (one per video height, highest first) and
    the option behind the "Best" button. */
module QualityOptions {
  import opened Wrappers
  import opened Text

  /** A numeric `preference` field (an `int` or a finite `float`, both
      compared by value), or one that is missing or not a number. */
  datatype Preference = Numeric(value: real) | NotNumeric

  /** The fields of a format dictionary that the selection reads; `None`
      stands for a missing key. */
  datatype Format = Format(vcodec: Option<string>, height: Option<int>, preference: Preference)

  /** An entry of the options list. */
  datatype QualityOption = QualityOption(height: int, selector: string, preference: real)

  const MinHeight: int := 240

  /** Non-numeric preferences count as -1. */
  function PrefValue(p: Preference): real {
    match p
    case Numeric(v) => v
    case NotNumeric => -1.0
  }

  /** The lower-cased codec starts with one of the accepted families. */
  predicate HasValidCodec(v: string) {
    StartsWith(v, "avc") || StartsWith(v, "h264") || StartsWith(v, "vp9") || StartsWith(v, "av01")
  }

  /** The format survives the filters: not audio-only, a truthy height of at
      least 240, and an accepted codec (a missing codec reads as `none`). */
  predicate Qualifies(f: Format) {
    && f.vcodec != Some("none")
    && f.height.Some? && f.height.value != 0
    && f.height.value >= MinHeight
    && HasValidCodec(Lower(f.vcodec.GetOr("none")))
  }

  /** The selector of the option for height `h`. */
  function HeightSelector(h: int): string {
    "h" + IntToString(h)
  }

  /** The option for height `h` has the greatest preference among the
      qualifying formats of that height, and one of them carries it. */
  predicate IsBestOfHeight(fs: seq<Format>, o: QualityOption) {
    && (exists k :: 0 <= k < |fs| && Qualifies(fs[k]) && fs[k].height.value == o.height && PrefValue(fs[k].preference) == o.preference)
    && (forall k :: 0 <= k < |fs| && Qualifies(fs[k]) && fs[k].height.value == o.height ==> PrefValue(fs[k].preference) <= o.preference)
  }

  predicate DistinctHeights(os: seq<QualityOption>) {
    forall i, j :: 0 <= i < j < |os| ==> os[i].height != os[j].height
  }

  predicate StrictlyDescending(os: seq<QualityOption>) {
    forall i, j :: 0 <= i < j < |os| ==> os[i].height > os[j].height
  }

  /** Position of the option for height `h`, as a dictionary lookup. */
  function FindHeight(os: seq<QualityOption>, h: int): (r: Option<nat>)
    ensures r.Some? ==> r.value < |os| && os[r.value].height == h
    ensures r.None? ==> forall j :: 0 <= j < |os| ==> os[j].height != h
  {
    if |os| == 0 then None
    else if os[|os| - 1].height == h then Some(|os| - 1)
    else FindHeight(os[..|os| - 1], h)
  }

  /** Inserts `x` into a strictly descending list whose heights differ
      from its own. */
  function InsertDesc(x: QualityOption, s: seq<QualityOption>): (r: seq<QualityOption>)
    requires StrictlyDescending(s)
    requires forall j :: 0 <= j < |s| ==> s[j].height != x.height
    ensures StrictlyDescending(r)
    ensures |r| == |s| + 1
    ensures forall o :: o in r <==> o == x || o in s
  {
    if |s| == 0 then [x]
    else if x.height > s[0].height then [x] + s
    else
      var t := InsertDesc(x, s[1..]);
      assert forall o :: o in s <==> o == s[0] || o in s[1..];
      assert forall j :: 0 <= j < |t| ==> t[j].height < s[0].height by {
        forall j | 0 <= j < |t| ensures t[j].height < s[0].height {
          assert t[j] in t;
        }
      }
      [s[0]] + t
  }

  /** `sorted(options, key=height, reverse=True)` for distinct heights. */
  function SortDesc(s: seq<QualityOption>): (r: seq<QualityOption>)
    requires DistinctHeights(s)
    ensures StrictlyDescending(r)
    ensures |r| == |s|
    ensures forall o :: o in r <==> o in s
  {
    if |s| == 0 then []
    else
      var last := s[|s| - 1];
      var init := s[..|s| - 1];
      var t := SortDesc(init);
      assert forall j :: 0 <= j < |t| ==> t[j].height != last.height by {
        forall j | 0 <= j < |t| ensures t[j].height != last.height {
          assert t[j] in init;
          var i :| 0 <= i < |init| && init[i] == t[j];
        }
      }
      assert s == init + [last];
      InsertDesc(last, t)
  }

  /** What the options dictionary promises after the formats `pre`: one
      entry per height, labelled by its height, best for that height, and
      covering every qualifying format. */
  predicate Summary(pre: seq<Format>, avail: seq<QualityOption>) {
    DistinctHeights(avail) && Labelled(avail) && AllBest(pre, avail) && Covers(pre, avail)
  }

  predicate Labelled(avail: seq<QualityOption>) {
    forall j :: 0 <= j < |avail| ==> avail[j].height >= MinHeight && avail[j].selector == HeightSelector(avail[j].height)
  }

  predicate AllBest(pre: seq<Format>, avail: seq<QualityOption>) {
    forall j :: 0 <= j < |avail| ==> IsBestOfHeight(pre, avail[j])
  }

  predicate Covers(pre: seq<Format>, avail: seq<QualityOption>) {
    forall k :: 0 <= k < |pre| && Qualifies(pre[k]) ==> exists j :: 0 <= j < |avail| && avail[j].height == pre[k].height.value
  }

  /** Where the option for height `h` sits, or would be appended. */
  function Slot(avail: seq<QualityOption>, h: int): (r: nat)
    ensures r <= |avail|
    ensures r < |avail| <==> FindHeight(avail, h).Some?
  {
    match FindHeight(avail, h)
    case Some(j) => j
    case None => |avail|
  }

  /** One turn of the loop over the formats: a qualifying format enters
      the dictionary under its height when the height is new or its
      preference beats the stored one. Only that height's slot changes. */
  function Absorb(avail: seq<QualityOption>, f: Format): (r: seq<QualityOption>)
    ensures !Qualifies(f) ==> r == avail
    ensures Qualifies(f) ==>
      var at := Slot(avail, f.height.value);
      && at < |r| && |r| == (if at < |avail| then |avail| else |avail| + 1)
      && r[at].height == f.height.value
      && r[at].preference >= PrefValue(f.preference)
      && (forall j :: 0 <= j < |avail| && j != at ==> r[j] == avail[j])
      && (at < |avail| && PrefValue(f.preference) <= avail[at].preference ==> r == avail)
  {
    if !Qualifies(f) then avail
    else
      var h := f.height.value;
      var p := PrefValue(f.preference);
      var entry := QualityOption(h, HeightSelector(h), p);
      match FindHeight(avail, h)
      case None => avail + [entry]
      case Some(j) => if p > avail[j].preference then avail[j := entry] else avail
  }

  /** Absorbing the next format keeps the summary true of one more format. */
  lemma {:induction false} AbsorbStep(pre: seq<Format>, f: Format, avail: seq<QualityOption>)
    requires Summary(pre, avail)
    ensures Summary(pre + [f], Absorb(avail, f))
  {
    if !Qualifies(f) {
      SkipStep(pre, f, avail);
    } else {
      var h := f.height.value;
      var entry := QualityOption(h, HeightSelector(h), PrefValue(f.preference));
      var idx := FindHeight(avail, h);
      if idx.None? {
        NewHeightStep(pre, f, avail, entry);
      } else if entry.preference > avail[idx.value].preference {
        BetterStep(pre, f, avail, idx.value, entry);
      } else {
        KeepStep(pre, f, avail, idx.value);
        CoversStep(pre, f, avail, avail);
      }
    }
  }

  /** A format that does not qualify leaves the summary true as it stands. */
  lemma {:induction false} SkipStep(pre: seq<Format>, f: Format, avail: seq<QualityOption>)
    requires Summary(pre, avail) && !Qualifies(f)
    ensures Summary(pre + [f], avail)
  {
    forall j | 0 <= j < |avail| ensures IsBestOfHeight(pre + [f], avail[j]) {
      KeptIsBest(pre, f, avail[j]);
    }
    CoversStep(pre, f, avail, avail);
  }

  /** A qualifying format of a new height is appended as its own entry. */
  lemma {:induction false} NewHeightStep(pre: seq<Format>, f: Format, avail: seq<QualityOption>, entry: QualityOption)
    requires Summary(pre, avail) && Qualifies(f)
    requires entry == QualityOption(f.height.value, HeightSelector(f.height.value), PrefValue(f.preference))
    requires FindHeight(avail, f.height.value).None?
    ensures Summary(pre + [f], avail + [entry])
  {
    var r := avail + [entry];
    AppendStep(pre, f, avail, entry, r);
    assert r[|avail|].height == f.height.value;
    CoversStep(pre, f, avail, r);
  }

  /** A qualifying format that beats the stored preference replaces it. */
  lemma {:induction false} BetterStep(pre: seq<Format>, f: Format, avail: seq<QualityOption>, at: nat, entry: QualityOption)
    requires Summary(pre, avail) && Qualifies(f)
    requires entry == QualityOption(f.height.value, HeightSelector(f.height.value), PrefValue(f.preference))
    requires at < |avail| && avail[at].height == entry.height && entry.preference > avail[at].preference
    ensures Summary(pre + [f], avail[at := entry])
  {
    var r := avail[at := entry];
    ReplaceStep(pre, f, avail, at, entry, r);
    assert r[at].height == f.height.value;
    CoversStep(pre, f, avail, r);
  }

  /** The heights stored so far stay stored, and a qualifying format's
      height is stored after it. */
  lemma {:induction false} CoversStep(pre: seq<Format>, f: Format, avail: seq<QualityOption>, r: seq<QualityOption>)
    requires Covers(pre, avail)
    requires |avail| <= |r| && forall j :: 0 <= j < |avail| ==> r[j].height == avail[j].height
    requires Qualifies(f) ==> exists j :: 0 <= j < |r| && r[j].height == f.height.value
    ensures Covers(pre + [f], r)
  {
    var ext := pre + [f];
    forall k | 0 <= k < |ext| && Qualifies(ext[k])
      ensures exists j :: 0 <= j < |r| && r[j].height == ext[k].height.value
    {
      if k < |pre| {
        assert ext[k] == pre[k];
        var j :| 0 <= j < |avail| && avail[j].height == pre[k].height.value;
        assert r[j].height == avail[j].height;
      }
    }
  }

  /** The running best of `process_formats`: a copy of the entry of the
      greatest height seen, its height (0 before any), and the entry's
      position in the options list. */
  datatype BestTrack = BestTrack(format: Option<QualityOption>, height: int, idx: nat)

  /** The running best is the stored entry of greatest height. */
  predicate Tracks(avail: seq<QualityOption>, b: BestTrack) {
    && (b.format.None? <==> |avail| == 0)
    && (b.format.None? ==> b.height == 0)
    && (b.format.Some? ==> b.idx < |avail| && avail[b.idx] == b.format.value && b.format.value.height == b.height)
    && (forall j :: 0 <= j < |avail| ==> avail[j].height <= b.height)
  }

  /** The best-format update after `f` has been absorbed into `prev`: a
      strictly higher format, or a better one of the best height, takes
      over, copied from the dictionary. */
  function UpdateBest(prev: seq<QualityOption>, f: Format, b: BestTrack): (r: BestTrack)
    requires DistinctHeights(prev) && Tracks(prev, b)
    ensures Tracks(Absorb(prev, f), r)
  {
    var avail := Absorb(prev, f);
    if !Qualifies(f) then b
    else
      var h := f.height.value;
      var p := PrefValue(f.preference);
      var at := Slot(prev, h);
      var curBest := if b.format.Some? then b.format.value.preference else -1.0;
      if h >= b.height && (h > b.height || p > curBest) then
        var r := BestTrack(Some(avail[at]), h, at);
        assert forall j :: 0 <= j < |avail| ==> avail[j].height <= h by {
          forall j | 0 <= j < |avail| ensures avail[j].height <= h {
            if j != at {
              assert avail[j] == prev[j];
            }
          }
        }
        r
      else
        assert b.format.Some? && b.idx == at ==> avail == prev;
        assert b.format.Some? && b.idx != at ==> avail[b.idx] == prev[b.idx];
        assert forall j :: 0 <= j < |avail| ==> avail[j].height <= b.height by {
          forall j | 0 <= j < |avail| ensures avail[j].height <= b.height {
            if j != at {
              assert avail[j] == prev[j];
            }
          }
        }
        b
  }

  /** Sorting the final dictionary: the options carry what the summary
      promised, and the best entry becomes the head of the list. */
  lemma SortedSummary(fs: seq<Format>, avail: seq<QualityOption>, b: BestTrack, opts: seq<QualityOption>)
    requires Summary(fs, avail) && Tracks(avail, b)
    requires StrictlyDescending(opts) && |opts| == |avail| && forall o :: o in opts <==> o in avail
    ensures forall o :: o in opts ==> o.height >= MinHeight && o.selector == HeightSelector(o.height)
    ensures forall o :: o in opts ==> IsBestOfHeight(fs, o)
    ensures forall k :: 0 <= k < |fs| && Qualifies(fs[k]) ==> exists j :: 0 <= j < |opts| && opts[j].height == fs[k].height.value
    ensures b.format.None? <==> |opts| == 0
    ensures b.format.Some? ==> opts[0] == b.format.value
  {
    forall o | o in opts
      ensures o.height >= MinHeight && o.selector == HeightSelector(o.height) && IsBestOfHeight(fs, o)
    {
      assert o in avail;
    }
    forall k | 0 <= k < |fs| && Qualifies(fs[k])
      ensures exists j :: 0 <= j < |opts| && opts[j].height == fs[k].height.value
    {
      var j :| 0 <= j < |avail| && avail[j].height == fs[k].height.value;
      assert avail[j] in opts;
    }
    if b.format.Some? {
      TopIsHighest(avail, opts, b.idx);
    }
  }

  /** `process_formats`: the options, one per qualifying height with the
      greatest preference seen for it and selector `h<height>`, highest
      first; and the best option, which is the highest one relabelled
      `best`, or `{height: 0, selector: best, preference: -1}` when nothing
      qualifies. */
  method ProcessFormats(fs: seq<Format>) returns (opts: seq<QualityOption>, best: QualityOption)
    ensures StrictlyDescending(opts)
    ensures forall o :: o in opts ==> o.height >= MinHeight && o.selector == HeightSelector(o.height)
    ensures forall o :: o in opts ==> IsBestOfHeight(fs, o)
    ensures forall k :: 0 <= k < |fs| && Qualifies(fs[k]) ==> exists j :: 0 <= j < |opts| && opts[j].height == fs[k].height.value
    ensures |opts| == 0 ==> best == QualityOption(0, "best", -1.0)
    ensures |opts| > 0 ==> best == opts[0].(selector := "best")
  {
    var avail: seq<QualityOption> := [];
    var b := BestTrack(None, 0, 0);
    var i := 0;
    while i < |fs|
      invariant 0 <= i <= |fs|
      invariant Summary(fs[..i], avail)
      invariant Tracks(avail, b)
    {
      var f := fs[i];
      AbsorbStep(fs[..i], f, avail);
      assert fs[..i + 1] == fs[..i] + [f];
      b := UpdateBest(avail, f, b);
      avail := Absorb(avail, f);
      i := i + 1;
    }
    assert fs[..i] == fs;
    opts := SortDesc(avail);
    SortedSummary(fs, avail, b, opts);
    if b.format.Some? {
      best := b.format.value.(selector := "best");
    } else {
      best := QualityOption(0, "best", -1.0);
    }
  }

  /** The head of the sorted options is the option of greatest height. */
  lemma TopIsHighest(avail: seq<QualityOption>, opts: seq<QualityOption>, top: nat)
    requires DistinctHeights(avail) && StrictlyDescending(opts)
    requires forall o :: o in opts <==> o in avail
    requires top < |avail| && forall j :: 0 <= j < |avail| ==> avail[j].height <= avail[top].height
    ensures |opts| > 0 && opts[0] == avail[top]
  {
    assert avail[top] in opts;
    var t :| 0 <= t < |opts| && opts[t] == avail[top];
    assert opts[0] in avail;
    var j :| 0 <= j < |avail| && avail[j] == opts[0];
  }

  /** An option stays best for its height when the next format is not a
      better one of that height. */
  lemma {:induction false} KeptIsBest(pre: seq<Format>, f: Format, o: QualityOption)
    requires IsBestOfHeight(pre, o)
    requires Qualifies(f) && f.height.value == o.height ==> PrefValue(f.preference) <= o.preference
    ensures IsBestOfHeight(pre + [f], o)
  {
    var ext := pre + [f];
    var k :| 0 <= k < |pre| && Qualifies(pre[k]) && pre[k].height.value == o.height && PrefValue(pre[k].preference) == o.preference;
    assert ext[k] == pre[k];
    assert forall k' :: 0 <= k' < |pre| ==> ext[k'] == pre[k'];
  }

  /** The entry made from a qualifying format is best for its height when
      it beats the stored option, or when no format of that height was
      seen before. */
  lemma {:induction false} EntryIsBest(pre: seq<Format>, f: Format, stored: Option<QualityOption>, entry: QualityOption)
    requires Qualifies(f)
    requires entry.height == f.height.value && entry.preference == PrefValue(f.preference)
    requires stored.None? ==> forall k :: 0 <= k < |pre| && Qualifies(pre[k]) ==> pre[k].height.value != entry.height
    requires stored.Some? ==> IsBestOfHeight(pre, stored.value) && stored.value.height == entry.height && entry.preference > stored.value.preference
    ensures IsBestOfHeight(pre + [f], entry)
  {
    var ext := pre + [f];
    assert ext[|pre|] == f;
    assert forall k :: 0 <= k < |pre| ==> ext[k] == pre[k];
  }

  /** A new height: the entry is appended and is best for its height. */
  lemma {:induction false} AppendStep(pre: seq<Format>, f: Format, prev: seq<QualityOption>, entry: QualityOption, avail: seq<QualityOption>)
    requires Qualifies(f)
    requires entry == QualityOption(f.height.value, HeightSelector(f.height.value), PrefValue(f.preference))
    requires forall j :: 0 <= j < |prev| ==> prev[j].height != entry.height
    requires Summary(pre, prev)
    requires avail == prev + [entry]
    ensures DistinctHeights(avail) && Labelled(avail) && AllBest(pre + [f], avail)
  {
    AppendDistinct(prev, entry, avail);
    EntryIsBest(pre, f, None, entry);
    forall j | 0 <= j < |prev| ensures IsBestOfHeight(pre + [f], prev[j]) {
      KeptIsBest(pre, f, prev[j]);
    }
    assert forall j :: 0 <= j < |prev| ==> avail[j] == prev[j];
  }

  lemma {:induction false} AppendDistinct(prev: seq<QualityOption>, entry: QualityOption, avail: seq<QualityOption>)
    requires forall j :: 0 <= j < |prev| ==> prev[j].height != entry.height
    requires DistinctHeights(prev)
    requires avail == prev + [entry]
    ensures DistinctHeights(avail)
  {
  }

  /** A better format of a stored height: the entry replaces the stored
      option and is best for its height. */
  lemma {:induction false} ReplaceStep(pre: seq<Format>, f: Format, prev: seq<QualityOption>, at: nat, entry: QualityOption, avail: seq<QualityOption>)
    requires Qualifies(f)
    requires entry == QualityOption(f.height.value, HeightSelector(f.height.value), PrefValue(f.preference))
    requires at < |prev| && prev[at].height == entry.height && entry.preference > prev[at].preference
    requires DistinctHeights(prev) && Labelled(prev) && AllBest(pre, prev)
    requires avail == prev[at := entry]
    ensures DistinctHeights(avail) && Labelled(avail) && AllBest(pre + [f], avail)
  {
    EntryIsBest(pre, f, Some(prev[at]), entry);
    forall j | 0 <= j < |prev| && j != at ensures IsBestOfHeight(pre + [f], prev[j]) {
      KeptIsBest(pre, f, prev[j]);
    }
    assert forall j :: 0 <= j < |prev| ==> avail[j].height == prev[j].height;
  }

  /** A format no better than the stored option of its height changes no
      option. */
  lemma {:induction false} KeepStep(pre: seq<Format>, f: Format, prev: seq<QualityOption>, at: nat)
    requires Qualifies(f)
    requires at < |prev| && prev[at].height == f.height.value && PrefValue(f.preference) <= prev[at].preference
    requires DistinctHeights(prev) && AllBest(pre, prev)
    ensures AllBest(pre + [f], prev)
  {
    forall j | 0 <= j < |prev| ensures IsBestOfHeight(pre + [f], prev[j]) {
      KeptIsBest(pre, f, prev[j]);
    }
  }
}
