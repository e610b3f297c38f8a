/** The progress throttle of `StatusUpdater`: a two-field state (time of
    the last progress edit, last percentage shown) stepped by yt-dlp's
    progress events. Time is in whole milliseconds and the percentage is
    computed on integers. */
module StatusUpdater {
  import opened Wrappers
  import opened Text

  const ThrottleMs: int := 1500
  const PercentageStep: int := 5

  datatype State = State(lastTime: int, lastPct: int)

  /** The state `__init__` sets up: no percentage shown yet. */
  const Initial: State := State(0, -1)

  predicate Valid(s: State) {
    -1 <= s.lastPct <= 100
  }

  /** A progress-hook call. `speed` and `eta` are present when yt-dlp's
      value is truthy, holding the preformatted text shown for it. */
  datatype Event =
    | Downloading(now: int, estimate: Option<nat>, total: Option<nat>, downloaded: nat, speed: Option<string>, eta: Option<string>)
    | Finished
    | OtherStatus

  /** The byte total used: the estimate when it is truthy, else the total;
      `None` when neither is usable. */
  function TotalBytes(estimate: Option<nat>, total: Option<nat>): (r: Option<nat>)
    ensures r.Some? ==> r.value > 0
    ensures r.Some? ==> estimate == r || (total == r && (estimate.None? || estimate.value == 0))
    ensures r.None? <==> (estimate.None? || estimate.value == 0) && (total.None? || total.value == 0)
  {
    if estimate.Some? && estimate.value > 0 then estimate
    else if total.Some? && total.value > 0 then total
    else None
  }

  /** The percentage of an event, clamped to 0..100. */
  function Percentage(downloaded: nat, total: nat): (r: int)
    requires total > 0
    ensures 0 <= r <= 100
    ensures r < 100 ==> r * total <= downloaded * 100 < (r + 1) * total
    ensures r == 100 <==> downloaded >= total
  {
    var p := (downloaded * 100) / total;
    if p > 100 then 100 else p
  }

  function Abs(x: int): nat {
    if x < 0 then -x else x
  }

  /** The percentage an event would show: `None` for an event that shows
      nothing whatever the state. A finished event counts as 100. */
  function Value(e: Event): (r: Option<int>)
    ensures r.Some? ==> 0 <= r.value <= 100
  {
    match e
    case Downloading(_, estimate, total, downloaded, _, _) =>
      (match TotalBytes(estimate, total)
       case None => None
       case Some(t) => Some(Percentage(downloaded, t)))
    case Finished => Some(100)
    case OtherStatus => None
  }

  function ProgressText(pct: int, speed: Option<string>, eta: Option<string>): string {
    var head := "\U{1F680} Downloading... " + IntToString(pct) + "%";
    var withSpeed := if speed.Some? then head + " (" + speed.value + ")" else head;
    if eta.Some? then withSpeed + " (ETA: " + eta.value + ")" else withSpeed
  }

  /** `update_progress`: the next state and the percentage of the edit it
      schedules, if it schedules one. */
  function Step(s: State, e: Event): (r: (State, Option<int>))
    requires Valid(s)
    ensures Valid(r.0)
    ensures r.1.None? ==> r.0 == s
    ensures r.1.Some? ==> Value(e) == r.1 && r.0.lastPct == r.1.value
    ensures r.1.Some? && e.Downloading? ==> r.0.lastTime == e.now
    ensures e.Finished? ==> r.0.lastTime == s.lastTime
    ensures e.Finished? ==> (r.1.Some? <==> s.lastPct != 100)
    ensures e.OtherStatus? ==> r.1.None?
    ensures e.Downloading? && Value(e).None? ==> r.1.None?
    ensures s.lastPct == -1 && Value(e).Some? ==> r.1.Some?
  {
    match e
    case Downloading(now, estimate, total, downloaded, _, _) =>
      (match TotalBytes(estimate, total)
       case None => (s, None)
       case Some(t) =>
         var pct := Percentage(downloaded, t);
         var shouldUpdate :=
           || s.lastPct == -1
           || (now - s.lastTime > ThrottleMs && Abs(pct - s.lastPct) >= PercentageStep)
           || (pct == 100 && s.lastPct != 100);
         if shouldUpdate then (State(now, pct), Some(pct)) else (s, None))
    case Finished =>
      if s.lastPct != 100 then (State(s.lastTime, 100), Some(100)) else (s, None)
    case OtherStatus => (s, None)
  }

  /** The text of the edit a step schedules. */
  function StepText(e: Event, pct: int): string {
    match e
    case Downloading(_, _, _, _, speed, eta) => ProgressText(pct, speed, eta)
    case _ => ProgressText(pct, None, None)
  }

  /** A downloading event emits exactly when the throttle lets it through. */
  lemma DownloadingEmitsWhen(s: State, e: Event)
    requires Valid(s) && e.Downloading? && Value(e).Some?
    ensures Step(s, e).1.Some? <==>
      || s.lastPct == -1
      || (e.now - s.lastTime > ThrottleMs && Abs(Value(e).value - s.lastPct) >= PercentageStep)
      || (Value(e).value == 100 && s.lastPct != 100)
  {
  }

  /** `update_status` is never throttled: it schedules its edit and leaves
      the throttle's state alone. */
  function UpdateStatus(s: State, text: string): (r: (State, string))
    ensures r.0 == s && r.1 == text
  {
    (s, text)
  }

  /** The percentages of the edits scheduled over a stream of events. */
  function Run(s: State, events: seq<Event>): (r: seq<int>)
    requires Valid(s)
    ensures forall i :: 0 <= i < |r| ==> 0 <= r[i] <= 100
    decreases |events|
  {
    if |events| == 0 then []
    else
      var (next, shown) := Step(s, events[0]);
      (if shown.Some? then [shown.value] else []) + Run(next, events[1..])
  }

  /** Progress never goes back: the percentages of the stream, a finished
      event counting as 100, do not decrease. */
  predicate Monotone(events: seq<Event>) {
    forall i, j :: 0 <= i < j < |events| && Value(events[i]).Some? && Value(events[j]).Some? ==>
      Value(events[i]).value <= Value(events[j]).value
  }

  /** Every percentage of the stream is at least `low`. */
  predicate AtLeast(events: seq<Event>, low: int) {
    forall i :: 0 <= i < |events| && Value(events[i]).Some? ==> low <= Value(events[i]).value
  }

  /** How many more edits a state allows on a monotone stream: one per
      5 % step still possible, one for reaching 100, and one for the first. */
  function Budget(last: int): nat
    requires -1 <= last <= 100
  {
    if last == -1 then 22
    else if last == 100 then 0
    else (100 - last) / 5 + 1
  }

  lemma {:induction false} RunWithinBudget(s: State, events: seq<Event>)
    requires Valid(s) && Monotone(events) && AtLeast(events, s.lastPct)
    ensures |Run(s, events)| <= Budget(s.lastPct)
    decreases |events|
  {
    if |events| > 0 {
      var (next, shown) := Step(s, events[0]);
      var rest := events[1..];
      assert Monotone(rest) by {
        forall i, j | 0 <= i < j < |rest| && Value(rest[i]).Some? && Value(rest[j]).Some?
          ensures Value(rest[i]).value <= Value(rest[j]).value
        {
          assert rest[i] == events[i + 1] && rest[j] == events[j + 1];
        }
      }
      if shown.Some? {
        var v := shown.value;
        assert AtLeast(rest, v) by {
          forall i | 0 <= i < |rest| && Value(rest[i]).Some? ensures v <= Value(rest[i]).value {
            assert rest[i] == events[i + 1];
          }
        }
        assert s.lastPct <= v;
        assert Budget(v) < Budget(s.lastPct);
        RunWithinBudget(next, rest);
      } else {
        assert AtLeast(rest, s.lastPct) by {
          forall i | 0 <= i < |rest| && Value(rest[i]).Some? ensures s.lastPct <= Value(rest[i]).value {
            assert rest[i] == events[i + 1];
          }
        }
        RunWithinBudget(next, rest);
      }
    }
  }

  /** On a stream whose percentages never go back, the updater schedules at
      most 22 progress edits. */
  lemma MonotoneRunBounded(events: seq<Event>)
    requires Monotone(events)
    ensures |Run(Initial, events)| <= 22
  {
    RunWithinBudget(Initial, events);
  }

  /** Once 100 % is shown, a stream that stays at 100 % schedules nothing. */
  lemma {:induction false} NothingAfterHundred(t: int, events: seq<Event>)
    requires AtLeast(events, 100)
    ensures Run(State(t, 100), events) == []
    decreases |events|
  {
    if |events| > 0 {
      var rest := events[1..];
      assert AtLeast(rest, 100) by {
        forall i | 0 <= i < |rest| && Value(rest[i]).Some? ensures 100 <= Value(rest[i]).value {
          assert rest[i] == events[i + 1];
        }
      }
      NothingAfterHundred(t, rest);
    }
  }

  /** On a monotone stream 100 % is shown at most once, and not at all
      once it has been shown. */
  lemma {:induction false} HundredShownOnce(s: State, events: seq<Event>)
    requires Valid(s) && Monotone(events) && AtLeast(events, s.lastPct)
    ensures multiset(Run(s, events))[100] <= (if s.lastPct == 100 then 0 else 1)
    decreases |events|
  {
    if |events| > 0 {
      var (next, shown) := Step(s, events[0]);
      var rest := events[1..];
      var head: seq<int> := if shown.Some? then [shown.value] else [];
      assert Run(s, events) == head + Run(next, rest);
      assert Monotone(rest) by {
        forall i, j | 0 <= i < j < |rest| && Value(rest[i]).Some? && Value(rest[j]).Some?
          ensures Value(rest[i]).value <= Value(rest[j]).value
        {
          assert rest[i] == events[i + 1] && rest[j] == events[j + 1];
        }
      }
      assert AtLeast(rest, next.lastPct) by {
        forall i | 0 <= i < |rest| && Value(rest[i]).Some? ensures next.lastPct <= Value(rest[i]).value {
          assert rest[i] == events[i + 1];
        }
      }
      if shown == Some(100) {
        NothingAfterHundred(next.lastTime, rest);
        assert Run(s, events) == [100];
      } else {
        assert multiset(head)[100] == 0;
        HundredShownOnce(next, rest);
      }
    }
  }
}
