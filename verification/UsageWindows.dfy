/**
 Five-hour usage windows and the weekly reset. Moments are whole milliseconds; a timestamp
 that does not parse is `None`.
 */
module UsageWindows {
  import opened Common

  const FIVE_HOURS_MS := 5 * 60 * 60 * 1000
  const WEEK_MS := 7 * 24 * 60 * 60 * 1000

  datatype Window = Window(start: int, end: int, count: nat)

  function Times(entries: seq<Option<int>>): seq<int> {
    if entries == [] then []
    else Times(Front(entries)) + if Last(entries).Some? then [Last(entries).value] else []
  }

  /** How many leading moments, from `n` on, belong to the window the first one opens. */
  function RunLength(times: seq<int>, width: int, n: nat): (r: nat)
    requires 1 <= n <= |times|
    ensures n <= r <= |times|
    ensures forall k :: n <= k < r ==> times[k] < times[0] + width
    ensures r < |times| ==> times[r] >= times[0] + width
    decreases |times| - n
  {
    if n < |times| && times[n] < times[0] + width then RunLength(times, width, n + 1) else n
  }

  /** A window opens at the first moment the previous one leaves over. */
  function WindowsOf(times: seq<int>, width: int): (windows: seq<Window>)
    ensures windows == [] <==> times == []
    decreases |times|
  {
    if times == [] then []
    else
      var n := RunLength(times, width, 1);
      [Window(times[0], times[0] + width, n)] + WindowsOf(times[n..], width)
  }

  // ---------------------------------------------------------------- the loop

  /** One more moment fills the newest window or opens the next. */
  function Extend(windows: seq<Window>, t: int, width: int): seq<Window> {
    if windows == [] || t >= Last(windows).end then windows + [Window(t, t + width, 1)]
    else Front(windows) + [Last(windows).(count := Last(windows).count + 1)]
  }

  lemma {:induction false} RunExtends(times: seq<int>, width: int, n: nat, t: int)
    requires 1 <= n <= |times|
    ensures var r := RunLength(times, width, n);
            RunLength(times + [t], width, n) == if r == |times| && t < times[0] + width then r + 1 else r
    decreases |times| - n
  {
    if n < |times| && times[n] < times[0] + width {
      RunExtends(times, width, n + 1, t);
    }
  }

  lemma ExtendBehind(first: Window, rest: seq<Window>, t: int, width: int)
    requires rest != []
    ensures Extend([first] + rest, t, width) == [first] + Extend(rest, t, width)
  {
    assert Front([first] + rest) == [first] + Front(rest);
  }

  /** Windows can be grown one moment at a time, whatever the order of the moments. */
  lemma {:induction false} WindowsGrow(times: seq<int>, t: int, width: int)
    ensures WindowsOf(times + [t], width) == Extend(WindowsOf(times, width), t, width)
    decreases |times|
  {
    if times == [] {
      assert [t][1..] == [];
    } else {
      hide Extend;
      var longer, n := times + [t], RunLength(times, width, 1);
      var first := Window(times[0], times[0] + width, n);
      RunExtends(times, width, 1, t);
      if n < |times| {
        assert longer[n..] == times[n..] + [t];
        WindowsGrow(times[n..], t, width);
        ExtendBehind(first, WindowsOf(times[n..], width), t, width);
      } else {
        GrowsOnlyWindow(times, t, width);
      }
    }
  }

  lemma Unfold(times: seq<int>, width: int)
    requires times != []
    ensures var n := RunLength(times, width, 1);
            WindowsOf(times, width) == [Window(times[0], times[0] + width, n)] + WindowsOf(times[n..], width)
    ensures RunLength(times, width, 1) == |times| ==>
              WindowsOf(times, width) == [Window(times[0], times[0] + width, |times|)]
  {
    assert times[|times|..] == [];
  }

  lemma GrowsOnlyWindow(times: seq<int>, t: int, width: int)
    requires times != [] && RunLength(times, width, 1) == |times|
    ensures WindowsOf(times + [t], width) == Extend(WindowsOf(times, width), t, width)
  {
    hide WindowsOf;
    var longer := times + [t];
    RunExtends(times, width, 1, t);
    Unfold(times, width);
    Unfold(longer, width);
    Unfold([t], width);
    assert longer[|times|..] == [t];
  }

  lemma ExtendOpen(closed: seq<Window>, w: Window, t: int, width: int)
    ensures Extend(closed + [w], t, width)
         == if t >= w.end then closed + [w] + [Window(t, t + width, 1)] else closed + [w.(count := w.count + 1)]
  {
    assert Front(closed + [w]) == closed;
  }

  method FiveHourWindows(entries: seq<Option<int>>, width: int) returns (windows: seq<Window>)
    ensures windows == WindowsOf(Times(entries), width)
  {
    hide WindowsOf;
    windows := [];
    var windowStart: Option<int> := None;
    var count := 0;
    for i := 0 to |entries|
      invariant WindowsOf(Times(entries[..i]), width) == windows + Open(windowStart, width, count)
      invariant windowStart.None? ==> windows == []
    {
      assert Front(entries[..i + 1]) == entries[..i];
      assert Times(entries[..i]) + [] == Times(entries[..i]);
      if entries[i].Some? {
        var t := entries[i].value;
        WindowsGrow(Times(entries[..i]), t, width);
        if windowStart.Some? {
          ExtendOpen(windows, Window(windowStart.value, windowStart.value + width, count), t, width);
        }
        if windowStart.None? || t >= windowStart.value + width {
          if windowStart.Some? {
            windows := windows + [Window(windowStart.value, windowStart.value + width, count)];
          }
          windowStart := Some(t);
          count := 0;
        }
        count := count + 1;
      }
    }
    assert entries[..|entries|] == entries;
    if windowStart.Some? {
      windows := windows + [Window(windowStart.value, windowStart.value + width, count)];
    }
  }

  /** The window the loop is still filling. */
  function Open(windowStart: Option<int>, width: int, count: nat): seq<Window> {
    if windowStart.None? then [] else [Window(windowStart.value, windowStart.value + width, count)]
  }

  // ---------------------------------------------------------------- what the windows are

  ghost predicate NonDecreasing(times: seq<int>) { forall i, j :: 0 <= i < j < |times| ==> times[i] <= times[j] }

  predicate Holds(w: Window, t: int) { w.start <= t < w.end }

  function CountIn(times: seq<int>, w: Window): nat {
    if times == [] then 0 else (if Holds(w, times[0]) then 1 else 0) + CountIn(times[1..], w)
  }

  function TotalCount(windows: seq<Window>): nat {
    if windows == [] then 0 else windows[0].count + TotalCount(windows[1..])
  }

  lemma {:induction false} CountSplits(left: seq<int>, right: seq<int>, w: Window)
    ensures CountIn(left + right, w) == CountIn(left, w) + CountIn(right, w)
  {
    if left == [] {
      assert left + right == right;
    } else {
      assert (left + right)[1..] == left[1..] + right;
      CountSplits(left[1..], right, w);
    }
  }

  lemma {:induction false} CountAllOrNone(times: seq<int>, w: Window)
    ensures (forall k :: 0 <= k < |times| ==> Holds(w, times[k])) ==> CountIn(times, w) == |times|
    ensures (forall k :: 0 <= k < |times| ==> !Holds(w, times[k])) ==> CountIn(times, w) == 0
  {
    if times == [] {
    } else {
      CountAllOrNone(times[1..], w);
      assert forall k :: 0 <= k < |times[1..]| ==> times[1..][k] == times[k + 1];
    }
  }

  /** No moment is dropped or counted twice, sorted or not. */
  lemma {:induction false} CountsSum(times: seq<int>, width: int)
    ensures TotalCount(WindowsOf(times, width)) == |times|
    decreases |times|
  {
    if times == [] {
    } else {
      CountsSum(times[RunLength(times, width, 1)..], width);
    }
  }

  /** Window `w` opens at a moment, lasts `width`, and counts exactly the moments in it. */
  ghost predicate Faithful(w: Window, times: seq<int>, width: int) {
    w.start in times && w.end == w.start + width && w.count == CountIn(times, w) && w.count > 0
  }

  ghost predicate AllFaithful(windows: seq<Window>, times: seq<int>, width: int) {
    forall k :: 0 <= k < |windows| ==> Faithful(windows[k], times, width)
  }

  ghost predicate Disjoint(windows: seq<Window>) {
    forall i, j :: 0 <= i < j < |windows| ==> windows[i].end <= windows[j].start
  }

  /** Sorted moments split at the first window's end. */
  lemma FirstRun(times: seq<int>, width: int) returns (n: nat, first: Window)
    requires width > 0 && NonDecreasing(times) && times != []
    ensures 1 <= n <= |times| && first == Window(times[0], times[0] + width, n)
    ensures WindowsOf(times, width) == [first] + WindowsOf(times[n..], width)
    ensures forall k :: 0 <= k < n ==> Holds(first, times[k])
    ensures forall k :: n <= k < |times| ==> times[k] >= first.end
    ensures NonDecreasing(times[n..])
  {
    n := RunLength(times, width, 1);
    first := Window(times[0], times[0] + width, n);
  }

  /** What is faithful to the moments past the first run is faithful to all of them. */
  lemma FaithfulToAll(w: Window, times: seq<int>, n: nat, width: int, end: int)
    requires n <= |times| && Faithful(w, times[n..], width)
    requires (forall k :: 0 <= k < n ==> times[k] < end) && forall k :: n <= k < |times| ==> times[k] >= end
    ensures Faithful(w, times, width) && w.start >= end
  {
    var rest := times[n..];
    var i :| 0 <= i < |rest| && rest[i] == w.start;
    assert times[n + i] == w.start;
    assert times == times[..n] + rest;
    CountSplits(times[..n], rest, w);
    CountAllOrNone(times[..n], w);
  }

  /** The first window counts the run it opens, and nothing past it. */
  lemma FirstIsFaithful(times: seq<int>, n: nat, first: Window, width: int)
    requires 1 <= n <= |times| && first == Window(times[0], times[0] + width, n)
    requires forall k :: 0 <= k < n ==> Holds(first, times[k])
    requires forall k :: n <= k < |times| ==> times[k] >= first.end
    ensures Faithful(first, times, width)
  {
    hide CountIn;
    assert times == times[..n] + times[n..];
    CountSplits(times[..n], times[n..], first);
    CountAllOrNone(times[..n], first);
    CountAllOrNone(times[n..], first);
  }

  /** On sorted moments: ordered, disjoint windows, each counting the moments inside it. */
  lemma {:induction false} WindowsAreFaithful(times: seq<int>, width: int)
    requires width > 0 && NonDecreasing(times)
    ensures AllFaithful(WindowsOf(times, width), times, width) && Disjoint(WindowsOf(times, width))
    decreases |times|
  {
    hide WindowsOf, CountIn;
    if times == [] {
      assert WindowsOf(times, width) == [];
    } else {
      var n, first := FirstRun(times, width);
      var rest := WindowsOf(times[n..], width);
      WindowsAreFaithful(times[n..], width);
      FirstIsFaithful(times, n, first, width);
      hide Faithful, NonDecreasing;
      forall k | 0 <= k < |rest| ensures Faithful(rest[k], times, width) && rest[k].start >= first.end {
        FaithfulToAll(rest[k], times, n, width, first.end);
      }
    }
  }

  /** Each moment lies in one window, and in no other. */
  lemma {:induction false} EachMomentInOneWindow(times: seq<int>, width: int, t: int) returns (k: nat)
    requires width > 0 && NonDecreasing(times) && t in times
    ensures var windows := WindowsOf(times, width);
            && k < |windows| && Holds(windows[k], t)
            && (forall j :: 0 <= j < |windows| && Holds(windows[j], t) ==> j == k)
    decreases |times|
  {
    hide WindowsOf, Faithful;
    var n, first := FirstRun(times, width);
    WindowsAreFaithful(times, width);
    var i :| 0 <= i < |times| && times[i] == t;
    if i < n {
      k := 0;
    } else {
      assert times[n..][i - n] == t;
      var rest := EachMomentInOneWindow(times[n..], width, t);
      k := rest + 1;
    }
    OnlyOneHolds(WindowsOf(times, width), t, k);
  }

  lemma OnlyOneHolds(windows: seq<Window>, t: int, k: nat)
    requires Disjoint(windows) && k < |windows| && Holds(windows[k], t)
    ensures forall j :: 0 <= j < |windows| && Holds(windows[j], t) ==> j == k
  {
    forall j | 0 <= j < |windows| && j != k ensures !Holds(windows[j], t) {
      var lower, upper := if j < k then j else k, if j < k then k else j;
      assert windows[lower].end <= windows[upper].start;
    }
  }

  /** The interval from `c` holds moment `t`. */
  predicate Reaches(c: int, t: int, width: int) { c <= t < c + width }

  ghost predicate Covered(cover: set<int>, t: int, width: int) {
    exists c :: c in cover && Reaches(c, t, width)
  }

  ghost predicate Covers(cover: set<int>, times: seq<int>, width: int) {
    forall k :: 0 <= k < |times| ==> Covered(cover, times[k], width)
  }

  /** An interval that ends before the later moments is no use to them. */
  lemma CoverWithout(times: seq<int>, n: nat, width: int, cover: set<int>, c: int)
    requires Covers(cover, times, width) && n <= |times| && forall k :: n <= k < |times| ==> times[k] >= c + width
    ensures Covers(cover - {c}, times[n..], width)
  {
    forall k | 0 <= k < |times[n..]| ensures Covered(cover - {c}, times[n..][k], width) {
      assert Covered(cover, times[n + k], width);
      var d :| d in cover && Reaches(d, times[n + k], width);
      assert d in cover - {c};
    }
  }

  /** No family of half-open intervals of this width that covers the moments is smaller. */
  lemma {:induction false} NoCoverIsSmaller(times: seq<int>, width: int, cover: set<int>)
    requires width > 0 && NonDecreasing(times) && Covers(cover, times, width)
    ensures |WindowsOf(times, width)| <= |cover|
    decreases |times|
  {
    if times == [] {
    } else {
      hide WindowsOf, Covers, NonDecreasing;
      var n, first := FirstRun(times, width);
      var c := CoverOf(times, 0, width, cover);
      CoverWithout(times, n, width, cover, c);
      NoCoverIsSmaller(times[n..], width, cover - {c});
      assert |cover - {c}| == |cover| - 1;
    }
  }

  lemma CoverOf(times: seq<int>, k: nat, width: int, cover: set<int>) returns (c: int)
    requires Covers(cover, times, width) && k < |times|
    ensures c in cover && Reaches(c, times[k], width)
  {
    assert Covered(cover, times[k], width);
    c :| c in cover && Reaches(c, times[k], width);
  }

  function Starts(windows: seq<Window>): set<int> { set k | 0 <= k < |windows| :: windows[k].start }

  /** The greedy windows are themselves a cover, so they are a smallest one. */
  lemma GreedyIsLeast(times: seq<int>, width: int)
    requires width > 0 && NonDecreasing(times)
    ensures var windows := WindowsOf(times, width);
            && Covers(Starts(windows), times, width) && |Starts(windows)| == |windows|
            && (forall cover :: Covers(cover, times, width) ==> |windows| <= |cover|)
  {
    hide WindowsOf, CountIn;
    var windows := WindowsOf(times, width);
    WindowsAreFaithful(times, width);
    forall i | 0 <= i < |times| ensures Covered(Starts(windows), times[i], width) {
      var k := EachMomentInOneWindow(times, width, times[i]);
      assert windows[k].start in Starts(windows);
      assert Faithful(windows[k], times, width);
    }
    forall i, j | 0 <= i < j < |windows| ensures windows[i].start != windows[j].start {
      assert Faithful(windows[i], times, width);
    }
    DistinctStarts(windows);
    forall cover | Covers(cover, times, width) ensures |windows| <= |cover| {
      NoCoverIsSmaller(times, width, cover);
    }
  }

  lemma {:induction false} DistinctStarts(windows: seq<Window>)
    requires forall i, j :: 0 <= i < j < |windows| ==> windows[i].start != windows[j].start
    ensures |Starts(windows)| == |windows|
  {
    if windows == [] {
    } else {
      DistinctStarts(Front(windows));
      assert Starts(windows) == Starts(Front(windows)) + {Last(windows).start};
    }
  }

  // ---------------------------------------------------------------- the estimate

  datatype Weekly = Available(sinceReset: int, entryCount: nat) | NeedsAnchor

  datatype Estimate = Estimate(current: Option<Window>, windowsLast7Days: nat, weekly: Weekly)

  function CountStartedFrom(windows: seq<Window>, since: int): nat {
    if windows == [] then 0 else (if windows[0].start >= since then 1 else 0) + CountStartedFrom(windows[1..], since)
  }

  /** `Math.floor` of the quotient: Dafny's division agrees for a positive divisor. */
  function SinceReset(anchor: int, now: int): int { anchor + (now - anchor) / WEEK_MS * WEEK_MS }

  function BuildEstimate(entries: seq<Option<int>>, anchor: Option<int>, now: int): Estimate {
    var times := Times(entries);
    var windows := WindowsOf(times, FIVE_HOURS_MS);
    Estimate(
      if windows != [] && Last(windows).end > now then Some(Last(windows)) else None,
      CountStartedFrom(windows, now - WEEK_MS),
      if anchor.None? then NeedsAnchor
      else Available(SinceReset(anchor.value, now), CountIn(times, Window(SinceReset(anchor.value, now), now + 1, 0))))
  }

  lemma TimesAtEnd(some: seq<Option<int>>, entry: Option<int>)
    ensures Times(some + [entry]) == Times(some) + if entry.Some? then [entry.value] else []
  {
    assert Front(some + [entry]) == some;
  }

  /** The moments that parse, in the order of the entries. */
  lemma {:induction false} TimesInOrder(some: seq<Option<int>>, more: seq<Option<int>>)
    ensures Times([]) == [] && Times(some + more) == Times(some) + Times(more)
  {
    if more == [] {
      assert some + more == some;
    } else {
      hide Times;
      var front, last := Front(more), Last(more);
      assert some + more == some + front + [last] && more == front + [last];
      TimesInOrder(some, front);
      TimesAtEnd(some + front, last);
      TimesAtEnd(front, last);
      Regroup(Times(some), Times(front), if last.Some? then [last.value] else []);
    }
  }

  ghost function HeldAt(times: seq<int>, w: Window): set<nat> { set i: nat | i < |times| && Holds(w, times[i]) }

  ghost function StartedAt(windows: seq<Window>, since: int): set<nat> { set k: nat | k < |windows| && windows[k].start >= since }

  lemma {:induction false} CountInIs(times: seq<int>, w: Window)
    ensures CountIn(times, w) == |HeldAt(times, w)|
  {
    if times == [] {
    } else {
      var front, n: nat := Front(times), |times| - 1;
      CountInIs(front, w);
      assert times == front + [Last(times)];
      CountSplits(front, [Last(times)], w);
      assert CountIn([Last(times)], w) == if Holds(w, Last(times)) then 1 else 0;
      assert HeldAt(times, w) == HeldAt(front, w) + if Holds(w, Last(times)) then {n} else {};
    }
  }

  lemma {:induction false} StartedSplits(windows: seq<Window>, more: seq<Window>, since: int)
    ensures CountStartedFrom(windows + more, since) == CountStartedFrom(windows, since) + CountStartedFrom(more, since)
  {
    if windows == [] {
      assert windows + more == more;
    } else {
      assert (windows + more)[1..] == windows[1..] + more;
      StartedSplits(windows[1..], more, since);
    }
  }

  lemma {:induction false} CountStartedIs(windows: seq<Window>, since: int)
    ensures CountStartedFrom(windows, since) == |StartedAt(windows, since)|
  {
    if windows == [] {
    } else {
      var front, n: nat := Front(windows), |windows| - 1;
      CountStartedIs(front, since);
      assert windows == front + [Last(windows)];
      StartedSplits(front, [Last(windows)], since);
      assert CountStartedFrom([Last(windows)], since) == if Last(windows).start >= since then 1 else 0;
      assert StartedAt(windows, since) == StartedAt(front, since) + if Last(windows).start >= since then {n} else {};
    }
  }

  /** The counts of an estimate: windows opened in the last seven days, and prompts from the reset up to now. */
  lemma EstimateCounts(entries: seq<Option<int>>, anchor: Option<int>, now: int)
    ensures var e, times := BuildEstimate(entries, anchor, now), Times(entries);
            && e.windowsLast7Days == |StartedAt(WindowsOf(times, FIVE_HOURS_MS), now - 604_800_000)|
            && (e.weekly.NeedsAnchor? <==> anchor.None?)
            && (e.weekly.Available? ==>
                  e.weekly.entryCount == |HeldAt(times, Window(e.weekly.sinceReset, now + 1, 0))|)
  {
    CountStartedIs(WindowsOf(Times(entries), FIVE_HOURS_MS), now - WEEK_MS);
    if anchor.Some? {
      CountInIs(Times(entries), Window(SinceReset(anchor.value, now), now + 1, 0));
    }
    hide WindowsOf, CountIn, CountStartedFrom, Times, SinceReset;
  }

  /**
   The current window is the one a prompt sent now would be metered in: with one shown,
   that prompt joins it; with none, the prompt opens a window of its own.
   */
  lemma CurrentWindowTakesTheNextPrompt(entries: seq<Option<int>>, anchor: Option<int>, now: int)
    ensures var current := BuildEstimate(entries, anchor, now).current;
            var windows := WindowsOf(Times(entries), FIVE_HOURS_MS);
            var after := WindowsOf(Times(entries + [Some(now)]), FIVE_HOURS_MS);
            && (current.Some? ==> windows != [] && current.value == Last(windows))
            && (current.Some? ==> after == Front(windows) + [current.value.(count := current.value.count + 1)])
            && (current.None? ==> after == windows + [Window(now, now + FIVE_HOURS_MS, 1)])
  {
    assert Front(entries + [Some(now)]) == entries;
    WindowsGrow(Times(entries), now, FIVE_HOURS_MS);
  }

  /** Windows that start late enough are a suffix, each a width after the one before. */
  lemma {:induction false} RecentAreSpaced(windows: seq<Window>, since: int, width: int)
    requires width > 0 && Disjoint(windows) && windows != []
    requires forall k :: 0 <= k < |windows| ==> windows[k].end == windows[k].start + width
    ensures CountStartedFrom(windows, since) <= |windows|
    ensures windows[0].start >= since ==> CountStartedFrom(windows, since) == |windows|
    ensures CountStartedFrom(windows, since) > 0 ==>
              since + (CountStartedFrom(windows, since) - 1) * width <= Last(windows).start
  {
    if |windows| > 1 {
      var rest := windows[1..];
      assert windows[0].end <= rest[0].start;
      RecentAreSpaced(rest, since, width);
      if windows[0].start >= since {
        RecentAreSpaced(rest, windows[0].end, width);
        assert (|rest| - 1) * width + width == |rest| * width;
      }
    }
  }

  lemma RecentFit(windows: seq<Window>, now: int)
    requires Disjoint(windows)
    requires forall k :: 0 <= k < |windows| ==> windows[k].end == windows[k].start + FIVE_HOURS_MS && windows[k].start <= now
    ensures CountStartedFrom(windows, now - WEEK_MS) <= 34
  {
    if windows != [] {
      RecentAreSpaced(windows, now - WEEK_MS, FIVE_HOURS_MS);
      hide CountStartedFrom, Disjoint;
      assert Last(windows).start <= now;
    }
  }

  /** Seven days have room for thirty-four five-hour windows, and no report shows more. */
  lemma AtMost34Windows(entries: seq<Option<int>>, anchor: Option<int>, now: int)
    requires NonDecreasing(Times(entries)) && forall t :: t in Times(entries) ==> t <= now
    ensures BuildEstimate(entries, anchor, now).windowsLast7Days <= 34
  {
    var windows := WindowsOf(Times(entries), FIVE_HOURS_MS);
    WindowsAreFaithful(Times(entries), FIVE_HOURS_MS);
    hide WindowsOf, CountIn, Times, CountStartedFrom, Disjoint;
    forall k | 0 <= k < |windows| ensures windows[k].end == windows[k].start + FIVE_HOURS_MS && windows[k].start <= now {
      assert Faithful(windows[k], Times(entries), FIVE_HOURS_MS);
    }
    RecentFit(windows, now);
  }

  /** The reset reported is the one moment of the anchor's weekly rhythm whose week holds now. */
  lemma ResetIsTheLatest(anchor: int, now: int, periods: int)
    ensures var reset := anchor + periods * WEEK_MS;
            reset == SinceReset(anchor, now) <==> reset <= now < reset + WEEK_MS
  {
    var q := (now - anchor) / WEEK_MS;
    assert (now - anchor) == q * WEEK_MS + (now - anchor) % WEEK_MS;
  }
}
