/**
 The fold of the event log into per-adapter outcome statistics, and the round cache that
 the two router wrappers of the active stack share. An append to the log can fail, and a
 failed one leaves an error entry that can fail as well; neither ever blocks a round.
 */
module OutcomeStats {
  import opened Common
  import opened OutcomeRouting

  /** A task instance; the source joins the two ids with a separator no id contains. */
  datatype TaskRef = TaskRef(runId: string, taskId: string)

  datatype Event =
    | ShadowRoute(task: TaskRef, live: string)
    | TaskState(task: TaskRef, state: string)
    | Other(task: TaskRef, kind: string)

  ghost function Reviewing(events: seq<Event>): set<TaskRef> {
    set e | e in events && e.TaskState? && e.state == "REVIEWING" :: e.task
  }

  ghost function TasksOf(events: seq<Event>, live: string): set<TaskRef> {
    set e | e in events && e.ShadowRoute? && e.live == live :: e.task
  }

  ghost function Lives(events: seq<Event>): set<string> {
    set e | e in events && e.ShadowRoute? :: e.live
  }

  /** Distinct task instances routed to each adapter, and how many of them ever reached review. */
  ghost function StatsOf(events: seq<Event>): StatsMap {
    map live | live in Lives(events) ::
      Stats(|TasksOf(events, live)|, |TasksOf(events, live) * Reviewing(events)|)
  }

  lemma SubsetIsSmaller<T>(a: set<T>, b: set<T>)
    requires a <= b
    ensures |a| <= |b|
  {
    if a != {} {
      var x :| x in a;
      SubsetIsSmaller(a - {x}, b - {x});
    }
  }

  lemma ReviewingWithinAttempts(events: seq<Event>, live: string)
    requires live in Lives(events)
    ensures StatsOf(events)[live].reviewingReached <= StatsOf(events)[live].attempts
    ensures StatsOf(events)[live].attempts > 0
  {
    var tasks := TasksOf(events, live);
    SubsetIsSmaller(tasks * Reviewing(events), tasks);
    var e :| e in events && e.ShadowRoute? && e.live == live;
    assert e.task in tasks;
  }

  /** Neither the order of the events nor repeating them matters. */
  lemma FoldIgnoresOrderAndRepetition(a: seq<Event>, b: seq<Event>)
    requires forall e :: e in a <==> e in b
    ensures StatsOf(a) == StatsOf(b)
  {
    assert Reviewing(a) == Reviewing(b) && Lives(a) == Lives(b);
    forall live ensures TasksOf(a, live) == TasksOf(b, live) {
    }
  }

  /** Events that are neither a route nor a task reaching review leave the fold alone. */
  lemma IrrelevantEvents(events: seq<Event>, more: seq<Event>)
    requires forall e :: e in more ==> e.Other? || (e.TaskState? && e.state != "REVIEWING")
    ensures StatsOf(events + more) == StatsOf(events)
  {
    assert Reviewing(events + more) == Reviewing(events) && Lives(events + more) == Lives(events);
    forall live ensures TasksOf(events + more, live) == TasksOf(events, live) {
    }
  }

  lemma OneMoreReached(seen: set<TaskRef>, reviewing: set<TaskRef>, t: TaskRef)
    requires t !in seen
    ensures |(seen + {t}) * reviewing| == |seen * reviewing| + if t in reviewing then 1 else 0
  {
    assert (seen + {t}) * reviewing == seen * reviewing + if t in reviewing then {t} else {};
  }

  /** Counting the distinct tasks that reached review, one at a time. */
  method CountReached(tasks: set<TaskRef>, reviewing: set<TaskRef>) returns (reached: nat)
    ensures reached == |tasks * reviewing|
  {
    reached := 0;
    var todo, seen: set<TaskRef> := tasks, {};
    while todo != {}
      invariant seen !! todo && seen + todo == tasks
      invariant reached == |seen * reviewing|
      decreases todo
    {
      var t :| t in todo;
      OneMoreReached(seen, reviewing, t);
      if t in reviewing {
        reached := reached + 1;
      }
      todo, seen := todo - {t}, seen + {t};
    }
    assert seen == tasks;
  }

  method ComputeShadowOutcomeStats(events: seq<Event>) returns (stats: StatsMap)
    ensures stats == StatsOf(events)
  {
    var reviewingTasks: set<TaskRef> := {};
    var tasksByAdapter: map<string, set<TaskRef>> := map[];
    for k := 0 to |events|
      invariant reviewingTasks == Reviewing(events[..k])
      invariant tasksByAdapter.Keys == Lives(events[..k])
      invariant forall live :: live in tasksByAdapter ==> tasksByAdapter[live] == TasksOf(events[..k], live)
    {
      var e := events[k];
      assert events[..k + 1] == events[..k] + [e];
      if e.TaskState? && e.state == "REVIEWING" {
        reviewingTasks := reviewingTasks + {e.task};
      } else if e.ShadowRoute? {
        assert e.live !in Lives(events[..k]) ==> TasksOf(events[..k], e.live) == {};
        var tasks := if e.live in tasksByAdapter then tasksByAdapter[e.live] else {};
        tasksByAdapter := tasksByAdapter[e.live := tasks + {e.task}];
      }
    }
    assert events[..|events|] == events;
    stats := map[];
    var todo := tasksByAdapter.Keys;
    while todo != {}
      invariant todo <= tasksByAdapter.Keys && stats.Keys == tasksByAdapter.Keys - todo
      invariant forall live :: live in stats ==>
          stats[live] == Stats(|tasksByAdapter[live]|, |tasksByAdapter[live] * reviewingTasks|)
      decreases todo
    {
      var live :| live in todo;
      var reached := CountReached(tasksByAdapter[live], reviewingTasks);
      stats := stats[live := Stats(|tasksByAdapter[live]|, reached)];
      todo := todo - {live};
    }
  }

  // ---------------------------------------------------------------- the shared round cache

  /** What an append leaves in the log: the event, or an error entry, or nothing. */
  function Entry(e: Event, appends: bool, errorAppends: bool): seq<Event> {
    if appends then [e] else if errorAppends then [Other(e.task, "ERROR")] else []
  }

  class EventLog {
    var events: seq<Event>

    /** An append that can fail; a failed one is replaced by an ERROR entry, which can fail too. */
    method SafeAppend(e: Event, appends: bool, errorAppends: bool)
      modifies this
      ensures events == old(events) + Entry(e, appends, errorAppends)
    {
      if appends {
        events := events + [e];
      } else if errorAppends {
        events := events + [Other(e.task, "ERROR")];
      }
    }
  }

  class RoundStatsCache {
    const log: EventLog
    var cached: Option<StatsMap>

    constructor (log: EventLog)
      ensures this.log == log && cached.None?
    {
      this.log := log;
      cached := None;
    }

    /** What is cached, if anything, is the fold of the log as it stands. */
    ghost predicate Fresh()
      reads this, log
    {
      cached.Some? ==> cached.value == StatsOf(log.events)
    }

    method Get() returns (stats: StatsMap)
      requires Fresh()
      modifies this
      ensures Fresh() && stats == StatsOf(log.events)
    {
      if cached.None? {
        var computed := ComputeShadowOutcomeStats(log.events);
        cached := Some(computed);
      }
      stats := cached.value;
    }

    method Invalidate()
      modifies this
      ensures cached.None?
    {
      cached := None;
    }
  }

  /** Which of a round's appends succeed. */
  datatype Faults = Faults(route: bool, routeError: bool, shadow: bool, shadowError: bool)

  datatype Round = Round(
    task: TaskRef, record: bool, frozen: bool, digest: seq<nat>, epsilonPercent: int, faults: Faults)

  /** The order the outcome wrapper decides, from the statistics it reads. */
  function Decided(inner: seq<Adapter>, stats: StatsMap, frozen: bool, roll: nat, epsilonPercent: int): seq<Adapter> {
    if frozen then inner
    else
      var rated, plain := Rated(inner, stats), Reordered(inner, stats);
      RankedInBounds(inner, stats);
      if |rated| >= 2 && roll < epsilonPercent then plain[rated[0] := plain[rated[1]]][rated[1] := plain[rated[0]]]
      else plain
  }

  predicate Explores(inner: seq<Adapter>, stats: StatsMap, roll: nat, epsilonPercent: int) {
    |Rated(inner, stats)| >= 2 && roll < epsilonPercent
  }

  /** The adapter the reorder puts into the first rated slot, and the one in the second. */
  function RankedAdapter(inner: seq<Adapter>, stats: StatsMap, rank: nat): Adapter
    requires rank < |Rated(inner, stats)|
  {
    RankedInBounds(inner, stats);
    Reordered(inner, stats)[Rated(inner, stats)[rank]]
  }

  /** The exploration swap hides the winner from a recorder that sees a tie. */
  predicate WinnerIsNamed(inner: seq<Adapter>, stats: StatsMap, roll: nat, epsilonPercent: int) {
    Explores(inner, stats, roll, epsilonPercent) ==>
      var winner, runnerUp := RankedAdapter(inner, stats, 0), RankedAdapter(inner, stats, 1);
      RateOf(winner, stats) != RateOf(runnerUp, stats) || BreakerKey(winner) == BreakerKey(runnerUp)
  }

  /**
   Given the order the outcome wrapper decided, the recorder names the adapter in the
   reorder's first rated slot if and only if no exploration swap exchanged it with a tied
   runner-up of another key; after such a swap it names the runner-up.
   */
  lemma RecorderNamesTheWinner(inner: seq<Adapter>, stats: StatsMap, roll: nat, epsilonPercent: int, live: string)
    requires Rated(inner, stats) != []
    ensures var named := ShadowWouldChoose(live, Decided(inner, stats, false, roll, epsilonPercent), stats).wouldChoose;
            && (named == BreakerKey(RankedAdapter(inner, stats, 0)) <==> WinnerIsNamed(inner, stats, roll, epsilonPercent))
            && (!WinnerIsNamed(inner, stats, roll, epsilonPercent) ==> named == BreakerKey(RankedAdapter(inner, stats, 1)))
  {
    var order, plain, rated := Decided(inner, stats, false, roll, epsilonPercent), Reordered(inner, stats), Rated(inner, stats);
    RankedIs(inner, stats);
    RankedInBounds(inner, stats);
    ReorderedRates(inner, stats);
    var first := rated[0];
    assert first in rated && forall i: nat :: IsRated(inner, stats, i) ==> first <= i;
    if !Explores(inner, stats, roll, epsilonPercent) {
      NamesTheBest(plain, stats, live, first);
    } else {
      ExploredNames(inner, stats, order, plain, rated, live);
    }
  }

  lemma ExploredNames(inner: seq<Adapter>, stats: StatsMap, order: seq<Adapter>, plain: seq<Adapter>, rated: seq<nat>, live: string)
    requires |rated| >= 2 && Ascending(rated) && |plain| == |inner|
    requires forall i: nat :: i in rated <==> IsRated(plain, stats, i)
    requires forall i: nat, j: nat :: i < j && IsRated(plain, stats, i) && IsRated(plain, stats, j) ==>
               Rate(plain, stats, i) >= Rate(plain, stats, j)
    requires rated[0] < |plain| && rated[1] < |plain|
    requires order == plain[rated[0] := plain[rated[1]]][rated[1] := plain[rated[0]]]
    ensures ShadowWouldChoose(live, order, stats).wouldChoose ==
            BreakerKey(if RateOf(plain[rated[0]], stats) != RateOf(plain[rated[1]], stats) then plain[rated[0]] else plain[rated[1]])
  {
    var first, second := rated[0], rated[1];
    assert first in rated && second in rated && first < second;
    forall j: nat | IsRated(order, stats, j) && j != first && j != second
      ensures j > second && Rate(order, stats, j) == Rate(plain, stats, j) && IsRated(plain, stats, j)
    {
      assert IsRated(plain, stats, j);
      var k :| 0 <= k < |rated| && rated[k] == j;
      assert k >= 2;
    }
    assert Rate(order, stats, first) == Rate(plain, stats, second) && Rate(order, stats, second) == Rate(plain, stats, first);
    if Rate(plain, stats, first) > Rate(plain, stats, second) {
      NamesTheBest(order, stats, live, second);
    } else {
      NamesTheBest(order, stats, live, first);
    }
  }

  ghost function Roll(r: Round): nat { HexValue(r.digest) % 100 }

  method Explore(inner: seq<Adapter>, stats: StatsMap, r: Round) returns (order: seq<Adapter>)
    ensures order == Decided(inner, stats, false, Roll(r), r.epsilonPercent)
  {
    var plain, reordered, rated := ReorderByOutcome(inner, stats);
    RankedInBounds(inner, stats);
    order := plain;
    var roll := HashPercent(r.digest);
    if reordered && |rated| >= 2 && roll < r.epsilonPercent {
      RankedIs(inner, stats);
      order := SwapWithRatedRunnerUp(plain, rated);
      assert order == plain[rated[0] := plain[rated[1]]][rated[1] := plain[rated[0]]];
    }
  }

  /** What the outcome wrapper leaves in the log: nothing for a peek. */
  function RouteEntry(r: Round): seq<Event> {
    if r.record then Entry(Other(r.task, if r.frozen then "ROUTING_FROZEN" else "OUTCOME_ROUTE"), r.faults.route, r.faults.routeError)
    else []
  }

  /** The wrapper leaves a frozen round as it is, never explores at zero percent, and always at a hundred when there is a runner-up. */
  lemma DecidedIs(inner: seq<Adapter>, stats: StatsMap, roll: nat, epsilonPercent: int)
    requires roll < 100
    ensures Decided(inner, stats, true, roll, epsilonPercent) == inner
    ensures epsilonPercent <= 0 ==> Decided(inner, stats, false, roll, epsilonPercent) == Reordered(inner, stats)
    ensures |Rated(inner, stats)| < 2 ==> Decided(inner, stats, false, roll, epsilonPercent) == Reordered(inner, stats)
    ensures |Rated(inner, stats)| >= 2 && epsilonPercent >= 100 ==>
              var order, rated := Decided(inner, stats, false, roll, epsilonPercent), Rated(inner, stats);
              && rated[0] < rated[1] < |order| == |Reordered(inner, stats)|
              && order[rated[0]] == RankedAdapter(inner, stats, 1) && order[rated[1]] == RankedAdapter(inner, stats, 0)
              && forall i :: 0 <= i < |order| && i != rated[0] && i != rated[1] ==> order[i] == Reordered(inner, stats)[i]
  {
    RankedIs(inner, stats);
    RankedInBounds(inner, stats);
    ReorderedRates(inner, stats);
  }

  /** `wrapRouterForOutcome.eligibleAdapters`, around a router that answers `inner`. */
  method OutcomeEligible(cache: RoundStatsCache, inner: seq<Adapter>, r: Round) returns (order: seq<Adapter>)
    requires cache.Fresh()
    modifies cache, cache.log
    ensures order == Decided(inner, StatsOf(old(cache.log.events)), r.frozen, Roll(r), r.epsilonPercent)
    ensures cache.log.events == old(cache.log.events) + RouteEntry(r) && cache.Fresh()
    ensures StatsOf(cache.log.events) == StatsOf(old(cache.log.events))
  {
    ghost var before := cache.log.events;
    var kind := if r.frozen then "ROUTING_FROZEN" else "OUTCOME_ROUTE";
    if r.frozen {
      order := inner;
    } else {
      var stats := cache.Get();
      order := Explore(inner, stats, r);
    }
    if r.record {
      IrrelevantEvents(before, [Other(r.task, kind)]);
      IrrelevantEvents(before, [Other(r.task, "ERROR")]);
      assert before + [] == before;
      cache.log.SafeAppend(Other(r.task, kind), r.faults.route, r.faults.routeError);
    }
  }

  /**
   One round of the active stack: the shadow recorder outside, the outcome wrapper inside,
   one cache between them. Whatever was cached before, both reads see the fold of the log
   as it stands at that moment, although the inner wrapper appends between them; the
   recorder hands on exactly what the inner wrapper decided; and the adapter it names is the
   one in the reorder's first rated slot exactly when no swap exchanged it in a tie.
   */
  method ActiveEligible(cache: RoundStatsCache, inner: seq<Adapter>, r: Round)
      returns (order: seq<Adapter>, read: Option<StatsMap>, ghost logAtRead: seq<Event>, choice: Option<ShadowChoice>)
    modifies cache, cache.log
    ensures order == Decided(inner, StatsOf(old(cache.log.events)), r.frozen, Roll(r), r.epsilonPercent)
    ensures read.Some? <==> r.record && order != [] && !r.frozen
    ensures logAtRead == old(cache.log.events) + RouteEntry(r)
    ensures cache.log.events == logAtRead +
              if read.Some? then Entry(ShadowRoute(r.task, BreakerKey(order[0])), r.faults.shadow, r.faults.shadowError) else []
    ensures read.Some? ==> read.value == StatsOf(logAtRead)
    ensures choice == if read.Some? && order != [] then Some(ShadowWouldChoose(BreakerKey(order[0]), order, StatsOf(logAtRead))) else None
    ensures var stats := StatsOf(old(cache.log.events));
            choice.Some? && Rated(inner, stats) != [] ==>
              (choice.value.wouldChoose == BreakerKey(RankedAdapter(inner, stats, 0)) <==>
               WinnerIsNamed(inner, stats, Roll(r), r.epsilonPercent))
  {
    ghost var before := StatsOf(cache.log.events);
    cache.Invalidate();
    order := OutcomeEligible(cache, inner, r);
    read, logAtRead, choice := None, cache.log.events, None;
    if r.record && order != [] && !r.frozen {
      var live := BreakerKey(order[0]);
      var stats := cache.Get();
      read, choice := Some(stats), Some(ShadowWouldChoose(live, order, stats));
      if Rated(inner, before) != [] {
        RecorderNamesTheWinner(inner, before, Roll(r), r.epsilonPercent, live);
      }
      cache.log.SafeAppend(ShadowRoute(r.task, live), r.faults.shadow, r.faults.shadowError);
    }
  }
}
