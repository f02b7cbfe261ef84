/**
 Outcome routing: the reorder of the eligible adapters by reviewing-reached rate, the
 exploration swap, the shadow recorder's pick, the fold of the event log that both use,
 and the per-round cache of that fold.
 */
module OutcomeRouting {
  import opened Common
  import opened StableSort

  datatype Adapter = Adapter(adapterId: string, modelVersion: string, stale: bool)

  function BreakerKey(a: Adapter): string { a.adapterId + "@" + a.modelVersion }

  datatype Stats = Stats(attempts: nat, reviewingReached: nat)

  type StatsMap = map<string, Stats>

  function RateOf(a: Adapter, stats: StatsMap): Option<real> {
    var key := BreakerKey(a);
    if key !in stats || stats[key].attempts == 0 then None
    else Some(stats[key].reviewingReached as real / stats[key].attempts as real)
  }

  /** An adapter is rated when something is known of it, and rates compare as fractions do, without dividing. */
  lemma RatesAreFractions(a: Adapter, b: Adapter, stats: StatsMap)
    ensures RateOf(a, stats).Some? <==> BreakerKey(a) in stats && stats[BreakerKey(a)].attempts > 0
    ensures RateOf(a, stats).Some? && RateOf(b, stats).Some? ==>
              var s, t := stats[BreakerKey(a)], stats[BreakerKey(b)];
              RateOf(a, stats).value > RateOf(b, stats).value <==> s.reviewingReached * t.attempts > t.reviewingReached * s.attempts
  {
    if RateOf(a, stats).Some? && RateOf(b, stats).Some? {
      var s, t := stats[BreakerKey(a)], stats[BreakerKey(b)];
      FractionsCompare(s.reviewingReached, s.attempts, t.reviewingReached, t.attempts);
    }
  }

  lemma FractionsCompare(x: nat, m: nat, y: nat, n: nat)
    requires m > 0 && n > 0
    ensures x as real / m as real > y as real / n as real <==> x * n > y * m
  {
    var p, q := x as real / m as real, y as real / n as real;
    var mn := m as real * n as real;
    assert mn > 0.0;
    assert p * m as real == x as real && q * n as real == y as real;
    assert p * mn == x as real * n as real && q * mn == y as real * m as real;
    assert (x * n) as real == x as real * n as real && (y * m) as real == y as real * m as real;
    if p > q {
      ScaledUpStrictly(q, p, mn);
    } else {
      ScaledUp(p, q, mn);
    }
  }

  /** Adapters whose ids hold no '@' share a key only when they are the same version of the same adapter. */
  lemma KeysTellApart(a: Adapter, b: Adapter)
    requires '@' !in a.adapterId && '@' !in b.adapterId
    ensures BreakerKey(a) == BreakerKey(b) <==> a.adapterId == b.adapterId && a.modelVersion == b.modelVersion
  {
    var k, l := BreakerKey(a), BreakerKey(b);
    var m, n := |a.adapterId|, |b.adapterId|;
    assert k[m] == '@' && l[n] == '@';
    assert forall i :: 0 <= i < m ==> k[i] == a.adapterId[i] && k[i] in a.adapterId;
    assert forall i :: 0 <= i < n ==> l[i] == b.adapterId[i] && l[i] in b.adapterId;
    assert k[..m] == a.adapterId && k[m + 1..] == a.modelVersion;
    assert l[..n] == b.adapterId && l[n + 1..] == b.modelVersion;
  }

  predicate IsRated(e: seq<Adapter>, stats: StatsMap, i: nat) { i < |e| && RateOf(e[i], stats).Some? }

  function Rate(e: seq<Adapter>, stats: StatsMap, i: nat): real {
    if IsRated(e, stats, i) then RateOf(e[i], stats).value else 0.0
  }

  /** The rated slots among the first `n`, in order. */
  function RatedUpTo(e: seq<Adapter>, stats: StatsMap, n: nat): seq<nat>
    requires n <= |e|
  {
    if n == 0 then []
    else RatedUpTo(e, stats, n - 1) + if IsRated(e, stats, n - 1) then [n - 1] else []
  }

  function Rated(e: seq<Adapter>, stats: StatsMap): seq<nat> { RatedUpTo(e, stats, |e|) }

  function Higher(e: seq<Adapter>, stats: StatsMap): (nat, nat) -> bool {
    (i: nat, j: nat) => Rate(e, stats, i) > Rate(e, stats, j)
  }

  function Ranked(e: seq<Adapter>, stats: StatsMap): seq<nat> { Sort(Rated(e, stats), Higher(e, stats)) }

  /** The first `k` rated slots given their winners. */
  function Placed(order: seq<Adapter>, e: seq<Adapter>, rated: seq<nat>, ranked: seq<nat>, k: nat): seq<Adapter>
    requires k <= |rated| && k <= |ranked| && |order| == |e|
    requires forall i :: 0 <= i < k ==> rated[i] < |e| && ranked[i] < |e|
    ensures |Placed(order, e, rated, ranked, k)| == |e|
  {
    if k == 0 then order else Placed(order, e, rated, ranked, k - 1)[rated[k - 1] := e[ranked[k - 1]]]
  }

  // ---------------------------------------------------------------- what the order is

  /** Higher rate first; equal rates in original order. */
  ghost predicate Better(e: seq<Adapter>, stats: StatsMap, i: nat, j: nat) {
    Rate(e, stats, i) > Rate(e, stats, j) || (Rate(e, stats, i) == Rate(e, stats, j) && i < j)
  }

  /** `from[i]` is where the adapter that ends in slot `i` came from. */
  ghost predicate OutcomeOrder(e: seq<Adapter>, stats: StatsMap, from: seq<nat>) {
    && |from| == |e|
    && (forall i :: 0 <= i < |e| ==> from[i] < |e|)
    && (forall i, j :: 0 <= i < j < |e| ==> from[i] != from[j])
    && (forall i :: 0 <= i < |e| && !IsRated(e, stats, i) ==> from[i] == i)
    && (forall i, j :: 0 <= i < j < |e| && IsRated(e, stats, i) && IsRated(e, stats, j) ==> Better(e, stats, from[i], from[j]))
  }

  lemma {:induction false} RatedIs(e: seq<Adapter>, stats: StatsMap, n: nat)
    requires n <= |e|
    ensures var r := RatedUpTo(e, stats, n);
            && (forall i: nat :: i in r <==> i < n && IsRated(e, stats, i))
            && (forall j, k :: 0 <= j < k < |r| ==> r[j] < r[k])
  {
    if n == 0 {
    } else {
      RatedIs(e, stats, n - 1);
      var before := RatedUpTo(e, stats, n - 1);
      assert forall j :: 0 <= j < |before| ==> before[j] in before;
    }
  }

  ghost predicate Ascending(s: seq<nat>) { forall j, k :: 0 <= j < k < |s| ==> s[j] < s[k] }

  ghost predicate BestFirst(e: seq<Adapter>, stats: StatsMap, s: seq<nat>) {
    forall j, k :: 0 <= j < k < |s| ==> Better(e, stats, s[j], s[k])
  }

  lemma {:induction false} InsertKeepsBestFirst(e: seq<Adapter>, stats: StatsMap, x: nat, s: seq<nat>)
    requires BestFirst(e, stats, s) && forall y :: y in s ==> x < y
    ensures BestFirst(e, stats, Insert(x, s, Higher(e, stats)))
  {
    if s == [] {
    } else {
      assert s[0] in s;
      if Higher(e, stats)(s[0], x) {
        var rest := Insert(x, s[1..], Higher(e, stats));
        assert forall y :: y in s[1..] ==> y in s;
        InsertKeepsBestFirst(e, stats, x, s[1..]);
        InsertKeepsElements(x, s[1..], Higher(e, stats));
        forall k | 0 <= k < |rest| ensures Better(e, stats, s[0], rest[k]) {
          assert rest[k] in multiset(rest);
          assert rest[k] == x || rest[k] in s[1..];
        }
      }
    }
  }

  lemma {:induction false} SortIsBestFirst(e: seq<Adapter>, stats: StatsMap, s: seq<nat>)
    requires Ascending(s)
    ensures BestFirst(e, stats, Sort(s, Higher(e, stats)))
  {
    if s == [] {
    } else {
      SortIsBestFirst(e, stats, s[1..]);
      SortIsPermutation(s[1..], Higher(e, stats));
      InsertKeepsBestFirst(e, stats, s[0], Sort(s[1..], Higher(e, stats)));
    }
  }

  lemma RankedIs(e: seq<Adapter>, stats: StatsMap)
    ensures var rated, ranked := Rated(e, stats), Ranked(e, stats);
            && |ranked| == |rated| && Ascending(rated) && BestFirst(e, stats, ranked)
            && (forall i: nat :: i in rated <==> IsRated(e, stats, i))
            && (forall i: nat :: i in ranked <==> IsRated(e, stats, i))
  {
    RatedIs(e, stats, |e|);
    SortIsPermutation(Rated(e, stats), Higher(e, stats));
    SortIsBestFirst(e, stats, Rated(e, stats));
  }

  lemma {:induction false} PlacedIs(order: seq<Adapter>, e: seq<Adapter>, rated: seq<nat>, ranked: seq<nat>, k: nat)
    requires k <= |rated| && k <= |ranked| && |order| == |e| && Ascending(rated)
    requires forall i :: 0 <= i < k ==> rated[i] < |e| && ranked[i] < |e|
    ensures var p := Placed(order, e, rated, ranked, k);
            && (forall i :: 0 <= i < k ==> p[rated[i]] == e[ranked[i]])
            && (forall i :: 0 <= i < |e| && i !in rated[..k] ==> p[i] == order[i])
  {
    if k == 0 {
    } else {
      PlacedIs(order, e, rated, ranked, k - 1);
      assert rated[..k] == rated[..k - 1] + [rated[k - 1]];
    }
  }

  /** The reordered list. */
  function Reordered(e: seq<Adapter>, stats: StatsMap): seq<Adapter> {
    RankedIs(e, stats);
    assert forall i :: 0 <= i < |Rated(e, stats)| ==> Rated(e, stats)[i] in Rated(e, stats);
    assert forall i :: 0 <= i < |Ranked(e, stats)| ==> Ranked(e, stats)[i] in Ranked(e, stats);
    Placed(e, e, Rated(e, stats), Ranked(e, stats), |Rated(e, stats)|)
  }

  /** Where slot `i` is filled from. */
  ghost function Source(e: seq<Adapter>, stats: StatsMap, i: nat): nat
    requires i < |e|
  {
    RankedIs(e, stats);
    if IsRated(e, stats, i) then
      var r :| 0 <= r < |Rated(e, stats)| && Rated(e, stats)[r] == i;
      Ranked(e, stats)[r]
    else i
  }

  ghost function Sources(e: seq<Adapter>, stats: StatsMap): seq<nat> {
    seq(|e|, i requires 0 <= i < |e| => Source(e, stats, i))
  }

  lemma SourceRank(e: seq<Adapter>, stats: StatsMap, i: nat) returns (r: nat)
    requires IsRated(e, stats, i)
    ensures r < |Rated(e, stats)| == |Ranked(e, stats)| && Rated(e, stats)[r] == i
    ensures Source(e, stats, i) == Ranked(e, stats)[r] && IsRated(e, stats, Source(e, stats, i))
  {
    RankedIs(e, stats);
    var q :| 0 <= q < |Rated(e, stats)| && Rated(e, stats)[q] == i && Source(e, stats, i) == Ranked(e, stats)[q];
    r := q;
    assert Ranked(e, stats)[r] in Ranked(e, stats);
  }

  lemma SourcesDiffer(e: seq<Adapter>, stats: StatsMap, i: nat, j: nat)
    requires i < j < |e|
    ensures Source(e, stats, i) != Source(e, stats, j)
    ensures IsRated(e, stats, i) && IsRated(e, stats, j) ==> Better(e, stats, Source(e, stats, i), Source(e, stats, j))
  {
    RankedIs(e, stats);
    if IsRated(e, stats, i) {
      var q := SourceRank(e, stats, i);
      if IsRated(e, stats, j) {
        var r := SourceRank(e, stats, j);
        assert q < r;
      }
    } else if IsRated(e, stats, j) {
      var r := SourceRank(e, stats, j);
    }
  }

  lemma SlotFilled(e: seq<Adapter>, stats: StatsMap, i: nat)
    requires i < |e|
    ensures Source(e, stats, i) < |e| && |Reordered(e, stats)| == |e|
    ensures Reordered(e, stats)[i] == e[Source(e, stats, i)]
    ensures !IsRated(e, stats, i) ==> Source(e, stats, i) == i
  {
    RankedIs(e, stats);
    var rated, ranked := Rated(e, stats), Ranked(e, stats);
    assert forall k :: 0 <= k < |rated| ==> rated[k] in rated && ranked[k] in ranked;
    PlacedIs(e, e, rated, ranked, |rated|);
    assert rated[..|rated|] == rated;
    if IsRated(e, stats, i) {
      var r := SourceRank(e, stats, i);
    }
  }

  /** The reorder is an outcome order of the eligible list ... */
  lemma ReorderIsOutcomeOrder(e: seq<Adapter>, stats: StatsMap)
    ensures OutcomeOrder(e, stats, Sources(e, stats))
    ensures |Reordered(e, stats)| == |e|
    ensures forall i :: 0 <= i < |e| ==> Reordered(e, stats)[i] == e[Sources(e, stats)[i]]
  {
    var from := Sources(e, stats);
    forall i: nat | i < |e|
      ensures from[i] < |e| && Reordered(e, stats)[i] == e[from[i]] && (!IsRated(e, stats, i) ==> from[i] == i)
    {
      SlotFilled(e, stats, i);
    }
    forall i: nat, j: nat | i < j < |e|
      ensures from[i] != from[j]
      ensures IsRated(e, stats, i) && IsRated(e, stats, j) ==> Better(e, stats, from[i], from[j])
    {
      SourcesDiffer(e, stats, i, j);
    }
  }

  function Pick(from: seq<nat>, slots: seq<nat>): seq<nat>
    requires forall s :: s in slots ==> s < |from|
  {
    seq(|slots|, k requires 0 <= k < |slots| => assert slots[k] in slots; from[slots[k]])
  }

  lemma PickedIsRated(e: seq<Adapter>, stats: StatsMap, from: seq<nat>)
    requires OutcomeOrder(e, stats, from)
    ensures forall s :: s in Rated(e, stats) ==> s < |from|
    ensures BestFirst(e, stats, Pick(from, Rated(e, stats)))
    ensures forall i: nat :: i in Pick(from, Rated(e, stats)) ==> IsRated(e, stats, i)
  {
    RankedIs(e, stats);
    var rated := Rated(e, stats);
    var picked := Pick(from, rated);
    forall k | 0 <= k < |rated| ensures rated[k] in rated && IsRated(e, stats, picked[k]) {
      assert rated[k] in rated;
      assert picked[k] == from[rated[k]];
      assert picked[k] < |e| && from[rated[k]] == picked[k];
    }
    forall j, k | 0 <= j < k < |picked| ensures Better(e, stats, picked[j], picked[k]) {
      assert rated[j] < rated[k];
    }
  }

  /** An injective list of as many elements as there are holds them all. */
  lemma {:induction false} InjectiveFills(s: seq<nat>, all: set<nat>)
    requires Distinct(s)
    requires (forall x :: x in s ==> x in all) && |all| <= |s|
    ensures forall x :: x in all ==> x in s
  {
    if s == [] {
    } else {
      var rest := s[1..];
      assert s[0] in s && forall i :: 0 <= i < |rest| ==> rest[i] == s[i + 1];
      InjectiveFills(rest, all - {s[0]});
      assert s == [s[0]] + rest;
    }
  }

  ghost function Elements(s: seq<nat>): set<nat> { set x | x in s }

  lemma {:induction false} DistinctSize(s: seq<nat>)
    requires Distinct(s)
    ensures |Elements(s)| == |s|
  {
    if s == [] {
    } else {
      var rest := s[1..];
      assert forall i :: 0 <= i < |rest| ==> rest[i] == s[i + 1];
      DistinctSize(rest);
      assert s == [s[0]] + rest;
      assert Elements(s) == {s[0]} + Elements(rest);
    }
  }

  /** ... and the only one. */
  lemma OutcomeOrderIsUnique(e: seq<Adapter>, stats: StatsMap, from: seq<nat>)
    requires OutcomeOrder(e, stats, from)
    ensures from == Sources(e, stats)
  {
    RankedIs(e, stats);
    ReorderIsOutcomeOrder(e, stats);
    PickedIsRated(e, stats, from);
    PickedIsRated(e, stats, Sources(e, stats));
    PickedIsAll(e, stats, from);
    PickedIsAll(e, stats, Sources(e, stats));
    var rated := Rated(e, stats);
    StrictOrderIsUnique(Pick(from, rated), Pick(Sources(e, stats), rated), (i: nat, j: nat) => Better(e, stats, i, j));
    forall i | 0 <= i < |e| ensures from[i] == Sources(e, stats)[i] {
      if IsRated(e, stats, i) {
        var k :| 0 <= k < |rated| && rated[k] == i;
        assert Pick(from, rated)[k] == Pick(Sources(e, stats), rated)[k];
      }
    }
  }

  lemma PickedIsAll(e: seq<Adapter>, stats: StatsMap, from: seq<nat>)
    requires OutcomeOrder(e, stats, from)
    ensures forall s :: s in Rated(e, stats) ==> s < |from|
    ensures forall i: nat :: i in Pick(from, Rated(e, stats)) <==> IsRated(e, stats, i)
  {
    RankedIs(e, stats);
    PickedIsRated(e, stats, from);
    var rated := Rated(e, stats);
    DistinctSize(rated);
    var picked := Pick(from, rated);
    forall j, k | 0 <= j < k < |picked| ensures picked[j] != picked[k] {
      assert rated[j] in rated && rated[k] in rated && rated[j] < rated[k];
    }
    assert forall x :: x in picked ==> x in Elements(rated);
    InjectiveFills(picked, Elements(rated));
    assert forall i: nat :: IsRated(e, stats, i) ==> i in Elements(rated);
  }

  /** Along the rated slots of the reordered list the success rates never rise, and nobody is lost on the way there. */
  lemma BetterRatesFirst(e: seq<Adapter>, stats: StatsMap, i: nat, j: nat)
    requires i < j && IsRated(e, stats, i) && IsRated(e, stats, j)
    ensures |Reordered(e, stats)| == |e| && Reordered(e, stats)[i] in e
    ensures var a, b := BreakerKey(Reordered(e, stats)[i]), BreakerKey(Reordered(e, stats)[j]);
            && a in stats && b in stats
            && stats[a].reviewingReached * stats[b].attempts >= stats[b].reviewingReached * stats[a].attempts
  {
    ReorderIsOutcomeOrder(e, stats);
    ReorderedRates(e, stats);
    RatesAreFractions(Reordered(e, stats)[j], Reordered(e, stats)[i], stats);
    hide Reordered, Sources;
  }

  /** The reorder as the source writes it: a copy, and the winners written into the rated slots. */
  method ReorderByOutcome(eligible: seq<Adapter>, stats: StatsMap)
      returns (order: seq<Adapter>, reordered: bool, rated: seq<nat>)
    ensures order == Reordered(eligible, stats) && rated == Rated(eligible, stats)
    ensures reordered <==> rated != []
  {
    rated := [];
    for i := 0 to |eligible|
      invariant rated == RatedUpTo(eligible, stats, i)
    {
      if RateOf(eligible[i], stats).Some? {
        rated := rated + [i];
      }
    }
    if |rated| == 0 {
      return eligible, false, [];
    }
    var sorted := Sort(rated, Higher(eligible, stats));
    RankedInBounds(eligible, stats);
    order := WriteWinners(eligible, rated, sorted);
    reordered := true;
  }

  lemma RankedInBounds(e: seq<Adapter>, stats: StatsMap)
    ensures |Rated(e, stats)| == |Ranked(e, stats)|
    ensures forall i :: 0 <= i < |Rated(e, stats)| ==> Rated(e, stats)[i] < |e| && Ranked(e, stats)[i] < |e|
  {
    RankedIs(e, stats);
    assert forall i :: 0 <= i < |Rated(e, stats)| ==> Rated(e, stats)[i] in Rated(e, stats);
    assert forall i :: 0 <= i < |Ranked(e, stats)| ==> Ranked(e, stats)[i] in Ranked(e, stats);
  }

  method WriteWinners(eligible: seq<Adapter>, rated: seq<nat>, sorted: seq<nat>) returns (order: seq<Adapter>)
    requires |rated| == |sorted| && forall i :: 0 <= i < |rated| ==> rated[i] < |eligible| && sorted[i] < |eligible|
    ensures order == Placed(eligible, eligible, rated, sorted, |rated|)
  {
    order := eligible;
    for idx := 0 to |rated|
      invariant order == Placed(eligible, eligible, rated, sorted, idx)
    {
      order := order[rated[idx] := eligible[sorted[idx]]];
    }
  }

  // ---------------------------------------------------------------- the exploration swap

  /** Only the adapters of rank 0 and rank 1 change places; without a second rated one, nothing does. */
  method SwapWithRatedRunnerUp(order: seq<Adapter>, rated: seq<nat>) returns (out: seq<Adapter>)
    requires Ascending(rated) && forall s :: s in rated ==> s < |order|
    ensures |out| == |order|
    ensures |rated| < 2 ==> out == order
    ensures |rated| >= 2 ==>
              && rated[0] in rated && rated[1] in rated
              && out[rated[0]] == order[rated[1]] && out[rated[1]] == order[rated[0]]
              && forall i :: 0 <= i < |order| && i != rated[0] && i != rated[1] ==> out[i] == order[i]
  {
    if |rated| < 2 { return order; }
    assert rated[0] in rated && rated[1] in rated;
    var winner, runnerUp := order[rated[0]], order[rated[1]];
    out := order[rated[0] := runnerUp];
    out := out[rated[1] := winner];
  }

  // ---------------------------------------------------------------- the shadow pick

  /** `reduce` over the rated entries: a later one wins only with a strictly higher rate. */
  function BestOf(e: seq<Adapter>, stats: StatsMap, rated: seq<nat>): nat
    requires rated != []
  {
    if |rated| == 1 then rated[0]
    else
      var a := BestOf(e, stats, Front(rated));
      if Rate(e, stats, Last(rated)) > Rate(e, stats, a) then Last(rated) else a
  }

  datatype ShadowChoice = ShadowChoice(wouldChoose: string, basis: string)

  function ShadowWouldChoose(liveChoice: string, e: seq<Adapter>, stats: StatsMap): ShadowChoice {
    var rated := Rated(e, stats);
    if rated == [] then ShadowChoice(liveChoice, "insufficient_data")
    else
      BestIsMember(e, stats, rated);
      RankedIs(e, stats);
      ShadowChoice(BreakerKey(e[BestOf(e, stats, rated)]), "highest_reviewing_rate")
  }

  lemma {:induction false} BestIsMember(e: seq<Adapter>, stats: StatsMap, rated: seq<nat>)
    requires rated != []
    ensures BestOf(e, stats, rated) in rated
  {
    if |rated| > 1 {
      BestIsMember(e, stats, Front(rated));
    }
  }

  lemma {:induction false} BestBeatsAll(e: seq<Adapter>, stats: StatsMap, rated: seq<nat>)
    requires rated != [] && Ascending(rated)
    ensures forall r :: r in rated && r != BestOf(e, stats, rated) ==> Better(e, stats, BestOf(e, stats, rated), r)
  {
    if |rated| > 1 {
      BestBeatsAll(e, stats, Front(rated));
      BestIsMember(e, stats, Front(rated));
      assert rated == Front(rated) + [Last(rated)];
    }
  }

  /** The recorder names exactly the adapter the reorder puts into the first rated slot. */
  lemma ShadowNamesTheWinner(e: seq<Adapter>, stats: StatsMap, live: string)
    ensures var rated := Rated(e, stats);
            if rated == [] then ShadowWouldChoose(live, e, stats) == ShadowChoice(live, "insufficient_data")
            else rated[0] < |Reordered(e, stats)|
                 && ShadowWouldChoose(live, e, stats)
                    == ShadowChoice(BreakerKey(Reordered(e, stats)[rated[0]]), "highest_reviewing_rate")
  {
    RankedIs(e, stats);
    var rated, ranked := Rated(e, stats), Ranked(e, stats);
    if rated != [] {
      assert rated[0] in rated && ranked[0] in ranked;
      BestIsMember(e, stats, rated);
      BestBeatsAll(e, stats, rated);
      var best := BestOf(e, stats, rated);
      var k :| 0 <= k < |ranked| && ranked[k] == best;
      assert k > 0 ==> Better(e, stats, ranked[0], best);
      assert best == ranked[0];
      SlotFilled(e, stats, rated[0]);
      var r := SourceRank(e, stats, rated[0]);
      assert r == 0;
    }
  }

  /** An entry better than every other rated one is the one the recorder names. */
  lemma NamesTheBest(e: seq<Adapter>, stats: StatsMap, live: string, i: nat)
    requires IsRated(e, stats, i) && forall j: nat :: IsRated(e, stats, j) && j != i ==> Better(e, stats, i, j)
    ensures ShadowWouldChoose(live, e, stats).wouldChoose == BreakerKey(e[i])
  {
    RankedIs(e, stats);
    var rated := Rated(e, stats);
    assert i in rated;
    BestIsMember(e, stats, rated);
    BestBeatsAll(e, stats, rated);
    assert BestOf(e, stats, rated) == i;
  }

  /** The reorder keeps the rated slots, and its rates never rise along them. */
  lemma ReorderedRates(e: seq<Adapter>, stats: StatsMap)
    ensures var plain := Reordered(e, stats);
            && |plain| == |e|
            && (forall i: nat :: IsRated(plain, stats, i) <==> IsRated(e, stats, i))
            && (forall i: nat, j: nat :: i < j && IsRated(plain, stats, i) && IsRated(plain, stats, j) ==>
                  Rate(plain, stats, i) >= Rate(plain, stats, j))
  {
    ReorderIsOutcomeOrder(e, stats);
    var plain, from := Reordered(e, stats), Sources(e, stats);
    forall i: nat | i < |e|
      ensures (IsRated(plain, stats, i) <==> IsRated(e, stats, i)) && Rate(plain, stats, i) == Rate(e, stats, from[i])
    {
      if IsRated(e, stats, i) {
        var r := SourceRank(e, stats, i);
      }
    }
    hide Reordered, Sources;
  }

  // ---------------------------------------------------------------- the deterministic roll

  function HexValue(digits: seq<nat>): nat { if digits == [] then 0 else HexValue(Front(digits)) * 16 + Last(digits) }

  lemma KeepsRemainder(x: nat, digit: nat)
    ensures (x % 100 * 16 + digit) % 100 == (x * 16 + digit) % 100
  {
    var q, r := x / 100, x % 100;
    assert x * 16 + digit == 100 * (16 * q) + (r * 16 + digit);
    RemainderOfSum(16 * q, r * 16 + digit);
  }

  lemma {:induction false} RemainderOfSum(q: nat, y: nat)
    ensures (100 * q + y) % 100 == y % 100
  {
    if q == 0 {
    } else {
      RemainderOfSum(q - 1, y);
      assert 100 * q + y == 100 * (q - 1) + y + 100;
    }
  }

  /** The running remainder of the digest's digits is the remainder of the whole digest. */
  method HashPercent(hex: seq<nat>) returns (acc: nat)
    ensures acc == HexValue(hex) % 100
  {
    acc := 0;
    for k := 0 to |hex|
      invariant acc == HexValue(hex[..k]) % 100
    {
      assert Front(hex[..k + 1]) == hex[..k];
      KeepsRemainder(HexValue(hex[..k]), hex[k]);
      acc := (acc * 16 + hex[k]) % 100;
    }
    assert hex[..|hex|] == hex;
  }
}
