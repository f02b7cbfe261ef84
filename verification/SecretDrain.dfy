/**
 Which requested paths ride in the next context build, and draining the ones whose content
 trips the secret scanner. Normalising a path is a parameter; the scanner and the build are
 an oracle asked once an attempt.
 */
module SecretDrain {
  import opened Common

  const MAX_ACCUMULATED_PATHS := 20

  type Path = string

  datatype Build = Built | SecretIn(file: Path) | Threw

  /** A build: its attempt number and seed paths decide what it finds. */
  type Oracle = (nat, seq<Path>) -> Build

  datatype Cause = NotAccumulated | LiteralSeed | BudgetSpent

  datatype End = Success | Blocked(file: Path, cause: Cause) | Rethrown

  function Outside(p: Option<Path>, seen: seq<Path>, evicted: set<Path>): seq<Path> {
    if p.None? || p.value in seen || p.value in evicted then [] else [p.value]
  }

  /** The requested paths, normalised, each once, without the evicted ones. */
  function Fresh(requested: seq<Path>, evicted: set<Path>, norm: Path -> Option<Path>): seq<Path> {
    if requested == [] then []
    else
      var before := Fresh(Front(requested), evicted, norm);
      before + Outside(norm(Last(requested)), before, evicted)
  }

  function Accumulated(requested: seq<Path>, evicted: set<Path>, norm: Path -> Option<Path>): seq<Path> {
    LastN(Fresh(requested, evicted, norm), MAX_ACCUMULATED_PATHS)
  }

  method AccumulatedSeedPaths(requested: seq<Path>, evicted: set<Path>, norm: Path -> Option<Path>) returns (paths: seq<Path>)
    ensures paths == Accumulated(requested, evicted, norm)
  {
    paths := [];
    for i := 0 to |requested|
      invariant paths == Fresh(requested[..i], evicted, norm)
    {
      assert Front(requested[..i + 1]) == requested[..i];
      var p := norm(requested[i]);
      if p.Some? && p.value !in paths && p.value !in evicted {
        paths := paths + [p.value];
      }
    }
    assert requested[..|requested|] == requested;
    if |paths| > MAX_ACCUMULATED_PATHS {
      paths := paths[|paths| - MAX_ACCUMULATED_PATHS..];
    }
  }

  // ---------------------------------------------------------------- evicting one path

  function Without(s: seq<Path>, p: Path): seq<Path> {
    if s == [] then [] else Without(Front(s), p) + if Last(s) == p then [] else [Last(s)]
  }

  lemma {:induction false} FreshIs(requested: seq<Path>, evicted: set<Path>, norm: Path -> Option<Path>)
    ensures var live := Fresh(requested, evicted, norm);
            && Distinct(live)
            && (forall p :: p in live <==> p !in evicted && exists r :: r in requested && norm(r) == Some(p))
  {
    if requested == [] {
    } else {
      FreshIs(Front(requested), evicted, norm);
      assert forall r :: r in requested <==> r in Front(requested) || r == Last(requested);
    }
  }

  /** Some request for `p` comes before every request for `q`. */
  ghost predicate AskedBefore(requested: seq<Path>, norm: Path -> Option<Path>, p: Path, q: Path) {
    exists k :: 0 <= k < |requested| && norm(requested[k]) == Some(p) && forall j :: 0 <= j <= k ==> norm(requested[j]) != Some(q)
  }

  lemma AskedStays(requested: seq<Path>, norm: Path -> Option<Path>, p: Path, q: Path)
    requires requested != [] && AskedBefore(Front(requested), norm, p, q)
    ensures AskedBefore(requested, norm, p, q)
  {
    var front := Front(requested);
    var k :| 0 <= k < |front| && norm(front[k]) == Some(p) && forall l :: 0 <= l <= k ==> norm(front[l]) != Some(q);
    assert norm(requested[k]) == Some(p);
  }

  lemma AskedFirst(requested: seq<Path>, norm: Path -> Option<Path>, p: Path, q: Path)
    requires requested != [] && (exists r :: r in Front(requested) && norm(r) == Some(p))
    requires forall r :: r in Front(requested) ==> norm(r) != Some(q)
    ensures AskedBefore(requested, norm, p, q)
  {
    var front := Front(requested);
    var r :| r in front && norm(r) == Some(p);
    var k :| 0 <= k < |front| && front[k] == r;
    assert norm(requested[k]) == Some(p);
    assert forall l :: 0 <= l <= k ==> requested[l] == front[l] && front[l] in front;
  }

  /** The fresh paths stand in the order in which they were first asked for. */
  lemma {:induction false} FreshInOrder(requested: seq<Path>, evicted: set<Path>, norm: Path -> Option<Path>)
    ensures var live := Fresh(requested, evicted, norm);
            forall i, j :: 0 <= i < j < |live| ==> AskedBefore(requested, norm, live[i], live[j])
  {
    if requested == [] {
    } else {
      var front := Front(requested);
      FreshInOrder(front, evicted, norm);
      FreshIs(front, evicted, norm);
      var before, live := Fresh(front, evicted, norm), Fresh(requested, evicted, norm);
      assert live == before + Outside(norm(Last(requested)), before, evicted);
      hide Fresh, AskedBefore;
      forall i, j | 0 <= i < j < |live| ensures AskedBefore(requested, norm, live[i], live[j]) {
        if j < |before| {
          assert AskedBefore(front, norm, before[i], before[j]);
          AskedStays(requested, norm, live[i], live[j]);
        } else {
          assert before[i] in before && live[j] !in before;
          AskedFirst(requested, norm, live[i], live[j]);
        }
      }
    }
  }

  lemma {:induction false} WithoutIs(s: seq<Path>, p: Path)
    requires Distinct(s)
    ensures Distinct(Without(s, p)) && |Without(s, p)| == |s| - if p in s then 1 else 0
    ensures forall q :: q in Without(s, p) <==> q in s && q != p
  {
    if s == [] {
    } else {
      WithoutIs(Front(s), p);
      assert forall q :: q in s <==> q in Front(s) || q == Last(s);
      assert Last(s) !in Front(s);
    }
  }

  lemma WithoutLast(s: seq<Path>, x: Path, p: Path)
    ensures Without(s + [x], p) == if x == p then Without(s, p) else Without(s, p) + [x]
  {
    assert Front(s + [x]) == s;
    assert Without(s, p) + [] == Without(s, p);
  }

  /** Evicting a path takes it out of the fresh paths and changes nothing else. */
  lemma {:induction false} EvictOne(requested: seq<Path>, evicted: set<Path>, norm: Path -> Option<Path>, p: Path)
    ensures Fresh(requested, evicted + {p}, norm) == Without(Fresh(requested, evicted, norm), p)
  {
    if requested == [] {
    } else {
      EvictOne(Front(requested), evicted, norm, p);
      FreshIs(Front(requested), evicted, norm);
      OutsideOne(Fresh(Front(requested), evicted, norm), norm(Last(requested)), evicted, p);
    }
  }

  lemma OutsideOne(before: seq<Path>, q: Option<Path>, evicted: set<Path>, p: Path)
    requires Distinct(before)
    ensures Without(before, p) + Outside(q, Without(before, p), evicted + {p})
         == Without(before + Outside(q, before, evicted), p)
  {
    hide Without;
    WithoutIs(before, p);
    if q.Some? {
      WithoutLast(before, q.value, p);
    }
    assert before + [] == before;
  }

  // ---------------------------------------------------------------- the drain, on what is left to evict

  datatype Outcome = Outcome(end: End, evicted: seq<Path>)

  /** Why a path the scanner blames cannot be evicted, in the order the conditions are tried. */
  function Refusal(file: Path, seeds: seq<Path>, live: seq<Path>, left: nat): Option<Cause> {
    if file !in LastN(live, MAX_ACCUMULATED_PATHS) then Some(NotAccumulated)
    else if file in seeds then Some(LiteralSeed)
    else if left == 0 then Some(BudgetSpent)
    else None
  }

  function DrainFrom(build: Oracle, seeds: seq<Path>, live: seq<Path>, attempt: nat, left: nat): Outcome
    decreases left
  {
    match build(attempt, seeds + LastN(live, MAX_ACCUMULATED_PATHS))
    case Built => Outcome(Success, [])
    case Threw => Outcome(Rethrown, [])
    case SecretIn(file) =>
      var refusal := Refusal(file, seeds, live, left);
      if refusal.Some? then Outcome(Blocked(file, refusal.value), [])
      else
        var rest := DrainFrom(build, seeds, Without(live, file), attempt + 1, left - 1);
        Outcome(rest.end, [file] + rest.evicted)
  }

  /** The loop's step: one eviction, and the drain goes on with one path fewer. */
  lemma DrainStep(build: Oracle, seeds: seq<Path>, live: seq<Path>, attempt: nat, left: nat, done: seq<Path>)
    ensures var b := build(attempt, seeds + LastN(live, MAX_ACCUMULATED_PATHS));
            var now := DrainFrom(build, seeds, live, attempt, left);
            if b.SecretIn? && Refusal(b.file, seeds, live, left).None? then
              var next := DrainFrom(build, seeds, Without(live, b.file), attempt + 1, left - 1);
              done + now.evicted == done + [b.file] + next.evicted && now.end == next.end
            else
              && now.evicted == [] && done + now.evicted == done
              && now.end == (if b.Built? then Success else if b.Threw? then Rethrown
                             else Blocked(b.file, Refusal(b.file, seeds, live, left).value))
  {
    hide Without, Refusal;
  }

  function WithoutAll(live: seq<Path>, gone: seq<Path>): seq<Path>
    decreases |gone|
  {
    if gone == [] then live else WithoutAll(Without(live, gone[0]), gone[1..])
  }

  /** What the build of an attempt finds, once `gone` has been evicted. */
  function BuildAfter(build: Oracle, seeds: seq<Path>, live: seq<Path>, attempt: nat, gone: seq<Path>): Build {
    build(attempt + |gone|, seeds + LastN(WithoutAll(live, gone), MAX_ACCUMULATED_PATHS))
  }

  lemma BuildAfterFirst(build: Oracle, seeds: seq<Path>, live: seq<Path>, attempt: nat, p: Path, gone: seq<Path>)
    ensures BuildAfter(build, seeds, live, attempt, [p] + gone) == BuildAfter(build, seeds, Without(live, p), attempt + 1, gone)
    ensures WithoutAll(live, [p] + gone) == WithoutAll(Without(live, p), gone)
  {
    hide Without, LastN;
    assert |[p] + gone| == 1 + |gone| && ([p] + gone)[0] == p && ([p] + gone)[1..] == gone;
  }

  /** Each path is the one the scanner blamed in the build without those before it. */
  ghost predicate Blamed(build: Oracle, seeds: seq<Path>, live: seq<Path>, attempt: nat, evicted: seq<Path>) {
    forall i :: 0 <= i < |evicted| ==> BuildAfter(build, seeds, live, attempt, evicted[..i]) == SecretIn(evicted[i])
  }

  lemma BlamedMore(build: Oracle, seeds: seq<Path>, live: seq<Path>, attempt: nat, p: Path, rest: seq<Path>)
    requires BuildAfter(build, seeds, live, attempt, []) == SecretIn(p)
    requires Blamed(build, seeds, Without(live, p), attempt + 1, rest)
    ensures Blamed(build, seeds, live, attempt, [p] + rest)
  {
    hide BuildAfter, Without;
    var evicted := [p] + rest;
    forall i | 0 <= i < |evicted| ensures BuildAfter(build, seeds, live, attempt, evicted[..i]) == SecretIn(evicted[i]) {
      if i == 0 {
        assert evicted[..0] == [];
      } else {
        BuildAfterFirst(build, seeds, live, attempt, p, rest[..i - 1]);
        assert evicted[..i] == [p] + rest[..i - 1];
      }
    }
  }

  /** Why the drain ended as it did, after its last eviction. */
  ghost predicate EndedBecause(seeds: seq<Path>, last: Build, window: seq<Path>, left: nat, end: End) {
    match end
    case Success => last.Built?
    case Rethrown => last.Threw?
    case Blocked(file, cause) =>
      && last == SecretIn(file)
      && match cause
         case NotAccumulated => file !in window
         case LiteralSeed => file in window && file in seeds
         case BudgetSpent => file in window && file !in seeds && left == 0
  }

  /**
   A drain attempt by attempt: each path evicted is the one the scanner blamed in the build without
   those before it, and the build without all of them ended it, for the reason given.
   */
  lemma {:induction false} DrainAttempts(build: Oracle, seeds: seq<Path>, live: seq<Path>, attempt: nat, left: nat)
    ensures var o := DrainFrom(build, seeds, live, attempt, left);
            && |o.evicted| <= left && Blamed(build, seeds, live, attempt, o.evicted)
            && EndedBecause(seeds, BuildAfter(build, seeds, live, attempt, o.evicted),
                            LastN(WithoutAll(live, o.evicted), MAX_ACCUMULATED_PATHS), left - |o.evicted|, o.end)
    decreases left
  {
    hide DrainFrom, Without, WithoutAll, LastN, BuildAfter, EndedBecause, Refusal, Blamed;
    NothingGone(build, seeds, live, attempt);
    var b := build(attempt, seeds + LastN(live, MAX_ACCUMULATED_PATHS));
    FirstAttempt(build, seeds, live, attempt, left, b);
    if b.SecretIn? && Refusal(b.file, seeds, live, left).None? {
      var rest := DrainFrom(build, seeds, Without(live, b.file), attempt + 1, left - 1);
      DrainAttempts(build, seeds, Without(live, b.file), attempt + 1, left - 1);
      BuildAfterFirst(build, seeds, live, attempt, b.file, rest.evicted);
      BlamedMore(build, seeds, live, attempt, b.file, rest.evicted);
      assert left - |[b.file] + rest.evicted| == left - 1 - |rest.evicted|;
    }
  }

  lemma FirstAttempt(build: Oracle, seeds: seq<Path>, live: seq<Path>, attempt: nat, left: nat, b: Build)
    requires b == build(attempt, seeds + LastN(live, MAX_ACCUMULATED_PATHS))
    ensures var o := DrainFrom(build, seeds, live, attempt, left);
            if b.SecretIn? && Refusal(b.file, seeds, live, left).None? then
              && left > 0
              && var rest := DrainFrom(build, seeds, Without(live, b.file), attempt + 1, left - 1);
                 o == Outcome(rest.end, [b.file] + rest.evicted)
            else
              && o.evicted == [] && Blamed(build, seeds, live, attempt, o.evicted)
              && EndedBecause(seeds, b, LastN(live, MAX_ACCUMULATED_PATHS), left, o.end)
  {
    hide Without, LastN, BuildAfter;
  }

  lemma NothingGone(build: Oracle, seeds: seq<Path>, live: seq<Path>, attempt: nat)
    ensures WithoutAll(live, []) == live
    ensures BuildAfter(build, seeds, live, attempt, []) == build(attempt, seeds + LastN(live, MAX_ACCUMULATED_PATHS))
  {
  }

  function Budget(live: seq<Path>): nat { |LastN(live, MAX_ACCUMULATED_PATHS)| }

  /** A whole round's drain: the budget is this round's accumulated-path count. */
  function Drain(build: Oracle, seeds: seq<Path>, live: seq<Path>): Outcome {
    DrainFrom(build, seeds, live, 0, Budget(live))
  }

  /** Paths that are fresh, distinct and no literal seeds. */
  ghost predicate ProperlyEvicted(evicted: seq<Path>, seeds: seq<Path>, live: seq<Path>) {
    Distinct(evicted) && forall p :: p in evicted ==> p in live && p !in seeds
  }

  /** What a round evicts: fresh paths only, each once, no literal seed, within the budget. */
  lemma {:induction false} EvictionsAreFresh(build: Oracle, seeds: seq<Path>, live: seq<Path>, attempt: nat, left: nat)
    requires Distinct(live)
    ensures var o := DrainFrom(build, seeds, live, attempt, left);
            && |o.evicted| <= left && ProperlyEvicted(o.evicted, seeds, live)
            && (o.end.Blocked? && o.end.cause == BudgetSpent ==>
                  |o.evicted| == left && ProperlyEvicted(o.evicted + [o.end.file], seeds, live))
    decreases left
  {
    hide Without, DrainFrom;
    DrainStep(build, seeds, live, attempt, left, []);
    var b := build(attempt, seeds + LastN(live, MAX_ACCUMULATED_PATHS));
    var o := DrainFrom(build, seeds, live, attempt, left);
    if b.SecretIn? && Refusal(b.file, seeds, live, left).None? {
      WithoutIs(live, b.file);
      EvictionsAreFresh(build, seeds, Without(live, b.file), attempt + 1, left - 1);
      var rest := DrainFrom(build, seeds, Without(live, b.file), attempt + 1, left - 1);
      assert o.evicted == [] + o.evicted == [b.file] + rest.evicted;
      ProperlyMore(b.file, rest.evicted, seeds, live);
      if rest.end.Blocked? && rest.end.cause == BudgetSpent {
        ProperlyMore(b.file, rest.evicted + [rest.end.file], seeds, live);
        assert o.evicted + [o.end.file] == [b.file] + (rest.evicted + [rest.end.file]);
      }
    }
  }

  lemma ProperlyMore(p: Path, rest: seq<Path>, seeds: seq<Path>, live: seq<Path>)
    requires Distinct(live) && p in live && p !in seeds && ProperlyEvicted(rest, seeds, Without(live, p))
    ensures ProperlyEvicted([p] + rest, seeds, live)
  {
    hide Without;
    WithoutIs(live, p);
    assert forall k :: 0 <= k < |rest| ==> rest[k] in rest;
  }

  // ---------------------------------------------------------------- when the backstop can be reached

  /**
   The paths the drain can ever be made to evict: not a literal seed, and with fewer than
   twenty literal seeds among the paths requested after them, as those never leave.
   */
  function Evictable(live: seq<Path>, seeds: seq<Path>, literalsAfter: nat): seq<Path> {
    if live == [] || literalsAfter >= MAX_ACCUMULATED_PATHS then []
    else if Last(live) in seeds then Evictable(Front(live), seeds, literalsAfter + 1)
    else Evictable(Front(live), seeds, literalsAfter) + [Last(live)]
  }

  lemma {:induction false} EvictableIsFresh(live: seq<Path>, seeds: seq<Path>, n: nat)
    ensures |Evictable(live, seeds, n)| <= |live|
    ensures forall p :: p in Evictable(live, seeds, n) ==> p in live && p !in seeds
  {
    if live != [] && n < MAX_ACCUMULATED_PATHS {
      EvictableIsFresh(Front(live), seeds, if Last(live) in seeds then n + 1 else n);
    }
  }

  lemma EvictableLast(live: seq<Path>, x: Path, seeds: seq<Path>, n: nat)
    requires n < MAX_ACCUMULATED_PATHS
    ensures Evictable(live + [x], seeds, n)
         == if x in seeds then Evictable(live, seeds, n + 1) else Evictable(live, seeds, n) + [x]
  {
    assert Front(live + [x]) == live;
  }

  lemma {:induction false} EvictableWithout(live: seq<Path>, seeds: seq<Path>, n: nat, p: Path)
    requires Distinct(live) && p !in seeds
    ensures Evictable(Without(live, p), seeds, n) == Without(Evictable(live, seeds, n), p)
  {
    if live != [] && n < MAX_ACCUMULATED_PATHS {
      var before, x := Front(live), Last(live);
      assert live == before + [x];
      var next := if x in seeds then n + 1 else n;
      EvictableWithout(before, seeds, next, p);
      WithoutLast(before, x, p);
      WithoutLast(Evictable(before, seeds, n), x, p);
      EvictableLast(before, x, seeds, n);
      if x != p {
        EvictableLast(Without(before, p), x, seeds, n);
      }
    }
  }

  /** A path close enough to the end that is not a literal seed is evictable. */
  lemma {:induction false} NearTheEnd(live: seq<Path>, seeds: seq<Path>, n: nat, back: nat)
    requires 1 <= back <= |live| && n + back <= MAX_ACCUMULATED_PATHS && live[|live| - back] !in seeds
    ensures live[|live| - back] in Evictable(live, seeds, n)
  {
    if back > 1 {
      NearTheEnd(Front(live), seeds, if Last(live) in seeds then n + 1 else n, back - 1);
    }
  }

  lemma WindowIsEvictable(live: seq<Path>, seeds: seq<Path>, p: Path)
    requires p in LastN(live, MAX_ACCUMULATED_PATHS) && p !in seeds
    ensures p in Evictable(live, seeds, 0)
  {
    var window := LastN(live, MAX_ACCUMULATED_PATHS);
    var i :| 0 <= i < |window| && window[i] == p;
    NearTheEnd(live, seeds, 0, |window| - i);
  }

  /** The last evictable path is the last of the window that is not a literal seed. */
  lemma {:induction false} LastEvictable(live: seq<Path>, seeds: seq<Path>, n: nat)
    requires n <= MAX_ACCUMULATED_PATHS && Evictable(live, seeds, n) != []
    ensures LastOutside(LastN(live, MAX_ACCUMULATED_PATHS - n), seeds) == Some(Last(Evictable(live, seeds, n)))
  {
    var window := LastN(live, MAX_ACCUMULATED_PATHS - n);
    assert Last(window) == Last(live);
    if Last(live) in seeds {
      LastEvictable(Front(live), seeds, n + 1);
      assert Front(window) == LastN(Front(live), MAX_ACCUMULATED_PATHS - n - 1);
    }
  }

  function LastOutside(paths: seq<Path>, seeds: seq<Path>): Option<Path> {
    if paths == [] then None
    else if Last(paths) in seeds then LastOutside(Front(paths), seeds)
    else Some(Last(paths))
  }

  lemma {:induction false} LastOutsideBehind(seeds: seq<Path>, literal: seq<Path>, paths: seq<Path>)
    requires forall s :: s in literal ==> s in seeds
    ensures LastOutside(literal + paths, seeds) == LastOutside(paths, seeds)
    decreases |literal| + |paths|
  {
    var all := literal + paths;
    if paths != [] {
      assert Front(all) == literal + Front(paths);
      LastOutsideBehind(seeds, literal, Front(paths));
    } else if literal != [] {
      assert all == literal && Front(literal) + [] == Front(literal);
      assert Last(literal) in seeds;
      LastOutsideBehind(seeds, Front(literal), []);
    }
  }

  /** The scanner that drains the most: it always blames the last path that is not a literal seed. */
  function WorstCase(seeds: seq<Path>): Oracle {
    (attempt, paths) => var p := LastOutside(paths, seeds); if p.Some? then SecretIn(p.value) else Built
  }

  lemma {:induction false} WorstCaseSpends(seeds: seq<Path>, live: seq<Path>, attempt: nat, left: nat)
    requires Distinct(live) && left < |Evictable(live, seeds, 0)|
    ensures var o := DrainFrom(WorstCase(seeds), seeds, live, attempt, left);
            o.end.Blocked? && o.end.cause == BudgetSpent
    decreases left
  {
    var p := Last(Evictable(live, seeds, 0));
    LastEvictable(live, seeds, 0);
    LastOutsideBehind(seeds, seeds, LastN(live, MAX_ACCUMULATED_PATHS));
    LastOutsideIs(LastN(live, MAX_ACCUMULATED_PATHS), seeds);
    if left > 0 {
      EvictableWithout(live, seeds, 0, p);
      WithoutIs(live, p);
      EvictableDistinct(live, seeds, 0);
      WithoutIs(Evictable(live, seeds, 0), p);
      WorstCaseSpends(seeds, Without(live, p), attempt + 1, left - 1);
    }
  }

  lemma {:induction false} LastOutsideIs(paths: seq<Path>, seeds: seq<Path>)
    ensures var p := LastOutside(paths, seeds); p.Some? ==> p.value in paths && p.value !in seeds
  {
    if paths == [] {
    } else {
      LastOutsideIs(Front(paths), seeds);
    }
  }

  lemma {:induction false} EvictableDistinct(live: seq<Path>, seeds: seq<Path>, n: nat)
    requires Distinct(live)
    ensures Distinct(Evictable(live, seeds, n))
  {
    if live != [] && n < MAX_ACCUMULATED_PATHS {
      var next := if Last(live) in seeds then n + 1 else n;
      EvictableDistinct(Front(live), seeds, next);
      EvictableIsFresh(Front(live), seeds, next);
      assert Last(live) !in Front(live);
    }
  }

  lemma UsesUpOne(live: seq<Path>, seeds: seq<Path>, p: Path)
    requires Distinct(live) && p in LastN(live, MAX_ACCUMULATED_PATHS) && p !in seeds
    ensures |Evictable(Without(live, p), seeds, 0)| == |Evictable(live, seeds, 0)| - 1
    ensures Distinct(Without(live, p)) && p in Evictable(live, seeds, 0)
  {
    hide Without, Evictable;
    WindowIsEvictable(live, seeds, p);
    EvictableWithout(live, seeds, 0, p);
    WithoutIs(live, p);
    EvictableDistinct(live, seeds, 0);
    WithoutIs(Evictable(live, seeds, 0), p);
  }

  /** Every eviction, and the path the budget refuses, uses up an evictable path. */
  lemma {:induction false} SpendingNeedsEvictable(build: Oracle, seeds: seq<Path>, live: seq<Path>, attempt: nat, left: nat)
    requires Distinct(live)
    ensures var o := DrainFrom(build, seeds, live, attempt, left);
            && |o.evicted| <= |Evictable(live, seeds, 0)|
            && (o.end.Blocked? && o.end.cause == BudgetSpent ==> left < |Evictable(live, seeds, 0)|)
    decreases left
  {
    hide Without, Evictable, DrainFrom;
    DrainStep(build, seeds, live, attempt, left, []);
    var b := build(attempt, seeds + LastN(live, MAX_ACCUMULATED_PATHS));
    if b.SecretIn? && b.file in LastN(live, MAX_ACCUMULATED_PATHS) && b.file !in seeds {
      UsesUpOne(live, seeds, b.file);
      assert |Evictable(live, seeds, 0)| > 0;
      if left > 0 {
        var o := DrainFrom(build, seeds, live, attempt, left);
        SpendingNeedsEvictable(build, seeds, Without(live, b.file), attempt + 1, left - 1);
        assert |o.evicted| == |[] + o.evicted|;
      }
    }
  }

  ghost predicate BackstopReachable(seeds: seq<Path>, live: seq<Path>) {
    exists build: Oracle :: var o := Drain(build, seeds, live); o.end.Blocked? && o.end.cause == BudgetSpent
  }

  /**
   Exactly when some scanner can reach the backstop: more evictable paths than the budget.
   Twenty or fewer fresh paths are never enough; without literal seeds among them, a
   twenty-first is.
   */
  lemma BackstopExactly(seeds: seq<Path>, live: seq<Path>)
    requires Distinct(live)
    ensures BackstopReachable(seeds, live) <==> |Evictable(live, seeds, 0)| > Budget(live)
    ensures |live| <= MAX_ACCUMULATED_PATHS ==> !BackstopReachable(seeds, live)
    ensures (forall p :: p in live ==> p !in seeds) ==>
              (BackstopReachable(seeds, live) <==> |live| > MAX_ACCUMULATED_PATHS)
  {
    EvictableIsFresh(live, seeds, 0);
    if BackstopReachable(seeds, live) {
      var build: Oracle :| var o := Drain(build, seeds, live); o.end.Blocked? && o.end.cause == BudgetSpent;
      SpendingNeedsEvictable(build, seeds, live, 0, Budget(live));
    }
    if |Evictable(live, seeds, 0)| > Budget(live) {
      WorstCaseSpends(seeds, live, 0, Budget(live));
      var o := Drain(WorstCase(seeds), seeds, live);
      assert o.end.Blocked? && o.end.cause == BudgetSpent;
    }
    if forall p :: p in live ==> p !in seeds {
      AllEvictable(live, seeds);
    }
  }

  lemma {:induction false} AllEvictable(live: seq<Path>, seeds: seq<Path>)
    requires forall p :: p in live ==> p !in seeds
    ensures Evictable(live, seeds, 0) == live
  {
    if live == [] {
    } else {
      assert forall p :: p in Front(live) ==> p in live;
      AllEvictable(Front(live), seeds);
      assert live == Front(live) + [Last(live)];
    }
  }

  // ---------------------------------------------------------------- the source's own state, over a run

  class ProposalSource {
    const seeds: seq<Path>
    const norm: Path -> Option<Path>
    var readRequested: seq<Path>
    var evictedAccumulated: set<Path>
    var evictions: seq<Path>

    /** Over a run no path is evicted twice, and only requested ones are. */
    ghost predicate Valid()
      reads this
    {
      && Distinct(readRequested) && Distinct(evictions)
      && (forall p :: p in evictedAccumulated <==> p in evictions)
      && (forall p :: p in evictions ==> p !in seeds && exists r :: r in readRequested && norm(r) == Some(p))
    }

    constructor (seeds: seq<Path>, norm: Path -> Option<Path>)
      ensures Valid() && this.seeds == seeds && this.norm == norm
      ensures readRequested == [] && evictions == []
    {
      this.seeds, this.norm := seeds, norm;
      readRequested, evictedAccumulated, evictions := [], {}, [];
    }

    /** A READ_FILE the model asked for. */
    method Request(path: Path)
      requires Valid()
      modifies this`readRequested
      ensures Valid()
      ensures readRequested == if path in old(readRequested) then old(readRequested) else old(readRequested) + [path]
    {
      if path !in readRequested {
        readRequested := readRequested + [path];
        assert forall r :: r in old(readRequested) ==> r in readRequested;
      }
    }

    /** Out of the seed set for the rest of the run; the request itself stays. */
    method Evict(file: Path)
      requires Valid() && file in Fresh(readRequested, evictedAccumulated, norm) && file !in seeds
      modifies this`evictedAccumulated, this`evictions
      ensures Valid() && evictions == old(evictions) + [file]
      ensures Fresh(readRequested, evictedAccumulated, norm) == Without(old(Fresh(readRequested, evictedAccumulated, norm)), file)
    {
      EvictOne(readRequested, evictedAccumulated, norm, file);
      FreshIs(readRequested, evictedAccumulated, norm);
      hide Fresh;
      evictedAccumulated := evictedAccumulated + {file};
      evictions := evictions + [file];
    }

    /** One round's drain: evictions leave the seed set and nothing else. */
    method BuildDraining(build: Oracle) returns (end: End)
      requires Valid()
      modifies this`evictedAccumulated, this`evictions
      ensures Valid()
      ensures var o := Drain(build, seeds, old(Fresh(readRequested, evictedAccumulated, norm)));
              end == o.end && evictions == old(evictions) + o.evicted
    {
      hide Fresh, Without, Valid, DrainFrom;
      ghost var whole := Drain(build, seeds, Fresh(readRequested, evictedAccumulated, norm));
      var accumulated := AccumulatedSeedPaths(readRequested, evictedAccumulated, norm);
      var drainBudget := |accumulated|;
      var count := 0;
      while true
        invariant Valid() && count <= drainBudget
        invariant var rest := DrainFrom(build, seeds, Fresh(readRequested, evictedAccumulated, norm), count, drainBudget - count);
                  old(evictions) + whole.evicted == evictions + rest.evicted && whole.end == rest.end
        decreases drainBudget - count
      {
        accumulated := AccumulatedSeedPaths(readRequested, evictedAccumulated, norm);
        DrainStep(build, seeds, Fresh(readRequested, evictedAccumulated, norm), count, drainBudget - count, evictions);
        match build(count, seeds + accumulated) {
          case Built => return Success;
          case Threw => return Rethrown;
          case SecretIn(file) =>
            if file !in accumulated { return Blocked(file, NotAccumulated); }
            if file in seeds { return Blocked(file, LiteralSeed); }
            if count >= drainBudget { return Blocked(file, BudgetSpent); }
            Evict(file);
            count := count + 1;
        }
      }
    }
  }
}
