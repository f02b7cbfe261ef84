/**
 The fusion resolve rules: which candidate, or which union of candidates, wins. A candidate's
 structured result holds the hypotheses and findings lifted from it; the rest is `raw`.
 */
module FusionResolve {
  import opened Common
  import opened StableSort

  datatype Artifact = Plan | CodeDiff | Tests | Hypotheses | Reviews

  datatype Action = WriteFile(path: string, content: string) | OtherAction(detail: string)

  datatype Hypothesis = Hypothesis(statement: string, probes: seq<string>)

  datatype Finding = Finding(key: string, severity: string, blocking: bool)

  datatype Structured = Structured(raw: string, hypotheses: seq<Hypothesis>, findings: seq<Finding>)

  datatype Candidate = Candidate(index: nat, adapterId: string, lineage: string, result: Structured, actions: seq<Action>,
                                 cost: real, gate: Option<bool>)

  datatype ReviewFinding = ReviewFinding(key: string, raisedBy: seq<nat>, severities: seq<string>, disagree: bool)

  datatype WinnerResult =
    | Whole(result: Structured)
    | RedChecks(paths: seq<string>)
    | RankedHypotheses(hypotheses: seq<Hypothesis>)
    | Ensemble(findings: seq<ReviewFinding>, escalation: bool)

  datatype Winner = Winner(result: WinnerResult, actions: seq<Action>)

  datatype Reason = BudgetCap | NoGateSurvivor | JudgeInvalid | PanelDegraded | InvalidResponse

  datatype Dissent = Dissent(finding: string, raisedBy: seq<nat>, severities: seq<string>, blockings: seq<bool>)

  datatype Resolution = Resolution(winner: Option<Winner>, reason: Option<Reason>, dissent: seq<Dissent>)

  // ---------------------------------------------------------------- first occurrence by key

  predicate KeyIn<T>(s: seq<T>, keyOf: T -> string, key: string) { exists i :: 0 <= i < |s| && keyOf(s[i]) == key }

  /** The first element of each key, in order of first appearance: what an insertion-ordered map keeps. */
  function FirstBy<T>(s: seq<T>, keyOf: T -> string): seq<T> {
    if s == [] then []
    else
      var before := FirstBy(Front(s), keyOf);
      if KeyIn(before, keyOf, keyOf(Last(s))) then before else before + [Last(s)]
  }

  lemma FirstByNext<T>(s: seq<T>, x: T, keyOf: T -> string)
    ensures FirstBy(s + [x], keyOf)
         == if KeyIn(FirstBy(s, keyOf), keyOf, keyOf(x)) then FirstBy(s, keyOf) else FirstBy(s, keyOf) + [x]
  {
    assert Front(s + [x]) == s;
  }

  /** Where a key first appears; the length if nowhere. */
  function FirstAt<T>(s: seq<T>, keyOf: T -> string, key: string): (i: nat)
    ensures i <= |s| && (i < |s| ==> keyOf(s[i]) == key)
    ensures forall j :: 0 <= j < i ==> keyOf(s[j]) != key
  {
    if s == [] then 0 else if keyOf(s[0]) == key then 0 else 1 + FirstAt(s[1..], keyOf, key)
  }

  /** Each key once, the element where it first appears, in order of first appearance. */
  ghost predicate Firsts<T>(d: seq<T>, s: seq<T>, keyOf: T -> string) {
    && (forall x :: x in s ==> KeyIn(d, keyOf, keyOf(x)))
    && AllFirst(d, s, keyOf) && Rising(d, s, keyOf)
  }

  ghost predicate AllFirst<T>(d: seq<T>, s: seq<T>, keyOf: T -> string) { forall k :: 0 <= k < |d| ==> IsFirst(d[k], s, keyOf) }

  ghost predicate Rising<T>(d: seq<T>, s: seq<T>, keyOf: T -> string) {
    forall j, k :: 0 <= j < k < |d| ==> FirstAt(s, keyOf, keyOf(d[j])) < FirstAt(s, keyOf, keyOf(d[k]))
  }

  ghost predicate IsFirst<T>(x: T, s: seq<T>, keyOf: T -> string) {
    var i := FirstAt(s, keyOf, keyOf(x));
    i < |s| && s[i] == x
  }

  /** Only the first appearance fits. */
  lemma FirstAtOnly<T>(s: seq<T>, keyOf: T -> string, key: string, i: nat)
    requires i <= |s| && (i < |s| ==> keyOf(s[i]) == key) && forall j :: 0 <= j < i ==> keyOf(s[j]) != key
    ensures FirstAt(s, keyOf, key) == i
  {
    hide FirstAt;
  }

  lemma FirstAtPrefix<T>(s: seq<T>, keyOf: T -> string, key: string)
    requires s != []
    ensures FirstAt(s, keyOf, key) == if FirstAt(Front(s), keyOf, key) < |Front(s)| then FirstAt(Front(s), keyOf, key)
                                      else if keyOf(Last(s)) == key then |s| - 1 else |s|
  {
    hide FirstAt;
    var front := Front(s);
    var j := FirstAt(front, keyOf, key);
    assert forall i :: 0 <= i < |front| ==> front[i] == s[i];
    FirstAtOnly(s, keyOf, key, if j < |front| then j else if keyOf(Last(s)) == key then |s| - 1 else |s|);
  }

  lemma FirstStays<T>(x: T, s: seq<T>, keyOf: T -> string)
    requires s != [] && IsFirst(x, Front(s), keyOf)
    ensures IsFirst(x, s, keyOf)
    ensures FirstAt(s, keyOf, keyOf(x)) == FirstAt(Front(s), keyOf, keyOf(x)) < |s| - 1
  {
    hide FirstAt;
    FirstAtPrefix(s, keyOf, keyOf(x));
  }

  lemma NewKeyIsFirst<T>(s: seq<T>, keyOf: T -> string)
    requires s != [] && forall y :: y in Front(s) ==> keyOf(y) != keyOf(Last(s))
    ensures IsFirst(Last(s), s, keyOf) && FirstAt(s, keyOf, keyOf(Last(s))) == |s| - 1
  {
    hide FirstAt;
    forall j | 0 <= j < |s| - 1 ensures keyOf(s[j]) != keyOf(Last(s)) {
      assert Front(s)[j] in Front(s);
    }
    FirstAtOnly(s, keyOf, keyOf(Last(s)), |s| - 1);
  }

  /** What is first in a prefix is first in the whole, in the same order, before the last element. */
  lemma KeepFirsts<T>(d: seq<T>, s: seq<T>, keyOf: T -> string)
    requires s != [] && AllFirst(d, Front(s), keyOf) && Rising(d, Front(s), keyOf)
    ensures AllFirst(d, s, keyOf) && Rising(d, s, keyOf)
    ensures forall k :: 0 <= k < |d| ==> FirstAt(s, keyOf, keyOf(d[k])) < |s| - 1
  {
    hide FirstAt, IsFirst;
    forall k | 0 <= k < |d|
      ensures IsFirst(d[k], s, keyOf)
      ensures FirstAt(s, keyOf, keyOf(d[k])) == FirstAt(Front(s), keyOf, keyOf(d[k])) < |s| - 1
    {
      FirstStays(d[k], s, keyOf);
    }
  }

  lemma AppendFirst<T>(d: seq<T>, s: seq<T>, keyOf: T -> string)
    requires s != [] && Firsts(d, Front(s), keyOf) && !KeyIn(d, keyOf, keyOf(Last(s)))
    ensures AllFirst(d + [Last(s)], s, keyOf) && Rising(d + [Last(s)], s, keyOf)
  {
    KeepFirsts(d, s, keyOf);
    forall y | y in Front(s) ensures keyOf(y) != keyOf(Last(s)) {
      assert KeyIn(d, keyOf, keyOf(y));
    }
    NewKeyIsFirst(s, keyOf);
    hide FirstAt, IsFirst, KeyIn;
  }

  lemma {:induction false} FirstByIsFirsts<T(!new)>(s: seq<T>, keyOf: T -> string)
    ensures Firsts(FirstBy(s, keyOf), s, keyOf)
  {
    if s == [] {
      assert FirstBy(s, keyOf) == [];
    } else {
      hide AllFirst, Rising, KeyIn;
      CoversKeys(s, keyOf);
      FirstByIsFirsts(Front(s), keyOf);
      KeepFirsts(FirstBy(Front(s), keyOf), s, keyOf);
      if !KeyIn(FirstBy(Front(s), keyOf), keyOf, keyOf(Last(s))) {
        AppendFirst(FirstBy(Front(s), keyOf), s, keyOf);
      }
    }
  }

  lemma {:induction false} CoversKeys<T(!new)>(s: seq<T>, keyOf: T -> string)
    ensures forall x :: x in s ==> KeyIn(FirstBy(s, keyOf), keyOf, keyOf(x))
    ensures forall x :: x in FirstBy(s, keyOf) ==> x in s
  {
    if s == [] {
    } else {
      CoversKeys(Front(s), keyOf);
      var before, d := FirstBy(Front(s), keyOf), FirstBy(s, keyOf);
      forall x | x in s ensures KeyIn(d, keyOf, keyOf(x)) {
        if x in Front(s) {
          var i :| 0 <= i < |before| && keyOf(before[i]) == keyOf(x);
          assert keyOf(d[i]) == keyOf(x);
        } else if !KeyIn(before, keyOf, keyOf(x)) {
          assert keyOf(d[|d| - 1]) == keyOf(x);
        }
      }
    }
  }

  // ---------------------------------------------------------------- code_diff

  predicate GateGreen(c: Candidate) { c.gate == Some(true) }

  function Green(candidates: seq<Candidate>): seq<Candidate> { Filter(candidates, GateGreen) }

  function ResolveCodeDiff(candidates: seq<Candidate>): Resolution {
    var green := Green(candidates);
    if green == [] then Resolution(None, Some(NoGateSurvivor), [])
    else Resolution(Some(Winner(Whole(green[0].result), green[0].actions)), None, [])
  }

  /** `w` is one candidate's result with its whole action list. */
  ghost predicate IsCandidates(w: Winner, c: Candidate) { w == Winner(Whole(c.result), c.actions) }

  /** The winner is the first gate-green candidate, whole; there is one exactly when any is green. */
  lemma {:induction false} CodeDiffWinner(candidates: seq<Candidate>)
    ensures ResolveCodeDiff(candidates).winner.None? <==> forall c :: c in candidates ==> !GateGreen(c)
    ensures ResolveCodeDiff(candidates).reason == if ResolveCodeDiff(candidates).winner.None? then Some(NoGateSurvivor) else None
    ensures ResolveCodeDiff(candidates).winner.Some? ==>
              exists i :: 0 <= i < |candidates| && GateGreen(candidates[i])
                && IsCandidates(ResolveCodeDiff(candidates).winner.value, candidates[i])
                && forall j :: 0 <= j < i ==> !GateGreen(candidates[j])
  {
    if candidates == [] {
    } else {
      if GateGreen(candidates[0]) {
        assert IsCandidates(ResolveCodeDiff(candidates).winner.value, candidates[0]);
      } else {
        var rest := candidates[1..];
        CodeDiffWinner(rest);
        assert Green(candidates) == [] + Green(rest) == Green(rest);
        if ResolveCodeDiff(rest).winner.Some? {
          var i :| 0 <= i < |rest| && GateGreen(rest[i]) && IsCandidates(ResolveCodeDiff(rest).winner.value, rest[i])
            && forall j :: 0 <= j < i ==> !GateGreen(rest[j]);
          assert candidates[i + 1] == rest[i];
          forall j | 0 <= j < i + 1 ensures !GateGreen(candidates[j]) {
            assert j > 0 ==> candidates[j] == rest[j - 1];
          }
        }
      }
    }
  }

  // ---------------------------------------------------------------- tests

  function PathOf(a: Action): string { if a.WriteFile? then a.path else "" }

  function Writes(actions: seq<Action>): seq<Action> {
    if actions == [] then [] else Writes(Front(actions)) + if Last(actions).WriteFile? then [Last(actions)] else []
  }

  function AllWrites(candidates: seq<Candidate>): seq<Action> {
    if candidates == [] then [] else AllWrites(Front(candidates)) + Writes(Last(candidates).actions)
  }

  function Paths(actions: seq<Action>): seq<string> { seq(|actions|, i requires 0 <= i < |actions| => PathOf(actions[i])) }

  function TestUnion(candidates: seq<Candidate>): seq<Action> { FirstBy(AllWrites(Green(candidates)), PathOf) }

  method ResolveTests(candidates: seq<Candidate>) returns (r: Resolution)
    ensures r == if Green(candidates) == [] then Resolution(None, Some(NoGateSurvivor), [])
                 else Resolution(Some(Winner(RedChecks(Paths(TestUnion(candidates))), TestUnion(candidates))), None, [])
  {
    hide FirstBy, KeyIn, Green;
    var green := Green(candidates);
    if green == [] { return Resolution(None, Some(NoGateSurvivor), []); }
    var byPath: seq<Action> := [];
    assert byPath == FirstBy([], PathOf) by { NoneFirst(PathOf); }
    for i := 0 to |green|
      invariant byPath == FirstBy(AllWrites(green[..i]), PathOf)
    {
      var actions := green[i].actions;
      ghost var earlier := AllWrites(green[..i]);
      assert earlier + [] == earlier;
      for j := 0 to |actions|
        invariant byPath == FirstBy(earlier + Writes(actions[..j]), PathOf)
      {
        var a := actions[j];
        WritesNext(earlier, actions, j);
        FirstByNext(earlier + Writes(actions[..j]), a, PathOf);
        if a.WriteFile? && !KeyIn(byPath, PathOf, a.path) {
          byPath := byPath + [a];
        }
      }
      assert actions[..|actions|] == actions;
      assert Front(green[..i + 1]) == green[..i];
    }
    assert green[..|green|] == green;
    return Resolution(Some(Winner(RedChecks(Paths(byPath)), byPath)), None, []);
  }

  lemma WritesNext(earlier: seq<Action>, actions: seq<Action>, j: nat)
    requires j < |actions|
    ensures var seen := earlier + Writes(actions[..j]);
            earlier + Writes(actions[..j + 1]) == if actions[j].WriteFile? then seen + [actions[j]] else seen
  {
    assert Front(actions[..j + 1]) == actions[..j];
  }

  lemma NoneFirst<T>(keyOf: T -> string)
    ensures FirstBy([], keyOf) == []
  {
  }

  lemma {:induction false} WritesAre(actions: seq<Action>)
    ensures forall a :: a in Writes(actions) <==> a in actions && a.WriteFile?
  {
    if actions == [] {
    } else {
      WritesAre(Front(actions));
      assert forall a :: a in actions <==> a in Front(actions) || a == Last(actions);
    }
  }

  lemma {:induction false} AllWritesAre(candidates: seq<Candidate>)
    ensures forall a :: a in AllWrites(candidates) <==> exists c :: c in candidates && a in c.actions && a.WriteFile?
  {
    if candidates == [] {
    } else {
      AllWritesAre(Front(candidates));
      WritesAre(Last(candidates).actions);
      assert forall c :: c in candidates <==> c in Front(candidates) || c == Last(candidates);
    }
  }

  lemma {:induction false} GreenAre(candidates: seq<Candidate>)
    ensures forall c :: c in Green(candidates) <==> c in candidates && GateGreen(c)
  {
    if candidates == [] {
    } else {
      GreenAre(candidates[1..]);
      assert forall c :: c in candidates <==> c == candidates[0] || c in candidates[1..];
    }
  }

  lemma WritesOfOne(a: Action)
    ensures Writes([a]) == if a.WriteFile? then [a] else []
  {
    assert Front([a]) == [];
  }

  lemma WritesAtEnd(some: seq<Action>, a: Action)
    ensures Writes(some + [a]) == Writes(some) + Writes([a])
  {
    WritesOfOne(a);
    assert Front(some + [a]) == some;
  }

  lemma {:induction false} WritesInOrder(some: seq<Action>, more: seq<Action>)
    ensures Writes(some + more) == Writes(some) + Writes(more)
  {
    if more == [] {
      assert some + more == some;
    } else {
      hide Writes;
      var front, last := Front(more), Last(more);
      assert some + more == some + front + [last] && more == front + [last];
      WritesInOrder(some, front);
      WritesAtEnd(some + front, last);
      WritesAtEnd(front, last);
      Regroup(Writes(some), Writes(front), Writes([last]));
    }
  }

  /** Candidate by candidate, each one's writes in the order of its actions. */
  lemma {:induction false} AllWritesInOrder(some: seq<Candidate>, more: seq<Candidate>)
    ensures AllWrites(some + more) == AllWrites(some) + AllWrites(more)
    ensures |more| == 1 ==> AllWrites(more) == Writes(more[0].actions)
  {
    if more == [] {
      assert some + more == some;
    } else {
      assert Front(some + more) == some + Front(more);
      AllWritesInOrder(some, Front(more));
      Regroup(AllWrites(some), AllWrites(Front(more)), Writes(Last(more).actions));
    }
  }

  /**
   The tests union: every write is some gate-green candidate's, every path a green candidate
   writes is there exactly once, with the write that came first.
   */
  lemma TestUnionIs(candidates: seq<Candidate>)
    ensures var union := TestUnion(candidates);
            && (forall a :: a in union ==> exists c :: c in candidates && GateGreen(c) && a in c.actions && a.WriteFile?)
            && (forall c, a :: c in candidates && GateGreen(c) && a in c.actions && a.WriteFile? ==> KeyIn(union, PathOf, a.path))
            && (forall i, j :: 0 <= i < j < |union| ==> PathOf(union[i]) != PathOf(union[j]))
            && Firsts(union, AllWrites(Green(candidates)), PathOf)
            && |Paths(union)| == |union| && forall i :: 0 <= i < |union| ==> Paths(union)[i] == union[i].path
  {
    GreenAre(candidates);
    var writes := AllWrites(Green(candidates));
    AllWritesAre(Green(candidates));
    FirstByIsFirsts(writes, PathOf);
    CoversKeys(writes, PathOf);
    forall c, a | c in candidates && GateGreen(c) && a in c.actions && a.WriteFile?
      ensures KeyIn(TestUnion(candidates), PathOf, a.path)
    {
      assert c in Green(candidates);
      assert a in writes;
      assert KeyIn(FirstBy(writes, PathOf), PathOf, PathOf(a));
    }
  }

  // ---------------------------------------------------------------- hypotheses

  function Statement(h: Hypothesis): string { h.statement }

  function AllHypotheses(candidates: seq<Candidate>): seq<Hypothesis> {
    if candidates == [] then [] else AllHypotheses(Front(candidates)) + Last(candidates).result.hypotheses
  }

  /** Candidate by candidate, each in its own order. */
  lemma {:induction false} HypothesesInOrder(some: seq<Candidate>, more: seq<Candidate>)
    ensures AllHypotheses(some + more) == AllHypotheses(some) + AllHypotheses(more)
    ensures |more| == 1 ==> AllHypotheses(more) == more[0].result.hypotheses
  {
    if more == [] {
      assert some + more == some;
    } else {
      assert Front(some + more) == some + Front(more);
      HypothesesInOrder(some, Front(more));
      Regroup(AllHypotheses(some), AllHypotheses(Front(more)), Last(more).result.hypotheses);
    }
  }

  predicate FewerProbes(a: Hypothesis, b: Hypothesis) { |a.probes| < |b.probes| }

  function Ranking(candidates: seq<Candidate>): seq<Hypothesis> {
    Sort(FirstBy(AllHypotheses(candidates), Statement), FewerProbes)
  }

  method ResolveHypotheses(candidates: seq<Candidate>) returns (r: Resolution)
    ensures r == Resolution(Some(Winner(RankedHypotheses(Ranking(candidates)), [])), None, [])
  {
    hide FirstBy, KeyIn;
    var byStatement: seq<Hypothesis> := [];
    assert byStatement == FirstBy([], Statement) by { NoneFirst(Statement); }
    for i := 0 to |candidates|
      invariant byStatement == FirstBy(AllHypotheses(candidates[..i]), Statement)
    {
      var hs := candidates[i].result.hypotheses;
      ghost var earlier := AllHypotheses(candidates[..i]);
      assert earlier + hs[..0] == earlier;
      for j := 0 to |hs|
        invariant byStatement == FirstBy(earlier + hs[..j], Statement)
      {
        assert earlier + hs[..j + 1] == earlier + hs[..j] + [hs[j]];
        FirstByNext(earlier + hs[..j], hs[j], Statement);
        if !KeyIn(byStatement, Statement, hs[j].statement) {
          byStatement := byStatement + [hs[j]];
        }
      }
      assert hs[..|hs|] == hs;
      assert Front(candidates[..i + 1]) == candidates[..i];
    }
    assert candidates[..|candidates|] == candidates;
    return Resolution(Some(Winner(RankedHypotheses(Sort(byStatement, FewerProbes)), [])), None, []);
  }

  /** Every statement any candidate made, once, cheapest to probe first, ties as first made. */
  lemma RankingIs(candidates: seq<Candidate>)
    ensures var ranked, firsts := Ranking(candidates), FirstBy(AllHypotheses(candidates), Statement);
            && Firsts(firsts, AllHypotheses(candidates), Statement) && multiset(ranked) == multiset(firsts)
            && (forall i, j :: 0 <= i < j < |ranked| ==> |ranked[i].probes| <= |ranked[j].probes|)
            && (forall n: nat :: Filter(ranked, WithProbes(n)) == Filter(firsts, WithProbes(n)))
  {
    var firsts := FirstBy(AllHypotheses(candidates), Statement);
    FirstByIsFirsts(AllHypotheses(candidates), Statement);
    SortIsPermutation(firsts, FewerProbes);
    SortSorts(firsts, FewerProbes);
    assert forall i, j :: 0 <= i < j < |Ranking(candidates)| ==> !FewerProbes(Ranking(candidates)[j], Ranking(candidates)[i]);
    forall n: nat ensures Filter(Ranking(candidates), WithProbes(n)) == Filter(firsts, WithProbes(n)) {
      SortIsStable(firsts, FewerProbes, WithProbes(n));
    }
  }

  function WithProbes(n: nat): Hypothesis -> bool { (h: Hypothesis) => |h.probes| == n }

  // ---------------------------------------------------------------- plan

  function ResolvePlan(candidates: seq<Candidate>): Resolution {
    if candidates == [] then Resolution(None, Some(PanelDegraded), [])
    else Resolution(Some(Winner(Whole(candidates[0].result), candidates[0].actions)), None, [])
  }

  /** The plan that wins is the first candidate's, whole; there is one as soon as there is a candidate. */
  lemma PlanWinner(candidates: seq<Candidate>)
    ensures var r := ResolvePlan(candidates);
            && (r.winner.Some? <==> candidates != []) && r.reason == (if candidates == [] then Some(PanelDegraded) else None)
            && (r.winner.Some? ==> IsCandidates(r.winner.value, candidates[0])) && r.dissent == []
  {
  }
}
