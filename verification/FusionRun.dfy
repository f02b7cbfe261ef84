/**
 The fusion pipeline: panel size and diversity, candidates, gate evidence, one judge
 round, and resolution. Costs are reals below a finite limit.
 */
module FusionRun {
  import opened Common
  import opened CostUnits
  import opened StableSort
  import opened FusionResolve
  import FusionReviews

  datatype Diversity = Self(seeds: seq<int>) | CrossLineage(lineages: seq<string>)

  datatype Profile = Profile(artifact: Artifact, size: nat, diversity: Diversity, budgetCap: real, estimate: real)

  datatype Adapter = Adapter(adapterId: string, lineage: string)

  datatype Slot = Slot(adapter: Adapter, seed: Option<int>)

  datatype Answer =
    | Replied(adapterId: string, result: Structured, actions: seq<Action>, cost: Cost)
    | Failed(invalidResponse: bool)

  /** What the judge is shown: no adapter, no lineage. */
  datatype Blind = Blind(index: nat, result: Structured, actions: seq<Action>)

  datatype Judging =
    | Judged(valid: bool, cost: Cost)
    | NoReviewer
    | TransportFailure
    | RefusedAsInvalid
    | Crash

  type Judge = seq<Blind> -> Judging

  /** What the pipeline is run among: the panel's answers, the gate runner and the judge. */
  datatype World = World(limit: real, eligible: seq<Adapter>, answer: (nat, Slot) -> Answer,
                         gate: Option<(nat, seq<Action>) -> bool>, judge: Judge)

  datatype Deliberation = Analysis | NotLoadBearing | Unavailable(reason: Reason) | NotReached(reason: Reason)

  datatype Outcome = Outcome(winner: Option<Winner>, reason: Option<Reason>, dissent: seq<Dissent>,
                             deliberation: Deliberation, usage: real, panelSize: nat)

  /** An outcome, or an error that is not the pipeline's to handle. */
  datatype Fusion = Done(outcome: Outcome) | Threw

  function Escalate(reason: Reason, usage: real, panelSize: nat): Fusion {
    Done(Outcome(None, Some(reason), [], NotReached(reason), usage, panelSize))
  }

  // ---------------------------------------------------------------- the panel

  /** The size that fits the cap, or none when two candidates do not. */
  function PanelSize(p: Profile): Option<nat>
    requires p.estimate > 0.0
  {
    if p.size as real * p.estimate <= p.budgetCap then Some(p.size)
    else
      var fit := (p.budgetCap / p.estimate).Floor;
      if fit < 2 then None else Some(fit)
  }

  /** The quotient's floor is the most candidates the cap can pay for. */
  lemma FitsIff(n: int, cap: real, estimate: real)
    requires estimate > 0.0
    ensures n as real * estimate <= cap <==> n <= (cap / estimate).Floor
  {
    var q := cap / estimate;
    assert q * estimate == cap;
    if n <= q.Floor {
      ScaledUp(n as real, q, estimate);
    } else {
      ScaledUpStrictly(q, n as real, estimate);
    }
  }

  /** The largest panel, up to the profile's size, whose estimates fit the cap. */
  lemma PanelFits(p: Profile)
    requires p.estimate > 0.0 && p.size >= 2
    ensures PanelSize(p).None? <==> 2 as real * p.estimate > p.budgetCap
    ensures PanelSize(p).Some? ==>
              var n := PanelSize(p).value;
              && 2 <= n <= p.size && n as real * p.estimate <= p.budgetCap
              && (n < p.size ==> (n + 1) as real * p.estimate > p.budgetCap)
  {
    var fit := (p.budgetCap / p.estimate).Floor;
    FitsIff(2, p.budgetCap, p.estimate);
    FitsIff(p.size, p.budgetCap, p.estimate);
    FitsIff(fit, p.budgetCap, p.estimate);
    FitsIff(fit + 1, p.budgetCap, p.estimate);
  }

  predicate AllDistinct(s: seq<int>) { forall i, j :: 0 <= i < j < |s| ==> s[i] != s[j] }

  function FirstOf(eligible: seq<Adapter>, lineage: string): Option<Adapter> {
    if eligible == [] then None
    else if eligible[0].lineage == lineage then Some(eligible[0])
    else FirstOf(eligible[1..], lineage)
  }

  /** `a` is of the lineage, and nobody before it in the list is. */
  ghost predicate FirstOfLineage(eligible: seq<Adapter>, a: Adapter, lineage: string) {
    exists k :: 0 <= k < |eligible| && eligible[k] == a && a.lineage == lineage && forall j :: 0 <= j < k ==> eligible[j].lineage != lineage
  }

  /** One slot for each lineage, if each has an adapter. */
  function LineageSlots(eligible: seq<Adapter>, lineages: seq<string>): Option<seq<Slot>> {
    if lineages == [] then Some([])
    else
      var before, found := LineageSlots(eligible, Front(lineages)), FirstOf(eligible, Last(lineages));
      if before.None? || found.None? then None else Some(before.value + [Slot(found.value, None)])
  }

  function PlanPanel(eligible: seq<Adapter>, d: Diversity, size: nat): Option<seq<Slot>> {
    match d
    case Self(seeds) =>
      if eligible == [] || |seeds| < size || !AllDistinct(seeds[..size]) then None
      else Some(seq(size, i requires 0 <= i < size => Slot(eligible[0], Some(seeds[i]))))
    case CrossLineage(lineages) =>
      LineageSlots(eligible, Used(lineages, size))
  }

  /** The lineages a panel of that size uses. */
  function Used(lineages: seq<string>, size: nat): seq<string> { if |lineages| <= size then lineages else lineages[..size] }

  /**
   A self panel seats one adapter with pairwise different seeds. A cross-lineage panel seats the
   first eligible adapter of each lineage it uses, so its slots are pairwise different if and
   only if those lineages are: a repeated lineage seats the same adapter twice.
   */
  lemma PanelIsDiverse(eligible: seq<Adapter>, d: Diversity, size: nat)
    requires PlanPanel(eligible, d, size).Some?
    ensures var slots := PlanPanel(eligible, d, size).value;
            && |slots| <= size && (forall i :: 0 <= i < |slots| ==> slots[i].adapter in eligible)
            && (d.Self? ==>
                  && |slots| == size && (forall i :: 0 <= i < size ==> slots[i] == Slot(eligible[0], Some(d.seeds[i])))
                  && (forall i, j :: 0 <= i < j < |slots| ==> slots[i].seed != slots[j].seed))
            && (d.CrossLineage? ==>
                  && |slots| == |Used(d.lineages, size)|
                  && (forall i :: 0 <= i < |slots| ==> FirstOfLineage(eligible, slots[i].adapter, d.lineages[i]))
                  && (Distinct(slots) <==> Distinct(Used(d.lineages, size))))
  {
    match d {
      case Self(seeds) =>
      case CrossLineage(lineages) =>
        var used := Used(lineages, size);
        var slots := PlanPanel(eligible, d, size).value;
        LineageSlotsAre(eligible, used);
        assert forall i :: 0 <= i < |slots| ==> used[i] == lineages[i];
        forall i, j | 0 <= i < j < |slots| ensures slots[i] == slots[j] <==> used[i] == used[j] {
          assert slots[i].adapter.lineage == used[i] && slots[j].adapter.lineage == used[j];
        }
    }
  }

  lemma {:induction false} LineageSlotsAre(eligible: seq<Adapter>, lineages: seq<string>)
    ensures LineageSlots(eligible, lineages).Some? <==>
              forall i :: 0 <= i < |lineages| ==> FirstOf(eligible, lineages[i]).Some?
    ensures LineageSlots(eligible, lineages).Some? ==>
              var slots := LineageSlots(eligible, lineages).value;
              && |slots| == |lineages|
              && forall i :: 0 <= i < |slots| ==>
                   && FirstOf(eligible, lineages[i]) == Some(slots[i].adapter) && slots[i].seed.None?
                   && FirstOfLineage(eligible, slots[i].adapter, lineages[i])
  {
    if lineages == [] {
    } else {
      LineageSlotsAre(eligible, Front(lineages));
      FirstOfIs(eligible, Last(lineages));
      assert forall i :: 0 <= i < |lineages| - 1 ==> Front(lineages)[i] == lineages[i];
    }
  }

  lemma {:induction false} FirstOfIs(eligible: seq<Adapter>, lineage: string)
    ensures FirstOf(eligible, lineage).Some? ==> FirstOfLineage(eligible, FirstOf(eligible, lineage).value, lineage)
    ensures FirstOf(eligible, lineage).Some? <==> exists a :: a in eligible && a.lineage == lineage
  {
    if eligible == [] {
    } else {
      var rest := eligible[1..];
      FirstOfIs(rest, lineage);
      assert forall a :: a in eligible <==> a == eligible[0] || a in rest;
      if eligible[0].lineage == lineage {
        assert eligible[0] in eligible;
      } else if FirstOf(rest, lineage).Some? {
        var a := FirstOf(rest, lineage).value;
        var k :| 0 <= k < |rest| && rest[k] == a && a.lineage == lineage && forall j :: 0 <= j < k ==> rest[j].lineage != lineage;
        assert eligible[k + 1] == a;
        forall j | 0 <= j < k + 1 ensures eligible[j].lineage != lineage {
          assert j > 0 ==> eligible[j] == rest[j - 1];
        }
      }
    }
  }

  /** Exactly when a panel can be seated: the seeds suffice and differ, or each lineage used has an eligible adapter. */
  lemma PanelIsSeated(eligible: seq<Adapter>, d: Diversity, size: nat)
    ensures PlanPanel(eligible, d, size).Some? <==>
              match d
              case Self(seeds) =>
                eligible != [] && size <= |seeds| && forall i, j :: 0 <= i < j < size ==> seeds[i] != seeds[j]
              case CrossLineage(lineages) =>
                forall i :: 0 <= i < |lineages| && i < size ==> exists a :: a in eligible && a.lineage == lineages[i]
  {
    match d {
      case Self(seeds) =>
      case CrossLineage(lineages) =>
        var used := Used(lineages, size);
        LineageSlotsAre(eligible, used);
        forall i | 0 <= i < |lineages| && i < size ensures FirstOf(eligible, used[i]).Some? <==> exists a :: a in eligible && a.lineage == lineages[i] {
          FirstOfIs(eligible, used[i]);
        }
    }
  }

  /** A profile that names a lineage twice: two slots, one adapter. */
  lemma RepeatedLineageSeatsTwice(a: Adapter)
    ensures PlanPanel([a], CrossLineage([a.lineage, a.lineage]), 2) == Some([Slot(a, None), Slot(a, None)])
  {
    var twice := [a.lineage, a.lineage];
    assert Front(twice) == [a.lineage] && Front([a.lineage]) == [];
    assert FirstOf([a], a.lineage) == Some(a) && LineageSlots([a], []) == Some([]);
    assert [] + [Slot(a, None)] == [Slot(a, None)];
    assert LineageSlots([a], [a.lineage]) == Some([Slot(a, None)]);
    assert [Slot(a, None)] + [Slot(a, None)] == [Slot(a, None), Slot(a, None)];
  }

  // ---------------------------------------------------------------- candidates

  datatype Gathered = Gathered(candidates: seq<Candidate>, usage: real, invalid: bool)

  function Gather(limit: real, slots: seq<Slot>, answers: seq<Answer>): Gathered
    requires |answers| <= |slots|
    decreases |answers|
  {
    if answers == [] then Gathered([], 0.0, false)
    else
      var before := Gather(limit, slots, Front(answers));
      var a := Last(answers);
      if before.invalid then before
      else if a.Failed? then before.(invalid := a.invalidResponse)
      else
        var usage := AddCost(limit, before.usage, a.cost);
        if usage.None? then before.(invalid := true)
        else
          var slot := slots[|answers| - 1];
          Gathered(before.candidates + [Candidate(|before.candidates|, a.adapterId, slot.adapter.lineage, a.result,
                                                  a.actions, a.cost.n, None)], usage.value, false)
  }

  function Answers(w: World, slots: seq<Slot>): seq<Answer> {
    seq(|slots|, i requires 0 <= i < |slots| => w.answer(i, slots[i]))
  }

  predicate NeedsGate(a: Artifact) { a.CodeDiff? || a.Tests? }

  function Gated(candidates: seq<Candidate>, run: (nat, seq<Action>) -> bool): seq<Candidate> {
    seq(|candidates|, i requires 0 <= i < |candidates| => candidates[i].(gate := Some(run(i, candidates[i].actions))))
  }

  function Shown(candidates: seq<Candidate>): seq<Blind> {
    seq(|candidates|, i requires 0 <= i < |candidates| =>
      Blind(candidates[i].index, candidates[i].result, candidates[i].actions))
  }

  // ---------------------------------------------------------------- the judge round and the resolution

  predicate JudgeLoadBearing(a: Artifact) { a.Plan? || a.Reviews? }

  /** A judge round: still going, with a valid judgement or without, or the end of the call. */
  datatype Round = Going(valid: bool, usage: real) | Invalid | Crashed

  function JudgeRound(limit: real, usage: real, j: Judging): Round {
    match j
    case Judged(valid, cost) =>
      var next := AddCost(limit, usage, cost);
      if next.None? then Invalid else Going(valid, next.value)
    case NoReviewer => Going(false, usage)
    case TransportFailure => Going(false, usage)
    case RefusedAsInvalid => Invalid
    case Crash => Crashed
  }

  function TestsResolution(candidates: seq<Candidate>): Resolution {
    if Green(candidates) == [] then Resolution(None, Some(NoGateSurvivor), [])
    else Resolution(Some(Winner(RedChecks(Paths(TestUnion(candidates))), TestUnion(candidates))), None, [])
  }

  function Mechanical(a: Artifact, candidates: seq<Candidate>): Resolution {
    match a
    case CodeDiff => ResolveCodeDiff(candidates)
    case Tests => TestsResolution(candidates)
    case Hypotheses => Resolution(Some(Winner(RankedHypotheses(Ranking(candidates)), [])), None, [])
    case Plan => ResolvePlan(candidates)
    case Reviews => FusionReviews.Review(candidates)
  }

  function Resolve(p: Profile, candidates: seq<Candidate>, affordable: bool, round: Round, panelSize: nat): Fusion
    requires round.Going?
  {
    if JudgeLoadBearing(p.artifact) && !round.valid then
      var reason := if affordable then JudgeInvalid else BudgetCap;
      Done(Outcome(None, Some(reason), [], Unavailable(reason), round.usage, panelSize))
    else
      var r := Mechanical(p.artifact, candidates);
      Done(Outcome(r.winner, r.reason, r.dissent, if round.valid then Analysis else NotLoadBearing, round.usage, panelSize))
  }

  /** The candidates as they are resolved: with gate evidence where the artifact needs it. */
  function Entrants(w: World, p: Profile, candidates: seq<Candidate>): seq<Candidate> {
    if NeedsGate(p.artifact) && w.gate.Some? then Gated(candidates, w.gate.value) else candidates
  }

  /** From the panel's answers on. */
  function AfterPanel(w: World, p: Profile, budget: real, slots: seq<Slot>): Fusion {
    var g := Gather(w.limit, slots, Answers(w, slots));
    if g.invalid then Escalate(InvalidResponse, g.usage, |slots|)
    else if |g.candidates| < 2 then Escalate(PanelDegraded, g.usage, |slots|)
    else if NeedsGate(p.artifact) && w.gate.None? then Escalate(NoGateSurvivor, g.usage, |slots|)
    else
      var candidates := Entrants(w, p, g.candidates);
      var affordable := budget - g.usage >= p.estimate;
      var round := if affordable then JudgeRound(w.limit, g.usage, w.judge(Shown(candidates))) else Going(false, g.usage);
      match round
      case Invalid => Escalate(InvalidResponse, g.usage, |slots|)
      case Crashed => Threw
      case Going(_, _) => Resolve(p, candidates, affordable, round, |slots|)
  }

  function Fuse(w: World, p: Profile, budget: Cost): Fusion
    requires p.estimate > 0.0
  {
    if !ValidCost(budget) then Escalate(InvalidResponse, 0.0, 0)
    else
      var size := PanelSize(p);
      if size.None? then Escalate(BudgetCap, 0.0, 0)
      else
        var slots := PlanPanel(w.eligible, p.diversity, size.value);
        if slots.None? || |slots.value| < 2 then Escalate(PanelDegraded, 0.0, 0)
        else AfterPanel(w, p, budget.n, slots.value)
  }

  // ---------------------------------------------------------------- the pipeline as it runs

  method RunFusion(w: World, p: Profile, budget: Cost) returns (r: Fusion)
    requires p.estimate > 0.0
    ensures r == Fuse(w, p, budget)
  {
    hide AfterPanel, PlanPanel;
    if !ValidCost(budget) { return Escalate(InvalidResponse, 0.0, 0); }
    var size := p.size;
    if size as real * p.estimate > p.budgetCap {
      var fit := (p.budgetCap / p.estimate).Floor;
      if fit < 2 { return Escalate(BudgetCap, 0.0, 0); }
      size := fit;
    }
    var panel := PlanPanel(w.eligible, p.diversity, size);
    if panel.None? || |panel.value| < 2 { return Escalate(PanelDegraded, 0.0, 0); }
    r := RunPanel(w, p, budget.n, panel.value);
  }

  method RunPanel(w: World, p: Profile, budget: real, slots: seq<Slot>) returns (r: Fusion)
    ensures r == AfterPanel(w, p, budget, slots)
  {
    hide Mechanical, Gather, Answers, Gated, Shown;
    var g := CollectCandidates(w, slots);
    if g.invalid { return Escalate(InvalidResponse, g.usage, |slots|); }
    var candidates, usage := g.candidates, g.usage;
    if |candidates| < 2 { return Escalate(PanelDegraded, usage, |slots|); }
    if NeedsGate(p.artifact) {
      if w.gate.None? { return Escalate(NoGateSurvivor, usage, |slots|); }
      candidates := GateAll(candidates, w.gate.value);
    }
    var remaining := budget - usage;
    var judgeValid := false;
    if remaining >= p.estimate {
      match w.judge(Shown(candidates)) {
        case Judged(valid, cost) =>
          var next := AddCost(w.limit, usage, cost);
          if next.None? { return Escalate(InvalidResponse, usage, |slots|); }
          usage := next.value;
          judgeValid := valid;
        case RefusedAsInvalid => return Escalate(InvalidResponse, usage, |slots|);
        case Crash => return Threw;
        case NoReviewer =>
        case TransportFailure =>
      }
    }
    if JudgeLoadBearing(p.artifact) && !judgeValid {
      var reason := if remaining >= p.estimate then JudgeInvalid else BudgetCap;
      return Done(Outcome(None, Some(reason), [], Unavailable(reason), usage, |slots|));
    }
    var resolution := ResolveMechanical(p.artifact, candidates);
    return Done(Outcome(resolution.winner, resolution.reason, resolution.dissent,
                        if judgeValid then Analysis else NotLoadBearing, usage, |slots|));
  }

  method CollectCandidates(w: World, slots: seq<Slot>) returns (g: Gathered)
    ensures g == Gather(w.limit, slots, Answers(w, slots))
  {
    ghost var answers := Answers(w, slots);
    var candidates: seq<Candidate> := [];
    var usage := 0.0;
    for i := 0 to |slots|
      invariant Gather(w.limit, slots, answers[..i]) == Gathered(candidates, usage, false)
    {
      assert Front(answers[..i + 1]) == answers[..i];
      match w.answer(i, slots[i]) {
        case Replied(adapterId, result, actions, cost) =>
          var next := AddCost(w.limit, usage, cost);
          if next.None? {
            StaysInvalid(w.limit, slots, answers, i + 1);
            return Gathered(candidates, usage, true);
          }
          usage := next.value;
          candidates := candidates + [Candidate(|candidates|, adapterId, slots[i].adapter.lineage, result, actions, cost.n, None)];
        case Failed(invalidResponse) =>
          if invalidResponse {
            StaysInvalid(w.limit, slots, answers, i + 1);
            return Gathered(candidates, usage, true);
          }
      }
    }
    assert answers[..|slots|] == answers;
    return Gathered(candidates, usage, false);
  }

  lemma {:induction false} StaysInvalid(limit: real, slots: seq<Slot>, answers: seq<Answer>, i: nat)
    requires i <= |answers| <= |slots| && Gather(limit, slots, answers[..i]).invalid
    ensures Gather(limit, slots, answers) == Gather(limit, slots, answers[..i])
    decreases |answers|
  {
    if i == |answers| {
      assert answers[..i] == answers;
    } else {
      assert Front(answers)[..i] == answers[..i];
      StaysInvalid(limit, slots, Front(answers), i);
    }
  }

  method GateAll(candidates: seq<Candidate>, run: (nat, seq<Action>) -> bool) returns (gated: seq<Candidate>)
    ensures gated == Gated(candidates, run)
  {
    gated := candidates;
    for i := 0 to |candidates|
      invariant |gated| == |candidates|
      invariant forall k :: 0 <= k < i ==> gated[k] == Gated(candidates, run)[k]
      invariant forall k :: i <= k < |gated| ==> gated[k] == candidates[k]
    {
      gated := gated[i := gated[i].(gate := Some(run(i, gated[i].actions)))];
    }
  }

  method ResolveMechanical(a: Artifact, candidates: seq<Candidate>) returns (r: Resolution)
    ensures r == Mechanical(a, candidates)
  {
    match a {
      case CodeDiff => r := ResolveCodeDiff(candidates);
      case Tests => r := ResolveTests(candidates);
      case Hypotheses => r := ResolveHypotheses(candidates);
      case Plan => r := ResolvePlan(candidates);
      case Reviews => r := FusionReviews.ResolveReviews(candidates);
    }
  }

  // ---------------------------------------------------------------- what the pipeline promises

  predicate EndsInvalid(f: Fusion) { f.Done? && f.outcome.reason == Some(InvalidResponse) }

  /**
   Judge independence: for code_diff, tests and hypotheses, two runs that differ in the
   judge alone, neither of which the judge ends as an invalid response or a crash, come to
   the same winner, reason and dissent.
   */
  lemma JudgeCannotMove(w: World, p: Profile, budget: Cost, other: Judge)
    requires p.estimate > 0.0 && (p.artifact.CodeDiff? || p.artifact.Tests? || p.artifact.Hypotheses?)
    requires var f, g := Fuse(w, p, budget), Fuse(w.(judge := other), p, budget);
             f.Done? && g.Done? && !EndsInvalid(f) && !EndsInvalid(g)
    ensures var f, g := Fuse(w, p, budget).outcome, Fuse(w.(judge := other), p, budget).outcome;
            && f.winner == g.winner && f.reason == g.reason && f.dissent == g.dissent && f.panelSize == g.panelSize
  {
    hide Mechanical, Gather, PlanPanel, PanelSize, Shown, Gated;
    var size := PanelSize(p);
    if ValidCost(budget) && size.Some? {
      var slots := PlanPanel(w.eligible, p.diversity, size.value);
      if slots.Some? {
        assert Answers(w, slots.value) == Answers(w.(judge := other), slots.value);
      }
    }
  }

  /** With two candidates or more, plan and reviews resolve exactly on a valid judgement. */
  lemma PlanAfterPanel(w: World, p: Profile, budget: real, slots: seq<Slot>)
    requires JudgeLoadBearing(p.artifact)
    requires var g := Gather(w.limit, slots, Answers(w, slots)); !g.invalid && |g.candidates| >= 2
    ensures var g := Gather(w.limit, slots, Answers(w, slots));
            var f := AfterPanel(w, p, budget, slots);
            && ((f.Done? && f.outcome.winner.Some?) <==>
                budget - g.usage >= p.estimate && JudgeRound(w.limit, g.usage, w.judge(Shown(g.candidates))).Going?
                && JudgeRound(w.limit, g.usage, w.judge(Shown(g.candidates))).valid)
            && (f.Done? && f.outcome.reason == Some(BudgetCap) <==> budget - g.usage < p.estimate)
  {
    hide Gather, Shown, FusionReviews.EntryOf, FusionReviews.KeysOf;
  }

  /** The panel a call seats, if it gets that far. */
  function PanelOf(w: World, p: Profile): Option<seq<Slot>>
    requires p.estimate > 0.0
  {
    var size := PanelSize(p);
    var slots := if size.None? then None else PlanPanel(w.eligible, p.diversity, size.value);
    if slots.None? || |slots.value| < 2 then None else slots
  }

  /** What the panel of a call answers; nothing without one. */
  function GatheredIn(w: World, p: Profile): Gathered
    requires p.estimate > 0.0
  {
    var panel := PanelOf(w, p);
    if panel.None? then Gathered([], 0.0, false) else Gather(w.limit, panel.value, Answers(w, panel.value))
  }

  /**
   A whole call for plan or reviews has a winner exactly when two candidates or more came of its
   panel, the judge's estimate was still affordable, and the judgement was valid.
   */
  lemma PlanNeedsTheJudge(w: World, p: Profile, budget: Cost)
    requires p.estimate > 0.0 && (p.artifact.Plan? || p.artifact.Reviews?)
    ensures var f, g := Fuse(w, p, budget), GatheredIn(w, p);
            (f.Done? && f.outcome.winner.Some?) <==>
              && ValidCost(budget) && !g.invalid && |g.candidates| >= 2 && budget.n - g.usage >= p.estimate
              && JudgeRound(w.limit, g.usage, w.judge(Shown(g.candidates))).Going?
              && JudgeRound(w.limit, g.usage, w.judge(Shown(g.candidates))).valid
  {
    hide PanelSize, PlanPanel, Gather, Shown, JudgeRound, Mechanical;
    var panel, g := PanelOf(w, p), GatheredIn(w, p);
    if ValidCost(budget) && panel.Some? && !g.invalid && |g.candidates| >= 2 {
      PlanAfterPanel(w, p, budget.n, panel.value);
    }
  }

  /**
   A call has a winner or a reason, never both and never neither; without a winner nothing is
   recorded as dissent; and a winner is what the artifact's own rule makes of two or more
   candidates, with their gate evidence where the artifact needs it.
   */
  lemma WinnerOrReason(w: World, p: Profile, budget: real, slots: seq<Slot>)
    requires AfterPanel(w, p, budget, slots).Done?
    ensures var o := AfterPanel(w, p, budget, slots).outcome;
            var g := Gather(w.limit, slots, Answers(w, slots));
            var entrants := Entrants(w, p, g.candidates);
            && (o.winner.Some? <==> o.reason.None?) && (o.winner.None? ==> o.dissent == [])
            && (o.winner.Some? ==> !g.invalid && |entrants| == |g.candidates| >= 2
                                   && o.winner == Mechanical(p.artifact, entrants).winner
                                   && o.dissent == Mechanical(p.artifact, entrants).dissent)
            && (p.artifact.CodeDiff? || p.artifact.Tests? ==>
                  (o.winner.Some? ==> exists c :: c in entrants && GateGreen(c)))
  {
    hide Gather, Shown;
    var entrants := Entrants(w, p, Gather(w.limit, slots, Answers(w, slots)).candidates);
    GreenAre(entrants);
    CodeDiffWinner(entrants);
    MechanicalIs(p.artifact, entrants);
    hide Mechanical, GateGreen;
  }

  lemma MechanicalIs(a: Artifact, candidates: seq<Candidate>)
    ensures var r := Mechanical(a, candidates);
            && (r.winner.Some? <==> r.reason.None?) && (r.winner.None? ==> r.dissent == [])
            && (a.CodeDiff? || a.Tests? ==> (r.winner.Some? <==> exists c :: c in candidates && GateGreen(c)))
  {
    GreenAre(candidates);
    CodeDiffWinner(candidates);
    if Green(candidates) != [] {
      assert Green(candidates)[0] in Green(candidates);
    }
    hide Green, GateGreen;
  }

  /** Slot `i` answered with a response whose actions the gate runner passed. */
  ghost predicate GreenAnswer(w: World, c: Candidate, i: nat, slots: seq<Slot>) {
    && i < |slots| && w.gate.Some?
    && w.answer(i, slots[i]).Replied? && w.answer(i, slots[i]).result == c.result && w.answer(i, slots[i]).actions == c.actions
    && w.gate.value(c.index, c.actions)
  }

  lemma {:induction false} GatheredFrom(limit: real, slots: seq<Slot>, answers: seq<Answer>, k: nat) returns (i: nat)
    requires |answers| <= |slots| && k < |Gather(limit, slots, answers).candidates|
    ensures var c := Gather(limit, slots, answers).candidates[k];
            && c.index == k && i < |answers| && answers[i].Replied?
            && answers[i].result == c.result && answers[i].actions == c.actions && slots[i].adapter.lineage == c.lineage
            && answers[i].cost == Units(c.cost) && answers[i].adapterId == c.adapterId && c.gate.None?
            && Responses(answers[..i]) == k
    decreases |answers|
  {
    var before := Gather(limit, slots, Front(answers));
    if k < |before.candidates| {
      i := GatheredFrom(limit, slots, Front(answers), k);
      assert Front(answers)[..i] == answers[..i];
    } else {
      i := |answers| - 1;
      NoneIsDropped(limit, slots, Front(answers));
    }
  }

  /** No chimera: a code_diff winner is the whole action list of one answer whose gate was green. */
  lemma CodeDiffIsOneAnswer(w: World, p: Profile, budget: real, slots: seq<Slot>) returns (c: Candidate, i: nat)
    requires p.artifact.CodeDiff?
    requires AfterPanel(w, p, budget, slots).Done? && AfterPanel(w, p, budget, slots).outcome.winner.Some?
    ensures GreenAnswer(w, c, i, slots)
    ensures AfterPanel(w, p, budget, slots).outcome.winner == Some(Winner(Whole(c.result), c.actions))
  {
    var g := Gather(w.limit, slots, Answers(w, slots));
    var gated := Gated(g.candidates, w.gate.value);
    CodeDiffWinner(gated);
    hide Gather, Green;
    var winner := ResolveCodeDiff(gated).winner.value;
    var k :| 0 <= k < |gated| && GateGreen(gated[k]) && IsCandidates(winner, gated[k]);
    i := GatheredFrom(w.limit, slots, Answers(w, slots), k);
    c := gated[k];
  }

  function Responses(answers: seq<Answer>): nat {
    if answers == [] then 0 else Responses(Front(answers)) + if Last(answers).Replied? then 1 else 0
  }

  /** Answer `k` may be counted: no invalid response, and a cost the usage before it can take. */
  ghost predicate Acceptable(limit: real, slots: seq<Slot>, answers: seq<Answer>, k: nat)
    requires k < |answers| <= |slots|
  {
    match answers[k]
    case Failed(invalidResponse) => !invalidResponse
    case Replied(_, _, _, cost) => AddCost(limit, Gather(limit, slots, answers[..k]).usage, cost).Some?
  }

  /** Every response becomes a candidate unless some answer cannot be accepted, which ends the call. */
  lemma {:induction false} NoneIsDropped(limit: real, slots: seq<Slot>, answers: seq<Answer>)
    requires |answers| <= |slots|
    ensures var g := Gather(limit, slots, answers);
            && (!g.invalid <==> forall k :: 0 <= k < |answers| ==> Acceptable(limit, slots, answers, k))
            && (!g.invalid ==> |g.candidates| == Responses(answers))
    decreases |answers|
  {
    if answers == [] {
    } else {
      var front, n := Front(answers), |answers| - 1;
      NoneIsDropped(limit, slots, front);
      forall k | 0 <= k < n ensures Acceptable(limit, slots, front, k) <==> Acceptable(limit, slots, answers, k) {
        assert front[..k] == answers[..k];
      }
      assert Acceptable(limit, slots, answers, n) || !Acceptable(limit, slots, answers, n);
      assert answers[..n] == front;
    }
  }

  /** What all responses together ask to be charged. */
  function Asked(answers: seq<Answer>): real {
    if answers == [] then 0.0
    else Asked(Front(answers)) + if Last(answers).Replied? && Last(answers).cost.Units? then Last(answers).cost.n else 0.0
  }

  /** No response is refused as invalid, and every cost is a finite amount and not negative. */
  ghost predicate WellBehaved(answers: seq<Answer>) {
    forall k :: 0 <= k < |answers| ==>
      match answers[k]
      case Failed(invalidResponse) => !invalidResponse
      case Replied(_, _, _, cost) => cost.Units? && cost.n >= 0.0
  }

  /** The panel's answers are accepted exactly when they are well behaved and together within the limit. */
  lemma {:induction false} AcceptedExactly(limit: real, slots: seq<Slot>, answers: seq<Answer>)
    requires |answers| <= |slots| && limit >= 0.0
    ensures var g := Gather(limit, slots, answers);
            && (!g.invalid <==> WellBehaved(answers) && Asked(answers) <= limit)
            && (!g.invalid ==> g.usage == Asked(answers))
    decreases |answers|
  {
    if answers == [] {
    } else {
      var front := Front(answers);
      AcceptedExactly(limit, slots, front);
      assert WellBehaved(answers) ==> WellBehaved(front) by {
        assert forall k :: 0 <= k < |front| ==> front[k] == answers[k];
      }
      if WellBehaved(front) {
        assert WellBehaved(answers) <==>
                 if Last(answers).Failed? then !Last(answers).invalidResponse else Last(answers).cost.Units? && Last(answers).cost.n >= 0.0 by {
          assert forall k :: 0 <= k < |front| ==> answers[k] == front[k];
          assert answers[|answers| - 1] == Last(answers);
        }
      }
    }
  }

  function TotalCost(candidates: seq<Candidate>): real {
    if candidates == [] then 0.0 else TotalCost(Front(candidates)) + Last(candidates).cost
  }

  /** Usage is conserved: the candidates' costs, each of them non-negative, and no more than the limit. */
  lemma {:induction false} UsageIsTheSum(limit: real, slots: seq<Slot>, answers: seq<Answer>)
    requires |answers| <= |slots| && limit >= 0.0
    ensures var g := Gather(limit, slots, answers);
            && g.usage == TotalCost(g.candidates) && 0.0 <= g.usage <= limit
            && forall c :: c in g.candidates ==> c.cost >= 0.0
    decreases |answers|
  {
    if answers == [] {
    } else {
      UsageIsTheSum(limit, slots, Front(answers));
      GatherStep(limit, slots, answers);
      hide Gather;
    }
  }

  /** One more answer adds one candidate with its cost, or nothing. */
  lemma GatherStep(limit: real, slots: seq<Slot>, answers: seq<Answer>)
    requires 0 < |answers| <= |slots|
    ensures var before, g := Gather(limit, slots, Front(answers)), Gather(limit, slots, answers);
            || (g.candidates == before.candidates && g.usage == before.usage)
            || (g.candidates != [] && Front(g.candidates) == before.candidates && Last(g.candidates).cost >= 0.0
                && g.usage == before.usage + Last(g.candidates).cost <= limit
                && forall c :: c in g.candidates <==> c in before.candidates || c == Last(g.candidates))
  {
  }

  /** What the judge adds to a call's usage: its cost, when the call reaches it and can take the cost. */
  function JudgeCharge(w: World, p: Profile, budget: real, g: Gathered): real {
    var reached := !g.invalid && |g.candidates| >= 2 && (NeedsGate(p.artifact) ==> w.gate.Some?) && budget - g.usage >= p.estimate;
    var judging := w.judge(Shown(Entrants(w, p, g.candidates)));
    if reached && judging.Judged? && AddCost(w.limit, g.usage, judging.cost).Some? then judging.cost.n else 0.0
  }

  lemma UsageAfterPanel(w: World, p: Profile, budget: real, slots: seq<Slot>)
    requires AfterPanel(w, p, budget, slots).Done?
    ensures var g, o := Gather(w.limit, slots, Answers(w, slots)), AfterPanel(w, p, budget, slots).outcome;
            o.usage == g.usage + JudgeCharge(w, p, budget, g) && o.panelSize == |slots|
  {
    hide Gather, Mechanical, Entrants, Shown;
  }

  /**
   Usage is conserved over a whole call: the costs of the candidates its panel gave, and the
   judge's; never more than the limit, and nothing when no panel was seated.
   */
  lemma UsageOfACall(w: World, p: Profile, budget: Cost)
    requires p.estimate > 0.0 && w.limit >= 0.0 && Fuse(w, p, budget).Done?
    ensures var o, panel, g := Fuse(w, p, budget).outcome, PanelOf(w, p), GatheredIn(w, p);
            if !ValidCost(budget) || panel.None? then o.usage == 0.0 && o.panelSize == 0
            else
              && o.usage == TotalCost(g.candidates) + JudgeCharge(w, p, budget.n, g)
              && 0.0 <= o.usage <= w.limit && o.panelSize == |panel.value|
  {
    hide PanelSize, PlanPanel, Gather, Shown, Entrants, Mechanical;
    var panel := PanelOf(w, p);
    if ValidCost(budget) && panel.Some? {
      UsageAfterPanel(w, p, budget.n, panel.value);
      UsageIsTheSum(w.limit, panel.value, Answers(w, panel.value));
    }
  }

  /** The judge sees every candidate's place, result and actions, and nothing else of it. */
  lemma JudgeIsBlind(some: seq<Candidate>, others: seq<Candidate>)
    ensures Shown(some) == Shown(others) <==>
              && |some| == |others|
              && forall i :: 0 <= i < |some| ==>
                   some[i].index == others[i].index && some[i].result == others[i].result && some[i].actions == others[i].actions
  {
    if Shown(some) == Shown(others) {
      assert |Shown(some)| == |some| && |Shown(others)| == |others|;
      forall i | 0 <= i < |some|
        ensures some[i].index == others[i].index && some[i].result == others[i].result && some[i].actions == others[i].actions
      {
        assert Shown(some)[i] == Shown(others)[i];
      }
    }
  }

  /**
   For code_diff and tests, a call the judge does not end has a winner exactly when two candidates
   or more came of the panel and the gate runner passed one of them.
   */
  lemma GateDecides(w: World, p: Profile, budget: real, slots: seq<Slot>)
    requires p.artifact.CodeDiff? || p.artifact.Tests?
    requires AfterPanel(w, p, budget, slots).Done? && !EndsInvalid(AfterPanel(w, p, budget, slots))
    ensures var g := Gather(w.limit, slots, Answers(w, slots));
            AfterPanel(w, p, budget, slots).outcome.winner.Some? <==>
              && |g.candidates| >= 2 && w.gate.Some?
              && exists k: nat :: k < |g.candidates| && w.gate.value(k, g.candidates[k].actions)
  {
    hide Gather, Shown, Mechanical;
    var g := Gather(w.limit, slots, Answers(w, slots));
    if w.gate.Some? {
      var gated := Gated(g.candidates, w.gate.value);
      MechanicalIs(p.artifact, gated);
      GreenWhenPassed(g.candidates, w.gate.value);
    }
  }

  lemma GreenWhenPassed(candidates: seq<Candidate>, run: (nat, seq<Action>) -> bool)
    ensures (exists c :: c in Gated(candidates, run) && GateGreen(c)) <==>
              exists k: nat :: k < |candidates| && run(k, candidates[k].actions)
  {
    var gated := Gated(candidates, run);
    if c :| c in gated && GateGreen(c) {
      var k: nat :| k < |gated| && gated[k] == c;
      assert run(k, candidates[k].actions);
    }
    if k: nat :| k < |candidates| && run(k, candidates[k].actions) {
      assert gated[k] in gated && GateGreen(gated[k]);
    }
  }

  /** A plan that wins is the answer of the first slot that responded, whole. */
  lemma PlanIsFirstResponse(w: World, p: Profile, budget: real, slots: seq<Slot>) returns (i: nat)
    requires p.artifact.Plan?
    requires AfterPanel(w, p, budget, slots).Done? && AfterPanel(w, p, budget, slots).outcome.winner.Some?
    ensures i < |slots| && w.answer(i, slots[i]).Replied?
    ensures var a := w.answer(i, slots[i]);
            AfterPanel(w, p, budget, slots).outcome.winner == Some(Winner(Whole(a.result), a.actions))
    ensures forall j :: 0 <= j < i ==> w.answer(j, slots[j]).Failed?
  {
    hide Gather, Shown, JudgeRound, FusionReviews.KeysOf, FusionReviews.EntryOf;
    var answers := Answers(w, slots);
    i := GatheredFrom(w.limit, slots, answers, 0);
    NoResponses(answers[..i]);
    assert forall j :: 0 <= j < i ==> answers[..i][j] == w.answer(j, slots[j]);
  }

  lemma {:induction false} NoResponses(answers: seq<Answer>)
    requires Responses(answers) == 0
    ensures forall j :: 0 <= j < |answers| ==> answers[j].Failed?
  {
    if answers == [] {
    } else {
      NoResponses(Front(answers));
      assert forall j :: 0 <= j < |answers| - 1 ==> answers[j] == Front(answers)[j];
    }
  }

  /** What is said of the deliberation agrees with how the call ended. */
  lemma DeliberationIs(w: World, p: Profile, budget: real, slots: seq<Slot>)
    requires AfterPanel(w, p, budget, slots).Done?
    ensures var o, g := AfterPanel(w, p, budget, slots).outcome, Gather(w.limit, slots, Answers(w, slots));
            var judging := w.judge(Shown(Entrants(w, p, g.candidates)));
            && (o.deliberation.Unavailable? || o.deliberation.NotReached? ==> o.reason == Some(o.deliberation.reason) && o.winner.None?)
            && (o.deliberation.Unavailable? ==> p.artifact.Plan? || p.artifact.Reviews?)
            && (o.deliberation == Analysis ==>
                  budget - g.usage >= p.estimate && judging.Judged? && judging.valid)
            && (o.deliberation == NotLoadBearing ==>
                  !p.artifact.Plan? && !p.artifact.Reviews? && (budget - g.usage >= p.estimate ==> !(judging.Judged? && judging.valid)))
  {
    hide Gather, Shown, Entrants, Mechanical;
  }
}
