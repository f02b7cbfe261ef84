/** The task state machine: which trigger leads from which state to which. */
module TaskMachine {
  import opened Common

  datatype TaskState =
    | Proposed | Analyzing | Ready | Implementing | Verifying | Failed | Diagnosing | Repairing | Passed | Reviewing
    | ChangesRequested | Approved | MergeQueued | Audited | Completed | Blocked | Escalated | Cancelled | RolledBack
    | Quarantined | Paused

  datatype Trigger =
    | Analyze | MakeReady | StartImplementing | Verify | GateFailed | GatePassed | Diagnose | Repair | Review
    | RequestChanges | HumanApproved | AutoApproved | QueueMerge | Audit | Complete
    | Block | Escalate | Cancel | RollBack | Quarantine | Pause

  predicate Active(state: TaskState) {
    match state
    case Approved | Completed | Blocked | Escalated | Cancelled | RolledBack | Quarantined | Paused => false
    case _ => true
  }

  /** Where the escapes that are open from every active state lead. */
  function Universal(trigger: Trigger): Option<TaskState> {
    match trigger
    case Block => Some(Blocked)
    case Escalate => Some(Escalated)
    case Cancel => Some(Cancelled)
    case RollBack => Some(RolledBack)
    case Quarantine => Some(Quarantined)
    case Pause => Some(Paused)
    case _ => None
  }

  function Table(state: TaskState, trigger: Trigger): Option<TaskState> {
    match (state, trigger)
    case (Proposed, Analyze) => Some(Analyzing)
    case (Analyzing, MakeReady) => Some(Ready)
    case (Ready, StartImplementing) => Some(Implementing)
    case (Implementing, Verify) => Some(Verifying)
    case (Verifying, GateFailed) => Some(Failed)
    case (Verifying, GatePassed) => Some(Passed)
    case (Failed, Diagnose) => Some(Diagnosing)
    case (Diagnosing, Repair) => Some(Repairing)
    case (Repairing, Verify) => Some(Verifying)
    case (Passed, Review) => Some(Reviewing)
    case (Reviewing, RequestChanges) => Some(ChangesRequested)
    case (Reviewing, HumanApproved) => Some(Approved)
    case (Reviewing, AutoApproved) => Some(Approved)
    case (ChangesRequested, Repair) => Some(Repairing)
    case (Approved, QueueMerge) => Some(MergeQueued)
    case (MergeQueued, Audit) => Some(Audited)
    case (Audited, Complete) => Some(Completed)
    case _ => None
  }

  function Transition(state: TaskState, trigger: Trigger): Option<TaskState> {
    var universal := Universal(trigger);
    if universal.None? then Table(state, trigger)
    else if Active(state) || state.Paused? then universal
    else None
  }

  /** The moves the human plane can make of a task that is not the one executing. */
  predicate HumanMove(from: TaskState, to: TaskState) {
    || Transition(from, HumanApproved) == Some(to) || Transition(from, RequestChanges) == Some(to)
    || Transition(from, Escalate) == Some(to) || Transition(from, Quarantine) == Some(to)
  }

  /** The states that satisfy a dependency. */
  predicate DepSatisfied(state: TaskState) {
    state.Passed? || state.Reviewing? || state.Approved? || state.MergeQueued? || state.Audited? || state.Completed?
  }

  /** How a task that passed its gate goes on when nobody rejects or ends it. */
  function Onwards(state: TaskState): Option<TaskState> {
    match state
    case Passed => Transition(state, Review)
    case Reviewing => Transition(state, HumanApproved)
    case Approved => Transition(state, QueueMerge)
    case MergeQueued => Transition(state, Audit)
    case Audited => Transition(state, Complete)
    case _ => None
  }

  function AfterPassing(n: nat): Option<TaskState> {
    if n == 0 then Some(Passed) else if AfterPassing(n - 1).Some? then Onwards(AfterPassing(n - 1).value) else None
  }

  /** A dependency is satisfied from the moment it passed on, however far it has come towards completion. */
  lemma SatisfiedFromPassing(state: TaskState)
    ensures DepSatisfied(state) <==> exists n: nat :: AfterPassing(n) == Some(state)
  {
    OnwardsFromPassing();
    hide Onwards;
    assert AfterPassing(0) == Some(Passed) && AfterPassing(1) == Some(Reviewing) && AfterPassing(2) == Some(Approved);
    assert AfterPassing(3) == Some(MergeQueued);
    assert AfterPassing(4) == Some(Audited);
    assert AfterPassing(5) == Some(Completed);
    if n: nat :| AfterPassing(n) == Some(state) {
      OnwardsIsSatisfied(n);
      assert AfterPassing(n).value == state;
      assert DepSatisfied(AfterPassing(n).value);
      assert DepSatisfied(state);
    }
  }

  lemma OnwardsFromPassing()
    ensures Onwards(Passed) == Some(Reviewing) && Onwards(Reviewing) == Some(Approved) && Onwards(Approved) == Some(MergeQueued)
    ensures Onwards(MergeQueued) == Some(Audited) && Onwards(Audited) == Some(Completed)
  {
  }

  lemma {:induction false} OnwardsIsSatisfied(n: nat)
    ensures AfterPassing(n).Some? ==> DepSatisfied(AfterPassing(n).value)
  {
    if n == 0 {
    } else {
      OnwardsIsSatisfied(n - 1);
    }
  }

  /** Where a series of triggers leads, if each is legal where it comes. */
  function Walk(state: TaskState, triggers: seq<Trigger>): Option<TaskState>
    decreases |triggers|
  {
    if triggers == [] then Some(state)
    else if Transition(state, triggers[0]).None? then None
    else Walk(Transition(state, triggers[0]).value, triggers[1..])
  }

  function FailedRounds(n: nat): seq<Trigger> {
    if n == 0 then [] else [GateFailed, Diagnose, Repair, Verify] + FailedRounds(n - 1)
  }

  lemma WalkStep(state: TaskState, next: TaskState, trigger: Trigger, rest: seq<Trigger>)
    requires Transition(state, trigger) == Some(next)
    ensures Walk(state, [trigger] + rest) == Walk(next, rest)
  {
    assert ([trigger] + rest)[1..] == rest;
    hide Transition;
  }

  /** However often its gate fails, a task can be diagnosed, repaired and brought back before the gate. */
  lemma {:induction false} RepairsLeadBack(n: nat, more: seq<Trigger>)
    ensures Walk(Verifying, FailedRounds(n) + more) == Walk(Verifying, more)
  {
    if n == 0 {
      assert [] + more == more;
    } else {
      var rest := FailedRounds(n - 1) + more;
      assert FailedRounds(n) + more == [GateFailed] + ([Diagnose] + ([Repair] + ([Verify] + rest)));
      OneRound();
      hide Transition, Walk;
      WalkStep(Verifying, Failed, GateFailed, [Diagnose] + ([Repair] + ([Verify] + rest)));
      WalkStep(Failed, Diagnosing, Diagnose, [Repair] + ([Verify] + rest));
      WalkStep(Diagnosing, Repairing, Repair, [Verify] + rest);
      WalkStep(Repairing, Verifying, Verify, rest);
      RepairsLeadBack(n - 1, more);
    }
  }

  lemma OneRound()
    ensures Transition(Verifying, GateFailed) == Some(Failed) && Transition(Failed, Diagnose) == Some(Diagnosing)
    ensures Transition(Diagnosing, Repair) == Some(Repairing) && Transition(Repairing, Verify) == Some(Verifying)
  {
  }

  lemma ToTheGate()
    ensures Transition(Proposed, Analyze) == Some(Analyzing) && Transition(Analyzing, MakeReady) == Some(Ready)
    ensures Transition(Ready, StartImplementing) == Some(Implementing) && Transition(Implementing, Verify) == Some(Verifying)
    ensures Transition(Verifying, GatePassed) == Some(Passed)
  {
  }

  /** From proposed to passed: after any number of failed rounds. */
  lemma PassesInTheEnd(n: nat)
    ensures Walk(Proposed, [Analyze] + ([MakeReady] + ([StartImplementing] + ([Verify] + (FailedRounds(n) + [GatePassed]))))) == Some(Passed)
  {
    var rest := FailedRounds(n) + [GatePassed];
    ToTheGate();
    hide Transition;
    WalkStep(Proposed, Analyzing, Analyze, [MakeReady] + ([StartImplementing] + ([Verify] + rest)));
    WalkStep(Analyzing, Ready, MakeReady, [StartImplementing] + ([Verify] + rest));
    WalkStep(Ready, Implementing, StartImplementing, [Verify] + rest);
    WalkStep(Implementing, Verifying, Verify, rest);
    RepairsLeadBack(n, [GatePassed]);
    WalkStep(Verifying, Passed, GatePassed, []);
    assert [GatePassed] + [] == [GatePassed] && Walk(Passed, []) == Some(Passed);
  }

  /** A task is at its end in six states; every other one has a way on. */
  lemma EndsAre(state: TaskState)
    ensures (forall trigger :: Transition(state, trigger) == None) <==>
              || state.Completed? || state.Blocked? || state.Escalated? || state.Cancelled? || state.RolledBack?
              || state.Quarantined?
  {
    if Active(state) || state.Paused? {
      assert Transition(state, Cancel) == Some(Cancelled);
    } else if state.Approved? {
      assert Transition(state, QueueMerge) == Some(MergeQueued);
    }
  }

  predicate EndedByHand(state: TaskState) { state.Escalated? || state.Quarantined? }

  /**
   What the human plane can do to a satisfied dependency: approve or reject one under review,
   and end any that is neither approved nor completed; those two it cannot touch.
   */
  lemma HumanMovesOf(from: TaskState, to: TaskState)
    requires DepSatisfied(from)
    ensures HumanMove(from, to) <==>
              || (from.Reviewing? && (to.Approved? || to.ChangesRequested?))
              || (!from.Approved? && !from.Completed? && EndedByHand(to))
  {
    assert Transition(from, HumanApproved) == if from.Reviewing? then Some(Approved) else None;
    assert Transition(from, RequestChanges) == if from.Reviewing? then Some(ChangesRequested) else None;
    assert Transition(from, Escalate) == if Active(from) then Some(Escalated) else None;
    assert Transition(from, Quarantine) == if Active(from) then Some(Quarantined) else None;
    hide Transition;
  }

  /** A task nobody started can only be ended by hand. */
  lemma HumansOnlyEnd(from: TaskState, to: TaskState)
    requires (from.Proposed? || EndedByHand(from)) && HumanMove(from, to)
    ensures EndedByHand(to)
  {
    assert Transition(from, HumanApproved) == None == Transition(from, RequestChanges);
    assert Transition(from, Escalate).Some? ==> Transition(from, Escalate) == Some(Escalated);
    assert Transition(from, Quarantine).Some? ==> Transition(from, Quarantine) == Some(Quarantined);
    hide Transition;
  }
}
