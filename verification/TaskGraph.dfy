/**
 The multi-task driver: kill-poll, select, claim, execute, close, until nothing is
 eligible; then the SKIPPED fixpoint and the run-level state.
 */
module TaskGraph {
  import opened Common
  import opened TaskMachine

  datatype Task = Task(id: string, dependsOn: seq<string>)
  /** A TASK_STATE event of this run. */
  datatype Event = Event(taskId: string, state: TaskState)
  datatype Outcome = Outcome(finalState: string, iterations: nat, reachedReviewing: bool)
  datatype Execution = Execution(outcome: Outcome, events: seq<Event>)
  datatype Claim = Held | LostAfterClaim | LostBeforeCheckout | Owned

  /** Indexed by the turn of the loop, so that any adaptive environment is one of these. */
  datatype Env = Env(kill: nat -> bool, claim: (nat, string) -> Claim, run: (nat, string) -> Execution)

  // ---------------------------------------------------------------- projection and selection

  function LatestState(log: seq<Event>, id: string): Option<TaskState> {
    if log == [] then None
    else if Last(log).taskId == id then Some(Last(log).state)
    else LatestState(Front(log), id)
  }

  predicate Satisfied(log: seq<Event>, id: string) {
    LatestState(log, id).Some? && DepSatisfied(LatestState(log, id).value)
  }

  predicate Started(log: seq<Event>, closed: set<string>, id: string) {
    id in closed || LatestState(log, id).Some?
  }

  predicate DepsSatisfied(log: seq<Event>, task: Task) {
    forall dep :: dep in task.dependsOn ==> Satisfied(log, dep)
  }

  predicate Eligible(log: seq<Event>, closed: set<string>, task: Task) {
    !Started(log, closed, task.id) && DepsSatisfied(log, task)
  }

  /** Selection in graph file order. */
  function Select(g: seq<Task>, log: seq<Event>, closed: set<string>): Option<Task> {
    if g == [] then None
    else if Eligible(log, closed, g[0]) then Some(g[0])
    else Select(g[1..], log, closed)
  }

  ghost predicate FirstEligible(g: seq<Task>, log: seq<Event>, closed: set<string>, i: nat) {
    && i < |g| && Eligible(log, closed, g[i])
    && forall j :: 0 <= j < i ==> !Eligible(log, closed, g[j])
  }

  /** The first eligible task in file order, and none only when no task is eligible. */
  lemma {:induction false} SelectsFirstEligible(g: seq<Task>, log: seq<Event>, closed: set<string>)
    ensures Select(g, log, closed).None? ==> forall t :: t in g ==> !Eligible(log, closed, t)
    ensures forall task :: Select(g, log, closed) == Some(task) ==> task in g && Eligible(log, closed, task)
    ensures forall task :: Select(g, log, closed) == Some(task) ==>
              exists i: nat :: FirstEligible(g, log, closed, i) && g[i] == task
  {
    if g == [] {
    } else {
      if Eligible(log, closed, g[0]) {
        assert FirstEligible(g, log, closed, 0) && g[0] in g;
      } else {
        SelectsFirstEligible(g[1..], log, closed);
        forall task | Select(g, log, closed) == Some(task)
          ensures exists i: nat :: FirstEligible(g, log, closed, i) && g[i] == task
        {
          var i: nat :| FirstEligible(g[1..], log, closed, i) && g[1..][i] == task;
          assert g[i + 1] == g[1..][i];
          forall j | 0 <= j < i + 1 ensures !Eligible(log, closed, g[j]) {
            if j > 0 { assert g[j] == g[1..][j - 1]; }
          }
          assert FirstEligible(g, log, closed, i + 1);
        }
      }
    }
  }

  method SelectNextTask(g: seq<Task>, log: seq<Event>, closed: set<string>) returns (task: Option<Task>)
    ensures task == Select(g, log, closed)
  {
    assert g[0..] == g;
    for k := 0 to |g|
      invariant Select(g[k..], log, closed) == Select(g, log, closed)
    {
      assert g[k..][1..] == g[k + 1..];
      if Started(log, closed, g[k].id) { continue; }
      if forall dep :: dep in g[k].dependsOn ==> Satisfied(log, dep) { return Some(g[k]); }
    }
    return None;
  }

  // ---------------------------------------------------------------- the loop

  /** One execution: which task, and the log it started from. */
  datatype Start = Start(task: Task, before: seq<Event>)

  datatype Progress = Progress(
    turn: nat,
    log: seq<Event>,
    closed: set<string>,
    outcomes: map<string, Outcome>,
    heldOut: seq<bool>,
    order: seq<Start>)

  const INIT := Progress(0, [], {}, map[], [], [])

  function Ids(g: seq<Task>): set<string> {
    set t | t in g :: t.id
  }

  /** What claiming and, if the claim holds, executing `task` does to the run. */
  function Turn(env: Env, p: Progress, task: Task): Progress {
    var next := p.(turn := p.turn + 1, closed := p.closed + {task.id});
    if env.claim(p.turn, task.id) != Owned then next
    else
      var e := env.run(p.turn, task.id);
      next.(log := p.log + e.events,
            outcomes := p.outcomes[task.id := e.outcome],
            heldOut := p.heldOut + [e.outcome.reachedReviewing],
            order := p.order + [Start(task, p.log)])
  }

  datatype Ended = Ended(p: Progress, killed: bool)

  function Drive(g: seq<Task>, env: Env, p: Progress): Ended
    decreases Ids(g) - p.closed
  {
    if env.kill(p.turn) then Ended(p, true)
    else
      var task := Select(g, p.log, p.closed);
      if task.None? then Ended(p, false)
      else
        SelectsFirstEligible(g, p.log, p.closed);
        Drive(g, env, Turn(env, p, task.value))
  }

  // ---------------------------------------------------------------- what every turn keeps

  ghost predicate Executed(p: Progress, upTo: nat, id: string)
    requires upTo <= |p.order|
  {
    exists k :: 0 <= k < upTo && p.order[k].task.id == id
  }

  ghost predicate Inv(g: seq<Task>, p: Progress) {
    && p.outcomes.Keys <= p.closed <= Ids(g)
    && (forall id :: id in p.outcomes <==> Executed(p, |p.order|, id))
    && (forall j, k :: 0 <= j < k < |p.order| ==> p.order[j].task.id != p.order[k].task.id)
    && (forall k :: 0 <= k < |p.order| ==>
          && p.order[k].task in g
          && LatestState(p.order[k].before, p.order[k].task.id).None?
          && DepsSatisfied(p.order[k].before, p.order[k].task))
  }

  lemma TurnKeepsInv(g: seq<Task>, env: Env, p: Progress, task: Task)
    requires Inv(g, p) && task in g && Eligible(p.log, p.closed, task)
    ensures Inv(g, Turn(env, p, task))
  {
    var q := Turn(env, p, task);
    if q.order != p.order {
      assert q.order[|p.order|].task.id == task.id;
      forall id ensures id in q.outcomes <==> Executed(q, |q.order|, id) {
        if id != task.id && id in p.outcomes {
          var k :| 0 <= k < |p.order| && p.order[k].task.id == id;
          assert q.order[k].task.id == id;
        }
        if Executed(q, |q.order|, id) && id != task.id {
          var k :| 0 <= k < |q.order| && q.order[k].task.id == id;
          assert p.order[k].task.id == id;
        }
      }
      forall k | 0 <= k < |p.order| ensures p.order[k].task.id != task.id {
        assert Executed(p, |p.order|, p.order[k].task.id);
      }
    }
  }

  ghost predicate UniqueIds(g: seq<Task>) {
    forall t, u :: t in g && u in g && t.id == u.id ==> t == u
  }

  lemma {:induction false} DriveKeepsInv(g: seq<Task>, env: Env, p: Progress)
    requires Inv(g, p)
    ensures Inv(g, Drive(g, env, p).p)
    ensures p.order <= Drive(g, env, p).p.order
    decreases Ids(g) - p.closed
  {
    if !env.kill(p.turn) {
      SelectsFirstEligible(g, p.log, p.closed);
      var task := Select(g, p.log, p.closed);
      if task.Some? {
        TurnKeepsInv(g, env, p, task.value);
        DriveKeepsInv(g, env, Turn(env, p, task.value));
      }
    }
  }

  /** A loop that was not killed ends only when nothing is eligible any more. */
  lemma {:induction false} DriveExhausts(g: seq<Task>, env: Env, p: Progress)
    ensures var e := Drive(g, env, p);
            !e.killed ==> forall t :: t in g ==> !Eligible(e.p.log, e.p.closed, t)
    decreases Ids(g) - p.closed
  {
    if !env.kill(p.turn) {
      SelectsFirstEligible(g, p.log, p.closed);
      var task := Select(g, p.log, p.closed);
      if task.Some? {
        DriveExhausts(g, env, Turn(env, p, task.value));
      }
    }
  }

  // ---------------------------------------------------------------- the claims of a run

  /** A task as it was claimed: the run so far, and the task it selected. */
  datatype Claimed = Claimed(task: Task, at: Progress)

  /** Every claim of the loop from `p` on, in order. */
  function Claims(g: seq<Task>, env: Env, p: Progress): seq<Claimed>
    decreases Ids(g) - p.closed
  {
    if env.kill(p.turn) then []
    else
      var task := Select(g, p.log, p.closed);
      if task.None? then []
      else
        SelectsFirstEligible(g, p.log, p.closed);
        [Claimed(task.value, p)] + Claims(g, env, Turn(env, p, task.value))
  }

  /** What reached the log while a claimed task executed; nothing when it did not. */
  function EventsOf(env: Env, c: Claimed): seq<Event> {
    if env.claim(c.at.turn, c.task.id) == Owned then env.run(c.at.turn, c.task.id).events else []
  }

  /** The first claim, and the run after it. */
  lemma FirstClaim(g: seq<Task>, env: Env, p: Progress) returns (c: Claimed, next: Progress)
    requires Claims(g, env, p) != []
    ensures c.at == p && c.task in g && Eligible(p.log, p.closed, c.task) && next == Turn(env, p, c.task)
    ensures Claims(g, env, p) == [c] + Claims(g, env, next)
    ensures Drive(g, env, p) == Drive(g, env, next)
    ensures next.log == p.log + EventsOf(env, c)
    ensures c in Claims(g, env, p) && forall d :: d in Claims(g, env, next) ==> d in Claims(g, env, p)
  {
    SelectsFirstEligible(g, p.log, p.closed);
    c := Claims(g, env, p)[0];
    next := Turn(env, p, c.task);
    assert p.log + [] == p.log;
  }

  ghost predicate ClaimedIn(cs: seq<Claimed>, id: string) { exists c :: c in cs && c.task.id == id }

  ghost predicate WonIn(env: Env, cs: seq<Claimed>, id: string) {
    exists c :: c in cs && c.task.id == id && env.claim(c.at.turn, id) == Owned
  }

  /** The id was claimed in some turn, and the claim was lost. */
  ghost predicate RefusedIn(env: Env, cs: seq<Claimed>, id: string) {
    exists c :: c in cs && c.task.id == id && env.claim(c.at.turn, id) != Owned
  }

  lemma NoClaims(g: seq<Task>, env: Env, p: Progress)
    requires Claims(g, env, p) == []
    ensures Drive(g, env, p).p == p
  {
    SelectsFirstEligible(g, p.log, p.closed);
  }

  /** Turn after turn one task is claimed, and none that was closed before. */
  lemma {:induction false} ClaimsAreTurns(g: seq<Task>, env: Env, p: Progress)
    ensures var cs := Claims(g, env, p);
            && Drive(g, env, p).p.turn == p.turn + |cs|
            && (forall n :: 0 <= n < |cs| ==> cs[n].at.turn == p.turn + n && cs[n].task.id !in p.closed)
            && (forall m, n :: 0 <= m < n < |cs| ==> cs[m].task.id != cs[n].task.id)
    decreases |Claims(g, env, p)|
  {
    if Claims(g, env, p) == [] {
      SelectsFirstEligible(g, p.log, p.closed);
    } else {
      var c, next := FirstClaim(g, env, p);
      ClaimsAreTurns(g, env, next);
      var rest := Claims(g, env, next);
      assert forall n :: 0 < n <= |rest| ==> ([c] + rest)[n] == rest[n - 1];
    }
  }

  /** The closed tasks are those claimed, and those with an outcome the ones whose claim was won. */
  lemma {:induction false} ClaimsClose(g: seq<Task>, env: Env, p: Progress, id: string)
    ensures var cs, q := Claims(g, env, p), Drive(g, env, p).p;
            && (id in q.closed <==> id in p.closed || ClaimedIn(cs, id))
            && (id in q.outcomes <==> id in p.outcomes || WonIn(env, cs, id))
    decreases |Claims(g, env, p)|
  {
    if Claims(g, env, p) == [] {
      SelectsFirstEligible(g, p.log, p.closed);
    } else {
      var c, next := FirstClaim(g, env, p);
      ClaimsClose(g, env, next, id);
      var rest := Claims(g, env, next);
      assert forall d :: d in [c] + rest <==> d == c || d in rest;
    }
  }

  /** The claims that were won, in order. */
  function Won(env: Env, cs: seq<Claimed>): seq<Claimed> {
    if cs == [] then []
    else (if env.claim(cs[0].at.turn, cs[0].task.id) == Owned then [cs[0]] else []) + Won(env, cs[1..])
  }

  /** What the execution of a claimed task returned. */
  function Returned(env: Env, c: Claimed): Outcome { env.run(c.at.turn, c.task.id).outcome }

  function ReachedReviewing(env: Env, won: seq<Claimed>): seq<bool> {
    seq(|won|, i requires 0 <= i < |won| => Returned(env, won[i]).reachedReviewing)
  }

  function Starts(won: seq<Claimed>): seq<Start> {
    seq(|won|, i requires 0 <= i < |won| => Start(won[i].task, won[i].at.log))
  }

  /** Everything the executions logged, in the order of the claims. */
  function Logged(env: Env, cs: seq<Claimed>): seq<Event> {
    if cs == [] then [] else EventsOf(env, cs[0]) + Logged(env, cs[1..])
  }

  lemma FirstWon(env: Env, c: Claimed, rest: seq<Claimed>)
    ensures var both := Won(env, [c] + rest);
            && ReachedReviewing(env, both) == ReachedReviewing(env, Won(env, [c])) + ReachedReviewing(env, Won(env, rest))
            && Starts(both) == Starts(Won(env, [c])) + Starts(Won(env, rest))
    ensures Logged(env, [c] + rest) == EventsOf(env, c) + Logged(env, rest)
  {
    assert ([c] + rest)[1..] == rest && [c][1..] == [];
    assert Won(env, [c] + rest) == Won(env, [c]) + Won(env, rest);
  }

  /**
   A run is what its claims make of it: the log is what the executions logged, each won claim
   has one start and one held-out sample, in order, and the outcome recorded for its task is the
   one that execution returned.
   */
  lemma {:induction false} RunIsItsClaims(g: seq<Task>, env: Env, p: Progress)
    ensures var cs, q := Claims(g, env, p), Drive(g, env, p).p;
            && q.log == p.log + Logged(env, cs)
            && q.heldOut == p.heldOut + ReachedReviewing(env, Won(env, cs))
            && q.order == p.order + Starts(Won(env, cs))
    decreases |Claims(g, env, p)|
  {
    hide Drive, Claims, Turn, Eligible;
    if Claims(g, env, p) == [] {
      NoClaims(g, env, p);
      assert p.log + [] == p.log && p.heldOut + [] == p.heldOut && p.order + [] == p.order;
    } else {
      var c, next := FirstClaim(g, env, p);
      hide *;
      var rest := Claims(g, env, next);
      RunIsItsClaims(g, env, next);
      FirstWon(env, c, rest);
      TurnIsItsClaim(env, c, next);
      var one := Won(env, [c]);
      Regroup(p.log, EventsOf(env, c), Logged(env, rest));
      Regroup(p.heldOut, ReachedReviewing(env, one), ReachedReviewing(env, Won(env, rest)));
      Regroup(p.order, Starts(one), Starts(Won(env, rest)));
    }
  }

  lemma TurnIsItsClaim(env: Env, c: Claimed, next: Progress)
    requires next == Turn(env, c.at, c.task)
    ensures next.heldOut == c.at.heldOut + ReachedReviewing(env, Won(env, [c]))
    ensures next.order == c.at.order + Starts(Won(env, [c]))
  {
    assert [c][1..] == [];
  }

  lemma {:induction false} OutcomesAreReturned(g: seq<Task>, env: Env, p: Progress, id: string)
    ensures var cs, q := Claims(g, env, p), Drive(g, env, p).p;
            && (forall c :: c in cs && c.task.id == id && env.claim(c.at.turn, id) == Owned ==>
                  id in q.outcomes && q.outcomes[id] == Returned(env, c))
            && (id in p.outcomes && !ClaimedIn(cs, id) ==> id in q.outcomes && q.outcomes[id] == p.outcomes[id])
    decreases |Claims(g, env, p)|
  {
    if Claims(g, env, p) == [] {
      SelectsFirstEligible(g, p.log, p.closed);
    } else {
      var c, next := FirstClaim(g, env, p);
      var rest := Claims(g, env, next);
      OutcomesAreReturned(g, env, next, id);
      ClaimsAreTurns(g, env, next);
      hide Claims, Drive;
      assert forall d :: d in [c] + rest <==> d == c || d in rest;
      if d :| d in rest && d.task.id == c.task.id {
        var n :| 0 <= n < |rest| && rest[n] == d;
        assert rest[n].task.id !in next.closed;
      }
    }
  }

  /** The kill is polled once before each selection: the run stops at the first poll that asks for it. */
  lemma {:induction false} KillStopsTheRun(g: seq<Task>, env: Env, p: Progress)
    ensures var e := Drive(g, env, p);
            && (e.killed <==> env.kill(e.p.turn))
            && (forall n :: p.turn <= n < e.p.turn ==> !env.kill(n))
    decreases |Claims(g, env, p)|
  {
    if Claims(g, env, p) == [] {
      SelectsFirstEligible(g, p.log, p.closed);
    } else {
      var c, next := FirstClaim(g, env, p);
      KillStopsTheRun(g, env, next);
    }
  }

  // ---------------------------------------------------------------- SKIPPED

  ghost predicate Edge(g: seq<Task>, from: string, to: string) {
    exists t :: t in g && t.id == from && to in t.dependsOn
  }

  /** A dependency path whose tasks, the last one apart, never executed. */
  ghost predicate Path(g: seq<Task>, done: set<string>, path: seq<string>) {
    && path != []
    && forall k :: 0 <= k < |path| - 1 ==> path[k] !in done && Edge(g, path[k], path[k + 1])
  }

  ghost predicate DeadPath(g: seq<Task>, done: set<string>, log: seq<Event>, path: seq<string>) {
    Path(g, done, path) && |path| >= 2 && Last(path) in done && !Satisfied(log, Last(path))
  }

  /** Some dependency path through never-executed tasks ends at one that executed and did not satisfy. */
  ghost predicate Unreachable(g: seq<Task>, done: set<string>, log: seq<Event>, id: string) {
    exists path :: DeadPath(g, done, log, path) && path[0] == id
  }

  predicate Dead(t: Task, done: set<string>, skipped: set<string>, log: seq<Event>) {
    exists dep :: dep in t.dependsOn && (dep in skipped || (dep in done && !Satisfied(log, dep)))
  }

  /** A labelling the fixpoint loop would leave alone. */
  ghost predicate SkipClosed(g: seq<Task>, done: set<string>, skipped: set<string>, log: seq<Event>) {
    forall t :: t in g && t.id !in done && Dead(t, done, skipped, log) ==> t.id in skipped
  }

  /** Unreachability is contained in every closed labelling: it is the least one. */
  lemma {:induction false} UnreachableIsLeast(
      g: seq<Task>, done: set<string>, skipped: set<string>, log: seq<Event>, path: seq<string>)
    requires SkipClosed(g, done, skipped, log) && DeadPath(g, done, log, path)
    ensures path[0] in skipped
    decreases |path|
  {
    assert Edge(g, path[0], path[1]);
    var t :| t in g && t.id == path[0] && path[1] in t.dependsOn;
    if |path| > 2 {
      var rest := path[1..];
      forall k | 0 <= k < |rest| - 1 ensures rest[k] !in done && Edge(g, rest[k], rest[k + 1]) {
        assert rest[k] == path[k + 1];
      }
      UnreachableIsLeast(g, done, skipped, log, rest);
    }
    assert Dead(t, done, skipped, log);
  }

  /** ... and it is closed itself. */
  lemma DeadIsUnreachable(g: seq<Task>, done: set<string>, skipped: set<string>, log: seq<Event>, t: Task)
    requires t in g && t.id !in done && Dead(t, done, skipped, log)
    requires forall id :: id in skipped ==> Unreachable(g, done, log, id)
    ensures Unreachable(g, done, log, t.id)
  {
    var dep :| dep in t.dependsOn && (dep in skipped || (dep in done && !Satisfied(log, dep)));
    assert Edge(g, t.id, dep);
    if dep in skipped {
      var path :| DeadPath(g, done, log, path) && path[0] == dep;
      var longer := [t.id] + path;
      assert forall k :: 0 < k < |longer| ==> longer[k] == path[k - 1];
      assert forall k :: 0 < k < |longer| - 1 ==> Edge(g, path[k - 1], path[k]);
      assert DeadPath(g, done, log, longer);
    } else {
      assert DeadPath(g, done, log, [t.id, dep]);
    }
  }

  /** The labels depend on which tasks the graph holds, not on the order of its file. */
  lemma SkippedIgnoresFileOrder(g: seq<Task>, h: seq<Task>, done: set<string>, log: seq<Event>, id: string)
    requires forall t :: t in g <==> t in h
    ensures Unreachable(g, done, log, id) <==> Unreachable(h, done, log, id)
  {
    assert forall from, to :: Edge(g, from, to) <==> Edge(h, from, to);
    forall path ensures DeadPath(g, done, log, path) <==> DeadPath(h, done, log, path) {
    }
  }

  /** The in-place iteration of the source, over whatever order the file has. */
  method ComputeSkipped(g: seq<Task>, outcomes: map<string, Outcome>, log: seq<Event>) returns (skipped: set<string>)
    ensures forall id :: id in skipped <==> Unreachable(g, outcomes.Keys, log, id)
  {
    ghost var done := outcomes.Keys;
    skipped := {};
    var changed := true;
    while changed
      invariant skipped <= Ids(g)
      invariant forall id :: id in skipped ==> Unreachable(g, done, log, id)
      invariant !changed ==> SkipClosed(g, done, skipped, log)
      decreases Ids(g) - skipped, changed
    {
      changed := false;
      ghost var before := skipped;
      for k := 0 to |g|
        invariant before <= skipped <= Ids(g)
        invariant changed ==> before < skipped
        invariant !changed ==> before == skipped
        invariant forall id :: id in skipped ==> Unreachable(g, done, log, id)
        invariant !changed ==>
            forall j :: 0 <= j < k && g[j].id !in done && Dead(g[j], done, skipped, log) ==> g[j].id in skipped
      {
        var t := g[k];
        if t.id in outcomes || t.id in skipped { continue; }
        if Dead(t, outcomes.Keys, skipped, log) {
          DeadIsUnreachable(g, done, skipped, log, t);
          skipped := skipped + {t.id};
          changed := true;
        }
      }
    }
    forall id | Unreachable(g, done, log, id) ensures id in skipped {
      var path :| DeadPath(g, done, log, path) && path[0] == id;
      UnreachableIsLeast(g, done, skipped, log, path);
    }
  }

  // ---------------------------------------------------------------- theorems over whole runs

  function Run(g: seq<Task>, env: Env): Ended {
    Drive(g, env, INIT)
  }

  lemma RunInv(g: seq<Task>, env: Env)
    ensures Inv(g, Run(g, env).p)
  {
    DriveKeepsInv(g, env, INIT);
  }

  /** What the environment withheld: a lease, or a task already stated by someone else. */
  ghost predicate Withheld(p: Progress, id: string) {
    id !in p.outcomes && Started(p.log, p.closed, id)
  }

  ghost predicate HeldPath(g: seq<Task>, p: Progress, path: seq<string>) {
    Path(g, p.outcomes.Keys, path) && Withheld(p, Last(path))
  }

  /** A numbering in which every dependency comes before its dependents. */
  ghost predicate Topological(g: seq<Task>, rank: map<string, nat>) {
    && (forall t :: t in g ==> t.id in rank)
    && (forall t, dep :: t in g && dep in t.dependsOn ==> dep in Ids(g) && dep in rank && rank[dep] < rank[t.id])
  }

  /** Each task executes at most once, and only once all its dependencies stand satisfied. */
  lemma DependencySafety(g: seq<Task>, env: Env)
    ensures var p := Run(g, env).p;
            && (forall j, k :: 0 <= j < k < |p.order| ==> p.order[j].task.id != p.order[k].task.id)
            && (forall k :: 0 <= k < |p.order| ==> DepsSatisfied(p.order[k].before, p.order[k].task))
            && (forall id :: id in p.outcomes <==> exists k :: 0 <= k < |p.order| && p.order[k].task.id == id)
  {
    RunInv(g, env);
    var p := Run(g, env).p;
    forall id ensures id in p.outcomes <==> exists k :: 0 <= k < |p.order| && p.order[k].task.id == id {
      assert id in p.outcomes <==> Executed(p, |p.order|, id);
    }
  }

  // ---------------------------------------------------------------- what executions log of other tasks

  /** Where a task stands; one that never logged a state is proposed. */
  function CurrentState(log: seq<Event>, id: string): TaskState {
    var latest := LatestState(log, id);
    if latest.Some? then latest.value else Proposed
  }

  /** While one task executes, only the human plane moves the others. */
  ghost predicate ByTheTable(env: Env, c: Claimed) {
    var events := EventsOf(env, c);
    forall j :: 0 <= j < |events| && events[j].taskId != c.task.id ==>
      HumanMove(CurrentState(c.at.log + events[..j], events[j].taskId), events[j].state)
  }

  /** No task that never executed is logged in a satisfied state. */
  ghost predicate Earned(env: Env, c: Claimed) {
    forall e :: e in EventsOf(env, c) ==>
      e.taskId == c.task.id || e.taskId in c.at.outcomes || !DepSatisfied(e.state)
  }

  /** No execution takes a satisfied dependency out of the satisfied states. */
  ghost predicate KeepsSatisfied(g: seq<Task>, env: Env, c: Claimed) {
    forall t, dep :: t in g && dep in t.dependsOn && Satisfied(c.at.log, dep) ==> Satisfied(c.at.log + EventsOf(env, c), dep)
  }

  ghost predicate AllByTheTable(g: seq<Task>, env: Env, p: Progress) {
    forall c :: c in Claims(g, env, p) ==> ByTheTable(env, c)
  }

  ghost predicate AllEarned(g: seq<Task>, env: Env, p: Progress) {
    forall c :: c in Claims(g, env, p) ==> Earned(env, c)
  }

  ghost predicate AllKeepSatisfied(g: seq<Task>, env: Env, p: Progress) {
    forall c :: c in Claims(g, env, p) ==> KeepsSatisfied(g, env, c)
  }

  lemma {:induction false} LatestOfBoth(log: seq<Event>, more: seq<Event>, id: string)
    ensures LatestState(log + more, id) == if LatestState(more, id).Some? then LatestState(more, id) else LatestState(log, id)
  {
    if more == [] {
      assert log + more == log;
    } else {
      assert Front(log + more) == log + Front(more);
      LatestOfBoth(log, Front(more), id);
    }
  }

  lemma {:induction false} LatestIsLogged(log: seq<Event>, id: string)
    requires LatestState(log, id).Some?
    ensures Event(id, LatestState(log, id).value) in log
  {
    if Last(log).taskId != id {
      LatestIsLogged(Front(log), id);
    } else {
      assert Last(log) == Event(id, LatestState(log, id).value);
    }
  }

  /** A task that never executed has no state, or the human plane ended it. */
  ghost predicate Untouched(log: seq<Event>, id: string) {
    LatestState(log, id).None? || EndedByHand(LatestState(log, id).value)
  }

  ghost predicate OthersUntouched(p: Progress) { forall id :: id !in p.outcomes ==> Untouched(p.log, id) }

  lemma EventLeavesUntouched(log: seq<Event>, e: Event, id: string)
    requires Untouched(log, id) && (e.taskId == id ==> HumanMove(CurrentState(log, id), e.state))
    ensures Untouched(log + [e], id) && (e.taskId == id ==> EndedByHand(e.state))
  {
    assert Front(log + [e]) == log;
    if e.taskId == id {
      HumansOnlyEnd(CurrentState(log, id), e.state);
    }
    hide HumanMove;
  }

  lemma {:induction false} EventsLeaveUntouched(env: Env, c: Claimed, events: seq<Event>, j: nat, id: string)
    requires ByTheTable(env, c) && events == EventsOf(env, c) && j <= |events| && id != c.task.id && Untouched(c.at.log, id)
    ensures Untouched(c.at.log + events[..j], id)
    ensures forall k :: 0 <= k < j && events[k].taskId == id ==> EndedByHand(events[k].state)
  {
    hide EventsOf, HumanMove, Untouched, EndedByHand;
    if j == 0 {
      assert c.at.log + events[..0] == c.at.log;
    } else {
      EventsLeaveUntouched(env, c, events, j - 1, id);
      assert c.at.log + events[..j] == c.at.log + events[..j - 1] + [events[j - 1]];
      EventLeavesUntouched(c.at.log + events[..j - 1], events[j - 1], id);
    }
  }

  lemma ClaimIsEarned(env: Env, c: Claimed, next: Progress)
    requires ByTheTable(env, c) && OthersUntouched(c.at)
    requires next == Turn(env, c.at, c.task) && next.log == c.at.log + EventsOf(env, c)
    ensures Earned(env, c) && OthersUntouched(next)
  {
    var events := EventsOf(env, c);
    assert events[..|events|] == events;
    forall id | id !in c.at.outcomes && id != c.task.id
      ensures Untouched(next.log, id) && forall e :: e in events && e.taskId == id ==> !DepSatisfied(e.state)
    {
      EventsLeaveUntouched(env, c, events, |events|, id);
    }
    if env.claim(c.at.turn, c.task.id) != Owned {
      assert c.at.log + [] == c.at.log;
    }
    hide ByTheTable, Untouched;
  }

  /** By the table, a task must execute to be logged in a satisfied state. */
  lemma {:induction false} TableMeansEarned(g: seq<Task>, env: Env, p: Progress)
    requires AllByTheTable(g, env, p) && OthersUntouched(p)
    ensures AllEarned(g, env, p) && OthersUntouched(Drive(g, env, p).p)
    decreases |Claims(g, env, p)|
  {
    if Claims(g, env, p) == [] {
      SelectsFirstEligible(g, p.log, p.closed);
    } else {
      var c, next := FirstClaim(g, env, p);
      ClaimIsEarned(env, c, next);
      hide Claims, Drive, ByTheTable, Earned, OthersUntouched;
      TableMeansEarned(g, env, next);
      assert forall d :: d in [c] + Claims(g, env, next) <==> d == c || d in Claims(g, env, next);
    }
  }

  // ---------------------------------------------------------------- what a claimed task waited for

  /** Whatever is satisfied has executed, and so has everything a claimed task waited for. */
  ghost predicate DepsRan(g: seq<Task>, p: Progress) {
    && (forall id :: Satisfied(p.log, id) ==> id in p.outcomes)
    && (forall t, dep :: t in g && t.id in p.closed && dep in t.dependsOn ==> dep in p.outcomes)
  }

  lemma SatisfiedHasRun(env: Env, c: Claimed, id: string)
    requires Earned(env, c) && forall i :: Satisfied(c.at.log, i) ==> i in c.at.outcomes
    requires Satisfied(c.at.log + EventsOf(env, c), id)
    ensures id in Turn(env, c.at, c.task).outcomes
  {
    var events := EventsOf(env, c);
    LatestOfBoth(c.at.log, events, id);
    if LatestState(events, id).Some? {
      LatestIsLogged(events, id);
    }
  }

  lemma {:induction false} DriveKeepsDepsRan(g: seq<Task>, env: Env, p: Progress)
    requires UniqueIds(g) && AllEarned(g, env, p) && DepsRan(g, p)
    ensures DepsRan(g, Drive(g, env, p).p)
    decreases |Claims(g, env, p)|
  {
    if Claims(g, env, p) == [] {
      SelectsFirstEligible(g, p.log, p.closed);
    } else {
      var c, next := FirstClaim(g, env, p);
      forall id | Satisfied(next.log, id) ensures id in next.outcomes {
        SatisfiedHasRun(env, c, id);
      }
      forall t, dep | t in g && t.id in next.closed && dep in t.dependsOn ensures dep in next.outcomes {
        assert t.id == c.task.id ==> t == c.task;
      }
      DriveKeepsDepsRan(g, env, next);
    }
  }

  /** Every dependency of a claimed task is satisfied. */
  ghost predicate DepsStand(g: seq<Task>, p: Progress) {
    forall t, dep :: t in g && t.id in p.closed && dep in t.dependsOn ==> Satisfied(p.log, dep)
  }

  lemma {:induction false} DriveKeepsDepsStanding(g: seq<Task>, env: Env, p: Progress)
    requires UniqueIds(g) && AllKeepSatisfied(g, env, p) && DepsStand(g, p)
    ensures DepsStand(g, Drive(g, env, p).p)
    decreases |Claims(g, env, p)|
  {
    if Claims(g, env, p) == [] {
      SelectsFirstEligible(g, p.log, p.closed);
    } else {
      var c, next := FirstClaim(g, env, p);
      assert KeepsSatisfied(g, env, c);
      forall t, dep | t in g && t.id in next.closed && dep in t.dependsOn ensures Satisfied(next.log, dep) {
        assert t.id == c.task.id ==> t == c.task;
      }
      DriveKeepsDepsStanding(g, env, next);
    }
  }

  /**
   When no execution takes a satisfied dependency back, everything a claimed task waited for
   is satisfied still when the run ends; and it has executed, when satisfied states are earned.
   */
  lemma DependenciesEndSatisfied(g: seq<Task>, env: Env, t: Task, dep: string)
    requires UniqueIds(g) && AllKeepSatisfied(g, env, INIT)
    requires t in g && t.id in Run(g, env).p.closed && dep in t.dependsOn
    ensures Satisfied(Run(g, env).p.log, dep)
    ensures AllEarned(g, env, INIT) ==> dep in Run(g, env).p.outcomes
  {
    DriveKeepsDepsStanding(g, env, INIT);
    if AllEarned(g, env, INIT) {
      DriveKeepsDepsRan(g, env, INIT);
    }
  }

  /**
   Exactly when a claimed task that did not execute is labelled SKIPPED: when some dependency
   of its own, satisfied when it was claimed, is not satisfied any more at the end.
   */
  lemma RefusedIsSkippedExactly(g: seq<Task>, env: Env, t: Task)
    requires UniqueIds(g) && AllEarned(g, env, INIT)
    requires t in g && t.id in Run(g, env).p.closed && t.id !in Run(g, env).p.outcomes
    ensures var p := Run(g, env).p;
            Unreachable(g, p.outcomes.Keys, p.log, t.id) <==> exists dep :: dep in t.dependsOn && !Satisfied(p.log, dep)
  {
    DriveKeepsDepsRan(g, env, INIT);
    var p := Run(g, env).p;
    if dep :| dep in t.dependsOn && !Satisfied(p.log, dep) {
      assert Edge(g, t.id, dep);
      assert DeadPath(g, p.outcomes.Keys, p.log, [t.id, dep]);
    }
    if Unreachable(g, p.outcomes.Keys, p.log, t.id) {
      var path :| DeadPath(g, p.outcomes.Keys, p.log, path) && path[0] == t.id;
      assert Edge(g, path[0], path[1]);
      var u :| u in g && u.id == path[0] && path[1] in u.dependsOn;
      assert u == t;
      assert |path| == 2;
    }
  }

  /** So a task whose lease was refused is never SKIPPED when no satisfied dependency is taken back. */
  lemma RefusedIsNeverSkipped(g: seq<Task>, env: Env, t: Task)
    requires UniqueIds(g) && AllEarned(g, env, INIT) && AllKeepSatisfied(g, env, INIT)
    requires t in g && t.id in Run(g, env).p.closed
    ensures var p := Run(g, env).p; !Unreachable(g, p.outcomes.Keys, p.log, t.id)
  {
    if t.id !in Run(g, env).p.outcomes {
      RefusedIsSkippedExactly(g, env, t);
      forall dep | dep in t.dependsOn ensures Satisfied(Run(g, env).p.log, dep) {
        DependenciesEndSatisfied(g, env, t, dep);
      }
    }
  }

  // ---------------------------------------------------------------- a run that takes one back

  /** What a run to review logs of its task; the last state is logged again with the marker that awaits a human. */
  function ToReview(id: string): seq<Event> {
    [Event(id, Analyzing), Event(id, Ready), Event(id, Implementing), Event(id, Verifying), Event(id, Passed),
     Event(id, Reviewing), Event(id, Reviewing)]
  }

  /** B's lease is held elsewhere, and A's pending package is rejected while C executes. */
  function LateRejection(): Env {
    Env(turn => false,
        (turn, id) => if id == "B" then Held else Owned,
        (turn, id) => Execution(Outcome("REVIEWING", 1, true),
                                if id == "A" then ToReview(id) else ToReview(id) + [Event("A", ChangesRequested)]))
  }

  lemma {:induction false} NotMentioned(log: seq<Event>, id: string)
    requires forall e :: e in log ==> e.taskId != id
    ensures LatestState(log, id).None?
  {
    if log == [] {
    } else {
      assert Last(log) in log;
      NotMentioned(Front(log), id);
    }
  }

  lemma ReviewEnds(id: string, other: string)
    requires id != other
    ensures LatestState(ToReview(id), id) == Some(Reviewing) && LatestState(ToReview(id), other).None?
  {
    NotMentioned(ToReview(id), other);
  }

  function LateGraph(): seq<Task> { [Task("A", []), Task("B", ["A"]), Task("C", ["A"])] }

  /** Where that run stands at each turn. */
  function LateStage(turn: nat): Progress
    requires turn <= 3
  {
    var o, startA := Outcome("REVIEWING", 1, true), Start(Task("A", []), []);
    match turn
    case 0 => INIT
    case 1 => Progress(1, ToReview("A"), {"A"}, map["A" := o], [true], [startA])
    case 2 => Progress(2, ToReview("A"), {"A", "B"}, map["A" := o], [true], [startA])
    case _ =>
      Progress(3, ToReview("A") + (ToReview("C") + [Event("A", ChangesRequested)]), {"A", "B", "C"},
               map["A" := o, "C" := o], [true, true], [startA, Start(Task("C", ["A"]), ToReview("A"))])
  }

  /** The states that matter in the logs of that run. */
  lemma LateLogs()
    ensures var done, late := ToReview("A"), LateStage(3).log;
            && Satisfied(done, "A") && LatestState(done, "B").None? && LatestState(done, "C").None?
            && LatestState(done + ToReview("C"), "A") == Some(Reviewing)
            && LatestState(late, "A") == Some(ChangesRequested)
  {
    ReviewEnds("A", "B");
    ReviewEnds("A", "C");
    ReviewEnds("C", "A");
    LatestOfBoth(ToReview("A"), ToReview("C"), "A");
    assert Last(LateStage(3).log) == Event("A", ChangesRequested);
  }

  lemma SelectOfThree(a: Task, b: Task, c: Task, log: seq<Event>, closed: set<string>)
    ensures Select([a, b, c], log, closed) ==
            if Eligible(log, closed, a) then Some(a)
            else if Eligible(log, closed, b) then Some(b)
            else if Eligible(log, closed, c) then Some(c)
            else None
  {
    assert [a, b, c][1..] == [b, c] && [b, c][1..] == [c] && [c][1..] == [];
    assert Select([c], log, closed) == if Eligible(log, closed, c) then Some(c) else None;
    assert Select([b, c], log, closed) == if Eligible(log, closed, b) then Some(b) else Select([c], log, closed);
  }

  /** Which task each stage selects. */
  lemma LateSelect(turn: nat)
    requires turn <= 3
    ensures Select(LateGraph(), LateStage(turn).log, LateStage(turn).closed) == if turn < 3 then Some(LateGraph()[turn]) else None
  {
    LateLogs();
    hide ToReview;
    SelectOfThree(Task("A", []), Task("B", ["A"]), Task("C", ["A"]), LateStage(turn).log, LateStage(turn).closed);
  }

  lemma LateTurn(turn: nat)
    requires turn < 3
    ensures Turn(LateRejection(), LateStage(turn), LateGraph()[turn]) == LateStage(turn + 1)
  {
    hide ToReview;
    assert [] + ToReview("A") == ToReview("A");
  }

  lemma {:induction false} LateRunFrom(turn: nat)
    requires turn <= 3
    ensures var g, env := LateGraph(), LateRejection();
            && Drive(g, env, LateStage(turn)) == Ended(LateStage(3), false)
            && |Claims(g, env, LateStage(turn))| == 3 - turn
            && forall k :: 0 <= k < 3 - turn ==> Claims(g, env, LateStage(turn))[k] == Claimed(g[turn + k], LateStage(turn + k))
    decreases 3 - turn
  {
    LateSelect(turn);
    if turn < 3 {
      LateTurn(turn);
      LateRunFrom(turn + 1);
    }
    hide LateStage, LateGraph;
  }

  lemma LateMove()
    ensures HumanMove(CurrentState(ToReview("A") + ToReview("C"), "A"), ChangesRequested)
  {
    LateLogs();
    HumanMovesOf(Reviewing, ChangesRequested);
    hide ToReview, HumanMove;
  }

  lemma LateEventsAreByTheTable(turn: nat)
    requires turn < 3
    ensures ByTheTable(LateRejection(), Claimed(LateGraph()[turn], LateStage(turn)))
  {
    var c := Claimed(LateGraph()[turn], LateStage(turn));
    var events := EventsOf(LateRejection(), c);
    LateMove();
    hide HumanMove, CurrentState;
    forall j | 0 <= j < |events| && events[j].taskId != c.task.id
      ensures HumanMove(CurrentState(c.at.log + events[..j], events[j].taskId), events[j].state)
    {
      assert turn == 2 && j == 7;
      assert c.at.log + events[..j] == ToReview("A") + ToReview("C");
    }
  }

  /**
   A refused task can be SKIPPED, in a run the machine allows: B's lease is refused, and then
   A's pending package is rejected while C executes.
   */
  lemma RefusedCanBeSkipped()
    ensures
      var g, env := LateGraph(), LateRejection();
      var p := Run(g, env).p;
      && UniqueIds(g) && AllByTheTable(g, env, INIT) && RefusedIn(env, Claims(g, env, INIT), "B")
      && Unreachable(g, p.outcomes.Keys, p.log, "B")
  {
    LateRunEnds();
    LateRunIsByTheTable();
    hide Run, LateGraph, AllByTheTable, LateRejection, ToReview;
    var g, env := LateGraph(), LateRejection();
    TableMeansEarned(g, env, INIT);
    WithheldMeansRefused(g, env, "B");
    RefusedIsSkippedExactly(g, env, Task("B", ["A"]));
  }

  lemma LateTasks()
    ensures UniqueIds(LateGraph()) && Task("B", ["A"]) in LateGraph()
  {
    assert LateGraph()[1] in LateGraph();
  }

  lemma LateRunEnds()
    ensures
      var g, env := LateGraph(), LateRejection();
      var p := Run(g, env).p;
      && UniqueIds(g) && Task("B", ["A"]) in g && OthersUntouched(INIT)
      && "B" in p.closed && "B" !in p.outcomes && "A" in ["A"] && !Satisfied(p.log, "A")
  {
    LateRunFrom(0);
    LateLogs();
    LateTasks();
    hide ToReview, Drive, LateRejection, LatestState, LateGraph, UniqueIds;
  }

  lemma LateRunIsByTheTable()
    ensures AllByTheTable(LateGraph(), LateRejection(), INIT)
  {
    var g, env := LateGraph(), LateRejection();
    LateRunFrom(0);
    hide ToReview, Drive, Claims, LateStage, ByTheTable;
    forall c | c in Claims(g, env, INIT) ensures ByTheTable(env, c) {
      var k :| 0 <= k < 3 && Claims(g, env, INIT)[k] == c;
      LateEventsAreByTheTable(k);
    }
  }

  // ---------------------------------------------------------------- completeness

  /**
   Completeness. On an acyclic graph, a run nobody killed leaves a task without an
   outcome exactly when some dependency path through tasks without outcomes leads to a
   dead end: one that executed and did not satisfy, or one the environment withheld.
   */
  lemma {:induction false} RunIsComplete(g: seq<Task>, env: Env, rank: map<string, nat>, t: Task)
    requires Topological(g, rank) && t in g && !Run(g, env).killed
    ensures var p := Run(g, env).p;
            t.id !in p.outcomes <==>
              (Unreachable(g, p.outcomes.Keys, p.log, t.id) || exists path :: HeldPath(g, p, path) && path[0] == t.id)
    decreases rank[t.id]
  {
    DriveExhausts(g, env, INIT);
    var p := Run(g, env).p;
    assert !Eligible(p.log, p.closed, t);
    if t.id !in p.outcomes {
      if Started(p.log, p.closed, t.id) {
        assert HeldPath(g, p, [t.id]);
      } else {
        var dep :| dep in t.dependsOn && !Satisfied(p.log, dep);
        assert Edge(g, t.id, dep);
        if dep in p.outcomes {
          assert DeadPath(g, p.outcomes.Keys, p.log, [t.id, dep]);
        } else {
          assert dep in Ids(g);
          var u :| u in g && u.id == dep;
          RunIsComplete(g, env, rank, u);
          Prolong(g, p, t, dep);
        }
      }
    }
  }

  lemma Prolong(g: seq<Task>, p: Progress, t: Task, dep: string)
    requires t in g && t.id !in p.outcomes && dep in t.dependsOn
    ensures Unreachable(g, p.outcomes.Keys, p.log, dep) ==> Unreachable(g, p.outcomes.Keys, p.log, t.id)
    ensures (exists path :: HeldPath(g, p, path) && path[0] == dep) ==>
              exists path :: HeldPath(g, p, path) && path[0] == t.id
  {
    assert Edge(g, t.id, dep);
    if Unreachable(g, p.outcomes.Keys, p.log, dep) {
      DeadIsUnreachable(g, p.outcomes.Keys, {dep}, p.log, t);
    }
    if path :| HeldPath(g, p, path) && path[0] == dep {
      var longer := [t.id] + path;
      assert forall k :: 0 < k < |longer| ==> longer[k] == path[k - 1];
      assert forall k :: 0 < k < |longer| - 1 ==> Edge(g, path[k - 1], path[k]);
      assert HeldPath(g, p, longer);
    }
  }

  /**
   What a run withholds: a task whose own claim was refused, or one that was never claimed
   because a state of it was logged all the same -- by the table, only the human plane
   ending it before it started.
   */
  lemma WithheldMeansRefused(g: seq<Task>, env: Env, id: string)
    ensures var p, refused := Run(g, env).p, RefusedIn(env, Claims(g, env, INIT), id);
            && (refused <==> id in p.closed && id !in p.outcomes)
            && (refused ==> exists n :: 0 <= n < p.turn && env.claim(n, id) != Owned)
            && (Withheld(p, id) <==> refused || (id !in p.closed && LatestState(p.log, id).Some?))
            && (AllByTheTable(g, env, INIT) && Withheld(p, id) && !refused ==>
                  EndedByHand(LatestState(p.log, id).value))
  {
    ClaimsAreTurns(g, env, INIT);
    ClaimsClose(g, env, INIT, id);
    RunInv(g, env);
    if AllByTheTable(g, env, INIT) {
      TableMeansEarned(g, env, INIT);
    }
    hide Claims, Drive;
    var cs := Claims(g, env, INIT);
    ClaimedOnce(env, cs, id);
    if c :| c in cs && c.task.id == id && env.claim(c.at.turn, id) != Owned {
      var n :| 0 <= n < |cs| && cs[n] == c;
      assert env.claim(n, id) != Owned;
    }
  }

  /** A claim is won or lost, and is the only one of its task. */
  lemma ClaimedOnce(env: Env, cs: seq<Claimed>, id: string)
    requires forall m, n :: 0 <= m < n < |cs| ==> cs[m].task.id != cs[n].task.id
    ensures RefusedIn(env, cs, id) <==> ClaimedIn(cs, id) && !WonIn(env, cs, id)
  {
  }

  // ---------------------------------------------------------------- rows and the run-level state

  datatype Row = Row(id: string, finalState: string, iterations: nat)

  function RowOf(t: Task, outcomes: map<string, Outcome>, skipped: set<string>): Row {
    if t.id in outcomes then Row(t.id, outcomes[t.id].finalState, outcomes[t.id].iterations)
    else Row(t.id, if t.id in skipped then "SKIPPED" else "NOT_STARTED", 0)
  }

  const RUN_STATE_PRECEDENCE: seq<string> := ["COMPLETED", "REVIEWING", "BLOCKED", "ESCALATED", "CANCELLED"]

  function RunStateRank(state: string): (rank: nat)
    ensures rank < |RUN_STATE_PRECEDENCE|
    ensures if state in RUN_STATE_PRECEDENCE then RUN_STATE_PRECEDENCE[rank] == state else RUN_STATE_PRECEDENCE[rank] == "BLOCKED"
  {
    if state == "COMPLETED" then 0 else if state == "REVIEWING" then 1
    else if state == "ESCALATED" then 3 else if state == "CANCELLED" then 4 else 2
  }

  /** The most severe of `killed` and the rows. */
  ghost predicate IsRunState(rows: seq<Row>, killed: bool, state: string) {
    && (state == "CANCELLED" <==> killed || exists r :: r in rows && r.finalState == "CANCELLED")
    && (killed || forall r :: r in rows ==> RunStateRank(r.finalState) <= RunStateRank(state))
    && (state == "COMPLETED" <==> !killed && forall r :: r in rows ==> r.finalState == "COMPLETED")
    && (state in {"COMPLETED", "CANCELLED"} || exists r :: r in rows && RunStateRank(r.finalState) == RunStateRank(state))
    && state in RUN_STATE_PRECEDENCE
  }

  function TotalIterations(rows: seq<Row>): nat {
    if rows == [] then 0 else TotalIterations(Front(rows)) + Last(rows).iterations
  }

  datatype Report = Report(finalState: string, iterations: nat, rows: seq<Row>, heldOut: seq<bool>)

  method Summarise(rows: seq<Row>, killed: bool) returns (finalState: string, iterations: nat)
    ensures IsRunState(rows, killed, finalState)
    ensures iterations == TotalIterations(rows)
  {
    var rank := if killed then RunStateRank("CANCELLED") else 0;
    iterations := 0;
    for k := 0 to |rows|
      invariant rank < |RUN_STATE_PRECEDENCE|
      invariant forall r :: r in rows[..k] ==> RunStateRank(r.finalState) <= rank
      invariant killed ==> rank == 4
      invariant rank == 0 || killed || exists r :: r in rows[..k] && RunStateRank(r.finalState) == rank
      invariant iterations == TotalIterations(rows[..k])
    {
      assert rows[..k + 1] == rows[..k] + [rows[k]];
      rank := if rank >= RunStateRank(rows[k].finalState) then rank else RunStateRank(rows[k].finalState);
      iterations := iterations + rows[k].iterations;
    }
    assert rows[..|rows|] == rows;
    finalState := RUN_STATE_PRECEDENCE[rank];
  }

  lemma {:induction false} WonAreOwned(env: Env, cs: seq<Claimed>)
    ensures forall c :: c in Won(env, cs) <==> c in cs && env.claim(c.at.turn, c.task.id) == Owned
  {
    if cs == [] {
    } else {
      WonAreOwned(env, cs[1..]);
      assert cs == [cs[0]] + cs[1..];
    }
  }

  /**
   A row says what the execution returned whose claim was won; one without such a claim is SKIPPED
   when a dead dependency path starts there, and NOT_STARTED otherwise.
   */
  ghost predicate RowMeans(g: seq<Task>, env: Env, p: Progress, row: Row) {
    var won := Won(env, Claims(g, env, INIT));
    && (forall c :: c in won && c.task.id == row.id ==>
          row.finalState == Returned(env, c).finalState && row.iterations == Returned(env, c).iterations)
    && ((forall c :: c in won ==> c.task.id != row.id) ==>
          row.finalState == (if Unreachable(g, p.outcomes.Keys, p.log, row.id) then "SKIPPED" else "NOT_STARTED")
          && row.iterations == 0)
  }

  lemma RowsMean(g: seq<Task>, env: Env, skipped: set<string>)
    requires var p := Run(g, env).p; forall id :: id in skipped <==> Unreachable(g, p.outcomes.Keys, p.log, id)
    ensures var p := Run(g, env).p;
            && (forall t :: t in g ==> RowMeans(g, env, p, RowOf(t, p.outcomes, skipped)))
            && p.heldOut == ReachedReviewing(env, Won(env, Claims(g, env, INIT)))
  {
    var cs, p := Claims(g, env, INIT), Run(g, env).p;
    WonAreOwned(env, cs);
    RunIsItsClaims(g, env, INIT);
    hide Claims, Drive, Unreachable;
    forall t | t in g ensures RowMeans(g, env, p, RowOf(t, p.outcomes, skipped)) {
      OutcomesAreReturned(g, env, INIT, t.id);
      ClaimsClose(g, env, INIT, t.id);
    }
  }

  /** The driver as the source writes it, proved against `Run` and the SKIPPED relation. */
  method RunTaskGraph(g: seq<Task>, env: Env) returns (report: Report, ghost e: Ended)
    ensures e == Run(g, env)
    ensures |report.rows| == |g| && forall k :: 0 <= k < |g| ==> report.rows[k].id == g[k].id
    ensures forall k :: 0 <= k < |g| ==> RowMeans(g, env, e.p, report.rows[k])
    ensures IsRunState(report.rows, e.killed, report.finalState)
    ensures report.iterations == TotalIterations(report.rows)
    ensures report.heldOut == ReachedReviewing(env, Won(env, Claims(g, env, INIT)))
  {
    var closed: set<string>, outcomes: map<string, Outcome>, heldOut: seq<bool> := {}, map[], [];
    var log: seq<Event>, turn, killed := [], 0, false;
    ghost var order: seq<Start> := [];
    while true
      invariant !killed
      invariant Drive(g, env, Progress(turn, log, closed, outcomes, heldOut, order)) == Run(g, env)
      decreases Ids(g) - closed
    {
      ghost var p := Progress(turn, log, closed, outcomes, heldOut, order);
      SelectsFirstEligible(g, log, closed);
      if env.kill(turn) {
        killed := true;
        e := Ended(p, true);
        break;
      }
      var next := SelectNextTask(g, log, closed);
      if next.None? {
        e := Ended(p, false);
        break;
      }
      var task := next.value;
      var claim := env.claim(turn, task.id);
      if claim == Owned {
        var run := env.run(turn, task.id);
        order := order + [Start(task, log)];
        log := log + run.events;
        outcomes := outcomes[task.id := run.outcome];
        heldOut := heldOut + [run.outcome.reachedReviewing];
      }
      closed := closed + {task.id};
      turn := turn + 1;
      assert Progress(turn, log, closed, outcomes, heldOut, order) == Turn(env, p, task);
    }
    var skipped := ComputeSkipped(g, outcomes, log);
    var rows := seq(|g|, k requires 0 <= k < |g| => RowOf(g[k], outcomes, skipped));
    var finalState, iterations := Summarise(rows, killed);
    report := Report(finalState, iterations, rows, heldOut);
    hide Drive, Unreachable, IsRunState, RowOf, RowMeans;
    RowsMean(g, env, skipped);
  }
}
