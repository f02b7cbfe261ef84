/**
 Bounded parallel dispatch of one batch. The workers share one index across their await
 points, so a run is an arbitrary interleaving of their steps; other users of the same
 buckets may call them in between.
 */
module Dispatch {
  import opened Common
  import opened TokenBucket

  datatype Outcome = Response(body: string) | Failure(error: string)

  /** The targets of the items in order, and what each item's own send answers. */
  datatype Batch = Batch(targets: seq<string>, replies: seq<Outcome>, maxParallel: int, ceiling: Option<int>)

  function Min(x: int, y: int): int { if x <= y then x else y }

  /** What the limit and the ceiling, when there is one, both allow. */
  predicate Allows(b: Batch, n: int) { n <= b.maxParallel && (b.ceiling.Some? ==> n <= b.ceiling.value) }

  /** The largest number both allow, or one when they allow none. */
  function EffectiveMaxParallel(b: Batch): (n: int)
    ensures n >= 1 && (n > 1 ==> Allows(b, n))
    ensures forall m :: Allows(b, m) ==> m <= n
  {
    var bound := Min(b.maxParallel, if b.ceiling.Some? then b.ceiling.value else b.maxParallel);
    if bound < 1 then 1 else bound
  }

  function WorkerCount(b: Batch): nat { Min(EffectiveMaxParallel(b), |b.targets|) }

  datatype Worker = Idle | Polling(item: nat) | Sending(item: nat) | Done

  /** A bucket by its configuration and every call it has had. */
  datatype Meter = Meter(opts: Options, born: real, calls: seq<Call>)

  function LevelOf(m: Meter): Level { After(m.opts, Created(m.opts, m.born), m.calls) }

  function GrantedBy(m: Meter): seq<Request> { GrantsOf(m.opts, Created(m.opts, m.born), m.calls) }

  datatype Sent = Sent(item: nat, at: real)

  datatype State = State(
    next: nat,
    workers: seq<Worker>,
    results: seq<Option<Outcome>>,
    meters: map<string, Meter>,
    clock: real,
    sends: seq<Sent>)

  function Start(b: Batch, meters: map<string, Meter>, clock: real): State {
    State(0, seq(WorkerCount(b), _ => Idle), seq(|b.targets|, _ => None), meters, clock, [])
  }

  /** One worker resuming, up to its next await; or somebody else calling a bucket. */
  datatype Move = Claim(w: nat) | Poll(w: nat, now: real) | Complete(w: nat) | Elsewhere(target: string, call: Call)

  predicate Enabled(b: Batch, s: State, m: Move) {
    match m
    case Claim(w) => w < |s.workers| && s.workers[w].Idle?
    case Poll(w, now) =>
      && w < |s.workers| && s.workers[w].Polling? && s.clock <= now
      && s.workers[w].item < |b.targets| && b.targets[s.workers[w].item] in s.meters
    case Complete(w) =>
      && w < |s.workers| && s.workers[w].Sending?
      && s.workers[w].item < |s.results| && s.workers[w].item < |b.replies|
    case Elsewhere(target, call) => target in s.meters && s.clock <= call.at && (call.Try? ==> call.n >= 0.0)
  }

  function Called(s: State, target: string, call: Call): State
    requires target in s.meters
  {
    var m := s.meters[target];
    s.(meters := s.meters[target := m.(calls := m.calls + [call])], clock := call.at)
  }

  function Apply(b: Batch, s: State, m: Move): State
    requires Enabled(b, s, m)
  {
    match m
    case Claim(w) =>
      if s.next >= |b.targets| then s.(workers := s.workers[w := Done])
      else if b.targets[s.next] in s.meters then s.(next := s.next + 1, workers := s.workers[w := Polling(s.next)])
      else s.(next := s.next + 1, workers := s.workers[w := Sending(s.next)], sends := s.sends + [Sent(s.next, s.clock)])
    case Poll(w, now) =>
      var item := s.workers[w].item;
      var target := b.targets[item];
      var s' := Called(s, target, Try(now, 1.0));
      if Grants(s.meters[target].opts, LevelOf(s.meters[target]), now, 1.0)
      then s'.(workers := s.workers[w := Sending(item)], sends := s.sends + [Sent(item, now)])
      else s'
    case Complete(w) =>
      var item := s.workers[w].item;
      s.(workers := s.workers[w := Idle], results := s.results[item := Some(b.replies[item])])
    case Elsewhere(target, call) => Called(s, target, call)
  }

  // ---------------------------------------------------------------- what every step keeps

  /** The item a worker is busy with, or -1. */
  function Holding(worker: Worker): int {
    if worker.Polling? || worker.Sending? then worker.item else -1
  }

  ghost predicate Shape(b: Batch, s: State) {
    && |b.replies| == |b.targets| == |s.results|
    && |s.workers| == WorkerCount(b)
    && s.next <= |b.targets|
    && (forall w :: 0 <= w < |s.workers| && s.workers[w].Done? ==> s.next == |b.targets|)
    && (forall w :: 0 <= w < |s.workers| && s.workers[w].Polling? ==>
          s.workers[w].item < s.next && b.targets[s.workers[w].item] in s.meters)
  }

  /** What a worker holds was claimed, is not answered yet, and is held by that worker alone. */
  ghost predicate HeldAlone(next: nat, workers: seq<Worker>, results: seq<Option<Outcome>>) {
    && (forall w :: 0 <= w < |workers| ==> Holding(workers[w]) < next)
    && (forall w :: 0 <= w < |workers| && 0 <= Holding(workers[w]) < |results| ==> results[Holding(workers[w])].None?)
    && (forall v, w :: 0 <= v < w < |workers| && Holding(workers[v]) >= 0 ==> Holding(workers[v]) != Holding(workers[w]))
  }

  ghost predicate HeldBySome(workers: seq<Worker>, item: nat) {
    exists w :: 0 <= w < |workers| && Holding(workers[w]) == item
  }

  /** A claimed item is answered or held; an answer is the item's own; nothing else is answered. */
  ghost predicate Accounted(b: Batch, next: nat, workers: seq<Worker>, results: seq<Option<Outcome>>)
    requires |b.replies| == |results|
  {
    && (forall i :: 0 <= i < |results| && i < next && results[i].None? ==> HeldBySome(workers, i))
    && (forall i :: 0 <= i < |results| && results[i].Some? ==> i < next && results[i].value == b.replies[i])
  }

  ghost predicate Inv(b: Batch, s: State) {
    Shape(b, s) && HeldAlone(s.next, s.workers, s.results) && Accounted(b, s.next, s.workers, s.results)
  }

  lemma StartHolds(b: Batch, meters: map<string, Meter>, clock: real)
    requires |b.replies| == |b.targets|
    ensures Inv(b, Start(b, meters, clock))
  {
  }

  /** A worker that keeps its item keeps everybody's items held. */
  lemma StillHeld(workers: seq<Worker>, w: nat, worker: Worker, item: nat)
    requires w < |workers| && HeldBySome(workers, item)
    requires Holding(workers[w]) != item || Holding(worker) == item
    ensures HeldBySome(workers[w := worker], item)
  {
    var v :| 0 <= v < |workers| && Holding(workers[v]) == item;
    assert Holding(workers[w := worker][v]) == item;
  }

  lemma StepKeepsAccounted(b: Batch, s: State, m: Move)
    requires Inv(b, s) && Enabled(b, s, m)
    ensures var s' := Apply(b, s, m); Accounted(b, s'.next, s'.workers, s'.results)
  {
    var s' := Apply(b, s, m);
    forall i | 0 <= i < |s'.results| && i < s'.next && s'.results[i].None?
      ensures HeldBySome(s'.workers, i)
    {
      if m.Claim? && i == s.next {
        assert Holding(s'.workers[m.w]) == i;
      } else {
        assert HeldBySome(s.workers, i);
        if !m.Elsewhere? {
          StillHeld(s.workers, m.w, s'.workers[m.w], i);
          assert s'.workers == s.workers[m.w := s'.workers[m.w]];
        }
      }
    }
  }

  lemma WorkerChanges(
      next: nat, workers: seq<Worker>, results: seq<Option<Outcome>>, w: nat,
      next': nat, worker: Worker, results': seq<Option<Outcome>>)
    requires HeldAlone(next, workers, results) && w < |workers| && next <= next' && |results'| == |results|
    requires Holding(worker) < next'
    requires Holding(worker) < 0 || Holding(worker) == Holding(workers[w]) || Holding(worker) >= next
    requires 0 <= Holding(worker) < |results'| ==> results'[Holding(worker)].None?
    requires forall i :: 0 <= i < |results| && i != Holding(workers[w]) ==> results'[i] == results[i]
    ensures HeldAlone(next', workers[w := worker], results')
  {
  }

  lemma StepKeepsHeldAlone(b: Batch, s: State, m: Move)
    requires Inv(b, s) && Enabled(b, s, m)
    ensures var s' := Apply(b, s, m); HeldAlone(s'.next, s'.workers, s'.results)
  {
    if !m.Elsewhere? {
      var s' := Apply(b, s, m);
      assert s'.workers == s.workers[m.w := s'.workers[m.w]];
      WorkerChanges(s.next, s.workers, s.results, m.w, s'.next, s'.workers[m.w], s'.results);
    }
  }

  lemma StepKeepsInv(b: Batch, s: State, m: Move)
    requires Inv(b, s) && Enabled(b, s, m)
    ensures Inv(b, Apply(b, s, m))
  {
    StepKeepsAccounted(b, s, m);
    StepKeepsHeldAlone(b, s, m);
  }

  // ---------------------------------------------------------------- sends

  ghost predicate WasSent(sends: seq<Sent>, item: nat) {
    exists k :: 0 <= k < |sends| && sends[k].item == item
  }

  ghost predicate InFlight(s: State, item: nat) {
    exists w :: 0 <= w < |s.workers| && s.workers[w] == Sending(item)
  }

  /** An item was sent once if it is in flight or answered, and not at all otherwise. */
  ghost predicate SentOnce(s: State) {
    && (forall j, k :: 0 <= j < k < |s.sends| ==> s.sends[j].item != s.sends[k].item)
    && (forall i: nat :: WasSent(s.sends, i) <==> InFlight(s, i) || (i < |s.results| && s.results[i].Some?))
  }

  lemma SendRecorded(sends: seq<Sent>, sent: Sent, item: nat)
    ensures WasSent(sends + [sent], item) <==> WasSent(sends, item) || item == sent.item
  {
    var more := sends + [sent];
    if WasSent(sends, item) {
      var k :| 0 <= k < |sends| && sends[k].item == item;
      assert more[k].item == item;
    }
    assert more[|sends|] == sent;
  }

  lemma FlightChanges(s: State, s': State, w: nat, item: nat)
    requires w < |s.workers| && |s'.workers| == |s.workers|
    requires forall v :: 0 <= v < |s.workers| && v != w ==> s'.workers[v] == s.workers[v]
    requires forall v :: 0 <= v < |s.workers| && v != w ==> s.workers[v] != s.workers[w] || !s.workers[w].Sending?
    ensures InFlight(s', item) <==>
              s'.workers[w] == Sending(item) || (InFlight(s, item) && s.workers[w] != Sending(item))
  {
    if InFlight(s, item) {
      var v :| 0 <= v < |s.workers| && s.workers[v] == Sending(item);
      assert v != w ==> s'.workers[v] == Sending(item);
    }
    if InFlight(s', item) {
      var v :| 0 <= v < |s'.workers| && s'.workers[v] == Sending(item);
      assert v != w ==> s.workers[v] == Sending(item);
    }
  }

  lemma StepKeepsSentOnce(b: Batch, s: State, m: Move)
    requires Inv(b, s) && SentOnce(s) && Enabled(b, s, m)
    ensures SentOnce(Apply(b, s, m))
  {
    var s' := Apply(b, s, m);
    if m.Elsewhere? {
      assert s'.workers == s.workers && s'.sends == s.sends && s'.results == s.results;
      forall i ensures InFlight(s', i) <==> InFlight(s, i) {
      }
    } else {
      var w := m.w;
      forall v | 0 <= v < |s.workers| && v != w ensures s.workers[v] != s.workers[w] || !s.workers[w].Sending? {
        assert Holding(s.workers[w]) >= 0 ==> Holding(s.workers[v]) != Holding(s.workers[w]);
      }
      if s'.sends != s.sends {
        var sent := Last(s'.sends);
        assert s'.sends == s.sends + [sent];
        NotSentYet(b, s, sent.item);
        forall i: nat ensures WasSent(s'.sends, i) <==> InFlight(s', i) || (i < |s'.results| && s'.results[i].Some?) {
          SendRecorded(s.sends, sent, i);
          FlightChanges(s, s', w, i);
        }
      } else {
        forall i: nat ensures WasSent(s'.sends, i) <==> InFlight(s', i) || (i < |s'.results| && s'.results[i].Some?) {
          FlightChanges(s, s', w, i);
        }
      }
    }
  }

  /** An item just claimed, or still polling, has not been sent. */
  lemma NotSentYet(b: Batch, s: State, item: nat)
    requires Inv(b, s) && SentOnce(s)
    requires item == s.next < |b.targets| || exists w :: 0 <= w < |s.workers| && s.workers[w] == Polling(item)
    ensures !WasSent(s.sends, item)
  {
    assert forall w :: 0 <= w < |s.workers| && s.workers[w].Sending? ==> Holding(s.workers[w]) == s.workers[w].item;
    assert forall w :: 0 <= w < |s.workers| && s.workers[w].Polling? ==> Holding(s.workers[w]) == s.workers[w].item;
  }

  // ---------------------------------------------------------------- whole runs

  predicate ValidRun(b: Batch, s: State, moves: seq<Move>)
    decreases |moves|
  {
    moves == [] || (Enabled(b, s, moves[0]) && ValidRun(b, Apply(b, s, moves[0]), moves[1..]))
  }

  function RunOf(b: Batch, s: State, moves: seq<Move>): State
    requires ValidRun(b, s, moves)
    decreases |moves|
  {
    if moves == [] then s else RunOf(b, Apply(b, s, moves[0]), moves[1..])
  }

  lemma {:induction false} RunKeepsInv(b: Batch, s: State, moves: seq<Move>)
    requires Inv(b, s) && SentOnce(s) && ValidRun(b, s, moves)
    ensures Inv(b, RunOf(b, s, moves)) && SentOnce(RunOf(b, s, moves))
    decreases |moves|
  {
    if moves == [] {
    } else {
      StepKeepsInv(b, s, moves[0]);
      StepKeepsSentOnce(b, s, moves[0]);
      RunKeepsInv(b, Apply(b, s, moves[0]), moves[1..]);
    }
  }

  predicate Finished(s: State) { forall w :: 0 <= w < |s.workers| ==> s.workers[w].Done? }

  /**
   Whatever the interleaving, and whatever the other items answered: once every worker
   is done, slot i holds item i's own outcome, and every item was sent exactly once.
   */
  lemma EveryItemItsOwnOutcome(b: Batch, meters: map<string, Meter>, clock: real, moves: seq<Move>)
    requires |b.replies| == |b.targets|
    requires ValidRun(b, Start(b, meters, clock), moves) && Finished(RunOf(b, Start(b, meters, clock), moves))
    ensures var s := RunOf(b, Start(b, meters, clock), moves);
            && s.results == seq(|b.replies|, i requires 0 <= i < |b.replies| => Some(b.replies[i]))
            && (forall i: nat :: i < |b.targets| <==> WasSent(s.sends, i))
            && (forall j, k :: 0 <= j < k < |s.sends| ==> s.sends[j].item != s.sends[k].item)
  {
    RunKeepsInv(b, Start(b, meters, clock), moves);
    var s := RunOf(b, Start(b, meters, clock), moves);
    assert b.targets != [] ==> s.workers[0].Done?;
    assert forall i: nat :: !InFlight(s, i) && (i < |b.replies| ==> !HeldBySome(s.workers, i));
    forall i: nat ensures i < |b.targets| <==> WasSent(s.sends, i) {
      assert !InFlight(s, i);
    }
  }

  ghost function Flight(workers: seq<Worker>): set<nat> {
    set w | 0 <= w < |workers| && workers[w].Sending? :: workers[w].item
  }

  lemma {:induction false} FlightIsSmall(workers: seq<Worker>)
    ensures |Flight(workers)| <= |workers|
  {
    if workers == [] {
    } else {
      var front := Front(workers);
      FlightIsSmall(front);
      assert forall w :: 0 <= w < |front| ==> workers[w] == front[w];
      if Last(workers).Sending? {
        assert Flight(workers) == Flight(front) + {Last(workers).item} by {
          assert workers[|workers| - 1] == Last(workers);
        }
      } else {
        assert Flight(workers) == Flight(front);
      }
    }
  }

  /** At every moment: the items in flight are distinct, and within both bounds and the batch. */
  lemma InFlightBound(b: Batch, meters: map<string, Meter>, clock: real, moves: seq<Move>)
    requires |b.replies| == |b.targets| && ValidRun(b, Start(b, meters, clock), moves)
    ensures var s := RunOf(b, Start(b, meters, clock), moves);
            && |Flight(s.workers)| <= EffectiveMaxParallel(b) && |Flight(s.workers)| <= |b.targets|
            && (forall v, w :: 0 <= v < w < |s.workers| && s.workers[v].Sending? && s.workers[w].Sending? ==>
                  s.workers[v].item != s.workers[w].item)
  {
    RunKeepsInv(b, Start(b, meters, clock), moves);
    var s := RunOf(b, Start(b, meters, clock), moves);
    FlightIsSmall(s.workers);
    forall v, w | 0 <= v < w < |s.workers| && s.workers[v].Sending? && s.workers[w].Sending?
      ensures s.workers[v].item != s.workers[w].item
    {
      assert Holding(s.workers[v]) >= 0;
    }
  }

  /** The first `k` workers have claimed an item each, the others none; unmetered items are in flight. */
  ghost predicate Filled(b: Batch, s: State, meters: map<string, Meter>, k: nat) {
    && s.next == k && |s.workers| == WorkerCount(b) && s.meters == meters
    && (forall w :: 0 <= w < k && w < |s.workers| ==>
          Holding(s.workers[w]) == w && (w < |b.targets| && b.targets[w] !in meters ==> s.workers[w] == Sending(w)))
    && (forall w :: k <= w < |s.workers| ==> s.workers[w].Idle?)
  }

  lemma {:induction false} FillFrom(b: Batch, s: State, meters: map<string, Meter>, k: nat) returns (moves: seq<Move>)
    requires Filled(b, s, meters, k) && k <= WorkerCount(b)
    ensures ValidRun(b, s, moves) && Filled(b, RunOf(b, s, moves), meters, WorkerCount(b))
    decreases WorkerCount(b) - k
  {
    if k == WorkerCount(b) {
      moves := [];
    } else {
      var rest := FillFrom(b, Apply(b, s, Claim(k)), meters, k + 1);
      moves := [Claim(k)] + rest;
      assert moves[1..] == rest;
    }
  }

  /** The bound is reached: as many workers as the limit and the batch allow can be busy at once, each with its own item. */
  lemma PoolFills(b: Batch, meters: map<string, Meter>, clock: real) returns (moves: seq<Move>)
    ensures ValidRun(b, Start(b, meters, clock), moves)
    ensures var s := RunOf(b, Start(b, meters, clock), moves);
            && (|s.workers| == EffectiveMaxParallel(b) || |s.workers| == |b.targets|)
            && |s.workers| <= EffectiveMaxParallel(b) && |s.workers| <= |b.targets|
            && (forall w :: 0 <= w < |s.workers| ==> Holding(s.workers[w]) == w)
            && ((forall t :: t in b.targets ==> t !in meters) ==> forall w :: 0 <= w < |s.workers| ==> s.workers[w] == Sending(w))
  {
    moves := FillFrom(b, Start(b, meters, clock), meters, 0);
  }

  /** A batch that is not finished can always move: no worker waits for another. */
  lemma NeverStuck(b: Batch, s: State)
    requires Inv(b, s) && !Finished(s)
    ensures exists m: Move :: Enabled(b, s, m) && !m.Elsewhere?
  {
    var w: nat :| w < |s.workers| && !s.workers[w].Done?;
    match s.workers[w]
    case Idle => assert Enabled(b, s, Claim(w));
    case Polling(item) => assert Enabled(b, s, Poll(w, s.clock));
    case Sending(item) =>
      assert Holding(s.workers[w]) < s.next;
      assert Enabled(b, s, Complete(w));
  }

  function Weight(worker: Worker): nat {
    match worker case Idle => 1 case Polling(_) => 3 case Sending(_) => 2 case Done => 0
  }

  function Effort(workers: seq<Worker>): nat {
    if workers == [] then 0
    else Effort(Front(workers)) + Weight(Last(workers))
  }

  lemma {:induction false} EffortChanges(workers: seq<Worker>, w: nat, worker: Worker)
    requires w < |workers|
    ensures Effort(workers[w := worker]) - Effort([worker]) == Effort(workers) - Effort([workers[w]])
  {
    var changed := workers[w := worker];
    assert Front([worker]) == [] && Front([workers[w]]) == [];
    if w == |workers| - 1 {
      assert Front(changed) == Front(workers);
    } else {
      assert Front(changed) == Front(workers)[w := worker];
      EffortChanges(Front(workers), w, worker);
    }
  }

  function Remaining(b: Batch, s: State): int { 4 * (|b.targets| - s.next) + Effort(s.workers) }

  predicate Refused(b: Batch, s: State, m: Move)
    requires Enabled(b, s, m)
  {
    m.Poll? &&
    var meter := s.meters[b.targets[s.workers[m.w].item]];
    !Grants(meter.opts, LevelOf(meter), m.now, 1.0)
  }

  lemma EffortOf(workers: seq<Worker>, w: nat, worker: Worker)
    requires w < |workers|
    ensures Effort(workers[w := worker]) == Effort(workers) + Weight(worker) - Weight(workers[w])
  {
    EffortChanges(workers, w, worker);
    assert Front([worker]) == [] && Front([workers[w]]) == [];
  }

  /** Only a refused poll makes no headway, so nothing else can keep a batch from finishing. */
  lemma OnlyRefusalsWait(b: Batch, s: State, m: Move)
    requires Inv(b, s) && Enabled(b, s, m) && !m.Elsewhere?
    ensures 0 <= Remaining(b, s)
    ensures if Refused(b, s, m) then Remaining(b, Apply(b, s, m)) == Remaining(b, s)
            else Remaining(b, Apply(b, s, m)) < Remaining(b, s)
  {
    var s' := Apply(b, s, m);
    var worker := s'.workers[m.w];
    EffortOf(s.workers, m.w, worker);
    assert s'.workers == s.workers[m.w := worker];
  }

  // ---------------------------------------------------------------- sends per interval

  /** How many of the sends to `target` happened from `t` to `u`. */
  function SendsWithin(b: Batch, sends: seq<Sent>, target: string, t: real, u: real): real {
    if sends == [] then 0.0
    else
      SendsWithin(b, Front(sends), target, t, u)
      + if Last(sends).item < |b.targets| && b.targets[Last(sends).item] == target && t <= Last(sends).at <= u then 1.0 else 0.0
  }

  /** A meter whose every call came in order, up to the present. */
  ghost predicate Metered(m: Meter, clock: real) {
    && Sane(m.opts) && m.born <= clock
    && OrderedCalls(m.calls, m.born)
    && (forall i :: 0 <= i < |m.calls| ==> m.calls[i].at <= clock)
  }

  /** One more call on a meter, and what it adds to the grants of an interval. */
  lemma MeteredCall(m: Meter, clock: real, call: Call, t: real, u: real)
    requires Metered(m, clock) && clock <= call.at && (call.Try? ==> call.n >= 0.0)
    ensures Metered(m.(calls := m.calls + [call]), call.at)
    ensures TotalWithin(GrantedBy(m.(calls := m.calls + [call])), t, u) ==
            TotalWithin(GrantedBy(m), t, u)
            + if call.Try? && Grants(m.opts, LevelOf(m), call.at, call.n) && t <= call.at <= u then call.n else 0.0
  {
    CallsAppend(m.opts, Created(m.opts, m.born), m.calls, call);
    if call.Try? {
      WithinAppends(GrantedBy(m), Request(call.at, call.n), t, u);
    }
    assert GrantedBy(m) + [] == GrantedBy(m);
  }

  /** Each send of this batch to a bucketed target is one of that bucket's grants. */
  lemma {:induction false} SendsAreGrants(b: Batch, s: State, moves: seq<Move>, target: string, t: real, u: real)
    requires Inv(b, s) && ValidRun(b, s, moves) && target in s.meters && Metered(s.meters[target], s.clock)
    requires SendsWithin(b, s.sends, target, t, u) <= TotalWithin(GrantedBy(s.meters[target]), t, u)
    ensures var s' := RunOf(b, s, moves);
            && target in s'.meters && s'.meters[target].opts == s.meters[target].opts
            && Metered(s'.meters[target], s'.clock)
            && SendsWithin(b, s'.sends, target, t, u) <= TotalWithin(GrantedBy(s'.meters[target]), t, u)
    decreases |moves|
  {
    if moves == [] {
    } else {
      StepKeepsInv(b, s, moves[0]);
      StepSendsAreGrants(b, s, moves[0], target, t, u);
      SendsAreGrants(b, Apply(b, s, moves[0]), moves[1..], target, t, u);
    }
  }

  lemma StepSendsAreGrants(b: Batch, s: State, m: Move, target: string, t: real, u: real)
    requires Inv(b, s) && Enabled(b, s, m) && target in s.meters && Metered(s.meters[target], s.clock)
    requires SendsWithin(b, s.sends, target, t, u) <= TotalWithin(GrantedBy(s.meters[target]), t, u)
    ensures var s' := Apply(b, s, m);
            && target in s'.meters && s'.meters[target].opts == s.meters[target].opts
            && Metered(s'.meters[target], s'.clock)
            && SendsWithin(b, s'.sends, target, t, u) <= TotalWithin(GrantedBy(s'.meters[target]), t, u)
  {
    var s', meter := Apply(b, s, m), s.meters[target];
    if s'.sends != s.sends {
      assert Front(s'.sends) == s.sends;
    }
    if m.Poll? || m.Elsewhere? {
      var called := if m.Poll? then b.targets[s.workers[m.w].item] else m.target;
      var call := if m.Poll? then Try(m.now, 1.0) else m.call;
      if called == target {
        MeteredCall(meter, s.clock, call, t, u);
      }
    }
  }

  /** The bucket law and the dispatcher composed: a bound on sends to a bucketed target in any interval. */
  lemma SendRateBound(b: Batch, meters: map<string, Meter>, clock: real, moves: seq<Move>, target: string, t: real, u: real)
    requires |b.replies| == |b.targets| && ValidRun(b, Start(b, meters, clock), moves)
    requires target in meters && Metered(meters[target], clock) && t <= u
    ensures var o := meters[target].opts;
            var sent := SendsWithin(b, RunOf(b, Start(b, meters, clock), moves).sends, target, t, u);
            1000.0 * (sent - o.capacity) <= (u - t) * o.refillPerSec
  {
    var s0 := Start(b, meters, clock);
    var g := GrantedBy(meters[target]);
    GrantsAreOrdered(meters[target].opts, Created(meters[target].opts, meters[target].born), meters[target].calls, meters[target].born);
    NothingWithin(g, meters[target].born, t, u);
    SendsAreGrants(b, s0, moves, target, t, u);
    var s := RunOf(b, s0, moves);
    var m := s.meters[target];
    var full := Created(m.opts, m.born);
    GrantsAreOrdered(m.opts, full, m.calls, m.born);
    GrantsAloneMatter(m.opts, full, full, m.calls);
    ExactLaw(m.opts, m.born, GrantedBy(m));
    IntervalBound(m.opts, GrantedBy(m), m.born, t, u);
  }

  lemma {:induction false} NothingWithin(reqs: seq<Request>, from: real, t: real, u: real)
    requires Ordered(reqs, from)
    ensures TotalWithin(reqs, t, u) >= 0.0
  {
    if reqs == [] {
    } else {
      NothingWithin(reqs[1..], from, t, u);
    }
  }

  // ---------------------------------------------------------------- the call itself

  /** One `dispatchAll` call: the shared index, the result slots, and where each worker stands. */
  class DispatchCall {
    const batch: Batch
    const buckets: map<string, Bucket>
    var next: nat
    var workers: seq<Worker>
    var results: seq<Option<Outcome>>
    ghost var meters: map<string, Meter>
    ghost var clock: real
    ghost var sends: seq<Sent>

    ghost function View(): State
      reads this
    {
      State(next, workers, results, meters, clock, sends)
    }

    ghost predicate Valid()
      reads this, set t | t in buckets :: buckets[t]
    {
      Inv(batch, View()) && Metering()
    }

    /** The buckets are distinct objects, each at the level its calls have led to. */
    ghost predicate Metering()
      reads this, set t | t in buckets :: buckets[t]
    {
      && buckets.Keys == meters.Keys
      && (forall t :: t in buckets ==> buckets[t].opts == meters[t].opts && buckets[t].View() == LevelOf(meters[t]))
      && (forall t, u :: t in buckets && u in buckets && t != u ==> buckets[t] != buckets[u])
    }

    constructor (batch: Batch, buckets: map<string, Bucket>, ghost meters: map<string, Meter>, ghost clock: real)
      requires |batch.replies| == |batch.targets| && buckets.Keys == meters.Keys
      requires forall t :: t in buckets ==> buckets[t].opts == meters[t].opts && buckets[t].View() == LevelOf(meters[t])
      requires forall t, u :: t in buckets && u in buckets && t != u ==> buckets[t] != buckets[u]
      ensures Valid() && this.batch == batch && this.buckets == buckets
      ensures View() == Start(batch, meters, clock)
    {
      this.batch, this.buckets := batch, buckets;
      next, sends := 0, [];
      workers := seq(WorkerCount(batch), _ => Idle);
      results := seq(|batch.targets|, _ => None);
      this.meters, this.clock := meters, clock;
      new;
      StartHolds(batch, meters, clock);
    }

    /** The top of a worker's loop, up to its first await. */
    method ClaimNext(w: nat)
      requires Valid() && w < |workers| && workers[w].Idle?
      modifies this
      ensures Valid() && View() == Apply(batch, old(View()), Claim(w))
    {
      StepKeepsInv(batch, View(), Claim(w));
      var i := next;
      if i >= |batch.targets| {
        workers := workers[w := Done];
        return;
      }
      next := next + 1;
      if batch.targets[i] in buckets {
        workers := workers[w := Polling(i)];
      } else {
        workers := workers[w := Sending(i)];
        sends := sends + [Sent(i, clock)];
      }
    }

    /** A token asked of a bucket, and the call on its meter. */
    method AskFor(target: string, now: real) returns (allowed: bool)
      requires Metering() && target in buckets
      modifies this`meters, this`clock, buckets[target]
      ensures Metering() && View() == Called(old(View()), target, Try(now, 1.0))
      ensures allowed == Grants(old(meters[target]).opts, LevelOf(old(meters[target])), now, 1.0)
    {
      ghost var m := meters[target];
      assert LevelOf(m.(calls := m.calls + [Try(now, 1.0)])) == Take(m.opts, LevelOf(m), now, 1.0) by {
        CallsAppend(m.opts, Created(m.opts, m.born), m.calls, Try(now, 1.0));
      }
      allowed := buckets[target].TryTake(1.0, now);
      meters := meters[target := m.(calls := m.calls + [Try(now, 1.0)])];
      clock := now;
    }

    /** One turn of the wait for a token. */
    method PollBucket(w: nat, now: real) returns (allowed: bool)
      requires Valid() && w < |workers| && workers[w].Polling? && clock <= now
      modifies this, buckets[batch.targets[workers[w].item]]
      ensures Valid() && View() == Apply(batch, old(View()), Poll(w, now))
      ensures allowed == !Refused(batch, old(View()), Poll(w, now))
    {
      StepKeepsInv(batch, View(), Poll(w, now));
      var i := workers[w].item;
      allowed := AskFor(batch.targets[i], now);
      hide Inv, Grants;
      if allowed {
        workers := workers[w := Sending(i)];
        sends := sends + [Sent(i, now)];
      }
    }

    /** The send settled; its outcome, failure included, goes to the item's own slot. */
    method Settle(w: nat, outcome: Outcome)
      requires Valid() && w < |workers| && workers[w].Sending?
      requires outcome == batch.replies[Holding(workers[w])]
      modifies this
      ensures Valid() && View() == Apply(batch, old(View()), Complete(w))
    {
      StepKeepsInv(batch, View(), Complete(w));
      var i := workers[w].item;
      results := results[i := Some(outcome)];
      workers := workers[w := Idle];
    }
  }
}
