/**
 The circuit breaker, one state machine for each key: closed, open, half-open, with a
 sliding window of recent outcomes and one probe in each half-open episode. The clock
 reading of a call is its argument.
 */
module Breaker {
  import opened Common

  datatype Options = Options(windowSize: nat, failureThreshold: real, openMs: int)

  datatype Status = Closed | Open | HalfOpen

  datatype KeyState = KeyState(status: Status, window: seq<bool>, openedAt: int, probeInFlight: bool)

  const FRESH := KeyState(Closed, [], 0, false)

  datatype Call = ReadState | AllowProbe | RecordSuccess | RecordFailure

  /** What a call leaves behind: an outcome, a probe let through in half-open, a transition. */
  datatype Mark = Recorded(ok: bool) | Probed | Moved(from: Status, to: Status, at: int)

  datatype Effect = Effect(state: KeyState, marks: seq<Mark>, allowed: bool)

  function Failures(window: seq<bool>): nat {
    if window == [] then 0 else Failures(Front(window)) + if Last(window) then 0 else 1
  }

  ghost function FailedAt(window: seq<bool>): set<nat> { set i: nat | i < |window| && !window[i] }

  /** As many failures as there are outcomes in the window that failed. */
  lemma {:induction false} FailuresAreCounted(window: seq<bool>)
    ensures Failures(window) == |FailedAt(window)|
  {
    if window == [] {
    } else {
      FailuresAreCounted(Front(window));
      var n: nat := |window| - 1;
      assert FailedAt(window) == FailedAt(Front(window)) + if Last(window) then {} else {n};
    }
  }

  /** A full window at or above the threshold, the quotient multiplied out; an empty one never is. */
  predicate Trips(o: Options, window: seq<bool>) {
    |window| >= o.windowSize && |window| > 0 && Failures(window) as real >= o.failureThreshold * |window| as real
  }

  /** `Trips` compares the failure rate; dividing by an empty window's length gives no number. */
  lemma TripsComparesRates(o: Options, window: seq<bool>)
    requires window != []
    ensures Trips(o, window) <==>
              |window| >= o.windowSize && Failures(window) as real / |window| as real >= o.failureThreshold
  {
    RateAtLeast(Failures(window) as real, |window| as real, o.failureThreshold);
  }

  lemma RateAtLeast(failures: real, n: real, threshold: real)
    requires n > 0.0
    ensures failures / n >= threshold <==> failures >= threshold * n
  {
    var rate := failures / n;
    assert rate * n == failures;
    if rate >= threshold {
      ScaledUp(threshold, rate, n);
    } else {
      ScaledUpStrictly(rate, threshold, n);
    }
  }

  function Push(o: Options, window: seq<bool>, ok: bool): seq<bool> {
    var w := window + [ok];
    if |w| > o.windowSize then w[1..] else w
  }

  function Promote(o: Options, s: KeyState, now: int): Effect {
    if s.status == Open && now - s.openedAt >= o.openMs then
      Effect(s.(status := HalfOpen, probeInFlight := false), [Moved(Open, HalfOpen, now)], false)
    else Effect(s, [], false)
  }

  function Step(o: Options, s: KeyState, call: Call, now: int): Effect {
    match call
    case ReadState => Promote(o, s, now)
    case AllowProbe =>
      var p := Promote(o, s, now);
      match p.state.status {
        case Closed => p.(allowed := true)
        case Open => p
        case HalfOpen =>
          if p.state.probeInFlight then p
          else Effect(p.state.(probeInFlight := true), p.marks + [Probed], true)
      }
    case RecordSuccess =>
      if s.status == HalfOpen then
        Effect(s.(status := Closed, window := [], probeInFlight := false), [Recorded(true), Moved(HalfOpen, Closed, now)], false)
      else Effect(s.(window := Push(o, s.window, true)), [Recorded(true)], false)
    case RecordFailure =>
      if s.status == HalfOpen then
        Effect(KeyState(Open, [], now, false), [Recorded(false), Moved(HalfOpen, Open, now)], false)
      else if s.status == Open then Effect(s, [Recorded(false)], false)
      else
        var w := Push(o, s.window, false);
        if Trips(o, w) then Effect(s.(status := Open, openedAt := now, window := []), [Recorded(false), Moved(Closed, Open, now)], false)
        else Effect(s.(window := w), [Recorded(false)], false)
  }

  // ---------------------------------------------------------------- reading a history

  function Current(marks: seq<Mark>): Status {
    if marks == [] then Closed else if Last(marks).Moved? then Last(marks).to else Current(Front(marks))
  }

  /** The outcomes recorded since the last transition. */
  function Since(marks: seq<Mark>): seq<bool> {
    if marks == [] || Last(marks).Moved? then []
    else Since(Front(marks)) + if Last(marks).Recorded? then [Last(marks).ok] else []
  }

  predicate ProbedSince(marks: seq<Mark>) {
    marks != [] && !Last(marks).Moved? && (Last(marks).Probed? || ProbedSince(Front(marks)))
  }

  /** When the breaker last opened. */
  function OpenedAt(marks: seq<Mark>): int {
    if marks == [] then 0 else if Last(marks).Moved? && Last(marks).to == Open then Last(marks).at else OpenedAt(Front(marks))
  }

  /**
   Everything the design promises of a key's history, by its last mark: transitions form
   an unbroken legal walk from closed; it opens on a failure that leaves the last
   `windowSize` outcomes since it closed full and at the threshold; half-open waits for
   the cooldown; and a half-open episode lets one probe through.
   */
  ghost predicate Legal(o: Options, marks: seq<Mark>) {
    marks == [] ||
    (Legal(o, Front(marks)) &&
     match Last(marks)
     case Recorded(_) => true
     case Probed => Current(Front(marks)) == HalfOpen && !ProbedSince(Front(marks))
     case Moved(from, to, at) =>
       && from == Current(Front(marks))
       && match (from, to) {
            case (Closed, Open) =>
              && Front(marks) != [] && Last(Front(marks)) == Recorded(false)
              && Trips(o, LastN(Since(Front(marks)), o.windowSize))
            case (Open, HalfOpen) => at - OpenedAt(Front(marks)) >= o.openMs
            case (HalfOpen, Closed) => Front(marks) != [] && Last(Front(marks)) == Recorded(true)
            case (HalfOpen, Open) => Front(marks) != [] && Last(Front(marks)) == Recorded(false)
            case _ => false
          })
  }

  /** How a key's state reflects its history. */
  ghost predicate Reflects(o: Options, s: KeyState, marks: seq<Mark>) {
    && s.status == Current(marks)
    && |s.window| <= o.windowSize
    && (s.status == Closed ==> s.window == LastN(Since(marks), o.windowSize))
    && (s.status == Open ==> s.openedAt == OpenedAt(marks))
    && (s.status == HalfOpen ==> (s.probeInFlight <==> ProbedSince(marks)))
  }

  lemma OneMark(marks: seq<Mark>, m: Mark)
    ensures Front(marks + [m]) == marks && Last(marks + [m]) == m
  {
  }

  lemma PushIsLastN(o: Options, outcomes: seq<bool>, ok: bool)
    ensures Push(o, LastN(outcomes, o.windowSize), ok) == LastN(outcomes + [ok], o.windowSize)
  {
  }

  lemma RecordedMark(o: Options, marks: seq<Mark>, ok: bool)
    requires Legal(o, marks)
    ensures var more := marks + [Recorded(ok)];
            && Legal(o, more) && Current(more) == Current(marks) && Since(more) == Since(marks) + [ok]
            && OpenedAt(more) == OpenedAt(marks) && ProbedSince(more) == ProbedSince(marks)
  {
    OneMark(marks, Recorded(ok));
  }

  lemma PromoteKeeps(o: Options, s: KeyState, marks: seq<Mark>, now: int)
    requires Legal(o, marks) && Reflects(o, s, marks)
    ensures var e := Promote(o, s, now);
            Legal(o, marks + e.marks) && Reflects(o, e.state, marks + e.marks)
  {
    assert marks + [] == marks;
    OneMark(marks, Moved(Open, HalfOpen, now));
  }

  /** An outcome and nothing else: the window takes it, and the history says so. */
  lemma OutcomeKeeps(o: Options, s: KeyState, marks: seq<Mark>, ok: bool)
    requires Legal(o, marks) && Reflects(o, s, marks)
    ensures Legal(o, marks + [Recorded(ok)])
    ensures Reflects(o, s.(window := Push(o, s.window, ok)), marks + [Recorded(ok)])
    ensures s.status == Open ==> Reflects(o, s, marks + [Recorded(ok)])
    ensures s.status == Closed ==> Push(o, s.window, ok) == LastN(Since(marks + [Recorded(ok)]), o.windowSize)
  {
    hide Trips;
    RecordedMark(o, marks, ok);
    OneMark(marks, Recorded(ok));
    PushIsLastN(o, Since(marks), ok);
  }

  /** What a transition leaves to be said. */
  lemma AfterMove(marks: seq<Mark>, moved: Mark)
    requires moved.Moved?
    ensures var next := marks + [moved];
            && Current(next) == moved.to && Since(next) == [] && !ProbedSince(next)
            && OpenedAt(next) == if moved.to == Open then moved.at else OpenedAt(marks)
  {
    assert Front(marks + [moved]) == marks;
  }

  /** A state made for a transition is in step with it. */
  lemma TransitionKeeps(o: Options, marks: seq<Mark>, moved: Mark, s: KeyState)
    requires moved.Moved?
    ensures
      var made := s.status == moved.to && s.window == [] && (s.status == Open ==> s.openedAt == moved.at);
      made && s.status != HalfOpen ==> Reflects(o, s, marks + [moved])
  {
    AfterMove(marks, moved);
  }

  /** A probe let through is the first of its episode. */
  lemma ProbeKeeps(o: Options, s: KeyState, marks: seq<Mark>, now: int)
    requires Legal(o, marks) && Reflects(o, s, marks)
    ensures var e := Step(o, s, AllowProbe, now);
            Legal(o, marks + e.marks) && Reflects(o, e.state, marks + e.marks)
  {
    hide Trips;
    var p := Promote(o, s, now);
    PromoteKeeps(o, s, marks, now);
    OneMark(marks + p.marks, Probed);
    assert marks + (p.marks + [Probed]) == (marks + p.marks) + [Probed];
  }

  /** Every call keeps the history legal and the state in step with it. */
  lemma StepKeeps(o: Options, s: KeyState, marks: seq<Mark>, call: Call, now: int)
    requires Legal(o, marks) && Reflects(o, s, marks)
    ensures var e := Step(o, s, call, now);
            Legal(o, marks + e.marks) && Reflects(o, e.state, marks + e.marks)
  {
    match call
    case ReadState => PromoteKeeps(o, s, marks, now);
    case AllowProbe => ProbeKeeps(o, s, marks, now);
    case _ =>
      var ok := call == RecordSuccess;
      OutcomeKeeps(o, s, marks, ok);
      hide Trips, Push, Since, OpenedAt, ProbedSince;
      var recorded, moved := marks + [Recorded(ok)], Moved(s.status, if ok then Closed else Open, now);
      assert marks + [Recorded(ok), moved] == recorded + [moved];
      assert Front(recorded + [moved]) == recorded && Last(recorded) == Recorded(ok);
      TransitionKeeps(o, recorded, moved, Step(o, s, call, now).state);
  }

  /** Exactly when a closed breaker opens, in terms of what was recorded since it closed. */
  lemma OpensExactlyWhenTripped(o: Options, s: KeyState, marks: seq<Mark>, call: Call, now: int)
    requires Legal(o, marks) && Reflects(o, s, marks) && s.status == Closed
    ensures Step(o, s, call, now).state.status == Open <==>
              call == RecordFailure && Trips(o, LastN(Since(marks) + [false], o.windowSize))
  {
    PushIsLastN(o, Since(marks), false);
  }

  // ---------------------------------------------------------------- whole runs, many keys

  datatype KeyedCall = KeyedCall(key: string, call: Call, now: int)

  function StateOf(keys: map<string, KeyState>, key: string): KeyState { if key in keys then keys[key] else FRESH }

  function StepKey(o: Options, keys: map<string, KeyState>, c: KeyedCall): map<string, KeyState> {
    keys[c.key := Step(o, StateOf(keys, c.key), c.call, c.now).state]
  }

  /** All keys, after `calls`. */
  function RunAll(o: Options, calls: seq<KeyedCall>): map<string, KeyState> {
    if calls == [] then map[] else StepKey(o, RunAll(o, Front(calls)), Last(calls))
  }

  /** One key by itself, after its own calls. */
  function RunOne(o: Options, calls: seq<KeyedCall>): KeyState {
    if calls == [] then FRESH else Step(o, RunOne(o, Front(calls)), Last(calls).call, Last(calls).now).state
  }

  function MarksOf(o: Options, calls: seq<KeyedCall>): seq<Mark> {
    if calls == [] then []
    else MarksOf(o, Front(calls)) + Step(o, RunOne(o, Front(calls)), Last(calls).call, Last(calls).now).marks
  }

  function Own(calls: seq<KeyedCall>, key: string): seq<KeyedCall> {
    if calls == [] then [] else Own(Front(calls), key) + if Last(calls).key == key then [Last(calls)] else []
  }

  /** A key's state depends only on that key's own calls and their clock readings. */
  lemma {:induction false} KeysAreIndependent(o: Options, calls: seq<KeyedCall>, key: string)
    ensures StateOf(RunAll(o, calls), key) == RunOne(o, Own(calls, key))
  {
    if calls == [] {
    } else {
      KeysAreIndependent(o, Front(calls), key);
      if Last(calls).key == key {
        assert Own(calls, key) == Own(Front(calls), key) + [Last(calls)];
        assert Front(Own(calls, key)) == Own(Front(calls), key) && Last(Own(calls, key)) == Last(calls);
      } else {
        assert Own(calls, key) == Own(Front(calls), key);
      }
    }
  }

  /** Over every run: the history is legal, and the state is what the history says. */
  lemma {:induction false} RunIsLegal(o: Options, calls: seq<KeyedCall>)
    ensures Legal(o, MarksOf(o, calls)) && Reflects(o, RunOne(o, calls), MarksOf(o, calls))
  {
    if calls == [] {
    } else {
      RunIsLegal(o, Front(calls));
      StepKeeps(o, RunOne(o, Front(calls)), MarksOf(o, Front(calls)), Last(calls).call, Last(calls).now);
    }
  }

  /** Where a key goes next, in terms of what its history says. */
  ghost function NextStatus(o: Options, marks: seq<Mark>, call: Call, now: int): Status {
    match Current(marks)
    case Closed => if call == RecordFailure && Trips(o, LastN(Since(marks) + [false], o.windowSize)) then Open else Closed
    case Open => if (call == ReadState || call == AllowProbe) && now - OpenedAt(marks) >= o.openMs then HalfOpen else Open
    case HalfOpen => if call == RecordSuccess then Closed else if call == RecordFailure then Open else HalfOpen
  }

  /**
   After every run, the history alone decides the next call: where the key goes, and whether a
   request is let through -- always while closed, once in each half-open episode, and never while open.
   */
  lemma HistoryDecides(o: Options, calls: seq<KeyedCall>, call: Call, now: int)
    ensures var marks, e := MarksOf(o, calls), Step(o, RunOne(o, calls), call, now);
            && e.state.status == NextStatus(o, marks, call, now)
            && (e.allowed <==>
                  call == AllowProbe
                  && (Current(marks) == Closed
                      || (NextStatus(o, marks, call, now) == HalfOpen && (Current(marks) == Open || !ProbedSince(marks)))))
  {
    hide RunOne, MarksOf, Reflects, Legal, Step;
    RunIsLegal(o, calls);
    StepIsDecided(o, RunOne(o, calls), MarksOf(o, calls), call, now);
  }

  lemma StepIsDecided(o: Options, s: KeyState, marks: seq<Mark>, call: Call, now: int)
    requires Reflects(o, s, marks)
    ensures var e := Step(o, s, call, now);
            && e.state.status == NextStatus(o, marks, call, now)
            && (e.allowed <==>
                  call == AllowProbe
                  && (Current(marks) == Closed
                      || (NextStatus(o, marks, call, now) == HalfOpen && (Current(marks) == Open || !ProbedSince(marks)))))
  {
    hide Since, ProbedSince, OpenedAt, Current, Trips, Push, LastN;
    PushIsLastN(o, Since(marks), false);
  }

  /** Between two probes of any run the breaker changed state: one probe an episode. */
  lemma {:induction false} OneProbePerEpisode(o: Options, marks: seq<Mark>, i: nat, j: nat)
    requires Legal(o, marks) && i < j < |marks| && marks[i].Probed? && marks[j].Probed?
    ensures exists k :: i < k < j && marks[k].Moved?
  {
    if j < |marks| - 1 {
      OneProbePerEpisode(o, Front(marks), i, j);
      var k :| i < k < j && Front(marks)[k].Moved?;
      assert marks[k].Moved?;
    } else {
      NotProbedSince(Front(marks), i);
      var k :| i < k < |Front(marks)| && Front(marks)[k].Moved?;
      assert marks[k].Moved?;
    }
  }

  lemma {:induction false} NotProbedSince(marks: seq<Mark>, i: nat)
    requires i < |marks| && marks[i].Probed? && !ProbedSince(marks)
    ensures exists k :: i < k < |marks| && marks[k].Moved?
  {
    if Last(marks).Moved? {
      assert marks[|marks| - 1].Moved?;
    } else {
      NotProbedSince(Front(marks), i);
      var k :| i < k < |Front(marks)| && Front(marks)[k].Moved?;
      assert marks[k].Moved?;
    }
  }

  /** Every half-open episode begins at least `openMs` after the opening it follows, nothing in between. */
  lemma {:induction false} CooldownElapses(o: Options, marks: seq<Mark>, j: nat)
    requires Legal(o, marks) && j < |marks| && marks[j].Moved? && marks[j].to == HalfOpen
    ensures exists i :: 0 <= i < j && marks[i].Moved? && marks[i].to == Open && marks[j].at - marks[i].at >= o.openMs
              && forall k :: i < k < j ==> !marks[k].Moved?
  {
    var front := Front(marks);
    if j < |marks| - 1 {
      CooldownElapses(o, front, j);
      var i :| 0 <= i < j && front[i].Moved? && front[i].to == Open && front[j].at - front[i].at >= o.openMs
                 && forall k :: i < k < j ==> !front[k].Moved?;
      assert marks[i] == front[i] && forall k :: i < k < j ==> marks[k] == front[k];
    } else {
      var i := OpeningOf(o, front);
      assert marks[i] == front[i] && forall k :: i < k < j ==> marks[k] == front[k];
    }
  }

  lemma {:induction false} OpeningOf(o: Options, marks: seq<Mark>) returns (i: nat)
    requires Legal(o, marks) && Current(marks) == Open
    ensures i < |marks| && marks[i].Moved? && marks[i].to == Open && marks[i].at == OpenedAt(marks)
    ensures forall k :: i < k < |marks| ==> !marks[k].Moved?
  {
    if Last(marks).Moved? {
      i := |marks| - 1;
    } else {
      i := OpeningOf(o, Front(marks));
      assert forall k :: i < k < |marks| - 1 ==> marks[k] == Front(marks)[k];
    }
  }

  /**
   Exactly when a closed breaker is left at the threshold: a failure that reaches it opens the
   breaker, but a success can leave a full window there, and never trips it.
   */
  lemma SuccessNeverTrips(o: Options, s: KeyState, call: Call, now: int)
    requires s.status == Closed && !Trips(o, s.window)
    ensures var after := Step(o, s, call, now).state;
            (after.status == Closed && Trips(o, after.window)) <==> (call == RecordSuccess && Trips(o, Push(o, s.window, true)))
    ensures call == RecordSuccess ==> Step(o, s, call, now).state.status == Closed
  {
  }

  ghost predicate AtThreshold(o: Options, s: KeyState) { s.status == Closed && Trips(o, s.window) }

  lemma StepToThreshold(o: Options, s: KeyState, marks: seq<Mark>, call: Call, now: int)
    requires AtThreshold(o, s) ==> Since(marks) != [] && Last(Since(marks))
    ensures var e := Step(o, s, call, now);
            AtThreshold(o, e.state) ==> Since(marks + e.marks) != [] && Last(Since(marks + e.marks))
  {
    OneMark(marks, Recorded(true));
    hide Failures;
    assert marks + [] == marks;
    if call == AllowProbe {
      var p := Promote(o, s, now);
      assert p.state.status == Closed ==> p.state == s && p.marks == [];
    }
  }

  /** Over every run: what leaves a closed key at the threshold is a success, the last outcome recorded since it closed. */
  lemma {:induction false} ThresholdByASuccess(o: Options, calls: seq<KeyedCall>)
    ensures AtThreshold(o, RunOne(o, calls)) ==> Since(MarksOf(o, calls)) != [] && Last(Since(MarksOf(o, calls)))
  {
    if calls == [] {
      assert !AtThreshold(o, FRESH);
    } else {
      ThresholdByASuccess(o, Front(calls));
      StepToThreshold(o, RunOne(o, Front(calls)), MarksOf(o, Front(calls)), Last(calls).call, Last(calls).now);
    }
  }

  /** And there is such a run: one failure and one success, with a window of two and a threshold of a half. */
  lemma ThresholdIsReached(key: string, now: int)
    ensures AtThreshold(Options(2, 0.5, 0),
              RunOne(Options(2, 0.5, 0), [KeyedCall(key, RecordFailure, now), KeyedCall(key, RecordSuccess, now)]))
  {
    var two, failure := Options(2, 0.5, 0), KeyedCall(key, RecordFailure, now);
    HalfFailed();
    assert Front([failure, KeyedCall(key, RecordSuccess, now)]) == [failure] && Front([failure]) == [];
    assert [] + [false] == [false] && [false] + [true] == [false, true];
    assert RunOne(two, [failure]) == FRESH.(window := [false]);
    hide Trips;
  }

  lemma HalfFailed()
    ensures !Trips(Options(2, 0.5, 0), [false]) && Trips(Options(2, 0.5, 0), [false, true])
  {
    FailuresOfTwo();
    assert 1 as real >= 0.5 * 2 as real;
  }

  lemma FailuresOfTwo()
    ensures Failures([false, true]) == 1
  {
    assert Front([false, true]) == [false] && Front([false]) == [];
  }

  // ---------------------------------------------------------------- the object

  datatype Transition = Transition(key: string, from: Status, to: Status, at: int)

  function Emitted(key: string, marks: seq<Mark>): seq<Transition> {
    if marks == [] then []
    else Emitted(key, Front(marks)) + if Last(marks).Moved? then [Transition(key, Last(marks).from, Last(marks).to, Last(marks).at)] else []
  }

  lemma EmittedNext(key: string, marks: seq<Mark>, m: Mark)
    ensures Emitted(key, [m]) == if m.Moved? then [Transition(key, m.from, m.to, m.at)] else []
    ensures Emitted(key, marks + [m]) == Emitted(key, marks) + Emitted(key, [m])
  {
    assert Front([m]) == [];
    assert Front(marks + [m]) == marks;
  }

  lemma ProbeIsSilent(key: string, marks: seq<Mark>)
    ensures Emitted(key, marks + [Probed]) == Emitted(key, marks)
  {
    EmittedNext(key, marks, Probed);
    assert Emitted(key, marks) + [] == Emitted(key, marks);
  }

  lemma EmittedPair(key: string, ok: bool, m: Mark)
    requires m.Moved?
    ensures Emitted(key, [Recorded(ok)]) == []
    ensures Emitted(key, [Recorded(ok), m]) == [Transition(key, m.from, m.to, m.at)]
  {
    EmittedNext(key, [], Recorded(ok));
    EmittedNext(key, [Recorded(ok)], m);
    assert [Recorded(ok)] + [m] == [Recorded(ok), m];
  }

  /** What a run of calls emits, all keys together. */
  function EmittedBy(o: Options, calls: seq<KeyedCall>): seq<Transition> {
    if calls == [] then []
    else
      var c := Last(calls);
      EmittedBy(o, Front(calls)) + Emitted(c.key, Step(o, StateOf(RunAll(o, Front(calls)), c.key), c.call, c.now).marks)
  }

  function OfKey(ts: seq<Transition>, key: string): seq<Transition> {
    if ts == [] then [] else OfKey(Front(ts), key) + if Last(ts).key == key then [Last(ts)] else []
  }

  predicate LegalPair(from: Status, to: Status) {
    (from, to) in {(Closed, Open), (Open, HalfOpen), (HalfOpen, Closed), (HalfOpen, Open)}
  }

  /** The transition is legal and starts where the one before it ended, or at closed. */
  predicate Follows(ts: seq<Transition>, i: nat)
    requires i < |ts|
  {
    LegalPair(ts[i].from, ts[i].to) && ts[i].from == if i == 0 then Closed else ts[i - 1].to
  }

  ghost predicate LegalWalk(ts: seq<Transition>) { forall i :: 0 <= i < |ts| ==> Follows(ts, i) }

  lemma {:induction false} OfKeyAppends(ts: seq<Transition>, more: seq<Transition>, key: string)
    ensures OfKey(ts + more, key) == OfKey(ts, key) + OfKey(more, key)
  {
    if more == [] {
      assert ts + more == ts;
    } else {
      assert Front(ts + more) == ts + Front(more);
      OfKeyAppends(ts, Front(more), key);
    }
  }

  lemma {:induction false} EmittedIsOfKey(marks: seq<Mark>, key: string, other: string)
    ensures OfKey(Emitted(key, marks), other) == if key == other then Emitted(key, marks) else []
  {
    if marks == [] {
      assert Emitted(key, marks) == [];
    } else {
      EmittedIsOfKey(Front(marks), key, other);
      var before, m := Emitted(key, Front(marks)), Last(marks);
      assert before + [] == before;
      if m.Moved? {
        var t := Transition(key, m.from, m.to, m.at);
        assert Front(before + [t]) == before;
      }
    }
  }

  lemma {:induction false} EmittedAppends(key: string, marks: seq<Mark>, more: seq<Mark>)
    ensures Emitted(key, marks + more) == Emitted(key, marks) + Emitted(key, more)
  {
    if more == [] {
      assert marks + more == marks;
    } else {
      assert Front(marks + more) == marks + Front(more);
      EmittedAppends(key, marks, Front(more));
    }
  }

  /** What the object emits about one key is that key's own history, whatever the other keys do. */
  lemma {:induction false} EmittedOfKey(o: Options, calls: seq<KeyedCall>, key: string)
    ensures OfKey(EmittedBy(o, calls), key) == Emitted(key, MarksOf(o, Own(calls, key)))
  {
    if calls == [] {
      assert OfKey(EmittedBy(o, calls), key) == [];
    } else {
      var before, c := Front(calls), Last(calls);
      EmittedOfKey(o, before, key);
      var marks := Step(o, StateOf(RunAll(o, before), c.key), c.call, c.now).marks;
      OfKeyAppends(EmittedBy(o, before), Emitted(c.key, marks), key);
      EmittedIsOfKey(marks, c.key, key);
      if c.key == key {
        assert Front(Own(before, key) + [c]) == Own(before, key);
        KeysAreIndependent(o, before, key);
        EmittedAppends(key, MarksOf(o, Own(before, key)), marks);
      } else {
        assert Own(before, key) + [] == Own(before, key);
      }
    }
  }

  lemma WalkExtends(ts: seq<Transition>, t: Transition)
    requires LegalWalk(ts)
    ensures LegalPair(t.from, t.to) && t.from == (if ts == [] then Closed else Last(ts).to) ==> LegalWalk(ts + [t])
  {
    hide LegalPair;
    forall i | 0 <= i < |ts| ensures LegalWalk(ts) ==> Follows(ts + [t], i) {
      assert LegalWalk(ts) ==> Follows(ts, i);
    }
  }

  lemma {:induction false} LegalIsAWalk(o: Options, key: string, marks: seq<Mark>)
    requires Legal(o, marks)
    ensures LegalWalk(Emitted(key, marks))
    ensures Current(marks) == if Emitted(key, marks) == [] then Closed else Last(Emitted(key, marks)).to
  {
    if marks == [] {
      assert Emitted(key, marks) == [];
    } else {
      LegalIsAWalk(o, key, Front(marks));
      var before, m := Emitted(key, Front(marks)), Last(marks);
      assert before + [] == before;
      if m.Moved? {
        WalkExtends(before, Transition(key, m.from, m.to, m.at));
      }
      hide Trips, OpenedAt, Since;
    }
  }

  /** Over every run of the object, the transitions it emits about a key are an unbroken legal walk from closed. */
  lemma EmitsLegalWalks(o: Options, calls: seq<KeyedCall>, key: string)
    ensures LegalWalk(OfKey(EmittedBy(o, calls), key))
  {
    EmittedOfKey(o, calls, key);
    RunIsLegal(o, Own(calls, key));
    LegalIsAWalk(o, key, MarksOf(o, Own(calls, key)));
  }

  lemma UpdateTwice(keys: map<string, KeyState>, key: string, s: KeyState, t: KeyState)
    ensures keys[key := s][key := t] == keys[key := t]
  {
  }

  lemma OneMoreCall(o: Options, calls: seq<KeyedCall>, c: KeyedCall)
    ensures RunAll(o, calls + [c]) == StepKey(o, RunAll(o, calls), c)
    ensures EmittedBy(o, calls + [c])
         == EmittedBy(o, calls) + Emitted(c.key, Step(o, StateOf(RunAll(o, calls), c.key), c.call, c.now).marks)
  {
    assert Front(calls + [c]) == calls;
  }

  class CircuitBreaker {
    const opts: Options
    var keys: map<string, KeyState>
    var emitted: seq<Transition>
    ghost var calls: seq<KeyedCall>

    /** The object stands where its calls have led it, and has emitted what they emit. */
    ghost predicate Valid()
      reads this
    {
      keys == RunAll(opts, calls) && emitted == EmittedBy(opts, calls)
    }

    constructor (opts: Options)
      ensures Valid() && this.opts == opts && keys == map[] && emitted == [] && calls == []
    {
      this.opts := opts;
      keys, emitted, calls := map[], [], [];
    }

    method Ensure(key: string) returns (s: KeyState)
      modifies this`keys, this`emitted
      ensures s == StateOf(old(keys), key) && keys == old(keys)[key := s] && emitted == old(emitted)
    {
      if key !in keys {
        keys := keys[key := FRESH];
      }
      s := keys[key];
    }

    method PromoteKey(key: string, now: int) returns (s: KeyState)
      modifies this`keys, this`emitted
      ensures var e := Promote(opts, StateOf(old(keys), key), now);
              s == e.state && keys == old(keys)[key := s] && emitted == old(emitted) + Emitted(key, e.marks)
    {
      s := Ensure(key);
      if s.status == Open && now - s.openedAt >= opts.openMs {
        s := s.(status := HalfOpen, probeInFlight := false);
        keys := keys[key := s];
        emitted := emitted + [Transition(key, Open, HalfOpen, now)];
      }
    }

    method State(key: string, now: int) returns (status: Status)
      requires Valid()
      modifies this
      ensures Valid() && calls == old(calls) + [KeyedCall(key, ReadState, now)]
      ensures keys == StepKey(opts, old(keys), KeyedCall(key, ReadState, now)) && status == keys[key].status
      ensures emitted == old(emitted) + Emitted(key, Step(opts, StateOf(old(keys), key), ReadState, now).marks)
    {
      OneMoreCall(opts, calls, KeyedCall(key, ReadState, now));
      calls := calls + [KeyedCall(key, ReadState, now)];
      hide RunAll, EmittedBy;
      var s := PromoteKey(key, now);
      status := s.status;
    }

    method Allow(key: string, now: int) returns (allowed: bool)
      requires Valid()
      modifies this
      ensures Valid() && calls == old(calls) + [KeyedCall(key, AllowProbe, now)]
      ensures keys == StepKey(opts, old(keys), KeyedCall(key, AllowProbe, now))
      ensures var e := Step(opts, StateOf(old(keys), key), AllowProbe, now);
              allowed == e.allowed && emitted == old(emitted) + Emitted(key, e.marks)
    {
      OneMoreCall(opts, calls, KeyedCall(key, AllowProbe, now));
      calls := calls + [KeyedCall(key, AllowProbe, now)];
      hide RunAll, EmittedBy;
      ProbeIsSilent(key, Promote(opts, StateOf(keys, key), now).marks);
      hide Trips, Push, Emitted;
      var s := PromoteKey(key, now);
      if s.status == Closed { return true; }
      if s.status == Open { return false; }
      if s.probeInFlight { return false; }
      keys := keys[key := s.(probeInFlight := true)];
      return true;
    }

    method Success(key: string, now: int)
      requires Valid()
      modifies this
      ensures Valid() && calls == old(calls) + [KeyedCall(key, RecordSuccess, now)]
      ensures keys == StepKey(opts, old(keys), KeyedCall(key, RecordSuccess, now))
      ensures emitted == old(emitted) + Emitted(key, Step(opts, StateOf(old(keys), key), RecordSuccess, now).marks)
    {
      OneMoreCall(opts, calls, KeyedCall(key, RecordSuccess, now));
      calls := calls + [KeyedCall(key, RecordSuccess, now)];
      hide RunAll, EmittedBy;
      var s := Ensure(key);
      EmittedPair(key, true, Moved(HalfOpen, Closed, now));
      hide Trips, Emitted;
      UpdateTwice(old(keys), key, s, Step(opts, s, RecordSuccess, now).state);
      if s.status == HalfOpen {
        keys := keys[key := s.(status := Closed, window := [], probeInFlight := false)];
        emitted := emitted + [Transition(key, HalfOpen, Closed, now)];
        return;
      }
      var window := s.window + [true];
      if |window| > opts.windowSize { window := window[1..]; }
      keys := keys[key := s.(window := window)];
    }

    method Failure(key: string, now: int)
      requires Valid()
      modifies this
      ensures Valid() && calls == old(calls) + [KeyedCall(key, RecordFailure, now)]
      ensures keys == StepKey(opts, old(keys), KeyedCall(key, RecordFailure, now))
      ensures emitted == old(emitted) + Emitted(key, Step(opts, StateOf(old(keys), key), RecordFailure, now).marks)
    {
      OneMoreCall(opts, calls, KeyedCall(key, RecordFailure, now));
      calls := calls + [KeyedCall(key, RecordFailure, now)];
      hide RunAll, EmittedBy;
      var s := Ensure(key);
      EmittedPair(key, false, Moved(s.status, Open, now));
      hide Trips, Push, Emitted;
      UpdateTwice(old(keys), key, s, Step(opts, s, RecordFailure, now).state);
      if s.status == HalfOpen {
        keys := keys[key := KeyState(Open, [], now, false)];
        emitted := emitted + [Transition(key, HalfOpen, Open, now)];
        return;
      }
      if s.status != Closed { return; }
      FailClosed(key, s, now);
    }

    /** A failure while closed: into the window, and open if that trips it. */
    method FailClosed(key: string, s: KeyState, now: int)
      requires s.status == Closed
      modifies this`keys, this`emitted
      ensures var e := Step(opts, s, RecordFailure, now);
              && keys == old(keys)[key := e.state]
              && emitted == old(emitted) + if e.state.status == Open then [Transition(key, Closed, Open, now)] else []
    {
      var window := s.window + [false];
      if |window| > opts.windowSize { window := window[1..]; }
      if Trips(opts, window) {
        keys := keys[key := s.(status := Open, openedAt := now, window := [])];
        emitted := emitted + [Transition(key, Closed, Open, now)];
      } else {
        keys := keys[key := s.(window := window)];
      }
    }
  }
}
