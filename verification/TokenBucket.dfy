/**
 A per-provider token bucket over an injected clock, in real arithmetic. The clock is
 in milliseconds, the refill rate in tokens per second.
 */
module TokenBucket {

  datatype Options = Options(capacity: real, refillPerSec: real)
  datatype Level = Level(tokens: real, last: real)

  function Min(x: real, y: real): real { if x <= y then x else y }

  /** Tokens replenished between two clock readings. */
  function Earned(o: Options, from: real, to: real): real {
    (to - from) / 1000.0 * o.refillPerSec
  }

  function Refill(o: Options, s: Level, now: real): Level {
    if (now - s.last) / 1000.0 > 0.0 then Level(Min(o.capacity, s.tokens + Earned(o, s.last, now)), now) else s
  }

  function Created(o: Options, now: real): Level { Level(o.capacity, now) }

  predicate Grants(o: Options, s: Level, now: real, n: real) { Refill(o, s, now).tokens >= n }

  function Take(o: Options, s: Level, now: real, n: real): Level {
    var r := Refill(o, s, now);
    if Grants(o, s, now, n) then r.(tokens := r.tokens - n) else r
  }

  ghost predicate Sane(o: Options) { o.capacity >= 0.0 && o.refillPerSec >= 0.0 }

  ghost predicate InBounds(o: Options, s: Level) { 0.0 <= s.tokens <= o.capacity }

  /** The bucket object. The clock reading of each call is its argument. */
  class Bucket {
    const opts: Options
    var tokens: real
    var last: real

    function View(): Level
      reads this
    {
      Level(tokens, last)
    }

    constructor (opts: Options, now: real)
      ensures this.opts == opts && View() == Created(opts, now)
    {
      this.opts := opts;
      tokens := opts.capacity;
      last := now;
    }

    method RefillTo(now: real)
      modifies this
      ensures View() == Refill(opts, old(View()), now)
    {
      var elapsedSec := (now - last) / 1000.0;
      if elapsedSec > 0.0 {
        tokens := Min(opts.capacity, tokens + elapsedSec * opts.refillPerSec);
        last := now;
      }
    }

    method TryTake(n: real, now: real) returns (taken: bool)
      modifies this
      ensures taken == Grants(opts, old(View()), now, n)
      ensures View() == Take(opts, old(View()), now, n)
    {
      RefillTo(now);
      if tokens >= n {
        tokens := tokens - n;
        return true;
      }
      return false;
    }

    method Available(now: real) returns (count: real)
      modifies this
      ensures View() == Refill(opts, old(View()), now) && count == View().tokens
    {
      RefillTo(now);
      return tokens;
    }

    method PeekAvailable() returns (count: real)
      ensures count == View().tokens
    {
      return tokens;
    }
  }

  // ---------------------------------------------------------------- the law

  datatype Request = Request(at: real, n: real)

  function Total(reqs: seq<Request>): real {
    if reqs == [] then 0.0 else reqs[0].n + Total(reqs[1..])
  }

  ghost predicate Ordered(reqs: seq<Request>, from: real) {
    && (forall i :: 0 <= i < |reqs| ==> from <= reqs[i].at && reqs[i].n >= 0.0)
    && (forall i, j :: 0 <= i < j < |reqs| ==> reqs[i].at <= reqs[j].at)
  }

  function AfterAll(o: Options, s: Level, reqs: seq<Request>): Level
    decreases |reqs|
  {
    if reqs == [] then s else AfterAll(o, Take(o, s, reqs[0].at, reqs[0].n), reqs[1..])
  }

  predicate AllGranted(o: Options, s: Level, reqs: seq<Request>)
    decreases |reqs|
  {
    reqs == [] ||
    (Grants(o, s, reqs[0].at, reqs[0].n) && AllGranted(o, Take(o, s, reqs[0].at, reqs[0].n), reqs[1..]))
  }

  /** A total over the capacity by no more than a thousandth of the refill for each of `ms` milliseconds. */
  ghost predicate Affords(o: Options, total: real, ms: real) {
    1000.0 * (total - o.capacity) <= ms * o.refillPerSec
  }

  ghost predicate RunWithin(o: Options, reqs: seq<Request>, i: nat, j: nat)
    requires i < j <= |reqs|
  {
    Affords(o, Total(reqs[i..j]), reqs[j - 1].at - reqs[i].at)
  }

  /** No sub-run asks for more than the burst plus what is earned while it lasts. */
  ghost predicate Law(o: Options, reqs: seq<Request>) {
    forall i: nat, j: nat :: i < j <= |reqs| ==> RunWithin(o, reqs, i, j)
  }

  ghost predicate PrefixWithin(o: Options, s: Level, reqs: seq<Request>, j: nat)
    requires 0 < j <= |reqs|
  {
    Total(reqs[..j]) <= s.tokens + Earned(o, s.last, reqs[j - 1].at)
  }

  /** The part of the law that depends on the level a run starts from. */
  ghost predicate StartsWithin(o: Options, s: Level, reqs: seq<Request>) {
    forall j: nat :: 0 < j <= |reqs| ==> PrefixWithin(o, s, reqs, j)
  }

  lemma EarnedAdds(o: Options, a: real, b: real, c: real)
    ensures Earned(o, a, b) + Earned(o, b, c) == Earned(o, a, c)
  {
  }

  lemma AffordsEarned(o: Options, total: real, a: real, b: real)
    ensures Affords(o, total, b - a) <==> total <= o.capacity + Earned(o, a, b)
  {
    assert 1000.0 * Earned(o, a, b) == (b - a) * o.refillPerSec;
  }

  lemma EarnedGrows(o: Options, a: real, b: real)
    requires Sane(o) && a <= b
    ensures Earned(o, a, b) >= 0.0
  {
  }

  lemma RefillIs(o: Options, s: Level, now: real)
    requires Sane(o) && InBounds(o, s) && s.last <= now
    ensures Refill(o, s, now) == Level(Min(o.capacity, s.tokens + Earned(o, s.last, now)), now)
    ensures InBounds(o, Refill(o, s, now))
  {
    EarnedGrows(o, s.last, now);
  }

  lemma TakeIs(o: Options, s: Level, now: real, n: real)
    requires Sane(o) && InBounds(o, s) && s.last <= now && n >= 0.0
    ensures InBounds(o, Take(o, s, now, n)) && Take(o, s, now, n).last == now
  {
    RefillIs(o, s, now);
  }

  lemma RunOfSlice(o: Options, reqs: seq<Request>, lo: nat, hi: nat, i: nat, j: nat)
    requires lo <= hi <= |reqs| && i < j <= hi - lo
    ensures RunWithin(o, reqs[lo..hi], i, j) <==> RunWithin(o, reqs, lo + i, lo + j)
  {
    var part, same := reqs[lo..hi][i..j], reqs[lo + i..lo + j];
    assert |part| == |same| && forall k :: 0 <= k < |part| ==> part[k] == same[k];
    assert part == same;
  }

  lemma RunOfRest(o: Options, reqs: seq<Request>, i: nat, j: nat)
    requires reqs != [] && i < j < |reqs|
    ensures RunWithin(o, reqs[1..], i, j) <==> RunWithin(o, reqs, i + 1, j + 1)
  {
    assert reqs[1..|reqs|] == reqs[1..];
    RunOfSlice(o, reqs, 1, |reqs|, i, j);
  }

  /** A prefix of the rest, after the first request was granted, is two facts about the whole. */
  lemma PrefixOfRest(o: Options, s: Level, reqs: seq<Request>, j: nat)
    requires Sane(o) && InBounds(o, s) && 0 < j < |reqs| && Ordered(reqs, s.last)
    requires Grants(o, s, reqs[0].at, reqs[0].n)
    ensures PrefixWithin(o, Take(o, s, reqs[0].at, reqs[0].n), reqs[1..], j) <==>
              RunWithin(o, reqs, 0, j + 1) && PrefixWithin(o, s, reqs, j + 1)
  {
    RefillIs(o, s, reqs[0].at);
    EarnedAdds(o, s.last, reqs[0].at, reqs[j].at);
    AffordsEarned(o, Total(reqs[0..j + 1]), reqs[0].at, reqs[j].at);
    hide Affords, Earned;
    assert reqs[0..j + 1] == reqs[..j + 1];
    assert reqs[..j + 1][1..] == reqs[1..][..j];
  }

  lemma FirstRequest(o: Options, s: Level, reqs: seq<Request>)
    requires Sane(o) && InBounds(o, s) && reqs != [] && Ordered(reqs, s.last)
    ensures Grants(o, s, reqs[0].at, reqs[0].n) <==> RunWithin(o, reqs, 0, 1) && PrefixWithin(o, s, reqs, 1)
  {
    RefillIs(o, s, reqs[0].at);
    assert reqs[0..1] == reqs[..1] == [reqs[0]];
    assert Total([reqs[0]]) == reqs[0].n;
    AffordsEarned(o, reqs[0].n, reqs[0].at, reqs[0].at);
  }

  /** Peeling the first request off both halves of the law. */
  lemma LawPeels(o: Options, s: Level, reqs: seq<Request>)
    requires Sane(o) && InBounds(o, s) && reqs != [] && Ordered(reqs, s.last)
    ensures var s' := Take(o, s, reqs[0].at, reqs[0].n);
            Law(o, reqs) && StartsWithin(o, s, reqs) <==>
              Grants(o, s, reqs[0].at, reqs[0].n) && Law(o, reqs[1..]) && StartsWithin(o, s', reqs[1..])
  {
    var s', rest := Take(o, s, reqs[0].at, reqs[0].n), reqs[1..];
    FirstRequest(o, s, reqs);
    if Law(o, reqs) && StartsWithin(o, s, reqs) {
      forall i: nat, j: nat | i < j <= |rest| ensures RunWithin(o, rest, i, j) {
        RunOfRest(o, reqs, i, j);
      }
      forall j: nat | 0 < j <= |rest| ensures PrefixWithin(o, s', rest, j) {
        PrefixOfRest(o, s, reqs, j);
      }
    }
    if Grants(o, s, reqs[0].at, reqs[0].n) && Law(o, rest) && StartsWithin(o, s', rest) {
      forall j: nat | 0 < j <= |reqs| ensures RunWithin(o, reqs, 0, j) && PrefixWithin(o, s, reqs, j) {
        if j > 1 {
          PrefixOfRest(o, s, reqs, j - 1);
        }
      }
      forall i: nat, j: nat | i < j <= |reqs| ensures RunWithin(o, reqs, i, j) {
        if i > 0 {
          RunOfRest(o, reqs, i - 1, j - 1);
        }
      }
    }
  }

  lemma {:induction false} GrantedIffConforming(o: Options, s: Level, reqs: seq<Request>)
    requires Sane(o) && InBounds(o, s) && Ordered(reqs, s.last)
    ensures AllGranted(o, s, reqs) <==> Law(o, reqs) && StartsWithin(o, s, reqs)
    decreases |reqs|
  {
    if reqs == [] {
    } else {
      LawPeels(o, s, reqs);
      TakeIs(o, s, reqs[0].at, reqs[0].n);
      GrantedIffConforming(o, Take(o, s, reqs[0].at, reqs[0].n), reqs[1..]);
    }
  }

  /** The exact law: a fresh bucket grants a whole run if and only if no sub-run is over it. */
  lemma ExactLaw(o: Options, now: real, reqs: seq<Request>)
    requires Sane(o) && Ordered(reqs, now)
    ensures AllGranted(o, Created(o, now), reqs) <==> Law(o, reqs)
  {
    var s := Created(o, now);
    GrantedIffConforming(o, s, reqs);
    if Law(o, reqs) {
      forall j: nat | 0 < j <= |reqs| ensures PrefixWithin(o, s, reqs, j) {
        assert RunWithin(o, reqs, 0, j);
        assert reqs[0..j] == reqs[..j];
        AffordsEarned(o, Total(reqs[..j]), reqs[0].at, reqs[j - 1].at);
        EarnedAdds(o, now, reqs[0].at, reqs[j - 1].at);
        EarnedGrows(o, now, reqs[0].at);
      }
    }
  }

  // ---------------------------------------------------------------- refused calls and readings

  /** One call of the bucket; `Look` is `available()`. */
  datatype Call = Try(at: real, n: real) | Look(at: real)

  ghost predicate OrderedCalls(calls: seq<Call>, from: real) {
    && (forall i :: 0 <= i < |calls| ==> from <= calls[i].at && (calls[i].Try? ==> calls[i].n >= 0.0))
    && (forall i, j :: 0 <= i < j < |calls| ==> calls[i].at <= calls[j].at)
  }

  function Step(o: Options, s: Level, c: Call): Level {
    match c
    case Try(at, n) => Take(o, s, at, n)
    case Look(at) => Refill(o, s, at)
  }

  predicate Granted(o: Options, s: Level, c: Call) {
    c.Try? && Grants(o, s, c.at, c.n)
  }

  function After(o: Options, s: Level, calls: seq<Call>): Level
    decreases |calls|
  {
    if calls == [] then s else After(o, Step(o, s, calls[0]), calls[1..])
  }

  /** The requests among `calls` that were granted. */
  function GrantsOf(o: Options, s: Level, calls: seq<Call>): seq<Request>
    decreases |calls|
  {
    if calls == [] then []
    else
      (if Granted(o, s, calls[0]) then [Request(calls[0].at, calls[0].n)] else [])
      + GrantsOf(o, Step(o, s, calls[0]), calls[1..])
  }

  /** Two readings of the clock in a row are one. */
  lemma RefillTwice(o: Options, s: Level, t: real, u: real)
    requires Sane(o) && InBounds(o, s) && s.last <= t <= u
    ensures Refill(o, Refill(o, s, t), u) == Refill(o, s, u)
  {
    RefillIs(o, s, t);
    RefillIs(o, Refill(o, s, t), u);
    RefillIs(o, s, u);
    EarnedAdds(o, s.last, t, u);
    EarnedGrows(o, t, u);
  }

  lemma {:induction false} CallsKeepBounds(o: Options, s: Level, calls: seq<Call>)
    requires Sane(o) && InBounds(o, s) && OrderedCalls(calls, s.last)
    ensures InBounds(o, After(o, s, calls))
    ensures s.last <= After(o, s, calls).last
    ensures calls != [] ==> After(o, s, calls).last == calls[|calls| - 1].at
    decreases |calls|
  {
    if calls == [] {
    } else {
      RefillIs(o, s, calls[0].at);
      CallsKeepBounds(o, Step(o, s, calls[0]), calls[1..]);
    }
  }

  /** The level never leaves its bounds, even under a clock that jumps back. */
  lemma {:induction false} AnyClockKeepsBounds(o: Options, s: Level, calls: seq<Call>)
    requires Sane(o) && InBounds(o, s)
    requires forall c :: c in calls && c.Try? ==> c.n >= 0.0
    ensures InBounds(o, After(o, s, calls))
    decreases |calls|
  {
    if calls == [] {
    } else {
      if s.last <= calls[0].at {
        RefillIs(o, s, calls[0].at);
      }
      assert calls[0] in calls;
      AnyClockKeepsBounds(o, Step(o, s, calls[0]), calls[1..]);
    }
  }

  lemma {:induction false} CallsAppend(o: Options, s: Level, calls: seq<Call>, c: Call)
    ensures After(o, s, calls + [c]) == Step(o, After(o, s, calls), c)
    ensures GrantsOf(o, s, calls + [c]) ==
            GrantsOf(o, s, calls) + if Granted(o, After(o, s, calls), c) then [Request(c.at, c.n)] else []
    decreases |calls|
  {
    if calls == [] {
      assert calls + [c] == [c];
    } else {
      assert (calls + [c])[1..] == calls[1..] + [c];
      CallsAppend(o, Step(o, s, calls[0]), calls[1..], c);
    }
  }

  lemma {:induction false} GrantsAreOrdered(o: Options, s: Level, calls: seq<Call>, from: real)
    requires OrderedCalls(calls, from)
    ensures Ordered(GrantsOf(o, s, calls), from)
    ensures forall i :: 0 <= i < |GrantsOf(o, s, calls)| ==>
              exists k :: 0 <= k < |calls| && GrantsOf(o, s, calls)[i].at == calls[k].at
    decreases |calls|
  {
    if calls == [] {
    } else {
      var rest := GrantsOf(o, Step(o, s, calls[0]), calls[1..]);
      GrantsAreOrdered(o, Step(o, s, calls[0]), calls[1..], calls[0].at);
      forall i | 0 <= i < |GrantsOf(o, s, calls)|
        ensures exists k :: 0 <= k < |calls| && GrantsOf(o, s, calls)[i].at == calls[k].at
      {
        var shift := if Granted(o, s, calls[0]) then 1 else 0;
        if i < shift {
          assert GrantsOf(o, s, calls)[i].at == calls[0].at;
        } else {
          var k :| 0 <= k < |calls[1..]| && rest[i - shift].at == calls[1..][k].at;
          assert calls[k + 1] == calls[1..][k];
        }
      }
    }
  }

  /**
   Refused calls and readings leave no trace: from a bucket that is only some reading
   ahead of `base`, the grants alone lead `base` to the same place.
   */
  lemma {:induction false} GrantsAloneMatter(o: Options, base: Level, s: Level, calls: seq<Call>)
    requires Sane(o) && InBounds(o, base) && base.last <= s.last && s == Refill(o, base, s.last)
    requires OrderedCalls(calls, s.last)
    ensures var g := GrantsOf(o, s, calls);
            && AllGranted(o, base, g)
            && InBounds(o, AfterAll(o, base, g))
            && AfterAll(o, base, g).last <= After(o, s, calls).last
            && After(o, s, calls) == Refill(o, AfterAll(o, base, g), After(o, s, calls).last)
    decreases |calls|
  {
    RefillIs(o, base, s.last);
    if calls != [] {
      var c, s' := calls[0], Step(o, s, calls[0]);
      RefillTwice(o, base, s.last, c.at);
      RefillIs(o, base, c.at);
      if Granted(o, s, c) {
        assert s' == Take(o, base, c.at, c.n) && s'.last == c.at;
        GrantsAloneMatter(o, s', s', calls[1..]);
        assert GrantsOf(o, s, calls)[1..] == GrantsOf(o, s', calls[1..]);
      } else {
        assert s' == Refill(o, base, c.at);
        GrantsAloneMatter(o, base, s', calls[1..]);
        assert GrantsOf(o, s, calls) == GrantsOf(o, s', calls[1..]);
      }
    }
  }

  lemma {:induction false} OneMore(o: Options, s: Level, reqs: seq<Request>, r: Request)
    ensures AllGranted(o, s, reqs + [r]) <==> AllGranted(o, s, reqs) && Grants(o, AfterAll(o, s, reqs), r.at, r.n)
    decreases |reqs|
  {
    if reqs == [] {
      assert reqs + [r] == [r];
    } else {
      assert (reqs + [r])[1..] == reqs[1..] + [r];
      OneMore(o, Take(o, s, reqs[0].at, reqs[0].n), reqs[1..], r);
    }
  }

  /**
   After any history of grants, refusals and readings, the next request is granted if
   and only if the requests granted before, followed by it, keep the law.
   */
  lemma NextGrant(o: Options, now: real, calls: seq<Call>, at: real, n: real)
    requires Sane(o) && OrderedCalls(calls + [Try(at, n)], now)
    ensures var s := Created(o, now);
            && Law(o, GrantsOf(o, s, calls))
            && (Grants(o, After(o, s, calls), at, n) <==> Law(o, GrantsOf(o, s, calls) + [Request(at, n)]))
  {
    var s, g := Created(o, now), GrantsOf(o, Created(o, now), calls);
    PrefixCalls(o, s, calls, Try(at, n));
    GrantsAloneMatter(o, s, s, calls);
    var base := AfterAll(o, s, g);
    RefillTwice(o, base, After(o, s, calls).last, at);
    OneMore(o, s, g, Request(at, n));
    ExactLaw(o, now, g);
    ExactLaw(o, now, g + [Request(at, n)]);
  }

  lemma PrefixCalls(o: Options, s: Level, calls: seq<Call>, c: Call)
    requires Sane(o) && InBounds(o, s) && OrderedCalls(calls + [c], s.last) && c.Try?
    ensures OrderedCalls(calls, s.last) && s.last <= After(o, s, calls).last <= c.at
    ensures Ordered(GrantsOf(o, s, calls), s.last)
    ensures Ordered(GrantsOf(o, s, calls) + [Request(c.at, c.n)], s.last)
  {
    var all, g := calls + [c], GrantsOf(o, s, calls);
    assert all[|calls|] == c;
    assert forall i :: 0 <= i < |calls| ==> all[i] == calls[i];
    GrantsAreOrdered(o, s, calls, s.last);
    CallsKeepBounds(o, s, calls);
    forall i | 0 <= i < |g| ensures g[i].at <= c.at {
      var k :| 0 <= k < |calls| && g[i].at == calls[k].at;
      assert all[k].at <= all[|calls|].at;
    }
  }

  // ---------------------------------------------------------------- intervals

  /** What was granted from `a` to `b`, both included. */
  function TotalWithin(reqs: seq<Request>, a: real, b: real): real {
    if reqs == [] then 0.0
    else (if a <= reqs[0].at <= b then reqs[0].n else 0.0) + TotalWithin(reqs[1..], a, b)
  }

  lemma {:induction false} WithinAppends(reqs: seq<Request>, r: Request, a: real, b: real)
    ensures TotalWithin(reqs + [r], a, b) == TotalWithin(reqs, a, b) + if a <= r.at <= b then r.n else 0.0
  {
    if reqs == [] {
      assert reqs + [r] == [r];
    } else {
      assert (reqs + [r])[1..] == reqs[1..] + [r];
      WithinAppends(reqs[1..], r, a, b);
    }
  }

  lemma {:induction false} AllWithin(reqs: seq<Request>, a: real, b: real)
    requires forall i :: 0 <= i < |reqs| ==> a <= reqs[i].at <= b
    ensures TotalWithin(reqs, a, b) == Total(reqs)
  {
    if reqs == [] {
    } else {
      AllWithin(reqs[1..], a, b);
    }
  }

  lemma LawOfSlice(o: Options, reqs: seq<Request>, lo: nat, hi: nat)
    requires lo <= hi <= |reqs| && Law(o, reqs)
    ensures Law(o, reqs[lo..hi])
  {
    forall i: nat, j: nat | i < j <= hi - lo ensures RunWithin(o, reqs[lo..hi], i, j) {
      RunOfSlice(o, reqs, lo, hi, i, j);
    }
  }

  /** In any interval, a run that keeps the law takes at most the burst plus what the interval earns. */
  lemma {:induction false} IntervalBound(o: Options, reqs: seq<Request>, from: real, a: real, b: real)
    requires Sane(o) && Ordered(reqs, from) && Law(o, reqs) && a <= b
    ensures Affords(o, TotalWithin(reqs, a, b), b - a)
    decreases |reqs|
  {
    EarnedGrows(o, a, b);
    AffordsEarned(o, TotalWithin(reqs, a, b), a, b);
    if reqs == [] {
    } else if reqs[0].at < a {
      LawOfSlice(o, reqs, 1, |reqs|);
      assert reqs[1..|reqs|] == reqs[1..];
      IntervalBound(o, reqs[1..], from, a, b);
    } else if reqs[|reqs| - 1].at > b {
      var front := reqs[..|reqs| - 1];
      LawOfSlice(o, reqs, 0, |reqs| - 1);
      assert reqs[0..|reqs| - 1] == front;
      IntervalBound(o, front, from, a, b);
      assert reqs == front + [reqs[|reqs| - 1]];
      WithinAppends(front, reqs[|reqs| - 1], a, b);
    } else {
      AllWithin(reqs, a, b);
      var first, last := reqs[0].at, reqs[|reqs| - 1].at;
      assert RunWithin(o, reqs, 0, |reqs|);
      assert reqs[0..|reqs|] == reqs;
      AffordsEarned(o, Total(reqs), first, last);
      EarnedAdds(o, a, first, b);
      EarnedAdds(o, first, last, b);
      EarnedGrows(o, a, first);
      EarnedGrows(o, last, b);
    }
  }

  /** In any second, at most the capacity and one second's refill. */
  lemma SecondBound(o: Options, now: real, calls: seq<Call>, a: real)
    requires Sane(o) && OrderedCalls(calls, now)
    ensures TotalWithin(GrantsOf(o, Created(o, now), calls), a, a + 1000.0) <= o.capacity + o.refillPerSec
  {
    var full := Created(o, now);
    var g := GrantsOf(o, full, calls);
    GrantsAreOrdered(o, full, calls, now);
    GrantsAloneMatter(o, full, full, calls);
    ExactLaw(o, now, g);
    IntervalBound(o, g, now, a, a + 1000.0);
  }

  /** An emptied bucket grants `n` tokens again exactly when the refill has made up for them. */
  lemma EmptiedBucket(o: Options, t: real, u: real, n: real)
    requires Sane(o) && t <= u && n <= o.capacity
    ensures var empty := Take(o, Created(o, t), t, o.capacity);
            empty.tokens == 0.0 && (Grants(o, empty, u, n) <==> 1000.0 * n <= (u - t) * o.refillPerSec)
  {
    var empty := Take(o, Created(o, t), t, o.capacity);
    RefillIs(o, empty, u);
    AffordsEarned(o, o.capacity + n, t, u);
  }

  /** The constants written out: with one token and one token a second, a take a millisecond later is refused. */
  lemma OneTokenASecond(t: real)
    ensures var o := Options(1.0, 1.0);
            var empty := Take(o, Created(o, t), t, 1.0);
            !Grants(o, empty, t + 1.0, 1.0) && !Grants(o, empty, t + 999.0, 1.0) && Grants(o, empty, t + 1000.0, 1.0)
  {
    EmptiedBucket(Options(1.0, 1.0), t, t + 1.0, 1.0);
    EmptiedBucket(Options(1.0, 1.0), t, t + 999.0, 1.0);
    EmptiedBucket(Options(1.0, 1.0), t, t + 1000.0, 1.0);
  }
}
