/**
 Asking an adapter for a result: the bounded schema-repair loop, and the single re-route to
 another adapter when the first one fails. An adapter's answers are a function of the round
 and of the validation errors it is shown; a response is charged even when it is refused.
 */
module Proposing {
  import opened Common
  import opened CostUnits
  import opened Schema

  type Key = string

  datatype Reply = Response(result: Json, cost: Cost) | AdapterError(kind: string) | Throws

  type Adapter = (nat, seq<Issue>) -> Reply

  const INVALID := "invalid_response"

  datatype Repair = Repaired(result: Json, rounds: nat, valid: bool, errors: seq<Issue>, total: real) | Failed(kind: string) | Threw

  // ---------------------------------------------------------------- the repair loop

  function RepairFrom(limit: real, adapter: Adapter, schema: Schema, maxRounds: nat, round: nat, shown: seq<Issue>, total: real): Repair
    requires round <= maxRounds
    decreases maxRounds - round
  {
    match adapter(round, shown)
    case Throws => Threw
    case AdapterError(kind) => Failed(kind)
    case Response(result, cost) =>
      var charged := AddCost(limit, total, cost);
      var errors := Errors(result, schema);
      if charged.None? then Failed(INVALID)
      else if errors == [] || round == maxRounds then Repaired(result, round, errors == [], errors, charged.value)
      else RepairFrom(limit, adapter, schema, maxRounds, round + 1, errors, charged.value)
  }

  function RepairOf(limit: real, adapter: Adapter, schema: Schema, maxRounds: nat): Repair {
    RepairFrom(limit, adapter, schema, maxRounds, 0, [], 0.0)
  }

  method ProposeWithRepair(limit: real, adapter: Adapter, schema: Schema, maxRounds: nat) returns (r: Repair)
    ensures r == RepairOf(limit, adapter, schema, maxRounds)
  {
    hide Errors, Conforms;
    var rounds := 0;
    var shown: seq<Issue> := [];
    var total := 0.0;
    while true
      invariant rounds <= maxRounds
      invariant RepairFrom(limit, adapter, schema, maxRounds, rounds, shown, total) == RepairOf(limit, adapter, schema, maxRounds)
      decreases maxRounds - rounds
    {
      var reply := adapter(rounds, shown);
      if reply.Throws? { return Threw; }
      if reply.AdapterError? { return Failed(reply.kind); }
      var charged := AddCost(limit, total, reply.cost);
      if charged.None? { return Failed(INVALID); }
      total := charged.value;
      var valid, errors := ValidateAgainstSchema(reply.result, schema);
      ValidMeansConforms(reply.result, schema);
      if valid || rounds >= maxRounds { return Repaired(reply.result, rounds, valid, errors, total); }
      rounds := rounds + 1;
      shown := errors;
    }
  }

  /** The `k`th answer, shown the errors of the one before. */
  function Answer(adapter: Adapter, schema: Schema, k: nat): Reply {
    if k == 0 then adapter(0, [])
    else
      var before := Answer(adapter, schema, k - 1);
      adapter(k, if before.Response? then Errors(before.result, schema) else [])
  }

  /** The cost of the first `k` answers. */
  function CostOf(adapter: Adapter, schema: Schema, k: nat): real {
    if k == 0 then 0.0
    else
      var a := Answer(adapter, schema, k - 1);
      CostOf(adapter, schema, k - 1) + if a.Response? && a.cost.Units? then a.cost.n else 0.0
  }

  /** The first `k` answers were all responses that do not conform. */
  ghost predicate AllRefused(adapter: Adapter, schema: Schema, k: nat) {
    forall i: nat :: i < k ==> Answer(adapter, schema, i).Response? && !Conforms(Answer(adapter, schema, i).result, schema)
  }

  lemma RefusedOneMore(adapter: Adapter, schema: Schema, k: nat)
    requires AllRefused(adapter, schema, k)
    requires Answer(adapter, schema, k).Response? && !Conforms(Answer(adapter, schema, k).result, schema)
    ensures AllRefused(adapter, schema, k + 1)
  {
    hide Conforms, Answer;
  }

  /** The answer's cost is a finite amount, not negative, that keeps the sum within the limit. */
  predicate Chargeable(limit: real, sum: real, c: Cost) { c.Units? && c.n >= 0.0 && sum + c.n <= limit }

  /** How the loop ends with answer `k`, all before it having been refused. */
  ghost predicate EndsAt(limit: real, adapter: Adapter, schema: Schema, maxRounds: nat, r: Repair, k: nat) {
    var a := Answer(adapter, schema, k);
    && k <= maxRounds && AllRefused(adapter, schema, k)
    && match r
       case Threw => a.Throws?
       case Failed(kind) =>
         || a == AdapterError(kind)
         || (kind == INVALID && a.Response? && !Chargeable(limit, CostOf(adapter, schema, k), a.cost))
       case Repaired(result, rounds, valid, errors, total) =>
         && a.Response? && rounds == k && result == a.result
         && errors == Errors(result, schema) && (valid <==> Conforms(result, schema)) && (!valid ==> k == maxRounds)
         && Chargeable(limit, CostOf(adapter, schema, k), a.cost) && total == CostOf(adapter, schema, k + 1)
  }

  lemma {:induction false} RepairFromIs(limit: real, adapter: Adapter, schema: Schema, maxRounds: nat, k: nat, total: real)
    returns (last: nat)
    requires k <= maxRounds && AllRefused(adapter, schema, k) && total == CostOf(adapter, schema, k)
    ensures var shown := if k == 0 then [] else Errors(Answer(adapter, schema, k - 1).result, schema);
            EndsAt(limit, adapter, schema, maxRounds, RepairFrom(limit, adapter, schema, maxRounds, k, shown, total), last)
    decreases maxRounds - k
  {
    hide Errors, Conforms;
    last := k;
    var a := Answer(adapter, schema, k);
    if a.Response? {
      ValidMeansConforms(a.result, schema);
      var charged := AddCost(limit, total, a.cost);
      if charged.Some? && Errors(a.result, schema) != [] && k < maxRounds {
        RefusedOneMore(adapter, schema, k);
        last := RepairFromIs(limit, adapter, schema, maxRounds, k + 1, charged.value);
      }
    }
  }

  /**
   The loop ends with the first response that conforms, or the last allowed one, or the first
   failure; each request was shown the errors of the response before it, and every response
   is charged.
   */
  lemma RepairIs(limit: real, adapter: Adapter, schema: Schema, maxRounds: nat) returns (last: nat)
    ensures EndsAt(limit, adapter, schema, maxRounds, RepairOf(limit, adapter, schema, maxRounds), last)
  {
    last := RepairFromIs(limit, adapter, schema, maxRounds, 0, 0.0);
  }

  // ---------------------------------------------------------------- one re-route

  datatype End = Answered(from: Key) | PolicyViolation(key: Key) | Invalid | NoCapacity | Broken

  /** What the breaker is told. */
  datatype Mark = Mark(key: Key, ok: bool)

  /** The first eligible key that has not failed. */
  function NextOf(eligible: seq<Key>, failed: set<Key>): (next: Option<Key>)
    ensures next.None? <==> forall k :: k in eligible ==> k in failed
    ensures next.Some? ==> exists i :: 0 <= i < |eligible| && eligible[i] == next.value && next.value !in failed
                             && forall j :: 0 <= j < i ==> eligible[j] in failed
  {
    if eligible == [] then None
    else if eligible[0] !in failed then Some(eligible[0])
    else
      assert forall k :: k in eligible ==> k == eligible[0] || k in eligible[1..];
      var next := NextOf(eligible[1..], failed);
      assert next.Some? ==> exists i :: 0 <= i < |eligible[1..]| && eligible[1..][i] == next.value && eligible[i + 1] == next.value
                              && forall j :: 0 <= j < i ==> eligible[1..][j] in failed;
      next
  }

  /** Whether a send failed in the way that lets another adapter be tried. */
  predicate Reroutes(r: Repair) { r.Failed? && r.kind != INVALID }

  function EndOf(key: Key, r: Repair): End
    requires !Reroutes(r)
  {
    match r
    case Repaired(_, _, _, _, _) => Answered(key)
    case Failed(_) => Invalid
    case Threw => Broken
  }

  function MarksOf(key: Key, r: Repair): seq<Mark> {
    if r.Repaired? then [Mark(key, true)] else if Reroutes(r) then [Mark(key, false)] else []
  }

  /**
   At most two adapters are asked, never the same key twice and never one the data policy
   refuses; the second is the first eligible one with another key, asked only when the first
   failed; the breaker hears of every success and every such failure.
   */
  method SendWithOneReroute(limit: real, eligible: seq<Key>, permitted: Key -> bool, adapters: Key -> Adapter,
                            schema: Schema, maxRounds: nat) returns (end: End, sent: seq<Key>, marks: seq<Mark>)
    ensures forall k :: k in sent ==> k in eligible && permitted(k)
    ensures forall k :: Mark(k, true) in marks <==> k in sent && RepairOf(limit, adapters(k), schema, maxRounds).Repaired?
    ensures forall k :: Mark(k, false) in marks <==>
              k in sent && var r := RepairOf(limit, adapters(k), schema, maxRounds); r.Failed? && r.kind != "invalid_response"
    ensures sent != [] ==>
              var r := RepairOf(limit, adapters(Last(sent)), schema, maxRounds);
              && (end.Answered? <==> r.Repaired?) && (end.Answered? ==> end.from == Last(sent))
              && (end == Invalid <==> r == Failed("invalid_response")) && (end == Broken <==> r == Threw)
    ensures eligible == [] ==> end == NoCapacity && sent == [] && marks == []
    ensures eligible != [] ==>
              var first := eligible[0];
              var r := RepairOf(limit, adapters(first), schema, maxRounds);
              var next := NextOf(eligible, {first});
              if !permitted(first) then end == PolicyViolation(first) && sent == [] && marks == []
              else if !Reroutes(r) then end == EndOf(first, r) && sent == [first] && marks == MarksOf(first, r)
              else if next.None? then end == NoCapacity && sent == [first] && marks == MarksOf(first, r)
              else if !permitted(next.value) then
                end == PolicyViolation(next.value) && sent == [first] && marks == MarksOf(first, r)
              else
                var s := RepairOf(limit, adapters(next.value), schema, maxRounds);
                && first != next.value && sent == [first, next.value]
                && marks == MarksOf(first, r) + MarksOf(next.value, s)
                && end == if Reroutes(s) then NoCapacity else EndOf(next.value, s)
  {
    end, sent, marks := NoCapacity, [], [];
    if eligible == [] { return; }
    var failed: set<Key> := {};
    var chosen := eligible[0];
    var rerouted := false;
    while true
      invariant chosen in eligible && forall k :: k in sent ==> k in eligible && permitted(k)
      invariant !rerouted ==> chosen == eligible[0] && failed == {} && sent == [] && marks == []
      invariant rerouted ==>
                  var r := RepairOf(limit, adapters(eligible[0]), schema, maxRounds);
                  && permitted(eligible[0]) && Reroutes(r) && NextOf(eligible, {eligible[0]}) == Some(chosen)
                  && sent == [eligible[0]] && marks == MarksOf(eligible[0], r) && failed == {eligible[0]}
      decreases if rerouted then 0 else 1
    {
      if !permitted(chosen) { end := PolicyViolation(chosen); return; }
      sent := sent + [chosen];
      var r := ProposeWithRepair(limit, adapters(chosen), schema, maxRounds);
      match r {
        case Repaired(_, _, _, _, _) =>
          marks := marks + [Mark(chosen, true)];
          end := Answered(chosen);
          return;
        case Threw => end := Broken; return;
        case Failed(kind) =>
          if kind == INVALID { end := Invalid; return; }
          marks := marks + [Mark(chosen, false)];
          failed := failed + {chosen};
          var next := if rerouted then None else NextOf(eligible, failed);
          if next.None? { end := NoCapacity; return; }
          rerouted := true;
          chosen := next.value;
      }
    }
  }
}
