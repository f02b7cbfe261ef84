/**
 The reviews ensemble: every finding that any candidate raises survives, with who raised it,
 whether its raisings clash, and the dissent recorded about it. Raisings are in candidate
 order, and within a candidate in the order of its findings.
 */
module FusionReviews {
  import opened Common
  import opened FusionResolve

  /** A finding as one candidate raised it. */
  datatype Raising = Raising(index: nat, finding: Finding)

  datatype Entry = Entry(raisedBy: seq<nat>, severities: seq<string>, blockings: seq<bool>)

  const NO_ENTRY := Entry([], [], [])

  function RaisingsOf(index: nat, findings: seq<Finding>): seq<Raising> {
    if findings == [] then [] else RaisingsOf(index, Front(findings)) + [Raising(index, Last(findings))]
  }

  function Raisings(candidates: seq<Candidate>): seq<Raising> {
    if candidates == [] then []
    else Raisings(Front(candidates)) + RaisingsOf(Last(candidates).index, Last(candidates).result.findings)
  }

  function KeyOf(r: Raising): string { r.finding.key }

  function AddOnce<T(==)>(s: seq<T>, x: T): seq<T> { if x in s then s else s + [x] }

  function Add(e: Entry, r: Raising): Entry {
    Entry(e.raisedBy + [r.index], AddOnce(e.severities, r.finding.severity), AddOnce(e.blockings, r.finding.blocking))
  }

  function EntryOf(raisings: seq<Raising>, key: string): Entry {
    if raisings == [] then NO_ENTRY
    else
      var e := EntryOf(Front(raisings), key);
      if KeyOf(Last(raisings)) == key then Add(e, Last(raisings)) else e
  }

  /** The keys raised, in order of first appearance. */
  function KeysOf(raisings: seq<Raising>): seq<string> {
    if raisings == [] then [] else AddOnce(KeysOf(Front(raisings)), KeyOf(Last(raisings)))
  }

  predicate Disagree(e: Entry) { |e.severities| > 1 || |e.blockings| > 1 }

  function Reported(raisings: seq<Raising>, keys: seq<string>): seq<ReviewFinding> {
    if keys == [] then []
    else
      var e := EntryOf(raisings, Last(keys));
      Reported(raisings, Front(keys)) + [ReviewFinding(Last(keys), e.raisedBy, e.severities, Disagree(e))]
  }

  function Dissents(raisings: seq<Raising>, keys: seq<string>, total: nat): seq<Dissent> {
    if keys == [] then []
    else
      var e := EntryOf(raisings, Last(keys));
      Dissents(raisings, Front(keys), total)
        + if |e.raisedBy| < total then [Dissent(Last(keys), e.raisedBy, e.severities, e.blockings)] else []
  }

  predicate AnyDisagree(raisings: seq<Raising>, keys: seq<string>) {
    keys != [] && (AnyDisagree(raisings, Front(keys)) || Disagree(EntryOf(raisings, Last(keys))))
  }

  function Review(candidates: seq<Candidate>): Resolution {
    var raisings := Raisings(candidates);
    var keys := KeysOf(raisings);
    Resolution(Some(Winner(Ensemble(Reported(raisings, keys), AnyDisagree(raisings, keys)), [])), None,
               Dissents(raisings, keys, |candidates|))
  }

  // ---------------------------------------------------------------- the loops

  /** What the insertion-ordered map of entries holds. */
  ghost predicate Holds(order: seq<string>, raised: map<string, Entry>, raisings: seq<Raising>) {
    && order == KeysOf(raisings)
    && (forall k :: k in raised <==> k in order)
    && (forall k :: k in raised ==> raised[k] == EntryOf(raisings, k))
    && (forall k :: k !in raised ==> EntryOf(raisings, k) == NO_ENTRY)
  }

  lemma HoldsNext(order: seq<string>, raised: map<string, Entry>, raisings: seq<Raising>, r: Raising)
    requires Holds(order, raised, raisings)
    ensures var entry := if KeyOf(r) in raised then raised[KeyOf(r)] else NO_ENTRY;
            Holds(AddOnce(order, KeyOf(r)), raised[KeyOf(r) := Add(entry, r)], raisings + [r])
  {
    assert Front(raisings + [r]) == raisings;
  }

  lemma RaisingsNext(earlier: seq<Raising>, index: nat, findings: seq<Finding>, j: nat)
    requires j < |findings|
    ensures earlier + RaisingsOf(index, findings[..j + 1]) == earlier + RaisingsOf(index, findings[..j]) + [Raising(index, findings[j])]
  {
    assert Front(findings[..j + 1]) == findings[..j];
  }

  method ResolveReviews(candidates: seq<Candidate>) returns (r: Resolution)
    ensures r == Review(candidates)
  {
    hide Holds, KeysOf, EntryOf;
    var order, raised := Collect(candidates);
    ghost var raisings := Raisings(candidates);
    var escalation, findings, dissent := false, [], [];
    for i := 0 to |order|
      invariant findings == Reported(raisings, order[..i])
      invariant dissent == Dissents(raisings, order[..i], |candidates|)
      invariant escalation == AnyDisagree(raisings, order[..i])
    {
      assert Front(order[..i + 1]) == order[..i];
      HoldsAt(order, raised, raisings, i);
      var key := order[i];
      var e := raised[key];
      var disagree := |e.severities| > 1 || |e.blockings| > 1;
      if disagree { escalation := true; }
      findings := findings + [ReviewFinding(key, e.raisedBy, e.severities, disagree)];
      if |e.raisedBy| < |candidates| {
        dissent := dissent + [Dissent(key, e.raisedBy, e.severities, e.blockings)];
      }
    }
    assert order[..|order|] == order;
    HoldsKeys(order, raised, raisings);
    return Resolution(Some(Winner(Ensemble(findings, escalation), [])), None, dissent);
  }

  lemma HoldsAt(order: seq<string>, raised: map<string, Entry>, raisings: seq<Raising>, i: nat)
    requires Holds(order, raised, raisings) && i < |order|
    ensures order[i] in raised && raised[order[i]] == EntryOf(raisings, order[i])
  {
  }

  lemma HoldsKeys(order: seq<string>, raised: map<string, Entry>, raisings: seq<Raising>)
    requires Holds(order, raised, raisings)
    ensures order == KeysOf(raisings)
  {
  }

  method Collect(candidates: seq<Candidate>) returns (order: seq<string>, raised: map<string, Entry>)
    ensures Holds(order, raised, Raisings(candidates))
  {
    order, raised := [], map[];
    for i := 0 to |candidates|
      invariant Holds(order, raised, Raisings(candidates[..i]))
    {
      var c := candidates[i];
      ghost var earlier := Raisings(candidates[..i]);
      assert earlier + [] == earlier;
      for j := 0 to |c.result.findings|
        invariant Holds(order, raised, earlier + RaisingsOf(c.index, c.result.findings[..j]))
      {
        hide Holds;
        var r := Raising(c.index, c.result.findings[j]);
        RaisingsNext(earlier, c.index, c.result.findings, j);
        HoldsNext(order, raised, earlier + RaisingsOf(c.index, c.result.findings[..j]), r);
        var entry := if KeyOf(r) in raised then raised[KeyOf(r)] else NO_ENTRY;
        order := AddOnce(order, KeyOf(r));
        raised := raised[KeyOf(r) := Add(entry, r)];
      }
      assert c.result.findings[..|c.result.findings|] == c.result.findings;
      assert Front(candidates[..i + 1]) == candidates[..i];
    }
    assert candidates[..|candidates|] == candidates;
  }

  // ---------------------------------------------------------------- order of appearance

  /** The elements of `s`, each once, in the order in which they first appear. */
  ghost predicate FirstAppearances<T(!new)>(d: seq<T>, s: seq<T>) {
    && Distinct(d) && (forall x :: x in d <==> x in s)
    && forall i, j :: 0 <= i < j < |d| ==> AppearsBefore(s, d[i], d[j])
  }

  ghost predicate AppearsBefore<T>(s: seq<T>, x: T, y: T) { exists p :: 0 <= p < |s| && s[p] == x && y !in s[..p + 1] }

  lemma AddedInOrder<T(!new)>(d: seq<T>, s: seq<T>, x: T)
    requires FirstAppearances(d, s)
    ensures FirstAppearances(AddOnce(d, x), s + [x])
  {
    var longer, all := AddOnce(d, x), s + [x];
    forall i, j | 0 <= i < j < |longer| ensures AppearsBefore(all, longer[i], longer[j]) {
      if j < |d| {
        assert AppearsBefore(s, d[i], d[j]);
        var p :| 0 <= p < |s| && s[p] == d[i] && d[j] !in s[..p + 1];
        assert all[..p + 1] == s[..p + 1];
      } else {
        assert d[i] in s;
        var p :| 0 <= p < |s| && s[p] == d[i];
        assert all[p] == d[i] && all[..p + 1] == s[..p + 1];
      }
    }
  }

  function Keys(raisings: seq<Raising>): seq<string> { seq(|raisings|, i requires 0 <= i < |raisings| => KeyOf(raisings[i])) }

  lemma {:induction false} KeysInOrder(raisings: seq<Raising>)
    ensures FirstAppearances(KeysOf(raisings), Keys(raisings))
  {
    if raisings == [] {
    } else {
      KeysInOrder(Front(raisings));
      AddedInOrder(KeysOf(Front(raisings)), Keys(Front(raisings)), KeyOf(Last(raisings)));
      assert Keys(raisings) == Keys(Front(raisings)) + [KeyOf(Last(raisings))];
    }
  }

  /** The raisings of one key, in order. */
  function Own(raisings: seq<Raising>, key: string): seq<Raising> {
    if raisings == [] then []
    else Own(Front(raisings), key) + if KeyOf(Last(raisings)) == key then [Last(raisings)] else []
  }

  function Indices(raisings: seq<Raising>): seq<nat> { seq(|raisings|, i requires 0 <= i < |raisings| => raisings[i].index) }

  function Severities(raisings: seq<Raising>): seq<string> {
    seq(|raisings|, i requires 0 <= i < |raisings| => raisings[i].finding.severity)
  }

  function Blockings(raisings: seq<Raising>): seq<bool> {
    seq(|raisings|, i requires 0 <= i < |raisings| => raisings[i].finding.blocking)
  }

  /** Who raised it, raising by raising, and the severities and the blockings it was given, as they first came up. */
  ghost predicate SaysWho(raisedBy: seq<nat>, severities: seq<string>, blockings: seq<bool>, own: seq<Raising>) {
    raisedBy == Indices(own) && FirstAppearances(severities, Severities(own)) && FirstAppearances(blockings, Blockings(own))
  }

  ghost predicate ReportSaysWho(f: ReviewFinding, own: seq<Raising>) {
    f.raisedBy == Indices(own) && FirstAppearances(f.severities, Severities(own))
  }

  lemma OneMoreRaising(e: Entry, own: seq<Raising>, r: Raising)
    requires SaysWho(e.raisedBy, e.severities, e.blockings, own)
    ensures var next := Add(e, r); SaysWho(next.raisedBy, next.severities, next.blockings, own + [r])
  {
    AddedInOrder(e.severities, Severities(own), r.finding.severity);
    AddedInOrder(e.blockings, Blockings(own), r.finding.blocking);
    hide FirstAppearances;
    assert Severities(own + [r]) == Severities(own) + [r.finding.severity];
    assert Blockings(own + [r]) == Blockings(own) + [r.finding.blocking];
    assert Indices(own + [r]) == Indices(own) + [r.index];
  }

  lemma {:induction false} EntrySaysWho(raisings: seq<Raising>, key: string)
    ensures var e := EntryOf(raisings, key); SaysWho(e.raisedBy, e.severities, e.blockings, Own(raisings, key))
  {
    if raisings == [] {
    } else {
      EntrySaysWho(Front(raisings), key);
      hide SaysWho;
      var before := Own(Front(raisings), key);
      assert before + [] == before;
      if KeyOf(Last(raisings)) == key {
        OneMoreRaising(EntryOf(Front(raisings), key), before, Last(raisings));
      }
    }
  }

  /** Raisings come candidate by candidate, and within a candidate in the order of its findings. */
  lemma {:induction false} RaisingsInOrder(some: seq<Candidate>, more: seq<Candidate>)
    ensures Raisings(some + more) == Raisings(some) + Raisings(more)
    ensures |more| == 1 ==> |Raisings(more)| == |more[0].result.findings|
                            && forall i :: 0 <= i < |Raisings(more)| ==>
                                 Raisings(more)[i] == Raising(more[0].index, more[0].result.findings[i])
  {
    if more == [] {
      assert some + more == some;
    } else {
      assert Front(some + more) == some + Front(more);
      RaisingsInOrder(some, Front(more));
      var own := RaisingsOf(Last(more).index, Last(more).result.findings);
      RaisingsOneByOne(Last(more).index, Last(more).result.findings);
      Regroup(Raisings(some), Raisings(Front(more)), own);
      assert Raisings([]) + own == own;
    }
  }

  lemma {:induction false} RaisingsOneByOne(index: nat, findings: seq<Finding>)
    ensures |RaisingsOf(index, findings)| == |findings|
    ensures forall i :: 0 <= i < |findings| ==> RaisingsOf(index, findings)[i] == Raising(index, findings[i])
  {
    if findings == [] {
    } else {
      RaisingsOneByOne(index, Front(findings));
    }
  }

  /** The ensemble reports the findings in order of appearance, and with each one, and each dissent, who raised it and how. */
  lemma EnsembleSaysWho(candidates: seq<Candidate>)
    ensures var r, raisings := Review(candidates), Raisings(candidates);
            var findings := r.winner.value.result.findings;
            && FirstAppearances(KeysOf(raisings), Keys(raisings)) && |findings| == |KeysOf(raisings)|
            && (forall i :: 0 <= i < |findings| ==> findings[i].key == KeysOf(raisings)[i])
            && (forall f :: f in findings ==> ReportSaysWho(f, Own(raisings, f.key)))
            && (forall d :: d in r.dissent ==> SaysWho(d.raisedBy, d.severities, d.blockings, Own(raisings, d.finding)))
  {
    hide EntryOf, KeysOf, Raisings, Reported, Dissents, SaysWho, ReportSaysWho, FirstAppearances, AnyDisagree;
    var raisings := Raisings(candidates);
    KeysInOrder(raisings);
    ReportsSayWho(raisings, KeysOf(raisings));
    DissentsSayWho(raisings, KeysOf(raisings), |candidates|);
  }

  lemma ReportsSayWho(raisings: seq<Raising>, keys: seq<string>)
    ensures var findings := Reported(raisings, keys);
            && |findings| == |keys| && (forall i :: 0 <= i < |findings| ==> findings[i].key == keys[i])
            && (forall f :: f in findings ==> ReportSaysWho(f, Own(raisings, f.key)))
  {
    hide EntryOf, FirstAppearances;
    ReportedAre(raisings, keys);
    var findings := Reported(raisings, keys);
    forall f | f in findings ensures ReportSaysWho(f, Own(raisings, f.key)) {
      var i :| 0 <= i < |findings| && findings[i] == f;
      EntrySaysWho(raisings, f.key);
    }
  }

  lemma {:induction false} DissentsSayWho(raisings: seq<Raising>, keys: seq<string>, total: nat)
    ensures forall d :: d in Dissents(raisings, keys, total) ==>
              SaysWho(d.raisedBy, d.severities, d.blockings, Own(raisings, d.finding))
  {
    hide SaysWho, EntryOf;
    if keys == [] {
    } else {
      DissentsSayWho(raisings, Front(keys), total);
      EntrySaysWho(raisings, Last(keys));
    }
  }

  // ---------------------------------------------------------------- what the ensemble says

  predicate Raises(c: Candidate, key: string) { exists i :: 0 <= i < |c.result.findings| && c.result.findings[i].key == key }

  lemma {:induction false} RaisingsAre(candidates: seq<Candidate>)
    ensures forall r :: r in Raisings(candidates) <==>
              exists c :: c in candidates && r.index == c.index && r.finding in c.result.findings
  {
    if candidates == [] {
    } else {
      RaisingsAre(Front(candidates));
      RaisingsOfAre(Last(candidates).index, Last(candidates).result.findings);
      assert forall c :: c in candidates <==> c in Front(candidates) || c == Last(candidates);
    }
  }

  lemma {:induction false} RaisingsOfAre(index: nat, findings: seq<Finding>)
    ensures forall r :: r in RaisingsOf(index, findings) <==> r.index == index && r.finding in findings
  {
    if findings == [] {
    } else {
      RaisingsOfAre(index, Front(findings));
      assert forall f :: f in findings <==> f in Front(findings) || f == Last(findings);
    }
  }

  lemma {:induction false} KeysAre(raisings: seq<Raising>)
    ensures Distinct(KeysOf(raisings))
    ensures forall k :: k in KeysOf(raisings) <==> exists r :: r in raisings && KeyOf(r) == k
  {
    if raisings == [] {
    } else {
      KeysAre(Front(raisings));
      assert forall r :: r in raisings <==> r in Front(raisings) || r == Last(raisings);
    }
  }

  /** Two raisings of one key that differ in severity or in blocking. */
  ghost predicate Clash(a: Raising, b: Raising, key: string) {
    KeyOf(a) == KeyOf(b) == key && (a.finding.severity != b.finding.severity || a.finding.blocking != b.finding.blocking)
  }

  lemma {:induction false} EntryIs(raisings: seq<Raising>, key: string)
    ensures var e := EntryOf(raisings, key);
            && Distinct(e.severities) && Distinct(e.blockings)
            && (forall i :: i in e.raisedBy <==> exists r :: r in raisings && KeyOf(r) == key && r.index == i)
            && (forall x :: x in e.severities <==> exists r :: r in raisings && KeyOf(r) == key && r.finding.severity == x)
            && (forall b :: b in e.blockings <==> exists r :: r in raisings && KeyOf(r) == key && r.finding.blocking == b)
  {
    if raisings == [] {
    } else {
      EntryIs(Front(raisings), key);
      assert forall r :: r in raisings <==> r in Front(raisings) || r == Last(raisings);
    }
  }

  ghost predicate Clashing(raisings: seq<Raising>, key: string) {
    exists a, b :: a in raisings && b in raisings && Clash(a, b, key)
  }

  lemma DisagreeIsClash(raisings: seq<Raising>, key: string)
    ensures Disagree(EntryOf(raisings, key)) <==> Clashing(raisings, key)
  {
    EntryIs(raisings, key);
    hide EntryOf;
    var e := EntryOf(raisings, key);
    if |e.severities| > 1 {
      assert e.severities[0] in e.severities && e.severities[1] in e.severities;
      var a :| a in raisings && KeyOf(a) == key && a.finding.severity == e.severities[0];
      var b :| b in raisings && KeyOf(b) == key && b.finding.severity == e.severities[1];
      assert Clash(a, b, key);
    } else if |e.blockings| > 1 {
      assert e.blockings[0] in e.blockings && e.blockings[1] in e.blockings;
      var a :| a in raisings && KeyOf(a) == key && a.finding.blocking == e.blockings[0];
      var b :| b in raisings && KeyOf(b) == key && b.finding.blocking == e.blockings[1];
      assert Clash(a, b, key);
    } else {
      forall a, b | a in raisings && b in raisings && KeyOf(a) == KeyOf(b) == key ensures !Clash(a, b, key) {
        assert a.finding.severity in e.severities && b.finding.severity in e.severities;
        assert a.finding.blocking in e.blockings && b.finding.blocking in e.blockings;
      }
    }
  }

  lemma {:induction false} ReportedAre(raisings: seq<Raising>, keys: seq<string>)
    ensures |Reported(raisings, keys)| == |keys|
    ensures forall i :: 0 <= i < |keys| ==>
              var e := EntryOf(raisings, keys[i]);
              Reported(raisings, keys)[i] == ReviewFinding(keys[i], e.raisedBy, e.severities, Disagree(e))
    ensures AnyDisagree(raisings, keys) <==> exists i :: 0 <= i < |keys| && Disagree(EntryOf(raisings, keys[i]))
  {
    if keys == [] {
    } else {
      ReportedAre(raisings, Front(keys));
      hide EntryOf;
      assert forall i :: 0 <= i < |keys| - 1 ==> keys[i] == Front(keys)[i];
    }
  }

  predicate Reports(findings: seq<ReviewFinding>, key: string) { exists i :: 0 <= i < |findings| && findings[i].key == key }

  /** A finding survives exactly when any candidate raised it, and is reported once. */
  lemma AnyoneIsHeard(candidates: seq<Candidate>, key: string)
    ensures var findings := Review(candidates).winner.value.result.findings;
            && (Reports(findings, key) <==> exists c :: c in candidates && Raises(c, key))
            && (forall i, j :: 0 <= i < j < |findings| ==> findings[i].key != findings[j].key)
  {
    var raisings := Raisings(candidates);
    var keys, findings := KeysOf(raisings), Reported(raisings, KeysOf(raisings));
    KeysAre(raisings);
    ReportedAre(raisings, keys);
    KeysAreRaised(candidates);
    hide EntryOf, KeysOf, Raisings, Reported, Raises;
    assert forall i :: 0 <= i < |keys| ==> findings[i].key == keys[i];
    if key in keys {
      var i :| 0 <= i < |keys| && keys[i] == key;
      assert findings[i].key == key;
    }
  }

  /** A reported finding is marked exactly when two raisings of it clash, and the escalation marker is up exactly when any do. */
  lemma MarksAreClashes(candidates: seq<Candidate>)
    ensures var result := Review(candidates).winner.value.result;
            var raisings := Raisings(candidates);
            && (forall i :: 0 <= i < |result.findings| ==>
                  (result.findings[i].disagree <==> Clashing(raisings, result.findings[i].key)))
            && (result.escalation <==> exists r :: r in raisings && Clashing(raisings, KeyOf(r)))
  {
    var raisings := Raisings(candidates);
    var keys := KeysOf(raisings);
    KeysAre(raisings);
    ReportedAre(raisings, keys);
    forall k ensures Disagree(EntryOf(raisings, k)) <==> Clashing(raisings, k) {
      DisagreeIsClash(raisings, k);
    }
    hide EntryOf, KeysOf, Raisings, Reported, AnyDisagree, Disagree, Clashing;
    if r :| r in raisings && Clashing(raisings, KeyOf(r)) {
      assert KeyOf(r) in keys;
      var i :| 0 <= i < |keys| && keys[i] == KeyOf(r);
      assert Disagree(EntryOf(raisings, keys[i]));
    }
    if i :| 0 <= i < |keys| && Disagree(EntryOf(raisings, keys[i])) {
      assert keys[i] in keys;
      var r :| r in raisings && KeyOf(r) == keys[i];
    }
  }

  lemma KeysAreRaised(candidates: seq<Candidate>)
    ensures forall k :: k in KeysOf(Raisings(candidates)) <==> exists c :: c in candidates && Raises(c, k)
  {
    KeysAre(Raisings(candidates));
    RaisingsAre(candidates);
    hide KeysOf, Raisings;
    forall k ensures k in KeysOf(Raisings(candidates)) <==> exists c :: c in candidates && Raises(c, k) {
      if k in KeysOf(Raisings(candidates)) {
        var r :| r in Raisings(candidates) && KeyOf(r) == k;
        var c :| c in candidates && r.index == c.index && r.finding in c.result.findings;
        assert Raises(c, k);
      }
      if c :| c in candidates && Raises(c, k) {
        var i :| 0 <= i < |c.result.findings| && c.result.findings[i].key == k;
        assert Raising(c.index, c.result.findings[i]) in Raisings(candidates);
        assert KeyOf(Raising(c.index, c.result.findings[i])) == k;
      }
    }
  }

  // ---------------------------------------------------------------- dissent

  /** How often one candidate raises a key. */
  function Times(findings: seq<Finding>, key: string): nat {
    if findings == [] then 0 else Times(Front(findings), key) + if Last(findings).key == key then 1 else 0
  }

  /** Candidates that do not raise the key. */
  function Silent(candidates: seq<Candidate>, key: string): nat {
    if candidates == [] then 0
    else Silent(Front(candidates), key) + if Times(Last(candidates).result.findings, key) == 0 then 1 else 0
  }

  /** Raisings of the key beyond each candidate's first. */
  function Repeats(candidates: seq<Candidate>, key: string): nat {
    if candidates == [] then 0
    else
      var n := Times(Last(candidates).result.findings, key);
      Repeats(Front(candidates), key) + if n > 1 then n - 1 else 0
  }

  lemma {:induction false} EntryGrows(earlier: seq<Raising>, index: nat, findings: seq<Finding>, key: string)
    ensures |EntryOf(earlier + RaisingsOf(index, findings), key).raisedBy| == |EntryOf(earlier, key).raisedBy| + Times(findings, key)
  {
    if findings == [] {
      assert earlier + [] == earlier;
    } else {
      EntryGrows(earlier, index, Front(findings), key);
      var all := earlier + RaisingsOf(index, findings);
      assert Front(all) == earlier + RaisingsOf(index, Front(findings));
    }
  }

  /** `raisedBy` counts raisings, so the silent candidates minus the repeats are what it lacks. */
  lemma {:induction false} RaisedByCounts(candidates: seq<Candidate>, key: string)
    ensures |EntryOf(Raisings(candidates), key).raisedBy| + Silent(candidates, key) == |candidates| + Repeats(candidates, key)
  {
    if candidates == [] {
    } else {
      RaisedByCounts(Front(candidates), key);
      EntryGrows(Raisings(Front(candidates)), Last(candidates).index, Last(candidates).result.findings, key);
    }
  }

  lemma {:induction false} DissentsAre(raisings: seq<Raising>, keys: seq<string>, total: nat, key: string)
    ensures (exists d :: d in Dissents(raisings, keys, total) && d.finding == key)
              <==> (key in keys && |EntryOf(raisings, key).raisedBy| < total)
  {
    if keys == [] {
    } else {
      DissentsAre(raisings, Front(keys), total, key);
      hide EntryOf;
      var before, e := Dissents(raisings, Front(keys), total), EntryOf(raisings, Last(keys));
      var all := Dissents(raisings, keys, total);
      assert forall d :: d in before ==> d in all;
      if |e.raisedBy| < total {
        assert Last(all) == Dissent(Last(keys), e.raisedBy, e.severities, e.blockings);
        assert forall d :: d in all <==> d in before || d == Last(all);
      }
    }
  }

  ghost predicate Dissented(candidates: seq<Candidate>, key: string) {
    exists d :: d in Review(candidates).dissent && d.finding == key
  }

  lemma {:induction false} SilentMeans(candidates: seq<Candidate>, key: string)
    ensures Silent(candidates, key) > 0 <==> exists c :: c in candidates && !Raises(c, key)
  {
    if candidates == [] {
    } else {
      SilentMeans(Front(candidates), key);
      TimesMeans(Last(candidates).result.findings, key);
      assert Last(candidates) in candidates;
      assert forall c :: c in candidates <==> c in Front(candidates) || c == Last(candidates);
    }
  }

  lemma {:induction false} TimesMeans(findings: seq<Finding>, key: string)
    ensures Times(findings, key) > 0 <==> exists i :: 0 <= i < |findings| && findings[i].key == key
  {
    if findings == [] {
    } else {
      TimesMeans(Front(findings), key);
      assert forall i :: 0 <= i < |findings| - 1 ==> findings[i] == Front(findings)[i];
      assert findings[|findings| - 1] == Last(findings);
    }
  }

  /**
   Dissent is to be every finding not raised by all candidates. The code compares the
   number of raisings instead, so for a finding that anyone raised it is right exactly when
   nobody was silent or the repeats are fewer than the silent candidates.
   */
  lemma DissentExactly(candidates: seq<Candidate>, key: string)
    requires exists c :: c in candidates && Raises(c, key)
    ensures Dissented(candidates, key) <==> Repeats(candidates, key) < Silent(candidates, key)
    ensures (Dissented(candidates, key) <==> exists c :: c in candidates && !Raises(c, key))
              <==> (Silent(candidates, key) == 0 || Repeats(candidates, key) < Silent(candidates, key))
  {
    DissentsAre(Raisings(candidates), KeysOf(Raisings(candidates)), |candidates|, key);
    RaisedByCounts(candidates, key);
    KeysAreRaised(candidates);
    SilentMeans(candidates, key);
  }

  /** One candidate raising a finding twice hides that the other did not raise it at all. */
  lemma RepeatHidesDissent()
    ensures var f := Finding("F", "high", true);
            var loud := Candidate(0, "a", "x", Structured("", [], [f, f]), [], 0.0, None);
            var silent := Candidate(1, "b", "y", Structured("", [], []), [], 0.0, None);
            !Raises(silent, "F") && !Dissented([loud, silent], "F")
  {
    var f := Finding("F", "high", true);
    var loud := Candidate(0, "a", "x", Structured("", [], [f, f]), [], 0.0, None);
    var silent := Candidate(1, "b", "y", Structured("", [], []), [], 0.0, None);
    var both := [loud, silent];
    assert loud in both && loud.result.findings[0].key == "F" && Raises(loud, "F");
    assert Front(both) == [loud] && Front([loud]) == [] && Front([f, f]) == [f] && Front([f]) == [];
    assert Times([f], "F") == 1 && Times([f, f], "F") == 2;
    DissentExactly(both, "F");
  }
}
