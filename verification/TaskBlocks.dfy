/**
 The printer of execution blocks, `iter_task_blocks`: one line for each root, its own and
 its children's metadata on it. Printing and parsing again is the round trip proved here.
 */
module TaskBlocks {
  import opened Common
  import opened TaskHierarchy

  function As(m: Marker, texts: seq<Text>): seq<Value> {
    seq(|texts|, i requires 0 <= i < |texts| => Value(m, texts[i]))
  }

  function ChildrenSatisfies(children: seq<Node>): seq<Text> {
    if children == [] then [] else ChildrenSatisfies(Front(children)) + Last(children).satisfies
  }

  /** Child by child, each one's requirements in order. */
  lemma {:induction false} ChildrenInOrder(some: seq<Node>, more: seq<Node>)
    ensures ChildrenSatisfies(some + more) == ChildrenSatisfies(some) + ChildrenSatisfies(more)
    ensures |more| == 1 ==> ChildrenSatisfies(more) == more[0].satisfies
  {
    if more == [] {
      assert some + more == some;
    } else {
      assert Front(some + more) == some + Front(more);
      ChildrenInOrder(some, Front(more));
      Regroup(ChildrenSatisfies(some), ChildrenSatisfies(Front(more)), Last(more).satisfies);
    }
  }

  function AllSatisfies(r: TaskRoot): seq<Text> { r.node.satisfies + ChildrenSatisfies(r.children) }

  function Unless(m: Marker, text: Text): seq<Value> { if text == [] then [] else [Value(m, text)] }

  /** The values printed for a root, in order. */
  function Items(r: TaskRoot): seq<Value> {
    As(Satisfies, AllSatisfies(r)) + Unless(Verify, r.node.verify) + As(DependsOn, r.node.depends) + Unless(Batch, r.node.batch)
  }

  function Spell(items: seq<Value>): Text {
    if items == [] then [] else Spell(Front(items)) + [Marked(Last(items).marker, Nothing)] + Last(items).text
  }

  /** A checkbox with nothing behind its number is no root line, it is a bad checkbox. */
  function RootLine(checked: bool, ord: string, text: Text): Line {
    if text == [] then Box(0) else Root(checked, ord, text)
  }

  function PrintRoot(r: TaskRoot): Line
    requires r.node.ordinal.RootId?
  {
    RootLine(r.node.checked, r.node.ordinal.ord, r.node.headline + Spell(Items(r)))
  }

  function PrintAll(roots: seq<TaskRoot>): seq<Line>
    requires forall r :: r in roots ==> r.node.ordinal.RootId?
  {
    seq(|roots|, i requires 0 <= i < |roots| => PrintRoot(roots[i]))
  }

  lemma RootsHaveIds(lines: seq<Line>)
    requires Parse(lines).Ok?
    ensures forall r :: r in Parse(lines).value ==> r.node.ordinal.RootId?
  {
    AcceptedIsSound(lines);
  }

  method IterTaskBlocks(lines: seq<Line>) returns (blocks: Result<seq<Line>>)
    ensures Parse(lines).Err? ==> blocks == Err(Parse(lines).line, Parse(lines).reason)
    ensures Parse(lines).Ok? ==>
              && (forall r :: r in Parse(lines).value ==> r.node.ordinal.RootId?)
              && blocks == Ok(PrintAll(Parse(lines).value))
  {
    var parsed := Parse(lines);
    if parsed.Err? { return Err(parsed.line, parsed.reason); }
    RootsHaveIds(lines);
    var roots, printed: seq<Line> := parsed.value, [];
    for i := 0 to |roots|
      invariant |printed| == i && forall j :: 0 <= j < i ==> printed[j] == PrintRoot(roots[j])
    {
      var markers := SpellBlock(roots[i]);
      printed := printed + [RootLine(roots[i].node.checked, roots[i].node.ordinal.ord, markers)];
    }
    assert printed == PrintAll(roots);
    blocks := Ok(printed);
  }

  /** The markers of one block, joined in the order the source appends them. */
  method SpellBlock(r: TaskRoot) returns (markers: Text)
    ensures markers == r.node.headline + Spell(Items(r))
  {
    hide Spell, Items;
    ItemsSpelled(r);
    markers := SpellSatisfies(r);
    if r.node.verify != [] {
      markers := markers + Spell(Unless(Verify, r.node.verify));
    }
    markers := markers + Spell(As(DependsOn, r.node.depends));
    if r.node.batch != [] {
      markers := markers + Spell(Unless(Batch, r.node.batch));
    }
    markers := r.node.headline + markers;
  }

  /** A block's markers are the four kinds one after the other; verify and batch only when they say something. */
  lemma ItemsSpelled(r: TaskRoot)
    ensures var s, d := Spell(As(Satisfies, AllSatisfies(r))), Spell(As(DependsOn, r.node.depends));
            var said := if r.node.verify != [] then s + Spell(Unless(Verify, r.node.verify)) else s;
            Spell(Items(r)) == if r.node.batch != [] then said + d + Spell(Unless(Batch, r.node.batch)) else said + d
  {
    var s, v, d := As(Satisfies, AllSatisfies(r)), Unless(Verify, r.node.verify), As(DependsOn, r.node.depends);
    SpellAppends(s, v);
    SpellAppends(s + v, d);
    SpellAppends(s + v + d, Unless(Batch, r.node.batch));
    assert r.node.verify == [] ==> s + v == s;
    assert r.node.batch == [] ==> Items(r) == s + v + d;
    hide Spell;
  }

  method SpellSatisfies(r: TaskRoot) returns (markers: Text)
    ensures markers == Spell(As(Satisfies, AllSatisfies(r)))
  {
    markers := Spell(As(Satisfies, r.node.satisfies));
    ghost var texts := r.node.satisfies;
    for c := 0 to |r.children|
      invariant texts == r.node.satisfies + ChildrenSatisfies(r.children[..c])
      invariant markers == Spell(As(Satisfies, texts))
    {
      assert Front(r.children[..c + 1]) == r.children[..c];
      MoreSatisfies(texts, r.children[c].satisfies);
      texts := texts + r.children[c].satisfies;
      markers := markers + Spell(As(Satisfies, r.children[c].satisfies));
    }
    assert r.children[..|r.children|] == r.children;
  }

  lemma SpellAtEnd(items: seq<Value>, v: Value)
    ensures Spell(items + [v]) == Spell(items) + ([Marked(v.marker, Nothing)] + v.text)
  {
    assert Front(items + [v]) == items;
    Regroup(Spell(items), [Marked(v.marker, Nothing)], v.text);
  }

  lemma {:induction false} SpellAppends(items: seq<Value>, more: seq<Value>)
    ensures Spell(items + more) == Spell(items) + Spell(more)
  {
    if more == [] {
      assert items + more == items;
    } else {
      hide Spell;
      var front, last := Front(more), Last(more);
      assert items + more == items + front + [last] && more == front + [last];
      SpellAppends(items, front);
      SpellAtEnd(items + front, last);
      SpellAtEnd(front, last);
      Regroup(Spell(items), Spell(front), [Marked(last.marker, Nothing)] + last.text);
    }
  }

  lemma MoreSatisfies(texts: seq<Text>, more: seq<Text>)
    ensures Spell(As(Satisfies, texts + more)) == Spell(As(Satisfies, texts)) + Spell(As(Satisfies, more))
  {
    assert As(Satisfies, texts + more) == As(Satisfies, texts) + As(Satisfies, more);
    SpellAppends(As(Satisfies, texts), As(Satisfies, more));
  }

  // ---------------------------------------------------------------- reading root lines back

  /** What a root line alone yields. */
  function ReadRoot(line: Line, no: nat): TaskRoot
    requires line.Root?
  {
    var n := Leading(line.text);
    TaskRoot(ApplyValues(NewNode(RootId(line.ord), no, line.checked, line.text), Values(line.text[n..])), [])
  }

  ghost predicate RootLines(lines: seq<Line>) {
    && (forall i :: 0 <= i < |lines| ==> lines[i].Root? && !LeadingZeroed(lines[i].ord))
    && (forall i, j :: 0 <= i < j < |lines| ==> lines[i].ord != lines[j].ord)
  }

  function ReadRoots(lines: seq<Line>): seq<TaskRoot>
    requires forall i :: 0 <= i < |lines| ==> lines[i].Root?
  {
    seq(|lines|, i requires 0 <= i < |lines| => ReadRoot(lines[i], i + 1))
  }

  lemma {:induction false} ApplyKeepsHead(node: Node, values: seq<Value>)
    ensures SameHead(ApplyValues(node, values), node)
    decreases |values|
  {
    if values == [] {
    } else {
      ApplyKeepsHead(ApplyValue(node, values[0]), values[1..]);
    }
  }

  /** One more root line, from a flushed state. */
  lemma RootLineRead(st: State, line: Line, no: nat)
    requires line.Root? && !LeadingZeroed(line.ord) && !HasRoot(st.roots, line.ord)
    requires st.fence.None? && st.evidence.None? && st.pending.None?
    ensures StepRoot(st, line, no).Ok?
    ensures var after := StepRoot(st, line, no).value;
            after.fence.None? && after.evidence.None? && Flush(after).roots == st.roots + [ReadRoot(line, no)]
  {
    var n := Leading(line.text);
    var root := TaskRoot(NewNode(RootId(line.ord), no, line.checked, line.text), []);
    assert Front(st.roots + [root]) == st.roots;
    if n == |line.text| {
      assert line.text[n..] == [];
    }
  }

  lemma RootLineStep(st: State, line: Line, no: nat) returns (after: State)
    requires line.Root? && !LeadingZeroed(line.ord) && !HasRoot(Flush(st).roots, line.ord)
    requires st.fence.None? && st.evidence.None?
    ensures Step(st, line, no) == Ok(after)
    ensures after.fence.None? && after.evidence.None? && Flush(after).roots == Flush(st).roots + [ReadRoot(line, no)]
  {
    assert st.(evidence := None) == st;
    RootLineRead(Flush(st), line, no);
    after := Step(st, line, no).value;
  }

  lemma ReadsItsId(line: Line, no: nat)
    requires line.Root?
    ensures ReadRoot(line, no).node.ordinal == RootId(line.ord)
  {
    ApplyKeepsHead(NewNode(RootId(line.ord), no, line.checked, line.text), Values(line.text[Leading(line.text)..]));
  }

  lemma NextToRead(lines: seq<Line>, k: nat)
    requires RootLines(lines) && k < |lines|
    ensures lines[k].Root? && !LeadingZeroed(lines[k].ord) && !HasRoot(ReadRoots(lines)[..k], lines[k].ord)
    ensures ReadRoots(lines)[..k + 1] == ReadRoots(lines)[..k] + [ReadRoot(lines[k], k + 1)]
  {
    hide ReadRoot;
    forall i | 0 <= i < k ensures ReadRoots(lines)[..k][i].node.ordinal != RootId(lines[k].ord) {
      ReadsItsId(lines[i], i + 1);
    }
  }

  lemma {:induction false} RootLinesRun(lines: seq<Line>, k: nat) returns (st: State)
    requires RootLines(lines) && k <= |lines|
    ensures Run(lines, k) == Ok(st)
    ensures st.fence.None? && st.evidence.None? && Flush(st).roots == ReadRoots(lines)[..k]
  {
    hide Step;
    if k == 0 {
      st := INIT;
    } else {
      hide RootLines, ReadRoots, ReadRoot, Run, Flush, HasRoot;
      var before := RootLinesRun(lines, k - 1);
      NextToRead(lines, k - 1);
      st := RootLineStep(before, lines[k - 1], k);
      RunSnoc(lines, k - 1, before, st);
    }
  }

  lemma RootLinesParse(lines: seq<Line>)
    requires RootLines(lines)
    ensures Parse(lines) == Ok(ReadRoots(lines))
  {
    var st := RootLinesRun(lines, |lines|);
    assert ReadRoots(lines)[..|lines|] == ReadRoots(lines);
  }

  // ---------------------------------------------------------------- values that survive

  lemma {:induction false} LeadingPlain(head: Text, rest: Text)
    requires Plain(head) && (rest == [] || rest[0].Marked?)
    ensures Leading(head + rest) == |head|
  {
    if head == [] {
      assert head + rest == rest;
    } else {
      assert (head + rest)[1..] == head[1..] + rest;
      LeadingPlain(head[1..], rest);
    }
  }

  lemma {:induction false} SpellStartsMarked(items: seq<Value>)
    ensures Spell(items) == [] || Spell(items)[0].Marked?
  {
    if items == [] {
    } else {
      SpellStartsMarked(Front(items));
    }
  }

  lemma {:induction false} SpellFirst(items: seq<Value>)
    requires items != []
    ensures Spell(items) == [Marked(items[0].marker, Nothing)] + items[0].text + Spell(items[1..])
  {
    SpellAppends([items[0]], items[1..]);
    assert [items[0]] + items[1..] == items;
    assert Front([items[0]]) == [];
    assert Spell([items[0]]) == [Marked(items[0].marker, Nothing)] + items[0].text;
  }

  lemma FirstValue(m: Marker, words: Text, rest: Text)
    requires Plain(words) && (rest == [] || rest[0].Marked?)
    ensures Values([Marked(m, Nothing)] + words + rest) == [Value(m, words)] + Values(rest)
  {
    var text := [Marked(m, Nothing)] + words + rest;
    assert text[1..] == words + rest;
    LeadingPlain(words, rest);
    var n := 1 + |words|;
    assert text[1..n] == words && text[n..] == rest;
    assert [] + words == words;
  }

  lemma FirstValueSurvives(items: seq<Value>)
    requires items != [] && Plain(items[0].text)
    ensures Values(Spell(items)) == [items[0]] + Values(Spell(items[1..]))
  {
    SpellFirst(items);
    SpellStartsMarked(items[1..]);
    FirstValue(items[0].marker, items[0].text, Spell(items[1..]));
  }

  /** Plain values are found again, one by one. */
  lemma {:induction false} PlainValuesSurvive(items: seq<Value>)
    requires forall i :: 0 <= i < |items| ==> Plain(items[i].text)
    ensures Values(Spell(items)) == items
    decreases |items|
  {
    if items == [] {
    } else {
      FirstValueSurvives(items);
      PlainValuesSurvive(items[1..]);
      assert items == [items[0]] + items[1..];
    }
  }

  lemma {:induction false} ApplyAppends(node: Node, values: seq<Value>, more: seq<Value>)
    ensures ApplyValues(node, values + more) == ApplyValues(ApplyValues(node, values), more)
    decreases |values|
  {
    if values == [] {
      assert values + more == more;
    } else {
      assert (values + more)[1..] == values[1..] + more;
      ApplyAppends(ApplyValue(node, values[0]), values[1..], more);
    }
  }

  lemma {:induction false} ApplyAs(node: Node, m: Marker, texts: seq<Text>)
    requires m == Satisfies || m == DependsOn
    ensures ApplyValues(node, As(m, texts)) ==
            if m == Satisfies then node.(satisfies := node.satisfies + texts) else node.(depends := node.depends + texts)
    decreases |texts|
  {
    if texts == [] {
      assert node.satisfies + texts == node.satisfies && node.depends + texts == node.depends;
    } else {
      var next := ApplyValue(node, Value(m, texts[0]));
      assert As(m, texts)[1..] == As(m, texts[1..]);
      ApplyAs(next, m, texts[1..]);
      assert node.satisfies + [texts[0]] + texts[1..] == node.satisfies + texts;
      assert node.depends + [texts[0]] + texts[1..] == node.depends + texts;
    }
  }

  /** The root the printed line should give back: children folded in, nothing else changed. */
  function Reread(r: TaskRoot, no: nat): TaskRoot {
    TaskRoot(r.node.(line := no, satisfies := AllSatisfies(r), evidenceLine := None), [])
  }

  lemma ItemsRebuild(bare: Node, r: TaskRoot)
    requires bare.satisfies == [] && bare.verify == [] && bare.depends == [] && bare.batch == []
    ensures ApplyValues(bare, Items(r)) ==
            bare.(satisfies := AllSatisfies(r), verify := r.node.verify, depends := r.node.depends, batch := r.node.batch)
  {
    var s, v := As(Satisfies, AllSatisfies(r)), Unless(Verify, r.node.verify);
    var d, b := As(DependsOn, r.node.depends), Unless(Batch, r.node.batch);
    ApplyAppends(bare, s + v + d, b);
    ApplyAppends(bare, s + v, d);
    ApplyAppends(bare, s, v);
    ApplyAs(bare, Satisfies, AllSatisfies(r));
    assert [] + AllSatisfies(r) == AllSatisfies(r);
    var n1 := ApplyValues(bare, s);
    var n2 := ApplyValues(n1, v);
    assert n2 == n1.(verify := r.node.verify);
    ApplyAs(n2, DependsOn, r.node.depends);
    assert [] + r.node.depends == r.node.depends;
  }

  // ---------------------------------------------------------------- weighing texts

  function Weight(c: Chunk): nat {
    match c
    case Word(_) => 1
    case Marked(_, g) => 1 + (if g.Glued? then Weight(g.chunk) else 0)
  }

  function TextWeight(text: Text): nat { if text == [] then 0 else Weight(text[0]) + TextWeight(text[1..]) }

  lemma {:induction false} WeightAppends(text: Text, more: Text)
    ensures TextWeight(text + more) == TextWeight(text) + TextWeight(more)
  {
    if text == [] {
      assert text + more == more;
    } else {
      assert (text + more)[1..] == text[1..] + more;
      WeightAppends(text[1..], more);
    }
  }

  /** A value weighs its text and its marker. */
  function Cost(values: seq<Value>): nat { if values == [] then 0 else 1 + TextWeight(values[0].text) + Cost(values[1..]) }

  function Markers(text: Text): nat { if text == [] then 0 else (if text[0].Marked? then 1 else 0) + Markers(text[1..]) }

  lemma {:induction false} MarkersAppend(text: Text, more: Text)
    ensures Markers(text + more) == Markers(text) + Markers(more)
  {
    if text == [] {
      assert text + more == more;
    } else {
      assert (text + more)[1..] == text[1..] + more;
      MarkersAppend(text[1..], more);
    }
  }

  lemma {:induction false} PlainHasNoMarkers(text: Text)
    requires Plain(text)
    ensures Markers(text) == 0
  {
    if text == [] {
    } else {
      PlainHasNoMarkers(text[1..]);
    }
  }

  lemma OpeningWeighs(c: Chunk)
    requires c.Marked?
    ensures Weight(c) == 1 + TextWeight(Opening(c))
  {
    if c.glued.Glued? {
      assert Opening(c)[1..] == [];
    }
  }

  /** Splitting a text into values loses no weight and finds every marker. */
  lemma {:induction false} ValuesWeigh(text: Text)
    requires text == [] || text[0].Marked?
    ensures Cost(Values(text)) == TextWeight(text) && |Values(text)| == Markers(text)
    decreases |text|
  {
    if text == [] {
    } else {
      var n := 1 + Leading(text[1..]);
      var words, rest := text[1..n], text[n..];
      assert text[1..] == words + rest;
      assert Plain(words) by { assert forall i :: 0 <= i < |words| ==> words[i] == text[1..][i]; }
      assert rest != [] ==> rest[0] == text[1..][n - 1];
      ValuesWeigh(rest);
      WeightAppends(words, rest);
      MarkersAppend(words, rest);
      PlainHasNoMarkers(words);
      WeightAppends(Opening(text[0]), words);
      OpeningWeighs(text[0]);
      assert Values(text)[1..] == Values(rest);
    }
  }

  lemma FirstWeighs(items: seq<Value>)
    requires items != []
    ensures TextWeight(Spell(items)) == 1 + TextWeight(items[0].text) + TextWeight(Spell(items[1..]))
    ensures Markers(Spell(items)) == 1 + Markers(items[0].text) + Markers(Spell(items[1..]))
  {
    var v, rest := items[0], Spell(items[1..]);
    var opening := [Marked(v.marker, Nothing)];
    SpellFirst(items);
    assert Spell(items) == opening + (v.text + rest);
    assert opening[1..] == [];
    WeightAppends(opening, v.text + rest);
    WeightAppends(v.text, rest);
    MarkersAppend(opening, v.text + rest);
    MarkersAppend(v.text, rest);
  }

  lemma {:induction false} SpellWeighs(items: seq<Value>)
    requires forall v :: v in items ==> PlainAfterFirst(v.text)
    ensures TextWeight(Spell(items)) == Cost(items)
    ensures Markers(Spell(items)) >= |items|
    ensures Markers(Spell(items)) == |items| ==> forall v :: v in items ==> Plain(v.text)
    decreases |items|
  {
    if items == [] {
    } else {
      var v := items[0];
      assert v in items;
      SpellWeighs(items[1..]);
      FirstWeighs(items);
      assert Markers(v.text) == 0 ==> Plain(v.text);
    }
  }

  function CostOfTexts(texts: seq<Text>): nat { if texts == [] then 0 else CostOfTexts(Front(texts)) + 1 + TextWeight(Last(texts)) }

  function StoredCost(n: Node): nat {
    CostOfTexts(n.satisfies) + CostOfTexts(n.depends)
    + (if n.verify == [] then 0 else 1 + TextWeight(n.verify)) + (if n.batch == [] then 0 else 1 + TextWeight(n.batch))
  }

  function StoredCount(n: Node): nat {
    |n.satisfies| + |n.depends| + (if n.verify == [] then 0 else 1) + (if n.batch == [] then 0 else 1)
  }

  lemma CostOfOneMore(texts: seq<Text>, text: Text)
    ensures CostOfTexts(texts + [text]) == CostOfTexts(texts) + 1 + TextWeight(text)
  {
    assert Front(texts + [text]) == texts;
  }

  lemma OneStored(n: Node, v: Value)
    ensures var m := ApplyValue(n, v);
            || (StoredCost(m) == StoredCost(n) + 1 + TextWeight(v.text) && StoredCount(m) == StoredCount(n) + 1)
            || (StoredCost(m) == StoredCost(n) && StoredCount(m) == StoredCount(n))
  {
    match v.marker
    case Satisfies => CostOfOneMore(n.satisfies, v.text);
    case DependsOn => CostOfOneMore(n.depends, v.text);
    case Verify =>
    case Batch =>
  }

  /** What is applied is stored once or dropped, and dropping costs at least one. */
  lemma {:induction false} ApplyStores(n: Node, values: seq<Value>)
    ensures var m := ApplyValues(n, values);
            StoredCost(m) - StoredCost(n) + |values| - (StoredCount(m) - StoredCount(n)) <= Cost(values)
    decreases |values|
  {
    if values == [] {
    } else {
      OneStored(n, values[0]);
      ApplyStores(ApplyValue(n, values[0]), values[1..]);
    }
  }

  lemma {:induction false} CostAppends(values: seq<Value>, more: seq<Value>)
    ensures Cost(values + more) == Cost(values) + Cost(more)
  {
    if values == [] {
      assert values + more == more;
    } else {
      assert (values + more)[1..] == values[1..] + more;
      CostAppends(values[1..], more);
    }
  }

  lemma {:induction false} CostAs(m: Marker, texts: seq<Text>)
    ensures Cost(As(m, texts)) == CostOfTexts(texts)
  {
    if texts == [] {
    } else {
      assert As(m, texts) == As(m, Front(texts)) + [Value(m, Last(texts))];
      CostAppends(As(m, Front(texts)), [Value(m, Last(texts))]);
      CostAs(m, Front(texts));
    }
  }

  lemma RereadStores(r: TaskRoot, no: nat)
    ensures StoredCost(Reread(r, no).node) == Cost(Items(r)) && StoredCount(Reread(r, no).node) == |Items(r)|
  {
    var s, v := As(Satisfies, AllSatisfies(r)), Unless(Verify, r.node.verify);
    var d, b := As(DependsOn, r.node.depends), Unless(Batch, r.node.batch);
    CostAppends(s + v + d, b);
    CostAppends(s + v, d);
    CostAppends(s, v);
    CostAs(Satisfies, AllSatisfies(r));
    CostAs(DependsOn, r.node.depends);
  }

  // ---------------------------------------------------------------- the round trip

  /** A printed line can be read back: it says something, and no value opens with a marker word. */
  ghost predicate Printable(r: TaskRoot) {
    (r.node.headline != [] || Items(r) != []) && forall v :: v in Items(r) ==> Plain(v.text)
  }

  lemma {:induction false} ChildrenTexts(children: seq<Node>)
    requires forall c :: c in children ==> NodeText(c)
    ensures forall t :: t in ChildrenSatisfies(children) ==> PlainAfterFirst(t)
  {
    if children == [] {
    } else {
      assert Last(children) in children;
      ChildrenTexts(Front(children));
    }
  }

  lemma ItemsText(r: TaskRoot)
    requires RootShape(r)
    ensures forall v :: v in Items(r) ==> PlainAfterFirst(v.text)
  {
    ChildrenTexts(r.children);
  }

  /** Reading one printed line gives the root back if and only if the root is printable. */
  lemma RootRoundTrip(r: TaskRoot, no: nat)
    requires RootShape(r) && PrintRoot(r).Root?
    ensures ReadRoot(PrintRoot(r), no) == Reread(r, no) <==> forall v :: v in Items(r) ==> Plain(v.text)
  {
    var head, spelled := r.node.headline, Spell(Items(r));
    var text := head + spelled;
    SpellStartsMarked(Items(r));
    LeadingPlain(head, spelled);
    assert text[..|head|] == head && text[|head|..] == spelled;
    var bare := NewNode(r.node.ordinal, no, r.node.checked, text);
    ItemsText(r);
    if forall v :: v in Items(r) ==> Plain(v.text) {
      PlainValuesSurvive(Items(r));
      ItemsRebuild(bare, r);
    } else {
      ValuesWeigh(spelled);
      SpellWeighs(Items(r));
      ApplyStores(bare, Values(spelled));
      RereadStores(r, no);
    }
  }

  function Rereads(roots: seq<TaskRoot>): seq<TaskRoot> {
    seq(|roots|, i requires 0 <= i < |roots| => Reread(roots[i], i + 1))
  }

  lemma PrintsRootLine(r: TaskRoot)
    requires r.node.ordinal.RootId?
    ensures PrintRoot(r).Root? <==> r.node.headline != [] || Items(r) != []
    ensures PrintRoot(r).Root? ==> PrintRoot(r).ord == r.node.ordinal.ord
  {
    if Items(r) != [] {
      SpellFirst(Items(r));
    }
  }

  ghost predicate Speaks(r: TaskRoot) { r.node.headline != [] || Items(r) != [] }

  lemma PrintsRootLines(roots: seq<TaskRoot>)
    requires Roots(roots) && forall r :: r in roots ==> Speaks(r)
    ensures RootLines(PrintAll(roots))
  {
    var printed := PrintAll(roots);
    forall i | 0 <= i < |roots|
      ensures printed[i].Root? && RootId(printed[i].ord) == roots[i].node.ordinal && !LeadingZeroed(printed[i].ord)
    {
      assert roots[i] in roots;
      PrintsRootLine(roots[i]);
    }
  }

  lemma OneReadsBack(roots: seq<TaskRoot>, i: nat)
    requires Roots(roots) && i < |roots| && PrintAll(roots)[i].Root?
    ensures ReadRoot(PrintAll(roots)[i], i + 1) == Rereads(roots)[i] <==> Printable(roots[i])
  {
    assert roots[i] in roots;
    PrintsRootLine(roots[i]);
    RootRoundTrip(roots[i], i + 1);
  }

  lemma AllReadBack(roots: seq<TaskRoot>)
    requires Roots(roots) && RootLines(PrintAll(roots))
    ensures ReadRoots(PrintAll(roots)) == Rereads(roots) <==> forall r :: r in roots ==> Printable(r)
  {
    hide ReadRoot, Reread, PrintRoot, Printable;
    var read, reread := ReadRoots(PrintAll(roots)), Rereads(roots);
    forall i: nat | i < |roots| ensures read[i] == reread[i] <==> Printable(roots[i]) {
      OneReadsBack(roots, i);
    }
    AllEqual(roots, read, reread);
  }

  lemma AllEqual(roots: seq<TaskRoot>, read: seq<TaskRoot>, reread: seq<TaskRoot>)
    requires |roots| == |read| == |reread|
    requires forall i: nat :: i < |roots| ==> (read[i] == reread[i] <==> Printable(roots[i]))
    ensures read == reread <==> forall r :: r in roots ==> Printable(r)
  {
    if forall r :: r in roots ==> Printable(r) {
      assert read == reread;
    } else {
      var r :| r in roots && !Printable(r);
      var i :| 0 <= i < |roots| && roots[i] == r;
      assert read[i] != reread[i];
    }
  }

  /** When every printed line is a root line, reading back is a matter of each root alone. */
  lemma ReadsBack(roots: seq<TaskRoot>)
    requires Roots(roots) && forall r :: r in roots ==> Speaks(r)
    ensures Parse(PrintAll(roots)) == Ok(Rereads(roots)) <==> forall r :: r in roots ==> Printable(r)
  {
    PrintsRootLines(roots);
    RootLinesParse(PrintAll(roots));
    AllReadBack(roots);
  }

  /**
   The round trip. Printing the roots of an accepted list and parsing those lines gives
   the same roots in order, with their children's requirements folded in -- exactly when
   every root is printable.
   */
  lemma RoundTrip(lines: seq<Line>, roots: seq<TaskRoot>)
    requires Parse(lines) == Ok(roots)
    ensures forall r :: r in roots ==> r.node.ordinal.RootId?
    ensures Parse(PrintAll(roots)) == Ok(Rereads(roots)) <==> forall r :: r in roots ==> Printable(r)
  {
    AcceptedIsSound(lines);
    SoundRoundTrip(roots);
  }

  lemma SoundRoundTrip(roots: seq<TaskRoot>)
    requires Roots(roots)
    ensures Parse(PrintAll(roots)) == Ok(Rereads(roots)) <==> forall r :: r in roots ==> Printable(r)
  {
    if forall r :: r in roots ==> Speaks(r) {
      ReadsBack(roots);
    } else {
      var r :| r in roots && !Speaks(r);
      var i :| 0 <= i < |roots| && roots[i] == r;
      PrintsRootLine(r);
      BoxIsRefused(PrintAll(roots), i);
    }
  }

  lemma BoxIsRefused(lines: seq<Line>, i: nat)
    requires i < |lines| && lines[i].Box? && lines[i].indent == 0
    requires forall j :: 0 <= j < |lines| ==> lines[j].Box? || lines[j].Root?
    ensures Parse(lines).Err?
  {
    RootsAndBoxes(lines, |lines|, i);
  }

  lemma {:induction false} RootsAndBoxes(lines: seq<Line>, k: nat, i: nat)
    requires i < k <= |lines| && lines[i].Box? && forall j :: 0 <= j < |lines| ==> lines[j].Box? || lines[j].Root?
    ensures Run(lines, k).Err?
  {
    if k - 1 != i {
      RootsAndBoxes(lines, k - 1, i);
    } else if Run(lines, k - 1).Ok? {
      OnlyPlainModes(lines, k - 1);
    }
  }

  lemma {:induction false} OnlyPlainModes(lines: seq<Line>, k: nat)
    requires k <= |lines| && Run(lines, k).Ok? && forall j :: 0 <= j < |lines| ==> lines[j].Box? || lines[j].Root?
    ensures Run(lines, k).value.fence.None? && Run(lines, k).value.evidence.None?
  {
    if k == 0 {
    } else {
      OnlyPlainModes(lines, k - 1);
    }
  }

  /** A headline whose one requirement begins with a marker, glued to the marker before it. */
  const GLUED: Line := Root(false, "1", [Word("do"), Marked(Satisfies, Glued(Marked(Verify, Nothing))), Word("x")])

  lemma GluedReads()
    ensures var r := ReadRoot(GLUED, 1);
            r.node.satisfies == [[Marked(Verify, Nothing), Word("x")]] && r.children == []
  {
    var text, marked := GLUED.text, GLUED.text[1..];
    assert Leading(text) == 1 by { assert text[1..][0].Marked?; }
    assert marked[1..] == [Word("x")] && [Word("x")][1..] == [] && Leading([Word("x")]) == 1;
    var v := Value(Satisfies, [Marked(Verify, Nothing)] + marked[1..2]);
    assert marked[2..] == [] && Values(marked) == [v] + Values([]);
    assert marked[1..2] == [Word("x")];
    assert v.text == [Marked(Verify, Nothing), Word("x")] && Values(marked) == [v];
    var node := NewNode(RootId("1"), 1, false, text);
    assert [v][1..] == [] && ApplyValues(node, [v]) == ApplyValue(node, v);
    assert [] + [v.text] == [v.text];
  }

  /** Such a list is accepted, and what is printed of it does not read back. */
  lemma GluedMarkerIsLost()
    ensures var parsed := Parse([GLUED]);
            && parsed.Ok? && (forall r :: r in parsed.value ==> r.node.ordinal.RootId?)
            && Parse(PrintAll(parsed.value)) != Ok(Rereads(parsed.value))
  {
    RootLinesParse([GLUED]);
    GluedReads();
    var roots := ReadRoots([GLUED]);
    RoundTrip([GLUED], roots);
    hide ReadRoot, Parse, PrintAll, Rereads;
    var r := ReadRoot(GLUED, 1);
    assert roots == [r] && r in roots;
    var texts := AllSatisfies(r);
    assert texts == r.node.satisfies + [] == r.node.satisfies;
    assert Items(r)[0] == Value(Satisfies, texts[0]) && Items(r)[0] in Items(r);
    assert !Plain(texts[0]) by { assert texts[0][0] == Marked(Verify, Nothing); }
  }

  /** The order on a printed line: the headline, the root's requirements, its children's, verify, dependencies, batch. */
  lemma PrintedInOrder(h: Text, a: Text, b: Text, v: Text, d: Text, x: Text)
    requires v != [] && x != []
    ensures
      var child := Node(ChildId("1", "1"), 2, false, [], [b], v, [d], x, None);
      var r := TaskRoot(Node(RootId("1"), 1, true, h, [a], v, [d], x, None), [child]);
      PrintRoot(r) == Root(true, "1", h + ([Marked(Satisfies, Nothing)] + a + [Marked(Satisfies, Nothing)] + b
        + [Marked(Verify, Nothing)] + v + [Marked(DependsOn, Nothing)] + d + [Marked(Batch, Nothing)] + x))
  {
    var child := Node(ChildId("1", "1"), 2, false, [], [b], v, [d], x, None);
    var r := TaskRoot(Node(RootId("1"), 1, true, h, [a], v, [d], x, None), [child]);
    ChildrenInOrder([], [child]);
    assert [a] + [b] == [a, b];
    assert As(Satisfies, [a, b]) == [Value(Satisfies, a), Value(Satisfies, b)] && As(DependsOn, [d]) == [Value(DependsOn, d)];
    var items := [Value(Satisfies, a), Value(Satisfies, b), Value(Verify, v), Value(DependsOn, d), Value(Batch, x)];
    assert Items(r) == items;
    FiveSpelled(items);
    hide Items, Spell;
  }

  lemma FiveSpelled(items: seq<Value>)
    requires |items| == 5
    ensures Spell(items) ==
            [Marked(items[0].marker, Nothing)] + items[0].text + [Marked(items[1].marker, Nothing)] + items[1].text
            + [Marked(items[2].marker, Nothing)] + items[2].text + [Marked(items[3].marker, Nothing)] + items[3].text
            + [Marked(items[4].marker, Nothing)] + items[4].text
  {
    assert Front(items) == items[..4] && Front(items[..4]) == items[..3] && Front(items[..3]) == items[..2];
    assert Front(items[..2]) == items[..1] && Front(items[..1]) == [];
    assert Spell(items[..1]) == [Marked(items[0].marker, Nothing)] + items[0].text;
    assert Spell(items[..2]) == Spell(items[..1]) + [Marked(items[1].marker, Nothing)] + items[1].text;
    assert Spell(items[..3]) == Spell(items[..2]) + [Marked(items[2].marker, Nothing)] + items[2].text;
    assert Spell(items[..4]) == Spell(items[..3]) + [Marked(items[3].marker, Nothing)] + items[3].text;
  }

  /** Printing what was read back changes nothing more. */
  lemma PrintingIsStable(r: TaskRoot, no: nat)
    requires r.node.ordinal.RootId?
    ensures PrintRoot(Reread(r, no)) == PrintRoot(r)
  {
    assert AllSatisfies(Reread(r, no)) == AllSatisfies(r);
  }
}
