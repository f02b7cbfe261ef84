/** Where each line below a checkbox goes: metadata, its continuations, evidence and fences. */
module TaskDetails {
  import opened Common
  import opened TaskHierarchy
  import opened TaskRenumber
  import opened TaskBlocks

  // ---------------------------------------------------------------- values of a node

  lemma {:induction false} LeadingOfBoth(text: Text, more: Text)
    requires more == [] || more[0].Marked?
    ensures Leading(text + more) == Leading(text)
  {
    if text == [] {
      assert text + more == more;
    } else {
      assert (text + more)[1..] == text[1..] + more;
      LeadingOfBoth(text[1..], more);
    }
  }

  lemma FirstIs(text: Text, n: nat)
    requires text != [] && text[0].Marked? && n == 1 + Leading(text[1..])
    ensures Values(text) == [Value(text[0].m, Opening(text[0]) + text[1..n])] + Values(text[n..])
  {
  }

  lemma FirstOfBoth(text: Text, more: Text) returns (first: Value, rest: Text)
    requires text != [] && text[0].Marked? && (more == [] || more[0].Marked?)
    ensures |rest| < |text| && Values(text) == [first] + Values(rest) && Values(text + more) == [first] + Values(rest + more)
  {
    hide Values, Leading;
    SlicesOfBoth(text, more, 1, 1);
    LeadingOfBoth(text[1..], more);
    var n := 1 + Leading(text[1..]);
    first, rest := Value(text[0].m, Opening(text[0]) + text[1..n]), text[n..];
    FirstIs(text, n);
    FirstIs(text + more, n);
    SlicesOfBoth(text, more, 1, n);
  }

  /** Metadata that begins with a marker adds its own values to those before it. */
  lemma {:induction false} ValuesOfBoth(text: Text, more: Text)
    requires more == [] || more[0].Marked?
    ensures Values(text + more) == Values(text) + Values(more)
    decreases |text|
  {
    if text == [] {
      assert text + more == more;
    } else if text[0].Word? {
      assert (text + more)[1..] == text[1..] + more;
      ValuesOfBoth(text[1..], more);
    } else {
      var first, rest := FirstOfBoth(text, more);
      hide Values;
      ValuesOfBoth(rest, more);
      Regroup([first], Values(rest), Values(more));
    }
  }

  function TextsOf(values: seq<Value>, m: Marker): seq<Text> {
    if values == [] then [] else (if values[0].marker == m then [values[0].text] else []) + TextsOf(values[1..], m)
  }

  /** The first text that says something, beginning with `text`. */
  function FirstSaid(text: Text, texts: seq<Text>): Text
    decreases |texts|
  {
    if text != [] || texts == [] then text else FirstSaid(texts[0], texts[1..])
  }

  /** A node after more values: lists grow at the end, and of the single texts the first that says something stays. */
  function Applied(node: Node, satisfies: seq<Text>, verify: seq<Text>, depends: seq<Text>, batch: seq<Text>): Node {
    node.(satisfies := node.satisfies + satisfies, verify := FirstSaid(node.verify, verify),
          depends := node.depends + depends, batch := FirstSaid(node.batch, batch))
  }

  lemma SaidInTurn(text: Text, one: seq<Text>, more: seq<Text>)
    requires |one| <= 1
    ensures FirstSaid(FirstSaid(text, one), more) == FirstSaid(text, one + more)
  {
    if |one| == 1 {
      assert (one + more)[1..] == more && one[1..] == [];
    } else {
      assert one + more == more;
    }
  }

  lemma TextsSplit(values: seq<Value>, m: Marker)
    requires values != []
    ensures TextsOf(values, m) == TextsOf([values[0]], m) + TextsOf(values[1..], m) && |TextsOf([values[0]], m)| <= 1
  {
    assert [values[0]][1..] == [];
  }

  lemma OneApplied(node: Node, v: Value)
    ensures ApplyValue(node, v) ==
            Applied(node, TextsOf([v], Satisfies), TextsOf([v], Verify), TextsOf([v], DependsOn), TextsOf([v], Batch))
  {
    assert [v][1..] == [] && [v.text][1..] == [];
    assert forall m :: TextsOf([v], m) == if v.marker == m then [v.text] else [];
    assert FirstSaid(v.text, []) == v.text && FirstSaid(node.verify, []) == node.verify && FirstSaid(node.batch, []) == node.batch;
    hide TextsOf;
    assert node.satisfies + [] == node.satisfies && node.depends + [] == node.depends;
  }

  /** Requirements and dependencies accumulate in order; of the verify and batch texts the first that says something stays. */
  lemma {:induction false} ApplyingMeans(node: Node, values: seq<Value>)
    ensures ApplyValues(node, values) ==
            Applied(node, TextsOf(values, Satisfies), TextsOf(values, Verify), TextsOf(values, DependsOn), TextsOf(values, Batch))
    decreases |values|
  {
    if values == [] {
      assert node.satisfies + [] == node.satisfies && node.depends + [] == node.depends;
    } else {
      var v, rest := values[0], values[1..];
      OneApplied(node, v);
      ApplyingMeans(ApplyValue(node, v), rest);
      AppliedTwice(node, v, values, rest);
      hide *;
    }
  }

  lemma AppliedTwice(node: Node, v: Value, values: seq<Value>, rest: seq<Value>)
    requires values != [] && v == values[0] && rest == values[1..]
    ensures
      var once := Applied(node, TextsOf([v], Satisfies), TextsOf([v], Verify), TextsOf([v], DependsOn), TextsOf([v], Batch));
      Applied(once, TextsOf(rest, Satisfies), TextsOf(rest, Verify), TextsOf(rest, DependsOn), TextsOf(rest, Batch))
      == Applied(node, TextsOf(values, Satisfies), TextsOf(values, Verify), TextsOf(values, DependsOn), TextsOf(values, Batch))
  {
    TextsSplit(values, Satisfies);
    TextsSplit(values, Verify);
    TextsSplit(values, DependsOn);
    TextsSplit(values, Batch);
    hide TextsOf, FirstSaid;
    Regroup(node.satisfies, TextsOf([v], Satisfies), TextsOf(rest, Satisfies));
    Regroup(node.depends, TextsOf([v], DependsOn), TextsOf(rest, DependsOn));
    SaidInTurn(node.verify, TextsOf([v], Verify), TextsOf(rest, Verify));
    SaidInTurn(node.batch, TextsOf([v], Batch), TextsOf(rest, Batch));
  }

  // ---------------------------------------------------------------- one line at a time

  /** The roots once the metadata still pending has been applied. */
  function Tree(st: State): seq<TaskRoot> { Flush(st).roots }

  /** The line is looked at: no fence is open, and no evidence block holds it. */
  predicate Read(st: State, line: Line) { st.fence.None? && !UnderEvidence(st, line) }

  predicate StartsMarked(text: Text) { text != [] && text[0].Marked? }

  /**
   A root without children takes what is indented at all; one with children takes what stands
   at indent 2, and its last child what stands at indent 4. Everything else stays.
   */
  ghost predicate OnlyOwnerChanges(before: seq<TaskRoot>, after: seq<TaskRoot>, indent: nat, change: Node -> Node) {
    if before == [] then after == []
    else
      && |after| == |before| && Front(after) == Front(before)
      && var r, q := Last(before), Last(after);
         if r.children == [] then
           q.children == [] && q.node == if indent > 0 then change(r.node) else r.node
         else
           && q.node == (if indent == 2 then change(r.node) else r.node)
           && |q.children| == |r.children| && Front(q.children) == Front(r.children)
           && Last(q.children) == if indent == 4 then change(Last(r.children)) else Last(r.children)
  }

  lemma OwnedTwice(r: TaskRoot, onRoot: bool, text: Text, more: Text)
    requires StartsMarked(more)
    ensures OnOwner(OnOwner(r, onRoot, Values(text)), onRoot, Values(more)) == OnOwner(r, onRoot, Values(text + more))
  {
    ValuesOfBoth(text, more);
    ApplyAppends(r.node, Values(text), Values(more));
    if !onRoot && r.children != [] {
      ApplyAppends(Last(r.children), Values(text), Values(more));
    }
  }

  lemma AddedToTree(st: State, onRoot: bool, text: Text, indent: nat)
    requires Owned(st) && st.roots != [] && StartsMarked(text)
    ensures Tree(st) != [] && Tree(AddMetadata(st, onRoot, text, indent)) ==
            WithLast(Tree(st), OnOwner(Last(Tree(st)), onRoot, Values(text)))
  {
    FlushModes(st);
    if st.pending.Some? && st.pending.value.onRoot == onRoot {
      OwnedTwice(Last(st.roots), onRoot, st.pending.value.text, text);
    }
  }

  /** A metadata line adds its values to its owner, found by its indent, and touches nothing else. */
  lemma MetaReachesItsOwner(st: State, line: Line, no: nat)
    requires Modes(st) && Read(st, line) && line.Meta? && StartsMarked(line.text)
    ensures Step(st, line, no).Ok?
    ensures OnlyOwnerChanges(Tree(st), Tree(Step(st, line, no).value), line.indent, (n: Node) => ApplyValues(n, Values(line.text)))
  {
    hide ApplyValues, Values;
    var st1 := st.(evidence := None);
    FlushModes(st1);
    assert Tree(st1) == Tree(st);
    assert Step(st, line, no) == Ok(StepDetail(st1, line));
    hide Step, Flush, AddMetadata;
    if st.roots != [] {
      var owner := OwnerAt(Last(st.roots), line.indent);
      if owner.Some? {
        AddedToTree(st1, owner.value, line.text, line.indent);
        OwnerChanged(Tree(st), owner.value, line.indent, Values(line.text));
      }
    }
  }

  lemma OwnerChanged(roots: seq<TaskRoot>, onRoot: bool, indent: nat, values: seq<Value>)
    requires roots != [] && OwnerAt(Last(roots), indent) == Some(onRoot)
    ensures OnlyOwnerChanges(roots, WithLast(roots, OnOwner(Last(roots), onRoot, values)), indent, (n: Node) => ApplyValues(n, values))
  {
    hide ApplyValues;
  }

  predicate HasOwner(roots: seq<TaskRoot>, indent: nat) {
    roots != [] && if Last(roots).children == [] then indent > 0 else indent == 2 || indent == 4
  }

  /** Evidence is noted on its owner, found like that of metadata, and keeps what is below it out. */
  lemma EvidenceReachesItsOwner(st: State, line: Line, no: nat)
    requires Modes(st) && Read(st, line) && line.Evidence?
    ensures Step(st, line, no).Ok?
    ensures var after := Step(st, line, no).value;
            && OnlyOwnerChanges(Tree(st), Tree(after), line.indent, (n: Node) => n.(evidenceLine := Some(no)))
            && (after.evidence.Some? <==> HasOwner(st.roots, line.indent))
            && (after.evidence.Some? ==> after.evidence.value == line.indent)
  {
    var st1 := st.(evidence := None);
    FlushModes(st1);
    assert Tree(st1) == Tree(st);
    EvidenceMarks(Flush(st1), line.indent, no);
    hide Flush, StepEvidence;
  }

  lemma EvidenceMarks(st: State, indent: nat, no: nat)
    requires st.pending.None? && st.evidence.None?
    ensures var after := StepEvidence(st, indent, no);
            && OnlyOwnerChanges(st.roots, after.roots, indent, (n: Node) => n.(evidenceLine := Some(no)))
            && Tree(after) == after.roots
            && (after.evidence.Some? <==> HasOwner(st.roots, indent))
            && (after.evidence.Some? ==> after.evidence.value == indent)
  {
  }

  /** A root line that is accepted adds one root with what its own line says. */
  lemma RootLineAddsItsRoot(st: State, line: Line, no: nat)
    requires Modes(st) && Read(st, line) && line.Root?
    ensures Step(st, line, no).Ok? <==> !LeadingZeroed(line.ord) && forall r :: r in Tree(st) ==> r.node.ordinal != RootId(line.ord)
    ensures Step(st, line, no).Ok? ==> Tree(Step(st, line, no).value) == Tree(st) + [ReadRoot(line, no)]
  {
    var st1 := st.(evidence := None);
    FlushModes(st1);
    assert Tree(st1) == Tree(st);
    hide Flush;
    if !LeadingZeroed(line.ord) && !HasRoot(Tree(st), line.ord) {
      RootLineRead(Flush(st1), line, no);
    }
  }

  /** What a child line alone yields. */
  function ReadChild(line: Line, no: nat): Node
    requires line.Child?
  {
    ApplyValues(NewNode(ChildId(line.major, line.minor), no, line.checked, line.text), Values(line.text[Leading(line.text)..]))
  }

  ghost predicate ChildFits(roots: seq<TaskRoot>, line: Line)
    requires line.Child?
  {
    && !LeadingZeroed(line.major) && !LeadingZeroed(line.minor)
    && roots != [] && Last(roots).node.ordinal == RootId(line.major) && Last(roots).node.evidenceLine.None?
    && forall r, c :: r in roots && c in r.children ==> c.ordinal != ChildId(line.major, line.minor)
  }

  /** A child line is accepted below its own root, once and before any evidence of the root, and adds one child. */
  lemma ChildLineAddsItsChild(st: State, line: Line, no: nat)
    requires Modes(st) && Read(st, line) && line.Child?
    ensures Step(st, line, no).Ok? <==> ChildFits(Tree(st), line)
    ensures Step(st, line, no).Ok? ==>
              var r := Last(Tree(st));
              Tree(Step(st, line, no).value) == WithLast(Tree(st), r.(children := r.children + [ReadChild(line, no)]))
  {
    var st1 := st.(evidence := None);
    FlushModes(st1);
    assert Tree(st1) == Tree(st);
    var flushed := Flush(st1);
    if ChildFits(Tree(st), line) {
      var id, r := ChildId(line.major, line.minor), Last(flushed.roots);
      assert !HasChild(flushed.roots, id);
      ChildRead(flushed, line, no);
    }
    hide Flush;
  }

  lemma ChildRead(st: State, line: Line, no: nat)
    requires line.Child? && st.pending.None? && ChildFits(st.roots, line)
    ensures StepChild(st, line, no).Ok?
    ensures var r := Last(st.roots);
            Tree(StepChild(st, line, no).value) == WithLast(st.roots, r.(children := r.children + [ReadChild(line, no)]))
  {
    assert !HasChild(st.roots, ChildId(line.major, line.minor));
    var r, child := Last(st.roots), NewNode(ChildId(line.major, line.minor), no, line.checked, line.text);
    var grown := r.(children := r.children + [child]);
    assert Front(WithLast(st.roots, grown)) == Front(st.roots) && Front(grown.children) == r.children;
    if Leading(line.text) == |line.text| {
      assert line.text[Leading(line.text)..] == [];
    }
  }

  /** No other line is refused, but a malformed checkbox always is. */
  lemma OnlyCheckboxesAreRefused(st: State, line: Line, no: nat)
    ensures Step(st, line, no).Err? ==> Read(st, line) && (line.Root? || line.Child? || line.Box?)
    ensures Read(st, line) && line.Box? ==> Step(st, line, no) == Err(no, BadCheckbox)
  {
  }

  /** Every other line leaves the tree as it is, unless it continues metadata. */
  lemma OtherLinesChangeNothing(st: State, line: Line, no: nat)
    requires Modes(st)
    requires Read(st, line) ==> line.Fence? || line.Blank? || (line.Prose? && !Continues(st, line))
    ensures Step(st, line, no).Ok? && Tree(Step(st, line, no).value) == Tree(st)
  {
    FlushModes(st.(evidence := None));
    FlushModes(st);
    assert Flush(Flush(st)) == Flush(st);
    assert Flush(st.(evidence := None)).roots == Tree(st);
    hide ApplyValues, Values;
  }
}
