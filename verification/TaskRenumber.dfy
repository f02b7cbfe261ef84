/** Line numbers are only carried along: texts that agree up to numbering parse alike. */
module TaskRenumber {
  import opened Common
  import opened TaskHierarchy

  function Renumber(n: Node, f: nat -> nat): Node {
    n.(line := f(n.line), evidenceLine := if n.evidenceLine.Some? then Some(f(n.evidenceLine.value)) else None)
  }

  function RenumberRoot(r: TaskRoot, f: nat -> nat): TaskRoot {
    TaskRoot(Renumber(r.node, f), seq(|r.children|, i requires 0 <= i < |r.children| => Renumber(r.children[i], f)))
  }

  function RenumberAll(roots: seq<TaskRoot>, f: nat -> nat): seq<TaskRoot> {
    seq(|roots|, i requires 0 <= i < |roots| => RenumberRoot(roots[i], f))
  }

  /** What a text parses to once its lines are renumbered, the line of a refusal included. */
  function Renumbered(parsed: Result<seq<TaskRoot>>, f: nat -> nat): Result<seq<TaskRoot>> {
    match parsed
    case Ok(roots) => Ok(RenumberAll(roots, f))
    case Err(no, reason) => Err(f(no), reason)
  }

  lemma {:induction false} ApplyRenumbers(n: Node, values: seq<Value>, f: nat -> nat)
    ensures ApplyValues(Renumber(n, f), values) == Renumber(ApplyValues(n, values), f)
    decreases |values|
  {
    if values == [] {
    } else {
      assert ApplyValue(Renumber(n, f), values[0]) == Renumber(ApplyValue(n, values[0]), f);
      ApplyRenumbers(ApplyValue(n, values[0]), values[1..], f);
    }
  }

  lemma OwnerRenumbers(r: TaskRoot, onRoot: bool, values: seq<Value>, f: nat -> nat)
    ensures OnOwner(RenumberRoot(r, f), onRoot, values) == RenumberRoot(OnOwner(r, onRoot, values), f)
  {
    var moved := RenumberRoot(r, f);
    ApplyRenumbers(r.node, values, f);
    if onRoot || r.children == [] {
      assert RenumberRoot(r.(node := ApplyValues(r.node, values)), f).children == moved.children;
    } else {
      ApplyRenumbers(Last(r.children), values, f);
      assert OnOwner(moved, onRoot, values).children == RenumberRoot(OnOwner(r, onRoot, values), f).children;
    }
  }

  lemma LastRenumbers(roots: seq<TaskRoot>, r: TaskRoot, f: nat -> nat)
    requires roots != []
    ensures RenumberAll(WithLast(roots, r), f) == WithLast(RenumberAll(roots, f), RenumberRoot(r, f))
    ensures Last(RenumberAll(roots, f)) == RenumberRoot(Last(roots), f)
  {
  }

  // ---------------------------------------------------------------- states that go on alike

  /** The least indent at which a line continues metadata that began at `indent`. */
  function ContinuesFrom(indent: nat): nat { if indent == 0 then 1 else indent }

  /** A line that continues metadata begun at an indent of up to `reach` if it continues any. */
  predicate Tame(line: Line, reach: nat) {
    line.Prose? && !line.dash ==> line.indent == 0 || line.indent >= reach
  }

  /** The same metadata for the same owner; it may have begun at different indents up to `reach`. */
  ghost predicate PendingAlike(a: Option<Pending>, b: Option<Pending>, reach: nat) {
    if a.None? || b.None? then a == b
    else
      && a.value.onRoot == b.value.onRoot && a.value.text == b.value.text
      && var i, j := ContinuesFrom(a.value.indent), ContinuesFrom(b.value.indent);
         i == j || (i <= reach && j <= reach)
  }

  /** Equal up to numbering. */
  ghost predicate Alike(a: State, b: State, f: nat -> nat, reach: nat) {
    && b.roots == RenumberAll(a.roots, f) && b.fence == a.fence && b.evidence == a.evidence
    && PendingAlike(a.pending, b.pending, reach)
  }

  lemma FlushAlike(a: State, b: State, f: nat -> nat, reach: nat)
    requires Alike(a, b, f, reach)
    ensures Alike(Flush(a), Flush(b), f, reach)
  {
    if a.pending.Some? && a.roots != [] {
      var p := a.pending.value;
      OwnerRenumbers(Last(a.roots), p.onRoot, Values(p.text), f);
      LastRenumbers(a.roots, OnOwner(Last(a.roots), p.onRoot, Values(p.text)), f);
    }
  }

  lemma SameOrdinals(roots: seq<TaskRoot>, f: nat -> nat, ord: string, id: Ordinal)
    ensures HasRoot(RenumberAll(roots, f), ord) <==> HasRoot(roots, ord)
    ensures HasChild(RenumberAll(roots, f), id) <==> HasChild(roots, id)
  {
    var moved := RenumberAll(roots, f);
    forall r | r in moved ensures exists q :: q in roots && r == RenumberRoot(q, f) {
      var i :| 0 <= i < |moved| && moved[i] == r;
      assert roots[i] in roots;
    }
    forall q | q in roots ensures RenumberRoot(q, f) in moved {
      var i :| 0 <= i < |roots| && roots[i] == q;
      assert moved[i] in moved;
    }
    forall q: TaskRoot ensures (exists c :: c in q.children && c.ordinal == id) <==> (exists c :: c in RenumberRoot(q, f).children && c.ordinal == id) {
      var kids := RenumberRoot(q, f).children;
      if c :| c in q.children && c.ordinal == id {
        var i :| 0 <= i < |q.children| && q.children[i] == c;
        assert kids[i] in kids && kids[i].ordinal == id;
      }
      if c :| c in kids && c.ordinal == id {
        var i :| 0 <= i < |kids| && kids[i] == c;
        assert q.children[i] in q.children && q.children[i].ordinal == id;
      }
    }
  }

  lemma AddAlike(a: State, b: State, f: nat -> nat, reach: nat, onRoot: bool, text: Text, indent: nat)
    requires Alike(a, b, f, reach)
    ensures Alike(AddMetadata(a, onRoot, text, indent), AddMetadata(b, onRoot, text, indent), f, reach)
  {
    FlushAlike(a, b, f, reach);
    hide Flush;
  }

  lemma RootAlike(a: State, b: State, f: nat -> nat, reach: nat, line: Line, no: nat)
    requires Alike(a, b, f, reach) && line.Root?
    ensures match StepRoot(a, line, no)
            case Ok(st) => StepRoot(b, line, f(no)).Ok? && Alike(st, StepRoot(b, line, f(no)).value, f, reach)
            case Err(_, reason) => StepRoot(b, line, f(no)) == Err(f(no), reason)
  {
    SameOrdinals(a.roots, f, line.ord, RootId(line.ord));
    hide HasRoot, AddMetadata, LeadingZeroed, Leading;
    var root := TaskRoot(NewNode(RootId(line.ord), no, line.checked, line.text), []);
    var more := a.(roots := a.roots + [root]);
    var moved := b.(roots := b.roots + [TaskRoot(NewNode(RootId(line.ord), f(no), line.checked, line.text), [])]);
    assert RenumberRoot(root, f) == Last(moved.roots);
    assert moved.roots == RenumberAll(more.roots, f);
    AddAlike(more, moved, f, reach, true, line.text[Leading(line.text)..], 0);
  }

  lemma ChildAlike(a: State, b: State, f: nat -> nat, reach: nat, line: Line, no: nat)
    requires Alike(a, b, f, reach) && line.Child?
    ensures match StepChild(a, line, no)
            case Ok(st) => StepChild(b, line, f(no)).Ok? && Alike(st, StepChild(b, line, f(no)).value, f, reach)
            case Err(_, reason) => StepChild(b, line, f(no)) == Err(f(no), reason)
  {
    var id := ChildId(line.major, line.minor);
    SameOrdinals(a.roots, f, line.major, id);
    hide HasChild, AddMetadata, LeadingZeroed, Leading;
    if a.roots != [] {
      var root, child := Last(a.roots), NewNode(id, no, line.checked, line.text);
      var grown := root.(children := root.children + [child]);
      LastRenumbers(a.roots, grown, f);
      var kids := Last(b.roots).children + [NewNode(id, f(no), line.checked, line.text)];
      assert RenumberRoot(grown, f).children == kids;
      var more, moved := a.(roots := WithLast(a.roots, grown)), b.(roots := WithLast(b.roots, Last(b.roots).(children := kids)));
      assert Alike(more, moved, f, reach);
      AddAlike(more, moved, f, reach, false, line.text[Leading(line.text)..], 4);
    }
  }

  lemma EvidenceAlike(a: State, b: State, f: nat -> nat, reach: nat, indent: nat, no: nat)
    requires Alike(a, b, f, reach)
    ensures Alike(StepEvidence(a, indent, no), StepEvidence(b, indent, f(no)), f, reach)
  {
    if a.roots != [] && OwnerAt(Last(a.roots), indent).Some? {
      var r := Last(a.roots);
      var marked :=
        if OwnerAt(r, indent).value || r.children == [] then r.(node := r.node.(evidenceLine := Some(no)))
        else r.(children := Front(r.children) + [Last(r.children).(evidenceLine := Some(no))]);
      LastRenumbers(a.roots, marked, f);
      assert RenumberRoot(marked, f).children == Last(StepEvidence(b, indent, f(no)).roots).children;
    }
  }

  lemma DetailAlike(a: State, b: State, f: nat -> nat, reach: nat, line: Line)
    requires Alike(a, b, f, reach) && (line.Meta? || line.Prose?) && Tame(line, reach)
    ensures Alike(StepDetail(a, line), StepDetail(b, line), f, reach)
  {
    hide Flush, AddMetadata;
    FlushAlike(a, b, f, reach);
    if a.roots != [] {
      LastRenumbers(a.roots, Last(a.roots), f);
      var owner := OwnerAt(Last(a.roots), line.indent);
      assert OwnerAt(Last(b.roots), line.indent) == owner && (Continues(a, line) <==> Continues(b, line));
      hide RenumberAll;
      if owner.Some? {
        AddAlike(a, b, f, reach, owner.value, line.text, line.indent);
      }
    }
  }

  lemma StepAlike(a: State, b: State, f: nat -> nat, reach: nat, line: Line, no: nat)
    requires Alike(a, b, f, reach) && Tame(line, reach)
    ensures match Step(a, line, no)
            case Ok(st) => Step(b, line, f(no)).Ok? && Alike(st, Step(b, line, f(no)).value, f, reach)
            case Err(_, reason) => Step(b, line, f(no)) == Err(f(no), reason)
  {
    hide Flush, StepRoot, StepChild, StepEvidence, StepDetail, RenumberAll;
    var a1, b1 := a.(evidence := None), b.(evidence := None);
    FlushAlike(a1, b1, f, reach);
    match line {
      case Root(_, _, _) => RootAlike(Flush(a1), Flush(b1), f, reach, line, no);
      case Child(_, _, _, _) => ChildAlike(Flush(a1), Flush(b1), f, reach, line, no);
      case Evidence(indent, _) => EvidenceAlike(Flush(a1), Flush(b1), f, reach, indent, no);
      case Meta(_, _, _) => DetailAlike(a1, b1, f, reach, line);
      case Prose(_, _, _) => DetailAlike(a1, b1, f, reach, line);
      case _ =>
    }
  }

  // ---------------------------------------------------------------- texts that end alike

  /** Two texts that from some line on hold the same lines. */
  ghost predicate SameEnd(one: seq<Line>, two: seq<Line>, i: nat, j: nat, f: nat -> nat, reach: nat) {
    && i <= |one| && j <= |two| && one[i..] == two[j..]
    && (forall line :: line in one[i..] ==> Tame(line, reach))
    && (forall n: nat :: i < n <= |one| ==> f(n) == n - i + j)
  }

  /** Both went on alike, or both were refused at lines that correspond, for the same reason. */
  ghost predicate EndAlike(a: Result<State>, b: Result<State>, f: nat -> nat, reach: nat) {
    match a
    case Ok(st) => b.Ok? && Alike(st, b.value, f, reach)
    case Err(no, reason) => b == Err(f(no), reason)
  }

  lemma {:induction false} RunAlike(one: seq<Line>, two: seq<Line>, i: nat, j: nat, m: nat, f: nat -> nat, reach: nat)
    requires SameEnd(one, two, i, j, f, reach) && i + m <= |one|
    requires Run(one, i).Ok? && Run(two, j).Ok? && Alike(Run(one, i).value, Run(two, j).value, f, reach)
    ensures |one| - i == |two| - j && EndAlike(Run(one, i + m), Run(two, j + m), f, reach)
    decreases m
  {
    hide Step, Alike;
    assert |one[i..]| == |two[j..]|;
    if m == 0 {
    } else {
      RunAlike(one, two, i, j, m - 1, f, reach);
      var line := one[i + m - 1];
      assert line == one[i..][m - 1] == two[j..][m - 1];
      if Run(one, i + m - 1).Ok? {
        var a, b := Run(one, i + m - 1).value, Run(two, j + m - 1).value;
        StepAlike(a, b, f, reach, line, i + m);
        RefusalNamesLine(a, line, i + m);
      }
    }
  }

  lemma FinishAlike(one: seq<Line>, two: seq<Line>, f: nat -> nat, reach: nat)
    requires EndAlike(Run(one, |one|), Run(two, |two|), f, reach) && f(0) == 0
    ensures Parse(two) == Renumbered(Parse(one), f)
  {
    hide Run, Flush;
    if Run(one, |one|).Ok? {
      FlushAlike(Run(one, |one|).value, Run(two, |two|).value, f, reach);
    }
  }

  /** Once two texts have led to states that are alike, and end alike, they parse alike. */
  lemma ParseAlike(one: seq<Line>, two: seq<Line>, i: nat, j: nat, f: nat -> nat, reach: nat)
    requires SameEnd(one, two, i, j, f, reach) && f(0) == 0
    requires Run(one, i).Ok? && Run(two, j).Ok? && Alike(Run(one, i).value, Run(two, j).value, f, reach)
    ensures Parse(two) == Renumbered(Parse(one), f)
  {
    hide Parse, Run, Alike, EndAlike, RenumberAll;
    var m := |one| - i;
    assert i + m == |one|;
    RunAlike(one, two, i, j, m, f, reach);
    assert j + m == |two|;
    FinishAlike(one, two, f, reach);
  }
}
