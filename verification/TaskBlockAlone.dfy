/**
 A root's block stands alone: parsing just the lines that `root_task_block` returns gives
 that one root, its lines counted from the block's first. The block's own parser is kept in
 step with the full one from the root's line on; nothing above the root matters, and
 nothing below its block touches it. Line numbers are moved by the number of lines above
 the block; everything else is the same.
 */
module TaskBlockAlone {
  import opened Common
  import opened TaskHierarchy
  import opened TaskRenumber

  /** `d` lines further down. */
  function By(d: nat): nat -> nat { (no: nat) => no + d }

  function Moved(n: Node, d: nat): Node { Renumber(n, By(d)) }

  function MovedRoot(r: TaskRoot, d: nat): TaskRoot { RenumberRoot(r, By(d)) }

  /** The block parser's one root is the full parser's last, `d` lines further up. */
  ghost predicate Alone(full: State, block: State, d: nat) {
    && |block.roots| == 1 && full.roots != [] && Last(full.roots) == MovedRoot(block.roots[0], d)
    && full.fence == block.fence && full.evidence == block.evidence && full.pending == block.pending
  }

  lemma FlushAlone(full: State, block: State, d: nat)
    requires Alone(full, block, d)
    ensures Alone(Flush(full), Flush(block), d)
  {
    if full.pending.Some? {
      var p := full.pending.value;
      OwnerRenumbers(block.roots[0], p.onRoot, Values(p.text), By(d));
    }
  }

  lemma EvidenceAlone(full: State, block: State, d: nat, indent: nat, no: nat)
    requires Alone(full, block, d)
    ensures Alone(StepEvidence(full, indent, no + d), StepEvidence(block, indent, no), d)
  {
    var r, big := block.roots[0], Last(full.roots);
    var owner := OwnerAt(r, indent);
    assert OwnerAt(big, indent) == owner;
    if owner.Some? {
      var after := StepEvidence(block, indent, no);
      if owner.value || r.children == [] {
        assert MovedRoot(after.roots[0], d).children == big.children;
      } else {
        assert MovedRoot(after.roots[0], d).children == Last(StepEvidence(full, indent, no + d).roots).children;
      }
    }
  }

  lemma ChildAlone(full: State, block: State, d: nat, line: Line, no: nat)
    requires Alone(full, block, d) && full.pending.None? && line.Child? && StepChild(full, line, no + d).Ok?
    ensures StepChild(block, line, no).Ok? && Alone(StepChild(full, line, no + d).value, StepChild(block, line, no).value, d)
  {
    var id := ChildId(line.major, line.minor);
    var r, big := block.roots[0], Last(full.roots);
    assert big in full.roots && forall i :: 0 <= i < |r.children| ==> big.children[i].ordinal == r.children[i].ordinal;
    var child := NewNode(id, no, line.checked, line.text);
    assert MovedRoot(r.(children := r.children + [child]), d).children == big.children + [Moved(child, d)];
  }

  /** A line that starts no root does the same to both. */
  lemma StepAlone(full: State, block: State, d: nat, line: Line, no: nat)
    requires Alone(full, block, d) && Modes(full) && Step(full, line, no + d).Ok?
    requires |Step(full, line, no + d).value.roots| == |full.roots|
    ensures Step(block, line, no).Ok? && Alone(Step(full, line, no + d).value, Step(block, line, no).value, d)
  {
    var full1, block1 := full.(evidence := None), block.(evidence := None);
    FlushAlone(full1, block1, d);
    if UnderEvidence(full, line) || (full.fence.Some? && !line.Fence?) {
    } else {
      match line
      case Child(_, _, _, _) => ChildAlone(Flush(full1), Flush(block1), d, line, no);
      case Evidence(indent, _) => EvidenceAlone(Flush(full1), Flush(block1), d, indent, no);
      case Meta(_, _, _) => DetailAlone(full1, block1, d, line);
      case Prose(_, _, _) => DetailAlone(full1, block1, d, line);
      case _ =>
    }
  }

  lemma DetailAlone(full: State, block: State, d: nat, line: Line)
    requires Alone(full, block, d) && (line.Meta? || line.Prose?)
    ensures Alone(StepDetail(full, line), StepDetail(block, line), d)
  {
    FlushAlone(full, block, d);
    assert OwnerAt(Last(full.roots), line.indent) == OwnerAt(block.roots[0], line.indent);
  }

  /** What a step does to the roots already there: only the last can still change, and keeps its head. */
  ghost predicate Grown(roots: seq<TaskRoot>, more: seq<TaskRoot>, no: nat) {
    && |roots| <= |more|
    && (forall j :: 0 <= j < |roots| ==> SameHead(roots[j].node, more[j].node))
    && (forall j :: 0 <= j < |roots| - 1 ==> roots[j] == more[j])
    && (forall j :: |roots| <= j < |more| ==> more[j].node.line >= no)
  }

  lemma StepGrows(st: State, line: Line, no: nat)
    requires Roots(st.roots) && Step(st, line, no).Ok?
    ensures Grown(st.roots, Step(st, line, no).value.roots, no)
  {
    var after := Step(st, line, no).value.roots;
    if UnderEvidence(st, line) || (st.fence.Some? && !line.Fence?) || (!line.Root? && !line.Child?) {
      DetailsOnlyLast(st, line, no);
      LastIsGrown(st.roots, after, no);
    } else {
      var flushed := Flush(st.(evidence := None));
      FlushKeeps(st.(evidence := None));
      LastIsGrown(st.roots, flushed.roots, no);
      NodeGrows(flushed, line, no);
      GrownTwice(st.roots, flushed.roots, after, no, no);
    }
  }

  lemma NodeGrows(st: State, line: Line, no: nat)
    requires st.pending.None?
    ensures line.Root? && StepRoot(st, line, no).Ok? ==> Grown(st.roots, StepRoot(st, line, no).value.roots, no)
    ensures line.Child? && StepChild(st, line, no).Ok? ==> Grown(st.roots, StepChild(st, line, no).value.roots, no)
  {
    if line.Root? && StepRoot(st, line, no).Ok? {
      var after := StepRoot(st, line, no).value.roots;
      assert Front(after) == st.roots && Last(after).node.line == no;
    }
    if line.Child? && StepChild(st, line, no).Ok? {
      var after := StepChild(st, line, no).value.roots;
      assert Front(after) == Front(st.roots) && SameHead(Last(after).node, Last(st.roots).node);
    }
  }

  lemma GrownTwice(roots: seq<TaskRoot>, more: seq<TaskRoot>, most: seq<TaskRoot>, no: nat, later: nat)
    requires Grown(roots, more, no) && Grown(more, most, later) && no <= later
    ensures Grown(roots, most, no)
  {
  }

  /** Only a root line, outside every fence and evidence block, adds a root. */
  lemma NewRootStep(st: State, line: Line, no: nat)
    requires Roots(st.roots) && Modes(st) && Step(st, line, no).Ok?
    requires |Step(st, line, no).value.roots| > |st.roots|
    ensures line.Root? && st.fence.None? && Step(st, line, no) == StepRoot(Flush(st.(evidence := None)), line, no)
  {
    if UnderEvidence(st, line) || (st.fence.Some? && !line.Fence?) || (!line.Root? && !line.Child?) {
      DetailsOnlyLast(st, line, no);
    }
  }

  lemma LastIsGrown(roots: seq<TaskRoot>, changed: seq<TaskRoot>, no: nat)
    requires OnlyLast(roots, changed)
    ensures Grown(roots, changed, no)
  {
    assert forall j :: 0 <= j < |roots| - 1 ==> changed[j] == Front(changed)[j] == Front(roots)[j] == roots[j];
  }

  /** The states of an accepted run, one before each line and one after the last. */
  ghost predicate StepAt(lines: seq<Line>, states: seq<State>, k: nat)
    requires k < |lines| < |states|
  {
    Step(states[k], lines[k], k + 1) == Ok(states[k + 1])
  }

  ghost predicate History(lines: seq<Line>, states: seq<State>) {
    && |states| == |lines| + 1 && states[0] == INIT
    && (forall k: nat :: k < |lines| ==> StepAt(lines, states, k))
  }

  lemma {:induction false} HistoryIsRun(lines: seq<Line>, states: seq<State>, k: nat)
    requires History(lines, states) && k <= |lines|
    ensures Run(lines, k) == Ok(states[k])
  {
    if k == 0 {
    } else {
      HistoryIsRun(lines, states, k - 1);
      assert StepAt(lines, states, k - 1);
    }
  }

  lemma {:induction false} RunHasHistory(lines: seq<Line>, k: nat) returns (states: seq<State>)
    requires k <= |lines| && Run(lines, k).Ok?
    ensures |states| == k + 1 && states[0] == INIT && states[k] == Run(lines, k).value
    ensures forall j :: 0 <= j < k ==> Step(states[j], lines[j], j + 1) == Ok(states[j + 1])
  {
    hide Step;
    if k == 0 {
      states := [INIT];
    } else {
      var before := RunHasHistory(lines, k - 1);
      states := before + [Run(lines, k).value];
    }
  }

  /** An accepted text, with its states and its roots. */
  ghost predicate Accepted(lines: seq<Line>, states: seq<State>, roots: seq<TaskRoot>) {
    History(lines, states) && Finish(states[|lines|]) == Ok(roots) && AllFit(lines, roots)
  }

  lemma AcceptedHasHistory(lines: seq<Line>, roots: seq<TaskRoot>) returns (states: seq<State>)
    requires Parse(lines) == Ok(roots)
    ensures Accepted(lines, states, roots)
  {
    states := RunHasHistory(lines, |lines|);
    forall k: nat | k < |lines| ensures StepAt(lines, states, k) {
    }
    forall i: nat | i < |roots| ensures BlockFits(lines, roots, i) {
      BlocksFit(lines, i);
    }
  }

  lemma HistoryKeeps(lines: seq<Line>, states: seq<State>, k: nat)
    requires History(lines, states) && k <= |lines|
    ensures Roots(states[k].roots) && Modes(states[k])
    ensures forall r :: r in states[k].roots ==> r.node.line <= k
  {
    HistoryIsRun(lines, states, k);
    RunKeeps(lines, k);
  }

  lemma GrowsAt(lines: seq<Line>, states: seq<State>, k: nat)
    requires History(lines, states) && k < |lines|
    ensures Grown(states[k].roots, states[k + 1].roots, k + 1)
  {
    HistoryKeeps(lines, states, k);
    assert StepAt(lines, states, k);
    StepGrows(states[k], lines[k], k + 1);
  }

  lemma {:induction false} HistoryGrows(lines: seq<Line>, states: seq<State>, k: nat, m: nat)
    requires History(lines, states) && k <= m <= |lines|
    ensures Grown(states[k].roots, states[m].roots, k + 1)
  {
    if k < m {
      HistoryGrows(lines, states, k, m - 1);
      GrowsAt(lines, states, m - 1);
      GrownTwice(states[k].roots, states[m - 1].roots, states[m].roots, k + 1, m);
    }
  }

  /** How far the roots have come after `k` lines: exactly those whose line has been read. */
  lemma RootsSoFar(lines: seq<Line>, states: seq<State>, roots: seq<TaskRoot>, k: nat)
    requires Accepted(lines, states, roots) && k <= |lines|
    ensures var so := states[k].roots;
            && |so| <= |roots|
            && (forall j :: 0 <= j < |so| ==> roots[j].node.line <= k)
            && (forall j :: 0 <= j < |so| - 1 ==> so[j] == roots[j])
            && (forall j :: |so| <= j < |roots| ==> roots[j].node.line > k)
  {
    HistoryGrows(lines, states, k, |lines|);
    HistoryKeeps(lines, states, |lines|);
    HistoryKeeps(lines, states, k);
    var st, so := states[|lines|], states[k].roots;
    FlushKeeps(st);
    LastIsGrown(st.roots, roots, |lines|);
    forall j | 0 <= j < |so| ensures roots[j].node.line <= k {
      assert so[j] in so && SameHead(so[j].node, st.roots[j].node);
    }
  }

  /** Inside a root's block, that root is the last one read; just above it, the one before is. */
  lemma CountInBlock(lines: seq<Line>, states: seq<State>, roots: seq<TaskRoot>, i: nat, k: nat)
    requires Accepted(lines, states, roots) && i < |roots| && BlockFits(lines, roots, i)
    requires roots[i].node.line <= k <= BlockEnd(lines, roots, i)
    ensures |states[k].roots| == i + 1
  {
    RootsSoFar(lines, states, roots, k);
    if i + 1 < |roots| {
      assert BlockFits(lines, roots, i + 1);
    }
  }

  lemma CountAbove(lines: seq<Line>, states: seq<State>, roots: seq<TaskRoot>, i: nat)
    requires Accepted(lines, states, roots) && i < |roots| && BlockFits(lines, roots, i)
    ensures |states[roots[i].node.line - 1].roots| == i
  {
    if i > 0 {
      assert BlockFits(lines, roots, i - 1);
      CountInBlock(lines, states, roots, i - 1, roots[i].node.line - 1);
    } else {
      RootsSoFar(lines, states, roots, roots[i].node.line - 1);
    }
  }

  /** A root's own line is read as a root line, outside every block, from the flushed state above it. */
  lemma RootLineStep(lines: seq<Line>, states: seq<State>, roots: seq<TaskRoot>, i: nat)
    requires Accepted(lines, states, roots) && i < |roots| && BlockFits(lines, roots, i)
    ensures var p := roots[i].node.line;
            && lines[p - 1].Root? && states[p - 1].fence.None?
            && StepRoot(Flush(states[p - 1].(evidence := None)), lines[p - 1], p) == Ok(states[p])
  {
    var p := roots[i].node.line;
    CountAbove(lines, states, roots, i);
    CountInBlock(lines, states, roots, i, p);
    HistoryKeeps(lines, states, p - 1);
    assert StepAt(lines, states, p - 1);
    NewRootStep(states[p - 1], lines[p - 1], p);
  }

  lemma StartsAlone(st: State, line: Line, p: nat)
    requires p >= 1 && line.Root? && st.fence.None? && st.evidence.None? && st.pending.None? && StepRoot(st, line, p).Ok?
    ensures Step(INIT, line, 1).Ok? && Alone(StepRoot(st, line, p).value, Step(INIT, line, 1).value, p - 1)
  {
    assert Flush(INIT) == INIT;
    var r := TaskRoot(NewNode(RootId(line.ord), 1, line.checked, line.text), []);
    assert MovedRoot(r, p - 1) == TaskRoot(NewNode(RootId(line.ord), p, line.checked, line.text), []);
  }

  /** The block's own parser, after its first line. */
  lemma FirstAlone(lines: seq<Line>, states: seq<State>, roots: seq<TaskRoot>, i: nat) returns (alone: State)
    requires Accepted(lines, states, roots) && i < |roots| && BlockFits(lines, roots, i)
    ensures Step(INIT, lines[roots[i].node.line - 1], 1) == Ok(alone)
    ensures Alone(states[roots[i].node.line], alone, roots[i].node.line - 1)
  {
    var d := roots[i].node.line - 1;
    RootLineStep(lines, states, roots, i);
    StartsAlone(Flush(states[d].(evidence := None)), lines[d], d + 1);
    alone := Step(INIT, lines[d], 1).value;
  }

  /** ... and after one more line of the block. */
  lemma NextAlone(lines: seq<Line>, states: seq<State>, d: nat, k: nat, alone: State) returns (next: State)
    requires History(lines, states) && d + k < |lines| && Alone(states[d + k], alone, d)
    requires |states[d + k + 1].roots| == |states[d + k].roots|
    ensures Step(alone, lines[d + k], k + 1) == Ok(next) && Alone(states[d + k + 1], next, d)
  {
    hide Step;
    HistoryKeeps(lines, states, d + k);
    assert StepAt(lines, states, d + k);
    StepAlone(states[d + k], alone, d, lines[d + k], k + 1);
    next := Step(alone, lines[d + k], k + 1).value;
  }

  /** `k` lines into the block its own parser agrees with the full one; nothing above matters. */
  lemma {:induction false} RunsAlone(lines: seq<Line>, states: seq<State>, roots: seq<TaskRoot>, i: nat, k: nat)
      returns (alone: State)
    requires Accepted(lines, states, roots) && i < |roots| && BlockFits(lines, roots, i)
    requires 1 <= k <= |Block(lines, roots, i)|
    ensures Run(Block(lines, roots, i), k) == Ok(alone)
    ensures Alone(states[roots[i].node.line - 1 + k], alone, roots[i].node.line - 1)
  {
    hide Step;
    var d, block := roots[i].node.line - 1, Block(lines, roots, i);
    assert block[k - 1] == lines[d + k - 1];
    if k == 1 {
      alone := FirstAlone(lines, states, roots, i);
      RunSnoc(block, 0, INIT, alone);
    } else {
      var before := RunsAlone(lines, states, roots, i, k - 1);
      CountInBlock(lines, states, roots, i, d + k - 1);
      CountInBlock(lines, states, roots, i, d + k);
      alone := NextAlone(lines, states, d, k - 1, before);
      RunSnoc(block, k - 1, before, alone);
    }
  }

  /** Where a block ends, its root is finished: later lines do not touch it. */
  lemma RootIsFinished(lines: seq<Line>, states: seq<State>, roots: seq<TaskRoot>, i: nat)
    requires Accepted(lines, states, roots) && i < |roots| && BlockFits(lines, roots, i)
    ensures var st := states[BlockEnd(lines, roots, i)];
            st.fence.None? && Flush(st).roots != [] && Last(Flush(st).roots) == roots[i]
  {
    var end := BlockEnd(lines, roots, i);
    CountInBlock(lines, states, roots, i, end);
    if i + 1 < |roots| {
      assert BlockFits(lines, roots, i + 1);
      RootLineStep(lines, states, roots, i + 1);
      RootsSoFar(lines, states, roots, end + 1);
      FinishedByRoot(states[end], lines[end], end + 1, states[end + 1], i);
    }
  }

  lemma FinishedByRoot(st: State, line: Line, no: nat, after: State, i: nat)
    requires |st.roots| == i + 1 && line.Root? && StepRoot(Flush(st.(evidence := None)), line, no) == Ok(after)
    ensures |after.roots| == i + 2 && Flush(st).roots != [] && Last(Flush(st).roots) == after.roots[i]
  {
    assert Flush(st.(evidence := None)).roots == Flush(st).roots;
  }

  /**
   A root's block stands alone: parsing just those lines gives that one root, its line
   numbers counted from the block's first line.
   */
  lemma BlockParsesAlone(lines: seq<Line>, roots: seq<TaskRoot>, i: nat)
    requires Parse(lines) == Ok(roots) && i < |roots|
    ensures BlockFits(lines, roots, i)
    ensures exists r :: Parse(Block(lines, roots, i)) == Ok([r]) && MovedRoot(r, roots[i].node.line - 1) == roots[i]
  {
    var states := AcceptedHasHistory(lines, roots);
    assert BlockFits(lines, roots, i);
    AcceptedBlockParsesAlone(lines, states, roots, i);
  }

  lemma AcceptedBlockParsesAlone(lines: seq<Line>, states: seq<State>, roots: seq<TaskRoot>, i: nat)
    requires Accepted(lines, states, roots) && i < |roots| && BlockFits(lines, roots, i)
    ensures exists r :: Parse(Block(lines, roots, i)) == Ok([r]) && MovedRoot(r, roots[i].node.line - 1) == roots[i]
  {
    var block, d := Block(lines, roots, i), roots[i].node.line - 1;
    var alone := RunsAlone(lines, states, roots, i, |block|);
    RootIsFinished(lines, states, roots, i);
    FinishesAlone(states[d + |block|], alone, d);
  }

  lemma FinishesAlone(full: State, block: State, d: nat)
    requires Alone(full, block, d) && full.fence.None?
    ensures Flush(full).roots != []
    ensures exists r :: Finish(block) == Ok([r]) && MovedRoot(r, d) == Last(Flush(full).roots)
  {
    FlushAlone(full, block, d);
    assert Flush(block).roots == [Flush(block).roots[0]];
  }
}
