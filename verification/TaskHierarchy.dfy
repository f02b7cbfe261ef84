/**
 The two-level task list: a line-driven parser with fenced blocks, evidence blocks and
 pending metadata. A line is what the parser's patterns see of it.
 */
module TaskHierarchy {
  import opened Common

  datatype Marker = Satisfies | Verify | DependsOn | Batch

  /** A chunk has no white space in it; `glued` is what follows a marker's colon directly. */
  datatype Chunk = Word(w: string) | Marked(m: Marker, glued: Glued)
  datatype Glued = Nothing | Glued(chunk: Chunk)

  type Text = seq<Chunk>

  datatype Line =
    | Root(checked: bool, ord: string, text: Text)
    | Child(checked: bool, major: string, minor: string, text: Text)
    | Box(indent: nat)
    | Fence(indent: nat, delimiter: char, length: nat)
    | Evidence(indent: nat, dash: bool)
    | Meta(indent: nat, dash: bool, text: Text)
    | Prose(indent: nat, dash: bool, text: Text)
    | Blank(indent: nat)

  function Indent(line: Line): nat {
    match line case Root(_, _, _) => 0 case Child(_, _, _, _) => 2 case _ => line.indent
  }

  /** A `- ` bullet that is not a checkbox. */
  predicate Bullet(line: Line) {
    (line.Evidence? || line.Meta? || line.Prose?) && line.dash
  }

  datatype Ordinal = RootId(ord: string) | ChildId(major: string, minor: string)

  datatype Node = Node(
    ordinal: Ordinal, line: nat, checked: bool, headline: Text,
    satisfies: seq<Text>, verify: Text, depends: seq<Text>, batch: Text, evidenceLine: Option<nat>)

  datatype TaskRoot = TaskRoot(node: Node, children: seq<Node>)

  datatype Reason =
    | LeadingZero | DuplicateRoot | OrphanChild | ForeignChild | DuplicateChild
    | ChildAfterEvidence | BadCheckbox | UnclosedFence

  datatype Result<+T> = Ok(value: T) | Err(line: nat, reason: Reason)

  // ---------------------------------------------------------------- metadata

  /** The words before the first marker. */
  function Leading(text: Text): (n: nat)
    ensures n <= |text|
    ensures forall i :: 0 <= i < n ==> text[i].Word?
    ensures n < |text| ==> text[n].Marked?
  {
    if text == [] || text[0].Marked? then 0 else 1 + Leading(text[1..])
  }

  function Opening(c: Chunk): Text
    requires c.Marked?
  {
    if c.glued.Glued? then [c.glued.chunk] else []
  }

  datatype Value = Value(marker: Marker, text: Text)

  /** `_metadata_values`: one value for each marker, up to the next. */
  function Values(text: Text): seq<Value>
    decreases |text|
  {
    if text == [] then []
    else if text[0].Word? then Values(text[1..])
    else
      var n := 1 + Leading(text[1..]);
      [Value(text[0].m, Opening(text[0]) + text[1..n])] + Values(text[n..])
  }

  /** `_apply_metadata`, one value: the first non-empty verify and batch win. */
  function ApplyValue(node: Node, v: Value): Node {
    match v.marker
    case Satisfies => node.(satisfies := node.satisfies + [v.text])
    case Verify => if node.verify == [] then node.(verify := v.text) else node
    case DependsOn => node.(depends := node.depends + [v.text])
    case Batch => if node.batch == [] then node.(batch := v.text) else node
  }

  function ApplyValues(node: Node, values: seq<Value>): Node
    decreases |values|
  {
    if values == [] then node else ApplyValues(ApplyValue(node, values[0]), values[1..])
  }

  // ---------------------------------------------------------------- the state machine

  /** Metadata still being collected, for the current root or the current child. */
  datatype Pending = Pending(onRoot: bool, text: Text, indent: nat)

  datatype OpenFence = OpenFence(delimiter: char, length: nat)

  datatype State = State(
    roots: seq<TaskRoot>, fence: Option<OpenFence>, evidence: Option<nat>, pending: Option<Pending>)

  const INIT := State([], None, None, None)

  function WithLast(roots: seq<TaskRoot>, root: TaskRoot): seq<TaskRoot>
    requires roots != []
  {
    Front(roots) + [root]
  }

  function OnOwner(root: TaskRoot, onRoot: bool, values: seq<Value>): TaskRoot {
    if onRoot || root.children == [] then root.(node := ApplyValues(root.node, values))
    else root.(children := Front(root.children) + [ApplyValues(Last(root.children), values)])
  }

  function Flush(st: State): State {
    if st.pending.None? || st.roots == [] then st.(pending := None)
    else
      var p := st.pending.value;
      st.(roots := WithLast(st.roots, OnOwner(Last(st.roots), p.onRoot, Values(p.text))), pending := None)
  }

  function AddMetadata(st: State, onRoot: bool, text: Text, indent: nat): State {
    if st.pending.Some? && st.pending.value.onRoot == onRoot then
      st.(pending := Some(st.pending.value.(text := st.pending.value.text + text)))
    else
      Flush(st).(pending := Some(Pending(onRoot, text, indent)))
  }

  predicate LeadingZeroed(digits: string) { |digits| > 1 && digits[0] == '0' }

  predicate HasRoot(roots: seq<TaskRoot>, ord: string) { exists r :: r in roots && r.node.ordinal == RootId(ord) }

  predicate HasChild(roots: seq<TaskRoot>, id: Ordinal) { exists r :: r in roots && exists c :: c in r.children && c.ordinal == id }

  function NewNode(id: Ordinal, no: nat, checked: bool, text: Text): Node {
    Node(id, no, checked, text[..Leading(text)], [], [], [], [], None)
  }

  /** Metadata on the checkbox line itself. */
  function OnHeadline(st: State, onRoot: bool, text: Text, indent: nat): State {
    if Leading(text) == |text| then st else AddMetadata(st, onRoot, text[Leading(text)..], indent)
  }

  function StepRoot(st: State, line: Line, no: nat): Result<State>
    requires line.Root?
  {
    if LeadingZeroed(line.ord) then Err(no, LeadingZero)
    else if HasRoot(st.roots, line.ord) then Err(no, DuplicateRoot)
    else
      var root := TaskRoot(NewNode(RootId(line.ord), no, line.checked, line.text), []);
      Ok(OnHeadline(st.(roots := st.roots + [root]), true, line.text, 0))
  }

  function StepChild(st: State, line: Line, no: nat): Result<State>
    requires line.Child?
  {
    var id := ChildId(line.major, line.minor);
    if LeadingZeroed(line.major) || LeadingZeroed(line.minor) then Err(no, LeadingZero)
    else if st.roots == [] then Err(no, OrphanChild)
    else
      var root := Last(st.roots);
      if RootId(line.major) != root.node.ordinal then Err(no, ForeignChild)
      else if HasChild(st.roots, id) then Err(no, DuplicateChild)
      else if root.node.evidenceLine.Some? then Err(no, ChildAfterEvidence)
      else
        var child := NewNode(id, no, line.checked, line.text);
        Ok(OnHeadline(st.(roots := WithLast(st.roots, root.(children := root.children + [child]))), false, line.text, 4))
  }

  /** The owner of a detail line by its indent; true is the root, false its last child. */
  function OwnerAt(root: TaskRoot, indent: nat): Option<bool> {
    if root.children != [] then
      if indent == 2 then Some(true) else if indent == 4 then Some(false) else None
    else if indent > 0 then Some(true) else None
  }

  function StepEvidence(st: State, indent: nat, no: nat): State {
    if st.roots == [] then st
    else
      var root, owner := Last(st.roots), OwnerAt(Last(st.roots), indent);
      if owner.None? then st
      else
        var marked :=
          if owner.value || root.children == [] then root.(node := root.node.(evidenceLine := Some(no)))
          else root.(children := Front(root.children) + [Last(root.children).(evidenceLine := Some(no))]);
        st.(roots := WithLast(st.roots, marked), evidence := Some(indent))
  }

  predicate Continues(st: State, line: Line) {
    && line.Prose? && !line.dash && st.pending.Some?
    && line.indent >= if st.pending.value.indent == 0 then 1 else st.pending.value.indent
  }

  function StepDetail(st: State, line: Line): State
    requires line.Meta? || line.Prose?
  {
    if st.roots == [] then Flush(st)
    else if Continues(st, line) then
      st.(pending := Some(st.pending.value.(text := st.pending.value.text + line.text)))
    else
      var owner := OwnerAt(Last(st.roots), line.indent);
      if owner.Some? && line.Meta? then AddMetadata(st, owner.value, line.text, line.indent) else Flush(st)
  }

  predicate Closes(fence: OpenFence, line: Line) {
    line.Fence? && line.delimiter == fence.delimiter && line.length >= fence.length
  }

  /** Still inside an evidence block. */
  predicate UnderEvidence(st: State, line: Line) {
    st.evidence.Some? &&
    (line.Blank? || Indent(line) > st.evidence.value || (Indent(line) == st.evidence.value && Bullet(line)))
  }

  function Step(st: State, line: Line, no: nat): Result<State> {
    if UnderEvidence(st, line) then Ok(st) else StepPlain(st.(evidence := None), line, no)
  }

  function ToggleFence(st: State, line: Line): State
    requires line.Fence?
  {
    if st.fence.None? then st.(fence := Some(OpenFence(line.delimiter, line.length)))
    else if Closes(st.fence.value, line) then st.(fence := None)
    else st
  }

  function StepPlain(st: State, line: Line, no: nat): Result<State> {
    if st.fence.Some? && !line.Fence? then Ok(st)
    else
      match line
      case Fence(_, _, _) => Ok(ToggleFence(Flush(st), line))
      case Root(_, _, _) => StepRoot(Flush(st), line, no)
      case Child(_, _, _, _) => StepChild(Flush(st), line, no)
      case Box(_) => Err(no, BadCheckbox)
      case Evidence(indent, _) => Ok(StepEvidence(Flush(st), indent, no))
      case Blank(_) => Ok(Flush(st))
      case Meta(_, _, _) => Ok(StepDetail(st, line))
      case Prose(_, _, _) => Ok(StepDetail(st, line))
  }

  /** The state after the first `k` lines. */
  function Run(lines: seq<Line>, k: nat): Result<State>
    requires k <= |lines|
  {
    if k == 0 then Ok(INIT)
    else
      match Run(lines, k - 1)
      case Ok(st) => Step(st, lines[k - 1], k)
      case Err(no, reason) => Err(no, reason)
  }

  function Finish(st: State): Result<seq<TaskRoot>> {
    if st.fence.Some? then Err(0, UnclosedFence) else Ok(Flush(st).roots)
  }

  function Parse(lines: seq<Line>): Result<seq<TaskRoot>> {
    match Run(lines, |lines|)
    case Ok(st) => Finish(st)
    case Err(no, reason) => Err(no, reason)
  }

  lemma RunSnoc(lines: seq<Line>, k: nat, st: State, after: State)
    requires k < |lines| && Run(lines, k) == Ok(st) && Step(st, lines[k], k + 1) == Ok(after)
    ensures Run(lines, k + 1) == Ok(after)
  {
  }

  lemma {:induction false} ErrorStays(lines: seq<Line>, k: nat, m: nat)
    requires k <= m <= |lines| && Run(lines, k).Err?
    ensures Run(lines, m) == Run(lines, k)
  {
    hide Step;
    if k < m {
      ErrorStays(lines, k, m - 1);
    }
  }

  /** Every refusal names the line being read. */
  lemma RefusalNamesLine(st: State, line: Line, no: nat)
    ensures Step(st, line, no).Err? ==> Step(st, line, no).line == no
  {
  }

  // ---------------------------------------------------------------- what every line keeps

  ghost predicate Plain(text: Text) { forall i :: 0 <= i < |text| ==> text[i].Word? }

  /** A stored value: only its first chunk can begin with a marker. */
  ghost predicate PlainAfterFirst(text: Text) { forall i :: 1 <= i < |text| ==> text[i].Word? }

  ghost predicate NodeText(n: Node) {
    && Plain(n.headline)
    && (forall v :: v in n.satisfies ==> PlainAfterFirst(v))
    && (forall v :: v in n.depends ==> PlainAfterFirst(v))
    && PlainAfterFirst(n.verify) && PlainAfterFirst(n.batch)
  }

  ghost predicate RootShape(r: TaskRoot) {
    && r.node.ordinal.RootId? && !LeadingZeroed(r.node.ordinal.ord) && NodeText(r.node)
    && (forall c :: c in r.children ==>
          c.ordinal.ChildId? && c.ordinal.major == r.node.ordinal.ord && NodeText(c))
    && (forall i, j :: 0 <= i < j < |r.children| ==> r.children[i].ordinal != r.children[j].ordinal)
  }

  ghost predicate Roots(roots: seq<TaskRoot>) {
    && (forall r :: r in roots ==> RootShape(r))
    && (forall i, j :: 0 <= i < j < |roots| ==> roots[i].node.ordinal != roots[j].node.ordinal)
  }

  ghost predicate Modes(st: State) {
    && (st.fence.Some? ==> st.evidence.None? && st.pending.None?)
    && (st.evidence.Some? ==> st.evidence.value > 0 && st.pending.None?)
    && (st.pending.Some? ==> st.roots != [])
    && (st.pending.Some? && !st.pending.value.onRoot ==> Last(st.roots).children != [])
  }

  lemma {:induction false} ValuesArePlain(text: Text)
    ensures forall v :: v in Values(text) ==> PlainAfterFirst(v.text)
    decreases |text|
  {
    if text == [] {
    } else {
      if text[0].Word? {
        ValuesArePlain(text[1..]);
      } else {
        var n := 1 + Leading(text[1..]);
        ValuesArePlain(text[n..]);
        forall i | 1 <= i < n ensures text[i].Word? {
          assert text[1..][i - 1].Word?;
        }
      }
    }
  }

  lemma {:induction false} ApplyKeepsText(node: Node, values: seq<Value>)
    requires NodeText(node) && forall v :: v in values ==> PlainAfterFirst(v.text)
    ensures var n := ApplyValues(node, values);
            NodeText(n) && n.ordinal == node.ordinal && n.line == node.line && n.checked == node.checked
            && n.headline == node.headline && n.evidenceLine == node.evidenceLine
    decreases |values|
  {
    if values == [] {
    } else {
      assert values[0] in values;
      ApplyKeepsText(ApplyValue(node, values[0]), values[1..]);
    }
  }

  /** The same checkbox line, whatever its metadata. */
  predicate SameHead(n: Node, m: Node) {
    n.ordinal == m.ordinal && n.line == m.line && n.checked == m.checked && n.headline == m.headline
  }

  ghost predicate SameHeads(r: TaskRoot, q: TaskRoot) {
    && SameHead(r.node, q.node) && |r.children| == |q.children|
    && (forall i :: 0 <= i < |r.children| ==> SameHead(r.children[i], q.children[i]))
  }

  lemma OwnerKeepsShape(r: TaskRoot, onRoot: bool, text: Text)
    requires RootShape(r)
    ensures RootShape(OnOwner(r, onRoot, Values(text))) && SameHeads(r, OnOwner(r, onRoot, Values(text)))
  {
    if !onRoot && r.children != [] {
      assert Last(r.children) in r.children;
    }
    ValuesArePlain(text);
    if onRoot || r.children == [] {
      ApplyKeepsText(r.node, Values(text));
    } else {
      ApplyKeepsText(Last(r.children), Values(text));
      ReplaceLastChild(r, ApplyValues(Last(r.children), Values(text)));
    }
  }

  lemma ReplaceLastChild(r: TaskRoot, c: Node)
    requires RootShape(r) && r.children != [] && NodeText(c) && c.ordinal == Last(r.children).ordinal
    ensures RootShape(r.(children := Front(r.children) + [c]))
  {
    var children := Front(r.children) + [c];
    assert forall i :: 0 <= i < |children| ==> children[i].ordinal == r.children[i].ordinal;
    assert Last(r.children) in r.children;
    forall d | d in children ensures d.ordinal.ChildId? && d.ordinal.major == r.node.ordinal.ord && NodeText(d) {
      if d != c { assert d in r.children; }
    }
  }

  lemma ReplaceLastRoot(roots: seq<TaskRoot>, r: TaskRoot)
    requires Roots(roots) && roots != [] && RootShape(r) && r.node.ordinal == Last(roots).node.ordinal
    ensures Roots(WithLast(roots, r))
  {
    var changed := WithLast(roots, r);
    assert forall i :: 0 <= i < |changed| ==> changed[i].node.ordinal == roots[i].node.ordinal;
    forall q | q in changed ensures RootShape(q) {
      if q != r { assert q in roots; }
    }
  }

  /** Only the last root may have changed, and only in its details. */
  ghost predicate OnlyLast(roots: seq<TaskRoot>, changed: seq<TaskRoot>) {
    if roots == [] then changed == []
    else |changed| == |roots| && Front(changed) == Front(roots) && SameHeads(Last(roots), Last(changed))
  }

  lemma FlushKeeps(st: State)
    requires Roots(st.roots)
    ensures Roots(Flush(st).roots) && OnlyLast(st.roots, Flush(st).roots)
  {
    if st.pending.Some? && st.roots != [] {
      var p := st.pending.value;
      assert Last(st.roots) in st.roots;
      OwnerKeepsShape(Last(st.roots), p.onRoot, p.text);
      ReplaceLastRoot(st.roots, OnOwner(Last(st.roots), p.onRoot, Values(p.text)));
    }
  }

  lemma NewRootKeeps(roots: seq<TaskRoot>, line: Line, no: nat)
    requires Roots(roots) && line.Root? && !LeadingZeroed(line.ord) && !HasRoot(roots, line.ord)
    ensures Roots(roots + [TaskRoot(NewNode(RootId(line.ord), no, line.checked, line.text), [])])
  {
    var r := TaskRoot(NewNode(RootId(line.ord), no, line.checked, line.text), []);
    forall q | q in roots + [r] ensures RootShape(q) {
      if q != r { assert q in roots; }
    }
    forall i | 0 <= i < |roots| ensures roots[i].node.ordinal != r.node.ordinal {
      assert roots[i] in roots;
    }
  }

  lemma NewChildKeeps(roots: seq<TaskRoot>, line: Line, no: nat)
    requires Roots(roots) && roots != [] && line.Child? && RootId(line.major) == Last(roots).node.ordinal
    requires !HasChild(roots, ChildId(line.major, line.minor))
    ensures var r, c := Last(roots), NewNode(ChildId(line.major, line.minor), no, line.checked, line.text);
            Roots(WithLast(roots, r.(children := r.children + [c])))
  {
    var r, c := Last(roots), NewNode(ChildId(line.major, line.minor), no, line.checked, line.text);
    var grown := r.(children := r.children + [c]);
    assert r in roots;
    forall i | 0 <= i < |r.children| ensures r.children[i].ordinal != c.ordinal {
      assert r.children[i] in r.children;
    }
    ReplaceLastRoot(roots, grown);
  }

  lemma EvidenceKeeps(st: State, indent: nat, no: nat)
    requires Roots(st.roots)
    ensures Roots(StepEvidence(st, indent, no).roots) && OnlyLast(st.roots, StepEvidence(st, indent, no).roots)
  {
    if st.roots != [] && OwnerAt(Last(st.roots), indent).Some? {
      var root := Last(st.roots);
      assert root in st.roots;
      if OwnerAt(root, indent).value || root.children == [] {
        ReplaceLastRoot(st.roots, root.(node := root.node.(evidenceLine := Some(no))));
      } else {
        assert Last(root.children) in root.children;
        ReplaceLastChild(root, Last(root.children).(evidenceLine := Some(no)));
        ReplaceLastRoot(st.roots, root.(children := Front(root.children) + [Last(root.children).(evidenceLine := Some(no))]));
      }
    }
  }

  lemma StepKeepsRoots(st: State, line: Line, no: nat)
    requires Roots(st.roots) && Step(st, line, no).Ok?
    ensures Roots(Step(st, line, no).value.roots)
  {
    FlushKeeps(st.(evidence := None));
    var flushed := Flush(st.(evidence := None));
    if UnderEvidence(st, line) || (st.fence.Some? && !line.Fence?) {
    } else {
      match line
      case Root(_, _, _) => NewRootKeeps(flushed.roots, line, no);
      case Child(_, _, _, _) => NewChildKeeps(flushed.roots, line, no);
      case Evidence(indent, _) => EvidenceKeeps(flushed, indent, no);
      case _ =>
    }
  }

  /** Metadata has an owner to go to. */
  ghost predicate Owned(st: State) {
    && (st.pending.Some? ==> st.roots != [])
    && (st.pending.Some? && !st.pending.value.onRoot ==> Last(st.roots).children != [])
  }

  lemma FlushModes(st: State)
    requires Owned(st)
    ensures var flushed := Flush(st);
            && flushed.pending.None? && flushed.fence == st.fence && flushed.evidence == st.evidence
            && |flushed.roots| == |st.roots|
            && (st.roots != [] ==> |Last(flushed.roots).children| == |Last(st.roots).children|)
  {
    hide Values, ApplyValues;
  }

  lemma AddModes(st: State, onRoot: bool, text: Text, indent: nat)
    requires st.fence.None? && st.evidence.None? && Owned(st)
    requires st.roots != [] && (!onRoot ==> Last(st.roots).children != [])
    ensures Modes(AddMetadata(st, onRoot, text, indent))
  {
    FlushModes(st);
    hide Flush;
  }

  /** A fence and an evidence block are never open together, and neither with metadata pending. */
  lemma StepKeepsModes(st: State, line: Line, no: nat)
    requires Modes(st) && Step(st, line, no).Ok?
    ensures Modes(Step(st, line, no).value)
  {
    var open := st.(evidence := None);
    var flushed := Flush(open);
    FlushModes(open);
    hide Flush, AddMetadata, NewNode, HasRoot, HasChild, LeadingZeroed, Leading;
    if UnderEvidence(st, line) || (open.fence.Some? && !line.Fence?) { return; }
    match line
    case Root(checked, ord, text) =>
      var root := TaskRoot(NewNode(RootId(ord), no, checked, text), []);
      HeadlineModes(flushed.(roots := flushed.roots + [root]), true, text, 0);
    case Child(checked, major, minor, text) =>
      var root, child := Last(flushed.roots), NewNode(ChildId(major, minor), no, checked, text);
      HeadlineModes(flushed.(roots := WithLast(flushed.roots, root.(children := root.children + [child]))), false, text, 4);
    case Meta(indent, _, text) =>
      if open.roots != [] {
        var owner := OwnerAt(Last(open.roots), indent);
        if owner.Some? { AddModes(open, owner.value, text, indent); }
      }
    case _ =>
  }

  lemma HeadlineModes(st: State, onRoot: bool, text: Text, indent: nat)
    requires st.fence.None? && st.evidence.None? && st.pending.None?
    requires st.roots != [] && (!onRoot ==> Last(st.roots).children != [])
    ensures Modes(OnHeadline(st, onRoot, text, indent))
  {
    AddModes(st, onRoot, text[Leading(text)..], indent);
    hide AddMetadata;
  }

  /** The line a node was read from. */
  ghost predicate ReadFrom(lines: seq<Line>, n: Node) {
    && 1 <= n.line <= |lines|
    && var l := lines[n.line - 1];
       match n.ordinal
       case RootId(ord) => l.Root? && l.ord == ord && l.checked == n.checked && n.headline == l.text[..Leading(l.text)]
       case ChildId(major, minor) =>
         l.Child? && l.major == major && l.minor == minor && l.checked == n.checked && n.headline == l.text[..Leading(l.text)]
  }

  ghost predicate RootPlaced(lines: seq<Line>, r: TaskRoot, upTo: nat) {
    && ReadFrom(lines, r.node) && r.node.line <= upTo
    && (forall i :: 0 <= i < |r.children| ==> ReadFrom(lines, r.children[i]) && r.node.line < r.children[i].line <= upTo)
    && (forall i, j :: 0 <= i < j < |r.children| ==> r.children[i].line < r.children[j].line)
  }

  ghost predicate Before(r: TaskRoot, q: TaskRoot) {
    r.node.line < q.node.line && forall c :: c in r.children ==> c.line < q.node.line
  }

  /** Every node stands where its line does, and the lines strictly increase in document order. */
  ghost predicate Placed(lines: seq<Line>, roots: seq<TaskRoot>, upTo: nat) {
    && (forall r :: r in roots ==> RootPlaced(lines, r, upTo))
    && (forall i, j :: 0 <= i < j < |roots| ==> Before(roots[i], roots[j]))
  }

  lemma LastStaysPlaced(lines: seq<Line>, roots: seq<TaskRoot>, changed: seq<TaskRoot>, upTo: nat)
    requires Placed(lines, roots, upTo) && OnlyLast(roots, changed)
    ensures Placed(lines, changed, upTo)
  {
    if roots != [] {
      assert forall i :: 0 <= i < |roots| - 1 ==> changed[i] == Front(changed)[i] == Front(roots)[i] == roots[i];
      assert Last(roots) in roots;
      forall r | r in changed ensures RootPlaced(lines, r, upTo) {
        if r != Last(changed) {
          var i :| 0 <= i < |changed| && changed[i] == r;
          assert r in roots;
        }
      }
    }
  }

  lemma LaterStaysPlaced(lines: seq<Line>, roots: seq<TaskRoot>, upTo: nat)
    requires Placed(lines, roots, upTo)
    ensures Placed(lines, roots, upTo + 1)
  {
    forall r | r in roots ensures RootPlaced(lines, r, upTo + 1) {
      assert RootPlaced(lines, r, upTo);
    }
  }

  lemma NewRootPlaced(lines: seq<Line>, roots: seq<TaskRoot>, no: nat)
    requires 1 <= no <= |lines| && Placed(lines, roots, no - 1) && lines[no - 1].Root?
    ensures var line := lines[no - 1];
            Placed(lines, roots + [TaskRoot(NewNode(RootId(line.ord), no, line.checked, line.text), [])], no)
  {
    var line := lines[no - 1];
    var r := TaskRoot(NewNode(RootId(line.ord), no, line.checked, line.text), []);
    LaterStaysPlaced(lines, roots, no - 1);
    forall i | 0 <= i < |roots| ensures Before(roots[i], r) {
      assert RootPlaced(lines, roots[i], no - 1);
    }
  }

  lemma NewChildPlaced(lines: seq<Line>, roots: seq<TaskRoot>, no: nat)
    requires 1 <= no <= |lines| && Placed(lines, roots, no - 1) && roots != [] && lines[no - 1].Child?
    ensures var line, r := lines[no - 1], Last(roots);
            var c := NewNode(ChildId(line.major, line.minor), no, line.checked, line.text);
            Placed(lines, WithLast(roots, r.(children := r.children + [c])), no)
  {
    var line, r := lines[no - 1], Last(roots);
    var c := NewNode(ChildId(line.major, line.minor), no, line.checked, line.text);
    var grown := WithLast(roots, r.(children := r.children + [c]));
    assert r in roots && RootPlaced(lines, r, no - 1);
    assert forall i :: 0 <= i < |roots| - 1 ==> grown[i] == roots[i];
    assert RootPlaced(lines, Last(grown), no);
    forall q | q in grown ensures RootPlaced(lines, q, no) {
      if q != Last(grown) {
        assert q in roots && RootPlaced(lines, q, no - 1);
      }
    }
  }

  /** A line that is no accepted checkbox changes at most the details of the last root. */
  lemma DetailsOnlyLast(st: State, line: Line, no: nat)
    requires Roots(st.roots) && Step(st, line, no).Ok?
    requires UnderEvidence(st, line) || (st.fence.Some? && !line.Fence?) || (!line.Root? && !line.Child?)
    ensures OnlyLast(st.roots, Step(st, line, no).value.roots)
  {
    var st1 := st.(evidence := None);
    FlushKeeps(st1);
    if line.Evidence? && !UnderEvidence(st, line) && st.fence.None? {
      EvidenceKeeps(Flush(st1), line.indent, no);
      if st.roots != [] {
        assert SameHeads(Last(st.roots), Last(Flush(st1).roots));
      }
    }
  }

  lemma StepKeepsPlaced(lines: seq<Line>, st: State, no: nat)
    requires 1 <= no <= |lines| && Roots(st.roots) && Placed(lines, st.roots, no - 1)
    requires Step(st, lines[no - 1], no).Ok?
    ensures Placed(lines, Step(st, lines[no - 1], no).value.roots, no)
  {
    var line, st1 := lines[no - 1], st.(evidence := None);
    if UnderEvidence(st, line) || (st.fence.Some? && !line.Fence?) || (!line.Root? && !line.Child?) {
      DetailsOnlyLast(st, line, no);
      LastStaysPlaced(lines, st.roots, Step(st, line, no).value.roots, no - 1);
      LaterStaysPlaced(lines, Step(st, line, no).value.roots, no - 1);
    } else {
      FlushKeeps(st1);
      LastStaysPlaced(lines, st.roots, Flush(st1).roots, no - 1);
      if line.Root? {
        NewRootPlaced(lines, Flush(st1).roots, no);
      } else {
        NewChildPlaced(lines, Flush(st1).roots, no);
      }
    }
  }

  lemma {:induction false} RunKeeps(lines: seq<Line>, k: nat)
    requires k <= |lines| && Run(lines, k).Ok?
    ensures var st := Run(lines, k).value; Roots(st.roots) && Modes(st) && Placed(lines, st.roots, k)
  {
    if k == 0 {
    } else {
      RunKeeps(lines, k - 1);
      StepKeepsRoots(Run(lines, k - 1).value, lines[k - 1], k);
      StepKeepsModes(Run(lines, k - 1).value, lines[k - 1], k);
      StepKeepsPlaced(lines, Run(lines, k - 1).value, k);
    }
  }

  /**
   Structural safety of an accepted list: ids unique and without leading zeros, children
   under their own root, every node on its own checkbox line, lines increasing.
   */
  lemma AcceptedIsSound(lines: seq<Line>)
    requires Parse(lines).Ok?
    ensures Roots(Parse(lines).value) && Placed(lines, Parse(lines).value, |lines|)
    ensures forall r, q, c, d :: r in Parse(lines).value && q in Parse(lines).value && c in r.children && d in q.children ==>
              c.ordinal == d.ordinal ==> c == d
  {
    RunKeeps(lines, |lines|);
    var st := Run(lines, |lines|).value;
    FlushKeeps(st);
    LastStaysPlaced(lines, st.roots, Flush(st).roots, |lines|);
  }

  /** At every line of an accepted list, a fence and an evidence block are not both open. */
  lemma ModesNeverOverlap(lines: seq<Line>, k: nat)
    requires k <= |lines| && Run(lines, k).Ok?
    ensures var st := Run(lines, k).value; !(st.fence.Some? && st.evidence.Some?)
  {
    RunKeeps(lines, k);
  }

  // ---------------------------------------------------------------- fences are opaque

  /** Lines that differ only inside one open fence, and close it nowhere. */
  ghost predicate SameOutsideFence(lines: seq<Line>, other: seq<Line>, from: nat, to: nat) {
    && |other| == |lines| && from <= to <= |lines|
    && (forall i :: 0 <= i < |lines| && !(from <= i < to) ==> other[i] == lines[i])
    && Run(lines, from).Ok? && Run(lines, from).value.fence.Some?
    && (forall i :: from <= i < to ==>
          !Closes(Run(lines, from).value.fence.value, lines[i]) && !Closes(Run(lines, from).value.fence.value, other[i]))
  }

  lemma InsideFence(st: State, line: Line, no: nat)
    requires Modes(st) && st.fence.Some? && !Closes(st.fence.value, line)
    ensures Step(st, line, no) == Ok(st)
  {
  }

  lemma {:induction false} SameRuns(lines: seq<Line>, other: seq<Line>, from: nat, to: nat, k: nat)
    requires SameOutsideFence(lines, other, from, to) && k <= |lines|
    ensures Run(lines, k) == Run(other, k)
    ensures from <= k <= to ==> Run(lines, k) == Run(lines, from)
  {
    hide Step;
    if k > 0 {
      SameRuns(lines, other, from, to, k - 1);
      if from < k <= to {
        var st := Run(lines, from).value;
        assert Modes(st) by { RunKeeps(lines, from); }
        InsideFence(st, lines[k - 1], k);
        InsideFence(st, other[k - 1], k);
      }
    }
  }

  /** Replacing lines inside an open fence by any lines that do not close it changes nothing. */
  lemma FencesAreOpaque(lines: seq<Line>, other: seq<Line>, from: nat, to: nat)
    requires SameOutsideFence(lines, other, from, to)
    ensures Parse(other) == Parse(lines)
  {
    SameRuns(lines, other, from, to, |lines|);
  }

  // ---------------------------------------------------------------- root blocks

  function BlockEnd(lines: seq<Line>, roots: seq<TaskRoot>, i: nat): nat
    requires i < |roots|
  {
    if i + 1 < |roots| && roots[i + 1].node.line > 0 then roots[i + 1].node.line - 1 else |lines|
  }

  ghost predicate BlockFits(lines: seq<Line>, roots: seq<TaskRoot>, i: nat) {
    i < |roots| && 1 <= roots[i].node.line <= BlockEnd(lines, roots, i) <= |lines|
  }

  /** The lines of one root, verbatim. */
  function Block(lines: seq<Line>, roots: seq<TaskRoot>, i: nat): seq<Line>
    requires BlockFits(lines, roots, i)
  {
    lines[roots[i].node.line - 1..BlockEnd(lines, roots, i)]
  }

  lemma BlocksFit(lines: seq<Line>, i: nat)
    requires Parse(lines).Ok? && i < |Parse(lines).value|
    ensures BlockFits(lines, Parse(lines).value, i)
  {
    AcceptedIsSound(lines);
    var roots := Parse(lines).value;
    assert roots[i] in roots;
    if i + 1 < |roots| {
      assert roots[i + 1] in roots;
      assert Before(roots[i], roots[i + 1]);
    }
  }

  ghost predicate AllFit(lines: seq<Line>, roots: seq<TaskRoot>) {
    forall i: nat :: i < |roots| ==> BlockFits(lines, roots, i)
  }

  ghost function Tiles(lines: seq<Line>, roots: seq<TaskRoot>, i: nat): seq<Line>
    requires AllFit(lines, roots) && i <= |roots|
    decreases |roots| - i
  {
    if i == |roots| then [] else Block(lines, roots, i) + Tiles(lines, roots, i + 1)
  }

  lemma {:induction false} TilesFrom(lines: seq<Line>, roots: seq<TaskRoot>, i: nat)
    requires AllFit(lines, roots) && i < |roots|
    ensures BlockFits(lines, roots, i) && Tiles(lines, roots, i) == lines[roots[i].node.line - 1..]
    decreases |roots| - i
  {
    assert BlockFits(lines, roots, i);
    if i + 1 < |roots| {
      TilesFrom(lines, roots, i + 1);
      var from, mid := roots[i].node.line - 1, roots[i + 1].node.line - 1;
      assert lines[from..] == lines[from..mid] + lines[mid..];
    } else {
      assert Tiles(lines, roots, i + 1) == [];
    }
  }

  /** The blocks in order are the text from the first root to the end, nothing lost or repeated. */
  lemma BlocksTile(lines: seq<Line>, roots: seq<TaskRoot>)
    requires Parse(lines) == Ok(roots) && roots != []
    ensures AllFit(lines, roots) && 1 <= roots[0].node.line <= |lines|
    ensures Tiles(lines, roots, 0) == lines[roots[0].node.line - 1..]
  {
    forall i: nat | i < |roots| ensures BlockFits(lines, roots, i) {
      BlocksFit(lines, i);
    }
    TilesFrom(lines, roots, 0);
  }

  lemma OneRootPerId(lines: seq<Line>, i: nat, j: nat)
    requires Parse(lines).Ok? && i < |Parse(lines).value| && j < |Parse(lines).value|
    requires Parse(lines).value[i].node.ordinal == Parse(lines).value[j].node.ordinal
    ensures i == j
  {
    AcceptedIsSound(lines);
  }

  /** The lookup of the source: the block of the root with that id, nothing when there is none. */
  method RootTaskBlock(lines: seq<Line>, ord: string) returns (block: Result<seq<Line>>, ghost at: nat)
    ensures Parse(lines).Err? ==> block == Err(Parse(lines).line, Parse(lines).reason)
    ensures Parse(lines).Ok? && !HasRoot(Parse(lines).value, ord) ==> block == Ok([])
    ensures Parse(lines).Ok? && HasRoot(Parse(lines).value, ord) ==>
              && BlockFits(lines, Parse(lines).value, at)
              && Parse(lines).value[at].node.ordinal == RootId(ord)
              && block == Ok(Block(lines, Parse(lines).value, at))
              && (forall j :: 0 <= j < |Parse(lines).value| && Parse(lines).value[j].node.ordinal == RootId(ord) ==> j == at)
  {
    hide Parse, BlockFits, AllFit;
    var parsed := Parse(lines);
    at := 0;
    if parsed.Err? { return Err(parsed.line, parsed.reason), at; }
    var roots := parsed.value;
    for i := 0 to |roots|
      invariant forall j :: 0 <= j < i ==> roots[j].node.ordinal != RootId(ord)
    {
      if roots[i].node.ordinal == RootId(ord) {
        BlocksFit(lines, i);
        forall j | 0 <= j < |roots| && roots[j].node.ordinal == RootId(ord) ensures j == i {
          OneRootPerId(lines, i, j);
        }
        return Ok(Block(lines, roots, i)), i;
      }
    }
    return Ok([]), at;
  }
}
