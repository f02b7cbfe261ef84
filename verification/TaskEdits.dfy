/** Edits of a task list that leave what it says as it was. */
module TaskEdits {
  import opened Common
  import opened TaskHierarchy
  import opened TaskRenumber
  import opened TaskBlocks
  import opened TaskDetails

  // ---------------------------------------------------------------- texts with the same beginning

  lemma {:induction false} SameBeginning(pre: seq<Line>, more: seq<Line>, k: nat)
    requires k <= |pre|
    ensures Run(pre + more, k) == Run(pre, k)
  {
    hide Step;
    if k == 0 {
    } else {
      SameBeginning(pre, more, k - 1);
      assert (pre + more)[k - 1] == pre[k - 1];
    }
  }

  lemma OneMoreLine(pre: seq<Line>, line: Line, more: seq<Line>)
    requires Run(pre, |pre|).Ok?
    ensures Run(pre + [line] + more, |pre| + 1) == Step(Run(pre, |pre|).value, line, |pre| + 1)
  {
    assert pre + [line] + more == pre + ([line] + more);
    SameBeginning(pre, [line] + more, |pre|);
    assert (pre + ([line] + more))[|pre|] == line;
    hide Step;
  }

  lemma TwoMoreLines(pre: seq<Line>, one: Line, two: Line, more: seq<Line>)
    requires Run(pre, |pre|).Ok? && Step(Run(pre, |pre|).value, one, |pre| + 1).Ok?
    ensures Run(pre + [one, two] + more, |pre| + 2) ==
            Step(Step(Run(pre, |pre|).value, one, |pre| + 1).value, two, |pre| + 2)
  {
    assert pre + [one, two] + more == pre + [one] + ([two] + more);
    OneMoreLine(pre, one, [two] + more);
    assert (pre + [one] + ([two] + more))[|pre| + 1] == two;
    hide Step;
  }

  /** A refusal names a line that was read. */
  lemma {:induction false} RefusalIsInside(lines: seq<Line>, k: nat)
    requires k <= |lines| && Run(lines, k).Err?
    ensures 1 <= Run(lines, k).line <= k
  {
    hide Step;
    if Run(lines, k - 1).Ok? {
      RefusalNamesLine(Run(lines, k - 1).value, lines[k - 1], k);
    } else {
      RefusalIsInside(lines, k - 1);
    }
  }

  /** A line inserted below line `p`: later lines move down by one. */
  function Inserted(p: nat): nat -> nat { (no: nat) => if no <= p then no else no + 1 }

  /** What was read above an inserted line keeps its numbers. */
  lemma AboveStays(pre: seq<Line>, p: nat)
    requires Run(pre, |pre|).Ok? && |pre| <= p
    ensures var st := Run(pre, |pre|).value; Alike(st, st, Inserted(p), 0)
  {
    hide Alike, Run;
    SamePre(pre, p);
    RunAlike(pre, pre, 0, 0, |pre|, Inserted(p), 0);
  }

  lemma SamePre(pre: seq<Line>, p: nat)
    requires |pre| <= p
    ensures SameEnd(pre, pre, 0, 0, Inserted(p), 0) && Run(pre, 0) == Ok(INIT) && Alike(INIT, INIT, Inserted(p), 0)
  {
    hide Step;
  }

  // ---------------------------------------------------------------- metadata below its checkbox

  /** The one line that holds a checkbox and its metadata, or the checkbox alone. */
  ghost predicate Checkbox(line: Line) { (line.Root? || line.Child?) && Plain(line.text) }

  function BoxWith(box: Line, tail: Text): Line
    requires box.Root? || box.Child?
  {
    if box.Root? then Root(box.checked, box.ord, box.text + tail) else Child(box.checked, box.major, box.minor, box.text + tail)
  }

  /** A metadata line right below a checkbox, at an indent that makes it the owner. */
  predicate Owns(box: Line, indent: nat) { if box.Root? then indent >= 1 else indent == 4 }

  function Reach(box: Line, indent: nat): nat { if box.Root? then indent else 0 }

  lemma HeadAlone(head: Text, tail: Text)
    requires Plain(head) && StartsMarked(tail)
    ensures Leading(head) == |head| && Leading(head + tail) == |head|
    ensures (head + tail)[..|head|] == head && (head + tail)[|head|..] == tail && head[..|head|] == head
  {
    LeadingPlain(head, tail);
    LeadingPlain(head, []);
    assert head + [] == head;
  }

  lemma RootThenMeta(st: State, box: Line, tail: Text, indent: nat, no: nat)
    requires st.fence.None? && st.evidence.None? && st.pending.None?
    requires box.Root? && Plain(box.text) && StartsMarked(tail) && indent >= 1
    ensures match StepRoot(st, BoxWith(box, tail), no)
            case Err(_, reason) => StepRoot(st, box, no) == Err(no, reason)
            case Ok(a) =>
              && StepRoot(st, box, no).Ok? && StepRoot(st, box, no).value.evidence.None? && StepRoot(st, box, no).value.fence.None?
              && var b := StepDetail(StepRoot(st, box, no).value, Meta(indent, true, tail));
                 b == a.(pending := b.pending) && PendingAlike(a.pending, b.pending, indent)
  {
    HeadAlone(box.text, tail);
    hide HasRoot, Leading, LeadingZeroed;
  }

  lemma ChildThenMeta(st: State, box: Line, tail: Text, no: nat)
    requires st.fence.None? && st.evidence.None? && st.pending.None?
    requires box.Child? && Plain(box.text) && StartsMarked(tail)
    ensures match StepChild(st, BoxWith(box, tail), no)
            case Err(_, reason) => StepChild(st, box, no) == Err(no, reason)
            case Ok(a) =>
              && StepChild(st, box, no).Ok? && StepChild(st, box, no).value.evidence.None? && StepChild(st, box, no).value.fence.None?
              && StepDetail(StepChild(st, box, no).value, Meta(4, true, tail)) == a
  {
    HeadAlone(box.text, tail);
    hide HasChild, Leading, LeadingZeroed;
  }

  /** From any state: the checkbox with its metadata, against the checkbox and then the metadata. */
  lemma BoxThenMeta(st: State, box: Line, tail: Text, indent: nat, dash: bool, no: nat)
    requires Modes(st) && Checkbox(box) && StartsMarked(tail) && Owns(box, indent)
    ensures match Step(st, BoxWith(box, tail), no)
            case Err(_, reason) => Step(st, box, no) == Err(no, reason)
            case Ok(a) =>
              && Step(st, box, no).Ok?
              && var second := Step(Step(st, box, no).value, Meta(indent, dash, tail), no + 1);
                 && second.Ok? && second.value == a.(pending := second.value.pending)
                 && PendingAlike(a.pending, second.value.pending, Reach(box, indent))
  {
    var open := st.(evidence := None);
    FlushModes(open);
    if !Read(st, box) {
    } else if box.Root? {
      RootThenMeta(Flush(open), box, tail, indent, no);
    } else {
      ChildThenMeta(Flush(open), box, tail, no);
    }
    assert forall s: State :: StepDetail(s, Meta(indent, dash, tail)) == StepDetail(s, Meta(indent, true, tail));
    hide Flush, StepRoot, StepChild, StepDetail;
  }

  /** One line, and the two it is written as: the same state, but for where pending metadata began. */
  ghost predicate SameStep(st: State, x: Line, y: Line, z: Line, no: nat, reach: nat) {
    var a, b := Step(st, x, no), Step(st, y, no);
    && a.Ok? && b.Ok?
    && var c := Step(b.value, z, no + 1);
       c.Ok? && c.value == a.value.(pending := c.value.pending) && PendingAlike(a.value.pending, c.value.pending, reach)
  }

  lemma RestIsTheSame(pre: seq<Line>, x: Line, y: Line, z: Line, post: seq<Line>, reach: nat)
    requires forall line :: line in post ==> Tame(line, reach)
    ensures SameEnd(pre + [x] + post, pre + [y, z] + post, |pre| + 1, |pre| + 2, Inserted(|pre| + 1), reach)
  {
    assert (pre + [x] + post)[|pre| + 1..] == post == (pre + [y, z] + post)[|pre| + 2..];
  }

  lemma StepsAlike(st: State, x: Line, y: Line, z: Line, no: nat, reach: nat)
    requires SameStep(st, x, y, z, no, reach) && Alike(st, st, Inserted(no), 0)
    ensures Alike(Step(st, x, no).value, Step(Step(st, y, no).value, z, no + 1).value, Inserted(no), reach)
  {
    StepAlike(st, st, Inserted(no), 0, x, no);
    hide Step, RenumberAll;
  }

  lemma OneLineAsTwo(pre: seq<Line>, x: Line, y: Line, z: Line, post: seq<Line>, reach: nat)
    requires Run(pre, |pre|).Ok? && SameStep(Run(pre, |pre|).value, x, y, z, |pre| + 1, reach)
    requires forall line :: line in post ==> Tame(line, reach)
    ensures Parse(pre + [y, z] + post) == Renumbered(Parse(pre + [x] + post), Inserted(|pre| + 1))
  {
    hide Run, Step, Parse, Renumbered, Alike, SameEnd, PendingAlike;
    OneMoreLine(pre, x, post);
    TwoMoreLines(pre, y, z, post);
    AboveStays(pre, |pre| + 1);
    StepsAlike(Run(pre, |pre|).value, x, y, z, |pre| + 1, reach);
    RestIsTheSame(pre, x, y, z, post, reach);
    ParseAlike(pre + [x] + post, pre + [y, z] + post, |pre| + 1, |pre| + 2, Inserted(|pre| + 1), reach);
  }

  lemma RefusedAbove(pre: seq<Line>, more: seq<Line>, f: nat -> nat)
    requires Run(pre, |pre|).Err? && forall no: nat :: no <= |pre| ==> f(no) == no
    ensures Parse(pre + more) == Renumbered(Parse(pre + more), f) && Parse(pre + more) == Err(Run(pre, |pre|).line, Run(pre, |pre|).reason)
  {
    SameBeginning(pre, more, |pre|);
    RefusalIsInside(pre, |pre|);
    ErrorStays(pre + more, |pre|, |pre + more|);
    hide Run;
  }

  lemma RefusedAt(pre: seq<Line>, line: Line, more: seq<Line>)
    requires Run(pre, |pre|).Ok? && Step(Run(pre, |pre|).value, line, |pre| + 1).Err?
    ensures Parse(pre + [line] + more) == Err(|pre| + 1, Step(Run(pre, |pre|).value, line, |pre| + 1).reason)
  {
    OneMoreLine(pre, line, more);
    RefusalNamesLine(Run(pre, |pre|).value, line, |pre| + 1);
    ErrorStays(pre + [line] + more, |pre| + 1, |pre + [line] + more|);
    hide Run, Step;
  }

  /**
   Metadata may stand on its checkbox line or on a line of its own below, at the owner's indent:
   the list is the same but for the numbers of later lines, and refused for the same reason if it
   is. For a root, a line that continues the metadata must then be indented as far.
   */
  lemma MetadataBelowItsCheckbox(pre: seq<Line>, box: Line, tail: Text, indent: nat, dash: bool, post: seq<Line>)
    requires Checkbox(box) && StartsMarked(tail) && Owns(box, indent)
    requires forall line :: line in post ==> Tame(line, Reach(box, indent))
    ensures Parse(pre + [box, Meta(indent, dash, tail)] + post)
         == Renumbered(Parse(pre + [BoxWith(box, tail)] + post), Inserted(|pre| + 1))
  {
    var whole, meta, f := BoxWith(box, tail), Meta(indent, dash, tail), Inserted(|pre| + 1);
    assert pre + [whole] + post == pre + ([whole] + post) && pre + [box, meta] + post == pre + ([box, meta] + post);
    assert pre + [box, meta] + post == pre + [box] + ([meta] + post);
    if Run(pre, |pre|).Err? {
      RefusedAbove(pre, [whole] + post, f);
      RefusedAbove(pre, [box, meta] + post, f);
    } else {
      RunKeeps(pre, |pre|);
      var st := Run(pre, |pre|).value;
      BoxThenMeta(st, box, tail, indent, dash, |pre| + 1);
      hide Run, Step, Parse, RenumberAll;
      if Step(st, whole, |pre| + 1).Err? {
        RefusalNamesLine(st, whole, |pre| + 1);
        RefusedAt(pre, whole, post);
        RefusedAt(pre, box, [meta] + post);
      } else {
        OneLineAsTwo(pre, whole, box, meta, post, Reach(box, indent));
      }
    }
  }

  // ---------------------------------------------------------------- continued metadata

  /** Where the metadata began that a line at `indent` adds to. */
  function BeganAt(st: State, indent: nat): nat
    requires HasOwner(st.roots, indent)
  {
    var onRoot := Last(st.roots).children == [] || indent == 2;
    if st.pending.Some? && st.pending.value.onRoot == onRoot then st.pending.value.indent else indent
  }

  /**
   Below metadata that has an owner, a line of text belongs to it exactly when it is no bullet and
   is indented as far as that metadata began; otherwise the metadata ends there.
   */
  lemma ContinuesExactly(st: State, meta: Line, more: Line, no: nat)
    requires Modes(st) && Read(st, meta) && st.evidence.None? && meta.Meta? && more.Prose? && HasOwner(st.roots, meta.indent)
    ensures Step(st, meta, no).Ok? && Step(Step(st, meta, no).value, more, no + 1).Ok?
    ensures var split := Step(Step(st, meta, no).value, more, no + 1).value;
            if !more.dash && more.indent >= ContinuesFrom(BeganAt(st, meta.indent)) then
              Step(st, Meta(meta.indent, meta.dash, meta.text + more.text), no) == Ok(split)
            else
              split.pending.None? && split.roots == Tree(Step(st, meta, no).value)
  {
    var added := AddMetadata(st, Last(st.roots).children == [] || meta.indent == 2, meta.text, meta.indent);
    FlushModes(st);
    assert st.(evidence := None) == st;
    assert Step(st, meta, no) == Ok(added);
    Regroup(if st.pending.Some? then st.pending.value.text else [], meta.text, more.text);
    hide ApplyValues, Values;
    AddModes(st, Last(st.roots).children == [] || meta.indent == 2, meta.text, meta.indent);
    assert added.(evidence := None) == added;
  }

  /** Where a metadata line is broken in two does not matter, as long as the second half continues it. */
  lemma SplitMetadata(pre: seq<Line>, meta: Line, more: Line, post: seq<Line>)
    requires Run(pre, |pre|).Ok? && meta.Meta? && more.Prose? && !more.dash
    requires var st := Run(pre, |pre|).value;
             Read(st, meta) && st.evidence.None? && HasOwner(st.roots, meta.indent)
             && more.indent >= ContinuesFrom(BeganAt(st, meta.indent))
    ensures Parse(pre + [meta, more] + post)
         == Renumbered(Parse(pre + [Meta(meta.indent, meta.dash, meta.text + more.text)] + post), Inserted(|pre| + 1))
  {
    RunKeeps(pre, |pre|);
    ContinuesExactly(Run(pre, |pre|).value, meta, more, |pre| + 1);
    hide Run, Step, Parse, Renumbered;
    OneLineAsTwo(pre, Meta(meta.indent, meta.dash, meta.text + more.text), meta, more, post, 0);
  }

  // ---------------------------------------------------------------- lines that might as well be blank

  lemma {:induction false} SameFrom(one: seq<Line>, two: seq<Line>, i: nat, k: nat)
    requires |one| == |two| && i <= k <= |one| && one[i..] == two[i..] && Run(one, i) == Run(two, i)
    ensures Run(one, k) == Run(two, k)
  {
    hide Step;
    if i < k {
      SameFrom(one, two, i, k - 1);
      assert one[k - 1] == one[i..][k - 1 - i] == two[k - 1];
    }
  }

  lemma SameLineSameParse(pre: seq<Line>, x: Line, y: Line, post: seq<Line>, st: State)
    requires Run(pre, |pre|) == Ok(st) && Step(st, x, |pre| + 1) == Step(st, y, |pre| + 1)
    ensures Parse(pre + [x] + post) == Parse(pre + [y] + post)
  {
    hide Run, Step, Finish;
    var one, two := pre + [x] + post, pre + [y] + post;
    OneMoreLine(pre, x, post);
    OneMoreLine(pre, y, post);
    assert one[|pre| + 1..] == post == two[|pre| + 1..];
    SameFrom(one, two, |pre| + 1, |one|);
  }

  /** Metadata at an indent that has no owner says nothing: a blank line in its place is the same. */
  lemma StrayMetadataIsBlank(pre: seq<Line>, line: Line, post: seq<Line>, st: State)
    requires Run(pre, |pre|) == Ok(st) && st.evidence.None? && line.Meta? && !HasOwner(st.roots, line.indent)
    ensures Parse(pre + [line] + post) == Parse(pre + [Blank(0)] + post)
  {
    hide Run, Step, Parse;
    StrayIsBlank(st, line, |pre| + 1);
    SameLineSameParse(pre, line, Blank(0), post, st);
  }

  lemma StrayIsBlank(st: State, line: Line, no: nat)
    requires st.evidence.None? && line.Meta? && !HasOwner(st.roots, line.indent)
    ensures Step(st, line, no) == Step(st, Blank(0), no)
  {
  }

  // ---------------------------------------------------------------- evidence is opaque

  /** What an evidence block at `indent` keeps: blank lines, deeper ones, and bullets beside it. */
  predicate Kept(indent: nat, line: Line) {
    line.Blank? || Indent(line) > indent || (Indent(line) == indent && Bullet(line))
  }

  ghost predicate SameOutsideEvidence(lines: seq<Line>, other: seq<Line>, from: nat, to: nat) {
    && |other| == |lines| && from <= to <= |lines|
    && (forall i :: 0 <= i < |lines| && !(from <= i < to) ==> other[i] == lines[i])
    && Run(lines, from).Ok? && Run(lines, from).value.evidence.Some?
    && (forall i :: from <= i < to ==>
          Kept(Run(lines, from).value.evidence.value, lines[i]) && Kept(Run(lines, from).value.evidence.value, other[i]))
  }

  lemma {:induction false} SameEvidenceRuns(lines: seq<Line>, other: seq<Line>, from: nat, to: nat, k: nat)
    requires SameOutsideEvidence(lines, other, from, to) && k <= |lines|
    ensures Run(lines, k) == Run(other, k)
    ensures from <= k <= to ==> Run(lines, k) == Run(lines, from)
  {
    hide Step;
    if k > 0 {
      SameEvidenceRuns(lines, other, from, to, k - 1);
      if from < k <= to {
        KeptIsSkipped(Run(lines, from).value, lines[k - 1], k);
        KeptIsSkipped(Run(lines, from).value, other[k - 1], k);
      }
    }
  }

  lemma KeptIsSkipped(st: State, line: Line, no: nat)
    requires st.evidence.Some? && Kept(st.evidence.value, line)
    ensures Step(st, line, no) == Ok(st)
  {
  }

  /** Replacing what an evidence block keeps by anything else it keeps changes nothing. */
  lemma EvidenceIsOpaque(lines: seq<Line>, other: seq<Line>, from: nat, to: nat)
    requires SameOutsideEvidence(lines, other, from, to)
    ensures Parse(other) == Parse(lines)
  {
    SameEvidenceRuns(lines, other, from, to, |lines|);
  }

  // ---------------------------------------------------------------- fenced blocks

  /** No line of a fenced body is a fence of that delimiter and at least that length. */
  ghost predicate Inside(open: Line, body: seq<Line>)
    requires open.Fence?
  {
    forall line :: line in body && line.Fence? && line.delimiter == open.delimiter ==> line.length < open.length
  }

  /** While the body is read, the state is the one the opening fence left. */
  lemma {:induction false} BodyIsSkipped(pre: seq<Line>, open: Line, body: seq<Line>, more: seq<Line>, k: nat)
    requires Run(pre, |pre|).Ok? && Run(pre, |pre|).value.fence.None? && Run(pre, |pre|).value.evidence.None?
    requires open.Fence? && Inside(open, body) && k <= |body|
    ensures Run(pre + [open] + body + more, |pre| + 1 + k) ==
            Ok(Flush(Run(pre, |pre|).value).(fence := Some(OpenFence(open.delimiter, open.length))))
  {
    hide Step, Flush;
    var lines, st := pre + [open] + body + more, Run(pre, |pre|).value;
    if k == 0 {
      assert lines == pre + [open] + (body + more);
      OneMoreLine(pre, open, body + more);
      OpeningLine(st, open, |pre| + 1);
    } else {
      BodyIsSkipped(pre, open, body, more, k - 1);
      assert lines[|pre| + k] == body[k - 1];
      BodyLine(st, open, body[k - 1], |pre| + 1 + k);
    }
  }

  lemma OpeningLine(st: State, open: Line, no: nat)
    requires st.fence.None? && st.evidence.None? && open.Fence?
    ensures Step(st, open, no) == Ok(Flush(st).(fence := Some(OpenFence(open.delimiter, open.length))))
  {
    assert st.(evidence := None) == st;
    assert Flush(st).fence == st.fence;
    hide Flush;
  }

  lemma BodyLine(st: State, open: Line, line: Line, no: nat)
    requires st.evidence.None? && open.Fence?
    requires line.Fence? && line.delimiter == open.delimiter ==> line.length < open.length
    ensures var inside := Flush(st).(fence := Some(OpenFence(open.delimiter, open.length))); Step(inside, line, no) == Ok(inside)
  {
    assert Flush(st).pending.None? && Flush(st).evidence.None?;
    hide Flush;
    var inside := Flush(st).(fence := Some(OpenFence(open.delimiter, open.length)));
    assert inside.(evidence := None) == inside;
  }

  /** A fence that is never closed refuses the list, whatever is inside. */
  lemma UnclosedFenceIsRefused(pre: seq<Line>, open: Line, body: seq<Line>)
    requires Run(pre, |pre|).Ok? && Run(pre, |pre|).value.fence.None? && Run(pre, |pre|).value.evidence.None?
    requires open.Fence? && Inside(open, body)
    ensures Parse(pre + [open] + body) == Err(0, UnclosedFence)
  {
    hide Run, Flush;
    BodyIsSkipped(pre, open, body, [], |body|);
    assert pre + [open] + body + [] == pre + [open] + body;
  }

  function Blanks(n: nat): seq<Line> { seq(n, _ => Blank(0)) }

  lemma {:induction false} BlanksAreSkipped(pre: seq<Line>, n: nat, more: seq<Line>, k: nat)
    requires Run(pre, |pre|).Ok? && Run(pre, |pre|).value.fence.None? && Run(pre, |pre|).value.evidence.None?
    requires 1 <= k <= n
    ensures Run(pre + Blanks(n) + more, |pre| + k) == Ok(Flush(Run(pre, |pre|).value))
  {
    hide Step, Flush;
    var lines, st := pre + Blanks(n) + more, Run(pre, |pre|).value;
    assert lines[|pre| + k - 1] == Blank(0);
    if k == 1 {
      assert lines == pre + (Blanks(n) + more);
      SameBeginning(pre, Blanks(n) + more, |pre|);
      BlankFlushes(st, |pre| + 1);
    } else {
      BlanksAreSkipped(pre, n, more, k - 1);
      BlankFlushes(st, |pre| + k);
    }
  }

  lemma BlankFlushes(st: State, no: nat)
    requires st.fence.None? && st.evidence.None?
    ensures Step(st, Blank(0), no) == Ok(Flush(st)) && Step(Flush(st), Blank(0), no) == Ok(Flush(st))
  {
    assert st.(evidence := None) == st;
    assert Flush(Flush(st)) == Flush(st) && Flush(st).(evidence := None) == Flush(st);
    hide Flush;
  }

  /** A closed fence and all between: the same as so many blank lines. */
  lemma FencedBlockIsBlank(pre: seq<Line>, open: Line, body: seq<Line>, close: Line, post: seq<Line>)
    requires Run(pre, |pre|).Ok? && Run(pre, |pre|).value.fence.None? && Run(pre, |pre|).value.evidence.None?
    requires open.Fence? && Inside(open, body)
    requires close.Fence? && close.delimiter == open.delimiter && close.length >= open.length
    ensures Parse(pre + [open] + body + [close] + post) == Parse(pre + Blanks(|body| + 2) + post)
  {
    hide Step, Flush, Run;
    var lines, blank, end := pre + [open] + body + [close] + post, pre + Blanks(|body| + 2) + post, |pre| + |body| + 2;
    FencedBlockRuns(pre, open, body, close, post);
    BlanksAreSkipped(pre, |body| + 2, post, |body| + 2);
    assert lines[end..] == post == blank[end..];
    SameFrom(lines, blank, end, |lines|);
  }

  lemma FencedBlockRuns(pre: seq<Line>, open: Line, body: seq<Line>, close: Line, post: seq<Line>)
    requires Run(pre, |pre|).Ok? && Run(pre, |pre|).value.fence.None? && Run(pre, |pre|).value.evidence.None?
    requires open.Fence? && Inside(open, body)
    requires close.Fence? && close.delimiter == open.delimiter && close.length >= open.length
    ensures Run(pre + [open] + body + [close] + post, |pre| + |body| + 2) == Ok(Flush(Run(pre, |pre|).value))
  {
    hide Step, Flush;
    var lines, end := pre + [open] + body + [close] + post, |pre| + |body| + 2;
    assert lines == pre + [open] + body + ([close] + post) && lines[end - 1] == close;
    BodyIsSkipped(pre, open, body, [close] + post, |body|);
    ClosingLine(Run(pre, |pre|).value, open, close, end);
  }

  lemma ClosingLine(st: State, open: Line, close: Line, no: nat)
    requires st.evidence.None? && st.fence.None? && open.Fence?
    requires close.Fence? && close.delimiter == open.delimiter && close.length >= open.length
    ensures Step(Flush(st).(fence := Some(OpenFence(open.delimiter, open.length))), close, no) == Ok(Flush(st))
  {
    var flushed := Flush(st);
    assert flushed.pending.None? && flushed.fence.None? && flushed.evidence.None?;
    hide Flush;
  }
}
