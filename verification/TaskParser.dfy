/**
 The parser as the source runs it: one pass over the lines, updating the variables that
 its nested helpers share -- the roots so far, the open fence, the evidence indent and the
 metadata still pending. Everything promised is proved about `TaskHierarchy.Parse`.
 */
module TaskParser {
  import opened Common
  import opened TaskHierarchy

  class Parser {
    var roots: seq<TaskRoot>
    var fence: Option<OpenFence>
    var evidenceIndent: Option<nat>
    var pending: Option<Pending>

    function View(): State
      reads this
    {
      State(roots, fence, evidenceIndent, pending)
    }

    constructor ()
      ensures View() == INIT
    {
      roots, fence, evidenceIndent, pending := [], None, None, None;
    }

    method FlushMetadata()
      modifies this
      ensures View() == Flush(old(View()))
    {
      if pending.Some? && roots != [] {
        var p := pending.value;
        roots := WithLast(roots, OnOwner(Last(roots), p.onRoot, Values(p.text)));
      }
      pending := None;
    }

    method PushMetadata(onRoot: bool, text: Text, indent: nat)
      modifies this
      ensures View() == AddMetadata(old(View()), onRoot, text, indent)
    {
      if pending.Some? && pending.value.onRoot == onRoot {
        pending := Some(pending.value.(text := pending.value.text + text));
      } else {
        FlushMetadata();
        pending := Some(Pending(onRoot, text, indent));
      }
    }

    method OpenRoot(line: Line, no: nat) returns (refused: Option<Reason>)
      requires line.Root?
      modifies this
      ensures match StepRoot(old(View()), line, no)
              case Ok(st) => refused.None? && View() == st
              case Err(_, reason) => refused == Some(reason)
    {
      if LeadingZeroed(line.ord) { return Some(LeadingZero); }
      if HasRoot(roots, line.ord) { return Some(DuplicateRoot); }
      roots := roots + [TaskRoot(NewNode(RootId(line.ord), no, line.checked, line.text), [])];
      if Leading(line.text) < |line.text| {
        PushMetadata(true, line.text[Leading(line.text)..], 0);
      }
      return None;
    }

    method OpenChild(line: Line, no: nat) returns (refused: Option<Reason>)
      requires line.Child?
      modifies this
      ensures match StepChild(old(View()), line, no)
              case Ok(st) => refused.None? && View() == st
              case Err(_, reason) => refused == Some(reason)
    {
      var id := ChildId(line.major, line.minor);
      if LeadingZeroed(line.major) || LeadingZeroed(line.minor) { return Some(LeadingZero); }
      if roots == [] { return Some(OrphanChild); }
      var root := Last(roots);
      if RootId(line.major) != root.node.ordinal { return Some(ForeignChild); }
      if HasChild(roots, id) { return Some(DuplicateChild); }
      if root.node.evidenceLine.Some? { return Some(ChildAfterEvidence); }
      var child := NewNode(id, no, line.checked, line.text);
      roots := WithLast(roots, root.(children := root.children + [child]));
      if Leading(line.text) < |line.text| {
        PushMetadata(false, line.text[Leading(line.text)..], 4);
      }
      return None;
    }

    method OpenEvidence(indent: nat, no: nat)
      modifies this
      ensures View() == StepEvidence(old(View()), indent, no)
    {
      if roots == [] { return; }
      var root := Last(roots);
      var owner := OwnerAt(root, indent);
      if owner.Some? {
        if owner.value || root.children == [] {
          roots := WithLast(roots, root.(node := root.node.(evidenceLine := Some(no))));
        } else {
          var marked := Last(root.children).(evidenceLine := Some(no));
          roots := WithLast(roots, root.(children := Front(root.children) + [marked]));
        }
        evidenceIndent := Some(indent);
      }
    }

    method Detail(line: Line)
      requires line.Meta? || line.Prose?
      modifies this
      ensures View() == StepDetail(old(View()), line)
    {
      if roots == [] {
        FlushMetadata();
        return;
      }
      var continuationIndent := if pending.None? || pending.value.indent == 0 then 1 else pending.value.indent;
      if line.Prose? && pending.Some? && line.indent >= continuationIndent && !line.dash {
        pending := Some(pending.value.(text := pending.value.text + line.text));
        return;
      }
      var owner := OwnerAt(Last(roots), line.indent);
      if owner.Some? && line.Meta? {
        PushMetadata(owner.value, line.text, line.indent);
      } else {
        FlushMetadata();
      }
    }

    method Accept(line: Line, no: nat) returns (refused: Option<Reason>)
      modifies this
      ensures match Step(old(View()), line, no)
              case Ok(st) => refused.None? && View() == st
              case Err(_, reason) => refused == Some(reason)
    {
      if evidenceIndent.Some? {
        var bullet := Indent(line) == evidenceIndent.value && Bullet(line);
        if line.Blank? || Indent(line) > evidenceIndent.value || bullet { return None; }
        evidenceIndent := None;
      }
      if line.Fence? {
        FlushMetadata();
        if fence.None? {
          fence := Some(OpenFence(line.delimiter, line.length));
        } else if line.delimiter == fence.value.delimiter && line.length >= fence.value.length {
          fence := None;
        }
        return None;
      }
      if fence.Some? { return None; }
      match line
      case Root(_, _, _) =>
        FlushMetadata();
        refused := OpenRoot(line, no);
      case Child(_, _, _, _) =>
        FlushMetadata();
        refused := OpenChild(line, no);
      case Box(_) =>
        FlushMetadata();
        refused := Some(BadCheckbox);
      case Evidence(indent, _) =>
        FlushMetadata();
        OpenEvidence(indent, no);
        refused := None;
      case Blank(_) =>
        FlushMetadata();
        refused := None;
      case Meta(_, _, _) =>
        Detail(line);
        refused := None;
      case Prose(_, _, _) =>
        Detail(line);
        refused := None;
    }
  }

  method ParseTaskHierarchy(lines: seq<Line>) returns (result: Result<seq<TaskRoot>>)
    ensures result == Parse(lines)
  {
    hide Step;
    var parser := new Parser();
    for k := 0 to |lines|
      invariant Run(lines, k) == Ok(parser.View())
    {
      RefusalNamesLine(parser.View(), lines[k], k + 1);
      var refused := parser.Accept(lines[k], k + 1);
      if refused.Some? {
        assert Run(lines, k + 1) == Err(k + 1, refused.value);
        ErrorStays(lines, k + 1, |lines|);
        return Err(k + 1, refused.value);
      }
    }
    if parser.fence.Some? { return Err(0, UnclosedFence); }
    parser.FlushMetadata();
    return Ok(parser.roots);
  }
}
