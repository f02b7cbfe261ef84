/**
 The line-level diff preview of a governed file: a longest-common-subsequence table
 filled in place in a flattened `Uint32Array`, then a greedy walk over it.
 */
module LineDiff {
  import Shared = Common

  newtype uint32 = x: int | 0 <= x < 0x1_0000_0000

  const MAX_LCS_CELLS := 1_000_000

  datatype Diff = Diff(removed: seq<string>, added: seq<string>)

  // ---------------------------------------------------------------- lines

  /** `text.split('\n')`: never empty, and no line holds a newline. */
  function Lines(text: string): (lines: seq<string>)
    ensures |lines| > 0
  {
    if text == "" then [""]
    else
      var rest := Lines(text[1..]);
      if text[0] == '\n' then [""] + rest else [[text[0]] + rest[0]] + rest[1..]
  }

  function Unlines(lines: seq<string>): string
    requires |lines| > 0
  {
    if |lines| == 1 then lines[0] else lines[0] + "\n" + Unlines(lines[1..])
  }

  lemma LongerFirstLine(c: char, lines: seq<string>)
    requires |lines| > 0
    ensures Unlines([[c] + lines[0]] + lines[1..]) == [c] + Unlines(lines)
  {
    var longer := [[c] + lines[0]] + lines[1..];
    assert longer[1..] == lines[1..];
    if |lines| > 1 {
      Shared.Regroup([c], lines[0], "\n");
      Shared.Regroup([c], lines[0] + "\n", Unlines(lines[1..]));
    }
  }

  /** Splitting loses nothing, so two texts are equal exactly when their lines are. */
  lemma {:induction false} LinesRoundTrip(text: string)
    ensures Unlines(Lines(text)) == text
  {
    if text == "" {
    } else {
      LinesRoundTrip(text[1..]);
      var rest := Lines(text[1..]);
      assert text == [text[0]] + text[1..];
      if text[0] == '\n' {
        assert ([""] + rest)[1..] == rest;
      } else {
        LongerFirstLine(text[0], rest);
      }
    }
  }

  lemma {:induction false} NoLineHoldsANewline(text: string)
    ensures forall line :: line in Lines(text) ==> '\n' !in line
  {
    if text == "" {
    } else {
      NoLineHoldsANewline(text[1..]);
      var rest := Lines(text[1..]);
      assert rest[0] in rest && forall line :: line in rest[1..] ==> line in rest;
    }
  }

  /** The split: there are no other lines, none holding a newline, that make up the text. */
  lemma LinesIsTheSplit(text: string, lines: seq<string>)
    requires |lines| > 0
    ensures lines == Lines(text) <==> Unlines(lines) == text && forall line :: line in lines ==> '\n' !in line
  {
    LinesRoundTrip(text);
    NoLineHoldsANewline(text);
    if Unlines(lines) == text && forall line :: line in lines ==> '\n' !in line {
      SplitAgain(text, lines);
    }
  }

  lemma {:induction false} SplitAgain(text: string, lines: seq<string>)
    requires |lines| > 0 && Unlines(lines) == text && forall line :: line in lines ==> '\n' !in line
    ensures lines == Lines(text)
    decreases |text|
  {
    var first, more := lines[0], lines[1..];
    assert first in lines;
    if first != "" {
      var shorter := [first[1..]] + more;
      assert shorter[1..] == more;
      assert Unlines(shorter) == text[1..];
      assert text[0] == first[0] && first[0] in first;
      SplitAgain(text[1..], shorter);
      assert first == [first[0]] + first[1..];
    } else if more != [] {
      assert text == "\n" + Unlines(more);
      assert text[1..] == Unlines(more);
      SplitAgain(text[1..], more);
    }
  }

  // ---------------------------------------------------------------- meaning

  ghost predicate Subsequence(c: seq<string>, s: seq<string>) {
    || c == []
    || (s != [] && (Subsequence(c, s[1..]) || (c[0] == s[0] && Subsequence(c[1..], s[1..]))))
  }

  ghost predicate Common(c: seq<string>, b: seq<string>, a: seq<string>) {
    Subsequence(c, b) && Subsequence(c, a)
  }

  /** `whole` is `left` and `right` merged, each keeping its own order. */
  ghost predicate Interleaving(left: seq<string>, right: seq<string>, whole: seq<string>) {
    if whole == [] then left == [] && right == []
    else
      || (left != [] && left[0] == whole[0] && Interleaving(left[1..], right, whole[1..]))
      || (right != [] && right[0] == whole[0] && Interleaving(left, right[1..], whole[1..]))
  }

  /** An exact edit script: what is kept is the same, in the same order, on both sides. */
  ghost predicate Script(b: seq<string>, a: seq<string>, d: Diff, kept: seq<string>) {
    Interleaving(d.removed, kept, b) && Interleaving(d.added, kept, a)
  }

  ghost predicate Minimal(b: seq<string>, a: seq<string>, d: Diff) {
    forall d': Diff, kept: seq<string> {:trigger Script(b, a, d', kept)} :: Script(b, a, d', kept) ==>
      |d.removed| + |d.added| <= |d'.removed| + |d'.added|
  }

  // ---------------------------------------------------------------- the recurrence

  function Longest(b: seq<string>, a: seq<string>): nat {
    if b == [] || a == [] then 0
    else if b[0] == a[0] then Longest(b[1..], a[1..]) + 1
    else if Longest(b[1..], a) >= Longest(b, a[1..]) then Longest(b[1..], a) else Longest(b, a[1..])
  }

  lemma {:induction false} SubsequenceTail(c: seq<string>, s: seq<string>)
    requires c != [] && Subsequence(c, s)
    ensures Subsequence(c[1..], s)
    ensures Subsequence(c[1..], s[1..])
  {
    if Subsequence(c, s[1..]) {
      SubsequenceTail(c, s[1..]);
    }
  }

  /** No common subsequence beats the recurrence. */
  lemma {:induction false} LongestBounds(b: seq<string>, a: seq<string>, c: seq<string>)
    requires Common(c, b, a)
    ensures |c| <= Longest(b, a)
    decreases |b| + |a|
  {
    if c == [] {
    } else if b[0] == a[0] {
      SubsequenceTail(c, b);
      SubsequenceTail(c, a);
      LongestBounds(b[1..], a[1..], c[1..]);
    } else if Subsequence(c, b[1..]) {
      LongestBounds(b[1..], a, c);
    } else {
      LongestBounds(b, a[1..], c);
    }
  }

  lemma {:induction false} LongestIsSmall(b: seq<string>, a: seq<string>)
    ensures Longest(b, a) <= |b| && Longest(b, a) <= |a|
    decreases |b| + |a|
  {
    if b != [] && a != [] {
      LongestIsSmall(b[1..], a[1..]);
      LongestIsSmall(b[1..], a);
      LongestIsSmall(b, a[1..]);
    }
  }

  // ---------------------------------------------------------------- the walk

  /** The greedy walk, as a function of the two remaining suffixes. */
  function Walk(b: seq<string>, a: seq<string>): Diff
    decreases |b| + |a|
  {
    if b == [] || a == [] then Diff(b, a)
    else if b[0] == a[0] then Walk(b[1..], a[1..])
    else if Longest(b[1..], a) >= Longest(b, a[1..]) then
      var d := Walk(b[1..], a);
      Diff([b[0]] + d.removed, d.added)
    else
      var d := Walk(b, a[1..]);
      Diff(d.removed, [a[0]] + d.added)
  }

  /** The lines the walk keeps. */
  ghost function Kept(b: seq<string>, a: seq<string>): seq<string>
    decreases |b| + |a|
  {
    if b == [] || a == [] then []
    else if b[0] == a[0] then [b[0]] + Kept(b[1..], a[1..])
    else if Longest(b[1..], a) >= Longest(b, a[1..]) then Kept(b[1..], a)
    else Kept(b, a[1..])
  }

  function Preview(before: string, after: string): Diff {
    var b, a := Lines(before), Lines(after);
    if before == after then Diff([], [])
    else if (|b| + 1) * (|a| + 1) > MAX_LCS_CELLS then Diff(b, a)
    else Walk(b, a)
  }

  lemma {:induction false} InterleavingAlone(s: seq<string>)
    ensures Interleaving(s, [], s) && Interleaving([], s, s)
  {
    if s == [] {
    } else {
      InterleavingAlone(s[1..]);
    }
  }

  lemma {:induction false} InterleavingFacts(left: seq<string>, right: seq<string>, whole: seq<string>)
    requires Interleaving(left, right, whole)
    ensures |left| + |right| == |whole|
    ensures Subsequence(right, whole)
  {
    if whole == [] {
    } else {
      if left != [] && left[0] == whole[0] && Interleaving(left[1..], right, whole[1..]) {
        InterleavingFacts(left[1..], right, whole[1..]);
      } else {
        InterleavingFacts(left, right[1..], whole[1..]);
      }
    }
  }

  lemma {:induction false} WalkIsScript(b: seq<string>, a: seq<string>)
    ensures Script(b, a, Walk(b, a), Kept(b, a))
    ensures |Kept(b, a)| == Longest(b, a)
    decreases |b| + |a|
  {
    if b == [] || a == [] {
      InterleavingAlone(b);
      InterleavingAlone(a);
    } else if b[0] == a[0] {
      WalkIsScript(b[1..], a[1..]);
      assert Kept(b, a)[1..] == Kept(b[1..], a[1..]);
    } else if Longest(b[1..], a) >= Longest(b, a[1..]) {
      WalkIsScript(b[1..], a);
      assert Walk(b, a).removed[1..] == Walk(b[1..], a).removed;
    } else {
      WalkIsScript(b, a[1..]);
      assert Walk(b, a).added[1..] == Walk(b, a[1..]).added;
    }
  }

  /** What a script costs is fixed by how much it keeps. */
  lemma ScriptCost(b: seq<string>, a: seq<string>, d: Diff, kept: seq<string>)
    requires Script(b, a, d, kept)
    ensures |d.removed| + |d.added| + 2 * |kept| == |b| + |a|
    ensures |kept| <= Longest(b, a)
  {
    InterleavingFacts(d.removed, kept, b);
    InterleavingFacts(d.added, kept, a);
    LongestBounds(b, a, kept);
  }

  /** The table value is the maximum length of a common subsequence: a bound, and reached. */
  lemma LongestIsMaximum(b: seq<string>, a: seq<string>)
    ensures Common(Kept(b, a), b, a) && |Kept(b, a)| == Longest(b, a)
    ensures forall c {:trigger Common(c, b, a)} :: Common(c, b, a) ==> |c| <= Longest(b, a)
  {
    WalkIsScript(b, a);
    InterleavingFacts(Walk(b, a).removed, Kept(b, a), b);
    InterleavingFacts(Walk(b, a).added, Kept(b, a), a);
    forall c {:trigger Common(c, b, a)} | Common(c, b, a)
      ensures |c| <= Longest(b, a)
    {
      LongestBounds(b, a, c);
    }
  }

  lemma {:induction false} WalkOfEqual(s: seq<string>)
    ensures Walk(s, s) == Diff([], []) && Kept(s, s) == s
  {
    if s == [] {
    } else {
      WalkOfEqual(s[1..]);
    }
  }

  /** Of two lines that differ, the walk removes the first one unless every longest common subsequence needs it. */
  lemma RemovesWhenItCan(b: seq<string>, a: seq<string>)
    requires b != [] && a != [] && b[0] != a[0]
    ensures var free := exists c {:trigger Common(c, b[1..], a)} :: Common(c, b[1..], a) && |c| == Longest(b, a);
            Walk(b, a) == if free then
                            var d := Walk(b[1..], a); Diff([b[0]] + d.removed, d.added)
                          else
                            var d := Walk(b, a[1..]); Diff(d.removed, [a[0]] + d.added)
  {
    LongestIsMaximum(b[1..], a);
    assert Common(Kept(b[1..], a), b[1..], a);
  }

  // ---------------------------------------------------------------- theorems

  /** Every preview, whichever branch produced it, is an exact edit script. */
  lemma PreviewIsExact(before: string, after: string)
    ensures exists kept {:trigger Script(Lines(before), Lines(after), Preview(before, after), kept)} ::
              Script(Lines(before), Lines(after), Preview(before, after), kept)
  {
    var b, a := Lines(before), Lines(after);
    InterleavingAlone(b);
    InterleavingAlone(a);
    WalkIsScript(b, a);
    if before == after {
      assert Script(b, a, Preview(before, after), b);
    } else if (|b| + 1) * (|a| + 1) > MAX_LCS_CELLS {
      assert Script(b, a, Preview(before, after), []);
    } else {
      assert Script(b, a, Preview(before, after), Kept(b, a));
    }
  }

  /** The equal-input shortcut is what the table and the walk would have produced. */
  lemma ShortcutAgreesWithWalk(before: string, after: string)
    ensures before == after <==> Lines(before) == Lines(after)
    ensures before == after ==> Preview(before, after) == Walk(Lines(before), Lines(after))
    ensures Preview(before, after) == Diff([], []) <==> before == after
  {
    LinesRoundTrip(before);
    LinesRoundTrip(after);
    WalkOfEqual(Lines(before));
    if before != after && Preview(before, after) == Diff([], []) {
      PreviewIsExact(before, after);
      var kept :| Script(Lines(before), Lines(after), Preview(before, after), kept);
      NothingRemoved(kept, Lines(before));
      NothingRemoved(kept, Lines(after));
    }
  }

  lemma {:induction false} NothingRemoved(right: seq<string>, whole: seq<string>)
    requires Interleaving([], right, whole)
    ensures right == whole
  {
    if whole == [] {
    } else {
      NothingRemoved(right[1..], whole[1..]);
      assert right == [right[0]] + right[1..] && whole == [whole[0]] + whole[1..];
    }
  }

  /**
   Exactly when the preview is a shortest script: always below the table's size cap and
   on equal inputs; above the cap the full replacement is shortest only if the two texts
   share no line at all.
   */
  lemma PreviewIsMinimal(before: string, after: string)
    ensures
      var b, a := Lines(before), Lines(after);
      Minimal(b, a, Preview(before, after)) <==>
        || before == after
        || (|b| + 1) * (|a| + 1) <= MAX_LCS_CELLS
        || forall line :: line in b ==> line !in a
  {
    var b, a := Lines(before), Lines(after);
    ShortcutAgreesWithWalk(before, after);
    WalkMinimal(b, a);
    FullReplacement(b, a);
    hide Minimal, Lines, Walk;
  }

  /** Taking everything out and putting everything in is shortest only where nothing could be kept. */
  lemma FullReplacement(b: seq<string>, a: seq<string>)
    ensures Minimal(b, a, Diff(b, a)) <==> forall line :: line in b ==> line !in a
  {
    WalkIsScript(b, a);
    ScriptCost(b, a, Walk(b, a), Kept(b, a));
    if line :| line in b && line in a {
      SharedLineIsCommon(line, b);
      SharedLineIsCommon(line, a);
      LongestBounds(b, a, [line]);
      assert Script(b, a, Walk(b, a), Kept(b, a));
    } else {
      NoSharedLine(b, a);
      WalkMinimal(b, a);
    }
  }

  function Newlines(n: nat): string { seq(n, _ => '\n') }

  lemma {:induction false} BlankLines(n: nat)
    ensures |Lines(Newlines(n))| == n + 1 && "" in Lines(Newlines(n))
  {
    if n == 0 {
    } else {
      assert Newlines(n)[1..] == Newlines(n - 1) && Newlines(n)[0] == '\n';
      BlankLines(n - 1);
    }
  }

  /** Past the table's size cap, a thousand blank lines against one more: the preview is not minimal. */
  lemma CapCostsMinimality(n: nat)
    requires n >= 1000
    ensures !Minimal(Lines(Newlines(n)), Lines(Newlines(n + 1)), Preview(Newlines(n), Newlines(n + 1)))
  {
    BlankLines(n);
    BlankLines(n + 1);
    PreviewIsMinimal(Newlines(n), Newlines(n + 1));
    assert |Newlines(n)| != |Newlines(n + 1)|;
    assert (n + 2) * (n + 3) >= 1002 * 1003 by { Scaled(1002, n + 2, 1003); Scaled(1003, n + 3, n + 2); }
    hide Lines, Preview, Minimal, Newlines;
  }

  lemma WalkMinimal(b: seq<string>, a: seq<string>)
    ensures Minimal(b, a, Walk(b, a))
  {
    WalkIsScript(b, a);
    ScriptCost(b, a, Walk(b, a), Kept(b, a));
    forall d': Diff, kept: seq<string> {:trigger Script(b, a, d', kept)} | Script(b, a, d', kept)
      ensures |Walk(b, a).removed| + |Walk(b, a).added| <= |d'.removed| + |d'.added|
    {
      ScriptCost(b, a, d', kept);
    }
  }

  lemma {:induction false} SharedLineIsCommon(line: string, s: seq<string>)
    requires line in s
    ensures Subsequence([line], s)
  {
    if s[0] != line {
      SharedLineIsCommon(line, s[1..]);
    }
  }

  lemma {:induction false} NoSharedLine(b: seq<string>, a: seq<string>)
    requires forall line :: line in b ==> line !in a
    ensures Longest(b, a) == 0
    decreases |b| + |a|
  {
    if b != [] && a != [] {
      assert b[0] in b && a[0] in a;
      NoSharedLine(b[1..], a);
      NoSharedLine(b, a[1..]);
    }
  }

  // ---------------------------------------------------------------- the array code

  /** What cell `k` of the flattened table must hold. */
  ghost function CellValue(b: seq<string>, a: seq<string>, k: nat): nat
    requires k < (|b| + 1) * (|a| + 1)
  {
    CellSplit(|b|, |a| + 1, k);
    Longest(b[k / (|a| + 1)..], a[k % (|a| + 1)..])
  }

  lemma CellSplit(rows: nat, columns: nat, k: nat)
    requires 0 < columns && k < (rows + 1) * columns
    ensures 0 <= k / columns <= rows && 0 <= k % columns < columns
  {
    if k / columns > rows {
      Scaled(rows + 1, k / columns, columns);
    }
  }

  lemma Scaled(x: nat, y: nat, columns: nat)
    requires x <= y
    ensures x * columns <= y * columns
  {
  }

  lemma QuotientIsUnique(columns: nat, p: nat, q: nat, i: nat, j: nat)
    requires q < columns && j < columns
    requires p * columns + q == i * columns + j
    ensures p == i && q == j
  {
    if p < i {
      Scaled(p + 1, i, columns);
    } else if i < p {
      Scaled(i + 1, p, columns);
    }
  }

  lemma CellIndex(columns: nat, i: nat, j: nat)
    requires j < columns
    ensures (i * columns + j) / columns == i && (i * columns + j) % columns == j
  {
    var k := i * columns + j;
    QuotientIsUnique(columns, k / columns, k % columns, i, j);
  }

  /** Flattened indices stay in bounds and address the cell they are meant to. */
  lemma CellAt(b: seq<string>, a: seq<string>, i: nat, j: nat)
    requires i <= |b| && j <= |a|
    ensures 0 <= i * (|a| + 1) + j < (|b| + 1) * (|a| + 1)
    ensures CellValue(b, a, i * (|a| + 1) + j) == Longest(b[i..], a[j..])
    ensures Longest(b[i..], a[j..]) <= |b|
  {
    Scaled(i, |b|, |a| + 1);
    CellIndex(|a| + 1, i, j);
    LongestIsSmall(b[i..], a[j..]);
  }

  ghost predicate FilledFrom(lcs: seq<uint32>, b: seq<string>, a: seq<string>, from: nat)
    requires |lcs| == (|b| + 1) * (|a| + 1)
  {
    && (forall k {:trigger lcs[k]} :: from <= k < |lcs| ==> lcs[k] as int == CellValue(b, a, k))
    && (forall k {:trigger lcs[k]} :: 0 <= k < from && k < |lcs| ==> lcs[k] == 0)
  }

  /** A cell outside the last row and column, from its three neighbours. */
  lemma CellStep(b: seq<string>, a: seq<string>, i: nat, j: nat)
    requires i < |b| && j < |a|
    ensures Longest(b[i..], a[j..]) ==
            if b[i] == a[j] then Longest(b[i + 1..], a[j + 1..]) + 1
            else if Longest(b[i + 1..], a[j..]) >= Longest(b[i..], a[j + 1..]) then Longest(b[i + 1..], a[j..])
            else Longest(b[i..], a[j + 1..])
  {
    assert b[i..][1..] == b[i + 1..] && a[j..][1..] == a[j + 1..];
  }

  /** The last row is never written either: a table of zeroes is filled from there on. */
  lemma LastRow(lcs: seq<uint32>, b: seq<string>, a: seq<string>)
    requires |lcs| == (|b| + 1) * (|a| + 1)
    requires forall k :: 0 <= k < |lcs| ==> lcs[k] == 0
    ensures FilledFrom(lcs, b, a, |b| * (|a| + 1))
  {
    forall k | |b| * (|a| + 1) <= k < |lcs| ensures CellValue(b, a, k) == 0 {
      CellAt(b, a, |b|, k - |b| * (|a| + 1));
    }
  }

  /** The double loop: cells are written once each, from the last to the first, in place. */
  method FillTable(b: seq<string>, a: seq<string>) returns (lcs: array<uint32>)
    requires (|b| + 1) * (|a| + 1) <= MAX_LCS_CELLS
    ensures fresh(lcs) && lcs.Length == (|b| + 1) * (|a| + 1)
    ensures FilledFrom(lcs[..], b, a, 0)
  {
    var columns := |a| + 1;
    var cells := (|b| + 1) * columns;
    lcs := new uint32[cells](_ => 0);
    var i := |b|;
    LastRow(lcs[..], b, a);
    hide FilledFrom;
    while i > 0
      invariant 0 <= i <= |b|
      invariant FilledFrom(lcs[..], b, a, i * columns)
    {
      i := i - 1;
      FillRow(lcs, b, a, i);
    }
  }

  method FillRow(lcs: array<uint32>, b: seq<string>, a: seq<string>, i: nat)
    requires (|b| + 1) * (|a| + 1) <= MAX_LCS_CELLS
    requires i < |b| && lcs.Length == (|b| + 1) * (|a| + 1)
    requires FilledFrom(lcs[..], b, a, (i + 1) * (|a| + 1))
    modifies lcs
    ensures FilledFrom(lcs[..], b, a, i * (|a| + 1))
  {
    var j := |a|;
    LastColumn(lcs[..], b, a, i);
    Scaled(1, |a| + 1, |b| + 1);
    while j > 0
      invariant 0 <= j <= |a|
      invariant FilledFrom(lcs[..], b, a, i * (|a| + 1) + j)
    {
      j := j - 1;
      var cell := i * (|a| + 1) + j;
      var below := cell + (|a| + 1);
      CellFilled(lcs[..], b, a, i, j, cell, below);
      FillCell(lcs, b[i] == a[j], cell, below);
    }
  }

  /** The last column is never written: the zero it was created with is already right. */
  lemma LastColumn(lcs: seq<uint32>, b: seq<string>, a: seq<string>, i: nat)
    requires i < |b| && |lcs| == (|b| + 1) * (|a| + 1)
    requires FilledFrom(lcs, b, a, (i + 1) * (|a| + 1))
    ensures FilledFrom(lcs, b, a, i * (|a| + 1) + |a|)
  {
    var last := i * (|a| + 1) + |a|;
    CellAt(b, a, i, |a|);
    NextRow(|a| + 1, i, 0);
    assert CellValue(b, a, last) == 0;
    hide CellValue, Longest;
    assert lcs[last] == 0;
  }

  /** One cell from its neighbours below, to the right, and diagonally below. */
  function CellFrom(lcs: seq<uint32>, same: bool, cell: nat, below: nat): uint32
    requires cell < below < below + 1 < |lcs|
    requires same ==> lcs[below + 1] as int < MAX_LCS_CELLS
  {
    if same then lcs[below + 1] + 1 else if lcs[below] >= lcs[cell + 1] then lcs[below] else lcs[cell + 1]
  }

  method FillCell(lcs: array<uint32>, same: bool, cell: nat, below: nat)
    requires cell < below < below + 1 < lcs.Length
    requires same ==> lcs[below + 1] as int < MAX_LCS_CELLS
    modifies lcs
    ensures lcs[..] == old(lcs[..])[cell := CellFrom(old(lcs[..]), same, cell, below)]
  {
    lcs[cell] := if same then lcs[below + 1] + 1
                 else if lcs[below] >= lcs[cell + 1] then lcs[below] else lcs[cell + 1];
  }

  lemma CellFilled(lcs: seq<uint32>, b: seq<string>, a: seq<string>, i: nat, j: nat, cell: nat, below: nat)
    requires |b| <= MAX_LCS_CELLS
    requires i < |b| && j < |a| && |lcs| == (|b| + 1) * (|a| + 1)
    requires cell == i * (|a| + 1) + j && below == cell + (|a| + 1)
    requires FilledFrom(lcs, b, a, cell + 1)
    ensures cell < below < below + 1 < |lcs| && lcs[below + 1] as int < MAX_LCS_CELLS
    ensures FilledFrom(lcs[cell := CellFrom(lcs, b[i] == a[j], cell, below)], b, a, cell)
  {
    RowNeighbours(b, a, i, j, cell, below);
    assert lcs[below + 1] as int == CellValue(b, a, below + 1);
    assert lcs[below] as int == CellValue(b, a, below);
    assert lcs[cell + 1] as int == CellValue(b, a, cell + 1);
  }

  lemma NextRow(columns: nat, i: nat, j: nat)
    ensures (i + 1) * columns + j == i * columns + j + columns
  {
  }

  /** The recurrence, on flattened indices: `below` is one row further down. */
  lemma RowNeighbours(b: seq<string>, a: seq<string>, i: nat, j: nat, cell: nat, below: nat)
    requires i < |b| && j < |a|
    requires cell == i * (|a| + 1) + j && below == cell + (|a| + 1)
    ensures cell < below < below + 1 < (|b| + 1) * (|a| + 1)
    ensures CellValue(b, a, below + 1) < |b|
    ensures CellValue(b, a, cell) ==
            if b[i] == a[j] then CellValue(b, a, below + 1) + 1
            else if CellValue(b, a, below) >= CellValue(b, a, cell + 1) then CellValue(b, a, below)
            else CellValue(b, a, cell + 1)
  {
    NeighbourAt(b, a, i, j, below);
    NeighbourAt(b, a, i, j + 1, below + 1);
    CellAt(b, a, i, j);
    CellAt(b, a, i, j + 1);
    CellStep(b, a, i, j);
    LongestIsSmall(b[i + 1..], a[j + 1..]);
  }

  lemma NeighbourAt(b: seq<string>, a: seq<string>, i: nat, j: nat, below: nat)
    requires i < |b| && j <= |a| && below == i * (|a| + 1) + j + (|a| + 1)
    ensures below < (|b| + 1) * (|a| + 1) && CellValue(b, a, below) == Longest(b[i + 1..], a[j..])
  {
    NextRow(|a| + 1, i, j);
    CellAt(b, a, i + 1, j);
  }

  /** The two cells the walk compares. */
  lemma ComparedCells(lcs: seq<uint32>, b: seq<string>, a: seq<string>, i: nat, j: nat)
    requires i < |b| && j < |a| && |lcs| == (|b| + 1) * (|a| + 1)
    requires FilledFrom(lcs, b, a, 0)
    ensures 0 <= (i + 1) * (|a| + 1) + j < |lcs| && 0 <= i * (|a| + 1) + j + 1 < |lcs|
    ensures lcs[(i + 1) * (|a| + 1) + j] as int == Longest(b[i + 1..], a[j..])
    ensures lcs[i * (|a| + 1) + j + 1] as int == Longest(b[i..], a[j + 1..])
  {
    CellAt(b, a, i + 1, j);
    CellAt(b, a, i, j + 1);
    var below, right := (i + 1) * (|a| + 1) + j, i * (|a| + 1) + j + 1;
    assert lcs[below] as int == CellValue(b, a, below);
    assert lcs[right] as int == CellValue(b, a, right);
  }

  lemma WalkStep(b: seq<string>, a: seq<string>, i: nat, j: nat)
    requires i < |b| && j < |a|
    ensures Walk(b[i..], a[j..]) ==
            if b[i] == a[j] then Walk(b[i + 1..], a[j + 1..])
            else if Longest(b[i + 1..], a[j..]) >= Longest(b[i..], a[j + 1..]) then
              var d := Walk(b[i + 1..], a[j..]); Diff([b[i]] + d.removed, d.added)
            else
              var d := Walk(b[i..], a[j + 1..]); Diff(d.removed, [a[j]] + d.added)
  {
    assert b[i..][1..] == b[i + 1..] && a[j..][1..] == a[j + 1..];
  }

  /** `d` after what has already been pushed. */
  ghost function Pushed(removed: seq<string>, added: seq<string>, d: Diff): Diff {
    Diff(removed + d.removed, added + d.added)
  }

  lemma PushedOne(removed: seq<string>, added: seq<string>, d: Diff, line: string)
    ensures Pushed(removed, added, Diff([line] + d.removed, d.added)) == Pushed(removed + [line], added, d)
    ensures Pushed(removed, added, Diff(d.removed, [line] + d.added)) == Pushed(removed, added + [line], d)
  {
    assert removed + ([line] + d.removed) == (removed + [line]) + d.removed;
    assert added + ([line] + d.added) == (added + [line]) + d.added;
  }

  lemma NothingPushed(d: Diff)
    ensures Pushed([], [], d) == d
  {
    assert [] + d.removed == d.removed && [] + d.added == d.added;
  }

  /** What is pushed once the walk has used up one side. */
  lemma SideLeft(removed: seq<string>, added: seq<string>, b: seq<string>, a: seq<string>)
    requires b == [] || a == []
    ensures Pushed(removed, added, Walk(b, a)) == Diff(removed + b, added + a)
  {
  }

  method PrefersRemoval(lcs: array<uint32>, b: seq<string>, a: seq<string>, i: nat, j: nat) returns (removal: bool)
    requires i < |b| && j < |a| && lcs.Length == (|b| + 1) * (|a| + 1)
    requires FilledFrom(lcs[..], b, a, 0)
    ensures removal == (Longest(b[i + 1..], a[j..]) >= Longest(b[i..], a[j + 1..]))
  {
    ComparedCells(lcs[..], b, a, i, j);
    var columns := |a| + 1;
    removal := lcs[(i + 1) * columns + j] >= lcs[i * columns + j + 1];
  }

  /** The preview as the source computes it; all it promises is proved about `Preview`. */
  method JsonDiffPreview(before: string, after: string) returns (removed: seq<string>, added: seq<string>)
    ensures Diff(removed, added) == Preview(before, after)
  {
    var b, a := Lines(before), Lines(after);
    if before == after { return [], []; }
    var columns := |a| + 1;
    if (|b| + 1) * columns > MAX_LCS_CELLS { return b, a; }
    var lcs := FillTable(b, a);
    removed, added := [], [];
    var i, j := 0, 0;
    assert b[0..] == b && a[0..] == a;
    NothingPushed(Walk(b, a));
    hide Walk, Longest, FilledFrom;
    while i < |b| && j < |a|
      invariant 0 <= i <= |b| && 0 <= j <= |a|
      invariant FilledFrom(lcs[..], b, a, 0)
      invariant Pushed(removed, added, Walk(b[i..], a[j..])) == Walk(b, a)
      decreases |b| - i + |a| - j
    {
      WalkStep(b, a, i, j);
      var removal := PrefersRemoval(lcs, b, a, i, j);
      if b[i] == a[j] {
        i, j := i + 1, j + 1;
      } else if removal {
        PushedOne(removed, added, Walk(b[i + 1..], a[j..]), b[i]);
        removed := removed + [b[i]];
        i := i + 1;
      } else {
        PushedOne(removed, added, Walk(b[i..], a[j + 1..]), a[j]);
        added := added + [a[j]];
        j := j + 1;
      }
    }
    SideLeft(removed, added, b[i..], a[j..]);
    removed := removed + b[i..];
    added := added + a[j..];
  }
}
