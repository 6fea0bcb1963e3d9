/** The printed diff of internal/cli/udiff.go: splitting into lines, grouping into hunks and writing
    the unified format, against an independent patch applier that reads nothing but the text. */
module Patch {
  import opened Text
  import opened Diff

  // ----- lines -----------------------------------------------------------------

  /** strings.SplitAfter at newlines. */
  function SplitAfter(s: string): (lines: seq<string>)
    ensures |lines| > 0
    decreases |s|
  {
    var i := IndexOf(s, '\n');
    if i == |s| then [s] else [s[..i + 1]] + SplitAfter(s[i + 1..])
  }

  /** splitDiffLines: the lines of a file, each with its terminator if it has one. */
  function Lines(data: string): seq<string> {
    if data == "" then []
    else
      var lines := SplitAfter(data);
      if lines[|lines| - 1] == "" then lines[..|lines| - 1] else lines
  }

  /** Not empty, and a newline only at the end. */
  predicate IsLine(s: string) {
    s != "" && '\n' !in s[..|s| - 1]
  }

  predicate IsFullLine(s: string) {
    IsLine(s) && s[|s| - 1] == '\n'
  }

  lemma {:induction false} SplitAfterParts(s: string)
    ensures var lines := SplitAfter(s); var n := |lines| - 1;
      && Concat(lines) == s
      && (forall i :: 0 <= i < n ==> IsFullLine(lines[i]))
      && '\n' !in lines[n]
    decreases |s|
  {
    var i := IndexOf(s, '\n');
    if i == |s| {
      assert s[..i] == s;
      assert SplitAfter(s)[1..] == [];
    } else {
      var tail := SplitAfter(s[i + 1..]);
      SplitAfterParts(s[i + 1..]);
      FirstLine(s[..i + 1], tail, s);
      assert SplitAfter(s) == [s[..i + 1]] + tail;
      hide SplitAfter, Concat, IsFullLine, IndexOf;
    }
  }

  lemma FirstLine(line: string, tail: seq<string>, s: string)
    requires |tail| > 0 && |line| > 0 && |line| <= |s| && line == s[..|line|]
    requires '\n' !in line[..|line| - 1] && line[|line| - 1] == '\n'
    requires Concat(tail) == s[|line|..]
    ensures Concat([line] + tail) == s
    ensures IsFullLine(line)
  {
    assert ([line] + tail)[1..] == tail;
  }

  lemma ConcatFront(parts: seq<string>)
    requires parts != [] && parts[|parts| - 1] == ""
    ensures Concat(parts[..|parts| - 1]) == Concat(parts)
  {
    assert parts == parts[..|parts| - 1] + [""];
    ConcatAppend(parts[..|parts| - 1], [""]);
    assert Concat([""]) == "";
    hide Concat;
  }

  lemma FullLineIsLine(lines: seq<string>)
    requires lines != [] && '\n' !in lines[|lines| - 1]
    requires forall i :: 0 <= i < |lines| - 1 ==> IsFullLine(lines[i])
    ensures forall i :: 0 <= i < |lines| - 1 ==> IsLine(lines[i])
    ensures lines[|lines| - 1] != "" ==> IsLine(lines[|lines| - 1])
  {}

  /** Cutting a file into lines loses nothing, and only the last line can lack its newline. */
  lemma LinesJoin(data: string)
    ensures var lines := Lines(data);
      && Concat(lines) == data
      && (forall i :: 0 <= i < |lines| ==> IsLine(lines[i]))
      && (forall i :: 0 <= i < |lines| - 1 ==> IsFullLine(lines[i]))
  {
    if data != "" {
      SplitAfterParts(data);
      hide SplitAfter, Concat, IsFullLine;
      var all := SplitAfter(data);
      if all[|all| - 1] == "" {
        ConcatFront(all);
      }
      FullLineIsLine(all);
    }
  }

  // ----- the printed form --------------------------------------------------------

  const NO_NEWLINE := "\\ No newline at end of file\n"

  function Mark(kind: Kind): char {
    match kind
    case Keep => ' '
    case Delete => '-'
    case Insert => '+'
  }

  function PrintOp(op: Op): string {
    [Mark(op.kind)] +
    (if HasSuffix(op.text, "\n") then op.text[..|op.text| - 1] + "\n" else op.text + "\n" + NO_NEWLINE)
  }

  function Body(ops: seq<Op>): string {
    if ops == [] then "" else PrintOp(ops[0]) + Body(ops[1..])
  }

  /** The `@@` numbers of a hunk: an empty side names the line before it. */
  datatype Range = Range(aStart: nat, aCount: nat, bStart: nat, bCount: nat)

  function RangeOf(ops: seq<Op>): Range
    requires ops != []
  {
    var aCount, bCount := |OldSide(ops)|, |NewSide(ops)|;
    Range(if aCount == 0 then ops[0].aLine - 1 else ops[0].aLine, aCount,
          if bCount == 0 then ops[0].bLine - 1 else ops[0].bLine, bCount)
  }

  function PrintRange(r: Range): string {
    "@@ -" + Decimal(r.aStart) + "," + Decimal(r.aCount) +
    " +" + Decimal(r.bStart) + "," + Decimal(r.bCount) + " @@\n"
  }

  function HunkText(ops: seq<Op>): string
    requires ops != []
  {
    PrintRange(RangeOf(ops)) + Body(ops)
  }

  lemma {:induction false} BodyAppend(x: seq<Op>, y: seq<Op>)
    ensures Body(x + y) == Body(x) + Body(y)
  {
    if x == [] {
      assert x + y == y;
    } else {
      assert (x + y)[1..] == x[1..] + y;
      BodyAppend(x[1..], y);
    }
  }

  /** One more operation on a prefix. */
  lemma OneMore(ops: seq<Op>, k: nat)
    requires k < |ops|
    ensures |OldSide(ops[..k + 1])| == |OldSide(ops[..k])| + if ops[k].kind != Insert then 1 else 0
    ensures |NewSide(ops[..k + 1])| == |NewSide(ops[..k])| + if ops[k].kind != Delete then 1 else 0
    ensures Body(ops[..k + 1]) == Body(ops[..k]) + PrintOp(ops[k])
  {
    assert ops[..k + 1] == ops[..k] + [ops[k]];
    SidesAppend(ops[..k], [ops[k]]);
    BodyAppend(ops[..k], [ops[k]]);
    assert [ops[k]][1..] == [];
  }

  /** writeHunk. */
  method WriteHunk(out: string, ops: seq<Op>) returns (written: string)
    requires ops != []
    ensures written == out + HunkText(ops)
  {
    hide OldSide, NewSide, Body, HasSuffix, Decimal;
    OneMoreNone();
    var aCount, bCount := 0, 0;
    for k := 0 to |ops|
      invariant aCount == |OldSide(ops[..k])| && bCount == |NewSide(ops[..k])|
    {
      OneMore(ops, k);
      if ops[k].kind != Insert {
        aCount := aCount + 1;
      }
      if ops[k].kind != Delete {
        bCount := bCount + 1;
      }
    }
    assert ops[..|ops|] == ops;
    var aStart: nat, bStart: nat := ops[0].aLine, ops[0].bLine;
    if aCount == 0 {
      aStart := aStart - 1;
    }
    if bCount == 0 {
      bStart := bStart - 1;
    }
    var head := "@@ -" + Decimal(aStart) + "," + Decimal(aCount) +
    " +" + Decimal(bStart) + "," + Decimal(bCount) + " @@\n";
    written := head;
    for k := 0 to |ops|
      invariant written == head + Body(ops[..k])
    {
      OneMore(ops, k);
      var line := WriteOp(ops[k]);
      written := written + line;
    }
    written := out + written;
  }

  lemma OneMoreNone()
    ensures forall ops: seq<Op> :: OldSide(ops[..0]) == [] && NewSide(ops[..0]) == [] && Body(ops[..0]) == ""
  {}

  /** The four writes writeHunk makes for one operation. */
  method WriteOp(op: Op) returns (line: string)
    ensures line == PrintOp(op)
  {
    line := [Mark(op.kind)];
    line := line + if HasSuffix(op.text, "\n") then op.text[..|op.text| - 1] else op.text;
    line := line + "\n";
    if !HasSuffix(op.text, "\n") {
      line := line + NO_NEWLINE;
    }
  }

  // ----- hunks -------------------------------------------------------------------

  const CONTEXT := 3

  /** The operations [start, end) are printed together; the first and the last change among them
      stand at `first` and `last`. */
  datatype Hunk = Hunk(start: nat, first: nat, last: nat, end: nat)

  predicate Changed(ops: seq<Op>, p: nat) {
    p < |ops| && ops[p].kind != Keep
  }

  /** A hunk reaches three lines around its changes, as far as there are lines, and holds no run of
      more than six kept lines between two changes. */
  ghost predicate IsHunk(ops: seq<Op>, h: Hunk) {
    && Changed(ops, h.first) && Changed(ops, h.last) && h.first <= h.last
    && h.start == (if h.first < CONTEXT then 0 else h.first - CONTEXT)
    && h.end == (if h.last + CONTEXT < |ops| then h.last + CONTEXT + 1 else |ops|)
    && (forall p: nat :: h.start <= p < h.first ==> !Changed(ops, p))
    && (forall p: nat :: h.last < p < h.end ==> !Changed(ops, p))
    && (forall p: nat :: h.first <= p && p + 2 * CONTEXT <= h.last ==> ChangeNear(ops, p))
  }

  /** One of the operations p .. p + 6 is a change. */
  ghost predicate ChangeNear(ops: seq<Op>, p: nat) {
    exists q: nat :: p <= q <= p + 2 * CONTEXT && Changed(ops, q)
  }

  /** None of the seven operations after `p` is a change. */
  ghost predicate QuietAfter(ops: seq<Op>, p: nat) {
    forall q: nat :: p < q <= p + 2 * CONTEXT + 1 ==> !Changed(ops, q)
  }

  /** Hunks ascend, more than six kept lines apart. */
  ghost predicate Ascending(hs: seq<Hunk>) {
    forall j, k :: 0 <= j < k < |hs| ==>
      hs[j].end <= hs[k].start && hs[j].last + 2 * CONTEXT + 1 < hs[k].first
  }

  ghost predicate Laid(ops: seq<Op>, hs: seq<Hunk>) {
    (forall k :: 0 <= k < |hs| ==> IsHunk(ops, hs[k])) && Ascending(hs)
  }

  ghost predicate Covered(hs: seq<Hunk>, p: nat) {
    exists k: nat :: 0 <= k < |hs| && hs[k].first <= p <= hs[k].last
  }

  /** The hunks are what the operations have to be grouped into. */
  ghost predicate Grouped(ops: seq<Op>, hs: seq<Hunk>) {
    && Laid(ops, hs)
    && (forall p: nat :: Changed(ops, p) ==> Covered(hs, p))
  }

  ghost predicate InBounds(ops: seq<Op>, hs: seq<Hunk>) {
    forall k :: 0 <= k < |hs| ==> hs[k].start < hs[k].end <= |ops|
  }

  function HunksText(ops: seq<Op>, hs: seq<Hunk>): string
    requires InBounds(ops, hs)
  {
    if hs == [] then ""
    else HunkText(ops[hs[0].start..hs[0].end]) + HunksText(ops, hs[1..])
  }

  lemma {:induction false} HunksTextAppend(ops: seq<Op>, hs: seq<Hunk>, h: Hunk)
    requires InBounds(ops, hs)
    requires h.start < h.end <= |ops|
    ensures HunksText(ops, hs + [h]) == HunksText(ops, hs) + HunkText(ops[h.start..h.end])
  {
    hide HunkText;
    if hs == [] {
      assert [h][1..] == [];
      assert hs + [h] == [h];
    } else {
      assert (hs + [h])[1..] == hs[1..] + [h];
      HunksTextAppend(ops, hs[1..], h);
    }
  }

  function FileHeader(name: string): string {
    "--- a/" + name + "\n+++ b/" + name + "\n"
  }

  /** The grouping after the operations before `i`. */
  ghost predicate GroupedBefore(ops: seq<Op>, hs: seq<Hunk>, i: nat) {
    && Laid(ops, hs)
    && (forall p: nat :: p < i && Changed(ops, p) ==> Covered(hs, p))
    && (hs != [] ==> hs[|hs| - 1].end <= i && QuietAfter(ops, hs[|hs| - 1].last))
    && (forall p: nat :: p < i && (hs == [] || hs[|hs| - 1].last < p) ==> !Changed(ops, p))
  }

  lemma GroupedSkip(ops: seq<Op>, hs: seq<Hunk>, i: nat)
    requires GroupedBefore(ops, hs, i) && !Changed(ops, i)
    ensures GroupedBefore(ops, hs, i + 1)
  {}

  /** `h` is the hunk that starts with the change at `i`. */
  ghost predicate StartsAt(ops: seq<Op>, h: Hunk, i: nat) {
    && Changed(ops, i) && i <= h.last && Changed(ops, h.last) && QuietAfter(ops, h.last)
    && (forall p: nat :: i <= p && p + 2 * CONTEXT <= h.last ==> ChangeNear(ops, p))
    && h.first == i && h.start == (if i < CONTEXT then 0 else i - CONTEXT)
    && h.end == (if h.last + CONTEXT < |ops| then h.last + CONTEXT + 1 else |ops|)
  }

  lemma PushedIsHunk(ops: seq<Op>, hs: seq<Hunk>, i: nat, h: Hunk)
    requires GroupedBefore(ops, hs, i) && StartsAt(ops, h, i)
    ensures Laid(ops, hs) && IsHunk(ops, h) && h.start < h.end <= |ops|
    ensures hs != [] ==> hs[|hs| - 1].end <= h.start && hs[|hs| - 1].last + 2 * CONTEXT + 1 < h.first
  {
    if hs != [] {
      var before := hs[|hs| - 1];
      assert IsHunk(ops, before);
      assert i > before.last;
      assert !(before.last < i <= before.last + 2 * CONTEXT + 1);
    }
  }

  lemma LastReachesFar(ops: seq<Op>, hs: seq<Hunk>)
    requires Laid(ops, hs) && hs != []
    ensures forall j :: 0 <= j < |hs| ==> hs[j].end <= hs[|hs| - 1].end && hs[j].last <= hs[|hs| - 1].last
  {
    assert IsHunk(ops, hs[|hs| - 1]);
    hide ChangeNear;
  }

  lemma LaidPush(ops: seq<Op>, hs: seq<Hunk>, h: Hunk)
    requires Laid(ops, hs) && IsHunk(ops, h)
    requires hs != [] ==> hs[|hs| - 1].end <= h.start && hs[|hs| - 1].last + 2 * CONTEXT + 1 < h.first
    ensures Laid(ops, hs + [h])
  {
    if hs != [] {
      LastReachesFar(ops, hs);
    }
    hide IsHunk;
    var all := hs + [h];
    assert all[|hs|] == h && forall k :: 0 <= k < |hs| ==> all[k] == hs[k];
  }

  lemma PushedCovers(ops: seq<Op>, hs: seq<Hunk>, i: nat, h: Hunk)
    requires GroupedBefore(ops, hs, i) && StartsAt(ops, h, i)
    ensures forall p: nat :: p < h.end && Changed(ops, p) ==> Covered(hs + [h], p)
  {
    hide Laid;
    forall p: nat | p < h.end && Changed(ops, p)
      ensures Covered(hs + [h], p)
    {
      if p < i {
        var k: nat :| 0 <= k < |hs| && hs[k].first <= p <= hs[k].last;
        assert (hs + [h])[k] == hs[k];
      } else {
        assert (hs + [h])[|hs|] == h;
      }
    }
  }

  lemma PushedQuiet(ops: seq<Op>, hs: seq<Hunk>, i: nat, h: Hunk)
    requires StartsAt(ops, h, i)
    ensures QuietAfter(ops, h.last)
    ensures forall p: nat :: h.last < p < h.end ==> !Changed(ops, p)
  {
    hide ChangeNear;
  }

  lemma GroupedWithLast(ops: seq<Op>, hs: seq<Hunk>, h: Hunk)
    requires Laid(ops, hs) && hs != [] && hs[|hs| - 1] == h
    requires forall p: nat :: p < h.end && Changed(ops, p) ==> Covered(hs, p)
    requires QuietAfter(ops, h.last)
    requires forall p: nat :: h.last < p < h.end ==> !Changed(ops, p)
    ensures GroupedBefore(ops, hs, h.end)
  {
    hide Laid, Covered, QuietAfter, Changed;
  }

  lemma GroupedPush(ops: seq<Op>, hs: seq<Hunk>, i: nat, h: Hunk)
    requires GroupedBefore(ops, hs, i) && StartsAt(ops, h, i)
    ensures GroupedBefore(ops, hs + [h], h.end)
    ensures h.start < h.end <= |ops|
  {
    PushedIsHunk(ops, hs, i, h);
    PushedCovers(ops, hs, i, h);
    PushedQuiet(ops, hs, i, h);
    hide *;
    LaidPush(ops, hs, h);
    GroupedWithLast(ops, hs + [h], h);
  }

  /** The last change of the hunk that starts with the change at `i`: no further change within seven
      operations of it, and none before it that far from the next. */
  method LastChange(ops: seq<Op>, i: nat) returns (last: nat)
    requires Changed(ops, i)
    ensures i <= last && Changed(ops, last) && QuietAfter(ops, last)
    ensures forall p: nat :: i <= p && p + 2 * CONTEXT <= last ==> ChangeNear(ops, p)
  {
    last := i;
    var j := i + 1;
    while j < |ops|
      invariant i <= last < j <= |ops| && Changed(ops, last)
      invariant j <= last + 2 * CONTEXT + 1
      invariant j > last + 1 ==> Changed(ops, j)
      invariant forall p: nat :: last < p < j ==> !Changed(ops, p)
      invariant forall p: nat :: i <= p && p + 2 * CONTEXT <= last ==> ChangeNear(ops, p)
      decreases |ops| - j, |ops| - last
    {
      if ops[j].kind != Keep {
        forall p: nat | i <= p && p + 2 * CONTEXT <= j
          ensures ChangeNear(ops, p)
        {
          if p + 2 * CONTEXT > last {
            assert Changed(ops, if p <= last then last else j);
          }
        }
        last := j;
        j := j + 1;
        continue;
      }
      var gap := j;
      while gap < |ops| && ops[gap].kind == Keep
        invariant j <= gap <= |ops|
        invariant forall p: nat :: last < p < gap ==> !Changed(ops, p)
      {
        gap := gap + 1;
      }
      if gap == |ops| || gap - j > 2 * CONTEXT {
        break;
      }
      j := gap;
    }
  }

  /** `text` is the operations, printed in the hunks `hs`. */
  ghost predicate PrintedHunks(ops: seq<Op>, hs: seq<Hunk>, text: string) {
    && Grouped(ops, hs)
    && InBounds(ops, hs)
    && text == HunksText(ops, hs)
  }

  /** The loop of unifiedDiff, which writes one hunk a round. */
  method WriteHunks(out: string, ops: seq<Op>) returns (written: string)
    ensures exists hs, text :: PrintedHunks(ops, hs, text) && written == out + text
  {
    hide GroupedBefore, HunkText, HunksText, QuietAfter, ChangeNear, IsHunk, Grouped;
    ghost var hunks := [];
    written := out;
    var i := 0;
    GroupedNone(ops);
    assert written == out + HunksText(ops, []) by {
      NoHunksText(ops);
    }
    while i < |ops|
      invariant 0 <= i <= |ops|
      invariant GroupedBefore(ops, hunks, i)
      invariant InBounds(ops, hunks)
      invariant written == out + HunksText(ops, hunks)
    {
      if ops[i].kind == Keep {
        GroupedSkip(ops, hunks, i);
        i := i + 1;
        continue;
      }
      var start := if i < CONTEXT then 0 else i - CONTEXT;
      var last := LastChange(ops, i);
      var end := last + CONTEXT;
      if end > |ops| - 1 {
        end := |ops| - 1;
      }
      ghost var h := Hunk(start, i, last, end + 1);
      GroupedPush(ops, hunks, i, h);
      HunksTextAppend(ops, hunks, h);
      written := WriteHunk(written, ops[start..end + 1]);
      hunks := hunks + [h];
      i := end + 1;
    }
    GroupedAll(ops, hunks);
    assert PrintedHunks(ops, hunks, HunksText(ops, hunks));
  }

  predicate InHunk(h: Hunk, p: nat) {
    h.start <= p < h.end
  }

  /** Every change is printed in exactly one hunk, and no line is printed twice. A hunk begins with the three
      lines before its first change and ends with the three after its last, as far as there are any; it has
      no seven kept lines in a row, and there are at least seven between the changes of two hunks. */
  lemma ChangesPrintedOnce(ops: seq<Op>, hs: seq<Hunk>, text: string, p: nat)
    requires PrintedHunks(ops, hs, text)
    ensures Changed(ops, p) ==> exists k :: 0 <= k < |hs| && InHunk(hs[k], p)
    ensures forall j, k :: 0 <= j < k < |hs| ==> !(InHunk(hs[j], p) && InHunk(hs[k], p))
    ensures forall k :: 0 <= k < |hs| ==> ThreeAround(ops, hs[k])
    ensures forall j, k :: 0 <= j < k < |hs| ==> hs[k].first - hs[j].last > 7
  {
    hide HunksText, IsHunk, Changed, ThreeAround;
    if Changed(ops, p) {
      var k: nat :| 0 <= k < |hs| && hs[k].first <= p <= hs[k].last;
      HunkAround(ops, hs[k]);
      assert InHunk(hs[k], p);
    }
    forall k | 0 <= k < |hs|
      ensures ThreeAround(ops, hs[k])
    {
      HunkAround(ops, hs[k]);
    }
  }

  /** The lines around the changes of a hunk, in numbers. */
  ghost predicate ThreeAround(ops: seq<Op>, h: Hunk) {
    && Changed(ops, h.first) && Changed(ops, h.last)
    && (h.start == h.first - 3 || (h.start == 0 && h.first < 3))
    && (h.end - 1 == h.last + 3 || (h.end == |ops| && |ops| - 1 < h.last + 3))
    && (forall p: nat :: h.first <= p && p + 6 <= h.last ==> OneOfSeven(ops, p))
  }

  ghost predicate OneOfSeven(ops: seq<Op>, p: nat) {
    exists q: nat :: p <= q <= p + 6 && Changed(ops, q)
  }

  lemma HunkAround(ops: seq<Op>, h: Hunk)
    requires IsHunk(ops, h)
    ensures h.start <= h.first && h.last < h.end && ThreeAround(ops, h)
  {
    forall p: nat | h.first <= p && p + 6 <= h.last
      ensures OneOfSeven(ops, p)
    {
      assert ChangeNear(ops, p);
    }
  }

  /** `out` is the edit script from `a` to `b`, printed in the hunks `hs`. */
  ghost predicate PrintedDiff(name: string, a: string, b: string, hs: seq<Hunk>, out: string) {
    exists text :: PrintedHunks(Script(Lines(a), Lines(b), 0, 0), hs, text) && out == FileHeader(name) + text
  }

  /** unifiedDiff. */
  method UnifiedDiff(name: string, a: string, b: string) returns (out: string)
    ensures a == b ==> out == ""
    ensures a != b ==> exists hs :: PrintedDiff(name, a, b, hs, out)
  {
    hide Script, Lines, PrintedHunks;
    if a == b {
      return "";
    }
    var ops := DiffOps(Lines(a), Lines(b));
    out := WriteHunks(FileHeader(name), ops);
    ghost var hs, text :| PrintedHunks(ops, hs, text) && out == FileHeader(name) + text;
    assert PrintedDiff(name, a, b, hs, out);
  }

  lemma NoHunksText(ops: seq<Op>)
    ensures InBounds(ops, []) && HunksText(ops, []) == ""
  {}

  lemma GroupedNone(ops: seq<Op>)
    ensures GroupedBefore(ops, [], 0)
  {}

  lemma GroupedAll(ops: seq<Op>, hs: seq<Hunk>)
    requires GroupedBefore(ops, hs, |ops|)
    ensures Grouped(ops, hs)
  {}
}
