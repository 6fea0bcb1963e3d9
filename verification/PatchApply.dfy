/** A patch applier for the unified format. It sees the printed text and one of the two files, never
    the script; the theorem is that it turns that file into the other one. */
module PatchApply {
  import opened Text
  import opened Diff
  import opened Patch

  datatype Direction = Forward | Backward

  // ----- the applier ---------------------------------------------------------------

  /** The line below a line that lacks its newline. */
  const MARKER := "\\ No newline at end of file\n"

  /** One line of a hunk body: its mark, its text, and what follows. The no-newline marker belongs to
      the line above it. */
  function ReadLine(text: string): (r: Option<(char, string, string)>)
    ensures r.Some? ==> |r.value.2| < |text|
  {
    if text == "" then None
    else
      var i := IndexOf(text[1..], '\n');
      if i == |text| - 1 then None
      else
        var content, rest := text[1..][..i], text[1..][i + 1..];
        if MARKER <= rest then Some((text[0], content, rest[|MARKER|..]))
        else Some((text[0], content + "\n", rest))
  }

  /** Reads a hunk body until `fromLeft` lines of the file are consumed and `toLeft` lines produced.
      Answers the produced lines, the text after the body, and the position reached in `file`. */
  function ApplyBody(text: string, dir: Direction, file: seq<string>, pos: nat, fromLeft: nat, toLeft: nat)
    : (r: Option<(seq<string>, string, nat)>)
    ensures r.Some? ==> |r.value.1| <= |text|
    decreases |text|
  {
    if fromLeft == 0 && toLeft == 0 then Some(([], text, pos))
    else
      match ReadLine(text)
      case None => None
      case Some((mark, line, rest)) =>
        var consumes := mark == ' ' || mark == (if dir == Forward then '-' else '+');
        var produces := mark == ' ' || mark == (if dir == Forward then '+' else '-');
        if !consumes && !produces then None
        else if consumes && (fromLeft == 0 || pos >= |file| || file[pos] != line) then None
        else if produces && toLeft == 0 then None
        else
          var tail := ApplyBody(rest, dir, file, if consumes then pos + 1 else pos,
                                if consumes then fromLeft - 1 else fromLeft, if produces then toLeft - 1 else toLeft);
          if tail == None then None
          else Some(((if produces then [line] else []) + tail.value.0, tail.value.1, tail.value.2))
  }

  /** `lead`, then "start,count". */
  function ReadSide(text: string, lead: string): (r: Option<(nat, nat, string)>) {
    var t := Strip(text, lead);
    if t == None then None else
    var start := ReadDecimal(t.value);
    if start == None then None else
    var u := Strip(start.value.1, ",");
    if u == None then None else
    var count := ReadDecimal(u.value);
    if count == None then None else Some((start.value.0, count.value.0, count.value.1))
  }

  function ReadRange(text: string): (r: Option<(Range, string)>) {
    var a := ReadSide(text, "@@ -");
    if a == None then None else
    var b := ReadSide(a.value.2, " +");
    if b == None then None else
    var rest := Strip(b.value.2, " @@\n");
    if rest == None then None
    else Some((Range(a.value.0, a.value.1, b.value.0, b.value.1), rest.value))
  }

  /** The 0-based position a printed start and count stand for. */
  function Offset(start: nat, count: nat): int {
    if count == 0 then start else start - 1
  }

  /** The numbers of a range, as the side read and the side produced. */
  function FromStart(dir: Direction, r: Range): int {
    if dir == Forward then Offset(r.aStart, r.aCount) else Offset(r.bStart, r.bCount)
  }

  function ToStart(dir: Direction, r: Range): int {
    if dir == Forward then Offset(r.bStart, r.bCount) else Offset(r.aStart, r.aCount)
  }

  function FromCount(dir: Direction, r: Range): nat {
    if dir == Forward then r.aCount else r.bCount
  }

  function ToCount(dir: Direction, r: Range): nat {
    if dir == Forward then r.bCount else r.aCount
  }

  /** Applies the hunks of `text` to the lines of `file` from `pos` on, `done` lines having been
      produced. A hunk that is not where both of its starts say is refused. */
  function ApplyHunks(text: string, dir: Direction, file: seq<string>, pos: nat, done: nat): Option<seq<string>>
    requires pos <= |file|
    decreases |text|
  {
    if text == "" then Some(file[pos..])
    else
      match ReadRange(text)
      case None => None
      case Some((r, body)) =>
        var from, to := FromStart(dir, r), ToStart(dir, r);
        if !(pos <= from <= |file|) || to != done + (from - pos) then None
        else
          match ApplyBody(body, dir, file, from, FromCount(dir, r), ToCount(dir, r))
          case None => None
          case Some((lines, rest, next)) =>
            if |rest| >= |text| || next > |file| then None
            else
              var tail := ApplyHunks(rest, dir, file, next, to + |lines|);
              if tail == None then None else Some(file[pos..from] + lines + tail.value)
  }

  /** The two lines that name the file, old and new, and what follows them. */
  function ReadHeader(text: string, name: string): Option<string> {
    var first := Strip(text, "--- a/");
    if first == None then None else
    var second := Strip(first.value, name + "\n" + "+++ b/");
    if second == None then None else Strip(second.value, name + "\n")
  }

  /** Applies a printed diff for the file `name` to its content; no text at all changes nothing. */
  function Apply(name: string, patch: string, dir: Direction, content: string): Option<string> {
    if patch == "" then Some(content)
    else
      var hunks := ReadHeader(patch, name);
      if hunks == None then None
      else
        var lines := ApplyHunks(hunks.value, dir, Lines(content), 0, 0);
        if lines == None then None else Some(Concat(lines.value))
  }

  // ----- reading back one line, one range -------------------------------------------

  lemma PrintedLine(op: Op, content: string, ended: bool, rest: string)
    requires ended == HasSuffix(op.text, "\n")
    requires content == if ended && op.text != "" then op.text[..|op.text| - 1] else op.text
    ensures PrintOp(op) + rest == [Mark(op.kind)] + (content + ['\n'] + ((if ended then "" else MARKER) + rest))
  {
    assert "\n" == ['\n'] && NO_NEWLINE == MARKER;
    assert HasSuffix(op.text, "\n") ==> op.text != "";
  }

  lemma LineContent(line: string)
    requires IsLine(line)
    ensures HasSuffix(line, "\n") ==> '\n' !in line[..|line| - 1] && line == line[..|line| - 1] + "\n"
    ensures !HasSuffix(line, "\n") ==> '\n' !in line
  {
    assert line == line[..|line| - 1] + [line[|line| - 1]];
  }

  lemma CutAt(content: string, after: string)
    requires '\n' !in content
    ensures var text := content + ['\n'] + after;
      IndexOf(text, '\n') == |content| && text[..|content|] == content && text[|content| + 1..] == after
  {
    IndexOfFirst(content, '\n', after);
    hide IndexOf;
  }

  lemma MarkerRead(rest: string)
    requires rest == "" || rest[0] != '\\'
    ensures !(MARKER <= rest) && MARKER <= MARKER + rest && (MARKER + rest)[|MARKER|..] == rest
  {
    assert MARKER[0] == '\\';
  }

  lemma ReadLinePrinted(op: Op, rest: string)
    requires IsLine(op.text)
    requires rest == "" || rest[0] != '\\'
    ensures ReadLine(PrintOp(op) + rest) == Some((Mark(op.kind), op.text, rest))
  {
    LineContent(op.text);
    MarkerRead(rest);
    hide IsLine, IndexOf, PrintOp, Mark;
    var ended := HasSuffix(op.text, "\n");
    var content := if ended then op.text[..|op.text| - 1] else op.text;
    var after := (if ended then "" else MARKER) + rest;
    PrintedLine(op, content, ended, rest);
    CutAt(content, after);
    hide HasSuffix;
    var text := PrintOp(op) + rest;
    assert text[0] == Mark(op.kind) && text[1..] == content + ['\n'] + after;
    assert "" + rest == rest;
  }

  lemma ReadSidePrinted(lead: string, start: nat, count: nat, rest: string)
    requires rest != "" && !IsDigit(rest[0])
    ensures ReadSide(lead + (Decimal(start) + ("," + (Decimal(count) + rest))), lead) == Some((start, count, rest))
  {
    hide Decimal, ReadDecimal, Strip;
    var t3 := Decimal(count) + rest;
    var t2 := "," + t3;
    StripPrinted(lead, Decimal(start) + t2);
    ReadDecimalPrinted(start, t2);
    StripPrinted(",", t3);
    ReadDecimalPrinted(count, rest);
  }

  /** The same text, nested the other way. */
  lemma SideText(lead: string, start: string, count: string, rest: string)
    ensures lead + start + "," + count + rest == lead + (start + ("," + (count + rest)))
  {}

  lemma ReadRangePrinted(r: Range, body: string)
    ensures ReadRange(PrintRange(r) + body) == Some((r, body))
  {
    hide Decimal, ReadSide, Strip;
    var text := PrintRange(r) + body;
    var t2 := " @@\n" + body;
    var t1 := " +" + Decimal(r.bStart) + "," + Decimal(r.bCount) + t2;
    assert text == "@@ -" + Decimal(r.aStart) + "," + Decimal(r.aCount) + t1;
    SideText("@@ -", Decimal(r.aStart), Decimal(r.aCount), t1);
    SideText(" +", Decimal(r.bStart), Decimal(r.bCount), t2);
    ReadSidePrinted("@@ -", r.aStart, r.aCount, t1);
    ReadSidePrinted(" +", r.bStart, r.bCount, t2);
    StripPrinted(" @@\n", body);
  }

  // ----- one hunk -----------------------------------------------------------------------

  function From(dir: Direction, ops: seq<Op>): seq<string> {
    if dir == Forward then OldSide(ops) else NewSide(ops)
  }

  function To(dir: Direction, ops: seq<Op>): seq<string> {
    if dir == Forward then NewSide(ops) else OldSide(ops)
  }

  ghost predicate LineTexts(ops: seq<Op>) {
    forall p :: 0 <= p < |ops| ==> IsLine(ops[p].text)
  }

  lemma BodyStep(ops: seq<Op>, tail: string)
    requires ops != []
    ensures Body(ops) + tail == PrintOp(ops[0]) + (Body(ops[1..]) + tail)
  {
    hide PrintOp;
  }

  lemma BodyStarts(ops: seq<Op>, tail: string)
    requires tail == "" || tail[0] == '@'
    ensures Body(ops) + tail == "" || (Body(ops) + tail)[0] != '\\'
  {
    if ops != [] {
      assert Body(ops)[0] == PrintOp(ops[0])[0] == Mark(ops[0].kind);
    }
  }

  predicate Consumes(dir: Direction, kind: Kind) {
    if dir == Forward then kind != Insert else kind != Delete
  }

  predicate Produces(dir: Direction, kind: Kind) {
    if dir == Forward then kind != Delete else kind != Insert
  }

  lemma SidesStep(dir: Direction, ops: seq<Op>)
    requires ops != []
    ensures From(dir, ops) == (if Consumes(dir, ops[0].kind) then [ops[0].text] else []) + From(dir, ops[1..])
    ensures To(dir, ops) == (if Produces(dir, ops[0].kind) then [ops[0].text] else []) + To(dir, ops[1..])
  {}

  /** One round of ApplyBody, on a line that can be read and fits the file. */
  lemma ApplyBodyStep(text: string, op: Op, more: string, dir: Direction, file: seq<string>, pos: nat, fromLeft: nat,
                      toLeft: nat)
    requires ReadLine(text) == Some((Mark(op.kind), op.text, more))
    requires Consumes(dir, op.kind) ==> fromLeft > 0 && pos < |file| && file[pos] == op.text
    requires Produces(dir, op.kind) ==> toLeft > 0
    ensures
      var c, p := if Consumes(dir, op.kind) then 1 else 0, if Produces(dir, op.kind) then 1 else 0;
      var tail := ApplyBody(more, dir, file, pos + c, fromLeft - c, toLeft - p);
      ApplyBody(text, dir, file, pos, fromLeft, toLeft) ==
        if tail == None then None
        else Some(((if p == 1 then [op.text] else []) + tail.value.0, tail.value.1, tail.value.2))
  {
    hide ReadLine;
  }

  /** The file stands at the old side of `ops`; after its first operation, at that of the rest. */
  lemma FileStep(dir: Direction, ops: seq<Op>, file: seq<string>, pos: nat)
    requires ops != []
    requires pos + |From(dir, ops)| <= |file| && file[pos..pos + |From(dir, ops)|] == From(dir, ops)
    ensures
      var next := if Consumes(dir, ops[0].kind) then pos + 1 else pos; var n := |From(dir, ops[1..])|;
      && pos + |From(dir, ops)| == next + n && file[next..next + n] == From(dir, ops[1..])
      && (Consumes(dir, ops[0].kind) ==> file[pos] == ops[0].text)
  {
    SidesStep(dir, ops);
    hide From;
    if Consumes(dir, ops[0].kind) {
      SliceStep(file, pos, From(dir, ops), From(dir, ops[1..]));
    }
  }

  lemma SliceStep(file: seq<string>, pos: nat, from: seq<string>, rest: seq<string>)
    requires from != [] && from[1..] == rest
    requires pos + |from| <= |file| && file[pos..pos + |from|] == from
    ensures file[pos] == from[0] && file[pos + 1..pos + 1 + |rest|] == rest
  {
    assert file[pos..pos + |from|][0] == file[pos];
    assert file[pos..pos + |from|][1..] == file[pos + 1..pos + |from|];
  }

  lemma {:induction false} BodyApplies(ops: seq<Op>, dir: Direction, file: seq<string>, pos: nat, tail: string)
    requires LineTexts(ops)
    requires tail == "" || tail[0] == '@'
    requires pos + |From(dir, ops)| <= |file| && file[pos..pos + |From(dir, ops)|] == From(dir, ops)
    ensures ApplyBody(Body(ops) + tail, dir, file, pos, |From(dir, ops)|, |To(dir, ops)|)
         == Some((To(dir, ops), tail, pos + |From(dir, ops)|))
    decreases |ops|, 1
  {
    if ops == [] {
      assert Body(ops) + tail == tail;
    } else {
      BodyAppliesStep(ops, dir, file, pos, tail);
    }
  }

  lemma {:induction false} BodyAppliesStep(ops: seq<Op>, dir: Direction, file: seq<string>, pos: nat, tail: string)
    requires ops != [] && LineTexts(ops)
    requires tail == "" || tail[0] == '@'
    requires pos + |From(dir, ops)| <= |file| && file[pos..pos + |From(dir, ops)|] == From(dir, ops)
    ensures ApplyBody(Body(ops) + tail, dir, file, pos, |From(dir, ops)|, |To(dir, ops)|)
         == Some((To(dir, ops), tail, pos + |From(dir, ops)|))
    decreases |ops|, 0
  {
    hide From, To, ReadLine, PrintOp, Body, ApplyBody;
    var op, rest := ops[0], ops[1..];
    var more := Body(rest) + tail;
    BodyStep(ops, tail);
    BodyStarts(rest, tail);
    ReadLinePrinted(op, more);
    SidesStep(dir, ops);
    FileStep(dir, ops, file, pos);
    ApplyBodyStep(Body(ops) + tail, op, more, dir, file, pos, |From(dir, ops)|, |To(dir, ops)|);
    BodyApplies(rest, dir, file, if Consumes(dir, op.kind) then pos + 1 else pos, tail);
  }

  // ----- all hunks -----------------------------------------------------------------------

  lemma {:induction false} NumberedAt(ops: seq<Op>, i: nat, j: nat, p: nat)
    requires Numbered(ops, i, j) && p < |ops|
    ensures ops[p].aLine == i + 1 + |OldSide(ops[..p])|
    ensures ops[p].bLine == j + 1 + |NewSide(ops[..p])|
  {
    if p > 0 {
      NumberedAt(ops[1..], if ops[0].kind != Insert then i + 1 else i, if ops[0].kind != Delete then j + 1 else j,
                 p - 1);
      assert ops[..p][1..] == ops[1..][..p - 1];
    }
  }

  lemma SidesSplit(dir: Direction, ops: seq<Op>, e: nat, s: nat)
    requires e <= s <= |ops|
    ensures From(dir, ops[..s]) == From(dir, ops[..e]) + From(dir, ops[e..s])
    ensures To(dir, ops[..s]) == To(dir, ops[..e]) + To(dir, ops[e..s])
    ensures From(dir, ops) == From(dir, ops[..s]) + From(dir, ops[s..])
    ensures To(dir, ops[e..]) == To(dir, ops[e..s]) + To(dir, ops[s..])
  {
    assert ops[..s] == ops[..e] + ops[e..s] && ops == ops[..s] + ops[s..] && ops[e..] == ops[e..s] + ops[s..];
    SidesAppend(ops[..e], ops[e..s]);
    SidesAppend(ops[..s], ops[s..]);
    SidesAppend(ops[e..s], ops[s..]);
  }

  lemma {:induction false} KeptSame(ops: seq<Op>)
    requires forall p: nat :: !Changed(ops, p)
    ensures OldSide(ops) == NewSide(ops)
  {
    if ops != [] {
      assert !Changed(ops, 0);
      forall p: nat
        ensures !Changed(ops[1..], p)
      {
        assert !Changed(ops, p + 1);
      }
      KeptSame(ops[1..]);
    }
  }

  /** The printed starts stand for the lines before the hunk, whether or not a side is empty. */
  lemma RangePositions(ops: seq<Op>, s: nat, t: nat, dir: Direction)
    requires Numbered(ops, 0, 0) && s < t <= |ops|
    ensures var r := RangeOf(ops[s..t]);
      && FromStart(dir, r) == |From(dir, ops[..s])| && FromCount(dir, r) == |From(dir, ops[s..t])|
      && ToStart(dir, r) == |To(dir, ops[..s])| && ToCount(dir, r) == |To(dir, ops[s..t])|
  {
    NumberedAt(ops, 0, 0, s);
    assert ops[s..t][0] == ops[s];
  }

  /** One round of ApplyHunks. */
  lemma ApplyHunksStep(text: string, r: Range, body: string, dir: Direction, file: seq<string>, pos: nat, done: nat,
                       lines: seq<string>, rest: string, tail: seq<string>)
    requires ReadRange(text) == Some((r, body)) && |rest| < |text|
    requires pos <= FromStart(dir, r) && FromStart(dir, r) + FromCount(dir, r) <= |file|
    requires ToStart(dir, r) == done + (FromStart(dir, r) - pos)
    requires ApplyBody(body, dir, file, FromStart(dir, r), FromCount(dir, r), ToCount(dir, r))
          == Some((lines, rest, FromStart(dir, r) + FromCount(dir, r)))
    requires |lines| == ToCount(dir, r)
    requires ApplyHunks(rest, dir, file, FromStart(dir, r) + FromCount(dir, r), ToStart(dir, r) + ToCount(dir, r)) ==
      Some(tail)
    ensures ApplyHunks(text, dir, file, pos, done) == Some(file[pos..FromStart(dir, r)] + lines + tail)
  {
    hide ReadRange, ApplyBody, FromStart, ToStart, FromCount, ToCount;
  }

  ghost predicate InOrder(ops: seq<Op>, hs: seq<Hunk>, e: nat) {
    && e <= |ops|
    && InBounds(ops, hs)
    && (forall j, k :: 0 <= j < k < |hs| ==> hs[j].end <= hs[k].start)
    && (hs != [] ==> e <= hs[0].start < hs[0].end <= |ops| && InBounds(ops, hs[1..]))
    && (forall p: nat :: e <= p && Changed(ops, p) ==> Within(hs, p))
  }

  ghost predicate Within(hs: seq<Hunk>, p: nat) {
    exists k: nat :: k < |hs| && hs[k].start <= p < hs[k].end
  }

  /** After the first hunk, the others still are in order, and nothing before it changes. */
  lemma InOrderRest(ops: seq<Op>, hs: seq<Hunk>, e: nat)
    requires InOrder(ops, hs, e) && hs != []
    ensures e <= hs[0].start < hs[0].end <= |ops| && InBounds(ops, hs) && InBounds(ops, hs[1..])
    ensures InOrder(ops, hs[1..], hs[0].end)
    ensures forall p: nat :: e <= p < hs[0].start ==> !Changed(ops, p)
  {
    forall p: nat | hs[0].end <= p && Changed(ops, p)
      ensures Within(hs[1..], p)
    {
      var k: nat :| k < |hs| && hs[k].start <= p < hs[k].end;
      assert k > 0 && hs[1..][k - 1] == hs[k];
    }
    forall p: nat | e <= p < hs[0].start
      ensures !Changed(ops, p)
    {
      assert forall k: nat :: k < |hs| ==> hs[0].start <= hs[k].start;
      assert !Within(hs, p);
    }
  }

  lemma KeptSlice(dir: Direction, ops: seq<Op>, e: nat, s: nat)
    requires e <= s <= |ops|
    requires forall p: nat :: e <= p < s ==> !Changed(ops, p)
    ensures From(dir, ops[e..s]) == To(dir, ops[e..s])
  {
    forall p: nat
      ensures !Changed(ops[e..s], p)
    {
      assert p < s - e ==> !Changed(ops, e + p);
    }
    KeptSame(ops[e..s]);
  }

  /** The applier, standing where the operations from `e` on begin, produces what they produce. */
  lemma {:induction false} HunksApply(ops: seq<Op>, hs: seq<Hunk>, dir: Direction, file: seq<string>, e: nat)
    requires Numbered(ops, 0, 0) && LineTexts(ops)
    requires From(dir, ops) == file
    requires InOrder(ops, hs, e)
    ensures |From(dir, ops[..e])| <= |file|
    ensures ApplyHunks(HunksText(ops, hs), dir, file, |From(dir, ops[..e])|, |To(dir, ops[..e])|) ==
      Some(To(dir, ops[e..]))
    decreases |hs|
  {
    hide *;
    if hs == [] {
      NoneInOrder(ops, e);
      NothingLeft(ops, dir, file, e);
      NoHunks(ops, dir, file, |From(dir, ops[..e])|, |To(dir, ops[..e])|);
    } else {
      InOrderRest(ops, hs, e);
      var s, t := hs[0].start, hs[0].end;
      HunksApply(ops, hs[1..], dir, file, t);
      HunkReads(ops, hs, dir, e);
      SidesSplit(dir, ops, e, e);
      HunkApplied(ops, RangeOf(ops[s..t]), dir, file, e, s, t, HunksText(ops, hs), HunksText(ops, hs[1..]));
    }
  }

  lemma NoneInOrder(ops: seq<Op>, e: nat)
    requires InOrder(ops, [], e)
    ensures e <= |ops| && InBounds(ops, []) && forall p: nat :: e <= p && Changed(ops, p) ==> Within([], p)
  {
    hide Changed;
  }

  lemma NoHunks(ops: seq<Op>, dir: Direction, file: seq<string>, pos: nat, done: nat)
    requires pos <= |file|
    ensures ApplyHunks(HunksText(ops, []), dir, file, pos, done) == Some(file[pos..])
  {}

  lemma NothingLeft(ops: seq<Op>, dir: Direction, file: seq<string>, e: nat)
    requires From(dir, ops) == file && e <= |ops|
    requires forall p: nat :: e <= p && Changed(ops, p) ==> Within([], p)
    ensures |From(dir, ops[..e])| <= |file|
    ensures file[|From(dir, ops[..e])|..] == To(dir, ops[e..])
  {
    SidesSplit(dir, ops, e, e);
    assert ops[e..|ops|] == ops[e..];
    KeptSlice(dir, ops, e, |ops|);
    hide From, To;
    assert file == From(dir, ops[..e]) + From(dir, ops[e..]);
  }

  /** The body of the hunk [s, t), applied where it belongs. */
  lemma BodyAt(ops: seq<Op>, dir: Direction, file: seq<string>, s: nat, t: nat, rest: string)
    requires LineTexts(ops) && From(dir, ops) == file && s <= t <= |ops|
    requires rest == "" || rest[0] == '@'
    ensures var seg, from := ops[s..t], |From(dir, ops[..s])|;
      && from + |From(dir, seg)| <= |file|
      && ApplyBody(Body(seg) + rest, dir, file, from, |From(dir, seg)|, |To(dir, seg)|)
         == Some((To(dir, seg), rest, from + |From(dir, seg)|))
  {
    SidesSplit(dir, ops, s, t);
    SegmentTexts(ops, s, t);
    hide *;
    var seg := ops[s..t];
    Middle(From(dir, ops[..s]), From(dir, seg), From(dir, ops[t..]));
    BodyApplies(seg, dir, file, |From(dir, ops[..s])|, rest);
  }

  lemma SegmentTexts(ops: seq<Op>, s: nat, t: nat)
    requires LineTexts(ops) && s <= t <= |ops|
    ensures LineTexts(ops[s..t])
  {}

  lemma Middle(x: seq<string>, y: seq<string>, z: seq<string>)
    ensures var file := x + y + z; |x| + |y| <= |file| && file[|x|..|x| + |y|] == y
  {
  }

  /** The lines between two hunks are copied. */
  lemma CopiedBetween(ops: seq<Op>, dir: Direction, file: seq<string>, e: nat, s: nat)
    requires From(dir, ops) == file && e <= s <= |ops|
    requires forall p: nat :: e <= p < s ==> !Changed(ops, p)
    ensures var pos, from := |From(dir, ops[..e])|, |From(dir, ops[..s])|;
      && pos <= from <= |file| && file[pos..from] == To(dir, ops[e..s])
      && |To(dir, ops[..s])| == |To(dir, ops[..e])| + (from - pos)
  {
    SidesSplit(dir, ops, e, s);
    KeptSlice(dir, ops, e, s);
    hide From, To;
    assert file[..|From(dir, ops[..s])|] == From(dir, ops[..s]);
  }

  lemma HunkApplied(ops: seq<Op>, r: Range, dir: Direction, file: seq<string>, e: nat, s: nat, t: nat, text: string,
                    rest: string)
    requires LineTexts(ops) && From(dir, ops) == file && e <= s < t <= |ops|
    requires forall p: nat :: e <= p < s ==> !Changed(ops, p)
    requires ReadRange(text) == Some((r, Body(ops[s..t]) + rest)) && |rest| < |text| && (rest == "" || rest[0] == '@')
    requires FromStart(dir, r) == |From(dir, ops[..s])| && FromCount(dir, r) == |From(dir, ops[s..t])|
    requires ToStart(dir, r) == |To(dir, ops[..s])| && ToCount(dir, r) == |To(dir, ops[s..t])|
    requires |From(dir, ops[..e])| <= |file| && |From(dir, ops[..t])| <= |file|
    requires ApplyHunks(rest, dir, file, |From(dir, ops[..t])|, |To(dir, ops[..t])|) == Some(To(dir, ops[t..]))
    ensures ApplyHunks(text, dir, file, |From(dir, ops[..e])|, |To(dir, ops[..e])|) == Some(To(dir, ops[e..]))
  {
    hide *;
    var seg := ops[s..t];
    BodyAt(ops, dir, file, s, t, rest);
    CopiedBetween(ops, dir, file, e, s);
    SidesSplit(dir, ops, s, t);
    SidesSplit(dir, ops, e, s);
    ApplyHunksStep(text, r, Body(seg) + rest, dir, file, |From(dir, ops[..e])|, |To(dir, ops[..e])|,
                   To(dir, seg), rest, To(dir, ops[t..]));
    NestedLines(To(dir, ops[e..s]), To(dir, seg), To(dir, ops[t..]));
  }

  /** The text of the hunks, read up to the body of the first. */
  lemma HunkReads(ops: seq<Op>, hs: seq<Hunk>, dir: Direction, e: nat)
    requires Numbered(ops, 0, 0) && hs != [] && InOrder(ops, hs, e)
    ensures var s, t := hs[0].start, hs[0].end;
      var seg, rest, text := ops[s..t], HunksText(ops, hs[1..]), HunksText(ops, hs);
      var r := RangeOf(seg);
      && ReadRange(text) == Some((r, Body(seg) + rest)) && |rest| < |text|
      && (rest == "" || rest[0] == '@')
      && FromStart(dir, r) == |From(dir, ops[..s])| && FromCount(dir, r) == |From(dir, seg)|
      && ToStart(dir, r) == |To(dir, ops[..s])| && ToCount(dir, r) == |To(dir, seg)|
  {
    var s, t := hs[0].start, hs[0].end;
    var seg, rest := ops[s..t], HunksText(ops, hs[1..]);
    assert InBounds(ops, hs[1..]);
    assert |seg| == t - s;
    hide *;
    TailStarts(ops, hs[1..]);
    HunkTextSplit(ops, hs);
    PrintedRange(RangeOf(seg));
    RangePositions(ops, s, t, dir);
    ReadRangePrinted(RangeOf(seg), Body(seg) + rest);
  }

  lemma PrintedRange(r: Range)
    ensures |PrintRange(r)| > 0
  {
    assert PrintRange(r)[0] == '@';
  }

  lemma NestedLines(x: seq<string>, y: seq<string>, z: seq<string>)
    ensures x + y + z == x + (y + z)
  {}

  lemma TailStarts(ops: seq<Op>, hs: seq<Hunk>)
    requires InBounds(ops, hs)
    ensures var t := HunksText(ops, hs); t == "" || t[0] == '@'
  {
    if hs != [] {
      var h := HunkText(ops[hs[0].start..hs[0].end]);
      assert h[0] == '@';
    }
  }

  lemma HunkTextSplit(ops: seq<Op>, hs: seq<Hunk>)
    requires hs != []
    requires InBounds(ops, hs)
    ensures var seg := ops[hs[0].start..hs[0].end];
      HunksText(ops, hs) == PrintRange(RangeOf(seg)) + (Body(seg) + HunksText(ops, hs[1..]))
  {
    hide PrintRange, Body, RangeOf;
    var seg, rest := ops[hs[0].start..hs[0].end], HunksText(ops, hs[1..]);
    assert HunksText(ops, hs) == HunkText(seg) + rest;
    Nested(PrintRange(RangeOf(seg)), Body(seg), rest);
  }

  lemma Nested(x: string, y: string, z: string)
    ensures x + y + z == x + (y + z)
  {}

  // ----- the theorem ------------------------------------------------------------------------

  lemma HunkAt(ops: seq<Op>, hs: seq<Hunk>, k: nat)
    requires Laid(ops, hs) && k < |hs|
    ensures hs[k].start <= hs[k].first && hs[k].last < hs[k].end <= |ops| && hs[k].start < hs[k].end
    ensures forall j :: 0 <= j < k ==> hs[j].end <= hs[k].start
  {
    assert IsHunk(ops, hs[k]);
    hide ChangeNear;
  }

  /** A grouping is in order from the beginning on. */
  lemma GroupedInOrder(ops: seq<Op>, hs: seq<Hunk>)
    requires Grouped(ops, hs)
    ensures InOrder(ops, hs, 0)
  {
    hide Laid, Changed;
    forall k: nat | k < |hs|
      ensures hs[k].start < hs[k].end <= |ops| && (forall j :: 0 <= j < k ==> hs[j].end <= hs[k].start)
    {
      HunkAt(ops, hs, k);
    }
    forall p: nat | Changed(ops, p)
      ensures Within(hs, p)
    {
      assert Covered(hs, p);
      var k: nat :| 0 <= k < |hs| && hs[k].first <= p <= hs[k].last;
      HunkAt(ops, hs, k);
    }
  }

  lemma AllLinesTail(head: seq<string>, tail: seq<string>)
    requires forall i :: 0 <= i < |head + tail| ==> IsLine((head + tail)[i])
    ensures forall i :: 0 <= i < |tail| ==> IsLine(tail[i])
    ensures head != [] ==> IsLine(head[0])
  {
    hide IsLine;
    assert forall i :: 0 <= i < |tail| ==> tail[i] == (head + tail)[|head| + i];
    assert head != [] ==> head[0] == (head + tail)[0];
  }

  lemma {:induction false} SideTexts(ops: seq<Op>)
    requires forall i :: 0 <= i < |OldSide(ops)| ==> IsLine(OldSide(ops)[i])
    requires forall i :: 0 <= i < |NewSide(ops)| ==> IsLine(NewSide(ops)[i])
    ensures LineTexts(ops)
  {
    if ops != [] {
      var o := if ops[0].kind != Insert then [ops[0].text] else [];
      var n := if ops[0].kind != Delete then [ops[0].text] else [];
      assert OldSide(ops) == o + OldSide(ops[1..]) && NewSide(ops) == n + NewSide(ops[1..]);
      AllLinesTail(o, OldSide(ops[1..]));
      AllLinesTail(n, NewSide(ops[1..]));
      SideTexts(ops[1..]);
      hide IsLine, OldSide, NewSide;
      assert forall p :: 0 < p < |ops| ==> ops[p] == ops[1..][p - 1];
    }
  }

  lemma ScriptTexts(a: string, b: string)
    ensures LineTexts(Script(Lines(a), Lines(b), 0, 0))
  {
    LinesJoin(a);
    LinesJoin(b);
    ScriptEdits(Lines(a), Lines(b));
    SideTexts(Script(Lines(a), Lines(b), 0, 0));
  }

  lemma HunksApplyAll(ops: seq<Op>, hs: seq<Hunk>, dir: Direction)
    requires Numbered(ops, 0, 0) && LineTexts(ops) && InOrder(ops, hs, 0)
    ensures ApplyHunks(HunksText(ops, hs), dir, From(dir, ops), 0, 0) == Some(To(dir, ops))
  {
    HunksApply(ops, hs, dir, From(dir, ops), 0);
    assert ops[0..] == ops && ops[..0] == [];
  }

  lemma ApplyPrinted(name: string, hunks: string, dir: Direction, content: string, lines: seq<string>)
    requires ApplyHunks(hunks, dir, Lines(content), 0, 0) == Some(lines)
    ensures FileHeader(name) + hunks != ""
    ensures Apply(name, FileHeader(name) + hunks, dir, content) == Some(Concat(lines))
  {
    HeaderReads(name, hunks);
    assert FileHeader(name)[0] == '-';
    hide ApplyHunks, Lines, FileHeader, ReadHeader;
  }

  lemma HeaderReads(name: string, hunks: string)
    ensures ReadHeader(FileHeader(name) + hunks, name) == Some(hunks)
  {
    var second := name + "\n" + hunks;
    assert FileHeader(name) + hunks == "--- a/" + ((name + "\n" + "+++ b/") + (name + "\n" + hunks));
    StripPrinted("--- a/", (name + "\n" + "+++ b/") + second);
    StripPrinted(name + "\n" + "+++ b/", second);
    StripPrinted(name + "\n", hunks);
    hide FileHeader, Strip;
  }

  /** What unifiedDiff prints for `a` and `b`, applied to `a`, gives `b`; applied backwards to `b`, it
      gives `a`. */
  lemma PatchApplies(name: string, a: string, b: string, hs: seq<Hunk>, out: string)
    requires PrintedDiff(name, a, b, hs, out)
    ensures Apply(name, out, Forward, a) == Some(b)
    ensures Apply(name, out, Backward, b) == Some(a)
  {
    var ops := Script(Lines(a), Lines(b), 0, 0);
    hide Script, Lines, Concat, HunksText, FileHeader, ApplyHunks, ReadHeader, Numbered, LineTexts, Apply;
    ScriptEdits(Lines(a), Lines(b));
    ScriptTexts(a, b);
    LinesJoin(a);
    LinesJoin(b);
    GroupedInOrder(ops, hs);
    HunksApplyAll(ops, hs, Forward);
    HunksApplyAll(ops, hs, Backward);
    ApplyPrinted(name, HunksText(ops, hs), Forward, a, Lines(b));
    ApplyPrinted(name, HunksText(ops, hs), Backward, b, Lines(a));
  }

  /** A printed diff begins with two lines that name the old and the new file, and goes on with a hunk. */
  lemma DiffBegins(name: string, a: string, b: string, hs: seq<Hunk>, out: string)
    requires PrintedDiff(name, a, b, hs, out) && a != b
    ensures ("--- a/" + name + "\n") + ("+++ b/" + name + "\n") + "@@ -" <= out
  {
    hide PrintedHunks, HunksText;
    var ops := Script(Lines(a), Lines(b), 0, 0);
    ghost var text :| PrintedHunks(ops, hs, text) && out == FileHeader(name) + text;
    SomeHunk(a, b, hs, text);
    HunksBegin(ops, hs, text);
    hide Script, Lines;
    assert out == ("--- a/" + name + "\n") + ("+++ b/" + name + "\n") + text;
  }

  /** Different files have a change between them. */
  lemma SomeHunk(a: string, b: string, hs: seq<Hunk>, text: string)
    requires PrintedHunks(Script(Lines(a), Lines(b), 0, 0), hs, text) && a != b
    ensures hs != []
  {
    var ops := Script(Lines(a), Lines(b), 0, 0);
    ScriptEdits(Lines(a), Lines(b));
    LinesJoin(a);
    LinesJoin(b);
    hide Script, Lines, Concat, Numbered, OldSide, NewSide, Laid, HunksText;
    if hs == [] {
      forall p: nat
        ensures !Changed(ops, p)
      {
        assert !Covered(hs, p);
      }
      AllKept(ops);
    }
  }

  lemma {:induction false} AllKept(ops: seq<Op>)
    requires forall p: nat :: !Changed(ops, p)
    ensures OldSide(ops) == NewSide(ops)
  {
    if ops != [] {
      assert !Changed(ops, 0);
      forall p: nat
        ensures !Changed(ops[1..], p)
      {
        assert !Changed(ops, p + 1);
      }
      AllKept(ops[1..]);
    }
  }

  lemma HunksBegin(ops: seq<Op>, hs: seq<Hunk>, text: string)
    requires PrintedHunks(ops, hs, text) && hs != []
    ensures "@@ -" <= text
  {
    hide Grouped, HunksText, RangeOf, PrintRange;
    HunkTextSplit(ops, hs);
    RangeBegins(RangeOf(ops[hs[0].start..hs[0].end]));
  }

  lemma RangeBegins(r: Range)
    ensures "@@ -" <= PrintRange(r)
  {
    hide Decimal;
    var text := PrintRange(r);
    assert text[0] == '@' && text[1] == '@' && text[2] == ' ' && text[3] == '-';
  }

  /** unifiedDiff and the applier: whatever the two files are, the printed text turns each into the
      other. */
  method DiffAndPatch(name: string, a: string, b: string) returns (out: string)
    ensures out == "" <==> a == b
    ensures a != b ==> ("--- a/" + name + "\n") + ("+++ b/" + name + "\n") + "@@ -" <= out
    ensures Apply(name, out, Forward, a) == Some(b)
    ensures Apply(name, out, Backward, b) == Some(a)
  {
    out := UnifiedDiff(name, a, b);
    if a != b {
      ghost var hunks :| PrintedDiff(name, a, b, hunks, out);
      PatchApplies(name, a, b, hunks, out);
      DiffBegins(name, a, b, hunks, out);
    }
  }
}
