/** The line diff of internal/cli/udiff.go: the longest-common-subsequence table, the walk over it,
    and what makes the resulting edit script right and minimal. */
module Diff {
  datatype Kind = Keep | Delete | Insert

  type Position = n: nat | n > 0 witness 1

  /** One line of a diff. Positions are 1-based; an inserted line carries the position of the next
      old line, a deleted one the position of the next new line. */
  datatype Op = Op(kind: Kind, text: string, aLine: Position, bLine: Position)

  // ----- what a script says about its two sides -------------------------------

  /** The lines a script keeps or deletes: the old side. */
  function OldSide(ops: seq<Op>): seq<string> {
    if ops == [] then []
    else (if ops[0].kind != Insert then [ops[0].text] else []) + OldSide(ops[1..])
  }

  /** The lines a script keeps or inserts: the new side. */
  function NewSide(ops: seq<Op>): seq<string> {
    if ops == [] then []
    else (if ops[0].kind != Delete then [ops[0].text] else []) + NewSide(ops[1..])
  }

  /** The lines a script keeps. */
  function KeptLines(ops: seq<Op>): seq<string> {
    if ops == [] then []
    else (if ops[0].kind == Keep then [ops[0].text] else []) + KeptLines(ops[1..])
  }

  /** The number of lines a script deletes or inserts. */
  function Changes(ops: seq<Op>): nat {
    if ops == [] then 0 else (if ops[0].kind != Keep then 1 else 0) + Changes(ops[1..])
  }

  /** The script edits `a` into `b`. */
  ghost predicate Edits(ops: seq<Op>, a: seq<string>, b: seq<string>) {
    OldSide(ops) == a && NewSide(ops) == b
  }

  /** Every operation of `ops` carries the line it stands at, the first one standing `i` old and `j`
      new lines into the files. */
  ghost predicate Numbered(ops: seq<Op>, i: nat, j: nat) {
    ops == [] ||
    (ops[0].aLine == i + 1 && ops[0].bLine == j + 1 &&
     Numbered(ops[1..], if ops[0].kind != Insert then i + 1 else i, if ops[0].kind != Delete then j + 1 else j))
  }

  /** `c` can be read off `s` by leaving lines out. */
  ghost predicate Subsequence(c: seq<string>, s: seq<string>) {
    c == [] || (s != [] && ((c[0] == s[0] && Subsequence(c[1..], s[1..])) || Subsequence(c, s[1..])))
  }

  /** The sides of a script, one operation further. */
  lemma SidesOfOne(op: Op, ops: seq<Op>)
    ensures OldSide([op] + ops) == (if op.kind != Insert then [op.text] else []) + OldSide(ops)
    ensures NewSide([op] + ops) == (if op.kind != Delete then [op.text] else []) + NewSide(ops)
    ensures KeptLines([op] + ops) == (if op.kind == Keep then [op.text] else []) + KeptLines(ops)
  {
    assert ([op] + ops)[1..] == ops;
  }

  lemma Associative<T>(x: seq<T>, y: seq<T>, z: seq<T>)
    ensures x + (y + z) == (x + y) + z
  {}

  lemma {:induction false} SidesAppend(x: seq<Op>, y: seq<Op>)
    ensures OldSide(x + y) == OldSide(x) + OldSide(y)
    ensures NewSide(x + y) == NewSide(x) + NewSide(y)
  {
    if x == [] {
      assert x + y == y;
    } else {
      SidesAppend(x[1..], y);
      SidesOfOne(x[0], x[1..]);
      SidesOfOne(x[0], x[1..] + y);
      hide OldSide, NewSide, KeptLines;
      assert [x[0]] + x[1..] == x && [x[0]] + (x[1..] + y) == x + y;
      Associative(if x[0].kind != Insert then [x[0].text] else [], OldSide(x[1..]), OldSide(y));
      Associative(if x[0].kind != Delete then [x[0].text] else [], NewSide(x[1..]), NewSide(y));
    }
  }

  // ----- the table and the walk --------------------------------------------------

  /** The table entry for the lines of `a` from `i` on and the lines of `b` from `j` on. */
  function Lcs(a: seq<string>, b: seq<string>, i: nat, j: nat): nat
    requires i <= |a| && j <= |b|
    decreases |a| - i + |b| - j
  {
    if i == |a| || j == |b| then 0
    else if a[i] == b[j] then Lcs(a, b, i + 1, j + 1) + 1
    else if Lcs(a, b, i + 1, j) >= Lcs(a, b, i, j + 1) then Lcs(a, b, i + 1, j)
    else Lcs(a, b, i, j + 1)
  }

  /** The script the walk produces from table position (i, j) on. */
  function Script(a: seq<string>, b: seq<string>, i: nat, j: nat): seq<Op>
    requires i <= |a| && j <= |b|
    decreases |a| - i + |b| - j
  {
    if i < |a| && j < |b| && a[i] == b[j] then
      [Op(Keep, a[i], i + 1, j + 1)] + Script(a, b, i + 1, j + 1)
    else if i < |a| && (j == |b| || Lcs(a, b, i + 1, j) >= Lcs(a, b, i, j + 1)) then
      [Op(Delete, a[i], i + 1, j + 1)] + Script(a, b, i + 1, j)
    else if j < |b| then
      [Op(Insert, b[j], i + 1, j + 1)] + Script(a, b, i, j + 1)
    else []
  }

  lemma LcsEnds(a: seq<string>, b: seq<string>)
    ensures forall x :: 0 <= x <= |a| ==> Lcs(a, b, x, |b|) == 0
    ensures forall y :: 0 <= y <= |b| ==> Lcs(a, b, |a|, y) == 0
  {}

  lemma LcsStep(a: seq<string>, b: seq<string>, i: nat, j: nat)
    requires i < |a| && j < |b|
    ensures Lcs(a, b, i, j) ==
      if a[i] == b[j] then Lcs(a, b, i + 1, j + 1) + 1
      else if Lcs(a, b, i + 1, j) >= Lcs(a, b, i, j + 1) then Lcs(a, b, i + 1, j)
      else Lcs(a, b, i, j + 1)
  {}

  /** The table of diffOps, filled in place from the ends of the files to their beginnings. */
  method LcsTable(a: seq<string>, b: seq<string>) returns (lcs: array2<nat>)
    ensures fresh(lcs) && lcs.Length0 == |a| + 1 && lcs.Length1 == |b| + 1
    ensures forall x, y :: 0 <= x <= |a| && 0 <= y <= |b| ==> lcs[x, y] == Lcs(a, b, x, y)
  {
    hide Lcs;
    lcs := new nat[|a| + 1, |b| + 1]((_, _) => 0);
    LcsEnds(a, b);
    forall y | 0 <= y <= |b|
      ensures lcs[|a|, y] == Lcs(a, b, |a|, y)
    {
      assert Lcs(a, b, |a|, y) == 0;
    }
    var i := |a|;
    while i > 0
      invariant 0 <= i <= |a|
      invariant forall x :: 0 <= x < i ==> lcs[x, |b|] == 0
      invariant forall x, y :: i <= x <= |a| && 0 <= y <= |b| ==> lcs[x, y] == Lcs(a, b, x, y)
    {
      i := i - 1;
      var j := |b|;
      while j > 0
        invariant 0 <= j <= |b|
        invariant forall x :: 0 <= x < i ==> lcs[x, |b|] == 0
        invariant forall y :: j <= y <= |b| ==> lcs[i, y] == Lcs(a, b, i, y)
        invariant forall x, y :: i < x <= |a| && 0 <= y <= |b| ==> lcs[x, y] == Lcs(a, b, x, y)
      {
        j := j - 1;
        LcsStep(a, b, i, j);
        if a[i] == b[j] {
          lcs[i, j] := lcs[i + 1, j + 1] + 1;
        } else if lcs[i + 1, j] >= lcs[i, j + 1] {
          lcs[i, j] := lcs[i + 1, j];
        } else {
          lcs[i, j] := lcs[i, j + 1];
        }
      }
    }
  }

  lemma ScriptStep(a: seq<string>, b: seq<string>, i: nat, j: nat, done: seq<Op>)
    requires i <= |a| && j <= |b|
    ensures i == |a| && j == |b| ==> done + Script(a, b, i, j) == done
    ensures i < |a| && j < |b| && a[i] == b[j] ==>
      done + Script(a, b, i, j) == done + [Op(Keep, a[i], i + 1, j + 1)] + Script(a, b, i + 1, j + 1)
    ensures i < |a| && j < |b| && a[i] != b[j] ==>
      done + Script(a, b, i, j) ==
        if Lcs(a, b, i + 1, j) >= Lcs(a, b, i, j + 1)
        then done + [Op(Delete, a[i], i + 1, j + 1)] + Script(a, b, i + 1, j)
        else done + [Op(Insert, b[j], i + 1, j + 1)] + Script(a, b, i, j + 1)
    ensures i < |a| && j == |b| ==>
      done + Script(a, b, i, j) == done + [Op(Delete, a[i], i + 1, j + 1)] + Script(a, b, i + 1, j)
    ensures i == |a| && j < |b| ==>
      done + Script(a, b, i, j) == done + [Op(Insert, b[j], i + 1, j + 1)] + Script(a, b, i, j + 1)
  {}

  /** diffOps: fills the table, then walks it from the beginnings of the files. */
  method DiffOps(a: seq<string>, b: seq<string>) returns (ops: seq<Op>)
    ensures ops == Script(a, b, 0, 0)
  {
    hide Lcs, Script;
    var lcs := LcsTable(a, b);
    ops := [];
    var i, j := 0, 0;
    while i < |a| && j < |b|
      invariant 0 <= i <= |a| && 0 <= j <= |b|
      invariant ops + Script(a, b, i, j) == Script(a, b, 0, 0)
      decreases |a| - i + |b| - j
      modifies {}
    {
      ScriptStep(a, b, i, j, ops);
      if a[i] == b[j] {
        ops := ops + [Op(Keep, a[i], i + 1, j + 1)];
        i, j := i + 1, j + 1;
      } else if lcs[i + 1, j] >= lcs[i, j + 1] {
        ops := ops + [Op(Delete, a[i], i + 1, j + 1)];
        i := i + 1;
      } else {
        ops := ops + [Op(Insert, b[j], i + 1, j + 1)];
        j := j + 1;
      }
    }
    while i < |a|
      invariant 0 <= i <= |a| && 0 <= j <= |b|
      invariant i == |a| || j == |b|
      invariant ops + Script(a, b, i, j) == Script(a, b, 0, 0)
    {
      ScriptStep(a, b, i, j, ops);
      ops := ops + [Op(Delete, a[i], i + 1, j + 1)];
      i := i + 1;
    }
    while j < |b|
      invariant i == |a| && 0 <= j <= |b|
      invariant ops + Script(a, b, i, j) == Script(a, b, 0, 0)
    {
      ScriptStep(a, b, i, j, ops);
      ops := ops + [Op(Insert, b[j], i + 1, j + 1)];
      j := j + 1;
    }
    ScriptStep(a, b, i, j, ops);
  }

  // ----- the script is right ------------------------------------------------------

  /** What a script that goes on after one operation says. */
  lemma OneOperation(op: Op, ops: seq<Op>, i: nat, j: nat, x: seq<string>, y: seq<string>)
    requires op.aLine == i + 1 && op.bLine == j + 1 && Edits(ops, x, y)
    requires Numbered(ops, if op.kind != Insert then i + 1 else i, if op.kind != Delete then j + 1 else j)
    ensures Edits([op] + ops, (if op.kind != Insert then [op.text] else []) + x,
                  (if op.kind != Delete then [op.text] else []) + y)
    ensures Numbered([op] + ops, i, j)
    ensures |KeptLines([op] + ops)| == (if op.kind == Keep then 1 else 0) + |KeptLines(ops)|
  {
    SidesOfOne(op, ops);
    assert ([op] + ops)[1..] == ops;
    hide OldSide, NewSide, KeptLines;
  }

  lemma ScriptTakes(a: seq<string>, b: seq<string>, i: nat, j: nat)
    requires i <= |a| && j <= |b|
    ensures i < |a| && j < |b| && a[i] == b[j] ==>
      && Script(a, b, i, j) == [Op(Keep, a[i], i + 1, j + 1)] + Script(a, b, i + 1, j + 1)
      && Lcs(a, b, i, j) == Lcs(a, b, i + 1, j + 1) + 1
    ensures i < |a| && (j == |b| || (a[i] != b[j] && Lcs(a, b, i + 1, j) >= Lcs(a, b, i, j + 1))) ==>
      && Script(a, b, i, j) == [Op(Delete, a[i], i + 1, j + 1)] + Script(a, b, i + 1, j)
      && Lcs(a, b, i, j) == Lcs(a, b, i + 1, j)
    ensures j < |b| && (i == |a| || (a[i] != b[j] && Lcs(a, b, i + 1, j) < Lcs(a, b, i, j + 1))) ==>
      && Script(a, b, i, j) == [Op(Insert, b[j], i + 1, j + 1)] + Script(a, b, i, j + 1)
      && Lcs(a, b, i, j) == Lcs(a, b, i, j + 1)
    ensures i == |a| && j == |b| ==> Script(a, b, i, j) == [] && Lcs(a, b, i, j) == 0
  {}

  lemma HeadLine(a: seq<string>, i: nat)
    requires i < |a|
    ensures a[i..] == [a[i]] + a[i + 1..]
  {}

  lemma {:induction false} ScriptSides(a: seq<string>, b: seq<string>, i: nat, j: nat)
    requires i <= |a| && j <= |b|
    ensures Edits(Script(a, b, i, j), a[i..], b[j..])
    ensures Numbered(Script(a, b, i, j), i, j)
    ensures |KeptLines(Script(a, b, i, j))| == Lcs(a, b, i, j)
    decreases |a| - i + |b| - j
  {
    ScriptTakes(a, b, i, j);
    if i == |a| && j == |b| {
      NoOperation(i, j);
      hide *;
    } else if i < |a| && j < |b| && a[i] == b[j] {
      hide *;
      ScriptSides(a, b, i + 1, j + 1);
      HeadLine(a, i);
      HeadLine(b, j);
      OneOperation(Op(Keep, a[i], i + 1, j + 1), Script(a, b, i + 1, j + 1), i, j, a[i + 1..], b[j + 1..]);
    } else if i < |a| && (j == |b| || Lcs(a, b, i + 1, j) >= Lcs(a, b, i, j + 1)) {
      hide *;
      ScriptSides(a, b, i + 1, j);
      HeadLine(a, i);
      OneOperation(Op(Delete, a[i], i + 1, j + 1), Script(a, b, i + 1, j), i, j, a[i + 1..], b[j..]);
      assert [] + b[j..] == b[j..];
    } else {
      hide *;
      ScriptSides(a, b, i, j + 1);
      HeadLine(b, j);
      OneOperation(Op(Insert, b[j], i + 1, j + 1), Script(a, b, i, j + 1), i, j, a[i..], b[j + 1..]);
      assert [] + a[i..] == a[i..];
    }
  }

  lemma NoOperation(i: nat, j: nat)
    ensures Edits([], [], []) && Numbered([], i, j) && KeptLines([]) == []
  {}

  /** The edit script spells `a` on its old side and `b` on its new side, and its line numbers are
      those of the two files. */
  lemma ScriptEdits(a: seq<string>, b: seq<string>)
    ensures Edits(Script(a, b, 0, 0), a, b)
    ensures Numbered(Script(a, b, 0, 0), 0, 0)
  {
    ScriptSides(a, b, 0, 0);
    assert a[0..] == a && b[0..] == b;
  }

  /** Between two kept lines, what is deleted stands before what is inserted. */
  lemma {:induction false} DeletionsFirst(a: seq<string>, b: seq<string>, i: nat, j: nat, p: nat)
    requires i <= |a| && j <= |b| && p + 1 < |Script(a, b, i, j)|
    ensures !(Script(a, b, i, j)[p].kind == Insert && Script(a, b, i, j)[p + 1].kind == Delete)
    decreases |a| - i + |b| - j
  {
    var kind := Script(a, b, i, j)[0].kind;
    if p == 0 {
      if kind == Insert && j + 1 < |b| && i < |a| {
        LcsSteps(a, b, i + 1, j);
      }
    } else if kind == Keep {
      DeletionsFirst(a, b, i + 1, j + 1, p - 1);
    } else if kind == Delete {
      DeletionsFirst(a, b, i + 1, j, p - 1);
    } else {
      DeletionsFirst(a, b, i, j + 1, p - 1);
    }
  }

  // ----- and minimal ----------------------------------------------------------------

  /** Dropping one line loses at most one match. */
  lemma {:induction false} LcsSteps(a: seq<string>, b: seq<string>, i: nat, j: nat)
    requires i <= |a| && j <= |b|
    ensures i < |a| ==> Lcs(a, b, i + 1, j) <= Lcs(a, b, i, j) <= Lcs(a, b, i + 1, j) + 1
    ensures j < |b| ==> Lcs(a, b, i, j + 1) <= Lcs(a, b, i, j) <= Lcs(a, b, i, j + 1) + 1
    decreases |a| - i + |b| - j
  {
    if i < |a| && j < |b| {
      LcsSteps(a, b, i + 1, j);
      LcsSteps(a, b, i, j + 1);
      LcsSteps(a, b, i + 1, j + 1);
    }
  }

  /** No common subsequence is longer than the table entry. */
  lemma {:induction false} LcsBound(a: seq<string>, b: seq<string>, i: nat, j: nat, c: seq<string>)
    requires i <= |a| && j <= |b|
    requires Subsequence(c, a[i..]) && Subsequence(c, b[j..])
    ensures |c| <= Lcs(a, b, i, j)
    decreases |a| - i + |b| - j
  {
    if c != [] {
      assert a[i..][1..] == a[i + 1..] && b[j..][1..] == b[j + 1..];
      LcsSteps(a, b, i, j);
      if !(c[0] == a[i] && Subsequence(c[1..], a[i + 1..])) {
        LcsBound(a, b, i + 1, j, c);
      } else if !(c[0] == b[j] && Subsequence(c[1..], b[j + 1..])) {
        LcsBound(a, b, i, j + 1, c);
      } else {
        LcsBound(a, b, i + 1, j + 1, c[1..]);
      }
    }
  }

  /** What a script keeps is a common subsequence of its sides, and the rest of both sides is what it
      changes. */
  lemma {:induction false} KeptIsCommon(ops: seq<Op>)
    ensures Subsequence(KeptLines(ops), OldSide(ops))
    ensures Subsequence(KeptLines(ops), NewSide(ops))
    ensures Changes(ops) == |OldSide(ops)| + |NewSide(ops)| - 2 * |KeptLines(ops)|
  {
    if ops != [] {
      KeptIsCommon(ops[1..]);
      var k, o, n := KeptLines(ops[1..]), OldSide(ops[1..]), NewSide(ops[1..]);
      assert ops[0].kind != Insert ==> OldSide(ops)[1..] == o;
      assert ops[0].kind != Delete ==> NewSide(ops)[1..] == n;
      assert ops[0].kind == Keep ==> KeptLines(ops)[1..] == k;
      assert ops[0].kind != Keep ==> KeptLines(ops) == k;
      assert ops[0].kind == Delete ==> NewSide(ops) == n;
      assert ops[0].kind == Insert ==> OldSide(ops) == o;
    }
  }

  /** The kept lines are a longest common subsequence of `a` and `b`. */
  lemma KeepsLongestCommonSubsequence(a: seq<string>, b: seq<string>)
    ensures var kept := KeptLines(Script(a, b, 0, 0));
      && Subsequence(kept, a) && Subsequence(kept, b)
      && forall c :: Subsequence(c, a) && Subsequence(c, b) ==> |c| <= |kept|
  {
    ScriptEdits(a, b);
    ScriptSides(a, b, 0, 0);
    KeptIsCommon(Script(a, b, 0, 0));
    forall c | Subsequence(c, a) && Subsequence(c, b)
      ensures |c| <= Lcs(a, b, 0, 0)
    {
      assert a[0..] == a && b[0..] == b;
      LcsBound(a, b, 0, 0, c);
    }
  }

  /** No script that edits `a` into `b` deletes and inserts fewer lines. */
  lemma FewestChanges(a: seq<string>, b: seq<string>, other: seq<Op>)
    requires Edits(other, a, b)
    ensures Changes(Script(a, b, 0, 0)) <= Changes(other)
  {
    ScriptEdits(a, b);
    KeepsLongestCommonSubsequence(a, b);
    KeptIsCommon(Script(a, b, 0, 0));
    KeptIsCommon(other);
  }
}
