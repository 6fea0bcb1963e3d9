/** internal/cli/upgrade.go: the text of .gin-kit.sum, written by writeBaseline and read by readBaseline. */
module Baseline {
  import opened Text
  import opened Order

  type Sums = map<string, string>

  datatype ReadResult = Read(sums: Sums) | Invalid(line: nat)

  // ----- fields -----------------------------------------------------------------------------------

  lemma WordLengthOf(word: string, rest: string)
    requires IsField(word) && (rest == "" || IsSpace(rest[0]))
    ensures WordLength(word + rest) == |word|
  {
    var s := word + rest;
    var n := WordLength(s);
    hide WordLength, IsSpace;
    assert forall i :: 0 <= i < |word| ==> s[i] == word[i];
    if n > |word| {
      NotWord(s[..n], |word|);
    }
  }

  lemma NotWord(s: string, i: nat)
    requires i < |s| && IsSpace(s[i])
    ensures !IsWord(s)
  {
    hide IsSpace;
  }

  lemma FieldsOfWord(word: string, rest: string)
    requires IsField(word) && (rest == "" || IsSpace(rest[0]))
    ensures Fields(word + rest) == [word] + Fields(rest)
  {
    WordLengthOf(word, rest);
    hide WordLength, IsSpace;
    assert (word + rest)[..|word|] == word && (word + rest)[|word|..] == rest;
  }

  lemma FieldsOfSpaces(word: string)
    requires IsField(word)
    ensures Fields("  " + word) == [word]
  {
    FieldsOfWord(word, "");
    assert word + "" == word;
    assert ("  " + word)[1..] == " " + word && (" " + word)[1..] == word;
    hide WordLength;
  }

  /** The fields of a written line. */
  lemma FieldsOfPair(hash: string, path: string)
    requires IsField(hash) && IsField(path)
    ensures Fields(hash + "  " + path) == [hash, path]
  {
    FieldsOfWord(hash, "  " + path);
    FieldsOfSpaces(path);
    hide Fields;
    assert hash + "  " + path == hash + ("  " + path);
  }

  // ----- reading ------------------------------------------------------------------------------------

  /** The entries after one line; None for a line that is not blank and does not hold two fields. */
  function ReadLine(sums: Sums, line: string): Option<Sums> {
    var trimmed := TrimSpace(line);
    if trimmed == "" then Some(sums)
    else
      var fields := Fields(trimmed);
      if |fields| != 2 then None else Some(sums[fields[1] := fields[0]])
  }

  function ReadLines(lines: seq<string>, number: nat, sums: Sums): ReadResult {
    if lines == [] then Read(sums)
    else
      var next := ReadLine(sums, lines[0]);
      if next.None? then Invalid(number) else ReadLines(lines[1..], number + 1, next.value)
  }

  /** What a baseline file says; a missing one says nothing. */
  function ReadSums(text: Option<string>): ReadResult {
    if text.None? then Read(map[]) else ReadLines(Split(text.value, '\n'), 1, map[])
  }

  // ----- which texts are read -------------------------------------------------------------------------

  /** A hash and a path, without white space, with white space between them and possibly around them. */
  ghost predicate IsEntry(line: string, hash: string, path: string) {
    IsField(hash) && IsField(path) && exists lead, gap, trail ::
      line == lead + hash + gap + path + trail && IsBlank(lead) && IsBlank(gap) && gap != "" && IsBlank(trail)
  }

  lemma {:induction false} NoFields(s: string)
    ensures Fields(s) == [] <==> IsBlank(s)
    decreases |s|
  {
    hide WordLength, IsSpace;
    if s != "" && IsSpace(s[0]) {
      NoFields(s[1..]);
      assert s == [s[0]] + s[1..];
    }
  }

  lemma FieldsStep(s: string)
    requires s != "" && !IsSpace(s[0])
    ensures var n := WordLength(s);
      && 0 < n <= |s| && Fields(s) == [s[..n]] + Fields(s[n..]) && IsField(s[..n])
      && (s[n..] == "" || IsSpace(s[n..][0])) && s == s[..n] + s[n..]
  {
    FieldsAre(s);
    WordIs(s);
    hide *;
    CutTail(s, WordLength(s));
  }

  lemma CutTail(s: string, n: nat)
    requires n <= |s|
    ensures s == s[..n] + s[n..] && (s[n..] == "" || (n < |s| && s[n..][0] == s[n]))
  {}

  lemma WordIs(s: string)
    requires s != "" && !IsSpace(s[0])
    ensures var n := WordLength(s); 0 < n <= |s| && IsField(s[..n]) && (n < |s| ==> IsSpace(s[n]))
  {
    hide WordLength, IsSpace, IsWord;
  }

  lemma FieldsAre(s: string)
    requires s != "" && !IsSpace(s[0])
    ensures var n := WordLength(s); n > 0 && Fields(s) == [s[..n]] + Fields(s[n..])
  {
    hide WordLength, IsSpace, IsWord;
  }

  lemma SpaceStep(s: string)
    requires s != "" && IsSpace(s[0])
    ensures Fields(s) == Fields(s[1..])
  {
    hide IsSpace;
  }

  /** The first field, with what stands before and behind it. */
  lemma {:induction false} FirstField(s: string) returns (lead: string, rest: string)
    requires Fields(s) != []
    ensures var first := Fields(s)[0];
      && s == lead + first + rest && IsBlank(lead) && IsField(first) && (rest == "" || IsSpace(rest[0]))
      && Fields(s)[1..] == Fields(rest)
    decreases |s|
  {
    hide IsSpace, Fields;
    if s == "" {
      NoFields(s);
      lead, rest := "", "";
    } else if IsSpace(s[0]) {
      SpaceStep(s);
      lead, rest := FirstField(s[1..]);
      lead := [s[0]] + lead;
      assert s == [s[0]] + s[1..];
    } else {
      FieldsStep(s);
      lead, rest := "", s[WordLength(s)..];
    }
  }

  lemma {:induction false} SkipBlank(lead: string, s: string)
    requires IsBlank(lead)
    ensures Fields(lead + s) == Fields(s)
  {
    hide IsSpace, Fields;
    if lead == "" {
      assert lead + s == s;
    } else {
      SkipBlank(lead[1..], s);
      SpaceStep(lead + s);
      assert (lead + s)[1..] == lead[1..] + s;
    }
  }

  lemma EntryReads(line: string, hash: string, path: string)
    requires IsEntry(line, hash, path)
    ensures Fields(line) == [hash, path]
  {
    hide Fields, IsSpace, IsField, IsBlank;
    var lead, gap, trail :|
      line == lead + hash + gap + path + trail && IsBlank(lead) && IsBlank(gap) && gap != "" && IsBlank(trail);
    PartsNested(lead, hash, gap, path, trail);
    SkipBlank(lead, hash + (gap + (path + trail)));
    PairReads(hash, gap, path, trail);
  }

  lemma PartsNested(a: string, b: string, c: string, d: string, e: string)
    ensures a + b + c + d + e == a + (b + (c + (d + e)))
  {}

  lemma PairReads(hash: string, gap: string, path: string, trail: string)
    requires IsField(hash) && IsField(path) && IsBlank(gap) && gap != "" && IsBlank(trail)
    ensures Fields(hash + (gap + (path + trail))) == [hash, path]
  {
    BeginsBlank(gap, path + trail);
    hide Fields, IsSpace, IsField, IsBlank;
    FieldsOfWord(hash, gap + (path + trail));
    SkipBlank(gap, path + trail);
    OneReads(path, trail);
  }

  lemma BeginsBlank(gap: string, rest: string)
    requires IsBlank(gap) && gap != ""
    ensures gap + rest != "" && IsSpace((gap + rest)[0])
  {
    hide IsSpace;
  }

  lemma OneReads(word: string, trail: string)
    requires IsField(word) && IsBlank(trail)
    ensures Fields(word + trail) == [word]
  {
    if trail != "" {
      BeginsBlank(trail, "");
      assert trail + "" == trail;
    }
    NoFields(trail);
    hide Fields, IsSpace, IsField, IsBlank;
    FieldsOfWord(word, trail);
  }

  lemma ReadIsEntry(line: string)
    requires |Fields(line)| == 2
    ensures IsEntry(line, Fields(line)[0], Fields(line)[1])
  {
    hide Fields, IsSpace;
    var lead, rest := FirstField(line);
    var gap, trail := FirstField(rest);
    NoFields(trail);
    assert line == lead + Fields(line)[0] + gap + Fields(line)[1] + trail;
  }

  /** Trimming a line does not change its fields. */
  lemma {:induction false} TrimmedFields(s: string)
    ensures Fields(TrimSpace(s)) == Fields(s)
    decreases |s|
  {
    hide IsSpace, Fields;
    if s != "" && IsSpace(s[0]) {
      SpaceStep(s);
      TrimmedFields(s[1..]);
    } else if s != "" && IsSpace(s[|s| - 1]) {
      TrimmedFields(s[..|s| - 1]);
      DropLast(s[..|s| - 1], s[|s| - 1]);
      assert s == s[..|s| - 1] + [s[|s| - 1]];
    }
  }

  lemma {:induction false} DropLast(s: string, c: char)
    requires IsSpace(c)
    ensures Fields(s + [c]) == Fields(s)
    decreases |s|
  {
    hide IsSpace, Fields;
    if s == "" {
      NoFields(s + [c]);
      NoFields(s);
    } else if IsSpace(s[0]) {
      SpaceStep(s);
      SpaceStep(s + [c]);
      assert (s + [c])[1..] == s[1..] + [c];
      DropLast(s[1..], c);
    } else {
      FieldsStep(s);
      var word, rest := s[..WordLength(s)], s[WordLength(s)..];
      assert s + [c] == word + (rest + [c]);
      FieldsOfWord(word, rest + [c]);
      DropLast(rest, c);
    }
  }

  /** A line that is blank or an entry. */
  ghost predicate IsReadable(line: string) {
    IsBlank(line) || exists hash, path :: IsEntry(line, hash, path)
  }

  lemma LineReads(sums: Sums, line: string)
    ensures ReadLine(sums, line).Some? <==> IsReadable(line)
    ensures IsBlank(line) ==> ReadLine(sums, line) == Some(sums) && forall hash, path :: !IsEntry(line, hash, path)
    ensures forall hash, path :: IsEntry(line, hash, path) ==> ReadLine(sums, line) == Some(sums[path := hash])
  {
    TrimmedFields(line);
    NoFields(line);
    hide Fields, IsSpace, IsEntry;
    forall hash, path | IsEntry(line, hash, path)
      ensures Fields(line) == [hash, path]
    {
      EntryReads(line, hash, path);
    }
    if |Fields(line)| == 2 {
      ReadIsEntry(line);
    }
    hide TrimSpace;
    BlankTrims(line);
  }

  lemma BlankTrims(line: string)
    ensures TrimSpace(line) == "" <==> IsBlank(line)
  {
    hide IsSpace;
  }

  /** The last line with an entry for this path. */
  ghost predicate IsLastEntry(lines: seq<string>, i: nat, hash: string, path: string) {
    && i < |lines| && IsEntry(lines[i], hash, path)
    && forall j, h :: i < j < |lines| ==> !IsEntry(lines[j], h, path)
  }

  ghost predicate LastSays(lines: seq<string>, path: string, hash: string) {
    exists i: nat :: IsLastEntry(lines, i, hash, path)
  }

  ghost predicate HasEntry(lines: seq<string>, path: string) {
    exists j, h :: 0 <= j < |lines| && IsEntry(lines[j], h, path)
  }

  /** What the lines say of a path, over what was known before. */
  ghost predicate SaysOf(lines: seq<string>, sums: Sums, path: string, hash: string) {
    LastSays(lines, path, hash) || (path in sums && sums[path] == hash && !HasEntry(lines, path))
  }

  lemma EntryNext(line: string, rest: seq<string>, path: string, hash: string)
    ensures HasEntry([line] + rest, path) <==> HasEntry(rest, path) || exists h :: IsEntry(line, h, path)
    ensures LastSays([line] + rest, path, hash) <==>
      LastSays(rest, path, hash) || (IsEntry(line, hash, path) && !HasEntry(rest, path))
  {
    hide IsEntry;
    var all := [line] + rest;
    assert all[0] == line && forall i :: 0 <= i < |rest| ==> all[i + 1] == rest[i];
    assert forall i :: 0 < i < |all| ==> all[i] == rest[i - 1];
    if i: nat :| IsLastEntry(all, i, hash, path) {
      if i > 0 {
        assert IsLastEntry(rest, i - 1, hash, path);
      }
    }
    if i: nat :| IsLastEntry(rest, i, hash, path) {
      var n := i + 1;
      assert IsLastEntry(all, n, hash, path);
    }
    if IsEntry(line, hash, path) && !HasEntry(rest, path) {
      assert IsLastEntry(all, 0, hash, path);
    }
    if j, h :| 0 <= j < |rest| && IsEntry(rest[j], h, path) {
      assert IsEntry(all[j + 1], h, path);
    }
  }

  lemma SaysNext(line: string, rest: seq<string>, sums: Sums, next: Sums, path: string, hash: string)
    requires ReadLine(sums, line) == Some(next)
    ensures SaysOf([line] + rest, sums, path, hash) <==> SaysOf(rest, next, path, hash)
  {
    EntryNext(line, rest, path, hash);
    LineReads(sums, line);
    OneEntry(line);
    hide IsEntry, HasEntry, LastSays, ReadLine, IsBlank;
  }

  /** A line has one reading at most. */
  lemma OneEntry(line: string)
    ensures forall h, p, k, q :: IsEntry(line, h, p) && IsEntry(line, k, q) ==> h == k && p == q
  {
    hide IsEntry, Fields;
    forall h, p | IsEntry(line, h, p)
      ensures Fields(line) == [h, p]
    {
      EntryReads(line, h, p);
    }
  }

  ghost predicate AllReadable(lines: seq<string>, n: nat)
    requires n <= |lines|
  {
    forall j :: 0 <= j < n ==> IsReadable(lines[j])
  }

  /** Which lines a baseline may have, the first that it may not, and what the others say. */
  lemma {:induction false} LinesRead(lines: seq<string>, number: nat, sums: Sums)
    ensures var r := ReadLines(lines, number, sums);
      && (r.Invalid? ==>
            && number <= r.line < number + |lines| && !IsReadable(lines[r.line - number])
            && AllReadable(lines, r.line - number))
      && (r.Read? ==> AllReadable(lines, |lines|))
      && (r.Read? ==> forall path, hash ::
            (path in r.sums && r.sums[path] == hash) <==> SaysOf(lines, sums, path, hash))
    decreases |lines|
  {
    hide IsReadable, ReadLine, SaysOf;
    if lines == [] {
      NothingSaid(sums);
    } else {
      LineReads(sums, lines[0]);
      var next := ReadLine(sums, lines[0]);
      if next.Some? {
        LinesRead(lines[1..], number + 1, next.value);
        assert lines == [lines[0]] + lines[1..];
        forall path, hash
          ensures SaysOf(lines, sums, path, hash) <==> SaysOf(lines[1..], next.value, path, hash)
        {
          SaysNext(lines[0], lines[1..], sums, next.value, path, hash);
        }
      }
    }
  }

  lemma NothingSaid(sums: Sums)
    ensures forall path, hash :: SaysOf([], sums, path, hash) <==> path in sums && sums[path] == hash
  {
    hide IsEntry;
  }

  /** A baseline is read exactly if each of its lines is blank or a hash and a path; the number of the first other
      line is reported. The last entry of a path counts. */
  lemma BaselineReads(text: string)
    ensures var lines, r := Split(text, '\n'), ReadSums(Some(text));
      && (r.Read? <==> AllReadable(lines, |lines|))
      && (r.Invalid? ==>
            1 <= r.line <= |lines| && !IsReadable(lines[r.line - 1]) && AllReadable(lines, r.line - 1))
      && (r.Read? ==> forall path, hash ::
            (path in r.sums && r.sums[path] == hash) <==> LastSays(lines, path, hash))
  {
    var lines := Split(text, '\n');
    LinesRead(lines, 1, map[]);
    OnlyLinesSay(lines);
    hide SaysOf, ReadLines, AllReadable, LastSays, Split;
  }

  lemma OnlyLinesSay(lines: seq<string>)
    ensures forall path, hash :: SaysOf(lines, map[], path, hash) <==> LastSays(lines, path, hash)
  {
    hide LastSays, HasEntry;
  }

  method ReadBaseline(text: Option<string>) returns (r: ReadResult)
    ensures r == ReadSums(text)
  {
    if text.None? {
      return Read(map[]);
    }
    var sums: Sums := map[];
    var lines := Split(text.value, '\n');
    var i := 0;
    while i < |lines|
      invariant 0 <= i <= |lines|
      invariant ReadLines(lines, 1, map[]) == ReadLines(lines[i..], i + 1, sums)
    {
      var line := TrimSpace(lines[i]);
      assert lines[i..][1..] == lines[i + 1..];
      i := i + 1;
      if line == "" {
        continue;
      }
      var fields := Fields(line);
      if |fields| != 2 {
        return Invalid(i);
      }
      sums := sums[fields[1] := fields[0]];
    }
    r := Read(sums);
  }

  // ----- writing ------------------------------------------------------------------------------------

  function Line(hash: string, path: string): string {
    hash + "  " + path
  }

  /** The lines of the given paths. */
  function SumsText(sums: Sums, paths: seq<string>): string
    requires forall p :: p in paths ==> p in sums
  {
    if paths == [] then ""
    else Line(sums[paths[0]], paths[0]) + "\n" + SumsText(sums, paths[1..])
  }

  /** The text of a baseline file: one line for each path, in order. */
  ghost function BaselineText(sums: Sums): string {
    SumsText(sums, Listing(sums.Keys))
  }

  /** Hash, two spaces, path, newline: for one path after the other. */
  function LinesOf(sums: Sums, paths: seq<string>): seq<string>
    requires forall p :: p in paths ==> p in sums
  {
    seq(|paths|, i requires 0 <= i < |paths| => sums[paths[i]] + "  " + paths[i] + "\n")
  }

  lemma {:induction false} TextOfLines(sums: Sums, paths: seq<string>)
    requires forall p :: p in paths ==> p in sums
    ensures SumsText(sums, paths) == Concat(LinesOf(sums, paths))
  {
    if paths != [] {
      TextOfLines(sums, paths[1..]);
      assert LinesOf(sums, paths)[1..] == LinesOf(sums, paths[1..]);
    }
  }

  /** The text of a baseline, path by path in ascending order. */
  lemma BaselineLooks(sums: Sums, paths: seq<string>)
    requires IsListing(paths, sums.Keys)
    ensures BaselineText(sums) == Concat(LinesOf(sums, paths))
  {
    ListingUnique(paths, Listing(sums.Keys), sums.Keys);
    TextOfLines(sums, paths);
    hide Concat, SumsText, LinesOf, Ascending;
  }

  lemma {:induction false} SumsTextAppend(sums: Sums, paths: seq<string>, p: string)
    requires p in sums && forall q :: q in paths ==> q in sums
    ensures SumsText(sums, paths + [p]) == SumsText(sums, paths) + Line(sums[p], p) + "\n"
  {
    hide Line;
    if paths == [] {
      assert [p][1..] == [];
    } else {
      SumsTextAppend(sums, paths[1..], p);
      assert (paths + [p])[1..] == paths[1..] + [p];
    }
  }

  method WriteBaseline(sums: Sums) returns (text: string)
    ensures text == BaselineText(sums)
  {
    var paths := Sorted(sums.Keys);
    text := "";
    var i := 0;
    while i < |paths|
      invariant 0 <= i <= |paths|
      invariant text == SumsText(sums, paths[..i])
    {
      SumsTextAppend(sums, paths[..i], paths[i]);
      assert paths[..i] + [paths[i]] == paths[..i + 1];
      text := text + Line(sums[paths[i]], paths[i]) + "\n";
      i := i + 1;
    }
    assert paths[..i] == paths;
  }

  // ----- what is written is read ------------------------------------------------------------------------

  lemma SplitFirst(line: string, rest: string)
    requires '\n' !in line
    ensures Split(line + "\n" + rest, '\n') == [line] + Split(rest, '\n')
  {
    SplitHead(line, '\n', rest);
    assert line + "\n" + rest == line + ['\n'] + rest;
  }

  lemma LineOfFields(hash: string, path: string)
    requires IsField(hash) && IsField(path)
    ensures var line := Line(hash, path);
      '\n' !in line && line != "" && !IsSpace(line[0]) && !IsSpace(line[|line| - 1])
  {
    assert IsSpace('\n');
    hide IsSpace;
  }

  lemma TrimmedAlready(s: string)
    requires s != "" && !IsSpace(s[0]) && !IsSpace(s[|s| - 1])
    ensures TrimSpace(s) == s
  {
    hide IsSpace;
  }

  lemma ReadWrittenLine(sums: Sums, hash: string, path: string)
    requires IsField(hash) && IsField(path)
    ensures ReadLine(sums, Line(hash, path)) == Some(sums[path := hash])
  {
    LineOfFields(hash, path);
    TrimmedAlready(Line(hash, path));
    FieldsOfPair(hash, path);
    hide Fields, TrimSpace, IsSpace, IsWord;
  }

  /** `sums` with the entries of some paths of `more`. */
  function Extend(sums: Sums, more: Sums, paths: seq<string>): Sums
    requires forall p :: p in paths ==> p in more
    decreases |paths|
  {
    if paths == [] then sums else Extend(sums[paths[0] := more[paths[0]]], more, paths[1..])
  }

  lemma {:induction false} ReadWritten(written: Sums, paths: seq<string>, number: nat, sums: Sums)
    requires forall p :: p in paths ==> p in written && IsField(p) && IsField(written[p])
    ensures ReadLines(Split(SumsText(written, paths), '\n'), number, sums) == Read(Extend(sums, written, paths))
    decreases |paths|
  {
    hide IsField, ReadLine, Line;
    if paths == [] {
      ReadNothing(number, sums);
    } else {
      var p := paths[0];
      assert p in paths;
      var line, rest := Line(written[p], p), SumsText(written, paths[1..]);
      LineOfFields(written[p], p);
      SplitFirst(line, rest);
      ReadWrittenLine(sums, written[p], p);
      ReadWritten(written, paths[1..], number + 1, sums[p := written[p]]);
      hide Split, IsSpace;
      assert ([line] + Split(rest, '\n'))[1..] == Split(rest, '\n');
    }
  }

  lemma ReadNothing(number: nat, sums: Sums)
    ensures ReadLines(Split("", '\n'), number, sums) == Read(sums)
  {
    assert Split("", '\n') == [""];
    assert ReadLine(sums, "") == Some(sums);
    assert [""][1..] == [];
    hide Split, ReadLine;
  }

  lemma {:induction false} ExtendHolds(sums: Sums, more: Sums, paths: seq<string>)
    requires forall p :: p in paths ==> p in more
    ensures forall p :: p in Extend(sums, more, paths) <==> p in sums || p in paths
    ensures forall p :: p in Extend(sums, more, paths) ==>
      Extend(sums, more, paths)[p] == if p in paths then more[p] else sums[p]
    decreases |paths|
  {
    if paths != [] {
      ExtendHolds(sums[paths[0] := more[paths[0]]], more, paths[1..]);
      assert paths == [paths[0]] + paths[1..];
    }
  }

  predicate Hashes(sums: Sums) {
    forall p :: p in sums ==> IsField(sums[p])
  }

  predicate Plain(paths: set<string>) {
    forall p :: p in paths ==> IsField(p)
  }

  lemma WrittenIsRead(sums: Sums)
    requires Hashes(sums) && Plain(sums.Keys)
    ensures ReadSums(Some(BaselineText(sums))) == Read(sums)
  {
    var paths := Listing(sums.Keys);
    hide IsField, ReadLines, Split, SumsText, Ascending;
    ReadWritten(sums, paths, 1, map[]);
    ExtendHolds(map[], sums, paths);
    hide Extend;
    assert Extend(map[], sums, paths) == sums;
  }

  lemma ReadLineFields(sums: Sums, line: string)
    requires Plain(sums.Keys) && Hashes(sums) && ReadLine(sums, line).Some?
    ensures Plain(ReadLine(sums, line).value.Keys) && Hashes(ReadLine(sums, line).value)
  {
    hide TrimSpace, IsField;
    var fields := Fields(TrimSpace(line));
    if TrimSpace(line) != "" {
      assert IsField(fields[0]) && IsField(fields[1]);
    }
    hide Fields;
  }

  lemma {:induction false} ReadLinesFields(lines: seq<string>, number: nat, sums: Sums)
    requires Plain(sums.Keys) && Hashes(sums) && ReadLines(lines, number, sums).Read?
    ensures Plain(ReadLines(lines, number, sums).sums.Keys) && Hashes(ReadLines(lines, number, sums).sums)
    decreases |lines|
  {
    hide Plain, Hashes, ReadLine;
    if lines != [] {
      ReadLineFields(sums, lines[0]);
      ReadLinesFields(lines[1..], number + 1, ReadLine(sums, lines[0]).value);
    }
  }

  /** What is read holds whitespace-free paths and hashes only. */
  lemma ReadSumsFields(text: Option<string>)
    requires ReadSums(text).Read?
    ensures Plain(ReadSums(text).sums.Keys) && Hashes(ReadSums(text).sums)
  {
    hide ReadLines, Split;
    if text.Some? {
      ReadLinesFields(Split(text.value, '\n'), 1, map[]);
    }
  }

  /** readBaseline undoes writeBaseline exactly when no path is empty or holds white space. */
  lemma RoundTripExactlyPlain(sums: Sums)
    requires Hashes(sums)
    ensures ReadSums(Some(BaselineText(sums))) == Read(sums) <==> Plain(sums.Keys)
  {
    hide ReadSums, BaselineText, Plain, Hashes;
    if Plain(sums.Keys) {
      WrittenIsRead(sums);
    }
    if ReadSums(Some(BaselineText(sums))) == Read(sums) {
      ReadSumsFields(Some(BaselineText(sums)));
    }
  }
}
