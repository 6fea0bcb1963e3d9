/** internal/cli/upgrade.go: upgradePlan and applyUpgrade over a project's files and its baseline. */
module Upgrade {
  import opened Text
  import opened Order
  import opened Baseline

  type Path = string
  type Content = string
  type Tree = map<Path, Content>

  /** gofmt, which refuses what does not parse, and SHA-256 in hexadecimal. */
  datatype Tools = Tools(gofmt: Content -> Option<Content>, sha256: Content -> string)

  /** gofmt leaves its own output alone; no two contents have the same hash. */
  ghost predicate Lawful(t: Tools) {
    && (forall c, f :: t.gofmt(c) == Some(f) ==> t.gofmt(f) == Some(f))
    && (forall c :: IsField(t.sha256(c)))
    && (forall c, d :: t.sha256(c) == t.sha256(d) ==> c == d)
  }

  // Such tools exist: a digest that spells every character out in decimal.

  function SpelledOut(c: Content): string {
    if c == "" then "." else Decimal(c[0] as nat) + ("," + SpelledOut(c[1..]))
  }

  lemma {:induction false} SpelledOutIsField(c: Content)
    ensures IsField(SpelledOut(c)) && (SpelledOut(c)[0] == '.' <==> c == "")
  {
    if c != "" {
      SpelledOutIsField(c[1..]);
      var n := Decimal(c[0] as nat);
      assert forall i :: 0 <= i < |n| ==> IsDigit(n[i]);
      assert SpelledOut(c)[0] == n[0];
    }
    hide SpelledOut, Decimal;
  }

  lemma {:induction false} SpelledOutInjective(c: Content, d: Content)
    requires SpelledOut(c) == SpelledOut(d)
    ensures c == d
  {
    SpelledOutIsField(c);
    SpelledOutIsField(d);
    if c != "" && d != "" {
      ReadDecimalPrinted(c[0] as nat, "," + SpelledOut(c[1..]));
      ReadDecimalPrinted(d[0] as nat, "," + SpelledOut(d[1..]));
      SameTail(",", SpelledOut(c[1..]), SpelledOut(d[1..]));
      SpelledOutInjective(c[1..], d[1..]);
      assert c == [c[0]] + c[1..] && d == [d[0]] + d[1..];
    }
    hide Decimal, ReadDecimal, IsField;
  }

  lemma SameTail(x: string, y: string, z: string)
    ensures x + y == x + z ==> y == z
  {
    assert (x + y)[|x|..] == y && (x + z)[|x|..] == z;
  }

  lemma LawfulToolsExist()
    ensures exists t: Tools :: Lawful(t)
  {
    var t := Tools(_ => None, SpelledOut);
    hide SpelledOut, IsField;
    forall c
      ensures IsField(t.sha256(c))
    {
      SpelledOutIsField(c);
    }
    forall c, d | t.sha256(c) == t.sha256(d)
      ensures c == d
    {
      SpelledOutInjective(c, d);
    }
    assert Lawful(t);
  }

  function NormalizeGo(t: Tools, p: Path, c: Content): Content {
    if !HasSuffix(p, ".go") then c
    else match t.gofmt(c)
      case None => c
      case Some(formatted) => formatted
  }

  lemma NormalizeIdempotent(t: Tools, p: Path, c: Content)
    requires Lawful(t)
    ensures NormalizeGo(t, p, NormalizeGo(t, p, c)) == NormalizeGo(t, p, c)
  {
    hide HasSuffix, IsField;
  }

  function BaselineHash(t: Tools, p: Path, c: Content): string {
    t.sha256(NormalizeGo(t, p, c))
  }

  // ----- the plan ------------------------------------------------------------------------------------

  datatype Status = UpToDate | Outdated | Modified | Differs | Missing | Unmanaged

  datatype Entry = Entry(path: Path, status: Status, rendered: Content, disk: Content)

  const PLATFORM := "internal/platform/"

  function SumOf(sums: Sums, p: Path): string {
    if p in sums then sums[p] else ""
  }

  /** What the current templates want at `p`. */
  function Desired(t: Tools, tree: Tree, p: Path): Content
    requires p in tree
  {
    NormalizeGo(t, p, tree[p])
  }

  function StatusOf(t: Tools, sums: Sums, files: Tree, tree: Tree, p: Path): Status {
    if p !in tree then Unmanaged
    else if p !in files then Missing
    else if NormalizeGo(t, p, files[p]) == Desired(t, tree, p) then UpToDate
    else if SumOf(sums, p) == "" then Differs
    else if SumOf(sums, p) == BaselineHash(t, p, files[p]) then Outdated
    else Modified
  }

  function EntryFor(t: Tools, sums: Sums, files: Tree, tree: Tree, p: Path): Entry {
    Entry(p, StatusOf(t, sums, files, tree, p),
          if p in tree then Desired(t, tree, p) else "",
          if p in tree && p in files then files[p] else "")
  }

  /** Every rendered file, and every file on disk under internal/platform. */
  function PlanPaths(files: Tree, tree: Tree): set<Path> {
    tree.Keys + set p | p in files && HasPrefix(p, PLATFORM)
  }

  function EntriesFor(t: Tools, sums: Sums, files: Tree, tree: Tree, paths: seq<Path>): (entries: seq<Entry>)
    ensures |entries| == |paths|
    ensures forall i :: 0 <= i < |paths| ==> entries[i] == EntryFor(t, sums, files, tree, paths[i])
  {
    seq(|paths|, i requires 0 <= i < |paths| => EntryFor(t, sums, files, tree, paths[i]))
  }

  ghost function PlanOf(t: Tools, sums: Sums, files: Tree, tree: Tree): seq<Entry> {
    EntriesFor(t, sums, files, tree, Listing(PlanPaths(files, tree)))
  }

  // ----- what an apply writes -----------------------------------------------------------------------------

  predicate Writes(status: Status, force: bool) {
    status.Outdated? || status.Missing? || (force && (status.Modified? || status.Differs?))
  }

  predicate Skips(status: Status, force: bool) {
    !force && (status.Modified? || status.Differs?)
  }

  function ToWrite(entries: seq<Entry>, force: bool): seq<Entry> {
    if entries == [] then []
    else
      var before, e := ToWrite(entries[..|entries| - 1], force), entries[|entries| - 1];
      if Writes(e.status, force) then before + [e] else before
  }

  function Skipped(entries: seq<Entry>, force: bool): seq<Path> {
    if entries == [] then []
    else
      var before, e := Skipped(entries[..|entries| - 1], force), entries[|entries| - 1];
      if Skips(e.status, force) then before + [e.path] else before
  }

  function PathsOf(entries: seq<Entry>): (paths: seq<Path>)
    ensures |paths| == |entries|
    ensures forall i :: 0 <= i < |entries| ==> paths[i] == entries[i].path
  {
    seq(|entries|, i requires 0 <= i < |entries| => entries[i].path)
  }

  /** The files after some entries were renamed into place. */
  function Published(files: Tree, writes: seq<Entry>): Tree {
    if writes == [] then files
    else
      var e := writes[|writes| - 1];
      Published(files, writes[..|writes| - 1])[e.path := e.rendered]
  }

  predicate IsCurrent(t: Tools, files: Tree, e: Entry) {
    !e.status.Unmanaged? && e.path in files && NormalizeGo(t, e.path, files[e.path]) == e.rendered
  }

  /** The baseline after an apply: every rendered file that matches the disk is recorded. */
  function Refreshed(t: Tools, sums: Sums, files: Tree, entries: seq<Entry>): Sums {
    if entries == [] then sums
    else
      var before, e := Refreshed(t, sums, files, entries[..|entries| - 1]), entries[|entries| - 1];
      if IsCurrent(t, files, e) then before[e.path := BaselineHash(t, e.path, files[e.path])] else before
  }

  datatype Failure = BaselineInvalid(line: nat) | PublishFailed | BaselineWriteFailed

  // ----- the commands ----------------------------------------------------------------------------------------

  class Project {
    var files: Tree
    var sum: Option<string>

    /** upgradePlan. */
    method Plan(t: Tools, tree: Tree) returns (entries: seq<Entry>, err: Option<Failure>)
      ensures ReadSums(sum).Invalid? ==> err == Some(BaselineInvalid(ReadSums(sum).line)) && entries == []
      ensures ReadSums(sum).Read? ==> err == None && entries == PlanOf(t, ReadSums(sum).sums, files, tree)
    {
      hide *;
      var baseline := ReadBaseline(sum);
      if baseline.Invalid? {
        return [], Some(BaselineInvalid(baseline.line));
      }
      var found := FindEntries(t, baseline.sums, tree);
      var paths := Sorted(found.Keys);
      entries := [];
      var i := 0;
      while i < |paths|
        invariant 0 <= i <= |paths| && |entries| == i
        invariant forall k :: 0 <= k < i ==> entries[k] == EntryFor(t, baseline.sums, files, tree, paths[k])
      {
        ListedIsKey(paths, found.Keys, i);
        entries := entries + [found[paths[i]]];
        i := i + 1;
      }
      err := None;
      PlanIs(t, baseline.sums, files, tree, entries);
    }

    /** The entries, before they are sorted: first the rendered files, then the walk over the disk. */
    method FindEntries(t: Tools, sums: Sums, tree: Tree) returns (found: map<Path, Entry>)
      ensures found.Keys == PlanPaths(files, tree)
      ensures forall p :: p in found ==> found[p] == EntryFor(t, sums, files, tree, p)
    {
      hide NormalizeGo, HasPrefix;
      found := map[];
      var rest := tree.Keys;
      while rest != {}
        invariant rest <= tree.Keys && found.Keys == tree.Keys - rest
        invariant forall p :: p in found ==> found[p] == EntryFor(t, sums, files, tree, p)
      {
        var p :| p in rest;
        rest := rest - {p};
        var desired := NormalizeGo(t, p, tree[p]);
        if p !in files {
          found := found[p := Entry(p, Missing, desired, "")];
          continue;
        }
        var status;
        if NormalizeGo(t, p, files[p]) == desired {
          status := UpToDate;
        } else if SumOf(sums, p) == "" {
          status := Differs;
        } else if SumOf(sums, p) == BaselineHash(t, p, files[p]) {
          status := Outdated;
        } else {
          status := Modified;
        }
        found := found[p := Entry(p, status, desired, files[p])];
      }
      rest := set p | p in files && HasPrefix(p, PLATFORM);
      ghost var walk := rest;
      while rest != {}
        invariant rest <= walk && found.Keys == tree.Keys + (walk - rest)
        invariant forall p :: p in found ==> found[p] == EntryFor(t, sums, files, tree, p)
      {
        var p :| p in rest;
        rest := rest - {p};
        if p !in tree {
          found := found[p := Entry(p, Unmanaged, "", "")];
        }
      }
    }

    /** applyUpgrade. `fails` is the number of the rename at which the apply stops, if it does; the number after
        the last rename stands for a baseline that cannot be written. */
    method Apply(t: Tools, entries: seq<Entry>, force: bool, fails: Option<nat>)
        returns (applied: seq<Path>, skipped: seq<Path>, err: Option<Failure>)
      requires Ascending(PathsOf(entries))
      modifies this
      ensures skipped == Skipped(entries, force)
      ensures var writes := ToWrite(entries, force);
        if fails.Some? && fails.value < |writes| then
          && err == Some(PublishFailed) && sum == old(sum)
          && files == Published(old(files), writes[..fails.value]) && applied == PathsOf(writes[..fails.value])
        else
          && files == Published(old(files), writes) && applied == PathsOf(writes)
          && match ReadSums(old(sum)) {
             case Invalid(line) => err == Some(BaselineInvalid(line)) && sum == old(sum)
             case Read(sums) =>
               if fails == Some(|writes|) then err == Some(BaselineWriteFailed) && sum == old(sum)
               else err == None && sum == Some(BaselineText(Refreshed(t, sums, files, entries)))
          }
    {
      hide *;
      var writes;
      writes, skipped := Choose(entries, force);
      var staged := Stage(writes, entries, force);
      applied := [];
      PublishNone(files, writes);
      var i := 0;
      while i < |writes|
        invariant 0 <= i <= |writes|
        invariant fails.Some? ==> i <= fails.value
        invariant files == Published(old(files), writes[..i]) && applied == PathsOf(writes[..i]) && sum == old(sum)
      {
        if fails == Some(i) {
          return applied, skipped, Some(PublishFailed);
        }
        PublishOne(old(files), writes, i);
        files := files[writes[i].path := staged[writes[i].path]];
        applied := applied + [writes[i].path];
        i := i + 1;
      }
      assert writes[..i] == writes;
      var baseline := ReadBaseline(sum);
      if baseline.Invalid? {
        return applied, skipped, Some(BaselineInvalid(baseline.line));
      }
      var sums := Refresh(t, baseline.sums, entries);
      var text := WriteBaseline(sums);
      if fails == Some(|writes|) {
        return applied, skipped, Some(BaselineWriteFailed);
      }
      sum := Some(text);
      err := None;
    }

    /** The refresh loop of applyUpgrade. */
    method Refresh(t: Tools, baseline: Sums, entries: seq<Entry>) returns (sums: Sums)
      ensures sums == Refreshed(t, baseline, files, entries)
    {
      hide NormalizeGo;
      sums := baseline;
      var i := 0;
      while i < |entries|
        invariant 0 <= i <= |entries|
        invariant sums == Refreshed(t, baseline, files, entries[..i])
      {
        assert entries[..i + 1][..i] == entries[..i];
        var entry := entries[i];
        i := i + 1;
        if entry.status.Unmanaged? || entry.path !in files {
          continue;
        }
        if NormalizeGo(t, entry.path, files[entry.path]) == entry.rendered {
          sums := sums[entry.path := BaselineHash(t, entry.path, files[entry.path])];
        }
      }
      assert entries[..i] == entries;
    }
  }

  /** The first loop of applyUpgrade: what to write and what to skip. */
  method Choose(entries: seq<Entry>, force: bool) returns (writes: seq<Entry>, skipped: seq<Path>)
    ensures writes == ToWrite(entries, force) && skipped == Skipped(entries, force)
  {
    writes, skipped := [], [];
    var i := 0;
    while i < |entries|
      invariant 0 <= i <= |entries|
      invariant writes == ToWrite(entries[..i], force) && skipped == Skipped(entries[..i], force)
    {
      assert entries[..i + 1][..i] == entries[..i];
      var entry := entries[i];
      match entry.status {
        case Outdated => writes := writes + [entry];
        case Missing => writes := writes + [entry];
        case Modified =>
          if force { writes := writes + [entry]; } else { skipped := skipped + [entry.path]; }
        case Differs =>
          if force { writes := writes + [entry]; } else { skipped := skipped + [entry.path]; }
        case _ =>
      }
      i := i + 1;
    }
    assert entries[..i] == entries;
  }

  /** The staging loop: every file is staged before the first is renamed. */
  method Stage(writes: seq<Entry>, ghost entries: seq<Entry>, ghost force: bool) returns (staged: Tree)
    requires Ascending(PathsOf(entries)) && writes == ToWrite(entries, force)
    ensures forall i :: 0 <= i < |writes| ==> writes[i].path in staged && staged[writes[i].path] == writes[i].rendered
  {
    ToWriteAscending(entries, force);
    hide Before, ToWrite;
    staged := map[];
    var i := 0;
    while i < |writes|
      invariant 0 <= i <= |writes|
      invariant forall k :: 0 <= k < i ==> writes[k].path in staged && staged[writes[k].path] == writes[k].rendered
    {
      forall k | 0 <= k < i
        ensures writes[k].path != writes[i].path
      {
        AscendingDistinct(PathsOf(writes), k, i);
      }
      staged := staged[writes[i].path := writes[i].rendered];
      i := i + 1;
    }
  }

  lemma AscendingDistinct(ps: seq<string>, i: nat, j: nat)
    requires Ascending(ps) && i < j < |ps|
    ensures ps[i] != ps[j]
  {
    Asymmetric(ps[i], ps[j]);
    hide Before;
  }

  lemma ListedIsKey(paths: seq<Path>, keys: set<Path>, i: nat)
    requires paths == Listing(keys) && i < |paths|
    ensures paths[i] in keys
  {
    hide Ascending, Listing;
  }

  lemma PlanIs(t: Tools, sums: Sums, files: Tree, tree: Tree, entries: seq<Entry>)
    requires var paths := Listing(PlanPaths(files, tree));
      |entries| == |paths| && forall k :: 0 <= k < |paths| ==> entries[k] == EntryFor(t, sums, files, tree, paths[k])
    ensures entries == PlanOf(t, sums, files, tree)
  {
    hide EntryFor, Listing, PlanPaths;
  }

  lemma PublishNone(files: Tree, writes: seq<Entry>)
    ensures Published(files, writes[..0]) == files && PathsOf(writes[..0]) == []
  {}

  lemma PublishOne(files: Tree, writes: seq<Entry>, i: nat)
    requires i < |writes|
    ensures Published(files, writes[..i + 1]) == Published(files, writes[..i])[writes[i].path := writes[i].rendered]
    ensures PathsOf(writes[..i + 1]) == PathsOf(writes[..i]) + [writes[i].path]
  {
    assert writes[..i + 1][..i] == writes[..i];
  }

  // ----- what is written, entry by entry ---------------------------------------------------------------------

  lemma {:induction false} ToWriteHolds(entries: seq<Entry>, force: bool, e: Entry)
    ensures e in ToWrite(entries, force) <==> e in entries && Writes(e.status, force)
  {
    hide Writes;
    if entries != [] {
      ToWriteHolds(entries[..|entries| - 1], force, e);
      assert entries == entries[..|entries| - 1] + [entries[|entries| - 1]];
    }
  }

  lemma {:induction false} ToWriteAscending(entries: seq<Entry>, force: bool)
    requires Ascending(PathsOf(entries))
    ensures Ascending(PathsOf(ToWrite(entries, force)))
  {
    hide Before, Writes;
    if entries != [] {
      var before, e := entries[..|entries| - 1], entries[|entries| - 1];
      assert forall i, j :: 0 <= i < j < |before| ==> Before(PathsOf(entries)[i], PathsOf(entries)[j]);
      ToWriteAscending(before, force);
      var writes := ToWrite(before, force);
      forall i | 0 <= i < |writes|
        ensures Before(writes[i].path, e.path)
      {
        ToWriteHolds(before, force, writes[i]);
        var k :| 0 <= k < |before| && before[k] == writes[i];
        assert Before(PathsOf(entries)[k], PathsOf(entries)[|entries| - 1]);
      }
    }
  }

  /** A publish of distinct paths, path by path. */
  lemma {:induction false} PublishedAt(files: Tree, writes: seq<Entry>)
    requires Ascending(PathsOf(writes))
    ensures forall p :: p in Published(files, writes) <==> p in files || p in PathsOf(writes)
    ensures forall i :: 0 <= i < |writes| ==> Published(files, writes)[writes[i].path] == writes[i].rendered
    ensures forall p :: p in files && p !in PathsOf(writes) ==> Published(files, writes)[p] == files[p]
  {
    hide Before;
    if writes != [] {
      var n := |writes| - 1;
      AscendingPrefix(PathsOf(writes), n);
      assert PathsOf(writes)[..n] == PathsOf(writes[..n]);
      PublishedAt(files, writes[..n]);
      assert PathsOf(writes) == PathsOf(writes[..n]) + [writes[n].path];
      forall i | 0 <= i < n
        ensures writes[i].path != writes[n].path
      {
        AscendingDistinct(PathsOf(writes), i, n);
      }
    }
  }

  lemma AscendingPrefix(ps: seq<string>, n: nat)
    requires Ascending(ps) && n <= |ps|
    ensures Ascending(ps[..n])
  {
    hide Before;
  }

  predicate Recorded(t: Tools, files: Tree, entries: seq<Entry>, p: Path) {
    exists e :: e in entries && e.path == p && IsCurrent(t, files, e)
  }

  lemma {:induction false} RefreshedAt(t: Tools, sums: Sums, files: Tree, entries: seq<Entry>, p: Path)
    ensures var after := Refreshed(t, sums, files, entries);
      && (p in after <==> p in sums || Recorded(t, files, entries, p))
      && (p in after ==> after[p] == if Recorded(t, files, entries, p) then BaselineHash(t, p, files[p]) else sums[p])
  {
    hide NormalizeGo;
    if entries != [] {
      RefreshedAt(t, sums, files, entries[..|entries| - 1], p);
      assert entries == entries[..|entries| - 1] + [entries[|entries| - 1]];
      hide IsCurrent, BaselineHash;
    }
  }
}
