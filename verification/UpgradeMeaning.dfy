/** What an upgrade does to a project, in terms of its files, its baseline and the rendered tree alone. */
module UpgradeMeaning {
  import opened Text
  import opened Order
  import opened Baseline
  import opened Upgrade
  import opened UpgradeEffect
  import UpgradeRuns

  /** Go sources as gofmt prints them, if it can; all other contents as they are. */
  function Formatted(t: Tools, p: Path, c: Content): Content {
    if |p| >= 3 && p[|p| - 3..] == ".go" && t.gofmt(c).Some? then t.gofmt(c).value else c
  }

  lemma FormattedIs(t: Tools, p: Path, c: Content)
    ensures NormalizeGo(t, p, c) == Formatted(t, p, c)
  {}

  /** The two contents differ by more than formatting. */
  predicate Differ(t: Tools, p: Path, c: Content, d: Content) {
    Formatted(t, p, c) != Formatted(t, p, d)
  }

  /** The baseline has this content, up to formatting, for the path. */
  predicate IsVendored(t: Tools, sums: Sums, p: Path, c: Content) {
    p in sums && sums[p] != "" && sums[p] == t.sha256(Formatted(t, p, c))
  }

  /** What an upgrade writes: a rendered file that is missing, or that differs and is a vendored copy or may be
      overwritten in any case. */
  predicate IsReplaced(t: Tools, sums: Sums, files: Tree, tree: Tree, force: bool, p: Path) {
    p in tree && (p in files ==> Differ(t, p, files[p], tree[p]) && (force || IsVendored(t, sums, p, files[p])))
  }

  /** What it leaves alone and reports: a file that differs and is no vendored copy. */
  predicate IsProtected(t: Tools, sums: Sums, files: Tree, tree: Tree, force: bool, p: Path) {
    p in tree && p in files && Differ(t, p, files[p], tree[p]) && !force && !IsVendored(t, sums, p, files[p])
  }

  lemma StatusMeans(t: Tools, sums: Sums, files: Tree, tree: Tree, p: Path)
    ensures var status := StatusOf(t, sums, files, tree, p);
      && (status == Unmanaged <==> p !in tree)
      && (status == Missing <==> p in tree && p !in files)
      && (status == UpToDate <==> p in tree && p in files && !Differ(t, p, files[p], tree[p]))
      && (status == Outdated <==>
            p in tree && p in files && Differ(t, p, files[p], tree[p]) && IsVendored(t, sums, p, files[p]))
      && (status == Differs <==>
            p in tree && p in files && Differ(t, p, files[p], tree[p]) && (p !in sums || sums[p] == ""))
  {
    if p in tree && p in files {
      FormattedIs(t, p, files[p]);
      FormattedIs(t, p, tree[p]);
    }
    hide NormalizeGo, Formatted;
  }

  lemma WritesMeans(t: Tools, sums: Sums, files: Tree, tree: Tree, force: bool, p: Path)
    ensures p in tree && WritesAt(t, sums, files, tree, force, p) <==> IsReplaced(t, sums, files, tree, force, p)
    ensures Skips(StatusOf(t, sums, files, tree, p), force) <==> IsProtected(t, sums, files, tree, force, p)
  {
    StatusMeans(t, sums, files, tree, p);
    hide StatusOf, Differ, IsVendored;
  }

  /** The plan lists, in order and once each, every rendered file and every file below internal/platform. */
  lemma PlanLists(t: Tools, sums: Sums, files: Tree, tree: Tree, p: Path)
    ensures p in PathsOf(PlanOf(t, sums, files, tree)) <==> p in tree || (p in files && "internal/platform/" <= p)
    ensures Ascending(PathsOf(PlanOf(t, sums, files, tree)))
  {
    hide Ascending, StatusOf;
    PlanHolds(t, sums, files, tree);
    var paths := Listing(PlanPaths(files, tree));
    assert PathsOf(PlanOf(t, sums, files, tree)) == paths;
    hide EntriesFor, Listing;
    assert p in PlanPaths(files, tree) <==> p in tree || (p in files && "internal/platform/" <= p);
  }

  /** The files an apply writes, when it is not stopped. */
  lemma AppliedExactly(t: Tools, d: Disk, tree: Tree, force: bool, p: Path)
    requires ReadSums(d.sum).Read?
    ensures p in PathsOf(WritesOf(t, d, tree, force)) <==>
      IsReplaced(t, ReadSums(d.sum).sums, d.files, tree, force, p)
  {
    hide ReadSums, IsReplaced, WritesAt, PlanOf, ToWrite, PathsOf;
    WrittenPath(t, ReadSums(d.sum).sums, d.files, tree, force, p);
    WritesMeans(t, ReadSums(d.sum).sums, d.files, tree, force, p);
  }

  /** The paths reported as skipped. */
  lemma SkippedExactly(t: Tools, sums: Sums, files: Tree, tree: Tree, force: bool, p: Path)
    ensures p in Skipped(PlanOf(t, sums, files, tree), force) <==> IsProtected(t, sums, files, tree, force, p)
  {
    hide Skips, StatusOf, PlanOf, Skipped, Ascending, PlanPaths;
    PlanHolds(t, sums, files, tree);
    SkippedHolds(PlanOf(t, sums, files, tree), force, p);
    WritesMeans(t, sums, files, tree, force, p);
    if IsProtected(t, sums, files, tree, force, p) {
      RenderedIsPlanned(files, tree, p);
      assert EntryFor(t, sums, files, tree, p) in PlanOf(t, sums, files, tree);
    }
  }

  lemma RenderedIsPlanned(files: Tree, tree: Tree, p: Path)
    ensures p in tree ==> p in PlanPaths(files, tree)
  {}

  lemma {:induction false} SkippedHolds(entries: seq<Entry>, force: bool, p: Path)
    ensures p in Skipped(entries, force) <==> exists e :: e in entries && e.path == p && Skips(e.status, force)
  {
    hide Skips;
    if entries != [] {
      SkippedHolds(entries[..|entries| - 1], force, p);
      assert entries == entries[..|entries| - 1] + [entries[|entries| - 1]];
    }
  }

  /** The project after an upgrade that is not stopped, file by file: a replaced file holds its render, every
      other file is as it was, and there are no others. */
  lemma FilesExactly(t: Tools, d: Disk, tree: Tree, force: bool, p: Path)
    requires ReadSums(d.sum).Read?
    ensures var after := Complete(t, d, tree, force).files;
      && (p in after <==> p in d.files || p in tree)
      && (p in after ==>
            after[p] ==
              if IsReplaced(t, ReadSums(d.sum).sums, d.files, tree, force, p) then Formatted(t, p, tree[p])
              else d.files[p])
  {
    hide ReadSums, IsReplaced, WritesAt, BaselineText, SumsAfter, Formatted, NormalizeGo;
    WritesMeans(t, ReadSums(d.sum).sums, d.files, tree, force, p);
    MissingIsReplaced(t, ReadSums(d.sum).sums, d.files, tree, force, p);
    if p in tree {
      FormattedIs(t, p, tree[p]);
    }
  }

  lemma MissingIsReplaced(t: Tools, sums: Sums, files: Tree, tree: Tree, force: bool, p: Path)
    ensures p in tree && p !in files ==> IsReplaced(t, sums, files, tree, force, p)
  {
    hide Differ, IsVendored;
  }

  /** An upgrade with --force leaves every rendered file as its render, up to formatting. */
  lemma ForcedIsRendered(t: Tools, d: Disk, tree: Tree, p: Path)
    requires Lawful(t) && ReadSums(d.sum).Read? && p in tree
    ensures var after := Complete(t, d, tree, true).files;
      p in after && !Differ(t, p, after[p], tree[p])
  {
    hide ReadSums, Complete, Lawful, Formatted, IsVendored;
    FilesExactly(t, d, tree, true, p);
    FormattedTwice(t, p, tree[p]);
  }

  lemma FormattedTwice(t: Tools, p: Path, c: Content)
    requires Lawful(t)
    ensures Formatted(t, p, Formatted(t, p, c)) == Formatted(t, p, c)
  {
    hide IsField;
  }

  /** The baseline after an upgrade that is not stopped, as it is read again: the hash of every rendered file
      that matches the disk, and otherwise what it was. */
  lemma SumsExactly(t: Tools, d: Disk, tree: Tree, force: bool, p: Path)
    requires Lawful(t) && ReadSums(d.sum).Read? && Plain(tree.Keys)
    ensures ReadSums(Complete(t, d, tree, force).sum).Read?
    ensures var before, files := ReadSums(d.sum).sums, Complete(t, d, tree, force).files;
      var after := ReadSums(Complete(t, d, tree, force).sum).sums;
      var matches := p in tree && p in files && !Differ(t, p, files[p], tree[p]);
      && (p in after <==> p in before || matches)
      && (p in after ==> after[p] == if matches then t.sha256(Formatted(t, p, files[p])) else before[p])
  {
    hide ReadSums, Complete, Lawful, Formatted, Plain;
    CompleteIsRead(t, d, tree, force);
    var files := Complete(t, d, tree, force).files;
    if p in tree && p in files {
      FormattedIs(t, p, files[p]);
      FormattedIs(t, p, tree[p]);
    }
    hide NormalizeGo;
  }

  /** The baseline of a new project: the hash of every file below internal/platform. */
  lemma ScaffoldedExactly(t: Tools, files: Tree, p: Path)
    ensures var sums := UpgradeRuns.SumsFromDisk(t, files);
      && (p in sums <==> p in files && "internal/platform/" <= p)
      && (p in sums ==> sums[p] == t.sha256(Formatted(t, p, files[p])))
  {
    if p in files {
      FormattedIs(t, p, files[p]);
    }
    hide NormalizeGo, Formatted;
  }
}
