/** What upgradePlan and applyUpgrade do to a project, path by path: interrupted and repeated applies. */
module UpgradeEffect {
  import opened Text
  import opened Order
  import opened Baseline
  import opened Upgrade

  /** Is the path written? */
  predicate WritesAt(t: Tools, sums: Sums, files: Tree, tree: Tree, force: bool, p: Path) {
    Writes(StatusOf(t, sums, files, tree, p), force)
  }

  /** The files after an apply: the render where it writes, and otherwise what was there. */
  function FilesAfter(t: Tools, sums: Sums, files: Tree, tree: Tree, force: bool): Tree {
    map p | p in files.Keys + tree.Keys ::
      if p in tree && (p !in files || WritesAt(t, sums, files, tree, force, p)) then Desired(t, tree, p) else files[p]
  }

  /** The file on disk is what the templates want, up to gofmt. */
  predicate IsDesired(t: Tools, files: Tree, tree: Tree, p: Path) {
    p in tree && p in files && NormalizeGo(t, p, files[p]) == Desired(t, tree, p)
  }

  /** The baseline after an apply that left these files. */
  function SumsAfter(t: Tools, sums: Sums, files: Tree, tree: Tree): Sums {
    map p | p in sums.Keys + tree.Keys && (p in sums || IsDesired(t, files, tree, p)) ::
      if IsDesired(t, files, tree, p) then BaselineHash(t, p, files[p]) else sums[p]
  }

  // ----- the commands compute these --------------------------------------------------------------------

  lemma PlanHolds(t: Tools, sums: Sums, files: Tree, tree: Tree)
    ensures var entries := PlanOf(t, sums, files, tree);
      && Ascending(PathsOf(entries))
      && (forall e :: e in entries ==> e == EntryFor(t, sums, files, tree, e.path) && e.path in PlanPaths(files, tree))
      && (forall p :: p in PlanPaths(files, tree) ==> EntryFor(t, sums, files, tree, p) in entries)
  {
    var entries, paths := PlanOf(t, sums, files, tree), Listing(PlanPaths(files, tree));
    hide Ascending, PlanPaths, StatusOf;
    assert PathsOf(entries) == paths;
    forall p | p in PlanPaths(files, tree)
      ensures EntryFor(t, sums, files, tree, p) in entries
    {
      assert p in paths;
      var i :| 0 <= i < |paths| && paths[i] == p;
      assert entries[i] == EntryFor(t, sums, files, tree, p);
    }
  }

  /** A written entry holds the render of its path. */
  lemma WrittenEntry(t: Tools, sums: Sums, files: Tree, tree: Tree, force: bool, e: Entry)
    requires e in ToWrite(PlanOf(t, sums, files, tree), force)
    ensures e.path in tree && e.rendered == Desired(t, tree, e.path) && WritesAt(t, sums, files, tree, force, e.path)
  {
    PlanHolds(t, sums, files, tree);
    ToWriteHolds(PlanOf(t, sums, files, tree), force, e);
    hide PlanOf, PlanPaths, NormalizeGo, BaselineHash, SumOf;
  }

  /** And the written paths are those of written entries. */
  lemma WrittenPath(t: Tools, sums: Sums, files: Tree, tree: Tree, force: bool, p: Path)
    ensures p in PathsOf(ToWrite(PlanOf(t, sums, files, tree), force)) <==>
      p in tree && WritesAt(t, sums, files, tree, force, p)
  {
    var writes := ToWrite(PlanOf(t, sums, files, tree), force);
    if p in PathsOf(writes) {
      var i :| 0 <= i < |writes| && writes[i].path == p;
      WrittenEntry(t, sums, files, tree, force, writes[i]);
    }
    if p in tree && WritesAt(t, sums, files, tree, force, p) {
      PlanHolds(t, sums, files, tree);
      var e := EntryFor(t, sums, files, tree, p);
      ToWriteHolds(PlanOf(t, sums, files, tree), force, e);
      hide PlanOf, StatusOf, ToWrite;
      var i :| 0 <= i < |writes| && writes[i] == e;
      assert PathsOf(writes)[i] == p;
    }
  }

  /** A full apply leaves FilesAfter. */
  lemma ApplyFiles(t: Tools, sums: Sums, files: Tree, tree: Tree, force: bool)
    ensures Published(files, ToWrite(PlanOf(t, sums, files, tree), force)) == FilesAfter(t, sums, files, tree, force)
  {
    hide PlanOf, StatusOf, NormalizeGo, ToWrite, Published, Ascending;
    var writes := ToWrite(PlanOf(t, sums, files, tree), force);
    PlanHolds(t, sums, files, tree);
    ToWriteAscending(PlanOf(t, sums, files, tree), force);
    PublishedAt(files, writes);
    MissingIsWritten(t, sums, files, tree, force);
    forall p
      ensures p in Published(files, writes) <==> p in files || p in tree
      ensures p in Published(files, writes) ==>
        Published(files, writes)[p] == FilesAfter(t, sums, files, tree, force)[p]
    {
      WrittenPath(t, sums, files, tree, force, p);
      if p in PathsOf(writes) {
        var i :| 0 <= i < |writes| && writes[i].path == p;
        WrittenEntry(t, sums, files, tree, force, writes[i]);
      }
      hide WritesAt, Desired, PathsOf;
    }
    hide FilesAfter;
    SameTree(Published(files, writes), FilesAfter(t, sums, files, tree, force), files.Keys + tree.Keys);
  }

  lemma MissingIsWritten(t: Tools, sums: Sums, files: Tree, tree: Tree, force: bool)
    ensures forall p :: p in tree && p !in files ==> WritesAt(t, sums, files, tree, force, p)
  {
    hide NormalizeGo;
  }

  lemma SameTree(m: Tree, n: Tree, keys: set<Path>)
    requires forall p :: p in m <==> p in keys
    requires n.Keys == keys && forall p :: p in m ==> m[p] == n[p]
    ensures m == n
  {}

  /** The refresh records what SumsAfter says. */
  lemma ApplySums(t: Tools, sums: Sums, before: Tree, files: Tree, tree: Tree)
    ensures Refreshed(t, sums, files, PlanOf(t, sums, before, tree)) == SumsAfter(t, sums, files, tree)
  {
    var entries := PlanOf(t, sums, before, tree);
    PlanHolds(t, sums, before, tree);
    forall p
      ensures Recorded(t, files, entries, p) <==> IsDesired(t, files, tree, p)
    {
      EntryRecorded(t, sums, before, files, tree, entries, p);
    }
    forall p
      ensures p in Refreshed(t, sums, files, entries) <==> p in SumsAfter(t, sums, files, tree)
      ensures p in Refreshed(t, sums, files, entries) ==>
        Refreshed(t, sums, files, entries)[p] == SumsAfter(t, sums, files, tree)[p]
    {
      RefreshedAt(t, sums, files, entries, p);
      hide Recorded, IsDesired, BaselineHash, PlanOf;
    }
    hide *;
    SameSums(Refreshed(t, sums, files, entries), SumsAfter(t, sums, files, tree));
  }

  lemma SameSums(m: Sums, n: Sums)
    requires forall p :: p in m <==> p in n
    requires forall p :: p in m ==> m[p] == n[p]
    ensures m == n
  {}

  lemma EntryRecorded(t: Tools, sums: Sums, before: Tree, files: Tree, tree: Tree, entries: seq<Entry>, p: Path)
    requires forall e :: e in entries ==>
      e == EntryFor(t, sums, before, tree, e.path) && e.path in PlanPaths(before, tree)
    requires forall q :: q in PlanPaths(before, tree) ==> EntryFor(t, sums, before, tree, q) in entries
    ensures Recorded(t, files, entries, p) <==> IsDesired(t, files, tree, p)
  {
    hide NormalizeGo, BaselineHash, SumOf, HasPrefix;
    if IsDesired(t, files, tree, p) {
      assert p in PlanPaths(before, tree);
      assert IsCurrent(t, files, EntryFor(t, sums, before, tree, p));
    }
  }

  // ----- whole applies -------------------------------------------------------------------------------------

  /** A project as a value: its files and the text of its baseline. */
  datatype Disk = Disk(files: Tree, sum: Option<string>)

  ghost function WritesOf(t: Tools, d: Disk, tree: Tree, force: bool): seq<Entry>
    requires ReadSums(d.sum).Read?
  {
    ToWrite(PlanOf(t, ReadSums(d.sum).sums, d.files, tree), force)
  }

  /** Plan and apply, stopped before rename number `n`, or before the baseline is written. */
  ghost function Interrupted(t: Tools, d: Disk, tree: Tree, force: bool, n: nat): Disk
    requires ReadSums(d.sum).Read? && n <= |WritesOf(t, d, tree, force)|
  {
    Disk(Published(d.files, WritesOf(t, d, tree, force)[..n]), d.sum)
  }

  /** Plan and apply, to the end. */
  ghost function Complete(t: Tools, d: Disk, tree: Tree, force: bool): Disk
    requires ReadSums(d.sum).Read?
  {
    var sums := ReadSums(d.sum).sums;
    var files := FilesAfter(t, sums, d.files, tree, force);
    Disk(files, Some(BaselineText(SumsAfter(t, sums, files, tree))))
  }

  /** gin-kit upgrade --apply: it reports what it updated and what it skipped. */
  method UpgradeCommand(project: Project, t: Tools, tree: Tree, force: bool, fails: Option<nat>)
      returns (applied: seq<Path>, skipped: seq<Path>, err: Option<Failure>)
    modifies project
    ensures var before := old(Disk(project.files, project.sum));
      var after := Disk(project.files, project.sum);
      match ReadSums(before.sum) {
        case Invalid(line) =>
          err == Some(BaselineInvalid(line)) && after == before && applied == [] && skipped == []
        case Read(sums) =>
          && skipped == Skipped(PlanOf(t, sums, before.files, tree), force)
          && if fails.Some? && fails.value <= |WritesOf(t, before, tree, force)|
          then
            && (err == Some(PublishFailed) || err == Some(BaselineWriteFailed))
            && after == Interrupted(t, before, tree, force, fails.value)
            && applied == PathsOf(WritesOf(t, before, tree, force)[..fails.value])
          else
            && err == None && after == Complete(t, before, tree, force)
            && applied == PathsOf(WritesOf(t, before, tree, force))
      }
  {
    hide *;
    hide ReadSums, PlanOf, FilesAfter, SumsAfter, ToWrite, BaselineText;
    ghost var before := Disk(project.files, project.sum);
    var entries;
    entries, err := project.Plan(t, tree);
    applied, skipped := [], [];
    if err != None {
      return;
    }
    ghost var sums := ReadSums(before.sum).sums;
    PlanHolds(t, sums, before.files, tree);
    applied, skipped, err := project.Apply(t, entries, force, fails);
    WritesAre(t, before, tree, force);
    if fails.Some? && fails.value <= |WritesOf(t, before, tree, force)| {
      InterruptedIs(t, before, tree, force, fails.value);
      AllWrites(WritesOf(t, before, tree, force));
    } else {
      ApplyFiles(t, sums, before.files, tree, force);
      ApplySums(t, sums, before.files, project.files, tree);
      CompleteIs(t, before, tree, force);
    }
  }

  lemma AllWrites(writes: seq<Entry>)
    ensures writes[..|writes|] == writes
  {}

  lemma WritesAre(t: Tools, d: Disk, tree: Tree, force: bool)
    requires ReadSums(d.sum).Read?
    ensures WritesOf(t, d, tree, force) == ToWrite(PlanOf(t, ReadSums(d.sum).sums, d.files, tree), force)
  {
    hide ReadSums, PlanOf, ToWrite;
  }

  lemma InterruptedIs(t: Tools, d: Disk, tree: Tree, force: bool, n: nat)
    requires ReadSums(d.sum).Read? && n <= |WritesOf(t, d, tree, force)|
    ensures Interrupted(t, d, tree, force, n) == Disk(Published(d.files, WritesOf(t, d, tree, force)[..n]), d.sum)
  {
    hide ReadSums, Published, WritesOf;
  }

  lemma CompleteIs(t: Tools, d: Disk, tree: Tree, force: bool)
    requires ReadSums(d.sum).Read?
    ensures var sums := ReadSums(d.sum).sums;
      var files := FilesAfter(t, sums, d.files, tree, force);
      Complete(t, d, tree, force) == Disk(files, Some(BaselineText(SumsAfter(t, sums, files, tree))))
  {
    hide ReadSums, FilesAfter, SumsAfter, BaselineText;
  }

  // ----- interrupted applies -----------------------------------------------------------------------------------

  /** The file at `p` is as it was, or it is one that the apply writes and holds the whole render. */
  predicate OldOrRendered(t: Tools, sums: Sums, files: Tree, tree: Tree, force: bool, now: Tree, p: Path) {
    || (p in tree && WritesAt(t, sums, files, tree, force, p) && p in now && now[p] == Desired(t, tree, p))
    || ((p in now <==> p in files) && (p in now ==> now[p] == files[p]))
  }

  lemma InterruptedFile(t: Tools, sums: Sums, files: Tree, tree: Tree, force: bool, n: nat, p: Path)
    requires n <= |ToWrite(PlanOf(t, sums, files, tree), force)|
    ensures var written := ToWrite(PlanOf(t, sums, files, tree), force)[..n];
      OldOrRendered(t, sums, files, tree, force, Published(files, written), p)
  {
    hide PlanOf, ToWrite, Published, WritesAt, Desired, Ascending;
    var writes := ToWrite(PlanOf(t, sums, files, tree), force);
    PlanHolds(t, sums, files, tree);
    ToWriteAscending(PlanOf(t, sums, files, tree), force);
    AscendingPrefix(PathsOf(writes), n);
    assert PathsOf(writes[..n]) == PathsOf(writes)[..n];
    PublishedAt(files, writes[..n]);
    if p in PathsOf(writes[..n]) {
      var i :| 0 <= i < n && writes[i].path == p;
      assert writes[..n][i] == writes[i];
      WrittenEntry(t, sums, files, tree, force, writes[i]);
    }
  }

  /** An apply stopped between two renames leaves every file old or fully rendered. */
  lemma InterruptedLeavesOldOrRendered(t: Tools, d: Disk, tree: Tree, force: bool, n: nat, p: Path)
    requires ReadSums(d.sum).Read? && n <= |WritesOf(t, d, tree, force)|
    ensures OldOrRendered(t, ReadSums(d.sum).sums, d.files, tree, force, Interrupted(t, d, tree, force, n).files, p)
  {
    hide ReadSums, OldOrRendered, PlanOf, Published, ToWrite;
    InterruptedFile(t, ReadSums(d.sum).sums, d.files, tree, force, n, p);
  }

  /** A file that holds the render is up to date. */
  lemma RenderedIsUpToDate(t: Tools, sums: Sums, files: Tree, tree: Tree, p: Path)
    requires Lawful(t) && p in tree && p in files && files[p] == Desired(t, tree, p)
    ensures StatusOf(t, sums, files, tree, p) == UpToDate
  {
    NormalizeIdempotent(t, p, tree[p]);
    hide NormalizeGo, Lawful;
  }

  lemma StatusDepends(t: Tools, sums: Sums, files: Tree, now: Tree, tree: Tree, p: Path)
    requires (p in now <==> p in files) && (p in now ==> now[p] == files[p])
    ensures StatusOf(t, sums, now, tree, p) == StatusOf(t, sums, files, tree, p)
  {
    hide NormalizeGo;
  }

  lemma RerunFile(t: Tools, sums: Sums, files: Tree, tree: Tree, force: bool, now: Tree, p: Path)
    requires Lawful(t) && OldOrRendered(t, sums, files, tree, force, now, p)
    ensures p in FilesAfter(t, sums, now, tree, force) <==> p in FilesAfter(t, sums, files, tree, force)
    ensures p in FilesAfter(t, sums, now, tree, force) ==>
      FilesAfter(t, sums, now, tree, force)[p] == FilesAfter(t, sums, files, tree, force)[p]
  {
    if p in tree && p in now && now[p] == Desired(t, tree, p) {
      RenderedIsUpToDate(t, sums, now, tree, p);
    }
    if (p in now <==> p in files) && (p in now ==> now[p] == files[p]) {
      StatusDepends(t, sums, files, now, tree, p);
    }
    hide Lawful, StatusOf, Desired;
  }

  lemma RerunFiles(t: Tools, sums: Sums, files: Tree, tree: Tree, force: bool, now: Tree)
    requires Lawful(t) && forall p :: OldOrRendered(t, sums, files, tree, force, now, p)
    ensures FilesAfter(t, sums, now, tree, force) == FilesAfter(t, sums, files, tree, force)
  {
    hide OldOrRendered, FilesAfter, Lawful;
    forall p
      ensures p in FilesAfter(t, sums, now, tree, force) <==> p in FilesAfter(t, sums, files, tree, force)
      ensures p in FilesAfter(t, sums, now, tree, force) ==>
        FilesAfter(t, sums, now, tree, force)[p] == FilesAfter(t, sums, files, tree, force)[p]
    {
      RerunFile(t, sums, files, tree, force, now, p);
    }
  }

  /** Planning and applying again after an interrupted apply ends as an uninterrupted apply does. */
  lemma RerunCompletes(t: Tools, d: Disk, tree: Tree, force: bool, n: nat)
    requires Lawful(t) && ReadSums(d.sum).Read? && n <= |WritesOf(t, d, tree, force)|
    ensures Complete(t, Interrupted(t, d, tree, force, n), tree, force) == Complete(t, d, tree, force)
  {
    hide Lawful, ReadSums, WritesOf, OldOrRendered, Published, FilesAfter, SumsAfter, BaselineText;
    var now := Interrupted(t, d, tree, force, n);
    forall p
      ensures OldOrRendered(t, ReadSums(d.sum).sums, d.files, tree, force, now.files, p)
    {
      InterruptedLeavesOldOrRendered(t, d, tree, force, n, p);
    }
    RerunFiles(t, ReadSums(d.sum).sums, d.files, tree, force, now.files);
  }

  // ----- a second apply ------------------------------------------------------------------------------------------

  /** After an apply, nothing is left to write. */
  lemma NothingToWrite(t: Tools, sums: Sums, files: Tree, tree: Tree, force: bool, again: bool, p: Path)
    requires Lawful(t) && p in tree && (again ==> force)
    ensures var now := FilesAfter(t, sums, files, tree, force);
      !WritesAt(t, SumsAfter(t, sums, now, tree), now, tree, again, p)
  {
    var now := FilesAfter(t, sums, files, tree, force);
    var sumsNow := SumsAfter(t, sums, now, tree);
    if p !in files || WritesAt(t, sums, files, tree, force, p) {
      RenderedIsUpToDate(t, sumsNow, now, tree, p);
      hide Lawful, StatusOf, SumsAfter, FilesAfter, Desired;
    } else {
      StatusDepends(t, sums, files, now, tree, p);
      hide FilesAfter, Lawful;
      StatusKept(t, sums, now, tree, p);
      hide SumsAfter, StatusOf;
    }
  }

  lemma StatusKept(t: Tools, sums: Sums, now: Tree, tree: Tree, p: Path)
    requires p in tree && p in now
    ensures StatusOf(t, SumsAfter(t, sums, now, tree), now, tree, p) == StatusOf(t, sums, now, tree, p)
  {
    hide NormalizeGo, BaselineHash;
  }

  lemma SumsAreFields(t: Tools, sums: Sums, files: Tree, tree: Tree)
    requires Lawful(t) && Plain(sums.Keys) && Hashes(sums) && Plain(tree.Keys)
    ensures Plain(SumsAfter(t, sums, files, tree).Keys) && Hashes(SumsAfter(t, sums, files, tree))
  {
    forall p | p in SumsAfter(t, sums, files, tree)
      ensures IsField(SumsAfter(t, sums, files, tree)[p])
    {
      hide IsField, NormalizeGo;
    }
    hide IsField, Lawful;
  }

  /** The baseline an apply writes is read back as it was meant. */
  lemma CompleteIsRead(t: Tools, d: Disk, tree: Tree, force: bool)
    requires Lawful(t) && ReadSums(d.sum).Read? && Plain(tree.Keys)
    ensures var sums := ReadSums(d.sum).sums;
      ReadSums(Complete(t, d, tree, force).sum) == Read(SumsAfter(t, sums, Complete(t, d, tree, force).files, tree))
  {
    hide Lawful, ReadSums, FilesAfter, SumsAfter, BaselineText, Plain, Hashes;
    var sums, files := ReadSums(d.sum).sums, Complete(t, d, tree, force).files;
    ReadSumsFields(d.sum);
    SumsAreFields(t, sums, files, tree);
    WrittenIsRead(SumsAfter(t, sums, files, tree));
  }

  lemma FilesStay(t: Tools, sums: Sums, files: Tree, tree: Tree, force: bool)
    requires tree.Keys <= files.Keys && forall p :: p in tree ==> !WritesAt(t, sums, files, tree, force, p)
    ensures FilesAfter(t, sums, files, tree, force) == files
  {
    hide WritesAt, Desired;
  }

  lemma SumsStay(t: Tools, sums: Sums, files: Tree, tree: Tree)
    ensures SumsAfter(t, SumsAfter(t, sums, files, tree), files, tree) == SumsAfter(t, sums, files, tree)
  {
    hide IsDesired, BaselineHash;
  }

  lemma NoWrites(t: Tools, sums: Sums, files: Tree, tree: Tree, force: bool)
    requires forall p :: p in tree ==> !WritesAt(t, sums, files, tree, force, p)
    ensures ToWrite(PlanOf(t, sums, files, tree), force) == []
  {
    hide *;
    var writes := ToWrite(PlanOf(t, sums, files, tree), force);
    if writes != [] {
      HeadIn(writes);
      WrittenEntry(t, sums, files, tree, force, writes[0]);
    }
  }

  lemma HeadIn(entries: seq<Entry>)
    requires entries != []
    ensures entries[0] in entries
  {}

  /** A second apply writes no file and leaves the baseline file as it is. */
  lemma SecondApplyChangesNothing(t: Tools, d: Disk, tree: Tree, force: bool, again: bool)
    requires Lawful(t) && ReadSums(d.sum).Read? && Plain(tree.Keys) && (again ==> force)
    ensures var after := Complete(t, d, tree, force);
      && ReadSums(after.sum).Read?
      && WritesOf(t, after, tree, again) == []
      && Complete(t, after, tree, again) == after
  {
    hide Lawful, ReadSums, SumsAfter, BaselineText, Plain, WritesAt, Desired, PlanOf, ToWrite;
    var after, sums := Complete(t, d, tree, force), ReadSums(d.sum).sums;
    CompleteIsRead(t, d, tree, force);
    forall p | p in tree
      ensures !WritesAt(t, SumsAfter(t, sums, after.files, tree), after.files, tree, again, p)
    {
      NothingToWrite(t, sums, d.files, tree, force, again, p);
    }
    NoWrites(t, SumsAfter(t, sums, after.files, tree), after.files, tree, again);
    assert tree.Keys <= after.files.Keys;
    FilesStay(t, SumsAfter(t, sums, after.files, tree), after.files, tree, again);
    SumsStay(t, sums, after.files, tree);
    hide FilesAfter;
  }
}
