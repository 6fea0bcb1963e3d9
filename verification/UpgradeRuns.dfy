/** A project over CLI versions, user edits and applies (internal/cli/upgrade.go). */
module UpgradeRuns {
  import opened Text
  import opened Baseline
  import opened Upgrade
  import opened UpgradeEffect

  /** A project, and what CLI versions rendered for it so far: paths with gofmt-normalized contents. */
  datatype State = State(disk: Disk, rendered: set<(Path, Content)>)

  /** What may happen: the user writes or deletes a file, or deletes the baseline; some CLI version, with
      its own templates, applies an upgrade, which may stop at a rename. */
  datatype Step =
    | Edit(path: Path, content: Option<Content>)
    | DropBaseline
    | Apply(tree: Tree, force: bool, fails: Option<nat>)

  function Renders(t: Tools, tree: Tree): set<(Path, Content)> {
    set p | p in tree :: (p, Desired(t, tree, p))
  }

  /** writeBaselineFromDisk: the hash of every file under internal/platform. */
  function SumsFromDisk(t: Tools, files: Tree): Sums {
    map p | p in files && HasPrefix(p, PLATFORM) :: BaselineHash(t, p, files[p])
  }

  /** internal/platform is a directory once there is a file in it. */
  predicate HasPlatform(files: Tree) {
    exists p :: p in files && HasPrefix(p, PLATFORM)
  }

  /** What writeBaselineFromDisk writes: nothing where there is no internal/platform to walk. */
  ghost function TextFromDisk(t: Tools, files: Tree): Option<string> {
    if HasPlatform(files) then Some(BaselineText(SumsFromDisk(t, files))) else None
  }

  lemma PlatformWalk(files: Tree, walk: set<Path>)
    requires forall p :: p in walk <==> p in files && HasPrefix(p, PLATFORM)
    ensures HasPlatform(files) <==> walk != {}
  {
    hide HasPrefix;
    if walk != {} {
      var p :| p in walk;
      assert p in files && HasPrefix(p, PLATFORM);
    }
  }

  method WriteBaselineFromDisk(t: Tools, files: Tree) returns (sum: Option<string>)
    ensures sum == TextFromDisk(t, files)
  {
    hide NormalizeGo, HasPrefix;
    var sums: Sums := map[];
    var walk := set p | p in files && HasPrefix(p, PLATFORM);
    assert HasPlatform(files) <==> walk != {} by {
      PlatformWalk(files, walk);
    }
    if walk == {} {
      return None;
    }
    var rest := walk;
    while rest != {}
      invariant rest <= walk && sums.Keys == walk - rest
      invariant forall p :: p in sums ==> sums[p] == BaselineHash(t, p, files[p])
    {
      var p :| p in rest;
      sums := sums[p := BaselineHash(t, p, files[p])];
      rest := rest - {p};
    }
    assert sums == SumsFromDisk(t, files);
    var text := WriteBaseline(sums);
    sum := Some(text);
  }

  /** A new project: the rendered files, gofmt-formatted, and their baseline. */
  ghost function Scaffolded(t: Tools, tree: Tree): State {
    var files := map p | p in tree :: Desired(t, tree, p);
    State(Disk(files, TextFromDisk(t, files)), Renders(t, tree))
  }

  /** A project from before baselines existed. */
  function Unrecorded(files: Tree): State {
    State(Disk(files, None), {})
  }

  /** Where a project's history begins. */
  ghost predicate IsStart(t: Tools, s: State) {
    || (exists tree: Tree :: Plain(tree.Keys) && s == Scaffolded(t, tree))
    || (exists files: Tree :: s == Unrecorded(files))
  }

  ghost function After(t: Tools, s: State, step: Step): State {
    match step
    case Edit(p, content) =>
      var files := if content.Some? then s.disk.files[p := content.value] else s.disk.files - {p};
      s.(disk := s.disk.(files := files))
    case DropBaseline => s.(disk := s.disk.(sum := None))
    case Apply(tree, force, fails) => State(Applied(t, s.disk, tree, force, fails), s.rendered + Renders(t, tree))
  }

  /** What UpgradeCommand leaves. */
  ghost function Applied(t: Tools, d: Disk, tree: Tree, force: bool, fails: Option<nat>): Disk {
    if ReadSums(d.sum).Invalid? then d
    else if fails.Some? && fails.value <= |WritesOf(t, d, tree, force)| then Interrupted(t, d, tree, force, fails.value)
    else Complete(t, d, tree, force)
  }

  /** Templates have no white space in their paths. */
  predicate PlainStep(step: Step) {
    step.Apply? ==> Plain(step.tree.Keys)
  }

  ghost function Run(t: Tools, s: State, steps: seq<Step>): State {
    if steps == [] then s else After(t, Run(t, s, steps[..|steps| - 1]), steps[|steps| - 1])
  }

  // ----- every baseline entry is the hash of a render -----------------------------------------------------

  predicate IsHashOfRender(t: Tools, p: Path, hash: string, rendered: set<(Path, Content)>) {
    exists r :: r in rendered && r.0 == p && t.sha256(r.1) == hash
  }

  predicate AllRendered(t: Tools, sums: Sums, rendered: set<(Path, Content)>) {
    forall p :: p in sums ==> IsHashOfRender(t, p, sums[p], rendered)
  }

  /** The baseline can be read, and every entry is the hash of something rendered for its path. */
  ghost predicate Truthful(t: Tools, s: State) {
    ReadSums(s.disk.sum).Read? && AllRendered(t, ReadSums(s.disk.sum).sums, s.rendered)
  }

  lemma AllRenderedGrows(t: Tools, sums: Sums, rendered: set<(Path, Content)>, more: set<(Path, Content)>)
    requires AllRendered(t, sums, rendered) && rendered <= more
    ensures AllRendered(t, sums, more)
  {
    forall p | p in sums
      ensures IsHashOfRender(t, p, sums[p], more)
    {
      assert IsHashOfRender(t, p, sums[p], rendered);
    }
  }

  lemma DesiredIsRendered(t: Tools, tree: Tree, p: Path, rendered: set<(Path, Content)>)
    requires p in tree && Renders(t, tree) <= rendered
    ensures IsHashOfRender(t, p, t.sha256(Desired(t, tree, p)), rendered)
  {
    hide Desired;
    assert (p, Desired(t, tree, p)) in Renders(t, tree);
  }

  lemma RefreshIsTruthful(t: Tools, sums: Sums, files: Tree, tree: Tree, rendered: set<(Path, Content)>)
    requires AllRendered(t, sums, rendered)
    ensures AllRendered(t, SumsAfter(t, sums, files, tree), rendered + Renders(t, tree))
  {
    var after := SumsAfter(t, sums, files, tree);
    AllRenderedGrows(t, sums, rendered, rendered + Renders(t, tree));
    forall p | p in after
      ensures IsHashOfRender(t, p, after[p], rendered + Renders(t, tree))
    {
      hide IsHashOfRender, NormalizeGo, Renders, Desired;
      if IsDesired(t, files, tree, p) {
        DesiredIsRendered(t, tree, p, rendered + Renders(t, tree));
      }
    }
  }

  lemma EmptyIsTruthful(t: Tools, s: State)
    requires s.disk.sum == None
    ensures Truthful(t, s)
  {}

  lemma ScaffoldIsTruthful(t: Tools, tree: Tree)
    requires Lawful(t) && Plain(tree.Keys)
    ensures Truthful(t, Scaffolded(t, tree))
  {
    var files := map p | p in tree :: Desired(t, tree, p);
    var sums := SumsFromDisk(t, files);
    hide HasPrefix, IsField;
    forall p | p in sums
      ensures IsHashOfRender(t, p, sums[p], Renders(t, tree))
    {
      NormalizeIdempotent(t, p, tree[p]);
      DesiredIsRendered(t, tree, p, Renders(t, tree));
      hide IsHashOfRender, NormalizeGo, Renders, Lawful;
    }
    assert Plain(sums.Keys) && Hashes(sums);
    WrittenIsRead(sums);
    if !HasPlatform(files) {
      EmptyIsTruthful(t, Scaffolded(t, tree));
    }
    hide ReadSums, BaselineText, SumsFromDisk, Lawful, Renders, HasPlatform;
  }

  lemma StartIsTruthful(t: Tools, s: State)
    requires Lawful(t) && IsStart(t, s)
    ensures Truthful(t, s)
  {
    hide Lawful, Truthful, Scaffolded;
    if files: Tree :| s == Unrecorded(files) {
      EmptyIsTruthful(t, s);
    } else {
      var tree: Tree :| Plain(tree.Keys) && s == Scaffolded(t, tree);
      ScaffoldIsTruthful(t, tree);
    }
  }

  lemma ApplyIsTruthful(t: Tools, s: State, tree: Tree, force: bool, fails: Option<nat>)
    requires Lawful(t) && Truthful(t, s) && Plain(tree.Keys)
    ensures Truthful(t, After(t, s, Apply(tree, force, fails)))
  {
    hide Lawful, ReadSums, AllRendered, SumsAfter, FilesAfter, BaselineText, WritesOf, Published, Renders, Plain;
    var sums := ReadSums(s.disk.sum).sums;
    AllRenderedGrows(t, sums, s.rendered, s.rendered + Renders(t, tree));
    CompleteIsRead(t, s.disk, tree, force);
    RefreshIsTruthful(t, sums, Complete(t, s.disk, tree, force).files, tree, s.rendered);
    InterruptedSum(t, s.disk, tree, force, fails);
    hide Complete, Interrupted;
  }

  lemma InterruptedSum(t: Tools, d: Disk, tree: Tree, force: bool, fails: Option<nat>)
    requires ReadSums(d.sum).Read?
    ensures fails.Some? && fails.value <= |WritesOf(t, d, tree, force)| ==>
      Interrupted(t, d, tree, force, fails.value).sum == d.sum
  {
    hide ReadSums, WritesOf, Published;
  }

  lemma StepIsTruthful(t: Tools, s: State, step: Step)
    requires Lawful(t) && Truthful(t, s) && PlainStep(step)
    ensures Truthful(t, After(t, s, step))
  {
    match step
    case Edit(_, _) =>
      hide ReadSums, AllRendered;
    case DropBaseline =>
      EmptyIsTruthful(t, After(t, s, step));
    case Apply(tree, force, fails) =>
      ApplyIsTruthful(t, s, tree, force, fails);
      hide Lawful, Truthful;
  }

  /** From a scaffolded project, or one without baseline, whatever happens: every baseline entry is the
      hash of something some CLI version rendered for its path. */
  lemma {:induction false} BaselineIsTruthful(t: Tools, start: State, steps: seq<Step>)
    requires Lawful(t) && forall i :: 0 <= i < |steps| ==> PlainStep(steps[i])
    requires IsStart(t, start)
    ensures Truthful(t, Run(t, start, steps))
  {
    hide Lawful, Truthful, After, PlainStep, IsStart;
    if steps == [] {
      StartIsTruthful(t, start);
    } else {
      BaselineIsTruthful(t, start, steps[..|steps| - 1]);
      StepIsTruthful(t, Run(t, start, steps[..|steps| - 1]), steps[|steps| - 1]);
    }
  }

  // ----- so user edits survive ---------------------------------------------------------------------------------

  /** The content of `p` is gofmt-equal to something a CLI version rendered for it. */
  predicate WasRendered(t: Tools, p: Path, c: Content, rendered: set<(Path, Content)>) {
    (p, NormalizeGo(t, p, c)) in rendered
  }

  /** A non-force apply writes over a file only if its content was rendered once. */
  lemma OverwritesOnlyRenders(t: Tools, sums: Sums, files: Tree, tree: Tree, p: Path, rendered: set<(Path, Content)>)
    requires Lawful(t) && AllRendered(t, sums, rendered)
    requires p in files && WritesAt(t, sums, files, tree, false, p)
    ensures WasRendered(t, p, files[p], rendered)
  {
    assert IsHashOfRender(t, p, sums[p], rendered) && sums[p] == t.sha256(NormalizeGo(t, p, files[p])) by {
      hide Lawful, IsHashOfRender, NormalizeGo;
    }
    var r :| r in rendered && r.0 == p && t.sha256(r.1) == sums[p];
    hide NormalizeGo, IsField, StatusOf;
  }

  /** Over any history, an apply without --force, finished or not, keeps every file whose content no CLI
      version ever rendered for that path, and deletes nothing. */
  lemma EditsSurvive(t: Tools, start: State, steps: seq<Step>, tree: Tree, fails: Option<nat>, p: Path)
    requires Lawful(t) && forall i :: 0 <= i < |steps| ==> PlainStep(steps[i])
    requires IsStart(t, start)
    requires p in Run(t, start, steps).disk.files
    ensures var s := Run(t, start, steps);
      var files := Applied(t, s.disk, tree, false, fails).files;
      p in files && (files[p] == s.disk.files[p] || WasRendered(t, p, s.disk.files[p], s.rendered))
  {
    BaselineIsTruthful(t, start, steps);
    hide Run, IsStart, Lawful, ReadSums, PlainStep, WritesAt, FilesAfter, WritesOf, WasRendered, AllRendered;
    var s := Run(t, start, steps);
    var sums := ReadSums(s.disk.sum).sums;
    if WritesAt(t, sums, s.disk.files, tree, false, p) {
      OverwritesOnlyRenders(t, sums, s.disk.files, tree, p, s.rendered);
    }
    AppliedFile(t, s.disk, tree, fails, p);
  }

  lemma AppliedFile(t: Tools, d: Disk, tree: Tree, fails: Option<nat>, p: Path)
    requires p in d.files && ReadSums(d.sum).Read?
    ensures var files := Applied(t, d, tree, false, fails).files;
      p in files && (files[p] == d.files[p] || WritesAt(t, ReadSums(d.sum).sums, d.files, tree, false, p))
  {
    if fails.Some? && fails.value <= |WritesOf(t, d, tree, false)| {
      InterruptedLeavesOldOrRendered(t, d, tree, false, fails.value, p);
      hide ReadSums, WritesOf, Interrupted, WritesAt, Desired;
    } else {
      hide ReadSums, WritesOf, WritesAt, SumsAfter, BaselineText, Desired;
    }
  }
}
