/** runtime/storage/local.go: names confined to a root directory. */
module Local {
  import opened Text

  // ----- lexical paths ----------------------------------------------------------------------------

  /** A segment that names something below a directory. */
  predicate Proper(seg: string) {
    seg != "" && seg != "." && seg != ".."
  }

  predicate AllProper(segs: seq<string>) {
    forall i :: 0 <= i < |segs| ==> Proper(segs[i]) && '/' !in segs[i]
  }

  /** One more segment of path.Clean's output. */
  function Cleaned(rooted: bool, out: seq<string>, seg: string): seq<string> {
    if seg == "" || seg == "." then out
    else if seg == ".." then
      if out != [] && out[|out| - 1] != ".." then out[..|out| - 1]
      else if rooted then out
      else out + [".."]
    else out + [seg]
  }

  function CleanSegments(rooted: bool, segs: seq<string>): seq<string> {
    if segs == [] then []
    else Cleaned(rooted, CleanSegments(rooted, segs[..|segs| - 1]), segs[|segs| - 1])
  }

  /** path.Clean. */
  function Clean(s: string): string {
    var rooted := s != "" && s[0] == '/';
    var out := CleanSegments(rooted, Split(s, '/'));
    if rooted then "/" + Join(out, "/") else if out == [] then "." else Join(out, "/")
  }

  // ----- resolve --------------------------------------------------------------------------------------

  datatype Resolved = Resolved(full: string, cleaned: string) | Malformed | Absolute | Escapes | OutsideRoot

  predicate IsMalformed(name: string) {
    name == "" || '\0' in name || '\\' in name
  }

  predicate IsAbsolute(name: string) {
    name != "" && name[0] == '/'
  }

  /** filepath.Join of two names that are not empty. */
  function JoinPaths(x: string, y: string): string {
    Clean(x + "/" + y)
  }

  predicate LeavesRoot(cleaned: string) {
    cleaned == "." || cleaned == ".." || HasPrefix(cleaned, "../")
  }

  /** The last check of resolve, on a full path. */
  predicate IsOutside(root: string, full: string) {
    full != root && !HasPrefix(full, root + "/")
  }

  function Resolve(root: string, name: string): Resolved {
    if IsMalformed(name) then Malformed
    else if IsAbsolute(name) then Absolute
    else
      var cleaned := Clean(name);
      if LeavesRoot(cleaned) then Escapes
      else
        var full := JoinPaths(root, cleaned);
        if IsOutside(root, full) then OutsideRoot else Resolved(full, cleaned)
  }

  // ----- walks ------------------------------------------------------------------------------------------

  /** Where one segment leads from a directory; the parent of `/` is `/`. */
  function Move(at: seq<string>, seg: string): seq<string> {
    if seg == "" || seg == "." then at
    else if seg == ".." then if at == [] then [] else at[..|at| - 1]
    else at + [seg]
  }

  /** Where a name leads from a directory. */
  function Walk(from: seq<string>, segs: seq<string>): seq<string> {
    if segs == [] then from else Move(Walk(from, segs[..|segs| - 1]), segs[|segs| - 1])
  }

  /** What is properly inside a directory. */
  predicate IsBelow(at: seq<string>, root: seq<string>) {
    |root| < |at| && at[..|root|] == root
  }

  /** Segments of the form ../../a/b. */
  predicate IsNormal(out: seq<string>, ups: nat) {
    && ups <= |out|
    && (forall i :: 0 <= i < ups ==> out[i] == "..")
    && (forall i :: ups <= i < |out| ==> Proper(out[i]) && '/' !in out[i])
  }

  lemma CleanedNormal(out: seq<string>, ups: nat, seg: string) returns (next: nat)
    requires IsNormal(out, ups) && '/' !in seg
    ensures IsNormal(Cleaned(false, out, seg), next)
  {
    if seg == ".." && out == [] {
      next := 1;
    } else if seg == ".." && out[|out| - 1] == ".." {
      next := ups + 1;
      assert |out| == ups;
    } else {
      next := ups;
    }
  }

  /** Cleaning a relative name leaves its ups, then proper segments. */
  lemma {:induction false} CleanNormal(segs: seq<string>) returns (ups: nat)
    requires forall i :: 0 <= i < |segs| ==> '/' !in segs[i]
    ensures IsNormal(CleanSegments(false, segs), ups)
  {
    if segs == [] {
      ups := 0;
    } else {
      var before := CleanNormal(segs[..|segs| - 1]);
      ups := CleanedNormal(CleanSegments(false, segs[..|segs| - 1]), before, segs[|segs| - 1]);
    }
    hide Cleaned, IsNormal;
  }

  lemma CleanedWalk(from: seq<string>, out: seq<string>, ups: nat, seg: string)
    requires IsNormal(out, ups)
    ensures Walk(from, Cleaned(false, out, seg)) == Move(Walk(from, out), seg)
  {
    if seg == "" || seg == "." {
    } else if seg == ".." && out != [] && out[|out| - 1] != ".." {
      var before := Walk(from, out[..|out| - 1]);
      assert (before + [out[|out| - 1]])[..|before|] == before;
    } else {
      assert (out + [seg])[..|out|] == out;
    }
  }

  /** path.Clean does not change where a relative name leads, from any directory. */
  lemma {:induction false} CleanKeepsWalk(from: seq<string>, segs: seq<string>)
    requires forall i :: 0 <= i < |segs| ==> '/' !in segs[i]
    ensures Walk(from, CleanSegments(false, segs)) == Walk(from, segs)
  {
    if segs != [] {
      CleanKeepsWalk(from, segs[..|segs| - 1]);
      var ups := CleanNormal(segs[..|segs| - 1]);
      CleanedWalk(from, CleanSegments(false, segs[..|segs| - 1]), ups, segs[|segs| - 1]);
    }
    hide Cleaned, IsNormal, Move;
  }

  lemma {:induction false} ProperWalk(from: seq<string>, segs: seq<string>)
    requires IsNormal(segs, 0)
    ensures Walk(from, segs) == from + segs
  {
    if segs != [] {
      ProperWalk(from, segs[..|segs| - 1]);
      assert segs == segs[..|segs| - 1] + [segs[|segs| - 1]];
    } else {
      assert from + [] == from;
    }
  }

  /** A walk that starts with ups from a directory of one segment forgets that directory. */
  lemma {:induction false} UpsWalk(dir: string, segs: seq<string>, ups: nat)
    requires IsNormal(segs, ups) && ups > 0
    ensures Walk([dir], segs) == segs[ups..]
  {
    var before, last := segs[..|segs| - 1], segs[|segs| - 1];
    if |segs| == ups {
      assert last == "..";
      if ups > 1 {
        UpsWalk(dir, before, ups - 1);
      } else {
        assert before == [];
      }
    } else {
      UpsWalk(dir, before, ups);
      assert segs[ups..] == before[ups..] + [last];
    }
  }

  // ----- names and segments ------------------------------------------------------------------------------

  lemma SlashSplit(x: string, y: string)
    ensures Split(x + "/" + y, '/') == Split(x, '/') + Split(y, '/')
  {
    JoinSplit(x, '/');
    JoinSplit(y, '/');
    var p, q := Split(x, '/'), Split(y, '/');
    JoinConcat(p, q);
    SplitJoin(p + q, '/');
    hide Split, Join;
  }

  lemma {:induction false} JoinConcat(p: seq<string>, q: seq<string>)
    requires p != [] && q != []
    ensures Join(p + q, "/") == Join(p, "/") + "/" + Join(q, "/")
  {
    if |p| == 1 {
      assert p + q == [p[0]] + q && (p + q)[1..] == q;
    } else {
      JoinConcat(p[1..], q);
      assert (p + q)[1..] == p[1..] + q;
      JoinTail(p);
      JoinTail(p + q);
      hide Join;
      assert p[0] + "/" + (Join(p[1..], "/") + "/" + Join(q, "/")) ==
        p[0] + "/" + Join(p[1..], "/") + "/" + Join(q, "/");
    }
  }

  lemma JoinTail(p: seq<string>)
    requires |p| > 1
    ensures Join(p, "/") == p[0] + "/" + Join(p[1..], "/")
  {}

  /** The cleaned name leaves the root exactly if it has no segments or starts with an up. */
  lemma LeavesRootExactly(out: seq<string>, ups: nat)
    requires IsNormal(out, ups) && out != []
    ensures LeavesRoot(Join(out, "/")) <==> ups > 0
  {
    forall i | 0 <= i < |out|
      ensures '/' !in out[i]
    {
      if i < ups {
        assert out[i] == "..";
      }
    }
    SplitJoin(out, '/');
    var s := Join(out, "/");
    if ups > 0 {
      UpIsFirst(out);
    } else {
      hide Split, Join;
      if s == "." || s == ".." {
        SplitWhole(s, '/');
      }
      if HasPrefix(s, "../") {
        assert s == ".." + "/" + s[3..];
        SlashSplit("..", s[3..]);
        SplitWhole("..", '/');
      }
    }
  }

  lemma UpIsFirst(out: seq<string>)
    requires out != [] && out[0] == ".."
    ensures Join(out, "/") == ".." || HasPrefix(Join(out, "/"), "../")
  {
    if |out| > 1 {
      JoinTail(out);
      assert ".." + "/" == "../";
      hide Join;
    }
  }

  /** The segments of a relative name, cleaned. */
  function Segments(name: string): seq<string> {
    CleanSegments(false, Split(name, '/'))
  }

  predicate IsRelative(name: string) {
    !IsMalformed(name) && !IsAbsolute(name)
  }

  /** The second check of resolve, on any relative name. */
  lemma EscapesExactly(name: string, ups: nat)
    requires IsRelative(name) && IsNormal(Segments(name), ups)
    ensures LeavesRoot(Clean(name)) <==> Segments(name) == [] || ups > 0
    ensures !LeavesRoot(Clean(name)) ==> Clean(name) == Join(Segments(name), "/")
  {
    hide CleanSegments, Split, Join, IsNormal, LeavesRoot;
    if Segments(name) != [] {
      LeavesRootExactly(Segments(name), ups);
    } else {
      assert LeavesRoot(".") by {
        DotLeaves();
      }
    }
  }

  lemma DotLeaves()
    ensures LeavesRoot(".")
  {}

  // ----- roots ----------------------------------------------------------------------------------------------

  /** A clean absolute directory: `/`, or proper segments after it. */
  function Root(dirs: seq<string>): string {
    "/" + Join(dirs, "/")
  }

  lemma {:induction false} CleanProper(rooted: bool, segs: seq<string>, more: seq<string>)
    requires AllProper(more)
    ensures CleanSegments(rooted, segs + more) == CleanSegments(rooted, segs) + more
  {
    if more == [] {
      assert segs + more == segs;
    } else {
      var before := more[..|more| - 1];
      CleanProper(rooted, segs, before);
      assert (segs + more)[..|segs + more| - 1] == segs + before;
      assert more == before + [more[|more| - 1]];
    }
  }

  lemma RootSegments(dirs: seq<string>)
    requires AllProper(dirs)
    ensures CleanSegments(true, Split(Root(dirs), '/')) == dirs
  {
    assert Root(dirs) == "" + "/" + Join(dirs, "/");
    SlashSplit("", Join(dirs, "/"));
    SplitWhole("", '/');
    assert CleanSegments(true, []) == [] && CleanSegments(true, [""]) == [];
    if dirs == [] {
      assert CleanSegments(true, ["", ""]) == [] by {
        assert ["", ""][..1] == [""];
      }
    } else {
      SplitJoin(dirs, '/');
      CleanProper(true, [""], dirs);
      assert [] + dirs == dirs;
    }
    hide Split, Join, CleanSegments;
  }

  /** Joining a clean root and a clean name: the segments of the one, then those of the other. */
  lemma JoinedPath(dirs: seq<string>, segs: seq<string>)
    requires AllProper(dirs) && AllProper(segs) && segs != []
    ensures JoinPaths(Root(dirs), Join(segs, "/")) == Root(dirs + segs)
  {
    var x, y := Root(dirs), Join(segs, "/");
    SlashSplit(x, y);
    SplitJoin(segs, '/');
    RootSegments(dirs);
    CleanProper(true, Split(x, '/'), segs);
    hide Split, Join, CleanSegments;
    assert (x + "/" + y)[0] == '/';
  }

  /** The last check fires exactly for the root `/`. */
  lemma OutsideExactly(dirs: seq<string>, segs: seq<string>)
    requires AllProper(dirs) && AllProper(segs) && segs != []
    ensures IsOutside(Root(dirs), Root(dirs + segs)) <==> dirs == []
    ensures dirs != [] ==> Root(dirs + segs) == Root(dirs) + "/" + Join(segs, "/")
  {
    if dirs == [] {
      assert dirs + segs == segs;
      NotEmptyJoin(segs);
      assert Root(segs)[1] != '/';
    } else {
      JoinConcat(dirs, segs);
      hide Join;
      assert "/" + (Join(dirs, "/") + "/" + Join(segs, "/")) == Root(dirs) + "/" + Join(segs, "/");
    }
  }

  lemma NotEmptyJoin(segs: seq<string>)
    requires AllProper(segs) && segs != []
    ensures Join(segs, "/") != "" && Join(segs, "/")[0] != '/'
  {
    assert Proper(segs[0]) && segs[0][0] in segs[0];
    if |segs| > 1 {
      JoinTail(segs);
      hide Join;
    }
  }

  // ----- what resolve promises ---------------------------------------------------------------------------

  function Accepted(dirs: seq<string>, segs: seq<string>): Resolved {
    if dirs == [] then OutsideRoot else Resolved(Root(dirs) + "/" + Join(segs, "/"), Join(segs, "/"))
  }

  lemma ResolveCases(dirs: seq<string>, name: string) returns (ups: nat)
    requires AllProper(dirs) && IsRelative(name)
    ensures IsNormal(Segments(name), ups)
    ensures ups > 0 || Segments(name) == [] ==> Resolve(Root(dirs), name) == Escapes
    ensures ups == 0 && Segments(name) != [] ==>
      AllProper(Segments(name)) && Resolve(Root(dirs), name) == Accepted(dirs, Segments(name))
  {
    hide Split, Join, CleanSegments, LeavesRoot, IsOutside, Root, Clean;
    ups := CleanNormal(Split(name, '/'));
    EscapesExactly(name, ups);
    if ups == 0 && Segments(name) != [] {
      JoinedPath(dirs, Segments(name));
      OutsideExactly(dirs, Segments(name));
    }
  }

  /** Every accepted name yields a path strictly under the root, whose segments below it are proper. */
  lemma AcceptedIsConfined(dirs: seq<string>, name: string)
    requires AllProper(dirs) && Resolve(Root(dirs), name).Resolved?
    ensures var r := Resolve(Root(dirs), name);
      && r.full == Root(dirs) + "/" + r.cleaned
      && AllProper(Split(r.cleaned, '/'))
      && r.full == Root(Walk(dirs, Split(name, '/'))) && IsBelow(Walk(dirs, Split(name, '/')), dirs)
  {
    hide Split, Join, CleanSegments, Resolve, Root;
    assert IsRelative(name) by {
      AcceptedIsRelative(Root(dirs), name);
    }
    var ups := ResolveCases(dirs, name);
    var segs := Segments(name);
    assert ups == 0 && segs != [];
    SplitJoin(segs, '/');
    CleanKeepsWalk(dirs, Split(name, '/'));
    ProperWalk(dirs, segs);
    OutsideExactly(dirs, segs);
  }

  lemma AcceptedIsRelative(root: string, name: string)
    requires Resolve(root, name).Resolved?
    ensures IsRelative(name)
  {
    hide Clean, LeavesRoot, JoinPaths, IsOutside;
  }

  /** The name's lexical walk ends strictly below any directory it may start from. */
  ghost predicate StaysBelow(name: string) {
    forall dirs :: AllProper(dirs) ==> IsBelow(Walk(dirs, Split(name, '/')), dirs)
  }

  lemma StaysBelowExactly(name: string, ups: nat)
    requires IsNormal(Segments(name), ups)
    ensures StaysBelow(name) <==> ups == 0 && Segments(name) != []
  {
    var segs := Segments(name);
    var parts := Split(name, '/');
    hide Split, CleanSegments, Move;
    if ups == 0 && segs != [] {
      forall dirs | AllProper(dirs)
        ensures IsBelow(Walk(dirs, parts), dirs)
      {
        CleanKeepsWalk(dirs, parts);
        ProperWalk(dirs, segs);
      }
    } else {
      var dir := if ups < |segs| && segs[ups] == "a" then "b" else "a";
      CleanKeepsWalk([dir], parts);
      assert AllProper([dir]);
      if ups > 0 {
        UpsWalk(dir, segs, ups);
      } else {
        assert Walk([dir], []) == [dir];
      }
      assert !IsBelow(Walk([dir], parts), [dir]);
    }
  }

  /** For a clean absolute root other than `/`, resolve accepts exactly the well-formed relative names whose
      lexical walk ends strictly below whatever root it starts from. */
  lemma AcceptsExactly(dirs: seq<string>, name: string)
    requires AllProper(dirs) && dirs != []
    ensures Resolve(Root(dirs), name).Resolved? <==>
      name != "" && name[0] != '/' && '\0' !in name && '\\' !in name && StaysBelow(name)
  {
    assert IsRelative(name) <==> name != "" && name[0] != '/' && '\0' !in name && '\\' !in name;
    hide IsRelative;
    hide Resolve, StaysBelow, IsNormal, Segments, Root, AllProper;
    if IsRelative(name) {
      var ups := ResolveCases(dirs, name);
      StaysBelowExactly(name, ups);
    }
    if Resolve(Root(dirs), name).Resolved? {
      AcceptedIsRelative(Root(dirs), name);
    }
  }

  /** Which error a rejected name gets, below a root other than `/`. */
  lemma ErrorsExactly(dirs: seq<string>, name: string)
    requires AllProper(dirs) && dirs != []
    ensures var r, bad := Resolve(Root(dirs), name), name == "" || '\0' in name || '\\' in name;
      && (r == Malformed <==> bad)
      && (r == Absolute <==> !bad && name[0] == '/')
      && (r == Escapes <==> !bad && name[0] != '/' && !StaysBelow(name))
  {
    AcceptsExactly(dirs, name);
    ResolveOutcome(dirs, name);
    hide StaysBelow, Clean, LeavesRoot, JoinPaths, IsOutside, Root, AllProper;
  }

  /** The last check of resolve never decides, for a clean absolute root, unless the root is `/`; there it
      rejects every name that gets so far. */
  lemma LastCheckNeverFiresExactly(dirs: seq<string>)
    requires AllProper(dirs)
    ensures (forall name :: Resolve(Root(dirs), name) != OutsideRoot) <==> dirs != []
    ensures dirs == [] ==> forall name :: !Resolve(Root(dirs), name).Resolved?
  {
    hide Resolve, Root, Segments, IsNormal;
    forall name
      ensures dirs != [] ==> Resolve(Root(dirs), name) != OutsideRoot
      ensures dirs == [] ==> !Resolve(Root(dirs), name).Resolved?
    {
      ResolveOutcome(dirs, name);
    }
    if dirs == [] {
      var ups := ResolveCases(dirs, "x");
      NameX(ups);
      assert Resolve(Root(dirs), "x") == OutsideRoot;
    }
  }

  lemma NameX(ups: nat)
    requires IsNormal(Segments("x"), ups)
    ensures Segments("x") != [] && ups == 0
  {
    SplitWhole("x", '/');
    assert CleanSegments(false, []) == [];
    assert Segments("x") == ["x"];
  }

  lemma ResolveOutcome(dirs: seq<string>, name: string)
    requires AllProper(dirs)
    ensures dirs != [] ==> Resolve(Root(dirs), name) != OutsideRoot
    ensures dirs == [] ==> !Resolve(Root(dirs), name).Resolved?
  {
    hide Root, Segments, IsNormal, Clean, LeavesRoot, JoinPaths, IsOutside;
    if IsRelative(name) {
      var ups := ResolveCases(dirs, name);
    }
  }

  /** Below this one root is not enough: this name leads below /root from /root, and is rejected. */
  lemma RejectedThoughBelow()
    ensures IsBelow(Walk(["root"], Split("../root/x", '/')), ["root"])
    ensures Resolve(Root(["root"]), "../root/x") == Escapes
  {
    hide Split, CleanSegments, Walk, Resolve;
    var segs := ["..", "root", "x"];
    UpSplit();
    UpClean(segs);
    UpWalk(segs);
    assert IsNormal(segs, 1);
    var ups := ResolveCases(["root"], "../root/x");
    assert IsNormal(segs, ups);
  }

  lemma UpParts()
    ensures "../root/x" == ".." + "/" + "root/x" && "root/x" == "root" + "/" + "x"
    ensures '/' !in ".." && '/' !in "root" && '/' !in "x"
  {}

  lemma UpSplit()
    ensures Split("../root/x", '/') == ["..", "root", "x"]
  {
    UpParts();
    hide Split;
    SplitThree("..", "root", "x", "root/x", "../root/x");
  }

  lemma SplitThree(x: string, y: string, z: string, tail: string, whole: string)
    requires '/' !in x && '/' !in y && '/' !in z
    requires tail == y + "/" + z && whole == x + "/" + tail
    ensures Split(whole, '/') == [x, y, z]
  {
    hide Split;
    SlashSplit(x, tail);
    SlashSplit(y, z);
    SplitWhole(x, '/');
    SplitWhole(y, '/');
    SplitWhole(z, '/');
  }

  lemma UpClean(segs: seq<string>)
    requires segs == ["..", "root", "x"]
    ensures CleanSegments(false, segs) == segs
  {
    assert segs[..2] == [".."] + ["root"] && segs[..2][..1] == [".."] && segs[..2][..1][..0] == [];
    assert CleanSegments(false, segs[..2][..1]) == [".."];
    assert CleanSegments(false, segs[..2]) == ["..", "root"];
  }

  lemma UpWalk(segs: seq<string>)
    requires segs == ["..", "root", "x"]
    ensures Walk(["root"], segs) == ["root", "x"]
  {
    assert segs[..2] == [".."] + ["root"] && segs[..2][..1] == [".."] && segs[..2][..1][..0] == [];
    assert Walk(["root"], segs[..2][..1]) == [];
    assert Walk(["root"], segs[..2]) == ["root"];
  }
}
