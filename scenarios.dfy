/**
 * The behaviours exercised by the repository's tests, proved for every root directory
 * and working directory, with the lexical resolver standing in for `Path.resolve()`.
 * The root directory is clean and anchored, as a temporary test directory is.
 */
module PathRootScenarios {

  import opened Wrappers
  import opened PurePaths
  import opened PathRootModel

  /** A temporary test directory: parsed (no segment holds `/`) and free of `.` and `..`. */
  predicate RootDir(rootDir: seq<string>)
  {
    Parsed(Path(true, rootDir)) && Clean(rootDir)
  }

  /** The fixture: `PathRoot(root_folder)` for an anchored, clean `rootDir`. */
  method NewRoot(osName: string, rootDir: seq<string>) returns (r: PathRoot)
    requires RootDir(rootDir)
    ensures fresh(r)
    ensures r.path == Path(true, rootDir) && r.safeRoot == Some(Path(true, rootDir))
  {
    r := new PathRoot(Base, osName, [Plain(Path(true, rootDir))], None);
    JoinAllOnto(Path(true, rootDir), []);
    assert rootDir + [] == rootDir;
  }

  /** Each name as a separate string argument, as in `joinpath("..", "..", "etc")`. */
  function Args(names: seq<string>): (args: seq<PathLike>)
    requires Parsed(Path(false, names))
    ensures |args| == |names|
    ensures forall i :: 0 <= i < |names| ==> args[i] == Plain(Path(false, [names[i]]))
  {
    if names == [] then [] else [Plain(Path(false, [names[0]]))] + Args(names[1..])
  }

  /** Joining separate name arguments onto `base` appends the names. */
  lemma {:induction false} JoinArgs(base: ParsedPath, names: seq<string>)
    requires Parsed(Path(false, names))
    ensures JoinAll([base] + Values(Args(names))) == Path(base.absolute, base.segments + names)
    ensures JoinAll(Values([Plain(base)] + Args(names))) == Path(base.absolute, base.segments + names)
  {
    FlattenArgs(names);
    JoinAllOnto(base, Values(Args(names)));
    assert Values([Plain(base)] + Args(names)) == [base] + Values(Args(names)) by {
      assert ([Plain(base)] + Args(names))[1..] == Args(names);
    }
  }

  lemma {:induction false} FlattenArgs(names: seq<string>)
    requires Parsed(Path(false, names))
    ensures forall i :: 0 <= i < |names| ==> !Values(Args(names))[i].absolute
    ensures Flatten(Values(Args(names))) == names
  {
    if names != [] {
      FlattenArgs(names[1..]);
      var vs := Values(Args(names));
      assert vs[1..] == Values(Args(names[1..]));
      assert vs[0].segments == [names[0]];
      assert [names[0]] + names[1..] == names;
    }
  }

  /** Joining one relative path argument onto `base`. */
  lemma JoinOne(base: Path, t: ParsedPath)
    requires !t.absolute
    ensures JoinAll([base] + Values([Plain(t)])) == Path(base.absolute, base.segments + t.segments)
  {
    assert Values([Plain(t)]) == [t];
    JoinAllOnto(base, [t]);
    assert Flatten([t]) == t.segments + [];
    assert t.segments + [] == t.segments;
  }

  /** Instantiating `PathRoot` with the OS name `"nt"` yields a `WindowsPathRoot`. */
  method NewOnWindows(rootDir: ParsedPath) returns (f: Flavour)
    ensures f == Windows
  {
    var r := new PathRoot(Base, "nt", [Plain(rootDir)], None);
    f := r.flavour;
  }

  /** Instantiating `PathRoot` with a POSIX OS name (`"darwin"`) yields a `PosixPathRoot`. */
  method NewOnPosix(rootDir: ParsedPath) returns (f: Flavour)
    ensures f == Posix
  {
    var r := new PathRoot(Base, "darwin", [Plain(rootDir)], None);
    f := r.flavour;
  }

  /** `r.joinpath("foo/bar.txt")` succeeds, resolves below the root and shares `r`'s root. */
  method JoinpathWorks(cwd: seq<string>, osName: string, rootDir: seq<string>)
    returns (isRooted: bool, sameRoot: bool, location: Path)
    requires RootDir(rootDir)
    ensures isRooted && sameRoot
    ensures location == Path(true, rootDir + ["foo", "bar.txt"])
  {
    var resolve := p => LexicalResolve(cwd, p);
    var r := NewRoot(osName, rootDir);
    var t := Path(false, ["foo", "bar.txt"]);
    JoinOne(r.path, t);
    JoinCleanStaysInside(cwd, r.path, t.segments);
    ResolveClean(cwd, r.path);
    var res := r.JoinPath(resolve, osName, [Plain(t)]);
    isRooted := res.Returned? && res.value.Rooted?;
    sameRoot := isRooted && res.value.obj.safeRoot == r.safeRoot;
    location := resolve(res.value.obj.path);
  }

  /** `r.joinpath("..", "..", "etc")` raises `PathOutsideRootError` naming `r`. */
  method JoinpathErrors(cwd: seq<string>, osName: string, rootDir: seq<string>) returns (raised: bool)
    requires RootDir(rootDir) && |rootDir| >= 2
    ensures raised
  {
    var resolve := p => LexicalResolve(cwd, p);
    var r := NewRoot(osName, rootDir);
    var names := ["..", "..", "etc"];
    JoinArgs(r.path, names);
    assert rootDir + names == rootDir + Parents(2) + ["etc"];
    NormalizeClimb(rootDir, 2, ["etc"]);
    ClimbInsideIff(rootDir, 2, ["etc"]);
    assert !(rootDir[|rootDir| - 2..] <= ["etc"]) by {
      assert |rootDir[|rootDir| - 2..]| == 2;
    }
    var res := r.JoinPath(resolve, osName, Args(names));
    raised := res.Raised? && res.error.root == r;
  }

  /** `r / "foo" / "bar.txt"` succeeds at both steps and keeps `r`'s root. */
  method DivideWorks(cwd: seq<string>, osName: string, rootDir: seq<string>)
    returns (isRooted: bool, sameRoot: bool)
    requires RootDir(rootDir)
    ensures isRooted && sameRoot
  {
    var resolve := p => LexicalResolve(cwd, p);
    var r := NewRoot(osName, rootDir);
    ResolveClean(cwd, r.path);
    JoinCleanStaysInside(cwd, r.path, ["foo"]);
    var first := r.Div(resolve, osName, Plain(Path(false, ["foo"])));
    var p1 := first.value.obj;
    JoinCleanStaysInside(cwd, r.path, ["foo", "bar.txt"]);
    assert Join(p1.path, Path(false, ["bar.txt"])) == Join(r.path, Path(false, ["foo", "bar.txt"]));
    var second := p1.Div(resolve, osName, Plain(Path(false, ["bar.txt"])));
    isRooted := second.Returned? && second.value.Rooted?;
    sameRoot := isRooted && second.value.obj.safeRoot == r.safeRoot;
  }

  /** In `r / ".." / ".." / "etc"` the first `/` already raises. */
  method DivideErrors(cwd: seq<string>, osName: string, rootDir: seq<string>) returns (raisedAtFirstStep: bool)
    requires RootDir(rootDir) && |rootDir| >= 1
    ensures raisedAtFirstStep
  {
    var resolve := p => LexicalResolve(cwd, p);
    var r := NewRoot(osName, rootDir);
    assert rootDir + [".."] == rootDir + Parents(1) + [];
    NormalizeClimb(rootDir, 1, []);
    ClimbInsideIff(rootDir, 1, []);
    var first := r.Div(resolve, osName, Plain(Path(false, [".."])));
    raisedAtFirstStep := first.Raised?;
  }

  /**
   * `r.with_segments(root_folder, "foo/bar.txt")` with a plain `root_folder` succeeds, but since
   * no argument is a `PathRoot` the result is rooted at itself, not at `r`'s root.
   */
  method WithSegmentsWorks(cwd: seq<string>, osName: string, rootDir: seq<string>)
    returns (isRooted: bool, ownRoot: Option<ParsedPath>, sameRoot: bool)
    requires RootDir(rootDir)
    ensures isRooted && !sameRoot
    ensures ownRoot == Some(Path(true, rootDir + ["foo", "bar.txt"]))
  {
    var resolve := p => LexicalResolve(cwd, p);
    var r := NewRoot(osName, rootDir);
    var t := Path(false, ["foo", "bar.txt"]);
    var args := [Plain(r.path), Plain(t)];
    JoinOne(r.path, t);
    assert Values(args) == [r.path] + Values([Plain(t)]);
    JoinCleanStaysInside(cwd, r.path, t.segments);
    ResolveClean(cwd, r.path);
    assert FirstRooted(args) == None;
    var res := r.WithSegments(resolve, osName, args);
    isRooted := res.Returned? && res.value.Rooted?;
    ownRoot := if isRooted then res.value.obj.safeRoot else None;
    sameRoot := isRooted && res.value.obj.safeRoot == r.safeRoot;
    assert |rootDir + ["foo", "bar.txt"]| != |rootDir|;
  }

  /** `r.with_segments(root_folder, "..", "..", "etc")` raises `PathOutsideRootError`. */
  method WithSegmentsErrors(cwd: seq<string>, osName: string, rootDir: seq<string>) returns (raised: bool)
    requires RootDir(rootDir) && |rootDir| >= 2
    ensures raised
  {
    var resolve := p => LexicalResolve(cwd, p);
    var r := NewRoot(osName, rootDir);
    var names := ["..", "..", "etc"];
    JoinArgs(r.path, names);
    assert rootDir + names == rootDir + Parents(2) + ["etc"];
    NormalizeClimb(rootDir, 2, ["etc"]);
    ClimbInsideIff(rootDir, 2, ["etc"]);
    assert !(rootDir[|rootDir| - 2..] <= ["etc"]) by {
      assert |rootDir[|rootDir| - 2..]| == 2;
    }
    var res := r.WithSegments(resolve, osName, [Plain(r.path)] + Args(names));
    raised := res.Raised? && res.error.root == r;
  }

  /** `r.joinpath(".")`, where `"."` parses to no segments, succeeds and resolves to where `r` does. */
  method JoinDotStaysPut(cwd: seq<string>, osName: string, rootDir: seq<string>) returns (same: bool)
    requires RootDir(rootDir)
    ensures same
  {
    var resolve := p => LexicalResolve(cwd, p);
    var r := NewRoot(osName, rootDir);
    var dot := Path(false, []);
    JoinOne(r.path, dot);
    assert rootDir + [] == rootDir;
    ResolveClean(cwd, r.path);
    var res := r.JoinPath(resolve, osName, [Plain(dot)]);
    same := res.Returned? && resolve(res.value.obj.path) == resolve(r.path);
  }

  /**
   * The root is stored unresolved, while candidates are resolved to anchored paths, so a
   * `PathRoot` made from a relative path rejects even `r / "f.txt"`.
   */
  method RelativeRootRejectsChild(cwd: seq<string>, osName: string, rel: ParsedPath) returns (raised: bool)
    requires !rel.absolute
    ensures raised
  {
    var r := new PathRoot(Base, osName, [Plain(rel)], None);
    JoinAllOnto(rel, []);
    assert rel.segments + [] == rel.segments;
    var res := r.Div(p => LexicalResolve(cwd, p), osName, Plain(Path(false, ["f.txt"])));
    raised := res.Raised?;
  }

  /** Climbing one level out of a clean anchored directory leaves it. */
  lemma ClimbOut(cwd: seq<string>, rootDir: seq<string>)
    requires RootDir(rootDir) && |rootDir| >= 1
    ensures LexicalResolve(cwd, Path(true, rootDir + [".."])) == Path(true, rootDir[..|rootDir| - 1])
    ensures !IsRelativeTo(LexicalResolve(cwd, Path(true, rootDir + [".."])), Path(true, rootDir))
  {
    assert rootDir + [".."] == rootDir + Parents(1) + [];
    NormalizeClimb(rootDir, 1, []);
    ClimbInsideIff(rootDir, 1, []);
    assert rootDir[..|rootDir| - 1] + [] == rootDir[..|rootDir| - 1];
  }

  /**
   * Passing a `PathRoot` with a wider root as the first argument of `with_segments` yields a
   * result rooted at that wider root: the result itself passes `r`'s gate, and a further
   * `joinpath("..")` from it is accepted though it resolves outside `r`'s root.
   */
  method WiderRootArgumentEscapes(cwd: seq<string>, osName: string, rootDir: seq<string>)
    returns (firstOk: bool, secondOk: bool, secondInsideR: bool)
    requires RootDir(rootDir) && |rootDir| >= 1
    ensures firstOk && secondOk && !secondInsideR
  {
    var resolve := p => LexicalResolve(cwd, p);
    var r := NewRoot(osName, rootDir);
    var top := Path(true, []);
    var wide := new PathRoot(Base, osName, [Plain(top)], None);
    JoinAllOnto(top, []);
    ResolveClean(cwd, r.path);
    var args := [Rooted(wide), Plain(r.path)];
    assert Values(args) == [top, r.path];
    assert JoinAll([top, r.path]) == r.path by {
      JoinFromAnchored(Path(false, []), [top, r.path], 1);
      assert [top, r.path][2..] == [];
    }
    assert FirstRooted(args) == Some(0);
    var first := r.WithSegments(resolve, osName, args);
    firstOk := first.Returned?;
    var p1 := first.value.obj;
    var up := Path(false, [".."]);
    JoinOne(r.path, up);
    ClimbOut(cwd, rootDir);
    var second := p1.JoinPath(resolve, osName, [Plain(up)]);
    secondOk := second.Returned?;
    secondInsideR := IsRelativeTo(resolve(second.value.obj.path), r.path);
  }
}
