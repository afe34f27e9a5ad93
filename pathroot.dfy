/**
 * A path that refuses to be derived outside its safe root.
 *
 * `PathRoot` objects carry a path value and a mutable `safe_root`. Every derivation
 * (`with_segments`, and through it `joinpath` and `/`) builds a new object of the receiver's
 * own variant and passes it through a gate that resolves it and compares the result with the
 * receiver's `safe_root`. Resolution is a parameter `resolve`; the host's OS name is a
 * parameter `osName`.
 */
module PathRootModel {

  import opened Wrappers
  import opened PurePaths

  /** The two concrete variants: `PosixPathRoot` and `WindowsPathRoot`. */
  datatype Flavour = Posix | Windows

  /** The class a caller instantiates: the `PathRoot` base, or one concrete variant. */
  datatype PathClass = Base | Concrete(flavour: Flavour)

  /**
   * `PathRoot.__new__`: instantiating the base picks the Windows variant when the OS name
   * is `"nt"` and the POSIX variant otherwise; a concrete variant is kept as requested.
   */
  function NewFlavour(cls: PathClass, osName: string): (f: Flavour)
    ensures cls == Base ==> (f == Windows <==> osName == "nt")
    ensures cls.Concrete? ==> f == cls.flavour
  {
    match cls
    case Base => if osName == "nt" then Windows else Posix
    case Concrete(f) => f
  }

  /** An argument or candidate: a plain `Path` (or string, once parsed) or a `PathRoot` object. */
  datatype PathLike = Plain(path: ParsedPath) | Rooted(obj: PathRoot)

  /** The path value a `PathLike` stands for. */
  function ValueOf(x: PathLike): ParsedPath
  {
    match x
    case Plain(p) => p
    case Rooted(o) => o.path
  }

  function Values(args: seq<PathLike>): (ps: seq<Path>)
    ensures |ps| == |args|
    ensures forall i :: 0 <= i < |args| ==> ps[i] == ValueOf(args[i])
  {
    if args == [] then [] else [ValueOf(args[0])] + Values(args[1..])
  }

  /** The `PathRoot` objects among `args`. */
  function Objects(args: seq<PathLike>): set<PathRoot>
  {
    set i | 0 <= i < |args| && args[i].Rooted? :: args[i].obj
  }

  /**
   * Index of the first `PathRoot` argument, if any: the one the `for ... break` in
   * `__init__` stops at.
   */
  function FirstRooted(args: seq<PathLike>): (k: Option<nat>)
    ensures k.Some? ==> k.value < |args| && args[k.value].Rooted?
                        && forall j :: 0 <= j < k.value ==> args[j].Plain?
    ensures k.None? ==> forall j :: 0 <= j < |args| ==> args[j].Plain?
  {
    if args == [] then None
    else if args[0].Rooted? then Some(0)
    else match FirstRooted(args[1..])
      case None => None
      case Some(k) => Some(k + 1)
  }

  /** Arguments after the first `PathRoot` one play no part in choosing the root. */
  lemma {:induction false} FirstRootedIgnoresLater(args: seq<PathLike>, more: seq<PathLike>)
    requires FirstRooted(args).Some?
    ensures FirstRooted(args + more) == FirstRooted(args)
  {
    var k := FirstRooted(args).value;
    var all := args + more;
    assert all[k] == args[k];
    assert forall j :: 0 <= j < k ==> all[j] == args[j];
  }

  /**
   * The root `__init__` settles on: an explicit `safe_root` wins; otherwise the first
   * `PathRoot` argument's `safe_root` (copied even when that one is unset); otherwise the
   * new path itself, unresolved.
   */
  function ChosenRoot(explicit: Option<ParsedPath>, args: seq<PathLike>, self: ParsedPath): (r: Option<ParsedPath>)
    reads Objects(args)
    ensures explicit.Some? ==> r == explicit
    ensures explicit.None? && (forall j :: 0 <= j < |args| ==> args[j].Plain?) ==> r == Some(self)
    ensures forall k ::
              (explicit.None? && 0 <= k < |args| && args[k].Rooted? && forall j :: 0 <= j < k ==> args[j].Plain?)
              ==> r == args[k].obj.safeRoot
  {
    if explicit.Some? then explicit
    else match FirstRooted(args)
      case Some(k) => args[k].obj.safeRoot
      case None => Some(self)
  }

  /** What the gate does with a candidate that passed the containment test. */
  datatype GateAction =
    | FillRoot   // a `PathRoot` with no `safe_root`: it gets the receiver's
    | Promote    // a plain `Path`: wrapped as a `PathRoot` with the receiver's root
    | Keep       // a `PathRoot` with a `safe_root` already: returned untouched

  function ActionFor(candidate: PathLike): (a: GateAction)
    reads if candidate.Rooted? then {candidate.obj} else {}
    ensures a == FillRoot <==> candidate.Rooted? && candidate.obj.safeRoot.None?
    ensures a == Keep <==> candidate.Rooted? && candidate.obj.safeRoot.Some?
    ensures a == Promote <==> candidate.Plain?
  {
    match candidate
    case Rooted(o) => if o.safeRoot.None? then FillRoot else Keep
    case Plain(_) => Promote
  }

  /** The three ways a derivation ends. */
  datatype Outcome =
    | Returned(value: PathLike)
    | Raised(error: PathOutsideRootError)
    | TypeErrorRaised   // `is_relative_to(None)`: the receiver has no `safe_root`

  /** `PathOutsideRootError`: remembers the rejected path (unresolved) and the receiver. */
  class PathOutsideRootError {
    const path: PathLike
    const root: PathRoot

    constructor (path: PathLike, root: PathRoot)
      ensures this.path == path && this.root == root
    {
      this.path := path;
      this.root := root;
    }
  }

  class PathRoot {
    const flavour: Flavour
    const path: ParsedPath
    var safeRoot: Option<ParsedPath>

    /**
     * `cls(*args, safe_root=explicit)`: `__new__` picks the variant, then `__init__` joins the
     * arguments and chooses the root.
     */
    constructor (cls: PathClass, osName: string, args: seq<PathLike>, explicit: Option<ParsedPath>)
      ensures flavour == NewFlavour(cls, osName)
      ensures path == JoinAll(Values(args))
      ensures safeRoot == ChosenRoot(explicit, args, path)
    {
      var self := JoinAll(Values(args));
      var root := explicit;
      if root.None? {
        var i := 0;
        while i < |args|
          invariant 0 <= i <= |args|
          invariant forall j :: 0 <= j < i ==> args[j].Plain?
        {
          if args[i].Rooted? {
            root := args[i].obj.safeRoot;
            break;
          }
          i := i + 1;
        }
        if i == |args| {
          root := Some(self);
        }
      }
      flavour := NewFlavour(cls, osName);
      path := self;
      safeRoot := root;
    }

    /**
     * `__check_path`: resolve the candidate and require it to lie under the receiver's
     * `safe_root`; on success fill, promote or keep the candidate's own root.
     */
    method CheckPath(resolve: Path -> Path, osName: string, candidate: PathLike) returns (res: Outcome)
      modifies if candidate.Rooted? then {candidate.obj} else {}
      ensures safeRoot == old(safeRoot)
      ensures res.TypeErrorRaised? <==> safeRoot.None?
      ensures res.Raised? <==> safeRoot.Some? && !IsRelativeTo(resolve(ValueOf(candidate)), safeRoot.value)
      ensures res.Raised? ==> fresh(res.error) && res.error.path == candidate && res.error.root == this
      ensures res.Returned? ==> res.value.Rooted? && ValueOf(res.value) == ValueOf(candidate)
      ensures res.Returned? ==> IsRelativeTo(resolve(ValueOf(res.value)), safeRoot.value)
      ensures res.Returned? && old(ActionFor(candidate)) == FillRoot ==>
                res.value == candidate && candidate.obj.safeRoot == safeRoot
      ensures res.Returned? && old(ActionFor(candidate)) == Keep ==>
                res.value == candidate && unchanged(candidate.obj)
      ensures res.Returned? && old(ActionFor(candidate)) == Promote ==>
                fresh(res.value.obj) && res.value.obj.flavour == NewFlavour(Base, osName)
                && res.value.obj.safeRoot == safeRoot
      ensures !res.Returned? && candidate.Rooted? ==> unchanged(candidate.obj)
    {
      if safeRoot.None? {
        return TypeErrorRaised;
      }
      var resolved := resolve(ValueOf(candidate));
      if !IsRelativeTo(resolved, safeRoot.value) {
        var e := new PathOutsideRootError(candidate, this);
        return Raised(e);
      }
      match candidate
      case Rooted(o) =>
        if o.safeRoot.None? {
          o.safeRoot := safeRoot;
        }
        res := Returned(candidate);
      case Plain(p) =>
        var promoted := new PathRoot(Base, osName, [Plain(p)], safeRoot);
        assert Values([Plain(p)]) == [p];
        JoinAllOnto(p, []);
        assert p.segments + [] == p.segments;
        res := Returned(Rooted(promoted));
    }

    /**
     * `with_segments(*args)`: a new object of the receiver's own variant built from `args`
     * (so `__init__` picks its root), then the gate against the receiver's `safe_root`.
     */
    method WithSegments(resolve: Path -> Path, osName: string, args: seq<PathLike>) returns (res: Outcome)
      ensures res.TypeErrorRaised? <==> safeRoot.None?
      ensures res.Raised? <==> safeRoot.Some? && !IsRelativeTo(resolve(JoinAll(Values(args))), safeRoot.value)
      ensures res.Returned? <==> safeRoot.Some? && IsRelativeTo(resolve(JoinAll(Values(args))), safeRoot.value)
      ensures res.Raised? ==> res.error.root == this && res.error.path.Rooted?
                              && res.error.path.obj.path == JoinAll(Values(args))
      ensures res.Returned? ==> res.value.Rooted? && res.value.obj.flavour == flavour
                                && res.value.obj.path == JoinAll(Values(args))
      ensures res.Returned? ==>
                res.value.obj.safeRoot == match ChosenRoot(None, args, JoinAll(Values(args)))
                                          case None => safeRoot
                                          case Some(b) => Some(b)
    {
      var candidate := new PathRoot(Concrete(flavour), osName, args, None);
      ghost var chosen := ChosenRoot(None, args, candidate.path);
      assert candidate !in Objects(args);
      res := CheckPath(resolve, osName, Rooted(candidate));
      assert ChosenRoot(None, args, candidate.path) == chosen;
    }

    /** `joinpath(*segments)`, which pathlib defines as `with_segments(self, *segments)`. */
    method JoinPath(resolve: Path -> Path, osName: string, segments: seq<PathLike>) returns (res: Outcome)
      ensures res.Raised? <==> safeRoot.Some? && !IsRelativeTo(resolve(JoinAll([path] + Values(segments))), safeRoot.value)
      ensures res.Returned? <==> safeRoot.Some? && IsRelativeTo(resolve(JoinAll([path] + Values(segments))), safeRoot.value)
      ensures res.Raised? ==> res.error.root == this
      ensures res.Returned? ==> res.value.Rooted? && res.value.obj.flavour == flavour
                                && res.value.obj.path == JoinAll([path] + Values(segments))
                                && res.value.obj.safeRoot == safeRoot
    {
      var args := [Rooted(this)] + segments;
      assert Values(args) == [path] + Values(segments);
      assert FirstRooted(args) == Some(0);
      res := WithSegments(resolve, osName, args);
    }

    /** `self / key`, which pathlib defines as `with_segments(self, key)`. */
    method Div(resolve: Path -> Path, osName: string, key: PathLike) returns (res: Outcome)
      ensures res.Raised? <==> safeRoot.Some? && !IsRelativeTo(resolve(Join(path, ValueOf(key))), safeRoot.value)
      ensures res.Returned? <==> safeRoot.Some? && IsRelativeTo(resolve(Join(path, ValueOf(key))), safeRoot.value)
      ensures res.Raised? ==> res.error.root == this
      ensures res.Returned? ==> res.value.Rooted? && res.value.obj.flavour == flavour
                                && res.value.obj.path == Join(path, ValueOf(key))
                                && res.value.obj.safeRoot == safeRoot
    {
      var args := [Rooted(this), key];
      assert Values(args) == [path, ValueOf(key)];
      assert FirstRooted(args) == Some(0);
      assert JoinAll([path, ValueOf(key)]) == Join(path, ValueOf(key)) by {
        var q := ValueOf(key);
        assert [path, q][1..] == [q];
        assert Join(Path(false, []), path) == path by {
          assert [] + path.segments == path.segments;
        }
        assert JoinFrom(path, [q]) == JoinFrom(Join(path, q), []);
      }
      res := WithSegments(resolve, osName, args);
    }
  }
}
