# pathroot, modelled in Dafny

`pathroot` provides `PathRoot`, a `pathlib.Path` that refuses to be derived outside a
*safe root*. Each `PathRoot` object carries a mutable `safe_root`. Every derived path
(`with_segments`, and through it `joinpath` and `/`) is built as a new object of the receiver's
own variant. It then goes through a private gate, which resolves the new path and checks that
the result is relative to the receiver's `safe_root`. If it is not, the gate raises
`PathOutsideRootError`. Instantiating the `PathRoot` base class picks `WindowsPathRoot` when the
OS name is `"nt"` and `PosixPathRoot` otherwise.

The project has four modules:

- `Wrappers` (`wrappers.dfy`): `Option`, for `safe_root: Path | None`.
- `PurePaths` (`paths.dfy`): path values as an anchored flag plus a sequence of segments. A
  `ParsedPath` has the shape pathlib's parser gives: the text is split at every `/`, so no
  segment holds one, and there is no `.` and no empty segment, while `..` is kept. Every path a
  `PathRoot` holds, stores as its root or receives is a `ParsedPath`: its own path, its
  `safeRoot`, an explicit `safe_root` and every argument. The module also holds argument
  joining (`Path(*args)`), the segment-wise containment test `is_relative_to`, and
  `LexicalResolve`, a lexical stand-in for `Path.resolve()`. That function drops `.`, pops on
  `..` and stays at the filesystem root. Symbolic links are not followed.
- `PathRootModel` (`pathroot.dfy`): the class `PathRoot`. Its path and variant are constants
  and `safeRoot` is a mutable field. The constructor runs `__new__` then `__init__`, including
  the `for`/`break`/`else` loop that picks the root. The module also holds the gate `CheckPath`,
  `WithSegments`, `JoinPath`, `Div`, and the class `PathOutsideRootError`. Resolution is a
  parameter `resolve: Path -> Path`. The host's OS name is a parameter `osName`.
- `PathRootScenarios` (`scenarios.dfy`): the behaviours the repository's tests exercise, proved
  with the lexical resolver for every working directory and every anchored root directory with
  no `.`, `..` or empty segment and no `/` inside a segment (`RootDir`). The escape scenarios also need a minimum depth, as their rows
  say: a root at `/` contains `/../../etc`, and a root at `/etc` contains `/etc/../../etc`.
  `RelativeRootRejectsChild` is about a relative root instead.

The main statement is the contract of `PathRoot.WithSegments`. A derivation returns a value
exactly when the receiver has a root and the resolved candidate is relative to it. It raises
`PathOutsideRootError` exactly when the receiver has a root and the resolved candidate is not
relative to it. If the receiver's root has been cleared, `is_relative_to(None)` raises a
`TypeError`.

## Where the code falls short of its stated intent

The module docstring (pathroot.py:1) describes a path "that does not allow traversal outside of
the root", and test_pathroot.py:151 expects a derived path to share the receiver's root. The
model follows the code in each of these cases.

- The root is stored unresolved (`Path(self)`, pathroot.py:46), but candidates are compared in
  resolved form. A `PathRoot` made from a relative path therefore rejects every derivation,
  even `r / "f.txt"` (`PathRootScenarios.RelativeRootRejectsChild`).
- Containment is checked against the receiver's `safe_root` (pathroot.py:52). The candidate's
  own root comes from its first `PathRoot` argument, and nothing requires that root to be
  narrower. So `r.with_segments(wide, ...)`, where `wide` is rooted at `/`, returns a path rooted
  at `/`. A later `joinpath("..")` from that path leaves `r`'s root and is accepted
  (`PathRootScenarios.WiderRootArgumentEscapes`).
- `r.with_segments(root_folder, "foo/bar.txt")` with a plain `root_folder` roots the result at
  itself (pathroot.py:44-46), not at `r`'s root. test_pathroot.py:151 expects the opposite;
  `PathRootScenarios.WithSegmentsWorks` proves what the code does.
- `__init__` copies the first `PathRoot` argument's `safe_root` even when that root is `None`,
  so a new object can start without a root. In that case the gate fills the root in
  (pathroot.py:57-58).
- Promotion of a plain path (pathroot.py:62) instantiates the base class again. The variant is
  picked from the OS name at that moment, not from the receiver's variant.

## Model

| member | source | states |
|---|---|---|
| `PathRootModel.NewFlavour` | pathroot.py:28-31 | instantiating the base class gives the Windows variant exactly when the OS name is `"nt"` and the POSIX variant otherwise; a concrete variant is kept |
| `PathRootModel.FirstRooted` | pathroot.py:39-43 | the index found is a `PathRoot` argument with only plain arguments before it; when none is found, every argument is plain |
| `PathRootModel.ChosenRoot` | pathroot.py:39-47 | with no explicit root, the root is that of a `PathRoot` argument with only plain arguments before it; with no `PathRoot` argument it is the new path itself; an explicit root is kept |
| `PathRootModel.ActionFor` | pathroot.py:55-62 | a `PathRoot` candidate with no root is filled in, one with a root is kept, and a plain path is promoted |
| `PathRootModel.FirstRootedIgnoresLater` | pathroot.py:40-43 | once a `PathRoot` argument occurs, appending further arguments, rooted or not, does not change which one supplies the root |
| `PathRootModel.PathRoot.constructor` | pathroot.py:33-47 | the variant is the one `__new__` picks; the path is the arguments joined; the root is the explicit one if given, else the first `PathRoot` argument's root, else the new path itself, unresolved |
| `PathRootModel.PathOutsideRootError.constructor` | pathroot.py:16-19 | the error keeps the rejected path and the receiver it was checked against |
| `PathRootModel.PathRoot.CheckPath` | pathroot.py:49-64 | raises exactly when the resolved candidate is not relative to the receiver's root, carrying the unresolved candidate and the receiver; otherwise the result is rooted and has the candidate's path; an unset candidate root is set to the receiver's, a plain path is promoted with the receiver's root, and a rooted candidate with a root is returned unchanged; the receiver's root never changes |
| `PathRootModel.PathRoot.WithSegments` | pathroot.py:66-73 | returns exactly when the receiver has a root and the resolved join of the arguments is relative to it, raises `PathOutsideRootError` exactly when it is not, and raises a type error when the receiver has no root; the result has the receiver's variant, the joined path, and the root chosen by `__init__`, or the receiver's root if that choice was unset |
| `PathRootModel.PathRoot.JoinPath` | pathroot.py:40-43 | `joinpath` passes the gate exactly when the resolved join is relative to the receiver's root, and a returned path has the same root as the receiver, because the receiver is the first argument |
| `PathRootModel.PathRoot.Div` | pathroot.py:66-73 | `self / key` passes exactly when the resolved join is relative to the receiver's root; a returned path has the joined path and the receiver's root |
| `PurePaths.JoinFrom` | pathroot.py:35 | the joined path is anchored exactly when the starting path or some argument is anchored |
| `PurePaths.JoinAll` | pathroot.py:35 | `Path(*args)` is anchored exactly when some argument is; with only relative arguments it is their segments in order; parsed arguments give a parsed path |
| `PurePaths.JoinFromAnchored` | pathroot.py:35 | an anchored argument discards everything joined before it |
| `PurePaths.JoinFromParsed` | pathroot.py:35 | joining parsed paths yields a parsed path |
| `PurePaths.JoinAllOnto` | pathroot.py:35 | joining only relative arguments onto a base gives the base's segments followed by theirs |
| `PurePaths.IsRelativeTo` | pathroot.py:52 | `p.is_relative_to(root)` holds exactly when both have the same anchor and `p`'s segments are `root`'s followed by some tail |
| `PurePaths.ParentsOf` | pathroot.py:52 | each of `p.parents` has `p`'s anchor and fewer segments than `p` |
| `PurePaths.RelativeToParents` | pathroot.py:52 | `p.is_relative_to(root)` holds exactly when `root == p` or `root` is one of `p.parents`, pathlib's own definition |
| `PurePaths.RelativeToOrder` | pathroot.py:52 | the root itself counts as inside; containment composes through nested roots and is antisymmetric |
| `PurePaths.SiblingIsOutside` | pathroot.py:52 | a sibling such as `/tmp/root2` is not inside `/tmp/root`, although `/tmp/root` is a character prefix of `/tmp/root2` |
| `PurePaths.ClimbInsideIff` | pathroot.py:52 | after climbing `k` levels above a root and descending along `t`, the path is inside the root exactly when `t` re-enters the `k` segments that were left |
| `PurePaths.Normalize` | pathroot.py:51 | the lexically resolved segments contain no `.`, `..` or empty segment and are no longer than the input |
| `PurePaths.NormalizeAppendClean` | pathroot.py:51 | appending clean segments leaves the normalised prefix in place |
| `PurePaths.NormalizeClean` | pathroot.py:51 | a clean path is its own normal form |
| `PurePaths.NormalizeParents` | pathroot.py:51 | `k` trailing `..` segments remove the last `k` segments of a clean path, stopping at the filesystem root |
| `PurePaths.NormalizeClimb` | pathroot.py:51 | climbing `k` levels out of a clean root and down along clean `t` resolves to the root minus `k` segments, followed by `t` |
| `PurePaths.LexicalResolve` | pathroot.py:51 | a resolved path is anchored and clean |
| `PurePaths.ResolveClean` | pathroot.py:51 | an anchored clean path resolves to itself |
| `PurePaths.JoinCleanStaysInside` | pathroot.py:51-52 | joining clean relative segments resolves to the base's resolved form followed by those segments, and hence inside it |
| `PathRootScenarios.NewRoot` | pathroot.py:44-47 | a fresh root built from one plain path has that path, unresolved, as its own root |
| `PathRootScenarios.NewOnWindows` | test_pathroot.py:75-82 | with the OS name `"nt"` the base class yields a `WindowsPathRoot` |
| `PathRootScenarios.NewOnPosix` | test_pathroot.py:85-92 | with a POSIX OS name the base class yields a `PosixPathRoot` |
| `PathRootScenarios.JoinpathWorks` | test_pathroot.py:95-105 | `r.joinpath("foo/bar.txt")` returns a `PathRoot` with `r`'s root that resolves to the root followed by `foo/bar.txt` |
| `PathRootScenarios.JoinpathErrors` | test_pathroot.py:108-115 | `r.joinpath("..", "..", "etc")` raises `PathOutsideRootError` naming `r`, for any root at least two levels deep (a root at `/` or `/etc` contains the result) |
| `PathRootScenarios.DivideWorks` | test_pathroot.py:118-128 | `r / "foo" / "bar.txt"` succeeds at both steps and keeps `r`'s root |
| `PathRootScenarios.DivideErrors` | test_pathroot.py:131-138 | in `r / ".." / ".." / "etc"` the first `/` already raises, for any root at least one level deep (a root at `/` contains `/..`) |
| `PathRootScenarios.WithSegmentsWorks` | test_pathroot.py:141-151 | `r.with_segments(root_folder, "foo/bar.txt")` returns a `PathRoot`, but one rooted at its own path, not at `r`'s root |
| `PathRootScenarios.WithSegmentsErrors` | test_pathroot.py:154-161 | `r.with_segments(root_folder, "..", "..", "etc")` raises `PathOutsideRootError` naming `r`, for any root at least two levels deep (a root at `/` or `/etc` contains the result) |
| `PathRootScenarios.JoinDotStaysPut` | pathroot.py:49-64 | `r.joinpath(".")`, where `"."` parses to no segments, passes the gate and resolves to where `r` does |
| `PathRootScenarios.RelativeRootRejectsChild` | pathroot.py:44-53 | a `PathRoot` made from any relative path rejects `r / "f.txt"`, because its root is kept unresolved |
| `PathRootScenarios.ClimbOut` | pathroot.py:51-52 | one `..` below a clean anchored root resolves to its parent, which is outside the root |
| `PathRootScenarios.WiderRootArgumentEscapes` | pathroot.py:39-53 | a result whose first argument is rooted at `/` passes `r`'s gate, and a later `joinpath("..")` from it is accepted although it resolves outside `r`'s root, for any root at least one level deep (nothing is outside a root at `/`) |

## Left out

- `Path.resolve()` is host I/O, so it is a parameter. Symbolic links, existence checks and
  resolution errors (for example a symlink loop) are not modelled. The scenarios use the lexical
  resolver.
- pathlib's own behaviour is not modelled: parsing strings into segments, separators, drive and
  anchor syntax, and the case-insensitive comparison of the Windows variant. A string such as
  `"foo/bar.txt"` appears as its parsed segments, a `ParsedPath`: the parser's dropping of `.`
  and empty parts is captured by that type, not computed. Strings and plain `Path` objects behave the
  same in this code, so both are `Plain`.
- `joinpath` and `/` are pathlib methods. They are modelled as pathlib defines them:
  `with_segments(self, *segments)` and `with_segments(self, key)`. The `NotImplemented` fallback
  of `/` on a `TypeError` is not modelled.
- The gate's fall-through for a candidate that is neither a `Path` nor a `PathRoot` is left out,
  because `with_segments` always hands the gate a `PathRoot`.
- `PathOutsideRootError.__str__` is left out. It resolves the path, which is filesystem access,
  and on a `PathRoot` it re-enters the gate.
- Logging (`LOG.debug`) is left out. `OS_NAME = os.name` is an input, `osName`.
- The test fixtures that create and delete files, and the context manager that overrides the OS
  name, are left out.
- `rename` and `replace` are left out. The tests mark them as to-do and state no intended
  behaviour.
- PathRootModel.PathRoot.JoinPath: "the same root" is stated as equal `Option<ParsedPath>` values, not
  as the same Python object (`is`). The same holds for `Div`, `WithSegments` and the scenarios.
