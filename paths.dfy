/**
 * Path values as pathlib holds them after parsing, the segment-wise containment
 * test `is_relative_to`, and a lexical stand-in for `Path.resolve()`.
 */
module PurePaths {

  /** A path: whether it is anchored at the filesystem root, and its segments. */
  datatype Path = Path(absolute: bool, segments: seq<string>)

  /**
   * The shape pathlib's parser produces: the text is split at every `/`, so no segment holds
   * one; `.` and empty parts are dropped (`a/./b` and `a//b` are `a/b`, and `.` alone has no
   * segments), while `..` is kept.
   */
  predicate Parsed(p: Path)
  {
    forall i :: 0 <= i < |p.segments| ==>
      p.segments[i] != "." && p.segments[i] != "" && '/' !in p.segments[i]
  }

  /** A path value pathlib can hold. */
  type ParsedPath = p: Path | Parsed(p) witness Path(false, [])

  /** `base / other`: an anchored right operand replaces the left one. */
  function Join(base: Path, other: Path): Path
  {
    if other.absolute then other else Path(base.absolute, base.segments + other.segments)
  }

  /** Joins `parts` onto `acc` from left to right. */
  function JoinFrom(acc: Path, parts: seq<Path>): (r: Path)
    ensures r.absolute <==> acc.absolute || exists i :: 0 <= i < |parts| && parts[i].absolute
    decreases |parts|
  {
    if parts == [] then acc
    else
      var r := JoinFrom(Join(acc, parts[0]), parts[1..]);
      assert forall i :: 0 < i < |parts| ==> parts[i] == parts[1..][i - 1];
      r
  }

  /** Joining parsed parts onto a parsed path gives a parsed path. */
  lemma {:induction false} JoinFromParsed(acc: Path, parts: seq<Path>)
    requires Parsed(acc) && forall i :: 0 <= i < |parts| ==> Parsed(parts[i])
    ensures Parsed(JoinFrom(acc, parts))
    decreases |parts|
  {
    if parts != [] {
      JoinFromParsed(Join(acc, parts[0]), parts[1..]);
    }
  }

  /** An anchored part discards everything joined before it. */
  lemma {:induction false} JoinFromAnchored(acc: Path, parts: seq<Path>, i: nat)
    requires i < |parts| && parts[i].absolute
    ensures JoinFrom(acc, parts) == JoinFrom(parts[i], parts[i + 1..])
    decreases i
  {
    if i == 0 {
      assert parts[1..] == parts[i + 1..];
    } else {
      assert parts[1..][i - 1] == parts[i];
      assert parts[1..][i - 1 + 1..] == parts[i + 1..];
      JoinFromAnchored(Join(acc, parts[0]), parts[1..], i - 1);
    }
  }

  /**
   * `Path(*parts)`: the parts joined left to right; no parts at all give `.`. The result is
   * anchored exactly when some part is, relative parts only append segments, and parsed parts
   * give a parsed path. `JoinFromAnchored` says how an anchored part restarts the path.
   */
  function JoinAll(parts: seq<Path>): (r: Path)
    ensures r.absolute <==> exists i :: 0 <= i < |parts| && parts[i].absolute
    ensures (forall i :: 0 <= i < |parts| ==> !parts[i].absolute) ==> r == Path(false, Flatten(parts))
    ensures (forall i :: 0 <= i < |parts| ==> Parsed(parts[i])) ==> Parsed(r)
  {
    var r := JoinFrom(Path(false, []), parts);
    assert (forall i :: 0 <= i < |parts| ==> !parts[i].absolute) ==> r == Path(false, Flatten(parts)) by {
      if forall i :: 0 <= i < |parts| ==> !parts[i].absolute {
        JoinFromRelative(Path(false, []), parts);
        assert [] + Flatten(parts) == Flatten(parts);
      }
    }
    assert (forall i :: 0 <= i < |parts| ==> Parsed(parts[i])) ==> Parsed(r) by {
      if forall i :: 0 <= i < |parts| ==> Parsed(parts[i]) {
        JoinFromParsed(Path(false, []), parts);
      }
    }
    r
  }

  /** The segments of `parts`, one after another. */
  function Flatten(parts: seq<Path>): seq<string>
  {
    if parts == [] then [] else parts[0].segments + Flatten(parts[1..])
  }

  /** Joining only relative parts onto a base extends the base's segments. */
  lemma {:induction false} JoinFromRelative(acc: Path, parts: seq<Path>)
    requires forall i :: 0 <= i < |parts| ==> !parts[i].absolute
    ensures JoinFrom(acc, parts) == Path(acc.absolute, acc.segments + Flatten(parts))
    decreases |parts|
  {
    if parts != [] {
      assert forall i :: 0 <= i < |parts[1..]| ==> parts[1..][i] == parts[i + 1];
      JoinFromRelative(Join(acc, parts[0]), parts[1..]);
      assert acc.segments + parts[0].segments + Flatten(parts[1..])
          == acc.segments + (parts[0].segments + Flatten(parts[1..]));
    }
  }

  /** `Path(base, *rest)` with relative `rest` is `base` followed by the segments of `rest`. */
  lemma JoinAllOnto(base: Path, rest: seq<Path>)
    requires forall i :: 0 <= i < |rest| ==> !rest[i].absolute
    ensures JoinAll([base] + rest) == Path(base.absolute, base.segments + Flatten(rest))
  {
    var parts := [base] + rest;
    assert parts[1..] == rest;
    JoinFromRelative(Join(Path(false, []), base), rest);
    assert Join(Path(false, []), base) == base by {
      assert [] + base.segments == base.segments;
    }
  }

  /**
   * `p.is_relative_to(root)`: `root` equals `p` or is one of its parents, i.e. same anchor
   * and `root`'s segments are a prefix of `p`'s. Comparison is per segment, not per character.
   */
  predicate IsRelativeTo(p: Path, root: Path)
    ensures IsRelativeTo(p, root) <==>
              p.absolute == root.absolute && exists tail :: p.segments == root.segments + tail
  {
    assert root.segments <= p.segments ==> p.segments == root.segments + p.segments[|root.segments|..];
    p.absolute == root.absolute && root.segments <= p.segments
  }

  /** `p.parents`: every proper prefix of `p`, keeping its anchor (`.` for a relative `p`). */
  function ParentsOf(p: Path): (r: set<Path>)
    ensures forall q :: q in r ==> q.absolute == p.absolute && |q.segments| < |p.segments|
  {
    set k | 0 <= k < |p.segments| :: Path(p.absolute, p.segments[..k])
  }

  /** `is_relative_to` as pathlib states it: `other == self or other in self.parents`. */
  lemma {:induction false} RelativeToParents(p: Path, root: Path)
    ensures IsRelativeTo(p, root) <==> root == p || root in ParentsOf(p)
  {
    if IsRelativeTo(p, root) && root != p {
      var k := |root.segments|;
      assert root.segments == p.segments[..k];
      assert k < |p.segments|;
      assert root == Path(p.absolute, p.segments[..k]);
    }
    if root in ParentsOf(p) {
      var k :| 0 <= k < |p.segments| && root == Path(p.absolute, p.segments[..k]);
      assert p.segments == root.segments + p.segments[k..];
    }
  }

  /** Containment is a partial order: the root is inside itself, and nesting composes. */
  lemma {:induction false} RelativeToOrder(p: Path, q: Path, root: Path)
    ensures IsRelativeTo(root, root)
    ensures IsRelativeTo(p, q) && IsRelativeTo(q, root) ==> IsRelativeTo(p, root)
    ensures IsRelativeTo(p, q) && IsRelativeTo(q, p) ==> p == q
  {
    if IsRelativeTo(p, q) && IsRelativeTo(q, root) {
      assert p.segments[..|root.segments|] == q.segments[..|root.segments|];
    }
  }

  /** POSIX rendering of a path as one string, `/` between segments. */
  function Render(p: Path): string
  {
    (if p.absolute then "/" else "") + JoinSlash(p.segments)
  }

  function JoinSlash(segments: seq<string>): string
  {
    if segments == [] then ""
    else if |segments| == 1 then segments[0]
    else JoinSlash(segments[..|segments| - 1]) + "/" + segments[|segments| - 1]
  }

  /**
   * A sibling whose name extends the root's last name (`/tmp/root2` beside `/tmp/root`)
   * is outside the root, although the root's rendering is a character prefix of the sibling's.
   */
  lemma {:induction false} SiblingIsOutside(parent: seq<string>, name: string, suffix: string)
    requires suffix != []
    ensures var root := Path(true, parent + [name]);
            var sibling := Path(true, parent + [name + suffix]);
            Render(root) <= Render(sibling) && !IsRelativeTo(sibling, root)
  {
    var root := parent + [name];
    var sibling := parent + [name + suffix];
    assert root[..|parent|] == parent && sibling[..|parent|] == parent;
    var head := if parent == [] then "/" else "/" + JoinSlash(parent) + "/";
    assert Render(Path(true, root)) == head + name;
    assert Render(Path(true, sibling)) == head + name + suffix;
    assert head + name + suffix == (head + name) + suffix;
    assert (head + name) <= (head + name) + suffix;
    assert root[|parent|] != sibling[|parent|] by {
      assert |name + suffix| != |name|;
    }
  }

  /** True when no segment is `.`, `..` or empty, as in a resolved path. */
  predicate Clean(segments: seq<string>)
  {
    forall i :: 0 <= i < |segments| ==> segments[i] != "." && segments[i] != ".." && segments[i] != ""
  }

  /**
   * Lexical normalisation of an anchored path: `.` and empty segments are dropped,
   * `..` removes the previous segment, and `..` at the filesystem root stays there.
   */
  function Normalize(segments: seq<string>): (r: seq<string>)
    ensures Clean(r)
    ensures |r| <= |segments|
  {
    if segments == [] then []
    else
      var init := Normalize(segments[..|segments| - 1]);
      var last := segments[|segments| - 1];
      if last == "." || last == "" then init
      else if last == ".." then (if init == [] then [] else init[..|init| - 1])
      else init + [last]
  }

  /** Appending clean segments does not disturb what was normalised before them. */
  lemma {:induction false} NormalizeAppendClean(s: seq<string>, t: seq<string>)
    requires Clean(t)
    ensures Normalize(s + t) == Normalize(s) + t
  {
    if t != [] {
      var t' := t[..|t| - 1];
      assert (s + t)[..|s + t| - 1] == s + t';
      NormalizeAppendClean(s, t');
      assert Normalize(s) + t' + [t[|t| - 1]] == Normalize(s) + t;
    } else {
      assert s + t == s;
    }
  }

  /** A clean path is its own normal form. */
  lemma NormalizeClean(s: seq<string>)
    requires Clean(s)
    ensures Normalize(s) == s
  {
    NormalizeAppendClean([], s);
    assert [] + s == s;
  }

  /** `k` segments `..`. */
  function Parents(k: nat): (r: seq<string>)
    ensures |r| == k && forall i :: 0 <= i < k ==> r[i] == ".."
  {
    if k == 0 then [] else Parents(k - 1) + [".."]
  }

  /** Climbing `k` levels from a clean path drops its last `k` segments, stopping at the root. */
  lemma {:induction false} NormalizeParents(s: seq<string>, k: nat)
    requires Clean(s)
    ensures Normalize(s + Parents(k)) == if k <= |s| then s[..|s| - k] else []
  {
    if k == 0 {
      assert s + Parents(0) == s;
      NormalizeClean(s);
    } else {
      assert (s + Parents(k))[..|s| + k - 1] == s + Parents(k - 1);
      NormalizeParents(s, k - 1);
    }
  }

  /** `a + b` is a prefix of `a + t` exactly when `b` is a prefix of `t`. */
  lemma PrefixAfterCommon(a: seq<string>, b: seq<string>, t: seq<string>)
    ensures a + b <= a + t <==> b <= t
  {
    if b <= t {
      assert (a + t)[..|a + b|] == a + t[..|b|];
    }
    if a + b <= a + t {
      assert t[..|b|] == (a + t)[|a|..|a| + |b|] == (a + b)[|a|..];
    }
  }

  /** Climbing `k` levels out of a clean path and then down through clean `t`. */
  lemma NormalizeClimb(root: seq<string>, k: nat, t: seq<string>)
    requires Clean(root) && Clean(t) && k <= |root|
    ensures Normalize(root + Parents(k) + t) == root[..|root| - k] + t
  {
    NormalizeParents(root, k);
    NormalizeAppendClean(root + Parents(k), t);
  }

  /**
   * After dropping the last `k` segments of a root and appending `t`, the result is inside
   * the root exactly when `t` walks back down through the `k` dropped segments.
   */
  lemma ClimbInsideIff(root: seq<string>, k: nat, t: seq<string>)
    requires k <= |root|
    ensures IsRelativeTo(Path(true, root[..|root| - k] + t), Path(true, root))
        <==> root[|root| - k..] <= t
  {
    var kept, dropped := root[..|root| - k], root[|root| - k..];
    assert root == kept + dropped;
    PrefixAfterCommon(kept, dropped, t);
  }

  /**
   * A lexical stand-in for `Path.resolve()`: a relative path is first placed under the
   * working directory `cwd`, then normalised. Symbolic links are not followed.
   */
  function LexicalResolve(cwd: seq<string>, p: Path): (r: Path)
    ensures r.absolute && Clean(r.segments)
  {
    Path(true, Normalize(if p.absolute then p.segments else cwd + p.segments))
  }

  /** Resolving a clean anchored path leaves it as it is. */
  lemma ResolveClean(cwd: seq<string>, p: Path)
    requires p.absolute && Clean(p.segments)
    ensures LexicalResolve(cwd, p) == p
  {
    NormalizeClean(p.segments);
  }

  /** Joining clean relative segments onto a path resolves inside that path's resolved form. */
  lemma JoinCleanStaysInside(cwd: seq<string>, p: Path, t: seq<string>)
    requires Clean(t)
    ensures LexicalResolve(cwd, Join(p, Path(false, t))) == Path(true, LexicalResolve(cwd, p).segments + t)
    ensures IsRelativeTo(LexicalResolve(cwd, Join(p, Path(false, t))), LexicalResolve(cwd, p))
  {
    var s := if p.absolute then p.segments else cwd + p.segments;
    assert (if p.absolute then p.segments + t else cwd + (p.segments + t)) == s + t;
    NormalizeAppendClean(s, t);
  }
}
