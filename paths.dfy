/**
 * POSIX paths as the command-line code sees them after `path.resolve`,
 * `path.join` and `path.dirname`: an absolute, normalised path is the list of
 * its segments, and the filesystem root "/" is the empty list.
 */
module Paths {
  import opened Strings

  type Path = seq<string>

  /** A segment of a normalised path: not empty, not "." or "..", no separator. */
  predicate NormalSegment(s: string)
  {
    s != "" && s != "." && s != ".." && '/' !in s
  }

  predicate Normal(p: Path)
  {
    forall i :: 0 <= i < |p| ==> NormalSegment(p[i])
  }

  /** `path.dirname`: the parent directory; the root is its own parent. */
  function Dirname(p: Path): (r: Path)
    ensures r == p <==> p == []
    ensures p != [] ==> |r| == |p| - 1 && r == p[..|r|]
  {
    if p == [] then [] else p[..|p| - 1]
  }

  /** One segment of a path string applied during normalisation. */
  function Step(base: Path, segment: string): Path
  {
    if segment == "" || segment == "." then base
    else if segment == ".." then Dirname(base)
    else base + [segment]
  }

  /** Normalisation: apply the segments left to right, starting from `base`. */
  function Walk(base: Path, segments: seq<string>): Path
    decreases |segments|
  {
    if segments == [] then base else Walk(Step(base, segments[0]), segments[1..])
  }

  /** `path.resolve(cwd, s)` for one argument: absolute strings ignore `cwd`. */
  function Resolve(cwd: Path, s: string): Path
  {
    if |s| > 0 && s[0] == '/' then Walk([], Split(s, '/')) else Walk(cwd, Split(s, '/'))
  }

  /** `path.join(base, rel)` for an absolute `base`. */
  function JoinPath(base: Path, rel: string): Path
  {
    Walk(base, Split(rel, '/'))
  }

  /** The string form of a path, as `path.resolve` returns it. */
  function PathString(p: Path): (s: string)
    ensures |s| >= 1 && s[0] == '/'
  {
    "/" + Join(p, "/")
  }

  /** Normalisation never produces an empty, ".", ".." or separator-holding segment. */
  lemma {:induction false} WalkNormal(base: Path, segments: seq<string>)
    requires Normal(base)
    requires forall i :: 0 <= i < |segments| ==> '/' !in segments[i]
    ensures Normal(Walk(base, segments))
    decreases |segments|
  {
    if segments != [] {
      var next := Step(base, segments[0]);
      assert Normal(next);
      WalkNormal(next, segments[1..]);
    }
  }

  /** `path.resolve` against a normalised working directory gives a normalised path. */
  lemma ResolveNormal(cwd: Path, s: string)
    requires Normal(cwd)
    ensures Normal(Resolve(cwd, s))
  {
    WalkNormal([], Split(s, '/'));
    WalkNormal(cwd, Split(s, '/'));
  }

  /** Walking already-normal segments just appends them. */
  lemma {:induction false} WalkNormalSegments(base: Path, p: Path)
    requires Normal(p)
    ensures Walk(base, p) == base + p
    decreases |p|
  {
    if p != [] {
      WalkNormalSegments(base + [p[0]], p[1..]);
      assert base + [p[0]] + p[1..] == base + p;
    }
  }

  /** Splitting the string form on "/" gives an empty piece and then the segments. */
  lemma SplitPathString(p: Path)
    requires Normal(p)
    ensures Split(PathString(p), '/') == if p == [] then ["", ""] else [""] + p
  {
    var tail := Join(p, "/");
    assert PathString(p) == ['/'] + tail;
    assert (['/'] + tail)[1..] == tail;
    if p != [] {
      SplitJoin(p, '/');
    }
  }

  /** Resolving the string form of a normalised path gives that path back, whatever the working directory. */
  lemma ResolvePathString(cwd: Path, p: Path)
    requires Normal(p)
    ensures Resolve(cwd, PathString(p)) == p
  {
    SplitPathString(p);
    var parts := Split(PathString(p), '/');
    assert Resolve(cwd, PathString(p)) == Walk([], parts);
    assert Walk([], parts) == Walk([], parts[1..]);
    if p == [] {
      assert Walk([], parts[1..]) == Walk([], parts[2..]);
    } else {
      assert parts[1..] == p;
      WalkNormalSegments([], p);
      assert [] + p == p;
    }
  }
}
