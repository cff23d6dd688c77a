/** Slash-separated relative paths: basename, depth, ancestors and derived directories. */
module Paths {

  /** Position of the last separator, or -1. */
  function LastSlash(path: string): (r: int)
    ensures -1 <= r < |path|
    ensures r >= 0 ==> path[r] == '/'
    ensures forall i | r < i < |path| :: path[i] != '/'
  {
    if path == [] then -1
    else if path[|path| - 1] == '/' then |path| - 1
    else LastSlash(path[..|path| - 1])
  }

  function BasenameOf(path: string): string {
    path[LastSlash(path) + 1..]
  }

  /** Number of path segments. */
  function Depth(path: string): (d: nat)
    ensures d >= 1
  {
    if path == [] then 1
    else Depth(path[..|path| - 1]) + (if path[|path| - 1] == '/' then 1 else 0)
  }

  method DepthOf(path: string) returns (depth: nat)
    ensures depth == Depth(path)
  {
    depth := 1;
    for i := 0 to |path|
      invariant depth == Depth(path[..i])
    {
      assert path[..i + 1][..i] == path[..i];
      if path[i] == '/' {
        depth := depth + 1;
      }
    }
    assert path[..|path|] == path;
  }

  lemma {:induction false} DepthOfConcat(a: string, b: string)
    ensures Depth(a + b) == Depth(a) + Depth(b) - 1
  {
    if b == [] {
      assert a + b == a;
    } else {
      assert (a + b)[..|a + b| - 1] == a + b[..|b| - 1];
      DepthOfConcat(a, b[..|b| - 1]);
    }
  }

  /** `file` lies somewhere beneath the directory `dir`. */
  predicate Under(dir: string, file: string) {
    |dir| < |file| && dir <= file && file[|dir|] == '/'
  }

  lemma UnderIsDeeper(dir: string, file: string)
    requires Under(dir, file)
    ensures Depth(dir) < Depth(file)
  {
    var rest := file[|dir| + 1..];
    assert file == dir + ("/" + rest);
    DepthOfConcat(dir, "/" + rest);
    DepthOfConcat("/", rest);
  }

  /** Every proper prefix of `path` that ends before a separator. */
  ghost function Ancestors(path: string): set<string> {
    set k | 0 <= k < |path| && path[k] == '/' :: path[..k]
  }

  method IndexOfSlash(path: string, from: nat) returns (at: int)
    requires from <= |path|
    ensures at == -1 ==> forall k | from <= k < |path| :: path[k] != '/'
    ensures at != -1 ==> from <= at < |path| && path[at] == '/' && forall k | from <= k < at :: path[k] != '/'
  {
    at := from;
    while at < |path|
      invariant from <= at <= |path|
      invariant forall k | from <= k < at :: path[k] != '/'
    {
      if path[at] == '/' {
        return at;
      }
      at := at + 1;
    }
    return -1;
  }

  /** A directory is listed exactly when some listed file lies beneath it. */
  method DeriveDirectories(paths: seq<string>) returns (dirs: set<string>)
    ensures forall d :: d in dirs <==> exists p | p in paths :: Under(d, p)
  {
    dirs := {};
    for i := 0 to |paths|
      invariant forall d :: d in dirs <==> exists j | 0 <= j < i :: d in Ancestors(paths[j])
    {
      var p := paths[i];
      ghost var before := dirs;
      var slash := IndexOfSlash(p, 0);
      ghost var seen := if slash == -1 then |p| else slash;
      while slash != -1
        invariant slash == -1 ==> seen == |p|
        invariant slash != -1 ==> seen == slash < |p| && p[slash] == '/'
        invariant forall d :: d in dirs <==> d in before || exists k | 0 <= k < seen :: p[k] == '/' && d == p[..k]
        decreases |p| - seen
      {
        dirs := dirs + {p[..slash]};
        slash := IndexOfSlash(p, slash + 1);
        seen := if slash == -1 then |p| else slash;
      }
      assert forall d :: d in dirs <==> d in before || d in Ancestors(p);
    }
    forall d ensures d in dirs <==> exists p | p in paths :: Under(d, p) {
      AncestorsAreUnder(d, paths);
    }
  }

  lemma AncestorsAreUnder(d: string, paths: seq<string>)
    ensures (exists j | 0 <= j < |paths| :: d in Ancestors(paths[j])) <==> exists p | p in paths :: Under(d, p)
  {
    forall p ensures d in Ancestors(p) <==> Under(d, p) {
      if Under(d, p) {
        assert p[..|d|] == d;
      }
    }
    if j :| 0 <= j < |paths| && d in Ancestors(paths[j]) {
      assert paths[j] in paths && Under(d, paths[j]);
    }
  }
}
