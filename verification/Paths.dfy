/** The names of snapshots and clones in the ZFS name space, and why a snapshot or a
    clone may be identified by its dataset and its short name. */
module Paths {
  function SnapPath(dataset: string, name: string): string {
    dataset + "@" + name
  }

  function ClonePath(dataset: string, clone: string): string {
    dataset + "/branches/" + clone
  }

  /** The part of a path after its last slash, all of it if there is none. */
  function LastPart(path: string): string {
    if '/' !in path then path
    else if path[0] == '/' && '/' !in path[1..] then path[1..]
    else LastPart(path[1..])
  }

  lemma {:induction false} LastPartAfterSlash(prefix: string, clone: string)
    requires '/' !in clone
    ensures LastPart(prefix + "/" + clone) == clone
  {
    var path := prefix + "/" + clone;
    assert path[|prefix|] == '/';
    if prefix == [] {
      assert path[1..] == clone;
    } else {
      assert path[1..] == prefix[1..] + "/" + clone;
      assert path[1..][|prefix| - 1] == '/';
      LastPartAfterSlash(prefix[1..], clone);
    }
  }

  /** A clone name without a slash is recovered from its path. */
  lemma ClonePathLastPart(dataset: string, clone: string)
    requires '/' !in clone
    ensures LastPart(ClonePath(dataset, clone)) == clone
  {
    assert ClonePath(dataset, clone) == (dataset + "/branches") + "/" + clone;
    LastPartAfterSlash(dataset + "/branches", clone);
  }

  /** No two clones share a path, whatever their datasets. */
  lemma ClonePathInjective(d: string, c: string, e: string, f: string)
    requires '/' !in c && '/' !in f
    requires ClonePath(d, c) == ClonePath(e, f)
    ensures d == e && c == f
  {
    ClonePathLastPart(d, c);
    ClonePathLastPart(e, f);
    assert ClonePath(d, c)[..|d|] == d && ClonePath(e, f)[..|e|] == e;
  }

  /** No two snapshots of datasets without an at-sign share a name. */
  lemma SnapPathInjective(d: string, n: string, e: string, m: string)
    requires '@' !in d && '@' !in e
    requires SnapPath(d, n) == SnapPath(e, m)
    ensures d == e && n == m
  {
    var p := SnapPath(d, n);
    assert p[|d|] == '@' && p[|e|] == '@';
    assert forall i | 0 <= i < |d| :: p[i] == d[i] != '@';
    assert forall i | 0 <= i < |e| :: p[i] == e[i] != '@';
    assert p[..|d|] == d && p[..|e|] == e;
    assert p[|d| + 1..] == n && p[|e| + 1..] == m;
  }

  /** The dataset itself, or something below it. */
  predicate Under(path: string, dataset: string) {
    && |dataset| <= |path| && path[..|dataset|] == dataset
    && (|path| == |dataset| || path[|dataset|] == '/' || path[|dataset|] == '@')
  }

  lemma UnderBoth(path: string, d: string, e: string)
    requires Under(path, d) && Under(path, e) && |d| <= |e|
    ensures Under(e, d)
  {
    assert e[..|d|] == path[..|e|][..|d|] == d;
    assert |d| < |e| ==> e[|d|] == path[|d|];
  }

  /** Nothing lies below two datasets of which neither lies below the other. */
  lemma PathsApart(path: string, d: string, e: string)
    requires !Under(d, e) && !Under(e, d) && Under(path, d)
    ensures !Under(path, e)
  {
    if Under(path, e) {
      if |d| <= |e| { UnderBoth(path, d, e); } else { UnderBoth(path, e, d); }
    }
  }

  /** What the agent of a dataset names lies below it. */
  lemma PathsUnder(dataset: string, name: string)
    ensures Under(SnapPath(dataset, name), dataset) && Under(ClonePath(dataset, name), dataset)
  {
  }
}
