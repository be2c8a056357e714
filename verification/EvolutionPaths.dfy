// What the checks before the first write guarantee: a verified package has no path twice and none
// inside another, and the preflight has seen what every mutation finds
// (src/rosetta/evolution.py:573-588, 723-735).
module EvolutionPaths {
  import opened Wrappers
  import opened Orders
  import opened Evolution

  ghost predicate DistinctPaths(cs: seq<Change>) {
    forall i, j :: 0 <= i < j < |cs| ==> cs[i].path != cs[j].path
  }

  // No path is a directory of another.
  ghost predicate NoneInside(cs: seq<Change>) {
    forall i, j :: 0 <= i < |cs| && 0 <= j < |cs| ==> cs[i].path !in Parents(cs[j].path)
  }

  // Created paths are free, replaced ones hold what is kept of them.
  ghost predicate Checked(d: Disk, cs: seq<Change>) {
    forall i :: 0 <= i < |cs| ==>
      if cs[i].create then !Exists(d, cs[i].path) && cs[i].previous.None?
      else cs[i].path in d.files && cs[i].previous == Some(d.files[cs[i].path])
  }

  // A prepared candidate: what every later step relies on.
  ghost predicate Ready(d: Disk, cs: seq<Change>) {
    DistinctPaths(cs) && NoneInside(cs) && Checked(d, cs)
  }

  lemma {:induction false} PreflightChecks(d: Disk, changes: Tree, ms: seq<Mutation>, hash: Hash)
    requires Preflight(d, changes, ms, hash).Ok?
    ensures var cs := Preflight(d, changes, ms, hash).value;
            && |cs| == |ms| && Checked(d, cs)
            && forall i :: 0 <= i < |ms| ==> && ms[i].path in changes.files && cs[i].path == ms[i].path
                                              && cs[i].create == ms[i].create
                                              && cs[i].promoted == changes.files[ms[i].path]
  {
    if ms == [] {
    } else {
      PreflightChecks(d, changes, ms[1..], hash);
      var cs, rest := Preflight(d, changes, ms, hash).value, Preflight(d, changes, ms[1..], hash).value;
      assert cs == [PreparedFrom(d, changes, ms[0])] + rest;
      forall i | 0 <= i < |ms|
        ensures && ms[i].path in changes.files && cs[i].path == ms[i].path
                && cs[i].create == ms[i].create && cs[i].promoted == changes.files[ms[i].path]
        ensures if cs[i].create then !Exists(d, cs[i].path) && cs[i].previous.None?
                else cs[i].path in d.files && cs[i].previous == Some(d.files[cs[i].path])
      {
        if i > 0 { assert ms[i] == ms[1..][i - 1] && cs[i] == rest[i - 1]; }
      }
    }
  }

  lemma {:induction false} PathMembers(ms: seq<Mutation>, p: string)
    ensures p in Paths(ms) <==> exists i :: 0 <= i < |ms| && ms[i].path == p
  {
    if i :| 0 <= i < |ms| && ms[i].path == p { assert Paths(ms)[i] == p; }
  }

  lemma {:induction false} MatchingContents(changes: Tree, ms: seq<Mutation>)
    ensures Mismatch(changes, ms).None? <==>
              forall i :: 0 <= i < |ms| ==> ms[i].path in changes.files && changes.files[ms[i].path] == ms[i].content
  {
    if ms == [] {
    } else {
      MatchingContents(changes, ms[1..]);
      assert forall i :: 0 < i < |ms| ==> ms[i] == ms[1..][i - 1];
      assert forall i :: 0 <= i < |ms[1..]| ==> ms[1..][i] == ms[i + 1];
    }
  }

  lemma {:induction false} DistinctAsPaths(ms: seq<Mutation>)
    ensures (forall i, j :: 0 <= i < j < |ms| ==> Paths(ms)[i] != Paths(ms)[j]) <==>
              forall i, j :: 0 <= i < j < |ms| ==> ms[i].path != ms[j].path
  {
    assert forall i, j :: 0 <= i < j < |ms| ==> (Paths(ms)[i] != Paths(ms)[j] <==> ms[i].path != ms[j].path);
  }

  // A package is verified exactly if its change files are the mutations' contents under their
  // paths and no two mutations share a path.
  lemma {:induction false} VerifiedExactly(changes: Tree, ms: seq<Mutation>)
    ensures VerifiedChanges(changes, ms).Ok? <==>
              && (forall i :: 0 <= i < |ms| ==>
                    ms[i].path in changes.files && changes.files[ms[i].path] == ms[i].content)
              && (forall p :: p in changes.files ==> exists i :: 0 <= i < |ms| && ms[i].path == p)
              && (forall i, j :: 0 <= i < j < |ms| ==> ms[i].path != ms[j].path)
  {
    var paths := Paths(ms);
    SameMembers(paths, changes.files.Keys);
    MatchingContents(changes, ms);
    forall p ensures p in paths <==> exists i :: 0 <= i < |ms| && ms[i].path == p { PathMembers(ms, p); }
    DistinctAsPaths(ms);
  }

  // The change files are one tree, and in a tree no file lies inside another: so "a" and "a/b" are
  // never both mutated, and every later step is ready.
  lemma {:induction false} VerifiedIsReady(d: Disk, changes: Tree, ms: seq<Mutation>, hash: Hash)
    requires IsTree(changes.files, changes.dirs) && VerifiedChanges(changes, ms).Ok?
             && Preflight(d, changes, ms, hash).Ok?
    ensures var cs := Preflight(d, changes, ms, hash).value;
            && |cs| == |ms| && Ready(d, cs)
            && forall i :: 0 <= i < |ms| ==> cs[i].path == ms[i].path && cs[i].promoted == ms[i].content
  {
    PreflightChecks(d, changes, ms, hash);
    VerifiedExactly(changes, ms);
    var cs := Preflight(d, changes, ms, hash).value;
    forall i, j | 0 <= i < |cs| && 0 <= j < |cs| ensures cs[i].path !in Parents(cs[j].path) {
      assert cs[i].path == ms[i].path && ms[i].path in changes.files && cs[j].path == ms[j].path
        && ms[j].path in changes.files;
      assert Parents(ms[j].path) <= changes.dirs;
    }
    forall i, j | 0 <= i < j < |cs| ensures cs[i].path != cs[j].path { assert ms[i].path != ms[j].path; }
  }
}
