// When a promotion finishes, and what it has then done (src/rosetta/evolution.py:590-623).
module EvolutionInstall {
  import opened Wrappers
  import opened Evolution
  import opened EvolutionPaths
  import opened EvolutionEngines
  import opened EvolutionSafety

  // The files with the first mutations' bytes in place.
  function WithPromoted(files: map<string, Bytes>, cs: seq<Change>): map<string, Bytes> {
    if cs == [] then files
    else WithPromoted(files, cs[..|cs| - 1])[cs[|cs| - 1].path := cs[|cs| - 1].promoted]
  }

  // No file of the project is where one of the first n mutations needs a directory.
  ghost predicate RoomFor(files: map<string, Bytes>, cs: seq<Change>, n: nat)
    requires n <= |cs|
  {
    forall i :: 0 <= i < n ==> Parents(cs[i].path) * files.Keys == {}
  }

  lemma {:induction false} PromotedKeys(files: map<string, Bytes>, cs: seq<Change>, p: string)
    ensures p in WithPromoted(files, cs) <==> p in files || IsMutated(cs, p)
  {
    if cs == [] {
    } else {
      var front := cs[..|cs| - 1];
      PromotedKeys(files, front, p);
      if IsMutated(cs, p) && p != cs[|cs| - 1].path {
        var i :| 0 <= i < |cs| && cs[i].path == p;
        assert front[i].path == p;
      }
      if i :| 0 <= i < |front| && front[i].path == p { assert cs[i].path == p; }
      if p == cs[|cs| - 1].path { assert IsMutated(cs, p); }
    }
  }

  // Where every mutated path holds its new bytes and every other what it held.
  lemma {:induction false} PromotedFiles(files: map<string, Bytes>, cs: seq<Change>, p: string)
    requires DistinctPaths(cs)
    ensures forall i :: 0 <= i < |cs| && cs[i].path == p ==>
              p in WithPromoted(files, cs) && WithPromoted(files, cs)[p] == cs[i].promoted
    ensures !IsMutated(cs, p) ==> (p in WithPromoted(files, cs) <==> p in files)
                                  && (p in files ==> WithPromoted(files, cs)[p] == files[p])
  {
    if cs == [] {
    } else {
      var front := cs[..|cs| - 1];
      PromotedFiles(files, front, p);
      forall i | 0 <= i < |front| && front[i].path == p ensures IsMutated(cs, p) { assert cs[i].path == p; }
      forall i | 0 <= i < |cs| && cs[i].path == p
        ensures p in WithPromoted(files, cs) && WithPromoted(files, cs)[p] == cs[i].promoted
      {
        if i < |front| { assert front[i].path == p && cs[i].path != cs[|cs| - 1].path; }
      }
      if !IsMutated(cs, p) { assert cs[|cs| - 1].path != p; }
    }
  }

  // The state once the first i mutations are written.
  ghost predicate Installed(d0: Disk, d: Disk, cs: seq<Change>, i: nat)
    requires i <= |cs|
  {
    d.files == WithPromoted(d0.files, cs[..i]) && DirsMade(d0, d, cs)
  }

  lemma {:induction false} ParentsFit(d0: Disk, d: Disk, cs: seq<Change>, i: nat)
    requires NoneInside(cs) && i < |cs| && Installed(d0, d, cs, i)
    ensures Written(d, MakeParents(cs[i].path)).1 <==> Parents(cs[i].path) * d0.files.Keys == {}
  {
    forall p | p in Parents(cs[i].path) ensures p in d.files <==> p in d0.files {
      PromotedKeys(d0.files, cs[..i], p);
      forall j | 0 <= j < |cs[..i]| ensures cs[..i][j].path != p { assert cs[j].path !in Parents(cs[i].path); }
    }
    var parents := Parents(cs[i].path);
    forall p ensures p in parents * d.files.Keys <==> p in parents * d0.files.Keys { }
    assert parents * d.files.Keys == parents * d0.files.Keys;
  }

  lemma {:induction false} FileFits(d0: Disk, d: Disk, cs: seq<Change>, i: nat)
    requires Ready(d0, cs) && d0.files.Keys !! d0.dirs && i < |cs| && DirsMade(d0, d, cs)
    ensures Written(d, PutFile(cs[i].path, cs[i].promoted)).1
  {
    assert forall j :: 0 <= j < |cs| ==> cs[i].path !in Parents(cs[j].path);
  }

  // Writing one mutation: it succeeds exactly if there is room for its directories.
  lemma {:induction false} OneInstalled(d0: Disk, d: Disk, cs: seq<Change>, i: nat)
    requires Ready(d0, cs) && d0.files.Keys !! d0.dirs && i < |cs| && Installed(d0, d, cs, i)
    ensures var (d1, made) := Written(d, MakeParents(cs[i].path));
            var (d2, put) := Written(d1, PutFile(cs[i].path, cs[i].promoted));
            && (made <==> Parents(cs[i].path) * d0.files.Keys == {})
            && (made ==> put && Installed(d0, d2, cs, i + 1))
  {
    ParentsFit(d0, d, cs, i);
    var d1 := Written(d, MakeParents(cs[i].path)).0;
    FileFits(d0, d1, cs, i);
    assert cs[..i + 1][..i] == cs[..i];
  }

  lemma {:induction false} TwoMore(d: Disk, ws: seq<Write>, c: Change)
    ensures WrittenAll(d, ws + FilesOf(c)) ==
            var (d0, ok) := WrittenAll(d, ws);
            if !ok then (d0, false)
            else
              var (d1, made) := Written(d0, MakeParents(c.path));
              if !made then (d1, false) else Written(d1, PutFile(c.path, c.promoted))
  {
    var all := ws + FilesOf(c);
    var once := all[..|all| - 1];
    assert once == ws + [MakeParents(c.path)] && once[..|once| - 1] == ws;
  }

  // Writing up to mutation i either installs them all or found no room.
  ghost predicate InstallsTo(d0: Disk, cs: seq<Change>, hash: Hash, i: nat)
    requires i <= |cs|
  {
    var (d, ok) := WrittenAll(d0, Into(cs, hash, i));
    (ok <==> RoomFor(d0.files, cs, i)) && (ok ==> Installed(d0, d, cs, i))
  }

  lemma {:induction false} InstallBegins(d0: Disk, cs: seq<Change>, hash: Hash)
    ensures InstallsTo(d0, cs, hash, 0)
  {
    WholeHead(d0, cs);
    RecordStarts(cs, hash);
    assert Into(cs, hash, 0)[..|Head(cs)|] == Head(cs);
    assert cs[..0] == [];
  }

  lemma {:induction false} InstallGoesOn(d0: Disk, cs: seq<Change>, hash: Hash, i: nat)
    requires Ready(d0, cs) && d0.files.Keys !! d0.dirs && i < |cs| && InstallsTo(d0, cs, hash, i)
    ensures InstallsTo(d0, cs, hash, i + 1)
  {
    var (d, ok) := WrittenAll(d0, Into(cs, hash, i));
    IntoGrows(cs, hash, i);
    TwoMore(d0, Into(cs, hash, i), cs[i]);
    if ok { OneInstalled(d0, d, cs, i); }
  }

  lemma {:induction false} InstalledTo(d0: Disk, cs: seq<Change>, hash: Hash, i: nat)
    requires Ready(d0, cs) && d0.files.Keys !! d0.dirs && i <= |cs|
    ensures InstallsTo(d0, cs, hash, i)
    decreases i
  {
    if i == 0 {
      InstallBegins(d0, cs, hash);
    } else {
      InstalledTo(d0, cs, hash, i - 1);
      InstallGoesOn(d0, cs, hash, i - 1);
    }
  }

  lemma {:induction false} AllInstalled(d0: Disk, cs: seq<Change>, hash: Hash)
    requires Ready(d0, cs) && d0.files.Keys !! d0.dirs
    ensures var (d, ok) := WrittenAll(d0, Writes(cs, hash));
            (ok <==> RoomFor(d0.files, cs, |cs|))
            && (ok ==> d.files == WithPromoted(d0.files, cs)
                       && d.record == Some(Record(RecordState.Applied, ItemsOf(cs, hash))))
  {
    InstalledTo(d0, cs, hash, |cs|);
    RecordEnds(cs, hash);
    assert cs[..|cs|] == cs;
    assert Writes(cs, hash)[..|Writes(cs, hash)| - 1] == Into(cs, hash, |cs|);
  }

  lemma {:induction false} WritesCount(cs: seq<Change>, hash: Hash)
    ensures |Writes(cs, hash)| <= 3 * |cs| + 3
  {
    PartsCount(cs);
  }

  lemma {:induction false} PartsCount(cs: seq<Change>)
    ensures |Backups(cs)| <= |cs| && |Files(cs)| == 2 * |cs|
  {
    if cs == [] {
    } else {
      PartsCount(cs[..|cs| - 1]);
    }
  }

  // A replaced file already lies in directories.
  lemma {:induction false} RoomIsForCreated(d0: Disk, ms: seq<Mutation>, cs: seq<Change>)
    requires IsTree(d0.files, d0.dirs) && Checked(d0, cs) && |cs| == |ms|
    requires forall i :: 0 <= i < |ms| ==> cs[i].path == ms[i].path && cs[i].create == ms[i].create
    ensures RoomFor(d0.files, cs, |cs|) <==> forall i :: 0 <= i < |ms| && ms[i].create ==>
              Parents(ms[i].path) * d0.files.Keys == {}
  {
    forall i | 0 <= i < |ms| && !ms[i].create ensures Parents(cs[i].path) * d0.files.Keys == {} {
      assert Parents(cs[i].path) <= d0.dirs && d0.files.Keys * d0.dirs == {};
      forall p ensures p !in Parents(cs[i].path) * d0.files.Keys { }
    }
    if RoomFor(d0.files, cs, |cs|) {
      forall i | 0 <= i < |ms| && ms[i].create ensures Parents(ms[i].path) * d0.files.Keys == {} {
        assert Parents(cs[i].path) * d0.files.Keys == {};
      }
    }
  }

  // The new content under every mutated path, and all else as it was.
  ghost predicate Applied(d0: Disk, d: Disk, ms: seq<Mutation>) {
    && (forall i :: 0 <= i < |ms| ==> ms[i].path in d.files && d.files[ms[i].path] == ms[i].content)
    && (forall p :: (forall i :: 0 <= i < |ms| ==> ms[i].path != p) ==> Original(d0, d, p))
  }

  lemma {:induction false} InstalledIsApplied(d0: Disk, d: Disk, ms: seq<Mutation>, cs: seq<Change>)
    requires |cs| == |ms| && DistinctPaths(cs) && d.files == WithPromoted(d0.files, cs)
    requires forall i :: 0 <= i < |ms| ==> cs[i].path == ms[i].path && cs[i].promoted == ms[i].content
    ensures Applied(d0, d, ms)
  {
    forall i | 0 <= i < |ms| ensures ms[i].path in d.files && d.files[ms[i].path] == ms[i].content {
      PromotedFiles(d0.files, cs, cs[i].path);
    }
    forall p | forall i :: 0 <= i < |ms| ==> ms[i].path != p ensures Original(d0, d, p) {
      PromotedFiles(d0.files, cs, p);
    }
  }

  // A promotion that passed its checks and is not cut off finishes exactly if no file of the project
  // is where a created path needs a directory; then every mutated path holds its new content, every
  // other what it held, and the record says so. Such a file can appear after the evaluation where the
  // digest of the source tree does not look (src/rosetta/evolution.py:263-289).
  lemma {:induction false} PromotionFinishes(d0: Disk, changes: Tree, ms: seq<Mutation>, hash: Hash, v: Verdicts,
                                             steps: nat)
    requires IsTree(changes.files, changes.dirs) && IsTree(d0.files, d0.dirs) && steps >= 3 * |ms| + 3
    requires !Promoted(d0, changes, ms, hash, v, steps).1.Refused?
    ensures var (d, end) := Promoted(d0, changes, ms, hash, v, steps);
            && (end.Done? <==> forall i :: 0 <= i < |ms| && ms[i].create ==> Parents(ms[i].path) * d0.files.Keys == {})
            && (end.Done? || end.Stopped?)
            && (end.Done? ==> d.record.Some? && d.record.value.state == RecordState.Applied && Applied(d0, d, ms))
  {
    var cs, n := PassedChecks(d0, changes, ms, hash, v, steps);
    WritesCount(cs, hash);
    RunsToEnd(d0, Writes(cs, hash), steps);
    AllInstalled(d0, cs, hash);
    RoomIsForCreated(d0, ms, cs);
    var (d, ok) := WrittenAll(d0, Writes(cs, hash));
    if ok { InstalledIsApplied(d0, d, ms, cs); }
  }

  lemma {:induction false} RunsToEnd(d: Disk, ws: seq<Write>, steps: nat)
    requires steps >= |ws|
    ensures Run(d, ws, steps) == (WrittenAll(d, ws).0, if WrittenAll(d, ws).1 then Done else Stopped)
  {
    assert ws[..|ws|] == ws;
  }

  // ---- a promotion that does not finish ----

  // A path right below another.
  function Below(dir: string, name: string): string {
    dir + "/" + name
  }

  lemma {:induction false} ParentsBelow(dir: string, name: string)
    requires '/' !in name
    ensures Parents(Below(dir, name)) == Parents(dir) + {dir}
    ensures dir !in Parents(dir) && Below(dir, name) !in Parents(Below(dir, name)) && Below(dir, name) != dir
  {
    var path := Below(dir, name);
    assert path[|dir|] == '/' && path[..|dir|] == dir;
    assert forall i :: |dir| < i < |path| ==> path[i] == name[i - |dir| - 1];
    forall p ensures p in Parents(path) <==> p in Parents(dir) + {dir} {
      if p in Parents(path) {
        var i :| 0 <= i < |path| && path[i] == '/' && p == path[..i];
        if i < |dir| { assert dir[i] == '/' && p == dir[..i]; }
      }
      if p in Parents(dir) {
        var i :| 0 <= i < |dir| && dir[i] == '/' && p == dir[..i];
        assert path[i] == '/' && path[..i] == p;
      }
    }
  }

  // A project that holds nothing but one file, and a candidate that creates a path right below it.
  function Blocked(file: string): Disk {
    Disk(map[file := []], Parents(file), false, map[], None)
  }

  function Creation(path: string, content: Bytes): seq<Mutation> {
    [Mutation(path, true, None, content)]
  }

  function CreationTree(path: string, content: Bytes): Tree {
    Tree(map[path := content], Parents(path))
  }

  lemma {:induction false} OneVerifies(path: string, content: Bytes)
    ensures VerifiedChanges(CreationTree(path, content), Creation(path, content)).Ok?
  {
    VerifiedExactly(CreationTree(path, content), Creation(path, content));
    assert Creation(path, content)[0].path == path;
  }

  lemma {:induction false} OnePassesPreflight(d: Disk, path: string, content: Bytes, hash: Hash)
    requires !Exists(d, path)
    ensures Preflight(d, CreationTree(path, content), Creation(path, content), hash).Ok?
  {
    assert Creation(path, content)[1..] == [];
    assert Preflight(d, CreationTree(path, content), [], hash) == Ok([]);
  }

  // Such a promotion passes every check and then stops, for every file and every path below it.
  lemma {:induction false} FileInTheWay(file: string, name: string, content: Bytes, hash: Hash, steps: nat)
    requires '/' !in name && steps >= 6
    ensures var path, v := Below(file, name), Verdicts(Ok(()), Ok(()));
            && IsTree(Blocked(file).files, Blocked(file).dirs)
            && IsTree(CreationTree(path, content).files, CreationTree(path, content).dirs)
            && Promoted(Blocked(file), CreationTree(path, content), Creation(path, content), hash, v, steps).1
               == Stopped
  {
    var path, v := Below(file, name), Verdicts(Ok(()), Ok(()));
    var changes, ms := CreationTree(path, content), Creation(path, content);
    ParentsBelow(file, name);
    OneVerifies(path, content);
    OnePassesPreflight(Blocked(file), path, content, hash);
    PromotionFinishes(Blocked(file), changes, ms, hash, v, steps);
    assert ms[0].create && file in Parents(ms[0].path) * Blocked(file).files.Keys;
  }

  const FIXTURE: string := "fixtures/evolution/a"

  // For one, a file that appears among the fixtures, which the digest of the sources passes over.
  lemma {:induction false} FixtureInTheWay(hash: Hash, steps: nat)
    requires steps >= 6
    ensures Promoted(Blocked(FIXTURE), CreationTree(Below(FIXTURE, "x"), []), Creation(Below(FIXTURE, "x"), []), hash,
                     Verdicts(Ok(()), Ok(())), steps).1 == Stopped
  {
    FileInTheWay(FIXTURE, "x", [], hash, steps);
  }
}
