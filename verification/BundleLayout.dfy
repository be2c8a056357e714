// Building a bundle: the fixed layout of its files, and why it always verifies
// (src/rosetta/evidence.py:63-120).
module BundleLayout {
  import opened Wrappers
  import opened Orders
  import opened Bundle
  import Signer

  // What one scenario result is printed as.
  datatype Cell = Cell(producer: string, consumer: string, evidence: Bytes, reproduction: Bytes, command: Bytes)

  datatype Observation = Observation(run: Bytes, cells: seq<Cell>, matrix: Bytes, summary: Bytes)

  function CellName(c: Cell): string {
    c.producer + "--" + c.consumer
  }

  function WithCell(files: Files, c: Cell): Files {
    files["evidence/" + CellName(c) + ".json" := c.evidence]
         ["reproduce/" + CellName(c) + ".json" := c.reproduction]
         ["reproduce/" + CellName(c) + ".txt" := c.command]
  }

  function WithCells(files: Files, cells: seq<Cell>): Files {
    if cells == [] then files else WithCell(WithCells(files, cells[..|cells| - 1]), cells[|cells| - 1])
  }

  // The covered files of a built bundle.
  function Contents(o: Observation): Files {
    WithCells(map["run.json" := o.run], o.cells)["matrix.json" := o.matrix]["summary.md" := o.summary]
  }

  predicate PlainId(id: string) {
    '/' !in id && NoBreak(id)
  }

  predicate PlainIds(o: Observation) {
    forall i :: 0 <= i < |o.cells| ==> PlainId(o.cells[i].producer) && PlainId(o.cells[i].consumer)
  }

  // ---- the layout ----

  // A path of a file right below a directory.
  predicate Below(dir: string, path: string) {
    && |dir| < |path| && path[..|dir|] == dir && path[|dir|] == '/'
    && (forall i :: |dir| < i < |path| ==> path[i] != '/')
    && (exists i :: |dir| < i < |path| && path[i] == '-')
  }

  predicate Laid(path: string) {
    && NoBreak(path)
    && (path == "run.json" || path == "matrix.json" || path == "summary.md" || Below("evidence", path)
        || Below("reproduce", path))
  }

  lemma {:induction false} Joined(dir: string, c: Cell, suffix: string)
    requires PlainId(c.producer) && PlainId(c.consumer) && PlainId(suffix) && NoBreak(dir)
    ensures Below(dir, dir + "/" + CellName(c) + suffix) && NoBreak(dir + "/" + CellName(c) + suffix)
  {
    var path := dir + "/" + CellName(c) + suffix;
    var rest := CellName(c) + suffix;
    assert path == dir + "/" + rest;
    assert rest[|c.producer|] == '-';
    assert path[|dir| + 1 + |c.producer|] == '-';
    forall i | 0 <= i < |rest| ensures rest[i] != '/' && !IsBreak(rest[i]) {
      assert rest[i] in c.producer || rest[i] in c.consumer || rest[i] == '-' || rest[i] in suffix;
    }
    forall i | |dir| < i < |path| ensures path[i] != '/' { assert path[i] == rest[i - |dir| - 1]; }
    forall i | 0 <= i < |path| ensures !IsBreak(path[i]) {
      assert path[i] == if i < |dir| then dir[i] else if i == |dir| then '/' else rest[i - |dir| - 1];
    }
  }

  lemma {:induction false} CellsLaid(c: Cell)
    requires PlainId(c.producer) && PlainId(c.consumer)
    ensures Laid("evidence/" + CellName(c) + ".json")
    ensures Laid("reproduce/" + CellName(c) + ".json") && Laid("reproduce/" + CellName(c) + ".txt")
  {
    Joined("evidence", c, ".json");
    Joined("reproduce", c, ".json");
    Joined("reproduce", c, ".txt");
    assert "evidence" + "/" + CellName(c) + ".json" == "evidence/" + CellName(c) + ".json";
    assert "reproduce" + "/" + CellName(c) + ".json" == "reproduce/" + CellName(c) + ".json";
    assert "reproduce" + "/" + CellName(c) + ".txt" == "reproduce/" + CellName(c) + ".txt";
  }

  lemma {:induction false} WithCellsLaid(files: Files, cells: seq<Cell>)
    requires forall p :: p in files ==> Laid(p)
    requires forall i :: 0 <= i < |cells| ==> PlainId(cells[i].producer) && PlainId(cells[i].consumer)
    ensures forall p :: p in WithCells(files, cells) ==> Laid(p)
  {
    if cells == [] {
    } else {
      WithCellsLaid(files, cells[..|cells| - 1]);
      CellsLaid(cells[|cells| - 1]);
    }
  }

  lemma {:induction false} ContentsLaid(o: Observation)
    requires PlainIds(o)
    ensures forall p :: p in Contents(o) ==> Laid(p)
  {
    WithCellsLaid(map["run.json" := o.run], o.cells);
  }

  lemma {:induction false} LaidNeverClash(p: string, q: string)
    requires Laid(p) && Laid(q)
    ensures !Clash(p, q)
  {
    if n :| 0 <= n < |p| && n < |q| && p[..n] == q[..n] && p[n] == '/' && q[n] < '/' {
      SameDirectory(p, q, n);
    }
  }

  lemma {:induction false} StartsLike(dir: string, path: string)
    requires Below(dir, path) && |dir| >= 2
    ensures path[0] == dir[0] && path[1] == dir[1] && forall k :: 0 <= k < |dir| ==> path[k] == dir[k]
  {
    forall k | 0 <= k < |dir| ensures path[k] == dir[k] { assert path[k] == path[..|dir|][k]; }
  }

  // The first two letters tell where a laid-out path lies.
  lemma {:induction false} FirstLetters(path: string)
    requires Laid(path)
    ensures |path| >= 2
    ensures path[0] == 'e' ==> Below("evidence", path)
    ensures path[0] == 'r' && path[1] == 'e' ==> Below("reproduce", path)
  {
    if Below("evidence", path) { StartsLike("evidence", path); }
    if Below("reproduce", path) { StartsLike("reproduce", path); }
  }

  lemma {:induction false} SlashIsAtEnd(dir: string, path: string, n: nat)
    requires Below(dir, path) && '/' !in dir && |dir| >= 2 && n < |path| && path[n] == '/'
    ensures n == |dir|
  {
    StartsLike(dir, path);
    assert forall k :: 0 <= k < |dir| ==> dir[k] in dir;
  }

  lemma {:induction false} SameDirectory(p: string, q: string, n: nat)
    requires Laid(p) && Laid(q) && n < |p| && n < |q| && p[..n] == q[..n] && p[n] == '/'
    ensures q[n] == '/'
  {
    assert Below("evidence", p) || Below("reproduce", p);
    var dir := if Below("evidence", p) then "evidence" else "reproduce";
    SlashIsAtEnd(dir, p, n);
    StartsLike(dir, p);
    assert q[0] == q[..n][0] == p[..n][0] && q[1] == q[..n][1] == p[..n][1];
    FirstLetters(q);
  }

  // ---- what the layout holds ----

  // The three files of a cell.
  function CellPaths(name: string): (string, string, string) {
    ("evidence/" + name + ".json", "reproduce/" + name + ".json", "reproduce/" + name + ".txt")
  }

  predicate IsOf(p: string, name: string) {
    p == CellPaths(name).0 || p == CellPaths(name).1 || p == CellPaths(name).2
  }

  ghost predicate HoldsCell(files: Files, c: Cell) {
    var (e, r, t) := CellPaths(c.producer + "--" + c.consumer);
    && e in files && files[e] == c.evidence && r in files && files[r] == c.reproduction
    && t in files && files[t] == c.command
  }

  lemma {:induction false} CellPathsEnd(name: string)
    ensures var (e, r, t) := CellPaths(name);
            && e[0] == 'e' && r[0] == 'r' && t[0] == 'r' && r[|r| - 1] == 'n' && t[|t| - 1] == 't'
            && |e| == |name| + 14 && |r| == |name| + 15 && |t| == |name| + 14
            && e[9..|e| - 5] == name && r[10..|r| - 5] == name && t[10..|t| - 4] == name
  {
  }

  lemma {:induction false} CellPathsDiffer(p: string, m: string, n: string)
    requires IsOf(p, m) && IsOf(p, n)
    ensures m == n
  {
    CellPathsEnd(m);
    CellPathsEnd(n);
  }

  lemma {:induction false} OwnPathsDiffer(name: string)
    ensures var (e, r, t) := CellPaths(name); e != r && e != t && r != t
  {
    CellPathsEnd(name);
  }

  lemma {:induction false} CellAdded(files: Files, c: Cell)
    ensures HoldsCell(WithCell(files, c), c)
    ensures forall p :: !IsOf(p, CellName(c)) ==> (p in WithCell(files, c) <==> p in files)
    ensures forall p :: !IsOf(p, CellName(c)) && p in files ==> WithCell(files, c)[p] == files[p]
  {
    OwnPathsDiffer(CellName(c));
  }

  // A cell whose name no later one shares keeps its files.
  ghost predicate Last(cells: seq<Cell>, i: nat)
    requires i < |cells|
  {
    forall j :: i < j < |cells| ==> CellName(cells[j]) != CellName(cells[i])
  }

  lemma {:induction false} CellStays(files: Files, c: Cell, d: Cell)
    requires HoldsCell(files, c) && CellName(c) != CellName(d)
    ensures HoldsCell(WithCell(files, d), c)
  {
    CellAdded(files, d);
    var (e, r, t) := CellPaths(CellName(c));
    forall p | p == e || p == r || p == t ensures !IsOf(p, CellName(d)) {
      if IsOf(p, CellName(d)) { CellPathsDiffer(p, CellName(c), CellName(d)); }
    }
  }

  lemma {:induction false} CellHeld(files: Files, cells: seq<Cell>, i: nat)
    requires i < |cells| && Last(cells, i)
    ensures HoldsCell(WithCells(files, cells), cells[i])
    decreases |cells|
  {
    var n := |cells| - 1;
    if i == n {
      CellAdded(WithCells(files, cells[..n]), cells[n]);
    } else {
      assert Last(cells[..n], i);
      CellHeld(files, cells[..n], i);
      CellStays(WithCells(files, cells[..n]), cells[i], cells[n]);
    }
  }

  lemma {:induction false} OthersHeld(files: Files, cells: seq<Cell>, p: string)
    ensures p in WithCells(files, cells) <==>
              p in files || exists i :: 0 <= i < |cells| && IsOf(p, CellName(cells[i]))
    ensures (forall i :: 0 <= i < |cells| ==> !IsOf(p, CellName(cells[i]))) && p in files ==>
              WithCells(files, cells)[p] == files[p]
  {
    if cells == [] {
    } else {
      var n := |cells| - 1;
      OthersHeld(files, cells[..n], p);
      CellAdded(WithCells(files, cells[..n]), cells[n]);
      assert forall i :: 0 <= i < n ==> cells[..n][i] == cells[i];
    }
  }

  lemma {:induction false} TopNames(name: string)
    ensures !IsOf("run.json", name) && !IsOf("matrix.json", name) && !IsOf("summary.md", name)
  {
    CellPathsEnd(name);
    var (e, r, t) := CellPaths(name);
    assert r[1] == 'e' && t[1] == 'e';
  }

  ghost predicate IsLaidOut(p: string, o: Observation) {
    p == "run.json" || p == "matrix.json" || p == "summary.md"
    || exists i :: 0 <= i < |o.cells| && IsOf(p, CellName(o.cells[i]))
  }

  lemma {:induction false} CellsHeld(o: Observation, p: string)
    ensures var cells := WithCells(map["run.json" := o.run], o.cells);
            && "run.json" in cells && cells["run.json"] == o.run
            && (p in cells <==> p == "run.json" || exists i :: 0 <= i < |o.cells| && IsOf(p, CellName(o.cells[i])))
  {
    var start := map["run.json" := o.run];
    OthersHeld(start, o.cells, p);
    forall i | 0 <= i < |o.cells| ensures !IsOf("run.json", CellName(o.cells[i])) { TopNames(CellName(o.cells[i])); }
    OthersHeld(start, o.cells, "run.json");
  }

  // A built bundle has the run, the matrix, the summary and three files for every cell, and no other.
  lemma {:induction false} LayoutIs(o: Observation, p: string)
    ensures p in Contents(o) <==> IsLaidOut(p, o)
  {
    CellsHeld(o, p);
  }

  // They hold the cell's evidence, reproduction and command, of two cells of one name the later's.
  lemma {:induction false} LayoutHolds(o: Observation, i: nat)
    requires i < |o.cells| && Last(o.cells, i)
    ensures HoldsCell(Contents(o), o.cells[i])
  {
    CellHeld(map["run.json" := o.run], o.cells, i);
    TopNames(CellName(o.cells[i]));
  }

  lemma {:induction false} TopHolds(o: Observation)
    ensures var files := Contents(o);
            && "run.json" in files && files["run.json"] == o.run
            && "matrix.json" in files && files["matrix.json"] == o.matrix
            && "summary.md" in files && files["summary.md"] == o.summary
  {
    CellsHeld(o, "run.json");
  }

  // ---- everything laid out is covered ----

  lemma {:induction false} NameWithoutSlash(path: string)
    requires '/' !in path
    ensures Split(path) == [path]
  {
    if path == "" {
    } else {
      NameWithoutSlash(path[1..]);
      SplitFirst(path);
      assert [path[0]] + path[1..] == path;
      assert Split(path) == [Split(path)[0]] + Split(path)[1..];
    }
  }

  lemma {:induction false} NameBelow(dir: string, name: string)
    requires '/' !in name
    ensures Name(dir + "/" + name) == name
  {
    var path := dir + "/" + name;
    SplitFirst(path);
    if dir == "" {
      assert path[1..] == name;
      NameWithoutSlash(name);
    } else {
      assert path[1..] == dir[1..] + "/" + name;
      NameBelow(dir[1..], name);
      TwoParts(dir[1..], name);
    }
  }

  lemma {:induction false} TwoParts(dir: string, name: string)
    ensures |Split(dir + "/" + name)| >= 2
  {
    var path := dir + "/" + name;
    SplitFirst(path);
    if dir == "" {
      assert path[1..] == name;
    } else {
      assert path[1..] == dir[1..] + "/" + name;
      TwoParts(dir[1..], name);
    }
  }

  // A path ends in this component.
  predicate EndsIn(path: string, name: string) {
    path == name || (|name| < |path| && path[|path| - |name| - 1] == '/' && path[|path| - |name|..] == name)
  }

  lemma {:induction false} LastSlash(path: string) returns (k: nat)
    requires '/' in path
    ensures k < |path| && path[k] == '/' && '/' !in path[k + 1..]
  {
    var n := |path| - 1;
    if path[n] == '/' {
      k := n;
    } else {
      k := LastSlash(path[..n]);
      assert path[k + 1..] == path[..n][k + 1..] + [path[n]];
    }
  }

  lemma {:induction false} NameIsEnd(path: string, name: string)
    requires '/' !in name
    ensures Name(path) == name <==> EndsIn(path, name)
  {
    if '/' !in path {
      NameWithoutSlash(path);
    } else {
      var k := LastSlash(path);
      assert path == path[..k] + "/" + path[k + 1..];
      NameBelow(path[..k], path[k + 1..]);
      if EndsIn(path, name) {
        var dir := path[..|path| - |name| - 1];
        assert path == dir + "/" + name;
        NameBelow(dir, name);
      }
    }
  }

  // Only files named checksums.txt or attestation.json, wherever they lie, are left out of a listing.
  lemma {:induction false} CoveredByName(path: string)
    ensures Covered(path) <==> !EndsIn(path, "checksums.txt") && !EndsIn(path, "attestation.json")
  {
    NameIsEnd(path, "checksums.txt");
    NameIsEnd(path, "attestation.json");
  }

  lemma {:induction false} BelowIsCovered(dir: string, path: string)
    requires Below(dir, path)
    ensures Covered(path)
  {
    var name := path[|dir| + 1..];
    assert path == dir + "/" + name;
    NameBelow(dir, name);
    assert '-' in name;
    NoHyphen();
  }

  lemma {:induction false} NoHyphen()
    ensures '-' !in "checksums.txt" && '-' !in "attestation.json"
  {
  }

  lemma {:induction false} PlainNameCovered(path: string)
    requires '/' !in path && |path| < 13
    ensures Covered(path)
  {
    NameWithoutSlash(path);
    assert |"checksums.txt"| == 13 && |"attestation.json"| == 16;
  }

  lemma {:induction false} LaidIsCovered(path: string)
    requires Laid(path)
    ensures Covered(path)
  {
    if Below("evidence", path) {
      BelowIsCovered("evidence", path);
    } else if Below("reproduce", path) {
      BelowIsCovered("reproduce", path);
    } else {
      PlainNameCovered(path);
    }
  }

  // ---- the theorem ----

  // A bundle built from any observation whose ids have no slash and no line break verifies to the
  // root it was signed with, and that root covers every file of it.
  lemma {:induction false} BuiltBundleVerifies(o: Observation, did: string, hash: Digest, root: RootHash)
    requires GoodDigest(hash) && PlainIds(o)
    ensures Verified(SealedBy(Contents(o), did, hash, root), hash, root)
            == Ok(ComputeRoot(Entries(Contents(o), hash), root))
    ensures forall p :: p in Contents(o) ==> Covered(p)
  {
    ContentsLaid(o);
    forall p, q | p in Contents(o) && q in Contents(o) ensures !Clash(p, q) { LaidNeverClash(p, q); }
    BuildThenVerify(Contents(o), did, hash, root);
    forall p | p in Contents(o) ensures Covered(p) { LaidIsCovered(p); }
  }

  lemma {:induction false} BothEvidenceFiles(o: Observation, c1: Cell, c2: Cell)
    requires o.cells == [c1, c2]
    ensures "evidence/" + CellName(c1) + ".json" in Contents(o) && "evidence/" + CellName(c2) + ".json" in Contents(o)
  {
    var start := map["run.json" := o.run];
    assert o.cells[..1] == [c1] && [c1][..0] == [];
    assert WithCells(start, [c1]) == WithCell(start, c1);
    assert WithCells(start, o.cells) == WithCell(WithCell(start, c1), c2);
  }

  lemma {:induction false} SlashAgainstHyphen(stem: string, p: string, q: string)
    requires p == stem + "/c.json" && q == stem + "-.json"
    ensures Clash(p, q)
  {
    assert p[..|stem|] == stem == q[..|stem|] && p[|stem|] == '/' && q[|stem|] == '-';
  }

  lemma {:induction false} Stems()
    ensures "evidence/" + ("a" + "--" + "b/c") + ".json" == "evidence/a--b" + "/c.json"
    ensures "evidence/" + ("a" + "--" + "b-") + ".json" == "evidence/a--b" + "-.json"
  {
  }

  // Outside that layout it can fail: an id with a slash puts a directory beside a name that
  // starts like it.
  lemma {:induction false} SlashedIdsClash(hash: Digest, root: RootHash, did: string, x: Bytes)
    requires GoodDigest(hash)
    ensures var o := Observation(x, [Cell("a", "b/c", x, x, x), Cell("a", "b-", x, x, x)], x, x);
            HasClash(Contents(o))
  {
    var c1, c2 := Cell("a", "b/c", x, x, x), Cell("a", "b-", x, x, x);
    var stem := "evidence/a--b";
    Stems();
    BothEvidenceFiles(Observation(x, [c1, c2], x, x), c1, c2);
    SlashAgainstHyphen(stem, "evidence/" + CellName(c1) + ".json", "evidence/" + CellName(c2) + ".json");
    CoveredNames();
  }

  lemma {:induction false} CoveredNames()
    ensures Covered("evidence/a--b" + "/c.json") && Covered("evidence/a--b" + "-.json")
  {
    assert "evidence/a--b" + "/c.json" == "evidence/a--b" + "/" + "c.json";
    assert "evidence/a--b" + "-.json" == "evidence" + "/" + "a--b-.json";
    NameBelow("evidence/a--b", "c.json");
    NameBelow("evidence", "a--b-.json");
  }

  // ---- building ----

  class BundleDirectory {
    var files: Files
    var checksums: Option<string>
    var attestation: Option<Attestation>

    constructor ()
      ensures files == map[] && checksums == None && attestation == None
    {
      files, checksums, attestation := map[], None, None;
    }

    // The operating system's walk: any order.
    method Walk() returns (walk: seq<string>)
      ensures Walks(walk, files)
    {
      walk := [];
      var rest := files.Keys;
      while rest != {}
        invariant rest <= files.Keys
        invariant forall p :: p in files ==> p in rest || p in walk
        invariant forall p :: p in walk ==> p !in rest
        invariant forall i, j :: 0 <= i < j < |walk| ==> walk[i] != walk[j]
        decreases rest
      {
        var p :| p in rest;
        walk := walk + [p];
        rest := rest - {p};
      }
    }

    method Build(o: Observation, did: string, hash: Digest, root: RootHash) returns (r: Result<string, string>)
      modifies this
      ensures r.Ok? <==> old(files) == map[] && old(checksums) == None && old(attestation) == None
      ensures r.Err? ==> files == old(files) && checksums == old(checksums) && attestation == old(attestation)
      ensures r.Ok? ==> checksums.Some? && attestation.Some?
                        && Sealed(files, checksums.value, attestation.value) == SealedBy(Contents(o), did, hash, root)
                        && r.value == attestation.value.bundleRoot
    {
      if files != map[] || checksums.Some? || attestation.Some? { return Err("bundle destination must be empty"); }
      files := map["run.json" := o.run];
      for i := 0 to |o.cells|
        invariant files == WithCells(map["run.json" := o.run], o.cells[..i])
        invariant checksums == None && attestation == None
      {
        assert o.cells[..i + 1][..i] == o.cells[..i];
        var name := CellName(o.cells[i]);
        files := files["evidence/" + name + ".json" := o.cells[i].evidence];
        files := files["reproduce/" + name + ".json" := o.cells[i].reproduction];
        files := files["reproduce/" + name + ".txt" := o.cells[i].command];
      }
      assert o.cells[..|o.cells|] == o.cells;
      files := files["matrix.json" := o.matrix];
      files := files["summary.md" := o.summary];
      var walk := Walk();
      var entries := BundleEntries(files, walk, hash);
      checksums := Some(Render(entries));
      var computed := ComputeRoot(entries, root);
      attestation := Some(Attestation(did, computed, Signer.Signature(did, AttestedPayload(computed))));
      return Ok(computed);
    }
  }
}
