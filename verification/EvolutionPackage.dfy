// Evolution packages: the files a candidate is staged as, their listing and signed root, and the
// verification that reads them back (src/rosetta/evolution.py:508-544, 661-735).
module EvolutionPackage {
  import opened Wrappers
  import opened Orders
  import B = Bundle
  import C = Candidate
  import E = Evolution
  import EP = EvolutionPaths
  import S = Signer

  const CHANGES: string := "changes"
  const CANDIDATE: string := "candidate.json"
  const EVALUATION: string := "evaluation.json"
  const LINEAGE: string := "lineage.json"

  // The two files that are about the others are kept apart from them.
  datatype Package = Package(files: B.Files, checksums: string, did: string, root: string, signature: S.Signature)

  predicate IsHex(digest: string) {
    |digest| == 64 && forall i :: 0 <= i < 64 ==> '0' <= digest[i] <= '9' || 'a' <= digest[i] <= 'f'
  }

  ghost predicate HexDigest(hash: B.Digest) {
    forall x :: IsHex(hash(x))
  }

  // ---- staging ----

  function ChangePath(path: string): string {
    CHANGES + "/" + path
  }

  function ChangeFiles(ms: seq<E.Mutation>): B.Files {
    if ms == [] then map[] else ChangeFiles(ms[..|ms| - 1])[ChangePath(ms[|ms| - 1].path) := ms[|ms| - 1].content]
  }

  // The candidate, its evaluation and its lineage as they are written.
  datatype Documents = Documents(candidate: B.Bytes, evaluation: B.Bytes, lineage: B.Bytes)

  function PackageFiles(ds: Documents, ms: seq<E.Mutation>): B.Files {
    map[CANDIDATE := ds.candidate, EVALUATION := ds.evaluation, LINEAGE := ds.lineage] + ChangeFiles(ms)
  }

  function ProposalPayload(root: string): string {
    S.Domain(S.EvolutionProposal) + root
  }

  ghost function Staged(ds: Documents, ms: seq<E.Mutation>, did: string, hash: B.Digest, root: B.RootHash): Package {
    var files := PackageFiles(ds, ms);
    var entries := B.Entries(files, hash);
    var r := B.ComputeRoot(entries, root);
    Package(files, B.Render(entries), did, r, S.Signature(did, ProposalPayload(r)))
  }

  // ---- verification ----

  // The lines that pass their checks, up to the first that does not.
  function Parsed(lines: seq<string>, files: B.Files, hash: B.Digest): Result<seq<B.Entry>, string> {
    if lines == [] then Ok([])
    else match B.SplitOnce(lines[0])
      case None => Err("invalid evolution checksum line")
      case Some((digest, path)) =>
        if !C.SafeRelative(path) then Err("unsafe mutation path")
        else if !IsHex(digest) then Err("invalid evolution checksum digest")
        else if path !in files || hash(files[path]) != digest then Err("evolution checksum mismatch: " + path)
        else After([(path, digest)], Parsed(lines[1..], files, hash))
  }

  predicate Duplicated(entries: seq<B.Entry>) {
    exists i, j :: 0 <= i < j < |entries| && entries[i] == entries[j]
  }

  function ChangePaths(files: B.Files): set<string> {
    set p | p in files && CHANGES + "/" <= p :: p[|CHANGES| + 1..]
  }

  // The files below the package's "changes" directory, and the directories they lie in.
  function Changes(files: B.Files): E.Tree {
    E.Tree(map path | path in ChangePaths(files) && ChangePath(path) in files :: files[ChangePath(path)],
           set path, i | path in ChangePaths(files) && 0 <= i < |path| && path[i] == '/' :: path[..i])
  }

  // What the three documents say once parsed: the candidate's mutations, if evaluation and lineage
  // agree with it.
  type Reading = Documents -> Result<seq<E.Mutation>, string>

  predicate HasDocuments(files: B.Files) {
    CANDIDATE in files && EVALUATION in files && LINEAGE in files
  }

  function DocumentsOf(files: B.Files): Documents
    requires HasDocuments(files)
  {
    Documents(files[CANDIDATE], files[EVALUATION], files[LINEAGE])
  }

  // The documents' mutations, if the change files are theirs.
  function Read(files: B.Files, read: Reading): Result<seq<E.Mutation>, string> {
    if !HasDocuments(files) then Err("document cannot be read")
    else match read(DocumentsOf(files))
      case Err(e) => Err(e)
      case Ok(ms) =>
        match E.VerifiedChanges(Changes(files), ms)
        case Err(e) => Err(e)
        case Ok(_) => Ok(ms)
  }

  // The seal: every file is listed, the listing is in order, and its root is signed.
  ghost function Unsealed(p: Package, hash: B.Digest, root: B.RootHash): Result<string, string> {
    match Parsed(B.SplitLines(p.checksums), p.files, hash)
    case Err(e) => Err(e)
    case Ok(expected) =>
      var actual := B.Entries(p.files, hash);
      var r := B.ComputeRoot(actual, root);
      if Duplicated(expected) then Err("duplicate evolution checksum entry")
      else if actual != Sort(expected, PairLe) then Err("evolution package file set differs from checksums")
      else if p.root != r then Err("evolution root mismatch")
      else if !S.VerifySignature(p.did, ProposalPayload(r), p.signature)
        then Err("invalid evolution proposal attestation")
      else Ok(r)
  }

  ghost function Verified(p: Package, read: Reading, hash: B.Digest, root: B.RootHash): Result<string, string> {
    match Unsealed(p, hash, root)
    case Err(e) => Err(e)
    case Ok(r) =>
      match Read(p.files, read)
      case Err(e) => Err(e)
      case Ok(_) => Ok(r)
  }

  // ---- the paths of a package ----

  lemma {:induction false} ChangeSplit(path: string)
    ensures Split(ChangePath(path)) == [CHANGES] + Split(path)
  {
    C.SplitAfter(CHANGES, path);
    SplitOfName(CHANGES);
  }

  lemma {:induction false} ChangeCovered(path: string)
    ensures B.Covered(ChangePath(path)) <==> B.Covered(path)
  {
    ChangeSplit(path);
  }

  lemma {:induction false} ChangeIsSafe(path: string)
    requires C.SafeRelative(path)
    ensures C.SafeRelative(ChangePath(path))
  {
    ChangeSplit(path);
    C.SafeIsProper(path);
    C.SafeIsProper(ChangePath(path));
    var parts := Split(ChangePath(path));
    assert forall i :: 0 < i < |parts| ==> parts[i] == Split(path)[i - 1];
  }

  lemma {:induction false} SplitOfName(name: string)
    requires '/' !in name
    ensures Split(name) == [name]
  {
    if name == "" {
    } else {
      assert name[0] in name && [name[0]] + name[1..] == name;
      SplitOfName(name[1..]);
    }
  }

  lemma {:induction false} NameIsSafe(name: string)
    requires '/' !in name && '\\' !in name && |name| > 2
    ensures C.SafeRelative(name) && Split(name) == [name]
  {
    SplitOfName(name);
    C.SafeIsProper(name);
  }

  predicate IsDocument(path: string) {
    path == CANDIDATE || path == EVALUATION || path == LINEAGE
  }

  predicate IsChange(ms: seq<E.Mutation>, path: string) {
    exists i :: 0 <= i < |ms| && path == ChangePath(ms[i].path)
  }

  lemma {:induction false} ChangeFilesAre(ms: seq<E.Mutation>, path: string)
    ensures path in ChangeFiles(ms) <==> IsChange(ms, path)
  {
    if ms == [] {
    } else {
      var front := ms[..|ms| - 1];
      ChangeFilesAre(front, path);
      if i :| 0 <= i < |front| && path == ChangePath(front[i].path) { assert path == ChangePath(ms[i].path); }
      if i :| 0 <= i < |ms| && path == ChangePath(ms[i].path) {
        assert i < |front| ==> path == ChangePath(front[i].path);
      }
    }
  }

  lemma {:induction false} PackageFilesAre(ds: Documents, ms: seq<E.Mutation>, path: string)
    ensures path in PackageFiles(ds, ms) <==> IsDocument(path) || IsChange(ms, path)
  {
    ChangeFilesAre(ms, path);
  }

  lemma {:induction false} ChangesHolds(files: B.Files, path: string)
    ensures path in Changes(files).files <==> ChangePath(path) in files
    ensures ChangePath(path) in files ==> Changes(files).files[path] == files[ChangePath(path)]
    ensures path in ChangePaths(files) <==> ChangePath(path) in files
  {
    var p := ChangePath(path);
    assert p[|CHANGES| + 1..] == path && CHANGES + "/" <= p;
    if path in ChangePaths(files) {
      var q :| q in files && CHANGES + "/" <= q && path == q[|CHANGES| + 1..];
      assert q == CHANGES + "/" + q[|CHANGES| + 1..];
    }
  }

  lemma {:induction false} DirOfChange(files: B.Files, dir: string) returns (q: string)
    requires dir in Changes(files).dirs
    ensures q in files && ChangePath(dir) in E.Parents(q)
  {
    var path, i :| path in ChangePaths(files) && 0 <= i < |path| && path[i] == '/' && dir == path[..i];
    ChangesHolds(files, path);
    q := ChangePath(path);
    var n := |CHANGES| + 1 + i;
    assert q[n] == '/' && q[..n] == ChangePath(dir);
  }

  // If no file of a package lies inside another, its changes are a tree.
  lemma {:induction false} ChangesAreTree(files: B.Files)
    requires forall p, q :: p in files && q in files ==> p !in E.Parents(q)
    ensures E.IsTree(Changes(files).files, Changes(files).dirs)
  {
    var t := Changes(files);
    forall path | path in t.files ensures path !in t.dirs && E.Parents(path) <= t.dirs {
      ChangesHolds(files, path);
      if path in t.dirs { var q := DirOfChange(files, path); }
    }
  }

  // ---- clashes ----

  lemma {:induction false} PrefixedClash(x: string, p: string, q: string)
    ensures Clash(x + p, x + q) <==> Clash(p, q)
  {
    if x == "" {
      assert x + p == p && x + q == q;
    } else {
      ClashFromFirst(x + p, x + q);
      assert (x + p)[1..] == x[1..] + p && (x + q)[1..] == x[1..] + q;
      PrefixedClash(x[1..], p, q);
    }
  }

  lemma {:induction false} DocumentsHaveNoSlash(path: string)
    requires IsDocument(path)
    ensures '/' !in path && 12 <= |path| < 16 && |path| != 13 && path[1] != 'h'
  {
  }

  lemma {:induction false} ClashIsOfChanges(p: string, q: string)
    requires Clash(p, q) && (IsDocument(p) || CHANGES + "/" <= p)
    ensures !IsDocument(p) && !IsDocument(q)
  {
    var n :| 0 <= n < |p| && n < |q| && p[..n] == q[..n] && p[n] == '/' && q[n] < '/';
    assert p[n] in p;
    if IsDocument(p) { DocumentsHaveNoSlash(p); }
    assert CHANGES + "/" <= p && p[0] == CHANGES[0] && p[1] == CHANGES[1];
    assert n > 1 && q[..n][1] == p[..n][1];
    if IsDocument(q) { DocumentsHaveNoSlash(q); }
  }

  // Two covered mutated paths whose path order and string order differ.
  ghost predicate MutationsClash(ms: seq<E.Mutation>) {
    exists i, j :: 0 <= i < |ms| && 0 <= j < |ms| && B.Covered(ms[i].path) && B.Covered(ms[j].path)
                   && Clash(ms[i].path, ms[j].path)
  }

  lemma {:induction false} ClashIsOfMutations(ds: Documents, ms: seq<E.Mutation>)
    ensures B.HasClash(PackageFiles(ds, ms)) <==> MutationsClash(ms)
  {
    var files := PackageFiles(ds, ms);
    if MutationsClash(ms) {
      var i, j :| 0 <= i < |ms| && 0 <= j < |ms| && B.Covered(ms[i].path) && B.Covered(ms[j].path)
                  && Clash(ms[i].path, ms[j].path);
      var p, q := ChangePath(ms[i].path), ChangePath(ms[j].path);
      ChangeCovered(ms[i].path);
      ChangeCovered(ms[j].path);
      PackageFilesAre(ds, ms, p);
      PackageFilesAre(ds, ms, q);
      PrefixedClash(CHANGES + "/", ms[i].path, ms[j].path);
      assert p in files && q in files && B.Covered(p) && B.Covered(q) && Clash(p, q);
    }
    if B.HasClash(files) {
      var p, q :| p in files && q in files && B.Covered(p) && B.Covered(q) && Clash(p, q);
      PackageFilesAre(ds, ms, p);
      PackageFilesAre(ds, ms, q);
      ClashIsOfChanges(p, q);
      var i :| 0 <= i < |ms| && p == ChangePath(ms[i].path);
      var j :| 0 <= j < |ms| && q == ChangePath(ms[j].path);
      ChangeCovered(ms[i].path);
      ChangeCovered(ms[j].path);
      PrefixedClash(CHANGES + "/", ms[i].path, ms[j].path);
    }
  }

  // ---- reading the checksums back ----

  ghost predicate Readable(e: B.Entry, files: B.Files, hash: B.Digest) {
    e.0 in files && B.NoBreak(e.0) && C.SafeRelative(e.0) && e.1 == hash(files[e.0])
  }

  lemma {:induction false} HexIsPlain(digest: string)
    requires IsHex(digest)
    ensures ' ' !in digest && B.NoBreak(digest)
  {
  }

  lemma {:induction false} LineIsPlain(digest: string, path: string)
    requires IsHex(digest) && B.NoBreak(path)
    ensures B.NoBreak(B.Line((path, digest))) && B.SplitOnce(B.Line((path, digest))) == Some((digest, path))
  {
    HexIsPlain(digest);
    B.SplitOnceAt(digest, path);
  }

  lemma {:induction false} FirstParsed(e: B.Entry, text: string, files: B.Files, hash: B.Digest)
    requires HexDigest(hash) && Readable(e, files, hash)
    ensures Parsed(B.SplitLines(B.Line(e) + "\n" + text), files, hash)
            == After([e], Parsed(B.SplitLines(text), files, hash))
  {
    LineIsPlain(e.1, e.0);
    B.SplitLinesFirst(B.Line(e), text);
    assert ([B.Line(e)] + B.SplitLines(text))[1..] == B.SplitLines(text);
  }

  lemma {:induction false} ParseRender(entries: seq<B.Entry>, files: B.Files, hash: B.Digest)
    requires HexDigest(hash) && forall i :: 0 <= i < |entries| ==> Readable(entries[i], files, hash)
    ensures Parsed(B.SplitLines(B.Render(entries)), files, hash) == Ok(entries)
  {
    if entries == [] {
    } else {
      FirstParsed(entries[0], B.Render(entries[1..]), files, hash);
      ParseRender(entries[1..], files, hash);
      assert entries == [entries[0]] + entries[1..];
    }
  }

  lemma {:induction false} ParsedHasNoBreak(lines: seq<string>, files: B.Files, hash: B.Digest)
    requires (forall i :: 0 <= i < |lines| ==> B.NoBreak(lines[i])) && Parsed(lines, files, hash).Ok?
    ensures forall e :: e in Parsed(lines, files, hash).value ==> B.NoBreak(e.0)
  {
    if lines == [] {
    } else {
      B.SplitKeepsNoBreak(lines[0]);
      ParsedHasNoBreak(lines[1..], files, hash);
    }
  }

  // ---- stage, then verify ----

  lemma {:induction false} AcceptedHasNoBreak(p: Package, hash: B.Digest, root: B.RootHash, path: string)
    requires Unsealed(p, hash, root).Ok? && path in p.files && B.Covered(path)
    ensures B.NoBreak(path)
  {
    var expected := Parsed(B.SplitLines(p.checksums), p.files, hash).value;
    B.LinesHaveNoBreak(p.checksums);
    ParsedHasNoBreak(B.SplitLines(p.checksums), p.files, hash);
    PairLeIsTotalOrder();
    SortSorts(expected, PairLe);
    SameItems(Sort(expected, PairLe), expected);
    assert (path, hash(p.files[path])) in B.Entries(p.files, hash);
  }

  lemma {:induction false} ListedOnce(files: B.Files, hash: B.Digest)
    ensures !Duplicated(B.Entries(files, hash))
  {
    var es := B.Entries(files, hash);
    assert forall i, j :: 0 <= i < j < |es| ==> es[i].0 != es[j].0;
  }

  lemma {:induction false} ListedIsReadable(ds: Documents, ms: seq<E.Mutation>, hash: B.Digest)
    requires forall i :: 0 <= i < |ms| ==> C.SafeRelative(ms[i].path)
    requires forall i :: 0 <= i < |ms| && B.Covered(ms[i].path) ==> B.NoBreak(ms[i].path)
    ensures var es := B.Entries(PackageFiles(ds, ms), hash);
            forall i :: 0 <= i < |es| ==> Readable(es[i], PackageFiles(ds, ms), hash)
  {
    var files := PackageFiles(ds, ms);
    var es := B.Entries(files, hash);
    forall i | 0 <= i < |es| ensures Readable(es[i], files, hash) {
      assert es[i].0 in files && B.Covered(es[i].0) && es[i].1 == hash(files[es[i].0]);
      PackagePathReadable(ds, ms, es[i].0);
    }
  }

  lemma {:induction false} ChangeIsReadable(path: string)
    requires C.SafeRelative(path) && (B.Covered(path) ==> B.NoBreak(path)) && B.Covered(ChangePath(path))
    ensures B.NoBreak(ChangePath(path)) && C.SafeRelative(ChangePath(path))
  {
    ChangeCovered(path);
    ChangeIsSafe(path);
  }

  lemma {:induction false} DocumentsArePlain(path: string)
    requires IsDocument(path)
    ensures B.NoBreak(path) && '\\' !in path
  {
  }

  lemma {:induction false} DocumentIsReadable(path: string)
    requires IsDocument(path)
    ensures B.NoBreak(path) && C.SafeRelative(path)
  {
    DocumentsArePlain(path);
    DocumentsHaveNoSlash(path);
    NameIsSafe(path);
  }

  lemma {:induction false} PackagePathReadable(ds: Documents, ms: seq<E.Mutation>, path: string)
    requires path in PackageFiles(ds, ms) && B.Covered(path)
    requires forall i :: 0 <= i < |ms| ==> C.SafeRelative(ms[i].path)
    requires forall i :: 0 <= i < |ms| && B.Covered(ms[i].path) ==> B.NoBreak(ms[i].path)
    ensures B.NoBreak(path) && C.SafeRelative(path)
  {
    PackageFilesAre(ds, ms, path);
    if IsDocument(path) {
      DocumentIsReadable(path);
    } else {
      var i :| 0 <= i < |ms| && path == ChangePath(ms[i].path);
      ChangeIsReadable(ms[i].path);
    }
  }

  lemma {:induction false} ChangeFileContent(ms: seq<E.Mutation>, i: nat)
    requires i < |ms| && forall j, k :: 0 <= j < k < |ms| ==> ms[j].path != ms[k].path
    ensures ChangePath(ms[i].path) in ChangeFiles(ms) && ChangeFiles(ms)[ChangePath(ms[i].path)] == ms[i].content
    decreases |ms|
  {
    var last := ms[|ms| - 1];
    if i == |ms| - 1 {
    } else {
      ChangeFileContent(ms[..|ms| - 1], i);
      assert ms[i].path != last.path;
      assert ChangePath(ms[i].path)[|CHANGES| + 1..] == ms[i].path
        && ChangePath(last.path)[|CHANGES| + 1..] == last.path;
    }
  }

  // What is staged is exactly what the candidate asks for.
  lemma {:induction false} StagedChanges(ds: Documents, ms: seq<E.Mutation>)
    requires forall i, j :: 0 <= i < j < |ms| ==> ms[i].path != ms[j].path
    ensures E.VerifiedChanges(Changes(PackageFiles(ds, ms)), ms).Ok?
  {
    var files := PackageFiles(ds, ms);
    var changes := Changes(files);
    forall i | 0 <= i < |ms| ensures ms[i].path in changes.files && changes.files[ms[i].path] == ms[i].content {
      ChangeFileContent(ms, i);
      ChangesHolds(files, ms[i].path);
    }
    forall p | p in changes.files ensures exists i :: 0 <= i < |ms| && ms[i].path == p {
      ChangesHolds(files, p);
      PackageFilesAre(ds, ms, ChangePath(p));
      assert '/' in ChangePath(p) by { assert ChangePath(p)[|CHANGES|] == '/'; }
      if IsDocument(ChangePath(p)) { DocumentsHaveNoSlash(ChangePath(p)); }
      var i :| 0 <= i < |ms| && ChangePath(p) == ChangePath(ms[i].path);
      assert ChangePath(p)[|CHANGES| + 1..] == p && ChangePath(ms[i].path)[|CHANGES| + 1..] == ms[i].path;
    }
    EP.VerifiedExactly(changes, ms);
  }

  // No line break in a covered mutated path.
  ghost predicate NoBreaks(ms: seq<E.Mutation>) {
    forall i :: 0 <= i < |ms| && B.Covered(ms[i].path) ==> B.NoBreak(ms[i].path)
  }

  lemma {:induction false} StagedIsRead(ds: Documents, ms: seq<E.Mutation>, did: string, hash: B.Digest,
                                        root: B.RootHash)
    requires HexDigest(hash) && NoBreaks(ms) && forall i :: 0 <= i < |ms| ==> C.SafeRelative(ms[i].path)
    ensures var p := Staged(ds, ms, did, hash, root);
            Parsed(B.SplitLines(p.checksums), p.files, hash) == Ok(B.Entries(p.files, hash))
  {
    ListedIsReadable(ds, ms, hash);
    ParseRender(B.Entries(PackageFiles(ds, ms), hash), PackageFiles(ds, ms), hash);
  }

  // A package that reads back as its own listing is unsealed exactly if that was in order.
  lemma {:induction false} ReadBackUnseals(p: Package, hash: B.Digest, root: B.RootHash)
    requires Parsed(B.SplitLines(p.checksums), p.files, hash) == Ok(B.Entries(p.files, hash))
    requires p.root == B.ComputeRoot(B.Entries(p.files, hash), root)
    requires S.VerifySignature(p.did, ProposalPayload(p.root), p.signature)
    ensures Unsealed(p, hash, root) ==
            if B.HasClash(p.files) then Err("evolution package file set differs from checksums") else Ok(p.root)
  {
    ListedOnce(p.files, hash);
    PairLeIsTotalOrder();
    SortFixes(B.Entries(p.files, hash), PairLe);
    B.ListingSortedIffNoClash(p.files, hash);
  }

  lemma {:induction false} ChangeHasSlash(path: string)
    ensures '/' in ChangePath(path)
  {
    assert ChangePath(path)[|CHANGES|] == '/';
  }

  lemma {:induction false} DocumentsStay(ds: Documents, ms: seq<E.Mutation>)
    ensures HasDocuments(PackageFiles(ds, ms)) && DocumentsOf(PackageFiles(ds, ms)) == ds
  {
    forall path | IsDocument(path) ensures path !in ChangeFiles(ms) {
      DocumentsHaveNoSlash(path);
      ChangeFilesAre(ms, path);
      forall i | 0 <= i < |ms| ensures path != ChangePath(ms[i].path) { ChangeHasSlash(ms[i].path); }
    }
  }

  lemma {:induction false} StagedReads(ds: Documents, ms: seq<E.Mutation>, read: Reading)
    requires read(ds) == Ok(ms) && forall i, j :: 0 <= i < j < |ms| ==> ms[i].path != ms[j].path
    ensures Read(PackageFiles(ds, ms), read) == Ok(ms)
  {
    DocumentsStay(ds, ms);
    StagedChanges(ds, ms);
  }

  lemma {:induction false} StagedInOrder(ds: Documents, ms: seq<E.Mutation>, read: Reading, did: string,
                                         hash: B.Digest, root: B.RootHash)
    requires HexDigest(hash) && NoBreaks(ms) && forall i :: 0 <= i < |ms| ==> C.SafeRelative(ms[i].path)
    requires read(ds) == Ok(ms) && forall i, j :: 0 <= i < j < |ms| ==> ms[i].path != ms[j].path
    ensures var p := Staged(ds, ms, did, hash, root);
            Verified(p, read, hash, root) ==
            if MutationsClash(ms) then Err("evolution package file set differs from checksums") else Ok(p.root)
  {
    StagedIsRead(ds, ms, did, hash, root);
    StagedReads(ds, ms, read);
    ReadBackUnseals(Staged(ds, ms, did, hash, root), hash, root);
    ClashIsOfMutations(ds, ms);
  }

  lemma {:induction false} NoBreakBelow(path: string)
    requires B.NoBreak(ChangePath(path))
    ensures B.NoBreak(path)
  {
    assert forall k :: 0 <= k < |path| ==> path[k] == ChangePath(path)[|CHANGES| + 1 + k];
  }

  lemma {:induction false} StagedNeedsNoBreaks(ds: Documents, ms: seq<E.Mutation>, did: string, hash: B.Digest,
                                               root: B.RootHash)
    requires Unsealed(Staged(ds, ms, did, hash, root), hash, root).Ok?
    ensures NoBreaks(ms)
  {
    forall i | 0 <= i < |ms| && B.Covered(ms[i].path) ensures B.NoBreak(ms[i].path) {
      PackageFilesAre(ds, ms, ChangePath(ms[i].path));
      ChangeCovered(ms[i].path);
      AcceptedHasNoBreak(Staged(ds, ms, did, hash, root), hash, root, ChangePath(ms[i].path));
      NoBreakBelow(ms[i].path);
    }
  }

  // A candidate's package, if its documents read back as they were written, verifies to its own root
  // exactly if no covered path has a line break and no two of them clash; of clashing ones it is said
  // that the file set differs. (Mutations with a path inside another are never staged, since the
  // second of the two cannot be written; of them this says more than is needed.)
  lemma {:induction false} StageThenVerify(ds: Documents, ms: seq<E.Mutation>, read: Reading, did: string,
                                           hash: B.Digest, root: B.RootHash)
    requires HexDigest(hash) && forall i :: 0 <= i < |ms| ==> C.SafeRelative(ms[i].path)
    requires read(ds) == Ok(ms) && forall i, j :: 0 <= i < j < |ms| ==> ms[i].path != ms[j].path
    ensures var p := Staged(ds, ms, did, hash, root);
            var r := Verified(p, read, hash, root);
            && (r.Ok? <==> NoBreaks(ms) && !MutationsClash(ms))
            && (r.Ok? ==> r.value == p.root)
            && (NoBreaks(ms) && MutationsClash(ms) ==> r == Err("evolution package file set differs from checksums"))
  {
    if NoBreaks(ms) {
      StagedInOrder(ds, ms, read, did, hash, root);
    } else if Verified(Staged(ds, ms, did, hash, root), read, hash, root).Ok? {
      StagedNeedsNoBreaks(ds, ms, did, hash, root);
    }
  }

  // ---- what a root binds ----

  lemma {:induction false} DocumentIsCovered(path: string)
    requires IsDocument(path)
    ensures B.Covered(path)
  {
    DocumentsHaveNoSlash(path);
    NameIsSafe(path);
    LongNameIsCovered(path);
  }

  lemma {:induction false} LongNameIsCovered(name: string)
    requires Split(name) == [name] && |name| != 13 && |name| != 16
    ensures B.Covered(name)
  {
  }

  // The same covered files.
  ghost predicate SameCovered(a: B.Files, b: B.Files) {
    && (forall p :: B.Covered(p) ==> (p in a <==> p in b))
    && (forall p :: B.Covered(p) && p in a && p in b ==> a[p] == b[p])
  }

  lemma {:induction false} SameFile(a: B.Files, b: B.Files, path: string)
    requires SameCovered(a, b) && B.Covered(path) && path in a
    ensures path in b && b[path] == a[path]
  {
  }

  lemma {:induction false} DocumentsAreCovered(a: B.Files, b: B.Files)
    requires SameCovered(a, b) && HasDocuments(a)
    ensures HasDocuments(b) && DocumentsOf(a) == DocumentsOf(b)
  {
    forall path | IsDocument(path) ensures path in b && b[path] == a[path] {
      DocumentIsCovered(path);
      SameFile(a, b, path);
    }
  }

  lemma {:induction false} SameChangeFiles(a: B.Files, b: B.Files)
    requires Changes(a).files == Changes(b).files
    ensures ChangePaths(a) == ChangePaths(b)
  {
    forall p ensures p in ChangePaths(a) <==> p in ChangePaths(b) {
      ChangesHolds(a, p);
      ChangesHolds(b, p);
    }
  }

  // The mutations' contents under their paths, and no other file.
  ghost predicate AreTheirs(changes: map<string, B.Bytes>, ms: seq<E.Mutation>) {
    && (forall i :: 0 <= i < |ms| ==> ms[i].path in changes && changes[ms[i].path] == ms[i].content)
    && (forall p :: p in changes ==> exists i :: 0 <= i < |ms| && ms[i].path == p)
  }

  lemma {:induction false} VerifiedIsTheirs(files: B.Files, ms: seq<E.Mutation>)
    requires E.VerifiedChanges(Changes(files), ms).Ok?
    ensures AreTheirs(Changes(files).files, ms)
  {
    EP.VerifiedExactly(Changes(files), ms);
  }

  lemma {:induction false} SameMutationsSameFiles(a: map<string, B.Bytes>, b: map<string, B.Bytes>,
                                                  ms: seq<E.Mutation>)
    requires AreTheirs(a, ms) && AreTheirs(b, ms)
    ensures a == b
  {
    forall p
      ensures p in a <==> p in b
      ensures p in a && p in b ==> a[p] == b[p]
    {
      if p in a { var i :| 0 <= i < |ms| && ms[i].path == p; }
      if p in b { var i :| 0 <= i < |ms| && ms[i].path == p; }
    }
  }

  lemma {:induction false} ReadDeterminesChanges(a: B.Files, b: B.Files, read: Reading)
    requires Read(a, read).Ok? && Read(a, read) == Read(b, read)
    ensures Changes(a) == Changes(b)
  {
    var ms := Read(a, read).value;
    VerifiedIsTheirs(a, ms);
    VerifiedIsTheirs(b, ms);
    SameMutationsSameFiles(Changes(a).files, Changes(b).files, ms);
    SameChangeFiles(a, b);
  }

  lemma {:induction false} UnsealedRoot(p: Package, hash: B.Digest, root: B.RootHash)
    requires Unsealed(p, hash, root).Ok?
    ensures Unsealed(p, hash, root).value == B.ComputeRoot(B.Entries(p.files, hash), root)
  {
  }

  lemma {:induction false} VerifiedParts(p: Package, read: Reading, hash: B.Digest, root: B.RootHash)
    requires Verified(p, read, hash, root).Ok?
    ensures Unsealed(p, hash, root) == Verified(p, read, hash, root) && Read(p.files, read).Ok? && HasDocuments(p.files)
  {
  }

  lemma {:induction false} SameDocumentsReadAlike(a: B.Files, b: B.Files, read: Reading)
    requires HasDocuments(a) && HasDocuments(b) && DocumentsOf(a) == DocumentsOf(b)
    requires Read(a, read).Ok? && Read(b, read).Ok?
    ensures Read(a, read) == Read(b, read)
  {
  }

  // Two packages that verify to one root have the same documents and the same change files, byte for
  // byte, even those whose names the checksums leave out.
  lemma {:induction false} RootDeterminesPackage(a: Package, b: Package, read: Reading, hash: B.Digest,
                                                 root: B.RootHash)
    requires (forall x, y :: hash(x) == hash(y) ==> x == y) && B.Injective(root)
    requires Verified(a, read, hash, root).Ok? && Verified(a, read, hash, root) == Verified(b, read, hash, root)
    ensures HasDocuments(a.files) && HasDocuments(b.files) && DocumentsOf(a.files) == DocumentsOf(b.files)
    ensures Read(a.files, read) == Read(b.files, read) && Changes(a.files) == Changes(b.files)
  {
    VerifiedParts(a, read, hash, root);
    VerifiedParts(b, read, hash, root);
    UnsealedRoot(a, hash, root);
    UnsealedRoot(b, hash, root);
    B.OneRootOneListing(a.files, b.files, hash, root);
    assert SameCovered(a.files, b.files);
    DocumentsAreCovered(a.files, b.files);
    SameDocumentsReadAlike(a.files, b.files, read);
    ReadDeterminesChanges(a.files, b.files, read);
  }

  // Promotion of a package under an approval of its root and documents.
  ghost function PromotedPackage(d: E.Disk, p: Package, read: Reading, hash: B.Digest, root: B.RootHash,
                                 contents: E.Hash, approve: (string, Documents) -> Result<(), string>, steps: nat)
    : (E.Disk, E.End)
  {
    match Verified(p, read, hash, root)
    case Err(e) => (d, E.Refused(e))
    case Ok(r) =>
      E.Promoted(d, Changes(p.files), Read(p.files, read).value, contents,
                 E.Verdicts(Ok(()), approve(r, DocumentsOf(p.files))), steps)
  }

  // An approved root binds what is written: whatever package verifies to it, promotion does the same
  // to every disk, up to every cut.
  lemma {:induction false} ApprovedRootBinds(a: Package, b: Package, read: Reading, hash: B.Digest, root: B.RootHash,
                                             contents: E.Hash, approve: (string, Documents) -> Result<(), string>,
                                             d: E.Disk, steps: nat)
    requires (forall x, y :: hash(x) == hash(y) ==> x == y) && B.Injective(root)
    requires Verified(a, read, hash, root).Ok? && Verified(a, read, hash, root) == Verified(b, read, hash, root)
    ensures PromotedPackage(d, a, read, hash, root, contents, approve, steps)
         == PromotedPackage(d, b, read, hash, root, contents, approve, steps)
  {
    RootDeterminesPackage(a, b, read, hash, root);
  }

  // Such a candidate: a file beside a directory of its name.
  function FileAndDirectory(dir: string, name: string, x: B.Bytes, y: B.Bytes): seq<E.Mutation> {
    [E.Mutation(dir + "/" + name, true, None, x), E.Mutation(dir + ".md", true, None, y)]
  }

  lemma {:induction false} FileBesideDirectory(dir: string, name: string, x: B.Bytes, y: B.Bytes)
    requires B.Covered(dir + "/" + name) && B.Covered(dir + ".md")
    ensures dir + "/" + name != dir + ".md" && MutationsClash(FileAndDirectory(dir, name, x, y))
  {
    var ms := FileAndDirectory(dir, name, x, y);
    var p, q := ms[0].path, ms[1].path;
    assert p[..|dir|] == q[..|dir|] == dir && p[|dir|] == '/' && q[|dir|] == '.';
    assert Clash(p, q);
  }

  // Paths a candidate may have, covered and without a line break.
  predicate Ordinary(path: string) {
    C.SafeRelative(path) && B.Covered(path) && B.NoBreak(path)
  }

  lemma {:induction false} FileAndDirectoryIsCandidate(dir: string, name: string, x: B.Bytes, y: B.Bytes)
    requires Ordinary(dir + "/" + name) && Ordinary(dir + ".md")
    ensures var ms := FileAndDirectory(dir, name, x, y);
            && NoBreaks(ms) && MutationsClash(ms) && (forall i :: 0 <= i < |ms| ==> C.SafeRelative(ms[i].path))
            && forall i, j :: 0 <= i < j < |ms| ==> ms[i].path != ms[j].path
  {
    FileBesideDirectory(dir, name, x, y);
  }

  // The package of such a candidate is refused.
  lemma {:induction false} RefusedPackage(ds: Documents, read: Reading, did: string, hash: B.Digest, root: B.RootHash,
                                          dir: string, name: string, x: B.Bytes, y: B.Bytes)
    requires HexDigest(hash) && Ordinary(dir + "/" + name) && Ordinary(dir + ".md")
    requires read(ds) == Ok(FileAndDirectory(dir, name, x, y))
    ensures Verified(Staged(ds, FileAndDirectory(dir, name, x, y), did, hash, root), read, hash, root)
         == Err("evolution package file set differs from checksums")
  {
    FileAndDirectoryIsCandidate(dir, name, x, y);
    StagedInOrder(ds, FileAndDirectory(dir, name, x, y), read, did, hash, root);
  }

  const DIR: string := "docs" + "/" + "a"
  const NAME: string := "x.md"

  lemma {:induction false} NamesAreProper()
    ensures Split(DIR + "/" + NAME) == ["docs", "a", NAME] && Split(DIR + ".md") == ["docs", "a.md"]
  {
    C.SplitAfter("docs", "a");
    C.SplitAfter(DIR, NAME);
    assert "a" + ".md" == "a.md";
    assert DIR + ".md" == "docs" + "/" + "a.md";
    C.SplitAfter("docs", "a.md");
    SplitOfName("docs");
    SplitOfName("a");
    SplitOfName(NAME);
    SplitOfName("a.md");
  }

  lemma {:induction false} NamesArePlain()
    ensures B.NoBreak(DIR + "/" + NAME) && B.NoBreak(DIR + ".md")
    ensures '\\' !in DIR + "/" + NAME && '\\' !in DIR + ".md"
  {
  }

  // "docs/a/x.md" and "docs/a.md" are such paths.
  lemma {:induction false} WitnessIsOrdinary()
    ensures Ordinary(DIR + "/" + NAME) && Ordinary(DIR + ".md")
  {
    NamesAreProper();
    NamesArePlain();
    C.SafeIsProper(DIR + "/" + NAME);
    C.SafeIsProper(DIR + ".md");
  }
}
