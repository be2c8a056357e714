// Exactly which evidence bundles and evolution packages are accepted: their checksums list the covered
// files, and the root of the listing is attested (src/rosetta/evidence.py:129-147,
// src/rosetta/evolution.py:661-700).
module SealAcceptance {
  import opened Wrappers
  import opened Orders
  import opened Bundle
  import C = Candidate
  import E = Evolution
  import P = EvolutionPackage
  import EvolutionPaths
  import EvolutionRefusals
  import Signer

  const ARTIFACT_DOMAIN: string := "rosetta.artifact.v1\0"
  const PROPOSAL_DOMAIN: string := "rosetta.evolution-proposal.v1\0"

  function Lines(es: seq<Entry>): (lines: seq<string>)
    ensures |lines| == |es| && forall i :: 0 <= i < |es| ==> lines[i] == es[i].1 + "  " + es[i].0
  {
    seq(|es|, i requires 0 <= i < |es| => Line(es[i]))
  }

  // The checksum file has one line for every covered file, its digest and its path, and no other.
  ghost predicate ListsCovered(checksums: string, files: Files, hash: Digest) {
    exists es: seq<Entry> :: Lines(es) == SplitLines(checksums) && multiset(es) == multiset(Entries(files, hash))
  }

  // ---- reading lines ----

  lemma {:induction false} SplitJoins(line: string)
    requires SplitOnce(line).Some?
    ensures line == SplitOnce(line).value.0 + "  " + SplitOnce(line).value.1
  {
    if line[0] == ' ' && line[1] == ' ' {
    } else {
      SplitJoins(line[1..]);
      assert line == [line[0]] + line[1..];
    }
  }

  ghost predicate NoSpace(hash: Digest) {
    forall x :: ' ' !in hash(x)
  }

  ghost predicate OfFile(e: Entry, files: Files, hash: Digest) {
    e.0 in files && e.1 == hash(files[e.0])
  }

  lemma {:induction false} ParsedLines(es: seq<Entry>, files: Files, hash: Digest)
    requires NoSpace(hash) && forall i :: 0 <= i < |es| ==> OfFile(es[i], files, hash)
    ensures Parsed(Lines(es), files, hash) == Ok(es)
  {
    if es == [] {
    } else {
      assert OfFile(es[0], files, hash);
      SplitOnceAt(es[0].1, es[0].0);
      ParsedLines(es[1..], files, hash);
      assert Lines(es)[1..] == Lines(es[1..]);
      assert [es[0]] + es[1..] == es;
    }
  }

  lemma {:induction false} LinesParsed(lines: seq<string>, files: Files, hash: Digest)
    requires Parsed(lines, files, hash).Ok?
    ensures Lines(Parsed(lines, files, hash).value) == lines
  {
    if lines == [] {
    } else {
      SplitJoins(lines[0]);
      LinesParsed(lines[1..], files, hash);
      assert lines == [lines[0]] + lines[1..];
    }
  }

  // The line is some file's digest and path.
  ghost predicate IsLineOf(line: string, files: Files, hash: Digest) {
    exists p :: p in files && line == hash(files[p]) + "  " + p
  }

  lemma {:induction false} LineIsRead(line: string, files: Files, hash: Digest)
    requires NoSpace(hash)
    ensures IsLineOf(line, files, hash) <==>
              SplitOnce(line).Some? && OfFile((SplitOnce(line).value.1, SplitOnce(line).value.0), files, hash)
  {
    if IsLineOf(line, files, hash) {
      var p :| p in files && line == hash(files[p]) + "  " + p;
      SplitOnceAt(hash(files[p]), p);
    }
    if SplitOnce(line).Some? { SplitJoins(line); }
  }

  // A bundle's checksum file is read through exactly if every line of it is some file's digest and path.
  lemma {:induction false} ReadExactly(lines: seq<string>, files: Files, hash: Digest)
    requires NoSpace(hash)
    ensures Parsed(lines, files, hash).Ok? <==> forall i :: 0 <= i < |lines| ==> IsLineOf(lines[i], files, hash)
  {
    if lines == [] {
    } else {
      LineIsRead(lines[0], files, hash);
      ReadExactly(lines[1..], files, hash);
      assert forall i :: 0 < i < |lines| ==> lines[i] == lines[1..][i - 1];
      assert forall i :: 0 <= i < |lines[1..]| ==> lines[1..][i] == lines[i + 1];
    }
  }

  lemma {:induction false} ListedAreOfFiles(es: seq<Entry>, files: Files, hash: Digest)
    requires multiset(es) == multiset(Entries(files, hash))
    ensures forall i :: 0 <= i < |es| ==> OfFile(es[i], files, hash) && Covered(es[i].0)
  {
    SameItems(es, Entries(files, hash));
    forall i | 0 <= i < |es| ensures OfFile(es[i], files, hash) && Covered(es[i].0) {
      assert es[i] in Entries(files, hash);
    }
  }

  // Sorting what was listed gives the listing exactly if it is the listing in another order, and the
  // two orders agree.
  lemma {:induction false} SortedIsListing(es: seq<Entry>, files: Files, hash: Digest)
    ensures Entries(files, hash) == Sort(es, PairLe) <==>
              multiset(es) == multiset(Entries(files, hash)) && !HasClash(files)
  {
    PairLeIsTotalOrder();
    SortSorts(es, PairLe);
    ListingSortedIffNoClash(files, hash);
    if multiset(es) == multiset(Entries(files, hash)) && !HasClash(files) {
      SortedIsUnique(Entries(files, hash), Sort(es, PairLe), PairLe);
    }
  }

  lemma {:induction false} RootOfListing(files: Files, hash: Digest, root: RootHash)
    requires !HasClash(files)
    ensures ComputeRoot(Entries(files, hash), root) == root(Entries(files, hash))
  {
    PairLeIsTotalOrder();
    ListingSortedIffNoClash(files, hash);
    SortFixes(Entries(files, hash), PairLe);
  }

  // ---- bundles ----

  // The attestation names the root of the listing and signs it under the artifact domain.
  ghost predicate BundleAttested(b: Sealed, hash: Digest, root: RootHash) {
    var r := root(Entries(b.files, hash));
    && b.attestation.bundleRoot == r
    && b.attestation.signature == Signer.Signature(b.attestation.did, ARTIFACT_DOMAIN + r)
  }

  // A bundle is accepted exactly if its checksums list its covered files, no two of them clash, and the
  // root of that listing is attested; the root is then what is returned.
  lemma {:induction false} BundleAccepted(b: Sealed, hash: Digest, root: RootHash)
    requires NoSpace(hash)
    ensures Verified(b, hash, root).Ok? <==>
              ListsCovered(b.checksums, b.files, hash) && !HasClash(b.files) && BundleAttested(b, hash, root)
    ensures Verified(b, hash, root).Ok? ==> Verified(b, hash, root).value == root(Entries(b.files, hash))
  {
    var lines := SplitLines(b.checksums);
    if Verified(b, hash, root).Ok? {
      var es := Parsed(lines, b.files, hash).value;
      LinesParsed(lines, b.files, hash);
      SortedIsListing(es, b.files, hash);
      RootOfListing(b.files, hash, root);
    }
    if ListsCovered(b.checksums, b.files, hash) && !HasClash(b.files) && BundleAttested(b, hash, root) {
      var es: seq<Entry> :| Lines(es) == lines && multiset(es) == multiset(Entries(b.files, hash));
      ListedAreOfFiles(es, b.files, hash);
      ParsedLines(es, b.files, hash);
      SortedIsListing(es, b.files, hash);
      RootOfListing(b.files, hash, root);
    }
  }

  // ---- packages ----

  ghost predicate PackageAttested(p: P.Package, hash: Digest, root: RootHash) {
    var r := root(Entries(p.files, hash));
    p.root == r && p.signature == Signer.Signature(p.did, PROPOSAL_DOMAIN + r)
  }

  ghost predicate SafePaths(files: Files) {
    forall path :: path in files && Covered(path) ==> C.SafeRelative(path)
  }

  lemma {:induction false} HexHasNoSpace(hash: Digest)
    requires P.HexDigest(hash)
    ensures NoSpace(hash)
  {
    forall x ensures ' ' !in hash(x) { assert P.IsHex(hash(x)); }
  }

  // A line is read as an entry, and the entry is written as that line.
  lemma {:induction false} FirstLineRead(e: Entry, lines: seq<string>, files: Files, hash: Digest)
    requires lines != [] && lines[0] == e.1 + "  " + e.0 && ' ' !in e.1
    requires OfFile(e, files, hash) && C.SafeRelative(e.0) && P.IsHex(e.1)
    ensures P.Parsed(lines, files, hash) == match P.Parsed(lines[1..], files, hash)
                                            case Err(error) => Err(error)
                                            case Ok(rest) => Ok([e] + rest)
  {
    SplitOnceAt(e.1, e.0);
  }

  lemma {:induction false} FirstReadLine(lines: seq<string>, files: Files, hash: Digest) returns (e: Entry)
    requires lines != [] && P.Parsed(lines, files, hash).Ok?
    ensures P.Parsed(lines[1..], files, hash).Ok?
    ensures P.Parsed(lines, files, hash).value == [e] + P.Parsed(lines[1..], files, hash).value
    ensures C.SafeRelative(e.0) && lines[0] == e.1 + "  " + e.0
  {
    SplitJoins(lines[0]);
    e := (SplitOnce(lines[0]).value.1, SplitOnce(lines[0]).value.0);
  }

  lemma {:induction false} ParsedPackageLines(es: seq<Entry>, files: Files, hash: Digest)
    requires P.HexDigest(hash)
    requires forall i :: 0 <= i < |es| ==> OfFile(es[i], files, hash) && C.SafeRelative(es[i].0)
    ensures P.Parsed(Lines(es), files, hash) == Ok(es)
  {
    if es == [] {
    } else {
      HexHasNoSpace(hash);
      FirstLineRead(es[0], Lines(es), files, hash);
      ParsedPackageLines(es[1..], files, hash);
      assert Lines(es)[1..] == Lines(es[1..]);
      assert [es[0]] + es[1..] == es;
    }
  }

  ghost predicate SafeEntries(es: seq<Entry>) {
    forall i :: 0 <= i < |es| ==> C.SafeRelative(es[i].0)
  }

  lemma {:induction false} FirstEntry(e: Entry, rest: seq<Entry>, lines: seq<string>)
    requires lines != [] && lines[0] == e.1 + "  " + e.0 && Lines(rest) == lines[1..]
    requires C.SafeRelative(e.0) && SafeEntries(rest)
    ensures Lines([e] + rest) == lines && SafeEntries([e] + rest)
  {
  }

  lemma {:induction false} PackageLinesParsed(lines: seq<string>, files: Files, hash: Digest, es: seq<Entry>)
    requires P.Parsed(lines, files, hash) == Ok(es)
    ensures Lines(es) == lines && SafeEntries(es)
  {
    if lines == [] {
    } else {
      var e := FirstReadLine(lines, files, hash);
      var rest := P.Parsed(lines[1..], files, hash).value;
      PackageLinesParsed(lines[1..], files, hash, rest);
      FirstEntry(e, rest, lines);
    }
  }

  lemma {:induction false} ListedOnce(es: seq<Entry>, files: Files, hash: Digest)
    requires multiset(es) == multiset(Entries(files, hash))
    ensures !P.Duplicated(es)
  {
    if P.Duplicated(es) {
      var i, j :| 0 <= i < j < |es| && es[i] == es[j];
      TwoPlaces(es, i, j);
      CountsOne(Entries(files, hash), es[i]);
    }
  }

  lemma {:induction false} SafeAsListed(es: seq<Entry>, files: Files, hash: Digest)
    requires multiset(es) == multiset(Entries(files, hash))
    ensures SafePaths(files) <==> forall i :: 0 <= i < |es| ==> C.SafeRelative(es[i].0)
  {
    SameItems(es, Entries(files, hash));
    ListedAreOfFiles(es, files, hash);
    if forall i :: 0 <= i < |es| ==> C.SafeRelative(es[i].0) {
      forall path | path in files && Covered(path) ensures C.SafeRelative(path) {
        assert (path, hash(files[path])) in es;
      }
    }
  }

  // A package's seal is accepted exactly if its checksums list its covered files, all under safe paths,
  // no two of them clash, and the root of that listing is signed as a proposal.
  lemma {:induction false} SealAccepted(p: P.Package, hash: Digest, root: RootHash)
    requires P.HexDigest(hash)
    ensures P.Unsealed(p, hash, root).Ok? <==>
              && ListsCovered(p.checksums, p.files, hash) && SafePaths(p.files) && !HasClash(p.files)
              && PackageAttested(p, hash, root)
    ensures P.Unsealed(p, hash, root).Ok? ==> P.Unsealed(p, hash, root).value == root(Entries(p.files, hash))
  {
    var lines := SplitLines(p.checksums);
    HexHasNoSpace(hash);
    if P.Unsealed(p, hash, root).Ok? {
      var es := P.Parsed(lines, p.files, hash).value;
      PackageLinesParsed(lines, p.files, hash, es);
      SortedIsListing(es, p.files, hash);
      SafeAsListed(es, p.files, hash);
      RootOfListing(p.files, hash, root);
    }
    if ListsCovered(p.checksums, p.files, hash) && SafePaths(p.files) && !HasClash(p.files)
       && PackageAttested(p, hash, root) {
      var es: seq<Entry> :| Lines(es) == lines && multiset(es) == multiset(Entries(p.files, hash));
      ListedAreOfFiles(es, p.files, hash);
      SafeAsListed(es, p.files, hash);
      ParsedPackageLines(es, p.files, hash);
      ListedOnce(es, p.files, hash);
      SortedIsListing(es, p.files, hash);
      RootOfListing(p.files, hash, root);
    }
  }

  // The files under "changes/" are the mutations' contents under their paths, each path once.
  ghost predicate HoldsChanges(files: Files, ms: seq<E.Mutation>) {
    && (forall i :: 0 <= i < |ms| ==>
          P.ChangePath(ms[i].path) in files && files[P.ChangePath(ms[i].path)] == ms[i].content)
    && (forall p :: p in files && P.CHANGES + "/" <= p ==>
          exists i :: 0 <= i < |ms| && P.ChangePath(ms[i].path) == p)
    && (forall i, j :: 0 <= i < j < |ms| ==> ms[i].path != ms[j].path)
  }

  // A tree of what lies below "changes/".
  ghost predicate IsChanges(files: Files, changes: map<string, Bytes>) {
    && (forall path :: path in changes <==> P.ChangePath(path) in files)
    && (forall path :: path in changes ==>
          P.ChangePath(path) in files && changes[path] == files[P.ChangePath(path)])
  }

  lemma {:induction false} ChangesByPath(files: Files)
    ensures IsChanges(files, P.Changes(files).files)
  {
    forall path
      ensures path in P.Changes(files).files <==> P.ChangePath(path) in files
      ensures path in P.Changes(files).files ==> P.Changes(files).files[path] == files[P.ChangePath(path)]
    {
      ChangeBelow(path);
      if P.ChangePath(path) in files { assert path in P.ChangePaths(files); }
    }
  }

  lemma {:induction false} ChangeBelow(path: string)
    ensures P.CHANGES + "/" <= P.ChangePath(path) && P.ChangePath(path)[|P.CHANGES| + 1..] == path
  {
  }

  lemma {:induction false} HeldIsMatched(files: Files, changes: E.Tree, ms: seq<E.Mutation>)
    requires IsChanges(files, changes.files) && HoldsChanges(files, ms)
    ensures EvolutionRefusals.PackageMatches(changes, ms)
  {
    forall path | path in changes.files ensures exists i :: 0 <= i < |ms| && ms[i].path == path {
      ChangeBelow(path);
      var i :| 0 <= i < |ms| && P.ChangePath(ms[i].path) == P.ChangePath(path);
      ChangeBelow(ms[i].path);
    }
  }

  lemma {:induction false} MatchedIsHeld(files: Files, changes: E.Tree, ms: seq<E.Mutation>)
    requires IsChanges(files, changes.files) && EvolutionRefusals.PackageMatches(changes, ms)
    ensures HoldsChanges(files, ms)
  {
    forall p | p in files && P.CHANGES + "/" <= p ensures exists i :: 0 <= i < |ms| && P.ChangePath(ms[i].path) == p {
      var path := p[|P.CHANGES| + 1..];
      assert P.ChangePath(path) == p;
      var i :| 0 <= i < |ms| && ms[i].path == path;
    }
  }

  // A package is accepted exactly if its seal is, its three documents are there and agree, and its
  // change files are their mutations'.
  lemma {:induction false} PackageAccepted(p: P.Package, read: P.Reading, hash: Digest, root: RootHash)
    ensures P.Verified(p, read, hash, root).Ok? <==>
              && P.Unsealed(p, hash, root).Ok? && P.HasDocuments(p.files)
              && read(P.DocumentsOf(p.files)).Ok?
              && HoldsChanges(p.files, read(P.DocumentsOf(p.files)).value)
    ensures P.Verified(p, read, hash, root).Ok? ==>
              P.Verified(p, read, hash, root) == P.Unsealed(p, hash, root)
              && P.Read(p.files, read) == read(P.DocumentsOf(p.files))
  {
    if P.HasDocuments(p.files) && read(P.DocumentsOf(p.files)).Ok? {
      var ms := read(P.DocumentsOf(p.files)).value;
      EvolutionPaths.VerifiedExactly(P.Changes(p.files), ms);
      ChangesByPath(p.files);
      if HoldsChanges(p.files, ms) { HeldIsMatched(p.files, P.Changes(p.files), ms); }
      if EvolutionRefusals.PackageMatches(P.Changes(p.files), ms) { MatchedIsHeld(p.files, P.Changes(p.files), ms); }
    }
  }
}
