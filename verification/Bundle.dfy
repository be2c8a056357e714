// Evidence bundles: listing, checksums, root and verification (src/rosetta/evidence.py:49-147).
module Bundle {
  import opened Wrappers
  import opened Orders
  import Signer

  type Bytes = seq<bv8>

  // The SHA-256 of a file, in hexadecimal.
  type Digest = Bytes -> string

  type Entry = (string, string)

  // "sha256:" and the digest of the canonical JSON of a manifest.
  type RootHash = seq<Entry> -> string

  ghost predicate GoodDigest(hash: Digest) {
    && (forall x, y :: hash(x) == hash(y) ==> x == y)
    && (forall x :: forall c :: c in hash(x) ==> c != ' ' && !IsBreak(c))
  }

  ghost predicate Injective(root: RootHash) {
    forall x, y :: root(x) == root(y) ==> x == y
  }

  type Files = map<string, Bytes>

  datatype Attestation = Attestation(did: string, bundleRoot: string, signature: Signer.Signature)

  // The two files that are about the others are kept apart from them.
  datatype Sealed = Sealed(files: Files, checksums: string, attestation: Attestation)

  // ---- listing ----

  function Name(path: string): string {
    Split(path)[|Split(path)| - 1]
  }

  predicate Covered(path: string) {
    Name(path) != "checksums.txt" && Name(path) != "attestation.json"
  }

  function Listing(paths: seq<string>, files: Files, hash: Digest): seq<Entry> {
    if paths == [] then []
    else
      var last := paths[|paths| - 1];
      Listing(paths[..|paths| - 1], files, hash)
      + if last in files && Covered(last) then [(last, hash(files[last]))] else []
  }

  // A directory walk: every file once, in whatever order.
  ghost predicate Walks(walk: seq<string>, files: Files) {
    && (forall p :: p in files ==> p in walk)
    && (forall i, j :: 0 <= i < j < |walk| ==> walk[i] != walk[j])
  }

  // What a listing is: the covered files with their digests, each once, in path order.
  ghost predicate Lists(entries: seq<Entry>, files: Files, hash: Digest) {
    && (forall i, j :: 0 <= i < j < |entries| ==> PathLe(entries[i].0, entries[j].0) && entries[i].0 != entries[j].0)
    && (forall i :: 0 <= i < |entries| ==>
          entries[i].0 in files && Covered(entries[i].0) && entries[i].1 == hash(files[entries[i].0]))
    && (forall p :: p in files && Covered(p) ==> (p, hash(files[p])) in entries)
  }

  // The same for the files among some paths, these in path order and each once.
  ghost predicate ListsAmong(entries: seq<Entry>, paths: seq<string>, files: Files, hash: Digest) {
    && (forall i, j :: 0 <= i < j < |entries| ==> PathLe(entries[i].0, entries[j].0) && entries[i].0 != entries[j].0)
    && (forall i :: 0 <= i < |entries| ==> ListsOne(entries[i], paths, files, hash))
    && (forall p :: p in paths && p in files && Covered(p) ==> (p, hash(files[p])) in entries)
  }

  ghost predicate ListsOne(e: Entry, paths: seq<string>, files: Files, hash: Digest) {
    e.0 in paths && e.0 in files && Covered(e.0) && e.1 == hash(files[e.0])
  }

  lemma {:induction false} ListsOneMore(entries: seq<Entry>, paths: seq<string>, path: string, files: Files,
                                        hash: Digest)
    requires ListsAmong(entries, paths, files, hash) && forall i :: 0 <= i < |paths| ==>
               PathLe(paths[i], path) && paths[i] != path
    ensures path in files && Covered(path) ==>
              ListsAmong(entries + [(path, hash(files[path]))], paths + [path], files, hash)
    ensures !(path in files && Covered(path)) ==> ListsAmong(entries, paths + [path], files, hash)
  {
    forall i | 0 <= i < |entries|
      ensures ListsOne(entries[i], paths + [path], files, hash) && PathLe(entries[i].0, path) && entries[i].0 != path
    {
      assert ListsOne(entries[i], paths, files, hash);
      var k :| 0 <= k < |paths| && paths[k] == entries[i].0;
    }
  }

  lemma {:induction false} ListingLists(paths: seq<string>, files: Files, hash: Digest)
    requires Sorted(paths, PathLe) && (forall i, j :: 0 <= i < j < |paths| ==> paths[i] != paths[j])
    ensures ListsAmong(Listing(paths, files, hash), paths, files, hash)
  {
    if paths == [] {
    } else {
      var n := |paths| - 1;
      ListingLists(paths[..n], files, hash);
      ListsOneMore(Listing(paths[..n], files, hash), paths[..n], paths[n], files, hash);
      assert paths == paths[..n] + [paths[n]];
      assert Listing(paths[..n], files, hash) + [] == Listing(paths[..n], files, hash);
    }
  }

  lemma {:induction false} WalkLists(walk: seq<string>, files: Files, hash: Digest)
    requires Walks(walk, files)
    ensures Lists(Listing(Sort(walk, PathLe), files, hash), files, hash)
  {
    var sorted := Sort(walk, PathLe);
    PathLeIsTotalOrder();
    SortSorts(walk, PathLe);
    SortedDistinct(walk, sorted);
    ListingLists(sorted, files, hash);
    var es := Listing(sorted, files, hash);
    forall i | 0 <= i < |es| ensures es[i].0 in files && Covered(es[i].0) && es[i].1 == hash(files[es[i].0]) {
      assert ListsOne(es[i], sorted, files, hash);
    }
    forall p | p in files ensures p in sorted {
      assert p in multiset(walk);
      assert p in multiset(sorted);
    }
  }

  function Paths(entries: seq<Entry>): (r: seq<string>)
    ensures |r| == |entries| && forall i :: 0 <= i < |r| ==> r[i] == entries[i].0
  {
    seq(|entries|, i requires 0 <= i < |entries| => entries[i].0)
  }

  // A directory has one listing, however it is walked.
  lemma {:induction false} OneListing(a: seq<Entry>, b: seq<Entry>, files: Files, hash: Digest)
    requires Lists(a, files, hash) && Lists(b, files, hash)
    ensures a == b
  {
    var p, q := Paths(a), Paths(b);
    PathLeIsTotalOrder();
    forall x ensures multiset(p)[x] == multiset(q)[x] {
      CountsOne(p, x);
      CountsOne(q, x);
      ListedOnce(a, files, hash, x);
      ListedOnce(b, files, hash, x);
    }
    SortedIsUnique(p, q, PathLe);
    forall i | 0 <= i < |a| ensures a[i] == b[i] { assert p[i] == q[i]; }
  }

  lemma {:induction false} ListedOnce(entries: seq<Entry>, files: Files, hash: Digest, x: string)
    requires Lists(entries, files, hash)
    ensures x in multiset(Paths(entries)) <==> x in files && Covered(x)
  {
    if x in files && Covered(x) {
      var i :| 0 <= i < |entries| && entries[i] == (x, hash(files[x]));
      assert Paths(entries)[i] == x;
    }
    if x in multiset(Paths(entries)) {
      var i :| 0 <= i < |entries| && Paths(entries)[i] == x;
    }
  }

  ghost function Enumeration(keys: set<string>): (walk: seq<string>)
    ensures forall p :: p in walk <==> p in keys
    ensures forall i, j :: 0 <= i < j < |walk| ==> walk[i] != walk[j]
  {
    if keys == {} then [] else var p :| p in keys; [p] + Enumeration(keys - {p})
  }

  // The listing of a directory.
  ghost function Entries(files: Files, hash: Digest): (entries: seq<Entry>)
    ensures Lists(entries, files, hash)
  {
    WalkLists(Enumeration(files.Keys), files, hash);
    Listing(Sort(Enumeration(files.Keys), PathLe), files, hash)
  }

  method BundleEntries(files: Files, walk: seq<string>, hash: Digest) returns (entries: seq<Entry>)
    requires Walks(walk, files)
    ensures entries == Entries(files, hash)
  {
    var sorted := Sort(walk, PathLe);
    entries := [];
    for i := 0 to |sorted|
      invariant entries == Listing(sorted[..i], files, hash)
    {
      assert sorted[..i + 1][..i] == sorted[..i];
      var path := sorted[i];
      if path in files && Name(path) != "checksums.txt" && Name(path) != "attestation.json" {
        entries := entries + [(path, hash(files[path]))];
      }
    }
    assert sorted[..|sorted|] == sorted;
    WalkLists(walk, files, hash);
    OneListing(entries, Entries(files, hash), files, hash);
  }

  // ---- the checksum file ----

  // Where Python's splitlines ends a line.
  predicate IsBreak(c: char) {
    || '\n' <= c <= '\r' || '\U{1C}' <= c <= '\U{1E}'
    || c == '\U{85}' || c == '\U{2028}' || c == '\U{2029}'
  }

  predicate NoBreak(s: string) {
    forall i :: 0 <= i < |s| ==> !IsBreak(s[i])
  }

  function LineEnd(s: string): (n: nat)
    ensures n <= |s|
  {
    if s == "" || IsBreak(s[0]) then 0 else 1 + LineEnd(s[1..])
  }

  function SplitLines(s: string): seq<string>
    decreases |s|
  {
    if s == "" then []
    else
      var n := LineEnd(s);
      if n == |s| then [s]
      else [s[..n]] + SplitLines(s[n + (if s[n] == '\r' && n + 1 < |s| && s[n + 1] == '\n' then 2 else 1)..])
  }

  // The text before and after the first double space.
  function SplitOnce(s: string): Option<(string, string)> {
    if |s| < 2 then None
    else if s[0] == ' ' && s[1] == ' ' then Some(("", s[2..]))
    else match SplitOnce(s[1..])
      case None => None
      case Some(parts) => Some(([s[0]] + parts.0, parts.1))
  }

  function Line(e: Entry): string {
    e.1 + "  " + e.0
  }

  function Render(entries: seq<Entry>): string {
    if entries == [] then "" else Line(entries[0]) + "\n" + Render(entries[1..])
  }

  lemma {:induction false} LineEndAt(line: string, rest: string)
    requires NoBreak(line)
    ensures LineEnd(line + "\n" + rest) == |line|
  {
    var s := line + "\n" + rest;
    if line == "" {
    } else {
      LineEndAt(line[1..], rest);
      assert s[1..] == line[1..] + "\n" + rest;
    }
  }

  lemma {:induction false} SplitLinesFirst(line: string, rest: string)
    requires NoBreak(line)
    ensures SplitLines(line + "\n" + rest) == [line] + SplitLines(rest)
  {
    var s := line + "\n" + rest;
    LineEndAt(line, rest);
    assert s[|line|] == '\n' && s[..|line|] == line && s[|line| + 1..] == rest;
  }

  lemma {:induction false} SplitOnceAt(digest: string, path: string)
    requires ' ' !in digest
    ensures SplitOnce(digest + "  " + path) == Some((digest, path))
  {
    var s := digest + "  " + path;
    if digest == "" {
      assert s[2..] == path;
    } else {
      assert s[1..] == digest[1..] + "  " + path;
      SplitOnceAt(digest[1..], path);
      assert [digest[0]] + digest[1..] == digest;
    }
  }

  // The lines that pass their check, up to the first that does not.
  function Parsed(lines: seq<string>, files: Files, hash: Digest): Result<seq<Entry>, string> {
    if lines == [] then Ok([])
    else match SplitOnce(lines[0])
      case None => Err("not enough values to unpack")
      case Some(parts) =>
        if parts.1 !in files || hash(files[parts.1]) != parts.0 then Err("checksum mismatch: " + parts.1)
        else match Parsed(lines[1..], files, hash)
          case Err(e) => Err(e)
          case Ok(rest) => Ok([(parts.1, parts.0)] + rest)
  }

  // An entry whose line reads back as itself.
  ghost predicate Readable(e: Entry, files: Files, hash: Digest) {
    && e.0 in files && NoBreak(e.0) && e.1 == hash(files[e.0])
    && ' ' !in e.1 && NoBreak(e.1)
  }

  lemma {:induction false} LineReadsBack(e: Entry, files: Files, hash: Digest)
    requires Readable(e, files, hash)
    ensures NoBreak(Line(e)) && SplitOnce(Line(e)) == Some((e.1, e.0))
  {
    SplitOnceAt(e.1, e.0);
  }

  lemma {:induction false} ListedIsReadable(files: Files, hash: Digest)
    requires GoodDigest(hash) && forall p :: p in files && Covered(p) ==> NoBreak(p)
    ensures forall i :: 0 <= i < |Entries(files, hash)| ==> Readable(Entries(files, hash)[i], files, hash)
  {
    var es := Entries(files, hash);
    forall i | 0 <= i < |es| ensures Readable(es[i], files, hash) {
      assert es[i].0 in files && Covered(es[i].0) && es[i].1 == hash(files[es[i].0]);
      var digest := es[i].1;
      assert forall c :: c in hash(files[es[i].0]) ==> c != ' ' && !IsBreak(c);
      assert forall k :: 0 <= k < |digest| ==> digest[k] in digest;
    }
  }

  lemma {:induction false} ParsedFirst(line: string, text: string, e: Entry, rest: seq<Entry>, files: Files,
                                       hash: Digest)
    requires NoBreak(line) && SplitOnce(line) == Some((e.1, e.0)) && e.0 in files && e.1 == hash(files[e.0])
    requires Parsed(SplitLines(text), files, hash) == Ok(rest)
    ensures Parsed(SplitLines(line + "\n" + text), files, hash) == Ok([e] + rest)
  {
    SplitLinesFirst(line, text);
    assert ([line] + SplitLines(text))[1..] == SplitLines(text);
  }

  // Reading back what was rendered gives the entries, for paths without line breaks.
  lemma {:induction false} ParseRender(entries: seq<Entry>, files: Files, hash: Digest)
    requires forall i :: 0 <= i < |entries| ==> Readable(entries[i], files, hash)
    ensures Parsed(SplitLines(Render(entries)), files, hash) == Ok(entries)
  {
    if entries == [] {
    } else {
      var e, rest := entries[0], entries[1..];
      LineReadsBack(e, files, hash);
      ParseRender(rest, files, hash);
      ParsedFirst(Line(e), Render(rest), e, rest, files, hash);
      assert entries == [e] + rest;
    }
  }

  lemma {:induction false} LineEndBreaks(s: string)
    ensures NoBreak(s[..LineEnd(s)]) && (LineEnd(s) < |s| ==> IsBreak(s[LineEnd(s)]))
  {
    if s == "" || IsBreak(s[0]) {
    } else {
      LineEndBreaks(s[1..]);
      var n := LineEnd(s[1..]);
      assert s[..n + 1] == [s[0]] + s[1..][..n];
    }
  }

  lemma {:induction false} LinesHaveNoBreak(s: string)
    ensures forall i :: 0 <= i < |SplitLines(s)| ==> NoBreak(SplitLines(s)[i])
    decreases |s|
  {
    if s == "" {
    } else {
      var n := LineEnd(s);
      LineEndBreaks(s);
      if n < |s| {
        LinesHaveNoBreak(s[n + (if s[n] == '\r' && n + 1 < |s| && s[n + 1] == '\n' then 2 else 1)..]);
      } else {
        assert s[..n] == s;
      }
    }
  }

  lemma {:induction false} SplitKeepsNoBreak(line: string)
    requires NoBreak(line) && SplitOnce(line).Some?
    ensures NoBreak(SplitOnce(line).value.1)
  {
    if line[0] == ' ' && line[1] == ' ' {
    } else {
      SplitKeepsNoBreak(line[1..]);
    }
  }

  lemma {:induction false} ParsedHasNoBreak(lines: seq<string>, files: Files, hash: Digest)
    requires (forall i :: 0 <= i < |lines| ==> NoBreak(lines[i])) && Parsed(lines, files, hash).Ok?
    ensures forall e :: e in Parsed(lines, files, hash).value ==> NoBreak(e.0)
  {
    if lines == [] {
    } else {
      SplitKeepsNoBreak(lines[0]);
      ParsedHasNoBreak(lines[1..], files, hash);
    }
  }

  // ---- root and verification ----

  function ComputeRoot(entries: seq<Entry>, root: RootHash): string {
    root(Sort(entries, PairLe))
  }

  function AttestedPayload(root: string): string {
    Signer.Domain(Signer.ArtifactRoot) + root
  }

  ghost function Verified(b: Sealed, hash: Digest, root: RootHash): Result<string, string> {
    match Parsed(SplitLines(b.checksums), b.files, hash)
    case Err(e) => Err(e)
    case Ok(expected) =>
      var actual := Entries(b.files, hash);
      if actual != Sort(expected, PairLe) then Err("bundle file set differs from checksums")
      else if b.attestation.bundleRoot != ComputeRoot(actual, root) then Err("bundle root mismatch")
      else if !Signer.VerifySignature(b.attestation.did, AttestedPayload(ComputeRoot(actual, root)),
                                      b.attestation.signature) then
        Err("invalid bundle attestation")
      else Ok(ComputeRoot(actual, root))
  }

  // What build_bundle leaves once the covered files are written.
  ghost function SealedBy(files: Files, did: string, hash: Digest, root: RootHash): Sealed {
    var entries := Entries(files, hash);
    var r := ComputeRoot(entries, root);
    Sealed(files, Render(entries), Attestation(did, r, Signer.Signature(did, AttestedPayload(r))))
  }

  // Two covered files whose path order and string order differ.
  ghost predicate HasClash(files: Files) {
    exists p, q :: p in files && q in files && Covered(p) && Covered(q) && Clash(p, q)
  }

  lemma {:induction false} ListedAt(files: Files, hash: Digest, p: string) returns (i: nat)
    requires p in files && Covered(p)
    ensures i < |Entries(files, hash)| && Entries(files, hash)[i].0 == p
  {
    i :| i < |Entries(files, hash)| && Entries(files, hash)[i] == (p, hash(files[p]));
  }

  // Of two clashing entries the first in path order is the second in string order.
  lemma {:induction false} ClashUnsorts(es: seq<Entry>, i: nat, j: nat)
    requires i < |es| && j < |es| && Clash(es[i].0, es[j].0)
    requires forall a, b :: 0 <= a < b < |es| ==> PathLe(es[a].0, es[b].0) && es[a].0 != es[b].0
    ensures !Sorted(es, PairLe)
  {
    OrdersDisagree(es[i].0, es[j].0);
    PathLeIsTotalOrder();
    LexReflexive(es[i].0, CharLe);
    assert es[i].0 != es[j].0;
    assert i < j && !PairLe(es[i], es[j]);
  }

  lemma {:induction false} NoClashSorts(files: Files, hash: Digest)
    requires !HasClash(files)
    ensures Sorted(Entries(files, hash), PairLe)
  {
    var es := Entries(files, hash);
    forall i, j | 0 <= i < j < |es| ensures PairLe(es[i], es[j]) {
      OrdersDisagree(es[i].0, es[j].0);
    }
  }

  lemma {:induction false} ListingSortedIffNoClash(files: Files, hash: Digest)
    ensures Sorted(Entries(files, hash), PairLe) <==> !HasClash(files)
  {
    if HasClash(files) {
      var p, q :| p in files && q in files && Covered(p) && Covered(q) && Clash(p, q);
      var i := ListedAt(files, hash, p);
      var j := ListedAt(files, hash, q);
      ClashUnsorts(Entries(files, hash), i, j);
    } else {
      NoClashSorts(files, hash);
    }
  }

  // A bundle verifies to its own root exactly if no two covered paths clash; otherwise it is
  // refused as if a file had been added or removed.
  lemma {:induction false} BuildThenVerify(files: Files, did: string, hash: Digest, root: RootHash)
    requires GoodDigest(hash) && forall p :: p in files && Covered(p) ==> NoBreak(p)
    ensures Verified(SealedBy(files, did, hash, root), hash, root) ==
            if HasClash(files) then Err("bundle file set differs from checksums")
            else Ok(SealedBy(files, did, hash, root).attestation.bundleRoot)
  {
    var es := Entries(files, hash);
    ListedIsReadable(files, hash);
    ParseRender(es, files, hash);
    PairLeIsTotalOrder();
    SortFixes(es, PairLe);
    ListingSortedIffNoClash(files, hash);
  }

  // A listed path has no line break, since it was read from a line.
  lemma {:induction false} AcceptedHasNoBreak(b: Sealed, hash: Digest, root: RootHash, path: string)
    requires Verified(b, hash, root).Ok? && path in b.files && Covered(path)
    ensures NoBreak(path)
  {
    var expected := Parsed(SplitLines(b.checksums), b.files, hash).value;
    LinesHaveNoBreak(b.checksums);
    ParsedHasNoBreak(SplitLines(b.checksums), b.files, hash);
    PairLeIsTotalOrder();
    SortSorts(expected, PairLe);
    SameItems(Sort(expected, PairLe), expected);
    assert (path, hash(b.files[path])) in Entries(b.files, hash);
  }

  // So a bundle of any files verifies exactly if no covered path has a line break and none clash.
  lemma {:induction false} BuiltVerifiesExactly(files: Files, did: string, hash: Digest, root: RootHash)
    requires GoodDigest(hash)
    ensures Verified(SealedBy(files, did, hash, root), hash, root).Ok? <==>
              !HasClash(files) && forall p :: p in files && Covered(p) ==> NoBreak(p)
  {
    if forall p :: p in files && Covered(p) ==> NoBreak(p) {
      BuildThenVerify(files, did, hash, root);
    } else if Verified(SealedBy(files, did, hash, root), hash, root).Ok? {
      forall p | p in files && Covered(p) ensures NoBreak(p) {
        AcceptedHasNoBreak(SealedBy(files, did, hash, root), hash, root, p);
      }
    }
  }

  // One root is of one set of covered files, byte for byte.
  lemma {:induction false} OneRootOneListing(a: Files, b: Files, hash: Digest, root: RootHash)
    requires (forall x, y :: hash(x) == hash(y) ==> x == y) && Injective(root)
    requires ComputeRoot(Entries(a, hash), root) == ComputeRoot(Entries(b, hash), root)
    ensures forall p :: Covered(p) ==> (p in a <==> p in b)
    ensures forall p :: Covered(p) && p in a && p in b ==> a[p] == b[p]
  {
    var x, y := Entries(a, hash), Entries(b, hash);
    PairLeIsTotalOrder();
    SortSorts(x, PairLe);
    SortSorts(y, PairLe);
    assert Sort(x, PairLe) == Sort(y, PairLe);
    SameItems(x, y);
    forall p | Covered(p)
      ensures p in a <==> p in b
      ensures p in a && p in b ==> a[p] == b[p]
    {
      if p in a { assert (p, hash(a[p])) in x && (p, hash(a[p])) in y; }
      if p in b { assert (p, hash(b[p])) in y && (p, hash(b[p])) in x; }
    }
  }

  // Two bundles that verify to one root agree on which files are covered and on every byte of them.
  lemma {:induction false} RootDeterminesFiles(a: Sealed, b: Sealed, hash: Digest, root: RootHash)
    requires GoodDigest(hash) && Injective(root)
    requires Verified(a, hash, root).Ok? && Verified(a, hash, root) == Verified(b, hash, root)
    ensures forall p :: Covered(p) ==> (p in a.files <==> p in b.files)
    ensures forall p :: Covered(p) && p in a.files && p in b.files ==> a.files[p] == b.files[p]
  {
    OneRootOneListing(a.files, b.files, hash, root);
  }

  method Verify(b: Sealed, walk: seq<string>, hash: Digest, root: RootHash) returns (r: Result<string, string>)
    requires Walks(walk, b.files)
    ensures r == Verified(b, hash, root)
  {
    var lines := SplitLines(b.checksums);
    var expected: seq<Entry> := [];
    assert lines[0..] == lines;
    for i := 0 to |lines|
      invariant Parsed(lines, b.files, hash) == After(expected, Parsed(lines[i..], b.files, hash))
    {
      assert lines[i..][0] == lines[i] && lines[i..][1..] == lines[i + 1..];
      var parts := SplitOnce(lines[i]);
      if parts.None? { return Err("not enough values to unpack"); }
      var (digest, relative) := parts.value;
      if relative !in b.files || hash(b.files[relative]) != digest { return Err("checksum mismatch: " + relative); }
      AfterOneMore(expected, (relative, digest), Parsed(lines[i + 1..], b.files, hash));
      expected := expected + [(relative, digest)];
    }
    assert expected + [] == expected;
    var actual := BundleEntries(b.files, walk, hash);
    if actual != Sort(expected, PairLe) { return Err("bundle file set differs from checksums"); }
    var computed := ComputeRoot(actual, root);
    if b.attestation.bundleRoot != computed { return Err("bundle root mismatch"); }
    if !Signer.VerifySignature(b.attestation.did, AttestedPayload(computed), b.attestation.signature) {
      return Err("invalid bundle attestation");
    }
    return Ok(computed);
  }
}
