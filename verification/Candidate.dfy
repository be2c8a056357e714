// What a candidate may touch, and how risky it is (src/rosetta/evolution.py:292-335).
module Candidate {
  import opened Wrappers
  import opened Orders

  type Bytes = seq<bv8>

  // ---- paths ----

  function Join(parts: seq<string>): string {
    if parts == [] then "" else if |parts| == 1 then parts[0] else parts[0] + "/" + Join(parts[1..])
  }

  predicate Kept(part: string) {
    part != "" && part != "."
  }

  // The parts PurePosixPath keeps.
  function PathParts(parts: seq<string>): seq<string> {
    if parts == [] then []
    else if Kept(parts[0]) then [parts[0]] + PathParts(parts[1..])
    else PathParts(parts[1..])
  }

  // _safe_relative: relative, not empty, no "..", no backslash, and written as PurePosixPath writes it.
  predicate SafeRelative(path: string) {
    && !("/" <= path)
    && PathParts(Split(path)) != []
    && ".." !in PathParts(Split(path))
    && '\\' !in path
    && Join(PathParts(Split(path))) == path
  }

  lemma {:induction false} JoinSplit(path: string)
    ensures Join(Split(path)) == path
  {
    if path == "" {
    } else {
      JoinSplit(path[1..]);
      SplitFirst(path);
      var rest := Split(path[1..]);
      if path[0] == '/' {
        assert Split(path) == [""] + rest;
      } else {
        assert Split(path) == [[path[0]] + rest[0]] + rest[1..];
        if |rest| > 1 { assert Join(Split(path)) == [path[0]] + rest[0] + "/" + Join(rest[1..]); }
      }
    }
  }

  function Size(parts: seq<string>): nat {
    if parts == [] then 0 else |parts[0]| + 1 + Size(parts[1..])
  }

  lemma {:induction false} JoinSize(parts: seq<string>)
    requires parts != []
    ensures |Join(parts)| + 1 == Size(parts)
  {
    if |parts| > 1 { JoinSize(parts[1..]); } else { assert parts[1..] == []; }
  }

  lemma {:induction false} DroppingShortens(parts: seq<string>)
    ensures Size(PathParts(parts)) <= Size(parts)
    ensures Size(PathParts(parts)) == Size(parts) ==> PathParts(parts) == parts && forall i :: 0 <= i < |parts| ==>
              Kept(parts[i])
  {
    if parts == [] {
    } else {
      DroppingShortens(parts[1..]);
      if Kept(parts[0]) {
        var rest := PathParts(parts[1..]);
        assert PathParts(parts) == [parts[0]] + rest;
        assert PathParts(parts)[1..] == rest;
        assert parts == [parts[0]] + parts[1..];
        if Size(PathParts(parts)) == Size(parts) {
          forall i | 0 <= i < |parts| ensures Kept(parts[i]) { if i > 0 { assert parts[i] == parts[1..][i - 1]; } }
        }
      }
    }
  }

  lemma {:induction false} AllKept(parts: seq<string>)
    requires forall i :: 0 <= i < |parts| ==> Kept(parts[i])
    ensures PathParts(parts) == parts
  {
    if parts == [] {
    } else {
      assert forall i :: 0 <= i < |parts[1..]| ==> parts[1..][i] == parts[i + 1];
      AllKept(parts[1..]);
    }
  }

  // A component that names something below its directory.
  predicate ProperName(part: string) {
    part != "" && part != "." && part != ".."
  }

  // A path is safe exactly if every component is a proper name and none has a backslash.
  lemma {:induction false} SafeIsProper(path: string)
    ensures SafeRelative(path) <==> '\\' !in path && forall i :: 0 <= i < |Split(path)| ==> ProperName(Split(path)[i])
  {
    var parts := Split(path);
    JoinSplit(path);
    if "/" <= path {
      SplitFirst(path);
      assert parts[0] == "";
    }
    if SafeRelative(path) {
      JoinSize(parts);
      JoinSize(PathParts(parts));
      DroppingShortens(parts);
      forall i | 0 <= i < |parts| ensures ProperName(parts[i]) { assert parts[i] in PathParts(parts); }
    }
    if forall i :: 0 <= i < |parts| ==> ProperName(parts[i]) {
      AllKept(parts);
    }
  }

  function WithoutTrailingSlashes(s: string): string {
    if s != "" && s[|s| - 1] == '/' then WithoutTrailingSlashes(s[..|s| - 1]) else s
  }

  predicate IsPathOrChild(path: string, prefix: string) {
    var normalized := WithoutTrailingSlashes(prefix);
    path == normalized || normalized + "/" <= path
  }

  lemma {:induction false} OntoFirst(c: char, a: seq<string>, b: seq<string>)
    requires a != []
    ensures [[c] + (a + b)[0]] + (a + b)[1..] == ([[c] + a[0]] + a[1..]) + b
  {
  }

  lemma {:induction false} SplitAfter(dir: string, rest: string)
    ensures Split(dir + "/" + rest) == Split(dir) + Split(rest)
  {
    var path := dir + "/" + rest;
    if dir == "" {
      assert path[1..] == rest;
    } else {
      assert path[1..] == dir[1..] + "/" + rest && path[0] == dir[0];
      SplitAfter(dir[1..], rest);
      if dir[0] == '/' {
        assert [""] + (Split(dir[1..]) + Split(rest)) == ([""] + Split(dir[1..])) + Split(rest);
      } else {
        OntoFirst(dir[0], Split(dir[1..]), Split(rest));
      }
    }
  }

  lemma {:induction false} JoinOfConcat(a: seq<string>, b: seq<string>)
    requires a != [] && b != []
    ensures Join(a + b) == Join(a) + "/" + Join(b)
  {
    if |a| == 1 {
      assert (a + b)[1..] == b;
    } else {
      assert (a + b)[1..] == a[1..] + b;
      JoinOfConcat(a[1..], b);
    }
  }

  lemma {:induction false} ChildHasComponents(path: string, prefix: string)
    requires prefix + "/" <= path
    ensures Split(prefix) <= Split(path)
  {
    assert path == prefix + "/" + path[|prefix| + 1..];
    SplitAfter(prefix, path[|prefix| + 1..]);
  }

  lemma {:induction false} ComponentsMakeChild(path: string, prefix: string)
    requires Split(prefix) <= Split(path)
    ensures path == prefix || prefix + "/" <= path
  {
    var p, q := Split(prefix), Split(path);
    JoinSplit(prefix);
    JoinSplit(path);
    if p != q {
      var rest := q[|p|..];
      assert q == p + rest;
      JoinOfConcat(p, rest);
    }
  }

  // A prefix without the slashes it ends in.
  predicate Trimmed(prefix: string, dir: string) {
    && dir <= prefix && (dir == "" || dir[|dir| - 1] != '/')
    && forall k :: |dir| <= k < |prefix| ==> prefix[k] == '/'
  }

  lemma {:induction false} TrimmedIsOne(prefix: string, dir: string)
    requires Trimmed(prefix, dir)
    ensures WithoutTrailingSlashes(prefix) == dir
  {
    if prefix == dir {
    } else {
      TrimmedIsOne(prefix[..|prefix| - 1], dir);
    }
  }

  lemma {:induction false} EveryPrefixTrimmed(prefix: string)
    ensures Trimmed(prefix, WithoutTrailingSlashes(prefix))
  {
    if prefix == "" || prefix[|prefix| - 1] != '/' {
    } else {
      EveryPrefixTrimmed(prefix[..|prefix| - 1]);
    }
  }

  // The prefix test is by whole components, whatever slashes the prefix ends in: "docs" and "docs/"
  // cover "docs" and "docs/x" and not "docsx".
  lemma {:induction false} CoversByComponent(path: string, prefix: string, dir: string)
    requires Trimmed(prefix, dir)
    ensures IsPathOrChild(path, prefix) <==> Split(dir) <= Split(path)
  {
    TrimmedIsOne(prefix, dir);
    if dir + "/" <= path { ChildHasComponents(path, dir); }
    if Split(dir) <= Split(path) { ComponentsMakeChild(path, dir); }
  }

  // ---- validation ----

  datatype Proposed = Proposed(path: string, create: bool, expected: Option<string>, content: Option<Bytes>)

  datatype Policy = Policy(allowedPrefixes: seq<string>, protectedPaths: seq<string>, maxFiles: nat, maxTotalBytes: nat)

  datatype Risk = TestOnly | Documentation | RuntimeCode

  predicate CoveredBy(path: string, prefixes: seq<string>) {
    exists i :: 0 <= i < |prefixes| && IsPathOrChild(path, prefixes[i])
  }

  // What is wrong with one mutation, in the order it is looked for.
  function Fault(m: Proposed, policy: Policy): Option<string> {
    if !SafeRelative(m.path) then Some("unsafe mutation path")
    else if !CoveredBy(m.path, policy.allowedPrefixes) then Some("mutation path is outside the evolution allowlist")
    else if CoveredBy(m.path, policy.protectedPaths) then Some("mutation path is protected from self-modification")
    else if m.content.None? then Some("mutation content must be canonical base64")
    else if 0 in m.content.value then Some("binary mutation content is forbidden")
    else if m.create && m.expected.Some? then Some("create mutation cannot carry expected_sha256")
    else if !m.create && m.expected.None? then Some("replace mutation requires expected_sha256")
    else None
  }

  function TotalBytes(ms: seq<Proposed>): nat {
    if ms == [] then 0
    else TotalBytes(ms[..|ms| - 1]) + match ms[|ms| - 1].content case Some(c) => |c| case None => 0
  }

  predicate IsDocumentation(path: string) {
    "docs/" <= path
  }

  predicate IsTestOnly(path: string) {
    "tests/generated/" <= path || "fixtures/evolution/" <= path
  }

  // The risk of a candidate is the risk of its riskiest path, in whatever order they come.
  predicate RiskIs(risk: Risk, ms: seq<Proposed>) {
    && (risk == RuntimeCode <==> exists i :: 0 <= i < |ms| && !IsDocumentation(ms[i].path) && !IsTestOnly(ms[i].path))
    && (risk == TestOnly <==> forall i :: 0 <= i < |ms| ==> IsTestOnly(ms[i].path))
  }

  // The first fault of the first faulty mutation.
  function FirstFault(ms: seq<Proposed>, policy: Policy): (f: Option<string>)
    ensures f.None? <==> forall i :: 0 <= i < |ms| ==> Fault(ms[i], policy).None?
  {
    if ms == [] then None
    else if FirstFault(ms[..|ms| - 1], policy).Some? then FirstFault(ms[..|ms| - 1], policy)
    else Fault(ms[|ms| - 1], policy)
  }

  lemma {:induction false} FaultStays(ms: seq<Proposed>, policy: Policy, i: nat)
    requires i <= |ms| && FirstFault(ms[..i], policy).Some?
    ensures FirstFault(ms, policy) == FirstFault(ms[..i], policy)
    decreases |ms|
  {
    if i == |ms| {
      assert ms[..i] == ms;
    } else {
      assert ms[..|ms| - 1][..i] == ms[..i];
      FaultStays(ms[..|ms| - 1], policy, i);
    }
  }

  method Examine(m: Proposed, policy: Policy) returns (fault: Option<string>)
    ensures fault == Fault(m, policy)
  {
    if !SafeRelative(m.path) { return Some("unsafe mutation path"); }
    if !CoveredBy(m.path, policy.allowedPrefixes) { return Some("mutation path is outside the evolution allowlist"); }
    if CoveredBy(m.path, policy.protectedPaths) { return Some("mutation path is protected from self-modification"); }
    if m.content.None? { return Some("mutation content must be canonical base64"); }
    if 0 in m.content.value { return Some("binary mutation content is forbidden"); }
    if m.create && m.expected.Some? { return Some("create mutation cannot carry expected_sha256"); }
    if !m.create && m.expected.None? { return Some("replace mutation requires expected_sha256"); }
    return None;
  }

  // Accepted exactly if the limits hold and no mutation has a fault; otherwise the file limit is
  // named first, then the first fault, then the byte limit.
  method ValidateCandidate(ms: seq<Proposed>, policy: Policy) returns (r: Result<Risk, string>)
    ensures |ms| > policy.maxFiles ==> r == Err("candidate exceeds mutation file limit")
    ensures |ms| <= policy.maxFiles && FirstFault(ms, policy).Some? ==> r == Err(FirstFault(ms, policy).value)
    ensures |ms| <= policy.maxFiles && FirstFault(ms, policy).None? && TotalBytes(ms) > policy.maxTotalBytes ==>
              r == Err("candidate exceeds total byte limit")
    ensures |ms| <= policy.maxFiles && FirstFault(ms, policy).None? && TotalBytes(ms) <= policy.maxTotalBytes ==>
              r.Ok? && RiskIs(r.value, ms)
  {
    if |ms| > policy.maxFiles { return Err("candidate exceeds mutation file limit"); }
    var total := 0;
    var risk := TestOnly;
    for i := 0 to |ms|
      invariant total == TotalBytes(ms[..i])
      invariant FirstFault(ms[..i], policy).None?
      invariant RiskIs(risk, ms[..i])
    {
      var m := ms[i];
      assert ms[..i + 1][..i] == ms[..i] && ms[..i + 1][i] == m;
      var fault := Examine(m, policy);
      if fault.Some? {
        FaultStays(ms, policy, i + 1);
        return Err(fault.value);
      }
      total := total + |m.content.value|;
      ghost var before := risk;
      if "docs/" <= m.path && risk == TestOnly {
        risk := Documentation;
      } else if !("tests/generated/" <= m.path || "fixtures/evolution/" <= m.path || "docs/" <= m.path) {
        risk := RuntimeCode;
      }
      RiskOneMore(before, risk, ms, i);
    }
    assert ms[..|ms|] == ms;
    if total > policy.maxTotalBytes { return Err("candidate exceeds total byte limit"); }
    return Ok(risk);
  }

  lemma {:induction false} NotBoth(path: string)
    ensures !(IsDocumentation(path) && IsTestOnly(path))
  {
    if IsDocumentation(path) && |path| > 0 { assert path[0] == 'd'; }
  }

  lemma {:induction false} RiskOneMore(before: Risk, after: Risk, ms: seq<Proposed>, i: nat)
    requires i < |ms| && RiskIs(before, ms[..i])
    requires after == if IsDocumentation(ms[i].path) && before == TestOnly then Documentation
                      else if !IsDocumentation(ms[i].path) && !IsTestOnly(ms[i].path) then RuntimeCode
                      else before
    ensures RiskIs(after, ms[..i + 1])
  {
    NotBoth(ms[i].path);
    var longer, shorter := ms[..i + 1], ms[..i];
    assert forall j :: 0 <= j < i ==> longer[j] == shorter[j];
    assert longer[i] == ms[i];
  }

  // The path is at or below one of these.
  ghost predicate Below(path: string, prefixes: seq<string>) {
    exists i, dir :: 0 <= i < |prefixes| && Trimmed(prefixes[i], dir) && Split(dir) <= Split(path)
  }

  lemma {:induction false} CoveredIsBelow(path: string, prefixes: seq<string>)
    ensures CoveredBy(path, prefixes) <==> Below(path, prefixes)
  {
    forall i | 0 <= i < |prefixes| && IsPathOrChild(path, prefixes[i]) ensures Below(path, prefixes) {
      EveryPrefixTrimmed(prefixes[i]);
      CoversByComponent(path, prefixes[i], WithoutTrailingSlashes(prefixes[i]));
    }
    forall i, dir | 0 <= i < |prefixes| && Trimmed(prefixes[i], dir) && Split(dir) <= Split(path)
      ensures IsPathOrChild(path, prefixes[i])
    {
      CoversByComponent(path, prefixes[i], dir);
    }
  }

  // What an accepted mutation is, exactly: inside the project, at or below an allowed prefix, at or below
  // no protected path, of text, and with a digest of what it replaces exactly if it replaces.
  lemma {:induction false} AcceptedReach(m: Proposed, policy: Policy)
    ensures Fault(m, policy).None? <==>
              && '\\' !in m.path && (forall k :: 0 <= k < |Split(m.path)| ==> ProperName(Split(m.path)[k]))
              && Below(m.path, policy.allowedPrefixes) && !Below(m.path, policy.protectedPaths)
              && m.content.Some? && 0 !in m.content.value && (m.create <==> m.expected.None?)
  {
    SafeIsProper(m.path);
    CoveredIsBelow(m.path, policy.allowedPrefixes);
    CoveredIsBelow(m.path, policy.protectedPaths);
  }
}
