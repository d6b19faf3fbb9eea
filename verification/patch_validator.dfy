// PatchValidator.validate_patch: the method gathers rejection reasons over its checks; it accepts a
// patch exactly when a predicate read line by line off the diff holds.
module PatchValidator {
  import opened Common
  import opened Text
  import opened Paths
  import opened DiffParser
  import opened DiffTheorems

  datatype Limits = Limits(targetFiles: nat, patchLines: nat, patchChars: nat)

  // What may ground a target: evidence paths as they are, the other mentions once normalised.
  datatype Grounds = Grounds(evidence: seq<string>, signalFile: Option<string>, frames: seq<Option<string>>,
                             diagnosed: Option<string>)

  // The checkout: the components of its root and its regular files, by resolved components.
  datatype Repo = Repo(root: seq<string>, files: set<seq<string>>)

  datatype Reason =
    | TooManyChars
    | TooManyLines
    | Syntax(error: Error)
    | NoBlocks
    | TooManyFiles
    | Protected(path: string)
    | OutsideRoot(path: string)
    | Traversal(path: string)
    | Ungrounded(path: string)
    | OnlyTests

  datatype Risk = Low | Medium | High

  datatype Verdict =
    | Blank
    | Judged(reasons: seq<Reason>, patches: seq<FilePatch>, targets: seq<string>, dependencies: bool, risk: Risk)

  predicate Valid(v: Verdict) { v.Judged? && v.reasons == [] }

  // ---------- path patterns ----------

  // re.IGNORECASE on a lower-case ASCII letter of a pattern.
  predicate SameLetter(c: char, p: char) {
    c == p || ('a' <= p <= 'z' && c as int + 32 == p as int)
    || (p == 'i' && (c as int == 0x130 || c as int == 0x131)) || (p == 's' && c as int == 0x17f)
  }

  predicate StartsLike(s: string, p: string) {
    |p| <= |s| && forall i :: 0 <= i < |p| ==> SameLetter(s[i], p[i])
  }

  predicate EndsLike(s: string, p: string) { |p| <= |s| && StartsLike(s[|s| - |p|..], p) }

  predicate HoldsLike(s: string, p: string) { exists i :: 0 <= i <= |s| && StartsLike(s[i..], p) }

  // $ also stands before a final line feed.
  function Chomp(s: string): string { if s != "" && s[|s| - 1] == '\n' then s[..|s| - 1] else s }

  const BINARY_ENDINGS: seq<string> :=
    [".exe", ".dll", ".so", ".dylib", ".bin", ".pyc", ".pyd", ".whl", ".tar", ".gz", ".zip", ".png", ".jpg",
     ".jpeg", ".gif", ".ico"]

  predicate EnvFile(s: string) {
    s == ".env" || (StartsWith(s, ".env.") && |s| > 5 && '\n' !in s[5..])
  }

  // PROTECTED_PATH_PATTERNS
  const PROTECTED_PATTERNS := 4

  predicate ProtectedBy(pattern: nat, s: string)
    requires pattern < PROTECTED_PATTERNS
  {
    match pattern
    case 0 => StartsWith(s, ".github/workflows/")
    case 1 => StartsWith(s, ".git/")
    case 2 => EnvFile(Chomp(s))
    case _ => exists i :: 0 <= i < |BINARY_ENDINGS| && EndsLike(Chomp(s), BINARY_ENDINGS[i])
  }

  predicate IsProtected(s: string) {
    exists k :: 0 <= k < PROTECTED_PATTERNS && ProtectedBy(k, s)
  }

  // test_[^/]+\.py$
  predicate NamedTest(s: string) {
    exists i :: 0 <= i <= |s| && StartsLike(s[i..], "test_") && |s| > i + 8
                && EndsLike(s, ".py") && '/' !in s[i + 5..|s| - 3]
  }

  // TEST_FILE_PATTERNS
  predicate IsTest(s: string) {
    StartsLike(s, "test/") || StartsLike(s, "tests/") || HoldsLike(s, "/test/") || HoldsLike(s, "/tests/")
    || EndsLike(Chomp(s), "_test.py") || NamedTest(Chomp(s))
  }

  predicate IsWord(c: char) { IsDigit(c) || 'a' <= c <= 'z' || 'A' <= c <= 'Z' || c == '_' }

  predicate Requirements(s: string) {
    StartsWith(s, "requirements") && EndsWith(s, ".txt") && |s| >= 16
    && var mid := s[12..|s| - 4];
       mid == "" || (|mid| > 1 && mid[0] == '-' && forall i :: 1 <= i < |mid| ==> IsWord(mid[i]))
  }

  // DEPENDENCY_PATH_PATTERNS
  predicate IsDependency(path: string) {
    var s := Chomp(path);
    s in ["pyproject.toml", "setup.py", "setup.cfg", "Pipfile", "Pipfile.lock", "poetry.lock", "uv.lock"]
    || Requirements(s)
  }

  // ---------- the declarative side ----------

  ghost predicate Mentions(file: Option<string>, path: string) {
    file.Some? && file.value != "" && path == Normalize(file.value, "")
  }

  ghost predicate Grounded(g: Grounds, path: string) {
    path in g.evidence || Mentions(g.signalFile, path) || Mentions(g.diagnosed, path)
    || exists i :: 0 <= i < |g.frames| && Mentions(g.frames[i], path)
  }

  // The path leads to a regular file below the root of the checkout.
  ghost predicate Existing(repo: Option<Repo>, path: string) {
    repo.Some? && PlainRelative(path) && '\0' !in path && repo.value.root + RealParts(Split(path)) in repo.value.files
  }

  ghost predicate InBounds(repo: Option<Repo>, path: string) {
    if repo.Some? then PlainRelative(path) && '\0' !in path else !Contains(path, "..") && !StartsWith(path, "/")
  }

  ghost predicate TargetOk(g: Grounds, repo: Option<Repo>, path: string) {
    !IsProtected(path) && InBounds(repo, path) && (Grounded(g, path) || Existing(repo, path))
  }

  // The paths that the headers before the hunks name, and the claimed ones.
  ghost function TargetSet(lines: seq<string>, claimed: seq<string>): set<string> {
    (set a | a in Attributed(lines, "") :: a.0) + ClaimedSet(claimed)
  }

  ghost function ClaimedSet(claimed: seq<string>): set<string> {
    set i | 0 <= i < |claimed| && claimed[i] != "" :: Normalize(claimed[i], "")
  }

  ghost predicate Acceptable(raw: string, claimed: seq<string>, g: Grounds, repo: Option<Repo>, max: Limits) {
    var lines := SplitLines(raw);
    var targets := TargetSet(lines, claimed);
    && Strip(raw) != "" && |raw| <= max.patchChars && |lines| <= max.patchLines
    && WellFormed(lines, "", false) && Attributed(lines, "") != []
    && |targets| <= max.targetFiles
    && (forall t :: t in targets ==> TargetOk(g, repo, Normalize(t, "")))
    && (exists t :: t in targets && !IsTest(t))
  }

  // Which reasons a judged patch must be given, target by target.
  ghost predicate TargetReason(r: Reason, g: Grounds, repo: Option<Repo>, path: string) {
    match r
    case Protected(p) => p == path && IsProtected(path)
    case OutsideRoot(p) => p == path && repo.Some? && !InBounds(repo, path)
    case Traversal(p) => p == path && repo.None? && !InBounds(repo, path)
    case Ungrounded(p) => p == path && !Grounded(g, path) && !Existing(repo, path)
    case _ => false
  }

  ghost predicate SomeTargetReason(r: Reason, g: Grounds, repo: Option<Repo>, targets: seq<string>, n: nat)
    requires n <= |targets|
  {
    exists i {:trigger targets[i]} :: 0 <= i < n && TargetReason(r, g, repo, Normalize(targets[i], ""))
  }

  ghost predicate EarlyReason(r: Reason, raw: string, targets: seq<string>, max: Limits) {
    match r
    case TooManyChars => |raw| > max.patchChars
    case TooManyLines => |SplitLines(raw)| > max.patchLines
    case Syntax(e) => e in Parse(SplitLines(raw)).errors
    case NoBlocks => Parse(SplitLines(raw)) == Parsed([], [])
    case TooManyFiles => |targets| > max.targetFiles
    case _ => false
  }

  ghost predicate Justified(r: Reason, raw: string, targets: seq<string>, g: Grounds, repo: Option<Repo>, max: Limits) {
    EarlyReason(r, raw, targets, max) || SomeTargetReason(r, g, repo, targets, |targets|)
    || (r == OnlyTests && targets != [] && TestsUpTo(targets, |targets|))
  }

  function PatchPaths(ps: seq<FilePatch>): (paths: seq<string>)
    ensures |paths| == |ps| && forall i :: 0 <= i < |ps| ==> paths[i] == ps[i].path
  {
    if ps == [] then [] else [ps[0].path] + PatchPaths(ps[1..])
  }

  function NormalizedClaims(claimed: seq<string>): seq<string> {
    if claimed == [] then []
    else NormalizedClaims(claimed[..|claimed| - 1])
         + if claimed[|claimed| - 1] == "" then [] else [Normalize(claimed[|claimed| - 1], "")]
  }

  lemma {:induction false} ClaimsAre(claimed: seq<string>)
    ensures forall x :: x in NormalizedClaims(claimed) <==> x in ClaimedSet(claimed)
  {
    hide Normalize;
    if claimed != [] {
      var n := |claimed| - 1;
      ClaimsAre(claimed[..n]);
      assert ClaimedSet(claimed) == ClaimedSet(claimed[..n])
             + if claimed[n] == "" then {} else {Normalize(claimed[n], "")} by {
        assert forall i :: 0 <= i < n ==> claimed[..n][i] == claimed[i];
      }
    }
  }

  function Targets(patches: seq<FilePatch>, claimed: seq<string>): seq<string> {
    Distinct(PatchPaths(patches) + NormalizedClaims(claimed))
  }

  function RiskOf(dependencies: bool, targets: nat, lines: nat): Risk {
    if dependencies then High else if targets > 1 || lines > 40 then Medium else Low
  }

  // ---------- validate_patch ----------

  method ValidatePatch(raw: string, claimed: seq<string>, g: Grounds, repo: Option<Repo>, max: Limits)
    returns (v: Verdict)
    ensures v.Blank? <==> Strip(raw) == ""
    ensures v.Judged? ==>
              && Parse(SplitLines(raw)).patches == v.patches && v.targets == Targets(v.patches, claimed)
              && (forall r :: r in v.reasons <==> Justified(r, raw, v.targets, g, repo, max))
              && (v.dependencies <==> SomeDependency(v.targets, |v.targets|))
              && v.risk == RiskOf(v.dependencies, |v.targets|, |SplitLines(raw)|)
              && (v.risk.High? <==> v.dependencies)
              && (v.risk.Medium? <==> !v.dependencies && (|v.targets| > 1 || |SplitLines(raw)| > 40))
    ensures Valid(v) <==> Acceptable(raw, claimed, g, repo, max)
  {
    hide Parse, SplitLines, SomeTargetReason, SomeDependency, TestsUpTo, Acceptable, Targets, EarlyReason;
    if Strip(raw) == "" {
      BlankIsRefused(raw, claimed, g, repo, max);
      return Blank;
    }
    var patches, errors := ParseUnifiedDiff(raw);
    var lines := SplitLines(raw);
    var targets := DistinctTargets(patches, claimed);
    var reasons := EarlyChecks(raw, lines, patches, errors, targets, max);
    var bad, dependencies, onlyTests := CheckTargets(targets, g, repo);
    reasons := reasons + bad;
    if onlyTests {
      reasons := reasons + [OnlyTests];
    }
    v := Judged(reasons, patches, targets, dependencies, RiskOf(dependencies, |targets|, |lines|));
    AcceptableIffUnblamed(raw, patches, targets, claimed, g, repo, max);
    EmptyMeansUnblamed(reasons, raw, targets, g, repo, max);
  }

  lemma EmptyMeansUnblamed(reasons: seq<Reason>, raw: string, targets: seq<string>, g: Grounds, repo: Option<Repo>,
                           max: Limits)
    requires forall r :: r in reasons <==> Justified(r, raw, targets, g, repo, max)
    ensures reasons == [] <==> forall r :: !Justified(r, raw, targets, g, repo, max)
  {
    hide Justified;
    if reasons != [] {
      assert reasons[0] in reasons;
    }
  }

  method DistinctTargets(patches: seq<FilePatch>, claimed: seq<string>) returns (targets: seq<string>)
    ensures targets == Targets(patches, claimed)
  {
    hide Normalize, PatchPaths, Distinct;
    var all := PatchPaths(patches);
    var i := 0;
    while i < |claimed|
      invariant 0 <= i <= |claimed|
      invariant all == PatchPaths(patches) + NormalizedClaims(claimed[..i])
    {
      assert claimed[..i + 1][..i] == claimed[..i];
      if claimed[i] != "" {
        all := all + [Normalize(claimed[i], "")];
      }
      i := i + 1;
    }
    assert claimed[..i] == claimed;
    targets := KeepFirst(all);
  }

  // list(dict.fromkeys(all))
  method KeepFirst(all: seq<string>) returns (kept: seq<string>)
    ensures kept == Distinct(all) && NoDuplicates(kept) && forall x :: x in kept <==> x in all
  {
    kept := [];
    var i := 0;
    while i < |all|
      invariant 0 <= i <= |all|
      invariant kept == Distinct(all[..i])
    {
      assert all[..i + 1][..i] == all[..i];
      if all[i] !in kept {
        kept := kept + [all[i]];
      }
      i := i + 1;
    }
    assert all[..i] == all;
  }

  lemma SyntaxReasons(syntax: seq<Reason>, errors: seq<Error>)
    requires |syntax| == |errors| && forall i :: 0 <= i < |errors| ==> syntax[i] == Syntax(errors[i])
    ensures forall r :: r in syntax <==> r.Syntax? && r.error in errors
  {
    forall e | e in errors ensures Syntax(e) in syntax {
      var i :| 0 <= i < |errors| && errors[i] == e;
      assert syntax[i] == Syntax(e);
    }
  }

  method EarlyChecks(raw: string, lines: seq<string>, patches: seq<FilePatch>, errors: seq<Error>,
                     targets: seq<string>, max: Limits)
    returns (reasons: seq<Reason>)
    requires lines == SplitLines(raw) && Parsed(patches, errors) == Parse(lines)
    ensures forall r :: r in reasons <==> EarlyReason(r, raw, targets, max)
  {
    hide Parse, SplitLines;
    reasons := [];
    if |raw| > max.patchChars {
      reasons := reasons + [TooManyChars];
    }
    if |lines| > max.patchLines {
      reasons := reasons + [TooManyLines];
    }
    var syntax := seq(|errors|, i requires 0 <= i < |errors| => Syntax(errors[i]));
    SyntaxReasons(syntax, errors);
    reasons := reasons + syntax;
    if patches == [] && errors == [] {
      reasons := reasons + [NoBlocks];
    }
    if |targets| > max.targetFiles {
      reasons := reasons + [TooManyFiles];
    }
  }

  method GroundedPaths(g: Grounds) returns (paths: set<string>)
    ensures forall p :: p in paths <==> Grounded(g, p)
  {
    hide Normalize;
    paths := set p | p in g.evidence;
    if g.signalFile.Some? && g.signalFile.value != "" {
      paths := paths + {Normalize(g.signalFile.value, "")};
    }
    var i := 0;
    while i < |g.frames|
      invariant 0 <= i <= |g.frames|
      invariant forall p :: p in paths <==> p in g.evidence || Mentions(g.signalFile, p)
                                            || exists k :: 0 <= k < i && Mentions(g.frames[k], p)
    {
      if g.frames[i].Some? && g.frames[i].value != "" {
        paths := paths + {Normalize(g.frames[i].value, "")};
      }
      i := i + 1;
    }
    if g.diagnosed.Some? && g.diagnosed.value != "" {
      paths := paths + {Normalize(g.diagnosed.value, "")};
    }
  }

  method CheckProtected(path: string) returns (bad: seq<Reason>)
    ensures forall r :: r in bad <==> r == Protected(path) && IsProtected(path)
  {
    hide ProtectedBy;
    bad := [];
    var k := 0;
    while k < PROTECTED_PATTERNS
      invariant 0 <= k <= PROTECTED_PATTERNS
      invariant forall r :: r in bad <==> r == Protected(path) && exists j :: 0 <= j < k && ProtectedBy(j, path)
    {
      if ProtectedBy(k, path) {
        bad := bad + [Protected(path)];
      }
      k := k + 1;
    }
  }

  // One target: protection, bounds, grounding.
  method CheckTarget(path: string, ghost g: Grounds, grounded: set<string>, repo: Option<Repo>)
    returns (bad: seq<Reason>)
    requires forall p :: p in grounded <==> Grounded(g, p)
    ensures forall r :: r in bad <==> TargetReason(r, g, repo, path)
  {
    hide Grounded, IsProtected;
    bad := CheckProtected(path);
    var exists' := false;
    if repo.Some? {
      AcceptedPathsDescend(repo.value.root, path);
      var safe := SafePath(repo.value.root, path);
      if safe.None? {
        bad := bad + [OutsideRoot(path)];
      } else if safe.value in repo.value.files {
        exists' := true;
      }
    } else if Contains(path, "..") || StartsWith(path, "/") {
      bad := bad + [Traversal(path)];
    }
    if path !in grounded && !exists' {
      bad := bad + [Ungrounded(path)];
    }
  }

  ghost predicate SomeDependency(targets: seq<string>, n: nat)
    requires n <= |targets|
  {
    exists k :: 0 <= k < n && IsDependency(Normalize(targets[k], ""))
  }

  ghost predicate TestsUpTo(targets: seq<string>, n: nat)
    requires n <= |targets|
  {
    forall k :: 0 <= k < n ==> IsTest(targets[k])
  }

  lemma NextTarget(targets: seq<string>, i: nat, g: Grounds, repo: Option<Repo>)
    requires i < |targets|
    ensures TestsUpTo(targets, i + 1) <==> TestsUpTo(targets, i) && IsTest(targets[i])
    ensures SomeDependency(targets, i + 1) <==> SomeDependency(targets, i) || IsDependency(Normalize(targets[i], ""))
    ensures forall r :: SomeTargetReason(r, g, repo, targets, i + 1) <==>
                          SomeTargetReason(r, g, repo, targets, i) || TargetReason(r, g, repo, Normalize(targets[i], ""))
  {
    hide TargetReason, IsDependency, IsTest, Normalize;
  }

  method CheckTargets(targets: seq<string>, g: Grounds, repo: Option<Repo>)
    returns (reasons: seq<Reason>, dependencies: bool, onlyTests: bool)
    ensures forall r :: r in reasons <==> SomeTargetReason(r, g, repo, targets, |targets|)
    ensures dependencies <==> SomeDependency(targets, |targets|)
    ensures onlyTests <==> targets != [] && TestsUpTo(targets, |targets|)
  {
    hide TargetReason, IsDependency, IsTest, Grounded, Normalize;
    var grounded := GroundedPaths(g);
    reasons, dependencies, onlyTests := [], false, targets != [];
    var i := 0;
    while i < |targets|
      invariant 0 <= i <= |targets|
      invariant forall r :: r in reasons <==> SomeTargetReason(r, g, repo, targets, i)
      invariant dependencies <==> SomeDependency(targets, i)
      invariant onlyTests <==> targets != [] && TestsUpTo(targets, i)
    {
      hide SomeTargetReason, SomeDependency, TestsUpTo;
      var path := Normalize(targets[i], "");
      var bad := CheckTarget(path, g, grounded, repo);
      NextTarget(targets, i, g, repo);
      reasons := reasons + bad;
      dependencies := dependencies || IsDependency(path);
      onlyTests := onlyTests && IsTest(targets[i]);
      i := i + 1;
    }
  }

  // ---------- no reason exactly when acceptable ----------

  lemma BlankIsRefused(raw: string, claimed: seq<string>, g: Grounds, repo: Option<Repo>, max: Limits)
    requires Strip(raw) == ""
    ensures !Acceptable(raw, claimed, g, repo, max)
  {
  }

  lemma {:induction false} PairsOfHunks(path: string, hunks: seq<Hunk>, q: string)
    ensures (exists a :: a in HunkPairs(path, hunks) && a.0 == q) <==> hunks != [] && q == path
  {
    if hunks != [] {
      PairsOfHunks(path, hunks[1..], q);
      assert HunkPairs(path, hunks)[0] in HunkPairs(path, hunks);
    }
  }

  // Every patch has a hunk, so the attributed paths are the patches' paths.
  lemma {:induction false} PairPaths(ps: seq<FilePatch>, q: string)
    requires forall i :: 0 <= i < |ps| ==> ps[i].hunks != []
    ensures (exists a :: a in PatchPairs(ps) && a.0 == q) <==> q in PatchPaths(ps)
  {
    if ps != [] {
      PairPaths(ps[1..], q);
      PairsOfHunks(ps[0].path, ps[0].hunks, q);
      assert PatchPairs(ps) == HunkPairs(ps[0].path, ps[0].hunks) + PatchPairs(ps[1..]);
    }
  }

  ghost predicate EachHasHunks(ps: seq<FilePatch>) { forall i :: 0 <= i < |ps| ==> ps[i].hunks != [] }

  lemma {:induction false} FilesHaveHunks(h: Head, lines: seq<string>, at: nat)
    requires lines == [] || FileLine(lines[0])
    ensures EachHasHunks(ParseFiles(h, lines, at).patches)
    decreases |lines|
  {
    hide ParseBody, HeadOf, FileSpan, Strip;
    if lines != [] {
      var pair := |lines| > 1 && NewPathLine(lines[1]);
      var h' := if pair then HeadOf(lines[0], lines[1]) else h.(oldPath := Some(Strip(lines[0][4..])));
      var k := if pair then 2 else 1;
      var n := FileSpan(lines[k..]);
      FilesHaveHunks(h', lines[k..][n..], at + k + n);
    }
  }

  lemma ParsedHaveHunks(lines: seq<string>)
    ensures EachHasHunks(Parse(lines).patches)
  {
    hide ParseBody, FileSpan;
    FilesHaveHunks(Head(None, None, None), lines[FileSpan(lines)..], FileSpan(lines));
  }

  // For an error-free diff the target list enumerates the target set.
  lemma TargetsAre(raw: string, patches: seq<FilePatch>, claimed: seq<string>)
    requires Parse(SplitLines(raw)) == Parsed(patches, [])
    ensures forall t :: t in Targets(patches, claimed) <==> t in TargetSet(SplitLines(raw), claimed)
    ensures |Targets(patches, claimed)| == |TargetSet(SplitLines(raw), claimed)|
    ensures patches == [] <==> Attributed(SplitLines(raw), "") == []
  {
    hide Parse, SplitLines, Attributed, NormalizedClaims, ClaimedSet, Distinct, PatchPairs;
    var lines, targets := SplitLines(raw), Targets(patches, claimed);
    HunksBelongToNearestFile(lines);
    ClaimsAre(claimed);
    ParsedHaveHunks(lines);
    forall t ensures t in targets <==> t in TargetSet(lines, claimed) {
      PairPaths(patches, t);
    }
    CountDistinct(targets, TargetSet(lines, claimed));
    if patches != [] {
      PairPaths(patches, patches[0].path);
      assert PatchPaths(patches)[0] in PatchPaths(patches);
    } else {
      NoPatchPairs();
    }
  }

  lemma NoPatchPairs()
    ensures PatchPairs([]) == []
  {
  }

  lemma {:induction false} CountDistinct(s: seq<string>, elems: set<string>)
    requires NoDuplicates(s) && forall x :: x in s <==> x in elems
    ensures |s| == |elems|
  {
    if s == [] {
      assert elems == {};
    } else {
      var last := s[|s| - 1];
      CountDistinct(s[..|s| - 1], elems - {last});
    }
  }

  lemma AcceptableIffUnblamed(raw: string, patches: seq<FilePatch>, targets: seq<string>, claimed: seq<string>,
                              g: Grounds, repo: Option<Repo>, max: Limits)
    requires Strip(raw) != "" && Parse(SplitLines(raw)).patches == patches && targets == Targets(patches, claimed)
    ensures (forall r :: !Justified(r, raw, targets, g, repo, max)) <==> Acceptable(raw, claimed, g, repo, max)
  {
    hide Parse, SplitLines, Attributed, WellFormed, Targets, TargetSet, TargetOk, IsTest, TargetReason;
    var lines := SplitLines(raw);
    ErrorFreeIffWellFormed(lines);
    if Parse(lines).errors != [] {
      assert Parse(lines).errors[0] in Parse(lines).errors;
      assert Justified(Syntax(Parse(lines).errors[0]), raw, targets, g, repo, max);
    } else {
      TargetsAre(raw, patches, claimed);
      if forall r :: !Justified(r, raw, targets, g, repo, max) {
        UnblamedIsAcceptable(raw, patches, targets, claimed, g, repo, max);
      }
      if Acceptable(raw, claimed, g, repo, max) {
        forall r ensures !Justified(r, raw, targets, g, repo, max) {
          AcceptableIsUnblamed(r, raw, patches, targets, claimed, g, repo, max);
        }
      }
    }
  }

  lemma UnblamedTarget(g: Grounds, repo: Option<Repo>, path: string)
    ensures TargetOk(g, repo, path) <==>
              && !TargetReason(Protected(path), g, repo, path) && !TargetReason(OutsideRoot(path), g, repo, path)
              && !TargetReason(Traversal(path), g, repo, path) && !TargetReason(Ungrounded(path), g, repo, path)
    ensures TargetOk(g, repo, path) ==> forall r :: !TargetReason(r, g, repo, path)
  {
    hide IsProtected, InBounds, Grounded, Existing;
  }

  // The clauses of acceptance that one target at a time must meet.
  lemma TargetsUnblamedIff(g: Grounds, repo: Option<Repo>, targets: seq<string>)
    ensures (forall r :: !SomeTargetReason(r, g, repo, targets, |targets|))
            <==> forall i :: 0 <= i < |targets| ==> TargetOk(g, repo, Normalize(targets[i], ""))
  {
    hide TargetOk, TargetReason, Normalize;
    var n := |targets|;
    if forall r :: !SomeTargetReason(r, g, repo, targets, n) {
      forall i | 0 <= i < n ensures TargetOk(g, repo, Normalize(targets[i], "")) {
        var p := Normalize(targets[i], "");
        UnblamedTarget(g, repo, p);
        assert !SomeTargetReason(Protected(p), g, repo, targets, n) && !SomeTargetReason(OutsideRoot(p), g, repo, targets, n);
        assert !SomeTargetReason(Traversal(p), g, repo, targets, n) && !SomeTargetReason(Ungrounded(p), g, repo, targets, n);
      }
    }
    if forall i :: 0 <= i < n ==> TargetOk(g, repo, Normalize(targets[i], "")) {
      forall r, i | 0 <= i < n ensures !TargetReason(r, g, repo, Normalize(targets[i], "")) {
        UnblamedTarget(g, repo, Normalize(targets[i], ""));
      }
    }
  }

  lemma UnblamedIsAcceptable(raw: string, patches: seq<FilePatch>, targets: seq<string>, claimed: seq<string>,
                             g: Grounds, repo: Option<Repo>, max: Limits)
    requires Strip(raw) != "" && Parse(SplitLines(raw)) == Parsed(patches, [])
    requires WellFormed(SplitLines(raw), "", false)
    requires |targets| == |TargetSet(SplitLines(raw), claimed)|
    requires forall t :: t in targets <==> t in TargetSet(SplitLines(raw), claimed)
    requires patches == [] <==> Attributed(SplitLines(raw), "") == []
    requires forall r :: !Justified(r, raw, targets, g, repo, max)
    ensures Acceptable(raw, claimed, g, repo, max)
  {
    hide Parse, SplitLines, Attributed, WellFormed, Targets, TargetSet, TargetOk, IsTest, SomeTargetReason, Normalize, Strip;
    assert !Justified(TooManyChars, raw, targets, g, repo, max) && !Justified(TooManyLines, raw, targets, g, repo, max);
    assert !Justified(NoBlocks, raw, targets, g, repo, max) && !Justified(TooManyFiles, raw, targets, g, repo, max);
    assert !Justified(OnlyTests, raw, targets, g, repo, max);
    assert forall r :: !SomeTargetReason(r, g, repo, targets, |targets|) by {
      forall r ensures !SomeTargetReason(r, g, repo, targets, |targets|) {
        assert !Justified(r, raw, targets, g, repo, max);
      }
    }
    TargetsUnblamedIff(g, repo, targets);
    TargetsNotEmpty(raw, patches, targets, claimed);
  }

  lemma TargetsNotEmpty(raw: string, patches: seq<FilePatch>, targets: seq<string>, claimed: seq<string>)
    requires Attributed(SplitLines(raw), "") != []
    requires forall t :: t in targets <==> t in TargetSet(SplitLines(raw), claimed)
    ensures targets != []
  {
    hide SplitLines, Attributed;
    var a := Attributed(SplitLines(raw), "")[0];
    assert a.0 in TargetSet(SplitLines(raw), claimed);
  }

  lemma AcceptableIsUnblamed(r: Reason, raw: string, patches: seq<FilePatch>, targets: seq<string>,
                             claimed: seq<string>, g: Grounds, repo: Option<Repo>, max: Limits)
    requires Parse(SplitLines(raw)) == Parsed(patches, [])
    requires |targets| == |TargetSet(SplitLines(raw), claimed)|
    requires forall t :: t in targets <==> t in TargetSet(SplitLines(raw), claimed)
    requires patches == [] <==> Attributed(SplitLines(raw), "") == []
    requires Acceptable(raw, claimed, g, repo, max)
    ensures !Justified(r, raw, targets, g, repo, max)
  {
    hide Parse, SplitLines, Attributed, WellFormed, Targets, TargetSet, TargetOk, IsTest, SomeTargetReason, Normalize, Strip;
    assert forall i :: 0 <= i < |targets| ==> TargetOk(g, repo, Normalize(targets[i], "")) by {
      forall i | 0 <= i < |targets| ensures TargetOk(g, repo, Normalize(targets[i], "")) { assert targets[i] in targets; }
    }
    TargetsUnblamedIff(g, repo, targets);
  }

  // ---------- what acceptance says about the paths themselves ----------

  predicate Cleaned(path: string) { !StartsWith(path, "/") && NoBackslash(path) }

  lemma {:induction false} AttributedCleaned(lines: seq<string>, target: string)
    requires Cleaned(target)
    ensures forall a :: a in Attributed(lines, target) ==> Cleaned(a.0)
    decreases |lines|
  {
    hide Strip, Cleaned, TargetOf;
    if lines != [] {
      if FileLine(lines[0]) && |lines| > 1 && NewPathLine(lines[1]) {
        TargetCleaned(Strip(lines[0][4..]), Strip(lines[1][4..]));
        AttributedCleaned(lines[2..], TargetOf(Strip(lines[0][4..]), Strip(lines[1][4..])));
      } else {
        AttributedCleaned(lines[1..], target);
      }
    }
  }

  lemma TargetCleaned(oldPath: string, newPath: string)
    ensures Cleaned(TargetOf(oldPath, newPath))
  {
    hide Normalize;
    var raw := if StartsWith(newPath, "b/") then newPath[2..] else if StartsWith(oldPath, "a/") then oldPath[2..] else newPath;
    NormalizedIsSuffix(raw, "");
  }

  lemma TargetsCleaned(lines: seq<string>, claimed: seq<string>, t: string)
    requires t in TargetSet(lines, claimed)
    ensures Cleaned(t)
  {
    hide Attributed, Normalize;
    AttributedCleaned(lines, "");
    if t in ClaimedSet(claimed) {
      var i :| 0 <= i < |claimed| && claimed[i] != "" && t == Normalize(claimed[i], "");
      NormalizedIsSuffix(claimed[i], "");
    }
  }

  // The checks are made on each target normalised once more.  They speak about the target itself,
  // the path that is changed, when it holds no runner prefix and no outer whitespace.
  lemma AcceptedTargetsAreChecked(raw: string, claimed: seq<string>, g: Grounds, repo: Option<Repo>, max: Limits,
                                  t: string)
    requires Acceptable(raw, claimed, g, repo, max) && t in TargetSet(SplitLines(raw), claimed)
    ensures Normalize(t, "") == t <==> Trimmed(t) && !HasPrefixIn(t, RUNNER_PREFIXES)
    ensures Trimmed(t) && !HasPrefixIn(t, RUNNER_PREFIXES) ==> TargetOk(g, repo, t)
  {
    hide SplitLines, TargetSet, Normalize, TargetOk;
    TargetsCleaned(SplitLines(raw), claimed, t);
    NormalizeClean(t, "");
  }

  // So for a target whose normalised form may pass at all, the checks speak about the target itself,
  // whatever the grounds and the checkout, exactly when normalising it again changes nothing.
  lemma CheckIsAboutTargetIff(t: string)
    requires Cleaned(t) && !IsProtected(Normalize(t, "")) && InBounds(None, Normalize(t, ""))
    ensures (forall g, repo :: TargetOk(g, repo, Normalize(t, "")) ==> TargetOk(g, repo, t))
            <==> Trimmed(t) && !HasPrefixIn(t, RUNNER_PREFIXES)
  {
    hide IsProtected, InBounds, Normalize, HasPrefixIn, Trimmed;
    NormalizeClean(t, "");
    var path := Normalize(t, "");
    var only := Grounds([path], None, [], None);
    assert TargetOk(only, None, path);
    assert TargetOk(only, None, t) ==> t == path;
  }

  // ---------- an accepted patch with a protected target ----------

  lemma AppFound(pre: string, sub: string)
    requires '/' !in pre
    ensures Find(pre + "/app/" + sub, "/app/") == Some(|pre|) && (pre + "/app/" + sub)[|pre| + 5..] == sub
  {
    hide Find;
    var s := pre + "/app/" + sub;
    assert s[|pre|..] == "/app/" + sub;
    forall i | 0 <= i < |pre| ensures !("/app/" <= s[i..]) { assert s[i..][0] == pre[i]; }
    FindIs(s, "/app/", |pre|);
  }

  lemma DirectoryDropped(dir: string, rest: string)
    requires '/' !in dir && !LooksLikeFile(dir)
    ensures BelowPrefix(dir + "/" + rest, "") == rest
  {
    hide Find, LooksLikeFile;
    var sub := dir + "/" + rest;
    assert sub[|dir|..] == "/" + rest;
    forall i | 0 <= i < |dir| ensures !("/" <= sub[i..]) { assert sub[i..][0] == dir[i]; }
    FindIs(sub, "/", |dir|);
    assert sub[..|dir|] == dir && sub[|dir| + 1..] == rest;
  }

  lemma ThirdPrefixDecides(s: string, k: nat)
    requires !Contains(s, "/home/runner/work/") && !Contains(s, "/workspace/")
    requires Find(s, "/app/") == Some(k)
    ensures Unprefix(s, "", RUNNER_PREFIXES) == BelowPrefix(s[k + 5..], "")
  {
    hide Find, BelowPrefix;
    var ps := RUNNER_PREFIXES;
    assert ps[0] == "/home/runner/work/" && ps[1..][0] == "/workspace/" && ps[1..][1..][0] == "/app/";
    assert Unprefix(s, "", ps) == Unprefix(s, "", ps[1..]);
    assert Unprefix(s, "", ps[1..]) == Unprefix(s, "", ps[1..][1..]);
  }

  // A path below a runner directory loses everything up to the directory after it.
  lemma BelowAppDirectory(pre: string, dir: string, rest: string)
    requires '/' !in pre && '/' !in dir && !LooksLikeFile(dir) && !StartsWith(rest, "/")
    requires var s := pre + "/app/" + (dir + "/" + rest);
             Trimmed(s) && NoBackslash(s) && !Contains(s, "/home/runner/work/") && !Contains(s, "/workspace/")
    ensures Normalize(pre + "/app/" + (dir + "/" + rest), "") == rest
  {
    hide Normalize, Find, Trimmed, LooksLikeFile, Unprefix, BelowPrefix, Contains, NoBackslash;
    var s := pre + "/app/" + (dir + "/" + rest);
    NormalizeOf(s);
    AppFound(pre, dir + "/" + rest);
    ThirdPrefixDecides(s, |pre|);
    DirectoryDropped(dir, rest);
  }

  lemma NormalizeOf(s: string)
    requires Trimmed(s) && NoBackslash(s)
    ensures Normalize(s, "") == LStripSlash(Unprefix(s, "", RUNNER_PREFIXES))
  {
    hide Unprefix, Strip, Trimmed;
    assert Slashes(s) == s;
    StripTrims(s);
  }

  const INNER := ".git" + "/app/" + ("z" + "/" + "f")
  const OUTER := "x" + "/app/" + ("y" + "/" + INNER)

  // Claimed as OUTER, the target is INNER, but the path that is checked is f.
  lemma ThreeNames()
    ensures Normalize(OUTER, "") == INNER && Normalize(INNER, "") == "f" && Normalize("f", "") == "f"
    ensures IsProtected(INNER)
  {
    hide Normalize, LooksLikeFile, Contains, Trimmed, NoBackslash;
    ShortNoFile("y");
    ShortNoFile("z");
    NamesAreClean();
    BelowAppDirectory("x", "y", INNER);
    BelowAppDirectory(".git", "z", "f");
    NoPrefixInName("f");
    NormalizeClean("f", "");
    assert ProtectedBy(1, INNER);
  }

  lemma NamesAreClean()
    ensures Trimmed(OUTER) && NoBackslash(OUTER) && Trimmed(INNER) && NoBackslash(INNER) && INNER[0] == '.'
    ensures Trimmed("f") && NoBackslash("f")
    ensures !Contains(OUTER, "/home/runner/work/") && !Contains(OUTER, "/workspace/")
    ensures !Contains(INNER, "/home/runner/work/") && !Contains(INNER, "/workspace/")
  {
    hide Contains;
    assert 'h' !in INNER && 'w' !in INNER;
    assert "/home/runner/work/"[1] == 'h' && "/workspace/"[1] == 'w';
    MissingChar(OUTER, "/home/runner/work/", 'h');
    MissingChar(OUTER, "/workspace/", 'w');
    MissingChar(INNER, "/home/runner/work/", 'h');
    MissingChar(INNER, "/workspace/", 'w');
  }

  lemma ShortNoFile(part: string)
    requires |part| < 3
    ensures !LooksLikeFile(part)
  {
  }

  lemma NoPrefixInName(s: string)
    requires '/' !in s
    ensures !HasPrefixIn(s, RUNNER_PREFIXES)
  {
    forall i | 0 <= i < |RUNNER_PREFIXES| ensures !Contains(s, RUNNER_PREFIXES[i]) {
      assert RUNNER_PREFIXES[i][0] == '/';
      MissingChar(s, RUNNER_PREFIXES[i], '/');
    }
  }

  function SmallHunk(): Hunk {
    var r := Range(1, 1, 1, 1);
    Hunk(r, FormatHeader(r, false, false, ""), ["-a", "+b"])
  }

  function SmallPatch(): FilePatch {
    FilePatch("f", Some("a/f"), Some("b/f"), [SmallHunk()],
              Join(["--- a/f", "+++ b/f", SmallHunk().header, "-a", "+b"]))
  }

  lemma SmallPatchIsLegal()
    ensures LegalPatch(SmallPatch()) && LayOut(SmallPatch()) == ["--- a/f", "+++ b/f", SmallHunk().header, "-a", "+b"]
    ensures |SmallHunk().header| == 15
  {
    hide FormatHeader, TargetOf, Join, ParseHeader;
    var k := SmallHunk();
    HeaderRoundTrip(k.range, false, false, "");
    SmallHeader();
    assert LegalHunk(k);
    NoPrefixInName("f");
    TargetOfGitPair("f", "f");
    assert "a/" + "f" == "a/f" && "b/" + "f" == "b/f";
    assert HunkText([k][1..]) == [];
    assert HunkText([k]) == [k.header, "-a", "+b"];
    assert "--- " + "a/f" == "--- a/f" && "+++ " + "b/f" == "+++ b/f";
    assert LegalHunkList([k]);
    assert LayOut(SmallPatch()) == ["--- a/f", "+++ b/f", k.header, "-a", "+b"];
    assert SmallPatch().path == TargetOf("a/f", "b/f");
    assert Trimmed("a/f") && Trimmed("b/f");
    assert OneLine("a/f") && OneLine("b/f");
  }

  lemma SmallHeader()
    ensures OneLine(SmallHunk().header) && |SmallHunk().header| == 15
  {
    assert Decimal(1) == "1" by { assert Decimal(1)[0] == '1'; }
    assert FormatSpan(1, 1, false) == "1,1";
  }

  // The diff changes f, the claim adds the protected INNER, the only evidence is f: accepted, under
  // the default limits.
  lemma ProtectedTargetAccepted()
    ensures var raw, g := SmallPatch().raw, Grounds(["f"], None, [], None);
            && Acceptable(raw, [OUTER], g, None, Limits(2, 100, 4000))
            && INNER in TargetSet(SplitLines(raw), [OUTER]) && IsProtected(INNER)
  {
    hide Normalize, IsProtected, SplitLines, SmallPatch, SmallHunk, Attributed, WellFormed, Strip, IsTest, TargetOk,
         TargetSet;
    ThreeNames();
    SmallParse();
    SmallSize();
    SmallTargets(SplitLines(SmallPatch().raw));
    SmallTarget();
  }

  lemma SmallTargets(lines: seq<string>)
    requires Attributed(lines, "") == [("f", SmallHunk().header, SmallHunk().lines)]
    ensures TargetSet(lines, [OUTER]) == {"f", INNER}
  {
    hide Normalize, Attributed, SmallHunk, IsProtected;
    ThreeNames();
    assert [OUTER][0] == OUTER && [("f", SmallHunk().header, SmallHunk().lines)][0] in Attributed(lines, "");
    assert Normalize([OUTER][0], "") in ClaimedSet([OUTER]);
  }

  lemma SmallParse()
    ensures var lines := SplitLines(SmallPatch().raw);
            && |lines| == 5 && WellFormed(lines, "", false)
            && Attributed(lines, "") == [("f", SmallHunk().header, SmallHunk().lines)]
  {
    hide LegalPatch, Parse, WellFormed, Attributed, SplitLines, Join, FormatHeader, LayOut;
    var p := SmallPatch();
    SmallPatchIsLegal();
    assert AllLegal([p]);
    assert LayOutAll([p][1..]) == [] && LayOutAll([p]) == LayOut(p);
    RoundTrip([p]);
    LayOutOneLine([p]);
    SplitJoin(LayOut(p));
    var lines := SplitLines(p.raw);
    ErrorFreeIffWellFormed(lines);
    HunksBelongToNearestFile(lines);
    SmallPairs();
  }

  lemma SmallPairs()
    ensures PatchPairs([SmallPatch()]) == [("f", SmallHunk().header, SmallHunk().lines)]
  {
    hide FormatHeader, Join;
    var k, p := SmallHunk(), SmallPatch();
    assert HunkPairs("f", [k][1..]) == [] && PatchPairs([p][1..]) == [];
  }

  lemma SmallSize()
    ensures |SmallPatch().raw| <= 4000 && Strip(SmallPatch().raw) != ""
  {
    hide FormatHeader, OneLine, RStrip;
    SmallHeader();
    var h := SmallHunk().header;
    var l5 := ["--- a/f", "+++ b/f", h, "-a", "+b"];
    var l4, l3, l2, l1 := l5[1..], l5[1..][1..], l5[1..][1..][1..], l5[1..][1..][1..][1..];
    assert Join(l1) == "+b" && Join(l2) == "-a" + "\n" + "+b";
    assert Join(l3) == h + "\n" + Join(l2);
    assert Join(l4) == "+++ b/f" + "\n" + Join(l3);
    assert Join(l5) == "--- a/f" + "\n" + Join(l4);
    assert SmallPatch().raw[0] == '-';
    RStripKeepsStart(SmallPatch().raw);
  }

  lemma SmallTarget()
    ensures !IsProtected("f") && !IsTest("f") && TargetOk(Grounds(["f"], None, [], None), None, "f")
  {
    forall i | 0 <= i < |BINARY_ENDINGS| ensures !EndsLike("f", BINARY_ENDINGS[i]) { assert |BINARY_ENDINGS[i]| >= 3; }
    MissingChar("f", "..", '.');
  }
}
