// What the path patterns of the patch validator match: the shapes of a path, told apart from the
// way the patterns are evaluated.
module PatchPatterns {
  import opened Common
  import opened Text
  import opened Paths
  import opened DiffParser
  import opened PatchValidator
  import PathTheorems

  // A character that matches p when case is ignored: p itself, its capital, and the two further
  // letters that fold to 'i' and the one that folds to 's'.
  ghost predicate Folds(c: char, p: char) {
    || c == p || (p == 'i' && (c == '\U{130}' || c == '\U{131}')) || (p == 's' && c == '\U{17f}')
    || exists k :: 0 <= k < 26 && p == "abcdefghijklmnopqrstuvwxyz"[k] && c == "ABCDEFGHIJKLMNOPQRSTUVWXYZ"[k]
  }

  // t reads p, case ignored.
  ghost predicate Reads(t: string, p: string) { |t| == |p| && forall i :: 0 <= i < |p| ==> Folds(t[i], p[i]) }

  // s is y, up to one final line feed.
  ghost predicate Line(s: string, y: string) { s == y || s == y + "\n" }

  // Any text, then e, case ignored.
  ghost predicate EndsIn(s: string, e: string) { exists x, t :: Line(s, x + t) && Reads(t, e) }

  ghost predicate ProtectedShape(s: string) {
    || (exists x :: s == ".github/workflows/" + x)
    || (exists x :: s == ".git/" + x)
    || Line(s, ".env")
    || (exists x :: x != "" && '\n' !in x && Line(s, ".env." + x))
    || exists e :: EndsIn(s, e)
                   && e in {".exe", ".dll", ".so", ".dylib", ".bin", ".pyc", ".pyd", ".whl", ".tar", ".gz", ".zip", ".png",
                            ".jpg", ".jpeg", ".gif", ".ico"}
  }

  ghost predicate Begins(s: string, p: string) { exists t, x :: s == t + x && Reads(t, p) }

  ghost predicate Includes(s: string, p: string) { exists a, t, x :: s == a + t + x && Reads(t, p) }

  ghost predicate NamedShape(s: string, a: string, t: string, m: string, u: string) {
    Line(s, a + t + m + u) && Reads(t, "test_") && m != "" && '/' !in m && Reads(u, ".py")
  }

  ghost predicate TestShape(s: string) {
    || Begins(s, "test/") || Begins(s, "tests/") || Includes(s, "/test/") || Includes(s, "/tests/")
    || EndsIn(s, "_test.py")
    || exists a, t, m, u :: NamedShape(s, a, t, m, u)
  }

  ghost predicate DependencyShape(s: string) {
    || Line(s, "pyproject.toml") || Line(s, "setup.py") || Line(s, "setup.cfg") || Line(s, "Pipfile")
    || Line(s, "Pipfile.lock") || Line(s, "poetry.lock") || Line(s, "uv.lock") || Line(s, "requirements.txt")
    || exists w :: Extra(w) && Line(s, "requirements-" + w + ".txt")
  }

  ghost predicate Extra(w: string) { w != "" && forall i :: 0 <= i < |w| ==> WordChar(w[i]) }

  predicate WordChar(c: char) { '0' <= c <= '9' || 'a' <= c <= 'z' || 'A' <= c <= 'Z' || c == '_' }

  // ---------- letters ----------

  lemma FoldsIs(c: char, p: char)
    ensures Folds(c, p) <==> SameLetter(c, p)
  {
    var low, up := "abcdefghijklmnopqrstuvwxyz", "ABCDEFGHIJKLMNOPQRSTUVWXYZ";
    forall k | 0 <= k < 26 ensures low[k] as int == 97 + k && up[k] as int == 65 + k { Lowers(k); Capitals(k); }
    if 'a' <= p <= 'z' && c as int + 32 == p as int {
      var k := p as int - 97;
      assert p == low[k] && c == up[k];
    }
  }

  lemma Lowers(k: nat)
    requires k < 26
    ensures "abcdefghijklmnopqrstuvwxyz"[k] as int == 97 + k
  {
  }

  lemma Capitals(k: nat)
    requires k < 26
    ensures "ABCDEFGHIJKLMNOPQRSTUVWXYZ"[k] as int == 65 + k
  {
  }

  lemma ReadsIs(t: string, p: string)
    ensures Reads(t, p) <==> |t| == |p| && StartsLike(t, p)
  {
    hide Folds, SameLetter;
    forall i | 0 <= i < |p| && i < |t| ensures Folds(t[i], p[i]) <==> SameLetter(t[i], p[i]) { FoldsIs(t[i], p[i]); }
  }

  lemma StartsReads(s: string, p: string)
    ensures StartsLike(s, p) <==> |p| <= |s| && Reads(s[..|p|], p)
  {
    hide SameLetter, Reads;
    if |p| <= |s| { ReadsIs(s[..|p|], p); }
  }

  lemma EndsReads(s: string, p: string)
    ensures EndsLike(s, p) <==> |p| <= |s| && Reads(s[|s| - |p|..], p)
  {
    hide SameLetter, Reads;
    if |p| <= |s| { ReadsIs(s[|s| - |p|..], p); }
  }

  lemma LineIs(s: string)
    ensures forall y :: Line(s, y) <==> y == s || (s != "" && s[|s| - 1] == '\n' && y == s[..|s| - 1])
  {
    forall y ensures Line(s, y) <==> y == s || (s != "" && s[|s| - 1] == '\n' && y == s[..|s| - 1]) {
      if s != "" && s[|s| - 1] == '\n' && y == s[..|s| - 1] { assert s == y + "\n"; }
      if s == y + "\n" { assert s[|s| - 1] == '\n' && s[..|s| - 1] == y; }
    }
  }

  lemma LineOfChomp(s: string, y: string)
    requires y != "" && y[|y| - 1] != '\n'
    ensures Line(s, y) <==> Chomp(s) == y
  {
    LineIs(s);
  }

  // ---------- protected paths ----------

  lemma BeginsIs(s: string, p: string)
    ensures StartsWith(s, p) <==> exists x :: s == p + x
  {
    if StartsWith(s, p) { assert s == p + s[|p|..]; }
  }

  lemma EnvIs(s: string)
    ensures EnvFile(Chomp(s)) <==> Line(s, ".env") || exists x :: x != "" && '\n' !in x && Line(s, ".env." + x)
  {
    LineOfChomp(s, ".env");
    var c := Chomp(s);
    if StartsWith(c, ".env.") && |c| > 5 && '\n' !in c[5..] {
      var x := c[5..];
      assert c == ".env." + x;
      assert c[|c| - 1] == x[|x| - 1];
      LineOfChomp(s, c);
      assert Line(s, ".env." + x);
    }
    if x :| x != "" && '\n' !in x && Line(s, ".env." + x) {
      var y := ".env." + x;
      assert y[|y| - 1] == x[|x| - 1] && y[5..] == x;
      LineOfChomp(s, y);
    }
  }

  lemma EndsInIs(s: string, e: string)
    requires e != "" && 'a' <= e[|e| - 1] <= 'z'
    ensures EndsIn(s, e) <==> EndsLike(Chomp(s), e)
  {
    hide StartsLike;
    var c := Chomp(s);
    EndsReads(c, e);
    if EndsLike(c, e) {
      var x, t := c[..|c| - |e|], c[|c| - |e|..];
      assert c == x + t;
      NoFeedAtEnd(t, e);
      LineOfChomp(s, c);
      assert Line(s, x + t) && Reads(t, e);
    }
    if x, t :| Line(s, x + t) && Reads(t, e) {
      NoFeedAtEnd(t, e);
      assert (x + t)[|x + t| - 1] == t[|t| - 1];
      LineOfChomp(s, x + t);
      assert c[|c| - |e|..] == t;
    }
  }

  lemma NoFeedAtEnd(t: string, e: string)
    requires Reads(t, e) && e != "" && 'a' <= e[|e| - 1] <= 'z'
    ensures t != "" && t[|t| - 1] != '\n'
  {
    hide Folds;
    FoldsIs(t[|t| - 1], e[|e| - 1]);
  }

  lemma EndingsAre(e: string)
    ensures e in BINARY_ENDINGS <==>
              e in {".exe", ".dll", ".so", ".dylib", ".bin", ".pyc", ".pyd", ".whl", ".tar", ".gz", ".zip", ".png", ".jpg",
                    ".jpeg", ".gif", ".ico"}
    ensures e in BINARY_ENDINGS ==> e != "" && 'a' <= e[|e| - 1] <= 'z'
  {
    var b := BINARY_ENDINGS;
    assert b[0] == ".exe" && b[1] == ".dll" && b[2] == ".so" && b[3] == ".dylib" && b[4] == ".bin" && b[5] == ".pyc"
           && b[6] == ".pyd" && b[7] == ".whl" && b[8] == ".tar" && b[9] == ".gz" && b[10] == ".zip" && b[11] == ".png"
           && b[12] == ".jpg" && b[13] == ".jpeg" && b[14] == ".gif" && b[15] == ".ico" && |b| == 16;
  }

  lemma BinaryIs(s: string)
    ensures (exists i :: 0 <= i < |BINARY_ENDINGS| && EndsLike(Chomp(s), BINARY_ENDINGS[i]))
            <==> exists e :: EndsIn(s, e)
                   && e in {".exe", ".dll", ".so", ".dylib", ".bin", ".pyc", ".pyd", ".whl", ".tar", ".gz", ".zip", ".png",
                            ".jpg", ".jpeg", ".gif", ".ico"}
  {
    hide EndsIn, EndsLike, Chomp;
    var b := BINARY_ENDINGS;
    if i :| 0 <= i < |b| && EndsLike(Chomp(s), b[i]) {
      EndingsAre(b[i]);
      EndsInIs(s, b[i]);
    }
    if e :| EndsIn(s, e) && e in {".exe", ".dll", ".so", ".dylib", ".bin", ".pyc", ".pyd", ".whl", ".tar", ".gz", ".zip",
                                  ".png", ".jpg", ".jpeg", ".gif", ".ico"} {
      EndingsAre(e);
      EndsInIs(s, e);
      var i :| 0 <= i < |b| && b[i] == e;
    }
  }

  // A path is protected exactly when it has one of the shapes.
  lemma ProtectedIff(s: string)
    ensures IsProtected(s) <==> ProtectedShape(s)
  {
    hide EndsLike, Chomp, EnvFile, Line, StartsWith, Reads;
    BeginsIs(s, ".github/workflows/");
    BeginsIs(s, ".git/");
    EnvIs(s);
    BinaryIs(s);
    assert IsProtected(s) <==> ProtectedBy(0, s) || ProtectedBy(1, s) || ProtectedBy(2, s) || ProtectedBy(3, s);
  }

  // So no accepted patch has a target that, once normalised, has one of them.
  lemma NoProtectedTarget(raw: string, claimed: seq<string>, g: Grounds, repo: Option<Repo>, max: Limits, t: string)
    requires t in TargetSet(SplitLines(raw), claimed) && ProtectedShape(Normalize(t, ""))
    ensures !Acceptable(raw, claimed, g, repo, max)
  {
    hide SplitLines, TargetSet, Normalize, IsProtected;
    ProtectedIff(Normalize(t, ""));
  }

  // ---------- test files ----------

  lemma BeginsReads(s: string, p: string)
    ensures StartsLike(s, p) <==> Begins(s, p)
  {
    hide Reads, StartsLike;
    StartsReads(s, p);
    if StartsLike(s, p) { assert s == s[..|p|] + s[|p|..]; }
    if t, x :| s == t + x && Reads(t, p) {
      ReadsIs(t, p);
      assert s[..|p|] == t;
    }
  }

  lemma IncludesReads(s: string, p: string)
    ensures HoldsLike(s, p) <==> Includes(s, p)
  {
    hide Reads, StartsLike;
    if i :| 0 <= i <= |s| && StartsLike(s[i..], p) {
      StartsReads(s[i..], p);
      var t := s[i..][..|p|];
      assert s == s[..i] + t + s[i..][|p|..];
      assert Reads(t, p);
    }
    if a, t, x :| s == a + t + x && Reads(t, p) {
      ReadsIs(t, p);
      assert s[|a|..] == t + x && (t + x)[..|p|] == t;
      StartsReads(s[|a|..], p);
    }
  }

  lemma NamedIs(s: string)
    ensures NamedTest(Chomp(s)) <==> exists a, t, m, u :: NamedShape(s, a, t, m, u)
  {
    hide Reads, StartsLike, Line;
    var c := Chomp(s);
    if i :| 0 <= i <= |c| && StartsLike(c[i..], "test_") && |c| > i + 8 && EndsLike(c, ".py") && '/' !in c[i + 5..|c| - 3] {
      NamedSplit(s, c, i);
    }
    if a, t, m, u :| NamedShape(s, a, t, m, u) { NamedJoined(s, a, t, m, u); }
  }

  lemma NamedSplit(s: string, c: string, i: nat)
    requires c == Chomp(s) && |c| > i + 8 && StartsLike(c[i..], "test_") && EndsLike(c, ".py") && '/' !in c[i + 5..|c| - 3]
    ensures NamedShape(s, c[..i], c[i..i + 5], c[i + 5..|c| - 3], c[|c| - 3..])
  {
    hide Reads, StartsLike, EndsLike;
    var t, m, u := c[i..i + 5], c[i + 5..|c| - 3], c[|c| - 3..];
    StartsReads(c[i..], "test_");
    assert c[i..][..5] == t;
    EndsReads(c, ".py");
    NoFeedAtEnd(u, ".py");
    LineOfChomp(s, c);
    assert c[..i] + t + m + u == c;
  }

  lemma NamedJoined(s: string, a: string, t: string, m: string, u: string)
    requires NamedShape(s, a, t, m, u)
    ensures NamedTest(Chomp(s))
  {
    hide Reads, StartsLike, Line;
    var c, i := a + t + m + u, |a|;
    ReadsIs(t, "test_");
    ReadsIs(u, ".py");
    NoFeedAtEnd(u, ".py");
    assert c[|c| - 1] == u[|u| - 1];
    LineOfChomp(s, c);
    assert c[i..][..5] == t;
    StartsReads(c[i..], "test_");
    assert c[|c| - 3..] == u;
    EndsReads(c, ".py");
    assert c[i + 5..|c| - 3] == m;
  }

  // A path counts as a test file exactly when it has one of the shapes.
  lemma TestIff(s: string)
    ensures IsTest(s) <==> TestShape(s)
  {
    hide StartsLike, HoldsLike, EndsLike, NamedTest, Chomp, Begins, Includes, EndsIn, Line, Reads;
    BeginsReads(s, "test/");
    BeginsReads(s, "tests/");
    IncludesReads(s, "/test/");
    IncludesReads(s, "/tests/");
    EndsInIs(s, "_test.py");
    NamedIs(s);
  }

  // An accepted patch changes or claims something that is no test file.
  lemma SomethingButTests(raw: string, claimed: seq<string>, g: Grounds, repo: Option<Repo>, max: Limits)
    requires Acceptable(raw, claimed, g, repo, max)
    ensures exists t :: t in TargetSet(SplitLines(raw), claimed) && !TestShape(t)
  {
    hide SplitLines, TargetSet, IsTest, TestShape;
    var t :| t in TargetSet(SplitLines(raw), claimed) && !IsTest(t);
    TestIff(t);
  }

  // ---------- dependency files ----------

  lemma RequirementsSplit(c: string)
    requires Requirements(c)
    ensures c == "requirements.txt" || (Extra(c[13..|c| - 4]) && c == "requirements-" + c[13..|c| - 4] + ".txt")
  {
    hide Extra;
    var mid := c[12..|c| - 4];
    assert c[..12] == "requirements" && c[|c| - 4..] == ".txt";
    if mid == "" {
      assert c == c[..12] + c[|c| - 4..];
    } else {
      ExtraIs(c, mid);
      assert c[..13] == c[..12] + [c[12]] && c[12] == mid[0];
      assert c == c[..13] + c[13..|c| - 4] + c[|c| - 4..];
    }
  }

  lemma ExtraIs(c: string, mid: string)
    requires |c| >= 16 && mid == c[12..|c| - 4] && |mid| > 1 && forall i :: 1 <= i < |mid| ==> IsWord(mid[i])
    ensures Extra(c[13..|c| - 4])
  {
    var w := c[13..|c| - 4];
    assert forall i :: 0 <= i < |w| ==> w[i] == mid[i + 1];
  }

  lemma RequirementsJoin(w: string)
    requires Extra(w)
    ensures Requirements("requirements-" + w + ".txt")
  {
    var y := "requirements-" + w + ".txt";
    assert y[..12] == "requirements";
    assert y[12..|y| - 4] == "-" + w;
    assert y[|y| - 4..] == ".txt";
  }

  lemma PlainRequirements()
    ensures Requirements("requirements.txt")
  {
    var y := "requirements.txt";
    assert y[..12] == "requirements" && y[12..] == ".txt";
  }

  lemma RequirementsIs(s: string)
    ensures Requirements(Chomp(s))
            <==> Line(s, "requirements.txt") || exists w :: Extra(w) && Line(s, "requirements-" + w + ".txt")
  {
    hide Line, Requirements, Extra, Chomp;
    var c := Chomp(s);
    LineOfChomp(s, "requirements.txt");
    PlainRequirements();
    if Requirements(c) {
      RequirementsSplit(c);
      RequirementsEnd(c);
      LineOfChomp(s, c);
    }
    if w :| Extra(w) && Line(s, "requirements-" + w + ".txt") {
      RequirementsJoin(w);
      RequirementsEnd("requirements-" + w + ".txt");
      LineOfChomp(s, "requirements-" + w + ".txt");
    }
  }

  lemma RequirementsEnd(y: string)
    requires Requirements(y)
    ensures y != "" && y[|y| - 1] != '\n'
  {
    TxtEnd(y);
  }

  lemma TxtEnd(y: string)
    requires EndsWith(y, ".txt")
    ensures y != "" && y[|y| - 1] == 't'
  {
    assert y[|y| - 4..][3] == 't';
  }

  lemma ManifestIs(c: string)
    ensures c in ["pyproject.toml", "setup.py", "setup.cfg", "Pipfile", "Pipfile.lock", "poetry.lock", "uv.lock"]
            <==> c == "pyproject.toml" || c == "setup.py" || c == "setup.cfg" || c == "Pipfile" || c == "Pipfile.lock"
                 || c == "poetry.lock" || c == "uv.lock"
  {
  }

  // A path counts as a dependency file exactly when it has one of the shapes.
  lemma DependencyIff(s: string)
    ensures IsDependency(s) <==> DependencyShape(s)
  {
    hide Requirements, Chomp, Line, Extra;
    RequirementsIs(s);
    ManifestIs(Chomp(s));
    LineOfChomp(s, "pyproject.toml");
    LineOfChomp(s, "setup.py");
    LineOfChomp(s, "setup.cfg");
    LineOfChomp(s, "Pipfile");
    LineOfChomp(s, "Pipfile.lock");
    LineOfChomp(s, "poetry.lock");
    LineOfChomp(s, "uv.lock");
  }

  // ---------- what one target must meet ----------

  // A name that the failure itself gives: the signal's file, a frame's, or the diagnosis's.
  ghost predicate GivenName(g: Grounds, m: string) {
    m != "" && (g.signalFile == Some(m) || g.diagnosed == Some(m) || Some(m) in g.frames)
  }

  // An accepted target is not protected, neither climbs nor starts at the root, and is an evidence
  // path, or a name the failure gives once cleaned, or a file of the checkout.
  lemma TargetOkIff(g: Grounds, repo: Option<Repo>, path: string)
    ensures TargetOk(g, repo, path)
            <==> && !ProtectedShape(path)
                 && !(exists a, b :: path == a + ".." + b) && (path == "" || path[0] != '/')
                 && (repo.Some? ==> path != "" && '\0' !in path)
                 && (path in g.evidence || (exists m :: GivenName(g, m) && path == Normalize(m, ""))
                     || (repo.Some? && repo.value.root + RealParts(Split(path)) in repo.value.files))
  {
    hide IsProtected, ProtectedShape, Normalize, RealParts, Split, Contains, GivenName;
    ProtectedIff(path);
    PathTheorems.ContainsIff(path, "..");
    MentionedIff(g, path);
  }

  lemma MentionedIff(g: Grounds, path: string)
    ensures Grounded(g, path) <==> path in g.evidence || exists m :: GivenName(g, m) && path == Normalize(m, "")
  {
    hide Normalize;
    if m :| GivenName(g, m) && path == Normalize(m, "") {
      if Some(m) in g.frames {
        var i :| 0 <= i < |g.frames| && g.frames[i] == Some(m);
        assert Mentions(g.frames[i], path);
      }
    }
    if Mentions(g.signalFile, path) { assert GivenName(g, g.signalFile.value); }
    if Mentions(g.diagnosed, path) { assert GivenName(g, g.diagnosed.value); }
    if i :| 0 <= i < |g.frames| && Mentions(g.frames[i], path) { assert GivenName(g, g.frames[i].value); }
  }
}
