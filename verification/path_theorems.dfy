// What cleaning a path does, told by the parts of the path.
module PathTheorems {
  import opened Common
  import opened Text
  import opened Paths

  lemma ContainsIff(s: string, p: string)
    ensures Contains(s, p) <==> exists a, b :: s == a + p + b
  {
    hide Find;
    if Contains(s, p) {
      var k := Find(s, p).value;
      assert s == s[..k] + p + s[k + |p|..];
    }
    if a, b :| s == a + p + b {
      assert s[|a|..] == p + b;
      assert p <= s[|a|..];
    }
  }

  ghost predicate AllSpace(w: string) { forall i :: 0 <= i < |w| ==> IsSpace(w[i]) }

  // Stripping cuts whitespace off both ends, all of it and nothing else.
  lemma StripCuts(s: string) returns (a: string, b: string)
    ensures s == a + Strip(s) + b && AllSpace(a) && AllSpace(b) && Trimmed(Strip(s))
  {
    hide IsSpace;
    StripTrims(s);
    a := LeftCut(s);
    b := RightCut(LStrip(s));
  }

  lemma {:induction false} LeftCut(s: string) returns (a: string)
    ensures s == a + LStrip(s) && AllSpace(a)
  {
    a := "";
    if s != "" && IsSpace(s[0]) {
      var b := LeftCut(s[1..]);
      a := [s[0]] + b;
      assert s == [s[0]] + s[1..];
    }
  }

  lemma {:induction false} RightCut(s: string) returns (b: string)
    ensures s == RStrip(s) + b && AllSpace(b)
  {
    b := "";
    if s != "" && IsSpace(s[|s| - 1]) {
      var c := RightCut(s[..|s| - 1]);
      b := c + [s[|s| - 1]];
      assert s == s[..|s| - 1] + [s[|s| - 1]];
    }
  }

  // Backslashes count as slashes and outer whitespace is dropped first.
  lemma CleanedFirst(raw: string, repo: string)
    ensures Normalize(raw, repo) == Normalize(Strip(Slashes(raw)), repo)
    ensures |Slashes(raw)| == |raw|
    ensures forall i :: 0 <= i < |raw| ==> Slashes(raw)[i] == if raw[i] == '\\' then '/' else raw[i]
  {
    hide Unprefix, LStripSlash, Strip;
    var t := Strip(Slashes(raw));
    StrippedNoBackslash(raw);
    assert Slashes(t) == t;
    StripTrims(Slashes(raw));
    StripTrims(t);
  }

  // The directories of CI runners, in the order in which they are looked for.
  ghost predicate Runner(k: nat, p: string) {
    || (k == 0 && p == "/home/runner/work/") || (k == 1 && p == "/workspace/") || (k == 2 && p == "/app/")
    || (k == 3 && p == "/runner/") || (k == 4 && p == "/root/")
  }

  // s is a + p + sub, where p is the first of those directories that occurs and a its first place.
  ghost predicate Found(s: string, k: nat, a: string, p: string, sub: string) {
    && Runner(k, p) && s == a + p + sub
    && (forall i :: 0 <= i < |a| ==> !(p <= s[i..]))
    && forall j: nat, q :: Runner(j, q) && j < k ==> !Contains(s, q)
  }

  // The container directory behind it goes, unless it is named like a file.
  ghost predicate Below(sub: string, rest: string) {
    || ('/' !in sub && rest == sub)
    || exists d, r :: sub == d + "/" + r && '/' !in d
         && rest == if EndsWith(d, ".py") || EndsWith(d, ".json") || EndsWith(d, ".toml") || EndsWith(d, ".yml") then sub else r
  }

  lemma RunnerIs(k: nat, p: string)
    ensures Runner(k, p) <==> k < |RUNNER_PREFIXES| && RUNNER_PREFIXES[k] == p
  {
  }

  lemma FileNames(d: string)
    ensures LooksLikeFile(d) <==> EndsWith(d, ".py") || EndsWith(d, ".json") || EndsWith(d, ".toml") || EndsWith(d, ".yml")
  {
    hide EndsWith;
    var e := FILE_ENDINGS;
    assert |e| == 4 && e[0] == ".py" && e[1] == ".json" && e[2] == ".toml" && e[3] == ".yml";
  }

  lemma BelowIs(sub: string)
    ensures Below(sub, BelowPrefix(sub, ""))
  {
    hide Find, LooksLikeFile, EndsWith;
    FindChar(sub, '/');
    var cut := Find(sub, "/");
    if cut.Some? {
      CutAt(sub, cut.value);
      FileNames(sub[..cut.value]);
    }
  }

  lemma CutAt(s: string, k: nat)
    requires k < |s| && s[k] == '/'
    ensures s == s[..k] + "/" + s[k + 1..]
  {
  }

  // A repeated repository name is dropped before that.
  lemma RepeatedName(sub: string, repo: string)
    ensures repo != "" ==> BelowPrefix(repo + "/" + sub, repo) == BelowPrefix(sub, "")
    ensures repo == "" || !StartsWith(sub, repo + "/") ==> BelowPrefix(sub, repo) == BelowPrefix(sub, "")
  {
    hide Find, LooksLikeFile;
    if repo != "" {
      var s := repo + "/" + sub;
      assert s[|repo| + 1..] == sub && repo + "/" <= s;
    }
  }

  lemma {:induction false} UnprefixFrom(s: string, repo: string, k: nat, n: nat)
    requires k <= n < |RUNNER_PREFIXES| && forall j :: k <= j < n ==> !Contains(s, RUNNER_PREFIXES[j])
    ensures Unprefix(s, repo, RUNNER_PREFIXES[k..]) == Unprefix(s, repo, RUNNER_PREFIXES[n..])
    decreases n - k
  {
    hide Find, BelowPrefix;
    if k < n {
      assert RUNNER_PREFIXES[k..][0] == RUNNER_PREFIXES[k] && RUNNER_PREFIXES[k..][1..] == RUNNER_PREFIXES[k + 1..];
      UnprefixFrom(s, repo, k + 1, n);
    }
  }

  // A path below a runner directory: what follows the first of them.
  lemma RunnerPath(s: string, repo: string, k: nat, a: string, p: string, sub: string)
    requires Trimmed(s) && NoBackslash(s) && Found(s, k, a, p, sub)
    ensures Normalize(s, repo) == LStripSlash(BelowPrefix(sub, repo))
  {
    hide Find, BelowPrefix, Contains, Trimmed, Strip, Slashes, LStripSlash, Unprefix, Runner;
    RunnerIs(k, p);
    assert Slashes(s) == s by { SlashesIdle(s); }
    StripTrims(s);
    forall j | 0 <= j < k ensures !Contains(s, RUNNER_PREFIXES[j]) { RunnerIs(j, RUNNER_PREFIXES[j]); }
    UnprefixFrom(s, repo, 0, k);
    assert RUNNER_PREFIXES[0..] == RUNNER_PREFIXES;
    assert s[|a|..] == p + sub && s[|a| + |p|..] == sub;
    FindIs(s, p, |a|);
    UnprefixHere(s, repo, k, |a|);
  }

  lemma SlashesIdle(s: string)
    requires NoBackslash(s)
    ensures Slashes(s) == s
  {
  }

  lemma UnprefixHere(s: string, repo: string, k: nat, at: nat)
    requires k < |RUNNER_PREFIXES| && Find(s, RUNNER_PREFIXES[k]) == Some(at)
    ensures Unprefix(s, repo, RUNNER_PREFIXES[k..]) == BelowPrefix(s[at + |RUNNER_PREFIXES[k]|..], repo)
  {
    hide Find, BelowPrefix;
    assert RUNNER_PREFIXES[k..][0] == RUNNER_PREFIXES[k];
  }

  // A path that holds none of them is kept.
  lemma PlainPath(s: string, repo: string)
    requires Trimmed(s) && NoBackslash(s) && forall k: nat, p :: Runner(k, p) ==> !Contains(s, p)
    ensures Normalize(s, repo) == LStripSlash(s)
  {
    hide Trimmed, Strip, Slashes, LStripSlash, Unprefix, Runner, Contains;
    SlashesIdle(s);
    StripTrims(s);
    forall j | 0 <= j < |RUNNER_PREFIXES| ensures !Contains(s, RUNNER_PREFIXES[j]) { RunnerIs(j, RUNNER_PREFIXES[j]); }
    UnprefixIdle(s, repo, RUNNER_PREFIXES);
  }

  // In the end leading slashes go, all of them and nothing else.
  lemma {:induction false} SlashesGo(s: string) returns (slashes: string)
    ensures s == slashes + LStripSlash(s) && (forall i :: 0 <= i < |slashes| ==> slashes[i] == '/')
    ensures !StartsWith(LStripSlash(s), "/")
  {
    slashes := "";
    if s != "" && s[0] == '/' {
      var more := SlashesGo(s[1..]);
      slashes := "/" + more;
      assert s == "/" + s[1..];
    }
  }

  // A path is accepted exactly when it is not empty, does not start at the root, and holds neither
  // ".." nor a NUL character.
  lemma AcceptedIff(root: seq<string>, target: string)
    ensures SafePath(root, target).Some?
            <==> target != "" && target[0] != '/' && !(exists a, b :: target == a + ".." + b) && '\0' !in target
  {
    hide Contains, Split, Walk;
    AcceptedPathsDescend(root, target);
    ContainsIff(target, "..");
  }
}
