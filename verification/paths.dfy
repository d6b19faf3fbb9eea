// Repository-relative paths: cleaning CI runner paths and keeping targets inside the checkout.
module Paths {
  import opened Common
  import opened Text

  const RUNNER_PREFIXES: seq<string> :=
    ["/home/runner/work/", "/workspace/", "/app/", "/runner/", "/root/"]

  const FILE_ENDINGS: seq<string> := [".py", ".json", ".toml", ".yml"]

  function Slashes(s: string): (r: string)
    ensures |r| == |s| && forall i :: 0 <= i < |r| ==> r[i] != '\\'
  {
    seq(|s|, i requires 0 <= i < |s| => if s[i] == '\\' then '/' else s[i])
  }

  function LStripSlash(s: string): (r: string)
    ensures |r| <= |s| && !StartsWith(r, "/")
  {
    if s != "" && s[0] == '/' then LStripSlash(s[1..]) else s
  }

  predicate LooksLikeFile(part: string) {
    exists i :: 0 <= i < |FILE_ENDINGS| && EndsWith(part, FILE_ENDINGS[i])
  }

  // What follows a runner prefix: an optional repeated repository name and the container folder go.
  function BelowPrefix(sub: string, repo: string): (r: string)
    ensures |r| <= |sub|
  {
    var s := if repo != "" && StartsWith(sub, repo + "/") then sub[|repo| + 1..] else sub;
    var cut := Find(s, "/");
    if cut.Some? && !LooksLikeFile(s[..cut.value]) then s[cut.value + 1..] else s
  }

  // The first prefix of the list that occurs anywhere decides.
  function Unprefix(s: string, repo: string, prefixes: seq<string>): (r: string)
    ensures |r| <= |s|
  {
    if prefixes == [] then s
    else
      var at := Find(s, prefixes[0]);
      if at.Some? then BelowPrefix(s[at.value + |prefixes[0]|..], repo)
      else Unprefix(s, repo, prefixes[1..])
  }

  // normalize_repo_relative_path
  function Normalize(raw: string, repo: string): string {
    LStripSlash(Unprefix(Strip(Slashes(raw)), repo, RUNNER_PREFIXES))
  }

  predicate HasPrefixIn(s: string, prefixes: seq<string>) {
    exists i :: 0 <= i < |prefixes| && Contains(s, prefixes[i])
  }

  lemma {:induction false} UnprefixIdle(s: string, repo: string, prefixes: seq<string>)
    requires forall i :: 0 <= i < |prefixes| ==> prefixes[i] != ""
    ensures HasPrefixIn(s, prefixes) ==> |Unprefix(s, repo, prefixes)| < |s|
    ensures !HasPrefixIn(s, prefixes) ==> Unprefix(s, repo, prefixes) == s
  {
    if prefixes != [] {
      UnprefixIdle(s, repo, prefixes[1..]);
      assert forall i :: 1 <= i < |prefixes| ==> prefixes[i] == prefixes[1..][i - 1];
      assert HasPrefixIn(s, prefixes) <==> Contains(s, prefixes[0]) || HasPrefixIn(s, prefixes[1..]);
    }
  }

  predicate NoBackslash(s: string) { forall i :: 0 <= i < |s| ==> s[i] != '\\' }

  lemma {:induction false} LStripSlashIsSuffix(s: string)
    ensures IsSuffix(LStripSlash(s), s)
  {
    if s != "" && s[0] == '/' {
      LStripSlashIsSuffix(s[1..]);
      SuffixTrans(LStripSlash(s), s[1..], s);
    }
  }

  lemma {:induction false} UnprefixIsSuffix(s: string, repo: string, prefixes: seq<string>)
    ensures IsSuffix(Unprefix(s, repo, prefixes), s)
  {
    if prefixes != [] {
      var at := Find(s, prefixes[0]);
      if at.Some? {
        var sub := s[at.value + |prefixes[0]|..];
        BelowPrefixIsSuffix(sub, repo);
        SuffixTrans(BelowPrefix(sub, repo), sub, s);
      } else {
        UnprefixIsSuffix(s, repo, prefixes[1..]);
      }
    }
  }

  lemma BelowPrefixIsSuffix(sub: string, repo: string)
    ensures IsSuffix(BelowPrefix(sub, repo), sub)
  {
    hide IsSuffix, Find, LooksLikeFile;
    var k := if repo != "" && StartsWith(sub, repo + "/") then |repo| + 1 else 0;
    TailIsSuffix(sub, k);
    var s := sub[k..];
    var cut := Find(s, "/");
    var n := if cut.Some? && !LooksLikeFile(s[..cut.value]) then cut.value + 1 else 0;
    TailIsSuffix(s, n);
    SuffixTrans(s[n..], s, sub);
  }

  lemma TailIsSuffix(s: string, n: nat)
    requires n <= |s|
    ensures IsSuffix(s[n..], s) && s[0..] == s
  {
  }

  lemma SuffixNoBackslash(t: string, s: string)
    requires NoBackslash(s) && IsSuffix(t, s)
    ensures NoBackslash(t)
  {
    assert forall i :: 0 <= i < |t| ==> t[i] == s[|s| - |t| + i];
  }

  // The result is an end of the slash-converted, trimmed input; it is relative and has no backslash.
  lemma NormalizedIsSuffix(raw: string, repo: string)
    ensures IsSuffix(Normalize(raw, repo), Strip(Slashes(raw)))
    ensures !StartsWith(Normalize(raw, repo), "/") && NoBackslash(Normalize(raw, repo))
  {
    hide Strip, Unprefix, LStripSlash, IsSuffix, NoBackslash;
    var t := Strip(Slashes(raw));
    var u := Unprefix(t, repo, RUNNER_PREFIXES);
    UnprefixIsSuffix(t, repo, RUNNER_PREFIXES);
    LStripSlashIsSuffix(u);
    SuffixTrans(LStripSlash(u), u, t);
    StrippedNoBackslash(raw);
    SuffixNoBackslash(LStripSlash(u), t);
  }

  lemma StrippedNoBackslash(raw: string)
    ensures NoBackslash(Strip(Slashes(raw)))
  {
    hide LStrip, RStrip, IsSuffix;
    var l := LStrip(Slashes(raw));
    LStripIsSuffix(Slashes(raw));
    SuffixNoBackslash(l, Slashes(raw));
    RStripIsPrefix(l);
  }

  // Normalising a second time, for any repository name, changes nothing exactly when the first
  // result holds no runner prefix and no outer whitespace.
  lemma NormalizeTwice(raw: string, repo: string, again: string)
    ensures var r := Normalize(raw, repo);
            Normalize(r, again) == r <==> Trimmed(r) && !HasPrefixIn(r, RUNNER_PREFIXES)
  {
    NormalizedIsSuffix(raw, repo);
    NormalizeClean(Normalize(raw, repo), again);
  }

  lemma NormalizeClean(r: string, again: string)
    requires !StartsWith(r, "/") && NoBackslash(r)
    ensures Normalize(r, again) == r <==> Trimmed(r) && !HasPrefixIn(r, RUNNER_PREFIXES)
  {
    assert Slashes(r) == r;
    StrippedIs(r, again, RUNNER_PREFIXES);
  }

  lemma StrippedIs(r: string, again: string, prefixes: seq<string>)
    requires !StartsWith(r, "/") && forall i :: 0 <= i < |prefixes| ==> prefixes[i] != ""
    ensures LStripSlash(Unprefix(Strip(r), again, prefixes)) == r <==> Trimmed(r) && !HasPrefixIn(r, prefixes)
  {
    StripTrims(r);
    UnprefixIdle(Strip(r), again, prefixes);
  }

  // ---------- containment ----------

  // The components of a path.
  function Split(s: string): seq<string>
    decreases |s|
  {
    var cut := Find(s, "/");
    if cut.None? then [s] else [s[..cut.value]] + Split(s[cut.value + 1..])
  }

  lemma SplitPlain(name: string)
    requires '/' !in name
    ensures Split(name) == [name]
  {
    FindChar(name, '/');
  }

  lemma SplitCut(s: string, k: nat)
    requires Find(s, "/") == Some(k)
    ensures k < |s| && Split(s) == [s[..k]] + Split(s[k + 1..]) && |Split(s[k + 1..])| > 0
  {
    hide Find;
  }

  // Splitting takes the components off the end one by one.
  lemma {:induction false} SplitLast(p: string, name: string)
    requires '/' !in name
    ensures Split(p + "/" + name) == Split(p) + [name]
    decreases |p|
  {
    hide Find;
    var s := p + "/" + name;
    FindChar(p, '/');
    var cut := Find(p, "/");
    if cut.None? {
      assert s[|p|] == '/' && s[..|p|] == p && s[|p| + 1..] == name;
      FirstSlash(s, |p|);
      SplitPlain(name);
    } else {
      var k := cut.value;
      assert s[k] == '/' && s[..k] == p[..k] && s[k + 1..] == p[k + 1..] + "/" + name;
      FirstSlash(s, k);
      SplitLast(p[k + 1..], name);
      assert [p[..k]] + (Split(p[k + 1..]) + [name]) == [p[..k]] + Split(p[k + 1..]) + [name];
    }
  }

  lemma FirstSlash(s: string, k: nat)
    requires k < |s| && s[k] == '/' && '/' !in s[..k]
    ensures Find(s, "/") == Some(k)
  {
    hide Find;
    assert s[k..][0] == '/';
    forall i | 0 <= i < k ensures !("/" <= s[i..]) { assert s[i..][0] == s[..k][i]; }
    FindIs(s, "/", k);
  }

  // Lexical resolution from a directory given by its components; symbolic links are left out.
  function Walk(at: seq<string>, parts: seq<string>): seq<string>
    decreases |parts|
  {
    if parts == [] then at
    else if parts[0] == "" || parts[0] == "." then Walk(at, parts[1..])
    else if parts[0] == ".." then Walk(if at == [] then [] else at[..|at| - 1], parts[1..])
    else Walk(at + [parts[0]], parts[1..])
  }

  // The test before anything is resolved.
  predicate PlainRelative(target: string) {
    target != "" && !Contains(target, "..") && !StartsWith(target, "/")
  }

  // is_path_safe_and_within_root: the resolved components, None when the path is refused.  A NUL
  // character makes the resolution raise.
  function SafePath(root: seq<string>, target: string): Option<seq<string>> {
    if !PlainRelative(target) || '\0' in target then None
    else
      var candidate := Walk(root, Split(target));
      if root <= candidate then Some(candidate) else None
  }

  function RealParts(parts: seq<string>): seq<string> {
    if parts == [] then []
    else if parts[0] == "" || parts[0] == "." then RealParts(parts[1..])
    else [parts[0]] + RealParts(parts[1..])
  }

  lemma {:induction false} NoDotDotPart(s: string)
    requires !Contains(s, "..")
    ensures ".." !in Split(s)
    decreases |s|
  {
    var cut := Find(s, "/");
    assert s[0..] == s;
    if cut.Some? {
      var c := cut.value;
      var rest := s[c + 1..];
      forall i | 0 <= i <= |rest| ensures !(".." <= rest[i..]) {
        assert s[c + 1 + i..] == rest[i..];
      }
      NotContained(rest, "..");
      NoDotDotPart(rest);
    }
  }

  lemma {:induction false} WalkDescends(at: seq<string>, parts: seq<string>)
    requires ".." !in parts
    ensures Walk(at, parts) == at + RealParts(parts)
    decreases |parts|
  {
    if parts != [] {
      WalkDescends(if parts[0] == "" || parts[0] == "." then at else at + [parts[0]], parts[1..]);
    }
  }

  // Every path the first test lets through resolves inside the root, so the containment test never
  // refuses: an accepted path is exactly the root followed by the target's real components.
  lemma AcceptedPathsDescend(root: seq<string>, target: string)
    ensures SafePath(root, target).Some? <==> PlainRelative(target) && '\0' !in target
    ensures SafePath(root, target).Some? ==> SafePath(root, target).value == root + RealParts(Split(target))
  {
    if PlainRelative(target) {
      NoDotDotPart(target);
      WalkDescends(root, Split(target));
    }
  }
}
