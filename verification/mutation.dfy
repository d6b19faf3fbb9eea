// The Git mutation service: one run of create_pull_request against a GitHub that remembers its pull
// requests, with every external call free to fail, and what any number of sequential runs can do.
module Mutation {
  import opened Common
  import opened Domain

  // ---------- branch names ----------

  predicate IdChar(c: char) {
    'a' <= c <= 'z' || 'A' <= c <= 'Z' || '0' <= c <= '9' || c == '_' || c == '-'
  }

  predicate SafeId(s: string) { forall i :: 0 <= i < |s| ==> IdChar(s[i]) }

  // re.sub(r"[^a-zA-Z0-9_\-]", "", s)
  function CleanId(s: string): (r: string)
    ensures SafeId(r) && |r| <= |s| && (r == s <==> SafeId(s))
  {
    if s == "" then ""
    else
      var rest := CleanId(s[1..]);
      assert SafeId(s) <==> IdChar(s[0]) && SafeId(s[1..]);
      if IdChar(s[0]) then [s[0]] + rest else rest
  }

  // Cleaning works character by character and keeps exactly letters, digits, '_' and '-'.
  lemma {:induction false} CleanIdPlus(s: string, t: string)
    ensures CleanId(s + t) == CleanId(s) + CleanId(t)
  {
    if s == "" {
      assert s + t == t;
    } else {
      assert (s + t)[1..] == s[1..] + t;
      CleanIdPlus(s[1..], t);
    }
  }

  lemma CleanIdOne(c: char)
    ensures CleanId([c])
            == if 'a' <= c <= 'z' || 'A' <= c <= 'Z' || '0' <= c <= '9' || c == '_' || c == '-' then [c] else ""
  {
    assert [c][1..] == "";
  }

  const PREFIX := "akesis/fix/"

  function BranchName(incident: string, proposalId: string): string {
    PREFIX + CleanId(incident) + "/" + CleanId(proposalId)
  }

  predicate BranchChar(c: char) { IdChar(c) || c == '.' || c == '/' }

  // The pattern's final $ also accepts one trailing newline.
  predicate MatchesSafeName(s: string) { AllBranchChars(if |s| > 0 && s[|s| - 1] == '\n' then s[..|s| - 1] else s) }

  predicate AllBranchChars(s: string) { s != "" && forall i :: 0 <= i < |s| ==> BranchChar(s[i]) }

  function Lower(s: string): string {
    seq(|s|, i requires 0 <= i < |s| => if 'A' <= s[i] <= 'Z' then s[i] - 'A' + 'a' else s[i])
  }

  const PROTECTED: set<string> := {"main", "master", "develop", "release", "production", "staging"}

  predicate ValidBranch(s: string) {
    && s != "" && MatchesSafeName(s)
    && !(exists i :: 0 <= i < |s| - 1 && s[i] == '.' && s[i + 1] == '.')
    && s[0] != '/' && s[|s| - 1] != '/'
    && Lower(s) !in PROTECTED
  }

  // Branch names are distinct for distinct ids of safe characters.
  lemma BranchNamesDistinct(i: string, p: string, j: string, q: string)
    requires SafeId(i) && SafeId(p) && SafeId(j) && SafeId(q)
    requires BranchName(i, p) == BranchName(j, q)
    ensures i == j && p == q
  {
    hide CleanId, SafeId;
    assert BranchName(i, p)[|PREFIX|..] == i + "/" + p && BranchName(j, q)[|PREFIX|..] == j + "/" + q;
    SplitAtSlash(i, p, j, q);
  }

  lemma SplitAtSlash(i: string, p: string, j: string, q: string)
    requires SafeId(i) && SafeId(j) && i + "/" + p == j + "/" + q
    ensures i == j && p == q
  {
    var s := i + "/" + p;
    assert s == j + "/" + q && s[|i|] == '/' && s[|j|] == '/';
    assert i == s[..|i|] && j == s[..|j|] && p == s[|i| + 1..] && q == s[|j| + 1..];
  }

  // A generated name is refused exactly when cleaning leaves nothing of the proposal id.
  lemma GeneratedNameValid(incident: string, proposalId: string)
    ensures ValidBranch(BranchName(incident, proposalId)) <==> CleanId(proposalId) != ""
  {
    hide CleanId, BranchChar, Lower, IdChar, PlainName;
    var p, b := CleanId(proposalId), BranchName(incident, proposalId);
    NameIsPlain(incident, proposalId);
    PlainMatches(b);
    LongIsFree(b);
    assert b[0] == 'a';
    assert b[|b| - 1] == if p == "" then '/' else p[|p| - 1];
    assert p != "" ==> IdChar(p[|p| - 1]) && p[|p| - 1] != '/' by { SafeHasNoSlash(p); }
  }

  predicate PlainName(s: string) { forall k :: 0 <= k < |s| ==> BranchChar(s[k]) && s[k] != '.' }

  lemma SafeHasNoSlash(s: string)
    requires SafeId(s)
    ensures forall k :: 0 <= k < |s| ==> IdChar(s[k]) && s[k] != '/'
  {
  }

  lemma NameIsPlain(incident: string, proposalId: string)
    ensures PlainName(BranchName(incident, proposalId)) && |BranchName(incident, proposalId)| > 11
  {
    hide CleanId;
    assert PlainName(PREFIX) && PlainName(CleanId(incident)) && PlainName("/") && PlainName(CleanId(proposalId));
  }

  lemma PlainMatches(s: string)
    requires PlainName(s) && s != ""
    ensures MatchesSafeName(s) && !(exists i :: 0 <= i < |s| - 1 && s[i] == '.' && s[i + 1] == '.')
  {
    assert BranchChar(s[|s| - 1]);
  }

  lemma LongIsFree(s: string)
    requires |s| > 10
    ensures Lower(s) !in PROTECTED
  {
    assert |Lower(s)| > 10;
    assert forall x :: x in PROTECTED ==> |x| <= 10;
  }

  // Letters, digits, '_', '-', '.' and '/'.
  ghost predicate NameText(s: string) {
    s != "" && forall i :: 0 <= i < |s| ==>
      'a' <= s[i] <= 'z' || 'A' <= s[i] <= 'Z' || '0' <= s[i] <= '9' || s[i] == '_' || s[i] == '-' || s[i] == '.' || s[i] == '/'
  }

  // s is name, whatever its ASCII letters' case.
  ghost predicate AnyCase(s: string, name: string) {
    |s| == |name| && forall i :: 0 <= i < |s| ==> s[i] == name[i] || ('A' <= s[i] <= 'Z' && s[i] as int + 32 == name[i] as int)
  }

  // Which names are accepted: safe characters up to one final line feed, no "..", no '/' at either
  // end, and no protected branch in any case of its letters.
  lemma ValidBranchIff(s: string)
    ensures ValidBranch(s)
            <==> (exists body :: NameText(body) && (s == body || s == body + "\n"))
                 && !(exists a, b :: s == a + ".." + b) && !(exists a :: s == a + "/") && !(exists b :: s == "/" + b)
                 && !AnyCase(s, "main") && !AnyCase(s, "master") && !AnyCase(s, "develop") && !AnyCase(s, "release")
                 && !AnyCase(s, "production") && !AnyCase(s, "staging")
  {
    hide MatchesSafeName, Lower, NameText, AnyCase;
    SafeNameIff(s);
    DotsIff(s);
    if s != "" { SlashesIff(s); }
    ProtectedName(s, "main");
    ProtectedName(s, "master");
    ProtectedName(s, "develop");
    ProtectedName(s, "release");
    ProtectedName(s, "production");
    ProtectedName(s, "staging");
  }

  lemma NameTextIs(body: string)
    ensures NameText(body) <==> AllBranchChars(body)
    ensures NameText(body) ==> body != "" && body[|body| - 1] != '\n'
  {
  }

  lemma SafeNameIff(s: string)
    ensures MatchesSafeName(s) <==> exists body :: NameText(body) && (s == body || s == body + "\n")
    ensures MatchesSafeName(s) ==> s != ""
  {
    hide NameText, AllBranchChars;
    var body := if |s| > 0 && s[|s| - 1] == '\n' then s[..|s| - 1] else s;
    assert s == body || s == body + "\n";
    NameTextIs(body);
    if other :| NameText(other) && (s == other || s == other + "\n") {
      NameTextIs(other);
      assert other == body;
    }
  }

  lemma DotsIff(s: string)
    ensures (exists i :: 0 <= i < |s| - 1 && s[i] == '.' && s[i + 1] == '.') <==> exists a, b :: s == a + ".." + b
  {
    if i :| 0 <= i < |s| - 1 && s[i] == '.' && s[i + 1] == '.' { assert s == s[..i] + ".." + s[i + 2..]; }
    if a, b :| s == a + ".." + b { assert s[|a|] == '.' && s[|a| + 1] == '.'; }
  }

  lemma SlashesIff(s: string)
    requires s != ""
    ensures s[|s| - 1] == '/' <==> exists a :: s == a + "/"
    ensures s[0] == '/' <==> exists b :: s == "/" + b
  {
    if s[|s| - 1] == '/' { assert s == s[..|s| - 1] + "/"; }
    if s[0] == '/' { assert s == "/" + s[1..]; }
  }

  lemma ProtectedName(s: string, name: string)
    requires forall i :: 0 <= i < |name| ==> 'a' <= name[i] <= 'z'
    ensures Lower(s) == name <==> AnyCase(s, name)
  {
    assert |Lower(s)| == |s| && forall i :: 0 <= i < |s| ==>
      Lower(s)[i] == if 'A' <= s[i] <= 'Z' then s[i] - 'A' + 'a' else s[i];
  }

  // ---------- records ----------

  datatype MutationStatus = MPending | Applying | Validated | Committed | Pushed | PrCreated | MFailed

  // history: every status stored for the record, the last one being its status column.
  datatype MutRow = MutRow(proposalId: string, commit: string, branch: string, history: seq<MutationStatus>, pr: Option<int>)

  predicate Delivered(r: MutRow) { |r.history| > 0 && r.history[|r.history| - 1].PrCreated? }

  const PATH: seq<MutationStatus> := [MPending, Applying, Validated, Committed, Pushed, PrCreated]

  // A prefix of the path, possibly cut short by FAILED, but never after VALIDATED.
  ghost predicate LegalHistory(h: seq<MutationStatus>) {
    || (1 <= |h| <= |PATH| && h == PATH[..|h|])
    || h == [MPending, MFailed] || h == [MPending, Applying, MFailed]
  }

  datatype Key = Key(owner: string, repo: string, head: string, base: string)

  // author: the mutation record whose run opened it.
  datatype PullRequest = PullRequest(key: Key, number: int, open: bool, author: string)

  // targets: those of the proposal that was pushed.
  datatype Push = Push(author: string, branch: string, head: string, changed: set<string>, targets: seq<string>,
                       revalidation: Validation)

  datatype World = World(rows: map<string, MutRow>, prs: seq<PullRequest>, pushes: seq<Push>)

  datatype Request = Request(context: Context, proposal: Proposal, validation: Validation, approval: Approval)

  predicate Preflight(q: Request) {
    && Usable(q.proposal) && Clean(q.validation) && q.approval.status.Approved?
    && q.approval.proposalId == q.proposal.id && q.approval.commit == q.proposal.commit
    && q.context.commit == q.proposal.commit
  }

  function BranchOf(q: Request): string { BranchName(q.context.incident, q.proposal.id) }

  function KeyOf(q: Request): Key {
    Key(q.context.owner, q.context.repo, BranchOf(q), q.context.branch)
  }

  // get_by_proposal_and_commit; more than one row makes the query raise.
  function Matching(rows: map<string, MutRow>, proposalId: string, commit: string): set<string> {
    set id | id in rows && rows[id].proposalId == proposalId && rows[id].commit == commit
  }

  predicate OpenFor(prs: seq<PullRequest>, key: Key) {
    exists i :: 0 <= i < |prs| && prs[i].open && prs[i].key == key
  }

  datatype Outcome = Done(row: MutRow) | Raised

  // What a push must have been preceded by.
  ghost predicate Gated(p: Push, q: Request) {
    && p.branch == BranchOf(q) && p.head == q.proposal.commit && Clean(p.revalidation)
    && p.targets == q.proposal.targets && (forall f :: f in p.changed ==> f in p.targets)
  }

  // One run, as its callers may rely on it: what it may leave behind however it ends.
  ghost predicate Attempt(w: World, w': World, q: Request, out: Outcome) {
    var mine := Matching(w.rows, q.proposal.id, q.proposal.commit);
    if !Preflight(q) || !ValidBranch(BranchOf(q)) || |mine| > 1 then
      w' == w && out.Raised?
    else if exists id :: id in mine && Delivered(w.rows[id]) then
      w' == w && (out.Done? ==> exists id :: id in mine && out.row == w.rows[id])
    else
      || (w' == w && out.Raised?)
      || exists id :: id in w'.rows && Leaves(w, w', q, id, out)
  }

  // The run stored record id: it adopted the open pull request of its branch, or went its own way.
  ghost predicate Leaves(w: World, w': World, q: Request, id: string, out: Outcome)
    requires id in w'.rows
  {
    var row := w'.rows[id];
    && id !in w.rows && w'.rows == w.rows[id := row]
    && row.proposalId == q.proposal.id && row.commit == q.proposal.commit && row.branch == BranchOf(q)
    && (out.Done? ==> out.row == row && Delivered(row))
    && if OpenFor(w.prs, KeyOf(q)) then
         && w'.prs == w.prs && w'.pushes == w.pushes && row.history == [PrCreated]
         && exists i :: 0 <= i < |w.prs| && w.prs[i].open && w.prs[i].key == KeyOf(q) && row.pr == Some(w.prs[i].number)
       else
         && LegalHistory(row.history)
         && OwnPush(w, w', q, id, row.history) && OwnPullRequest(w, w', q, id, row)
  }

  // Nothing is pushed before COMMITTED is stored, and at most one gated push is made.
  ghost predicate OwnPush(w: World, w': World, q: Request, id: string, h: seq<MutationStatus>) {
    || (w'.pushes == w.pushes && |h| <= 4)
    || (|w'.pushes| == |w.pushes| + 1 && w'.pushes[..|w.pushes|] == w.pushes && |h| >= 4
        && w'.pushes[|w.pushes|].author == id && Gated(w'.pushes[|w.pushes|], q))
  }

  // A pull request is opened after PUSHED is stored, and PR_CREATED only with its number.
  ghost predicate OwnPullRequest(w: World, w': World, q: Request, id: string, row: MutRow) {
    || (w'.prs == w.prs && |row.history| <= 5)
    || (|w'.prs| == |w.prs| + 1 && w'.prs[..|w.prs|] == w.prs && |row.history| >= 5
        && var pr := w'.prs[|w.prs|];
        && pr.key == KeyOf(q) && pr.open && pr.author == id
        && (Delivered(row) ==> row.pr == Some(pr.number)))
  }

  // ---------- the service ----------

  datatype Fate = Works | Fails | Throws  // a command that succeeds, one that reports failure, one that raises

  // How every call of one run turns out.  commits(n) is the n-th database write of the run.
  datatype Env = Env(id: string, lookupOk: bool, findOk: bool, commits: nat -> bool, head: Option<string>,
                     branchOk: bool, check: Fate, apply: Fate, untracked: bool, changed: set<string>,
                     revalidation: Option<Validation>, commitOk: bool, pushed: bool, pushOk: bool,
                     prNumber: Option<int>, prOk: bool)

  // Every call of the run works, the patch applies inside the targets and the revalidation is clean.
  ghost predicate AllWorks(env: Env, q: Request) {
    && env.lookupOk && env.findOk && (forall n: nat {:trigger env.commits(n)} :: env.commits(n))
    && env.head == Some(q.proposal.commit) && env.branchOk && env.check.Works? && env.apply.Works? && !env.untracked
    && (forall f :: f in env.changed ==> f in q.proposal.targets)
    && env.revalidation.Some? && Clean(env.revalidation.value)
    && env.commitOk && env.pushOk && env.prNumber.Some? && env.prOk
  }

  // What such a run leaves when it does the work itself: one record, one push, one pull request.
  ghost predicate Delivers(w: World, w': World, q: Request, env: Env, out: Outcome)
    requires AllWorks(env, q)
  {
    var row := MutRow(q.proposal.id, q.proposal.commit, BranchOf(q), PATH, env.prNumber);
    && out == Done(row) && w'.rows == w.rows[env.id := row]
    && w'.pushes == w.pushes + [Push(env.id, BranchOf(q), q.proposal.commit, env.changed, q.proposal.targets,
                                     env.revalidation.value)]
    && w'.prs == w.prs + [PullRequest(KeyOf(q), env.prNumber.value, true, env.id)]
  }

  // ---------- exactly what one run leaves ----------

  predicate Inside(env: Env, q: Request) { forall f :: f in env.changed ==> f in q.proposal.targets }

  predicate Started(env: Env, q: Request) { env.head == Some(q.proposal.commit) && env.branchOk && env.commits(1) }

  // A stale checkout, a patch that does not apply, files outside the targets, a revalidation that is not clean.
  predicate Refuses(env: Env, q: Request) {
    || (env.head.Some? && env.head.value != q.proposal.commit && env.commits(1))
    || (Started(env, q) && env.commits(2)
        && (env.check.Fails?
            || (env.check.Works?
                && (env.apply.Fails?
                    || (env.apply.Works?
                        && (env.untracked || !Inside(env, q)
                            || (env.revalidation.Some?
                                && !(env.revalidation.value.status.Passed? && env.revalidation.value.exitCode == Some(0)))))))))
  }

  predicate Prepared(env: Env, q: Request) {
    && Started(env, q) && env.commits(2) && env.check.Works? && env.apply.Works? && !env.untracked && Inside(env, q)
    && env.revalidation.Some? && env.revalidation.value.status.Passed? && env.revalidation.value.exitCode == Some(0)
  }

  predicate CommitStored(env: Env, q: Request) { Prepared(env, q) && env.commitOk && env.commits(3) }
  predicate PushStored(env: Env, q: Request) { CommitStored(env, q) && env.pushOk && env.commits(4) }
  predicate AllStored(env: Env, q: Request) { PushStored(env, q) && env.prNumber.Some? && env.prOk && env.commits(5) }

  // The statuses stored, in order.
  function Stored(env: Env, q: Request): seq<MutationStatus> {
    if AllStored(env, q) then [MPending, Applying, Validated, Committed, Pushed, PrCreated]
    else if PushStored(env, q) then [MPending, Applying, Validated, Committed, Pushed]
    else if CommitStored(env, q) then [MPending, Applying, Validated, Committed]
    else if Prepared(env, q) then [MPending, Applying, Validated]
    else (if Started(env, q) then [MPending, Applying] else [MPending]) + if Refuses(env, q) then [MFailed] else []
  }

  // The run stores its own record, pushes the approved commit's branch and asks to merge that branch
  // into the branch that failed.
  ghost predicate OwnWay(w: World, w': World, q: Request, env: Env, out: Outcome) {
    var branch := "akesis/fix/" + CleanId(q.context.incident) + "/" + CleanId(q.proposal.id);
    var row := MutRow(q.proposal.id, q.proposal.commit, branch, Stored(env, q), if AllStored(env, q) then env.prNumber else None);
    && w'.rows == w.rows[env.id := row]
    && out == (if AllStored(env, q) then Done(row) else Raised)
    && w'.pushes == w.pushes
         + (if CommitStored(env, q) && (env.pushed || env.pushOk) then
              [Push(env.id, branch, q.proposal.commit, env.changed, q.proposal.targets, env.revalidation.value)] else [])
    && w'.prs == w.prs
         + (if PushStored(env, q) && env.prNumber.Some? then
              [PullRequest(Key(q.context.owner, q.context.repo, branch, q.context.branch), env.prNumber.value, true, env.id)]
            else [])
  }

  // The record adopts an open pull request of the same branch into the branch that failed.
  ghost predicate Adopts(w: World, w': World, q: Request, env: Env, out: Outcome) {
    var branch := "akesis/fix/" + CleanId(q.context.incident) + "/" + CleanId(q.proposal.id);
    exists pr :: && pr in w.prs && pr.open && pr.key == Key(q.context.owner, q.context.repo, branch, q.context.branch)
                 && var row := MutRow(q.proposal.id, q.proposal.commit, branch, [PrCreated], Some(pr.number));
                    w' == w.(rows := w.rows[env.id := row]) && out == Done(row)
  }

  // The branch pair of the request has an open pull request.
  ghost predicate HasOpen(prs: seq<PullRequest>, q: Request) {
    var branch := "akesis/fix/" + CleanId(q.context.incident) + "/" + CleanId(q.proposal.id);
    exists pr :: pr in prs && pr.open && pr.key.owner == q.context.owner && pr.key.repo == q.context.repo
                 && pr.key.head == branch && pr.key.base == q.context.branch
  }

  ghost predicate Exactly(w: World, w': World, q: Request, env: Env, out: Outcome) {
    var mine := set id | id in w.rows && w.rows[id].proposalId == q.proposal.id && w.rows[id].commit == q.proposal.commit;
    if !(q.proposal.isValid && q.proposal.status.Proposed? && q.validation.status.Passed? && q.validation.exitCode == Some(0)
         && q.approval.status.Approved? && q.approval.proposalId == q.proposal.id && q.approval.commit == q.proposal.commit
         && q.context.commit == q.proposal.commit && CleanId(q.proposal.id) != "" && env.lookupOk && |mine| <= 1) then
      w' == w && out.Raised?
    else if exists id :: id in mine && Delivered(w.rows[id]) then
      w' == w && exists id :: id in mine && out == Done(w.rows[id])
    else if !env.findOk || env.id in w.rows || !env.commits(0) then w' == w && out.Raised?
    else if HasOpen(w.prs, q) then Adopts(w, w', q, env, out)
    else OwnWay(w, w', q, env, out)
  }

  lemma OpenForIs(prs: seq<PullRequest>, q: Request)
    ensures OpenFor(prs, KeyOf(q)) <==> HasOpen(prs, q)
  {
    hide CleanId;
  }

  class MutationService {
    var rows: map<string, MutRow>
    var prs: seq<PullRequest>
    var pushes: seq<Push>

    function State(): World
      reads this
    {
      World(rows, prs, pushes)
    }

    constructor ()
      ensures State() == World(map[], [], [])
    {
      rows, prs, pushes := map[], [], [];
    }

    // find_pull_request: an open pull request of the branch pair, if GitHub has one.
    method FindPullRequest(key: Key) returns (found: Option<PullRequest>)
      ensures found.Some? ==> found.value in prs && found.value.open && found.value.key == key
      ensures found.Some? <==> OpenFor(prs, key)
    {
      for i := 0 to |prs|
        invariant forall j :: 0 <= j < i ==> !(prs[j].open && prs[j].key == key)
      {
        if prs[i].open && prs[i].key == key {
          return Some(prs[i]);
        }
      }
      return None;
    }

    // update_status
    method SetStatus(id: string, st: MutationStatus, commits: bool) returns (ok: bool)
      requires id in rows
      modifies this`rows
      ensures ok == commits
      ensures rows == if ok then old(rows)[id := old(rows)[id].(history := old(rows)[id].history + [st])] else old(rows)
    {
      ok := commits;
      if ok {
        rows := rows[id := rows[id].(history := rows[id].history + [st])];
      }
    }

    method CreatePullRequest(q: Request, env: Env) returns (out: Outcome)
      modifies this
      ensures Exactly(old(State()), State(), q, env, out)
      ensures Attempt(old(State()), State(), q, out)
      ensures AllWorks(env, q) ==> Succeeds(old(State()), State(), q, env, out)
    {
      hide ValidBranch, OwnWay, Adopts, HasOpen, AllWorks, Succeeds, Attempt, OpenFor;
      out := Run(q, env);
      ExactIsAttempt(old(State()), State(), q, env, out);
      if AllWorks(env, q) { ExactSucceeds(old(State()), State(), q, env, out); }
    }

    method Run(q: Request, env: Env) returns (out: Outcome)
      modifies this
      ensures Exactly(old(State()), State(), q, env, out)
    {
      hide ValidBranch, OwnWay, Adopts, HasOpen, OpenFor;
      GeneratedNameValid(q.context.incident, q.proposal.id);
      OpenForIs(prs, q);
      if !Preflight(q) {
        return Raised;
      }
      var branch := BranchOf(q);
      if !ValidBranch(branch) {
        return Raised;
      }
      var existing := Matching(rows, q.proposal.id, q.proposal.commit);
      if !env.lookupOk || |existing| > 1 {
        return Raised;
      }
      if existing != {} {
        var id :| id in existing;
        if Delivered(rows[id]) {
          return Done(rows[id]);
        }
        assert |existing - {id}| == 0;
        assert existing == {id};
      }
      if !env.findOk {
        return Raised;
      }
      out := Proceed(q, env, branch);
    }

    // After the idempotency check: adopt an open pull request, or do the work.
    method Proceed(q: Request, env: Env, branch: string) returns (out: Outcome)
      requires branch == BranchOf(q)
      modifies this
      ensures if env.id in old(rows) || !env.commits(0) then State() == old(State()) && out.Raised?
              else if OpenFor(old(prs), KeyOf(q)) then Adopts(old(State()), State(), q, env, out)
              else OwnWay(old(State()), State(), q, env, out)
    {
      hide OwnWay, Adopts;
      var found := FindPullRequest(KeyOf(q));
      if env.id in rows || !env.commits(0) {
        return Raised;
      }
      if found.Some? {
        out := Adopt(q, env, branch, found.value);
        return;
      }
      out := Work(q, env, branch);
    }

    // The open pull request of the branch pair is adopted; nothing is pushed.
    method Adopt(q: Request, env: Env, branch: string, found: PullRequest) returns (out: Outcome)
      requires branch == BranchOf(q) && env.id !in rows && found in prs && found.open && found.key == KeyOf(q)
      modifies this`rows
      ensures Adopts(old(State()), State(), q, env, out)
    {
      rows := rows[env.id := MutRow(q.proposal.id, q.proposal.commit, branch, [PrCreated], Some(found.number))];
      out := Done(rows[env.id]);
    }

    // The run goes its own way, from PENDING on.
    method Work(q: Request, env: Env, branch: string) returns (out: Outcome)
      requires branch == BranchOf(q) && env.id !in rows
      modifies this
      ensures OwnWay(old(State()), State(), q, env, out)
    {
      hide Stored, Prepared, CommitStored, PushStored, AllStored;
      Milestones(env, q);
      rows := rows[env.id := MutRow(q.proposal.id, q.proposal.commit, branch, [MPending], None)];
      var ok := Prepare(q, env);
      if !ok {
        return Raised;
      }
      out := Deliver(q, env, branch);
    }

    // Checkout, patch, scope and revalidation: up to VALIDATED.
    method Prepare(q: Request, env: Env) returns (ok: bool)
      requires env.id in rows && rows[env.id].history == [MPending]
      modifies this`rows
      ensures env.id in rows && rows == old(rows)[env.id := old(rows)[env.id].(history := rows[env.id].history)]
      ensures ok == Prepared(env, q)
      ensures rows[env.id].history == if ok then [MPending, Applying, Validated] else Stored(env, q)
    {
      hide Stored;
      Unprepared(env, q);
      if env.head.None? {
        return false;
      }
      if env.head.value != q.proposal.commit {
        var _ := SetStatus(env.id, MFailed, env.commits(1));
        return false;
      }
      if !env.branchOk {
        return false;
      }
      ok := SetStatus(env.id, Applying, env.commits(1));
      if !ok {
        return false;
      }
      ok := Check(q, env);
    }

    // git apply, the scope check and the revalidation.
    method Check(q: Request, env: Env) returns (ok: bool)
      requires env.id in rows && rows[env.id].history == [MPending, Applying] && Started(env, q)
      modifies this`rows
      ensures env.id in rows && rows == old(rows)[env.id := old(rows)[env.id].(history := rows[env.id].history)]
      ensures ok == Prepared(env, q)
      ensures rows[env.id].history == [MPending, Applying] + if ok then [Validated] else if Refuses(env, q) then [MFailed] else []
    {
      ok := false;
      if env.check.Throws? || (env.check.Works? && env.apply.Throws?) {
        return;
      }
      if env.check.Fails? || env.apply.Fails? || env.untracked || !(forall f :: f in env.changed ==> f in q.proposal.targets) {
        var _ := SetStatus(env.id, MFailed, env.commits(2));
        return;
      }
      if env.revalidation.None? {
        return;
      }
      if !env.revalidation.value.status.Passed? || env.revalidation.value.exitCode != Some(0) {
        var _ := SetStatus(env.id, MFailed, env.commits(2));
        return;
      }
      ok := SetStatus(env.id, Validated, env.commits(2));
    }

    // Commit, push, pull request.  A call may take effect and still raise.
    method Deliver(q: Request, env: Env, branch: string) returns (out: Outcome)
      requires env.id in rows && rows[env.id].history == [MPending, Applying, Validated] && Prepared(env, q)
      requires branch == BranchOf(q)
      modifies this
      ensures env.id in rows
      ensures rows == old(rows)[env.id := old(rows)[env.id].(history := rows[env.id].history, pr := rows[env.id].pr)]
      ensures rows[env.id].history == Stored(env, q)
      ensures rows[env.id].pr == if AllStored(env, q) then env.prNumber else old(rows)[env.id].pr
      ensures out == if AllStored(env, q) then Done(rows[env.id]) else Raised
      ensures pushes == old(pushes)
                + if CommitStored(env, q) && (env.pushed || env.pushOk) then
                    [Push(env.id, branch, q.proposal.commit, env.changed, q.proposal.targets, env.revalidation.value)]
                  else []
      ensures prs == old(prs)
                + if PushStored(env, q) && env.prNumber.Some? then
                    [PullRequest(KeyOf(q), env.prNumber.value, true, env.id)] else []
    {
      hide Prepared;
      CheckedOut(env, q);
      if !env.commitOk {
        return Raised;
      }
      var ok := SetStatus(env.id, Committed, env.commits(3));
      if !ok {
        return Raised;
      }
      if env.pushed || env.pushOk {
        pushes := pushes + [Push(env.id, branch, env.head.value, env.changed, q.proposal.targets, env.revalidation.value)];
      }
      if !env.pushOk {
        return Raised;
      }
      ok := SetStatus(env.id, Pushed, env.commits(4));
      if !ok {
        return Raised;
      }
      out := OpenPullRequest(q, env);
    }

    method OpenPullRequest(q: Request, env: Env) returns (out: Outcome)
      requires env.id in rows
      modifies this`rows, this`prs
      ensures env.id in rows
      ensures var done, before := env.prNumber.Some? && env.prOk && env.commits(5), old(rows)[env.id];
              && rows == old(rows)[env.id := if done then before.(history := before.history + [PrCreated], pr := env.prNumber)
                                             else before]
              && out == if done then Done(rows[env.id]) else Raised
      ensures prs == old(prs)
                + if env.prNumber.Some? then [PullRequest(KeyOf(q), env.prNumber.value, true, env.id)] else []
    {
      if env.prNumber.None? {
        return Raised;
      }
      var number := env.prNumber.value;
      prs := prs + [PullRequest(KeyOf(q), number, true, env.id)];
      if !env.prOk || !env.commits(5) {
        return Raised;
      }
      rows := rows[env.id := rows[env.id].(history := rows[env.id].history + [PrCreated], pr := Some(number))];
      return Done(rows[env.id]);
    }
  }

  // Each milestone needs the one before.
  lemma Milestones(env: Env, q: Request)
    ensures AllStored(env, q) ==> PushStored(env, q) && env.prNumber.Some?
    ensures PushStored(env, q) ==> CommitStored(env, q) && env.pushOk
    ensures CommitStored(env, q) ==> Prepared(env, q)
    ensures Prepared(env, q) ==> env.revalidation.Some?
  {
  }

  lemma CheckedOut(env: Env, q: Request)
    requires Prepared(env, q)
    ensures env.head == Some(q.proposal.commit) && env.revalidation.Some? && Clean(env.revalidation.value)
    ensures forall f :: f in env.changed ==> f in q.proposal.targets
  {
  }

  lemma Unprepared(env: Env, q: Request)
    ensures Prepared(env, q) ==> Started(env, q)
    ensures !Prepared(env, q) ==>
              Stored(env, q) == (if Started(env, q) then [MPending, Applying] else [MPending])
                                + if Refuses(env, q) then [MFailed] else []
  {
    hide Refuses;
  }

  // ---------- what callers may rely on ----------

  lemma StoredIsLegal(env: Env, q: Request)
    ensures LegalHistory(Stored(env, q))
    ensures |Stored(env, q)| > 0 && Stored(env, q)[|Stored(env, q)| - 1].PrCreated? <==> AllStored(env, q)
    ensures CommitStored(env, q) ==> |Stored(env, q)| >= 4
    ensures PushStored(env, q) ==> |Stored(env, q)| >= 5
    ensures !CommitStored(env, q) ==> |Stored(env, q)| <= 4
    ensures !PushStored(env, q) ==> |Stored(env, q)| <= 4
    ensures !AllStored(env, q) ==> |Stored(env, q)| <= 5
  {
    var full := [MPending, Applying, Validated, Committed, Pushed, PrCreated];
    assert full[..1] == [MPending] && full[..2] == [MPending, Applying] && full[..3] == [MPending, Applying, Validated];
    assert full[..4] == [MPending, Applying, Validated, Committed];
    assert full[..5] == [MPending, Applying, Validated, Committed, Pushed] && full[..6] == full;
  }

  lemma OwnWayLeaves(w: World, w': World, q: Request, env: Env, out: Outcome)
    requires env.id !in w.rows && !OpenFor(w.prs, KeyOf(q)) && OwnWay(w, w', q, env, out)
    ensures env.id in w'.rows && Leaves(w, w', q, env.id, out)
  {
    hide Stored, Prepared, CommitStored, PushStored, AllStored, LegalHistory, CleanId;
    StoredIsLegal(env, q);
    Milestones(env, q);
    if CommitStored(env, q) { CheckedOut(env, q); }
  }

  lemma AdoptsLeaves(w: World, w': World, q: Request, env: Env, out: Outcome)
    requires env.id !in w.rows && OpenFor(w.prs, KeyOf(q)) && Adopts(w, w', q, env, out)
    ensures env.id in w'.rows && Leaves(w, w', q, env.id, out)
  {
  }

  lemma ExactIsAttempt(w: World, w': World, q: Request, env: Env, out: Outcome)
    requires Exactly(w, w', q, env, out)
    ensures Attempt(w, w', q, out)
  {
    hide ValidBranch, OwnWay, Adopts, OpenFor, HasOpen, Leaves;
    GeneratedNameValid(q.context.incident, q.proposal.id);
    OpenForIs(w.prs, q);
    if env.id !in w.rows {
      if OpenFor(w.prs, KeyOf(q)) {
        if Adopts(w, w', q, env, out) { AdoptsLeaves(w, w', q, env, out); }
      } else if OwnWay(w, w', q, env, out) {
        OwnWayLeaves(w, w', q, env, out);
      }
    }
  }

  // When every call works, a request that meets the preflight and is not yet served is served.
  ghost predicate Succeeds(w: World, w': World, q: Request, env: Env, out: Outcome)
    requires AllWorks(env, q)
  {
    Preflight(q) && ValidBranch(BranchOf(q)) && env.id !in w.rows ==>
      var mine := Matching(w.rows, q.proposal.id, q.proposal.commit);
      && (|mine| == 1 && (exists id :: id in mine && Delivered(w.rows[id])) ==> out.Done?)
      && (|mine| <= 1 && (forall id :: id in mine ==> !Delivered(w.rows[id])) ==>
            out.Done? && (!OpenFor(w.prs, KeyOf(q)) ==> Delivers(w, w', q, env, out)))
  }

  lemma ExactSucceeds(w: World, w': World, q: Request, env: Env, out: Outcome)
    requires Exactly(w, w', q, env, out) && AllWorks(env, q)
    ensures Succeeds(w, w', q, env, out)
  {
    hide ValidBranch, OpenFor, HasOpen, CleanId;
    GeneratedNameValid(q.context.incident, q.proposal.id);
    OpenForIs(w.prs, q);
    assert AllStored(env, q);
  }

  // ---------- any number of runs ----------

  // Someone closes or merges a pull request on GitHub.
  ghost predicate Closes(w: World, w': World) {
    exists i :: 0 <= i < |w.prs| && w' == w.(prs := w.prs[i := w.prs[i].(open := false)])
  }

  ghost predicate WorldStep(w: World, w': World) {
    Closes(w, w') || exists q, out :: Attempt(w, w', q, out)
  }

  // Runs one after another, of any proposals, with pull requests closed in between.
  ghost predicate History(ws: seq<World>) {
    && ws != [] && ws[0] == World(map[], [], [])
    && forall i :: 0 <= i < |ws| - 1 ==> WorldStep(ws[i], ws[i + 1])
  }

  // A pull request is from the branch of the record whose run opened it, and the only one of that run.
  ghost predicate Owned(w: World, i: nat)
    requires i < |w.prs|
  {
    && w.prs[i].author in w.rows && w.prs[i].key.head == w.rows[w.prs[i].author].branch
    && (forall j {:trigger w.prs[j]} :: 0 <= j < |w.prs| && j != i ==> w.prs[j].author != w.prs[i].author)
  }

  ghost predicate RowLegal(r: MutRow) { LegalHistory(r.history) || r.history == [PrCreated] }

  ghost predicate PushOk(w: World, p: Push) {
    && p.author in w.rows && p.head == w.rows[p.author].commit && p.branch == w.rows[p.author].branch
    && Clean(p.revalidation) && (forall f :: f in p.changed ==> f in p.targets)
  }

  ghost predicate OneOpen(prs: seq<PullRequest>) {
    forall i, j :: 0 <= i < j < |prs| && prs[i].open && prs[j].open ==> prs[i].key != prs[j].key
  }

  ghost predicate WorldInv(w: World) {
    && OneOpen(w.prs)
    && (forall i {:trigger Owned(w, i)} :: 0 <= i < |w.prs| ==> Owned(w, i))
    && (forall p, c {:trigger Matching(w.rows, p, c)} :: |Matching(w.rows, p, c)| <= 2)
    && (forall id :: id in w.rows ==> RowLegal(w.rows[id]))
    && (forall i :: 0 <= i < |w.pushes| ==> PushOk(w, w.pushes[i]))
  }

  lemma MatchingGrows(rows: map<string, MutRow>, id: string, row: MutRow, p: string, c: string)
    requires id !in rows
    ensures Matching(rows[id := row], p, c)
            == Matching(rows, p, c) + (if row.proposalId == p && row.commit == c then {id} else {})
  {
  }

  lemma LeavesKeepsInv(w: World, w': World, q: Request, id: string, out: Outcome)
    requires WorldInv(w) && id in w'.rows && Leaves(w, w', q, id, out)
    requires |Matching(w.rows, q.proposal.id, q.proposal.commit)| <= 1
    ensures WorldInv(w')
  {
    hide Matching, Owned, PushOk, OneOpen, OwnPush, OwnPullRequest;
    forall p, c ensures |Matching(w'.rows, p, c)| <= 2 { MatchingGrows(w.rows, id, w'.rows[id], p, c); }
    LeavesOwned(w, w', q, id, out);
    LeavesOneOpen(w, w', q, id, out);
    LeavesPushes(w, w', q, id, out);
  }

  lemma LeavesOwned(w: World, w': World, q: Request, id: string, out: Outcome)
    requires WorldInv(w) && id in w'.rows && Leaves(w, w', q, id, out)
    ensures forall i :: 0 <= i < |w'.prs| ==> Owned(w', i)
  {
    hide Matching, PushOk, OneOpen, OwnPush, LegalHistory;
    forall i | 0 <= i < |w'.prs| ensures Owned(w', i) {
      if i < |w.prs| { assert Owned(w, i); }
      forall j | 0 <= j < |w.prs| ensures w'.prs[j] == w.prs[j] && w.prs[j].author in w.rows {
        assert Owned(w, j);
        assert w'.prs[..|w.prs|][j] == w.prs[j];
      }
    }
  }

  lemma LeavesPushes(w: World, w': World, q: Request, id: string, out: Outcome)
    requires WorldInv(w) && id in w'.rows && Leaves(w, w', q, id, out)
    ensures forall i :: 0 <= i < |w'.pushes| ==> PushOk(w', w'.pushes[i])
  {
    hide Matching, Owned, OneOpen, OwnPullRequest, LegalHistory;
    forall i | 0 <= i < |w'.pushes| ensures PushOk(w', w'.pushes[i]) {
      if i < |w.pushes| {
        assert w'.pushes[..|w.pushes|][i] == w.pushes[i];
        assert PushOk(w, w.pushes[i]);
      }
    }
  }

  lemma LeavesOneOpen(w: World, w': World, q: Request, id: string, out: Outcome)
    requires OneOpen(w.prs) && id in w'.rows && Leaves(w, w', q, id, out)
    ensures OneOpen(w'.prs)
  {
    forall j | 0 <= j < |w.prs| && j < |w'.prs| ensures w'.prs[j] == w.prs[j] {
      assert w'.prs[..|w.prs|][j] == w.prs[j];
    }
  }

  lemma ClosesKeepsInv(w: World, w': World)
    requires WorldInv(w) && Closes(w, w')
    ensures WorldInv(w')
  {
    forall i | 0 <= i < |w'.prs| ensures Owned(w', i) { assert Owned(w, i); }
    forall i | 0 <= i < |w'.pushes| ensures PushOk(w', w'.pushes[i]) { assert PushOk(w, w.pushes[i]); }
  }

  lemma WorldStepKeepsInv(w: World, w': World)
    requires WorldInv(w) && WorldStep(w, w')
    ensures WorldInv(w')
  {
    if Closes(w, w') {
      ClosesKeepsInv(w, w');
    } else {
      var q, out :| Attempt(w, w', q, out);
      if w' != w {
        var id :| id in w'.rows && Leaves(w, w', q, id, out);
        LeavesKeepsInv(w, w', q, id, out);
      }
    }
  }

  lemma {:induction false} HistoryInv(ws: seq<World>, n: nat)
    requires History(ws) && n < |ws|
    ensures WorldInv(ws[n])
  {
    if n > 0 {
      HistoryInv(ws, n - 1);
      WorldStepKeepsInv(ws[n - 1], ws[n - 1 + 1]);
    }
  }

  // At no time are two pull requests of the same branch pair open.
  lemma OneOpenPullRequest(ws: seq<World>, n: nat)
    requires History(ws) && n < |ws|
    ensures OneOpen(ws[n].prs)
  {
    HistoryInv(ws, n);
  }

  // A third run for one proposal and commit finds two records and raises, so there are never more
  // than two records, and never more than two pull requests, open or closed.
  lemma AtMostTwoAttempts(ws: seq<World>, n: nat, p: string, c: string)
    requires History(ws) && n < |ws|
    ensures |Matching(ws[n].rows, p, c)| <= 2
    ensures forall i, j, k :: 0 <= i < j < k < |ws[n].prs| ==>
              !({ws[n].prs[i].author, ws[n].prs[j].author, ws[n].prs[k].author} <= Matching(ws[n].rows, p, c))
  {
    HistoryInv(ws, n);
    var w, m := ws[n], Matching(ws[n].rows, p, c);
    assert |m| <= 2;
    forall i, j, k | 0 <= i < j < k < |w.prs|
      ensures !({w.prs[i].author, w.prs[j].author, w.prs[k].author} <= m)
    {
      assert Owned(w, i) && Owned(w, j) && Owned(w, k);
      var three := {w.prs[i].author, w.prs[j].author, w.prs[k].author};
      assert |three| == 3;
      if three <= m { SubsetCard(three, m); }
    }
  }

  // Such a third run exists: two runs whose checkout was stale leave two FAILED records, and from then
  // on every run for the proposal raises, whatever works.
  lemma ThirdAttemptRaises(q: Request, a: string, b: string)
    requires Preflight(q) && ValidBranch(BranchOf(q)) && a != b
    ensures exists ws: seq<World> ::
              && History(ws) && |ws| == 3 && |Matching(ws[2].rows, q.proposal.id, q.proposal.commit)| == 2
              && forall w', out :: Attempt(ws[2], w', q, out) ==> w' == ws[2] && out.Raised?
  {
    hide Attempt, Preflight, ValidBranch;
    var w0 := World(map[], [], []);
    var w1 := w0.(rows := map[a := StaleRow(q)]);
    var w2 := w0.(rows := map[a := StaleRow(q)][b := StaleRow(q)]);
    assert Matching(w0.rows, q.proposal.id, q.proposal.commit) == {};
    StaleAttempt(w0, q, a);
    StaleAttempt(w1, q, b);
    assert WorldStep(w0, w1) && WorldStep(w1, w2);
    ThreeWorlds(w0, w1, w2);
    forall w', out | Attempt(w2, w', q, out) ensures w' == w2 && out.Raised? { TwoRecordsRaise(w2, w', q, out); }
    assert [w0, w1, w2][2] == w2;
  }

  function StaleRow(q: Request): MutRow {
    MutRow(q.proposal.id, q.proposal.commit, BranchOf(q), [MPending, MFailed], None)
  }

  lemma ThreeWorlds(w0: World, w1: World, w2: World)
    requires w0 == World(map[], [], []) && WorldStep(w0, w1) && WorldStep(w1, w2)
    ensures History([w0, w1, w2])
  {
    hide WorldStep;
  }

  lemma TwoRecordsRaise(w: World, w': World, q: Request, out: Outcome)
    requires |Matching(w.rows, q.proposal.id, q.proposal.commit)| > 1 && Attempt(w, w', q, out)
    ensures w' == w && out.Raised?
  {
  }

  // HEAD is not the approved commit.
  lemma StaleAttempt(w: World, q: Request, id: string)
    requires Preflight(q) && ValidBranch(BranchOf(q)) && id !in w.rows && w.prs == []
    requires |Matching(w.rows, q.proposal.id, q.proposal.commit)| <= 1
    requires forall j :: j in w.rows ==> !Delivered(w.rows[j])
    ensures var w' := w.(rows := w.rows[id := StaleRow(q)]);
            && Attempt(w, w', q, Raised)
            && Matching(w'.rows, q.proposal.id, q.proposal.commit)
               == Matching(w.rows, q.proposal.id, q.proposal.commit) + {id}
  {
    hide Preflight, ValidBranch, Leaves, Matching, BranchOf;
    var w' := w.(rows := w.rows[id := StaleRow(q)]);
    MatchingGrows(w.rows, id, StaleRow(q), q.proposal.id, q.proposal.commit);
    StaleLeaves(w, q, id);
    assert id in w'.rows && Leaves(w, w', q, id, Raised);
    assert forall j :: j in Matching(w.rows, q.proposal.id, q.proposal.commit) ==> j in w.rows by {
      MatchingStored(w.rows, q.proposal.id, q.proposal.commit);
    }
  }

  lemma StaleLeaves(w: World, q: Request, id: string)
    requires id !in w.rows && w.prs == []
    ensures Leaves(w, w.(rows := w.rows[id := StaleRow(q)]), q, id, Raised)
  {
  }

  lemma MatchingStored(rows: map<string, MutRow>, proposalId: string, commit: string)
    ensures Matching(rows, proposalId, commit) <= rows.Keys
  {
  }

  lemma SubsetCard(a: set<string>, b: set<string>)
    requires a <= b
    ensures |a| <= |b|
  {
    assert b == a + (b - a);
  }

  // Stored statuses follow the path, FAILED never after VALIDATED; and every push ever made was of
  // the record's branch and approved commit, changed only the proposal's targets, and came after a
  // revalidation that passed.  Every pull request is from the branch of its author's record.
  lemma HistoriesAreLegal(ws: seq<World>, n: nat)
    requires History(ws) && n < |ws|
    ensures forall id :: id in ws[n].rows ==> RowLegal(ws[n].rows[id])
    ensures forall i :: 0 <= i < |ws[n].pushes| ==> PushOk(ws[n], ws[n].pushes[i])
    ensures forall i :: 0 <= i < |ws[n].prs| ==> Owned(ws[n], i)
  {
    HistoryInv(ws, n);
  }

  // Once a run succeeded, no later run of the same proposal and commit changes anything.
  lemma SuccessIsFinal(w: World, w': World, q: Request, out: Outcome, id: string)
    requires id in w.rows && Delivered(w.rows[id]) && Attempt(w, w', q, out)
    requires w.rows[id].proposalId == q.proposal.id && w.rows[id].commit == q.proposal.commit
    ensures w' == w
    ensures out.Done? ==> out.row == w.rows[id]
    ensures |Matching(w.rows, q.proposal.id, q.proposal.commit)| > 1 ==> out.Raised?
  {
    var mine := Matching(w.rows, q.proposal.id, q.proposal.commit);
    assert id in mine;
    if |mine| <= 1 {
      assert |mine - {id}| == 0;
      assert mine == {id};
    }
  }

  // Records are never changed by later runs.
  lemma {:induction false} RecordsSurvive(ws: seq<World>, m: nat, n: nat, id: string)
    requires History(ws) && m <= n < |ws| && id in ws[m].rows
    ensures id in ws[n].rows && ws[n].rows[id] == ws[m].rows[id]
  {
    if m < n {
      RecordsSurvive(ws, m, n - 1, id);
      var w, w' := ws[n - 1], ws[n - 1 + 1];
      assert WorldStep(w, w');
      if !Closes(w, w') {
        var q, out :| Attempt(w, w', q, out);
      }
    }
  }
}
