// The two services that feed the protocol: fix synthesis, with its gates around the patch validator,
// and sandbox validation.  Put together with the protocol they give the end-to-end guarantee: no run
// ever mutates a repository with a diff that the validator refuses or the sandbox did not pass.
module Services {
  import opened Common
  import opened Domain
  import opened Protocol
  import ContextResolver
  import DiffTheorems
  import Mutation
  import PatchValidator
  import Paths
  import ProtocolResume
  import ProtocolTheorems
  import Repositories
  import Text

  datatype Diagnosis = Diagnosis(fixable: bool, confidence: real, targetFile: Option<string>)

  // What the language model answers.
  datatype RawFix = RawFix(diff: string, claimed: seq<string>, confidence: real)

  // The failure signal of a context.
  datatype Signal = Signal(file: Option<string>, line: Option<int>, frames: seq<(string, int)>, category: Category,
                           mentionsTypes: bool)

  // answer None: the provider raised.
  datatype FixInput = FixInput(context: Context, signal: Signal, diagnosis: Diagnosis,
                               evidence: Option<ContextResolver.Package>, answer: Option<RawFix>,
                               repo: Option<PatchValidator.Repo>, max: PatchValidator.Limits, minConfidence: real)

  // ---------- generate_fix_proposal ----------

  function FixId(c: Context): string { "fix_" + c.incident + "_" + ShortSha(c.commit) }

  predicate HasEvidence(e: Option<ContextResolver.Package>) {
    e.Some? && !e.value.status.Unavailable? && !e.value.status.Empty? && e.value.evidences != []
  }

  function GroundsOf(x: FixInput): PatchValidator.Grounds {
    var shown := if x.evidence.Some? then x.evidence.value.evidences else [];
    var frames := x.signal.frames;
    PatchValidator.Grounds(seq(|shown|, i requires 0 <= i < |shown| => shown[i].path), x.signal.file,
                           seq(|frames|, i requires 0 <= i < |frames| => Some(frames[i].0)), x.diagnosis.targetFile)
  }

  function Clamp(x: real): real { if x < 0.0 then 0.0 else if x > 1.0 then 1.0 else x }

  // To hundredths; halves go up.
  function Round2(x: real): real { (x * 100.0 + 0.5).Floor as real / 100.0 }

  lemma RoundedStaysInside(x: real)
    ensures 0.0 <= Round2(Clamp(x)) <= 1.0
  {
    var y := Clamp(x) * 100.0 + 0.5;
    assert 0 <= y.Floor <= 100;
  }

  // Clamping takes the nearest value between 0 and 1, rounding the nearest hundredth, halves up.
  lemma RoundedIsNear(x: real) returns (k: int)
    ensures (0.0 <= x <= 1.0 ==> Clamp(x) == x) && (x < 0.0 ==> Clamp(x) == 0.0) && (x > 1.0 ==> Clamp(x) == 1.0)
    ensures Round2(x) == k as real / 100.0 && k as real - 0.5 <= 100.0 * x < k as real + 0.5
  {
    k := (x * 100.0 + 0.5).Floor;
  }

  ghost predicate Accepts(x: FixInput) {
    x.answer.Some?
    && PatchValidator.Acceptable(x.answer.value.diff, x.answer.value.claimed, GroundsOf(x), x.repo, x.max)
  }

  predicate Fixable(x: FixInput) { x.diagnosis.fixable && x.diagnosis.confidence >= x.minConfidence }

  // What a proposal says about its making: it is proposed exactly when every gate is passed, and only
  // then does it carry a diff, the model's own; its confidence is the model's, clamped and rounded.
  ghost predicate FixResult(x: FixInput, p: Proposal) {
    var fixable := x.diagnosis.fixable && x.diagnosis.confidence >= x.minConfidence;
    var evidence := x.evidence.Some? && x.evidence.value.status in {ContextResolver.Success, ContextResolver.Partial}
                    && |x.evidence.value.evidences| > 0;
    && p.id == "fix_" + x.context.incident + "_" + (if |x.context.commit| > 8 then x.context.commit[..8] else x.context.commit)
    && p.incident == x.context.incident && p.commit == x.context.commit
    && (p.isValid <==> p.status.Proposed?)
    && (p.status.Ineligible? <==> !fixable)
    && (p.status.Proposed? <==> fixable && evidence && Accepts(x))
    && p.confidence == (if !fixable then x.diagnosis.confidence
                        else if evidence && x.answer.Some? then Round2(Clamp(x.answer.value.confidence))
                        else 0.0)
    && (if p.status.Proposed? then
          && p.diff == x.answer.value.diff && NoDuplicates(p.targets)
          && (forall t :: t in p.targets
                          <==> t in PatchValidator.TargetSet(Text.SplitLines(p.diff), x.answer.value.claimed))
        else p.diff == "")
  }

  method GenerateFixProposal(x: FixInput) returns (p: Proposal)
    ensures FixResult(x, p)
  {
    hide Accepts, PatchValidator.TargetSet, Text.SplitLines, Round2, Clamp;
    var c := x.context;
    if !x.diagnosis.fixable || x.diagnosis.confidence < x.minConfidence {
      return Proposal(FixId(c), c.incident, c.commit, Ineligible, false, "", [], x.diagnosis.confidence);
    }
    NoAnswer(x);
    if !HasEvidence(x.evidence) || x.answer.None? {
      return Proposal(FixId(c), c.incident, c.commit, ProposalRejected, false, "", [], 0.0);
    }
    var raw := x.answer.value;
    var valid, targets := ValidateDiff(x);
    p := Proposal(FixId(c), c.incident, c.commit, if valid then Proposed else ProposalRejected, valid,
                  if valid then raw.diff else "", targets, Round2(Clamp(raw.confidence)));
  }

  lemma NoAnswer(x: FixInput)
    ensures x.answer.None? ==> !Accepts(x)
  {
  }

  // The validator's verdict on the model's diff.
  method ValidateDiff(x: FixInput) returns (valid: bool, targets: seq<string>)
    requires x.answer.Some?
    ensures valid == Accepts(x)
    ensures valid ==> NoDuplicates(targets)
                      && forall t :: t in targets
                           <==> t in PatchValidator.TargetSet(Text.SplitLines(x.answer.value.diff), x.answer.value.claimed)
  {
    hide PatchValidator.Acceptable, PatchValidator.TargetSet, PatchValidator.Targets, PatchValidator.Justified, GroundsOf,
         PatchValidator.SomeDependency, PatchValidator.RiskOf, PatchValidator.DiffParser.Parse, Text.SplitLines;
    var raw := x.answer.value;
    var verdict := PatchValidator.ValidatePatch(raw.diff, raw.claimed, GroundsOf(x), x.repo, x.max);
    valid := PatchValidator.Valid(verdict);
    targets := if verdict.Judged? then verdict.targets else [];
    if valid { AcceptedTargets(x, verdict); }
  }

  lemma AcceptedTargets(x: FixInput, v: PatchValidator.Verdict)
    requires Accepts(x) && PatchValidator.Valid(v)
    requires v.patches == PatchValidator.DiffParser.Parse(Text.SplitLines(x.answer.value.diff)).patches
    requires v.targets == PatchValidator.Targets(v.patches, x.answer.value.claimed)
    ensures NoDuplicates(v.targets)
    ensures forall t :: t in v.targets
                        <==> t in PatchValidator.TargetSet(Text.SplitLines(x.answer.value.diff), x.answer.value.claimed)
  {
    hide PatchValidator.TargetSet, DiffTheorems.WellFormed, PatchValidator.DiffParser.Parse, Text.SplitLines;
    DiffTheorems.ErrorFreeIffWellFormed(Text.SplitLines(x.answer.value.diff));
    PatchValidator.TargetsAre(x.answer.value.diff, v.patches, x.answer.value.claimed);
  }

  // ---------- validate_fix ----------

  datatype Category = Lint | Test | Dependency | Build | Unknown

  datatype Command = Mypy | Ruff | Pytest | PythonSyntax

  datatype Checkout = Ready | Refused | Broken

  datatype SandboxRun = Ran(exitCode: Option<int>, timedOut: bool) | PatchFails | RunTimesOut | NoDocker | RunRaises

  // mentionsTypes: the lower-cased error type holds "type" or "mypy".  No category is left without a command.
  function SelectCommand(category: Category, mentionsTypes: bool): Option<Command> {
    match category
    case Lint => if mentionsTypes then Some(Mypy) else Some(Ruff)
    case Test => Some(Pytest)
    case Dependency => Some(PythonSyntax)
    case Build => Some(PythonSyntax)
    case Unknown => Some(PythonSyntax)
  }

  // None: the checkout raised something that is not caught.
  function ValidateFix(p: Proposal, category: Category, mentionsTypes: bool, checkout: Checkout,
                       sandbox: Command -> SandboxRun):
    Option<Validation>
  {
    if !Usable(p) || p.diff == "" then Some(Validation(p.id, PatchRejected, None))
    else if SelectCommand(category, mentionsTypes).None? then Some(Validation(p.id, Unsupported, None))
    else if checkout.Broken? then None
    else if checkout.Refused? then Some(Validation(p.id, InfrastructureError, None))
    else
      match sandbox(SelectCommand(category, mentionsTypes).value)
      case Ran(code, timedOut) =>
        Some(Validation(p.id, if timedOut then TimedOut else if code == Some(0) then Passed else Failed, code))
      case PatchFails => Some(Validation(p.id, PatchRejected, None))
      case RunTimesOut => Some(Validation(p.id, TimedOut, None))
      case NoDocker => Some(Validation(p.id, InfrastructureError, None))
      case RunRaises => Some(Validation(p.id, InfrastructureError, None))
  }

  // Type errors go to mypy and other lint failures to ruff, tests to pytest, all else is compiled.
  function CommandDue(category: Category, mentionsTypes: bool): Command {
    if category.Test? then Pytest else if !category.Lint? then PythonSyntax else if mentionsTypes then Mypy else Ruff
  }

  // A clean result means exactly one thing: the usable diff ran in the sandbox on a checkout and
  // ended with exit code 0 in time.  PASSED and exit code 0 never disagree, UNSUPPORTED never occurs.
  lemma CleanIff(p: Proposal, category: Category, mentionsTypes: bool, checkout: Checkout, sandbox: Command -> SandboxRun)
    requires ValidateFix(p, category, mentionsTypes, checkout, sandbox).Some?
    ensures var v := ValidateFix(p, category, mentionsTypes, checkout, sandbox).value;
            && v.proposalId == p.id && !v.status.Unsupported? && (v.status.Passed? ==> v.exitCode == Some(0))
            && (Clean(v) <==> Usable(p) && p.diff != "" && checkout.Ready?
                              && sandbox(CommandDue(category, mentionsTypes)) == Ran(Some(0), false))
  {
  }

  // Every other result says what happened, and the exit code is there exactly when the command ran.
  lemma StatusIff(p: Proposal, category: Category, mentionsTypes: bool, checkout: Checkout, sandbox: Command -> SandboxRun)
    ensures var v := ValidateFix(p, category, mentionsTypes, checkout, sandbox);
            var run := sandbox(CommandDue(category, mentionsTypes));
            var asked := p.isValid && p.status.Proposed? && p.diff != "";
            && (v.None? <==> asked && checkout.Broken?)
            && (v.Some? ==>
                  var ready := asked && checkout.Ready?;
                  && (v.value.status.PatchRejected? <==> !asked || (ready && run.PatchFails?))
                  && (v.value.status.InfrastructureError?
                      <==> asked && (checkout.Refused? || (ready && (run.NoDocker? || run.RunRaises?))))
                  && (v.value.status.TimedOut? <==> ready && (run.RunTimesOut? || (run.Ran? && run.timedOut)))
                  && (v.value.status.Failed? <==> ready && run.Ran? && !run.timedOut && run.exitCode != Some(0))
                  && (v.value.status.Passed? <==> ready && run.Ran? && !run.timedOut && run.exitCode == Some(0))
                  && v.value.exitCode == if ready && run.Ran? then run.exitCode else None)
  {
  }

  // ---------- the protocol fed by these services ----------

  // What is fixed for a whole run: the limits of the patch validator, the diagnosis threshold, the
  // signal of each failure and the checked-out tree of each commit.
  datatype Site = Site(max: PatchValidator.Limits, minConfidence: real, signal: Context -> Signal,
                       tree: (string, string, string) -> ContextResolver.World)

  // What a task's Diagnosed step saw.
  datatype Findings = Findings(diagnosis: Diagnosis, evidence: ContextResolver.Package)

  // The evidence is what resolve_context reads from the tree of the failing commit, or nothing.
  ghost predicate Retrieved(site: Site, c: Context, e: ContextResolver.Package) {
    var w, signal := site.tree(c.owner, c.repo, c.commit), site.signal(c);
    var initial := ContextResolver.Initial(signal.file, signal.line, signal.frames);
    || e == ContextResolver.Package([], ContextResolver.Unavailable)
    || exists done: nat {:trigger ContextResolver.RunsTo(w, initial, done)} ::
         && ContextResolver.RunsTo(w, initial, done)
         && e.evidences == ContextResolver.Collect(w, ContextResolver.Grow(w, initial, done)[..done])
         && e.status == ContextResolver.StatusOf(|e.evidences|, |ContextResolver.Grow(w, initial, done)|)
  }

  // The orchestrator leaves the checkout to the services, so no repository root reaches the validator.
  function InputOf(site: Site, c: Context, f: Findings, answer: Option<RawFix>): FixInput {
    FixInput(c, site.signal(c), f.diagnosis, Some(f.evidence), answer, None, site.max, site.minConfidence)
  }

  ghost predicate Synthesised(site: Site, c: Context, f: Findings, p: Proposal) {
    exists answer :: FixResult(InputOf(site, c, f, answer), p)
  }

  ghost predicate Checked(site: Site, c: Context, p: Proposal, v: Validation) {
    var signal := site.signal(c);
    exists checkout, sandbox :: ValidateFix(p, signal.category, signal.mentionsTypes, checkout, sandbox) == Some(v)
  }

  // The services answer as above, and each task goes on with what it found; everything else in the
  // run is arbitrary.
  ghost predicate FaithfulEvent(site: Site, findings: nat -> Findings, s: Sys, e: Event) {
    e.ProcMove? && e.t in s.procs ==>
      var c, f := s.procs[e.t].context, findings(e.t);
      && (s.procs[e.t].pc.PDiagnose? && e.act.Diagnosed? ==>
            && e.act.fixable == f.diagnosis.fixable
            && (e.act.fixable ==> Retrieved(site, c, f.evidence) && e.act.evidence == HasEvidence(Some(f.evidence))))
      && (s.procs[e.t].pc.PFix? && e.act.Fixed? ==> Synthesised(site, c, f, e.act.p))
      && (s.procs[e.t].pc.PValidate? && e.act.Validated? ==> Checked(site, c, s.procs[e.t].pc.p, e.act.v))
  }

  ghost predicate Faithful(site: Site, findings: nat -> Findings, s: Sys, es: seq<Event>)
    decreases |es|
  {
    es == [] || (FaithfulEvent(site, findings, s, es[0]) && Faithful(site, findings, Apply(s, es[0]), es[1..]))
  }

  ghost predicate Seen(site: Site, c: Context, f: Findings) {
    f.diagnosis.fixable && Retrieved(site, c, f.evidence) && HasEvidence(Some(f.evidence))
  }

  ghost predicate PcVetted(site: Site, c: Context, f: Findings, pc: ProcPc) {
    match pc
    case PProposing => Seen(site, c, f)
    case PFix => Seen(site, c, f)
    case PValidating(p) => Seen(site, c, f) && Synthesised(site, c, f, p)
    case PValidate(p) => Seen(site, c, f) && Synthesised(site, c, f, p)
    case PRequest(p, v) => Seen(site, c, f) && Synthesised(site, c, f, p) && Checked(site, c, p, v)
    case PAwait(p, v, _) => Seen(site, c, f) && Synthesised(site, c, f, p) && Checked(site, c, p, v)
    case _ => true
  }

  ghost predicate BundleVetted(site: Site, findings: nat -> Findings, b: Bundle) {
    exists t: nat {:trigger findings(t)} ::
      && Seen(site, b.context, findings(t)) && Synthesised(site, b.context, findings(t), b.proposal)
      && Checked(site, b.context, b.proposal, b.validation)
  }

  ghost predicate Vetted(site: Site, findings: nat -> Findings, s: Sys) {
    && (forall t {:trigger s.procs[t]} :: t in s.procs ==> PcVetted(site, s.procs[t].context, findings(t), s.procs[t].pc))
    && (forall i {:trigger s.hist.persisted[i]} :: i in s.hist.persisted ==>
          BundleVetted(site, findings, s.hist.persisted[i]))
  }

  lemma ProcStepVetted(site: Site, findings: nat -> Findings, s: Sys, t: nat, act: Act)
    requires t in s.procs && PcVetted(site, s.procs[t].context, findings(t), s.procs[t].pc)
    requires FaithfulEvent(site, findings, s, ProcMove(t, act))
    ensures PcVetted(site, s.procs[t].context, findings(t), ProcStep(s.cfg, s.db, s.procs[t], act).1)
  {
    hide Synthesised, Checked, Retrieved, HasEvidence;
  }

  lemma StepVetted(site: Site, findings: nat -> Findings, s: Sys, e: Event)
    requires Vetted(site, findings, s) && FaithfulEvent(site, findings, s, e)
    ensures Vetted(site, findings, Apply(s, e))
  {
    hide Synthesised, Checked, Seen, ProcStep, ClickStep, ResumeStep;
    if e.ProcMove? && e.t in s.procs {
      ProcStepVetted(site, findings, s, e.t, e.act);
    }
  }

  lemma {:induction false} RunVetted(site: Site, findings: nat -> Findings, s: Sys, es: seq<Event>)
    requires Vetted(site, findings, s) && Faithful(site, findings, s, es)
    ensures Vetted(site, findings, Run(s, es))
    decreases |es|
  {
    hide Apply, Vetted, FaithfulEvent;
    if es != [] {
      StepVetted(site, findings, s, es[0]);
      RunVetted(site, findings, Apply(s, es[0]), es[1..]);
    }
  }

  lemma InitVetted(site: Site, findings: nat -> Findings, s: Sys)
    requires Init(s)
    ensures Vetted(site, findings, s)
  {
  }

  lemma BundleOf(site: Site, findings: nat -> Findings, s: Sys, i: string)
    requires Vetted(site, findings, s) && i in s.hist.persisted
    ensures BundleVetted(site, findings, s.hist.persisted[i])
  {
  }

  lemma RunVettedFromInit(site: Site, findings: nat -> Findings, s0: Sys, es: seq<Event>)
    requires Init(s0) && Faithful(site, findings, s0, es)
    ensures Vetted(site, findings, Run(s0, es)) && Reachable(Run(s0, es))
  {
    hide Vetted, Faithful, Run;
    InitVetted(site, findings, s0);
    RunVetted(site, findings, s0, es);
  }

  // The command due for the failure ran on the diff and ended with exit code 0 in time.
  ghost predicate RanClean(p: Proposal, signal: Signal, v: Validation) {
    exists sandbox: Command -> SandboxRun ::
      && sandbox(CommandDue(signal.category, signal.mentionsTypes)) == Ran(Some(0), false)
      && ValidateFix(p, signal.category, signal.mentionsTypes, Ready, sandbox) == Some(v)
  }

  // The making of a mutation's bundle: the findings of a task and an answer of the language model.
  ghost predicate MadeFrom(site: Site, f: Findings, raw: RawFix, b: Bundle) {
    var x := InputOf(site, b.context, f, Some(raw));
    && Retrieved(site, b.context, f.evidence) && HasEvidence(Some(f.evidence))
    && f.diagnosis.fixable && f.diagnosis.confidence >= site.minConfidence
    && FixResult(x, b.proposal) && Accepts(x) && b.proposal.diff == raw.diff
    && b.proposal.confidence == Round2(Clamp(raw.confidence))
    && RanClean(b.proposal, site.signal(b.context), b.validation)
  }

  lemma UsableIsMade(site: Site, f: Findings, b: Bundle) returns (raw: RawFix)
    requires Seen(site, b.context, f) && Synthesised(site, b.context, f, b.proposal)
    requires Checked(site, b.context, b.proposal, b.validation) && Usable(b.proposal) && Clean(b.validation)
    ensures MadeFrom(site, f, raw, b)
  {
    hide PatchValidator.Acceptable, PatchValidator.TargetSet, Retrieved, HasEvidence, GroundsOf;
    var answer :| FixResult(InputOf(site, b.context, f, answer), b.proposal);
    raw := answer.value;
    var signal := site.signal(b.context);
    var checkout, sandbox :|
      ValidateFix(b.proposal, signal.category, signal.mentionsTypes, checkout, sandbox) == Some(b.validation);
    CleanIff(b.proposal, signal.category, signal.mentionsTypes, checkout, sandbox);
  }

  // Whatever interleaving, crashes and exceptions happen: a mutation is only ever entered with a diff
  // that the language model wrote for this very incident and commit on evidence read from its tree,
  // that meets the acceptance predicate under the limits of the run, whose confidence, clamped and
  // rounded, reaches the approval threshold, and that the sandbox ran to exit code 0.
  lemma MutationsAreVetted(site: Site, findings: nat -> Findings, s0: Sys, es: seq<Event>, n: nat)
    returns (t: nat, raw: RawFix)
    requires Init(s0) && Faithful(site, findings, s0, es) && n < |Run(s0, es).hist.starts|
    ensures var s := Run(s0, es);
            MadeFrom(site, findings(t), raw, s.hist.starts[n].bundle)
            && Round2(Clamp(raw.confidence)) >= s.cfg.minConfidence
  {
    hide Vetted, Faithful, PatchValidator.Acceptable, Run, Seen, Synthesised, Checked, FixResult, Retrieved;
    var s := Run(s0, es);
    RunVettedFromInit(site, findings, s0, es);
    ProtocolTheorems.MutationsAreAuthorised(s, n);
    var b := s.hist.starts[n].bundle;
    BundleOf(site, findings, s, s.hist.starts[n].approval.incident);
    t :| Seen(site, b.context, findings(t)) && Synthesised(site, b.context, findings(t), b.proposal)
         && Checked(site, b.context, b.proposal, b.validation);
    raw := UsableIsMade(site, findings(t), b);
  }

  // Where a path is named: as a file of the tree, or by the signal, a frame or the diagnosis.
  ghost predicate Named(site: Site, c: Context, f: Findings, path: string) {
    var w, signal := site.tree(c.owner, c.repo, c.commit), site.signal(c);
    || w.root + Paths.RealParts(Paths.Split(path)) in w.files
    || PatchValidator.Mentions(signal.file, path) || PatchValidator.Mentions(f.diagnosis.targetFile, path)
    || exists i :: 0 <= i < |signal.frames| && PatchValidator.Mentions(Some(signal.frames[i].0), path)
  }

  lemma MadeTargetOk(site: Site, f: Findings, raw: RawFix, b: Bundle, t: string)
    requires MadeFrom(site, f, raw, b) && t in b.proposal.targets
    ensures PatchValidator.TargetOk(GroundsOf(InputOf(site, b.context, f, Some(raw))), None, Paths.Normalize(t, ""))
  {
    hide PatchValidator.TargetSet, PatchValidator.TargetOk, Paths.Normalize, Text.SplitLines, PatchValidator.IsTest,
         DiffTheorems.WellFormed, DiffTheorems.Attributed, RanClean, Retrieved, HasEvidence, GroundsOf;
  }

  lemma GroundedIsNamed(site: Site, c: Context, f: Findings, answer: Option<RawFix>, path: string)
    requires Retrieved(site, c, f.evidence) && site.tree(c.owner, c.repo, c.commit).max.window >= 1
    requires PatchValidator.Grounded(GroundsOf(InputOf(site, c, f, answer)), path)
    ensures Named(site, c, f, path)
  {
    hide Retrieved, PatchValidator.Mentions, Paths.Split;
    var g := GroundsOf(InputOf(site, c, f, answer));
    if path in g.evidence {
      var k :| 0 <= k < |f.evidence.evidences| && f.evidence.evidences[k].path == path;
      EvidenceIsInTree(site, c, f.evidence, k);
    } else if i :| 0 <= i < |g.frames| && PatchValidator.Mentions(g.frames[i], path) {
      assert g.frames[i] == Some(site.signal(c).frames[i].0);
    }
  }

  // And every target of it, once normalised, is an unprotected path in bounds that is a file of the
  // failing commit's tree or is named by the failure itself.
  lemma MutatedTargetsAreGrounded(site: Site, f: Findings, raw: RawFix, b: Bundle, t: string)
    requires MadeFrom(site, f, raw, b) && t in b.proposal.targets
    requires site.tree(b.context.owner, b.context.repo, b.context.commit).max.window >= 1
    ensures var path := Paths.Normalize(t, "");
            && !PatchValidator.IsProtected(path) && PatchValidator.InBounds(None, path)
            && Named(site, b.context, f, path)
  {
    hide PatchValidator.IsProtected, PatchValidator.InBounds, PatchValidator.Grounded, Paths.Normalize, Named, GroundsOf,
         FixResult, Accepts, Retrieved, HasEvidence, RanClean;
    MadeTargetOk(site, f, raw, b, t);
    GroundedIsNamed(site, b.context, f, Some(raw), Paths.Normalize(t, ""));
  }

  lemma EvidenceIsInTree(site: Site, c: Context, e: ContextResolver.Package, k: nat)
    requires Retrieved(site, c, e) && k < |e.evidences| && site.tree(c.owner, c.repo, c.commit).max.window >= 1
    ensures var w := site.tree(c.owner, c.repo, c.commit);
            w.root + Paths.RealParts(Paths.Split(e.evidences[k].path)) in w.files
  {
    hide ContextResolver.Passes, ContextResolver.Grow, ContextResolver.Collect;
    var w, signal := site.tree(c.owner, c.repo, c.commit), site.signal(c);
    var initial := ContextResolver.Initial(signal.file, signal.line, signal.frames);
    var done: nat :| ContextResolver.RunsTo(w, initial, done)
                && e.evidences == ContextResolver.Collect(w, ContextResolver.Grow(w, initial, done)[..done]);
    var i := ContextResolver.EverySnippetIsRight(w, initial, done, k);
  }

  // Such a mutation passes the preflight of create_pull_request, and its branch name is accepted.
  lemma PreflightNeverRefuses(site: Site, findings: nat -> Findings, s0: Sys, es: seq<Event>, n: nat)
    requires Init(s0) && Faithful(site, findings, s0, es) && n < |Run(s0, es).hist.starts|
    ensures var q := RequestOf(Run(s0, es).hist.starts[n]);
            Mutation.Preflight(q) && Mutation.ValidBranch(Mutation.BranchOf(q))
  {
    hide Faithful, PatchValidator.Acceptable, Run, Mutation.ValidBranch, Mutation.CleanId, FixResult, Mutation.BranchName;
    var st := Run(s0, es).hist.starts[n];
    RunVettedFromInit(site, findings, s0, es);
    ProtocolTheorems.MutationsAreAuthorised(Run(s0, es), n);
    var t, raw := MutationsAreVetted(site, findings, s0, es, n);
    FixIdClean(InputOf(site, st.bundle.context, findings(t), Some(raw)), st.bundle.proposal);
    Mutation.GeneratedNameValid(st.bundle.context.incident, st.bundle.proposal.id);
  }

  function RequestOf(st: Start): Mutation.Request {
    Mutation.Request(st.bundle.context, st.bundle.proposal, st.bundle.validation, st.approval)
  }

  lemma FixIdClean(x: FixInput, p: Proposal)
    requires FixResult(x, p)
    ensures Mutation.CleanId(p.id) != ""
  {
    assert p.id[0] == 'f' && Mutation.IdChar(p.id[0]);
  }

  // Whatever a run of create_pull_request for it pushes: each changed file, when its name holds no
  // runner prefix and no outer whitespace, is itself unprotected, in bounds and grounded.
  lemma PushedFilesAreChecked(site: Site, f: Findings, raw: RawFix, st: Start, w: Mutation.World, w': Mutation.World,
                              out: Mutation.Outcome, k: nat, file: string)
    requires MadeFrom(site, f, raw, st.bundle) && Mutation.Attempt(w, w', RequestOf(st), out)
    requires |w.pushes| <= k < |w'.pushes| && file in w'.pushes[k].changed
    requires Text.Trimmed(file) && !Paths.HasPrefixIn(file, Paths.RUNNER_PREFIXES)
    ensures file in st.bundle.proposal.targets
    ensures PatchValidator.TargetOk(GroundsOf(InputOf(site, st.bundle.context, f, Some(raw))), None, file)
  {
    hide PatchValidator.TargetSet, PatchValidator.Acceptable, PatchValidator.TargetOk, Text.SplitLines, RanClean,
         Mutation.Preflight, Mutation.ValidBranch, Text.Trimmed, Paths.HasPrefixIn, Retrieved;
    PushedIsGated(w, w', RequestOf(st), out, k);
    var x := InputOf(site, st.bundle.context, f, Some(raw));
    PatchValidator.AcceptedTargetsAreChecked(raw.diff, raw.claimed, GroundsOf(x), None, site.max, file);
  }

  lemma PushedIsGated(w: Mutation.World, w': Mutation.World, q: Mutation.Request, out: Mutation.Outcome, k: nat)
    requires Mutation.Attempt(w, w', q, out) && |w.pushes| <= k < |w'.pushes|
    ensures Mutation.Gated(w'.pushes[k], q)
  {
    hide Mutation.Preflight, Mutation.ValidBranch, Mutation.Gated, Mutation.OwnPullRequest, Mutation.Matching;
  }

  // ---------- when a scheduled resume goes on ----------

  lemma BundlesAreCoherent(site: Site, findings: nat -> Findings, s: Sys)
    requires Vetted(site, findings, s)
    ensures forall i :: i in s.hist.persisted ==> ProtocolResume.Coherent(s.hist.persisted[i])
  {
    hide PatchValidator.Acceptable, PatchValidator.TargetSet, Retrieved, HasEvidence, GroundsOf, Vetted;
    forall i | i in s.hist.persisted ensures ProtocolResume.Coherent(s.hist.persisted[i]) {
      BundleOf(site, findings, s, i);
    }
  }

  // Fed by the services, a resume that found no row by approval id goes on exactly when
  // AWAITING_APPROVAL was stored before its lookup by incident.
  lemma ResumeGoesOnIff(site: Site, findings: nat -> Findings, s0: Sys, es: seq<Event>, r: nat)
    requires Init(s0) && Faithful(site, findings, s0, es)
    requires r in Run(s0, es).resumes && Run(s0, es).resumes[r].pc.RByIncident?
    ensures var s := Run(s0, es);
            ResumeStep(s.db, s.resumes[r], Ok).1.RMutating? <==> s.resumes[r].pc.a.incident in s.hist.persisted
  {
    hide Run, Faithful, Vetted, Reachable, Judge;
    RunVettedFromInit(site, findings, s0, es);
    BundlesAreCoherent(site, findings, Run(s0, es));
    ProtocolResume.ByIncidentGoesOnIff(Run(s0, es), r);
  }

  // Looked up by approval id, its row is found exactly when AWAITING_APPROVAL was stored, and a row
  // that is found always leads to the MUTATING write.
  lemma FoundRowGoesOn(site: Site, findings: nat -> Findings, s0: Sys, es: seq<Event>, r: nat, answer: Option<string>)
    requires Init(s0) && Faithful(site, findings, s0, es)
    requires r in Run(s0, es).resumes && Run(s0, es).resumes[r].pc.RByApproval?
    requires Repositories.FoundByApproval(Run(s0, es).db, Run(s0, es).resumes[r].aid, answer)
    ensures var s := Run(s0, es);
            && (answer.Some? <==> s.resumes[r].pc.a.incident in s.hist.persisted)
            && (answer.Some? <==> ResumeStep(s.db, s.resumes[r], Row(answer)).1.RMutating?)
  {
    hide Run, Faithful, Vetted, Reachable, Judge, Repositories.FoundByApproval;
    RunVettedFromInit(site, findings, s0, es);
    BundlesAreCoherent(site, findings, Run(s0, es));
    ProtocolResume.ByApprovalGoesOnIff(Run(s0, es), r, answer);
  }
}
