// What the remediation protocol guarantees over every run.
module ProtocolTheorems {
  import opened Common
  import opened Domain
  import opened Repositories
  import opened Protocol
  import opened ProtocolInvariant

  lemma {:induction false} RunConcat(s: Sys, es: seq<Event>, fs: seq<Event>)
    ensures Run(s, es + fs) == Run(Run(s, es), fs)
    decreases |es|
  {
    if es == [] {
      assert es + fs == fs;
    } else {
      assert (es + fs)[1..] == es[1..] + fs;
      RunConcat(Apply(s, es[0]), es[1..], fs);
    }
  }

  lemma ReachableRun(s: Sys, es: seq<Event>)
    requires Reachable(s)
    ensures Reachable(Run(s, es))
  {
    var s0, fs :| Init(s0) && Run(s0, fs) == s;
    RunConcat(s0, fs, es);
  }

  // ---------- at most one route call, one resume, one mutation ----------

  // Only one route call per approval is told that it recorded the decision.
  lemma OneRecordedDecision(s: Sys, j: nat, k: nat)
    requires Reachable(s) && j in s.clicks && k in s.clicks && s.clicks[j].aid == s.clicks[k].aid
    requires s.clicks[j].pc == CStop(Recorded) && s.clicks[k].pc == CStop(Recorded)
    ensures j == k
  {
    ReachableInv(s);
    assert ClickOk(s, j) && ClickOk(s, k);
  }

  // No approval is resumed twice, and no approval and no incident enters create_pull_request twice.
  lemma AtMostOneMutation(s: Sys)
    requires Reachable(s)
    ensures NoDuplicates(s.hist.schedules)
    ensures forall m, n :: 0 <= m < n < |s.hist.starts| ==>
              && s.hist.starts[m].aid != s.hist.starts[n].aid
              && s.hist.starts[m].approval.incident != s.hist.starts[n].approval.incident
    ensures forall n :: 0 <= n < |s.hist.starts| ==> s.hist.starts[n].aid in s.hist.schedules
  {
    ReachableInv(s);
    forall m, n | 0 <= m < n < |s.hist.starts|
      ensures s.hist.starts[m].approval.incident != s.hist.starts[n].approval.incident
    {
      assert StartOk(s, m) && StartOk(s, n) && ApprovalOk(s, s.hist.starts[m].aid);
    }
    forall n | 0 <= n < |s.hist.starts| ensures s.hist.starts[n].aid in s.hist.schedules {
      assert StartOk(s, n);
    }
  }

  // ---------- what a mutation was entered with ----------

  // Every mutation was entered under an approval that is, and stays, APPROVED; by a reviewer whose
  // click was not past the expiry; with exactly the context, proposal and validation that
  // process_failure persisted for the approval's incident, which satisfy the whole gate.
  lemma MutationsAreAuthorised(s: Sys, n: nat)
    requires Reachable(s) && n < |s.hist.starts|
    ensures var st := s.hist.starts[n];
            var i := st.approval.incident;
            && st.aid in s.db.approvals && s.db.approvals[st.aid] == st.approval
            && i in s.hist.persisted && s.hist.persisted[i] == st.bundle && st.bundle.context.incident == i
            && Authorised(st.approval, st.bundle)
            && Eligible(st.bundle.proposal, st.bundle.validation, s.cfg.minConfidence)
            && i in s.db.pipelines && s.db.pipelines[i].proposal == Some(st.bundle.proposal)
            && s.db.pipelines[i].validation == Some(st.bundle.validation)
            && s.db.pipelines[i].context == Some(st.bundle.context)
            && st.aid in s.hist.decider && s.hist.decider[st.aid] in s.clicks
            && var k := s.clicks[s.hist.decider[st.aid]];
            && k.target.Approved? && st.approval.reviewer == Some(k.reviewer)
            && k.clock.Some? && st.approval.expiresAt.Some? && k.clock.value <= st.approval.expiresAt.value
  {
    ReachableInv(s);
    var st := s.hist.starts[n];
    assert StartOk(s, n) && ResumerOk(s, st.aid) && DecisionOk(s, st.aid);
    assert RowOk(s, st.approval.incident) && ApprovalOk(s, st.aid);
  }

  // ---------- the pipeline status only moves forward ----------

  function Rank(st: PipelineStatus): nat {
    match st
    case Received => 0
    case Diagnosing => 1
    case Proposing => 2
    case Validating => 3
    case AwaitingApproval => 4
    case Mutating => 5
    case Completed => 6
    case PipelineRejected => 6
    case PipelineFailed => 6
  }

  predicate Terminal(st: PipelineStatus) { Rank(st) == 6 }

  predicate Forward(a: PipelineStatus, b: PipelineStatus) {
    a == b || Rank(a) < Rank(b)
  }

  lemma ProcForward(s: Sys, t: nat, act: Act, i: string)
    requires t in s.procs && ProcOk(s, t) && i in s.db.pipelines
    ensures var s' := ApplyProc(s, t, act);
            && i in s'.db.pipelines && Forward(s.db.pipelines[i].status, s'.db.pipelines[i].status)
            && (i in s.hist.persisted ==> s'.db.pipelines[i] == s.db.pipelines[i])
  {
    hide ProcStep, InsertApproval, StageUpdate, AfterWrite, Eligible, NoApproval;
    var pr := s.procs[t];
    if StageWrite(pr.pc) {
      StageStep(s.cfg, s.db, pr, act);
      StageAdvances(pr.context, pr.pc);
    } else if pr.pc.PInsert? {
      InsertStep(s.cfg, s.db, pr, act);
    } else if pr.pc.PRequest? {
      RequestStep(s.cfg, s.db, pr, act);
      InsertKeepsPipelines(s.db, ApprovalId(pr.context.incident, pr.pc.p.commit), act, s.cfg, pr);
    } else if pr.pc.PHandler? {
      HandlerStep(s.cfg, s.db, pr, act);
    } else {
      ReadStep(s.cfg, s.db, pr, act);
    }
  }

  lemma InsertKeepsPipelines(db: Db, aid: string, act: Act, cfg: Config, pr: Proc)
    requires pr.pc.PRequest?
    ensures act.Clock? ==>
              var inserted := InsertApproval(db, aid, NewApproval(cfg, pr.context, pr.pc.p, act.now));
              inserted.Some? ==> inserted.value.pipelines == db.pipelines
  {
  }

  // A stage write moves the status up, or ends it.
  lemma StageAdvances(c: Context, pc: ProcPc)
    requires StageWrite(pc)
    ensures forall st :: StageOf(pc, st) ==> Forward(st, StageUpdate(c, pc).status)
  {
  }

  lemma ResumeForward(s: Sys, r: nat, act: Act, i: string)
    requires r in s.resumes && ResumeOk(s, r) && i in s.db.pipelines
    ensures var s' := ApplyResume(s, r, act);
            i in s'.db.pipelines && Forward(s.db.pipelines[i].status, s'.db.pipelines[i].status)
  {
    hide Judge, FoundByApproval, Authorised, NotStarted;
  }

  lemma StepForward(s: Sys, e: Event, i: string)
    requires Inv(s) && i in s.db.pipelines
    ensures i in Apply(s, e).db.pipelines
    ensures Forward(s.db.pipelines[i].status, Apply(s, e).db.pipelines[i].status)
  {
    hide ApplyProc, ApplyClick, ApplyResume;
    match e
    case ClickMove(k, act) => if k in s.clicks { ClickFrame(s, k, act); }
    case ProcMove(t, act) =>
      if t in s.procs {
        assert ProcOk(s, t);
        ProcForward(s, t, act, i);
      }
    case ResumeMove(r, act) =>
      if r in s.resumes {
        assert ResumeOk(s, r);
        ResumeForward(s, r, act, i);
      }
    case _ =>
  }

  lemma {:induction false} RunForward(s: Sys, es: seq<Event>, i: string)
    requires Inv(s) && i in s.db.pipelines
    ensures i in Run(s, es).db.pipelines
    ensures Forward(s.db.pipelines[i].status, Run(s, es).db.pipelines[i].status)
    decreases |es|
  {
    hide Apply, Inv;
    if es != [] {
      StepKeepsInv(s, es[0]);
      StepForward(s, es[0], i);
      RunForward(Apply(s, es[0]), es[1..], i);
    }
  }

  // A pipeline never moves back, and COMPLETED, FAILED and REJECTED are final.
  lemma StatusMovesForward(s: Sys, es: seq<Event>, i: string)
    requires Reachable(s) && i in s.db.pipelines
    ensures i in Run(s, es).db.pipelines
    ensures var a, b := s.db.pipelines[i].status, Run(s, es).db.pipelines[i].status;
            Rank(a) <= Rank(b) && (Terminal(a) ==> b == a)
  {
    hide Inv, Run;
    ReachableInv(s);
    RunForward(s, es, i);
  }

  lemma StepKeepsPersisted(s: Sys, e: Event, i: string)
    requires Inv(s) && i in s.hist.persisted
    ensures i in Apply(s, e).hist.persisted
  {
    hide Inv, ProcStep, ResumeStep, ApplyClick;
    if e.ClickMove? && e.k in s.clicks { ClickFrame(s, e.k, e.act); }
  }

  lemma {:induction false} RunKeepsPersisted(s: Sys, es: seq<Event>, i: string)
    requires Inv(s) && i in s.hist.persisted
    ensures i in Run(s, es).hist.persisted
    decreases |es|
  {
    hide Inv, Apply;
    if es != [] {
      StepKeepsInv(s, es[0]);
      StepKeepsPersisted(s, es[0], i);
      RunKeepsPersisted(Apply(s, es[0]), es[1..], i);
    }
  }

  // Once a pipeline was AWAITING_APPROVAL, whatever became of it since, no move of any process_failure
  // task touches its row again, in any run that follows.
  lemma NoLateProcessWrite(s: Sys, es: seq<Event>, t: nat, act: Act, i: string)
    requires Reachable(s) && t in Run(s, es).procs
    requires i in s.hist.persisted || (i in s.db.pipelines && PastGate(s.db.pipelines[i].status))
    ensures var s' := Run(s, es);
            i in s'.db.pipelines && i in ApplyProc(s', t, act).db.pipelines
            && ApplyProc(s', t, act).db.pipelines[i] == s'.db.pipelines[i]
  {
    hide Run, ApplyProc;
    ReachableInv(s);
    assert i in s.hist.persisted by { assert i in s.db.pipelines ==> RowOk(s, i); }
    RunKeepsPersisted(s, es, i);
    RunKeepsInv(s, es);
    assert ProcOk(Run(s, es), t);
    ProcForward(Run(s, es), t, act, i);
  }

  // Until its approval is APPROVED, a pipeline that reached the gate waits there: a rejected or
  // expired approval leaves it AWAITING_APPROVAL for ever, and REJECTED is stored for an unusable
  // proposal only.
  lemma OnlyApprovalMovesThePipeline(s: Sys, a: string)
    requires Reachable(s) && a in s.db.approvals && !s.db.approvals[a].status.Approved?
    requires s.db.approvals[a].incident in s.hist.persisted
    ensures s.db.approvals[a].incident in s.db.pipelines
    ensures s.db.pipelines[s.db.approvals[a].incident].status.AwaitingApproval?
  {
    ReachableInv(s);
    assert ApprovalOk(s, a);
    assert a in s.hist.resumer ==> ResumerOk(s, a);
  }

  // The reviewer-rejected branch of resume_approval is never taken by a scheduled resume.
  lemma RejectBranchIsDead(s: Sys, r: nat)
    requires Reachable(s) && r in s.resumes
    ensures !s.resumes[r].pc.RReject?
  {
    ReachableInv(s);
    assert ResumeOk(s, r);
  }

  // ---------- a decision is written once ----------

  ghost predicate Keeps(db: Db, db': Db, a: string)
    requires a in db.approvals
  {
    a in db'.approvals && db'.approvals[a] == db.approvals[a]
  }

  lemma ProcKeepsApproval(s: Sys, t: nat, act: Act, a: string)
    requires t in s.procs && a in s.db.approvals
    ensures Keeps(s.db, ApplyProc(s, t, act).db, a)
  {
    hide ProcStep, StageUpdate, AfterWrite, Eligible, NewApproval, ApprovalId, ProposalTaken, Patch;
    var pr := s.procs[t];
    if StageWrite(pr.pc) {
      StageStep(s.cfg, s.db, pr, act);
    } else if pr.pc.PInsert? {
      InsertStep(s.cfg, s.db, pr, act);
    } else if pr.pc.PRequest? {
      RequestStep(s.cfg, s.db, pr, act);
    } else if pr.pc.PHandler? {
      HandlerStep(s.cfg, s.db, pr, act);
    } else {
      ReadStep(s.cfg, s.db, pr, act);
    }
  }

  lemma ResumeKeepsApprovals(db: Db, w: Resume, act: Act)
    ensures ResumeStep(db, w, act).0.approvals == db.approvals
  {
    hide Patch, Judge, FoundByApproval;
  }

  lemma StepKeepsDecided(s: Sys, e: Event, a: string)
    requires a in s.db.approvals && !s.db.approvals[a].status.Pending?
    ensures a in Apply(s, e).db.approvals && Apply(s, e).db.approvals[a] == s.db.approvals[a]
  {
    hide ApplyProc, ApplyClick, ResumeStep, Expire;
    match e
    case ProcMove(t, act) => if t in s.procs { ProcKeepsApproval(s, t, act, a); }
    case ClickMove(k, act) => if k in s.clicks { ClickFrame(s, k, act); }
    case ResumeMove(r, act) => if r in s.resumes { ResumeKeepsApprovals(s.db, s.resumes[r], act); }
    case Sweep(aid) => SweepWrites(s.db, aid);
    case _ =>
  }

  // From any state at all, reachable or not.
  lemma {:induction false} DecisionWrittenOnce(s: Sys, es: seq<Event>, a: string)
    requires a in s.db.approvals && !s.db.approvals[a].status.Pending?
    ensures a in Run(s, es).db.approvals && Run(s, es).db.approvals[a] == s.db.approvals[a]
    decreases |es|
  {
    hide Apply;
    if es != [] {
      StepKeepsDecided(s, es[0], a);
      DecisionWrittenOnce(Apply(s, es[0]), es[1..], a);
    }
  }

  // A decided row names the click that decided it, and that click's own clock was in time.
  lemma DecisionsAreInTime(s: Sys, a: string)
    requires Reachable(s) && a in s.db.approvals && Decided(s.db.approvals[a].status)
    ensures a in s.hist.decider && s.hist.decider[a] in s.clicks
    ensures var row, k := s.db.approvals[a], s.clicks[s.hist.decider[a]];
            && k.aid == a && k.target == row.status && row.reviewer == Some(k.reviewer)
            && k.clock.Some? && row.expiresAt.Some? && k.clock.value <= row.expiresAt.value
  {
    ReachableInv(s);
    assert DecisionOk(s, a) && ApprovalOk(s, a);
  }

  // ---------- a click that comes too early ----------

  ghost predicate Spent(s: Sys, a: string, r: nat) {
    a in s.hist.resumer && s.hist.resumer[a] == r && r in s.resumes && s.resumes[r].pc.RStop?
  }

  lemma StepKeepsSpent(s: Sys, e: Event, a: string, r: nat)
    requires Inv(s) && Spent(s, a, r) && NotStarted(s.hist.starts, a)
    ensures Spent(Apply(s, e), a, r) && NotStarted(Apply(s, e).hist.starts, a)
  {
    hide ApplyClick, ProcStep, ResumeStep, Judge;
    match e
    case ClickMove(k, act) =>
      if k in s.clicks {
        assert ClickOk(s, k);
        ClickFrame(s, k, act);
      }
    case ResumeMove(w, act) =>
      if w in s.resumes {
        assert ResumeOk(s, w);
        if w == r { StoppedStays(s.db, s.resumes[r], act); }
      }
    case _ =>
  }

  lemma StoppedStays(db: Db, w: Resume, act: Act)
    requires w.pc.RStop?
    ensures ResumeStep(db, w, act) == (db, RStop)
  {
  }

  lemma {:induction false} SpentForEver(s: Sys, es: seq<Event>, a: string, r: nat)
    requires Inv(s) && Spent(s, a, r) && NotStarted(s.hist.starts, a)
    ensures NotStarted(Run(s, es).hist.starts, a)
    decreases |es|
  {
    hide Apply, Inv, Spent, NotStarted;
    if es != [] {
      StepKeepsSpent(s, es[0], a, r);
      StepKeepsInv(s, es[0]);
      SpentForEver(Apply(s, es[0]), es[1..], a, r);
    }
  }

  // A resume that looks its pipeline up before AWAITING_APPROVAL is stored raises, and no run after
  // that ever mutates under the approval, although it is APPROVED.
  lemma EarlyResumeIsLost(s: Sys, r: nat, es: seq<Event>)
    requires Reachable(s) && r in s.resumes && s.resumes[r].pc.RByIncident?
    requires s.resumes[r].pc.a.incident !in s.hist.persisted
    ensures NotStarted(Run(Apply(s, ResumeMove(r, Ok)), es).hist.starts, s.resumes[r].aid)
  {
    ReachableInv(s);
    var a := s.resumes[r].aid;
    assert ResumeOk(s, r) && ResumerOk(s, a);
    var i := s.db.approvals[a].incident;
    assert ApprovalOk(s, a) && RowOk(s, i);
    var s' := Apply(s, ResumeMove(r, Ok));
    assert s'.resumes[r].pc.RStop?;
    StepKeepsInv(s, ResumeMove(r, Ok));
    SpentForEver(s', es, a, r);
  }

  // ---------- facts a single resume can rely on ----------

  lemma EarlyNotStarted(s: Sys, r: nat)
    requires Reachable(s) && r in s.resumes && Early(s.resumes[r].pc)
    ensures NotStarted(s.hist.starts, s.resumes[r].aid) && s.resumes[r].aid in s.db.approvals
    ensures s.resumes[r].pc.RByIncident? ==> s.resumes[r].pc.a.incident in s.db.pipelines
  {
    ReachableInv(s);
    assert ResumeOk(s, r) && ApprovalOk(s, s.resumes[r].aid);
  }

  lemma BusyRow(s: Sys, r: nat)
    requires Reachable(s) && r in s.resumes
    requires s.resumes[r].pc.RRunning? || s.resumes[r].pc.RComplete? || s.resumes[r].pc.RFail?
    ensures s.resumes[r].pc.incident in s.db.pipelines
  {
    ReachableInv(s);
    assert ResumeOk(s, r);
  }

  // No two rows ever carry one approval id, so the lookup by approval id never fails for that.
  lemma NeverAmbiguous(s: Sys, a: string) returns (answer: Option<string>)
    requires Reachable(s)
    ensures FoundByApproval(s.db, a, answer)
  {
    ReachableInv(s);
    if i :| i in s.db.pipelines && s.db.pipelines[i].approvalId == Some(a) {
      answer := Some(i);
      forall j | j in s.db.pipelines && s.db.pipelines[j].approvalId == Some(a) ensures j == i {
        assert RowOk(s, i) && RowOk(s, j);
      }
    } else {
      answer := None;
    }
  }
}
