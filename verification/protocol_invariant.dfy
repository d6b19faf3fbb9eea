// The inductive invariant of the remediation protocol.
module ProtocolInvariant {
  import opened Common
  import opened Domain
  import opened Repositories
  import opened Protocol

  // The task has stored the incident's row and still has writes to make.
  predicate Owning(pc: ProcPc) { !pc.PLookup? && !pc.PInsert? && !pc.PStop? }

  predicate BeforeGate(st: PipelineStatus) {
    st.Received? || st.Diagnosing? || st.Proposing? || st.Validating?
  }

  predicate StageOf(pc: ProcPc, st: PipelineStatus) {
    match pc
    case PDiagnosing => st.Received?
    case PDiagnose => st.Diagnosing?
    case PHalt(_) => st.Diagnosing?
    case PProposing => st.Diagnosing?
    case PFix => st.Proposing?
    case PReject(_) => st.Proposing?
    case PValidating(_) => st.Proposing?
    case PValidate(_) => st.Validating?
    case PFailValidation(_, _) => st.Validating?
    case PRequest(_, _) => st.Validating?
    case PAwait(_, _, _) => st.Validating?
    case PHandler => BeforeGate(st)
    case _ => true
  }

  ghost predicate NoApproval(db: Db, i: string) {
    forall a :: a in db.approvals ==> db.approvals[a].incident != i
  }

  ghost predicate Keys(s: Sys) {
    s.hist.owner.Keys == s.db.pipelines.Keys && s.hist.persisted.Keys <= s.db.pipelines.Keys
  }

  ghost predicate ProcOk(s: Sys, t: nat)
    requires t in s.procs
  {
    var pc, c := s.procs[t].pc, s.procs[t].context;
    var i := c.incident;
    Owning(pc) ==>
      && i in s.db.pipelines && i in s.hist.owner && s.hist.owner[i] == t && i !in s.hist.persisted
      && var row := s.db.pipelines[i];
      && row.validation.None? && row.approvalId.None? && row.context == Some(c) && StageOf(pc, row.status)
      && (pc.PAwait? ==> pc.aid in s.db.approvals && s.db.approvals[pc.aid].incident == i
                         && Eligible(pc.p, pc.v, s.cfg.minConfidence))
      && (!pc.PAwait? && !pc.PHandler? ==> NoApproval(s.db, i))
  }

  ghost predicate ApprovalOk(s: Sys, a: string)
    requires a in s.db.approvals
  {
    var i := s.db.approvals[a].incident;
    && i in s.db.pipelines && s.db.approvals[a].expiresAt.Some?
    && (forall b :: b in s.db.approvals && s.db.approvals[b].incident == i ==> b == a)
    && (i in s.hist.persisted && a !in s.hist.resumer ==> s.db.pipelines[i].status.AwaitingApproval?)
  }

  predicate PastGate(st: PipelineStatus) {
    st.AwaitingApproval? || st.Mutating? || st.Completed?
  }

  ghost predicate RowOk(s: Sys, i: string)
    requires i in s.db.pipelines
  {
    var row := s.db.pipelines[i];
    && (row.approvalId.Some? ==> row.approvalId.value in s.db.approvals
                                 && s.db.approvals[row.approvalId.value].incident == i)
    && (i in s.hist.persisted ==>
          var b := s.hist.persisted[i];
          && row.context == Some(b.context) && row.proposal == Some(b.proposal)
          && row.validation == Some(b.validation) && row.approvalId.Some?
          && b.context.incident == i && Eligible(b.proposal, b.validation, s.cfg.minConfidence)
          && (PastGate(row.status) || row.status.PipelineFailed?))
    && (i !in s.hist.persisted ==>
          !PastGate(row.status) && (row.validation.Some? ==> NoApproval(s.db, i)))
  }

  predicate Decided(st: ApprovalStatus) { st.Approved? || st.Rejected? }

  ghost predicate DecisionOk(s: Sys, a: string)
    requires a in s.db.approvals
  {
    var row := s.db.approvals[a];
    && (Decided(row.status) <==> a in s.hist.decider)
    && (a in s.hist.decider ==>
          && s.hist.decider[a] in s.clicks
          && var k := s.clicks[s.hist.decider[a]];
          && k.aid == a && k.target == row.status && row.reviewer == Some(k.reviewer)
          && k.clock.Some? && !PastExpiry(row, k.clock.value) && (k.pc.CWon? || k.pc.CStop?))
  }

  ghost predicate ClickOk(s: Sys, k: nat)
    requires k in s.clicks
  {
    var c := s.clicks[k];
    && Decided(c.target)
    && (c.pc.CDecide? ==> c.clock.Some? && c.aid in s.db.approvals
                          && (Undecided(s.db, c.aid) ==> !PastExpiry(s.db.approvals[c.aid], c.clock.value)))
    && (c.pc.CWon? || c.pc == CStop(Recorded) ==>
          c.aid in s.db.approvals && c.aid in s.hist.decider && s.hist.decider[c.aid] == k)
    && (c.pc.CWon? ==> c.aid !in s.hist.resumer)
  }

  ghost predicate ResumerOk(s: Sys, a: string)
    requires a in s.hist.resumer
  {
    && a in s.db.approvals && s.db.approvals[a].status.Approved?
    && s.hist.resumer[a] in s.resumes && s.resumes[s.hist.resumer[a]].aid == a
  }

  predicate Early(pc: ResumePc) {
    pc.RRead? || pc.RByApproval? || pc.RByIncident? || pc.RMutating?
  }

  // The checks of Gate, as a fact about the approval and what it authorises.
  predicate Authorised(a: Approval, b: Bundle) {
    && a.status.Approved? && a.proposalId == b.proposal.id && a.commit == b.proposal.commit
    && b.context.commit == b.proposal.commit && Usable(b.proposal) && Clean(b.validation)
    && b.validation.proposalId == b.proposal.id
  }

  ghost predicate NotStarted(starts: seq<Start>, a: string) {
    forall n :: 0 <= n < |starts| ==> starts[n].aid != a
  }

  ghost predicate Holding(s: Sys, a: string, i: string, x: Approval, b: Bundle) {
    && a in s.db.approvals && s.db.approvals[a] == x && x.incident == i && i in s.hist.persisted
    && s.hist.persisted[i] == b && Authorised(x, b)
  }

  ghost predicate ResumeOk(s: Sys, r: nat)
    requires r in s.resumes
  {
    var pc, a := s.resumes[r].pc, s.resumes[r].aid;
    && a in s.hist.resumer && s.hist.resumer[a] == r && a in s.db.approvals
    && (Early(pc) || pc.RCall? ==> NotStarted(s.hist.starts, a))
    && (Early(pc) ==> RowWaits(s, s.db.approvals[a].incident))
    && PositionOk(s, a, pc)
  }

  ghost predicate RowWaits(s: Sys, i: string) {
    i in s.hist.persisted && i in s.db.pipelines ==> s.db.pipelines[i].status.AwaitingApproval?
  }

  ghost predicate PositionOk(s: Sys, a: string, pc: ResumePc)
    requires a in s.db.approvals
  {
    match pc
    case RByApproval(x) => x == s.db.approvals[a]
    case RByIncident(x) => x == s.db.approvals[a]
    case RReject(_, _) => false
    case RMutating(j, x, b) => Holding(s, a, j, x, b)
    case RCall(j, x, b) => Holding(s, a, j, x, b) && Busy(s, a, j)
    case RRunning(j) => Busy(s, a, j)
    case RComplete(j, _, _) => Busy(s, a, j)
    case RFail(j) => Busy(s, a, j)
    case _ => true
  }

  ghost predicate Busy(s: Sys, a: string, j: string)
    requires a in s.db.approvals
  {
    s.db.approvals[a].incident == j && j in s.hist.persisted && j in s.db.pipelines
    && s.db.pipelines[j].status.Mutating?
  }

  ghost predicate StartOk(s: Sys, n: nat)
    requires n < |s.hist.starts|
  {
    var st := s.hist.starts[n];
    st.aid in s.hist.resumer && Holding(s, st.aid, st.approval.incident, st.approval, st.bundle)
  }

  ghost predicate Logs(s: Sys) {
    && NoDuplicates(s.hist.schedules)
    && (forall a :: a in s.hist.schedules <==> a in s.hist.resumer)
    && (forall m, n :: 0 <= m < n < |s.hist.starts| ==> s.hist.starts[m].aid != s.hist.starts[n].aid)
  }

  ghost predicate ProcsOk(s: Sys) { forall t {:trigger ProcOk(s, t)} :: t in s.procs ==> ProcOk(s, t) }
  ghost predicate ApprovalsOk(s: Sys) { forall a {:trigger ApprovalOk(s, a)} :: a in s.db.approvals ==> ApprovalOk(s, a) }
  ghost predicate RowsOk(s: Sys) { forall i {:trigger RowOk(s, i)} :: i in s.db.pipelines ==> RowOk(s, i) }
  ghost predicate DecisionsOk(s: Sys) {
    && (forall a {:trigger DecisionOk(s, a)} :: a in s.db.approvals ==> DecisionOk(s, a))
    && (forall a :: a in s.hist.decider ==> a in s.db.approvals)
  }
  ghost predicate ClicksOk(s: Sys) { forall k {:trigger ClickOk(s, k)} :: k in s.clicks ==> ClickOk(s, k) }
  ghost predicate ResumersOk(s: Sys) { forall a {:trigger ResumerOk(s, a)} :: a in s.hist.resumer ==> ResumerOk(s, a) }
  ghost predicate ResumesOk(s: Sys) { forall r {:trigger ResumeOk(s, r)} :: r in s.resumes ==> ResumeOk(s, r) }
  ghost predicate StartsOk(s: Sys) { forall n {:trigger StartOk(s, n)} :: 0 <= n < |s.hist.starts| ==> StartOk(s, n) }

  ghost predicate Inv(s: Sys) {
    && Keys(s) && ProcsOk(s) && ApprovalsOk(s) && RowsOk(s) && DecisionsOk(s) && ClicksOk(s)
    && ResumersOk(s) && ResumesOk(s) && StartsOk(s) && Logs(s)
  }

  lemma InitInv(s: Sys)
    requires Init(s)
    ensures Inv(s)
  {
  }

  // ---------- process_failure ----------

  // A move of task t that writes: it may replace the row of t's own incident j, store one fresh
  // approval for j, and persist j's bundle together with AWAITING_APPROVAL.
  ghost predicate ProcEffect(s: Sys, s': Sys, t: nat, j: string, aid: Option<string>) {
    && t in s'.procs && j in s'.db.pipelines
    && s' == s.(db := s'.db, procs := s.procs[t := s'.procs[t]],
                hist := s.hist.(owner := s.hist.owner[j := t], persisted := s'.hist.persisted))
    && s'.db.pipelines == s.db.pipelines[j := s'.db.pipelines[j]]
    && (aid.None? ==> s'.db.approvals == s.db.approvals)
    && (aid.Some? ==>
          && aid.value !in s.db.approvals && aid.value in s'.db.approvals && NoApproval(s.db, j)
          && s'.db.approvals == s.db.approvals[aid.value := s'.db.approvals[aid.value]]
          && s'.db.approvals[aid.value].incident == j && s'.db.approvals[aid.value].status.Pending?
          && s'.db.approvals[aid.value].expiresAt.Some?
          && s'.hist.persisted == s.hist.persisted)
    && (j in s.hist.owner ==> s.hist.owner[j] == t)
    && j !in s.hist.persisted
    && (s'.hist.persisted == s.hist.persisted
        || (j in s'.hist.persisted && s'.hist.persisted == s.hist.persisted[j := s'.hist.persisted[j]]
            && s'.db.pipelines[j].status.AwaitingApproval?))
    && RowOk(s', j) && ProcOk(s', t)
  }

  lemma EffectOnReviews(s: Sys, s': Sys, t: nat, j: string, aid: Option<string>)
    requires Inv(s) && ProcEffect(s, s', t, j, aid)
    ensures DecisionsOk(s') && ClicksOk(s') && ResumersOk(s') && Logs(s') && Keys(s')
  {
    forall a | a in s'.db.approvals ensures DecisionOk(s', a) { assert a in s.db.approvals ==> DecisionOk(s, a); }
    forall k | k in s'.clicks ensures ClickOk(s', k) { assert ClickOk(s, k); }
    forall a | a in s'.hist.resumer ensures ResumerOk(s', a) { assert ResumerOk(s, a); }
  }

  lemma EffectOnProcs(s: Sys, s': Sys, t: nat, j: string, aid: Option<string>)
    requires Inv(s) && ProcEffect(s, s', t, j, aid)
    ensures ProcsOk(s')
  {
    forall u | u in s'.procs ensures ProcOk(s', u) { assert u != t ==> ProcOk(s, u); }
  }

  lemma EffectOnApprovals(s: Sys, s': Sys, t: nat, j: string, aid: Option<string>)
    requires Inv(s) && ProcEffect(s, s', t, j, aid)
    ensures ApprovalsOk(s')
  {
    forall a | a in s'.db.approvals ensures ApprovalOk(s', a) { assert a in s.db.approvals ==> ApprovalOk(s, a); }
  }

  lemma EffectOnRows(s: Sys, s': Sys, t: nat, j: string, aid: Option<string>)
    requires Inv(s) && ProcEffect(s, s', t, j, aid)
    ensures RowsOk(s')
  {
    forall i | i in s'.db.pipelines ensures RowOk(s', i) { assert i != j ==> RowOk(s, i); }
  }

  ghost predicate KeepsPersisted(s: Sys, s': Sys) {
    forall i :: i in s.hist.persisted ==>
      && i in s'.hist.persisted && s'.hist.persisted[i] == s.hist.persisted[i]
      && (i in s.db.pipelines ==> i in s'.db.pipelines && s'.db.pipelines[i] == s.db.pipelines[i])
  }

  lemma PositionFrame(s: Sys, s': Sys, a: string, pc: ResumePc)
    requires KeepsPersisted(s, s') && a in s.db.approvals && PositionOk(s, a, pc)
    requires a in s'.db.approvals && s'.db.approvals[a] == s.db.approvals[a]
    ensures PositionOk(s', a, pc)
  {
  }

  ghost predicate KeepsResumed(s: Sys, s': Sys) {
    forall a :: a in s.hist.resumer && a in s.db.approvals ==>
      a in s'.db.approvals && s'.db.approvals[a] == s.db.approvals[a]
  }

  // A resume task is unharmed by a move of another task that leaves resumed approvals and persisted
  // rows alone; a row persisted by that move is AWAITING_APPROVAL.
  ghost predicate ResumeCalm(s: Sys, s': Sys) {
    && KeepsPersisted(s, s') && KeepsResumed(s, s')
    && s'.resumes == s.resumes && s'.hist.resumer == s.hist.resumer && s'.hist.starts == s.hist.starts
    && (forall i :: i in s'.hist.persisted && i !in s.hist.persisted ==> RowWaits(s', i))
  }

  lemma ResumeFrame(s: Sys, s': Sys, r: nat)
    requires r in s.resumes && ResumeOk(s, r) && ResumeCalm(s, s')
    requires s.hist.persisted.Keys <= s.db.pipelines.Keys
    ensures ResumeOk(s', r)
  {
    PositionFrame(s, s', s.resumes[r].aid, s.resumes[r].pc);
    var i := s.db.approvals[s.resumes[r].aid].incident;
    assert Early(s.resumes[r].pc) && i in s.hist.persisted ==> RowWaits(s', i);
  }

  lemma EffectIsCalm(s: Sys, s': Sys, t: nat, j: string, aid: Option<string>)
    requires Inv(s) && ProcEffect(s, s', t, j, aid)
    ensures ResumeCalm(s, s')
  {
  }

  lemma EffectOnStarts(s: Sys, s': Sys, t: nat, j: string, aid: Option<string>)
    requires Inv(s) && ProcEffect(s, s', t, j, aid)
    ensures StartsOk(s')
  {
    forall n | 0 <= n < |s'.hist.starts| ensures StartOk(s', n) { assert StartOk(s, n); }
  }

  lemma EffectKeeps(s: Sys, s': Sys, t: nat, j: string, aid: Option<string>)
    requires Inv(s) && ProcEffect(s, s', t, j, aid)
    ensures Inv(s')
  {
    EffectOnReviews(s, s', t, j, aid);
    EffectOnProcs(s, s', t, j, aid);
    EffectOnApprovals(s, s', t, j, aid);
    EffectOnRows(s, s', t, j, aid);
    forall r | r in s'.resumes ensures ResumeOk(s', r) {
      EffectIsCalm(s, s', t, j, aid);
      ResumeFrame(s, s', r);
    }
    EffectOnStarts(s, s', t, j, aid);
  }

  // A move that only changes the task's position, or a new task.
  lemma QuietKeeps(s: Sys, t: nat, pr: Proc)
    requires Inv(s) && ProcOk(s.(procs := s.procs[t := pr]), t)
    ensures Inv(s.(procs := s.procs[t := pr]))
  {
    var s' := s.(procs := s.procs[t := pr]);
    QuietOnReviews(s, t, pr);
    forall u | u in s'.procs ensures ProcOk(s', u) { assert u != t ==> ProcOk(s, u); }
    forall r | r in s'.resumes ensures ResumeOk(s', r) { ResumeFrame(s, s', r); }
    forall n | 0 <= n < |s'.hist.starts| ensures StartOk(s', n) { assert StartOk(s, n); }
  }

  lemma QuietOnReviews(s: Sys, t: nat, pr: Proc)
    requires Inv(s)
    ensures var s' := s.(procs := s.procs[t := pr]);
            DecisionsOk(s') && ClicksOk(s') && ResumersOk(s') && ApprovalsOk(s') && RowsOk(s')
  {
    var s' := s.(procs := s.procs[t := pr]);
    forall a | a in s'.db.approvals ensures ApprovalOk(s', a) { assert ApprovalOk(s, a); }
    forall i | i in s'.db.pipelines ensures RowOk(s', i) { assert RowOk(s, i); }
    forall a | a in s'.db.approvals ensures DecisionOk(s', a) { assert DecisionOk(s, a); }
    forall k | k in s'.clicks ensures ClickOk(s', k) { assert ClickOk(s, k); }
    forall a | a in s'.hist.resumer ensures ResumerOk(s', a) { assert ResumerOk(s, a); }
  }

  lemma InsertKeeps(s: Sys, t: nat)
    requires Inv(s) && t in s.procs && s.procs[t].pc.PInsert?
    requires s.procs[t].context.incident !in s.db.pipelines
    ensures Inv(ApplyProc(s, t, Ok))
  {
    var j := s.procs[t].context.incident;
    forall a | a in s.db.approvals ensures s.db.approvals[a].incident != j { assert ApprovalOk(s, a); }
    EffectKeeps(s, ApplyProc(s, t, Ok), t, j, None);
  }

  // A stage write before the gate.
  lemma TouchKeeps(s: Sys, t: nat, u: Update, pc: ProcPc)
    requires Inv(s) && t in s.procs && Owning(s.procs[t].pc)
    requires u.approvalId.None? && u.context.None? && !PastGate(u.status)
    requires u.validation.Some? ==> NoApproval(s.db, s.procs[t].context.incident)
    requires ProcOk(s, t)
    requires var s' := s.(db := UpdatePipeline(s.db, s.procs[t].context.incident, u),
                          procs := s.procs[t := s.procs[t].(pc := pc)]); ProcOk(s', t)
    ensures Inv(s.(db := UpdatePipeline(s.db, s.procs[t].context.incident, u),
                   procs := s.procs[t := s.procs[t].(pc := pc)]))
  {
    var j := s.procs[t].context.incident;
    var s' := s.(db := UpdatePipeline(s.db, j, u), procs := s.procs[t := s.procs[t].(pc := pc)]);
    assert RowOk(s, j);
    assert s.hist.owner[j := t] == s.hist.owner;
    EffectKeeps(s, s', t, j, None);
  }

  lemma AskKeeps(s: Sys, t: nat, now: int)
    requires Inv(s) && t in s.procs && s.procs[t].pc.PRequest?
    requires ApplyProc(s, t, Clock(now)).procs[t].pc.PAwait?
    ensures Inv(ApplyProc(s, t, Clock(now)))
  {
    hide ProcStep, ApprovalId, ProposalTaken;
    RequestStep(s.cfg, s.db, s.procs[t], Clock(now));
    var s' := ApplyProc(s, t, Clock(now));
    var j := s.procs[t].context.incident;
    assert ProcOk(s, t) && RowOk(s, j);
    assert s.hist.owner[j := t] == s.hist.owner;
    assert s.db.pipelines[j := s.db.pipelines[j]] == s.db.pipelines;
    EffectKeeps(s, s', t, j, Some(s'.procs[t].pc.aid));
  }

  lemma AwaitKeeps(s: Sys, t: nat)
    requires Inv(s) && t in s.procs && s.procs[t].pc.PAwait?
    ensures Inv(ApplyProc(s, t, Ok))
  {
    var s' := ApplyProc(s, t, Ok);
    var j := s.procs[t].context.incident;
    assert ProcOk(s, t) && RowOk(s, j);
    assert s.hist.owner[j := t] == s.hist.owner;
    EffectKeeps(s, s', t, j, None);
  }

  // A stage write committed with Ok, or its exception.
  lemma WriteKeeps(s: Sys, t: nat, u: Update, next: ProcPc, act: Act)
    requires Inv(s) && t in s.procs && Owning(s.procs[t].pc) && !s.procs[t].pc.PAwait?
    requires u.approvalId.None? && u.context.None? && !PastGate(u.status)
    requires u.validation.Some? ==> next.PStop? && !s.procs[t].pc.PHandler?
    requires Owning(next) ==> StageOf(next, u.status) && !next.PAwait? && !next.PHandler? && !s.procs[t].pc.PHandler?
    ensures var (db, pc) := Write(s.db, s.procs[t], u, next, act);
            Inv(s.(db := db, procs := s.procs[t := s.procs[t].(pc := pc)]))
  {
    assert ProcOk(s, t);
    if act.Ok? {
      TouchKeeps(s, t, u, next);
    } else {
      QuietKeeps(s, t, s.procs[t].(pc := if act.Raise? then PHandler else s.procs[t].pc));
    }
  }

  lemma QuietMove(s: Sys, t: nat, act: Act)
    requires t in s.procs && ProcOk(s, t)
    requires ApplyProc(s, t, act).db == s.db && ApplyProc(s, t, act).hist == s.hist
    ensures var pr := s.procs[t].(pc := ApplyProc(s, t, act).procs[t].pc);
            ApplyProc(s, t, act) == s.(procs := s.procs[t := pr]) && ProcOk(s.(procs := s.procs[t := pr]), t)
  {
    hide ProcStep, ProcOk;
    var next := ProcStep(s.cfg, s.db, s.procs[t], act).1;
    if StageWrite(s.procs[t].pc) {
      QuietStage(s, t, act);
    } else if ReadsOnly(s.procs[t].pc) {
      QuietRead(s, t, act);
    } else {
      QuietWrite(s, t, act);
    }
  }

  lemma StageChanges(c: Context, pc: ProcPc, st: PipelineStatus)
    requires StageWrite(pc) && StageOf(pc, st)
    ensures StageUpdate(c, pc).status != st && BeforeGate(st)
  {
  }

  lemma QuietStage(s: Sys, t: nat, act: Act)
    requires t in s.procs && ProcOk(s, t) && StageWrite(s.procs[t].pc)
    requires ProcStep(s.cfg, s.db, s.procs[t], act).0 == s.db
    ensures ProcOk(s.(procs := s.procs[t := s.procs[t].(pc := ProcStep(s.cfg, s.db, s.procs[t], act).1)]), t)
  {
    hide ProcStep, StageUpdate, AfterWrite, Eligible, NoApproval;
    var pr := s.procs[t];
    StageStep(s.cfg, s.db, pr, act);
    StageChanges(pr.context, pr.pc, s.db.pipelines[pr.context.incident].status);
  }

  lemma QuietRead(s: Sys, t: nat, act: Act)
    requires t in s.procs && ProcOk(s, t) && ReadsOnly(s.procs[t].pc)
    ensures ProcOk(s.(procs := s.procs[t := s.procs[t].(pc := ProcStep(s.cfg, s.db, s.procs[t], act).1)]), t)
  {
    hide StageUpdate, InsertApproval, InsertPipeline, Eligible, UpdatePipeline, NoApproval, Usable, Clean;
  }

  lemma QuietWrite(s: Sys, t: nat, act: Act)
    requires t in s.procs && ProcOk(s, t)
    requires s.procs[t].pc.PInsert? || s.procs[t].pc.PRequest? || s.procs[t].pc.PHandler?
    requires ProcStep(s.cfg, s.db, s.procs[t], act).0 == s.db
    ensures ProcOk(s.(procs := s.procs[t := s.procs[t].(pc := ProcStep(s.cfg, s.db, s.procs[t], act).1)]), t)
  {
    hide ProcStep, NewPipeline, NewApproval, Eligible, NoApproval, UpdatePipeline, ApprovalId;
    if s.procs[t].pc.PInsert? {
      InsertStep(s.cfg, s.db, s.procs[t], act);
    } else if s.procs[t].pc.PRequest? {
      RequestStep(s.cfg, s.db, s.procs[t], act);
    } else {
      HandlerStep(s.cfg, s.db, s.procs[t], act);
    }
  }

  lemma ProcKeeps(s: Sys, t: nat, act: Act)
    requires Inv(s) && t in s.procs
    ensures Inv(ApplyProc(s, t, act))
  {
    var s' := ApplyProc(s, t, act);
    if s'.db == s.db && s'.hist == s.hist {
      assert ProcOk(s, t);
      QuietMove(s, t, act);
      QuietKeeps(s, t, s.procs[t].(pc := s'.procs[t].pc));
    } else {
      ProcWrites(s, t, act);
    }
  }

  lemma StageFacts(c: Context, pc: ProcPc)
    requires StageWrite(pc) && !pc.PAwait?
    ensures Owning(pc) && !pc.PHandler?
    ensures var u, next := StageUpdate(c, pc), AfterWrite(pc);
            && u.approvalId.None? && u.context.None? && !PastGate(u.status)
            && (u.validation.Some? ==> next.PStop?)
            && (Owning(next) ==> StageOf(next, u.status) && !next.PAwait? && !next.PHandler?)
  {
  }

  lemma StageIsWrite(s: Sys, t: nat, act: Act)
    requires t in s.procs && !act.Crash? && StageWrite(s.procs[t].pc) && !s.procs[t].pc.PAwait?
    ensures var (db, pc) := Write(s.db, s.procs[t], StageUpdate(s.procs[t].context, s.procs[t].pc),
                                  AfterWrite(s.procs[t].pc), act);
            ApplyProc(s, t, act) == s.(db := db, procs := s.procs[t := s.procs[t].(pc := pc)])
  {
  }

  lemma StageKeeps(s: Sys, t: nat, act: Act)
    requires Inv(s) && t in s.procs && !act.Crash? && StageWrite(s.procs[t].pc) && !s.procs[t].pc.PAwait?
    ensures Inv(ApplyProc(s, t, act))
  {
    var c, pc := s.procs[t].context, s.procs[t].pc;
    StageFacts(c, pc);
    StageIsWrite(s, t, act);
    WriteKeeps(s, t, StageUpdate(c, pc), AfterWrite(pc), act);
  }

  lemma HandlerKeeps(s: Sys, t: nat)
    requires Inv(s) && t in s.procs && s.procs[t].pc.PHandler?
    ensures Inv(ApplyProc(s, t, Ok))
  {
    WriteKeeps(s, t, NO_CHANGE.(status := PipelineFailed, cause := Some(Exception)), PStop, Ok);
  }

  lemma WritingActs(s: Sys, t: nat, act: Act)
    requires t in s.procs
    requires ApplyProc(s, t, act).db != s.db || ApplyProc(s, t, act).hist != s.hist
    ensures var pc := s.procs[t].pc;
            || (pc.PInsert? && act.Ok? && s.procs[t].context.incident !in s.db.pipelines)
            || (pc.PRequest? && act.Clock? && ApplyProc(s, t, act).procs[t].pc.PAwait?)
            || (pc.PAwait? && act.Ok?)
            || (pc.PHandler? && act.Ok?)
            || (StageWrite(pc) && !pc.PAwait? && !act.Crash?)
  {
  }

  lemma ProcWrites(s: Sys, t: nat, act: Act)
    requires Inv(s) && t in s.procs
    requires ApplyProc(s, t, act).db != s.db || ApplyProc(s, t, act).hist != s.hist
    ensures Inv(ApplyProc(s, t, act))
  {
    WritingActs(s, t, act);
    var pc := s.procs[t].pc;
    if pc.PInsert? {
      InsertKeeps(s, t);
    } else if pc.PRequest? {
      AskKeeps(s, t, act.now);
    } else if pc.PAwait? {
      AwaitKeeps(s, t);
    } else if pc.PHandler? {
      HandlerKeeps(s, t);
    } else {
      StageKeeps(s, t, act);
    }
  }

  // ---------- clicks and expirations ----------

  // A pending approval row is replaced by one for the same incident.
  ghost predicate RowSettles(s: Sys, s': Sys, aid: string) {
    && Undecided(s.db, aid) && aid in s'.db.approvals
    && s'.db == s.db.(approvals := s.db.approvals[aid := s'.db.approvals[aid]])
    && s'.db.approvals[aid].incident == s.db.approvals[aid].incident
    && s'.db.approvals[aid].expiresAt == s.db.approvals[aid].expiresAt
    && s'.cfg == s.cfg && s'.procs == s.procs && s'.resumes == s.resumes
    && s'.hist == s.hist.(decider := s'.hist.decider)
  }

  lemma SettlingIsCalm(s: Sys, s': Sys, aid: string)
    requires Inv(s) && RowSettles(s, s', aid)
    ensures aid !in s.hist.resumer && aid !in s.hist.decider
    ensures ResumeCalm(s, s') && ResumersOk(s') && StartsOk(s')
  {
    assert DecisionOk(s, aid);
    assert aid in s.hist.resumer ==> ResumerOk(s, aid);
    forall a | a in s'.hist.resumer ensures ResumerOk(s', a) { assert ResumerOk(s, a); }
    forall n | 0 <= n < |s'.hist.starts| ensures StartOk(s', n) {
      assert StartOk(s, n);
      assert ResumerOk(s, s.hist.starts[n].aid);
    }
  }

  lemma SettlingKeepsRows(s: Sys, s': Sys, aid: string)
    requires Inv(s) && RowSettles(s, s', aid)
    ensures ProcsOk(s') && ApprovalsOk(s') && RowsOk(s') && Keys(s') && Logs(s')
  {
    forall t | t in s'.procs ensures ProcOk(s', t) { assert ProcOk(s, t); }
    forall a | a in s'.db.approvals ensures ApprovalOk(s', a) { assert ApprovalOk(s, a); }
    forall i | i in s'.db.pipelines ensures RowOk(s', i) { assert RowOk(s, i); }
  }

  lemma SettlingKeepsResumes(s: Sys, s': Sys, aid: string)
    requires Inv(s) && RowSettles(s, s', aid)
    ensures ResumesOk(s')
  {
    SettlingIsCalm(s, s', aid);
    forall r | r in s'.resumes ensures ResumeOk(s', r) { ResumeFrame(s, s', r); }
  }

  lemma ExpireKeeps(s: Sys, aid: string)
    requires Inv(s)
    ensures Inv(s.(db := Expire(s.db, aid)))
  {
    var s' := s.(db := Expire(s.db, aid));
    if Undecided(s.db, aid) {
      SettlingIsCalm(s, s', aid);
      SettlingKeepsRows(s, s', aid);
      SettlingKeepsResumes(s, s', aid);
      ExpireKeepsReviews(s, aid);
    } else {
      assert s' == s;
    }
  }

  lemma ExpireKeepsReviews(s: Sys, aid: string)
    requires Inv(s) && Undecided(s.db, aid)
    ensures DecisionsOk(s.(db := Expire(s.db, aid))) && ClicksOk(s.(db := Expire(s.db, aid)))
  {
    var s' := s.(db := Expire(s.db, aid));
    assert DecisionOk(s, aid);
    forall a | a in s'.db.approvals ensures DecisionOk(s', a) { assert DecisionOk(s, a); }
    forall j | j in s'.clicks ensures ClickOk(s', j) { assert ClickOk(s, j); }
  }

  // Only the click itself changes.
  lemma ClickQuiet(s: Sys, k: nat, c: Click)
    requires Inv(s) && ClickOk(s.(clicks := s.clicks[k := c]), k)
    requires k in s.clicks ==> c.aid == s.clicks[k].aid && c.target == s.clicks[k].target
                               && c.reviewer == s.clicks[k].reviewer
    requires k in s.clicks && (s.clicks[k].pc.CWon? || s.clicks[k].pc.CStop?) ==>
               c.clock == s.clicks[k].clock && (c.pc.CWon? || c.pc.CStop?)
    ensures Inv(s.(clicks := s.clicks[k := c]))
  {
    var s' := s.(clicks := s.clicks[k := c]);
    forall a | a in s'.db.approvals ensures DecisionOk(s', a) { assert DecisionOk(s, a); }
    forall j | j in s'.clicks ensures ClickOk(s', j) { assert j != k ==> ClickOk(s, j); }
    ClickQuietRest(s, s');
  }

  lemma ClickQuietRest(s: Sys, s': Sys)
    requires Inv(s) && s' == s.(clicks := s'.clicks)
    ensures ProcsOk(s') && ApprovalsOk(s') && RowsOk(s') && Keys(s') && Logs(s')
    ensures ResumersOk(s') && ResumesOk(s') && StartsOk(s')
  {
    forall t | t in s'.procs ensures ProcOk(s', t) { assert ProcOk(s, t); }
    forall a | a in s'.db.approvals ensures ApprovalOk(s', a) { assert ApprovalOk(s, a); }
    forall i | i in s'.db.pipelines ensures RowOk(s', i) { assert RowOk(s, i); }
    forall a | a in s'.hist.resumer ensures ResumerOk(s', a) { assert ResumerOk(s, a); }
    forall r | r in s'.resumes ensures ResumeOk(s', r) { ResumeFrame(s, s', r); }
    forall n | 0 <= n < |s'.hist.starts| ensures StartOk(s', n) { assert StartOk(s, n); }
  }

  lemma DecideKeeps(s: Sys, k: nat, now: int)
    requires Inv(s) && k in s.clicks && s.clicks[k].pc.CDecide? && Undecided(s.db, s.clicks[k].aid)
    ensures Inv(ApplyClick(s, k, Clock(now)))
  {
    var s' := ApplyClick(s, k, Clock(now));
    var aid := s.clicks[k].aid;
    assert RowSettles(s, s', aid);
    SettlingIsCalm(s, s', aid);
    SettlingKeepsRows(s, s', aid);
    SettlingKeepsResumes(s, s', aid);
    DecideKeepsDecisions(s, k, now);
    DecideKeepsClicks(s, k, now);
  }

  lemma DecideKeepsDecisions(s: Sys, k: nat, now: int)
    requires DecisionsOk(s) && k in s.clicks && ClickOk(s, k)
    requires s.clicks[k].pc.CDecide? && Undecided(s.db, s.clicks[k].aid)
    ensures DecisionsOk(ApplyClick(s, k, Clock(now)))
  {
    var s' := ApplyClick(s, k, Clock(now));
    var aid := s.clicks[k].aid;
    assert DecisionOk(s, aid);
    forall a | a in s'.db.approvals ensures DecisionOk(s', a) { assert DecisionOk(s, a); }
  }

  lemma DecideKeepsClicks(s: Sys, k: nat, now: int)
    requires ClicksOk(s) && k in s.clicks && s.clicks[k].pc.CDecide? && Undecided(s.db, s.clicks[k].aid)
    requires s.clicks[k].aid !in s.hist.resumer && s.clicks[k].aid !in s.hist.decider
    ensures ClicksOk(ApplyClick(s, k, Clock(now)))
  {
    var s' := ApplyClick(s, k, Clock(now));
    forall j | j in s'.clicks ensures ClickOk(s', j) { assert ClickOk(s, j); }
  }

  // The route schedules the one resume of an approval.
  lemma SpawnKeeps(s: Sys, k: nat, r: nat)
    requires Inv(s) && k in s.clicks && s.clicks[k].pc.CWon? && s.clicks[k].target.Approved?
    requires r !in s.resumes
    ensures Inv(ApplyClick(s, k, Spawn(r)))
  {
    var s' := ApplyClick(s, k, Spawn(r));
    SpawnKeepsTables(s, k, r);
    SpawnKeepsReviews(s, k, r);
    SpawnKeepsResumers(s, k, r);
    SpawnKeepsResumes(s, k, r);
  }

  lemma SpawnKeepsTables(s: Sys, k: nat, r: nat)
    requires Inv(s) && k in s.clicks && s.clicks[k].pc.CWon? && s.clicks[k].target.Approved? && r !in s.resumes
    ensures var s' := ApplyClick(s, k, Spawn(r)); ProcsOk(s') && ApprovalsOk(s') && RowsOk(s') && Keys(s')
  {
    var s' := ApplyClick(s, k, Spawn(r));
    forall t | t in s'.procs ensures ProcOk(s', t) { assert ProcOk(s, t); }
    forall a | a in s'.db.approvals ensures ApprovalOk(s', a) { assert ApprovalOk(s, a); }
    forall i | i in s'.db.pipelines ensures RowOk(s', i) { assert RowOk(s, i); }
  }

  lemma SpawnKeepsReviews(s: Sys, k: nat, r: nat)
    requires Inv(s) && k in s.clicks && s.clicks[k].pc.CWon? && s.clicks[k].target.Approved? && r !in s.resumes
    ensures var s' := ApplyClick(s, k, Spawn(r)); DecisionsOk(s') && ClicksOk(s')
  {
    var s' := ApplyClick(s, k, Spawn(r));
    assert ClickOk(s, k);
    forall a | a in s'.db.approvals ensures DecisionOk(s', a) { assert DecisionOk(s, a); }
    forall j | j in s'.clicks ensures ClickOk(s', j) { assert ClickOk(s, j); }
  }

  lemma SpawnKeepsResumers(s: Sys, k: nat, r: nat)
    requires Inv(s) && k in s.clicks && s.clicks[k].pc.CWon? && s.clicks[k].target.Approved? && r !in s.resumes
    ensures var s' := ApplyClick(s, k, Spawn(r)); ResumersOk(s') && Logs(s')
  {
    var s' := ApplyClick(s, k, Spawn(r));
    var aid := s.clicks[k].aid;
    assert ClickOk(s, k) && DecisionOk(s, aid);
    forall a | a in s'.hist.resumer ensures ResumerOk(s', a) { assert a != aid ==> ResumerOk(s, a); }
  }

  lemma SpawnKeepsResumes(s: Sys, k: nat, r: nat)
    requires Inv(s) && k in s.clicks && s.clicks[k].pc.CWon? && s.clicks[k].target.Approved? && r !in s.resumes
    ensures ResumesOk(ApplyClick(s, k, Spawn(r))) && StartsOk(ApplyClick(s, k, Spawn(r)))
  {
    var s' := ApplyClick(s, k, Spawn(r));
    var aid := s.clicks[k].aid;
    assert ClickOk(s, k) && ApprovalOk(s, aid);
    forall n | 0 <= n < |s'.hist.starts| ensures StartOk(s', n) { assert StartOk(s, n); }
    forall w | w in s'.resumes ensures ResumeOk(s', w) {
      if w != r {
        assert ResumeOk(s, w);
        PositionFrame(s, s', s.resumes[w].aid, s.resumes[w].pc);
      } else {
        forall n | 0 <= n < |s.hist.starts| ensures s.hist.starts[n].aid != aid { assert StartOk(s, n); }
      }
    }
  }

  lemma ClickExpires(s: Sys, k: nat)
    requires Inv(s) && k in s.clicks && ClickOk(s, k) && s.clicks[k].pc.CExpire?
    ensures Inv(ApplyClick(s, k, Ok))
  {
    hide Inv, Expire, Undecided;
    var c, m := s.clicks[k].(pc := CStop(HasExpired)), s.(db := Expire(s.db, s.clicks[k].aid));
    ExpireKeeps(s, s.clicks[k].aid);
    assert ApplyClick(s, k, Ok) == m.(clicks := m.clicks[k := c]);
    ClickQuiet(m, k, c);
  }

  // A move that writes no row.
  lemma ClickWaits(s: Sys, k: nat, act: Act)
    requires Inv(s) && k in s.clicks && ClickOk(s, k)
    requires !(s.clicks[k].pc.CWon? && act.Spawn? && s.clicks[k].target.Approved?)
    requires !(s.clicks[k].pc.CDecide? && act.Clock? && Undecided(s.db, s.clicks[k].aid))
    requires !(s.clicks[k].pc.CExpire? && act.Ok?)
    ensures Inv(ApplyClick(s, k, act))
  {
    hide Inv, Expire, Decide;
    var c := ApplyClick(s, k, act).clicks[k];
    assert ApplyClick(s, k, act) == s.(clicks := s.clicks[k := c]);
    ClickQuiet(s, k, c);
  }

  lemma ClickKeeps(s: Sys, k: nat, act: Act)
    requires Inv(s) && k in s.clicks
    ensures Inv(ApplyClick(s, k, act))
  {
    hide ApplyClick, Undecided, ClickOk;
    var c := s.clicks[k];
    assert ClickOk(s, k);
    if c.pc.CWon? && act.Spawn? && c.target.Approved? {
      if act.task in s.resumes { ClickStays(s, k, act); } else { SpawnKeeps(s, k, act.task); }
    } else if c.pc.CDecide? && act.Clock? && Undecided(s.db, c.aid) {
      DecideKeeps(s, k, act.now);
    } else if c.pc.CExpire? && act.Ok? {
      ClickExpires(s, k);
    } else {
      ClickWaits(s, k, act);
    }
  }

  // A taken task id is no event.
  lemma ClickStays(s: Sys, k: nat, act: Act)
    requires k in s.clicks && s.clicks[k].pc.CWon? && s.clicks[k].target.Approved? && act.Spawn? && act.task in s.resumes
    ensures ApplyClick(s, k, act) == s
  {
  }

  // ---------- resume_approval ----------

  ghost function Moved(s: Sys, r: nat, pc: ResumePc): Sys
    requires r in s.resumes
  {
    s.(resumes := s.resumes[r := s.resumes[r].(pc := pc)])
  }

  lemma MoveKeepsResumes(s: Sys, r: nat, pc: ResumePc)
    requires ResumesOk(s) && r in s.resumes && ResumeOk(Moved(s, r, pc), r)
    ensures ResumesOk(Moved(s, r, pc))
  {
    var s' := Moved(s, r, pc);
    forall w | w in s'.resumes ensures ResumeOk(s', w) {
      if w != r {
        assert ResumeOk(s, w);
        PositionFrame(s, s', s.resumes[w].aid, s.resumes[w].pc);
      }
    }
  }

  // Only the position of resume task r changes.
  lemma MoveKeeps(s: Sys, r: nat, pc: ResumePc)
    requires Inv(s) && r in s.resumes && ResumeOk(Moved(s, r, pc), r)
    ensures Inv(Moved(s, r, pc))
  {
    MoveKeepsRest(s, r, pc);
    MoveKeepsResumes(s, r, pc);
  }

  lemma MoveKeepsRest(s: Sys, r: nat, pc: ResumePc)
    requires Inv(s) && r in s.resumes
    ensures var s' := Moved(s, r, pc);
            ProcsOk(s') && ApprovalsOk(s') && RowsOk(s') && DecisionsOk(s') && ClicksOk(s') && ResumersOk(s')
            && StartsOk(s') && Keys(s') && Logs(s')
  {
    var s' := Moved(s, r, pc);
    forall t | t in s'.procs ensures ProcOk(s', t) { assert ProcOk(s, t); }
    forall a | a in s'.db.approvals ensures ApprovalOk(s', a) { assert ApprovalOk(s, a); }
    forall i | i in s'.db.pipelines ensures RowOk(s', i) { assert RowOk(s, i); }
    forall a | a in s'.db.approvals ensures DecisionOk(s', a) { assert DecisionOk(s, a); }
    forall k | k in s'.clicks ensures ClickOk(s', k) { assert ClickOk(s, k); }
    forall a | a in s'.hist.resumer ensures ResumerOk(s', a) { assert ResumerOk(s, a); }
    forall n | 0 <= n < |s'.hist.starts| ensures StartOk(s', n) { assert StartOk(s, n); }
  }

  // Resume task r stores a new status for its own incident.
  ghost function Stored(s: Sys, r: nat, u: Update, pc: ResumePc): Sys
    requires r in s.resumes && s.resumes[r].aid in s.db.approvals
  {
    Moved(s.(db := UpdatePipeline(s.db, s.db.approvals[s.resumes[r].aid].incident, u)), r, pc)
  }

  predicate StatusOnly(u: Update) {
    u.approvalId.None? && u.context.None? && u.proposal.None? && u.validation.None?
    && (u.status.Mutating? || u.status.Completed? || u.status.PipelineFailed?)
  }

  lemma StoreKeepsProcs(s: Sys, r: nat, u: Update, pc: ResumePc)
    requires ProcsOk(s) && r in s.resumes && s.resumes[r].aid in s.db.approvals
    requires s.db.approvals[s.resumes[r].aid].incident in s.hist.persisted
    ensures ProcsOk(Stored(s, r, u, pc))
  {
    var s' := Stored(s, r, u, pc);
    forall t | t in s'.procs ensures ProcOk(s', t) { assert ProcOk(s, t); }
  }

  lemma StoreKeepsRows(s: Sys, r: nat, u: Update, pc: ResumePc)
    requires RowsOk(s) && r in s.resumes && s.resumes[r].aid in s.db.approvals && StatusOnly(u)
    requires s.db.approvals[s.resumes[r].aid].incident in s.hist.persisted
    ensures RowsOk(Stored(s, r, u, pc))
  {
    var s' := Stored(s, r, u, pc);
    forall i | i in s'.db.pipelines ensures RowOk(s', i) { assert RowOk(s, i); }
  }

  lemma StoreKeepsApprovals(s: Sys, r: nat, u: Update, pc: ResumePc)
    requires ApprovalsOk(s) && r in s.resumes && ResumeOk(s, r)
    ensures ApprovalsOk(Stored(s, r, u, pc))
  {
    var s' := Stored(s, r, u, pc);
    forall a | a in s'.db.approvals ensures ApprovalOk(s', a) { assert ApprovalOk(s, a); }
  }

  lemma StoreKeepsReviews(s: Sys, r: nat, u: Update, pc: ResumePc)
    requires Inv(s) && r in s.resumes && s.resumes[r].aid in s.db.approvals
    ensures var s' := Stored(s, r, u, pc);
            DecisionsOk(s') && ClicksOk(s') && ResumersOk(s') && StartsOk(s') && Logs(s')
  {
    var s' := Stored(s, r, u, pc);
    forall a | a in s'.db.approvals ensures DecisionOk(s', a) { assert DecisionOk(s, a); }
    forall k | k in s'.clicks ensures ClickOk(s', k) { assert ClickOk(s, k); }
    forall a | a in s'.hist.resumer ensures ResumerOk(s', a) { assert ResumerOk(s, a); }
    forall n | 0 <= n < |s'.hist.starts| ensures StartOk(s', n) { assert StartOk(s, n); }
  }

  lemma StoreKeepsOther(s: Sys, r: nat, u: Update, pc: ResumePc, w: nat)
    requires ApprovalsOk(s) && r in s.resumes && w in s.resumes && w != r
    requires ResumeOk(s, r) && ResumeOk(s, w)
    ensures ResumeOk(Stored(s, r, u, pc), w)
  {
    var a, b := s.resumes[r].aid, s.resumes[w].aid;
    assert a != b;
    assert ApprovalOk(s, a);
    assert s.db.approvals[b].incident != s.db.approvals[a].incident;
  }

  lemma StoreKeepsResumes(s: Sys, r: nat, u: Update, pc: ResumePc)
    requires ApprovalsOk(s) && ResumesOk(s) && r in s.resumes && ResumeOk(s, r)
    requires ResumeOk(Stored(s, r, u, pc), r)
    ensures ResumesOk(Stored(s, r, u, pc))
  {
    forall w | w in s.resumes ensures ResumeOk(Stored(s, r, u, pc), w) {
      if w != r {
        assert ResumeOk(s, w);
        StoreKeepsOther(s, r, u, pc, w);
      }
    }
  }

  lemma StoreKeeps(s: Sys, r: nat, u: Update, pc: ResumePc)
    requires Inv(s) && r in s.resumes && ResumeOk(s, r) && StatusOnly(u)
    requires s.db.approvals[s.resumes[r].aid].incident in s.hist.persisted
    requires ResumeOk(Stored(s, r, u, pc), r)
    ensures Inv(Stored(s, r, u, pc))
  {
    StoreKeepsProcs(s, r, u, pc);
    StoreKeepsRows(s, r, u, pc);
    StoreKeepsApprovals(s, r, u, pc);
    StoreKeepsReviews(s, r, u, pc);
    StoreKeepsResumes(s, r, u, pc);
  }

  lemma CallKeeps(s: Sys, r: nat)
    requires Inv(s) && r in s.resumes && s.resumes[r].pc.RCall?
    ensures Inv(ApplyResume(s, r, Ok))
  {
    var a, pc := s.resumes[r].aid, s.resumes[r].pc;
    assert ResumeOk(s, r) && ResumerOk(s, a);
    var m := Moved(s, r, RRunning(pc.incident));
    CallPosition(s, r);
    MoveKeeps(s, r, RRunning(pc.incident));
    CallIsLogged(s, r);
    LogStart(m, Start(a, pc.a, pc.b));
  }

  lemma CallPosition(s: Sys, r: nat)
    requires r in s.resumes && s.resumes[r].pc.RCall? && ResumeOk(s, r) && ResumesOk(s)
    ensures var m, a, pc := Moved(s, r, RRunning(s.resumes[r].pc.incident)), s.resumes[r].aid, s.resumes[r].pc;
            && ResumeOk(m, r) && a in m.hist.resumer && NotStarted(m.hist.starts, a)
            && Holding(m, a, pc.a.incident, pc.a, pc.b)
            && forall w :: w in m.resumes && m.resumes[w].aid == a ==> w == r
  {
    var m, a := Moved(s, r, RRunning(s.resumes[r].pc.incident)), s.resumes[r].aid;
    forall w | w in m.resumes && m.resumes[w].aid == a ensures w == r { assert ResumeOk(s, w); }
  }

  lemma CallIsLogged(s: Sys, r: nat)
    requires r in s.resumes && s.resumes[r].pc.RCall?
    ensures var m, pc := Moved(s, r, RRunning(s.resumes[r].pc.incident)), s.resumes[r].pc;
            ApplyResume(s, r, Ok)
              == m.(hist := m.hist.(starts := m.hist.starts + [Start(s.resumes[r].aid, pc.a, pc.b)]))
  {
  }

  lemma LogStart(m: Sys, st: Start)
    requires Inv(m) && st.aid in m.hist.resumer && NotStarted(m.hist.starts, st.aid)
    requires Holding(m, st.aid, st.approval.incident, st.approval, st.bundle)
    requires forall r :: r in m.resumes && m.resumes[r].aid == st.aid ==>
               !Early(m.resumes[r].pc) && !m.resumes[r].pc.RCall?
    ensures Inv(m.(hist := m.hist.(starts := m.hist.starts + [st])))
  {
    var s' := m.(hist := m.hist.(starts := m.hist.starts + [st]));
    LogStartRest(m, st);
    forall r | r in s'.resumes ensures ResumeOk(s', r) {
      assert ResumeOk(m, r);
      LogStartResume(m, st, r);
    }
    LogStartStarts(m, st);
  }

  lemma LogStartResume(m: Sys, st: Start, r: nat)
    requires r in m.resumes && ResumeOk(m, r)
    requires m.resumes[r].aid == st.aid ==> !Early(m.resumes[r].pc) && !m.resumes[r].pc.RCall?
    ensures ResumeOk(m.(hist := m.hist.(starts := m.hist.starts + [st])), r)
  {
    PositionFrame(m, m.(hist := m.hist.(starts := m.hist.starts + [st])), m.resumes[r].aid, m.resumes[r].pc);
  }

  lemma LogStartStarts(m: Sys, st: Start)
    requires StartsOk(m) && st.aid in m.hist.resumer
    requires Holding(m, st.aid, st.approval.incident, st.approval, st.bundle)
    ensures StartsOk(m.(hist := m.hist.(starts := m.hist.starts + [st])))
  {
    var s' := m.(hist := m.hist.(starts := m.hist.starts + [st]));
    forall n | 0 <= n < |s'.hist.starts| ensures StartOk(s', n) { assert n < |m.hist.starts| ==> StartOk(m, n); }
  }

  lemma LogStartRest(m: Sys, st: Start)
    requires Inv(m) && NotStarted(m.hist.starts, st.aid)
    ensures var s' := m.(hist := m.hist.(starts := m.hist.starts + [st]));
            ProcsOk(s') && ApprovalsOk(s') && RowsOk(s') && DecisionsOk(s') && ClicksOk(s') && ResumersOk(s')
            && Keys(s') && Logs(s')
  {
    var s' := m.(hist := m.hist.(starts := m.hist.starts + [st]));
    forall t | t in s'.procs ensures ProcOk(s', t) { assert ProcOk(m, t); }
    forall a | a in s'.db.approvals ensures ApprovalOk(s', a) { assert ApprovalOk(m, a); }
    forall i | i in s'.db.pipelines ensures RowOk(s', i) { assert RowOk(m, i); }
    forall a | a in s'.db.approvals ensures DecisionOk(s', a) { assert DecisionOk(m, a); }
    forall k | k in s'.clicks ensures ClickOk(s', k) { assert ClickOk(m, k); }
    forall a | a in s'.hist.resumer ensures ResumerOk(s', a) { assert ResumerOk(m, a); }
  }

  // A pipeline row that lets a resume through is the one the approval gate was asked about.
  lemma JudgeKeeps(s: Sys, r: nat, i: string)
    requires r in s.resumes && i in s.db.pipelines && Early(s.resumes[r].pc) && ResumeOk(s, r) && RowOk(s, i)
    requires s.resumes[r].aid in s.hist.resumer && ResumerOk(s, s.resumes[r].aid)
    requires s.db.approvals[s.resumes[r].aid].incident == i
    ensures ResumeOk(Moved(s, r, Judge(s.db.approvals[s.resumes[r].aid], i, s.db.pipelines[i])), r)
  {
    var a := s.resumes[r].aid;
    if s.db.pipelines[i].validation.Some? {
      assert i in s.hist.persisted;
      JudgeOpens(s.db.approvals[a], i, s.db.pipelines[i], s.hist.persisted[i]);
    }
  }

  lemma JudgeOpens(a: Approval, i: string, row: Pipeline, b: Bundle)
    requires row.context == Some(b.context) && row.proposal == Some(b.proposal)
    requires row.validation == Some(b.validation) && a.status.Approved?
    ensures Judge(a, i, row) == if Authorised(a, b) && !row.status.Completed? && !row.status.Mutating?
                                then RMutating(i, a, b) else RStop
  {
  }

  lemma ReadPosition(s: Sys, r: nat, act: Act)
    requires r in s.resumes && ResumeOk(s, r) && RowsOk(s)
    requires s.resumes[r].aid in s.hist.resumer && ResumerOk(s, s.resumes[r].aid)
    requires s.resumes[r].pc.RRead? || s.resumes[r].pc.RByApproval? || s.resumes[r].pc.RByIncident?
    ensures var pc := ResumeStep(s.db, s.resumes[r], act).1;
            ApplyResume(s, r, act) == Moved(s, r, pc) && ResumeOk(Moved(s, r, pc), r)
  {
    var a := s.resumes[r].aid;
    if s.resumes[r].pc.RByApproval? && act.Row? && FoundByApproval(s.db, a, act.answer) && act.answer.Some? {
      var i := act.answer.value;
      assert i in s.db.pipelines && RowOk(s, i);
      JudgeKeeps(s, r, i);
    } else if s.resumes[r].pc.RByIncident? && act.Ok? && s.resumes[r].pc.a.incident in s.db.pipelines {
      JudgeKeeps(s, r, s.resumes[r].pc.a.incident);
    }
  }

  // The remaining moves of a resume task are one status write, or no write at all.
  ghost predicate WritesStatus(s: Sys, r: nat, act: Act, u: Update)
    requires r in s.resumes && s.resumes[r].aid in s.db.approvals
  {
    && StatusOnly(u)
    && ApplyResume(s, r, act) == Stored(s, r, u, ResumeStep(s.db, s.resumes[r], act).1)
    && ResumeOk(ApplyResume(s, r, act), r)
    && s.db.approvals[s.resumes[r].aid].incident in s.hist.persisted
  }

  // What those moves store.
  lemma LateStep(db: Db, w: Resume, act: Act) returns (u: Update)
    requires w.pc.RMutating? || w.pc.RComplete? || w.pc.RFail?
    ensures StatusOnly(u) && (w.pc.RMutating? ==> u.status.Mutating?)
    ensures var (db', pc) := ResumeStep(db, w, act);
            && db' == (if act.Ok? then UpdatePipeline(db, w.pc.incident, u) else db)
            && (pc == w.pc || pc.RStop? || (act.Raise? && w.pc.RComplete? && pc == RFail(w.pc.incident))
                || (act.Ok? && w.pc.RMutating? && pc == RCall(w.pc.incident, w.pc.a, w.pc.b)))
            && (act.Ok? ==> pc != w.pc)
  {
    hide UpdatePipeline, Judge, FoundByApproval;
    u := if w.pc.RMutating? then NO_CHANGE.(status := Mutating)
         else if w.pc.RComplete? then
           NO_CHANGE.(status := Completed, mutationId := Some(w.pc.mutationId), prNumber := Some(w.pc.prNumber))
         else NO_CHANGE.(status := PipelineFailed, cause := Some(MutationFailed));
  }

  lemma LateMove(s: Sys, r: nat, act: Act) returns (u: Update)
    requires Keys(s) && r in s.resumes && ResumeOk(s, r)
    requires s.resumes[r].pc.RMutating? || s.resumes[r].pc.RComplete? || s.resumes[r].pc.RFail?
    ensures act.Ok? ==> WritesStatus(s, r, act, u)
    ensures !act.Ok? ==>
              var pc := ResumeStep(s.db, s.resumes[r], act).1;
              ApplyResume(s, r, act) == Moved(s, r, pc) && ResumeOk(Moved(s, r, pc), r)
  {
    hide ResumeStep, NotStarted, Authorised, StatusOnly;
    u := LateStep(s.db, s.resumes[r], act);
  }

  lemma StayingMove(s: Sys, r: nat, act: Act)
    requires r in s.resumes && ResumeOk(s, r)
    requires s.resumes[r].pc.RStop? || s.resumes[r].pc.RRunning? || (s.resumes[r].pc.RCall? && !act.Ok?)
    ensures var pc := ResumeStep(s.db, s.resumes[r], act).1;
            ApplyResume(s, r, act) == Moved(s, r, pc) && ResumeOk(Moved(s, r, pc), r)
  {
  }

  lemma ResumeKeeps(s: Sys, r: nat, act: Act)
    requires Inv(s) && r in s.resumes
    ensures Inv(ApplyResume(s, r, act))
  {
    var pc := s.resumes[r].pc;
    var pc' := ResumeStep(s.db, s.resumes[r], act).1;
    assert ResumeOk(s, r) && ResumerOk(s, s.resumes[r].aid);
    if pc.RCall? && act.Ok? {
      CallKeeps(s, r);
    } else if pc.RMutating? || pc.RComplete? || pc.RFail? {
      var u := LateMove(s, r, act);
      if act.Ok? { StoreKeeps(s, r, u, pc'); } else { MoveKeeps(s, r, pc'); }
    } else {
      if pc.RRead? || pc.RByApproval? || pc.RByIncident? { ReadPosition(s, r, act); } else { StayingMove(s, r, act); }
      MoveKeeps(s, r, pc');
    }
  }

  lemma StepKeepsInv(s: Sys, e: Event)
    requires Inv(s)
    ensures Inv(Apply(s, e))
  {
    match e
    case Webhook(t, c) => if t !in s.procs { QuietKeeps(s, t, Proc(c, PLookup)); }
    case ClickArrives(k, aid, approve, reviewer) =>
      if k !in s.clicks { ClickQuiet(s, k, Click(aid, TargetOf(approve), reviewer, None, CRead)); }
    case ProcMove(t, act) => if t in s.procs { ProcKeeps(s, t, act); }
    case ClickMove(k, act) => if k in s.clicks { ClickKeeps(s, k, act); }
    case ResumeMove(r, act) => if r in s.resumes { ResumeKeeps(s, r, act); }
    case Sweep(aid) => ExpireKeeps(s, aid);
  }

  lemma {:induction false} RunKeepsInv(s: Sys, es: seq<Event>)
    requires Inv(s)
    ensures Inv(Run(s, es))
    decreases |es|
  {
    if es != [] {
      StepKeepsInv(s, es[0]);
      RunKeepsInv(Apply(s, es[0]), es[1..]);
    }
  }

  lemma ReachableInv(s: Sys)
    requires Reachable(s)
    ensures Inv(s)
  {
    var s0, es :| Init(s0) && Run(s0, es) == s;
    InitInv(s0);
    RunKeepsInv(s0, es);
  }
}
