// When a scheduled resume goes on to the mutation, and when it is lost.
module ProtocolResume {
  import opened Common
  import opened Domain
  import opened Repositories
  import opened Protocol
  import opened ProtocolInvariant
  import opened ProtocolTheorems

  // ---------- approvals carry the ids of what was persisted ----------

  ghost predicate AwaitBound(s: Sys, t: nat)
    requires t in s.procs
  {
    s.procs[t].pc.PAwait? ==>
      && s.procs[t].pc.aid in s.db.approvals
      && s.db.approvals[s.procs[t].pc.aid].proposalId == s.procs[t].pc.p.id
      && s.db.approvals[s.procs[t].pc.aid].commit == s.procs[t].pc.p.commit
  }

  ghost predicate ApprovalBound(s: Sys, a: string)
    requires a in s.db.approvals
  {
    var row := s.db.approvals[a];
    row.incident in s.hist.persisted ==>
      && row.proposalId == s.hist.persisted[row.incident].proposal.id
      && row.commit == s.hist.persisted[row.incident].proposal.commit
  }

  ghost predicate RowBound(s: Sys, i: string)
    requires i in s.db.pipelines
  {
    s.db.pipelines[i].approvalId.Some? ==> i in s.hist.persisted
  }

  ghost predicate AwaitsBound(s: Sys) { forall t {:trigger AwaitBound(s, t)} :: t in s.procs ==> AwaitBound(s, t) }
  ghost predicate ApprovalsBound(s: Sys) {
    forall a {:trigger ApprovalBound(s, a)} :: a in s.db.approvals ==> ApprovalBound(s, a)
  }
  ghost predicate RowsBound(s: Sys) { forall i {:trigger RowBound(s, i)} :: i in s.db.pipelines ==> RowBound(s, i) }

  ghost predicate Bound(s: Sys) { AwaitsBound(s) && ApprovalsBound(s) && RowsBound(s) }

  // Ids of stored approvals never change.
  ghost predicate SameIds(db: Db, db': Db) {
    forall a :: a in db.approvals ==>
      && a in db'.approvals && db'.approvals[a].incident == db.approvals[a].incident
      && db'.approvals[a].proposalId == db.approvals[a].proposalId && db'.approvals[a].commit == db.approvals[a].commit
  }

  // A step of a click, a sweep or a resume.
  lemma QuietBound(s: Sys, s': Sys)
    requires Bound(s) && SameIds(s.db, s'.db) && s'.db.approvals.Keys == s.db.approvals.Keys
    requires s'.procs == s.procs && s'.hist.persisted == s.hist.persisted
    requires s'.db.pipelines.Keys == s.db.pipelines.Keys
    requires forall i :: i in s.db.pipelines ==> s'.db.pipelines[i].approvalId == s.db.pipelines[i].approvalId
    ensures Bound(s')
  {
    forall t | t in s'.procs ensures AwaitBound(s', t) { assert AwaitBound(s, t); }
    forall a | a in s'.db.approvals ensures ApprovalBound(s', a) { assert ApprovalBound(s, a); }
    forall i | i in s'.db.pipelines ensures RowBound(s', i) { assert RowBound(s, i); }
  }

  lemma ClickBound(s: Sys, k: nat, act: Act)
    requires Bound(s) && k in s.clicks
    ensures Bound(ApplyClick(s, k, act))
  {
    hide Bound, ApplyClick;
    ClickFrame(s, k, act);
    QuietBound(s, ApplyClick(s, k, act));
  }

  lemma ResumeBound(s: Sys, r: nat, act: Act)
    requires Bound(s) && r in s.resumes
    ensures Bound(ApplyResume(s, r, act))
  {
    hide Bound, ResumeStep;
    ResumeKeepsIds(s.db, s.resumes[r], act);
    QuietBound(s, ApplyResume(s, r, act));
  }

  lemma ResumeKeepsIds(db: Db, w: Resume, act: Act)
    ensures var db' := ResumeStep(db, w, act).0;
            && db'.approvals == db.approvals && db'.pipelines.Keys == db.pipelines.Keys
            && forall i :: i in db.pipelines ==> db'.pipelines[i].approvalId == db.pipelines[i].approvalId
  {
    hide Judge, FoundByApproval;
  }

  // What a move of task t may do, as far as the ids are concerned.
  ghost predicate ProcMoves(s: Sys, s': Sys, t: nat)
    requires t in s.procs && t in s'.procs
  {
    var pr, i := s.procs[t], s.procs[t].context.incident;
    && s'.procs == s.procs[t := s'.procs[t]] && SameIds(s.db, s'.db)
    && (forall a :: a in s'.db.approvals && a !in s.db.approvals ==>
          s'.db.approvals[a].incident == i && i !in s'.hist.persisted)
    && (s'.procs[t].pc.PAwait? ==> s'.procs[t] == pr || AwaitBound(s', t))
    && (forall j :: j in s'.db.pipelines && j != i ==> j in s.db.pipelines && s'.db.pipelines[j] == s.db.pipelines[j])
    && (s'.hist.persisted == s.hist.persisted
        || (pr.pc.PAwait? && s'.hist.persisted == s.hist.persisted[i := Bundle(pr.context, pr.pc.p, pr.pc.v)]))
    && (i in s'.db.pipelines && s'.db.pipelines[i].approvalId.Some? ==>
          i in s'.hist.persisted || (i in s.db.pipelines && s.db.pipelines[i].approvalId.Some?))
  }

  lemma StageIds(c: Context, pc: ProcPc)
    requires StageWrite(pc)
    ensures !AfterWrite(pc).PAwait? && (StageUpdate(c, pc).approvalId.Some? ==> pc.PAwait?)
  {
  }

  lemma StageMovesSo(s: Sys, t: nat, act: Act)
    requires t in s.procs && ProcOk(s, t) && StageWrite(s.procs[t].pc)
    ensures t in ApplyProc(s, t, act).procs && ProcMoves(s, ApplyProc(s, t, act), t)
  {
    hide ProcStep, StageUpdate, AfterWrite, Eligible;
    StageStep(s.cfg, s.db, s.procs[t], act);
    StageIds(s.procs[t].context, s.procs[t].pc);
  }

  lemma RequestMovesSo(s: Sys, t: nat, act: Act)
    requires t in s.procs && ProcOk(s, t) && s.procs[t].pc.PRequest?
    ensures t in ApplyProc(s, t, act).procs && ProcMoves(s, ApplyProc(s, t, act), t)
  {
    hide ProcStep, Eligible, ApprovalId, ProposalTaken;
    RequestStep(s.cfg, s.db, s.procs[t], act);
  }

  lemma InsertMovesSo(s: Sys, t: nat, act: Act)
    requires t in s.procs && ProcOk(s, t) && s.procs[t].pc.PInsert?
    ensures t in ApplyProc(s, t, act).procs && ProcMoves(s, ApplyProc(s, t, act), t)
  {
    hide ProcStep, Eligible, AwaitBound;
    InsertStep(s.cfg, s.db, s.procs[t], act);
  }

  lemma HandlerMovesSo(s: Sys, t: nat, act: Act)
    requires t in s.procs && ProcOk(s, t) && s.procs[t].pc.PHandler?
    ensures t in ApplyProc(s, t, act).procs && ProcMoves(s, ApplyProc(s, t, act), t)
  {
    hide ProcStep, Eligible, AwaitBound;
    HandlerStep(s.cfg, s.db, s.procs[t], act);
  }

  lemma ReadMovesSo(s: Sys, t: nat, act: Act)
    requires t in s.procs && ProcOk(s, t) && ReadsOnly(s.procs[t].pc)
    ensures t in ApplyProc(s, t, act).procs && ProcMoves(s, ApplyProc(s, t, act), t)
  {
    hide ProcStep, Eligible, AwaitBound;
    ReadStep(s.cfg, s.db, s.procs[t], act);
  }

  lemma ProcMovesSo(s: Sys, t: nat, act: Act)
    requires t in s.procs && ProcOk(s, t)
    ensures t in ApplyProc(s, t, act).procs && ProcMoves(s, ApplyProc(s, t, act), t)
  {
    hide ApplyProc, ProcOk, ProcMoves;
    if StageWrite(s.procs[t].pc) {
      StageMovesSo(s, t, act);
    } else if s.procs[t].pc.PRequest? {
      RequestMovesSo(s, t, act);
    } else if s.procs[t].pc.PInsert? {
      InsertMovesSo(s, t, act);
    } else if s.procs[t].pc.PHandler? {
      HandlerMovesSo(s, t, act);
    } else {
      ReadMovesSo(s, t, act);
    }
  }

  lemma ProcBound(s: Sys, t: nat, act: Act)
    requires Inv(s) && Bound(s) && t in s.procs
    ensures Bound(ApplyProc(s, t, act))
  {
    hide ApplyProc;
    var s', i := ApplyProc(s, t, act), s.procs[t].context.incident;
    assert ProcOk(s, t) && AwaitBound(s, t);
    ProcMovesSo(s, t, act);
    forall u | u in s'.procs ensures AwaitBound(s', u) { assert AwaitBound(s, u); }
    forall a | a in s'.db.approvals ensures ApprovalBound(s', a) {
      if a in s.db.approvals { assert ApprovalBound(s, a) && ApprovalOk(s, a); }
    }
    forall j | j in s'.db.pipelines ensures RowBound(s', j) { assert j in s.db.pipelines ==> RowBound(s, j); }
  }

  lemma StepKeepsBound(s: Sys, e: Event)
    requires Inv(s) && Bound(s)
    ensures Bound(Apply(s, e))
  {
    hide Inv, Bound, ApplyProc, ApplyClick, ApplyResume;
    match e
    case ProcMove(t, act) => if t in s.procs { ProcBound(s, t, act); }
    case ClickMove(k, act) => if k in s.clicks { ClickBound(s, k, act); }
    case ResumeMove(r, act) => if r in s.resumes { ResumeBound(s, r, act); }
    case Webhook(t, c) => if t !in s.procs { WebhookBound(s, t, c); }
    case _ => QuietBound(s, Apply(s, e));
  }

  lemma WebhookBound(s: Sys, t: nat, c: Context)
    requires Bound(s) && t !in s.procs
    ensures Bound(s.(procs := s.procs[t := Proc(c, PLookup)]))
  {
    var s' := s.(procs := s.procs[t := Proc(c, PLookup)]);
    forall u | u in s'.procs ensures AwaitBound(s', u) { assert u != t ==> AwaitBound(s, u); }
    forall a | a in s'.db.approvals ensures ApprovalBound(s', a) { assert ApprovalBound(s, a); }
    forall i | i in s'.db.pipelines ensures RowBound(s', i) { assert RowBound(s, i); }
  }

  lemma {:induction false} RunKeepsBound(s: Sys, es: seq<Event>)
    requires Inv(s) && Bound(s)
    ensures Bound(Run(s, es))
    decreases |es|
  {
    hide Inv, Bound, Apply;
    if es != [] {
      StepKeepsInv(s, es[0]);
      StepKeepsBound(s, es[0]);
      RunKeepsBound(Apply(s, es[0]), es[1..]);
    }
  }

  lemma ReachableBound(s: Sys)
    requires Reachable(s)
    ensures Bound(s)
  {
    var s0, es :| Init(s0) && Run(s0, es) == s;
    InitInv(s0);
    RunKeepsBound(s0, es);
  }

  // ---------- going on exactly when AWAITING_APPROVAL was stored ----------

  // Proposal and validation of a bundle belong together; the services see to it.
  predicate Coherent(b: Bundle) {
    b.context.commit == b.proposal.commit && b.validation.proposalId == b.proposal.id
  }

  lemma GateOpens(s: Sys, r: nat, i: string)
    requires Inv(s) && Bound(s) && r in s.resumes && Early(s.resumes[r].pc) && i in s.db.pipelines
    requires s.resumes[r].aid in s.db.approvals && s.db.approvals[s.resumes[r].aid].incident == i
    requires i in s.hist.persisted ==> Coherent(s.hist.persisted[i])
    ensures var a := s.db.approvals[s.resumes[r].aid];
            Judge(a, i, s.db.pipelines[i]) == if i in s.hist.persisted then RMutating(i, a, s.hist.persisted[i]) else RStop
  {
    var a := s.resumes[r].aid;
    assert ResumeOk(s, r) && ResumerOk(s, a) && RowOk(s, i) && ApprovalBound(s, a);
    if i in s.hist.persisted {
      JudgeOpens(s.db.approvals[a], i, s.db.pipelines[i], s.hist.persisted[i]);
    } else {
      assert ApprovalOk(s, a);
    }
  }

  // A resume that looks its pipeline up by incident goes on to MUTATING exactly when AWAITING_APPROVAL
  // was stored before; otherwise it raises.
  lemma ByIncidentGoesOnIff(s: Sys, r: nat)
    requires Reachable(s) && r in s.resumes && s.resumes[r].pc.RByIncident?
    requires s.resumes[r].pc.a.incident in s.hist.persisted ==> Coherent(s.hist.persisted[s.resumes[r].pc.a.incident])
    ensures var pc := ResumeStep(s.db, s.resumes[r], Ok).1;
            (pc.RMutating? <==> s.resumes[r].pc.a.incident in s.hist.persisted) && (pc.RMutating? || pc.RStop?)
  {
    hide Inv, Bound, Judge;
    ReachableInv(s);
    ReachableBound(s);
    RightApproval(s, r);
    if s.resumes[r].pc.a.incident in s.db.pipelines { GateOpens(s, r, s.resumes[r].pc.a.incident); }
  }

  lemma RightApproval(s: Sys, r: nat)
    requires Inv(s) && r in s.resumes && (s.resumes[r].pc.RByIncident? || s.resumes[r].pc.RByApproval?)
    ensures s.resumes[r].aid in s.db.approvals && s.resumes[r].pc.a == s.db.approvals[s.resumes[r].aid]
    ensures Keys(s)
  {
    assert ResumeOk(s, r);
  }

  // Looked up by approval id, the row is there exactly when AWAITING_APPROVAL was stored, and a row
  // that is found is the incident's own and always opens the gate.
  lemma ByApprovalGoesOnIff(s: Sys, r: nat, answer: Option<string>)
    requires Reachable(s) && r in s.resumes && s.resumes[r].pc.RByApproval?
    requires s.resumes[r].pc.a.incident in s.hist.persisted ==> Coherent(s.hist.persisted[s.resumes[r].pc.a.incident])
    requires FoundByApproval(s.db, s.resumes[r].aid, answer)
    ensures var i, pc := s.resumes[r].pc.a.incident, ResumeStep(s.db, s.resumes[r], Row(answer)).1;
            && answer == (if i in s.hist.persisted then Some(i) else None)
            && pc == (if i in s.hist.persisted then RMutating(i, s.resumes[r].pc.a, s.hist.persisted[i])
                      else RByIncident(s.resumes[r].pc.a))
  {
    hide Inv, Bound, Judge;
    ReachableInv(s);
    ReachableBound(s);
    RightApproval(s, r);
    OnlyItsRow(s, s.resumes[r].aid, answer);
    if answer.Some? { GateOpens(s, r, answer.value); }
  }

  // The row that carries an approval's id is that of its incident, once it is persisted.
  lemma OnlyItsRow(s: Sys, a: string, answer: Option<string>)
    requires Inv(s) && Bound(s) && a in s.db.approvals && FoundByApproval(s.db, a, answer)
    ensures answer == if s.db.approvals[a].incident in s.hist.persisted then Some(s.db.approvals[a].incident) else None
  {
    var i := s.db.approvals[a].incident;
    if answer.Some? { assert RowOk(s, answer.value) && RowBound(s, answer.value); }
    if i in s.hist.persisted {
      assert RowOk(s, i) && ApprovalOk(s, a);
    }
  }

  // ---------- an approval whose bundle is stored stays ready ----------

  // What no step takes back.
  ghost predicate Later(s: Sys, s': Sys) {
    && (forall i :: i in s.hist.persisted ==> i in s'.hist.persisted && s'.hist.persisted[i] == s.hist.persisted[i])
    && (forall a :: a in s.db.approvals ==>
          a in s'.db.approvals && SameRequest(s.db.approvals[a], s'.db.approvals[a]))
  }

  // What was asked for stays, and a row that left PENDING stays as it is.
  predicate SameRequest(x: Approval, y: Approval) {
    && y.incident == x.incident && y.proposalId == x.proposalId && y.commit == x.commit && y.expiresAt == x.expiresAt
    && (!x.status.Pending? ==> y == x)
  }

  lemma LaterSame(s: Sys)
    ensures Later(s, s)
  {
  }

  lemma LaterTrans(s: Sys, s1: Sys, s2: Sys)
    requires Later(s, s1) && Later(s1, s2)
    ensures Later(s, s2)
  {
  }

  lemma ResumeIsLater(s: Sys, r: nat, act: Act)
    requires r in s.resumes
    ensures Later(s, ApplyResume(s, r, act))
  {
    hide ResumeStep;
    ResumeKeepsIds(s.db, s.resumes[r], act);
  }

  lemma ProcIsLater(s: Sys, t: nat, act: Act)
    requires t in s.procs && ProcOk(s, t)
    ensures Later(s, ApplyProc(s, t, act))
  {
    hide ProcStep;
    forall a | a in s.db.approvals ensures Keeps(s.db, ApplyProc(s, t, act).db, a) { ProcKeepsApproval(s, t, act, a); }
  }

  lemma StepIsLater(s: Sys, e: Event)
    requires Inv(s)
    ensures Later(s, Apply(s, e))
  {
    hide ApplyProc, ApplyClick, ApplyResume, ProcOk, Expire;
    match e
    case ProcMove(t, act) =>
      if t in s.procs {
        assert ProcOk(s, t);
        ProcIsLater(s, t, act);
      }
    case ClickMove(k, act) => if k in s.clicks { ClickFrame(s, k, act); }
    case ResumeMove(r, act) => if r in s.resumes { ResumeIsLater(s, r, act); }
    case Sweep(aid) => SweepWrites(s.db, aid);
    case _ =>
  }

  // AWAITING_APPROVAL was stored for the approval's incident, with a coherent bundle.
  ghost predicate Ready(s: Sys, aid: string) {
    && aid in s.db.approvals && s.db.approvals[aid].incident in s.hist.persisted
    && Coherent(s.hist.persisted[s.db.approvals[aid].incident])
  }

  ghost function BundleFor(s: Sys, aid: string): Bundle
    requires Ready(s, aid)
  {
    s.hist.persisted[s.db.approvals[aid].incident]
  }

  lemma ReadyStays(s: Sys, s': Sys, aid: string)
    requires Later(s, s') && Ready(s, aid)
    ensures Ready(s', aid) && BundleFor(s', aid) == BundleFor(s, aid)
  {
  }

  // Then the lookup by approval id finds the row, and the gate lets exactly that bundle through.
  lemma ReadyGoes(s: Sys, r: nat, answer: Option<string>)
    requires Reachable(s) && r in s.resumes && s.resumes[r].pc.RByApproval? && Ready(s, s.resumes[r].aid)
    requires FoundByApproval(s.db, s.resumes[r].aid, answer)
    ensures answer.Some? && answer.value in s.db.pipelines
    ensures Gate(s.resumes[r].pc.a, s.db.pipelines[answer.value]) == Go(BundleFor(s, s.resumes[r].aid))
  {
    hide Reachable, Inv, Gate, Coherent;
    ReachableInv(s);
    RightApproval(s, r);
    ByApprovalGoesOnIff(s, r, answer);
  }

  // ---------- it does happen ----------

  lemma ReachableStep(s: Sys, e: Event)
    requires Reachable(s)
    ensures Reachable(Apply(s, e))
  {
    hide Apply;
    ReachableRun(s, [e]);
    assert Run(s, [e]) == Run(Apply(s, e), []);
  }

  // One process_failure task alone in the system, with its row stored.
  function Solo(cfg: Config, c: Context, pc: ProcPc, approvals: map<string, Approval>, row: Pipeline): Sys {
    Sys(cfg, Db(approvals, map[c.incident := row]), map[0 := Proc(c, pc)], map[], map[],
        History(map[c.incident := 0], map[], map[], map[], [], []))
  }

  lemma SoloMove(cfg: Config, c: Context, pc: ProcPc, row: Pipeline, act: Act)
    requires pc.PDiagnose? || pc.PFix? || pc.PValidate?
    requires act.Diagnosed? || act.Fixed? || act.Validated?
    requires Reachable(Solo(cfg, c, pc, map[], row))
    ensures var pc' := ProcStep(cfg, Db(map[], map[c.incident := row]), Proc(c, pc), act).1;
            Reachable(Solo(cfg, c, pc', map[], row))
  {
    var s := Solo(cfg, c, pc, map[], row);
    ReachableStep(s, ProcMove(0, act));
    var pc' := ProcStep(cfg, s.db, Proc(c, pc), act).1;
    assert Apply(s, ProcMove(0, act)).procs == map[0 := Proc(c, pc')];
  }

  lemma SoloWrite(cfg: Config, c: Context, pc: ProcPc, row: Pipeline)
    requires StageWrite(pc) && !pc.PAwait? && Reachable(Solo(cfg, c, pc, map[], row))
    ensures Reachable(Solo(cfg, c, AfterWrite(pc), map[], Patch(row, StageUpdate(c, pc))))
  {
    hide Patch;
    var s := Solo(cfg, c, pc, map[], row);
    ReachableStep(s, ProcMove(0, Ok));
    var s' := Apply(s, ProcMove(0, Ok));
    assert s'.procs == map[0 := Proc(c, AfterWrite(pc))];
    assert s'.db.pipelines == map[c.incident := Patch(row, StageUpdate(c, pc))];
  }

  lemma SoloStart(cfg: Config, c: Context)
    ensures Reachable(Solo(cfg, c, PDiagnosing, map[], NewPipeline(c)))
  {
    var s0 := Sys(cfg, Db(map[], map[]), map[], map[], map[], History(map[], map[], map[], map[], [], []));
    assert Init(s0) && Run(s0, []) == s0;
    var s1 := Apply(s0, Webhook(0, c));
    var s2 := Apply(s1, ProcMove(0, Ok));
    ReachableStep(s0, Webhook(0, c));
    ReachableStep(s1, ProcMove(0, Ok));
    ReachableStep(s2, ProcMove(0, Ok));
    assert s2.procs == map[0 := Proc(c, PInsert)];
    var s3 := Apply(s2, ProcMove(0, Ok));
    assert s3.procs == map[0 := Proc(c, PDiagnosing)];
    assert s3.hist.owner == map[c.incident := 0];
  }

  // Up to the approval request, for any eligible proposal.
  lemma RequestHappens(cfg: Config, c: Context, p: Proposal, v: Validation) returns (row: Pipeline)
    requires Eligible(p, v, cfg.minConfidence)
    ensures var aid := ApprovalId(c.incident, p.commit);
            Reachable(Solo(cfg, c, PAwait(p, v, aid), map[aid := NewApproval(cfg, c, p, 0)], row))
  {
    hide Reachable, Patch;
    SoloStart(cfg, c);
    row := NewPipeline(c);
    SoloWrite(cfg, c, PDiagnosing, row);
    row := Patch(row, StageUpdate(c, PDiagnosing));
    SoloMove(cfg, c, PDiagnose, row, Diagnosed(true, true));
    SoloWrite(cfg, c, PProposing, row);
    row := Patch(row, StageUpdate(c, PProposing));
    SoloMove(cfg, c, PFix, row, Fixed(p));
    SoloWrite(cfg, c, PValidating(p), row);
    row := Patch(row, StageUpdate(c, PValidating(p)));
    SoloMove(cfg, c, PValidate(p), row, Validated(v));
    Requested(cfg, c, p, v, row);
  }

  lemma Requested(cfg: Config, c: Context, p: Proposal, v: Validation, row: Pipeline)
    requires Eligible(p, v, cfg.minConfidence) && Reachable(Solo(cfg, c, PRequest(p, v), map[], row))
    ensures var aid := ApprovalId(c.incident, p.commit);
            Reachable(Solo(cfg, c, PAwait(p, v, aid), map[aid := NewApproval(cfg, c, p, 0)], row))
  {
    hide ApprovalId;
    var s := Solo(cfg, c, PRequest(p, v), map[], row);
    var aid := ApprovalId(c.incident, p.commit);
    ReachableStep(s, ProcMove(0, Clock(0)));
    var s' := Apply(s, ProcMove(0, Clock(0)));
    assert s'.procs == map[0 := Proc(c, PAwait(p, v, aid))];
    assert s'.db.approvals == map[aid := NewApproval(cfg, c, p, 0)];
  }

  // A click in time on a pending approval, up to the stored decision.
  lemma ClickHappens(s: Sys, aid: string, approve: bool, reviewer: string) returns (s': Sys)
    requires Reachable(s) && s.clicks == map[] && Undecided(s.db, aid) && !PastExpiry(s.db.approvals[aid], 0)
    ensures Reachable(s') && 0 in s'.clicks && s'.clicks[0].pc.CWon? && s'.clicks[0].aid == aid
    ensures s'.clicks[0].target == TargetOf(approve)
    ensures s'.db == Decide(s.db, aid, TargetOf(approve), reviewer, None, 0).value
    ensures s'.procs == s.procs && s'.resumes == s.resumes && s'.hist.persisted == s.hist.persisted
  {
    hide Reachable;
    var s1 := Apply(s, ClickArrives(0, aid, approve, reviewer));
    var s2 := Apply(s1, ClickMove(0, Clock(0)));
    s' := Apply(s2, ClickMove(0, Clock(0)));
    ReachableStep(s, ClickArrives(0, aid, approve, reviewer));
    ReachableStep(s1, ClickMove(0, Clock(0)));
    ReachableStep(s2, ClickMove(0, Clock(0)));
  }

  // For every incident, proposal and validation that pass the gate: the reviewer can approve before
  // AWAITING_APPROVAL is stored, the resume then finds no row by approval id, and by ByIncidentGoesOnIff
  // and EarlyResumeIsLost its lookup by incident raises and the approval is lost.
  lemma EarlyApprovalHappens(cfg: Config, c: Context, p: Proposal, v: Validation) returns (s: Sys)
    requires Eligible(p, v, cfg.minConfidence)
    ensures Reachable(s) && 0 in s.resumes && s.resumes[0].pc.RByIncident?
    ensures s.resumes[0].pc.a.incident == c.incident && c.incident !in s.hist.persisted
    ensures s.resumes[0].pc.a.status.Approved? && s.resumes[0].pc.a.proposalId == p.id
  {
    hide Reachable, Judge, Eligible, ApprovalId, NewPipeline;
    var row := RequestHappens(cfg, c, p, v);
    var aid := ApprovalId(c.incident, p.commit);
    UnboundRow(cfg, c, p, v, row);
    var s1 := ClickHappens(Solo(cfg, c, PAwait(p, v, aid), map[aid := NewApproval(cfg, c, p, 0)], row), aid, true, "");
    s := ScheduledResume(s1, aid, c.incident);
  }

  // The row carries no approval id yet.
  lemma UnboundRow(cfg: Config, c: Context, p: Proposal, v: Validation, row: Pipeline)
    requires Reachable(Solo(cfg, c, PAwait(p, v, ApprovalId(c.incident, p.commit)),
                            map[ApprovalId(c.incident, p.commit) := NewApproval(cfg, c, p, 0)], row))
    ensures row.approvalId.None?
  {
    var s := Solo(cfg, c, PAwait(p, v, ApprovalId(c.incident, p.commit)),
                  map[ApprovalId(c.incident, p.commit) := NewApproval(cfg, c, p, 0)], row);
    ReachableInv(s);
    assert ProcOk(s, 0);
  }

  // So there is a reachable state with an APPROVED approval under which no later run ever mutates.
  lemma ApprovalsCanBeLost(cfg: Config, c: Context, p: Proposal, v: Validation) returns (s: Sys, aid: string)
    requires Eligible(p, v, cfg.minConfidence)
    ensures Reachable(s) && aid in s.db.approvals && s.db.approvals[aid].status.Approved?
    ensures s.db.approvals[aid].incident == c.incident && s.db.approvals[aid].proposalId == p.id
    ensures forall es :: NotStarted(Run(s, es).hist.starts, aid)
  {
    hide Reachable, Eligible, Inv, NotStarted, Run, ResumeStep, Judge;
    var early := EarlyApprovalHappens(cfg, c, p, v);
    aid := early.resumes[0].aid;
    ReachableInv(early);
    RightApproval(early, 0);
    s := Apply(early, ResumeMove(0, Ok));
    ReachableStep(early, ResumeMove(0, Ok));
    forall es ensures NotStarted(Run(s, es).hist.starts, aid) { EarlyResumeIsLost(early, 0, es); }
    LookupKeepsApprovals(early);
  }

  lemma LookupKeepsApprovals(s: Sys)
    requires 0 in s.resumes && s.resumes[0].pc.RByIncident?
    ensures Apply(s, ResumeMove(0, Ok)).db == s.db
  {
    hide Judge;
  }

  lemma ScheduledResume(s: Sys, aid: string, i: string) returns (s': Sys)
    requires Reachable(s) && 0 in s.clicks && s.clicks[0].pc.CWon? && s.clicks[0].aid == aid
    requires s.clicks[0].target.Approved? && s.resumes == map[] && aid in s.db.approvals
    requires forall j :: j in s.db.pipelines ==> s.db.pipelines[j].approvalId.None?
    ensures Reachable(s') && 0 in s'.resumes && s'.resumes[0].pc == RByIncident(s.db.approvals[aid])
    ensures s'.hist.persisted == s.hist.persisted
  {
    hide Reachable, Judge;
    var s1 := Apply(s, ClickMove(0, Spawn(0)));
    var s2 := Apply(s1, ResumeMove(0, Ok));
    s' := Apply(s2, ResumeMove(0, Row(None)));
    ReachableStep(s, ClickMove(0, Spawn(0)));
    ReachableStep(s1, ResumeMove(0, Ok));
    ReachableStep(s2, ResumeMove(0, Row(None)));
  }

  // And a rejection after AWAITING_APPROVAL was stored: the pipeline waits for ever
  // (OnlyApprovalMovesThePipeline), although the approval is REJECTED.
  lemma RejectionHappens(cfg: Config, c: Context, p: Proposal, v: Validation) returns (s: Sys, aid: string)
    requires Eligible(p, v, cfg.minConfidence)
    ensures Reachable(s) && aid in s.db.approvals && s.db.approvals[aid].status.Rejected?
    ensures s.db.approvals[aid].incident == c.incident && c.incident in s.hist.persisted
    ensures c.incident in s.db.pipelines && s.db.pipelines[c.incident].status.AwaitingApproval?
  {
    hide Reachable, Eligible, ApprovalId;
    var row := RequestHappens(cfg, c, p, v);
    aid := ApprovalId(c.incident, p.commit);
    var s0 := Solo(cfg, c, PAwait(p, v, aid), map[aid := NewApproval(cfg, c, p, 0)], row);
    var s1 := Apply(s0, ProcMove(0, Ok));
    ReachableStep(s0, ProcMove(0, Ok));
    s := ClickHappens(s1, aid, false, "");
  }
}
