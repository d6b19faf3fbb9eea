// The approval-gated remediation protocol as a transition system.  A state holds the committed
// tables and the position of every background task; one event is one atomic step of one task: a
// committed repository call, a repository call that raised without committing, or the answer of an
// external service together with the computation up to the next repository call.  A task can also
// crash at any point.  A run is any finite sequence of events, so every interleaving of duplicate
// webhooks, reviewer clicks, expirations and resumes is a run.
module Protocol {
  import opened Common
  import opened Domain
  import opened Repositories

  // What process_failure hands over to the approval gate.
  datatype Bundle = Bundle(context: Context, proposal: Proposal, validation: Validation)

  // ---------- process_failure ----------

  datatype ProcPc =
    | PLookup                                          // get_by_incident_id
    | PInsert                                          // create_pipeline
    | PDiagnosing                                      // store DIAGNOSING
    | PDiagnose                                        // diagnosis and context retrieval
    | PHalt(why: Cause)                                // store FAILED: not fixable, or no evidence
    | PProposing                                       // store PROPOSING
    | PFix                                             // fix synthesis
    | PReject(p: Proposal)                             // store REJECTED
    | PValidating(p: Proposal)                         // store VALIDATING
    | PValidate(p: Proposal)                           // sandbox validation
    | PFailValidation(p: Proposal, v: Validation)      // store FAILED with the validation result
    | PRequest(p: Proposal, v: Validation)             // eligibility, then create_approval
    | PAwait(p: Proposal, v: Validation, aid: string)  // store AWAITING_APPROVAL
    | PHandler                                         // the except clause: store FAILED
    | PStop

  // Answers a step may get: commit, an exception, a service's result, a clock reading, the row a
  // query found, the id of the task to spawn, or the end of the process.
  datatype Act =
    | Ok
    | Raise
    | Diagnosed(fixable: bool, evidence: bool)
    | Fixed(p: Proposal)
    | Validated(v: Validation)
    | Clock(now: int)
    | Row(answer: Option<string>)
    | Spawn(task: nat)
    | Opened(mutationId: string, prNumber: int)
    | Crash

  datatype Proc = Proc(context: Context, pc: ProcPc)

  datatype Config = Config(minConfidence: real, ttl: nat)

  function NewPipeline(c: Context): Pipeline {
    Pipeline(c.commit, Received, None, None, None, None, None, None, Some(c), None, None)
  }

  function ShortSha(commit: string): string {
    if |commit| <= 8 then commit else commit[..8]
  }

  function ApprovalId(incident: string, commit: string): string {
    "appr_" + incident + "_" + ShortSha(commit)
  }

  function NewApproval(cfg: Config, c: Context, p: Proposal, now: int): Approval {
    Approval(c.incident, p.id, p.commit, Pending, Some(now + cfg.ttl), None, None, None)
  }

  function DiagnosisId(c: Context): Option<string> { Some("diag_" + c.incident) }

  // A stage write inside the try block: an exception leads to the handler.
  function Write(db: Db, pr: Proc, u: Update, next: ProcPc, act: Act): (Db, ProcPc) {
    if act.Ok? then (UpdatePipeline(db, pr.context.incident, u), next)
    else if act.Raise? then (db, PHandler)
    else (db, pr.pc)
  }

  function AwaitUpdate(c: Context, p: Proposal, v: Validation, aid: string): Update {
    NO_CHANGE.(status := AwaitingApproval, diagnosisId := DiagnosisId(c), proposalId := Some(p.id),
        approvalId := Some(aid), context := Some(c), proposal := Some(p), validation := Some(v))
  }

  // The stages whose next step is a single write of the pipeline row.
  predicate StageWrite(pc: ProcPc) {
    pc.PDiagnosing? || pc.PHalt? || pc.PProposing? || pc.PReject? || pc.PValidating? || pc.PFailValidation?
    || pc.PAwait?
  }

  function StageUpdate(c: Context, pc: ProcPc): Update
    requires StageWrite(pc)
  {
    match pc
    case PDiagnosing => NO_CHANGE.(status := Diagnosing)
    case PHalt(why) => NO_CHANGE.(status := PipelineFailed, diagnosisId := DiagnosisId(c), cause := Some(why))
    case PProposing => NO_CHANGE.(status := Proposing, diagnosisId := DiagnosisId(c))
    case PReject(p) => NO_CHANGE.(status := PipelineRejected, diagnosisId := DiagnosisId(c), proposalId := Some(p.id),
                           cause := Some(BadProposal), proposal := Some(p))
    case PValidating(p) => NO_CHANGE.(status := Validating, proposalId := Some(p.id), proposal := Some(p))
    case PFailValidation(p, v) => NO_CHANGE.(status := PipelineFailed, proposalId := Some(p.id),
                                      cause := Some(BadValidation), proposal := Some(p), validation := Some(v))
    case PAwait(p, v, aid) => AwaitUpdate(c, p, v, aid)
  }

  function AfterWrite(pc: ProcPc): ProcPc {
    match pc
    case PDiagnosing => PDiagnose
    case PProposing => PFix
    case PValidating(p) => PValidate(p)
    case _ => PStop
  }

  function ProcStep(cfg: Config, db: Db, pr: Proc, act: Act): (Db, ProcPc) {
    var c := pr.context;
    if act.Crash? then (db, PStop) else
    match pr.pc
    case PLookup =>
      if act.Ok? then (db, if c.incident in db.pipelines then PStop else PInsert)
      else if act.Raise? then (db, PStop) else (db, pr.pc)
    case PInsert =>
      if act.Ok? && c.incident !in db.pipelines then
        (InsertPipeline(db, c.incident, NewPipeline(c)).value, PDiagnosing)
      else if act.Ok? || act.Raise? then (db, PStop) else (db, pr.pc)
    case PDiagnose =>
      if act.Diagnosed? then
        (db, if !act.fixable then PHalt(NotFixable) else if !act.evidence then PHalt(NoContext) else PProposing)
      else if act.Raise? then (db, PHandler) else (db, pr.pc)
    case PFix =>
      if act.Fixed? then (db, if Usable(act.p) then PValidating(act.p) else PReject(act.p))
      else if act.Raise? then (db, PHandler) else (db, pr.pc)
    case PValidate(p) =>
      if act.Validated? then (db, if Clean(act.v) then PRequest(p, act.v) else PFailValidation(p, act.v))
      else if act.Raise? then (db, PHandler) else (db, pr.pc)
    case PRequest(p, v) =>
      if act.Clock? then
        var aid := ApprovalId(c.incident, p.commit);
        var inserted := InsertApproval(db, aid, NewApproval(cfg, c, p, act.now));
        if Eligible(p, v, cfg.minConfidence) && inserted.Some? then (inserted.value, PAwait(p, v, aid))
        else (db, PHandler)
      else if act.Raise? then (db, PHandler) else (db, pr.pc)
    case PHandler =>
      if act.Ok? then
        (UpdatePipeline(db, c.incident, NO_CHANGE.(status := PipelineFailed, cause := Some(Exception))), PStop)
      else if act.Raise? then (db, PStop) else (db, pr.pc)
    case PStop => (db, PStop)
    case _ => Write(db, pr, StageUpdate(c, pr.pc), AfterWrite(pr.pc), act)
  }

  // What one step does, stage by stage.
  lemma StageStep(cfg: Config, db: Db, pr: Proc, act: Act)
    requires StageWrite(pr.pc)
    ensures ProcStep(cfg, db, pr, act) ==
            if act.Crash? then (db, PStop)
            else if act.Ok? then (UpdatePipeline(db, pr.context.incident, StageUpdate(pr.context, pr.pc)), AfterWrite(pr.pc))
            else if act.Raise? then (db, PHandler) else (db, pr.pc)
  {
    hide StageUpdate, UpdatePipeline, AfterWrite;
  }

  lemma InsertStep(cfg: Config, db: Db, pr: Proc, act: Act)
    requires pr.pc.PInsert?
    ensures var i := pr.context.incident;
            ProcStep(cfg, db, pr, act) ==
            if act.Ok? && i !in db.pipelines then (InsertPipeline(db, i, NewPipeline(pr.context)).value, PDiagnosing)
            else (db, if act.Ok? || act.Raise? || act.Crash? then PStop else PInsert)
  {
    hide InsertApproval, StageUpdate, NewPipeline;
  }

  lemma RequestStep(cfg: Config, db: Db, pr: Proc, act: Act)
    requires pr.pc.PRequest?
    ensures var c, p, v := pr.context, pr.pc.p, pr.pc.v;
            var aid := ApprovalId(c.incident, p.commit);
            ProcStep(cfg, db, pr, act) ==
            if act.Crash? then (db, PStop)
            else if act.Clock? then
              var inserted := InsertApproval(db, aid, NewApproval(cfg, c, p, act.now));
              if Eligible(p, v, cfg.minConfidence) && inserted.Some? then (inserted.value, PAwait(p, v, aid))
              else (db, PHandler)
            else (db, if act.Raise? then PHandler else pr.pc)
  {
    hide InsertApproval, InsertPipeline, StageUpdate, Eligible, ApprovalId, NewApproval;
  }

  lemma HandlerStep(cfg: Config, db: Db, pr: Proc, act: Act)
    requires pr.pc.PHandler?
    ensures ProcStep(cfg, db, pr, act) ==
            if act.Ok? then
              (UpdatePipeline(db, pr.context.incident, NO_CHANGE.(status := PipelineFailed, cause := Some(Exception))), PStop)
            else (db, if act.Raise? || act.Crash? then PStop else PHandler)
  {
    hide UpdatePipeline, StageUpdate, InsertApproval, InsertPipeline, Eligible;
  }

  // Steps that write nothing.
  predicate ReadsOnly(pc: ProcPc) { pc.PLookup? || pc.PDiagnose? || pc.PFix? || pc.PValidate? || pc.PStop? }

  lemma ReadStep(cfg: Config, db: Db, pr: Proc, act: Act)
    requires ReadsOnly(pr.pc)
    ensures ProcStep(cfg, db, pr, act).0 == db && !ProcStep(cfg, db, pr, act).1.PAwait?
  {
    hide StageUpdate, InsertApproval, InsertPipeline, Eligible, UpdatePipeline;
  }

  // ---------- a click on the approval card ----------

  datatype Answer = NotFound | HasExpired | Recorded | Duplicate | Illegal | Died

  datatype ClickPc =
    | CRead                  // get_approval and the expiry test
    | CExpire                // expire_approval
    | CDecide                // the compare-and-set
    | CReread                // get_approval after the compare-and-set found nothing pending
    | CWon                   // the decision is stored; the card update and the scheduling are left
    | CStop(answer: Answer)

  // clock is the service's own reading of the time, taken when it tests the expiry.
  datatype Click = Click(aid: string, target: ApprovalStatus, reviewer: string, clock: Option<int>, pc: ClickPc)

  function TargetOf(approve: bool): ApprovalStatus { if approve then Approved else Rejected }

  predicate PastExpiry(a: Approval, now: int) {
    a.expiresAt.Some? && now > a.expiresAt.value
  }

  function ClickStep(db: Db, k: Click, act: Act): (Db, Click) {
    if act.Crash? || (act.Raise? && !k.pc.CWon? && !k.pc.CStop?) then (db, k.(pc := CStop(Died))) else
    match k.pc
    case CRead =>
      if !act.Clock? then (db, k)
      else if k.aid !in db.approvals then (db, k.(pc := CStop(NotFound)))
      else
        var a := db.approvals[k.aid];
        (db, k.(clock := Some(act.now),
                pc := if PastExpiry(a, act.now) && a.status.Pending? then CExpire else CDecide))
    case CExpire =>
      if act.Ok? then (Expire(db, k.aid), k.(pc := CStop(HasExpired))) else (db, k)
    case CDecide =>
      if !act.Clock? then (db, k)
      else if Undecided(db, k.aid) then
        (Decide(db, k.aid, k.target, k.reviewer, None, act.now).value, k.(pc := CWon))
      else (db, k.(pc := CReread))
    case CReread =>
      if !act.Ok? then (db, k)
      else if k.aid !in db.approvals then (db, k.(pc := CStop(NotFound)))
      else (db, k.(pc := CStop(if db.approvals[k.aid].status == k.target then Duplicate else Illegal)))
    case CWon => (db, k)     // the route goes on from here
    case CStop(_) => (db, k)
  }

  // All that a click or a sweep writes: one pending row is settled.
  ghost predicate Settles(db: Db, db': Db, aid: string) {
    && Undecided(db, aid) && aid in db'.approvals
    && db' == db.(approvals := db.approvals[aid := db'.approvals[aid]])
    && db'.approvals[aid].incident == db.approvals[aid].incident
    && db'.approvals[aid].proposalId == db.approvals[aid].proposalId
    && db'.approvals[aid].commit == db.approvals[aid].commit
    && db'.approvals[aid].expiresAt == db.approvals[aid].expiresAt
  }

  lemma SweepWrites(db: Db, aid: string)
    ensures Expire(db, aid) == db || Settles(db, Expire(db, aid), aid)
  {
  }

  lemma ClickWrites(db: Db, k: Click, act: Act)
    ensures var (db', k') := ClickStep(db, k, act);
            (db' == db || Settles(db, db', k.aid)) && k'.aid == k.aid
  {
    hide PastExpiry, Expire, Settles;
    SweepWrites(db, k.aid);
    if Undecided(db, k.aid) && act.Clock? { DecideSettles(db, k, act.now); }
  }

  lemma DecideSettles(db: Db, k: Click, now: int)
    requires Undecided(db, k.aid)
    ensures Settles(db, Decide(db, k.aid, k.target, k.reviewer, None, now).value, k.aid)
  {
  }

  // ---------- resume_approval ----------

  datatype ResumePc =
    | RRead                                             // get_approval
    | RByApproval(a: Approval)                          // get_by_approval_id
    | RByIncident(a: Approval)                          // get_by_incident_id
    | RReject(incident: string, a: Approval)            // store REJECTED
    | RMutating(incident: string, a: Approval, b: Bundle)  // store MUTATING
    | RCall(incident: string, a: Approval, b: Bundle)   // enter create_pull_request
    | RRunning(incident: string)                        // inside create_pull_request
    | RComplete(incident: string, mutationId: string, prNumber: int)  // store COMPLETED
    | RFail(incident: string)                           // store FAILED
    | RStop

  datatype Resume = Resume(aid: string, pc: ResumePc)

  datatype Verdict = AlreadyProcessed | ReviewerSaidNo | Refuse | Go(b: Bundle)

  // The checks between reading the pipeline row and the MUTATING write, in the code's order.
  function Gate(a: Approval, row: Pipeline): Verdict {
    if row.status.Completed? || row.status.Mutating? then AlreadyProcessed
    else if a.status.Rejected? then ReviewerSaidNo
    else if !a.status.Approved? then Refuse
    else if row.context.None? || row.proposal.None? || row.validation.None? then Refuse
    else
      var c, p, v := row.context.value, row.proposal.value, row.validation.value;
      if a.proposalId != p.id || a.commit != p.commit || c.commit != p.commit then Refuse
      else if !Usable(p) || !Clean(v) || v.proposalId != p.id then Refuse
      else Go(Bundle(c, p, v))
  }

  function Judge(a: Approval, incident: string, row: Pipeline): ResumePc {
    match Gate(a, row)
    case AlreadyProcessed => RStop
    case ReviewerSaidNo => RReject(incident, a)
    case Refuse => RStop
    case Go(b) => RMutating(incident, a, b)
  }

  function ResumeStep(db: Db, r: Resume, act: Act): (Db, ResumePc) {
    if act.Crash? then (db, RStop) else
    match r.pc
    case RRead =>
      if act.Ok? && r.aid in db.approvals then (db, RByApproval(db.approvals[r.aid]))
      else if act.Ok? || act.Raise? then (db, RStop) else (db, r.pc)
    case RByApproval(a) =>
      if act.Row? && FoundByApproval(db, r.aid, act.answer) then
        (db, if act.answer.Some? then Judge(a, act.answer.value, db.pipelines[act.answer.value])
             else RByIncident(a))
      else if act.Raise? then (db, RStop) else (db, r.pc)
    case RByIncident(a) =>
      if act.Ok? && a.incident in db.pipelines then (db, Judge(a, a.incident, db.pipelines[a.incident]))
      else if act.Ok? || act.Raise? then (db, RStop) else (db, r.pc)
    case RReject(i, a) =>
      if act.Ok? then
        (UpdatePipeline(db, i, NO_CHANGE.(status := PipelineRejected, cause := Some(ReviewerRejected))), RStop)
      else if act.Raise? then (db, RStop) else (db, r.pc)
    case RMutating(i, a, b) =>
      if act.Ok? then (UpdatePipeline(db, i, NO_CHANGE.(status := Mutating)), RCall(i, a, b))
      else if act.Raise? then (db, RStop) else (db, r.pc)
    case RCall(i, a, b) => if act.Ok? then (db, RRunning(i)) else (db, r.pc)
    case RRunning(i) =>
      if act.Opened? then (db, RComplete(i, act.mutationId, act.prNumber))
      else if act.Raise? then (db, RFail(i)) else (db, r.pc)
    case RComplete(i, m, n) =>
      if act.Ok? then
        (UpdatePipeline(db, i, NO_CHANGE.(status := Completed, mutationId := Some(m), prNumber := Some(n))), RStop)
      else if act.Raise? then (db, RFail(i)) else (db, r.pc)
    case RFail(i) =>
      if act.Ok? then
        (UpdatePipeline(db, i, NO_CHANGE.(status := PipelineFailed, cause := Some(MutationFailed))), RStop)
      else if act.Raise? then (db, RStop) else (db, r.pc)
    case RStop => (db, RStop)
  }

  // ---------- the whole system ----------

  // One entry into create_pull_request.
  datatype Start = Start(aid: string, approval: Approval, bundle: Bundle)

  // What happened so far.  Nothing in the system reads it.
  //   owner      the task whose create_pipeline stored the incident's row
  //   persisted  what the AWAITING_APPROVAL write stored for the incident
  //   decider    the click whose compare-and-set decided the approval
  //   resumer    the resume task spawned for the approval
  //   schedules  every resume ever scheduled, in order
  //   starts     every entry into create_pull_request, in order
  datatype History = History(owner: map<string, nat>, persisted: map<string, Bundle>,
                             decider: map<string, nat>, resumer: map<string, nat>,
                             schedules: seq<string>, starts: seq<Start>)

  datatype Sys = Sys(cfg: Config, db: Db, procs: map<nat, Proc>, clicks: map<nat, Click>,
                     resumes: map<nat, Resume>, hist: History)

  datatype Event =
    | Webhook(t: nat, context: Context)                        // a failure context reaches process_failure
    | ClickArrives(k: nat, aid: string, approve: bool, reviewer: string)
    | ProcMove(t: nat, act: Act)
    | ClickMove(k: nat, act: Act)
    | ResumeMove(r: nat, act: Act)
    | Sweep(aid: string)                                       // expire_approval on its own

  function ApplyProc(s: Sys, t: nat, act: Act): Sys
    requires t in s.procs
  {
    var pr := s.procs[t];
    var (db, pc) := ProcStep(s.cfg, s.db, pr, act);
    var i := pr.context.incident;
    var owner := if pr.pc.PInsert? && pc.PDiagnosing? then s.hist.owner[i := t] else s.hist.owner;
    var persisted :=
      if pr.pc.PAwait? && act.Ok? then s.hist.persisted[i := Bundle(pr.context, pr.pc.p, pr.pc.v)]
      else s.hist.persisted;
    s.(db := db, procs := s.procs[t := pr.(pc := pc)], hist := s.hist.(owner := owner, persisted := persisted))
  }

  // The route schedules a resume when the recorded decision is an approval and no duplicate.
  function ApplyClick(s: Sys, k: nat, act: Act): Sys
    requires k in s.clicks
  {
    var c := s.clicks[k];
    if c.pc.CWon? && act.Spawn? then
      if c.target.Approved? then
        if act.task in s.resumes then s
        else s.(clicks := s.clicks[k := c.(pc := CStop(Recorded))],
                resumes := s.resumes[act.task := Resume(c.aid, RRead)],
                hist := s.hist.(resumer := s.hist.resumer[c.aid := act.task],
                                schedules := s.hist.schedules + [c.aid]))
      else s.(clicks := s.clicks[k := c.(pc := CStop(Recorded))])
    else
      var (db, c') := ClickStep(s.db, c, act);
      var decider := if c.pc.CDecide? && c'.pc.CWon? then s.hist.decider[c.aid := k] else s.hist.decider;
      s.(db := db, clicks := s.clicks[k := c'], hist := s.hist.(decider := decider))
  }

  // A click leaves everything but the approvals, the clicks and the resumes alone.
  lemma ClickFrame(s: Sys, k: nat, act: Act)
    requires k in s.clicks
    ensures var s', a := ApplyClick(s, k, act), s.clicks[k].aid;
            && (s'.db == s.db || Settles(s.db, s'.db, a))
            && s'.procs == s.procs && s'.hist.persisted == s.hist.persisted && s'.hist.starts == s.hist.starts
            && ((s'.resumes == s.resumes && s'.hist.resumer == s.hist.resumer)
                || (s.clicks[k].pc.CWon? && act.Spawn? && act.task !in s.resumes
                    && s'.resumes == s.resumes[act.task := Resume(a, RRead)]
                    && s'.hist.resumer == s.hist.resumer[a := act.task]))
  {
    hide ClickStep, Settles;
    ClickWrites(s.db, s.clicks[k], act);
  }

  function ApplyResume(s: Sys, r: nat, act: Act): Sys
    requires r in s.resumes
  {
    var w := s.resumes[r];
    var (db, pc) := ResumeStep(s.db, w, act);
    var starts := if w.pc.RCall? && act.Ok? then s.hist.starts + [Start(w.aid, w.pc.a, w.pc.b)]
                  else s.hist.starts;
    s.(db := db, resumes := s.resumes[r := w.(pc := pc)], hist := s.hist.(starts := starts))
  }

  function Apply(s: Sys, e: Event): Sys {
    match e
    case Webhook(t, c) => if t in s.procs then s else s.(procs := s.procs[t := Proc(c, PLookup)])
    case ClickArrives(k, aid, approve, reviewer) =>
      if k in s.clicks then s
      else s.(clicks := s.clicks[k := Click(aid, TargetOf(approve), reviewer, None, CRead)])
    case ProcMove(t, act) => if t in s.procs then ApplyProc(s, t, act) else s
    case ClickMove(k, act) => if k in s.clicks then ApplyClick(s, k, act) else s
    case ResumeMove(r, act) => if r in s.resumes then ApplyResume(s, r, act) else s
    case Sweep(aid) => s.(db := Expire(s.db, aid))
  }

  function Run(s: Sys, es: seq<Event>): Sys
    decreases |es|
  {
    if es == [] then s else Run(Apply(s, es[0]), es[1..])
  }

  ghost predicate Init(s: Sys) {
    s.db == Db(map[], map[]) && s.procs == map[] && s.clicks == map[] && s.resumes == map[]
    && s.hist == History(map[], map[], map[], map[], [], [])
  }

  ghost predicate Reachable(s: Sys) {
    exists s0, es :: Init(s0) && Run(s0, es) == s
  }
}
