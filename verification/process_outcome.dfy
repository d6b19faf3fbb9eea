// What process_failure leaves for its incident, from the services' answers and the calls that commit.
module ProcessOutcome {
  import opened Common
  import opened Domain
  import opened Repositories
  import opened Protocol
  import opened ProtocolInvariant
  import opened ProtocolTheorems
  import opened ProtocolResume

  // What the scheduler decides before one repository call: the moves of other tasks, and whether
  // the call commits or raises.
  datatype Slot = Slot(others: seq<Event>, commits: bool)

  // The answers of the external services; None is an exception.
  datatype Services = Services(diagnosis: Option<bool>, evidence: Option<bool>, fix: Option<Proposal>,
                               validation: Option<Validation>, clock: int)

  // The row of an incident while process_failure works on it: known says that the diagnosis id is stored.
  function RowOf(c: Context, st: PipelineStatus, known: bool, p: Option<Proposal>, v: Option<Validation>,
                 aid: Option<string>, cause: Option<Cause>): Pipeline
  {
    Pipeline(c.commit, st, if known then Some("diag_" + c.incident) else None,
             if p.Some? then Some(p.value.id) else None, aid, None, None, cause, Some(c), p, v)
  }

  // The calls lo to hi commit.
  predicate Commit(sched: nat -> Slot, lo: nat, hi: nat) {
    forall n: nat {:trigger sched(n)} :: lo <= n <= hi ==> sched(n).commits
  }

  predicate Diagnosable(svc: Services) { svc.diagnosis == Some(true) && svc.evidence == Some(true) }

  predicate GoodFix(svc: Services) {
    Diagnosable(svc) && svc.fix.Some? && svc.fix.value.isValid && svc.fix.value.status.Proposed?
  }

  predicate GoodRun(svc: Services) {
    GoodFix(svc) && svc.validation.Some? && svc.validation.value.status.Passed? && svc.validation.value.exitCode == Some(0)
  }

  // The row where an exception meets it.
  function Interrupted(c: Context, svc: Services, sched: nat -> Slot): Pipeline {
    if !sched(2).commits then RowOf(c, Received, false, None, None, None, None)
    else if !Diagnosable(svc) || !sched(3).commits then RowOf(c, Diagnosing, false, None, None, None, None)
    else if !GoodFix(svc) || !sched(4).commits then RowOf(c, Proposing, true, None, None, None, None)
    else RowOf(c, Validating, true, svc.fix, None, None, None)
  }

  // How the try block ends by itself; None: with an exception.  asked: the approval that was stored.
  function Ending(c: Context, svc: Services, sched: nat -> Slot, asked: Option<string>): Option<Pipeline> {
    if svc.diagnosis == Some(false) && Commit(sched, 2, 3) then
      Some(RowOf(c, PipelineFailed, true, None, None, None, Some(NotFixable)))
    else if svc.diagnosis == Some(true) && svc.evidence == Some(false) && Commit(sched, 2, 3) then
      Some(RowOf(c, PipelineFailed, true, None, None, None, Some(NoContext)))
    else if Diagnosable(svc) && svc.fix.Some? && !GoodFix(svc) && Commit(sched, 2, 4) then
      Some(RowOf(c, PipelineRejected, true, svc.fix, None, None, Some(BadProposal)))
    else if GoodFix(svc) && svc.validation.Some? && !GoodRun(svc) && Commit(sched, 2, 5) then
      Some(RowOf(c, PipelineFailed, true, svc.fix, svc.validation, None, Some(BadValidation)))
    else if GoodRun(svc) && asked.Some? && Commit(sched, 2, 6) then
      Some(RowOf(c, AwaitingApproval, true, svc.fix, svc.validation, asked, None))
    else None
  }

  // The row in the end: that of the ending, or the interrupted one as FAILED if the handler's write commits.
  function Left(c: Context, svc: Services, sched: nat -> Slot, asked: Option<string>): Pipeline {
    var ending := Ending(c, svc, sched, asked);
    if ending.Some? then ending.value
    else if sched(8).commits then Interrupted(c, svc, sched).(status := PipelineFailed, cause := Some(Exception))
    else Interrupted(c, svc, sched)
  }

  // ---------- nobody else writes the row ----------

  ghost predicate SameRow(s: Sys, s': Sys, i: string) {
    i in s.db.pipelines ==> i in s'.db.pipelines && s'.db.pipelines[i] == s.db.pipelines[i]
  }

  lemma OtherProcKeepsRow(s: Sys, u: nat, act: Act, i: string)
    requires u in s.procs && ProcOk(s, u) && i in s.db.pipelines
    requires s.procs[u].context.incident == i ==> !Owning(s.procs[u].pc)
    ensures SameRow(s, ApplyProc(s, u, act), i)
  {
    hide ProcStep, ProcOk;
    if s.procs[u].context.incident != i {
      ProcForward(s, u, act, i);
      ProcMovesSo(s, u, act);
    } else if s.procs[u].pc.PInsert? {
      InsertStep(s.cfg, s.db, s.procs[u], act);
    } else {
      ReadStep(s.cfg, s.db, s.procs[u], act);
    }
  }

  lemma ResumeKeepsRow(s: Sys, r: nat, act: Act, i: string)
    requires r in s.resumes && ResumeOk(s, r) && i in s.db.pipelines && i !in s.hist.persisted
    ensures SameRow(s, ApplyResume(s, r, act), i)
  {
    hide Judge, FoundByApproval, Authorised, NotStarted, Patch;
  }

  // Between two writes of a process_failure task no other task touches its row.
  lemma OwnedRowStays(s: Sys, e: Event, t: nat)
    requires Inv(s) && t in s.procs && Owning(s.procs[t].pc) && !(e.ProcMove? && e.t == t)
    ensures SameRow(s, Apply(s, e), s.procs[t].context.incident)
  {
    hide ApplyProc, ApplyClick, ApplyResume, Expire;
    var i := s.procs[t].context.incident;
    assert ProcOk(s, t);
    match e
    case ProcMove(u, act) =>
      if u in s.procs {
        assert ProcOk(s, u);
        OtherProcKeepsRow(s, u, act, i);
      }
    case ResumeMove(r, act) =>
      if r in s.resumes {
        assert ResumeOk(s, r);
        ResumeKeepsRow(s, r, act, i);
      }
    case ClickMove(k, act) => if k in s.clicks { ClickFrame(s, k, act); }
    case Sweep(aid) => SweepWrites(s.db, aid);
    case _ =>
  }
}
