// The remediation orchestrator, the approval service and the Slack route as the code runs them:
// sequential methods over the shared tables, with every other task free to move between any two
// repository calls.  Each method is proved to stay a run of the transition system of module
// Protocol, so the theorems about every run hold of this code under every schedule.
module Orchestrator {
  import opened Common
  import opened Domain
  import opened Repositories
  import opened Protocol
  import opened ProtocolInvariant
  import opened ProtocolTheorems
  import opened ProtocolResume
  import opened ProcessOutcome

  // The task a method runs as.  A click also keeps the id of the resume it may spawn.
  datatype Me = AProc(t: nat) | AClick(k: nat, r: nat) | AResume(r: nat)

  predicate Foreign(e: Event, me: Me) {
    match me
    case AProc(t) => !(e.Webhook? && e.t == t) && !(e.ProcMove? && e.t == t)
    case AClick(k, r) => !(e.ClickArrives? && e.k == k)
                         && !(e.ClickMove? && (e.k == k || (e.act.Spawn? && e.act.task == r)))
    case AResume(r) => !(e.ResumeMove? && e.r == r)
  }

  ghost predicate Untouched(s: Sys, s': Sys, me: Me) {
    match me
    case AProc(t) => t in s.procs ==> t in s'.procs && s'.procs[t] == s.procs[t]
    case AClick(k, r) => && (k in s.clicks ==> k in s'.clicks && s'.clicks[k] == s.clicks[k])
                         && (r !in s.resumes ==> r !in s'.resumes)
    case AResume(r) => r in s.resumes ==> r in s'.resumes && s'.resumes[r] == s.resumes[r]
  }

  lemma ForeignLeavesMeAlone(s: Sys, e: Event, me: Me)
    requires Foreign(e, me)
    ensures Untouched(s, Apply(s, e), me)
    ensures Apply(s, e).cfg == s.cfg
  {
  }

  // A task's own moves, and what its script lets them say.
  predicate Mine(e: Event, me: Me) {
    match me
    case AProc(t) => e.ProcMove? && e.t == t
    case AClick(k, r) => e.ClickMove? && e.k == k
    case AResume(r) => e.ResumeMove? && e.r == r
  }

  // smooth: every repository call of the task commits.
  datatype Script =
    | ProcScript(svc: Services, smooth: bool)
    | ClickScript(readAt: int, decideAt: int, task: nat, smooth: bool)
    | ResumeScript(pr: Option<(string, int)>, smooth: bool)

  predicate Smooth(x: Script) {
    match x
    case ProcScript(svc, smooth) =>
      smooth && svc.diagnosis.Some? && svc.evidence.Some? && svc.fix.Some? && svc.validation.Some?
    case ClickScript(_, _, _, smooth) => smooth
    case ResumeScript(pr, smooth) => smooth && pr.Some?
  }

  // The answers are the services' own, exceptions have a cause, and the task never just dies.
  predicate Says(x: Script, act: Act) {
    match act
    case Ok => true
    case Raise => !Smooth(x)
    case Diagnosed(fixable, evidence) =>
      x.ProcScript? && x.svc.diagnosis == Some(fixable)
      && (if fixable then x.svc.evidence == Some(evidence) else !evidence)
    case Fixed(p) => x.ProcScript? && x.svc.fix == Some(p)
    case Validated(v) => x.ProcScript? && x.svc.validation == Some(v)
    case Clock(now) =>
      (x.ProcScript? && now == x.svc.clock) || (x.ClickScript? && (now == x.readAt || now == x.decideAt))
    case Row(_) => x.ResumeScript?
    case Spawn(task) => x.ClickScript? && task == x.task
    case Opened(m, n) => x.ResumeScript? && x.pr == Some((m, n))
    case Crash => false
  }

  // Every repository call of the schedule commits.
  ghost predicate AllCommit(sched: nat -> Slot) { forall n: nat {:trigger sched(n)} :: sched(n).commits }

  lemma Commits(sched: nat -> Slot, n: nat)
    ensures AllCommit(sched) ==> sched(n).commits
  {
  }

  // The row of a process_failure task in the middle of its work.
  ghost predicate RowKept(s: Sys, s': Sys, me: Me) {
    me.AProc? && me.t in s.procs && Owning(s.procs[me.t].pc) ==> SameRow(s, s', s.procs[me.t].context.incident)
  }

  lemma SameRowSame(s: Sys)
    ensures forall i :: SameRow(s, s, i)
  {
  }

  lemma RowKeptStep(s: Sys, s1: Sys, e: Event, me: Me)
    requires Inv(s1) && RowKept(s, s1, me) && Untouched(s, s1, me) && Foreign(e, me)
    ensures RowKept(s, Apply(s1, e), me)
  {
    hide Inv, Apply;
    if me.AProc? && me.t in s.procs && Owning(s.procs[me.t].pc) { OwnedRowStays(s1, e, me.t); }
  }

  // An approval does not go away, and once settled stays as it is.
  lemma StillThere(s: Sys, s': Sys, aid: string)
    requires Later(s, s') && aid in s.db.approvals
    ensures aid in s'.db.approvals
    ensures !s.db.approvals[aid].status.Pending? ==> s'.db.approvals[aid] == s.db.approvals[aid]
  {
  }

  lemma LateIs(a: Approval, now: int)
    ensures PastExpiry(a, now) <==> a.expiresAt.Some? && now > a.expiresAt.value
  {
  }

  lemma ProcMoveIsLater(s: Sys, s1: Sys, t: nat, act: Act)
    requires Later(s, s1) && Reachable(s1) && t in s1.procs
    ensures Later(s, ApplyProc(s1, t, act))
  {
    hide Reachable, Later, ApplyProc;
    ReachableInv(s1);
    assert ProcOk(s1, t);
    ProcIsLater(s1, t, act);
    LaterTrans(s, s1, ApplyProc(s1, t, act));
  }

  ghost predicate Follows(x: Script, svc: Services, sched: nat -> Slot) {
    x == ProcScript(svc, AllCommit(sched))
  }

  ghost predicate Scripted(before: seq<Event>, after: seq<Event>, me: Me, x: Script) {
    before <= after
    && forall i {:trigger after[i]} :: |before| <= i < |after| && Mine(after[i], me) ==> Says(x, after[i].act)
  }

  function Empty(cfg: Config): Sys {
    Sys(cfg, Db(map[], map[]), map[], map[], map[], History(map[], map[], map[], map[], [], []))
  }

  // Whether resume_approval raises, from what it found (None: no approval or no pipeline row, or a read
  // that failed), from what create_pull_request does and from which writes commit.
  predicate Raises(verdict: Option<Verdict>, pr: Option<(string, int)>, sched: nat -> Slot) {
    match verdict
    case None => true
    case Some(AlreadyProcessed) => false
    case Some(ReviewerSaidNo) => !sched(3).commits
    case Some(Refuse) => true
    case Some(Go(_)) => !sched(3).commits || ((pr.None? || !sched(5).commits) && !sched(6).commits)
  }

  // create_pull_request is entered exactly after the MUTATING write.  (No scheduled resume finds a
  // rejection, see RejectBranchIsDead.)
  ghost predicate Entered(starts: seq<Start>, aid: string, verdict: Option<Verdict>, sched: nat -> Slot) {
    if verdict.Some? && verdict.value.Go? && sched(3).commits then
      exists n :: 0 <= n < |starts| && starts[n].aid == aid && starts[n].bundle == verdict.value.b
    else verdict == Some(ReviewerSaidNo) || NotStarted(starts, aid)
  }

  // What the last write of an entered mutation leaves.
  predicate Outcome(db: Db, incident: string, pr: Option<(string, int)>, sched: nat -> Slot) {
    if pr.Some? && sched(5).commits then
      incident in db.pipelines && db.pipelines[incident].status.Completed?
      && db.pipelines[incident].mutationId == Some(pr.value.0) && db.pipelines[incident].prNumber == Some(pr.value.1)
    else
      sched(6).commits ==>
        incident in db.pipelines && db.pipelines[incident].status.PipelineFailed?
        && db.pipelines[incident].cause == Some(MutationFailed)
  }

  // An approval was stored for the usable fix and clean run that the gate asks for, due ttl after the
  // request; or, if nothing else stood in the way, its id or its proposal id was taken.
  ghost predicate AskedFor(s: Sys, c: Context, svc: Services, sched: nat -> Slot, asked: Option<string>) {
    if GoodRun(svc) && svc.fix.value.diff != "" && svc.fix.value.confidence >= s.cfg.minConfidence && Commit(sched, 2, 5) then
      var p := svc.fix.value;
      var aid := "appr_" + c.incident + "_" + if |p.commit| > 8 then p.commit[..8] else p.commit;
      if asked.Some? then
        && asked.value == aid && aid in s.db.approvals
        && var a := s.db.approvals[aid];
           a.incident == c.incident && a.proposalId == p.id && a.commit == p.commit && a.expiresAt == Some(svc.clock + s.cfg.ttl)
      else aid in s.db.approvals || exists b :: b in s.db.approvals && s.db.approvals[b].proposalId == p.id
    else asked.None?
  }

  lemma NotAsked(c: Context, svc: Services, sched: nat -> Slot)
    requires !GoodRun(svc) || !Commit(sched, 2, 5)
    ensures forall s :: AskedFor(s, c, svc, sched, None)
  {
  }

  lemma AskedForStays(s: Sys, s': Sys, c: Context, svc: Services, sched: nat -> Slot, asked: Option<string>)
    requires AskedFor(s, c, svc, sched, asked) && Later(s, s') && s'.cfg == s.cfg
    ensures AskedFor(s', c, svc, sched, asked)
  {
    hide GoodRun, Commit;
    if b :| b in s.db.approvals && svc.fix.Some? && s.db.approvals[b].proposalId == svc.fix.value.id {
      assert SameRequest(s.db.approvals[b], s'.db.approvals[b]);
    }
  }

  lemma StartsGrow(s: Sys, e: Event)
    ensures s.hist.starts <= Apply(s, e).hist.starts
  {
    hide ProcStep, ClickStep, ResumeStep;
  }

  lemma RunSnoc(s: Sys, es: seq<Event>, e: Event)
    ensures Run(s, es + [e]) == Apply(Run(s, es), e)
  {
    RunConcat(s, es, [e]);
    assert Run(Run(s, es), [e]) == Run(Apply(Run(s, es), e), []);
  }

  class Server {
    const store: Store
    var world: Sys            // the tables and the positions of all tasks
    ghost var log: seq<Event> // the run so far

    ghost predicate Traced()
      reads this
    {
      world == Run(Empty(world.cfg), log)
    }

    ghost predicate Valid()
      reads this, store
    {
      Traced() && world.db == store.Tables()
    }

    constructor (cfg: Config)
      ensures Valid() && log == [] && world.cfg == cfg && fresh(store)
    {
      store := new Store();
      world := Empty(cfg);
      log := [];
    }

    ghost predicate Holds(i: string, row: Pipeline)
      reads this
    {
      i in world.db.pipelines && world.db.pipelines[i] == row
    }

    // The state after the first n events.
    ghost function At(n: nat): Sys
      requires n <= |log|
      reads this
    {
      Run(Empty(world.cfg), log[..n])
    }

    // Whatever the methods below do, the server is in a reachable state of the protocol.
    lemma Reaches()
      requires Traced()
      ensures Reachable(world)
    {
      assert Init(Empty(world.cfg));
    }

    method Advance(e: Event)
      requires Traced()
      modifies this
      ensures Traced() && world == Apply(old(world), e) && log == old(log) + [e]
    {
      RunSnoc(Empty(world.cfg), log, e);
      world := Apply(world, e);
      log := log + [e];
    }

    method AdvanceProc(t: nat, act: Act)
      requires Traced() && t in world.procs
      modifies this
      ensures Traced() && world == ApplyProc(old(world), t, act) && log == old(log) + [ProcMove(t, act)]
    {
      Advance(ProcMove(t, act));
    }

    method AdvanceClick(k: nat, act: Act)
      requires Traced() && k in world.clicks
      modifies this
      ensures Traced() && world == ApplyClick(old(world), k, act) && log == old(log) + [ClickMove(k, act)]
    {
      Advance(ClickMove(k, act));
    }

    method AdvanceResume(r: nat, act: Act)
      requires Traced() && r in world.resumes
      modifies this
      ensures Traced() && world == ApplyResume(old(world), r, act) && log == old(log) + [ResumeMove(r, act)]
    {
      Advance(ResumeMove(r, act));
    }

    // The other tasks move.
    method Interfere(me: Me, evs: seq<Event>, ghost x: Script)
      requires Valid()
      modifies this, store
      ensures Valid() && Untouched(old(world), world, me) && world.cfg == old(world.cfg)
      ensures Scripted(old(log), log, me, x) && old(world.hist.starts) <= world.hist.starts
      ensures Later(old(world), world) && RowKept(old(world), world, me)
    {
      hide Run, ProcStep, ClickStep, ResumeStep, Later, Reachable, Inv, SameRow;
      LaterSame(world);
      assert RowKept(world, world, me) by { SameRowSame(world); }
      for i := 0 to |evs|
        invariant Traced() && Untouched(old(world), world, me) && world.cfg == old(world.cfg)
        invariant Scripted(old(log), log, me, x) && old(world.hist.starts) <= world.hist.starts
        invariant Later(old(world), world) && RowKept(old(world), world, me)
      {
        if Foreign(evs[i], me) {
          ForeignLeavesMeAlone(world, evs[i], me);
          StartsGrow(world, evs[i]);
          Reaches();
          ReachableInv(world);
          StepIsLater(world, evs[i]);
          LaterTrans(old(world), world, Apply(world, evs[i]));
          RowKeptStep(old(world), world, evs[i], me);
          Advance(evs[i]);
        }
      }
      store.approvals, store.pipelines := world.db.approvals, world.db.pipelines;
    }

    // ---------- process_failure ----------

    method Answer(t: nat, act: Act, ghost x: Script)
      requires Valid() && t in world.procs
      requires Says(x, act)
      requires act.Diagnosed? || act.Fixed? || act.Validated? || act.Raise?
      modifies this
      ensures Valid() && world.procs == old(world.procs)[t := old(world.procs)[t].(
                 pc := ProcStep(old(world).cfg, old(world).db, old(world.procs)[t], act).1)]
      ensures world.cfg == old(world.cfg) && world.db == old(world.db) && log == old(log) + [ProcMove(t, act)]
    {
      AdvanceProc(t, act);
    }

    // update_pipeline_state inside the try block.
    method StoreStage(t: nat, u: Update, slot: Slot, ghost x: Script) returns (row: Option<Pipeline>, raised: bool)
      requires Valid() && t in world.procs && StageWrite(world.procs[t].pc)
      requires slot.commits || !Smooth(x)
      requires u == StageUpdate(world.procs[t].context, world.procs[t].pc)
      requires world.procs[t].context.incident in world.db.pipelines
      modifies this, store
      ensures Valid() && Scripted(old(log), log, AProc(t), x) && Later(old(world), world)
      ensures t in world.procs && world.cfg == old(world.cfg)
      ensures raised == !slot.commits
      ensures world.procs[t] == old(world.procs[t]).(
                pc := if raised then PHandler else AfterWrite(old(world.procs[t]).pc))
      ensures var i := old(world.procs[t].context.incident);
              var before := old(world.db.pipelines)[i];
              Holds(i, if raised then before else Patch(before, u)) && row == if raised then None else Some(Patch(before, u))
    {
      hide Run, Later, ProcStep, StageUpdate, AfterWrite, Patch;
      Interfere(AProc(t), slot.others, x);
      raised := !slot.commits;
      StageStep(world.cfg, world.db, world.procs[t], if raised then Raise else Ok);
      Reaches();
      ProcMoveIsLater(old(world), world, t, if raised then Raise else Ok);
      if raised {
        AdvanceProc(t, Raise);
        row := None;
      } else {
        row := store.UpdatePipelineState(world.procs[t].context.incident, u);
        AdvanceProc(t, Ok);
      }
    }

    // found: how much of the run was over when the existing row was looked for.  created: this call
    // stored the incident's row.  asked: the approval it stored.
    method ProcessFailure(t: nat, c: Context, svc: Services, sched: nat -> Slot)
      returns (result: Option<Pipeline>, ghost found: nat, ghost created: bool, ghost asked: Option<string>)
      requires Valid() && t !in world.procs
      modifies this, store
      ensures Valid() && Scripted(old(log), log, AProc(t), ProcScript(svc, AllCommit(sched)))
      ensures t in world.procs && world.procs[t] == Proc(c, PStop)
      ensures world.cfg == old(world.cfg) && old(|log|) <= found <= |log|
      ensures sched(0).commits && c.incident in At(found).db.pipelines ==>
                result == Some(At(found).db.pipelines[c.incident]) && !created
      ensures sched(0).commits && c.incident !in At(found).db.pipelines && !created ==>
                result.None? && (!sched(1).commits || c.incident in world.db.pipelines)
      ensures !sched(0).commits ==> result.None? && !created
      ensures created ==> sched(1).commits && Finished(c, svc, sched, result, asked)
    {
      hide Run, Later, ProcStep, AllCommit, ApplyProc, ApplyClick, ApplyResume, Finished;
      ghost var x := ProcScript(svc, AllCommit(sched));
      Commits(sched, 0);
      found, created, asked := |log|, false, None;
      Advance(Webhook(t, c));
      var existing, raised;
      existing, raised, found := FindExisting(t, c, sched(0), x);
      ghost var early := log;
      if raised || existing.Some? {
        return existing, found, created, asked;
      }
      result, created, asked := ProcessNew(t, c, svc, sched, x);
      assert log[..found] == early[..found];
    }

    // The incident's row is as the services' answers and the calls that commit say, and is returned
    // unless the last write failed.
    ghost predicate Finished(c: Context, svc: Services, sched: nat -> Slot, result: Option<Pipeline>, asked: Option<string>)
      reads this
    {
      var left := Left(c, svc, sched, asked);
      && Holds(c.incident, left) && AskedFor(world, c, svc, sched, asked)
      && result == if Ending(c, svc, sched, asked).Some? || sched(8).commits then Some(left) else None
    }

    // No row was found.
    method ProcessNew(t: nat, c: Context, svc: Services, sched: nat -> Slot, ghost x: Script)
      returns (result: Option<Pipeline>, ghost created: bool, ghost asked: Option<string>)
      requires Valid() && Follows(x, svc, sched) && t in world.procs && world.procs[t] == Proc(c, PInsert)
      modifies this, store
      ensures Valid() && Scripted(old(log), log, AProc(t), x)
      ensures t in world.procs && world.procs[t] == Proc(c, PStop) && world.cfg == old(world.cfg)
      ensures !created ==> result.None? && (!sched(1).commits || c.incident in world.db.pipelines)
      ensures created ==> sched(1).commits && Finished(c, svc, sched, result, asked)
    {
      hide Run, Later, ProcStep, AllCommit, ApplyProc, ApplyClick, ApplyResume, Ending, Interrupted, AskedFor, Commit, RowOf;
      Commits(sched, 1);
      Commits(sched, 8);
      asked := None;
      var raised := CreateRow(t, c, sched(1), x);
      created := !raised;
      if raised {
        return None, created, asked;
      }
      result, raised, asked := Remediate(t, c, svc, sched, x);
      if raised {
        result := HandleException(t, c, svc, sched, asked, x);
      }
    }

    // The idempotency check.
    method FindExisting(t: nat, c: Context, slot: Slot, ghost x: Script)
      returns (existing: Option<Pipeline>, raised: bool, ghost found: nat)
      requires Valid() && t in world.procs && world.procs[t] == Proc(c, PLookup)
      requires slot.commits || !Smooth(x)
      modifies this, store
      ensures Valid() && Scripted(old(log), log, AProc(t), x) && world.cfg == old(world.cfg)
      ensures t in world.procs && old(|log|) <= found <= |log|
      ensures world.procs[t] == Proc(c, if raised || existing.Some? then PStop else PInsert)
      ensures raised == !slot.commits
      ensures existing == if !raised && c.incident in At(found).db.pipelines then Some(At(found).db.pipelines[c.incident])
                          else None
    {
      hide Run, Later;
      Interfere(AProc(t), slot.others, x);
      found := |log|;
      assert log[..found] == log;
      raised, existing := !slot.commits, None;
      if raised {
        AdvanceProc(t, Raise);
      } else {
        existing := store.GetByIncident(c.incident);
        AdvanceProc(t, Ok);
      }
      assert log[..found] == old(log) + log[|old(log)|..found];
    }

    method CreateRow(t: nat, c: Context, slot: Slot, ghost x: Script) returns (raised: bool)
      requires Valid() && t in world.procs && world.procs[t] == Proc(c, PInsert)
      requires slot.commits || !Smooth(x)
      modifies this, store
      ensures Valid() && Scripted(old(log), log, AProc(t), x) && world.cfg == old(world.cfg)
      ensures t in world.procs
      ensures world.procs[t] == Proc(c, if raised then PStop else PDiagnosing)
      ensures !raised ==> slot.commits && Holds(c.incident, RowOf(c, Received, false, None, None, None, None))
      ensures raised ==> !slot.commits || c.incident in world.db.pipelines
    {
      hide Run, Later, ProcStep;
      Interfere(AProc(t), slot.others, x);
      InsertStep(world.cfg, world.db, world.procs[t], if slot.commits then Ok else Raise);
      raised := true;
      if slot.commits {
        var ok := store.CreatePipeline(c.incident, NewPipeline(c));
        raised := !ok;
      }
      AdvanceProc(t, if slot.commits then Ok else Raise);
    }

    // The except clause.
    method HandleException(t: nat, c: Context, svc: Services, sched: nat -> Slot, ghost asked: Option<string>, ghost x: Script)
      returns (row: Option<Pipeline>)
      requires Valid() && t in world.procs && world.procs[t] == Proc(c, PHandler)
      requires sched(8).commits || !Smooth(x)
      requires Holds(c.incident, Interrupted(c, svc, sched)) && AskedFor(world, c, svc, sched, asked)
      modifies this, store
      ensures Valid() && Scripted(old(log), log, AProc(t), x) && world.cfg == old(world.cfg)
      ensures t in world.procs && world.procs[t] == Proc(c, PStop) && AskedFor(world, c, svc, sched, asked)
      ensures sched(8).commits ==>
                row == Some(Interrupted(c, svc, sched).(status := PipelineFailed, cause := Some(Exception)))
                && Holds(c.incident, row.value)
      ensures !sched(8).commits ==> row.None? && Holds(c.incident, Interrupted(c, svc, sched))
    {
      hide Run, Later, ProcStep, AskedFor, Interrupted;
      Interfere(AProc(t), sched(8).others, x);
      ghost var act := if sched(8).commits then Ok else Raise;
      HandlerStep(world.cfg, world.db, world.procs[t], act);
      Reaches();
      ProcMoveIsLater(old(world), world, t, act);
      AskedForStays(old(world), ApplyProc(world, t, act), c, svc, sched, asked);
      if sched(8).commits {
        row := store.UpdatePipelineState(c.incident, NO_CHANGE.(status := PipelineFailed, cause := Some(Exception)));
        AdvanceProc(t, Ok);
      } else {
        AdvanceProc(t, Raise);
        row := None;
      }
    }

    // The try block ended as the services' answers and the calls that commit say.
    ghost predicate Ended(c: Context, svc: Services, sched: nat -> Slot, row: Option<Pipeline>, raised: bool,
                          asked: Option<string>)
      reads this
    {
      var ending := Ending(c, svc, sched, asked);
      && row == ending && raised == ending.None?
      && Holds(c.incident, if raised then Interrupted(c, svc, sched) else ending.value)
      && AskedFor(world, c, svc, sched, asked)
    }

    // The try block.
    method Remediate(t: nat, c: Context, svc: Services, sched: nat -> Slot, ghost x: Script)
      returns (row: Option<Pipeline>, raised: bool, ghost asked: Option<string>)
      requires Valid() && Follows(x, svc, sched) && t in world.procs && world.procs[t] == Proc(c, PDiagnosing)
      requires Holds(c.incident, RowOf(c, Received, false, None, None, None, None))
      modifies this, store
      ensures Valid() && Scripted(old(log), log, AProc(t), x) && world.cfg == old(world.cfg)
      ensures t in world.procs
      ensures world.procs[t] == Proc(c, if raised then PHandler else PStop)
      ensures Ended(c, svc, sched, row, raised, asked)
    {
      hide Run, Later, UpdatePipeline, InsertApproval, InsertPipeline, Eligible, Write, ApplyClick, ApplyResume, Usable,
           Clean, NewApproval;
      asked := None;
      row, raised := StoreStage(t, NO_CHANGE.(status := Diagnosing), sched(2), x);
      if raised { return; }
      row, raised, asked := Diagnose(t, c, svc, sched, x);
    }

    // Diagnosis and context retrieval, then the rest.
    method Diagnose(t: nat, c: Context, svc: Services, sched: nat -> Slot, ghost x: Script)
      returns (row: Option<Pipeline>, raised: bool, ghost asked: Option<string>)
      requires Valid() && Follows(x, svc, sched) && t in world.procs && world.procs[t] == Proc(c, PDiagnose)
      requires sched(2).commits && Holds(c.incident, RowOf(c, Diagnosing, false, None, None, None, None))
      modifies this, store
      ensures Valid() && Scripted(old(log), log, AProc(t), x) && world.cfg == old(world.cfg)
      ensures t in world.procs
      ensures world.procs[t] == Proc(c, if raised then PHandler else PStop)
      ensures Ended(c, svc, sched, row, raised, asked)
    {
      hide Run, Later, UpdatePipeline, InsertApproval, InsertPipeline, Eligible, Write, ApplyClick, ApplyResume, Usable,
           Clean, NewApproval, AskedFor;
      asked := None;
      if !Diagnosable(svc) { NotAsked(c, svc, sched); }
      if svc.diagnosis.None? || (svc.diagnosis.value && svc.evidence.None?) {
        Answer(t, Raise, x);
        return None, true, asked;
      }
      var fixable := svc.diagnosis.value;
      Answer(t, Diagnosed(fixable, fixable && svc.evidence.value), x);
      if !fixable {
        row, raised := Halt(t, c, NotFixable, svc, sched, x);
        return;
      }
      if !svc.evidence.value {
        row, raised := Halt(t, c, NoContext, svc, sched, x);
        return;
      }
      row, raised, asked := Synthesise(t, c, svc, sched, x);
    }

    // Nothing to repair, or nothing to repair it with.
    method Halt(t: nat, c: Context, why: Cause, svc: Services, sched: nat -> Slot, ghost x: Script)
      returns (row: Option<Pipeline>, raised: bool)
      requires Valid() && Follows(x, svc, sched) && t in world.procs && world.procs[t] == Proc(c, PHalt(why))
      requires sched(2).commits && Holds(c.incident, RowOf(c, Diagnosing, false, None, None, None, None))
      requires svc.diagnosis == Some(why.NoContext?) && why in {NotFixable, NoContext}
      requires why.NoContext? ==> svc.evidence == Some(false)
      modifies this, store
      ensures Valid() && Scripted(old(log), log, AProc(t), x) && world.cfg == old(world.cfg)
      ensures t in world.procs
      ensures world.procs[t] == Proc(c, if raised then PHandler else PStop)
      ensures Ended(c, svc, sched, row, raised, None)
    {
      hide Run, Later, UpdatePipeline, Write, ApplyClick, ApplyResume, AskedFor;
      NotAsked(c, svc, sched);
      row, raised := StoreStage(t, NO_CHANGE.(status := PipelineFailed, diagnosisId := DiagnosisId(c), cause := Some(why)),
                                sched(3), x);
    }

    // Fix synthesis, then the rest.
    method Synthesise(t: nat, c: Context, svc: Services, sched: nat -> Slot, ghost x: Script)
      returns (row: Option<Pipeline>, raised: bool, ghost asked: Option<string>)
      requires Valid() && Follows(x, svc, sched) && t in world.procs && world.procs[t] == Proc(c, PProposing)
      requires Diagnosable(svc) && sched(2).commits && Holds(c.incident, RowOf(c, Diagnosing, false, None, None, None, None))
      modifies this, store
      ensures Valid() && Scripted(old(log), log, AProc(t), x) && world.cfg == old(world.cfg)
      ensures t in world.procs
      ensures world.procs[t] == Proc(c, if raised then PHandler else PStop)
      ensures Ended(c, svc, sched, row, raised, asked)
    {
      hide Run, Later, UpdatePipeline, Write, ApplyClick, ApplyResume;
      asked := None;
      row, raised := StoreStage(t, NO_CHANGE.(status := Proposing, diagnosisId := DiagnosisId(c)), sched(3), x);
      if raised { return; }
      row, raised, asked := Propose(t, c, svc, sched, x);
    }

    method Propose(t: nat, c: Context, svc: Services, sched: nat -> Slot, ghost x: Script)
      returns (row: Option<Pipeline>, raised: bool, ghost asked: Option<string>)
      requires Valid() && Follows(x, svc, sched) && t in world.procs && world.procs[t] == Proc(c, PFix)
      requires Diagnosable(svc) && Commit(sched, 2, 3)
      requires Holds(c.incident, RowOf(c, Proposing, true, None, None, None, None))
      modifies this, store
      ensures Valid() && Scripted(old(log), log, AProc(t), x) && world.cfg == old(world.cfg)
      ensures t in world.procs
      ensures world.procs[t] == Proc(c, if raised then PHandler else PStop)
      ensures Ended(c, svc, sched, row, raised, asked)
    {
      hide Run, Later, UpdatePipeline, InsertApproval, Eligible, InsertPipeline;
      asked := None;
      if svc.fix.None? {
        Answer(t, Raise, x);
        return None, true, asked;
      }
      var p := svc.fix.value;
      Answer(t, Fixed(p), x);
      if !p.isValid || !p.status.Proposed? {
        row, raised := StoreStage(t, NO_CHANGE.(status := PipelineRejected, diagnosisId := DiagnosisId(c),
                                         proposalId := Some(p.id), cause := Some(BadProposal),
                                         proposal := Some(p)), sched(4), x);
        return;
      }
      row, raised := StoreStage(t, NO_CHANGE.(status := Validating, proposalId := Some(p.id), proposal := Some(p)), sched(4), x);
      if raised { return; }
      row, raised, asked := ValidateAndAsk(t, c, p, svc, sched, x);
    }

    // Sandbox validation, then the approval request.
    method ValidateAndAsk(t: nat, c: Context, p: Proposal, svc: Services, sched: nat -> Slot, ghost x: Script)
      returns (row: Option<Pipeline>, raised: bool, ghost asked: Option<string>)
      requires Valid() && Follows(x, svc, sched) && t in world.procs && world.procs[t] == Proc(c, PValidate(p))
      requires GoodFix(svc) && svc.fix == Some(p) && Commit(sched, 2, 4)
      requires Holds(c.incident, RowOf(c, Validating, true, Some(p), None, None, None))
      modifies this, store
      ensures Valid() && Scripted(old(log), log, AProc(t), x) && world.cfg == old(world.cfg)
      ensures t in world.procs
      ensures world.procs[t] == Proc(c, if raised then PHandler else PStop)
      ensures Ended(c, svc, sched, row, raised, asked)
    {
      hide Run, Later, UpdatePipeline, InsertApproval, Eligible, InsertPipeline, ApplyClick, ApplyResume, ApprovalId, Write;
      asked := None;
      if svc.validation.None? {
        Answer(t, Raise, x);
        return None, true, asked;
      }
      var v := svc.validation.value;
      Answer(t, Validated(v), x);
      if !v.status.Passed? || v.exitCode != Some(0) {
        row, raised := StoreStage(t, NO_CHANGE.(status := PipelineFailed, proposalId := Some(p.id),
                                         cause := Some(BadValidation), proposal := Some(p),
                                         validation := Some(v)), sched(5), x);
        return;
      }
      row, raised, asked := AskAndWait(t, c, p, v, svc, sched, x);
    }

    method AskAndWait(t: nat, c: Context, p: Proposal, v: Validation, svc: Services, sched: nat -> Slot, ghost x: Script)
      returns (row: Option<Pipeline>, raised: bool, ghost asked: Option<string>)
      requires Valid() && Follows(x, svc, sched) && t in world.procs && world.procs[t] == Proc(c, PRequest(p, v))
      requires GoodRun(svc) && svc.fix == Some(p) && svc.validation == Some(v) && Commit(sched, 2, 4)
      requires Holds(c.incident, RowOf(c, Validating, true, Some(p), None, None, None))
      modifies this, store
      ensures Valid() && Scripted(old(log), log, AProc(t), x) && world.cfg == old(world.cfg)
      ensures t in world.procs
      ensures world.procs[t] == Proc(c, if raised then PHandler else PStop)
      ensures Ended(c, svc, sched, row, raised, asked)
    {
      hide Run, Later, UpdatePipeline, InsertApproval, Eligible, InsertPipeline, ApplyClick, ApplyResume, Write;
      asked := None;
      var aid;
      aid, raised := RequestApproval(t, c, p, v, svc.clock, sched(5), x);
      if raised { return None, true, asked; }
      asked := Some(aid);
      ghost var before := world;
      row, raised := StoreStage(t, NO_CHANGE.(status := AwaitingApproval, diagnosisId := DiagnosisId(c),
                                       proposalId := Some(p.id), approvalId := Some(aid), context := Some(c),
                                       proposal := Some(p), validation := Some(v)), sched(6), x);
      AskedForStays(before, world, c, svc, sched, asked);
    }

    // ApprovalService.request_approval; posting the card cannot fail the request.
    method RequestApproval(t: nat, c: Context, p: Proposal, v: Validation, now: int, slot: Slot, ghost x: Script)
      returns (aid: string, raised: bool)
      requires Valid() && Says(x, Clock(now)) && t in world.procs && world.procs[t] == Proc(c, PRequest(p, v))
      requires slot.commits || !Smooth(x)
      requires c.incident in world.db.pipelines
      modifies this, store
      ensures Valid() && Scripted(old(log), log, AProc(t), x)
      ensures t in world.procs && world.cfg == old(world.cfg)
      ensures world.procs[t] == Proc(c, if raised then PHandler else PAwait(p, v, aid))
      ensures Holds(c.incident, old(world.db.pipelines)[c.incident])
      ensures aid == "appr_" + c.incident + "_" + if |p.commit| > 8 then p.commit[..8] else p.commit
      ensures !raised ==>
                && slot.commits && p.isValid && p.status.Proposed? && p.diff != "" && v.status.Passed? && v.exitCode == Some(0)
                && p.confidence >= world.cfg.minConfidence && aid in world.db.approvals
                && world.db.approvals[aid]
                   == Approval(c.incident, p.id, p.commit, Pending, Some(now + world.cfg.ttl), None, None, None)
      ensures raised && slot.commits && p.isValid && p.status.Proposed? && p.diff != "" && v.status.Passed?
              && v.exitCode == Some(0) && p.confidence >= world.cfg.minConfidence ==>
                aid in world.db.approvals || exists b :: b in world.db.approvals && world.db.approvals[b].proposalId == p.id
    {
      hide Run, Later, ProcStep;
      Interfere(AProc(t), slot.others, x);
      RequestStep(world.cfg, world.db, world.procs[t], if slot.commits then Clock(now) else Raise);
      aid := ApprovalId(c.incident, p.commit);
      raised := true;
      if !slot.commits {
        AdvanceProc(t, Raise);
        return;
      }
      if Eligible(p, v, world.cfg.minConfidence) {
        var ok := store.CreateApproval(aid, Approval(c.incident, p.id, p.commit, Pending,
                                                     Some(now + world.cfg.ttl), None, None, None));
        raised := !ok;
      }
      AdvanceProc(t, Clock(now));
    }

    // ---------- the Slack route ----------

    // handle_slack_interaction with ApprovalService.record_decision: the answer of the HTTP call, and
    // whether it scheduled a resume (task r).  read and acted: how much of the run was over when the
    // approval was read, and when it was expired or decided.
    method HandleInteraction(k: nat, r: nat, aid: string, approve: bool, reviewer: string, readAt: int,
                             decideAt: int, sched: nat -> Slot)
      returns (answer: Answer, scheduled: bool, ghost read: nat, ghost acted: nat)
      requires Valid() && k !in world.clicks && r !in world.resumes
      modifies this, store
      ensures Valid() && Scripted(old(log), log, AClick(k, r), ClickScript(readAt, decideAt, r, AllCommit(sched)))
      ensures k in world.clicks && world.clicks[k].pc == CStop(answer)
      ensures world.clicks[k].aid == aid && world.clicks[k].target == TargetOf(approve)
      ensures scheduled <==> r in world.resumes
      ensures scheduled <==> approve && answer.Recorded?
      ensures scheduled ==> world.resumes[r] == Resume(aid, RRead)
      ensures world.cfg == old(world.cfg) && old(|log|) <= read <= acted <= |log|
      ensures !sched(0).commits ==> answer == Died
      ensures sched(0).commits && aid !in At(read).db.approvals ==> answer == NotFound
      ensures sched(0).commits && aid in At(read).db.approvals ==>
                var seen := At(read).db.approvals[aid];
                if seen.status.Pending? && seen.expiresAt.Some? && readAt > seen.expiresAt.value then
                  answer == (if sched(1).commits then HasExpired else Died)
                  && (sched(1).commits ==> NowExpired(acted, aid))
                else Answered(acted, aid, approve, reviewer, decideAt, sched, answer)
    {
      hide Run, Later, Expire, Judge, UpdatePipeline, ApplyProc, ApplyResume, ApplyClick, PastExpiry, NowExpired, Answered,
           Reachable;
      ghost var x := ClickScript(readAt, decideAt, r, AllCommit(sched));
      scheduled := false;
      Arrive(k, r, aid, approve, reviewer, x);
      var current;
      current, answer, read := ReadCurrent(k, r, readAt, sched(0), x);
      acted := |log|;
      if current.None? {
        return;
      }
      ghost var early := log;
      answer, scheduled, acted := ActOn(k, r, approve, current.value, readAt, decideAt, sched, x);
      assert log[..read] == early[..read];
    }

    // Expire it if it is due, else decide it.
    method ActOn(k: nat, r: nat, approve: bool, current: Approval, readAt: int, decideAt: int, sched: nat -> Slot,
                 ghost x: Script)
      returns (answer: Answer, scheduled: bool, ghost acted: nat)
      requires Valid() && x == ClickScript(readAt, decideAt, r, AllCommit(sched)) && k in world.clicks && r !in world.resumes
      requires world.clicks[k].target == TargetOf(approve) && world.clicks[k].aid in world.db.approvals
      requires world.clicks[k].pc == if PastExpiry(current, readAt) && current.status.Pending? then CExpire else CDecide
      modifies this, store
      ensures Valid() && Scripted(old(log), log, AClick(k, r), x) && world.cfg == old(world.cfg)
      ensures k in world.clicks && world.clicks[k] == old(world.clicks[k]).(pc := CStop(answer))
      ensures scheduled <==> r in world.resumes
      ensures scheduled <==> approve && answer.Recorded?
      ensures scheduled ==> world.resumes[r] == Resume(old(world.clicks[k]).aid, RRead)
      ensures old(|log|) <= acted <= |log|
      ensures if current.status.Pending? && current.expiresAt.Some? && readAt > current.expiresAt.value then
                answer == (if sched(1).commits then HasExpired else Died)
                && (sched(1).commits ==> NowExpired(acted, old(world.clicks[k]).aid))
              else Answered(acted, old(world.clicks[k]).aid, approve, old(world.clicks[k]).reviewer, decideAt, sched, answer)
    {
      hide Run, Later, Expire, ApplyProc, ApplyResume, ApplyClick, PastExpiry, NowExpired, Answered, Reachable;
      LateIs(current, readAt);
      scheduled := false;
      if PastExpiry(current, readAt) && current.status.Pending? {
        Commits(sched, 1);
        answer, acted := ExpireIt(k, r, sched(1), x);
      } else {
        answer, scheduled, acted := RecordDecision(k, r, approve, decideAt, sched, x);
      }
    }

    // The approval is no longer pending: EXPIRED, unless it was settled in between.
    ghost predicate NowExpired(acted: nat, aid: string)
      requires acted <= |log|
      reads this
    {
      && aid in At(acted).db.approvals && aid in world.db.approvals
      && var row := At(acted).db.approvals[aid];
         world.db.approvals[aid] == if row.status.Pending? then row.(status := Expired) else row
    }

    // The compare-and-set stored the decision if the approval was still pending; if not, the answer
    // says whether the same decision was there already.
    ghost predicate Answered(acted: nat, aid: string, approve: bool, reviewer: string, at: int, sched: nat -> Slot,
                             answer: Answer)
      requires acted <= |log|
      reads this
    {
      if !sched(1).commits then answer == Died
      else
        && aid in At(acted).db.approvals && aid in world.db.approvals
        && var row, target := At(acted).db.approvals[aid], if approve then Approved else Rejected;
           if row.status.Pending? then
             && answer == Recorded
             && world.db.approvals[aid]
                == row.(status := target, reviewer := Some(reviewer), reason := None, decidedAt := Some(at))
           else
             && world.db.approvals[aid] == row
             && answer == (if !sched(2).commits then Died else if row.status == target then Duplicate else Illegal)
    }

    method Arrive(k: nat, r: nat, aid: string, approve: bool, reviewer: string, ghost x: Script)
      requires Valid() && k !in world.clicks && r !in world.resumes
      modifies this
      ensures Valid() && Scripted(old(log), log, AClick(k, r), x) && r !in world.resumes && world.cfg == old(world.cfg)
      ensures k in world.clicks && world.clicks[k] == Click(aid, TargetOf(approve), reviewer, None, CRead)
    {
      hide Run, Later;
      Advance(ClickArrives(k, aid, approve, reviewer));
    }

    // The compare-and-set, then the route's rule: resume an approval that is no duplicate.
    method RecordDecision(k: nat, r: nat, approve: bool, now: int, sched: nat -> Slot, ghost x: Script)
      returns (answer: Answer, scheduled: bool, ghost acted: nat)
      requires Valid() && k in world.clicks && world.clicks[k].pc.CDecide? && r !in world.resumes
      requires Says(x, Clock(now)) && Says(x, Spawn(r)) && (AllCommit(sched) || !Smooth(x))
      requires world.clicks[k].target == TargetOf(approve) && world.clicks[k].aid in world.db.approvals
      modifies this, store
      ensures Valid() && Scripted(old(log), log, AClick(k, r), x) && world.cfg == old(world.cfg)
      ensures k in world.clicks && world.clicks[k] == old(world.clicks[k]).(pc := CStop(answer))
      ensures scheduled <==> r in world.resumes
      ensures scheduled <==> approve && answer.Recorded?
      ensures scheduled ==> world.resumes[r] == Resume(old(world.clicks[k]).aid, RRead)
      ensures old(|log|) <= acted <= |log|
      ensures Answered(acted, old(world.clicks[k]).aid, approve, old(world.clicks[k]).reviewer, now, sched, answer)
    {
      hide Run, Later, Reachable;
      Commits(sched, 1);
      Commits(sched, 2);
      scheduled := false;
      var raised, won;
      raised, won, acted := TryDecide(k, r, now, sched(1), x);
      ghost var early, aid, row := log, world.clicks[k].aid, world.db.approvals[world.clicks[k].aid];
      if raised {
        answer := Died;
      } else if won {
        answer := Recorded;
        scheduled := ScheduleResume(k, r, sched(2), x);
      } else {
        answer := Reread(k, r, sched(2), x);
      }
      assert log[..acted] == early[..acted];
    }

    method ReadCurrent(k: nat, r: nat, now: int, slot: Slot, ghost x: Script)
      returns (current: Option<Approval>, answer: Answer, ghost read: nat)
      requires Valid() && Says(x, Clock(now)) && k in world.clicks && world.clicks[k].pc.CRead? && r !in world.resumes
      requires slot.commits || !Smooth(x)
      modifies this, store
      ensures Valid() && Scripted(old(log), log, AClick(k, r), x) && world.cfg == old(world.cfg)
      ensures k in world.clicks && r !in world.resumes && old(|log|) <= read <= |log|
      ensures var aid, seen := old(world.clicks[k]).aid, At(read).db.approvals;
              && current == (if slot.commits && aid in seen then Some(seen[aid]) else None)
              && (current.Some? ==> aid in world.db.approvals)
      ensures current.None? ==>
                answer == (if slot.commits then NotFound else Died)
                && world.clicks[k] == old(world.clicks[k]).(pc := CStop(answer))
      ensures current.Some? ==>
                world.clicks[k] == old(world.clicks[k]).(
                  clock := Some(now),
                  pc := if PastExpiry(current.value, now) && current.value.status.Pending? then CExpire else CDecide)
    {
      hide Run, Later, ApplyProc, ApplyResume, ProcStep, ResumeStep;
      Interfere(AClick(k, r), slot.others, x);
      read := |log|;
      assert log[..read] == log;
      if slot.commits {
        answer := NotFound;
        current := store.GetApproval(world.clicks[k].aid);
        AdvanceClick(k, Clock(now));
      } else {
        current, answer := None, Died;
        AdvanceClick(k, Raise);
      }
      assert log[..read] == old(log) + log[|old(log)|..read];
    }

    method ExpireIt(k: nat, r: nat, slot: Slot, ghost x: Script) returns (answer: Answer, ghost acted: nat)
      requires Valid() && k in world.clicks && world.clicks[k].pc.CExpire? && r !in world.resumes
      requires slot.commits || !Smooth(x)
      requires world.clicks[k].aid in world.db.approvals
      modifies this, store
      ensures Valid() && Scripted(old(log), log, AClick(k, r), x) && world.cfg == old(world.cfg)
      ensures k in world.clicks && r !in world.resumes && answer == (if slot.commits then HasExpired else Died)
      ensures world.clicks[k] == old(world.clicks[k]).(pc := CStop(answer))
      ensures old(|log|) <= acted <= |log| && (slot.commits ==> NowExpired(acted, old(world.clicks[k]).aid))
    {
      hide Run, Later, ApplyProc, ApplyResume, ProcStep, ResumeStep;
      Interfere(AClick(k, r), slot.others, x);
      StillThere(old(world), world, world.clicks[k].aid);
      acted := |log|;
      assert log[..acted] == log;
      if slot.commits {
        var _ := store.ExpireApproval(world.clicks[k].aid);
        AdvanceClick(k, Ok);
        answer := HasExpired;
      } else {
        AdvanceClick(k, Raise);
        answer := Died;
      }
      assert log[..acted] == old(log) + log[|old(log)|..acted];
    }

    method TryDecide(k: nat, r: nat, now: int, slot: Slot, ghost x: Script)
      returns (raised: bool, won: bool, ghost acted: nat)
      requires Valid() && Says(x, Clock(now)) && k in world.clicks && world.clicks[k].pc.CDecide? && r !in world.resumes
      requires slot.commits || !Smooth(x)
      requires world.clicks[k].aid in world.db.approvals
      modifies this, store
      ensures Valid() && Scripted(old(log), log, AClick(k, r), x) && world.cfg == old(world.cfg)
      ensures k in world.clicks && r !in world.resumes
      ensures world.clicks[k] == old(world.clicks[k]).(
                pc := if raised then CStop(Died) else if won then CWon else CReread)
      ensures raised == !slot.commits && old(|log|) <= acted <= |log|
      ensures var c := old(world.clicks[k]);
              && c.aid in At(acted).db.approvals && c.aid in world.db.approvals
              && var row := At(acted).db.approvals[c.aid];
                 (!raised ==> won == row.status.Pending?)
                 && world.db.approvals[c.aid] == if won then row.(status := c.target, reviewer := Some(c.reviewer), reason := None,
                                                                 decidedAt := Some(now)) else row
    {
      hide Run, Later, ApplyProc, ApplyResume, ProcStep, ResumeStep;
      Interfere(AClick(k, r), slot.others, x);
      StillThere(old(world), world, world.clicks[k].aid);
      acted := |log|;
      assert log[..acted] == log;
      raised, won := !slot.commits, false;
      if raised {
        AdvanceClick(k, Raise);
      } else {
        var click := world.clicks[k];
        won := store.TryDecide(click.aid, click.target, click.reviewer, None, now);
        AdvanceClick(k, Clock(now));
      }
      assert log[..acted] == old(log) + log[|old(log)|..acted];
    }

    // The decision is stored and is no duplicate: update the card, then resume if it approves.
    method ScheduleResume(k: nat, r: nat, slot: Slot, ghost x: Script) returns (scheduled: bool)
      requires Valid() && Says(x, Spawn(r)) && k in world.clicks && world.clicks[k].pc.CWon? && r !in world.resumes
      requires slot.commits || !Smooth(x)
      requires world.clicks[k].aid in world.db.approvals && !world.db.approvals[world.clicks[k].aid].status.Pending?
      modifies this, store
      ensures Valid() && Scripted(old(log), log, AClick(k, r), x) && world.cfg == old(world.cfg)
      ensures k in world.clicks
      ensures world.clicks[k] == old(world.clicks[k]).(pc := CStop(Recorded))
      ensures scheduled <==> old(world.clicks[k]).target.Approved?
      ensures scheduled <==> r in world.resumes
      ensures scheduled ==> world.resumes[r] == Resume(old(world.clicks[k]).aid, RRead)
      ensures var aid := old(world.clicks[k]).aid;
              aid in world.db.approvals && world.db.approvals[aid] == old(world.db.approvals)[aid]
    {
      hide Run, Later, ApplyProc, ApplyResume, ProcStep, ResumeStep;
      Interfere(AClick(k, r), slot.others, x);
      StillThere(old(world), world, world.clicks[k].aid);
      scheduled := world.clicks[k].target.Approved?;
      AdvanceClick(k, Spawn(r));
    }

    method Reread(k: nat, r: nat, slot: Slot, ghost x: Script) returns (answer: Answer)
      requires Valid() && k in world.clicks && world.clicks[k].pc.CReread? && r !in world.resumes
      requires slot.commits || !Smooth(x)
      requires world.clicks[k].aid in world.db.approvals && !world.db.approvals[world.clicks[k].aid].status.Pending?
      modifies this, store
      ensures Valid() && Scripted(old(log), log, AClick(k, r), x) && world.cfg == old(world.cfg)
      ensures k in world.clicks && r !in world.resumes
      ensures world.clicks[k] == old(world.clicks[k]).(pc := CStop(answer))
      ensures var c, row := old(world.clicks[k]), old(world.db.approvals)[old(world.clicks[k]).aid];
              && c.aid in world.db.approvals && world.db.approvals[c.aid] == row
              && answer == (if !slot.commits then Died else if row.status == c.target then Duplicate else Illegal)
    {
      hide Run, Later, ApplyProc, ApplyResume, ProcStep, ResumeStep;
      Interfere(AClick(k, r), slot.others, x);
      StillThere(old(world), world, world.clicks[k].aid);
      if !slot.commits {
        AdvanceClick(k, Raise);
        return Died;
      }
      var aid, target := world.clicks[k].aid, world.clicks[k].target;
      var record := store.GetApproval(aid);
      AdvanceClick(k, Ok);
      answer := if record.None? then NotFound else if record.value.status == target then Duplicate else Illegal;
    }

    // ---------- resume_approval ----------

    // pr: what create_pull_request returns, None when it raises.  verdict: what the checks found.
    method ResumeApproval(r: nat, aid: string, pr: Option<(string, int)>, sched: nat -> Slot)
      returns (raised: bool, ghost verdict: Option<Verdict>)
      requires Valid() && r in world.resumes && world.resumes[r] == Resume(aid, RRead)
      modifies this, store
      ensures Valid() && Scripted(old(log), log, AResume(r), ResumeScript(pr, AllCommit(sched)))
      ensures r in world.resumes && world.resumes[r] == Resume(aid, RStop)
      ensures sched(0).commits && sched(1).commits && sched(2).commits ==> verdict.Some?
      ensures old(Ready(world, aid)) && sched(0).commits && sched(1).commits ==>
                verdict == Some(Go(old(BundleFor(world, aid))))
      ensures raised == Raises(verdict, pr, sched)
      ensures Entered(world.hist.starts, aid, verdict, sched)
    {
      hide Run, Judge, Gate, NotStarted, Later, Ready, BundleFor, ApplyProc, ApplyClick, ApplyResume, Outcome;
      ghost var x := ResumeScript(pr, AllCommit(sched));
      var approval := LoadApproval(r, aid, sched(0), x);
      if approval.None? {
        return true, None;
      }
      if old(Ready(world, aid)) { ReadyStays(old(world), world, aid); }
      var incident, row, found := FindByApproval(r, aid, approval.value, sched(1), x);
      if !found {
        incident, row := FindByIncident(r, aid, approval.value, sched(2), x);
      }
      if row.None? {
        return true, None;
      }
      raised, verdict := Decide(r, aid, approval.value, incident, row.value, pr, sched, x);
    }

    // None: the read raised; no scheduled resume finds its approval missing.
    method LoadApproval(r: nat, aid: string, slot: Slot, ghost x: Script) returns (approval: Option<Approval>)
      requires Valid() && x.ResumeScript? && r in world.resumes && world.resumes[r] == Resume(aid, RRead)
      requires slot.commits || !Smooth(x)
      modifies this, store
      ensures Valid() && Scripted(old(log), log, AResume(r), x)
      ensures r in world.resumes && NotStarted(world.hist.starts, aid) && (approval.Some? <==> slot.commits)
      ensures Later(old(world), world)
      ensures world.resumes[r] == Resume(aid, if approval.Some? then RByApproval(approval.value) else RStop)
    {
      hide Run, NotStarted, Later, Reachable;
      Interfere(AResume(r), slot.others, x);
      Reaches();
      EarlyNotStarted(world, r);
      ResumeIsLater(world, r, if slot.commits then Ok else Raise);
      LaterTrans(old(world), world, ApplyResume(world, r, if slot.commits then Ok else Raise));
      if slot.commits {
        approval := store.GetApproval(aid);
        AdvanceResume(r, Ok);
      } else {
        approval := None;
        AdvanceResume(r, Raise);
      }
    }

    // Not found: no pipeline carries the approval id.  Found without a row: the read raised.
    method FindByApproval(r: nat, aid: string, a: Approval, slot: Slot, ghost x: Script)
      returns (incident: string, row: Option<Pipeline>, found: bool)
      requires Valid() && x.ResumeScript? && r in world.resumes && world.resumes[r] == Resume(aid, RByApproval(a))
      requires slot.commits || !Smooth(x)
      modifies this, store
      ensures Valid() && Scripted(old(log), log, AResume(r), x)
      ensures r in world.resumes && NotStarted(world.hist.starts, aid)
      ensures found && row.None? <==> !slot.commits
      ensures old(Ready(world, aid)) && slot.commits ==>
                found && row.Some? && Gate(a, row.value) == Go(old(BundleFor(world, aid)))
      ensures world.resumes[r] == Resume(aid, if !found then RByIncident(a)
                                              else if row.None? then RStop else Judge(a, incident, row.value))
    {
      hide Run, Judge, NotStarted, Later, Ready, BundleFor, Gate, Reachable;
      Interfere(AResume(r), slot.others, x);
      Reaches();
      EarlyNotStarted(world, r);
      ghost var only := NeverAmbiguous(world, aid);
      if old(Ready(world, aid)) {
        ReadyStays(old(world), world, aid);
        ReadyGoes(world, r, only);
      }
      var answer, ambiguous := store.GetByApprovalId(aid);
      if !slot.commits || ambiguous {
        AdvanceResume(r, Raise);
        return "", None, true;
      }
      AdvanceResume(r, Row(answer));
      if answer.None? {
        return "", None, false;
      }
      row := store.GetByIncident(answer.value);
      return answer.value, row, true;
    }

    method FindByIncident(r: nat, aid: string, a: Approval, slot: Slot, ghost x: Script)
      returns (incident: string, row: Option<Pipeline>)
      requires Valid() && x.ResumeScript? && r in world.resumes && world.resumes[r] == Resume(aid, RByIncident(a))
      requires slot.commits || !Smooth(x)
      modifies this, store
      ensures Valid() && Scripted(old(log), log, AResume(r), x)
      ensures r in world.resumes && NotStarted(world.hist.starts, aid) && (row.Some? <==> slot.commits)
      ensures world.resumes[r] == Resume(aid, if row.None? then RStop else Judge(a, incident, row.value))
    {
      hide Run, Later, Judge, NotStarted;
      Interfere(AResume(r), slot.others, x);
      Reaches();
      EarlyNotStarted(world, r);
      incident, row := a.incident, None;
      if slot.commits {
        row := store.GetByIncident(incident);
        AdvanceResume(r, Ok);
      } else {
        AdvanceResume(r, Raise);
      }
    }

    method Decide(r: nat, aid: string, a: Approval, incident: string, row: Pipeline,
                  pr: Option<(string, int)>, sched: nat -> Slot, ghost x: Script)
      returns (raised: bool, ghost verdict: Option<Verdict>)
      requires Valid() && x == ResumeScript(pr, AllCommit(sched))
      requires r in world.resumes && world.resumes[r] == Resume(aid, Judge(a, incident, row))
      requires NotStarted(world.hist.starts, aid)
      modifies this, store
      ensures Valid() && Scripted(old(log), log, AResume(r), x)
      ensures r in world.resumes && world.resumes[r] == Resume(aid, RStop)
      ensures verdict == Some(Gate(a, row)) && raised == Raises(verdict, pr, sched)
      ensures Entered(world.hist.starts, aid, verdict, sched)
      ensures Gate(a, row).Go? && sched(3).commits ==> Outcome(world.db, incident, pr, sched)
    {
      hide Run, Later, UpdatePipeline, FoundByApproval, NotStarted, Outcome;
      verdict := Some(Gate(a, row));
      if row.status.Completed? || row.status.Mutating? {
        return false, verdict;
      }
      if a.status.Rejected? {
        raised := RejectRow(r, incident, sched(3), x);
        return;
      }
      if !a.status.Approved? || row.context.None? || row.proposal.None? || row.validation.None? {
        return true, verdict;
      }
      var c, p, v := row.context.value, row.proposal.value, row.validation.value;
      if a.proposalId != p.id || a.commit != p.commit || c.commit != p.commit || !p.isValid
         || !p.status.Proposed? || !v.status.Passed? || v.exitCode != Some(0) || v.proposalId != p.id {
        return true, verdict;
      }
      assert world.resumes[r].pc == RMutating(incident, a, Bundle(c, p, v));
      raised := StoreMutating(r, aid, incident, a, Bundle(c, p, v), sched(3), x);
      if raised { return; }
      raised := Mutate(r, aid, incident, a, Bundle(c, p, v), pr, sched, x);
    }

    // The reviewer-rejected branch; by RejectBranchIsDead no scheduled resume takes it.
    method RejectRow(r: nat, incident: string, slot: Slot, ghost x: Script) returns (raised: bool)
      requires Valid() && x.ResumeScript? && r in world.resumes && world.resumes[r].pc.RReject?
      requires world.resumes[r].pc.incident == incident && (slot.commits || !Smooth(x))
      modifies this, store
      ensures Valid() && Scripted(old(log), log, AResume(r), x)
      ensures r in world.resumes && raised == !slot.commits
      ensures world.resumes[r] == old(world.resumes[r]).(pc := RStop)
      ensures !raised && incident in world.db.pipelines ==>
                world.db.pipelines[incident].status.PipelineRejected?
                && world.db.pipelines[incident].cause == Some(ReviewerRejected)
    {
      hide Run, Later;
      Interfere(AResume(r), slot.others, x);
      raised := !slot.commits;
      if raised {
        AdvanceResume(r, Raise);
      } else {
        var _ := store.UpdatePipelineState(incident, NO_CHANGE.(status := PipelineRejected,
                                                                cause := Some(ReviewerRejected)));
        AdvanceResume(r, Ok);
      }
    }

    method StoreMutating(r: nat, aid: string, incident: string, a: Approval, b: Bundle, slot: Slot, ghost x: Script)
      returns (raised: bool)
      requires Valid() && x.ResumeScript? && (slot.commits || !Smooth(x))
      requires r in world.resumes && world.resumes[r] == Resume(aid, RMutating(incident, a, b))
      modifies this, store
      ensures Valid() && Scripted(old(log), log, AResume(r), x)
      ensures r in world.resumes && raised == !slot.commits && NotStarted(world.hist.starts, aid)
      ensures world.resumes[r] == Resume(aid, if raised then RStop else RCall(incident, a, b))
    {
      hide Run, Later, NotStarted, UpdatePipeline;
      Interfere(AResume(r), slot.others, x);
      Reaches();
      EarlyNotStarted(world, r);
      raised := !slot.commits;
      if raised {
        AdvanceResume(r, Raise);
      } else {
        var _ := store.UpdatePipelineState(incident, NO_CHANGE.(status := Mutating));
        AdvanceResume(r, Ok);
      }
    }

    // create_pull_request and what is stored after it.
    method Mutate(r: nat, aid: string, incident: string, a: Approval, b: Bundle, pr: Option<(string, int)>,
                  sched: nat -> Slot, ghost x: Script)
      returns (raised: bool)
      requires Valid() && x == ResumeScript(pr, AllCommit(sched))
      requires r in world.resumes && world.resumes[r] == Resume(aid, RCall(incident, a, b))
      modifies this, store
      ensures Valid() && Scripted(old(log), log, AResume(r), x)
      ensures r in world.resumes && world.resumes[r] == Resume(aid, RStop)
      ensures raised == ((pr.None? || !sched(5).commits) && !sched(6).commits)
      ensures exists n :: 0 <= n < |world.hist.starts| && world.hist.starts[n] == Start(aid, a, b)
      ensures Outcome(world.db, incident, pr, sched)
    {
      hide Run, Later, UpdatePipeline, Judge, FoundByApproval, ApplyResume, ApplyProc, ApplyClick;
      ghost var n := Enter(r, aid, incident, a, b, sched(4).others, x);
      var completed := false;
      Return(r, aid, incident, pr, x);
      if pr.Some? {
        completed := StoreCompleted(r, incident, pr.value.0, pr.value.1, sched(5), x);
      }
      raised := false;
      if !completed {
        raised := StoreFailed(r, incident, sched(6), x);
      }
    }

    // The call, and what the other tasks do while it runs.
    method Enter(r: nat, aid: string, incident: string, a: Approval, b: Bundle, others: seq<Event>, ghost x: Script)
      returns (ghost n: nat)
      requires Valid() && r in world.resumes && world.resumes[r] == Resume(aid, RCall(incident, a, b))
      modifies this, store
      ensures Valid() && Scripted(old(log), log, AResume(r), x)
      ensures r in world.resumes && world.resumes[r] == Resume(aid, RRunning(incident))
      ensures n < |world.hist.starts| && world.hist.starts[n] == Start(aid, a, b)
    {
      hide Run, Later;
      n := |world.hist.starts|;
      AdvanceResume(r, Ok);
      assert world.hist.starts[n] == Start(aid, a, b);
      Interfere(AResume(r), others, x);
    }

    // It returns the pull request, or raises.
    method Return(r: nat, aid: string, incident: string, pr: Option<(string, int)>, ghost x: Script)
      requires Valid() && x.ResumeScript? && x.pr == pr
      requires r in world.resumes && world.resumes[r] == Resume(aid, RRunning(incident))
      modifies this
      ensures Valid() && Scripted(old(log), log, AResume(r), x) && world.hist == old(world.hist)
      ensures r in world.resumes
      ensures world.resumes[r] == Resume(aid, if pr.Some? then RComplete(incident, pr.value.0, pr.value.1)
                                              else RFail(incident))
    {
      hide Run, Later;
      AdvanceResume(r, if pr.Some? then Opened(pr.value.0, pr.value.1) else Raise);
    }

    // Inside the try block: an exception here marks the pipeline FAILED although the PR is open.
    method StoreCompleted(r: nat, incident: string, mutationId: string, prNumber: int, slot: Slot, ghost x: Script)
      returns (completed: bool)
      requires Valid() && x.ResumeScript? && (slot.commits || !Smooth(x))
      requires r in world.resumes && world.resumes[r].pc == RComplete(incident, mutationId, prNumber)
      modifies this, store
      ensures Valid() && Scripted(old(log), log, AResume(r), x) && old(world.hist.starts) <= world.hist.starts
      ensures r in world.resumes && completed == slot.commits
      ensures world.resumes[r] == old(world.resumes[r]).(pc := if completed then RStop else RFail(incident))
      ensures completed ==> incident in world.db.pipelines && world.db.pipelines[incident].status.Completed?
                            && world.db.pipelines[incident].mutationId == Some(mutationId)
                            && world.db.pipelines[incident].prNumber == Some(prNumber)
    {
      hide Run, Later;
      Interfere(AResume(r), slot.others, x);
      Reaches();
      BusyRow(world, r);
      completed := slot.commits;
      if completed {
        var _ := store.UpdatePipelineState(incident, NO_CHANGE.(status := Completed, mutationId := Some(mutationId),
                                                                prNumber := Some(prNumber)));
      }
      AdvanceResume(r, if completed then Ok else Raise);
    }

    // The except clause.
    method StoreFailed(r: nat, incident: string, slot: Slot, ghost x: Script) returns (raised: bool)
      requires Valid() && x.ResumeScript? && (slot.commits || !Smooth(x))
      requires r in world.resumes && world.resumes[r].pc == RFail(incident)
      modifies this, store
      ensures Valid() && Scripted(old(log), log, AResume(r), x) && old(world.hist.starts) <= world.hist.starts
      ensures r in world.resumes && raised == !slot.commits
      ensures world.resumes[r] == old(world.resumes[r]).(pc := RStop)
      ensures !raised ==> incident in world.db.pipelines && world.db.pipelines[incident].status.PipelineFailed?
                          && world.db.pipelines[incident].cause == Some(MutationFailed)
    {
      hide Run, Later;
      Interfere(AResume(r), slot.others, x);
      Reaches();
      BusyRow(world, r);
      raised := !slot.commits;
      if raised {
        AdvanceResume(r, Raise);
      } else {
        var _ := store.UpdatePipelineState(incident, NO_CHANGE.(status := PipelineFailed,
                                                                cause := Some(MutationFailed)));
        AdvanceResume(r, Ok);
      }
    }
  }
}
