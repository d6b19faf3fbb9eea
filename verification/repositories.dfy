// The approval and pipeline tables.  Each function is what one committed repository call does to
// the tables; class Store is the repositories themselves, proved against those functions.
//
// Pipelines are keyed by incident id: the primary key is always "pipe_" + incident_id, so it and
// the unique incident column are one and the same constraint.
module Repositories {
  import opened Common
  import opened Domain

  datatype Db = Db(approvals: map<string, Approval>, pipelines: map<string, Pipeline>)

  predicate ProposalTaken(db: Db, proposalId: string) {
    exists a :: a in db.approvals && db.approvals[a].proposalId == proposalId
  }

  // None is an integrity error: the primary key or the unique proposal id is already present.
  function InsertApproval(db: Db, id: string, row: Approval): Option<Db> {
    if id in db.approvals || ProposalTaken(db, row.proposalId) then None
    else Some(db.(approvals := db.approvals[id := row]))
  }

  predicate Undecided(db: Db, id: string) {
    id in db.approvals && db.approvals[id].status.Pending?
  }

  // The conditional update of record_decision.  None: no row was pending under this id.
  function Decide(db: Db, id: string, target: ApprovalStatus, reviewer: string,
                  reason: Option<string>, at: int): Option<Db>
  {
    if Undecided(db, id) then
      Some(db.(approvals := db.approvals[id := db.approvals[id].(status := target, reviewer := Some(reviewer),
                                                                reason := reason, decidedAt := Some(at))]))
    else None
  }

  // The conditional update of expire_approval; a row that is not pending is left alone.
  function Expire(db: Db, id: string): Db {
    if Undecided(db, id) then
      db.(approvals := db.approvals[id := db.approvals[id].(status := Expired)])
    else db
  }

  function InsertPipeline(db: Db, incident: string, row: Pipeline): Option<Db> {
    if incident in db.pipelines then None
    else Some(db.(pipelines := db.pipelines[incident := row]))
  }

  datatype Update = Update(status: PipelineStatus, diagnosisId: Option<string>, proposalId: Option<string>,
                           approvalId: Option<string>, mutationId: Option<string>, prNumber: Option<int>,
                           cause: Option<Cause>, context: Option<Context>, proposal: Option<Proposal>,
                           validation: Option<Validation>)

  const NO_CHANGE: Update := Update(Received, None, None, None, None, None, None, None, None, None)

  function Patch(row: Pipeline, u: Update): Pipeline {
    Pipeline(row.commit, u.status, Keep(u.diagnosisId, row.diagnosisId), Keep(u.proposalId, row.proposalId),
             Keep(u.approvalId, row.approvalId), Keep(u.mutationId, row.mutationId),
             Keep(u.prNumber, row.prNumber), Keep(u.cause, row.cause), Keep(u.context, row.context),
             Keep(u.proposal, row.proposal), Keep(u.validation, row.validation))
  }

  // A column whose argument is missing keeps its value.
  ghost predicate Assigned<T>(before: Option<T>, argument: Option<T>, after: Option<T>) {
    (argument.Some? ==> after == argument) && (argument.None? ==> after == before)
  }

  ghost predicate Updated(before: Pipeline, u: Update, after: Pipeline) {
    && after.commit == before.commit && after.status == u.status
    && Assigned(before.diagnosisId, u.diagnosisId, after.diagnosisId)
    && Assigned(before.proposalId, u.proposalId, after.proposalId)
    && Assigned(before.approvalId, u.approvalId, after.approvalId)
    && Assigned(before.mutationId, u.mutationId, after.mutationId)
    && Assigned(before.prNumber, u.prNumber, after.prNumber) && Assigned(before.cause, u.cause, after.cause)
    && Assigned(before.context, u.context, after.context) && Assigned(before.proposal, u.proposal, after.proposal)
    && Assigned(before.validation, u.validation, after.validation)
  }

  // An update of a missing row changes nothing.
  function UpdatePipeline(db: Db, incident: string, u: Update): Db {
    if incident in db.pipelines then
      db.(pipelines := db.pipelines[incident := Patch(db.pipelines[incident], u)])
    else db
  }

  // What get_by_approval_id may answer: the only row that carries the id, or none.  With several
  // such rows no answer qualifies, and the query raises.
  predicate FoundByApproval(db: Db, id: string, answer: Option<string>) {
    && (answer.Some? ==> answer.value in db.pipelines && db.pipelines[answer.value].approvalId == Some(id))
    && (forall i :: i in db.pipelines && db.pipelines[i].approvalId == Some(id) ==> answer == Some(i))
  }

  class Store {
    var approvals: map<string, Approval>
    var pipelines: map<string, Pipeline>

    function Tables(): Db
      reads this
    {
      Db(approvals, pipelines)
    }

    constructor ()
      ensures Tables() == Db(map[], map[])
    {
      approvals, pipelines := map[], map[];
    }

    method CreateApproval(id: string, row: Approval) returns (ok: bool)
      modifies this
      ensures ok <==> InsertApproval(old(Tables()), id, row).Some?
      ensures Tables() == if ok then InsertApproval(old(Tables()), id, row).value else old(Tables())
      ensures ok <==> id !in old(approvals) && forall a :: a in old(approvals) ==> old(approvals)[a].proposalId != row.proposalId
      ensures approvals == (if ok then old(approvals)[id := row] else old(approvals)) && pipelines == old(pipelines)
    {
      ok := id !in approvals && !ProposalTaken(Tables(), row.proposalId);
      if ok {
        approvals := approvals[id := row];
      }
    }

    method GetApproval(id: string) returns (row: Option<Approval>)
      ensures row == if id in approvals then Some(approvals[id]) else None
    {
      row := if id in approvals then Some(approvals[id]) else None;
    }

    // The compare-and-set half of record_decision.
    method TryDecide(id: string, target: ApprovalStatus, reviewer: string, reason: Option<string>, at: int)
      returns (won: bool)
      modifies this
      ensures won <==> Undecided(old(Tables()), id)
      ensures won ==> Tables() == Decide(old(Tables()), id, target, reviewer, reason, at).value
      ensures !won ==> Tables() == old(Tables())
      ensures won <==> id in old(approvals) && old(approvals)[id].status.Pending?
      ensures won ==>
                var row := old(approvals)[id];
                approvals == old(approvals)[id := Approval(row.incident, row.proposalId, row.commit, target, row.expiresAt,
                                                           Some(reviewer), reason, Some(at))]
    {
      won := id in approvals && approvals[id].status.Pending?;
      if won {
        approvals := approvals[id := approvals[id].(status := target, reviewer := Some(reviewer),
                                                    reason := reason, decidedAt := Some(at))];
      }
    }

    // The duplicate flag is set only when an earlier call already stored the same decision.
    method RecordDecision(id: string, target: ApprovalStatus, reviewer: string, reason: Option<string>, at: int)
      returns (row: Option<Approval>, isDuplicate: bool)
      modifies this
      ensures Undecided(old(Tables()), id) ==>
                && Tables() == Decide(old(Tables()), id, target, reviewer, reason, at).value && !isDuplicate
                && row == Some(old(approvals)[id].(status := target, reviewer := Some(reviewer), reason := reason,
                                                   decidedAt := Some(at)))
      ensures !Undecided(old(Tables()), id) ==>
                Tables() == old(Tables()) && (isDuplicate <==> row.Some? && row.value.status == target)
      ensures row == if id in approvals then Some(approvals[id]) else None
    {
      var won := TryDecide(id, target, reviewer, reason, at);
      row := GetApproval(id);
      isDuplicate := !won && row.Some? && row.value.status == target;
    }

    method ExpireApproval(id: string) returns (expired: bool)
      modifies this
      ensures expired <==> Undecided(old(Tables()), id)
      ensures Tables() == Expire(old(Tables()), id)
      ensures expired <==> id in old(approvals) && old(approvals)[id].status.Pending?
      ensures approvals == if expired then old(approvals)[id := old(approvals)[id].(status := Expired)] else old(approvals)
    {
      expired := id in approvals && approvals[id].status.Pending?;
      if expired {
        approvals := approvals[id := approvals[id].(status := Expired)];
      }
    }

    method CreatePipeline(incident: string, row: Pipeline) returns (ok: bool)
      modifies this
      ensures ok <==> InsertPipeline(old(Tables()), incident, row).Some?
      ensures Tables() == if ok then InsertPipeline(old(Tables()), incident, row).value else old(Tables())
      ensures ok <==> incident !in old(pipelines)
      ensures pipelines == (if ok then old(pipelines)[incident := row] else old(pipelines)) && approvals == old(approvals)
    {
      ok := incident !in pipelines;
      if ok {
        pipelines := pipelines[incident := row];
      }
    }

    method GetByIncident(incident: string) returns (row: Option<Pipeline>)
      ensures row == if incident in pipelines then Some(pipelines[incident]) else None
    {
      row := if incident in pipelines then Some(pipelines[incident]) else None;
    }

    // scalar_one_or_none: several rows are an exception.
    method GetByApprovalId(id: string) returns (answer: Option<string>, ambiguous: bool)
      ensures ambiguous <==> forall x :: !FoundByApproval(Tables(), id, x)
      ensures !ambiguous ==> FoundByApproval(Tables(), id, answer)
      ensures !ambiguous ==> forall i :: answer == Some(i) <==> i in pipelines && pipelines[i].approvalId == Some(id)
      ensures ambiguous <==> exists i, j :: i in pipelines && j in pipelines && i != j
                                            && pipelines[i].approvalId == Some(id) && pipelines[j].approvalId == Some(id)
    {
      var hits := set i | i in pipelines && pipelines[i].approvalId == Some(id);
      assert forall j :: j in hits <==> j in pipelines && pipelines[j].approvalId == Some(id);
      if hits == {} {
        assert FoundByApproval(Tables(), id, None);
        return None, false;
      }
      var i :| i in hits;
      if hits - {i} == {} {
        assert forall j :: j in hits ==> j in hits - {i} || j == i;
        assert FoundByApproval(Tables(), id, Some(i));
        return Some(i), false;
      }
      var j :| j in hits - {i};
      forall x ensures !FoundByApproval(Tables(), id, x) {
        assert i in hits && j in hits;
      }
      return None, true;
    }

    // Assigns exactly the columns whose argument is not None.
    method UpdatePipelineState(incident: string, u: Update) returns (row: Option<Pipeline>)
      modifies this
      ensures Tables() == UpdatePipeline(old(Tables()), incident, u)
      ensures row == if incident in pipelines then Some(pipelines[incident]) else None
      ensures pipelines.Keys == old(pipelines).Keys && approvals == old(approvals)
      ensures forall i :: i in pipelines && i != incident ==> pipelines[i] == old(pipelines)[i]
      ensures incident in pipelines ==> Updated(old(pipelines)[incident], u, pipelines[incident])
    {
      if incident !in pipelines {
        return None;
      }
      var r := Patch(pipelines[incident], u);
      pipelines := pipelines[incident := r];
      return Some(r);
    }
  }
}
