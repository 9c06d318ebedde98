/** The `jobs` table: its rows and the guarded statements of the SQL repository.
    Each statement is one atomic step; the functions give its effect on the rows
    and the methods of `JobTable` perform it in place. A job id is the counter
    value that `Ids.Format` prints. */
module Jobs {
  import opened Basics

  datatype Status = Pending | WaitingApproval | Queued | Running | Success | Failed | Cancelled

  datatype Approval = NotRequired | AwaitingDecision | Approved | Rejected

  datatype Job = Job(
    name: string, workerType: string, command: string,
    status: Status, approvalRequired: bool, approval: Approval, comment: string,
    approvedBy: string, approvedAt: Option<int>, rejectedBy: string, rejectedAt: Option<int>,
    sourceType: string, sourceId: string, key: string, worker: string, output: string,
    createdAt: int, updatedAt: int, startedAt: Option<int>, finishedAt: Option<int>)

  type Rows = map<nat, Job>

  /** The unique index covers non-empty keys only; the id is the primary key. */
  predicate Insertable(rows: Rows, id: nat, key: string) {
    id !in rows && (key == "" || forall other | other in rows :: rows[other].key != key)
  }

  function InsertRow(rows: Rows, id: nat, job: Job, now: int): Rows {
    rows[id := job.(createdAt := now, updatedAt := now)]
  }

  function ApproveRow(rows: Rows, id: nat, who: string, comment: string, now: int): Rows {
    if id in rows && rows[id].status == WaitingApproval then
      rows[id := rows[id].(status := Pending, approval := Approved, approvedBy := who,
                           approvedAt := Some(now), comment := comment, updatedAt := now)]
    else rows
  }

  function RejectRow(rows: Rows, id: nat, who: string, comment: string, now: int): Rows {
    if id in rows && rows[id].status == WaitingApproval then
      rows[id := rows[id].(status := Cancelled, approval := Rejected, rejectedBy := who,
                           rejectedAt := Some(now), comment := comment, updatedAt := now)]
    else rows
  }

  /** Assignment has no guard on the status. */
  function AssignRow(rows: Rows, id: nat, worker: string, now: int): Rows {
    if id in rows then
      rows[id := rows[id].(status := Running, worker := worker, startedAt := Some(now), updatedAt := now)]
    else rows
  }

  predicate Completable(rows: Rows, id: nat, worker: string) {
    id in rows && rows[id].worker == worker && rows[id].status == Running
  }

  function CompleteRow(rows: Rows, id: nat, worker: string, output: string, success: bool, now: int): Rows {
    if Completable(rows, id, worker) then
      rows[id := rows[id].(status := if success then Success else Failed, output := output,
                           finishedAt := Some(now), updatedAt := now)]
    else rows
  }

  function DeleteRow(rows: Rows, id: nat): Rows {
    rows - {id}
  }

  /** What a read returns: every column except the idempotency key. */
  function Read(job: Job): Job {
    job.(key := "")
  }

  // ---- What the statements mean, column by column ----

  /** What the job is. */
  predicate SameDescription(a: Job, b: Job) {
    a.name == b.name && a.workerType == b.workerType && a.command == b.command && a.key == b.key &&
    a.approvalRequired == b.approvalRequired && a.sourceType == b.sourceType && a.sourceId == b.sourceId &&
    a.createdAt == b.createdAt
  }

  /** Who decided on it. */
  predicate SameDecision(a: Job, b: Job) {
    a.approval == b.approval && a.comment == b.comment && a.approvedBy == b.approvedBy && a.approvedAt == b.approvedAt &&
    a.rejectedBy == b.rejectedBy && a.rejectedAt == b.rejectedAt
  }

  /** Who works on it, and what came of it. */
  predicate SameWork(a: Job, b: Job) {
    a.worker == b.worker && a.startedAt == b.startedAt
  }

  predicate SameResult(a: Job, b: Job) {
    a.output == b.output && a.finishedAt == b.finishedAt
  }

  predicate IsStarted(was: Job, job: Job, worker: string, at: int) {
    job.status == Running && job.worker == worker && job.startedAt == Some(at) && job.updatedAt == at &&
    SameDescription(job, was) && SameDecision(job, was) && SameResult(job, was)
  }

  predicate IsFinished(was: Job, job: Job, output: string, success: bool, at: int) {
    (success ==> job.status == Success) && (!success ==> job.status == Failed) &&
    job.output == output && job.finishedAt == Some(at) && job.updatedAt == at &&
    SameDescription(job, was) && SameDecision(job, was) && SameWork(job, was)
  }

  predicate IsApproved(was: Job, job: Job, who: string, comment: string, at: int) {
    job.status == Pending && job.approval == Approved && job.approvedBy == who && job.approvedAt == Some(at) &&
    job.comment == comment && job.rejectedBy == was.rejectedBy && job.rejectedAt == was.rejectedAt && job.updatedAt == at &&
    SameDescription(job, was) && SameWork(job, was) && SameResult(job, was)
  }

  predicate IsRejected(was: Job, job: Job, who: string, comment: string, at: int) {
    job.status == Cancelled && job.approval == Rejected && job.rejectedBy == who && job.rejectedAt == Some(at) &&
    job.comment == comment && job.approvedBy == was.approvedBy && job.approvedAt == was.approvedAt && job.updatedAt == at &&
    SameDescription(job, was) && SameWork(job, was) && SameResult(job, was)
  }

  /** At most the row of `id` differs. */
  predicate OnlyRow(before: Rows, after: Rows, id: nat) {
    after.Keys == before.Keys && forall other | other in before && other != id :: after[other] == before[other]
  }

  predicate Carries(rows: Rows, id: nat, key: string) {
    id in rows && rows[id].key == key
  }

  class JobTable {
    var rows: Rows
    var counter: nat

    constructor ()
      ensures rows == map[] && counter == 0
    {
      rows, counter := map[], 0;
    }

    method NextId() returns (id: nat)
      modifies this`counter
      ensures counter == old(counter) + 1 && id == counter
    {
      counter := counter + 1;
      id := counter;
    }

    method FindByKey(key: string) returns (found: Option<nat>)
      ensures found.Some? ==> found.value in rows && rows[found.value].key == key
      ensures found.None? ==> forall id | id in rows :: rows[id].key != key
    {
      var left := rows.Keys;
      while left != {}
        invariant left <= rows.Keys
        invariant forall id | id in rows && id !in left :: rows[id].key != key
      {
        var id :| id in left;
        if rows[id].key == key { return Some(id); }
        left := left - {id};
      }
      found := None;
    }

    method Get(id: nat) returns (job: Option<Job>)
      ensures job == if id in rows then Some(Read(rows[id])) else None
    {
      job := if id in rows then Some(rows[id].(key := "")) else None;
    }

    method Insert(id: nat, job: Job, now: int) returns (ok: bool)
      modifies this`rows
      ensures ok == Insertable(old(rows), id, job.key)
      ensures ok <==> id !in old(rows) && !(job.key != "" && exists other | other in old(rows) :: old(rows)[other].key == job.key)
      ensures rows == if ok then InsertRow(old(rows), id, job, now) else old(rows)
      ensures ok ==> OnlyRow(old(rows)[id := rows[id]], rows, id) && rows[id] == job.(createdAt := now, updatedAt := now)
    {
      if id in rows { return false; }
      if job.key != "" {
        var clash := FindByKey(job.key);
        if clash.Some? { return false; }
      }
      rows := rows[id := job.(createdAt := now, updatedAt := now)];
      ok := true;
    }

    method Approve(id: nat, who: string, comment: string, now: int) returns (affected: nat)
      modifies this`rows
      ensures rows == ApproveRow(old(rows), id, who, comment, now)
      ensures OnlyRow(old(rows), rows, id)
      ensures affected == if id in old(rows) && old(rows)[id].status == WaitingApproval then 1 else 0
      ensures if affected == 1 then IsApproved(old(rows)[id], rows[id], who, comment, now) else rows == old(rows)
    {
      affected := 0;
      if id in rows && rows[id].status == WaitingApproval {
        rows := rows[id := rows[id].(status := Pending, approval := Approved, approvedBy := who,
                                     approvedAt := Some(now), comment := comment, updatedAt := now)];
        affected := 1;
      }
    }

    method Reject(id: nat, who: string, comment: string, now: int) returns (affected: nat)
      modifies this`rows
      ensures rows == RejectRow(old(rows), id, who, comment, now)
      ensures OnlyRow(old(rows), rows, id)
      ensures affected == if id in old(rows) && old(rows)[id].status == WaitingApproval then 1 else 0
      ensures if affected == 1 then IsRejected(old(rows)[id], rows[id], who, comment, now) else rows == old(rows)
    {
      affected := 0;
      if id in rows && rows[id].status == WaitingApproval {
        rows := rows[id := rows[id].(status := Cancelled, approval := Rejected, rejectedBy := who,
                                     rejectedAt := Some(now), comment := comment, updatedAt := now)];
        affected := 1;
      }
    }

    method Assign(id: nat, worker: string, now: int)
      modifies this`rows
      ensures rows == AssignRow(old(rows), id, worker, now)
      ensures OnlyRow(old(rows), rows, id)
      ensures id in old(rows) ==> IsStarted(old(rows)[id], rows[id], worker, now)
    {
      if id in rows {
        rows := rows[id := rows[id].(status := Running, worker := worker, startedAt := Some(now), updatedAt := now)];
      }
    }

    method Complete(worker: string, id: nat, output: string, success: bool, now: int) returns (affected: nat)
      modifies this`rows
      ensures rows == CompleteRow(old(rows), id, worker, output, success, now)
      ensures OnlyRow(old(rows), rows, id)
      ensures affected == if id in old(rows) && old(rows)[id].worker == worker && old(rows)[id].status == Running then 1 else 0
      ensures if affected == 1 then IsFinished(old(rows)[id], rows[id], output, success, now) else rows == old(rows)
    {
      affected := 0;
      if id in rows && rows[id].worker == worker && rows[id].status == Running {
        rows := rows[id := rows[id].(status := if success then Success else Failed, output := output,
                                     finishedAt := Some(now), updatedAt := now)];
        affected := 1;
      }
    }

    method Delete(id: nat)
      modifies this`rows
      ensures rows == DeleteRow(old(rows), id)
      ensures forall other :: other in rows <==> other in old(rows) && other != id
      ensures forall other | other in rows :: rows[other] == old(rows)[other]
    {
      rows := rows - {id};
    }

    /** CreateJob with no other call in between: an existing job under the key, or a
        new row under the next id. */
    method CreateJob(job: Job, now: int) returns (result: Option<(nat, Job)>)
      modifies this
      ensures job.key != "" && (exists id :: Carries(old(rows), id, job.key)) ==>
                rows == old(rows) && counter == old(counter) && result.Some? &&
                Carries(rows, result.value.0, job.key) && result.value.1 == Read(rows[result.value.0])
      ensures !(job.key != "" && exists id :: Carries(old(rows), id, job.key)) ==>
                counter == old(counter) + 1 &&
                if counter in old(rows) then rows == old(rows) && result.None?
                else rows == InsertRow(old(rows), counter, job, now) && result == Some((counter, rows[counter]))
    {
      var found: Option<nat> := None;
      if job.key != "" { found := FindByKey(job.key); }
      if found.Some? {
        assert Carries(rows, found.value, job.key);
        return Some((found.value, rows[found.value].(key := "")));
      }
      assert job.key != "" ==> forall id :: !Carries(rows, id, job.key);
      var id := NextId();
      var ok := Insert(id, job, now);
      if !ok {
        if job.key != "" { found := FindByKey(job.key); }
        return if found.Some? then Some((found.value, rows[found.value].(key := ""))) else None;
      }
      result := Some((id, rows[id]));
    }
  }
}
