/** What every run of the in-memory store says about its jobs: each is as the last
    operation that was accepted for it left it. */
module SchedulerHistory {
  import opened Basics
  import opened Jobs
  import opened Scheduler
  import Ids
  import R = Routing

  /** The operation is one for this job, and the job is in a state that allows it. */
  ghost predicate Accepted(s: State, e: Event, id: string) {
    match e.op
    case PutJob(v, _) => id == Ids.Format("job", v)
    case Next(_, _) => e.got == Some(id)
    case Hand(job, w, _) =>
      id == job && w in s.workers && id in s.jobs && R.Suits(s.workers[w].workerType, s.jobs[id].workerType)
    case Finish(w, job, _, _, _) => id == job && id in s.jobs && s.jobs[id].worker == w
    case Accept(job, _, _, _) => id == job && id in s.jobs && s.jobs[id].status == WaitingApproval
    case Refuse(job, _, _, _) => id == job && id in s.jobs && s.jobs[id].status == WaitingApproval
    case _ => false
  }

  /** What the job shows right after the operation. */
  predicate Tells(op: Op, job: Job) {
    match op
    case PutJob(_, made) => job == made
    case Next(w, now) => job.status == Running && job.worker == w && job.startedAt == Some(now)
    case Hand(_, w, now) => job.status == Running && job.worker == w && job.startedAt == Some(now)
    case Finish(w, _, output, success, now) =>
      job.status == (if success then Success else Failed) && job.worker == w && job.output == output && job.finishedAt == Some(now)
    case Accept(_, who, comment, now) =>
      job.status == Pending && job.approval == Approved && job.approvedBy == who && job.approvedAt == Some(now) && job.comment == comment
    case Refuse(_, who, comment, now) =>
      job.status == Cancelled && job.approval == Rejected && job.rejectedBy == who && job.rejectedAt == Some(now) && job.comment == comment
    case _ => false
  }

  ghost predicate AcceptedAt(states: seq<State>, events: seq<Event>, i: int, id: string) {
    0 <= i < |events| && i < |states| && Accepted(states[i], events[i], id)
  }

  ghost predicate LastAccepted(states: seq<State>, events: seq<Event>, n: nat, i: int, id: string) {
    i < n && AcceptedAt(states, events, i, id) && forall j | i < j < n :: !AcceptedAt(states, events, j, id)
  }

  lemma StepTells(s: State, e: Event, t: State, id: string)
    requires Step(s, e.op, e.got, t)
    ensures if Accepted(s, e, id) then id in t.jobs && Tells(e.op, t.jobs[id])
            else (id in t.jobs <==> id in s.jobs) && (id in s.jobs ==> t.jobs[id] == s.jobs[id])
  {
    if e.op.Hand? && e.op.workerId in s.workers && e.op.jobId in s.jobs {
      R.CanRunExactly(s.workers[e.op.workerId].workerType, s.jobs[e.op.jobId].workerType);
    }
  }

  lemma StillLast(states: seq<State>, events: seq<Event>, n: nat, id: string)
    requires n > 0 && !AcceptedAt(states, events, n - 1, id)
    ensures forall i :: LastAccepted(states, events, n - 1, i, id) ==> LastAccepted(states, events, n, i, id)
  {
  }

  /** Over any run, after any number of operations: a job is stored exactly if some
      operation was accepted for it, and then it shows the last such operation. */
  lemma {:induction false} JobsFollowEvents(states: seq<State>, events: seq<Event>, n: nat, id: string) returns (i: int)
    requires Run(states, events) && n < |states|
    ensures id in states[n].jobs ==> LastAccepted(states, events, n, i, id) && Tells(events[i].op, states[n].jobs[id])
    ensures id !in states[n].jobs ==> forall j | 0 <= j < n :: !AcceptedAt(states, events, j, id)
  {
    i := 0;
    if n > 0 {
      i := JobsFollowEvents(states, events, n - 1, id);
      assert StepsAt(states, events, n - 1);
      StepTells(states[n - 1], events[n - 1], states[n], id);
      if AcceptedAt(states, events, n - 1, id) { i := n - 1; } else { StillLast(states, events, n, id); }
    }
  }

  /** So a finished job that was not created finished has the status, the output and
      the time of the last accepted report, by the worker it is assigned to. */
  lemma FinishedJobs(states: seq<State>, events: seq<Event>, n: nat, id: string) returns (i: int)
    requires Run(states, events) && n < |states| && id in states[n].jobs && states[n].jobs[id].status in {Success, Failed}
    ensures LastAccepted(states, events, n, i, id)
    ensures var job, op := states[n].jobs[id], events[i].op;
            (op.PutJob? && op.job == job) ||
            (op.Finish? && op.workerId == job.worker && op.output == job.output && Some(op.now) == job.finishedAt &&
             (op.success <==> job.status == Success))
  {
    i := JobsFollowEvents(states, events, n, id);
  }

  /** A known worker that asks is given nothing exactly when no queued job suits it,
      and otherwise one of the oldest such jobs. */
  lemma NextServes(states: seq<State>, events: seq<Event>, i: nat)
    requires Run(states, events) && i < |events| && events[i].op.Next? && events[i].op.workerId in states[i].workers
    ensures var jobs, workerType, got := states[i].jobs, states[i].workers[events[i].op.workerId].workerType, events[i].got;
            (got.None? <==> forall id :: !Waits(jobs, workerType, id)) &&
            (got.Some? ==> Waits(jobs, workerType, got.value) &&
                           forall id | Waits(jobs, workerType, id) :: jobs[got.value].createdAt <= jobs[id].createdAt)
  {
    assert StepsAt(states, events, i);
    WaitsIsEligible(states[i].jobs, states[i].workers[events[i].op.workerId].workerType);
  }
}
