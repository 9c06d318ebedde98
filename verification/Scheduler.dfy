/** The in-memory store: internal/infrastructure/scheduler/store.go. */
module Scheduler {
  import opened Basics
  import opened Jobs
  import Ids
  import R = Routing

  datatype Worker = Worker(name: string, workerType: string)

  datatype Options = Options(
    status: Option<Status>, approvalRequired: bool, approval: Option<Approval>, comment: string,
    sourceType: string, sourceId: string, worker: string)

  type Table = map<string, Job>

  /** `drawn` holds the numbers that were drawn and not stored under yet: a creation
      reads the clock and draws its number before it takes the lock, so creations
      may overlap. */
  datatype State = State(workers: map<string, Worker>, jobs: Table, counter: nat, drawn: set<nat>)

  // ---- The queue order ----

  predicate Queueing(s: Status) {
    s == Queued || s == Pending
  }

  predicate Eligible(jobs: Table, workerType: string, id: string) {
    id in jobs && Queueing(jobs[id].status) && WorkerCanRunType(workerType, jobs[id].workerType)
  }

  predicate Before(jobs: Table, a: string, b: string)
    requires a in jobs && b in jobs
  {
    jobs[a].createdAt < jobs[b].createdAt || (jobs[a].createdAt == jobs[b].createdAt && Less(a, b))
  }

  /** `id` is the first eligible job by creation time, then by id. */
  predicate IsNext(jobs: Table, workerType: string, id: string) {
    Eligible(jobs, workerType, id) &&
    forall other | other in jobs :: Eligible(jobs, workerType, other) && other != id ==> Before(jobs, id, other)
  }

  lemma BeforeOrder(jobs: Table, a: string, b: string, c: string)
    requires a in jobs && b in jobs && c in jobs
    ensures a == b || Before(jobs, a, b) || Before(jobs, b, a)
    ensures !(Before(jobs, a, b) && Before(jobs, b, a))
    ensures Before(jobs, a, b) && Before(jobs, b, c) ==> Before(jobs, a, c)
  {
    LessTotal(a, b);
    if Less(a, b) && Less(b, c) { LessTransitive(a, b, c); }
  }

  // ---- The operations ----

  datatype Op =
    | Draw
    | PutWorker(v: nat, worker: Worker)
    | PutJob(v: nat, job: Job)
    | Next(workerId: string, now: int)
    | Hand(jobId: string, workerId: string, now: int)
    | Finish(workerId: string, jobId: string, output: string, success: bool, now: int)
    | Accept(jobId: string, who: string, comment: string, now: int)
    | Refuse(jobId: string, who: string, comment: string, now: int)

  function Start(job: Job, worker: string, now: int): Job {
    job.(status := Running, worker := worker, startedAt := Some(now), updatedAt := now)
  }

  /** A job that is created: a missing status means pending, and a missing
      approval follows from whether approval is required. */
  predicate IsNewJob(job: Job, o: Options, now: int) {
    job.status == (if o.status.Some? then o.status.value else Pending) &&
    job.approvalRequired == o.approvalRequired &&
    job.approval == (if o.approval.Some? then o.approval.value else if o.approvalRequired then AwaitingDecision else NotRequired) &&
    job.comment == o.comment && job.sourceType == o.sourceType && job.sourceId == o.sourceId && job.worker == o.worker &&
    job.createdAt == now && job.updatedAt == now && job.key == "" && job.output == "" &&
    job.startedAt.None? && job.finishedAt.None? && job.approvedBy == "" && job.approvedAt.None? &&
    job.rejectedBy == "" && job.rejectedAt.None?
  }

  /** What the job table becomes; `got` is the job a worker was given by Next. */
  predicate JobsStep(s: State, op: Op, got: Option<string>, jobs: Table) {
    match op
    case Draw => jobs == s.jobs
    case PutWorker(_, _) => jobs == s.jobs
    case PutJob(v, job) => v in s.drawn && jobs == s.jobs[Ids.Format("job", v) := job]
    case Next(w, now) =>
      if got.Some? then
        w in s.workers && IsNext(s.jobs, s.workers[w].workerType, got.value) &&
        jobs == s.jobs[got.value := Start(s.jobs[got.value], w, now)]
      else
        jobs == s.jobs && (w in s.workers ==> forall id | id in s.jobs :: !Eligible(s.jobs, s.workers[w].workerType, id))
    case Hand(id, w, now) =>
      jobs == if w in s.workers && id in s.jobs && WorkerCanRunType(s.workers[w].workerType, s.jobs[id].workerType)
              then s.jobs[id := Start(s.jobs[id], w, now)] else s.jobs
    case Finish(w, id, output, success, now) =>
      jobs == if id in s.jobs && s.jobs[id].worker == w
              then s.jobs[id := s.jobs[id].(status := if success then Success else Failed, output := output,
                                            finishedAt := Some(now), updatedAt := now)]
              else s.jobs
    case Accept(id, who, comment, now) =>
      jobs == if id in s.jobs && s.jobs[id].status == WaitingApproval
              then s.jobs[id := s.jobs[id].(status := Pending, approval := Approved, approvedBy := who, approvedAt := Some(now),
                                            comment := comment, updatedAt := now)]
              else s.jobs
    case Refuse(id, who, comment, now) =>
      jobs == if id in s.jobs && s.jobs[id].status == WaitingApproval
              then s.jobs[id := s.jobs[id].(status := Cancelled, approval := Rejected, rejectedBy := who, rejectedAt := Some(now),
                                            comment := comment, updatedAt := now)]
              else s.jobs
  }

  predicate Step(s: State, op: Op, got: Option<string>, t: State) {
    (got.Some? ==> op.Next?) && JobsStep(s, op, got, t.jobs) && (op.PutWorker? ==> op.v in s.drawn) &&
    t.counter == (if op.Draw? then s.counter + 1 else s.counter) &&
    t.drawn == (if op.Draw? then s.drawn + {s.counter + 1} else if op.PutWorker? || op.PutJob? then s.drawn - {op.v} else s.drawn) &&
    t.workers == if op.PutWorker? then s.workers[Ids.Format("worker", op.v) := op.worker] else s.workers
  }

  // ---- What a caller sees ----

  /** At most the job of `id` differs. */
  predicate OnlyJob(before: Table, after: Table, id: string) {
    after.Keys == before.Keys && forall other | other in before && other != id :: after[other] == before[other]
  }

  /** The job is queued and the worker suits it. */
  ghost predicate Waits(jobs: Table, workerType: string, id: string) {
    id in jobs && (jobs[id].status == Pending || jobs[id].status == Queued) && R.Suits(workerType, jobs[id].workerType)
  }

  lemma WaitsIsEligible(jobs: Table, workerType: string)
    ensures forall id :: Waits(jobs, workerType, id) <==> Eligible(jobs, workerType, id)
  {
    forall id ensures Waits(jobs, workerType, id) <==> Eligible(jobs, workerType, id) {
      if id in jobs { R.CanRunExactly(workerType, jobs[id].workerType); }
    }
  }

  // ---- The store ----

  class Store {
    var workers: map<string, Worker>
    var jobs: Table
    var counter: nat
    ghost var drawn: set<nat>

    ghost function Now(): State
      reads this
    {
      State(workers, jobs, counter, drawn)
    }

    constructor ()
      ensures Now() == State(map[], map[], 0, {})
    {
      workers, jobs, counter, drawn := map[], map[], 0, {};
    }

    /** The atomic draw; it happens outside the lock. */
    method NewId(prefix: string) returns (id: string)
      modifies this`counter, this`drawn
      ensures Step(old(Now()), Draw, None, Now())
      ensures id == Ids.Format(prefix, counter) && counter in drawn
    {
      counter := counter + 1;
      drawn := drawn + {counter};
      id := Ids.Format(prefix, counter);
    }

    method StoreWorker(id: string, ghost v: nat, worker: Worker)
      requires v in drawn && id == Ids.Format("worker", v)
      modifies this`workers, this`drawn
      ensures Step(old(Now()), PutWorker(v, worker), None, Now())
    {
      workers := workers[id := worker];
      drawn := drawn - {v};
    }

    method StoreJob(id: string, ghost v: nat, job: Job)
      requires v in drawn && id == Ids.Format("job", v)
      modifies this`jobs, this`drawn
      ensures Step(old(Now()), PutJob(v, job), None, Now())
    {
      jobs := jobs[id := job];
      drawn := drawn - {v};
    }

    method RegisterWorker(name: string, workerType: string) returns (id: string)
      modifies this
      ensures counter == old(counter) + 1 && id == Ids.Format("worker", counter) && jobs == old(jobs)
      ensures workers == old(workers)[id := Worker(name, workerType)] && drawn == old(drawn) - {counter}
    {
      id := NewId("worker");
      StoreWorker(id, counter, Worker(name, workerType));
    }

    method CreateJobWithOptions(name: string, workerType: string, command: string, o: Options, now: int) returns (id: string, job: Job)
      modifies this
      ensures counter == old(counter) + 1 && id == Ids.Format("job", counter) && workers == old(workers)
      ensures jobs == old(jobs)[id := job] && drawn == old(drawn) - {counter}
      ensures job.name == name && job.workerType == workerType && job.command == command && IsNewJob(job, o, now)
      ensures o.status.None? ==> forall t | R.Suits(t, workerType) :: Waits(jobs, t, id)
      ensures o.approval.None? ==> if o.approvalRequired then job.approval == AwaitingDecision else job.approval == NotRequired
    {
      id := NewId("job");
      var status := Pending;
      if o.status.Some? { status := o.status.value; }
      var approval := NotRequired;
      if o.approval.Some? { approval := o.approval.value; }
      if o.approvalRequired && o.approval.None? { approval := AwaitingDecision; }
      job := Job(name, workerType, command, status, o.approvalRequired, approval, o.comment,
                 "", None, "", None, o.sourceType, o.sourceId, "", o.worker, "", now, now, None, None);
      StoreJob(id, counter, job);
    }

    /** The loop over the job map, which visits the jobs in any order. */
    method Select(workerType: string) returns (found: Option<string>)
      ensures found.Some? ==> IsNext(jobs, workerType, found.value)
      ensures found.None? ==> forall id | id in jobs :: !Eligible(jobs, workerType, id)
    {
      found := None;
      var left := jobs.Keys;
      while left != {}
        invariant left <= jobs.Keys
        invariant found.Some? ==> Eligible(jobs, workerType, found.value)
        invariant forall id | id in jobs && id !in left && Eligible(jobs, workerType, id) ::
                    found.Some? && (id == found.value || Before(jobs, found.value, id))
      {
        var id :| id in left;
        left := left - {id};
        var job := jobs[id];
        if (job.status == Queued || job.status == Pending) && WorkerCanRunType(workerType, job.workerType) {
          ghost var was := found;
          if found.None? || job.createdAt < jobs[found.value].createdAt
             || (job.createdAt == jobs[found.value].createdAt && Less(id, found.value)) {
            found := Some(id);
          }
          forall other | other in jobs && other !in left && Eligible(jobs, workerType, other)
            ensures other == found.value || Before(jobs, found.value, other)
          {
            if was.Some? { BeforeOrder(jobs, id, was.value, other); }
          }
        }
      }
    }

    method AssignNextJob(workerId: string, now: int) returns (id: Option<string>)
      modifies this`jobs
      ensures Step(old(Now()), Next(workerId, now), id, Now())
      ensures id.Some? ==>
                workerId in workers && Waits(old(jobs), workers[workerId].workerType, id.value) &&
                OnlyJob(old(jobs), jobs, id.value) && IsStarted(old(jobs)[id.value], jobs[id.value], workerId, now) &&
                forall other | Waits(old(jobs), workers[workerId].workerType, other) ::
                  old(jobs)[id.value].createdAt <= old(jobs)[other].createdAt
      ensures id.None? ==>
                jobs == old(jobs) && (workerId in workers ==> forall other :: !Waits(jobs, workers[workerId].workerType, other))
    {
      if workerId !in workers { return None; }
      WaitsIsEligible(jobs, workers[workerId].workerType);
      id := Select(workers[workerId].workerType);
      if id.Some? {
        jobs := jobs[id.value := jobs[id.value].(status := Running, worker := workerId, startedAt := Some(now), updatedAt := now)];
      }
    }

    method AssignJobToWorker(jobId: string, workerId: string, now: int) returns (ok: bool)
      modifies this`jobs
      ensures Step(old(Now()), Hand(jobId, workerId, now), None, Now())
      ensures ok <==> workerId in workers && jobId in old(jobs) && R.Suits(workers[workerId].workerType, old(jobs)[jobId].workerType)
      ensures if ok then OnlyJob(old(jobs), jobs, jobId) && IsStarted(old(jobs)[jobId], jobs[jobId], workerId, now) else jobs == old(jobs)
    {
      if workerId !in workers { return false; }
      if jobId !in jobs { return false; }
      R.CanRunExactly(workers[workerId].workerType, jobs[jobId].workerType);
      if !WorkerCanRunType(workers[workerId].workerType, jobs[jobId].workerType) { return false; }
      jobs := jobs[jobId := jobs[jobId].(status := Running, worker := workerId, startedAt := Some(now), updatedAt := now)];
      ok := true;
    }

    method CompleteJob(workerId: string, jobId: string, output: string, success: bool, now: int) returns (ok: bool)
      modifies this`jobs
      ensures Step(old(Now()), Finish(workerId, jobId, output, success, now), None, Now())
      ensures ok <==> jobId in old(jobs) && old(jobs)[jobId].worker == workerId
      ensures if ok then OnlyJob(old(jobs), jobs, jobId) && IsFinished(old(jobs)[jobId], jobs[jobId], output, success, now)
              else jobs == old(jobs)
    {
      if jobId !in jobs { return false; }
      var job := jobs[jobId];
      if job.worker != workerId { return false; }
      job := job.(output := output, finishedAt := Some(now), updatedAt := now);
      if success { job := job.(status := Success); } else { job := job.(status := Failed); }
      jobs := jobs[jobId := job];
      ok := true;
    }

    method ApproveJob(jobId: string, who: string, comment: string, now: int) returns (ok: bool)
      modifies this`jobs
      ensures Step(old(Now()), Accept(jobId, who, comment, now), None, Now())
      ensures ok <==> jobId in old(jobs) && old(jobs)[jobId].status == WaitingApproval
      ensures if ok then OnlyJob(old(jobs), jobs, jobId) && IsApproved(old(jobs)[jobId], jobs[jobId], who, comment, now)
              else jobs == old(jobs)
    {
      if jobId !in jobs { return false; }
      if jobs[jobId].status != WaitingApproval { return false; }
      jobs := jobs[jobId := jobs[jobId].(status := Pending, approval := Approved, approvedBy := who, approvedAt := Some(now),
                                         comment := comment, updatedAt := now)];
      ok := true;
    }

    method RejectJob(jobId: string, who: string, reason: string, now: int) returns (ok: bool)
      modifies this`jobs
      ensures Step(old(Now()), Refuse(jobId, who, reason, now), None, Now())
      ensures ok <==> jobId in old(jobs) && old(jobs)[jobId].status == WaitingApproval
      ensures if ok then OnlyJob(old(jobs), jobs, jobId) && IsRejected(old(jobs)[jobId], jobs[jobId], who, reason, now)
              else jobs == old(jobs)
    {
      if jobId !in jobs { return false; }
      if jobs[jobId].status != WaitingApproval { return false; }
      jobs := jobs[jobId := jobs[jobId].(status := Cancelled, approval := Rejected, rejectedBy := who, rejectedAt := Some(now),
                                         comment := reason, updatedAt := now)];
      ok := true;
    }
  }

  // ---- A job is given out at most once ----

  datatype Event = Event(op: Op, got: Option<string>)

  /** Any sequence of operations from an empty store. */
  ghost predicate Run(states: seq<State>, events: seq<Event>) {
    |states| == |events| + 1 && states[0] == State(map[], map[], 0, {}) &&
    forall i | 0 <= i < |events| :: StepsAt(states, events, i)
  }

  predicate StepsAt(states: seq<State>, events: seq<Event>, i: nat)
    requires i < |events| && |states| == |events| + 1
  {
    Step(states[i], events[i].op, events[i].got, states[i + 1])
  }

  /** A stored job has a number that was drawn for it alone. */
  ghost predicate Issued(s: State, id: string) {
    exists v: nat :: v <= s.counter && v !in s.drawn && id == Ids.Format("job", v)
  }

  ghost predicate IdsIssued(s: State) {
    (forall id | id in s.jobs :: Issued(s, id)) && forall v | v in s.drawn :: v <= s.counter
  }

  predicate OutOfQueue(s: State, id: string) {
    id in s.jobs && !Queueing(s.jobs[id].status) && s.jobs[id].status != WaitingApproval
  }

  lemma DrawnIsNew(s: State, v: nat)
    requires IdsIssued(s) && v in s.drawn
    ensures Ids.Format("job", v) !in s.jobs
  {
    var id := Ids.Format("job", v);
    if id in s.jobs {
      assert Issued(s, id);
      var u: nat :| u <= s.counter && u !in s.drawn && id == Ids.Format("job", u);
      Ids.FormatInjective("job", u, "job", v);
    }
  }

  lemma StepKeeps(s: State, op: Op, got: Option<string>, t: State)
    requires Step(s, op, got, t) && IdsIssued(s)
    ensures IdsIssued(t)
  {
    forall id | id in t.jobs ensures Issued(t, id) {
      if op.PutJob? && id == Ids.Format("job", op.v) {
        assert op.v <= t.counter && op.v !in t.drawn;
      } else {
        assert Issued(s, id);
        var u: nat :| u <= s.counter && u !in s.drawn && id == Ids.Format("job", u);
        assert u <= t.counter && u !in t.drawn;
      }
    }
  }

  /** Waiting, pending and queued are never entered again. */
  lemma StepKeepsOut(s: State, op: Op, got: Option<string>, t: State, id: string)
    requires Step(s, op, got, t) && IdsIssued(s) && OutOfQueue(s, id)
    ensures OutOfQueue(t, id) && got != Some(id)
  {
    if op.PutJob? { DrawnIsNew(s, op.v); }
  }

  lemma {:induction false} RunIssues(states: seq<State>, events: seq<Event>, i: nat)
    requires Run(states, events) && i < |states|
    ensures IdsIssued(states[i])
  {
    if i > 0 {
      RunIssues(states, events, i - 1);
      assert StepsAt(states, events, i - 1);
      StepKeeps(states[i - 1], events[i - 1].op, events[i - 1].got, states[i]);
    }
  }

  lemma RunAt(states: seq<State>, events: seq<Event>, i: nat)
    requires Run(states, events) && i < |events|
    ensures IdsIssued(states[i]) && Step(states[i], events[i].op, events[i].got, states[i + 1])
  {
    RunIssues(states, events, i);
    assert StepsAt(states, events, i);
  }

  lemma {:induction false} StaysOut(states: seq<State>, events: seq<Event>, i: nat, j: nat, id: string)
    requires Run(states, events) && i <= j < |states| && OutOfQueue(states[i], id)
    ensures OutOfQueue(states[j], id)
  {
    if i < j {
      StaysOut(states, events, i, j - 1, id);
      RunAt(states, events, j - 1);
      StepKeepsOut(states[j - 1], events[j - 1].op, events[j - 1].got, states[j], id);
    }
  }

  /** Over any run no job is returned by AssignNextJob twice. */
  lemma GivenOutOnce(states: seq<State>, events: seq<Event>, i: nat, j: nat)
    requires Run(states, events) && i < j < |events| && events[i].got.Some?
    ensures events[j].got != events[i].got
  {
    RunAt(states, events, i);
    StaysOut(states, events, i + 1, j, events[i].got.value);
    RunAt(states, events, j);
    StepKeepsOut(states[j], events[j].op, events[j].got, states[j + 1], events[i].got.value);
  }

  // ---- Draining ----

  /** A worker asks again and again: it gets `ids`, then nothing. */
  predicate Drains(jobs: Table, worker: string, workerType: string, ids: seq<string>, times: seq<int>)
    requires |times| == |ids|
  {
    if ids == [] then forall id | id in jobs :: !Eligible(jobs, workerType, id)
    else
      IsNext(jobs, workerType, ids[0]) &&
      Drains(jobs[ids[0] := Start(jobs[ids[0]], worker, times[0])], worker, workerType, ids[1..], times[1..])
  }

  predicate Sorted(jobs: Table, ids: seq<string>) {
    (forall k :: 0 <= k < |ids| ==> ids[k] in jobs) &&
    forall i, j :: 0 <= i < j < |ids| ==> Before(jobs, ids[i], ids[j])
  }

  lemma {:induction false} DrainOrder(jobs: Table, worker: string, workerType: string, ids: seq<string>, times: seq<int>)
    requires |times| == |ids| && Drains(jobs, worker, workerType, ids, times)
    ensures Sorted(jobs, ids)
    ensures forall id :: id in ids <==> Eligible(jobs, workerType, id)
    decreases |ids|
  {
    if ids != [] {
      var first := ids[0];
      var rest := jobs[first := Start(jobs[first], worker, times[0])];
      DrainOrder(rest, worker, workerType, ids[1..], times[1..]);
      forall id ensures id in ids <==> Eligible(jobs, workerType, id) {
        assert ids == [first] + ids[1..];
        if id != first { assert Eligible(rest, workerType, id) == Eligible(jobs, workerType, id); }
      }
      forall k | 1 <= k < |ids| ensures ids[k] in jobs && ids[k] != first && Before(jobs, first, ids[k]) {
        assert ids[1..][k - 1] == ids[k] && ids[k] in ids[1..];
        assert Eligible(rest, workerType, ids[k]);
      }
      forall i, j | 1 <= i < j < |ids| ensures Before(jobs, ids[i], ids[j]) {
        assert ids[1..][i - 1] == ids[i] && ids[1..][j - 1] == ids[j];
        assert Before(rest, ids[1..][i - 1], ids[1..][j - 1]);
      }
    }
  }

  // ---- First created, first served ----

  lemma {:induction false} CounterGrows(states: seq<State>, events: seq<Event>, i: nat, j: nat)
    requires Run(states, events) && i <= j < |states|
    ensures states[i].counter <= states[j].counter
  {
    if i < j {
      CounterGrows(states, events, i, j - 1);
      assert StepsAt(states, events, j - 1);
    }
  }

  lemma StepKeepsCreated(s: State, op: Op, got: Option<string>, t: State, id: string)
    requires Step(s, op, got, t) && IdsIssued(s) && id in s.jobs
    ensures id in t.jobs && t.jobs[id].createdAt == s.jobs[id].createdAt
  {
    if op.PutJob? { DrawnIsNew(s, op.v); }
  }

  /** A stored job keeps its creation time. */
  lemma {:induction false} StaysCreated(states: seq<State>, events: seq<Event>, i: nat, j: nat, id: string)
    requires Run(states, events) && i <= j < |states| && id in states[i].jobs
    ensures id in states[j].jobs && states[j].jobs[id].createdAt == states[i].jobs[id].createdAt
  {
    if i < j {
      StaysCreated(states, events, i, j - 1, id);
      RunAt(states, events, j - 1);
      StepKeepsCreated(states[j - 1], events[j - 1].op, events[j - 1].got, states[j], id);
    }
  }

  lemma EarlierIsBefore(jobs: Table, workerType: string, v: nat, w: nat)
    requires v < w <= 999_999 && Eligible(jobs, workerType, Ids.Format("job", v))
    requires Ids.Format("job", w) in jobs ==> jobs[Ids.Format("job", v)].createdAt <= jobs[Ids.Format("job", w)].createdAt
    ensures !IsNext(jobs, workerType, Ids.Format("job", w))
  {
    Ids.FormatInjective("job", v, "job", w);
    Ids.StringOrderIsNumeric("job", v, w);
    if Ids.Format("job", w) in jobs { BeforeOrder(jobs, Ids.Format("job", v), Ids.Format("job", w), Ids.Format("job", v)); }
  }

  /** Job v was stored before job w drew its number, and the clock did not run
      backwards in between. While v is eligible for a worker and ids stay up to
      job-999999, the worker is not given w. Overlapping creations are not ordered. */
  lemma FirstCreatedFirst(states: seq<State>, events: seq<Event>, a: nat, b: nat, i: nat, v: nat, w: nat)
    requires Run(states, events) && a < b < i < |events| && w <= 999_999
    requires events[a].op.PutJob? && events[a].op.v == v && events[b].op.Draw? && w == states[b].counter + 1
    requires events[i].op.Next? && events[i].op.workerId in states[i].workers
    requires Eligible(states[i].jobs, states[i].workers[events[i].op.workerId].workerType, Ids.Format("job", v))
    requires Ids.Format("job", w) in states[i].jobs ==>
               events[a].op.job.createdAt <= states[i].jobs[Ids.Format("job", w)].createdAt
    ensures events[i].got != Some(Ids.Format("job", w))
  {
    RunAt(states, events, a);
    RunAt(states, events, i);
    CounterGrows(states, events, a, b);
    StaysCreated(states, events, a + 1, i, Ids.Format("job", v));
    EarlierIsBefore(states[i].jobs, states[i].workers[events[i].op.workerId].workerType, v, w);
  }
}
