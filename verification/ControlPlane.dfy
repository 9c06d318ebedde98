/** The job handlers as processes over the jobs table. Every SQL statement, and
    every draw of an id, is one atomic step; between two steps of one handler
    any other handler may run, so what a handler read earlier may be stale. */
module ControlPlane {
  import opened Basics
  import opened Jobs
  import Ids

  /** The key of the job that one tool call of one run makes for one worker. */
  function JobKey(runId: string, callId: string, worker: string): string {
    if runId == "" || callId == "" then "" else runId + ":" + callId + ":" + worker
  }

  /** One agent operation after validation: `approval` is the policy's answer,
      computed once for all `workers`. */
  datatype Operation = Operation(
    reason: string, workerType: string, command: string, approval: bool,
    runId: string, callId: string, workers: seq<string>)

  function OperationJob(op: Operation, worker: string): Job {
    Job("[agent][worker:" + worker + "] " + op.reason, op.workerType, op.command,
        if op.approval then WaitingApproval else Pending, op.approval,
        if op.approval then AwaitingDecision else NotRequired, "",
        "", None, "", None, "agent", op.runId, JobKey(op.runId, op.callId, worker), worker, "",
        0, 0, None, None)
  }

  function ManualJob(name: string, workerType: string, command: string, sourceType: string): Job {
    Job(name, workerType, command, Pending, false, NotRequired, "", "", None, "", None,
        sourceType, "", "", "", "", 0, 0, None, None)
  }

  /** The copy of `base` that a dispatch to several workers makes from the second
      worker on; it keeps the approval columns of the row that was read. */
  function Clone(base: Job, baseId: nat, worker: string): Job {
    base.(name := "[dispatch:" + Ids.Format("job", baseId) + "][worker:" + worker + "] " + base.name,
          status := Pending, worker := "", output := "", startedAt := None, finishedAt := None,
          sourceId := Ids.Format("job", baseId),
          sourceType := if base.sourceType == "" then "manual_dispatch" else base.sourceType)
  }

  /** What a handler does when the routine it called comes back. */
  datatype Then =
    | Stop
    | DispatchTo(worker: string, rest: Then)
    | NextWorker(op: Operation, i: nat)
    | DispatchAgain(id: nat, worker: string)
    | NextClone(base: Job, baseId: nat, workers: seq<string>, i: nat)

  datatype Proc =
    | Finished
    // CreateJob
    | CreateFind(job: Job, k: Then)
    | CreateDraw(job: Job, k: Then)
    | CreateInsert(job: Job, id: nat, k: Then)
    | CreateRefind(key: string, k: Then)
    | CreateFetch(key: string, id: nat, k: Then)
    // dispatchJobToWorker and PushJob
    | AssignRead(id: nat, worker: string, k: Then)
    | AssignCheck(id: nat, jobType: string, worker: string, k: Then)
    | AssignWrite(id: nat, worker: string, k: Then)
    | AssignReread(id: nat, worker: string, k: Then)
    | Push(id: nat, worker: string, job: Job, k: Then)
    // createModuleOperation, handleDispatchJob
    | OperationLoop(op: Operation, i: nat)
    | DispatchRead(id: nat, workers: seq<string>)
    | DispatchLoop(base: Job, baseId: nat, workers: seq<string>, i: nat)
    // handleApproveJob
    | ApproveWrite(id: nat, who: string, comment: string)
    | ApproveRead(id: nat)
    | RejectWrite(id: nat, who: string, comment: string)
    // DeleteJob, AssignNextJob, CompleteJob
    | DeleteRead(id: nat)
    | DeleteWrite(id: nat)
    | PickSelect(worker: string, workerType: string)
    | PickWrite(id: nat, worker: string)
    | CompleteWrite(worker: string, id: nat, output: string, success: bool)

  datatype Event =
    | Created(id: nat, job: Job)
    | Returned(key: string, id: nat)
    | Assigned(id: nat, worker: string, at: int)
    | Pushed(id: nat, worker: string, job: Job)
    | Decided(id: nat, approve: bool, who: string, comment: string, at: int)
    | Completed(id: nat, worker: string, output: string, success: bool, at: int)
    | Deleted(id: nat)

  /** `born` collects the ids of rows stored at the last start or inserted since. */
  datatype State = State(rows: Rows, counter: nat, procs: map<nat, Proc>, born: set<nat>, log: seq<Event>)

  const INITIAL := State(map[], 0, map[], {}, [])

  /** What a step meets outside the model: a failing call, the registered type of
      the worker it looks up, the row an ordered SELECT picks, whether a stream
      took the push, and the clock. */
  datatype Choice = Choice(fail: bool, workerType: string, pick: nat, pushed: bool, now: int)

  function OnOk(k: Then, id: nat, job: Job): Proc {
    match k
    case Stop => Finished
    case DispatchTo(worker, rest) => AssignRead(id, worker, rest)
    case NextWorker(op, i) => OperationLoop(op, i)
    case DispatchAgain(_, _) => if job.worker != "" then AssignRead(id, job.worker, Stop) else Finished
    case NextClone(base, baseId, workers, i) => DispatchLoop(base, baseId, workers, i)
  }

  function OnFail(k: Then): Proc {
    match k
    case Stop => Finished
    case DispatchTo(_, rest) => OnFail(rest)
    case NextWorker(op, i) => OperationLoop(op, i)
    case DispatchAgain(id, worker) => AssignRead(id, worker, Stop)
    case NextClone(_, _, _, _) => Finished
  }

  predicate HasKey(rows: Rows, id: nat, key: string) {
    id in rows && rows[id].key == key
  }

  /** A lookup by key finds a row whenever one carries the key. */
  ghost predicate Admissible(rows: Rows, p: Proc, c: Choice) {
    match p
    case CreateFind(job, _) => job.key != "" && (exists id :: HasKey(rows, id, job.key)) ==> HasKey(rows, c.pick, job.key)
    case CreateRefind(key, _) => (exists id :: HasKey(rows, id, key)) ==> HasKey(rows, c.pick, key)
    case _ => true
  }

  predicate Eligible(rows: Rows, id: nat, workerType: string) {
    id in rows && rows[id].status in {Queued, Pending} &&
    (Lower(Trim(workerType)) == "shell" || rows[id].workerType == workerType)
  }

  function Note(s: State, rows: Rows, e: Event): State {
    s.(rows := rows, log := s.log + [e])
  }

  // The next atomic step of a process, with its effect on the shared state.

  function CreateStep(s: State, p: Proc, c: Choice): (State, Proc)
    requires p.CreateFind? || p.CreateDraw? || p.CreateInsert? || p.CreateRefind? || p.CreateFetch?
  {
    match p
    case CreateFind(job, k) =>
      if job.key == "" then (s, CreateDraw(job, k))
      else if c.fail then (s, OnFail(k))
      else if HasKey(s.rows, c.pick, job.key) then (s, CreateFetch(job.key, c.pick, k))
      else (s, CreateDraw(job, k))
    case CreateDraw(job, k) =>
      (s.(counter := s.counter + 1), CreateInsert(job, s.counter + 1, k))
    case CreateInsert(job, id, k) =>
      if !c.fail && Insertable(s.rows, id, job.key) then
        var rows := InsertRow(s.rows, id, job, c.now);
        var s1 := Note(s, rows, Created(id, rows[id])).(born := s.born + {id});
        (Note(s1, s1.rows, Returned(job.key, id)), OnOk(k, id, s1.rows[id]))
      else if job.key != "" then (s, CreateRefind(job.key, k))
      else (s, OnFail(k))
    case CreateRefind(key, k) =>
      if !c.fail && HasKey(s.rows, c.pick, key) then (s, CreateFetch(key, c.pick, k)) else (s, OnFail(k))
    case CreateFetch(key, id, k) =>
      if !c.fail && id in s.rows then (Note(s, s.rows, Returned(key, id)), OnOk(k, id, Read(s.rows[id])))
      else (s, OnFail(k))
  }

  function AssignStep(s: State, p: Proc, c: Choice): (State, Proc)
    requires p.AssignRead? || p.AssignCheck? || p.AssignWrite? || p.AssignReread? || p.Push?
  {
    match p
    case AssignRead(id, worker, k) =>
      if !c.fail && id in s.rows then (s, AssignCheck(id, s.rows[id].workerType, worker, k)) else (s, OnFail(k))
    case AssignCheck(id, jobType, worker, k) =>
      if !c.fail && WorkerCanRunType(c.workerType, jobType) then (s, AssignWrite(id, worker, k)) else (s, OnFail(k))
    case AssignWrite(id, worker, k) =>
      if c.fail then (s, OnFail(k))
      else if id in s.rows then
        (Note(s, AssignRow(s.rows, id, worker, c.now), Assigned(id, worker, c.now)), AssignReread(id, worker, k))
      else (s, AssignReread(id, worker, k))
    case AssignReread(id, worker, k) =>
      if !c.fail && id in s.rows then (s, Push(id, worker, Read(s.rows[id]), k)) else (s, OnFail(k))
    case Push(id, worker, job, k) =>
      (if c.pushed then Note(s, s.rows, Pushed(id, worker, job)) else s, OnOk(k, id, job))
  }

  function LoopStep(s: State, p: Proc, c: Choice): (State, Proc)
    requires p.OperationLoop? || p.DispatchRead? || p.DispatchLoop?
  {
    match p
    case OperationLoop(op, i) =>
      if i >= |op.workers| then (s, Finished)
      else
        var worker := op.workers[i];
        var next := NextWorker(op, i + 1);
        (s, CreateFind(OperationJob(op, worker), if op.approval then next else DispatchTo(worker, next)))
    case DispatchRead(id, workers) =>
      if !c.fail && id in s.rows && s.rows[id].status in {Pending, Queued} then
        (s, DispatchLoop(Read(s.rows[id]), id, workers, 0))
      else (s, Finished)
    case DispatchLoop(base, baseId, workers, i) =>
      if i >= |workers| || c.fail || !WorkerCanRunType(c.workerType, base.workerType) then (s, Finished)
      else if i == 0 then (s, AssignRead(baseId, workers[0], NextClone(base, baseId, workers, 1)))
      else (s, CreateFind(Clone(base, baseId, workers[i]),
                          DispatchTo(workers[i], NextClone(base, baseId, workers, i + 1))))
  }

  function DecideStep(s: State, p: Proc, c: Choice): (State, Proc)
    requires p.ApproveWrite? || p.ApproveRead? || p.RejectWrite?
  {
    match p
    case ApproveWrite(id, who, comment) =>
      if !c.fail && id in s.rows && s.rows[id].status == WaitingApproval then
        (Note(s, ApproveRow(s.rows, id, who, comment, c.now), Decided(id, true, who, comment, c.now)), ApproveRead(id))
      else (s, Finished)
    case ApproveRead(id) =>
      if !c.fail && id in s.rows && s.rows[id].worker != "" then
        (s, AssignRead(id, s.rows[id].worker, DispatchAgain(id, s.rows[id].worker)))
      else (s, Finished)
    case RejectWrite(id, who, comment) =>
      if !c.fail && id in s.rows && s.rows[id].status == WaitingApproval then
        (Note(s, RejectRow(s.rows, id, who, comment, c.now), Decided(id, false, who, comment, c.now)), Finished)
      else (s, Finished)
  }

  function WorkStep(s: State, p: Proc, c: Choice): (State, Proc)
    requires p.DeleteRead? || p.DeleteWrite? || p.PickSelect? || p.PickWrite? || p.CompleteWrite?
  {
    match p
    case DeleteRead(id) =>
      if !c.fail && id in s.rows && s.rows[id].status in {Pending, Queued, WaitingApproval} then (s, DeleteWrite(id))
      else (s, Finished)
    case DeleteWrite(id) =>
      if !c.fail && id in s.rows then (Note(s, DeleteRow(s.rows, id), Deleted(id)), Finished) else (s, Finished)
    case PickSelect(worker, workerType) =>
      if !c.fail && Eligible(s.rows, c.pick, workerType) then (s, PickWrite(c.pick, worker)) else (s, Finished)
    case PickWrite(id, worker) =>
      if !c.fail && id in s.rows then
        (Note(s, AssignRow(s.rows, id, worker, c.now), Assigned(id, worker, c.now)), Finished)
      else (s, Finished)
    case CompleteWrite(worker, id, output, success) =>
      if !c.fail && Completable(s.rows, id, worker) then
        (Note(s, CompleteRow(s.rows, id, worker, output, success, c.now), Completed(id, worker, output, success, c.now)), Finished)
      else (s, Finished)
  }

  function Advance(s: State, p: Proc, c: Choice): (State, Proc) {
    match p
    case Finished => (s, Finished)
    case CreateFind(_, _) => CreateStep(s, p, c)
    case CreateDraw(_, _) => CreateStep(s, p, c)
    case CreateInsert(_, _, _) => CreateStep(s, p, c)
    case CreateRefind(_, _) => CreateStep(s, p, c)
    case CreateFetch(_, _, _) => CreateStep(s, p, c)
    case AssignRead(_, _, _) => AssignStep(s, p, c)
    case AssignCheck(_, _, _, _) => AssignStep(s, p, c)
    case AssignWrite(_, _, _) => AssignStep(s, p, c)
    case AssignReread(_, _, _) => AssignStep(s, p, c)
    case Push(_, _, _, _) => AssignStep(s, p, c)
    case OperationLoop(_, _) => LoopStep(s, p, c)
    case DispatchRead(_, _) => LoopStep(s, p, c)
    case DispatchLoop(_, _, _, _) => LoopStep(s, p, c)
    case ApproveWrite(_, _, _) => DecideStep(s, p, c)
    case ApproveRead(_) => DecideStep(s, p, c)
    case RejectWrite(_, _, _) => DecideStep(s, p, c)
    case _ => WorkStep(s, p, c)
  }

  // ---- Runs ----

  datatype Label =
    | Start(pid: nat, p: Proc)           // a request arrives
    | Step(pid: nat, c: Choice)          // one handler takes one step
    | OtherIds(n: nat)                   // other tables draw ids from the shared counter
    | Restart(counter: nat)              // every handler is lost, the counter is seeded with anything

  /** What the policy may answer during a run for a call with a given key, which
      is empty for a call outside a run. */
  type Policy = iset<(string, bool)>

  predicate OperationAllowed(policy: Policy, op: Operation) {
    forall i | 0 <= i < |op.workers| :: (JobKey(op.runId, op.callId, op.workers[i]), op.approval) in policy
  }

  ghost predicate IsRequest(policy: Policy, p: Proc) {
    match p
    case OperationLoop(op, i) => i == 0 && OperationAllowed(policy, op)
    case CreateFind(job, k) =>
      (exists name, workerType, command, sourceType :: job == ManualJob(name, workerType, command, sourceType)) &&
      (k == Stop || (k.DispatchTo? && k.rest == Stop))
    case DispatchRead(_, _) => true
    case ApproveWrite(_, _, _) => true
    case RejectWrite(_, _, _) => true
    case DeleteRead(_) => true
    case PickSelect(_, _) => true
    case CompleteWrite(_, _, _, _) => true
    case _ => false
  }

  ghost predicate Enabled(policy: Policy, s: State, l: Label) {
    match l
    case Start(pid, p) => pid !in s.procs && IsRequest(policy, p)
    case Step(pid, c) => pid in s.procs && Admissible(s.rows, s.procs[pid], c)
    case OtherIds(_) => true
    case Restart(_) => true
  }

  function Apply(s: State, l: Label): State {
    match l
    case Start(pid, p) => s.(procs := s.procs[pid := p])
    case Step(pid, c) =>
      if pid in s.procs then
        var (s1, p1) := Advance(s, s.procs[pid], c);
        s1.(procs := s1.procs[pid := p1])
      else s
    case OtherIds(n) => s.(counter := s.counter + n)
    case Restart(counter) => s.(counter := counter, procs := map[], born := s.rows.Keys)
  }

  function Exec(run: seq<Label>): State {
    if run == [] then INITIAL else Apply(Exec(run[..|run| - 1]), run[|run| - 1])
  }

  ghost predicate Legal(policy: Policy, run: seq<Label>) {
    run == [] || (Legal(policy, run[..|run| - 1]) && Enabled(policy, Exec(run[..|run| - 1]), run[|run| - 1]))
  }

  /** The seed is not below any stored job id, as it is when the query of the jobs
      table succeeds at start-up. */
  predicate Covers(rows: Rows, counter: nat) {
    forall id | id in rows :: id <= counter
  }

  /** No restart of the run seeds the counter below a stored id. */
  predicate SeedsCover(run: seq<Label>) {
    run == [] ||
    (SeedsCover(run[..|run| - 1]) &&
     (run[|run| - 1].Restart? ==> Covers(Exec(run[..|run| - 1]).rows, run[|run| - 1].counter)))
  }
}
