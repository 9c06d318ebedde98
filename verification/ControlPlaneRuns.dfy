/** Building runs of the control plane step by step. */
module ControlPlaneRuns {
  import opened Basics
  import opened Jobs
  import opened ControlPlane

  /** A legal run to a state; `covered` runs never seed below a stored id. */
  ghost predicate Reaches(policy: Policy, covered: bool, run: seq<Label>, s: State) {
    Legal(policy, run) && Exec(run) == s && (covered ==> SeedsCover(run))
  }

  lemma Extend(policy: Policy, covered: bool, run: seq<Label>, s: State, l: Label) returns (next: seq<Label>)
    requires Reaches(policy, covered, run, s) && Enabled(policy, s, l) && (covered ==> !l.Restart?)
    ensures Reaches(policy, covered, next, Apply(s, l))
  {
    next := run + [l];
    assert next[..|run|] == run;
  }

  /** A choice where nothing fails; lookups pick job 1 and workers are shells. */
  const CALM := Choice(false, "shell", 1, true, 0)

  function Put(s: State, pid: nat, p: Proc): State {
    s.(procs := s.procs[pid := p])
  }

  lemma CreateIgnoresProcs(s: State, pid: nat, p: Proc, q: Proc, c: Choice)
    requires q.CreateFind? || q.CreateDraw? || q.CreateInsert? || q.CreateRefind? || q.CreateFetch?
    ensures CreateStep(Put(s, pid, p), q, c) == (Put(CreateStep(s, q, c).0, pid, p), CreateStep(s, q, c).1)
  {
  }

  lemma AssignIgnoresProcs(s: State, pid: nat, p: Proc, q: Proc, c: Choice)
    requires q.AssignRead? || q.AssignCheck? || q.AssignWrite? || q.AssignReread? || q.Push?
    ensures AssignStep(Put(s, pid, p), q, c) == (Put(AssignStep(s, q, c).0, pid, p), AssignStep(s, q, c).1)
  {
  }

  lemma WorkIgnoresProcs(s: State, pid: nat, p: Proc, q: Proc, c: Choice)
    requires q.DeleteRead? || q.DeleteWrite? || q.PickSelect? || q.PickWrite? || q.CompleteWrite?
    ensures WorkStep(Put(s, pid, p), q, c) == (Put(WorkStep(s, q, c).0, pid, p), WorkStep(s, q, c).1)
  {
  }

  /** A step neither reads nor writes the other handlers. */
  lemma AdvanceIgnoresProcs(s: State, pid: nat, p: Proc, q: Proc, c: Choice)
    ensures Advance(Put(s, pid, p), q, c) == (Put(Advance(s, q, c).0, pid, p), Advance(s, q, c).1)
  {
    if q.CreateFind? || q.CreateDraw? || q.CreateInsert? || q.CreateRefind? || q.CreateFetch? {
      CreateIgnoresProcs(s, pid, p, q, c);
    } else if q.AssignRead? || q.AssignCheck? || q.AssignWrite? || q.AssignReread? || q.Push? {
      AssignIgnoresProcs(s, pid, p, q, c);
    } else if q.DeleteRead? || q.DeleteWrite? || q.PickSelect? || q.PickWrite? || q.CompleteWrite? {
      WorkIgnoresProcs(s, pid, p, q, c);
    }
  }

  lemma StepPuts(s: State, pid: nat, p: Proc, c: Choice, t: State, q: Proc)
    requires Advance(s, p, c) == (t, q)
    ensures Apply(Put(s, pid, p), Step(pid, c)) == Put(t, pid, q)
  {
    AdvanceIgnoresProcs(s, pid, p, p, c);
    assert t.procs[pid := p][pid := q] == t.procs[pid := q];
  }

  lemma Begin(policy: Policy, covered: bool, run: seq<Label>, s: State, pid: nat, p: Proc) returns (next: seq<Label>)
    requires Reaches(policy, covered, run, s) && pid !in s.procs && IsRequest(policy, p)
    ensures Reaches(policy, covered, next, Put(s, pid, p))
  {
    next := Extend(policy, covered, run, s, Start(pid, p));
  }

  lemma ContinueBy(policy: Policy, covered: bool, run: seq<Label>, s: State, pid: nat, p: Proc, c: Choice) returns (next: seq<Label>)
    requires Reaches(policy, covered, run, Put(s, pid, p)) && Admissible(s.rows, p, c)
    ensures Reaches(policy, covered, next, Put(Advance(s, p, c).0, pid, Advance(s, p, c).1))
  {
    StepPuts(s, pid, p, c, Advance(s, p, c).0, Advance(s, p, c).1);
    next := Extend(policy, covered, run, Put(s, pid, p), Step(pid, c));
  }

  lemma Continue(policy: Policy, covered: bool, run: seq<Label>, s: State, pid: nat, p: Proc) returns (next: seq<Label>)
    requires Reaches(policy, covered, run, Put(s, pid, p)) && Admissible(s.rows, p, CALM)
    ensures Reaches(policy, covered, next, Put(Advance(s, p, CALM).0, pid, Advance(s, p, CALM).1))
  {
    next := ContinueBy(policy, covered, run, s, pid, p, CALM);
  }

  // ---- Creating, deleting and assigning ----

  /** The shared state after a creation that finds no earlier job. */
  function Inserted(s: State, job: Job): State {
    var id, rows := s.counter + 1, InsertRow(s.rows, s.counter + 1, job, 0);
    State(rows, id, s.procs, s.born + {id}, s.log + [Created(id, rows[id])] + [Returned(job.key, id)])
  }

  lemma FindsNone(s: State, job: Job, k: Then)
    requires Insertable(s.rows, s.counter + 1, job.key)
    ensures Advance(s, CreateFind(job, k), CALM) == (s, CreateDraw(job, k)) && Admissible(s.rows, CreateFind(job, k), CALM)
  {
  }

  lemma Draws(s: State, job: Job, k: Then)
    ensures Advance(s, CreateDraw(job, k), CALM) == (s.(counter := s.counter + 1), CreateInsert(job, s.counter + 1, k))
  {
  }

  lemma Inserts(s: State, job: Job, k: Then)
    requires Insertable(s.rows, s.counter + 1, job.key)
    ensures var drawn, id := s.(counter := s.counter + 1), s.counter + 1;
            Advance(drawn, CreateInsert(job, id, k), CALM) == (Inserted(s, job), OnOk(k, id, Inserted(s, job).rows[id]))
  {
  }

  lemma Create(policy: Policy, covered: bool, run0: seq<Label>, s: State, pid: nat, job: Job, k: Then) returns (run: seq<Label>)
    requires Reaches(policy, covered, run0, Put(s, pid, CreateFind(job, k))) && Insertable(s.rows, s.counter + 1, job.key)
    ensures Reaches(policy, covered, run,
                    Put(Inserted(s, job), pid, OnOk(k, s.counter + 1, Inserted(s, job).rows[s.counter + 1])))
  {
    FindsNone(s, job, k);
    Draws(s, job, k);
    Inserts(s, job, k);
    run := Continue(policy, covered, run0, s, pid, CreateFind(job, k));
    run := Continue(policy, covered, run, s, pid, CreateDraw(job, k));
    run := Continue(policy, covered, run, s.(counter := s.counter + 1), pid, CreateInsert(job, s.counter + 1, k));
  }

  const MANUAL := ManualJob("m", "shell", "c", "manual")

  lemma CreateManually(policy: Policy, covered: bool, run0: seq<Label>, s: State, pid: nat) returns (run: seq<Label>)
    requires Reaches(policy, covered, run0, s) && pid !in s.procs && s.counter + 1 !in s.rows
    ensures Reaches(policy, covered, run, Put(Inserted(s, MANUAL), pid, Finished))
  {
    assert MANUAL == ManualJob("m", "shell", "c", "manual");
    run := Begin(policy, covered, run0, s, pid, CreateFind(MANUAL, Stop));
    run := Create(policy, covered, run, s, pid, MANUAL, Stop);
  }

  function AfterJob(op: Operation): Then {
    if op.approval || |op.workers| == 0 then NextWorker(op, 1) else DispatchTo(op.workers[0], NextWorker(op, 1))
  }

  /** An operation for one worker goes to look for its job. */
  lemma Operate(policy: Policy, covered: bool, run0: seq<Label>, s: State, pid: nat, op: Operation) returns (run: seq<Label>)
    requires Reaches(policy, covered, run0, s) && pid !in s.procs && OperationAllowed(policy, op) && |op.workers| == 1
    ensures Reaches(policy, covered, run, Put(s, pid, CreateFind(OperationJob(op, op.workers[0]), AfterJob(op))))
  {
    run := Begin(policy, covered, run0, s, pid, OperationLoop(op, 0));
    run := Continue(policy, covered, run, s, pid, OperationLoop(op, 0));
  }

  /** ... and finds job 1 under its key. */
  lemma Finds(policy: Policy, covered: bool, run0: seq<Label>, s: State, pid: nat, job: Job, k: Then) returns (run: seq<Label>)
    requires Reaches(policy, covered, run0, Put(s, pid, CreateFind(job, k))) && job.key != "" && HasKey(s.rows, 1, job.key)
    ensures Reaches(policy, covered, run, Put(s, pid, CreateFetch(job.key, 1, k)))
  {
    run := Continue(policy, covered, run0, s, pid, CreateFind(job, k));
  }

  lemma Deletes(s: State, id: nat)
    requires id in s.rows && s.rows[id].status in {Pending, Queued, WaitingApproval}
    ensures Advance(s, DeleteRead(id), CALM) == (s, DeleteWrite(id))
    ensures Advance(s, DeleteWrite(id), CALM) == (Note(s, s.rows - {id}, Deleted(id)), Finished)
  {
  }

  lemma Delete(policy: Policy, covered: bool, run0: seq<Label>, s: State, pid: nat, id: nat) returns (run: seq<Label>)
    requires Reaches(policy, covered, run0, s) && pid !in s.procs && id in s.rows
    requires s.rows[id].status in {Pending, Queued, WaitingApproval}
    ensures Reaches(policy, covered, run, Put(Note(s, s.rows - {id}, Deleted(id)), pid, Finished))
  {
    Deletes(s, id);
    run := Begin(policy, covered, run0, s, pid, DeleteRead(id));
    run := Continue(policy, covered, run, s, pid, DeleteRead(id));
    run := Continue(policy, covered, run, s, pid, DeleteWrite(id));
  }

  /** A restart that seeds the counter with 0. */
  lemma Undershoot(policy: Policy, run0: seq<Label>, s: State) returns (run: seq<Label>)
    requires Reaches(policy, false, run0, s)
    ensures Reaches(policy, false, run, State(s.rows, 0, map[], s.rows.Keys, s.log))
  {
    run := Extend(policy, false, run0, s, Restart(0));
  }

  lemma ShellRunsShell()
    ensures WorkerCanRunType("shell", "shell")
  {
    assert TrimLeft("shell") == "shell" && TrimRight("shell") == "shell";
    assert Lower("shell") == "shell";
  }

  lemma ChecksShell(s: State, id: nat, worker: string, k: Then)
    ensures Advance(s, AssignCheck(id, "shell", worker, k), CALM) == (s, AssignWrite(id, worker, k))
  {
    ShellRunsShell();
  }

  /** A handler about to assign a shell job to a shell worker gets to its write. */
  lemma ReadyToAssign(policy: Policy, covered: bool, run0: seq<Label>, s: State, pid: nat, id: nat, worker: string, k: Then)
    returns (run: seq<Label>)
    requires Reaches(policy, covered, run0, Put(s, pid, AssignRead(id, worker, k)))
    requires id in s.rows && s.rows[id].workerType == "shell"
    ensures Reaches(policy, covered, run, Put(s, pid, AssignWrite(id, worker, k)))
  {
    run := Continue(policy, covered, run0, s, pid, AssignRead(id, worker, k));
    ChecksShell(s, id, worker, k);
    run := Continue(policy, covered, run, s, pid, AssignCheck(id, "shell", worker, k));
  }

  /** The write that nothing guards. */
  lemma Assigns(policy: Policy, covered: bool, run0: seq<Label>, s: State, pid: nat, id: nat, worker: string, k: Then)
    returns (run: seq<Label>)
    requires Reaches(policy, covered, run0, Put(s, pid, AssignWrite(id, worker, k))) && id in s.rows
    ensures Reaches(policy, covered, run,
                    Put(Note(s, AssignRow(s.rows, id, worker, 0), Assigned(id, worker, 0)), pid, AssignReread(id, worker, k)))
  {
    run := Continue(policy, covered, run0, s, pid, AssignWrite(id, worker, k));
  }
}
