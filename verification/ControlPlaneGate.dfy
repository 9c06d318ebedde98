/** The approval gate holds exactly when nothing ever needs approval, or no
    idempotency key can meet two different policy answers and no restart seeds the
    id counter below a stored job. */
module ControlPlaneGate {
  import opened Basics
  import opened Jobs
  import opened ControlPlane
  import opened ControlPlaneRuns
  import opened ControlPlaneSafety
  import Ids

  // ---- The exact condition ----

  /** Every reachable state is safe, and every job that was pushed to a worker was
      released when it was read for the push. If `covered`, only runs count in
      which no restart seeds the counter below a stored id. */
  ghost predicate AlwaysSafe(policy: Policy, covered: bool) {
    forall run | Legal(policy, run) && (covered ==> SeedsCover(run)) ::
      Safe(Exec(run)) && PushesReleased(Exec(run).log)
  }

  /** Some call that can really be made may be told that it needs approval. */
  ghost predicate MayGate(policy: Policy) {
    exists runId, callId, worker :: (JobKey(runId, callId, worker), true) in policy
  }

  /** The approval gate holds over all runs if and only if nothing ever needs
      approval, or seeds cover the stored ids and the policy never answers both
      ways for one idempotency key. */
  lemma ApprovalGateHolds(policy: Policy, covered: bool)
    ensures AlwaysSafe(policy, covered) <==> !MayGate(policy) || (covered && forall key :: !Conflict(policy, key))
  {
    if !MayGate(policy) {
      forall run | Legal(policy, run) ensures Safe(Exec(run)) && PushesReleased(Exec(run).log) { UngatedRun(policy, run); }
    } else if covered && forall key :: !Conflict(policy, key) {
      forall run | Legal(policy, run) && SeedsCover(run)
        ensures Safe(Exec(run)) && PushesReleased(Exec(run).log)
      {
        ReachableInv(policy, run);
      }
    } else if !covered {
      var runId, callId, worker :| (JobKey(runId, callId, worker), true) in policy;
      var run := ReuseRun(policy, Operation("r", "shell", "c", true, runId, callId, [worker]));
    } else {
      var key :| Conflict(policy, key);
      var runId, callId, worker :| key == JobKey(runId, callId, worker);
      var run := ConflictRun(policy, runId, callId, worker);
    }
  }

  // ---- Policies that never ask for approval ----

  /** A job that never had to do with approval. */
  predicate Plain(job: Job) {
    !job.approvalRequired && job.approval == NotRequired && job.status != WaitingApproval && job.status != Cancelled
  }

  predicate PlainRows(s: State) {
    (forall id | id in s.rows :: Plain(s.rows[id])) && forall i | 0 <= i < |s.log| && s.log[i].Pushed? :: Plain(s.log[i].job)
  }

  ghost predicate ThenPlain(policy: Policy, k: Then) {
    match k
    case DispatchTo(_, rest) => ThenPlain(policy, rest)
    case NextWorker(op, _) => OperationAllowed(policy, op)
    case NextClone(base, _, _, _) => Plain(base)
    case _ => true
  }

  ghost predicate ProcPlain(policy: Policy, p: Proc) {
    match p
    case CreateFind(job, k) => Plain(job) && ThenPlain(policy, k)
    case CreateDraw(job, k) => Plain(job) && ThenPlain(policy, k)
    case CreateInsert(job, _, k) => Plain(job) && ThenPlain(policy, k)
    case CreateRefind(_, k) => ThenPlain(policy, k)
    case CreateFetch(_, _, k) => ThenPlain(policy, k)
    case AssignRead(_, _, k) => ThenPlain(policy, k)
    case AssignCheck(_, _, _, k) => ThenPlain(policy, k)
    case AssignWrite(_, _, k) => ThenPlain(policy, k)
    case AssignReread(_, _, k) => ThenPlain(policy, k)
    case Push(_, _, job, k) => Plain(job) && ThenPlain(policy, k)
    case OperationLoop(op, _) => OperationAllowed(policy, op)
    case DispatchLoop(base, _, _, _) => Plain(base)
    case _ => true
  }

  lemma {:induction false} ResumePlain(policy: Policy, k: Then, id: nat, job: Job)
    requires ThenPlain(policy, k)
    ensures ProcPlain(policy, OnFail(k)) && ProcPlain(policy, OnOk(k, id, job))
  {
    if k.DispatchTo? { ResumePlain(policy, k.rest, id, job); }
  }

  lemma OperationsPlain(policy: Policy, op: Operation, i: nat)
    requires !MayGate(policy) && OperationAllowed(policy, op) && i < |op.workers|
    ensures Plain(OperationJob(op, op.workers[i]))
  {
    assert (JobKey(op.runId, op.callId, op.workers[i]), op.approval) in policy;
  }

  ghost predicate StepPlain(policy: Policy, s: State, t: State, q: Proc) {
    PlainRows(t) && ProcPlain(policy, q) && t.procs == s.procs
  }

  lemma CreatePlain(policy: Policy, s: State, p: Proc, c: Choice)
    requires PlainRows(s) && ProcPlain(policy, p)
    requires p.CreateFind? || p.CreateDraw? || p.CreateInsert? || p.CreateRefind? || p.CreateFetch?
    ensures StepPlain(policy, s, CreateStep(s, p, c).0, CreateStep(s, p, c).1)
  {
    var id := if p.CreateInsert? || p.CreateFetch? then p.id else 0;
    var job := if p.CreateInsert? then p.job.(createdAt := c.now, updatedAt := c.now)
               else if id in s.rows then Read(s.rows[id]) else MANUAL;
    ResumePlain(policy, p.k, id, job);
  }

  lemma AssignPlain(policy: Policy, s: State, p: Proc, c: Choice)
    requires PlainRows(s) && ProcPlain(policy, p)
    requires p.AssignRead? || p.AssignCheck? || p.AssignWrite? || p.AssignReread? || p.Push?
    ensures StepPlain(policy, s, AssignStep(s, p, c).0, AssignStep(s, p, c).1)
  {
    ResumePlain(policy, p.k, p.id, if p.Push? then p.job else MANUAL);
  }

  lemma LoopPlain(policy: Policy, s: State, p: Proc, c: Choice)
    requires !MayGate(policy) && PlainRows(s) && ProcPlain(policy, p)
    requires p.OperationLoop? || p.DispatchRead? || p.DispatchLoop?
    ensures StepPlain(policy, s, LoopStep(s, p, c).0, LoopStep(s, p, c).1)
  {
    if p.OperationLoop? && p.i < |p.op.workers| { OperationsPlain(policy, p.op, p.i); }
  }

  lemma WorkPlain(policy: Policy, s: State, p: Proc, c: Choice)
    requires PlainRows(s) && (p.DeleteRead? || p.DeleteWrite? || p.PickSelect? || p.PickWrite? || p.CompleteWrite?)
    ensures StepPlain(policy, s, WorkStep(s, p, c).0, WorkStep(s, p, c).1)
  {
  }

  lemma DecidePlain(policy: Policy, s: State, p: Proc, c: Choice)
    requires PlainRows(s) && (p.ApproveWrite? || p.ApproveRead? || p.RejectWrite?)
    ensures StepPlain(policy, s, DecideStep(s, p, c).0, DecideStep(s, p, c).1)
  {
  }

  lemma AdvancePlain(policy: Policy, s: State, p: Proc, c: Choice)
    requires !MayGate(policy) && PlainRows(s) && ProcPlain(policy, p)
    ensures StepPlain(policy, s, Advance(s, p, c).0, Advance(s, p, c).1)
  {
    if p.CreateFind? || p.CreateDraw? || p.CreateInsert? || p.CreateRefind? || p.CreateFetch? {
      CreatePlain(policy, s, p, c);
    } else if p.AssignRead? || p.AssignCheck? || p.AssignWrite? || p.AssignReread? || p.Push? {
      AssignPlain(policy, s, p, c);
    } else if p.OperationLoop? || p.DispatchRead? || p.DispatchLoop? {
      LoopPlain(policy, s, p, c);
    } else if p.ApproveWrite? || p.ApproveRead? || p.RejectWrite? {
      DecidePlain(policy, s, p, c);
    } else if !p.Finished? {
      WorkPlain(policy, s, p, c);
    }
  }

  /** Without a gated call every row and push stays plain, whatever seeds are used. */
  lemma {:induction false} UngatedRun(policy: Policy, run: seq<Label>)
    requires Legal(policy, run) && !MayGate(policy)
    ensures PlainRows(Exec(run)) && forall pid | pid in Exec(run).procs :: ProcPlain(policy, Exec(run).procs[pid])
  {
    if run != [] {
      var s, l := Exec(run[..|run| - 1]), run[|run| - 1];
      UngatedRun(policy, run[..|run| - 1]);
      if l.Step? { AdvancePlain(policy, s, s.procs[l.pid], l.c); }
      if l.Start? { RequestPlain(policy, l.p); }
    }
  }

  lemma RequestPlain(policy: Policy, p: Proc)
    requires IsRequest(policy, p)
    ensures ProcPlain(policy, p)
  {
  }

  // ---- Failing runs ----

  lemma RunsUnapproved(rows: Rows, id: nat, worker: string)
    requires id in rows && rows[id].approvalRequired && rows[id].approval == AwaitingDecision
    ensures !RowSafe(AssignRow(rows, id, worker, 0)[id])
  {
  }

  /** A call that needs approval leaves a waiting job under its key; a call under
      the same key that needs none finds that job and assigns it. */
  lemma ConflictRun(policy: Policy, runId: string, callId: string, worker: string) returns (run: seq<Label>)
    requires Conflict(policy, JobKey(runId, callId, worker))
    ensures Legal(policy, run) && SeedsCover(run) && !Safe(Exec(run))
  {
    var gated := Operation("r", "shell", "c", true, runId, callId, [worker]);
    var open := gated.(approval := false);
    var job, s := OperationJob(gated, worker), INITIAL;
    run := Operate(policy, true, [], s, 0, gated);
    run := Create(policy, true, run, s, 0, job, NextWorker(gated, 1));
    s := Put(Inserted(s, job), 0, OperationLoop(gated, 1));
    run := FindsAndAssigns(policy, run, s, open, worker);
  }

  lemma FindsAndAssigns(policy: Policy, run0: seq<Label>, s: State, op: Operation, worker: string) returns (run: seq<Label>)
    requires Reaches(policy, true, run0, s) && 1 !in s.procs && OperationAllowed(policy, op)
    requires !op.approval && op.workers == [worker] && JobKey(op.runId, op.callId, worker) != ""
    requires HasKey(s.rows, 1, JobKey(op.runId, op.callId, worker)) && s.rows[1].workerType == "shell"
    requires s.rows[1].approvalRequired && s.rows[1].approval == AwaitingDecision
    ensures Legal(policy, run) && SeedsCover(run) && !Safe(Exec(run))
  {
    var job, k := OperationJob(op, worker), NextWorker(op, 1);
    var t := Note(s, s.rows, Returned(job.key, 1));
    run := Operate(policy, true, run0, s, 1, op);
    run := Finds(policy, true, run, s, 1, job, DispatchTo(worker, k));
    run := FetchesToAssign(policy, true, run, s, 1, job.key, worker, k);
    run := ReadyToAssign(policy, true, run, t, 1, 1, worker, k);
    run := Assigns(policy, true, run, t, 1, 1, worker, k);
    RunsUnapproved(s.rows, 1, worker);
    assert Exec(run).rows == AssignRow(s.rows, 1, worker, 0);
  }

  lemma FetchesToAssign(policy: Policy, covered: bool, run0: seq<Label>, s: State, pid: nat, key: string, worker: string, k: Then)
    returns (run: seq<Label>)
    requires Reaches(policy, covered, run0, Put(s, pid, CreateFetch(key, 1, DispatchTo(worker, k)))) && 1 in s.rows
    ensures Reaches(policy, covered, run, Put(Note(s, s.rows, Returned(key, 1)), pid, AssignRead(1, worker, k)))
  {
    run := Continue(policy, covered, run0, s, pid, CreateFetch(key, 1, DispatchTo(worker, k)));
  }

  lemma DispatchReady(policy: Policy, run0: seq<Label>, s: State, pid: nat) returns (run: seq<Label>, k: Then)
    requires Reaches(policy, false, run0, s) && pid !in s.procs && 1 in s.rows
    requires s.rows[1].status == Pending && s.rows[1].workerType == "shell"
    ensures Reaches(policy, false, run, Put(s, pid, AssignWrite(1, "w", k)))
  {
    var base := Read(s.rows[1]);
    k := NextClone(base, 1, ["w"], 1);
    run := Begin(policy, false, run0, s, pid, DispatchRead(1, ["w"]));
    run := Continue(policy, false, run, s, pid, DispatchRead(1, ["w"]));
    ShellRunsShell();
    run := Continue(policy, false, run, s, pid, DispatchLoop(base, 1, ["w"], 0));
    run := ReadyToAssign(policy, false, run, s, pid, 1, "w", k);
  }

  /** The server restarts with a seed of 0 although job 1 is stored. A dispatch of
      job 1 is about to write when the job is deleted; an operation that needs
      approval draws id 1 again, and the late write sets its waiting job running. */
  lemma ReuseRun(policy: Policy, op: Operation) returns (run: seq<Label>)
    requires op.approval && |op.workers| == 1 && OperationAllowed(policy, op)
    ensures Legal(policy, run) && !Safe(Exec(run))
  {
    var s, k := INITIAL, Stop;
    run := CreateManually(policy, false, [], s, 0);
    s := Put(Inserted(s, MANUAL), 0, Finished);
    run := Undershoot(policy, run, s);
    s := State(s.rows, 0, map[], s.rows.Keys, s.log);
    run, k := DispatchReady(policy, run, s, 0);
    run := ReuseAndAssign(policy, run, s, k, op);
  }

  lemma ReuseAndAssign(policy: Policy, run0: seq<Label>, s0: State, k: Then, op: Operation) returns (run: seq<Label>)
    requires op.approval && |op.workers| == 1 && OperationAllowed(policy, op)
    requires Reaches(policy, false, run0, Put(s0, 0, AssignWrite(1, "w", k))) && s0.counter == 0 && s0.procs == map[]
    requires s0.rows.Keys == {1} && s0.rows[1].status == Pending
    ensures Legal(policy, run) && !Safe(Exec(run))
  {
    var job, s := OperationJob(op, op.workers[0]), Put(s0, 0, AssignWrite(1, "w", k));
    run := Delete(policy, false, run0, s, 1, 1);
    s := Put(Note(s, s.rows - {1}, Deleted(1)), 1, Finished);
    assert s.rows == map[];
    run := Operate(policy, false, run, s, 2, op);
    run := Create(policy, false, run, s, 2, job, NextWorker(op, 1));
    s := Put(Inserted(s, job), 2, OperationLoop(op, 1));
    assert s == Put(s, 0, AssignWrite(1, "w", k));
    run := Assigns(policy, false, run, s, 0, 1, "w", k);
    RunsUnapproved(s.rows, 1, "w");
    assert Exec(run).rows == AssignRow(s.rows, 1, "w", 0);
  }

  /** The cast in the query of the jobs table at start-up fails exactly for a number
      that does not fit a BIGINT, and covering the table is covering the stored jobs. */
  lemma SeedingCovers(rows: Rows, table: seq<string>, c: nat)
    requires forall id: string :: id in table <==> exists v | v in rows :: id == Ids.Format("job", v)
    ensures Ids.Castable(table) <==> forall v | v in rows :: v < Ids.BIGINT_LIMIT
    ensures Ids.Covers(c, table) <==> Covers(rows, c)
  {
    forall v | v in rows
      ensures exists i :: 0 <= i < |table| && table[i] == Ids.Format("job", v) && Ids.Suffix(table[i]) == Some(v)
    {
      assert Ids.Format("job", v) in table;
      Ids.SuffixOfFormat("job", v);
    }
    forall i | 0 <= i < |table|
      ensures exists v | v in rows :: Ids.Suffix(table[i]) == Some(v)
    {
      assert table[i] in table;
      var v :| v in rows && table[i] == Ids.Format("job", v);
      Ids.SuffixOfFormat("job", v);
    }
  }

  // ---- Idempotency keys ----

  lemma KeyParts(runId: string, callId: string, worker: string, runId': string, callId': string, worker': string)
    requires ':' !in runId && ':' !in runId' && ':' !in worker && ':' !in worker'
    requires JobKey(runId, callId, worker) == JobKey(runId', callId', worker') != ""
    ensures runId == runId' && callId == callId' && worker == worker'
  {
    var key := JobKey(runId, callId, worker);
    assert key == runId + ":" + callId + ":" + worker == runId' + ":" + callId' + ":" + worker';
    assert |runId| == |runId'| by {
      assert key[|runId|] == ':' && key[|runId'|] == ':';
      assert forall i | 0 <= i < |runId| :: key[i] == runId[i];
      assert forall i | 0 <= i < |runId'| :: key[i] == runId'[i];
    }
    assert |worker| == |worker'| by {
      var n := |key|;
      assert key[n - |worker| - 1] == ':' && key[n - |worker'| - 1] == ':';
      assert forall i | n - |worker| <= i < n :: key[i] == worker[i - (n - |worker|)];
      assert forall i | n - |worker'| <= i < n :: key[i] == worker'[i - (n - |worker'|)];
    }
    assert runId == key[..|runId|] && worker == key[|key| - |worker|..];
    assert runId' == key[..|runId|] && worker' == key[|key| - |worker|..];
    assert callId == key[|runId| + 1..|key| - |worker| - 1] && callId' == key[|runId| + 1..|key| - |worker| - 1];
  }

  /** Whatever the model sends as call ids, the keys of generated runs and workers
      are equal exactly for the same run, call and worker; there is none exactly
      without a call id, or outside a run. */
  lemma KeyNamesCall(run: nat, callId: string, worker: nat, run': nat, callId': string, worker': nat)
    ensures callId != "" && callId' != "" ==>
              (JobKey(Ids.Format("run", run), callId, Ids.Format("worker", worker)) ==
               JobKey(Ids.Format("run", run'), callId', Ids.Format("worker", worker')) <==>
               run == run' && callId == callId' && worker == worker')
    ensures JobKey(Ids.Format("run", run), callId, Ids.Format("worker", worker)) == "" <==> callId == ""
    ensures JobKey("", callId, Ids.Format("worker", worker)) == ""
  {
    var r, w, r', w' := Ids.Format("run", run), Ids.Format("worker", worker), Ids.Format("run", run'), Ids.Format("worker", worker');
    if callId != "" && callId' != "" && JobKey(r, callId, w) == JobKey(r', callId', w') {
      NoColon("run", run);
      NoColon("run", run');
      NoColon("worker", worker);
      NoColon("worker", worker');
      KeyParts(r, callId, w, r', callId', w');
      Ids.FormatInjective("run", run, "run", run');
      Ids.FormatInjective("worker", worker, "worker", worker');
    }
  }

  lemma NoColon(prefix: string, v: nat)
    requires ':' !in prefix
    ensures ':' !in Ids.Format(prefix, v)
  {
    assert Ids.AllDigits(Ids.Counter(v));
  }
}
