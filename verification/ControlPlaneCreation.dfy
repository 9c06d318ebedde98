/** Idempotency of CreateJob: no two rows ever share a key, and all successful
    calls under one key give one job while it exists, exactly when no restart
    seeds the id counter below a stored job or no call carries a key. */
module ControlPlaneCreation {
  import opened Jobs
  import opened ControlPlane
  import opened ControlPlaneRuns
  import H = ControlPlaneHistory
  import S = ControlPlaneSafety

  /** Two successful creations under one key that give different ids have the
      deletion of the first job in between. */
  ghost predicate ReturnsAgree(log: seq<Event>) {
    forall i, j | 0 <= i < j < |log| && log[i].Returned? && log[j].Returned? &&
                  log[i].key == log[j].key != "" && log[i].id != log[j].id ::
      H.Between(log, i, j, H.Deletion(log[i].id))
  }

  ghost predicate KeysUnique(rows: Rows) {
    forall a, b | a in rows && b in rows && rows[a].key == rows[b].key != "" :: a == b
  }

  // ---- No key is on two rows, in any run ----

  /** A step inserts one new row, deletes one, or keeps every row's key. */
  ghost predicate KeysKept(s: State, t: State) {
    forall id | id in t.rows :: id in s.rows && t.rows[id].key == s.rows[id].key
  }

  lemma CreateKeepsKeys(s: State, p: Proc, c: Choice)
    requires p.CreateFind? || p.CreateDraw? || p.CreateRefind? || p.CreateFetch?
    ensures KeysKept(s, CreateStep(s, p, c).0)
  {
  }

  lemma AssignKeepsKeys(s: State, p: Proc, c: Choice)
    requires p.AssignRead? || p.AssignCheck? || p.AssignWrite? || p.AssignReread? || p.Push?
    ensures KeysKept(s, AssignStep(s, p, c).0)
  {
  }

  lemma WorkKeepsKeys(s: State, p: Proc, c: Choice)
    requires p.DeleteRead? || p.DeleteWrite? || p.PickSelect? || p.PickWrite? || p.CompleteWrite?
    ensures KeysKept(s, WorkStep(s, p, c).0)
  {
  }

  lemma StepKeepsKeys(s: State, p: Proc, c: Choice)
    requires !p.CreateInsert?
    ensures KeysKept(s, Advance(s, p, c).0)
  {
    if p.CreateFind? || p.CreateDraw? || p.CreateRefind? || p.CreateFetch? {
      CreateKeepsKeys(s, p, c);
    } else if p.AssignRead? || p.AssignCheck? || p.AssignWrite? || p.AssignReread? || p.Push? {
      AssignKeepsKeys(s, p, c);
    } else if p.DeleteRead? || p.DeleteWrite? || p.PickSelect? || p.PickWrite? || p.CompleteWrite? {
      WorkKeepsKeys(s, p, c);
    }
  }

  lemma AdvanceKeepsUnique(s: State, p: Proc, c: Choice)
    requires KeysUnique(s.rows)
    ensures KeysUnique(Advance(s, p, c).0.rows)
  {
    if !p.CreateInsert? { StepKeepsKeys(s, p, c); }
  }

  /** The unique index: two rows never carry the same non-empty key. */
  lemma {:induction false} NoKeyTwice(policy: Policy, run: seq<Label>)
    requires Legal(policy, run)
    ensures KeysUnique(Exec(run).rows)
  {
    if run != [] {
      var s, l := Exec(run[..|run| - 1]), run[|run| - 1];
      NoKeyTwice(policy, run[..|run| - 1]);
      if l.Step? { AdvanceKeepsUnique(s, s.procs[l.pid], l.c); }
    }
  }

  // ---- Runs whose seeds cover the stored jobs ----

  ghost predicate ReturnLive(rows: Rows, log: seq<Event>, i: int)
    requires 0 <= i < |log| && log[i].Returned?
  {
    log[i].key == "" || HasKey(rows, log[i].id, log[i].key) || H.Between(log, i, |log|, H.Deletion(log[i].id))
  }

  ghost predicate ReturnsLive(rows: Rows, log: seq<Event>) {
    forall i | 0 <= i < |log| && log[i].Returned? :: ReturnLive(rows, log, i)
  }

  ghost predicate ProcKnows(s: State, p: Proc) {
    match p
    case CreateInsert(job, id, _) => id <= s.counter && id !in s.born
    case CreateFetch(key, id, _) => id in s.born && (id in s.rows ==> s.rows[id].key == key)
    case _ => true
  }

  ghost predicate RowsOk(s: State) {
    ReturnsAgree(s.log) && ReturnsLive(s.rows, s.log) && KeysUnique(s.rows) &&
    s.rows.Keys <= s.born && forall id | id in s.born :: id <= s.counter
  }

  ghost predicate Inv(s: State) {
    RowsOk(s) && (forall pid | pid in s.procs :: ProcKnows(s, s.procs[pid])) &&
    (forall a, b | a in s.procs && b in s.procs && a != b && s.procs[a].CreateInsert? && s.procs[b].CreateInsert? ::
       s.procs[a].id != s.procs[b].id)
  }

  lemma AppendOther(rows: Rows, after: Rows, log: seq<Event>, e: Event)
    requires ReturnsAgree(log) && ReturnsLive(rows, log) && !e.Returned?
    requires forall id | id in rows :: (id in after && after[id].key == rows[id].key) || e == Deleted(id)
    ensures ReturnsAgree(log + [e]) && ReturnsLive(after, log + [e])
  {
    var l := log + [e];
    forall i, j | 0 <= i < j < |l| && l[i].Returned? && l[j].Returned? && l[i].key == l[j].key != "" && l[i].id != l[j].id
      ensures H.Between(l, i, j, H.Deletion(l[i].id))
    {
      assert H.Between(log, i, j, H.Deletion(log[i].id));
      H.BetweenGrows(log, i, j, H.Deletion(l[i].id), e);
    }
    forall i | 0 <= i < |l| && l[i].Returned?
      ensures ReturnLive(after, l, i)
    {
      assert ReturnLive(rows, log, i);
      if H.Between(log, i, |log|, H.Deletion(log[i].id)) {
        H.BetweenGrows(log, i, |log|, H.Deletion(log[i].id), e);
      } else if e == Deleted(log[i].id) {
        assert l[|log|] == e;
      }
    }
  }

  lemma AppendReturned(rows: Rows, log: seq<Event>, key: string, id: nat)
    requires ReturnsAgree(log) && ReturnsLive(rows, log) && KeysUnique(rows) && HasKey(rows, id, key)
    ensures ReturnsAgree(log + [Returned(key, id)]) && ReturnsLive(rows, log + [Returned(key, id)])
  {
    var e := Returned(key, id);
    var l := log + [e];
    forall i, j | 0 <= i < j < |l| && l[i].Returned? && l[j].Returned? && l[i].key == l[j].key != "" && l[i].id != l[j].id
      ensures H.Between(l, i, j, H.Deletion(l[i].id))
    {
      if j < |log| { assert H.Between(log, i, j, H.Deletion(log[i].id)); } else { assert ReturnLive(rows, log, i); }
      H.BetweenGrows(log, i, j, H.Deletion(l[i].id), e);
    }
    forall i | 0 <= i < |l| && l[i].Returned?
      ensures ReturnLive(rows, l, i)
    {
      if i < |log| {
        assert ReturnLive(rows, log, i);
        if H.Between(log, i, |log|, H.Deletion(log[i].id)) { H.BetweenGrows(log, i, |log|, H.Deletion(log[i].id), e); }
      }
    }
  }

  /** What a step may do to the rows and ids that other handlers remember. */
  ghost predicate Evolves(s: State, t: State) {
    s.born <= t.born && s.counter <= t.counter &&
    forall id | id in s.born && id in t.rows :: id in s.rows && t.rows[id].key == s.rows[id].key
  }

  ghost predicate StepOk(s: State, p: Proc, t: State, q: Proc) {
    RowsOk(t) && Evolves(s, t) && t.procs == s.procs && ProcKnows(t, q) &&
    (q.CreateInsert? ==> q.id == s.counter + 1) &&
    (t.born == s.born || (p.CreateInsert? && t.born == s.born + {p.id}))
  }

  predicate Simple(q: Proc) {
    !q.CreateInsert? && !q.CreateFetch?
  }

  lemma {:induction false} ResumeSimple(k: Then, id: nat, job: Job)
    ensures Simple(OnFail(k)) && Simple(OnOk(k, id, job))
  {
    if k.DispatchTo? { ResumeSimple(k.rest, id, job); }
  }

  lemma LookingOk(s: State, p: Proc, q: Proc)
    requires RowsOk(s) && ProcKnows(s, q) && !q.CreateInsert?
    ensures StepOk(s, p, s, q)
  {
  }

  /** A step that notes one event and keeps every key or deletes one row. */
  lemma NotingOk(s: State, p: Proc, rows: Rows, e: Event, q: Proc)
    requires RowsOk(s) && !e.Returned? && Simple(q)
    requires forall id | id in rows :: id in s.rows && rows[id].key == s.rows[id].key
    requires forall id | id in s.rows :: id in rows || e == Deleted(id)
    ensures StepOk(s, p, Note(s, rows, e), q)
  {
    AppendOther(s.rows, rows, s.log, e);
  }

  lemma InsertStepOk(s: State, p: Proc, c: Choice)
    requires RowsOk(s) && ProcKnows(s, p) && p.CreateInsert?
    ensures StepOk(s, p, CreateStep(s, p, c).0, CreateStep(s, p, c).1)
  {
    var (t, q) := CreateStep(s, p, c);
    ResumeSimple(p.k, p.id, p.job.(createdAt := c.now, updatedAt := c.now));
    if !c.fail && Insertable(s.rows, p.id, p.job.key) {
      AppendOther(s.rows, t.rows, s.log, Created(p.id, t.rows[p.id]));
      AppendReturned(t.rows, s.log + [Created(p.id, t.rows[p.id])], p.job.key, p.id);
    }
  }

  lemma CreateStepOk(s: State, p: Proc, c: Choice)
    requires RowsOk(s) && ProcKnows(s, p) && (p.CreateFind? || p.CreateDraw? || p.CreateRefind? || p.CreateFetch?)
    ensures StepOk(s, p, CreateStep(s, p, c).0, CreateStep(s, p, c).1)
  {
    ResumeSimple(p.k, 0, MANUAL);
    if p.CreateFetch? && !c.fail && p.id in s.rows {
      ResumeSimple(p.k, p.id, Read(s.rows[p.id]));
      AppendReturned(s.rows, s.log, p.key, p.id);
    }
  }

  lemma AssignStepOk(s: State, p: Proc, c: Choice)
    requires RowsOk(s) && (p.AssignRead? || p.AssignCheck? || p.AssignWrite? || p.AssignReread? || p.Push?)
    ensures StepOk(s, p, AssignStep(s, p, c).0, AssignStep(s, p, c).1)
  {
    var (t, q) := AssignStep(s, p, c);
    ResumeSimple(p.k, p.id, if p.Push? then p.job else MANUAL);
    if p.AssignWrite? && t != s {
      NotingOk(s, p, t.rows, Assigned(p.id, p.worker, c.now), q);
    } else if p.Push? && t != s {
      NotingOk(s, p, s.rows, Pushed(p.id, p.worker, p.job), q);
    } else {
      LookingOk(s, p, q);
    }
  }

  lemma DecideStepOk(s: State, p: Proc, c: Choice)
    requires RowsOk(s) && (p.ApproveWrite? || p.ApproveRead? || p.RejectWrite?)
    ensures StepOk(s, p, DecideStep(s, p, c).0, DecideStep(s, p, c).1)
  {
    var (t, q) := DecideStep(s, p, c);
    if !p.ApproveRead? && t != s {
      NotingOk(s, p, t.rows, Decided(p.id, p.ApproveWrite?, p.who, p.comment, c.now), q);
    } else {
      LookingOk(s, p, q);
    }
  }

  lemma WorkStepOk(s: State, p: Proc, c: Choice)
    requires RowsOk(s) && (p.DeleteRead? || p.DeleteWrite? || p.PickSelect? || p.PickWrite? || p.CompleteWrite?)
    ensures StepOk(s, p, WorkStep(s, p, c).0, WorkStep(s, p, c).1)
  {
    var (t, q) := WorkStep(s, p, c);
    if p.PickWrite? && t != s {
      NotingOk(s, p, t.rows, Assigned(p.id, p.worker, c.now), q);
    } else if p.CompleteWrite? && t != s {
      NotingOk(s, p, t.rows, Completed(p.id, p.worker, p.output, p.success, c.now), q);
    } else if p.DeleteWrite? && t != s {
      NotingOk(s, p, t.rows, Deleted(p.id), q);
    } else {
      LookingOk(s, p, q);
    }
  }

  lemma LoopsOnlyLook(s: State, p: Proc, c: Choice)
    requires p.OperationLoop? || p.DispatchRead? || p.DispatchLoop? || p.Finished?
    ensures Advance(s, p, c).0 == s && Simple(Advance(s, p, c).1)
  {
  }

  lemma AdvanceOk(s: State, p: Proc, c: Choice)
    requires RowsOk(s) && ProcKnows(s, p)
    ensures StepOk(s, p, Advance(s, p, c).0, Advance(s, p, c).1)
  {
    if p.CreateInsert? {
      InsertStepOk(s, p, c);
    } else if p.CreateFind? || p.CreateDraw? || p.CreateRefind? || p.CreateFetch? {
      CreateStepOk(s, p, c);
    } else if p.AssignRead? || p.AssignCheck? || p.AssignWrite? || p.AssignReread? || p.Push? {
      AssignStepOk(s, p, c);
    } else if p.ApproveWrite? || p.ApproveRead? || p.RejectWrite? {
      DecideStepOk(s, p, c);
    } else if p.OperationLoop? || p.DispatchRead? || p.DispatchLoop? || p.Finished? {
      LoopsOnlyLook(s, p, c);
      LookingOk(s, p, Advance(s, p, c).1);
    } else {
      WorkStepOk(s, p, c);
    }
  }

  lemma OneStepKeepsInv(s: State, pid: nat, p: Proc, t: State, q: Proc)
    requires Inv(s) && pid in s.procs && s.procs[pid] == p && StepOk(s, p, t, q)
    ensures Inv(t.(procs := t.procs[pid := q]))
  {
  }

  lemma LabelKeepsInv(policy: Policy, s: State, l: Label)
    requires Inv(s) && Enabled(policy, s, l) && (l.Restart? ==> Covers(s.rows, l.counter))
    ensures Inv(Apply(s, l))
  {
    if l.Step? {
      var p := s.procs[l.pid];
      AdvanceOk(s, p, l.c);
      OneStepKeepsInv(s, l.pid, p, Advance(s, p, l.c).0, Advance(s, p, l.c).1);
    }
  }

  lemma {:induction false} CoveredInv(policy: Policy, run: seq<Label>)
    requires Legal(policy, run) && SeedsCover(run)
    ensures Inv(Exec(run))
  {
    if run != [] {
      CoveredInv(policy, run[..|run| - 1]);
      LabelKeepsInv(policy, Exec(run[..|run| - 1]), run[|run| - 1]);
    }
  }

  // ---- Policies that answer no key ----

  ghost predicate NoKeys(policy: Policy) {
    forall key, approval :: !S.Answers(policy, key, approval)
  }

  ghost predicate ThenKeyless(policy: Policy, k: Then) {
    match k
    case DispatchTo(_, rest) => ThenKeyless(policy, rest)
    case NextWorker(op, _) => OperationAllowed(policy, op)
    case NextClone(base, _, _, _) => base.key == ""
    case _ => true
  }

  ghost predicate Keyless(policy: Policy, p: Proc) {
    match p
    case CreateFind(job, k) => job.key == "" && ThenKeyless(policy, k)
    case CreateDraw(job, k) => job.key == "" && ThenKeyless(policy, k)
    case CreateInsert(job, _, k) => job.key == "" && ThenKeyless(policy, k)
    case CreateRefind(_, _) => false
    case CreateFetch(_, _, _) => false
    case AssignRead(_, _, k) => ThenKeyless(policy, k)
    case AssignCheck(_, _, _, k) => ThenKeyless(policy, k)
    case AssignWrite(_, _, k) => ThenKeyless(policy, k)
    case AssignReread(_, _, k) => ThenKeyless(policy, k)
    case Push(_, _, _, k) => ThenKeyless(policy, k)
    case OperationLoop(op, _) => OperationAllowed(policy, op)
    case DispatchLoop(base, _, _, _) => base.key == ""
    case _ => true
  }

  predicate ReturnsKeyless(log: seq<Event>) {
    forall i | 0 <= i < |log| && log[i].Returned? :: log[i].key == ""
  }

  lemma {:induction false} ResumeKeyless(policy: Policy, k: Then, id: nat, job: Job)
    requires ThenKeyless(policy, k)
    ensures Keyless(policy, OnFail(k)) && Keyless(policy, OnOk(k, id, job))
  {
    if k.DispatchTo? { ResumeKeyless(policy, k.rest, id, job); }
  }

  lemma OperationsKeyless(policy: Policy, op: Operation, i: nat)
    requires NoKeys(policy) && OperationAllowed(policy, op) && i < |op.workers|
    ensures OperationJob(op, op.workers[i]).key == ""
  {
    var key := JobKey(op.runId, op.callId, op.workers[i]);
    if key != "" { assert S.Answers(policy, key, op.approval); }
  }

  lemma CreateKeyless(policy: Policy, s: State, p: Proc, c: Choice)
    requires Keyless(policy, p) && ReturnsKeyless(s.log) && (p.CreateFind? || p.CreateDraw? || p.CreateInsert?)
    ensures ReturnsKeyless(CreateStep(s, p, c).0.log) && Keyless(policy, CreateStep(s, p, c).1)
  {
    var id := if p.CreateInsert? then p.id else 0;
    ResumeKeyless(policy, p.k, id, p.job.(createdAt := c.now, updatedAt := c.now));
  }

  lemma AssignKeyless(policy: Policy, s: State, p: Proc, c: Choice)
    requires Keyless(policy, p) && ReturnsKeyless(s.log)
    requires p.AssignRead? || p.AssignCheck? || p.AssignWrite? || p.AssignReread? || p.Push?
    ensures ReturnsKeyless(AssignStep(s, p, c).0.log) && Keyless(policy, AssignStep(s, p, c).1)
  {
    ResumeKeyless(policy, p.k, p.id, if p.Push? then p.job else MANUAL);
  }

  lemma LoopKeyless(policy: Policy, s: State, p: Proc, c: Choice)
    requires NoKeys(policy) && Keyless(policy, p) && (p.OperationLoop? || p.DispatchRead? || p.DispatchLoop?)
    ensures LoopStep(s, p, c).0 == s && Keyless(policy, LoopStep(s, p, c).1)
  {
    if p.OperationLoop? && p.i < |p.op.workers| { OperationsKeyless(policy, p.op, p.i); }
  }

  lemma AdvanceKeyless(policy: Policy, s: State, p: Proc, c: Choice)
    requires NoKeys(policy) && Keyless(policy, p) && ReturnsKeyless(s.log)
    ensures ReturnsKeyless(Advance(s, p, c).0.log) && Keyless(policy, Advance(s, p, c).1)
    ensures Advance(s, p, c).0.procs == s.procs
  {
    if p.CreateFind? || p.CreateDraw? || p.CreateInsert? {
      CreateKeyless(policy, s, p, c);
    } else if p.AssignRead? || p.AssignCheck? || p.AssignWrite? || p.AssignReread? || p.Push? {
      AssignKeyless(policy, s, p, c);
    } else if p.OperationLoop? || p.DispatchRead? || p.DispatchLoop? {
      LoopKeyless(policy, s, p, c);
    }
  }

  lemma RequestKeyless(policy: Policy, p: Proc)
    requires IsRequest(policy, p)
    ensures Keyless(policy, p)
  {
  }

  lemma {:induction false} KeylessRun(policy: Policy, run: seq<Label>)
    requires Legal(policy, run) && NoKeys(policy)
    ensures ReturnsKeyless(Exec(run).log) && forall pid | pid in Exec(run).procs :: Keyless(policy, Exec(run).procs[pid])
  {
    if run != [] {
      var s, l := Exec(run[..|run| - 1]), run[|run| - 1];
      KeylessRun(policy, run[..|run| - 1]);
      if l.Step? { AdvanceKeyless(policy, s, s.procs[l.pid], l.c); }
      if l.Start? { RequestKeyless(policy, l.p); }
    }
  }

  // ---- The exact condition ----

  ghost predicate AlwaysIdempotent(policy: Policy, covered: bool) {
    forall run | Legal(policy, run) && (covered ==> SeedsCover(run)) :: ReturnsAgree(Exec(run).log)
  }

  /** All calls under one key that return give one id while its job exists, over
      all runs, if and only if seeds cover the stored ids or no call has a key. */
  lemma CreateJobIdempotent(policy: Policy, covered: bool)
    ensures AlwaysIdempotent(policy, covered) <==> covered || NoKeys(policy)
  {
    if covered {
      forall run | Legal(policy, run) && SeedsCover(run) ensures ReturnsAgree(Exec(run).log) { CoveredInv(policy, run); }
    } else if NoKeys(policy) {
      forall run | Legal(policy, run) ensures ReturnsAgree(Exec(run).log) { KeylessRun(policy, run); }
    } else {
      var key, approval :| S.Answers(policy, key, approval);
      var runId, callId, worker :| key == JobKey(runId, callId, worker);
      var run := TwoJobsRun(policy, Operation("r", "shell", "c", approval, runId, callId, [worker]));
    }
  }

  /** Job 1 is stored under a key when the server restarts with a seed of 0. A call
      under that key finds it and is about to read it when it is deleted and
      a manual job gets id 1 again: the call returns job 1. A later call under the
      key creates job 2. */
  lemma TwoJobsRun(policy: Policy, op: Operation) returns (run: seq<Label>)
    requires |op.workers| == 1 && OperationAllowed(policy, op) && JobKey(op.runId, op.callId, op.workers[0]) != ""
    ensures Legal(policy, run) && !ReturnsAgree(Exec(run).log)
  {
    var job, k, s := OperationJob(op, op.workers[0]), AfterJob(op), INITIAL;
    run := Operate(policy, false, [], s, 0, op);
    run := Create(policy, false, run, s, 0, job, k);
    s := Put(Inserted(s, job), 0, OnOk(k, 1, Inserted(s, job).rows[1]));
    run := Undershoot(policy, run, s);
    s := State(s.rows, 0, map[], s.rows.Keys, s.log);
    run := Operate(policy, false, run, s, 0, op);
    run := Finds(policy, false, run, s, 0, job, k);
    run := ReplacedThenFetched(policy, run, s, op);
  }

  lemma ReplacedThenFetched(policy: Policy, run0: seq<Label>, s0: State, op: Operation) returns (run: seq<Label>)
    requires |op.workers| == 1 && OperationAllowed(policy, op) && JobKey(op.runId, op.callId, op.workers[0]) != ""
    requires s0.counter == 0 && s0.procs == map[] && s0.rows.Keys == {1} && s0.rows[1].status in {Pending, WaitingApproval}
    requires Reaches(policy, false, run0, Put(s0, 0, CreateFetch(JobKey(op.runId, op.callId, op.workers[0]), 1, AfterJob(op))))
    ensures Legal(policy, run) && !ReturnsAgree(Exec(run).log)
  {
    var key, k := JobKey(op.runId, op.callId, op.workers[0]), AfterJob(op);
    var s := Put(s0, 0, CreateFetch(key, 1, k));
    run := Delete(policy, false, run0, s, 1, 1);
    s := Put(Note(s, s.rows - {1}, Deleted(1)), 1, Finished);
    assert s.rows == map[];
    run := CreateManually(policy, false, run, s, 2);
    s := Put(Inserted(s, MANUAL), 2, Finished);
    assert s == Put(s, 0, CreateFetch(key, 1, k));
    run := FetchThenCreate(policy, run, s, op);
  }

  lemma FetchThenCreate(policy: Policy, run0: seq<Label>, s0: State, op: Operation) returns (run: seq<Label>)
    requires |op.workers| == 1 && OperationAllowed(policy, op) && JobKey(op.runId, op.callId, op.workers[0]) != ""
    requires s0.counter == 1 && 3 !in s0.procs && s0.rows.Keys == {1} && s0.rows[1].key == ""
    requires Reaches(policy, false, run0, Put(s0, 0, CreateFetch(JobKey(op.runId, op.callId, op.workers[0]), 1, AfterJob(op))))
    ensures Legal(policy, run) && !ReturnsAgree(Exec(run).log)
  {
    var job, key, k := OperationJob(op, op.workers[0]), JobKey(op.runId, op.callId, op.workers[0]), AfterJob(op);
    run := Continue(policy, false, run0, s0, 0, CreateFetch(key, 1, k));
    var s := Put(Note(s0, s0.rows, Returned(key, 1)), 0, OnOk(k, 1, Read(s0.rows[1])));
    run := Operate(policy, false, run, s, 3, op);
    run := Create(policy, false, run, s, 3, job, k);
    TwoReturns(Exec(run).log, s0.log, key);
  }

  lemma TwoReturns(log: seq<Event>, before: seq<Event>, key: string)
    requires key != "" && |log| == |before| + 3
    requires log == before + [Returned(key, 1), log[|before| + 1], Returned(key, 2)] && log[|before| + 1].Created?
    ensures !ReturnsAgree(log)
  {
    var n := |before|;
    assert !H.Between(log, n, n + 2, H.Deletion(1));
    assert log[n].Returned? && log[n + 2].Returned? && log[n].id != log[n + 2].id;
  }

  // ---- Clones ----

  const TARGETS := ["w", "x"]

  lemma LoopStarts(s: State, base: Job)
    requires base.workerType == "shell"
    ensures Advance(s, DispatchLoop(base, 1, TARGETS, 0), CALM) == (s, AssignRead(1, "w", NextClone(base, 1, TARGETS, 1)))
    ensures Advance(s, DispatchLoop(base, 1, TARGETS, 1), CALM) ==
            (s, CreateFind(Clone(base, 1, "x"), DispatchTo("x", NextClone(base, 1, TARGETS, 2))))
  {
    ShellRunsShell();
  }

  /** The shared state when a dispatch has handed job 1 to its first worker. */
  function Handed(s: State): State
    requires 1 in s.rows
  {
    var rows := AssignRow(s.rows, 1, "w", 0);
    Note(Note(s, rows, Assigned(1, "w", 0)), rows, Pushed(1, "w", Read(rows[1])))
  }

  lemma RereadsAndPushes(s: State, k: Then, base: Job)
    requires 1 in s.rows && k == NextClone(base, 1, TARGETS, 1)
    ensures Advance(s, AssignReread(1, "w", k), CALM) == (s, Push(1, "w", Read(s.rows[1]), k))
    ensures Advance(s, Push(1, "w", Read(s.rows[1]), k), CALM) ==
            (Note(s, s.rows, Pushed(1, "w", Read(s.rows[1]))), DispatchLoop(base, 1, TARGETS, 1))
  {
  }

  lemma Pushes(policy: Policy, run0: seq<Label>, s: State, pid: nat, base: Job) returns (run: seq<Label>)
    requires 1 in s.rows && Reaches(policy, true, run0, Put(s, pid, AssignReread(1, "w", NextClone(base, 1, TARGETS, 1))))
    ensures Reaches(policy, true, run, Put(Note(s, s.rows, Pushed(1, "w", Read(s.rows[1]))), pid, DispatchLoop(base, 1, TARGETS, 1)))
  {
    var k := NextClone(base, 1, TARGETS, 1);
    RereadsAndPushes(s, k, base);
    run := Continue(policy, true, run0, s, pid, AssignReread(1, "w", k));
    run := Continue(policy, true, run, s, pid, Push(1, "w", Read(s.rows[1]), k));
  }

  lemma HandsOver(policy: Policy, run0: seq<Label>, s: State, pid: nat, base: Job) returns (run: seq<Label>)
    requires Reaches(policy, true, run0, Put(s, pid, DispatchLoop(base, 1, TARGETS, 0)))
    requires 1 in s.rows && s.rows[1].workerType == "shell" && base.workerType == "shell"
    ensures Reaches(policy, true, run, Put(Handed(s), pid, DispatchLoop(base, 1, TARGETS, 1)))
  {
    var k, rows := NextClone(base, 1, TARGETS, 1), AssignRow(s.rows, 1, "w", 0);
    var t := Note(s, rows, Assigned(1, "w", 0));
    LoopStarts(s, base);
    run := Continue(policy, true, run0, s, pid, DispatchLoop(base, 1, TARGETS, 0));
    run := ReadyToAssign(policy, true, run, s, pid, 1, "w", k);
    run := Assigns(policy, true, run, s, pid, 1, "w", k);
    run := Pushes(policy, run, t, pid, base);
  }

  lemma ClonesForSecond(policy: Policy, run0: seq<Label>, s: State, pid: nat, base: Job) returns (run: seq<Label>, q: Proc)
    requires Reaches(policy, true, run0, Put(s, pid, DispatchLoop(base, 1, TARGETS, 1)))
    requires base.workerType == "shell" && base.key == "" && s.counter + 1 !in s.rows
    ensures Reaches(policy, true, run, Put(Inserted(s, Clone(base, 1, "x")), pid, q))
  {
    var k := DispatchTo("x", NextClone(base, 1, TARGETS, 2));
    LoopStarts(s, base);
    run := Continue(policy, true, run0, s, pid, DispatchLoop(base, 1, TARGETS, 1));
    run := Create(policy, true, run, s, pid, Clone(base, 1, "x"), k);
    q := OnOk(k, s.counter + 1, Inserted(s, Clone(base, 1, "x")).rows[s.counter + 1]);
  }

  lemma ReadsForDispatch(policy: Policy, run0: seq<Label>, s: State, pid: nat) returns (run: seq<Label>)
    requires Reaches(policy, true, run0, s) && pid !in s.procs && 1 in s.rows && s.rows[1].status == Pending
    ensures Reaches(policy, true, run, Put(s, pid, DispatchLoop(Read(s.rows[1]), 1, TARGETS, 0)))
  {
    run := Begin(policy, true, run0, s, pid, DispatchRead(1, TARGETS));
    run := Continue(policy, true, run, s, pid, DispatchRead(1, TARGETS));
  }

  /** Two dispatches of one job to the same two workers, both reading it while it is
      pending: each leaves its own clone, alike in every column. */
  lemma DispatchedTwice(policy: Policy) returns (run: seq<Label>)
    ensures Legal(policy, run) && SeedsCover(run)
    ensures var rows := Exec(run).rows;
            rows.Keys == {1, 2, 3} && rows[2] == rows[3] == Clone(Read(MANUAL), 1, "x")
  {
    var s := INITIAL;
    run := CreateManually(policy, true, [], s, 0);
    s := Put(Inserted(s, MANUAL), 0, Finished);
    var base := Read(s.rows[1]);
    assert base == Read(MANUAL);
    run := ReadsForDispatch(policy, run, s, 1);
    s := Put(s, 1, DispatchLoop(base, 1, TARGETS, 0));
    run := ReadsForDispatch(policy, run, s, 2);
    run := BothClone(policy, run, s, base);
  }

  lemma BothClone(policy: Policy, run0: seq<Label>, s0: State, base: Job) returns (run: seq<Label>)
    requires Reaches(policy, true, run0, Put(s0, 2, DispatchLoop(base, 1, TARGETS, 0))) && s0.counter == 1
    requires 1 in s0.procs && s0.procs[1] == DispatchLoop(base, 1, TARGETS, 0) && s0.rows.Keys == {1}
    requires s0.rows[1].workerType == "shell" && base.workerType == "shell" && base.key == "" && base.createdAt == base.updatedAt == 0
    ensures Legal(policy, run) && SeedsCover(run)
    ensures Exec(run).rows.Keys == {1, 2, 3} && Exec(run).rows[2] == Exec(run).rows[3] == Clone(base, 1, "x")
  {
    var s, q := s0, Finished;
    run := HandsOver(policy, run0, s, 2, base);
    run, q := ClonesForSecond(policy, run, Handed(s), 2, base);
    s := Put(Inserted(Handed(s), Clone(base, 1, "x")), 2, q);
    assert s == Put(s, 1, DispatchLoop(base, 1, TARGETS, 0));
    run := HandsOver(policy, run, s, 1, base);
    run, q := ClonesForSecond(policy, run, Handed(s), 1, base);
    assert Exec(run) == Put(Inserted(Handed(s), Clone(base, 1, "x")), 1, q);
  }
}
