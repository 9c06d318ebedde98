/** Approval safety of the control plane: the invariant that no row gets past its
    approval gate, whatever handlers interleave and however stale their reads are. */
module ControlPlaneSafety {
  import opened Jobs
  import opened ControlPlane

  /** The approval columns agree with the status. */
  predicate RowSafe(job: Job) {
    if job.approvalRequired then
      match job.status
      case WaitingApproval => job.approval == AwaitingDecision
      case Cancelled => job.approval == Rejected
      case _ => job.approval == Approved
    else job.approval == NotRequired && job.status != WaitingApproval && job.status != Cancelled
  }

  predicate Safe(s: State) {
    forall id | id in s.rows :: RowSafe(s.rows[id])
  }

  /** The row may run: nothing to approve, or approved. */
  predicate Released(job: Job) {
    job.approvalRequired ==> job.approval == Approved
  }

  /** Assignment keeps a row safe exactly when the row is released: the guard that
      the unconditional UPDATE leaves to its callers. */
  lemma AssignNeedsRelease(rows: Rows, id: nat, worker: string, now: int)
    requires forall r | r in rows :: RowSafe(rows[r])
    ensures (forall r | r in AssignRow(rows, id, worker, now) :: RowSafe(AssignRow(rows, id, worker, now)[r])) <==>
            (id in rows ==> Released(rows[id]))
  {
    var after := AssignRow(rows, id, worker, now);
    if id in rows && !Released(rows[id]) {
      assert !RowSafe(after[id]);
    }
  }

  /** A policy answer for a key that some tool call can really produce. */
  ghost predicate Answers(policy: Policy, key: string, approval: bool) {
    key != "" && (key, approval) in policy &&
    exists runId, callId, worker :: key == JobKey(runId, callId, worker)
  }

  ghost predicate Conflict(policy: Policy, key: string) {
    Answers(policy, key, true) && Answers(policy, key, false)
  }

  // ---- The invariant ----

  /** A handler that holds `id` may assign it. */
  predicate Cleared(s: State, id: nat) {
    id in s.born && (id in s.rows ==> Released(s.rows[id]))
  }

  ghost predicate ThenOk(policy: Policy, s: State, k: Then) {
    match k
    case Stop => true
    case DispatchTo(_, rest) => ThenOk(policy, s, rest)
    case NextWorker(op, _) => OperationAllowed(policy, op)
    case DispatchAgain(id, _) => Cleared(s, id)
    case NextClone(base, baseId, _, _) => BaseOk(s, base, baseId)
  }

  /** What handleDispatchJob remembers of the row it read. */
  predicate BaseOk(s: State, base: Job, baseId: nat) {
    RowSafe(base) && Released(base) && base.key == "" && Cleared(s, baseId)
  }

  /** A draft about to be inserted; one that is dispatched afterwards is released,
      and so is any row that already carries its key. */
  ghost predicate DraftOk(policy: Policy, s: State, job: Job, k: Then) {
    RowSafe(job) && ThenOk(policy, s, k) && !k.DispatchAgain? &&
    (job.key != "" ==> Answers(policy, job.key, job.approvalRequired)) &&
    (k.DispatchTo? ==> Released(job) && (job.key != "" ==> !job.approvalRequired))
  }

  ghost predicate LookupOk(policy: Policy, s: State, key: string, k: Then) {
    key != "" && ThenOk(policy, s, k) && !k.DispatchAgain? && (k.DispatchTo? ==> Answers(policy, key, false))
  }

  ghost predicate ProcOk(policy: Policy, s: State, p: Proc) {
    match p
    case CreateFind(job, k) => DraftOk(policy, s, job, k)
    case CreateDraw(job, k) => DraftOk(policy, s, job, k)
    case CreateInsert(job, id, k) => DraftOk(policy, s, job, k) && id <= s.counter && id !in s.born
    case CreateRefind(key, k) => LookupOk(policy, s, key, k)
    case CreateFetch(key, id, k) =>
      LookupOk(policy, s, key, k) && id in s.born && (id in s.rows ==> s.rows[id].key == key)
    case AssignRead(id, _, k) => Cleared(s, id) && ThenOk(policy, s, k)
    case AssignCheck(id, _, _, k) => Cleared(s, id) && ThenOk(policy, s, k)
    case AssignWrite(id, _, k) => Cleared(s, id) && ThenOk(policy, s, k)
    case AssignReread(id, _, k) => Cleared(s, id) && ThenOk(policy, s, k)
    case Push(id, _, job, k) => Cleared(s, id) && Released(job) && ThenOk(policy, s, k)
    case OperationLoop(op, _) => OperationAllowed(policy, op)
    case DispatchLoop(base, baseId, _, _) => BaseOk(s, base, baseId)
    case ApproveRead(id) => Cleared(s, id)
    case PickWrite(id, _) => Cleared(s, id)
    case _ => true
  }

  predicate PushesReleased(log: seq<Event>) {
    forall i | 0 <= i < |log| && log[i].Pushed? :: Released(log[i].job)
  }

  ghost predicate RowsOk(policy: Policy, s: State) {
    Safe(s) && s.rows.Keys <= s.born && (forall id | id in s.born :: id <= s.counter) &&
    (forall id | id in s.rows && s.rows[id].key != "" :: Answers(policy, s.rows[id].key, s.rows[id].approvalRequired)) &&
    PushesReleased(s.log)
  }

  ghost predicate Inv(policy: Policy, s: State) {
    RowsOk(policy, s) && (forall pid | pid in s.procs :: ProcOk(policy, s, s.procs[pid])) &&
    (forall a, b | a in s.procs && b in s.procs && a != b && s.procs[a].CreateInsert? && s.procs[b].CreateInsert? ::
       s.procs[a].id != s.procs[b].id)
  }

  /** What any step may do to a row that other handlers remember: it keeps its key
      and its approval requirement, never reappears after deletion, and stays
      released once released. */
  ghost predicate Evolves(s: State, t: State) {
    s.born <= t.born && s.counter <= t.counter &&
    forall id | id in s.born && id in t.rows ::
      id in s.rows && t.rows[id].key == s.rows[id].key &&
      (Released(s.rows[id]) ==> Released(t.rows[id]))
  }

  lemma {:induction false} ThenStable(policy: Policy, s: State, t: State, k: Then)
    requires Evolves(s, t) && ThenOk(policy, s, k)
    ensures ThenOk(policy, t, k)
  {
    if k.DispatchTo? { ThenStable(policy, s, t, k.rest); }
  }

  lemma ProcStable(policy: Policy, s: State, t: State, p: Proc)
    requires Evolves(s, t) && ProcOk(policy, s, p)
    requires p.CreateInsert? ==> p.id !in t.born
    ensures ProcOk(policy, t, p)
  {
    match p
    case CreateFind(_, k) => ThenStable(policy, s, t, k);
    case CreateDraw(_, k) => ThenStable(policy, s, t, k);
    case CreateInsert(_, _, k) => ThenStable(policy, s, t, k);
    case CreateRefind(_, k) => ThenStable(policy, s, t, k);
    case CreateFetch(_, _, k) => ThenStable(policy, s, t, k);
    case AssignRead(_, _, k) => ThenStable(policy, s, t, k);
    case AssignCheck(_, _, _, k) => ThenStable(policy, s, t, k);
    case AssignWrite(_, _, k) => ThenStable(policy, s, t, k);
    case AssignReread(_, _, k) => ThenStable(policy, s, t, k);
    case Push(_, _, _, k) => ThenStable(policy, s, t, k);
    case _ =>
  }

  lemma {:induction false} ResumeAfterFailure(policy: Policy, s: State, k: Then)
    requires ThenOk(policy, s, k)
    ensures ProcOk(policy, s, OnFail(k)) && !OnFail(k).CreateInsert?
  {
    if k.DispatchTo? { ResumeAfterFailure(policy, s, k.rest); }
  }

  lemma ResumeAfterSuccess(policy: Policy, s: State, k: Then, id: nat, job: Job)
    requires ThenOk(policy, s, k) && (k.DispatchTo? || k.DispatchAgain? ==> Cleared(s, id))
    ensures ProcOk(policy, s, OnOk(k, id, job)) && !OnOk(k, id, job).CreateInsert?
  {
  }

  /** What one step must establish about the process and the state it leaves. */
  ghost predicate StepOk(policy: Policy, s: State, p: Proc, t: State, q: Proc) {
    RowsOk(policy, t) && Evolves(s, t) && t.procs == s.procs && ProcOk(policy, t, q) &&
    (q.CreateInsert? ==> q.id == s.counter + 1) &&
    (t.born == s.born || (p.CreateInsert? && t.born == s.born + {p.id}))
  }

  lemma RowUpdated(policy: Policy, s: State, id: nat, job: Job, e: Event)
    requires RowsOk(policy, s) && id in s.rows && !e.Pushed?
    requires job.key == s.rows[id].key && job.approvalRequired == s.rows[id].approvalRequired && RowSafe(job)
    requires Released(s.rows[id]) ==> Released(job)
    ensures RowsOk(policy, Note(s, s.rows[id := job], e)) && Evolves(s, Note(s, s.rows[id := job], e))
  {
  }

  lemma RowInserted(policy: Policy, s: State, id: nat, job: Job, e: Event, f: Event)
    requires RowsOk(policy, s) && id <= s.counter && id !in s.born && !e.Pushed? && !f.Pushed?
    requires RowSafe(job) && (job.key != "" ==> Answers(policy, job.key, job.approvalRequired))
    ensures var t := State(s.rows[id := job], s.counter, s.procs, s.born + {id}, s.log + [e] + [f]);
            RowsOk(policy, t) && Evolves(s, t)
  {
    var t := State(s.rows[id := job], s.counter, s.procs, s.born + {id}, s.log + [e] + [f]);
    assert PushesReleased(t.log);
    forall r | r in t.rows && t.rows[r].key != ""
      ensures Answers(policy, t.rows[r].key, t.rows[r].approvalRequired)
    {
      if r != id { assert r in s.rows; }
    }
  }

  lemma InsertStepOk(policy: Policy, s: State, p: Proc, c: Choice)
    requires RowsOk(policy, s) && ProcOk(policy, s, p) && p.CreateInsert?
    ensures StepOk(policy, s, p, CreateStep(s, p, c).0, CreateStep(s, p, c).1)
  {
    var (t, q) := CreateStep(s, p, c);
    ResumeAfterFailure(policy, s, p.k);
    if !c.fail && Insertable(s.rows, p.id, p.job.key) {
      RowInserted(policy, s, p.id, t.rows[p.id], Created(p.id, t.rows[p.id]), Returned(p.job.key, p.id));
      ThenStable(policy, s, t, p.k);
      ResumeAfterSuccess(policy, t, p.k, p.id, t.rows[p.id]);
    }
  }

  lemma FetchStepOk(policy: Policy, s: State, p: Proc, c: Choice)
    requires RowsOk(policy, s) && ProcOk(policy, s, p) && p.CreateFetch?
    requires !Conflict(policy, p.key)
    ensures StepOk(policy, s, p, CreateStep(s, p, c).0, CreateStep(s, p, c).1)
  {
    var (t, q) := CreateStep(s, p, c);
    ResumeAfterFailure(policy, s, p.k);
    if !c.fail && p.id in s.rows {
      ThenStable(policy, s, t, p.k);
      ResumeAfterSuccess(policy, t, p.k, p.id, Read(s.rows[p.id]));
    }
  }

  lemma LookupStepOk(policy: Policy, s: State, p: Proc, c: Choice)
    requires RowsOk(policy, s) && ProcOk(policy, s, p) && Admissible(s.rows, p, c)
    requires p.CreateFind? || p.CreateDraw? || p.CreateRefind?
    ensures StepOk(policy, s, p, CreateStep(s, p, c).0, CreateStep(s, p, c).1)
  {
    ResumeAfterFailure(policy, s, p.k);
    ThenStable(policy, s, CreateStep(s, p, c).0, p.k);
  }

  lemma AssignWriteOk(policy: Policy, s: State, p: Proc, c: Choice)
    requires RowsOk(policy, s) && ProcOk(policy, s, p) && p.AssignWrite?
    ensures StepOk(policy, s, p, AssignStep(s, p, c).0, AssignStep(s, p, c).1)
  {
    var (t, q) := AssignStep(s, p, c);
    ResumeAfterFailure(policy, s, p.k);
    if t != s {
      RowUpdated(policy, s, p.id, t.rows[p.id], Assigned(p.id, p.worker, c.now));
    }
    ThenStable(policy, s, t, p.k);
  }

  lemma PushStepOk(policy: Policy, s: State, p: Proc, c: Choice)
    requires RowsOk(policy, s) && ProcOk(policy, s, p) && p.Push?
    ensures StepOk(policy, s, p, AssignStep(s, p, c).0, AssignStep(s, p, c).1)
  {
    var t := AssignStep(s, p, c).0;
    ResumeAfterFailure(policy, s, p.k);
    ThenStable(policy, s, t, p.k);
    ResumeAfterSuccess(policy, t, p.k, p.id, p.job);
  }

  lemma LookingOk(policy: Policy, s: State, p: Proc, q: Proc)
    requires RowsOk(policy, s) && ProcOk(policy, s, q) && !q.CreateInsert?
    ensures StepOk(policy, s, p, s, q)
  {
  }

  lemma AssignLooks(policy: Policy, s: State, p: Proc, c: Choice)
    requires RowsOk(policy, s) && ProcOk(policy, s, p) && (p.AssignRead? || p.AssignCheck? || p.AssignReread?)
    ensures var (t, q) := AssignStep(s, p, c); t == s && ProcOk(policy, s, q) && !q.CreateInsert?
  {
    ResumeAfterFailure(policy, s, p.k);
  }

  lemma AssignStepOk(policy: Policy, s: State, p: Proc, c: Choice)
    requires RowsOk(policy, s) && ProcOk(policy, s, p)
    requires p.AssignRead? || p.AssignCheck? || p.AssignWrite? || p.AssignReread? || p.Push?
    ensures StepOk(policy, s, p, AssignStep(s, p, c).0, AssignStep(s, p, c).1)
  {
    if p.AssignWrite? {
      AssignWriteOk(policy, s, p, c);
    } else if p.Push? {
      PushStepOk(policy, s, p, c);
    } else {
      AssignLooks(policy, s, p, c);
      LookingOk(policy, s, p, AssignStep(s, p, c).1);
    }
  }

  lemma LoopLooks(policy: Policy, s: State, p: Proc, c: Choice)
    requires RowsOk(policy, s) && ProcOk(policy, s, p) && (p.OperationLoop? || p.DispatchRead? || p.DispatchLoop?)
    ensures var (t, q) := LoopStep(s, p, c); t == s && ProcOk(policy, s, q) && !q.CreateInsert?
  {
    if p.OperationLoop? && p.i < |p.op.workers| {
      var job := OperationJob(p.op, p.op.workers[p.i]);
      assert job.key == JobKey(p.op.runId, p.op.callId, p.op.workers[p.i]);
    }
  }

  lemma LoopStepOk(policy: Policy, s: State, p: Proc, c: Choice)
    requires RowsOk(policy, s) && ProcOk(policy, s, p)
    requires p.OperationLoop? || p.DispatchRead? || p.DispatchLoop?
    ensures StepOk(policy, s, p, LoopStep(s, p, c).0, LoopStep(s, p, c).1)
  {
    LoopLooks(policy, s, p, c);
    LookingOk(policy, s, p, LoopStep(s, p, c).1);
  }

  lemma DecideStepOk(policy: Policy, s: State, p: Proc, c: Choice)
    requires RowsOk(policy, s) && ProcOk(policy, s, p)
    requires p.ApproveWrite? || p.ApproveRead? || p.RejectWrite?
    ensures StepOk(policy, s, p, DecideStep(s, p, c).0, DecideStep(s, p, c).1)
  {
    var (t, q) := DecideStep(s, p, c);
    if !p.ApproveRead? && t != s {
      assert s.rows[p.id].approvalRequired;
      RowUpdated(policy, s, p.id, t.rows[p.id], Decided(p.id, p.ApproveWrite?, p.who, p.comment, c.now));
    }
  }

  lemma PickStepOk(policy: Policy, s: State, p: Proc, c: Choice)
    requires RowsOk(policy, s) && ProcOk(policy, s, p) && (p.PickSelect? || p.PickWrite?)
    ensures StepOk(policy, s, p, WorkStep(s, p, c).0, WorkStep(s, p, c).1)
  {
    var (t, q) := WorkStep(s, p, c);
    if p.PickWrite? && t != s {
      RowUpdated(policy, s, p.id, t.rows[p.id], Assigned(p.id, p.worker, c.now));
    }
  }

  lemma CompleteStepOk(policy: Policy, s: State, p: Proc, c: Choice)
    requires RowsOk(policy, s) && ProcOk(policy, s, p) && p.CompleteWrite?
    ensures StepOk(policy, s, p, WorkStep(s, p, c).0, WorkStep(s, p, c).1)
  {
    var (t, q) := WorkStep(s, p, c);
    if t != s {
      RowUpdated(policy, s, p.id, t.rows[p.id], Completed(p.id, p.worker, p.output, p.success, c.now));
    }
  }

  lemma DeleteStepOk(policy: Policy, s: State, p: Proc, c: Choice)
    requires RowsOk(policy, s) && ProcOk(policy, s, p) && (p.DeleteRead? || p.DeleteWrite?)
    ensures StepOk(policy, s, p, WorkStep(s, p, c).0, WorkStep(s, p, c).1)
  {
  }

  lemma WorkStepOk(policy: Policy, s: State, p: Proc, c: Choice)
    requires RowsOk(policy, s) && ProcOk(policy, s, p)
    requires p.DeleteRead? || p.DeleteWrite? || p.PickSelect? || p.PickWrite? || p.CompleteWrite?
    ensures StepOk(policy, s, p, WorkStep(s, p, c).0, WorkStep(s, p, c).1)
  {
    if p.CompleteWrite? { CompleteStepOk(policy, s, p, c); }
    else if p.DeleteRead? || p.DeleteWrite? { DeleteStepOk(policy, s, p, c); }
    else { PickStepOk(policy, s, p, c); }
  }

  lemma AdvanceOk(policy: Policy, s: State, p: Proc, c: Choice)
    requires RowsOk(policy, s) && ProcOk(policy, s, p) && Admissible(s.rows, p, c)
    requires forall key :: !Conflict(policy, key)
    ensures StepOk(policy, s, p, Advance(s, p, c).0, Advance(s, p, c).1)
  {
    if p.CreateInsert? {
      InsertStepOk(policy, s, p, c);
    } else if p.CreateFetch? {
      FetchStepOk(policy, s, p, c);
    } else if p.CreateFind? || p.CreateDraw? || p.CreateRefind? {
      LookupStepOk(policy, s, p, c);
    } else if p.AssignRead? || p.AssignCheck? || p.AssignWrite? || p.AssignReread? || p.Push? {
      AssignStepOk(policy, s, p, c);
    } else if p.OperationLoop? || p.DispatchRead? || p.DispatchLoop? {
      LoopStepOk(policy, s, p, c);
    } else if p.ApproveWrite? || p.ApproveRead? || p.RejectWrite? {
      DecideStepOk(policy, s, p, c);
    } else if !p.Finished? {
      WorkStepOk(policy, s, p, c);
    }
  }

  lemma OneStepKeepsInv(policy: Policy, s: State, pid: nat, p: Proc, t: State, q: Proc)
    requires Inv(policy, s) && pid in s.procs && s.procs[pid] == p && StepOk(policy, s, p, t, q)
    ensures Inv(policy, t.(procs := t.procs[pid := q]))
  {
    var u := t.(procs := t.procs[pid := q]);
    assert RowsOk(policy, u);
    forall other | other in u.procs
      ensures ProcOk(policy, u, u.procs[other])
    {
      if other != pid {
        assert Evolves(s, u);
        ProcStable(policy, s, u, s.procs[other]);
      } else {
        assert Evolves(t, u);
        ProcStable(policy, t, u, q);
      }
    }
  }

  lemma StepKeepsInv(policy: Policy, s: State, pid: nat, c: Choice)
    requires Inv(policy, s) && Enabled(policy, s, Step(pid, c))
    requires forall key :: !Conflict(policy, key)
    ensures Inv(policy, Apply(s, Step(pid, c)))
  {
    var p := s.procs[pid];
    AdvanceOk(policy, s, p, c);
    OneStepKeepsInv(policy, s, pid, p, Advance(s, p, c).0, Advance(s, p, c).1);
  }

  lemma OthersKeepInv(policy: Policy, s: State, t: State)
    requires Inv(policy, s) && RowsOk(policy, t) && Evolves(s, t) && t.procs == s.procs && t.born == s.born
    ensures Inv(policy, t)
  {
    forall other | other in t.procs ensures ProcOk(policy, t, t.procs[other]) {
      ProcStable(policy, s, t, s.procs[other]);
    }
  }

  lemma LabelKeepsInv(policy: Policy, s: State, l: Label)
    requires Inv(policy, s) && Enabled(policy, s, l) && (l.Restart? ==> Covers(s.rows, l.counter))
    requires forall key :: !Conflict(policy, key)
    ensures Inv(policy, Apply(s, l))
  {
    match l
    case Start(pid, p) =>
      var t := Apply(s, l);
      forall other | other in t.procs
        ensures ProcOk(policy, t, t.procs[other])
      {
        if other != pid { ProcStable(policy, s, t, s.procs[other]); }
      }
    case Step(pid, c) => StepKeepsInv(policy, s, pid, c);
    case OtherIds(_) => OthersKeepInv(policy, s, Apply(s, l));
    case Restart(_) =>
  }

  lemma {:induction false} ReachableInv(policy: Policy, run: seq<Label>)
    requires Legal(policy, run) && SeedsCover(run) && forall key :: !Conflict(policy, key)
    ensures Inv(policy, Exec(run))
  {
    if run != [] {
      var n := |run| - 1;
      ReachableInv(policy, run[..n]);
      LabelKeepsInv(policy, Exec(run[..n]), run[n]);
    }
  }
}
