/** Where everything in the log comes from: each event of every run goes back to
    a request that asked for it, each row to a request that described it, and each
    assignment to a check that the worker suits the job. */
module ControlPlaneRequests {
  import opened Basics
  import opened Jobs
  import opened ControlPlane
  import Ids
  import R = Routing

  // ---- What happened in a run ----

  ghost predicate Asked(run: seq<Label>, p: Proc) {
    exists m :: 0 <= m < |run| && run[m].Start? && run[m].p == p
  }

  /** At label `m` a handler took its step from `p`. */
  ghost predicate Took(run: seq<Label>, m: int, p: Proc) {
    0 <= m < |run| && run[m].Step? && run[m].pid in Exec(run[..m]).procs && Exec(run[..m]).procs[run[m].pid] == p
  }

  ghost predicate RowAt(run: seq<Label>, m: int, id: nat) {
    0 <= m <= |run| && id in Exec(run[..m]).rows
  }

  /** Some row of `id` had that type. */
  ghost predicate TypeSeen(run: seq<Label>, id: nat, jobType: string) {
    exists m :: RowAt(run, m, id) && Exec(run[..m]).rows[id].workerType == jobType
  }

  /** The dispatch check: the worker's type, as it was looked up, suits the type
      that the job had. */
  ghost predicate Cleared(run: seq<Label>, id: nat, worker: string) {
    exists m, jobType, k ::
      Took(run, m, AssignCheck(id, jobType, worker, k)) && R.Suits(run[m].c.workerType, jobType) && TypeSeen(run, id, jobType)
  }

  /** The queue: the job was waiting for a worker, of this type unless the worker
      is a shell. */
  ghost predicate Picked(run: seq<Label>, id: nat, worker: string) {
    exists m, workerType ::
      Took(run, m, PickSelect(worker, workerType)) && run[m].c.pick == id && RowAt(run, m, id) &&
      var job := Exec(run[..m]).rows[id];
      (job.status == Pending || job.status == Queued) && (R.Spells(workerType, "shell") || job.workerType == workerType)
  }

  // ---- What a row may be made from ----

  /** The row an operation asks for, for one of its workers. */
  predicate FromOperation(op: Operation, i: int, job: Job) {
    0 <= i < |op.workers| &&
    job.name == "[agent][worker:" + op.workers[i] + "] " + op.reason && job.workerType == op.workerType &&
    job.command == op.command && job.worker == op.workers[i] && job.sourceType == "agent" && job.sourceId == op.runId &&
    job.approvalRequired == op.approval &&
    job.status == (if op.approval then WaitingApproval else Pending) &&
    job.approval == (if op.approval then AwaitingDecision else NotRequired)
  }

  /** The row a manual request asks for. */
  predicate FromDraft(draft: Job, job: Job) {
    job.name == draft.name && job.workerType == draft.workerType && job.command == draft.command &&
    job.sourceType == draft.sourceType && job.sourceId == "" && job.worker == "" && job.key == "" &&
    !job.approvalRequired && job.status == Pending && job.approval == NotRequired
  }

  /** What a handler remembers of a row it read. */
  predicate Remembers(base: Job, row: Job) {
    base.name == row.name && base.workerType == row.workerType && base.command == row.command &&
    base.approvalRequired == row.approvalRequired && base.sourceType == row.sourceType && base.key == "" && SameDecision(base, row)
  }

  /** The copy of a row that a dispatch to a further worker asks for. */
  predicate FromDispatch(base: Job, id: nat, workers: seq<string>, i: int, job: Job) {
    0 < i < |workers| &&
    job.name == "[dispatch:" + Ids.Format("job", id) + "][worker:" + workers[i] + "] " + base.name &&
    job.workerType == base.workerType && job.command == base.command && job.worker == "" && job.status == Pending &&
    job.key == base.key && job.sourceId == Ids.Format("job", id) && job.approvalRequired == base.approvalRequired &&
    (base.sourceType != "" ==> job.sourceType == base.sourceType) && SameDecision(job, base)
  }

  ghost predicate BaseRead(run: seq<Label>, base: Job, id: nat) {
    exists m :: RowAt(run, m, id) && Remembers(base, Exec(run[..m]).rows[id])
  }

  /** Some row of `id` carried that key. */
  ghost predicate KeySeen(run: seq<Label>, id: nat, key: string) {
    exists m :: RowAt(run, m, id) && Exec(run[..m]).rows[id].key == key
  }

  /** Some row of `id` was this job, as a read gives it. */
  ghost predicate JobSeen(run: seq<Label>, id: nat, job: Job) {
    exists m :: RowAt(run, m, id) && job == Exec(run[..m]).rows[id].(key := "")
  }

  /** What a run has on record: who asked for what, and what was read and checked. */
  datatype Record = Record(
    asked: iset<Proc>, types: iset<(nat, string)>, cleared: iset<(nat, string)>, picked: iset<(nat, string)>,
    bases: iset<(nat, Job)>, keys: iset<(nat, string)>, jobs: iset<(nat, Job)>)

  ghost function On(run: seq<Label>): Record {
    Record(iset p | Asked(run, p), iset id, t | TypeSeen(run, id, t) :: (id, t), iset id, w | Cleared(run, id, w) :: (id, w),
           iset id, w | Picked(run, id, w) :: (id, w), iset id, base | BaseRead(run, base, id) :: (id, base),
           iset id, key | KeySeen(run, id, key) :: (id, key), iset id, job | JobSeen(run, id, job) :: (id, job))
  }

  ghost predicate MadeByOperation(r: Record, job: Job) {
    exists op, i :: OperationLoop(op, 0) in r.asked && FromOperation(op, i, job)
  }

  ghost predicate MadeByHand(r: Record, job: Job) {
    exists draft, k :: CreateFind(draft, k) in r.asked && FromDraft(draft, job)
  }

  ghost predicate MadeByDispatch(r: Record, job: Job) {
    exists base, id: nat, workers, i ::
      DispatchRead(id, workers) in r.asked && (id, base) in r.bases && FromDispatch(base, id, workers, i, job)
  }

  ghost predicate Made(r: Record, job: Job) {
    MadeByOperation(r, job) || MadeByHand(r, job) || MadeByDispatch(r, job)
  }

  ghost predicate Explained(r: Record, e: Event) {
    match e
    case Created(_, job) => Made(r, job)
    case Returned(key, id) => (id, key) in r.keys
    case Pushed(id, worker, job) => (id, worker) in r.cleared && (id, job) in r.jobs
    case Assigned(id, worker, _) => (id, worker) in r.cleared || (id, worker) in r.picked
    case Decided(id, approve, who, comment, _) =>
      (if approve then ApproveWrite(id, who, comment) else RejectWrite(id, who, comment)) in r.asked
    case Completed(id, worker, output, success, _) => CompleteWrite(worker, id, output, success) in r.asked
    case Deleted(id) => DeleteRead(id) in r.asked
  }

  // ---- What handlers carry ----

  ghost predicate ThenExplained(r: Record, k: Then) {
    match k
    case DispatchTo(_, rest) => ThenExplained(r, rest)
    case NextWorker(op, _) => OperationLoop(op, 0) in r.asked
    case NextClone(base, id, workers, i) => DispatchRead(id, workers) in r.asked && (id, base) in r.bases && i > 0
    case _ => true
  }

  ghost predicate ProcExplained(r: Record, p: Proc) {
    match p
    case CreateFind(job, k) => Made(r, job) && ThenExplained(r, k)
    case CreateDraw(job, k) => Made(r, job) && ThenExplained(r, k)
    case CreateInsert(job, _, k) => Made(r, job) && ThenExplained(r, k)
    case CreateRefind(_, k) => ThenExplained(r, k)
    case CreateFetch(key, id, k) => (id, key) in r.keys && ThenExplained(r, k)
    case AssignRead(_, _, k) => ThenExplained(r, k)
    case AssignCheck(id, jobType, _, k) => (id, jobType) in r.types && ThenExplained(r, k)
    case AssignWrite(id, worker, k) => (id, worker) in r.cleared && ThenExplained(r, k)
    case AssignReread(id, worker, k) => (id, worker) in r.cleared && ThenExplained(r, k)
    case Push(id, worker, job, k) => (id, worker) in r.cleared && (id, job) in r.jobs && ThenExplained(r, k)
    case OperationLoop(op, _) => OperationLoop(op, 0) in r.asked
    case DispatchLoop(base, id, workers, _) => DispatchRead(id, workers) in r.asked && (id, base) in r.bases
    case DispatchRead(_, _) => p in r.asked
    case ApproveWrite(_, _, _) => p in r.asked
    case RejectWrite(_, _, _) => p in r.asked
    case CompleteWrite(_, _, _, _) => p in r.asked
    case DeleteRead(_) => p in r.asked
    case DeleteWrite(id) => DeleteRead(id) in r.asked
    case PickWrite(id, worker) => (id, worker) in r.picked
    case _ => true
  }

  // ---- A longer run has at least as much on record ----

  predicate Grows(r: Record, t: Record) {
    r.asked <= t.asked && r.types <= t.types && r.cleared <= t.cleared && r.picked <= t.picked && r.bases <= t.bases &&
    r.keys <= t.keys && r.jobs <= t.jobs
  }

  lemma AskedStays(run: seq<Label>, l: Label, p: Proc)
    requires Asked(run, p)
    ensures Asked(run + [l], p)
  {
    var m :| 0 <= m < |run| && run[m].Start? && run[m].p == p;
    assert (run + [l])[m] == run[m];
  }

  lemma TookStays(run: seq<Label>, l: Label, m: int, p: Proc)
    requires Took(run, m, p)
    ensures Took(run + [l], m, p) && (run + [l])[m] == run[m] && (run + [l])[..m] == run[..m]
  {
    assert (run + [l])[..m] == run[..m];
  }

  lemma RowStays(run: seq<Label>, l: Label, m: int, id: nat)
    requires RowAt(run, m, id)
    ensures RowAt(run + [l], m, id) && (run + [l])[..m] == run[..m]
  {
    assert (run + [l])[..m] == run[..m];
  }

  lemma TypeStays(run: seq<Label>, l: Label, id: nat, jobType: string)
    requires TypeSeen(run, id, jobType)
    ensures TypeSeen(run + [l], id, jobType)
  {
    var m :| RowAt(run, m, id) && Exec(run[..m]).rows[id].workerType == jobType;
    RowStays(run, l, m, id);
  }

  lemma KeyStays(run: seq<Label>, l: Label, id: nat, key: string)
    requires KeySeen(run, id, key)
    ensures KeySeen(run + [l], id, key)
  {
    var m :| RowAt(run, m, id) && Exec(run[..m]).rows[id].key == key;
    RowStays(run, l, m, id);
  }

  lemma JobStays(run: seq<Label>, l: Label, id: nat, job: Job)
    requires JobSeen(run, id, job)
    ensures JobSeen(run + [l], id, job)
  {
    var m :| RowAt(run, m, id) && job == Exec(run[..m]).rows[id].(key := "");
    RowStays(run, l, m, id);
  }

  lemma BaseStays(run: seq<Label>, l: Label, base: Job, id: nat)
    requires BaseRead(run, base, id)
    ensures BaseRead(run + [l], base, id)
  {
    var m :| RowAt(run, m, id) && Remembers(base, Exec(run[..m]).rows[id]);
    RowStays(run, l, m, id);
  }

  lemma ClearedStays(run: seq<Label>, l: Label, id: nat, worker: string)
    requires Cleared(run, id, worker)
    ensures Cleared(run + [l], id, worker)
  {
    var m, jobType, k :|
      Took(run, m, AssignCheck(id, jobType, worker, k)) && R.Suits(run[m].c.workerType, jobType) && TypeSeen(run, id, jobType);
    TookStays(run, l, m, AssignCheck(id, jobType, worker, k));
    TypeStays(run, l, id, jobType);
  }

  lemma PickedStays(run: seq<Label>, l: Label, id: nat, worker: string)
    requires Picked(run, id, worker)
    ensures Picked(run + [l], id, worker)
  {
    var m, workerType :|
      Took(run, m, PickSelect(worker, workerType)) && run[m].c.pick == id && RowAt(run, m, id) &&
      var job := Exec(run[..m]).rows[id];
      (job.status == Pending || job.status == Queued) && (R.Spells(workerType, "shell") || job.workerType == workerType);
    TookStays(run, l, m, PickSelect(worker, workerType));
    RowStays(run, l, m, id);
  }

  lemma RecordGrows(run: seq<Label>, l: Label)
    ensures Grows(On(run), On(run + [l]))
  {
    forall p | Asked(run, p) { AskedStays(run, l, p); }
    forall id, t | TypeSeen(run, id, t) { TypeStays(run, l, id, t); }
    forall id, w | Cleared(run, id, w) { ClearedStays(run, l, id, w); }
    forall id, w | Picked(run, id, w) { PickedStays(run, l, id, w); }
    forall id, base | BaseRead(run, base, id) { BaseStays(run, l, base, id); }
    forall id, key | KeySeen(run, id, key) { KeyStays(run, l, id, key); }
    forall id, job | JobSeen(run, id, job) { JobStays(run, l, id, job); }
  }

  lemma MadeStays(r: Record, t: Record, job: Job)
    requires Grows(r, t) && Made(r, job)
    ensures Made(t, job)
  {
  }

  lemma ExplainedStays(r: Record, t: Record, e: Event)
    requires Grows(r, t) && Explained(r, e)
    ensures Explained(t, e)
  {
    if e.Created? { MadeStays(r, t, e.job); }
  }

  lemma {:induction false} ThenStays(r: Record, t: Record, k: Then)
    requires Grows(r, t) && ThenExplained(r, k)
    ensures ThenExplained(t, k)
  {
    if k.DispatchTo? { ThenStays(r, t, k.rest); }
  }

  lemma ProcStays(r: Record, t: Record, p: Proc)
    requires Grows(r, t) && ProcExplained(r, p)
    ensures ProcExplained(t, p)
  {
    if p.CreateFind? || p.CreateDraw? || p.CreateInsert? { MadeStays(r, t, p.job); }
    if p.CreateFind? || p.CreateDraw? || p.CreateInsert? || p.CreateRefind? || p.CreateFetch? ||
       p.AssignRead? || p.AssignCheck? || p.AssignWrite? || p.AssignReread? || p.Push? { ThenStays(r, t, p.k); }
  }

  // ---- Steps ----

  /** What this step reads or checks is on record. */
  ghost predicate OnRecord(r: Record, rows: Rows, p: Proc, c: Choice) {
    match p
    case CreateFind(job, _) => HasKey(rows, c.pick, job.key) ==> (c.pick, job.key) in r.keys
    case CreateInsert(job, id, _) => !c.fail && Insertable(rows, id, job.key) ==> (id, job.key) in r.keys
    case CreateRefind(key, _) => HasKey(rows, c.pick, key) ==> (c.pick, key) in r.keys
    case AssignRead(id, _, _) => id in rows ==> (id, rows[id].workerType) in r.types
    case AssignCheck(id, jobType, worker, _) => WorkerCanRunType(c.workerType, jobType) ==> (id, worker) in r.cleared
    case AssignReread(id, _, _) => id in rows ==> (id, Read(rows[id])) in r.jobs
    case DispatchRead(id, _) => id in rows ==> (id, Read(rows[id])) in r.bases
    case PickSelect(worker, workerType) => Eligible(rows, c.pick, workerType) ==> (c.pick, worker) in r.picked
    case _ => true
  }

  /** What a step leads to: the handler after it, and the events it adds. */
  datatype Effect = Effect(q: Proc, added: seq<Event>)

  ghost predicate EffectExplained(r: Record, f: Effect) {
    ProcExplained(r, f.q) && forall i | 0 <= i < |f.added| :: Explained(r, f.added[i])
  }

  ghost predicate HasEffect(s: State, r: (State, Proc), f: Effect) {
    r.0.log == s.log + f.added && r.1 == f.q
  }

  lemma {:induction false} ResumeExplained(r: Record, k: Then, id: nat, job: Job)
    requires ThenExplained(r, k)
    ensures ProcExplained(r, OnFail(k)) && ProcExplained(r, OnOk(k, id, job))
  {
    if k.DispatchTo? { ResumeExplained(r, k.rest, id, job); }
  }

  lemma SameColumns(r: Record, job: Job, now: int)
    requires Made(r, job)
    ensures Made(r, job.(createdAt := now, updatedAt := now))
  {
    var made := job.(createdAt := now, updatedAt := now);
    if MadeByOperation(r, job) {
      var op, i :| OperationLoop(op, 0) in r.asked && FromOperation(op, i, job);
      assert FromOperation(op, i, made);
    } else if MadeByHand(r, job) {
      var draft, k :| CreateFind(draft, k) in r.asked && FromDraft(draft, job);
      assert FromDraft(draft, made);
    } else {
      var base, id: nat, workers, i :|
        DispatchRead(id, workers) in r.asked && (id, base) in r.bases && FromDispatch(base, id, workers, i, job);
      assert FromDispatch(base, id, workers, i, made);
    }
  }

  lemma InsertStepExplained(r: Record, s: State, p: Proc, c: Choice) returns (f: Effect)
    requires p.CreateInsert? && ProcExplained(r, p) && OnRecord(r, s.rows, p, c)
    ensures HasEffect(s, CreateStep(s, p, c), f) && EffectExplained(r, f)
  {
    var made := p.job.(createdAt := c.now, updatedAt := c.now);
    ResumeExplained(r, p.k, p.id, made);
    if !c.fail && Insertable(s.rows, p.id, p.job.key) {
      SameColumns(r, p.job, c.now);
      f := Effect(OnOk(p.k, p.id, made), [Created(p.id, made), Returned(p.job.key, p.id)]);
    } else if p.job.key != "" {
      f := Effect(CreateRefind(p.job.key, p.k), []);
    } else {
      f := Effect(OnFail(p.k), []);
    }
  }

  lemma LookupStepExplained(r: Record, s: State, p: Proc, c: Choice) returns (f: Effect)
    requires p.CreateFind? || p.CreateDraw? || p.CreateRefind?
    requires ProcExplained(r, p) && OnRecord(r, s.rows, p, c)
    ensures HasEffect(s, CreateStep(s, p, c), f) && EffectExplained(r, f)
  {
    f := Effect(CreateStep(s, p, c).1, []);
    ResumeExplained(r, p.k, 0, ManualJob("", "", "", ""));
  }

  lemma FetchStepExplained(r: Record, s: State, p: Proc, c: Choice) returns (f: Effect)
    requires p.CreateFetch? && ProcExplained(r, p)
    ensures HasEffect(s, CreateStep(s, p, c), f) && EffectExplained(r, f)
  {
    if !c.fail && p.id in s.rows {
      ResumeExplained(r, p.k, p.id, Read(s.rows[p.id]));
      f := Effect(OnOk(p.k, p.id, Read(s.rows[p.id])), [Returned(p.key, p.id)]);
    } else {
      ResumeExplained(r, p.k, 0, ManualJob("", "", "", ""));
      f := Effect(OnFail(p.k), []);
    }
  }

  lemma AssignStepExplained(r: Record, s: State, p: Proc, c: Choice) returns (f: Effect)
    requires p.AssignRead? || p.AssignCheck? || p.AssignReread?
    requires ProcExplained(r, p) && OnRecord(r, s.rows, p, c)
    ensures HasEffect(s, AssignStep(s, p, c), f) && EffectExplained(r, f)
  {
    f := Effect(AssignStep(s, p, c).1, []);
    ResumeExplained(r, p.k, p.id, ManualJob("", "", "", ""));
  }

  lemma WriteStepExplained(r: Record, s: State, p: Proc, c: Choice) returns (f: Effect)
    requires p.AssignWrite? || p.Push?
    requires ProcExplained(r, p)
    ensures HasEffect(s, AssignStep(s, p, c), f) && EffectExplained(r, f)
  {
    ResumeExplained(r, p.k, p.id, if p.Push? then p.job else ManualJob("", "", "", ""));
    var q := AssignStep(s, p, c).1;
    if p.AssignWrite? && !c.fail && p.id in s.rows {
      f := Effect(q, [Assigned(p.id, p.worker, c.now)]);
    } else if p.Push? && c.pushed {
      f := Effect(q, [Pushed(p.id, p.worker, p.job)]);
    } else {
      f := Effect(q, []);
    }
  }

  lemma OperationMakes(r: Record, op: Operation, i: nat)
    requires OperationLoop(op, 0) in r.asked && i < |op.workers|
    ensures Made(r, OperationJob(op, op.workers[i]))
  {
    assert FromOperation(op, i, OperationJob(op, op.workers[i]));
  }

  lemma CloneMakes(r: Record, base: Job, id: nat, workers: seq<string>, i: nat)
    requires DispatchRead(id, workers) in r.asked && (id, base) in r.bases && 0 < i < |workers|
    ensures Made(r, Clone(base, id, workers[i]))
  {
    assert FromDispatch(base, id, workers, i, Clone(base, id, workers[i]));
  }

  lemma OperationStepExplained(r: Record, s: State, p: Proc, c: Choice) returns (f: Effect)
    requires p.OperationLoop? && ProcExplained(r, p)
    ensures HasEffect(s, LoopStep(s, p, c), f) && EffectExplained(r, f)
  {
    f := Effect(LoopStep(s, p, c).1, []);
    if p.i < |p.op.workers| { OperationMakes(r, p.op, p.i); }
  }

  lemma DispatchReadExplained(r: Record, s: State, p: Proc, c: Choice) returns (f: Effect)
    requires p.DispatchRead? && ProcExplained(r, p) && OnRecord(r, s.rows, p, c)
    ensures HasEffect(s, LoopStep(s, p, c), f) && EffectExplained(r, f)
  {
    f := Effect(LoopStep(s, p, c).1, []);
  }

  lemma DispatchLoopExplained(r: Record, s: State, p: Proc, c: Choice) returns (f: Effect)
    requires p.DispatchLoop? && ProcExplained(r, p)
    ensures HasEffect(s, LoopStep(s, p, c), f) && EffectExplained(r, f)
  {
    f := Effect(LoopStep(s, p, c).1, []);
    if 0 < p.i < |p.workers| { CloneMakes(r, p.base, p.baseId, p.workers, p.i); }
  }

  lemma WorkStepExplained(r: Record, s: State, p: Proc, c: Choice) returns (f: Effect)
    requires p.DeleteRead? || p.DeleteWrite? || p.PickSelect? || p.PickWrite? || p.CompleteWrite?
    requires ProcExplained(r, p) && OnRecord(r, s.rows, p, c)
    ensures HasEffect(s, WorkStep(s, p, c), f) && EffectExplained(r, f)
  {
    var (t, q) := WorkStep(s, p, c);
    f := Effect(q, t.log[|s.log|..]);
  }

  lemma DecideStepExplained(r: Record, s: State, p: Proc, c: Choice) returns (f: Effect)
    requires p.ApproveWrite? || p.ApproveRead? || p.RejectWrite?
    requires ProcExplained(r, p)
    ensures HasEffect(s, DecideStep(s, p, c), f) && EffectExplained(r, f)
  {
    var (t, q) := DecideStep(s, p, c);
    f := Effect(q, t.log[|s.log|..]);
  }

  lemma AdvanceExplained(r: Record, s: State, p: Proc, c: Choice) returns (f: Effect)
    requires ProcExplained(r, p) && OnRecord(r, s.rows, p, c)
    ensures HasEffect(s, Advance(s, p, c), f) && EffectExplained(r, f)
  {
    if p.CreateInsert? {
      f := InsertStepExplained(r, s, p, c);
    } else if p.CreateFind? || p.CreateDraw? || p.CreateRefind? {
      f := LookupStepExplained(r, s, p, c);
    } else if p.CreateFetch? {
      f := FetchStepExplained(r, s, p, c);
    } else if p.AssignRead? || p.AssignCheck? || p.AssignReread? {
      f := AssignStepExplained(r, s, p, c);
    } else if p.AssignWrite? || p.Push? {
      f := WriteStepExplained(r, s, p, c);
    } else if p.OperationLoop? {
      f := OperationStepExplained(r, s, p, c);
    } else if p.DispatchRead? {
      f := DispatchReadExplained(r, s, p, c);
    } else if p.DispatchLoop? {
      f := DispatchLoopExplained(r, s, p, c);
    } else if p.ApproveWrite? || p.ApproveRead? || p.RejectWrite? {
      f := DecideStepExplained(r, s, p, c);
    } else if p.Finished? {
      f := Effect(Finished, []);
    } else {
      f := WorkStepExplained(r, s, p, c);
    }
  }

  // ---- What a step puts on record ----

  lemma RowSeen(run: seq<Label>, m: nat, id: nat)
    requires RowAt(run, m, id)
    ensures var row := Exec(run[..m]).rows[id];
            BaseRead(run, Read(row), id) && JobSeen(run, id, Read(row)) && TypeSeen(run, id, row.workerType) && KeySeen(run, id, row.key)
  {
    assert Remembers(Read(Exec(run[..m]).rows[id]), Exec(run[..m]).rows[id]);
  }

  /** Handler `pid` is about to step from `p`. */
  ghost predicate Here(run: seq<Label>, pid: nat, p: Proc) {
    pid in Exec(run).procs && Exec(run).procs[pid] == p
  }

  lemma ReadOnRecord(run: seq<Label>, l: Label, id: nat)
    requires id in Exec(run).rows
    ensures var row := Exec(run).rows[id];
            RowAt(run + [l], |run|, id) && Exec((run + [l])[..|run|]) == Exec(run) &&
            BaseRead(run + [l], Read(row), id) && JobSeen(run + [l], id, Read(row)) && TypeSeen(run + [l], id, row.workerType) &&
            KeySeen(run + [l], id, row.key)
  {
    assert (run + [l])[..|run|] == run;
    RowSeen(run + [l], |run|, id);
  }

  lemma CheckOnRecord(run: seq<Label>, pid: nat, p: Proc, c: Choice)
    requires Here(run, pid, p) && p.AssignCheck? && WorkerCanRunType(c.workerType, p.jobType)
    requires TypeSeen(run + [Step(pid, c)], p.id, p.jobType)
    ensures Cleared(run + [Step(pid, c)], p.id, p.worker)
  {
    var after, n := run + [Step(pid, c)], |run|;
    assert after[..n] == run && after[n] == Step(pid, c);
    assert Took(after, n, AssignCheck(p.id, p.jobType, p.worker, p.k));
    R.CanRunExactly(c.workerType, p.jobType);
  }

  lemma PickOnRecord(run: seq<Label>, pid: nat, p: Proc, c: Choice)
    requires Here(run, pid, p) && p.PickSelect? && Eligible(Exec(run).rows, c.pick, p.workerType)
    ensures Picked(run + [Step(pid, c)], c.pick, p.worker)
  {
    var after, n := run + [Step(pid, c)], |run|;
    assert after[..n] == run && after[n] == Step(pid, c);
    assert Took(after, n, PickSelect(p.worker, p.workerType));
    R.SpellsIsNormal(p.workerType, "shell");
    ReadOnRecord(run, Step(pid, c), c.pick);
  }

  lemma InsertOnRecord(run: seq<Label>, pid: nat, p: Proc, c: Choice)
    requires Here(run, pid, p) && p.CreateInsert? && !c.fail && Insertable(Exec(run).rows, p.id, p.job.key)
    ensures KeySeen(run + [Step(pid, c)], p.id, p.job.key)
  {
    var after := run + [Step(pid, c)];
    assert after[..|run|] == run && after[..|after|] == after;
    assert Exec(after).rows == InsertRow(Exec(run).rows, p.id, p.job, c.now);
    RowSeen(after, |after|, p.id);
  }

  lemma StepOnRecord(run: seq<Label>, pid: nat, p: Proc, c: Choice)
    requires Here(run, pid, p) && ProcExplained(On(run + [Step(pid, c)]), p)
    ensures OnRecord(On(run + [Step(pid, c)]), Exec(run).rows, p, c)
  {
    var rows := Exec(run).rows;
    match p {
      case CreateFind(_, _) => if c.pick in rows { ReadOnRecord(run, Step(pid, c), c.pick); }
      case CreateInsert(job, id, _) => if !c.fail && Insertable(rows, id, job.key) { InsertOnRecord(run, pid, p, c); }
      case CreateRefind(_, _) => if c.pick in rows { ReadOnRecord(run, Step(pid, c), c.pick); }
      case AssignRead(id, _, _) => if id in rows { ReadOnRecord(run, Step(pid, c), id); }
      case AssignCheck(_, jobType, _, _) => if WorkerCanRunType(c.workerType, jobType) { CheckOnRecord(run, pid, p, c); }
      case AssignReread(id, _, _) => if id in rows { ReadOnRecord(run, Step(pid, c), id); }
      case DispatchRead(id, _) => if id in rows { ReadOnRecord(run, Step(pid, c), id); }
      case PickSelect(_, workerType) => if Eligible(rows, c.pick, workerType) { PickOnRecord(run, pid, p, c); }
      case _ =>
    }
  }

  lemma RequestExplained(policy: Policy, r: Record, p: Proc)
    requires IsRequest(policy, p) && p in r.asked
    ensures ProcExplained(r, p)
  {
    if p.CreateFind? { assert FromDraft(p.job, p.job); }
  }

  ghost predicate AllExplained(r: Record, s: State) {
    (forall i | 0 <= i < |s.log| :: Explained(r, s.log[i])) && forall pid | pid in s.procs :: ProcExplained(r, s.procs[pid])
  }

  lemma AdvanceKeepsProcs(s: State, p: Proc, c: Choice)
    ensures Advance(s, p, c).0.procs == s.procs
  {
  }

  lemma AllStays(r: Record, t: Record, s: State)
    requires Grows(r, t) && AllExplained(r, s)
    ensures AllExplained(t, s)
  {
    forall i | 0 <= i < |s.log| ensures Explained(t, s.log[i]) { ExplainedStays(r, t, s.log[i]); }
    forall pid | pid in s.procs ensures ProcExplained(t, s.procs[pid]) { ProcStays(r, t, s.procs[pid]); }
  }

  lemma StepKeeps(r: Record, s: State, pid: nat, c: Choice)
    requires AllExplained(r, s) && pid in s.procs && OnRecord(r, s.rows, s.procs[pid], c)
    ensures AllExplained(r, Apply(s, Step(pid, c)))
  {
    var t := Apply(s, Step(pid, c));
    var f := AdvanceExplained(r, s, s.procs[pid], c);
    AdvanceKeepsProcs(s, s.procs[pid], c);
    forall i | 0 <= i < |t.log| ensures Explained(r, t.log[i]) {
      if i >= |s.log| { assert t.log[i] == f.added[i - |s.log|]; }
    }
  }

  lemma {:induction false} ReachableInv(policy: Policy, run: seq<Label>)
    requires Legal(policy, run)
    ensures AllExplained(On(run), Exec(run))
  {
    if run != [] {
      var init, l := run[..|run| - 1], run[|run| - 1];
      ReachableInv(policy, init);
      assert init + [l] == run;
      RecordGrows(init, l);
      AllStays(On(init), On(run), Exec(init));
      match l {
        case Step(pid, c) =>
          StepOnRecord(init, pid, Exec(init).procs[pid], c);
          StepKeeps(On(run), Exec(init), pid, c);
        case Start(_, p) =>
          assert run[|run| - 1].p == p && Asked(run, p);
          RequestExplained(policy, On(run), p);
        case _ =>
      }
    }
  }

  // ---- Main result ----

  /** In every run each event goes back to a request: a decision, a result or a
      deletion to the request for it; a new row to the operation, the manual request
      or the dispatch that describes it; an assignment to a check that the worker
      suits the job; a pushed job to the row it was read from, after such a check. */
  lemma EverythingWasAsked(policy: Policy, run: seq<Label>, i: nat)
    requires Legal(policy, run) && i < |Exec(run).log|
    ensures Explained(On(run), Exec(run).log[i])
  {
    ReachableInv(policy, run);
  }
}
