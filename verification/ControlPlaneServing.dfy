/** What the handlers get done: an operation deals with each of its workers, one
    after the other, whatever fails; and a handler that is not disturbed brings its
    request to the result it is for. */
module ControlPlaneServing {
  import opened Basics
  import opened Jobs
  import opened ControlPlane
  import opened ControlPlaneRuns
  import Q = ControlPlaneRequests
  import R = Routing
  import Ids

  // ---- No worker of an operation is skipped ----

  function Bottom(k: Then): Then {
    if k.DispatchTo? then Bottom(k.rest) else k
  }

  /** The handler comes to worker `i` of the operation next. */
  predicate Owes(p: Proc, op: Operation, i: nat) {
    match p
    case OperationLoop(o, j) => o == op && j == i
    case CreateFind(_, k) => Bottom(k) == NextWorker(op, i)
    case CreateDraw(_, k) => Bottom(k) == NextWorker(op, i)
    case CreateInsert(_, _, k) => Bottom(k) == NextWorker(op, i)
    case CreateRefind(_, k) => Bottom(k) == NextWorker(op, i)
    case CreateFetch(_, _, k) => Bottom(k) == NextWorker(op, i)
    case AssignRead(_, _, k) => Bottom(k) == NextWorker(op, i)
    case AssignCheck(_, _, _, k) => Bottom(k) == NextWorker(op, i)
    case AssignWrite(_, _, k) => Bottom(k) == NextWorker(op, i)
    case AssignReread(_, _, k) => Bottom(k) == NextWorker(op, i)
    case Push(_, _, _, k) => Bottom(k) == NextWorker(op, i)
    case _ => false
  }

  /** The handler goes to create the job of worker `i`, and to hand it over at once
      exactly if it needs no approval. */
  predicate Tries(q: Proc, op: Operation, i: nat) {
    q.CreateFind? && Q.FromOperation(op, i, q.job) &&
    if op.approval then !q.k.DispatchTo? else q.k.DispatchTo? && q.k.worker == op.workers[i]
  }

  lemma {:induction false} ResumeOwes(k: Then, id: nat, job: Job, op: Operation, i: nat)
    requires Bottom(k) == NextWorker(op, i)
    ensures Owes(OnFail(k), op, i) && Owes(OnOk(k, id, job), op, i)
  {
    if k.DispatchTo? { ResumeOwes(k.rest, id, job, op, i); }
  }

  lemma CreateOwes(s: State, p: Proc, c: Choice, op: Operation, i: nat)
    requires Owes(p, op, i) && (p.CreateFind? || p.CreateDraw? || p.CreateInsert? || p.CreateRefind? || p.CreateFetch?)
    ensures Owes(CreateStep(s, p, c).1, op, i)
  {
    ResumeOwes(p.k, 0, ManualJob("", "", "", ""), op, i);
    if p.CreateInsert? { ResumeOwes(p.k, p.id, p.job.(createdAt := c.now, updatedAt := c.now), op, i); }
    if p.CreateFetch? && p.id in s.rows { ResumeOwes(p.k, p.id, Read(s.rows[p.id]), op, i); }
  }

  lemma AssignOwes(s: State, p: Proc, c: Choice, op: Operation, i: nat)
    requires Owes(p, op, i) && (p.AssignRead? || p.AssignCheck? || p.AssignWrite? || p.AssignReread? || p.Push?)
    ensures Owes(AssignStep(s, p, c).1, op, i)
  {
    ResumeOwes(p.k, p.id, if p.Push? then p.job else ManualJob("", "", "", ""), op, i);
  }

  /** Whatever a step meets, the handler still owes worker `i`, or it tries that
      worker now and owes the next, or it is done with all. */
  lemma StepOwes(s: State, p: Proc, c: Choice, op: Operation, i: nat)
    requires Owes(p, op, i)
    ensures var q := Advance(s, p, c).1;
            if !p.OperationLoop? then Owes(q, op, i)
            else if i < |op.workers| then Tries(q, op, i) && Owes(q, op, i + 1)
            else q == Finished
  {
    if p.CreateFind? || p.CreateDraw? || p.CreateInsert? || p.CreateRefind? || p.CreateFetch? {
      CreateOwes(s, p, c, op, i);
    } else if !p.OperationLoop? {
      AssignOwes(s, p, c, op, i);
    }
  }

  /** At label `n` the handler went to try worker `i`. */
  ghost predicate TriedAt(run: seq<Label>, n: nat, pid: nat, op: Operation, i: nat) {
    n < |run| && run[n].Step? && run[n].pid == pid && pid in Exec(run[..n + 1]).procs && Tries(Exec(run[..n + 1]).procs[pid], op, i)
  }

  /** It did so at some label after `m`. */
  ghost predicate Tried(run: seq<Label>, m: nat, pid: nat, op: Operation, i: nat) {
    exists n :: m < n < |run| && TriedAt(run, n, pid, op, i)
  }

  lemma TriedStays(run: seq<Label>, l: Label, m: nat, pid: nat, op: Operation, i: nat)
    requires Tried(run, m, pid, op, i)
    ensures Tried(run + [l], m, pid, op, i)
  {
    var n :| m < n < |run| && TriedAt(run, n, pid, op, i);
    assert (run + [l])[..n + 1] == run[..n + 1];
    assert TriedAt(run + [l], n, pid, op, i);
  }

  ghost predicate TriedUpTo(run: seq<Label>, m: nat, pid: nat, op: Operation, i: nat) {
    forall j | 0 <= j < i :: Tried(run, m, pid, op, j)
  }

  ghost predicate OnItsWay(run: seq<Label>, m: nat, pid: nat, op: Operation) {
    pid in Exec(run).procs &&
    if Exec(run).procs[pid] == Finished then TriedUpTo(run, m, pid, op, |op.workers|)
    else exists i: nat :: i <= |op.workers| && Owes(Exec(run).procs[pid], op, i) && TriedUpTo(run, m, pid, op, i)
  }

  lemma OthersLeave(policy: Policy, s: State, l: Label, pid: nat)
    requires pid in s.procs && Enabled(policy, s, l) && !l.Restart? && !(l.Step? && l.pid == pid)
    ensures pid in Apply(s, l).procs && Apply(s, l).procs[pid] == s.procs[pid]
  {
    if l.Step? { Q.AdvanceKeepsProcs(s, s.procs[l.pid], l.c); }
  }

  lemma OwnStep(s: State, pid: nat, c: Choice)
    requires pid in s.procs
    ensures pid in Apply(s, Step(pid, c)).procs && Apply(s, Step(pid, c)).procs[pid] == Advance(s, s.procs[pid], c).1
  {
  }

  lemma AllTriedStay(run: seq<Label>, l: Label, m: nat, pid: nat, op: Operation, i: nat)
    requires TriedUpTo(run, m, pid, op, i)
    ensures TriedUpTo(run + [l], m, pid, op, i)
  {
    forall j | 0 <= j < i ensures Tried(run + [l], m, pid, op, j) { TriedStays(run, l, m, pid, op, j); }
  }

  lemma OthersKeepWay(policy: Policy, run: seq<Label>, l: Label, m: nat, pid: nat, op: Operation)
    requires OnItsWay(run, m, pid, op) && Enabled(policy, Exec(run), l) && !l.Restart? && !(l.Step? && l.pid == pid)
    ensures OnItsWay(run + [l], m, pid, op)
  {
    assert (run + [l])[..|run|] == run;
    OthersLeave(policy, Exec(run), l, pid);
    if Exec(run).procs[pid] == Finished {
      AllTriedStay(run, l, m, pid, op, |op.workers|);
    } else {
      var i: nat :| i <= |op.workers| && Owes(Exec(run).procs[pid], op, i) && TriedUpTo(run, m, pid, op, i);
      AllTriedStay(run, l, m, pid, op, i);
    }
  }

  lemma OwnKeepsWay(run: seq<Label>, c: Choice, m: nat, pid: nat, op: Operation, i: nat)
    requires pid in Exec(run).procs && Owes(Exec(run).procs[pid], op, i) && TriedUpTo(run, m, pid, op, i) && m < |run| && i <= |op.workers|
    ensures OnItsWay(run + [Step(pid, c)], m, pid, op)
  {
    var after, p := run + [Step(pid, c)], Exec(run).procs[pid];
    assert after[..|run|] == run && after[..|run| + 1] == after && after[|run|] == Step(pid, c);
    OwnStep(Exec(run), pid, c);
    StepOwes(Exec(run), p, c, op, i);
    AllTriedStay(run, Step(pid, c), m, pid, op, i);
    if p.OperationLoop? && i < |op.workers| {
      assert TriedAt(after, |run|, pid, op, i);
      assert TriedUpTo(after, m, pid, op, i + 1);
    }
  }

  lemma FinishedStays(run: seq<Label>, c: Choice, m: nat, pid: nat, op: Operation)
    requires OnItsWay(run, m, pid, op) && Exec(run).procs[pid] == Finished
    ensures OnItsWay(run + [Step(pid, c)], m, pid, op)
  {
    assert (run + [Step(pid, c)])[..|run|] == run;
    OwnStep(Exec(run), pid, c);
    AllTriedStay(run, Step(pid, c), m, pid, op, |op.workers|);
  }

  /** Until the server restarts: an operation that has finished has tried each of its
      workers, and one that has not will, whatever failed and whoever interfered. */
  lemma {:induction false} EveryWorkerTried(policy: Policy, run: seq<Label>, m: nat, pid: nat, op: Operation)
    requires Legal(policy, run) && m < |run| && run[m] == Start(pid, OperationLoop(op, 0))
    requires forall n | m < n < |run| :: !run[n].Restart?
    ensures OnItsWay(run, m, pid, op)
    decreases |run|
  {
    var n := |run| - 1;
    if n == m {
      assert run[..n + 1] == run;
      assert Owes(Exec(run).procs[pid], op, 0) && TriedUpTo(run, m, pid, op, 0);
    } else {
      EveryWorkerTried(policy, run[..n], m, pid, op);
      var init, l := run[..n], run[n];
      assert init + [l] == run;
      if !(l.Step? && l.pid == pid) {
        OthersKeepWay(policy, init, l, m, pid, op);
      } else if Exec(init).procs[pid] == Finished {
        FinishedStays(init, l.c, m, pid, op);
      } else {
        var i: nat :| i <= |op.workers| && Owes(Exec(init).procs[pid], op, i) && TriedUpTo(init, m, pid, op, i);
        OwnKeepsWay(init, l.c, m, pid, op, i);
      }
    }
  }

  // ---- What an undisturbed handler brings about ----

  /** A choice where nothing fails and the worker has this type. */
  function Calm(workerType: string): Choice {
    CALM.(workerType := workerType)
  }

  /** Job `id` was handed to the worker and pushed to its stream; nothing else changed. */
  ghost predicate GivenTo(s: State, t: State, id: nat, worker: string) {
    id in s.rows && OnlyRow(s.rows, t.rows, id) && IsStarted(s.rows[id], t.rows[id], worker, 0) &&
    t == s.(rows := t.rows, log := s.log + [Assigned(id, worker, 0)] + [Pushed(id, worker, Read(t.rows[id]))])
  }

  lemma ReadsAndChecks(s: State, id: nat, worker: string, workerType: string, k: Then)
    requires id in s.rows && R.Suits(workerType, s.rows[id].workerType)
    ensures var c, jobType := Calm(workerType), s.rows[id].workerType;
            Advance(s, AssignRead(id, worker, k), c) == (s, AssignCheck(id, jobType, worker, k)) &&
            Advance(s, AssignCheck(id, jobType, worker, k), c) == (s, AssignWrite(id, worker, k))
  {
    R.CanRunExactly(workerType, s.rows[id].workerType);
  }

  /** The state after the write, and what reading it back and pushing add. */
  lemma WritesAndPushes(s: State, id: nat, worker: string, workerType: string, k: Then) returns (u: State, t: State)
    requires id in s.rows
    ensures GivenTo(s, t, id, worker) && u == Note(s, t.rows, Assigned(id, worker, 0))
    ensures var c := Calm(workerType);
            Advance(s, AssignWrite(id, worker, k), c) == (u, AssignReread(id, worker, k)) &&
            Advance(u, AssignReread(id, worker, k), c) == (u, Push(id, worker, Read(t.rows[id]), k)) &&
            Advance(u, Push(id, worker, Read(t.rows[id]), k), c) == (t, OnOk(k, id, Read(t.rows[id])))
  {
    var rows := AssignRow(s.rows, id, worker, 0);
    u := Note(s, rows, Assigned(id, worker, 0));
    t := Note(u, rows, Pushed(id, worker, Read(rows[id])));
  }

  /** A dispatch to a suitable worker hands the job over. */
  lemma HandsOver(policy: Policy, covered: bool, run0: seq<Label>, s: State, pid: nat, id: nat, worker: string,
                  workerType: string, k: Then) returns (run: seq<Label>, t: State)
    requires Reaches(policy, covered, run0, Put(s, pid, AssignRead(id, worker, k)))
    requires id in s.rows && R.Suits(workerType, s.rows[id].workerType)
    ensures GivenTo(s, t, id, worker) && Reaches(policy, covered, run, Put(t, pid, OnOk(k, id, Read(t.rows[id]))))
  {
    var c, jobType := Calm(workerType), s.rows[id].workerType;
    ReadsAndChecks(s, id, worker, workerType, k);
    var u;
    u, t := WritesAndPushes(s, id, worker, workerType, k);
    run := ContinueBy(policy, covered, run0, s, pid, AssignRead(id, worker, k), c);
    run := ContinueBy(policy, covered, run, s, pid, AssignCheck(id, jobType, worker, k), c);
    run := ContinueBy(policy, covered, run, s, pid, AssignWrite(id, worker, k), c);
    run := ContinueBy(policy, covered, run, u, pid, AssignReread(id, worker, k), c);
    run := ContinueBy(policy, covered, run, u, pid, Push(id, worker, Read(t.rows[id]), k), c);
  }

  /** A dispatch to any other worker ends without touching the job. */
  lemma TurnsAway(s: State, id: nat, jobType: string, worker: string, k: Then, c: Choice)
    requires !R.Suits(c.workerType, jobType)
    ensures Advance(s, AssignCheck(id, jobType, worker, k), c) == (s, OnFail(k))
  {
    R.CanRunExactly(c.workerType, jobType);
  }

  // ---- Failures ----

  /** The handler's next statement fails: the call does, or the row that it reads or
      decides is not there, or the insert meets a used id or key. */
  predicate Fails(s: State, p: Proc, c: Choice) {
    match p
    case CreateFind(job, _) => job.key != "" && c.fail
    case CreateInsert(job, id, _) => c.fail || !Insertable(s.rows, id, job.key)
    case CreateRefind(key, _) => c.fail || !HasKey(s.rows, c.pick, key)
    case CreateFetch(_, id, _) => c.fail || id !in s.rows
    case AssignRead(id, _, _) => c.fail || id !in s.rows
    case AssignReread(id, _, _) => c.fail || id !in s.rows
    case DispatchRead(id, _) => c.fail || id !in s.rows
    case ApproveWrite(id, _, _) => c.fail || id !in s.rows
    case ApproveRead(id) => c.fail || id !in s.rows
    case RejectWrite(id, _, _) => c.fail || id !in s.rows
    case DeleteRead(id) => c.fail || id !in s.rows
    case CompleteWrite(_, id, _, _) => c.fail || id !in s.rows
    case CreateDraw(_, _) => false
    case Push(_, _, _, _) => false
    case OperationLoop(_, _) => false
    case _ => c.fail
  }

  /** A statement that fails changes nothing. An insert under a key looks the key up
      again; a creation or a hand-over is given up; any other request ends. */
  lemma FailureStops(s: State, p: Proc, c: Choice)
    requires Fails(s, p, c)
    ensures var (t, q) := Advance(s, p, c);
            t == s &&
            if p.CreateInsert? && p.job.key != "" then q == CreateRefind(p.job.key, p.k)
            else if p.CreateFind? || p.CreateInsert? || p.CreateRefind? || p.CreateFetch? ||
                    p.AssignRead? || p.AssignCheck? || p.AssignWrite? || p.AssignReread? then q == OnFail(p.k)
            else q == Finished
  {
    if p.CreateFind? || p.CreateInsert? || p.CreateRefind? || p.CreateFetch? {
      assert Advance(s, p, c) == CreateStep(s, p, c);
    }
  }

  /** A push that the stream does not take is not noticed. */
  lemma PushIgnored(s: State, id: nat, worker: string, job: Job, k: Then, c: Choice)
    ensures var (t, q) := Advance(s, Push(id, worker, job, k), c);
            q == OnOk(k, id, job) && t == if c.pushed then s.(log := s.log + [Pushed(id, worker, job)]) else s
  {
  }

  // What follows a failure: a dispatch stops at the first, at once if its next worker
  // does not suit; an approval tries its second dispatch even if the first failed.

  lemma LoopStops(s: State, base: Job, id: nat, workers: seq<string>, i: nat, c: Choice)
    requires c.fail || !R.Suits(c.workerType, base.workerType)
    ensures Advance(s, DispatchLoop(base, id, workers, i), c) == (s, Finished)
  {
    R.CanRunExactly(c.workerType, base.workerType);
  }

  lemma {:induction false} DispatchEnds(k: Then)
    requires Bottom(k).NextClone?
    ensures OnFail(k) == Finished
  {
    if k.DispatchTo? { DispatchEnds(k.rest); }
  }

  lemma SecondTry(id: nat, worker: string, job: Job)
    ensures OnFail(DispatchAgain(id, worker)) == AssignRead(id, worker, Stop)
    ensures job.worker == "" ==> OnOk(DispatchAgain(id, worker), id, job) == Finished
  {
  }

  // ---- An operation ----

  function KeyAt(op: Operation, i: nat): string
    requires i < |op.workers|
  {
    JobKey(op.runId, op.callId, op.workers[i])
  }

  /** Room for the jobs of the workers from `i` on: new ids and unused keys. */
  predicate Room(s: State, op: Operation, i: nat) {
    (forall id | id in s.rows :: id <= s.counter) &&
    forall j, id | i <= j < |op.workers| && id in s.rows && KeyAt(op, j) != "" :: s.rows[id].key != KeyAt(op, j)
  }

  predicate DistinctWorkers(op: Operation) {
    forall i, j | 0 <= i < j < |op.workers| :: op.workers[i] != op.workers[j]
  }

  /** Job `id` is what the operation asks for worker `i`: waiting if it needs
      approval, otherwise running at that worker and pushed to it. */
  ghost predicate Provided(t: State, op: Operation, i: nat, id: int)
    requires i < |op.workers|
  {
    id >= 0 && id in t.rows &&
    var job := t.rows[id];
    job.name == "[agent][worker:" + op.workers[i] + "] " + op.reason && job.workerType == op.workerType &&
    job.command == op.command && job.worker == op.workers[i] && job.sourceId == op.runId && job.key == KeyAt(op, i) &&
    job.approvalRequired == op.approval && job.status == (if op.approval then WaitingApproval else Running) &&
    (!op.approval ==> Pushed(id, op.workers[i], Read(job)) in t.log)
  }

  ghost predicate Extends(s: State, t: State, id: nat) {
    t.counter == id == s.counter + 1 && t.procs == s.procs && s.log <= t.log && t.rows.Keys == s.rows.Keys + {id} &&
    forall other | other in s.rows :: t.rows[other] == s.rows[other]
  }

  lemma InsertedExtends(s: State, job: Job)
    requires s.counter + 1 !in s.rows
    ensures Extends(s, Inserted(s, job), s.counter + 1)
  {
  }

  lemma InsertedIsProvided(s: State, op: Operation, i: nat)
    requires i < |op.workers| && op.approval
    ensures Provided(Inserted(s, OperationJob(op, op.workers[i])), op, i, s.counter + 1)
  {
  }

  lemma GivenIsProvided(s: State, t: State, op: Operation, i: nat)
    requires i < |op.workers| && !op.approval && s.counter + 1 !in s.rows
    requires GivenTo(Inserted(s, OperationJob(op, op.workers[i])), t, s.counter + 1, op.workers[i])
    ensures Provided(t, op, i, s.counter + 1) && Extends(s, t, s.counter + 1)
  {
    InsertedExtends(s, OperationJob(op, op.workers[i]));
    var u, id := Inserted(s, OperationJob(op, op.workers[i])), s.counter + 1;
    assert t.log[|u.log| + 1] == Pushed(id, op.workers[i], Read(t.rows[id]));
  }

  lemma RoomForOne(s: State, op: Operation, i: nat)
    requires i < |op.workers| && Room(s, op, i)
    ensures Insertable(s.rows, s.counter + 1, OperationJob(op, op.workers[i]).key)
  {
    assert OperationJob(op, op.workers[i]).key == KeyAt(op, i);
  }

  lemma CreatesOne(policy: Policy, covered: bool, run0: seq<Label>, s: State, pid: nat, op: Operation, i: nat)
    returns (run: seq<Label>)
    requires Reaches(policy, covered, run0, Put(s, pid, OperationLoop(op, i))) && i < |op.workers| && Room(s, op, i)
    ensures var next, t := NextWorker(op, i + 1), Inserted(s, OperationJob(op, op.workers[i]));
            var k := if op.approval then next else DispatchTo(op.workers[i], next);
            Reaches(policy, covered, run, Put(t, pid, OnOk(k, s.counter + 1, t.rows[s.counter + 1])))
  {
    var job, next := OperationJob(op, op.workers[i]), NextWorker(op, i + 1);
    var k := if op.approval then next else DispatchTo(op.workers[i], next);
    run := Continue(policy, covered, run0, s, pid, OperationLoop(op, i));
    RoomForOne(s, op, i);
    run := Create(policy, covered, run, s, pid, job, k);
  }

  lemma ServesOne(policy: Policy, covered: bool, run0: seq<Label>, s: State, pid: nat, op: Operation, i: nat, workerType: string)
    returns (run: seq<Label>, t: State)
    requires Reaches(policy, covered, run0, Put(s, pid, OperationLoop(op, i))) && i < |op.workers| && Room(s, op, i)
    requires R.Suits(workerType, op.workerType)
    ensures Reaches(policy, covered, run, Put(t, pid, OperationLoop(op, i + 1)))
    ensures Extends(s, t, s.counter + 1) && Provided(t, op, i, s.counter + 1)
  {
    run := CreatesOne(policy, covered, run0, s, pid, op, i);
    t := Inserted(s, OperationJob(op, op.workers[i]));
    if op.approval {
      InsertedExtends(s, OperationJob(op, op.workers[i]));
      InsertedIsProvided(s, op, i);
    } else {
      var u := t;
      run, t := HandsOver(policy, covered, run, u, pid, s.counter + 1, op.workers[i], workerType, NextWorker(op, i + 1));
      GivenIsProvided(s, t, op, i);
    }
  }

  lemma SameKeySameWorker(op: Operation, i: nat, j: nat)
    requires i < |op.workers| && j < |op.workers| && KeyAt(op, i) == KeyAt(op, j) != ""
    ensures op.workers[i] == op.workers[j]
  {
    var head := op.runId + ":" + op.callId + ":";
    assert KeyAt(op, i)[|head|..] == op.workers[i] && KeyAt(op, j)[|head|..] == op.workers[j];
  }

  lemma RoomLeft(s: State, t: State, op: Operation, i: nat)
    requires Room(s, op, i) && i < |op.workers| && DistinctWorkers(op)
    requires Extends(s, t, s.counter + 1) && t.rows[s.counter + 1].key == KeyAt(op, i)
    ensures Room(t, op, i + 1)
  {
    forall j, id | i + 1 <= j < |op.workers| && id in t.rows && KeyAt(op, j) != "" ensures t.rows[id].key != KeyAt(op, j) {
      if KeyAt(op, i) == KeyAt(op, j) { SameKeySameWorker(op, i, j); }
    }
  }

  /** The workers from `i` on have their jobs under consecutive ids. */
  ghost predicate Serves(s: State, t: State, op: Operation, i: nat) {
    i <= |op.workers| && t.procs == s.procs && s.log <= t.log && (forall id | id in s.rows :: id in t.rows && t.rows[id] == s.rows[id]) &&
    forall j | i <= j < |op.workers| :: Provided(t, op, j, IdAt(s, i, j))
  }

  function IdAt(s: State, i: nat, j: nat): int {
    s.counter + 1 + j - i
  }

  lemma ProvidedStays(u: State, t: State, op: Operation, i: nat, id: int)
    requires i < |op.workers| && Provided(u, op, i, id) && u.log <= t.log && id in t.rows && t.rows[id] == u.rows[id]
    ensures Provided(t, op, i, id)
  {
  }

  lemma ServesMore(s: State, u: State, t: State, op: Operation, i: nat)
    requires i < |op.workers| && Extends(s, u, s.counter + 1) && Provided(u, op, i, s.counter + 1) && Serves(u, t, op, i + 1)
    ensures Serves(s, t, op, i)
  {
    forall j | i <= j < |op.workers| ensures Provided(t, op, j, IdAt(s, i, j)) {
      if j > i { assert IdAt(s, i, j) == IdAt(u, i + 1, j); } else { ProvidedStays(u, t, op, i, s.counter + 1); }
    }
  }

  lemma {:induction false} ServesFrom(policy: Policy, covered: bool, run0: seq<Label>, s: State, pid: nat, op: Operation, i: nat,
                                      workerType: string) returns (run: seq<Label>, t: State)
    requires Reaches(policy, covered, run0, Put(s, pid, OperationLoop(op, i))) && i <= |op.workers| && Room(s, op, i)
    requires DistinctWorkers(op) && R.Suits(workerType, op.workerType)
    ensures Reaches(policy, covered, run, Put(t, pid, Finished)) && Serves(s, t, op, i)
    decreases |op.workers| - i
  {
    if i == |op.workers| {
      t := s;
      run := Continue(policy, covered, run0, s, pid, OperationLoop(op, i));
    } else {
      var u;
      run, u := ServesOne(policy, covered, run0, s, pid, op, i, workerType);
      RoomLeft(s, u, op, i);
      run, t := ServesFrom(policy, covered, run, u, pid, op, i + 1, workerType);
      ServesMore(s, u, t, op, i);
    }
  }

  /** An operation that nothing disturbs, for distinct suitable workers, leaves one
      job for each: waiting if approval is needed, otherwise running and pushed. */
  lemma OperationServed(policy: Policy, covered: bool, run0: seq<Label>, s: State, pid: nat, op: Operation, workerType: string)
    returns (run: seq<Label>, t: State)
    requires Reaches(policy, covered, run0, s) && pid !in s.procs && OperationAllowed(policy, op)
    requires Room(s, op, 0) && DistinctWorkers(op) && R.Suits(workerType, op.workerType)
    ensures Reaches(policy, covered, run, Put(t, pid, Finished)) && Serves(s, t, op, 0)
  {
    run := Begin(policy, covered, run0, s, pid, OperationLoop(op, 0));
    run, t := ServesFrom(policy, covered, run, s, pid, op, 0, workerType);
  }

  // ---- Approval, rejection, the queue, and a dispatch ----

  lemma ApprovesAndReads(s: State, id: nat, who: string, comment: string) returns (u: State)
    requires id in s.rows && s.rows[id].status == WaitingApproval
    ensures OnlyRow(s.rows, u.rows, id) && IsApproved(s.rows[id], u.rows[id], who, comment, 0)
    ensures u == s.(rows := u.rows, log := s.log + [Decided(id, true, who, comment, 0)])
    ensures Advance(s, ApproveWrite(id, who, comment), CALM) == (u, ApproveRead(id))
    ensures var worker := s.rows[id].worker;
            Advance(u, ApproveRead(id), CALM) == (u, if worker == "" then Finished else AssignRead(id, worker, DispatchAgain(id, worker)))
  {
    u := Note(s, ApproveRow(s.rows, id, who, comment, 0), Decided(id, true, who, comment, 0));
  }

  lemma Approves(policy: Policy, covered: bool, run0: seq<Label>, s: State, pid: nat, id: nat, who: string, comment: string)
    returns (run: seq<Label>, u: State)
    requires Reaches(policy, covered, run0, s) && pid !in s.procs && id in s.rows && s.rows[id].status == WaitingApproval
    ensures OnlyRow(s.rows, u.rows, id) && IsApproved(s.rows[id], u.rows[id], who, comment, 0)
    ensures u == s.(rows := u.rows, log := s.log + [Decided(id, true, who, comment, 0)])
    ensures var worker := s.rows[id].worker;
            Reaches(policy, covered, run, Put(u, pid, if worker == "" then Finished else AssignRead(id, worker, DispatchAgain(id, worker))))
  {
    u := ApprovesAndReads(s, id, who, comment);
    run := Begin(policy, covered, run0, s, pid, ApproveWrite(id, who, comment));
    run := Continue(policy, covered, run, s, pid, ApproveWrite(id, who, comment));
    run := Continue(policy, covered, run, u, pid, ApproveRead(id));
  }

  lemma DispatchesAgain(id: nat, worker: string, job: Job)
    requires job.worker == worker != ""
    ensures OnOk(DispatchAgain(id, worker), id, job) == AssignRead(id, worker, Stop) && OnOk(Stop, id, job) == Finished
  {
  }

  /** An approval that nothing disturbs releases the job, and hands it to its worker
      if it has one: twice, as the handler dispatches twice. */
  lemma ApprovalServed(policy: Policy, covered: bool, run0: seq<Label>, s: State, pid: nat, id: nat, who: string, comment: string,
                       workerType: string) returns (run: seq<Label>, u: State, v: State, t: State)
    requires Reaches(policy, covered, run0, s) && pid !in s.procs && id in s.rows && s.rows[id].status == WaitingApproval
    requires R.Suits(workerType, s.rows[id].workerType)
    ensures OnlyRow(s.rows, u.rows, id) && IsApproved(s.rows[id], u.rows[id], who, comment, 0)
    ensures u == s.(rows := u.rows, log := s.log + [Decided(id, true, who, comment, 0)])
    ensures if s.rows[id].worker == "" then t == u else GivenTo(u, v, id, s.rows[id].worker) && GivenTo(v, t, id, s.rows[id].worker)
    ensures Reaches(policy, covered, run, Put(t, pid, Finished))
  {
    var worker := s.rows[id].worker;
    run, u := Approves(policy, covered, run0, s, pid, id, who, comment);
    v, t := u, u;
    if worker != "" {
      run, v := HandsOver(policy, covered, run, u, pid, id, worker, workerType, DispatchAgain(id, worker));
      DispatchesAgain(id, worker, Read(v.rows[id]));
      run, t := HandsOver(policy, covered, run, v, pid, id, worker, workerType, Stop);
    }
  }

  lemma LoopGoesOn(s: State, base: Job, id: nat, workers: seq<string>, i: nat, workerType: string)
    requires i < |workers| && R.Suits(workerType, base.workerType)
    ensures Advance(s, DispatchLoop(base, id, workers, i), Calm(workerType)) ==
            (s, if i == 0 then AssignRead(id, workers[0], NextClone(base, id, workers, 1))
                else CreateFind(Clone(base, id, workers[i]), DispatchTo(workers[i], NextClone(base, id, workers, i + 1))))
  {
    R.CanRunExactly(workerType, base.workerType);
  }

  lemma ReadsFree(s: State, id: nat, workers: seq<string>)
    requires id in s.rows && s.rows[id].status in {Pending, Queued}
    ensures Advance(s, DispatchRead(id, workers), CALM) == (s, DispatchLoop(Read(s.rows[id]), id, workers, 0))
  {
  }

  /** A dispatch of a free job that nothing disturbs hands it to its first worker
      and then turns to the others. */
  lemma DispatchServed(policy: Policy, covered: bool, run0: seq<Label>, s: State, pid: nat, id: nat, workers: seq<string>,
                       workerType: string)
    returns (run: seq<Label>, t: State)
    requires Reaches(policy, covered, run0, s) && pid !in s.procs && id in s.rows && s.rows[id].status in {Pending, Queued}
    requires |workers| > 0 && R.Suits(workerType, s.rows[id].workerType)
    ensures GivenTo(s, t, id, workers[0]) && Reaches(policy, covered, run, Put(t, pid, DispatchLoop(Read(s.rows[id]), id, workers, 1)))
  {
    var base := Read(s.rows[id]);
    ReadsFree(s, id, workers);
    LoopGoesOn(s, base, id, workers, 0, workerType);
    run := Begin(policy, covered, run0, s, pid, DispatchRead(id, workers));
    run := Continue(policy, covered, run, s, pid, DispatchRead(id, workers));
    run := ContinueBy(policy, covered, run, s, pid, DispatchLoop(base, id, workers, 0), Calm(workerType));
    run, t := HandsOver(policy, covered, run, s, pid, id, workers[0], workerType, NextClone(base, id, workers, 1));
  }

  /** Job `id` is the copy of the dispatched job for worker `i`, running there. */
  ghost predicate Copied(t: State, base: Job, baseId: nat, worker: string, id: nat) {
    id in t.rows &&
    var job := t.rows[id];
    job.command == base.command && job.workerType == base.workerType && job.approvalRequired == base.approvalRequired &&
    SameDecision(job, base) && job.sourceId == Ids.Format("job", baseId) && job.output == "" && job.finishedAt.None? &&
    job.worker == worker && job.status == Running && Pushed(id, worker, Read(job)) in t.log
  }

  lemma GivenIsCopied(s: State, t: State, base: Job, baseId: nat, worker: string)
    requires s.counter + 1 !in s.rows && GivenTo(Inserted(s, Clone(base, baseId, worker)), t, s.counter + 1, worker)
    ensures Copied(t, base, baseId, worker, s.counter + 1) && Extends(s, t, s.counter + 1)
  {
    var u, id := Inserted(s, Clone(base, baseId, worker)), s.counter + 1;
    InsertedExtends(s, Clone(base, baseId, worker));
    assert t.log[|u.log| + 1] == Pushed(id, worker, Read(t.rows[id]));
  }

  lemma CreatesCopy(policy: Policy, covered: bool, run0: seq<Label>, s: State, pid: nat, base: Job, baseId: nat, workers: seq<string>,
                    i: nat, workerType: string) returns (run: seq<Label>)
    requires Reaches(policy, covered, run0, Put(s, pid, DispatchLoop(base, baseId, workers, i))) && 0 < i < |workers|
    requires s.counter + 1 !in s.rows && base.key == "" && R.Suits(workerType, base.workerType)
    ensures var u, next := Inserted(s, Clone(base, baseId, workers[i])), NextClone(base, baseId, workers, i + 1);
            Reaches(policy, covered, run, Put(u, pid, AssignRead(s.counter + 1, workers[i], next)))
  {
    var job, next := Clone(base, baseId, workers[i]), NextClone(base, baseId, workers, i + 1);
    LoopGoesOn(s, base, baseId, workers, i, workerType);
    run := ContinueBy(policy, covered, run0, s, pid, DispatchLoop(base, baseId, workers, i), Calm(workerType));
    run := Create(policy, covered, run, s, pid, job, DispatchTo(workers[i], next));
  }

  lemma InsertedClone(s: State, base: Job, baseId: nat, worker: string)
    ensures var rows := Inserted(s, Clone(base, baseId, worker)).rows;
            s.counter + 1 in rows && rows[s.counter + 1].workerType == base.workerType
  {
  }

  lemma ClonesGoOn(k: Then, id: nat)
    requires k.NextClone?
    ensures forall job: Job :: OnOk(k, id, job) == DispatchLoop(k.base, k.baseId, k.workers, k.i)
  {
  }

  lemma CopyOne(policy: Policy, covered: bool, run0: seq<Label>, s: State, pid: nat, base: Job, baseId: nat, workers: seq<string>, i: nat,
                workerType: string) returns (run: seq<Label>, t: State)
    requires Reaches(policy, covered, run0, Put(s, pid, DispatchLoop(base, baseId, workers, i))) && 0 < i < |workers|
    requires s.counter + 1 !in s.rows && base.key == "" && R.Suits(workerType, base.workerType)
    ensures Extends(s, t, s.counter + 1) && Copied(t, base, baseId, workers[i], s.counter + 1)
    ensures Reaches(policy, covered, run, Put(t, pid, DispatchLoop(base, baseId, workers, i + 1)))
  {
    var u, next := Inserted(s, Clone(base, baseId, workers[i])), NextClone(base, baseId, workers, i + 1);
    run := CreatesCopy(policy, covered, run0, s, pid, base, baseId, workers, i, workerType);
    InsertedClone(s, base, baseId, workers[i]);
    ClonesGoOn(next, s.counter + 1);
    run, t := HandsOver(policy, covered, run, u, pid, s.counter + 1, workers[i], workerType, next);
    GivenIsCopied(s, t, base, baseId, workers[i]);
  }

  ghost predicate CopiesFrom(s: State, t: State, base: Job, baseId: nat, workers: seq<string>, i: nat) {
    i <= |workers| && t.procs == s.procs && s.log <= t.log && (forall id | id in s.rows :: id in t.rows && t.rows[id] == s.rows[id]) &&
    forall j | i <= j < |workers| :: IdAt(s, i, j) >= 0 && Copied(t, base, baseId, workers[j], IdAt(s, i, j))
  }

  lemma CopiesMore(s: State, u: State, t: State, base: Job, baseId: nat, workers: seq<string>, i: nat)
    requires 0 < i < |workers| && Extends(s, u, s.counter + 1) && Copied(u, base, baseId, workers[i], s.counter + 1)
    requires CopiesFrom(u, t, base, baseId, workers, i + 1)
    ensures CopiesFrom(s, t, base, baseId, workers, i)
  {
    forall j | i <= j < |workers| ensures IdAt(s, i, j) >= 0 && Copied(t, base, baseId, workers[j], IdAt(s, i, j)) {
      if j > i { assert IdAt(s, i, j) == IdAt(u, i + 1, j); }
    }
  }

  /** ... each of which gets a copy of the job under an id of its own. */
  lemma {:induction false} CopiesServed(policy: Policy, covered: bool, run0: seq<Label>, s: State, pid: nat, base: Job, baseId: nat,
                                        workers: seq<string>, i: nat, workerType: string) returns (run: seq<Label>, t: State)
    requires Reaches(policy, covered, run0, Put(s, pid, DispatchLoop(base, baseId, workers, i))) && 0 < i <= |workers|
    requires (forall id | id in s.rows :: id <= s.counter) && base.key == "" && R.Suits(workerType, base.workerType)
    ensures Reaches(policy, covered, run, Put(t, pid, Finished)) && CopiesFrom(s, t, base, baseId, workers, i)
    decreases |workers| - i
  {
    if i == |workers| {
      t := s;
      run := Continue(policy, covered, run0, s, pid, DispatchLoop(base, baseId, workers, i));
    } else {
      var u;
      run, u := CopyOne(policy, covered, run0, s, pid, base, baseId, workers, i, workerType);
      run, t := CopiesServed(policy, covered, run, u, pid, base, baseId, workers, i + 1, workerType);
      CopiesMore(s, u, t, base, baseId, workers, i);
    }
  }

  // ---- A creation under a key that is taken ----

  /** A lookup that succeeds finds a row with the key whenever there is one. */
  lemma LookupFinds(s: State, job: Job, k: Then, other: nat, c: Choice)
    requires job.key != "" && HasKey(s.rows, other, job.key) && !c.fail && Admissible(s.rows, CreateFind(job, k), c)
    ensures HasKey(s.rows, c.pick, job.key) && Advance(s, CreateFind(job, k), c) == (s, CreateFetch(job.key, c.pick, k))
  {
  }

  lemma FetchReturns(s: State, key: string, other: nat, k: Then)
    requires other in s.rows
    ensures Advance(s, CreateFetch(key, other, k), CALM) ==
            (Note(s, s.rows, Returned(key, other)), OnOk(k, other, Read(s.rows[other])))
  {
  }

  /** A creation under a key that is on a row returns that job, and adds nothing. */
  lemma KeyGivesBack(policy: Policy, covered: bool, run0: seq<Label>, s: State, pid: nat, job: Job, other: nat, k: Then)
    returns (run: seq<Label>)
    requires Reaches(policy, covered, run0, Put(s, pid, CreateFind(job, k))) && job.key != "" && HasKey(s.rows, other, job.key)
    ensures Reaches(policy, covered, run, Put(Note(s, s.rows, Returned(job.key, other)), pid, OnOk(k, other, Read(s.rows[other]))))
  {
    var c := CALM.(pick := other);
    LookupFinds(s, job, k, other, c);
    FetchReturns(s, job.key, other, k);
    run := ContinueBy(policy, covered, run0, s, pid, CreateFind(job, k), c);
    run := Continue(policy, covered, run, s, pid, CreateFetch(job.key, other, k));
  }

  lemma LosesAndFinds(s: State, job: Job, id: nat, other: nat, k: Then)
    requires job.key != "" && HasKey(s.rows, other, job.key)
    ensures var c := CALM.(pick := other);
            Advance(s, CreateInsert(job, id, k), c) == (s, CreateRefind(job.key, k)) &&
            Advance(s, CreateRefind(job.key, k), c) == (s, CreateFetch(job.key, other, k)) &&
            Advance(s, CreateFetch(job.key, other, k), c) ==
              (Note(s, s.rows, Returned(job.key, other)), OnOk(k, other, Read(s.rows[other])))
  {
    assert !Insertable(s.rows, id, job.key);
  }

  /** An insert whose key was taken meanwhile returns the job that took it. */
  lemma LoserFindsWinner(policy: Policy, covered: bool, run0: seq<Label>, s: State, pid: nat, job: Job, id: nat, other: nat, k: Then)
    returns (run: seq<Label>)
    requires Reaches(policy, covered, run0, Put(s, pid, CreateInsert(job, id, k))) && job.key != "" && HasKey(s.rows, other, job.key)
    ensures Reaches(policy, covered, run, Put(Note(s, s.rows, Returned(job.key, other)), pid, OnOk(k, other, Read(s.rows[other]))))
  {
    var c := CALM.(pick := other);
    LosesAndFinds(s, job, id, other, k);
    run := ContinueBy(policy, covered, run0, s, pid, CreateInsert(job, id, k), c);
    run := ContinueBy(policy, covered, run, s, pid, CreateRefind(job.key, k), c);
    run := ContinueBy(policy, covered, run, s, pid, CreateFetch(job.key, other, k), c);
  }
}
