/** What the log of every run of the control plane shows, for any policy and
    whatever restarts seed the id counter with: one decision per job, and an own
    assignment behind every accepted completion. */
module ControlPlaneHistory {
  import opened Jobs
  import opened ControlPlane

  /** What an event marks, without its details. */
  datatype Mark = Creation(id: nat) | Assignment(id: nat, worker: string) | Completion(id: nat, worker: string) | Deletion(id: nat)

  predicate Marks(e: Event, m: Mark) {
    match m
    case Creation(id) => e.Created? && e.id == id
    case Assignment(id, worker) => e.Assigned? && e.id == id && e.worker == worker
    case Completion(id, worker) => e.Completed? && e.id == id && e.worker == worker
    case Deletion(id) => e.Deleted? && e.id == id
  }

  ghost predicate Between(log: seq<Event>, i: int, j: int, m: Mark) {
    exists k :: 0 <= i < k < j <= |log| && Marks(log[k], m)
  }

  /** Two decisions on one id are about two different jobs: the id was created
      again in between. */
  ghost predicate DecidedOnce(log: seq<Event>) {
    forall i, j | 0 <= i < j < |log| && log[i].Decided? && log[j].Decided? && log[i].id == log[j].id ::
      Between(log, i, j, Creation(log[j].id))
  }

  /** The completion at `j` closes the assignment at `a`. */
  ghost predicate Closes(log: seq<Event>, a: int, j: int) {
    0 <= a < j < |log| && log[j].Completed? && Marks(log[a], Assignment(log[j].id, log[j].worker)) &&
    !Between(log, a, j, Completion(log[j].id, log[j].worker))
  }

  ghost predicate CompletionsMatched(log: seq<Event>) {
    forall j | 0 <= j < |log| && log[j].Completed? :: exists a :: Closes(log, a, j)
  }

  ghost predicate LogOk(log: seq<Event>) {
    DecidedOnce(log) && CompletionsMatched(log)
  }

  // ---- What the rows say about the log ----

  /** Some assignment of the job to the worker is not completed yet. */
  ghost predicate Open(log: seq<Event>, id: nat, worker: string) {
    exists a :: 0 <= a < |log| && Marks(log[a], Assignment(id, worker)) && !Between(log, a, |log|, Completion(id, worker))
  }

  ghost predicate Undecided(log: seq<Event>, id: nat) {
    forall i | 0 <= i < |log| && log[i].Decided? && log[i].id == id :: Between(log, i, |log|, Creation(id))
  }

  ghost predicate RowsMatchLog(rows: Rows, log: seq<Event>) {
    (forall id | id in rows && rows[id].status == Running :: Open(log, id, rows[id].worker)) &&
    (forall id | id in rows && rows[id].status == WaitingApproval :: Undecided(log, id))
  }

  /** No handler is about to insert a running job. */
  predicate DraftIdle(p: Proc) {
    p.CreateFind? || p.CreateDraw? || p.CreateInsert? ==> p.job.status != Running
  }

  ghost predicate Inv(s: State) {
    LogOk(s.log) && RowsMatchLog(s.rows, s.log) && forall pid | pid in s.procs :: DraftIdle(s.procs[pid])
  }

  // ---- Adding one event ----

  lemma BetweenGrows(log: seq<Event>, i: int, j: int, m: Mark, f: Event)
    requires Between(log, i, j, m)
    ensures Between(log + [f], i, j, m) && Between(log + [f], i, |log| + 1, m)
  {
    var k :| 0 <= i < k < j <= |log| && Marks(log[k], m);
    assert (log + [f])[k] == log[k];
  }

  lemma BetweenShrinks(log: seq<Event>, i: int, j: int, m: Mark, f: Event)
    requires Between(log + [f], i, j, m) && (j <= |log| || !Marks(f, m))
    ensures Between(log, i, if j <= |log| then j else |log|, m)
  {
    var k :| 0 <= i < k < j <= |log| + 1 && Marks((log + [f])[k], m);
    assert k < |log| && log[k] == (log + [f])[k];
  }

  ghost predicate MayAppend(log: seq<Event>, e: Event) {
    (e.Decided? ==> Undecided(log, e.id)) &&
    (e.Completed? ==> Open(log, e.id, e.worker))
  }

  lemma AppendDecided(log: seq<Event>, e: Event)
    requires DecidedOnce(log) && MayAppend(log, e)
    ensures DecidedOnce(log + [e])
  {
    var l := log + [e];
    forall i, j | 0 <= i < j < |l| && l[i].Decided? && l[j].Decided? && l[i].id == l[j].id
      ensures Between(l, i, j, Creation(l[j].id))
    {
      if j < |log| { assert Between(log, i, j, Creation(log[j].id)); }
      BetweenGrows(log, i, j, Creation(l[j].id), e);
    }
  }

  lemma AppendCompleted(log: seq<Event>, e: Event)
    requires CompletionsMatched(log) && MayAppend(log, e)
    ensures CompletionsMatched(log + [e])
  {
    var l := log + [e];
    forall j | 0 <= j < |l| && l[j].Completed?
      ensures exists a :: Closes(l, a, j)
    {
      var a: int;
      var m := Completion(l[j].id, l[j].worker);
      if j < |log| {
        a :| Closes(log, a, j);
      } else {
        a :| 0 <= a < |log| && Marks(log[a], Assignment(e.id, e.worker)) && !Between(log, a, |log|, m);
      }
      if Between(l, a, j, m) { BetweenShrinks(log, a, j, m, e); }
      assert Closes(l, a, j);
    }
  }

  lemma Append(log: seq<Event>, e: Event)
    requires LogOk(log) && MayAppend(log, e)
    ensures LogOk(log + [e])
  {
    AppendDecided(log, e);
    AppendCompleted(log, e);
  }

  lemma OpenGrows(log: seq<Event>, id: nat, worker: string, e: Event)
    requires Marks(e, Assignment(id, worker)) || (Open(log, id, worker) && !Marks(e, Completion(id, worker)))
    ensures Open(log + [e], id, worker)
  {
    var l, m := log + [e], Completion(id, worker);
    if Marks(e, Assignment(id, worker)) {
      assert l[|log|] == e;
    } else {
      var a :| 0 <= a < |log| && Marks(log[a], Assignment(id, worker)) && !Between(log, a, |log|, Completion(id, worker));
      if Between(l, a, |l|, m) { BetweenShrinks(log, a, |l|, m, e); }
      assert l[a] == log[a];
    }
  }

  lemma UndecidedGrows(log: seq<Event>, id: nat, e: Event)
    requires Marks(e, Creation(id)) || (Undecided(log, id) && !(e.Decided? && e.id == id))
    ensures Undecided(log + [e], id)
  {
    var l := log + [e];
    forall i | 0 <= i < |l| && l[i].Decided? && l[i].id == id
      ensures Between(l, i, |l|, Creation(id))
    {
      if Marks(e, Creation(id)) {
        assert l[|log|] == e;
      } else {
        BetweenGrows(log, i, |log|, Creation(id), e);
      }
    }
  }

  /** What the event must be for a row that is new or changed. */
  ghost predicate RowFits(rows: Rows, after: Rows, log: seq<Event>, e: Event, id: nat)
    requires id in after
  {
    var job := after[id];
    (job.status == Running ==>
       Marks(e, Assignment(id, job.worker)) ||
       (id in rows && rows[id].status == Running && rows[id].worker == job.worker && !Marks(e, Completion(id, job.worker)))) &&
    (job.status == WaitingApproval ==>
       Marks(e, Creation(id)) || (id in rows && rows[id].status == WaitingApproval && !(e.Decided? && e.id == id)))
  }

  lemma RowsFollow(rows: Rows, after: Rows, log: seq<Event>, e: Event)
    requires RowsMatchLog(rows, log)
    requires forall id | id in after :: RowFits(rows, after, log, e, id)
    ensures RowsMatchLog(after, log + [e])
  {
    forall id | id in after && after[id].status == Running
      ensures Open(log + [e], id, after[id].worker)
    {
      assert RowFits(rows, after, log, e, id);
      OpenGrows(log, id, after[id].worker, e);
    }
    forall id | id in after && after[id].status == WaitingApproval
      ensures Undecided(log + [e], id)
    {
      assert RowFits(rows, after, log, e, id);
      UndecidedGrows(log, id, e);
    }
  }

  // ---- Steps ----

  lemma NoteKeeps(rows: Rows, after: Rows, log: seq<Event>, e: Event)
    requires LogOk(log) && RowsMatchLog(rows, log) && MayAppend(log, e)
    requires forall id | id in after :: RowFits(rows, after, log, e, id)
    ensures LogOk(log + [e]) && RowsMatchLog(after, log + [e])
  {
    Append(log, e);
    RowsFollow(rows, after, log, e);
  }

  ghost predicate StepOk(s: State, t: State, q: Proc) {
    LogOk(t.log) && RowsMatchLog(t.rows, t.log) && t.procs == s.procs && DraftIdle(q)
  }

  lemma {:induction false} ResumeIdle(k: Then, id: nat, job: Job)
    ensures DraftIdle(OnFail(k)) && DraftIdle(OnOk(k, id, job))
  {
    if k.DispatchTo? { ResumeIdle(k.rest, id, job); }
  }

  lemma InsertStepOk(s: State, p: Proc, c: Choice)
    requires LogOk(s.log) && RowsMatchLog(s.rows, s.log) && DraftIdle(p) && p.CreateInsert?
    ensures StepOk(s, CreateStep(s, p, c).0, CreateStep(s, p, c).1)
  {
    var (t, q) := CreateStep(s, p, c);
    if !c.fail && Insertable(s.rows, p.id, p.job.key) {
      NoteKeeps(s.rows, t.rows, s.log, Created(p.id, t.rows[p.id]));
      NoteKeeps(t.rows, t.rows, s.log + [Created(p.id, t.rows[p.id])], Returned(p.job.key, p.id));
      ResumeIdle(p.k, p.id, t.rows[p.id]);
    } else {
      ResumeIdle(p.k, 0, p.job);
    }
  }

  lemma CreateStepOk(s: State, p: Proc, c: Choice)
    requires LogOk(s.log) && RowsMatchLog(s.rows, s.log) && DraftIdle(p)
    requires p.CreateFind? || p.CreateDraw? || p.CreateRefind? || p.CreateFetch?
    ensures StepOk(s, CreateStep(s, p, c).0, CreateStep(s, p, c).1)
  {
    if p.CreateFetch? && !c.fail && p.id in s.rows {
      NoteKeeps(s.rows, s.rows, s.log, Returned(p.key, p.id));
      ResumeIdle(p.k, p.id, Read(s.rows[p.id]));
    } else {
      ResumeIdle(p.k, 0, ManualJob("", "", "", ""));
    }
  }

  lemma AssignStepOk(s: State, p: Proc, c: Choice)
    requires LogOk(s.log) && RowsMatchLog(s.rows, s.log)
    requires p.AssignRead? || p.AssignCheck? || p.AssignWrite? || p.AssignReread? || p.Push?
    ensures StepOk(s, AssignStep(s, p, c).0, AssignStep(s, p, c).1)
  {
    var (t, q) := AssignStep(s, p, c);
    if p.AssignWrite? && t != s {
      NoteKeeps(s.rows, t.rows, s.log, Assigned(p.id, p.worker, c.now));
    } else if p.Push? && t != s {
      NoteKeeps(s.rows, t.rows, s.log, Pushed(p.id, p.worker, p.job));
    }
    ResumeIdle(p.k, p.id, if p.Push? then p.job else ManualJob("", "", "", ""));
  }

  lemma DecideStepOk(s: State, p: Proc, c: Choice)
    requires LogOk(s.log) && RowsMatchLog(s.rows, s.log) && (p.ApproveWrite? || p.ApproveRead? || p.RejectWrite?)
    ensures StepOk(s, DecideStep(s, p, c).0, DecideStep(s, p, c).1)
  {
    var (t, q) := DecideStep(s, p, c);
    if !p.ApproveRead? && t != s {
      NoteKeeps(s.rows, t.rows, s.log, Decided(p.id, p.ApproveWrite?, p.who, p.comment, c.now));
    }
  }

  lemma WorkStepOk(s: State, p: Proc, c: Choice)
    requires LogOk(s.log) && RowsMatchLog(s.rows, s.log)
    requires p.DeleteRead? || p.DeleteWrite? || p.PickSelect? || p.PickWrite? || p.CompleteWrite?
    ensures StepOk(s, WorkStep(s, p, c).0, WorkStep(s, p, c).1)
  {
    var (t, q) := WorkStep(s, p, c);
    if p.PickWrite? && t != s {
      NoteKeeps(s.rows, t.rows, s.log, Assigned(p.id, p.worker, c.now));
    } else if p.CompleteWrite? && t != s {
      NoteKeeps(s.rows, t.rows, s.log, Completed(p.id, p.worker, p.output, p.success, c.now));
    } else if p.DeleteWrite? && t != s {
      NoteKeeps(s.rows, t.rows, s.log, Deleted(p.id));
    }
  }

  lemma LoopStepOk(s: State, p: Proc, c: Choice)
    requires LogOk(s.log) && RowsMatchLog(s.rows, s.log)
    requires p.OperationLoop? || p.DispatchRead? || p.DispatchLoop? || p.Finished?
    ensures StepOk(s, Advance(s, p, c).0, Advance(s, p, c).1)
  {
  }

  lemma AdvanceOk(s: State, p: Proc, c: Choice)
    requires LogOk(s.log) && RowsMatchLog(s.rows, s.log) && DraftIdle(p)
    ensures StepOk(s, Advance(s, p, c).0, Advance(s, p, c).1)
  {
    if p.CreateInsert? {
      InsertStepOk(s, p, c);
    } else if p.CreateFind? || p.CreateDraw? || p.CreateRefind? || p.CreateFetch? {
      CreateStepOk(s, p, c);
    } else if p.AssignRead? || p.AssignCheck? || p.AssignWrite? || p.AssignReread? || p.Push? {
      AssignStepOk(s, p, c);
    } else if p.ApproveWrite? || p.ApproveRead? || p.RejectWrite? {
      DecideStepOk(s, p, c);
    } else if p.OperationLoop? || p.DispatchRead? || p.DispatchLoop? || p.Finished? {
      LoopStepOk(s, p, c);
    } else {
      WorkStepOk(s, p, c);
    }
  }

  lemma LabelKeepsInv(policy: Policy, s: State, l: Label)
    requires Inv(s) && Enabled(policy, s, l)
    ensures Inv(Apply(s, l))
  {
    if l.Step? { AdvanceOk(s, s.procs[l.pid], l.c); }
  }

  lemma {:induction false} ReachableInv(policy: Policy, run: seq<Label>)
    requires Legal(policy, run)
    ensures Inv(Exec(run))
  {
    if run != [] {
      var n := |run| - 1;
      ReachableInv(policy, run[..n]);
      LabelKeepsInv(policy, Exec(run[..n]), run[n]);
    }
  }

  // ---- Main results ----

  /** Every job gets at most one decision, whoever decides concurrently: a second
      decision under the same id is about a job created in between. */
  lemma JobDecidedAtMostOnce(policy: Policy, run: seq<Label>)
    requires Legal(policy, run)
    ensures DecidedOnce(Exec(run).log)
  {
    ReachableInv(policy, run);
  }

  /** Each accepted completion closes an earlier assignment of that job to that
      worker, no assignment is closed twice, and a completion with no open
      assignment is refused. */
  lemma CompletionsMapToAssignments(policy: Policy, run: seq<Label>)
    requires Legal(policy, run)
    ensures CompletionsMatched(Exec(run).log)
    ensures forall a, i, j | Closes(Exec(run).log, a, i) && Closes(Exec(run).log, a, j) :: i == j
    ensures forall id, worker | !Open(Exec(run).log, id, worker) :: !Completable(Exec(run).rows, id, worker)
  {
    ReachableInv(policy, run);
    var log := Exec(run).log;
    forall a, i, j | Closes(log, a, i) && Closes(log, a, j)
      ensures i >= j
    {
    }
  }

  function Count(log: seq<Event>, m: Mark): nat {
    if log == [] then 0 else Count(log[..|log| - 1], m) + if Marks(log[|log| - 1], m) then 1 else 0
  }

  /** So at any moment a worker has completed a job no more often than it was
      assigned to it. */
  lemma {:induction false} CompletionsNeverExceedAssignments(policy: Policy, run: seq<Label>, id: nat, worker: string)
    requires Legal(policy, run)
    ensures Count(Exec(run).log, Completion(id, worker)) <= Count(Exec(run).log, Assignment(id, worker))
  {
    ReachableInv(policy, run);
    MatchedCounts(Exec(run).log, id, worker);
  }

  lemma {:induction false} MatchedCounts(log: seq<Event>, id: nat, worker: string)
    requires CompletionsMatched(log)
    ensures Count(log, Completion(id, worker)) + (if Open(log, id, worker) then 1 else 0) <= Count(log, Assignment(id, worker))
  {
    if log != [] {
      var n, m := |log| - 1, Completion(id, worker);
      var l, e := log[..n], log[n];
      assert log == l + [e];
      forall j | 0 <= j < n && l[j].Completed?
        ensures exists a :: Closes(l, a, j)
      {
        var a :| Closes(log, a, j);
        if Between(l, a, j, Completion(l[j].id, l[j].worker)) { BetweenGrows(l, a, j, Completion(l[j].id, l[j].worker), e); }
        assert Closes(l, a, j);
      }
      MatchedCounts(l, id, worker);
      if Marks(e, m) {
        var a :| Closes(log, a, n);
        if Between(l, a, n, m) { BetweenGrows(l, a, n, m, e); }
        assert Open(l, id, worker);
      } else if !Marks(e, Assignment(id, worker)) && Open(log, id, worker) {
        var b :| 0 <= b < |log| && Marks(log[b], Assignment(id, worker)) && !Between(log, b, |log|, m);
        if Between(l, b, n, m) { BetweenGrows(l, b, n, m, e); }
        assert l[b] == log[b];
      }
    }
  }
}
