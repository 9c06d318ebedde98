/** What the log of every run says about the rows: each row is as the last event
    about it left it, and a decision or a completion is accepted exactly when the
    last event calls for it. No seed of the id counter matters here. */
module ControlPlaneRows {
  import opened Basics
  import opened Jobs
  import opened ControlPlane
  import R = Routing

  predicate About(e: Event, id: nat) {
    (e.Created? || e.Assigned? || e.Decided? || e.Completed? || e.Deleted?) && e.id == id
  }

  predicate LastAbout(log: seq<Event>, id: nat, j: int) {
    0 <= j < |log| && About(log[j], id) && forall k | j < k < |log| :: !About(log[k], id)
  }

  /** A row as it is inserted: waiting or pending, and untouched by work. */
  predicate Untouched(job: Job) {
    (job.status == Pending || job.status == WaitingApproval) &&
    job.output == "" && job.startedAt.None? && job.finishedAt.None?
  }

  /** The row that is left by an event about it. */
  predicate Shows(e: Event, job: Job) {
    match e
    case Created(_, made) => job == made && Untouched(job)
    case Assigned(_, worker, at) => job.status == Running && job.worker == worker && job.startedAt == Some(at)
    case Decided(_, approve, who, comment, at) =>
      job.comment == comment &&
      if approve then job.status == Pending && job.approval == Approved && job.approvedBy == who && job.approvedAt == Some(at)
      else job.status == Cancelled && job.approval == Rejected && job.rejectedBy == who && job.rejectedAt == Some(at)
    case Completed(_, worker, output, success, at) =>
      job.status == (if success then Success else Failed) && job.worker == worker && job.output == output && job.finishedAt == Some(at)
    case _ => false
  }

  /** The row of `id` is as the last event about it left it; there is none if that
      was a deletion or there was no event. */
  ghost predicate RowShows(rows: Rows, log: seq<Event>, id: nat) {
    (id in rows ==> exists j :: LastAbout(log, id, j) && Shows(log[j], rows[id])) &&
    (id !in rows ==> forall j | LastAbout(log, id, j) :: log[j].Deleted?)
  }

  ghost predicate RowsShow(rows: Rows, log: seq<Event>) {
    forall id: nat :: RowShows(rows, log, id)
  }

  /** A completion comes right after an assignment of the job to that worker, and a
      decision right after the creation of a waiting job, as far as that job goes. */
  ghost predicate Warranted(log: seq<Event>, j: int)
    requires 0 <= j < |log|
  {
    (log[j].Completed? ==> exists a :: LastAbout(log[..j], log[j].id, a) && log[a].Assigned? && log[a].worker == log[j].worker) &&
    (log[j].Decided? ==> exists a :: LastAbout(log[..j], log[j].id, a) && log[a].Created? && log[a].job.status == WaitingApproval)
  }

  ghost predicate AllWarranted(log: seq<Event>) {
    forall j | 0 <= j < |log| :: Warranted(log, j)
  }

  ghost predicate DraftUntouched(p: Proc) {
    p.CreateFind? || p.CreateDraw? || p.CreateInsert? ==> Untouched(p.job)
  }

  ghost predicate Inv(s: State) {
    RowsShow(s.rows, s.log) && AllWarranted(s.log) && forall pid | pid in s.procs :: DraftUntouched(s.procs[pid])
  }

  // ---- Adding one event ----

  lemma LastGrows(log: seq<Event>, e: Event, id: nat, j: int)
    requires LastAbout(log, id, j) && !About(e, id)
    ensures LastAbout(log + [e], id, j)
  {
  }

  lemma LastShrinks(log: seq<Event>, e: Event, id: nat, j: int)
    requires LastAbout(log + [e], id, j) && !About(e, id)
    ensures LastAbout(log, id, j)
  {
    assert log[j] == (log + [e])[j];
    forall k | j < k < |log| ensures !About(log[k], id) { assert log[k] == (log + [e])[k]; }
  }

  lemma OtherRowShows(rows: Rows, after: Rows, log: seq<Event>, e: Event, id: nat)
    requires RowShows(rows, log, id) && !About(e, id)
    requires id in after <==> id in rows
    requires id in after ==> after[id] == rows[id]
    ensures RowShows(after, log + [e], id)
  {
    if id in rows {
      var j :| LastAbout(log, id, j) && Shows(log[j], rows[id]);
      LastGrows(log, e, id, j);
      assert (log + [e])[j] == log[j];
    } else {
      forall j | LastAbout(log + [e], id, j) ensures (log + [e])[j].Deleted? {
        LastShrinks(log, e, id, j);
      }
    }
  }

  lemma OwnRowShows(after: Rows, log: seq<Event>, e: Event, id: nat)
    requires About(e, id) && (if id in after then Shows(e, after[id]) else e.Deleted?)
    ensures RowShows(after, log + [e], id)
  {
    assert LastAbout(log + [e], id, |log|);
  }

  lemma StillWarranted(log: seq<Event>, e: Event, j: int)
    requires 0 <= j < |log| && Warranted(log, j)
    ensures Warranted(log + [e], j)
  {
    var l := log + [e];
    assert l[..j] == log[..j];
    if log[j].Completed? {
      var a :| LastAbout(log[..j], log[j].id, a) && log[a].Assigned? && log[a].worker == log[j].worker;
      assert l[a] == log[a];
    }
    if log[j].Decided? {
      var a :| LastAbout(log[..j], log[j].id, a) && log[a].Created? && log[a].job.status == WaitingApproval;
      assert l[a] == log[a];
    }
  }

  /** What the rows must say for a completion or a decision to be noted. */
  predicate Calls(rows: Rows, e: Event) {
    (e.Completed? ==> e.id in rows && rows[e.id].status == Running && rows[e.id].worker == e.worker) &&
    (e.Decided? ==> e.id in rows && rows[e.id].status == WaitingApproval)
  }

  lemma NewWarranted(rows: Rows, log: seq<Event>, e: Event)
    requires RowsShow(rows, log) && Calls(rows, e)
    ensures Warranted(log + [e], |log|)
  {
    var l := log + [e];
    assert l[..|log|] == log;
    if e.Completed? || e.Decided? {
      assert RowShows(rows, log, e.id);
      var a :| LastAbout(log, e.id, a) && Shows(log[a], rows[e.id]);
      assert l[a] == log[a];
    }
  }

  /** One event about the one row that changes. */
  ghost predicate Changes(rows: Rows, after: Rows, e: Event, id: nat) {
    About(e, id) && Calls(rows, e) && (if id in after then Shows(e, after[id]) else e.Deleted?) &&
    forall other | other != id :: (other in after <==> other in rows) && (other in after ==> after[other] == rows[other])
  }

  lemma NoteChange(rows: Rows, after: Rows, log: seq<Event>, e: Event, id: nat)
    requires RowsShow(rows, log) && AllWarranted(log) && Changes(rows, after, e, id)
    ensures RowsShow(after, log + [e]) && AllWarranted(log + [e])
  {
    forall other: nat ensures RowShows(after, log + [e], other) {
      if other == id { OwnRowShows(after, log, e, id); } else { OtherRowShows(rows, after, log, e, other); }
    }
    NewWarranted(rows, log, e);
    forall j | 0 <= j < |log + [e]| ensures Warranted(log + [e], j) {
      if j < |log| { StillWarranted(log, e, j); }
    }
  }

  lemma NoteAside(rows: Rows, log: seq<Event>, e: Event)
    requires RowsShow(rows, log) && AllWarranted(log) && (e.Returned? || e.Pushed?)
    ensures RowsShow(rows, log + [e]) && AllWarranted(log + [e])
  {
    forall id: nat ensures RowShows(rows, log + [e], id) { OtherRowShows(rows, rows, log, e, id); }
    forall j | 0 <= j < |log + [e]| ensures Warranted(log + [e], j) {
      if j < |log| { StillWarranted(log, e, j); }
    }
  }

  // ---- Steps ----

  ghost predicate StepOk(s: State, t: State, q: Proc) {
    RowsShow(t.rows, t.log) && AllWarranted(t.log) && t.procs == s.procs && DraftUntouched(q)
  }

  lemma {:induction false} ResumeUntouched(k: Then, id: nat, job: Job)
    ensures DraftUntouched(OnFail(k)) && DraftUntouched(OnOk(k, id, job))
  {
    if k.DispatchTo? { ResumeUntouched(k.rest, id, job); }
  }

  lemma InsertStepOk(s: State, p: Proc, c: Choice)
    requires RowsShow(s.rows, s.log) && AllWarranted(s.log) && DraftUntouched(p) && p.CreateInsert?
    ensures StepOk(s, CreateStep(s, p, c).0, CreateStep(s, p, c).1)
  {
    var (t, q) := CreateStep(s, p, c);
    if !c.fail && Insertable(s.rows, p.id, p.job.key) {
      var e := Created(p.id, t.rows[p.id]);
      assert Changes(s.rows, t.rows, e, p.id);
      NoteChange(s.rows, t.rows, s.log, e, p.id);
      NoteAside(t.rows, s.log + [e], Returned(p.job.key, p.id));
      ResumeUntouched(p.k, p.id, t.rows[p.id]);
    } else {
      ResumeUntouched(p.k, 0, p.job);
    }
  }

  lemma CreateStepOk(s: State, p: Proc, c: Choice)
    requires RowsShow(s.rows, s.log) && AllWarranted(s.log) && DraftUntouched(p)
    requires p.CreateFind? || p.CreateDraw? || p.CreateRefind? || p.CreateFetch?
    ensures StepOk(s, CreateStep(s, p, c).0, CreateStep(s, p, c).1)
  {
    if p.CreateFetch? && !c.fail && p.id in s.rows {
      NoteAside(s.rows, s.log, Returned(p.key, p.id));
      ResumeUntouched(p.k, p.id, Read(s.rows[p.id]));
    } else {
      ResumeUntouched(p.k, 0, ManualJob("", "", "", ""));
    }
  }

  lemma AssignStepOk(s: State, p: Proc, c: Choice)
    requires RowsShow(s.rows, s.log) && AllWarranted(s.log)
    requires p.AssignRead? || p.AssignCheck? || p.AssignWrite? || p.AssignReread? || p.Push?
    ensures StepOk(s, AssignStep(s, p, c).0, AssignStep(s, p, c).1)
  {
    var (t, q) := AssignStep(s, p, c);
    if p.AssignWrite? && t != s {
      assert Changes(s.rows, t.rows, Assigned(p.id, p.worker, c.now), p.id);
      NoteChange(s.rows, t.rows, s.log, Assigned(p.id, p.worker, c.now), p.id);
    } else if p.Push? && t != s {
      NoteAside(s.rows, s.log, Pushed(p.id, p.worker, p.job));
    }
    ResumeUntouched(p.k, p.id, if p.Push? then p.job else ManualJob("", "", "", ""));
  }

  lemma DecideStepOk(s: State, p: Proc, c: Choice)
    requires RowsShow(s.rows, s.log) && AllWarranted(s.log) && (p.ApproveWrite? || p.ApproveRead? || p.RejectWrite?)
    ensures StepOk(s, DecideStep(s, p, c).0, DecideStep(s, p, c).1)
  {
    var (t, q) := DecideStep(s, p, c);
    if !p.ApproveRead? && t != s {
      var e := Decided(p.id, p.ApproveWrite?, p.who, p.comment, c.now);
      assert Changes(s.rows, t.rows, e, p.id);
      NoteChange(s.rows, t.rows, s.log, e, p.id);
    }
  }

  lemma WorkStepOk(s: State, p: Proc, c: Choice)
    requires RowsShow(s.rows, s.log) && AllWarranted(s.log)
    requires p.DeleteRead? || p.DeleteWrite? || p.PickSelect? || p.PickWrite? || p.CompleteWrite?
    ensures StepOk(s, WorkStep(s, p, c).0, WorkStep(s, p, c).1)
  {
    var (t, q) := WorkStep(s, p, c);
    if !p.DeleteRead? && !p.PickSelect? && t != s {
      var e := if p.PickWrite? then Assigned(p.id, p.worker, c.now)
               else if p.CompleteWrite? then Completed(p.id, p.worker, p.output, p.success, c.now) else Deleted(p.id);
      assert Changes(s.rows, t.rows, e, p.id);
      NoteChange(s.rows, t.rows, s.log, e, p.id);
    }
  }

  lemma LoopStepOk(s: State, p: Proc, c: Choice)
    requires RowsShow(s.rows, s.log) && AllWarranted(s.log)
    requires p.OperationLoop? || p.DispatchRead? || p.DispatchLoop? || p.Finished?
    ensures StepOk(s, Advance(s, p, c).0, Advance(s, p, c).1)
  {
  }

  lemma AdvanceOk(s: State, p: Proc, c: Choice)
    requires RowsShow(s.rows, s.log) && AllWarranted(s.log) && DraftUntouched(p)
    ensures StepOk(s, Advance(s, p, c).0, Advance(s, p, c).1)
  {
    if p.CreateInsert? {
      InsertStepOk(s, p, c);
    } else if p.CreateFind? || p.CreateDraw? || p.CreateRefind? || p.CreateFetch? {
      CreateStepOk(s, p, c);
    } else if p.AssignRead? || p.AssignCheck? || p.AssignWrite? || p.AssignReread? || p.Push? {
      AssignStepOk(s, p, c);
    } else if p.ApproveWrite? || p.ApproveRead? || p.RejectWrite? {
      DecideStepOk(s, p, c);
    } else if p.OperationLoop? || p.DispatchRead? || p.DispatchLoop? || p.Finished? {
      LoopStepOk(s, p, c);
    } else {
      WorkStepOk(s, p, c);
    }
  }

  lemma LabelKeepsInv(policy: Policy, s: State, l: Label)
    requires Inv(s) && Enabled(policy, s, l)
    ensures Inv(Apply(s, l))
  {
    if l.Step? { AdvanceOk(s, s.procs[l.pid], l.c); }
  }

  lemma {:induction false} ReachableInv(policy: Policy, run: seq<Label>)
    requires Legal(policy, run)
    ensures Inv(Exec(run))
  {
    if run != [] {
      var n := |run| - 1;
      ReachableInv(policy, run[..n]);
      LabelKeepsInv(policy, Exec(run[..n]), run[n]);
    } else {
      assert forall id: nat :: RowShows(INITIAL.rows, INITIAL.log, id);
    }
  }

  // ---- Main results ----

  /** In every run each row shows the last event about it: the status, the columns
      that this event wrote, and that nothing came after it. Completions follow an
      assignment to that worker and decisions the creation of a waiting job. */
  lemma RowsFollowLog(policy: Policy, run: seq<Label>)
    requires Legal(policy, run)
    ensures RowsShow(Exec(run).rows, Exec(run).log) && AllWarranted(Exec(run).log)
  {
    ReachableInv(policy, run);
  }

  /** So a finished row has the status, the output and the time of the completion
      that closed the last assignment of the job, which was to that worker. */
  lemma FinishedRows(policy: Policy, run: seq<Label>, id: nat) returns (a: int, j: int)
    requires Legal(policy, run) && id in Exec(run).rows && Exec(run).rows[id].status in {Success, Failed}
    ensures var log, job := Exec(run).log, Exec(run).rows[id];
            0 <= a < j < |log| && log[j].Completed? && log[j].id == id && log[j].worker == job.worker &&
            log[j].output == job.output && Some(log[j].at) == job.finishedAt && (log[j].success <==> job.status == Success) &&
            log[a].Assigned? && log[a].id == id && log[a].worker == job.worker &&
            forall k | a < k < |log| && k != j :: !About(log[k], id)
  {
    ReachableInv(policy, run);
    var log := Exec(run).log;
    assert RowShows(Exec(run).rows, log, id);
    j :| LastAbout(log, id, j) && Shows(log[j], Exec(run).rows[id]);
    assert Warranted(log, j);
    a :| LastAbout(log[..j], id, a) && log[a].Assigned? && log[a].worker == log[j].worker;
    forall k | a < k < |log| && k != j ensures !About(log[k], id) {
      if k < j { assert log[..j][k] == log[k]; }
    }
  }

  ghost predicate AssignedLast(log: seq<Event>, id: nat, worker: string) {
    exists j :: LastAbout(log, id, j) && log[j].Assigned? && log[j].worker == worker
  }

  ghost predicate WaitsLast(log: seq<Event>, id: nat) {
    exists j :: LastAbout(log, id, j) && log[j].Created? && log[j].job.status == WaitingApproval
  }

  /** The job was created pending or approved, and nothing has happened to it since. */
  ghost predicate QueuesLast(log: seq<Event>, id: nat) {
    exists j :: LastAbout(log, id, j) &&
      ((log[j].Created? && log[j].job.status == Pending) || (log[j].Decided? && log[j].approve))
  }

  lemma StatusShown(rows: Rows, log: seq<Event>, id: nat, worker: string)
    requires RowShows(rows, log, id)
    ensures AssignedLast(log, id, worker) <==> id in rows && rows[id].status == Running && rows[id].worker == worker
    ensures WaitsLast(log, id) <==> id in rows && rows[id].status == WaitingApproval
    ensures QueuesLast(log, id) <==> id in rows && rows[id].status in {Pending, Queued}
  {
  }

  lemma StatusFromLog(policy: Policy, run: seq<Label>, id: nat, worker: string)
    requires Legal(policy, run)
    ensures var rows, log := Exec(run).rows, Exec(run).log;
            (AssignedLast(log, id, worker) <==> id in rows && rows[id].status == Running && rows[id].worker == worker) &&
            (WaitsLast(log, id) <==> id in rows && rows[id].status == WaitingApproval) &&
            (QueuesLast(log, id) <==> id in rows && rows[id].status in {Pending, Queued})
  {
    ReachableInv(policy, run);
    StatusShown(Exec(run).rows, Exec(run).log, id, worker);
  }

  /** A report of a result that reaches the database is accepted exactly when the
      last thing that happened to the job is its assignment to that worker, and
      then it is what the row shows. */
  lemma CompletionAccepted(policy: Policy, run: seq<Label>, pid: nat, c: Choice)
    requires Legal(policy, run) && pid in Exec(run).procs && Exec(run).procs[pid].CompleteWrite? && !c.fail
    ensures var s, t, p := Exec(run), Exec(run + [Step(pid, c)]), Exec(run).procs[pid];
            if AssignedLast(s.log, p.id, p.worker) then
              p.id in s.rows && OnlyRow(s.rows, t.rows, p.id) &&
              t.log == s.log + [Completed(p.id, p.worker, p.output, p.success, c.now)] &&
              IsFinished(s.rows[p.id], t.rows[p.id], p.output, p.success, c.now)
            else t.log == s.log && t.rows == s.rows
  {
    var p := Exec(run).procs[pid];
    assert (run + [Step(pid, c)])[..|run|] == run;
    StatusFromLog(policy, run, p.id, p.worker);
  }

  /** A decision that reaches the database is accepted exactly when nothing has
      happened to the job since it was created waiting, and then it shows. */
  lemma DecisionAccepted(policy: Policy, run: seq<Label>, pid: nat, c: Choice)
    requires Legal(policy, run) && pid in Exec(run).procs && !c.fail
    requires Exec(run).procs[pid].ApproveWrite? || Exec(run).procs[pid].RejectWrite?
    ensures var s, t, p := Exec(run), Exec(run + [Step(pid, c)]), Exec(run).procs[pid];
            if WaitsLast(s.log, p.id) then
              p.id in s.rows && OnlyRow(s.rows, t.rows, p.id) &&
              t.log == s.log + [Decided(p.id, p.ApproveWrite?, p.who, p.comment, c.now)] &&
              if p.ApproveWrite? then IsApproved(s.rows[p.id], t.rows[p.id], p.who, p.comment, c.now)
              else IsRejected(s.rows[p.id], t.rows[p.id], p.who, p.comment, c.now)
            else t.log == s.log && t.rows == s.rows
  {
    var p := Exec(run).procs[pid];
    assert (run + [Step(pid, c)])[..|run|] == run;
    StatusFromLog(policy, run, p.id, "");
  }

  lemma WriteResult(s: State, p: Proc, c: Choice)
    requires (p.AssignWrite? || p.PickWrite?) && !c.fail
    ensures var t := Advance(s, p, c).0;
            if p.id in s.rows then
              OnlyRow(s.rows, t.rows, p.id) && t.log == s.log + [Assigned(p.id, p.worker, c.now)] &&
              IsStarted(s.rows[p.id], t.rows[p.id], p.worker, c.now)
            else t.log == s.log && t.rows == s.rows
  {
  }

  /** A picked or dispatched job that is still there starts for that worker. */
  lemma AssignmentShows(policy: Policy, run: seq<Label>, pid: nat, c: Choice)
    requires Legal(policy, run) && pid in Exec(run).procs && !c.fail
    requires Exec(run).procs[pid].AssignWrite? || Exec(run).procs[pid].PickWrite?
    ensures var s, t, p := Exec(run), Exec(run + [Step(pid, c)]), Exec(run).procs[pid];
            if p.id in s.rows then
              OnlyRow(s.rows, t.rows, p.id) && t.log == s.log + [Assigned(p.id, p.worker, c.now)] &&
              IsStarted(s.rows[p.id], t.rows[p.id], p.worker, c.now)
            else t.log == s.log && t.rows == s.rows
  {
    assert (run + [Step(pid, c)])[..|run|] == run;
    WriteResult(Exec(run), Exec(run).procs[pid], c);
  }

  /** A deletion removes the row that is there, and nothing else. */
  lemma DeletionShows(policy: Policy, run: seq<Label>, pid: nat, c: Choice)
    requires Legal(policy, run) && pid in Exec(run).procs && !c.fail && Exec(run).procs[pid].DeleteWrite?
    ensures var s, t, p := Exec(run), Exec(run + [Step(pid, c)]), Exec(run).procs[pid];
            t.log == (if p.id in s.rows then s.log + [Deleted(p.id)] else s.log) &&
            forall id :: (id in t.rows <==> id in s.rows && id != p.id) && (id in t.rows ==> t.rows[id] == s.rows[id])
  {
    assert (run + [Step(pid, c)])[..|run|] == run;
  }

  /** Deletion goes on exactly for a job that nobody was given yet, a dispatch exactly
      for one that is also not waiting, and the queue offers exactly such jobs. */
  lemma RequestsAdmitted(policy: Policy, run: seq<Label>, pid: nat, c: Choice)
    requires Legal(policy, run) && pid in Exec(run).procs && !c.fail
    ensures var s, p, q := Exec(run), Exec(run).procs[pid], Advance(Exec(run), Exec(run).procs[pid], c).1;
            (p.DeleteRead? ==> if WaitsLast(s.log, p.id) || QueuesLast(s.log, p.id) then q == DeleteWrite(p.id) else q == Finished) &&
            (p.DispatchRead? ==> if QueuesLast(s.log, p.id) then q.DispatchLoop? && q.i == 0 && q.baseId == p.id && q.workers == p.workers
                                 else q == Finished) &&
            (p.PickSelect? ==> if QueuesLast(s.log, c.pick) && c.pick in s.rows &&
                                  (R.Spells(p.workerType, "shell") || s.rows[c.pick].workerType == p.workerType)
                               then q == PickWrite(c.pick, p.worker) else q == Finished)
  {
    var p := Exec(run).procs[pid];
    if p.DeleteRead? || p.DispatchRead? { StatusFromLog(policy, run, p.id, ""); }
    if p.PickSelect? {
      StatusFromLog(policy, run, c.pick, "");
      R.SpellsIsNormal(p.workerType, "shell");
    }
  }
}
