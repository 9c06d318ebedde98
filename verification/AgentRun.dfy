/** The agent loop and the durable run that observes it. The loop's `messages` and
    the observer's `transcript` start as one slice and may share a backing array;
    the methods are proved to produce exactly the legal logs of AgentProtocol. */
module AgentRun {
  import opened Basics
  import opened Sanitize
  import opened AgentProtocol
  import opened Slices

  datatype Status = Queued | Running | WaitingApproval | Completed | RunFailed | TimedOut | Cancelled

  datatype Run = Run(status: Status, transcript: seq<Message>, nextStep: int)

  // ---- Foreign calls: any answer at all ----

  method Complete(request: Slice<Message>) returns (answer: Option<Message>) {
    answer := *;
  }

  method Execute(call: Call) returns (output: Value, error: Option<string>) {
    output, error := *, *;
  }

  // ---- Targets and payloads ----

  method ValidateTargets(w: World, call: Call, discovered: set<string>) returns (ok: bool)
    ensures ok <==> w.parse(call.arguments).Some? &&
                    forall id | id in TargetIds(w.parse(call.arguments).value) :: id in discovered
  {
    var input := w.parse(call.arguments);
    if input.None? { return false; }
    var ids := TargetIds(input.value);
    for i := 0 to |ids|
      invariant forall k | 0 <= k < i :: ids[k] in discovered
    {
      if ids[i] !in discovered { return false; }
    }
    ok := true;
  }

  method RecordDiscovered(payload: Payload, discovered: set<string>) returns (found: set<string>)
    ensures forall id :: id in found <==> id in discovered || Lists(payload, id)
  {
    found := discovered;
    var workers := ResultEntries(payload, "workers");
    for i := 0 to |workers|
      invariant forall id :: id in found <==> id in discovered || exists k | 0 <= k < i :: NamesWorker(workers[k], id)
    {
      var entry := workers[i];
      if entry.Obj? && "id" in entry.fields && entry.fields["id"].Str? && entry.fields["id"].s != "" {
        found := found + {entry.fields["id"].s};
      }
    }
  }

  method PayloadNeedsApproval(payload: Payload) returns (waiting: bool)
    ensures waiting == NeedsApproval(payload)
  {
    var jobs := ResultEntries(payload, "jobs");
    for i := 0 to |jobs|
      invariant forall k | 0 <= k < i :: !IsWaiting(jobs[k])
    {
      if IsWaiting(jobs[i]) { return true; }
    }
    waiting := false;
  }

  // ---- The observer ----

  class Recorder {
    const w: World
    var transcript: Slice<Message>
    var run: Run                        // the handler's copy
    var row: Run                        // the stored row
    ghost const initial: seq<Message>
    ghost const start: nat
    ghost var log: seq<Event>

    ghost function Now(): Session
      reads this
    {
      Replay(w, Begin(initial, start), log)
    }

    ghost predicate Valid()
      reads this, transcript.arr
    {
      transcript.Fits() && LegalLog(w, Begin(initial, start), log) &&
      transcript.View() == Transcript(Now()) && row.transcript == Now().durable
    }

    constructor (w: World, transcript: Slice<Message>, run: Run, row: Run, ghost start: nat)
      requires transcript.Fits() && row.transcript == Stored(transcript.View())
      ensures this.w == w && this.transcript == transcript && this.run == run && this.row == row
      ensures this.start == start && initial == transcript.View() && log == [] && Valid()
    {
      this.w, this.transcript, this.run, this.row := w, transcript, run, row;
      this.initial, this.start, this.log := transcript.View(), start, [];
      new;
      assert Transcript(Begin(initial, start)) == initial;
    }

    ghost method Note(e: Event)
      requires LegalLog(w, Begin(initial, start), log) && Legal(w, Now(), e)
      modifies this`log
      ensures log == old(log) + [e] && LegalLog(w, Begin(initial, start), log)
      ensures Now() == After(w, old(Now()), e)
    {
      ReplayOne(w, Begin(initial, start), log, e);
      log := log + [e];
    }

    /** A call of the repository. A failure is on record. */
    method TryStore() returns (ok: bool)
      requires Valid() && Legal(w, Now(), StoreFailed)
      modifies this`log
      ensures Valid()
      ensures if ok then log == old(log) else log == old(log) + [StoreFailed] && Now() == After(w, old(Now()), StoreFailed)
    {
      ok := *;
      if !ok { Note(StoreFailed); }
    }

    /** Events that leave the transcript and the stored row alone. */
    ghost method Pass(e: Event)
      requires Valid() && Legal(w, Now(), e) && (e.Asked? || e.ModelFailed? || e.Executed? || e.Ended?)
      modifies this`log
      ensures Valid() && log == old(log) + [e] && Now() == After(w, old(Now()), e)
    {
      Note(e);
    }

    /** The session is over, and its last event says how. */
    ghost predicate EndedWith(outcome: Outcome)
      reads this
    {
      Now().pc == Over(outcome) && log != [] && log[|log| - 1] == Ended(outcome)
    }

    ghost method End(outcome: Outcome)
      requires Valid() && Legal(w, Now(), Ended(outcome))
      modifies this`log
      ensures Valid() && Now() == old(Now()).(pc := Over(outcome), clock := Now().clock) && EndedWith(outcome)
    {
      Pass(Ended(outcome));
    }

    method Persist() returns (ok: bool)
      requires Valid() && (Now().pc == Drafted || Now().pc.Reported? || Now().pc.Over?)
      modifies this`run, this`row, this`log
      ensures Valid() && run == old(run).(transcript := run.transcript)
      ensures |log| == |old(log)| + 1 && old(log) <= log
      ensures if ok then row == run && Now() == After(w, old(Now()), Saved(Transcript(old(Now()))))
              else row == old(row) && log == old(log) + [StoreFailed] && Now() == After(w, old(Now()), StoreFailed)
    {
      var encoded := transcript.arr[..transcript.len];
      run := run.(transcript := Stored(encoded));
      ok := TryStore();
      if ok {
        row := run;
        Note(Saved(Transcript(Now())));
      }
    }

    /** One or two writes, and the transcript if they succeed. */
    method Commit(two: bool) returns (ok: bool)
      requires Valid() && (Now().pc == Drafted || Now().pc.Reported?)
      modifies this`run, this`row, this`log
      ensures Valid() && run == old(run).(transcript := run.transcript) && (row == old(row) || row == run)
      ensures Now() == After(w, old(Now()), if ok then Saved(Transcript(old(Now()))) else StoreFailed)
    {
      ok := TryStore();
      if ok && two { ok := TryStore(); }
      if ok { ok := Persist(); }
    }

    method OnAssistant(m: Message) returns (ok: bool)
      requires Valid() && Now().pc == Awaiting
      modifies this`transcript, this`run, this`row, this`log, transcript.arr
      ensures Valid() && Appended(old(transcript), old(transcript.arr[..]), Clean(w, m))
      ensures run == old(run).(transcript := run.transcript)
      ensures var drafted := After(w, old(Now()), Answered(m));
              Now() == if ok then After(w, drafted, Saved(Transcript(drafted))) else After(w, drafted, StoreFailed)
      ensures row == old(row) || row == run
    {
      transcript := Append(transcript, Clean(w, m));
      Note(Answered(m));
      assert Transcript(Now()) == Transcript(old(Now())) + [Clean(w, m)];
      ok := Commit(false);
    }

    method OnToolCall(call: Call) returns (ok: bool)
      requires Valid() && Now().pc == AtCall && Now().next < |Now().batch.calls| && call == Now().batch.calls[Now().next]
      requires Authorized(w, call, Now().discovered)
      modifies this`log
      ensures Valid() && Now() == After(w, old(Now()), if ok then RowCreated(call.id) else StoreFailed)
    {
      ok := TryStore();
      if ok { Note(RowCreated(call.id)); }
    }

    method OnToolResult(call: Call, payload: Payload) returns (ok: bool)
      requires Valid() && Now().pc == Ran(payload)
      requires Now().next < |Now().batch.calls| && call == Now().batch.calls[Now().next]
      modifies this`transcript, this`run, this`row, this`log, transcript.arr
      ensures Valid() && Appended(old(transcript), old(transcript.arr[..]), ToolReply(w, call, payload))
      ensures run == old(run).(transcript := run.transcript)
      ensures var reported := After(w, old(Now()), Event.Replied(ToolReply(w, call, payload)));
              Now() == if ok then After(w, reported, Saved(Transcript(reported))) else After(w, reported, StoreFailed)
      ensures row == old(row) || row == run
    {
      transcript := Append(transcript, ToolReply(w, call, payload));
      Note(Event.Replied(ToolReply(w, call, payload)));
      assert Transcript(Now()) == Transcript(old(Now())) + [ToolReply(w, call, payload)];
      ok := Commit(true);
    }

    /** `transcript` is `before` with one more element, in place if there was room. */
    twostate predicate Appended(before: Slice<Message>, contents: seq<Message>, m: Message)
      reads this, before.arr, transcript.arr
    {
      before.Fits() && |contents| == before.arr.Length && transcript.Fits() && transcript.len == before.len + 1 &&
      transcript.View() == contents[..before.len] + [m] &&
      if before.len < before.arr.Length then transcript.arr == before.arr && before.arr[..] == contents[before.len := m]
      else fresh(transcript.arr) && before.arr[..] == contents
    }
  }

  // ---- The loop ----

  /** The loop's messages carry the transcript, element by element. */
  ghost predicate Aligned(rec: Recorder, messages: Slice<Message>)
    reads rec, rec.transcript.arr, messages.arr
  {
    messages.Fits() && rec.transcript.Fits() && messages.len == rec.transcript.len &&
    CarriesAll(rec.w, messages.View(), rec.transcript.View())
  }

  /** The handler's copy changed in its transcript only, and the stored row is the
      old one or was saved from that copy. */
  twostate predicate RunKept(rec: Recorder)
    reads rec
  {
    rec.run == old(rec.run).(transcript := rec.run.transcript) &&
    (rec.row == old(rec.row) || (rec.row.nextStep == rec.run.nextStep && rec.row.status == rec.run.status))
  }

  ghost predicate SamePlace(s: Session, t: Session) {
    t.batch == s.batch && t.next == s.next && t.step == s.step && t.steps == s.steps
  }

  ghost predicate CallIsNext(s: Session, call: Call) {
    s.next < |s.batch.calls| && call == s.batch.calls[s.next]
  }

  /** The loop appends the answer as it came and then the observer appends its
      sanitized form: to the same cell if the slices still share their array. */
  method ProduceAssistant(rec: Recorder, messages0: Slice<Message>, m: Message)
    returns (messages: Slice<Message>, ok: bool)
    requires rec.Valid() && rec.Now().pc == Awaiting && Aligned(rec, messages0)
    modifies rec`transcript, rec`run, rec`row, rec`log, rec.transcript.arr, messages0.arr
    ensures rec.Valid() && Aligned(rec, messages)
    ensures messages.arr == messages0.arr || fresh(messages.arr)
    ensures rec.transcript.arr == old(rec.transcript.arr) || fresh(rec.transcript.arr)
    ensures RunKept(rec)
    ensures var s, t := old(rec.Now()), rec.Now();
            t.step == s.step == t.steps && t.batch == m && t.next == 0 && t.discovered == s.discovered &&
            t.pc == if ok then AtCall else Broken
  {
    messages := Append(messages0, m);
    ok := rec.OnAssistant(m);
  }

  /** Where a session stands once the reply to its current call is saved, or not. */
  ghost predicate RepliedAs(s: Session, t: Session, payload: Payload, ok: bool) {
    t.batch == s.batch && t.steps == s.steps && t.discovered == s.discovered &&
    if !ok then t.pc == Broken
    else if NeedsApproval(payload) then t.pc == Pausing
    else t.next == s.next + 1 &&
         if t.next < |t.batch.calls| then t.pc == AtCall && t.step == s.step else t.pc == AtModel && t.step == s.step + 1
  }

  lemma ReplyMoves(w: World, s: Session, m: Message, payload: Payload, ok: bool)
    requires s.pc == Ran(payload)
    ensures var reported := After(w, s, Event.Replied(m));
            RepliedAs(s, After(w, reported, if ok then Saved(Transcript(reported)) else StoreFailed), payload, ok)
  {
  }

  method ProduceReply(rec: Recorder, messages0: Slice<Message>, call: Call, payload: Payload)
    returns (messages: Slice<Message>, ok: bool)
    requires rec.Valid() && rec.Now().pc == Ran(payload) && Aligned(rec, messages0)
    requires CallIsNext(rec.Now(), call)
    modifies rec`transcript, rec`run, rec`row, rec`log, rec.transcript.arr, messages0.arr
    ensures rec.Valid() && Aligned(rec, messages)
    ensures messages.arr == messages0.arr || fresh(messages.arr)
    ensures rec.transcript.arr == old(rec.transcript.arr) || fresh(rec.transcript.arr)
    ensures RunKept(rec)
    ensures RepliedAs(old(rec.Now()), rec.Now(), payload, ok)
  {
    messages := Append(messages0, ToolReply(rec.w, call, payload));
    ok := rec.OnToolResult(call, payload);
    ReplyMoves(rec.w, old(rec.Now()), ToolReply(rec.w, call, payload), payload, ok);
  }

  /** `discovered` is what the session has discovered. */
  ghost predicate Knows(rec: Recorder, discovered: set<string>)
    reads rec
  {
    forall id :: id in discovered <==> id in rec.Now().discovered
  }

  /** The checks before a call runs: a declared tool, discovered targets, a row. */
  method Admit(rec: Recorder, call: Call, discovered: set<string>) returns (ok: bool)
    requires rec.Valid() && rec.Now().pc == AtCall && CallIsNext(rec.Now(), call) && Knows(rec, discovered)
    modifies rec`log
    ensures rec.Valid() && SamePlace(old(rec.Now()), rec.Now()) && Knows(rec, discovered)
    ensures if ok then rec.Now().pc == Recorded else Legal(rec.w, rec.Now(), Ended(Failed))
  {
    ok := call.name in rec.w.tools;
    if ok && call.name != "list_workers" {
      ok := ValidateTargets(rec.w, call, discovered);
    }
    if ok {
      ok := rec.OnToolCall(call);
    }
  }

  method RunTool(rec: Recorder, call: Call, discovered0: set<string>)
    returns (payload: Payload, discovered: set<string>)
    requires rec.Valid() && rec.Now().pc == Recorded && CallIsNext(rec.Now(), call) && Knows(rec, discovered0)
    modifies rec`log
    ensures rec.Valid() && Knows(rec, discovered) && SamePlace(old(rec.Now()), rec.Now())
    ensures rec.Now().pc == Ran(payload)
  {
    discovered := discovered0;
    var output, error := Execute(call);
    payload := PayloadOf(rec.w, output, error);
    rec.Pass(Executed(call, error.None?, payload));
    if call.name == "list_workers" && error.None? {
      discovered := RecordDiscovered(payload, discovered);
    }
  }

  /** The reply to a call that ran, and a pause if a job waits. */
  method FinishCall(rec: Recorder, messages0: Slice<Message>, call: Call, payload: Payload)
    returns (messages: Slice<Message>, stop: Option<Outcome>)
    requires rec.Valid() && rec.Now().pc == Ran(payload) && Aligned(rec, messages0)
    requires CallIsNext(rec.Now(), call)
    modifies rec`transcript, rec`run, rec`row, rec`log, rec.transcript.arr, messages0.arr
    ensures rec.Valid() && Aligned(rec, messages) && RunKept(rec) && rec.Now().discovered == old(rec.Now()).discovered
    ensures messages.arr == messages0.arr || fresh(messages.arr)
    ensures rec.transcript.arr == old(rec.transcript.arr) || fresh(rec.transcript.arr)
    ensures Moved(old(rec.Now()), rec, stop)
  {
    var ok;
    messages, ok := ProduceReply(rec, messages0, call, payload);
    if !ok {
      rec.End(Failed);
      return messages, Some(Failed);
    }
    var waiting := PayloadNeedsApproval(payload);
    if waiting {
      rec.End(Paused);
      return messages, Some(Paused);
    }
    stop := None;
  }

  /** After one call: the session is over, or the next call of the batch is due, or
      the next step. */
  ghost predicate Moved(s: Session, rec: Recorder, stop: Option<Outcome>)
    reads rec
  {
    var t := rec.Now();
    t.batch == s.batch && t.steps == s.steps &&
    if stop.Some? then rec.EndedWith(stop.value) && stop.value != Final
    else t.next == s.next + 1 &&
         if t.next < |t.batch.calls| then t.pc == AtCall && t.step == s.step else t.pc == AtModel && t.step == s.step + 1
  }

  /** One requested call: check, record, run, reply, and pause if a job waits. */
  method HandleCall(rec: Recorder, messages0: Slice<Message>, call: Call, discovered0: set<string>)
    returns (messages: Slice<Message>, discovered: set<string>, stop: Option<Outcome>)
    requires rec.Valid() && rec.Now().pc == AtCall && Aligned(rec, messages0) && Knows(rec, discovered0)
    requires CallIsNext(rec.Now(), call)
    modifies rec`transcript, rec`run, rec`row, rec`log, rec.transcript.arr, messages0.arr
    ensures rec.Valid() && Aligned(rec, messages) && Knows(rec, discovered) && RunKept(rec)
    ensures messages.arr == messages0.arr || fresh(messages.arr)
    ensures rec.transcript.arr == old(rec.transcript.arr) || fresh(rec.transcript.arr)
    ensures Moved(old(rec.Now()), rec, stop)
  {
    messages, discovered := messages0, discovered0;
    var ok := Admit(rec, call, discovered);
    if !ok {
      rec.End(Failed);
      return messages, discovered, Some(Failed);
    }
    var payload;
    payload, discovered := RunTool(rec, call, discovered);
    messages, stop := FinishCall(rec, messages, call, payload);
  }

  /** The calls of one assistant message, in order. */
  method RunBatch(rec: Recorder, messages0: Slice<Message>, m: Message, discovered0: set<string>)
    returns (messages: Slice<Message>, discovered: set<string>, stop: Option<Outcome>)
    requires rec.Valid() && rec.Now().pc == AtCall && Aligned(rec, messages0) && Knows(rec, discovered0)
    requires rec.Now().batch == m && rec.Now().next == 0 && m.calls != []
    modifies rec`transcript, rec`run, rec`row, rec`log, rec.transcript.arr, messages0.arr
    ensures rec.Valid() && Aligned(rec, messages) && Knows(rec, discovered) && RunKept(rec)
    ensures messages.arr == messages0.arr || fresh(messages.arr)
    ensures rec.transcript.arr == old(rec.transcript.arr) || fresh(rec.transcript.arr)
    ensures rec.Now().steps == old(rec.Now()).steps
    ensures if stop.Some? then rec.EndedWith(stop.value) && stop.value != Final
            else rec.Now().pc == AtModel && rec.Now().step == old(rec.Now()).step + 1
  {
    messages, discovered, stop := messages0, discovered0, None;
    for i := 0 to |m.calls|
      invariant rec.Valid() && Aligned(rec, messages) && Knows(rec, discovered) && RunKept(rec)
      invariant messages.arr == messages0.arr || fresh(messages.arr)
      invariant rec.transcript.arr == old(rec.transcript.arr) || fresh(rec.transcript.arr)
      invariant rec.Now().batch == m && rec.Now().next == i && rec.Now().steps == old(rec.Now()).steps
      invariant if i < |m.calls| then rec.Now().pc == AtCall && rec.Now().step == old(rec.Now()).step
                else rec.Now().pc == AtModel && rec.Now().step == old(rec.Now()).step + 1
    {
      messages, discovered, stop := HandleCall(rec, messages, m.calls[i], discovered);
      if stop.Some? { return; }
    }
    stop := None;
  }

  /** One model call and the saving of its answer. */
  method AskModel(rec: Recorder, messages0: Slice<Message>, discovered: set<string>)
    returns (messages: Slice<Message>, answered: bool, saved: bool, m: Message)
    requires rec.Valid() && rec.Now().pc == AtModel && rec.Now().step <= rec.w.maxSteps
    requires Aligned(rec, messages0) && Knows(rec, discovered)
    modifies rec`transcript, rec`run, rec`row, rec`log, rec.transcript.arr, messages0.arr
    ensures rec.Valid() && Aligned(rec, messages) && Knows(rec, discovered) && RunKept(rec)
    ensures messages.arr == messages0.arr || fresh(messages.arr)
    ensures rec.transcript.arr == old(rec.transcript.arr) || fresh(rec.transcript.arr)
    ensures rec.Now().step == old(rec.Now()).step
    ensures rec.Now().steps == if answered then rec.Now().step else old(rec.Now()).steps
    ensures if saved then answered && rec.Now().pc == AtCall && rec.Now().batch == m && rec.Now().next == 0
            else rec.Now().pc == Broken
  {
    messages, answered, saved, m := messages0, false, false, Message("", "", "", []);
    rec.Pass(Asked(messages.View()));
    var completion := Complete(messages);
    if completion.Some? {
      m, answered := completion.value, true;
      messages, saved := ProduceAssistant(rec, messages, m);
    } else {
      rec.Pass(ModelFailed);
    }
  }

  /** One step of the loop: a model call and the calls it requests. */
  method RunStep(rec: Recorder, messages0: Slice<Message>, discovered0: set<string>)
    returns (messages: Slice<Message>, discovered: set<string>, answered: bool, stop: Option<Outcome>)
    requires rec.Valid() && rec.Now().pc == AtModel && rec.Now().step <= rec.w.maxSteps
    requires Aligned(rec, messages0) && Knows(rec, discovered0)
    modifies rec`transcript, rec`run, rec`row, rec`log, rec.transcript.arr, messages0.arr
    ensures rec.Valid() && Aligned(rec, messages) && Knows(rec, discovered) && RunKept(rec)
    ensures messages.arr == messages0.arr || fresh(messages.arr)
    ensures rec.transcript.arr == old(rec.transcript.arr) || fresh(rec.transcript.arr)
    ensures rec.Now().steps == if answered then old(rec.Now()).step else old(rec.Now()).steps
    ensures if stop.Some? then rec.EndedWith(stop.value)
            else answered && rec.Now().pc == AtModel && rec.Now().step == old(rec.Now()).step + 1
  {
    var saved, m;
    discovered := discovered0;
    messages, answered, saved, m := AskModel(rec, messages0, discovered);
    if !saved {
      rec.End(Failed);
      return messages, discovered, answered, Some(Failed);
    }
    if m.calls == [] {
      rec.End(Final);
      return messages, discovered, answered, Some(Final);
    }
    messages, discovered, stop := RunBatch(rec, messages, m, discovered);
  }

  /** The bounded loop. It ends for any answers of the model and the tools, and the
      events it causes form a legal log. */
  method RunMessages(rec: Recorder, initial: Slice<Message>, startStep: int)
    returns (steps: nat, outcome: Outcome)
    requires rec.Valid() && rec.log == [] && initial == rec.transcript
    requires rec.start == if startStep < 1 then 1 else startStep
    modifies rec`transcript, rec`run, rec`row, rec`log, initial.arr
    ensures rec.Valid() && rec.EndedWith(outcome) && steps == rec.Now().steps && RunKept(rec)
    ensures rec.transcript.arr == initial.arr || fresh(rec.transcript.arr)
  {
    var messages, discovered := initial, {};
    steps := 0;
    var step := if startStep < 1 then 1 else startStep;
    while step <= rec.w.maxSteps
      invariant rec.Valid() && Aligned(rec, messages) && Knows(rec, discovered) && RunKept(rec)
      invariant messages.arr == initial.arr || fresh(messages.arr)
      invariant rec.transcript.arr == initial.arr || fresh(rec.transcript.arr)
      invariant rec.Now().pc == AtModel && rec.Now().step == step && rec.Now().steps == steps
      decreases rec.w.maxSteps + 1 - step
    {
      var answered, stop;
      messages, discovered, answered, stop := RunStep(rec, messages, discovered);
      if answered { steps := step; }
      if stop.Some? { return steps, stop.value; }
      step := step + 1;
    }
    rec.End(Failed);
    outcome := Failed;
  }

  /** One session of a durable run: load, run, record how it ended. A run that is
      over is left alone; the step to resume at survives only if the last save does. */
  method ExecutePersistentRun(w: World, stored: Run, transcript: Slice<Message>)
    returns (rec: Recorder, ended: Option<Outcome>, saved: bool)
    requires transcript.Fits() && transcript.View() == stored.transcript && Stored(stored.transcript) == stored.transcript
    modifies transcript.arr
    ensures fresh(rec) && rec.Valid() && rec.w == w && rec.initial == stored.transcript
    ensures rec.start == if stored.nextStep < 1 then 1 else stored.nextStep
    ensures stored.status == Cancelled || stored.status == Completed ==> ended.None? && rec.log == [] && rec.row == stored
    ensures stored.status != Cancelled && stored.status != Completed && ended.None? ==> rec.log == [StoreFailed] && rec.row == stored
    ensures ended.Some? && !saved ==> rec.row.status == Running && |rec.log| >= 2 && rec.log[|rec.log| - 1] == StoreFailed
    ensures ended.Some? ==> rec.Now().pc == Over(ended.value) && |rec.log| >= 2 && rec.log[|rec.log| - 2] == Ended(ended.value)
    ensures ended.Some? ==> rec.row.nextStep == if saved then rec.Now().steps + 1 else stored.nextStep
    ensures ended.Some? && saved ==>
              rec.row.transcript == Stored(Transcript(rec.Now())) &&
              (rec.row.status == WaitingApproval <==> ended.value == Paused) &&
              (rec.row.status == Completed <==> ended.value == Final) &&
              (rec.row.status in {RunFailed, TimedOut} <==> ended.value == Failed)
  {
    rec := new Recorder(w, transcript, stored, stored, if stored.nextStep < 1 then 1 else stored.nextStep);
    saved := false;
    if stored.status == Cancelled || stored.status == Completed {
      return rec, None, false;
    }
    rec.run := rec.run.(status := Running);
    var ok := rec.TryStore();
    if !ok {
      return rec, None, false;
    }
    rec.row := rec.run;
    var steps, outcome := RunMessages(rec, transcript, stored.nextStep);
    saved := Conclude(rec, steps, outcome);
    ended := Some(outcome);
  }

  /** The status that fits the outcome, and the last save. */
  method Conclude(rec: Recorder, steps: nat, outcome: Outcome) returns (saved: bool)
    requires rec.Valid() && rec.Now().pc == Over(outcome)
    modifies rec`run, rec`row, rec`log
    ensures rec.Valid() && rec.Now().pc == Over(outcome) && rec.Now().steps == old(rec.Now()).steps
    ensures |rec.log| == |old(rec.log)| + 1 && old(rec.log) <= rec.log
    ensures if saved then
              rec.row.nextStep == steps + 1 && rec.row.transcript == Stored(Transcript(rec.Now())) &&
              (rec.row.status == WaitingApproval <==> outcome == Paused) && (rec.row.status == Completed <==> outcome == Final) &&
              (rec.row.status in {RunFailed, TimedOut} <==> outcome == Failed)
            else rec.row == old(rec.row) && rec.log == old(rec.log) + [StoreFailed]
  {
    rec.run := rec.run.(nextStep := steps + 1);
    match outcome {
      case Paused => rec.run := rec.run.(status := WaitingApproval);
      case Failed =>
        var deadline: bool := *;
        rec.run := rec.run.(status := if deadline then TimedOut else RunFailed);
      case Final => rec.run := rec.run.(status := Completed);
    }
    saved := rec.Persist();
  }
}
