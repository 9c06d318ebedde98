/** Why a session ends: what its log shows right before the end tells, in every
    legal session, which outcome it has. */
module AgentOutcome {
  import opened AgentProtocol
  import opened AgentTheorems
  import S = Sanitize

  // ---- What a log ends in ----

  ghost predicate EndsIn(log: seq<Event>, k: nat, e: Event) {
    k < |log| && log[|log| - 1 - k] == e
  }

  predicate LastSaved(log: seq<Event>) {
    log != [] && log[|log| - 1].Saved?
  }

  /** An answer was saved. */
  predicate AnswerSaved(log: seq<Event>, m: Message) {
    |log| >= 2 && LastSaved(log) && log[|log| - 2] == Answered(m)
  }

  /** A tool ran, and its reply was saved. */
  predicate ReplySaved(log: seq<Event>) {
    |log| >= 3 && LastSaved(log) && log[|log| - 2].Replied? && log[|log| - 3].Executed?
  }

  predicate ListsWaitingJob(log: seq<Event>)
    requires ReplySaved(log)
  {
    NeedsApproval(log[|log| - 3].payload)
  }

  predicate CallFailed(log: seq<Event>) {
    log != [] && (log[|log| - 1].ModelFailed? || log[|log| - 1].StoreFailed?)
  }

  /** The last answer, and how many of its calls have been replied to. */
  predicate LastAnswer(log: seq<Event>, a: int, m: Message, replied: nat) {
    0 <= a < |log| && log[a] == Answered(m) && NoAnswerIn(log, a, |log|) && |RepliesSince(log, a)| == replied
  }

  /** The model answered without calls, and that was saved. */
  ghost predicate GaveAnswer(log: seq<Event>) {
    exists m :: AnswerSaved(log, m) && m.calls == []
  }

  /** The last reply lists a job that waits for an approval. */
  predicate MetApproval(log: seq<Event>) {
    ReplySaved(log) && ListsWaitingJob(log)
  }

  /** Every call was replied to, and no step is left to ask again. */
  ghost predicate RanOut(w: World, start: nat, log: seq<Event>) {
    start + Asks(log) > w.maxSteps &&
    (log == [] || (ReplySaved(log) && !ListsWaitingJob(log) && exists a, m: Message :: LastAnswer(log, a, m, |m.calls|)))
  }

  /** The call names a tool that is not declared, or has arguments that cannot be
      read, or names a worker that is not known. */
  ghost predicate IsTooMuch(w: World, call: Call, known: iset<string>) {
    call.name !in w.tools ||
    (call.name != "list_workers" &&
     (w.parse(call.arguments).None? ||
      exists id :: id !in known && (id in w.parse(call.arguments).value.workerIds || id == w.parse(call.arguments).value.workerId != "")))
  }

  lemma TooMuchIsNotAuthorized(w: World, call: Call, known: iset<string>)
    ensures IsTooMuch(w, call, known) <==> !Authorized(w, call, known)
  {
    if call.name in w.tools && call.name != "list_workers" && w.parse(call.arguments).Some? {
      var t := w.parse(call.arguments).value;
      forall id ensures id in TargetIds(t) <==> id in t.workerIds || id == t.workerId != "" {}
    }
  }

  /** The next call is too much. */
  ghost predicate AskedTooMuch(w: World, log: seq<Event>) {
    (ReplySaved(log) ==> !ListsWaitingJob(log)) && LastSaved(log) &&
    exists a, m, i: nat :: LastAnswer(log, a, m, i) && i < |m.calls| && IsTooMuch(w, m.calls[i], Discovered(log))
  }

  // ---- The protocol state and the end of the log ----

  ghost predicate CallAt(s: Session, call: Call) {
    s.next < |s.batch.calls| && call == s.batch.calls[s.next]
  }

  ghost predicate Recent(w: World, s: Session, log: seq<Event>) {
    match s.pc
    case AtModel => log == [] || (ReplySaved(log) && !ListsWaitingJob(log) && Answers(log) > 0)
    case Awaiting => log != [] && log[|log| - 1].Asked?
    case Drafted => s.next == 0 && EndsIn(log, 0, Answered(s.batch))
    case AtCall => if s.next == 0 then AnswerSaved(log, s.batch) else ReplySaved(log) && !ListsWaitingJob(log)
    case Recorded => log != [] && log[|log| - 1].RowCreated?
    case Ran(payload) => Runs(s, log, 0, payload)
    case Reported(payload) =>
      Runs(s, log, 1, payload) && s.next < |s.batch.calls| && EndsIn(log, 0, Event.Replied(ToolReply(w, s.batch.calls[s.next], payload)))
    case Pausing => MetApproval(log)
    case Broken => CallFailed(log)
    case Over(_) => true
  }

  ghost predicate Runs(s: Session, log: seq<Event>, k: nat, payload: Payload) {
    k < |log| && log[|log| - 1 - k].Executed? && log[|log| - 1 - k].payload == payload && CallAt(s, log[|log| - 1 - k].call)
  }

  lemma RecentStep(w: World, s: Session, log: seq<Event>, e: Event)
    requires Recent(w, s, log) && RepliedTo(s, log) && Legal(w, s, e)
    ensures Recent(w, After(w, s, e), log + [e])
  {
    var l := log + [e];
    GrowCounts(log, e);
    assert forall k | 0 <= k < |log| :: l[k] == log[k];
  }

  lemma AlwaysReplied(w: World, initial: seq<Message>, start: nat, log: seq<Event>)
    requires LegalLog(w, Begin(initial, start), log)
    ensures RepliedTo(Replay(w, Begin(initial, start), log), log)
  {
    ReplayInv(w, initial, start, log);
  }

  lemma {:induction false} AlwaysRecent(w: World, initial: seq<Message>, start: nat, log: seq<Event>)
    requires LegalLog(w, Begin(initial, start), log)
    ensures Recent(w, Replay(w, Begin(initial, start), log), log)
  {
    if log != [] {
      var init, e := log[..|log| - 1], log[|log| - 1];
      AlwaysRecent(w, initial, start, init);
      AlwaysReplied(w, initial, start, init);
      RecentStep(w, Replay(w, Begin(initial, start), init), init, e);
      assert log == init + [e];
    }
  }

  // ---- One end ----

  /** What a state that may end knows of its log. */
  ghost predicate Known(w: World, s: Session, log: seq<Event>) {
    Recent(w, s, log) && Counted(w, s, log) && RepliedTo(s, log) && s.discovered == Discovered(log)
  }

  lemma AnswerOf(s: Session, log: seq<Event>, a: int, m: Message, n: nat)
    requires RepliedTo(s, log) && LastAnswer(log, a, m, n)
    ensures m == s.batch && n == s.replied
  {
    AnswerCounted(log, a);
    assert a == s.answeredAt;
  }

  lemma AnswerHere(s: Session, log: seq<Event>)
    requires RepliedTo(s, log) && Answers(log) > 0
    ensures LastAnswer(log, s.answeredAt, s.batch, s.replied)
  {
  }

  lemma EndsFinal(w: World, s: Session, log: seq<Event>, o: Outcome)
    requires Known(w, s, log) && Legal(w, s, Ended(o))
    ensures o == Final <==> GaveAnswer(log)
  {
    if o == Final { assert AnswerSaved(log, s.batch); }
  }

  lemma EndsPaused(w: World, s: Session, log: seq<Event>, o: Outcome)
    requires Known(w, s, log) && Legal(w, s, Ended(o))
    ensures o == Paused <==> MetApproval(log)
  {
  }

  lemma EndsFailed(w: World, s: Session, log: seq<Event>, o: Outcome)
    requires Known(w, s, log) && Legal(w, s, Ended(o))
    ensures o == Failed ==> CallFailed(log) || RanOut(w, s.start, log) || AskedTooMuch(w, log)
  {
    if s.pc == AtModel && log != [] { AnswerHere(s, log); }
    if s.pc == AtCall {
      AnswerHere(s, log);
      if s.next < |s.batch.calls| { TooMuchIsNotAuthorized(w, s.batch.calls[s.next], Discovered(log)); }
    }
  }

  lemma FailsEnd(w: World, s: Session, log: seq<Event>, o: Outcome)
    requires Known(w, s, log) && Legal(w, s, Ended(o))
    requires CallFailed(log) || RanOut(w, s.start, log) || AskedTooMuch(w, log)
    ensures o == Failed
  {
    if AskedTooMuch(w, log) {
      var a, m, i: nat :| LastAnswer(log, a, m, i) && i < |m.calls| && IsTooMuch(w, m.calls[i], Discovered(log));
      AnswerOf(s, log, a, m, i);
      TooMuchIsNotAuthorized(w, m.calls[i], Discovered(log));
    }
    if RanOut(w, s.start, log) && log != [] {
      var a, m: Message :| LastAnswer(log, a, m, |m.calls|);
      AnswerOf(s, log, a, m, |m.calls|);
    }
  }

  /** In every session: it ends with a final answer exactly after the save of an
      answer without calls; it pauses exactly after a reply that lists a waiting job;
      and it fails exactly when a call of the model or the store failed, when no step
      is left, or when the next call is not declared or its target not discovered. */
  lemma WhyItEnded(w: World, initial: seq<Message>, start: nat, log: seq<Event>, e: nat)
    requires LegalLog(w, Begin(initial, start), log) && e < |log| && log[e].Ended?
    ensures log[e].outcome == Final <==> GaveAnswer(log[..e])
    ensures log[e].outcome == Paused <==> MetApproval(log[..e])
    ensures log[e].outcome == Failed <==>
            CallFailed(log[..e]) || RanOut(w, start, log[..e]) || AskedTooMuch(w, log[..e])
  {
    var s, l := Before(w, initial, start, log, e), log[..e];
    At(w, initial, start, log, e);
    LegalAt(w, Begin(initial, start), log, e);
    AlwaysRecent(w, initial, start, l);
    ReplayKeepsStart(w, Begin(initial, start), l);
    EndsFinal(w, s, l, log[e].outcome);
    EndsPaused(w, s, l, log[e].outcome);
    EndsFailed(w, s, l, log[e].outcome);
    if CallFailed(l) || RanOut(w, start, l) || AskedTooMuch(w, l) { FailsEnd(w, s, l, log[e].outcome); }
  }

  /** Every tool message answers the execution right before it, with its payload. */
  lemma RepliesShow(w: World, initial: seq<Message>, start: nat, log: seq<Event>, n: nat)
    requires LegalLog(w, Begin(initial, start), log) && n < |log| && log[n].Replied?
    ensures n > 0 && log[n - 1].Executed?
    ensures var m, e := log[n].m, log[n - 1];
            m.role == "tool" && m.toolCallId == e.call.id && m.content == w.encode(e.payload) && m.calls == [] &&
            Delivers(w, e.ok, e.payload)
  {
    LegalAt(w, Begin(initial, start), log, n);
    AlwaysRecent(w, initial, start, log[..n]);
    LegalAt(w, Begin(initial, start), log, n - 1);
    assert log[..n][n - 1] == log[n - 1];
  }

  /** What a session adds to the transcript: the answers with redacted and cut
      content, and the tool messages as they are. */
  lemma {:induction false} EntriesSanitized(w: World, log: seq<Event>, k: nat) returns (n: nat)
    requires k < |Produced(w, log)|
    ensures n < |log| && (log[n].Answered? || log[n].Replied?)
    ensures var entry, m := Produced(w, log)[k], log[n].m;
            entry.role == m.role && entry.toolCallId == m.toolCallId && entry.calls == m.calls &&
            entry.content == (if log[n].Answered? then S.Text(w.redact, m.content) else m.content)
  {
    n := |log| - 1;
    if k < |Produced(w, log[..n])| { n := EntriesSanitized(w, log[..n], k); }
  }
}
