/** What every legal session log guarantees, at every prefix: the transcript that
    is saved and sent, durability before execution, replies in call order, targets
    that were discovered, and the step budget. */
module AgentTheorems {
  import opened AgentProtocol

  // ---- Read off the log, without the protocol state ----

  function Entry(w: World, e: Event): seq<Message> {
    if e.Answered? then [Clean(w, e.m)] else if e.Replied? then [e.m] else []
  }

  /** The entries a log adds to the transcript: assistant messages sanitized, tool
      messages verbatim. */
  function Produced(w: World, log: seq<Event>): seq<Message> {
    if log == [] then [] else Produced(w, log[..|log| - 1]) + Entry(w, log[|log| - 1])
  }

  /** What a restart would read back. */
  function Durable(initial: seq<Message>, log: seq<Event>): seq<Message> {
    if log == [] then Stored(initial)
    else if log[|log| - 1].Saved? then Stored(log[|log| - 1].t)
    else Durable(initial, log[..|log| - 1])
  }

  ghost function Discovered(log: seq<Event>): iset<string> {
    if log == [] then iset{}
    else
      var e := log[|log| - 1];
      Discovered(log[..|log| - 1]) +
      if e.Executed? && e.call.name == "list_workers" && e.ok then DiscoveredIn(e.payload) else iset{}
  }

  function Asks(log: seq<Event>): nat {
    if log == [] then 0 else Asks(log[..|log| - 1]) + if log[|log| - 1].Asked? then 1 else 0
  }

  function Answers(log: seq<Event>): nat {
    if log == [] then 0 else Answers(log[..|log| - 1]) + if log[|log| - 1].Answered? then 1 else 0
  }

  /** The call ids of the tool replies from position `from` on. */
  function RepliesSince(log: seq<Event>, from: nat): seq<string> {
    if |log| <= from then []
    else
      RepliesSince(log[..|log| - 1], from) +
      if log[|log| - 1].Replied? then [log[|log| - 1].m.toolCallId] else []
  }

  predicate NoAnswerIn(log: seq<Event>, from: int, to: int)
    requires 0 <= from && to <= |log|
  {
    forall i | from < i < to :: !log[i].Answered?
  }

  function CallIds(m: Message): seq<string> {
    seq(|m.calls|, i requires 0 <= i < |m.calls| => m.calls[i].id)
  }

  // ---- The invariants that tie the protocol state to the log ----

  ghost predicate Counted(w: World, s: Session, log: seq<Event>) {
    var asks, answers := Asks(log), Answers(log);
    s.steps == (if answers == 0 then 0 else s.start + answers - 1) &&
    (asks > 0 ==> s.start + asks <= w.maxSteps + 1) && answers <= asks <= answers + 1 &&
    (s.pc == AtModel ==> s.step == s.start + answers && asks == answers) &&
    (s.pc == Awaiting ==> s.step == s.start + answers && asks == answers + 1) &&
    (s.pc == Drafted || InBatch(s.pc) || s.pc == Over(Paused) || s.pc == Over(Final) ==>
       answers > 0 && s.step == s.start + answers - 1 && asks == answers)
  }

  /** The state mirrors what the log adds, saves and discovers. */
  ghost predicate Mirrors(w: World, s: Session, log: seq<Event>) {
    s.produced == Produced(w, log) && s.durable == Durable(s.initial, log) && s.discovered == Discovered(log)
  }

  /** What is saved is the transcript, or the transcript without its newest entry. */
  ghost predicate SavedUpTo(s: Session) {
    var n := |s.produced|;
    if s.pc == Drafted || s.pc.Reported? then
      n > 0 && s.durable == Stored(s.initial + s.produced[..n - 1])
    else
      s.durable == Stored(Transcript(s)) ||
      ((s.pc.Over? || s.pc == Broken) && n > 0 && s.durable == Stored(s.initial + s.produced[..n - 1]))
  }

  ghost predicate Kept(w: World, s: Session, log: seq<Event>) {
    Mirrors(w, s, log) && SavedUpTo(s)
  }

  predicate InBatch(pc: Pc) {
    pc.AtCall? || pc.Recorded? || pc.Ran? || pc.Reported? || pc.Pausing?
  }

  /** The current batch was answered at `answeredAt` and replied to in order. */
  ghost predicate RepliedTo(s: Session, log: seq<Event>) {
    s.clock == |log| &&
    (Answers(log) > 0 ==>
       s.answeredAt < |log| && log[s.answeredAt] == Answered(s.batch) && NoAnswerIn(log, s.answeredAt, |log|) &&
       s.replied <= |s.batch.calls| && RepliesSince(log, s.answeredAt) == CallIds(s.batch)[..s.replied]) &&
    (s.pc == Drafted || InBatch(s.pc) ==>
       Answers(log) > 0 && s.replied == s.next + (if s.pc.Reported? || s.pc.Pausing? then 1 else 0)) &&
    (s.pc == Drafted ==> s.next == 0) &&
    (s.pc == AtCall ==> s.next < |s.batch.calls| || s.batch.calls == []) &&
    ((s.pc == AtModel || s.pc == Awaiting) && Answers(log) > 0 ==> s.replied == |s.batch.calls|)
  }

  /** Before a call runs, its batch is saved and then its row is created. */
  ghost predicate Prepared(w: World, s: Session, log: seq<Event>) {
    s.clock == |log| &&
    (s.pc == Drafted ==>
       s.answeredAt < |log| && |s.produced| > 0 && s.produced[|s.produced| - 1] == Clean(w, s.batch)) &&
    (InBatch(s.pc) ==> s.answeredAt < s.savedAt < |log| && SavesBatch(w, log[s.savedAt], s.batch)) &&
    (s.pc == Recorded ==>
       s.next < |s.batch.calls| && s.savedAt < s.rowAt < |log| && log[s.rowAt] == RowCreated(s.batch.calls[s.next].id) &&
       Authorized(w, s.batch.calls[s.next], s.discovered))
  }

  /** The save that made the assistant message durable. */
  predicate SavesBatch(w: World, e: Event, batch: Message) {
    e.Saved? && |e.t| > 0 && e.t[|e.t| - 1] == Clean(w, batch)
  }

  lemma GrowCounts(log: seq<Event>, e: Event)
    ensures Asks(log + [e]) == Asks(log) + if e.Asked? then 1 else 0
    ensures Answers(log + [e]) == Answers(log) + if e.Answered? then 1 else 0
  {
    assert (log + [e])[..|log|] == log;
  }

  lemma GrowKept(w: World, initial: seq<Message>, log: seq<Event>, e: Event)
    ensures Produced(w, log + [e]) == Produced(w, log) + Entry(w, e)
    ensures Durable(initial, log + [e]) == if e.Saved? then Stored(e.t) else Durable(initial, log)
    ensures Discovered(log + [e]) == Discovered(log) +
              if e.Executed? && e.call.name == "list_workers" && e.ok then DiscoveredIn(e.payload) else iset{}
  {
    assert (log + [e])[..|log|] == log;
  }

  lemma GrowReplies(log: seq<Event>, e: Event, from: nat)
    requires from <= |log|
    ensures RepliesSince(log + [e], from) == RepliesSince(log, from) + if e.Replied? then [e.m.toolCallId] else []
  {
    assert (log + [e])[..|log|] == log;
  }

  lemma CountedStep(w: World, s: Session, log: seq<Event>, e: Event)
    requires Counted(w, s, log) && Legal(w, s, e)
    ensures Counted(w, After(w, s, e), log + [e])
  {
    GrowCounts(log, e);
  }

  lemma MirrorsStep(w: World, s: Session, log: seq<Event>, e: Event)
    requires Mirrors(w, s, log) && Legal(w, s, e)
    ensures Mirrors(w, After(w, s, e), log + [e])
  {
    GrowKept(w, s.initial, log, e);
  }

  lemma SavedStep(w: World, s: Session, e: Event)
    requires SavedUpTo(s) && Legal(w, s, e)
    ensures SavedUpTo(After(w, s, e))
  {
    var t := After(w, s, e);
    if e.Answered? || e.Replied? {
      assert t.produced[..|t.produced| - 1] == s.produced;
    }
  }

  lemma AnswerStartsBatch(w: World, s: Session, log: seq<Event>, e: Event)
    requires RepliedTo(s, log) && Legal(w, s, e) && e.Answered?
    ensures RepliedTo(After(w, s, e), log + [e])
  {
    GrowCounts(log, e);
    GrowReplies(log, e, |log|);
  }

  lemma ReplyExtendsBatch(w: World, s: Session, log: seq<Event>, e: Event)
    requires RepliedTo(s, log) && Legal(w, s, e) && e.Replied?
    ensures RepliedTo(After(w, s, e), log + [e])
  {
    GrowCounts(log, e);
    GrowReplies(log, e, s.answeredAt);
    assert CallIds(s.batch)[..s.replied + 1] == CallIds(s.batch)[..s.replied] + [CallIds(s.batch)[s.replied]];
  }

  lemma RepliedToStep(w: World, s: Session, log: seq<Event>, e: Event)
    requires RepliedTo(s, log) && Legal(w, s, e)
    ensures RepliedTo(After(w, s, e), log + [e])
  {
    if e.Answered? {
      AnswerStartsBatch(w, s, log, e);
    } else if e.Replied? {
      ReplyExtendsBatch(w, s, log, e);
    } else {
      GrowCounts(log, e);
      if Answers(log) > 0 { GrowReplies(log, e, s.answeredAt); }
    }
  }

  lemma PreparedStep(w: World, s: Session, log: seq<Event>, e: Event)
    requires Prepared(w, s, log) && Legal(w, s, e)
    ensures Prepared(w, After(w, s, e), log + [e])
  {
  }

  ghost predicate Inv(w: World, s: Session, log: seq<Event>) {
    Counted(w, s, log) && Kept(w, s, log) && RepliedTo(s, log) && Prepared(w, s, log)
  }

  lemma InvStep(w: World, s: Session, log: seq<Event>, e: Event)
    requires Inv(w, s, log) && Legal(w, s, e)
    ensures Inv(w, After(w, s, e), log + [e])
  {
    CountedStep(w, s, log, e);
    MirrorsStep(w, s, log, e);
    SavedStep(w, s, e);
    RepliedToStep(w, s, log, e);
    PreparedStep(w, s, log, e);
  }

  lemma BeginInv(w: World, initial: seq<Message>, start: nat)
    ensures Inv(w, Begin(initial, start), [])
  {
    assert initial + [] == initial;
  }

  lemma {:induction false} ReplayKeepsStart(w: World, s: Session, log: seq<Event>)
    ensures Replay(w, s, log).initial == s.initial && Replay(w, s, log).start == s.start
  {
    if log != [] { ReplayKeepsStart(w, s, log[..|log| - 1]); }
  }

  lemma {:induction false} ReplayInv(w: World, initial: seq<Message>, start: nat, log: seq<Event>)
    requires LegalLog(w, Begin(initial, start), log)
    ensures Inv(w, Replay(w, Begin(initial, start), log), log)
    ensures Replay(w, Begin(initial, start), log).initial == initial && Replay(w, Begin(initial, start), log).start == start
  {
    ReplayKeepsStart(w, Begin(initial, start), log);
    if log == [] {
      BeginInv(w, initial, start);
    } else {
      var l, e := log[..|log| - 1], log[|log| - 1];
      ReplayInv(w, initial, start, l);
      InvStep(w, Replay(w, Begin(initial, start), l), l, e);
      assert log == l + [e];
    }
  }

  /** The state in which the event at position `n` happened. */
  ghost function Before(w: World, initial: seq<Message>, start: nat, log: seq<Event>, n: nat): Session
    requires n <= |log|
  {
    Replay(w, Begin(initial, start), log[..n])
  }

  lemma At(w: World, initial: seq<Message>, start: nat, log: seq<Event>, n: nat)
    requires LegalLog(w, Begin(initial, start), log) && n <= |log|
    ensures Inv(w, Before(w, initial, start, log, n), log[..n])
    ensures Before(w, initial, start, log, n).initial == initial && Before(w, initial, start, log, n).start == start
    ensures n < |log| ==> Legal(w, Before(w, initial, start, log, n), log[n])
  {
    LegalAt(w, Begin(initial, start), log, n);
    ReplayInv(w, initial, start, log[..n]);
  }

  // ---- Main results ----

  /** Every save writes the initial messages followed by one entry per produced
      message in order, and every request carries exactly those messages, up to
      the sanitization of assistant content. */
  lemma TranscriptExact(w: World, initial: seq<Message>, start: nat, log: seq<Event>, n: nat)
    requires LegalLog(w, Begin(initial, start), log) && n < |log|
    ensures log[n].Saved? ==> log[n].t == initial + Produced(w, log[..n])
    ensures log[n].Asked? ==> CarriesAll(w, log[n].request, initial + Produced(w, log[..n]))
  {
    At(w, initial, start, log, n);
  }

  /** At every crash point the durable transcript is the whole transcript or lacks
      its newest entry. */
  lemma DurableLagsByOne(w: World, initial: seq<Message>, start: nat, log: seq<Event>, n: nat)
    requires LegalLog(w, Begin(initial, start), log) && n <= |log|
    ensures var produced := Produced(w, log[..n]);
            Durable(initial, log[..n]) == Stored(initial + produced) ||
            (produced != [] && Durable(initial, log[..n]) == Stored(initial + produced[..|produced| - 1]))
  {
    At(w, initial, start, log, n);
  }

  lemma RunIsRecorded(w: World, s: Session, log: seq<Event>, e: Event)
    requires RepliedTo(s, log) && Prepared(w, s, log) && Legal(w, s, e) && e.Executed?
    ensures s.answeredAt < s.savedAt < s.rowAt < |log| && log[s.answeredAt].Answered? && e.call in log[s.answeredAt].m.calls
    ensures NoAnswerIn(log, s.answeredAt, |log|)
    ensures SavesBatch(w, log[s.savedAt], log[s.answeredAt].m) && log[s.rowAt] == RowCreated(e.call.id)
  {
    assert InBatch(s.pc);
  }

  /** A tool runs only after its requesting assistant message was saved and then
      the row of the call was created, within one batch. */
  lemma ExecutionIsRecorded(w: World, initial: seq<Message>, start: nat, log: seq<Event>, n: nat)
    returns (answered: nat, saved: nat, row: nat)
    requires LegalLog(w, Begin(initial, start), log) && n < |log| && log[n].Executed?
    ensures answered < saved < row < n && log[answered].Answered? && log[n].call in log[answered].m.calls
    ensures NoAnswerIn(log, answered, n)
    ensures SavesBatch(w, log[saved], log[answered].m)
    ensures log[row] == RowCreated(log[n].call.id)
  {
    At(w, initial, start, log, n);
    var s := Before(w, initial, start, log, n);
    RunIsRecorded(w, s, log[..n], log[n]);
    answered, saved, row := s.answeredAt, s.savedAt, s.rowAt;
    assert forall i | 0 <= i < n :: log[..n][i] == log[i];
  }

  /** The replies after an assistant message answer its calls in order; they
      answer all of them whenever the model is asked again. */
  lemma RepliesInOrder(w: World, initial: seq<Message>, start: nat, log: seq<Event>, a: nat, n: nat)
    requires LegalLog(w, Begin(initial, start), log) && a < n <= |log|
    requires log[a].Answered? && NoAnswerIn(log, a, n)
    ensures var replies := RepliesSince(log[..n], a);
            |replies| <= |log[a].m.calls| && replies == CallIds(log[a].m)[..|replies|] &&
            (n < |log| && log[n].Asked? ==> replies == CallIds(log[a].m))
  {
    At(w, initial, start, log, n);
    var s := Before(w, initial, start, log, n);
    AnswerCounted(log[..n], a);
    assert log[..n][a].Answered? && log[s.answeredAt].Answered?;
    assert s.answeredAt == a;
    assert CallIds(s.batch)[..|s.batch.calls|] == CallIds(s.batch);
  }

  lemma {:induction false} AnswerCounted(log: seq<Event>, a: nat)
    requires a < |log| && log[a].Answered?
    ensures Answers(log) > 0
  {
    if a < |log| - 1 { AnswerCounted(log[..|log| - 1], a); }
  }

  /** A tool other than list_workers names only ids that an earlier successful
      list_workers payload of the session contains. */
  lemma TargetsDiscovered(w: World, initial: seq<Message>, start: nat, log: seq<Event>, n: nat)
    requires LegalLog(w, Begin(initial, start), log) && n < |log| && log[n].Executed?
    requires log[n].call.name != "list_workers"
    ensures log[n].call.name in w.tools && w.parse(log[n].call.arguments).Some?
    ensures forall id | id in TargetIds(w.parse(log[n].call.arguments).value) :: id in Discovered(log[..n])
  {
    At(w, initial, start, log, n);
  }

  /** Where a discovered id comes from. */
  lemma {:induction false} DiscoveredFrom(log: seq<Event>, id: string) returns (n: nat)
    requires id in Discovered(log)
    ensures n < |log| && log[n].Executed? && log[n].call.name == "list_workers" && log[n].ok && Lists(log[n].payload, id)
  {
    n := |log| - 1;
    var e := log[n];
    if !(e.Executed? && e.call.name == "list_workers" && e.ok && id in DiscoveredIn(e.payload)) {
      n := DiscoveredFrom(log[..|log| - 1], id);
    }
  }

  /** The model is asked at most once per step that is left, and the last answered
      step follows from the number of answers. */
  lemma StepBudget(w: World, initial: seq<Message>, start: nat, log: seq<Event>)
    requires LegalLog(w, Begin(initial, start), log)
    ensures Asks(log) > 0 ==> start + Asks(log) <= w.maxSteps + 1
    ensures Answers(log) <= Asks(log) <= Answers(log) + 1
    ensures Replay(w, Begin(initial, start), log).steps == if Answers(log) == 0 then 0 else start + Answers(log) - 1
    ensures Replay(w, Begin(initial, start), log).pc == Over(Paused) ==> Asks(log) == Answers(log) > 0
  {
    ReplayInv(w, initial, start, log);
  }
}
