/** What the sessions of one run add up to, what the stored form of a transcript
    keeps, and which workers an operation acts on. */
module AgentChain {
  import opened Basics
  import opened AgentProtocol
  import opened AgentTheorems

  // ---- The stored form ----

  /** A transcript comes back as it was saved exactly when none of its tool calls
      carries a name or arguments; saving what was read back changes nothing. */
  lemma StoredForm(t: seq<Message>)
    ensures Stored(Stored(t)) == Stored(t)
    ensures Stored(t) == t <==>
            forall i, k | 0 <= i < |t| && 0 <= k < |t[i].calls| :: t[i].calls[k].name == "" && t[i].calls[k].arguments == ""
  {
    forall i | 0 <= i < |t|
      ensures EraseCalls(EraseCalls(t[i].calls)) == EraseCalls(t[i].calls)
      ensures EraseCalls(t[i].calls) == t[i].calls <==>
              forall k | 0 <= k < |t[i].calls| :: t[i].calls[k].name == "" && t[i].calls[k].arguments == ""
    {
      var calls := t[i].calls;
      if EraseCalls(calls) == calls {
        forall k | 0 <= k < |calls| ensures calls[k].name == "" && calls[k].arguments == "" {
          assert EraseCalls(calls)[k] == calls[k];
        }
      }
    }
    if Stored(t) == t {
      forall i | 0 <= i < |t| ensures EraseCalls(t[i].calls) == t[i].calls { assert Stored(t)[i] == t[i]; }
    }
  }

  lemma StoredConcat(a: seq<Message>, b: seq<Message>)
    ensures Stored(a + b) == Stored(a) + Stored(b)
  {
  }

  // ---- Chains of sessions ----

  datatype Leg = Leg(initial: seq<Message>, start: nat, log: seq<Event>)

  ghost function End(w: World, leg: Leg): Session {
    Replay(w, Begin(leg.initial, leg.start), leg.log)
  }

  /** Every session but the last paused with its last save done, and the next one
      read back the saved transcript and step. */
  ghost predicate Chain(w: World, legs: seq<Leg>) {
    legs != [] && legs[0].start == 1 &&
    (forall i | 0 <= i < |legs| :: LegalLog(w, Begin(legs[i].initial, legs[i].start), legs[i].log)) &&
    (forall i | 0 <= i < |legs| - 1 :: End(w, legs[i]).pc == Over(Paused) && Resumes(w, legs[i], legs[i + 1]))
  }

  ghost predicate Resumes(w: World, leg: Leg, next: Leg) {
    next.start == End(w, leg).steps + 1 && next.initial == Stored(Transcript(End(w, leg)))
  }

  function TotalAsks(legs: seq<Leg>): nat {
    if legs == [] then 0 else TotalAsks(legs[..|legs| - 1]) + Asks(legs[|legs| - 1].log)
  }

  function TotalProduced(w: World, legs: seq<Leg>): seq<Message> {
    if legs == [] then []
    else TotalProduced(w, legs[..|legs| - 1]) + Stored(Produced(w, legs[|legs| - 1].log))
  }

  lemma LegFacts(w: World, legs: seq<Leg>, i: nat)
    requires Chain(w, legs) && i < |legs|
    ensures Asks(legs[i].log) > 0 ==> legs[i].start + Asks(legs[i].log) <= w.maxSteps + 1
    ensures Transcript(End(w, legs[i])) == legs[i].initial + Produced(w, legs[i].log)
    ensures i < |legs| - 1 ==> Asks(legs[i].log) > 0 && legs[i + 1].start == legs[i].start + Asks(legs[i].log)
  {
    StepBudget(w, legs[i].initial, legs[i].start, legs[i].log);
    ReplayInv(w, legs[i].initial, legs[i].start, legs[i].log);
    if i < |legs| - 1 { assert Resumes(w, legs[i], legs[i + 1]); }
  }

  lemma {:induction false} StepsFollow(w: World, legs: seq<Leg>, k: nat)
    requires Chain(w, legs) && k < |legs|
    ensures legs[k].start == 1 + TotalAsks(legs[..k])
  {
    if k > 0 {
      StepsFollow(w, legs, k - 1);
      LegFacts(w, legs, k - 1);
      assert legs[..k][..k - 1] == legs[..k - 1];
    }
  }

  lemma TranscriptResumes(w: World, leg: Leg, next: Leg)
    requires Resumes(w, leg, next) && Transcript(End(w, leg)) == leg.initial + Produced(w, leg.log)
    ensures Stored(next.initial) == Stored(leg.initial) + Stored(Produced(w, leg.log))
  {
    StoredForm(Transcript(End(w, leg)));
    StoredConcat(leg.initial, Produced(w, leg.log));
  }

  lemma LegResumes(w: World, legs: seq<Leg>, k: nat)
    requires Chain(w, legs) && 0 < k < |legs|
    ensures Stored(legs[k].initial) == Stored(legs[k - 1].initial) + Stored(Produced(w, legs[k - 1].log))
  {
    LegFacts(w, legs, k - 1);
    TranscriptResumes(w, legs[k - 1], legs[k]);
  }

  lemma TotalProducedGrows(w: World, legs: seq<Leg>, k: nat)
    requires 0 < k <= |legs|
    ensures TotalProduced(w, legs[..k]) == TotalProduced(w, legs[..k - 1]) + Stored(Produced(w, legs[k - 1].log))
  {
    assert legs[..k][..k - 1] == legs[..k - 1];
  }

  lemma JoinedAfter(before: seq<Message>, after: seq<Message>, start: seq<Message>, made: seq<Message>, more: seq<Message>)
    requires before == start + made && after == before + more
    ensures after == start + (made + more)
  {
  }

  lemma {:induction false} TranscriptsFollow(w: World, legs: seq<Leg>, k: nat)
    requires Chain(w, legs) && k < |legs|
    ensures Stored(legs[k].initial) == Stored(legs[0].initial) + TotalProduced(w, legs[..k])
  {
    if k > 0 {
      TranscriptsFollow(w, legs, k - 1);
      LegResumes(w, legs, k);
      TotalProducedGrows(w, legs, k);
      JoinedAfter(Stored(legs[k - 1].initial), Stored(legs[k].initial), Stored(legs[0].initial),
                  TotalProduced(w, legs[..k - 1]), Stored(Produced(w, legs[k - 1].log)));
    }
  }

  /** Before each session the steps used so far are exactly the calls made so far,
      and the transcript it starts from is everything produced so far. */
  lemma StartsWhereItStopped(w: World, legs: seq<Leg>, k: nat)
    requires Chain(w, legs) && k < |legs|
    ensures legs[k].start == 1 + TotalAsks(legs[..k])
    ensures Stored(legs[k].initial) == Stored(legs[0].initial) + TotalProduced(w, legs[..k])
  {
    StepsFollow(w, legs, k);
    TranscriptsFollow(w, legs, k);
  }

  /** The step ranges of a chain follow one another without gap or overlap, so the
      whole chain asks the model at most `maxSteps` times. */
  lemma ChainWithinBudget(w: World, legs: seq<Leg>)
    requires Chain(w, legs)
    ensures TotalAsks(legs) <= w.maxSteps
    ensures forall i | 0 <= i < |legs| - 1 :: legs[i + 1].start == legs[i].start + Asks(legs[i].log)
  {
    var n := |legs| - 1;
    StartsWhereItStopped(w, legs, n);
    forall i | 0 <= i < |legs| - 1 ensures legs[i + 1].start == legs[i].start + Asks(legs[i].log) { LegFacts(w, legs, i); }
    LegFacts(w, legs, n);
    if n > 0 { LegFacts(w, legs, n - 1); }
  }

  // ---- What a resumed session starts from ----

  function LastExecuted(log: seq<Event>): Option<Call> {
    if log == [] then None
    else if log[|log| - 1].Executed? then Some(log[|log| - 1].call)
    else LastExecuted(log[..|log| - 1])
  }

  ghost predicate RunsNext(s: Session, log: seq<Event>) {
    s.pc.Ran? || s.pc.Reported? || s.pc.Pausing? ==>
      s.next < |s.batch.calls| && LastExecuted(log) == Some(s.batch.calls[s.next])
  }

  lemma RunsNextStep(w: World, s: Session, log: seq<Event>, e: Event)
    requires Legal(w, s, e) && RunsNext(s, log)
    ensures RunsNext(After(w, s, e), log + [e])
  {
    assert (log + [e])[..|log|] == log;
  }

  lemma {:induction false} RunsNextAlways(w: World, s: Session, log: seq<Event>)
    requires LegalLog(w, s, log) && s.pc == AtModel
    ensures RunsNext(Replay(w, s, log), log)
  {
    if log != [] {
      var init, e := log[..|log| - 1], log[|log| - 1];
      RunsNextAlways(w, s, init);
      RunsNextStep(w, Replay(w, s, init), init, e);
      assert log == init + [e];
    }
  }

  lemma {:induction false} RepliesStay(log: seq<Event>, e: nat, a: nat)
    requires a < e <= |log| && forall j | e <= j < |log| :: !log[j].Replied?
    ensures RepliesSince(log, a) == RepliesSince(log[..e], a)
  {
    if e < |log| {
      RepliesStay(log[..|log| - 1], e, a);
      assert log[..|log| - 1][..e] == log[..e];
    } else {
      assert log[..e] == log;
    }
  }

  lemma {:induction false} ExecutedStays(log: seq<Event>, e: nat)
    requires e <= |log| && forall j | e <= j < |log| :: !log[j].Executed?
    ensures LastExecuted(log) == LastExecuted(log[..e])
  {
    if e < |log| {
      ExecutedStays(log[..|log| - 1], e);
      assert log[..|log| - 1][..e] == log[..e];
    } else {
      assert log[..e] == log;
    }
  }

  predicate Closing(e: Event) {
    e.Saved? || e.StoreFailed?
  }

  ghost predicate PausedBy(w: World, s0: Session, log: seq<Event>, k: nat)
    requires k <= |log|
  {
    LegalLog(w, s0, log[..k]) && Replay(w, s0, log[..k]).pc == Over(Paused)
  }

  ghost predicate PausesAt(w: World, s0: Session, log: seq<Event>, k: nat)
    requires k < |log|
  {
    log[k] == Ended(Paused) && LegalLog(w, s0, log[..k]) && Replay(w, s0, log[..k]).pc == Pausing
  }

  lemma PausedStep(w: World, s0: Session, log: seq<Event>, k: nat)
    requires k <= |log| && s0.pc == AtModel && PausedBy(w, s0, log, k)
    ensures k > 0 && (PausesAt(w, s0, log, k - 1) || (Closing(log[k - 1]) && PausedBy(w, s0, log, k - 1)))
  {
    if k > 0 { assert log[..k][..k - 1] == log[..k - 1]; }
  }

  /** Where a session paused; only saves and failing ones follow. */
  lemma {:induction false} PausedAt(w: World, s0: Session, log: seq<Event>, k: nat) returns (e: nat)
    requires k <= |log| && s0.pc == AtModel && PausedBy(w, s0, log, k)
    requires forall j | k <= j < |log| :: Closing(log[j])
    ensures e < |log| && PausesAt(w, s0, log, e) && forall j | e < j < |log| :: Closing(log[j])
  {
    PausedStep(w, s0, log, k);
    if PausesAt(w, s0, log, k - 1) { e := k - 1; } else { e := PausedAt(w, s0, log, k - 1); }
  }

  ghost predicate StoppedMidBatch(log: seq<Event>, a: nat)
    requires a < |log| && log[a].Answered?
  {
    var m, replies := log[a].m, RepliesSince(log, a);
    0 < |replies| <= |m.calls| && replies == CallIds(m)[..|replies|] &&
    LastExecuted(log) == Some(m.calls[|replies| - 1])
  }

  lemma PausingState(s: Session, log: seq<Event>)
    requires RepliedTo(s, log) && RunsNext(s, log) && s.pc == Pausing
    ensures s.answeredAt < |log| && log[s.answeredAt].Answered? && NoAnswerIn(log, s.answeredAt, |log|)
    ensures StoppedMidBatch(log, s.answeredAt)
  {
  }

  lemma PausingReplies(w: World, initial: seq<Message>, start: nat, log: seq<Event>) returns (a: nat)
    requires LegalLog(w, Begin(initial, start), log) && Replay(w, Begin(initial, start), log).pc == Pausing
    ensures a < |log| && log[a].Answered? && NoAnswerIn(log, a, |log|) && StoppedMidBatch(log, a)
  {
    ReplayInv(w, initial, start, log);
    RunsNextAlways(w, Begin(initial, start), log);
    PausingState(Replay(w, Begin(initial, start), log), log);
    a := Replay(w, Begin(initial, start), log).answeredAt;
  }

  predicate Quiet(e: Event) {
    !e.Answered? && !e.Replied? && !e.Executed?
  }

  lemma QuietAfter(log: seq<Event>, e: nat, a: nat)
    requires a < e <= |log| && log[a].Answered? && NoAnswerIn(log[..e], a, e) && StoppedMidBatch(log[..e], a)
    requires forall j | e <= j < |log| :: Quiet(log[j])
    ensures NoAnswerIn(log, a, |log|) && StoppedMidBatch(log, a)
  {
    RepliesStay(log, e, a);
    ExecutedStays(log, e);
    forall j | a < j < |log| ensures !log[j].Answered? {
      if j < e { assert log[..e][j] == log[j]; }
    }
  }

  /** A paused session has answered its last message's calls up to the one that ran
      last, which is the one it paused at. */
  lemma PausedReplies(w: World, initial: seq<Message>, start: nat, log: seq<Event>) returns (a: nat)
    requires LegalLog(w, Begin(initial, start), log) && Replay(w, Begin(initial, start), log).pc == Over(Paused)
    ensures a < |log| && log[a].Answered? && NoAnswerIn(log, a, |log|) && StoppedMidBatch(log, a)
  {
    assert log[..|log|] == log;
    var e := PausedAt(w, Begin(initial, start), log, |log|);
    a := PausingReplies(w, initial, start, log[..e]);
    QuietAfter(log, e, a);
  }

  /** The entry at `p` requests `ids`, and the last entries reply to the first `n`
      of them. */
  predicate AnsweredUpTo(t: seq<Message>, p: nat, ids: seq<string>, n: nat) {
    p + 1 + n == |t| && n <= |ids| && CallIds(t[p]) == ids &&
    forall i | 0 <= i < n :: t[p + 1 + i].toolCallId == ids[i]
  }

  /** The entry of the answer `m` is at `p`, and the entries after it are `replies`. */
  predicate Added(w: World, m: Message, made: seq<Message>, p: nat, replies: seq<string>) {
    |made| == p + 1 + |replies| && made[p] == Clean(w, m) &&
    forall i | 0 <= i < |replies| :: made[p + 1 + i].toolCallId == replies[i]
  }

  lemma AddedStep(w: World, m: Message, made: seq<Message>, p: nat, replies: seq<string>, e: Event)
    requires Added(w, m, made, p, replies) && !e.Answered?
    ensures Added(w, m, made + Entry(w, e), p, replies + if e.Replied? then [e.m.toolCallId] else [])
  {
  }

  /** What a log adds from its last answer on. */
  lemma {:induction false} AddedSince(w: World, log: seq<Event>, a: nat)
    requires a < |log| && log[a].Answered? && NoAnswerIn(log, a, |log|)
    ensures Added(w, log[a].m, Produced(w, log), |Produced(w, log[..a])|, RepliesSince(log, a))
  {
    var init := log[..|log| - 1];
    if a < |init| {
      AddedSince(w, init, a);
      assert init[..a] == log[..a];
      AddedStep(w, log[a].m, Produced(w, init), |Produced(w, log[..a])|, RepliesSince(init, a), log[|init|]);
    }
  }

  lemma AddedIsAnswered(w: World, initial: seq<Message>, made: seq<Message>, m: Message, p: nat, replies: seq<string>)
    requires Added(w, m, made, p, replies) && |replies| <= |m.calls| && replies == CallIds(m)[..|replies|]
    ensures AnsweredUpTo(Stored(initial + made), |initial| + p, CallIds(m), |replies|)
  {
    var t := Stored(initial + made);
    assert (initial + made)[|initial| + p] == made[p];
    assert CallIds(t[|initial| + p]) == CallIds(m);
    forall i | 0 <= i < |replies| ensures t[|initial| + p + 1 + i].toolCallId == CallIds(m)[i] {
      assert (initial + made)[|initial| + p + 1 + i] == made[p + 1 + i];
      assert CallIds(m)[..|replies|][i] == CallIds(m)[i];
    }
  }

  lemma StoppedIsAnswered(w: World, initial: seq<Message>, log: seq<Event>, a: nat) returns (n: nat)
    requires a < |log| && log[a].Answered? && NoAnswerIn(log, a, |log|) && StoppedMidBatch(log, a)
    ensures n < |log[a].m.calls| && LastExecuted(log) == Some(log[a].m.calls[n])
    ensures AnsweredUpTo(Stored(initial + Produced(w, log)), |initial| + |Produced(w, log[..a])|, CallIds(log[a].m), n + 1)
  {
    n := |RepliesSince(log, a)| - 1;
    AddedSince(w, log, a);
    AddedIsAnswered(w, initial, Produced(w, log), log[a].m, |Produced(w, log[..a])|, RepliesSince(log, a));
  }

  /** A paused session leaves the calls of its last message answered up to the one
      that ran last, which is the one it paused at. */
  lemma PausedTranscript(w: World, initial: seq<Message>, start: nat, log: seq<Event>) returns (a: nat, n: nat)
    requires LegalLog(w, Begin(initial, start), log) && Replay(w, Begin(initial, start), log).pc == Over(Paused)
    ensures a < |log| && log[a].Answered? && NoAnswerIn(log, a, |log|)
    ensures n < |log[a].m.calls| && LastExecuted(log) == Some(log[a].m.calls[n])
    ensures AnsweredUpTo(Stored(initial + Produced(w, log)), |initial| + |Produced(w, log[..a])|, CallIds(log[a].m), n + 1)
  {
    a := PausedReplies(w, initial, start, log);
    n := StoppedIsAnswered(w, initial, log, a);
  }

  /** The next session starts from a transcript in which the calls of the last
      request are answered up to the one the pause came at, and its first request to
      the model carries that. So all of them are answered exactly when the pause came
      at the last. */
  lemma ResumedAnswers(w: World, legs: seq<Leg>, i: nat) returns (a: nat, n: nat, p: nat)
    requires Chain(w, legs) && i < |legs| - 1
    ensures a < |legs[i].log| && legs[i].log[a].Answered? && NoAnswerIn(legs[i].log, a, |legs[i].log|)
    ensures n < |legs[i].log[a].m.calls| && LastExecuted(legs[i].log) == Some(legs[i].log[a].m.calls[n])
    ensures AnsweredUpTo(legs[i + 1].initial, p, CallIds(legs[i].log[a].m), n + 1)
    ensures AnsweredUpTo(legs[i + 1].initial, p, CallIds(legs[i].log[a].m), |legs[i].log[a].m.calls|) <==>
            n == |legs[i].log[a].m.calls| - 1
    ensures legs[i + 1].log != [] && legs[i + 1].log[0].Asked? ==> CarriesAll(w, legs[i + 1].log[0].request, legs[i + 1].initial)
  {
    LegFacts(w, legs, i);
    assert Resumes(w, legs[i], legs[i + 1]);
    a, n, p := PausedLeg(w, legs[i], legs[i + 1]);
    FirstCarries(w, legs[i + 1]);
  }

  lemma PausedLeg(w: World, leg: Leg, next: Leg) returns (a: nat, n: nat, p: nat)
    requires LegalLog(w, Begin(leg.initial, leg.start), leg.log) && End(w, leg).pc == Over(Paused)
    requires Resumes(w, leg, next) && Transcript(End(w, leg)) == leg.initial + Produced(w, leg.log)
    ensures a < |leg.log| && leg.log[a].Answered? && NoAnswerIn(leg.log, a, |leg.log|)
    ensures n < |leg.log[a].m.calls| && LastExecuted(leg.log) == Some(leg.log[a].m.calls[n])
    ensures AnsweredUpTo(next.initial, p, CallIds(leg.log[a].m), n + 1)
  {
    a, n := PausedTranscript(w, leg.initial, leg.start, leg.log);
    p := |leg.initial| + |Produced(w, leg.log[..a])|;
  }

  lemma FirstCarries(w: World, leg: Leg)
    requires LegalLog(w, Begin(leg.initial, leg.start), leg.log)
    ensures leg.log != [] && leg.log[0].Asked? ==> CarriesAll(w, leg.log[0].request, leg.initial)
  {
    if leg.log != [] {
      TranscriptExact(w, leg.initial, leg.start, leg.log, 0);
      assert leg.initial + Produced(w, leg.log[..0]) == leg.initial;
    }
  }

  // ---- The recorded next step ----

  /** Outside a chain the next step is wrong exactly when a later session ends
      before its first answer: it falls back to 1. */
  lemma NextStepFallsBack(w: World, leg: Leg)
    requires LegalLog(w, Begin(leg.initial, leg.start), leg.log)
    ensures End(w, leg).steps + 1 == leg.start + Answers(leg.log) <==> Answers(leg.log) > 0 || leg.start == 1
    ensures Answers(leg.log) == 0 ==> End(w, leg).steps + 1 == 1
  {
    StepBudget(w, leg.initial, leg.start, leg.log);
  }

  /** Such a session: resumed at any later step, its first request fails. */
  lemma FirstRequestFails(w: World, initial: seq<Message>, start: nat)
    requires 2 <= start <= w.maxSteps
    ensures var log := [Asked(initial), ModelFailed, Ended(Failed)];
            LegalLog(w, Begin(initial, start), log) && End(w, Leg(initial, start, log)).steps + 1 == 1 != start + Answers(log)
  {
    var s := Begin(initial, start);
    FirstRequest(w, initial, start);
    ReplayOne(w, s, [Asked(initial)], ModelFailed);
    assert [Asked(initial)] + [ModelFailed] == [Asked(initial), ModelFailed];
    ReplayOne(w, s, [Asked(initial), ModelFailed], Ended(Failed));
    var log := [Asked(initial), ModelFailed, Ended(Failed)];
    assert [Asked(initial), ModelFailed] + [Ended(Failed)] == log;
    assert log[..2] == [Asked(initial), ModelFailed] && log[..2][..1] == [Asked(initial)] && log[..1][..0] == [];
  }

  lemma FirstRequest(w: World, initial: seq<Message>, start: nat)
    requires start <= w.maxSteps
    ensures LegalLog(w, Begin(initial, start), [Asked(initial)])
    ensures Replay(w, Begin(initial, start), [Asked(initial)]).pc == Awaiting
    ensures Replay(w, Begin(initial, start), [Asked(initial)]).steps == 0
  {
    assert Transcript(Begin(initial, start)) == initial;
    assert CarriesAll(w, initial, initial);
    ReplayOne(w, Begin(initial, start), [], Asked(initial));
    assert [] + [Asked(initial)] == [Asked(initial)];
  }

  // ---- The workers an operation acts on ----

  /** Trimmed, non-empty, first occurrences in order. */
  function Distinct(ids: seq<string>): seq<string> {
    if ids == [] then []
    else
      var rest, id := Distinct(ids[..|ids| - 1]), Trim(ids[|ids| - 1]);
      if id == "" || id in rest then rest else rest + [id]
  }

  function Requested(t: Targets): seq<string> {
    (if t.workerId != "" then [t.workerId] else []) + t.workerIds
  }

  method CollectIds(t: Targets) returns (result: Option<seq<string>>)
    ensures result == if Distinct(Requested(t)) == [] then None else Some(Distinct(Requested(t)))
  {
    var ids := t.workerIds;
    if t.workerId != "" { ids := [t.workerId] + ids; }
    assert ids == Requested(t);
    if |ids| == 0 { return None; }
    var seen: set<string> := {};
    var unique: seq<string> := [];
    for i := 0 to |ids|
      invariant unique == Distinct(ids[..i]) && forall id :: id in seen <==> id in unique
    {
      var id := Trim(ids[i]);
      assert ids[..i + 1][..i] == ids[..i];
      if id != "" && id !in seen {
        seen, unique := seen + {id}, unique + [id];
      }
    }
    assert ids[..|ids|] == ids;
    result := if |unique| == 0 then None else Some(unique);
  }

  lemma {:induction false} DistinctIds(ids: seq<string>)
    ensures forall i, j | 0 <= i < j < |Distinct(ids)| :: Distinct(ids)[i] != Distinct(ids)[j]
    ensures forall id | id in Distinct(ids) :: id != "" && exists raw | raw in ids :: Trim(raw) == id
    ensures forall raw | raw in ids && Trim(raw) != "" :: Trim(raw) in Distinct(ids)
  {
    if ids != [] {
      var init, last := ids[..|ids| - 1], ids[|ids| - 1];
      DistinctIds(init);
      assert ids == init + [last];
      forall id | id in Distinct(ids)
        ensures id != "" && exists raw | raw in ids :: Trim(raw) == id
      {
        if id in Distinct(init) {
          var raw :| raw in init && Trim(raw) == id;
          assert raw in ids;
        } else {
          assert last in ids && Trim(last) == id;
        }
      }
    }
  }

  /** The collected ids are exactly the trimmed non-blank requests, the single worker
      of the request first. */
  lemma CollectsRequests(t: Targets)
    ensures var ids := Distinct(Requested(t));
            (forall id :: id in ids <==> id != "" && (Trim(t.workerId) == id || exists raw | raw in t.workerIds :: Trim(raw) == id)) &&
            (Trim(t.workerId) != "" ==> ids != [] && ids[0] == Trim(t.workerId))
  {
    DistinctIds(Requested(t));
    var ids := Distinct(Requested(t));
    forall id ensures id in ids <==> id != "" && (Trim(t.workerId) == id || exists raw | raw in t.workerIds :: Trim(raw) == id) {
      if id in ids {
        var raw :| raw in Requested(t) && Trim(raw) == id;
      }
      if id != "" && Trim(t.workerId) == id {
        assert t.workerId in Requested(t);
      }
      if id != "" && exists raw | raw in t.workerIds :: Trim(raw) == id {
        var raw :| raw in t.workerIds && Trim(raw) == id;
        assert raw in Requested(t);
      }
    }
    if Trim(t.workerId) != "" { FirstDistinct([t.workerId] + t.workerIds); }
  }

  lemma {:induction false} FirstDistinct(ids: seq<string>)
    requires ids != [] && Trim(ids[0]) != ""
    ensures Distinct(ids) != [] && Distinct(ids)[0] == Trim(ids[0])
  {
    if |ids| > 1 {
      FirstDistinct(ids[..|ids| - 1]);
    } else {
      assert ids[..0] == [];
    }
  }

  /** Every worker an executed operation acts on is the trimmed form of an id that
      an earlier list_workers payload of the session contains, and none is acted on
      twice. */
  lemma ActsOnDiscovered(w: World, leg: Leg, n: nat)
    requires LegalLog(w, Begin(leg.initial, leg.start), leg.log) && n < |leg.log|
    requires leg.log[n].Executed? && leg.log[n].call.name == "create_module_operation"
    ensures w.parse(leg.log[n].call.arguments).Some?
    ensures var acted := Distinct(Requested(w.parse(leg.log[n].call.arguments).value));
            (forall i, j | 0 <= i < j < |acted| :: acted[i] != acted[j]) &&
            forall id | id in acted :: exists raw | raw in Requested(w.parse(leg.log[n].call.arguments).value) ::
              Trim(raw) == id && raw in Discovered(leg.log[..n])
  {
    TargetsDiscovered(w, leg.initial, leg.start, leg.log, n);
    var t := w.parse(leg.log[n].call.arguments).value;
    DistinctIds(Requested(t));
    assert forall raw | raw in Requested(t) :: raw in TargetIds(t);
  }
}
