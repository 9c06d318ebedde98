/** Runs whose sessions crash or fail and are executed again: what they may ask, what
    they lose, and that the bound is reached. */
module AgentRecovery {
  import opened Basics
  import opened Sanitize
  import opened AgentProtocol
  import opened AgentTheorems
  import opened AgentPayload
  import opened AgentChain

  /** How one session leads to the next: it paused; the server went down at any point
      of its log and executed the run again; or it failed with its last save done
      and the run was executed again when a job of it was approved. */
  datatype Link = Pause | Crash | Failure

  ghost predicate Follows(w: World, leg: Leg, next: Leg, link: Link) {
    match link
    case Pause => End(w, leg).pc == Over(Paused) && Resumes(w, leg, next)
    case Failure => End(w, leg).pc == Over(Failed) && Resumes(w, leg, next)
    case Crash => next.start == leg.start && next.initial == Durable(leg.initial, leg.log)
  }

  ghost predicate LegOk(w: World, leg: Leg) {
    LegalLog(w, Begin(leg.initial, leg.start), leg.log)
  }

  ghost predicate LinkOk(w: World, legs: seq<Leg>, links: seq<Link>, i: nat)
    requires i < |links| < |legs|
  {
    Follows(w, legs[i], legs[i + 1], links[i])
  }

  /** The sessions of one run, in order. */
  ghost predicate Recovery(w: World, legs: seq<Leg>, links: seq<Link>) {
    |legs| == |links| + 1 && legs[0].start == 1 &&
    (forall leg | leg in legs :: LegOk(w, leg)) &&
    (forall i | 0 <= i < |links| :: LinkOk(w, legs, links, i))
  }

  function AsksBefore(legs: seq<Leg>, k: nat): nat
    requires k <= |legs|
  {
    if k == 0 then 0 else AsksBefore(legs, k - 1) + Asks(legs[k - 1].log)
  }

  /** Links after which steps are counted again that were counted before: a crash,
      and a failure without any answer, after which the run starts at step 1. */
  predicate StartsOver(leg: Leg, link: Link) {
    link.Crash? || (link.Failure? && Answers(leg.log) == 0)
  }

  function Restarts(legs: seq<Leg>, links: seq<Link>, k: nat): nat
    requires k <= |links| < |legs|
  {
    if k == 0 then 0 else Restarts(legs, links, k - 1) + if StartsOver(legs[k - 1], links[k - 1]) then 1 else 0
  }

  /** Failures after an answer: their last request may be left without one. */
  function LateFailures(legs: seq<Leg>, links: seq<Link>, k: nat): nat
    requires k <= |links| < |legs|
  {
    if k == 0 then 0
    else LateFailures(legs, links, k - 1) + if links[k - 1].Failure? && Answers(legs[k - 1].log) > 0 then 1 else 0
  }

  function Crashes(links: seq<Link>, k: nat): nat
    requires k <= |links|
  {
    if k == 0 then 0 else Crashes(links, k - 1) + if links[k - 1].Crash? then 1 else 0
  }

  // ---- What a run may ask ----

  function LinkCost(w: World, leg: Leg, link: Link): nat {
    if StartsOver(leg, link) then w.maxSteps else if link.Failure? then 1 else 0
  }

  function Allowance(w: World, legs: seq<Leg>, links: seq<Link>, k: nat): nat
    requires k <= |links| < |legs|
  {
    if k == 0 then 0 else Allowance(w, legs, links, k - 1) + LinkCost(w, legs[k - 1], links[k - 1])
  }

  lemma {:induction false} AllowanceIs(w: World, legs: seq<Leg>, links: seq<Link>, k: nat)
    requires k <= |links| < |legs|
    ensures Allowance(w, legs, links, k) == Restarts(legs, links, k) * w.maxSteps + LateFailures(legs, links, k)
  {
    if k > 0 {
      AllowanceIs(w, legs, links, k - 1);
      assert (Restarts(legs, links, k - 1) + 1) * w.maxSteps == Restarts(legs, links, k - 1) * w.maxSteps + w.maxSteps;
    }
  }

  lemma LegBound(w: World, leg: Leg)
    requires LegOk(w, leg) && 1 <= leg.start <= w.maxSteps + 1
    ensures leg.start + Asks(leg.log) <= w.maxSteps + 1
  {
    StepBudget(w, leg.initial, leg.start, leg.log);
  }

  lemma LinkSteps(w: World, leg: Leg, next: Leg, link: Link)
    requires LegOk(w, leg) && 1 <= leg.start <= w.maxSteps + 1 && Follows(w, leg, next, link)
    ensures 1 <= next.start <= w.maxSteps + 1
    ensures Asks(leg.log) + leg.start <= next.start + LinkCost(w, leg, link)
  {
    StepBudget(w, leg.initial, leg.start, leg.log);
    LegBound(w, leg);
  }

  lemma {:induction false} StartsAndAsks(w: World, legs: seq<Leg>, links: seq<Link>, k: nat)
    requires Recovery(w, legs, links) && k < |legs|
    ensures 1 <= legs[k].start <= w.maxSteps + 1
    ensures AsksBefore(legs, k) + 1 <= legs[k].start + Allowance(w, legs, links, k)
  {
    if k > 0 {
      StartsAndAsks(w, legs, links, k - 1);
      assert LinkOk(w, legs, links, k - 1) && legs[k - 1] in legs;
      LinkSteps(w, legs[k - 1], legs[k], links[k - 1]);
    }
  }

  /** A run asks the model at most `maxSteps` times, `maxSteps` times more for every
      crash and every failure without an answer, and once more for every other
      failure. */
  lemma RecoveryBudget(w: World, legs: seq<Leg>, links: seq<Link>)
    requires Recovery(w, legs, links)
    ensures AsksBefore(legs, |legs|) <=
            w.maxSteps + Restarts(legs, links, |links|) * w.maxSteps + LateFailures(legs, links, |links|)
  {
    var n := |links|;
    StartsAndAsks(w, legs, links, n);
    assert legs[n] in legs;
    LegBound(w, legs[n]);
    AllowanceIs(w, legs, links, n);
  }

  // ---- What a run loses ----

  lemma StoredTwice(t: seq<Message>)
    ensures Stored(Stored(t)) == Stored(t)
  {
    StoredForm(t);
  }

  /** A pause and a failure hand on everything, and a crash everything but at most
      the newest produced message. */
  lemma LinkKeeps(w: World, leg: Leg, next: Leg, link: Link)
    requires LegOk(w, leg) && Follows(w, leg, next, link)
    ensures var produced := Produced(w, leg.log);
            Stored(next.initial) == Stored(leg.initial + produced) ||
            (link.Crash? && produced != [] && Stored(next.initial) == Stored(leg.initial + produced[..|produced| - 1]))
  {
    var produced := Produced(w, leg.log);
    if link.Crash? {
      DurableLagsByOne(w, leg.initial, leg.start, leg.log, |leg.log|);
      assert leg.log[..|leg.log|] == leg.log;
      StoredTwice(leg.initial + produced);
      if produced != [] { StoredTwice(leg.initial + produced[..|produced| - 1]); }
    } else {
      ReplayInv(w, leg.initial, leg.start, leg.log);
      StoredTwice(leg.initial + produced);
    }
  }

  function ProducedBefore(w: World, legs: seq<Leg>, k: nat): nat
    requires k <= |legs|
  {
    if k == 0 then 0 else ProducedBefore(w, legs, k - 1) + |Produced(w, legs[k - 1].log)|
  }

  lemma {:induction false} LossesSoFar(w: World, legs: seq<Leg>, links: seq<Link>, k: nat)
    requires Recovery(w, legs, links) && k < |legs|
    ensures |legs[0].initial| + ProducedBefore(w, legs, k) <= |legs[k].initial| + Crashes(links, k)
  {
    if k > 0 {
      LossesSoFar(w, legs, links, k - 1);
      assert LinkOk(w, legs, links, k - 1) && legs[k - 1] in legs;
      LinkKeeps(w, legs[k - 1], legs[k], links[k - 1]);
      assert |Stored(legs[k].initial)| == |legs[k].initial|;
    }
  }

  /** So what the last session starts from lacks at most one produced message per
      crash of everything that was produced before. */
  lemma CrashesLoseOneEach(w: World, legs: seq<Leg>, links: seq<Link>)
    requires Recovery(w, legs, links)
    ensures |legs[0].initial| + ProducedBefore(w, legs, |links|) <= |legs[|links|].initial| + Crashes(links, |links|)
  {
    LossesSoFar(w, legs, links, |links|);
  }

  // ---- The bound is reached ----

  const CALL := Call("c", "list_workers", "")
  const ANSWER := Message("assistant", "", "", [CALL])

  lemma Note(w: World, s: Session, log: seq<Event>, e: Event) returns (longer: seq<Event>)
    requires LegalLog(w, s, log) && Legal(w, Replay(w, s, log), e)
    ensures longer == log + [e] && LegalLog(w, s, longer) && Replay(w, s, longer) == After(w, Replay(w, s, log), e)
    ensures Asks(longer) == Asks(log) + if e.Asked? then 1 else 0
  {
    longer := log + [e];
    ReplayOne(w, s, log, e);
    assert longer[..|log|] == log;
  }

  lemma AskAndSave(w: World, s0: Session, log0: seq<Event>) returns (log: seq<Event>)
    requires "list_workers" in w.tools && LegalLog(w, s0, log0)
    requires Replay(w, s0, log0).pc == AtModel && Replay(w, s0, log0).step <= w.maxSteps
    ensures LegalLog(w, s0, log) && Asks(log) == Asks(log0) + 1
    ensures var s, t := Replay(w, s0, log), Replay(w, s0, log0);
            s.pc == AtCall && s.step == t.step && s.batch == ANSWER && s.next == 0
  {
    var t := Transcript(Replay(w, s0, log0));
    log := Note(w, s0, log0, Asked(t));
    log := Note(w, s0, log, Answered(ANSWER));
    log := Note(w, s0, log, Saved(Transcript(Replay(w, s0, log))));
  }

  lemma OneStep(w: World, s0: Session, log0: seq<Event>) returns (log: seq<Event>)
    requires "list_workers" in w.tools && LegalLog(w, s0, log0)
    requires Replay(w, s0, log0).pc == AtModel && Replay(w, s0, log0).step <= w.maxSteps
    ensures LegalLog(w, s0, log) && Asks(log) == Asks(log0) + 1
    ensures Replay(w, s0, log).pc == AtModel && Replay(w, s0, log).step == Replay(w, s0, log0).step + 1
  {
    log := AskAndSave(w, s0, log0);
    log := Note(w, s0, log, RowCreated("c"));
    var payload := PayloadOf(w, Other(""), None);
    NothingWaits(w);
    log := Note(w, s0, log, Executed(CALL, true, payload));
    log := ReplyAndSave(w, s0, log, payload);
  }

  lemma NothingWaits(w: World)
    ensures Delivers(w, true, PayloadOf(w, Other(""), None)) && !NeedsApproval(PayloadOf(w, Other(""), None))
  {
    PausesExactly(w, Other(""), None);
  }

  lemma ReplyAndSave(w: World, s0: Session, log0: seq<Event>, payload: Payload) returns (log: seq<Event>)
    requires LegalLog(w, s0, log0) && Replay(w, s0, log0).pc == Ran(payload) && !NeedsApproval(payload)
    requires Replay(w, s0, log0).batch == ANSWER && Replay(w, s0, log0).next == 0
    ensures LegalLog(w, s0, log) && Asks(log) == Asks(log0)
    ensures Replay(w, s0, log).pc == AtModel && Replay(w, s0, log).step == Replay(w, s0, log0).step + 1
  {
    log := Note(w, s0, log0, Event.Replied(ToolReply(w, CALL, payload)));
    log := Note(w, s0, log, Saved(Transcript(Replay(w, s0, log))));
  }

  lemma {:induction false} Steps(w: World, initial: seq<Message>, n: nat) returns (log: seq<Event>)
    requires "list_workers" in w.tools && n <= w.maxSteps
    ensures LegalLog(w, Begin(initial, 1), log) && Asks(log) == n
    ensures Replay(w, Begin(initial, 1), log).pc == AtModel && Replay(w, Begin(initial, 1), log).step == n + 1
  {
    log := [];
    if n > 0 {
      log := Steps(w, initial, n - 1);
      log := OneStep(w, Begin(initial, 1), log);
    }
  }

  /** For every step limit and every number of crashes some run reaches the bound. */
  lemma {:induction false} BudgetReached(w: World, initial: seq<Message>, crashes: nat) returns (legs: seq<Leg>, links: seq<Link>)
    requires "list_workers" in w.tools
    ensures Recovery(w, legs, links) && |links| == crashes && forall i | 0 <= i < crashes :: links[i] == Crash
    ensures legs[|links|].start == 1 && Restarts(legs, links, |links|) == crashes
    ensures AsksBefore(legs, |legs|) == w.maxSteps + crashes * w.maxSteps
  {
    if crashes == 0 {
      var log := Steps(w, initial, w.maxSteps);
      legs, links := [Leg(initial, 1, log)], [];
      assert AsksBefore(legs, 1) == w.maxSteps;
    } else {
      var legs0, links0 := BudgetReached(w, initial, crashes - 1);
      var last := legs0[|links0|];
      var again := Durable(last.initial, last.log);
      var log := Steps(w, again, w.maxSteps);
      legs, links := legs0 + [Leg(again, 1, log)], links0 + [Crash];
      LongerRecovery(w, legs0, links0, Leg(again, 1, log));
      LongerCounts(legs0, links0, Leg(again, 1, log));
      assert crashes * w.maxSteps == (crashes - 1) * w.maxSteps + w.maxSteps;
    }
  }

  lemma {:induction false} SamePrefix(legs: seq<Leg>, links: seq<Link>, more: seq<Leg>, moreLinks: seq<Link>, k: nat)
    requires k <= |links| < |legs| && legs <= more && links <= moreLinks && |moreLinks| < |more|
    ensures AsksBefore(more, k) == AsksBefore(legs, k) && Restarts(more, moreLinks, k) == Restarts(legs, links, k)
  {
    if k > 0 {
      SamePrefix(legs, links, more, moreLinks, k - 1);
      assert more[k - 1] == legs[k - 1] && moreLinks[k - 1] == links[k - 1];
    }
  }

  lemma LongerRecovery(w: World, legs: seq<Leg>, links: seq<Link>, next: Leg)
    requires Recovery(w, legs, links) && LegOk(w, next) && Follows(w, legs[|links|], next, Crash)
    ensures Recovery(w, legs + [next], links + [Crash])
  {
    var more, moreLinks, n := legs + [next], links + [Crash], |links|;
    forall leg | leg in more ensures LegOk(w, leg) {}
    forall i | 0 <= i < |moreLinks| ensures LinkOk(w, more, moreLinks, i) {
      if i < n {
        assert LinkOk(w, legs, links, i);
        assert more[i] == legs[i] && more[i + 1] == legs[i + 1] && moreLinks[i] == links[i];
      } else {
        assert more[i] == legs[n] && more[i + 1] == next && moreLinks[i] == Crash;
      }
    }
  }

  lemma LongerCounts(legs: seq<Leg>, links: seq<Link>, next: Leg)
    requires |legs| == |links| + 1
    ensures AsksBefore(legs + [next], |legs| + 1) == AsksBefore(legs, |legs|) + Asks(next.log)
    ensures Restarts(legs + [next], links + [Crash], |links| + 1) == Restarts(legs, links, |links|) + 1
  {
    var more, moreLinks, n := legs + [next], links + [Crash], |links|;
    SamePrefix(legs, links, more, moreLinks, n);
    assert more[n] == legs[n] && more[n + 1] == next && moreLinks[n] == Crash;
  }
}
