/** The event log of agent runs (internal/infrastructure/db/memory.go) and its
    replay to clients that reconnect with the id of the last event they saw. */
module EventReplay {

  datatype Event = Event(id: nat, runId: string, data: string)

  type Log = map<string, seq<Event>>

  function EventsOf(log: Log, run: string): seq<Event> {
    if run in log then log[run] else []
  }

  /** The events with a greater id, in stored order. */
  function Later(events: seq<Event>, after: int): seq<Event> {
    if events == [] then []
    else
      var before := Later(events[..|events| - 1], after);
      if events[|events| - 1].id > after then before + [events[|events| - 1]] else before
  }

  class EventStore {
    var log: Log
    var counter: nat

    constructor ()
      ensures log == map[] && counter == 0
    {
      log, counter := map[], 0;
    }

    method AddAgentEvent(run: string, data: string) returns (event: Event)
      modifies this
      ensures event == Event(old(counter) + 1, run, data) && counter == event.id
      ensures log == old(log)[run := EventsOf(old(log), run) + [event]]
      ensures State(log, counter, []) == Apply(State(old(log), old(counter), []), run, Add(run, data))
    {
      counter := counter + 1;
      event := Event(counter, run, data);
      log := log[run := EventsOf(log, run) + [event]];
    }

    method ListAgentEvents(run: string, after: int) returns (out: seq<Event>)
      ensures out == Later(EventsOf(log, run), after)
      ensures forall e :: e in out <==> e in EventsOf(log, run) && e.id > after
    {
      out := [];
      var events := EventsOf(log, run);
      for k := 0 to |events|
        invariant out == Later(events[..k], after)
        invariant forall e :: e in out <==> e in events[..k] && e.id > after
      {
        assert events[..k + 1][..k] == events[..k];
        if events[k].id > after { out := out + [events[k]]; }
      }
      assert events[..|events|] == events;
    }
  }

  // ---- Clients that lose their connection ----

  /** An event is added to a run, or the client reconnects with its last id and
      receives the first `count` events it is sent before the line drops. */
  datatype Action = Add(run: string, data: string) | Reconnect(count: nat)

  datatype State = State(log: Log, counter: nat, received: seq<Event>)

  function Cursor(received: seq<Event>): nat {
    if received == [] then 0 else received[|received| - 1].id
  }

  function Page(s: State, run: string): seq<Event> {
    Later(EventsOf(s.log, run), Cursor(s.received))
  }

  function Apply(s: State, run: string, a: Action): State {
    match a
    case Add(r, data) =>
      s.(counter := s.counter + 1, log := s.log[r := EventsOf(s.log, r) + [Event(s.counter + 1, r, data)]])
    case Reconnect(count) =>
      s.(received := s.received + Page(s, run)[..if count <= |Page(s, run)| then count else |Page(s, run)|])
  }

  function Exec(run: string, actions: seq<Action>): State {
    if actions == [] then State(map[], 0, [])
    else Apply(Exec(run, actions[..|actions| - 1]), run, actions[|actions| - 1])
  }

  predicate Increasing(events: seq<Event>, bound: nat) {
    (forall k :: 0 <= k < |events| ==> 0 < events[k].id <= bound) &&
    forall j, k :: 0 <= j < k < |events| ==> events[j].id < events[k].id
  }

  lemma {:induction false} LaterIsRest(events: seq<Event>, k: nat, bound: nat)
    requires k <= |events| && Increasing(events, bound)
    ensures Later(events, Cursor(events[..k])) == events[k..]
  {
    if k < |events| {
      var init := events[..|events| - 1];
      LaterIsRest(init, k, bound);
      assert init[..k] == events[..k];
      assert events[k..] == init[k..] + [events[|events| - 1]];
    } else {
      assert events[..k] == events;
      NoneLater(events, |events|, Cursor(events));
    }
  }

  lemma {:induction false} NoneLater(events: seq<Event>, n: nat, after: int)
    requires n <= |events| && forall j :: 0 <= j < n ==> events[j].id <= after
    ensures Later(events[..n], after) == []
  {
    if n > 0 {
      assert events[..n][..n - 1] == events[..n - 1];
      NoneLater(events, n - 1, after);
    }
  }

  predicate Faithful(s: State, run: string) {
    (forall r | r in s.log :: Increasing(s.log[r], s.counter)) && s.received <= EventsOf(s.log, run)
  }

  lemma ReconnectExtends(s: State, run: string)
    requires Faithful(s, run)
    ensures s.received + Page(s, run) == EventsOf(s.log, run)
  {
    var events := EventsOf(s.log, run);
    LaterIsRest(events, |s.received|, s.counter);
    assert events[..|s.received|] == s.received;
  }

  lemma AddKeeps(s: State, run: string, r: string, data: string)
    requires Faithful(s, run)
    ensures Faithful(Apply(s, run, Add(r, data)), run)
  {
    var t := Apply(s, run, Add(r, data));
    forall other | other in t.log ensures Increasing(t.log[other], t.counter) {
      if other != r { assert Increasing(s.log[other], s.counter); }
    }
    assert EventsOf(s.log, run) <= EventsOf(t.log, run);
  }

  lemma ReconnectKeeps(s: State, run: string, count: nat)
    requires Faithful(s, run)
    ensures Faithful(Apply(s, run, Reconnect(count)), run)
  {
    ReconnectExtends(s, run);
  }

  lemma {:induction false} AlwaysFaithful(run: string, actions: seq<Action>)
    ensures Faithful(Exec(run, actions), run)
  {
    if actions != [] {
      var s, last := Exec(run, actions[..|actions| - 1]), actions[|actions| - 1];
      AlwaysFaithful(run, actions[..|actions| - 1]);
      match last {
        case Add(r, data) => AddKeeps(s, run, r, data);
        case Reconnect(count) => ReconnectKeeps(s, run, count);
      }
    }
  }

  /** Whatever is added and however often the connection drops, the client has
      received a prefix of the run's log: no event twice, none skipped, and a
      reconnection that is not cut short delivers all the rest. */
  lemma NoEventLostOrRepeated(run: string, actions: seq<Action>)
    ensures Faithful(Exec(run, actions), run)
    ensures Exec(run, actions).received + Page(Exec(run, actions), run) == EventsOf(Exec(run, actions).log, run)
  {
    AlwaysFaithful(run, actions);
    ReconnectExtends(Exec(run, actions), run);
  }
}
