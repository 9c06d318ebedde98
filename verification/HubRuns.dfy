/** All runs of the hub: any number of streams connect, reconnect, receive and
    unregister late while others push. Stream and channel have one number, the
    position in the order of registration. */
module HubRuns {
  import opened Hub

  /** A stream serves its channel, then has left its loop, then has run its
      deferred unregister. */
  datatype Phase = Serving | Leaving | Gone

  datatype Event =
    | Registered(id: string, c: nat)
    | Sent(c: nat, m: Envelope)
    | Taken(c: nat, m: Envelope)
    | Closed(c: nat)

  datatype State = State(h: HubState, phases: seq<Phase>, log: seq<Event>)

  datatype Label = Connect(id: string) | PushTo(id: string, m: Envelope) | Take(c: nat) | Leave(c: nat) | Unregister(c: nat)

  const INITIAL := State(HubState(map[], []), [], [])

  ghost predicate Shape(s: State) {
    Mapped(s.h) && |s.phases| == |s.h.chans|
  }

  predicate Enabled(s: State, l: Label)
    requires |s.phases| == |s.h.chans|
  {
    match l
    case Connect(_) => true
    case PushTo(_, _) => true
    case Take(c) => c < |s.phases| && s.phases[c] == Serving && s.h.chans[c].buf != []
    case Leave(c) => c < |s.phases| && s.phases[c] == Serving
    case Unregister(c) => c < |s.phases| && s.phases[c] == Leaving
  }

  ghost function Apply(s: State, l: Label): (t: State)
    requires Shape(s) && Enabled(s, l)
    ensures Shape(t)
  {
    match l
    case Connect(id) =>
      RegisterKeepsMapped(s.h, id);
      var log := if id in s.h.workers then s.log + [Closed(s.h.workers[id])] else s.log;
      State(RegisterIn(s.h, id), s.phases + [Serving], log + [Registered(id, |s.h.chans|)])
    case PushTo(id, m) =>
      PushKeepsMapped(s.h, id, m);
      State(PushIn(s.h, id, m), s.phases, if Accepts(s.h, id) then s.log + [Sent(s.h.workers[id], m)] else s.log)
    case Take(c) =>
      TakeKeepsMapped(s.h, c);
      State(TakeFrom(s.h, c), s.phases, s.log + [Taken(c, s.h.chans[c].buf[0])])
    case Leave(c) => s.(phases := s.phases[c := Leaving])
    case Unregister(c) =>
      var id := s.h.chans[c].owner;
      UnregisterKeepsMapped(s.h, id, c);
      var log := if id in s.h.workers && s.h.workers[id] == c then s.log + [Closed(c)] else s.log;
      State(UnregisterIn(s.h, id, c), s.phases[c := Gone], log)
  }

  ghost predicate Legal(ls: seq<Label>)
    decreases |ls|, 0
  {
    ls == [] || (Legal(ls[..|ls| - 1]) && Enabled(Exec(ls[..|ls| - 1]), ls[|ls| - 1]))
  }

  ghost function Exec(ls: seq<Label>): (s: State)
    requires Legal(ls)
    ensures Shape(s)
    decreases |ls|, 1
  {
    if ls == [] then INITIAL else Apply(Exec(ls[..|ls| - 1]), ls[|ls| - 1])
  }

  // ---- What the log says about one channel ----

  function SentTo(log: seq<Event>, c: nat): seq<Envelope> {
    if log == [] then []
    else
      var e := log[|log| - 1];
      SentTo(log[..|log| - 1], c) + if e.Sent? && e.c == c then [e.m] else []
  }

  function TakenFrom(log: seq<Event>, c: nat): seq<Envelope> {
    if log == [] then []
    else
      var e := log[|log| - 1];
      TakenFrom(log[..|log| - 1], c) + if e.Taken? && e.c == c then [e.m] else []
  }

  predicate ClosedOnce(log: seq<Event>) {
    forall i, j | 0 <= i < j < |log| && log[i].Closed? && log[j].Closed? :: log[i].c != log[j].c
  }

  predicate NoSendAfterClose(log: seq<Event>) {
    forall i, j | 0 <= i < j < |log| && log[i].Closed? && log[j].Sent? :: log[i].c != log[j].c
  }

  // ---- Invariants ----

  predicate Later(h: HubState, c: nat)
    requires c < |h.chans|
  {
    exists d :: c < d < |h.chans| && h.chans[d].owner == h.chans[c].owner
  }

  ghost predicate OpenIsMapped(h: HubState) {
    forall c | 0 <= c < |h.chans| && !h.chans[c].closed ::
      h.chans[c].owner in h.workers && h.workers[h.chans[c].owner] == c
  }

  /** A channel is closed exactly when its stream unregistered or was replaced. */
  predicate ClosedWhy(s: State, c: nat)
    requires c < |s.h.chans| == |s.phases|
  {
    s.h.chans[c].closed <==> s.phases[c] == Gone || Later(s.h, c)
  }

  predicate IsClosed(h: HubState, c: nat) {
    c < |h.chans| && h.chans[c].closed
  }

  function Buffer(h: HubState, c: nat): seq<Envelope> {
    if c < |h.chans| then h.chans[c].buf else []
  }

  /** The log agrees with whether channel `c` is closed and what it buffers. */
  predicate Agrees(log: seq<Event>, c: nat, closed: bool, buf: seq<Envelope>) {
    (Closed(c) in log <==> closed) && TakenFrom(log, c) + buf == SentTo(log, c)
  }

  predicate ChannelLogged(s: State, c: nat) {
    Agrees(s.log, c, IsClosed(s.h, c), Buffer(s.h, c))
  }

  ghost predicate Inv(s: State) {
    Shape(s) && OpenIsMapped(s.h) && (forall c | 0 <= c < |s.h.chans| :: ClosedWhy(s, c)) &&
    ClosedOnce(s.log) && NoSendAfterClose(s.log) && (forall c: nat :: ChannelLogged(s, c))
  }

  lemma OpenIsMappedKept(s: State, l: Label)
    requires Shape(s) && OpenIsMapped(s.h) && Enabled(s, l)
    ensures OpenIsMapped(Apply(s, l).h)
  {
  }

  lemma LaterKept(s: State, l: Label, c: nat)
    requires Shape(s) && Enabled(s, l) && c < |s.h.chans|
    ensures Later(Apply(s, l).h, c) <==> Later(s.h, c) || (l.Connect? && l.id == s.h.chans[c].owner)
  {
    var t := Apply(s, l);
    assert forall d | 0 <= d < |s.h.chans| :: t.h.chans[d].owner == s.h.chans[d].owner;
    if l.Connect? {
      assert t.h.chans[|s.h.chans|].owner == l.id;
    }
  }

  lemma ClosedWhyKept(s: State, l: Label, c: nat)
    requires Shape(s) && OpenIsMapped(s.h) && Enabled(s, l) && c < |Apply(s, l).h.chans|
    requires c < |s.h.chans| ==> ClosedWhy(s, c)
    ensures ClosedWhy(Apply(s, l), c)
  {
    if c < |s.h.chans| { LaterKept(s, l, c); }
  }

  /** One event moves what the log says of a channel as it moves the channel. */
  lemma AgreesAfter(log: seq<Event>, e: Event, c: nat, closed: bool, buf: seq<Envelope>, rest: seq<Envelope>)
    requires Agrees(log, c, closed, buf)
    requires if e.Sent? && e.c == c then rest == buf + [e.m]
             else if e.Taken? && e.c == c then buf == [e.m] + rest
             else rest == buf
    ensures Agrees(log + [e], c, closed || e == Closed(c), rest)
  {
    assert (log + [e])[..|log|] == log;
  }

  lemma RegisterEffect(h: HubState, id: string, c: nat)
    requires Mapped(h)
    ensures Buffer(RegisterIn(h, id), c) == Buffer(h, c)
    ensures IsClosed(RegisterIn(h, id), c) <==> IsClosed(h, c) || (id in h.workers && c == h.workers[id])
  {
  }

  lemma ReplaceLogged(log: seq<Event>, replaced: nat, e: Event, c: nat, closed: bool, buf: seq<Envelope>)
    requires Agrees(log, c, closed, buf) && e.Registered?
    ensures Agrees(log + [Closed(replaced)] + [e], c, closed || c == replaced, buf)
  {
    AgreesAfter(log, Closed(replaced), c, closed, buf, buf);
    AgreesAfter(log + [Closed(replaced)], e, c, closed || c == replaced, buf, buf);
  }

  lemma ConnectLogged(s: State, id: string, c: nat)
    requires Shape(s) && ChannelLogged(s, c)
    ensures ChannelLogged(Apply(s, Connect(id)), c)
  {
    var e, buf := Registered(id, |s.h.chans|), Buffer(s.h, c);
    RegisterEffect(s.h, id, c);
    if id in s.h.workers {
      ReplaceLogged(s.log, s.h.workers[id], e, c, IsClosed(s.h, c), buf);
    } else {
      AgreesAfter(s.log, e, c, IsClosed(s.h, c), buf, buf);
    }
  }

  lemma MessageLogged(s: State, l: Label, c: nat)
    requires Shape(s) && Enabled(s, l) && (l.PushTo? || l.Take?) && ChannelLogged(s, c)
    ensures ChannelLogged(Apply(s, l), c)
  {
    var rest := Buffer(Apply(s, l).h, c);
    if l.Take? {
      AgreesAfter(s.log, Taken(l.c, s.h.chans[l.c].buf[0]), c, IsClosed(s.h, c), Buffer(s.h, c), rest);
    } else if Accepts(s.h, l.id) {
      AgreesAfter(s.log, Sent(s.h.workers[l.id], l.m), c, IsClosed(s.h, c), Buffer(s.h, c), rest);
    }
  }

  lemma UnregisterLogged(s: State, d: nat, c: nat)
    requires Shape(s) && Enabled(s, Unregister(d)) && ChannelLogged(s, c)
    ensures ChannelLogged(Apply(s, Unregister(d)), c)
  {
    var t := Apply(s, Unregister(d));
    assert Buffer(t.h, c) == Buffer(s.h, c);
    if t.log != s.log {
      AgreesAfter(s.log, Closed(d), c, IsClosed(s.h, c), Buffer(s.h, c), Buffer(s.h, c));
      assert IsClosed(t.h, c) <==> IsClosed(s.h, c) || c == d;
    }
  }

  lemma ChannelLoggedKept(s: State, l: Label, c: nat)
    requires Shape(s) && Enabled(s, l) && ChannelLogged(s, c)
    ensures ChannelLogged(Apply(s, l), c)
  {
    match l
    case Connect(id) => ConnectLogged(s, id, c);
    case PushTo(_, _) => MessageLogged(s, l, c);
    case Take(_) => MessageLogged(s, l, c);
    case Leave(_) =>
    case Unregister(d) => UnregisterLogged(s, d, c);
  }

  lemma OrderLogged(log: seq<Event>, e: Event)
    requires ClosedOnce(log) && NoSendAfterClose(log)
    requires e.Closed? || e.Sent? ==> Closed(e.c) !in log
    ensures ClosedOnce(log + [e]) && NoSendAfterClose(log + [e])
  {
  }

  lemma OrderKept(s: State, l: Label)
    requires Inv(s) && Enabled(s, l)
    ensures ClosedOnce(Apply(s, l).log) && NoSendAfterClose(Apply(s, l).log)
  {
    match l
    case Connect(id) =>
      if id in s.h.workers {
        assert ChannelLogged(s, s.h.workers[id]);
        OrderLogged(s.log, Closed(s.h.workers[id]));
        OrderLogged(s.log + [Closed(s.h.workers[id])], Registered(id, |s.h.chans|));
      } else {
        OrderLogged(s.log, Registered(id, |s.h.chans|));
      }
    case PushTo(id, m) =>
      if Accepts(s.h, id) {
        assert ChannelLogged(s, s.h.workers[id]);
        OrderLogged(s.log, Sent(s.h.workers[id], m));
      }
    case Take(d) => OrderLogged(s.log, Taken(d, s.h.chans[d].buf[0]));
    case Leave(_) =>
    case Unregister(d) =>
      var id := s.h.chans[d].owner;
      if id in s.h.workers && s.h.workers[id] == d {
        assert ChannelLogged(s, d);
        OrderLogged(s.log, Closed(d));
      }
  }

  lemma {:induction false} RunsKeepInv(ls: seq<Label>)
    requires Legal(ls)
    ensures Inv(Exec(ls))
  {
    if ls != [] {
      var s, l := Exec(ls[..|ls| - 1]), ls[|ls| - 1];
      RunsKeepInv(ls[..|ls| - 1]);
      OpenIsMappedKept(s, l);
      OrderKept(s, l);
      forall c: nat | c < |Apply(s, l).h.chans| ensures ClosedWhy(Apply(s, l), c) { ClosedWhyKept(s, l, c); }
      forall c: nat ensures ChannelLogged(Apply(s, l), c) { ChannelLoggedKept(s, l, c); }
    } else {
      assert forall c: nat :: ChannelLogged(INITIAL, c);
    }
  }

  // ---- Main results ----

  /** No channel is closed twice, and none is sent to once it is closed. */
  lemma NoPanic(ls: seq<Label>)
    requires Legal(ls)
    ensures ClosedOnce(Exec(ls).log) && NoSendAfterClose(Exec(ls).log)
  {
    RunsKeepInv(ls);
  }

  /** For every channel, what its stream took followed by what is buffered is what
      was accepted for it, in order, and the buffer never exceeds its capacity. */
  lemma FifoConserved(ls: seq<Label>, c: nat)
    requires Legal(ls) && c < |Exec(ls).h.chans|
    ensures TakenFrom(Exec(ls).log, c) + Exec(ls).h.chans[c].buf == SentTo(Exec(ls).log, c)
    ensures |Exec(ls).h.chans[c].buf| <= CAPACITY
  {
    RunsKeepInv(ls);
    assert ChannelLogged(Exec(ls), c);
  }

  predicate Latest(h: HubState, id: string, c: nat) {
    c < |h.chans| && h.chans[c].owner == id && !Later(h, c)
  }

  /** An id is connected exactly while its latest registrant has not unregistered,
      and it is then connected to that registrant's open channel, as no other id is. */
  lemma ConnectedIffLatestActive(ls: seq<Label>, id: string)
    requires Legal(ls)
    ensures var s := Exec(ls);
            (id in s.h.workers <==> exists c: nat :: Latest(s.h, id, c) && s.phases[c] != Gone) &&
            (id in s.h.workers ==>
               Latest(s.h, id, s.h.workers[id]) && !s.h.chans[s.h.workers[id]].closed &&
               forall other | other in s.h.workers && s.h.workers[other] == s.h.workers[id] :: other == id)
  {
    RunsKeepInv(ls);
    var s := Exec(ls);
    if id in s.h.workers {
      assert ClosedWhy(s, s.h.workers[id]);
      assert Latest(s.h, id, s.h.workers[id]);
    }
    forall c: nat | Latest(s.h, id, c) && s.phases[c] != Gone
      ensures id in s.h.workers
    {
      assert ClosedWhy(s, c);
    }
  }

  /** A late unregister leaves the registry and every channel as they are exactly
      when its stream was replaced. */
  lemma LateUnregisterHarmless(ls: seq<Label>, c: nat)
    requires Legal(ls) && Enabled(Exec(ls), Unregister(c))
    ensures Apply(Exec(ls), Unregister(c)).h == Exec(ls).h <==> Later(Exec(ls).h, c)
  {
    RunsKeepInv(ls);
    assert ClosedWhy(Exec(ls), c);
  }

  // ---- Which pushes are accepted ----

  /** The channel of the latest registration of the id, while it is not closed. */
  predicate Live(log: seq<Event>, id: string, c: nat) {
    Registered(id, c) in log && Closed(c) !in log
  }

  ghost predicate RegisteredOk(s: State) {
    forall c: nat, id :: Registered(id, c) in s.log <==> c < |s.h.chans| && s.h.chans[c].owner == id
  }

  lemma RegisteredKept(s: State, l: Label)
    requires Shape(s) && RegisteredOk(s) && Enabled(s, l)
    ensures RegisteredOk(Apply(s, l))
  {
    var t := Apply(s, l);
    forall c: nat, id ensures Registered(id, c) in t.log <==> c < |t.h.chans| && t.h.chans[c].owner == id {
      assert Registered(id, c) in s.log <==> c < |s.h.chans| && s.h.chans[c].owner == id;
    }
  }

  lemma {:induction false} RunsRegister(ls: seq<Label>)
    requires Legal(ls)
    ensures RegisteredOk(Exec(ls))
  {
    if ls != [] {
      RunsRegister(ls[..|ls| - 1]);
      RegisteredKept(Exec(ls[..|ls| - 1]), ls[|ls| - 1]);
    }
  }

  lemma LiveIsMapped(ls: seq<Label>, id: string, c: nat)
    requires Legal(ls)
    ensures Live(Exec(ls).log, id, c) <==> id in Exec(ls).h.workers && Exec(ls).h.workers[id] == c
  {
    RunsKeepInv(ls);
    RunsRegister(ls);
    assert ChannelLogged(Exec(ls), c);
  }

  lemma Pushed(ls: seq<Label>, id: string, m: Envelope)
    requires Legal(ls)
    ensures Legal(ls + [PushTo(id, m)]) && Exec(ls + [PushTo(id, m)]) == Apply(Exec(ls), PushTo(id, m))
  {
    assert (ls + [PushTo(id, m)])[..|ls|] == ls;
  }

  /** In every run a push to an id with a live channel is appended to it exactly while
      fewer than 32 messages sent to it have not been taken; any other push changes
      nothing. */
  lemma PushAccepted(ls: seq<Label>, id: string, m: Envelope, c: nat)
    requires Legal(ls)
    ensures Legal(ls + [PushTo(id, m)])
    ensures var s, t := Exec(ls), Exec(ls + [PushTo(id, m)]);
            (Live(s.log, id, c) && |SentTo(s.log, c)| - |TakenFrom(s.log, c)| < 32 ==>
               t.log == s.log + [Sent(c, m)] && c < |s.h.chans| && t.h.chans[c].buf == s.h.chans[c].buf + [m]) &&
            (Live(s.log, id, c) && |SentTo(s.log, c)| - |TakenFrom(s.log, c)| >= 32 ==> t == s) &&
            ((forall d: nat :: !Live(s.log, id, d)) ==> t == s)
  {
    Pushed(ls, id, m);
    LiveIsMapped(ls, id, c);
    var s := Exec(ls);
    if id in s.h.workers {
      LiveIsMapped(ls, id, s.h.workers[id]);
      if s.h.workers[id] == c { FifoConserved(ls, c); }
    }
  }

  function Pushes(id: string, ms: seq<Envelope>): seq<Label> {
    seq(|ms|, i requires 0 <= i < |ms| => PushTo(id, ms[i]))
  }

  /** Channel `c` is live, nothing was taken from it, and it was sent the first 32
      of `ms`. */
  ghost predicate Filled(run: seq<Label>, id: string, c: nat, ms: seq<Envelope>) {
    Legal(run) && Live(Exec(run).log, id, c) && TakenFrom(Exec(run).log, c) == [] &&
    SentTo(Exec(run).log, c) == ms[..if |ms| <= 32 then |ms| else 32]
  }

  lemma FillsMore(run: seq<Label>, id: string, c: nat, ms: seq<Envelope>, m: Envelope)
    requires Filled(run, id, c, ms)
    ensures Filled(run + [PushTo(id, m)], id, c, ms + [m])
  {
    PushAccepted(run, id, m, c);
    PushLogged(Exec(run).log, c, m, id);
  }

  function Filling(ls: seq<Label>, id: string, ms: seq<Envelope>): seq<Label> {
    ls + [Connect(id)] + Pushes(id, ms)
  }

  lemma FillingMore(ls: seq<Label>, id: string, ms: seq<Envelope>)
    ensures Filling(ls, id, []) == ls + [Connect(id)]
    ensures ms != [] ==> Filling(ls, id, ms) == Filling(ls, id, ms[..|ms| - 1]) + [PushTo(id, ms[|ms| - 1])]
  {
  }

  /** Right after a registration, with nothing taken, pushes are accepted in order
      up to the 32nd, and further ones are refused. */
  lemma {:induction false} FillsUp(ls: seq<Label>, id: string, ms: seq<Envelope>)
    requires Legal(ls)
    ensures Filled(Filling(ls, id, ms), id, |Exec(ls).h.chans|, ms)
    decreases |ms|
  {
    var c := |Exec(ls).h.chans|;
    FillingMore(ls, id, ms);
    if ms == [] {
      Connected(ls, id);
      assert Filled(ls + [Connect(id)], id, c, []);
    } else {
      var init, m := ms[..|ms| - 1], ms[|ms| - 1];
      FillsUp(ls, id, init);
      assert init + [m] == ms;
      FillsMore(Filling(ls, id, init), id, c, init, m);
    }
  }

  lemma PushLogged(log: seq<Event>, c: nat, m: Envelope, id: string)
    ensures SentTo(log + [Sent(c, m)], c) == SentTo(log, c) + [m]
    ensures TakenFrom(log + [Sent(c, m)], c) == TakenFrom(log, c)
    ensures Live(log + [Sent(c, m)], id, c) <==> Live(log, id, c)
  {
    assert (log + [Sent(c, m)])[..|log|] == log;
  }

  lemma Connected(ls: seq<Label>, id: string)
    requires Legal(ls)
    ensures var run, c := ls + [Connect(id)], |Exec(ls).h.chans|;
            Legal(run) && Live(Exec(run).log, id, c) && TakenFrom(Exec(run).log, c) == [] && SentTo(Exec(run).log, c) == []
  {
    var run, c := ls + [Connect(id)], |Exec(ls).h.chans|;
    assert run[..|ls|] == ls;
    LiveIsMapped(run, id, c);
    FifoConserved(run, c);
    RunsKeepInv(ls);
    NothingYet(ls, id);
  }

  lemma NothingYet(ls: seq<Label>, id: string)
    requires Legal(ls) && Inv(Exec(ls))
    ensures TakenFrom(Apply(Exec(ls), Connect(id)).log, |Exec(ls).h.chans|) == []
  {
    var s, c := Exec(ls), |Exec(ls).h.chans|;
    RunsTakeKnown(ls, c);
    var log := if id in s.h.workers then s.log + [Closed(s.h.workers[id])] else s.log;
    assert id in s.h.workers ==> log[..|s.log|] == s.log;
    assert (log + [Registered(id, c)])[..|log|] == log;
  }

  /** Nothing was taken from a channel that does not exist. */
  lemma {:induction false} RunsTakeKnown(ls: seq<Label>, c: nat)
    requires Legal(ls) && c >= |Exec(ls).h.chans|
    ensures TakenFrom(Exec(ls).log, c) == []
  {
    if ls != [] {
      var init, l := ls[..|ls| - 1], ls[|ls| - 1];
      RunsTakeKnown(init, c);
      TakeKnown(Exec(init), l, c);
    }
  }

  lemma TakeKnown(s: State, l: Label, c: nat)
    requires Shape(s) && Enabled(s, l) && c >= |Apply(s, l).h.chans| && TakenFrom(s.log, c) == []
    ensures TakenFrom(Apply(s, l).log, c) == []
  {
    var t := Apply(s, l);
    if |t.log| == |s.log| + 1 {
      assert t.log[..|s.log|] == s.log;
    } else if |t.log| == |s.log| + 2 {
      assert t.log[..|s.log| + 1][..|s.log|] == s.log;
    }
  }
}
