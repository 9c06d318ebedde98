/** The worker stream hub: a registry from worker id to the bounded channel of the
    stream that registered last. Closing a closed channel and sending on a closed
    channel panic in Go; here they are preconditions of `Close` and `TrySend`. */
module Hub {

  const CAPACITY := 32

  datatype Envelope = JobEnvelope(jobId: string) | CommandEnvelope(command: string)

  datatype Chan = Chan(owner: string, buf: seq<Envelope>, closed: bool)

  /** A channel is named by its position in the order of creation. */
  datatype HubState = HubState(workers: map<string, nat>, chans: seq<Chan>)

  ghost predicate Mapped(h: HubState) {
    (forall id | id in h.workers ::
       h.workers[id] < |h.chans| && h.chans[h.workers[id]].owner == id && !h.chans[h.workers[id]].closed) &&
    (forall c | 0 <= c < |h.chans| :: |h.chans[c].buf| <= CAPACITY)
  }

  function CloseChan(h: HubState, c: nat): HubState
    requires c < |h.chans|
  {
    h.(chans := h.chans[c := h.chans[c].(closed := true)])
  }

  function RegisterIn(h: HubState, id: string): HubState
    requires id in h.workers ==> h.workers[id] < |h.chans|
  {
    var h1 := if id in h.workers then CloseChan(h, h.workers[id]) else h;
    HubState(h1.workers[id := |h1.chans|], h1.chans + [Chan(id, [], false)])
  }

  function UnregisterIn(h: HubState, id: string, c: nat): HubState
    requires c < |h.chans|
  {
    if id in h.workers && h.workers[id] == c then CloseChan(h, c).(workers := h.workers - {id}) else h
  }

  predicate Accepts(h: HubState, id: string)
    requires id in h.workers ==> h.workers[id] < |h.chans|
  {
    id in h.workers && |h.chans[h.workers[id]].buf| < CAPACITY
  }

  function PushIn(h: HubState, id: string, m: Envelope): HubState
    requires id in h.workers ==> h.workers[id] < |h.chans|
  {
    if Accepts(h, id) then
      var c := h.workers[id];
      h.(chans := h.chans[c := h.chans[c].(buf := h.chans[c].buf + [m])])
    else h
  }

  function TakeFrom(h: HubState, c: nat): HubState
    requires c < |h.chans| && h.chans[c].buf != []
  {
    h.(chans := h.chans[c := h.chans[c].(buf := h.chans[c].buf[1..])])
  }

  // Every operation leaves each mapped channel open, under its owner's id only,
  // and within its capacity.

  lemma RegisterKeepsMapped(h: HubState, id: string)
    requires Mapped(h)
    ensures Mapped(RegisterIn(h, id))
  {
  }

  lemma UnregisterKeepsMapped(h: HubState, id: string, c: nat)
    requires Mapped(h) && c < |h.chans|
    ensures Mapped(UnregisterIn(h, id, c))
  {
  }

  lemma PushKeepsMapped(h: HubState, id: string, m: Envelope)
    requires Mapped(h)
    ensures Mapped(PushIn(h, id, m))
  {
  }

  lemma TakeKeepsMapped(h: HubState, c: nat)
    requires Mapped(h) && c < |h.chans| && h.chans[c].buf != []
    ensures Mapped(TakeFrom(h, c))
  {
  }

  class Channel {
    const owner: string
    ghost const index: nat
    var buf: seq<Envelope>
    var closed: bool

    constructor (owner: string, ghost index: nat)
      ensures this.owner == owner && this.index == index && buf == [] && !closed
    {
      this.owner, this.index := owner, index;
      buf, closed := [], false;
    }

    method Close()
      requires !closed
      modifies this`closed
      ensures closed
    {
      closed := true;
    }

    /** The non-blocking send of a select with a default branch. */
    method TrySend(m: Envelope) returns (ok: bool)
      requires !closed
      modifies this`buf
      ensures ok == (|old(buf)| < CAPACITY)
      ensures buf == if ok then old(buf) + [m] else old(buf)
    {
      ok := |buf| < CAPACITY;
      if ok { buf := buf + [m]; }
    }

    /** A receive that finds a message; a closed channel still drains. */
    method Receive() returns (m: Envelope)
      requires buf != []
      modifies this`buf
      ensures m == old(buf)[0] && buf == old(buf)[1..]
    {
      m, buf := buf[0], buf[1..];
    }
  }

  class Registry {
    var workers: map<string, Channel>
    ghost var made: seq<Channel>
    ghost var state: HubState  // the abstract value of the registry

    ghost predicate Made(ch: Channel)
      reads this
    {
      ch.index < |made| && made[ch.index] == ch
    }

    /** `state` shows the fields and the channels as they are. */
    ghost predicate Shown()
      reads this, made
    {
      |state.chans| == |made| && state.workers.Keys == workers.Keys &&
      (forall i | 0 <= i < |made| ::
         made[i].index == i && state.chans[i] == Chan(made[i].owner, made[i].buf, made[i].closed)) &&
      (forall id | id in workers :: Made(workers[id]) && state.workers[id] == workers[id].index)
    }

    ghost predicate Valid()
      reads this, made
    {
      Shown() && Mapped(state)
    }

    constructor ()
      ensures Valid() && made == [] && state == HubState(map[], [])
    {
      workers, made, state := map[], [], HubState(map[], []);
    }

    method CloseChannel(ch: Channel)
      requires Shown() && Made(ch) && !ch.closed
      modifies this`state, ch`closed
      ensures Shown() && state == CloseChan(old(state), ch.index)
    {
      ch.Close();
      state := CloseChan(state, ch.index);
    }

    method Register(id: string) returns (ch: Channel)
      requires Valid()
      modifies this, made
      ensures Valid() && fresh(ch) && made == old(made) + [ch]
      ensures state == RegisterIn(old(state), id)
    {
      RegisterKeepsMapped(state, id);
      ch := new Channel(id, |made|);
      CloseAndSet(id, ch);
    }

    method CloseAndSet(id: string, ch: Channel)
      requires Valid() && ch.owner == id && ch.index == |made| && ch !in made && ch.buf == [] && !ch.closed
      modifies this, made
      ensures Shown() && made == old(made) + [ch] && state == RegisterIn(old(state), id)
    {
      if id in workers {
        CloseChannel(workers[id]);
      }
      Set(id, ch);
    }

    method Set(id: string, ch: Channel)
      requires Shown() && ch.index == |made|
      modifies this
      ensures Shown() && made == old(made) + [ch]
      ensures state == HubState(old(state).workers[id := ch.index], old(state).chans + [Chan(ch.owner, ch.buf, ch.closed)])
    {
      workers, made := workers[id := ch], made + [ch];
      state := HubState(state.workers[id := ch.index], state.chans + [Chan(ch.owner, ch.buf, ch.closed)]);
    }

    method Unregister(id: string, ch: Channel)
      requires Valid() && Made(ch)
      modifies this`workers, this`state, made
      ensures Valid() && state == UnregisterIn(old(state), id, ch.index)
    {
      UnregisterKeepsMapped(state, id, ch.index);
      if id in workers && workers[id] == ch {
        Forget(id);
        CloseChannel(ch);
      }
    }

    method Forget(id: string)
      requires Shown()
      modifies this`workers, this`state
      ensures Shown() && state == old(state).(workers := old(state).workers - {id})
    {
      workers := workers - {id};
      state := state.(workers := state.workers - {id});
    }

    method Push(id: string, m: Envelope) returns (ok: bool)
      requires Valid()
      modifies this`state, made
      ensures Valid() && ok == Accepts(old(state), id) && state == PushIn(old(state), id, m)
      ensures ok <==> id in workers && |old(workers[id].buf)| < CAPACITY
      ensures ok ==> workers[id].buf == old(workers[id].buf) + [m]
      ensures !ok ==> state == old(state)
    {
      if id !in workers { return false; }
      PushKeepsMapped(state, id, m);
      ok := Send(id, m);
    }

    method Send(id: string, m: Envelope) returns (ok: bool)
      requires Shown() && Mapped(state) && id in workers
      modifies this`state, made
      ensures Shown() && ok == Accepts(old(state), id) && state == PushIn(old(state), id, m)
      ensures ok <==> |old(workers[id].buf)| < CAPACITY
      ensures ok ==> workers[id].buf == old(workers[id].buf) + [m]
    {
      ok := workers[id].TrySend(m);
      state := PushIn(state, id, m);
    }

    method IsConnected(id: string) returns (connected: bool)
      requires Valid()
      ensures connected == (id in state.workers)
    {
      connected := id in workers;
    }

    /** One turn of the stream loop that finds a message in its channel. */
    method Deliver(ch: Channel) returns (m: Envelope)
      requires Valid() && Made(ch) && ch.buf != []
      modifies this`state, made
      ensures Valid() && m == old(ch.buf)[0] && state == TakeFrom(old(state), ch.index)
    {
      TakeKeepsMapped(state, ch.index);
      m := ch.Receive();
      state := TakeFrom(state, ch.index);
    }
  }
}
