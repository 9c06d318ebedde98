/** One agent session as a sequence of events: model calls, saves of the durable
    transcript, tool-call rows and tool executions. `Legal` is the order in which
    the runtime and its observer let events happen; the model and the tools may
    answer anything. */
module AgentProtocol {
  import opened Basics
  import opened Sanitize

  datatype Call = Call(id: string, name: string, arguments: string)

  datatype Message = Message(role: string, content: string, toolCallId: string, calls: seq<Call>)

  /** The fields of the arguments that name targets. */
  datatype Targets = Targets(workerId: string, workerIds: seq<string>)

  type Payload = map<string, Value>

  /** What a session takes from outside: the secret pattern, the JSON codec, the
      registered tools and the step limit. */
  datatype World = World(
    redact: string -> string,
    encode: Payload -> string,
    parse: string -> Option<Targets>,
    tools: set<string>,
    maxSteps: nat)

  /** What the observer appends for an assistant message. */
  function Clean(w: World, m: Message): Message {
    m.(content := Text(w.redact, m.content))
  }

  function ToolReply(w: World, call: Call, payload: Payload): Message {
    Message("tool", w.encode(payload), call.id, [])
  }

  /** The JSON form of a tool call carries its id only. */
  function EraseCalls(calls: seq<Call>): seq<Call> {
    seq(|calls|, i requires 0 <= i < |calls| => Call(calls[i].id, "", ""))
  }

  function Stored(t: seq<Message>): seq<Message> {
    seq(|t|, i requires 0 <= i < |t| => t[i].(calls := EraseCalls(t[i].calls)))
  }

  /** `m` is what the transcript holds, or still carries the unsanitized content. */
  predicate Carries(w: World, m: Message, kept: Message) {
    m == kept || Clean(w, m) == kept
  }

  predicate CarriesAll(w: World, ms: seq<Message>, kept: seq<Message>) {
    |ms| == |kept| && forall i | 0 <= i < |ms| :: Carries(w, ms[i], kept[i])
  }

  // ---- Payloads ----

  /** What the loop makes of a tool's output before the model or the stream see it. */
  function PayloadOf(w: World, output: Value, error: Option<string>): Payload {
    var p := SanitizeMap(w.redact, map["ok" := Other(if error.None? then "true" else "false"), "result" := output]);
    if error.Some? then p["error" := Str(Text(w.redact, error.value))] else p
  }

  /** The payload is that of some output, or of some error. */
  ghost predicate Delivers(w: World, ok: bool, payload: Payload) {
    exists output: Value, error: Option<string> :: ok == error.None? && payload == PayloadOf(w, output, error)
  }

  function ResultEntries(payload: Payload, field: string): seq<Value> {
    if "result" in payload && payload["result"].Obj? && field in payload["result"].fields &&
       payload["result"].fields[field].ObjList?
    then payload["result"].fields[field].objects
    else []
  }

  predicate NamesWorker(entry: Value, id: string) {
    id != "" && entry.Obj? && "id" in entry.fields && entry.fields["id"] == Str(id)
  }

  predicate Lists(payload: Payload, id: string) {
    exists entry | entry in ResultEntries(payload, "workers") :: NamesWorker(entry, id)
  }

  ghost function DiscoveredIn(payload: Payload): iset<string> {
    iset id | Lists(payload, id)
  }

  /** The printed status of a job entry. */
  predicate IsWaiting(entry: Value) {
    entry.Obj? && "status" in entry.fields &&
    (entry.fields["status"] == Str("waiting_approval") || entry.fields["status"] == Other("waiting_approval"))
  }

  predicate NeedsApproval(payload: Payload) {
    exists entry | entry in ResultEntries(payload, "jobs") :: IsWaiting(entry)
  }

  function TargetIds(t: Targets): seq<string> {
    t.workerIds + if t.workerId != "" then [t.workerId] else []
  }

  /** The call may run against the workers discovered so far. */
  ghost predicate Authorized(w: World, call: Call, discovered: iset<string>) {
    call.name in w.tools &&
    (call.name != "list_workers" ==>
       w.parse(call.arguments).Some? &&
       forall id | id in TargetIds(w.parse(call.arguments).value) :: id in discovered)
  }

  // ---- Events ----

  datatype Outcome = Final | Paused | Failed

  datatype Event =
    | Asked(request: seq<Message>)
    | Answered(m: Message)
    | ModelFailed
    | StoreFailed
    | Saved(t: seq<Message>)
    | RowCreated(id: string)
    | Executed(call: Call, ok: bool, payload: Payload)
    | Replied(m: Message)
    | Ended(outcome: Outcome)

  datatype Pc =
    | AtModel | Awaiting
    | Drafted                       // the assistant message is produced, not saved
    | AtCall                        // about to handle batch.calls[next], or done with the batch
    | Recorded                      // the row of the call exists
    | Ran(payload: Payload)
    | Reported(payload: Payload)    // the tool message is produced, not saved
    | Pausing
    | Broken                        // a call of the model or the store failed
    | Over(outcome: Outcome)

  /** `produced` is what the session added to the transcript; `steps` is the last
      answered step; `replied` counts the replies to the current batch, and the
      three positions say where in the log that batch was answered, saved, and its
      latest row created. */
  datatype Session = Session(
    pc: Pc, start: nat, step: nat, steps: nat,
    initial: seq<Message>, produced: seq<Message>, durable: seq<Message>,
    batch: Message, next: nat, replied: nat, discovered: iset<string>,
    clock: nat, answeredAt: nat, savedAt: nat, rowAt: nat)

  ghost function Begin(initial: seq<Message>, start: nat): Session {
    Session(AtModel, start, start, 0, initial, [], Stored(initial), Message("", "", "", []), 0, 0, iset{}, 0, 0, 0, 0)
  }

  ghost function Transcript(s: Session): seq<Message> {
    s.initial + s.produced
  }

  ghost predicate Legal(w: World, s: Session, e: Event) {
    match e
    case Asked(request) =>
      s.pc == AtModel && s.step <= w.maxSteps && CarriesAll(w, request, Transcript(s))
    case Answered(_) => s.pc == Awaiting
    case ModelFailed => s.pc == Awaiting
    case StoreFailed =>
      (s.pc == AtModel && s.clock == 0) || s.pc == Drafted || s.pc.Reported? || s.pc.Over? ||
      (s.pc == AtCall && s.next < |s.batch.calls| && Authorized(w, s.batch.calls[s.next], s.discovered))
    case Saved(t) => (s.pc == Drafted || s.pc.Reported? || s.pc.Over?) && t == Transcript(s)
    case RowCreated(id) =>
      s.pc == AtCall && s.next < |s.batch.calls| && id == s.batch.calls[s.next].id &&
      Authorized(w, s.batch.calls[s.next], s.discovered)
    case Executed(call, ok, payload) =>
      s.pc == Recorded && s.next < |s.batch.calls| && call == s.batch.calls[s.next] && Delivers(w, ok, payload)
    case Replied(m) =>
      s.pc.Ran? && s.next < |s.batch.calls| && m == ToolReply(w, s.batch.calls[s.next], s.pc.payload)
    case Ended(outcome) =>
      match outcome
      case Final => s.pc == AtCall && s.batch.calls == []
      case Paused => s.pc == Pausing
      case Failed =>
        s.pc == Broken || (s.pc == AtModel && s.step > w.maxSteps) ||
        (s.pc == AtCall && s.next < |s.batch.calls| && !Authorized(w, s.batch.calls[s.next], s.discovered))
  }

  ghost function After(w: World, s0: Session, e: Event): Session {
    var s := s0.(clock := s0.clock + 1);
    match e
    case Asked(_) => s.(pc := Awaiting)
    case Answered(m) =>
      s.(pc := Drafted, steps := s.step, produced := s.produced + [Clean(w, m)], batch := m, next := 0,
         replied := 0, answeredAt := s0.clock)
    case ModelFailed => s.(pc := Broken)
    case StoreFailed => if s.pc.Over? then s else s.(pc := Broken)
    case Saved(t) =>
      var d := s.(durable := Stored(t));
      if s.pc == Drafted then d.(pc := AtCall, savedAt := s0.clock)
      else if s.pc.Reported? then
        if NeedsApproval(s.pc.payload) then d.(pc := Pausing)
        else if s.next + 1 < |s.batch.calls| then d.(pc := AtCall, next := s.next + 1)
        else d.(pc := AtModel, next := s.next + 1, step := s.step + 1)
      else d
    case RowCreated(_) => s.(pc := Recorded, rowAt := s0.clock)
    case Executed(call, ok, payload) =>
      s.(pc := Ran(payload),
         discovered := if call.name == "list_workers" && ok then s.discovered + DiscoveredIn(payload) else s.discovered)
    case Replied(m) =>
      if s.pc.Ran? then s.(pc := Reported(s.pc.payload), produced := s.produced + [m], replied := s.replied + 1) else s
    case Ended(outcome) => s.(pc := Over(outcome))
  }

  ghost function Replay(w: World, s: Session, log: seq<Event>): Session {
    if log == [] then s else After(w, Replay(w, s, log[..|log| - 1]), log[|log| - 1])
  }

  ghost predicate LegalLog(w: World, s: Session, log: seq<Event>) {
    log == [] ||
    (LegalLog(w, s, log[..|log| - 1]) && Legal(w, Replay(w, s, log[..|log| - 1]), log[|log| - 1]))
  }

  lemma ReplayOne(w: World, s: Session, log: seq<Event>, e: Event)
    requires LegalLog(w, s, log) && Legal(w, Replay(w, s, log), e)
    ensures LegalLog(w, s, log + [e]) && Replay(w, s, log + [e]) == After(w, Replay(w, s, log), e)
  {
    assert (log + [e])[..|log|] == log;
  }

  lemma {:induction false} LegalAt(w: World, s: Session, log: seq<Event>, n: nat)
    requires LegalLog(w, s, log) && n <= |log|
    ensures LegalLog(w, s, log[..n])
    ensures n < |log| ==> Legal(w, Replay(w, s, log[..n]), log[n])
    decreases |log|
  {
    if n == |log| {
      assert log[..n] == log;
    } else if n < |log| - 1 {
      LegalAt(w, s, log[..|log| - 1], n);
      assert log[..|log| - 1][..n] == log[..n];
    }
  }
}
