/** Assembly of a streamed model answer: internal/infrastructure/llm/client.go.
    A stream is the list of its lines; each tool call arrives in fragments that
    carry the call's index. */
module LlmStream {
  import opened Basics

  datatype Delta = Delta(index: int, id: string, name: string, arguments: string)
  datatype Usage = Usage(prompt: int, completion: int, total: int)
  datatype Choice = Choice(content: string, deltas: seq<Delta>)
  /** A line of the response: the end mark, data that does not decode, a chunk,
      or anything without the "data:" prefix. */
  datatype Line = Skipped | Done | Undecodable | Chunk(choices: seq<Choice>, usage: Usage)
  /** What the reader delivers: lines, then end of file or a read error. */
  datatype Body = Body(lines: seq<Line>, broken: bool)
  datatype ToolCall = ToolCall(id: string, name: string, arguments: string)
  datatype Message = Message(content: string, calls: seq<ToolCall>)
  datatype Failure = ReadFailed | DecodeFailed | CallbackFailed | NoChoices | InvalidCall(position: nat)
  datatype Result = Answer(message: Message, usage: Usage) | Failed(reason: Failure)
  datatype Ending = AtDone | AtUndecodable | AtEnd

  // ---- What a stream means, without the order in which it is read ----

  function Concat(texts: seq<string>): string {
    if texts == [] then "" else Concat(texts[..|texts| - 1]) + texts[|texts| - 1]
  }

  function Choices(lines: seq<Line>): seq<Choice> {
    if lines == [] || lines[0].Done? || lines[0].Undecodable? then []
    else if lines[0].Chunk? then lines[0].choices + Choices(lines[1..])
    else Choices(lines[1..])
  }

  function EndOf(lines: seq<Line>): Ending {
    if lines == [] then AtEnd
    else if lines[0].Done? then AtDone
    else if lines[0].Undecodable? then AtUndecodable
    else EndOf(lines[1..])
  }

  /** The last usage report with a non-zero total. */
  function UsageOf(lines: seq<Line>, before: Usage): Usage {
    if lines == [] || lines[0].Done? || lines[0].Undecodable? then before
    else if lines[0].Chunk? && lines[0].usage.total != 0 then UsageOf(lines[1..], lines[0].usage)
    else UsageOf(lines[1..], before)
  }

  function Texts(choices: seq<Choice>): seq<string> {
    if choices == [] then []
    else
      var before := Texts(choices[..|choices| - 1]);
      var text := choices[|choices| - 1].content;
      if text == "" then before else before + [text]
  }

  function Deltas(choices: seq<Choice>): seq<Delta> {
    if choices == [] then [] else Deltas(choices[..|choices| - 1]) + choices[|choices| - 1].deltas
  }

  /** The fragments of one call, in order of arrival. */
  function Of(ds: seq<Delta>, index: int): seq<Delta> {
    if ds == [] then []
    else
      var before := Of(ds[..|ds| - 1], index);
      if ds[|ds| - 1].index == index then before + [ds[|ds| - 1]] else before
  }

  function LastId(ds: seq<Delta>): string {
    if ds == [] then ""
    else if ds[|ds| - 1].id != "" then ds[|ds| - 1].id
    else LastId(ds[..|ds| - 1])
  }

  function LastName(ds: seq<Delta>): string {
    if ds == [] then ""
    else if ds[|ds| - 1].name != "" then ds[|ds| - 1].name
    else LastName(ds[..|ds| - 1])
  }

  function JoinedArguments(ds: seq<Delta>): string {
    if ds == [] then "" else JoinedArguments(ds[..|ds| - 1]) + ds[|ds| - 1].arguments
  }

  function CallOf(ds: seq<Delta>, index: int): ToolCall {
    var own := Of(ds, index);
    ToolCall(LastId(own), LastName(own), JoinedArguments(own))
  }

  /** The calls are those of the indices 0, 1, ... up to the first index no
      fragment mentions. */
  predicate AreCalls(ds: seq<Delta>, calls: seq<ToolCall>) {
    (forall i :: 0 <= i < |calls| ==> Of(ds, i) != [] && calls[i] == CallOf(ds, i)) &&
    Of(ds, |calls|) == []
  }

  predicate Usable(call: ToolCall, valid: string -> bool) {
    call.id != "" && call.name != "" && valid(call.arguments)
  }

  predicate AcceptsAll(accept: seq<string> -> bool, texts: seq<string>) {
    forall k :: 0 < k <= |texts| ==> accept(texts[..k])
  }

  /** The fragment list after which the callback first failed. */
  predicate FirstRefusal(accept: seq<string> -> bool, texts: seq<string>, passed: seq<string>) {
    0 < |passed| <= |texts| && passed == texts[..|passed|] && !accept(passed) &&
    forall k :: 0 < k < |passed| ==> accept(texts[..k])
  }

  predicate Assembles(ds: seq<Delta>, content: string, usage: Usage, valid: string -> bool, r: Result) {
    match r
    case Answer(message, u) =>
      message.content == content && u == usage && AreCalls(ds, message.calls) &&
      forall i :: 0 <= i < |message.calls| ==> Usable(message.calls[i], valid)
    case Failed(reason) =>
      reason.InvalidCall? && (forall i :: 0 <= i <= reason.position ==> Of(ds, i) != []) &&
      !Usable(CallOf(ds, reason.position), valid) &&
      forall i :: 0 <= i < reason.position ==> Usable(CallOf(ds, i), valid)
  }

  /** What CompleteStream returns for a response body, and which fragments the
      callback saw. `accept` is the callback's answer to the fragments so far. */
  predicate StreamResult(body: Body, accept: seq<string> -> bool, valid: string -> bool, passed: seq<string>, r: Result) {
    var texts := Texts(Choices(body.lines));
    if !AcceptsAll(accept, texts) then r == Failed(CallbackFailed) && FirstRefusal(accept, texts, passed)
    else
      passed == texts &&
      match EndOf(body.lines)
      case AtUndecodable => r == Failed(DecodeFailed)
      case AtEnd =>
        if body.broken then r == Failed(ReadFailed)
        else Assembles(Deltas(Choices(body.lines)), Concat(texts), UsageOf(body.lines, Usage(0, 0, 0)), valid, r)
      case AtDone =>
        Assembles(Deltas(Choices(body.lines)), Concat(texts), UsageOf(body.lines, Usage(0, 0, 0)), valid, r)
  }

  // ---- The reading loops ----

  predicate CollectedAt(ds: seq<Delta>, calls: map<int, ToolCall>, i: int) {
    (i in calls <==> Of(ds, i) != []) && (i in calls ==> calls[i] == CallOf(ds, i))
  }

  /** The map of started calls holds exactly the mentioned indices. */
  ghost predicate Collected(ds: seq<Delta>, calls: map<int, ToolCall>) {
    forall i :: CollectedAt(ds, calls, i)
  }

  function AddFragment(calls: map<int, ToolCall>, d: Delta): map<int, ToolCall> {
    var call := if d.index in calls then calls[d.index] else ToolCall("", "", "");
    var call := if d.id != "" then call.(id := d.id) else call;
    var call := if d.name != "" then call.(name := d.name) else call;
    calls[d.index := call.(arguments := call.arguments + d.arguments)]
  }

  lemma CallGrows(own: seq<Delta>, d: Delta)
    ensures LastId(own + [d]) == (if d.id != "" then d.id else LastId(own))
    ensures LastName(own + [d]) == (if d.name != "" then d.name else LastName(own))
    ensures JoinedArguments(own + [d]) == JoinedArguments(own) + d.arguments
  {
    assert (own + [d])[..|own|] == own;
  }

  lemma OfGrows(ds: seq<Delta>, d: Delta, i: int)
    ensures Of(ds + [d], i) == if d.index == i then Of(ds, i) + [d] else Of(ds, i)
  {
    assert (ds + [d])[..|ds|] == ds;
  }

  lemma AddKeepsCollected(ds: seq<Delta>, calls: map<int, ToolCall>, d: Delta)
    requires Collected(ds, calls)
    ensures Collected(ds + [d], AddFragment(calls, d))
  {
    var after := AddFragment(calls, d);
    forall i ensures CollectedAt(ds + [d], after, i) {
      assert CollectedAt(ds, calls, i);
      OfGrows(ds, d, i);
      if i == d.index { CallGrows(Of(ds, i), d); }
    }
  }

  /** The loop over the fragments of one choice. */
  method AddFragments(ghost ds: seq<Delta>, calls: map<int, ToolCall>, deltas: seq<Delta>) returns (after: map<int, ToolCall>)
    requires Collected(ds, calls)
    ensures Collected(ds + deltas, after)
  {
    after := calls;
    assert ds + deltas[..0] == ds;
    for k := 0 to |deltas|
      invariant Collected(ds + deltas[..k], after)
    {
      AddKeepsCollected(ds + deltas[..k], after, deltas[k]);
      assert ds + deltas[..k] + [deltas[k]] == ds + deltas[..k + 1];
      after := AddFragment(after, deltas[k]);
    }
    assert deltas[..|deltas|] == deltas;
  }

  lemma AppendText(texts: seq<string>, text: string)
    ensures Concat(texts + [text]) == Concat(texts) + text
  {
    assert (texts + [text])[..|texts|] == texts;
  }

  lemma AppendChoice(choices: seq<Choice>, c: Choice)
    ensures Texts(choices + [c]) == (if c.content == "" then Texts(choices) else Texts(choices) + [c.content])
    ensures Deltas(choices + [c]) == Deltas(choices) + c.deltas
  {
    assert (choices + [c])[..|choices|] == choices;
  }

  lemma {:induction false} TextsGrow(choices: seq<Choice>, more: seq<Choice>)
    ensures Texts(choices) <= Texts(choices + more)
  {
    if more == [] {
      assert choices + more == choices;
    } else {
      TextsGrow(choices, more[..|more| - 1]);
      AppendChoice(choices + more[..|more| - 1], more[|more| - 1]);
      assert choices + more == choices + more[..|more| - 1] + [more[|more| - 1]];
    }
  }

  /** What the reading loop knows after `seen`. */
  ghost predicate Reading(seen: seq<Choice>, accept: seq<string> -> bool, content: string, passed: seq<string>, calls: map<int, ToolCall>) {
    passed == Texts(seen) && content == Concat(passed) && AcceptsAll(accept, passed) && Collected(Deltas(seen), calls)
  }

  lemma AcceptMore(accept: seq<string> -> bool, texts: seq<string>, text: string)
    requires AcceptsAll(accept, texts) && accept(texts + [text])
    ensures AcceptsAll(accept, texts + [text])
  {
    forall k | 0 < k <= |texts| + 1 ensures accept((texts + [text])[..k]) {
      if k <= |texts| { assert (texts + [text])[..k] == texts[..k]; }
      else { assert (texts + [text])[..k] == texts + [text]; }
    }
  }

  lemma RefusedAt(accept: seq<string> -> bool, texts: seq<string>, text: string, all: seq<string>)
    requires AcceptsAll(accept, texts) && !accept(texts + [text]) && texts + [text] <= all
    ensures FirstRefusal(accept, all, texts + [text]) && !AcceptsAll(accept, all)
  {
    assert all[..|texts| + 1] == texts + [text];
    forall k | 0 < k <= |texts| ensures accept(all[..k]) {
      assert all[..k] == texts[..k];
    }
  }

  lemma ReadOne(seen: seq<Choice>, c: Choice, accept: seq<string> -> bool, content: string, passed: seq<string>,
                calls: map<int, ToolCall>, after: map<int, ToolCall>)
    requires Reading(seen, accept, content, passed, calls) && Collected(Deltas(seen) + c.deltas, after)
    ensures c.content == "" ==> Reading(seen + [c], accept, content, passed, after)
    ensures c.content != "" && accept(passed + [c.content]) ==>
              Reading(seen + [c], accept, content + c.content, passed + [c.content], after)
  {
    AppendChoice(seen, c);
    if c.content != "" && accept(passed + [c.content]) {
      AppendText(passed, c.content);
      AcceptMore(accept, passed, c.content);
    }
  }

  lemma RefuseOne(seen: seq<Choice>, c: Choice, rest: seq<Choice>, accept: seq<string> -> bool, passed: seq<string>)
    requires passed == Texts(seen) && AcceptsAll(accept, passed) && c.content != "" && !accept(passed + [c.content])
    ensures FirstRefusal(accept, Texts(seen + [c] + rest), passed + [c.content])
    ensures !AcceptsAll(accept, Texts(seen + [c] + rest))
  {
    AppendChoice(seen, c);
    TextsGrow(seen + [c], rest);
    RefusedAt(accept, passed, c.content, Texts(seen + [c] + rest));
  }

  /** The loop over the choices of one chunk. */
  method TakeChoices(choices: seq<Choice>, accept: seq<string> -> bool, content0: string, passed0: seq<string>,
                     calls0: map<int, ToolCall>, ghost seen: seq<Choice>)
    returns (refused: bool, content: string, passed: seq<string>, calls: map<int, ToolCall>)
    requires Reading(seen, accept, content0, passed0, calls0)
    ensures !refused ==> Reading(seen + choices, accept, content, passed, calls)
    ensures refused ==> FirstRefusal(accept, Texts(seen + choices), passed) && !AcceptsAll(accept, Texts(seen + choices))
  {
    refused, content, passed, calls := false, content0, passed0, calls0;
    assert seen + choices[..0] == seen;
    for k := 0 to |choices|
      invariant !refused && Reading(seen + choices[..k], accept, content, passed, calls)
    {
      var c := choices[k];
      ghost var so, was, before, started := seen + choices[..k], content, passed, calls;
      assert so + [c] == seen + choices[..k + 1];
      if c.content != "" {
        content, passed := content + c.content, passed + [c.content];
        if !accept(passed) {
          RefuseOne(so, c, choices[k + 1..], accept, before);
          assert so + [c] + choices[k + 1..] == seen + choices;
          return true, content, passed, calls;
        }
      }
      calls := AddFragments(Deltas(so), calls, c.deltas);
      ReadOne(so, c, accept, was, before, started, calls);
    }
    assert choices[..|choices|] == choices;
  }

  lemma ChoicesAfter(lines: seq<Line>, i: nat, seen: seq<Choice>)
    requires i < |lines| && Choices(lines) == seen + Choices(lines[i..])
    ensures lines[i].Chunk? ==> Choices(lines) == seen + lines[i].choices + Choices(lines[i + 1..])
    ensures lines[i].Skipped? ==> Choices(lines) == seen + Choices(lines[i + 1..])
    ensures lines[i].Done? || lines[i].Undecodable? ==> Choices(lines) == seen
  {
    assert lines[i..][1..] == lines[i + 1..];
  }

  /** The read loop: lines until the end mark, a failure or the end of file. */
  method ReadLines(body: Body, accept: seq<string> -> bool)
    returns (failure: Option<Failure>, content: string, passed: seq<string>, calls: map<int, ToolCall>, usage: Usage)
    ensures failure == Some(CallbackFailed) <==> !AcceptsAll(accept, Texts(Choices(body.lines)))
    ensures failure == Some(CallbackFailed) ==> FirstRefusal(accept, Texts(Choices(body.lines)), passed)
    ensures failure != Some(CallbackFailed) ==>
              failure == (match EndOf(body.lines)
                          case AtDone => None
                          case AtUndecodable => Some(DecodeFailed)
                          case AtEnd => if body.broken then Some(ReadFailed) else None)
              && Reading(Choices(body.lines), accept, content, passed, calls)
              && usage == UsageOf(body.lines, Usage(0, 0, 0))
  {
    failure, content, passed, calls, usage := None, "", [], map[], Usage(0, 0, 0);
    ghost var seen: seq<Choice> := [];
    var i := 0;
    assert body.lines[0..] == body.lines;
    while i < |body.lines|
      invariant 0 <= i <= |body.lines| && failure == None
      invariant Choices(body.lines) == seen + Choices(body.lines[i..])
      invariant EndOf(body.lines) == EndOf(body.lines[i..])
      invariant UsageOf(body.lines, Usage(0, 0, 0)) == UsageOf(body.lines[i..], usage)
      invariant Reading(seen, accept, content, passed, calls)
    {
      ChoicesAfter(body.lines, i, seen);
      assert body.lines[i..][1..] == body.lines[i + 1..];
      match body.lines[i] {
        case Done =>
          return;
        case Undecodable =>
          failure := Some(DecodeFailed);
          return;
        case Chunk(choices, reported) =>
          if reported.total != 0 { usage := reported; }
          var refused;
          ghost var all := seen + choices;
          refused, content, passed, calls := TakeChoices(choices, accept, content, passed, calls, seen);
          if refused {
            TextsGrow(all, Choices(body.lines[i + 1..]));
            RefusalStays(accept, Texts(all), Texts(Choices(body.lines)), passed);
            failure := Some(CallbackFailed);
            return;
          }
          seen := all;
        case Skipped =>
      }
      i := i + 1;
    }
    assert seen + [] == seen;
    if body.broken { failure := Some(ReadFailed); }
  }

  lemma RefusalStays(accept: seq<string> -> bool, texts: seq<string>, all: seq<string>, passed: seq<string>)
    requires texts <= all && FirstRefusal(accept, texts, passed)
    ensures FirstRefusal(accept, all, passed) && !AcceptsAll(accept, all)
  {
    assert all[..|passed|] == passed;
    forall k | 0 < k < |passed| ensures accept(all[..k]) {
      assert all[..k] == texts[..k];
    }
  }

  // ---- The two ways to ask the model ----

  /** The open-ended index loop: it stops at the first index with no call. */
  method BuildAnswer(ghost ds: seq<Delta>, content: string, calls: map<int, ToolCall>, usage: Usage, valid: string -> bool)
    returns (r: Result)
    requires Collected(ds, calls)
    ensures Assembles(ds, content, usage, valid, r)
  {
    var answer: seq<ToolCall> := [];
    ghost var left := calls.Keys;
    while true
      invariant forall i :: 0 <= i < |answer| ==> Of(ds, i) != [] && answer[i] == CallOf(ds, i) && Usable(answer[i], valid)
      invariant forall i :: i in calls && i >= |answer| ==> i in left
      decreases left
    {
      assert CollectedAt(ds, calls, |answer|);
      if |answer| !in calls { break; }
      var call := calls[|answer|];
      if call.id == "" || call.name == "" || !valid(call.arguments) {
        return Failed(InvalidCall(|answer|));
      }
      left := left - {|answer|};
      answer := answer + [call];
    }
    r := Answer(Message(content, answer), usage);
  }

  method CompleteStream(body: Body, accept: seq<string> -> bool, valid: string -> bool) returns (passed: seq<string>, r: Result)
    ensures StreamResult(body, accept, valid, passed, r)
  {
    var failure, content, calls, usage;
    failure, content, passed, calls, usage := ReadLines(body, accept);
    if failure.Some? { return passed, Failed(failure.value); }
    r := BuildAnswer(Deltas(Choices(body.lines)), content, calls, usage, valid);
  }

  /** What Complete makes of a whole response: only the arguments are checked. */
  predicate CompleteResult(choices: seq<Message>, usage: Usage, valid: string -> bool, r: Result) {
    if choices == [] then r == Failed(NoChoices)
    else
      var calls := choices[0].calls;
      match r
      case Answer(message, u) =>
        message == choices[0] && u == usage && forall i :: 0 <= i < |calls| ==> valid(calls[i].arguments)
      case Failed(reason) =>
        reason.InvalidCall? && reason.position < |calls| && !valid(calls[reason.position].arguments) &&
        forall i :: 0 <= i < reason.position ==> valid(calls[i].arguments)
  }

  method Complete(choices: seq<Message>, usage: Usage, valid: string -> bool) returns (r: Result)
    ensures CompleteResult(choices, usage, valid, r)
    ensures r == Failed(NoChoices) <==> choices == []
    ensures choices != [] ==>
              (r == Answer(choices[0], usage) <==> forall i :: 0 <= i < |choices[0].calls| ==> valid(choices[0].calls[i].arguments))
  {
    if choices == [] { return Failed(NoChoices); }
    var calls: seq<ToolCall> := [];
    for k := 0 to |choices[0].calls|
      invariant calls == choices[0].calls[..k]
      invariant forall i :: 0 <= i < k ==> valid(choices[0].calls[i].arguments)
    {
      var call := choices[0].calls[k];
      if !valid(call.arguments) { return Failed(InvalidCall(k)); }
      calls := calls + [call];
    }
    r := Answer(Message(choices[0].content, calls), usage);
  }
}
