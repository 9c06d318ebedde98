/** Streamed answers, whatever the lines, choices and fragments they were cut into:
    what the stream gives back, stated about the cuts, and how it compares with an
    answer that is not streamed. */
module LlmAnswers {
  import opened LlmStream

  // ---- Cutting ----

  /** The whole is cut into the parts, in order: taking the last part off its end
      leaves a whole that is cut into the others. */
  predicate CutInto<T(==)>(whole: seq<T>, parts: seq<seq<T>>)
    decreases |parts|
  {
    if parts == [] then whole == []
    else
      var n, last := |parts| - 1, parts[|parts| - 1];
      |last| <= |whole| && whole[|whole| - |last|..] == last && CutInto(whole[..|whole| - |last|], parts[..n])
  }

  function Join<T>(parts: seq<seq<T>>): seq<T> {
    if parts == [] then [] else Join(parts[..|parts| - 1]) + parts[|parts| - 1]
  }

  /** Only one whole can be cut into given parts. */
  lemma {:induction false} CutExactly<T>(whole: seq<T>, parts: seq<seq<T>>)
    ensures CutInto(whole, parts) <==> whole == Join(parts)
    decreases |parts|
  {
    if parts != [] {
      var n, last := |parts| - 1, parts[|parts| - 1];
      if |last| <= |whole| {
        var c := |whole| - |last|;
        CutExactly(whole[..c], parts[..n]);
        assert whole == whole[..c] + whole[c..];
        if whole == Join(parts) { assert whole[..c] == Join(parts[..n]) && whole[c..] == last; }
      }
    }
  }

  // ---- Where a body stops ----

  predicate Stops(line: Line) {
    line.Done? || line.Undecodable?
  }

  /** The first `n` lines are read: either line `n` stops the reading, or there is no
      further line. */
  predicate StopsAt(lines: seq<Line>, n: nat) {
    n <= |lines| && (forall j :: 0 <= j < n ==> !Stops(lines[j])) && (n < |lines| ==> Stops(lines[n]))
  }

  function ChoicesOf(line: Line): seq<Choice> {
    if line.Chunk? then line.choices else []
  }

  function LineChoices(lines: seq<Line>): seq<seq<Choice>> {
    seq(|lines|, i requires 0 <= i < |lines| => ChoicesOf(lines[i]))
  }

  function ChoiceTexts(choices: seq<Choice>): seq<string> {
    seq(|choices|, i requires 0 <= i < |choices| => choices[i].content)
  }

  function ChoiceDeltas(choices: seq<Choice>): seq<seq<Delta>> {
    seq(|choices|, i requires 0 <= i < |choices| => choices[i].deltas)
  }

  function Arguments(parts: seq<Delta>): seq<string> {
    seq(|parts|, i requires 0 <= i < |parts| => parts[i].arguments)
  }

  lemma JoinLast<T>(parts: seq<seq<T>>, last: seq<T>)
    ensures Join(parts + [last]) == Join(parts) + last
  {
    assert (parts + [last])[..|parts|] == parts;
  }

  lemma {:induction false} JoinFirst<T>(first: seq<T>, rest: seq<seq<T>>)
    ensures Join([first] + rest) == first + Join(rest)
    decreases |rest|
  {
    if rest == [] {
      assert [first] + rest == [] + [first];
      JoinLast([], first);
    } else {
      var init, last := rest[..|rest| - 1], rest[|rest| - 1];
      JoinFirst(first, init);
      JoinLast([first] + init, last);
      assert [first] + rest == [first] + init + [last];
    }
  }

  lemma {:induction false} ReadsUpTo(lines: seq<Line>, n: nat)
    requires StopsAt(lines, n)
    ensures Choices(lines) == Join(LineChoices(lines[..n]))
    ensures EndOf(lines) == if n == |lines| then AtEnd else if lines[n].Done? then AtDone else AtUndecodable
    decreases |lines|
  {
    if n > 0 {
      ReadsUpTo(lines[1..], n - 1);
      assert lines[1..][..n - 1] == lines[..n][1..];
      assert LineChoices(lines[..n]) == [ChoicesOf(lines[0])] + LineChoices(lines[1..][..n - 1]);
      JoinFirst(ChoicesOf(lines[0]), LineChoices(lines[1..][..n - 1]));
    }
  }

  /** Line `k` has the last report with a non-zero total among the first `n` lines. */
  predicate Reports(lines: seq<Line>, n: nat, k: nat, u: Usage)
    requires n <= |lines|
  {
    k < n && lines[k].Chunk? && lines[k].usage == u && u.total != 0 &&
    forall j :: k < j < n && lines[j].Chunk? ==> lines[j].usage.total == 0
  }

  /** The last such report, or `before` if there is none. */
  predicate UsageIs(lines: seq<Line>, n: nat, before: Usage, u: Usage)
    requires n <= |lines|
  {
    (u == before && forall j :: 0 <= j < n && lines[j].Chunk? ==> lines[j].usage.total == 0) ||
    exists k :: 0 <= k < n && Reports(lines, n, k, u)
  }

  lemma {:induction false} UsageReported(lines: seq<Line>, n: nat, before: Usage)
    requires StopsAt(lines, n)
    ensures UsageIs(lines, n, before, UsageOf(lines, before))
    decreases |lines|
  {
    if n > 0 {
      var first, u := lines[0].Chunk? && lines[0].usage.total != 0, UsageOf(lines, before);
      var next := if first then lines[0].usage else before;
      var rest, m := lines[1..], n - 1;
      UsageReported(rest, m, next);
      assert forall j :: 0 <= j < m ==> rest[j] == lines[j + 1];
      if k :| 0 <= k < m && Reports(rest, m, k, u) {
        assert lines[k + 1] == rest[k];
        forall j | k + 1 < j < n && lines[j].Chunk? ensures lines[j].usage.total == 0 { assert rest[j - 1] == lines[j]; }
        assert Reports(lines, n, k + 1, u);
      } else {
        forall j | 0 < j < n && lines[j].Chunk? ensures lines[j].usage.total == 0 { assert rest[j - 1] == lines[j]; }
        if first { assert Reports(lines, n, 0, u); }
      }
    }
  }

  lemma {:induction false} TextsJoin(choices: seq<Choice>)
    ensures Concat(Texts(choices)) == Join(ChoiceTexts(choices))
    ensures Deltas(choices) == Join(ChoiceDeltas(choices))
  {
    if choices != [] {
      var n := |choices| - 1;
      TextsJoin(choices[..n]);
      assert ChoiceTexts(choices)[..n] == ChoiceTexts(choices[..n]);
      assert ChoiceDeltas(choices)[..n] == ChoiceDeltas(choices[..n]);
      AppendText(Texts(choices[..n]), choices[n].content);
    }
  }

  lemma {:induction false} TextsSaySomething(choices: seq<Choice>)
    ensures "" !in Texts(choices)
  {
    if choices != [] { TextsSaySomething(choices[..|choices| - 1]); }
  }

  lemma {:induction false} ConcatIsJoin(texts: seq<string>)
    ensures Concat(texts) == Join(texts)
  {
    if texts != [] { ConcatIsJoin(texts[..|texts| - 1]); }
  }

  lemma {:induction false} ArgumentsJoin(parts: seq<Delta>)
    ensures JoinedArguments(parts) == Join(Arguments(parts))
  {
    if parts != [] {
      ArgumentsJoin(parts[..|parts| - 1]);
      assert Arguments(parts)[..|parts| - 1] == Arguments(parts[..|parts| - 1]);
    }
  }

  // ---- Interleaving ----

  /** `ds` interleaves the streams, keeping the order inside each. */
  ghost predicate Interleaves(ds: seq<Delta>, streams: seq<seq<Delta>>) {
    if ds == [] then forall i :: 0 <= i < |streams| ==> streams[i] == []
    else exists i :: EndsWith(ds, streams, i) && Interleaves(ds[..|ds| - 1], WithoutLast(streams, i))
  }

  predicate EndsWith(ds: seq<Delta>, streams: seq<seq<Delta>>, i: int) {
    0 <= i < |streams| && streams[i] != [] && ds != [] && ds[|ds| - 1] == streams[i][|streams[i]| - 1]
  }

  function WithoutLast(streams: seq<seq<Delta>>, i: int): seq<seq<Delta>>
    requires 0 <= i < |streams| && streams[i] != []
  {
    streams[i := streams[i][..|streams[i]| - 1]]
  }

  predicate Indexed(streams: seq<seq<Delta>>) {
    forall i, k :: 0 <= i < |streams| && 0 <= k < |streams[i]| ==> streams[i][k].index == i
  }

  lemma {:induction false} InterleavingSeparates(ds: seq<Delta>, streams: seq<seq<Delta>>, index: int)
    requires Interleaves(ds, streams) && Indexed(streams)
    ensures Of(ds, index) == if 0 <= index < |streams| then streams[index] else []
    decreases |ds|
  {
    if ds != [] {
      var i :| EndsWith(ds, streams, i) && Interleaves(ds[..|ds| - 1], WithoutLast(streams, i));
      InterleavingSeparates(ds[..|ds| - 1], WithoutLast(streams, i), index);
      assert streams[i] == streams[i][..|streams[i]| - 1] + [streams[i][|streams[i]| - 1]];
    }
  }

  /** `parts` split one call: the arguments are cut anywhere, and the id and the
      name each travel with at least one part. */
  ghost predicate Splits(call: ToolCall, index: int, parts: seq<Delta>) {
    parts != [] && CutInto(call.arguments, Arguments(parts)) &&
    (forall k :: 0 <= k < |parts| ==> parts[k].index == index && parts[k].id in ["", call.id] && parts[k].name in ["", call.name]) &&
    (exists k :: 0 <= k < |parts| && parts[k].id == call.id) &&
    (exists k :: 0 <= k < |parts| && parts[k].name == call.name)
  }

  lemma {:induction false} LastIs(parts: seq<Delta>, id: string, name: string)
    requires forall k :: 0 <= k < |parts| ==> parts[k].id in ["", id] && parts[k].name in ["", name]
    ensures LastId(parts) == if exists k :: 0 <= k < |parts| && parts[k].id == id then id else ""
    ensures LastName(parts) == if exists k :: 0 <= k < |parts| && parts[k].name == name then name else ""
  {
    if parts != [] { LastIs(parts[..|parts| - 1], id, name); }
  }

  ghost predicate SplitCalls(calls: seq<ToolCall>, streams: seq<seq<Delta>>) {
    |streams| == |calls| && forall i :: 0 <= i < |calls| ==> Splits(calls[i], i, streams[i])
  }

  lemma SplitsRecover(calls: seq<ToolCall>, streams: seq<seq<Delta>>, ds: seq<Delta>)
    requires SplitCalls(calls, streams) && Interleaves(ds, streams)
    ensures AreCalls(ds, calls)
  {
    forall i | 0 <= i < |calls| ensures Of(ds, i) != [] && CallOf(ds, i) == calls[i] {
      InterleavingSeparates(ds, streams, i);
      LastIs(streams[i], calls[i].id, calls[i].name);
      ArgumentsJoin(streams[i]);
      CutExactly(calls[i].arguments, Arguments(streams[i]));
    }
    InterleavingSeparates(ds, streams, |calls|);
  }

  lemma CallsAreUnique(ds: seq<Delta>, a: seq<ToolCall>, b: seq<ToolCall>)
    requires AreCalls(ds, a) && AreCalls(ds, b)
    ensures a == b
  {
  }

  // ---- Bodies that carry a message ----

  /** The first `n` lines hold these choices, which hold this content and these
      fragments. */
  ghost predicate Holds(body: Body, n: nat, choices: seq<Choice>, content: string, ds: seq<Delta>) {
    StopsAt(body.lines, n) && CutInto(choices, LineChoices(body.lines[..n])) &&
    CutInto(content, ChoiceTexts(choices)) && CutInto(ds, ChoiceDeltas(choices))
  }

  /** The body ends with the mark, or with the file. */
  predicate EndsWell(body: Body, n: nat) {
    if n < |body.lines| then body.lines[n].Done? else !body.broken
  }

  /** A response body that carries `message` in fragments and ends well. */
  ghost predicate Carries(body: Body, n: nat, message: Message, streams: seq<seq<Delta>>) {
    EndsWell(body, n) && SplitCalls(message.calls, streams) &&
    exists choices, ds :: Holds(body, n, choices, message.content, ds) && Interleaves(ds, streams)
  }

  lemma HoldsExactly(body: Body, n: nat, choices: seq<Choice>, content: string, ds: seq<Delta>)
    requires Holds(body, n, choices, content, ds)
    ensures Choices(body.lines) == choices && Concat(Texts(choices)) == content && Deltas(choices) == ds
  {
    ReadsUpTo(body.lines, n);
    CutExactly(choices, LineChoices(body.lines[..n]));
    CutExactly(content, ChoiceTexts(choices));
    CutExactly(ds, ChoiceDeltas(choices));
    TextsJoin(choices);
  }

  predicate AllUsable(calls: seq<ToolCall>, valid: string -> bool) {
    forall i :: 0 <= i < |calls| ==> calls[i].id != "" && calls[i].name != "" && valid(calls[i].arguments)
  }

  /** However the message was cut and interleaved, the stream gives it back, unless the
      callback fails, and it is refused only for a call that is itself unusable: the
      first one. The callback sees the content, cut into non-empty pieces. */
  lemma StreamReassembles(body: Body, n: nat, message: Message, streams: seq<seq<Delta>>, accept: seq<string> -> bool,
                          valid: string -> bool, passed: seq<string>, r: Result)
    requires Carries(body, n, message, streams) && StreamResult(body, accept, valid, passed, r) && r != Failed(CallbackFailed)
    ensures CutInto(message.content, passed) && "" !in passed
    ensures AllUsable(message.calls, valid) ==> r.Answer? && r.message == message && UsageIs(body.lines, n, Usage(0, 0, 0), r.usage)
    ensures !AllUsable(message.calls, valid) ==>
              r.Failed? && r.reason.InvalidCall? && r.reason.position < |message.calls| &&
              AllUsable(message.calls[..r.reason.position], valid) && !AllUsable([message.calls[r.reason.position]], valid)
  {
    var choices, ds :| Holds(body, n, choices, message.content, ds) && Interleaves(ds, streams);
    HoldsExactly(body, n, choices, message.content, ds);
    ReadsUpTo(body.lines, n);
    ConcatIsJoin(passed);
    CutExactly(message.content, passed);
    TextsSaySomething(choices);
    SplitsRecover(message.calls, streams, ds);
    UsageReported(body.lines, n, Usage(0, 0, 0));
    GivesBack(ds, message, UsageOf(body.lines, Usage(0, 0, 0)), valid, r);
  }

  lemma GivesBack(ds: seq<Delta>, message: Message, usage: Usage, valid: string -> bool, r: Result)
    requires Assembles(ds, message.content, usage, valid, r) && AreCalls(ds, message.calls)
    ensures AllUsable(message.calls, valid) ==> r == Answer(message, usage)
    ensures !AllUsable(message.calls, valid) ==>
              r.Failed? && r.reason.InvalidCall? && r.reason.position < |message.calls| &&
              AllUsable(message.calls[..r.reason.position], valid) && !AllUsable([message.calls[r.reason.position]], valid)
  {
    assert Of(ds, |message.calls|) == [];
    if r.Answer? {
      CallsAreUnique(ds, message.calls, r.message.calls);
    } else {
      var call := message.calls[r.reason.position];
      assert [call][0] == call;
    }
  }

  /** A body that does not end well is refused for how it ends, and a callback that
      fails ends the reading: it accepted every earlier list of pieces, but not this one. */
  lemma StreamFails(body: Body, n: nat, accept: seq<string> -> bool, valid: string -> bool, passed: seq<string>, r: Result)
    requires StopsAt(body.lines, n) && StreamResult(body, accept, valid, passed, r)
    ensures r != Failed(CallbackFailed) && n < |body.lines| && body.lines[n].Undecodable? ==> r == Failed(DecodeFailed)
    ensures r != Failed(CallbackFailed) && n == |body.lines| && body.broken ==> r == Failed(ReadFailed)
    ensures r == Failed(DecodeFailed) ==> n < |body.lines| && body.lines[n].Undecodable?
    ensures r == Failed(ReadFailed) ==> n == |body.lines| && body.broken
    ensures r == Failed(CallbackFailed) ==> passed != [] && !accept(passed) && forall k :: 0 < k < |passed| ==> accept(passed[..k])
  {
    ReadsUpTo(body.lines, n);
    if r == Failed(CallbackFailed) {
      forall k | 0 < k < |passed| ensures accept(passed[..k]) {
        assert passed[..k] == Texts(Choices(body.lines))[..k];
      }
    }
  }

  // Fragments of one call that disagree: the last id and the last name that are not
  // empty count.

  predicate HasLastId(parts: seq<Delta>, k: nat, id: string) {
    k < |parts| && parts[k].id == id != "" && forall j :: k < j < |parts| ==> parts[j].id == ""
  }

  lemma {:induction false} LastIdCounts(parts: seq<Delta>) returns (k: nat)
    ensures if LastId(parts) == "" then forall j :: 0 <= j < |parts| ==> parts[j].id == "" else HasLastId(parts, k, LastId(parts))
  {
    k := 0;
    if parts != [] {
      var init := parts[..|parts| - 1];
      k := LastIdCounts(init);
      assert forall j :: 0 <= j < |init| ==> init[j] == parts[j];
      if parts[|init|].id != "" { k := |init|; }
    }
  }

  predicate HasLastName(parts: seq<Delta>, k: nat, name: string) {
    k < |parts| && parts[k].name == name != "" && forall j :: k < j < |parts| ==> parts[j].name == ""
  }

  lemma {:induction false} LastNameCounts(parts: seq<Delta>) returns (k: nat)
    ensures if LastName(parts) == "" then forall j :: 0 <= j < |parts| ==> parts[j].name == "" else HasLastName(parts, k, LastName(parts))
  {
    k := 0;
    if parts != [] {
      var init := parts[..|parts| - 1];
      k := LastNameCounts(init);
      assert forall j :: 0 <= j < |init| ==> init[j] == parts[j];
      if parts[|init|].name != "" { k := |init|; }
    }
  }

  predicate SameMessage(a: Result, b: Result) {
    a.Answer? == b.Answer? && (a.Answer? ==> a.message == b.message)
  }

  /** The two ways agree on a message exactly when every call has an id and a
      name, or some call's arguments make both refuse it. */
  lemma StreamingAgrees(body: Body, n: nat, message: Message, streams: seq<seq<Delta>>, accept: seq<string> -> bool,
                        valid: string -> bool, passed: seq<string>, streamed: Result, usage: Usage, whole: Result)
    requires Carries(body, n, message, streams) && StreamResult(body, accept, valid, passed, streamed)
    requires streamed != Failed(CallbackFailed) && CompleteResult([message], usage, valid, whole)
    ensures SameMessage(streamed, whole) <==>
              (exists i :: 0 <= i < |message.calls| && !valid(message.calls[i].arguments)) ||
              (forall i :: 0 <= i < |message.calls| ==> message.calls[i].id != "" && message.calls[i].name != "")
  {
    StreamReassembles(body, n, message, streams, accept, valid, passed, streamed);
  }
}
