/** What the agent loop concludes from a tool's output, stated about that output:
    which ids become targets, and when the run pauses for an approval. */
module AgentPayload {
  import opened Basics
  import opened Sanitize
  import opened AgentProtocol

  lemma OkShown()
    ensures !Secret("ok")
  {
    Harmless("ok", "ppctapadcc");
  }

  lemma ResultShown()
    ensures !Secret("result")
  {
    Harmless("result", "ppcoapadcc");
  }

  lemma WorkersShown()
    ensures !Secret("workers")
  {
    Harmless("workers", "ppctapadcc");
  }

  lemma JobsShown()
    ensures !Secret("jobs")
  {
    Harmless("jobs", "ppetapadcc");
  }

  lemma IdShown()
    ensures !Secret("id")
  {
    Harmless("id", "ppetapascc");
  }

  lemma StatusShown()
    ensures !Secret("status")
  {
    Harmless("status", "ppeoyphdcc");
  }

  /** The model sees whether the call succeeded, the sanitized output, and the
      sanitized text of the error if there was one. */
  lemma PayloadShows(w: World, output: Value, error: Option<string>)
    ensures var p := PayloadOf(w, output, error);
            p.Keys == {"ok", "result"} + (if error.Some? then {"error"} else {}) &&
            p["ok"] == Other(if error.Some? then "false" else "true") && p["result"] == Plain(w.redact, output) &&
            (error.Some? ==> p["error"] == Str(Text(w.redact, error.value)))
  {
    PairSanitized(w.redact, Other(if error.None? then "true" else "false"), output);
    LeafSanitized(w.redact, Other(if error.None? then "true" else "false"));
  }

  lemma PairSanitized(redact: string -> string, ok: Value, result: Value)
    ensures var m := SanitizeMap(redact, map["ok" := ok, "result" := result]);
            m.Keys == {"ok", "result"} && m["ok"] == Plain(redact, ok) && m["result"] == Plain(redact, result)
  {
    OkShown();
    ResultShown();
    var m := map["ok" := ok, "result" := result];
    SecretsMasked(redact, m, "ok");
    SecretsMasked(redact, m, "result");
    assert m.Keys == {"ok", "result"};
  }

  /** The objects listed under a name of the output. */
  predicate HasList(output: Value, name: string) {
    output.Obj? && name in output.fields && output.fields[name].ObjList?
  }

  lemma ListSanitized(redact: string -> string, output: Value, name: string)
    requires !Secret(name)
    ensures HasList(Plain(redact, output), name) <==> HasList(output, name)
    ensures HasList(output, name) ==>
              var was, now := output.fields[name].objects, Plain(redact, output).fields[name].objects;
              |now| == |was| && forall i :: 0 <= i < |was| ==> now[i] == Plain(redact, was[i])
  {
    FieldSanitized(redact, output, name);
    if output.Obj? && name in output.fields {
      KindKept(redact, output.fields[name]);
      if output.fields[name].ObjList? { ObjectsSanitized(redact, output.fields[name]); }
    }
  }

  lemma EntriesOf(w: World, output: Value, error: Option<string>, name: string)
    requires name in {"workers", "jobs"}
    ensures var entries := ResultEntries(PayloadOf(w, output, error), name);
            if HasList(output, name) then
              |entries| == |output.fields[name].objects| &&
              forall i :: 0 <= i < |entries| ==> entries[i] == Plain(w.redact, output.fields[name].objects[i])
            else entries == []
  {
    if name == "workers" { WorkersShown(); } else { JobsShown(); }
    PayloadShows(w, output, error);
    ListSanitized(w.redact, output, name);
  }

  /** The job entry says that it waits for an approval. */
  predicate ReportsWaiting(w: World, entry: Value) {
    entry.Obj? && "status" in entry.fields &&
    ((entry.fields["status"].Str? && Text(w.redact, entry.fields["status"].s) == "waiting_approval") ||
     entry.fields["status"] == Other("waiting_approval"))
  }

  lemma WaitingSanitized(w: World, entry: Value)
    ensures IsWaiting(Plain(w.redact, entry)) <==> ReportsWaiting(w, entry)
  {
    StatusShown();
    FieldSanitized(w.redact, entry, "status");
    if entry.Obj? && "status" in entry.fields {
      KindKept(w.redact, entry.fields["status"]);
      LeafSanitized(w.redact, entry.fields["status"]);
    }
  }

  /** A run pauses after a tool call exactly when its output lists a job that waits
      for an approval, whether or not the call failed. */
  lemma PausesExactly(w: World, output: Value, error: Option<string>)
    ensures NeedsApproval(PayloadOf(w, output, error)) <==>
            HasList(output, "jobs") &&
            exists i :: 0 <= i < |output.fields["jobs"].objects| && ReportsWaiting(w, output.fields["jobs"].objects[i])
  {
    EntriesOf(w, output, error, "jobs");
    var entries := ResultEntries(PayloadOf(w, output, error), "jobs");
    if HasList(output, "jobs") {
      var was := output.fields["jobs"].objects;
      forall i | 0 <= i < |was| ensures IsWaiting(entries[i]) <==> ReportsWaiting(w, was[i]) { WaitingSanitized(w, was[i]); }
      if NeedsApproval(PayloadOf(w, output, error)) {
        var entry :| entry in entries && IsWaiting(entry);
        var i :| 0 <= i < |entries| && entries[i] == entry;
        assert ReportsWaiting(w, was[i]);
      }
      if i :| 0 <= i < |was| && ReportsWaiting(w, was[i]) {
        assert entries[i] in entries && IsWaiting(entries[i]);
      }
    }
  }

  /** The worker entry names this id. */
  predicate Names(w: World, entry: Value, id: string) {
    id != "" && entry.Obj? && "id" in entry.fields && entry.fields["id"].Str? && Text(w.redact, entry.fields["id"].s) == id
  }

  lemma NameSanitized(w: World, entry: Value, id: string)
    ensures NamesWorker(Plain(w.redact, entry), id) <==> Names(w, entry, id)
  {
    IdShown();
    FieldSanitized(w.redact, entry, "id");
    if entry.Obj? && "id" in entry.fields {
      KindKept(w.redact, entry.fields["id"]);
      LeafSanitized(w.redact, entry.fields["id"]);
    }
  }

  /** The ids that a list_workers output makes targets are exactly the non-empty
      ones of the workers it lists, as sanitizing leaves them. */
  lemma DiscoversExactly(w: World, output: Value, id: string)
    ensures id in DiscoveredIn(PayloadOf(w, output, None)) <==>
            HasList(output, "workers") &&
            exists i :: 0 <= i < |output.fields["workers"].objects| && Names(w, output.fields["workers"].objects[i], id)
  {
    EntriesOf(w, output, None, "workers");
    var entries := ResultEntries(PayloadOf(w, output, None), "workers");
    if HasList(output, "workers") {
      var was := output.fields["workers"].objects;
      forall i | 0 <= i < |was| ensures NamesWorker(entries[i], id) <==> Names(w, was[i], id) { NameSanitized(w, was[i], id); }
      if Lists(PayloadOf(w, output, None), id) {
        var entry :| entry in entries && NamesWorker(entry, id);
        var i :| 0 <= i < |entries| && entries[i] == entry;
        assert Names(w, was[i], id);
      }
      if i :| 0 <= i < |was| && Names(w, was[i], id) {
        assert entries[i] in entries && NamesWorker(entries[i], id);
      }
    }
  }
}
