/** What the report of a sync and the rows it saves mean, and which files it takes,
    stated about the directory and the store. */
module ConfigSyncReport {
  import opened Basics
  import opened ConfigSync
  import opened ConfigSyncTheorems

  // ---- The counters ----

  lemma {:induction false} PrefixReadable(c: Call, entries: seq<Entry>)
    requires entries != [] && AllReadable(c, entries)
    ensures AllReadable(c, entries[..|entries| - 1])
  {
    var init := entries[..|entries| - 1];
    forall i | SourceAt(c, init, i) ensures !c.unreadable(i) {
      SourcesOfPrefix(c, entries, i);
      assert SourceAt(c, entries, i);
    }
  }

  /** One entry saves nothing, or exactly its own key. */
  lemma StepWrites(c: Call, s: State, e: Entry, i: nat)
    ensures var t := Step(c, s, e, i);
            (t.writes == s.writes && t.configs == s.configs &&
             t.report.imported == s.report.imported && t.report.updated == s.report.updated) ||
            (Look(c, e).Source? && !t.failed &&
             var key := KeyOf(Look(c, e));
             t.writes == s.writes + [key] && t.configs == s.configs[key := Saved(s.configs, Look(c, e), c.clock(i))] &&
             if key !in s.configs || c.unreadable(i)
             then t.report.imported == s.report.imported + 1 && t.report.updated == s.report.updated
             else t.report.imported == s.report.imported && t.report.updated == s.report.updated + 1 && c.enforce)
    ensures c.enforce ==> Step(c, s, e, i).report.drifted == s.report.drifted
  {
  }

  lemma NewKey(configs: Configs, key: string, row: Config)
    ensures |configs[key := row].Keys| == |configs.Keys| + if key in configs then 0 else 1
  {
    if key in configs {
      assert configs[key := row].Keys == configs.Keys;
    } else {
      assert configs[key := row].Keys == configs.Keys + {key};
    }
  }

  /** Every save is an import or an update. When lookups do not fail, the imports are
      the entries that were not there before; enforce mode leaves nothing drifted, and
      missing mode updates nothing. */
  lemma {:induction false} CountersMean(c: Call, configs: Configs, entries: seq<Entry>)
    ensures var t := Sync(c, configs, entries);
            |t.writes| == t.report.imported + t.report.updated && configs.Keys <= t.configs.Keys &&
            (AllReadable(c, entries) ==> t.report.imported == |t.configs.Keys| - |configs.Keys|) &&
            (if c.enforce then t.report.drifted == [] else t.report.updated == 0)
  {
    if entries != [] {
      var init, n := entries[..|entries| - 1], |entries| - 1;
      CountersMean(c, configs, init);
      var s, e := Sync(c, configs, init), entries[n];
      StepWrites(c, s, e, n);
      if AllReadable(c, entries) {
        PrefixReadable(c, entries);
        if Look(c, e).Source? {
          assert SourceAt(c, entries, n);
          NewKey(s.configs, KeyOf(Look(c, e)), Saved(s.configs, Look(c, e), c.clock(n)));
        }
      }
    }
  }

  // ---- Drift ----

  /** In missing mode a readable entry keeps its content once it is there. */
  lemma {:induction false} ContentStays(c: Call, configs: Configs, entries: seq<Entry>, k: nat, key: string)
    requires !c.enforce && AllReadable(c, entries) && k <= |entries| && key in Sync(c, configs, entries[..k]).configs
    ensures key in Sync(c, configs, entries).configs
    ensures Sync(c, configs, entries).configs[key].content == Sync(c, configs, entries[..k]).configs[key].content
  {
    if k == |entries| {
      assert entries[..k] == entries;
    } else {
      var init, n := entries[..|entries| - 1], |entries| - 1;
      PrefixReadable(c, entries);
      assert init[..k] == entries[..k];
      ContentStays(c, configs, init, k, key);
      assert SourceAt(c, entries, n) ==> !c.unreadable(n);
    }
  }

  predicate Differs(c: Call, configs: Configs, entries: seq<Entry>, i: int)
    requires SourceAt(c, entries, i)
  {
    SourceKey(c, entries, i) in configs && c.hash(configs[SourceKey(c, entries, i)].content) != c.hash(Look(c, entries[i]).content)
  }

  /** A missing-mode sync whose lookups succeed reports as drifted exactly the entries
      that differ from some file of the directory. */
  lemma {:induction false} DriftedDiffers(c: Call, configs: Configs, entries: seq<Entry>, key: string)
    requires !c.enforce && AllReadable(c, entries) && !Sync(c, configs, entries).failed
    ensures key in Sync(c, configs, entries).report.drifted <==>
            exists i :: SourceAt(c, entries, i) && SourceKey(c, entries, i) == key &&
                        Differs(c, Sync(c, configs, entries).configs, entries, i)
  {
    if entries != [] {
      var init, n := entries[..|entries| - 1], |entries| - 1;
      PrefixReadable(c, entries);
      DriftedDiffers(c, configs, init, key);
      forall i | SourceAt(c, init, i)
        ensures SourceAt(c, entries, i) && SourceKey(c, entries, i) == SourceKey(c, init, i)
        ensures Differs(c, Sync(c, configs, entries).configs, entries, i) <==> Differs(c, Sync(c, configs, init).configs, init, i)
      {
        SourcesOfPrefix(c, entries, i);
        FilesPresent(c, configs, init, i);
        assert entries[..n] == init;
        ContentStays(c, configs, entries, n, SourceKey(c, init, i));
      }
      LastDrifts(c, configs, entries);
      if i :| SourceAt(c, entries, i) && SourceKey(c, entries, i) == key && Differs(c, Sync(c, configs, entries).configs, entries, i) {
        if i < n { SourcesOfPrefix(c, entries, i); assert SourceAt(c, init, i); }
      }
    }
  }

  lemma LastDrifts(c: Call, configs: Configs, entries: seq<Entry>)
    requires entries != [] && !c.enforce && AllReadable(c, entries) && !Sync(c, configs, entries).failed
    ensures var init, n := entries[..|entries| - 1], |entries| - 1;
            Sync(c, configs, entries).report.drifted == Sync(c, configs, init).report.drifted +
              if SourceAt(c, entries, n) && Differs(c, Sync(c, configs, entries).configs, entries, n)
              then [SourceKey(c, entries, n)] else []
  {
    var n := |entries| - 1;
    assert SourceAt(c, entries, n) ==> !c.unreadable(n);
  }

  // ---- Saved rows ----

  /** The row is what file `i` says, as of its save. */
  predicate IsFrom(c: Call, entries: seq<Entry>, i: int, row: Config)
    requires SourceAt(c, entries, i)
  {
    var s := Look(c, entries[i]);
    row.id == s.id && row.kind == s.kind && row.name == s.name && row.content == s.content && row.active && row.updatedAt == c.clock(i)
  }

  lemma SavedIsFrom(c: Call, configs: Configs, entries: seq<Entry>, i: int)
    requires SourceAt(c, entries, i)
    ensures var row := Saved(configs, Look(c, entries[i]), c.clock(i));
            IsFrom(c, entries, i, row) && row.createdAt.Some? &&
            var key := SourceKey(c, entries, i);
            key in configs && configs[key].createdAt.Some? ==> row.createdAt == configs[key].createdAt
  {
  }

  predicate FromFile(c: Call, entries: seq<Entry>, i: int, key: string, row: Config) {
    SourceAt(c, entries, i) && SourceKey(c, entries, i) == key && IsFrom(c, entries, i, row)
  }

  lemma PrefixFrom(c: Call, entries: seq<Entry>, i: int, key: string, row: Config)
    requires entries != [] && FromFile(c, entries[..|entries| - 1], i, key, row)
    ensures FromFile(c, entries, i, key, row)
  {
    SourcesOfPrefix(c, entries, i);
  }

  /** A saved entry has every column from one of its files, and the creation time it
      had before, if it had one. */
  lemma {:induction false} SavedRows(c: Call, configs: Configs, entries: seq<Entry>, key: string) returns (i: int)
    requires key in Sync(c, configs, entries).writes
    ensures var t := Sync(c, configs, entries);
            key in t.configs && FromFile(c, entries, i, key, t.configs[key]) && t.configs[key].createdAt.Some? &&
            (key in configs && configs[key].createdAt.Some? ==> t.configs[key].createdAt == configs[key].createdAt)
  {
    var init, n := entries[..|entries| - 1], |entries| - 1;
    var s, t := Sync(c, configs, init), Sync(c, configs, entries);
    KeepsCreation(c, configs, init, key);
    StepWrites(c, s, entries[n], n);
    if t.writes != s.writes && KeyOf(Look(c, entries[n])) == key {
      i := n;
      SavedIsFrom(c, s.configs, entries, n);
    } else {
      i := SavedRows(c, configs, init, key);
      PrefixFrom(c, entries, i, key, s.configs[key]);
    }
  }

  lemma {:induction false} KeepsCreation(c: Call, configs: Configs, entries: seq<Entry>, key: string)
    ensures key in configs && configs[key].createdAt.Some? ==>
              key in Sync(c, configs, entries).configs && Sync(c, configs, entries).configs[key].createdAt == configs[key].createdAt
  {
    if entries != [] { KeepsCreation(c, configs, entries[..|entries| - 1], key); }
  }

  // ---- Which files are taken ----

  /** A YAML file in a directory of templates or policies is taken under the id of its
      header, a policy without one under "default"; nothing else is. */
  lemma FilesTaken(c: Call, e: Entry, kind: string, id: string, name: string, content: string)
    ensures Look(c, e) == Source(kind, id, name, content) <==>
            e.File? && (e.extension == ".yaml" || e.extension == ".yml") && e.parent == kind && e.content == Some(content) &&
            (kind == "templates" || kind == "policies") && c.header(kind, content).Some? &&
            var header := c.header(kind, content).value;
            header.name == name && id != "" &&
            (header.id == id || (kind == "policies" && id == "default" && header.id == ""))
  {
  }

  /** The walk ends at an entry that cannot be walked to, or a YAML file there that
      cannot be read or has no usable header. */
  lemma FilesRefused(c: Call, e: Entry)
    ensures Look(c, e).Bad? <==>
            e.WalkError? ||
            (e.File? && (e.extension == ".yaml" || e.extension == ".yml") && (e.parent == "templates" || e.parent == "policies") &&
             (e.content.None? || c.header(e.parent, e.content.value).None? ||
              (e.parent == "templates" && c.header(e.parent, e.content.value).value.id == "")))
  {
  }

  /** After a sync that ran to its end every such file has an entry under its kind
      and id. */
  lemma FilesStored(c: Call, configs: Configs, entries: seq<Entry>, i: nat, kind: string, content: string)
    requires !Sync(c, configs, entries).failed && i < |entries| && kind in {"templates", "policies"}
    requires entries[i] == File(".yaml", kind, Some(content)) || entries[i] == File(".yml", kind, Some(content))
    ensures c.header(kind, content).Some?
    ensures var id := c.header(kind, content).value.id;
            if id != "" then kind + "/" + id in Sync(c, configs, entries).configs
            else kind == "policies" && "policies/default" in Sync(c, configs, entries).configs
  {
    FinishedHasNoBad(c, configs, entries);
    assert !Look(c, entries[i]).Bad?;
    assert SourceAt(c, entries, i);
    FilesPresent(c, configs, entries, i);
    assert "policies" + "/" + "default" == "policies/default";
  }
}
