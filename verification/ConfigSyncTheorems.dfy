/** What a sync does to the stored configurations, over every directory. */
module ConfigSyncTheorems {
  import opened ConfigSync

  /** The walk ends at this entry. */
  predicate FailsAt(c: Call, configs: Configs, e: Entry, i: nat) {
    var s := Look(c, e);
    s.Bad? || (s.Source? && WritesAt(c, configs, s, i) && c.unsaved(i))
  }

  /** How many entries the walk got past. */
  function Reached(c: Call, configs: Configs, entries: seq<Entry>): (n: nat)
    ensures n <= |entries|
  {
    if entries == [] then 0
    else if !Sync(c, configs, entries).failed then |entries|
    else if Sync(c, configs, entries[..|entries| - 1]).failed then Reached(c, configs, entries[..|entries| - 1])
    else |entries| - 1
  }

  function Sources(c: Call, entries: seq<Entry>): nat {
    if entries == [] then 0
    else Sources(c, entries[..|entries| - 1]) + if Look(c, entries[|entries| - 1]).Source? then 1 else 0
  }

  function Total(r: Report): nat {
    r.imported + r.updated + r.inSync + |r.drifted|
  }

  lemma StepCounts(c: Call, st: State, e: Entry, i: nat)
    requires !st.failed
    ensures var t := Step(c, st, e, i);
            (t.failed <==> FailsAt(c, st.configs, e, i)) &&
            Total(t.report) == Total(st.report) + if !t.failed && Look(c, e).Source? then 1 else 0
  {
  }

  predicate Passed(c: Call, configs: Configs, entries: seq<Entry>, i: nat)
    requires i < |entries|
  {
    !FailsAt(c, Sync(c, configs, entries[..i]).configs, entries[i], i)
  }

  lemma {:induction false} FailedIsShort(c: Call, configs: Configs, entries: seq<Entry>)
    ensures Sync(c, configs, entries).failed <==> Reached(c, configs, entries) < |entries|
  {
    if entries != [] { FailedIsShort(c, configs, entries[..|entries| - 1]); }
  }

  /** The walk stops exactly at the first entry that fails. */
  lemma {:induction false} StopsAtFirst(c: Call, configs: Configs, entries: seq<Entry>, i: nat)
    requires i <= Reached(c, configs, entries) && i < |entries|
    ensures Passed(c, configs, entries, i) <==> i < Reached(c, configs, entries)
  {
    var init, n := entries[..|entries| - 1], |entries| - 1;
    FailedIsShort(c, configs, init);
    FailedIsShort(c, configs, entries);
    if i < n {
      StopsAtFirst(c, configs, init, i);
      assert init[..i] == entries[..i];
    } else {
      StepCounts(c, Sync(c, configs, init), entries[n], n);
    }
  }

  /** Every file the walk got past is counted once; the walk fails exactly when it
      did not get past all entries. */
  lemma {:induction false} CountersAddUp(c: Call, configs: Configs, entries: seq<Entry>)
    ensures Total(Sync(c, configs, entries).report) == Sources(c, entries[..Reached(c, configs, entries)])
    ensures Sync(c, configs, entries).failed <==> Reached(c, configs, entries) < |entries|
  {
    FailedIsShort(c, configs, entries);
    if entries != [] {
      var init, n := entries[..|entries| - 1], |entries| - 1;
      CountersAddUp(c, configs, init);
      if Sync(c, configs, init).failed {
        assert init[..Reached(c, configs, init)] == entries[..Reached(c, configs, init)];
      } else {
        StepCounts(c, Sync(c, configs, init), entries[n], n);
        assert init[..n] == init && entries[..n + 1] == entries;
      }
    }
  }

  predicate SourceAt(c: Call, entries: seq<Entry>, i: int) {
    0 <= i < |entries| && Look(c, entries[i]).Source?
  }

  function SourceKey(c: Call, entries: seq<Entry>, i: int): string
    requires SourceAt(c, entries, i)
  {
    KeyOf(Look(c, entries[i]))
  }

  lemma SourcesOfPrefix(c: Call, entries: seq<Entry>, i: int)
    requires 0 <= i < |entries| - 1
    ensures SourceAt(c, entries[..|entries| - 1], i) <==> SourceAt(c, entries, i)
    ensures entries[..|entries| - 1][i] == entries[i]
  {
  }

  // ---- Both modes ----

  lemma {:induction false} OthersUntouched(c: Call, configs: Configs, entries: seq<Entry>, key: string)
    requires forall i | SourceAt(c, entries, i) :: SourceKey(c, entries, i) != key
    ensures key in Sync(c, configs, entries).configs <==> key in configs
    ensures key in configs ==> Sync(c, configs, entries).configs[key] == configs[key]
  {
    if entries != [] {
      var init, n := entries[..|entries| - 1], |entries| - 1;
      forall i | SourceAt(c, init, i) ensures SourceKey(c, init, i) != key {
        SourcesOfPrefix(c, entries, i);
        assert SourceAt(c, entries, i);
      }
      OthersUntouched(c, configs, init, key);
      assert SourceAt(c, entries, n) ==> SourceKey(c, entries, n) != key;
    }
  }

  lemma {:induction false} FilesPresent(c: Call, configs: Configs, entries: seq<Entry>, i: nat)
    requires !Sync(c, configs, entries).failed && SourceAt(c, entries, i)
    ensures SourceKey(c, entries, i) in Sync(c, configs, entries).configs
  {
    if i < |entries| - 1 {
      FilesPresent(c, configs, entries[..|entries| - 1], i);
    }
  }

  // ---- What is written ----

  ghost predicate AllReadable(c: Call, entries: seq<Entry>) {
    forall i | SourceAt(c, entries, i) :: !c.unreadable(i)
  }

  /** A sync that runs to its end and saves nothing. */
  predicate Quiet(c: Call, configs: Configs, entries: seq<Entry>) {
    !Sync(c, configs, entries).failed && Sync(c, configs, entries).writes == []
  }

  predicate NoBad(c: Call, entries: seq<Entry>) {
    forall i | 0 <= i < |entries| :: !Look(c, entries[i]).Bad?
  }

  /** No file would be saved over these configurations. */
  ghost predicate NothingToWrite(c: Call, configs: Configs, entries: seq<Entry>) {
    forall i | SourceAt(c, entries, i) :: !WritesAt(c, configs, Look(c, entries[i]), i)
  }

  lemma NothingGrows(c: Call, configs: Configs, entries: seq<Entry>)
    requires entries != []
    ensures var init, n := entries[..|entries| - 1], |entries| - 1;
            NothingToWrite(c, configs, entries) <==>
            NothingToWrite(c, configs, init) && (SourceAt(c, entries, n) ==> !WritesAt(c, configs, Look(c, entries[n]), n))
  {
    var init, n := entries[..|entries| - 1], |entries| - 1;
    if NothingToWrite(c, configs, entries) {
      forall i | SourceAt(c, init, i) ensures !WritesAt(c, configs, Look(c, init[i]), i) {
        SourcesOfPrefix(c, entries, i);
        assert SourceAt(c, entries, i);
      }
    }
    if NothingToWrite(c, configs, init) && (SourceAt(c, entries, n) ==> !WritesAt(c, configs, Look(c, entries[n]), n)) {
      forall i | SourceAt(c, entries, i) ensures !WritesAt(c, configs, Look(c, entries[i]), i) {
        if i < n { SourcesOfPrefix(c, entries, i); assert SourceAt(c, init, i); }
      }
    }
  }

  lemma {:induction false} QuietExactly(c: Call, configs: Configs, entries: seq<Entry>)
    requires NoBad(c, entries)
    ensures Quiet(c, configs, entries) <==> NothingToWrite(c, configs, entries)
    ensures Sync(c, configs, entries).writes == [] ==> Sync(c, configs, entries).configs == configs
  {
    if entries != [] {
      var init, n := entries[..|entries| - 1], |entries| - 1;
      QuietExactly(c, configs, init);
      NothingGrows(c, configs, entries);
      assert !Look(c, entries[n]).Bad?;
    }
  }

  lemma {:induction false} FinishedHasNoBad(c: Call, configs: Configs, entries: seq<Entry>)
    requires !Sync(c, configs, entries).failed
    ensures NoBad(c, entries)
  {
    if entries != [] {
      FinishedHasNoBad(c, configs, entries[..|entries| - 1]);
      forall i | 0 <= i < |entries| ensures !Look(c, entries[i]).Bad? {
        if i < |entries| - 1 { assert entries[i] == entries[..|entries| - 1][i]; }
      }
    }
  }

  // ---- Missing mode ----

  /** Some file with this key that the walk got past could not be looked up. */
  predicate LookupFailed(c: Call, configs: Configs, entries: seq<Entry>, key: string) {
    exists i :: 0 <= i < Reached(c, configs, entries) && SourceAt(c, entries, i) && SourceKey(c, entries, i) == key && c.unreadable(i)
  }

  lemma LookupFailedGrows(c: Call, configs: Configs, entries: seq<Entry>, key: string)
    requires entries != []
    ensures var init, n := entries[..|entries| - 1], |entries| - 1;
            LookupFailed(c, configs, entries, key) <==>
            LookupFailed(c, configs, init, key) ||
            (!Sync(c, configs, entries).failed && SourceAt(c, entries, n) && SourceKey(c, entries, n) == key && c.unreadable(n))
  {
    var init, n := entries[..|entries| - 1], |entries| - 1;
    FailedIsShort(c, configs, init);
    if LookupFailed(c, configs, entries, key) {
      var i :| 0 <= i < Reached(c, configs, entries) && SourceAt(c, entries, i) && SourceKey(c, entries, i) == key && c.unreadable(i);
      if i < n { SourcesOfPrefix(c, entries, i); }
    }
    if LookupFailed(c, configs, init, key) {
      var i :| 0 <= i < Reached(c, configs, init) && SourceAt(c, init, i) && SourceKey(c, init, i) == key && c.unreadable(i);
      SourcesOfPrefix(c, entries, i);
      assert i < Reached(c, configs, entries);
    }
  }

  /** Missing mode saves over an entry that was there before exactly when looking
      it up failed for some file; otherwise the entry is unchanged. */
  lemma {:induction false} MissingChangesNothing(c: Call, configs: Configs, entries: seq<Entry>, key: string)
    requires !c.enforce && key in configs
    ensures var t := Sync(c, configs, entries);
            key in t.configs && (key in t.writes <==> LookupFailed(c, configs, entries, key)) &&
            (key !in t.writes ==> t.configs[key] == configs[key])
  {
    if entries != [] {
      MissingChangesNothing(c, configs, entries[..|entries| - 1], key);
      LookupFailedGrows(c, configs, entries, key);
    }
  }

  /** A second pass meets other times and other failures. */
  ghost predicate SameCall(c: Call, again: Call) {
    again == c.(clock := again.clock, unreadable := again.unreadable, unsaved := again.unsaved)
  }

  lemma SameLook(c: Call, again: Call, e: Entry)
    requires SameCall(c, again)
    ensures Look(again, e) == Look(c, e)
  {
  }

  lemma SameNoBad(c: Call, again: Call, entries: seq<Entry>)
    requires SameCall(c, again) && NoBad(c, entries)
    ensures NoBad(again, entries)
  {
    forall i | 0 <= i < |entries| ensures !Look(again, entries[i]).Bad? { SameLook(c, again, entries[i]); }
  }

  /** A missing-mode sync imports everything it can: a second one saves nothing
      exactly when all its lookups succeed. */
  lemma MissingIsIdempotent(c: Call, again: Call, configs: Configs, entries: seq<Entry>)
    requires !c.enforce && SameCall(c, again) && !Sync(c, configs, entries).failed
    ensures Quiet(again, Sync(c, configs, entries).configs, entries) <==> AllReadable(again, entries)
  {
    var first := Sync(c, configs, entries).configs;
    FinishedHasNoBad(c, configs, entries);
    SameNoBad(c, again, entries);
    QuietExactly(again, first, entries);
    forall i | SourceAt(again, entries, i)
      ensures WritesAt(again, first, Look(again, entries[i]), i) <==> again.unreadable(i)
    {
      SameLook(c, again, entries[i]);
      FilesPresent(c, configs, entries, i);
    }
  }

  // ---- Enforce mode ----

  predicate HoldsAt(c: Call, configs: Configs, entries: seq<Entry>, i: int)
    requires SourceAt(c, entries, i)
  {
    Holds(c, configs, Look(c, entries[i]))
  }

  predicate NoLater(c: Call, entries: seq<Entry>, i: nat)
    requires SourceAt(c, entries, i)
  {
    forall j | i < j < |entries| && SourceAt(c, entries, j) :: SourceKey(c, entries, j) != SourceKey(c, entries, i)
  }

  /** The last file with a key determines the stored content. */
  lemma {:induction false} LastWins(c: Call, configs: Configs, entries: seq<Entry>, i: nat)
    requires c.enforce && !Sync(c, configs, entries).failed && SourceAt(c, entries, i) && NoLater(c, entries, i)
    ensures HoldsAt(c, Sync(c, configs, entries).configs, entries, i)
  {
    if i < |entries| - 1 {
      var init, n := entries[..|entries| - 1], |entries| - 1;
      assert SourceAt(c, init, i);
      forall j | i < j < |init| && SourceAt(c, init, j) ensures SourceKey(c, init, j) != SourceKey(c, init, i) {
        SourcesOfPrefix(c, entries, j);
        assert SourceAt(c, entries, j);
      }
      LastWins(c, configs, init, i);
      assert SourceAt(c, entries, n) ==> SourceKey(c, entries, n) != SourceKey(c, entries, i);
    }
  }

  lemma {:induction false} LastWith(c: Call, entries: seq<Entry>, i: nat) returns (last: nat)
    requires SourceAt(c, entries, i)
    ensures i <= last && SourceAt(c, entries, last) && NoLater(c, entries, last)
    ensures SourceKey(c, entries, last) == SourceKey(c, entries, i)
    decreases |entries| - i
  {
    last := i;
    if !NoLater(c, entries, i) {
      var j :| i < j < |entries| && SourceAt(c, entries, j) && SourceKey(c, entries, j) == SourceKey(c, entries, i);
      last := LastWith(c, entries, j);
    }
  }

  /** Files with the same key have the same content, as far as hashes tell. */
  ghost predicate Consistent(c: Call, entries: seq<Entry>) {
    forall i, j | SourceAt(c, entries, i) && SourceAt(c, entries, j) && SourceKey(c, entries, i) == SourceKey(c, entries, j) ::
      c.hash(Look(c, entries[i]).content) == c.hash(Look(c, entries[j]).content)
  }

  ghost predicate AllHold(c: Call, configs: Configs, entries: seq<Entry>) {
    forall i | SourceAt(c, entries, i) :: HoldsAt(c, configs, entries, i)
  }

  /** An enforce sync makes the store agree with every file exactly when files
      with the same key agree with each other. */
  lemma EnforceAgrees(c: Call, configs: Configs, entries: seq<Entry>)
    requires c.enforce && !Sync(c, configs, entries).failed
    ensures AllHold(c, Sync(c, configs, entries).configs, entries) <==> Consistent(c, entries)
  {
    var configs' := Sync(c, configs, entries).configs;
    if Consistent(c, entries) {
      forall i | SourceAt(c, entries, i) ensures HoldsAt(c, configs', entries, i) {
        var last := LastWith(c, entries, i);
        LastWins(c, configs, entries, last);
      }
    }
    if AllHold(c, configs', entries) {
      forall i, j | SourceAt(c, entries, i) && SourceAt(c, entries, j) && SourceKey(c, entries, i) == SourceKey(c, entries, j)
        ensures c.hash(Look(c, entries[i]).content) == c.hash(Look(c, entries[j]).content)
      {
        assert HoldsAt(c, configs', entries, i) && HoldsAt(c, configs', entries, j);
      }
    }
  }

  lemma SameSources(c: Call, again: Call, configs: Configs, entries: seq<Entry>)
    requires SameCall(c, again)
    ensures AllHold(again, configs, entries) <==> AllHold(c, configs, entries)
  {
    forall i ensures SourceAt(again, entries, i) <==> SourceAt(c, entries, i) {
      if 0 <= i < |entries| { SameLook(c, again, entries[i]); }
    }
    if AllHold(c, configs, entries) {
      forall i | SourceAt(again, entries, i) ensures HoldsAt(again, configs, entries, i) {
        assert HoldsAt(c, configs, entries, i);
      }
    }
    if AllHold(again, configs, entries) {
      forall i | SourceAt(c, entries, i) ensures HoldsAt(c, configs, entries, i) {
        assert HoldsAt(again, configs, entries, i);
      }
    }
  }

  lemma EnforceWrites(c: Call, configs: Configs, entries: seq<Entry>)
    requires c.enforce
    ensures NothingToWrite(c, configs, entries) <==> AllHold(c, configs, entries) && AllReadable(c, entries)
  {
    if NothingToWrite(c, configs, entries) {
      forall i | SourceAt(c, entries, i) ensures HoldsAt(c, configs, entries, i) && !c.unreadable(i) {
        assert !WritesAt(c, configs, Look(c, entries[i]), i);
      }
    }
    if AllHold(c, configs, entries) && AllReadable(c, entries) {
      forall i | SourceAt(c, entries, i) ensures !WritesAt(c, configs, Look(c, entries[i]), i) {
        assert HoldsAt(c, configs, entries, i);
      }
    }
  }

  /** A second enforce sync saves nothing exactly when files with the same key
      agree with each other and all its lookups succeed. */
  lemma SecondSyncQuiet(c: Call, again: Call, configs: Configs, entries: seq<Entry>)
    requires c.enforce && SameCall(c, again) && !Sync(c, configs, entries).failed
    ensures Quiet(again, Sync(c, configs, entries).configs, entries) <==> Consistent(c, entries) && AllReadable(again, entries)
  {
    var first := Sync(c, configs, entries).configs;
    FinishedHasNoBad(c, configs, entries);
    SameNoBad(c, again, entries);
    QuietExactly(again, first, entries);
    EnforceWrites(again, first, entries);
    EnforceAgrees(c, configs, entries);
    SameSources(c, again, first, entries);
  }
}
