/** Reconciling source-controlled configuration files with the stored ones:
    internal/interfaces/http/server.go and config.go, with the SQL and the
    in-memory repository of internal/infrastructure/db. */
module ConfigSync {
  import opened Basics

  /** A creation time of None is Go's zero time. */
  datatype Config = Config(id: string, kind: string, name: string, content: string, active: bool,
                           createdAt: Option<int>, updatedAt: int)

  type Configs = map<string, Config>

  /** What the directory walk meets: a failure, a directory, or a file with its
      extension, its parent directory and what reading it gives. */
  datatype Entry = WalkError | Directory | File(extension: string, parent: string, content: Option<string>)

  datatype Header = Header(id: string, name: string)

  datatype Report = Report(imported: nat, updated: nat, inSync: nat, drifted: seq<string>)

  /** `writes` lists the keys that were saved, in order. */
  datatype State = State(configs: Configs, report: Report, writes: seq<string>, failed: bool)

  /** One call: the mode, how a file's header decodes, the hash, and what the
      repository meets at each entry: the time of a save, a read that fails for
      another reason than a missing row, a save that fails. */
  datatype Call = Call(enforce: bool, header: (string, string) -> Option<Header>, hash: string -> string, clock: nat -> int,
                       unreadable: nat -> bool, unsaved: nat -> bool)

  function ConfigKey(kind: string, id: string): string {
    kind + "/" + id
  }

  predicate SupportedKind(kind: string) {
    kind == "templates" || kind == "policies"
  }

  /** Keys of supported kinds determine the kind and the id. */
  lemma KeyInjective(kind: string, id: string, kind2: string, id2: string)
    requires SupportedKind(kind) && SupportedKind(kind2) && ConfigKey(kind, id) == ConfigKey(kind2, id2)
    ensures kind == kind2 && id == id2
  {
    assert ConfigKey(kind, id)[0] == kind[0] && ConfigKey(kind2, id2)[0] == kind2[0];
    assert id == ConfigKey(kind, id)[|kind| + 1..];
  }

  /** A template needs an id; a policy without one is "default". */
  function Identity(c: Call, kind: string, raw: string): (r: Option<Header>)
    ensures r.Some? ==> r.value.id != ""
  {
    var h := c.header(kind, raw);
    if h.None? then None
    else if kind == "templates" then if h.value.id == "" then None else h
    else if kind == "policies" then Some(h.value.(id := if h.value.id == "" then "default" else h.value.id))
    else None
  }

  datatype Seen = Ignored | Bad | Source(kind: string, id: string, name: string, content: string)

  /** What an entry means for the sync. */
  function Look(c: Call, e: Entry): Seen {
    if e.WalkError? then Bad
    else if e.Directory? || (e.extension != ".yaml" && e.extension != ".yml") || !SupportedKind(e.parent) then Ignored
    else if e.content.None? || Identity(c, e.parent, e.content.value).None? then Bad
    else
      var h := Identity(c, e.parent, e.content.value).value;
      Source(e.parent, h.id, h.name, e.content.value)
  }

  function KeyOf(s: Seen): string
    requires s.Source?
  {
    ConfigKey(s.kind, s.id)
  }

  /** The row a save leaves; a row that is there keeps its creation time. */
  function Saved(configs: Configs, s: Seen, now: int): Config
    requires s.Source?
  {
    var key := KeyOf(s);
    Config(s.id, s.kind, s.name, s.content, true,
           if key in configs && configs[key].createdAt.Some? then configs[key].createdAt else Some(now), now)
  }

  /** A stored configuration has the content of a file, as far as hashes tell. */
  predicate Holds(c: Call, configs: Configs, s: Seen)
    requires s.Source?
  {
    KeyOf(s) in configs && c.hash(configs[KeyOf(s)].content) == c.hash(s.content)
  }

  /** The read found nothing, because the row is missing or because it failed. */
  predicate NotFound(c: Call, configs: Configs, s: Seen, i: nat)
    requires s.Source?
  {
    KeyOf(s) !in configs || c.unreadable(i)
  }

  predicate WritesAt(c: Call, configs: Configs, s: Seen, i: nat)
    requires s.Source?
  {
    NotFound(c, configs, s, i) || (c.enforce && !Holds(c, configs, s))
  }

  function Step(c: Call, st: State, e: Entry, i: nat): State {
    var s := Look(c, e);
    if st.failed || s.Ignored? then st
    else if s.Bad? || (WritesAt(c, st.configs, s, i) && c.unsaved(i)) then st.(failed := true)
    else
      var key, r := KeyOf(s), st.report;
      if WritesAt(c, st.configs, s, i) then
        State(st.configs[key := Saved(st.configs, s, c.clock(i))],
              if NotFound(c, st.configs, s, i) then r.(imported := r.imported + 1) else r.(updated := r.updated + 1),
              st.writes + [key], false)
      else if Holds(c, st.configs, s) then st.(report := r.(inSync := r.inSync + 1))
      else st.(report := r.(drifted := r.drifted + [key]))
  }

  function Sync(c: Call, configs: Configs, entries: seq<Entry>): State {
    if entries == [] then State(configs, Report(0, 0, 0, []), [], false)
    else Step(c, Sync(c, configs, entries[..|entries| - 1]), entries[|entries| - 1], |entries| - 1)
  }

  // ---- The code ----

  /** Both repositories. Only the SQL one can fail; its upsert leaves the creation
      time of a row that is there, while the in-memory one stores what it is given. */
  class Repository {
    const sql: bool
    var configs: Configs

    constructor (sql: bool, initial: Configs)
      ensures this.sql == sql && configs == initial
    {
      this.sql, configs := sql, initial;
    }

    /** `generated` is the id that an empty one is replaced by. */
    method SaveManagedConfig(config: Config, generated: string, now: int, fails: bool) returns (ok: bool)
      requires fails ==> sql
      modifies this
      ensures ok <==> !fails
      ensures !ok ==> configs == old(configs)
      ensures var id := if config.id == "" then generated else config.id;
              var key, given := ConfigKey(config.kind, id), if config.createdAt.Some? then config.createdAt else Some(now);
              ok ==> configs == old(configs)[key := config.(id := id, updatedAt := now,
                createdAt := if sql && key in old(configs) then old(configs)[key].createdAt else given)]
    {
      if fails { return false; }
      var stored := config;
      if stored.id == "" { stored := stored.(id := generated); }
      if stored.createdAt.None? { stored := stored.(createdAt := Some(now)); }
      stored := stored.(updatedAt := now);
      var key := ConfigKey(stored.kind, stored.id);
      if sql && key in configs { stored := stored.(createdAt := configs[key].createdAt); }
      configs := configs[key := stored];
      ok := true;
    }

    /** A failing read and a missing row are one error to the caller. */
    method GetManagedConfig(kind: string, id: string, fails: bool) returns (found: Option<Config>)
      ensures found == if ConfigKey(kind, id) in configs && !fails then Some(configs[ConfigKey(kind, id)]) else None
    {
      if !fails && ConfigKey(kind, id) in configs { return Some(configs[ConfigKey(kind, id)]); }
      found := None;
    }
  }

  lemma {:induction false} FailureStays(c: Call, configs: Configs, entries: seq<Entry>, k: nat)
    requires k <= |entries| && Sync(c, configs, entries[..k]).failed
    ensures Sync(c, configs, entries) == Sync(c, configs, entries[..k])
  {
    if k < |entries| {
      assert entries[..|entries| - 1][..k] == entries[..k];
      FailureStays(c, configs, entries[..|entries| - 1], k);
    } else {
      assert entries[..k] == entries;
    }
  }

  /** What a call may meet in a repository: rows have a creation time in SQL, and
      the in-memory one never fails. */
  ghost predicate Fits(c: Call, repo: Repository)
    reads repo
  {
    if repo.sql then forall key | key in repo.configs :: repo.configs[key].createdAt.Some?
    else forall i: nat :: !c.unreadable(i) && !c.unsaved(i)
  }

  /** The callback of the walk. */
  method SyncEntry(c: Call, repo: Repository, e: Entry, i: nat, report0: Report, ghost writes0: seq<string>, generated: string)
    returns (report: Report, ok: bool, ghost writes: seq<string>)
    requires Fits(c, repo)
    modifies repo
    ensures Fits(c, repo) && State(repo.configs, report, writes, !ok) == Step(c, State(old(repo.configs), report0, writes0, false), e, i)
  {
    report, ok, writes := report0, true, writes0;
    if e.WalkError? { return report, false, writes; }
    if e.Directory? || (e.extension != ".yaml" && e.extension != ".yml") { return; }
    if !SupportedKind(e.parent) { return; }
    if e.content.None? { return report, false, writes; }
    var header := Identity(c, e.parent, e.content.value);
    if header.None? { return report, false, writes; }
    var id, name, content := header.value.id, header.value.name, e.content.value;
    var existing := repo.GetManagedConfig(e.parent, id, c.unreadable(i));
    if existing.None? {
      ok := repo.SaveManagedConfig(Config(id, e.parent, name, content, true, None, 0), generated, c.clock(i), c.unsaved(i));
      if ok {
        report := report.(imported := report.imported + 1);
        writes := writes + [ConfigKey(e.parent, id)];
      }
      return;
    }
    if c.hash(existing.value.content) == c.hash(content) {
      report := report.(inSync := report.inSync + 1);
      return;
    }
    if !c.enforce {
      report := report.(drifted := report.drifted + [e.parent + "/" + id]);
      return;
    }
    ok := repo.SaveManagedConfig(Config(id, e.parent, name, content, true, existing.value.createdAt, 0), generated, c.clock(i),
                                 c.unsaved(i));
    if ok {
      report := report.(updated := report.updated + 1);
      writes := writes + [ConfigKey(e.parent, id)];
    }
  }

  method SyncManagedConfigs(c: Call, repo: Repository, entries: seq<Entry>, generated: string)
    returns (report: Report, ok: bool, ghost writes: seq<string>)
    requires Fits(c, repo)
    modifies repo
    ensures State(repo.configs, report, writes, !ok) == Sync(c, old(repo.configs), entries)
  {
    report, ok, writes := Report(0, 0, 0, []), true, [];
    ghost var start := repo.configs;
    for i := 0 to |entries|
      invariant ok && Fits(c, repo) && State(repo.configs, report, writes, false) == Sync(c, start, entries[..i])
    {
      assert entries[..i + 1][..i] == entries[..i];
      report, ok, writes := SyncEntry(c, repo, entries[i], i, report, writes, generated);
      if !ok {
        FailureStays(c, start, entries, i + 1);
        return;
      }
    }
    assert entries[..|entries|] == entries;
  }
}
