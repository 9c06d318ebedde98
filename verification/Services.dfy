/** The services.cnf parser (internal/config/services.go) and its use by the
    worker (internal/infrastructure/worker/runner.go). */
module Services {
  import opened Basics

  datatype Profile = Profile(
    name: string, kind: string, host: string, port: string, user: string, password: string,
    url: string, process: string, unit: string, logFile: string, configFile: string)

  datatype Problem =
    | InvalidName(line: nat) | OutsideProfile(line: nat) | NoEquals(line: nat) | Unsupported(key: string, line: nat)
    | Incomplete(name: string) | Duplicate(name: string)
    | InvalidProfile | NotFound(name: string) | WrongKind(name: string) | NoCatalog | KindRequired

  datatype Result<+T> = Ok(value: T) | Err(problem: Problem)

  type Profiles = map<string, Profile>

  predicate NameStart(c: char) {
    'a' <= c <= 'z' || '0' <= c <= '9'
  }

  /** ^[a-z0-9][a-z0-9_-]{0,63}$ */
  predicate ValidName(s: string) {
    1 <= |s| <= 64 && NameStart(s[0]) && forall i :: 1 <= i < |s| ==> NameStart(s[i]) || s[i] == '_' || s[i] == '-'
  }

  // ---- Lines ----

  /** The position of the first newline, or the length. */
  function Newline(s: string): (r: nat)
    ensures r <= |s| && (r < |s| ==> s[r] == '\n') && forall i :: 0 <= i < r ==> s[i] != '\n'
  {
    if s == [] || s[0] == '\n' then 0 else 1 + Newline(s[1..])
  }

  function WithoutReturn(line: string): string {
    if line != "" && line[|line| - 1] == '\r' then line[..|line| - 1] else line
  }

  /** The lines of a file, as bufio.Scanner delivers them. */
  function Lines(text: string): seq<string> {
    if text == "" then []
    else
      var n := Newline(text);
      [WithoutReturn(text[..n])] + if n < |text| then Lines(text[n + 1..]) else []
  }

  datatype Item = Skip | Section(name: string) | Property(key: string, value: string) | Malformed

  /** The position of the first '=', or the length. */
  function Equals(s: string): (r: nat)
    ensures r <= |s| && (r < |s| ==> s[r] == '=') && forall i :: 0 <= i < r ==> s[i] != '='
  {
    if s == [] || s[0] == '=' then 0 else 1 + Equals(s[1..])
  }

  function Classify(text: string): Item {
    var line := Trim(text);
    if line == "" || line[0] == '#' || line[0] == ';' then Skip
    else if line[0] == '[' && line[|line| - 1] == ']' && |line| >= 2 then Section(Trim(line[1..|line| - 1]))
    else if Equals(line) == |line| then Malformed
    else Property(line[..Equals(line)], line[Equals(line) + 1..])
  }

  function Key(raw: string): string {
    Trim(Lower(raw))
  }

  // ---- The state of the parser ----

  datatype State = State(profiles: Profiles, current: Option<Profile>)

  function Blank(name: string): Profile {
    Profile(name, "", "", "", "", "", "", "", "", "", "")
  }

  function SetField(p: Profile, key: string, value: string): Option<Profile> {
    if key == "type" then Some(p.(kind := Lower(Trim(value))))
    else if key == "host" then Some(p.(host := Trim(value)))
    else if key == "port" then Some(p.(port := Trim(value)))
    else if key == "user" then Some(p.(user := Trim(value)))
    else if key == "password" then Some(p.(password := Trim(value)))
    else if key == "url" then Some(p.(url := Trim(value)))
    else if key == "process" then Some(p.(process := Trim(value)))
    else if key == "unit" then Some(p.(unit := Trim(value)))
    else if key == "log_file" then Some(p.(logFile := Trim(value)))
    else if key == "config_file" then Some(p.(configFile := Trim(value)))
    else None
  }

  function Added(profiles: Profiles, p: Profile): Result<Profiles> {
    if p.kind == "" || p.host == "" then Err(Incomplete(p.name))
    else if p.name in profiles then Err(Duplicate(p.name))
    else Ok(profiles[p.name := p])
  }

  function Closed(s: State): Result<Profiles> {
    if s.current.Some? then Added(s.profiles, s.current.value) else Ok(s.profiles)
  }

  function Next(s: State, item: Item, line: nat): Result<State> {
    match item
    case Skip => Ok(s)
    case Section(name) =>
      var closed := Closed(s);
      if closed.Err? then Err(closed.problem)
      else if !ValidName(name) then Err(InvalidName(line))
      else Ok(State(closed.value, Some(Blank(name))))
    case Malformed => if s.current.None? then Err(OutsideProfile(line)) else Err(NoEquals(line))
    case Property(key, value) =>
      if s.current.None? then Err(OutsideProfile(line))
      else
        var p := SetField(s.current.value, Key(key), value);
        if p.None? then Err(Unsupported(Trim(key), line)) else Ok(State(s.profiles, p))
  }

  function After(lines: seq<string>): Result<State> {
    if lines == [] then Ok(State(map[], None))
    else
      var before := After(lines[..|lines| - 1]);
      if before.Err? then before else Next(before.value, Classify(lines[|lines| - 1]), |lines|)
  }

  function Parse(lines: seq<string>): Result<Profiles> {
    if After(lines).Err? then Err(After(lines).problem) else Closed(After(lines).value)
  }

  lemma {:induction false} ErrorsStay(lines: seq<string>, k: nat)
    requires k <= |lines| && After(lines[..k]).Err?
    ensures After(lines) == After(lines[..k])
  {
    if k < |lines| {
      assert lines[..|lines| - 1][..k] == lines[..k];
      ErrorsStay(lines[..|lines| - 1], k);
    } else {
      assert lines[..k] == lines;
    }
  }

  class ServiceCatalog {
    var profiles: Profiles

    constructor ()
      ensures profiles == map[]
    {
      profiles := map[];
    }

    method Add(p: Profile) returns (problem: Option<Problem>)
      modifies this
      ensures problem.None? ==> Added(old(profiles), p) == Ok(profiles)
      ensures problem.Some? ==> Added(old(profiles), p) == Err(problem.value) && profiles == old(profiles)
    {
      if p.kind == "" || p.host == "" { return Some(Incomplete(p.name)); }
      if p.name in profiles { return Some(Duplicate(p.name)); }
      profiles := profiles[p.name := p];
      problem := None;
    }

    method Resolve(name: string, kind: string) returns (r: Result<Profile>)
      ensures r.Ok? <==> ValidName(name) && name in profiles && profiles[name].kind == kind
      ensures r.Ok? ==> r.value == profiles[name]
      ensures r.Err? ==> r.problem == if !ValidName(name) then InvalidProfile
                                      else if name !in profiles then NotFound(name) else WrongKind(name)
    {
      if !ValidName(name) { return Err(InvalidProfile); }
      if name !in profiles { return Err(NotFound(name)); }
      if profiles[name].kind != kind { return Err(WrongKind(name)); }
      r := Ok(profiles[name]);
    }
  }

  method LoadServiceCatalog(lines: seq<string>) returns (r: Result<ServiceCatalog>)
    ensures r.Ok? ==> fresh(r.value) && Parse(lines) == Ok(r.value.profiles)
    ensures r.Err? ==> Parse(lines) == Err(r.problem)
  {
    var catalog := new ServiceCatalog();
    var current: Option<Profile> := None;
    for n := 0 to |lines|
      invariant fresh(catalog)
      invariant After(lines[..n]) == Ok(State(catalog.profiles, current))
    {
      assert lines[..n + 1][..n] == lines[..n];
      var item := Classify(lines[n]);
      ghost var next := After(lines[..n + 1]);
      if next.Err? { ErrorsStay(lines, n + 1); }
      match item {
        case Skip =>
        case Section(name) =>
          if current.Some? {
            var problem := catalog.Add(current.value);
            if problem.Some? { return Err(problem.value); }
          }
          if !ValidName(name) { return Err(InvalidName(n + 1)); }
          current := Some(Blank(name));
        case Malformed =>
          if current.None? { return Err(OutsideProfile(n + 1)); }
          return Err(NoEquals(n + 1));
        case Property(key, value) =>
          if current.None? { return Err(OutsideProfile(n + 1)); }
          var p := SetField(current.value, Key(key), value);
          if p.None? { return Err(Unsupported(Trim(key), n + 1)); }
          current := p;
      }
    }
    assert lines[..|lines|] == lines;
    if current.Some? {
      var problem := catalog.Add(current.value);
      if problem.Some? { return Err(problem.value); }
    }
    r := Ok(catalog);
  }

  // ---- The worker's use of a profile ----

  function Param(params: map<string, string>, key: string): string {
    if key in params then params[key] else ""
  }

  /** What a profile says about a job parameter; nothing for other names. */
  function ProfileParam(p: Profile, key: string): string {
    if key == "Host" then p.host
    else if key == "Port" then p.port
    else if key == "User" then p.user
    else if key == "URL" then p.url
    else if key == "Process" || key == "ProcessName" then p.process
    else if key == "LogFile" then p.logFile
    else if key == "Unit" then p.unit
    else ""
  }

  /** `r` is `params` with every parameter the profile speaks about replaced. */
  ghost predicate Overridden(params: map<string, string>, p: Profile, r: map<string, string>) {
    (forall k :: k in r <==> k in params || ProfileParam(p, k) != "") &&
    forall k | k in r :: r[k] == if ProfileParam(p, k) != "" then ProfileParam(p, k) else params[k]
  }

  const PARAMS := {"Host", "Port", "User", "URL", "Process", "ProcessName", "LogFile", "Unit"}

  lemma ProfileParamNames(p: Profile, key: string)
    ensures ProfileParam(p, key) != "" ==> key in PARAMS
  {
  }

  function Put(params: map<string, string>, key: string, value: string): map<string, string> {
    if value != "" then params[key := value] else params
  }

  ghost predicate OverriddenAt(params: map<string, string>, p: Profile, keys: set<string>, r: map<string, string>, k: string) {
    var value := if k in keys then ProfileParam(p, k) else "";
    (k in r <==> k in params || value != "") && (k in r ==> r[k] == if value != "" then value else params[k])
  }

  ghost predicate OverriddenIn(params: map<string, string>, p: Profile, keys: set<string>, r: map<string, string>) {
    forall k :: OverriddenAt(params, p, keys, r, k)
  }

  lemma PutOne(params: map<string, string>, p: Profile, keys: set<string>, r: map<string, string>, key: string, value: string)
    requires OverriddenIn(params, p, keys, r) && value == ProfileParam(p, key)
    ensures OverriddenIn(params, p, keys + {key}, Put(r, key, value))
  {
    forall k ensures OverriddenAt(params, p, keys + {key}, Put(r, key, value), k) {
      assert OverriddenAt(params, p, keys, r, k);
    }
  }

  lemma AllPut(params: map<string, string>, p: Profile, keys: set<string>, r: map<string, string>)
    requires OverriddenIn(params, p, keys, r) && PARAMS <= keys
    ensures Overridden(params, p, r)
  {
    forall k ensures k in r <==> k in params || ProfileParam(p, k) != "" {
      assert OverriddenAt(params, p, keys, r, k);
      ProfileParamNames(p, k);
    }
    forall k | k in r ensures r[k] == if ProfileParam(p, k) != "" then ProfileParam(p, k) else params[k] {
      assert OverriddenAt(params, p, keys, r, k);
      ProfileParamNames(p, k);
    }
  }

  /** One parameter of the result: the profile's value if it has one, otherwise what
      was there. */
  predicate Pinned(params: map<string, string>, r: map<string, string>, key: string, value: string) {
    if value != "" then key in r && r[key] == value else (key in r <==> key in params) && (key in r ==> r[key] == params[key])
  }

  /** Which field of the profile goes to which parameter; no other one changes. */
  ghost predicate Pins(params: map<string, string>, p: Profile, r: map<string, string>) {
    Pinned(params, r, "Host", p.host) && Pinned(params, r, "Port", p.port) && Pinned(params, r, "User", p.user) &&
    Pinned(params, r, "URL", p.url) && Pinned(params, r, "Process", p.process) && Pinned(params, r, "ProcessName", p.process) &&
    Pinned(params, r, "LogFile", p.logFile) && Pinned(params, r, "Unit", p.unit) &&
    forall k | k !in {"Host", "Port", "User", "URL", "Process", "ProcessName", "LogFile", "Unit"} :: Pinned(params, r, k, "")
  }

  lemma PinnedAt(params: map<string, string>, p: Profile, r: map<string, string>, key: string)
    requires Overridden(params, p, r)
    ensures Pinned(params, r, key, ProfileParam(p, key))
  {
  }

  lemma OverriddenPins(params: map<string, string>, p: Profile, r: map<string, string>)
    requires Overridden(params, p, r)
    ensures Pins(params, p, r)
  {
    forall k ensures Pinned(params, r, k, ProfileParam(p, k)) { PinnedAt(params, p, r, k); }
  }

  method PutParam(params: map<string, string>, p: Profile, ghost keys: set<string>, r: map<string, string>, key: string, value: string)
    returns (out: map<string, string>)
    requires OverriddenIn(params, p, keys, r) && value == ProfileParam(p, key)
    ensures OverriddenIn(params, p, keys + {key}, out)
  {
    PutOne(params, p, keys, r, key, value);
    out := r;
    if value != "" { out := out[key := value]; }
  }

  /** `catalogs` holds the loaded catalog, or is empty when none was loaded. */
  method ResolveServiceProfile(catalogs: Option<ServiceCatalog>, params: map<string, string>) returns (r: Result<map<string, string>>)
    ensures Trim(Param(params, "ServiceProfile")) == "" ==> r == Ok(params)
    ensures Trim(Param(params, "ServiceProfile")) != "" ==>
              var name, kind := Trim(Param(params, "ServiceProfile")), Lower(Trim(Param(params, "ServiceType")));
              (r.Ok? <==> catalogs.Some? && kind != "" && ValidName(name) && name in catalogs.value.profiles
                          && catalogs.value.profiles[name].kind == kind) &&
              (r.Ok? ==> Pins(params, catalogs.value.profiles[name], r.value))
  {
    var name := Trim(Param(params, "ServiceProfile"));
    if name == "" { return Ok(params); }
    if catalogs.None? { return Err(NoCatalog); }
    var kind := Lower(Trim(Param(params, "ServiceType")));
    if kind == "" { return Err(KindRequired); }
    var found := catalogs.value.Resolve(name, kind);
    if found.Err? { return Err(found.problem); }
    var p, out := found.value, params;
    ghost var keys: set<string> := {};
    out := PutParam(params, p, keys, out, "Host", p.host);
    keys := keys + {"Host"};
    out := PutParam(params, p, keys, out, "Port", p.port);
    keys := keys + {"Port"};
    out := PutParam(params, p, keys, out, "User", p.user);
    keys := keys + {"User"};
    out := PutParam(params, p, keys, out, "URL", p.url);
    keys := keys + {"URL"};
    out := PutParam(params, p, keys, out, "Process", p.process);
    keys := keys + {"Process"};
    out := PutParam(params, p, keys, out, "ProcessName", p.process);
    keys := keys + {"ProcessName"};
    out := PutParam(params, p, keys, out, "LogFile", p.logFile);
    keys := keys + {"LogFile"};
    out := PutParam(params, p, keys, out, "Unit", p.unit);
    keys := keys + {"Unit"};
    AllPut(params, p, keys, out);
    OverriddenPins(params, p, out);
    r := Ok(out);
  }
}
