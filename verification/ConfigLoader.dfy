/** `ApplicationConfigLoader`: directories, files, tenants and environment, layered. */
module ConfigLoading {
  import opened Wrappers
  import opened Strings
  import opened ConfigOverrides

  datatype ConfigError =
    | Parse(path: string)
    | Io(path: string)
    | UnknownTenant(id: string)
    | InvalidTenantId(id: string)
    | BadEnvVar(value: string)

  const MAX_CONFIG_FILE_BYTES: nat := 1_048_576

  // A path on disk, as reading it turns out. Parsing TOML is taken as done.
  datatype Text = Unreadable | Malformed | Parsed(o: ConfigOverride)
  datatype File = Missing | NoMetadata | File(bytes: nat, text: Text)
  type Disk = string -> File

  // The process environment; a variable that is not Unicode counts as unset.
  type Environment = map<string, string>

  // `PathBuf::join`
  function JoinPath(dir: string, name: string): string {
    if name != "" && name[0] == '/' then name
    else if dir == "" || dir[|dir| - 1] == '/' then dir + name
    else dir + "/" + name
  }

  function AppFile(dir: string): string {
    JoinPath(dir, "application.toml")
  }

  function TenantFile(dir: string, id: string): string {
    JoinPath(JoinPath(dir, "tenants"), id + ".toml")
  }

  function Var(env: Environment, name: string): Option<string> {
    if name in env then Some(env[name]) else None
  }

  // Where the two kinds of file are, in a directory that does not end in a slash.
  lemma {:induction false} PathsAre(dir: string, id: string)
    requires dir != "" && dir[|dir| - 1] != '/' && (id == "" || id[0] != '/')
    ensures AppFile(dir) == dir + "/application.toml"
    ensures TenantFile(dir, id) == dir + "/tenants/" + id + ".toml"
  {
    assert dir + "/" + "application.toml" == dir + "/application.toml";
    var d, name := JoinPath(dir, "tenants"), id + ".toml";
    assert d == dir + "/" + "tenants" && d[|d| - 1] == 's';
    assert name[0] == (if id == "" then '.' else id[0]);
    assert TenantFile(dir, id) == d + "/" + name;
    assert d + "/" + name == dir + "/tenants/" + id + ".toml";
  }

  // ---- One file ----

  // The overlay a file contributes: none when it does not exist.
  function Overlay(disk: Disk, path: string): Result<ConfigOverride, ConfigError> {
    match disk(path)
    case Missing => Ok(NO_OVERRIDE)
    case NoMetadata => Err(Io(path))
    case File(bytes, text) =>
      if bytes > MAX_CONFIG_FILE_BYTES || text.Unreadable? then Err(Io(path))
      else if text.Malformed? then Err(Parse(path))
      else Ok(text.o)
  }

  lemma {:induction false} MissingFileChangesNothing(c: RuntimeConfig)
    ensures Overlaid(NO_OVERRIDE, c) == c
  {}

  method ApplyFileIfExists(disk: Disk, c: RuntimeConfig, path: string)
    returns (r: Result<RuntimeConfig, ConfigError>)
    ensures r == var o := Overlay(disk, path); if o.Ok? then Ok(Overlaid(o.value, c)) else Err(o.error)
    ensures disk(path).Missing? ==> r == Ok(c)
    ensures disk(path).File? && disk(path).bytes <= 1_048_576 && disk(path).text.Parsed? ==>
      r == Ok(Overlaid(disk(path).text.o, c))
    ensures disk(path).File? && disk(path).bytes <= 1_048_576 && disk(path).text.Malformed? ==> r == Err(Parse(path))
    ensures disk(path).NoMetadata? || (disk(path).File? && (disk(path).bytes > 1_048_576 || disk(path).text.Unreadable?))
      ==> r == Err(Io(path))
  {
    var file := disk(path);
    if file.Missing? {
      MissingFileChangesNothing(c);
      return Ok(c);
    }
    if file.NoMetadata? {
      return Err(Io(path));
    }
    if file.bytes > MAX_CONFIG_FILE_BYTES {
      return Err(Io(path));
    }
    if file.text.Unreadable? {
      return Err(Io(path));
    }
    if file.text.Malformed? {
      return Err(Parse(path));
    }
    var overlaid := ApplyTo(file.text.o, c);
    r := Ok(overlaid);
  }

  // ---- The chain of directories ----

  // The overlays of all directories in order, or the error of the first bad file.
  function Overlays(disk: Disk, dirs: seq<string>): Result<seq<ConfigOverride>, ConfigError> {
    if dirs == [] then Ok([])
    else
      var before := Overlays(disk, dirs[..|dirs| - 1]);
      if before.Err? then before
      else
        var o := Overlay(disk, AppFile(dirs[|dirs| - 1]));
        if o.Err? then Err(o.error) else Ok(before.value + [o.value])
  }

  function Base(disk: Disk, dirs: seq<string>): Result<RuntimeConfig, ConfigError> {
    var os := Overlays(disk, dirs);
    if os.Err? then Err(os.error) else Ok(Chain(DEFAULT_CONFIG, os.value))
  }

  lemma {:induction false} OverlaysGrow(disk: Disk, dirs: seq<string>, i: nat)
    requires i < |dirs|
    ensures dirs[..i + 1][..i] == dirs[..i]
    ensures Base(disk, dirs[..i]).Err? ==> Base(disk, dirs[..i + 1]) == Base(disk, dirs[..i])
    ensures Base(disk, dirs[..i]).Ok? ==>
      Base(disk, dirs[..i + 1]) ==
        var o := Overlay(disk, AppFile(dirs[i]));
        if o.Ok? then Ok(Overlaid(o.value, Base(disk, dirs[..i]).value)) else Err(o.error)
  {}

  // An error in a lower directory stays the error, whatever follows.
  lemma {:induction false} FirstErrorWins(disk: Disk, dirs: seq<string>, i: nat)
    requires i <= |dirs| && Base(disk, dirs[..i]).Err?
    ensures Base(disk, dirs) == Base(disk, dirs[..i])
    decreases |dirs| - i
  {
    if i == |dirs| {
      assert dirs[..i] == dirs;
    } else {
      OverlaysGrow(disk, dirs, i);
      FirstErrorWins(disk, dirs, i + 1);
    }
  }

  method LoadBase(disk: Disk, dirs: seq<string>) returns (r: Result<RuntimeConfig, ConfigError>)
    ensures r == Base(disk, dirs)
  {
    var c := DEFAULT_CONFIG;
    for i := 0 to |dirs|
      invariant Base(disk, dirs[..i]) == Ok(c)
    {
      var applied := ApplyFileIfExists(disk, c, AppFile(dirs[i]));
      OverlaysGrow(disk, dirs, i);
      if applied.Err? {
        FirstErrorWins(disk, dirs, i + 1);
        return applied;
      }
      c := applied.value;
    }
    assert dirs[..|dirs|] == dirs;
    r := Ok(c);
  }

  // ---- Direct lookup: the first directory of a search order that sets the field ----

  function Found(disk: Disk, search: seq<string>, f: Field): Option<Value> {
    if search == [] then None
    else
      var o := Overlay(disk, AppFile(search[0]));
      Or(if o.Ok? then Setting(o.value, f) else None, Found(disk, search[1..], f))
  }

  lemma {:induction false} LastSettingIsFound(disk: Disk, dirs: seq<string>, f: Field)
    requires Overlays(disk, dirs).Ok?
    ensures LastSetting(Overlays(disk, dirs).value, f) == Found(disk, Reversed(dirs), f)
  {
    if dirs == [] {
    } else {
      var n := |dirs| - 1;
      LastSettingIsFound(disk, dirs[..n], f);
      var os := Overlays(disk, dirs).value;
      assert os[..|os| - 1] == Overlays(disk, dirs[..n]).value;
      assert Reversed(dirs)[1..] == Reversed(dirs[..n]);
    }
  }

  // Overlaying upwards is looking up downwards, for every field of every loadable chain.
  lemma {:induction false} BaseIsLookup(disk: Disk, dirs: seq<string>, f: Field)
    requires Base(disk, dirs).Ok?
    ensures Get(Base(disk, dirs).value, f) == Or(Found(disk, Reversed(dirs), f), Get(DEFAULT_CONFIG, f))
    ensures Untouched(Base(disk, dirs).value) == Untouched(DEFAULT_CONFIG)
  {
    LastSettingIsFound(disk, dirs, f);
    ChainField(DEFAULT_CONFIG, Overlays(disk, dirs).value, f);
  }

  // ---- XDG directories ----

  function NonEmpty(parts: seq<string>): seq<string> {
    if parts == [] then []
    else (if parts[0] == "" then [] else [parts[0]]) + NonEmpty(parts[1..])
  }

  // The system-wide directories, most important first, as the variable lists them.
  function SystemDirs(env: Environment): seq<string> {
    NonEmpty(Split(Var(env, "XDG_CONFIG_DIRS").GetOr("/etc/xdg"), ':'))
  }

  function AppDirs(dirs: seq<string>, app: string): seq<string> {
    seq(|dirs|, i requires 0 <= i < |dirs| => JoinPath(dirs[i], app))
  }

  // One more place in front of the others, if it is there.
  function Before(dir: Option<string>, rest: seq<string>): seq<string> {
    if dir.Some? then [dir.value] + rest else rest
  }

  function UserDir(home: Option<string>, app: string): Option<string> {
    if home.Some? then Some(JoinPath(home.value, app)) else None
  }

  // Where a setting is looked for, best place first: the explicit directory, the user's, the system's.
  function SearchOrder(env: Environment, home: Option<string>, app: string): seq<string> {
    Before(Var(env, "SWE_EDGE_CONFIG_DIR"), Before(UserDir(home, app), AppDirs(SystemDirs(env), app)))
  }

  // The explicit directory comes first, then the user's, then the system's as they are listed.
  lemma {:induction false} SearchOrderIs(env: Environment, home: Option<string>, app: string)
    ensures SearchOrder(env, home, app) ==
      (if "SWE_EDGE_CONFIG_DIR" in env then [env["SWE_EDGE_CONFIG_DIR"]] else [])
      + ((if home.Some? then [JoinPath(home.value, app)] else [])
         + seq(|SystemDirs(env)|, i requires 0 <= i < |SystemDirs(env)| => JoinPath(SystemDirs(env)[i], app)))
  {
    var sys := AppDirs(SystemDirs(env), app);
    AtFront(UserDir(home, app), sys);
    AtFront(Var(env, "SWE_EDGE_CONFIG_DIR"), Before(UserDir(home, app), sys));
    assert sys == seq(|SystemDirs(env)|, i requires 0 <= i < |SystemDirs(env)| => JoinPath(SystemDirs(env)[i], app));
  }

  lemma {:induction false} AtFront(dir: Option<string>, rest: seq<string>)
    ensures Before(dir, rest) == (if dir.Some? then [dir.value] else []) + rest
  {
    if dir.None? {
      assert [] + rest == rest;
    }
  }

  // The directories in the order in which they are overlaid, least important first.
  function XdgDirs(env: Environment, home: Option<string>, app: string): seq<string> {
    Reversed(SearchOrder(env, home, app))
  }

  // `home` is what `dirs::config_dir()` answers.
  method Xdg(env: Environment, home: Option<string>, app: string) returns (dirs: seq<string>)
    ensures dirs == XdgDirs(env, home, app)
  {
    dirs := PushSystemDirs(Split(Var(env, "XDG_CONFIG_DIRS").GetOr("/etc/xdg"), ':'), app);
    ghost var order := AppDirs(SystemDirs(env), app);
    if home.Some? {
      dirs := PushFirst(dirs, order, JoinPath(home.value, app));
    }
    order := Before(UserDir(home, app), order);
    if "SWE_EDGE_CONFIG_DIR" in env {
      dirs := PushFirst(dirs, order, env["SWE_EDGE_CONFIG_DIR"]);
    }
  }

  // The places a list of segments stands for, in its own order.
  function Places(segments: seq<string>, app: string): seq<string> {
    AppDirs(NonEmpty(segments), app)
  }

  lemma {:induction false} PlacesFrom(segments: seq<string>, i: nat, app: string)
    requires i < |segments|
    ensures var rest := Places(segments[i + 1..], app);
      Places(segments[i..], app) == if segments[i] == "" then rest else [JoinPath(segments[i], app)] + rest
  {
    assert segments[i..][1..] == segments[i + 1..];
    var rest := NonEmpty(segments[i + 1..]);
    if segments[i] == "" {
      assert [] + rest == rest;
    } else {
      assert AppDirs([segments[i]] + rest, app) == [JoinPath(segments[i], app)] + AppDirs(rest, app);
    }
  }

  method PushSystemDirs(segments: seq<string>, app: string) returns (dirs: seq<string>)
    ensures dirs == Reversed(Places(segments, app))
  {
    dirs := [];
    var i := |segments|;
    while i > 0
      invariant 0 <= i <= |segments|
      invariant dirs == Reversed(Places(segments[i..], app))
    {
      i := i - 1;
      PlacesFrom(segments, i, app);
      if segments[i] != "" {
        dirs := PushFirst(dirs, Places(segments[i + 1..], app), JoinPath(segments[i], app));
      }
    }
    assert segments[0..] == segments;
  }

  // What is pushed last has the highest priority.
  method PushFirst(dirs: seq<string>, ghost order: seq<string>, dir: string) returns (more: seq<string>)
    requires dirs == Reversed(order)
    ensures more == Reversed([dir] + order)
  {
    more := dirs + [dir];
    assert ([dir] + order)[1..] == order;
  }

  // Every string in XDG_CONFIG_DIRS: overlaying in the order of `Xdg` is looking up in the
  // search order, from its first place on.
  lemma {:induction false} XdgPrecedence(disk: Disk, env: Environment, home: Option<string>, app: string, f: Field)
    ensures Base(disk, XdgDirs(env, home, app)).Ok? ==>
      Get(Base(disk, XdgDirs(env, home, app)).value, f) ==
        Or(Found(disk, SearchOrder(env, home, app), f), Get(DEFAULT_CONFIG, f))
  {
    ReversedTwice(SearchOrder(env, home, app));
    if Base(disk, XdgDirs(env, home, app)).Ok? {
      BaseIsLookup(disk, XdgDirs(env, home, app), f);
    }
  }

  // The XDG Base Directory Specification: the default also for a variable that is set but empty,
  // and relative paths are ignored.
  function SpecDirs(env: Environment): seq<string> {
    var v := Var(env, "XDG_CONFIG_DIRS").GetOr("");
    Absolute(Split(if v == "" then "/etc/xdg" else v, ':'))
  }

  function Absolute(parts: seq<string>): seq<string> {
    if parts == [] then []
    else if IsAbsolute(parts[0]) then [parts[0]] + Absolute(parts[1..]) else Absolute(parts[1..])
  }

  predicate IsAbsolute(part: string) {
    part != "" && part[0] == '/'
  }

  predicate NoneRelative(parts: seq<string>) {
    forall i :: 0 <= i < |parts| ==> parts[i] == "" || IsAbsolute(parts[i])
  }

  // The directories are the specified ones exactly when the variable is unset, or is not empty
  // and has no relative segment.
  lemma {:induction false} SystemDirsMeetSpecIff(env: Environment)
    ensures SystemDirs(env) == SpecDirs(env) <==>
      ("XDG_CONFIG_DIRS" in env ==> env["XDG_CONFIG_DIRS"] != "" && NoneRelative(Split(env["XDG_CONFIG_DIRS"], ':')))
  {
    DefaultDirs();
    if "XDG_CONFIG_DIRS" in env {
      var v := env["XDG_CONFIG_DIRS"];
      if v == "" {
        assert NonEmpty([""][1..]) == [];
      } else {
        AbsoluteIsNonEmptyIff(Split(v, ':'));
      }
    }
  }

  lemma {:induction false} DefaultDirs()
    ensures NonEmpty(Split("/etc/xdg", ':')) == Absolute(Split("/etc/xdg", ':')) == ["/etc/xdg"]
  {
    SplitPlain("/etc/xdg", ':');
    var parts := ["/etc/xdg"];
    assert parts[1..] == [] && IsAbsolute(parts[0]);
    assert NonEmpty(parts) == ["/etc/xdg"] + [] && Absolute(parts) == ["/etc/xdg"] + [];
  }

  lemma {:induction false} AbsoluteIsNonEmptyIff(parts: seq<string>)
    ensures |Absolute(parts)| <= |NonEmpty(parts)|
    ensures NonEmpty(parts) == Absolute(parts) <==> NoneRelative(parts)
  {
    if parts == [] {
    } else {
      var rest := parts[1..];
      AbsoluteIsNonEmptyIff(rest);
      assert NoneRelative(parts) <==> (parts[0] == "" || IsAbsolute(parts[0])) && NoneRelative(rest) by {
        assert forall i :: 1 <= i < |parts| ==> parts[i] == rest[i - 1];
        assert forall i :: 0 <= i < |rest| ==> rest[i] == parts[i + 1];
      }
      if IsAbsolute(parts[0]) {
        assert NonEmpty(parts)[1..] == NonEmpty(rest) && Absolute(parts)[1..] == Absolute(rest);
      } else if parts[0] == "" {
        assert NonEmpty(parts) == NonEmpty(rest);
      }
    }
  }

  // The two ways to miss them: an empty variable, and a relative path.
  lemma {:induction false} SystemDirsMissSpec(env: Environment)
    requires "XDG_CONFIG_DIRS" in env
    ensures env["XDG_CONFIG_DIRS"] == "" ==> SystemDirs(env) == [] && SpecDirs(env) == ["/etc/xdg"]
    ensures env["XDG_CONFIG_DIRS"] == "x" ==> SystemDirs(env) == ["x"] && SpecDirs(env) == []
  {
    DefaultDirs();
    SplitPlain("x", ':');
    assert [""][1..] == [] && ["x"][1..] == [];
    assert NonEmpty([""]) == [] + NonEmpty([]) && NonEmpty(["x"]) == ["x"] + NonEmpty([]);
  }

  // Where they are met, every setting is the one the specified search finds.
  lemma {:induction false} XdgFollowsSpec(disk: Disk, env: Environment, home: Option<string>, app: string, f: Field)
    requires "XDG_CONFIG_DIRS" in env ==> env["XDG_CONFIG_DIRS"] != "" && NoneRelative(Split(env["XDG_CONFIG_DIRS"], ':'))
    ensures var specified :=
              Before(Var(env, "SWE_EDGE_CONFIG_DIR"), Before(UserDir(home, app), AppDirs(SpecDirs(env), app)));
      Base(disk, XdgDirs(env, home, app)).Ok? ==>
        Get(Base(disk, XdgDirs(env, home, app)).value, f) == Or(Found(disk, specified, f), Get(DEFAULT_CONFIG, f))
  {
    SystemDirsMeetSpecIff(env);
    XdgPrecedence(disk, env, home, app, f);
  }

  // When no system directory is searched at all.
  lemma {:induction false} NoSystemDirs(env: Environment)
    ensures SystemDirs(env) == [] <==>
      "XDG_CONFIG_DIRS" in env && forall i :: 0 <= i < |env["XDG_CONFIG_DIRS"]| ==> env["XDG_CONFIG_DIRS"][i] == ':'
  {
    NonEmptyParts(Var(env, "XDG_CONFIG_DIRS").GetOr("/etc/xdg"), ':');
    assert "/etc/xdg"[0] != ':';
  }

  lemma {:induction false} NonEmptyParts(s: string, c: char)
    ensures NonEmpty(Split(s, c)) == [] <==> forall i :: 0 <= i < |s| ==> s[i] == c
  {
    if s == "" {
      assert NonEmpty([""][1..]) == [];
    } else {
      NonEmptyParts(s[1..], c);
      var rest := Split(s[1..], c);
      if s[0] == c {
        assert Split(s, c)[1..] == rest;
        assert forall i :: 1 <= i < |s| ==> s[i] == s[1..][i - 1];
        assert forall i :: 0 <= i < |s| - 1 ==> s[1..][i] == s[i + 1];
      }
    }
  }

  // ---- Environment variables ----

  function Lower(s: string): string {
    seq(|s|, i requires 0 <= i < |s| =>
      if 'A' <= s[i] <= 'Z' then (s[i] as int + 32) as char else s[i])
  }

  predicate IsYes(v: string) {
    Lower(v) in {"1", "true", "yes"}
  }

  // What the environment sets a field to, whatever the configuration held.
  function EnvSetting(env: Environment, f: Field): Option<Value> {
    match f
    case ServiceName => TextOf(Var(env, "SWE_EDGE_SERVICE_NAME"))
    case HttpBind => TextOf(Var(env, "SWE_EDGE_HTTP_BIND"))
    case GrpcBind => TextOf(Var(env, "SWE_EDGE_GRPC_BIND"))
    case ShutdownTimeoutSecs =>
      if "SWE_EDGE_SHUTDOWN_TIMEOUT" in env && ParseU64(env["SWE_EDGE_SHUTDOWN_TIMEOUT"]).Some?
      then Some(Number(ParseU64(env["SWE_EDGE_SHUTDOWN_TIMEOUT"]).value))
      else None
    case SystemdNotify =>
      if "SWE_EDGE_SYSTEMD_NOTIFY" in env then Some(Flag(IsYes(env["SWE_EDGE_SYSTEMD_NOTIFY"]))) else None
    case TenantId => TextOf(Var(env, "SWE_EDGE_TENANT_ID"))
    case _ => None
  }

  predicate EnvBad(env: Environment) {
    "SWE_EDGE_SHUTDOWN_TIMEOUT" in env && ParseU64(env["SWE_EDGE_SHUTDOWN_TIMEOUT"]).None?
  }

  function WithEnv(env: Environment, c: RuntimeConfig): RuntimeConfig {
    c.(serviceName := Var(env, "SWE_EDGE_SERVICE_NAME").GetOr(c.serviceName),
       httpBind := Var(env, "SWE_EDGE_HTTP_BIND").GetOr(c.httpBind),
       grpcBind := Var(env, "SWE_EDGE_GRPC_BIND").GetOr(c.grpcBind),
       shutdownTimeoutSecs :=
         if "SWE_EDGE_SHUTDOWN_TIMEOUT" in env
         then ParseU64(env["SWE_EDGE_SHUTDOWN_TIMEOUT"]).GetOr(c.shutdownTimeoutSecs)
         else c.shutdownTimeoutSecs,
       systemdNotify :=
         if "SWE_EDGE_SYSTEMD_NOTIFY" in env then IsYes(env["SWE_EDGE_SYSTEMD_NOTIFY"]) else c.systemdNotify,
       tenantId := Or(Var(env, "SWE_EDGE_TENANT_ID"), c.tenantId))
  }

  function EnvApplied(env: Environment, c: RuntimeConfig): Result<RuntimeConfig, ConfigError> {
    if EnvBad(env) then Err(BadEnvVar(env["SWE_EDGE_SHUTDOWN_TIMEOUT"])) else Ok(WithEnv(env, c))
  }

  lemma {:induction false} WithEnvField(env: Environment, c: RuntimeConfig, f: Field)
    requires !EnvBad(env)
    ensures Get(WithEnv(env, c), f) == Or(EnvSetting(env, f), Get(c, f))
    ensures Untouched(WithEnv(env, c)) == Untouched(c)
  {}

  method ApplyEnv(env: Environment, base: RuntimeConfig) returns (r: Result<RuntimeConfig, ConfigError>)
    ensures r == EnvApplied(env, base)
  {
    var serviceName := base.serviceName;
    if "SWE_EDGE_SERVICE_NAME" in env {
      serviceName := env["SWE_EDGE_SERVICE_NAME"];
    }
    var httpBind := base.httpBind;
    if "SWE_EDGE_HTTP_BIND" in env {
      httpBind := env["SWE_EDGE_HTTP_BIND"];
    }
    var grpcBind := base.grpcBind;
    if "SWE_EDGE_GRPC_BIND" in env {
      grpcBind := env["SWE_EDGE_GRPC_BIND"];
    }
    var secs := base.shutdownTimeoutSecs;
    if "SWE_EDGE_SHUTDOWN_TIMEOUT" in env {
      var parsed := ParseU64(env["SWE_EDGE_SHUTDOWN_TIMEOUT"]);
      if parsed.None? {
        return Err(BadEnvVar(env["SWE_EDGE_SHUTDOWN_TIMEOUT"]));
      }
      secs := parsed.value;
    }
    var systemdNotify := base.systemdNotify;
    if "SWE_EDGE_SYSTEMD_NOTIFY" in env {
      systemdNotify := IsYes(env["SWE_EDGE_SYSTEMD_NOTIFY"]);
    }
    var tenantId := base.tenantId;
    if "SWE_EDGE_TENANT_ID" in env {
      tenantId := Some(env["SWE_EDGE_TENANT_ID"]);
    }
    r := Ok(base.(serviceName := serviceName, httpBind := httpBind, grpcBind := grpcBind,
                  shutdownTimeoutSecs := secs, systemdNotify := systemdNotify, tenantId := tenantId));
  }

  // Variable by variable.
  lemma {:induction false} EnvAnswers(env: Environment, c: RuntimeConfig)
    ensures EnvApplied(env, c).Err? <==>
      "SWE_EDGE_SHUTDOWN_TIMEOUT" in env && ParseU64(env["SWE_EDGE_SHUTDOWN_TIMEOUT"]).None?
    ensures EnvApplied(env, c).Err? ==> EnvApplied(env, c).error == BadEnvVar(env["SWE_EDGE_SHUTDOWN_TIMEOUT"])
    ensures EnvApplied(env, c).Ok? ==>
      var d := EnvApplied(env, c).value;
      && d == c.(serviceName := d.serviceName, httpBind := d.httpBind, grpcBind := d.grpcBind,
                 shutdownTimeoutSecs := d.shutdownTimeoutSecs, systemdNotify := d.systemdNotify, tenantId := d.tenantId)
      && d.serviceName == (if "SWE_EDGE_SERVICE_NAME" in env then env["SWE_EDGE_SERVICE_NAME"] else c.serviceName)
      && d.httpBind == (if "SWE_EDGE_HTTP_BIND" in env then env["SWE_EDGE_HTTP_BIND"] else c.httpBind)
      && d.grpcBind == (if "SWE_EDGE_GRPC_BIND" in env then env["SWE_EDGE_GRPC_BIND"] else c.grpcBind)
      && (if "SWE_EDGE_SHUTDOWN_TIMEOUT" in env
          then ParseU64(env["SWE_EDGE_SHUTDOWN_TIMEOUT"]) == Some(d.shutdownTimeoutSecs)
          else d.shutdownTimeoutSecs == c.shutdownTimeoutSecs)
      && d.systemdNotify == (if "SWE_EDGE_SYSTEMD_NOTIFY" in env then IsYes(env["SWE_EDGE_SYSTEMD_NOTIFY"]) else c.systemdNotify)
      && d.tenantId == (if "SWE_EDGE_TENANT_ID" in env then Some(env["SWE_EDGE_TENANT_ID"]) else c.tenantId)
  {}

  // Yes is `1`, `true` or `yes` in any mixture of capitals.
  lemma {:induction false} YesIff(v: string)
    ensures IsYes(v) <==> SameButCase(v, "1") || SameButCase(v, "true") || SameButCase(v, "yes")
  {
    LowerIff(v, "1");
    LowerIff(v, "true");
    LowerIff(v, "yes");
  }

  predicate SameButCase(v: string, w: string) {
    |v| == |w| && forall i :: 0 <= i < |w| ==>
      v[i] == w[i] || ('a' <= w[i] <= 'z' && v[i] as int == w[i] as int - 32)
  }

  lemma {:induction false} LowerIff(v: string, w: string)
    requires forall i :: 0 <= i < |w| ==> !('A' <= w[i] <= 'Z')
    ensures Lower(v) == w <==> SameButCase(v, w)
  {
    if Lower(v) == w {
      forall i | 0 <= i < |w| ensures v[i] == w[i] || ('a' <= w[i] <= 'z' && v[i] as int == w[i] as int - 32) {
        assert Lower(v)[i] == w[i];
      }
    }
    if SameButCase(v, w) {
      assert forall i :: 0 <= i < |w| ==> Lower(v)[i] == w[i];
    }
  }

  // ---- Loading ----

  function Loaded(disk: Disk, dirs: seq<string>, env: Environment): Result<RuntimeConfig, ConfigError> {
    var base := Base(disk, dirs);
    if base.Err? then base else EnvApplied(env, base.value)
  }

  method Load(disk: Disk, dirs: seq<string>, env: Environment) returns (r: Result<RuntimeConfig, ConfigError>)
    ensures r == Loaded(disk, dirs, env)
  {
    r := LoadBase(disk, dirs);
    if r.Ok? {
      r := ApplyEnv(env, r.value);
    }
  }

  // Every setting of `load`: the environment's, else the first directory's that has one, else
  // the default; and the fields no layer can set.
  lemma {:induction false} LoadField(disk: Disk, dirs: seq<string>, env: Environment, f: Field)
    requires Loaded(disk, dirs, env).Ok?
    ensures Get(Loaded(disk, dirs, env).value, f) ==
      Or(EnvSetting(env, f), Or(Found(disk, Reversed(dirs), f), Get(DEFAULT_CONFIG, f)))
    ensures Untouched(Loaded(disk, dirs, env).value) == Untouched(DEFAULT_CONFIG)
  {
    BaseIsLookup(disk, dirs, f);
    WithEnvField(env, Base(disk, dirs).value, f);
  }

  predicate ValidTenantId(id: string) {
    id != "" && forall i :: 0 <= i < |id| ==>
      'a' <= id[i] <= 'z' || 'A' <= id[i] <= 'Z' || '0' <= id[i] <= '9' || id[i] == '_' || id[i] == '-'
  }

  // Valid ids by their character codes: letters, digits, the underscore (95) and the hyphen (45).
  lemma {:induction false} ValidTenantIdIff(id: string)
    ensures ValidTenantId(id) <==>
      |id| > 0 && forall c :: c in id ==>
        97 <= c as int <= 122 || 65 <= c as int <= 90 || 48 <= c as int <= 57 || c as int == 95 || c as int == 45
  {
    assert forall i :: 0 <= i < |id| ==> id[i] in id;
  }

  // With no file and no variable, a load gives the documented defaults.
  lemma {:induction false} NothingSet(disk: Disk, dirs: seq<string>, env: Environment)
    requires forall i :: 0 <= i < |dirs| ==> disk(AppFile(dirs[i])).Missing?
    requires env == map[]
    ensures Loaded(disk, dirs, env) == Ok(RuntimeConfig(
      serviceName := "swe-edge", httpBind := "0.0.0.0:8080", grpcBind := "0.0.0.0:50051", shutdownTimeoutSecs := 30,
      systemdNotify := false, tenantId := None, httpTls := None, grpcTls := None, httpAuth := None,
      grpcAllowUnauthenticated := false, egressHttp := None, egressGrpc := None, services := map[],
      grpcReflection := false, metrics := None, metricsBackend := None, tracerBackend := None, logBackend := None,
      autoscale := None, observability := None, deployDir := None, intrusion := None))
  {
    NoFiles(disk, dirs);
  }

  lemma {:induction false} NoFiles(disk: Disk, dirs: seq<string>)
    requires forall i :: 0 <= i < |dirs| ==> disk(AppFile(dirs[i])).Missing?
    ensures Base(disk, dirs) == Ok(DEFAULT_CONFIG)
  {
    if dirs == [] {
    } else {
      var n := |dirs| - 1;
      NoFiles(disk, dirs[..n]);
      OverlaysGrow(disk, dirs, n);
      assert dirs[..n + 1] == dirs;
      MissingFileChangesNothing(DEFAULT_CONFIG);
    }
  }

  // A valid id is one plain file name in `tenants`: nothing in it leads out of the directory, and
  // two ids never share a file.
  lemma {:induction false} TenantFileStaysInside(dir: string, id: string, other: string)
    requires ValidTenantId(id) && ValidTenantId(other)
    ensures TenantFile(dir, id) == JoinPath(dir, "tenants") + "/" + id + ".toml"
    ensures '/' !in id && '.' !in id && '\\' !in id
    ensures TenantFile(dir, id) == TenantFile(dir, other) <==> id == other
  {
    TenantFileIs(dir, id);
    TenantFileIs(dir, other);
    if TenantFile(dir, id) == TenantFile(dir, other) {
      var p := JoinPath(dir, "tenants") + "/";
      var s := TenantFile(dir, id);
      assert s[|p|..|s| - 5] == id && s[|p|..|s| - 5] == other;
    }
  }

  lemma {:induction false} TenantFileIs(dir: string, id: string)
    requires ValidTenantId(id)
    ensures TenantFile(dir, id) == JoinPath(dir, "tenants") + "/" + id + ".toml"
  {
    var d, name := JoinPath(dir, "tenants"), id + ".toml";
    assert d[|d| - 1] == 's' && name[0] == id[0] != '/';
    assert d + "/" + id + ".toml" == d + "/" + name;
  }

  // The tenant file of the highest-priority directory that has one.
  function TenantPath(disk: Disk, dirs: seq<string>, id: string): Option<string> {
    if dirs == [] then None
    else if !disk(TenantFile(dirs[|dirs| - 1], id)).Missing? then Some(TenantFile(dirs[|dirs| - 1], id))
    else TenantPath(disk, dirs[..|dirs| - 1], id)
  }

  // `tenant_path`: from the highest directory down.
  method FindTenantPath(disk: Disk, dirs: seq<string>, id: string) returns (path: Option<string>)
    ensures path == TenantPath(disk, dirs, id)
  {
    var i := |dirs|;
    assert dirs[..i] == dirs;
    while i > 0
      invariant 0 <= i <= |dirs|
      invariant TenantPath(disk, dirs, id) == TenantPath(disk, dirs[..i], id)
    {
      i := i - 1;
      assert dirs[..i + 1][..i] == dirs[..i];
      if !disk(TenantFile(dirs[i], id)).Missing? {
        return Some(TenantFile(dirs[i], id));
      }
    }
    path := None;
  }

  method LoadForTenant(disk: Disk, dirs: seq<string>, env: Environment, id: string)
    returns (r: Result<RuntimeConfig, ConfigError>)
    ensures r == TenantLoaded(disk, dirs, env, id)
  {
    if !ValidTenantId(id) {
      return Err(InvalidTenantId(id));
    }
    r := LoadBase(disk, dirs);
    if r.Err? {
      return;
    }
    var path := FindTenantPath(disk, dirs, id);
    if path.None? {
      return Err(UnknownTenant(id));
    }
    r := ApplyFileIfExists(disk, r.value, path.value);
    if r.Err? {
      return;
    }
    r := ApplyEnv(env, r.value);
    if r.Ok? {
      r := Ok(WithTenant(r.value, id));
    }
  }

  function WithTenant(c: RuntimeConfig, id: string): RuntimeConfig {
    if c.tenantId.None? then c.(tenantId := Some(id)) else c
  }

  function TenantLoaded(disk: Disk, dirs: seq<string>, env: Environment, id: string)
    : Result<RuntimeConfig, ConfigError>
  {
    if !ValidTenantId(id) then Err(InvalidTenantId(id))
    else
      var base := Base(disk, dirs);
      if base.Err? then base
      else
        var path := TenantPath(disk, dirs, id);
        if path.None? then Err(UnknownTenant(id))
        else
          var o := Overlay(disk, path.value);
          if o.Err? then Err(o.error)
          else
            var c := EnvApplied(env, Overlaid(o.value, base.value));
            if c.Ok? then Ok(WithTenant(c.value, id)) else c
  }

  // The overlay of the tenant file that a load uses.
  function TenantOverlay(disk: Disk, dirs: seq<string>, id: string): ConfigOverride {
    var path := TenantPath(disk, dirs, id);
    if path.None? then NO_OVERRIDE
    else
      var o := Overlay(disk, path.value);
      if o.Ok? then o.value else NO_OVERRIDE
  }

  // A tenant load is the base chain, the one tenant file, and the environment, field by field;
  // only the tenant id has a last resort.
  lemma {:induction false} TenantField(disk: Disk, dirs: seq<string>, env: Environment, id: string, f: Field)
    requires TenantLoaded(disk, dirs, env, id).Ok?
    ensures Base(disk, dirs).Ok? && Loaded(disk, dirs, env).Ok?
    ensures var layered := Or(EnvSetting(env, f),
                           Or(Setting(TenantOverlay(disk, dirs, id), f), Get(Base(disk, dirs).value, f)));
      Get(TenantLoaded(disk, dirs, env, id).value, f) == if f.TenantId? then Or(layered, Some(Text(id))) else layered
    ensures TenantLoaded(disk, dirs, env, id).value.tenantId.Some?
  {
    var o, base := TenantOverlay(disk, dirs, id), Base(disk, dirs).value;
    OnTopField(Overlaid(o, base), env, id, f);
    OverlaidField(o, base, f);
  }

  // What the environment and the last-resort tenant id make of a field.
  lemma {:induction false} OnTopField(c: RuntimeConfig, env: Environment, id: string, f: Field)
    requires !EnvBad(env)
    ensures var top := WithTenant(WithEnv(env, c), id);
      && Get(top, f) == Or(EnvSetting(env, f), WithLastResort(Get(c, f), id, f))
      && top.tenantId.Some?
  {
    WithEnvField(env, c, f);
    WithTenantField(WithEnv(env, c), id, f);
  }

  function WithLastResort(v: Option<Value>, id: string, f: Field): Option<Value> {
    if f.TenantId? then Or(v, Some(Text(id))) else v
  }

  lemma {:induction false} WithTenantField(c: RuntimeConfig, id: string, f: Field)
    ensures Get(WithTenant(c, id), f) == WithLastResort(Get(c, f), id, f)
    ensures WithTenant(c, id).tenantId.Some?
  {}

  // Every way a tenant load fails, first things first.
  lemma {:induction false} TenantFails(disk: Disk, dirs: seq<string>, env: Environment, id: string)
    ensures var r, base, path := TenantLoaded(disk, dirs, env, id), Base(disk, dirs), TenantPath(disk, dirs, id);
      if !ValidTenantId(id) then r == Err(InvalidTenantId(id))
      else if base.Err? then r == base
      else if forall i :: 0 <= i < |dirs| ==> disk(TenantFile(dirs[i], id)).Missing? then r == Err(UnknownTenant(id))
      else path.Some? && !disk(path.value).Missing? && TenantFileDecides(r, env, path.value, disk(path.value))
  {
    NoPathIff(disk, dirs, id);
  }

  // What the chosen file and the environment make of a tenant load.
  predicate TenantFileDecides(r: Result<RuntimeConfig, ConfigError>, env: Environment, path: string, file: File) {
    && (file.NoMetadata? || (file.File? && (file.bytes > 1_048_576 || file.text.Unreadable?)) ==> r == Err(Io(path)))
    && (file.File? && file.bytes <= 1_048_576 && file.text.Malformed? ==> r == Err(Parse(path)))
    && (file.File? && file.bytes <= 1_048_576 && file.text.Parsed? ==> (r.Err? <==> EnvBad(env)))
  }

  lemma {:induction false} NoPathIff(disk: Disk, dirs: seq<string>, id: string)
    ensures TenantPath(disk, dirs, id).None? <==> forall i :: 0 <= i < |dirs| ==> disk(TenantFile(dirs[i], id)).Missing?
    ensures TenantPath(disk, dirs, id).Some? ==> !disk(TenantPath(disk, dirs, id).value).Missing?
  {
    if dirs == [] {
    } else {
      NoPathIff(disk, dirs[..|dirs| - 1], id);
    }
  }

  // What neither the tenant file nor the environment sets is as in `load`.
  lemma {:induction false} TenantKeepsTheRest(disk: Disk, dirs: seq<string>, env: Environment, id: string, f: Field)
    requires TenantLoaded(disk, dirs, env, id).Ok?
    requires Setting(TenantOverlay(disk, dirs, id), f).None? && !f.TenantId?
    ensures Loaded(disk, dirs, env).Ok?
    ensures Get(TenantLoaded(disk, dirs, env, id).value, f) == Get(Loaded(disk, dirs, env).value, f)
  {
    TenantField(disk, dirs, env, id, f);
    WithEnvField(env, Base(disk, dirs).value, f);
  }

  // The loaded configuration is not always the requested tenant's by name: an id set in any
  // layer stays. It is exactly when the layers set none, or that one.
  lemma {:induction false} TenantIdIsRequested(disk: Disk, dirs: seq<string>, env: Environment, id: string)
    requires TenantLoaded(disk, dirs, env, id).Ok?
    ensures TenantLoaded(disk, dirs, env, id).value.tenantId == Some(id) <==>
      Or(EnvSetting(env, TenantId),
         Or(Setting(TenantOverlay(disk, dirs, id), TenantId),
            Found(disk, Reversed(dirs), TenantId))) in {None, Some(Text(id))}
  {
    TenantField(disk, dirs, env, id, TenantId);
    BaseIsLookup(disk, dirs, TenantId);
  }

  // The chosen tenant file is the one of the highest directory that has one.
  lemma {:induction false} TenantPathIsHighest(disk: Disk, dirs: seq<string>, id: string, k: nat)
    requires k <= |dirs|
    requires forall i :: k <= i < |dirs| ==> disk(TenantFile(dirs[i], id)).Missing?
    ensures k == 0 ==> TenantPath(disk, dirs, id).None?
    ensures k > 0 && !disk(TenantFile(dirs[k - 1], id)).Missing? ==>
      TenantPath(disk, dirs, id) == Some(TenantFile(dirs[k - 1], id))
  {
    if k < |dirs| {
      TenantPathIsHighest(disk, dirs[..|dirs| - 1], id, k);
    }
  }

  // ---- The tenant files as documented: all of them, one over the other ----

  // The overlays of the tenant files of all directories, in order.
  function TenantOverlays(disk: Disk, dirs: seq<string>, id: string): Result<seq<ConfigOverride>, ConfigError> {
    if dirs == [] then Ok([])
    else
      var before := TenantOverlays(disk, dirs[..|dirs| - 1], id);
      if before.Err? then before
      else
        var o := Overlay(disk, TenantFile(dirs[|dirs| - 1], id));
        if o.Err? then Err(o.error) else Ok(before.value + [o.value])
  }

  // What a tenant load is documented to give.
  function DocumentedTenant(disk: Disk, dirs: seq<string>, env: Environment, id: string)
    : Result<RuntimeConfig, ConfigError>
  {
    if !ValidTenantId(id) then Err(InvalidTenantId(id))
    else
      var base := Base(disk, dirs);
      if base.Err? then base
      else if TenantPath(disk, dirs, id).None? then Err(UnknownTenant(id))
      else
        var os := TenantOverlays(disk, dirs, id);
        if os.Err? then Err(os.error)
        else
          var c := EnvApplied(env, Chain(base.value, os.value));
          if c.Ok? then Ok(WithTenant(c.value, id)) else c
  }

  lemma {:induction false} TenantOverlayStep(disk: Disk, dirs: seq<string>, id: string)
    requires dirs != [] && TenantOverlays(disk, dirs, id).Ok?
    ensures var low, path := dirs[..|dirs| - 1], TenantFile(dirs[|dirs| - 1], id);
      && TenantOverlays(disk, low, id).Ok? && Overlay(disk, path).Ok?
      && TenantOverlays(disk, dirs, id).value == TenantOverlays(disk, low, id).value + [Overlay(disk, path).value]
      && TenantOverlay(disk, dirs, id) ==
           (if disk(path).Missing? then TenantOverlay(disk, low, id) else Overlay(disk, path).value)
      && (disk(path).Missing? ==> Overlay(disk, path).value == NO_OVERRIDE)
  {}

  lemma {:induction false} NoOverrideSetsNothing(f: Field)
    ensures Setting(NO_OVERRIDE, f).None?
  {}

  // The highest tenant file has the last word on what it sets.
  lemma {:induction false} ChosenSettingIsLast(disk: Disk, dirs: seq<string>, id: string, f: Field)
    requires TenantOverlays(disk, dirs, id).Ok?
    ensures Setting(TenantOverlay(disk, dirs, id), f).Some? ==>
      LastSetting(TenantOverlays(disk, dirs, id).value, f) == Setting(TenantOverlay(disk, dirs, id), f)
  {
    NoOverrideSetsNothing(f);
    if dirs == [] {
      assert TenantOverlay(disk, dirs, id) == NO_OVERRIDE;
    } else {
      var low, path := dirs[..|dirs| - 1], TenantFile(dirs[|dirs| - 1], id);
      TenantOverlayStep(disk, dirs, id);
      ChosenSettingIsLast(disk, low, id, f);
      LastSettingOneMore(TenantOverlays(disk, low, id).value, Overlay(disk, path).value, f);
    }
  }

  lemma {:induction false} LastSettingOneMore(os: seq<ConfigOverride>, o: ConfigOverride, f: Field)
    ensures LastSetting(os + [o], f) == Or(Setting(o, f), LastSetting(os, f))
  {
    assert (os + [o])[..|os|] == os;
  }

  // A field is as documented exactly when all tenant files can be read and the environment sets
  // the field, or the file that was chosen does, or no other tenant file sets it to anything but
  // what it has anyway.
  lemma {:induction false} TenantAsDocumentedIff(disk: Disk, dirs: seq<string>, env: Environment, id: string, f: Field)
    requires TenantLoaded(disk, dirs, env, id).Ok?
    ensures Base(disk, dirs).Ok?
    ensures var documented, os := DocumentedTenant(disk, dirs, env, id), TenantOverlays(disk, dirs, id);
      documented.Ok? && Get(TenantLoaded(disk, dirs, env, id).value, f) == Get(documented.value, f) <==>
        && os.Ok?
        && (|| EnvSetting(env, f).Some?
            || Setting(TenantOverlay(disk, dirs, id), f).Some?
            || LastSetting(os.value, f).None?
            || LastSetting(os.value, f) == WithLastResort(Get(Base(disk, dirs).value, f), id, f))
  {
    var base, os := Base(disk, dirs).value, TenantOverlays(disk, dirs, id);
    TenantField(disk, dirs, env, id, f);
    if os.Ok? {
      ChosenSettingIsLast(disk, dirs, id, f);
      ChainField(base, os.value, f);
      OnTopField(Chain(base, os.value), env, id, f);
    }
  }

  // An input on which they differ: the lower directory's tenant file names the service, and the
  // higher one's, which is empty, is the one that is read.
  function LowerNamesService(path: string): File {
    if path == TenantFile("/a", "t") then File(1, Parsed(NO_OVERRIDE.(serviceName := Some("low"))))
    else if path == TenantFile("/b", "t") then File(0, Parsed(NO_OVERRIDE))
    else Missing
  }

  lemma {:induction false} LowerTenantFileIsIgnored(env: Environment)
    requires env == map[]
    ensures var actual := TenantLoaded(LowerNamesService, ["/a"] + ["/b"], env, "t");
      actual.Ok? && actual.value.serviceName == "swe-edge"
    ensures var documented := DocumentedTenant(LowerNamesService, ["/a"] + ["/b"], env, "t");
      documented.Ok? && documented.value.serviceName == "low"
  {
    PathsUnder("/a");
    PathsUnder("/b");
    TwoTenantFiles(LowerNamesService, "/a", "/b", env, "t", NO_OVERRIDE.(serviceName := Some("low")), NO_OVERRIDE);
  }

  lemma {:induction false} LowHigh(c: RuntimeConfig, low: ConfigOverride, high: ConfigOverride)
    ensures Chain(c, [low, high]) == Overlaid(high, Overlaid(low, c))
  {
    assert [low, high][..1] == [low] && [low][..0] == [];
    assert Chain(c, [low]) == Overlaid(low, Chain(c, []));
  }

  // Two directories without an `application.toml`, each with a file for the tenant.
  lemma {:induction false} TwoTenantFiles(disk: Disk, a: string, b: string, env: Environment, id: string,
                                          low: ConfigOverride, high: ConfigOverride)
    requires !EnvBad(env) && ValidTenantId(id)
    requires disk(AppFile(a)).Missing? && disk(AppFile(b)).Missing?
    requires Overlay(disk, TenantFile(a, id)) == Ok(low) && Overlay(disk, TenantFile(b, id)) == Ok(high)
    requires !disk(TenantFile(b, id)).Missing?
    ensures TenantLoaded(disk, [a] + [b], env, id) == Ok(WithTenant(WithEnv(env, Overlaid(high, DEFAULT_CONFIG)), id))
    ensures DocumentedTenant(disk, [a] + [b], env, id) ==
      Ok(WithTenant(WithEnv(env, Overlaid(high, Overlaid(low, DEFAULT_CONFIG))), id))
  {
    TwoTenantOverlays(disk, a, b, id, low, high);
    LowHigh(DEFAULT_CONFIG, low, high);
  }

  lemma {:induction false} TwoTenantOverlays(disk: Disk, a: string, b: string, id: string,
                                             low: ConfigOverride, high: ConfigOverride)
    requires disk(AppFile(a)).Missing? && disk(AppFile(b)).Missing?
    requires Overlay(disk, TenantFile(a, id)) == Ok(low) && Overlay(disk, TenantFile(b, id)) == Ok(high)
    requires !disk(TenantFile(b, id)).Missing?
    ensures Base(disk, [a] + [b]) == Ok(DEFAULT_CONFIG)
    ensures TenantPath(disk, [a] + [b], id) == Some(TenantFile(b, id))
    ensures TenantOverlays(disk, [a] + [b], id) == Ok([low, high])
  {
    var dirs := [a] + [b];
    OverlaysGrow(disk, dirs, 0);
    OverlaysGrow(disk, dirs, 1);
    MissingFileChangesNothing(DEFAULT_CONFIG);
    assert dirs[..0] == [] && dirs[..1] == [a] && dirs[..2] == dirs;
    assert [a][..0] == [];
    assert TenantOverlays(disk, [a], id) == Ok([] + [low]);
    assert [] + [low] == [low] && [low] + [high] == [low, high];
  }

  lemma {:induction false} PathsUnder(dir: string)
    requires |dir| == 2 && dir[1] != '/'
    ensures var app, tenant := AppFile(dir), TenantFile(dir, "t");
      && |app| > 3 && app[1] == dir[1] && app[3] == 'a'
      && |tenant| > 3 && tenant[1] == dir[1] && tenant[3] == 't'
  {
    var d, name := JoinPath(dir, "tenants"), "t" + ".toml";
    assert d == dir + "/" + "tenants" && name[0] == 't';
    assert TenantFile(dir, "t") == d + "/" + name;
  }
}
