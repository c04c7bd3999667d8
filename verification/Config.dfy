/** The configuration: operations, apps, defaults, and the promotion of legacy operations to apps. */
module Config {
  import opened Strings

  const DEFAULT_PORT := 7777
  const DEFAULT_SOCKET := "/var/run/docker.sock"
  const DEFAULT_COMPOSE_BINARY := "docker"
  const DEFAULT_OP_TIMEOUT := 300
  const DEFAULT_PERSISTENT_OP_TIMEOUT := 3600

  /** Durations are in nanoseconds, as in Go's time package. */
  const SECOND := 1_000_000_000
  const MINUTE := 60 * SECOND
  const DEFAULT_SYS_UPDATE_REFRESH := 6 * 60 * MINUTE
  const MIN_SYS_UPDATE_REFRESH := 15 * MINUTE

  datatype VersionSource = VersionSource(kind: string, repo: string, command: string)

  datatype Operation = Operation(
    command: string,
    description: string,
    timeout: int,
    workingDir: string,
    persistent: bool,
    currentVersion: string,
    versionCommand: string,
    versionSource: Option<VersionSource>
  )

  datatype AppOperation = AppOperation(
    title: string,
    command: string,
    timeout: int,
    workingDir: string,
    persistent: bool
  )

  datatype SystemUpdates = SystemUpdates(kind: string, refreshInterval: string)

  datatype App = App(
    description: string,
    currentVersion: string,
    versionCommand: string,
    versionSource: Option<VersionSource>,
    systemUpdateCheck: string,
    systemUpdates: Option<SystemUpdates>,
    packageManager: string,
    operations: map<string, AppOperation>
  )

  const ZERO_OPERATION := Operation("", "", 0, "", false, "", "", None)
  const ZERO_APP := App("", "", "", None, "", None, "", map[])

  // ---------- what the runner makes of an operation ----------

  /** A 64-bit integer that differs from `x` by a multiple of 2 to the 64th. */
  predicate Is64BitOf(w: int, x: int)
  {
    -0x8000_0000_0000_0000 <= w < 0x8000_0000_0000_0000 && (w - x) % 0x1_0000_0000_0000_0000 == 0
  }

  /** 64-bit two's complement wrap-around. */
  function Wrap64(x: int): int
  {
    (x + 0x8000_0000_0000_0000) % 0x1_0000_0000_0000_0000 - 0x8000_0000_0000_0000
  }

  lemma Wrap64Is64BitOf(x: int)
    ensures Is64BitOf(Wrap64(x), x)
  {
  }

  lemma Wrap64IsUnique(v: int, w: int, x: int)
    requires Is64BitOf(v, x) && Is64BitOf(w, x)
    ensures v == w
  {
    assert v - w == (v - x) - (w - x);
  }

  /** What is executed: the command, where, for how long at most, and whether a disconnect stops it. */
  datatype Job = Job(command: string, workingDir: string, timeout: int, detached: bool)

  /**
   * What the configuration promises of a job: its command in its directory, which is "/" unless configured,
   * for at most the configured seconds as a 64-bit number of nanoseconds, five minutes unless positive.
   */
  ghost predicate IsConfigured(job: Job, command: string, workingDir: string, timeout: int, persistent: bool)
  {
    && job.command == command && job.detached == persistent
    && (workingDir != "" ==> job.workingDir == workingDir) && (workingDir == "" ==> job.workingDir == "/")
    && exists w :: Is64BitOf(w, timeout * 1_000_000_000) && job.timeout == if w > 0 then w else 300_000_000_000
  }

  function MakeJob(command: string, workingDir: string, timeout: int, persistent: bool): Job
  {
    var limit := Wrap64(timeout * SECOND);
    Job(command, if workingDir == "" then "/" else workingDir, if limit <= 0 then 5 * MINUTE else limit, persistent)
  }

  lemma JobIsConfigured(command: string, workingDir: string, timeout: int, persistent: bool)
    ensures IsConfigured(MakeJob(command, workingDir, timeout, persistent), command, workingDir, timeout, persistent)
  {
    Wrap64Is64BitOf(timeout * 1_000_000_000);
  }

  /** Only one job is configured. */
  lemma OneJobIsConfigured(a: Job, b: Job, command: string, workingDir: string, timeout: int, persistent: bool)
    requires IsConfigured(a, command, workingDir, timeout, persistent)
    requires IsConfigured(b, command, workingDir, timeout, persistent)
    ensures a == b
  {
    var v :| Is64BitOf(v, timeout * 1_000_000_000) && a.timeout == if v > 0 then v else 300_000_000_000;
    var w :| Is64BitOf(w, timeout * 1_000_000_000) && b.timeout == if w > 0 then w else 300_000_000_000;
    Wrap64IsUnique(v, w, timeout * 1_000_000_000);
  }

  function JobOf(op: Operation): Job
  {
    MakeJob(op.command, op.workingDir, op.timeout, op.persistent)
  }

  function AppJobOf(op: AppOperation): Job
  {
    MakeJob(op.command, op.workingDir, op.timeout, op.persistent)
  }

  // ---------- system updates ----------

  function ToLower(s: string): (r: string)
    ensures |r| == |s|
    ensures forall i :: 0 <= i < |s| ==>
      !('A' <= r[i] <= 'Z') && if 'A' <= s[i] <= 'Z' then r[i] as int == s[i] as int + 32 else r[i] == s[i]
  {
    seq(|s|, i requires 0 <= i < |s| => if 'A' <= s[i] <= 'Z' then s[i] - 'A' + 'a' else s[i])
  }

  predicate Enabled(su: Option<SystemUpdates>)
  {
    su.Some? && ToLower(TrimSpace(su.value.kind)) == "apt"
  }

  /** The built-in checker is on exactly for the three letters of apt, in any case and with any space around them. */
  lemma EnabledIff(su: Option<SystemUpdates>)
    ensures su.None? ==> !Enabled(su)
    ensures su.Some? ==>
      var kind := TrimSpace(su.value.kind);
      Enabled(su) <==> |kind| == 3 && kind[0] in {'a', 'A'} && kind[1] in {'p', 'P'} && kind[2] in {'t', 'T'}
  {
    if su.Some? {
      var lower := ToLower(TrimSpace(su.value.kind));
      assert "apt"[0] == 'a' && "apt"[1] == 'p' && "apt"[2] == 't';
      if |lower| == 3 && lower[0] == 'a' && lower[1] == 'p' && lower[2] == 't' {
        assert lower == "apt";
      }
    }
  }

  /** The configured interval, if there is a positive one. */
  predicate Configures(su: Option<SystemUpdates>, parse: string -> Option<int>, d: int)
  {
    && su.Some? && TrimSpace(su.value.refreshInterval) != "" && d > 0
    && parse(TrimSpace(su.value.refreshInterval)) == Some(d)
  }

  /** `parse` is time.ParseDuration; None is its error. Never below 15 minutes, whatever is configured. */
  function RefreshDuration(su: Option<SystemUpdates>, parse: string -> Option<int>): (d: int)
    ensures forall x :: Configures(su, parse, x) ==> d == if x < 900_000_000_000 then 900_000_000_000 else x
    ensures (forall x :: !Configures(su, parse, x)) ==> d == 21_600_000_000_000
  {
    if su.None? || TrimSpace(su.value.refreshInterval) == "" then DEFAULT_SYS_UPDATE_REFRESH
    else
      match parse(TrimSpace(su.value.refreshInterval))
      case None => DEFAULT_SYS_UPDATE_REFRESH
      case Some(d) =>
        if d <= 0 then DEFAULT_SYS_UPDATE_REFRESH
        else if d < MIN_SYS_UPDATE_REFRESH then assert Configures(su, parse, d); MIN_SYS_UPDATE_REFRESH
        else assert Configures(su, parse, d); d
  }

  /**
   * The commands that count upgradable packages, by lower-case package manager name; no result depends on
   * their text.
   */
  type Commands = map<string, string>

  // ---------- defaults and migration as functions ----------

  /** The settings that defaults touch. */
  datatype Settings = Settings(
    port: int,
    socket: string,
    composeBinary: string,
    name: string,
    operations: map<string, Operation>,
    apps: map<string, App>
  )

  function DefaultTimeout(timeout: int, persistent: bool): int
  {
    if timeout != 0 then timeout else if persistent then DEFAULT_PERSISTENT_OP_TIMEOUT else DEFAULT_OP_TIMEOUT
  }

  function Or(s: string, default: string): string
  {
    if s == "" then default else s
  }

  function DefaultedOperation(op: Operation): Operation
  {
    op.(timeout := DefaultTimeout(op.timeout, op.persistent), workingDir := Or(op.workingDir, "/"))
  }

  function DefaultedAppOperation(name: string, op: AppOperation): AppOperation
  {
    op.(timeout := DefaultTimeout(op.timeout, op.persistent),
        workingDir := Or(op.workingDir, "/"), title := Or(op.title, name))
  }

  function DefaultedApp(app: App, commands: Commands): App
  {
    var check :=
      if app.packageManager != "" && ToLower(app.packageManager) in commands
      then commands[ToLower(app.packageManager)] else app.systemUpdateCheck;
    app.(operations := map n | n in app.operations :: DefaultedAppOperation(n, app.operations[n]),
         systemUpdateCheck := check)
  }

  /** A legacy operation as an app with the single operation "run". */
  function AppFor(op: Operation): App
  {
    App(op.description, op.currentVersion, op.versionCommand, op.versionSource, "", None, "",
        map["run" := AppOperation("Run", op.command, op.timeout, op.workingDir, op.persistent)])
  }

  function MigratedApps(operations: map<string, Operation>, apps: map<string, App>): map<string, App>
  {
    if apps != map[] then apps else map n | n in operations :: AppFor(operations[n])
  }

  function Defaulted(s: Settings, hostname: Option<string>, commands: Commands): Settings
  {
    var ops := DefaultedOperations(s.operations);
    Settings(if s.port == 0 then DEFAULT_PORT else s.port, Or(s.socket, DEFAULT_SOCKET),
             Or(s.composeBinary, DEFAULT_COMPOSE_BINARY), Or(s.name, hostname.GetOr("dockhand")),
             ops, MigratedApps(ops, DefaultedApps(s.apps, commands)))
  }

  function DefaultedApps(apps: map<string, App>, commands: Commands): map<string, App>
  {
    map n | n in apps :: DefaultedApp(apps[n], commands)
  }

  lemma SettledApps(apps: map<string, App>, commands: Commands)
    requires forall n :: n in apps ==> DefaultedApp(apps[n], commands) == apps[n]
    ensures DefaultedApps(apps, commands) == apps
  {
  }

  /** The apps that defaults and migration produce are left alone by the defaults. */
  lemma AppsAreSettled(ops: map<string, Operation>, apps: map<string, App>, commands: Commands)
    ensures var r := MigratedApps(DefaultedOperations(ops), DefaultedApps(apps, commands));
      DefaultedApps(r, commands) == r
  {
    var r := MigratedApps(DefaultedOperations(ops), DefaultedApps(apps, commands));
    forall n | n in r ensures DefaultedApp(r[n], commands) == r[n] {
      if DefaultedApps(apps, commands) != map[] {
        DefaultedAppTwice(apps[n], commands);
      } else {
        DefaultedAppFor(ops[n], commands);
      }
    }
    SettledApps(r, commands);
  }

  function DefaultedOperations(ops: map<string, Operation>): map<string, Operation>
  {
    map n | n in ops :: DefaultedOperation(ops[n])
  }

  lemma OperationsAreSettled(ops: map<string, Operation>)
    ensures DefaultedOperations(DefaultedOperations(ops)) == DefaultedOperations(ops)
  {
  }

  /** Applying the defaults and the migration again changes nothing. */
  lemma DefaultsAreIdempotent(s: Settings, hostname: Option<string>, commands: Commands)
    ensures Defaulted(Defaulted(s, hostname, commands), hostname, commands) == Defaulted(s, hostname, commands)
  {
    AppsAreSettled(s.operations, s.apps, commands);
    OperationsAreSettled(s.operations);
  }

  lemma DefaultedAppTwice(app: App, commands: Commands)
    ensures DefaultedApp(DefaultedApp(app, commands), commands) == DefaultedApp(app, commands)
  {
    var a := DefaultedApp(app, commands);
    forall n | n in a.operations ensures DefaultedAppOperation(n, a.operations[n]) == a.operations[n] {
    }
    assert DefaultedApp(a, commands).operations == a.operations;
  }

  lemma DefaultedAppFor(op: Operation, commands: Commands)
    ensures var a := AppFor(DefaultedOperation(op)); DefaultedApp(a, commands) == a
  {
    var a := AppFor(DefaultedOperation(op));
    assert DefaultedApp(a, commands).operations == a.operations;
  }

  /** A gap is filled, and what is set stays. */
  ghost predicate Fills(was: string, now: string, default: string)
  {
    (was != "" ==> now == was) && (was == "" ==> now == default)
  }

  /** A missing limit is 300 seconds, or 3600 for an operation that runs detached. */
  ghost predicate FillsLimit(was: int, now: int, persistent: bool)
  {
    (was != 0 ==> now == was) && (was == 0 ==> now == if persistent then 3600 else 300)
  }

  /** The defaults fill the gaps of the settings and of every operation, and leave everything that is set. */
  lemma DefaultsFillGaps(s: Settings, hostname: Option<string>, commands: Commands, name: string)
    ensures var t := Defaulted(s, hostname, commands);
      && (s.port != 0 ==> t.port == s.port) && (s.port == 0 ==> t.port == 7777)
      && Fills(s.socket, t.socket, "/var/run/docker.sock") && Fills(s.composeBinary, t.composeBinary, "docker")
      && Fills(s.name, t.name, if hostname.Some? then hostname.value else "dockhand")
    ensures var t := Defaulted(s, hostname, commands);
      && (name in t.operations <==> name in s.operations)
      && (name in s.operations ==>
           var was, now := s.operations[name], t.operations[name];
           && FillsLimit(was.timeout, now.timeout, was.persistent) && Fills(was.workingDir, now.workingDir, "/")
           && now == was.(timeout := now.timeout, workingDir := now.workingDir))
  {
  }

  /** The same for the operations of every app; a known package manager decides the command that counts updates. */
  lemma DefaultsFillApps(s: Settings, hostname: Option<string>, commands: Commands, name: string, opName: string)
    requires s.apps != map[]
    ensures var t := Defaulted(s, hostname, commands);
      && (name in t.apps <==> name in s.apps)
      && (name in s.apps ==>
           var was, now := s.apps[name], t.apps[name];
           && now == was.(operations := now.operations, systemUpdateCheck := now.systemUpdateCheck)
           && (was.packageManager != "" && ToLower(was.packageManager) in commands ==>
                 now.systemUpdateCheck == commands[ToLower(was.packageManager)])
           && (was.packageManager == "" || ToLower(was.packageManager) !in commands ==>
                 now.systemUpdateCheck == was.systemUpdateCheck)
           && (opName in now.operations <==> opName in was.operations)
           && (opName in was.operations ==> GapsFilled(opName, was.operations[opName], now.operations[opName])))
  {
    var r := DefaultedApps(s.apps, commands);
    var n :| n in s.apps;
    assert n in r;
  }

  ghost predicate GapsFilled(opName: string, was: AppOperation, now: AppOperation)
  {
    && Fills(was.title, now.title, opName)
    && FillsLimit(was.timeout, now.timeout, was.persistent) && Fills(was.workingDir, now.workingDir, "/")
    && now.command == was.command && now.persistent == was.persistent
  }

  /**
   * A configuration without apps serves every legacy operation as an app of the same name, and running
   * that app's "run" executes exactly the job that running the operation executes.
   */
  lemma MigrationPreservesJobs(s: Settings, hostname: Option<string>, commands: Commands, name: string)
    requires s.apps == map[]
    ensures var t := Defaulted(s, hostname, commands);
      && t.apps.Keys == t.operations.Keys == s.operations.Keys
      && (name in s.operations ==>
           var op, app := s.operations[name], t.apps[name];
           && app.operations.Keys == {"run"} && app.operations["run"].title == "Run"
           && AppJobOf(app.operations["run"]) == JobOf(t.operations[name])
           && app.description == op.description && app.currentVersion == op.currentVersion
           && app.versionCommand == op.versionCommand && app.versionSource == op.versionSource
           && app.systemUpdateCheck == "" && app.systemUpdates == None && app.packageManager == "")
    ensures name in s.operations ==>
      var op, job := s.operations[name], AppJobOf(Defaulted(s, hostname, commands).apps[name].operations["run"]);
      && job.command == op.command && job.detached == op.persistent
      && (op.workingDir != "" ==> job.workingDir == op.workingDir) && (op.workingDir == "" ==> job.workingDir == "/")
      && (0 < op.timeout < 0x8000_0000_0000_0000 / 1_000_000_000 ==> job.timeout == op.timeout * 1_000_000_000)
      && (op.timeout == 0 ==> job.timeout == if op.persistent then 3_600_000_000_000 else 300_000_000_000)
  {
    if name in s.operations {
      AppForJob(s.operations[name]);
    }
  }

  lemma AppForJob(op: Operation)
    ensures var app, job := AppFor(DefaultedOperation(op)), JobOf(DefaultedOperation(op));
      app.operations.Keys == {"run"} && AppJobOf(app.operations["run"]) == job
  {
  }

  /** Defaults settle the limit of a job: five minutes, an hour when detached, unless configured. */
  lemma DefaultedJobLimit(op: Operation)
    ensures var job := JobOf(DefaultedOperation(op));
      && (op.timeout == 0 ==> job.timeout == if op.persistent then 3_600_000_000_000 else 300_000_000_000)
      && (op.timeout != 0 ==> job == JobOf(op))
      && job.timeout > 0
  {
  }

  // ---------- the configuration object ----------

  class Config {
    var port: int
    var socket: string
    var composeBinary: string
    var name: string
    var operations: map<string, Operation>
    var apps: map<string, App>

    function View(): Settings
      reads this
    {
      Settings(port, socket, composeBinary, name, operations, apps)
    }

    constructor (s: Settings)
      ensures View() == s
    {
      port, socket, composeBinary, name := s.port, s.socket, s.composeBinary, s.name;
      operations, apps := s.operations, s.apps;
    }

    method ApplyDefaults(hostname: Option<string>, commands: Commands)
      modifies this
      ensures View() == Defaulted(old(View()), hostname, commands)
    {
      DefaultHost(hostname);
      DefaultOperations();
      DefaultApps(commands);
      MigrateOperationsToApps();
    }

    method DefaultHost(hostname: Option<string>)
      modifies `port, `socket, `composeBinary, `name
      ensures port == (if old(port) == 0 then DEFAULT_PORT else old(port))
      ensures socket == Or(old(socket), DEFAULT_SOCKET)
      ensures composeBinary == Or(old(composeBinary), DEFAULT_COMPOSE_BINARY)
      ensures name == Or(old(name), hostname.GetOr("dockhand"))
    {
      if port == 0 {
        port := DEFAULT_PORT;
      }
      if socket == "" {
        socket := DEFAULT_SOCKET;
      }
      if composeBinary == "" {
        composeBinary := DEFAULT_COMPOSE_BINARY;
      }
      if name == "" {
        name := if hostname.Some? then hostname.value else "dockhand";
      }
    }

    method DefaultOperations()
      modifies this`operations
      ensures operations == DefaultedOperations(old(operations))
    {
      var left := operations.Keys;
      while left != {}
        invariant left <= old(operations).Keys == operations.Keys
        invariant forall n :: n in operations ==>
          operations[n] == if n in left then old(operations)[n] else DefaultedOperation(old(operations)[n])
        decreases left
      {
        var n :| n in left;
        var op := operations[n];
        if op.timeout == 0 {
          op := op.(timeout := if op.persistent then DEFAULT_PERSISTENT_OP_TIMEOUT else DEFAULT_OP_TIMEOUT);
        }
        if op.workingDir == "" {
          op := op.(workingDir := "/");
        }
        operations := operations[n := op];
        left := left - {n};
      }
    }

    method DefaultApps(commands: Commands)
      modifies this`apps
      ensures apps == DefaultedApps(old(apps), commands)
    {
      var left := apps.Keys;
      while left != {}
        invariant left <= old(apps).Keys == apps.Keys
        invariant forall n :: n in apps ==>
          apps[n] == if n in left then old(apps)[n] else DefaultedApp(old(apps)[n], commands)
        decreases left
      {
        var n :| n in left;
        var app := apps[n];
        var ops := DefaultAppOperations(app.operations);
        app := app.(operations := ops);
        if app.packageManager != "" && ToLower(app.packageManager) in commands {
          app := app.(systemUpdateCheck := commands[ToLower(app.packageManager)]);
        }
        apps := apps[n := app];
        left := left - {n};
      }
    }

    static method DefaultAppOperations(ops: map<string, AppOperation>) returns (r: map<string, AppOperation>)
      ensures r == map n | n in ops :: DefaultedAppOperation(n, ops[n])
    {
      r := ops;
      var left := ops.Keys;
      while left != {}
        invariant left <= ops.Keys == r.Keys
        invariant forall n :: n in r ==> r[n] == if n in left then ops[n] else DefaultedAppOperation(n, ops[n])
        decreases left
      {
        var n :| n in left;
        var op := r[n];
        if op.timeout == 0 {
          op := op.(timeout := if op.persistent then DEFAULT_PERSISTENT_OP_TIMEOUT else DEFAULT_OP_TIMEOUT);
        }
        if op.workingDir == "" {
          op := op.(workingDir := "/");
        }
        if op.title == "" {
          op := op.(title := n);
        }
        r := r[n := op];
        left := left - {n};
      }
    }

    method MigrateOperationsToApps()
      modifies this`apps
      ensures apps == MigratedApps(operations, old(apps))
    {
      if |apps| > 0 || |operations| == 0 {
        return;
      }
      apps := map[];
      var left := operations.Keys;
      while left != {}
        invariant left <= operations.Keys && apps.Keys == operations.Keys - left
        invariant forall n :: n in apps ==> apps[n] == AppFor(operations[n])
        decreases left
      {
        var n :| n in left;
        apps := apps[n := AppFor(operations[n])];
        left := left - {n};
      }
    }
  }
}
