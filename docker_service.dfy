/** The stateful part of the sandbox execution engine
    (backend/services/dockerService.js): the table of tracked containers
    capped at five, and the container life cycle built around it.

    Every `docker` invocation is replaced by its outcome, passed in as a
    parameter (`CommandOutcome`): the engine's behaviour is modelled for
    whatever the container runtime answers. The clock is an integer of
    milliseconds, and the host directories are parameters. */
module Docker {
  import opened Wrappers
  import opened Strings
  import SecurityPolicy
  import ExecutionOutput

  const ContainerPrefix: string := "meu-exec"
  const ExecutionImage: string := "meu-executor:latest"
  const MaxConcurrentContainers: nat := 5
  /** The reaper's age threshold: ten minutes in milliseconds. */
  const MaxAgeMillis: int := 10 * 60 * 1000

  /** What one `docker` invocation answered: its standard output after a
      zero exit code, or the failure text (`stderr || stdout`). */
  datatype CommandOutcome = Succeeded(stdout: string) | Failed(message: string)

  /** One entry of `activeContainers`. */
  datatype ContainerRecord = ContainerRecord(
    id: string,
    projectId: string,
    stepId: string,
    createdAt: int,
    status: string)

  datatype DockerError =
    | CapacityExceeded              // '已达到最大并发容器数量限制'
    | ProjectDirectoryMissing       // `fs.access(projectPath)` rejected
    | ContainerNotFound(name: string)
    | CommandFailed(message: string)

  /** `${containerPrefix}-${projectId}-${stepId}-${Date.now()}`. */
  function ContainerName(projectId: string, stepId: string, now: nat): (r: string)
    ensures |r| > 9 && r[..9] == "meu-exec-"
  {
    ContainerPrefix + "-" + projectId + "-" + stepId + "-" + NatToString(now)
  }

  /** For one step, names taken at different milliseconds differ. */
  lemma ContainerNameDistinctInTime(projectId: string, stepId: string, t1: nat, t2: nat)
    ensures ContainerName(projectId, stepId, t1) == ContainerName(projectId, stepId, t2) ==> t1 == t2
  {
    var pre := ContainerPrefix + "-" + projectId + "-" + stepId + "-";
    assert ContainerName(projectId, stepId, t1)[|pre|..] == NatToString(t1);
    assert ContainerName(projectId, stepId, t2)[|pre|..] == NatToString(t2);
    ParseNatToString(t1);
    ParseNatToString(t2);
  }

  /** The keep-alive `sleep` of the container:
      `executionTimeout ? executionTimeout * 60 : 3600` seconds. */
  function SleepSeconds(p: SecurityPolicy.Policy): (r: string)
    ensures p.resourceLimits.executionTimeout.None? ==> r == "3600"
    ensures p.resourceLimits.executionTimeout == Some(0) ==> r == "3600"
    ensures p.resourceLimits.executionTimeout.Some? && p.resourceLimits.executionTimeout.value != 0 ==>
      r == IntToString(p.resourceLimits.executionTimeout.value * 60)
  {
    match p.resourceLimits.executionTimeout
    case Some(t) => if t != 0 then IntToString(t * 60) else "3600"
    case None => "3600"
  }

  /** `flag value` appears as two consecutive arguments. */
  predicate HasOption(args: seq<string>, flag: string, value: string) {
    exists i | 0 <= i < |args| - 1 :: args[i] == flag && args[i + 1] == value
  }

  /** The `docker run` argument list of `createExecutionContainer`.
      `projectPath` is the host directory of the project and `outputPath`
      the host's shared output directory. */
  function RunArgs(name: string, projectId: string, projectPath: string, outputPath: string,
                   p: SecurityPolicy.Policy): (r: seq<string>)
    ensures |r| == 39 && r[0] == "run"
    ensures r[|r| - 3..] == [ExecutionImage, "sleep", SleepSeconds(p)]
  {
    LimitArgs(name, p) + HardeningArgs + MountArgs(projectId, projectPath, outputPath) +
    [ExecutionImage, "sleep", SleepSeconds(p)]
  }

  /** The name, network and resource-limit part of the list. */
  function LimitArgs(name: string, p: SecurityPolicy.Policy): (r: seq<string>)
    ensures |r| == 12
  {
    ["run", "--rm",
     "--name", name,
     "--network", p.networkMode,
     "--memory", p.resourceLimits.memory,
     "--cpus", p.resourceLimits.cpus,
     "--pids-limit", IntToString(p.resourceLimits.pids)]
  }

  /** The fixed hardening part of the list. */
  const HardeningArgs: seq<string> :=
    ["--security-opt", "no-new-privileges:true",
     "--cap-drop", "ALL",
     "--cap-add", "SETUID",
     "--cap-add", "SETGID",
     "--read-only",
     "--tmpfs", "/tmp:noexec,nosuid,size=100m",
     "--tmpfs", "/var/tmp:noexec,nosuid,size=50m",
     "--ulimit", "nproc=100",
     "--ulimit", "nofile=1024:2048"]

  /** The mounts and working directory, then detached mode. */
  function MountArgs(projectId: string, projectPath: string, outputPath: string): (r: seq<string>)
    ensures |r| == 7
  {
    ["-v", projectPath + ":/workspace/projects/" + projectId + ":ro",
     "-v", outputPath + ":/workspace/output",
     "-w", "/workspace",
     "-d"]
  }

  lemma OptionAt(args: seq<string>, i: nat, flag: string, value: string)
    requires i + 1 < |args| && args[i] == flag && args[i + 1] == value
    ensures HasOption(args, flag, value)
  {
  }

  lemma OptionInPrefix(a: seq<string>, b: seq<string>, flag: string, value: string)
    requires HasOption(a, flag, value)
    ensures HasOption(a + b, flag, value)
  {
    var i :| 0 <= i < |a| - 1 && a[i] == flag && a[i + 1] == value;
    OptionAt(a + b, i, flag, value);
  }

  lemma OptionInSuffix(a: seq<string>, b: seq<string>, flag: string, value: string)
    requires HasOption(b, flag, value)
    ensures HasOption(a + b, flag, value)
  {
    var i :| 0 <= i < |b| - 1 && b[i] == flag && b[i + 1] == value;
    OptionAt(a + b, |a| + i, flag, value);
  }

  /** An option found in one of the three argument groups is an option of
      the whole list. */
  lemma OptionInRunArgs(name: string, projectId: string, projectPath: string, outputPath: string,
                        p: SecurityPolicy.Policy, flag: string, value: string)
    requires HasOption(LimitArgs(name, p), flag, value) || HasOption(HardeningArgs, flag, value) ||
             HasOption(MountArgs(projectId, projectPath, outputPath), flag, value)
    ensures HasOption(RunArgs(name, projectId, projectPath, outputPath, p), flag, value)
  {
    var l, h, m := LimitArgs(name, p), HardeningArgs, MountArgs(projectId, projectPath, outputPath);
    var t := [ExecutionImage, "sleep", SleepSeconds(p)];
    if HasOption(l, flag, value) {
      OptionInPrefix(l, h, flag, value);
      OptionInPrefix(l + h, m, flag, value);
    } else if HasOption(h, flag, value) {
      OptionInSuffix(l, h, flag, value);
      OptionInPrefix(l + h, m, flag, value);
    } else {
      OptionInSuffix(l + h, m, flag, value);
    }
    OptionInPrefix(l + h + m, t, flag, value);
  }

  /** Every container is started with the policy's network mode and a
      read-only root file system. */
  lemma RunArgsIsolation(name: string, projectId: string, projectPath: string, outputPath: string,
                         p: SecurityPolicy.Policy)
    ensures var r := RunArgs(name, projectId, projectPath, outputPath, p);
      && HasOption(r, "--network", p.networkMode)
      && "--read-only" in r
  {
    OptionAt(LimitArgs(name, p), 4, "--network", p.networkMode);
    OptionInRunArgs(name, projectId, projectPath, outputPath, p, "--network", p.networkMode);
    assert HardeningArgs[8] == "--read-only";
  }

  /** Every container is started with privilege escalation disabled. */
  lemma RunArgsNoNewPrivileges(name: string, projectId: string, projectPath: string, outputPath: string,
                               p: SecurityPolicy.Policy)
    ensures HasOption(RunArgs(name, projectId, projectPath, outputPath, p), "--security-opt", "no-new-privileges:true")
  {
    OptionAt(HardeningArgs, 0, "--security-opt", "no-new-privileges:true");
    OptionInRunArgs(name, projectId, projectPath, outputPath, p, "--security-opt", "no-new-privileges:true");
  }

  /** Every container is started with all capabilities dropped (SETUID and
      SETGID are added back). */
  lemma RunArgsDropCapabilities(name: string, projectId: string, projectPath: string, outputPath: string,
                                p: SecurityPolicy.Policy)
    ensures HasOption(RunArgs(name, projectId, projectPath, outputPath, p), "--cap-drop", "ALL")
  {
    OptionAt(HardeningArgs, 2, "--cap-drop", "ALL");
    OptionInRunArgs(name, projectId, projectPath, outputPath, p, "--cap-drop", "ALL");
  }

  /** The container carries its name and the policy's memory and CPU
      limits, and mounts the project read-only. */
  lemma RunArgsLimits(name: string, projectId: string, projectPath: string, outputPath: string,
                      p: SecurityPolicy.Policy)
    ensures var r := RunArgs(name, projectId, projectPath, outputPath, p);
      && HasOption(r, "--name", name)
      && HasOption(r, "--memory", p.resourceLimits.memory)
      && HasOption(r, "--cpus", p.resourceLimits.cpus)
      && HasOption(r, "-v", projectPath + ":/workspace/projects/" + projectId + ":ro")
  {
    var r := RunArgs(name, projectId, projectPath, outputPath, p);
    var head := LimitArgs(name, p);
    assert HasOption(r, "--name", name) by {
      OptionAt(head, 2, "--name", name);
      OptionInRunArgs(name, projectId, projectPath, outputPath, p, "--name", name);
    }
    assert HasOption(r, "--memory", p.resourceLimits.memory) by {
      OptionAt(head, 6, "--memory", p.resourceLimits.memory);
      OptionInRunArgs(name, projectId, projectPath, outputPath, p, "--memory", p.resourceLimits.memory);
    }
    assert HasOption(r, "--cpus", p.resourceLimits.cpus) by {
      OptionAt(head, 8, "--cpus", p.resourceLimits.cpus);
      OptionInRunArgs(name, projectId, projectPath, outputPath, p, "--cpus", p.resourceLimits.cpus);
    }
    var mount := projectPath + ":/workspace/projects/" + projectId + ":ro";
    assert HasOption(r, "-v", mount) by {
      OptionAt(MountArgs(projectId, projectPath, outputPath), 0, "-v", mount);
      OptionInRunArgs(name, projectId, projectPath, outputPath, p, "-v", mount);
    }
  }

  /** The hardening is hard-wired: the policy's `securityOptions` have no
      effect on the arguments. */
  lemma RunArgsIgnoreSecurityOptions(name: string, projectId: string, projectPath: string,
                                     outputPath: string, p: SecurityPolicy.Policy,
                                     options: SecurityPolicy.SecurityOptions)
    ensures RunArgs(name, projectId, projectPath, outputPath, p.(securityOptions := options))
         == RunArgs(name, projectId, projectPath, outputPath, p)
  {
  }

  /** The `docker exec` argument list of `executeInContainer`: the sandbox
      script run under `timeout (executionTimeout || 30)s`. */
  function ExecArgs(name: string, language: string, projectId: string, stepId: string,
                    codeFile: string, p: SecurityPolicy.Policy): (r: seq<string>)
    ensures |r| == 10 && r[..3] == ["exec", name, "timeout"]
    ensures r[4..6] == ["/bin/bash", "/workspace/sandbox.sh"]
    ensures r[6..] == [language, projectId, stepId, codeFile]
    ensures |r[3]| >= 2 && r[3][|r[3]| - 1] == 's'
  {
    ["exec", name,
     "timeout", IntToString(SecurityPolicy.RunTimeout(p)) + "s",
     "/bin/bash", "/workspace/sandbox.sh",
     language, projectId, stepId, codeFile]
  }

  /** The duration argument of `timeout` reads back as the policy's run
      timeout in seconds. */
  lemma ExecTimeoutReadsBack(name: string, language: string, projectId: string, stepId: string,
                             codeFile: string, p: SecurityPolicy.Policy)
    ensures var d := ExecArgs(name, language, projectId, stepId, codeFile, p)[3];
      && (SecurityPolicy.RunTimeout(p) > 0 ==> ParseNat(d[..|d| - 1]) == SecurityPolicy.RunTimeout(p))
      && (SecurityPolicy.RunTimeout(p) < 0 ==>
            d[0] == '-' && ParseNat(d[1..|d| - 1]) == -SecurityPolicy.RunTimeout(p))
  {
    var t := SecurityPolicy.RunTimeout(p);
    var d := ExecArgs(name, language, projectId, stepId, codeFile, p)[3];
    if t > 0 {
      assert d[..|d| - 1] == NatToString(t);
      ParseNatToString(t);
    } else {
      assert d[1..|d| - 1] == NatToString(-t);
      ParseNatToString(-t);
    }
  }

  /** The policy in force after the engine's lazy load: the one already
      loaded, else what `loadSecurityPolicy` produces from the file. */
  function EffectivePolicy(loaded: Option<SecurityPolicy.Policy>, file: Option<SecurityPolicy.Policy>)
    : (p: SecurityPolicy.Policy)
    ensures loaded.Some? ==> p == loaded.value
    ensures loaded.None? ==> p == SecurityPolicy.LoadSecurityPolicy(file)
  {
    match loaded
    case Some(q) => q
    case None => SecurityPolicy.LoadSecurityPolicy(file)
  }

  /** Resource usage as read from `docker stats`. */
  datatype ContainerStats = ContainerStats(
    cpuPercent: string,
    memoryUsage: string,
    memoryPercent: string,
    pids: string)

  /** `stats[i] || dflt`. */
  function FieldOr(fields: seq<string>, i: nat, dflt: string): (r: string)
    ensures dflt != [] ==> r != []
    ensures i < |fields| && fields[i] != [] ==> r == fields[i]
  {
    if i < |fields| && fields[i] != [] then fields[i] else dflt
  }

  /** The non-blank lines of a `docker ps` listing, in order:
      `result.trim().split('\n').filter(line => line.trim())`. */
  function NonBlank(lines: seq<string>): (r: seq<string>)
    ensures |r| <= |lines|
    ensures forall l :: l in r <==> l in lines && Trim(l) != []
  {
    if lines == [] then []
    else
      var rest := NonBlank(lines[1..]);
      assert forall l :: l in lines <==> l == lines[0] || l in lines[1..];
      if Trim(lines[0]) != [] then [lines[0]] + rest else rest
  }

  function ListingLines(stdout: string): seq<string> {
    NonBlank(Split(Trim(stdout), '\n'))
  }

  /** `const [name, status, createdAt] = line.split('\t')`. */
  function LineName(line: string): string {
    Split(line, '\t')[0]
  }

  function LineCreatedAt(line: string): Option<string> {
    var fields := Split(line, '\t');
    if |fields| > 2 then Some(fields[2]) else None
  }

  /** `(now - new Date(createdAt)) / 60000 > 10`. `parseDate` stands for
      JavaScript's date parsing, `None` for an invalid date; a missing or
      unparseable date makes the comparison false. */
  predicate Expired(line: string, now: int, parseDate: string -> Option<int>) {
    match LineCreatedAt(line)
    case None => false
    case Some(text) =>
      match parseDate(text)
      case None => false
      case Some(created) => now - created > MaxAgeMillis
  }

  /** The names the reaper removes, in listing order. */
  function ExpiredNames(lines: seq<string>, now: int, parseDate: string -> Option<int>)
    : (r: seq<string>)
    ensures |r| <= |lines|
  {
    if lines == [] then []
    else
      var rest := ExpiredNames(lines[1..], now, parseDate);
      if Expired(lines[0], now, parseDate) then [LineName(lines[0])] + rest else rest
  }

  /** A name is removed exactly when some listed line with that name is
      older than ten minutes. */
  lemma {:induction false} ExpiredNamesIff(lines: seq<string>, now: int,
                                           parseDate: string -> Option<int>, name: string)
    ensures name in ExpiredNames(lines, now, parseDate) <==>
      exists k :: 0 <= k < |lines| && Expired(lines[k], now, parseDate) && LineName(lines[k]) == name
  {
    if lines != [] {
      ExpiredNamesIff(lines[1..], now, parseDate, name);
      if exists k :: 0 <= k < |lines| && Expired(lines[k], now, parseDate) && LineName(lines[k]) == name {
        var k :| 0 <= k < |lines| && Expired(lines[k], now, parseDate) && LineName(lines[k]) == name;
        if k > 0 {
          assert lines[1..][k - 1] == lines[k];
        }
      }
      if name in ExpiredNames(lines[1..], now, parseDate) {
        var k :| 0 <= k < |lines[1..]| && Expired(lines[1..][k], now, parseDate) && LineName(lines[1..][k]) == name;
        assert lines[k + 1] == lines[1..][k];
      }
    }
  }

  /** A container exactly ten minutes old survives: the threshold is strict. */
  lemma ExactlyTenMinutesSurvives(line: string, now: int, parseDate: string -> Option<int>)
    requires LineCreatedAt(line).Some? && parseDate(LineCreatedAt(line).value) == Some(now - 600000)
    ensures !Expired(line, now, parseDate)
  {
  }

  /** A complete listing line is split into its three columns. */
  lemma ListingLineColumns(name: string, status: string, createdAt: string)
    requires '\t' !in name && '\t' !in status && '\t' !in createdAt
    ensures var line := name + "\t" + status + "\t" + createdAt;
      LineName(line) == name && LineCreatedAt(line) == Some(createdAt)
  {
    var line := name + "\t" + status + "\t" + createdAt;
    assert [name, status, createdAt][1..] == [status, createdAt];
    assert [status, createdAt][1..] == [createdAt];
    assert JoinChar([status, createdAt], '\t') == status + "\t" + createdAt;
    assert line == name + "\t" + (status + "\t" + createdAt);
    assert line == JoinChar([name, status, createdAt], '\t');
    SplitJoinChar([name, status, createdAt], '\t');
  }

  /** The engine. `securityPolicy` is the module-level policy, loaded
      lazily on first use. */
  class DockerService {
    var activeContainers: map<string, ContainerRecord>
    var securityPolicy: Option<SecurityPolicy.Policy>

    /** The tracking table never holds more than five containers. */
    ghost predicate Valid()
      reads this
    {
      |activeContainers| <= MaxConcurrentContainers
    }

    constructor()
      ensures Valid()
      ensures activeContainers == map[] && securityPolicy.None?
    {
      activeContainers := map[];
      securityPolicy := None;
    }

    /** `if (!securityPolicy) await loadSecurityPolicy()`. */
    method EnsurePolicy(policyFile: Option<SecurityPolicy.Policy>) returns (policy: SecurityPolicy.Policy)
      modifies this
      ensures policy == EffectivePolicy(old(securityPolicy), policyFile)
      ensures securityPolicy == Some(policy)
      ensures activeContainers == old(activeContainers)
    {
      if securityPolicy.None? {
        securityPolicy := Some(SecurityPolicy.LoadSecurityPolicy(policyFile));
      }
      policy := securityPolicy.value;
    }

    /** `createExecutionContainer(projectId, stepId)`. The capacity check
        comes first; then the policy is loaded, the project directory is
        checked and `docker run` is dispatched (`dispatched`). Only a
        successful run adds a record, with status "running" and the
        trimmed container id. */
    method CreateExecutionContainer(
      projectId: string, stepId: string, now: nat,
      projectPath: string, outputPath: string,
      policyFile: Option<SecurityPolicy.Policy>,
      projectDirExists: bool,
      run: CommandOutcome)
      returns (r: Result<string, DockerError>, dispatched: Option<seq<string>>)
      requires Valid()
      modifies this
      ensures Valid()
      ensures |old(activeContainers)| >= MaxConcurrentContainers ==>
        r == Failure(CapacityExceeded) && dispatched.None? &&
        activeContainers == old(activeContainers) && securityPolicy == old(securityPolicy)
      ensures |old(activeContainers)| < MaxConcurrentContainers ==>
        securityPolicy == Some(EffectivePolicy(old(securityPolicy), policyFile))
      ensures |old(activeContainers)| < MaxConcurrentContainers && !projectDirExists ==>
        r == Failure(ProjectDirectoryMissing) && dispatched.None? &&
        activeContainers == old(activeContainers)
      ensures |old(activeContainers)| < MaxConcurrentContainers && projectDirExists ==>
        var name := ContainerName(projectId, stepId, now);
        && dispatched == Some(RunArgs(name, projectId, projectPath, outputPath,
                                      EffectivePolicy(old(securityPolicy), policyFile)))
        && (run.Failed? ==>
              r == Failure(CommandFailed(run.message)) && activeContainers == old(activeContainers))
        && (run.Succeeded? ==>
              r == Success(name) &&
              activeContainers == old(activeContainers)[name :=
                ContainerRecord(Trim(run.stdout), projectId, stepId, now, "running")])
    {
      if |activeContainers| >= MaxConcurrentContainers {
        return Failure(CapacityExceeded), None;
      }
      var name := ContainerName(projectId, stepId, now);
      var policy := EnsurePolicy(policyFile);
      if !projectDirExists {
        return Failure(ProjectDirectoryMissing), None;
      }
      var args := RunArgs(name, projectId, projectPath, outputPath, policy);
      dispatched := Some(args);
      match run
      case Failed(message) =>
        r := Failure(CommandFailed(message));
      case Succeeded(stdout) =>
        activeContainers := activeContainers[name := ContainerRecord(Trim(stdout), projectId, stepId, now, "running")];
        r := Success(name);
    }

    /** `executeInContainer(...)`. An untracked name fails before anything
        is loaded or dispatched; a failed `docker exec` is an error; else
        the artifact files are normalised into the result. The table is
        never changed. */
    method ExecuteInContainer(
      containerName: string, language: string, projectId: string, stepId: string, codeFile: string,
      policyFile: Option<SecurityPolicy.Policy>,
      exec: CommandOutcome,
      outputFile: Option<string>, errorFile: Option<string>,
      statusFile: Option<ExecutionOutput.StatusJson>,
      executionTime: int)
      returns (r: Result<ExecutionOutput.ExecutionResult, DockerError>, dispatched: Option<seq<string>>)
      modifies this
      ensures activeContainers == old(activeContainers)
      ensures containerName !in old(activeContainers) ==>
        r == Failure(ContainerNotFound(containerName)) && dispatched.None? &&
        securityPolicy == old(securityPolicy)
      ensures containerName in old(activeContainers) ==>
        var policy := EffectivePolicy(old(securityPolicy), policyFile);
        && securityPolicy == Some(policy)
        && dispatched == Some(ExecArgs(containerName, language, projectId, stepId, codeFile, policy))
        && (exec.Failed? ==> r == Failure(CommandFailed(exec.message)))
        && (exec.Succeeded? ==>
              r == Success(ExecutionOutput.NormalizedResult(policy, outputFile, errorFile, statusFile, executionTime)))
    {
      if containerName !in activeContainers {
        return Failure(ContainerNotFound(containerName)), None;
      }
      var policy := EnsurePolicy(policyFile);
      dispatched := Some(ExecArgs(containerName, language, projectId, stepId, codeFile, policy));
      if exec.Failed? {
        return Failure(CommandFailed(exec.message)), dispatched;
      }
      r := Success(ExecutionOutput.NormalizedResult(policy, outputFile, errorFile, statusFile, executionTime));
    }

    /** `stopContainer(name)`: an untracked name is ignored; the entry is
        deleted only after `docker stop` succeeded, and kept otherwise. */
    method StopContainer(containerName: string, stopSucceeded: bool)
      requires Valid()
      modifies this
      ensures Valid()
      ensures securityPolicy == old(securityPolicy)
      ensures containerName !in old(activeContainers) || !stopSucceeded ==>
        activeContainers == old(activeContainers)
      ensures containerName in old(activeContainers) && stopSucceeded ==>
        activeContainers == old(activeContainers) - {containerName}
    {
      if containerName !in activeContainers {
        return;
      }
      if stopSucceeded {
        activeContainers := activeContainers - {containerName};
      }
    }

    /** `removeContainer(name)`: `docker rm -f`; the outcome is reported as
        a boolean and never raised. The table is not touched. */
    method RemoveContainer(containerName: string, rm: CommandOutcome) returns (removed: bool)
      ensures removed <==> rm.Succeeded?
    {
      match rm
      case Succeeded(_) => removed := true;
      case Failed(_) => removed := false;
    }

    /** `getContainerStatusFromDocker(name)`: the trimmed state text, or
        "not_found" when `docker inspect` fails. */
    function GetContainerStatusFromDocker(containerName: string, inspect: CommandOutcome): (status: string)
      ensures inspect.Failed? ==> status == "not_found"
      ensures inspect.Succeeded? ==> status == Trim(inspect.stdout)
      ensures status == [] || (!IsJsWhitespace(status[0]) && !IsJsWhitespace(status[|status| - 1]))
    {
      match inspect
      case Succeeded(stdout) => Trim(stdout)
      case Failed(_) => "not_found"
    }

    /** `getContainerStats(name)`: the second line of the trimmed output,
        split on tabs, each missing or empty column defaulted; `None` when
        there is no second line or the command failed. */
    function GetContainerStats(containerName: string, stats: CommandOutcome): (r: Option<ContainerStats>)
      ensures r.Some? <==> stats.Succeeded? && CountChar(Trim(stats.stdout), '\n') >= 1
      ensures r.Some? ==> r.value.cpuPercent != [] && r.value.memoryUsage != [] &&
                          r.value.memoryPercent != [] && r.value.pids != []
    {
      match stats
      case Failed(_) => None
      case Succeeded(stdout) =>
        var lines := Split(Trim(stdout), '\n');
        if |lines| < 2 then None
        else
          var fields := Split(lines[1], '\t');
          Some(ContainerStats(
            FieldOr(fields, 0, "0%"),
            FieldOr(fields, 1, "0B / 0B"),
            FieldOr(fields, 2, "0%"),
            FieldOr(fields, 3, "0")))
    }

    /** A header line followed by one row of four non-empty,
        tab-separated columns is read back column by column. */
    lemma StatsRoundTrip(containerName: string, header: string,
                         cpu: string, mem: string, memPercent: string, pids: string)
      requires header != [] && !IsJsWhitespace(header[0])
      requires pids != [] && !IsJsWhitespace(pids[|pids| - 1])
      requires cpu != [] && mem != [] && memPercent != []
      requires '\n' !in header && '\n' !in cpu && '\n' !in mem && '\n' !in memPercent && '\n' !in pids
      requires '\t' !in cpu && '\t' !in mem && '\t' !in memPercent && '\t' !in pids
      ensures GetContainerStats(containerName,
                Succeeded(header + "\n" + JoinChar([cpu, mem, memPercent, pids], '\t')))
           == Some(ContainerStats(cpu, mem, memPercent, pids))
    {
      var fields := [cpu, mem, memPercent, pids];
      var row := JoinChar(fields, '\t');
      SplitJoinChar(fields, '\t');
      RowShape(cpu, mem, memPercent, pids, row);
      StatsLines(header, row, pids);
      StatsOfLines(containerName, header + "\n" + row, row, fields);
    }

    /** The joined row keeps the last character of its last column and
        gains no line break. */
    lemma RowShape(cpu: string, mem: string, memPercent: string, pids: string, row: string)
      requires pids != []
      requires '\n' !in cpu && '\n' !in mem && '\n' !in memPercent && '\n' !in pids
      requires row == JoinChar([cpu, mem, memPercent, pids], '\t')
      ensures row != [] && row[|row| - 1] == pids[|pids| - 1] && '\n' !in row
    {
      JoinFour(cpu, mem, memPercent, pids, '\t');
      var cd := memPercent + "\t" + pids;
      var bcd := mem + "\t" + cd;
      assert row == cpu + "\t" + bcd;
      assert '\n' !in cd && '\n' !in bcd;
    }

    lemma StatsOfLines(containerName: string, stdout: string, row: string, fields: seq<string>)
      requires |Split(Trim(stdout), '\n')| >= 2 && Split(Trim(stdout), '\n')[1] == row
      requires Split(row, '\t') == fields
      requires |fields| == 4 && forall k :: 0 <= k < 4 ==> fields[k] != []
      ensures GetContainerStats(containerName, Succeeded(stdout))
           == Some(ContainerStats(fields[0], fields[1], fields[2], fields[3]))
    {
    }

    lemma StatsLines(header: string, row: string, pids: string)
      requires header != [] && !IsJsWhitespace(header[0])
      requires pids != [] && row != [] && row[|row| - 1] == pids[|pids| - 1]
      requires !IsJsWhitespace(pids[|pids| - 1])
      requires '\n' !in header && '\n' !in row
      ensures Split(Trim(header + "\n" + row), '\n') == [header, row]
    {
      var s := header + "\n" + row;
      assert [header, row][1..] == [row];
      assert s == JoinChar([header, row], '\n');
      assert s[|s| - 1] == row[|row| - 1];
      TrimNoop(s);
      SplitJoinChar([header, row], '\n');
    }

    lemma JoinFour(a: string, b: string, c: string, d: string, sep: char)
      ensures JoinChar([a, b, c, d], sep) == a + [sep] + (b + [sep] + (c + [sep] + d))
    {
      assert [a, b, c, d][1..] == [b, c, d];
      assert [b, c, d][1..] == [c, d];
      assert [c, d][1..] == [d];
      assert JoinChar([c, d], sep) == c + [sep] + d;
      assert JoinChar([b, c, d], sep) == b + [sep] + JoinChar([c, d], sep);
    }

    /** `cleanupExpiredContainers()`: removes (with `docker rm -f`) every
        listed container older than ten minutes, in listing order, and
        returns how many removals it attempted; a failed listing gives 0.
        Removal outcomes are ignored, and the tracking table is left as it
        is even for containers it tracks. */
    method CleanupExpiredContainers(listing: CommandOutcome, now: int, parseDate: string -> Option<int>)
      returns (cleaned: nat, removed: seq<string>)
      ensures listing.Failed? ==> cleaned == 0 && removed == []
      ensures listing.Succeeded? ==>
        removed == ExpiredNames(ListingLines(listing.stdout), now, parseDate)
      ensures cleaned == |removed|
    {
      if listing.Failed? {
        return 0, [];
      }
      var lines := ListingLines(listing.stdout);
      cleaned, removed := 0, [];
      var i := |lines|;
      while i > 0
        invariant 0 <= i <= |lines|
        invariant removed == ExpiredNames(lines[i..], now, parseDate)
        invariant cleaned == |removed|
      {
        i := i - 1;
        assert lines[i..][1..] == lines[i + 1..];
        if Expired(lines[i], now, parseDate) {
          removed := [LineName(lines[i])] + removed;
          cleaned := cleaned + 1;
        }
      }
      assert lines[0..] == lines;
    }

    /** `cleanup()`: stops every tracked container; those whose stop
        succeeded leave the table, the others stay. */
    method Cleanup(stopSucceeds: string -> bool)
      requires Valid()
      modifies this
      ensures Valid()
      ensures securityPolicy == old(securityPolicy)
      ensures activeContainers ==
        map k | k in old(activeContainers) && !stopSucceeds(k) :: old(activeContainers)[k]
    {
      var original := activeContainers;
      var remaining := activeContainers.Keys;
      while remaining != {}
        invariant remaining <= original.Keys
        invariant Valid()
        invariant securityPolicy == old(securityPolicy)
        invariant activeContainers ==
          map k | k in original && (k in remaining || !stopSucceeds(k)) :: original[k]
        decreases |remaining|
      {
        var name :| name in remaining;
        StopContainer(name, stopSucceeds(name));
        remaining := remaining - {name};
      }
    }
  }
}
