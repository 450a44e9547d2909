/** How the sandbox execution engine (backend/services/dockerService.js,
    `executeInContainer`) turns the artifact files of one run into an
    execution result: each stream is cut to the policy's output limit with
    its own marker, `success` is read from the status file, and the
    security summary echoes the applied limits. */
module ExecutionOutput {
  import opened Wrappers
  import opened Strings
  import SecurityPolicy

  /** What is searched for to decide whether the output was cut. */
  const OutputMarkerText: string := "[输出被截断...]"
  const ErrorMarkerText: string := "[错误输出被截断...]"

  /** What is appended to a cut stream: a newline and the text above. */
  const OutputMarker: string := "\n" + OutputMarkerText
  const ErrorMarker: string := "\n" + ErrorMarkerText

  /** `s.length > limit ? s.substring(0, limit) + marker : s`. A negative
      limit makes `substring` stop at 0, so only the marker is left. */
  function Truncate(s: string, limit: int, marker: string): (r: string)
    ensures |s| <= limit ==> r == s
    ensures |s| > limit && limit >= 0 ==>
      |r| == limit + |marker| && r[..limit] == s[..limit] && r[limit..] == marker
    ensures |s| > limit && limit < 0 ==> r == marker
  {
    if |s| > limit then
      var keep := if limit < 0 then 0 else limit;
      s[..keep] + marker
    else s
  }

  /** A cut stream always carries its marker text. */
  lemma TruncatedCarriesMarker(s: string, limit: int, text: string)
    requires |s| > limit
    ensures Contains(Truncate(s, limit, "\n" + text), text)
  {
    var keep := if limit < 0 then 0 else limit;
    assert Truncate(s, limit, "\n" + text) == (s[..keep] + "\n") + text + [];
    ContainsSpliced(s[..keep] + "\n", text, []);
  }

  /** The parsed status file. `JsonNull` is a file holding `null` (reading
      its `exitCode` throws, which the engine swallows); `JsonValue` is any
      other JSON value, with `exitCode` present when it has a numeric
      `exitCode` field. */
  datatype StatusJson = JsonNull | JsonValue(exitCode: Option<int>)

  datatype ResourceEcho = ResourceEcho(memory: string, cpus: string)

  /** `securityInfo`: the raw `executionTimeout` of the policy (not the
      defaulted one), whether a marker is present, and the limits. */
  datatype SecurityInfo = SecurityInfo(
    timeoutApplied: Option<int>,
    outputLimited: bool,
    resourceLimits: ResourceEcho)

  datatype ExecutionResult = ExecutionResult(
    output: string,
    error: string,
    status: Option<StatusJson>,
    success: bool,
    executionTime: int,
    securityInfo: SecurityInfo)

  /** A file that could not be read leaves its field at "". */
  function ReadArtifact(file: Option<string>): (r: string)
    ensures file.None? ==> r == []
    ensures file.Some? ==> r == file.value
  {
    file.GetOr([])
  }

  /** `success` starts true and is replaced by `exitCode === 0` only when
      the status file was read, parsed, and is not `null`. */
  predicate StatusSuccess(status: Option<StatusJson>) {
    match status
    case Some(JsonValue(exitCode)) => exitCode == Some(0)
    case _ => true
  }

  /** The result record built from the three artifact files.
      `outputFile`/`errorFile` are the file contents (`None` when missing);
      `statusFile` is the parsed status (`None` when missing or not JSON). */
  function NormalizedResult(
    policy: SecurityPolicy.Policy,
    outputFile: Option<string>,
    errorFile: Option<string>,
    statusFile: Option<StatusJson>,
    executionTime: int): (r: ExecutionResult)
    ensures r.output == Truncate(ReadArtifact(outputFile), SecurityPolicy.OutputLimit(policy), OutputMarker)
    ensures r.error == Truncate(ReadArtifact(errorFile), SecurityPolicy.OutputLimit(policy), ErrorMarker)
    ensures !r.success <==>
      statusFile.Some? && statusFile.value.JsonValue? && statusFile.value.exitCode != Some(0)
    ensures statusFile.None? ==> r.success
    ensures r.securityInfo.outputLimited <==>
      Contains(r.output, OutputMarkerText) || Contains(r.error, ErrorMarkerText)
    ensures r.securityInfo.timeoutApplied == policy.resourceLimits.executionTimeout
    ensures r.securityInfo.resourceLimits ==
      ResourceEcho(policy.resourceLimits.memory, policy.resourceLimits.cpus)
    ensures r.status == statusFile && r.executionTime == executionTime
  {
    var limit := SecurityPolicy.OutputLimit(policy);
    var output := Truncate(ReadArtifact(outputFile), limit, OutputMarker);
    var error := Truncate(ReadArtifact(errorFile), limit, ErrorMarker);
    ExecutionResult(
      output, error, statusFile, StatusSuccess(statusFile), executionTime,
      SecurityInfo(
        policy.resourceLimits.executionTimeout,
        Contains(output, OutputMarkerText) || Contains(error, ErrorMarkerText),
        ResourceEcho(policy.resourceLimits.memory, policy.resourceLimits.cpus)))
  }

  /** `outputLimited` holds exactly when a stream was cut or the program
      itself printed a marker text. */
  lemma OutputLimitedIff(
    policy: SecurityPolicy.Policy,
    outputFile: Option<string>,
    errorFile: Option<string>,
    statusFile: Option<StatusJson>,
    executionTime: int)
    ensures
      var out := ReadArtifact(outputFile);
      var err := ReadArtifact(errorFile);
      var limit := SecurityPolicy.OutputLimit(policy);
      NormalizedResult(policy, outputFile, errorFile, statusFile, executionTime).securityInfo.outputLimited
      <==>
      |out| > limit || |err| > limit ||
      Contains(out, OutputMarkerText) || Contains(err, ErrorMarkerText)
  {
    var out := ReadArtifact(outputFile);
    var err := ReadArtifact(errorFile);
    var limit := SecurityPolicy.OutputLimit(policy);
    if |out| > limit {
      TruncatedCarriesMarker(out, limit, OutputMarkerText);
    }
    if |err| > limit {
      TruncatedCarriesMarker(err, limit, ErrorMarkerText);
    }
  }

  /** A cut output is exactly `limit` characters of the original plus the
      marker. */
  lemma TruncatedOutputLength(
    policy: SecurityPolicy.Policy,
    outputFile: Option<string>,
    errorFile: Option<string>,
    statusFile: Option<StatusJson>,
    executionTime: int)
    requires outputFile.Some? && |outputFile.value| > SecurityPolicy.OutputLimit(policy) >= 0
    ensures
      var r := NormalizedResult(policy, outputFile, errorFile, statusFile, executionTime);
      var limit := SecurityPolicy.OutputLimit(policy);
      && |r.output| == limit + |OutputMarker|
      && r.output[..limit] == outputFile.value[..limit]
      && r.securityInfo.outputLimited
  {
    TruncatedCarriesMarker(outputFile.value, SecurityPolicy.OutputLimit(policy), OutputMarkerText);
  }

  /** An empty (or missing) output and error give empty fields and
      `outputLimited == false`, under any non-negative limit. */
  lemma EmptyOutputNotLimited(
    policy: SecurityPolicy.Policy,
    outputFile: Option<string>,
    errorFile: Option<string>,
    statusFile: Option<StatusJson>,
    executionTime: int)
    requires ReadArtifact(outputFile) == [] && ReadArtifact(errorFile) == []
    requires SecurityPolicy.OutputLimit(policy) >= 0
    ensures
      var r := NormalizedResult(policy, outputFile, errorFile, statusFile, executionTime);
      r.output == [] && r.error == [] && !r.securityInfo.outputLimited
  {
  }

  /** Under the default policy the limit is 10240 characters. */
  lemma DefaultOutputLimit(outputFile: Option<string>, errorFile: Option<string>,
                           statusFile: Option<StatusJson>, executionTime: int)
    requires outputFile.Some? && |outputFile.value| > 10240
    ensures
      var r := NormalizedResult(SecurityPolicy.DefaultPolicy, outputFile, errorFile, statusFile, executionTime);
      |r.output| == 10240 + |OutputMarker| && r.securityInfo.outputLimited
  {
    TruncatedOutputLength(SecurityPolicy.DefaultPolicy, outputFile, errorFile, statusFile, executionTime);
  }
}
