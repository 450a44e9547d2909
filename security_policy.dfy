/** The security policy of the sandbox execution engine
    (backend/services/dockerService.js): the declarative settings read from
    `docker/execution/security-policy.json`, the built-in default used when
    that file cannot be read or parsed, and the defaults the engine applies
    to missing or zero limits. */
module SecurityPolicy {
  import opened Wrappers
  import JsObject

  /** `resourceLimits`. `executionTimeout` and `outputLimit` may be absent
      from the file, hence `Option`. */
  datatype ResourceLimits = ResourceLimits(
    memory: string,
    cpus: string,
    pids: int,
    executionTimeout: Option<int>,
    outputLimit: Option<int>)

  /** `securityOptions`. */
  datatype SecurityOptions = SecurityOptions(
    readOnly: bool,
    noNewPrivileges: bool,
    dropCapabilities: seq<string>)

  /** The whole policy. `allowedCommands` maps a language to its command
      template (only its truthiness is consulted); `blockedCommands` lists
      forbidden substrings. Both may be absent. */
  datatype Policy = Policy(
    resourceLimits: ResourceLimits,
    securityOptions: SecurityOptions,
    networkMode: string,
    allowedCommands: Option<map<string, string>>,
    blockedCommands: Option<seq<string>>)

  /** `getDefaultSecurityPolicy()`: tight limits, no network, every
      capability dropped — and neither an allow-list nor a block-list. */
  const DefaultPolicy: Policy := Policy(
    ResourceLimits("256m", "0.5", 100, Some(30), Some(10240)),
    SecurityOptions(true, true, ["ALL"]),
    "none",
    None,
    None)

  /** `loadSecurityPolicy()`: the parsed file, `None` when reading or
      parsing failed. A failure is not reported; the default policy is used
      silently. */
  function LoadSecurityPolicy(file: Option<Policy>): (p: Policy)
    ensures file.Some? ==> p == file.value
    ensures file.None? ==> p.networkMode == "none" && p.allowedCommands.None? && p.blockedCommands.None?
  {
    match file
    case Some(parsed) => parsed
    case None => DefaultPolicy
  }

  /** JavaScript's `x || d` on an optional number: absent or 0 gives `d`. */
  function OrDefault(x: Option<int>, d: int): (r: int)
    ensures x.Some? && x.value != 0 ==> r == x.value
    ensures x.None? || x.value == 0 ==> r == d
  {
    match x
    case Some(v) => if v != 0 then v else d
    case None => d
  }

  const DefaultExecutionTimeout := 30
  const DefaultOutputLimit := 10240

  /** `policy.resourceLimits.executionTimeout || 30`, in seconds. */
  function RunTimeout(p: Policy): (t: int)
    ensures t != 0
  {
    OrDefault(p.resourceLimits.executionTimeout, DefaultExecutionTimeout)
  }

  /** `policy.resourceLimits.outputLimit || 10240`, in characters. */
  function OutputLimit(p: Policy): (n: int)
    ensures n != 0
  {
    OrDefault(p.resourceLimits.outputLimit, DefaultOutputLimit)
  }

  /** `policy.blockedCommands || []`. */
  function BlockedCommands(p: Policy): seq<string> {
    p.blockedCommands.GetOr([])
  }

  /** `!!(policy.allowedCommands || {})[language]`: a key whose template is
      the empty string is as good as absent, and a name inherited from
      `Object.prototype` that the file does not define is truthy. */
  predicate LanguageAllowed(p: Policy, language: string) {
    var allowed := p.allowedCommands.GetOr(map[]);
    if language in allowed then allowed[language] != "" else JsObject.IsInherited(language)
  }

  /** The fallback policy allows only the names every object inherits
      ("constructor", "toString", "__proto__", ...) and blocks no command. */
  lemma FallbackAllowsInheritedOnly(language: string)
    ensures LanguageAllowed(LoadSecurityPolicy(None), language) <==> JsObject.IsInherited(language)
    ensures !LanguageAllowed(LoadSecurityPolicy(None), "python")
    ensures LanguageAllowed(LoadSecurityPolicy(None), "constructor")
    ensures BlockedCommands(LoadSecurityPolicy(None)) == []
    ensures RunTimeout(LoadSecurityPolicy(None)) == 30
    ensures OutputLimit(LoadSecurityPolicy(None)) == 10240
  {
  }
}
