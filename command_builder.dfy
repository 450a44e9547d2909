/** `buildSecureExecuteCommand` of the sandbox execution engine
    (backend/services/dockerService.js): the per-language shell command,
    built only for an allowed language and a file name that passes the
    deny-list. */
module CommandBuilder {
  import opened Wrappers
  import opened Strings
  import SecurityPolicy
  import InputValidator
  import JsObject

  datatype BuildError =
    | UnsupportedLanguage(language: string)   // '不支持的编程语言: …'
    | InsecureFileName(fileName: string)      // '不安全的文件名: …'

  /** A table entry: one command, or a `compile` and a `run` command that
      are joined with " && ". */
  datatype ExecCommand =
    | SingleStage(run: string)
    | CompileThenRun(compile: string, run: string)

  /** Compilation is always bounded by 60 seconds. */
  const CompilePrefix: string := "cd /workspace && timeout 60s "

  /** A run is bounded by the policy's run timeout. */
  function RunPrefix(timeout: int): string {
    "cd /workspace && timeout " + IntToString(timeout) + "s "
  }

  predicate IsSingleStageLanguage(language: string) {
    language == "python" || language == "javascript" || language == "go"
  }

  predicate IsCompiledLanguage(language: string) {
    language == "java" || language == "cpp" || language == "c"
  }

  /** `commands[language]`; `None` for a language the table lacks. */
  function CommandFor(language: string, stepId: string, codeFileName: string, timeout: int)
    : (r: Option<ExecCommand>)
    ensures r.Some? <==> IsSingleStageLanguage(language) || IsCompiledLanguage(language)
    ensures r.Some? ==> (r.value.SingleStage? <==> IsSingleStageLanguage(language))
    ensures r.Some? ==> RunPrefix(timeout) <= r.value.run
    ensures r.Some? && r.value.CompileThenRun? ==> CompilePrefix <= r.value.compile
  {
    var run := RunPrefix(timeout);
    if language == "python" then Some(SingleStage(run + "python3 " + codeFileName))
    else if language == "javascript" then Some(SingleStage(run + "node " + codeFileName))
    else if language == "java" then
      Some(CompileThenRun(CompilePrefix + "javac " + codeFileName,
                          run + "java " + ReplaceFirst(codeFileName, ".java", "")))
    else if language == "go" then Some(SingleStage(run + "go run " + codeFileName))
    else if language == "cpp" then
      Some(CompileThenRun(CompilePrefix + "g++ -o " + stepId + " " + codeFileName, run + "./" + stepId))
    else if language == "c" then
      Some(CompileThenRun(CompilePrefix + "gcc -o " + stepId + " " + codeFileName, run + "./" + stepId))
    else None
  }

  /** `${command.compile} && ${command.run}` for a two-stage entry. */
  function Render(c: ExecCommand): (s: string)
    ensures c.SingleStage? ==> s == c.run
    ensures c.CompileThenRun? ==> c.compile <= s && |s| == |c.compile| + 4 + |c.run|
  {
    match c
    case SingleStage(run) => run
    case CompileThenRun(compile, run) => compile + " && " + run
  }

  /** What `buildSecureExecuteCommand` returns once both checks pass: a
      command string; a native function, for a name inherited from
      `Object.prototype` (`commands[language]` is that function and is
      returned as it is); or `undefined`, for an allowed language missing
      from the table. */
  datatype Built =
    | Command(text: string)
    | NativeFunction(name: string)
    | Undefined

  /** `${undefined} && ${undefined}`: what the two-stage branch renders for
      `commands["__proto__"]`, an object without `compile` or `run`. */
  const PrototypeCommand: string := "undefined && undefined"

  /** `buildSecureExecuteCommand(language, projectId, stepId, codeFileName,
      policy)`. The language is checked before the file name; nothing is
      built unless both checks pass. */
  function BuildSecureExecuteCommand(language: string, projectId: string, stepId: string,
                                     codeFileName: string, policy: SecurityPolicy.Policy)
    : (r: Result<Built, BuildError>)
    ensures !SecurityPolicy.LanguageAllowed(policy, language) ==>
      r == Failure(UnsupportedLanguage(language))
    ensures SecurityPolicy.LanguageAllowed(policy, language) &&
            !InputValidator.IsSecureFileName(codeFileName) ==>
      r == Failure(InsecureFileName(codeFileName))
    ensures r.Success? <==>
      SecurityPolicy.LanguageAllowed(policy, language) && InputValidator.IsSecureFileName(codeFileName)
    ensures r.Success? && (IsSingleStageLanguage(language) || IsCompiledLanguage(language)) ==>
      r.value == Command(Render(CommandFor(language, stepId, codeFileName,
                                           SecurityPolicy.RunTimeout(policy)).value))
    ensures r.Success? && language == "__proto__" ==> r.value == Command(PrototypeCommand)
    ensures r.Success? ==>
      (r.value.NativeFunction? <==> JsObject.IsInherited(language) && language != "__proto__")
    ensures r.Success? && r.value.NativeFunction? ==> r.value.name == language
    ensures r.Success? ==>
      (r.value.Undefined? <==>
         !IsSingleStageLanguage(language) && !IsCompiledLanguage(language) &&
         !JsObject.IsInherited(language))
  {
    if !SecurityPolicy.LanguageAllowed(policy, language) then Failure(UnsupportedLanguage(language))
    else if !InputValidator.IsSecureFileName(codeFileName) then Failure(InsecureFileName(codeFileName))
    else
      match CommandFor(language, stepId, codeFileName, SecurityPolicy.RunTimeout(policy))
      case Some(c) => Success(Command(Render(c)))
      case None =>
        if language == "__proto__" then Success(Command(PrototypeCommand))
        else if JsObject.IsInherited(language) then Success(NativeFunction(language))
        else Success(Undefined)
  }

  /** The fallback policy has no allow-list, so every language is refused
      except the names inherited from `Object.prototype`: those pass the
      check, and no command string comes back for them. */
  lemma FallbackRejectsAllButInherited(language: string, projectId: string, stepId: string,
                                       codeFileName: string)
    ensures var r := BuildSecureExecuteCommand(language, projectId, stepId, codeFileName,
                                               SecurityPolicy.LoadSecurityPolicy(None));
      && (!JsObject.IsInherited(language) ==> r == Failure(UnsupportedLanguage(language)))
      && (JsObject.IsInherited(language) && InputValidator.IsSecureFileName(codeFileName) ==>
            r == Success(if language == "__proto__" then Command(PrototypeCommand)
                         else NativeFunction(language)))
  {
    SecurityPolicy.FallbackAllowsInheritedOnly(language);
  }

  /** The Java run target is the file name without its ".java" suffix. */
  lemma JavaRunTarget(base: string, stepId: string, timeout: int)
    requires !Contains(base, ".java")
    ensures CommandFor("java", stepId, base + ".java", timeout)
         == Some(CompileThenRun(CompilePrefix + "javac " + base + ".java",
                                RunPrefix(timeout) + "java " + base))
  {
    ReplaceJavaSuffix(base);
    assert CompilePrefix + "javac " + (base + ".java") == CompilePrefix + "javac " + base + ".java";
  }

  /** Only the file name is screened: `stepId` goes into the C and C++
      commands as it is, whatever characters it holds. */
  lemma StepIdReachesShell(language: string, projectId: string, stepId: string,
                           codeFileName: string, policy: SecurityPolicy.Policy)
    requires language == "cpp" || language == "c"
    requires SecurityPolicy.LanguageAllowed(policy, language)
    requires InputValidator.IsSecureFileName(codeFileName)
    ensures var r := BuildSecureExecuteCommand(language, projectId, stepId, codeFileName, policy);
      r.Success? && r.value.Command? && Contains(r.value.text, stepId)
  {
    var c := CommandFor(language, stepId, codeFileName, SecurityPolicy.RunTimeout(policy)).value;
    assert Render(c) == (c.compile + " && " + RunPrefix(SecurityPolicy.RunTimeout(policy)) + "./") + stepId + [];
    ContainsSpliced(c.compile + " && " + RunPrefix(SecurityPolicy.RunTimeout(policy)) + "./", stepId, []);
  }
}
