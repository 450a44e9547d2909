/** The step planner (backend/services/meuService.js): an idea is split
    into a plan of Minimum Executable Units whose dependencies point to
    earlier steps; steps run only after their dependencies, and progress is
    recorded per project. The plan files on disk are modelled as a map from
    project id to plan record. */
module MeuService {
  import opened Wrappers
  import opened Strings
  import Rates
  import AiService
  import JsObject

  /** A planned file. Its `name` comes from a file-name table, so it may be
      an inherited member rather than a string. */
  datatype FileSpec = FileSpec(name: JsObject.Value, kind: string, description: string)

  datatype Step = Step(
    id: int,
    title: string,
    description: string,
    kind: string,
    dependencies: seq<int>,
    estimatedTime: string,
    files: seq<FileSpec>)

  datatype Plan = Plan(
    idea: string,
    language: string,
    complexity: AiService.Complexity,
    steps: seq<Step>,
    createdAt: string)

  /** What `executeStepCode` reports for a step. */
  datatype StepResult = StepResult(success: bool, output: string, files: seq<FileSpec>)

  /** The content of `meu_plan.json`. */
  datatype PlanRecord = PlanRecord(
    projectId: string,
    plan: Plan,
    currentStep: int,
    completedSteps: seq<int>,
    stepResults: map<int, StepResult>,
    createdAt: string,
    updatedAt: string)

  // ---------------------------------------------------------------------
  // File names
  // ---------------------------------------------------------------------

  /** The four file-name tables of `meuService.js`. Bash has a main
      file name only. */
  const MainFileNames: map<string, string> := map[
    "python" := "main.py", "javascript" := "index.js", "bash" := "script.sh", "go" := "main.go",
    "rust" := "main.rs", "java" := "Main.java", "cpp" := "main.cpp", "csharp" := "Program.cs"]

  const ConfigFileNames: map<string, string> := map[
    "python" := "requirements.txt", "javascript" := "package.json", "go" := "go.mod",
    "rust" := "Cargo.toml", "java" := "pom.xml", "cpp" := "CMakeLists.txt", "csharp" := "project.csproj"]

  const DataFileNames: map<string, string> := map[
    "python" := "data.py", "javascript" := "data.js", "go" := "data.go", "rust" := "data.rs",
    "java" := "Data.java", "cpp" := "data.cpp", "csharp" := "Data.cs"]

  const UIFileNames: map<string, string> := map[
    "python" := "ui.py", "javascript" := "ui.html", "go" := "ui.go", "rust" := "ui.rs",
    "java" := "UI.java", "cpp" := "ui.cpp", "csharp" := "UI.cs"]

  /** `getMainFileName(language)`: `fileNames[language] || 'main.txt'`. */
  function MainFileName(language: string): (r: JsObject.Value)
    ensures language in MainFileNames ==> r == JsObject.Str(MainFileNames[language])
    ensures language !in MainFileNames ==>
      r == if JsObject.IsInherited(language) then JsObject.Member(language) else JsObject.Str("main.txt")
  {
    JsObject.OrElse(MainFileNames, language, "main.txt")
  }

  /** `getConfigFileName(language)`: `configNames[language] || 'config.txt'`. */
  function ConfigFileName(language: string): (r: JsObject.Value)
    ensures language in ConfigFileNames ==> r == JsObject.Str(ConfigFileNames[language])
    ensures language !in ConfigFileNames ==>
      r == if JsObject.IsInherited(language) then JsObject.Member(language) else JsObject.Str("config.txt")
  {
    JsObject.OrElse(ConfigFileNames, language, "config.txt")
  }

  /** `getDataFileName(language)`: `dataNames[language] || 'data.txt'`. */
  function DataFileName(language: string): (r: JsObject.Value)
    ensures language in DataFileNames ==> r == JsObject.Str(DataFileNames[language])
    ensures language !in DataFileNames ==>
      r == if JsObject.IsInherited(language) then JsObject.Member(language) else JsObject.Str("data.txt")
  {
    JsObject.OrElse(DataFileNames, language, "data.txt")
  }

  /** `getUIFileName(language)`: `uiNames[language] || 'ui.txt'`. */
  function UIFileName(language: string): (r: JsObject.Value)
    ensures language in UIFileNames ==> r == JsObject.Str(UIFileNames[language])
    ensures language !in UIFileNames ==>
      r == if JsObject.IsInherited(language) then JsObject.Member(language) else JsObject.Str("ui.txt")
  {
    JsObject.OrElse(UIFileNames, language, "ui.txt")
  }

  /** An unknown language falls back to ".txt" names in every table; bash
      has a main file name only; a name inherited from `Object.prototype`
      gets that member, not a name, from every table. */
  lemma FileNameFallbacks(language: string)
    ensures language !in MainFileNames && !JsObject.IsInherited(language) ==>
      MainFileName(language) == JsObject.Str("main.txt") && ConfigFileName(language) == JsObject.Str("config.txt") &&
      DataFileName(language) == JsObject.Str("data.txt") && UIFileName(language) == JsObject.Str("ui.txt")
    ensures language == "bash" ==>
      MainFileName(language) == JsObject.Str("script.sh") && ConfigFileName(language) == JsObject.Str("config.txt") &&
      DataFileName(language) == JsObject.Str("data.txt") && UIFileName(language) == JsObject.Str("ui.txt")
    ensures JsObject.IsInherited(language) ==>
      MainFileName(language) == JsObject.Member(language) && ConfigFileName(language) == JsObject.Member(language) &&
      DataFileName(language) == JsObject.Member(language) && UIFileName(language) == JsObject.Member(language)
  {
    TableKeysNested();
    if JsObject.IsInherited(language) {
      InheritedHasNoFileName(language);
    }
  }

  /** Every table lists a subset of the main table's languages. */
  lemma TableKeysNested()
    ensures ConfigFileNames.Keys <= MainFileNames.Keys
    ensures DataFileNames.Keys <= MainFileNames.Keys
    ensures UIFileNames.Keys <= MainFileNames.Keys
  {
  }

  /** No name inherited from `Object.prototype` is a language of the
      file-name tables. */
  lemma InheritedHasNoFileName(language: string)
    requires JsObject.IsInherited(language)
    ensures language !in MainFileNames
  {
  }

  // ---------------------------------------------------------------------
  // Plans
  // ---------------------------------------------------------------------

  /** Step ids are 1..n in order, and every dependency names an earlier
      step. */
  predicate PlanWellFormed(steps: seq<Step>) {
    forall i :: 0 <= i < |steps| ==>
      steps[i].id == i + 1 &&
      forall k :: 0 <= k < |steps[i].dependencies| ==> 1 <= steps[i].dependencies[k] < steps[i].id
  }

  function GenerateSimpleMEU(idea: string, language: string): (steps: seq<Step>)
    ensures |steps| == 2 && PlanWellFormed(steps)
  {
    [Step(1, "基础实现", "实现" + idea + "的核心功能", "implementation", [], "< 1分钟",
          [FileSpec(MainFileName(language), "main", "主要实现文件")]),
     Step(2, "测试验证", "验证功能是否正常工作", "testing", [1], "< 30秒", [])]
  }

  function GenerateMediumMEU(idea: string, language: string): (steps: seq<Step>)
    ensures |steps| == 4 && PlanWellFormed(steps)
  {
    [Step(1, "项目结构", "创建基本的项目结构和配置", "setup", [], "< 30秒",
          [FileSpec(ConfigFileName(language), "config", "配置文件")]),
     Step(2, "核心功能", "实现" + idea + "的主要功能", "implementation", [1], "1-2分钟",
          [FileSpec(MainFileName(language), "main", "主要实现文件")]),
     Step(3, "功能扩展", "添加额外功能和优化", "enhancement", [2], "1-2分钟", []),
     Step(4, "测试验证", "全面测试所有功能", "testing", [3], "< 1分钟", [])]
  }

  function GenerateComplexMEU(idea: string, language: string): (steps: seq<Step>)
    ensures |steps| == 6 && PlanWellFormed(steps)
  {
    [Step(1, "项目初始化", "创建项目结构和依赖管理", "setup", [], "1分钟",
          [FileSpec(ConfigFileName(language), "config", "项目配置文件")]),
     Step(2, "核心模块", "实现核心业务逻辑", "implementation", [1], "2-3分钟",
          [FileSpec(MainFileName(language), "main", "主要实现文件")]),
     Step(3, "数据处理", "实现数据存储和处理逻辑", "data", [2], "2-3分钟",
          [FileSpec(DataFileName(language), "data", "数据处理文件")]),
     Step(4, "用户界面", "创建用户交互界面", "ui", [2], "2-3分钟",
          [FileSpec(UIFileName(language), "ui", "用户界面文件")]),
     Step(5, "集成测试", "整合所有模块并进行测试", "integration", [3, 4], "1-2分钟", []),
     Step(6, "优化完善", "性能优化和功能完善", "optimization", [5], "1-2分钟", [])]
  }

  /** `generateMEUPlan(idea, language)`: 2, 4 or 6 steps for low, medium
      or high complexity. */
  function GenerateMEUPlan(idea: string, language: string, createdAt: string): (p: Plan)
    ensures p.idea == idea && p.language == language && p.createdAt == createdAt
    ensures p.complexity == AiService.AssessComplexity(idea)
    ensures PlanWellFormed(p.steps)
    ensures p.complexity == AiService.Low ==> |p.steps| == 2
    ensures p.complexity == AiService.Medium ==> |p.steps| == 4
    ensures p.complexity == AiService.High ==> |p.steps| == 6
  {
    var complexity := AiService.AssessComplexity(idea);
    var steps :=
      match complexity
      case Low => GenerateSimpleMEU(idea, language)
      case Medium => GenerateMediumMEU(idea, language)
      case High => GenerateComplexMEU(idea, language);
    Plan(idea, language, complexity, steps, createdAt)
  }

  /** `buildStepPrompt(plan, step)`. */
  function BuildStepPrompt(plan: Plan, step: Step): (r: string)
    ensures "基于以下项目信息，生成第" + IntToString(step.id) + "步的代码：\n\n项目想法: " + plan.idea <= r
  {
    StepPromptHead(plan, step) + Labelled("\n编程语言: ", plan.language) + Labelled("\n当前步骤: ", step.title) +
    Labelled("\n步骤描述: ", step.description) + Labelled("\n步骤类型: ", step.kind) + StepPromptTail
  }

  function StepPromptHead(plan: Plan, step: Step): string {
    "基于以下项目信息，生成第" + IntToString(step.id) + "步的代码：\n\n项目想法: " + plan.idea
  }

  /** One line of the step prompt: a label and its value. */
  function Labelled(name: string, value: string): string {
    name + value
  }

  const StepPromptTail := "\n\n请生成这一步需要的具体代码，确保代码可以独立运行或与前面的步骤配合使用。"

  /** The step prompt names, each after its label, the plan's language
      and the step's title, description and type. */
  lemma StepPromptEmbedsInputs(plan: Plan, step: Step)
    ensures Contains(BuildStepPrompt(plan, step), "\n编程语言: " + plan.language)
    ensures Contains(BuildStepPrompt(plan, step), "\n当前步骤: " + step.title)
    ensures Contains(BuildStepPrompt(plan, step), "\n步骤描述: " + step.description)
    ensures Contains(BuildStepPrompt(plan, step), "\n步骤类型: " + step.kind)
  {
    ContainsMiddleParts(StepPromptHead(plan, step), Labelled("\n编程语言: ", plan.language),
      Labelled("\n当前步骤: ", step.title), Labelled("\n步骤描述: ", step.description),
      Labelled("\n步骤类型: ", step.kind), StepPromptTail);
  }

  // ---------------------------------------------------------------------
  // Project ids
  // ---------------------------------------------------------------------

  /** `idea.slice(0, 10).replace(/[^a-zA-Z0-9]/g, '').toLowerCase()`. */
  function IdeaHash(idea: string): (h: string)
    ensures |h| <= 10
    ensures forall k :: 0 <= k < |h| ==> IsAsciiAlnum(h[k]) && !IsAsciiUpper(h[k])
  {
    ToLower(KeepAlnum(if |idea| <= 10 then idea else idea[..10]))
  }

  /** `replace(/[^a-zA-Z0-9]/g, '')`: the ASCII letters and digits, each
      as often as in `s`, and nothing else. */
  function KeepAlnum(s: string): (r: string)
    ensures |r| <= |s|
    ensures forall k :: 0 <= k < |r| ==> IsAsciiAlnum(r[k])
    ensures (forall k :: 0 <= k < |s| ==> IsAsciiAlnum(s[k])) ==> r == s
  {
    if s == [] then []
    else (if IsAsciiAlnum(s[0]) then [s[0]] else []) + KeepAlnum(s[1..])
  }

  /** Each ASCII letter or digit is kept as often as it occurs; every other
      character is dropped. */
  lemma {:induction false} KeepAlnumCounts(s: string, c: char)
    ensures multiset(KeepAlnum(s))[c] == if IsAsciiAlnum(c) then multiset(s)[c] else 0
  {
    if s != [] {
      assert s == [s[0]] + s[1..];
      KeepAlnumCounts(s[1..], c);
    }
  }

  /** The filter works piecewise, so the kept characters keep their order. */
  lemma {:induction false} KeepAlnumAppend(a: string, b: string)
    ensures KeepAlnum(a + b) == KeepAlnum(a) + KeepAlnum(b)
  {
    if a == [] {
      assert a + b == b;
    } else {
      assert (a + b)[0] == a[0] && (a + b)[1..] == a[1..] + b;
      KeepAlnumAppend(a[1..], b);
    }
  }

  /** `generateProjectId(idea)`: `meu_<hash>_<timestamp>`. */
  function GenerateProjectId(idea: string, timestamp: nat): (r: string)
    ensures |r| > 5 && r[..4] == "meu_"
  {
    "meu_" + IdeaHash(idea) + "_" + NatToString(timestamp)
  }

  /** The id splits on '_' into "meu", the hash and the timestamp, which
      reads back as the number it came from. */
  lemma ProjectIdParts(idea: string, timestamp: nat)
    ensures Split(GenerateProjectId(idea, timestamp), '_') == ["meu", IdeaHash(idea), NatToString(timestamp)]
    ensures ParseNat(Split(GenerateProjectId(idea, timestamp), '_')[2]) == timestamp
  {
    var h := IdeaHash(idea);
    var t := NatToString(timestamp);
    assert '_' !in h by {
      forall k | 0 <= k < |h| ensures h[k] != '_' { assert IsAsciiAlnum(h[k]); }
    }
    assert '_' !in t by {
      forall k | 0 <= k < |t| ensures t[k] != '_' { assert IsDigit(t[k]); }
    }
    SplitThreeParts(h, t);
    ParseNatToString(timestamp);
  }

  /** Joining "meu" and two parts free of '_' splits back into them. */
  lemma SplitThreeParts(h: string, t: string)
    requires '_' !in h && '_' !in t
    ensures Split("meu_" + h + "_" + t, '_') == ["meu", h, t]
  {
    var parts := ["meu", h, t];
    assert parts[1..] == [h, t] && parts[1..][1..] == [t];
    assert JoinChar(parts[1..][1..], '_') == t;
    assert JoinChar(parts[1..], '_') == h + "_" + t;
    assert JoinChar(parts, '_') == "meu" + "_" + (h + "_" + t);
    assert "meu_" + h + "_" + t == JoinChar(parts, '_');
    SplitJoinChar(parts, '_');
  }

  // ---------------------------------------------------------------------
  // Steps and progress
  // ---------------------------------------------------------------------

  datatype MeuError =
    | InvalidIdea(message: string)      // validation.message
    | PlanNotFound                      // 'MEU计划不存在'
    | ProjectNotFound                   // 'MEU项目不存在'
    | StepNotFound(stepId: int)         // '步骤 <id> 不存在'
    | UnmetDependencies(ids: seq<int>)  // '未满足依赖: <ids joined by ", ">'

  function ErrorMessage(e: MeuError): string {
    match e
    case InvalidIdea(message) => message
    case PlanNotFound => "MEU计划不存在"
    case ProjectNotFound => "MEU项目不存在"
    case StepNotFound(stepId) => "步骤 " + IntToString(stepId) + " 不存在"
    case UnmetDependencies(ids) => "未满足依赖: " + Join(seq(|ids|, i requires 0 <= i < |ids| => IntToString(ids[i])), ", ")
  }

  /** `steps.find(s => s.id === stepId)`. */
  function FindStep(steps: seq<Step>, stepId: int): (r: Option<Step>)
    ensures r.None? <==> forall k :: 0 <= k < |steps| ==> steps[k].id != stepId
    ensures r.Some? ==> exists k :: 0 <= k < |steps| && steps[k] == r.value && r.value.id == stepId &&
                                    forall j :: 0 <= j < k ==> steps[j].id != stepId
  {
    if steps == [] then None
    else if steps[0].id == stepId then Some(steps[0])
    else
      var r := FindStep(steps[1..], stepId);
      assert forall k :: 1 <= k < |steps| ==> steps[k] == steps[1..][k - 1];
      if r.Some? then
        var k :| 0 <= k < |steps[1..]| && steps[1..][k] == r.value && r.value.id == stepId &&
                 forall j :: 0 <= j < k ==> steps[1..][j].id != stepId;
        assert steps[k + 1] == r.value;
        r
      else r
  }

  /** `dependencies.filter(d => !completed.includes(d))`, in order. */
  function Unmet(dependencies: seq<int>, completed: seq<int>): (r: seq<int>)
    ensures forall d :: d in r <==> d in dependencies && d !in completed
    ensures |r| <= |dependencies|
    ensures r == [] <==> forall d :: d in dependencies ==> d in completed
  {
    if dependencies == [] then []
    else
      var rest := Unmet(dependencies[1..], completed);
      assert forall d :: d in dependencies <==> d == dependencies[0] || d in dependencies[1..];
      if dependencies[0] !in completed then [dependencies[0]] + rest else rest
  }

  /** The checks of `executeMEUStep` on a loaded plan: the step must exist
      and every dependency must already be completed. */
  function CheckStep(rec: PlanRecord, stepId: int): (r: Result<Step, MeuError>)
    ensures r.Success? <==>
      FindStep(rec.plan.steps, stepId).Some? &&
      forall d :: d in FindStep(rec.plan.steps, stepId).value.dependencies ==> d in rec.completedSteps
    ensures r.Success? ==> r.value.id == stepId && r.value in rec.plan.steps
    ensures FindStep(rec.plan.steps, stepId).None? ==> r == Failure(StepNotFound(stepId))
    ensures r.Failure? && r.error.UnmetDependencies? ==>
      r.error.ids != [] && forall d :: d in r.error.ids ==> d !in rec.completedSteps
  {
    var found := FindStep(rec.plan.steps, stepId);
    if found.None? then Failure(StepNotFound(stepId))
    else
      var unmet := Unmet(found.value.dependencies, rec.completedSteps);
      if unmet != [] then
        Failure(UnmetDependencies(unmet))
      else Success(found.value)
  }

  /** The record after `updateMEUProgress(projectId, stepId, result)`. */
  function Advance(rec: PlanRecord, stepId: int, result: StepResult, now: string): (r: PlanRecord)
    ensures forall s :: s in r.completedSteps <==> s in rec.completedSteps || s == stepId
    ensures rec.completedSteps <= r.completedSteps && |r.completedSteps| <= |rec.completedSteps| + 1
    ensures r.currentStep >= rec.currentStep && r.currentStep >= stepId
    ensures r.currentStep == rec.currentStep || r.currentStep == stepId
    ensures stepId in r.stepResults && r.stepResults[stepId] == result
    ensures forall s :: s in rec.stepResults && s != stepId ==> s in r.stepResults && r.stepResults[s] == rec.stepResults[s]
    ensures r.plan == rec.plan && r.projectId == rec.projectId && r.createdAt == rec.createdAt
  {
    var completed := if stepId in rec.completedSteps then rec.completedSteps else rec.completedSteps + [stepId];
    rec.(completedSteps := completed,
         currentStep := if rec.currentStep >= stepId then rec.currentStep else stepId,
         updatedAt := now,
         stepResults := rec.stepResults[stepId := result])
  }

  /** Recording the same step twice changes nothing more. */
  lemma AdvanceIdempotent(rec: PlanRecord, stepId: int, result: StepResult, now: string)
    ensures Advance(Advance(rec, stepId, result, now), stepId, result, now) == Advance(rec, stepId, result, now)
  {
  }

  predicate DistinctInts(s: seq<int>) {
    forall i, j :: 0 <= i < j < |s| ==> s[i] != s[j]
  }

  function StepIds(steps: seq<Step>): set<int> {
    set k | 0 <= k < |steps| :: steps[k].id
  }

  /** What every stored record satisfies: a well-formed plan, completed
      steps distinct and taken from the plan, and every completed step's
      dependencies completed too. */
  predicate RecordValid(rec: PlanRecord) {
    && PlanWellFormed(rec.plan.steps)
    && DistinctInts(rec.completedSteps)
    && (forall s :: s in rec.completedSteps ==> s in StepIds(rec.plan.steps))
    && (forall k, d ::
          (0 <= k < |rec.plan.steps| && rec.plan.steps[k].id in rec.completedSteps &&
           d in rec.plan.steps[k].dependencies) ==> d in rec.completedSteps)
  }

  /** A step that passes the dependency gate keeps the record valid. */
  lemma GatePreservesValidity(rec: PlanRecord, stepId: int, result: StepResult, now: string)
    requires RecordValid(rec)
    requires CheckStep(rec, stepId).Success?
    ensures RecordValid(Advance(rec, stepId, result, now))
  {
    var r := Advance(rec, stepId, result, now);
    var step := FindStep(rec.plan.steps, stepId).value;
    var i :| 0 <= i < |rec.plan.steps| && rec.plan.steps[i] == step;
    assert stepId in StepIds(rec.plan.steps);
    if stepId !in rec.completedSteps {
      assert r.completedSteps == rec.completedSteps + [stepId];
    }
    forall k, d | 0 <= k < |r.plan.steps| && r.plan.steps[k].id in r.completedSteps &&
                  d in r.plan.steps[k].dependencies
      ensures d in r.completedSteps
    {
      if r.plan.steps[k].id !in rec.completedSteps {
        assert r.plan.steps[k].id == stepId;
        assert k == i;
      }
    }
  }

  /** A distinct sequence has as many elements as its set. */
  lemma {:induction false} DistinctCardinality(s: seq<int>)
    requires DistinctInts(s)
    ensures |set x | x in s| == |s|
  {
    if s != [] {
      DistinctCardinality(s[1..]);
      assert (set x | x in s) == {s[0]} + (set x | x in s[1..]);
      assert s[0] !in s[1..];
    }
  }

  lemma {:induction false} StepIdsCardinality(steps: seq<Step>)
    ensures |StepIds(steps)| <= |steps|
  {
    if steps != [] {
      StepIdsCardinality(steps[1..]);
      assert StepIds(steps) == {steps[0].id} + StepIds(steps[1..]) by {
        forall x | x in StepIds(steps) ensures x in {steps[0].id} + StepIds(steps[1..]) {
          var k :| 0 <= k < |steps| && steps[k].id == x;
          if k > 0 { assert steps[1..][k - 1] == steps[k]; }
        }
        forall x | x in StepIds(steps[1..]) ensures x in StepIds(steps) {
          var k :| 0 <= k < |steps[1..]| && steps[1..][k].id == x;
          assert steps[k + 1] == steps[1..][k];
        }
      }
    }
  }

  /** In a valid record no more steps are completed than the plan has. */
  lemma CompletedBounded(rec: PlanRecord)
    requires RecordValid(rec)
    ensures |rec.completedSteps| <= |rec.plan.steps|
  {
    DistinctCardinality(rec.completedSteps);
    StepIdsCardinality(rec.plan.steps);
    SubsetCardinality((set x | x in rec.completedSteps), StepIds(rec.plan.steps));
  }

  lemma SubsetCardinality(a: set<int>, b: set<int>)
    requires a <= b
    ensures |a| <= |b|
  {
    assert b == a + (b - a);
    assert a * (b - a) == {};
  }

  datatype StepView = StepView(step: Step, completed: bool, result: Option<StepResult>)

  datatype MeuStatus = MeuStatus(
    projectId: string,
    idea: string,
    language: string,
    complexity: AiService.Complexity,
    totalSteps: nat,
    completedSteps: nat,
    currentStep: int,
    progress: nat,
    status: string,
    steps: seq<StepView>)

  /** The summary `getMEUStatus` reports for a loaded record. */
  function StatusOf(rec: PlanRecord): (s: MeuStatus)
    ensures s.totalSteps == |rec.plan.steps| && s.completedSteps == |rec.completedSteps|
    ensures s.totalSteps == 0 ==> s.progress == 0
    ensures s.totalSteps > 0 ==> s.progress == Rates.RoundedPercent(s.completedSteps, s.totalSteps)
    ensures s.status == "completed" <==> s.completedSteps == s.totalSteps
    ensures s.status == "completed" || s.status == "in_progress"
    ensures |s.steps| == |rec.plan.steps|
    ensures forall k :: 0 <= k < |s.steps| ==>
      s.steps[k].step == rec.plan.steps[k] &&
      (s.steps[k].completed <==> rec.plan.steps[k].id in rec.completedSteps)
  {
    var total := |rec.plan.steps|;
    var done := |rec.completedSteps|;
    MeuStatus(
      rec.projectId, rec.plan.idea, rec.plan.language, rec.plan.complexity,
      total, done, rec.currentStep,
      if total > 0 then Rates.RoundedPercent(done, total) else 0,
      if done == total then "completed" else "in_progress",
      seq(total, k requires 0 <= k < total =>
        var step := rec.plan.steps[k];
        StepView(step, step.id in rec.completedSteps,
                 if step.id in rec.stepResults then Some(rec.stepResults[step.id]) else None)))
  }

  /** For a valid record the progress never exceeds 100, and it is 100
      when the record is completed. */
  lemma ProgressBounded(rec: PlanRecord)
    requires RecordValid(rec)
    ensures StatusOf(rec).progress <= 100
    ensures StatusOf(rec).status == "completed" && |rec.plan.steps| > 0 ==> StatusOf(rec).progress == 100
  {
    CompletedBounded(rec);
  }

  /** A record as `saveMEUPlan` writes it: nothing completed yet. */
  function InitialRecord(projectId: string, plan: Plan, now: string): (r: PlanRecord)
    ensures r.currentStep == 0 && r.completedSteps == [] && r.stepResults == map[]
    ensures r.plan == plan && r.projectId == projectId
  {
    PlanRecord(projectId, plan, 0, [], map[], now, now)
  }

  /** A freshly saved plan is a valid record. */
  lemma InitialRecordValid(idea: string, language: string, projectId: string, now: string)
    ensures RecordValid(InitialRecord(projectId, GenerateMEUPlan(idea, language, now), now))
  {
  }

  /** The gate is what keeps a record valid: recording step 7 directly on
      a finished two-step plan leaves three completed steps, one of them
      not in the plan, and a progress of 150. */
  lemma UngatedAdvanceBreaksValidity(plan: Plan, result: StepResult, now: string)
    requires plan.steps == [Step(1, "a", "", "setup", [], "", []), Step(2, "b", "", "testing", [1], "", [])]
    ensures var rec := PlanRecord("p", plan, 2, [1, 2], map[], now, now);
      && RecordValid(rec)
      && CheckStep(rec, 7).Failure?
      && !RecordValid(Advance(rec, 7, result, now))
      && StatusOf(Advance(rec, 7, result, now)).progress == 150
  {
    var rec := PlanRecord("p", plan, 2, [1, 2], map[], now, now);
    var steps := rec.plan.steps;
    assert StepIds(steps) == {1, 2} by {
      assert steps[0].id == 1 && steps[1].id == 2;
    }
    var after := Advance(rec, 7, result, now);
    assert after.completedSteps == [1, 2, 7];
    assert 7 in after.completedSteps && 7 !in StepIds(after.plan.steps);
  }

  datatype AnalyzeResult = AnalyzeResult(
    projectId: string,
    plan: Plan,
    currentStep: int,
    totalSteps: nat,
    status: string)

  datatype StepExecution = StepExecution(
    stepId: int,
    step: Step,
    code: string,
    result: StepResult,
    status: string)

  /** Storing a valid record keeps every stored record valid. */
  lemma StoreKeepsValid(plans: map<string, PlanRecord>, id: string, rec: PlanRecord,
                        stored: map<string, PlanRecord>)
    requires forall k :: k in plans ==> RecordValid(plans[k])
    requires RecordValid(rec) && stored == plans[id := rec]
    ensures forall k :: k in stored ==> RecordValid(stored[k])
  {
  }

  /** The planner, holding every project's record. */
  class MEUService {
    var plans: map<string, PlanRecord>

    ghost predicate Valid()
      reads this
    {
      forall id :: id in plans ==> RecordValid(plans[id])
    }

    constructor()
      ensures plans == map[] && Valid()
    {
      plans := map[];
    }

    /** `analyzeMEU(idea, language = 'python')`: validates the idea, builds
        the plan and stores a fresh record under the new project id. */
    method AnalyzeMEU(idea: string, timestamp: nat, now: string, language: string := "python")
      returns (r: Result<AnalyzeResult, MeuError>)
      requires Valid()
      modifies this
      ensures Valid()
      ensures var v := AiService.ValidateIdea(Some(idea), language);
        && (v.Invalid? ==> r == Failure(InvalidIdea(AiService.InvalidMessage(v.reason))) && plans == old(plans))
        && (v.Valid? ==>
              var plan := GenerateMEUPlan(idea, language, now);
              var id := GenerateProjectId(idea, timestamp);
              && r == Success(AnalyzeResult(id, plan, 0, |plan.steps|, "planned"))
              && plans == old(plans)[id := InitialRecord(id, plan, now)])
    {
      var v := AiService.ValidateIdea(Some(idea), language);
      if v.Invalid? {
        return Failure(InvalidIdea(AiService.InvalidMessage(v.reason)));
      }
      var plan := GenerateMEUPlan(idea, language, now);
      var id := GenerateProjectId(idea, timestamp);
      var rec := InitialRecord(id, plan, now);
      InitialRecordValid(idea, language, id, now);
      StoreKeepsValid(plans, id, rec, plans[id := rec]);
      plans := plans[id := rec];
      r := Success(AnalyzeResult(id, plan, 0, |plan.steps|, "planned"));
    }

    /** `updateMEUProgress(projectId, stepId, result)`: does nothing for an
        unknown project. */
    method UpdateMEUProgress(projectId: string, stepId: int, result: StepResult, now: string)
      modifies this
      ensures projectId !in old(plans) ==> plans == old(plans)
      ensures projectId in old(plans) ==>
        plans == old(plans)[projectId := Advance(old(plans)[projectId], stepId, result, now)]
      ensures old(Valid()) && (projectId in old(plans) ==> CheckStep(old(plans)[projectId], stepId).Success?) ==>
        Valid()
    {
      if projectId !in plans {
        return;
      }
      var rec := plans[projectId];
      if Valid() && CheckStep(rec, stepId).Success? {
        GatePreservesValidity(rec, stepId, result, now);
      }
      var completed := rec.completedSteps;
      if stepId !in completed {
        completed := completed + [stepId];
      }
      var current := if rec.currentStep >= stepId then rec.currentStep else stepId;
      var results := rec.stepResults[stepId := result];
      plans := plans[projectId := rec.(completedSteps := completed, currentStep := current,
                                       updatedAt := now, stepResults := results)];
    }

    /** `executeMEUStep(projectId, stepId)`. The plan must exist, the step
        must exist and its dependencies must be completed, all before any
        code is generated; then the step's result is recorded. `code` and
        `result` stand for the generated code and the simulated run. */
    method ExecuteMEUStep(projectId: string, stepId: int, code: string, result: StepResult, now: string)
      returns (r: Result<StepExecution, MeuError>)
      requires Valid()
      modifies this
      ensures Valid()
      ensures projectId !in old(plans) ==> r == Failure(PlanNotFound) && plans == old(plans)
      ensures projectId in old(plans) && CheckStep(old(plans)[projectId], stepId).Failure? ==>
        r == Failure(CheckStep(old(plans)[projectId], stepId).error) && plans == old(plans)
      ensures projectId in old(plans) && CheckStep(old(plans)[projectId], stepId).Success? ==>
        && r == Success(StepExecution(stepId, CheckStep(old(plans)[projectId], stepId).value, code, result, "completed"))
        && plans == old(plans)[projectId := Advance(old(plans)[projectId], stepId, result, now)]
    {
      if projectId !in plans {
        return Failure(PlanNotFound);
      }
      var check := CheckStep(plans[projectId], stepId);
      if check.Failure? {
        return Failure(check.error);
      }
      GatePreservesValidity(plans[projectId], stepId, result, now);
      UpdateMEUProgress(projectId, stepId, result, now);
      r := Success(StepExecution(stepId, check.value, code, result, "completed"));
    }

    /** `getMEUStatus(projectId)`. */
    function GetMEUStatus(projectId: string): (r: Result<MeuStatus, MeuError>)
      reads this
      ensures projectId !in plans ==> r == Failure(ProjectNotFound)
      ensures projectId in plans ==> r == Success(StatusOf(plans[projectId]))
    {
      if projectId in plans then Success(StatusOf(plans[projectId])) else Failure(ProjectNotFound)
    }
  }
}
