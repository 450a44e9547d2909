/** The idea validator and code generator (backend/services/aiService.js):
    the ordered validity checks, the keyword-count complexity rating, the
    fenced-code extraction from a model reply, and the offline mock
    replies. The HTTP call to the model is replaced by its answer. */
module AiService {
  import opened Wrappers
  import opened Strings
  import JsObject

  datatype Complexity = Low | Medium | High

  // ---------------------------------------------------------------------
  // Prompt
  // ---------------------------------------------------------------------

  /** `languageInstructions` of `buildPrompt`. */
  const LanguageInstructions: map<string, string> := map[
    "python" := "请使用Python编写代码，遵循PEP 8规范",
    "javascript" := "请使用现代JavaScript (ES6+) 编写代码",
    "bash" := "请编写Bash脚本，确保兼容性",
    "go" := "请使用Go语言编写代码，遵循Go的最佳实践",
    "rust" := "请使用Rust编写代码，注重内存安全",
    "java" := "请使用Java编写代码，遵循Java编码规范",
    "cpp" := "请使用C++编写代码，使用现代C++特性",
    "csharp" := "请使用C#编写代码，遵循.NET最佳实践"]

  /** `languageInstructions[language] || `请使用${language}编写代码``, as
      it is rendered into the prompt. A name inherited from
      `Object.prototype` finds a truthy member, whose text is used. */
  function Instruction(language: string): (r: string)
    ensures language in LanguageInstructions ==> r == LanguageInstructions[language]
    ensures language !in LanguageInstructions && !JsObject.IsInherited(language) ==>
      r == "请使用" + language + "编写代码"
    ensures JsObject.IsInherited(language) ==> r == JsObject.InheritedText(language)
  {
    InheritedHasNoInstruction(language);
    JsObject.Render(JsObject.OrElse(LanguageInstructions, language, "请使用" + language + "编写代码"))
  }

  /** No name inherited from `Object.prototype` is a language of the
      instruction table. */
  lemma InheritedHasNoInstruction(language: string)
    ensures JsObject.IsInherited(language) ==> language !in LanguageInstructions
  {
  }

  const PromptHeader: string := "你是一个专业的代码生成助手。根据用户的想法生成高质量、可执行的代码。\n\n用户想法: "
  const PromptRequirements: string :=
    "\n2. 代码应该简洁、清晰、可读\n3. 包含必要的注释\n4. 确保代码可以直接运行\n5. 如果需要输入，请使用合理的默认值或示例数据\n6. 只返回代码，不要包含解释文字\n\n请生成代码:"

  /** `buildPrompt(idea, language)`. */
  function BuildPrompt(idea: string, language: string): (r: string)
    ensures PromptHeader + idea <= r
  {
    PromptHeader + idea + LanguagePart(language)
  }

  /** The prompt after the idea: the language line, then the numbered
      requirements starting with the language's instruction. */
  function LanguagePart(language: string): string {
    "\n编程语言: " + language + RequirementsPart(language)
  }

  function RequirementsPart(language: string): string {
    "\n\n要求:\n1. " + Instruction(language) + PromptRequirements
  }

  /** The prompt carries the idea, the language and the instruction. */
  lemma PromptEmbedsInputs(idea: string, language: string)
    ensures Contains(BuildPrompt(idea, language), idea)
    ensures Contains(BuildPrompt(idea, language), language)
    ensures Contains(BuildPrompt(idea, language), Instruction(language))
  {
    var head := PromptHeader + idea;
    ContainsSpliced(PromptHeader, idea, LanguagePart(language));
    ContainsSpliced("\n编程语言: ", language, RequirementsPart(language));
    ContainsInSuffix(head, LanguagePart(language), language);
    ContainsSpliced("\n\n要求:\n1. ", Instruction(language), PromptRequirements);
    ContainsInSuffix("\n编程语言: " + language, RequirementsPart(language), Instruction(language));
    ContainsInSuffix(head, LanguagePart(language), Instruction(language));
  }

  // ---------------------------------------------------------------------
  // Reply parsing
  // ---------------------------------------------------------------------

  /** One element of `choices`, reduced to `message.content`. */
  datatype Choice = Choice(content: string)

  /** `usage`: token counts, each possibly absent. */
  datatype Usage = Usage(promptTokens: Option<int>, completionTokens: Option<int>, totalTokens: Option<int>)

  /** The reply body; `choices` and `usage` may be absent. */
  datatype ApiResponse = ApiResponse(choices: Option<seq<Choice>>, usage: Option<Usage>)

  datatype ParsedResponse = ParsedResponse(
    code: string,
    explanation: string,
    model: string,
    promptTokens: int,
    completionTokens: int,
    totalTokens: int)

  /** The end of the run of `\w` characters starting at `i`. */
  function SkipWord(s: string, i: nat): (j: nat)
    requires i <= |s|
    ensures i <= j <= |s|
    ensures j == |s| || !IsWordChar(s[j])
    ensures forall k :: i <= k < j ==> IsWordChar(s[k])
    decreases |s| - i
  {
    if i < |s| && IsWordChar(s[i]) then SkipWord(s, i + 1) else i
  }

  /** The body of the first fenced block found at or after `i`, as
      `/```(?:\w+)?\n?([\s\S]*?)```/` finds it: an opening "```", a
      language word, an optional newline, and everything up to the next
      "```". An opening fence without a closing one is skipped. */
  function FenceFrom(s: string, i: nat): (r: Option<string>)
    requires i <= |s|
    decreases |s| - i
  {
    if i + 3 > |s| then None
    else if s[i..i + 3] == "```" then
      var w := SkipWord(s, i + 3);
      var j := if w < |s| && s[w] == '\n' then w + 1 else w;
      var k := IndexOfFrom(s, "```", j);
      if k != -1 then Some(s[j..k]) else FenceFrom(s, i + 1)
    else FenceFrom(s, i + 1)
  }

  /** No "```" in the text, no block. */
  lemma {:induction false} NoFenceNoBlock(s: string, i: nat)
    requires i <= |s| && !Contains(s, "```")
    ensures FenceFrom(s, i).None?
    decreases |s| - i
  {
    if i + 3 <= |s| {
      assert !OccursAt(s, "```", i);
      NoFenceNoBlock(s, i + 1);
    }
  }

  /** `code.split('\n').length`. */
  function LineCount(code: string): (n: nat)
    ensures n == CountChar(code, '\n') + 1
  {
    |Split(code, '\n')|
  }

  /** `generateExplanation(idea, language, code)`. */
  function GenerateExplanation(idea: string, language: string, code: string): (r: string)
    ensures "基于您的想法\"" + idea <= r
    ensures Contains(r, "，我使用" + language + "生成了" + NatToString(CountChar(code, '\n') + 1) + "行代码")
  {
    var quoted := "基于您的想法\"" + idea + "\"";
    var counted := "，我使用" + language + "生成了" + NatToString(LineCount(code)) + "行代码";
    var closing := "。代码实现了您描述的功能，可以直接运行。";
    ContainsSpliced(quoted, counted, closing);
    quoted + counted + closing
  }

  /** The code in a trimmed reply: the trimmed block body, else all of it. */
  function ExtractCode(content: string): (code: string)
    ensures FenceFrom(content, 0).None? ==> code == content
    ensures FenceFrom(content, 0).Some? ==> code == Trim(FenceFrom(content, 0).value)
  {
    match FenceFrom(content, 0)
    case Some(body) => Trim(body)
    case None => content
  }

  /** `parseResponse(response, idea, language)`: fails without choices;
      the code is the trimmed body of the first fenced block of the
      trimmed content, or the trimmed content when there is none. */
  function ParseResponse(response: ApiResponse, idea: string, language: string, model: string)
    : (r: Result<ParsedResponse, string>)
    ensures r.Failure? <==> response.choices.None? || response.choices.value == []
    ensures r.Failure? ==> r.error == "AI响应格式无效"
    ensures r.Success? ==>
      var content := Trim(response.choices.value[0].content);
      && (FenceFrom(content, 0).None? ==> r.value.code == content)
      && (FenceFrom(content, 0).Some? ==> r.value.code == Trim(FenceFrom(content, 0).value))
      && r.value.explanation == GenerateExplanation(idea, language, r.value.code)
  {
    match response.choices
    case None => Failure("AI响应格式无效")
    case Some(choices) =>
      if choices == [] then Failure("AI响应格式无效")
      else
        var code := ExtractCode(Trim(choices[0].content));
        var usage := response.usage.GetOr(Usage(None, None, None));
        Success(ParsedResponse(
          code, GenerateExplanation(idea, language, code), model,
          usage.promptTokens.GetOr(0), usage.completionTokens.GetOr(0), usage.totalTokens.GetOr(0)))
  }

  /** Without a fence the whole trimmed content is the code. */
  lemma UnfencedContentIsCode(content: string, idea: string, language: string, model: string)
    requires !Contains(Trim(content), "```")
    ensures var r := ParseResponse(ApiResponse(Some([Choice(content)]), None), idea, language, model);
      r.Success? && r.value.code == Trim(content)
  {
    NoFenceNoBlock(Trim(content), 0);
  }

  /** A reply that is one fenced block tagged with a language word gives
      back the trimmed block body. */
  lemma FencedBlockRoundTrip(content: string, tag: string, body: string,
                             idea: string, language: string, model: string)
    requires content == "```" + tag + "\n" + body + "```"
    requires forall k :: 0 <= k < |tag| ==> IsWordChar(tag[k])
    requires '`' !in body
    ensures var r := ParseResponse(ApiResponse(Some([Choice(content)]), None), idea, language, model);
      r.Success? && r.value.code == Trim(body)
  {
    FenceOfBlock(content, tag, body);
    FencedContent(content, body, idea, language, model);
  }

  lemma FencedContent(content: string, body: string, idea: string, language: string, model: string)
    requires FenceFrom(Trim(content), 0) == Some(body)
    ensures var r := ParseResponse(ApiResponse(Some([Choice(content)]), None), idea, language, model);
      r.Success? && r.value.code == Trim(body)
  {
  }

  lemma FenceOfBlock(s: string, tag: string, body: string)
    requires s == "```" + tag + "\n" + body + "```"
    requires forall k :: 0 <= k < |tag| ==> IsWordChar(tag[k])
    requires '`' !in body
    ensures FenceFrom(Trim(s), 0) == Some(body)
  {
    FenceOfBlockUntrimmed(s, tag, body);
    assert s[0] == '`' && s[|s| - 1] == '`';
    TrimNoop(s);
  }

  lemma FenceOfBlockUntrimmed(s: string, tag: string, body: string)
    requires s == "```" + tag + "\n" + body + "```"
    requires forall k :: 0 <= k < |tag| ==> IsWordChar(tag[k])
    requires '`' !in body
    ensures FenceFrom(s, 0) == Some(body)
  {
    assert s[..3] == "```";
    var w := 3 + |tag|;
    SkipWordStops(s, 3, w);
    var j := w + 1;
    ClosingFence(s, j, body);
    assert s[j..j + |body|] == body;
  }

  /** The first "```" after a backtick-free stretch is the one ending it. */
  lemma ClosingFence(s: string, j: nat, body: string)
    requires j + |body| + 3 == |s| && s[j..] == body + "```"
    requires '`' !in body
    ensures IndexOfFrom(s, "```", j) == j + |body|
  {
    var k := j + |body|;
    assert s[k..k + 3] == s[j..][|body|..] == "```";
    assert OccursAt(s, "```", k);
    forall m | j <= m < k
      ensures !OccursAt(s, "```", m)
    {
      assert s[m] == s[j..][m - j] == body[m - j];
      assert s[m..m + 3][0] == s[m];
    }
  }

  lemma SkipWordStops(s: string, i: nat, w: nat)
    requires i <= w < |s|
    requires forall k :: i <= k < w ==> IsWordChar(s[k])
    requires !IsWordChar(s[w])
    ensures SkipWord(s, i) == w
    decreases w - i
  {
    if i < w {
      SkipWordStops(s, i + 1, w);
    }
  }

  // ---------------------------------------------------------------------
  // Mock replies
  // ---------------------------------------------------------------------

  /** One mock table, as `Object.entries` lists it: keyword, code. */
  type MockTable = seq<(string, string)>

  const DefaultKeyword: string := "默认"

  const PythonMocks: MockTable := [
    ("打印", "print(\"Hello, World!\")"),
    ("计算", "result = 2 + 2\nprint(f\"计算结果: {result}\")"),
    ("时间", "import datetime\nprint(f\"当前时间: {datetime.datetime.now()}\")"),
    ("文件", "with open(\"example.txt\", \"w\") as f:\n    f.write(\"Hello, World!\")"),
    (DefaultKeyword, "# 基于您的想法生成的Python代码\nprint(\"功能实现中...\")")]

  const JavaScriptMocks: MockTable := [
    ("打印", "console.log(\"Hello, World!\");"),
    ("计算", "const result = 2 + 2;\nconsole.log(`计算结果: ${result}`);"),
    ("时间", "console.log(`当前时间: ${new Date()}`);"),
    ("数组", "const arr = [1, 2, 3, 4, 5];\nconsole.log(arr);"),
    (DefaultKeyword, "// 基于您的想法生成的JavaScript代码\nconsole.log(\"功能实现中...\");")]

  const BashMocks: MockTable := [
    ("打印", "echo \"Hello, World!\""),
    ("文件", "ls -la"),
    ("时间", "date"),
    ("系统", "uname -a"),
    (DefaultKeyword, "#!/bin/bash\n# 基于您的想法生成的Bash脚本\necho \"功能实现中...\"")]

  const MockCodes: map<string, MockTable> :=
    map["python" := PythonMocks, "javascript" := JavaScriptMocks, "bash" := BashMocks]

  /** `mockCodes[language] || mockCodes.python`. `None` is a member
      inherited from `Object.prototype` (a function, or the prototype
      object): it has no entries and no '默认' key. */
  function MockTableFor(language: string): (t: Option<MockTable>)
    ensures language in MockCodes ==> t == Some(MockCodes[language])
    ensures language !in MockCodes && !JsObject.IsInherited(language) ==> t == Some(PythonMocks)
    ensures t.None? <==> language !in MockCodes && JsObject.IsInherited(language)
    ensures t.Some? ==> |t.value| == 5 && t.value[4].0 == DefaultKeyword
  {
    if language in MockCodes then Some(MockCodes[language])
    else if JsObject.IsInherited(language) then None
    else Some(PythonMocks)
  }

  /** The index of the first entry of `t`, from `i` on, whose keyword
      occurs in `idea`; `|t|` when there is none. */
  function FirstMatch(idea: string, t: MockTable, i: nat): (k: nat)
    requires i <= |t|
    ensures i <= k <= |t|
    ensures k < |t| ==> Contains(idea, t[k].0)
    ensures forall j :: i <= j < k ==> !Contains(idea, t[j].0)
    decreases |t| - i
  {
    if i == |t| then |t|
    else if Contains(idea, t[i].0) then i
    else FirstMatch(idea, t, i + 1)
  }

  /** The code `getMockResponse` selects: the code of the first entry, in
      table order, whose keyword occurs in the idea, or the '默认' entry's
      code when none does. `None` is the `undefined` an inherited member
      gives. */
  function MockCode(idea: string, language: string): (c: Option<string>)
    ensures c.None? <==> MockTableFor(language).None?
    ensures var t := MockTableFor(language);
      t.Some? ==>
        || (exists k :: (0 <= k < |t.value| && Contains(idea, t.value[k].0) && c == Some(t.value[k].1) &&
                         forall j :: 0 <= j < k ==> !Contains(idea, t.value[j].0)))
        || ((forall j :: 0 <= j < |t.value| ==> !Contains(idea, t.value[j].0)) && c == Some(t.value[4].1))
  {
    match MockTableFor(language)
    case None => None
    case Some(t) =>
      var k := FirstMatch(idea, t, 0);
      Some(if k < |t| then t[k].1 else t[4].1)
  }

  /** The explanation of a mock reply. */
  function MockExplanation(idea: string, language: string): string {
    "基于您的想法\"" + idea + "\"生成的" + language + "代码（模拟模式）"
  }

  datatype MockResponse = MockResponse(
    code: Option<string>,
    explanation: string,
    confidence: real,
    model: string,
    mockMode: bool)

  /** `getMockResponse(idea, language)`: the loop over `Object.entries`
      stops at the first keyword that occurs in the idea. */
  method GetMockResponse(idea: string, language: string) returns (r: MockResponse)
    ensures r.code == MockCode(idea, language)
    ensures r.explanation == MockExplanation(idea, language)
    ensures r.confidence == 0.8 && r.mockMode && r.model == "mock-model"
  {
    var table := MockTableFor(language);
    var entries := if table.Some? then table.value else [];
    var selected := if table.Some? then Some(table.value[4].1) else None;
    var i := 0;
    while i < |entries|
      invariant 0 <= i <= |entries|
      invariant forall j :: 0 <= j < i ==> !Contains(idea, entries[j].0)
      invariant selected == (if table.Some? then Some(table.value[4].1) else None)
    {
      if Contains(idea, entries[i].0) {
        selected := Some(entries[i].1);
        assert FirstMatch(idea, entries, 0) == i;
        break;
      }
      i := i + 1;
    }
    assert table.Some? && i == |entries| ==> FirstMatch(idea, entries, 0) == i;
    r := MockResponse(selected, MockExplanation(idea, language), 0.8, "mock-model", true);
  }

  // ---------------------------------------------------------------------
  // Validation
  // ---------------------------------------------------------------------

  const UnsafeKeywords: seq<string> := ["删除系统", "格式化硬盘", "rm -rf", "病毒", "恶意"]
  const SupportedLanguages: seq<string> := ["python", "javascript", "bash", "go", "rust", "java", "cpp", "csharp"]
  const ComplexKeywords: seq<string> := ["算法", "数据库", "网络", "并发", "多线程", "API", "框架"]
  const SimpleKeywords: seq<string> := ["打印", "计算", "输出", "显示", "读取"]

  /** How many keywords occur in `text`: `keywords.filter(k => text.includes(k)).length`. */
  function CountMatches(text: string, keywords: seq<string>): (n: nat)
    ensures n <= |keywords|
    ensures n == 0 <==> forall k :: 0 <= k < |keywords| ==> !Contains(text, keywords[k])
  {
    if keywords == [] then 0
    else
      var rest := CountMatches(text, keywords[1..]);
      assert forall k :: 1 <= k < |keywords| ==> keywords[k] == keywords[1..][k - 1];
      (if Contains(text, keywords[0]) then 1 else 0) + rest
  }

  /** A keyword that cannot occur lowers the bound by one. */
  lemma {:induction false} CountMatchesMissing(text: string, keywords: seq<string>, i: nat)
    requires i < |keywords| && !Contains(text, keywords[i])
    ensures CountMatches(text, keywords) <= |keywords| - 1
  {
    if i > 0 {
      assert keywords[1..][i - 1] == keywords[i];
      CountMatchesMissing(text, keywords[1..], i - 1);
    }
  }

  /** `assessComplexity(idea)`; the idea is lower-cased, the keywords are not. */
  function AssessComplexity(idea: string): (c: Complexity)
    ensures var complex := CountMatches(ToLower(idea), ComplexKeywords);
      var simple := CountMatches(ToLower(idea), SimpleKeywords);
      && (c == High <==> complex > simple)
      && (c == Low <==> complex <= simple && simple > 0)
      && (c == Medium <==> complex == 0 && simple == 0)
  {
    var complex := CountMatches(ToLower(idea), ComplexKeywords);
    var simple := CountMatches(ToLower(idea), SimpleKeywords);
    if complex > simple then High else if simple > 0 then Low else Medium
  }

  /** The keyword "API" is upper-case and the idea lower-cased, so it never
      counts: at most six complex keywords can match. */
  lemma ApiKeywordNeverMatches(idea: string)
    ensures !Contains(ToLower(idea), "API")
    ensures CountMatches(ToLower(idea), ComplexKeywords) <= 6
  {
    LowerNeverContainsUpper(idea, "API", 0);
    assert ComplexKeywords[5] == "API";
    CountMatchesMissing(ToLower(idea), ComplexKeywords, 5);
  }

  function TimeFor(c: Complexity): string {
    match c
    case Low => "< 1秒"
    case Medium => "1-5秒"
    case High => "5-30秒"
  }

  /** `estimateExecutionTime(idea, language)`: never the '未知' fallback. */
  function EstimateExecutionTime(idea: string, language: string): (r: string)
    ensures r in {"< 1秒", "1-5秒", "5-30秒"}
    ensures r == "5-30秒" <==> AssessComplexity(idea) == High
    ensures r == "< 1秒" <==> AssessComplexity(idea) == Low
  {
    TimeFor(AssessComplexity(idea))
  }

  datatype InvalidReason = TooShort | TooLong | UnsafeContent | UnsupportedLanguage(language: string)

  datatype Validation =
    | Invalid(reason: InvalidReason)
    | Valid(complexity: Complexity, estimatedTime: string)

  function InvalidMessage(reason: InvalidReason): string {
    match reason
    case TooShort => "想法描述太短，请提供更详细的描述"
    case TooLong => "想法描述太长，请简化描述"
    case UnsafeContent => "检测到潜在的不安全操作，请修改您的想法"
    case UnsupportedLanguage(language) => "暂不支持" + language + "语言"
  }

  predicate HasUnsafeContent(idea: string) {
    exists k | 0 <= k < |UnsafeKeywords| :: Contains(ToLower(idea), ToLower(UnsafeKeywords[k]))
  }

  /** `validateIdea(idea, language)`, `None` standing for a missing idea.
      Each check applies only when the earlier ones passed. */
  function ValidateIdea(idea: Option<string>, language: string): (r: Validation)
    ensures r == Invalid(TooShort) <==> idea.None? || |Trim(idea.value)| < 3
    ensures r == Invalid(TooLong) <==> idea.Some? && |Trim(idea.value)| >= 3 && |idea.value| > 1000
    ensures r == Invalid(UnsafeContent) <==>
      idea.Some? && |Trim(idea.value)| >= 3 && |idea.value| <= 1000 && HasUnsafeContent(idea.value)
    ensures r.Valid? <==>
      idea.Some? && |Trim(idea.value)| >= 3 && |idea.value| <= 1000 && !HasUnsafeContent(idea.value) &&
      language in SupportedLanguages
    ensures r.Valid? ==>
      r.complexity == AssessComplexity(idea.value) &&
      r.estimatedTime == EstimateExecutionTime(idea.value, language)
    ensures r.Invalid? && r.reason.UnsupportedLanguage? ==> r.reason.language == language
  {
    if idea.None? || |Trim(idea.value)| < 3 then Invalid(TooShort)
    else if |idea.value| > 1000 then Invalid(TooLong)
    else if HasUnsafeContent(idea.value) then Invalid(UnsafeContent)
    else if language !in SupportedLanguages then Invalid(UnsupportedLanguage(language))
    else Valid(AssessComplexity(idea.value), EstimateExecutionTime(idea.value, language))
  }

  /** The unsafe-keyword check ignores ASCII case: "RM -RF" is caught. */
  lemma UnsafeCheckIgnoresCase(idea: string)
    ensures HasUnsafeContent(ToLower(idea)) == HasUnsafeContent(idea)
  {
    ToLowerIdempotent(idea);
  }

  /** A supported language, the only kind `validateIdea` accepts, is an
      own key of the instruction table, never a name inherited from
      `Object.prototype`. */
  lemma SupportedLanguageIsOwn(language: string)
    requires language in SupportedLanguages
    ensures language in LanguageInstructions && !JsObject.IsInherited(language)
  {
    assert language == "python" || language == "javascript" || language == "bash" || language == "go" ||
           language == "rust" || language == "java" || language == "cpp" || language == "csharp";
    InheritedHasNoInstruction(language);
  }

  // ---------------------------------------------------------------------
  // Generation
  // ---------------------------------------------------------------------

  datatype Generation = FromModel(parsed: ParsedResponse) | FromMock(mock: MockResponse)

  /** `generateCode(idea, language)`. Without an API key the mock reply is
      used; otherwise the model's reply (`None` when the call failed) is
      parsed, and any failure falls back to the mock. */
  method GenerateCode(idea: string, language: string, hasApiKey: bool, model: string,
                      reply: Option<ApiResponse>) returns (g: Generation)
    ensures g.FromModel? <==>
      hasApiKey && reply.Some? && ParseResponse(reply.value, idea, language, model).Success?
    ensures g.FromModel? ==> g.parsed == ParseResponse(reply.value, idea, language, model).value
    ensures g.FromMock? ==>
      g.mock == MockResponse(MockCode(idea, language), MockExplanation(idea, language), 0.8, "mock-model", true)
  {
    if hasApiKey && reply.Some? {
      var parsed := ParseResponse(reply.value, idea, language, model);
      if parsed.Success? {
        return FromModel(parsed.value);
      }
    }
    var mock := GetMockResponse(idea, language);
    g := FromMock(mock);
  }
}
