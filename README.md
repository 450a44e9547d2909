# Idea-to-code platform backend in Dafny

This project models the backend core of an "idea to executable code"
platform. A user describes an idea. The AI service validates the idea,
rates its complexity and generates code, either from a language model's
reply or from built-in mock replies. The step planner splits the idea into
Minimum Executable Units (MEUs): ordered steps whose dependencies point to
earlier steps. A step runs only after its dependencies have run, and each
project's progress is recorded. Generated code runs in throw-away Docker
containers under a declarative security policy. A new container is
refused while five are tracked (a bound that only holds for creations that
do not overlap, see "Left out"), each run's output is cut to a limit, and a reaper
removes containers older than ten minutes. Four document models keep the
bookkeeping (Idea, Execution, User, ApiUsage). An Express middleware maps
thrown errors to HTTP responses.

Modules and what they cover:

- `SecurityPolicy`, `InputValidator`, `CommandBuilder`, `ExecutionOutput`
  and `Docker` model `backend/services/dockerService.js`.
  - Policy loading and its defaults.
  - The file-name deny-list and the blocked-command scan.
  - The per-language command table.
  - How a run's artifact files become a result.
  - The `DockerService` class: a tracking table capped at five entries,
    and the container life cycle.
- `AiService` models `backend/services/aiService.js`: prompt building,
  reply parsing, mock replies, validation and complexity.
- `MeuService` models `backend/services/meuService.js`: plans, project
  ids, the dependency gate and progress. The `MEUService` class holds every
  project's plan record.
- `IdeaModel`, `ExecutionModel`, `UserModel` and `ApiUsageModel` model
  the four Mongoose schemas in `backend/models/`. Each document whose
  methods update fields in place is a class.
- `ErrorHandler` models `backend/middleware/errorHandler.js`.
- `Wrappers`, `Strings`, `JsObject`, `Tags` and `Rates` hold shared helpers:
  - `Option` and `Result`;
  - lookups in object literals used as tables, where a key such as
    "constructor" or "__proto__" finds a member inherited from
    `Object.prototype`;
  - JavaScript's `trim`, `split`, `includes` and ASCII `toLowerCase`;
  - the tag clean-up shared by two models, and the `trim` setter on a list;
  - `Math.round` of a percentage on exact rationals, and letter grades.

Outside effects are replaced by values the caller passes in:

- Every `docker` invocation becomes its outcome (`CommandOutcome`).
- The clock becomes an integer of milliseconds.
- File contents become optional strings.
- The policy file becomes an optional parsed policy.
- The language-model call becomes its optional reply.
- JavaScript date parsing becomes a function parameter.

Where the code departs from the documented design, the model follows the code:

- A missing or unparseable policy file silently selects the built-in default
  policy rather than failing closed.
- That default policy has neither an allow-list nor a block-list. Under it
  `validateCommand` accepts every command, and `buildSecureExecuteCommand`
  refuses every language except the names every object inherits from
  `Object.prototype` ("constructor", "toString", "__proto__", ...). For those
  it returns a native function, or the text "undefined && undefined" for
  "__proto__", instead of a command. Nothing in the core calls
  `buildSecureExecuteCommand`.
- The same inherited names pass through the other tables keyed by language:
  the prompt instruction, the mock replies and the four file-name tables. The
  AI and planner routes screen the language first with `validateIdea`, whose
  check is against an array of eight languages, so none of these names
  reaches them there.
- `outputLimited` is true when a marker text is present in the output or
  error stream. It is therefore also true when the program itself printed
  that text.
- `stopContainer` keeps a container's entry when `docker stop` fails.
- A missing status file leaves `success` true.
- The reaper removes old containers but never updates the tracking table.
- The `trim` setters run on every assignment, including `push`. `addTag`
  tests presence with the tag as given and then stores its trim, so " a "
  passes the test on a list holding "a". The save that `addTag` itself
  runs then cleans the second "a" away, as it does a blank tag, so the
  list ends up unchanged.
- Every update method of the Idea and Execution documents ends in
  `save()`, so the model runs the pre-save hook after the method's own
  assignments. The hook's title derivation is modelled as the hook's code
  states it. The schema's `required` validator, which runs before the hook
  and rejects an empty title, is not modelled (see "Left out").
- `securityOptions` in the policy has no effect: the hardening options are
  hard-wired.

## Model

| member | source | states |
|---|---|---|
| SecurityPolicy.LoadSecurityPolicy | backend/services/dockerService.js:11-41 | a parsed policy file is used as is; without one the default applies: network "none", no allow-list, no block-list |
| SecurityPolicy.OrDefault | backend/services/dockerService.js:233-234 | JavaScript `x \|\| d` on an optional number: the value when present and non-zero, the default otherwise |
| SecurityPolicy.RunTimeout | backend/services/dockerService.js:233 | the run timeout applied is never zero |
| SecurityPolicy.OutputLimit | backend/services/dockerService.js:234 | the output limit applied is never zero |
| SecurityPolicy.FallbackAllowsInheritedOnly | backend/services/dockerService.js:25-41 | under the fallback policy a language is allowed iff it is a name inherited from `Object.prototype` ("python" is refused, "constructor" allowed); no command is blocked; the timeout is 30 and the output limit 10240 |
| InputValidator.IsSecureFileNameIff | backend/services/dockerService.js:594-605 | a file name passes exactly when it has no "..", no leading '-', and no shell metacharacter, whitespace or control character |
| InputValidator.AbsolutePathAccepted | backend/services/dockerService.js:596-604 | the deny-list lets an absolute path such as "/etc/passwd" through |
| InputValidator.ValidateCommand | backend/services/dockerService.js:608-619 | success iff no blocked entry occurs in the command; otherwise the first blocked entry, in list order, that occurs |
| InputValidator.FallbackAcceptsEveryCommand | backend/services/dockerService.js:608-619 | with the fallback policy every command is accepted |
| CommandBuilder.CommandFor | backend/services/dockerService.js:568-585 | a command exists exactly for python, javascript, go (one stage) and java, cpp, c (compile, then run); runs start with the policy timeout prefix and compiles with the 60-second prefix |
| CommandBuilder.Render | backend/services/dockerService.js:586-590 | a two-stage entry is the compile command, " && ", then the run command |
| CommandBuilder.BuildSecureExecuteCommand | backend/services/dockerService.js:556-591 | the language is checked first, then the file name; success iff both pass; a known language gets its rendered command, "__proto__" gets "undefined && undefined", any other inherited name a native function, and any other allowed language `undefined` |
| CommandBuilder.FallbackRejectsAllButInherited | backend/services/dockerService.js:558-590 | under the fallback policy every language other than an inherited name is refused; an inherited name with a safe file name gets a native function, or "undefined && undefined" for "__proto__", and never a command |
| CommandBuilder.JavaRunTarget | backend/services/dockerService.js:572-575 | the Java run target is the file name with its ".java" suffix removed |
| CommandBuilder.StepIdReachesShell | backend/services/dockerService.js:576-584 | the step id reaches the C and C++ commands unscreened |
| Docker.ContainerName | backend/services/dockerService.js:136 | every container name starts with "meu-exec-" |
| Docker.ContainerNameDistinctInTime | backend/services/dockerService.js:136 | names for the same step taken at different milliseconds differ |
| Docker.SleepSeconds | backend/services/dockerService.js:180 | the container is kept alive for 60 times the execution timeout in seconds, or 3600 seconds when the timeout is missing or zero |
| Docker.RunArgs | backend/services/dockerService.js:152-181 | the `docker run` list has 39 arguments, starts with "run" and ends with the image and the sleep command |
| Docker.RunArgsIsolation | backend/services/dockerService.js:157-168 | every container gets the policy's network mode and a read-only root file system |
| Docker.RunArgsNoNewPrivileges | backend/services/dockerService.js:163 | every container is started with no-new-privileges |
| Docker.RunArgsDropCapabilities | backend/services/dockerService.js:164 | every container is started with all capabilities dropped |
| Docker.RunArgsLimits | backend/services/dockerService.js:154-175 | the container carries its name and the policy's memory and CPU limits, and mounts the project read-only |
| Docker.RunArgsIgnoreSecurityOptions | backend/services/dockerService.js:162-172 | the policy's securityOptions do not change the argument list |
| Docker.ExecArgs | backend/services/dockerService.js:236-246 | the `docker exec` list is "exec", the container, "timeout", a duration ending in 's', "/bin/bash /workspace/sandbox.sh", then the language, project id, step id and code file |
| Docker.ExecTimeoutReadsBack | backend/services/dockerService.js:239 | the duration argument reads back as the policy's run timeout in seconds |
| Docker.EffectivePolicy | backend/services/dockerService.js:143-147 | an already loaded policy is kept; otherwise the policy file is loaded |
| Docker.FieldOr | backend/services/dockerService.js:400-404 | a present non-empty column is kept; a non-empty default replaces a missing one |
| Docker.NonBlank | backend/services/dockerService.js:428 | the listing keeps exactly the lines that are not blank |
| Docker.ExpiredNamesIff | backend/services/dockerService.js:432-451 | a name is removed iff some listed line with that name is more than ten minutes old |
| Docker.ExactlyTenMinutesSurvives | backend/services/dockerService.js:440 | a container exactly ten minutes old is kept: the threshold is strict |
| Docker.ListingLineColumns | backend/services/dockerService.js:433 | a listing line splits back into its name and creation-time columns |
| Docker.DockerService.constructor | backend/services/dockerService.js:47-54 | starts with an empty tracking table and no policy loaded |
| Docker.DockerService.EnsurePolicy | backend/services/dockerService.js:143-147 | loads the policy once and leaves the table unchanged |
| Docker.DockerService.CreateExecutionContainer | backend/services/dockerService.js:131-217 | at capacity: fails and changes nothing; missing project directory: fails; failed run: nothing is tracked; success: exactly the new name is added with status "running"; the table never exceeds five entries |
| Docker.DockerService.ExecuteInContainer | backend/services/dockerService.js:220-321 | an untracked name fails before anything is dispatched; otherwise the exec arguments are dispatched and the normalised artifacts returned; the table never changes |
| Docker.DockerService.StopContainer | backend/services/dockerService.js:325-342 | untracked name or failed stop: the table is unchanged; otherwise only that entry is removed |
| Docker.DockerService.RemoveContainer | backend/services/dockerService.js:348-362 | reports whether `docker rm -f` succeeded and never raises |
| Docker.DockerService.GetContainerStatusFromDocker | backend/services/dockerService.js:367-383 | the trimmed state, or "not_found" when inspection fails |
| Docker.DockerService.GetContainerStats | backend/services/dockerService.js:388-414 | stats exist iff the command succeeded with at least two lines; every column is non-empty |
| Docker.DockerService.StatsRoundTrip | backend/services/dockerService.js:396-405 | a header plus one tab-separated row of four columns reads back as those four columns |
| Docker.DockerService.CleanupExpiredContainers | backend/services/dockerService.js:419-460 | removes the expired names in listing order and returns how many; a failed listing returns 0 |
| Docker.DockerService.Cleanup | backend/services/dockerService.js:500-508 | afterwards exactly the containers whose stop failed remain tracked |
| ExecutionOutput.Truncate | backend/services/dockerService.js:267-268 | text within the limit is unchanged; longer text keeps its first `limit` characters followed by the marker |
| ExecutionOutput.TruncatedCarriesMarker | backend/services/dockerService.js:267-278 | a cut stream always carries its marker text |
| ExecutionOutput.ReadArtifact | backend/services/dockerService.js:264-281 | a missing file leaves the field empty |
| ExecutionOutput.NormalizedResult | backend/services/dockerService.js:257-299 | both streams are cut to the limit; success is false iff a non-null status has a non-zero exit code; the security summary echoes the policy |
| ExecutionOutput.OutputLimitedIff | backend/services/dockerService.js:294 | outputLimited iff a stream exceeded the limit or already held its marker text |
| ExecutionOutput.TruncatedOutputLength | backend/services/dockerService.js:267-268 | a cut output is `limit` characters of the original plus the marker, and is reported as limited |
| ExecutionOutput.EmptyOutputNotLimited | backend/services/dockerService.js:257-294 | empty or missing streams are not reported as limited |
| ExecutionOutput.DefaultOutputLimit | backend/services/dockerService.js:30 | under the default policy the output is cut at 10240 characters |
| AiService.Instruction | backend/services/aiService.js:47-58 | a table language gets its own instruction; an inherited name gets the text of the inherited member ("function Object() { [native code] }" for "constructor"); any other language gets the generic "use <language>" instruction |
| AiService.SupportedLanguageIsOwn | backend/services/aiService.js:297 | every language `validateIdea` accepts has its own instruction and is not an inherited name |
| AiService.BuildPrompt | backend/services/aiService.js:46-73 | the prompt starts with the fixed header and the idea |
| AiService.PromptEmbedsInputs | backend/services/aiService.js:60-73 | the prompt contains the idea, the language and the language's instruction |
| AiService.SkipWord | backend/services/aiService.js:132 | the optional language word after an opening fence is the longest run of word characters |
| AiService.NoFenceNoBlock | backend/services/aiService.js:132-136 | text without "```" has no fenced block |
| AiService.LineCount | backend/services/aiService.js:166 | the line count is the number of line breaks plus one |
| AiService.GenerateExplanation | backend/services/aiService.js:165-168 | the explanation starts by quoting the idea, and it names the language and the line count, one more than the number of newlines in the code |
| AiService.ExtractCode | backend/services/aiService.js:131-136 | the trimmed body of the first fenced block, or all of the content when there is none |
| AiService.ParseResponse | backend/services/aiService.js:123-162 | fails iff there are no choices; otherwise the code is the extracted code of the trimmed first choice, and the explanation describes it |
| AiService.UnfencedContentIsCode | backend/services/aiService.js:128-136 | without a fence the trimmed content is the code |
| AiService.FencedBlockRoundTrip | backend/services/aiService.js:128-136 | a reply holding one tagged fenced block yields that block's trimmed body |
| AiService.MockTableFor | backend/services/aiService.js:207-231 | python, javascript and bash get their tables of five entries ending with the default; an inherited name gets a member with no entries; any other language gets the Python table |
| AiService.FirstMatch | backend/services/aiService.js:234-240 | the first index from the start position whose keyword occurs in the idea, or the end when there is none |
| AiService.MockCode | backend/services/aiService.js:231-240 | the code of the first keyword, in table order, that occurs in the idea, else the default code; `undefined` for an inherited name |
| AiService.GetMockResponse | backend/services/aiService.js:206-254 | the loop's code is exactly MockCode; the explanation quotes the idea and the language; confidence 0.8 and mock mode |
| AiService.CountMatches | backend/services/aiService.js:331-337 | the count is at most the number of keywords, and zero iff none occurs |
| AiService.AssessComplexity | backend/services/aiService.js:327-342 | high iff more complex than simple matches; low iff otherwise some simple match; medium iff neither |
| AiService.ApiKeywordNeverMatches | backend/services/aiService.js:328-333 | the upper-case keyword "API" never matches a lower-cased idea, so at most six complex keywords count |
| AiService.EstimateExecutionTime | backend/services/aiService.js:350-358 | always one of the three estimates, chosen by complexity; never the "unknown" fallback |
| AiService.ValidateIdea | backend/services/aiService.js:263-311 | length, unsafe-content and language checks are applied in order; each outcome holds iff the earlier checks passed and this one fails; a valid idea carries its complexity and time estimate |
| AiService.UnsafeCheckIgnoresCase | backend/services/aiService.js:283-286 | lower-casing the idea does not change the unsafe-content verdict |
| AiService.GenerateCode | backend/services/aiService.js:21-38 | the model's reply is used iff there is an API key and a reply that parses; otherwise the reply is exactly the mock response: MockCode, the mock explanation, confidence 0.8 |
| MeuService.MainFileName | backend/services/meuService.js:352-364 | a table language gets its name; an inherited name gets the inherited member; any other language gets "main.txt" |
| MeuService.ConfigFileName | backend/services/meuService.js:366-377 | a table language gets its name; an inherited name gets the inherited member; any other language gets "config.txt" |
| MeuService.DataFileName | backend/services/meuService.js:379-390 | a table language gets its name; an inherited name gets the inherited member; any other language gets "data.txt" |
| MeuService.UIFileName | backend/services/meuService.js:392-403 | a table language gets its name; an inherited name gets the inherited member; any other language gets "ui.txt" |
| MeuService.FileNameFallbacks | backend/services/meuService.js:352-403 | languages that are neither in the tables nor inherited names get the ".txt" names in every table; bash has only a main file name of its own; an inherited name gets the member from all four tables |
| MeuService.PlanWellFormed | backend/services/meuService.js:101-256 | step ids are 1..n in order, and every dependency names an earlier step |
| MeuService.GenerateSimpleMEU | backend/services/meuService.js:101-126 | two well-formed steps |
| MeuService.GenerateMediumMEU | backend/services/meuService.js:131-178 | four well-formed steps |
| MeuService.GenerateComplexMEU | backend/services/meuService.js:183-256 | six well-formed steps |
| MeuService.GenerateMEUPlan | backend/services/meuService.js:75-96 | the plan's complexity is the assessed one; low, medium and high give 2, 4 and 6 well-formed steps |
| MeuService.BuildStepPrompt | backend/services/meuService.js:323-333 | the prompt names the step number and the project idea first |
| MeuService.StepPromptEmbedsInputs | backend/services/meuService.js:323-333 | the prompt holds the plan's language and the step's title, description and type, each after its label |
| MeuService.IdeaHash | backend/services/meuService.js:410 | the hash has at most ten characters, all lower-case ASCII letters or digits |
| MeuService.KeepAlnum | backend/services/meuService.js:410 | the result holds only ASCII letters and digits, and an all-alphanumeric text is kept whole |
| MeuService.KeepAlnumCounts | backend/services/meuService.js:410 | each ASCII letter or digit is kept as many times as it occurs, every other character is dropped |
| MeuService.KeepAlnumAppend | backend/services/meuService.js:410 | filtering a concatenation is concatenating the filtered parts, so order is kept |
| MeuService.GenerateProjectId | backend/services/meuService.js:408-412 | every project id starts with "meu_" |
| MeuService.ProjectIdParts | backend/services/meuService.js:408-412 | the id splits on '_' into "meu", the hash and the timestamp, which reads back as the original number |
| MeuService.FindStep | backend/services/meuService.js:275 | nothing is found iff no step has the id; otherwise it is the first step with that id |
| MeuService.Unmet | backend/services/meuService.js:281-283 | exactly the dependencies not yet completed; empty iff all are completed |
| MeuService.CheckStep | backend/services/meuService.js:275-287 | passes iff the step exists and all its dependencies are completed; a missing step is StepNotFound; unmet ids are non-empty and not completed |
| MeuService.Advance | backend/services/meuService.js:452-475 | the step joins the completed set at most once; currentStep becomes the maximum; the step's result is stored and the others are kept |
| MeuService.AdvanceIdempotent | backend/services/meuService.js:460-471 | recording the same step twice gives the same record as once |
| MeuService.RecordValid | backend/services/meuService.js:417-475 | a record's invariant: well-formed plan, distinct completed steps taken from the plan, and every completed step's dependencies completed |
| MeuService.GatePreservesValidity | backend/services/meuService.js:276-296 | a step that passes the dependency gate keeps the record valid |
| MeuService.DistinctCardinality | backend/services/meuService.js:460-462 | distinct completed steps have as many elements as their set |
| MeuService.CompletedBounded | backend/services/meuService.js:486-487 | a valid record never has more completed steps than the plan has steps |
| MeuService.StatusOf | backend/services/meuService.js:480-508 | progress is 0 for an empty plan and otherwise the rounded percentage; "completed" iff the counts are equal; each step is flagged iff it is completed |
| MeuService.ProgressBounded | backend/services/meuService.js:486-499 | for a valid record progress is at most 100, and exactly 100 when completed |
| MeuService.InitialRecord | backend/services/meuService.js:417-433 | a saved plan starts at step 0 with nothing completed |
| MeuService.InitialRecordValid | backend/services/meuService.js:417-433 | a freshly saved plan is a valid record |
| MeuService.MEUService.constructor | backend/services/meuService.js:11-17 | no project is stored yet |
| MeuService.MEUService.AnalyzeMEU | backend/services/meuService.js:37-67 | an invalid idea fails with its validation message and stores nothing; otherwise exactly one fresh record is stored under the new id; all records stay valid |
| MeuService.MEUService.UpdateMEUProgress | backend/services/meuService.js:452-475 | an unknown project is left alone; otherwise only its record advances; all records stay valid when the step passes the dependency gate |
| MeuService.UngatedAdvanceBreaksValidity | backend/services/meuService.js:452-498 | without the gate, recording step 7 on a finished two-step plan breaks validity and reports a progress of 150 |
| MeuService.MEUService.ExecuteMEUStep | backend/services/meuService.js:264-309 | a missing plan, missing step or unmet dependency fails and changes nothing; otherwise the step is recorded and all records stay valid |
| MeuService.MEUService.GetMEUStatus | backend/services/meuService.js:480-484 | an unknown project fails with ProjectNotFound; otherwise the record's status summary |
| IdeaModel.AutoTitle | backend/models/Idea.js:253-255 | the first 50 characters of the description, followed by "..." iff it is longer |
| IdeaModel.ProcessingTime | backend/models/Idea.js:155-158 | present iff both times are set, and then validation time plus processing time is generation time |
| IdeaModel.Idea.constructor | backend/models/Idea.js:4-146 | the title, the description and each tag are stored trimmed; schema defaults: pending, not favourite, no validation or generation, zero counts |
| IdeaModel.Idea.SuccessRate | backend/models/Idea.js:149-152 | 0 before any execution, otherwise the rounded percentage, which is at most 100 |
| IdeaModel.Idea.UpdateValidation | backend/models/Idea.js:169-175 | sets all four validation fields, then the save's hook derives the title and cleans the tags; nothing else changes and stored values stay trimmed |
| IdeaModel.Idea.UpdateGeneration | backend/models/Idea.js:177-184 | sets the generation fields and completes the idea, then the save's hook derives the title and cleans the tags; a validated idea then has a processing time |
| IdeaModel.Idea.RecordExecution | backend/models/Idea.js:186-199 | one more execution, one more success iff successful, then the save's hook derives the title and cleans the tags; a success never lowers the rate and a failure never raises it |
| IdeaModel.Idea.ToggleFavorite | backend/models/Idea.js:201-204 | flips the favourite flag, then the save's hook derives the title and cleans the tags; nothing else changes |
| IdeaModel.HookTitle | backend/models/Idea.js:253-255 | a non-empty title is kept; an empty one becomes the title derived from the description, which is non-empty when the description is |
| IdeaModel.Idea.PreSave | backend/models/Idea.js:251-263 | the title is the hook's title, so a non-empty description leaves a non-empty title; tags end up cleaned, distinct and non-blank; stored values stay trimmed |
| IdeaModel.AutoTitleTrimmed | backend/models/Idea.js:14-20 | a title derived from a trimmed description is itself trimmed |
| IdeaModel.DerivedTitleNeedsNoTrim | backend/models/Idea.js:14-20 | the `trim` setter run on the derived title changes nothing |
| IdeaModel.PreSaveStable | backend/models/Idea.js:251-263 | a second save derives no new title and leaves the tags as they are |
| JsObject.OrElse | backend/services/meuService.js:363 | `table[key] \|\| fallback`: an own non-empty value is kept, an own empty value or an absent key that is not inherited falls back, and an absent inherited name finds its member |
| Tags.CleanTags | backend/models/Idea.js:258-260 | exactly the non-blank tags, each once, in order of first occurrence |
| Tags.CleanTagsIdempotent | backend/models/Execution.js:298-300 | cleaning clean tags changes nothing |
| Tags.TrimEach | backend/models/Execution.js:110-113 | each element is replaced by its trim, so the list is trimmed |
| Tags.TrimEachOfTrimmed | backend/models/Idea.js:44-48 | the `trim` setter leaves a trimmed list as it is |
| Tags.CleanThenTrim | backend/models/Idea.js:258-260 | the list a save stores is trimmed and has no blank tag, and from trimmed tags it is exactly the cleaned list |
| Rates.RoundedPercent | backend/models/User.js:80 | the nearest integer to 100·part/whole, halves rounded up; at most 100 when part ≤ whole |
| Rates.RoundedPercentMonotone | backend/models/Idea.js:151 | a larger fraction never rounds to a smaller percentage |
| Rates.SuccessNeverLowersRate | backend/models/Idea.js:186-191 | one more success never lowers the success rate |
| Rates.FailureNeverRaisesRate | backend/models/User.js:89-95 | one more failure never raises the success rate |
| ExecutionModel.StatusDescription | backend/models/Execution.js:125-133 | success, failure with its type, or plain failure when the type is missing or empty |
| ExecutionModel.StatusDescriptionDistinguishes | backend/models/Execution.js:125-133 | equal descriptions agree on success, and a failure's type can be read back |
| ExecutionModel.PerformanceGrade | backend/models/Execution.js:136-143 | each grade holds iff the time is in its band: below 100, 500, 1000 or 5000 ms, else F |
| ExecutionModel.PerformanceGradeMonotone | backend/models/Execution.js:136-143 | a slower run never gets a better grade |
| ExecutionModel.FormattedDuration | backend/models/Execution.js:155-160 | milliseconds below 1000, seconds below 60000, minutes otherwise; the millisecond text ends in "ms" and reads back as the time |
| ExecutionModel.RemoveFirst | backend/models/Execution.js:187-191 | removes the first occurrence: the multiset loses exactly one copy of the tag |
| ExecutionModel.AddTagOutcome | backend/models/Execution.js:178-184 | on a clean list, `addTag` with its save appends the trimmed tag unless it is blank or already present, and otherwise leaves the list as it is |
| ExecutionModel.RemoveFromClean | backend/models/Execution.js:186-193 | removing a tag from a clean list keeps it clean, so the save changes nothing more |
| ExecutionModel.AddThenRemove | backend/models/Execution.js:178-193 | adding a new tag and then removing it, each with its save, restores the list |
| ExecutionModel.Execution.constructor | backend/models/Execution.js:4-122 | a run with the given outcome and time; each tag is stored trimmed |
| ExecutionModel.Execution.AddTag | backend/models/Execution.js:178-184 | a non-empty tag that is not present as given is pushed in trimmed form and the save's hook cleans the list; otherwise nothing changes and no save runs; stored tags stay trimmed |
| ExecutionModel.Execution.RemoveTag | backend/models/Execution.js:186-193 | a present tag loses its first occurrence and the save's hook cleans the list; an absent tag changes nothing and no save runs; stored tags stay trimmed |
| ExecutionModel.Execution.PreSave | backend/models/Execution.js:296-300 | the tags are cleaned and then cast by the `trim` setter, so none is blank; from trimmed tags the result is exactly the cleaned list, which is distinct |
| ExecutionModel.Execution.Description | backend/models/Execution.js:125-133 | "执行成功" iff the run succeeded |
| UserModel.User.constructor | backend/models/User.js:5-57 | the address is stored through the setters; a user starts with zero executions |
| UserModel.CastEmail | backend/models/User.js:5-12 | the `lowercase` and `trim` setters give an address with no surrounding whitespace and no upper-case ASCII letter |
| UserModel.StoredEmailCastIsNoop | backend/models/User.js:5-12 | on a stored address both `toLowerCase` and the setters change nothing |
| UserModel.CastAfterLower | backend/models/User.js:103-105 | lower-casing the query before the setters run makes no difference |
| UserModel.User.SuccessRate | backend/models/User.js:78-81 | 0 before any execution, otherwise the rounded percentage, which is at most 100 |
| UserModel.User.UpdateStats | backend/models/User.js:89-95 | one more execution, one more success iff successful (default: not); the rate moves in the right direction |
| UserModel.User.PreSave | backend/models/User.js:112-118 | the address is lower-cased, which leaves a stored address as it is |
| UserModel.FindByEmail | backend/models/User.js:103-105 | finds the first stored address equal to the query as the setters cast it; nothing iff none is |
| UserModel.SavedEmailFound | backend/models/User.js:103-118 | an address saved through the setters is found by any query that differs only in letter case and surrounding whitespace |
| ApiUsageModel.IsSuccess | backend/models/ApiUsage.js:86-89 | holds iff 200 ≤ statusCode < 300 |
| ApiUsageModel.PerformanceGrade | backend/models/ApiUsage.js:92-99 | each grade holds iff the time is in its band: below 100, 300, 500 or 1000 ms, else F |
| ApiUsageModel.PerformanceGradeMonotone | backend/models/ApiUsage.js:92-99 | a slower response never gets a better grade |
| ApiUsageModel.FormattedSize | backend/models/ApiUsage.js:115-129 | zero bytes shows "0 B"; otherwise size × 1024^k is the byte count for the chosen unit k, the size is below 1024 unless the unit is GB, and at least 1 unless the unit is B, which fixes the unit |
| ApiUsageModel.WindowMillis | backend/models/ApiUsage.js:153-168 | 1 hour, 7 days or 30 days for those ranges; 24 hours for anything else |
| ApiUsageModel.StartTime | backend/models/ApiUsage.js:149-168 | the report window starts between 30 days and 1 hour before now |
| ApiUsageModel.WindowsNested | backend/models/ApiUsage.js:153-168 | longer ranges start earlier |
| ApiUsageModel.NumberOr | backend/models/ApiUsage.js:139-140 | a missing or zero number gives the default |
| ApiUsageModel.RecordUsage | backend/models/ApiUsage.js:132-147 | the endpoint, status and response time are copied; missing sizes become 0 and missing metadata becomes empty; the other six fields are not modelled |
| ApiUsageModel.CleanupCutoff | backend/models/ApiUsage.js:311-314 | the cutoff never lies in the future for a non-negative number of days |
| ApiUsageModel.Retained | backend/models/ApiUsage.js:311-314 | a record survives the cleanup iff its timestamp is not before the cutoff (`$lt`) |
| ApiUsageModel.RetentionWindow | backend/models/ApiUsage.js:311-314 | by default a record survives iff it is at most 90 days old; keeping more days never deletes more |
| ErrorHandler.CreateError | backend/middleware/errorHandler.js:109-113 | the error carries the given status and message |
| ErrorHandler.CreateValidationError | backend/middleware/errorHandler.js:116-118 | status 400 with the message |
| ErrorHandler.CreateAuthError | backend/middleware/errorHandler.js:121-123 | status 401 with the message |
| ErrorHandler.CreateForbiddenError | backend/middleware/errorHandler.js:126-128 | status 403 with the message |
| ErrorHandler.CreateNotFoundError | backend/middleware/errorHandler.js:131-133 | status 404 with the message |
| ErrorHandler.CreateConflictError | backend/middleware/errorHandler.js:136-138 | status 409 with the message |
| ErrorHandler.CreateServerError | backend/middleware/errorHandler.js:141-143 | status 500 with the message |
| ErrorHandler.CreateServiceUnavailableError | backend/middleware/errorHandler.js:146-148 | status 503 with the message |
| ErrorHandler.Rules | backend/middleware/errorHandler.js:19-70 | the chain has nine rules, in source order |
| ErrorHandler.LastFiringWins | backend/middleware/errorHandler.js:19-70 | the last rule that fires decides the error |
| ErrorHandler.NoneFires | backend/middleware/errorHandler.js:5-6 | when no rule fires the copied error stays |
| ErrorHandler.Respond | backend/middleware/errorHandler.js:72-80 | status is the error's non-zero status or 500; message is its non-empty message or the generic one |
| ErrorHandler.Classify | backend/middleware/errorHandler.js:4-81 | the response is the one built from the last firing rule, or from the copied error when none fires |
| ErrorHandler.StatusTable | backend/middleware/errorHandler.js:19-72 | the status for each kind of error, with later rules taking precedence (429 over Docker, Docker over AI service, and so on) |
| ErrorHandler.UnmatchedPassesThrough | backend/middleware/errorHandler.js:5-6 | an unmatched error keeps its own status and message, with 500 and the generic message as fallbacks |
| ErrorHandler.EmptyValidationMessage | backend/middleware/errorHandler.js:31-34 | a validation error without field messages gets 400 and the generic message |
| ErrorHandler.NotFound | backend/middleware/errorHandler.js:84-101 | status 404, and the message names the path |

## Left out

- Process plumbing is not modelled: spawning `docker`, collecting its streams, `initialize`, `checkDockerAvailability`, `buildExecutionImage` and `runDockerCommand`. Their outcomes are parameters.
- Timers are not modelled: `startCleanupScheduler` only repeats `cleanupExpiredContainers`, and concurrency between requests is out of scope.
- `getSystemResourceUsage`, `getContainerStatus` and `getActiveContainers` are not modelled. They only read the host or copy the table.
- File-system access is not modelled: `fs.access`, `mkdir`, `readFile`, `writeFile` and `ensureProjectsDir`. Their results are parameters. `saveMEUPlan`, `loadMEUPlan` and the plan-file JSON are represented by the `plans` map.
- The language-model HTTP call (`callDeepSeekAPI`) is not modelled. Its optional reply is a parameter.
- `calculateConfidence` is not modelled: it is floating-point scoring.
- `Date.now()` and `new Date()` are not modelled. Times are integer parameters and timestamps are opaque strings.
- The rendering of fractional numbers is not modelled: `toFixed(2)` in `getFormattedDuration`, `getFormattedSize` and `getFormattedMemory`, and floating-point division. The unit and the exact rational value are modelled instead. `FormattedDuration` and `FormattedSize` do not produce the seconds or minutes text.
- `getFormattedMemory` and `getFormattedResponseTime`: not modelled separately. They repeat the unit choice of `getFormattedSize` and `getFormattedDuration`.
- `generateStepCode` and `executeStepCode` are not modelled. Their outputs (`code`, `result`) are parameters of `ExecuteMEUStep`.
- The Mongoose layer is not modelled: queries, aggregates, indexes, schema validators such as `maxlength`, `enum`, `match` and `required`, and the remove and post-save cascades. `findByEmail` is modelled over a sequence of stored addresses. Of the schema options, only the `trim` and `lowercase` setters are modelled, on the fields the modelled methods read or write.
- `updateLastLogin`, `findByUser`, `getPopularIdeas`, the statistics aggregates and the `environment.platform` default of the Execution pre-save hook are not modelled. They are database or host queries.
- Validation suggestions, log messages and the `stack` field of development responses are not modelled. They are not part of any decision.
- String lengths count Unicode scalar values, whereas JavaScript counts UTF-16 units. Letter-case mapping is ASCII only.
- ErrorHandler.Rules: the validation message is joined from a list of field messages; a `ValidationError` without an `errors` object (where `Object.values` throws) is not modelled.
- SecurityPolicy.LoadSecurityPolicy: a file that parses but lacks `resourceLimits` or `networkPolicy` (which makes the engine throw later) is not modelled; `networkPolicy.networkMode` is flattened to one field.
- AiService.GenerateCode: an exception thrown inside `parseResponse` for a choice without `message.content` is not modelled; every choice carries its content.
- IdeaModel.Idea.PreSave: the schema's `required` validator on the title (`backend/models/Idea.js:13`) runs before the hook and makes `save()` reject a document whose title is empty; validators are not modelled, so the model runs the hook's derivation of `backend/models/Idea.js:253-255` instead. Every method modelled as ending in a save (IdeaModel.Idea.UpdateValidation, UpdateGeneration, RecordExecution, ToggleFavorite, ExecutionModel.Execution.AddTag, RemoveTag) assumes that validation passes.
- IdeaModel.Idea.constructor and UserModel.User.constructor: only the fields the modelled methods read or write are kept.
- Docker.DockerService.CreateExecutionContainer: calls are modelled one at a time. In the source the capacity test (`backend/services/dockerService.js:132`) and the insertion (`:185`) are separated by awaits, so two creations that overlap while four containers are tracked both pass the test and the table reaches six. The five-entry bound stated by the model holds only for creations that do not overlap.
- Rates.RoundedPercent: the percentage is rounded from the exact ratio, whereas the source rounds the double-precision value `(part/whole)*100`. At a tie the two can differ: 23/40·100 is just below 57.5 in double precision, so the source gives 57 where the model gives 58; 57/200 gives 28 against 29. This affects IdeaModel.Idea.SuccessRate, UserModel.User.SuccessRate and MeuService.StatusOf, which use it.
- ApiUsageModel.RecordUsage: `userId`, `method`, `userAgent`, `ipAddress`, `referer` and `error` are copied as they are by the source and are not fields of the model; only the endpoint, status, response time, sizes and metadata are kept.
