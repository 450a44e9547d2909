/** The Idea document (backend/models/Idea.js): a submitted idea with its
    validation, generation and execution bookkeeping. Dates are integer
    millisecond timestamps passed in by the caller; `null` is `None`. */
module IdeaModel {
  import opened Wrappers
  import opened Strings
  import Rates
  import Tags

  /** `execution.lastResult`. */
  datatype LastResult = LastResult(success: bool, output: string, error: string, executionTime: int)

  const TitleLength: nat := 50

  /** The title the pre-save hook derives from a description: its first 50
      characters, followed by "..." exactly when something was cut off. */
  function AutoTitle(description: string): (t: string)
    ensures |description| <= TitleLength ==> t == description
    ensures |t| <= TitleLength + 3
    ensures |t| > TitleLength <==> |description| > TitleLength
    ensures |description| > TitleLength ==> t[..TitleLength] == description[..TitleLength] && t[TitleLength..] == "..."
  {
    if |description| > TitleLength then description[..TitleLength] + "..." else description
  }

  /** The title the pre-save hook leaves: an empty title is derived from a
      non-empty description, any other is kept. */
  function HookTitle(title: string, description: string): (t: string)
    ensures title != [] ==> t == title
    ensures title == [] ==> t == AutoTitle(description)
    ensures description != [] ==> t != []
  {
    if title == [] && description != [] then AutoTitle(description) else title
  }

  /** The title derived from a trimmed description is trimmed. */
  lemma AutoTitleTrimmed(description: string)
    requires IsTrimmed(description)
    ensures IsTrimmed(AutoTitle(description))
  {
    var t := AutoTitle(description);
    if |description| > TitleLength {
      assert t[0] == description[0];
      assert t[|t| - 1] == '.';
    }
  }

  /** A stored description is trimmed, so the `trim` setter that runs when
      the pre-save hook assigns the derived title changes nothing. */
  lemma DerivedTitleNeedsNoTrim(description: string)
    requires IsTrimmed(description)
    ensures Trim(AutoTitle(description)) == AutoTitle(description)
  {
    AutoTitleTrimmed(description);
    TrimNoop(AutoTitle(description));
  }

  /** The `processingTime` virtual: generation time minus validation time,
      `null` unless both are set. */
  function ProcessingTime(generatedAt: Option<int>, validatedAt: Option<int>): (r: Option<int>)
    ensures r.Some? <==> generatedAt.Some? && validatedAt.Some?
    ensures r.Some? ==> validatedAt.value + r.value == generatedAt.value
  {
    if generatedAt.Some? && validatedAt.Some? then Some(generatedAt.value - validatedAt.value) else None
  }

  /** The `validation` sub-document. */
  datatype Validation = Validation(
    isValid: Option<bool>,
    confidence: Option<int>,
    feedback: Option<string>,
    validatedAt: Option<int>)

  /** The `generation` sub-document. */
  datatype Generation = Generation(
    generatedCode: Option<string>,
    explanation: Option<string>,
    generatedAt: Option<int>,
    model: Option<string>)

  /** The `execution` sub-document. */
  datatype ExecutionStats = ExecutionStats(
    lastExecutedAt: Option<int>,
    executionCount: nat,
    successCount: nat,
    lastResult: Option<LastResult>)

  class Idea {
    var title: string
    var description: string
    var tags: seq<string>
    var status: string
    var isFavorite: bool
    var validation: Validation
    var generation: Generation
    var execution: ExecutionStats

    /** No more successes than executions, and the title, description and
        tags as the schema's `trim` setters store them. */
    ghost predicate Valid()
      reads this
    {
      execution.successCount <= execution.executionCount &&
      IsTrimmed(title) && IsTrimmed(description) && Tags.AllTrimmed(tags)
    }

    /** A new document with the schema's defaults; the `trim` setters cast
        the title, the description and each tag. */
    constructor(title: string, description: string, tags: seq<string>)
      ensures Valid()
      ensures this.title == Trim(title) && this.description == Trim(description)
      ensures this.tags == Tags.TrimEach(tags)
      ensures status == "pending" && !isFavorite
      ensures validation == Validation(None, None, None, None)
      ensures generation == Generation(None, None, None, None)
      ensures execution == ExecutionStats(None, 0, 0, None)
    {
      TrimIsTrimmed(title);
      TrimIsTrimmed(description);
      this.title := Trim(title);
      this.description := Trim(description);
      this.tags := Tags.TrimEach(tags);
      status := "pending";
      isFavorite := false;
      validation := Validation(None, None, None, None);
      generation := Generation(None, None, None, None);
      execution := ExecutionStats(None, 0, 0, None);
    }

    /** The `successRate` virtual. */
    function SuccessRate(): (r: nat)
      reads this
      ensures execution.executionCount == 0 ==> r == 0
      ensures execution.executionCount > 0 ==>
        r == Rates.RoundedPercent(execution.successCount, execution.executionCount)
      ensures Valid() ==> r <= 100
    {
      Rates.SuccessRate(execution.successCount, execution.executionCount)
    }

    /** `updateValidation(isValid, confidence, feedback)`, then the save,
        which runs the pre-save hook. */
    method UpdateValidation(valid: bool, score: int, text: string, now: int)
      requires Valid()
      modifies this
      ensures Valid()
      ensures validation == Validation(Some(valid), Some(score), Some(text), Some(now))
      ensures title == HookTitle(old(title), old(description)) && tags == Tags.CleanTags(old(tags))
      ensures description == old(description) && status == old(status) && isFavorite == old(isFavorite)
      ensures generation == old(generation) && execution == old(execution)
    {
      validation := Validation(Some(valid), Some(score), Some(text), Some(now));
      PreSave();
    }

    /** `updateGeneration(code, explanation, model)`: also marks the idea
        completed, after which a validated idea has a processing time; then
        the save, which runs the pre-save hook. */
    method UpdateGeneration(code: string, text: string, modelName: string, now: int)
      requires Valid()
      modifies this
      ensures Valid()
      ensures generation == Generation(Some(code), Some(text), Some(now), Some(modelName))
      ensures status == "completed"
      ensures ProcessingTime(generation.generatedAt, validation.validatedAt).Some? <==> validation.validatedAt.Some?
      ensures title == HookTitle(old(title), old(description)) && tags == Tags.CleanTags(old(tags))
      ensures description == old(description) && isFavorite == old(isFavorite)
      ensures validation == old(validation) && execution == old(execution)
    {
      generation := Generation(Some(code), Some(text), Some(now), Some(modelName));
      status := "completed";
      PreSave();
    }

    /** `recordExecution(success, output, error, executionTime)`, then the
        save, which runs the pre-save hook. */
    method RecordExecution(success: bool, output: string, error: string, executionTime: int, now: int)
      requires Valid()
      modifies this
      ensures Valid()
      ensures execution == ExecutionStats(
        Some(now),
        old(execution.executionCount) + 1,
        old(execution.successCount) + (if success then 1 else 0),
        Some(LastResult(success, output, error, executionTime)))
      ensures success ==> SuccessRate() >= old(SuccessRate())
      ensures !success ==> SuccessRate() <= old(SuccessRate())
      ensures title == HookTitle(old(title), old(description)) && tags == Tags.CleanTags(old(tags))
      ensures description == old(description) && status == old(status) && isFavorite == old(isFavorite)
      ensures validation == old(validation) && generation == old(generation)
    {
      var successes := execution.successCount;
      if success {
        Rates.SuccessNeverLowersRate(successes, execution.executionCount);
        successes := successes + 1;
      } else {
        Rates.FailureNeverRaisesRate(successes, execution.executionCount);
      }
      execution := ExecutionStats(
        Some(now),
        execution.executionCount + 1,
        successes,
        Some(LastResult(success, output, error, executionTime)));
      ghost var rate := SuccessRate();
      assert success ==> rate >= old(SuccessRate());
      assert !success ==> rate <= old(SuccessRate());
      PreSave();
      assert SuccessRate() == rate;
    }

    /** `toggleFavorite()`: flips the flag, so two calls restore it; then
        the save, which runs the pre-save hook. */
    method ToggleFavorite()
      requires Valid()
      modifies this
      ensures Valid()
      ensures isFavorite == !old(isFavorite)
      ensures title == HookTitle(old(title), old(description)) && tags == Tags.CleanTags(old(tags))
      ensures description == old(description) && status == old(status)
      ensures validation == old(validation) && generation == old(generation) && execution == old(execution)
    {
      isFavorite := !isFavorite;
      PreSave();
    }

    /** The pre-save hook: an empty title is derived from a non-empty
        description, and the tags are cleaned. Both assignments run the
        `trim` setters again, which change nothing on stored values
        (`DerivedTitleNeedsNoTrim`, `Tags.CleanThenTrim`). */
    method PreSave()
      requires Valid()
      modifies this
      ensures Valid()
      ensures title == HookTitle(old(title), old(description))
      ensures description != [] ==> title != []
      ensures tags == Tags.CleanTags(old(tags)) == Tags.TrimEach(Tags.CleanTags(old(tags)))
      ensures Tags.Distinct(tags) && forall t :: t in tags ==> !Tags.IsBlank(t)
      ensures description == old(description) && status == old(status) && isFavorite == old(isFavorite)
      ensures validation == old(validation) && generation == old(generation) && execution == old(execution)
    {
      if title == [] && description != [] {
        AutoTitleTrimmed(description);
        title := AutoTitle(description);
      }
      Tags.CleanThenTrim(tags);
      Tags.CleanKeepsTrimmed(tags);
      if |tags| > 0 {
        tags := Tags.CleanTags(tags);
      }
    }
  }

  /** A second save changes nothing: the derived title is never empty, so
      it is not derived again, and clean tags stay as they are. */
  lemma PreSaveStable(title: string, description: string, tags: seq<string>)
    ensures HookTitle(HookTitle(title, description), description) == HookTitle(title, description)
    ensures Tags.CleanTags(Tags.CleanTags(tags)) == Tags.CleanTags(tags)
  {
    Tags.CleanTagsIdempotent(tags);
  }
}
