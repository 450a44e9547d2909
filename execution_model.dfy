/** The Execution document (backend/models/Execution.js): one run of
    generated code, with its tag list and derived summaries. */
module ExecutionModel {
  import opened Wrappers
  import opened Strings
  import Rates
  import Tags

  /** The `statusDescription` virtual. A missing or empty `error.type` is
      `None`/"" alike, since the source tests it for truthiness. */
  function StatusDescription(success: bool, errorType: Option<string>): (r: string)
    ensures success ==> r == "执行成功"
    ensures !success && errorType.Some? && errorType.value != [] ==> r == "执行失败: " + errorType.value
    ensures !success && (errorType.None? || errorType.value == []) ==> r == "执行失败"
  {
    if success then "执行成功"
    else if errorType.Some? && errorType.value != [] then "执行失败: " + errorType.value
    else "执行失败"
  }

  /** The description tells success from failure, and a failure's type can
      be read back from it. */
  lemma StatusDescriptionDistinguishes(s1: bool, e1: Option<string>, s2: bool, e2: Option<string>)
    requires StatusDescription(s1, e1) == StatusDescription(s2, e2)
    ensures s1 == s2
    ensures !s1 && e1.Some? && e1.value != [] ==> e2.Some? && e2.value == e1.value
  {
    var d := StatusDescription(s1, e1);
    var p := "执行失败: ";
    var typed1 := !s1 && e1.Some? && e1.value != [];
    var typed2 := !s2 && e2.Some? && e2.value != [];
    if typed1 {
      assert |d| > 4 && d[..|p|] == p;
    }
    if typed2 {
      assert |d| > 4 && d[..|p|] == p;
    }
    if typed1 && typed2 {
      assert e1.value == d[|p|..] == e2.value;
    }
    if s1 || s2 {
      assert d[2] == '成';
    }
  }

  /** The `performanceGrade` virtual on the execution time in ms. */
  function PerformanceGrade(time: int): (g: Rates.Grade)
    ensures g == Rates.A <==> time < 100
    ensures g == Rates.B <==> 100 <= time < 500
    ensures g == Rates.C <==> 500 <= time < 1000
    ensures g == Rates.D <==> 1000 <= time < 5000
    ensures g == Rates.F <==> 5000 <= time
  {
    if time < 100 then Rates.A
    else if time < 500 then Rates.B
    else if time < 1000 then Rates.C
    else if time < 5000 then Rates.D
    else Rates.F
  }

  /** A slower run never gets a better grade. */
  lemma PerformanceGradeMonotone(t1: int, t2: int)
    requires t1 <= t2
    ensures Rates.Rank(PerformanceGrade(t1)) <= Rates.Rank(PerformanceGrade(t2))
  {
  }

  /** The unit `getFormattedDuration` picks. Only the millisecond case is
      rendered; the other two carry the raw value, whose `toFixed(2)`
      rendering is floating point. */
  datatype Duration = Millis(text: string) | Seconds(ms: int) | Minutes(ms: int)

  function FormattedDuration(ms: int): (d: Duration)
    ensures d.Millis? <==> ms < 1000
    ensures d.Seconds? <==> 1000 <= ms < 60000
    ensures d.Minutes? <==> 60000 <= ms
    ensures d.Millis? ==> |d.text| >= 3 && d.text[|d.text| - 2..] == "ms"
    ensures d.Millis? && ms >= 0 ==> ParseNat(d.text[..|d.text| - 2]) == ms
  {
    if ms < 1000 then
      var digits := IntToString(ms);
      assert (digits + "ms")[..|digits|] == digits;
      DigitsOfNonNegative(ms);
      Millis(digits + "ms")
    else if ms < 60000 then Seconds(ms)
    else Minutes(ms)
  }

  lemma DigitsOfNonNegative(n: int)
    ensures n >= 0 ==> ParseNat(IntToString(n)) == n
  {
    if n >= 0 { ParseNatToString(n); }
  }

  /** `tags.splice(tags.indexOf(tag), 1)` when the tag is present. */
  function RemoveFirst(tags: seq<string>, tag: string): (r: seq<string>)
    ensures tag !in tags ==> r == tags
    ensures tag in tags ==>
      var i := Tags.FirstIndex(tags, tag);
      r == tags[..i] + tags[i + 1..] && multiset(r) == multiset(tags) - multiset{tag}
  {
    if tag in tags then
      var i := Tags.FirstIndex(tags, tag);
      assert tags == tags[..i] + [tag] + tags[i + 1..];
      tags[..i] + tags[i + 1..]
    else tags
  }

  /** A saved tag list: no blank tag and no tag twice. */
  predicate IsClean(tags: seq<string>) {
    Tags.Distinct(tags) && Tags.NoBlank(tags)
  }

  /** What `addTag` followed by its save stores on a clean list: the trimmed
      tag is appended unless it is blank or already present. So `addTag(" ")`
      and, on a list holding "a", `addTag(" a ")` change nothing. */
  lemma AddTagOutcome(tags: seq<string>, tag: string)
    requires IsClean(tags)
    ensures Tags.CleanTags(tags + [Trim(tag)]) ==
      if Tags.IsBlank(tag) || Trim(tag) in tags then tags else tags + [Trim(tag)]
  {
    var s := tags + [Trim(tag)];
    assert s[..|tags|] == tags;
    Tags.CleanTagsOfClean(tags);
    Tags.TrimKeepsBlank(tag);
  }

  /** Removing a tag from a clean list and saving leaves the rest as it is. */
  lemma RemoveFromClean(tags: seq<string>, tag: string)
    requires IsClean(tags)
    ensures IsClean(RemoveFirst(tags, tag))
    ensures Tags.CleanTags(RemoveFirst(tags, tag)) == RemoveFirst(tags, tag)
  {
    var r := RemoveFirst(tags, tag);
    if tag in tags {
      var i := Tags.FirstIndex(tags, tag);
      assert r == tags[..i] + tags[i + 1..];
      Tags.DistinctWithout(tags, i);
      Tags.NonBlankWithout(tags, i);
    }
    Tags.CleanTagsOfClean(r);
  }

  /** Adding a new tag and then removing it, each with its save, gives back
      a clean list. */
  lemma AddThenRemove(tags: seq<string>, tag: string)
    requires IsClean(tags) && !Tags.IsBlank(tag) && Trim(tag) == tag && tag !in tags
    ensures Tags.CleanTags(RemoveFirst(Tags.CleanTags(tags + [tag]), tag)) == tags
  {
    AddTagOutcome(tags, tag);
    var s := tags + [tag];
    assert Tags.CleanTags(s) == s;
    var i := Tags.FirstIndex(s, tag);
    assert i == |tags|;
    assert RemoveFirst(s, tag) == s[..i] + s[i + 1..] == tags;
    Tags.CleanTagsOfClean(tags);
  }

  class Execution {
    var success: bool
    var errorType: Option<string>
    var executionTime: int
    var tags: seq<string>

    /** The tags are stored through the schema's `trim` setter. */
    ghost predicate Valid()
      reads this
    {
      Tags.AllTrimmed(tags)
    }

    /** A new document: the tags are cast through the `trim` setter. */
    constructor(success: bool, errorType: Option<string>, executionTime: int, tags: seq<string>)
      ensures Valid()
      ensures this.success == success && this.errorType == errorType
      ensures this.executionTime == executionTime && this.tags == Tags.TrimEach(tags)
    {
      this.success := success;
      this.errorType := errorType;
      this.executionTime := executionTime;
      this.tags := Tags.TrimEach(tags);
    }

    /** `addTag(tag)`: a non-empty tag not present as given is pushed, which
        stores its trim, and the document is saved, which runs the pre-save
        clean-up. Otherwise nothing is saved and nothing changes. */
    method AddTag(tag: string)
      modifies this
      ensures tag != [] && tag !in old(tags) ==> tags == Tags.TrimEach(Tags.CleanTags(old(tags) + [Trim(tag)]))
      ensures tag != [] && tag !in old(tags) && old(Valid()) ==> tags == Tags.CleanTags(old(tags) + [Trim(tag)])
      ensures tag == [] || tag in old(tags) ==> tags == old(tags)
      ensures old(Valid()) ==> Valid()
      ensures success == old(success) && errorType == old(errorType) && executionTime == old(executionTime)
    {
      if tag != [] && tag !in tags {
        TrimIsTrimmed(tag);
        if Valid() {
          Tags.AppendTrimmed(tags, Trim(tag));
        }
        tags := tags + [Trim(tag)];
        PreSave();
      }
    }

    /** `removeTag(tag)`: the first occurrence is removed and the document
        saved, which runs the pre-save clean-up; an absent tag changes
        nothing. */
    method RemoveTag(tag: string)
      modifies this
      ensures tag in old(tags) ==> tags == Tags.TrimEach(Tags.CleanTags(RemoveFirst(old(tags), tag)))
      ensures tag in old(tags) && old(Valid()) ==> tags == Tags.CleanTags(RemoveFirst(old(tags), tag))
      ensures tag !in old(tags) ==> tags == old(tags)
      ensures old(Valid()) ==> Valid()
      ensures success == old(success) && errorType == old(errorType) && executionTime == old(executionTime)
    {
      if tag in tags {
        var index := Tags.FirstIndex(tags, tag);
        if Valid() {
          Tags.RemoveTrimmed(tags, index);
        }
        tags := tags[..index] + tags[index + 1..];
        PreSave();
      }
    }

    /** The pre-save tag clean-up; the assignment runs the `trim` setter
        again. On stored (trimmed) tags that changes nothing more. */
    method PreSave()
      modifies this
      ensures tags == Tags.TrimEach(Tags.CleanTags(old(tags)))
      ensures forall i :: 0 <= i < |tags| ==> !Tags.IsBlank(tags[i])
      ensures old(Valid()) ==> tags == Tags.CleanTags(old(tags)) && Tags.Distinct(tags)
      ensures Valid()
      ensures success == old(success) && errorType == old(errorType) && executionTime == old(executionTime)
    {
      Tags.CleanThenTrim(tags);
      if |tags| > 0 {
        tags := Tags.TrimEach(Tags.CleanTags(tags));
      }
    }

    function Description(): (r: string)
      reads this
      ensures r == StatusDescription(success, errorType)
      ensures success <==> r == "执行成功"
    {
      StatusDescription(success, errorType)
    }
  }
}
