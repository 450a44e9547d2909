/** The tag clean-up that the Idea and Execution models run before every
    save: `[...new Set(tags.filter(tag => tag && tag.trim()))]`. */
module Tags {
  import opened Strings

  /** A tag that the filter drops: empty, or whitespace only. */
  predicate IsBlank(tag: string) {
    Trim(tag) == []
  }

  /** Every tag has no whitespace at either end, as the schema's `trim`
      setter stores it. */
  predicate AllTrimmed(tags: seq<string>) {
    forall i :: 0 <= i < |tags| ==> IsTrimmed(tags[i])
  }

  /** The `trim` setter that Mongoose runs on each element of an array
      assigned to a `[{ type: String, trim: true }]` path. */
  function TrimEach(tags: seq<string>): (r: seq<string>)
    ensures |r| == |tags|
    ensures forall i :: 0 <= i < |r| ==> r[i] == Trim(tags[i])
    ensures AllTrimmed(r)
  {
    seq(|tags|, i requires 0 <= i < |tags| => Trim(tags[i]))
  }

  /** A trimmed list passes through the setter unchanged. */
  lemma TrimEachOfTrimmed(tags: seq<string>)
    requires AllTrimmed(tags)
    ensures TrimEach(tags) == tags
  {
    forall i | 0 <= i < |tags|
      ensures Trim(tags[i]) == tags[i]
    {
      TrimNoop(tags[i]);
    }
  }

  lemma AppendTrimmed(tags: seq<string>, tag: string)
    requires AllTrimmed(tags) && IsTrimmed(tag)
    ensures AllTrimmed(tags + [tag])
  {
    var r := tags + [tag];
    assert forall i :: 0 <= i < |tags| ==> r[i] == tags[i];
  }

  lemma RemoveTrimmed(tags: seq<string>, i: nat)
    requires AllTrimmed(tags) && i < |tags|
    ensures AllTrimmed(tags[..i] + tags[i + 1..])
  {
  }

  /** A trimmed tag is blank iff its untrimmed form is. */
  lemma TrimKeepsBlank(tag: string)
    ensures IsBlank(Trim(tag)) <==> IsBlank(tag)
  {
    TrimIdempotent(tag);
  }

  predicate Distinct(s: seq<string>) {
    forall i, j :: 0 <= i < j < |s| ==> s[i] != s[j]
  }

  /** Where `x` first occurs in `s`: `s.indexOf(x)`, with |s| standing
      for "absent". */
  function FirstIndex(s: seq<string>, x: string): (r: nat)
    ensures r <= |s| && x !in s[..r]
    ensures r < |s| <==> x in s
    ensures r < |s| ==> s[r] == x
  {
    if s == [] then 0
    else if s[0] == x then 0
    else
      var r := FirstIndex(s[1..], x);
      assert s[..r + 1] == [s[0]] + s[1..][..r];
      r + 1
  }

  lemma FirstIndexInPrefix(s: seq<string>, n: nat, x: string)
    requires n <= |s| && x in s[..n]
    ensures FirstIndex(s, x) == FirstIndex(s[..n], x)
  {
    var i := FirstIndex(s[..n], x);
    assert s[..n][..i] == s[..i];
  }

  /** Blank tags dropped, duplicates dropped after their first occurrence,
      order of first occurrence kept. */
  function CleanTags(tags: seq<string>): (r: seq<string>)
    ensures Distinct(r)
    ensures forall t :: t in r <==> t in tags && !IsBlank(t)
    ensures forall i, j :: 0 <= i < j < |r| ==> FirstIndex(tags, r[i]) < FirstIndex(tags, r[j])
  {
    if tags == [] then []
    else
      var n := |tags| - 1;
      var r := CleanTags(tags[..n]);
      EarlierTags(tags, r);
      if IsBlank(tags[n]) || tags[n] in r then r
      else
        AppendTag(tags, r);
        r + [tags[n]]
  }

  /** The tags cleaned from all but the last tag keep their positions. */
  lemma EarlierTags(tags: seq<string>, r: seq<string>)
    requires tags != []
    requires forall t :: t in r ==> t in tags[..|tags| - 1]
    ensures forall t :: t in r ==> FirstIndex(tags, t) == FirstIndex(tags[..|tags| - 1], t) < |tags| - 1
    ensures forall t :: t in tags <==> t in tags[..|tags| - 1] || t == tags[|tags| - 1]
  {
    var n := |tags| - 1;
    assert tags == tags[..n] + [tags[n]];
    forall t | t in r
      ensures FirstIndex(tags, t) == FirstIndex(tags[..n], t) < n
    {
      FirstIndexInPrefix(tags, n, t);
    }
  }

  /** A last tag seen for the first time goes at the end. */
  lemma AppendTag(tags: seq<string>, r: seq<string>)
    requires tags != [] && tags[|tags| - 1] !in r
    requires Distinct(r)
    requires forall t :: t in r <==> t in tags[..|tags| - 1] && !IsBlank(t)
    requires !IsBlank(tags[|tags| - 1])
    requires forall t :: t in r ==> FirstIndex(tags, t) < |tags| - 1
    requires forall i, j :: 0 <= i < j < |r| ==> FirstIndex(tags, r[i]) < FirstIndex(tags, r[j])
    ensures var r' := r + [tags[|tags| - 1]];
      && Distinct(r')
      && forall i, j :: 0 <= i < j < |r'| ==> FirstIndex(tags, r'[i]) < FirstIndex(tags, r'[j])
  {
    var n := |tags| - 1;
    var last := tags[n];
    var r' := r + [last];
    assert last !in tags[..n];
    assert FirstIndex(tags, last) == n;
    forall i, j | 0 <= i < j < |r'|
      ensures r'[i] != r'[j] && FirstIndex(tags, r'[i]) < FirstIndex(tags, r'[j])
    {
      assert r'[i] == r[i];
      if j < |r| {
        assert r'[j] == r[j];
      } else {
        assert r'[i] in r;
      }
    }
  }

  /** A list that is already clean is left as it is. */
  lemma {:induction false} CleanTagsOfClean(tags: seq<string>)
    requires Distinct(tags)
    requires forall t :: t in tags ==> !IsBlank(t)
    ensures CleanTags(tags) == tags
  {
    if tags != [] {
      var n := |tags| - 1;
      assert tags == tags[..n] + [tags[n]];
      CleanTagsOfClean(tags[..n]);
    }
  }

  /** Saving twice cleans no more than saving once. */
  lemma CleanTagsIdempotent(tags: seq<string>)
    ensures CleanTags(CleanTags(tags)) == CleanTags(tags)
  {
    CleanTagsOfClean(CleanTags(tags));
  }

  lemma CleanKeepsTrimmed(tags: seq<string>)
    requires AllTrimmed(tags)
    ensures AllTrimmed(CleanTags(tags))
  {
    var c := CleanTags(tags);
    forall i | 0 <= i < |c|
      ensures IsTrimmed(c[i])
    {
      assert c[i] in c;
      var j :| 0 <= j < |tags| && tags[j] == c[i];
    }
  }

  lemma TrimEachKeepsNonBlank(c: seq<string>)
    requires forall t :: t in c ==> !IsBlank(t)
    ensures forall i :: 0 <= i < |TrimEach(c)| ==> !IsBlank(TrimEach(c)[i])
  {
    var r := TrimEach(c);
    forall i | 0 <= i < |r|
      ensures !IsBlank(r[i])
    {
      assert c[i] in c;
      TrimKeepsBlank(c[i]);
    }
  }

  /** The clean-up as a save stores it: cleaned, then cast through the
      `trim` setter. The result is trimmed and has no blank tag; on
      trimmed tags the cast changes nothing, so the result is distinct. */
  lemma CleanThenTrim(tags: seq<string>)
    ensures AllTrimmed(TrimEach(CleanTags(tags)))
    ensures forall i :: 0 <= i < |TrimEach(CleanTags(tags))| ==> !IsBlank(TrimEach(CleanTags(tags))[i])
    ensures AllTrimmed(tags) ==> TrimEach(CleanTags(tags)) == CleanTags(tags)
  {
    var c := CleanTags(tags);
    TrimEachKeepsNonBlank(c);
    if AllTrimmed(tags) {
      CleanKeepsTrimmed(tags);
      TrimEachOfTrimmed(c);
    }
  }

  /** Dropping one element keeps a list distinct. */
  lemma DistinctWithout(s: seq<string>, i: nat)
    requires Distinct(s) && i < |s|
    ensures Distinct(s[..i] + s[i + 1..])
  {
    var r := s[..i] + s[i + 1..];
    forall a, b | 0 <= a < b < |r|
      ensures r[a] != r[b]
    {
      var a' := if a < i then a else a + 1;
      var b' := if b < i then b else b + 1;
      assert r[a] == s[a'] && r[b] == s[b'];
    }
  }

  /** No tag is blank. */
  predicate NoBlank(s: seq<string>) {
    forall t :: t in s ==> !IsBlank(t)
  }

  /** Dropping one element keeps a list free of blank tags. */
  lemma NonBlankWithout(s: seq<string>, i: nat)
    requires i < |s| && NoBlank(s)
    ensures NoBlank(s[..i] + s[i + 1..])
  {
    var r := s[..i] + s[i + 1..];
    forall t | t in r
      ensures t in s
    {
      if t in s[..i] {
        var k :| 0 <= k < i && s[..i][k] == t;
        assert s[k] == t;
      } else {
        assert t in s[i + 1..];
        var k :| 0 <= k < |s| - i - 1 && s[i + 1..][k] == t;
        assert s[i + 1 + k] == t;
      }
    }
  }
}
