/** The User document (backend/models/User.js): execution counters and an
    e-mail address stored lower-cased. */
module UserModel {
  import opened Wrappers
  import opened Strings
  import Rates
  import Tags

  /** The schema's `lowercase` and `trim` setters, which Mongoose runs on
      every assignment to `email` and on the value a query compares it
      with. The two commute, so their order does not matter. */
  function CastEmail(s: string): (r: string)
    ensures IsStoredEmail(r)
    ensures |r| <= |s|
  {
    var t := Trim(s);
    LowerKeepsTrimmed(t);
    ToLower(t)
  }

  /** An address as the setters store it: no whitespace at either end and
      no upper-case ASCII letter. */
  predicate IsStoredEmail(e: string) {
    IsTrimmed(e) && forall i :: 0 <= i < |e| ==> !IsAsciiUpper(e[i])
  }

  /** A stored address is a fixed point of the setters and of
      `toLowerCase`. */
  lemma StoredEmailCastIsNoop(e: string)
    requires IsStoredEmail(e)
    ensures ToLower(e) == e
    ensures CastEmail(e) == e
  {
    assert forall i :: 0 <= i < |e| ==> LowerChar(e[i]) == e[i];
    assert ToLower(e) == e;
    TrimNoop(e);
  }

  /** Lower-casing a query before the setters run changes nothing. */
  lemma CastAfterLower(s: string)
    ensures CastEmail(ToLower(s)) == CastEmail(s)
  {
    TrimToLower(s);
    ToLowerIdempotent(Trim(s));
  }

  class User {
    var email: string
    var totalExecutions: nat
    var successfulExecutions: nat

    /** No more successful executions than executions, and the address as
        the setters store it. */
    ghost predicate Valid()
      reads this
    {
      successfulExecutions <= totalExecutions && IsStoredEmail(email)
    }

    /** A new user; the address goes through the setters. */
    constructor(email: string)
      ensures Valid()
      ensures this.email == CastEmail(email) && totalExecutions == 0 && successfulExecutions == 0
    {
      this.email := CastEmail(email);
      totalExecutions := 0;
      successfulExecutions := 0;
    }

    /** The `successRate` virtual. */
    function SuccessRate(): (r: nat)
      reads this
      ensures totalExecutions == 0 ==> r == 0
      ensures totalExecutions > 0 ==> r == Rates.RoundedPercent(successfulExecutions, totalExecutions)
      ensures Valid() ==> r <= 100
    {
      Rates.SuccessRate(successfulExecutions, totalExecutions)
    }

    /** `updateStats(executionSuccess = false)`: a call without an argument
        counts as a failed execution. */
    method UpdateStats(executionSuccess: bool := false)
      requires Valid()
      modifies this
      ensures Valid()
      ensures totalExecutions == old(totalExecutions) + 1
      ensures successfulExecutions == old(successfulExecutions) + (if executionSuccess then 1 else 0)
      ensures executionSuccess ==> SuccessRate() >= old(SuccessRate())
      ensures !executionSuccess ==> SuccessRate() <= old(SuccessRate())
      ensures email == old(email)
    {
      if executionSuccess {
        Rates.SuccessNeverLowersRate(successfulExecutions, totalExecutions);
        successfulExecutions := successfulExecutions + 1;
      } else {
        Rates.FailureNeverRaisesRate(successfulExecutions, totalExecutions);
      }
      totalExecutions := totalExecutions + 1;
    }

    /** The pre-save hook lower-cases a non-empty address. The assignment
        runs the setters again; on a stored address neither changes
        anything (`StoredEmailCastIsNoop`). */
    method PreSave()
      requires Valid()
      modifies this
      ensures Valid()
      ensures email == ToLower(old(email)) == old(email)
      ensures totalExecutions == old(totalExecutions) && successfulExecutions == old(successfulExecutions)
    {
      StoredEmailCastIsNoop(email);
      if email != [] {
        email := ToLower(email);
      }
    }
  }

  /** `findByEmail(email)`: the query value is lower-cased and then cast by
      the setters, and the first stored address equal to it is found. */
  function FindByEmail(stored: seq<string>, query: string): (r: Option<nat>)
    ensures r.None? <==> CastEmail(query) !in stored
    ensures r.Some? ==> r.value < |stored| && stored[r.value] == CastEmail(query) &&
                        CastEmail(query) !in stored[..r.value]
  {
    var key := CastEmail(ToLower(query));
    CastAfterLower(query);
    var i := Tags.FirstIndex(stored, key);
    if i < |stored| then Some(i) else None
  }

  /** An address saved through the setters is found by every query that
      differs from it only in ASCII letter case and surrounding whitespace. */
  lemma SavedEmailFound(stored: seq<string>, saved: string, query: string)
    requires CastEmail(saved) in stored
    requires ToLower(Trim(query)) == ToLower(Trim(saved))
    ensures FindByEmail(stored, query).Some?
    ensures stored[FindByEmail(stored, query).value] == CastEmail(saved)
  {
  }
}
