/** The input checks of the sandbox execution engine
    (backend/services/dockerService.js): the deny-list on code file names
    and the blocked-substring scan on commands. */
module InputValidator {
  import opened Wrappers
  import opened Strings
  import SecurityPolicy

  /** The five regular expressions of `isSecureFileName`, in order. */
  datatype DangerousPattern =
    | PathTraversal   // /\.\./
    | ShellMetachar   // /[;&|`$(){}\[\]<>]/
    | LeadingHyphen   // /^-/
    | Whitespace      // /\s/
    | ControlChar     // /[\x00-\x1f\x7f-\x9f]/

  const DangerousPatterns: seq<DangerousPattern> :=
    [PathTraversal, ShellMetachar, LeadingHyphen, Whitespace, ControlChar]

  predicate IsShellMetachar(c: char) {
    c in {';', '&', '|', '`', '$', '(', ')', '{', '}', '[', ']', '<', '>'}
  }

  predicate IsControlChar(c: char) {
    c <= '\U{001F}' || ('\U{007F}' <= c <= '\U{009F}')
  }

  /** `pattern.test(fileName)`. */
  predicate Test(p: DangerousPattern, name: string) {
    match p
    case PathTraversal => Contains(name, "..")
    case ShellMetachar => exists i | 0 <= i < |name| :: IsShellMetachar(name[i])
    case LeadingHyphen => |name| > 0 && name[0] == '-'
    case Whitespace => exists i | 0 <= i < |name| :: IsJsWhitespace(name[i])
    case ControlChar => exists i | 0 <= i < |name| :: IsControlChar(name[i])
  }

  /** `!dangerousPatterns.some(pattern => pattern.test(fileName))`. */
  predicate IsSecureFileName(name: string) {
    !exists p | p in DangerousPatterns :: Test(p, name)
  }

  /** A name is refused exactly when it has "..", a leading '-', or a shell
      metacharacter, whitespace or control character anywhere. */
  lemma IsSecureFileNameIff(name: string)
    ensures IsSecureFileName(name) <==>
      && !Contains(name, "..")
      && !(|name| > 0 && name[0] == '-')
      && forall i :: 0 <= i < |name| ==>
           !IsShellMetachar(name[i]) && !IsJsWhitespace(name[i]) && !IsControlChar(name[i])
  {
    assert DangerousPatterns[0] == PathTraversal && DangerousPatterns[1] == ShellMetachar;
    assert DangerousPatterns[2] == LeadingHyphen && DangerousPatterns[3] == Whitespace;
    assert DangerousPatterns[4] == ControlChar;
    assert IsSecureFileName(name) <==>
      !Test(PathTraversal, name) && !Test(ShellMetachar, name) && !Test(LeadingHyphen, name) &&
      !Test(Whitespace, name) && !Test(ControlChar, name);
  }

  /** Being a deny-list, the check lets absolute paths and path separators
      through: only "..", not "/", is refused. */
  lemma AbsolutePathAccepted()
    ensures IsSecureFileName("/etc/passwd")
  {
    var s := "/etc/passwd";
    IsSecureFileNameIff(s);
    forall i | 0 <= i <= |s| - 2
      ensures !OccursAt(s, "..", i)
    {
      assert s[i..i + 2][0] == s[i];
    }
  }

  /** `validateCommand(command, policy)`: the first entry of
      `policy.blockedCommands` (in list order) that occurs in `command` is
      reported as `Failure(entry)`; with no such entry the result is
      `Success(true)`. */
  method ValidateCommand(command: string, policy: SecurityPolicy.Policy) returns (r: Result<bool, string>)
    ensures var blocked := SecurityPolicy.BlockedCommands(policy);
      r.Success? <==> forall k :: 0 <= k < |blocked| ==> !Contains(command, blocked[k])
    ensures r.Success? ==> r.value
    ensures var blocked := SecurityPolicy.BlockedCommands(policy);
      r.Failure? ==>
        exists k :: (0 <= k < |blocked| && blocked[k] == r.error && Contains(command, blocked[k]) &&
                     forall j :: 0 <= j < k ==> !Contains(command, blocked[j]))
  {
    var blocked := SecurityPolicy.BlockedCommands(policy);
    var i := 0;
    while i < |blocked|
      invariant 0 <= i <= |blocked|
      invariant forall j :: 0 <= j < i ==> !Contains(command, blocked[j])
    {
      if Contains(command, blocked[i]) {
        return Failure(blocked[i]);
      }
      i := i + 1;
    }
    return Success(true);
  }

  /** Under the fallback policy every command passes. */
  method FallbackAcceptsEveryCommand(command: string) returns (r: Result<bool, string>)
    ensures r == Success(true)
  {
    r := ValidateCommand(command, SecurityPolicy.LoadSecurityPolicy(None));
  }
}
