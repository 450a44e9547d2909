/** String operations of JavaScript that the backend relies on: `includes`,
    `indexOf`, `replace` with a string pattern, `trim`, `split` on one
    character, `join`, ASCII `toLowerCase` and number-to-string conversion.
    A string is a sequence of Unicode scalar values. */
module Strings {

  // ---------------------------------------------------------------------
  // Substrings
  // ---------------------------------------------------------------------

  /** `sub` occurs in `s` starting at index `i`. */
  predicate OccursAt(s: string, sub: string, i: int) {
    0 <= i && i + |sub| <= |s| && s[i..i + |sub|] == sub
  }

  /** JavaScript's `s.includes(sub)`. */
  predicate Contains(s: string, sub: string) {
    exists i | 0 <= i <= |s| - |sub| :: OccursAt(s, sub, i)
  }

  /** JavaScript's `s.indexOf(sub, from)`: the first occurrence at or after
      `from`, or -1. */
  function IndexOfFrom(s: string, sub: string, from: nat): (r: int)
    ensures r == -1 || (from <= r && OccursAt(s, sub, r))
    ensures r == -1 ==> forall j :: from <= j ==> !OccursAt(s, sub, j)
    ensures r != -1 ==> forall j :: from <= j < r ==> !OccursAt(s, sub, j)
    decreases |s| - from
  {
    if from + |sub| > |s| then -1
    else if s[from..from + |sub|] == sub then from
    else IndexOfFrom(s, sub, from + 1)
  }

  lemma ContainsIffFound(s: string, sub: string)
    ensures Contains(s, sub) <==> IndexOfFrom(s, sub, 0) != -1
  {
    var r := IndexOfFrom(s, sub, 0);
    if r != -1 {
      assert OccursAt(s, sub, r);
    }
  }

  /** A string contains every string spliced into it. */
  lemma ContainsSpliced(a: string, sub: string, b: string)
    ensures Contains(a + sub + b, sub)
  {
    var s := a + sub + b;
    assert s[|a|..|a| + |sub|] == sub;
    assert OccursAt(s, sub, |a|);
  }

  /** Each of the four middle parts of a six-part concatenation occurs in it. */
  lemma ContainsMiddleParts(h: string, b: string, c: string, d: string, e: string, f: string)
    ensures Contains(h + b + c + d + e + f, b)
    ensures Contains(h + b + c + d + e + f, c)
    ensures Contains(h + b + c + d + e + f, d)
    ensures Contains(h + b + c + d + e + f, e)
  {
    var s := h + b + c + d + e + f;
    ContainsSpliced(h, b, c + d + e + f);
    assert s == h + b + (c + d + e + f);
    ContainsSpliced(h + b, c, d + e + f);
    assert s == h + b + c + (d + e + f);
    ContainsSpliced(h + b + c, d, e + f);
    assert s == h + b + c + d + (e + f);
    ContainsSpliced(h + b + c + d, e, f);
  }

  /** An occurrence inside a prefix of `s` is an occurrence in `s`. */
  lemma ContainsOfPrefix(s: string, n: nat, sub: string)
    requires n <= |s|
    requires Contains(s[..n], sub)
    ensures Contains(s, sub)
  {
    var i :| 0 <= i <= n - |sub| && OccursAt(s[..n], sub, i);
    assert s[..n][i..i + |sub|] == s[i..i + |sub|];
    assert OccursAt(s, sub, i);
  }

  lemma ContainsInSuffix(a: string, s: string, sub: string)
    requires Contains(s, sub)
    ensures Contains(a + s, sub)
  {
    var i :| 0 <= i <= |s| - |sub| && OccursAt(s, sub, i);
    assert (a + s)[|a| + i..|a| + i + |sub|] == s[i..i + |sub|];
    assert OccursAt(a + s, sub, |a| + i);
  }

  /** JavaScript's `s.replace(pat, rep)` with a string pattern: only the
      first occurrence is replaced. */
  function ReplaceFirst(s: string, pat: string, rep: string): (r: string)
    ensures !Contains(s, pat) ==> r == s
  {
    var i := IndexOfFrom(s, pat, 0);
    ContainsIffFound(s, pat);
    if i == -1 then s else s[..i] + rep + s[i + |pat|..]
  }

  /** Removing a ".java" suffix with `replace` gives the base name back when
      the base name does not itself contain ".java". */
  lemma {:induction false} ReplaceJavaSuffix(base: string)
    requires !Contains(base, ".java")
    ensures ReplaceFirst(base + ".java", ".java", "") == base
  {
    var s := base + ".java";
    var n := |base|;
    assert OccursAt(s, ".java", n) by {
      assert s[n..n + 5] == ".java";
    }
    // An occurrence before the suffix would either lie inside `base` or
    // straddle the suffix's '.', which ".java" has only at its start.
    forall j | 0 <= j < n
      ensures !OccursAt(s, ".java", j)
    {
      if j + 5 <= n {
        assert s[j..j + 5] == base[j..j + 5];
        assert !OccursAt(base, ".java", j);
      } else {
        var k := n - j;
        assert 1 <= k < 5;
        assert s[j..j + 5][k] == s[n] == '.';
        assert ".java"[k] != '.' by {
          assert k == 1 || k == 2 || k == 3 || k == 4;
        }
        assert s[j..j + 5] != ".java";
      }
    }
    var i := IndexOfFrom(s, ".java", 0);
    assert i == n;
    assert s[..n] == base;
  }

  // ---------------------------------------------------------------------
  // Characters
  // ---------------------------------------------------------------------

  /** JavaScript's `\s`: the WhiteSpace and LineTerminator characters of
      ECMAScript, which are also what `trim` removes. */
  predicate IsJsWhitespace(c: char) {
    c == '\t' || c == '\n' || c == '\U{000B}' || c == '\U{000C}' || c == '\r' ||
    c == ' ' || c == '\U{00A0}' || c == '\U{1680}' ||
    ('\U{2000}' <= c <= '\U{200A}') ||
    c == '\U{2028}' || c == '\U{2029}' || c == '\U{202F}' || c == '\U{205F}' ||
    c == '\U{3000}' || c == '\U{FEFF}'
  }

  predicate IsAsciiUpper(c: char) { 'A' <= c <= 'Z' }

  /** JavaScript's `\w`. */
  predicate IsWordChar(c: char) {
    ('a' <= c <= 'z') || ('A' <= c <= 'Z') || ('0' <= c <= '9') || c == '_'
  }

  /** `[a-zA-Z0-9]`. */
  predicate IsAsciiAlnum(c: char) {
    ('a' <= c <= 'z') || ('A' <= c <= 'Z') || ('0' <= c <= '9')
  }

  function LowerChar(c: char): (r: char)
    ensures !IsAsciiUpper(r)
    ensures IsAsciiAlnum(c) ==> IsAsciiAlnum(r)
  {
    if IsAsciiUpper(c) then (c as int + 32) as char else c
  }

  /** `toLowerCase`, for the ASCII letters. */
  function ToLower(s: string): (r: string)
    ensures |r| == |s|
    ensures forall i :: 0 <= i < |r| ==> r[i] == LowerChar(s[i])
  {
    seq(|s|, i requires 0 <= i < |s| => LowerChar(s[i]))
  }

  lemma ToLowerIdempotent(s: string)
    ensures ToLower(ToLower(s)) == ToLower(s)
  {
  }

  /** A lower-cased string never contains a string with an upper-case
      letter in it. */
  lemma {:induction false} LowerNeverContainsUpper(s: string, sub: string, k: nat)
    requires k < |sub| && IsAsciiUpper(sub[k])
    ensures !Contains(ToLower(s), sub)
  {
    var t := ToLower(s);
    forall i | 0 <= i <= |t| - |sub|
      ensures !OccursAt(t, sub, i)
    {
      assert t[i..i + |sub|][k] == t[i + k];
    }
  }

  // ---------------------------------------------------------------------
  // trim
  // ---------------------------------------------------------------------

  predicate AllWhitespace(s: string) {
    forall i :: 0 <= i < |s| ==> IsJsWhitespace(s[i])
  }

  function TrimStart(s: string): (r: string)
    ensures |r| <= |s| && r == s[|s| - |r|..]
    ensures r == [] || !IsJsWhitespace(r[0])
    ensures AllWhitespace(s[..|s| - |r|])
  {
    if s != [] && IsJsWhitespace(s[0]) then
      var r := TrimStart(s[1..]);
      assert s[1..][..|s| - 1 - |r|] == s[1..|s| - |r|];
      assert s[..|s| - |r|] == [s[0]] + s[1..|s| - |r|];
      r
    else s
  }

  function TrimEnd(s: string): (r: string)
    ensures |r| <= |s| && r == s[..|r|]
    ensures r == [] || !IsJsWhitespace(r[|r| - 1])
    ensures AllWhitespace(s[|r|..])
  {
    if s != [] && IsJsWhitespace(s[|s| - 1]) then
      var r := TrimEnd(s[..|s| - 1]);
      assert s[..|s| - 1][..|r|] == s[..|r|];
      assert s[|r|..] == s[..|s| - 1][|r|..] + [s[|s| - 1]];
      r
    else s
  }

  /** No whitespace at either end. */
  predicate IsTrimmed(s: string) {
    s == [] || (!IsJsWhitespace(s[0]) && !IsJsWhitespace(s[|s| - 1]))
  }

  /** JavaScript's `s.trim()`. */
  function Trim(s: string): (r: string)
    ensures |r| <= |s|
    ensures r == [] || (!IsJsWhitespace(r[0]) && !IsJsWhitespace(r[|r| - 1]))
    ensures r == [] <==> AllWhitespace(s)
  {
    var a := TrimStart(s);
    var r := TrimEnd(a);
    assert r != [] ==> r[0] == a[0];
    assert r == [] ==> s == s[..|s| - |a|] + a;
    r
  }

  lemma TrimIsTrimmed(s: string)
    ensures IsTrimmed(Trim(s))
  {
  }

  /** A string with no whitespace at either end is its own trim. */
  lemma TrimNoop(s: string)
    requires s == [] || (!IsJsWhitespace(s[0]) && !IsJsWhitespace(s[|s| - 1]))
    ensures Trim(s) == s
  {
  }

  /** Trimming a second time removes nothing more. */
  lemma TrimIdempotent(s: string)
    ensures Trim(Trim(s)) == Trim(s)
  {
    TrimNoop(Trim(s));
  }

  /** Lower-casing turns no character into whitespace or out of it. */
  lemma LowerCharWhitespace(c: char)
    ensures IsJsWhitespace(LowerChar(c)) <==> IsJsWhitespace(c)
  {
  }

  lemma {:induction false} TrimStartToLower(s: string)
    ensures TrimStart(ToLower(s)) == ToLower(TrimStart(s))
  {
    if s != [] {
      var l := ToLower(s);
      LowerCharWhitespace(s[0]);
      assert l[0] == LowerChar(s[0]);
      if IsJsWhitespace(s[0]) {
        assert l[1..] == ToLower(s[1..]);
        TrimStartToLower(s[1..]);
        assert TrimStart(l) == TrimStart(l[1..]);
      } else {
        assert TrimStart(l) == l;
      }
    }
  }

  lemma {:induction false} TrimEndToLower(s: string)
    ensures TrimEnd(ToLower(s)) == ToLower(TrimEnd(s))
  {
    if s != [] {
      var l := ToLower(s);
      var n := |s| - 1;
      LowerCharWhitespace(s[n]);
      assert l[n] == LowerChar(s[n]);
      if IsJsWhitespace(s[n]) {
        assert l[..n] == ToLower(s[..n]);
        TrimEndToLower(s[..n]);
        assert TrimEnd(l) == TrimEnd(l[..n]);
      } else {
        assert TrimEnd(l) == l;
      }
    }
  }

  lemma LowerKeepsTrimmed(s: string)
    requires IsTrimmed(s)
    ensures IsTrimmed(ToLower(s))
  {
    if s != [] {
      LowerCharWhitespace(s[0]);
      LowerCharWhitespace(s[|s| - 1]);
    }
  }

  /** Lower-casing changes no whitespace, so it commutes with `trim`. */
  lemma TrimToLower(s: string)
    ensures Trim(ToLower(s)) == ToLower(Trim(s))
  {
    TrimStartToLower(s);
    TrimEndToLower(TrimStart(s));
  }

  // ---------------------------------------------------------------------
  // split and join on one separator character
  // ---------------------------------------------------------------------

  function CountChar(s: string, c: char): nat {
    if s == [] then 0 else (if s[0] == c then 1 else 0) + CountChar(s[1..], c)
  }

  /** Pieces glued back together with the separator. */
  function JoinChar(parts: seq<string>, sep: char): string
    requires |parts| >= 1
  {
    if |parts| == 1 then parts[0] else parts[0] + [sep] + JoinChar(parts[1..], sep)
  }

  /** JavaScript's `s.split(sep)` for a one-character separator. */
  function Split(s: string, sep: char): (r: seq<string>)
    ensures |r| == CountChar(s, sep) + 1
    ensures forall k :: 0 <= k < |r| ==> sep !in r[k]
    ensures JoinChar(r, sep) == s
  {
    if s == [] then [[]]
    else
      var rest := Split(s[1..], sep);
      if s[0] == sep then
        assert s == [sep] + s[1..];
        [[]] + rest
      else
        var r := [[s[0]] + rest[0]] + rest[1..];
        assert r[1..] == rest[1..];
        assert s == [s[0]] + s[1..];
        r
  }

  /** In `x + [sep] + y` with `x` free of `sep`, the first `sep` is at
      index `|x|`. */
  lemma FirstSeparator(x: string, y: string, sep: char)
    requires sep !in x
    ensures (x + [sep] + y)[|x|] == sep
    ensures forall i :: 0 <= i < |x| ==> (x + [sep] + y)[i] != sep
  {
    forall i | 0 <= i < |x|
      ensures (x + [sep] + y)[i] != sep
    {
      assert (x + [sep] + y)[i] == x[i];
    }
  }

  /** Gluing is injective on pieces free of the separator: the first
      separator in the glued text marks where the first piece ends. */
  lemma {:induction false} JoinCharInjective(a: seq<string>, b: seq<string>, sep: char)
    requires |a| >= 1 && |b| >= 1
    requires forall k :: 0 <= k < |a| ==> sep !in a[k]
    requires forall k :: 0 <= k < |b| ==> sep !in b[k]
    requires JoinChar(a, sep) == JoinChar(b, sep)
    ensures a == b
  {
    var s := JoinChar(a, sep);
    if |a| == 1 && |b| == 1 {
    } else if |a| == 1 {
      assert false;
    } else if |b| == 1 {
      assert false;
    } else {
      var a0, b0 := a[0], b[0];
      FirstSeparator(a0, JoinChar(a[1..], sep), sep);
      FirstSeparator(b0, JoinChar(b[1..], sep), sep);
      assert |a0| == |b0|;
      assert a0 == s[..|a0|] == b0;
      assert JoinChar(a[1..], sep) == s[|a0| + 1..] == JoinChar(b[1..], sep);
      JoinCharInjective(a[1..], b[1..], sep);
      assert a == [a0] + a[1..] && b == [b0] + b[1..];
    }
  }

  /** Splitting glued pieces gives the pieces back when none of them
      contains the separator. */
  lemma SplitJoinChar(parts: seq<string>, sep: char)
    requires |parts| >= 1
    requires forall k :: 0 <= k < |parts| ==> sep !in parts[k]
    ensures Split(JoinChar(parts, sep), sep) == parts
  {
    JoinCharInjective(Split(JoinChar(parts, sep), sep), parts, sep);
  }

  /** JavaScript's `parts.join(sep)` for a string separator. */
  function Join(parts: seq<string>, sep: string): string {
    if parts == [] then []
    else if |parts| == 1 then parts[0]
    else parts[0] + sep + Join(parts[1..], sep)
  }

  // ---------------------------------------------------------------------
  // Numbers as decimal text
  // ---------------------------------------------------------------------

  predicate IsDigit(c: char) { '0' <= c <= '9' }

  function DigitChar(d: nat): (c: char)
    requires d < 10
    ensures IsDigit(c)
  {
    ('0' as int + d) as char
  }

  /** `String(n)` for a natural number. */
  function NatToString(n: nat): (r: string)
    ensures |r| >= 1
    ensures forall i :: 0 <= i < |r| ==> IsDigit(r[i])
  {
    if n < 10 then [DigitChar(n)] else NatToString(n / 10) + [DigitChar(n % 10)]
  }

  /** `String(i)` for an integer. */
  function IntToString(i: int): string {
    if i < 0 then "-" + NatToString(-i) else NatToString(i)
  }

  /** Reads a decimal text back. */
  function ParseNat(s: string): nat {
    if s == [] then 0
    else ParseNat(s[..|s| - 1]) * 10 +
         (var c := s[|s| - 1]; if IsDigit(c) then c as int - '0' as int else 0)
  }

  lemma {:induction false} ParseNatToString(n: nat)
    ensures ParseNat(NatToString(n)) == n
  {
    if n >= 10 {
      var s := NatToString(n);
      assert s[..|s| - 1] == NatToString(n / 10);
      ParseNatToString(n / 10);
    }
  }
}
