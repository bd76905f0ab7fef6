/** The .NET string operations the conversion pipeline relies on:
    `char.IsWhiteSpace`, `string.IsNullOrWhiteSpace`, `ToUpperInvariant`
    (on ASCII letters), `OrdinalIgnoreCase` equality, `Trim`, `Split(char)`
    and `Split(char, RemoveEmptyEntries)`. */
module Text {
  import opened Wrappers

  /** `char.IsWhiteSpace`: the characters Unicode classifies as White_Space. */
  predicate IsWhiteSpace(c: char) {
    || c == ' '
    || ('\t' <= c <= '\r')
    || c == '\U{0085}'
    || c == '\U{00A0}'
    || c == '\U{1680}'
    || ('\U{2000}' <= c <= '\U{200A}')
    || c == '\U{2028}'
    || c == '\U{2029}'
    || c == '\U{202F}'
    || c == '\U{205F}'
    || c == '\U{3000}'
  }

  /** `string.IsNullOrWhiteSpace` of a non-null string; true of "". */
  predicate AllWhiteSpace(s: string) {
    forall i :: 0 <= i < |s| ==> IsWhiteSpace(s[i])
  }

  /** `string.IsNullOrWhiteSpace` of a nullable string. */
  predicate NullOrWhiteSpace(s: Option<string>) {
    s.None? || AllWhiteSpace(s.value)
  }

  predicate IsAsciiLower(c: char) {
    'a' <= c <= 'z'
  }

  predicate IsAsciiUpper(c: char) {
    'A' <= c <= 'Z'
  }

  /** `char.ToUpperInvariant`, restricted to the ASCII letters. */
  function ToUpperChar(c: char): char {
    if IsAsciiLower(c) then (c as int - 32) as char else c
  }

  /** `string.ToUpperInvariant`, letter by letter. */
  function Upper(s: string): (u: string)
    ensures |u| == |s|
    ensures forall i :: 0 <= i < |s| ==> u[i] == ToUpperChar(s[i])
  {
    if |s| == 0 then [] else [ToUpperChar(s[0])] + Upper(s[1..])
  }

  /** A string that upper-casing leaves as it is. */
  predicate IsUpper(s: string) {
    Upper(s) == s
  }

  /** `a.Equals(b, StringComparison.OrdinalIgnoreCase)`. */
  predicate EqualsIgnoreCase(a: string, b: string) {
    Upper(a) == Upper(b)
  }

  lemma UpperIdempotent(s: string)
    ensures IsUpper(Upper(s))
  {
    var u := Upper(s);
    assert forall i :: 0 <= i < |u| ==> Upper(u)[i] == u[i];
  }

  /** Upper-casing never turns a non-space into a space or back. */
  lemma UpperKeepsWhiteSpace(s: string)
    ensures AllWhiteSpace(Upper(s)) <==> AllWhiteSpace(s)
    ensures |s| > 0 ==> (IsWhiteSpace(Upper(s)[0]) <==> IsWhiteSpace(s[0]))
    ensures |s| > 0 ==> (IsWhiteSpace(Upper(s)[|s| - 1]) <==> IsWhiteSpace(s[|s| - 1]))
  {
    forall i | 0 <= i < |s|
      ensures IsWhiteSpace(Upper(s)[i]) <==> IsWhiteSpace(s[i])
    {
      UpperCharKeepsWhiteSpace(s[i]);
    }
  }

  lemma UpperCharKeepsWhiteSpace(c: char)
    ensures IsWhiteSpace(ToUpperChar(c)) <==> IsWhiteSpace(c)
  {
    if IsAsciiLower(c) {
      assert 'A' <= ToUpperChar(c) <= 'Z';
    }
  }

  /** A character that is not a letter is found in the upper-cased string
      exactly where it was in the original. */
  lemma UpperKeepsSeparator(s: string, sep: char)
    requires !IsAsciiLower(sep) && !IsAsciiUpper(sep)
    ensures sep in Upper(s) <==> sep in s
  {
    if sep in s {
      var i :| 0 <= i < |s| && s[i] == sep;
      assert Upper(s)[i] == sep;
    }
    if sep in Upper(s) {
      var i :| 0 <= i < |s| && Upper(s)[i] == sep;
      assert s[i] == sep;
    }
  }

  // ---------------------------------------------------------------- Trim

  /** The number of white-space characters `s` starts with. */
  function LeadingBlanks(s: string): (n: nat)
    ensures n <= |s|
    ensures forall k :: 0 <= k < n ==> IsWhiteSpace(s[k])
    ensures n < |s| ==> !IsWhiteSpace(s[n])
  {
    if |s| > 0 && IsWhiteSpace(s[0]) then
      var n := 1 + LeadingBlanks(s[1..]);
      assert forall k :: 1 <= k < n ==> s[k] == s[1..][k - 1];
      n
    else 0
  }

  /** The number of white-space characters `s` ends with. */
  function TrailingBlanks(s: string): (n: nat)
    ensures n <= |s|
    ensures forall k :: |s| - n <= k < |s| ==> IsWhiteSpace(s[k])
    ensures n < |s| ==> !IsWhiteSpace(s[|s| - 1 - n])
  {
    if |s| > 0 && IsWhiteSpace(s[|s| - 1]) then
      var n := 1 + TrailingBlanks(s[..|s| - 1]);
      assert forall k :: |s| - n <= k < |s| - 1 ==> s[k] == s[..|s| - 1][k];
      n
    else 0
  }

  /** A string with no white space at either end. */
  predicate IsTrimmed(s: string) {
    s == [] || (!IsWhiteSpace(s[0]) && !IsWhiteSpace(s[|s| - 1]))
  }

  /** `Trim()`: the middle of `s` left once white space is taken off both
      ends; empty exactly when `s` is all white space. */
  function Trim(s: string): (r: string)
    ensures exists i, j :: 0 <= i <= j <= |s| && r == s[i..j]
                           && AllWhiteSpace(s[..i]) && AllWhiteSpace(s[j..])
    ensures IsTrimmed(r)
    ensures r == [] <==> AllWhiteSpace(s)
  {
    var i := LeadingBlanks(s);
    var e := |s| - TrailingBlanks(s);
    var j := if e < i then i else e;
    BlankPrefix(s, i);
    BlankSuffix(s, j);
    assert j == i ==> AllWhiteSpace(s);
    assert j > i ==> !IsWhiteSpace(s[i]) && !IsWhiteSpace(s[j - 1]);
    s[i..j]
  }

  lemma BlankPrefix(s: string, n: nat)
    requires n <= |s| && forall k :: 0 <= k < n ==> IsWhiteSpace(s[k])
    ensures AllWhiteSpace(s[..n])
  {
    assert forall k :: 0 <= k < n ==> s[..n][k] == s[k];
  }

  lemma BlankSuffix(s: string, n: nat)
    requires n <= |s| && forall k :: n <= k < |s| ==> IsWhiteSpace(s[k])
    ensures AllWhiteSpace(s[n..])
  {
    assert forall k :: 0 <= k < |s| - n ==> s[n..][k] == s[n + k];
  }

  /** Trimming a trimmed string changes nothing. */
  lemma TrimTrimmed(s: string)
    requires IsTrimmed(s)
    ensures Trim(s) == s
  {
  }

  lemma UpperKeepsTrimmed(s: string)
    requires IsTrimmed(s)
    ensures IsTrimmed(Upper(s))
  {
    UpperKeepsWhiteSpace(s);
  }

  /** Adding a space at either end, or doubling one in the middle, does
      not change whether a string is blank. */
  lemma BlankIgnoresExtraSpaces(a: string, b: string)
    ensures AllWhiteSpace(" " + a) <==> AllWhiteSpace(a)
    ensures AllWhiteSpace(a + " ") <==> AllWhiteSpace(a)
    ensures AllWhiteSpace(a + "  " + b) <==> AllWhiteSpace(a + " " + b)
  {
    assert (" " + a)[1..] == a;
    assert (a + " ")[..|a|] == a;
    var s1, s2 := a + " " + b, a + "  " + b;
    assert s2[..|a|] == a && s2[|a| + 2..] == b;
    assert s1[..|a|] == a && s1[|a| + 1..] == b;
    if AllWhiteSpace(s1) {
      assert forall i :: 0 <= i < |b| ==> s1[|a| + 1 + i] == b[i];
    }
    if AllWhiteSpace(s2) {
      assert forall i :: 0 <= i < |b| ==> s2[|a| + 2 + i] == b[i];
    }
  }

  // ---------------------------------------------------------------- Split

  /** Number of occurrences of `c` in `s`. */
  function Count(s: string, c: char): nat {
    if |s| == 0 then 0 else (if s[0] == c then 1 else 0) + Count(s[1..], c)
  }

  lemma CountAbsent(s: string, c: char)
    requires c !in s
    ensures Count(s, c) == 0
  {
  }

  /** A string holding a non-white-space character is not blank. */
  lemma CountedNotBlank(s: string, c: char)
    requires Count(s, c) > 0 && !IsWhiteSpace(c)
    ensures !AllWhiteSpace(s)
  {
    if c !in s {
      CountAbsent(s, c);
    } else {
      var i :| 0 <= i < |s| && s[i] == c;
    }
  }

  /** Glues `parts` back together with `sep` between neighbours. */
  function Join(parts: seq<string>, sep: char): string {
    if |parts| == 0 then []
    else if |parts| == 1 then parts[0]
    else parts[0] + [sep] + Join(parts[1..], sep)
  }

  /** `s.Split(sep)`: the pieces between separators, empty ones kept. */
  function Split(s: string, sep: char): (parts: seq<string>)
    ensures |parts| == Count(s, sep) + 1
    ensures forall i :: 0 <= i < |parts| ==> sep !in parts[i]
    ensures Join(parts, sep) == s
  {
    if |s| == 0 then [[]]
    else if s[0] == sep then [[]] + Split(s[1..], sep)
    else
      var rest := Split(s[1..], sep);
      var parts := [[s[0]] + rest[0]] + rest[1..];
      assert parts[1..] == rest[1..];
      assert Join(parts, sep) == s by {
        if |rest| > 1 {
          assert Join(rest, sep) == rest[0] + [sep] + Join(rest[1..], sep);
        }
      }
      parts
  }

  /** A string without a separator is one piece. */
  lemma {:induction false} SplitWithout(s: string, sep: char)
    requires sep !in s
    ensures Split(s, sep) == [s]
  {
    CountAbsent(s, sep);
  }

  /** A string that splits into one piece is that piece. */
  lemma SplitWithoutSeparator(s: string, sep: char)
    requires |Split(s, sep)| == 1
    ensures Split(s, sep) == [s]
  {
  }

  /** Splitting distributes over a separator: the pieces of `a + sep + b`
      are the pieces of `a` followed by the pieces of `b`. */
  lemma {:induction false} SplitAround(a: string, b: string, sep: char)
    ensures Split(a + [sep] + b, sep) == Split(a, sep) + Split(b, sep)
  {
    var s := a + [sep] + b;
    if |a| == 0 {
      assert s[1..] == b;
    } else {
      assert s[1..] == a[1..] + [sep] + b;
      SplitAround(a[1..], b, sep);
    }
  }

  /** Split undoes Join when no piece contains the separator. */
  lemma {:induction false} SplitJoin(parts: seq<string>, sep: char)
    requires |parts| >= 1
    requires forall i :: 0 <= i < |parts| ==> sep !in parts[i]
    ensures Split(Join(parts, sep), sep) == parts
  {
    SplitWithout(parts[0], sep);
    if |parts| > 1 {
      SplitJoin(parts[1..], sep);
      SplitAround(parts[0], Join(parts[1..], sep), sep);
      assert parts == [parts[0]] + parts[1..];
    }
  }

  // ---------------------------------------------------------------- Tokens

  /** The non-empty entries of `parts`, in order. */
  function NonEmpty(parts: seq<string>): (r: seq<string>)
    ensures |r| <= |parts|
    ensures forall i :: 0 <= i < |r| ==> r[i] != [] && r[i] in parts
  {
    if |parts| == 0 then []
    else if parts[0] == [] then NonEmpty(parts[1..])
    else [parts[0]] + NonEmpty(parts[1..])
  }

  lemma {:induction false} NonEmptyAppend(a: seq<string>, b: seq<string>)
    ensures NonEmpty(a + b) == NonEmpty(a) + NonEmpty(b)
  {
    if |a| > 0 {
      assert (a + b)[1..] == a[1..] + b;
      NonEmptyAppend(a[1..], b);
    } else {
      assert a + b == b;
    }
  }

  lemma {:induction false} NonEmptyAllNonEmpty(parts: seq<string>)
    requires forall i :: 0 <= i < |parts| ==> parts[i] != []
    ensures NonEmpty(parts) == parts
  {
    if |parts| > 0 {
      NonEmptyAllNonEmpty(parts[1..]);
    }
  }

  /** `s.Split(' ', StringSplitOptions.RemoveEmptyEntries)`: the maximal
      runs of non-space characters. Only the space character separates;
      tabs and other white space stay inside tokens. */
  function Tokens(s: string): (ts: seq<string>)
    ensures forall i :: 0 <= i < |ts| ==> ts[i] != [] && ' ' !in ts[i]
  {
    NonEmpty(Split(s, ' '))
  }

  /** A space separates tokens: those of `a + " " + b` are those of `a`
      followed by those of `b`. */
  lemma TokensAround(a: string, b: string)
    ensures Tokens(a + " " + b) == Tokens(a) + Tokens(b)
  {
    SplitAround(a, b, ' ');
    NonEmptyAppend(Split(a, ' '), Split(b, ' '));
  }

  /** Spaces at either end, and a doubled space in the middle, do not
      change the tokens. */
  lemma TokensIgnoreExtraSpaces(a: string, b: string)
    ensures Tokens(" " + a) == Tokens(a)
    ensures Tokens(a + " ") == Tokens(a)
    ensures Tokens(a + "  " + b) == Tokens(a + " " + b)
  {
    TokensAround([], a);
    assert [] + " " + a == " " + a;
    TokensAround(a, []);
    assert a + " " + [] == a + " ";
    TokensAround(a, " " + b);
    assert a + " " + (" " + b) == a + "  " + b;
    TokensAround(a, b);
  }

  /** Words without spaces, joined by single spaces, tokenise back to
      themselves. */
  lemma TokensJoin(words: seq<string>)
    requires |words| >= 1
    requires forall i :: 0 <= i < |words| ==> words[i] != [] && ' ' !in words[i]
    ensures Tokens(Join(words, ' ')) == words
  {
    SplitJoin(words, ' ');
    NonEmptyAllNonEmpty(words);
  }
}
