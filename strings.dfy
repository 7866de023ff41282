/**
 * The JavaScript string operations the monitor relies on, over `seq<char>`:
 * `trim`/`trimEnd`, `startsWith`/`endsWith`/`includes`, `indexOf`/`lastIndexOf`,
 * `replace` with a string pattern (first occurrence only) and `split` on one character.
 */
module Strings {

  /** The characters JavaScript's `String.prototype.trim` removes: WhiteSpace and LineTerminator. */
  predicate IsWhitespace(c: char) {
    || c == ' ' || c == '\t' || c == '\n' || c == '\r'
    || c == '\U{B}' || c == '\U{C}' || c == '\U{A0}' || c == '\U{1680}'
    || ('\U{2000}' <= c <= '\U{200A}')
    || c == '\U{2028}' || c == '\U{2029}' || c == '\U{202F}' || c == '\U{205F}'
    || c == '\U{3000}' || c == '\U{FEFF}'
  }

  /** `c` occurs nowhere in `s` (`!s.includes(c)` for one character). */
  predicate Lacks(s: string, c: char) {
    forall i :: 0 <= i < |s| ==> s[i] != c
  }

  /** `s.trimEnd()`: the longest prefix of `s` that does not end in whitespace. */
  function TrimEnd(s: string): (r: string)
    ensures r <= s
    ensures r == [] || !IsWhitespace(r[|r| - 1])
    ensures forall i :: |r| <= i < |s| ==> IsWhitespace(s[i])
  {
    if s != [] && IsWhitespace(s[|s| - 1]) then TrimEnd(s[..|s| - 1]) else s
  }

  /** `s.trimStart()`: `s` without its leading whitespace. */
  function TrimStart(s: string): (r: string)
    ensures |r| <= |s|
    ensures r == [] || !IsWhitespace(r[0])
    ensures forall i :: 0 <= i < |s| - |r| ==> IsWhitespace(s[i])
  {
    if s != [] && IsWhitespace(s[0]) then TrimStart(s[1..]) else s
  }

  /** What `trimStart` leaves is a suffix of the string. */
  lemma {:induction false} TrimStartIsSuffix(s: string)
    ensures TrimStart(s) == s[|s| - |TrimStart(s)|..]
  {
    if s != [] && IsWhitespace(s[0]) {
      TrimStartIsSuffix(s[1..]);
      assert s[1..][|s[1..]| - |TrimStart(s[1..])|..] == s[|s| - |TrimStart(s)|..];
    }
  }

  /** `s.trim()`: `s` without its leading and trailing whitespace. */
  function Trim(s: string): (r: string)
    ensures |r| <= |s|
    ensures r == [] || (!IsWhitespace(r[0]) && !IsWhitespace(r[|r| - 1]))
    ensures r == [] <==> forall i :: 0 <= i < |s| ==> IsWhitespace(s[i])
  {
    var t := TrimStart(s);
    TrimStartIsSuffix(s);
    AllWhitespaceSplit(s, |s| - |t|);
    TrimEnd(t)
  }

  /** Every character of a trimmed string is a character of the string, so a property of all of them survives trimming. */
  lemma TrimKeeps(s: string, P: char -> bool)
    requires forall i :: 0 <= i < |s| ==> P(s[i])
    ensures forall i :: 0 <= i < |Trim(s)| ==> P(Trim(s)[i])
  {
    var t := TrimStart(s);
    TrimStartIsSuffix(s);
    forall k | 0 <= k < |Trim(s)| ensures P(Trim(s)[k]) {
      assert Trim(s)[k] == t[k] == s[|s| - |t| + k];
    }
  }

  /** `s` is all whitespace iff both of its parts around `k` are. */
  lemma AllWhitespaceSplit(s: string, k: nat)
    requires k <= |s|
    ensures (forall i :: 0 <= i < |s| ==> IsWhitespace(s[i])) <==>
            (forall i :: 0 <= i < k ==> IsWhitespace(s[i])) && (forall i :: 0 <= i < |s[k..]| ==> IsWhitespace(s[k..][i]))
  {
    if forall i :: 0 <= i < |s[k..]| ==> IsWhitespace(s[k..][i]) {
      forall i | k <= i < |s| ensures IsWhitespace(s[i]) {
        assert s[i] == s[k..][i - k];
      }
    }
  }

  /** Trimming twice is trimming once. */
  lemma TrimIdempotent(s: string)
    ensures Trim(Trim(s)) == Trim(s)
  {
    var r := Trim(s);
    if r != [] {
      assert TrimStart(r) == r;
      assert TrimEnd(r) == r;
    }
  }

  /** `s.startsWith(p)`. */
  predicate StartsWith(s: string, p: string) {
    |p| <= |s| && s[..|p|] == p
  }

  /** `s.endsWith(p)`. */
  predicate EndsWith(s: string, p: string) {
    |p| <= |s| && s[|s| - |p|..] == p
  }

  /** `p` occurs in `s` starting at position `k`. */
  predicate OccursAt(s: string, p: string, k: nat) {
    k <= |s| && StartsWith(s[k..], p)
  }

  /** `s.includes(p)`, scanning the start positions left to right. */
  predicate Contains(s: string, p: string) {
    StartsWith(s, p) || (s != [] && Contains(s[1..], p))
  }

  /** A pattern that starts at some position is contained. */
  lemma {:induction false} ContainsAt(s: string, p: string, k: nat)
    requires OccursAt(s, p, k)
    ensures Contains(s, p)
  {
    if k > 0 {
      assert s[1..][k - 1..] == s[k..];
      assert OccursAt(s[1..], p, k - 1);
      ContainsAt(s[1..], p, k - 1);
    }
  }

  /** A pattern that starts at no position is not contained. */
  lemma {:induction false} NotContainsAt(s: string, p: string)
    requires forall k :: 0 <= k <= |s| ==> !OccursAt(s, p, k)
    ensures !Contains(s, p)
  {
    assert s[0..] == s;
    assert !OccursAt(s, p, 0);
    if s != [] {
      forall k | 0 <= k <= |s[1..]| ensures !OccursAt(s[1..], p, k) {
        assert s[1..][k..] == s[k + 1..];
        assert !OccursAt(s, p, k + 1);
      }
      NotContainsAt(s[1..], p);
    }
  }

  /** A pattern whose first character does not occur in `s` is not contained in it. */
  lemma {:induction false} NotContainedWithoutFirstChar(s: string, p: string)
    requires p != [] && Lacks(s, p[0])
    ensures !Contains(s, p)
  {
    if s != [] {
      assert s[0] != p[0];
      NotContainedWithoutFirstChar(s[1..], p);
    }
  }

  /** A character missing from both parts is missing from their concatenation. */
  lemma LacksAppend(a: string, b: string, c: char)
    requires Lacks(a, c) && Lacks(b, c)
    ensures Lacks(a + b, c)
  {
    forall i | |a| <= i < |a + b| ensures (a + b)[i] != c {
      assert (a + b)[i] == b[i - |a|];
    }
  }

  /** A string does not start with a pattern whose first character differs from its own. */
  lemma NotStartsWithOtherChar(s: string, p: string)
    requires p != [] && (s == [] || s[0] != p[0])
    ensures !StartsWith(s, p)
  {
    if |p| <= |s| {
      assert s[..|p|][0] == s[0];
    }
  }

  /** A string with no whitespace at either end is its own trim. */
  lemma TrimOfTrimmed(s: string)
    requires s == [] || (!IsWhitespace(s[0]) && !IsWhitespace(s[|s| - 1]))
    ensures Trim(s) == s
  {
  }

  /** `s.indexOf(p)`: the first position at which `p` occurs, or -1. */
  function IndexOf(s: string, p: string): (r: int)
    ensures r == -1 || 0 <= r <= |s| - |p|
    ensures r == -1 <==> !Contains(s, p)
    ensures r >= 0 ==> OccursAt(s, p, r)
    ensures forall j :: 0 <= j < r ==> !OccursAt(s, p, j)
  {
    assert s[0..] == s;
    if StartsWith(s, p) then 0
    else if s == [] then -1
    else
      var k := IndexOf(s[1..], p);
      if k == -1 then -1
      else
        assert forall j :: 1 <= j <= k + 1 ==> (OccursAt(s, p, j) <==> OccursAt(s[1..], p, j - 1)) by {
          forall j | 1 <= j <= k + 1 ensures OccursAt(s, p, j) <==> OccursAt(s[1..], p, j - 1) {
            assert s[1..][j - 1..] == s[j..];
          }
        }
        k + 1
  }

  /** `s.lastIndexOf(c)` for a one-character pattern: the last position of `c`, or -1. */
  function LastIndexOf(s: string, c: char): (r: int)
    ensures -1 <= r < |s|
    ensures r >= 0 ==> s[r] == c
    ensures forall j :: r < j < |s| ==> s[j] != c
  {
    if s == [] then -1
    else if s[|s| - 1] == c then |s| - 1
    else LastIndexOf(s[..|s| - 1], c)
  }

  /** `s.replace(p, q)` with a string pattern: only the first occurrence is replaced. */
  function ReplaceFirst(s: string, p: string, q: string): string {
    var i := IndexOf(s, p);
    if i == -1 then s else s[..i] + q + s[i + |p|..]
  }

  /** `parts.join(sep)` for a one-character separator. */
  function JoinWith(parts: seq<string>, sep: char): string
    requires |parts| >= 1
  {
    if |parts| == 1 then parts[0]
    else JoinWith(parts[..|parts| - 1], sep) + [sep] + parts[|parts| - 1]
  }

  /** `s.split(sep)` for a one-character separator; there is always at least one part. */
  function Split(s: string, sep: char): (parts: seq<string>)
    ensures |parts| >= 1
  {
    if s == [] then [[]]
    else
      var init := Split(s[..|s| - 1], sep);
      var c := s[|s| - 1];
      if c == sep then init + [[]]
      else init[..|init| - 1] + [init[|init| - 1] + [c]]
  }

  /** No part of a split holds the separator. */
  lemma {:induction false} SplitPartsLackSeparator(s: string, sep: char)
    ensures forall k :: 0 <= k < |Split(s, sep)| ==> Lacks(Split(s, sep)[k], sep)
  {
    if s != [] {
      SplitPartsLackSeparator(s[..|s| - 1], sep);
    }
  }

  /** Joining the parts of a split with the separator gives the string back. */
  lemma {:induction false} SplitJoinsBack(s: string, sep: char)
    ensures JoinWith(Split(s, sep), sep) == s
  {
    if s != [] {
      var front := s[..|s| - 1];
      var c := s[|s| - 1];
      SplitJoinsBack(front, sep);
      assert s == front + [c];
      if c == sep {
        JoinWithAppendPart(Split(front, sep), sep, []);
      } else {
        JoinWithExtendLastPart(Split(front, sep), sep, c);
      }
    }
  }

  lemma JoinWithAppendPart(parts: seq<string>, sep: char, x: string)
    requires |parts| >= 1
    ensures JoinWith(parts + [x], sep) == JoinWith(parts, sep) + [sep] + x
  {
    assert (parts + [x])[..|parts|] == parts;
  }

  lemma JoinWithExtendLastPart(parts: seq<string>, sep: char, c: char)
    requires |parts| >= 1
    ensures JoinWith(parts[..|parts| - 1] + [parts[|parts| - 1] + [c]], sep) == JoinWith(parts, sep) + [c]
  {
    var n := |parts| - 1;
    var longer := parts[..n] + [parts[n] + [c]];
    if n > 0 {
      assert longer[..n] == parts[..n];
      var j := JoinWith(parts[..n], sep);
      assert j + [sep] + (parts[n] + [c]) == (j + [sep] + parts[n]) + [c];
    }
  }

  /** The number of occurrences of `c` in `s`. */
  function Occurrences(s: string, c: char): nat {
    if s == [] then 0 else Occurrences(s[..|s| - 1], c) + (if s[|s| - 1] == c then 1 else 0)
  }

  /** `split` yields one part more than there are separators in the string. */
  lemma {:induction false} SplitCount(s: string, sep: char)
    ensures |Split(s, sep)| == Occurrences(s, sep) + 1
  {
    if s != [] {
      SplitCount(s[..|s| - 1], sep);
    }
  }

  /** `parts.filter(p => p)` (equally `filter(line => line.length > 0)`): the non-empty parts, in order. */
  function NonEmpty(parts: seq<string>): seq<string> {
    if parts == [] then []
    else NonEmpty(parts[..|parts| - 1]) + (if parts[|parts| - 1] != [] then [parts[|parts| - 1]] else [])
  }

  /** A string occurs in `NonEmpty(parts)` exactly when it is a non-empty part. */
  lemma {:induction false} NonEmptyMembers(parts: seq<string>, p: string)
    ensures p in NonEmpty(parts) <==> p in parts && p != []
  {
    if parts != [] {
      var init := parts[..|parts| - 1];
      NonEmptyMembers(init, p);
      assert parts == init + [parts[|parts| - 1]];
    }
  }
}
