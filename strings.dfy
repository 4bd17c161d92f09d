/**
 * ASCII versions of the JavaScript string operations the log parser relies on:
 * `indexOf`, `includes`, `split`, `trim`, `toLowerCase`, `padStart`, `parseInt`
 * on a run of decimal digits and number-to-text conversion.
 */
module Strings {
  import opened Wrappers

  /** `pat` occurs in `s` starting at index `i`. */
  predicate OccursAt(s: string, pat: string, i: nat) {
    i + |pat| <= |s| && s[i..i + |pat|] == pat
  }

  /** First occurrence of `pat` in `s` at or after `from`. */
  function IndexFrom(s: string, pat: string, from: nat): (r: Option<nat>)
    requires from <= |s|
    decreases |s| - from
    ensures r.Some? ==> from <= r.value && OccursAt(s, pat, r.value)
    ensures r.Some? ==> forall j :: from <= j < r.value ==> !OccursAt(s, pat, j)
    ensures r.None? ==> forall j :: from <= j <= |s| ==> !OccursAt(s, pat, j)
  {
    if OccursAt(s, pat, from) then Some(from)
    else if from == |s| then None
    else IndexFrom(s, pat, from + 1)
  }

  /** JavaScript `s.indexOf(pat)`, with `None` for -1. */
  function IndexOf(s: string, pat: string): (r: Option<nat>)
    ensures r.Some? ==> OccursAt(s, pat, r.value)
    ensures r.Some? ==> forall j :: 0 <= j < r.value ==> !OccursAt(s, pat, j)
    ensures r.None? ==> forall j :: 0 <= j <= |s| ==> !OccursAt(s, pat, j)
  {
    IndexFrom(s, pat, 0)
  }

  /** JavaScript `s.includes(pat)`. */
  predicate Contains(s: string, pat: string) {
    IndexOf(s, pat).Some?
  }

  /** `pat` first occurs at `i` when it occurs there and nowhere before. */
  lemma IndexOfAt(s: string, pat: string, i: nat)
    requires OccursAt(s, pat, i) && forall j :: 0 <= j < i ==> !OccursAt(s, pat, j)
    ensures IndexOf(s, pat) == Some(i)
  {
  }

  /** `pat` cannot start inside a prefix `a` of `s` that lacks the first character of `pat`. */
  lemma NotInPrefix(s: string, a: string, pat: string)
    requires pat != [] && |a| <= |s| && s[..|a|] == a
    requires forall j :: 0 <= j < |a| ==> a[j] != pat[0]
    ensures forall j :: 0 <= j < |a| ==> !OccursAt(s, pat, j)
  {
    forall j | 0 <= j < |a| ensures !OccursAt(s, pat, j) {
      assert s[j] == a[j];
      if j + |pat| <= |s| {
        assert s[j..j + |pat|][0] == s[j];
      }
    }
  }

  /** `s` has no `c` in it. */
  predicate Lacks(s: string, c: char) {
    forall j :: 0 <= j < |s| ==> s[j] != c
  }

  lemma LacksConcat(a: string, b: string, c: char)
    requires Lacks(a, c) && Lacks(b, c)
    ensures Lacks(a + b, c)
  {
    assert forall j :: |a| <= j < |a + b| ==> (a + b)[j] == b[j - |a|];
  }

  /** When `t` lacks the first character of `pat`, the first `pat` in `t + pat` is the one appended. */
  lemma NoEarlierOccurrence(t: string, pat: string)
    requires pat != [] && Lacks(t, pat[0])
    ensures forall i :: 0 <= i < |t| ==> !OccursAt(t + pat, pat, i)
  {
    forall i | 0 <= i < |t| ensures !OccursAt(t + pat, pat, i) {
      assert (t + pat)[i] == t[i];
      if i + |pat| <= |t + pat| {
        assert (t + pat)[i..i + |pat|][0] == t[i];
      }
    }
  }

  /** A text lacking one of the characters of `pat` does not contain `pat`. */
  lemma LacksPattern(s: string, pat: string, k: nat)
    requires k < |pat| && Lacks(s, pat[k])
    ensures !Contains(s, pat)
  {
    forall j | 0 <= j <= |s| ensures !OccursAt(s, pat, j) {
      if j + |pat| <= |s| {
        assert s[j..j + |pat|][k] == s[j + k];
      }
    }
  }

  /** The inverse of `Split`: the parts glued back together with `sep` between them. */
  function Join(parts: seq<string>, sep: string): string {
    if |parts| == 0 then []
    else if |parts| == 1 then parts[0]
    else parts[0] + sep + Join(parts[1..], sep)
  }

  /**
   * JavaScript `s.split(sep)` for a non-empty separator: the text between successive
   * non-overlapping occurrences of `sep`, found left to right. There is always at
   * least one part, and joining the parts with `sep` gives `s` back.
   */
  function Split(s: string, sep: string): (parts: seq<string>)
    requires sep != []
    ensures |parts| >= 1
    ensures Join(parts, sep) == s
    decreases |s|
  {
    match IndexOf(s, sep)
    case None => [s]
    case Some(i) =>
      var rest := Split(s[i + |sep|..], sep);
      assert s == s[..i] + sep + s[i + |sep|..];
      [s[..i]] + rest
  }

  /** No part of a split holds the separator. */
  lemma {:induction false} SplitPartsLackSeparator(s: string, sep: string)
    requires sep != []
    ensures forall k :: 0 <= k < |Split(s, sep)| ==> !Contains(Split(s, sep)[k], sep)
    decreases |s|
  {
    match IndexOf(s, sep)
    case None =>
    case Some(i) =>
      SplitPartsLackSeparator(s[i + |sep|..], sep);
      BeforeFirst(s, sep, i);
  }

  /** A text without the separator is one part. */
  lemma SplitNone(s: string, sep: string)
    requires sep != [] && !Contains(s, sep)
    ensures Split(s, sep) == [s]
  {
  }

  /** A text that opens with the separator, and has no other, splits into an empty part and the rest. */
  lemma SplitLeading(sep: string, rest: string)
    requires sep != [] && !Contains(rest, sep)
    ensures Split(sep + rest, sep) == ["", rest]
  {
    var s := sep + rest;
    assert s[..|sep|] == sep;
    IndexOfAt(s, sep, 0);
    assert s[|sep|..] == rest && s[..0] == "";
    SplitNone(rest, sep);
  }

  /** An occurrence inside a prefix of `s` is an occurrence in `s`. */
  lemma OccursInPrefix(s: string, t: string, pat: string, j: nat)
    requires |t| <= |s| && t == s[..|t|] && OccursAt(t, pat, j)
    ensures OccursAt(s, pat, j)
  {
    assert s[j..j + |pat|] == t[j..j + |pat|];
  }

  /** The text before the first occurrence of `sep` does not contain `sep`. */
  lemma BeforeFirst(s: string, sep: string, i: nat)
    requires sep != [] && IndexOf(s, sep) == Some(i)
    ensures !Contains(s[..i], sep)
  {
    var t := s[..i];
    if Contains(t, sep) {
      var j := IndexOf(t, sep).value;
      OccursInPrefix(s, t, sep, j);
    }
  }

  /** Number of occurrences of the character `c` in `s`. */
  function Occurrences(s: string, c: char): nat {
    if s == [] then 0 else Occurrences(s[..|s| - 1], c) + (if s[|s| - 1] == c then 1 else 0)
  }

  lemma {:induction false} OccurrencesConcat(a: string, b: string, c: char)
    ensures Occurrences(a + b, c) == Occurrences(a, c) + Occurrences(b, c)
    decreases |b|
  {
    if b == [] {
      assert a + b == a;
    } else {
      assert (a + b)[..|a + b| - 1] == a + b[..|b| - 1];
      OccurrencesConcat(a, b[..|b| - 1], c);
    }
  }

  lemma {:induction false} OccurrencesNone(s: string, c: char)
    requires forall j :: 0 <= j < |s| ==> s[j] != c
    ensures Occurrences(s, c) == 0
    decreases |s|
  {
    if s != [] {
      OccurrencesNone(s[..|s| - 1], c);
    }
  }

  /** Splitting on one character gives one more part than there are occurrences of it. */
  lemma {:induction false} SplitCharCount(s: string, c: char)
    ensures |Split(s, [c])| == Occurrences(s, c) + 1
    decreases |s|
  {
    match IndexOf(s, [c])
    case None =>
      forall j | 0 <= j < |s| ensures s[j] != c {
        assert !OccursAt(s, [c], j);
      }
      OccurrencesNone(s, c);
    case Some(i) =>
      forall j | 0 <= j < i ensures s[..i][j] != c {
        assert !OccursAt(s, [c], j);
      }
      OccurrencesNone(s[..i], c);
      assert s == s[..i] + [c] + s[i + 1..];
      OccurrencesConcat(s[..i] + [c], s[i + 1..], c);
      OccurrencesConcat(s[..i], [c], c);
      assert Occurrences([c], c) == Occurrences([], c) + 1;
      SplitCharCount(s[i + 1..], c);
  }

  /** Splitting `a + [c] + b` on `c`, when `a` holds no `c`, peels off `a` as the first part. */
  lemma SplitCharFirst(a: string, c: char, b: string)
    requires forall j :: 0 <= j < |a| ==> a[j] != c
    ensures Split(a + [c] + b, [c]) == [a] + Split(b, [c])
  {
    var s := a + [c] + b;
    assert OccursAt(s, [c], |a|);
    forall j | 0 <= j < |a| ensures !OccursAt(s, [c], j) {
      assert s[j..j + 1][0] == a[j];
    }
    var i := IndexOf(s, [c]).value;
    assert s[..i] == a && s[i + 1..] == b;
  }

  /** A string holding no `c` is its own single part. */
  lemma SplitCharNone(a: string, c: char)
    requires forall j :: 0 <= j < |a| ==> a[j] != c
    ensures Split(a, [c]) == [a]
  {
    forall j | 0 <= j < |a| ensures !OccursAt(a, [c], j) {
      assert a[j..j + 1][0] == a[j];
    }
    var r := IndexOf(a, [c]);
    assert r.None?;
  }

  /** The characters a regular-expression `.` does not match. */
  predicate IsLineTerminator(c: char) {
    c == '\n' || c == '\r' || c == '\U{2028}' || c == '\U{2029}'
  }

  /** The longest prefix of `s` without a line terminator. */
  function UpToBreak(s: string): (r: string)
    ensures |r| <= |s| && r == s[..|r|]
    ensures forall j :: 0 <= j < |r| ==> !IsLineTerminator(r[j])
    ensures |r| == |s| || IsLineTerminator(s[|r|])
  {
    if s == [] || IsLineTerminator(s[0]) then [] else [s[0]] + UpToBreak(s[1..])
  }

  /**
   * The stretches of `s` between line terminators, in order: each is free of them,
   * and the first runs from the start of `s` to its first line terminator.
   */
  function Stretches(s: string): (r: seq<string>)
    ensures |r| >= 1 && r[0] == UpToBreak(s)
    ensures forall k, j :: 0 <= k < |r| && 0 <= j < |r[k]| ==> !IsLineTerminator(r[k][j])
    decreases |s|
  {
    var h := UpToBreak(s);
    if |h| == |s| then [s]
    else [h] + Stretches(s[|h| + 1..])
  }

  /** The whitespace JavaScript's `trim` removes, restricted to ASCII. */
  predicate IsSpace(c: char) {
    c == ' ' || '\t' <= c <= '\r'
  }

  /** The number of whitespace characters `s` starts with. */
  function LeadingSpaces(s: string): (n: nat)
    ensures n <= |s| && forall j :: 0 <= j < n ==> IsSpace(s[j])
    ensures n == |s| || !IsSpace(s[n])
  {
    if s != [] && IsSpace(s[0]) then 1 + LeadingSpaces(s[1..]) else 0
  }

  /** The number of whitespace characters `s` ends with. */
  function TrailingSpaces(s: string): (n: nat)
    ensures n <= |s| && forall j :: |s| - n <= j < |s| ==> IsSpace(s[j])
    ensures n == |s| || !IsSpace(s[|s| - n - 1])
  {
    if s != [] && IsSpace(s[|s| - 1]) then 1 + TrailingSpaces(s[..|s| - 1]) else 0
  }

  /**
   * JavaScript `s.trim()`: `s` with its leading and trailing whitespace removed. What
   * is left starts after the leading whitespace, ends with a non-space, and
   * everything after it is whitespace.
   */
  function Trim(s: string): (r: string)
    ensures r == [] || (!IsSpace(r[0]) && !IsSpace(r[|r| - 1]))
    ensures LeadingSpaces(s) + |r| <= |s| && r == s[LeadingSpaces(s)..LeadingSpaces(s) + |r|]
    ensures forall j :: LeadingSpaces(s) + |r| <= j < |s| ==> IsSpace(s[j])
  {
    var n := LeadingSpaces(s);
    var m := TrailingSpaces(s[n..]);
    TrimSlice(s, n, m);
    s[n..|s| - m]
  }

  /** The slice between the leading and the trailing whitespace has the properties `Trim` promises. */
  lemma TrimSlice(s: string, n: nat, m: nat)
    requires n == LeadingSpaces(s) && m == TrailingSpaces(s[n..])
    ensures n + m <= |s|
    ensures var r := s[n..|s| - m];
      && (r == [] || (!IsSpace(r[0]) && !IsSpace(r[|r| - 1])))
      && (forall j :: n + |r| <= j < |s| ==> IsSpace(s[j]))
  {
    var t := s[n..];
    var r := s[n..|s| - m];
    if r != [] {
      assert r[0] == s[n];
      assert r[|r| - 1] == t[|t| - m - 1];
    }
    forall j | n + |r| <= j < |s| ensures IsSpace(s[j]) {
      assert s[j] == t[j - n];
    }
  }

  /** Whitespace followed by a non-space: the whitespace is all that leads. */
  lemma {:induction false} LeadingSpacesBefore(a: string, t: string)
    requires t != [] && !IsSpace(t[0])
    requires forall j :: 0 <= j < |a| ==> IsSpace(a[j])
    ensures LeadingSpaces(a + t) == |a|
  {
    if a != [] {
      assert (a + t)[1..] == a[1..] + t;
      assert (a + t)[0] == a[0];
      LeadingSpacesBefore(a[1..], t);
    } else {
      assert a + t == t;
    }
  }

  /** Trimming whitespace from around a text that starts and ends with a non-space gives that text. */
  lemma TrimAround(a: string, t: string, b: string)
    requires t != [] && !IsSpace(t[0]) && !IsSpace(t[|t| - 1])
    requires forall j :: 0 <= j < |a| ==> IsSpace(a[j])
    requires forall j :: 0 <= j < |b| ==> IsSpace(b[j])
    ensures Trim(a + t + b) == t
  {
    var s := a + t + b;
    assert s == a + (t + b);
    LeadingSpacesBefore(a, t + b);
    assert s[|a|..] == t + b;
    TrailingSpacesAfter(t, b);
    assert Trim(s) == s[|a|..|s| - |b|];
    assert s[|a|..|s| - |b|] == t;
  }

  /** A non-space followed by whitespace: the whitespace is all that trails. */
  lemma {:induction false} TrailingSpacesAfter(t: string, b: string)
    requires t != [] && !IsSpace(t[|t| - 1])
    requires forall j :: 0 <= j < |b| ==> IsSpace(b[j])
    ensures TrailingSpaces(t + b) == |b|
    decreases |b|
  {
    if b != [] {
      var init := b[..|b| - 1];
      assert (t + b)[..|t + b| - 1] == t + init;
      assert (t + b)[|t + b| - 1] == b[|b| - 1];
      TrailingSpacesAfter(t, init);
    } else {
      assert t + b == t;
    }
  }

  /** A text that starts and ends with a non-space is its own trim. */
  lemma TrimmedAlready(t: string)
    requires t != [] && !IsSpace(t[0]) && !IsSpace(t[|t| - 1])
    ensures Trim(t) == t
  {
    assert "" + t + "" == t;
    TrimAround("", t, "");
  }

  /** ASCII `toLowerCase` of one character. */
  function LowerChar(c: char): char {
    if 'A' <= c <= 'Z' then (c as int + 32) as char else c
  }

  /** JavaScript `s.toLowerCase()`, restricted to ASCII letters. */
  function Lower(s: string): string {
    seq(|s|, i requires 0 <= i < |s| => LowerChar(s[i]))
  }

  predicate IsDigit(c: char) {
    '0' <= c <= '9'
  }

  /** Every character of `s` is a decimal digit (the regex class `\d`). */
  predicate IsDigits(s: string) {
    forall i :: 0 <= i < |s| ==> IsDigit(s[i])
  }

  /** The longest prefix of `s` made of decimal digits (a greedy `\d*`). */
  function TakeDigits(s: string): (r: string)
    ensures |r| <= |s| && r == s[..|r|] && IsDigits(r)
    ensures |r| == |s| || !IsDigit(s[|r|])
  {
    if s != [] && IsDigit(s[0]) then [s[0]] + TakeDigits(s[1..]) else []
  }

  function DigitValue(c: char): nat
    requires IsDigit(c)
  {
    c as int - '0' as int
  }

  function DigitChar(d: nat): (c: char)
    requires d < 10
    ensures IsDigit(c) && DigitValue(c) == d
  {
    ('0' as int + d) as char
  }

  /** `parseInt` of a run of decimal digits (leading zeros allowed, the empty run is 0). */
  function Value(s: string): nat
    requires IsDigits(s)
  {
    if s == [] then 0 else Value(s[..|s| - 1]) * 10 + DigitValue(s[|s| - 1])
  }

  /** A leading zero does not change the value: `parseInt("07") == parseInt("7")`. */
  lemma {:induction false} ValueLeadingZero(s: string)
    requires IsDigits(s)
    ensures IsDigits("0" + s) && Value("0" + s) == Value(s)
    decreases |s|
  {
    if s != [] {
      var t := "0" + s;
      assert t[..|t| - 1] == "0" + s[..|s| - 1];
      ValueLeadingZero(s[..|s| - 1]);
    }
  }

  /** JavaScript's decimal rendering of a non-negative integer (`${n}`): no leading zeros. */
  function NatToString(n: nat): (r: string)
    ensures r != [] && IsDigits(r)
    ensures r[0] == '0' ==> n == 0
    ensures Value(r) == n
  {
    if n < 10 then [DigitChar(n)]
    else
      var p := NatToString(n / 10);
      var r := p + [DigitChar(n % 10)];
      assert r[..|r| - 1] == p;
      r
  }

  /** JavaScript `s.padStart(2, '0')`. */
  function Pad2(s: string): (r: string)
    ensures |r| >= 2
    ensures |s| >= 2 ==> r == s
    ensures |s| < 2 ==> r[2 - |s|..] == s && forall i :: 0 <= i < 2 - |s| ==> r[i] == '0'
  {
    if |s| >= 2 then s else if |s| == 1 then "0" + s else "00"
  }
}
