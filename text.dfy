/**
 * Character classes and string helpers shared by the parser, the feature
 * extractor and the explanation scorer. Every class is the ASCII part of the
 * Python predicate or regex class it stands for.
 */
module Text {

  /** Python's `str.isspace()`, the regex class `\s` and `str.split()` on ASCII:
      tab, line feed, vertical tab, form feed, carriage return, the four
      separators 0x1C..0x1F, and space. */
  predicate IsSpace(c: char) {
    var n := c as int;
    n == 32 || 9 <= n <= 13 || 28 <= n <= 31
  }

  /** `str.isdigit()` and the regex class `\d` on ASCII. */
  predicate IsDigit(c: char) {
    '0' <= c <= '9'
  }

  predicate IsLetter(c: char) {
    'a' <= c <= 'z' || 'A' <= c <= 'Z'
  }

  /** `str.isalnum()` on ASCII. */
  predicate IsAlnum(c: char) {
    IsLetter(c) || IsDigit(c)
  }

  /** The regex class `\w` on ASCII: letters, digits and the underscore. */
  predicate IsWordChar(c: char) {
    IsAlnum(c) || c == '_'
  }

  /** `str.lower()` on one ASCII character. */
  function LowerChar(c: char): (d: char)
    ensures IsLetter(c) <==> IsLetter(d)
    ensures IsDigit(c) <==> IsDigit(d)
    ensures !('A' <= d <= 'Z')
    ensures 'a' <= c <= 'z' || !IsLetter(c) ==> d == c
    ensures 'A' <= c <= 'Z' ==> 'a' <= d <= 'z' && d as int - 'a' as int == c as int - 'A' as int
  {
    if 'A' <= c <= 'Z' then (c as int + 32) as char else c
  }

  /** `str.lower()`; a case-insensitive match is a match on lowered text. */
  function Lower(s: string): (r: string)
    ensures |r| == |s|
    ensures forall i :: 0 <= i < |s| ==> r[i] == LowerChar(s[i])
    ensures forall i :: 0 <= i < |r| ==> !('A' <= r[i] <= 'Z')
  {
    seq(|s|, i requires 0 <= i < |s| => LowerChar(s[i]))
  }

  /** The substring test `p in s`. */
  predicate Contains(s: string, p: string)
    decreases |s|
  {
    |p| <= |s| && (s[..|p|] == p || Contains(s[1..], p))
  }

  /** p occurs in s starting at index i. */
  ghost predicate OccursAt(s: string, p: string, i: int) {
    0 <= i && i + |p| <= |s| && s[i..i + |p|] == p
  }

  lemma OccursAtTail(s: string, p: string, i: int)
    requires |s| > 0 && i >= 1
    ensures OccursAt(s, p, i) <==> OccursAt(s[1..], p, i - 1)
  {
    if i + |p| <= |s| {
      assert s[1..][i - 1..i - 1 + |p|] == s[i..i + |p|];
    }
  }

  /** The recursive test agrees with "p occurs at some index of s". */
  lemma {:induction false} ContainsIff(s: string, p: string)
    ensures Contains(s, p) <==> exists i :: OccursAt(s, p, i)
    decreases |s|
  {
    if |p| > |s| {
      assert forall i :: !OccursAt(s, p, i);
    } else if s[..|p|] == p {
      assert OccursAt(s, p, 0);
    } else {
      ContainsIff(s[1..], p);
      if Contains(s[1..], p) {
        var i :| OccursAt(s[1..], p, i);
        OccursAtTail(s, p, i + 1);
      } else {
        forall i ensures !OccursAt(s, p, i) {
          if i >= 1 {
            OccursAtTail(s, p, i);
          }
        }
      }
    }
  }

  /** Every occurrence of p + q is also an occurrence of p. */
  lemma ContainsPrefixOf(s: string, p: string, q: string)
    ensures Contains(s, p + q) ==> Contains(s, p)
  {
    if Contains(s, p + q) {
      ContainsIff(s, p + q);
      var i :| OccursAt(s, p + q, i);
      assert s[i..i + |p|] == s[i..i + |p + q|][..|p|];
      assert OccursAt(s, p, i);
      ContainsIff(s, p);
    }
  }

  /** The number of elements of s equal to x. */
  function Occurrences<T(==)>(s: seq<T>, x: T): (n: nat)
    ensures n <= |s|
    ensures n > 0 <==> x in s
  {
    if s == [] then 0 else (if s[0] == x then 1 else 0) + Occurrences(s[1..], x)
  }

  lemma {:induction false} OccurrencesAppend<T>(s: seq<T>, y: T, x: T)
    ensures Occurrences(s + [y], x) == Occurrences(s, x) + (if y == x then 1 else 0)
  {
    if s != [] {
      assert (s + [y])[1..] == s[1..] + [y];
      OccurrencesAppend(s[1..], y, x);
    }
  }

  /** The indices of s that hold x. */
  function IndicesOf<T(==)>(s: seq<T>, x: T): set<nat> {
    set j: nat | j < |s| && s[j] == x
  }

  /** The count is the number of indices holding x. */
  lemma {:induction false} OccurrencesAsIndexSet<T>(s: seq<T>, x: T)
    ensures Occurrences(s, x) == |IndicesOf(s, x)|
    decreases |s|
  {
    if s != [] {
      var n := |s| - 1;
      var init := s[..n];
      OccurrencesAsIndexSet(init, x);
      assert s == init + [s[n]];
      OccurrencesAppend(init, s[n], x);
      if s[n] == x {
        assert IndicesOf(s, x) == IndicesOf(init, x) + {n};
      } else {
        assert IndicesOf(s, x) == IndicesOf(init, x);
      }
    }
  }

  /** The length of the run of digits at the start of s. */
  function DigitPrefixLength(s: string): (k: nat)
    ensures k <= |s|
    ensures forall j :: 0 <= j < k ==> IsDigit(s[j])
    ensures k == |s| || !IsDigit(s[k])
  {
    if s != [] && IsDigit(s[0]) then 1 + DigitPrefixLength(s[1..]) else 0
  }

  /** `re.findall(r'\d+', s)`: the maximal runs of digits of s, left to right. */
  function FindDigitRuns(s: string): (runs: seq<string>)
    ensures |runs| <= |s|
    ensures forall k :: 0 <= k < |runs| ==> |runs[k]| > 0 && forall j :: 0 <= j < |runs[k]| ==> IsDigit(runs[k][j])
    ensures |runs| == 0 <==> forall i :: 0 <= i < |s| ==> !IsDigit(s[i])
    decreases |s|
  {
    if s == [] then []
    else if !IsDigit(s[0]) then FindDigitRuns(s[1..])
    else
      var k := DigitPrefixLength(s);
      [s[..k]] + FindDigitRuns(s[k..])
  }

  /** A maximal run of digits starts at i: a digit at the start of s or right
      after a non-digit. */
  predicate IsRunStart(s: string, i: nat) {
    i < |s| && IsDigit(s[i]) && (i == 0 || !IsDigit(s[i - 1]))
  }

  /** The run starts of s at index i or later. */
  ghost function RunStartsFrom(s: string, i: nat): set<nat> {
    set j: nat | i <= j < |s| && IsRunStart(s, j)
  }

  /** A non-digit at i is no run start. */
  lemma RunStartsSkip(s: string, i: nat)
    requires i < |s| && !IsDigit(s[i])
    ensures RunStartsFrom(s, i) == RunStartsFrom(s, i + 1)
  {
    assert !IsRunStart(s, i);
  }

  /** A run starting at i and ending before i + k contributes the one start i. */
  lemma RunStartsRun(s: string, i: nat, k: nat)
    requires IsRunStart(s, i) && 1 <= k && i + k <= |s|
    requires forall j :: i <= j < i + k ==> IsDigit(s[j])
    ensures RunStartsFrom(s, i) == {i} + RunStartsFrom(s, i + k)
    ensures |RunStartsFrom(s, i)| == 1 + |RunStartsFrom(s, i + k)|
  {
    forall j | i < j < i + k ensures !IsRunStart(s, j) {
      assert IsDigit(s[j - 1]);
    }
    assert i !in RunStartsFrom(s, i + k);
  }

  /** FindDigitRuns skips a non-digit at i. */
  lemma DigitRunsSkip(s: string, i: nat)
    requires i < |s| && !IsDigit(s[i])
    ensures FindDigitRuns(s[i..]) == FindDigitRuns(s[i + 1..])
  {
    assert s[i..][1..] == s[i + 1..];
  }

  /** A digit at i starts a run of k digits that ends at the end of s or
      before a non-digit; FindDigitRuns takes it as one run. */
  lemma DigitRunsRun(s: string, i: nat) returns (k: nat)
    requires i < |s| && IsDigit(s[i])
    ensures 1 <= k && i + k <= |s|
    ensures |FindDigitRuns(s[i..])| == 1 + |FindDigitRuns(s[i + k..])|
    ensures forall j :: i <= j < i + k ==> IsDigit(s[j])
    ensures i + k == |s| || !IsDigit(s[i + k])
  {
    var t := s[i..];
    k := DigitPrefixLength(t);
    assert t[k..] == s[i + k..];
    assert forall j :: i <= j < i + k ==> s[j] == t[j - i];
    assert i + k < |s| ==> s[i + k] == t[k];
  }

  /** From an index that does not split a run, the runs found in the suffix
      are the run starts of s from that index on. */
  lemma {:induction false} DigitRunsFrom(s: string, i: nat)
    requires i <= |s|
    requires i == 0 || i == |s| || !IsDigit(s[i - 1]) || !IsDigit(s[i])
    ensures |FindDigitRuns(s[i..])| == |RunStartsFrom(s, i)|
    decreases |s| - i
  {
    if i == |s| {
      assert RunStartsFrom(s, i) == {};
    } else if !IsDigit(s[i]) {
      DigitRunsSkip(s, i);
      DigitRunsFrom(s, i + 1);
      RunStartsSkip(s, i);
    } else {
      var k := DigitRunsRun(s, i);
      DigitRunsFrom(s, i + k);
      RunStartsRun(s, i, k);
    }
  }

  /** `re.findall(r'\d+', s)` finds one run per maximal run of digits: as
      many as there are indices where such a run starts. */
  lemma DigitRunsCount(s: string)
    ensures |FindDigitRuns(s)| == |set i: nat | i < |s| && IsRunStart(s, i)|
  {
    DigitRunsFrom(s, 0);
    assert s[0..] == s;
    assert RunStartsFrom(s, 0) == set i: nat | i < |s| && IsRunStart(s, i);
  }
}
