/** The handful of Python `str` operations the core relies on, over ASCII text. */
module Strings {

  /** `s.startswith(prefix)`. */
  predicate StartsWith(s: string, prefix: string) {
    |prefix| <= |s| && s[..|prefix|] == prefix
  }

  /** `sub` occurs in `s` starting at position `i`. */
  predicate OccursAt(s: string, sub: string, i: int) {
    0 <= i && i + |sub| <= |s| && s[i..i + |sub|] == sub
  }

  /** `sub in s`: `sub` occurs as a contiguous block somewhere in `s`. */
  predicate Contains(s: string, sub: string) {
    exists i | 0 <= i <= |s| - |sub| :: OccursAt(s, sub, i)
  }

  /** An occurrence of `sub` takes characters from `s`: never more copies of any character
      than `s` has, and its first character at a position where `sub` still fits. */
  lemma ContainsNecessary(s: string, sub: string)
    requires Contains(s, sub)
    ensures |sub| <= |s|
    ensures forall c :: multiset(sub)[c] <= multiset(s)[c]
    ensures |sub| > 0 ==> sub[0] in s[..|s| - |sub| + 1]
  {
    var i :| 0 <= i <= |s| - |sub| && OccursAt(s, sub, i);
    var k := |sub|;
    assert s == s[..i] + s[i..i + k] + s[i + k..];
    assert multiset(s) == multiset(s[..i]) + multiset(sub) + multiset(s[i + k..]);
    if k > 0 {
      assert s[..|s| - k + 1][i] == s[i] == sub[0];
    }
  }

  /** `sub` cannot occur in `s` when it has a character `s` lacks. */
  lemma NotContainsByChar(s: string, sub: string, c: char)
    requires c in sub && c !in s
    ensures !Contains(s, sub)
  {
    if Contains(s, sub) {
      ContainsNecessary(s, sub);
    }
  }

  /** `sub` cannot occur in `s` when it is longer. */
  lemma NotContainsLonger(s: string, sub: string)
    requires |sub| > |s|
    ensures !Contains(s, sub)
  {
    if Contains(s, sub) {
      ContainsNecessary(s, sub);
    }
  }

  /** `sub` cannot occur in `s` when its first character is absent from every position
      where an occurrence could start. */
  lemma NotContainsByFirst(s: string, sub: string)
    requires 0 < |sub| <= |s|
    requires sub[0] !in s[..|s| - |sub| + 1]
    ensures !Contains(s, sub)
  {
    if Contains(s, sub) {
      ContainsNecessary(s, sub);
    }
  }

  /** A space-free `sub` occurring in two words joined by a space occurs in one of them. */
  lemma ContainsInWords(a: string, b: string, sub: string)
    requires ' ' !in sub
    ensures Contains(a + " " + b, sub) ==> Contains(a, sub) || Contains(b, sub)
  {
    var s := a + " " + b;
    var k := |sub|;
    if Contains(s, sub) {
      var i :| 0 <= i <= |s| - |sub| && OccursAt(s, sub, i);
      OccurrenceChars(s, sub, i);
      assert s[|a|] == ' ';
      if i + k <= |a| {
        assert a[i..i + k] == s[i..i + k];
        assert OccursAt(a, sub, i);
      } else {
        assert i > |a|;
        assert b[i - |a| - 1..i - |a| - 1 + k] == s[i..i + k];
        assert OccursAt(b, sub, i - |a| - 1);
      }
    }
  }

  /** Every character covered by an occurrence of `sub` is a character of `sub`. */
  lemma OccurrenceChars(s: string, sub: string, i: int)
    requires OccursAt(s, sub, i)
    ensures forall p :: i <= p < i + |sub| ==> s[p] in sub
  {
    forall p | i <= p < i + |sub|
      ensures s[p] in sub
    {
      assert s[i..i + |sub|][p - i] == s[p];
    }
  }

  /** A string contains whatever sits inside it. */
  lemma ContainsInfix(before: string, sub: string, after: string)
    ensures Contains(before + sub + after, sub)
  {
    var s := before + sub + after;
    assert s[|before|..|before| + |sub|] == sub;
    assert OccursAt(s, sub, |before|);
  }

  predicate IsUpper(c: char) { 'A' <= c <= 'Z' }

  predicate IsLower(c: char) { 'a' <= c <= 'z' }

  /** A cased character in the sense of `str.title`; only ASCII letters are modelled. */
  predicate IsCased(c: char) { IsUpper(c) || IsLower(c) }

  function ToLowerChar(c: char): char {
    if IsUpper(c) then (c as int + 32) as char else c
  }

  function ToUpperChar(c: char): char {
    if IsLower(c) then (c as int - 32) as char else c
  }

  /** `s.lower()`: upper-case letters become lower-case, everything else is kept. */
  function Lower(s: string): (r: string)
    ensures |r| == |s|
    ensures forall i :: 0 <= i < |s| ==> !IsUpper(r[i])
    ensures forall i :: 0 <= i < |s| && !IsUpper(s[i]) ==> r[i] == s[i]
    ensures forall i :: 0 <= i < |s| ==> ToUpperChar(r[i]) == ToUpperChar(s[i])
  {
    seq(|s|, i requires 0 <= i < |s| => ToLowerChar(s[i]))
  }

  /** `s.replace(from, to)` for single characters. */
  function ReplaceChar(s: string, from: char, to: char): (r: string)
    ensures |r| == |s|
    ensures from != to ==> forall i :: 0 <= i < |r| ==> r[i] != from
    ensures forall i :: 0 <= i < |s| && s[i] != from ==> r[i] == s[i]
  {
    seq(|s|, i requires 0 <= i < |s| => if s[i] == from then to else s[i])
  }

  /** `str.title` from a position whose predecessor was (`prevCased`) or was not cased:
      a cased character after an uncased one is upper-cased, after a cased one lower-cased. */
  function TitleFrom(s: string, prevCased: bool): (r: string)
    decreases |s|
  {
    if s == [] then []
    else
      [MapCase(s[0], prevCased)] + TitleFrom(s[1..], IsCased(s[0]))
  }

  /** How `str.title` maps one character, given whether its predecessor was cased. */
  function MapCase(c: char, prevCased: bool): char {
    if prevCased then ToLowerChar(c) else ToUpperChar(c)
  }

  /** Whether the character before position `i` is cased (`start` at the front). */
  ghost function CasedBefore(s: string, start: bool, i: int): bool
    requires 0 <= i < |s|
  {
    if i == 0 then start else IsCased(s[i - 1])
  }

  /** `s.title()`. */
  function Title(s: string): string {
    TitleFrom(s, false)
  }

  /** Position `i` starts a word: its character is cased and the one before is not. */
  ghost predicate WordStart(s: string, i: int)
    requires 0 <= i < |s|
  {
    IsCased(s[i]) && (i == 0 || !IsCased(s[i - 1]))
  }

  /** Character-wise reading of `TitleFrom`. */
  lemma {:induction false} TitleFromChars(s: string, prevCased: bool)
    ensures |TitleFrom(s, prevCased)| == |s|
    ensures forall i :: 0 <= i < |s| ==>
      TitleFrom(s, prevCased)[i] == MapCase(s[i], CasedBefore(s, prevCased, i))
    decreases |s|
  {
    if s != [] {
      TitleFromChars(s[1..], IsCased(s[0]));
      var r := TitleFrom(s, prevCased);
      forall i | 1 <= i < |s|
        ensures r[i] == MapCase(s[i], CasedBefore(s, prevCased, i))
      {
        assert r[i] == TitleFrom(s[1..], IsCased(s[0]))[i - 1];
        assert s[1..][i - 1] == s[i];
        if i >= 2 {
          assert s[1..][i - 2] == s[i - 1];
        }
      }
    }
  }

  /** `s.title()` capitalises exactly the letters that start a word, lower-cases every other
      letter and keeps every other character. */
  lemma TitleSpec(s: string)
    ensures |Title(s)| == |s|
    ensures forall i :: 0 <= i < |s| && WordStart(s, i) ==> Title(s)[i] == ToUpperChar(s[i])
    ensures forall i :: 0 <= i < |s| && IsCased(s[i]) && !WordStart(s, i) ==> Title(s)[i] == ToLowerChar(s[i])
    ensures forall i :: 0 <= i < |s| && !IsCased(s[i]) ==> Title(s)[i] == s[i]
  {
    TitleFromChars(s, false);
    forall i | 0 <= i < |s|
      ensures !IsCased(s[i]) ==> Title(s)[i] == s[i]
    {
      CaseMappingKeepsCased(s[i]);
      assert Title(s)[i] == MapCase(s[i], CasedBefore(s, false, i));
    }
  }

  /** A lower-case word title-cases to its capitalised form. */
  lemma TitleOfLowerWord(s: string)
    requires |s| > 0 && forall i :: 0 <= i < |s| ==> IsLower(s[i])
    ensures Title(s) == [ToUpperChar(s[0])] + s[1..]
  {
    TitleSpec(s);
    var e := [ToUpperChar(s[0])] + s[1..];
    forall i | 0 <= i < |s|
      ensures Title(s)[i] == e[i]
    {
      if i > 0 {
        assert !WordStart(s, i);
      }
    }
  }

  /** Case mapping keeps a character's casedness and leaves uncased characters alone. */
  lemma CaseMappingKeepsCased(c: char)
    ensures IsCased(ToLowerChar(c)) == IsCased(c)
    ensures IsCased(ToUpperChar(c)) == IsCased(c)
    ensures !IsCased(c) ==> ToLowerChar(c) == c && ToUpperChar(c) == c
  {
  }

  lemma {:induction false} TitleFromIdempotent(s: string, prevCased: bool)
    ensures TitleFrom(TitleFrom(s, prevCased), prevCased) == TitleFrom(s, prevCased)
    decreases |s|
  {
    if s != [] {
      var c := s[0];
      var t := TitleFrom(s, prevCased);
      assert t[0] == MapCase(c, prevCased) && t[1..] == TitleFrom(s[1..], IsCased(c));
      CaseMappingKeepsCased(c);
      TitleFromIdempotent(s[1..], IsCased(c));
    }
  }

  /** Title-casing twice is title-casing once. */
  lemma TitleIdempotent(s: string)
    ensures Title(Title(s)) == Title(s)
  {
    TitleFromIdempotent(s, false);
  }

  /** Title-casing never produces a character that was not already there up to case. */
  lemma {:induction false} TitleFromKeepsChar(s: string, prevCased: bool, c: char)
    requires !IsCased(c)
    ensures (forall i :: 0 <= i < |s| ==> s[i] != c) ==>
              forall i :: 0 <= i < |TitleFrom(s, prevCased)| ==> TitleFrom(s, prevCased)[i] != c
  {
    TitleFromChars(s, prevCased);
    var r := TitleFrom(s, prevCased);
    if forall i :: 0 <= i < |s| ==> s[i] != c {
      forall i | 0 <= i < |r|
        ensures r[i] != c
      {
        CaseMappingKeepsCased(s[i]);
        assert r[i] == MapCase(s[i], CasedBefore(s, prevCased, i));
      }
    }
  }

  /** The decimal digit for `d`. */
  function DigitChar(d: nat): (c: char)
    requires d < 10
    ensures '0' <= c <= '9'
  {
    ('0' as int + d) as char
  }

  /** `str(n)` for a natural number. */
  function NatToString(n: nat): (r: string)
    ensures |r| >= 1
    ensures n >= 10 ==> |r| >= 2
    ensures forall i :: 0 <= i < |r| ==> '0' <= r[i] <= '9'
  {
    if n < 10 then [DigitChar(n)] else NatToString(n / 10) + [DigitChar(n % 10)]
  }

  /** Distinct numbers print differently. */
  lemma {:induction false} NatToStringInjective(m: nat, n: nat)
    ensures NatToString(m) == NatToString(n) ==> m == n
    decreases m
  {
    if NatToString(m) == NatToString(n) {
      if m >= 10 && n >= 10 {
        LastDigit(m);
        LastDigit(n);
        NatToStringInjective(m / 10, n / 10);
        DigitsDetermine(m);
        DigitsDetermine(n);
      } else if m < 10 && n < 10 {
        assert NatToString(m)[0] == DigitChar(m);
      }
    }
  }

  /** The printed form of a number of two or more digits: the prefix prints the quotient
      and the last character is the last digit. */
  lemma LastDigit(n: nat)
    requires n >= 10
    ensures var s := NatToString(n);
      s[..|s| - 1] == NatToString(n / 10) && s[|s| - 1] == DigitChar(n % 10)
  {
  }

  /** A number is given by its quotient and its last digit. */
  lemma DigitsDetermine(n: nat)
    ensures n == 10 * (n / 10) + n % 10
  {
  }

  /** Prefixing a fixed tag keeps distinct numbers distinct (ids such as `detection_3`). */
  lemma TaggedIdInjective(tag: string, m: nat, n: nat)
    ensures tag + NatToString(m) == tag + NatToString(n) ==> m == n
  {
    if tag + NatToString(m) == tag + NatToString(n) {
      assert NatToString(m) == (tag + NatToString(m))[|tag|..];
      assert NatToString(n) == (tag + NatToString(n))[|tag|..];
      NatToStringInjective(m, n);
    }
  }

  /** `sep.join(parts)`. */
  function Join(parts: seq<string>, sep: string): (r: string)
    ensures |parts| > 0 ==> StartsWith(r, parts[0])
  {
    if parts == [] then ""
    else if |parts| == 1 then parts[0]
    else parts[0] + sep + Join(parts[1..], sep)
  }

  /** `s.lstrip(c)` for one character: every leading `c` is removed. */
  function LStrip(s: string, c: char): (r: string)
    ensures |r| <= |s| && r == s[|s| - |r|..]
    ensures forall i :: 0 <= i < |s| - |r| ==> s[i] == c
    ensures r == [] || r[0] != c
  {
    if s != [] && s[0] == c then LStrip(s[1..], c) else s
  }

  /** Python's `s[i:j]` for non-negative bounds: both ends are clamped to the length. */
  function Slice(s: string, i: nat, j: nat): (r: string)
    ensures |r| <= |s| && (i <= j ==> |r| <= j - i)
    ensures j <= |s| && i <= j ==> r == s[i..j]
    ensures |s| <= i ==> r == []
  {
    var hi := if j < |s| then j else |s|;
    var lo := if i < hi then i else hi;
    s[lo..hi]
  }
}
