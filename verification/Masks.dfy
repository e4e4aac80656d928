/** Card and account masks: digits and wildcards whose positions matter. */
module Masks {
  import opened Rows

  const WILDCARD := 'X'

  predicate IsWildcard(ch: char) {
    ch in {'X', 'x', '*', '#'}
  }

  predicate IsSeparator(ch: char) {
    IsSpace(ch) || ch == '-'
  }

  predicate Readable(ch: char) {
    IsDigit(ch) || IsWildcard(ch) || IsSeparator(ch)
  }

  predicate IsMask(s: string) {
    forall i :: 0 <= i < |s| ==> IsDigit(s[i]) || s[i] == WILDCARD
  }

  /** The mask of a string all of whose characters are readable. */
  function Reduced(s: string): string {
    if s == "" then ""
    else
      var front, ch := Reduced(s[..|s| - 1]), s[|s| - 1];
      if IsDigit(ch) then front + [ch] else if IsWildcard(ch) then front + [WILDCARD] else front
  }

  function Normalize(s: string): string {
    if forall ch :: ch in s ==> Readable(ch) then Reduced(s) else ""
  }

  method NormalizeMask(s: Option<string>) returns (mask: string)
    ensures mask == if s.Some? then Normalize(s.value) else ""
  {
    if s.None? || s.value == "" {
      return "";
    }
    mask := "";
    for i := 0 to |s.value|
      invariant mask == Reduced(s.value[..i])
      invariant forall k :: 0 <= k < i ==> Readable(s.value[k])
    {
      assert s.value[..i + 1][..i] == s.value[..i];
      var ch := s.value[i];
      if IsDigit(ch) {
        mask := mask + [ch];
      } else if IsWildcard(ch) {
        mask := mask + [WILDCARD];
      } else if !IsSeparator(ch) {
        assert ch in s.value;
        return "";
      }
    }
    assert s.value[..|s.value|] == s.value;
  }

  /** The run of literal digits at the right edge. */
  function TrailingDigits(mask: string): nat {
    if mask != "" && IsDigit(mask[|mask| - 1]) then 1 + TrailingDigits(mask[..|mask| - 1]) else 0
  }

  method TrailingVisibleDigits(mask: string) returns (n: nat)
    ensures n == TrailingDigits(mask)
  {
    n := 0;
    assert mask[..|mask|] == mask;
    var i := |mask|;
    while i > 0
      invariant 0 <= i <= |mask| && n + TrailingDigits(mask[..i]) == TrailingDigits(mask)
    {
      assert mask[..i][..i - 1] == mask[..i - 1];
      if !IsDigit(mask[i - 1]) {
        break;
      }
      n := n + 1;
      i := i - 1;
    }
  }

  function Right(s: string, i: nat): char
    requires 1 <= i <= |s|
  {
    s[|s| - i]
  }

  predicate AgreeAt(a: string, b: string, i: nat)
    requires 1 <= i <= |a| && i <= |b|
  {
    Right(a, i) == WILDCARD || Right(b, i) == WILDCARD || Right(a, i) == Right(b, i)
  }

  predicate Matches(pattern: string, stored: string) {
    && pattern != "" && stored != ""
    && forall i :: 1 <= i <= |pattern| && i <= |stored| ==> AgreeAt(pattern, stored, i)
  }

  method MaskMatches(pattern: string, stored: string) returns (ok: bool)
    ensures ok == Matches(pattern, stored)
  {
    if pattern == "" || stored == "" {
      return false;
    }
    var overlap := if |pattern| <= |stored| then |pattern| else |stored|;
    for i := 1 to overlap + 1
      invariant forall k :: 1 <= k < i ==> AgreeAt(pattern, stored, k)
    {
      var p, s := Right(pattern, i), Right(stored, i);
      if p == WILDCARD || s == WILDCARD {
        continue;
      }
      if p != s {
        assert !AgreeAt(pattern, stored, i);
        return false;
      }
    }
    return true;
  }

  /******* What a match means *******/

  /** A full number that the mask can stand for: aligned at the right, each shown digit in place. */
  predicate Denotes(mask: string, number: string) {
    && AllDigits(number) && |mask| <= |number|
    && forall i :: 1 <= i <= |mask| ==> Right(mask, i) == WILDCARD || Right(mask, i) == Right(number, i)
  }

  /** A number both masks stand for, when they match: shown digits where either shows one. */
  function Witness(a: string, b: string): string {
    var n := if |a| >= |b| then |a| else |b|;
    seq(n, k requires 0 <= k < n =>
      var i := n - k;
      if i <= |a| && Right(a, i) != WILDCARD then Right(a, i)
      else if i <= |b| && Right(b, i) != WILDCARD then Right(b, i)
      else '0')
  }

  lemma WitnessFits(a: string, b: string)
    requires IsMask(a) && IsMask(b) && Matches(a, b)
    ensures Denotes(a, Witness(a, b)) && Denotes(b, Witness(a, b))
  {
    var number := Witness(a, b);
    forall i | 1 <= i <= |number|
      ensures Right(number, i) == (if i <= |a| && Right(a, i) != WILDCARD then Right(a, i)
                                   else if i <= |b| && Right(b, i) != WILDCARD then Right(b, i) else '0')
    {
    }
    forall i | 1 <= i <= |b| ensures Right(b, i) == WILDCARD || Right(b, i) == Right(number, i) {
      if i <= |a| { assert AgreeAt(a, b, i); }
    }
  }

  /** Two masks match exactly when some full number is denoted by both. */
  lemma MatchMeansCommonNumber(a: string, b: string)
    requires IsMask(a) && IsMask(b) && a != "" && b != ""
    ensures Matches(a, b) <==> exists number :: Denotes(a, number) && Denotes(b, number)
  {
    if Matches(a, b) {
      WitnessFits(a, b);
    }
    if number :| Denotes(a, number) && Denotes(b, number) {
      forall i | 1 <= i <= |a| && i <= |b| ensures AgreeAt(a, b, i) {}
    }
  }

  lemma MatchIsSymmetric(a: string, b: string)
    ensures Matches(a, b) <==> Matches(b, a)
  {
    forall i | 1 <= i <= |a| && i <= |b| ensures AgreeAt(a, b, i) <==> AgreeAt(b, a, i) {}
  }

  /** The same mask with some hidden digits shown. */
  predicate Reveals(mask: string, shown: string) {
    |mask| == |shown| && forall i :: 0 <= i < |mask| ==> mask[i] == WILDCARD || mask[i] == shown[i]
  }

  /** Showing hidden digits never creates a match. */
  lemma RevealingNeverMatchesMore(mask: string, shown: string, other: string)
    requires Reveals(mask, shown) && Matches(shown, other)
    ensures Matches(mask, other)
  {
    forall i | 1 <= i <= |mask| && i <= |other| ensures AgreeAt(mask, other, i) {
      assert AgreeAt(shown, other, i);
      assert mask[|mask| - i] == WILDCARD || mask[|mask| - i] == shown[|mask| - i];
    }
  }

  /** A longer incoming overhang is ignored, and so is a longer stored one. */
  lemma OverhangIsIgnored(a: string, b: string, head: string)
    requires a != "" && b != "" && |b| <= |a|
    ensures Matches(head + a, b) <==> Matches(a, b)
  {
    forall i | 1 <= i <= |b| ensures AgreeAt(head + a, b, i) <==> AgreeAt(a, b, i) {}
    if Matches(head + a, b) {
      forall i | 1 <= i <= |a| && i <= |b| ensures AgreeAt(a, b, i) {
        assert i <= |head + a| && AgreeAt(head + a, b, i);
      }
    }
  }

  /******* Normalizing *******/

  lemma {:induction false} ReducedIsMask(s: string)
    ensures IsMask(Reduced(s))
  {
    if s != "" { ReducedIsMask(s[..|s| - 1]); }
  }

  lemma {:induction false} ReducedOfMask(s: string)
    requires IsMask(s)
    ensures Reduced(s) == s
  {
    if s != "" {
      assert s == s[..|s| - 1] + [s[|s| - 1]];
      ReducedOfMask(s[..|s| - 1]);
    }
  }

  lemma NormalizeIsIdempotent(s: string)
    ensures IsMask(Normalize(s)) && Normalize(Normalize(s)) == Normalize(s)
  {
    ReducedIsMask(s);
    ReducedOfMask(Normalize(s));
    forall ch | ch in Normalize(s) ensures Readable(ch) {}
  }

  lemma {:induction false} ReducedConcat(a: string, b: string)
    ensures Reduced(a + b) == Reduced(a) + Reduced(b)
  {
    if b == "" {
      assert a + b == a;
    } else {
      assert (a + b)[..|a + b| - 1] == a + b[..|b| - 1];
      ReducedConcat(a, b[..|b| - 1]);
    }
  }

  /** Separators may be inserted anywhere without changing the mask. */
  lemma SeparatorsAreIgnored(head: string, separator: char, tail: string)
    requires IsSeparator(separator)
    ensures Normalize(head + [separator] + tail) == Normalize(head + tail)
  {
    var with, without := head + [separator] + tail, head + tail;
    ReducedConcat(head + [separator], tail);
    ReducedConcat(head, [separator]);
    ReducedConcat(head, tail);
    assert !IsSeparator('X') && !IsSeparator('x') && !IsSeparator('*') && !IsSeparator('#');
    assert !IsDigit(separator) && !IsWildcard(separator);
    assert Reduced([separator]) == "" by { assert [separator][..0] == ""; }
    assert forall ch :: ch in with <==> ch in without || ch == separator;
  }

  /** One stray character rejects the whole string, and a rejected string matches nothing. */
  lemma UnreadableMatchesNothing(s: string, other: string, ch: char)
    requires ch in s && !Readable(ch)
    ensures Normalize(s) == "" && !Matches(Normalize(s), other) && !Matches(other, Normalize(s))
  {
  }

  /** Two numbers without wildcards match exactly when one ends in the other. */
  lemma NumbersMatchBySuffix(a: string, b: string)
    requires AllDigits(a) && AllDigits(b) && a != "" && b != "" && |b| <= |a|
    ensures Matches(a, b) <==> a[|a| - |b|..] == b
  {
    if Matches(a, b) {
      forall k | 0 <= k < |b| ensures a[|a| - |b|..][k] == b[k] {
        assert AgreeAt(a, b, |b| - k);
      }
    }
    if a[|a| - |b|..] == b {
      forall i | 1 <= i <= |a| && i <= |b| ensures AgreeAt(a, b, i) {
        assert a[|a| - |b|..][|b| - i] == b[|b| - i];
      }
    }
  }
}
