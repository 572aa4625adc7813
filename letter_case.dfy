/**
 Character-wise case mapping for the two alphabets the emergency vocabulary
 is written in: Latin `A`..`Z` and Russian Cyrillic `А`..`Я` plus `Ё`. Every
 other character maps to itself.
 */
module LetterCase {
  import opened Text

  /** Offset from a capital to its small letter in `A`..`Z` and in `А`..`Я`. */
  const CaseOffset: int := 0x20
  /** `Ё` (U+0401) and `ё` (U+0451) lie outside the contiguous Cyrillic block. */
  const CapitalYo: char := 'Ё'
  const SmallYo: char := 'ё'

  predicate IsUpper(c: char) {
    ('A' <= c <= 'Z') || ('А' <= c <= 'Я') || c == CapitalYo
  }

  predicate IsLower(c: char) {
    ('a' <= c <= 'z') || ('а' <= c <= 'я') || c == SmallYo
  }

  /** The small letter of a capital; any other character unchanged. */
  function LowerChar(c: char): (d: char)
    ensures !IsUpper(d)
    ensures IsUpper(c) ==> IsLower(d)
    ensures !IsUpper(c) ==> d == c
  {
    if ('A' <= c <= 'Z') || ('А' <= c <= 'Я') then (c as int + CaseOffset) as char
    else if c == CapitalYo then SmallYo
    else c
  }

  /**
   The capital of a small letter; any other character unchanged. The server
   never capitalises; this mapping and the lemmas about it only serve to
   show that detection gives the same flag for a capitalised message.
   */
  function UpperChar(c: char): (d: char)
    ensures !IsLower(d)
    ensures IsLower(c) ==> IsUpper(d)
    ensures !IsLower(c) ==> d == c
  {
    if ('a' <= c <= 'z') || ('а' <= c <= 'я') then (c as int - CaseOffset) as char
    else if c == SmallYo then CapitalYo
    else c
  }

  /** The two mappings undo each other on the letters they move (used by `NotInLower`). */
  lemma CaseRoundTrip(c: char)
    ensures IsUpper(c) ==> UpperChar(LowerChar(c)) == c
    ensures IsLower(c) ==> LowerChar(UpperChar(c)) == c
  {
  }

  /** A character and its capital have the same small form (used by `LowerOfUpper`). */
  lemma LowerOfUpperChar(c: char)
    ensures LowerChar(UpperChar(c)) == LowerChar(c)
  {
  }

  /** `s.toLowerCase()` restricted to the two alphabets above. */
  function Lower(s: string): (r: string)
    ensures |r| == |s|
    ensures forall i :: 0 <= i < |s| ==> r[i] == LowerChar(s[i])
  {
    if s == [] then [] else [LowerChar(s[0])] + Lower(s[1..])
  }

  /**
   Capitalisation over the two alphabets above; not used by the server, only
   stated so that `DetectionIgnoresCase` can compare a message with its
   capitalised form.
   */
  function Upper(s: string): (r: string)
    ensures |r| == |s|
    ensures forall i :: 0 <= i < |s| ==> r[i] == UpperChar(s[i])
  {
    if s == [] then [] else [UpperChar(s[0])] + Upper(s[1..])
  }

  /** A string is in lower case when none of its characters is a capital. */
  predicate IsLowerCase(s: string) {
    forall i :: 0 <= i < |s| ==> !IsUpper(s[i])
  }

  /** Lower-casing yields a lower-case string. */
  lemma LowerIsLowerCase(s: string)
    ensures IsLowerCase(Lower(s))
  {
  }

  /** Lower-casing leaves a lower-case string unchanged. */
  lemma LowerFixesLowerCase(s: string)
    requires IsLowerCase(s)
    ensures Lower(s) == s
  {
  }

  /** Lower-casing twice is lower-casing once. */
  lemma LowerIdempotent(s: string)
    ensures Lower(Lower(s)) == Lower(s)
  {
    LowerIsLowerCase(s);
    LowerFixesLowerCase(Lower(s));
  }

  /** Capitalising first does not change the lower-case form. */
  lemma LowerOfUpper(s: string)
    ensures Lower(Upper(s)) == Lower(s)
  {
    forall i | 0 <= i < |s|
      ensures Lower(Upper(s))[i] == Lower(s)[i]
    {
      LowerOfUpperChar(s[i]);
    }
  }

  /** Lower-casing works piecewise on a concatenation. */
  lemma LowerConcat(a: string, b: string)
    ensures Lower(a + b) == Lower(a) + Lower(b)
  {
    forall i | 0 <= i < |a + b|
      ensures Lower(a + b)[i] == (Lower(a) + Lower(b))[i]
    {
      if i < |a| {
        assert (a + b)[i] == a[i];
      } else {
        assert (a + b)[i] == b[i - |a|];
      }
    }
  }

  /** An occurrence of `sub` in `s` is an occurrence of `Lower(sub)` in `Lower(s)`. */
  lemma ContainsLower(s: string, sub: string)
    requires Contains(s, sub)
    ensures Contains(Lower(s), Lower(sub))
  {
    var i :| 0 <= i <= |s| - |sub| && OccursAt(s, sub, i);
    var ls, lsub := Lower(s), Lower(sub);
    forall k | 0 <= k < |sub|
      ensures ls[i..i + |sub|][k] == lsub[k]
    {
      assert s[i..i + |sub|][k] == sub[k];
    }
    assert OccursAt(ls, lsub, i);
  }

  /**
   A character that is not a letter, or that is already small and whose
   capital is absent too, is in `Lower(s)` only if it is in `s`.
   */
  lemma NotInLower(s: string, c: char)
    requires c !in s
    requires !IsLower(c) || UpperChar(c) !in s
    ensures c !in Lower(s)
  {
    if c in Lower(s) {
      var i :| 0 <= i < |s| && Lower(s)[i] == c;
      assert LowerChar(s[i]) == c;
      CaseRoundTrip(s[i]);
    }
  }
}
