/**
 Substring containment as JavaScript's `String.prototype.includes` decides it:
 `s.includes(sub)` holds when `sub` occurs in `s` at some position, and the
 empty string occurs in every string.
 */
module Text {

  /** `sub` occurs in `s` starting at position `i`. */
  predicate OccursAt(s: string, sub: string, i: int) {
    0 <= i && i + |sub| <= |s| && s[i..i + |sub|] == sub
  }

  /**
   `s.includes(sub)`: `sub` occurs in `s` at some position. A contained
   string is never longer than its container, the empty string is contained
   in every string, and a string of the same length is contained only when
   the two are equal.
   */
  function Contains(s: string, sub: string): (r: bool)
    ensures r ==> |sub| <= |s|
    ensures sub == "" ==> r
    ensures |sub| == |s| ==> (r <==> sub == s)
  {
    assert sub == "" || sub == s ==> OccursAt(s, sub, 0);
    exists i | 0 <= i <= |s| - |sub| :: OccursAt(s, sub, i)
  }

  /** Nothing but the empty string is contained in the empty string. */
  lemma ContainedInEmpty(sub: string)
    ensures Contains("", sub) <==> sub == ""
  {
    if sub == "" {
      assert OccursAt("", sub, 0);
    }
  }

  /** A string contains itself. */
  lemma ContainsSelf(s: string)
    ensures Contains(s, s)
  {
    assert OccursAt(s, s, 0);
  }

  /**
   Containment survives concatenation on either side: an occurrence in `s`
   is still an occurrence in `p + s + q`.
   */
  lemma ContainsExtend(p: string, s: string, q: string, sub: string)
    requires Contains(s, sub)
    ensures Contains(p + s + q, sub)
  {
    var i :| 0 <= i <= |s| - |sub| && OccursAt(s, sub, i);
    var t := p + s + q;
    assert t[|p| + i..|p| + i + |sub|] == s[i..i + |sub|];
    assert OccursAt(t, sub, |p| + i);
  }

  /** Every character of a contained string is a character of the container. */
  lemma ContainsChar(s: string, sub: string, c: char)
    requires Contains(s, sub)
    requires c in sub
    ensures c in s
  {
    var i :| 0 <= i <= |s| - |sub| && OccursAt(s, sub, i);
    var k :| 0 <= k < |sub| && sub[k] == c;
    assert s[i + k] == s[i..i + |sub|][k];
  }

  /**
   `subs.some(t => s.includes(t))`: true exactly when the string at some
   index of `subs` is contained in `s`; false for an empty list.
   */
  function SomeContained(s: string, subs: seq<string>): (r: bool)
    ensures r <==> exists k :: 0 <= k < |subs| && Contains(s, subs[k])
  {
    |subs| > 0 && (Contains(s, subs[0]) || SomeContained(s, subs[1..]))
  }

  /** `some` holds exactly when one of the listed strings is contained. */
  lemma {:induction false} SomeContainedIff(s: string, subs: seq<string>)
    ensures SomeContained(s, subs) <==> exists t :: t in subs && Contains(s, t)
  {
    if |subs| > 0 {
      SomeContainedIff(s, subs[1..]);
      if exists t :: t in subs && Contains(s, t) {
        var t :| t in subs && Contains(s, t);
        if t != subs[0] {
          assert t in subs[1..];
        }
      }
    }
  }
}
