/**
 * String operations the filters use: `toLowerCase` (on ASCII letters) and `includes`.
 */
module Text {

  /** `toLowerCase` on one character, ASCII letters only. */
  function LowerChar(c: char): char {
    if 'A' <= c <= 'Z' then (c as int + 32) as char else c
  }

  function Lower(s: string): (r: string)
    ensures |r| == |s|
    ensures forall i :: 0 <= i < |s| ==> r[i] == LowerChar(s[i])
  {
    seq(|s|, i requires 0 <= i < |s| => LowerChar(s[i]))
  }

  /** `sub` occurs in `s` starting at index `i`. */
  predicate OccursAt(s: string, sub: string, i: int) {
    0 <= i && i + |sub| <= |s| && s[i..i + |sub|] == sub
  }

  /** `s.includes(sub)`. */
  predicate Contains(s: string, sub: string) {
    exists i :: 0 <= i <= |s| - |sub| && OccursAt(s, sub, i)
  }

  /** `s.toLowerCase().includes(sub.toLowerCase())`. */
  predicate ContainsIgnoringCase(s: string, sub: string) {
    Contains(Lower(s), Lower(sub))
  }

  lemma LowerIdempotent(s: string)
    ensures Lower(Lower(s)) == Lower(s)
  {
  }

  /** Lower-casing commutes with taking a slice. */
  lemma LowerSlice(s: string, i: int, j: int)
    requires 0 <= i <= j <= |s|
    ensures Lower(s)[i..j] == Lower(s[i..j])
  {
  }

  /** A case-sensitive match is also a case-insensitive one. */
  lemma ContainsIgnoringCaseWeaker(s: string, sub: string)
    requires Contains(s, sub)
    ensures ContainsIgnoringCase(s, sub)
  {
    var i :| 0 <= i <= |s| - |sub| && OccursAt(s, sub, i);
    LowerSlice(s, i, i + |sub|);
    assert OccursAt(Lower(s), Lower(sub), i);
  }

  /** The case-insensitive test ignores the case of both the text and the query. */
  lemma ContainsIgnoringCaseInvariant(s: string, sub: string)
    ensures ContainsIgnoringCase(Lower(s), sub) == ContainsIgnoringCase(s, sub)
    ensures ContainsIgnoringCase(s, Lower(sub)) == ContainsIgnoringCase(s, sub)
  {
    LowerIdempotent(s);
    LowerIdempotent(sub);
  }

  /** A non-empty query never occurs in the empty string. */
  lemma NothingInEmpty(sub: string)
    requires sub != ""
    ensures !Contains("", sub)
  {
  }

  /** Case matters to `Contains` and not to `ContainsIgnoringCase`. */
  lemma CaseExample()
    ensures !Contains("Ana", "an") && ContainsIgnoringCase("Ana", "an")
  {
    assert OccursAt(Lower("Ana"), Lower("an"), 0) by {
      assert Lower("Ana") == "ana";
      assert Lower("an") == "an";
    }
    forall i ensures !OccursAt("Ana", "an", i) {
      if 0 <= i && i + 2 <= 3 {
        assert "Ana"[i..i + 2] == if i == 0 then "An" else "na";
      }
    }
  }
}
