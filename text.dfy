/**
 * The two string operations the store's search relies on: JavaScript's
 * `toLowerCase` (here for ASCII and Latin-1 letters) and `includes`.
 */
module Text {

  /** Lower-case of one character: A-Z and the Latin-1 capitals À-Þ except ×. */
  function LowerChar(c: char): (d: char)
  {
    if 'A' <= c <= 'Z' then (c as int + 32) as char
    else if 'À' <= c <= 'Þ' && c != '×' then (c as int + 32) as char
    else c
  }

  predicate IsUpper(c: char)
  {
    ('A' <= c <= 'Z') || ('À' <= c <= 'Þ' && c != '×')
  }

  /** Lower-casing changes exactly the capitals, and lower-cases them for good. */
  lemma LowerCharProperties(c: char)
    ensures LowerChar(c) != c <==> IsUpper(c)
    ensures !IsUpper(LowerChar(c))
    ensures LowerChar(LowerChar(c)) == LowerChar(c)
  {
  }

  /** String.prototype.toLowerCase, character by character. */
  function Lower(s: string): (r: string)
    ensures |r| == |s|
    ensures forall i | 0 <= i < |s| :: !IsUpper(r[i])
    ensures forall i | 0 <= i < |s| :: !IsUpper(s[i]) ==> r[i] == s[i]
    ensures forall i | 0 <= i < |s| :: IsUpper(s[i]) ==> r[i] as int == s[i] as int + 32
  {
    seq(|s|, i requires 0 <= i < |s| => LowerChar(s[i]))
  }

  /** Lower-casing twice is lower-casing once. */
  lemma LowerIdempotent(s: string)
    ensures Lower(Lower(s)) == Lower(s)
  {
    forall i | 0 <= i < |s|
      ensures Lower(Lower(s))[i] == Lower(s)[i]
    {
      LowerCharProperties(s[i]);
    }
  }

  /** `needle` occurs in `hay` starting at position `at`. */
  predicate OccursAt(hay: string, needle: string, at: int)
  {
    0 <= at && at + |needle| <= |hay| && hay[at..at + |needle|] == needle
  }

  /** String.prototype.includes: some suffix of `hay` starts with `needle`. */
  function Includes(hay: string, needle: string): (found: bool)
    decreases |hay|
  {
    if |needle| > |hay| then false
    else if hay[..|needle|] == needle then true
    else Includes(hay[1..], needle)
  }

  /** An occurrence at any position is found by `Includes`. */
  lemma {:induction false} IncludesOccurrence(hay: string, needle: string, at: int)
    requires OccursAt(hay, needle, at)
    ensures Includes(hay, needle)
    decreases at
  {
    if hay[..|needle|] != needle {
      assert at != 0;
      assert hay[1..][at - 1..at - 1 + |needle|] == hay[at..at + |needle|];
      IncludesOccurrence(hay[1..], needle, at - 1);
    }
  }

  /** When `Includes` holds, the needle occurs at some position. */
  lemma {:induction false} IncludesFound(hay: string, needle: string)
    requires Includes(hay, needle)
    ensures exists at :: OccursAt(hay, needle, at)
    decreases |hay|
  {
    if hay[..|needle|] == needle {
      assert OccursAt(hay, needle, 0);
    } else {
      IncludesFound(hay[1..], needle);
      var at :| OccursAt(hay[1..], needle, at);
      assert hay[at + 1..at + 1 + |needle|] == hay[1..][at..at + |needle|];
      assert OccursAt(hay, needle, at + 1);
    }
  }

  /** `Includes` holds exactly when the needle occurs at some position. */
  lemma IncludesIff(hay: string, needle: string)
    ensures Includes(hay, needle) <==> exists at :: OccursAt(hay, needle, at)
  {
    if Includes(hay, needle) {
      IncludesFound(hay, needle);
    }
    if exists at :: OccursAt(hay, needle, at) {
      var at :| OccursAt(hay, needle, at);
      IncludesOccurrence(hay, needle, at);
    }
  }

  /** The empty string occurs in every string. */
  lemma IncludesEmpty(hay: string)
    ensures Includes(hay, "")
  {
    assert OccursAt(hay, "", 0);
    IncludesIff(hay, "");
  }
}
