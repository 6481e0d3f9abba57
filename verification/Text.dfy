/** Character classes and string searching shared by the text components. */
module Text {

  predicate IsDigit(c: char) { '0' <= c <= '9' }

  predicate IsWordChar(c: char) {
    'a' <= c <= 'z' || 'A' <= c <= 'Z' || IsDigit(c) || c == '_'
  }

  predicate IsSpace(c: char) {
    c == ' ' || c == '\t' || c == '\n' || c == '\r' || c == '\U{000B}' || c == '\U{000C}'
  }

  /** `str.lower`, one character at a time. */
  function LowerChar(c: char): char {
    if 'A' <= c <= 'Z' then ((c as int) + 32) as char else c
  }

  function Lower(s: string): string {
    seq(|s|, i requires 0 <= i < |s| => LowerChar(s[i]))
  }

  lemma ConcatAssociative(a: string, b: string, c: string)
    ensures (a + b) + c == a + (b + c)
  {
  }

  /** `needle in hay`, by position. */
  predicate Contains(hay: string, needle: string) {
    exists i | 0 <= i <= |hay| :: OccursAt(hay, needle, i)
  }

  predicate OccursAt(hay: string, needle: string, i: int) {
    0 <= i <= |hay| - |needle| && hay[i..i + |needle|] == needle
  }

  lemma {:induction false} ContainsSplit(pre: string, needle: string, post: string)
    ensures Contains(pre + needle + post, needle)
  {
    var hay := pre + needle + post;
    assert hay[|pre|..|pre| + |needle|] == needle;
    assert OccursAt(hay, needle, |pre|);
  }

  /** Substring containment is transitive. */
  lemma {:induction false} ContainsTransitive(outer: string, middle: string, inner: string)
    requires Contains(outer, middle) && Contains(middle, inner)
    ensures Contains(outer, inner)
  {
    var i: int :| 0 <= i <= |outer| && OccursAt(outer, middle, i);
    var j: int :| 0 <= j <= |middle| && OccursAt(middle, inner, j);
    var start := i + j;
    forall k | 0 <= k < |inner| ensures outer[start + k] == inner[k] {
      assert middle[j + k] == middle[j..j + |inner|][k];
      assert outer[i + (j + k)] == outer[i..i + |middle|][j + k];
    }
    assert outer[start..start + |inner|] == inner;
    assert OccursAt(outer, inner, i + j);
  }

  lemma LowerConcat(a: string, b: string)
    ensures Lower(a + b) == Lower(a) + Lower(b)
  {
  }

  /** Lowering both sides of a containment keeps it. */
  lemma {:induction false} LowerContains(hay: string, needle: string)
    requires Contains(hay, needle)
    ensures Contains(Lower(hay), Lower(needle))
  {
    var i: int :| 0 <= i <= |hay| && OccursAt(hay, needle, i);
    assert Lower(hay)[i..i + |needle|] == Lower(needle) by {
      forall k | 0 <= k < |needle| ensures Lower(hay)[i + k] == Lower(needle)[k] {
        assert hay[i + k] == hay[i..i + |needle|][k];
      }
    }
    assert OccursAt(Lower(hay), Lower(needle), i);
  }
}
