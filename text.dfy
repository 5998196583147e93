/**
 * The two string operations the optimizer's weekend branch applies to call-type
 * names: lower-casing and the substring test of Python's `in` operator.
 */
module Text {

  /** Lower-cases an ASCII capital letter and leaves every other character alone. */
  function LowerChar(c: char): char {
    if 'A' <= c <= 'Z' then (c as int + 32) as char else c
  }

  /** `s.lower()`, restricted to ASCII letters. */
  function Lower(s: string): string {
    seq(|s|, i requires 0 <= i < |s| => LowerChar(s[i]))
  }

  /** The pattern occurs in the text starting at position `i`. */
  predicate OccursAt(text: string, pattern: string, i: int) {
    0 <= i && i + |pattern| <= |text| && text[i..i + |pattern|] == pattern
  }

  /** `pattern in text`: the pattern occurs as a contiguous block of the text. */
  predicate ContainsText(text: string, pattern: string) {
    exists i | 0 <= i <= |text| :: OccursAt(text, pattern, i)
  }

  /** A text shorter than the pattern cannot contain it. */
  lemma ShortTextContainsNothing(text: string, pattern: string)
    requires |text| < |pattern|
    ensures !ContainsText(text, pattern)
  {
  }
}
