/**
 * Log tags: Android rejects tags longer than 23 characters, so every tag is
 * cut down to that length before use.
 *
 * A Java string's length and substrings count UTF-16 code units, so a tag is
 * modelled as a sequence of 16-bit code units; a character outside the Basic
 * Multilingual Plane takes two of them, and the cut may fall between the two.
 */
module LogUtils {

  /** One UTF-16 code unit, the element a Java string is indexed by. */
  newtype CodeUnit = x: int | 0 <= x < 0x1_0000

  /** A Java string: its code units in order. */
  type JavaString = seq<CodeUnit>

  const MAX_LOG_TAG_LENGTH: nat := 23

  /** A tag of at most 23 code units: the string itself when it fits, its first 23 code units otherwise. */
  function MakeLogTag(s: JavaString): (tag: JavaString)
    ensures |tag| <= MAX_LOG_TAG_LENGTH
    ensures tag <= s
    ensures |s| <= MAX_LOG_TAG_LENGTH ==> tag == s
    ensures |s| > MAX_LOG_TAG_LENGTH ==> tag == s[..MAX_LOG_TAG_LENGTH]
  {
    if |s| > MAX_LOG_TAG_LENGTH then s[..MAX_LOG_TAG_LENGTH] else s
  }

  /** Making a tag out of a tag changes nothing. */
  lemma MakeLogTagIdempotent(s: JavaString)
    ensures MakeLogTag(MakeLogTag(s)) == MakeLogTag(s)
  {
  }

  /** Whether a code unit is the first half of a surrogate pair. */
  predicate IsHighSurrogate(u: CodeUnit) {
    0xD800 <= u < 0xDC00
  }

  /**
   * Twenty-three characters from outside the Basic Multilingual Plane (U+1F600, the
   * pair D83D DE00 each) are 46 code units; the tag keeps eleven of them and the
   * first half of the twelfth.
   */
  lemma MakeLogTagSplitsSurrogatePair()
    ensures var s := seq(46, k => if k % 2 == 0 then 0xD83D as CodeUnit else 0xDE00 as CodeUnit);
            var tag := MakeLogTag(s);
            |tag| == 23 && IsHighSurrogate(tag[22]) && tag != s
  {
  }
}
