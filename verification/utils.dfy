/** `textLimitCheck` of src/lib/server/utils.js. */
module Utils {

  const DefaultMaxLength: int := 255

  /** Whether `text` is at most `maxLength` long; the limit defaults to 255.
      Equivalently, cutting the text to its first `maxLength` characters loses
      nothing. Length is counted in characters; JavaScript counts UTF-16 code
      units, which differ for characters outside the Basic Multilingual Plane. */
  function TextLimitCheck(text: string, maxLength: int := DefaultMaxLength): (ok: bool)
    ensures ok <==> 0 <= maxLength && text[..if |text| < maxLength then |text| else maxLength] == text
  {
    |text| <= maxLength
  }

  /** Called with the text alone, the check admits exactly the texts of at most
      255 characters. */
  lemma DefaultLimit(text: string)
    ensures TextLimitCheck(text) <==> |text| <= 255
  {
  }

  /** Raising the limit never rejects a text that passed. */
  lemma Monotone(text: string, m: int, m': int)
    requires m <= m' && TextLimitCheck(text, m)
    ensures TextLimitCheck(text, m')
  {
  }

  /** Every prefix of a text that passes also passes. */
  lemma PrefixClosed(text: string, n: nat, m: int)
    requires n <= |text| && TextLimitCheck(text, m)
    ensures TextLimitCheck(text[..n], m)
  {
  }
}
