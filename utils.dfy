/** The string helper of Utils/index.ts used to shorten overviews on cards. */
module Utils {

  /** The length `truncate` uses when its caller gives none. */
  const DefaultTruncateLength: nat := 140

  /** U+2026 HORIZONTAL ELLIPSIS, the marker appended to a shortened text. */
  const Ellipsis: char := '\U{2026}'

  /**
   * truncate(text, n): the empty text stays empty, a text of at most `n`
   * characters is kept, a longer one is cut to its first `n` characters
   * followed by the ellipsis.
   */
  function Truncate(text: string, n: nat := DefaultTruncateLength): (r: string)
    ensures |r| <= n + 1
    ensures |text| <= n ==> r == text
    ensures |text| > n ==> |r| == n + 1 && r[..n] == text[..n] && r[n] == Ellipsis
  {
    if text == [] then []
    else if |text| > n then text[..n] + [Ellipsis]
    else text
  }

  /** With the default length no shortened overview exceeds 141 characters. */
  lemma TruncateDefaultBound(text: string)
    ensures |Truncate(text)| <= DefaultTruncateLength + 1
    ensures |text| > DefaultTruncateLength ==> |Truncate(text)| == 141
  {
  }
}
