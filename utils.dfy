/** The one helper of lib/utils.js (index.js carries an identical method of the same name). */
module Utils {

  predicate EndsWithSlash(s: string) {
    |s| > 0 && s[|s| - 1] == '/'
  }

  /**
   * Appends `/` to a non-empty string that does not already end with one:
   * the result is the input, or the input plus exactly one `/`, and it ends
   * with `/` unless it is empty.
   */
  function EnsureTrailingSlash(s: string): (r: string)
    ensures r == s || r == s + "/"
    ensures r == s <==> s == [] || EndsWithSlash(s)
    ensures r != [] ==> EndsWithSlash(r)
  {
    if |s| > 0 && s[|s| - 1] != '/' then s + "/" else s
  }

  /** Applying it twice is applying it once; the input stays a prefix and grows by at most one character. */
  lemma {:induction false} EnsureTrailingSlashIdempotent(s: string)
    ensures EnsureTrailingSlash(EnsureTrailingSlash(s)) == EnsureTrailingSlash(s)
    ensures var r := EnsureTrailingSlash(s); |s| <= |r| <= |s| + 1 && r[..|s|] == s
  {
  }
}
