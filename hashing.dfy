/**
 * Post-processing of the content digest in hashFile: a `base64` digest is
 * made safe for file names and URLs. The digest itself is computed by the
 * host's crypto library and is an uninterpreted input here.
 */
module Hashing {

  predicate UrlUnsafe(c: char) {
    c == '/' || c == '+' || c == '='
  }

  predicate UrlSafeText(s: string) {
    forall k :: 0 <= k < |s| ==> !UrlUnsafe(s[k])
  }

  /** What one character of the digest becomes: `/` is `_`, `+` is `-`, `=` is dropped. */
  function SafeChar(c: char): string {
    if c == '/' then "_" else if c == '+' then "-" else if c == '=' then "" else [c]
  }

  /** `digest.replace(/[/+=]/g, ...)`: every character replaced independently, left to right. */
  function UrlSafe(s: string): (r: string)
    ensures UrlSafeText(r)
    ensures |r| <= |s|
  {
    if s == [] then [] else SafeChar(s[0]) + UrlSafe(s[1..])
  }

  /** The digest kept by hashFile: rewritten when the encoding is `base64`, untouched otherwise. */
  function FinishDigest(encoding: string, raw: string): (r: string)
    ensures encoding == "base64" ==> UrlSafeText(r)
    ensures encoding != "base64" ==> r == raw
  {
    if encoding == "base64" then UrlSafe(raw) else raw
  }

  /** The rewrite works character by character, so it distributes over concatenation. */
  lemma {:induction false} UrlSafeAppend(a: string, b: string)
    ensures UrlSafe(a + b) == UrlSafe(a) + UrlSafe(b)
  {
    if a == [] {
      assert a + b == b;
    } else {
      assert (a + b)[1..] == a[1..] + b;
      UrlSafeAppend(a[1..], b);
    }
  }

  /** A digest without `/`, `+` or `=` is kept exactly, so every other character survives in order. */
  lemma {:induction false} UrlSafeKeepsSafeText(s: string)
    requires UrlSafeText(s)
    ensures UrlSafe(s) == s
  {
    if s != [] {
      UrlSafeKeepsSafeText(s[1..]);
    }
  }

  /** Rewriting an already rewritten digest changes nothing. */
  lemma {:induction false} UrlSafeIdempotent(s: string)
    ensures UrlSafe(UrlSafe(s)) == UrlSafe(s)
  {
    UrlSafeKeepsSafeText(UrlSafe(s));
  }

  /** Number of `=` padding characters in `s`. */
  function Padding(s: string): nat {
    if s == [] then 0 else (if s[0] == '=' then 1 else 0) + Padding(s[1..])
  }

  /** Only `=` is deleted: the length drops by exactly the padding count. */
  lemma {:induction false} UrlSafeLength(s: string)
    ensures |UrlSafe(s)| == |s| - Padding(s)
  {
    if s != [] {
      UrlSafeLength(s[1..]);
    }
  }

  /** Base64 padding disappears: `Zm8=` (the encoding of `fo`) is kept as `Zm8`. */
  lemma {:induction false} PaddingExample()
    ensures UrlSafe("Zm8=") == "Zm8"
  {
  }

  /** `+` and `/` are replaced in place, not dropped. */
  lemma {:induction false} SubstitutionExample()
    ensures UrlSafe("a+b/c=") == "a-b_c"
  {
    assert UrlSafe("c=") == "c";
    assert UrlSafe("/c=") == "_c";
    assert UrlSafe("b/c=") == "b_c";
    assert UrlSafe("+b/c=") == "-b_c";
  }
}
