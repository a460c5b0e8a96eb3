/**
 * The Naming Engine: getFileName's string logic, shared by lib/index.js and
 * index.js. The template's first `[hash]` or `[hash:N]` token receives the
 * digest (or its first N characters), a `.js` template gets a hash slot
 * synthesized when hashing is forced, and then the first `[name]` token
 * receives the configured name.
 */
module Naming {
  import opened Wrappers
  import opened Text

  const NameToken := "[name]"
  /** Every hash token starts with these five characters. */
  const HashOpen := "[hash"

  predicate IsDigit(c: char) {
    '0' <= c <= '9'
  }

  predicate AllDigits(s: string) {
    forall k :: 0 <= k < |s| ==> IsDigit(s[k])
  }

  /** Length of the run of decimal digits starting at `i` (`\d+` matches greedily). */
  function DigitRun(s: string, i: nat): (n: nat)
    requires i <= |s|
    ensures i + n <= |s|
    ensures forall k :: i <= k < i + n ==> IsDigit(s[k])
    ensures i + n == |s| || !IsDigit(s[i + n])
    decreases |s| - i
  {
    if i < |s| && IsDigit(s[i]) then 1 + DigitRun(s, i + 1) else 0
  }

  /** A run of digits ending at a non-digit, at least `n` long, is exactly `n` long. */
  lemma {:induction false} DigitRunExact(s: string, i: nat, n: nat)
    requires i + n < |s|
    requires forall k :: i <= k < i + n ==> IsDigit(s[k])
    requires !IsDigit(s[i + n])
    ensures DigitRun(s, i) == n
  {
  }

  /** `Number(ds)` for a non-empty digit string (leading zeros allowed). */
  function DecimalValue(ds: string): nat
    requires AllDigits(ds)
  {
    if ds == [] then 0
    else 10 * DecimalValue(ds[..|ds| - 1]) + (ds[|ds| - 1] as int - '0' as int)
  }

  /** How much of a string's beginning a hash token covers, and its length group when present. */
  datatype TokenMatch = TokenMatch(length: nat, width: Option<nat>)

  /** `/\[hash(?::(\d+))?\]/` tried at the very beginning of `u`. */
  function LeadingToken(u: string): (r: Option<TokenMatch>)
    ensures r.Some? ==> 0 < r.value.length <= |u| && StartsWith(u, HashOpen)
  {
    if StartsWith(u, "[hash]") then
      assert u[..5] == u[..6][..5];
      Some(TokenMatch(6, None))
    else if StartsWith(u, "[hash:") then
      assert u[..5] == u[..6][..5];
      var n := DigitRun(u, 6);
      if n > 0 && 6 + n < |u| && u[6 + n] == ']' then
        Some(TokenMatch(7 + n, Some(DecimalValue(u[6..6 + n]))))
      else None
    else None
  }

  /** A match of the hash pattern in a template: where it starts and ends, and the length group. */
  datatype HashToken = HashToken(start: nat, end: nat, width: Option<nat>)

  /** No hash token starts at any index of `s` in `[lo, hi)`. */
  predicate NoTokenIn(s: string, lo: nat, hi: nat) {
    forall j :: lo <= j < hi && j <= |s| ==> LeadingToken(s[j..]).None?
  }

  /** `hashRegExp.exec(s)` from index `i`: the leftmost match. */
  function FindHashToken(s: string, i: nat): (r: Option<HashToken>)
    requires i <= |s|
    ensures r.Some? ==> i <= r.value.start < r.value.end <= |s|
    ensures r.Some? ==> LeadingToken(s[r.value.start..]) == Some(TokenMatch(r.value.end - r.value.start, r.value.width))
    decreases |s| - i
  {
    match LeadingToken(s[i..])
    case Some(m) => Some(HashToken(i, i + m.length, m.width))
    case None => if i == |s| then None else FindHashToken(s, i + 1)
  }

  /** The match found is the leftmost: no token starts before it, and none anywhere when there is no match. */
  lemma {:induction false} FindHashTokenLeftmost(s: string, i: nat)
    requires i <= |s|
    ensures FindHashToken(s, i).Some? ==> NoTokenIn(s, i, FindHashToken(s, i).value.start)
    ensures FindHashToken(s, i).None? ==> NoTokenIn(s, i, |s| + 1)
    decreases |s| - i
  {
    if LeadingToken(s[i..]).None? && i < |s| {
      FindHashTokenLeftmost(s, i + 1);
    }
  }

  /** `hashRegExp.test(s)`. */
  predicate HasHashToken(s: string) {
    FindHashToken(s, 0).Some?
  }

  /** `digest.slice(0, hashLength)`, where the length is the captured number or the whole digest. */
  function HashSlice(digest: string, width: Option<nat>): (r: string)
    ensures |r| <= |digest| && r == digest[..|r|]
    ensures width.None? ==> r == digest
    ensures width.Some? ==> |r| == if width.value < |digest| then width.value else |digest|
  {
    match width
    case None => digest
    case Some(n) => if n < |digest| then digest[..n] else digest
  }

  /** `s.replace(hashRegExp, slice)`; `None` when there is no match (`regResult` is null). */
  function SubstituteHash(s: string, digest: string): Option<string> {
    match FindHashToken(s, 0)
    case None => None
    case Some(t) => Some(s[..t.start] + HashSlice(digest, t.width) + s[t.end..])
  }

  /** `filePath.replace(/\.js$/, '.[hash].js')` when the template holds no hash token. */
  function WithHashSlot(template: string): string {
    if HasHashToken(template) then template
    else if EndsWith(template, ".js") then template[..|template| - 3] + ".[hash].js"
    else template
  }

  /** getFileName hashes when `useHash` is set or the template holds a hash token. */
  predicate NeedsHash(useHash: bool, template: string) {
    useHash || HasHashToken(template)
  }

  /** `regResult[1]` on a null match throws a TypeError. */
  datatype NamingError = NoHashSlot

  /**
   * The file name getFileName derives. `digest` is the processed content
   * hash; it is only looked at when NeedsHash holds.
   */
  function FileName(template: string, useHash: bool, name: string, digest: string): (r: Result<string, NamingError>)
    ensures !NeedsHash(useHash, template) ==> r == Success(ReplaceFirst(template, NameToken, name))
    ensures r.Failure? <==> NeedsHash(useHash, template) && !HasHashToken(template) && !EndsWith(template, ".js")
  {
    if NeedsHash(useHash, template) then
      var slotted := WithHashSlot(template);
      SlottedHasToken(template);
      match SubstituteHash(slotted, digest)
      case None => Failure(NoHashSlot)
      case Some(hashed) => Success(ReplaceFirst(hashed, NameToken, name))
    else Success(ReplaceFirst(template, NameToken, name))
  }

  /** After slot synthesis a hash token exists exactly when one existed or the template ends in `.js`. */
  lemma {:induction false} SlottedHasToken(template: string)
    ensures HasHashToken(WithHashSlot(template)) <==> HasHashToken(template) || EndsWith(template, ".js")
  {
    if !HasHashToken(template) && EndsWith(template, ".js") {
      var s := WithHashSlot(template);
      var stem := template[..|template| - 3] + ".";
      assert s == stem + "[hash].js" by {
        assert ".[hash].js" == "." + "[hash].js";
        Regroup3(template[..|template| - 3], ".", "[hash].js");
      }
      DropLeading(stem, "[hash].js");
      assert LeadingToken("[hash].js").Some? by {
        assert "[hash].js"[..6] == "[hash]";
      }
      FindHashTokenLeftmost(s, 0);
      assert LeadingToken(s[|stem|..]).Some?;
    }
  }

  /** The first hash token is the one at `k` when none starts earlier. */
  lemma {:induction false} FirstTokenAt(s: string, k: nat)
    requires k <= |s| && LeadingToken(s[k..]).Some?
    requires forall j :: 0 <= j < k ==> LeadingToken(s[j..]).None?
    ensures FindHashToken(s, 0) == Some(HashToken(k, k + LeadingToken(s[k..]).value.length, LeadingToken(s[k..]).value.width))
  {
    FirstTokenFrom(s, 0, k);
  }

  lemma {:induction false} FirstTokenFrom(s: string, i: nat, k: nat)
    requires i <= k <= |s| && LeadingToken(s[k..]).Some?
    requires forall j :: i <= j < k ==> LeadingToken(s[j..]).None?
    ensures FindHashToken(s, i) == Some(HashToken(k, k + LeadingToken(s[k..]).value.length, LeadingToken(s[k..]).value.width))
    decreases k - i
  {
    if i < k {
      assert LeadingToken(s[i..]).None?;
      FirstTokenFrom(s, i + 1, k);
      assert FindHashToken(s, i) == FindHashToken(s, i + 1);
    } else {
      var m := LeadingToken(s[k..]).value;
      assert FindHashToken(s, k) == Some(HashToken(k, k + m.length, m.width));
    }
  }

  /** Text before the slot that never spells `[hash` cannot hold a hash token. */
  lemma {:induction false} NoTokenBefore(p: string, rest: string)
    requires Absent(p, HashOpen) && |rest| > 0 && rest[0] == '['
    ensures forall j :: 0 <= j < |p| ==> LeadingToken((p + rest)[j..]).None?
  {
    assert HeadUnique(HashOpen);
    NoOccurrenceInPrefix(p, rest, HashOpen);
    forall j | 0 <= j < |p|
      ensures LeadingToken((p + rest)[j..]).None?
    {
      OccursAtSuffix(p + rest, HashOpen, j);
    }
  }

  /** `[hash:N]` at the beginning, with N written as the digits `ds`. */
  lemma {:induction false} LeadingWidthToken(ds: string, q: string)
    requires |ds| > 0 && AllDigits(ds)
    ensures LeadingToken("[hash:" + ds + "]" + q) == Some(TokenMatch(7 + |ds|, Some(DecimalValue(ds))))
  {
    var u := "[hash:" + ds + "]" + q;
    assert u[..6] == "[hash:";
    assert u[6..6 + |ds|] == ds;
    assert u[6 + |ds|] == ']';
    DigitRunExact(u, 6, |ds|);
  }

  /** The substitution at the first token, in terms of that token alone. */
  lemma {:induction false} SubstituteAtFirst(s: string, k: nat, m: TokenMatch, digest: string)
    requires k <= |s| && LeadingToken(s[k..]) == Some(m)
    requires forall j :: 0 <= j < k ==> LeadingToken(s[j..]).None?
    ensures k + m.length <= |s|
    ensures SubstituteHash(s, digest) == Some(s[..k] + HashSlice(digest, m.width) + s[k + m.length..])
  {
    FirstTokenAt(s, k);
  }

  /** A hash token right after a prefix free of `[hash` is the one substituted. */
  lemma {:induction false} SubstituteAfterPrefix(p: string, rest: string, m: TokenMatch, digest: string)
    requires Absent(p, HashOpen)
    requires LeadingToken(rest) == Some(m)
    ensures m.length <= |rest|
    ensures SubstituteHash(p + rest, digest) == Some(p + HashSlice(digest, m.width) + rest[m.length..])
  {
    assert rest[0] == '[' by {
      assert rest[..5] == HashOpen;
    }
    SliceAtSeam(p, rest, 0);
    SliceAtSeam(p, rest, m.length);
    NoTokenBefore(p, rest);
    SubstituteAtFirst(p + rest, |p|, m, digest);
  }

  /** `[hash:N]` after a hash-free prefix receives the first min(N, |digest|) digest characters; later tokens stay. */
  lemma {:induction false} SubstituteHashWidth(p: string, ds: string, q: string, digest: string)
    requires Absent(p, HashOpen)
    requires |ds| > 0 && AllDigits(ds)
    ensures var n := DecimalValue(ds);
      SubstituteHash(p + "[hash:" + ds + "]" + q, digest)
        == Some(p + (if n < |digest| then digest[..n] else digest) + q)
  {
    var token := "[hash:" + ds + "]";
    var m := TokenMatch(7 + |ds|, Some(DecimalValue(ds)));
    assert p + "[hash:" + ds + "]" + q == p + (token + q) by {
      Regroup5(p, "[hash:", ds, "]", q);
    }
    assert (token + q)[m.length..] == q by {
      DropLeading(token, q);
    }
    LeadingWidthToken(ds, q);
    SubstituteAfterPrefix(p, token + q, m, digest);
  }

  /** `[hash]` after a hash-free prefix receives the whole digest; later tokens stay. */
  lemma {:induction false} SubstituteHashFull(p: string, q: string, digest: string)
    requires Absent(p, HashOpen)
    ensures SubstituteHash(p + "[hash]" + q, digest) == Some(p + digest + q)
  {
    var rest := "[hash]" + q;
    Regroup3(p, "[hash]", q);
    assert rest[..6] == "[hash]";
    DropLeading("[hash]", q);
    SubstituteAfterPrefix(p, rest, TokenMatch(6, None), digest);
  }

  /** A string that never spells `[hash` holds no hash token. */
  lemma {:induction false} NoOpenNoToken(s: string)
    requires Absent(s, HashOpen)
    ensures !HasHashToken(s)
  {
    forall j | 0 <= j <= |s|
      ensures LeadingToken(s[j..]).None?
    {
      OccursAtSuffix(s, HashOpen, j);
    }
  }

  /**
   * With `useHash` and a `.js` template free of `[hash`, the digest lands in a
   * synthesized slot just before the extension.
   */
  lemma {:induction false} SynthesizedSlot(template: string, name: string, digest: string)
    requires Absent(template, HashOpen) && EndsWith(template, ".js")
    ensures FileName(template, true, name, digest)
      == Success(ReplaceFirst(template[..|template| - 3] + "." + digest + ".js", NameToken, name))
  {
    NoOpenNoToken(template);
    var n := |template|;
    var p := template[..n - 3] + ".";
    assert p == template[..n - 2];
    AbsentPrefix(template, HashOpen, n - 2);
    assert WithHashSlot(template) == p + "[hash]" + ".js";
    SubstituteHashFull(p, ".js", digest);
  }

  /** A template with only its `[name]` token, and no hash requested, gets the name in that one place. */
  lemma {:induction false} PlainTemplate(a: string, b: string, name: string, digest: string)
    requires Absent(a, NameToken) && !HasHashToken(a + NameToken + b)
    ensures FileName(a + NameToken + b, false, name, digest) == Success(a + name + b)
  {
    assert HeadUnique(NameToken);
    ReplaceFirstAfter(a, NameToken, b, name);
  }

  /** A template that begins with `[name]` gets the name at its very beginning. */
  lemma {:induction false} LeadingName(b: string, name: string)
    ensures ReplaceFirst(NameToken + b, NameToken, name) == name + b
  {
    assert HeadUnique(NameToken);
    ReplaceFirstAfter("", NameToken, b, name);
    assert "" + NameToken + b == NameToken + b;
  }

  /** A template that already holds a hash token is hashed in place, whatever `useHash` says. */
  lemma {:induction false} TokenTemplate(template: string, useHash: bool, name: string, digest: string, hashed: string)
    requires SubstituteHash(template, digest) == Some(hashed)
    ensures FileName(template, useHash, name, digest) == Success(ReplaceFirst(hashed, NameToken, name))
  {
  }
}
