/** Worked instances of getFileName, on the digest of the two-byte content `aa`. */
module NamingExamples {
  import opened Wrappers
  import opened Text
  import opened Naming

  /** The md5 hex digest of `aa`, written in the pieces whose prefixes the examples take. */
  const DigestHead := "4124bc0a"
  const DigestMiddle := "9335c27f086f"
  const DigestTail := "24ba207a4912"
  const ExampleDigest := DigestHead + DigestMiddle + DigestTail

  lemma {:induction false} NamePrefixHashFree(p: string)
    requires p == "[name]."
    ensures Absent(p, HashOpen)
  {
    AbsentByMissingChar(p, HashOpen, 1);
  }

  lemma {:induction false} EightDigits(ds: string)
    requires ds == "8"
    ensures |ds| > 0 && AllDigits(ds) && DecimalValue(ds) == 8
  {
  }

  lemma {:induction false} TwentyDigits(ds: string)
    requires ds == "20"
    ensures |ds| > 0 && AllDigits(ds) && DecimalValue(ds) == 20
  {
    assert ds[..1] == "2" && ds[1] == '0';
    assert DecimalValue("2") == 2 by {
      assert "2"[..0] == "";
    }
  }

  /** A `[name].` template whose hash step yields `[name].` + h + `.js` is named `result.` + h + `.js`. */
  lemma {:induction false} NamedResult(template: string, digest: string, h: string)
    requires SubstituteHash(template, digest) == Some("[name]." + h + ".js")
    ensures FileName(template, false, "result", digest) == Success("result." + h + ".js")
  {
    TokenTemplate(template, false, "result", digest, "[name]." + h + ".js");
    assert "[name]." == NameToken + ".";
    Regroup4(NameToken, ".", h, ".js");
    LeadingName("." + h + ".js", "result");
    assert "result." == "result" + ".";
    Regroup4("result", ".", h, ".js");
  }

  /** `[name].[hash:8].js` and name `result` give `result.4124bc0a.js`. */
  lemma {:induction false} ExampleWidth8(template: string, digest: string)
    requires template == "[name].[hash:8].js" && digest == ExampleDigest
    ensures FileName(template, false, "result", digest) == Success("result." + DigestHead + ".js")
  {
    var p, ds, q := "[name].", "8", ".js";
    var h := digest[..8];
    assert SubstituteHash(template, digest) == Some(p + h + q) by {
      assert template == p + "[hash:" + ds + "]" + q;
      NamePrefixHashFree(p);
      EightDigits(ds);
      SubstituteHashWidth(p, ds, q, digest);
    }
    Regroup3(DigestHead, DigestMiddle, DigestTail);
    TakeLeading(DigestHead, DigestMiddle + DigestTail);
    NamedResult(template, digest, h);
  }

  /** `[name].[hash:20].js` and name `result` give `result.4124bc0a9335c27f086f.js`. */
  lemma {:induction false} ExampleWidth20(template: string, digest: string)
    requires template == "[name].[hash:20].js" && digest == ExampleDigest
    ensures FileName(template, false, "result", digest) == Success("result." + DigestHead + DigestMiddle + ".js")
  {
    var p, ds, q := "[name].", "20", ".js";
    var h := digest[..20];
    assert SubstituteHash(template, digest) == Some(p + h + q) by {
      assert template == p + "[hash:" + ds + "]" + q;
      NamePrefixHashFree(p);
      TwentyDigits(ds);
      SubstituteHashWidth(p, ds, q, digest);
    }
    TakeLeading(DigestHead + DigestMiddle, DigestTail);
    NamedResult(template, digest, h);
    Ungroup4("result.", DigestHead, DigestMiddle, ".js");
  }

  /** `[name].[hash].js` and name `result` give the name followed by the whole digest. */
  lemma {:induction false} ExampleFullHash(template: string, digest: string)
    requires template == "[name].[hash].js" && digest == ExampleDigest
    ensures FileName(template, false, "result", digest) == Success("result." + ExampleDigest + ".js")
  {
    var p, q := "[name].", ".js";
    assert SubstituteHash(template, digest) == Some(p + digest + q) by {
      assert template == p + "[hash]" + q;
      NamePrefixHashFree(p);
      SubstituteHashFull(p, q, digest);
    }
    NamedResult(template, digest, digest);
  }
}
