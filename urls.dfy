/** Base-URL normalisation shared by the ELRR, ECCR and XDS clients, and the
    bearer-token header their `TokenAuth` classes attach. */
module ApiUrls {

  predicate EndsWith(s: string, suffix: string) {
    |suffix| <= |s| && s[|s| - |suffix|..] == suffix
  }

  /** Append "/" when the base lacks a trailing slash, then "api/" unless the
      result already ends in "api/". The source indexes `[-1]`, so an empty base
      raises IndexError; it is excluded here. */
  function ApiBase(base: string): (url: string)
    requires base != []
    ensures EndsWith(url, "api/")
    ensures |base| <= |url| && url[..|base|] == base
    ensures url in [base, base + "/", base + "api/", base + "/api/"]
    ensures EndsWith(base, "api/") ==> url == base
  {
    var slashed := if base[|base| - 1] != '/' then base + "/" else base;
    var url := if !EndsWith(slashed, "api/") then slashed + "api/" else slashed;
    assert slashed + "api/" == if slashed == base then base + "api/" else base + "/api/";
    url
  }

  lemma EndsWithAppend(s: string, suffix: string, more: string)
    requires EndsWith(s, suffix)
    ensures EndsWith(s + more, suffix + more)
  {
    assert (s + more)[|s + more| - |suffix + more|..] == s[|s| - |suffix|..] + more;
  }

  lemma PrefixAppend(s: string, more: string, n: nat)
    requires n <= |s|
    ensures (s + more)[..n] == s[..n]
  {
  }

  /** A path appended to the normalised base: the URL ends in "api/" and the
      path, and starts with the configured base. */
  lemma ApiPath(base: string, path: string)
    requires base != []
    ensures EndsWith(ApiBase(base) + path, "api/" + path)
    ensures |base| <= |ApiBase(base) + path| && (ApiBase(base) + path)[..|base|] == base
  {
    EndsWithAppend(ApiBase(base), "api/", path);
    PrefixAppend(ApiBase(base), path, |base|);
  }

  /** Normalising twice is normalising once. */
  lemma ApiBaseIdempotent(base: string)
    requires base != []
    ensures ApiBase(ApiBase(base)) == ApiBase(base)
  {
  }

  /** The base is changed as little as possible: nothing is appended to a base
      already ending in "api/", and only "api/" to one ending in "/". */
  lemma {:induction false} ApiBaseMinimal(base: string)
    requires base != []
    ensures base[|base| - 1] == '/' && !EndsWith(base, "api/") ==> ApiBase(base) == base + "api/"
    ensures base[|base| - 1] != '/' && EndsWith(base + "/", "api/") ==> ApiBase(base) == base + "/"
    ensures base[|base| - 1] != '/' && !EndsWith(base + "/", "api/") ==> ApiBase(base) == base + "/api/"
  {
  }

  /** "http://localhost:9200" gets both the slash and "api/". */
  lemma ApiBaseAddsSlashAndApi()
    ensures ApiBase("http://localhost:9200") == "http://localhost:9200" + "/api/"
  {
    var base := "http://localhost:9200";
    assert (base + "/")[|base| - 3] == '2';
    ApiBaseMinimal(base);
  }

  /** "http://localhost:9200/api" only needs the slash. */
  lemma ApiBaseAddsSlash()
    ensures ApiBase("http://localhost:9200/api") == "http://localhost:9200/api/"
  {
    assert EndsWith("http://localhost:9200/api/", "api/");
  }

  /** A normalised base comes back as it is. */
  lemma ApiBaseKeepsNormalised()
    ensures ApiBase("http://localhost:9200/api/") == "http://localhost:9200/api/"
  {
    assert EndsWith("http://localhost:9200/api/", "api/");
  }

  /** `TokenAuth.__call__`: the Authorization header value, "<scheme> <token>",
      with scheme "Bearer" unless another is passed (section 2.1 of RFC 6750). */
  function AuthorizationHeader(token: string, tokenName: string := "Bearer"): (h: string)
    ensures |h| == |tokenName| + 1 + |token|
    ensures h[..|tokenName|] == tokenName && h[|tokenName|] == ' ' && h[|tokenName| + 1..] == token
  {
    tokenName + " " + token
  }
}
