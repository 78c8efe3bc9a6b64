/**
 * `UrlLib`: the network location of a feed's URL, case-folded and without a
 * leading `www.`. Python's `urllib.parse.urlparse` is a parameter.
 */
module UrlLib {
  import opened PyStr

  /** The two fields of `urlparse`'s result that the bot reads. */
  datatype ParseResult = ParseResult(scheme: string, netloc: string)

  /** `urllib.parse.urlparse`, whose code is not part of this model. */
  type UrlParse = string -> ParseResult

  const Https: string := "https://"
  const Www: string := "www."

  /** The parse whose netloc is used: a URL without a scheme is parsed again with `https://` in front. */
  function ParseUsed(urlparse: UrlParse, url: string): ParseResult {
    var first := urlparse(url);
    if first.scheme == "" then urlparse(Https + url) else first
  }

  /** `url_to_netloc`. */
  function UrlToNetloc(urlparse: UrlParse, url: string): (r: string)
    ensures forall k :: 0 <= k < |r| ==> !IsAsciiUpper(r[k])
    ensures var n := CaseFold(ParseUsed(urlparse, url).netloc);
      && (StartsWith(n, Www) ==> Www + r == n)
      && (!StartsWith(n, Www) ==> r == n)
  {
    var netloc := CaseFold(ParseUsed(urlparse, url).netloc);
    if StartsWith(netloc, Www) then netloc[|Www|..] else netloc
  }

  /** Folding case twice is folding it once. */
  lemma CaseFoldIdempotent(s: string)
    ensures CaseFold(CaseFold(s)) == CaseFold(s)
  {
    var once := CaseFold(s);
    forall k | 0 <= k < |s| ensures CaseFold(once)[k] == once[k] {
      assert !IsAsciiUpper(once[k]);
    }
  }

  /** The result is already case-folded, so it is its own netloc key. */
  lemma UrlToNetlocFolded(urlparse: UrlParse, url: string)
    ensures CaseFold(UrlToNetloc(urlparse, url)) == UrlToNetloc(urlparse, url)
  {
    var r := UrlToNetloc(urlparse, url);
    forall k | 0 <= k < |r| ensures CaseFold(r)[k] == r[k] {
      assert !IsAsciiUpper(r[k]);
    }
  }

  /** Two URLs whose netlocs differ only in letter case have the same result. */
  lemma UrlToNetlocIgnoresCase(urlparse: UrlParse, a: string, b: string)
    requires CaseFold(ParseUsed(urlparse, a).netloc) == CaseFold(ParseUsed(urlparse, b).netloc)
    ensures UrlToNetloc(urlparse, a) == UrlToNetloc(urlparse, b)
  {
  }

  /** A URL given without a scheme has the netloc of the same URL with `https://` in front. */
  lemma SchemelessAsHttps(urlparse: UrlParse, url: string)
    requires urlparse(url).scheme == ""
    requires urlparse(Https + url).scheme != ""
    ensures UrlToNetloc(urlparse, url) == UrlToNetloc(urlparse, Https + url)
  {
  }

  /** Only one leading `www.` is removed. */
  lemma StripsOneWww(urlparse: UrlParse, url: string, rest: string)
    requires CaseFold(ParseUsed(urlparse, url).netloc) == Www + Www + rest
    ensures UrlToNetloc(urlparse, url) == Www + rest
  {
    var n := Www + Www + rest;
    assert n[..|Www|] == Www;
    assert n[|Www|..] == Www + rest;
  }
}
