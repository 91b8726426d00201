/**
 * `isValidLinkedinUrl` (src/index.js:2-16): an allow-list check that accepts an
 * arbitrary value only when it is a non-empty string that parses as an absolute
 * https URL on www.linkedin.com or linkedin.com, and is at most 256 code units long.
 *
 * The platform URL parser behind `new URL(url)` is a parameter: the model holds
 * for every parser, and only the two fields the validator reads are kept.
 */
module LinkedinUrl {
  import opened Wrappers
  import opened Js

  /** The fields of a parsed URL that the validator reads: `protocol` and `hostname`. */
  datatype ParsedUrl = ParsedUrl(protocol: JsString, hostname: JsString)

  /** `new URL(s)`: `None` stands for the TypeError it throws on input it cannot parse. */
  type UrlParser = JsString -> Option<ParsedUrl>

  const HttpsProtocol: JsString := Literal("https:")
  const AllowedHosts: seq<JsString> := [Literal("www.linkedin.com"), Literal("linkedin.com")]
  const MaxUrlLength: nat := 256

  /** Which of the validator's early returns is taken. */
  datatype Verdict =
    | NotANonEmptyString   // line 3: falsy, or not a string
    | Unparseable          // lines 5 and 13-14: the URL constructor threw
    | ProtocolNotHttps     // line 7
    | HostNotAllowed       // line 9
    | TooLong              // line 11: measured on the raw input
    | Accepted             // line 12

  /** The validator's guarded steps, in the order the source takes them. */
  function LinkedinVerdict(url: JsValue, parse: UrlParser): (r: Verdict)
    ensures r == NotANonEmptyString <==> !url.Str? || url.s == []
    ensures r == Unparseable <==> url.Str? && url.s != [] && parse(url.s) == None
    ensures r == ProtocolNotHttps ==>
      url.Str? && parse(url.s).Some? && parse(url.s).value.protocol != Literal("https:")
    ensures r == HostNotAllowed ==>
      && url.Str? && parse(url.s).Some?
      && parse(url.s).value.protocol == Literal("https:")
      && parse(url.s).value.hostname != Literal("www.linkedin.com")
      && parse(url.s).value.hostname != Literal("linkedin.com")
    ensures r == TooLong ==>
      && url.Str? && parse(url.s).Some?
      && parse(url.s).value.protocol == Literal("https:")
      && parse(url.s).value.hostname in {Literal("www.linkedin.com"), Literal("linkedin.com")}
      && |url.s| > 256
  {
    if !Truthy(url) || !url.Str? then NotANonEmptyString
    else
      match parse(url.s)
      case None => Unparseable
      case Some(parsed) =>
        if parsed.protocol != HttpsProtocol then ProtocolNotHttps
        else if !Includes(AllowedHosts, parsed.hostname) then HostNotAllowed
        else if |url.s| > MaxUrlLength then TooLong
        else Accepted
  }

  /**
   * `isValidLinkedinUrl(url)`: total, so every failure, a parser exception
   * included, is the value `false`.
   */
  function IsValidLinkedinUrl(url: JsValue, parse: UrlParser): (ok: bool)
    ensures ok <==>
      && url.Str?
      && |url.s| > 0
      && parse(url.s).Some?
      && parse(url.s).value.protocol == Literal("https:")
      && (|| parse(url.s).value.hostname == Literal("www.linkedin.com")
          || parse(url.s).value.hostname == Literal("linkedin.com"))
      && |url.s| <= 256
  {
    LinkedinVerdict(url, parse) == Accepted
  }

  /**
   * A missing, empty or non-string value is rejected by the first guard, before
   * the parser is consulted: the verdict is the same whatever the parser does.
   */
  lemma NonStringRejectedBeforeParsing(url: JsValue, parse: UrlParser, other: UrlParser)
    requires !url.Str? || |url.s| == 0
    ensures LinkedinVerdict(url, parse) == NotANonEmptyString
    ensures LinkedinVerdict(url, parse) == LinkedinVerdict(url, other)
    ensures !IsValidLinkedinUrl(url, parse)
  {
  }

  /** Input the URL parser rejects yields `false` (the caught exception), not an error. */
  lemma ParseFailureRejected(s: JsString, parse: UrlParser)
    requires |s| > 0 && parse(s).None?
    ensures LinkedinVerdict(Str(s), parse) == Unparseable
    ensures !IsValidLinkedinUrl(Str(s), parse)
  {
  }

  /** Any protocol other than exactly `https:` is rejected, whatever the hostname. */
  lemma NonHttpsRejected(s: JsString, parse: UrlParser)
    requires parse(s).Some? && parse(s).value.protocol != HttpsProtocol
    ensures !IsValidLinkedinUrl(Str(s), parse)
  {
  }

  /** Over https, a hostname outside the allow-list is rejected. */
  lemma HostNotAllowedRejected(s: JsString, parse: UrlParser)
    requires parse(s).Some? && parse(s).value.hostname !in AllowedHosts
    ensures !IsValidLinkedinUrl(Str(s), parse)
  {
  }

  /**
   * The host match is exact: `<sub>.linkedin.com` is accepted for no subdomain
   * other than `www` (so `m.linkedin.com` is rejected even over https).
   */
  lemma OtherSubdomainsRejected(s: JsString, parse: UrlParser, sub: JsString)
    requires sub != Literal("www")
    requires parse(s) == Some(ParsedUrl(HttpsProtocol, sub + Literal(".linkedin.com")))
    ensures !IsValidLinkedinUrl(Str(s), parse)
  {
    var suffix := Literal(".linkedin.com");
    assert "www" + ".linkedin.com" == "www.linkedin.com";
    LiteralAppend("www", ".linkedin.com");
    if sub + suffix == Literal("www.linkedin.com") {
      SameSuffixSamePrefix(sub, Literal("www"), suffix);
      assert false;
    }
    assert |sub + suffix| >= 13 > |Literal("linkedin.com")|;
  }

  /** Two strings with a common suffix are equal when their concatenations are. */
  lemma SameSuffixSamePrefix(x: JsString, y: JsString, suffix: JsString)
    requires x + suffix == y + suffix
    ensures x == y
  {
    assert |x| == |y|;
    assert x == (x + suffix)[..|x|];
    assert y == (y + suffix)[..|y|];
  }

  /**
   * The length limit is checked on the raw input, not on the parsed URL: two
   * inputs the parser maps to the same allowed URL are told apart by length alone.
   */
  lemma LengthMeasuredOnRawInput(short: JsString, long: JsString, parse: UrlParser)
    requires parse(short) == parse(long)
    requires IsValidLinkedinUrl(Str(short), parse)
    requires |long| > MaxUrlLength
    ensures LinkedinVerdict(Str(long), parse) == TooLong
    ensures !IsValidLinkedinUrl(Str(long), parse)
  {
  }

  /**
   * `url.length` counts UTF-16 code units: text of n characters, k of them
   * outside the Basic Multilingual Plane, is rejected once n + k exceeds 256,
   * even when n alone does not.
   */
  lemma LengthCountsCodeUnits(text: string, parse: UrlParser)
    requires |text| + AstralCount(text) > MaxUrlLength
    ensures !IsValidLinkedinUrl(Str(Utf16(text)), parse)
  {
  }

  /** A concrete acceptance: a short https URL whose parsed host is linkedin.com. */
  lemma AllowedUrlAccepted(s: JsString, parse: UrlParser)
    requires 0 < |s| <= MaxUrlLength
    requires parse(s) == Some(ParsedUrl(Literal("https:"), Literal("linkedin.com")))
    ensures LinkedinVerdict(Str(s), parse) == Accepted
  {
  }
}
