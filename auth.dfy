/**
 * The HTTP Basic credential gate of the stats page (`User::from_request_parts`).
 */
module Auth {
  import opened Wrappers

  type Byte = bv8

  /** Base64 decoding of a string; `None` when it is not valid base64. */
  type Base64Decoder = string -> Option<seq<Byte>>

  /**
   * UTF-8 validation of bytes; `None` when they are not valid UTF-8. Like
   * `str::from_utf8`, it decodes the empty bytes to the empty text.
   */
  type Utf8Decoder = f: seq<Byte> -> Option<string> | f([]) == Some("")
    witness (b: seq<Byte>) => Some("")

  const BasicPrefix: string := "Basic "

  /** The one username:password pair that is accepted. */
  const Credentials: string := "forecast:forecast"

  /** The outcome of the extractor: the request goes on, or is answered with a rejection. */
  datatype AuthResponse =
    | Authorized
    | Rejected(status: nat, wwwAuthenticate: string, body: string)

  /** The response for every refused request: 401 with a Basic challenge. */
  const Unauthorized: AuthResponse :=
    Rejected(401, "Basic realm=\"Please enter your credentials\"", "Unauthorized")

  /** `str::starts_with`: the first characters of `s` are those of `prefix`. */
  predicate StartsWith(s: string, prefix: string): (b: bool)
    ensures b <==> |prefix| <= |s| && forall i :: 0 <= i < |prefix| ==> s[i] == prefix[i]
  {
    |prefix| <= |s| && s[..|prefix|] == prefix
  }

  /** `str::trim_start_matches`: removes `pattern` from the front as often as it is there. */
  function TrimStartMatches(s: string, pattern: string): (r: string)
    ensures |r| <= |s| && r == s[|s| - |r|..]
    ensures |pattern| > 0 ==> !StartsWith(r, pattern)
    decreases |s|
  {
    if |pattern| > 0 && StartsWith(s, pattern) then TrimStartMatches(s[|pattern|..], pattern) else s
  }

  /** How many copies of `pattern` `TrimStartMatches` removes. */
  function LeadingCopies(s: string, pattern: string): (n: nat)
    ensures n > 0 <==> |pattern| > 0 && StartsWith(s, pattern)
    decreases |s|
  {
    if |pattern| > 0 && StartsWith(s, pattern) then 1 + LeadingCopies(s[|pattern|..], pattern) else 0
  }

  /** `n` copies of `pattern`, one after the other. */
  function Repeat(pattern: string, n: nat): (r: string)
    ensures n == 0 ==> r == ""
  {
    if n == 0 then "" else pattern + Repeat(pattern, n - 1)
  }

  /** What is removed is a whole number of copies of the pattern, and nothing else. */
  lemma {:induction false} TrimStartMatchesSplits(s: string, pattern: string)
    ensures s == Repeat(pattern, LeadingCopies(s, pattern)) + TrimStartMatches(s, pattern)
    decreases |s|
  {
    if |pattern| > 0 && StartsWith(s, pattern) {
      var rest := s[|pattern|..];
      TrimStartMatchesSplits(rest, pattern);
      StripOne(s, pattern);
      var k := LeadingCopies(rest, pattern);
      var tail := TrimStartMatches(rest, pattern);
      var copies := Repeat(pattern, k);
      assert Repeat(pattern, 1 + k) == pattern + copies;
      assert rest == copies + tail;
      AppendAssociative(pattern, copies, tail);
    }
  }

  /** Helper for the solver: string concatenation is associative. */
  lemma AppendAssociative(a: string, b: string, c: string)
    ensures (a + b) + c == a + (b + c)
  {
  }

  /** One step of the strip: a leading copy of the pattern comes off. */
  lemma StripOne(s: string, pattern: string)
    requires |pattern| > 0 && StartsWith(s, pattern)
    ensures LeadingCopies(s, pattern) == 1 + LeadingCopies(s[|pattern|..], pattern)
    ensures TrimStartMatches(s, pattern) == TrimStartMatches(s[|pattern|..], pattern)
    ensures s == pattern + s[|pattern|..]
  {
  }

  /**
   * `base64::decode(..).unwrap_or_default()` and then `from_utf8(..).unwrap_or("")`:
   * the decoded credential text, empty when either step fails.
   */
  function CredentialText(encoded: string, base64: Base64Decoder, utf8: Utf8Decoder): (text: string)
    ensures base64(encoded).None? ==> text == ""
    ensures base64(encoded).Some? && utf8(base64(encoded).value).None? ==> text == ""
    ensures base64(encoded).Some? && utf8(base64(encoded).value).Some? ==> text == utf8(base64(encoded).value).value
  {
    var bytes := match base64(encoded) case Some(b) => b case None => [];
    match utf8(bytes) case Some(t) => t case None => ""
  }

  /**
   * The gate: `header` is the `Authorization` header as text (`None` when it is
   * missing or not visible ASCII).
   */
  function FromRequestParts(header: Option<string>, base64: Base64Decoder, utf8: Utf8Decoder): (r: AuthResponse)
    ensures r.Authorized? <==>
      header.Some? && StartsWith(header.value, BasicPrefix) &&
      CredentialText(TrimStartMatches(header.value, BasicPrefix), base64, utf8) == Credentials
    ensures r.Rejected? ==> r == Unauthorized && r.status == 401
  {
    if header.Some? && StartsWith(header.value, BasicPrefix) &&
       CredentialText(TrimStartMatches(header.value, BasicPrefix), base64, utf8) == Credentials
    then Authorized
    else Unauthorized
  }

  /** A repeated "Basic " prefix is ignored: the header is judged as if it appeared once. */
  lemma RepeatedPrefixIgnored(rest: string, base64: Base64Decoder, utf8: Utf8Decoder)
    ensures FromRequestParts(Some(BasicPrefix + BasicPrefix + rest), base64, utf8)
         == FromRequestParts(Some(BasicPrefix + rest), base64, utf8)
  {
    var twice := BasicPrefix + BasicPrefix + rest;
    assert StartsWith(twice, BasicPrefix);
    assert twice[|BasicPrefix|..] == BasicPrefix + rest;
    assert StartsWith(BasicPrefix + rest, BasicPrefix);
  }

  /**
   * If the text after the prefixes is not base64 (or does not decode to UTF-8),
   * the request is rejected, since empty bytes decode to the empty text.
   */
  lemma UndecodableRejected(header: string, base64: Base64Decoder, utf8: Utf8Decoder)
    requires base64(TrimStartMatches(header, BasicPrefix)).None? ||
             utf8(base64(TrimStartMatches(header, BasicPrefix)).value).None?
    ensures FromRequestParts(Some(header), base64, utf8) == Unauthorized
  {
  }

  /**
   * An accepted header is one or more "Basic " prefixes followed by text that
   * is valid base64 of the UTF-8 text "forecast:forecast".
   */
  lemma AuthorizedDecodesToCredentials(header: string, base64: Base64Decoder, utf8: Utf8Decoder)
    requires FromRequestParts(Some(header), base64, utf8).Authorized?
    ensures LeadingCopies(header, BasicPrefix) >= 1
    ensures header == Repeat(BasicPrefix, LeadingCopies(header, BasicPrefix)) + TrimStartMatches(header, BasicPrefix)
    ensures base64(TrimStartMatches(header, BasicPrefix)).Some?
    ensures utf8(base64(TrimStartMatches(header, BasicPrefix)).value) == Some(Credentials)
  {
    TrimStartMatchesSplits(header, BasicPrefix);
  }

  /** Stripping one or more copies of the prefix from a text that does not start with it gives the text back. */
  lemma {:induction false} TrimRepeated(k: nat, x: string)
    requires !StartsWith(x, BasicPrefix)
    ensures TrimStartMatches(Repeat(BasicPrefix, k) + x, BasicPrefix) == x
  {
    if k > 0 {
      var s := Repeat(BasicPrefix, k) + x;
      assert Repeat(BasicPrefix, k) == BasicPrefix + Repeat(BasicPrefix, k - 1);
      AppendAssociative(BasicPrefix, Repeat(BasicPrefix, k - 1), x);
      assert s == BasicPrefix + (Repeat(BasicPrefix, k - 1) + x);
      assert StartsWith(s, BasicPrefix);
      assert s[|BasicPrefix|..] == Repeat(BasicPrefix, k - 1) + x;
      TrimRepeated(k - 1, x);
    }
  }

  /**
   * The converse of `AuthorizedDecodesToCredentials`: one or more "Basic "
   * prefixes followed by base64 of the UTF-8 text "forecast:forecast" are accepted.
   */
  lemma AcceptedWhenEncoded(k: nat, x: string, b: seq<Byte>, base64: Base64Decoder, utf8: Utf8Decoder)
    requires k >= 1 && !StartsWith(x, BasicPrefix)
    requires base64(x) == Some(b) && utf8(b) == Some(Credentials)
    ensures FromRequestParts(Some(Repeat(BasicPrefix, k) + x), base64, utf8) == Authorized
  {
    var h := Repeat(BasicPrefix, k) + x;
    TrimRepeated(k, x);
    assert Repeat(BasicPrefix, k) == BasicPrefix + Repeat(BasicPrefix, k - 1);
    AppendAssociative(BasicPrefix, Repeat(BasicPrefix, k - 1), x);
    assert h[..|BasicPrefix|] == BasicPrefix;
  }
}
