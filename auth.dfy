/**
 * The write-access check of the backend: a request is authorised when its
 * `Authorization` header carries the configured token as a bearer token.
 */
module Auth {
  import opened Wrappers
  import opened Text

  /** The token used when the `API_TOKEN` environment variable is not set. */
  const DefaultToken := "DEMO-TOKEN"

  const BearerPrefix := "Bearer "

  /** `os.getenv("API_TOKEN", "DEMO-TOKEN")`, with the environment lookup as a parameter. */
  function ConfiguredToken(env: Option<string>): string
  {
    env.GetOr(DefaultToken)
  }

  /** `request.headers.get("Authorization", "")`: a missing header reads as the empty string. */
  function HeaderValue(header: Option<string>): string
  {
    header.GetOr("")
  }

  /** `require_token`: the header starts with `Bearer ` and what follows its first blank, stripped, is the token. */
  predicate RequireToken(auth: string, apiToken: string)
  {
    HasPrefix(auth, BearerPrefix)
    && (assert auth[6] == ' '; Strip(AfterFirst(auth, ' ')) == apiToken)
  }

  /** The header the dashboard client sends: `Bearer <t>`, or no header at all when no token is stored. */
  function ClientHeader(t: string): Option<string>
  {
    if t == "" then None else Some(BearerPrefix + t)
  }

  /** A header with the prefix contains a blank, so `split(" ", 1)[1]` exists. */
  lemma PrefixHasBlank(auth: string)
    requires HasPrefix(auth, BearerPrefix)
    ensures ' ' in auth
  {
    assert auth[6] == ' ';
  }

  /** With the prefix present, the first blank of the header is the one that ends `Bearer`. */
  lemma AfterPrefix(auth: string)
    requires HasPrefix(auth, BearerPrefix)
    ensures ' ' in auth && AfterFirst(auth, ' ') == auth[7..]
  {
    assert auth[6] == ' ';
    assert forall m :: 0 <= m < 6 ==> auth[m] == BearerPrefix[m];
    var k := IndexOf(auth, ' ');
    assert k == 6;
  }

  /** Authorised exactly when the header is `Bearer ` followed by the token, up to surrounding whitespace. */
  lemma RequireTokenIff(auth: string, apiToken: string)
    ensures RequireToken(auth, apiToken) <==>
      |auth| >= 7 && auth[..7] == BearerPrefix && Strip(auth[7..]) == apiToken
  {
    if HasPrefix(auth, BearerPrefix) {
      AfterPrefix(auth);
    }
  }

  /** The header `Bearer t` is accepted exactly when `t` strips to the token. */
  lemma BearerHeaderAccepted(t: string, apiToken: string)
    ensures RequireToken(BearerPrefix + t, apiToken) <==> Strip(t) == apiToken
  {
    var auth := BearerPrefix + t;
    assert auth[..7] == BearerPrefix && auth[7..] == t;
    RequireTokenIff(auth, apiToken);
  }

  /** A request without an `Authorization` header is never authorised. */
  lemma MissingHeaderRejected(apiToken: string)
    ensures !RequireToken(HeaderValue(None), apiToken)
  {
  }

  /** What the dashboard client sends is accepted exactly when it holds a token that strips to the configured one. */
  lemma ClientHeaderAccepted(t: string, apiToken: string)
    ensures RequireToken(HeaderValue(ClientHeader(t)), apiToken) <==> t != "" && Strip(t) == apiToken
  {
    if t != "" {
      BearerHeaderAccepted(t, apiToken);
    }
  }

  /** A configured token with whitespace at either end can never be matched. */
  lemma UntrimmedTokenUnmatchable(auth: string, apiToken: string)
    requires !IsTrimmed(apiToken)
    ensures !RequireToken(auth, apiToken)
  {
    if HasPrefix(auth, BearerPrefix) {
      PrefixHasBlank(auth);
      StripSpec(AfterFirst(auth, ' '));
    }
  }

  /** Without `API_TOKEN` set, `Bearer DEMO-TOKEN` is accepted. */
  lemma DefaultTokenAccepted()
    ensures RequireToken(BearerPrefix + DefaultToken, ConfiguredToken(None))
  {
    BearerHeaderAccepted(DefaultToken, DefaultToken);
    StripTrimmed(DefaultToken);
  }
}
