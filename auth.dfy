/** `DictanovaAPIAuth`: a request hook that fetches a bearer token from the
    API's token endpoint at most once, caches the whole JSON answer, and
    stamps `Authorization: Bearer <access_token>` on every request it is
    given. Two hooks are equal when their client id and secret are. */
module Auth {
  import opened Common

  /** The JSON object the token endpoint answers with. */
  type Json = map<string, string>

  const AuthorizationHeader := "Authorization"
  const BearerPrefix := "Bearer "

  /** `str.lower()` on one character of a header name: header names are
      ASCII, so only the letters A to Z change. */
  function LowerChar(c: char): (l: char)
    ensures 'A' <= c <= 'Z' ==> l as int == c as int + 32
    ensures !('A' <= c <= 'Z') ==> l == c
  {
    if 'A' <= c <= 'Z' then (c as int + 32) as char else c
  }

  function Lower(s: string): (l: string)
    ensures |l| == |s|
    ensures forall i :: 0 <= i < |s| ==> l[i] == LowerChar(s[i])
  {
    seq(|s|, i requires 0 <= i < |s| => LowerChar(s[i]))
  }

  /** Two header names denote the same header when they differ only in
      case, as in the `CaseInsensitiveDict` that holds a request's headers. */
  predicate SameHeader(a: string, b: string) {
    Lower(a) == Lower(b)
  }

  /** `headers[name] = value` on a `CaseInsensitiveDict`: every header that
      differs from `name` only in case is replaced, and the header is then
      stored under the spelling `name`. */
  function SetHeader(headers: map<string, string>, name: string, value: string)
    : (h: map<string, string>)
    ensures name in h && h[name] == value
    ensures forall k :: k in h && SameHeader(k, name) ==> k == name
    ensures forall k :: k in headers && !SameHeader(k, name) ==> k in h && h[k] == headers[k]
    ensures forall k :: k in h && k != name ==> k in headers && h[k] == headers[k]
  {
    (map k | k in headers && !SameHeader(k, name) :: headers[k])[name := value]
  }

  /** A request that already carries a lower-case `authorization` header
      ends up with the one `Authorization` header. */
  lemma SetHeaderReplacesOtherCase(previous: string, bearer: string)
    ensures SetHeader(map["authorization" := previous], AuthorizationHeader, bearer)
            == map[AuthorizationHeader := bearer]
  {
    var h := SetHeader(map["authorization" := previous], AuthorizationHeader, bearer);
    assert Lower("authorization") == Lower(AuthorizationHeader) by {
      assert Lower(AuthorizationHeader)[0] == 'a';
      assert Lower("authorization") == "authorization";
      assert Lower(AuthorizationHeader) == "authorization";
    }
    assert h.Keys == {AuthorizationHeader};
  }

  /** An outgoing HTTP request; only its headers matter here. */
  class Request {
    var headers: map<string, string>

    constructor (headers: map<string, string>)
      ensures this.headers == headers
    {
      this.headers := headers;
    }
  }

  /** What `getattr(other, 'apiclient_id', None)` and
      `getattr(other, 'apiclient_secret', None)` yield for an arbitrary object. */
  datatype Attributes = Attributes(clientId: Option<string>, clientSecret: Option<string>)

  /** The header value made from a cached token answer:
      `"Bearer %s" % token["access_token"]`, a KeyError when the answer
      has no access token. */
  function BearerOf(token: Json): (r: Result<string>)
    ensures r.Ok? <==> "access_token" in token
    ensures r.Err? ==> r.error == KeyError("access_token")
    ensures r.Ok? ==> |r.value| == |BearerPrefix| + |token["access_token"]|
    ensures r.Ok? ==> r.value[..|BearerPrefix|] == BearerPrefix
    ensures r.Ok? ==> r.value[|BearerPrefix|..] == token["access_token"]
  {
    if "access_token" in token then Ok(BearerPrefix + token["access_token"])
    else Err(KeyError("access_token"))
  }

  class DictanovaApiAuth {
    const clientId: string
    const clientSecret: string
    /** `_token`: the cached answer of the token endpoint, None until fetched. */
    var token: Option<Json>
    /** How many times the token endpoint has been called. */
    ghost var fetches: nat

    /** The endpoint is called once at most, and exactly when a token is cached. */
    ghost predicate Valid()
      reads this
    {
      fetches == if token.None? then 0 else 1
    }

    constructor (id: string, secret: string)
      ensures clientId == id && clientSecret == secret
      ensures token == None && fetches == 0
      ensures Valid()
    {
      clientId := id;
      clientSecret := secret;
      token := None;
      fetches := 0;
    }

    /** The attributes this object exposes to another object's `__eq__`. */
    function AttributesOf(): (a: Attributes)
      ensures a.clientId == Some(clientId) && a.clientSecret == Some(clientSecret)
    {
      Attributes(Some(clientId), Some(clientSecret))
    }

    /** `__eq__`: client id and secret both match; the cached token is not
        compared. */
    function Eq(other: Attributes): (r: bool)
      ensures r <==> other == AttributesOf()
    {
      other.clientId == Some(clientId) && other.clientSecret == Some(clientSecret)
    }

    /** `__ne__`: `not self == other`. */
    function Ne(other: Attributes): (r: bool)
      ensures r <==> other != AttributesOf()
    {
      !Eq(other)
    }

    /** `get_token`. `reply` is what the token endpoint answers if it is
        called; it is called only when no token is cached, and its answer is
        cached before the access token is looked up in it. */
    method GetToken(reply: Json) returns (r: Result<string>)
      requires Valid()
      modifies this`token, this`fetches
      ensures Valid()
      ensures old(token).None? ==> token == Some(reply) && fetches == old(fetches) + 1
      ensures old(token).Some? ==> token == old(token) && fetches == old(fetches)
      ensures token.Some? && r == BearerOf(token.value)
    {
      if token.None? {
        token := Some(reply);
        fetches := fetches + 1;
      }
      r := BearerOf(token.value);
    }

    /** `__call__`: sets the Authorization header of `req` to `get_token()`
        (replacing any header whose name differs only in case) and hands the
        same request back; if `get_token` raises, the headers are left as
        they were. */
    method Call(req: Request, reply: Json) returns (r: Result<Request>)
      requires Valid()
      modifies this`token, this`fetches, req`headers
      ensures Valid()
      ensures old(token).None? ==> token == Some(reply) && fetches == old(fetches) + 1
      ensures old(token).Some? ==> token == old(token) && fetches == old(fetches)
      ensures token.Some?
      ensures BearerOf(token.value).Err? ==>
                r == Err(BearerOf(token.value).error) && req.headers == old(req.headers)
      ensures BearerOf(token.value).Ok? ==>
                r == Ok(req) &&
                req.headers == SetHeader(old(req.headers), AuthorizationHeader, BearerOf(token.value).value)
    {
      var t := GetToken(reply);
      match t
      case Err(e) =>
        r := Err(e);
      case Ok(bearer) =>
        req.headers := SetHeader(req.headers, AuthorizationHeader, bearer);
        r := Ok(req);
    }
  }

  /** Equality of two hooks depends on their credentials only. */
  lemma EqIgnoresToken(a: DictanovaApiAuth, b: DictanovaApiAuth)
    ensures a.Eq(b.AttributesOf()) <==> a.clientId == b.clientId && a.clientSecret == b.clientSecret
    ensures a.Ne(b.AttributesOf()) <==> !a.Eq(b.AttributesOf())
  {
  }

  /** Between hooks, `__eq__` is reflexive, symmetric and transitive. */
  lemma EqIsEquivalence(a: DictanovaApiAuth, b: DictanovaApiAuth, c: DictanovaApiAuth)
    ensures a.Eq(a.AttributesOf())
    ensures a.Eq(b.AttributesOf()) ==> b.Eq(a.AttributesOf())
    ensures a.Eq(b.AttributesOf()) && b.Eq(c.AttributesOf()) ==> a.Eq(c.AttributesOf())
  {
  }

  /** An object without the two attributes is never equal to a hook. */
  lemma NeverEqualToForeignObject(a: DictanovaApiAuth)
    ensures !a.Eq(Attributes(None, None)) && a.Ne(Attributes(None, None))
  {
  }

  /** After the first call, later calls neither fetch nor change the answer:
      two calls in a row return the same result and fetch at most once. */
  method GetTokenTwice(auth: DictanovaApiAuth, first: Json, second: Json)
    returns (r1: Result<string>, r2: Result<string>)
    requires auth.Valid()
    modifies auth`token, auth`fetches
    ensures auth.Valid() && auth.fetches <= 1
    ensures r1 == r2
    ensures old(auth.token).None? ==> auth.token == Some(first)
  {
    r1 := auth.GetToken(first);
    r2 := auth.GetToken(second);
  }
}
