/** Where the session token of a request is read from. */
module Token {
  import opened Wrappers
  import opened Js

  /** The two places a token can arrive: the `token` cookie and the
      `Authorization` header. Absent values are `None`. */
  datatype Request = Request(cookieToken: Option<string>, authorization: Option<string>)

  const BearerPrefix: string := "Bearer"

  /** `getToken`: a non-empty cookie wins; otherwise a header beginning with
      "Bearer" gives the rest of the header, trimmed; otherwise no token. */
  function GetToken(req: Request): (r: Option<string>)
    ensures TruthyString(req.cookieToken) ==> r == req.cookieToken
    ensures !TruthyString(req.cookieToken) && req.authorization.Some?
            && StartsWith(req.authorization.value, BearerPrefix)
            ==> r == Some(Trim(req.authorization.value[|BearerPrefix|..]))
    ensures !TruthyString(req.cookieToken)
            && !(req.authorization.Some? && StartsWith(req.authorization.value, BearerPrefix))
            ==> r == None
  {
    if TruthyString(req.cookieToken) then req.cookieToken
    else if TruthyString(req.authorization) && StartsWith(req.authorization.value, BearerPrefix) then
      ReplacePrefix(req.authorization.value, BearerPrefix);
      Some(Trim(ReplaceFirst(req.authorization.value, BearerPrefix, "")))
    else None
  }

  /** The header a client sends for token `t`. */
  function BearerHeader(t: string): string {
    BearerPrefix + " " + t
  }

  /** Round trip: a header built from a token with no surrounding whitespace,
      sent without a cookie, yields that token back. */
  lemma BearerRoundTrip(t: string, cookie: Option<string>)
    requires t == [] || (!IsWhitespace(t[0]) && !IsWhitespace(t[|t| - 1]))
    requires !TruthyString(cookie)
    ensures GetToken(Request(cookie, Some(BearerHeader(t)))) == if t == [] then Some([]) else Some(t)
  {
    var h := BearerHeader(t);
    assert StartsWith(h, BearerPrefix);
    assert h[|BearerPrefix|..] == " " + t;
    var rest := " " + t;
    assert TrimStart(rest) == TrimStart(t);
    TrimNoop(t);
    assert TrimEnd(TrimStart(t)) == t;
  }

  /** A non-empty cookie makes the header irrelevant. */
  lemma CookieTakesPrecedence(c: string, h1: Option<string>, h2: Option<string>)
    requires c != ""
    ensures GetToken(Request(Some(c), h1)) == GetToken(Request(Some(c), h2)) == Some(c)
  {
  }

  /** The prefix test needs no following space: "Bearerabc" yields "abc". */
  lemma NoSpaceNeeded()
    ensures GetToken(Request(None, Some("Bearerabc"))) == Some("abc")
  {
    var h := "Bearerabc";
    assert StartsWith(h, BearerPrefix);
    assert h[6..] == "abc";
    TrimNoop("abc");
  }

  /** An empty cookie is falsy and the header is used instead. */
  lemma EmptyCookieFallsThrough(t: string)
    requires t == [] || (!IsWhitespace(t[0]) && !IsWhitespace(t[|t| - 1]))
    ensures GetToken(Request(Some(""), Some(BearerHeader(t)))) == GetToken(Request(None, Some(BearerHeader(t))))
  {
  }

  /** The prefix test is case-sensitive. */
  lemma PrefixIsCaseSensitive(rest: string)
    ensures GetToken(Request(None, Some("bearer" + rest))) == None
  {
    assert ("bearer" + rest)[0] != BearerPrefix[0];
  }
}
