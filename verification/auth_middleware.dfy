/**
 * The `isAuthenticated` middleware: which credential a request carries (the
 * `token` cookie first, otherwise whatever follows `Bearer ` in the
 * Authorization header), and what the middleware does with it. The JWT check is
 * the function parameter `verify`; its secret is part of that function.
 */
module AuthMiddleware {
  import opened Wrappers
  import opened Js
  import opened InterviewModel

  const BearerPrefix := "Bearer "

  predicate StartsWith(s: string, prefix: string) {
    |prefix| <= |s| && s[..|prefix|] == prefix
  }

  /**
   * The token the middleware goes on with: the cookie when it is truthy;
   * otherwise, for a truthy header starting with `Bearer `, the rest of the
   * header; otherwise the (falsy) cookie value itself.
   */
  function SelectToken(cookieToken: Option<string>, authorization: Option<string>): (r: Option<string>)
    ensures IsTruthyString(cookieToken) ==> r == cookieToken
    ensures r != cookieToken ==> && r.Some? && authorization.Some? && StartsWith(authorization.value, BearerPrefix)
                                 && BearerPrefix + r.value == authorization.value
    ensures IsTruthyString(r) <==> || IsTruthyString(cookieToken)
                                   || (&& authorization.Some? && StartsWith(authorization.value, BearerPrefix)
                                       && |authorization.value| > |BearerPrefix|)
  {
    var token := cookieToken;
    if !IsTruthyString(token) && IsTruthyString(authorization) && StartsWith(authorization.value, BearerPrefix) then
      var header := authorization.value;
      assert header == header[..7] + header[7..];
      Some(header[7..])
    else
      token
  }

  /** Without a truthy cookie, a header `Bearer <t>` yields exactly `t`. */
  lemma BearerTokenIsSelected(cookieToken: Option<string>, t: string)
    requires !IsTruthyString(cookieToken)
    ensures SelectToken(cookieToken, Some(BearerPrefix + t)) == Some(t)
  {
  }

  /** A header that does not start with `Bearer ` is never used. */
  lemma OtherSchemesAreIgnored(cookieToken: Option<string>, header: string)
    requires !StartsWith(header, BearerPrefix)
    ensures SelectToken(cookieToken, Some(header)) == cookieToken
  {
  }

  /** What `jwt.verify` makes of a token: a payload, whose `userid` may be absent, or an exception. */
  datatype Verified = Decoded(userid: Option<UserId>) | Throws

  /** The JSON body of a 401 response. */
  datatype Reply = Reply(status: nat, success: bool, message: string)

  const NotAuthenticated := Reply(401, false, "User not authenticated")
  const InvalidToken := Reply(401, false, "Invalid Token")

  /** What the middleware does: hand on to the next handler with `req.id` set, or respond. */
  datatype Decision = Proceed(id: Option<UserId>) | Respond(reply: Reply)

  function Decide(cookieToken: Option<string>, authorization: Option<string>, verify: string -> Verified): (r: Decision)
    ensures r == Respond(NotAuthenticated) <==> !IsTruthyString(SelectToken(cookieToken, authorization))
    ensures r == Respond(InvalidToken) <==>
              IsTruthyString(SelectToken(cookieToken, authorization)) &&
              verify(SelectToken(cookieToken, authorization).value).Throws?
    ensures IsTruthyString(SelectToken(cookieToken, authorization)) &&
            verify(SelectToken(cookieToken, authorization).value).Decoded? ==>
              r == Proceed(verify(SelectToken(cookieToken, authorization).value).userid)
    ensures r.Proceed? ==> exists t :: t != "" && verify(t) == Decoded(r.id) &&
                                       SelectToken(cookieToken, authorization) == Some(t)
  {
    var token := SelectToken(cookieToken, authorization);
    if !IsTruthyString(token) then Respond(NotAuthenticated)
    else match verify(token.value)
      case Throws => Respond(InvalidToken)
      case Decoded(userid) => Proceed(userid)
  }

  /** With a truthy cookie, the decision does not depend on the Authorization header. */
  lemma CookieOverridesHeader(cookieToken: Option<string>, a1: Option<string>, a2: Option<string>,
                              verify: string -> Verified)
    requires IsTruthyString(cookieToken)
    ensures Decide(cookieToken, a1, verify) == Decide(cookieToken, a2, verify)
  {
  }

  /** The request and response objects as far as the middleware touches them. */
  class Exchange {
    /** `req.id`. */
    var id: Option<UserId>
    /** How many times `next` has been called. */
    var nextCalls: nat
    /** The response sent, if any. */
    var reply: Option<Reply>

    constructor ()
      ensures id == None && nextCalls == 0 && reply == None
    {
      id := None;
      nextCalls := 0;
      reply := None;
    }

    /**
     * Runs the middleware: either responds 401 and leaves `req.id` and `next`
     * alone, or sets `req.id` to the payload's `userid` and calls `next` once,
     * sending nothing.
     */
    method IsAuthenticated(cookieToken: Option<string>, authorization: Option<string>, verify: string -> Verified)
      modifies this
      ensures Decide(cookieToken, authorization, verify).Respond? ==>
                && reply == Some(Decide(cookieToken, authorization, verify).reply)
                && id == old(id) && nextCalls == old(nextCalls)
      ensures Decide(cookieToken, authorization, verify).Proceed? ==>
                && id == Decide(cookieToken, authorization, verify).id
                && nextCalls == old(nextCalls) + 1 && reply == old(reply)
    {
      var token := cookieToken;
      if !IsTruthyString(token) && IsTruthyString(authorization) {
        var authHeader := authorization.value;
        if StartsWith(authHeader, BearerPrefix) {
          token := Some(authHeader[7..]);
        }
      }
      if !IsTruthyString(token) {
        reply := Some(NotAuthenticated);
        return;
      }
      var decoded := verify(token.value);
      if decoded.Throws? {
        reply := Some(InvalidToken);
        return;
      }
      id := decoded.userid;
      nextCalls := nextCalls + 1;
    }
  }
}
