/** The server middleware that copies the `accessToken` cookie into a bearer `authorization` header. */
module JwtCookie {

  const AccessTokenCookie: string := "accessToken"
  const AuthorizationHeader: string := "authorization"
  const BearerPrefix: string := "Bearer "

  /** A JavaScript truthiness test on a string-valued entry: present and not empty. */
  predicate Truthy(m: map<string, string>, key: string) {
    key in m && m[key] != ""
  }

  /** The header update of `use`, as a function of the headers and cookies it reads. */
  function AttachBearer(headers: map<string, string>, cookies: map<string, string>): (h: map<string, string>)
    ensures Truthy(cookies, AccessTokenCookie) && !Truthy(headers, AuthorizationHeader) ==>
      AuthorizationHeader in h && h[AuthorizationHeader] == BearerPrefix + cookies[AccessTokenCookie]
    ensures !Truthy(cookies, AccessTokenCookie) || Truthy(headers, AuthorizationHeader) ==> h == headers
    ensures forall k :: k != AuthorizationHeader ==> (k in h <==> k in headers)
    ensures forall k :: k != AuthorizationHeader && k in h ==> h[k] == headers[k]
    ensures Truthy(h, AuthorizationHeader) <==> Truthy(headers, AuthorizationHeader) || Truthy(cookies, AccessTokenCookie)
  {
    if Truthy(cookies, AccessTokenCookie) && !Truthy(headers, AuthorizationHeader) then
      headers[AuthorizationHeader := BearerPrefix + cookies[AccessTokenCookie]]
    else headers
  }

  /** Running the middleware twice leaves the headers as running it once. */
  lemma AttachBearerIdempotent(headers: map<string, string>, cookies: map<string, string>)
    ensures AttachBearer(AttachBearer(headers, cookies), cookies) == AttachBearer(headers, cookies)
  {
  }

  /** The parts of an Express request the middleware touches. */
  class Request {
    var cookies: map<string, string>
    var headers: map<string, string>

    constructor (cookies: map<string, string>, headers: map<string, string>)
      ensures this.cookies == cookies && this.headers == headers
    {
      this.cookies := cookies;
      this.headers := headers;
    }
  }

  /** The `next` callback, counting its calls. */
  class NextFunction {
    var calls: nat

    constructor ()
      ensures calls == 0
    {
      calls := 0;
    }

    method Call()
      modifies this
      ensures calls == old(calls) + 1
    {
      calls := calls + 1;
    }
  }

  class JwtCookieMiddleware {
    /** `use`: set the header if the cookie is truthy and the header is not, then call `next` once. */
    method Use(req: Request, next: NextFunction)
      modifies req`headers, next
      ensures req.headers == AttachBearer(old(req.headers), req.cookies)
      ensures req.cookies == old(req.cookies)
      ensures next.calls == old(next.calls) + 1
    {
      var token := if AccessTokenCookie in req.cookies then req.cookies[AccessTokenCookie] else "";
      var authorization := if AuthorizationHeader in req.headers then req.headers[AuthorizationHeader] else "";
      if token != "" && authorization == "" {
        req.headers := req.headers[AuthorizationHeader := BearerPrefix + token];
      }
      next.Call();
    }
  }
}
