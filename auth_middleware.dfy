/** `Backend/middleware/authMiddleware.js`: the `protect` gate, together with
    the JSON Web Token it checks. `jwt.sign` and `jwt.verify` are modelled on
    an abstract token that records its payload, signing key and lifetime. */
module AuthMiddleware {
  import opened Common

  /** The payload `generateTokenAndSetCookie` signs, and `protect` puts on
      `req.user`. */
  datatype Claims = Claims(id: nat, email: string, name: string, pinNumber: string, branch: string, userRole: string)

  /** A token made by `jwt.sign(payload, key, { expiresIn })`, issued at
      `issuedAt` (seconds). */
  datatype Token = Token(payload: Claims, key: string, issuedAt: int, expiresIn: nat)

  /** The value of the `token` cookie as the browser sends it back: a token
      the server signed, or any other text (the empty string that logout
      leaves, or a forged or damaged value). */
  datatype CookieValue = Signed(token: Token) | Text(text: string)

  /** `jwt.verify(token, secret)` at time `now`: the payload of a token signed
      with `secret` whose lifetime has not run out; anything else throws. */
  function Verify(v: CookieValue, secret: string, now: int): (decoded: Option<Claims>)
    ensures decoded.Some? <==> v.Signed? && v.token.key == secret && now < v.token.issuedAt + v.token.expiresIn
    ensures decoded.Some? ==> decoded.value == v.token.payload
  {
    match v
    case Signed(t) => if t.key == secret && now < t.issuedAt + t.expiresIn then Some(t.payload) else None
    case Text(_) => None
  }

  /** `!token`: the cookie is absent or empty. */
  predicate NoToken(cookie: Option<CookieValue>)
  {
    cookie == None || cookie == Some(Text(""))
  }

  /** What a middleware does with a request: pass it on with `next()`, or
      answer it itself. Exactly one of the two happens. */
  datatype Gate = Next | Deny(status: nat, message: string)

  const NoTokenMessage := "Not authorized, no token"
  const TokenFailedMessage := "Not authorized, token failed"

  /** The three outcomes of `protect`. */
  function ProtectDecision(cookie: Option<CookieValue>, secret: string, now: int): (g: Gate)
    ensures g.Deny? ==> g.status == 401
  {
    if NoToken(cookie) then Deny(401, NoTokenMessage)
    else if Verify(cookie.value, secret, now).None? then Deny(401, TokenFailedMessage)
    else Next
  }

  /** `protect` passes a request on exactly when a token is present and
      verifies; an absent token and a failed one are told apart. */
  lemma ProtectOutcomes(cookie: Option<CookieValue>, secret: string, now: int)
    ensures ProtectDecision(cookie, secret, now) == Next
        <==> cookie.Some? && Verify(cookie.value, secret, now).Some?
    ensures ProtectDecision(cookie, secret, now) == Deny(401, NoTokenMessage) <==> NoToken(cookie)
    ensures ProtectDecision(cookie, secret, now) == Deny(401, TokenFailedMessage)
        <==> !NoToken(cookie) && Verify(cookie.value, secret, now).None?
  {
  }

  /** The parts of an Express request the gates read and write. */
  class Request {
    var tokenCookie: Option<CookieValue>
    var user: Option<Claims>

    constructor (tokenCookie: Option<CookieValue>)
      ensures this.tokenCookie == tokenCookie && user == None
    {
      this.tokenCookie := tokenCookie;
      user := None;
    }
  }

  /** `protect(req, res, next)`. On success `req.user` becomes the decoded
      payload and `next` is called; otherwise a 401 is sent and `req.user` is
      left as it was. */
  method Protect(req: Request, secret: string, now: int) returns (g: Gate)
    modifies req`user
    ensures g == ProtectDecision(req.tokenCookie, secret, now)
    ensures g == Next ==> req.user == Verify(req.tokenCookie.value, secret, now)
    ensures g != Next ==> req.user == old(req.user)
  {
    var token := req.tokenCookie;
    if token == None || token == Some(Text("")) {
      return Deny(401, NoTokenMessage);
    }
    var decoded := Verify(token.value, secret, now);
    if decoded.None? {
      return Deny(401, TokenFailedMessage);
    }
    req.user := decoded;
    return Next;
  }
}
