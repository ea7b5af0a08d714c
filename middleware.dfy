/**
 * The bearer-token check that guards every protected route: take the second
 * space-separated word of the Authorization header, hand it to the token
 * verifier, and either reject the request or record the claims and pass it on.
 * The verifier (signature and expiry checks) is a parameter.
 */
module Middleware {
  import opened Wrappers
  import opened Http
  import Text
  import opened Auth

  /** `header.split(' ')[1]`: the text between the first and the second space,
      or nothing when the header has no space. */
  function SecondWord(header: string): (r: Option<string>)
    ensures r.None? <==> ' ' !in header
    ensures r.Some? ==> ' ' !in r.value
  {
    match Text.AfterFirst(header, ' ')
    case None => None
    case Some(rest) => Some(Text.PrefixBefore(rest, ' '))
  }

  /** `authHeader && authHeader.split(' ')[1]`; `None` stands for every falsy result. */
  function BearerToken(header: Option<string>): (t: Option<string>)
    ensures t.Some? ==> Given(header) && ' ' in header.value
  {
    if Given(header) then SecondWord(header.value) else None
  }

  /** The second word is the token whatever the first word is: the scheme is
      never checked to be "Bearer", and anything after a further space is dropped. */
  lemma SchemeNotChecked(scheme: string, token: string, rest: Option<string>)
    requires ' ' !in scheme && ' ' !in token
    ensures BearerToken(Some(scheme + " " + token + (if rest.Some? then " " + rest.value else ""))) == Some(token)
  {
    var tail := if rest.Some? then " " + rest.value else "";
    var h := scheme + " " + token + tail;
    assert h == scheme + [' '] + (token + tail);
    Text.PrefixBeforeAppend(scheme, ' ', token + tail);
    assert Text.AfterFirst(h, ' ') == Some(token + tail);
    if rest.Some? {
      assert token + tail == token + [' '] + rest.value;
      Text.PrefixBeforeAppend(token, ' ', rest.value);
    } else {
      assert token + tail == token;
      Text.PrefixBeforeAbsent(token, ' ');
    }
  }

  datatype Decision = Deny(code: nat, message: string) | Proceed(user: Claims)

  /** What `authenticateToken` decides for a header, given the verifier. */
  function Authenticate(header: Option<string>, verify: string -> Option<Claims>): (d: Decision)
    ensures !Given(BearerToken(header)) <==> d == Deny(401, "Access denied. No token provided.")
    ensures d.Proceed? <==> Given(BearerToken(header)) && verify(BearerToken(header).value).Some?
    ensures d.Proceed? ==> Some(d.user) == verify(BearerToken(header).value)
    ensures d.Deny? && d.code != 401 ==> d == Deny(403, "Invalid or expired token.")
  {
    var token := BearerToken(header);
    if !Given(token) then Deny(401, "Access denied. No token provided.")
    else match verify(token.value)
      case None => Deny(403, "Invalid or expired token.")
      case Some(claims) => Proceed(claims)
  }

  /** A header without a space, or whose second word is empty (`"Bearer "`), is refused with 401. */
  lemma NoTokenRefused(header: string, verify: string -> Option<Claims>)
    requires ' ' !in header || Text.AfterFirst(header, ' ').value == "" || Text.AfterFirst(header, ' ').value[0] == ' '
    ensures Authenticate(Some(header), verify).code == 401
  {
  }

  /** A token that signup or login issued, presented as `Bearer <token>`,
      passes the check with its own claims, provided the verifier accepts what
      the signer produced and the signed text has no space in it. */
  lemma IssuedTokenAuthenticates(sign: Claims -> string, verify: string -> Option<Claims>, claims: Claims)
    requires verify(sign(claims)) == Some(claims)
    requires sign(claims) != "" && ' ' !in sign(claims)
    ensures Authenticate(Some("Bearer " + sign(claims)), verify) == Proceed(claims)
  {
    SchemeNotChecked("Bearer", sign(claims), None);
    assert "Bearer" + " " + sign(claims) + "" == "Bearer " + sign(claims);
  }

  /** The request as the middleware sees it: the claims it attaches, the
      response it sends, and how many times it hands the request on. */
  class Request {
    var user: Option<Claims>
    var response: Option<Decision>
    var nextCalls: nat

    constructor ()
      ensures user.None? && response.None? && nextCalls == 0
    {
      user, response, nextCalls := None, None, 0;
    }
  }

  /** `authenticateToken(req, res, next)`. */
  method AuthenticateToken(req: Request, header: Option<string>, verify: string -> Option<Claims>)
    modifies req
    ensures var d := Authenticate(header, verify);
      if d.Proceed? then
        req.user == Some(d.user) && req.nextCalls == old(req.nextCalls) + 1 && req.response == old(req.response)
      else
        req.response == Some(d) && req.nextCalls == old(req.nextCalls) && req.user == old(req.user)
  {
    var token := BearerToken(header);
    if !Given(token) {
      req.response := Some(Deny(401, "Access denied. No token provided."));
      return;
    }
    var decoded := verify(token.value);
    if decoded.None? {
      req.response := Some(Deny(403, "Invalid or expired token."));
      return;
    }
    req.user := decoded;
    req.nextCalls := req.nextCalls + 1;
  }
}
