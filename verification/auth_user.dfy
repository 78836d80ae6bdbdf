/** middlewares/authUser.js: `authenticateUser` turns the `Authorization`
    header into `req.user` or a rejection; `authorizeUser(role)` lets only
    users of exactly that role through. `jwt.verify` is an oracle from token
    to verification outcome (signature, secret and expiry are its business). */
module AuthUser {
  import opened Js
  import opened Strings
  import opened Http

  /** What `jwt.verify` does with a token: call back with the decoded
      payload, call back with an error, or raise instead of calling back. */
  datatype Verification = Decoded(payload: Payload) | VerifyError | Raised

  /** The JSON bodies of the middleware's rejections. */
  datatype RejectBody =
    | Rejected(status: int, success: bool, message: string)
    | Forbidden(message: string)

  /** What a middleware does with a request: answer it, pass it on with
      `next()`, do neither, or throw to Express. */
  datatype MiddlewareResult =
    | Respond(httpStatus: int, body: RejectBody)
    | Next(req: Request)
    | Unanswered
    | Throws(exc: Exception)

  const NoTokenMessage: string := "Access denied. No token provided."
  const AccessDeniedMessage: string := "Access Denied"
  const ForbiddenMessage: string := "Access forbidden. You do not have the required permissions."

  /** `req.headers['authorization']?.split(' ')[1]`: the second space-separated
      piece of the header, or `undefined`. */
  function ExtractToken(authorization: Option<string>): (token: Option<string>)
    ensures authorization.None? ==> token.None?
    ensures authorization.Some? ==> (token.Some? <==> ' ' in authorization.value)
    ensures token.Some? ==> ' ' !in token.value
  {
    match authorization
    case None => None
    case Some(h) =>
      var pieces := Split(h, ' ');
      if |pieces| > 1 then Some(pieces[1]) else None
  }

  /** `t` is the header's second word: the run of characters right after the
      header's first space. */
  ghost predicate SecondWord(h: string, t: string)
  {
    exists k :: 0 <= k < |h| && h[k] == ' ' && ' ' !in h[..k] && RunAt(h, k + 1, t, ' ')
  }

  /** A header with a second word contains a space. */
  lemma SecondWordNeedsSpace(h: string, t: string)
    requires SecondWord(h, t)
    ensures ' ' in h
  {
    var k :| 0 <= k < |h| && h[k] == ' ' && ' ' !in h[..k] && RunAt(h, k + 1, t, ' ');
    assert h[k] == ' ';
  }

  /** A header has at most one second word. */
  lemma SecondWordUnique(h: string, t1: string, t2: string)
    requires SecondWord(h, t1) && SecondWord(h, t2)
    ensures t1 == t2
  {
    var k1 :| 0 <= k1 < |h| && h[k1] == ' ' && ' ' !in h[..k1] && RunAt(h, k1 + 1, t1, ' ');
    var k2 :| 0 <= k2 < |h| && h[k2] == ' ' && ' ' !in h[..k2] && RunAt(h, k2 + 1, t2, ' ');
    FirstOccurrenceUnique(h, ' ', k1, k2);
    RunAtUnique(h, k1 + 1, t1, t2, ' ');
  }

  /** With a space in the header, the token is the first piece of what
      follows the first space. */
  lemma TokenAfterFirstSpace(h: string)
    requires ' ' in h
    ensures IndexOf(h, ' ').Some?
    ensures ExtractToken(Some(h)) == Some(Split(h[IndexOf(h, ' ').value + 1..], ' ')[0])
  {
    SplitTail(h, ' ');
  }

  /** A run at the start of a suffix of `h` is a run at the suffix's offset in `h`. */
  lemma RunInSuffix(h: string, start: nat, w: string)
    requires start <= |h|
    requires RunAt(h[start..], 0, w, ' ')
    ensures RunAt(h, start, w, ' ')
  {
    var rest := h[start..];
    assert h[start..start + |w|] == rest[0..|w|];
    assert |w| == |rest| || h[start + |w|] == rest[|w|];
  }

  /** When the header has a space, the extracted token is its second word. */
  lemma ExtractedIsSecondWord(h: string)
    requires ' ' in h
    ensures ExtractToken(Some(h)).Some?
    ensures SecondWord(h, ExtractToken(Some(h)).value)
  {
    TokenAfterFirstSpace(h);
    var k := IndexOf(h, ' ').value;
    var t0 := Split(h[k + 1..], ' ')[0];
    SplitHead(h[k + 1..], ' ');
    RunInSuffix(h, k + 1, t0);
    assert h[k] == ' ' && ' ' !in h[..k] && RunAt(h, k + 1, t0, ' ');
  }

  /** The extracted token is exactly the header's second word; nothing about
      the first word (the scheme) is looked at. */
  lemma ExtractTokenIsSecondWord(h: string, t: string)
    ensures ExtractToken(Some(h)) == Some(t) <==> SecondWord(h, t)
  {
    if ' ' in h {
      ExtractedIsSecondWord(h);
      if SecondWord(h, t) {
        SecondWordUnique(h, t, ExtractToken(Some(h)).value);
      }
    } else if SecondWord(h, t) {
      SecondWordNeedsSpace(h, t);
    }
  }

  /** Whatever the scheme word, `<scheme> <token>` yields the token. */
  lemma SchemeNeverChecked(scheme: string, token: string)
    requires ' ' !in scheme && ' ' !in token
    ensures ExtractToken(Some(scheme + " " + token)) == Some(token)
  {
    SplitJoin([scheme, token], ' ');
    assert Join([scheme, token], ' ') == scheme + " " + token;
  }

  /** The header yields a token that is not the empty string (`!token` is false). */
  predicate HasToken(req: Request)
  {
    var token := ExtractToken(req.authorization);
    token.Some? && token.value != ""
  }

  /** `authenticateUser`: 401 without a token, 403 when verification fails,
      otherwise `req.user` becomes the decoded payload and `next()` is called.
      If the library raises instead of calling back, the empty outer `catch`
      swallows it and the request is neither answered nor passed on. */
  function AuthenticateUser(req: Request, verify: string -> Verification): (r: MiddlewareResult)
    ensures !HasToken(req) ==> r == Respond(401, Rejected(401, false, NoTokenMessage))
    ensures HasToken(req) ==>
      var v := verify(ExtractToken(req.authorization).value);
      && (v.VerifyError? ==> r == Respond(403, Rejected(403, false, AccessDeniedMessage)))
      && (v.Decoded? ==> r == Next(req.(user := Some(v.payload))))
      && (v.Raised? ==> r == Unanswered)
    ensures r.Next? ==> r.req.user.Some? && r.req == req.(user := r.req.user)
  {
    var token := ExtractToken(req.authorization);
    if token.None? || token.value == "" then
      Respond(401, Rejected(401, false, NoTokenMessage))
    else
      match verify(token.value)
      case VerifyError => Respond(403, Rejected(403, false, AccessDeniedMessage))
      case Decoded(user) => Next(req.(user := Some(user)))
      case Raised => Unanswered
  }

  /** A header without a space, or with two spaces after the scheme, carries
      no token: the request is refused with 401 before the verifier is asked. */
  lemma NoTokenShapes(scheme: string, rest: string, verify: string -> Verification, req: Request)
    requires ' ' !in scheme
    requires req.authorization == Some(scheme) || req.authorization == Some(scheme + "  " + rest)
    ensures AuthenticateUser(req, verify) == Respond(401, Rejected(401, false, NoTokenMessage))
  {
    var h := scheme + "  " + rest;
    if req.authorization == Some(h) {
      assert h[|scheme|] == ' ';
      assert IndexOf(h, ' ') == Some(|scheme|);
      assert h[|scheme| + 1..] == " " + rest;
      assert IndexOf(" " + rest, ' ') == Some(0);
      SplitTail(h, ' ');
    }
  }

  /** `authorizeUser(requiredRole)`: `next()` exactly when the user's type is
      strictly equal to the required role, 403 otherwise; reading the type of
      a missing `req.user` throws. */
  function AuthorizeUser(requiredRole: string, req: Request): (r: MiddlewareResult)
    ensures req.user.None? ==> r == Throws(TypeError)
    ensures req.user.Some? ==> (r.Next? <==> req.user.value.userType == Str(requiredRole))
    ensures r.Next? ==> r.req == req
    ensures req.user.Some? && !r.Next? ==> r == Respond(403, Forbidden(ForbiddenMessage))
  {
    match req.user
    case None => Throws(TypeError)
    case Some(user) =>
      if user.userType != Str(requiredRole) then Respond(403, Forbidden(ForbiddenMessage))
      else Next(req)
  }

  /** There is no role hierarchy: a user admitted for one role is refused for
      every other. */
  lemma NoRoleHierarchy(role1: string, role2: string, req: Request)
    requires role1 != role2
    requires AuthorizeUser(role1, req).Next?
    ensures AuthorizeUser(role2, req) == Respond(403, Forbidden(ForbiddenMessage))
  {
  }
}
