/** `middleware/auth.js`: `protect` reads a bearer token from the
    Authorization header and loads the user it names; `authorize(...roles)`
    admits a loaded user whose role is listed. Token verification
    (`jwt.verify`, giving the `userId` the token was signed over) is a
    parameter. */
module AuthMiddleware {
  import opened Base
  import opened Text
  import opened ApiTypes

  /** What a middleware does: `next()` with `req.user` as it then stands,
      or `res.status(status)` and an error thrown with `message`. */
  datatype Gate = Next(user: Option<AuthUser>) | Halt(status: int, message: string)

  const NoToken: string := "Not authorized, no token"
  const TokenFailed: string := "Not authorized, token failed"

  /** `req.headers.authorization && req.headers.authorization.startsWith('Bearer')` */
  predicate BearerHeader(authorization: Option<string>)
  {
    Truthy(authorization) && StartsWith(authorization.value, "Bearer")
  }

  /** The user id carried by the header's token: the second space-separated
      piece, verified. An absent or empty piece fails verification
      (`jsonwebtoken` refuses an empty token before checking it). */
  function DecodedUserId(header: string, verify: string -> Option<string>): Option<string>
  {
    match SplitSecond(header)
    case None => None
    case Some(token) => if token == "" then None else verify(token)
  }

  /** `protect`. A missing user ("User not found") is thrown inside the
      `try` and so is reported like a bad token. */
  function Protect(authorization: Option<string>, verify: string -> Option<string>, users: map<string, UserRow>)
    : (r: Gate)
    ensures !BearerHeader(authorization) ==> r == Halt(401, NoToken)
    ensures BearerHeader(authorization) && r.Halt? ==> r == Halt(401, TokenFailed)
    ensures r.Next? <==>
      BearerHeader(authorization)
      && DecodedUserId(authorization.value, verify).Some?
      && DecodedUserId(authorization.value, verify).value in users
    ensures r.Next? ==>
      var id := DecodedUserId(authorization.value, verify).value;
      r.user == Some(AuthUserOf(id, users[id]))
  {
    if !BearerHeader(authorization) then Halt(401, NoToken)
    else
      match DecodedUserId(authorization.value, verify)
      case None => Halt(401, TokenFailed)
      case Some(id) =>
        if id !in users then Halt(401, TokenFailed)
        else Next(Some(AuthUserOf(id, users[id])))
  }

  /** A header `Bearer <token>` (optionally followed by more space-separated
      text) lets the request through exactly when the token verifies to the
      id of an existing user, and `req.user` is then that user. */
  lemma {:induction false} ProtectBearerToken(token: string, tail: Option<string>,
                                             verify: string -> Option<string>, users: map<string, UserRow>)
    requires token != [] && ' ' !in token
    ensures var header := "Bearer" + " " + token + (if tail.Some? then " " + tail.value else "");
      var r := Protect(Some(header), verify, users);
      (r.Next? <==> verify(token).Some? && verify(token).value in users)
      && (r.Next? ==> r.user == Some(AuthUserOf(verify(token).value, users[verify(token).value])))
      && (r.Halt? ==> r == Halt(401, TokenFailed))
  {
    var rest := if tail.Some? then " " + tail.value else "";
    var header := "Bearer" + " " + token + rest;
    BearerWord(" " + token + rest);
    SplitSecondOfJoined("Bearer", token, rest);
    BearerTokenHeader(header, token, verify);
    ProtectDecoded(header, token, verify, users);
  }

  /** The word `Bearer` holds no space and starts every header built on it. */
  lemma BearerWord(rest: string)
    ensures ' ' !in "Bearer"
    ensures ("Bearer" + rest)[..6] == "Bearer"
  {
    assert forall i :: 0 <= i < 6 ==> "Bearer"[i] != ' ';
  }

  /** What `protect` does with a bearer header whose token is `token`. */
  lemma ProtectDecoded(header: string, token: string, verify: string -> Option<string>, users: map<string, UserRow>)
    requires BearerHeader(Some(header)) && DecodedUserId(header, verify) == verify(token)
    ensures var r := Protect(Some(header), verify, users);
      (r.Next? <==> verify(token).Some? && verify(token).value in users)
      && (r.Next? ==> r.user == Some(AuthUserOf(verify(token).value, users[verify(token).value])))
      && (r.Halt? ==> r == Halt(401, TokenFailed))
  {
  }

  /** A header that starts with `Bearer` and whose second piece is a
      non-empty token is decoded by verifying that token. */
  lemma BearerTokenHeader(header: string, token: string, verify: string -> Option<string>)
    requires |header| >= 6 && header[..6] == "Bearer"
    requires SplitSecond(header) == Some(token) && token != []
    ensures BearerHeader(Some(header))
    ensures DecodedUserId(header, verify) == verify(token)
  {
  }

  /** `authorize(...roles)` */
  function Authorize(roles: seq<string>, user: Option<AuthUser>): (r: Gate)
    ensures user.None? ==> r == Halt(401, "Not authorized, no user")
    ensures r.Next? <==> user.Some? && user.value.role in roles
    ensures r.Next? ==> r.user == user
    ensures user.Some? && user.value.role !in roles ==>
      r == Halt(403, "User role " + user.value.role + " is not authorized to access this route")
  {
    if user.None? then Halt(401, "Not authorized, no user")
    else if user.value.role !in roles then
      Halt(403, "User role " + user.value.role + " is not authorized to access this route")
    else Next(user)
  }
}
