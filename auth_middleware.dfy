/** The request guards: where the access token is taken from, and the admin gate. */
module AuthMiddleware {
  import opened Common
  import opened Text
  import opened UserModel

  /** The second space-separated piece of an `Authorization` header that
      starts with `Bearer`, when there is a non-empty one. */
  function BearerPiece(header: string): (r: Option<string>)
    ensures r.Some? <==> StartsWith(header, "Bearer") && |Split(header, ' ')| >= 2 && Split(header, ' ')[1] != ""
    ensures r.Some? ==> r.value == Split(header, ' ')[1]
  {
    if StartsWith(header, "Bearer") && |Split(header, ' ')| >= 2 && Split(header, ' ')[1] != ""
    then Some(Split(header, ' ')[1]) else None
  }

  /** A header written as `Bearer <token>`, with a token free of spaces, gives
      that token back. */
  lemma BearerRoundTrip(token: string)
    requires token != "" && ' ' !in token
    ensures BearerPiece("Bearer " + token) == Some(token)
  {
    var header := "Bearer " + token;
    assert header == "Bearer" + [' '] + token;
    assert ' ' !in "Bearer";
    SplitAtFirstSeparator("Bearer", ' ', token);
    SplitWithoutSeparator(token, ' ');
    assert header[..6] == "Bearer";
  }

  /** The token `protect` verifies: the `accessToken` cookie when it is
      non-empty; the header is consulted only when the cookie is absent or
      empty, and yields a token only through `BearerPiece`. */
  method SelectToken(cookie: Option<string>, authorization: Option<string>) returns (token: Option<string>)
    ensures cookie.Some? && cookie.value != "" ==> token == cookie
    ensures cookie.None? || cookie.value == "" ==>
              token == (if authorization.Some? then BearerPiece(authorization.value) else None)
    ensures token.Some? ==> token.value != ""
  {
    token := cookie;
    if token.None? || token.value == "" {
      token := None;
      if authorization.Some? && StartsWith(authorization.value, "Bearer") {
        var parts := Split(authorization.value, ' ');
        if |parts| >= 2 && parts[1] != "" {
          token := Some(parts[1]);
        }
      }
    }
  }

  /** `protect` once the token is chosen: 401 without a token, when `decode`
      (the JWT verification) rejects it, or when the decoded id names no user;
      otherwise the request goes on with that user attached. */
  function Authenticate(us: map<Id, User>, token: Option<string>, decode: string -> Option<Id>): (r: Result<Id>)
    ensures r.Ok? <==> token.Some? && decode(token.value).Some? && decode(token.value).value in us
    ensures r.Ok? ==> r.value == decode(token.value).value
    ensures r.Err? ==> r.failure == Unauthorized
  {
    if token.None? then Err(Unauthorized)
    else match decode(token.value)
      case None => Err(Unauthorized)
      case Some(id) => if id in us then Ok(id) else Err(Unauthorized)
  }

  /** `protect`: the token is chosen as `SelectToken` does, then authenticated. */
  method Protect(us: map<Id, User>, cookie: Option<string>, authorization: Option<string>,
                 decode: string -> Option<Id>) returns (r: Result<Id>)
    ensures cookie.Some? && cookie.value != "" ==> r == Authenticate(us, cookie, decode)
    ensures cookie.None? || cookie.value == "" ==>
              r == Authenticate(us, if authorization.Some? then BearerPiece(authorization.value) else None, decode)
    ensures r.Ok? ==> r.value in us
  {
    var token := SelectToken(cookie, authorization);
    r := Authenticate(us, token, decode);
  }

  /** `admin`: the request passes exactly when a user is attached and its role
      is "admin"; otherwise 403. */
  function AdminGate(user: Option<User>): (r: Result<()>)
    ensures r.Ok? <==> user.Some? && user.value.role == "admin"
    ensures r.Err? ==> r.failure == Forbidden
  {
    if user.Some? && user.value.role == "admin" then Ok(()) else Err(Forbidden)
  }
}
