/** The decisions of the account handlers (registration, login, profile,
    password reset and change) and of the admin user handlers, as pure
    functions of the stored users and the request. Hashing, bcrypt's
    comparison, JWT verification and mail delivery are parameters. */
module UserHandlers {
  import opened Common
  import opened UserModel
  import opened StoreInvariants

  /** `User.findOne({ email })`: the earliest-created user below `bound` with
      that address. */
  function FirstWithEmail(us: map<Id, User>, bound: nat, email: string): (k: Option<Id>)
    ensures k.Some? ==> k.value < bound && k.value in us && us[k.value].email == email
    ensures k.Some? ==> forall j :: j < k.value && j in us ==> us[j].email != email
    ensures k.None? ==> forall j :: j < bound && j in us ==> us[j].email != email
  {
    if bound == 0 then None
    else match FirstWithEmail(us, bound - 1, email)
      case Some(k) => Some(k)
      case None => if bound - 1 in us && us[bound - 1].email == email then Some(bound - 1) else None
  }

  /** The query of `resetPassword`: the earliest-created user below `bound`
      whose stored digest is the one presented and whose expiry is later than now. */
  function FirstAccepting(us: map<Id, User>, bound: nat, digest: string, now: int): (k: Option<Id>)
    ensures k.Some? ==> k.value < bound && k.value in us && AcceptsReset(us[k.value], digest, now)
    ensures k.None? ==> forall j :: j < bound && j in us ==> !AcceptsReset(us[j], digest, now)
  {
    if bound == 0 then None
    else match FirstAccepting(us, bound - 1, digest, now)
      case Some(k) => Some(k)
      case None => if bound - 1 in us && AcceptsReset(us[bound - 1], digest, now) then Some(bound - 1) else None
  }

  // ----- admin -----

  /** `getUserById`: 404 for an unknown id, otherwise the user without its password. */
  function UserReply(us: map<Id, User>, id: Id): (r: Result<PublicUser>)
    ensures r.Err? <==> id !in us
    ensures r.Err? ==> r.failure == NotFound
    ensures r.Ok? ==> r.value == WithoutPassword(us[id]) && r.value.email == us[id].email
  {
    if id !in us then Err(NotFound) else Ok(WithoutPassword(us[id]))
  }

  /** `getAllUsers`: every user, none with its password. */
  function AllUsers(us: map<Id, User>): (r: map<Id, PublicUser>)
    ensures r.Keys == us.Keys
    ensures forall id :: id in r ==> r[id] == WithoutPassword(us[id])
  {
    map id | id in us :: WithoutPassword(us[id])
  }

  /** `updateUserRole`: an unknown user is 404 before the role is looked at;
      a role other than "admin" and "customer" is 400; otherwise only the role
      changes. */
  function RoleReply(us: map<Id, User>, id: Id, role: string): (r: Result<User>)
    ensures id !in us ==> r == Err(NotFound)
    ensures id in us && !IsRole(role) ==> r == Err(BadRequest)
    ensures r.Ok? <==> id in us && IsRole(role)
    ensures r.Ok? ==> r.value.role == role && r.value.(role := us[id].role) == us[id]
  {
    if id !in us then Err(NotFound)
    else if !IsRole(role) then Err(BadRequest)
    else Ok(us[id].(role := role))
  }

  // ----- registration and login -----

  /** `registerUser`: 400 when the address is already registered, otherwise
      a new customer account. */
  function RegisterReply(us: map<Id, User>, bound: nat, name: string, email: string, password: string)
    : (r: Result<User>)
    ensures r.Err? <==> exists j :: j < bound && j in us && us[j].email == email
    ensures r.Err? ==> r.failure == BadRequest
    ensures r.Ok? ==> r.value == NewUser(name, email, password)
  {
    if FirstWithEmail(us, bound, email).Some? then Err(BadRequest) else Ok(NewUser(name, email, password))
  }

  /** An address, once registered, cannot be registered again. */
  lemma RegisterTwiceRefused(us: map<Id, User>, bound: nat, name: string, email: string, password: string,
                             name': string, password': string)
    requires bound !in us
    requires RegisterReply(us, bound, name, email, password).Ok?
    ensures RegisterReply(us[bound := NewUser(name, email, password)], bound + 1, name', email, password')
            == Err(BadRequest)
  {
    var us' := us[bound := NewUser(name, email, password)];
    assert bound < bound + 1 && bound in us' && us'[bound].email == email;
  }

  /** A registered account keeps the users in order. */
  lemma InsertUserOk(us: map<Id, User>, nextId: nat, name: string, email: string, password: string)
    requires UsersOk(us, nextId)
    ensures UsersOk(us[nextId := NewUser(name, email, password)], nextId + 1)
  {
  }

  /** `authUser`: the account found by the address, when `matches` (bcrypt's
      comparison of the password given with the stored one) accepts; 401
      otherwise, for an unknown address and a wrong password alike. */
  function LoginReply(us: map<Id, User>, bound: nat, email: string, password: string,
                      matches: (string, string) -> bool): (r: Result<Id>)
    ensures r.Ok? <==> FirstWithEmail(us, bound, email).Some?
                       && matches(password, us[FirstWithEmail(us, bound, email).value].password)
    ensures r.Ok? ==> r.value in us && us[r.value].email == email
    ensures r.Err? ==> r.failure == Unauthorized
  {
    match FirstWithEmail(us, bound, email)
    case None => Err(Unauthorized)
    case Some(k) => if matches(password, us[k].password) then Ok(k) else Err(Unauthorized)
  }

  /** An address nobody registered never logs in, whatever the password. */
  lemma UnknownEmailNeverLogsIn(us: map<Id, User>, bound: nat, email: string, password: string,
                                matches: (string, string) -> bool)
    requires forall j :: j in us ==> us[j].email != email
    ensures LoginReply(us, bound, email, password, matches) == Err(Unauthorized)
  {
  }

  /** `refreshAccessToken`: 401 without a refresh token, when `decode` (the
      JWT verification) rejects it, or when its user no longer exists. */
  function RefreshReply(us: map<Id, User>, token: Option<string>, decode: string -> Option<Id>): (r: Result<Id>)
    ensures r.Ok? <==> token.Some? && token.value != "" && decode(token.value).Some? && decode(token.value).value in us
    ensures r.Ok? ==> r.value == decode(token.value).value
    ensures r.Err? ==> r.failure == Unauthorized
  {
    if token.None? || token.value == "" then Err(Unauthorized)
    else match decode(token.value)
      case None => Err(Unauthorized)
      case Some(id) => if id in us then Ok(id) else Err(Unauthorized)
  }

  // ----- profile and passwords -----

  /** The fields `updateUserProfile` assigns: a falsy name or email keeps the
      stored one, and the password is replaced only when one is given. */
  function EditedProfile(u: User, name: string, email: string, password: string): (v: User)
    ensures v.name == (if name != "" then name else u.name)
    ensures v.email == (if email != "" then email else u.email)
    ensures v.password == (if password != "" then password else u.password)
    ensures v.(name := u.name, email := u.email, password := u.password) == u
  {
    u.(name := if name != "" then name else u.name,
       email := if email != "" then email else u.email,
       password := if password != "" then password else u.password)
  }

  /** A request with every field falsy changes nothing. */
  lemma EmptyEditKeepsProfile(u: User)
    ensures EditedProfile(u, "", "", "") == u
  {
  }

  /** `updateUserProfile`: 404 when the caller's account no longer exists. */
  function ProfileReply(us: map<Id, User>, caller: Id, name: string, email: string, password: string)
    : (r: Result<User>)
    ensures r.Err? <==> caller !in us
    ensures r.Err? ==> r.failure == NotFound
    ensures r.Ok? ==> r.value == EditedProfile(us[caller], name, email, password)
    ensures r.Ok? ==> r.value.role == us[caller].role
  {
    if caller !in us then Err(NotFound) else Ok(EditedProfile(us[caller], name, email, password))
  }

  /** `changePassword`: 404 when the caller's account is gone, 400 when
      `matches` rejects the current password (the stored one is kept), and
      otherwise only the password changes. */
  function ChangePasswordReply(us: map<Id, User>, caller: Id, current: string, newPassword: string,
                               matches: (string, string) -> bool): (r: Result<User>)
    ensures caller !in us ==> r == Err(NotFound)
    ensures caller in us && !matches(current, us[caller].password) ==> r == Err(BadRequest)
    ensures r.Ok? <==> caller in us && matches(current, us[caller].password)
    ensures r.Ok? ==> r.value.password == newPassword && r.value.(password := us[caller].password) == us[caller]
  {
    if caller !in us then Err(NotFound)
    else if !matches(current, us[caller].password) then Err(BadRequest)
    else Ok(us[caller].(password := newPassword))
  }

  /** `forgotPassword` looks the account up by address: 404 for an unknown one. */
  function ForgotTarget(us: map<Id, User>, bound: nat, email: string): (r: Result<Id>)
    ensures r.Err? <==> forall j :: j < bound && j in us ==> us[j].email != email
    ensures r.Err? ==> r.failure == NotFound
    ensures r.Ok? ==> r.value == FirstWithEmail(us, bound, email).value
  {
    match FirstWithEmail(us, bound, email)
    case None => Err(NotFound)
    case Some(k) => Ok(k)
  }

  /** The account after `forgotPassword`: the digest of the fresh token and its
      expiry are saved; when the mail is not delivered both are cleared again
      in a second save. Either way nothing else changes, and an undelivered
      token is never accepted. */
  function AfterForgot(u: User, digest: string, now: int, delivered: bool): (v: User)
    ensures v.(resetToken := u.resetToken, resetExpire := u.resetExpire) == u
    ensures delivered ==> forall d, t :: AcceptsReset(v, d, t) <==> d == digest && t < now + ResetWindowMs
    ensures !delivered ==> forall d, t :: !AcceptsReset(v, d, t)
  {
    if delivered then WithResetToken(u, digest, now) else WithoutResetToken(WithResetToken(u, digest, now))
  }

  /** `resetPassword`: 400 unless some account holds the presented digest
      unexpired; that account takes the new password and loses both reset fields. */
  function ResetReply(us: map<Id, User>, bound: nat, digest: string, now: int, password: string)
    : (r: Result<(Id, User)>)
    ensures r.Err? <==> forall j :: j < bound && j in us ==> !AcceptsReset(us[j], digest, now)
    ensures r.Err? ==> r.failure == BadRequest
    ensures r.Ok? ==> r.value.0 in us && AcceptsReset(us[r.value.0], digest, now)
    ensures r.Ok? ==> r.value.1 == WithoutResetToken(us[r.value.0]).(password := password)
  {
    match FirstAccepting(us, bound, digest, now)
    case None => Err(BadRequest)
    case Some(k) => Ok((k, WithoutResetToken(us[k]).(password := password)))
  }

  /** A reset token works at most once: once used, the same digest is refused
      at any later time, unless another account happens to hold it too. */
  lemma ResetTwiceRefused(us: map<Id, User>, bound: nat, digest: string, now: int, password: string,
                          later: int, password': string)
    requires ResetReply(us, bound, digest, now, password).Ok?
    requires forall j :: j in us && j != ResetReply(us, bound, digest, now, password).value.0 ==>
               us[j].resetToken != Some(digest)
    ensures var (k, v) := ResetReply(us, bound, digest, now, password).value;
            ResetReply(us[k := v], bound, digest, later, password') == Err(BadRequest)
  {
    var (k, v) := ResetReply(us, bound, digest, now, password).value;
    ClearedRejectsAll(us[k], digest, later);
    assert v.resetToken.None?;
  }

  /** Writing an account that keeps one of the two roles keeps the users in order. */
  lemma PutUserOk(us: map<Id, User>, nextId: nat, id: Id, u: User)
    requires UsersOk(us, nextId)
    requires id in us && IsRole(u.role)
    ensures UsersOk(us[id := u], nextId)
  {
  }
}
