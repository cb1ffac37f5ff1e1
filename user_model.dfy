/** The user record as the account handlers read and write it, and the
    lifecycle of the password-reset token. The schema itself (models/User.js)
    is not part of this model: the password is kept as the value last
    assigned, before any hashing the schema may apply. */
module UserModel {
  import opened Common

  datatype User = User(name: string, email: string, password: string, role: string,
                       resetToken: Option<string>, resetExpire: Option<int>)

  /** A user as `.select('-password')` returns it: every field but the password. */
  datatype PublicUser = PublicUser(name: string, email: string, role: string,
                                   resetToken: Option<string>, resetExpire: Option<int>)

  function WithoutPassword(u: User): (p: PublicUser)
    ensures p.name == u.name && p.email == u.email && p.role == u.role
    ensures p.resetToken == u.resetToken && p.resetExpire == u.resetExpire
  {
    PublicUser(u.name, u.email, u.role, u.resetToken, u.resetExpire)
  }

  /** The roles `updateUserRole` accepts. */
  predicate IsRole(role: string) {
    role == "admin" || role == "customer"
  }

  /** A new account: the role every registration starts with and no reset token. */
  function NewUser(name: string, email: string, password: string): (u: User)
    ensures u.name == name && u.email == email && u.password == password
    ensures u.role == "customer" && IsRole(u.role)
    ensures u.resetToken.None? && u.resetExpire.None?
  {
    User(name, email, password, "customer", None, None)
  }

  /** Ten minutes in milliseconds. */
  const ResetWindowMs: int := 10 * 60 * 1000

  /** `forgotPassword` stores the digest of the fresh token and an expiry ten
      minutes from now. */
  function WithResetToken(u: User, digest: string, now: int): (v: User)
    ensures v.resetToken == Some(digest) && v.resetExpire == Some(now + 600000)
    ensures v.(resetToken := u.resetToken, resetExpire := u.resetExpire) == u
  {
    u.(resetToken := Some(digest), resetExpire := Some(now + ResetWindowMs))
  }

  /** Both reset fields unset, as after a failed delivery or a completed reset. */
  function WithoutResetToken(u: User): (v: User)
    ensures v.resetToken.None? && v.resetExpire.None?
    ensures v.(resetToken := u.resetToken, resetExpire := u.resetExpire) == u
  {
    u.(resetToken := None, resetExpire := None)
  }

  /** The query of `resetPassword`: the stored digest equals the digest of the
      token presented and the expiry is strictly later than now. */
  predicate AcceptsReset(u: User, digest: string, now: int) {
    u.resetToken == Some(digest) && u.resetExpire.Some? && u.resetExpire.value > now
  }

  /** A freshly issued token is accepted for exactly ten minutes, and only by
      its own digest. */
  lemma ResetTokenWindow(u: User, digest: string, issued: int, presented: string, now: int)
    ensures AcceptsReset(WithResetToken(u, digest, issued), presented, now)
            <==> presented == digest && now < issued + 600000
  {
  }

  /** Once the fields are cleared, no token is accepted: a token works at most
      once, and a token whose email was not delivered never works. */
  lemma ClearedRejectsAll(u: User, digest: string, now: int)
    ensures !AcceptsReset(WithoutResetToken(u), digest, now)
  {
  }
}
