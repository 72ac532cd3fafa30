/**
 * The account and token lifecycle: login issues an access token and a
 * stored refresh token, the refresh token is validated against the store and
 * the clock, registration creates an inactive user with an activation token,
 * activation and password resets consume their tokens.
 *
 * The clock `now` is a number of whole seconds and every lifetime is a
 * number of seconds; random codes are parameters. A password hash is the
 * password under the `Hashed` constructor: hashing is one-to-one and
 * verifying a password compares hashes. A JWT is the claims it carries, or
 * text that does not decode.
 */
module AuthCrud {
  import opened Common
  import opened Seqs
  import opened Shop

  datatype Hash = Hashed(password: string)

  /** `verify_password`. */
  predicate VerifyPassword(raw: string, h: Hash)
  {
    h == Hashed(raw)
  }

  datatype Claims = Claims(exp: Option<int>, kind: Option<string>, sub: Option<string>, role: Option<string>)

  datatype Jwt = Signed(claims: Claims) | Garbled(text: string)

  /** `jwt.decode`: the claims of a token signed with the service key. */
  function Decode(t: Jwt): (r: Option<Claims>)
    ensures r.Some? <==> t.Signed?
  {
    match t
    case Signed(c) => Some(c)
    case Garbled(_) => None
  }

  /** `create_token`: the claims plus an expiry `ttl` seconds from now. */
  function CreateToken(kind: string, email: string, role: string, now: int, ttl: nat): Jwt
  {
    Signed(Claims(Some(now + ttl), Some(kind), Some(email), Some(role)))
  }

  /** A row of `users`. The user model is not part of this model; a new user is inactive. */
  datatype UserRow = UserRow(id: nat, email: string, hashedPassword: Hash, groupId: nat, isActive: bool)

  /** A row of `activation_tokens`, `password_reset_tokens` or `refresh_tokens`, keyed by its unique token. */
  datatype TokenRow = TokenRow(userId: nat, expiresAt: int)

  datatype AuthState = AuthState(
    users: seq<UserRow>,
    nextUserId: nat,
    groups: map<nat, Role>,
    /** `user_profiles`: profile id to user id. */
    profiles: map<nat, nat>,
    nextProfileId: nat,
    activationTokens: map<string, TokenRow>,
    resetTokens: map<string, TokenRow>,
    refreshTokens: map<Jwt, TokenRow>)

  function UserKey(u: UserRow): nat
  {
    u.id
  }

  predicate UniqueEmails(users: seq<UserRow>)
  {
    forall i, j | 0 <= i < |users| && 0 <= j < |users| && users[i].email == users[j].email :: i == j
  }

  /** Whether the user has a row in `user_profiles`. */
  predicate HasProfile(s: AuthState, userId: nat)
  {
    exists p | p in s.profiles :: s.profiles[p] == userId
  }

  /**
   * The invariant the operations keep: user ids are distinct and below the
   * counter, so are profile ids, emails are distinct, every user's group
   * exists, every activation code's user has a profile (registration
   * commits the two together) and every stored refresh token is a signed
   * refresh token.
   */
  predicate AuthValid(s: AuthState)
  {
    && DistinctKeys(s.users, UserKey)
    && KeysBelow(s.users, UserKey, s.nextUserId)
    && UniqueEmails(s.users)
    && (forall u | u in s.users :: u.groupId in s.groups)
    && (forall p | p in s.profiles :: p < s.nextProfileId)
    && (forall t | t in s.activationTokens :: HasProfile(s, s.activationTokens[t].userId))
    && (forall t | t in s.refreshTokens :: t.Signed? && t.claims.kind == Some("refresh"))
  }

  /** `get_user_by_email`. */
  function UserByEmail(users: seq<UserRow>, email: string): (r: Option<UserRow>)
    ensures r.Some? ==> r.value in users && r.value.email == email
    ensures r.None? <==> forall u | u in users :: u.email != email
  {
    FindFirst(users, (u: UserRow) => u.email == email)
  }

  /** With distinct emails, the lookup finds the one user with that email. */
  lemma UserByEmailFinds(users: seq<UserRow>, u: UserRow)
    requires UniqueEmails(users) && u in users
    ensures UserByEmail(users, u.email) == Some(u)
  {
    var r := UserByEmail(users, u.email);
    var i :| 0 <= i < |users| && users[i] == u;
    var j :| 0 <= j < |users| && users[j] == r.value;
    assert i == j;
  }

  /** The user a token row points to. */
  function UserById(users: seq<UserRow>, id: nat): (r: Option<UserRow>)
    ensures r.Some? ==> r.value in users && r.value.id == id
    ensures r.None? <==> forall u | u in users :: u.id != id
  {
    FindFirst(users, (u: UserRow) => u.id == id)
  }

  /** With distinct ids, the lookup finds the one user with that id. */
  lemma UserByIdFinds(users: seq<UserRow>, u: UserRow)
    requires DistinctKeys(users, UserKey) && u in users
    ensures UserById(users, u.id) == Some(u)
  {
    var r := UserById(users, u.id);
    var i :| 0 <= i < |users| && users[i] == u;
    var j :| 0 <= j < |users| && users[j] == r.value;
  }

  /** A claim that is present and not empty. */
  predicate Present(o: Option<string>)
  {
    o.Some? && o.value != ""
  }

  const InvalidRefreshToken := "Invalid Refresh Token was provided"
  const RefreshTokenNotStored := "Refresh token wasn't provided"
  const RefreshTokenUserMissing := "User from refresh token not exist"

  /**
   * `validate_refresh_token`: the cookie must be present, stored, decode,
   * carry an expiry, a type and a subject, not be expired, be of type
   * "refresh", and name an existing user; every refusal is a 401.
   */
  function ValidateRefreshToken(s: AuthState, cookie: Option<Jwt>, now: int): (r: Result<UserRow>)
    ensures cookie.None? || cookie == Some(Garbled("")) ==> r == Err(HttpError(401, InvalidRefreshToken))
    ensures cookie.Some? && cookie.value != Garbled("") && cookie.value !in s.refreshTokens ==>
      r == Err(HttpError(401, RefreshTokenNotStored))
    ensures r.Err? ==> r.error.HttpError? && r.error.status == 401
    ensures r.Ok? ==>
      && cookie.Some? && cookie.value in s.refreshTokens
      && cookie.value.Signed?
      && cookie.value.claims.kind == Some("refresh")
      && cookie.value.claims.exp.Some? && cookie.value.claims.exp.value >= now
      && r.value in s.users && cookie.value.claims.sub == Some(r.value.email)
  {
    if cookie.None? || cookie.value == Garbled("") then Err(HttpError(401, InvalidRefreshToken))
    else if cookie.value !in s.refreshTokens then Err(HttpError(401, RefreshTokenNotStored))
    else match Decode(cookie.value)
      case None => Err(HttpError(401, InvalidRefreshToken))
      case Some(c) =>
        if c.exp.None? || c.exp.value == 0 || !Present(c.kind) || !Present(c.sub) then
          Err(HttpError(401, InvalidRefreshToken))
        else if c.exp.value < now || c.kind.value != "refresh" then Err(HttpError(401, InvalidRefreshToken))
        else match UserByEmail(s.users, c.sub.value)
          case None => Err(HttpError(401, RefreshTokenUserMissing))
          case Some(u) => Ok(u)
  }

  /** `token_refresh`: a new access token for the user; a user without a group fails. */
  function TokenRefresh(s: AuthState, u: UserRow, now: int, accessTtl: nat): (r: Result<Jwt>)
    ensures r.Err? <==> u.groupId !in s.groups
    ensures r.Err? ==> r.error == InternalError
    ensures r.Ok? ==>
      && r.value.Signed?
      && r.value.claims.kind == Some("access")
      && r.value.claims.sub == Some(u.email)
      && r.value.claims.exp == Some(now + accessTtl)
      && r.value.claims.role == Some(RoleName(s.groups[u.groupId]))
  {
    if u.groupId !in s.groups then Err(InternalError)
    else Ok(CreateToken("access", u.email, RoleName(s.groups[u.groupId]), now, accessTtl))
  }

  /** The answers of `login`. */
  datatype LoginAnswer =
    | LoginUserNotFound
    | WrongPassword
    | LoggedIn(accessToken: Jwt, refreshToken: Jwt, refreshExpiresAt: int)

  /**
   * `login`: the user is looked up by email and the password verified; then
   * an access and a refresh token are issued and the refresh token stored.
   * A refresh token already stored breaks the unique column.
   */
  function LoginStep(s: AuthState, email: string, password: string, now: int, accessTtl: nat, refreshTtl: nat)
    : (o: (AuthState, Result<LoginAnswer>))
    ensures o.1 == Ok(LoginUserNotFound) <==> forall u | u in s.users :: u.email != email
    ensures UniqueEmails(s.users) ==>
      (o.1 == Ok(WrongPassword) <==> exists u | u in s.users :: u.email == email && !VerifyPassword(password, u.hashedPassword))
    ensures UniqueEmails(s.users) ==>
      (o.1 == Err(InternalError) <==> exists u | u in s.users ::
         && u.email == email && VerifyPassword(password, u.hashedPassword)
         && (u.groupId !in s.groups
             || CreateToken("refresh", email, RoleName(s.groups[u.groupId]), now, refreshTtl) in s.refreshTokens))
    ensures !(o.1.Ok? && o.1.value.LoggedIn?) ==> o.0 == s
    ensures o.1.Ok? && o.1.value.LoggedIn? ==>
      var a := o.1.value;
      && a.refreshExpiresAt == now + refreshTtl
      && a.accessToken.Signed? && a.refreshToken.Signed?
      && a.accessToken.claims == a.refreshToken.claims.(kind := Some("access"), exp := Some(now + accessTtl))
      && a.refreshToken.claims.kind == Some("refresh")
      && a.refreshToken.claims.sub == Some(email)
      && a.refreshToken.claims.exp == Some(now + refreshTtl)
      && a.refreshToken !in s.refreshTokens
      && exists u | u in s.users ::
           && u.email == email && VerifyPassword(password, u.hashedPassword)
           && u.groupId in s.groups
           && a.refreshToken.claims.role == Some(RoleName(s.groups[u.groupId]))
           && o.0 == s.(refreshTokens := s.refreshTokens[a.refreshToken := TokenRow(u.id, now + refreshTtl)])
  {
    match UserByEmail(s.users, email)
    case None => (s, Ok(LoginUserNotFound))
    case Some(u) =>
      assert UniqueEmails(s.users) ==> forall v | v in s.users && v.email == email :: v == u by {
        if UniqueEmails(s.users) {
          forall v | v in s.users && v.email == email ensures v == u {
            UserByEmailFinds(s.users, v);
          }
        }
      }
      if !VerifyPassword(password, u.hashedPassword) then
        (s, Ok(WrongPassword))
      else if u.groupId !in s.groups then (s, Err(InternalError))
      else
        var role := RoleName(s.groups[u.groupId]);
        var access := CreateToken("access", u.email, role, now, accessTtl);
        var refresh := CreateToken("refresh", u.email, role, now, refreshTtl);
        if refresh in s.refreshTokens then (s, Err(InternalError))
        else
          (s.(refreshTokens := s.refreshTokens[refresh := TokenRow(u.id, now + refreshTtl)]),
           Ok(LoggedIn(access, refresh, now + refreshTtl)))
  }

  /** A login keeps the invariant: it only stores a signed refresh token. */
  lemma LoginKeepsValid(s: AuthState, email: string, password: string, now: int, accessTtl: nat, refreshTtl: nat)
    requires AuthValid(s)
    ensures AuthValid(LoginStep(s, email, password, now, accessTtl, refreshTtl).0)
  {
  }

  /**
   * The refresh token a login issues is accepted, for the same user, until
   * its expiry second has passed; and refused afterwards.
   */
  lemma LoginThenRefresh(s: AuthState, email: string, password: string, now: int, accessTtl: nat, refreshTtl: nat, later: int)
    requires AuthValid(s)
    requires email != "" && now + refreshTtl != 0
    requires LoginStep(s, email, password, now, accessTtl, refreshTtl).1.Ok?
    requires LoginStep(s, email, password, now, accessTtl, refreshTtl).1.value.LoggedIn?
    ensures
      var (s', r) := LoginStep(s, email, password, now, accessTtl, refreshTtl);
      var v := ValidateRefreshToken(s', Some(r.value.refreshToken), later);
      (v.Ok? <==> later <= now + refreshTtl)
      && (v.Ok? ==> v.value.email == email && VerifyPassword(password, v.value.hashedPassword))
  {
    var (s', r) := LoginStep(s, email, password, now, accessTtl, refreshTtl);
    var u :| u in s.users && u.email == email && VerifyPassword(password, u.hashedPassword)
             && s' == s.(refreshTokens := s.refreshTokens[r.value.refreshToken := TokenRow(u.id, now + refreshTtl)]);
    UserByEmailFinds(s'.users, u);
  }

  /**
   * Two logins of one user within the same second build the same refresh
   * token, so the second breaks the unique column and fails.
   */
  lemma SameSecondLoginFails(s: AuthState, email: string, password: string, now: int, accessTtl: nat, refreshTtl: nat)
    requires LoginStep(s, email, password, now, accessTtl, refreshTtl).1.Ok?
    requires LoginStep(s, email, password, now, accessTtl, refreshTtl).1.value.LoggedIn?
    ensures
      var s' := LoginStep(s, email, password, now, accessTtl, refreshTtl).0;
      LoginStep(s', email, password, now, accessTtl, refreshTtl) == (s', Err(InternalError))
  {
  }

  /** An access token is never stored as a refresh token, so it never refreshes. */
  lemma AccessTokenNeverRefreshes(s: AuthState, t: Jwt, now: int)
    requires AuthValid(s)
    requires t.Signed? && t.claims.kind == Some("access")
    ensures ValidateRefreshToken(s, Some(t), now) == Err(HttpError(401, RefreshTokenNotStored))
  {
  }

  /** The answers of `user_register`. */
  datatype RegisterAnswer = EmailTaken | GroupNotFound | Registered(user: UserRow)

  /**
   * `user_register`: refused for a taken email or an unknown group. The user
   * is committed first; the profile and the activation token are committed
   * together afterwards, and a taken activation code makes that second
   * commit fail with the user already stored.
   */
  function RegisterStep(s: AuthState, email: string, password: string, groupId: nat, now: int, code: string, ttl: nat)
    : (o: (AuthState, Result<RegisterAnswer>))
    ensures o.1 == Ok(EmailTaken) <==> exists u | u in s.users :: u.email == email
    ensures o.1 == Ok(GroupNotFound) <==> (forall u | u in s.users :: u.email != email) && groupId !in s.groups
    ensures o.1.Ok? && !o.1.value.Registered? ==> o.0 == s
    ensures o.1.Err? || (o.1.Ok? && o.1.value.Registered?) ==>
      var u := UserRow(s.nextUserId, email, Hashed(password), groupId, false);
      && (forall v | v in s.users :: v.email != email)
      && groupId in s.groups
      && o.0.users == s.users + [u]
      && o.0.nextUserId == s.nextUserId + 1
      && o.0.groups == s.groups
      && o.0.resetTokens == s.resetTokens
      && o.0.refreshTokens == s.refreshTokens
      && (o.1.Err? <==> code in s.activationTokens)
      && (o.1.Err? ==> o.1.error == InternalError && o.0 == s.(users := s.users + [u], nextUserId := s.nextUserId + 1))
      && (o.1.Ok? ==>
            && o.1.value.user == u
            && o.0.profiles == s.profiles[s.nextProfileId := u.id]
            && o.0.nextProfileId == s.nextProfileId + 1
            && o.0.activationTokens == s.activationTokens[code := TokenRow(u.id, now + ttl)])
  {
    if UserByEmail(s.users, email).Some? then (s, Ok(EmailTaken))
    else if groupId !in s.groups then (s, Ok(GroupNotFound))
    else
      var u := UserRow(s.nextUserId, email, Hashed(password), groupId, false);
      var s1 := s.(users := s.users + [u], nextUserId := s.nextUserId + 1);
      if code in s1.activationTokens then (s1, Err(InternalError))
      else
        (s1.(profiles := s1.profiles[s1.nextProfileId := u.id],
             nextProfileId := s1.nextProfileId + 1,
             activationTokens := s1.activationTokens[code := TokenRow(u.id, now + ttl)]),
         Ok(Registered(u)))
  }

  /** Registration stores an activation code only together with its user's profile. */
  lemma RegisterKeepsTokenProfiles(s: AuthState, email: string, password: string, groupId: nat, now: int,
                                   code: string, ttl: nat)
    requires forall p | p in s.profiles :: p < s.nextProfileId
    requires forall t | t in s.activationTokens :: HasProfile(s, s.activationTokens[t].userId)
    ensures
      var s' := RegisterStep(s, email, password, groupId, now, code, ttl).0;
      forall t | t in s'.activationTokens :: HasProfile(s', s'.activationTokens[t].userId)
  {
    var o := RegisterStep(s, email, password, groupId, now, code, ttl);
    if o.1.Ok? && o.1.value.Registered? {
      var s' := o.0;
      forall t | t in s'.activationTokens ensures HasProfile(s', s'.activationTokens[t].userId) {
        if t == code {
          assert s'.profiles[s.nextProfileId] == s'.activationTokens[t].userId;
        } else {
          var p :| p in s.profiles && s.profiles[p] == s.activationTokens[t].userId;
          assert s'.profiles[p] == s'.activationTokens[t].userId;
        }
      }
    }
  }

  lemma RegisterKeepsValid(s: AuthState, email: string, password: string, groupId: nat, now: int, code: string, ttl: nat)
    requires AuthValid(s)
    ensures AuthValid(RegisterStep(s, email, password, groupId, now, code, ttl).0)
  {
    var o := RegisterStep(s, email, password, groupId, now, code, ttl);
    RegisterKeepsTokenProfiles(s, email, password, groupId, now, code, ttl);
    if o.0 != s {
      var u := UserRow(s.nextUserId, email, Hashed(password), groupId, false);
      AppendDistinctKey(s.users, UserKey, u);
      AppendFreshKey(s.users, UserKey, u, s.nextUserId);
      var us := s.users + [u];
      assert us[|s.users|] == u;
      forall i, j | 0 <= i < |us| && 0 <= j < |us| && us[i].email == us[j].email
        ensures i == j
      {
        if i < |s.users| {
          assert s.users[i] in s.users;
        }
        if j < |s.users| {
          assert s.users[j] in s.users;
        }
      }
    }
  }

  /**
   * Login does not look at activation: a freshly registered, still inactive
   * user logs in with the registered password.
   */
  lemma RegisteredUserLogsInBeforeActivation(s: AuthState, email: string, password: string, groupId: nat, now: int,
                                             code: string, ttl: nat, later: int, accessTtl: nat, refreshTtl: nat)
    requires AuthValid(s)
    requires RegisterStep(s, email, password, groupId, now, code, ttl).1.Ok?
    requires RegisterStep(s, email, password, groupId, now, code, ttl).1.value.Registered?
    requires forall t | t in s.refreshTokens :: t.claims.exp != Some(later + refreshTtl)
    ensures
      var (s', r) := RegisterStep(s, email, password, groupId, now, code, ttl);
      !r.value.user.isActive
      && LoginStep(s', email, password, later, accessTtl, refreshTtl).1.Ok?
      && LoginStep(s', email, password, later, accessTtl, refreshTtl).1.value.LoggedIn?
  {
    var (s', r) := RegisterStep(s, email, password, groupId, now, code, ttl);
    RegisterKeepsValid(s, email, password, groupId, now, code, ttl);
    assert r.value.user == s'.users[|s.users|];
    UserByEmailFinds(s'.users, r.value.user);
  }

  /** The answers of `activate_account`. */
  datatype ActivationAnswer = ActivationTokenNotFound | RedirectToResend(token: string) | AccountActivated

  /** Every row for user `id` made active. */
  function Activated(users: seq<UserRow>, id: nat): (r: seq<UserRow>)
    ensures |r| == |users|
    ensures forall i | 0 <= i < |users| :: r[i] == (if users[i].id == id then users[i].(isActive := true) else users[i])
  {
    MapRows(users, (u: UserRow) => if u.id == id then u.(isActive := true) else u)
  }

  /**
   * `activate_account`: an unknown token is refused, an expired one
   * redirects to the resend page and changes nothing; otherwise the user
   * is activated and the token deleted in one commit.
   */
  function ActivateStep(s: AuthState, token: string, now: int): (o: (AuthState, Result<ActivationAnswer>))
    ensures o.1 == Ok(ActivationTokenNotFound) <==> token !in s.activationTokens
    ensures o.1 == Ok(RedirectToResend(token)) <==> token in s.activationTokens && s.activationTokens[token].expiresAt < now
    ensures o.1.Err? <==>
      token in s.activationTokens && s.activationTokens[token].expiresAt >= now
      && forall u | u in s.users :: u.id != s.activationTokens[token].userId
    ensures !(o.1 == Ok(AccountActivated)) ==> o.0 == s
    ensures o.1 == Ok(AccountActivated) ==>
      && token in s.activationTokens
      && s.activationTokens[token].expiresAt >= now
      && (exists u | u in s.users :: u.id == s.activationTokens[token].userId)
      && o.0 == s.(users := Activated(s.users, s.activationTokens[token].userId),
                   activationTokens := s.activationTokens - {token})
    ensures o.1.Err? ==> o.1.error == InternalError
  {
    if token !in s.activationTokens then (s, Ok(ActivationTokenNotFound))
    else
      var row := s.activationTokens[token];
      if row.expiresAt < now then (s, Ok(RedirectToResend(token)))
      else if UserById(s.users, row.userId).None? then (s, Err(InternalError))
      else (s.(users := Activated(s.users, row.userId), activationTokens := s.activationTokens - {token}),
            Ok(AccountActivated))
  }

  /** After an activation the token's user is active and the token is spent. */
  lemma ActivationConsumesToken(s: AuthState, token: string, now: int, later: int)
    requires ActivateStep(s, token, now).1 == Ok(AccountActivated)
    ensures
      var s' := ActivateStep(s, token, now).0;
      && (forall u | u in s'.users && u.id == s.activationTokens[token].userId :: u.isActive)
      && ActivateStep(s', token, later) == (s', Ok(ActivationTokenNotFound))
  {
    var s' := ActivateStep(s, token, now).0;
    forall u | u in s'.users && u.id == s.activationTokens[token].userId
      ensures u.isActive
    {
      var i :| 0 <= i < |s'.users| && s'.users[i] == u;
      assert s'.users == Activated(s.users, s.activationTokens[token].userId);
    }
  }

  /**
   * Rewriting user rows without touching their id, email or group keeps the
   * user part of the invariant.
   */
  lemma SameAccountsKeepValid(users: seq<UserRow>, users': seq<UserRow>, bound: nat, groups: map<nat, Role>)
    requires |users'| == |users|
    requires forall i | 0 <= i < |users| ::
      users'[i].id == users[i].id && users'[i].email == users[i].email && users'[i].groupId == users[i].groupId
    requires DistinctKeys(users, UserKey) && KeysBelow(users, UserKey, bound) && UniqueEmails(users)
    requires forall u | u in users :: u.groupId in groups
    ensures DistinctKeys(users', UserKey) && KeysBelow(users', UserKey, bound) && UniqueEmails(users')
    ensures forall u | u in users' :: u.groupId in groups
  {
    forall u | u in users' ensures u.groupId in groups {
      var i :| 0 <= i < |users'| && users'[i] == u;
      assert users[i] in users;
    }
  }

  lemma ActivateKeepsValid(s: AuthState, token: string, now: int)
    requires AuthValid(s)
    ensures AuthValid(ActivateStep(s, token, now).0)
  {
    var o := ActivateStep(s, token, now);
    if o.1 == Ok(AccountActivated) {
      var users' := Activated(s.users, s.activationTokens[token].userId);
      SameAccountsKeepValid(s.users, users', s.nextUserId, s.groups);
      assert o.0 == s.(users := users', activationTokens := s.activationTokens - {token});
    }
  }

  /** The answers of `send_new_activation_token`. */
  datatype ResendAnswer = ResendTokenNotFound | EmailMismatch | NewTokenSent(token: string)

  /**
   * `send_new_activation_token`: an unknown token is refused, an email that
   * is not the token owner's is refused with no change; otherwise the old
   * token is deleted and a new one issued in one commit. The old token's
   * expiry is never looked at.
   */
  function ResendActivationStep(s: AuthState, expiredToken: string, email: string, now: int, code: string, ttl: nat)
    : (o: (AuthState, Result<ResendAnswer>))
    ensures o.1 == Ok(ResendTokenNotFound) <==> expiredToken !in s.activationTokens
    ensures !(o.1.Ok? && o.1.value.NewTokenSent?) ==> o.0 == s
    ensures o.1 == Ok(EmailMismatch) ==>
      expiredToken in s.activationTokens
      && exists u | u in s.users :: u.id == s.activationTokens[expiredToken].userId && u.email != email
    ensures DistinctKeys(s.users, UserKey) ==>
      (o.1 == Ok(EmailMismatch) <==>
        expiredToken in s.activationTokens
        && exists u | u in s.users :: u.id == s.activationTokens[expiredToken].userId && u.email != email)
    ensures DistinctKeys(s.users, UserKey) ==>
      (o.1.Err? <==>
        expiredToken in s.activationTokens
        && ((forall u | u in s.users :: u.id != s.activationTokens[expiredToken].userId)
            || (code in s.activationTokens
                && exists u | u in s.users :: u.id == s.activationTokens[expiredToken].userId && u.email == email)))
    ensures o.1.Ok? && o.1.value.NewTokenSent? ==>
      && expiredToken in s.activationTokens
      && o.1.value.token == code
      && code !in s.activationTokens
      && (exists u | u in s.users :: u.id == s.activationTokens[expiredToken].userId && u.email == email)
      && o.0 == s.(activationTokens := (s.activationTokens - {expiredToken})[code := TokenRow(s.activationTokens[expiredToken].userId, now + ttl)])
    ensures o.1.Err? ==> o.1.error == InternalError
    ensures AuthValid(s) && o.1.Ok? && o.1.value.NewTokenSent? ==> HasProfile(s, s.activationTokens[expiredToken].userId)
  {
    if expiredToken !in s.activationTokens then (s, Ok(ResendTokenNotFound))
    else
      var row := s.activationTokens[expiredToken];
      match UserById(s.users, row.userId)
      case None => (s, Err(InternalError))
      case Some(u) =>
        assert DistinctKeys(s.users, UserKey) ==> forall v | v in s.users && v.id == row.userId :: v == u by {
          if DistinctKeys(s.users, UserKey) {
            forall v | v in s.users && v.id == row.userId ensures v == u {
              UserByIdFinds(s.users, v);
            }
          }
        }
        if email != u.email then (s, Ok(EmailMismatch))
        else if code in s.activationTokens then (s, Err(InternalError))
        else (s.(activationTokens := (s.activationTokens - {expiredToken})[code := TokenRow(u.id, now + ttl)]),
              Ok(NewTokenSent(code)))
  }

  /** A resend keeps the number of activation tokens: one deleted, one added. */
  lemma ResendKeepsTokenCount(s: AuthState, expiredToken: string, email: string, now: int, code: string, ttl: nat)
    ensures |ResendActivationStep(s, expiredToken, email, now, code, ttl).0.activationTokens| == |s.activationTokens|
  {
    var o := ResendActivationStep(s, expiredToken, email, now, code, ttl);
    if o.1.Ok? && o.1.value.NewTokenSent? {
      var rest := s.activationTokens - {expiredToken};
      assert rest.Keys == s.activationTokens.Keys - {expiredToken};
      assert o.0.activationTokens.Keys == rest.Keys + {code};
    }
  }

  /** The answers of `logout`. */
  datatype LogoutAnswer = RefreshTokenMissing | LoggedOut

  /**
   * `logout`: `loaded` is the refresh token the session holds for the user;
   * without one the attribute access fails; a token no longer stored is
   * refused; otherwise its row is deleted.
   */
  function LogoutStep(s: AuthState, loaded: Option<Jwt>): (o: (AuthState, Result<LogoutAnswer>))
    ensures loaded.None? <==> o.1 == Err(InternalError)
    ensures o.1 == Ok(RefreshTokenMissing) <==> loaded.Some? && loaded.value !in s.refreshTokens
    ensures o.1 == Ok(LoggedOut) ==> loaded.Some? && o.0 == s.(refreshTokens := s.refreshTokens - {loaded.value})
    ensures o.1 != Ok(LoggedOut) ==> o.0 == s
  {
    if loaded.None? then (s, Err(InternalError))
    else if loaded.value !in s.refreshTokens then (s, Ok(RefreshTokenMissing))
    else (s.(refreshTokens := s.refreshTokens - {loaded.value}), Ok(LoggedOut))
  }

  /** After a logout the token is refused, whatever the clock says; other tokens are kept. */
  lemma LogoutRevokes(s: AuthState, t: Jwt, now: int)
    requires t in s.refreshTokens && t != Garbled("")
    ensures
      var s' := LogoutStep(s, Some(t)).0;
      ValidateRefreshToken(s', Some(t), now) == Err(HttpError(401, RefreshTokenNotStored))
      && forall t' | t' in s.refreshTokens && t' != t :: t' in s'.refreshTokens
  {
  }

  /** `change_password_response` always answers "ok". */
  datatype ResetRequestAnswer = ResetRequested

  /**
   * `change_password_response`: for a known email a reset token is stored;
   * the answer is the same whether or not the email is known. After the
   * commit the reply reads the full name on the user's profile, so a user
   * without a profile gets an internal error with the code already stored.
   */
  function RequestResetStep(s: AuthState, email: string, now: int, code: string, ttl: nat)
    : (o: (AuthState, Result<ResetRequestAnswer>))
    ensures o.1.Ok? ==> o.1.value == ResetRequested
    ensures o.1.Err? ==> o.1.error == InternalError
    ensures (forall u | u in s.users :: u.email != email) ==> o == (s, Ok(ResetRequested))
    ensures UniqueEmails(s.users) ==> forall u | u in s.users && u.email == email ::
      if code in s.resetTokens then o == (s, Err(InternalError))
      else
        && o.0 == s.(resetTokens := s.resetTokens[code := TokenRow(u.id, now + ttl)])
        && (o.1.Ok? <==> HasProfile(s, u.id))
    ensures o.0 != s ==>
      exists u | u in s.users :: u.email == email
        && o.0 == s.(resetTokens := s.resetTokens[code := TokenRow(u.id, now + ttl)])
  {
    match UserByEmail(s.users, email)
    case None => (s, Ok(ResetRequested))
    case Some(u) =>
      assert UniqueEmails(s.users) ==> forall v | v in s.users && v.email == email :: v == u by {
        if UniqueEmails(s.users) {
          forall v | v in s.users && v.email == email ensures v == u {
            UserByEmailFinds(s.users, v);
          }
        }
      }
      if code in s.resetTokens then (s, Err(InternalError))
      else
        var s' := s.(resetTokens := s.resetTokens[code := TokenRow(u.id, now + ttl)]);
        if HasProfile(s, u.id) then (s', Ok(ResetRequested)) else (s', Err(InternalError))
  }

  /** The answers of `change_password`. */
  datatype ChangePasswordAnswer = ResetCodeNotFound | ResetCodeExpired | PasswordChanged

  /** The password hash of every row of user `id` replaced. */
  function WithPassword(users: seq<UserRow>, id: nat, h: Hash): (r: seq<UserRow>)
    ensures |r| == |users|
    ensures forall i | 0 <= i < |users| :: r[i] == (if users[i].id == id then users[i].(hashedPassword := h) else users[i])
  {
    MapRows(users, (u: UserRow) => if u.id == id then u.(hashedPassword := h) else u)
  }

  /**
   * `change_password`: an unknown code is refused, an expired one too;
   * otherwise the user's hash is replaced and this code deleted in one
   * commit. `newPassword` is the body's first password, which the body
   * schema has already checked.
   */
  function ChangePasswordStep(s: AuthState, token: string, newPassword: string, now: int)
    : (o: (AuthState, Result<ChangePasswordAnswer>))
    ensures o.1 == Ok(ResetCodeNotFound) <==> token !in s.resetTokens
    ensures o.1 == Ok(ResetCodeExpired) <==> token in s.resetTokens && s.resetTokens[token].expiresAt < now
    ensures o.1.Err? <==>
      token in s.resetTokens && s.resetTokens[token].expiresAt >= now
      && forall u | u in s.users :: u.id != s.resetTokens[token].userId
    ensures o.1 != Ok(PasswordChanged) ==> o.0 == s
    ensures o.1 == Ok(PasswordChanged) ==>
      && token in s.resetTokens
      && s.resetTokens[token].expiresAt >= now
      && (exists u | u in s.users :: u.id == s.resetTokens[token].userId)
      && o.0 == s.(users := WithPassword(s.users, s.resetTokens[token].userId, Hashed(newPassword)),
                   resetTokens := s.resetTokens - {token})
    ensures o.1.Err? ==> o.1.error == InternalError
  {
    if token !in s.resetTokens then (s, Ok(ResetCodeNotFound))
    else
      var row := s.resetTokens[token];
      if row.expiresAt < now then (s, Ok(ResetCodeExpired))
      else if UserById(s.users, row.userId).None? then (s, Err(InternalError))
      else (s.(users := WithPassword(s.users, row.userId, Hashed(newPassword)), resetTokens := s.resetTokens - {token}),
            Ok(PasswordChanged))
  }

  lemma ChangePasswordKeepsValid(s: AuthState, token: string, newPassword: string, now: int)
    requires AuthValid(s)
    ensures AuthValid(ChangePasswordStep(s, token, newPassword, now).0)
  {
    var o := ChangePasswordStep(s, token, newPassword, now);
    if o.1 == Ok(PasswordChanged) {
      var users' := WithPassword(s.users, s.resetTokens[token].userId, Hashed(newPassword));
      SameAccountsKeepValid(s.users, users', s.nextUserId, s.groups);
      assert o.0 == s.(users := users', resetTokens := s.resetTokens - {token});
    }
  }

  /** With distinct emails, a stored user's login is refused for exactly the passwords that do not match its hash. */
  lemma LoginChecksStoredHash(s: AuthState, u: UserRow, password: string, now: int, accessTtl: nat, refreshTtl: nat)
    requires UniqueEmails(s.users) && u in s.users
    ensures LoginStep(s, u.email, password, now, accessTtl, refreshTtl).1 == Ok(WrongPassword) <==> u.hashedPassword != Hashed(password)
  {
    UserByEmailFinds(s.users, u);
  }

  /**
   * After a password change the new password logs the user in and an old,
   * different one does not.
   */
  lemma ChangePasswordThenLogin(s: AuthState, token: string, newPassword: string, oldPassword: string, now: int,
                                later: int, accessTtl: nat, refreshTtl: nat)
    requires AuthValid(s)
    requires ChangePasswordStep(s, token, newPassword, now).1 == Ok(PasswordChanged)
    requires oldPassword != newPassword
    ensures
      var s' := ChangePasswordStep(s, token, newPassword, now).0;
      exists u | u in s'.users :: u.id == s.resetTokens[token].userId
        && LoginStep(s', u.email, newPassword, later, accessTtl, refreshTtl).1 != Ok(WrongPassword)
        && LoginStep(s', u.email, oldPassword, later, accessTtl, refreshTtl).1 == Ok(WrongPassword)
  {
    var s' := ChangePasswordStep(s, token, newPassword, now).0;
    var id := s.resetTokens[token].userId;
    ChangePasswordKeepsValid(s, token, newPassword, now);
    var v :| v in s.users && v.id == id;
    var i :| 0 <= i < |s.users| && s.users[i] == v;
    assert s'.users == WithPassword(s.users, id, Hashed(newPassword));
    var u := s'.users[i];
    assert u.id == id && u.hashedPassword == Hashed(newPassword);
    LoginChecksStoredHash(s', u, newPassword, later, accessTtl, refreshTtl);
    LoginChecksStoredHash(s', u, oldPassword, later, accessTtl, refreshTtl);
  }

  /**
   * The code a reset request stores for a known user changes that user's
   * password until it expires, and only reports expiry afterwards, whether
   * or not the request's own reply failed.
   */
  lemma RequestResetThenChange(s: AuthState, u: UserRow, code: string, now: int, ttl: nat,
                               newPassword: string, later: int)
    requires UniqueEmails(s.users) && u in s.users && code !in s.resetTokens
    ensures
      var s' := RequestResetStep(s, u.email, now, code, ttl).0;
      var c := ChangePasswordStep(s', code, newPassword, later);
      && (later <= now + ttl ==>
            c.1 == Ok(PasswordChanged) && c.0.users == WithPassword(s.users, u.id, Hashed(newPassword))
            && c.0.resetTokens == s.resetTokens)
      && (later > now + ttl ==> c.1 == Ok(ResetCodeExpired))
  {
    var s' := RequestResetStep(s, u.email, now, code, ttl).0;
    assert s' == s.(resetTokens := s.resetTokens[code := TokenRow(u.id, now + ttl)]);
    assert s'.resetTokens - {code} == s.resetTokens;
  }

  /** A password change spends its code, while the user's other reset codes stay usable. */
  lemma ChangePasswordSpendsOnlyItsCode(s: AuthState, token: string, newPassword: string, now: int, later: int)
    requires ChangePasswordStep(s, token, newPassword, now).1 == Ok(PasswordChanged)
    ensures
      var s' := ChangePasswordStep(s, token, newPassword, now).0;
      ChangePasswordStep(s', token, newPassword, later).1 == Ok(ResetCodeNotFound)
      && forall t | t in s.resetTokens && t != token :: t in s'.resetTokens && s'.resetTokens[t] == s.resetTokens[t]
  {
  }

  /** The account tables, updated in place by the operations below. */
  class Accounts {
    var users: seq<UserRow>
    var nextUserId: nat
    var groups: map<nat, Role>
    var profiles: map<nat, nat>
    var nextProfileId: nat
    var activationTokens: map<string, TokenRow>
    var resetTokens: map<string, TokenRow>
    var refreshTokens: map<Jwt, TokenRow>

    function State(): AuthState
      reads this
    {
      AuthState(users, nextUserId, groups, profiles, nextProfileId, activationTokens, resetTokens, refreshTokens)
    }

    predicate Valid()
      reads this
    {
      AuthValid(State())
    }

    /** No users and no tokens; the groups are given. */
    constructor (groups: map<nat, Role>)
      ensures State() == AuthState([], 1, groups, map[], 1, map[], map[], map[])
      ensures Valid()
    {
      this.users := [];
      this.nextUserId := 1;
      this.groups := groups;
      this.profiles := map[];
      this.nextProfileId := 1;
      this.activationTokens := map[];
      this.resetTokens := map[];
      this.refreshTokens := map[];
    }
  }

  method Login(acc: Accounts, email: string, password: string, now: int, accessTtl: nat, refreshTtl: nat)
    returns (r: Result<LoginAnswer>)
    modifies acc`refreshTokens
    ensures (acc.State(), r) == LoginStep(old(acc.State()), email, password, now, accessTtl, refreshTtl)
    ensures old(acc.Valid()) ==> acc.Valid()
  {
    if acc.Valid() {
      LoginKeepsValid(acc.State(), email, password, now, accessTtl, refreshTtl);
    }
    var u := UserByEmail(acc.users, email);
    if u.None? {
      return Ok(LoginUserNotFound);
    }
    if !VerifyPassword(password, u.value.hashedPassword) {
      return Ok(WrongPassword);
    }
    if u.value.groupId !in acc.groups {
      return Err(InternalError);
    }
    var role := RoleName(acc.groups[u.value.groupId]);
    var access := CreateToken("access", u.value.email, role, now, accessTtl);
    var refresh := CreateToken("refresh", u.value.email, role, now, refreshTtl);
    if refresh in acc.refreshTokens {
      return Err(InternalError);
    }
    acc.refreshTokens := acc.refreshTokens[refresh := TokenRow(u.value.id, now + refreshTtl)];
    r := Ok(LoggedIn(access, refresh, now + refreshTtl));
  }

  method Register(acc: Accounts, email: string, password: string, groupId: nat, now: int, code: string, ttl: nat)
    returns (r: Result<RegisterAnswer>)
    modifies acc`users, acc`nextUserId, acc`profiles, acc`nextProfileId, acc`activationTokens
    ensures (acc.State(), r) == RegisterStep(old(acc.State()), email, password, groupId, now, code, ttl)
    ensures old(acc.Valid()) ==> acc.Valid()
  {
    ghost var s := acc.State();
    if UserByEmail(acc.users, email).Some? {
      r := Ok(EmailTaken);
    } else if groupId !in acc.groups {
      r := Ok(GroupNotFound);
    } else {
      var u := UserRow(acc.nextUserId, email, Hashed(password), groupId, false);
      acc.users := acc.users + [u];
      acc.nextUserId := acc.nextUserId + 1;
      if code in acc.activationTokens {
        r := Err(InternalError);
      } else {
        acc.profiles := acc.profiles[acc.nextProfileId := u.id];
        acc.nextProfileId := acc.nextProfileId + 1;
        acc.activationTokens := acc.activationTokens[code := TokenRow(u.id, now + ttl)];
        r := Ok(Registered(u));
      }
    }
    assert (acc.State(), r) == RegisterStep(s, email, password, groupId, now, code, ttl);
    if AuthValid(s) {
      RegisterKeepsValid(s, email, password, groupId, now, code, ttl);
    }
  }

  method ActivateAccount(acc: Accounts, token: string, now: int) returns (r: Result<ActivationAnswer>)
    modifies acc`users, acc`activationTokens
    ensures (acc.State(), r) == ActivateStep(old(acc.State()), token, now)
    ensures old(acc.Valid()) ==> acc.Valid()
  {
    if acc.Valid() {
      ActivateKeepsValid(acc.State(), token, now);
    }
    if token !in acc.activationTokens {
      return Ok(ActivationTokenNotFound);
    }
    var row := acc.activationTokens[token];
    if row.expiresAt < now {
      return Ok(RedirectToResend(token));
    }
    if UserById(acc.users, row.userId).None? {
      return Err(InternalError);
    }
    acc.users := Activated(acc.users, row.userId);
    acc.activationTokens := acc.activationTokens - {token};
    r := Ok(AccountActivated);
  }

  method SendNewActivationToken(acc: Accounts, expiredToken: string, email: string, now: int, code: string, ttl: nat)
    returns (r: Result<ResendAnswer>)
    modifies acc`activationTokens
    ensures (acc.State(), r) == ResendActivationStep(old(acc.State()), expiredToken, email, now, code, ttl)
    ensures old(acc.Valid()) ==> acc.Valid()
  {
    if expiredToken !in acc.activationTokens {
      return Ok(ResendTokenNotFound);
    }
    var row := acc.activationTokens[expiredToken];
    var u := UserById(acc.users, row.userId);
    if u.None? {
      return Err(InternalError);
    }
    if email != u.value.email {
      return Ok(EmailMismatch);
    }
    if code in acc.activationTokens {
      return Err(InternalError);
    }
    acc.activationTokens := (acc.activationTokens - {expiredToken})[code := TokenRow(u.value.id, now + ttl)];
    r := Ok(NewTokenSent(code));
  }

  method Logout(acc: Accounts, loaded: Option<Jwt>) returns (r: Result<LogoutAnswer>)
    modifies acc`refreshTokens
    ensures (acc.State(), r) == LogoutStep(old(acc.State()), loaded)
    ensures old(acc.Valid()) ==> acc.Valid()
  {
    if loaded.None? {
      return Err(InternalError);
    }
    if loaded.value !in acc.refreshTokens {
      return Ok(RefreshTokenMissing);
    }
    acc.refreshTokens := acc.refreshTokens - {loaded.value};
    r := Ok(LoggedOut);
  }

  method RequestPasswordReset(acc: Accounts, email: string, now: int, code: string, ttl: nat)
    returns (r: Result<ResetRequestAnswer>)
    modifies acc`resetTokens
    ensures (acc.State(), r) == RequestResetStep(old(acc.State()), email, now, code, ttl)
    ensures old(acc.Valid()) ==> acc.Valid()
  {
    var u := UserByEmail(acc.users, email);
    if u.None? {
      return Ok(ResetRequested);
    }
    if code in acc.resetTokens {
      return Err(InternalError);
    }
    acc.resetTokens := acc.resetTokens[code := TokenRow(u.value.id, now + ttl)];
    if exists p | p in acc.profiles :: acc.profiles[p] == u.value.id {
      r := Ok(ResetRequested);
    } else {
      // the committed reply reads the name on a profile the user lacks
      r := Err(InternalError);
    }
  }

  method ChangePassword(acc: Accounts, token: string, newPassword: string, now: int)
    returns (r: Result<ChangePasswordAnswer>)
    modifies acc`users, acc`resetTokens
    ensures (acc.State(), r) == ChangePasswordStep(old(acc.State()), token, newPassword, now)
    ensures old(acc.Valid()) ==> acc.Valid()
  {
    if acc.Valid() {
      ChangePasswordKeepsValid(acc.State(), token, newPassword, now);
    }
    if token !in acc.resetTokens {
      return Ok(ResetCodeNotFound);
    }
    var row := acc.resetTokens[token];
    if row.expiresAt < now {
      return Ok(ResetCodeExpired);
    }
    if UserById(acc.users, row.userId).None? {
      return Err(InternalError);
    }
    acc.users := WithPassword(acc.users, row.userId, Hashed(newPassword));
    acc.resetTokens := acc.resetTokens - {token};
    r := Ok(PasswordChanged);
  }
}
