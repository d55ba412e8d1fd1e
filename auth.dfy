/** The account and refresh-token state machine of the auth controller
    (controllers/authController.js). The Firestore collections `users` and
    `refreshTokens` become two maps owned by an `AuthService` object; each
    request handler is a method that answers with a `Result` whose error
    carries the HTTP status and message the handler sends. */
module Auth {
  import opened Common
  import opened Tokens

  /** The refusals the handlers send, in the order they appear in the source. */
  datatype AuthError =
    | UserExists            // register: 400
    | InvalidCredentials    // login: 401, for an unknown email and for a wrong password alike
    | UserNotFound          // verifyToken: 404
    | RefreshTokenRequired  // refreshToken: 401
    | InvalidTokenType      // refreshToken: 401
    | InvalidRefreshToken   // refreshToken: 401, also what the catch block sends
    | InternalError         // any handler's catch block: 500

  function Status(e: AuthError): nat
  {
    match e
    case UserExists => 400
    case UserNotFound => 404
    case InternalError => 500
    case _ => 401
  }

  function ErrorMessage(e: AuthError): string
  {
    match e
    case UserExists => "User already exists with this email"
    case InvalidCredentials => "Invalid email or password"
    case UserNotFound => "User not found"
    case RefreshTokenRequired => "Refresh token required"
    case InvalidTokenType => "Invalid token type"
    case InvalidRefreshToken => "Invalid refresh token"
    case InternalError => "Internal server error"
  }

  /** A document of the `users` collection as `register` writes it. */
  datatype Account = Account(
    name: string,
    email: string,
    password: PasswordHash,
    phoneNumber: Option<string>,
    age: int,
    location: string,
    bio: string,
    photos: seq<string>,
    interests: seq<string>,
    gender: string,
    lookingFor: string,
    isVerified: bool,
    isOnline: bool,
    createdAt: Time,
    updatedAt: Time,
    lastLogin: Option<Time>,
    lastSeen: Option<Time>)

  /** `{ id: userId, ...userWithoutPassword }`: an account as `login` and
      `verifyToken` return it. The type has no password field at all. */
  datatype UserView = UserView(
    id: UserId,
    name: string,
    email: string,
    phoneNumber: Option<string>,
    age: int,
    location: string,
    bio: string,
    photos: seq<string>,
    interests: seq<string>,
    gender: string,
    lookingFor: string,
    isVerified: bool,
    isOnline: bool,
    createdAt: Time,
    updatedAt: Time,
    lastLogin: Option<Time>,
    lastSeen: Option<Time>)

  /** The destructuring `const { password, ...rest } = userData`: the view
      carries the document's id and loses the password and nothing else, so
      putting the stored hash back gives the stored account. */
  function WithoutPassword(id: UserId, a: Account): (v: UserView)
    ensures v.id == id
    ensures WithPassword(v, a.password) == a
  {
    UserView(id, a.name, a.email, a.phoneNumber, a.age, a.location, a.bio, a.photos,
             a.interests, a.gender, a.lookingFor, a.isVerified, a.isOnline, a.createdAt,
             a.updatedAt, a.lastLogin, a.lastSeen)
  }

  /** Puts a password hash back into a view (the inverse of WithoutPassword). */
  function WithPassword(v: UserView, h: PasswordHash): Account
  {
    Account(v.name, v.email, h, v.phoneNumber, v.age, v.location, v.bio, v.photos,
            v.interests, v.gender, v.lookingFor, v.isVerified, v.isOnline, v.createdAt,
            v.updatedAt, v.lastLogin, v.lastSeen)
  }

  /** The body `register` reads, after validation. */
  datatype RegisterRequest = RegisterRequest(name: string, email: string, password: string,
                                             phoneNumber: Option<string>)

  /** `phoneNumber || null`: an absent or empty phone number is stored as null. */
  function StoredPhone(p: Option<string>): (r: Option<string>)
    ensures r.Some? <==> p.Some? && p.value != ""
    ensures r.Some? ==> r == p
  {
    if p.Some? && p.value != "" then p else None
  }

  /** The document `register` adds for a new user. */
  function NewAccount(req: RegisterRequest, salt: nat, now: Time): (a: Account)
    ensures !a.isOnline && !a.isVerified
    ensures forall pw: string :: Compare(pw, a.password) <==> BcryptKey(pw) == BcryptKey(req.password)
    ensures a.email == req.email && a.name == req.name
    ensures a.phoneNumber == StoredPhone(req.phoneNumber)
  {
    Account(req.name, req.email, Hash(req.password, salt), StoredPhone(req.phoneNumber),
            0, "", "", [], [], "", "", false, false, now, now, None, None)
  }

  /** The user object of the 201 response of `register`. */
  datatype PublicUser = PublicUser(id: UserId, name: string, email: string,
                                   phoneNumber: Option<string>, isVerified: bool)

  datatype Registration = Registration(user: PublicUser, tokens: TokenPair)

  datatype LoginResult = LoginResult(user: UserView, tokens: TokenPair)

  /** The query `where('email', '==', email)` is not empty. With unique
      emails it holds exactly one document, so `docs[0]` is the account. */
  predicate EmailTaken(users: map<UserId, Account>, email: string)
    ensures !EmailTaken(users, email) ==> forall id :: id in users ==> users[id].email != email
    ensures EmailTaken(users, email) && EmailsUnique(users) ==>
              exists id :: id in users && users[id].email == email
                           && forall other :: other in users && users[other].email == email ==> other == id
  {
    exists id :: id in users && users[id].email == email
  }

  ghost predicate EmailsUnique(users: map<UserId, Account>)
  {
    forall a, b :: a in users && b in users && users[a].email == users[b].email ==> a == b
  }

  /** Every stored token is a refresh token of the user it is stored under. */
  ghost predicate StoredAreRefreshTokens(stored: map<UserId, Jwt>, refreshSecret: string)
  {
    forall u :: u in stored ==> Verify(stored[u], refreshSecret) == Some(Claims(u, RefreshKind))
  }

  /** The checks `refreshToken` makes before it issues new tokens, in the
      order the source makes them; on success, the user the token is for. */
  function CheckRefresh(stored: map<UserId, Jwt>, presented: Option<Jwt>, refreshSecret: string)
    : (r: Result<UserId, AuthError>)
    ensures presented.None? ==> r == Failure(RefreshTokenRequired)
    ensures presented.Some? && Verify(presented.value, refreshSecret).None? ==> r == Failure(InvalidRefreshToken)
    ensures presented.Some? && Verify(presented.value, refreshSecret).Some?
            && Verify(presented.value, refreshSecret).value.kind != RefreshKind
            ==> r == Failure(InvalidTokenType)
    ensures r.Success? ==> presented.Some? && r.value in stored && stored[r.value] == presented.value
                           && Verify(presented.value, refreshSecret) == Some(Claims(r.value, RefreshKind))
    ensures forall u :: u in stored && presented == Some(stored[u])
                        && Verify(stored[u], refreshSecret) == Some(Claims(u, RefreshKind))
                        ==> r == Success(u)
    ensures r.Failure? ==> Status(r.error) == 401
  {
    if presented.None? then Failure(RefreshTokenRequired)
    else
      match Verify(presented.value, refreshSecret)
      case None => Failure(InvalidRefreshToken)
      case Some(claims) =>
        if claims.kind != RefreshKind then Failure(InvalidTokenType)
        else if claims.userId !in stored || stored[claims.userId] != presented.value then
          Failure(InvalidRefreshToken)
        else Success(claims.userId)
  }

  /** An access token is never accepted by `refreshToken`: under distinct
      secrets it does not verify, and under equal ones the type check
      refuses it. */
  lemma AccessTokenCannotRefresh(stored: map<UserId, Jwt>, userId: UserId, secrets: Secrets, now: Time)
    ensures var r := CheckRefresh(stored, Some(GenerateTokens(userId, secrets, now).accessToken), secrets.refresh);
            && (secrets.access != secrets.refresh ==> r == Failure(InvalidRefreshToken))
            && (secrets.access == secrets.refresh ==> r == Failure(InvalidTokenType))
  {
  }

  /** Rotation: once a refresh has replaced the stored token with one issued
      in a later second, the new token is accepted and the old one is not. */
  lemma RotationRejectsReplay(stored: map<UserId, Jwt>, used: Jwt, secrets: Secrets, now: Time)
    requires CheckRefresh(stored, Some(used), secrets.refresh).Success?
    requires now != used.issuedAt
    ensures var u := CheckRefresh(stored, Some(used), secrets.refresh).value;
            var issued := GenerateTokens(u, secrets, now).refreshToken;
            && CheckRefresh(stored[u := issued], Some(used), secrets.refresh) == Failure(InvalidRefreshToken)
            && CheckRefresh(stored[u := issued], Some(issued), secrets.refresh) == Success(u)
  {
    var u := CheckRefresh(stored, Some(used), secrets.refresh).value;
    var issued := GenerateTokens(u, secrets, now).refreshToken;
    assert issued.issuedAt != used.issuedAt;
  }

  /** Rotation within one second does not rotate: the regenerated refresh
      token equals the presented one, so presenting it again still succeeds. */
  lemma SameSecondReplayAccepted(stored: map<UserId, Jwt>, used: Jwt, secrets: Secrets)
    requires CheckRefresh(stored, Some(used), secrets.refresh).Success?
    ensures var u := CheckRefresh(stored, Some(used), secrets.refresh).value;
            var again := GenerateTokens(u, secrets, used.issuedAt).refreshToken;
            again == used && CheckRefresh(stored[u := again], Some(used), secrets.refresh) == Success(u)
  {
  }

  /** Revocation: once a user's entry is deleted, no token for that user is
      accepted. */
  lemma LogoutRevokes(stored: map<UserId, Jwt>, u: UserId, t: Jwt, refreshSecret: string)
    requires t.claims.userId == u
    ensures CheckRefresh(stored - {u}, Some(t), refreshSecret).Failure?
  {
  }

  /** The controller over the `users` and `refreshTokens` collections. */
  class AuthService {
    const secrets: Secrets
    var users: map<UserId, Account>
    var refreshTokens: map<UserId, Jwt>

    ghost predicate Valid()
      reads this
    {
      EmailsUnique(users) && StoredAreRefreshTokens(refreshTokens, secrets.refresh)
    }

    constructor (secrets: Secrets)
      ensures Valid()
      ensures this.secrets == secrets && users == map[] && refreshTokens == map[]
    {
      this.secrets := secrets;
      users := map[];
      refreshTokens := map[];
    }

    /** `register`. `newId` is the id Firestore gives the added document and
        `salt` bcrypt's random salt. */
    method Register(req: RegisterRequest, newId: UserId, salt: nat, now: Time)
      returns (r: Result<Registration, AuthError>)
      requires Valid()
      requires newId !in users
      modifies this
      ensures Valid()
      ensures EmailTaken(old(users), req.email) ==>
                r == Failure(UserExists) && users == old(users) && refreshTokens == old(refreshTokens)
      ensures !EmailTaken(old(users), req.email) ==>
                && r.Success?
                && users == old(users)[newId := NewAccount(req, salt, now)]
                && r.value.tokens == GenerateTokens(newId, secrets, now)
                && refreshTokens == old(refreshTokens)[newId := r.value.tokens.refreshToken]
                && r.value.user == PublicUser(newId, req.name, req.email, req.phoneNumber, false)
    {
      if EmailTaken(users, req.email) {
        return Failure(UserExists);
      }
      users := users[newId := NewAccount(req, salt, now)];
      var tokens := GenerateTokens(newId, secrets, now);
      refreshTokens := refreshTokens[newId := tokens.refreshToken];
      r := Success(Registration(PublicUser(newId, req.name, req.email, req.phoneNumber, false), tokens));
    }

    /** `login`. The user object returned is the document as read before the
        update, so it still shows the previous `isOnline` and `lastLogin`. */
    method Login(email: string, password: string, now: Time) returns (r: Result<LoginResult, AuthError>)
      requires Valid()
      modifies this
      ensures Valid()
      ensures r.Success? <==>
                exists id :: id in old(users) && old(users)[id].email == email
                             && Compare(password, old(users)[id].password)
      ensures r.Failure? ==>
                r.error == InvalidCredentials && users == old(users) && refreshTokens == old(refreshTokens)
      ensures r.Success? ==>
                var id := r.value.user.id;
                && id in old(users) && old(users)[id].email == email
                && users == old(users)[id := old(users)[id].(isOnline := true, lastLogin := Some(now))]
                && r.value.tokens == GenerateTokens(id, secrets, now)
                && refreshTokens == old(refreshTokens)[id := r.value.tokens.refreshToken]
                && r.value.user == WithoutPassword(id, old(users)[id])
    {
      if !EmailTaken(users, email) {
        return Failure(InvalidCredentials);
      }
      var id :| id in users && users[id].email == email;
      var account := users[id];
      if !Compare(password, account.password) {
        return Failure(InvalidCredentials);
      }
      users := users[id := account.(isOnline := true, lastLogin := Some(now))];
      var tokens := GenerateTokens(id, secrets, now);
      refreshTokens := refreshTokens[id := tokens.refreshToken];
      r := Success(LoginResult(WithoutPassword(id, account), tokens));
    }

    /** `verifyToken`, for the user id the authentication middleware decoded. */
    method VerifyToken(userId: UserId) returns (r: Result<UserView, AuthError>)
      ensures userId !in users ==> r == Failure(UserNotFound)
      ensures userId in users ==> r == Success(WithoutPassword(userId, users[userId]))
    {
      if userId !in users {
        return Failure(UserNotFound);
      }
      r := Success(WithoutPassword(userId, users[userId]));
    }

    /** `refreshToken`: on success the stored token is replaced by the new one. */
    method Refresh(presented: Option<Jwt>, now: Time) returns (r: Result<TokenPair, AuthError>)
      requires Valid()
      modifies this
      ensures Valid()
      ensures users == old(users)
      ensures CheckRefresh(old(refreshTokens), presented, secrets.refresh).Failure? ==>
                && r == Failure(CheckRefresh(old(refreshTokens), presented, secrets.refresh).error)
                && refreshTokens == old(refreshTokens)
      ensures CheckRefresh(old(refreshTokens), presented, secrets.refresh).Success? ==>
                var u := CheckRefresh(old(refreshTokens), presented, secrets.refresh).value;
                && r == Success(GenerateTokens(u, secrets, now))
                && refreshTokens == old(refreshTokens)[u := r.value.refreshToken]
    {
      var check := CheckRefresh(refreshTokens, presented, secrets.refresh);
      if check.Failure? {
        return Failure(check.error);
      }
      var tokens := GenerateTokens(check.value, secrets, now);
      refreshTokens := refreshTokens[check.value := tokens.refreshToken];
      r := Success(tokens);
    }

    /** `logout`: the refresh token is deleted first; the status update then
        fails (500) when the user document does not exist. */
    method Logout(userId: UserId, now: Time) returns (r: Result<(), AuthError>)
      requires Valid()
      modifies this
      ensures Valid()
      ensures refreshTokens == old(refreshTokens) - {userId}
      ensures userId in old(users) ==>
                r.Success? && users == old(users)[userId := old(users)[userId].(isOnline := false, lastSeen := Some(now))]
      ensures userId !in old(users) ==> r == Failure(InternalError) && users == old(users)
    {
      refreshTokens := refreshTokens - {userId};
      if userId !in users {
        return Failure(InternalError);
      }
      users := users[userId := users[userId].(isOnline := false, lastSeen := Some(now))];
      r := Success(());
    }
  }
}
