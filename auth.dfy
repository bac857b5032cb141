/**
 * The authentication service as pure transitions over the user table.
 * Every operation takes the store and returns the new store with its result;
 * the class in auth_service.dfy performs the same steps in place.
 */
module Auth {
  import opened Wrappers
  import opened Text
  import opened Otp
  import opened Passwords
  import opened Jwt

  datatype Role = USER | ADMIN

  /** A row of the user table. */
  datatype User = User(
    id: UserId,
    email: string,
    firstname: Option<string>,
    lastname: Option<string>,
    password: Option<PasswordHash>,
    googleId: Option<string>,
    otpHash: Option<OtpDigest>,
    otpExpiresAt: Option<int>,
    role: Role)

  /** The user table keyed by id, with the id the next insert receives. */
  datatype Store = Store(users: map<UserId, User>, nextId: UserId)

  /** The exceptions the service raises. `UniqueViolation` is a store error nothing catches. */
  datatype AuthError = Conflict | NotFound | BadRequest | Unauthorized | UniqueViolation | MailFailure

  datatype TokenPair = TokenPair(accessToken: Token, refreshToken: Token)

  /** The new store together with what the operation returned or raised. */
  datatype Step<T> = Step(store: Store, result: Result<T, AuthError>)

  datatype SignupInput = SignupInput(email: string, password: string, firstname: Option<string>, lastname: Option<string>)

  datatype GoogleProfile = GoogleProfile(googleId: string, email: string, firstname: string, lastname: string)

  datatype GoogleLogin = GoogleLogin(user: User, tokens: TokenPair)

  /** The message handed to the mailer: recipient, magic-link token and plaintext code. */
  datatype Mail = Mail(to: string, magicLinkToken: Token, otp: string)

  datatype PasswordlessStep = PasswordlessStep(store: Store, mail: Mail)

  /** How long a one-time code stays usable, in seconds. */
  const OtpTtl: int := 15 * 60

  /** The table invariant: rows are keyed by their id, e-mails are lower-case and unique, Google ids are unique. */
  ghost predicate Valid(st: Store): (ok: bool)
    ensures ok ==> st.nextId !in st.users
  {
    && (forall id :: id in st.users ==> st.users[id].id == id && id < st.nextId && IsLower(st.users[id].email))
    && (forall a, b :: a in st.users && b in st.users && st.users[a].email == st.users[b].email ==> a == b)
    && (forall a, b :: a in st.users && b in st.users && st.users[a].googleId.Some? &&
          st.users[a].googleId == st.users[b].googleId
          ==> a == b)
  }

  /** The unique constraint on `email` would reject a new row with this e-mail. */
  predicate EmailTaken(users: map<UserId, User>, email: string): (b: bool)
    ensures b <==> email in (set id | id in users :: users[id].email)
  {
    exists id :: id in users && users[id].email == email
  }

  /** `findUnique({ where: { email } })`. */
  ghost function FindByEmail(users: map<UserId, User>, email: string): (r: Option<UserId>)
    ensures r.Some? <==> EmailTaken(users, email)
    ensures r.Some? ==> r.value in users && users[r.value].email == email
  {
    if EmailTaken(users, email) then
      var id :| id in users && users[id].email == email; Some(id)
    else None
  }

  /** `findUnique({ where: { googleId } })`. */
  ghost function FindByGoogleId(users: map<UserId, User>, googleId: string): (r: Option<UserId>)
    ensures r.Some? ==> r.value in users && users[r.value].googleId == Some(googleId)
    ensures r.None? ==> forall id :: id in users ==> users[id].googleId != Some(googleId)
  {
    if exists id :: id in users && users[id].googleId == Some(googleId) then
      var id :| id in users && users[id].googleId == Some(googleId); Some(id)
    else None
  }

  /** Under the invariant a lookup by e-mail finds the one row carrying it. */
  lemma FindByEmailUnique(st: Store, email: string, id: UserId)
    requires Valid(st) && id in st.users && st.users[id].email == email
    ensures FindByEmail(st.users, email) == Some(id)
  {
  }

  /** `create`: the row receives the next id. */
  function Insert(st: Store, user: User): (r: Store)
    requires user.id == st.nextId && st.nextId !in st.users
    ensures r.users.Keys == st.users.Keys + {user.id} && r.users[user.id] == user
    ensures forall id :: id in st.users ==> r.users[id] == st.users[id]
  {
    Store(st.users[st.nextId := user], st.nextId + 1)
  }

  /** `generateTokens`: an access and a refresh token for the same user, each under its own secret. */
  function GenerateTokens(userId: UserId, now: int): (p: TokenPair)
    ensures p.accessToken.Signed? && p.refreshToken.Signed?
    ensures p.accessToken.userId == userId && p.refreshToken.userId == userId
    ensures forall t :: Verify(p.accessToken, AccessSecret, t).Ok? <==> t < now + AccessTtl
    ensures forall t :: Verify(p.refreshToken, RefreshSecret, t).Ok? <==> t < now + RefreshTtl
    ensures forall t :: Verify(p.accessToken, RefreshSecret, t).Err? && Verify(p.refreshToken, AccessSecret, t).Err?
  {
    TokenPair(Sign(userId, AccessSecret, now, AccessTtl), Sign(userId, RefreshSecret, now, RefreshTtl))
  }

  /** `refreshToken`: any verification failure is one `Unauthorized`. */
  function RefreshToken(token: Token, now: int): (r: Result<TokenPair, AuthError>)
    ensures r.Ok? <==> token.Signed? && token.secret == RefreshSecret && now < token.expiresAt
    ensures r.Err? ==> r.error == Unauthorized
    ensures r.Ok? ==> token.Signed? && r.value == GenerateTokens(token.userId, now)
  {
    match Verify(token, RefreshSecret, now)
    case Ok(userId) => Ok(GenerateTokens(userId, now))
    case Err(_) => Err(Unauthorized)
  }

  // ---------------------------------------------------------------------------
  // Signup and password login

  /** `createUser`: store the lower-cased e-mail and the password hash, or fail on a taken e-mail. */
  ghost function Signup(st: Store, input: SignupInput, salt: nat, now: int): (r: Step<TokenPair>)
    requires Valid(st)
    ensures Valid(r.store)
    ensures r.result.Err? ==> r.result.error == Conflict && r.store == st
  {
    var email := Lower(input.email);
    if EmailTaken(st.users, email) then Step(st, Err(Conflict))
    else
      var user := User(st.nextId, email, input.firstname, input.lastname,
                       Some(HashPassword(input.password, salt)), None, None, None, USER);
      LowerIsLower(input.email);
      Step(Insert(st, user), Ok(GenerateTokens(user.id, now)))
  }

  /** `login`: look up the lower-cased e-mail, then check the password. The store is not touched. */
  ghost function Login(st: Store, email: string, password: string, now: int): (r: Result<TokenPair, AuthError>)
    requires Valid(st)
    ensures r.Err? ==> r.error in {NotFound, BadRequest}
  {
    match FindByEmail(st.users, Lower(email))
    case None => Err(NotFound)
    case Some(id) =>
      if ValidatePassword(password, st.users[id].password) then Ok(GenerateTokens(id, now))
      else Err(BadRequest)
  }

  // ---------------------------------------------------------------------------
  // Google login

  /**
   * The three-way resolution of `validateGoogleUser`, with the e-mail used for the
   * link lookup as a parameter: the source passes the profile e-mail unchanged.
   */
  ghost function ResolveGoogleUser(st: Store, profile: GoogleProfile, linkEmail: string, now: int): (r: Step<GoogleLogin>)
    requires Valid(st)
    ensures Valid(r.store)
    ensures st.users.Keys <= r.store.users.Keys
    ensures r.result.Ok? ==> r.result.value.user.id in r.store.users && r.store.users[r.result.value.user.id] == r.result.value.user
    ensures r.result.Ok? ==> r.result.value.tokens == GenerateTokens(r.result.value.user.id, now)
    ensures r.result.Ok? ==> r.result.value.user.googleId == Some(profile.googleId)
    ensures r.result.Err? ==> r.result.error == UniqueViolation && r.store == st
  {
    match FindByGoogleId(st.users, profile.googleId)
    case Some(id) =>
      Step(st, Ok(GoogleLogin(st.users[id], GenerateTokens(id, now))))
    case None =>
      match FindByEmail(st.users, linkEmail)
      case Some(id) =>
        var user := st.users[id].(googleId := Some(profile.googleId));
        Step(st.(users := st.users[id := user]), Ok(GoogleLogin(user, GenerateTokens(id, now))))
      case None =>
        var email := Lower(profile.email);
        if EmailTaken(st.users, email) then Step(st, Err(UniqueViolation))
        else
          var user := User(st.nextId, email, Some(profile.firstname), Some(profile.lastname),
                           None, Some(profile.googleId), None, None, USER);
          LowerIsLower(profile.email);
          Step(Insert(st, user), Ok(GoogleLogin(user, GenerateTokens(user.id, now))))
  }

  /** `validateGoogleUser` as written: the e-mail lookup is not lower-cased. */
  ghost function GoogleLoginAsWritten(st: Store, profile: GoogleProfile, now: int): (r: Step<GoogleLogin>)
    requires Valid(st)
    ensures Valid(r.store)
    ensures r.result.Err? ==> r.result.error == UniqueViolation && r.store == st
  {
    ResolveGoogleUser(st, profile, profile.email, now)
  }

  /** `validateGoogleUser` with the e-mail lookup lower-cased like every other lookup: it never fails. */
  ghost function GoogleLoginNormalized(st: Store, profile: GoogleProfile, now: int): (r: Step<GoogleLogin>)
    requires Valid(st)
    ensures Valid(r.store) && r.result.Ok?
  {
    ResolveGoogleUser(st, profile, Lower(profile.email), now)
  }

  // ---------------------------------------------------------------------------
  // Passwordless login

  /** A row located by e-mail, possibly just created. */
  datatype Located = Located(store: Store, id: UserId)

  /** The find-or-create prologue of `sendMagicLink`. */
  ghost function FindOrCreateByEmail(st: Store, email: string): (r: Located)
    requires Valid(st) && IsLower(email)
    ensures r.id in r.store.users && r.store.users[r.id].email == email
    ensures Valid(r.store)
    ensures EmailTaken(st.users, email) ==> r.store == st
    ensures !EmailTaken(st.users, email) ==>
      r.id == st.nextId && r.store == Insert(st, User(st.nextId, email, None, None, None, None, None, None, USER))
  {
    match FindByEmail(st.users, email)
    case Some(id) => Located(st, id)
    case None => Located(Insert(st, User(st.nextId, email, None, None, None, None, None, None, USER)), st.nextId)
  }

  /**
   * `sendMagicLink` up to the mail call: find or create the user, sign a magic-link
   * token, store the digest of `otp` with its expiry, and compose the mail.
   */
  ghost function RequestPasswordless(st: Store, email: string, otp: string, now: int): (r: PasswordlessStep)
    requires Valid(st)
    ensures Valid(r.store)
    ensures r.mail.to == email && r.mail.otp == otp && r.mail.magicLinkToken.Signed?
    ensures var id := r.mail.magicLinkToken.userId;
      && r.mail.magicLinkToken == Sign(id, MagicLinkSecret, now, MagicLinkTtl)
      && id in r.store.users && r.store.users[id].email == Lower(email)
      && r.store.users[id].otpHash == Some(HashOtp(otp)) && r.store.users[id].otpExpiresAt == Some(now + OtpTtl)
      && r.store.users.Keys == st.users.Keys + {id}
      && (forall other :: other in st.users && other != id ==> r.store.users[other] == st.users[other])
      && (EmailTaken(st.users, Lower(email)) <==> id in st.users)
  {
    LowerIsLower(email);
    var loc := FindOrCreateByEmail(st, Lower(email));
    var user := loc.store.users[loc.id].(otpHash := Some(HashOtp(otp)), otpExpiresAt := Some(now + OtpTtl));
    PasswordlessStep(
      loc.store.(users := loc.store.users[loc.id := user]),
      Mail(email, Sign(loc.id, MagicLinkSecret, now, MagicLinkTtl), otp))
  }

  /** `verifyOTP`: NotFound, then BadRequest for a missing or expired code, then Unauthorized for a wrong one. */
  ghost function VerifyOtp(st: Store, email: string, otp: string, now: int): (r: Step<TokenPair>)
    requires Valid(st)
    ensures Valid(r.store)
    ensures r.result.Err? ==> r.store == st
    ensures st.users.Keys == r.store.users.Keys
  {
    match FindByEmail(st.users, Lower(email))
    case None => Step(st, Err(NotFound))
    case Some(id) =>
      var user := st.users[id];
      if user.otpHash.None? || user.otpExpiresAt.None? || now > user.otpExpiresAt.value then
        Step(st, Err(BadRequest))
      else if !VerifyHashedOtp(otp, user.otpHash.value) then
        Step(st, Err(Unauthorized))
      else
        var cleared := user.(otpHash := None, otpExpiresAt := None);
        Step(st.(users := st.users[id := cleared]), Ok(GenerateTokens(id, now)))
  }

  /** `verifyMagicLink`: a bad or expired token and a missing user are one BadRequest. */
  function VerifyMagicLink(st: Store, token: Token, now: int): (r: Result<TokenPair, AuthError>)
    ensures r.Ok? <==> Verify(token, MagicLinkSecret, now).Ok? && token.userId in st.users
    ensures r.Ok? ==> r.value == GenerateTokens(token.userId, now)
    ensures r.Err? ==> r.error == BadRequest
  {
    match Verify(token, MagicLinkSecret, now)
    case Err(_) => Err(BadRequest)
    case Ok(userId) => if userId in st.users then Ok(GenerateTokens(userId, now)) else Err(BadRequest)
  }

  /** `getUserFromToken`: an access token names a user, who may no longer exist. */
  function GetUserFromToken(st: Store, token: Token, now: int): (r: Result<Option<User>, AuthError>)
    ensures r.Err? <==> Verify(token, AccessSecret, now).Err?
    ensures r.Err? ==> r.error == Unauthorized
    ensures r.Ok? ==> (r.value.Some? <==> token.userId in st.users)
    ensures r.Ok? && r.value.Some? ==> r.value.value == st.users[token.userId]
  {
    match Verify(token, AccessSecret, now)
    case Err(_) => Err(Unauthorized)
    case Ok(userId) => if userId in st.users then Ok(Some(st.users[userId])) else Ok(None)
  }
}
