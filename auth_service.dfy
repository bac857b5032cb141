/** The authentication service as an object that updates its user table in place. */
module AuthServiceImpl {
  import opened Wrappers
  import opened Text
  import opened Otp
  import opened Passwords
  import opened Jwt
  import opened Auth

  class AuthService {
    /** The user table, keyed by id, and the id the next insert receives. */
    var users: map<UserId, User>
    var nextId: UserId

    function State(): Store
      reads this
    {
      Store(users, nextId)
    }

    ghost predicate Valid()
      reads this
    {
      Auth.Valid(State())
    }

    constructor ()
      ensures Valid() && users == map[] && nextId == 0
    {
      users := map[];
      nextId := 0;
    }

    /** `prisma.user.findUnique({ where: { email } })`. */
    method FindUniqueByEmail(email: string) returns (r: Option<UserId>)
      requires Valid()
      ensures r == FindByEmail(users, email)
    {
      if exists id :: id in users && users[id].email == email {
        var id :| id in users && users[id].email == email;
        FindByEmailUnique(State(), email, id);
        r := Some(id);
      } else {
        r := None;
      }
    }

    /** `prisma.user.findUnique({ where: { googleId } })`. */
    method FindUniqueByGoogleId(googleId: string) returns (r: Option<UserId>)
      requires Valid()
      ensures r == FindByGoogleId(users, googleId)
    {
      if exists id :: id in users && users[id].googleId == Some(googleId) {
        var id :| id in users && users[id].googleId == Some(googleId);
        assert FindByGoogleId(users, googleId) == Some(id);
        r := Some(id);
      } else {
        r := None;
      }
    }

    /** `createUser`. */
    method CreateUser(input: SignupInput, salt: nat, now: int) returns (r: Result<TokenPair, AuthError>)
      requires Valid()
      modifies this
      ensures Valid()
      ensures Step(State(), r) == Signup(old(State()), input, salt, now)
    {
      var hashedPassword := HashPassword(input.password, salt);
      var email := Lower(input.email);
      if EmailTaken(users, email) {
        r := Err(Conflict);
        return;
      }
      var user := User(nextId, email, input.firstname, input.lastname, Some(hashedPassword), None, None, None, USER);
      users := users[nextId := user];
      nextId := nextId + 1;
      r := Ok(GenerateTokens(user.id, now));
    }

    /** `login`: reads the table and changes nothing. */
    method Login(email: string, password: string, now: int) returns (r: Result<TokenPair, AuthError>)
      requires Valid()
      ensures r == Auth.Login(State(), email, password, now)
      ensures r.Err? ==> r.error in {NotFound, BadRequest}
    {
      var found := FindUniqueByEmail(Lower(email));
      if found.None? {
        r := Err(NotFound);
        return;
      }
      var user := users[found.value];
      var passwordValid := ValidatePassword(password, user.password);
      if !passwordValid {
        r := Err(BadRequest);
        return;
      }
      r := Ok(GenerateTokens(user.id, now));
    }

    /** `validateGoogleUser`, with the unnormalised e-mail lookup of the source. */
    method ValidateGoogleUser(profile: GoogleProfile, now: int) returns (r: Result<GoogleLogin, AuthError>)
      requires Valid()
      modifies this
      ensures Valid()
      ensures Step(State(), r) == GoogleLoginAsWritten(old(State()), profile, now)
    {
      var user: User;
      var byGoogleId := FindUniqueByGoogleId(profile.googleId);
      if byGoogleId.Some? {
        user := users[byGoogleId.value];
      } else {
        var byEmail := FindUniqueByEmail(profile.email);
        if byEmail.Some? {
          user := users[byEmail.value].(googleId := Some(profile.googleId));
          users := users[user.id := user];
        } else {
          var email := Lower(profile.email);
          if EmailTaken(users, email) {
            r := Err(UniqueViolation);
            return;
          }
          user := User(nextId, email, Some(profile.firstname), Some(profile.lastname),
                       None, Some(profile.googleId), None, None, USER);
          users := users[nextId := user];
          nextId := nextId + 1;
        }
      }
      r := Ok(GoogleLogin(user, GenerateTokens(user.id, now)));
    }

    /**
     * `sendMagicLink`. The random code is a nondeterministic choice within the
     * bounds of `crypto.randomInt`; `delivered` is the outcome of the mail call,
     * which happens after the table has been written.
     */
    method SendMagicLink(email: string, now: int, delivered: bool) returns (mail: Mail, r: Result<(), AuthError>)
      requires Valid()
      modifies this
      ensures Valid()
      ensures |mail.otp| == 6 && AllDigits(mail.otp) && OtpMin <= ValueOf(mail.otp) < OtpMaxExclusive
      ensures PasswordlessStep(State(), mail) == RequestPasswordless(old(State()), email, mail.otp, now)
      ensures r == if delivered then Ok(()) else Err(MailFailure)
    {
      var lower := Lower(email);
      LowerIsLower(email);
      ghost var before := State();
      var found := FindUniqueByEmail(lower);
      var id: UserId;
      if found.None? {
        id := nextId;
        users := users[id := User(id, lower, None, None, None, None, None, None, USER)];
        nextId := nextId + 1;
      } else {
        id := found.value;
      }
      assert FindOrCreateByEmail(before, lower) == Located(State(), id);
      var magicLinkToken := Sign(id, MagicLinkSecret, now, MagicLinkTtl);
      assert OtpMin <= OtpMin < OtpMaxExclusive;
      var n :| OtpMin <= n < OtpMaxExclusive;
      var otp := GenerateOtp(n);
      users := users[id := users[id].(otpHash := Some(HashOtp(otp)), otpExpiresAt := Some(now + OtpTtl))];
      mail := Mail(email, magicLinkToken, otp);
      assert PasswordlessStep(State(), mail) == RequestPasswordless(before, email, otp, now);
      r := if delivered then Ok(()) else Err(MailFailure);
    }

    /** `verifyOTP`. */
    method VerifyOtp(email: string, otp: string, now: int) returns (r: Result<TokenPair, AuthError>)
      requires Valid()
      modifies this
      ensures Valid()
      ensures Step(State(), r) == Auth.VerifyOtp(old(State()), email, otp, now)
    {
      var found := FindUniqueByEmail(Lower(email));
      if found.None? {
        r := Err(NotFound);
        return;
      }
      var user := users[found.value];
      if user.otpHash.None? || user.otpExpiresAt.None? || now > user.otpExpiresAt.value {
        r := Err(BadRequest);
        return;
      }
      var isValid := VerifyHashedOtp(otp, user.otpHash.value);
      if !isValid {
        r := Err(Unauthorized);
        return;
      }
      users := users[user.id := user.(otpHash := None, otpExpiresAt := None)];
      r := Ok(GenerateTokens(user.id, now));
    }
  }
}
