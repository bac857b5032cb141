/** Properties of the authentication transitions, alone and in sequence. */
module AuthLemmas {
  import opened Wrappers
  import opened Text
  import opened Otp
  import opened Passwords
  import opened Jwt
  import opened Auth

  /** Rows other than `id` are identical in the two stores. */
  ghost predicate OthersUnchanged(before: Store, after: Store, id: UserId) {
    forall other :: other in before.users && other != id ==> other in after.users && after.users[other] == before.users[other]
  }

  /** Under the invariant each row is the one found by its e-mail and by its Google id. */
  lemma ValidLookupsUnique(st: Store)
    requires Valid(st)
    ensures forall id :: id in st.users ==> FindByEmail(st.users, st.users[id].email) == Some(id)
    ensures forall id :: id in st.users && st.users[id].googleId.Some? ==>
      FindByGoogleId(st.users, st.users[id].googleId.value) == Some(id)
  {
    forall id | id in st.users {
      FindByEmailUnique(st, st.users[id].email, id);
    }
  }

  // ---------------------------------------------------------------------------
  // Signup and login

  /** A signup either fails with Conflict on a taken lower-cased e-mail, or adds exactly one row. */
  lemma SignupOutcome(st: Store, input: SignupInput, salt: nat, now: int)
    requires Valid(st)
    ensures var r := Signup(st, input, salt, now);
      && (r.result == Err(Conflict) <==> EmailTaken(st.users, Lower(input.email)))
      && (r.result.Err? ==> r.store == st)
      && (r.result.Ok? ==>
            && r.result.value == GenerateTokens(st.nextId, now)
            && r.store.users.Keys == st.users.Keys + {st.nextId}
            && OthersUnchanged(st, r.store, st.nextId)
            && var u := r.store.users[st.nextId];
               u.email == Lower(input.email) && u.role == USER && u.googleId.None? && u.otpHash.None? &&
               u.password == Some(HashPassword(input.password, salt)) &&
               ValidatePassword(input.password, u.password))
  {
  }

  /** `login` cannot change the store, and ends in NotFound, BadRequest or tokens for the row found. */
  lemma LoginOutcome(st: Store, email: string, password: string, now: int)
    requires Valid(st)
    ensures var r := Login(st, email, password, now);
      && (r == Err(NotFound) <==> !EmailTaken(st.users, Lower(email)))
      && (forall id :: id in st.users && st.users[id].email == Lower(email) ==>
            r == if ValidatePassword(password, st.users[id].password) then Ok(GenerateTokens(id, now)) else Err(BadRequest))
  {
    forall id | id in st.users && st.users[id].email == Lower(email) {
      FindByEmailUnique(st, Lower(email), id);
    }
  }

  /** After a successful signup, logging in with any casing of the e-mail and the same password returns the new user's tokens. */
  lemma SignupThenLogin(st: Store, input: SignupInput, salt: nat, now: int, email: string, later: int)
    requires Valid(st)
    requires Signup(st, input, salt, now).result.Ok?
    requires Lower(email) == Lower(input.email)
    ensures Login(Signup(st, input, salt, now).store, email, input.password, later) == Ok(GenerateTokens(st.nextId, later))
  {
    var st1 := Signup(st, input, salt, now).store;
    SignupOutcome(st, input, salt, now);
    FindByEmailUnique(st1, Lower(email), st.nextId);
  }

  /** A second signup for the same lower-cased e-mail fails with Conflict and changes nothing. */
  lemma SignupTwiceConflicts(st: Store, first: SignupInput, second: SignupInput, salt1: nat, salt2: nat, now1: int, now2: int)
    requires Valid(st)
    requires Signup(st, first, salt1, now1).result.Ok?
    requires Lower(second.email) == Lower(first.email)
    ensures var st1 := Signup(st, first, salt1, now1).store;
      Signup(st1, second, salt2, now2) == Step(st1, Err(Conflict))
  {
    SignupOutcome(st, first, salt1, now1);
    var st1 := Signup(st, first, salt1, now1).store;
    assert st1.users[st.nextId].email == Lower(second.email);
  }

  // ---------------------------------------------------------------------------
  // Google login

  /** The resolution order of `validateGoogleUser`: Google id, then the unnormalised e-mail, then a new row. */
  lemma GoogleLoginOrder(st: Store, profile: GoogleProfile, now: int)
    requires Valid(st)
    ensures var r := GoogleLoginAsWritten(st, profile, now);
      && (forall id :: id in st.users && st.users[id].googleId == Some(profile.googleId) ==>
            r == Step(st, Ok(GoogleLogin(st.users[id], GenerateTokens(id, now)))))
      && ((forall id :: id in st.users ==> st.users[id].googleId != Some(profile.googleId)) ==>
            forall id :: id in st.users && st.users[id].email == profile.email ==>
              && r.result == Ok(GoogleLogin(st.users[id].(googleId := Some(profile.googleId)), GenerateTokens(id, now)))
              && r.store == st.(users := st.users[id := st.users[id].(googleId := Some(profile.googleId))]))
      && ((forall id :: id in st.users ==> st.users[id].googleId != Some(profile.googleId)) &&
          !EmailTaken(st.users, profile.email) && !EmailTaken(st.users, Lower(profile.email)) ==>
            && r.result.Ok? && r.result.value.user.id == st.nextId
            && r.result.value.user.email == Lower(profile.email) && r.result.value.user.role == USER
            && r.store.users.Keys == st.users.Keys + {st.nextId} && OthersUnchanged(st, r.store, st.nextId))
  {
    forall id | id in st.users && st.users[id].googleId == Some(profile.googleId)
      ensures GoogleLoginAsWritten(st, profile, now) == Step(st, Ok(GoogleLogin(st.users[id], GenerateTokens(id, now))))
    {
      var found := FindByGoogleId(st.users, profile.googleId);
      assert found == Some(id);
    }
    forall id | id in st.users && st.users[id].email == profile.email {
      FindByEmailUnique(st, profile.email, id);
    }
  }

  /**
   * As written, a Google e-mail with an upper-case letter is never linked to the
   * existing lower-case account: the create hits the unique e-mail constraint.
   */
  lemma GoogleUppercaseEmailNotLinked(st: Store, profile: GoogleProfile, now: int)
    requires Valid(st)
    requires forall id :: id in st.users ==> st.users[id].googleId != Some(profile.googleId)
    requires !IsLower(profile.email)
    requires EmailTaken(st.users, Lower(profile.email))
    ensures GoogleLoginAsWritten(st, profile, now) == Step(st, Err(UniqueViolation))
  {
    assert !EmailTaken(st.users, profile.email);
  }

  /** A concrete store and profile on which the as-written lookup fails. */
  lemma GoogleUppercaseEmailExample()
    ensures var st := Store(map[0 := User(0, "ann@x.io", None, None, None, None, None, None, USER)], 1);
      var profile := GoogleProfile("g-1", "Ann@x.io", "Ann", "Lee");
      Valid(st) && GoogleLoginAsWritten(st, profile, 0) == Step(st, Err(UniqueViolation))
  {
    var st := Store(map[0 := User(0, "ann@x.io", None, None, None, None, None, None, USER)], 1);
    var profile := GoogleProfile("g-1", "Ann@x.io", "Ann", "Lee");
    ExampleStoreValid(st);
    ExampleEmailLowered();
    assert !IsLower(profile.email) by { assert profile.email[0] == 'A'; }
    assert st.users[0].email == Lower(profile.email);
    GoogleUppercaseEmailNotLinked(st, profile, 0);
  }

  lemma ExampleEmailLowered()
    ensures Lower("Ann@x.io") == "ann@x.io"
  {
    var l := Lower("Ann@x.io");
    assert |l| == |"ann@x.io"|;
    forall i | 0 <= i < |l| ensures l[i] == "ann@x.io"[i] {
      assert l[i] == LowerChar("Ann@x.io"[i]);
    }
  }

  lemma ExampleStoreValid(st: Store)
    requires st == Store(map[0 := User(0, "ann@x.io", None, None, None, None, None, None, USER)], 1)
    ensures Valid(st)
  {
    assert st.users.Keys == {0};
    assert IsLower("ann@x.io");
  }

  /** With the lookup lower-cased, the same situation links the Google id to the existing account. */
  lemma GoogleNormalizedLinksExisting(st: Store, profile: GoogleProfile, now: int, id: UserId)
    requires Valid(st)
    requires forall other :: other in st.users ==> st.users[other].googleId != Some(profile.googleId)
    requires id in st.users && st.users[id].email == Lower(profile.email)
    ensures var r := GoogleLoginNormalized(st, profile, now);
      && r.result == Ok(GoogleLogin(st.users[id].(googleId := Some(profile.googleId)), GenerateTokens(id, now)))
      && r.store == st.(users := st.users[id := st.users[id].(googleId := Some(profile.googleId))])
  {
    FindByEmailUnique(st, Lower(profile.email), id);
  }

  // ---------------------------------------------------------------------------
  // Passwordless login

  /**
   * After a passwordless request exactly one row carries the lower-cased e-mail
   * (created if absent), it holds the digest of the new code and its expiry, and
   * no other row changed; the mail goes to the e-mail as typed.
   */
  lemma RequestPasswordlessEffect(st: Store, email: string, otp: string, now: int)
    requires Valid(st)
    ensures var r := RequestPasswordless(st, email, otp, now);
      var id := r.mail.magicLinkToken.userId;
      && r.mail.magicLinkToken.Signed? && r.mail.to == email && r.mail.otp == otp
      && id in r.store.users
      && (forall other :: other in r.store.users && r.store.users[other].email == Lower(email) ==> other == id)
      && r.store.users[id].email == Lower(email)
      && r.store.users[id].otpHash == Some(HashOtp(otp))
      && r.store.users[id].otpExpiresAt == Some(now + OtpTtl)
      && OthersUnchanged(st, r.store, id)
      && (EmailTaken(st.users, Lower(email)) <==> id in st.users)
      && (id in st.users ==>
            && r.store.users.Keys == st.users.Keys
            && r.store.users[id] == st.users[id].(otpHash := Some(HashOtp(otp)), otpExpiresAt := Some(now + OtpTtl)))
      && (id !in st.users ==>
            && id == st.nextId && r.store.users.Keys == st.users.Keys + {id}
            && r.store.users[id].role == USER && r.store.users[id].password.None?)
  {
    var r := RequestPasswordless(st, email, otp, now);
    var id := r.mail.magicLinkToken.userId;
    if id in st.users {
      assert EmailTaken(st.users, Lower(email));
      assert FindOrCreateByEmail(st, Lower(email)).store == st;
    }
  }

  /** Right after a request, the mailed code verifies up to and including the expiry instant, for any casing of the e-mail. */
  lemma RequestThenVerifyOtp(st: Store, email: string, otp: string, now: int, email2: string, later: int)
    requires Valid(st)
    requires Lower(email2) == Lower(email)
    requires later <= now + OtpTtl
    ensures var r := RequestPasswordless(st, email, otp, now);
      var id := r.mail.magicLinkToken.userId;
      var v := VerifyOtp(r.store, email2, otp, later);
      && v.result == Ok(GenerateTokens(id, later))
      && v.store.users[id].otpHash.None? && v.store.users[id].otpExpiresAt.None?
      && OthersUnchanged(r.store, v.store, id)
  {
    var r := RequestPasswordless(st, email, otp, now);
    var id := r.mail.magicLinkToken.userId;
    var u := r.store.users[id];
    assert u.otpHash == Some(HashOtp(otp)) && u.otpExpiresAt == Some(now + OtpTtl);
    VerifyOtpOutcome(r.store, email2, otp, later);
    assert VerifyOtp(r.store, email2, otp, later) ==
      Step(r.store.(users := r.store.users[id := u.(otpHash := None, otpExpiresAt := None)]), Ok(GenerateTokens(id, later)));
  }

  /** A code other than the mailed one is Unauthorized; after the expiry every code is BadRequest. Neither changes the store. */
  lemma RequestThenVerifyFails(st: Store, email: string, otp: string, now: int, guess: string, later: int)
    requires Valid(st)
    ensures var r := RequestPasswordless(st, email, otp, now);
      var v := VerifyOtp(r.store, email, guess, later);
      && (later > now + OtpTtl ==> v == Step(r.store, Err(BadRequest)))
      && (later <= now + OtpTtl && guess != otp ==> v == Step(r.store, Err(Unauthorized)))
  {
    var r := RequestPasswordless(st, email, otp, now);
    var id := r.mail.magicLinkToken.userId;
    assert r.store.users[id].otpHash == Some(HashOtp(otp)) && r.store.users[id].otpExpiresAt == Some(now + OtpTtl);
    VerifyOtpOutcome(r.store, email, guess, later);
  }

  /**
   * `verifyOTP` on any table: NotFound when no row has the lower-cased e-mail;
   * otherwise BadRequest for a missing field or a passed expiry, then Unauthorized
   * for a wrong code, each with the store unchanged; otherwise both OTP fields of
   * that row are cleared and its tokens are returned.
   */
  lemma VerifyOtpOutcome(st: Store, email: string, otp: string, now: int)
    requires Valid(st)
    ensures var r := VerifyOtp(st, email, otp, now);
      && (r.result == Err(NotFound) <==> !EmailTaken(st.users, Lower(email)))
      && (!EmailTaken(st.users, Lower(email)) ==> r.store == st)
      && (forall id :: id in st.users && st.users[id].email == Lower(email) ==>
            var u := st.users[id];
            r == if u.otpHash.None? || u.otpExpiresAt.None? || now > u.otpExpiresAt.value then Step(st, Err(BadRequest))
                 else if HashOtp(otp) != u.otpHash.value then Step(st, Err(Unauthorized))
                 else Step(st.(users := st.users[id := u.(otpHash := None, otpExpiresAt := None)]), Ok(GenerateTokens(id, now))))
  {
    forall id | id in st.users && st.users[id].email == Lower(email) {
      FindByEmailUnique(st, Lower(email), id);
    }
  }

  /** A code is single use: once verified, any further verification for that e-mail is BadRequest. */
  lemma VerifyOtpSingleUse(st: Store, email: string, otp: string, now: int, otp2: string, later: int)
    requires Valid(st)
    requires VerifyOtp(st, email, otp, now).result.Ok?
    ensures var st1 := VerifyOtp(st, email, otp, now).store;
      VerifyOtp(st1, email, otp2, later) == Step(st1, Err(BadRequest))
  {
    var id := FindByEmail(st.users, Lower(email)).value;
    var st1 := VerifyOtp(st, email, otp, now).store;
    FindByEmailUnique(st1, Lower(email), id);
  }

  /** A second request supersedes the first: the earlier code (when different) no longer verifies. */
  lemma SecondRequestInvalidatesFirst(st: Store, email: string, first: int, second: int, now1: int, now2: int, later: int)
    requires Valid(st)
    requires OtpMin <= first < OtpMaxExclusive && OtpMin <= second < OtpMaxExclusive && first != second
    requires later <= now2 + OtpTtl
    ensures var st1 := RequestPasswordless(st, email, GenerateOtp(first), now1).store;
      var st2 := RequestPasswordless(st1, email, GenerateOtp(second), now2).store;
      VerifyOtp(st2, email, GenerateOtp(first), later) == Step(st2, Err(Unauthorized))
  {
    GenerateOtpInjective(first, second);
    var st1 := RequestPasswordless(st, email, GenerateOtp(first), now1).store;
    RequestThenVerifyFails(st1, email, GenerateOtp(second), now2, GenerateOtp(first), later);
  }

  /** The mailed magic link logs the user in until it expires, and it is not consumed by use. */
  lemma MagicLinkFromMail(st: Store, email: string, otp: string, now: int, later: int)
    requires Valid(st)
    ensures var r := RequestPasswordless(st, email, otp, now);
      var id := r.mail.magicLinkToken.userId;
      && VerifyMagicLink(r.store, r.mail.magicLinkToken, later) ==
           (if later < now + MagicLinkTtl then Ok(GenerateTokens(id, later)) else Err(BadRequest))
      && VerifyMagicLink(VerifyOtp(r.store, email, otp, later).store, r.mail.magicLinkToken, later) ==
           VerifyMagicLink(r.store, r.mail.magicLinkToken, later)
  {
    RequestPasswordlessEffect(st, email, otp, now);
  }

  // ---------------------------------------------------------------------------
  // Tokens

  /** A refresh token from `generateTokens` yields a fresh pair for the same user until it expires; an access token never does. */
  lemma RefreshRoundTrip(userId: UserId, issued: int, now: int)
    ensures var pair := GenerateTokens(userId, issued);
      && RefreshToken(pair.refreshToken, now) ==
           (if now < issued + RefreshTtl then Ok(GenerateTokens(userId, now)) else Err(Unauthorized))
      && RefreshToken(pair.accessToken, now) == Err(Unauthorized)
  {
  }

  /** A magic-link token cannot be used as a refresh or access token, nor the other way round. */
  lemma TokenClassesSeparated(st: Store, userId: UserId, issued: int, now: int)
    ensures var link := Sign(userId, MagicLinkSecret, issued, MagicLinkTtl);
      var pair := GenerateTokens(userId, issued);
      && RefreshToken(link, now) == Err(Unauthorized)
      && GetUserFromToken(st, link, now) == Err(Unauthorized)
      && VerifyMagicLink(st, pair.accessToken, now) == Err(BadRequest)
      && VerifyMagicLink(st, pair.refreshToken, now) == Err(BadRequest)
  {
  }
}
