/** A symbolic stand-in for the bcrypt-based password service. */
module Passwords {
  import opened Wrappers

  /** The `bcryptSaltOrRound` security setting. */
  const BcryptRounds: nat := 10

  /** A bcrypt hash: a salted one-way image of the password, kept symbolic. */
  datatype PasswordHash = Bcrypt(salt: nat, rounds: nat, preimage: string)

  /** `hashPassword`, with its random salt as a parameter. */
  function HashPassword(password: string, salt: nat): (h: PasswordHash)
    ensures h.rounds == BcryptRounds
    ensures ValidatePassword(password, Some(h))
  {
    Bcrypt(salt, BcryptRounds, password)
  }

  /** `validatePassword`; a user without a stored hash never validates. */
  predicate ValidatePassword(password: string, stored: Option<PasswordHash>): (ok: bool)
    ensures stored.None? ==> !ok
  {
    stored.Some? && stored.value.preimage == password
  }
}
