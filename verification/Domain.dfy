/** The entities of internal/domain and the constants the use cases fix. */
module Domain {
  import opened Wrappers

  /** UUIDs are modelled as natural numbers; only their equality matters. */
  type Id = nat

  /** Instants and durations in nanoseconds, as time.Time and time.Duration count them. */
  type Time = int

  const SECOND: Time := 1_000_000_000
  const VERIFICATION_CODE_TTL: Time := 600 * SECOND
  const MAX_VERIFICATION_ATTEMPTS: nat := 5
  const VERIFICATION_CODE_LENGTH: nat := 6
  const ROLE_CUSTOMER := "CUSTOMER"
  const ROLE_SELLER := "SELLER"

  datatype User = User(
    id: Id,
    email: string,
    passwordHash: Option<string>,
    name: string,
    roles: seq<string>,
    createdAt: Time,
    updatedAt: Time)

  datatype RefreshToken = RefreshToken(
    id: Id,
    userId: Id,
    tokenHash: string,
    expiresAt: Time,
    revokedAt: Option<Time>,
    createdAt: Time)
  {
    predicate IsValid(now: Time) {
      revokedAt.None? && now < expiresAt
    }
  }

  datatype VerificationCode = VerificationCode(
    id: Id,
    email: string,
    codeHash: string,
    expiresAt: Time,
    consumedAt: Option<Time>,
    attempts: nat,
    createdAt: Time)

  datatype Error =
    | UserNotFound
    | EmailAlreadyExists
    | InvalidCredentials
    | RefreshTokenInvalid
    | InvalidRole
    | CodeInvalid
    | TooManyAttempts
    | OAuthStateInvalid
    | OAuthEmailNotVerified
    | Unavailable // every wrapped infrastructure error: database, signer, mail, Google, random source
}
