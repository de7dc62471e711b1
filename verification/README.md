# A verified model of the authentication service

This Dafny project models the session, code and account protocol of the service (its use cases over three
PostgreSQL tables) and its codecs (the signed OAuth state, the JSON Web Key set, the time claims of access
tokens), and proves what they keep.

## How it is built

**The tables** (`Tables`) are values; every repository method is one atomic statement on them. The constraints
of the migrations are enforced there: primary keys, UNIQUE email, UNIQUE token hash, the foreign key, column
widths. A statement may fail, and then changes nothing.

**The protocol** (`Protocol`, `System`). No use case opens a transaction, so a request is a program counter with
the snapshot it has read, and `Step` is one statement of one request. `System.Apply` lets a scheduler advance any
request at any time with a clock that never runs backwards; finished requests stay in the state, so a state carries
its own history, together with the rotation lineage of every refresh token. "Reachable" below means: by any
interleaving of any number of requests, with any failures.

**The concurrent results** (`Invariants`, `Reachability`, `Accounts`, `Rotation`, `RotationExact`, `RotationTight`,
`SerialRotation`, `CodeBudget`, `CodeBudgetExact`, `Lifecycles`, `GuessesExact`, `SingleUse`, with `Schedules` for
putting runs together) are invariants of all reachable states and statements about all runs. Four of the
promises the code makes do not hold under concurrency, and the project says exactly what holds instead:

* A refresh token may be replaced several times, because concurrent refreshes can all pass the validity check before
  the first of them revokes. After the first revocation, and at any moment after an unrevoked expiry, a token can still
  get exactly as many successors as there are refreshes holding it live then (`RotationExact.SuccessorsReachableIff`,
  `RotationExact.ExpiredSuccessorsIff`). k overlapping refreshes do reach k successors, from any live token in any
  reachable state and from the empty system (`RotationTight.LiveTokenBranches`, `RotationTight.SuccessorBoundIsTight`),
  so one successor can be relied on exactly when refreshes do not overlap (`RotationTight.ReplacedOnceIff`).
* A logout does not always end a session, contrary to the comment at internal/usecase/logout.go:20-21: from any
  reachable state with a live token there is a run in which the logout is answered with success and refreshes that had
  read the token before it still succeed after it (`RotationTight.LogoutIsOvertaken`). A logout is final exactly when no
  refresh holds the token live at that moment (`RotationExact.LogoutIsFinalIff`).
* A verification code is not single-use: two overlapping right guesses both pass the check, both consume the code and
  both get a pair. After the first consumption exactly as many redemptions can come about, and as many pairs, as there
  are requests that have redeemed the code, are about to, or hold a snapshot that still passes the check together with
  the right code (`GuessesExact.RedemptionsReachableIff`, `SingleUse.PairsReachableIff`). With k verifications in
  flight k pairs are reached (`SingleUse.PairBoundIsTight`), so single use can be relied on exactly when verifications
  do not overlap (`SingleUse.PaidOnceIff`).
* The limit of five attempts becomes 4 + k with k verifications in flight (`CodeBudget.AttemptBound`), that value is
  reached for every k (`CodeBudgetExact.AttemptBoundIsTight`), for any number of codes of one address in a row
  (`CodeBudgetExact.GuessBudgetIsTight`), and the limit of five can be relied on exactly when
  verifications do not overlap (`CodeBudgetExact.LimitKeptIff`). Once a code is closed to newcomers its counter can
  climb by exactly the number of wrong guesses under way (`GuessesExact.AttemptsReachableIff`).

`Instances` gives one configuration in which two overlapping requests break each of the three numerical limits.

**The lifetimes** (`Claims`, `Lifetimes`) are followed over all runs: every answered pair is dated by the instant its
row was created, and `exp - iat` agrees with the reported `expires_in` in every run exactly when the access TTL is a whole
number of seconds (`Lifetimes.LifetimesAgreeIff`).

**The serial level** (`Serial`, `Answers`, `Sessions`, `RoundTrips`, `Bulk`). `Serve` runs one request to its end with
nothing in between, and is a run of the interleaved system (`Serial.ServeIsASerialRun`). `Answers` says for each use
case, branch by branch, what is answered and what is left in the tables: every row and claim with all its fields, every
constant spelt out, and no name of the step-by-step programs. At this level the append-only token table answers exactly
like a map of live sessions, for every sequence of requests.

**The imperative level** (`Store.Database`, `UseCases.Service`). The tables are the fields of a class. Its methods are
the repository methods: updates of the fields, and queries that look a row up or, for the count of `ExistsByEmail`
and the newest code of `FindLatestByEmail`, scan the rows. Each is proved against its statement. The `Handle` methods
are Dafny methods over that class, each proved to answer and to leave the tables as its step-by-step program run alone,
and as the closed form in `Answers` says. So what is proved about the programs holds of the methods.

**The codecs** (`Base64Url`, `UrlLetters`, `Utf8`, `Json`, `OAuthState`, `GoogleSignIn`, `Jwks`) are pure functions:
base64url of section 5 of RFC 4648 with the behaviour of Go's decoder (`UrlLetters` reads the letters off the bits of the
bytes taken as one big-endian number, independently of the codec), UTF-8 with replacement characters, the escaping
of `json.Marshal` and the whole grammar `json.Unmarshal` reads (section 7 of RFC 8259 for strings), and big-endian
integers of section 6.3.1 of RFC 7518.

SHA-256, HMAC, bcrypt, the token signer and Google are function parameters of the model without assumptions on them.
Where a property needs more, its `requires` says so. In particular no property assumes that hashing is injective: the
UNIQUE constraint on the token hash does that work.

## Model

| member | source | states |
|---|---|---|
| Store.Database.ExistsByEmail | internal/adapter/postgres/user_repository.go:22-29 | a scan counts the rows of the address; the answer is whether the count is positive, which is whether a row exists |
| Store.Database.FindUserByEmail | internal/adapter/postgres/user_repository.go:61-71 | finds the one user with the address, or none |
| Store.Database.FindUserById | internal/adapter/postgres/user_repository.go:73-83 | a hit is a stored row whose identifier column is the one asked for; a miss means no stored row has it |
| Store.Database.InsertUser | internal/adapter/postgres/user_repository.go:31-37 | stores the row exactly when identifier and address are new, the columns are wide enough and the statement succeeds; nothing else changes |
| Store.Database.AddRole | internal/adapter/postgres/user_repository.go:43-59 | appends a role the user does not have, in one statement, and answers the written row |
| Store.Database.InsertToken | internal/adapter/postgres/refresh_token_repository.go:22-28 | stores the row exactly when identifier and hash are new, the hash fits its column, the user exists and the statement succeeds |
| Store.Database.FindByTokenHash | internal/adapter/postgres/refresh_token_repository.go:30-40 | finds the one row with the hash, or none |
| Store.Database.Revoke | internal/adapter/postgres/refresh_token_repository.go:42-50 | sets the revocation time of one row; an unknown identifier is no error |
| Store.Database.InsertCode | internal/adapter/postgres/verification_code_repository.go:23-29 | stores a code row exactly when its identifier is new, its columns are wide enough and the statement succeeds; earlier codes of the address stay |
| Store.Database.FindLatestByEmail | internal/adapter/postgres/verification_code_repository.go:31-44 | a scan answers a row of the address that no row of it is newer than, the database choosing among equally new ones; it misses exactly when the address has no row and is down exactly when the statement fails |
| Store.Database.IncrementAttempts | internal/adapter/postgres/verification_code_repository.go:46-54 | adds one to the counter as stored, not as read |
| Store.Database.MarkConsumed | internal/adapter/postgres/verification_code_repository.go:56-65 | sets the consumption time of one row |
| Tables.UniqueLookups | migrations/000002_create_refresh_tokens_table.up.sql:2-4 | under the constraints a look-up by a unique column finds exactly the row that carries the value |
| Protocol.StepUsesRank | internal/usecase/verify_code.go:32-85 | every step of an unfinished request lowers its rank, and a finished one does not move |
| System.SevenTurnsSuffice | internal/usecase/verify_code.go:32-85 | in any interleaving a request that has had seven turns has ended, and no later event changes it |
| UseCases.Service.IssueTokenPairFor | internal/usecase/login.go:46-70 | adds exactly one row and answers its pair, both dated by one instant with their lifetimes, or changes nothing |
| UseCases.Service.Login | internal/usecase/login.go:30-44 | one refusal for an unknown address, an account without a password and a wrong one; otherwise a pair for the account |
| UseCases.Service.Refresh | internal/usecase/refresh.go:24-49 | refuses an unknown, revoked or expired token; revokes any other and issues a pair for its owner |
| UseCases.Service.Rotate | internal/usecase/refresh.go:39-48 | load the owner, then revoke and issue; a missing owner or a failure stops before the revocation |
| UseCases.Service.RevokeAndIssue | internal/usecase/refresh.go:44-48 | revoke, and only then issue; if issuing fails the token stays revoked |
| UseCases.Service.Logout | internal/usecase/logout.go:22-37 | revokes a known token; an unknown one is a success too; a failed statement is told apart |
| UseCases.Service.Register | internal/usecase/register.go:29-61 | refuses a known address; otherwise adds exactly the one customer, every field given, or nothing |
| UseCases.Service.AddRole | internal/usecase/add_role.go:27-37 | refuses every role but SELLER, tells an unknown user from a failure, and answers the row as stored then |
| UseCases.Service.RequestCode | internal/usecase/request_code.go:35-60 | draws six digits, stores their hash for ten minutes and mails the digits to the address of the row; the row stays if mailing fails |
| UseCases.Service.StoreAndSend | internal/usecase/request_code.go:51-59 | a code is stored before it is mailed, the digits mailed hash to the stored row, and the row stays if mailing fails |
| UseCases.Service.VerifyCode | internal/usecase/verify_code.go:32-85 | every branch and failure in closed form, down to the account added, under the address as name, and the pair answered |
| UseCases.Service.Judge | internal/usecase/verify_code.go:43-59 | decides on the snapshot read: consumed or expired, used up, wrong, or right |
| UseCases.Service.Miss | internal/usecase/verify_code.go:50-55 | a wrong code counts one attempt and is refused |
| UseCases.Service.RedeemAndSignIn | internal/usecase/verify_code.go:57-84 | a right code is consumed before the account is looked up or created and a pair issued |
| UseCases.Service.CompleteGoogle | internal/usecase/complete_google_oauth.go:36-80 | state, exchange, verified address, account, pair: every branch in closed form, with the account served and the target |
| UseCases.Service.SignIn | internal/usecase/complete_google_oauth.go:51-79 | a pair for the account of the address, which stays as it is, or for the one added without a password |
| UseCases.Service.CreateUsersBulk | internal/usecase/bulk_create.go:44-61 | the loop ends in the state, and with the two lists, of the item-by-item specification |
| CodeGenerator.GenerateVerificationCode | internal/usecase/request_code.go:62-73 | the loop yields a code exactly when all six draws succeed; each character is the decimal digit of its draw |
| CodeGenerator.OneDrawPerCode | internal/usecase/request_code.go:62-73 | each six-digit text is spelt by exactly one row of draws, so none is likelier than another |
| Invariants.StepKeepsDb | internal/usecase/register.go:45-58 | no step of any request breaks a constraint, stores an address that is not normalised, or spoils a role list |
| Invariants.StepKeepsReq | internal/usecase/verify_code.go:57-84 | the moving request keeps its invariant: what it holds was read, checked and used up as its program counter says |
| Reachability.ApplyKeepsInv | internal/usecase/refresh.go:24-49 | one event of any request preserves the tables', requests', ledger and lineage invariants |
| Reachability.ReachableInv | internal/usecase/refresh.go:24-49 | every reachable state satisfies them |
| Reachability.RunEvolves | internal/domain/refresh_token.go:12-23 | over any run rows are never removed, revocations and consumptions never taken back, counters never lowered |
| Accounts.OneAccountPerAddress | migrations/000001_create_users_table.up.sql:3 | at most one account per normalised address, whoever raced to create it |
| Accounts.PairBelongsToAddress | internal/usecase/verify_code.go:61-84 | a pair answered for an address carries, in token and row, the one account with that address |
| Accounts.SameAddressSameSubject | internal/usecase/complete_google_oauth.go:50-74 | password, code and Google sign-ins for one address reach the same user |
| Accounts.AccountFrame | internal/adapter/postgres/user_repository.go:43-51 | identity, address, password hash, name and creation time never change after insert |
| Accounts.RolesShape | internal/usecase/add_role.go:27-37 | CUSTOMER first, at most SELLER after it, no duplicates, however upgrades interleave |
| Accounts.PasswordlessNeverLogsIn | internal/usecase/login.go:39-41 | an account born without a password never gets one, and no password login reaches it |
| Accounts.OneRegistrationWins | internal/usecase/register.go:32-58 | of racing registrations for one address at most one is answered with a user |
| Rotation.RowsEqualPairs | internal/usecase/login.go:65-69 | as many token rows as answered pairs: a failed request leaves no row |
| Rotation.PlaintextHasOneRow | internal/usecase/login.go:52-69 | every plaintext handed out hashes to exactly one row, owned by the subject of its access token |
| Rotation.PlaintextsDiffer | migrations/000002_create_refresh_tokens_table.up.sql:4 | two requests are never answered with the same refresh token |
| Rotation.RefreshFindsItsUser | internal/usecase/refresh.go:39-42 | no refresh ever meets a missing user |
| Rotation.LineageOwnership | internal/usecase/refresh.go:39-48 | all tokens from a sign-in on belong to its user, all but the last are revoked, and none repeats |
| Rotation.SuccessorMeansRevoked | internal/usecase/refresh.go:44-48 | a token with a successor is revoked, at every step and after every failure |
| Rotation.SuccessorsCountMakers | internal/usecase/refresh.go:44-48 | replacements of a token and requests answered with one correspond one to one |
| Rotation.BranchingBound | internal/usecase/refresh.go:27-48 | all successors of a token come from refreshes that held it, under way, at its first revocation |
| Rotation.AtMostKSuccessors | internal/usecase/refresh.go:22-48 | with at most k refreshes in flight a token is replaced at most k times |
| RotationExact.SuccessorsReachableIff | internal/usecase/refresh.go:22-48 | n successors can still come about after the first revocation if and only if n refreshes hold the token live then |
| RotationExact.DeadTokenSuccessorsIff | internal/usecase/refresh.go:22-48 | n successors of a revoked or expired token can still come about if and only if n refreshes hold it live, none of them past drawing its new row |
| RotationExact.ExpiredSuccessorsIff | internal/domain/refresh_token.go:21-23 | n successors of an expired, never revoked token can come about if and only if n refreshes had passed its validity check |
| RotationExact.LogoutIsFinalIff | internal/usecase/logout.go:20-37 | after a logout first revokes a token no successor can come about if and only if no refresh holds the token live then |
| RotationTight.LogoutIsOvertaken | internal/usecase/logout.go:20-37 | from any reachable state with a live token there is a run with a successful logout of it, after which it still gets any number of successors |
| RotationExact.OneSuccessorIff | internal/usecase/refresh.go:22-48 | at most one successor is certain exactly when at most one refresh held the token |
| RotationTight.LiveTokenBranches | internal/usecase/refresh.go:24-49 | from any reachable state a live token gets k successors in some run with k refreshes in flight beside those already there |
| RotationTight.SuccessorBoundIsTight | internal/usecase/refresh.go:24-49 | for every k there is a run from the empty system, within k refreshes in flight, after which a token has k successors |
| RotationTight.ReplacedOnceIff | internal/usecase/refresh.go:22-48 | no run within k refreshes in flight replaces a token twice if and only if k is at most one |
| RotationExact.HoldersSucceed | internal/usecase/refresh.go:39-48 | any set of refreshes holding a token, none past drawing its new row, can all be answered with a pair |
| SerialRotation.OneLiveTokenPerSignIn | internal/usecase/refresh.go:44-48 | without overlapping refreshes a sign-in has a path of tokens and at most one unrevoked, even when a refresh fails halfway |
| CodeBudget.AttemptBound | internal/usecase/verify_code.go:46-55 | counter, wrong guesses about to be counted and redemptions together never exceed 4 + k |
| CodeBudget.GuessBudget | internal/usecase/request_code.go:43-53 | comparisons for an address number at most 4 + k for each stored code, plus guesses whose write failed |
| CodeBudget.CodeGuessBudget | internal/usecase/verify_code.go:43-59 | one code is compared at most 4 + k times, plus guesses whose write failed |
| CodeBudgetExact.GuessBudgetIsTight | internal/usecase/request_code.go:43-53 | for every k and n there is a run within k verifications in flight that sends n codes to an address and makes (4 + k) * n comparisons |
| CodeBudgetExact.LimitKeptIff | internal/usecase/verify_code.go:14-55 | no run within k verifications in flight takes a counter past five if and only if k is at most one |
| CodeBudgetExact.AttemptBoundIsTight | internal/usecase/verify_code.go:46-55 | for every k there is a run within k verifications in flight whose counter ends at 4 + k |
| Lifecycles.DeadTokenIsRefused | internal/domain/refresh_token.go:21-23 | a revoked or expired token stays dead, and only refreshes that already held it live can replace it |
| Lifecycles.DeadCodeIsRefused | internal/usecase/verify_code.go:43-48 | a consumed, used-up or expired code stays so, and only verifications that had read it alive compare it |
| Lifecycles.RedemptionBound | internal/usecase/verify_code.go:57-59 | every redemption of a code, and every pair for it, is of a verification under way and holding the code at its first consumption |
| Lifecycles.AtMostKRedemptions | internal/usecase/verify_code.go:43-59 | with at most k verifications in flight a code is redeemed at most k times |
| Instances.TokenIsReplacedTwice | internal/usecase/refresh.go:27-48 | in one configuration two overlapping refreshes replace one token twice |
| Instances.CodeIsPaidTwice | internal/usecase/verify_code.go:35-84 | in one configuration two overlapping right guesses are both answered with a pair |
| Instances.LimitIsBroken | internal/usecase/verify_code.go:46-55 | in one configuration two overlapping wrong guesses take a counter past five |
| GuessesExact.GuessesReachableIff | internal/usecase/verify_code.go:43-59 | once nobody new gets past the check, the stored right (or wrong) guesses can reach n if and only if n are stored or under way |
| GuessesExact.RedemptionsReachableIff | internal/usecase/verify_code.go:43-59 | after the first consumption of a code n redemptions can come about if and only if n requests have redeemed it or are ready to |
| GuessesExact.SingleUseIff | internal/usecase/verify_code.go:43-59 | the first redemption is sure to stay the only one exactly when no other right guess is ready at that moment |
| GuessesExact.AttemptsReachableIff | internal/usecase/verify_code.go:46-55 | the counter of a used-up, expired, consumed or superseded code can climb by n if and only if n wrong guesses are ready |
| SingleUse.PairsReachableIff | internal/usecase/verify_code.go:57-84 | after the first consumption of a code n requests can be answered with a pair for it if and only if n are entitled |
| SingleUse.PairBoundIsTight | internal/usecase/verify_code.go:35-84 | for every k there is a run within k verifications in flight that pays k requests for one code |
| SingleUse.PaidOnceIff | internal/usecase/verify_code.go:35-84 | no run within k verifications in flight pays twice for a code if and only if k is at most one |
| Lifecycles.ReachableTally | internal/adapter/postgres/verification_code_repository.go:46-65 | the stored counter is the number of stored misses, and a code is consumed exactly when somebody redeemed it |
| Lifecycles.SupersededIsFrozen | internal/adapter/postgres/verification_code_repository.go:31-44 | once a strictly newer code is stored and nobody works on the older one, its row is frozen and never compared again |
| Lifecycles.SupersededIsRefused | internal/usecase/request_code.go:43-57 | once a strictly newer code is stored, only verifications that had read the older one compare or redeem it |
| Serial.ServeIsASerialRun | internal/usecase/refresh.go:24-49 | serving one request is the run of the interleaved system in which nobody else moves |
| Answers.LoginAnswers | internal/usecase/login.go:30-70 | one refusal for an unknown address, an account without a password and a wrong one; otherwise exactly one row and its pair, all fields given, or nothing |
| Answers.RefreshAnswers | internal/usecase/refresh.go:24-49 | unknown, revoked and expired tokens are refused; any other is revoked before its successor is stored and stays revoked if issuing fails |
| Answers.LogoutAnswers | internal/usecase/logout.go:22-37 | an unknown token is logged out already, a known one is revoked, a failed statement changes nothing |
| Answers.RegisterAnswers | internal/usecase/register.go:29-61 | a known address is refused; otherwise exactly one customer with the hashed password is added, or nothing |
| Answers.AddRoleAnswers | internal/adapter/postgres/user_repository.go:43-59 | only SELLER is added; an unknown user is not found, a failure is unavailable, and the answer is the row as it is stored then |
| Answers.RequestAnswers | internal/usecase/request_code.go:35-60 | a six-digit code is stored hashed for 600 seconds and stays stored if it cannot be mailed |
| Answers.VerifyAnswers | internal/usecase/verify_code.go:32-85 | no code, a consumed, an expired and a wrong one are refused alike, a used-up one apart; a right one is consumed and signs in, under the address as name if the account is new |
| Answers.CodeSignInServes | internal/usecase/verify_code.go:61-84 | a granted code sign-in leaves a stored account as it is and puts its fields in the access token, or adds exactly one account, named by the address |
| Answers.GoogleAnswers | internal/usecase/complete_google_oauth.go:36-80 | invalid state, failed exchange and unverified address change nothing, each with its own answer; otherwise the account of the address is signed in |
| Answers.GoogleGrantedIff | internal/usecase/complete_google_oauth.go:36-80 | a Google sign-in is granted exactly when the state opens, the exchange works, the address is verified and account and token can be stored; it serves the stored account or exactly one new one, and names the target |
| Answers.LookupsMean | migrations/000001_create_users_table.up.sql:3-3 | what the two look-ups by a unique column mean, row by row |
| Sessions.ServeSimulates | internal/usecase/refresh.go:24-49 | one request changes the table and the directory of live sessions in step, with the same answer |
| Sessions.TableIsASessionDirectory | internal/usecase/logout.go:20-37 | no sequence of requests can tell the token table from a map of live sessions |
| RoundTrips.RegisterThenLogin | internal/usecase/login.go:30-44 | after a registration, a login is granted exactly for passwords bcrypt matches, for the new account |
| RoundTrips.MissesCount | internal/usecase/verify_code.go:46-55 | wrong guesses one after another are counted up to five and change nothing else |
| RoundTrips.RequestThenVerify | internal/usecase/verify_code.go:43-84 | a sent code signs its address in exactly after fewer than five wrong guesses and within ten minutes; it is consumed then, and the account served is the stored one, untouched, or one added under the address |
| Bulk.RegisterAlone | internal/usecase/register.go:29-61 | the registration program run alone, in closed form |
| Bulk.ItemAnswers | internal/usecase/bulk_create.go:44-61 | whatever fails, each item is registered on what the ones before it left and recorded as the user stored, as already registered, or as an unknown error |
| Bulk.BulkPartitions | internal/usecase/bulk_create.go:44-61 | without faults Created is exactly the first good occurrence of each new address, Skipped the rest, both in order |
| Bulk.CreatedAreDistinct | internal/usecase/bulk_create.go:44-61 | whatever fails, each item is in one list and no two created users share an identifier or address |
| Bulk.RerunCreatesNothing | internal/usecase/bulk_create.go:33-35 | a batch whose good addresses are stored creates nothing and leaves the store as it is |
| Bulk.BulkIsRepeatable | internal/usecase/bulk_create.go:33-35 | running a batch again creates nothing, under any circumstances the second time |
| Emails.NormalizeWithFixedPoints | internal/usecase/register.go:63-65 | for any lower-casing that is idempotent and keeps spaces apart, normalising twice is normalising once and the fixed points are the trimmed lower-case texts |
| Emails.NormalizeEmailFixedPoints | internal/usecase/register.go:63-65 | normalising yields a trimmed text without capitals, and those are exactly the fixed points |
| Emails.NormalizeEmailMeans | internal/usecase/register.go:63-65 | every text is space, a middle without space at its ends, space; normalising yields the middle with each of A to Z moved 32 code points on and nothing else changed |
| Emails.SameAddressIff | internal/usecase/register.go:63-65 | two addresses are one to the service exactly when their middles agree letter by letter up to ASCII case |
| Emails.SameAddressWithIff | internal/usecase/register.go:63-65 | for any lower-casing, two addresses are one exactly when it makes their middles equal |
| Emails.SpaceCodePoints | internal/usecase/register.go:63-65 | the code points trimmed are those of the Unicode property White_Space |
| Claims.ClaimsAgreeIffWholeSeconds | internal/adapter/jwt/issuer.go:39-51 | exp - iat equals expires_in at every instant if and only if the TTL is a whole number of seconds |
| Claims.ConfiguredTtlIff | cmd/auth-service/main.go:91-95 | exp - iat and expires_in both equal the configured seconds at every instant if and only if that many nanoseconds fit 64 bits |
| Lifetimes.IssuedTimes | internal/adapter/jwt/issuer.go:39-51 | in every run an answered pair has iat and exp in the seconds of one instant and of that instant plus the access TTL, its row is dated by that instant and expires a refresh TTL later, and expires_in is the whole seconds of the access TTL |
| Lifetimes.LifetimesAgreeIff | internal/adapter/jwt/issuer.go:39-51 | over all runs, exp - iat equals expires_in in every answered pair if and only if the access TTL is a whole number of seconds |
| Lifetimes.MailedCodeMatches | internal/usecase/request_code.go:43-57 | in every run what is about to be mailed are the six digits whose hash the stored row of that address has |
| Base64Url.DecodeEncode | internal/usecase/oauth_state.go:47-60 | decoding undoes encoding for every byte string, and no encoding contains a dot |
| Base64Url.EncodeDecodeIffCanonical | internal/usecase/oauth_state.go:60-63 | a text is the encoding of what it decodes to exactly when it has no line break and no leftover bits |
| UrlLetters.EncodeSpellsOut | internal/adapter/jwt/jwks.go:33-34 | the encoding is the one text of (4n + 2) / 3 letters whose letter k, in the table of RFC 4648, names the six bits at position 6k of the bytes |
| Utf8.DecodeEncode | internal/usecase/oauth_state.go:42-42 | every text survives UTF-8 encoding |
| Utf8.EncodeDecodeIffWellFormed | internal/usecase/oauth_state.go:42-42 | bytes survive decoding exactly when they are valid UTF-8 |
| Utf8.EncodeCharSpells | internal/usecase/oauth_state.go:42-42 | the bytes of a character are a lead byte that tells their number and six bits in each of the others, together its code point |
| Json.ReadTextOfEscaped | internal/usecase/oauth_state.go:42-42 | every string reads back from its escaped form, with nothing more taken |
| Json.IntOfPrinted | internal/usecase/oauth_state.go:28-28 | a printed integer reads back exactly when it fits 64 bits |
| Json.PrintedDigits | internal/usecase/oauth_state.go:28-28 | each character of a printed number is the decimal digit of its place |
| Json.NumberedEscapes | internal/usecase/oauth_state.go:42-42 | the control, HTML and JavaScript characters and stray bytes are written in four lower-case hexadecimal digits |
| OAuthState.UnmarshalMarshal | internal/usecase/oauth_state.go:42-67 | json.Unmarshal undoes json.Marshal of the state claims |
| OAuthState.MarshalledText | internal/usecase/oauth_state.go:25-42 | the text of a payload: the members n, r and t in this order, without space |
| OAuthState.SignedStateCarries | internal/usecase/oauth_state.go:31-49 | a signed state is a payload, a dot and the base64url of its MAC, and the payload says the nonce in base64url, the target and the second of signing |
| OAuthState.VerifySign | internal/usecase/oauth_state.go:31-73 | what verifying a signed state answers at every later or earlier instant, with the fraction of the signing second |
| OAuthState.RoundTripIff | internal/usecase/oauth_state.go:31-73 | the redirect target comes back exactly when it is valid UTF-8 and the state is fresh |
| OAuthState.Window | internal/usecase/oauth_state.go:40-70 | every real age up to 599 seconds is accepted, every one above 600 refused |
| OAuthState.WindowIsTight | internal/usecase/oauth_state.go:40-70 | in between, the answer depends on the fraction of the signing second |
| OAuthState.AcceptedForm | internal/usecase/oauth_state.go:51-58 | the accepted states are exactly e + "." + sig(e) with e free of dots and openable |
| OAuthState.OneStatePerPayload | internal/usecase/oauth_state.go:52-58 | no second signature text goes with a payload |
| OAuthState.OtherSecret | internal/usecase/oauth_state.go:56-58 | a state passes under another secret exactly when the two MACs are equal, and is otherwise a mismatch |
| GoogleSignIn.SignedStateComesBack | internal/usecase/complete_google_oauth.go:36-80 | a sign-in with a signed state is never refused for it while fresh and returns its target; later it is, and stores nothing |
| Jwks.RoundTripIff | internal/adapter/jwt/jwks.go:25-38 | decoding the two published fields gives back modulus and exponent exactly when neither is negative |
| Jwks.PublishedKey | internal/adapter/jwt/jwks.go:25-38 | one key of type RSA, use sig, algorithm RS256 and the given kid, its fields the shortest big-endian octets of the numbers spelt out in base64url |
| Jwks.FieldsAreMinimal | internal/adapter/jwt/jwks.go:33-34 | the fields have no leading zero octet and no shorter byte string has their value |
| Jwks.NumberOfBigEndian | internal/adapter/jwt/issuer_test.go:111-122 | reading big-endian bytes undoes writing them |

## Left out

- Emails.NormalizeEmailFixedPoints: the addresses of the protocol are lower-cased in the ASCII letters only; for other lower-casings, Unicode's mapping among them, the same is Emails.NormalizeWithFixedPoints.
- Claims.ClaimsAgreeIffWholeSeconds: the float64 rounding of a TTL with a fraction of a second is not modelled; whole seconds that fit 64 bits of nanoseconds are exact in a float64, and main.go configures no others (Claims.ConfiguredTtlIff).
- Store.Database.FindLatestByEmail: the order among codes created at the same instant is left to the database, so supersession is stated for strictly newer codes.
- RotationExact.DeadTokenSuccessorsIff: leaves out states in which a holder has already drawn the identifier and value of its new row, which may clash with another draw.
- RotationExact.SuccessorsReachableIff: lasts as long as unused identifiers and token values with unused hashes can be drawn, which its hypothesis names; the same holds of SingleUse.PairsReachableIff and of the tight runs.
- OAuthState.VerifySign: signing is modelled for instants whose seconds fit the 64 bits of a time.Time; a failing random source, the only other error of sign, is not.
- Lost acknowledgements: a statement that fails changes nothing; one that took effect while its reply was lost is not modelled.
- Clock: one reading serves each step, so the readings a single step makes in a row (the claims and the row of one pair) are merged, and the database clock is the same clock.
- Claims.IssueAccessToken: leaves out the iss claim and the kid header, constants of the configuration that no use case reads.
- Column details: timestamps keep nanoseconds instead of microseconds, VARCHAR widths reject instead of trimming trailing spaces, and the attempts counter is not bounded by 32 bits.
- Row deletion: no use case deletes rows, so ON DELETE CASCADE never acts.
- Abandoned requests: a request whose client goes away simply stops moving and stays in flight.
- Internals of SHA-256, HMAC, bcrypt, RSA and the JWT library: functions of their inputs, bcrypt and the signer able to fail.
- Random sources and uuid.New: their values are part of the environment; no probability is claimed.
- Mail delivery and the Google exchange: success or failure of a step; what Google vouches for is a function of the code.
- HTTP routing, request validation, response bodies and status codes.
- Starting a Google sign-in: it signs a state and builds a URL; the signing is modelled, the URL is not.
- Key files, PEM, key thumbprints, configuration, logging, tracing and health checks.
- JSON: the unused nonce member is carried as text; member names match by ASCII case, which for the three names in use is all the folding there is.
