# Sharp-OAuth: a verified model

Sharp-OAuth is an OAuth 2.0 and OpenID Connect server: an authorization endpoint with sign-in and consent pages, a
token endpoint with the authorization-code and refresh-token grants, revocation, UserInfo, a developer portal for
registering clients, and JWT signing with key rotation. This project models its grant lifecycle and proves what the
server promises about it. `dafny verify dfyconfig.toml` checks everything.

## How the model is built

**The store** (`Schema`, `Statements`, `Database`). The clients, consents, authorization codes and refresh tokens are
tables; module `Statements` gives every SQL statement of the `repo` modules as a function on them, with PRIMARY KEY,
UNIQUE, foreign keys, cascades and ON DELETE SET NULL. Class `Database.Connection` holds the tables and executes the
statements; a transaction is a second connection that is committed or dropped.

**The endpoints** (`Authorization`, `TokenEndpoint`, `Clients`, `Server`). Each endpoint is specified by a function
from tables, request, clock reading and drawn values to new tables, a response and the grant events that happened.
`Server` has the endpoints as methods that begin, commit and drop transactions, each proved to do exactly what its
specification says on every path, including which failures commit and which roll back. Where an endpoint only
forwards to one statement, the method and its specification read alike, and the table below does not list it.

**Runs** (`World`, `Preservation`, `Steps`). A world is the tables, the clock and the history of grant events. A step is
any request of any client or browser, with any parameters, any session and any drawn values. `Reachable` states are those
that runs of any length lead to from empty tables, and `Later` relates a state to those that runs lead to from it. One
invariant is proved for every step and lifted to every run, and the results about families, consent bounds,
exact effects, isolation of clients, redemption and the registry are stated of reachable states (`Families`,
`ConsentBounds`, `Effects`, `Isolation`, `Redemption`, `Registry`); `Trespass` is a run on which isolation fails.

**Requests, answer by answer** (`ValidRequests`, `AuthorizationAnswers`, `Consents`, `TokenAnswers`, `Ownership`). What
each endpoint answers and stores, stated on the submitted pairs, the header, the session and the rows of the tables,
not through the functions that specify the endpoints: which requests are valid, what counts as approval, who is
authenticated, what a code or token is exchanged for, and who can manage an application. `Consents` and `Ownership` lift
this to runs: approvals are neither lost nor invented, and only its owner changes an application. `IssuedTokens` follows
what the token endpoint issues, across restarts, to what UserInfo answers.

**Row locks** (`RowLocks`, `LockDiscipline`, `Concurrency`, `EscapedSuccessor`, `ClaimLocks`). A finer model runs any
number of concurrent requests statement by statement, in any interleaving, with waiting, aborts, private inserts and
statement snapshots: refreshes and replays, family revocations, the first row of a redemption, and client deletions.
`ClaimLocks` does the same for redemptions, with the claim of the code and the first row of the family in one transaction.
Together they yield at most one committed successor per token, one family per code and one usable token per family, show
that what a winner commits is the atomic step of the coarse model, and determine exactly when a family revocation is, and
so when a whole run equals the serial execution of its transactions.

**The browser loop** (`AuthorizationRequests`, `SignInFlow`). A request is carried through redirects, the sign-in page and
the consent form while tables, clock and session change arbitrarily between hops. The flow terminates, keeps the
request, and ends only where the request says.

**Disclosure** (`UserInfo`). The UserInfo endpoint from the presented token to the claims, joined with the history: what is
accepted was issued, and what is disclosed was approved.

**Keys** (`SigningKeys`, `Kids`). Loading, selecting, signing and verifying with a set of keys; deployments as sequences
of restarts; and the generated key identifiers against the Gregorian calendar.

**Text** (`Text`, `Secret`, `Pkce`, `Scope`, `Params`, `AppForms`). The parsers, printers and encoders at every boundary,
with their round trips; `FormExamples` has the inputs on which two of them fail. Loops of the server are loops here,
proved against specification functions.

## Assumptions

- Each request is one atomic step of a run in `World`. For the transactions of refreshes and redemptions `Concurrency`
  and `ClaimLocks` justify this. For family revocations it is an assumption that can fail:
  `Concurrency.RevocationIsAtomicExactly` says when.
- Requests that are several statements without a transaction are single steps as well: the decision at the
  authorization endpoint and the answer on the consent page (validate, grant consent, issue the code), the authentication
  of a client before each grant, the revocation endpoint, and creating an application, which counts and then inserts. If
  another request comes between those statements, what the first of them checked may no longer hold at the last: with an
  update of the application's scopes between validation and issue, a code can be issued for a scope that is no longer
  allowed at that moment.
- `RowLocks` starts a revocation of a family only when its first row is committed or aborted. For a replayed code this is
  what `ClaimLocks.MissesExactly` proves: nobody sees the code used before the redemption is committed, family and all.
- The clock never goes back between requests, and one request reads it once.
- A family identifier is never drawn twice, as no constraint enforces that. Row identifiers, secrets and hashes may
  collide: a collision is a constraint violation and rolls back.
- SHA-256 is an arbitrary function from strings to 32 bytes. It is not assumed to be injective, which no such function is;
  where a collision matters, the statement says so.
- A signature verifies under exactly the key pair that signed; `UserInfo.DisclosureIsApproved` also assumes that nobody else
  signs with the server's pairs. A JWT is accepted through the second its `exp` names, as the JWT library does with no
  leeway.
- URL parsing is an arbitrary function. Of the form-urlencoded serializer, `SignInFlow` assumes that parsing undoes it and
  that it emits only its documented alphabet; browsers are assumed to send hidden fields unchanged.
- Theorems that need more carry it as a hypothesis: `Redemption.SpentForEver` that the generator does not produce the
  very secret of the code again, `Families.UnusableStaysUnusable` that the row identifier is not drawn again once
  freed.

## Where code and documentation differ

Replay detection is meant to end a family (`src/oauth/services/token.rs:280-296`, and `src/token/services/refresh.rs:1-22`),
and one after the other it does (`Families.TokenReplayKillsFamily`). Under concurrency it need not: the UPDATE by family
does not see a successor that another transaction has inserted and not yet committed. `EscapedSuccessor.SuccessorEscapes` is
such a run, and `Concurrency.ReplayKillsExactly` states exactly when a replay does kill its family: when no rotation of it
was committed between the snapshot of the UPDATE and the commit. A family that is dead stays dead under every interleaving
(`Concurrency.DeadFamilyStaysDead`).

The key-rotation procedure calls tokens expired after fifteen minutes (`src/pkg/jwt_manager.rs:31-33`), but the claims
check accepts a token through the last second of its `exp`. `SigningKeys.DocumentedProcedureSuffices` proves the procedure
for tokens whose expiry is in the future, `SigningKeys.FifteenMinutesMissTheLastSecond` shows the second it misses, and
`SigningKeys.RotationKeepsTokensAcceptable` gives the exact retention that covers it.

A request round trip is the identity only without empty fields (`AuthorizationRequests.RequestRoundTrip`); requests read
from parameters have none, so the browser loop never meets the exception. The round trips of the application form fail
for a redirect URI with a lone carriage return and for one with a line break (`FormExamples`); their exact conditions are
`AppForms.EditPageKeepsDetails` and `AppForms.TextareaRoundTrip`.

In their refresh tokens clients are isolated from one another (`Effects.ForeignTokenLooksUnknown`,
`Isolation.ClientIsolation`), except that replaying a used code has its effect whichever client presents it:
`Isolation.CodeGrantIsolation` gives the exact condition, and `Trespass.ForeignTokensAreRevoked` a run in which one
client revokes a token of another.

## Model

| member | source | states |
|---|---|---|
| Families.FamilyIsOneChain | src/oauth/services/token.rs:330-346 | In every reachable state a token family is one chain: its rows are exactly those issued for it, each once, each pointing at the one issued next, which was created before it expired; exactly the last is unrotated. So there is one root, no cycle and no dangling successor. |
| Families.SuccessorsAreDistinct | src/token/repo/refresh_tokens.rs:52-63 | In every reachable state no two rows, of any families, point at the same successor. |
| Families.AtMostOneUsable | src/token/services/refresh.rs:57-75 | In every reachable state at most one token of a family is usable, by any client at any two times. |
| Families.ChainLifetime | src/token/services/refresh.rs:88-111 | The token at depth n of a chain expires at most (n + 1) × 30 days after the first was created. |
| Families.RevokedAsAWhole | src/token/repo/refresh_tokens.rs:65-79 | In every reachable state two rows of a family carry the same revocation time, or neither is revoked. |
| Families.TokenReplayKillsFamily | src/oauth/services/token.rs:280-296 | Presenting a rotated token again leaves no unrevoked row in its family, after that very request. |
| Families.CodeReplayKillsFamily | src/oauth/services/token.rs:148-163 | Presenting a used code again leaves no unrevoked row in the family it started, whichever client presents it. |
| Families.RevocationKillsFamily | src/oauth/services/revocation.rs:48-64 | Revoking any token of a family, the current one or an old one, kills the whole family. |
| Families.DeadFamilyStaysDead | src/token/repo/refresh_tokens.rs:66-115 | A dead family stays dead in every later state, after runs of any length: no row joins it, no row of it changes, no token of it is usable by any client at any time. |
| Families.Provenance | src/oauth/services/token.rs:194-208 | Every row of a family carries the client, user, scope and sign-in time of its code; a code starts at most one family; and the subquery by code selects exactly that family. |
| Families.UnusableStaysUnusable | src/token/services/refresh.rs:63-75 | A token that is unusable for a client stays unusable for it in every later state and at every later time. |
| ConsentBounds.CodesAreBounded | src/oauth/services/authorization.rs:458-464 | Every scope of a stored code was approved by that user for that client earlier, and lay in the scopes the client was allowed when the code was issued. |
| ConsentBounds.RefreshTokensAreBounded | src/oauth/services/token.rs:307-343 | The same for every scope of every refresh token, however long its chain. |
| ConsentBounds.AccessTokensAreBounded | src/token/services/access.rs:62-86 | The same for every scope of every access token ever issued, and the approval came before the token; reading its scope claim back gives exactly the scopes granted, never the empty fallback. |
| ConsentBounds.StoredScopesParse | src/oauth/services/token.rs:399-402 | The scope stored in any reachable code or refresh-token row parses and prints back to itself, so the malformed-scope error cannot occur. |
| Effects.UnknownCode | src/oauth/services/token.rs:146-166 | A code nobody issued changes nothing and is an invalid grant. |
| Effects.ReplayedCode | src/oauth/services/token.rs:148-163 | A used code revokes exactly the unrevoked rows that descend from that code, changes nothing else and issues nothing. |
| Effects.RejectedCode | src/oauth/services/token.rs:168-179 | A code with a wrong binding is consumed (`used_at`), and nothing else changes. |
| Effects.RedeemedCode | src/oauth/services/token.rs:181-221 | A code with the right bindings succeeds exactly when signing works and the due row can be stored; then the code is consumed and one row is inserted exactly for `offline_access`, with access and ID token given claim by claim, the ID token exactly for `openid`. Otherwise the tables are as before, the claim included. |
| Effects.ReplayedToken | src/oauth/services/token.rs:280-296 | A rotated token revokes exactly the unrevoked rows of its family and issues nothing. |
| Effects.RefreshFailureChangesNothing | src/oauth/services/token.rs:264-318 | Every failed refresh other than a replay leaves the tables as they were. |
| Effects.RotatedToken | src/oauth/services/token.rs:307-360 | A usable token succeeds exactly when the requested scope does not exceed the grant, signing works and the row can be stored; the successor keeps the original scope, family, code and user, only `rotated_to_id` of the old row changes, and access and ID token are given claim by claim. |
| Effects.ForeignTokenLooksUnknown | src/oauth/services/token.rs:297-300 | The answer to a token of another client is the answer to a token that does not exist. |
| Isolation.CodeGrantIsolation | src/oauth/services/token.rs:146-221 | The code grant of one client leaves the refresh-token rows of all others as they are, exactly if the presented hash is not that of a used code of another client that still has an unrevoked row. |
| Isolation.StepIsolation | src/oauth/services/token.rs:105-346 | Any token or revocation request that authenticates as one client, or not at all, leaves the rows of all others as they are, exactly unless it replays such a code. |
| Isolation.ClientIsolation | src/oauth/services/revocation.rs:52-64 | A run of token and revocation requests by one client, of any length, leaves the rows of all others as they were exactly if none of its requests, at its turn, replays such a code. |
| Isolation.CodeReplayIgnoresPresenter | src/oauth/services/token.rs:148-163 | Why: what replaying a used code does is the same whichever client presents it. |
| Trespass.ForeignTokensAreRevoked | src/oauth/services/token.rs:148-163 | A reachable state, and a token request of a second client that revokes a token of the first: registration of both, approval, redemption and the presentation by the second, step by step. |
| Redemption.DeliveredCode | src/oauth/services/authorization.rs:519-564 | Whenever the browser is sent to the client with a code, that code is stored, unused, for the client and challenge of the request and the redirect URI the browser goes to. |
| Redemption.HonestRedemptionSucceeds | src/oauth/services/token.rs:142-253 | A delivered code is accepted on first presentation by its client, with the redirect URI and the verifier of the challenge, less than sixty seconds later, whatever else the server did meanwhile, if signing works and no drawn value collides. |
| Redemption.OnlyTheRightfulRedeem | src/oauth/services/token.rs:223-253 | The converse: tokens are issued only for an unused code less than sixty seconds old, presented by its own client with its own redirect URI and a well-formed verifier of its challenge. |
| Redemption.PresentationSpends | src/oauth/repo/authorization_codes.rs:31-55 | Any presentation by any client spends the code, unless it ended in an internal error. |
| Redemption.SpentForEver | src/oauth/services/token.rs:146-166 | A spent code is refused in every later state, whoever presents it. |
| Redemption.CodeSurvives | src/oauth/repo/authorization_codes.rs:14-55 | No request that does not present a code changes its row, unless its client is deleted. |
| Registry.RegistryRules | src/oauth/services/client.rs:226-282 | In every reachable state each client has 1 to 10 distinct redirect URIs (https, or http to this machine, without fragment and credentials), known scopes and a name of 1 to 80 characters, and no owner has more than 25 apps. |
| Registry.ClientTypeIsFixed | src/oauth/services/client.rs:86-94 | As long as it is registered a client keeps its type (public or confidential), owner and identifiers. |
| Registry.DeletionEndsGrants | src/oauth/services/client.rs:214-220 | Deletion by its owner always succeeds, removes exactly its codes, consents and tokens, changes no other row, leaves no dangling successor and leaves all its families dead. |
| Steps.StepKeepsInv | src/oauth/services/token.rs:105-360 | Every request of every kind, successful or not, keeps the invariant of the store. |
| Steps.RunKeepsInv | docs/architecture.md:249-252 | The invariant holds after every run of any length, and the clock has not gone back. |
| Steps.ReachableInv | docs/architecture.md:249-252 | It therefore holds in every state reachable from empty tables. |
| Steps.LaterIsReachable | docs/architecture.md:249-252 | Runs compose: what comes after a reachable state is reachable. |
| World.InitialInv | migrations/0007_create_oauth_refresh_tokens.sql:7-22 | Empty tables satisfy the invariant. |
| Changes.StepChange | src/oauth/services/token.rs:127-346 | Every request changes the refresh-token table in one of five ways: not at all, one first row of a new family, one rotation, revocation of whole families, or removal of a client's rows. |
| Authorization.RedirectsOnlyToRegistered | src/oauth/services/authorization.rs:267-413 | No open redirector: success and redirected errors alike only name a URI registered for the active client of the request. |
| Authorization.ValidateWithoutReauthentication | src/oauth/services/authorization.rs:138-157 | Dropping the sign-in demands of a valid request keeps it valid, with the same client, URI, scope, state, challenge and nonce, and only those demands gone. |
| Authorization.IssuedOnlyWhenFreshAndApproved | src/oauth/services/authorization.rs:437-464 | `decide` issues a code only to a session younger than `max_age` + 1 seconds, without a pending login or consent demand, for scopes covered by an active approval. |
| AuthorizationRequests.RequestRoundTrip | src/oauth/services/authorization.rs:91-136 | Re-serialising a request and parsing it again, among whatever foreign form fields, gives back the same request exactly when no field is present but empty and no request object was recorded. |
| AuthorizationRequests.Reparsed | src/oauth/services/params.rs:37-45 | In general it gives back the request with empty fields and request objects dropped. |
| AuthorizationRequests.ParsePrompt | src/oauth/services/authorization.rs:171-190 | Accepts exactly the four known values, refuses `none` with `login` or `consent`, and reports each value that occurs. |
| AuthorizationRequests.PromptWithoutLogin | src/oauth/services/authorization.rs:144-151 | Removing `login` from a prompt removes that demand and keeps the others. |
| AuthorizationRequests.WithoutReauthenticationTwice | src/oauth/services/authorization.rs:144-157 | Removing the demands twice is removing them once, character for character. |
| AuthorizationRequests.ReturnPathSurvives | src/authentication/controllers/pages.rs:202-208 | The return path of any request passes the open-redirect filter unchanged, whatever its parameters hold. |
| AuthorizationRequests.FilterIsIdempotent | src/authentication/controllers/pages.rs:202-208 | The filter lets through exactly the candidates of one leading slash without backslash and control character, and sends everything else to the home page. |
| SignInFlow.FlowTerminates | src/oauth/controllers/authorize.rs:50-116 | From any readable request the browser makes at most four hops, plus five for every time the session is lost; each page carries the original request, with or without its sign-in demands, and the flow ends only at its redirect URI with its state or at a page of this server. |
| SignInFlow.HopDescends | src/oauth/services/authorization.rs:437-517 | Every hop strictly lowers the rank of the page; losing the session raises it by at most five. |
| SignInFlow.HopStaysOnTrack | src/oauth/services/authorization.rs:138-157 | Every hop keeps the request: client, redirect URI, scope, state, challenge and nonce never change. |
| SignInFlow.NeverAskedTwice | src/oauth/services/authorization.rs:446-456 | The request a user returns to after signing in never sends a signed-in user to the sign-in page, whatever happened to the tables. |
| SignInFlow.LinkAfterSignIn | src/authentication/controllers/pages.rs:163-182 | The page after sign-in requests exactly what the sign-in page was opened for. |
| SignInFlow.FormCarriesRequest | templates/pages/consent.html:55-65 | The consent form sends back exactly the request it shows, beside the CSRF token and the button. |
| ClaimLocks.AtMostOneFamily | src/oauth/services/token.rs:181-221 | Under every interleaving of redemptions, aborts, new codes and client deletions a code has at most one committed redemption, so it begins at most one token family, and no two redemptions begin the same. |
| ClaimLocks.MissesExactly | src/oauth/services/token.rs:148-166 | A claim of a code that was not used before takes the replay branch exactly if a redemption of that code is committed, its family with it. |
| ClaimLocks.LateClaimMisses | src/oauth/services/token.rs:148-166 | After a committed redemption every other claim of the code misses and sees it used. |
| ClaimLocks.AbortedClaimIsUndone | src/oauth/services/token.rs:181-183 | A claim excludes others while its transaction is open; if that aborts, before or after the first row, the code can be claimed again. |
| ClaimLocks.CommitIsAtomicClaim | src/oauth/repo/authorization_codes.rs:46-55 | At its commit an interleaved claim has exactly the effect of the atomic one. |
| SigningKeys.RotationKeepsTokensValid | src/pkg/jwt_manager.rs:24-33 | Over every sequence of restarts with unambiguous kids, all access tokens whose expiry lies in the future verify if and only if no key leaves before the expiry of the last token it could have signed. |
| SigningKeys.DocumentedProcedureSuffices | src/pkg/jwt_manager.rs:31-33 | Keeping a key for fifteen minutes after it was last active is enough for that. |
| SigningKeys.RotationKeepsTokensAcceptable | src/token/services/access.rs:94-106 | The exact retention for all tokens the claims check still accepts, which includes the second named by `exp`. |
| SigningKeys.FifteenMinutesMissTheLastSecond | src/pkg/jwt_manager.rs:31-33 | A deployment that keeps keys for fifteen minutes and yet rejects a token in its last accepted second. |
| SigningKeys.AcceptsExactly | src/pkg/jwt_manager.rs:184-212 | A token of the server is accepted exactly while its key is loaded and its last second is not over. |
| SigningKeys.AcceptedExactly | src/pkg/jwt_manager.rs:200-212 | For arbitrary key sets, kids repeated or not: a token is accepted exactly when the first key of its kid is the one that signed it, issuer and audience are this server, and its last second is not over. |
| SigningKeys.IdTokenIsNotAnAccessToken | src/pkg/jwt_manager.rs:192-200 | An ID token is never accepted as an access token. |
| SigningKeys.FromPems | src/pkg/jwt_manager.rs:116-161 | The loading loop computes the key set the two lemmas below describe, first error first. |
| SigningKeys.LoadsExactly | src/pkg/jwt_manager.rs:116-161 | Loading succeeds exactly when every kid and PEM is good and there is a key to make active. |
| SigningKeys.LoadedKeys | src/pkg/jwt_manager.rs:112-161 | The loaded keys are those of the files, no more and no fewer; the active one has the requested kid or, by default, a kid that no other exceeds. |
| SigningKeys.SortByKidMeaning | src/pkg/jwt_manager.rs:116-117 | Sorting orders by kid and keeps every file. |
| Kids.KidsSortByAge | src/pkg/jwt_manager.rs:234-244 | Generated kids compare like their times, for any two different seconds of years 1 to 9999 and any random suffixes. |
| Kids.GeneratedKidIsKid | src/pkg/jwt_manager.rs:121-127 | Every generated kid passes the character check on loading. |
| Kids.DefaultKeyIsNewest | src/pkg/jwt_manager.rs:112-158 | With generated kids the default active key is the newest. |
| Kids.EarlierFieldsAreEarlier | src/pkg/jwt_manager.rs:236-241 | Comparing year, month, day, hour, minute and second in turn agrees with the Gregorian count of seconds. |
| Scope.Parse | src/oauth/services/scope.rs:45-60 | Returns exactly the set of names, or the error for an empty or malformed string. |
| Scope.PrintThenParse | src/oauth/services/scope.rs:45-97 | Printing then parsing gives back a set exactly when it is non-empty and all its names are well formed (section 3.3 of RFC 6749). |
| Scope.PrintIsCanonical | src/oauth/services/scope.rs:92-97 | Equal sets print equally, sorted and free of duplicates; parsing the print of a parse changes nothing. |
| Params.FromPairs | src/oauth/services/params.rs:26-35 | The collecting loop computes the specified result and stops at the first repetition. |
| Secret.EncodeDecode | src/shared/secret.rs:46-49 | Base64url of n bytes has (4n + 2) / 3 URL-safe characters, rounded down, and decodes back, for every byte string (section 5 of RFC 4648). |
| Secret.SecretShape | src/shared/secret.rs:29-49 | Every encoding of 32 bytes has 43 URL-safe characters, and different bytes have different encodings. |
| Pkce.ChallengeIsWellFormed | src/oauth/services/pkce.rs:43-63 | Every S256 challenge passes the challenge check (section 4.2 of RFC 7636). |
| Pkce.GeneratedSecretIsVerifier | src/oauth/services/pkce.rs:53-69 | Every generated secret is a valid verifier of its own challenge. |
| Pkce.AcceptedExactlyOnEqualDigest | src/oauth/services/pkce.rs:66-69 | Against the challenge of a verifier, another passes exactly when it is well formed and has the same SHA-256 digest. |
| Clients.ValidateDetails | src/oauth/services/client.rs:229-282 | The validation loop computes the specified result, first failing check first. |
| Clients.AcceptedDetails | src/oauth/services/client.rs:226-282 | Details are accepted exactly when, trimmed and deduplicated, they obey the registry rules; what is stored obeys them. |
| Clients.FirstOccurrencesMeaning | src/oauth/services/client.rs:241-246 | Deduplication keeps the same URIs, each once, in order of first occurrence. |
| Clients.AuthenticatedExactly | src/oauth/services/client.rs:358-391 | A registered client authenticates exactly when it is active and the presented secret has the stored digest, or it is public and none was presented. |
| Clients.RotationReplacesSecret | src/oauth/services/client.rs:191-212 | After a rotation by its owner exactly the secrets with the digest of the new one authenticate. |
| AppForms.FromPairs | src/developer/dtos.rs:36-51 | The submission loop keeps the first CSRF token, the last value of every other field, and each scope once in order. |
| AppForms.ListedUrisAreLines | src/developer/dtos.rs:79-87 | Every listed redirect URI is non-empty, trimmed and on one line. |
| AppForms.TextareaRoundTrip | src/developer/dtos.rs:54-87 | The textarea gives back the URIs it was filled with exactly when each fits on a line; a URI registered on the command line with a line break inside would not. |
| Database.RevokeRows | src/token/repo/refresh_tokens.rs:65-115 | Row by row, sets `revoked_at` on exactly the unrevoked rows of the families and counts them. |
| Database.Connection.ClaimCode | src/oauth/repo/authorization_codes.rs:46-55 | Marks the unused code of a hash and returns it; otherwise returns nothing and changes nothing. |
| Families.RowsOnlyEvolve | src/token/repo/refresh_tokens.rs:52-115 | Over every run the only columns of a stored row that change are `revoked_at` and `rotated_to_id`, each from NULL to one value and never again. |
| Redemption.SpentCodeIsRefused | src/oauth/services/token.rs:146-166 | No request that presents a spent code obtains tokens, whatever else it proves. |
| Scope.PrintedIsStored | src/oauth/services/scope.rs:92-97 | What the server prints into a column is a canonical scope string that parses back to the same set. |
| Authorization.PromptNoneShowsNoPage | src/oauth/services/authorization.rs:272-297 | With `prompt=none` a request is never answered with a sign-in or consent page. If it names an active client and a redirect URI registered for it, the answer goes to that URI unless the server fails; otherwise, and only then, it is refused on an error page of this server. |
| Registry.EveryCodeIsDelivered | src/oauth/services/authorization.rs:483-563 | In a reachable state the authorization endpoint, and the answer on the consent page, store a code exactly when they send the browser to the client; an internal error means that a drawn value was taken. |
| UserInfo.UserInfo | src/oidc/services/userinfo.rs:36-62 | A token that does not verify, or whose user is gone, is invalid; without `openid` the scope is insufficient; otherwise the answer holds exactly the claims the scopes of the token pay for. |
| UserInfo.ClaimsFor | src/oidc/services/userinfo.rs:64-79 | The claims are exactly those the scopes pay for: each present claim has its value, each absent one was not due. |
| UserInfo.DisclosureIsApproved | src/oidc/services/userinfo.rs:36-79 | Whatever is disclosed beyond `sub`, for whatever token is presented, belongs to a scope that the user of that token had approved for its client before the token was issued. |
| AppForms.TextareaThroughBrowser | src/developer/dtos.rs:54-87 | With the CRLF line ends of a browser, the textarea gives back its URIs exactly when each fits on a line and holds no carriage return. |
| AppForms.EditPageKeepsDetails | src/developer/dtos.rs:36-91 | The edit page of an application saved from a form, submitted unchanged by a browser and read by the form parser, is accepted and means the same details exactly when no saved URI holds a carriage return. |
| AppForms.BrowserSubmissionsHoldNoReturn | src/developer/dtos.rs:79-87 | URIs saved from a browser submission hold none. |
| FormExamples.EditPageChangesDetails | src/developer/dtos.rs:36-91 | A submission made without a browser, with a lone carriage return in its URI, that is accepted and that the edit page, submitted unchanged, then changes. |
| FormExamples.TextareaSplitsUri | src/developer/dtos.rs:54-87 | Details from the command line, with a line break in the URI, that are accepted and that the textarea does not give back. |
| Params.CollectedMeaning | src/oauth/services/params.rs:26-35 | Collection succeeds exactly on distinct names and then holds exactly the given pairs (section 3.1 of RFC 6749). |
| Params.ErrorMeaning | src/oauth/services/params.rs:26-35 | Otherwise it names the first repeated parameter. |
| Server.HandleToken | src/oauth/services/token.rs:105-121 | The token endpoint, run in transactions on the store, leaves exactly the tables, response and events that the results above speak of. |
| Server.ExchangeCode | src/oauth/services/token.rs:127-221 | The code grant likewise: which paths commit, which drop the transaction, and what each answers. |
| Server.ExchangeRefresh | src/oauth/services/token.rs:259-360 | The refresh grant likewise. |
| Database.Connection.RevokeByCode | src/token/repo/refresh_tokens.rs:81-115 | Revokes the unrevoked rows of the families of a code, and returns their number. |
| Database.CascadeCodes | migrations/0005_create_oauth_authorization_codes.sql:9 | Deleting a client keeps exactly the codes of the others, unchanged. |
| Database.CascadeConsents | migrations/0006_create_oauth_consents.sql:7 | And exactly the consents of the others. |
| Database.CascadeTokens | migrations/0007_create_oauth_refresh_tokens.sql:13-14 | And exactly the tokens of the others, which forget a code that is gone. |
| Database.FindDangling | migrations/0007_create_oauth_refresh_tokens.sql:21 | Tells whether a surviving token points at one that is gone. |
| Database.Connection.DeleteClient | src/oauth/repo/clients.rs:105-108 | Deletes a client with its three cascades, or fails and changes nothing exactly if a surviving token would dangle. |
| Concurrency.AtMostOneSuccessor | src/token/repo/refresh_tokens.rs:33-50 | Under every interleaving of refreshes, replays, revocations, redemptions and deletions no token has two committed rotations; until its family is deleted, the row of a rotated token names the successor of its one rotation, which is there. |
| Concurrency.LoserTakesReplayBranch | src/oauth/services/token.rs:276-296 | Who locks a row after a committed rotation sees that rotation, cannot insert, and goes to the replay branch. |
| Concurrency.HolderExcludes | src/token/repo/refresh_tokens.rs:33-50 | While a transaction refreshes or replays a token no other one can. |
| Concurrency.WaiterMayWin | src/oauth/services/token.rs:273-346 | A refresh whose row is free and usable can run to its commit. |
| Concurrency.AfterAbortNextMayWin | src/oauth/services/token.rs:273-346 | An abort leaves no trace, and the next waiter may win. |
| Concurrency.WinnerIsAtomicRefresh | src/oauth/services/token.rs:307-346 | At its commit the interleaved transaction of a winner has exactly the effect of the atomic refresh, for whatever part of the grant it asked. |
| Concurrency.RevocationLeavesExactly | src/token/repo/refresh_tokens.rs:65-115 | When a family revocation of any kind commits, an unrevoked row of the family is left exactly when a rotation was committed since its snapshot and nothing caught that one (no revocation with a later snapshot, no deletion of the family). |
| Concurrency.ReplayKillsExactly | src/oauth/services/token.rs:280-296 | A replayed refresh token kills its family exactly when no rotation of that family was committed between the snapshot of its UPDATE and its commit. |
| Concurrency.RevocationIsAtomicExactly | src/token/repo/refresh_tokens.rs:65-79 | The rows a revocation commits are those of the atomic statement exactly in the same cases. |
| Concurrency.DeadFamilyStaysDead | src/token/repo/refresh_tokens.rs:33-115 | Dead families stay dead under every interleaving: no transaction, however far it had come, adds or changes a row of one, and no token of one is usable by any client at any time. |
| EscapedSuccessor.SuccessorEscapes | src/oauth/services/token.rs:280-296 | A run of ten statements in which a detected and committed replay leaves a usable token in its family. |
| LockDiscipline.StepKeeps | src/oauth/services/token.rs:273-346 | Every statement of every transaction keeps the locking invariant: what the holder of a lock saw is what is committed, and a stored row is revoked exactly if a revocation saw it. |
| LockDiscipline.ReachableInv | src/oauth/services/token.rs:273-346 | So the invariant holds after every interleaving. |
| LockDiscipline.LaterIsReachable | src/oauth/services/token.rs:273-346 | Interleavings compose: what one reaches from a reachable state is reachable. |
| Concurrency.AtMostOneUsable | src/token/services/refresh.rs:57-75 | From a state with at most one unrotated row in each family, no interleaving makes two tokens of a family usable, by any clients at any times. |
| Concurrency.SerialExactly | src/oauth/services/token.rs:105-360 | Serializability, with its exact condition: along a concurrent run the rows are at every moment those of its transactions executed one by one, in commit order and by the atomic statements, exactly if no revocation it commits was escaped by a rotation since its snapshot. |
| Concurrency.SerialEnd | src/oauth/services/token.rs:105-360 | Such a run ends with the rows of that serial execution. |
| Params.GetIsSent | src/oauth/services/params.rs:38-51 | Looking a parameter up gives the value that was submitted under its name, and an empty value counts as none. |
| ValidRequests.ValidatedExactly | src/oauth/services/authorization.rs:268-413 | An authorization request is accepted exactly with the contents that its submitted parameters and the client table give it: registered redirect URI, `response_type=code`, state, allowed scopes, S256 challenge, nonce, prompt and age, each within its bounds; and then with no others. |
| ValidRequests.RefusedExactly | src/oauth/services/authorization.rs:298-413 | A refused request that names a client and one of its URIs is told so at that URI, with its state and the code of its first fault. |
| ValidRequests.RefusedOnPage | src/oauth/services/authorization.rs:272-297 | A request is refused on a page of this server exactly if it names no client with one of its URIs. |
| AuthorizationAnswers.AuthorizeExactly | src/oauth/services/authorization.rs:438-564 | The five answers to a valid request, each in exactly its case: sign-in page, `login_required`, a stored code with everything it is bound to (nonce, sign-in time, sixty seconds), `consent_required`, or consent page. |
| AuthorizationAnswers.ApprovalExactly | src/oauth/services/authorization.rs:483-564 | Pressing Allow stores the consent and then the code, or fails internally exactly if a drawn value is taken. |
| AuthorizationAnswers.DenialExactly | src/oauth/services/authorization.rs:483-500 | Any other answer to a valid request, in particular Deny, tells the client `access_denied` with its state and changes nothing. |
| AuthorizationAnswers.UnapprovedChangesNothing | src/oauth/controllers/authorize.rs:88-116 | Without `decision=approve` among the pairs, without the CSRF token or without a session, whatever else is submitted, nothing changes. |
| AuthorizationAnswers.ApprovedExactly | src/oauth/controllers/authorize.rs:88-116 | What counts as approval everywhere: a request records an approval of these scopes for this client by this user exactly if it is the consent answer of that signed-in user, with the CSRF token, `decision=approve` and a valid request of the client for these scopes among its pairs. |
| AuthorizationAnswers.GrantedExactly | src/oauth/services/consent.rs:27-46 | A grant adds its scopes to those in force and changes no other consent. |
| Consents.StepConsents | src/oauth/services/consent.rs:27-46 | Whatever the request, afterwards a registered client holds a scope of a user exactly if it held it before or the request is the answer by which that user approves it. |
| Consents.RemembersExactly | src/oauth/services/consent.rs:1-6 | Over every run approvals are neither lost nor invented: a scope is in force exactly if the user once approved it and the client has been registered ever since. |
| Consents.NotAskedAgain | src/oauth/services/authorization.rs:458-471 | A valid request of a freshly signed-in user that does not insist on the consent page is answered with a code, or an internal error, exactly if the user once approved all its scopes and the client has been registered since. |
| TokenAnswers.AuthenticatesExactly | src/oauth/services/client.rs:323-391 | A request is taken to come from a client exactly if its header and parameters prove it: Basic credentials, a secret in the body, or no secret for a public client, and never two of these (section 2.3 of RFC 6749). |
| TokenAnswers.UnauthenticatedExactly | src/oauth/services/client.rs:323-391 | Everything else is `invalid_client`, except two secrets at once. |
| TokenAnswers.RefreshExactly | src/oauth/services/token.rs:259-362 | A refresh request with a usable token succeeds exactly if the scopes it names (at least one), or the whole grant if there is no `scope`, lie within the grant, signing works and no drawn value is taken; then the tokens are for exactly those scopes. Otherwise nothing changes, with `invalid_scope` for the scopes. |
| TokenAnswers.UnusableExactly | src/oauth/services/token.rs:264-305 | With any other token of the table it is an invalid grant, and only the client's own rotated and unrevoked one has an effect: it revokes its family. |
| TokenAnswers.CodeExactly | src/oauth/services/token.rs:127-256 | A token request with a stored code: a used code revokes what descends from it, one that does not match is spent, and one that does is exchanged exactly if signing works and no drawn value is taken. |
| TokenAnswers.UnknownIsInvalid | src/oauth/services/token.rs:146-166 | Unknown codes and refresh tokens are invalid grants and change nothing. |
| TokenAnswers.IncompleteIsRefused | src/oauth/services/token.rs:105-140 | A request that repeats or lacks a parameter, names another grant or comes from no client is refused with its own error and changes nothing. |
| TokenAnswers.RevocationExactly | src/oauth/services/revocation.rs:31-74 | Revoking an unknown token succeeds without effect, one of another client is refused, and one of the client's own revokes exactly the unrevoked rows of its family (section 2 of RFC 7009). |
| TokenAnswers.UnauthenticatedRevocation | src/oauth/services/revocation.rs:31-40 | Revocation without a client is refused and changes nothing. |
| IssuedTokens.SuccessIssues | src/oauth/services/token.rs:366-397 | Whatever token request succeeds, its tokens are for the authenticated client and a non-empty set of scopes, claim by claim. |
| IssuedTokens.IssuedIsAccepted | src/token/services/access.rs:71-106 | An issued access token is accepted, in the same or any other epoch of the server, exactly while its key is loaded and its last second is not over; nothing else can be wrong with it. |
| IssuedTokens.IssuedDiscloses | src/oidc/services/userinfo.rs:36-79 | UserInfo answers an issued token exactly if it is accepted, `openid` was granted and the user exists, and then with the claims that the granted scopes pay for. |
| IssuedTokens.SuccessIsUseful | src/oidc/services/userinfo.rs:36-62 | From the token endpoint to UserInfo: the access token of whatever token request succeeds is answered exactly in that case, read off the response. |
| Ownership.NotFoundExactly | src/oauth/repo/clients.rs:55-69 | Editing, rotating or deleting is answered "not found" exactly if no row has that name and that owner, and then nothing changes. |
| Ownership.OnlyTheOwnerChanges | src/developer/services/apps.rs:67-75 | Over any run without a managing request of its owner, whatever everybody else does, the row of an application stays as it is. |
| Ownership.OthersManageNothing | src/oauth/repo/clients.rs:55-69 | Over any run of managing requests by other developers an application also keeps its codes, consents and tokens. |
| Ownership.UpdateExactly | src/oauth/services/client.rs:167-189 | Editing replaces name, redirect URIs and scopes of the one row by the normalised details, or refuses and changes nothing. |
| Ownership.RotateExactly | src/oauth/services/client.rs:191-212 | Rotation stores the digest of the new secret and tells the secret; a public application has none and stays as it is. |
| Ownership.UnconfirmedDeletesNothing | src/developer/controllers/apps.rs:233-245 | Nothing is deleted without confirmation. |
| Ownership.RegisterExactly | src/oauth/services/client.rs:124-165 | Registration stores exactly the normalised details with the owner and the digest of the secret, or refuses; the portal refuses from 25 applications on. |
| Ownership.RegisteredAuthenticates | src/oauth/services/client.rs:124-165 | What registration tells is what authenticates: the name with the secret, or without one for a public client. |
| Clients.RefusedExactly | src/oauth/services/client.rs:229-282 | Which details are refused with which error: the first rule broken. |
| UserInfo.DisclosedExactly | src/oidc/services/userinfo.rs:64-79 | The claims of an answer, spelled out scope by scope. |
| AuthorizationRequests.DecimalsAreRead | src/oauth/services/authorization.rs:394-400 | `max_age` reads the decimals of exactly the numbers below 2^32. |
| Scope.ParsesExactly | src/oauth/services/scope.rs:45-60 | A scope string is well formed exactly if it holds only spaces and printable ASCII other than quote and backslash, and not only spaces. |
| Pkce.VerifiersExactly | src/oauth/services/pkce.rs:43-69 | Verifiers are exactly 43 to 128 unreserved characters, challenges exactly 43 URL-safe ones (sections 4.1 and 4.2 of RFC 7636). |

## Left out

- HTTP, routing, CORS, headers, templates, discovery, health, configuration and the command line's own parsing: plumbing without state.
- RSA, SHA-256, Argon2, the random generator, JSON and the url crate: foreign libraries, represented by parameters as listed under Assumptions.
- Passwords, sign-up, CSRF tokens, cookies and session storage: a request comes with an optional session and the outcome of the CSRF check.
- The users table: user identifiers are opaque, so the cascade from deleting a user and the foreign keys to users are not modelled.
- Decoding of the Basic header: the header is absent, undecodable, or holds an identifier and a secret.
- Surrogate identifiers of consent rows, log lines and audit events.
- Deadlock detection of PostgreSQL: a transaction that waits for ever may be aborted at any time, and nothing more is said about which.
- Isolation levels other than READ COMMITTED: each statement has its own snapshot, and re-checks rows it had to wait for.
- Database and connection failures other than constraint violations; signing failures are an input of each token request.
- Families.TokenReplayKillsFamily: speaks of requests one after the other; Concurrency.ReplayKillsExactly gives the condition under concurrency.
- Families.CodeReplayKillsFamily: likewise; Concurrency.RevocationLeavesExactly gives the condition.
- Families.RevocationKillsFamily: likewise; Concurrency.RevocationLeavesExactly gives the condition.
- Families.RevokedAsAWhole: likewise; EscapedSuccessor.SuccessorEscapes is a concurrent run where it fails.
- ConsentBounds.CodesAreBounded: takes validation, consent and issue as one moment; with a concurrent update of the application between them, what was allowed at validation need not be allowed at issue.
- Concurrency.SerialEnd: goes one way, since a later deletion of the family can make the end equal again; Concurrency.SerialExactly compares every moment and is exact.
- Redemption.HonestRedemptionSucceeds: assumes working infrastructure and no collision of drawn values, since either ends in an internal error that rolls back.
- Registry.RegistryRules: the limit of 25 apps is for creations that do not overlap; the code says that two simultaneous ones may exceed it.
- Authorization.IssuedOnlyWhenFreshAndApproved: covers `decide` only, as answering the consent page does not check the age of the session again.
- Authorization.PromptNoneShowsNoPage: does not claim that `none` stands alone, as the parser accepts it beside `select_account`; a request with a repeated parameter is refused on an error page before the prompt is read.
- SignInFlow.FlowTerminates: counts completed hops; a failed sign-in shows the form again and is not counted.
- Kids.KidsSortByAge: years after 9999 print with a sign and more digits, and are excluded.
- The query string of error redirects: only URI, state, error and description are kept.
