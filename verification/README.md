# Pritunl Fleet: a verified model

Pritunl Fleet is a control plane for many Pritunl VPN nodes. This project models the parts of it that
are state machines or printers, and proves what they guarantee over every input and every run.

| file | models |
|---|---|
| `Text.dfy`, `Json.dfy` | decimal text, `int(text)`, ASCII case folding; the compact JSON printer with ASCII escaping |
| `HmacAuth.dfy`, `NonceRuns.dfy` | signed requests to a node, the evicting nonce cache, whole request streams |
| `HashChain.dfy`, `AuditLog.dfy` | the hash-chained audit log and its verification |
| `RateLimit.dfy` | the login rate limiter |
| `Identity.dfy`, `Session.dfy`, `SessionAnswers.dfy`, `SessionRuns.dfy` | roles, login, second factor, session tokens, principal management, what each answers and changes, runs of all of them |
| `NodeShim.dfy` | a node as its shim exposes it |
| `Fleet.dfy`, `FleetRuns.dfy`, `ProvisionSites.dfy`, `DriftReport.dfy`, `AuditCounts.dfy`, `FleetAnswers.dfy` | provisioning, deprovisioning, reconciliation, audited actions, and all their interleavings with failing adapters and changing nodes |
| `Envelope.dfy`, `NodeHealth.dfy`, `Bundle.dfy` | credential envelope, health roll-up, profile bundle |

Services and endpoints that change state are classes whose methods follow the code step by step; each is
proved equal to a function of the old state, and the theorems are lemmas about runs of those functions.
SHA-256, HMAC, AES-GCM, password hashing, TOTP, JSON serialisation of `params` and a node's behaviour
(within a stated contract) are function-valued parameters, so every result holds for all of them.
Collision-freedom is never assumed: the results about the audit chain either hold or exhibit a collision or a
preimage of the genesis hash among the texts of the logs at hand. A bearer token decodes exactly when
the server issued it and it has not expired.

What the proofs found, where the code differs from what its documentation suggests:

- The nonce cache evicts by the request's timestamp, and its time to live is exactly at the limit: any value
  below twice the skew admits a double accept (`NonceRuns.SingleUseIffTtlTwiceSkew`).
- Given the path, the signed string is unambiguous exactly when token, timestamp, nonce and method are free of
  `&`. The presented path is the sender's choice, though: a path such as `/a&FOO&/b`, with a part in front of an
  `&` that upper-casing leaves alone, gives the text another reading with another nonce, and the verifier accepts
  one signing twice (`HmacAuth.UnambiguousIff`, `NonceRuns.SigningUsedOnceIff`).
- A signature with a non-ASCII character makes verification raise TypeError instead of returning a refusal
  (`HmacAuth.RaisesIff`).
- A reordered or thinned audit log is detected, but any prefix of a verified log verifies; the chain alone
  does not detect a cut-off end (`HashChain.DrawnVerifiesIffPrefix`).
- An adapter that cannot be built (by default a node has no credentials) raises outside the handler that turns
  adapter errors into failures: "a failure on one site does not abort the others" holds for failing calls only.
  Such a target aborts the whole provision or deprovision; users already created stay on their nodes without
  placement or audit row (`AuditCounts.RolledBackUsersRemain`, `AuditCounts.ProvisionLosesIff`), and in a
  health sweep such a node keeps every node's result from being stored (`NodeHealth.OneNodeStopsAll`).
- `revoked` does not survive a sync of a reachable node: a softly deprovisioned placement turns `active`
  again and a deleted one `missing` (`DriftReport.RevokedSurvivesSyncIff`, `DriftReport.DeprovisionThenSync`).
- The routes that delete a role binding or a node carry a node id in their path, so the guard accepts an admin
  of that site there, not only a global admin (`SessionRuns.ManagementNeedsAdmin`).
- An enabled second factor can be enrolled anew with an enroll token issued before it was enabled, until that
  token expires (`SessionRuns.SecondFactorReplaceableIff`).
- Staying one failure short of the lockout and waiting for the window can be cheaper than the lockout; the
  limiter's exact price takes the cheaper of the two at every burst (`RateLimit.NoneFaster`, `RateLimit.PriceAttained`).

## Model

| member | source | states |
|---|---|---|
| `HmacAuth.VerifyRequest` | pritunl-shim/shim/hmac_auth.py:77-119 | answer and store left by one verification are those of `Verify`: missing or empty headers, unreadable timestamp, skew, TypeError on a non-ASCII signature, wrong signature, replay, acceptance, in this order; without a cache no replay check |
| `HmacAuth.NonceCache.Evict` | pritunl-shim/shim/hmac_auth.py:133-136 | exactly the entries older than the time to live, measured from the given timestamp, leave the store |
| `HmacAuth.NonceCache.Add` | pritunl-shim/shim/hmac_auth.py:141-143 | eviction by the request's own timestamp, then the nonce is stored with it |
| `HmacAuth.NonceCache.constructor` | pritunl-shim/shim/hmac_auth.py:129-131 | empty store, time to live defaulting to twice the default skew |
| `HmacAuth.AcceptsIff` | pritunl-shim/shim/hmac_auth.py:93-119 | a request is accepted if and only if its four headers are nonempty, its timestamp reads and is in skew, its signature is the HMAC of what it presents, and its nonce is not stored; the result names its token, and any other outcome leaves the store alone |
| `HmacAuth.RefusesIff` | pritunl-shim/shim/hmac_auth.py:98-117 | each refusal is given if and only if its cause is the first thing wrong, with the token from the clock check on |
| `HmacAuth.ParseUndoesSignedString` | pritunl-shim/shim/hmac_auth.py:39-40 | the signed string has a left inverse: token, timestamp, nonce, upper-cased method, path and body hash are recovered when the first four hold no `&`; the path is unrestricted |
| `HmacAuth.SignedStringAmbiguous` | pritunl-shim/shim/hmac_auth.py:39-40 | a concrete pair of component lists with `&` in the token or the nonce that share one signed string |
| `HmacAuth.UnambiguousIff` | pritunl-shim/shim/hmac_auth.py:39-40 | in front of a given path and body the signed text determines token, timestamp, nonce and upper-cased method if and only if none of the four holds an `&`; among all paths and bodies it determines them and the path if and only if moreover no part of the path between separators, followed by an `&`, equals its own upper-casing |
| `HmacAuth.ResplitPath` | pritunl-shim/shim/hmac_auth.py:39-40 | the other reading that such a part gives: the same token and timestamp, a longer nonce, the part as method, what follows it as path |
| `HmacAuth.PlainForcesPlain` | pritunl-shim/shim/hmac_auth.py:39-40 | a list signing to the text of an `&`-free list is `&`-free itself, if the path signed holds no `&` or is the same |
| `HmacAuth.RecasedHeadersCarry` | pritunl-shim/shim/hmac_auth.py:93-97 | the four headers are found whatever the casing of their names and whatever headers precede them |
| `HmacAuth.LowerCaseHeadersCarry` | pritunl-shim/shim/hmac_auth.py:93-97 | the four headers named in lower case, as HTTP stacks hand them on, carry the values signed |
| `HmacAuth.VerifyAcceptsSigned` | pritunl-shim/shim/hmac_auth.py:48-119 | a signed request with nonempty token and nonce, in-skew timestamp and unseen nonce is accepted and its nonce recorded, for any header casing and method casing |
| `HmacAuth.RaisesIff` | pritunl-shim/shim/hmac_auth.py:96-113 | verification raises TypeError if and only if the four headers are nonempty, the timestamp reads and is in skew, and the signature is not ASCII |
| `HmacAuth.NonAsciiSignatureRaises` | pritunl-shim/shim/hmac_auth.py:96-113 | any signed request in skew does so once its signature is replaced by a text that is not ASCII |
| `Text.ReadIntOfIntText` | pritunl-shim/shim/hmac_auth.py:59-102 | `int(str(n)) == n`, for negative numbers too |
| `Text.ReadIntHasNo` | pritunl-shim/shim/hmac_auth.py:101-104 | a text that reads as an integer holds no separator, so a verified timestamp is free of `&` |
| `Text.ReadDigitsIff` | pritunl-shim/shim/hmac_auth.py:101-104 | the texts of digits that read as a number: single underscores between digits, nothing else |
| `Text.PaddingIgnored` | pritunl-shim/shim/hmac_auth.py:101-104 | blanks around a text make no difference to the number read |
| `Text.TrailingIff` | pritunl-shim/shim/hmac_auth.py:101-104 | after a printed integer nothing but a blank may follow, and then the number is the same |
| `Text.CaseFolds` | pritunl-shim/shim/hmac_auth.py:40-94 | folding to upper or lower case leaves no letter of the other case and changes nothing else |
| `NonceRuns.EvictionInvisible` | pritunl-shim/shim/hmac_auth.py:106-143 | over every run with a nondecreasing clock in which genuine requests with one nonce have one timestamp, the evicting cache answers like a set that never forgets |
| `NonceRuns.EvictionInvisibleIffTtlTwiceSkew` | pritunl-shim/shim/hmac_auth.py:129-143 | that agreement holds in all such runs if and only if the time to live is at least twice the skew |
| `NonceRuns.NotAcceptedTwice` | pritunl-shim/shim/hmac_auth.py:106-143 | no (nonce, timestamp) pair is accepted at two positions of a run, with no assumption on nonces |
| `NonceRuns.SingleUseIffTtlTwiceSkew` | pritunl-shim/shim/hmac_auth.py:32-32 | single use holds in every run if and only if the time to live is at least twice the skew |
| `NonceRuns.ShortTtlDoubleAccepts` | pritunl-shim/shim/hmac_auth.py:106-143 | for every shorter time to live, an explicit three-request run accepts one signed request twice and departs from the never-forgetting set |
| `NonceRuns.StoreWindowAfterAccept` | pritunl-shim/shim/hmac_auth.py:133-143 | right after an accept every stored timestamp lies in [now - skew - ttl, now + skew] |
| `NonceRuns.FreshNoncesFixTimestamps` | pritunl-shim/shim/hmac_auth.py:39-40 | if every genuine request carries a text that honest signers signed, with distinct nonces, `&`-free token, nonce and method, and paths without a part that can pass for a method, a nonce determines its timestamp |
| `NonceRuns.HonestRequestAcceptedOnce` | pritunl-shim/shim/hmac_auth.py:77-143 | however the network replays or re-splits the texts of such signings, no nonce is accepted twice |
| `NonceRuns.SigningUsedOnceIff` | pritunl-shim/shim/hmac_auth.py:77-143 | a signing with `&`-free token, nonce and method is accepted at most once in every run of any requests if and only if the time to live is at least twice the skew and no part of its path can pass for a method |
| `NonceRuns.ResplitAcceptedTwice` | pritunl-shim/shim/hmac_auth.py:77-143 | otherwise, for every time to live, the honest request and then its other reading are both accepted |
| `NonceRuns.OtherReadingReusesSignature` | pritunl-shim/shim/hmac_auth.py:39-67 | the other reading carries the same signature: its request differs in method, path and nonce header only |
| `NonceRuns.EvictedTextUsedTwice` | pritunl-shim/shim/hmac_auth.py:106-143 | with a shorter time to live any signing is accepted twice in some run |
| `Json.ReadUndoesPrint` | control-plane/app/services/audit.py:36-36 | the compact JSON printer with Python's ASCII escaping is undone by a reader for all keys and texts, including control characters, quotes, backslashes and surrogate pairs |
| `Json.EscapeLength` | control-plane/app/services/audit.py:36-36 | a character is printed as itself, as one of the seven short escapes, as a `\u` escape, or beyond the basic plane as a pair of them |
| `Json.EscapedIsAscii` | control-plane/app/services/audit.py:36-36 | only printable ASCII is printed, whatever the text |
| `AuditLog.KeysSorted` | control-plane/app/services/audit.py:23-36 | the eleven members are printed in strictly increasing key order |
| `AuditLog.CanonicalTells` | control-plane/app/services/audit.py:21-36 | read back, the canonical text has under each of the eleven keys the row's field of that name, and nothing else |
| `AuditLog.CanonicalInjective` | control-plane/app/services/audit.py:21-36 | no two payloads share a canonical text |
| `AuditLog.AuditTable.HeadHash` | control-plane/app/services/audit.py:43-45 | the last row's hash, or the genesis hash of an empty table |
| `AuditLog.AuditTable.AppendEntry` | control-plane/app/services/audit.py:48-80 | one row sealed over the head is added, nothing else changes, and the table stays verified with increasing sequence numbers |
| `AuditLog.VerifyChain` | control-plane/app/services/audit.py:100-109 | ok exactly when every row continues the chain of the rows before it; otherwise the reported row is the first that does not, with the matching reason; the count is the number of rows |
| `HashChain.AppendRunVerifies` | control-plane/app/services/audit.py:48-109 | every serial run of appends verifies, keeps the rows there were and holds one row per payload in order |
| `HashChain.SameHeadSameLog` | control-plane/app/services/audit.py:100-109 | two verified chains with one head hash are equal, or walking both back exhibits a collision or a genesis preimage among their own texts |
| `AuditLog.SameHeadSameRows` | control-plane/app/services/audit.py:39-109 | the same for audit rows: equal in every hashed field, or a flaw of the hash is exhibited |
| `HashChain.EntryHashesDistinct` | control-plane/app/services/audit.py:100-109 | the entry hashes of a verified chain are pairwise distinct and differ from genesis, or a flaw is exhibited |
| `HashChain.DrawnVerifiesIffPrefix` | control-plane/app/services/audit.py:100-109 | entries drawn from a verified chain in any order, with repeats and omissions, verify up to a point if and only if they are a prefix up to that point, or a flaw is exhibited |
| `AuditLog.ShuffledRowsVerifyIffPrefix` | control-plane/app/services/audit.py:100-109 | the same for audit rows with arbitrary sequence numbers, so the reported break is the first row that departs from the log |
| `RateLimit.Limiter.BlockedFor` | control-plane/app/services/ratelimit.py:29-36 | seconds left in the lockout, 0 for an unknown key |
| `RateLimit.Limiter.RecordFailure` | control-plane/app/services/ratelimit.py:39-48 | prune, append, and lock when the list is full; other keys untouched |
| `RateLimit.Limiter.ResetKey` | control-plane/app/services/ratelimit.py:51-52 | the key's slot is dropped |
| `RateLimit.StoredListIsRecent` | control-plane/app/services/ratelimit.py:39-48 | the stored list is the latest failure and the earlier ones since the last lockout within its window, computed from the full history |
| `RateLimit.SlotBounds` | control-plane/app/services/ratelimit.py:39-48 | the list is shorter than the maximum, and the lockout ends at most one lockout period after the last failure |
| `RateLimit.WaitBounded` | control-plane/app/services/ratelimit.py:29-36 | in every guarded run on any keys no one is told to wait longer than the lockout period |
| `RateLimit.WaitIsRestOfLockout` | control-plane/app/services/ratelimit.py:29-48 | after any operations the wait told is exactly the rest of the lockout last triggered by the key's failures since its last reset, and 0 without one |
| `RateLimit.SlotFollowsOwnHistory` | control-plane/app/services/ratelimit.py:18-52 | a key's slot is determined by its own failures since its last reset, whatever happens to other keys |
| `RateLimit.GapHolds` | control-plane/app/services/ratelimit.py:39-48 | a failure and the one `maxAttempts` later are at least a gap apart: the smaller of window and lockout, or the lockout when one attempt locks |
| `RateLimit.FailureRateBounded` | control-plane/app/services/ratelimit.py:29-48 | k times `maxAttempts` failures of a guarded run take at least k gaps, from any failure on |
| `RateLimit.NoneFaster` | control-plane/app/services/ratelimit.py:29-48 | the exact price: m failures after a failure take at least `Price(m)`, where `maxAttempts` failures cost a lockout, one less costs a window, and the last burst is free |
| `RateLimit.PriceAttained` | control-plane/app/services/ratelimit.py:29-48 | for every m some guarded run has m failures after the first in exactly that time, whichever of window and lockout is longer |
| `RateLimit.GuessRateBounded` | control-plane/app/services/ratelimit.py:29-52 | the same inside any serial run on many keys with resets, for each key's failures since its last reset |
| `RateLimit.GuessPriceBounded` | control-plane/app/services/ratelimit.py:29-52 | the price inside any serial run on many keys with resets |
| `RateLimit.BoundAttained` | control-plane/app/services/ratelimit.py:39-48 | when the lockout is no longer than the window some guarded run meets the bound exactly, for every k |
| `RateLimit.BoundAttainedByWindow` | control-plane/app/services/ratelimit.py:39-48 | when the window is shorter the bound by gaps is met for one gap; for more the price is exact |
| `Identity.ComputeEffectiveRole` | control-plane/app/models/identity.py:62-68 | the loop over bindings computes the effective role; no node id or an empty one means the global role |
| `Identity.RaisedIsHighest` | control-plane/app/models/identity.py:62-68 | the effective role is at least the global role and every binding of the site, and is one of them |
| `Identity.AdminRoutes` | control-plane/app/api/deps.py:29-37 | any route under `/principals` and the registry's create, edit and delete need admin; other reads need viewer; no mutation needs less than operator |
| `Identity.AdminRoutesIff` | control-plane/app/api/deps.py:29-37 | a route is for admins if and only if its template contains `/principals`, or is a POST ending in `/nodes`, or a PATCH or DELETE ending in `/nodes/{node_id}` |
| `Session.ControlPlane.Login` | control-plane/app/api/routes/auth.py:21-47 | limiter guard, credential check, failure counted or key reset, step token of the right scope; the state changes as `LoginStep` |
| `Session.ControlPlane.MfaEnroll` | control-plane/app/api/routes/auth.py:50-59 | only a live enroll token of an enabled principal stores a new secret and clears the enrolled flag |
| `Session.ControlPlane.MfaVerify` | control-plane/app/api/routes/auth.py:62-97 | guard, code check against the stored secret, enrolment confirmed on the enroll scope, full token issued; the state changes as `VerifyStep` |
| `Session.ControlPlane.Preauthorised` | control-plane/app/api/deps.py:67-83 | a live step token of an existing, enabled principal |
| `Session.ControlPlane.RbacGuard` | control-plane/app/api/deps.py:98-114 | 401 without a live full token of an enabled principal, 403 below the required role, else the principal |
| `Session.ControlPlane.Manage` | control-plane/app/api/routes/principals.py:36-137 | each management endpoint, and creation, renaming and deletion of a node, behind its guard: conflict, not found, the foreign-key failure of a binding to an unregistered node, or the change it makes |
| `SessionAnswers.GuardAnswers` | control-plane/app/api/deps.py:44-114 | 401 if and only if there is no live session of an enabled principal; with one, an admin of the site or globally passes everywhere, an operator wherever no admin is asked for, anyone to read there, and all others get 403 |
| `SessionAnswers.LoginAnswers` | control-plane/app/api/routes/auth.py:21-47 | 429 exactly while the key is locked, a step token exactly for the right password of an enabled principal, of the scope its second factor calls for and of the configured life, else 401; what each outcome changes |
| `SessionAnswers.EnrollAnswers` | control-plane/app/api/routes/auth.py:50-59 | the secret told is the one stored, unconfirmed, exactly for a live enroll token; 400 for a live second-factor token, else 401; nobody else is touched |
| `SessionAnswers.VerifyAnswers` | control-plane/app/api/routes/auth.py:62-97 | a full token exactly for a live step token, an open key and a code matching the stored secret; what each outcome changes |
| `SessionAnswers.ManageRefuses` | control-plane/app/api/routes/principals.py:23-137 | when a management request is refused as not found, conflicting or violating a foreign key, and that a refusal changes nothing |
| `SessionAnswers.ManageChanges` | control-plane/app/api/routes/principals.py:36-137 | what one that is carried out leaves in the tables, field by field |
| `SessionRuns.AcceptedRequestIsBacked` | control-plane/app/api/deps.py:98-114 | after any run from any principal table, an accepted request at t comes from an existing, enabled principal of the required role that was granted a session for a matching code, presented under its own step token, later than t - full ttl, and at an earlier request of the run a step token for its password, later than t - full ttl - step ttl |
| `SessionRuns.RunKeepsInv` | control-plane/app/api/routes/auth.py:21-97 | in every run of the endpoints the limiter state is that of a guarded run: failures are counted only under open keys |
| `SessionRuns.TokensAreBacked` | control-plane/app/services/auth.py:52-77 | every token ever issued goes back to a granted password login, and a full one to a granted verification by the same principal after it, within the step token's life |
| `SessionRuns.SessionOpens` | control-plane/app/api/routes/auth.py:21-97 | right credentials and then a right code, in time and not locked out, give a full token, admitted at exactly the instants before its expiry while nothing else changes; without a second factor the path goes through enrolment |
| `SessionRuns.GuessesBounded` | control-plane/app/api/routes/auth.py:22-32 | in every run of the endpoints the failed attempts under one limiter key since its last reset obey the limiter's rate bound |
| `SessionRuns.GuessesPriced` | control-plane/app/api/routes/auth.py:22-32 | and cost the limiter's exact price |
| `SessionRuns.RefusalsAreCounted` | control-plane/app/api/routes/auth.py:69-88 | 429 exactly under lockout and then nothing changes; every refused password or code is counted; success resets |
| `SessionRuns.ManagementNeedsAdmin` | control-plane/app/api/deps.py:86-114 | a live session gets through to a management route if and only if it is a global admin's, or an admin's of the site named in the path of a binding's or node's deletion |
| `SessionRuns.AuthorityChangesByAdmin` | control-plane/app/api/routes/principals.py:1-137 | over any run, a principal's existence, password hash, role, disabled flag or bindings change only by such an admin's accepted request that is about that principal or deletes a node it is bound to |
| `SessionRuns.LockedOutUntilAdmin` | control-plane/app/api/deps.py:44-114 | over any run without an admin's management request on them, a disabled or deleted principal stays so, gets no request through with tokens still alive, and is issued no further token |
| `SessionRuns.UpdateTakesEffect` | control-plane/app/api/routes/principals.py:59-81 | from the next request on login takes exactly the new password, and an open session gets 401 exactly when now disabled and is admitted exactly when the new global role or a binding of the site suffices |
| `SessionRuns.DeleteTakesEffect` | control-plane/app/api/routes/principals.py:84-95 | a deleted principal can neither log in nor use a token, others are unaffected, and the username can be taken by a new principal with only the new password, role and no second factor |
| `SessionRuns.MfaEnabledByCodeOnly` | control-plane/app/services/auth.py:133-138 | over any run a second factor becomes enabled only by an enroll-scope verification whose code matches the secret stored then |
| `SessionRuns.SecondFactorKept` | control-plane/app/services/auth.py:98-138 | over any run in which no admin clears it, an enabled second factor keeps its secret, if no enroll token of the principal is alive at the start |
| `SessionRuns.SecondFactorReplaceableIff` | control-plane/app/api/routes/auth.py:50-59 | without an admin the next request can replace an enabled second factor if and only if an enroll token of the enabled principal is alive |
| `SessionRuns.ResetForcesEnrolment` | control-plane/app/api/routes/principals.py:70-72 | after an MFA reset no run issues the principal anything but enroll tokens until it enrols again or an admin acts on it |
| `SessionRuns.BindingDecidesSiteRole` | control-plane/app/api/routes/principals.py:98-137 | after setting a binding the site role is the higher of it and the global role, after deleting it the global role; other sites are unaffected |
| `SessionRuns.StepKeepsIndex` | control-plane/app/api/routes/principals.py:36-137 | each request keeps this |
| `SessionRuns.RunKeepsIndex` | control-plane/app/api/routes/principals.py:36-137 | in every run usernames and node names stay unique, bindings stay unique per site and refer to registered nodes |
| `SessionRuns.KeysCoincideIff` | control-plane/app/services/ratelimit.py:22-26 | two limiter keys are one if and only if identifier and address agree, or one address carries the end of the other identifier across the colon |
| `SessionRuns.KeysAtOneAddress` | control-plane/app/services/ratelimit.py:22-26 | for addresses without a colon, if and only if identifier and address agree: a login as `mfa:u` counts with the second factor of `u`, no other does |
| `NodeShim.MockNode.Call` | pritunl-shim/mock/mock_node.py:139-213 | each mutation endpoint: error cases, the changed user, and the sessions removed |
| `NodeShim.MockNode.Lookup` | pritunl-shim/mock/mock_node.py:69-70 | the position of the first user with the id |
| `NodeShim.RefusesIff` | pritunl-shim/mock/mock_node.py:139-213 | when each endpoint refuses, with which code and text, and that a refusal changes nothing |
| `NodeShim.Serves` | pritunl-shim/mock/mock_node.py:139-213 | what a call that succeeds does to the first user with the id, or which user it adds |
| `NodeShim.LiveLinks` | pritunl-shim/mock/mock_node.py:130-136 | the sessions shown are those of users neither disabled nor revoked |
| `NodeShim.LinksInOrder` | pritunl-shim/mock/mock_node.py:130-213 | sessions keep their order, whoever is taken out or shown |
| `NodeShim.ApplyKeepsInv` | pritunl-shim/mock/mock_node.py:139-213 | unique ids, no profile and no session for a revoked user, kept by every call |
| `NodeShim.ServeKeepsInv` | pritunl-shim/mock/mock_node.py:139-213 | and over any sequence of calls |
| `NodeShim.RevokedForGood` | pritunl-shim/mock/mock_node.py:183-213 | over any calls a revoked user stays revoked until deleted and has no live session |
| `NodeShim.SessionsEndExactly` | pritunl-shim/mock/mock_node.py:130-213 | disabling, revoking or deleting a user removes exactly that user's sessions from those shown, others in order; enabling undoes disabling altogether |
| `Fleet.ControlPlane.CallAndAudit` | control-plane/app/api/routes/actions.py:60-76 | one adapter call and one audit row telling its outcome |
| `Fleet.ControlPlane.Perform` | control-plane/app/api/routes/actions.py:48-78 | the same for a single action, unless the adapter cannot be built: then nothing changes |
| `Fleet.ControlPlane.GetOrCreateLogical` | control-plane/app/services/provisioning.py:32-41 | the identity with the username, created when absent, its email filled in when empty |
| `Fleet.ControlPlane.ProvisionTarget` | control-plane/app/services/provisioning.py:49-91 | the placement found or added; an unregistered node, an adapter that cannot be built, or the call and the status and fields that success and failure leave |
| `Fleet.ControlPlane.ProvisionUser` | control-plane/app/services/provisioning.py:44-95 | the targets one after the other, a failed call not stopping the rest; an exception or a violated foreign key rolls the tables back |
| `Fleet.ControlPlane.DeprovisionPlacement` | control-plane/app/services/provisioning.py:104-130 | skip without node or remote id, raise when the adapter cannot be built, else delete or revoke; success marks revoked and keeps the remote id, failure notes the error |
| `Fleet.ControlPlane.DeprovisionUser` | control-plane/app/services/provisioning.py:98-134 | every placement of the identity in turn; an exception rolls the tables back; an unknown identity is reported and changes nothing |
| `Fleet.ControlPlane.ReconcilePlacements` | control-plane/app/services/sync.py:73-85 | the loop sets each placement's status from presence alone and counts present, lists missing and collects the tracked ids |
| `Fleet.ControlPlane.SyncNode` | control-plane/app/services/sync.py:55-93 | an adapter that cannot be built raises, an unreachable node changes nothing and yields an error report; otherwise statuses and report as computed |
| `Fleet.ControlPlane.SyncAllNodes` | control-plane/app/services/sync.py:96-111 | one report per node in order; what a node raises becomes an error report with nothing counted |
| `Fleet.ControlPlane.BulkCreateUsers` | control-plane/app/api/routes/actions.py:206-233 | results in order and the created count; nothing changes when the adapter cannot be built |
| `Fleet.ControlPlane.BulkUserAction` | control-plane/app/api/routes/actions.py:237-271 | results in order and the ok count; nothing changes when the adapter cannot be built |
| `FleetAnswers.CallOutcome` | control-plane/app/api/routes/actions.py:60-76 | a call succeeds if and only if it reaches the node, the node agrees and the answer comes back; its error text otherwise |
| `FleetAnswers.RowSays` | control-plane/app/services/audit.py:48-80 | the row of a call says when, who, what, with which parameters, on which node, about whom and how it ended, sealed over the head |
| `FleetAnswers.ParamsTell` | control-plane/app/api/routes/actions.py:216-218 | the recorded parameters read back as what the request was about |
| `FleetAnswers.TargetLeaves` | control-plane/app/services/provisioning.py:53-91 | a target asks its node for the user in its organisation; what success and failure leave in the placement, field by field |
| `FleetAnswers.UnknownTargetLeaves` | control-plane/app/services/provisioning.py:50-68 | a target on no registered node makes no call and writes no row; its placement fails with "node not found" and keeps what it had |
| `FleetAnswers.IdentityLeft` | control-plane/app/services/provisioning.py:32-41 | a new identity has the name and email given, a known one gains at most an email where it had none |
| `FleetAnswers.DeprovisionEnds` | control-plane/app/services/provisioning.py:98-134 | an unknown identity is reported and changes nothing; a known one is rolled back exactly if some placement acted on is stuck |
| `FleetAnswers.DeprovisionAsks` | control-plane/app/services/provisioning.py:108-130 | a placement acted on asks its node to delete or revoke its remote id; the row and the placement it leaves |
| `FleetAnswers.DeprovisionLeaves` | control-plane/app/services/provisioning.py:104-130 | exactly the identity's placements with a remote id on a registered node are revoked or keep the error, over any part of the loop; every other one stays |
| `FleetAnswers.BulkCreateAsks` | control-plane/app/api/routes/actions.py:214-229 | each user of a bulk create is asked for in turn, with the outcome and the row it leaves |
| `FleetAnswers.BulkActionAsks` | control-plane/app/api/routes/actions.py:245-267 | each user of a bulk action is dealt with in turn, with the outcome and the row it leaves |
| `FleetAnswers.BulkNameTells` | control-plane/app/api/routes/actions.py:247-256 | the action recorded is the one carried out |
| `FleetAnswers.SyncDecides` | control-plane/app/services/sync.py:73-85 | presence alone decides a placement's status in a sync; nothing else of it changes but the error |
| `FleetAnswers.SilentNodeReport` | control-plane/app/services/sync.py:60-71 | a node that does not answer changes nothing, and is reported as not reachable, with the error |
| `FleetAnswers.ReportNames` | control-plane/app/services/sync.py:87-89 | each untracked user is reported under the name the node gives it |
| `FleetAnswers.ReportsInOrder` | control-plane/app/services/sync.py:72-84 | a placement or a user more leaves what was listed before in front |
| `FleetAnswers.NameIsLast` | control-plane/app/services/sync.py:72-89 | of two users with one id, the later one gives the name told |
| `FleetAnswers.DefectReport` | control-plane/app/services/sync.py:104-108 | in a sweep a node whose adapter cannot be built is reported as not reachable, with that error and nothing counted, and nothing changes |
| `FleetAnswers.SweepEntryInSyncIff` | control-plane/app/services/sync.py:96-111 | each entry of a sweep shows its node in sync if and only if the adapter can be built, the node answers and both sides know the same ids; otherwise it is not reachable or says what differs |
| `FleetRuns.RunsKeepInv` | control-plane/app/models/provisioning.py:20-65 | over all interleavings of provision, deprovision, sync, bulk and single actions, with arbitrary adapter failures, adapters that cannot be built, out-of-band node changes and nodes registered, edited and deleted: one placement per identity and node, each on a registered node, none pending, `active`, `missing` and `revoked` have a remote id, and the audit chain verifies |
| `FleetRuns.RunsKeepIndex` | control-plane/app/models/provisioning.py:29-37 | usernames of identities stay unique over all of them |
| `FleetRuns.FreshFleetStaysSound` | control-plane/app/models/provisioning.py:20-65 | the same from empty tables, with the program's own hashing and serialisation and the modelled node |
| `FleetRuns.OneIdentityPerName` | control-plane/app/services/provisioning.py:32-41 | usernames stay unique, asking again finds the identity, and only an empty email is filled in |
| `FleetRuns.ProvisionCommitsIff` | control-plane/app/services/provisioning.py:49-95 | a provision commits if and only if every target is registered and its adapter can be built, and then is the plain sequence of its calls; otherwise the tables are as before |
| `FleetRuns.DeprovisionCommitsIff` | control-plane/app/services/provisioning.py:104-134 | a deprovision commits if and only if no placement it acts on is on a node whose adapter cannot be built; otherwise the tables are as before |
| `FleetRuns.AttemptWritesOneRow` | control-plane/app/api/routes/actions.py:59-76 | a mutation adds exactly one audit row, on its node, saying success exactly when the call succeeded |
| `FleetRuns.BulkCreateRows` | control-plane/app/api/routes/actions.py:214-229 | one audit row per user in order, each telling the reported outcome |
| `FleetRuns.BulkActionRows` | control-plane/app/api/routes/actions.py:245-267 | one audit row per id in order, each telling the reported outcome |
| `FleetRuns.BulkCountsMatchAudit` | control-plane/app/api/routes/actions.py:233-271 | the returned counts equal the number of success rows written |
| `FleetRuns.BulkKindsDiffer` | control-plane/app/api/routes/actions.py:247-254 | only a bulk delete removes the user; revoke, disable and enable change exactly their flag |
| `FleetRuns.DeprovisionRows` | control-plane/app/services/provisioning.py:108-130 | one audit row per placement of the identity with a remote id; identity, node and remote id of every placement unchanged |
| `FleetRuns.DeprovisionRowTells` | control-plane/app/services/provisioning.py:114-130 | the row tells how the call fared and what became of the placement |
| `AuditCounts.RunRows` | control-plane/app/services/provisioning.py:70-129 | over any run the log keeps its rows and grows by exactly the node mutations attempted, less those of requests that rolled back |
| `AuditCounts.StepRows` | control-plane/app/api/routes/actions.py:59-76 | one request adds one row per mutation it attempts, or none if it rolls back |
| `AuditCounts.ProvisionLosesIff` | control-plane/app/services/provisioning.py:49-93 | for any targets, a provision makes calls and loses their rows if and only if some target is unregistered or its adapter cannot be built, and the adapter of the first registered target can |
| `AuditCounts.DeprovisionLosesIff` | control-plane/app/services/provisioning.py:104-132 | a deprovision does if and only if it acts on a placement before the first one whose adapter cannot be built |
| `AuditCounts.CallsUpToUnready` | control-plane/app/services/provisioning.py:49-69 | up to the first target that is unregistered or cannot be built every call is made; after it at most one more, and none if its node is registered |
| `AuditCounts.RolledBackWorld` | control-plane/app/services/provisioning.py:49-93 | a rolled-back provision leaves the tables as they were and the nodes as its calls left them |
| `AuditCounts.RolledBackUsersRemain` | control-plane/app/services/provisioning.py:69-93 | for any targets, registered or not, repeated or not: a user that a call of a rolled-back provision created stays on its node, no table and no row knows of it, and the next sync reports it untracked |
| `ProvisionSites.ProvisionOneIsLocal` | control-plane/app/services/provisioning.py:53-91 | one target changes the placement of its identity on its node and no other placement |
| `ProvisionSites.OthersUntouched` | control-plane/app/services/provisioning.py:53-91 | nodes that are not targets, and placements elsewhere or of others, stay as they were |
| `ProvisionSites.EachSiteOnItsOwn` | control-plane/app/services/provisioning.py:44-95 | in a provision that commits, among distinct targets each node and placement ends as if its target alone had been provisioned, whichever other calls fail |
| `ProvisionSites.OrderIrrelevant` | control-plane/app/services/provisioning.py:44-95 | any order of the same distinct targets gives the same nodes and the same placement of everyone everywhere |
| `ProvisionSites.RequestOrderIrrelevant` | control-plane/app/services/provisioning.py:44-95 | so a request with its targets in any order ends the same way: it commits with that outcome, or leaves the tables alone |
| `ProvisionSites.ProvisionRows` | control-plane/app/services/provisioning.py:70-89 | any targets, repeated or not: one audit row per target in order, each telling how the call fared on the node as the targets before it left it |
| `ProvisionSites.RowsTellPlacements` | control-plane/app/services/provisioning.py:70-89 | a target's row says success exactly when its job leaves the placement active; the last job for a node decides how the placement ends |
| `DriftReport.ReportCountsExact` | control-plane/app/services/sync.py:58-89 | tracked = present + missing + placements without a remote id; distinct node users = tracked ids found + untracked |
| `DriftReport.ReportIsSetDifference` | control-plane/app/services/sync.py:72-89 | missing is claimed ids minus node ids, untracked is node ids minus claimed ids |
| `DriftReport.InSyncIffSameIds` | control-plane/app/services/sync.py:50-52 | in sync if and only if the node answers and the two id sets are equal |
| `DriftReport.SyncIdempotent` | control-plane/app/services/sync.py:55-93 | a second sync of an unchanged node changes no placement and gives the same report |
| `DriftReport.SweepReportsEachAlone` | control-plane/app/services/sync.py:96-111 | a sweep reports on each node as if it were swept alone, whatever fails at the others |
| `DriftReport.ProvisionKeepsInSync` | control-plane/app/services/provisioning.py:70-81 | a successful provision of someone without an earlier remote id keeps an in-sync node in sync |
| `DriftReport.ReprovisionUntracksReplacedId` | control-plane/app/services/provisioning.py:70-81 | a successful re-provision of someone present leaves nothing missing and makes exactly the replaced id untracked, unless another placement claims it |
| `DriftReport.FailedProvisionReports` | control-plane/app/services/provisioning.py:82-89 | a failed provision keeps remote id and organisation and marks the placement failed; the next report is unchanged, or shows the created user as untracked when only the reply was lost |
| `DriftReport.RevokedSurvivesSyncIff` | control-plane/app/services/sync.py:76-85 | sync keeps a placement revoked if and only if the node is silent, the placement is on another node, or it has no remote id |
| `DriftReport.DeprovisionThenSync` | control-plane/app/services/provisioning.py:111-116 | after a hard deprovision the next sync shows the placement missing, after a soft one active again |
| `Envelope.UnframeInvertsFrame` | control-plane/app/crypto/envelope.py:61-69 | unframing inverts framing at any offset, with any bytes around |
| `Envelope.FramesIff` | control-plane/app/crypto/envelope.py:61-62 | a part can be framed if and only if its length fits 32 bits |
| `Envelope.OpenInvertsSeal` | control-plane/app/crypto/envelope.py:72-101 | opening a sealed plaintext returns it for every key and nonce, trailing bytes ignored, when the parts fit 32-bit lengths |
| `Envelope.OpensIff` | control-plane/app/crypto/envelope.py:90-101 | a blob opens to a text if and only if its version is right, both parts are there, and both decrypt, the second under the text of the first |
| `Envelope.RefusesToOpen` | control-plane/app/crypto/envelope.py:92-101 | the error of a blob that does not open names the version, or the parts or a tag; a parameter that the cipher rejects raises |
| `Envelope.StrictPrefixNeverWhole` | control-plane/app/crypto/envelope.py:90-101 | every strict prefix fails the version or a header check, or keeps the wrapped key and hands the cipher a strictly shorter data part |
| `NodeHealth.MonitoredNode.CheckNode` | control-plane/app/services/health.py:57-67 | one probe folded into status and counter |
| `NodeHealth.RollUp` | control-plane/app/services/health.py:54-67 | after any probes the counter is the maximal failing suffix; unknown exactly before the first probe, reachable exactly when the suffix is empty, down exactly when it reaches the threshold or the last probe was down, degraded otherwise |
| `NodeHealth.SweepOnce` | control-plane/app/services/health.py:73-90 | a sweep folds every node's probe, or none when some adapter cannot be built |
| `NodeHealth.SweepsRollUp` | control-plane/app/services/health.py:54-90 | over any sweeps a node's record is the roll-up of exactly its probes in those not broken off |
| `NodeHealth.OneNodeStopsAll` | control-plane/app/services/health.py:34-37 | one node whose adapter cannot be built keeps every node's record as it is |
| `Bundle.SelectPairs` | control-plane/app/services/provisioning.py:161-167 | the placements selected, in order, with their nodes |
| `Bundle.SelectedExactly` | control-plane/app/services/provisioning.py:161-167 | exactly the active placements of the identity with a remote id on an existing node |
| `Bundle.StableSortCorrect` | control-plane/app/services/provisioning.py:142-168 | nondecreasing health rank, nothing lost or added, ties in placement order |
| `Bundle.HealthOrder` | control-plane/app/services/provisioning.py:142-168 | in the bundle reachable sites come first, then degraded ones, then those not yet probed, then those that are down |
| `Bundle.BuildIdentityBundle` | control-plane/app/services/provisioning.py:150-189 | an unknown identity is an error, and an exception leaves no archive exactly when some selected node's adapter cannot be built; otherwise the archive's entry names: the README, then the sorted selection numbered by position, failed sites skipped |
| `Bundle.EntryNameTells` | control-plane/app/services/provisioning.py:186-186 | an entry name is its position in at least two digits, region, site name and username |
| `Bundle.NamesExactly` | control-plane/app/services/provisioning.py:176-187 | the names are those of exactly the positions whose profile was issued |
| `Bundle.BundleInOrder` | control-plane/app/services/provisioning.py:161-187 | a placement or a site more leaves the pairs and names before it in front |
| `Bundle.NamesDistinct` | control-plane/app/services/provisioning.py:170-187 | the entry names, README included, are pairwise distinct for any number of sites |

## Left out

- Text.ReadIntOfIntText: `int(text)` is modelled on ASCII text; other Unicode digits and spaces, and the interpreter's limit of 4300 digits, are not.
- HmacAuth.VerifyAcceptsSigned: header names and methods are folded in ASCII only, and the secret's and texts' UTF-8 encoding is part of the arbitrary hash functions.
- HmacAuth.UnambiguousIff: upper-casing changes ASCII letters only, so a part of a path with other letters in lower case counts as left alone here.
- AuditLog.CanonicalInjective: texts are sequences of Unicode scalar values; lone surrogates, which the database cannot store, are not.
- SessionRuns.AcceptedRequestIsBacked: each request reads one clock; the time a request takes between its checks and the token it issues is not modelled, and a failing unseal of the TOTP secret is not either.
- SessionRuns.RunKeepsIndex: new principal ids are fresh, as random UUIDs are.
- DriftReport.ProvisionKeepsInSync: ids that nodes give to new users are nonempty.
- FleetRuns.RunsKeepInv: exceptions other than AdapterError come before the call takes effect (an adapter that cannot be built or does not implement the call), not after it (an unreadable success reply); serial requests only, since the audit head is read without a lock.
- DriftReport.SyncIdempotent: like the other reports, of nodes whose adapter can be built.
- RateLimit.GuessRateBounded: limiter calls are serial and the clock does not run back; times are real numbers.
- Email addresses on nodes and principals, timestamps of the last check or sync, latencies and creation times: stored and never decided on.
- Audit rows of the login and principal endpoints: the same append as everywhere else.
- `client address` extraction for the limiter key, bootstrap of the first admin (any initial principal table is allowed) and master-key decoding: configuration and parsing.
- `pritunl-shim/prod/shim_app.py`: thin calls into Pritunl's own modules, which are not part of this model.
- HTTP transport, retries, email delivery, the bundle's compression, migrations and the frontend: input, output and wiring.
- Dashboard sums, read endpoints and the fields of node registry edits beyond name, region and adapter: easy members only.
- `email_profile` and bundle downloads: their adapter failures are not audited per call.
