# Verified model of the payment, credential and offer cores

A Dafny model of the parts of livepeer-network-modules that decide who is charged, who is let in and which runners
serve an offer, with proofs of what those parts promise. `dafny verify dfyconfig.toml` checks all of it.

Each stateful component is modelled twice: as a value with one step function per call, about which the theorems speak,
and as a class whose methods update fields in place as the source does and are proved equal to those step functions.
Theorems about runs quantify over every sequence of calls, refused calls included.
The modules named `*Calls`, with `CredentialTokens`, say of each call exactly when it is accepted and everything it
changes, in terms of the state before it.

- **Wholesale ledger** (`Pricing`, `Ledger*`): funding, admission of signed spend authorizations and their revisions,
  advances, settlement, cancellation. Value is conserved, a revision chain never pays beyond its signed cap, and a
  settled chain has paid one ceiling, as section 6.1 of offering-axes asks.
- **Session ledger** (`Session*`): sessions priced once and debited by sequence number, on one
  cumulative curve, with the runway check.
- **Runner credentials** (`Credential*`, `SyncLimits`, `DeviceFences`, `HostMoves`): a record map with a hash and a
  host index, rotation, revocation, generation-gated full-replacement sync, and device tombstones.
- **Offer engine** (`Offer*`): matching attached runners to offers, freezing the first certified shape, replacing it by
  accept and confirm. The order in which maps are walked and what the certifier answers are arbitrary.
- **Smaller cores** (`ShapeDiff`, `IdentityKeys`, `Decimals`, `MemberReport`, `Combine*`, `RoundOrder`, `WorkDigest`).

`Sums`, `Orders` and `Optional` hold the finite sums, sorting, lexicographic order and optional values they share.

Where a promise does not hold of the code as written, the code is modelled as it is, a lemma shows an input, and another
states exactly when the promise does hold:

- A settlement records its own bill even where the chain has paid another amount, while section 6.1 of offering-axes
  asks a settlement to attest what was charged (`SettlingLowReportsLessThanPaid`, `ResettlingRewritesTheRecord`; exactly
  when it does attest: `SettlementPaysTheBill`).
- `BillFor` adds one to a quotient truncated toward zero, so it is the ceiling only for prices that are not negative
  or where the division is exact (`NegativePriceOvercharges`; `BillIsCeiling`).
- An account's version does not count inline funding kept by an admission refused for lack of credit
  (`RefusedAdmissionKeepsItsPayment`; `CreditComesFromPayments`).
- The runway check approves units that overdraw when the unit counter wraps within them, or at a negative price
  (`WrappingRunwayOverdraws`, `NegativePriceOverdraws`; `RunwayLasts`, `SplitsAreSafeExactlyWhenCovered`).
- A sync that moves a credential to another host leaves its old host index entry, and a device revocation through that
  entry succeeds without removing the grant (`StaleHostExample`; `StaleHostEscapesTheFence`, and over runs
  `FenceHoldsExactlyUnlessRegained`).
- A sync that fails midway is rolled back but still returns hosts (`FailedPushExample`; `FailedPushStillNamesHosts`).
- A sync that names one id twice need not be idempotent, nor return exactly the hosts it revoked
  (`RepeatedIdNeverSettles`; `RepeatedPushDrops`, `RevokedHostsAreExact`).
- A sync that hands a hash from one credential to another can leave a live secret out of the index
  (`SwappedHashIsLost`; `PushResolvesExactlyWhenApart`).
- A reported pass is taken for whatever shape the pair has (`StaleReportIsDispatched`;
  `ReportKeepsPassesExactlyWhenItMatches`, `AnyReportedPassIsDispatched`).
- The identity scan misses a leaf/prefix conflict hidden behind a hyphenated key (`HyphenHidesAConflict`;
  `ScanIdentity`, `OnlyHyphensMask`).
- `Combine` depends on the order of its regions when empty and non-empty wallets are mixed (`MixedWalletsExample`;
  `OrderMattersExactlyWhenMixed`).

## Model

| member | source | states |
|---|---|---|
| Pricing.BillIsCeiling | capability-broker/internal/payment/pricing.go:21-34 | the bill is the ceiling of units times price over the denominator exactly when the price is not negative or the division is exact (the quotient truncates toward zero) |
| Pricing.NegativePriceOvercharges | capability-broker/internal/payment/pricing.go:28-33 | at a price of minus one wei per two units one unit is billed 1 where the ceiling is 0 |
| Pricing.CeilingUnique | livepeer-network-protocol/protocols/offering-axes.md:115-131 | the ceiling rule leaves payer and payee no choice: at most one amount satisfies it |
| Pricing.BillMonotone | capability-broker/internal/payment/pricing.go:21-34 | at a price that is not negative more units never cost less, and no bill is negative |
| Pricing.BillIncrement | livepeer-network-protocol/protocols/offering-axes.md:124-129 | from any position on the curve n further units cost their own bill or one wei less, so chunking costs at most one rounding in all |
| Pricing.AffordableUnits | capability-broker/internal/payment/pricing.go:39-52 | a count is affordable exactly when it is at most the floor of balance times denominator over price |
| Pricing.RunwayIsGreatest | capability-broker/internal/payment/pricing.go:39-52 | the runway is the greatest affordable count, or the int64 maximum where that is smaller |
| Pricing.RunwayIsSafeFromAnywhere | capability-broker/internal/payment/pricing.go:36-52 | a runway computed from the balance alone is covered wherever on the curve the session already stands |
| Pricing.NoDenominatorIsOne | capability-broker/internal/payment/pricing.go:25-27 | a denominator left out is one: each unit costs the price, at any price |
| LedgerClient.Mock.MockAccount | capability-broker/internal/payment/mock.go:81-92 | an account looked up for the first time appears with its float; a known one is left alone |
| LedgerClient.Mock.FundWholesaleAccount | capability-broker/internal/payment/mock.go:101-116 | new ledger and answer of a funding call, an empty payment being refused; the ledger invariant is kept |
| LedgerClient.Mock.AdmitAuthorization | capability-broker/internal/payment/mock.go:118-189 | new ledger and answer of an admission: malformed, misidentified, canceled, replayed, mismatched or new; the ledger invariant is kept |
| LedgerClient.Mock.AdmitFresh | capability-broker/internal/payment/mock.go:145-188 | the admission of an unseen key: predecessor, remaining cap, inline funding kept on refusal, supersession, hold |
| LedgerClient.Mock.AdvanceAuthorization | capability-broker/internal/payment/mock.go:191-226 | new ledger and answer of an advance: charge the difference of two cumulative bills and move the hold to the target, or refuse; the ledger invariant is kept |
| LedgerClient.Mock.SettleAuthorization | capability-broker/internal/payment/mock.go:228-263 | new ledger and answer of a settlement, in whatever state the authorization is; a bill below what was billed owes nothing; the ledger invariant is kept |
| LedgerClient.Mock.CancelAuthorizationAdmission | capability-broker/internal/payment/mock.go:789-811 | new ledger and answer of a cancellation: fence an unseen key, or answer from the admitted record; the ledger invariant is kept |
| LedgerInvariant.AdmitKeeps | capability-broker/internal/payment/mock.go:118-189 | every admission, refused or not, keeps conservation, exact holds, caps and links |
| LedgerInvariant.AdvanceKeeps | capability-broker/internal/payment/mock.go:191-226 | every advance keeps them |
| LedgerInvariant.SettleKeeps | capability-broker/internal/payment/mock.go:228-263 | every settlement keeps them |
| LedgerInvariant.CancelKeeps | capability-broker/internal/payment/mock.go:789-811 | every cancellation keeps them |
| LedgerInvariant.StepKeeps | capability-broker/internal/payment/mock.go:81-263 | every call keeps them |
| LedgerInvariant.EveryRunIsValid | capability-broker/internal/payment/mock.go:81-263 | after every run, failures included, each account has credited = available + reserved + debited with all of them non-negative, reserved is exactly the sum of its authorizations' holds, no admitted authorization exceeds its cap, the others hold nothing, and no key is both admitted and canceled |
| LedgerRuns.KnownAuthEvolves | capability-broker/internal/payment/mock.go:118-263 | all that any call can do to one authorization, and the charge it makes in its name |
| LedgerRuns.NewKeyIsAdmitted | capability-broker/internal/payment/mock.go:146-187 | a key appears only by its own admission, on an admitted predecessor, and starts from what that one billed |
| LedgerRuns.OnlyTheTipIsCharged | capability-broker/internal/payment/mock.go:177-182 | of a chain of revisions only the newest can be charged |
| LedgerRuns.EveryChainIsLawful | capability-broker/internal/payment/mock.go:157-163 | in every run what a whole revision chain was debited equals the bill of its admitted tip, and with what the tip still holds never exceeds the tip's signed cap, repeated settlements included |
| LedgerRuns.ChainOf | capability-broker/internal/payment/mock.go:146-156 | every authorization is the tip of such a chain |
| LedgerFates.SettlementPaysTheBill | capability-broker/internal/payment/mock.go:241-260 | settling the tip of any chain, in any state, succeeds exactly when its hold covers what is owed; the record then reports the bill, an admitted chain has paid the larger of bill and earlier billing and a closed one nothing more, so the record reports what was paid exactly when an admitted tip had not billed more or a closed chain had already paid just that |
| LedgerFates.OnePriceChainIsOnTheCurve | capability-broker/internal/payment/mock.go:200-224 | however it was advanced and revised, the admitted tip of a one-price chain has billed exactly the curve at its unit count |
| LedgerFates.ClosedChainPaysNoMore | capability-broker/internal/payment/mock.go:205-207 | once its tip is settled or superseded the chain pays nothing more, whatever is called |
| LedgerFates.SettledChainPaidOneCeiling | livepeer-network-protocol/protocols/offering-axes.md:137-140 | a settled one-price chain has paid a single ceiling over the larger of the settled and the advanced units, whatever the chunking, the revisions and the calls that follow |
| LedgerFates.SettlingLowReportsLessThanPaid | capability-broker/internal/payment/mock.go:245-256 | a concrete run where the settled record reports 3 wei and 5 were charged |
| LedgerFates.ResettlingRewritesTheRecord | capability-broker/internal/payment/mock.go:245-260 | a concrete run where settling a second time rewrites the record from the 5 wei paid to 3 |
| LedgerFates.FateIsFinal | capability-broker/internal/payment/mock.go:205-259 | a settled or superseded authorization never becomes admitted again, holds nothing, and no call naming it moves money |
| LedgerFates.FateIsFinalForever | capability-broker/internal/payment/mock.go:177-259 | over every later run it stays closed, holds nothing, and any call naming it then moves no money |
| LedgerFates.AdmittedRetryIsSilent | capability-broker/internal/payment/mock.go:139-144 | admitting a known key again changes nothing, and is answered from the record exactly when the bytes are the same |
| LedgerFates.FatesExcludeEachOther | capability-broker/internal/payment/mock.go:134-144 | over every later run admitted bytes stay admitted and cannot be canceled, canceled bytes stay canceled and cannot be admitted, and repeating either call changes nothing |
| LedgerFates.DebitsAreAttributed | capability-broker/internal/payment/mock.go:217-224 | an account's debits are exactly the sum of what its authorizations paid |
| LedgerFates.AdmitAccounts | capability-broker/internal/payment/mock.go:164-188 | an admission debits and cancels nothing; it changes an account without a new version exactly when a funded, well-formed, unseen admission within its cap asks for more than account, payment and predecessor's hold together |
| LedgerFates.CreditComesFromPayments | capability-broker/internal/payment/mock.go:101-176 | credit enters an account one payment at a time, and its version misses a change exactly in that case, stated before the call |
| LedgerFates.RefusedAdmissionKeepsItsPayment | capability-broker/internal/payment/mock.go:164-176 | a concrete admission that is refused, keeps its payment and leaves the version |
| LedgerCalls.AdvanceIsExact | capability-broker/internal/payment/mock.go:200-225 | an advance is accepted exactly when the authorization is admitted, neither bill nor sequence falls back, and bill and target fit the cap and the credit; then the target is what is held, the difference of bills what is charged, and only this record and account change; a refusal changes nothing |
| LedgerCalls.AdvanceRefusals | capability-broker/internal/payment/mock.go:205-216 | which refusal an advance gets |
| LedgerCalls.SettleIsExact | capability-broker/internal/payment/mock.go:241-262 | a settlement is accepted exactly when the hold covers what is owed; it takes that from the hold, frees the rest and closes the record at the units it names; a refusal changes nothing |
| LedgerCalls.AdmitIsExact | capability-broker/internal/payment/mock.go:118-189 | unseen bytes are admitted exactly when the hold they ask for fits the cap left by the predecessor's bill and the credit with payment and predecessor's hold; then the record holds just that, continues the predecessor's bill, units and sequence, and supersedes it |
| LedgerCalls.AdmitRefusals | capability-broker/internal/payment/mock.go:150-176 | which refusal unseen bytes get |
| LedgerCalls.SeenOrMalformed | capability-broker/internal/payment/mock.go:119-144 | other bytes change nothing; known ones are answered from their record |
| LedgerCalls.FundIsExact | capability-broker/internal/payment/mock.go:101-116 | a payment raises credit and available of its account by the fixed amount, and no other account changes |
| LedgerCalls.CancelIsExact | capability-broker/internal/payment/mock.go:789-811 | a cancellation fences exactly a key neither known nor canceled under other bytes, and answers with the record exactly where the key is known under these |
| LedgerCalls.CanceledBytesStayOut | capability-broker/internal/payment/mock.go:134-138 | bytes canceled before they were seen are refused at every later point of every run |
| LedgerCalls.CreditIsFloatAndPayments | capability-broker/internal/payment/mock.go:109-171 | in every run an account's credit is its float and one fixed amount per payment kept |
| LedgerCalls.RecordTellsItsLastCall | capability-broker/internal/payment/mock.go:177-260 | in every run each record has the units, sequence number and bill of the last call accepted about it, and holds the amount that call asked for until a revision takes it over |
| SessionClient.MockSessions.OpenSession | capability-broker/internal/payment/mock.go:337-379 | new book and answer of an open: price once, refuse another price; every session stays on its curve |
| SessionClient.MockSessions.ProcessPayment | capability-broker/internal/payment/mock.go:381-466 | new book and answer of a payment: closed sessions take none, the first payment seals the sender, a signed price must be the session's; every session stays on its curve |
| SessionClient.MockSessions.DebitBalance | capability-broker/internal/payment/mock.go:494-549 | new book and answer of a debit: replays by sequence number, else one step along the cumulative curve in uint64; every session stays on its curve |
| SessionClient.MockSessions.SufficientBalance | capability-broker/internal/payment/mock.go:556-587 | the answer of the runway check |
| SessionClient.MockSessions.CloseSession | capability-broker/internal/payment/mock.go:606-626 | new book and answer of a close; every session stays on its curve |
| Sessions.CallKeeps | capability-broker/internal/payment/mock.go:305-626 | every call keeps each session on its cumulative curve |
| Sessions.EverySessionPaysItsBill | capability-broker/internal/payment/mock.go:521-548 | in every run a session has been charged exactly the bill of the sum of units over its distinct debits, modulo 2^64, whatever the order, split or repetition |
| Sessions.BalanceIsCreditLessBill | capability-broker/internal/payment/mock.go:459-548 | a balance is what payments credited less what debits charged |
| Sessions.RunwayLasts | capability-broker/internal/payment/mock.go:575-582 | an open session at a price that is not negative approves n units exactly when no split of them, with any other calls in between, ever overdraws it, unless the counter would wrap within them, where the exact bound is the last unit before the wrap; at a negative price the exact condition is that every position on the way is covered |
| Sessions.SplitsAreSafeExactlyWhenCovered | capability-broker/internal/payment/mock.go:530-542 | at any price, wrapping or not, no split of n units overdraws exactly when the balance covers every position on the way |
| Sessions.WrappingRunwayOverdraws | capability-broker/internal/payment/mock.go:579-582 | a run from no sessions to two units before the wrap, where five are approved and the first overdraws |
| Sessions.NegativePriceOverdraws | capability-broker/internal/payment/mock.go:579-582 | a run from no sessions at a negative price, where two units are approved and the first overdraws |
| Sessions.RunwayIsExact | capability-broker/internal/payment/mock.go:575-582 | the check approves n units exactly when debiting them at once would not overdraw |
| SessionCalls.PayIsExact | capability-broker/internal/payment/mock.go:381-466 | a payment is credited exactly when the open session takes it, and the first one seals the sender even where its price is refused |
| SessionCalls.DebitIsExact | capability-broker/internal/payment/mock.go:494-549 | a debit is applied exactly when the session takes debits from its sender and has not seen its number; the step, the charge and the log entry it makes, and nothing else |
| SessionCalls.OpenIsExact | capability-broker/internal/payment/mock.go:337-379 | the first opening prices the session, and a later one is refused exactly when it names another price |
| SessionCalls.CloseIsExact | capability-broker/internal/payment/mock.go:606-626 | a session is closed exactly by its sealed sender, or by anyone before it is sealed |
| SessionCalls.IssueIsExact | capability-broker/internal/payment/mock.go:305-326 | asking for parameters creates an unpriced session where there is none |
| SessionCalls.ClosedForGood | capability-broker/internal/payment/mock.go:606-626 | after any later calls a closed session has the same balance and log, takes no debit or payment, and has no runway |
| SessionCalls.CallsSettle | capability-broker/internal/payment/mock.go:305-626 | over every run a set price, a sealed sender and a closing stay as they are, and the log only grows |
| SessionCalls.RunwayAnswers | capability-broker/internal/payment/mock.go:556-587 | who the runway check answers, and what it says of closed and unpriced sessions and negative counts |
| SessionCalls.DebitsAreTheFirstCalls | capability-broker/internal/payment/mock.go:517-548 | in every run the recorded debits are exactly the debit calls taken, each with the units of its first call |
| CredentialStore.RunnerCredentials.FilterRevokedDevices | capability-broker/internal/credentialstore/device_fences.go:68-89 | the grants left are exactly those above their fence |
| CredentialStore.RunnerCredentials.WriteRecord | capability-broker/internal/credentialstore/credentialstore.go:699-708 | a record is stored with its fenced grants removed, and nothing else changes |
| CredentialStore.RunnerCredentials.PutRecord | capability-broker/internal/credentialstore/credentialstore.go:680-697 | a record is stored and both indexes point to it |
| CredentialStore.RunnerCredentials.EnrollHost | capability-broker/internal/credentialstore/credentialstore.go:235-310 | new store and answer of an enrollment, replay and refusals included |
| CredentialStore.RunnerCredentials.AuthenticateToken | capability-broker/internal/credentialstore/credentialstore.go:315-373 | new store and answer of an authentication, retiring an elapsed previous secret |
| CredentialStore.RunnerCredentials.RotateToken | capability-broker/internal/credentialstore/credentialstore.go:438-479 | new store and answer of a rotation; only one previous secret is kept |
| CredentialStore.RunnerCredentials.CloseRecord | capability-broker/internal/credentialstore/credentialstore.go:500-515 | secrets, index entries and state of a revoked credential |
| CredentialStore.RunnerCredentials.RevokeCredential | capability-broker/internal/credentialstore/credentialstore.go:483-498 | revoke a known credential and return its closed record, or report it unknown |
| CredentialStore.RunnerCredentials.ReadPush | capability-broker/internal/credentialstore/credentialstore.go:524-540 | the first malformed entry's error, else the push keyed by credential |
| CredentialStore.RunnerCredentials.RevokeDropped | capability-broker/internal/credentialstore/credentialstore.go:541-567 | exactly the live synced credentials left out or marked revoked are closed, in whatever order, and their hosts collected |
| CredentialStore.RunnerCredentials.ApplyPushed | capability-broker/internal/credentialstore/credentialstore.go:568-616 | one entry's effect: skipped, refused, or written with its stale hash dropped |
| CredentialStore.RunnerCredentials.ApplyAllPushed | capability-broker/internal/credentialstore/credentialstore.go:568-616 | the entries in order, up to the first that is refused |
| CredentialStore.RunnerCredentials.SyncPush | capability-broker/internal/credentialstore/credentialstore.go:521-621 | new store, sorted revoked hosts and error of a full replacement; an error rolls the store back but not the hosts |
| CredentialStore.RunnerCredentials.FenceDevice | capability-broker/internal/credentialstore/device_fences.go:27-67 | new store and error of a device revocation |
| CredentialStore.RunnerCredentials.IsDeviceRevoked | capability-broker/internal/credentialstore/device_fences.go:90-109 | whether the fence covers the generation |
| Credentials.RevokeOne | capability-broker/internal/credentialstore/credentialstore.go:500-515 | revoking one of a set, as the three bucket updates |
| CredentialIndex.StepKeeps | capability-broker/internal/credentialstore/credentialstore.go:235-697 | every transaction keeps each live secret indexed to its own credential and every other index entry under the credential that owned it |
| CredentialIndex.RunKeeps | capability-broker/internal/credentialstore/credentialstore.go:235-697 | and so does every run |
| CredentialIndex.AuthenticateIsAScan | capability-broker/internal/credentialstore/credentialstore.go:315-373 | in every reachable store the index accepts a token exactly when some record honours it (not revoked, current before expiry or previous before the end of its grace), and answers with that record, stale entries notwithstanding |
| CredentialSecrets.ResolvedIsAScan | capability-broker/internal/credentialstore/credentialstore.go:315-352 | in any store whose live secrets all resolve, the index accepts a token exactly when some record honours it, and answers with that record |
| CredentialSecrets.PushResolvesExactlyWhenApart | capability-broker/internal/credentialstore/credentialstore.go:568-616 | a push with distinct ids keeps every live secret resolved exactly when it fails or no later entry takes a secret an entry has written and none takes one of a live credential it does not write; nothing is assumed about who owns a hash |
| CredentialSecrets.RunResolves | capability-broker/internal/credentialstore/credentialstore.go:235-697 | and so does every run whose minted secrets are nobody else's at the time and whose pushes keep secrets apart |
| CredentialSecrets.AuthenticateIsAScanWhereApart | capability-broker/internal/credentialstore/credentialstore.go:315-373 | in every such run the index lookup equals the linear scan |
| SyncLimits.SwappedHashIsLost | capability-broker/internal/credentialstore/credentialstore.go:594-613 | two credentials that swap hashes in one push: the first is live with a secret the index does not hold |
| CredentialIndex.SyncRespectsGenerations | capability-broker/internal/credentialstore/credentialstore.go:583-597 | a push never lowers a generation, never revives a closed generation-qualified or enrolled credential, and never changes a live secret within one nonzero generation |
| CredentialIndex.RevokedForGood | capability-broker/internal/credentialstore/credentialstore.go:500-515 | after such a credential is revoked no later run accepts any secret that is its, at any time |
| CredentialIndex.EnrollmentReplays | capability-broker/internal/credentialstore/credentialstore.go:242-248 | a recorded request is answered with the same record and secret after any run, and changes nothing |
| CredentialSync.EntriesActAlone | capability-broker/internal/credentialstore/credentialstore.go:568-616 | with distinct ids each entry acts on the record the push started from and on no other |
| CredentialFates.EntriesFollowTheirIds | capability-broker/internal/credentialstore/credentialstore.go:568-616 | in any push that goes through, repeated ids included, each record stands as the entries naming it leave it, in turn |
| CredentialFates.FateIsAsNamed | capability-broker/internal/credentialstore/credentialstore.go:575-612 | a record that stands is live exactly when it was, or a live entry names it and it is not a closed generation-qualified one |
| CredentialSync.PushFailsExactlyWhenAnIdIsRefused | capability-broker/internal/credentialstore/credentialstore.go:524-616 | any push fails exactly when an entry is malformed or, after the sweep, some id's own entries are refused |
| CredentialSync.PushFailsExactlyWhenRefused | capability-broker/internal/credentialstore/credentialstore.go:524-616 | a push with distinct ids fails exactly when an entry is malformed or refused by the record it names |
| CredentialSync.LiveSetIsThePush | capability-broker/internal/credentialstore/credentialstore.go:541-616 | after any successful push the live synced credentials are exactly those a live entry names, less generation-qualified ones already revoked or dropped by the sweep, and enrolled records are untouched |
| CredentialSync.RevokedHostsAreExact | capability-broker/internal/credentialstore/credentialstore.go:517-567 | after any successful push the hosts returned are exactly those of records that went from live to revoked, just when no credential is both dropped and revived by it |
| CredentialSync.DistinctIdsReviveNobody | capability-broker/internal/credentialstore/credentialstore.go:555-567 | a push with distinct ids revives nobody it drops |
| CredentialSync.EnrolledAuthenticateAsBefore | capability-broker/internal/credentialstore/credentialstore.go:517-520 | a token resolves to an enrolled record after a push exactly as before it |
| CredentialSync.SyncIsIdempotent | capability-broker/internal/credentialstore/credentialstore.go:517-621 | repeating a successful push at the same time changes nothing and returns no hosts |
| CredentialSync.RepeatedPushDrops | capability-broker/internal/credentialstore/credentialstore.go:517-567 | repeating any successful push finds nobody to revoke exactly when no id ends up live although its last entry is revoked |
| SyncLimits.RepeatedIdNeverSettles | capability-broker/internal/credentialstore/credentialstore.go:517-616 | a push naming one credential live and then revoked succeeds, returns its host and leaves it live, every time |
| DeviceFences.RunKeepsFences | capability-broker/internal/credentialstore/device_fences.go:25-89 | over every run fences only grow, and the record a host index names grants nothing its fences forbid if it is still that host's |
| DeviceFences.DeviceStaysRevoked | capability-broker/internal/credentialstore/device_fences.go:27-109 | after a revocation every later store reports every generation up to it revoked, and the record indexed under the host, if it is that host's and in that pool, grants the device only above it |
| HostMoves.RunKeepsHosts | capability-broker/internal/credentialstore/credentialstore.go:598-613 | in every run whose pushes move no known credential every host index entry names a record of that host |
| HostMoves.DeviceStaysRevokedWhereHostsStay | capability-broker/internal/credentialstore/device_fences.go:27-109 | in such runs the record indexed under the host and pool grants the device only above the revoked generation, with no proviso |
| HostMoves.StaleHostEscapesTheFence | capability-broker/internal/credentialstore/device_fences.go:46-65 | a successful revocation leaves the indexed record granting the device exactly when it wrote nothing and it did so before, or the record it found has moved to another host and is granted it there unfenced |
| HostMoves.PushEscapesExactlyWhenItRegains | capability-broker/internal/credentialstore/credentialstore.go:568-616 | a push with distinct ids undoes a fence that held exactly when it rewrites the credential indexed under the host, elsewhere in the same pool, with the device at or below the fence and unfenced there, and writes nobody at the host |
| HostMoves.StepEscapesExactlyWhenItRegains | capability-broker/internal/credentialstore/device_fences.go:25-89 | no other call ever does |
| HostMoves.FenceHoldsExactlyUnlessRegained | capability-broker/internal/credentialstore/device_fences.go:25-89 | over a whole run the fence holds at every point exactly when no push of it regains the grant |
| HostMoves.StaleHostExample | capability-broker/internal/credentialstore/credentialstore.go:598-613 | two pushes and one revocation that reach such a store |
| SyncLimits.UngeneratedIsRevivable | capability-broker/internal/credentialstore/credentialstore.go:583-613 | a revoked synced credential without a generation is revived, with any secret, by one push |
| SyncLimits.FailedPushStillNamesHosts | capability-broker/internal/credentialstore/credentialstore.go:555-567 | any push that fails changes nothing, and returns hosts exactly when it is well formed, some id's entries are refused after the sweep, and the sweep had something to drop |
| SyncLimits.FailedPushExample | capability-broker/internal/credentialstore/credentialstore.go:561-582 | a synced credential left out of a push that names an enrolled id: refused, unchanged, hosts returned |
| CredentialIndex.HolderAnswers | capability-broker/internal/credentialstore/credentialstore.go:324-362 | a lookup that ends at a secret's holder is accepted exactly before the record's expiry for the current secret, or before the overlap ends for the previous one, and answers with that record |
| CredentialTokens.OpensItsHolder | capability-broker/internal/credentialstore/credentialstore.go:315-373 | with every live secret resolved, a live record's secret opens that record or nothing |
| CredentialTokens.UseIsRecorded | capability-broker/internal/credentialstore/credentialstore.go:350-361 | an accepted token leaves its record as answered, a refused one leaves the store alone |
| CredentialTokens.EnrollIsExact | capability-broker/internal/credentialstore/credentialstore.go:235-310 | an enrollment is granted exactly for a bearer token within the maximum lifetime at a host without a live credential; the token then opens it for exactly that lifetime |
| CredentialTokens.GrantedRequestReplays | capability-broker/internal/credentialstore/credentialstore.go:242-248 | a granted request with an id is answered alike after any later calls, and mints no second credential |
| CredentialTokens.RotatedTokens | capability-broker/internal/credentialstore/credentialstore.go:438-479 | after a rotation the new token opens for the default lifetime, the replaced one for the overlap, and the one before not at all |
| CredentialTokens.RotateRefusals | capability-broker/internal/credentialstore/credentialstore.go:450-459 | which rotations are refused, changing nothing |
| CredentialTokens.RevokedTokenIsRefused | capability-broker/internal/credentialstore/credentialstore.go:500-515 | a revoked credential is closed as of now, without secrets, and those it had are refused at once |
| CredentialTokens.RevokingIsForGood | capability-broker/internal/credentialstore/credentialstore.go:483-515 | revoking a locally enrolled or generation-qualified credential: no later run accepts any of its secrets |
| CredentialTokens.PushIsMalformed | capability-broker/internal/credentialstore/credentialstore.go:525-541 | a push is malformed exactly when an entry lacks an id or a host, names another kind, or is live without 64 hex digits |
| CredentialTokens.EntryIsJudged | capability-broker/internal/credentialstore/credentialstore.go:570-622 | exactly which entries write and which are refused, and everything a written record says |
| CredentialTokens.PushFailsExactly | capability-broker/internal/credentialstore/credentialstore.go:521-622 | a push with distinct ids fails exactly when an entry is malformed or must be refused, on the store before it |
| CredentialTokens.PushWrites | capability-broker/internal/credentialstore/credentialstore.go:594-621 | a successful push leaves each writing entry's record as the entry says, with its fenced grants removed |
| CredentialTokens.PushedTokenOpens | capability-broker/internal/credentialstore/credentialstore.go:642-653 | a pushed token opens its record exactly before the stated expiry cut to the maximum, else the record's own, else the default |
| CredentialTokens.OrdinaryPushOpens | capability-broker/internal/credentialstore/credentialstore.go:623-641 | a new credential pushed without an expiry opens for the default lifetime, so it is not dead on arrival |
| CredentialTokens.FenceIsExact | capability-broker/internal/credentialstore/device_fences.go:27-66 | exactly which device revocations are accepted, and that an accepted one raises the fence and takes the grant away |
| OfferEngine.OfferBoard.EvaluatePair | capability-broker/internal/offers/engine.go:496-574 | one pair and its offer's state after evaluation: rejoin, certify, freeze or judge |
| OfferEngine.OfferBoard.WalkCapability | capability-broker/internal/offers/engine.go:449-463 | one capability against exactly the offers it matches, in any order |
| OfferEngine.OfferBoard.RematchPairs | capability-broker/internal/offers/engine.go:431-479 | the loops stop at exactly the live combinations in scope, in some order, and prune the rest |
| OfferEngine.OfferBoard.RecordCertification | capability-broker/internal/offers/engine.go:670-677 | record the outcome if the pair exists, then rematch its host |
| OfferEngine.OfferBoard.SetOffersTo | capability-broker/internal/offers/engine.go:231-255 | new offers, states and pairs after a replacement |
| OfferEngine.OfferBoard.ChangedOffers | capability-broker/internal/offers/engine.go:285-299 | the sorted ids whose offer the push replaces, adds or leaves out, and no others |
| OfferEngine.OfferBoard.PushOffers | capability-broker/internal/offers/engine.go:280-312 | replace and rematch unless no id changed and the revision is the same |
| OfferEngine.OfferBoard.ConfirmPublished | capability-broker/internal/offers/engine.go:387-404 | the accepted shape with that hash becomes the frozen one, then rematch; an unknown offer is an error |
| OfferEngine.OfferBoard.CandidateRunners | capability-broker/internal/offers/engine.go:601-635 | a candidate of that shape whose runner is declared, if there is one, and with it runners of that shape including every candidate |
| OfferEngine.FirstRunner | capability-broker/internal/offers/engine.go:640-645 | the runner listed first by host and local id |
| OfferEngine.OfferBoard.CountPairs | capability-broker/internal/offers/engine.go:366-378 | how many pairs of the offer are eligible and ineligible |
| OfferEngine.OfferBoard.AcceptShape | capability-broker/internal/offers/engine.go:331-383 | on any world: the error that applies, or the shape accepted with a candidate's declared projection and in the name of a runner no candidate precedes, with the counts after the rematch |
| OfferEngine.OfferBoard.DispatchPairs | capability-broker/internal/offers/engine.go:843-863 | exactly the passed pairs of the published shape, listed by host and local id |
| OffersSettled.EvaluateStabilises | capability-broker/internal/offers/engine.go:496-574 | an evaluated pair is stable, and an offer's state changes only by freezing the evaluated shape where it had none |
| OffersSettled.SettledPairsAreExact | capability-broker/internal/offers/engine.go:443-472 | in a settled world the pairs are exactly the matching connected combinations with current shapes, and a passed pair is eligible exactly when its shape is the judged one and ineligible otherwise |
| OffersSettled.RematchSettles | capability-broker/internal/offers/engine.go:431-583 | a rematch settles the world, in whatever order the maps are walked and whatever the certifier answers |
| OffersSettled.RematchIsIdempotent | capability-broker/internal/offers/engine.go:431-583 | rematching a settled world again, in any order and at any time, changes nothing |
| OffersSettled.ReusedLocalIdNeverSettles | capability-broker/internal/offers/engine.go:509-529 | where a host declares two shapes under one local id each visit discards the other's certification |
| OffersSettled.StepSettles | capability-broker/internal/offers/engine.go:231-479 | every call, with the rematch it ends with, leaves the world settled |
| OfferShapes.FrozenMovesOnlyByConfirm | capability-broker/internal/offers/engine.go:387-404 | a frozen shape stays until its offer is dropped by a push or its accepted successor is confirmed; only an accept changes the accepted one otherwise |
| OfferShapes.RunnersCannotMoveShapes | capability-broker/internal/offers/engine.go:539-574 | attaching, detaching and certification change no offer and move no shape that exists |
| OfferShapes.ReshapeKeepsVerdicts | capability-broker/internal/offers/engine.go:356-365 | the rematch after a change of shapes alone keeps every certification and every pair |
| OfferShapes.AcceptKeepsDispatch | capability-broker/internal/offers/engine.go:356-365 | accepting a shape leaves what is dispatched exactly as it was, for every offer |
| OfferShapes.ConfirmSwitchesDispatch | capability-broker/internal/offers/engine.go:394-403 | confirming the accepted shape switches dispatch to exactly its passed pairs; any other confirmation changes no dispatch |
| OfferShapes.AcceptIsCoherent | capability-broker/internal/offers/engine.go:617-624 | in a settled world the projection read from the registry is the one the pair's hash was taken of |
| OfferShapes.SettledCandidates | capability-broker/internal/offers/engine.go:617-634 | in a settled world every certified pair of another shape is a candidate with the projection of its hash, so the order of the walk does not matter |
| OfferShapes.EveryWorldIsSettled | capability-broker/internal/offers/engine.go:231-479 | every world of every run from a settled one is settled and every shape carries the projection of its hash |
| OfferShapes.EveryWorldFromNewIsSettled | capability-broker/internal/offers/engine.go:231-479 | and so is every world reached from a new engine and an empty registry |
| OfferShapes.FrozenWasJudged | capability-broker/internal/offers/engine.go:539-583 | every frozen shape of every run is or was the judged one |
| OfferPasses.EveryPassIsCurrent | capability-broker/internal/offers/engine.go:509-555 | in every run whose certifier answers and reports are about the shape they are given for, each pass is of its pair's shape and each frozen or accepted shape names a run that was of it |
| OfferPasses.DispatchIsOfTheCurrentShape | capability-broker/internal/offers/engine.go:843-855 | each pair dispatched then is a declared runner whose present shape is the published one and whose pass was of that shape |
| OfferPasses.ReportKeepsPassesExactlyWhenItMatches | capability-broker/internal/offers/engine.go:670-675 | recording an outcome keeps this exactly when the run was of the pair's shape at that moment |
| OfferPasses.StaleReportIsDispatched | capability-broker/internal/offers/engine.go:668-677 | a run from a new engine in which a pair is dispatched on any run id reported for it; where that run was of another shape the pass is not current |
| OfferPasses.AnyReportedPassIsDispatched | capability-broker/internal/offers/engine.go:668-677 | a pass reported for a pair of a shaped offer is dispatched exactly when the pair's shape is the published one, whatever shape the run was of |
| OfferCalls.ShapesAgree | capability-broker/internal/runnerattach/runnerattach.go:775-802 | two projections are equal exactly when the runners agree in protocol, identity, other frozen fields and every promoted extension either declares |
| OfferCalls.MatchesMeansWants | capability-broker/internal/offers/engine.go:481-492 | an offer matches exactly a runner of its capability and protocol whose identity has every wanted value, named with or without the prefix |
| OfferCalls.PairsAreTheWanted | capability-broker/internal/offers/engine.go:431-479 | in a settled world the pairs are exactly the connected runners an offer wants |
| OfferCalls.EligibleMeansSameShape | capability-broker/internal/offers/engine.go:557-574 | a passed pair is eligible exactly when its runner agrees in all of these with the one its offer is judged by |
| OfferCalls.AcceptIsExact | capability-broker/internal/offers/engine.go:331-383 | accepting a waiting shape records it as pending in its runner's name and makes exactly its passed pairs eligible; any other accept changes nothing |
| OfferCalls.AcceptThenConfirm | capability-broker/internal/offers/engine.go:331-404 | accepting a waiting shape and confirming it dispatches the offer to exactly the runners certified in it, and every other offer as before |
| OfferCalls.CertificationFollowsTheShape | capability-broker/internal/offers/engine.go:512-534 | after every call a pair's certification is the one just reported, or the one it had while its shape stays, or the certifier's answer |
| OfferCalls.PushIsExact | capability-broker/internal/offers/engine.go:231-313 | exactly which pushes are ignored; any other leaves the offers listed, keeps the states of kept ones and starts new ones without shape |
| OfferCalls.ChangedMeansHeldOtherwise | capability-broker/internal/offers/engine.go:285-302 | with distinct ids a push reports exactly the ids whose offer it adds, replaces or drops; repeated ids may add to the report and never take from it |
| OfferCalls.DisableIsExact | capability-broker/internal/offers/engine.go:407-424 | disabling changes one flag and nothing else |
| OfferCalls.AttachIsExact | capability-broker/internal/offers/engine.go:431-440 | an attach event replaces what its host declares and leaves the offers alone |
| OfferCalls.DispatchIsExact | capability-broker/internal/offers/engine.go:843-863 | what dispatch may use: exactly the passed pairs of the published shape |
| OfferCalls.PairMoves | capability-broker/internal/offers/engine.go:505-569 | a pair met with a new shape starts over as matched and waits there while its certification is pending; exactly when its date moves |
| OfferOrigins.EveryShapeHasItsRunner | capability-broker/internal/offers/engine.go:541-556 | in every run every frozen and accepted shape was taken, at the call that dates it, from the connected and certified runner it names |
| OfferOrigins.EligibleLikeItsModel | capability-broker/internal/offers/engine.go:536-574 | in every run a certified runner is eligible exactly when it presents the shape of that runner as it was declared then |
| ShapeDiff.DiffReplays | capability-broker/internal/runnerattach/runnerattach.go:828-865 | replaying every reason onto the candidate yields the frozen tree, up to null-valued keys |
| ShapeDiff.DiffIsEmptyIffAgree | capability-broker/internal/runnerattach/runnerattach.go:828-865 | the diff is empty exactly when the trees agree, up to null-valued keys |
| ShapeDiff.DiffNamesDisagreements | capability-broker/internal/runnerattach/runnerattach.go:839-865 | every reason names a path where the trees hold the two different values it reports, and no reported path is a prefix of another |
| IdentityKeys.KeysAreDottedSegments | capability-broker/internal/runnerattach/runnerattach.go:178 | a text is an identity key exactly when it is one or more segments joined by dots, each a letter followed by letters, digits, underscores and hyphens |
| IdentityKeys.ScanIdentity | capability-broker/internal/runnerattach/runnerattach.go:555-570 | the leaves reported are exactly the conflicted keys that are not masked by one that sorts before the dot, each with a key that lies under it |
| IdentityKeys.NeighbourDecides | capability-broker/internal/runnerattach/runnerattach.go:565-569 | a key's sorted successor lies under it exactly when the key is conflicted and not masked |
| IdentityKeys.OnlyHyphensMask | capability-broker/internal/runnerattach/runnerattach.go:178-178 | among keys of the grammar only an extension by a hyphen masks, so without hyphens the scan misses no conflict |
| IdentityKeys.HyphenHidesAConflict | capability-broker/internal/runnerattach/runnerattach.go:565-569 | the conflict of a and a.b goes unreported beside a-b |
| Decimals.NumberInvertsRender | pool-commons/memberreport/aggregate.go:36-42 | a text is accepted as an amount exactly when it is that amount's own rendering |
| Decimals.KeysAreInjective | pool-commons/memberreport/aggregate.go:52-52 | both text keys determine the period, even for assets that contain slashes |
| MemberReport.ValidateAmounts | pool-commons/memberreport/aggregate.go:58-72 | the categories are canonical amounts that add up to what was earned |
| MemberReport.ValidateAttribution | pool-commons/memberreport/aggregate.go:73-82 | every source and payment is the pool's own and dated inside the window |
| MemberReport.Validate | pool-commons/memberreport/aggregate.go:45-85 | a report is accepted exactly when it is the pool's and wallet's, observed, its windows are sound, and no window id or period repeats |
| CombineReports.Admissible | pool-commons/memberreport/aggregate.go:94-118 | whether the next region joins those already read |
| CombineReports.AddWindow | pool-commons/memberreport/aggregate.go:120-137 | one window added to the group of its period |
| CombineReports.ReadRegions | pool-commons/memberreport/aggregate.go:89-139 | the regions are accepted or refused, and the groups built from their windows in turn |
| CombineReports.FinishGroup | pool-commons/memberreport/aggregate.go:146-160 | missing pools, completeness and sorted sources of a group |
| CombineReports.Combine | pool-commons/memberreport/aggregate.go:89-163 | the combined groups, or a refusal |
| CombineLaws.GroupsAreExact | pool-commons/memberreport/aggregate.go:119-138 | the group held under a period's key is the exact group of the windows of that period, and exists exactly when there are some |
| CombineLaws.EachPoolOnce | pool-commons/memberreport/aggregate.go:49-57 | each pool contributes to a group at most once |
| CombineResults.GroupsOfExactlyThePeriods | pool-commons/memberreport/aggregate.go:140-162 | one group per occurring period, in key order, each exact |
| CombineResults.EveryGroupConserves | pool-commons/memberreport/aggregate.go:130-137 | each of a group's four amounts is the exact sum over its windows, and earned equals awaiting + pending + paid |
| CombineResults.CompleteMeansEveryPool | pool-commons/memberreport/aggregate.go:146-157 | a group is complete exactly when every listed pool is fresh and reported that very period, and names exactly the pools that did not |
| CombineResults.EveryWindowIsCountedOnce | pool-commons/memberreport/aggregate.go:119-128 | each window is a source of its own period's group exactly once and of no other group |
| CombineResults.AcceptedMeans | pool-commons/memberreport/aggregate.go:93-118 | acceptance said outright: sound regions, distinct pools, and no report after a named wallet that names another |
| CombineResults.OrderIsIrrelevant | pool-commons/memberreport/aggregate.go:89-163 | unless empty and non-empty wallets are mixed, the order of the regions changes nothing, refusal included |
| CombineResults.MixedWalletsAreRefusedInSomeOrder | pool-commons/memberreport/aggregate.go:110-115 | a list that mixes empty and non-empty wallets is refused in some order |
| CombineResults.OrderMattersExactlyWhenMixed | pool-commons/memberreport/aggregate.go:89-118 | every order of a list combines alike exactly when it does not both mix wallets and consist of sound regions of distinct pools naming at most one wallet |
| CombineResults.AcceptedOrderMattersOnlyWhenMixed | pool-commons/memberreport/aggregate.go:110-115 | an accepted list combines alike in every order exactly when it does not mix wallets |
| CombineResults.MixedWalletsExample | pool-commons/memberreport/aggregate.go:110-115 | two regions accepted in one order and refused in the other |
| RoundOrder.KeysCompareAsRounds | pool-commons/memberreport/aggregate.go:120 | for one chain and asset the text order of the padded group keys is the order of rounds |
| RoundOrder.GroupsComeInRoundOrder | pool-commons/memberreport/aggregate.go:118-150 | the combined groups of one chain and asset come in the order of their rounds |
| WorkDigest.TakeDigest | pool-commons/revenue/work.go:32-46 | the digest as a function of the list, whichever sort was used |
| WorkDigest.ScanDecides | pool-commons/revenue/work.go:33-39 | every sort of the list leads to the same digest or the same refusal |
| WorkDigest.DigestIdentifiesTheBag | pool-commons/revenue/work.go:32-46 | the digest fails exactly when an id is missing or repeated, does not depend on order, and is shared by two accepted lists exactly when they hold the same contributions |

## Left out

- LedgerClient.Mock.SettleAuthorization: injected failures are not modelled, nor are the other test helpers of the mock (balance overrides, payment rejection, credit per payment).
- OfferShapes.EveryWorldIsSettled: takes snapshots that do not repeat a local id, which the attach validation refuses (capability-broker/internal/runnerattach/runnerattach.go:378-384); ReusedLocalIdNeverSettles shows what the engine would do without that. A registry change and the rematch it triggers are one step.
- DeviceFences.DeviceStaysRevoked: bounds the grants of an indexed record only if it is still that host's, since a push may move a credential and leave its old host entry; FenceHoldsExactlyUnlessRegained says exactly which runs keep the bound outright.
- CredentialIndex.AuthenticateIsAScan: assumes, as `Respects`, that a secret belongs to one credential for good and that minted ids are new; AuthenticateIsAScanWhereApart asks only that secrets are apart when written, of pushes with distinct ids.
- CredentialTokens.PushedTokenOpens: takes pushes with distinct ids that keep the secrets apart, without which SwappedHashIsLost shows a pushed token that opens nothing.
- CredentialSync.SyncIsIdempotent: takes distinct ids; for repeated ones RepeatedPushDrops says exactly when a second push returns no hosts, not when it leaves every index entry alone.
- Keys made by joining text with separators (`payer|account|authorization`, composite debit sequences) are tuples here, so collisions of joined text are not represented.
- Unit and sequence counters of the wholesale ledger and the uint64 fields of member reports are naturals; only session units wrap.
- Authorization and payment bytes are represented by what they decode to; fingerprints, token hashes, shape hashes and the work digest are taken as injective, sealing as the identity, randomness and clocks as parameters.
- Persistence, file locking, cloning of answers, ticket parameters, session metadata and the read-only views (balances, authorization status, credential lists, offer views and advertised offers).
- Device names are taken as already lower-cased and host names as already trimmed, so two spellings of one device in one grant map are not represented.
- Labels, terms versions, member addresses and revoke reasons of credentials carry no logic and are one `note` field or dropped.
- Reloading offers from a file, the refusal to push to a file-sourced broker, the advertised-change callback, canonicalisation errors, and the session schema and heartbeat relayed with a shape.
- The certification engine is the environment: its answers are arbitrary and a report is passed, pending or failed.
- A pair's mismatch reason is kept as the two shapes rather than as the first entry of their diff.
- JSON text: trees stand for canonical bytes and key sequences for slash-joined paths; projections carry their protocol, identity and promoted extensions, with the other frozen fields as one opaque value.
- The error texts of report validation and combination: a report or list is accepted or refused. Names, fetch times, telemetry and payment details of reports.
- gRPC, HTTP, QUIC and WebSocket clients, metrics, configuration validation and the full runner attach evaluation, selection weights, snapshot freshness, consoles and setup tools: input and output, or lists of independent field checks.
