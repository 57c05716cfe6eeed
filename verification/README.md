# Careeria, verified

This project models the parts of Careeria, a recruiting platform of Go services with two documentation tools, in which
correctness is a matter of whole runs or of two functions that must undo each other, and proves what those parts promise.
`dafny verify dfyconfig.toml` checks everything.

| files | what they model |
|---|---|
| `Common`, `Text`, `Base64` | options and results, instants, decimal numbers, splitting and joining, base64 without padding |
| `Phc` | the Argon2id hash text: a printer and a strict parser |
| `IdentityModel`, `IdentityEntities`, `Identity`, `IdentityHistory` | the identity aggregate: emails, phones, external accounts, status; what each operation achieves and where a verification comes from |
| `MfaModel`, `Mfa`, `MfaEffects` | the MFA configuration: one-time code and passkey factors with their replay counters; what each operation achieves |
| `Authentication`, `AuthTransactionModel`, `AuthTransaction`, `AuthTransactionEffects`, `AuthFlow`, `AuthCode` | the OAuth authorization transaction, the policy that picks its steps, and the code it ends in |
| `HiringModel`, `Hiring`, `HiringSafety`, `HiringEffects`, `HiringOffers` | job applications, offers and their outbox, what all runs of the use cases keep, what each achieves, and when an offer can be answered |
| `Jwks`, `JwksInterleaving`, `JwksSolo` | the gateway's cache of public keys, alone and with any number of concurrent callers, and that both agree on a caller alone |
| `TxManager`, `Inbox`, `Consumer`, `OutboxWorker` | the four shared packages of event delivery |
| `Delivery`, `DeliveryRefinement`, `DeliveryProgress` | those packages together: outbox, partition, consumer sessions, inbox, with crashes |
| `Labels` | the label placement of the diagram renderer |
| `Includes`, `IncludePages` | the include search of the diagram watcher and the pages it touches |

Where the source changes objects in place, a class has its fields and methods, and each method is proved against a function
on values (`Apply`, `Step`, `Attempt`, `Claim`, ...): it either reaches exactly the new value or reports the error and changes
nothing. Of that function it is then proved exactly when an operation succeeds and what it achieves (the modules named `Effects`
and `History`, the lemmas named `Exactly` or `Achieves`), and what holds over every run. An operation takes the clock readings, the
answers of ports and the way its transaction ends as parameters, so a theorem about it holds for all of them. Instants are
integers with Go's zero time at 0, identifiers are numbers with the nil UUID at 0.

## What the proofs brought to light

* **Hash texts are not unique.** The strict base64 decoder still skips carriage returns and line feeds, and a leading
  zero changes nothing about a number (`Text.LeadingZeroIsAccepted`). A newline after any hash text is accepted for the same value (`Phc.TrailingNewlineIsAccepted`), and
  `Phc.AcceptedTextIsEncodingIffCanonical` says exactly which text is the printed one.
* **A demote loop that may return after a first write cannot do so.** `SetPrimaryEmail`, `SetPrimaryPhone` and
  `SetPrimaryFactor` stay all-or-nothing because no contact, account or factor is ever newer than the check at the start
  allows (`IdentityAggregate.Identity.DemoteOthers`).
* **Multi-factor means password and possession.** A driven transaction is multi-factor exactly if it went through MFA and one of
  its methods is the password (`AuthenticationFlow.MultiFactorExactly`); a passkey followed by a one-time code stays single-factor.
* **Two sent offers can strand one of them.** A sent offer can be answered or revoked exactly while its application stands at
  OFFER_PENDING (`HiringOffers.AnswerableExactly`). Accepting, declining or revoking one of two sent offers takes the application
  away from there, and until it comes back the other can only expire (`HiringOffers.StrandingIsReachable` reaches this from the empty store).
* **Joining a refresh does not guarantee a live key.** A caller that hits the cache or leads its flight gets a key of a set
  that had not expired when the call began, unless it is overtaken by a set that was stamped a whole lifetime before it was put
  in place. A caller that joins a flight gets a live key if it began within a lifetime of the clock reading of a refresh, or within
  a lifetime less the cooldown of that of a flight held back (`JwksInterleaving.KeysOutliveTheDecision`). Runs for every
  configuration show an expired key at the edge of the first bound, in an overtaken flight, and for an overtaken leader.
* **Effects are in order, too.** Beyond exactly once, the effects of a partition are the distinct messages of a prefix of it in
  the order of their first occurrence, even with zombie sessions, because a session only reaches a record after every earlier
  one has its inbox row.
* **A failed nested transaction undoes nothing by itself.** Its writes stay if the caller goes on and the outermost call
  commits (`TransactionManager.NestedWritesFollowTheOutermost`).
* **The include search needs a hypothesis.** The memo of a file that is looked up inside a cycle can be partial, and a page be
  missed (`IncludePages.TwoFilesAndAThird`). Call a graph bypassable if along every include path without repetition each other file
  that its last file reaches is included by it, or reached from a file it includes off the path. Over all pages, changes and
  listing orders, no page is missed if and only if the graph is bypassable (`IncludePages.ExactExactlyIfBypassable`). Acyclic
  graphs are, and so are two files that include only each other. With a single embedded diagram no page is missed on any graph.

## Model

| member | source | states |
|---|---|---|
| Base64.DecodeEncode | services/identity/pkg/password/phc.go:23-34 | Decoding undoes encoding for every byte sequence (sections 3.2, 3.5 and 4 of RFC 4648, without padding) |
| Base64.EncodeDecode | services/identity/pkg/password/phc.go:202-213 | Whatever strict decoding accepts, encoding writes back unchanged: trailing bits must be zero |
| Base64.CanonicalText | services/identity/pkg/password/phc.go:202-213 | With the newlines that the library skips, a text survives the round trip exactly if it holds no newline |
| Base64.AlphabetExactly | services/identity/pkg/password/phc.go:23-34 | The digits are those of table 1 of RFC 4648, in its order |
| Base64.TestVectors | services/identity/pkg/password/phc.go:23-34 | The test vectors of section 10 of RFC 4648 that fill one group at most, without padding |
| Base64.LongTestVectors | services/identity/pkg/password/phc.go:23-34 | Those that fill two groups |
| Text.ShownValue | services/identity/pkg/password/phc.go:23-34 | A printed decimal parses to the number it shows, without leading zero |
| Text.ShowOfValue | services/identity/pkg/password/phc.go:174-200 | A decimal is printed back unchanged exactly if it has no leading zero |
| Text.LeadingZeroIsAccepted | services/identity/pkg/password/phc.go:174-200 | A leading zero changes nothing about what a number parses to |
| Text.SplitJoin | services/identity/pkg/password/phc.go:36-97 | Splitting undoes joining whenever no field holds the separator |
| Text.JoinSplit | services/identity/pkg/password/phc.go:36-97 | Joining undoes splitting for every text |
| Phc.FieldsLackSeparators | services/identity/pkg/password/phc.go:23-34 | No field of an encoded hash can hold one of the separators |
| Phc.EncodedLength | services/identity/pkg/password/phc.go:36-46 | An encoded hash stays within the 1024 bytes the parser allows |
| Phc.DecodeEncodeHash | services/identity/pkg/password/phc.go:23-97 | `decodeHash` undoes `encodeHash` for all costs in range and all salts and keys of 16 to 64 bytes |
| Phc.HashOutputDecodes | services/identity/pkg/password/phc.go:23-97 | What is written with validated parameters reads back as those parameters, the salt and the key |
| Phc.AcceptedIsValid | services/identity/pkg/password/phc.go:36-97 | Everything accepted satisfies the bounds that hashing imposes, with the lengths of its salt and key |
| Phc.ReencodeAccepted | services/identity/pkg/password/phc.go:36-97 | Every accepted text re-encodes to a text that decodes to the same value |
| Phc.AcceptedTextIsEncodingIffCanonical | services/identity/pkg/password/phc.go:99-213 | An accepted text is the encoding of its value if and only if no number has a leading zero and no base64 field hides a newline |
| Phc.TrailingNewlineIsAccepted | services/identity/pkg/password/phc.go:36-97 | Every hash has another accepted text: its encoding with a newline appended decodes to the same value and is not canonical |
| Phc.KnownText | services/identity/pkg/password/phc.go:23-97 | One hash text written out: the default costs with a salt and a key of zeros, under version 19 |
| Phc.OtherVersionsAreUnsupported | services/identity/pkg/password/phc.go:116-129 | Every other version that fits 32 bits is refused as unsupported |
| Labels.AtMostTwoRows | docs/tools/idef0-svg/render.rb:112-151 | A placed box, 16 high, blocks at most two of the rows spaced 18 apart |
| Labels.FreeRow | docs/tools/idef0-svg/render.rb:133-149 | The pigeonhole: among rows 0 to twice the number of placed boxes one is free |
| Labels.PlaceLabel | docs/tools/idef0-svg/render.rb:133-149 | The inner loop ends at the first row no placed box blocks, at most row 2 times the placed boxes |
| Labels.LeftmostLine | docs/tools/idef0-svg/render.rb:125-126 | The line a label is placed at is a leftmost one of its group |
| Labels.LabelBoxGeometry | docs/tools/idef0-svg/render.rb:115-120 | The box of a label is centred on its anchor and as wide as its text needs |
| Labels.OverlapExactly | docs/tools/idef0-svg/render.rb:138-140 | Two boxes overlap exactly if some point lies inside both |
| Labels.RowsLeaveTheLine | docs/tools/idef0-svg/render.rb:127-149 | The first box of a mechanism label ends 3 above the start of its line and further ones are lower; that of a guidance label begins 1 below and further ones are higher |
| Labels.FixedExactly | docs/tools/idef0-svg/render.rb:112-120 | A label keeps its place if and only if its group has one line or branching is not drawn |
| Labels.ComputeLabelsLayout | docs/tools/idef0-svg/render.rb:104-202 | Each label sits at the first row that neither a fixed label nor an earlier label blocks, on both sides, for every visiting order |
| Labels.ComputeMechanismLabelsLayout | docs/tools/idef0-svg/render.rb:104-152 | Downwards: no placed label overlaps a fixed or another placed one, and rows stay bounded |
| Labels.ComputeGuidanceLabelsLayout | docs/tools/idef0-svg/render.rb:154-202 | Upwards: no placed label overlaps a fixed or another placed one, and rows stay bounded |
| Includes.VisitSound | docs/tools/watch_plantuml_includes.py:47-59 | Every answer and every memo entry holds reachable files only, on any finite graph |
| Includes.VisitExact | docs/tools/watch_plantuml_includes.py:47-59 | On an acyclic graph every answer and every memo entry is the full reachable set |
| Includes.FirstLookupExact | docs/tools/watch_plantuml_includes.py:47-59 | The first lookup is complete on every graph, cycles or not |
| Includes.CyclicMemoIsPartial | docs/tools/watch_plantuml_includes.py:47-59 | A cyclic graph whose second lookup misses a reachable file |
| Includes.VisitComplete | docs/tools/watch_plantuml_includes.py:47-59 | On a bypassable graph, cycles or not, every answer and every memo entry is complete up to the file it is for |
| Includes.AcyclicIsBypassable | docs/tools/watch_plantuml_includes.py:47-59 | Every acyclic graph is bypassable |
| Includes.MissedAlong | docs/tools/watch_plantuml_includes.py:51-58 | Where a path cannot be bypassed, a search that follows it first remembers an incomplete answer for its last file |
| IncludePages.ExactExactlyIfBypassable | docs/tools/watch_plantuml_includes.py:42-64 | The affected pages are exact for all pages, all changes and all listing orders if and only if the graph is bypassable: along no include path does its last file reach another file only by going back onto the path |
| IncludePages.TwoFilesAndAThird | docs/tools/watch_plantuml_includes.py:42-64 | A cyclic graph and two pages of which the second is missed |
| IncludePages.TwoFilesAlone | docs/tools/watch_plantuml_includes.py:42-64 | A cyclic graph that is bypassable |
| IncludePages.IncludeSearch.Dependencies | docs/tools/watch_plantuml_includes.py:47-59 | The recursion that fills the memo in place computes the answer and the memo of the specification |
| IncludePages.PagesAffectedBy | docs/tools/watch_plantuml_includes.py:42-64 | Computes the specified pages: only pages that reach a changed file, and on a bypassable graph, without cycles or with one embedded diagram exactly those |
| IdentityEntities.Contact.Verify | services/identity/internal/domain/identity/email.go:36-47 | Verifies in place or fails without a change |
| IdentityEntities.Contact.Promote | services/identity/internal/domain/identity/email.go:49-63 | Makes an active contact primary, or says that it was, or fails without a change |
| IdentityEntities.Contact.Demote | services/identity/internal/domain/identity/email.go:65-76 | Takes the primary mark or fails without a change |
| IdentityEntities.Contact.Remove | services/identity/internal/domain/identity/email.go:78-87 | Deletes and demotes or fails without a change |
| IdentityEntities.LatestChangeBound | services/identity/internal/domain/identity/external_account.go:116-127 | The latest change of an account is the maximum of its times: at most t exactly if each of them is |
| IdentityEntities.ExternalAccount.LatestChangedAt | services/identity/internal/domain/identity/external_account.go:116-127 | The loop computes that maximum |
| IdentityEntities.ExternalAccount.RecordAuthentication | services/identity/internal/domain/identity/external_account.go:41-51 | Records a use of an enabled account or fails without a change |
| IdentityEntities.ExternalAccount.Disable | services/identity/internal/domain/identity/external_account.go:53-63 | Disables an account or fails without a change |
| IdentityEntities.ExternalAccount.Enable | services/identity/internal/domain/identity/external_account.go:65-75 | Enables an account or fails without a change |
| IdentityEntities.ExternalAccount.Unlink | services/identity/internal/domain/identity/external_account.go:77-84 | Unlinks an account for good or fails without a change |
| IdentityAggregate.FindContact | services/identity/internal/domain/identity/identity.go:511-518 | The search loop finds the first active contact with the identifier, or none |
| IdentityAggregate.CountActive | services/identity/internal/domain/identity/identity.go:492-500 | The count is zero exactly if nothing is active and above one exactly if an active contact has company |
| IdentityAggregate.AnyContact | services/identity/internal/domain/identity/identity.go:433-471 | The loops over contacts find an active, or a usable, login method other than the one excepted, exactly if there is one |
| IdentityAggregate.Identity.NewWithContact | services/identity/internal/domain/identity/identity.go:25-53 | A new identity satisfies the invariant, and its one contact is not verified |
| IdentityAggregate.Identity.NewWithExternalAccount | services/identity/internal/domain/identity/identity.go:55-74 | A new identity satisfies the invariant |
| IdentityAggregate.Identity.EnsureLoginMethodRemovable | services/identity/internal/domain/identity/identity.go:422-431 | Succeeds exactly if a login method, and for an active identity a usable one, is left |
| IdentityAggregate.Identity.Activate | services/identity/internal/domain/identity/identity.go:89-103 | Reaches exactly the specified state, or reports the error and leaves the aggregate as it was |
| IdentityAggregate.Identity.Disable | services/identity/internal/domain/identity/identity.go:105-116 | Disabling: exactly the specified new state, or the error and no change at all |
| IdentityAggregate.Identity.Enable | services/identity/internal/domain/identity/identity.go:118-132 | Enabling: exactly the specified new state, or the error and no change at all |
| IdentityAggregate.Identity.Delete | services/identity/internal/domain/identity/identity.go:134-143 | Deletion: exactly the specified new state, or the error and no change at all |
| IdentityAggregate.Identity.AddContact | services/identity/internal/domain/identity/identity.go:145-160 | A new email or phone, not verified, and primary exactly if it is the only active one: exactly the specified new state, or the error and no change at all |
| IdentityAggregate.Identity.VerifyContact | services/identity/internal/domain/identity/identity.go:162-176 | Verification: exactly the specified new state, or the error and no change at all |
| IdentityAggregate.Identity.DemoteOthers | services/identity/internal/domain/identity/identity.go:186-201 | Once the promotion succeeded, the demote loop cannot fail, because no contact is newer than the identity |
| IdentityAggregate.Identity.SetPrimaryContact | services/identity/internal/domain/identity/identity.go:178-203 | All or nothing although the loop writes element by element: one primary contact afterwards, or no change |
| IdentityAggregate.Identity.RemoveContact | services/identity/internal/domain/identity/identity.go:205-225 | Removal, which keeps a login method: exactly the specified new state, or the error and no change at all |
| IdentityAggregate.Identity.LinkExternalAccount | services/identity/internal/domain/identity/identity.go:309-329 | Linking: exactly the specified new state, or the error and no change at all |
| IdentityAggregate.Identity.RecordExternalAuthentication | services/identity/internal/domain/identity/identity.go:331-348 | An external authentication: exactly the specified new state, or the error and no change at all |
| IdentityAggregate.Identity.DisableExternalAccount | services/identity/internal/domain/identity/identity.go:350-370 | Disabling an account, which keeps a usable login method: exactly the specified new state, or the error and no change at all |
| IdentityAggregate.Identity.EnableExternalAccount | services/identity/internal/domain/identity/identity.go:372-386 | Enabling an account: exactly the specified new state, or the error and no change at all |
| IdentityAggregate.Identity.UnlinkExternalAccount | services/identity/internal/domain/identity/identity.go:388-405 | Unlinking, which keeps a login method: exactly the specified new state, or the error and no change at all |
| IdentityModel.StepPreserves | services/identity/internal/domain/identity/identity.go:89-420 | Every successful operation keeps the invariant |
| IdentityModel.RunKeepsRecords | services/identity/internal/domain/identity/identity.go:145-405 | Over every run no record is dropped, no address or account changes its key, and a removed contact stays as it is |
| IdentityModel.ReachableIdentity | services/identity/internal/domain/identity/identity.go:89-471 | In everything reachable: one primary contact per channel exactly if one is active, never a deleted one; a login method, and a usable one when active; addresses and accounts unique even after removal |
| IdentityModel.AddressNeverReused | services/identity/internal/domain/identity/identity.go:145-160 | An address once used can never be added again, in any later state |
| IdentityModel.DeletedIsFinal | services/identity/internal/domain/identity/identity.go:407-416 | No run changes a deleted identity |
| IdentityHistory.SearchFindsTheNamed | services/identity/internal/domain/identity/identity.go:511-518 | The search answers with an index exactly if that is the first active contact with the identifier |
| IdentityHistory.StatusOperations | services/identity/internal/domain/identity/identity.go:89-143 | Each status operation succeeds exactly from its statuses, in time, and with a usable login method where it needs one; it changes the status and nothing else |
| IdentityHistory.AddingAContact | services/identity/internal/domain/identity/identity.go:145-160 | Succeeds exactly for an address never used; the contact is added last, not verified, and primary exactly if no other is active |
| IdentityHistory.StartingWithAContact | services/identity/internal/domain/identity/identity.go:25-53 | A new identity is pending with one contact, primary and not verified, and nothing else |
| IdentityHistory.ChangingAContact | services/identity/internal/domain/identity/identity.go:162-225 | Verifying, making primary and removing succeed exactly if the named contact may, and change it and the primary mark of the others only as said |
| IdentityHistory.ChangingAnAccount | services/identity/internal/domain/identity/identity.go:331-405 | Using, disabling, enabling and unlinking succeed exactly if the named account may, and change its one time only |
| IdentityHistory.LinkingAnAccount | services/identity/internal/domain/identity/identity.go:309-329 | Succeeds exactly for a key never linked; the account is added last, enabled and unused |
| IdentityHistory.VerifiedExactlyByVerification | services/identity/internal/domain/identity/identity.go:162-176 | Over every run from a constructor: a contact is verified at a time if and only if a call of the run verified its identifier then |
| IdentityHistory.ActiveWasVerified | services/identity/internal/domain/identity/identity.go:89-132 | An active identity has an enabled account, or an active contact that a call of the run verified |
| MfaAggregate.Totp.RecordUse | services/identity/internal/domain/mfa/totp.go:73-90 | Accepts a time step exactly if it is later than the last one, or fails without a change |
| MfaAggregate.WebAuthnCredential.RecordUse | services/identity/internal/domain/mfa/webauthn.go:99-122 | Accepts a sign count exactly as the counter rules say, or fails without a change |
| MfaAggregate.Factor.Rename | services/identity/internal/domain/mfa/factor.go:44-56 | Renames a factor, or says that nothing changed, or fails without a change |
| MfaAggregate.Factor.Confirm | services/identity/internal/domain/mfa/factor.go:58-73 | Confirms a factor, primary if told so, or fails without a change |
| MfaAggregate.Factor.Promote | services/identity/internal/domain/mfa/factor.go:75-92 | Makes an enabled, confirmed factor primary, or fails without a change |
| MfaAggregate.Factor.Demote | services/identity/internal/domain/mfa/factor.go:94-105 | Takes the primary mark or fails without a change |
| MfaAggregate.Factor.Disable | services/identity/internal/domain/mfa/factor.go:107-119 | Disables and demotes, or fails without a change |
| MfaAggregate.Factor.Enable | services/identity/internal/domain/mfa/factor.go:121-132 | Enables, or fails without a change |
| MfaAggregate.Factor.RecordTotpUse | services/identity/internal/domain/mfa/factor.go:172-192 | Records a use in factor and authenticator together, or in neither |
| MfaAggregate.Factor.RecordWebAuthnUse | services/identity/internal/domain/mfa/factor.go:194-214 | Records a use in factor and credential together, or in neither |
| MfaAggregate.LatestUpdatedAt | services/identity/internal/domain/mfa/mfa.go:243-254 | The loop computes the latest update of all factors |
| MfaAggregate.Mfa.RenameFactor | services/identity/internal/domain/mfa/mfa.go:26-43 | Reaches exactly the specified factors, or reports the error and leaves all factors as they were |
| MfaAggregate.Mfa.ConfirmFactor | services/identity/internal/domain/mfa/mfa.go:45-57 | Reaches exactly the specified factors, or reports the error and leaves all factors as they were |
| MfaAggregate.Mfa.SetPrimaryFactor | services/identity/internal/domain/mfa/mfa.go:59-83 | All or nothing although the demote loop writes element by element |
| MfaAggregate.Mfa.DisableFactor | services/identity/internal/domain/mfa/mfa.go:85-98 | Disabling: exactly the specified new state, or the error and no change at all |
| MfaAggregate.Mfa.EnableFactor | services/identity/internal/domain/mfa/mfa.go:100-119 | Enabling, refused while another TOTP is enabled: exactly the specified new state, or the error and no change at all |
| MfaAggregate.Mfa.EnrollTotp | services/identity/internal/domain/mfa/mfa.go:121-155 | A TOTP enrolment: exactly the specified new state, or the error and no change at all |
| MfaAggregate.Mfa.EnrollWebAuthn | services/identity/internal/domain/mfa/mfa.go:172-210 | A passkey enrolment: exactly the specified new state, or the error and no change at all |
| MfaAggregate.Mfa.RecordTotpUse | services/identity/internal/domain/mfa/mfa.go:157-170 | The use of a one-time code: exactly the specified new state, or the error and no change at all |
| MfaAggregate.Mfa.RecordWebAuthnUse | services/identity/internal/domain/mfa/mfa.go:212-230 | The use of a passkey: exactly the specified new state, or the error and no change at all |
| MfaModel.StepPreserves | services/identity/internal/domain/mfa/mfa.go:45-230 | Every successful operation keeps the invariant |
| MfaModel.ReachableMfa | services/identity/internal/domain/mfa/mfa.go:45-254 | In everything reachable: at most one primary factor, enabled and confirmed; at most one enabled TOTP; identifiers and credentials unique |
| MfaModel.TotpStepsIncrease | services/identity/internal/domain/mfa/totp.go:73-90 | The accepted time steps of a factor strictly increase over every run, disabling and re-enabling included (section 5.2 of RFC 6238) |
| MfaModel.SignCountsIncrease | services/identity/internal/domain/mfa/webauthn.go:99-122 | The accepted sign counts never go back and strictly increase once non-zero (section 6.1.1 of W3C Web Authentication Level 2) |
| MfaEffects.ChangingAFactor | services/identity/internal/domain/mfa/mfa.go:26-230 | An operation on a factor succeeds exactly if it is there and may, and changes its one aspect: a first confirmation makes it primary exactly if none was |
| MfaEffects.EnrollingATotp | services/identity/internal/domain/mfa/mfa.go:121-155 | Succeeds exactly with sound parameters and no enabled one-time code factor; the new factor is not confirmed, not primary and not used |
| MfaEffects.EnrollingAWebAuthn | services/identity/internal/domain/mfa/mfa.go:172-210 | Succeeds exactly with sound parameters and an unused credential; the new factor is not confirmed, not primary and not used |
| MfaEffects.ConfirmedExactlyByConfirmation | services/identity/internal/domain/mfa/mfa.go:45-57 | Over every run a factor is confirmed since a time if and only if its first successful confirmation was then |
| Common.HasDuplicates | services/identity/internal/domain/helpers.go:60-70 | The loop over its map of seen values reports a repetition exactly if the values are not pairwise distinct |
| Authentication.ResolveLevel | services/identity/internal/domain/authentication/policy.go:12-36 | The loop over two maps finds two factors exactly if something known is joined by something possessed, and fails on an empty, repeated or unknown method |
| Authentication.TransitionsDescend | services/identity/internal/domain/authorizationtransaction/next_step.go:16-49 | The allowed transitions are exactly the descents in one order of the steps, except that only consent leads to ready |
| AuthTransaction.AuthorizationTransaction.constructor | services/identity/internal/domain/authorizationtransaction/authorization_transaction.go:42-86 | A new transaction satisfies the invariant |
| AuthTransaction.AuthorizationTransaction.MoveOn | services/identity/internal/domain/authorizationtransaction/authentication.go:76-90 | Resolves, transitions and records the level all together or not at all |
| AuthTransaction.AuthorizationTransaction.CompletePrimaryAuthentication | services/identity/internal/domain/authorizationtransaction/authentication.go:15-92 | Reaches exactly the specified state, or reports the error and changes nothing |
| AuthTransaction.AuthorizationTransaction.CompleteMFA | services/identity/internal/domain/authorizationtransaction/authentication.go:33-92 | The second factor: exactly the specified new state, or the error and no change at all |
| AuthTransaction.AuthorizationTransaction.BeginPasswordRegistration | services/identity/internal/domain/authorizationtransaction/registration.go:13-40 | A registration, which begins at a verification with the password as its method: exactly the specified new state, or the error and no change at all |
| AuthTransaction.AuthorizationTransaction.CompletePasswordChange | services/identity/internal/domain/authorizationtransaction/authentication.go:94-99 | A password change: exactly the specified new state, or the error and no change at all |
| AuthTransaction.AuthorizationTransaction.CompleteVerification | services/identity/internal/domain/authorizationtransaction/authentication.go:101-127 | A verification, which needs a live reference of its own channel and drops it: exactly the specified new state, or the error and no change at all |
| AuthTransaction.AuthorizationTransaction.BindVerification | services/identity/internal/domain/authorizationtransaction/authentication.go:129-188 | Binding a challenge, possible once at the step of its channel: exactly the specified new state, or the error and no change at all |
| AuthTransaction.AuthorizationTransaction.SkipMFAEnrollment | services/identity/internal/domain/authorizationtransaction/mfa_enrollment.go:8-13 | Skipping the enrollment: exactly the specified new state, or the error and no change at all |
| AuthTransaction.AuthorizationTransaction.EnsureGrantedScopesAllowed | services/identity/internal/domain/authorizationtransaction/authorization_transaction.go:176-191 | The two loops accept exactly duplicate-free lists of requested scopes |
| AuthTransaction.AuthorizationTransaction.AuthorizeScopes | services/identity/internal/domain/authorizationtransaction/authorization_transaction.go:88-114 | The authorization of scopes: exactly the specified new state, or the error and no change at all |
| AuthTransaction.AuthorizationTransaction.Complete | services/identity/internal/domain/authorizationtransaction/authorization_transaction.go:116-130 | Completion; the missing-snapshot error never occurs: exactly the specified new state, or the error and no change at all |
| AuthTransaction.AuthorizationTransaction.Deny | services/identity/internal/domain/authorizationtransaction/authorization_transaction.go:132-142 | A denial: exactly the specified new state, or the error and no change at all |
| AuthTransactionModel.StepPreserves | services/identity/internal/domain/authorizationtransaction/authentication.go:50-252 | Every successful step keeps: pending at consent exactly if level and time are set and the level is that of the methods; a reference only at the step of its channel; sound scopes once ready |
| AuthTransactionModel.ReachableTransaction | services/identity/internal/domain/authorizationtransaction/authorization_transaction.go:42-160 | After every run: pending at consent exactly if level and time are set, the level that of the methods; a reference only at the step of its channel; granted scopes a duplicate-free non-empty part of the requested ones once ready |
| AuthTransactionModel.ReadyCompletes | services/identity/internal/domain/authorizationtransaction/authorization_transaction.go:116-130 | A ready transaction completes exactly if the time allows it, and never misses its snapshot |
| AuthTransactionModel.LevelAlwaysResolves | services/identity/internal/domain/authorizationtransaction/authentication.go:230-243 | Level resolution never refuses a sound transaction |
| AuthTransactionModel.AtMostSevenMovesTwoBindings | services/identity/internal/domain/authorizationtransaction/next_step.go:16-49 | No run moves a transaction more than seven times or binds more than two verifications |
| AuthTransactionModel.BoundsAreReached | services/identity/internal/domain/authorizationtransaction/next_step.go:16-49 | A run that uses all seven moves and both bindings |
| AuthTransactionModel.FinishedIsFinal | services/identity/internal/domain/authorizationtransaction/authorization_transaction.go:144-174 | Nothing succeeds on a completed or denied transaction |
| AuthTransactionEffects.PrimaryAchieves | services/identity/internal/domain/authorizationtransaction/authentication.go:15-92 | Succeeds exactly for a valid method at the choice of one; sets identity, method and step, and the level exactly at consent |
| AuthTransactionEffects.MfaAchieves | services/identity/internal/domain/authorizationtransaction/authentication.go:33-92 | Succeeds exactly for the same identity with another method; leads to consent with the level of both |
| AuthTransactionEffects.PasswordChangeAndSkipAchieve | services/identity/internal/domain/authorizationtransaction/authentication.go:94-99 | Succeed exactly at their step, and move on without a new method |
| AuthTransactionEffects.RegistrationAchieves | services/identity/internal/domain/authorizationtransaction/registration.go:13-40 | Succeeds exactly at the choice of a method, towards the verification of a contact |
| AuthTransactionEffects.BindingAchieves | services/identity/internal/domain/authorizationtransaction/authentication.go:129-188 | Succeeds exactly at the step of its channel with nothing bound yet, for a challenge that is not over |
| AuthTransactionEffects.VerificationAchieves | services/identity/internal/domain/authorizationtransaction/authentication.go:101-127 | Succeeds exactly with a bound challenge of its channel that has not expired, and uses it up |
| AuthTransactionEffects.VerificationChecksTheStepFirst | services/identity/internal/domain/authorizationtransaction/authentication.go:101-127 | At another step, or for a move not allowed, the refusal names the step, whatever is bound |
| AuthTransactionEffects.ScopesAchieve | services/identity/internal/domain/authorizationtransaction/authorization_transaction.go:88-114 | Succeeds exactly at consent for requested scopes, some and none twice; records them with their source |
| AuthTransactionEffects.EndsAchieve | services/identity/internal/domain/authorizationtransaction/authorization_transaction.go:116-142 | A ready transaction completes and a pending one is denied exactly while there is time |
| AuthTransactionEffects.CreatedExactly | services/identity/internal/domain/authorizationtransaction/authorization_transaction.go:42-86 | Created exactly for a client, with distinct scopes, in time, and with a challenge where one is required; nobody is authenticated yet |
| AuthTransactionEffects.SnapshotIsKept | services/identity/internal/domain/authorizationtransaction/authentication.go:50-74 | Over every run the identity stays once set, methods are only added, and level, time, source and scopes stay once recorded |
| AuthorizationCode.ReadySnapshotIsIssuable | services/identity/internal/domain/authorizationcode/authorization_code.go:109-137 | The snapshot of a ready transaction passes every check of a code: a code is issued exactly if the clock and the lifetime allow it |
| AuthorizationCode.OneCodePerTransaction | services/identity/internal/usecase/oauth/continue_authorization.go:33-75 | After a code was issued no run makes the transaction ready for another |
| AuthorizationCode.RequestIsKept | services/identity/internal/domain/authorizationtransaction/authorization_transaction.go:42-160 | No run touches what the client requested |
| AuthorizationCode.ExchangeIsBoundToRequest | services/identity/internal/domain/authorizationcode/authorization_code.go:75-107 | A code that is exchanged carries the identity, methods and scopes of the transaction it was issued for; its client, redirect URI and verifier are those of the request, its scopes requested ones, and every clock reading is in time |
| AuthorizationCode.ExchangedExactly | services/identity/internal/domain/authorizationcode/authorization_code.go:75-107 | An exchange succeeds exactly in time, for the client and redirect URI of the code, with the verifier of its challenge |
| AuthorizationCode.IssuableExactly | services/identity/internal/domain/authorizationcode/authorization_code.go:36-73 | A code is made exactly if its identities, methods, level, scopes and times are there and agree |
| AuthenticationFlow.NewFacts | services/identity/internal/domain/authenticationflow/facts.go:46-74 | Accepts exactly consistent facts: a known consent mode, distinct MFA methods without the password, a remembered grant only in remember mode |
| AuthenticationFlow.DecisionIsAccepted | services/identity/internal/domain/authenticationflow/policy.go:22-66 | Whatever the policy decides, the transaction accepts; scopes are authorized automatically only on the way to consent |
| AuthenticationFlow.PolicyMovesExactly | services/identity/internal/domain/authenticationflow/policy.go:22-66 | The moves the policy can decide are those of the transaction, except that consent follows MFA or its enrollment only |
| AuthenticationFlow.ConsentWithinFiveDecisions | services/identity/internal/domain/authenticationflow/policy.go:22-66 | From the choice of a method at most five decisions lead to consent, through exactly one of MFA and its enrollment, whatever requirements and facts each of them meets; `MfaVisitedExactlyWithMethods` says which |
| AuthenticationFlow.DecidedExactly | services/identity/internal/domain/authenticationflow/policy.go:22-66 | Which step is decided, for all steps, requirements and facts: each forced step if and only if its requirement holds in time, MFA if and only if the facts list a method, and each source if and only if mode and grant give it |
| AuthenticationFlow.RefusedExactly | services/identity/internal/domain/authenticationflow/policy.go:22-66 | What is refused, and why: facts are needed exactly if nothing is forced |
| AuthenticationFlow.MfaVisitedExactlyWithMethods | services/identity/internal/domain/authenticationflow/policy.go:39-45 | On the way to consent MFA is visited if and only if the facts of the decision that takes the way there list a method, its enrollment if and only if they list none |
| AuthenticationFlow.FiveDecisionsAreNeeded | services/identity/internal/domain/authenticationflow/policy.go:22-66 | Requirements that need all five |
| AuthenticationFlow.MultiFactorExactly | services/identity/internal/domain/authentication/policy.go:12-47 | A driven transaction with a level is multi-factor if and only if it went through MFA and one of its methods is the password |
| AuthenticationFlow.MultiFactorExactlyThroughMfa | services/identity/internal/domain/authentication/policy.go:12-47 | So one that began with a password ends multi-factor if and only if it went through MFA, and otherwise went through the enrollment |
| AuthenticationFlow.MethodsDecideTheLevel | services/identity/internal/domain/authenticationflow/policy.go:39-45 | End to end: a run driven by facts that always list a method ends multi-factor if it began with the password, and single-factor if they never list one |
| AuthenticationFlow.TwoPossessionsAreOneFactor | services/identity/internal/domain/authentication/policy.go:12-47 | Without the password that fails: a passkey and a one-time code stay single-factor |
| HiringModel.MovesAreRecorded | services/hiring/internal/domain/application/application.go:68-138 | The error that `addTransition` swallows cannot occur: every allowed move is recorded |
| HiringModel.TerminalOnlyAtTheEnd | services/hiring/internal/domain/application/stage.go:40-82 | A terminal stage stands only at the end of a history |
| HiringModel.HiredTheWholeWay | services/hiring/internal/domain/application/stage.go:49-82 | A history that ends in HIRED visits SCREENING, INTERVIEW, OFFER_PENDING and OFFER_ACCEPTED in that order |
| HiringModel.HistoriesAreUnbounded | services/hiring/internal/domain/application/stage.go:68-78 | Interview and pending offer form a cycle: histories have no greatest length |
| Hiring.JobApplication.AddTransition | services/hiring/internal/domain/application/application.go:123-138 | Appends to the history and moves stage, version and time together |
| Hiring.JobApplication.ChangeStage | services/hiring/internal/domain/application/application.go:68-84 | Makes one legal, recorded step or fails without a change |
| Hiring.JobApplication.AdvanceFromAssessment | services/hiring/internal/domain/application/application.go:94-101 | Only from the assessment, and only to the interview |
| Hiring.JobApplication.Reject | services/hiring/internal/domain/application/application.go:103-109 | Ends an application that is not terminal |
| Hiring.JobApplication.Withdraw | services/hiring/internal/domain/application/application.go:111-121 | Ends an application that is not terminal |
| Hiring.JobOffer.Send | services/hiring/internal/domain/offer/offer.go:73-89 | Sends a draft; an expired one changes in memory although the call fails |
| Hiring.JobOffer.Accept | services/hiring/internal/domain/offer/offer.go:91-107 | Accepts a sent offer; an expired one changes in memory although the call fails |
| Hiring.JobOffer.Decline | services/hiring/internal/domain/offer/offer.go:109-118 | Declines a sent offer or fails without a change |
| Hiring.JobOffer.Revoke | services/hiring/internal/domain/offer/offer.go:120-129 | Revokes a draft or sent offer or fails without a change |
| Hiring.JobOffer.Expire | services/hiring/internal/domain/offer/offer.go:131-144 | Expires a sent offer that is due or fails without a change |
| Hiring.HiringService.ApplyVacancy | services/hiring/internal/usecase/application/apply.go:19-85 | One atomic step of the store for every end of its transaction, with the error it reports |
| Hiring.HiringService.ChangeStage | services/hiring/internal/usecase/application/change_stage.go:21-105 | One atomic step of the store for every end of its transaction, with the error it reports |
| Hiring.HiringService.HandleAssessmentResult | services/hiring/internal/usecase/application/assessment_result.go:20-125 | One atomic step of the store for every end of its transaction, with the error it reports; `HiringEffects.AssessmentAchieves` says which |
| Hiring.HiringService.RejectApplication | services/hiring/internal/usecase/application/reject.go:20-88 | One atomic step of the store for every end of its transaction, with the error it reports |
| Hiring.HiringService.WithdrawApplication | services/hiring/internal/usecase/application/withdraw.go:19-84 | One atomic step of the store for every end of its transaction, with the error it reports |
| Hiring.HiringService.CreateOffer | services/hiring/internal/usecase/offer/create.go:24-118 | One atomic step of the store for every end of its transaction; the stage changes only from the interview |
| Hiring.HiringService.SendOffer | services/hiring/internal/usecase/offer/send.go:18-74 | One atomic step of the store for every end of its transaction; the changed copy of an expired offer is dropped |
| Hiring.HiringService.AcceptOffer | services/hiring/internal/usecase/offer/accept.go:19-89 | One atomic step of the store for offer, application and event together, for every end of its transaction |
| Hiring.HiringService.DeclineOffer | services/hiring/internal/usecase/offer/decline.go:20-88 | One atomic step of the store for every end of its transaction, with the error it reports |
| Hiring.HiringService.RevokeOffer | services/hiring/internal/usecase/offer/revoke.go:20-88 | One atomic step of the store for every end of its transaction, with the error it reports |
| Hiring.HiringService.ExpireOffer | services/hiring/internal/usecase/offer/expire.go:13-64 | One atomic step of the store for every end of its transaction, with the error it reports |
| HiringSafety.AttemptIsLegal | services/hiring/internal/usecase/offer/accept.go:44-88 | Whatever a use case writes is one legal step of an application, an offer or both, with one event under the version it writes |
| HiringSafety.StepPreserves | services/hiring/internal/usecase/offer/accept.go:44-88 | Every use case keeps the invariant of the store, however its transaction ends |
| HiringSafety.RunExtends | services/hiring/internal/domain/offer/offer.go:73-144 | Over every run records stay, terminal offers and applications stay as they are, histories and the outbox only grow |
| HiringSafety.AcceptedOnceAndForever | services/hiring/internal/usecase/offer/accept.go:44-88 | No application ever has two accepted offers, and an accepted one keeps its application in OFFER_ACCEPTED, HIRED, REJECTED or WITHDRAWN forever |
| HiringSafety.ReachableHistory | services/hiring/internal/domain/application/application.go:21-138 | Every reachable history is a legal path from the initial transition to the current stage, as long as the version, terminal only at its end |
| HiringSafety.OneActiveApplication | services/hiring/internal/usecase/application/apply.go:34-40 | At most one application per candidate and vacancy is not terminal |
| HiringSafety.OutboxConservesVersions | services/hiring/internal/usecase/application/change_stage.go:83-104 | The events of an offer carry the versions 1 to its version in order; those of an application strictly increase up to its version |
| HiringEffects.PipelineExactly | services/hiring/internal/domain/application/stage.go:49-82 | The allowed moves are those of the pipeline as a list of pairs, and rejection and withdrawal from every stage that is not terminal |
| HiringEffects.AssessmentAchieves | services/hiring/internal/usecase/application/assessment_result.go:20-125 | A passed assessment moves the application to the interview, a failed one rejects it, by the given actor and with one event of the matching kind; at any other stage nothing changes |
| HiringEffects.RejectAchieves | services/hiring/internal/usecase/application/reject.go:20-88 | Rejects exactly an application that is not terminal, for a known reason or one given in words and by an allowed actor, with one event; otherwise nothing changes |
| HiringEffects.WithdrawAchieves | services/hiring/internal/usecase/application/withdraw.go:19-84 | Withdraws exactly an application that is not terminal, for its candidate or an allowed actor, with one event; otherwise nothing changes |
| HiringEffects.ChangeStageAchieves | services/hiring/internal/usecase/application/change_stage.go:21-105 | Makes exactly the moves of the pipeline, a pending offer only after a completed interview, with one event; otherwise nothing changes |
| HiringEffects.ApplyAchieves | services/hiring/internal/usecase/application/apply.go:19-85 | Adds an application at its first stage with one event, exactly if the candidate has none going on for the vacancy |
| HiringEffects.CreateAchieves | services/hiring/internal/usecase/offer/create.go:24-118 | Adds a draft with the given terms and one event, and moves the application exactly if it stood at the interview |
| HiringEffects.SendAchieves | services/hiring/internal/usecase/offer/send.go:18-74 | Sends exactly a draft that is not due, with one event; otherwise nothing changes |
| HiringEffects.AcceptAchieves | services/hiring/internal/usecase/offer/accept.go:19-89 | Accepts exactly a sent offer that is not due and whose application stands at OFFER_PENDING; both move together, with one event |
| HiringEffects.DeclineAchieves | services/hiring/internal/usecase/offer/decline.go:20-88 | Declines exactly a sent offer whose application stands at OFFER_PENDING, and takes it back to the interview |
| HiringEffects.RevokeAchieves | services/hiring/internal/usecase/offer/revoke.go:20-88 | Revokes a sent offer likewise, or a draft |
| HiringEffects.ExpireAchieves | services/hiring/internal/usecase/offer/expire.go:13-64 | Expires exactly a sent offer that is due; the application stays |
| HiringEffects.OtherOutcomes | services/hiring/internal/usecase/offer/accept.go:44-88 | A commit that is not reported does what a reported one does, a rollback nothing, and both are reported as errors |
| HiringEffects.RefusalsAreTrue | services/hiring/internal/usecase/offer/decline.go:20-60 | Access is denied only to actors not allowed, and nothing is reported missing that is there |
| HiringOffers.AnswerableExactly | services/hiring/internal/usecase/offer/accept.go:44-60 | In every reachable store an offer can be declined exactly while it is sent and its application stands at OFFER_PENDING, accepted exactly then and before it is due, revoked exactly then or as a draft, and expired exactly when sent and due |
| HiringOffers.StrandedOffer | services/hiring/internal/usecase/offer/decline.go:44-56 | At every other stage a sent offer can be neither accepted, declined nor revoked, whoever tries and whenever |
| HiringOffers.AnsweringStrandsTheOther | services/hiring/internal/usecase/offer/decline.go:45-88 | Accepting, declining or revoking one of two sent offers of an application strands the other |
| HiringOffers.StrandingIsReachable | services/hiring/internal/usecase/offer/decline.go:45-88 | A run from the empty store to a stranded offer |
| Jwks.ValidateAndClone | services/api-gateway/internal/authn/jwks.go:167-183 | The loop accepts exactly non-empty sets without blank identifiers or empty keys, and copies them whole |
| Jwks.ValidatedExactly | services/api-gateway/internal/authn/jwks.go:26-40 | A configuration is accepted if and only if its times are positive and the cooldown does not exceed the lifetime |
| Jwks.JWKSCache.RecordRefreshError | services/api-gateway/internal/authn/jwks.go:160-165 | Sets error and cooldown and nothing else |
| Jwks.JWKSCache.Refresh | services/api-gateway/internal/authn/jwks.go:104-158 | One flight: overtaken, held back, failed with the keys untouched, or the whole valid answer put in place |
| Jwks.JWKSCache.ResolvePublicKey | services/api-gateway/internal/authn/jwks.go:72-94 | An undisturbed call: the key of a set that had not expired when it began, else exactly what the refresh leaves: its error, or the key if and only if it is in the set then in place; the loader is asked exactly if the key is missing or stale and the cooldown is over |
| JwksInterleaving.StepPreserves | services/api-gateway/internal/authn/jwks.go:72-165 | Every atomic step of any caller, the flight or the clock keeps the invariant |
| JwksInterleaving.OneLoadAtATime | services/api-gateway/internal/authn/jwks.go:104-165 | In every interleaving at most one load runs, and each starts at least the cooldown after every earlier one ended, well or badly |
| JwksInterleaving.KeysAreWholeLoads | services/api-gateway/internal/authn/jwks.go:126-149 | The keys are the empty map or the last whole valid answer, the generation counts those put in place, all valid answers are put in place once and in order, and without error the next refresh is due before expiry |
| JwksInterleaving.NobodyWaitsForNothing | services/api-gateway/internal/authn/jwks.go:151-157 | A waiting caller always has a flight to wait for |
| JwksInterleaving.LookUpAnswersExactly | services/api-gateway/internal/authn/jwks.go:72-80 | In every reachable world a first lookup answers at once, with the value of the last valid answer put in place, if and only if that set has the key and has not expired |
| JwksInterleaving.CollectAnswersExactly | services/api-gateway/internal/authn/jwks.go:82-94 | In every reachable world a caller told of a flight gets its error if it failed, else the value of the set in place if it has the key, and is told that there is none if and only if it does not |
| JwksInterleaving.NotFoundIsTrue | services/api-gateway/internal/authn/jwks.go:89-93 | A key reported as not found was in fact missing from the set that was looked at |
| JwksInterleaving.LandTellsAllWhoWait | services/api-gateway/internal/authn/jwks.go:151-157 | A flight that lands tells its outcome to all who wait, and disturbs nobody else |
| JwksInterleaving.LeavingDisturbsNobody | services/api-gateway/internal/authn/jwks.go:152-157 | A caller can give up while it waits or before it takes its answer; the flight, the cache and everybody else stay |
| JwksSolo.SoloRunResolves | services/api-gateway/internal/authn/jwks.go:72-158 | From every world without a flight, a caller that runs alone through the atomic steps ends with the answer, and leaves the cache, of the sequential call |
| JwksInterleaving.KeysOutliveTheDecision | services/api-gateway/internal/authn/jwks.go:72-94 | For callers that start a flight and callers that join one: after a refresh at a clock reading the key is live for every call begun within a lifetime of it, and for no other if the set is the flight's own; after a held back flight for every call begun within a lifetime less the cooldown |
| JwksInterleaving.LeadersGetLiveKeys | services/api-gateway/internal/authn/jwks.go:72-94 | A caller that hits the cache or leads its flight gets a key that had not expired when the call began, unless overtaken by a set put in place after its own expiry |
| JwksInterleaving.JoinersCanGetExpiredKeys | services/api-gateway/internal/authn/jwks.go:72-94 | For every configuration a run in which a joiner that began exactly a lifetime after the refresh gets an expired key: the bound is tight |
| JwksInterleaving.JoinersOfOvertakenFlightsCanGetExpiredKeys | services/api-gateway/internal/authn/jwks.go:108-113 | For every configuration a run in which a joiner of an overtaken flight gets a key that expired before its call |
| JwksInterleaving.LeadersCanBeOvertakenByExpiredKeys | services/api-gateway/internal/authn/jwks.go:108-113 | For every configuration a run in which the exception for leaders occurs |
| TransactionManager.Manager.Execute | packages/go/txmanager/manager.go:39-42 | A callback writes to the transaction of its context; nested calls join it |
| TransactionManager.Manager.Do | packages/go/txmanager/manager.go:39-72 | The outermost call begins once and ends once, by commit or by rollback; nested calls do neither |
| TransactionManager.NestedWritesFollowTheOutermost | packages/go/txmanager/manager.go:40-42 | The writes of a failed nested call stay exactly if the outermost call goes on and commits |
| TransactionManager.InliningKeepsMeaning | packages/go/txmanager/manager.go:39-72 | A nested call means what its callback means in its place |
| TransactionManager.FlatOutcome | packages/go/txmanager/manager.go:39-72 | A callback leaves its writes, in order and all of them, exactly if it succeeds and the commit takes effect; success is reported exactly if the commit is |
| Inbox.Inbox.WithInbox | packages/go/inbox/inbox.go:31-56 | Row and handler share one transaction: rows and answer are those of one delivery, which `Inbox.DeliveredExactly` and `Inbox.HandledExactly` pin down |
| Inbox.OneDelivery | packages/go/inbox/inbox.go:31-56 | A delivery leaves nothing, or a new row with all writes of a successful handler; success means the row is there |
| Inbox.DeliveredExactly | packages/go/inbox/inbox.go:31-56 | Success if and only if transaction, insert and commit succeed and the message was received before or its handler succeeds now |
| Inbox.HandledExactly | packages/go/inbox/inbox.go:31-56 | Row and writes are left behind if and only if the message is new, its handler succeeds and the commit takes effect |
| Inbox.RedeliveryIsHarmless | packages/go/inbox/inbox.go:31-56 | However often a message is delivered and however each attempt ends, at most one leaves anything behind, and that one everything |
| Inbox.SuccessIsFinal | packages/go/inbox/inbox.go:31-56 | After a reported success later deliveries change nothing |
| Consumer.MarkedPrefix | packages/go/kafka/consumer.go:188-233 | Exactly the longest run of successes is marked; an error is reported exactly if it ended the claim in a live session |
| Consumer.ConsumerGroupHandler.ConsumeClaim | packages/go/kafka/consumer.go:188-233 | The receive loop marks that run and keeps the first error |
| Consumer.Consumer.Start | packages/go/kafka/consumer.go:92-140 | Refused without a context, when closed or when already started; otherwise rounds go on exactly until one brings a handler error, a close, a cancellation or a failure |
| Consumer.HandlerErrorStops | packages/go/kafka/consumer.go:107-113 | A handler error in a live session always stops the consumer |
| Consumer.NoFirstErrorWithoutOne | packages/go/kafka/consumer.go:107-113 | A round has no first error if and only if none of its claims ended in one |
| Consumer.ReportedAfter | packages/go/kafka/consumer.go:107-139 | A round is reported as a handler error, as a broken group, as an orderly end, or not at all, each exactly when that is what happened |
| Consumer.RefusedExactly | packages/go/kafka/consumer.go:92-105 | What is refused: no context before all else, then a closed consumer, then a second start |
| OutboxWorker.Process | packages/go/outbox/worker.go:91-164 | Exactly the acknowledged entries are marked published, nothing if the worker notices a cancellation before or after an entry it could not publish, and the batch counts as full only if nothing is left undone |
| OutboxWorker.AcknowledgedExactly | packages/go/outbox/worker.go:116-146 | An entry is among those marked exactly if the broker acknowledged it |
| OutboxWorker.AcknowledgedInOrder | packages/go/outbox/worker.go:116-146 | Those marked stand in the order of the batch, each as often as it was acknowledged |
| OutboxWorker.StopsExactlyWhenSeen | packages/go/outbox/worker.go:116-146 | A batch is given up if and only if the worker looks at its context and finds it cancelled |
| OutboxWorker.FinalizedExactly | packages/go/outbox/worker.go:116-164 | Nothing is left undone if and only if the entries acknowledged and those marked failed add up to the batch |
| Delivery.EffectIsNextInOrder | packages/go/inbox/inbox.go:37-52 | A delivery that commits a new row extends the effects by the next message of the partition not yet seen |
| Delivery.TakenUpExactly | packages/go/inbox/inbox.go:37-52 | A record is taken up if and only if its session is idle and no other has a new row for the same message open |
| Delivery.ExactlyOnce | packages/go/kafka/consumer.go:188-233 | Every record below the committed offset has had its effect exactly once, no message twice, and only stored messages any |
| Delivery.EffectsFollowThePartition | packages/go/kafka/consumer.go:188-233 | The effects are the distinct messages of a prefix of the partition in the order of their first occurrence, zombie sessions or not |
| Delivery.PublishedIsInTheLog | packages/go/outbox/worker.go:148-161 | Nothing is marked published that is not in the partition |
| Delivery.QuietMeansComplete | packages/go/outbox/worker.go:91-164 | Once all is published and committed, the effects are the stored messages, each once |
| DeliveryProgress.ClaimIsARun | packages/go/kafka/consumer.go:188-233 | What the receive loop marks is what a run of the protocol marks; a claim that ends early ends its session |
| DeliveryProgress.BatchIsARun | packages/go/outbox/worker.go:116-146 | Publishing a batch is a run of the protocol, after which the worker holds exactly the acknowledged entries |
| DeliveryProgress.ProcessIsARun | packages/go/outbox/worker.go:91-164 | With its end, a batch is a run that marks exactly those entries, or none |
| DeliveryProgress.CanAlwaysComplete | packages/go/kafka/consumer.go:92-140 | From every reachable state a run brings each stored message to exactly one effect |
| DeliveryProgress.AnyBacklogIsReachable | packages/go/outbox/worker.go:91-164 | Whatever distinct messages, in whatever order, can be what is stored |
| DeliveryRefinement.DeliveryEndsAsInTheProtocol | packages/go/inbox/inbox.go:31-56 | Whatever handler, transaction and driver do, the rows of a delivery and the protocol stay in step |
| DeliveryRefinement.SoundDeliverySucceeds | packages/go/inbox/inbox.go:31-56 | With a sound driver a record seen before ends in success, and a new one if and only if its handler succeeds |

## Left out

- Repositories, Postgres, Redis, the Kafka client, gRPC, HTTP, tracing, metrics and logging: only their contracts are kept, such as an atomic transaction, a unique insert and a committed offset that never goes back.
- Argon2, SHA-256, JWT verification and UUID generation: hashes of verifiers are an arbitrary function, new identifiers are parameters.
- Error texts, wrapping and JSON payloads: an error is its kind, an event its type, aggregate and version; the reason texts and the random identifier of a stage transition are dropped.
- Authorization ports, loaders, brokers and drivers: their answers are parameters of the operations, and the theorems hold for all answers.
- Nil receivers, and nil contexts except in `Consumer.Start`: a method is called on an object with a context.
- Integer widths: versions, generations and counters are unbounded, where Go's 64-bit integers would wrap after 2^63 or 2^64 steps; the 32-bit and 8-bit bounds of the hash text are modelled.
- Characters: in `Phc`, `Base64` and `Text` a character stands for a byte of the text; white space is that of Unicode as `unicode.IsSpace` lists it.
- Lists of structs: Go keeps contacts, accounts and factors as struct values in slices. Here a list holds values, and an element is changed through an object of its class and written back, so aliasing of elements is not captured.
- Emails and phones: `email.go` and `phone.go` are the same code but for names, so one class and one set of operations take a channel.
- Use cases that load aggregates outside their transaction: each is one atomic step on the store, so lost updates between two of them are not captured; the optimistic check would be in the repositories.
- `GetActiveByCandidateAndVacancy`: read as "not in a terminal stage"; the query itself is not part of this model.
- Interviews, identity profiles, verification challenges, grants and sessions: they repeat in simpler form what is covered; a completed interview with feedback is a parameter of the stage change.
- JwksInterleaving.NobodyWaitsForNothing: that a flight ends in bounded time (`RefreshTimeout`) and that callers are eventually told is liveness and not modelled.
- Single flight: a primitive, one running closure at a time whose result goes to all who joined it before it ended.
- Labels.ComputeLabelsLayout: coordinates are reals, so float rounding is not captured; the order in which branched groups are visited is a parameter, and ties between equally left lines are left open, as `sort_by` leaves them.
- Several partitions and consumer groups: `Delivery` has one partition and one consumer, which is where offsets and inbox rows meet; the retry delays of failed outbox entries and claim tokens are not modelled.
- The rest of the renderer (SVG text, path rewriting) and of the watcher (file reading, polling): the lines and the include relation are given.
- Worker and consumer goroutines, `Shutdown`, `wait` and the poll interval: the loops are modelled by what they do in one round, the interleavings by the steps of `Delivery` and `JwksInterleaving`.
