# User service: verified model

A Dafny model of the parts of the user service that have to be right under retries, concurrency and failing calls, with
proofs of what they guarantee. `dafny verify dfyconfig.toml` checks everything.

The requirement the model starts from is README.md:20 of the service: `user.create-user` is a mutating request that must
stay idempotent under retries and safe across several instances. The service has no transactions, so that has to follow
from the order of single database calls and the constraints of the schema.

## How the model is built

**Store and requests.** `Domain` holds the rows and the objects the code updates in place, `Store` the tables, the
schema's constraints, and each repository call as one atomic step. `Requests` takes every request that writes (create
delivery, `CreateUser`, `UpdateUser`, `ChangeStatus`, `ChangeRole`, `AttachIdentity`, `RemoveIdentity`, profile edits)
apart at its calls: `Start` is the validation before the first call and `Step` is one call together with the code up to
the next one. A schedule (`Exec`) lets any number of requests arrive and take turns; each call gets an `Answer`
saying whether it fails and which id a generator would return. A theorem about `Exec` is therefore about every
interleaving on every number of instances and every pattern of faults.

**The code itself.** `Repositories` and `Services` are the same requests as imperative code over a `Database` object. Each
method is proved to leave the tables, the reply and the number of calls that a function of `Sequential` gives for
every script of answers; `Sequential` in turn is proved equal to the run of `Step` with nothing in between. So the
interleaved machine, the big-step functions and the methods describe one system.

**What is proved of it.** `Interleavings` (constraints, ownership of rows, status), `CreateDeliveries` (idempotence),
`IdentityLinks` (ownership of linked accounts), `ManageLaws` (the administrative requests under faults, and emails over
serial runs), `EmailRaces` (emails when requests overlap). `Outcomes` says of each request, in terms of what was sent and
field by field, when it is refused, which error it reports, and which row is stored in the end.

**Role cache.** `CacheKeys` says which questions share a key. `RoleCache` has the caching client as a class and as a
machine in which calls race with one another and with role changes: clock sample, map read, begin of the load, answer
and store are separate steps, and the clock only moves forward. The history of successful loads is kept in order, so a
cached value can be traced to the load that produced it.

**Admission.** `Admission` has the authentication middleware followed by the role middleware as the router composes
them, and characterises exactly when an administrative handler is reached, with any role client and with the cache.

**Strings and numbers.** `AvatarMigration` (URLs to file ids and back), `MaskedEmail` (the two masking functions),
`Paging` (the administrative list, with 64-bit arithmetic).

## Where the code is worth a second look

Each of these but the last is a lemma with a concrete input, an exact condition, or both.

- Two users can end up with one email. `migrations/0006_auth_split.up.sql:3` dropped the constraint although the
  `uniqueIndex` tag at `internal/domain/user.go:19` still announces it, and two things then go wrong. Look-up and write
  are two calls, so two overlapping creates can both find an email free (`EmailRaces.OverlappingCreatesShareAnEmail`); for
  creates issued at once that can happen if and only if two valid ones ask for one email that nobody has
  (`EmailRaces.BatchIsSafeExactly`). And a save writes the whole row, so a status change that loaded a user before its
  email was changed brings the old email back, after somebody else has taken it (`EmailRaces.StaleSaveSharesAnEmail`).
  Without these two kinds of overlap emails stay distinct (`EmailRaces.EmailsStayDistinct`).
- A failed `CreateUser` leaves its user behind if and only if its compensating delete was due and failed
  (`ManageLaws.CreateUserIsAllOrNothing`, input in `ManageLaws.FailedCreateLeavesUser`).
- A failed `UpdateUser` has changed something, the requested profile fields, if and only if its final save failed and those
  fields differ (`ManageLaws.FailedUpdateWritesExactly`, input in `ManageLaws.FailedUpdateKeepsProfile`).
- Two different questions share a cache entry exactly when they have two arguments and a space in one of them
  (`CacheKeys.SomeOtherQuestionSharesTheKey`); the cache is transparent exactly when such questions have one answer.
- The role that authentication puts into the context is upper-cased and the administrative roles are lower-case, so
  that role never opens the administrative routes; without a role client nobody gets in
  (`Admission.ContextRoleNeverDecides`).
- The offset of a page is a 64-bit product. It is exact for exactly the pages with page - 1 <= (2^63 - 1) / per; page
  2^60 + 1 of 16 rows shows the first page again (`Paging.WrappedPageRepeatsTheFirst`).
- An email that ends in its only "@", behind a local part, is masked differently the second time; all others are not
  (`MaskedEmail.MaskingTwice`).
- Migration 0007 down and up loses blank file ids and those with a slash, and no others (`AvatarMigration.DownThenUpRestores`).
- A failed attach leaves the account linked if and only if it got as far as its insert and the rename after it did not go
  through (`IdentityLinks.FailedAttachLinksExactly`, input in `IdentityLinks.AttachWithoutProfileFailsAndLinks`).
- The test double at `test/unit/user_manage_service_test.go:121` compares emails without regard to case, the repository
  compares them exactly; the model follows the repository.

## Assumptions

- A call that fails leaves the tables as they were. `Create` stores the given row, with a generated id when it has none;
  `Save` stores the whole given row. Generated ids are never used twice.
- Ids are opaque text.
- `First` returns the row with the least primary key.
- `X-User-Id` and `X-User-ID` are one header, since header names are case-insensitive.
- An offset that is not positive is no offset.

## Model

| member | source | states |
|---|---|---|
| `CreateDeliveries.DeliveriesAreIdempotent` | internal/adapters/nats/create_user_handler.go:36-69 | over every schedule and every fault, as long as only deliveries work on the id: at most one delivery inserts, none if the user was there; the row then has that delivery's id and trimmed email, NEW_USER, and is active; it has one profile exactly if the winner's profile insert succeeded and none otherwise; without a winner nothing exists; ok:true is replied only when the row exists |
| `CreateDeliveries.DeliveriesInsertOnce` | internal/adapters/nats/create_user_handler.go:41-68 | next to requests of any kind on any user, updates of the same user included: the row exists exactly if it was there or one delivery, the only one, inserted it, and ok:true is never replied without it |
| `CreateDeliveries.RejectedDeliveryWroteNothing` | internal/adapters/nats/create_user_handler.go:32-65 | every call of a delivery that ends without having created the user, in particular with ok:false, leaves the whole store unchanged |
| `CreateDeliveries.FaultFreeDeliveryIsNotRejected` | internal/adapters/nats/create_user_handler.go:41-68 | a delivery none of whose own calls fails is at no moment on its way to ok:false, whatever fails elsewhere |
| `CreateDeliveries.FaultFreeDeliverySucceeds` | internal/adapters/nats/create_user_handler.go:36-68 | with a well-formed payload and a non-blank id, such a delivery has replied ok:true after three turns of its own, and the user exists |
| `CreateDeliveries.OutcomeStands` | internal/adapters/nats/create_user_handler.go:41-68 | once the winner has replied, neither the user row nor its profile, present or missing, ever changes by later deliveries |
| `CreateDeliveries.StandsFrom` | internal/adapters/nats/create_user_handler.go:41-68 | the same from any reachable state onwards, together with the idempotence invariant |
| `CreateDeliveries.OwnDelivery` | internal/adapters/nats/create_user_handler.go:41-68 | one call of a delivery writes only if it is then the winner, and becomes the winner only when there was no row |
| `CreateDeliveries.WinnerStoresTheProfile` | internal/adapters/nats/create_user_handler.go:66-68 | over every schedule, the winner's last call stores an empty profile for the user exactly when it passes with a fresh id, and ok:true is replied either way |
| `CreateDeliveries.OthersStayAway` | internal/usecase/user_manage_service.go:59-196 | a step of any request about another user leaves row and profile of this user as they are |
| `CreateDeliveries.OthersAreHarmless` | internal/usecase/user_manage_service.go:120-182 | a step of any request other than a delivery for this user neither creates nor removes its row |
| `Services.CreateUserHandler.Handle` | internal/adapters/nats/create_user_handler.go:25-69 | refuses a malformed payload and a blank id without any call; otherwise store, reply and number of calls are those of `Sequential.HandleRun` for every script of answers |
| `Services.CreateUserHandler.CreateOnce` | internal/adapters/nats/create_user_handler.go:40-69 | the part after validation computes `Sequential.HandleRun` |
| `Services.CreateUserHandler.InsertOnce` | internal/adapters/nats/create_user_handler.go:49-69 | insert, then profile, or the second look, compute `Sequential.InsertRun` |
| `Sequential.HandleRunsAlone` | internal/adapters/nats/create_user_handler.go:40-69 | that function is the uninterrupted run of the interleaved machine's delivery |
| `Outcomes.DeliveryAppliesExactly` | internal/adapters/nats/create_user_handler.go:40-69 | uninterrupted: a known user is replayed and nothing written; a failing look-up or insert is reported and nothing written; otherwise exactly the row with this id, the trimmed email, NEW_USER and active is stored, and an empty profile exactly if that call passes with a fresh id |
| `Outcomes.OthersAreRefusedExactly` | internal/adapters/nats/create_user_handler.go:32-39 | refused before any call: a delivery without valid payload or with a blank id, a role change with a blank role, or else without a backend, and an identity request for a provider that is not google or github; and nothing else |
| `Interleavings.ExecKeeps` | migrations/0001_init.up.sql:4-14 | over every schedule all constraints of the schema hold (keys, foreign keys, one profile per user, the two identity constraints), no row id changes its owner, and an identity row never changes or comes back |
| `Interleavings.StepKeeps` | internal/usecase/user_manage_service.go:59-196 | every single call of every kind of request keeps those constraints and the rows that requests hold between calls |
| `Interleavings.AloneKeeps` | internal/usecase/user_manage_service.go:59-196 | an uninterrupted request ends and keeps the constraints |
| `Interleavings.RequestsEnd` | internal/usecase/user_manage_service.go:59-196 | no request waits for another: it ends after a bounded number of its own turns, in every schedule |
| `Interleavings.StatusStaysSound` | internal/domain/user.go:40-61 | over every interleaving, lost updates by whole-row saves included, every stored status is valid, the activity flag is true exactly for ACTIVE and NEW_USER, and `StatusOrDefault` returns the stored status |
| `Interleavings.StepSound` | internal/domain/user.go:44-51 | every single call keeps that for the stored rows and for the copies held between load and save |
| `Domain.StatusOrDefault` | internal/domain/user.go:53-61 | always valid; the stored status on sound rows; NEW_USER or INACTIVE by the flag otherwise |
| `Domain.User.SetStatus` | internal/domain/user.go:44-51 | sets status and flag to a sound pair exactly when the status is valid, and changes nothing otherwise |
| `Domain.User.Activate` | internal/domain/user.go:63-65 | the row is the old one with ACTIVE and its flag |
| `Domain.User.Deactivate` | internal/domain/user.go:67-69 | the row is the old one with INACTIVE and its flag |
| `Domain.User.Block` | internal/domain/user.go:71-73 | the row is the old one with BLOCKED and its flag |
| `Domain.UserProfile.Update` | internal/domain/user_profile.go:22-42 | id and user stay; a field not given stays, a given text is stored trimmed, and as none exactly when blank; a given file id also clears the URL |
| `Domain.UpdatedIsTheEdit` | internal/domain/user_profile.go:22-42 | the one row a request may leave: id and user stay, a field not given stays, a given text is stored trimmed, and as none exactly when blank |
| `Domain.ValidOnes` | internal/domain/user.go:40-42 | exactly the four defined statuses and the two known providers are valid |
| `Domain.UserProfile.WithAvatarURL` | internal/domain/user_profile.go:44-56 | without a profile, a resolver, or a file id that is not blank nothing happens; otherwise the URL is resolved from the trimmed file id; no stored field changes |
| `ManageLaws.CreateUserIsAllOrNothing` | internal/usecase/user_manage_service.go:73-118 | success if and only if the email is free, a role backend is configured, and every call goes through with fresh ids, and then exactly one user with the requested email, status and the flag of that status, its profile with the requested fields, and its role are new; on an error anything has changed if and only if the user was inserted, a later step failed, and then the compensating delete itself failed; then exactly the new user stays, with its profile if that was stored, and no role |
| `ManageLaws.CompleteOrTakeBack` | internal/usecase/user_manage_service.go:97-118 | from the inserted user onwards: success exactly when profile, backend and role are fine; otherwise everything is taken back, or exactly the new rows stay if the delete that is due fails |
| `ManageLaws.DeletingTakesBack` | internal/usecase/user_manage_service.go:102-114 | the compensating delete with its cascade undoes exactly what was added |
| `ManageLaws.FailedCreateLeavesUser` | internal/usecase/user_manage_service.go:97-104 | a concrete run: the database goes away after the insert, the reply is an error, and the user stays |
| `Services.UserManageService.CreateUser` | internal/usecase/user_manage_service.go:59-118 | refuses invalid requests in the code's order without any call; otherwise store, reply and calls are those of `Sequential.CreateRun` |
| `Services.UserManageService.CompleteUser` | internal/usecase/user_manage_service.go:97-118 | profile and role, each undone by deleting the user, compute `Sequential.CompleteRun` |
| `Sequential.CreateRunsAlone` | internal/usecase/user_manage_service.go:73-118 | `CreateRun` is the uninterrupted run of the interleaved machine |
| `Outcomes.CreateIsRefusedExactly` | internal/usecase/user_manage_service.go:59-78 | refused without any call, in this order: an email without "@", a password of less than six characters, a status that is neither empty nor one of the four, a blank role; and nothing else |
| `Outcomes.DraftTakesTheRequest` | internal/usecase/user_manage_service.go:60-78 | what a create takes from its request: the email trimmed and in lower case, the given status or ACTIVE, the trimmed role, display name and file id as sent |
| `Outcomes.CreateReportsExactly` | internal/usecase/user_manage_service.go:79-114 | "user already exists" if and only if the look-up finds the email, the missing backend if and only if everything before it went through, a conflict if and only if a generated id was used before, otherwise a failed call |
| `ManageLaws.UpdateUserAppliesExactly` | internal/usecase/user_manage_service.go:120-168 | the final save is made if and only if the request is admissible and no call before it fails; if it passes, the reply is a success and exactly the requested fields are written; if it fails, exactly the requested profile fields are; for every other error the store is unchanged |
| `ManageLaws.FailedUpdateWritesExactly` | internal/usecase/user_manage_service.go:152-166 | an update that replies with an error has changed the store if and only if it reached its final save, that failed, and the requested profile fields differ from the stored ones |
| `ManageLaws.FailedUpdateKeepsProfile` | internal/usecase/user_manage_service.go:152-166 | a concrete run: only the final save fails, the reply is an error, and the new display name is stored |
| `ManageLaws.AddressIsFree` | internal/usecase/user_manage_service.go:121-139 | the email step passes exactly when the user exists, the email is valid, nobody else is found with it, and no call fails; it changes only the email of the loaded user |
| `ManageLaws.EditApplies` | internal/usecase/user_manage_service.go:152-167 | the same for profile part and final save: the save is reached exactly when the profile is found and stored where one is requested |
| `Services.UserManageService.UpdateUser` | internal/usecase/user_manage_service.go:120-168 | store, reply and calls are those of `Sequential.UpdateRun` |
| `Services.UserManageService.LoadWithEmail` | internal/usecase/user_manage_service.go:121-139 | load and email check compute `Sequential.AddressRun` and write nothing |
| `Services.UserManageService.Amend` | internal/usecase/user_manage_service.go:141-167 | password, profile and save compute `Sequential.AmendRun` |
| `Sequential.UpdateRunsAlone` | internal/usecase/user_manage_service.go:120-168 | `UpdateRun` is the uninterrupted run of the interleaved machine |
| `Outcomes.UpdateStoresTheRequest` | internal/usecase/user_manage_service.go:120-168 | success if and only if the user exists, the email has an "@" and nobody comes before the user with it, the password has six characters, a profile exists where profile fields are given, and none of the calls fails; then the stored email is the given one trimmed and in lower case, the stored profile has the given fields, nothing else differs, and the reply shows what is stored |
| `Outcomes.UpdateReportsExactly` | internal/usecase/user_manage_service.go:120-168 | the error is the failed call, or else, in this order, the missing user, an email without "@", an email in use, a short password, the missing profile |
| `ManageLaws.ChangeStatusAppliesExactly` | internal/usecase/user_manage_service.go:170-182 | succeeds exactly when the user exists, the status is valid and both calls pass; then only that user's status and flag differ; otherwise nothing does |
| `Services.UserManageService.ChangeStatus` | internal/usecase/user_manage_service.go:170-182 | store, reply and calls are those of `Sequential.StatusRun` |
| `Sequential.StatusRunsAlone` | internal/usecase/user_manage_service.go:170-182 | `StatusRun` is the uninterrupted run of the interleaved machine |
| `Outcomes.StatusReportsExactly` | internal/usecase/user_manage_service.go:170-182 | a success shows the stored row and profile; otherwise the error is the failed call, the missing user, or the invalid status |
| `Services.UserManageService.ChangeRole` | internal/usecase/user_manage_service.go:184-196 | refuses a blank role and a missing backend without any call; otherwise store, reply and calls are those of `Sequential.RoleRun` |
| `Sequential.RoleRunsAlone` | internal/usecase/user_manage_service.go:184-196 | `RoleRun` is the uninterrupted run of the interleaved machine |
| `Outcomes.ChangeRoleAssignsTheRole` | internal/usecase/user_manage_service.go:184-196 | with a role that is not blank and a backend: the trimmed role is assigned to this very user if and only if the user exists and both calls pass, and nothing else is written; otherwise the error is the missing user or the failed call |
| `ManageLaws.NormalEmailIsNormal` | internal/usecase/user_manage_service.go:202-208 | an email that passes the check after normalising is trimmed, in lower case, and contains "@" |
| `Outcomes.NormalisingKeepsAt` | internal/usecase/user_manage_service.go:202-208 | the normalised email passes the check if and only if the given one contains "@" |
| `ManageLaws.SerialRunsKeepEmailsDistinct` | internal/usecase/user_manage_service.go:59-182 | over every serial run of create, update and status requests with any faults, failed compensation included: pairwise distinct emails stay so, and every email written is in normal form |
| `EmailRaces.EmailsStayDistinct` | internal/usecase/user_manage_service.go:59-182 | over every schedule of all requests but deliveries, with any faults: distinct emails stay distinct and every email written is in normal form, as long as at no moment two requests have found one email free and not yet written it, or work on copies of one user, inserted users that may be deleted again included |
| `EmailRaces.RequestsApartKeepEmailsDistinct` | internal/usecase/user_manage_service.go:59-182 | the same in terms of whole requests: emails stay distinct as long as overlapping requests neither carry the same normalised email nor work on the same user |
| `EmailRaces.BatchIsSafeExactly` | internal/usecase/user_manage_service.go:59-118 | for any creates issued at once: emails stay distinct in every interleaving and with any faults if and only if no two valid ones ask for one normalised email that nobody has |
| `EmailRaces.OverlappingCreatesShareAnEmail` | migrations/0006_auth_split.up.sql:3 | a concrete schedule of two overlapping creates, no call failing, after which two users have one email |
| `EmailRaces.StaleSaveSharesAnEmail` | internal/adapters/postgres/user_repo.go:32-34 | a concrete schedule in which no two requests that carry an email overlap and no call fails: a status change saves a row it loaded before an update moved the user to another email, which a create has taken meanwhile, and two users have one email |
| `IdentityLinks.OwnersAreFixed` | migrations/0002_user_identity_and_provider.up.sql:11-12 | at every moment of every run an external account has one owner and a user one account per provider; an identity row seen at two moments is the same row, owner included |
| `IdentityLinks.LinksAreLostOnlyByTheirOwner` | internal/adapters/postgres/user_identity_repo.go:55-57 | in every reachable state an identity row disappears only when its owner's own removal of that account deletes it (then only this one), or with its owner's user row when a failed create is undone |
| `IdentityLinks.AttachOfLinkedAccountWritesNothing` | internal/usecase/user_service.go:78-95 | attaching an account that is linked already, by its owner or anybody, leaves the store as it was, whatever fails |
| `IdentityLinks.AttachAddsOneRow` | internal/usecase/user_service.go:67-107 | the identity table changes if and only if the user exists with that email, the insert passes under a fresh id, and neither unique constraint is hit, and then by exactly the one new row, whatever fails afterwards; otherwise nothing is written; success if and only if that holds and the profile is found and saved, or the account was the requester's already; besides, only the owner's display name changes |
| `IdentityLinks.FailedAttachLinksExactly` | internal/usecase/user_service.go:93-104 | an attach that replies with an error has written something if and only if it got as far as its insert and the profile look-up or save after it did not go through |
| `IdentityLinks.AttachWithoutProfileFailsAndLinks` | internal/usecase/user_service.go:93-100 | a concrete input, a user without a profile: no call fails, the reply is an error, and the account is linked |
| `IdentityLinks.RemoveDeletesOwnLink` | internal/usecase/user_service.go:109-121 | succeeds exactly when the requester owns the account's row and both calls pass; then exactly that row is gone; otherwise nothing is |
| `IdentityLinks.AttachThenRemoveRestores` | internal/usecase/user_service.go:67-121 | attach and then a successful removal restore the identity table |
| `Services.UserService.AttachIdentity` | internal/usecase/user_service.go:67-107 | refuses an unknown provider without any call; otherwise store, reply and calls are those of `Sequential.AttachRun` |
| `Services.UserService.RemoveIdentity` | internal/usecase/user_service.go:109-121 | refuses an unknown provider without any call; otherwise store, reply and calls are those of `Sequential.RemoveRun` |
| `Services.UserService.UpdateProfile` | internal/usecase/user_service.go:41-51 | store, reply and calls are those of `Sequential.ProfileRun` with the display name alone |
| `Services.UserService.SetAvatarFileID` | internal/usecase/user_service.go:53-65 | store, reply and calls are those of `Sequential.ProfileRun` with the file id alone |
| `Sequential.AttachRunsAlone` | internal/usecase/user_service.go:67-107 | `AttachRun` is the uninterrupted run of the interleaved machine |
| `Outcomes.AttachReportsExactly` | internal/usecase/user_service.go:67-104 | the error is the failed call, or else the missing user, another email, an account linked to another user (only if that look-up passes), a constraint that refuses the insert, or the missing profile |
| `Sequential.RemoveRunsAlone` | internal/usecase/user_service.go:109-121 | `RemoveRun` is the uninterrupted run of the interleaved machine |
| `Outcomes.RemoveReportsExactly` | internal/usecase/user_service.go:109-121 | the error is the failed call, or else that nobody has the account, or that another user has it |
| `Sequential.ProfileRunsAlone` | internal/usecase/user_service.go:41-65 | `ProfileRun` is the uninterrupted run of the interleaved machine |
| `Outcomes.ProfileEditStoresTheField` | internal/usecase/user_service.go:41-65 | success if and only if the profile exists and both calls pass; then the stored profile has exactly the given field, trimmed or none when blank, and is the one in the reply; otherwise nothing is written |
| `Repositories.Database.CreateUser` | internal/adapters/postgres/user_repo.go:28-30 | one call: the row is stored under its id, or a generated one, or refused when the key is taken; the object gets the id |
| `Repositories.Database.UpdateUser` | internal/adapters/postgres/user_repo.go:32-34 | one call: the whole row is saved |
| `Repositories.Database.FindUserByEmail` | internal/adapters/postgres/user_repo.go:36-42 | one call: the first user with exactly that email, with profile, or not found; nothing is written |
| `Repositories.Database.FindUserById` | internal/adapters/postgres/user_repo.go:44-50 | one call: the user with that id, with profile, or not found; nothing is written |
| `Repositories.Database.DeleteUserById` | internal/adapters/postgres/user_repo.go:52-54 | one call: the user goes with its profile and identities |
| `Repositories.Database.CreateProfile` | internal/adapters/postgres/user_profile_repo.go:25-27 | one call: the profile is stored, or refused without a user or beside another profile |
| `Repositories.Database.UpdateProfile` | internal/adapters/postgres/user_profile_repo.go:29-31 | one call: the whole row is saved |
| `Repositories.Database.FindProfileByUser` | internal/adapters/postgres/user_profile_repo.go:33-39 | one call: that user's profile or not found; nothing is written |
| `Repositories.Database.CreateIdentity` | internal/adapters/postgres/user_identity_repo.go:27-29 | one call: the identity is stored, or refused without a user or when either unique constraint is hit |
| `Repositories.Database.FindIdentity` | internal/adapters/postgres/user_identity_repo.go:31-37 | one call: the row of that account or not found; nothing is written |
| `Store.ReadsAnswer` | internal/adapters/postgres/user_repo.go:36-50 | the four look-ups behind those methods: a found row is stored, has what was asked for, with the profile of its user, and comes first by primary key; not found only if there is none |
| `Repositories.Database.DeleteIdentityById` | internal/adapters/postgres/user_identity_repo.go:55-57 | one call: the row with that id goes |
| `RoleCache.StalenessIsBounded` | internal/adapters/rbac/client.go:160-177 | over every schedule, a hit with clock sample now returns what the role service answered to a question under the same key in a load stored at s with now < s + ttl, even where an older load overwrote a newer one; the map holds nothing but the values of successful loads |
| `RoleCache.CallsCatchUp` | internal/adapters/rbac/client.go:223-225 | once ttl has passed since the last store of any load begun before an assignment, every call made since then is answered by a load begun at or after it |
| `RoleCache.ExecKeeps` | internal/adapters/rbac/client.go:160-177 | over every schedule the map is the replay of the successful loads in store order, every stored value is the role service's answer at the load's answer time, and every finished call is explained by a load |
| `RoleCache.PlainCallsAreTransparent` | internal/adapters/rbac/client.go:156-221 | while roles do not change and no user id contains a space, each successful call in every interleaving returns exactly the role service's answer |
| `RoleCache.TransparentExactlyWhenKeysSuffice` | internal/adapters/rbac/client.go:156-177 | for arbitrary ids, that holds of all schedules if and only if questions sharing a key have one answer |
| `RoleCache.AssertionsSucceed` | internal/adapters/rbac/client.go:179-221 | in every schedule every value a call returns has the type its caller asserts |
| `RoleCache.UninterruptedCallIsCached` | internal/adapters/rbac/client.go:160-177 | with nothing in between, a call of the concurrent machine leaves the map and the result that `WithCache` gives |
| `RoleCache.CachedKeepsTypes` | internal/adapters/rbac/client.go:160-177 | a call keeps one value type per kind of key, and its result fits its question |
| `RoleCache.CachingClient.WithCache` | internal/adapters/rbac/client.go:160-177 | map and result are those of `Cached`: an unexpired entry unchanged, a failed load without a trace, a successful one stored until ttl after its store |
| `RoleCache.CachingClient.GetRoleByUserID` | internal/adapters/rbac/client.go:179-188 | the cached role; the assertion succeeds |
| `RoleCache.CachingClient.GetPermissionsByUserID` | internal/adapters/rbac/client.go:190-199 | the cached permissions; the assertion succeeds |
| `RoleCache.CachingClient.CheckPermission` | internal/adapters/rbac/client.go:201-210 | the cached yes or no; the assertion succeeds |
| `RoleCache.CachingClient.CheckRole` | internal/adapters/rbac/client.go:212-221 | the cached yes or no; the assertion succeeds |
| `RoleCache.CachingClient.AssignRole` | internal/adapters/rbac/client.go:223-225 | the delegate decides and the cache stays as it is |
| `CacheKeys.KindsNeverCollide` | internal/adapters/rbac/client.go:156-158 | for arbitrary arguments, keys of different kinds never coincide |
| `CacheKeys.SharedKey` | internal/adapters/rbac/client.go:156-158 | within a kind, two keys coincide exactly when the space-joined arguments do |
| `CacheKeys.PlainKeysAreInjective` | internal/adapters/rbac/client.go:156-158 | among user ids without a space the key determines the question |
| `CacheKeys.SomeOtherQuestionSharesTheKey` | internal/adapters/rbac/client.go:156-158 | some other question has the same key if and only if the question has two arguments and a space in either |
| `Admission.ServeAdmin` | internal/adapters/http/router.go:44 | a request reaches the administrative handler if and only if the caller is identified by header pair or verified token, the user exists, the NATS role check passes where it applies, and the role client names or confirms one of the two roles |
| `Admission.HeaderAdmission` | internal/adapters/http/router.go:44 | with a user header: the handler is reached if and only if the role header is not blank, the user exists, and the role client names one of "admin" and "moderator" or confirms it |
| `Admission.TokenAdmission` | internal/adapters/http/router.go:44 | without one: if and only if the scheme is bearer in any case, the verifier accepts exactly the text behind the first space, its user exists, the NATS check allows the role in use where connected, and the role client names or confirms one of the two roles |
| `Admission.WhoIsIdentified` | internal/adapters/http/middleware/auth_middleware.go:52-83 | a header pair with a role that is not blank identifies exactly that pair; a bearer header exactly whom the verifier names for its token; a header without a space nobody |
| `Admission.BearerTokenFollowsTheScheme` | internal/adapters/http/middleware/auth_middleware.go:71-74 | the token is all that follows the first space, if "bearer" in any case precedes it |
| `Admission.Authenticate` | internal/adapters/http/middleware/auth_middleware.go:42-116 | passes if and only if `Authenticated`; then the context holds the caller's id and email, the upper-cased role in use, fetched when blank, and the fetched permissions, or those from before when that fails |
| `Admission.RequireRoles` | internal/adapters/http/middleware/rbac_middleware.go:29-77 | passes if and only if the user is known and the context role, the fetched role or a confirmed role is among the non-blank trimmed required ones; a fetched role replaces the one in the context |
| `Admission.GateOpensExactly` | internal/adapters/http/middleware/rbac_middleware.go:38-73 | the role gate opens if and only if the user is known and some required role, blanks around it aside, is the one in the context, is named by the client, or is confirmed by it in the order of the list |
| `Admission.FilterRoles` | internal/adapters/http/middleware/rbac_middleware.go:30-35 | the non-blank required roles, trimmed, in order |
| `Admission.RequiredRoles` | internal/adapters/http/middleware/rbac_middleware.go:30-35 | a role is left by the filter if and only if it is not blank and was listed, blanks around it aside |
| `Admission.RequirePermission` | internal/adapters/http/middleware/rbac_middleware.go:79-107 | passes if and only if the user is known and the permission is in the context or confirmed by the client |
| `Admission.ContextRoleNeverDecides` | internal/adapters/http/middleware/rbac_middleware.go:43-50 | an upper-cased context role never opens the gate of the lower-case roles: with a client its answers alone decide, without one nobody passes |
| `Admission.UpperCaseIsNoAdminRole` | internal/adapters/http/middleware/auth_middleware.go:108 | no upper-cased role equals a role the administrative routes require |
| `Admission.AnswerIsJustified` | internal/adapters/rbac/client.go:160-177 | every answer of a cached call about space-free arguments is the role service's own answer to that very question, stored less than ttl before the call's clock sample |
| `Admission.CachedAdmissionIsJustified` | internal/adapters/http/middleware/rbac_middleware.go:51-70 | with the cache plugged in, over every interleaving, whoever passes on the client's word has such an answer giving that very user one of the required roles |
| `Admission.CachedAdminIsJustified` | internal/adapters/http/router.go:44 | the same for both middlewares together: whoever reaches an administrative handler through the cache, with a space-free user id, has a fresh enough answer of the role service giving that very user one of the two roles |
| `AvatarMigration.ExtractionUndoesDownloadURL` | internal/adapters/filestorage/client.go:146-148 | for every base URL and every non-empty id without a slash, "files" included, the migration's extraction from the download URL yields that id, also with slash-free text behind it |
| `AvatarMigration.ExtractedIsTheLastMatch` | migrations/0007_avatar_file_id.up.sql:4-8 | extraction returns the group of the last match of the pattern, which is what the greedy prefix leaves |
| `AvatarMigration.DownThenUpRestores` | migrations/0007_avatar_file_id.down.sql:4-8 | a row comes back if and only if its file id is NULL, or neither blank nor with a slash |
| `AvatarMigration.UpThenDownRestores` | migrations/0007_avatar_file_id.up.sql:4-8 | a row comes back if and only if its URL is NULL or the service's own URL for some id, without a base |
| `AvatarMigration.TableDownThenUp` | migrations/0007_avatar_file_id.down.sql:1-11 | the whole table comes back if and only if every row can |
| `AvatarMigration.ProfileTable.Up` | migrations/0007_avatar_file_id.up.sql:1-11 | every row gets the extracted id where it had none and its URL matches, and loses its URL |
| `AvatarMigration.ProfileTable.Down` | migrations/0007_avatar_file_id.down.sql:1-11 | every row gets its URL back where it had none and its file id is not blank, and loses its file id |
| `AvatarMigration.UpKeepsOrExtracts` | migrations/0007_avatar_file_id.up.sql:4-11 | up keeps a file id that was there, and otherwise takes the group of the last match, and none exactly when nothing matches |
| `AvatarMigration.DownKeepsOrBuilds` | migrations/0007_avatar_file_id.down.sql:4-11 | down keeps a URL that was there, and otherwise builds /files/ID/download, unless there is no id or it is made of spaces only |
| `AvatarMigration.LiteralURLs` | migrations/0007_avatar_file_id.up.sql:5 | literal URLs: what is built, what is extracted with a query behind it, from the last of two matches, and from none |
| `MaskedEmail.CopiesAgree` | internal/adapters/http/api/v1/handler.go:276-304 | the two masking functions give the same text on every input |
| `MaskedEmail.MaskingTwice` | internal/adapters/http/admin/v1/handler.go:237-264 | masking is idempotent if and only if the input does not have exactly one "@" with a local part before it and nothing after it |
| `MaskedEmail.MaskShowsThreeThings` | internal/adapters/http/admin/v1/handler.go:237-264 | for one "@" and two non-empty parts, the mask consists of the first rune of the local part, the last rune of the domain name, and the suffix |
| `MaskedEmail.MaskHidesTheRest` | internal/adapters/http/admin/v1/handler.go:237-264 | two such emails have the same mask if and only if they agree in those three things |
| `MaskedEmail.MaskOfAddress` | internal/adapters/http/admin/v1/handler.go:237-264 | for local@name.top the mask is the first rune of local, "****@***", the last rune of name, and ".top" |
| `MaskedEmail.MaskOfPlainDomain` | internal/adapters/http/admin/v1/handler.go:252-263 | a domain that ends in a dot, or has none behind its first rune, is shown by its last rune alone |
| `MaskedEmail.OthersAreOnlyTrimmed` | internal/adapters/http/admin/v1/handler.go:238-247 | a text without exactly one "@", or with nothing before it, is trimmed and otherwise shown as it is |
| `MaskedEmail.SplitCounts` | internal/adapters/http/admin/v1/handler.go:239-242 | splitting gives one part more than there are "@" |
| `MaskedEmail.PairOfSplit` | internal/adapters/http/admin/v1/handler.go:239-244 | when splitting gives two parts, they make up the input with one "@" between them and have none inside |
| `Paging.PagesPartitionTheList` | internal/adapters/http/admin/v1/handler.go:99-107 | for every page size allowed, pages 1 to ceil(n/per) concatenate to the whole list and every later page whose offset is representable is empty |
| `Paging.RowIsOnOnePage` | internal/adapters/postgres/user_repo.go:56-67 | among the pages whose offset is representable, a user is on page k/per + 1 and on no other |
| `Paging.OffsetIsExact` | internal/adapters/http/admin/v1/handler.go:99 | the 64-bit product is the true offset if and only if page - 1 <= (2^63 - 1) / per |
| `Paging.PageIsRightExactly` | internal/adapters/http/admin/v1/handler.go:99 | a page shows the rows it should if and only if the list is empty, the offset is representable, or it wraps to a value past the end |
| `Paging.WrappedPageRepeatsTheFirst` | internal/adapters/http/admin/v1/handler.go:99 | a concrete page beyond the bound that shows the first page |
| `Paging.AdminHandler.ListUsers` | internal/adapters/http/admin/v1/handler.go:80-112 | each error exactly when its parameter or the call is at fault, page before per, which must be within 10 and 100 and is 50 when missing; otherwise the total and, in order, a response presenting each row of exactly that page |
| `Paging.AdminHandler.NewUserResponse` | internal/adapters/http/admin/v1/handler.go:203-228 | the response presents the user: id, flag, name and file id as stored, the masked email, the status or its fallback, and exactly with a storage and a file id that is not blank the URL of the trimmed id |
| `Paging.ResponseMasksTheEmail` | internal/adapters/http/admin/v1/handler.go:209-213 | a response for an address shows its first rune, the last rune of the domain name and the suffix, and nothing else of it |
| `Paging.ShownAvatarURLNamesTheFile` | internal/adapters/http/admin/v1/handler.go:222-228 | the shown URL of a slash-free file id leads back to that id by the migration's extraction |

## Left out

- GORM behind the repositories: association auto-save, timestamps, default values for zero fields, the SQL of `Save`; a whole-row save writes the given row.
- Lost acknowledgements: a call that reports a failure but has taken effect is not modelled; a failed call has no effect.
- The uuid column type: syntax errors and equal uuids written differently; ids are opaque text.
- Reuse of ids: a generated id is never one used before, so a caller-supplied id that a generator later produces is excluded by assumption in the theorems about deliveries.
- Unicode tables: case mapping covers ASCII, white space Latin-1; strings are sequences of runes, and the length of a password counts runes where the code counts bytes.
- bcrypt and password storage: hashing is a call that may fail and `SetPasswordHash` does nothing (internal/domain/user.go:36-38).
- HTTP, NATS and JSON encoding, retries with back-off, timeouts and cancellation: a remote call answers or fails.
- `strconv.Atoi`: a query parameter is absent, malformed or a 64-bit integer.
- The order of the user list: a fixed total order of the rows is assumed, although `created_at` may have ties, and the count and the page are read from one state although the code makes two queries.
- Distinct emails next to create deliveries, which neither lower-case nor check the email.
- Trimmed display names as an invariant: `CreateUser` stores the requested name as it is.
- `ListIdentities`, `GetByID`, provider metadata and `JSONMap`: reads and a round trip through the standard library.
- Avatar upload, configuration, logging, wiring, the remaining rendering of responses.
