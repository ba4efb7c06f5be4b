# LoRaWAN back office: accounts, notifications, contracts and network views

This project models the core of a LoRaWAN network back office. The backend
is NestJS over a Prisma store and the front end is Next.js. The model covers:

- **Account lifecycle.** Creation by an administrator, self-service access
  requests with an activation token, activation, update, removal and login.
  Both the current Prisma service and the older TypeORM service with its
  JWT strategy are modelled.
- **Body validation.** The validation rules of the user DTOs.
- **Seed scripts.** The two scripts that install the roles and the `admin`
  account.
- **Read services.** Notifications, companies, service contracts,
  settings, roles, API keys, applications, the dashboard and the network
  views.
- **Front-end logic.** The reset-password page, the notification bell, the
  super-admin dashboard and the companies search.

The store is a class `Store.Db` whose tables are maps from identifiers to
rows. The class invariant `Db.Valid` carries the database's constraints:

- unique usernames, emails and activation tokens;
- unique role and company names;
- the foreign keys the services depend on: a user's company, the owners
  of notifications and API keys, the company of contracts and
  applications, the application of devices, and the device and gateway
  of frames;
- identifiers below the next fresh one.

Each service method reads and writes that object. It states its result,
with the related rows and counts its query includes, and the new tables for
every outcome, including each error the service throws
(`NotFound`, `Conflict`, `BadRequest`, `Unauthorized`) and the case where
Prisma rejects a write.

Inputs the code gets from outside become parameters:

- the clock (`now`, in milliseconds);
- uuids and random bytes;
- the answers of HTTP calls in the pages.

bcrypt is modelled as an injective hash with `compare(p, hash(p))`.

## Model

| member | source | states |
|---|---|---|
| Users.LocalPart | backend/src/feature/users/users.service.ts:226 | `email.split('@')[0]`: a prefix of the email without '@', ending just before the first '@' when there is one |
| Users.DerivedUsernameDistinct | backend/src/feature/users/users.service.ts:226 | usernames derived from the same email at two different instants differ |
| Users.GetOrCreateCompany | backend/src/feature/users/users.service.ts:239-248 | the result is the company with that name: the existing row, or a new row when none had that name; names stay unique |
| Users.ResolveRole | backend/src/feature/users/users.service.ts:38-55 | an explicit roleId must exist (NotFound otherwise); without one the USER role is used, NotFound when it is missing |
| Users.InsertUser | backend/src/feature/users/users.service.ts:81-97 | a row that clashes with no unique index is added and nothing else changes |
| Users.CompanyForCreate | backend/src/feature/users/users.service.ts:64-79 | a company is attached exactly when a non-empty name is given, and it is the get-or-create row of that name |
| Users.Create | backend/src/feature/users/users.service.ts:20-98 | Conflict with nothing written when the username or email is taken; role errors as in ResolveRole; success exactly when neither applies; on success exactly one new row with the requested fields, the resolved role and the company, returned without its password |
| Users.InsertCreated | backend/src/feature/users/users.service.ts:81-97 | once checks pass, the new row carries the request's fields, role and company, and only that row is added |
| Users.FindOne | backend/src/feature/users/users.service.ts:110-124 | NotFound exactly for an unknown id; otherwise the password-free view with its role |
| Users.FindByUsername | backend/src/feature/users/users.service.ts:126-130 | finds a row exactly when one has that username, and returns that stored row |
| Users.FindByEmail | backend/src/feature/users/users.service.ts:132-136 | finds a row exactly when one has that email, and returns that stored row |
| Users.UpdateConflictAsWritten | backend/src/feature/users/users.service.ts:141-161 | the uniqueness filter as written pads an absent field with `{}`, so an update of the username alone conflicts with every other user, even one whose username differs |
| Users.IntendedClashRefines | backend/src/feature/users/users.service.ts:141-161 | a real clash on the new username or email always trips the filter; with both fields given, the filter trips exactly on a real clash |
| Users.ApplyUpdate | backend/src/feature/users/users.service.ts:164-190 | each given field replaces the stored one and each absent one is kept (username, email, names, phone, usage description, status, role); a given password is re-hashed, an absent one is kept; id, token and its expiry, last login, company and creation date are untouched |
| Users.UpdateKeepsIdentitiesUnique | backend/src/feature/users/users.service.ts:141-190 | when the check passes, the updated user shares no username and no email with any other user |
| Users.ReplaceUser | backend/src/feature/users/users.service.ts:177-190 | a row that keeps the unique indexes replaces the old one and nothing else changes |
| Users.Update | backend/src/feature/users/users.service.ts:138-199 | NotFound for an unknown id; Conflict when the filter matches another user; unknown roleId gives NotFound; success exactly when none applies; nothing written on error; on success only that row changes, to ApplyUpdate of the body |
| Users.Remove | backend/src/feature/users/users.service.ts:201-206 | NotFound and no change for an unknown id; a user some notification references is refused with Prisma's foreign-key error and nothing changes; otherwise exactly that row is deleted and its API keys lose their owner |
| Users.Delete | backend/src/feature/users/users.service.ts:203-205 | the delete itself: the row goes, the API keys it owned are kept without owner, and the store stays valid |
| Users.RequestAccess | backend/src/feature/users/users.service.ts:208-277 | Conflict on a taken email; NotFound without a USER role; Prisma's unique error when the derived username is taken; success exactly when none applies; on success one new PENDING USER row with the derived username, the token, expiry now + 48 h, and the get-or-create company |
| Users.InsertRequested | backend/src/feature/users/users.service.ts:226-266 | after the company is settled, a clash on the derived username is a database error; otherwise the one new row is the requested account |
| Users.TokenHolder | backend/src/feature/users/users.service.ts:286-292 | finds the account exactly when some account holds the token |
| Users.ActivateAccount | backend/src/feature/users/users.service.ts:279-322 | errors in order: passwords differ, unknown token, expiry present and past, already ACTIVE, with nothing written; success makes the holder ACTIVE with the new password hash and clears token and expiry, changing no other row; success exactly when the passwords agree and the holder's token is valid and it is not yet ACTIVE |
| Users.ActivateTwice | backend/src/feature/users/users.service.ts:286-314 | after a successful activation the same token gives NotFound |
| Users.UpdateLastLogin | backend/src/feature/users/users.service.ts:324-329 | only that row's lastLogin becomes now; an unknown id is a database error with no change |
| Users.ValidatePassword | backend/src/feature/users/users.service.ts:331-333 | true exactly when the stored hash is the hash of the given password |
| Users.ActivatedAcceptsItsPassword | backend/src/feature/users/users.service.ts:298-314 | an activated account is ACTIVE without a token and accepts exactly the password chosen at activation |
| Auth.WithoutPassword | backend/src/feature/auth/auth.service.ts:41-43 | the principal keeps id, username, email, status and last login of the row, and has no password |
| Auth.Gate | backend/src/feature/auth/auth.service.ts:21-37 | no account gives no user; a non-ACTIVE account is refused as not active; an ACTIVE one passes exactly with the right password |
| Auth.StatusBeforePassword | backend/src/feature/auth/auth.service.ts:25-36 | for a non-ACTIVE account the outcome is the same error whatever password is given |
| Auth.GateAdmitsExactly | backend/src/feature/auth/auth.service.ts:21-37 | an account passes exactly when it is ACTIVE and its hash is that of the password |
| Auth.LookupFindsCandidate | backend/src/feature/auth/auth.service.ts:16-19 | the account found is the email match when there is one, else the username match |
| Auth.ValidateUser | backend/src/feature/auth/auth.service.ts:14-44 | the candidate passes exactly when it is ACTIVE and the password matches; then only its lastLogin changes and the user comes back without password; a refusal or an unknown identifier writes nothing |
| Auth.Lookup | backend/src/feature/auth/auth.service.ts:16-19 | the email lookup, then the username lookup, finds the candidate |
| Auth.ClaimsOf | backend/src/feature/auth/auth.service.ts:53-57 | the token payload carries the user's id as subject and its username, and no role: the lookup that found the user loads no `role` relation |
| Auth.LoginUserOf | backend/src/feature/auth/auth.service.ts:59-71 | the returned user projection carries the principal's id, username, email, names and status, and neither role nor company, which the lookup does not load |
| Auth.Login | backend/src/feature/auth/auth.service.ts:46-72 | unknown identifier or wrong password gives Unauthorized "Identifiants invalides", a non-ACTIVE account the not-active error; an ACTIVE account with the right password always logs in; success issues the payload of the candidate and updates only its lastLogin; errors write nothing; since the lookups have no `include`, the payload and user carry no role and no company |
| LegacyUsers.StatusText | backend/src/auth/strategies/jwt.strategy.ts:28 | the stored status text is 'active' exactly for ACTIVE |
| LegacyUsers.Selected | backend/src/users/users.service.ts:50-61 | findOne's column selection drops the password and the activation token and keeps identity, role, status and company |
| LegacyUsers.Credentials | backend/src/users/users.service.ts:66 | findByUsername's column selection keeps the password hash and every other column except the activation token and its expiry |
| LegacyUsers.ApplyUpdate | backend/src/users/users.service.ts:95-98 | `Object.assign`: each given field replaces the stored one, a given password is hashed on save, id, token and last login are kept |
| LegacyUsers.MissingExpiryCountsAsExpired | backend/src/users/users.service.ts:153 | with no expiry stored, the comparison reads null as 0, so the token counts as expired whenever now > 0 |
| LegacyUsers.LegacyUsersService.constructor | backend/src/users/users.service.ts:19-23 | the repository starts empty |
| LegacyUsers.LegacyUsersService.FirstUser | backend/src/users/users.service.ts:27-30 | `findOne` with a filter returns a stored row satisfying it, or none when no row does |
| LegacyUsers.LegacyUsersService.Create | backend/src/users/users.service.ts:25-41 | Conflict with no change exactly when the username or email is taken; otherwise one new row with the hashed password and role USER and status PENDING by default |
| LegacyUsers.LegacyUsersService.FindOne | backend/src/users/users.service.ts:50-61 | NotFound exactly for an unknown id; otherwise the selected columns of that row |
| LegacyUsers.LegacyUsersService.FindByUsername | backend/src/users/users.service.ts:63-68 | finds a row exactly when one has that username, and returns it with its password but without activation token or expiry |
| LegacyUsers.LegacyUsersService.FindByEmail | backend/src/users/users.service.ts:70-74 | finds a row exactly when one has that email |
| LegacyUsers.LegacyUsersService.Update | backend/src/users/users.service.ts:76-99 | NotFound for an unknown id; Conflict when the first row holding one of the given username and email (TypeORM drops the `{}` of an absent field) is another user; success exactly otherwise, that row becoming ApplyUpdate of the body; nothing written on error |
| LegacyUsers.UpdateConflictsMeans | backend/src/users/users.service.ts:79-90 | Conflict is raised only when another user holds a given identity, and always when one does while the target holds neither of them |
| LegacyUsers.LegacyUsersService.Remove | backend/src/users/users.service.ts:101-104 | NotFound and no change for an unknown id; otherwise exactly that row is deleted |
| LegacyUsers.LegacyUsersService.RequestAccess | backend/src/users/users.service.ts:106-136 | Conflict exactly on a taken email; otherwise one new PENDING USER row without password, with the derived username, the token and expiry now + 48 h |
| LegacyUsers.LegacyUsersService.ActivateAccount | backend/src/users/users.service.ts:138-169 | errors in order: mismatch, unknown token, expired (a missing expiry counts as expired), already ACTIVE; success exactly when none applies; success sets the password and ACTIVE and clears token and expiry on that row alone |
| LegacyUsers.LegacyUsersService.UpdateLastLogin | backend/src/users/users.service.ts:171-173 | only that row's lastLogin changes; a missing id changes nothing and raises nothing |
| LegacyUsers.UpdateMissesClash | backend/src/users/users.service.ts:76-99 | when the target is the first row matched (here through its own email, given alongside the new username), an update to another user's username goes through and leaves two rows with the same username |
| LegacyAuth.Gate | backend/src/auth/auth.service.ts:17-32 | no account gives no user; a non-ACTIVE account is refused before the password is checked; an ACTIVE one passes exactly with its password |
| LegacyAuth.RequestedAccountCannotLogIn | backend/src/auth/auth.service.ts:22-32 | an account without a password, as requestAccess creates it, never passes the gate |
| LegacyAuth.ValidateUser | backend/src/auth/auth.service.ts:14-40 | lookup by username only; on success only that row's lastLogin changes, the rest of the stored row is kept, and the user comes back without password; otherwise nothing is written |
| LegacyAuth.Validate | backend/src/auth/strategies/jwt.strategy.ts:21-33 | accepts exactly a stored subject whose status reads 'active', returning the stored id, username and role; an unknown subject fails with findOne's NotFound, so the null check never fires; nothing is written |
| LegacyAuth.Login | backend/src/auth/auth.service.ts:42-68 | unknown username or wrong password gives "Identifiants invalides", a non-ACTIVE account the not-active error; an ACTIVE account with the right password always logs in; the payload and user are the stored account's, its lastLogin alone is updated, and the JWT strategy accepts the payload |
| Notifications.Create | backend/src/feature/notifications/notifications.service.ts:10-25 | an unknown user is a foreign-key error with no change; otherwise exactly one new unread notification with the given fields, returned with its recipient's id, username, email and names |
| Notifications.Insert | backend/src/feature/notifications/notifications.service.ts:12-24 | the one new row is unread, has the next id and the given fields |
| Notifications.SuperAdminIds | backend/src/feature/notifications/notifications.service.ts:29-40 | the recipients are exactly the users whose role is SUPER_ADMIN, each once, in id order |
| Notifications.Batch | backend/src/feature/notifications/notifications.service.ts:44-62 | one unread notification per recipient, in order, with consecutive fresh ids and the given type, title and message |
| Notifications.ExtendedContents | backend/src/feature/notifications/notifications.service.ts:44-62 | after the batch is stored, every old notification is unchanged and every new one is stored under its id |
| Notifications.CreateForSuperAdmins | backend/src/feature/notifications/notifications.service.ts:27-67 | the notifications created are the batch for the SUPER_ADMIN users at call time, each returned with its recipient's id, username, email and names, and the table is the old one plus that batch |
| Notifications.NotifyAll | backend/src/feature/notifications/notifications.service.ts:44-64 | the sequential loop for the parallel creates stores exactly the batch for the recipients |
| Notifications.NotifyNext | backend/src/feature/notifications/notifications.service.ts:44-62 | one create of the loop extends the stored batch by the next recipient's notification |
| Notifications.FanOutContents | backend/src/feature/notifications/notifications.service.ts:27-67 | after the fan-out each SUPER_ADMIN has exactly one new notification and no other user has one |
| Notifications.OnePerSuperAdmin | backend/src/feature/notifications/notifications.service.ts:44-62 | a user gets one notification of the batch when it is a recipient and none otherwise |
| Notifications.CountOfUser | backend/src/feature/notifications/notifications.service.ts:69-75 | the listed rows are as many as the user's notifications |
| Notifications.CountUnread | backend/src/feature/notifications/notifications.service.ts:76-93 | countUnreadByUser equals the length of findUnreadByUser |
| Notifications.FindAllByUser | backend/src/feature/notifications/notifications.service.ts:69-75 | exactly that user's notifications, newest first |
| Notifications.FindUnreadByUser | backend/src/feature/notifications/notifications.service.ts:77-84 | exactly that user's unread notifications, newest first |
| Notifications.CountUnreadByUser | backend/src/feature/notifications/notifications.service.ts:86-93 | the number of that user's unread notifications, the length of the unread list; 0 exactly when all of the user's notifications are read |
| Notifications.MarkedRead | backend/src/feature/notifications/notifications.service.ts:104-107 | that notification is read and every other one is unchanged |
| Notifications.MarkedReadIdempotent | backend/src/feature/notifications/notifications.service.ts:95-108 | marking the same notification read twice is the same as once |
| Notifications.MarkAsRead | backend/src/feature/notifications/notifications.service.ts:95-108 | NotFound and no change for an unknown id; otherwise only that notification becomes read and it is returned |
| Notifications.AllMarkedRead | backend/src/feature/notifications/notifications.service.ts:111-118 | the user has no unread notification left and other users' notifications are unchanged |
| Notifications.MarkAllAsReadByUser | backend/src/feature/notifications/notifications.service.ts:110-120 | returns the number of the user's previously unread notifications and leaves none unread, touching no other user |
| Notifications.Remove | backend/src/feature/notifications/notifications.service.ts:122-134 | NotFound and no change for an unknown id; otherwise exactly that notification is deleted |
| Companies.Create | backend/src/feature/companies/companies.service.ts:10-30 | Conflict with no change when the name is used; otherwise one new company, returned with its user and application counts, both 0; names stay pairwise distinct |
| Companies.NewCompanyUnused | backend/src/feature/companies/companies.service.ts:19-29 | a company not yet in the table is referenced by no user and no application, so the `_count` a new company is returned with is 0 and 0 |
| Companies.NewestFirst | backend/src/feature/companies/companies.service.ts:43-45 | every company once, ordered by creation date descending |
| Companies.Summaries | backend/src/feature/companies/companies.service.ts:34-42 | each company with the numbers of its users, applications and contracts |
| Companies.SummariesFollow | backend/src/feature/companies/companies.service.ts:32-47 | the summaries keep the order and every company of the list |
| Companies.FindAll | backend/src/feature/companies/companies.service.ts:32-47 | one summary per stored company, newest first, with its counts |
| Companies.FindOne | backend/src/feature/companies/companies.service.ts:49-75 | NotFound exactly for an unknown id; otherwise the company with every user that references it (each with its role), every application and every contract of it, and nothing else |
| Companies.MembersOf | backend/src/feature/companies/companies.service.ts:53-57 | exactly the company's users, as many as its user count, each with the row of its role |
| Companies.ApplicationsOf | backend/src/feature/companies/companies.service.ts:58 | exactly the company's applications, as many as its application count |
| Companies.ContractsOf | backend/src/feature/companies/companies.service.ts:59 | exactly the company's contracts, as many as its contract count |
| Companies.CountOwnUsers | backend/src/feature/companies/companies.service.ts:36-40 | the users count is the number of users attached to the company |
| Companies.CountOwnApplications | backend/src/feature/companies/companies.service.ts:36-40 | the applications count is the number of the company's applications |
| Companies.CountOwnContracts | backend/src/feature/companies/companies.service.ts:36-40 | the contracts count is the number of the company's contracts |
| Companies.Update | backend/src/feature/companies/companies.service.ts:77-105 | NotFound for an unknown id; Conflict only when another company has the new name, so keeping its own name is allowed; names stay distinct; only that row changes, and it is returned with the number of its users and applications |
| Companies.Remove | backend/src/feature/companies/companies.service.ts:107-112 | NotFound and no change for an unknown id; a company that contracts or applications reference is refused with Prisma's foreign-key error and nothing changes; otherwise exactly that company is deleted and its users are detached from it |
| Companies.Delete | backend/src/feature/companies/companies.service.ts:109-111 | the delete itself: the company goes, its users keep their rows without company, and the store stays valid |
| Contracts.DaysLeft | backend/src/feature/contracts/contracts.service.ts:49-51 | `Math.ceil((end - now) / day)` on integer milliseconds: the least d with end - now <= d days |
| Contracts.DaysLeftUnique | backend/src/feature/contracts/contracts.service.ts:49-51 | any d bracketing the remaining time that way is DaysLeft |
| Contracts.DaysLeftAtBoundary | backend/src/feature/contracts/contracts.service.ts:49-51 | no time left is 0 days; one millisecond left is 1 day |
| Contracts.DaysLeftMonotone | backend/src/feature/contracts/contracts.service.ts:49-51 | a later end date never has fewer days left |
| Contracts.StatusText | backend/src/feature/contracts/contracts.service.ts:52 | the three status texts 'expired', 'expiring', 'active' name the three statuses |
| Contracts.StatusOf | backend/src/feature/contracts/contracts.service.ts:52 | expired iff daysLeft < 0, expiring iff 0..7, active iff > 7 |
| Contracts.StatusMonotone | backend/src/feature/contracts/contracts.service.ts:51-52 | for a fixed now a later end date never gives a lower status in expired < expiring < active |
| Contracts.StatusByEndDate | backend/src/feature/contracts/contracts.service.ts:49-52 | the status read directly from the remaining milliseconds |
| Contracts.ViewAt | backend/src/feature/contracts/contracts.service.ts:54-58 | the view keeps every field of the contract and adds its company's id and name, its daysLeft and its status |
| Contracts.Views | backend/src/feature/contracts/contracts.service.ts:47-59 | one view per contract, in the same order |
| Contracts.CompanyOf | backend/src/feature/contracts/contracts.service.ts:34-40 | the selected company columns are the contract's company id and, when that company exists, its name |
| Contracts.BySoonestEnd | backend/src/feature/contracts/contracts.service.ts:33-46 | every contract once, ordered by end date ascending |
| Contracts.FindAll | backend/src/feature/contracts/contracts.service.ts:32-60 | one view per stored contract, ordered by end date ascending, with the company's id and name and with daysLeft and status at now |
| Contracts.ViewsFollow | backend/src/feature/contracts/contracts.service.ts:47-59 | the views keep the order and the contracts of the list, and each carries its contract's company |
| Contracts.Create | backend/src/feature/contracts/contracts.service.ts:10-30 | NotFound with nothing inserted for an unknown company; otherwise one new contract with the given fields, returned with its company row |
| Contracts.FindOne | backend/src/feature/contracts/contracts.service.ts:62-75 | NotFound exactly for an unknown id; otherwise the stored contract with its company row |
| Contracts.Patched | backend/src/feature/contracts/contracts.service.ts:79-86 | the given fields replace the stored ones and the dates change only when provided |
| Contracts.PatchedEmpty | backend/src/feature/contracts/contracts.service.ts:79-86 | an empty update body changes nothing |
| Contracts.Update | backend/src/feature/contracts/contracts.service.ts:77-95 | NotFound for an unknown id with no change; otherwise only that contract changes, to the patched row, which is returned with its company row |
| Contracts.Remove | backend/src/feature/contracts/contracts.service.ts:97-102 | NotFound and no change for an unknown id; otherwise exactly that contract is deleted |
| Settings.Fold | backend/src/feature/settings/settings.service.ts:10-13 | the map has exactly the stored keys |
| Settings.FoldValues | backend/src/feature/settings/settings.service.ts:10-13 | with unique keys, each key maps to its stored value |
| Settings.FindAll | backend/src/feature/settings/settings.service.ts:8-14 | a key-to-value map holding every stored key with its value |
| Settings.Lookup | backend/src/feature/settings/settings.service.ts:17-19 | finds the row with that key, or none exactly when no row has it |
| Settings.FindOne | backend/src/feature/settings/settings.service.ts:16-26 | NotFound exactly for a missing key; otherwise the row with that key |
| Settings.FindOneMatchesFindAll | backend/src/feature/settings/settings.service.ts:8-26 | findOne succeeds exactly for the keys of findAll, with the same value |
| Settings.Upserted | backend/src/feature/settings/settings.service.ts:29-33 | the new row is stored and every other row is an old one |
| Settings.UpsertedUnique | backend/src/feature/settings/settings.service.ts:28-34 | upsert keeps the keys unique |
| Settings.Upsert | backend/src/feature/settings/settings.service.ts:28-34 | returns the row written, and the table becomes the upserted table |
| Settings.UpsertedFold | backend/src/feature/settings/settings.service.ts:28-34 | the settings map after upsert(k, v) is the old map with k set to v |
| Settings.UpsertThenFindOne | backend/src/feature/settings/settings.service.ts:16-34 | after upsert(k, v), findOne(k) returns v |
| Settings.UpsertKeepsOthers | backend/src/feature/settings/settings.service.ts:16-34 | after upsert(k, v), findOne of any other key is unchanged |
| Settings.UpsertIdempotent | backend/src/feature/settings/settings.service.ts:28-34 | upsert applied twice equals once |
| Settings.EntriesMap | backend/src/feature/settings/settings.service.ts:37-45 | the keys of the request are the keys of `Object.entries` |
| Settings.EntriesMapValues | backend/src/feature/settings/settings.service.ts:37-45 | each key of the request maps to its value |
| Settings.UpsertStep | backend/src/feature/settings/settings.service.ts:37-45 | one more upsert extends the written map |
| Settings.UpdateMany | backend/src/feature/settings/settings.service.ts:36-47 | every pair of the request is stored, keys outside it keep their values, and the result is findAll of the new table |
| Roles.Permissions | backend/src/feature/roles/roles.service.ts:29-40 | the permission lists of SUPER_ADMIN, ADMIN and USER in their order, and the empty list for any other name |
| Roles.PermissionsShared | backend/src/feature/roles/roles.service.ts:29-40 | only SUPER_ADMIN has every permission; device management belongs to ADMIN and USER alone |
| Roles.ByName | backend/src/feature/roles/roles.service.ts:17-19 | every role once, ordered by name |
| Roles.Views | backend/src/feature/roles/roles.service.ts:23-26 | each role keeps its fields and gains its user count and permissions |
| Roles.FindAll | backend/src/feature/roles/roles.service.ts:8-27 | one view per stored role, ordered by name ascending, with its permissions |
| Roles.ViewsFollow | backend/src/feature/roles/roles.service.ts:23-26 | the views keep the order and exactly the roles of the list |
| ApiKeys.HexDigit | backend/src/feature/api-keys/api-keys.service.ts:11 | a nibble is written as a lower-case hex digit |
| ApiKeys.HexValue | backend/src/feature/api-keys/api-keys.service.ts:11 | a hex digit reads back as the nibble that writes it |
| ApiKeys.Hex | backend/src/feature/api-keys/api-keys.service.ts:11 | two lower-case hex digits per byte |
| ApiKeys.Unhex | backend/src/feature/api-keys/api-keys.service.ts:11 | reads one byte per two characters |
| ApiKeys.UnhexHex | backend/src/feature/api-keys/api-keys.service.ts:11 | decoding the hex of bytes gives the bytes back |
| ApiKeys.HexUnhex | backend/src/feature/api-keys/api-keys.service.ts:11 | a well-formed hex text is the hex of its decoding |
| ApiKeys.GenerateKey | backend/src/feature/api-keys/api-keys.service.ts:11 | 'sk_' then the hex of 32 random bytes: 67 characters, the rest lower-case hex |
| ApiKeys.ParseKey | backend/src/feature/api-keys/api-keys.service.ts:11 | a key that parses yields 32 bytes |
| ApiKeys.KeyRoundTrip | backend/src/feature/api-keys/api-keys.service.ts:11 | the bytes are recovered from a generated key, and every parsable key is generated from its bytes |
| ApiKeys.Create | backend/src/feature/api-keys/api-keys.service.ts:10-20 | an owner that is not a stored user is refused with Prisma's foreign-key error and nothing written; otherwise exactly one new key with the given name, the generated key and the optional owner |
| ApiKeys.CountOwned | backend/src/feature/api-keys/api-keys.service.ts:22-29 | the listed keys are as many as the owned keys |
| ApiKeys.FindAll | backend/src/feature/api-keys/api-keys.service.ts:22-29 | exactly the owner's keys, or all keys without owner, newest first |
| ApiKeys.FindAllUnfiltered | backend/src/feature/api-keys/api-keys.service.ts:22-29 | without an owner every stored key is listed |
| ApiKeys.FindOne | backend/src/feature/api-keys/api-keys.service.ts:31-41 | NotFound exactly for an unknown id; otherwise the stored key |
| ApiKeys.UpdateLastUsed | backend/src/feature/api-keys/api-keys.service.ts:43-50 | NotFound and no change for an unknown id; otherwise only that key's lastUsed changes |
| ApiKeys.Remove | backend/src/feature/api-keys/api-keys.service.ts:52-57 | NotFound and no change for an unknown id; otherwise exactly that key is deleted |
| Applications.CountOfCompany | backend/src/feature/applications/applications.service.ts:8-28 | the listed applications are as many as those matching the filter |
| Applications.Matching | backend/src/feature/applications/applications.service.ts:8-28 | exactly the matching applications, newest first |
| Applications.Summaries | backend/src/feature/applications/applications.service.ts:11-23 | each application with its company and its device count |
| Applications.FindAll | backend/src/feature/applications/applications.service.ts:8-28 | exactly the applications of the company (all without one), newest first, with company and device count; nothing is written |
| Applications.SummariesFollow | backend/src/feature/applications/applications.service.ts:11-23 | the summaries keep the order and exactly the applications of the list |
| Applications.FilterNarrows | backend/src/feature/applications/applications.service.ts:9-10 | a company filter never lists more applications than the unfiltered list, which lists them all |
| Applications.DeviceSummaries | backend/src/feature/applications/applications.service.ts:34-44 | each device with its frame count |
| Applications.CountOfApplication | backend/src/feature/applications/applications.service.ts:17-21 | the device count is the number of the application's devices |
| Applications.FindOne | backend/src/feature/applications/applications.service.ts:30-52 | NotFound exactly for an unknown id; otherwise the application with its company and every one of its devices, each with its frame count |
| Dashboard.Average | backend/src/feature/dashboard/dashboard.service.ts:37-44 | the average is null exactly for no values |
| Dashboard.SumBounds | backend/src/feature/dashboard/dashboard.service.ts:37-44 | a sum of values within bounds lies within n times the bounds |
| Dashboard.AverageBounds | backend/src/feature/dashboard/dashboard.service.ts:37-44 | an average of values within bounds lies within the bounds |
| Dashboard.OnlineUptimes | backend/src/feature/dashboard/dashboard.service.ts:37-44 | the uptimes of the online gateways, one per gateway |
| Dashboard.UptimeInRange | backend/src/feature/dashboard/dashboard.service.ts:37-53 | with uptimes in 0..100 the reported uptime is in 0..100, and 0 without online gateways |
| Dashboard.GetStats | backend/src/feature/dashboard/dashboard.service.ts:8-54 | device counts within the company scope, active ≤ total; gateway counts never scoped, active ≤ total; dataPoints counts frames since the start of the day |
| Dashboard.ScopeNarrows | backend/src/feature/dashboard/dashboard.service.ts:9-21 | a company scope never counts more devices than the unscoped figures |
| Dashboard.ActivityOf | backend/src/feature/dashboard/dashboard.service.ts:74-86 | an activity entry carries its frame, the id and name of its device exactly when the device exists, and likewise for its gateway |
| Dashboard.LatestInScope | backend/src/feature/dashboard/dashboard.service.ts:57-72 | min(limit, n) distinct frames of the scope, newest first; no frame left out is newer than one listed |
| Dashboard.GetRecentActivity | backend/src/feature/dashboard/dashboard.service.ts:56-88 | the frames LatestInScope picks for the limit, ten when none is given, in its order, only of the company's devices when one is given, each with its device and gateway |
| Network.Coverage | backend/src/feature/network/network.service.ts:27 | 0 without gateways, and always within 0..100 |
| Network.AverageLatency | backend/src/feature/network/network.service.ts:16-25 | null exactly when no gateway is online |
| Network.GetHealthStats | backend/src/feature/network/network.service.ts:8-38 | totals are the table sizes and active counts the online rows, so active ≤ total; coverage 0 without gateways |
| Network.ByName | backend/src/feature/network/network.service.ts:57-59 | every gateway once, ordered by name |
| Network.GetGatewayHealth | backend/src/feature/network/network.service.ts:40-61 | one entry per gateway, ordered by name ascending, with its frame count |
| Network.GetAllGateways | backend/src/feature/network/network.service.ts:114-127 | one summary per gateway, ordered by name ascending |
| Network.Latest | backend/src/feature/network/network.service.ts:64-68 | min(limit, number of frames) distinct frames, newest first; no frame left out is newer than one listed |
| Network.ViewOf | backend/src/feature/network/network.service.ts:69-84 | a listed frame carries the id, name and devEui of its device exactly when the device exists, and the id and name of its gateway likewise |
| Network.GetFrames | backend/src/feature/network/network.service.ts:63-85 | the frames Latest picks for the limit, a hundred when none is given, in its order, each with its device and gateway |
| Network.GetGatewayStats | backend/src/feature/network/network.service.ts:87-112 | null exactly for an unknown gateway; otherwise its packets, uptime, latency and errors and its frame count |
| Network.StatsAgreeWithHealth | backend/src/feature/network/network.service.ts:40-112 | every gateway with stats also appears in the health list |
| Seed.EnsureRole | backend/prisma/seed.ts:18-31 | the role of that name is found, or created with the next id when absent |
| Seed.RolesLoopStep | backend/prisma/seed.ts:18-31 | one turn of the loop keeps the loop invariant |
| Seed.EnsureRoles | backend/prisma/seed.ts:10-33 | afterwards each seeded role exists; old roles are kept, only seeded names are added, and nothing changes when all exist |
| Seed.Repaired | backend/prisma/seed.ts:44-73 | the admin ends ACTIVE, SUPER_ADMIN and accepting 'admin'; a right password is kept; a configured admin is unchanged |
| Seed.RepairAdmin | backend/prisma/seed.ts:41-74 | only the admin row changes, to its repaired form |
| Seed.CreateSeedUser | backend/prisma/seed.ts:76-121 | a clash with an existing username or email fails with nothing written, and there is no other failure; otherwise one new ACTIVE account with password 'admin' |
| Seed.InsertSeedUser | backend/prisma/seed.ts:80-121 | the write of a clash-free account adds exactly that row with the next id |
| Seed.CreateDemoAccounts | backend/prisma/seed.ts:94-121 | succeeds whenever neither demo identity is taken; on success exactly the 'user' and 'superadmin' accounts are added, with their roles |
| Seed.CreateAccounts | backend/prisma/seed.ts:75-124 | succeeds whenever no seeded identity is taken; on success exactly 'admin', 'user' and 'superadmin' are added, in that order |
| Seed.RepairExisting | backend/prisma/seed.ts:41-74 | the existing admin is configured in place; other users and the user ids are unchanged; a configured admin is left alone |
| Seed.CreateFirst | backend/prisma/seed.ts:75-124 | succeeds whenever no seeded identity is taken; success adds exactly three accounts and configures the admin |
| Seed.SeedAccounts | backend/prisma/seed.ts:36-124 | always succeeds with an existing admin, and without one whenever no seeded identity is taken; an existing admin means no account is created; otherwise three are; other users are kept; a configured admin changes nothing |
| Seed.RunSeed | backend/prisma/seed.ts:6-127 | succeeds with an existing admin or when no seeded identity is taken; on success the roles exist and the admin is configured; no old role or other user changes; a second run on a seeded store changes nothing |
| Seed.KeptTransitive | backend/prisma/seed.ts:94-121 | rows kept by two steps are kept by both together |
| Seed.ThreeAdded | backend/prisma/seed.ts:75-124 | three new distinct ids add three rows |
| Seed.FirstRunShape | backend/prisma/seed.ts:75-124 | the three accounts of a first run are three new rows, and the admin among them is configured |
| Seed.SeededAdminReady | backend/prisma/seed.ts:80-91 | an account created with the admin identity, its password and the SUPER_ADMIN role is a configured admin |
| Seed.FreeAfterInsert | backend/prisma/seed.ts:76-121 | adding a row with another username and email leaves a free identity free |
| Seed.DemoFreeAfterAdmin | backend/prisma/seed.ts:76-121 | creating the admin leaves both demo identities free |
| Seed.SuperAdminFreeAfterUser | backend/prisma/seed.ts:94-121 | creating 'user' leaves the 'superadmin' identity free |
| Seed.ReadyAdminUnchanged | backend/prisma/seed.ts:62-73 | a configured admin is the one found by username and needs no repair |
| Seed.RepairedReady | backend/prisma/seed.ts:44-73 | after the repair the admin is configured |
| Seed.SeededRoles | backend/prisma/seed.ts:10-33 | the role loop leaves every seeded role present |
| Seed.RolesOnce | backend/prisma/seed.ts:10-33 | each seeded role exists exactly once |
| SeedAdmin.CreateAdmin | backend/src/scripts/seed-admin.ts:76-97 | succeeds whenever the admin identity is free; on a first run only the 'admin' account is created, configured |
| SeedAdmin.SeedAdminAccount | backend/src/scripts/seed-admin.ts:36-97 | succeeds with an existing admin or when the admin identity is free; repairs an existing admin in place or creates it; no other account is created or changed |
| SeedAdmin.SeedAdminScript | backend/src/scripts/seed-admin.ts:6-112 | succeeds with an existing admin or when the admin identity is free; on success the roles exist and the admin is configured; at most one account, 'admin', is added; a second run changes nothing |
| SeedAdmin.AtMostOneAdded | backend/src/scripts/seed-admin.ts:42-97 | usernames are unique, so at most one new account can be named 'admin' |
| Dtos.FirstLine | backend/src/feature/users/dto/reset-password.dto.ts:22 | the text before the first line terminator, which `.` in a lookahead can scan |
| Dtos.FirstLineWhole | backend/src/feature/users/dto/reset-password.dto.ts:22 | a text without line terminators is its own first line |
| Dtos.FirstLineGrows | backend/src/feature/users/dto/reset-password.dto.ts:22 | the first line of a prefix is a prefix of the first line |
| Dtos.ClassesOfPrefix | backend/src/feature/users/dto/reset-password.dto.ts:22 | the four character classes found in a prefix are found in the whole |
| Dtos.EmailNotEmpty | backend/src/feature/users/dto/create-user.dto.ts:19-20 | an address the email rule accepts has at least five characters |
| Dtos.StatusNamed | backend/src/feature/users/dto/create-user.dto.ts:48-50 | a text is read as a status exactly when it names one |
| Dtos.StatusNames | backend/src/feature/users/dto/create-user.dto.ts:48-50 | every status's name reads back as that status |
| Dtos.IdentityViolations | backend/src/feature/users/dto/create-user.dto.ts:12-35 | no violation exactly when username has ≥ 3 characters, the email passes, password has ≥ 6, and the optional names are strings; each of the five is reported exactly when its own rule fails |
| Dtos.ProfileViolations | backend/src/feature/users/dto/create-user.dto.ts:37-60 | no violation exactly when company, phone and usageDescription are absent or strings, roleId absent or a UUID, status absent or a member; each of the five is reported exactly when its own rule fails |
| Dtos.CreateUserViolations | backend/src/feature/users/dto/create-user.dto.ts:12-61 | the body is accepted exactly when every field constraint holds, and each of the ten properties is reported exactly when its own rule fails |
| Dtos.ValidateCreateUser | backend/src/feature/users/dto/create-user.dto.ts:12-61 | a body is valid exactly when it has no violation; a valid body yields the DTO carrying each submitted field, the role id read from its UUID and the named status, absent ones absent; an invalid one lists its violations |
| Dtos.CreateImpliesUpdateValid | backend/src/feature/users/dto/create-user.dto.ts:14-25 | a validated create body also meets the update body's constraints |
| Dtos.ContactViolations | backend/src/feature/users/dto/request-access.dto.ts:10-22 | no violation exactly when both names have ≥ 2 characters and the email passes; each of the three is reported exactly when its own rule fails |
| Dtos.DetailViolations | backend/src/feature/users/dto/request-access.dto.ts:24-37 | no violation exactly when company has ≥ 2 characters, phone is absent or a string and usageDescription has ≥ 10; each of the three is reported exactly when its own rule fails |
| Dtos.RequestAccessViolations | backend/src/feature/users/dto/request-access.dto.ts:9-38 | accepted exactly when the names have ≥ 2 characters, the email passes, company has ≥ 2, phone is absent or a string and usageDescription has ≥ 10; each of the six is reported exactly when its own rule fails |
| Dtos.ValidateRequestAccess | backend/src/feature/users/dto/request-access.dto.ts:9-38 | a body is valid exactly when it has no violation, and then yields the DTO carrying each submitted field |
| Dtos.RequestAccessNamesCompany | backend/src/feature/users/dto/request-access.dto.ts:25-27 | a valid request always names a company |
| Dtos.ResetPasswordViolations | backend/src/feature/users/dto/reset-password.dto.ts:4-29 | accepted exactly when the token is a non-empty string and the password passes, token reported first |
| Dtos.ValidateResetPassword | backend/src/feature/users/dto/reset-password.dto.ts:4-29 | a body is valid exactly when it has no violation, and then yields the token and password |
| Dtos.ServerPatternIgnoresTail | backend/src/feature/users/dto/reset-password.dto.ts:22 | the pattern is not end-anchored: once a password passes, appending anything keeps it passing |
| Dtos.ServerAcceptsSpace | backend/src/feature/users/dto/reset-password.dto.ts:18-28 | "Aa1!aaa b", which has a space, passes the reset body's constraints |
| ResetPasswordPage.ValidatePasswordMeans | front/src/app/auth/reset-password/page.tsx:43-47 | the page accepts exactly: ≥ 8 characters, all in [A-Za-z0-9@$!%*?&], with a lower-case letter, an upper-case letter, a digit and a special character |
| ResetPasswordPage.ClientImpliesServer | front/src/app/auth/reset-password/page.tsx:43-47 | any password the page accepts passes the reset body's constraints |
| ResetPasswordPage.ServerAcceptsMore | front/src/app/auth/reset-password/page.tsx:43-47 | the converse fails: the server takes "Aa1!aaa b", which the page refuses |
| ResetPasswordPage.GetPasswordStrength | front/src/app/auth/reset-password/page.tsx:95-115 | the empty password gets a blank level; any other gets the table level whose score is its number of criteria met, at most 5 |
| ResetPasswordPage.ClassesGrow | front/src/app/auth/reset-password/page.tsx:98-103 | a character class present in a prefix is present in the whole |
| ResetPasswordPage.ScoreMonotone | front/src/app/auth/reset-password/page.tsx:98-103 | appending characters never lowers the score |
| ResetPasswordPage.ValidScoresHigh | front/src/app/auth/reset-password/page.tsx:45-103 | a password the page accepts scores at least 4, and 5 exactly when it has 12 characters |
| ResetPasswordPage.FailureMessage | front/src/app/auth/reset-password/page.tsx:76-85 | 400 shows the invalid-token message, ≥ 500 the server-error message, otherwise the response's message, else the error's message, else the fallback; never empty |
| ResetPasswordPage.ResetPasswordForm.constructor | front/src/app/auth/reset-password/page.tsx:22-31 | the token comes from the URL; without one the missing-token error shows |
| ResetPasswordPage.ResetPasswordForm.Edit | front/src/app/auth/reset-password/page.tsx:12-13 | the two inputs change and nothing else |
| ResetPasswordPage.ResetPasswordForm.HandleSubmit | front/src/app/auth/reset-password/page.tsx:49-89 | checks complexity, then equality, then the token, with the first failure's message and no request; otherwise the body {token, password} is sent and success or the failure message is shown |
| ResetPasswordPage.SentBodyValid | front/src/app/auth/reset-password/page.tsx:65-73 | every body the page sends passes the reset body's validation |
| NotificationBell.FloorDiv | front/src/components/NotificationBell.tsx:83-85 | `Math.floor(a / d)`: the largest q with q·d ≤ a |
| NotificationBell.FormatDate | front/src/components/NotificationBell.tsx:80-93 | "just now" iff less than a minute (future dates included), then minutes 1..59, hours 1..23, days 1..6, and a calendar date from seven days |
| NotificationBell.AgeText | front/src/components/NotificationBell.tsx:87-92 | a relative age has a text; only a calendar date has none |
| NotificationBell.AgeTextInjective | front/src/components/NotificationBell.tsx:87-92 | two different relative ages never read the same |
| NotificationBell.Badge | front/src/components/NotificationBell.tsx:117-120 | shown only with unread notifications; '99+' exactly above 99, otherwise the count in one or two digits |
| NotificationBell.WithoutId | front/src/components/NotificationBell.tsx:63 | the list without the entries of that id, keeping all others |
| NotificationBell.WithoutIdCounts | front/src/components/NotificationBell.tsx:63 | entries of other ids keep their multiplicity, entries of that id are gone |
| NotificationBell.WithoutIdIdempotent | front/src/components/NotificationBell.tsx:60-68 | marking the same id read twice leaves the list as after once |
| NotificationBell.Bell.constructor | front/src/components/NotificationBell.tsx:9-12 | no unread count, an empty list, closed and not loading |
| NotificationBell.Bell.LoadUnreadCount | front/src/components/NotificationBell.tsx:24-31 | the fetched count, or no change when the call fails |
| NotificationBell.Bell.LoadNotifications | front/src/components/NotificationBell.tsx:33-43 | the fetched list, or no change when the call fails; the spinner ends off |
| NotificationBell.Bell.HandleToggle | front/src/components/NotificationBell.tsx:45-58 | the dropdown flips; opening it loads the list, closing it does not |
| NotificationBell.Bell.HandleMarkAsRead | front/src/components/NotificationBell.tsx:60-68 | on success the entries of that id leave the list and the count becomes max(0, count − 1); a failed call changes nothing |
| NotificationBell.Bell.HandleMarkAllAsRead | front/src/components/NotificationBell.tsx:70-78 | on success the list is empty and the count 0; a failed call changes nothing |
| AdminDashboard.OrEmpty | front/src/app/admin/page.tsx:35-42 | a failed fetch reads as an empty list |
| AdminDashboard.CountStatus | front/src/app/admin/page.tsx:45-46 | the number of users with that status, never more than the users |
| AdminDashboard.CountStatusStep | front/src/app/admin/page.tsx:45-46 | the count is the first user's contribution plus the count of the rest |
| AdminDashboard.TwoStatusesBounded | front/src/app/admin/page.tsx:45-50 | active plus pending never exceeds the users, so the "Inactifs" figure is never negative |
| AdminDashboard.Summary | front/src/app/admin/page.tsx:63-70 | a row keeps id, email and status; company is the name or 'N/A'; the date is 'N/A' exactly when missing |
| AdminDashboard.RecentUsers | front/src/app/admin/page.tsx:59-71 | the first min(5, n) users in the fetched order, each summarised |
| AdminDashboard.Width | front/src/app/admin/page.tsx:240 | a bar width is 0 with no users, and within 0..100 |
| AdminDashboard.WidthsAddUp | front/src/app/admin/page.tsx:240-264 | with at least one user the active, pending and inactive bars add up to 100 |
| AdminDashboard.Dashboard.constructor | front/src/app/admin/page.tsx:10-19 | all figures 0, no recent users, loading |
| AdminDashboard.Dashboard.FetchData | front/src/app/admin/page.tsx:32-77 | the figures are the list lengths and status counts of the fetched lists (empty on failure), active + pending ≤ total, and the recent users are the first five |
| CompaniesPage.LowerChar | front/src/app/admin/companies/page.tsx:31 | lower-cases a Latin capital and keeps every other character |
| CompaniesPage.Lower | front/src/app/admin/companies/page.tsx:31 | lower-cases a text character by character, keeping its length |
| CompaniesPage.LowerIdempotent | front/src/app/admin/companies/page.tsx:31 | lower-casing twice is lower-casing once |
| CompaniesPage.FilteredCompanies | front/src/app/admin/companies/page.tsx:30-32 | keeps a company exactly when its lower-cased name contains the lower-cased term |
| CompaniesPage.EmptySearchKeepsAll | front/src/app/admin/companies/page.tsx:30-32 | an empty term keeps every company |
| CompaniesPage.FilteredIsSubsequence | front/src/app/admin/companies/page.tsx:30-32 | the result is an order-preserving subsequence of the list |
| CompaniesPage.FilteredIdempotent | front/src/app/admin/companies/page.tsx:30-32 | searching the result again with the same term changes nothing |
| CompaniesPage.SearchIgnoresCase | front/src/app/admin/companies/page.tsx:30-32 | a term and its lower-cased form select the same companies |
| CompaniesPage.ColumnsOfSummary | front/src/app/admin/companies/page.tsx:102-103 | on a list the companies service returned, the users column shows the company's number of users and the devices column one hundred per application |
| CompaniesPage.ItemOf | front/src/app/admin/companies/page.tsx:102-103 | the page's row of a company summary carries its id, name and both counts |
| CompaniesPage.DevicesShown | front/src/app/admin/companies/page.tsx:103 | the applications count times 100, or 0 when absent; always a multiple of 100 |

## Left out

- Floating point. Reals are exact, so the network coverage rounding, the
  average latency and uptime, the constant packet loss and the page's bar
  percentages are computed without IEEE rounding. Only their bounds and
  their zero guards are stated.
- `getCoverageAnalysis` (backend/src/feature/network/network.service.ts:129-168)
  picks regions with `Math.random`, so it is not modelled.
- Prisma's schema file is not part of this model. The unique indexes
  (username, email, activation token, role name, company name) and the
  foreign keys are read from the services' own checks and error handling.
- The legacy TypeORM entity file is not part of this model. Its status
  values are taken as the lower-case texts that the JWT strategy compares
  with 'active'.
- bcrypt is an injective `Hash` with `Compare(p, Hash(p))`; salts are not
  modelled.
- uuidv4, `crypto.randomBytes` and `jwtService.sign` are fresh-value
  parameters. A token is represented by its claims.
- The clock is a parameter `now` in milliseconds. The dashboard's start of
  day is also a parameter.
- Dtos.IsEmail: class-validator's `IsEmail` is approximated by
  "local part, '@', a domain with a dot". Its full grammar is not modelled.
- Dtos.ValidateCreateUser: `roleId` UUID texts are mapped to store
  identifiers by a given injective function `idOf`.
- Concurrency. The `Promise.all` of `createForSuperAdmins` and `updateMany`
  runs as a sequential loop, and races between requests are not modelled.
- `Date.now()` in a derived username is a natural number rendered in
  decimal. JavaScript's 2^53 precision limit is not modelled.
- Locale dates. `toLocaleDateString` in the bell and the dashboard is
  represented by the date value (`CalendarDate`, `LocaleDate`) with no text.
- CompaniesPage.Lower: `toLowerCase` is modelled on the Latin capitals A–Z
  only; other Unicode case mappings are not.
- The password-reset service methods (`forgotPassword`,
  `validateResetToken`, `resetPassword`) have no implementation in the
  source, so only the request body and the page are modelled. The page's
  `validateToken` call and its `isTokenValid` rendering are left out.
- Users.findAll and the legacy `findAll` are plain listings and are not
  modelled.
- Rendering, dropdown positioning, the bell's 30-second and 60-second
  refresh intervals, console logging and routing are not modelled.
- HTTP controllers, guards and modules are not modelled.
- Store.Db.Valid: the foreign keys follow Prisma's default referential
  actions, because the schema file is not part of this model. A required
  relation (notification owner, contract and application company, device
  application) refuses the delete of the row it references, and an
  optional one (user company, API key owner, frame device and gateway) is
  cleared. Only the two deletes the core performs, of users and of
  companies, are modelled.
- Dashboard.GetRecentActivity, Network.GetFrames: the limit is a natural
  number or absent. The controllers pass `parseInt` of the query text, and
  a negative or NaN `take` is not modelled.
- Users.Update: `UpdateUserDto` is not part of this model. It is taken as
  the create body without its company, every field optional, and the
  service is called with bodies that meet `ValidUpdate`.
- Roles.ByName, Network.ByName: text order is code-point order
  (`LexLe`), not the database's collation.
- ResetPasswordPage.Score, ResetPasswordPage.ValidatePassword and the Dtos
  length rules count code points. JavaScript counts UTF-16 code units, so
  the two differ outside the Basic Multilingual Plane.
- LegacyUsers.LegacyUsersService.FirstUser: TypeORM's `findOne` without
  an `order` returns whichever matching row the database yields first; the
  model takes the one with the smallest identifier.
- LegacyUsers.UpdateMissesClash assumes the legacy username column has no
  unique index, since the legacy entity file is not part of this model.
- Users.RequestAccess, LegacyUsers.LegacyUsersService.RequestAccess: the
  expiry is now + 48 h exactly. `setHours(getHours() + 48)` works in local
  time, which differs across a daylight-saving change.
