# Farm scheme dashboard: worker routes, entity store, session and scheme filter

This project is a Dafny model of the logic in a dashboard for agricultural loan and
subsidy applications. The worker answers REST routes from an indexed entity store:
one store per entity type (schemes, applications, users), each a map from storage
key to record plus an index listing the keys. The client keeps a small session store
and filters the scheme list by type. The model covers:

- `SharedTypes` (`shared_types.dfy`): the records of `shared/types.ts` (scheme,
  application, event, user, summary) and a `Response` value for the routes' 200,
  404 and 400 answers.
- `PasswordHash` (`password_hash.dfy`): the hex step of `hashPassword`. Each digest
  byte is written as `toString(16)` padded to two characters, and the pieces are
  joined. The model proves that this round-trips through a decoder, so comparing
  hashes is the same as comparing digests.
- `EntityStore` (`entity_store.dfy`): the `IndexedEntity` store the routes call
  (`exists`, `getState`, `create`, `list`, `ensureSeed`). It is a class whose
  invariant ties the index to the records: no duplicate keys, the same keys on both
  sides, and every record stored under the key its type derives for it.
- `Entities` (`entities.dfy`): the three entity descriptors (names, default records,
  seed data, key derivation; users are keyed by email) and the construction of
  `SEED_APPLICATIONS`.
- `DateOrder` (`date_order.dfy`): the in-place newest-first sort on an array, used
  for the application list and for an application's events.
- `Dashboard` (`dashboard.dfy`): the summary `reduce` written as a loop, proved
  against independent definitions of each figure. The summary does not depend on
  list order, and Rejected applications add nothing to it.
- `UserRoutes` (`user_routes.dfy`): the seeding middleware, register, login,
  dashboard summary, the application and scheme lists, and the single-application
  view.
- `AuthSession` (`auth_session.dfy`): the session store as a class with `user` and
  `isAuthenticated`, and the invariant that links them.
- `SchemesPage` (`schemes_page.dfy`): `filteredSchemes` and the guarded filter update.

Some external parts become parameters:

- The SHA-256 digest of a password (including its UTF-8 encoding) is a function
  `digest: string -> seq<Byte>`.
- `crypto.randomUUID()` is the `freshId` argument of `Register`.
- `new Date(s).getTime()` is a function `timeOf: string -> Timestamp`.
- The mock datasets of `shared/mock-data` are arguments of the descriptors.

The behaviour of `IndexedEntity` lives in `worker/core-utils`, which is not part of
this model. Its contracts here say only what the routes and the descriptors rely
on. The source cells in the table below for its members point at the call sites.

Where the code leaves a choice open or departs from what such an API is usually
expected to do, the model follows the code:

- Login answers 404 for an unknown email and 400 for a wrong password. An
  authentication endpoint is normally expected to answer both failures alike, so
  that it does not reveal which emails are registered; this one does not, and
  `UserRoutes.Login` states both outcomes.
- A duplicate email is rejected only by the register route's own `exists` check
  (worker/user-routes.ts:30-32). The model's `IndexedEntity.Create` overwrites a
  record stored under an existing key; this is a choice of the model, since
  `worker/core-utils` is not part of it.
- `getState` is only called after `exists` returns true. For a missing key the model
  returns the type's `initialState` rather than a NotFound failure.

## Model

| member | source | states |
|---|---|---|
| `PasswordHash.ToRadix16` | worker/user-routes.ts:12 | `n.toString(16)` yields at least one digit |
| `PasswordHash.PadStart` | worker/user-routes.ts:12 | `padStart` keeps a string that is already wide enough. Otherwise it reaches the width exactly, ends with the original string and is filled with the pad character before it |
| `PasswordHash.ByteToHex` | worker/user-routes.ts:12 | one byte becomes exactly two lower-case digits: the high nibble, then the low nibble |
| `PasswordHash.ToHex` | worker/user-routes.ts:11-12 | an n-byte digest becomes a string of length 2n, and every character is in 0-9a-f |
| `PasswordHash.HexRoundTrip` | worker/user-routes.ts:11-12 | decoding the hex string pair by pair gives back the digest bytes exactly |
| `PasswordHash.ToHexInjective` | worker/user-routes.ts:11-12 | two digests have the same hex exactly when they are equal |
| `PasswordHash.HashPassword` | worker/user-routes.ts:7-13 | the hash is twice as long as the digest and decodes back to it |
| `PasswordHash.HashesMatchIffDigestsMatch` | worker/user-routes.ts:54-55 | the hash comparison at login holds exactly when the two passwords have equal digests |
| `EntityStore.IndexedEntity.Exists` | worker/user-routes.ts:30 | a key exists exactly when the index lists it, and the record found there is stored under its own derived key |
| `EntityStore.IndexedEntity.GetState` | worker/user-routes.ts:53 | returns the record stored under the key (the routes only call it after `exists`) |
| `EntityStore.IndexedEntity.List` | worker/user-routes.ts:64 | returns one record per index entry, in index order, and as many as there are stored records |
| `EntityStore.IndexedEntity.Create` | worker/user-routes.ts:39 | stores the record under its derived key, appends that key to the index when it is new, and keeps the index and the records consistent |
| `EntityStore.IndexedEntity.EnsureSeed` | worker/user-routes.ts:18-19 | on an empty index, creates every seed record in order; on a non-empty index, changes nothing; the store stays consistent |
| `EntityStore.SeedIndex` | worker/user-routes.ts:18-19 | the index after seeding has no duplicates and lists exactly the keys of the seed records |
| `EntityStore.SeedRecords` | worker/user-routes.ts:18-19 | the records after seeding sit exactly at the keys of the seed records |
| `EntityStore.SeededListIsSeed` | worker/user-routes.ts:18-19 | when seed keys are distinct, listing a freshly seeded store gives the seed dataset itself, in order |
| `Entities.SchemeEntity` | worker/entities.ts:5-18 | the scheme type's namespace is "scheme" and its index "schemes"; its default record is the empty Loan, its seed is the mock schemes, and a scheme's key is its id |
| `Entities.ApplicationEntity` | worker/entities.ts:25-38 | the application type's namespace is "application" and its index "applications"; its default record is the empty In Review Loan, its seed is `SEED_APPLICATIONS` (one entry per mock application, same ids in the same order), and an application's key is its id |
| `Entities.EventsFor` | worker/entities.ts:22 | an application's events are its mock events when it has an entry, and the empty list otherwise |
| `Entities.UserKey` | worker/entities.ts:49-51 | a user's storage key is its email |
| `Entities.UserKeysInjective` | worker/entities.ts:49-51 | users with distinct emails get distinct keys, and the key created is the email the routes probe |
| `Entities.SeedApplications` | worker/entities.ts:20-23 | `SEED_APPLICATIONS` has the same length and id order as the mock applications. Each entry's events are its mock events, or empty when it has none. Every other field is copied unchanged |
| `Entities.SeededApplicationsListed` | worker/entities.ts:20-37 | with distinct mock ids, the seeded application store lists exactly `SEED_APPLICATIONS` |
| `Entities.NamespacesDistinct` | worker/entities.ts:6-42 | the entity names and the index names of the three types are pairwise distinct |
| `Entities.DefaultStates` | worker/entities.ts:8-47 | the default scheme has empty strings, type Loan and icon Leaf. The default application has amount 0, status In Review, type Loan and no events. The default user has empty strings |
| `Entities.OnlySchemesAndApplicationsSeeded` | worker/entities.ts:17-51 | schemes and applications declare seed data; users declare none |
| `DateOrder.SortNewestFirst` | worker/user-routes.ts:88 | after the in-place sort the array is ordered by non-increasing timestamp and holds the same elements (a permutation) |
| `Dashboard.Summarize` | worker/user-routes.ts:65-83 | the loan total is the sum over Approved loans and the subsidy total the sum over Approved non-loans. The two counts are the numbers of Approved and of In Review applications |
| `Dashboard.FiguresAreCountsAndAmounts` | worker/user-routes.ts:66-76 | each accumulator field equals the count or the amount it is named after |
| `Dashboard.TotalPermutation` | worker/user-routes.ts:65-83 | a figure summed over a list does not depend on the list's order |
| `Dashboard.SummaryIgnoresOrder` | worker/user-routes.ts:64-83 | any reordering of the stored applications gives the same summary |
| `Dashboard.RejectedContributesNothing` | worker/user-routes.ts:66-76 | inserting a Rejected application anywhere leaves all four figures unchanged |
| `Dashboard.EmptySummary` | worker/user-routes.ts:78-83 | no applications give all four figures zero |
| `UserRoutes.WithoutPassword` | worker/user-routes.ts:41 | the returned user has no password hash and keeps its id and email |
| `UserRoutes.EnsureSeeded` | worker/user-routes.ts:16-22 | each of the scheme and application stores is seeded when its index is empty and left as it was otherwise |
| `UserRoutes.NewUser` | worker/user-routes.ts:34-38 | the stored user has the fresh id and the email, is keyed by that email, and its hash has twice the digest's length and decodes back to the password's digest |
| `UserRoutes.Register` | worker/user-routes.ts:24-43 | a missing or empty field, or an existing email, gives bad request and leaves the store unchanged. Otherwise the user is stored under its email with `hashedPassword` = hash(password) and returned without the hash |
| `UserRoutes.LoginOutcome` | worker/user-routes.ts:44-61 | login succeeds exactly when both fields are given, the email is stored and its hash equals the hash of the password; the success carries the stored id and email and no hash |
| `UserRoutes.Login` | worker/user-routes.ts:44-61 | a missing field gives bad request, an unknown email gives not found, and a wrong password gives bad request. The store is only read |
| `UserRoutes.LoginAfterRegister` | worker/user-routes.ts:33-57 | after register stores a user, login with a password succeeds exactly when its digest equals the registered password's. It then returns the registered id and email; otherwise it is a bad request |
| `UserRoutes.DashboardSummaryRoute` | worker/user-routes.ts:63-85 | answers 200 with the four figures of every stored application |
| `UserRoutes.ListApplications` | worker/user-routes.ts:86-90 | answers 200 with a permutation of the stored applications that contains every stored one, ordered newest application date first |
| `UserRoutes.ListSchemes` | worker/user-routes.ts:91-94 | answers 200 with every stored scheme and nothing else |
| `UserRoutes.GetApplication` | worker/user-routes.ts:95-106 | an unknown id gives not found. Otherwise the answer is the stored application with every field but events unchanged, and its events (when present) are a permutation ordered newest first |
| `AuthSession.LoggedIn` | src/store/auth.ts:15 | login holds the user and sets the flag, so the state is consistent |
| `AuthSession.LoggedOut` | src/store/auth.ts:16 | logout returns the initial state: no user and not signed in |
| `AuthSession.InitialConsistent` | src/store/auth.ts:13-14 | the store starts with no user, not signed in, and consistent |
| `AuthSession.LogoutIdempotent` | src/store/auth.ts:16 | logging out twice equals logging out once |
| `AuthSession.LoginThenLogout` | src/store/auth.ts:15-16 | login followed by logout returns to the initial state |
| `AuthSession.AuthStore.constructor` | src/store/auth.ts:13-14 | the new store holds `user = null`, `isAuthenticated = false` |
| `AuthSession.AuthStore.Login` | src/store/auth.ts:15 | sets `user` and `isAuthenticated = true`, changes nothing else, and leaves the invariant `isAuthenticated <=> user != null` true |
| `AuthSession.AuthStore.Logout` | src/store/auth.ts:16 | sets `user = null` and `isAuthenticated = false`, and the invariant holds |
| `SchemesPage.TypeName` | src/pages/SchemesPage.tsx:97 | a scheme's type name is one of the toggle values and never 'All' |
| `SchemesPage.OfType` | src/pages/SchemesPage.tsx:97 | the filtered list is no longer than the input, and every scheme in it comes from the input and has the chosen type |
| `SchemesPage.OfTypeAppend` | src/pages/SchemesPage.tsx:97 | filtering keeps input order: filtering a concatenation concatenates the filtered parts |
| `SchemesPage.OfTypeCounts` | src/pages/SchemesPage.tsx:97 | each matching scheme appears as often as in the input, and each non-matching one never |
| `SchemesPage.FilteredSchemes` | src/pages/SchemesPage.tsx:93-98 | under 'All' the list is shown unchanged; otherwise a scheme is shown exactly when it was loaded and its type is the filter, and no more schemes are shown than loaded |
| `SchemesPage.FilterAllIsIdentity` | src/pages/SchemesPage.tsx:94-96 | filter 'All' returns the scheme list unchanged |
| `SchemesPage.FilterKeepsType` | src/pages/SchemesPage.tsx:97 | under 'Loan' or 'Subsidy' every shown scheme has that type, and no more schemes are shown than loaded |
| `SchemesPage.OfTypeIdempotent` | src/pages/SchemesPage.tsx:97 | filtering by type twice equals filtering once |
| `SchemesPage.FilterIdempotent` | src/pages/SchemesPage.tsx:93-98 | applying `filteredSchemes` to its own result changes nothing |
| `SchemesPage.UnknownFilterShowsNothing` | src/pages/SchemesPage.tsx:93-98 | a filter value that is none of the toggle values shows no scheme |
| `SchemesPage.SchemesView.constructor` | src/pages/SchemesPage.tsx:74-77 | the page starts with no schemes and filter 'All' |
| `SchemesPage.SchemesView.SetSchemes` | src/pages/SchemesPage.tsx:83 | loading replaces the schemes and keeps the filter |
| `SchemesPage.SchemesView.OnValueChange` | src/pages/SchemesPage.tsx:112-114 | a non-empty toggle value becomes the filter, and an empty one leaves it unchanged. The schemes are untouched, and a toggle value keeps the filter among the toggle values |

## Left out

- The storage internals of `IndexedEntity` (Durable Object stubs, key prefixes, the
  index record's encoding) are not modelled. Each store is one object holding a map
  and a key list. `list` returns everything, with no cursor or page limit.
- `EntityStore.IndexedEntity.GetState`: it does not model the failure the store
  would raise for a missing or corrupt record. For a missing key it returns the
  type's initial state.
- `UserRoutes.EnsureSeeded`: the two seedings run one after the other, not
  concurrently through `Promise.all`. Races between requests that seed at the same
  time are not modelled.
- SHA-256 and the UTF-8 encoding of the password are an uninterpreted `digest`
  parameter. `crypto.randomUUID()` is an argument.
- Hono routing and request JSON parsing are not modelled. Body fields are modelled
  as absent or a string; other JSON values such as numbers are not. The `ok`,
  `notFound` and `bad` helpers become the `Response` value, without the HTTP status
  or the `success` envelope.
- `UserRoutes.Register`: each request runs to completion before the next starts.
  In the source the `exists` check, the hashing and `create` are separate awaited
  steps, so two overlapping registrations of the same new email can both pass the
  check and both answer 200, the later `create` overwriting the first user and its
  id. The contract that an existing email is refused and the store left unchanged
  holds only for requests that do not overlap. `EntityStore.IndexedEntity.Create`'s
  update of the index has the same gap: concurrent creates are not modelled.
- `UserRoutes.ListApplications`: applications with equal application dates are not
  promised to keep their stored order (see `DateOrder.SortNewestFirst`).
- `UserRoutes.GetApplication`: events with equal dates are not promised to keep
  their stored order (see `DateOrder.SortNewestFirst`).
- `DateOrder.SortNewestFirst`: it does not promise that applications or events with
  equal timestamps keep their relative order, which `Array.prototype.sort`
  guarantees. Date strings that do not parse (`NaN` timestamps) are not modelled:
  `timeOf` returns an integer for every string.
- Application amounts are integers, not JavaScript floating-point numbers.
  Currency and date formatting (`Intl.NumberFormat`, locale dates) are not modelled.
- React rendering, routing, skeletons, icon and style maps, and the login form's
  validation are not modelled. The page's `loading` and `error` state around the
  scheme fetch is not modelled either.
- The session store's `persist` middleware (localStorage) is not modelled.
- The contents of `shared/mock-data` are unknown and enter as parameters.
