# authorize — permission staging and merge engine

A Dafny model of the core of the `authorize` service (`index.js`): a per-user
permission resolver that stages `allow` / `deny` changes in a change log,
commits them into a permission record collection with merge-on-write, and
answers filtered queries; plus the service's backend switch and its `user` /
`group` factory methods.

The Mongoose collection `authz_user_permissions` is replaced by an abstract
in-memory store (`Store.PermissionStore`): an ordered sequence of records
`(userId, resourceType, resourceId, permissions)` with the four operations the
resolver uses — `find` (`Store.Find`), `findOne` (`Store.FindOne`, the first
record for a triple), `save` (`PermissionStore.Save`) and `create`
(`PermissionStore.Create`, appends).

Files and modules:

- `wrappers.dfy` — `Wrappers`: Option / Result / Outcome.
- `unique_seq.dfy` — `UniqueSeq`: duplicate-free lists and the merge
  `[...new Set([...a, ...b])]` (`Dedup`, `Union`), which keeps the first
  occurrence of every element in order, as a JavaScript Set does.
- `store.dfy` — `Store`: records, keys, query documents, the store class.
- `change_log.dfy` — `ChangeLog`: staged changes, `Step` (one iteration of
  `apply`'s loop), `ApplyLog` (the loop folded over the log) and the lemmas
  about them.
- `resolver.dfy` — `Resolver`: the `UserPermission` class (`allow`, `deny`,
  `getPermissions`, `apply`).
- `authorize.dfy` — `AuthorizeService`: backend selection and the
  `Authorize` class (`user`, `group`).

Environment inputs become parameters: the configured storage name is an
`Option<string>`, the Mongoose connection is the `PermissionStore` passed in,
and store failures are the `readFails` flag of `GetPermissions` and the
`failAt` index of `Apply` (the change whose store call throws).

Behaviour of the code worth knowing:

- A record created for a new triple holds the staged list exactly as given,
  duplicates included; only merging into an existing record de-duplicates
  (index.js:87 against index.js:95). A second `apply` of the same log is a
  no-op when every staged allow list is duplicate-free
  (`ApplyLogTwiceIsOnce`); when a list with a repeated permission creates a
  record, the second run can change the store (`ReapplyDedupsCreatedList`).
  After a second run every allowed triple's record is duplicate-free
  (`SecondRunDedups`).
- `apply` does not clear `changes`; each call re-commits the whole log.
- `deny` entries are staged and then ignored by `apply`.
- The unsupported-backend error at index.js:124 interpolates an undefined
  variable, so it cannot name the rejected value; it is modelled as the
  payload-free `UnsupportedStorage`.

## Model

| member | source | states |
|---|---|---|
| `UniqueSeq.Dedup` | index.js:87 | `[...new Set(s)]` is duplicate-free and has exactly the elements of `s` |
| `UniqueSeq.Union` | index.js:87 | the merged permission list is duplicate-free and its elements are exactly those of the stored and the staged list |
| `UniqueSeq.DedupOfNoDups` | index.js:87 | de-duplicating a duplicate-free list returns it unchanged |
| `UniqueSeq.DedupAppend` | index.js:87 | de-duplicating `a + b` is de-duplicated `a` followed by the de-duplicated elements of `b` not in `a` (first-occurrence order) |
| `UniqueSeq.UnionKeepsExisting` | index.js:86-89 | merging into a duplicate-free stored list keeps it as a prefix in its order and appends the staged permissions it lacked, once each |
| `UniqueSeq.UnionAbsorbs` | index.js:87 | merging permissions that are all present already leaves a duplicate-free list unchanged |
| `Store.Matches` | index.js:59-65 | a record matches a query document when it equals every field the document holds (userId always, resourceType / resourceId when present); no contract of its own, its meaning for `getPermissions` is stated by `Resolver.SelectorFor` and `Store.Find` |
| `Store.Find` | index.js:67-72 | `find` returns exactly the stored records that match the query document |
| `Store.FindOne` | index.js:81-85 | `findOne` yields the position of the first record for the triple, or none exactly when no record has that triple |
| `Store.PermissionStore.Save` | index.js:88-89 | saving replaces the permissions of that one record and nothing else |
| `Store.PermissionStore.Create` | index.js:91-96 | creating appends exactly the new record |
| `ChangeLog.Tag` | index.js:13 | `Object.assign({changeType}, p)` as the change carrying the tag and the grant's three fields; no contract of its own, its use is stated by `Resolver.UserPermission.Allow` / `Deny` |
| `ChangeLog.Step` | index.js:80-97 | one iteration of `apply`'s loop; no contract of its own, its behaviour is stated by `StepDenyIsNoOp`, `StepMergesExisting`, `StepCreatesMissing`, `StepExtends` and `StepKeepsUniqueKeys` |
| `ChangeLog.ApplyLog` | index.js:79-99 | the whole loop folded over the log in order; no contract of its own, its behaviour is stated by `ApplyLogAppend`, `ApplyLogIgnoresDeny`, `ApplyLogExtends`, `ApplyLogKeepsUniqueKeys`, `ApplyLogTwiceIsOnce` and `ApplyLogRetryAfterFailure`, and `Resolver.UserPermission.Apply` is proved equal to it |
| `ChangeLog.StepDenyIsNoOp` | index.js:79-80 | a deny entry leaves the store as it was |
| `ChangeLog.StepMergesExisting` | index.js:81-89 | an allow on a triple with a record rewrites only the first such record: its list becomes duplicate-free, holds exactly old ∪ staged, and is the old list followed by the new permissions when the old list had no duplicates; every other record is unchanged |
| `ChangeLog.StepCreatesMissing` | index.js:90-96 | an allow on a triple with no record appends exactly one record for that triple with the staged list as given |
| `ChangeLog.StepExtends` | index.js:79-98 | one change keeps every record's position and triple and changes or adds only records for its own triple |
| `ChangeLog.StepKeepsUniqueKeys` | index.js:81-97 | one change never makes two records share a triple |
| `ChangeLog.ApplyLogAppend` | index.js:79-99 | committing `l1 + l2` equals committing `l1` and then `l2` on its result: later changes see earlier ones |
| `ChangeLog.ApplyLogIgnoresDeny` | index.js:79-80 | committing a log equals committing only its allow entries |
| `ChangeLog.ApplyLogExtends` | index.js:79-99 | committing a log leaves every record whose triple no allow names untouched, and adds records only for triples some allow names |
| `ChangeLog.ApplyLogKeepsUniqueKeys` | index.js:79-99 | a store written only by `apply` holds at most one record per triple |
| `ChangeLog.ApplyLogCoversAllows` | index.js:79-99 | after a commit, for every allow whose list is duplicate-free, the first record for its triple is duplicate-free and holds that allow's permissions, whatever the other allows' lists hold |
| `ChangeLog.ApplyLogCoveredIsNoOp` | index.js:79-99 | a log whose every allow is already held by its triple's record changes nothing |
| `ChangeLog.ApplyLogTwiceIsOnce` | index.js:79-100 | re-running `apply` on the unchanged log leaves the store as the first run left it, when every staged allow list is duplicate-free |
| `ChangeLog.ApplyLogRetryAfterFailure` | index.js:79-100 | re-running the whole log after a commit that stopped after its first `k` changes gives the same store as one uninterrupted commit, when every staged allow list is duplicate-free |
| `ChangeLog.ApplyLogCreatesRecords` | index.js:79-99 | after a commit, the triple of every allow in the log has a record |
| `ChangeLog.ApplyLogOnRecordsCovers` | index.js:79-99 | committing a log on a store where every allowed triple already has a record leaves each such record duplicate-free and holding its allow's permissions, duplicates in the staged lists or not |
| `ChangeLog.SecondRunDedups` | index.js:79-100 | after a second run of `apply` on the same log, the record for every allowed triple is duplicate-free and holds that allow's permissions, for every log and store |
| `ChangeLog.ReapplyDedupsCreatedList` | index.js:86-96 | an instance of the above where the second run changes the store: a record created from `[p, p]` keeps the repetition and the second run turns it into `[p]` |
| `ChangeLog.AllowThenAllowUnions` | index.js:81-96 | two allows on a new triple leave one appended record whose list is duplicate-free and equals the union of both lists as a set |
| `Resolver.Truthy` | index.js:62-64 | JavaScript truthiness of an optional string (present and not empty), used for the query filters and for the storage-name fallback at index.js:115; no contract of its own, its effect is stated by `SelectorFor` and `AuthorizeService.StorageName` |
| `Resolver.SelectorFor` | index.js:58-65 | the query always constrains `userId` and constrains `resourceType` / `resourceId` only when truthy; a record matches iff it meets every constraint present |
| `Resolver.UserPermission.constructor` | index.js:6-10 | a new resolver has its user, its store and an empty change log |
| `Resolver.UserPermission.Allow` | index.js:12-15 | appends exactly one `allow`-tagged change with the grant's fields and returns the same resolver |
| `Resolver.UserPermission.Deny` | index.js:17-20 | appends exactly one `deny`-tagged change with the grant's fields and returns the same resolver |
| `Resolver.UserPermission.GetPermissions` | index.js:58-76 | returns exactly the stored records of the user that satisfy every truthy filter, and the empty list when the store read fails |
| `Resolver.UserPermission.Apply` | index.js:78-100 | the new store is the old one with the log committed in order up to the failing change; the error is returned exactly when an allow's store call fails; the log is kept |
| `AuthorizeService.StorageName` | index.js:115 | a truthy configured name is used as given; otherwise the name is the non-empty fallback |
| `AuthorizeService.SelectBackend` | index.js:115-126 | the backend is selected exactly when the configured name is "mongoose"; every other name, and the "memory" fallback, is an error |
| `AuthorizeService.NewAuthorize` | index.js:113-127 | construction succeeds exactly for "mongoose", giving a new service on the given store |
| `AuthorizeService.Authorize.User` | index.js:134-137 | returns a new resolver for the user on the service's store with an empty log |
| `AuthorizeService.Authorize.Group` | index.js:144-148 | always fails with a not-implemented error |

## Left out

- `configure.js`: interactive setup prompt and config-file scaffolding through an external library; its only check (`['mongoose'].includes(value)`) is the constructor's backend switch.
- Mongoose model registration and the schema definitions (index.js:40-55), the unused group-permission model and the `groups` / `users` fields: replaced by the abstract store of records.
- The abstract base class's `getPermissions` / `apply`, which only throw "not implemented yet" (index.js:22-28): the service only ever constructs the Mongoose variant, which overrides both.
- `register()` and the dependency-injection container (`svcs.config.get`, `svcs.mongoose`): the configured name and the store are parameters.
- `async` / `await`: the model is sequential, each await is one store step. Not modelled: the lost-update race between concurrent `apply` calls; the duplicate-create race, where two concurrent `apply` calls both miss on `findOne` for a triple and both `create` a record for it (this is what breaks "at most one record per triple" outside the sequential model); and entries pushed onto `changes` while `apply` is suspended.
- `Store.FindOne`: returning the first record in insertion order is a modelling choice; `findOne` returns some matching document in the collection's natural order, which is not promised to be insertion order. This matters only when a triple has more than one record.
- The falsy `existing.permissions` branch (index.js:86): a stored record always has a permission list.
- `Resolver.UserPermission.Allow`: `Object.assign` would let a caller's own `changeType` field override the tag and would copy any extra fields; the grant is modelled as exactly `{resourceType, resourceId, permissions}`, all present and strings. `Object.assign` is also a shallow copy, so the staged change shares the caller's `permissions` array: a caller that changes that array in place after `allow` / `deny` and before `apply` changes what is merged (index.js:87) or created (index.js:95). The model's grant is a value fixed when it is staged, so this aliasing is not captured, and "earlier entries are unchanged" holds in the model only. The same applies to `Resolver.UserPermission.Deny`.
- `Resolver.UserPermission.Apply`: a store failure is modelled per change (the findOne, save or create of that change throws and writes nothing); a save that partly succeeds is not modelled.
- `Resolver.UserPermission.GetPermissions`: states which records are returned, not their order or repetition (the store returns them in collection order).
- `Store.Find`: states which records are returned, not their order or repetition.
- The exact exception types (`Error`, the ReferenceError at index.js:124): errors are the values `StoreUnavailable`, `UnsupportedStorage` and `NotImplemented`.
