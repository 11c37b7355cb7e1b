# Feature-flag store, verified model

This project models the feature-flag backend of the `interview-backend`
repository in Dafny. The backend keeps flag records in an in-memory
JavaScript `Map` from id to record, and rewrites a JSON snapshot after each
change. Around that store sit three smaller pieces:

- the request schemas that guard the store;
- the HTTP handlers that turn store outcomes into status codes;
- two string helpers of the dashboard.

Modules, one per concern:

- `Wrappers`: `Option` and `Result`.
- `JsArray`: `Array.prototype.filter` and `find`.
- `JsMap`: a JavaScript `Map` as an `OrderedMap`. It keeps its keys in first-insertion order plus a finite map. `set` on a key already present keeps that key's position. `new Map(entries)` is a left-to-right run of `set`.
- `Text`: ASCII `toLowerCase`, `includes` and `join`.
- `Types`: the flag record, the kebab-case key pattern, and the create, update and list-query schemas.
- `Store`: the `FeatureFlagStore` class, with the map as a field and the snapshot file as a `Disk` object. It has:
  - the load-or-seed constructor;
  - `seed` as a loop;
  - `getAll` and `getById` as functions;
  - `create`, `update` and `delete` as methods.
- `Routes`: the six flag handlers, including the counting loop of the list handler.
- `Utils`: `cx`, `formatEnv` and `kebabCaseRegex`.

The central business invariant is that no two live records share both key
and environment (`Store.UniquePairs`). Loading a snapshot does not check
it, so it is not part of the store's `Valid()`. Instead:

- every mutation is proved to preserve it;
- the seeded state is proved to satisfy it.

`Valid()` itself says that every record is stored under its own id. Loading
establishes that too, and every operation keeps it.

Two behaviours of the code differ from what its own text suggests. The model follows the code in both:

- **The tag filter is dead over HTTP.** The list query schema names its field `tag` (apps/backend/src/types.ts:64). The list handler passes the parsed query straight to `getAll`, whose tag filter reads `filters.tags` (apps/backend/src/store.ts:107). So the tag filter is never applied through the API. `Routes.QueryFilters` passes no tags, and `Routes.TagQueryNotApplied` exhibits an untagged record listed under a tag query. `Store.FeatureFlagStore.GetAll` still models the tag filter faithfully.
- **Uniqueness is per environment.** The comment at apps/backend/src/store.ts:128-135 weighs a key unique across all environments against the seed data. The code settles on the pair (key, environment), and so does the model. A key alone is not unique: the seed data itself reuses `dark-mode` and `new-checkout-flow` in two environments each.

Abstractions:

- **Ids:** record ids are strings. `create` receives its fresh id as a parameter that must not already be stored. A seed id is the name `key:environment` that the name-based uuid hashes.
- **Time:** timestamps are natural numbers, and every operation that reads the clock takes `now` as a parameter.
- **Snapshot:** the snapshot is `Disk.file`, `None` when the file is missing or unreadable. A write lands only when `Disk.writable` holds. A failed write leaves memory as it is. On disk it leaves the old file when it fails before opening it, and a truncated file that reads as `None` when it fails after truncating (`Disk.torn`). In that second case the next start seeds again.

## Model

| member | source | states |
|---|---|---|
| JsArray.Filter | apps/backend/src/store.ts:100 | every element of the result is in the input and satisfies the predicate, every satisfying input element is in the result, and the result is no longer than the input |
| JsArray.FilterCountOf | apps/backend/src/store.ts:100 | a satisfying value occurs in the result as often as in the input, and any other value not at all |
| JsArray.Positions | apps/backend/src/store.ts:100 | the satisfying indices of the input, strictly increasing, all of them |
| JsArray.FilterInOrder | apps/backend/src/store.ts:100 | the result is the elements at the satisfying indices, read left to right, so the input's order is kept |
| JsArray.Find | apps/backend/src/store.ts:181 | a result is found iff some element satisfies the predicate, and it is the first satisfying element |
| JsArray.FilterFilter | apps/backend/src/store.ts:99-119 | two filters in turn equal one filter by their conjunction |
| JsArray.FilterAll | apps/backend/src/store.ts:97 | a filter that keeps everything returns the input unchanged |
| JsMap.OrderedMap.Get | apps/backend/src/store.ts:125 | `get` finds a value exactly for stored keys, and it is the stored value |
| JsMap.OrderedMap.Set | apps/backend/src/store.ts:194 | `set` stores the value under the key and changes no other entry; a new key goes last, an existing key keeps its position |
| JsMap.OrderedMap.Delete | apps/backend/src/store.ts:229 | `delete` removes the key and only that key, cuts it out of the iteration order leaving the other keys in their order, and is the identity on an absent key |
| JsMap.RemoveAt | apps/backend/src/store.ts:229 | in a key order without repeats, removing a key cuts out its one position |
| JsMap.OrderedMap.Values | apps/backend/src/store.ts:97 | `values()` lists the stored values in key order, one per key |
| JsMap.SetAllFacts | apps/backend/src/store.ts:31 | setting pairs in turn leaves the old keys and those of the pairs; a key's value is the one its last pair gives; a key no pair names keeps its value |
| JsMap.FromEntries | apps/backend/src/store.ts:31 | `new Map(entries)` holds exactly the keys of the entries, each with the value of its last entry |
| JsMap.FromEntriesSize | apps/backend/src/store.ts:31-32 | a map built from an array is non-empty iff the array is |
| JsMap.FromEntriesDistinct | apps/backend/src/store.ts:31 | from entries with distinct keys, the map iterates exactly those entries in that order |
| JsMap.EntriesRoundTrip | apps/backend/src/store.ts:31 | rebuilding a map from its own entries gives the same map |
| JsMap.DeleteTwice | apps/backend/src/store.ts:228-231 | after one delete the key is absent, and a second delete changes nothing |
| JsMap.ValuesSatisfy | apps/backend/src/store.ts:181 | some value satisfies a predicate iff some stored entry does |
| Text.ToLower | apps/backend/src/store.ts:113 | lower-casing keeps the length and maps each character |
| Text.Includes | apps/backend/src/store.ts:115-117 | the empty needle and a prefix are always found, and a found needle is no longer than the text |
| Text.IncludesIff | apps/backend/src/store.ts:115-117 | `includes` holds iff the needle occurs at some index |
| Text.JoinShape | apps/frontend/src/lib/utils.ts:2 | no parts give the empty string and one part gives itself; otherwise the result starts with the first part, followed by the separator when more parts follow, and ends with the last part |
| Text.JoinAppend | apps/frontend/src/lib/utils.ts:2 | joining two lists puts one separator between them, unless one side is empty |
| Types.ParseEnvironment | apps/backend/src/types.ts:4 | the environment enum accepts exactly the three wire names, each as its own environment |
| Types.Maybe.OrNull | apps/api/src/routes/flags.ts:96 | `field ?? null` is the value when one is given, null otherwise |
| Types.MatchesSegments | apps/backend/src/types.ts:14 | the pattern's tail `(-[a-z0-9]+)*` matches only `[a-z0-9-]` strings that are empty or start with a hyphen and end with a key character |
| Types.MatchesKebabCase | apps/backend/src/types.ts:14 | the key pattern matches only non-empty `[a-z0-9-]` strings that start and end with a key character |
| Types.KebabCaseIff | apps/backend/src/types.ts:14 | the key pattern read greedily accepts exactly the non-empty `[a-z0-9-]` strings with no leading, trailing or doubled hyphen |
| Types.CreateKeyRule | apps/backend/src/types.ts:28-30 | a create key is accepted iff its length is 3 to 50 and it has kebab shape |
| Types.CreateMetadataOf | apps/backend/src/types.ts:35-39 | owner defaults to "unassigned" and tags to empty, also for a missing metadata object; the expiry is passed through |
| Types.ValidateCreate | apps/backend/src/types.ts:27-48 | a create body passes iff key, name, description and environment are accepted and a given expiry lies after now; the request carries the body's fields and enabled defaults to false |
| Types.ValidateUpdate | apps/backend/src/types.ts:51-57 | an update body passes iff each given name, description and environment is accepted; the patch carries exactly the given fields |
| Types.UpdateIgnoresKey | apps/backend/src/types.ts:51-57 | whatever key an update body carries, validation yields the same patch, so no key reaches the store |
| Types.ParseBoolString | apps/backend/src/types.ts:62 | "true" gives true, "false" gives false, and nothing else parses |
| Types.ValidateQuery | apps/backend/src/types.ts:60-65 | a query passes iff its environment and enabled values are legal; the parsed values correspond to the strings |
| Store.InsertKeepsUnique | apps/backend/src/store.ts:181-194 | storing a record whose pair no other id holds keeps pairs unique |
| Store.ApplyUpdate | apps/backend/src/store.ts:213-221 | an update keeps id, key and createdAt, sets updatedAt to now, and takes each top-level field from the patch when given |
| Store.MergeMetadata | apps/backend/src/store.ts:216-219 | no metadata patch keeps the metadata; otherwise each given sub-field replaces the old one, each left-out one keeps its value, and a null expiry clears it |
| Store.MetadataDeepMerge | apps/backend/src/store.ts:216-219 | each metadata sub-field the patch leaves out keeps its prior value, and each given one replaces it |
| Store.ApplyUpdateIdempotent | apps/backend/src/store.ts:213-221 | applying the same patch twice at the same time equals applying it once |
| Store.PairElsewhereSearch | apps/backend/src/store.ts:205-209 | update's duplicate search finds a record iff another id holds the (key, new environment) pair |
| Store.ClashSearch | apps/backend/src/store.ts:205-209 | update's duplicate search finds a record iff another id holds the (key, new environment) pair |
| Store.SetKeepsChronological | apps/backend/src/store.ts:188-194 | storing a record created no later than updated, and updated no later than now, keeps every record chronological |
| Store.UpdateKeepsUnique | apps/backend/src/store.ts:204-223 | without an environment clash, storing the updated record keeps pairs unique |
| Store.FilterChain | apps/backend/src/store.ts:97-121 | the chain of optional filters equals one filter by "passes every supplied filter" |
| Store.SelectNoFilters | apps/backend/src/store.ts:96-121 | with no filter supplied every record is returned, in order |
| Store.SeedIdColon | apps/backend/src/store.ts:74 | in a seed id over a colon-free key, the first colon follows the key |
| Store.SeedIdInjective | apps/backend/src/store.ts:74 | colon-free keys give equal seed ids only for equal (key, environment) pairs |
| Store.SeedPairsDistinct | apps/backend/src/store.ts:57-68 | no (key, environment) pair occurs twice in the seed list |
| Store.SeedKeyShape | apps/backend/src/store.ts:57-68 | every seed key has kebab shape and no colon; every seed name and description fits its bound |
| Store.SeedRecord | apps/backend/src/store.ts:76-90 | a seed record has its derived id, the entry's key, name, enabled and environment, a description only when one is given and non-empty, owner "system", the entry's tags, no expiry, and both timestamps now |
| Store.SeedIdsDistinct | apps/backend/src/store.ts:71-74 | the twelve seed ids are pairwise distinct |
| Store.SeedRecordsWellFormed | apps/backend/src/store.ts:76-90 | every seed record satisfies the record schema |
| Store.SeedMapShape | apps/backend/src/store.ts:71-92 | the seeded map iterates the twelve records in list order under their ids and holds nothing else |
| Store.SeedMapFacts | apps/backend/src/store.ts:56-92 | the seeded map is well keyed, has unique pairs and is chronological; each record has owner "system", no expiry, both timestamps now and the record schema's shape |
| Store.SeedIdsStable | apps/backend/src/store.ts:72-74 | seeding at different times yields the same ids in the same order |
| Store.FromRecords | apps/backend/src/store.ts:31 | the loaded map has one entry per id in the array, holding the last record with that id |
| Store.FromRecordsWellKeyed | apps/backend/src/store.ts:31 | a map loaded from any array stores each record under its own id |
| Store.SnapshotRoundTrip | apps/backend/src/store.ts:31-41 | loading what a save wrote gives back the same map, order included |
| Store.Disk.Write | apps/backend/src/store.ts:38-45 | a write that succeeds replaces the snapshot; a failed one leaves a truncated, unreadable file if it failed after truncating, and the old file otherwise |
| Store.RestartAfterSave | apps/backend/src/store.ts:16-45 | after a save the next start loads the saved records iff the write landed and they are non-empty, or the old snapshot iff the write failed before truncating and it loads |
| Store.FeatureFlagStore.constructor | apps/backend/src/store.ts:16-23 | a present non-empty snapshot becomes the state verbatim, keyed by id, without a save; otherwise the state is the seed map, pairs are unique and it is saved |
| Store.FeatureFlagStore.LoadFromDisk | apps/backend/src/store.ts:25-36 | a missing snapshot leaves the map and reports false; a present one replaces the map, and the result says whether it is non-empty |
| Store.FeatureFlagStore.SaveToDisk | apps/backend/src/store.ts:38-45 | the snapshot receives the values in order when the write lands, and is otherwise left as a failed write leaves it; memory never changes |
| Store.FeatureFlagStore.Seed | apps/backend/src/store.ts:47-93 | the seed records are set one after another, in list order, under their ids |
| Store.FeatureFlagStore.GetAll | apps/backend/src/store.ts:96-122 | the result is the stored records that pass every supplied filter, in insertion order |
| Store.FeatureFlagStore.GetById | apps/backend/src/store.ts:124-126 | a record is returned iff the id is stored, and it carries that id |
| Store.FeatureFlagStore.Create | apps/backend/src/store.ts:178-197 | create fails with DuplicateKey, changing nothing, iff the pair is taken. Otherwise it appends one record with the fresh id and createdAt = updatedAt = now, changes no other entry, saves, and keeps pairs unique |
| Store.FeatureFlagStore.Update | apps/backend/src/store.ts:199-226 | update reports NotFound iff the id is absent, and DuplicateKey iff a changed environment clashes, changing nothing on failure. Otherwise it stores the patched record in place, saves, and keeps pairs unique and records chronological |
| Store.FeatureFlagStore.StoreUpdate | apps/backend/src/store.ts:212-224 | without a clash, the patched record replaces the old one in place and is saved; pairs stay unique and records chronological |
| Store.FeatureFlagStore.Delete | apps/backend/src/store.ts:228-232 | delete reports true iff the id was present; the id is absent afterwards; it saves only when something was removed |
| Routes.ErrorReply | apps/api/src/routes/flags.ts:130-142 | a missing record maps to 404 and a duplicate pair to 409 |
| Routes.Counts | apps/api/src/routes/flags.ts:37-47 | the counts have exactly the three environments as keys, each the length of the list filtered to it, and they sum to the list's length |
| Routes.CountIsFilterSize | apps/api/src/routes/flags.ts:43-47 | the count of an environment equals the length of the list filtered to it |
| Routes.CountsSumToTotal | apps/api/src/routes/flags.ts:37-55 | the three environment counts sum to the number of records |
| Routes.CountEnvironments | apps/api/src/routes/flags.ts:37-47 | the counting loop starts every environment at zero and ends with each environment's count |
| Routes.QueryFilters | apps/api/src/routes/flags.ts:34 | the query's environment, enabled and search reach `getAll`, and no tags do |
| Routes.TagQueryNotApplied | apps/api/src/routes/flags.ts:34 | a tag in the query filters nothing: an untagged record is still listed |
| Routes.ListFlags | apps/api/src/routes/flags.ts:33-56 | 200 with the selected records; meta.total is their number, and the per-environment counts sum to it |
| Routes.GetFlag | apps/api/src/routes/flags.ts:69-77 | 404 iff the id is absent, otherwise 200 with the stored record |
| Routes.NewFlagOf | apps/api/src/routes/flags.ts:93-102 | the store receives the request's fields, with description and expiry null where not given |
| Routes.CreateDefaults | apps/api/src/routes/flags.ts:93-102 | from a validated body, the store receives description null, owner "unassigned", no tags, no expiry and enabled false wherever the body left them out, and a record of the schema's shape |
| Routes.CreateReply | apps/api/src/routes/flags.ts:103-109 | success is 201 with the record, and a store error maps to its reply |
| Routes.CreateFlag | apps/api/src/routes/flags.ts:91-112 | 409 iff the pair is taken, leaving the store unchanged; otherwise 201 with the new record, which the store now holds |
| Routes.UpdateReply | apps/api/src/routes/flags.ts:129-142 | success is 200 with the record, and a store error maps to 404 or 409 |
| Routes.UpdateFlag | apps/api/src/routes/flags.ts:127-144 | 404 iff the id is absent, 409 iff the environment change clashes, otherwise 200 with the stored updated record |
| Routes.DeleteReply | apps/api/src/routes/flags.ts:158-164 | true maps to 204, false to 404 |
| Routes.DeleteFlag | apps/api/src/routes/flags.ts:157-165 | 204 iff the id was present, otherwise 404 with nothing changed; the id is absent afterwards |
| Routes.TogglePatch | apps/api/src/routes/flags.ts:190 | the toggle patch carries only `enabled` |
| Routes.ToggleFlips | apps/api/src/routes/flags.ts:189-190 | a toggle flips enabled, refreshes updatedAt and changes nothing else |
| Routes.ToggleTwiceRestores | apps/api/src/routes/flags.ts:189-195 | toggling twice restores the record except for updatedAt |
| Routes.ToggleFlag | apps/api/src/routes/flags.ts:181-196 | 404 iff the id is absent, changing nothing; otherwise the update cannot fail, previousState is the old enabled and the stored enabled is its negation |
| Utils.JoinNonEmpty | apps/frontend/src/lib/utils.ts:2 | joining non-empty names is empty only for no names |
| Utils.Cx | apps/frontend/src/lib/utils.ts:1-3 | `cx` returns the empty string iff no part is truthy |
| Utils.CxAppend | apps/frontend/src/lib/utils.ts:1-3 | `cx` over two argument lists is the two results joined by one space, an empty side dropping out |
| Utils.FormatEnv | apps/frontend/src/lib/utils.ts:5-7 | a non-empty input keeps its length and its tail, and its first character is upper-cased; the empty input gives "undefined" |
| Utils.FormatEnvLabels | apps/frontend/src/lib/utils.ts:6 | the three environment names format as "Development", "Staging" and "Production" |
| Utils.FormatEnvIdempotent | apps/frontend/src/lib/utils.ts:6 | on a non-empty string, formatting twice is formatting once |
| Utils.KebabCaseRegexShape | apps/frontend/src/lib/utils.ts:9 | the dashboard's key pattern accepts exactly the kebab-shaped keys, the same as the server's schemas |

## Left out

- Disk I/O and JSON (`existsSync`, `readFileSync`, `JSON.parse`, `mkdirSync`, `writeFileSync`): the snapshot is the abstract `Disk.file`. A file that is missing, unreadable, not JSON or not an array is `None`. Array elements that are not flag records are not modelled.
- uuid generation: `Store.FeatureFlagStore.Create` takes its fresh id as a parameter and requires that the id is not already stored, standing for uuid v4. The name-based uuid v5 over `key:environment` is taken to be injective, and a seed id is that name itself.
- The clock: timestamps are natural numbers passed in as `now`, not ISO-8601 strings, and the `datetime()` format check is not modelled.
- Types.ValidateCreate: reports a single `ValidationError` rather than zod's issue list, and compares expiry with `now` as numbers.
- Types.ValidateUpdate: treats `metadata.expiresAt` as a timestamp, while the partial record schema accepts any string there.
- Types.ValidateQuery: models `tag` as an optional list, folding the single-string form of the union into it; the route never reads it.
- Text.ToLower: maps only ASCII letters, not the full Unicode case mapping of `toLowerCase`. `Text.UpperChar` does the same for `toUpperCase`, which `Utils.FormatEnv` uses. String lengths count characters rather than UTF-16 code units.
- Validation failures reach the framework's error handler, which answers 400. That handler, together with route registration, CORS, the OpenAPI documents and the server start-up, is framework wiring and is not part of this model. Route handlers take requests that have already been validated.
- An exception other than `DUPLICATE_KEY` re-thrown by the create and update handlers cannot come from the modelled store, so it is not modelled.
- The React dashboard, the HTTP clients and the service worker are rendering and network code.
- Concurrency: the store has a single owner and every operation runs to completion, so there is nothing to interleave.
