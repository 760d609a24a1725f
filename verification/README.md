# lib-levelcrush core, modelled in Dafny

This project models the in-memory logic of five parts of LevelCrush's
lib-levelcrush and proves properties about it:

- **Settings cache (`ApplicationSettings`).** It holds three layers: setting
  definitions (`base`), application-wide values (`global`) and per-user values
  (`user`). `load` fills it from two queries. `get` reads a user value and falls
  back to the global one. `set` creates missing rows in the store, updates the
  cached value at once and hands the durable update to a background task
  (module `AppSettings`, `settings.dfy`).
- **Account-platform key/value data.** `read` maps a batch of keys to the ids of
  their existing rows, with 0 meaning "not stored yet". `write` builds one
  multi-row `INSERT ... ON DUPLICATE KEY UPDATE` with a 255-byte display copy and
  an i64 reading of each value (module `PlatformData`).
- **Destiny activity stats.** `existing` maps an instance id to its row id.
  `write` is the multi-row stat upsert. `get_instances` is the stat lookup with
  an optional value filter, `StatFilter` (module `ActivityStats`).
- **The clan-network master workbook.** `load` turns the sheet listing, the
  player list and the clan sheets into a player map and a clan map. `api_sync`
  folds fresh clan names and rosters into them (module `Sheets`).
- **The shared environment-variable names.** These are the two conversions
  between `EnvVar` and the variable name (module `Env`).

Supporting modules:

- **`Common`:** `Option`, `Result`, and the two ways the code folds rows into a
  hash map. `Upsert` is `insert` or `entry().and_modify().or_insert()`.
  `Refresh` is `entry().and_modify()` alone.
- **`Numbers`:** Rust's `str::parse::<i64>` and `to_string`.
- **`Utf8`:** UTF-8 byte lengths and `str::get(0..n)`.
- **`Sql`:** parameterised statements.

The store, the Sheets API and the Destiny API are never called. Their answers
are inputs: a reply value, or an `Err` for a failed call. A SQL statement is
modelled as the statement the code builds: a sequence of text fragments and `?`
placeholders, plus the ordered bind list. The central property of every builder
is that the two agree in arity (`Sql.WellFormed`) and that the binds come in
column order. A Rust `HashMap` iterates in an unspecified order, so each loop
over one takes an explicit `order` parameter that must list the map's keys once
each (`Common.Enumerates`).

## Model

| member | source | states |
|---|---|---|
| `Common.Upsert` | service-destiny/src/database/activity_stats.rs:75-80 | folding `entry().and_modify().or_insert()` over rows yields exactly the old keys plus every row's key |
| `Common.UpsertLastWins` | service-destiny/src/database/activity_stats.rs:75-80 | a key maps to the value of its last row |
| `Common.Refresh` | service-accounts/src/database/platform_data.rs:73-77 | `and_modify` without `or_insert` never adds or removes a key |
| `Common.RefreshLastWins` | service-accounts/src/database/platform_data.rs:73-77 | a present key takes the value of its last row |
| `Common.ContainsAt` | service-destiny/src/jobs/sheets.rs:88 | `str::contains` holds exactly when the pattern occurs at some position |
| `Numbers.ParseI64` | service-destiny/src/jobs/sheets.rs:227-228 | `parse::<i64>` succeeds exactly on an optionally signed run of digits whose value fits in 64 bits, and yields that value |
| `Numbers.ParseOrZero` | service-accounts/src/database/platform_data.rs:147 | `unwrap_or_default` of the parse is always an i64; it is the parsed value, or 0 when parsing fails |
| `Numbers.FormatIntValue` | service-destiny/src/jobs/sheets.rs:269 | `to_string` of an integer is a numeral whose value is that integer |
| `Numbers.ParseFormatRoundTrip` | service-destiny/src/jobs/sheets.rs:269 | parsing the `to_string` of an i64 gives the same i64 back |
| `Numbers.FormatIntShape` | service-destiny/src/jobs/sheets.rs:299 | a rendered id is canonical: never a leading `+`, a `-` exactly for negatives, at least one digit after it, and no leading zero unless the id is 0 |
| `Numbers.CanonicalNumeralUnique` | service-destiny/src/jobs/sheets.rs:299-301 | a numeral with no `+`, no leading zero and no `-0` is exactly the `to_string` of its value, so a column-D key matches the key rendered from the same membership id only when it is written this way |
| `Numbers.FormatIntInjective` | service-destiny/src/jobs/sheets.rs:299 | distinct membership ids render to distinct player keys |
| `Utf8.ByteLenAppend` | service-accounts/src/database/platform_data.rs:128 | `str::len` counts UTF-8 bytes and is additive over concatenation |
| `Utf8.PrefixOfBytes` | service-accounts/src/database/platform_data.rs:132 | `get(0..n)` is the prefix exactly `n` bytes long; it is `None` when no character prefix has `n` bytes |
| `Utf8.Display` | service-accounts/src/database/platform_data.rs:126-137 | the display copy is a prefix of at most 255 bytes; it equals the value iff the value fits; an over-long value gives "" exactly when byte 255 splits a character |
| `Utf8.AsciiDisplayTruncates` | service-accounts/src/database/platform_data.rs:126-137 | an over-long ASCII value is cut to its first 255 characters |
| `Utf8.SplitCharacterDisplaysEmpty` | service-accounts/src/database/platform_data.rs:132-133 | 128 two-byte characters display as "", not as a 254-byte prefix |
| `Sql.HolesAppend` | service-accounts/src/database/platform_data.rs:45-58 | placeholders of a concatenated statement text add up |
| `Sql.RepeatHoles` | service-destiny/src/database/activity_stats.rs:93 | `vec![group; n].join(sep)` has n times the group's placeholders plus n-1 times the separator's |
| `Sql.InList` | service-destiny/src/database/activity_stats.rs:50 | the joined `?` list has exactly one placeholder per element |
| `Sql.ValuesRows` | service-accounts/src/database/platform_data.rs:98-104 | a VALUES list of n rows of `width` placeholders has exactly width times n placeholders |
| `Sql.UpsertText` | service-destiny/src/database/activity_stats.rs:93-117 | the whole multi-row upsert text has placeholders only in its VALUES rows; it opens with the INSERT head and closes with the ON DUPLICATE KEY UPDATE clause of the given pairs |
| `Sql.AssignmentsCover` | service-destiny/src/database/activity_stats.rs:110-114 | every `(column, source)` pair appears in the clause text as ``column` = VALUES(`source`)`` |
| `Sql.InListRendering` | service-accounts/src/database/platform_data.rs:37-44 | for every n > 0 the joined list of n placeholders renders as `?,?,...,?`: 2n-1 characters, `?` at even and `,` at odd positions |
| `Sql.RenderCountsHoles` | service-accounts/src/database/platform_data.rs:37-58 | for any statement text, the rendered string holds exactly one `?` per placeholder whenever no literal fragment contains a `?`; it is stated in general and not applied to the individual statements, whose literal SQL texts are checked only by reading them |
| `Env.Name` | src/env.rs:25-37 | a fixed variant names a reserved variable; `Custom` passes its key through |
| `Env.FromName` | src/env.rs:39-51 | a name becomes `Custom` exactly when it is not reserved; no name yields `ApplicationSecret` |
| `Env.NameRoundTrip` | src/env.rs:25-51 | name to variable to name is the identity except `APPLICATION_SECRET`, which comes back as `DATABASE_URL` |
| `Env.VariableRoundTrip` | src/env.rs:25-51 | variable to name to variable is the identity except `ApplicationSecret`, and except a `Custom` key that spells a reserved name |
| `Env.FixedNamesDistinct` | src/env.rs:27-33 | the fixed variants name pairwise distinct variables |
| `Env.FromNameIntended` | src/env.rs:39-51 | the corrected conversion: every name survives the round trip through the variable |
| `Env.IntendedRoundTrips` | src/env.rs:25-51 | with the correction both round trips hold for every variable except a colliding `Custom` key |
| `AppSettings.Load` | src/app/settings.rs:36-83 | load fails iff either query fails; the application is recorded and the user layer starts empty |
| `AppSettings.LoadKeys` | src/app/settings.rs:52-74 | one definition per loaded name, one name per loaded id, and one global slot per name the global rows resolve to |
| `AppSettings.LoadDefinition` | src/app/settings.rs:53-57 | a definition is cached under its name, and the name under its id, unless a later definition reuses the name or id |
| `AppSettings.LoadGlobal` | src/app/settings.rs:69-74 | a global row is cached under its definition's name, or under "" when its definition is not loaded, unless a later row takes the slot |
| `AppSettings.UserFallsBackToGlobal` | src/app/settings.rs:97-111 | a user read returns the user value when there is one, otherwise exactly the global read, and `None` without either |
| `AppSettings.AbsentUserIsEmptyUser` | src/app/settings.rs:101-103 | an absent user and the user "" are the same user for `get` and `set` |
| `AppSettings.Set` | src/app/settings.rs:115-324 | `set` fails exactly when a needed insert or its fetch fails, and the failure reports the definition and value rows already written; after success `get` returns the new value, and only the written slot of the written layer changes |
| `AppSettings.SetFailureWrites` | src/app/settings.rs:141-224 | a failed `set` reports the definition row when its insert took effect, and the value row when its insert took effect but the fetch failed, each with the contents that were inserted |
| `AppSettings.GlobalWriteReachesUsersWithoutOverride` | src/app/settings.rs:242-264 | after a global write, users without an override read the new value and users with one keep theirs |
| `AppSettings.UserWriteIsPrivate` | src/app/settings.rs:265-289 | a user write changes no global read and no other user's or other name's read |
| `AppSettings.SetInserts` | src/app/settings.rs:123-238 | a definition is inserted iff the name is not cached, and a value row iff the slot needs creating; inserted rows carry the value, the definition id (0 when not fetched back), the digest and the user |
| `AppSettings.SetGlobalSlot` | src/app/settings.rs:154-306 | the global slot holds the value and the time; a fetched-back slot carries the store's id and digest, an unfetched one id 0; the spawned update targets the slot's id |
| `AppSettings.SetUserSlot` | src/app/settings.rs:194-319 | the same for the user slot |
| `AppSettings.SecondSetUpdatesInPlace` | src/app/settings.rs:155-159 | once a slot is persisted with a non-zero id, the next `set` inserts no row and updates that id |
| `AppSettings.UnfetchedSlotIsRecreated` | src/app/settings.rs:178-191 | a created row that is not fetched back leaves the slot at id 0; its update targets id 0 and the next `set` inserts again |
| `AppSettings.DefinitionIsNotCached` | src/app/settings.rs:123-147 | a definition `set` inserts is never cached, so the next `set` of that name inserts another |
| `AppSettings.SetKeepsUserSlotsConsistent` | src/app/settings.rs:226-236 | every cached user row belongs to the user its slot is keyed by, and `set` keeps it so |
| `PlatformData.ReadStatement` | service-accounts/src/database/platform_data.rs:36-67 | the SELECT has one placeholder per bind: account, platform, then the keys in input order |
| `PlatformData.Read` | service-accounts/src/database/platform_data.rs:29-83 | every requested key is in the result and no other; a failed query leaves every key at 0 |
| `PlatformData.ReadExisting` | service-accounts/src/database/platform_data.rs:71-77 | a key no row returns stays 0; otherwise it holds the id of its last returned row |
| `PlatformData.FlattenRoundTrip` | service-accounts/src/database/platform_data.rs:139-164 | the flat bind list keeps every row: ten typed binds per row, readable back in order |
| `PlatformData.BuildRow` | service-accounts/src/database/platform_data.rs:126-164 | a bound row carries the key, the display copy, the i64 reading and the full value; a new row binds id 0 and the creation time, an existing one its id and the update time |
| `PlatformData.ValueMap` | service-accounts/src/database/platform_data.rs:91-96 | every batch key maps to the index of a record with that key, and no later record has the key |
| `PlatformData.ValueMapLastWins` | service-accounts/src/database/platform_data.rs:94-96 | that record is the key's last one in the batch |
| `PlatformData.BoundRows` | service-accounts/src/database/platform_data.rs:122-165 | one row per key visited, built from its existing id, its clock reading and a record with that key that no later record of the batch shares |
| `PlatformData.WriteText` | service-accounts/src/database/platform_data.rs:98-117 | the upsert text has ten placeholders per record, starts with the INSERT head and ends with the update clause of `Updates` |
| `PlatformData.Write` | service-accounts/src/database/platform_data.rs:85-173 | the write reads the batch's keys, binds one row per distinct key in iteration order from its last record, and sends the text `WriteText` gives for the batch size: the INSERT head, one VALUES group of ten placeholders per input record and the update clause |
| `PlatformData.WriteArity` | service-accounts/src/database/platform_data.rs:94-124 | the upsert is well-formed iff the batch's keys are distinct, and it binds one row per distinct key |
| `PlatformData.UpsertPreservesIdentity` | service-accounts/src/database/platform_data.rs:105-117 | the duplicate-key update sets each overwritten column from its own incoming value and never rewrites the id, owner, key or creation time |
| `PlatformData.DuplicateKeyBreaksArity` | service-accounts/src/database/platform_data.rs:94-124 | a batch repeating one key yields 20 placeholders but 10 binds |
| `PlatformData.WriteCorrected` | service-accounts/src/database/platform_data.rs:98-104 | with one VALUES group per bound row, every batch gives a well-formed upsert of the same rows |
| `ActivityStats.ExistingStatement` | service-destiny/src/database/activity_stats.rs:50-70 | the SELECT binds the character first and then one id per placeholder, in input order |
| `ActivityStats.Existing` | service-destiny/src/database/activity_stats.rs:40-86 | no query for an empty batch; a failed query gives an empty map; otherwise the keys are the returned instance ids |
| `ActivityStats.ExistingLastWins` | service-destiny/src/database/activity_stats.rs:74-80 | an instance maps to the id of its last returned row |
| `ActivityStats.FlattenStatsAt` | service-destiny/src/database/activity_stats.rs:120-132 | record i owns binds 10i to 10i+10, in column order |
| `ActivityStats.Write` | service-destiny/src/database/activity_stats.rs:88-137 | nothing is sent iff the batch is empty; otherwise the upsert is well-formed with each record's ten binds in place |
| `ActivityStats.StatText` | service-destiny/src/database/activity_stats.rs:93-117 | the stat upsert text has ten placeholders per record, starts with the INSERT head and ends with the update clause of `StatUpdates` |
| `ActivityStats.StatUpsertColumns` | service-destiny/src/database/activity_stats.rs:110-114 | the update touches only non-identifying inserted columns, and `updated_at` takes the incoming `created_at` |
| `ActivityStats.FilterClause` | service-destiny/src/database/activity_stats.rs:151-155 | the filter clause has one placeholder per filter bind and is empty exactly for `StatFilter::None` |
| `ActivityStats.InstancesBinds` | service-destiny/src/database/activity_stats.rs:173-185 | binds run stat name, membership id, the filter value if any, then the instance ids |
| `ActivityStats.InstancesText` | service-destiny/src/database/activity_stats.rs:150-171 | the SELECT has two placeholders, one for the filter if any, and one per instance id |
| `ActivityStats.InstancesStatement` | service-destiny/src/database/activity_stats.rs:150-185 | the lookup is well-formed for every filter and batch |
| `ActivityStats.GetInstances` | service-destiny/src/database/activity_stats.rs:139-194 | no query and no rows for an empty batch; the returned rows as they are, or none when the query fails |
| `ActivityStats.FilterPresence` | service-destiny/src/database/activity_stats.rs:151-181 | a filter adds a clause and a bind together, or neither |
| `Sheets.ClanTitles` | service-destiny/src/jobs/sheets.rs:83-92 | the kept titles are exactly the titles of sheets with properties whose title contains `[Clan]` |
| `Sheets.ClanTitlesAppend` | service-destiny/src/jobs/sheets.rs:85-92 | the filter keeps workbook order |
| `Sheets.ClanRanges` | service-destiny/src/jobs/sheets.rs:190-195 | each clan sheet adds its `!B1:B3` and `!A6:B` ranges, in order |
| `Sheets.PlayerFold` | service-destiny/src/jobs/sheets.rs:111-186 | every row with cells adds a player keyed by column D, and each player's membership id is its key |
| `Sheets.PlayerFoldLastWins` | service-destiny/src/jobs/sheets.rs:166-183 | a membership id maps to the player read from its last row |
| `Sheets.Players` | service-destiny/src/jobs/sheets.rs:106-109 | no sheet gives no players; otherwise the players are keyed by exactly the column-D ids of the first sheet's rows with cells, each player carrying its key as membership id |
| `Sheets.PlayersFirstSheet` | service-destiny/src/jobs/sheets.rs:106-109 | sheets after the first one in the reply never change the players |
| `Sheets.PlayersLastRow` | service-destiny/src/jobs/sheets.rs:107-183 | a player is read from the last row of the first sheet with its membership id |
| `Sheets.RowTexts` | service-destiny/src/jobs/sheets.rs:209-217 | a row's texts are its cells' formatted values, "" where missing, and none for a row without cells |
| `Sheets.RosterRowsAt` | service-destiny/src/jobs/sheets.rs:232-241 | member i comes from row i+4: first cell as name, last cell as number |
| `Sheets.ParseRowsClosedForm` | service-destiny/src/jobs/sheets.rs:198-243 | the row reader assigns row 1 to the name, row 2 to the group id, row 3 to the count, and every later row to a member |
| `Sheets.ClanOfRows` | service-destiny/src/jobs/sheets.rs:198-255 | a clan sheet's name and group id default to "" and 0 when the sheet is too short |
| `Sheets.Clans` | service-destiny/src/jobs/sheets.rs:247-255 | one clan per group id read, each recording its own id |
| `Sheets.ClansLastWins` | service-destiny/src/jobs/sheets.rs:248-255 | a later sheet with the same group id replaces an earlier one |
| `Sheets.Load` | service-destiny/src/jobs/sheets.rs:75-262 | load succeeds iff all three calls do; the maps are cleared first, so a failure leaves them empty or holding only the players; on success both maps are rebuilt from the replies |
| `Sheets.LoadForgetsPrevious` | service-destiny/src/jobs/sheets.rs:76-78 | nothing of the earlier workbook survives a load |
| `Sheets.MergeMember` | service-destiny/src/jobs/sheets.rs:300-312 | a roster entry updates a known player's name and platform, or adds a player without discord details; nothing else changes |
| `Sheets.MergeRoster` | service-destiny/src/jobs/sheets.rs:296-316 | merging adds exactly the roster keys and never touches discord details or membership ids |
| `Sheets.MergeRosterUntouched` | service-destiny/src/jobs/sheets.rs:298-312 | a player on no roster is left as it was |
| `Sheets.MergeRosterLastWins` | service-destiny/src/jobs/sheets.rs:298-305 | a player carries the name and platform of its last roster entry |
| `Sheets.RosterLastWins` | service-destiny/src/jobs/sheets.rs:299-305 | likewise keyed by the `to_string` of the membership id, with the platform rendered as text |
| `Sheets.MergeRosterAppend` | service-destiny/src/jobs/sheets.rs:284-316 | merging rosters one after another is merging their concatenation |
| `Sheets.SyncClan` | service-destiny/src/jobs/sheets.rs:289-316 | a synced clan keeps its group id, takes the fetched name when there is one, and lists exactly the roster's names and roles in roster order |
| `Sheets.SyncLoop` | service-destiny/src/jobs/sheets.rs:284-317 | the loop keeps the clan keys and merges every roster into the player list in visiting order |
| `Sheets.SyncLoopUntouched` | service-destiny/src/jobs/sheets.rs:290-296 | a clan the loop does not visit keeps its contents |
| `Sheets.SyncLoopClans` | service-destiny/src/jobs/sheets.rs:284-317 | each clan is synced exactly once, from its own answer |
| `Sheets.ApiSync` | service-destiny/src/jobs/sheets.rs:265-320 | the remote jobs get each group id as text; a failed job changes nothing; otherwise the clan keys stay and the player list takes every roster |
| `Sheets.ApiSyncClans` | service-destiny/src/jobs/sheets.rs:284-317 | after a successful sync every clan holds its fetched name and roster |

## Left out

- SQL execution and MySQL semantics are not modelled. The models build the
  statement text and bind list and take the store's answer as an input. The
  effect of `ON DUPLICATE KEY UPDATE` on the table is described only by its
  column lists.
- The tokio task that `set` spawns is not run. Its update is returned as a
  `Pending` value: the row id to update and the value. Its own clock reading
  is not modelled.
- Clocks are inputs. These are `unix_timestamp()` in `load`/`set`, and one
  reading per bound row in the platform-data write.
- md5 digests are inputs (`Hashes`), because md5 is not modelled.
- The insert-then-`find_by_id` pairs of `set` are one reply each: the insert
  failed, the insert took effect but the fetch failed, fetched with an id, or
  found nothing. A fetched row is taken to equal the inserted row with the
  store's id. A failed `set` reports the rows already written, but nothing
  removes them from the store.
- `f64` stat values are opaque bit patterns. No floating-point comparison or
  arithmetic is modelled.
- The Google Sheets client and OAuth (`MasterWorkbook::get`) are not modelled.
  The `lib_destiny` clan jobs and queries are not modelled either; their
  results are inputs.
- The `expect("Expecting grid data")` and `expect("Expecting row data")` panics
  in `load` are ruled out by the types: grids and rows are always present.
- `MasterWorkbook::save` and `ApplicationSettings::refresh` (both empty in the
  source), `test_job` and `env::get`/`env::exists` are not modelled, because
  they are environment lookups or stubs.
- Error logging is not modelled: the `tracing::error!` calls of the
  platform-data `read` and `write` and the `database::log_error` calls of the
  activity-stat `existing`, `write` and `get_instances` only write a log line.
  The models keep what each function returns after logging (an empty or zeroed
  result, or nothing).
- `process.rs` and the entity and migration glue are not part of this model.
- The `DatabaseRecord`/`DatabaseResult` macros are not part of this model. The
  `id`, `created_at`, `updated_at` and `deleted_at` fields they add are plain
  integer fields.
- Integer widths are not modelled: ids, membership ids and platforms are
  unbounded integers. The `u32` activity hashes are carried but never bound,
  as in the source. Only `parse::<i64>` checks the 64-bit range.
- The query conditions are not modelled: application, `deleted_at = 0`, the
  setting-id list and the joins. The rows a query returns are inputs and are
  taken as given.
- Statement texts have their whitespace normalised. Only fragments, placeholders
  and bind order are claimed.
- Strings are sequences of Unicode scalar values. UTF-8 is modelled only as a
  byte length per character.
- `AppSettings.Get`: stated through `AppSettings.UserFallsBackToGlobal` rather
  than its own contract.
- `PlatformData.Write`: the model does not state which rows the store ends up
  holding, only the statement it is sent.
- `Sheets.RosterRows`: its own contract gives only lengths; the contents of each
  member are stated by `Sheets.RosterRowsAt`.

### Where the model follows the code over its description

- `str::get(0..255)` returns `None` when byte 255 falls inside a character. The
  code then stores an empty display copy, not a shorter prefix
  (`Utf8.SplitCharacterDisplaysEmpty`).
- An empty platform batch still builds a read with `IN ()` and an upsert with an
  empty VALUES list. The code sends both; neither is short-circuited.
- Settings `load` issues the global-values query even when no definition was
  loaded. `AppSettings.Load` takes that query's answer in every case.
- In the stat upsert, `updated_at` is refreshed from the incoming `created_at`
  column.
- `"APPLICATION_SECRET"` converts to `DatabaseUrlSelf`.

## Findings

| source | as written | input that shows it | evidently intended | confidence | as-written member | corrected member |
|---|---|---|---|---|---|---|
| src/env.rs:45 | the name `APPLICATION_SECRET` converts to `EnvVar::DatabaseUrlSelf` | `"APPLICATION_SECRET"`, whose variable names `DATABASE_URL` | convert to `EnvVar::ApplicationSecret`, making the two `From` impls inverse | high; not executed | `Env.NameRoundTrip` | `Env.FromNameIntended` |
| service-accounts/src/database/platform_data.rs:98 | `write` pushes one `(?,...,?)` group per input record, but binds one row per distinct key of the `read` result | two records with key `"level"`: 20 placeholders, 10 binds, so the upsert is rejected and nothing is written | one VALUES group per bound row | medium; not executed | `PlatformData.DuplicateKeyBreaksArity` | `PlatformData.WriteCorrected` |
