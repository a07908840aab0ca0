# Pexy core, modelled in Dafny

Pexy is a pictogram-based communication app. This project models its core
and proves properties of the model:

- **The local store.** Four SQLite tables: the user profile, favorites,
  custom phrases and custom pictograms. Custom pictograms also have image
  files. Start-up creates the tables and runs column migrations.
- **Backup and restore.** The backup document and its checks. Export writes
  the store's content; import clears the store and replays the records.
- **Five screens and dialogs.** The PIN entry dialog, the PIN set-and-confirm
  dialog, the hidden-categories screen, the add-phrase dialog and the
  create-custom-pictogram flow.
- **The catalog and search.** The 32 categories, the bundled pictogram
  catalog and the case-insensitive search over labels, prebuilt phrases and
  custom phrases.
- **The offline asset script.** It rewrites pictogram image fields to `.webp`
  paths.
- **Speech option selection.** How the language, rate and pitch are chosen,
  and the voice as a `speak` that forwards it would pass it (as written,
  `speak` drops the voice; see Findings).

Modules and files:

| module | file | models |
|---|---|---|
| `Wrappers` | wrappers.dfy | `Option`, `Result`, `Outcome` |
| `Strings` | strings.dfy | the JavaScript string operations the code uses: `trim`, `toLowerCase`, `includes`, first-occurrence `replace`, `endsWith`, `parseInt`, `String(n)`, `padStart`, `substring` |
| `Seqs` | seqs.dfy | filter, reverse, map, find-first and de-duplication |
| `Json` | json.dfy | a JSON value; JavaScript property access and truthiness; `JSON.stringify`, `JSON.parse` and SHA-256 as uninterpreted functions; a property that needs a value to read back assumes it of that value only |
| `Schema` | schema.dfy | the rows of the four tables, insert records, defaults, update patches |
| `Tables` | tables.dfy | insertion order (increasing ids and creation ticks) and unique columns, as invariants of a table held as a sequence |
| `Store` | store.dfy | class `LocalStore`: every operation of the store and `initDatabase` |
| `BackupFormat` | backup_format.dfy | the document, the error keys, the file-name timestamp, the structure check, the version gate, the checksum and the record decoding |
| `Backup` | backup.dfy | `exportBackup` and `importBackup` as methods over the store and a file store |
| `PinCode` | pin_code.dfy | the PIN entry dialog |
| `SetPin` | set_pin.dfy | the PIN set-and-confirm dialog |
| `HiddenCategories` | hidden_categories.dfy | the hidden-categories screen |
| `AddPhrase` | add_phrase.dfy | the add-phrase dialog |
| `CreatePictogram` | create_pictogram.dfy | the two-step custom pictogram flow |
| `Categories` | categories.dfy | the category list |
| `Pictograms` | pictograms.dfy | the catalog loaders and lookups |
| `Search` | search.dfy | the search and the search screen |
| `PictoScript` | picto_script.dfy | the offline `.webp` rewriting script |
| `Tts` | tts.dfy | `speak`, `getTTSLanguage` and `speakWithPreferences` |

Parts that work by changing state are classes whose methods are proved
against pure functions:

- `LocalStore`, `FileStore`;
- the screen and dialog classes;
- the loops of the search, the catalog and the script.

The outside world enters as parameters:

- the clock and random numbers;
- the file system;
- the device pickers;
- the failures of foreign calls.

The timers of the dialogs are pending entries. An explicit `Fire(i)` event
runs entry `i`, so timers may fire in any order.

Where the declared schema and the code disagree, the model follows the code
that runs:

- `lib/db/schema.ts:11` declares a non-null `avatarId`, but `lib/db/index.ts:118-132`
  drops that column. The model has no avatar.
- `lib/db/operations.ts:36-45` and `app/hidden-categories.tsx:38` read and write
  `hiddenCategories`, but neither `schema.ts` nor `index.ts` declares that
  column. The model gives the profile an optional `hiddenCategories` string.
- `types/backup.ts:19-22` declares custom pictograms in a backup. `lib/backup.ts`
  neither exports nor restores them, so the model has no such part.

## Model

| member | source | states |
|---|---|---|
| Schema.ProfileRow | lib/db/schema.ts:8-17 | an inserted profile gets the given id and the insert tick as both timestamps; a missing language is 'fr', a missing speed 1.0, and a missing voice or PIN is NULL |
| Schema.ProfileFilled | lib/db/schema.ts:12-15 | the content of an inserted profile, whatever its id and tick, is the insert with its defaults filled in |
| Schema.ProfileContentRoundTrip | lib/db/schema.ts:8-17 | re-inserting a profile's content reproduces the row up to id and timestamps; filling defaults on stored content changes nothing |
| Schema.PatchProfile | lib/db/operations.ts:22-32 | an update sets exactly the given columns and `updatedAt`; id and `createdAt` are kept, and every column not given is unchanged |
| Schema.EmptyProfilePatch | lib/db/operations.ts:26-30 | an update with no columns changes only `updatedAt` |
| Schema.PhraseRow | lib/db/schema.ts:34-42 | an inserted phrase keeps its pictogram, text and emoji; its language defaults to 'fr' |
| Schema.PhraseFilled | lib/db/schema.ts:39 | the content of an inserted phrase is the insert with its language default filled in |
| Schema.PhraseContentRoundTrip | lib/db/schema.ts:34-42 | re-inserting a phrase's content reproduces the row up to id and timestamps |
| Schema.PatchPhrase | lib/db/operations.ts:127-137 | a phrase update sets the given text and emoji and `updatedAt`, and keeps id, pictogram, language and `createdAt` |
| Schema.PictogramRow | lib/db/schema.ts:48-56 | an inserted custom pictogram keeps its custom id, name and image path; its category defaults to 'custom' |
| Store.LatestProfile | lib/db/operations.ts:17-20 | `ORDER BY id DESC LIMIT 1` is none exactly for an empty table, otherwise a row whose id is the greatest |
| Store.LatestProfileIsLast | lib/db/operations.ts:17-20 | with auto-increment ids the greatest id is the last inserted row |
| Store.UpdateProfiles | lib/db/operations.ts:26-30 | the patch is applied to the rows with that id and to no other row |
| Store.UpdateUnknownProfile | lib/db/operations.ts:29 | an update of an id no row has changes nothing |
| Store.ParseHidden | lib/db/operations.ts:36-41 | a missing or empty stored value gives [], an unparseable one gives [], and anything else gives the parsed value |
| Store.ParseHiddenRoundTrip | lib/db/operations.ts:38-45 | when `JSON.parse` reads the non-empty text `JSON.stringify(ids)` back as `ids`, storing that text and reading it back gives `ids` |
| Store.FavoriteIds | lib/db/operations.ts:96-102 | the set of favorite ids is exactly the pictogram ids of the rows |
| Store.InsertFavorite | lib/db/operations.ts:57-69 | under the UNIQUE constraint an already-favorite id leaves the table as it was; any other id appends exactly one row |
| Store.DeleteFavorite | lib/db/operations.ts:71-73 | a delete never adds rows |
| Store.InsertFavoriteIds | lib/db/operations.ts:57-69 | after an insert the favorite set is the old set plus the id |
| Store.DeleteFavoriteIds | lib/db/operations.ts:71-73 | after a delete the favorite set is the old set minus the id |
| Store.ToggleFavoriteIds | lib/db/operations.ts:84-94 | a toggle flips the membership of that id and of no other id |
| Store.ToggleTwiceRestores | lib/db/operations.ts:84-94 | toggling twice restores the favorite set |
| Store.FavoritesNewestFirst | lib/db/operations.ts:96-102 | `getFavorites` lists the pictogram ids in reverse insertion order |
| Store.InsertFavoritePictograms | lib/db/operations.ts:57-69 | after an insert the id list gains the id at the end, unless the id is already there |
| Store.FavoritesNewestFirstDistinct | lib/db/schema.ts:26 | with the UNIQUE pictogram column, `getFavorites` lists no id twice |
| Store.PhrasesOf | lib/db/operations.ts:113-125 | a phrase is returned exactly when it has that pictogram and that language |
| Store.PhrasesIn | lib/db/operations.ts:143-150 | a phrase is returned exactly when it has that language |
| Store.PhraseQueriesNewestFirst | lib/db/operations.ts:123-148 | both phrase queries list rows with strictly decreasing creation ticks |
| Store.UpdatePhrases | lib/db/operations.ts:131-135 | the patch is applied to the phrase with that id and to no other row |
| Store.PictogramById | lib/db/operations.ts:168-175 | the result is a row with that custom id, and it is null exactly when no row has that custom id |
| Store.RenamePictograms | lib/db/operations.ts:177-183 | rows with that custom id get the new name and `updatedAt`; all other rows are unchanged |
| Store.DeleteFile | lib/db/operations.ts:190-197 | a file delete removes that path unless the file system refuses, and touches no other file |
| Store.Migrate | lib/db/index.ts:86-132 | a migration that is not needed, or that fails, leaves the columns as they are; otherwise it is no longer needed afterwards |
| Store.Alterations | lib/db/index.ts:91-123 | at most three ALTER statements are issued |
| Store.DropKeepsOthers | lib/db/index.ts:125-127 | dropping `avatar_id` keeps every other column |
| Store.MigrateAllColumns | lib/db/index.ts:85-132 | after migrations without failure the profile table has `tts_voice_id` and `pin_code` and lacks `avatar_id`, whatever it had before |
| Store.MigrateAllIdempotent | lib/db/index.ts:91-123 | a second initialisation issues no ALTER and changes no column |
| Store.MigrationFailureIsolated | lib/db/index.ts:98-116 | a failing migration does not stop the later ones |
| Store.DdlFirstTable | lib/db/index.ts:19-30 | once the first statement has run, `user_profile` exists |
| Store.ImagePathsSnoc | lib/db/operations.ts:223-233 | one more pictogram adds exactly its image path to the paths of the rows visited |
| Store.ImagePathsReverse | lib/db/operations.ts:220-223 | visiting the rows newest first touches the same image paths |
| Store.EmptyTablesOk | lib/db/schema.ts:9-49 | empty tables satisfy the ordering and uniqueness invariants |
| Store.LocalStore.ValidLater | lib/db/schema.ts:16-54 | the invariant survives the clock moving forward |
| Store.LocalStore.constructor | lib/db/index.ts:10 | a new installation has no rows, no files and no schema objects, and satisfies the invariant |
| Store.LocalStore.CreateUserProfile | lib/db/operations.ts:12-15 | exactly one row is appended, as the insert with defaults, the next id and the current tick |
| Store.LocalStore.GetUserProfile | lib/db/operations.ts:17-20 | null exactly when the table is empty, otherwise the last inserted profile |
| Store.LocalStore.LatestProfileIsLastIfValid | lib/db/operations.ts:17-20 | in a valid store the greatest id belongs to the last row |
| Store.LocalStore.UpdateUserProfile | lib/db/operations.ts:22-32 | the table becomes the patched table; a row is returned exactly when some row has that id, and then it is that row patched |
| Store.LocalStore.GetHiddenCategories | lib/db/operations.ts:34-42 | without a profile the result is []; otherwise it is the current profile's stored value parsed, or [] when that value is missing, empty or unparseable |
| Store.LocalStore.SetHiddenCategories | lib/db/operations.ts:44-46 | the list is stored on that profile as its JSON text; when that profile is the current one and the stored text parses back to the list, `getHiddenCategories` then returns the list |
| Store.LocalStore.AddFavorite | lib/db/operations.ts:57-69 | the table becomes `InsertFavorite` of the old table; null exactly when the id was already a favorite; the id is a favorite afterwards |
| Store.LocalStore.RemoveFavorite | lib/db/operations.ts:71-73 | every row of that pictogram is deleted; the favorite set loses exactly that id |
| Store.LocalStore.ToggleFavorite | lib/db/operations.ts:84-94 | the result is the new membership and the negation of the old one; only that id's membership changes |
| Store.LocalStore.AddCustomPhrase | lib/db/operations.ts:108-111 | exactly one row is appended, as the insert with its default, the next id and the current tick |
| Store.LocalStore.GetCustomPhrases | lib/db/operations.ts:113-125 | exactly the phrases of that pictogram and language (default 'fr'), newest first |
| Store.LocalStore.GetAllCustomPhrases | lib/db/operations.ts:143-150 | exactly the phrases of that language (default 'fr'), newest first |
| Store.LocalStore.UpdateCustomPhrase | lib/db/operations.ts:127-137 | only the phrase with that id is patched; a row is returned exactly when that id exists |
| Store.LocalStore.DeleteCustomPhrase | lib/db/operations.ts:139-141 | exactly the phrases with that id are removed |
| Store.LocalStore.CreateCustomPictogram | lib/db/operations.ts:156-159 | a custom id already present throws a unique violation and changes no row and no id counter; otherwise exactly one row is appended and the id counter moves on |
| Store.LocalStore.GetCustomPictograms | lib/db/operations.ts:161-166 | all rows in reverse insertion order, with strictly decreasing creation ticks |
| Store.LocalStore.UpdateCustomPictogram | lib/db/operations.ts:177-183 | only rows with that custom id are renamed; the result is exactly those rows |
| Store.LocalStore.DeleteCustomPictogram | lib/db/operations.ts:185-205 | for an unknown id nothing changes; otherwise the image is deleted unless the file system refuses, every phrase of that pictogram in any language is removed, the row is removed, and nothing else changes |
| Store.LocalStore.CopyImage | app/create-custom-pictogram.tsx:123-126 | the copied path is added to the files |
| Store.LocalStore.DeleteImages | lib/db/operations.ts:223-233 | every image of the given rows is deleted except those the file system refuses |
| Store.LocalStore.ClearAllData | lib/db/operations.ts:215-254 | image failures are not fatal; without a failing table delete all four tables are empty; a failing delete is rethrown after the earlier tables are emptied, and the later tables are kept |
| Store.LocalStore.WipeTables | lib/db/operations.ts:237-247 | the four deletes run in order: pictograms, phrases, favorites, profile; the first failure stops the rest |
| Store.LocalStore.ExecDdl | lib/db/index.ts:19-78 | an IF NOT EXISTS statement creates a missing object and leaves existing tables and their columns as they are |
| Store.LocalStore.ExecStep | lib/db/index.ts:19-78 | the k-th statement extends the objects created by the first k ones |
| Store.LocalStore.RunDdl | lib/db/index.ts:19-78 | the seven statements run in order; the first failure stops the rest and is reported |
| Store.LocalStore.CreateTables | lib/db/index.ts:19-65 | the four CREATE TABLE statements in order |
| Store.LocalStore.CreateIndexes | lib/db/index.ts:68-78 | the three CREATE INDEX statements in order |
| Store.LocalStore.RunMigrations | lib/db/index.ts:85-132 | the profile columns become `MigrateAll` of the old columns, and the ALTERs issued are `Alterations` |
| Store.FreshNeedsNoMigration | lib/db/index.ts:19-132 | the profile table as freshly created already has every migrated column, so no ALTER is issued and the columns stay as they are |
| Store.LocalStore.MakeImageDirAndMigrate | lib/db/index.ts:80-132 | the image directory exists afterwards unless creating it failed, which is ignored; the profile columns and ALTERs are those of the migrations |
| Store.LocalStore.InitDatabase | lib/db/index.ts:16-139 | a failing statement is rethrown and stops the rest; a directory failure is ignored; the migrations then run; no row is touched |
| BackupFormat.ExportCatch | lib/backup.ts:161-166 | a `BackupError` is rethrown; any other failure becomes `error_corrupted` |
| BackupFormat.ImportCatch | lib/backup.ts:250-258 | an `AbortError` returns silently, a `BackupError` is rethrown, and anything else becomes `error_corrupted` |
| BackupFormat.Pad2 | lib/backup.ts:30-34 | `padStart(2, "0")` of a number below 100 gives two digits that read back as the number |
| BackupFormat.Pad2Value | lib/backup.ts:30-34 | the same for the string form the code pads |
| BackupFormat.FormatTimestamp | lib/backup.ts:27-36 | the stamp reads `YYYY-MM-DD-HHmmss`: the year's digits, then '-', a two-digit month reading back as the 0-based month plus one, '-', a two-digit day, '-', and two-digit hours, minutes and seconds, each reading back as its field |
| BackupFormat.TimestampLayout | lib/backup.ts:27-36 | for an in-range moment every field of the stamp sits at its fixed offset after the year |
| BackupFormat.FormatTimestampInjective | lib/backup.ts:27-36 | distinct in-range moments give distinct stamps |
| BackupFormat.ParseNumeral | lib/backup.ts:92 | the major version of `<n>.<rest>` is n |
| BackupFormat.ParseDigits | lib/backup.ts:92 | `parseInt` of a run of digits is its decimal value |
| BackupFormat.CurrentMajor | lib/backup.ts:20 | the current major version is 1 |
| BackupFormat.VersionGate | lib/backup.ts:91-95 | `<n>.<rest>` is compatible exactly when n is 1, so "1.9.9" passes and "2.0.0" fails |
| BackupFormat.ValidateBackupStructure | lib/backup.ts:53-86 | the check passes exactly for well-formed documents (non-empty string version and checksum, object data, favorites array, fr and en arrays, userProfile null or an object); any other value throws `error_invalid`, except `null`, where reading `.version` is a TypeError |
| BackupFormat.StampFields | lib/backup.ts:223-240 | the fields the restore drops are exactly id, createdAt and updatedAt |
| BackupFormat.StripStamps | lib/backup.ts:223-240 | dropping them from a record leaves its other columns |
| BackupFormat.PhrasesJson | lib/backup.ts:121-124 | a phrase list is written item by item, in order |
| BackupFormat.BackupFileName | lib/backup.ts:138-139 | the file name ends in ".json" |
| BackupFormat.CheckBackup | lib/backup.ts:191-212 | the document is accepted exactly when it parses, is well formed, its checksum matches and its version is compatible; the first failing check gives the error (parse, then structure, then a checksum mismatch, then the version) |
| BackupFormat.ExportPassesChecks | lib/backup.ts:114-212 | a document that export writes passes every check import runs, given that its indented text parses back to it and its checksum is not empty |
| BackupFormat.RequiredString | lib/backup.ts:224-235 | a required column is read exactly when the key holds a string |
| BackupFormat.DefaultedString | lib/backup.ts:224-235 | a missing key takes the column default, and a string is stored as is |
| BackupFormat.DefaultedNumber | lib/backup.ts:224 | a missing speed takes the default, and a number is stored as is |
| BackupFormat.NullableString | lib/backup.ts:224-235 | a missing key or null stores NULL, and a string is stored as is |
| BackupFormat.DecodeProfile | lib/backup.ts:221-225 | a decoded profile is an object whose name is a string |
| BackupFormat.DecodePhrase | lib/backup.ts:233-236 | a decoded phrase is an object whose pictogramId and text are strings |
| BackupFormat.DecodedPrefix | lib/backup.ts:233-242 | the replayed phrases are at most the items of the list |
| BackupFormat.StringItems | lib/backup.ts:228-230 | the favorites inserted are exactly the string items of the array |
| BackupFormat.StringItemsOfStringArray | lib/backup.ts:228-230 | an exported id list reads back as that list |
| BackupFormat.StringItemsSnoc | lib/backup.ts:228-230 | one more item adds its string, if it is one |
| BackupFormat.DecodedWhile | lib/backup.ts:233-242 | a replay yields at most one value per item |
| BackupFormat.DecodedWhileAppend | lib/backup.ts:233-242 | after a list that replays in full, the replay goes on with what follows as if it alone were replayed |
| BackupFormat.DecodedPrefixAppend | lib/backup.ts:233-242 | the same for the phrase decoder |
| BackupFormat.DecodedPrefixSnoc | lib/backup.ts:233-236 | one more decodable item extends the replayed phrases by it |
| BackupFormat.ProfileRoundTrip | lib/backup.ts:223-224 | decoding an exported profile gives the row's content |
| BackupFormat.PhraseRoundTrip | lib/backup.ts:234-235 | decoding an exported phrase gives the row's content |
| BackupFormat.PhrasesRoundTrip | lib/backup.ts:233-242 | an exported phrase list decodes to the contents of its rows |
| BackupFormat.AllItemsDecode | lib/backup.ts:233-242 | a list whose every item decodes is replayed in full |
| BackupFormat.ExportRestoreRoundTrip | lib/backup.ts:100-242 | given that its indented text parses back and its checksum is not empty, an exported document passes import's checks, and its profile, favorites and fr and en phrases decode to the exported contents |
| BackupFormat.ExportDocumentParts | lib/backup.ts:114-135 | with a non-empty checksum, an exported document is well formed and carries the profile, favorites and phrase lists where import reads them |
| Backup.FileStore.constructor | lib/backup.ts:144 | the file store starts with the given files |
| Backup.FileStore.Write | lib/backup.ts:144 | a write stores the text at the URI, unless it fails |
| Backup.FileStore.Delete | lib/backup.ts:246 | a delete removes the URI, unless it fails |
| Backup.ExportBackup | lib/backup.ts:100-167 | without a profile it throws `error_no_data` and writes nothing; otherwise it writes the document to `<cache>pexy-backup-<stamp>.json`; failures become `error_corrupted`; a written file passes import's checks when its text parses back to the document and its checksum is not empty |
| Backup.CleanupTempFile | lib/backup.ts:154-160 | the timer deletes the exported file, and a failure only logs |
| Backup.RestoredProfiles | lib/backup.ts:221-225 | a restore inserts at most one profile |
| Backup.RestoredFavorites | lib/backup.ts:228-230 | the restored favorites hold no id twice |
| Backup.ImportBackup | lib/backup.ts:172-260 | a cancelled pick, a picker failure, a missing file and any failing check leave the store and the files untouched; an accepted document is cleared and then replayed; after a failed restore the files are untouched, a failed clear leaves exactly the tables wiped before the failing one empty, and otherwise the decodable profile, its favorites and the phrases inserted before the first undecodable one remain |
| Backup.RestoreDocument | lib/backup.ts:214-249 | for an accepted document, `clearAllData` runs and then the replay; a failing table delete gives `error_corrupted` and leaves the tables deleted before it empty and the rest as they were; a failed replay leaves the files untouched and the store holding what was inserted before the failure |
| Backup.Replay | lib/backup.ts:218-249 | the restore succeeds exactly when every record can be inserted; then the profile, the favorites and the fr and en phrases are inserted in document order and the picked file is deleted; a profile that cannot be inserted stops everything; any failure leaves the files untouched, and after an undecodable phrase the profile, the favorites and the phrases before it remain |
| Backup.RestoreProfile | lib/backup.ts:221-225 | the profile is inserted without id and timestamps exactly when it decodes |
| Backup.RestoreAllPhrases | lib/backup.ts:232-242 | the fr phrases, then the en phrases, each stripped and with defaults filled in; the phrases inserted are exactly `ReplayedPhrases`, so a failure keeps the ones before it |
| Backup.ReplayedPhrases | lib/backup.ts:232-242 | the phrases a replay inserts: all fr and en items when every item decodes; when an fr item does not, only the fr items before it, fewer than the fr list |
| Backup.RestoreFavorites | lib/backup.ts:228-230 | one `addFavorite` per string item, duplicates swallowed by the UNIQUE constraint, in document order |
| Backup.RestoreFavorite | lib/backup.ts:229 | one loop iteration extends the restored ids as the de-duplicated prefix |
| Backup.FavoriteStep | lib/backup.ts:228-230 | one iteration of the favorites loop, on the table's ids |
| Backup.RestorePhrases | lib/backup.ts:233-236 | one phrase loop appends the decodable prefix of the list; it finishes exactly when every item decodes |
| Backup.PhraseStep | lib/backup.ts:233-236 | one iteration of a phrase loop, on the table's content |
| Backup.RestoreOfExport | lib/backup.ts:100-242 | with a non-empty checksum, importing an exported document restores its profile content, its favorites and its fr then en phrase contents |
| Backup.RestoreOfParts | lib/backup.ts:218-242 | the same for any accepted document that carries exported records |
| Backup.PhraseListRestored | lib/backup.ts:233-242 | an exported phrase list is replayed in full with every row's content |
| Backup.FilledContents | lib/db/schema.ts:39 | filling in defaults changes no stored content |
| Backup.RestoredFavoritesReversed | lib/backup.ts:228-230 | favorites exported newest first and re-inserted in that order are listed in reverse order after a restore |
| PinCode.Keys | components/PINCodeModal.tsx:114 | the digit events of a typed string, in order |
| PinCode.DigitPress | components/PINCodeModal.tsx:28-51 | below four digits, a digit is appended and clears the error; the fourth digit schedules the check of the full entry; at four digits a press changes nothing |
| PinCode.DeletePress | components/PINCodeModal.tsx:53-56 | delete removes the last digit, if any, clears the error and leaves the timers |
| PinCode.CancelPress | components/PINCodeModal.tsx:58-64 | cancel clears the entry only when a cancel handler is given |
| PinCode.SuccessIffMatch | components/PINCodeModal.tsx:35-39 | success fires exactly when a pending check of the correct PIN runs, and the entry is then cleared |
| PinCode.MismatchThenReset | components/PINCodeModal.tsx:40-47 | a wrong entry sets the error, vibrates for 500 ms and schedules the reset; the reset clears entry and error |
| PinCode.StepBounded | components/PINCodeModal.tsx:29 | no event makes the entry longer than four digits |
| PinCode.RunBounded | components/PINCodeModal.tsx:29 | no sequence of events makes the entry longer than four digits |
| PinCode.SuccessNeedsFourDigits | components/PINCodeModal.tsx:35-38 | success is possible only for a four-character PIN |
| PinCode.RunAppend | components/PINCodeModal.tsx:28-64 | running two event sequences one after the other is running their concatenation |
| PinCode.RunSingle | components/PINCodeModal.tsx:28-64 | running one event is one step |
| PinCode.TypeDigits | components/PINCodeModal.tsx:28-51 | typing up to four digits appends them and, on reaching four, schedules one check |
| PinCode.CorrectCodeUnlocks | components/PINCodeModal.tsx:28-39 | typing the correct PIN and letting the timer run succeeds and clears the entry |
| PinCode.WrongCodeResets | components/PINCodeModal.tsx:40-47 | typing a wrong PIN shows the error and vibrates; the second timer clears everything |
| PinCode.PinCodeModal.constructor | components/PINCodeModal.tsx:25-26 | the dialog starts empty and without error |
| PinCode.PinCodeModal.HandleNumberPress | components/PINCodeModal.tsx:28-51 | the dialog state becomes `PressDigit` of the old state |
| PinCode.PinCodeModal.HandleDelete | components/PINCodeModal.tsx:53-56 | the dialog state becomes `DeleteDigit` of the old state |
| PinCode.PinCodeModal.HandleCancel | components/PINCodeModal.tsx:58-64 | the dialog state and effect are those of `CancelEntry` |
| PinCode.PinCodeModal.RunTimer | components/PINCodeModal.tsx:36-48 | running a pending timer gives the state and effect of `FireTimer` |
| SetPin.Keys | components/SetPINModal.tsx:32 | the digit events of a typed string, in order |
| SetPin.DigitPress | components/SetPINModal.tsx:32-72 | a digit goes to the buffer of the current step while it is below four digits and clears the error; the fourth digit schedules the move to confirm, or the comparison; a full buffer ignores presses |
| SetPin.DeletePress | components/SetPINModal.tsx:74-81 | delete shortens only the current step's buffer and clears the error |
| SetPin.CancelPress | components/SetPINModal.tsx:83-88 | cancel resets the dialog only when a cancel handler is given |
| SetPin.TimerFires | components/SetPINModal.tsx:41-67 | the first timer moves to confirm; a matching confirmation chooses the PIN and resets; a mismatch sets the error message and vibrates, and its reset timer clears both buffers and returns to enter |
| SetPin.ChosenIffMatch | components/SetPINModal.tsx:55-57 | a PIN is chosen exactly when a comparison of equal codes runs |
| SetPin.StepBounded | components/SetPINModal.tsx:34-47 | no event makes a buffer longer than four digits |
| SetPin.RunBounded | components/SetPINModal.tsx:34-47 | no sequence of events makes a buffer longer than four digits |
| SetPin.ChosenHasFourDigits | components/SetPINModal.tsx:53-56 | a chosen PIN has four characters |
| SetPin.RunAppend | components/SetPINModal.tsx:32-95 | running two event sequences one after the other is running their concatenation |
| SetPin.RunSingle | components/SetPINModal.tsx:32-95 | running one event is one step |
| SetPin.TypeFirst | components/SetPINModal.tsx:33-45 | typing up to four digits in the enter step fills the first buffer and, on reaching four, schedules the move to confirm |
| SetPin.TypeConfirmation | components/SetPINModal.tsx:46-70 | typing up to four digits in the confirm step fills the confirmation and, on reaching four, schedules the comparison |
| SetPin.ChooseCode | components/SetPINModal.tsx:32-70 | typing a code, letting the timer run and typing a confirmation reaches the comparison of the two |
| SetPin.MatchingCodesChosen | components/SetPINModal.tsx:53-95 | typing the same code twice chooses it and resets the dialog |
| SetPin.DifferentCodesRestart | components/SetPINModal.tsx:58-66 | typing two different codes vibrates, then returns to an empty enter step |
| SetPin.SetPinModal.constructor | components/SetPINModal.tsx:27-30 | the dialog starts in the enter step with empty buffers and no error |
| SetPin.SetPinModal.ResetState | components/SetPINModal.tsx:90-95 | the buffers and the error are cleared and the step is enter |
| SetPin.SetPinModal.HandleNumberPress | components/SetPINModal.tsx:32-72 | the dialog state becomes `PressDigit` of the old state |
| SetPin.SetPinModal.HandleDelete | components/SetPINModal.tsx:74-81 | the dialog state becomes `DeleteDigit` of the old state |
| SetPin.SetPinModal.HandleCancel | components/SetPINModal.tsx:83-88 | the dialog state and effect are those of `CancelSetup` |
| SetPin.SetPinModal.RunTimer | components/SetPINModal.tsx:41-67 | running a pending timer gives the state and effect of `FireTimer` |
| HiddenCategories.ToggleValue | app/hidden-categories.tsx:51-53 | toggling an array gives an array; toggling a value that is neither an array nor a string throws |
| HiddenCategories.ToggleFlips | app/hidden-categories.tsx:51-53 | a toggle flips the membership of that id and of no other id |
| HiddenCategories.ToggleShape | app/hidden-categories.tsx:51-53 | a present id is removed everywhere it occurs; an absent id is appended at the end |
| HiddenCategories.ToggleNoDuplicates | app/hidden-categories.tsx:51-53 | a toggle keeps a duplicate-free list duplicate-free |
| HiddenCategories.ToggleTwice | app/hidden-categories.tsx:51-53 | toggling an absent id twice restores the list; toggling twice always restores the set of ids and keeps a list duplicate-free |
| HiddenCategories.ToggleValueOfList | app/hidden-categories.tsx:51-53 | on a list of strings the toggle of the JSON value is the toggle of the list |
| HiddenCategories.FilterOfStrings | app/hidden-categories.tsx:52 | filtering the JSON array is filtering the list of strings |
| HiddenCategories.StoredValueReadsBack | app/hidden-categories.tsx:38-57 | a value whose non-empty JSON text parses back to it reads back as the value |
| HiddenCategories.HiddenCategoriesScreen.constructor | app/hidden-categories.tsx:26-27 | the screen starts with no profile id and an empty list |
| HiddenCategories.HiddenCategoriesScreen.LoadProfile | app/hidden-categories.tsx:33-46 | without a profile nothing changes; otherwise the id is the profile's, and the list is the parsed value, or [] when the value is missing or unparseable |
| HiddenCategories.HiddenCategoriesScreen.HandleToggleCategory | app/hidden-categories.tsx:48-59 | with no profile id, id 0 or "custom", nothing changes; otherwise the toggled list becomes the state and is stored on the profile; a current profile then reads back that list when its JSON text parses back to it |
| HiddenCategories.PersistHidden | app/hidden-categories.tsx:56-58 | the value is stored as JSON on that profile and, for the current profile, reads back when its text parses back to it |
| AddPhrase.EmojiToggle | app/add-phrase.tsx:54-60 | pressing the picked emoji unpicks it and pressing another picks it; a double press restores an empty pick or a pick of that emoji |
| AddPhrase.CappedIsPrefix | app/add-phrase.tsx:108 | the text is a prefix of the input of at most 200 characters, and shorter input is kept whole |
| AddPhrase.BlankSavesNothing | app/add-phrase.tsx:33 | nothing is saved exactly when the text is white space |
| AddPhrase.SavePayloadShape | app/add-phrase.tsx:38-43 | the saved row has the route's pictogram, the trimmed non-empty text, the picked emoji or NULL, and the interface language |
| AddPhrase.AddPhraseScreen.constructor | app/add-phrase.tsx:27-30 | the dialog starts with empty text, no emoji and not saving |
| AddPhrase.AddPhraseScreen.ChangeText | app/add-phrase.tsx:104-108 | the field holds the input cut at 200 characters |
| AddPhrase.AddPhraseScreen.HandleEmojiPress | app/add-phrase.tsx:54-60 | the pick becomes `PressEmoji` of the old pick |
| AddPhrase.AddPhraseScreen.HandleSave | app/add-phrase.tsx:32-52 | blank text or a failing insert leaves the table and the dialog as they were; otherwise exactly the payload row is appended and the dialog closes; saving is reset either way |
| CreatePictogram.RandomSuffix | app/create-custom-pictogram.tsx:108 | the suffix has at most six characters |
| CreatePictogram.SuffixIsBase36 | app/create-custom-pictogram.tsx:108 | every suffix character is a base-36 digit |
| CreatePictogram.PathMatchesId | app/create-custom-pictogram.tsx:107-132 | the image path is `custom_pictograms/picto_` followed by the id's timestamp and suffix and ".webp" |
| CreatePictogram.CustomIdInjective | app/create-custom-pictogram.tsx:109 | different timestamps or suffixes give different ids |
| CreatePictogram.NewPictogramShape | app/create-custom-pictogram.tsx:129-134 | the stored name is trimmed, and it is empty exactly when the typed name is white space |
| CreatePictogram.CappedNameIsPrefix | app/create-custom-pictogram.tsx:226 | the name is a prefix of the input of at most 50 characters |
| CreatePictogram.CreatePictogramScreen.constructor | app/create-custom-pictogram.tsx:26-29 | the flow starts at choose, with no picture, an empty name and not saving |
| CreatePictogram.CreatePictogramScreen.HandlePick | app/create-custom-pictogram.tsx:57-98 | a picture moves the flow to naming; a refusal, a closed picker or an error changes nothing |
| CreatePictogram.CreatePictogramScreen.ChangeName | app/create-custom-pictogram.tsx:225-226 | the field holds the input cut at 50 characters |
| CreatePictogram.CreatePictogramScreen.HandleBack | app/create-custom-pictogram.tsx:146-154 | back from naming returns to choose and clears picture and name; back from choose leaves the screen |
| CreatePictogram.CreatePictogramScreen.HandleCreate | app/create-custom-pictogram.tsx:100-144 | without a picture or with a blank name nothing happens; a failing conversion or copy changes nothing, the id counter and the clock included; otherwise the file is copied, and the row is inserted and the new page opened unless the id is taken, in which case no row and no id is used |
| CreatePictogram.SavePictogram | app/create-custom-pictogram.tsx:123-134 | the copy happens first, then the insert, which fails exactly when the custom id exists and then uses no id |
| Categories.CategoriesShape | constants/categories.ts:5-10 | the list has 32 entries and the first is "custom" |
| Categories.CategoryIdsDistinct | constants/categories.ts:8-329 | the category ids are pairwise distinct |
| Categories.CategoriesTranslated | constants/categories.ts:14-17 | every category has fr and en names |
| Pictograms.TagAll | lib/pictograms.ts:31-33 | each pictogram is tagged with the category, in order |
| Pictograms.LoadPictogramsCases | lib/pictograms.ts:7-21 | only "transport" has a list; a failed load gives [] |
| Pictograms.FlattenLength | lib/pictograms.ts:29-34 | the flattened catalog is as long as all lists together |
| Pictograms.FlattenFromTransport | lib/pictograms.ts:10-34 | every catalog entry is a bundled transport pictogram tagged "transport" |
| Pictograms.FlattenSnoc | lib/pictograms.ts:29-34 | each category's entries come after those of the categories before it |
| Pictograms.FavoritesKept | lib/pictograms.ts:42-45 | an entry is kept exactly when it is in the catalog and its id is a favorite |
| Pictograms.GetPictogramFirst | lib/pictograms.ts:50-56 | the lookup gives the first entry with that id, and null exactly when none has it |
| Pictograms.LoadAllPictograms | lib/pictograms.ts:26-37 | the result is the flattened catalog over the category list |
| Pictograms.LoadCategories | lib/pictograms.ts:29-34 | the loop over categories builds the flattened catalog |
| Pictograms.PushTagged | lib/pictograms.ts:31-33 | the inner loop appends each pictogram tagged |
| Search.DefaultEmojiAsWrittenIsGarbled | app/search.tsx:84 | the default emoji as written is four characters and not the speech balloon |
| Search.CustomEmojiDefault | app/search.tsx:84 | a custom hit shows the phrase's emoji, or the single speech-balloon character when the emoji is missing or empty |
| Search.TranslationFallback | app/search.tsx:54 | the current language's translation is used, else the French one; there is none exactly when both are missing |
| Search.PhraseHitsExact | app/search.tsx:66-74 | a prebuilt phrase gives a hit exactly when its lower-cased text contains the query |
| Search.CustomHitsExact | app/search.tsx:77-87 | a custom phrase gives a hit exactly when its lower-cased text contains the query, with its emoji or the corrected default U+1F4AC of the Findings row |
| Search.HitsForExact | app/search.tsx:53-88 | a pictogram without translation makes the search throw; otherwise its hits all match, and every matching label, prebuilt phrase and custom phrase of the current language gives a hit |
| Search.SearchFailsIff | app/search.tsx:53-92 | the search throws exactly when some catalog entry has neither the current language nor French |
| Search.SearchSound | app/search.tsx:58-85 | every result belongs to a catalog entry, and its label or phrase text contains the query |
| Search.SearchComplete | app/search.tsx:53-88 | every hit of every catalog entry is among the results |
| Search.SpokenTextMatches | app/search.tsx:98-110 | pressing a result speaks a text that contains the query |
| Search.CollectResults | app/search.tsx:45-88 | the loop builds the result list: per pictogram in catalog order, the label hit, then the phrase hits, then the custom hits |
| Search.PushHitsFor | app/search.tsx:54-87 | one pictogram appends its label, phrase and custom hits, in that order |
| Search.PushLabelHit | app/search.tsx:58-63 | a matching label appends one hit |
| Search.PushPhraseHits | app/search.tsx:66-74 | the phrase loop appends the matching phrases in order |
| Search.PushCustomHits | app/search.tsx:77-87 | the custom loop appends the matching custom phrases in order |
| Search.SearchScreen.constructor | app/search.tsx:31-33 | the screen starts with an empty query, no results and not loading |
| Search.SearchScreen.ChangeText | app/search.tsx:157 | the query becomes the typed text |
| Search.SearchScreen.QueryEffect | app/search.tsx:35-41 | a blank query clears the results and runs no search; otherwise the trimmed query is searched |
| Search.SearchScreen.PerformSearch | app/search.tsx:43-96 | loading ends false; the results become the search's (with the corrected default emoji), or stay as they were when it throws |
| PictoScript.UpdateEntries | scripts/update-picto-json.js:67-82 | each entry is updated on its own, and the list keeps its length and order |
| PictoScript.NormalizeIdIdempotent | scripts/update-picto-json.js:15-17 | normalising twice is normalising once, and the result has no '-', '_' or upper-case letter |
| PictoScript.NormalizeIgnoresSeparators | scripts/update-picto-json.js:15-17 | ids that differ only in '-' and '_' normalise alike |
| PictoScript.LowerFilterCommutes | scripts/update-picto-json.js:16 | lower-casing and deleting separators commute |
| PictoScript.WebpFilesShape | scripts/update-picto-json.js:20-35 | exactly the listed files ending in ".webp" are kept; a missing directory gives none |
| PictoScript.BasenameDropsSuffix | scripts/update-picto-json.js:32 | the base name drops the ".webp" of a name where it occurs only at the end |
| PictoScript.WebpMapLaterWins | scripts/update-picto-json.js:59-62 | a name is in the map exactly when some file normalises to it, and the last such file wins |
| PictoScript.WebpMapValues | scripts/update-picto-json.js:59-62 | every value of the map ends in ".webp" |
| PictoScript.UpdateEntryShape | scripts/update-picto-json.js:68-81 | only the image changes, and only when the id matches a file and the image lacks ".webp"; it then becomes `assets/pictos/<category>/<file>` |
| PictoScript.CountIsRewritten | scripts/update-picto-json.js:65-81 | the count is the number of rewritten entries, at most the total |
| PictoScript.SecondPassNoop | scripts/update-picto-json.js:76 | a second pass changes nothing and counts 0 |
| PictoScript.NoRewritesCountZero | scripts/update-picto-json.js:65-81 | without a rewritable entry the count is 0 |
| PictoScript.UpdateCategoryProperties | scripts/update-picto-json.js:38-92 | a missing file gives 0/0 and writes nothing; no webp files gives 0 and the count and writes nothing; updated is at most total; running again on the written file updates 0 and writes the same |
| PictoScript.BuildWebpMap | scripts/update-picto-json.js:59-62 | the loop builds the map |
| PictoScript.UpdatePictograms | scripts/update-picto-json.js:65-82 | the loop rewrites the entries and counts the rewrites |
| PictoScript.UpdateCategoryJson | scripts/update-picto-json.js:38-92 | the script's result and written file are those of `UpdateCategory` |
| Tts.IsSpeaking | lib/tts.ts:38-45 | the answer is true exactly when the engine says so; an error gives false |
| Tts.AvailableVoices | lib/tts.ts:65-73 | the engine's voices, or [] on error |
| Tts.TtsLanguageMap | lib/tts.ts:50-60 | fr, en, es, de and it map to their locales, and anything else maps to fr-FR |
| Tts.SpeakDefaults | lib/tts.ts:20-24 | a missing or falsy language, rate or pitch becomes fr-FR, 1.0 or 1.0; a given one is kept |
| Tts.SpeakSettled | lib/tts.ts:20-24 | speaking again with an utterance's own settings gives the same utterance |
| Tts.SpeakSwallowsErrors | lib/tts.ts:15-27 | `speak` always asks the engine to stop first and never fails; it speaks exactly when stopping worked |
| Tts.VoiceDroppedAsWritten | lib/tts.ts:9-24 | as written, the utterance is the same with or without a voice id, and carries no voice |
| Tts.VoiceForwarded | lib/speakWithPreferences.ts:22 | with the voice forwarded, a truthy voice id is used, and the rest of the utterance is as written |
| Tts.PreferencesChosen | lib/speakWithPreferences.ts:7-31 | without a profile or on error: the override or fr-FR at the default rate and no voice; with a profile: the override or the profile's locale, the profile's speed, and its voice if set, which reaches the utterance only through the corrected `speak` of the Findings row |
| Tts.PreferencesFallback | lib/speakWithPreferences.ts:24-30 | a failed profile read is treated as no profile, and a truthy override always decides the language |

## Left out

- Foreign systems are inputs or parameters: SQLite and drizzle, the file system, the sharing sheet, the document and image pickers, the camera, the image conversion, expo-speech and expo-crypto. `JSON.stringify`, `JSON.parse` and SHA-256 are uninterpreted functions. No law is assumed of them for every value, because a model number is any real and no text can carry every real; a property that needs a value to read back assumes it of that value (`Json.StringifyRoundTrips`, `Json.PrettyRoundTrips`), and `Json.RoundTripsMeetable` shows such collaborators exist. Hashing and serialisation themselves are not modelled.
- Failures that are parameters: a failing table delete in `clearAllData` (`clearFault`), a failing DDL statement, a failing migration and a failing image-directory creation in `initDatabase`, image files that cannot be deleted (`undeletable`), a rejected write, share or cleanup delete in the backup, a picker that throws, a missing picked file, a failing picture conversion or copy, the insert failure of the add-phrase screen, and a throwing `getUserProfile` and a throwing `Speech.stop` in `speakWithPreferences`. A unique-key violation is no parameter: the store computes it from its rows.
- Failures that are assumed not to happen: any other rejection by SQLite in `createUserProfile`, `updateUserProfile`, `addCustomPhrase`, `updateCustomPhrase`, `deleteCustomPhrase`, the getters and the table deletes inside `deleteCustomPictogram`; a rejected `digestStringAsync` (lib/backup.ts:41-46); and a rejected `readAsStringAsync` of a picked file that exists.
- BackupFormat.CheckBackup: JSON objects are unordered maps (`Json.JObj`), while the source hashes `JSON.stringify` of the parsed `data` in the file's own key order. A file whose `data` or record keys were reordered but whose values are unchanged is rejected by the source with `error_corrupted` and accepted by the model.
- Backup.ImportBackup: for the same reason, a backup with reordered keys is restored by the model and refused by the source.
- PictoScript.UpdateCategoryJson: the rewritten category files keep the key order of the files read, which the model's unordered objects do not record.
- Time and randomness are parameters: `new Date()`, `Date.now()`, `toISOString()` and `Math.random()`. Timer delays are not modelled. A pending timer runs only when a `Fire` event names it, and timers cancelled by unmounting a dialog are not modelled.
- The store's creation timestamps are a strictly increasing tick. SQLite's `CURRENT_TIMESTAMP` has one-second resolution, so two rows created in the same second could come out in either order under "newest first". The model does not cover those ties.
- Auto-increment counters are never reset, not even by `clearAllData`, and a failed insert takes no id. These match SQLite's AUTOINCREMENT.
- Concurrency is not modelled. This includes the read-then-write race of `toggleFavorite`, overlapping searches, and `initDatabase` called without `await` at start-up.
- Floating point is not modelled. `ttsSpeed`, rate and pitch are `real`; NaN, the compression factor and the resize width are left out.
- `Strings.Lower` models `toLowerCase` for ASCII and the Latin-1 capitals U+00C0 to U+00DE (except U+00D7). Other scripts, and letters that change length when lower-cased, are not modelled.
- Strings are sequences of code points. The UTF-16 length that `maxLength` counts is not modelled, so an emoji counts as one character in `Capped` and `CappedName`.
- SQLite type affinity is not modelled. A restored column of the wrong JSON type makes that record's insert fail, while SQLite might coerce it.
- The backup's `appVersion` and `timestamp` fields are written but never checked; the model carries them and states nothing about them.
- `exportBackup`'s error for a missing profile is thrown after the store has been read, and reads have no effect in the model.
- Backup.ImportBackup: documents whose favorites items are not strings are handled as failed inserts that are swallowed. The `catch` in `addFavorite` swallows every error, not only UNIQUE violations.
- Backup.ImportBackup: `result.assets[0]` being absent after a non-cancelled pick is not modelled; a pick gives one URI.
- Backup.ExportBackup: the pretty printing of `JSON.stringify(doc, null, 2)` is `env.pretty`. That the written file passes import's checks is stated when `env.parse` reads that one document back and its checksum is not empty (`BackupFormat.ReadsBack`); these two facts about `JSON.parse` and SHA-256 are assumed, not derived. `BackupFormat.ReadsBackMeetable` shows they can hold together.
- BackupFormat.ExportPassesChecks: assumes `BackupFormat.ReadsBack` of the exported document, as for `Backup.ExportBackup`.
- BackupFormat.ExportRestoreRoundTrip: assumes `BackupFormat.ReadsBack` of the exported document, as for `Backup.ExportBackup`.
- Store.LocalStore.SetHiddenCategories: the read-back is stated when `JSON.parse` reads the stored text back as the list (`Json.StringifyRoundTrips` of that list), which is assumed of `JSON.stringify` and `JSON.parse`, not derived.
- HiddenCategories.PersistHidden: the read-back is stated under `Json.StringifyRoundTrips` of the stored value, as for `SetHiddenCategories`.
- HiddenCategories.HiddenCategoriesScreen.HandleToggleCategory: the read-back is stated under `Json.StringifyRoundTrips` of the new list, as for `SetHiddenCategories`.
- Search.CustomHits: uses the corrected default emoji U+1F4AC of the Findings row, not the garbled literal of app/search.tsx:84; `Search.DefaultEmojiAsWrittenIsGarbled` states the literal as written.
- Search.CustomHitsExact: states hits with the corrected default emoji, as `Search.CustomHits` computes them.
- Search.PushCustomHits: appends hits with the corrected default emoji, as `Search.CustomHits`.
- Search.SearchAll: builds custom hits with the corrected default emoji, as `Search.CustomHits`.
- Search.CollectResults: builds custom hits with the corrected default emoji, as `Search.CustomHits`.
- Search.SearchScreen.PerformSearch: its results carry the corrected default emoji, as `Search.CustomHits`.
- Tts.Speak: forwards the voice id, as the corrected `speak` of the Findings row; `Tts.UtteranceAsWritten` and `Tts.VoiceDroppedAsWritten` state what lib/tts.ts:20-24 does, which is to drop it.
- Tts.SpeakWithPreferences: speaks through the corrected `Tts.Speak`, so the profile's voice reaches the engine; as written it does not.
- Tts.PreferencesChosen: states the voice of the utterance the corrected `speak` builds; as written every utterance has no voice.
- `Store.DeleteFile`: the file system refusing a delete is the `undeletable` set; a missing file is one the set does not contain.
- `Store.LocalStore.CopyImage` adds the file unconditionally; a failing copy is a parameter of the caller.
- `Search.SearchScreen.PerformSearch`: a failing `getCustomPhrases` inside the search is not modelled; only a missing translation throws.
- `Search.SearchScreen.QueryEffect` runs the search synchronously. The results of a stale search arriving after a newer one are not modelled.
- `getPictogram` and the search route use the route parameters as given; an undefined `pictogramId` route parameter in the add-phrase dialog is not modelled.
- `HiddenCategories.ToggleValue`: a stored string is spread into its characters, as `[...s]` would, and other non-arrays throw. The screen holds whatever `JSON.parse` returned, because the cast to `string[]` is unchecked.
- The category list's icons, images and colours, and the colour palette, are not modelled.
- `CreatePictogram.CreatePictogramScreen.HandleCreate` does not check that the `custom_pictograms/` directory exists; a missing directory counts as a failing copy.
- The pictogram catalog is an input: the transport list, or `None` when loading it throws. Other category files are not bundled.
- `PictoScript.WebpMap`: lookups are on the map's own keys. Keys inherited from `Object.prototype`, such as "constructor", which the script's object literal would also find, are not modelled.
- `Tts.TtsLanguage`: inherited keys of the language map, such as "constructor", are not modelled either.
- `updateAllCategories` is not modelled: the directory walk, the per-category logging and the totals it prints. The script's `JSON.parse` failure, which aborts it, is not modelled either.
- `PictoScript.Total`: a `pictograms` member that is not an array counts as a missing list, so its total is 0. A string's `length` would count in the script.
- `PictoScript.UpdateResult` omits the `category` field of the script's result.
- `PictoScript.BasenameDropsSuffix` states the base name only for file names whose single ".webp" is at the end. `WebpFileOf` models the first-occurrence replace in general.
- `stopSpeaking` is a bare engine call whose failure is caught; there is nothing to state about it.
- UI rendering, styles and navigation animations are not modelled. Navigation is the route or the back action the handler issues.

## Findings

| source | as written | input that shows it | evidently intended | confidence | as-written member | corrected member |
|---|---|---|---|---|---|---|
| app/search.tsx:84 | the default emoji literal for a custom phrase is four characters: U+F8FF, 'ü', 'í', '¨'. These are the UTF-8 bytes of U+1F4AC read as Mac Roman | a custom phrase with `emoji` NULL that matches the query gets the four-character text as its emoji | the speech balloon U+1F4AC, one character | not executed | Search.DefaultEmojiAsWrittenIsGarbled | Search.CustomEmojiDefault |
| lib/tts.ts:9-13,20-24 | `speak` declares and forwards only language, rate and pitch, so the `voiceId` passed at lib/speakWithPreferences.ts:22 is dropped | a profile with `ttsVoiceId` "com.apple.voice.Thomas" speaks with the engine's default voice | the chosen voice is passed to the speech engine | not executed | Tts.VoiceDroppedAsWritten | Tts.VoiceForwarded |
