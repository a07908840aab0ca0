/** `exportBackup` and `importBackup`: the store's content written to a JSON
    file in the cache directory, and a picked file checked, the store
    cleared and the file's records replayed into it. */
module Backup {
  import opened Wrappers
  import opened Seqs
  import opened Json
  import opened Schema
  import opened Tables
  import opened Store
  import opened BackupFormat

  /** The files reachable through the file-system API, by URI. */
  class FileStore {
    var files: map<string, string>

    constructor (initial: map<string, string>)
      ensures files == initial
    {
      files := initial;
    }

    /** `writeAsStringAsync(uri, text)`; `fails` stands for a rejected write. */
    method Write(uri: string, text: string, fails: bool)
      modifies this
      ensures files == if fails then old(files) else old(files)[uri := text]
    {
      if !fails {
        files := files[uri := text];
      }
    }

    /** `deleteAsync(uri, { idempotent: true })` whose rejection the caller
        logs and ignores: a missing file is no error, a refused delete
        changes nothing. */
    method Delete(uri: string, fails: bool)
      modifies this
      ensures files == if fails then old(files) else old(files) - {uri}
    {
      if !fails {
        files := files - {uri};
      }
    }
  }

  // ---------------------------------------------------------------
  // Export

  /** The path the export writes to. */
  function ExportPath(cacheDir: string, now: LocalTime): string {
    cacheDir + BackupFileName(now)
  }

  /** The document for the store's current content: the newest profile, the
      favorites newest first and the fr and en phrases newest first. */
  function StoreDocument(env: JsonEnv, store: LocalStore, timestamp: string): Json
    reads store
    requires store.profiles != []
  {
    ExportDocument(env, store.GetUserProfile().value, store.GetFavorites(),
                   store.GetAllCustomPhrases("fr"), store.GetAllCustomPhrases("en"), timestamp)
  }

  /** `exportBackup()`. `iso` is what `toISOString()` reads, `now` the local
      time the file name uses; `writeFails` and `shareFails` stand for a
      rejected write or share. On success the returned path is the file the
      5-second timer deletes afterwards (see `CleanupTempFile`). */
  method ExportBackup(env: JsonEnv, store: LocalStore, fs: FileStore, now: LocalTime, iso: string,
                      cacheDir: string, writeFails: bool, shareFails: bool)
    returns (o: Outcome<BackupError>, cleanup: Option<string>)
    requires store.Valid()
    modifies fs
    ensures store.profiles == [] ==>
      o == Fail(BackupError(ERROR_NO_DATA)) && fs.files == old(fs.files) && cleanup == None
    ensures store.profiles != [] ==>
      && fs.files == (if writeFails then old(fs.files)
                      else old(fs.files)[ExportPath(cacheDir, now) := env.pretty(StoreDocument(env, store, iso))])
      && o == (if writeFails || shareFails then Fail(BackupError(ERROR_CORRUPTED)) else Pass)
      && cleanup == (if o == Pass then Some(ExportPath(cacheDir, now)) else None)
    ensures o == Pass && ReadsBack(env, StoreDocument(env, store, iso)) ==>
      CheckBackup(env, fs.files[ExportPath(cacheDir, now)]) == Ok(StoreDocument(env, store, iso))
  {
    var profile := store.GetUserProfile();
    if profile.None? {
      return Fail(ExportCatch(Raised(BackupError(ERROR_NO_DATA)))), None;
    }
    var doc := ExportDocument(env, profile.value, store.GetFavorites(),
                              store.GetAllCustomPhrases("fr"), store.GetAllCustomPhrases("en"), iso);
    var path := cacheDir + BackupFileName(now);
    fs.Write(path, env.pretty(doc), writeFails);
    if writeFails || shareFails {
      // The write or the share rejects with an error that is not a BackupError.
      return Fail(ExportCatch(OtherError)), None;
    }
    if ReadsBack(env, doc) {
      ExportPassesChecks(env, profile.value, store.GetFavorites(),
                         store.GetAllCustomPhrases("fr"), store.GetAllCustomPhrases("en"), iso);
    }
    o, cleanup := Pass, Some(path);
  }

  /** The timer callback: delete the exported file, logging a failure. */
  method CleanupTempFile(fs: FileStore, path: string, fails: bool)
    modifies fs
    ensures fs.files == if fails then old(fs.files) else old(fs.files) - {path}
  {
    fs.Delete(path, fails);
  }

  // ---------------------------------------------------------------
  // Import

  /** What the document picker resolves or rejects with. */
  datatype Pick = Canceled | Picked(uri: string) | PickerFailed(error: Thrown)

  /** The profile a document restores: none when `userProfile` is falsy. */
  predicate HasProfile(doc: Json)
    requires WellFormed(doc)
  {
    Truthy(Some(ProfileOf(doc)))
  }

  /** Every record the restore inserts can be inserted: the profile (when
      there is one) and every fr and en phrase. */
  predicate Restorable(doc: Json)
    requires WellFormed(doc)
  {
    && ProfileRestorable(doc)
    && AllDecodable(PhraseItemsOf(doc, "fr"))
    && AllDecodable(PhraseItemsOf(doc, "en"))
  }

  predicate ProfileRestorable(doc: Json)
    requires WellFormed(doc)
  {
    HasProfile(doc) ==> DecodeProfile(ProfileOf(doc)).Some?
  }

  /** The content of `user_profile` after a full restore. */
  function RestoredProfiles(doc: Json): (r: seq<NewUserProfile>)
    requires WellFormed(doc) && ProfileRestorable(doc)
    ensures |r| <= 1
  {
    if HasProfile(doc) then [ProfileFilled(DecodeProfile(ProfileOf(doc)).value)] else []
  }

  /** The pictogram ids of `favorites` after a restore, in insertion order. */
  function RestoredFavorites(doc: Json): (r: seq<string>)
    requires WellFormed(doc)
    ensures NoDuplicates(r)
  {
    Dedup(StringItems(FavoritesOf(doc)))
  }

  /** The content of `custom_phrases` after a full restore: the fr list, then
      the en list, each phrase with its defaults filled in. */
  function RestoredPhrases(doc: Json): seq<NewCustomPhrase>
    requires WellFormed(doc)
  {
    Map(DecodedPrefix(PhraseItemsOf(doc, "fr")), PhraseFilled) + Map(DecodedPrefix(PhraseItemsOf(doc, "en")), PhraseFilled)
  }

  /** The content of `custom_phrases` after the replay, whether or not it
      ends early: the fr items up to the first that cannot be inserted, and
      only when every fr item was inserted, the en items up to the first
      that cannot. */
  function ReplayedPhrases(fr: seq<Json>, en: seq<Json>): (r: seq<NewCustomPhrase>)
    ensures AllDecodable(fr) && AllDecodable(en) ==>
      r == Map(DecodedPrefix(fr), PhraseFilled) + Map(DecodedPrefix(en), PhraseFilled)
    ensures !AllDecodable(fr) ==> r == Map(DecodedPrefix(fr), PhraseFilled) && |r| < |fr|
  {
    Map(DecodedPrefix(fr), PhraseFilled) + (if AllDecodable(fr) then Map(DecodedPrefix(en), PhraseFilled) else [])
  }

  /** `importBackup()`. `undeletable` and `clearFault` are passed on to
      `clearAllData`; `cleanupFails` stands for a rejected delete of the
      picked file, which is logged. */
  method ImportBackup(env: JsonEnv, store: LocalStore, fs: FileStore, pick: Pick,
                      undeletable: set<string>, clearFault: Option<Table>, cleanupFails: bool)
    returns (o: Outcome<BackupError>)
    requires store.Valid()
    modifies fs, store`images, store`profiles, store`favorites, store`phrases, store`pictograms
    modifies store`nextProfileId, store`nextFavoriteId, store`nextPhraseId, store`clock
    ensures store.Valid()
    // Nothing is touched before a document passes every check.
    ensures pick.Canceled? ==> o == Pass && unchanged(store) && unchanged(fs)
    ensures pick.PickerFailed? ==> o == ImportCatch(pick.error) && unchanged(store) && unchanged(fs)
    ensures pick.Picked? && pick.uri !in old(fs.files) ==>
      o == Fail(BackupError(ERROR_CORRUPTED)) && unchanged(store) && unchanged(fs)
    ensures pick.Picked? && pick.uri in old(fs.files) && CheckBackup(env, old(fs.files)[pick.uri]).Err? ==>
      o == ImportCatch(CheckBackup(env, old(fs.files)[pick.uri]).error) && unchanged(store) && unchanged(fs)
    // A document that passes the checks is restored.
    ensures pick.Picked? && pick.uri in old(fs.files) && CheckBackup(env, old(fs.files)[pick.uri]).Ok? ==>
      Restored(CheckBackup(env, old(fs.files)[pick.uri]).value, pick.uri, undeletable, clearFault, cleanupFails,
               old(store.images), old(store.profiles), old(store.favorites), old(store.phrases), old(store.pictograms),
               old(fs.files), o,
               store.images, store.profiles, store.favorites, store.phrases, store.pictograms, fs.files)
  {
    if pick.Canceled? {
      return Pass;
    }
    if pick.PickerFailed? {
      return ImportCatch(pick.error);
    }
    var uri := pick.uri;
    if uri !in fs.files {
      // The read rejects.
      return ImportCatch(OtherError);
    }
    var checked := CheckBackup(env, fs.files[uri]);
    if checked.Err? {
      return ImportCatch(checked.error);
    }
    o := RestoreDocument(store, fs, checked.value, uri, undeletable, clearFault, cleanupFails);
  }

  /** What steps 7 to 9 of `importBackup` leave, for an accepted document:
      images and tables as `clearAllData` leaves them, then, when the clear
      succeeded, the replayed records. A failing table delete ends the
      import with `error_corrupted`, the tables before it emptied and the
      others kept. An insert that throws ends it with `error_corrupted`
      too, and the store keeps what was replayed before it: nothing when
      the profile cannot be inserted, otherwise the profile, the favorites
      and the phrases up to the failing one. On any failure the picked file
      stays. */
  ghost predicate Restored(doc: Json, uri: string, undeletable: set<string>, clearFault: Option<Table>, cleanupFails: bool,
                           images0: set<string>, profiles0: seq<UserProfile>, favorites0: seq<Favorite>,
                           phrases0: seq<CustomPhrase>, pictograms0: seq<CustomPictogram>, files0: map<string, string>,
                           o: Outcome<BackupError>, images: set<string>, profiles: seq<UserProfile>,
                           favorites: seq<Favorite>, phrases: seq<CustomPhrase>, pictograms: seq<CustomPictogram>,
                           files: map<string, string>)
    requires WellFormed(doc)
  {
    && images == images0 - (ImagePaths(pictograms0) - undeletable)
    && (o != Pass ==> files == files0)
    && (clearFault.Some? ==>
          && o == Fail(BackupError(ERROR_CORRUPTED))
          && pictograms == (if ClearedBefore(clearFault, PictogramsTable) then [] else pictograms0)
          && phrases == (if ClearedBefore(clearFault, PhrasesTable) then [] else phrases0)
          && favorites == (if ClearedBefore(clearFault, FavoritesTable) then [] else favorites0)
          && profiles == (if ClearedBefore(clearFault, ProfileTable) then [] else profiles0))
    && (clearFault.None? ==>
          && pictograms == []
          && (o == Pass <==> Restorable(doc))
          && (o != Pass ==> o == Fail(BackupError(ERROR_CORRUPTED)))
          && (HasProfile(doc) && DecodeProfile(ProfileOf(doc)).None? ==>
                profiles == [] && favorites == [] && phrases == [])
          && (ProfileRestorable(doc) ==>
                && Map(profiles, ProfileContent) == RestoredProfiles(doc)
                && Map(favorites, FavoritePictogram) == RestoredFavorites(doc)
                && Map(phrases, PhraseContent) == ReplayedPhrases(PhraseItemsOf(doc, "fr"), PhraseItemsOf(doc, "en")))
          && (o == Pass ==>
                && Map(profiles, ProfileContent) == RestoredProfiles(doc)
                && Map(favorites, FavoritePictogram) == RestoredFavorites(doc)
                && Map(phrases, PhraseContent) == RestoredPhrases(doc)
                && files == if cleanupFails then files0 else files0 - {uri}))
  }

  /** Steps 7 to 9 for an accepted document. */
  method RestoreDocument(store: LocalStore, fs: FileStore, doc: Json, uri: string,
                         undeletable: set<string>, clearFault: Option<Table>, cleanupFails: bool)
    returns (o: Outcome<BackupError>)
    requires store.Valid() && WellFormed(doc)
    modifies fs, store`images, store`profiles, store`favorites, store`phrases, store`pictograms
    modifies store`nextProfileId, store`nextFavoriteId, store`nextPhraseId, store`clock
    ensures store.Valid()
    ensures Restored(doc, uri, undeletable, clearFault, cleanupFails,
                     old(store.images), old(store.profiles), old(store.favorites), old(store.phrases), old(store.pictograms),
                     old(fs.files), o,
                     store.images, store.profiles, store.favorites, store.phrases, store.pictograms, fs.files)
  {
    var cleared := store.ClearAllData(undeletable, clearFault);
    if cleared.Fail? {
      return ImportCatch(OtherError);
    }
    o := Replay(store, fs, doc, uri, cleanupFails);
  }

  /** Step 8 and 9 on the cleared tables: the profile, the favorites, the fr
      and then the en phrases, then the picked file is deleted. */
  method Replay(store: LocalStore, fs: FileStore, doc: Json, uri: string, cleanupFails: bool)
    returns (o: Outcome<BackupError>)
    requires store.Valid() && WellFormed(doc)
    requires store.profiles == [] && store.favorites == [] && store.phrases == []
    modifies fs, store`profiles, store`favorites, store`phrases
    modifies store`nextProfileId, store`nextFavoriteId, store`nextPhraseId, store`clock
    ensures store.Valid()
    ensures o == Pass <==> Restorable(doc)
    ensures o != Pass ==> o == Fail(BackupError(ERROR_CORRUPTED))
    ensures o != Pass ==> fs.files == old(fs.files)
    ensures HasProfile(doc) && DecodeProfile(ProfileOf(doc)).None? ==>
      store.profiles == [] && store.favorites == [] && store.phrases == []
    ensures ProfileRestorable(doc) ==>
      && Map(store.profiles, ProfileContent) == RestoredProfiles(doc)
      && Map(store.favorites, FavoritePictogram) == RestoredFavorites(doc)
      && Map(store.phrases, PhraseContent) == ReplayedPhrases(PhraseItemsOf(doc, "fr"), PhraseItemsOf(doc, "en"))
    ensures o == Pass ==>
      && Map(store.profiles, ProfileContent) == RestoredProfiles(doc)
      && Map(store.favorites, FavoritePictogram) == RestoredFavorites(doc)
      && Map(store.phrases, PhraseContent) == RestoredPhrases(doc)
      && fs.files == if cleanupFails then old(fs.files) else old(fs.files) - {uri}
  {
    var profileDone := RestoreProfile(store, doc);
    if !profileDone {
      return ImportCatch(OtherError);
    }
    RestoreFavorites(store, FavoritesOf(doc));
    var phrasesDone := RestoreAllPhrases(store, PhraseItemsOf(doc, "fr"), PhraseItemsOf(doc, "en"));
    if !phrasesDone {
      return ImportCatch(OtherError);
    }
    fs.Delete(uri, cleanupFails);
    o := Pass;
  }

  /** Restoring the profile: `createUserProfile` with id and timestamps
      dropped, when `userProfile` is truthy; `false` when the insert throws. */
  method RestoreProfile(store: LocalStore, doc: Json) returns (done: bool)
    requires store.Valid() && WellFormed(doc) && store.profiles == []
    modifies store`profiles, store`nextProfileId, store`clock
    ensures store.Valid()
    ensures done <==> ProfileRestorable(doc)
    ensures !done ==> store.profiles == []
    ensures done ==> Map(store.profiles, ProfileContent) == RestoredProfiles(doc)
  {
    var profile := ProfileOf(doc);
    if Truthy(Some(profile)) {
      var data := DecodeProfile(profile);
      if data.None? {
        return false;
      }
      var row := store.CreateUserProfile(data.value);
      assert Map(store.profiles, ProfileContent) == [ProfileContent(row)];
    }
    done := true;
  }

  /** The fr list, then the en list. */
  method RestoreAllPhrases(store: LocalStore, fr: seq<Json>, en: seq<Json>) returns (done: bool)
    requires store.Valid() && store.phrases == []
    modifies store`phrases, store`nextPhraseId, store`clock
    ensures store.Valid()
    ensures done <==> AllDecodable(fr) && AllDecodable(en)
    ensures Map(store.phrases, PhraseContent) == ReplayedPhrases(fr, en)
  {
    ghost var frRows := Map(DecodedPrefix(fr), PhraseFilled);
    ghost var enRows := Map(DecodedPrefix(en), PhraseFilled);
    assert Map(store.phrases, PhraseContent) == [];
    done := RestorePhrases(store, fr);
    if done {
      assert [] + frRows == frRows;
      ghost var afterFr := Map(store.phrases, PhraseContent);
      assert afterFr == frRows;
      done := RestorePhrases(store, en);
      assert Map(store.phrases, PhraseContent) == afterFr + enRows;
    }
  }

  /** The favorites loop: one `addFavorite` per string item into an empty
      table; an id already inserted, or an item that is not a string, is a
      failed insert that `addFavorite` swallows. */
  method RestoreFavorites(store: LocalStore, items: seq<Json>)
    requires store.Valid() && store.favorites == []
    modifies store`favorites, store`nextFavoriteId, store`clock
    ensures store.Valid()
    ensures Map(store.favorites, FavoritePictogram) == Dedup(StringItems(items))
  {
    var i := 0;
    while i < |items|
      invariant 0 <= i <= |items|
      invariant store.Valid()
      invariant Map(store.favorites, FavoritePictogram) == DedupAfter([], StringItems(items[..i]))
    {
      RestoreFavorite(store, items, i);
      i := i + 1;
    }
    assert items[..|items|] == items;
  }

  /** One iteration of the favorites loop: `addFavorite(items[i])`. */
  method RestoreFavorite(store: LocalStore, items: seq<Json>, i: nat)
    requires store.Valid() && i < |items|
    requires Map(store.favorites, FavoritePictogram) == DedupAfter([], StringItems(items[..i]))
    modifies store`favorites, store`nextFavoriteId, store`clock
    ensures store.Valid()
    ensures Map(store.favorites, FavoritePictogram) == DedupAfter([], StringItems(items[..i + 1]))
  {
    FavoriteStep(store.favorites, items, i, store.nextFavoriteId, store.clock);
    if items[i].JStr? {
      var _ := store.AddFavorite(items[i].s);
    }
  }

  /** One step of the favorites loop on the pictogram ids of the table. */
  lemma FavoriteStep(rows: seq<Favorite>, items: seq<Json>, i: nat, id: nat, stamp: nat)
    requires i < |items|
    requires Map(rows, FavoritePictogram) == DedupAfter([], StringItems(items[..i]))
    ensures items[i].JStr? ==>
      Map(InsertFavorite(rows, items[i].s, id, stamp), FavoritePictogram) == DedupAfter([], StringItems(items[..i + 1]))
    ensures !items[i].JStr? ==> Map(rows, FavoritePictogram) == DedupAfter([], StringItems(items[..i + 1]))
  {
    StringItemsSnoc(items, i);
    if items[i].JStr? {
      InsertFavoritePictograms(rows, items[i].s, id, stamp);
      DedupAfterSnoc([], StringItems(items[..i]), items[i].s);
    } else {
      assert StringItems(items[..i + 1]) == StringItems(items[..i]);
    }
  }

  /** One phrase loop: each item with id and timestamps dropped passed to
      `addCustomPhrase`; the first that cannot be inserted throws and ends
      the loop. */
  method RestorePhrases(store: LocalStore, items: seq<Json>) returns (done: bool)
    requires store.Valid()
    modifies store`phrases, store`nextPhraseId, store`clock
    ensures store.Valid()
    ensures done <==> AllDecodable(items)
    ensures Map(store.phrases, PhraseContent) == Map(old(store.phrases), PhraseContent) + Map(DecodedPrefix(items), PhraseFilled)
  {
    var i := 0;
    while i < |items|
      invariant 0 <= i <= |items|
      invariant store.Valid()
      invariant |DecodedPrefix(items[..i])| == i
      invariant Map(store.phrases, PhraseContent) == Map(old(store.phrases), PhraseContent) + Map(DecodedPrefix(items[..i]), PhraseFilled)
    {
      PhraseStep(store.phrases, Map(old(store.phrases), PhraseContent), items, i, store.nextPhraseId, store.clock);
      var data := DecodePhrase(items[i]);
      if data.None? {
        return false;
      }
      var _ := store.AddCustomPhrase(data.value);
      i := i + 1;
    }
    assert items[..|items|] == items;
    done := true;
  }

  /** One step of a phrase loop on the content of the table. */
  lemma PhraseStep(rows: seq<CustomPhrase>, base: seq<NewCustomPhrase>, items: seq<Json>, i: nat, id: nat, stamp: nat)
    requires i < |items| && |DecodedPrefix(items[..i])| == i
    requires Map(rows, PhraseContent) == base + Map(DecodedPrefix(items[..i]), PhraseFilled)
    ensures DecodePhrase(items[i]).None? ==> DecodedPrefix(items) == DecodedPrefix(items[..i]) && !AllDecodable(items)
    ensures DecodePhrase(items[i]).Some? ==>
      var row := PhraseRow(id, stamp, DecodePhrase(items[i]).value);
      && |DecodedPrefix(items[..i + 1])| == i + 1
      && Map(rows + [row], PhraseContent) == base + Map(DecodedPrefix(items[..i + 1]), PhraseFilled)
  {
    DecodedPrefixSnoc(items, i);
    var data := DecodePhrase(items[i]);
    if data.None? {
      assert DecodedPrefix(items[i..]) == [] by { assert items[i..][0] == items[i]; }
    } else {
      var row := PhraseRow(id, stamp, data.value);
      MapAppend(rows, [row], PhraseContent);
      MapAppend(DecodedPrefix(items[..i]), [data.value], PhraseFilled);
    }
  }

  // ---------------------------------------------------------------
  // Export, then import

  /** Importing the document an export wrote (which passes every check, by
      `ExportRestoreRoundTrip`) restores every exported record:
      the profile's content, the favorite ids in the order the file lists
      them, and the content of the fr and then the en phrases. */
  lemma RestoreOfExport(env: JsonEnv, profile: UserProfile, favorites: seq<string>,
                        fr: seq<CustomPhrase>, en: seq<CustomPhrase>, timestamp: string)
    requires Checksum(env, DataJson(profile, favorites, fr, en)) != [] && NoDuplicates(favorites)
    ensures var doc := ExportDocument(env, profile, favorites, fr, en, timestamp);
      && WellFormed(doc) && Restorable(doc)
      && RestoredProfiles(doc) == [ProfileContent(profile)]
      && RestoredFavorites(doc) == favorites
      && RestoredPhrases(doc) == Map(fr, PhraseContent) + Map(en, PhraseContent)
  {
    ExportDocumentParts(env, profile, favorites, fr, en, timestamp);
    RestoreOfParts(ExportDocument(env, profile, favorites, fr, en, timestamp), profile, favorites, fr, en);
  }

  /** The same, for any accepted document that carries the exported records
      where an export puts them. */
  lemma RestoreOfParts(doc: Json, profile: UserProfile, favorites: seq<string>, fr: seq<CustomPhrase>, en: seq<CustomPhrase>)
    requires WellFormed(doc) && NoDuplicates(favorites)
    requires ProfileOf(doc) == ProfileJson(profile)
    requires FavoritesOf(doc) == StringArray(favorites).items
    requires PhraseItemsOf(doc, "fr") == PhrasesJson(fr).items
    requires PhraseItemsOf(doc, "en") == PhrasesJson(en).items
    ensures Restorable(doc)
    ensures RestoredProfiles(doc) == [ProfileContent(profile)]
    ensures RestoredFavorites(doc) == favorites
    ensures RestoredPhrases(doc) == Map(fr, PhraseContent) + Map(en, PhraseContent)
  {
    ProfileRoundTrip(profile);
    ProfileContentRoundTrip(profile, 0, 0);
    StringItemsOfStringArray(favorites);
    DedupOfDistinct(favorites);
    PhraseListRestored(PhraseItemsOf(doc, "fr"), fr);
    PhraseListRestored(PhraseItemsOf(doc, "en"), en);
  }

  /** An exported phrase list is replayed in full, with every row's content. */
  lemma PhraseListRestored(items: seq<Json>, s: seq<CustomPhrase>)
    requires items == PhrasesJson(s).items
    ensures AllDecodable(items) && Map(DecodedPrefix(items), PhraseFilled) == Map(s, PhraseContent)
  {
    PhrasesRoundTrip(s);
    FilledContents(s);
  }

  /** Filling in defaults changes nothing on the content of stored rows. */
  lemma FilledContents(s: seq<CustomPhrase>)
    ensures Map(Map(s, PhraseContent), PhraseFilled) == Map(s, PhraseContent)
  {
    forall i | 0 <= i < |s| ensures PhraseFilled(PhraseContent(s[i])) == PhraseContent(s[i]) {
      PhraseContentRoundTrip(s[i], 0, 0);
    }
  }

  /** The export lists favorites newest first and the restore inserts them in
      that order, so afterwards `getFavorites()` lists them oldest first. */
  lemma RestoredFavoritesReversed(exported: seq<Favorite>, restored: seq<Favorite>)
    requires Map(restored, FavoritePictogram) == FavoritesNewestFirst(exported)
    ensures FavoritesNewestFirst(restored) == Reverse(FavoritesNewestFirst(exported))
  {
    MapReverse(restored, FavoritePictogram);
  }
}
