/** The local database: the four tables as sequences of rows in insertion
    order, the custom-pictogram image files as a set of paths, and the schema
    state that start-up creates and migrates. The pure functions below are the
    specification each store operation is proved against. */
module Store {
  import opened Wrappers
  import opened Seqs
  import opened Json
  import opened Schema
  import opened Tables

  datatype Table = ProfileTable | FavoritesTable | PhrasesTable | PictogramsTable

  datatype DbError =
    | UniqueViolation(table: Table)
    | DeleteFailed(table: Table)
    | StatementFailed(index: nat)

  // ---------------------------------------------------------------
  // user_profile

  /** `ORDER BY id DESC LIMIT 1`: the row with the greatest id, or none. */
  function LatestProfile(s: seq<UserProfile>): (r: Option<UserProfile>)
    ensures r.None? <==> s == []
    ensures r.Some? ==> r.value in s && forall i :: 0 <= i < |s| ==> s[i].id <= r.value.id
  {
    if s == [] then None
    else match LatestProfile(s[1..])
      case None => Some(s[0])
      case Some(p) => if p.id > s[0].id then Some(p) else Some(s[0])
  }

  /** With increasing ids the greatest is the last inserted. */
  lemma {:induction false} LatestProfileIsLast(s: seq<UserProfile>, nextId: nat, clock: nat)
    requires InOrder(s, ProfileId, ProfileCreated, nextId, clock)
    ensures s != [] ==> LatestProfile(s) == Some(s[|s| - 1])
  {
    if s != [] {
      InOrderChronological(s, ProfileId, ProfileCreated, nextId, clock);
      var r := LatestProfile(s).value;
      var k :| 0 <= k < |s| && s[k] == r;
      assert ProfileId(s[|s| - 1]) <= ProfileId(s[k]);
      assert k == |s| - 1;
    }
  }

  function PatchIfId(id: int, patch: ProfilePatch, stamp: nat): UserProfile -> UserProfile {
    (p: UserProfile) => if p.id == id then PatchProfile(p, patch, stamp) else p
  }

  /** `UPDATE user_profile SET ... WHERE id = ?`. */
  function UpdateProfiles(s: seq<UserProfile>, id: int, patch: ProfilePatch, stamp: nat): (r: seq<UserProfile>)
    ensures |r| == |s|
    ensures forall i :: 0 <= i < |s| ==> r[i] == if s[i].id == id then PatchProfile(s[i], patch, stamp) else s[i]
  {
    Map(s, PatchIfId(id, patch, stamp))
  }

  /** An update of an unknown id changes no row. */
  lemma UpdateUnknownProfile(s: seq<UserProfile>, id: int, patch: ProfilePatch, stamp: nat)
    requires forall i :: 0 <= i < |s| ==> s[i].id != id
    ensures UpdateProfiles(s, id, patch, stamp) == s
  {
  }

  /** The stored `hiddenCategories` text as `getHiddenCategories` and the
      hidden-categories screen read it: a missing or empty value and
      unparseable text give `[]`, anything else is the parsed value as is. */
  function ParseHidden(env: JsonEnv, stored: Option<string>): (r: Json)
    ensures (stored.None? || stored.value == []) ==> r == JArr([])
    ensures stored.Some? && stored.value != [] && env.parse(stored.value).None? ==> r == JArr([])
    ensures stored.Some? && env.parse(stored.value).Some? && stored.value != [] ==> r == env.parse(stored.value).value
  {
    if stored.None? || stored.value == [] then JArr([])
    else match env.parse(stored.value)
      case None => JArr([])
      case Some(j) => j
  }

  /** Storing the serialised list and reading it back gives the list. */
  lemma ParseHiddenRoundTrip(env: JsonEnv, ids: seq<string>)
    requires StringifyRoundTrips(env, StringArray(ids))
    ensures ParseHidden(env, Some(env.stringify(StringArray(ids)))) == StringArray(ids)
  {
  }

  // ---------------------------------------------------------------
  // favorites

  function FavoriteIds(s: seq<Favorite>): (r: set<string>)
    ensures forall i :: 0 <= i < |s| ==> s[i].pictogramId in r
    ensures forall x :: x in r ==> exists i :: 0 <= i < |s| && s[i].pictogramId == x
  {
    set i | 0 <= i < |s| :: s[i].pictogramId
  }

  function OtherThanPictogram(pictogramId: string): Favorite -> bool {
    (f: Favorite) => f.pictogramId != pictogramId
  }

  /** `INSERT INTO favorites` under the UNIQUE constraint: an existing id
      makes the insert fail and leaves the table as it was. */
  function InsertFavorite(s: seq<Favorite>, pictogramId: string, id: nat, stamp: nat): (r: seq<Favorite>)
    ensures pictogramId in FavoriteIds(s) ==> r == s
    ensures pictogramId !in FavoriteIds(s) ==> r == s + [Favorite(id, pictogramId, stamp)]
  {
    if pictogramId in FavoriteIds(s) then s else s + [Favorite(id, pictogramId, stamp)]
  }

  /** `DELETE FROM favorites WHERE pictogram_id = ?`. */
  function DeleteFavorite(s: seq<Favorite>, pictogramId: string): (r: seq<Favorite>)
    ensures |r| <= |s|
  {
    Filter(s, OtherThanPictogram(pictogramId))
  }

  lemma InsertFavoriteIds(s: seq<Favorite>, pictogramId: string, id: nat, stamp: nat)
    ensures FavoriteIds(InsertFavorite(s, pictogramId, id, stamp)) == FavoriteIds(s) + {pictogramId}
  {
    var r := InsertFavorite(s, pictogramId, id, stamp);
    if pictogramId !in FavoriteIds(s) {
      forall x | x in FavoriteIds(r) ensures x in FavoriteIds(s) + {pictogramId} {
        var i :| 0 <= i < |r| && r[i].pictogramId == x;
        if i < |s| { assert r[i] == s[i]; }
      }
      assert r[|s|].pictogramId == pictogramId;
      forall x | x in FavoriteIds(s) ensures x in FavoriteIds(r) {
        var i :| 0 <= i < |s| && s[i].pictogramId == x;
        assert r[i] == s[i];
      }
    }
  }

  lemma DeleteFavoriteIds(s: seq<Favorite>, pictogramId: string)
    ensures FavoriteIds(DeleteFavorite(s, pictogramId)) == FavoriteIds(s) - {pictogramId}
  {
    var r := DeleteFavorite(s, pictogramId);
    forall x | x in FavoriteIds(r) ensures x in FavoriteIds(s) - {pictogramId} {
      var i :| 0 <= i < |r| && r[i].pictogramId == x;
      FilterMember(s, OtherThanPictogram(pictogramId), r[i]);
      var j :| 0 <= j < |s| && s[j] == r[i];
    }
    forall x | x in FavoriteIds(s) - {pictogramId} ensures x in FavoriteIds(r) {
      var i :| 0 <= i < |s| && s[i].pictogramId == x;
      FilterMember(s, OtherThanPictogram(pictogramId), s[i]);
      var j :| 0 <= j < |r| && r[j] == s[i];
    }
  }

  /** What one `toggleFavorite` leaves in the table. */
  function ToggleFavoriteRows(s: seq<Favorite>, pictogramId: string, id: nat, stamp: nat): seq<Favorite> {
    if pictogramId in FavoriteIds(s) then DeleteFavorite(s, pictogramId)
    else InsertFavorite(s, pictogramId, id, stamp)
  }

  /** Toggling flips membership of that id and of no other id. */
  lemma ToggleFavoriteIds(s: seq<Favorite>, pictogramId: string, id: nat, stamp: nat)
    ensures FavoriteIds(ToggleFavoriteRows(s, pictogramId, id, stamp)) ==
      if pictogramId in FavoriteIds(s) then FavoriteIds(s) - {pictogramId} else FavoriteIds(s) + {pictogramId}
  {
    if pictogramId in FavoriteIds(s) {
      DeleteFavoriteIds(s, pictogramId);
    } else {
      InsertFavoriteIds(s, pictogramId, id, stamp);
    }
  }

  /** Toggling twice restores the set of favorites. */
  lemma ToggleTwiceRestores(s: seq<Favorite>, pictogramId: string, id1: nat, stamp1: nat, id2: nat, stamp2: nat)
    ensures FavoriteIds(ToggleFavoriteRows(ToggleFavoriteRows(s, pictogramId, id1, stamp1), pictogramId, id2, stamp2))
         == FavoriteIds(s)
  {
    var once := ToggleFavoriteRows(s, pictogramId, id1, stamp1);
    ToggleFavoriteIds(s, pictogramId, id1, stamp1);
    ToggleFavoriteIds(once, pictogramId, id2, stamp2);
  }

  /** `getFavorites()`: the ids, newest first. */
  function FavoritesNewestFirst(s: seq<Favorite>): (r: seq<string>)
    ensures |r| == |s|
    ensures forall i :: 0 <= i < |s| ==> r[i] == s[|s| - 1 - i].pictogramId
  {
    Map(Reverse(s), FavoritePictogram)
  }

  /** The pictogram ids of the rows after an insert: the new id is appended
      unless it is already there. */
  lemma InsertFavoritePictograms(s: seq<Favorite>, pictogramId: string, id: nat, stamp: nat)
    ensures var m := Map(s, FavoritePictogram);
      Map(InsertFavorite(s, pictogramId, id, stamp), FavoritePictogram) == if pictogramId in m then m else m + [pictogramId]
  {
    var m := Map(s, FavoritePictogram);
    assert pictogramId in m <==> pictogramId in FavoriteIds(s) by {
      if pictogramId in m {
        var i :| 0 <= i < |m| && m[i] == pictogramId;
        assert s[i].pictogramId == pictogramId;
      }
      if pictogramId in FavoriteIds(s) {
        var i :| 0 <= i < |s| && s[i].pictogramId == pictogramId;
        assert m[i] == pictogramId;
      }
    }
    if pictogramId !in m {
      MapAppend(s, [Favorite(id, pictogramId, stamp)], FavoritePictogram);
    }
  }

  /** With a UNIQUE pictogram column, `getFavorites()` lists no id twice. */
  lemma FavoritesNewestFirstDistinct(s: seq<Favorite>)
    requires Distinct(s, FavoritePictogram)
    ensures NoDuplicates(FavoritesNewestFirst(s))
  {
    DistinctUnique(s, FavoritePictogram);
    var r := FavoritesNewestFirst(s);
    forall i, j | 0 <= i < j < |r| ensures r[i] != r[j] {
      assert r[i] == FavoritePictogram(s[|s| - 1 - i]) && r[j] == FavoritePictogram(s[|s| - 1 - j]);
    }
  }

  // ---------------------------------------------------------------
  // custom_phrases

  function PhraseOf(pictogramId: string, language: string): CustomPhrase -> bool {
    (p: CustomPhrase) => p.pictogramId == pictogramId && p.language == language
  }

  function PhraseIn(language: string): CustomPhrase -> bool {
    (p: CustomPhrase) => p.language == language
  }

  function NotPhraseOfPictogram(pictogramId: string): CustomPhrase -> bool {
    (p: CustomPhrase) => p.pictogramId != pictogramId
  }

  function NotPhraseId(id: int): CustomPhrase -> bool {
    (p: CustomPhrase) => p.id != id
  }

  /** `getCustomPhrases(p, lang)`: the phrases of that pictogram in that
      language, newest first. */
  function PhrasesOf(s: seq<CustomPhrase>, pictogramId: string, language: string): (r: seq<CustomPhrase>)
    ensures forall x :: x in r <==> x in s && x.pictogramId == pictogramId && x.language == language
  {
    var f := Filter(s, PhraseOf(pictogramId, language));
    var r := Reverse(f);
    assert forall x :: x in r <==> x in s && x.pictogramId == pictogramId && x.language == language by {
      forall x ensures x in r <==> x in s && x.pictogramId == pictogramId && x.language == language {
        FilterMember(s, PhraseOf(pictogramId, language), x);
        ReverseMember(f, x);
      }
    }
    r
  }

  /** `getAllCustomPhrases(lang)`: every phrase in that language, newest first. */
  function PhrasesIn(s: seq<CustomPhrase>, language: string): (r: seq<CustomPhrase>)
    ensures forall x :: x in r <==> x in s && x.language == language
  {
    var f := Filter(s, PhraseIn(language));
    var r := Reverse(f);
    assert forall x :: x in r <==> x in s && x.language == language by {
      forall x ensures x in r <==> x in s && x.language == language {
        FilterMember(s, PhraseIn(language), x);
        ReverseMember(f, x);
      }
    }
    r
  }

  lemma PhraseQueriesNewestFirst(s: seq<CustomPhrase>, pictogramId: string, language: string, nextId: nat, clock: nat)
    requires InOrder(s, PhraseId, PhraseCreated, nextId, clock)
    ensures NewestFirst(PhrasesOf(s, pictogramId, language), PhraseCreated)
    ensures NewestFirst(PhrasesIn(s, language), PhraseCreated)
  {
    InOrderFilter(s, PhraseOf(pictogramId, language), PhraseId, PhraseCreated, nextId, clock);
    InOrderNewestFirst(Filter(s, PhraseOf(pictogramId, language)), PhraseId, PhraseCreated, nextId, clock);
    InOrderFilter(s, PhraseIn(language), PhraseId, PhraseCreated, nextId, clock);
    InOrderNewestFirst(Filter(s, PhraseIn(language)), PhraseId, PhraseCreated, nextId, clock);
  }

  function PatchPhraseIfId(id: int, patch: PhrasePatch, stamp: nat): CustomPhrase -> CustomPhrase {
    (p: CustomPhrase) => if p.id == id then PatchPhrase(p, patch, stamp) else p
  }

  /** `UPDATE custom_phrases SET ... WHERE id = ?`. */
  function UpdatePhrases(s: seq<CustomPhrase>, id: int, patch: PhrasePatch, stamp: nat): (r: seq<CustomPhrase>)
    ensures |r| == |s|
    ensures forall i :: 0 <= i < |s| ==> r[i] == if s[i].id == id then PatchPhrase(s[i], patch, stamp) else s[i]
  {
    Map(s, PatchPhraseIfId(id, patch, stamp))
  }

  // ---------------------------------------------------------------
  // custom_pictograms

  function WithCustomId(customId: string): CustomPictogram -> bool {
    (p: CustomPictogram) => p.customId == customId
  }

  function OtherThanCustomId(customId: string): CustomPictogram -> bool {
    (p: CustomPictogram) => p.customId != customId
  }

  /** `getCustomPictogramById(c)`: the first row with that custom id, or null. */
  function PictogramById(s: seq<CustomPictogram>, customId: string): (r: Option<CustomPictogram>)
    ensures r.Some? ==> r.value in s && r.value.customId == customId
    ensures r.None? <==> forall i :: 0 <= i < |s| ==> s[i].customId != customId
  {
    match FirstIndex(s, WithCustomId(customId))
    case None => None
    case Some(k) => Some(s[k])
  }

  function RenameIfCustomId(customId: string, name: Option<string>, stamp: nat): CustomPictogram -> CustomPictogram {
    (p: CustomPictogram) => if p.customId == customId then p.(name := name.GetOr(p.name), updatedAt := stamp) else p
  }

  /** `UPDATE custom_pictograms SET name = ? WHERE custom_id = ?`. */
  function RenamePictograms(s: seq<CustomPictogram>, customId: string, name: Option<string>, stamp: nat): (r: seq<CustomPictogram>)
    ensures |r| == |s|
    ensures forall i :: 0 <= i < |s| && s[i].customId != customId ==> r[i] == s[i]
    ensures forall i :: 0 <= i < |s| && s[i].customId == customId ==>
      r[i] == s[i].(name := name.GetOr(s[i].name), updatedAt := stamp)
  {
    Map(s, RenameIfCustomId(customId, name, stamp))
  }

  /** The image paths of the given pictogram rows. */
  function ImagePaths(s: seq<CustomPictogram>): set<string> {
    set i | 0 <= i < |s| :: s[i].imagePath
  }

  /** Deleting a file: `File.delete()` removes it unless the file system
      refuses; a refusal or a missing file throws and is caught. */
  function DeleteFile(images: set<string>, path: string, undeletable: set<string>): (r: set<string>)
    ensures path !in undeletable ==> path !in r
    ensures forall p :: p in r <==> p in images && (p != path || path in undeletable)
  {
    if path in undeletable then images else images - {path}
  }

  // ---------------------------------------------------------------
  // Schema and start-up

  /** The statements `initDatabase` runs first, each "IF NOT EXISTS". */
  datatype Ddl = CreateTable(name: string) | CreateIndex(name: string)

  const DDL: seq<Ddl> := [
    CreateTable("user_profile"), CreateTable("favorites"),
    CreateTable("custom_phrases"), CreateTable("custom_pictograms"),
    CreateIndex("idx_favorites_pictogram"), CreateIndex("idx_custom_phrases_pictogram"),
    CreateIndex("idx_custom_pictograms_custom_id")]

  /** The `user_profile` columns a fresh CREATE TABLE gives. */
  const FRESH_PROFILE_COLUMNS: seq<string> := [
    "id", "name", "language", "tts_speed", "tts_voice_id", "pin_code", "created_at", "updated_at"]

  /** The three guarded column migrations, in the order they run. */
  datatype Migration = AddTtsVoiceId | AddPinCode | DropAvatarId

  /** The column-presence test that guards each ALTER. */
  predicate Needed(m: Migration, cols: seq<string>) {
    match m
    case AddTtsVoiceId => "tts_voice_id" !in cols
    case AddPinCode => "pin_code" !in cols
    case DropAvatarId => "avatar_id" in cols
  }

  function NotColumn(name: string): string -> bool {
    (c: string) => c != name
  }

  /** One migration: a needed ALTER that does not fail changes the columns;
      a failing one is logged and changes nothing. */
  function Migrate(m: Migration, cols: seq<string>, faults: set<Migration>): (r: seq<string>)
    ensures !Needed(m, cols) || m in faults ==> r == cols
    ensures Needed(m, cols) && m !in faults ==> !Needed(m, r)
  {
    if !Needed(m, cols) || m in faults then cols
    else match m
      case AddTtsVoiceId => cols + ["tts_voice_id"]
      case AddPinCode => cols + ["pin_code"]
      case DropAvatarId => Filter(cols, NotColumn("avatar_id"))
  }

  /** The three migrations in order. */
  function MigrateAll(cols: seq<string>, faults: set<Migration>): seq<string> {
    Migrate(DropAvatarId, Migrate(AddPinCode, Migrate(AddTtsVoiceId, cols, faults), faults), faults)
  }

  /** The ALTER statements the three migrations issue, in order. */
  function Alterations(cols: seq<string>, faults: set<Migration>): (r: seq<Migration>)
    ensures |r| <= 3
  {
    var c1 := Migrate(AddTtsVoiceId, cols, faults);
    var c2 := Migrate(AddPinCode, c1, faults);
    (if Needed(AddTtsVoiceId, cols) && AddTtsVoiceId !in faults then [AddTtsVoiceId] else [])
    + (if Needed(AddPinCode, c1) && AddPinCode !in faults then [AddPinCode] else [])
    + (if Needed(DropAvatarId, c2) && DropAvatarId !in faults then [DropAvatarId] else [])
  }

  /** A table created by the current CREATE TABLE already has every
      migrated column and no `avatar_id`, so no migration touches it. */
  lemma FreshNeedsNoMigration(faults: set<Migration>)
    ensures MigrateAll(FRESH_PROFILE_COLUMNS, faults) == FRESH_PROFILE_COLUMNS
    ensures Alterations(FRESH_PROFILE_COLUMNS, faults) == []
  {
    assert FRESH_PROFILE_COLUMNS[4] == "tts_voice_id" && FRESH_PROFILE_COLUMNS[5] == "pin_code";
    assert !Needed(AddTtsVoiceId, FRESH_PROFILE_COLUMNS) && !Needed(AddPinCode, FRESH_PROFILE_COLUMNS);
    assert "avatar_id" !in FRESH_PROFILE_COLUMNS;
  }

  lemma DropKeepsOthers(cols: seq<string>, name: string)
    requires name != "avatar_id"
    ensures name in Filter(cols, NotColumn("avatar_id")) <==> name in cols
  {
    if name in cols {
      var i :| 0 <= i < |cols| && cols[i] == name;
      assert NotColumn("avatar_id")(cols[i]);
    }
  }

  /** After a run without failures the profile table has the voice and PIN
      columns and no avatar column, whatever it had before. */
  lemma MigrateAllColumns(cols: seq<string>)
    ensures var r := MigrateAll(cols, {}); "tts_voice_id" in r && "pin_code" in r && "avatar_id" !in r
  {
    var c1 := Migrate(AddTtsVoiceId, cols, {});
    var c2 := Migrate(AddPinCode, c1, {});
    assert "tts_voice_id" in c1;
    assert "tts_voice_id" in c2 && "pin_code" in c2;
    DropKeepsOthers(c2, "tts_voice_id");
    DropKeepsOthers(c2, "pin_code");
  }

  /** A second run issues no ALTER and changes no column. */
  lemma MigrateAllIdempotent(cols: seq<string>, faults: set<Migration>)
    ensures Alterations(MigrateAll(cols, {}), faults) == []
    ensures MigrateAll(MigrateAll(cols, {}), faults) == MigrateAll(cols, {})
  {
    MigrateAllColumns(cols);
  }

  /** A failing migration does not stop the later ones. */
  lemma MigrationFailureIsolated(cols: seq<string>)
    ensures "pin_code" in MigrateAll(cols, {AddTtsVoiceId})
    ensures "avatar_id" !in MigrateAll(cols, {AddTtsVoiceId, AddPinCode})
  {
    var c1 := Migrate(AddTtsVoiceId, cols, {AddTtsVoiceId});
    var c2 := Migrate(AddPinCode, c1, {AddTtsVoiceId});
    DropKeepsOthers(c2, "pin_code");
  }

  /** How many statements run when statement `ddlFault` throws: all seven
      when none does. */
  function DdlStop(ddlFault: Option<nat>): (n: nat)
    ensures n <= |DDL|
    ensures ddlFault.Some? && ddlFault.value < |DDL| ==> n == ddlFault.value
    ensures !(ddlFault.Some? && ddlFault.value < |DDL|) ==> n == |DDL|
  {
    if ddlFault.Some? && ddlFault.value < |DDL| then ddlFault.value else |DDL|
  }

  /** The tables created by the statements up to but excluding the n-th. */
  function DdlTablesUpTo(n: nat): (r: set<string>)
    requires n <= |DDL|
  {
    if n == 0 then {} else DdlTablesUpTo(n - 1) + (if DDL[n - 1].CreateTable? then {DDL[n - 1].name} else {})
  }

  function DdlIndexesUpTo(n: nat): (r: set<string>)
    requires n <= |DDL|
  {
    if n == 0 then {} else DdlIndexesUpTo(n - 1) + (if DDL[n - 1].CreateIndex? then {DDL[n - 1].name} else {})
  }

  lemma {:induction false} DdlFirstTable(n: nat)
    requires 1 <= n <= |DDL|
    ensures "user_profile" in DdlTablesUpTo(n)
  {
    if n > 1 { DdlFirstTable(n - 1); }
  }

  /** The profile columns after the first n statements: a fresh table when
      `user_profile` did not exist, the existing columns otherwise. */
  function ColumnsAfterDdl(tables: set<string>, cols: seq<string>, n: nat): seq<string> {
    if n >= 1 && "user_profile" !in tables then FRESH_PROFILE_COLUMNS else cols
  }

  /** `clearAllData` deletes the tables in this order. */
  function ClearOrder(t: Table): nat {
    match t
    case PictogramsTable => 0
    case PhrasesTable => 1
    case FavoritesTable => 2
    case ProfileTable => 3
  }

  /** Whether table t is emptied when the delete of `fault` throws. */
  predicate ClearedBefore(fault: Option<Table>, t: Table) {
    fault.None? || ClearOrder(t) < ClearOrder(fault.value)
  }

  lemma ImagePathsSnoc(s: seq<CustomPictogram>, i: nat)
    requires i < |s|
    ensures ImagePaths(s[..i + 1]) == ImagePaths(s[..i]) + {s[i].imagePath}
  {
    var a, b := s[..i], s[..i + 1];
    assert b == a + [s[i]];
    forall x | x in ImagePaths(b) ensures x in ImagePaths(a) + {s[i].imagePath} {
      var k :| 0 <= k < |b| && b[k].imagePath == x;
      if k < i { assert b[k] == a[k]; }
    }
    forall x | x in ImagePaths(a) ensures x in ImagePaths(b) {
      var k :| 0 <= k < |a| && a[k].imagePath == x;
      assert b[k] == a[k];
    }
  }

  lemma ImagePathsReverse(s: seq<CustomPictogram>)
    ensures ImagePaths(Reverse(s)) == ImagePaths(s)
  {
    var r := Reverse(s);
    forall x | x in ImagePaths(r) ensures x in ImagePaths(s) {
      var k :| 0 <= k < |r| && r[k].imagePath == x;
      assert s[|s| - 1 - k] == r[k];
    }
    forall x | x in ImagePaths(s) ensures x in ImagePaths(r) {
      var k :| 0 <= k < |s| && s[k].imagePath == x;
      assert r[|s| - 1 - k] == s[k];
    }
  }

  // ---------------------------------------------------------------
  // The store

  /** The invariant of each table: rows in insertion order with increasing
      ids and creation ticks, and distinct values in its unique column. */
  ghost predicate ProfilesOk(s: seq<UserProfile>, nextId: nat, clock: nat) {
    InOrder(s, ProfileId, ProfileCreated, nextId, clock)
  }

  ghost predicate FavoritesOk(s: seq<Favorite>, nextId: nat, clock: nat) {
    InOrder(s, FavoriteId, FavoriteCreated, nextId, clock) && Distinct(s, FavoritePictogram)
  }

  ghost predicate PhrasesOk(s: seq<CustomPhrase>, nextId: nat, clock: nat) {
    InOrder(s, PhraseId, PhraseCreated, nextId, clock)
  }

  ghost predicate PictogramsOk(s: seq<CustomPictogram>, nextId: nat, clock: nat) {
    InOrder(s, PictogramRowId, PictogramCreated, nextId, clock) && Distinct(s, PictogramCustomId)
  }

  lemma EmptyTablesOk(n1: nat, n2: nat, n3: nat, n4: nat, clock: nat)
    ensures ProfilesOk([], n1, clock) && FavoritesOk([], n2, clock)
    ensures PhrasesOk([], n3, clock) && PictogramsOk([], n4, clock)
  {
  }

  /** The database and the custom-pictogram image files. */
  class LocalStore {
    var profiles: seq<UserProfile>
    var favorites: seq<Favorite>
    var phrases: seq<CustomPhrase>
    var pictograms: seq<CustomPictogram>
    /** The next AUTOINCREMENT value of each table; deletes never lower it. */
    var nextProfileId: nat
    var nextFavoriteId: nat
    var nextPhraseId: nat
    var nextPictogramId: nat
    /** The tick that `CURRENT_TIMESTAMP` and `new Date()` read; every write advances it. */
    var clock: nat
    /** Files under the document directory, by path relative to it. */
    var images: set<string>
    /** Schema objects that exist, and the columns of `user_profile` in order. */
    var tables: set<string>
    var indexes: set<string>
    var profileColumns: seq<string>
    var imageDirExists: bool

    ghost predicate ValidAt(ticks: nat)
      reads this`profiles, this`favorites, this`phrases, this`pictograms
      reads this`nextProfileId, this`nextFavoriteId, this`nextPhraseId, this`nextPictogramId
    {
      && 1 <= nextProfileId && 1 <= nextFavoriteId && 1 <= nextPhraseId && 1 <= nextPictogramId
      && ProfilesOk(profiles, nextProfileId, ticks)
      && FavoritesOk(favorites, nextFavoriteId, ticks)
      && PhrasesOk(phrases, nextPhraseId, ticks)
      && PictogramsOk(pictograms, nextPictogramId, ticks)
    }

    /** Ids and creation ticks increase along each table, stamps lie in the
        past, and the UNIQUE columns hold distinct values. */
    ghost predicate Valid()
      reads this`profiles, this`favorites, this`phrases, this`pictograms
      reads this`nextProfileId, this`nextFavoriteId, this`nextPhraseId, this`nextPictogramId, this`clock
    {
      ValidAt(clock)
    }

    lemma ValidLater(ticks: nat, ticks': nat)
      requires ValidAt(ticks) && ticks <= ticks'
      ensures ValidAt(ticks')
    {
      InOrderLater(profiles, ProfileId, ProfileCreated, nextProfileId, ticks, nextProfileId, ticks');
      InOrderLater(favorites, FavoriteId, FavoriteCreated, nextFavoriteId, ticks, nextFavoriteId, ticks');
      InOrderLater(phrases, PhraseId, PhraseCreated, nextPhraseId, ticks, nextPhraseId, ticks');
      InOrderLater(pictograms, PictogramRowId, PictogramCreated, nextPictogramId, ticks, nextPictogramId, ticks');
    }

    /** A new installation: no database objects, no files. */
    constructor ()
      ensures Valid()
      ensures profiles == [] && favorites == [] && phrases == [] && pictograms == []
      ensures images == {} && tables == {} && indexes == {} && profileColumns == [] && !imageDirExists
    {
      profiles, favorites, phrases, pictograms := [], [], [], [];
      nextProfileId, nextFavoriteId, nextPhraseId, nextPictogramId := 1, 1, 1, 1;
      clock := 0;
      images, tables, indexes, profileColumns, imageDirExists := {}, {}, {}, [], false;
    }

    // --- user profile ---

    method CreateUserProfile(data: NewUserProfile) returns (row: UserProfile)
      requires Valid()
      modifies this`profiles, this`nextProfileId, this`clock
      ensures Valid()
      ensures row == ProfileRow(old(nextProfileId), old(clock), data)
      ensures profiles == old(profiles) + [row]
      ensures nextProfileId == old(nextProfileId) + 1 && clock == old(clock) + 1
    {
      row := ProfileRow(nextProfileId, clock, data);
      InOrderAppend(profiles, row, ProfileId, ProfileCreated, nextProfileId, clock);
      ValidLater(clock, clock + 1);
      profiles := profiles + [row];
      nextProfileId := nextProfileId + 1;
      clock := clock + 1;
    }

    /** `getUserProfile()`: the current profile is the one with the greatest id. */
    function GetUserProfile(): (r: Option<UserProfile>)
      reads this
      ensures r.None? <==> profiles == []
      ensures Valid() && r.Some? ==> r.value == profiles[|profiles| - 1]
    {
      LatestProfileIsLastIfValid();
      LatestProfile(profiles)
    }

    lemma LatestProfileIsLastIfValid()
      ensures Valid() && profiles != [] ==> LatestProfile(profiles) == Some(profiles[|profiles| - 1])
    {
      if Valid() {
        LatestProfileIsLast(profiles, nextProfileId, clock);
      }
    }

    /** `updateUserProfile(id, data)`: the given columns and `updatedAt` on the
        row with that id; returns that row, or nothing for an unknown id. */
    method UpdateUserProfile(id: int, patch: ProfilePatch) returns (r: Option<UserProfile>)
      requires Valid()
      modifies this`profiles, this`clock
      ensures Valid()
      ensures profiles == UpdateProfiles(old(profiles), id, patch, old(clock))
      ensures clock == old(clock) + 1
      ensures r.Some? <==> exists i :: 0 <= i < |old(profiles)| && old(profiles)[i].id == id
      ensures r.Some? ==> exists i :: 0 <= i < |old(profiles)| && old(profiles)[i].id == id
                            && r.value == PatchProfile(old(profiles)[i], patch, old(clock)) && r.value == profiles[i]
    {
      var f := PatchIfId(id, patch, clock);
      InOrderMap(profiles, f, ProfileId, ProfileCreated, nextProfileId, clock);
      var k := FirstIndex(profiles, HasProfileId(id));
      ghost var before := profiles;
      profiles := UpdateProfiles(profiles, id, patch, clock);
      ValidLater(clock, clock + 1);
      clock := clock + 1;
      if k.Some? {
        r := Some(profiles[k.value]);
      } else {
        r := None;
        assert forall i :: 0 <= i < |before| ==> !HasProfileId(id)(before[i]);
      }
    }

    /** `getHiddenCategories()`: the current profile's list, `[]` when there is
        no profile, no value or unparseable text. */
    function GetHiddenCategories(env: JsonEnv): (r: Json)
      reads this
      ensures profiles == [] ==> r == JArr([])
      ensures Valid() && profiles != [] ==> r == ParseHidden(env, profiles[|profiles| - 1].hiddenCategories)
    {
      match GetUserProfile()
      case None => JArr([])
      case Some(p) => ParseHidden(env, p.hiddenCategories)
    }

    /** `setHiddenCategories(id, ids)`: stores `JSON.stringify(ids)` on that
        profile; reading the current profile's list back gives `ids`. */
    method SetHiddenCategories(env: JsonEnv, profileId: int, ids: seq<string>)
      requires Valid()
      modifies this`profiles, this`clock
      ensures Valid()
      ensures profiles == UpdateProfiles(old(profiles), profileId, HiddenPatch(env.stringify(StringArray(ids))), old(clock))
      ensures StringifyRoundTrips(env, StringArray(ids)) && old(profiles) != [] &&
              profileId == old(profiles)[|old(profiles)| - 1].id ==>
        GetHiddenCategories(env) == StringArray(ids)
    {
      var _ := UpdateUserProfile(profileId, HiddenPatch(env.stringify(StringArray(ids))));
      if StringifyRoundTrips(env, StringArray(ids)) && profiles != [] {
        LatestProfileIsLast(profiles, nextProfileId, clock);
        ParseHiddenRoundTrip(env, ids);
      }
    }

    /** `hasUserProfile()`. */
    predicate HasUserProfile()
      reads this
    {
      GetUserProfile().Some?
    }

    // --- favorites ---

    /** `isFavorite(p)`. */
    predicate IsFavorite(pictogramId: string)
      reads this
    {
      pictogramId in FavoriteIds(favorites)
    }

    /** `addFavorite(p)`: one new row, or no change and `null` when the UNIQUE
        constraint rejects an existing id. */
    method AddFavorite(pictogramId: string) returns (r: Option<Favorite>)
      requires Valid()
      modifies this`favorites, this`nextFavoriteId, this`clock
      ensures Valid()
      ensures favorites == InsertFavorite(old(favorites), pictogramId, old(nextFavoriteId), old(clock))
      ensures r.None? <==> pictogramId in FavoriteIds(old(favorites))
      ensures r.Some? ==> r.value == Favorite(old(nextFavoriteId), pictogramId, old(clock))
      ensures IsFavorite(pictogramId)
      ensures nextFavoriteId == if r.Some? then old(nextFavoriteId) + 1 else old(nextFavoriteId)
      ensures clock == old(clock) + 1
    {
      InsertFavoriteIds(favorites, pictogramId, nextFavoriteId, clock);
      ValidLater(clock, clock + 1);
      if pictogramId in FavoriteIds(favorites) {
        r := None;
      } else {
        var row := Favorite(nextFavoriteId, pictogramId, clock);
        InOrderAppend(favorites, row, FavoriteId, FavoriteCreated, nextFavoriteId, clock);
        DistinctAppend(favorites, row, FavoritePictogram);
        favorites := favorites + [row];
        nextFavoriteId := nextFavoriteId + 1;
        r := Some(row);
      }
      clock := clock + 1;
    }

    /** `removeFavorite(p)`. */
    method RemoveFavorite(pictogramId: string)
      requires Valid()
      modifies this`favorites
      ensures Valid()
      ensures favorites == DeleteFavorite(old(favorites), pictogramId)
      ensures FavoriteIds(favorites) == FavoriteIds(old(favorites)) - {pictogramId}
    {
      InOrderFilter(favorites, OtherThanPictogram(pictogramId), FavoriteId, FavoriteCreated, nextFavoriteId, clock);
      DistinctFilter(favorites, OtherThanPictogram(pictogramId), FavoritePictogram);
      DeleteFavoriteIds(favorites, pictogramId);
      favorites := DeleteFavorite(favorites, pictogramId);
    }

    /** `toggleFavorite(p)`: flips membership and returns the new state. */
    method ToggleFavorite(pictogramId: string) returns (nowFavorite: bool)
      requires Valid()
      modifies this`favorites, this`nextFavoriteId, this`clock
      ensures Valid()
      ensures favorites == ToggleFavoriteRows(old(favorites), pictogramId, old(nextFavoriteId), old(clock))
      ensures nowFavorite == IsFavorite(pictogramId)
      ensures nowFavorite == !old(IsFavorite(pictogramId))
      ensures FavoriteIds(favorites) ==
        if nowFavorite then FavoriteIds(old(favorites)) + {pictogramId} else FavoriteIds(old(favorites)) - {pictogramId}
    {
      ToggleFavoriteIds(favorites, pictogramId, nextFavoriteId, clock);
      if IsFavorite(pictogramId) {
        RemoveFavorite(pictogramId);
        nowFavorite := false;
      } else {
        var _ := AddFavorite(pictogramId);
        nowFavorite := true;
      }
    }

    /** `getFavorites()`: the pictogram ids, newest first. */
    function GetFavorites(): (r: seq<string>)
      reads this
    {
      FavoritesNewestFirst(favorites)
    }

    // --- custom phrases ---

    method AddCustomPhrase(data: NewCustomPhrase) returns (row: CustomPhrase)
      requires Valid()
      modifies this`phrases, this`nextPhraseId, this`clock
      ensures Valid()
      ensures row == PhraseRow(old(nextPhraseId), old(clock), data)
      ensures phrases == old(phrases) + [row]
      ensures nextPhraseId == old(nextPhraseId) + 1 && clock == old(clock) + 1
    {
      row := PhraseRow(nextPhraseId, clock, data);
      InOrderAppend(phrases, row, PhraseId, PhraseCreated, nextPhraseId, clock);
      ValidLater(clock, clock + 1);
      phrases := phrases + [row];
      nextPhraseId := nextPhraseId + 1;
      clock := clock + 1;
    }

    /** `getCustomPhrases(p, lang = 'fr')`. */
    function GetCustomPhrases(pictogramId: string, language: string := DEFAULT_LANGUAGE): (r: seq<CustomPhrase>)
      reads this
      ensures forall x :: x in r <==> x in phrases && x.pictogramId == pictogramId && x.language == language
      ensures Valid() ==> NewestFirst(r, PhraseCreated)
    {
      var r := PhrasesOf(phrases, pictogramId, language);
      assert Valid() ==> NewestFirst(r, PhraseCreated) by {
        if Valid() { PhraseQueriesNewestFirst(phrases, pictogramId, language, nextPhraseId, clock); }
      }
      r
    }

    /** `getAllCustomPhrases(lang = 'fr')`. */
    function GetAllCustomPhrases(language: string := DEFAULT_LANGUAGE): (r: seq<CustomPhrase>)
      reads this
      ensures forall x :: x in r <==> x in phrases && x.language == language
      ensures Valid() ==> NewestFirst(r, PhraseCreated)
    {
      var r := PhrasesIn(phrases, language);
      assert Valid() ==> NewestFirst(r, PhraseCreated) by {
        if Valid() { PhraseQueriesNewestFirst(phrases, "", language, nextPhraseId, clock); }
      }
      r
    }

    /** `updateCustomPhrase(id, data)`. */
    method UpdateCustomPhrase(id: int, patch: PhrasePatch) returns (r: Option<CustomPhrase>)
      requires Valid()
      modifies this`phrases, this`clock
      ensures Valid()
      ensures phrases == UpdatePhrases(old(phrases), id, patch, old(clock))
      ensures clock == old(clock) + 1
      ensures r.Some? <==> exists i :: 0 <= i < |old(phrases)| && old(phrases)[i].id == id
      ensures r.Some? ==> r.value in phrases && r.value.id == id
    {
      InOrderMap(phrases, PatchPhraseIfId(id, patch, clock), PhraseId, PhraseCreated, nextPhraseId, clock);
      var k := FirstIndex(phrases, HasPhraseId(id));
      ghost var before := phrases;
      phrases := UpdatePhrases(phrases, id, patch, clock);
      ValidLater(clock, clock + 1);
      clock := clock + 1;
      if k.Some? {
        r := Some(phrases[k.value]);
      } else {
        r := None;
        assert forall i :: 0 <= i < |before| ==> !HasPhraseId(id)(before[i]);
      }
    }

    /** `deleteCustomPhrase(id)`. */
    method DeleteCustomPhrase(id: int)
      requires Valid()
      modifies this`phrases
      ensures Valid()
      ensures phrases == Filter(old(phrases), NotPhraseId(id))
    {
      InOrderFilter(phrases, NotPhraseId(id), PhraseId, PhraseCreated, nextPhraseId, clock);
      phrases := Filter(phrases, NotPhraseId(id));
    }

    // --- custom pictograms ---

    /** `createCustomPictogram(data)`: the insert throws on a duplicate custom id. */
    method CreateCustomPictogram(data: NewCustomPictogram) returns (r: Result<CustomPictogram, DbError>)
      requires Valid()
      modifies this`pictograms, this`nextPictogramId, this`clock
      ensures Valid()
      ensures r.Err? <==> PictogramById(old(pictograms), data.customId).Some?
      ensures r.Err? ==> r.error == UniqueViolation(PictogramsTable) && pictograms == old(pictograms)
      ensures r.Ok? ==> r.value == PictogramRow(old(nextPictogramId), old(clock), data)
                        && pictograms == old(pictograms) + [r.value]
      ensures nextPictogramId == old(nextPictogramId) + (if r.Ok? then 1 else 0) && clock == old(clock) + 1
    {
      ValidLater(clock, clock + 1);
      if PictogramById(pictograms, data.customId).Some? {
        r := Err(UniqueViolation(PictogramsTable));
      } else {
        var row := PictogramRow(nextPictogramId, clock, data);
        InOrderAppend(pictograms, row, PictogramRowId, PictogramCreated, nextPictogramId, clock);
        DistinctAppend(pictograms, row, PictogramCustomId);
        pictograms := pictograms + [row];
        nextPictogramId := nextPictogramId + 1;
        r := Ok(row);
      }
      clock := clock + 1;
    }

    /** `getCustomPictograms()`: newest first. */
    function GetCustomPictograms(): (r: seq<CustomPictogram>)
      reads this
      ensures |r| == |pictograms| && forall i :: 0 <= i < |r| ==> r[i] == pictograms[|pictograms| - 1 - i]
      ensures Valid() ==> NewestFirst(r, PictogramCreated)
    {
      var r := Reverse(pictograms);
      assert Valid() ==> NewestFirst(r, PictogramCreated) by {
        if Valid() { InOrderNewestFirst(pictograms, PictogramRowId, PictogramCreated, nextPictogramId, clock); }
      }
      r
    }

    /** `getCustomPictogramById(c)`. */
    function GetCustomPictogramById(customId: string): (r: Option<CustomPictogram>)
      reads this
    {
      PictogramById(pictograms, customId)
    }

    /** `updateCustomPictogram(c, data)`: returns the updated rows. */
    method UpdateCustomPictogram(customId: string, name: Option<string>) returns (updated: seq<CustomPictogram>)
      requires Valid()
      modifies this`pictograms, this`clock
      ensures Valid()
      ensures pictograms == RenamePictograms(old(pictograms), customId, name, old(clock))
      ensures updated == Filter(pictograms, WithCustomId(customId))
    {
      var f := RenameIfCustomId(customId, name, clock);
      InOrderMap(pictograms, f, PictogramRowId, PictogramCreated, nextPictogramId, clock);
      DistinctMap(pictograms, f, PictogramCustomId);
      pictograms := RenamePictograms(pictograms, customId, name, clock);
      ValidLater(clock, clock + 1);
      clock := clock + 1;
      updated := Filter(pictograms, WithCustomId(customId));
    }

    /** `deleteCustomPictogram(c)`: when the row exists, a best-effort delete of
        its image, then every phrase of that pictogram, then the row. */
    method DeleteCustomPictogram(customId: string, undeletable: set<string>)
      requires Valid()
      modifies this`images, this`phrases, this`pictograms
      ensures Valid()
      ensures old(PictogramById(pictograms, customId)).None? ==>
        images == old(images) && phrases == old(phrases) && pictograms == old(pictograms)
      ensures old(PictogramById(pictograms, customId)).Some? ==>
        && images == DeleteFile(old(images), old(PictogramById(pictograms, customId)).value.imagePath, undeletable)
        && phrases == Filter(old(phrases), NotPhraseOfPictogram(customId))
        && pictograms == Filter(old(pictograms), OtherThanCustomId(customId))
    {
      var picto := GetCustomPictogramById(customId);
      if picto.Some? {
        images := DeleteFile(images, picto.value.imagePath, undeletable);
        InOrderFilter(phrases, NotPhraseOfPictogram(customId), PhraseId, PhraseCreated, nextPhraseId, clock);
        phrases := Filter(phrases, NotPhraseOfPictogram(customId));
        InOrderFilter(pictograms, OtherThanCustomId(customId), PictogramRowId, PictogramCreated, nextPictogramId, clock);
        DistinctFilter(pictograms, OtherThanCustomId(customId), PictogramCustomId);
        pictograms := Filter(pictograms, OtherThanCustomId(customId));
      }
    }

    /** A file copied into the document directory at `path`. */
    method CopyImage(path: string)
      modifies this`images
      ensures images == old(images) + {path}
    {
      images := images + {path};
    }

    // --- data management ---

    /** The loop of `clearAllData` over the given pictograms: each image is
        deleted, a failure is logged and the loop goes on. */
    method DeleteImages(pictos: seq<CustomPictogram>, undeletable: set<string>)
      modifies this`images
      ensures images == old(images) - (ImagePaths(pictos) - undeletable)
    {
      var i := 0;
      while i < |pictos|
        invariant 0 <= i <= |pictos|
        invariant images == old(images) - (ImagePaths(pictos[..i]) - undeletable)
      {
        ImagePathsSnoc(pictos, i);
        images := DeleteFile(images, pictos[i].imagePath, undeletable);
        i := i + 1;
      }
      assert pictos[..|pictos|] == pictos;
    }

    /** `clearAllData()`: deletes every image of a custom pictogram (a file
        that cannot be deleted is skipped), then empties the pictogram,
        phrase, favorite and profile tables in that order; a table delete
        that throws stops the sequence and is rethrown. */
    method ClearAllData(undeletable: set<string>, fault: Option<Table>) returns (o: Outcome<DbError>)
      requires Valid()
      modifies this`images, this`profiles, this`favorites, this`phrases, this`pictograms
      ensures Valid()
      ensures o == if fault.None? then Pass else Fail(DeleteFailed(fault.value))
      ensures images == old(images) - (ImagePaths(old(pictograms)) - undeletable)
      ensures pictograms == if ClearedBefore(fault, PictogramsTable) then [] else old(pictograms)
      ensures phrases == if ClearedBefore(fault, PhrasesTable) then [] else old(phrases)
      ensures favorites == if ClearedBefore(fault, FavoritesTable) then [] else old(favorites)
      ensures profiles == if ClearedBefore(fault, ProfileTable) then [] else old(profiles)
    {
      var pictos := GetCustomPictograms();
      assert pictos == Reverse(pictograms);
      ImagePathsReverse(pictograms);
      DeleteImages(pictos, undeletable);
      o := WipeTables(fault);
    }

    /** The four table deletes of `clearAllData`, in order. */
    method WipeTables(fault: Option<Table>) returns (o: Outcome<DbError>)
      requires Valid()
      modifies this`profiles, this`favorites, this`phrases, this`pictograms
      ensures Valid()
      ensures o == if fault.None? then Pass else Fail(DeleteFailed(fault.value))
      ensures pictograms == if ClearedBefore(fault, PictogramsTable) then [] else old(pictograms)
      ensures phrases == if ClearedBefore(fault, PhrasesTable) then [] else old(phrases)
      ensures favorites == if ClearedBefore(fault, FavoritesTable) then [] else old(favorites)
      ensures profiles == if ClearedBefore(fault, ProfileTable) then [] else old(profiles)
    {
      // Each delete runs only when every earlier one succeeded.
      EmptyTablesOk(nextProfileId, nextFavoriteId, nextPhraseId, nextPictogramId, clock);
      if !ClearedBefore(fault, PictogramsTable) { return Fail(DeleteFailed(fault.value)); }
      pictograms := [];
      if !ClearedBefore(fault, PhrasesTable) { return Fail(DeleteFailed(fault.value)); }
      phrases := [];
      if !ClearedBefore(fault, FavoritesTable) { return Fail(DeleteFailed(fault.value)); }
      favorites := [];
      if !ClearedBefore(fault, ProfileTable) { return Fail(DeleteFailed(fault.value)); }
      profiles := [];
      o := if fault.None? then Pass else Fail(DeleteFailed(fault.value));
    }

    // --- start-up ---

    /** One "IF NOT EXISTS" statement: creates the object only when missing,
        so existing tables keep their rows and columns. */
    method ExecDdl(st: Ddl)
      modifies this`tables, this`indexes, this`profileColumns
      ensures st.CreateTable? ==> tables == old(tables) + {st.name} && indexes == old(indexes)
      ensures st.CreateIndex? ==> indexes == old(indexes) + {st.name} && tables == old(tables)
      ensures profileColumns ==
        if st == CreateTable("user_profile") && "user_profile" !in old(tables) then FRESH_PROFILE_COLUMNS
        else old(profileColumns)
    {
      match st
      case CreateTable(name) =>
        if name == "user_profile" && name !in tables {
          profileColumns := FRESH_PROFILE_COLUMNS;
        }
        tables := tables + {name};
      case CreateIndex(name) =>
        indexes := indexes + {name};
    }

    /** The k-th statement, run after the ones before it. */
    method ExecStep(k: nat, ghost t0: set<string>, ghost i0: set<string>, ghost c0: seq<string>)
      requires k < |DDL|
      requires tables == t0 + DdlTablesUpTo(k) && indexes == i0 + DdlIndexesUpTo(k)
      requires profileColumns == ColumnsAfterDdl(t0, c0, k)
      modifies this`tables, this`indexes, this`profileColumns
      ensures tables == t0 + DdlTablesUpTo(k + 1) && indexes == i0 + DdlIndexesUpTo(k + 1)
      ensures profileColumns == ColumnsAfterDdl(t0, c0, k + 1)
    {
      assert "user_profile" in DdlTablesUpTo(k) <==> k >= 1 by {
        if k >= 1 { DdlFirstTable(k); }
        else { assert DdlTablesUpTo(0) == {}; }
      }
      ExecDdl(DDL[k]);
    }

    /** The seven CREATE statements of `initDatabase` in order; the first
        that throws stops the rest. */
    method RunDdl(ddlFault: Option<nat>) returns (failedAt: Option<nat>)
      modifies this`tables, this`indexes, this`profileColumns
      ensures failedAt == if ddlFault.Some? && ddlFault.value < |DDL| then ddlFault else None
      ensures tables == old(tables) + DdlTablesUpTo(DdlStop(ddlFault))
      ensures indexes == old(indexes) + DdlIndexesUpTo(DdlStop(ddlFault))
      ensures profileColumns == ColumnsAfterDdl(old(tables), old(profileColumns), DdlStop(ddlFault))
    {
      ghost var t0, i0, c0 := tables, indexes, profileColumns;
      failedAt := CreateTables(ddlFault, t0, i0, c0);
      if failedAt.None? {
        failedAt := CreateIndexes(ddlFault, t0, i0, c0);
      }
    }

    /** Statements 0 to 3, the tables. */
    method CreateTables(ddlFault: Option<nat>, ghost t0: set<string>, ghost i0: set<string>, ghost c0: seq<string>)
      returns (failedAt: Option<nat>)
      requires tables == t0 && indexes == i0 && profileColumns == c0
      modifies this`tables, this`indexes, this`profileColumns
      ensures failedAt == if ddlFault.Some? && ddlFault.value < 4 then ddlFault else None
      ensures var n := if failedAt.Some? then failedAt.value else 4;
        && tables == t0 + DdlTablesUpTo(n)
        && indexes == i0 + DdlIndexesUpTo(n)
        && profileColumns == ColumnsAfterDdl(t0, c0, n)
    {
      if ddlFault == Some(0) { return Some(0); }
      ExecStep(0, t0, i0, c0);
      if ddlFault == Some(1) { return Some(1); }
      ExecStep(1, t0, i0, c0);
      if ddlFault == Some(2) { return Some(2); }
      ExecStep(2, t0, i0, c0);
      if ddlFault == Some(3) { return Some(3); }
      ExecStep(3, t0, i0, c0);
      return None;
    }

    /** Statements 4 to 6, the indexes, after the tables. */
    method CreateIndexes(ddlFault: Option<nat>, ghost t0: set<string>, ghost i0: set<string>, ghost c0: seq<string>)
      returns (failedAt: Option<nat>)
      requires tables == t0 + DdlTablesUpTo(4) && indexes == i0 + DdlIndexesUpTo(4)
      requires profileColumns == ColumnsAfterDdl(t0, c0, 4)
      modifies this`tables, this`indexes, this`profileColumns
      ensures failedAt == if ddlFault.Some? && 4 <= ddlFault.value < |DDL| then ddlFault else None
      ensures var n := if failedAt.Some? then failedAt.value else |DDL|;
        && tables == t0 + DdlTablesUpTo(n)
        && indexes == i0 + DdlIndexesUpTo(n)
        && profileColumns == ColumnsAfterDdl(t0, c0, n)
    {
      if ddlFault == Some(4) { return Some(4); }
      ExecStep(4, t0, i0, c0);
      if ddlFault == Some(5) { return Some(5); }
      ExecStep(5, t0, i0, c0);
      if ddlFault == Some(6) { return Some(6); }
      ExecStep(6, t0, i0, c0);
      return None;
    }

    /** The three migrations of `initDatabase`: each checks the profile
        columns and issues its ALTER only when needed; a failure is logged and
        the next migration still runs. */
    method RunMigrations(faults: set<Migration>) returns (altered: seq<Migration>)
      modifies this`profileColumns
      ensures profileColumns == MigrateAll(old(profileColumns), faults)
      ensures altered == Alterations(old(profileColumns), faults)
    {
      altered := [];
      if AddTtsVoiceId !in faults && "tts_voice_id" !in profileColumns {
        profileColumns := profileColumns + ["tts_voice_id"];
        altered := altered + [AddTtsVoiceId];
      }
      if AddPinCode !in faults && "pin_code" !in profileColumns {
        profileColumns := profileColumns + ["pin_code"];
        altered := altered + [AddPinCode];
      }
      if DropAvatarId !in faults && "avatar_id" in profileColumns {
        profileColumns := Filter(profileColumns, NotColumn("avatar_id"));
        altered := altered + [DropAvatarId];
      }
    }

    /** The part of `initDatabase` after the statements: the image
        directory (a failure is ignored), then the migrations. */
    method MakeImageDirAndMigrate(dirFails: bool, faults: set<Migration>) returns (altered: seq<Migration>)
      modifies this`profileColumns, this`imageDirExists
      ensures imageDirExists == (old(imageDirExists) || !dirFails)
      ensures profileColumns == MigrateAll(old(profileColumns), faults)
      ensures altered == Alterations(old(profileColumns), faults)
    {
      if !dirFails {
        imageDirExists := true;
      }
      altered := RunMigrations(faults);
    }

    /** `initDatabase()`: the seven statements in order (a failing one is
        rethrown and stops the rest), the image directory (a failure is
        ignored), then the three migrations, each guarded by its column test
        and each failure logged without stopping the next. `altered` lists
        the ALTER statements that succeeded. */
    method InitDatabase(ddlFault: Option<nat>, dirFails: bool, migrationFaults: set<Migration>)
      returns (o: Outcome<DbError>, altered: seq<Migration>)
      modifies this`tables, this`indexes, this`profileColumns, this`imageDirExists
      ensures tables == old(tables) + DdlTablesUpTo(DdlStop(ddlFault))
      ensures indexes == old(indexes) + DdlIndexesUpTo(DdlStop(ddlFault))
      ensures ddlFault.Some? && ddlFault.value < |DDL| ==>
        && o == Fail(StatementFailed(ddlFault.value)) && altered == []
        && imageDirExists == old(imageDirExists)
        && profileColumns == ColumnsAfterDdl(old(tables), old(profileColumns), ddlFault.value)
      ensures !(ddlFault.Some? && ddlFault.value < |DDL|) ==>
        var cols := ColumnsAfterDdl(old(tables), old(profileColumns), |DDL|);
        && o == Pass
        && imageDirExists == (old(imageDirExists) || !dirFails)
        && profileColumns == MigrateAll(cols, migrationFaults)
        && altered == Alterations(cols, migrationFaults)
    {
      ghost var t0, c0 := tables, profileColumns;
      var failedAt := RunDdl(ddlFault);
      if failedAt.Some? {
        assert profileColumns == ColumnsAfterDdl(t0, c0, ddlFault.value);
        return Fail(StatementFailed(failedAt.value)), [];
      }
      assert profileColumns == ColumnsAfterDdl(t0, c0, |DDL|);
      FreshNeedsNoMigration(migrationFaults);
      altered := MakeImageDirAndMigrate(dirFails, migrationFaults);
      o := Pass;
    }
  }

  function HasProfileId(id: int): UserProfile -> bool {
    (p: UserProfile) => p.id == id
  }

  function HasPhraseId(id: int): CustomPhrase -> bool {
    (p: CustomPhrase) => p.id == id
  }

  function HiddenPatch(stored: string): ProfilePatch {
    EMPTY_PROFILE_PATCH.(hiddenCategories := Some(Some(stored)))
  }
}
