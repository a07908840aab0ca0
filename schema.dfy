/** The four tables of the local database: the row each holds, the record an
    insert takes (columns with a default may be left out) and the defaults
    the schema fills in. Timestamps are ticks of the store's clock. */
module Schema {
  import opened Wrappers

  const DEFAULT_LANGUAGE: string := "fr"
  const DEFAULT_TTS_SPEED: real := 1.0
  const DEFAULT_CATEGORY: string := "custom"

  // ---------------------------------------------------------------
  // user_profile

  datatype UserProfile = UserProfile(
    id: nat,
    name: string,
    language: string,
    ttsSpeed: real,
    ttsVoiceId: Option<string>,
    pinCode: Option<string>,
    hiddenCategories: Option<string>,
    createdAt: nat,
    updatedAt: nat)

  /** An insert into `user_profile`; `None` leaves a column to its default. */
  datatype NewUserProfile = NewUserProfile(
    name: string,
    language: Option<string>,
    ttsSpeed: Option<real>,
    ttsVoiceId: Option<string>,
    pinCode: Option<string>,
    hiddenCategories: Option<string>)

  /** The row an insert produces with the given id and creation tick. */
  function ProfileRow(id: nat, stamp: nat, n: NewUserProfile): (r: UserProfile)
    ensures r.id == id && r.createdAt == stamp && r.updatedAt == stamp
    ensures r.name == n.name
    ensures n.language.None? ==> r.language == DEFAULT_LANGUAGE
    ensures n.ttsSpeed.None? ==> r.ttsSpeed == DEFAULT_TTS_SPEED
    ensures n.ttsVoiceId.None? ==> r.ttsVoiceId.None?
    ensures n.pinCode.None? ==> r.pinCode.None?
  {
    UserProfile(id, n.name, n.language.GetOr(DEFAULT_LANGUAGE), n.ttsSpeed.GetOr(DEFAULT_TTS_SPEED),
                n.ttsVoiceId, n.pinCode, n.hiddenCategories, stamp, stamp)
  }

  /** Everything of a row except its id and timestamps, as an insert. */
  function ProfileContent(p: UserProfile): NewUserProfile {
    NewUserProfile(p.name, Some(p.language), Some(p.ttsSpeed), p.ttsVoiceId, p.pinCode, p.hiddenCategories)
  }

  /** The content of the row an insert produces, whatever its id and tick:
      the insert with its defaults filled in. */
  function ProfileFilled(n: NewUserProfile): (r: NewUserProfile)
    ensures forall id: nat, stamp: nat {:trigger ProfileRow(id, stamp, n)} :: ProfileContent(ProfileRow(id, stamp, n)) == r
    ensures r.name == n.name && r.ttsVoiceId == n.ttsVoiceId && r.pinCode == n.pinCode
    ensures r.hiddenCategories == n.hiddenCategories
    ensures r.language == Some(if n.language.Some? then n.language.value else DEFAULT_LANGUAGE)
    ensures r.ttsSpeed == Some(if n.ttsSpeed.Some? then n.ttsSpeed.value else DEFAULT_TTS_SPEED)
  {
    n.(language := Some(n.language.GetOr(DEFAULT_LANGUAGE)), ttsSpeed := Some(n.ttsSpeed.GetOr(DEFAULT_TTS_SPEED)))
  }

  /** Re-inserting a row's content reproduces the row up to id and timestamps. */
  lemma ProfileContentRoundTrip(p: UserProfile, id: nat, stamp: nat)
    ensures ProfileContent(ProfileRow(id, stamp, ProfileContent(p))) == ProfileContent(p)
    ensures ProfileRow(p.id, p.createdAt, ProfileContent(p)) == p.(updatedAt := p.createdAt)
    ensures ProfileFilled(ProfileContent(p)) == ProfileContent(p)
  {
  }

  /** The columns an update may set; `None` leaves a column as it is. */
  datatype ProfilePatch = ProfilePatch(
    name: Option<string>,
    language: Option<string>,
    ttsSpeed: Option<real>,
    ttsVoiceId: Option<Option<string>>,
    pinCode: Option<Option<string>>,
    hiddenCategories: Option<Option<string>>)

  const EMPTY_PROFILE_PATCH := ProfilePatch(None, None, None, None, None, None)

  function PatchProfile(p: UserProfile, patch: ProfilePatch, stamp: nat): (r: UserProfile)
    ensures r.id == p.id && r.createdAt == p.createdAt && r.updatedAt == stamp
    ensures r.name == (if patch.name.Some? then patch.name.value else p.name)
    ensures r.language == (if patch.language.Some? then patch.language.value else p.language)
    ensures r.ttsSpeed == (if patch.ttsSpeed.Some? then patch.ttsSpeed.value else p.ttsSpeed)
    ensures r.ttsVoiceId == (if patch.ttsVoiceId.Some? then patch.ttsVoiceId.value else p.ttsVoiceId)
    ensures r.pinCode == (if patch.pinCode.Some? then patch.pinCode.value else p.pinCode)
    ensures r.hiddenCategories == (if patch.hiddenCategories.Some? then patch.hiddenCategories.value else p.hiddenCategories)
  {
    p.(name := patch.name.GetOr(p.name),
       language := patch.language.GetOr(p.language),
       ttsSpeed := patch.ttsSpeed.GetOr(p.ttsSpeed),
       ttsVoiceId := patch.ttsVoiceId.GetOr(p.ttsVoiceId),
       pinCode := patch.pinCode.GetOr(p.pinCode),
       hiddenCategories := patch.hiddenCategories.GetOr(p.hiddenCategories),
       updatedAt := stamp)
  }

  /** An empty patch still refreshes `updatedAt` and nothing else. */
  lemma EmptyProfilePatch(p: UserProfile, stamp: nat)
    ensures PatchProfile(p, EMPTY_PROFILE_PATCH, stamp) == p.(updatedAt := stamp)
  {
  }

  // ---------------------------------------------------------------
  // favorites

  datatype Favorite = Favorite(id: nat, pictogramId: string, createdAt: nat)

  // ---------------------------------------------------------------
  // custom_phrases

  datatype CustomPhrase = CustomPhrase(
    id: nat,
    pictogramId: string,
    text: string,
    emoji: Option<string>,
    language: string,
    createdAt: nat,
    updatedAt: nat)

  datatype NewCustomPhrase = NewCustomPhrase(
    pictogramId: string,
    text: string,
    emoji: Option<string>,
    language: Option<string>)

  function PhraseRow(id: nat, stamp: nat, n: NewCustomPhrase): (r: CustomPhrase)
    ensures r.id == id && r.createdAt == stamp && r.updatedAt == stamp
    ensures r.pictogramId == n.pictogramId && r.text == n.text && r.emoji == n.emoji
    ensures n.language.None? ==> r.language == DEFAULT_LANGUAGE
    ensures n.language.Some? ==> r.language == n.language.value
  {
    CustomPhrase(id, n.pictogramId, n.text, n.emoji, n.language.GetOr(DEFAULT_LANGUAGE), stamp, stamp)
  }

  function PhraseContent(p: CustomPhrase): NewCustomPhrase {
    NewCustomPhrase(p.pictogramId, p.text, p.emoji, Some(p.language))
  }

  function PhraseFilled(n: NewCustomPhrase): (r: NewCustomPhrase)
    ensures forall id: nat, stamp: nat {:trigger PhraseRow(id, stamp, n)} :: PhraseContent(PhraseRow(id, stamp, n)) == r
    ensures r.pictogramId == n.pictogramId && r.text == n.text && r.emoji == n.emoji
    ensures r.language == Some(if n.language.Some? then n.language.value else DEFAULT_LANGUAGE)
  {
    n.(language := Some(n.language.GetOr(DEFAULT_LANGUAGE)))
  }

  lemma PhraseContentRoundTrip(p: CustomPhrase, id: nat, stamp: nat)
    ensures PhraseContent(PhraseRow(id, stamp, PhraseContent(p))) == PhraseContent(p)
    ensures PhraseFilled(PhraseContent(p)) == PhraseContent(p)
  {
  }

  /** The columns `updateCustomPhrase` may set. */
  datatype PhrasePatch = PhrasePatch(text: Option<string>, emoji: Option<Option<string>>)

  function PatchPhrase(p: CustomPhrase, patch: PhrasePatch, stamp: nat): (r: CustomPhrase)
    ensures r.id == p.id && r.pictogramId == p.pictogramId && r.language == p.language
    ensures r.createdAt == p.createdAt && r.updatedAt == stamp
    ensures r.text == (if patch.text.Some? then patch.text.value else p.text)
    ensures r.emoji == (if patch.emoji.Some? then patch.emoji.value else p.emoji)
  {
    p.(text := patch.text.GetOr(p.text), emoji := patch.emoji.GetOr(p.emoji), updatedAt := stamp)
  }

  // ---------------------------------------------------------------
  // custom_pictograms

  datatype CustomPictogram = CustomPictogram(
    id: nat,
    customId: string,
    name: string,
    imagePath: string,
    categoryId: string,
    createdAt: nat,
    updatedAt: nat)

  datatype NewCustomPictogram = NewCustomPictogram(
    customId: string,
    name: string,
    imagePath: string,
    categoryId: Option<string>)

  function PictogramRow(id: nat, stamp: nat, n: NewCustomPictogram): (r: CustomPictogram)
    ensures r.id == id && r.createdAt == stamp && r.updatedAt == stamp
    ensures r.customId == n.customId && r.name == n.name && r.imagePath == n.imagePath
    ensures n.categoryId.None? ==> r.categoryId == DEFAULT_CATEGORY
    ensures n.categoryId.Some? ==> r.categoryId == n.categoryId.value
  {
    CustomPictogram(id, n.customId, n.name, n.imagePath, n.categoryId.GetOr(DEFAULT_CATEGORY), stamp, stamp)
  }

  // ---------------------------------------------------------------
  // Projections used for ordering, uniqueness and filtering

  function ProfileId(p: UserProfile): nat { p.id }
  function ProfileCreated(p: UserProfile): nat { p.createdAt }
  function FavoriteId(f: Favorite): nat { f.id }
  function FavoriteCreated(f: Favorite): nat { f.createdAt }
  function FavoritePictogram(f: Favorite): string { f.pictogramId }
  function PhraseId(p: CustomPhrase): nat { p.id }
  function PhraseCreated(p: CustomPhrase): nat { p.createdAt }
  function PictogramRowId(p: CustomPictogram): nat { p.id }
  function PictogramCreated(p: CustomPictogram): nat { p.createdAt }
  function PictogramCustomId(p: CustomPictogram): string { p.customId }
}
