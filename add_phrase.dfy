/** The dialog that adds a custom phrase to a pictogram: an optional emoji
    picked from a fixed palette (pressing the picked one again unpicks it),
    a text of at most 200 characters, and a save button that stores the
    trimmed text with the emoji, the interface language and the pictogram
    the dialog was opened for, then closes the dialog. */
module AddPhrase {
  import opened Wrappers
  import opened Strings
  import opened Schema
  import opened Store

  const MAX_PHRASE_LENGTH: nat := 200

  /** The palette, in display order. */
  const COMMON_EMOJIS: seq<string> := [
    "\U{2764}\U{FE0F}", "\U{1F60A}", "\U{1F44D}", "\U{1F44B}", "\U{1F64F}", "\U{1F4AA}", "\U{1F389}", "\U{2728}",
    "\U{1F50A}", "\U{1F440}", "\U{1F442}", "\U{1F914}", "\U{1F622}", "\U{1F621}", "\U{1F631}", "\U{1F917}",
    "\U{1F37D}\U{FE0F}", "\U{1F964}", "\U{1F6CF}\U{FE0F}", "\U{1F697}", "\U{1F3E0}", "\U{1F3EB}", "\U{23F0}", "\U{1F4F1}"]

  /** `handleEmojiPress`: the pressed emoji is unpicked when it is the picked
      one and picked otherwise. */
  function PressEmoji(selected: Option<string>, emoji: string): Option<string> {
    if selected == Some(emoji) then None else Some(emoji)
  }

  /** What the text field holds after the user enters `typed`: the input is
      cut at the maximum length. */
  function Capped(typed: string): (r: string)
  {
    if |typed| <= MAX_PHRASE_LENGTH then typed else typed[..MAX_PHRASE_LENGTH]
  }

  /** The row `handleSave` inserts, or nothing when the text is blank. */
  function SavePayload(pictogramId: string, text: string, selected: Option<string>, language: string): Option<NewCustomPhrase> {
    if Trim(text) == [] then None
    else Some(NewCustomPhrase(pictogramId, Trim(text), selected, Some(language)))
  }

  /** Pressing an emoji picks it exactly when it was not picked; pressing it
      twice restores an empty pick or a pick of that same emoji, and leaves
      nothing picked when another emoji was picked before. */
  lemma EmojiToggle(selected: Option<string>, emoji: string)
    ensures PressEmoji(selected, emoji) == Some(emoji) <==> selected != Some(emoji)
    ensures PressEmoji(selected, emoji).None? <==> selected == Some(emoji)
    ensures selected.None? || selected == Some(emoji) ==> PressEmoji(PressEmoji(selected, emoji), emoji) == selected
    ensures selected.Some? && selected != Some(emoji) ==> PressEmoji(PressEmoji(selected, emoji), emoji).None?
  {
  }

  /** The field holds at most 200 characters, and what it holds is the start
      of what was typed, all of it when it fits. */
  lemma CappedIsPrefix(typed: string)
    ensures |Capped(typed)| <= MAX_PHRASE_LENGTH
    ensures Capped(typed) == typed[..|Capped(typed)|]
    ensures |typed| <= MAX_PHRASE_LENGTH ==> Capped(typed) == typed
  {
  }

  /** Blank text saves nothing. */
  lemma BlankSavesNothing(pictogramId: string, text: string, selected: Option<string>, language: string)
    ensures SavePayload(pictogramId, text, selected, language).None? <==> AllSpaces(text)
  {
    TrimEmptyIffAllSpaces(text);
  }

  /** Otherwise the phrase saved is the trimmed text (which trimming leaves
      as it is), the picked emoji or none, the given language and pictogram. */
  lemma SavePayloadShape(pictogramId: string, text: string, selected: Option<string>, language: string)
    requires SavePayload(pictogramId, text, selected, language).Some?
    ensures var n := SavePayload(pictogramId, text, selected, language).value;
      n.pictogramId == pictogramId && n.text == Trim(text) && Trim(n.text) == n.text && n.text != [] &&
      n.emoji == selected && n.language == Some(language)
  {
    TrimIdempotent(text);
  }

  /** The dialog's state; `pictogramId` comes from the route and `language`
      is the interface language. `closed` records `router.back()`. */
  class AddPhraseScreen {
    const pictogramId: string
    const language: string
    var phraseText: string
    var selectedEmoji: Option<string>
    var isSaving: bool
    var closed: bool

    ghost predicate Valid()
      reads this
    {
      |phraseText| <= MAX_PHRASE_LENGTH
    }

    constructor(pictogramId: string, language: string)
      ensures Valid()
      ensures this.pictogramId == pictogramId && this.language == language
      ensures phraseText == "" && selectedEmoji.None? && !isSaving && !closed
    {
      this.pictogramId := pictogramId;
      this.language := language;
      phraseText := "";
      selectedEmoji := None;
      isSaving := false;
      closed := false;
    }

    method ChangeText(typed: string)
      modifies this`phraseText
      ensures Valid() && phraseText == Capped(typed)
    {
      phraseText := Capped(typed);
    }

    method HandleEmojiPress(emoji: string)
      modifies this`selectedEmoji
      ensures selectedEmoji == PressEmoji(old(selectedEmoji), emoji)
    {
      if selectedEmoji == Some(emoji) {
        selectedEmoji := None;
      } else {
        selectedEmoji := Some(emoji);
      }
    }

    /** `handleSave`. Blank text does nothing. Otherwise the phrase is
        inserted and the dialog closes, unless the insert fails (`fails`),
        in which case nothing is stored and the dialog stays; `isSaving` is
        false again either way. The button is disabled while a save runs. */
    method HandleSave(store: LocalStore, fails: bool)
      requires store.Valid() && !isSaving
      modifies this`isSaving, this`closed, store`phrases, store`nextPhraseId, store`clock
      ensures store.Valid() && !isSaving
      ensures var payload := SavePayload(pictogramId, phraseText, selectedEmoji, language);
        if payload.None? || fails then
          closed == old(closed) && store.phrases == old(store.phrases) &&
          store.nextPhraseId == old(store.nextPhraseId) && store.clock == old(store.clock)
        else
          closed && store.phrases == old(store.phrases) + [PhraseRow(old(store.nextPhraseId), old(store.clock), payload.value)] &&
          store.nextPhraseId == old(store.nextPhraseId) + 1 && store.clock == old(store.clock) + 1
    {
      if Trim(phraseText) == [] {
        return;
      }
      isSaving := true;
      if !fails {
        var _ := store.AddCustomPhrase(NewCustomPhrase(pictogramId, Trim(phraseText), selectedEmoji, Some(language)));
        closed := true;
      }
      isSaving := false;
    }
  }
}
