/** The search screen. A query that is blank once trimmed clears the results
    without searching. Otherwise the trimmed query, lower-cased, is looked
    for in every catalog pictogram: its label, then its bundled phrases, then
    the custom phrases stored for it in the current language, each as a
    substring of the lower-cased text. A pictogram's texts are those of the
    current language, or the French ones when it has none. When a pictogram
    has neither, the search throws and the previous results stay. */
module Search {
  import opened Wrappers
  import opened Strings
  import opened Seqs
  import opened Schema
  import opened Store
  import opened Categories
  import opened Pictograms

  const FALLBACK_LANGUAGE: string := "fr"

  /** The emoji shown for a custom phrase without one: U+1F4AC. */
  const SPEECH_BALLOON: string := "\U{1F4AC}"

  /** The default as it is written in the screen: the four characters that
      the UTF-8 bytes of U+1F4AC become when read as Mac Roman. */
  const SPEECH_BALLOON_AS_WRITTEN: string := "\U{F8FF}\U{00FC}\U{00ED}\U{00A8}"

  datatype SearchResult =
    | PictogramHit(pictogram: Tagged)
    | PhraseHit(pictogram: Tagged, phrase: Phrase)
    | CustomHit(pictogram: Tagged, text: string, emoji: string)

  /** `picto.translations[lang] || picto.translations.fr`; `None` when both
      are missing, where reading `.label` throws. */
  function TranslationFor(p: Pictogram, language: string): Option<PictogramTranslation> {
    if language in p.translations then Some(p.translations[language])
    else if FALLBACK_LANGUAGE in p.translations then Some(p.translations[FALLBACK_LANGUAGE])
    else None
  }

  predicate Matches(text: string, q: string) {
    Contains(Lower(text), q)
  }

  /** `emoji || fallback`: a missing or empty emoji gives the fallback. */
  function EmojiOr(emoji: Option<string>, fallback: string): string {
    if emoji.Some? && emoji.value != [] then emoji.value else fallback
  }

  /** The emoji of a custom-phrase result, with the intended default. */
  function CustomEmoji(emoji: Option<string>): string {
    EmojiOr(emoji, SPEECH_BALLOON)
  }

  /** The same with the default as the screen writes it. */
  function CustomEmojiAsWritten(emoji: Option<string>): string {
    EmojiOr(emoji, SPEECH_BALLOON_AS_WRITTEN)
  }

  function LabelHits(t: Tagged, tr: PictogramTranslation, q: string): seq<SearchResult> {
    if Matches(tr.labelText, q) then [PictogramHit(t)] else []
  }

  /** The bundled phrases that match, in their order. */
  function PhraseHits(t: Tagged, phrases: seq<Phrase>, q: string): seq<SearchResult>
    decreases |phrases|
  {
    if phrases == [] then []
    else
      var ph := phrases[|phrases| - 1];
      PhraseHits(t, phrases[..|phrases| - 1], q) + (if Matches(ph.text, q) then [PhraseHit(t, ph)] else [])
  }

  /** The custom phrases that match, in the order they were read. */
  function CustomHits(t: Tagged, customs: seq<CustomPhrase>, q: string): seq<SearchResult>
    decreases |customs|
  {
    if customs == [] then []
    else
      var c := customs[|customs| - 1];
      CustomHits(t, customs[..|customs| - 1], q) +
      (if Matches(c.text, q) then [CustomHit(t, c.text, CustomEmoji(c.emoji))] else [])
  }

  /** The results for one pictogram: label, bundled phrases, custom phrases. */
  function HitsFor(t: Tagged, language: string, q: string, table: seq<CustomPhrase>): Option<seq<SearchResult>> {
    match TranslationFor(t.picto, language)
    case None => None
    case Some(tr) =>
      Some(LabelHits(t, tr, q) + PhraseHits(t, tr.phrases, q) + CustomHits(t, PhrasesOf(table, t.picto.id, language), q))
  }

  /** The results for the pictograms in order; `None` once one throws. */
  function SearchAll(all: seq<Tagged>, language: string, q: string, table: seq<CustomPhrase>): Option<seq<SearchResult>>
    decreases |all|
  {
    if all == [] then Some([])
    else
      match SearchAll(all[..|all| - 1], language, q, table)
      case None => None
      case Some(rs) =>
        match HitsFor(all[|all| - 1], language, q, table)
        case None => None
        case Some(hs) => Some(rs + hs)
  }

  /** `performSearch(query)` over the catalog and the phrase table. */
  function Search(transport: Option<seq<Pictogram>>, language: string, query: string, table: seq<CustomPhrase>): Option<seq<SearchResult>> {
    SearchAll(Flatten(transport, CATEGORIES), language, Lower(query), table)
  }

  /** What pressing a result says: the label, the bundled phrase or the
      custom text; nothing for an empty custom text, which is falsy. */
  function SpokenText(r: SearchResult, language: string): Option<string> {
    match r
    case PictogramHit(t) =>
      (match TranslationFor(t.picto, language) case None => None case Some(tr) => Some(tr.labelText))
    case PhraseHit(_, ph) => Some(ph.text)
    case CustomHit(_, text, _) => if text != [] then Some(text) else None
  }

  /** Where pressing a result goes. */
  function ResultRoute(r: SearchResult): string {
    "/pictogram/" + r.pictogram.categoryId + "/" + r.pictogram.picto.id
  }

  /** What a result promises: its pictogram has texts in the language, and
      the text it stands for matches the query. */
  predicate HitMatches(r: SearchResult, language: string, q: string, table: seq<CustomPhrase>) {
    match TranslationFor(r.pictogram.picto, language)
    case None => false
    case Some(tr) =>
      match r
      case PictogramHit(_) => Matches(tr.labelText, q)
      case PhraseHit(_, ph) => ph in tr.phrases && Matches(ph.text, q)
      case CustomHit(t, text, emoji) =>
        Matches(text, q) &&
        exists c :: c in PhrasesOf(table, t.picto.id, language) && c.text == text && emoji == CustomEmoji(c.emoji)
  }

  // ---------------------------------------------------------------
  // The default emoji

  /** As written, a custom phrase without an emoji shows four stray
      characters instead of the speech balloon. */
  lemma DefaultEmojiAsWrittenIsGarbled()
    ensures CustomEmojiAsWritten(None) == SPEECH_BALLOON_AS_WRITTEN
    ensures CustomEmojiAsWritten(None) != SPEECH_BALLOON && |CustomEmojiAsWritten(None)| == 4
  {
  }

  /** A phrase's own emoji is kept; a missing or empty one becomes the single
      speech-balloon character. */
  lemma CustomEmojiDefault(emoji: Option<string>)
    ensures emoji.Some? && emoji.value != [] ==> CustomEmoji(emoji) == emoji.value
    ensures emoji.None? || emoji.value == [] ==> CustomEmoji(emoji) == SPEECH_BALLOON && |CustomEmoji(emoji)| == 1
    ensures CustomEmoji(emoji) != []
  {
  }

  // ---------------------------------------------------------------
  // One pictogram

  /** The pictogram's texts are those of the language when it has them, the
      French ones otherwise, and missing only when it has neither. */
  lemma TranslationFallback(p: Pictogram, language: string)
    ensures language in p.translations ==> TranslationFor(p, language) == Some(p.translations[language])
    ensures language !in p.translations && FALLBACK_LANGUAGE in p.translations ==>
      TranslationFor(p, language) == Some(p.translations[FALLBACK_LANGUAGE])
    ensures TranslationFor(p, language).None? <==> language !in p.translations && FALLBACK_LANGUAGE !in p.translations
  {
  }

  lemma {:induction false} PhraseHitsExact(t: Tagged, phrases: seq<Phrase>, q: string)
    ensures forall r :: r in PhraseHits(t, phrases, q) ==>
      r.PhraseHit? && r.pictogram == t && r.phrase in phrases && Matches(r.phrase.text, q)
    ensures forall ph :: ph in phrases && Matches(ph.text, q) ==> PhraseHit(t, ph) in PhraseHits(t, phrases, q)
    decreases |phrases|
  {
    if phrases != [] {
      var init := phrases[..|phrases| - 1];
      PhraseHitsExact(t, init, q);
      assert phrases == init + [phrases[|phrases| - 1]];
    }
  }

  lemma {:induction false} CustomHitsExact(t: Tagged, customs: seq<CustomPhrase>, q: string)
    ensures forall r :: r in CustomHits(t, customs, q) ==>
      r.CustomHit? && r.pictogram == t && Matches(r.text, q) &&
      exists c :: c in customs && c.text == r.text && r.emoji == CustomEmoji(c.emoji)
    ensures forall c :: c in customs && Matches(c.text, q) ==> CustomHit(t, c.text, CustomEmoji(c.emoji)) in CustomHits(t, customs, q)
    decreases |customs|
  {
    if customs != [] {
      var init := customs[..|customs| - 1];
      CustomHitsExact(t, init, q);
      assert customs == init + [customs[|customs| - 1]];
    }
  }

  /** Every result for a pictogram is about it and matches; every matching
      label and phrase of it gives a result. */
  lemma HitsForExact(t: Tagged, language: string, q: string, table: seq<CustomPhrase>)
    ensures HitsFor(t, language, q, table).None? <==> TranslationFor(t.picto, language).None?
    ensures HitsFor(t, language, q, table).Some? ==>
      forall r :: r in HitsFor(t, language, q, table).value ==> r.pictogram == t && HitMatches(r, language, q, table)
    ensures TranslationFor(t.picto, language).Some? ==>
      var tr := TranslationFor(t.picto, language).value;
      var hs := HitsFor(t, language, q, table).value;
      && (Matches(tr.labelText, q) ==> PictogramHit(t) in hs)
      && (forall ph :: ph in tr.phrases && Matches(ph.text, q) ==> PhraseHit(t, ph) in hs)
      && (forall c :: c in table && c.pictogramId == t.picto.id && c.language == language && Matches(c.text, q) ==>
            CustomHit(t, c.text, CustomEmoji(c.emoji)) in hs)
  {
    match TranslationFor(t.picto, language)
    case None =>
    case Some(tr) =>
      var customs := PhrasesOf(table, t.picto.id, language);
      PhraseHitsExact(t, tr.phrases, q);
      CustomHitsExact(t, customs, q);
      var hs := HitsFor(t, language, q, table).value;
      assert hs == LabelHits(t, tr, q) + PhraseHits(t, tr.phrases, q) + CustomHits(t, customs, q);
  }

  // ---------------------------------------------------------------
  // The whole catalog

  /** The search throws exactly when some pictogram has neither the
      language's texts nor French ones. */
  lemma {:induction false} SearchFailsIff(all: seq<Tagged>, language: string, q: string, table: seq<CustomPhrase>)
    ensures SearchAll(all, language, q, table).None? <==>
      exists k :: 0 <= k < |all| && TranslationFor(all[k].picto, language).None?
    decreases |all|
  {
    if all != [] {
      var init := all[..|all| - 1];
      SearchFailsIff(init, language, q, table);
      HitsForExact(all[|all| - 1], language, q, table);
      if exists k :: 0 <= k < |init| && TranslationFor(init[k].picto, language).None? {
        var k :| 0 <= k < |init| && TranslationFor(init[k].picto, language).None?;
        assert all[k] == init[k];
      }
      if exists k :: 0 <= k < |all| && TranslationFor(all[k].picto, language).None? {
        var k :| 0 <= k < |all| && TranslationFor(all[k].picto, language).None?;
        if k < |init| { assert init[k] == all[k]; }
      }
    }
  }

  /** Whatever the search returns is about a catalog pictogram and matches. */
  lemma {:induction false} SearchSound(all: seq<Tagged>, language: string, q: string, table: seq<CustomPhrase>)
    requires SearchAll(all, language, q, table).Some?
    ensures forall r :: r in SearchAll(all, language, q, table).value ==>
      r.pictogram in all && HitMatches(r, language, q, table)
    decreases |all|
  {
    if all != [] {
      var init := all[..|all| - 1];
      var last := all[|all| - 1];
      SearchSound(init, language, q, table);
      HitsForExact(last, language, q, table);
      var rs := SearchAll(init, language, q, table).value;
      var hs := HitsFor(last, language, q, table).value;
      assert SearchAll(all, language, q, table).value == rs + hs;
      assert forall x :: x in init ==> x in all;
    }
  }

  /** A catalog with a last pictogram is searched as the catalog without
      it, then that pictogram. */
  lemma SearchAllSnoc(init: seq<Tagged>, last: Tagged, language: string, q: string, table: seq<CustomPhrase>)
    ensures var all := init + [last];
      SearchAll(all, language, q, table).Some? <==>
        SearchAll(init, language, q, table).Some? && HitsFor(last, language, q, table).Some?
    ensures var all := init + [last];
      SearchAll(all, language, q, table).Some? ==>
        SearchAll(all, language, q, table).value ==
          SearchAll(init, language, q, table).value + HitsFor(last, language, q, table).value
  {
    var all := init + [last];
    assert all[..|all| - 1] == init && all[|all| - 1] == last;
  }

  /** Every matching label, bundled phrase and custom phrase of a catalog
      pictogram is found. */
  lemma {:induction false} SearchComplete(all: seq<Tagged>, language: string, q: string, table: seq<CustomPhrase>, t: Tagged)
    requires SearchAll(all, language, q, table).Some? && t in all
    ensures TranslationFor(t.picto, language).Some?
    ensures HitsFor(t, language, q, table).Some?
    ensures forall r :: r in HitsFor(t, language, q, table).value ==> r in SearchAll(all, language, q, table).value
    decreases |all|
  {
    var init := all[..|all| - 1];
    var last := all[|all| - 1];
    assert all == init + [last];
    SearchAllSnoc(init, last, language, q, table);
    var rs := SearchAll(init, language, q, table).value;
    var hs := HitsFor(last, language, q, table).value;
    if t == last {
      HitsForExact(last, language, q, table);
      assert forall r :: r in hs ==> r in rs + hs;
    } else {
      assert t in init;
      SearchComplete(init, language, q, table, t);
      assert forall r :: r in rs ==> r in rs + hs;
    }
  }


  /** Pressing any result of a non-blank search says a text that matches. */
  lemma SpokenTextMatches(all: seq<Tagged>, language: string, q: string, table: seq<CustomPhrase>, r: SearchResult)
    requires q != []
    requires SearchAll(all, language, q, table).Some? && r in SearchAll(all, language, q, table).value
    ensures SpokenText(r, language).Some? && Matches(SpokenText(r, language).value, q)
  {
    SearchSound(all, language, q, table);
  }

  // ---------------------------------------------------------------
  // The loops

  /** The loops of `performSearch`: over the catalog, then over each
      pictogram's bundled phrases and over its custom phrases as the store
      returns them. */
  method CollectResults(store: LocalStore, all: seq<Tagged>, language: string, q: string)
    returns (r: Option<seq<SearchResult>>)
    ensures r == SearchAll(all, language, q, store.phrases)
  {
    var results: seq<SearchResult> := [];
    var i := 0;
    while i < |all|
      invariant 0 <= i <= |all|
      invariant SearchAll(all[..i], language, q, store.phrases) == Some(results)
    {
      var picto := all[i];
      var translation := TranslationFor(picto.picto, language);
      if translation.None? {
        SearchFailsIff(all, language, q, store.phrases);
        return None;
      }
      results := PushHitsFor(store, results, picto, translation.value, language, q);
      assert all[..i + 1][..i] == all[..i];
      i := i + 1;
    }
    assert all[..|all|] == all;
    r := Some(results);
  }

  /** The body of the outer loop for a pictogram with texts. */
  method PushHitsFor(store: LocalStore, results: seq<SearchResult>, picto: Tagged, tr: PictogramTranslation, language: string, q: string)
    returns (r: seq<SearchResult>)
    ensures r == results + (LabelHits(picto, tr, q) + PhraseHits(picto, tr.phrases, q) +
      CustomHits(picto, PhrasesOf(store.phrases, picto.picto.id, language), q))
  {
    r := PushLabelHit(results, picto, tr, q);
    r := PushPhraseHits(r, picto, tr.phrases, q);
    var customPhrases := store.GetCustomPhrases(picto.picto.id, language);
    r := PushCustomHits(r, picto, customPhrases, q);
    AppendThree(results, LabelHits(picto, tr, q), PhraseHits(picto, tr.phrases, q), CustomHits(picto, customPhrases, q));
  }

  method PushLabelHit(results: seq<SearchResult>, picto: Tagged, tr: PictogramTranslation, q: string)
    returns (r: seq<SearchResult>)
    ensures r == results + LabelHits(picto, tr, q)
  {
    r := results;
    if Matches(tr.labelText, q) {
      r := r + [PictogramHit(picto)];
    }
  }

  method PushPhraseHits(results: seq<SearchResult>, t: Tagged, phrases: seq<Phrase>, q: string)
    returns (r: seq<SearchResult>)
    ensures r == results + PhraseHits(t, phrases, q)
  {
    r := results;
    var j := 0;
    while j < |phrases|
      invariant 0 <= j <= |phrases|
      invariant r == results + PhraseHits(t, phrases[..j], q)
    {
      var phrase := phrases[j];
      if Matches(phrase.text, q) {
        r := r + [PhraseHit(t, phrase)];
      }
      assert phrases[..j + 1][..j] == phrases[..j];
      j := j + 1;
    }
    assert phrases[..|phrases|] == phrases;
  }

  method PushCustomHits(results: seq<SearchResult>, t: Tagged, customs: seq<CustomPhrase>, q: string)
    returns (r: seq<SearchResult>)
    ensures r == results + CustomHits(t, customs, q)
  {
    r := results;
    var j := 0;
    while j < |customs|
      invariant 0 <= j <= |customs|
      invariant r == results + CustomHits(t, customs[..j], q)
    {
      var customPhrase := customs[j];
      if Matches(customPhrase.text, q) {
        r := r + [CustomHit(t, customPhrase.text, CustomEmoji(customPhrase.emoji))];
      }
      assert customs[..j + 1][..j] == customs[..j];
      j := j + 1;
    }
    assert customs[..|customs|] == customs;
  }

  // ---------------------------------------------------------------
  // The screen

  /** The results after a search: the new ones, or the old ones when it threw. */
  predicate Replaced(before: seq<SearchResult>, after: seq<SearchResult>, found: Option<seq<SearchResult>>) {
    match found
    case None => after == before
    case Some(rs) => after == rs
  }

  class SearchScreen {
    var searchQuery: string
    var results: seq<SearchResult>
    var loading: bool

    constructor()
      ensures searchQuery == [] && results == [] && !loading
    {
      searchQuery := [];
      results := [];
      loading := false;
    }

    /** The text field's `onChangeText`. */
    method ChangeText(typed: string)
      modifies this`searchQuery
      ensures searchQuery == typed
    {
      searchQuery := typed;
    }

    /** The effect run when the query or the language changes: a blank query
        clears the results; any other runs the search on the trimmed query,
        whose results replace the old ones unless it throws, and ends with
        the spinner off. */
    method QueryEffect(store: LocalStore, transport: Option<seq<Pictogram>>, language: string)
      modifies this`results, this`loading
      ensures Trim(searchQuery) == [] ==> results == [] && loading == old(loading)
      ensures Trim(searchQuery) != [] ==>
        !loading && Replaced(old(results), results, Search(transport, language, Trim(searchQuery), store.phrases))
    {
      var query := Trim(searchQuery);
      if query != [] {
        PerformSearch(store, transport, language, query);
      } else {
        results := [];
      }
    }

    /** `performSearch(query)`. */
    method PerformSearch(store: LocalStore, transport: Option<seq<Pictogram>>, language: string, query: string)
      modifies this`results, this`loading
      ensures !loading
      ensures Replaced(old(results), results, Search(transport, language, query, store.phrases))
    {
      loading := true;
      var lowerQuery := Lower(query);
      var all := LoadAllPictograms(transport);
      var found := CollectResults(store, all, language, lowerQuery);
      if found.Some? {
        results := found.value;
      }
      loading := false;
    }
  }
}
