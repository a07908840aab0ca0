/** Speech output. `speak` stops what is being said and hands the text to the
    platform's speech engine with a language, a rate and a pitch, each
    defaulting when missing or falsy; `speakWithPreferences` picks those
    settings from the profile. The engine is outside the model: what it is
    asked to do is the result, and its failures are inputs. */
module Tts {
  import opened Wrappers
  import opened Schema

  const DEFAULT_LOCALE: string := "fr-FR"
  const DEFAULT_RATE: real := 1.0
  const DEFAULT_PITCH: real := 1.0

  /** `getTTSLanguage`: the locale of a supported app language, French
      otherwise. */
  function TtsLanguage(appLanguage: string): string {
    if appLanguage == "fr" then "fr-FR"
    else if appLanguage == "en" then "en-US"
    else if appLanguage == "es" then "es-ES"
    else if appLanguage == "de" then "de-DE"
    else if appLanguage == "it" then "it-IT"
    else DEFAULT_LOCALE
  }

  /** The options a caller passes to `speak`. */
  datatype SpeakOptions = SpeakOptions(language: Option<string>, rate: Option<real>, pitch: Option<real>, voiceId: Option<string>)

  const NO_OPTIONS := SpeakOptions(None, None, None, None)

  /** What the engine is asked to say. */
  datatype Utterance = Utterance(text: string, language: string, rate: real, pitch: real, voice: Option<string>)

  /** What `speak` asks of the engine: stop, then say, unless stopping threw. */
  datatype SpeechCall = Stop | Say(utterance: Utterance)

  function TextOr(s: Option<string>, fallback: string): string {
    if s.Some? && s.value != [] then s.value else fallback
  }

  function NumberOr(x: Option<real>, fallback: real): real {
    if x.Some? && x.value != 0.0 then x.value else fallback
  }

  /** A truthy voice id, or none. */
  function VoiceOf(voiceId: Option<string>): Option<string> {
    if voiceId.Some? && voiceId.value != [] then voiceId else None
  }

  /** The utterance as `speak` builds it: the voice id is neither declared
      nor forwarded, so no voice is ever chosen. */
  function UtteranceAsWritten(text: string, options: SpeakOptions): Utterance {
    Utterance(text, TextOr(options.language, DEFAULT_LOCALE), NumberOr(options.rate, DEFAULT_RATE),
      NumberOr(options.pitch, DEFAULT_PITCH), None)
  }

  /** The utterance with the voice id its callers choose forwarded. */
  function SpeakUtterance(text: string, options: SpeakOptions): Utterance {
    UtteranceAsWritten(text, options).(voice := VoiceOf(options.voiceId))
  }

  /** `speak(text, options)`: the calls made, whatever fails; a failure of
      the engine is caught, so `speak` itself never fails. */
  function Speak(text: string, options: SpeakOptions, stopFails: bool): seq<SpeechCall> {
    if stopFails then [Stop] else [Stop, Say(SpeakUtterance(text, options))]
  }

  /** `isSpeaking()`: the engine's answer, `None` when it threw. */
  function IsSpeaking(answer: Option<bool>): (r: bool)
    ensures r <==> answer == Some(true)
  {
    match answer
    case None => false
    case Some(b) => b
  }

  /** `getAvailableVoices()`: the engine's list, `[]` when it threw. */
  function AvailableVoices<V>(answer: Option<seq<V>>): (r: seq<V>)
    ensures answer.None? ==> r == []
    ensures answer.Some? ==> r == answer.value
  {
    if answer.Some? then answer.value else []
  }

  /** The options `speakWithPreferences(text, override)` passes. `profile` is
      what `getUserProfile` returned, `profileFails` that it threw. */
  function PreferenceOptions(languageOverride: Option<string>, profile: Option<UserProfile>, profileFails: bool): SpeakOptions {
    if profileFails || profile.None? then
      SpeakOptions(Some(TextOr(languageOverride, DEFAULT_LOCALE)), None, None, None)
    else
      var p := profile.value;
      SpeakOptions(Some(TextOr(languageOverride, TtsLanguage(p.language))), Some(p.ttsSpeed), None, VoiceOf(p.ttsVoiceId))
  }

  function SpeakWithPreferences(text: string, languageOverride: Option<string>, profile: Option<UserProfile>,
                                profileFails: bool, stopFails: bool): seq<SpeechCall> {
    Speak(text, PreferenceOptions(languageOverride, profile, profileFails), stopFails)
  }

  // ---------------------------------------------------------------
  // Properties

  /** The five supported languages map to their locales; anything else, the
      empty string included, to French. The result is always one of the
      five locales. */
  lemma TtsLanguageMap(appLanguage: string)
    ensures TtsLanguage("fr") == "fr-FR" && TtsLanguage("en") == "en-US" && TtsLanguage("es") == "es-ES"
    ensures TtsLanguage("de") == "de-DE" && TtsLanguage("it") == "it-IT"
    ensures appLanguage !in {"fr", "en", "es", "de", "it"} ==> TtsLanguage(appLanguage) == DEFAULT_LOCALE
    ensures TtsLanguage(appLanguage) in {"fr-FR", "en-US", "es-ES", "de-DE", "it-IT"}
  {
  }

  /** Every setting falls back to its default when missing or falsy, so the
      engine always gets a language and a non-zero rate and pitch; settings
      that are given are kept. */
  lemma SpeakDefaults(text: string, options: SpeakOptions)
    ensures var u := SpeakUtterance(text, options);
      && u.text == text && u.language != [] && u.rate != 0.0 && u.pitch != 0.0
      && (options.language.None? || options.language.value == [] ==> u.language == DEFAULT_LOCALE)
      && (options.language.Some? && options.language.value != [] ==> u.language == options.language.value)
      && (options.rate.None? || options.rate.value == 0.0 ==> u.rate == DEFAULT_RATE)
      && (options.rate.Some? && options.rate.value != 0.0 ==> u.rate == options.rate.value)
      && (options.pitch.None? || options.pitch.value == 0.0 ==> u.pitch == DEFAULT_PITCH)
  {
  }

  /** Speaking again with an utterance's own settings gives the same
      utterance. */
  lemma SpeakSettled(text: string, options: SpeakOptions)
    ensures var u := SpeakUtterance(text, options);
      SpeakUtterance(text, SpeakOptions(Some(u.language), Some(u.rate), Some(u.pitch), u.voice)) == u
  {
  }

  /** Whatever fails, `speak` returns normally after asking the engine to
      stop; it says the text exactly when stopping worked. */
  lemma SpeakSwallowsErrors(text: string, options: SpeakOptions, stopFails: bool)
    ensures |Speak(text, options, stopFails)| >= 1 && Speak(text, options, stopFails)[0] == Stop
    ensures (exists u :: Say(u) in Speak(text, options, stopFails)) <==> !stopFails
  {
    if !stopFails {
      assert Say(SpeakUtterance(text, options)) in Speak(text, options, stopFails);
    }
  }

  /** As written, the voice a profile chooses never reaches the engine: the
      utterance is the same as with no voice at all. */
  lemma VoiceDroppedAsWritten(text: string, options: SpeakOptions)
    ensures UtteranceAsWritten(text, options) == UtteranceAsWritten(text, options.(voiceId := None))
    ensures UtteranceAsWritten(text, options).voice.None?
  {
  }

  /** With the voice forwarded, a truthy voice id is used and any other
      means the engine's default voice. */
  lemma VoiceForwarded(text: string, options: SpeakOptions)
    ensures options.voiceId.Some? && options.voiceId.value != [] ==> SpeakUtterance(text, options).voice == options.voiceId
    ensures options.voiceId.None? || options.voiceId.value == [] ==> SpeakUtterance(text, options).voice.None?
    ensures SpeakUtterance(text, options).(voice := None) == UtteranceAsWritten(text, options)
  {
  }

  /** Without a profile, or when reading it throws, the override language
      or French is used with the default rate and voice. With a profile, the
      override or the profile's language, the profile's speed and its voice
      when one is set. */
  lemma PreferencesChosen(text: string, languageOverride: Option<string>, profile: Option<UserProfile>, profileFails: bool)
    ensures var u := SpeakUtterance(text, PreferenceOptions(languageOverride, profile, profileFails));
      && (profileFails || profile.None? ==>
            u.language == TextOr(languageOverride, DEFAULT_LOCALE) && u.rate == DEFAULT_RATE && u.voice.None?)
      && (!profileFails && profile.Some? ==>
            && u.language == TextOr(languageOverride, TtsLanguage(profile.value.language))
            && u.rate == NumberOr(Some(profile.value.ttsSpeed), DEFAULT_RATE)
            && u.voice == VoiceOf(profile.value.ttsVoiceId))
      && u.pitch == DEFAULT_PITCH
  {
  }

  /** A failure to read the profile is handled as having no profile, and a
      truthy override always decides the language. */
  lemma PreferencesFallback(text: string, languageOverride: Option<string>, profile: Option<UserProfile>, stopFails: bool)
    ensures SpeakWithPreferences(text, languageOverride, profile, true, stopFails) ==
            SpeakWithPreferences(text, languageOverride, None, false, stopFails)
    ensures languageOverride.Some? && languageOverride.value != [] ==>
      forall fails: bool :: SpeakUtterance(text, PreferenceOptions(languageOverride, profile, fails)).language == languageOverride.value
  {
  }
}
