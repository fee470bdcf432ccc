/** Prefilling form messages with texts the user entered in earlier forms
    (frontend/src/studio/nodes/FormBlock/prefill.ts). The texts remembered in the
    browser's local storage are given as values: `existing` is what was loaded. */
module Prefill {
  import opened Base
  import opened Localization
  import opened FlowTypes
  import NodeValidators

  const PREFILLABLE_FORM_ERROR_KEYS: seq<string> := [
    "empty_text_error_msg",
    "not_an_integer_error_msg",
    "not_an_integer_list_error_msg",
    "bad_time_format_msg",
    "invalid_enum_error_msg",
    "attachments_expected_error_msg",
    "only_one_media_message_allowed_error_msg",
    "bad_attachment_type_error_msg",
    "please_use_inline_menu"
  ]

  const PREFILLABLE_FORM_MESSAGE_KEYS: seq<string> := [
    "field_is_skippable",
    "field_is_not_skippable",
    "cancel_command_is",
    "please_enter_correct_value",
    "unsupported_command"
  ]

  const PREFILLABLE_KEYS: seq<string> := PREFILLABLE_FORM_MESSAGE_KEYS + PREFILLABLE_FORM_ERROR_KEYS + ["anti_spam_warning"]

  /** Remembered texts: for each prefillable key, a map from language to text. */
  type PrefilledMessages = map<string, Entries>

  function MessagesFor(pm: PrefilledMessages, key: string): Entries
  {
    if key in pm then pm[key] else []
  }

  /** What `savePrefilledMessages` stores under `key`: the remembered texts with the
      update's texts put over them. */
  function MergedEntry(existing: PrefilledMessages, update: PrefilledMessages, key: string): Entries
  {
    Spread(Spread([], MessagesFor(existing, key)), MessagesFor(update, key))
  }

  /** `savePrefilledMessages`: the value written back to storage, with an entry for
      every prefillable key and nothing else. */
  method SavePrefilledMessages(existing: PrefilledMessages, update: PrefilledMessages) returns (merged: PrefilledMessages)
    ensures merged.Keys == set k | k in PREFILLABLE_KEYS
    ensures forall k :: k in merged ==> merged[k] == MergedEntry(existing, update, k)
  {
    merged := map[];
    for j := 0 to |PREFILLABLE_KEYS|
      invariant forall k :: k in merged <==> k in PREFILLABLE_KEYS[..j]
      invariant forall k :: k in merged ==> merged[k] == MergedEntry(existing, update, k)
    {
      var key := PREFILLABLE_KEYS[j];
      merged := merged[key := Spread(Spread([], MessagesFor(existing, key)), MessagesFor(update, key))];
      assert PREFILLABLE_KEYS[..j + 1] == PREFILLABLE_KEYS[..j] + [key];
    }
    assert PREFILLABLE_KEYS[..|PREFILLABLE_KEYS|] == PREFILLABLE_KEYS;
    assert forall k :: k in merged.Keys <==> k in PREFILLABLE_KEYS;
  }

  /** After saving, a language the update has a text for takes that text; every other
      language keeps the remembered one. */
  lemma SavedTextLookup(existing: PrefilledMessages, update: PrefilledMessages, key: string, lang: string)
    requires Distinct(Keys(MessagesFor(existing, key))) && Distinct(Keys(MessagesFor(update, key)))
    ensures Lookup(MergedEntry(existing, update, key), lang) ==
      if Lookup(MessagesFor(update, key), lang).Some? then Lookup(MessagesFor(update, key), lang)
      else Lookup(MessagesFor(existing, key), lang)
  {
    LookupSpread(Spread([], MessagesFor(existing, key)), MessagesFor(update, key), lang);
    LookupSpread([], MessagesFor(existing, key), lang);
    LastLookupDistinct(MessagesFor(update, key), lang);
    LastLookupDistinct(MessagesFor(existing, key), lang);
  }

  function TextOrEmpty(messages: Entries): string -> string
  {
    (lang: string) => Lookup(messages, lang).GetOr("")
  }

  /** `prefilledMessage`: without a language configuration, the remembered text in the
      interface language, else the English one, else the empty string; with one, a map
      giving every supported language its remembered text or the empty string. */
  function PrefilledMessage(pm: PrefilledMessages, key: string, langConfig: Option<LanguageConfig>, locale: string): (r: LocalizableText)
    ensures langConfig.None? <==> r.Plain?
    ensures langConfig.None? && locale != "" && HasText(MessagesFor(pm, key), locale) ==>
      r.text == Lookup(MessagesFor(pm, key), locale).value
    ensures langConfig.None? && !(locale != "" && HasText(MessagesFor(pm, key), locale)) && HasText(MessagesFor(pm, key), "en") ==>
      r.text == Lookup(MessagesFor(pm, key), "en").value
    ensures langConfig.None? && !(locale != "" && HasText(MessagesFor(pm, key), locale)) && !HasText(MessagesFor(pm, key), "en") ==>
      r.text == ""
    ensures langConfig.Some? ==> forall lang ::
      (lang in Keys(r.entries) <==> lang in langConfig.value.supportedLanguageCodes)
      && Lookup(r.entries, lang) == if lang in langConfig.value.supportedLanguageCodes then Some(Lookup(MessagesFor(pm, key), lang).GetOr("")) else None
  {
    var messages := MessagesFor(pm, key);
    match langConfig
    case None =>
      if locale != "" && HasText(messages, locale) then Plain(Lookup(messages, locale).value)
      else if HasText(messages, "en") then Plain(Lookup(messages, "en").value)
      else Plain("")
    case Some(lc) =>
      var f := TextOrEmpty(messages);
      forall lang ensures
        (lang in Keys(Spread([], EntriesFor(lc.supportedLanguageCodes, f))) <==> lang in lc.supportedLanguageCodes)
        && Lookup(Spread([], EntriesFor(lc.supportedLanguageCodes, f)), lang) == if lang in lc.supportedLanguageCodes then Some(f(lang)) else None
      {
        FromEntriesFor(lc.supportedLanguageCodes, f, lang);
      }
      Localized(Spread([], EntriesFor(lc.supportedLanguageCodes, f)))
  }

  /** `applyPrefilledMessage`: a text that is already valid is kept; otherwise the prefill
      is used, and a translation map keeps every translation the text already had. */
  function ApplyPrefilledMessage(pm: PrefilledMessages, key: string, langConfig: Option<LanguageConfig>, locale: string, existing: LocalizableText): (r: LocalizableText)
    ensures NodeValidators.TextIsValid(existing, langConfig) ==> r == existing
    ensures !NodeValidators.TextIsValid(existing, langConfig) && langConfig.None? ==> r == PrefilledMessage(pm, key, langConfig, locale)
    ensures !NodeValidators.TextIsValid(existing, langConfig) && langConfig.Some? ==> r.Localized?
  {
    if NodeValidators.ValidateLocalizableText(existing, "", langConfig).Ok? then existing
    else
      var prefill := PrefilledMessage(pm, key, langConfig, locale);
      if prefill.Plain? then prefill
      else Localized(Spread(Spread([], prefill.entries), if existing.Localized? then existing.entries else []))
  }

  /** With a language configuration, prefilling never drops or overwrites a translation
      the text already has (even an empty one), and fills each other supported language
      from the remembered texts. */
  lemma PrefillKeepsTranslations(pm: PrefilledMessages, key: string, lc: LanguageConfig, locale: string, existing: LocalizableText, lang: string)
    requires existing.Localized? ==> Distinct(Keys(existing.entries))
    requires !NodeValidators.TextIsValid(existing, Some(lc))
    ensures existing.Localized? && Lookup(existing.entries, lang).Some? ==>
      Lookup(ApplyPrefilledMessage(pm, key, Some(lc), locale, existing).entries, lang) == Lookup(existing.entries, lang)
    ensures !(existing.Localized? && Lookup(existing.entries, lang).Some?) && lang in lc.supportedLanguageCodes ==>
      Lookup(ApplyPrefilledMessage(pm, key, Some(lc), locale, existing).entries, lang) == Some(Lookup(MessagesFor(pm, key), lang).GetOr(""))
  {
    var prefill := PrefilledMessage(pm, key, Some(lc), locale);
    var own := if existing.Localized? then existing.entries else [];
    LookupSpread(Spread([], prefill.entries), own, lang);
    LookupSpread([], prefill.entries, lang);
    if existing.Localized? { LastLookupDistinct(own, lang); }
    SpreadDistinct([], EntriesFor(lc.supportedLanguageCodes, TextOrEmpty(MessagesFor(pm, key))));
    LastLookupDistinct(prefill.entries, lang);
  }

  /** With a language configuration, prefilling yields a valid text whenever each
      supported language has a non-empty translation already, or none at all and a
      non-empty remembered text. */
  lemma PrefillCompletesText(pm: PrefilledMessages, key: string, lc: LanguageConfig, locale: string, existing: LocalizableText)
    requires existing.Localized? ==> Distinct(Keys(existing.entries))
    requires forall c :: c in lc.supportedLanguageCodes ==>
      if existing.Localized? && Lookup(existing.entries, c).Some? then HasText(existing.entries, c)
      else HasText(MessagesFor(pm, key), c)
    ensures NodeValidators.TextIsValid(ApplyPrefilledMessage(pm, key, Some(lc), locale, existing), Some(lc))
  {
    if !NodeValidators.TextIsValid(existing, Some(lc)) {
      var r := ApplyPrefilledMessage(pm, key, Some(lc), locale, existing);
      forall c | c in lc.supportedLanguageCodes ensures HasText(r.entries, c) {
        PrefillKeepsTranslations(pm, key, lc, locale, existing, c);
      }
    }
  }

  function ApplyToEntry(pm: PrefilledMessages, langConfig: Option<LanguageConfig>, locale: string, entry: (string, LocalizableText)): LocalizableText
  {
    if entry.0 in PREFILLABLE_KEYS then ApplyPrefilledMessage(pm, entry.0, langConfig, locale, entry.1) else entry.1
  }

  /** One round of the loop in `updatedWithPrefilled`: the message under `key`, if any,
      is prefilled and every other message is kept. */
  function PrefillKey(ms: FormMessages, key: string, pm: PrefilledMessages, langConfig: Option<LanguageConfig>, locale: string)
    : (r: FormMessages)
    ensures |r| == |ms|
    ensures forall i :: 0 <= i < |ms| ==>
      r[i] == if ms[i].0 == key then (key, ApplyPrefilledMessage(pm, key, langConfig, locale, ms[i].1)) else ms[i]
  {
    seq(|ms|, i requires 0 <= i < |ms| =>
      if ms[i].0 == key then (key, ApplyPrefilledMessage(pm, key, langConfig, locale, ms[i].1)) else ms[i])
  }

  /** The message as prefilled for the keys handled so far. */
  function PrefilledSoFar(keys: seq<string>, pm: PrefilledMessages, langConfig: Option<LanguageConfig>, locale: string,
                          entry: (string, LocalizableText)): LocalizableText
  {
    if entry.0 in keys then ApplyPrefilledMessage(pm, entry.0, langConfig, locale, entry.1) else entry.1
  }

  /** `updatedWithPrefilled`: a copy of the messages in which every message under a
      prefillable key is prefilled; other messages, and the order, are kept. */
  method UpdatedWithPrefilled(messages: FormMessages, pm: PrefilledMessages, langConfig: Option<LanguageConfig>, locale: string)
    returns (out: FormMessages)
    ensures |out| == |messages|
    ensures forall i :: 0 <= i < |messages| ==>
      out[i].0 == messages[i].0 && out[i].1 == ApplyToEntry(pm, langConfig, locale, messages[i])
  {
    out := messages;
    for j := 0 to |PREFILLABLE_KEYS|
      invariant |out| == |messages|
      invariant forall i :: 0 <= i < |messages| ==>
        out[i] == (messages[i].0, PrefilledSoFar(PREFILLABLE_KEYS[..j], pm, langConfig, locale, messages[i]))
    {
      var key := PREFILLABLE_KEYS[j];
      assert PREFILLABLE_KEYS[..j + 1] == PREFILLABLE_KEYS[..j] + [key];
      assert key !in PREFILLABLE_KEYS[..j];
      var before := out;
      out := PrefillKey(before, key, pm, langConfig, locale);
      forall i | 0 <= i < |messages|
        ensures out[i] == (messages[i].0, PrefilledSoFar(PREFILLABLE_KEYS[..j + 1], pm, langConfig, locale, messages[i]))
      {
        if messages[i].0 == key {
          assert before[i] == messages[i];
        }
      }
    }
    assert PREFILLABLE_KEYS[..|PREFILLABLE_KEYS|] == PREFILLABLE_KEYS;
  }

  /** The form's start message is not among the prefillable keys, so prefilling never
      changes it. */
  lemma FormStartNeverPrefilled(pm: PrefilledMessages, langConfig: Option<LanguageConfig>, locale: string, text: LocalizableText)
    ensures |PREFILLABLE_FORM_MESSAGE_KEYS| == 5 && "form_start" !in PREFILLABLE_KEYS
    ensures ApplyToEntry(pm, langConfig, locale, ("form_start", text)) == text
  {
  }
}
