/** Validation of studio nodes before a bot configuration is saved
    (frontend/src/studio/nodes/nodeValidators.ts). Every validator returns ok, or an
    error carrying a Russian message shown to the user. */
module NodeValidators {
  import opened Base
  import opened Strings
  import opened Localization
  import opened FlowTypes
  import opened TsResult
  import DefaultConfigs

  datatype ValidationError = ValidationError(error: string)

  type Validation = Result<(), ValidationError>

  /** What a valid text is, independently of the messages: without a language
      configuration it must be a non-empty plain string; with one, it must be a
      translation map with a non-empty text for every supported language. */
  predicate TextIsValid(text: LocalizableText, langConfig: Option<LanguageConfig>)
  {
    match langConfig
    case None => text.Plain? && text.text != ""
    case Some(lc) =>
      forall c :: c in lc.supportedLanguageCodes ==> text.Localized? && HasText(text.entries, c)
  }

  /** The supported languages a text lacks, in the order of the configuration. */
  function MissingLanguages(text: LocalizableText, codes: seq<string>): (r: seq<string>)
    ensures forall c :: c in r <==> c in codes && !(text.Localized? && HasText(text.entries, c))
  {
    match text
    case Plain(_) => codes
    case Localized(e) =>
      var p := (c: string) => !HasText(e, c);
      forall c ensures c in Filter(codes, p) <==> c in codes && p(c) { FilterMembership(codes, p, c); }
      Filter(codes, p)
  }

  function ValidateLocalizableText(text: LocalizableText, textName: string, langConfig: Option<LanguageConfig>): (r: Validation)
    ensures r.Ok? <==> TextIsValid(text, langConfig)
    ensures r.Err? && langConfig.None? && text.Localized? ==>
      r.error.error == textName + ": Задана локализация (" + Join(Keys(text.entries), ", ") + "), но в боте нет выбора языков"
    ensures r.Err? && langConfig.None? && text.Plain? ==> r.error.error == textName + ": не заполнен"
    ensures r.Err? && langConfig.Some? ==>
      r.error.error == textName + ": отсутствует локализация на языки: " + Join(MissingLanguages(text, langConfig.value.supportedLanguageCodes), ", ")
  {
    match langConfig
    case None =>
      if text.Localized? then
        Err(ValidationError(textName + ": Задана локализация (" + Join(Keys(text.entries), ", ") + "), но в боте нет выбора языков"))
      else if |text.text| == 0 then
        Err(ValidationError(textName + ": не заполнен"))
      else
        Ok(())
    case Some(lc) =>
      var missing := MissingLanguages(text, lc.supportedLanguageCodes);
      if |missing| > 0 then
        assert missing[0] in missing;
        Err(ValidationError(textName + ": отсутствует локализация на языки: " + Join(missing, ", ")))
      else
        Ok(())
  }

  /** The messages of the failed results that are not empty, in order. */
  function ErrorTexts(results: seq<Validation>): seq<string>
  {
    Filter(Map(results, (res: Validation) => if res.Ok? then "" else res.error.error), (s: string) => s != "")
  }

  lemma ErrorTextsMembership(results: seq<Validation>, s: string)
    ensures s in ErrorTexts(results) <==> s != "" && exists i :: 0 <= i < |results| && results[i].Err? && results[i].error.error == s
  {
    var texts := Map(results, (res: Validation) => if res.Ok? then "" else res.error.error);
    FilterMembership(texts, (t: string) => t != "", s);
    if s in texts && s != "" {
      var i :| 0 <= i < |texts| && texts[i] == s;
      assert results[i].Err? && results[i].error.error == s;
    }
  }

  /** `mergeResults`: ok when every result is; otherwise one error joining the
      non-empty messages with "; ". */
  function MergeResults(results: seq<Validation>): (r: Validation)
    ensures r.Ok? <==> forall i :: 0 <= i < |results| ==> results[i].Ok?
    ensures r.Err? ==> r.error.error == Join(ErrorTexts(results), "; ")
  {
    if exists i :: 0 <= i < |results| && results[i].Err? then
      Err(ValidationError(Join(ErrorTexts(results), "; ")))
    else
      Ok(())
  }

  function ContentTextName(idx: nat): string
  {
    "Текст #" + NatToString(idx + 1)
  }

  function ContentResults(contents: seq<Content>, langConfig: Option<LanguageConfig>): (rs: seq<Validation>)
    ensures |rs| == |contents|
    ensures forall i :: 0 <= i < |contents| ==>
      rs[i] == if contents[i].text.Some? then ValidateLocalizableText(contents[i].text.value.text, ContentTextName(i), langConfig) else Ok(())
  {
    seq(|contents|, i requires 0 <= i < |contents| =>
      if contents[i].text.Some? then ValidateLocalizableText(contents[i].text.value.text, ContentTextName(i), langConfig) else Ok(()))
  }

  /** A content block is valid when every content that has a text has a valid one;
      contents without text (attachments only) are not checked. */
  function ValidateContentBlock(config: ContentBlock, langConfig: Option<LanguageConfig>): (r: Validation)
    ensures r.Ok? <==> forall i :: 0 <= i < |config.contents| && config.contents[i].text.Some? ==>
      TextIsValid(config.contents[i].text.value.text, langConfig)
    ensures r.Err? ==> r.error.error == Join(ErrorTexts(ContentResults(config.contents, langConfig)), "; ")
  {
    MergeResults(ContentResults(config.contents, langConfig))
  }

  /** A human-operator block is invalid exactly when no admin chat was chosen. */
  function ValidateHumanOperatorBlock(config: HumanOperatorBlock, langConfig: Option<LanguageConfig>): (r: Validation)
    ensures r.Ok? <==> config.feedbackHandlerConfig.adminChatId != DefaultConfigs.PLACEHOLDER_GROUP_CHAT_ID
    ensures r.Err? ==> r.error.error == "Не выбран админ-чат"
  {
    if config.feedbackHandlerConfig.adminChatId == DefaultConfigs.PLACEHOLDER_GROUP_CHAT_ID then
      Err(ValidationError("Не выбран админ-чат"))
    else
      Ok(())
  }

  /** The checks of a language-selection block, in the order they are reported. */
  function ValidateLanguageSelectBlock(config: LanguageSelectBlock, langConfig: Option<LanguageConfig>): (r: Validation)
    ensures r.Ok? <==>
      |config.supportedLanguages| > 0 && config.defaultLanguage != "" && config.defaultLanguage in config.supportedLanguages
      && TextIsValid(Localized(config.menuConfig.propmt), langConfig)
    ensures |config.supportedLanguages| == 0 ==> r == Err(ValidationError("Не выбраны поддерживаемые языки"))
    ensures |config.supportedLanguages| > 0 && config.defaultLanguage == "" ==> r == Err(ValidationError("Не выбран язык по умолчанию"))
    ensures |config.supportedLanguages| > 0 && config.defaultLanguage != "" && config.defaultLanguage !in config.supportedLanguages ==>
      r == Err(ValidationError("Язык по умолчанию не входит в список поддерживаемых языков"))
    ensures |config.supportedLanguages| > 0 && config.defaultLanguage != "" && config.defaultLanguage in config.supportedLanguages ==>
      r == ValidateLocalizableText(Localized(config.menuConfig.propmt), "Текст в сообщении-меню", langConfig)
  {
    if |config.supportedLanguages| == 0 then
      Err(ValidationError("Не выбраны поддерживаемые языки"))
    else if config.defaultLanguage == "" then
      Err(ValidationError("Не выбран язык по умолчанию"))
    else if config.defaultLanguage !in config.supportedLanguages then
      Err(ValidationError("Язык по умолчанию не входит в список поддерживаемых языков"))
    else
      ValidateLocalizableText(Localized(config.menuConfig.propmt), "Текст в сообщении-меню", langConfig)
  }

  /** The prompt of a language-selection menu is always a translation map, so without a
      language configuration the block can never be valid. */
  lemma LanguageSelectNeedsLanguages(config: LanguageSelectBlock)
    ensures ValidateLanguageSelectBlock(config, None).Err?
  {
  }

  function MessageResults(messages: FormMessages, langConfig: Option<LanguageConfig>): (rs: seq<Validation>)
    ensures |rs| == |messages|
    ensures forall i :: 0 <= i < |messages| ==> rs[i] == ValidateLocalizableText(messages[i].1, messages[i].0, langConfig)
  {
    seq(|messages|, i requires 0 <= i < |messages| => ValidateLocalizableText(messages[i].1, messages[i].0, langConfig))
  }

  /** A form needs at least one member, valid texts for all its messages (each named by
      its key) and at least one way to handle results, checked in that order. */
  function ValidateFormBlock(config: FormBlock, langConfig: Option<LanguageConfig>): (r: Validation)
    ensures r.Ok? <==>
      |config.members| > 0
      && (forall i :: 0 <= i < |config.messages| ==> TextIsValid(config.messages[i].1, langConfig))
      && (config.resultsExport.echoToUser || config.resultsExport.toChat.Some?)
    ensures |config.members| == 0 ==> r == Err(ValidationError("В форму не добавлено ни одного поля"))
    ensures |config.members| > 0 && MergeResults(MessageResults(config.messages, langConfig)).Err? ==>
      r == Err(ValidationError(Join(ErrorTexts(MessageResults(config.messages, langConfig)), "; ")))
    ensures (|config.members| > 0 && MergeResults(MessageResults(config.messages, langConfig)).Ok?
             && !config.resultsExport.echoToUser && config.resultsExport.toChat.None?) ==>
      r == Err(ValidationError("Не выбрана обработка результатов формы"))
  {
    if |config.members| == 0 then
      Err(ValidationError("В форму не добавлено ни одного поля"))
    else
      var messagesResult := MergeResults(MessageResults(config.messages, langConfig));
      if messagesResult.Err? then
        messagesResult
      else if !(config.resultsExport.echoToUser || config.resultsExport.toChat.Some?) then
        Err(ValidationError("Не выбрана обработка результатов формы"))
      else
        Ok(())
  }

  /** A new human-operator block is invalid until an admin chat is chosen. */
  lemma DefaultHumanOperatorIsInvalid(id: string, t: string -> string, langConfig: Option<LanguageConfig>)
    ensures ValidateHumanOperatorBlock(DefaultConfigs.DefaultHumanOperatorBlockConfig(id, t).humanOperator.value, langConfig)
      == Err(ValidationError("Не выбран админ-чат"))
  {
  }

  /** A new language-selection block is invalid until supported languages are chosen. */
  lemma DefaultLanguageSelectIsInvalid(id: string, langConfig: Option<LanguageConfig>)
    ensures ValidateLanguageSelectBlock(DefaultConfigs.DefaultLanguageSelectBlockConfig(id).languageSelect.value, langConfig)
      == Err(ValidationError("Не выбраны поддерживаемые языки"))
  {
  }

  /** The back label of a new menu is always a valid text for the language configuration
      it was created under. */
  lemma DefaultBackLabelIsValid(langConfig: Option<LanguageConfig>)
    ensures TextIsValid(DefaultConfigs.DefaultBackLabel(langConfig), langConfig)
  {
    var r := DefaultConfigs.DefaultBackLabel(langConfig);
    if langConfig.Some? {
      forall c | c in langConfig.value.supportedLanguageCodes ensures HasText(r.entries, c) {
        assert Lookup(r.entries, c) == Some(DefaultConfigs.BACK_LABEL);
      }
    }
  }

  /** A new content block is valid without a language configuration exactly when the
      translated default text is non-empty, and never valid with a language
      configuration that has a supported language (its text is a plain string). */
  lemma DefaultContentBlockValidity(id: string, t: string -> string, langConfig: Option<LanguageConfig>)
    ensures langConfig.None? ==>
      (ValidateContentBlock(DefaultConfigs.DefaultContentBlockConfig(id, t).content.value, langConfig).Ok?
       <==> t("studio.defaults.text_content") != "")
    ensures langConfig.Some? && |langConfig.value.supportedLanguageCodes| > 0 ==>
      ValidateContentBlock(DefaultConfigs.DefaultContentBlockConfig(id, t).content.value, langConfig).Err?
  {
    var block := DefaultConfigs.DefaultContentBlockConfig(id, t).content.value;
    assert block.contents[0].text.Some?;
    if langConfig.Some? && |langConfig.value.supportedLanguageCodes| > 0 {
      assert langConfig.value.supportedLanguageCodes[0] in langConfig.value.supportedLanguageCodes;
    }
  }
}
