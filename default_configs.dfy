/** The configurations a new node starts with when it is added in the studio
    (frontend/src/studio/nodes/defaultConfigs.ts). The i18n formatter `t` is a parameter. */
module DefaultConfigs {
  import opened Base
  import opened Localization
  import opened FlowTypes
  import TypeUtils
  import Display

  /** The admin chat id of a human-operator block whose chat has not been chosen yet. */
  const PLACEHOLDER_GROUP_CHAT_ID: int := 0

  const BACK_LABEL: string := "⬅️⬅️⬅️"

  /** A new command entrypoint: the private command "command", with no description,
      leading nowhere yet. */
  function DefaultCommandEntrypoint(id: string): (r: EntryPointConfig)
    ensures r.command.Some? && r.catchAll.None? && r.regex.None?
    ensures var c := r.command.value;
      c.entrypointId == id && c.command == "command" && c.scope == Some("private")
      && c.shortDescription.None? && c.nextBlockId.None?
  {
    EntryPointConfig(Some(CommandEntryPoint(id, "command", None, Some("private"), None)), None, None)
  }

  /** A new content block: one markdown text, the translated default, with no
      attachments, leading nowhere yet. */
  function DefaultContentBlockConfig(id: string, t: string -> string): (r: BlockConfig)
    ensures r.content.Some? && r.humanOperator.None? && r.menu.None? && r.form.None? && r.languageSelect.None?
    ensures var b := r.content.value;
      b.blockId == id && b.nextBlockId.None? && |b.contents| == 1
      && b.contents[0].attachments == []
      && b.contents[0].text == Some(ContentText(Plain(t("studio.defaults.text_content")), Markdown))
  {
    var content := Content(Some(ContentText(Plain(t("studio.defaults.text_content")), Markdown)), []);
    BlockConfig(Some(ContentBlock(id, [content], None)), None, None, None, None)
  }

  /** A new human-operator block: no admin chat chosen yet, anonymised users, at most 10
      messages a minute, no forum topics and no hashtags, the message log on, an empty
      confirmation to the user and the translated default messages otherwise. */
  function DefaultHumanOperatorBlockConfig(id: string, t: string -> string): (r: BlockConfig)
    ensures r.humanOperator.Some? && r.content.None? && r.menu.None? && r.form.None? && r.languageSelect.None?
    ensures var b := r.humanOperator.value; var f := b.feedbackHandlerConfig;
      b.blockId == id && !b.catchAll
      && f.adminChatId == PLACEHOLDER_GROUP_CHAT_ID && !f.forumTopicPerUser && f.anonimyzeUsers
      && f.maxMessagesPerMinute == 10
      && f.messagesToUser == MessagesToUser(Plain(""), Plain(t("studio.defaults.throttling_msg")))
      && f.messagesToAdmin == MessagesToAdmin(t("studio.defaults.copied_to_user"), t("studio.defaults.deleted_message"), t("studio.defaults.failed_to_delete"))
      && !f.hashtagsInAdminChat && f.hashtagMessageRarerThan.None? && f.unansweredHashtag.None?
      && f.messageLogToAdminChat
  {
    var feedback := FeedbackHandlerConfig(
      PLACEHOLDER_GROUP_CHAT_ID, false, true, 10,
      MessagesToUser(Plain(""), Plain(t("studio.defaults.throttling_msg"))),
      MessagesToAdmin(t("studio.defaults.copied_to_user"), t("studio.defaults.deleted_message"), t("studio.defaults.failed_to_delete")),
      false, None, None, true);
    BlockConfig(None, Some(HumanOperatorBlock(id, false, feedback)), None, None, None)
  }

  /** The menu mechanisms of the existing menu blocks, in block order. */
  function MenuMechanisms(blocks: seq<BlockConfig>): seq<MenuMechanism>
  {
    Values(Map(blocks, (b: BlockConfig) => if b.menu.Some? then Some(b.menu.value.menu.config.mechanism) else None))
  }

  /** Occurrence counts in a JavaScript `Map`, whose entries keep insertion order. */
  type Tally = seq<(MenuMechanism, nat)>

  /** `acc.set(m, (acc.get(m) || 0) + 1)`: an existing entry is incremented in place, a
      new one is appended with count 1. */
  function Bump(acc: Tally, m: MenuMechanism): Tally
  {
    if acc == [] then [(m, 1)]
    else if acc[0].0 == m then [(m, acc[0].1 + 1)] + acc[1..]
    else [acc[0]] + Bump(acc[1..], m)
  }

  /** The `reduce` over the mechanisms, from left to right. */
  function TallyOf(ms: seq<MenuMechanism>): Tally
    decreases |ms|
  {
    if ms == [] then [] else Bump(TallyOf(ms[..|ms| - 1]), ms[|ms| - 1])
  }

  /** Reference tally: each key with its number of occurrences in `ms`. */
  function CountsFor(keys: seq<MenuMechanism>, ms: seq<MenuMechanism>): (r: Tally)
    ensures |r| == |keys|
    ensures forall i :: 0 <= i < |keys| ==> r[i] == (keys[i], Count(ms, keys[i]))
  {
    if keys == [] then [] else [(keys[0], Count(ms, keys[0]))] + CountsFor(keys[1..], ms)
  }

  /** The index of the first entry of least count: the head of the entries sorted by
      ascending count with the stable `toSorted`. */
  function LeastIndex(t: Tally): (k: nat)
    requires |t| > 0
    ensures k < |t|
    ensures forall i :: 0 <= i < |t| ==> t[k].1 <= t[i].1
    ensures forall j :: 0 <= j < k ==> t[j].1 > t[k].1
  {
    if |t| == 1 then 0
    else
      var k := LeastIndex(t[1..]);
      if t[k + 1].1 < t[0].1 then k + 1 else 0
  }

  /** The mechanism `defaultMenuBlockConfig` picks: with no menu, inline buttons;
      otherwise the mechanism of least count among the existing menus, ties going to the
      one seen first. */
  function DefaultMenuMechanism(blocks: seq<BlockConfig>): (m: MenuMechanism)
    ensures MenuMechanisms(blocks) == [] ==> m == InlineButtons
    ensures MenuMechanisms(blocks) != [] ==> LeastFrequentFirst(MenuMechanisms(blocks), m)
  {
    var ms := MenuMechanisms(blocks);
    var tally := TallyOf(ms);
    if ms != [] then
      LeastOfTally(ms);
      tally[LeastIndex(tally)].0
    else InlineButtons
  }

  /** `Object.fromEntries` over the supported codes, or the plain label. */
  function DefaultBackLabel(langConfig: Option<LanguageConfig>): (r: LocalizableText)
    ensures langConfig.None? <==> r.Plain?
    ensures r.Plain? ==> r.text == BACK_LABEL
    ensures langConfig.Some? ==> forall lang ::
      (lang in Keys(r.entries) <==> lang in langConfig.value.supportedLanguageCodes)
      && Lookup(r.entries, lang) == if lang in langConfig.value.supportedLanguageCodes then Some(BACK_LABEL) else None
  {
    match langConfig
    case None => Plain(BACK_LABEL)
    case Some(lc) =>
      var f := (lang: string) => BACK_LABEL;
      forall lang ensures
        (lang in Keys(Spread([], EntriesFor(lc.supportedLanguageCodes, f))) <==> lang in lc.supportedLanguageCodes)
        && Lookup(Spread([], EntriesFor(lc.supportedLanguageCodes, f)), lang) == if lang in lc.supportedLanguageCodes then Some(BACK_LABEL) else None
      {
        FromEntriesFor(lc.supportedLanguageCodes, f, lang);
      }
      Localized(Spread([], EntriesFor(lc.supportedLanguageCodes, f)))
  }

  /** `defaultMenuBlockConfig`; only the blocks of the current configuration are read. */
  function DefaultMenuBlockConfig(id: string, langConfig: Option<LanguageConfig>, currentBlocks: seq<BlockConfig>): (r: BlockConfig)
    ensures r.menu.Some? && r.content.None? && r.humanOperator.None? && r.form.None? && r.languageSelect.None?
    ensures var b := r.menu.value;
      b.blockId == id && b.menu.text == Plain("") && b.menu.markup == Markdown && b.menu.items == []
      && b.menu.config.mechanism == DefaultMenuMechanism(currentBlocks)
      && b.menu.config.backLabel == Some(DefaultBackLabel(langConfig))
      && !b.menu.config.lockAfterTermination
  {
    var config := MenuConfig(DefaultMenuMechanism(currentBlocks), Some(DefaultBackLabel(langConfig)), false);
    BlockConfig(None, None, Some(MenuBlock(id, Menu(Plain(""), Markdown, [], config))), None, None)
  }

  /** A new language-select block: no prompt, no supported languages and an empty
      default language, emoji buttons on, not blocking, leading nowhere yet. */
  function DefaultLanguageSelectBlockConfig(id: string): (r: BlockConfig)
    ensures r.languageSelect.Some? && r.content.None? && r.humanOperator.None? && r.menu.None? && r.form.None?
    ensures var b := r.languageSelect.value;
      b.blockId == id && b.menuConfig.propmt == [] && !b.menuConfig.isBlocking && b.menuConfig.emojiButtons
      && b.supportedLanguages == [] && b.defaultLanguage == "" && b.languageSelectedNextBlockId.None?
  {
    var block := LanguageSelectBlock(id, LanguageSelectionMenuConfig([], false, true), [], "", None);
    BlockConfig(None, None, None, None, Some(block))
  }

  lemma {:induction false} CountsForUnaffected(keys: seq<MenuMechanism>, p: seq<MenuMechanism>, x: MenuMechanism)
    requires x !in keys
    ensures CountsFor(keys, p + [x]) == CountsFor(keys, p)
  {
    forall i | 0 <= i < |keys| ensures Count(p + [x], keys[i]) == Count(p, keys[i]) {
      CountAppend(p, x, keys[i]);
    }
  }

  /** One step of the `reduce` keeps the tally equal to the reference counts. */
  lemma {:induction false} BumpCountsFor(keys: seq<MenuMechanism>, p: seq<MenuMechanism>, x: MenuMechanism)
    requires Distinct(keys)
    ensures x in keys ==> Bump(CountsFor(keys, p), x) == CountsFor(keys, p + [x])
    ensures x !in keys ==> Bump(CountsFor(keys, p), x) == CountsFor(keys, p + [x]) + [(x, 1)]
  {
    if keys == [] {
    } else {
      var rest := keys[1..];
      assert Distinct(rest);
      CountAppend(p, x, keys[0]);
      BumpCountsFor(rest, p, x);
      if keys[0] == x {
        assert x !in rest;
        CountsForUnaffected(rest, p, x);
      }
    }
  }

  lemma {:induction false} CountsForAppend(keys: seq<MenuMechanism>, x: MenuMechanism, ms: seq<MenuMechanism>)
    ensures CountsFor(keys + [x], ms) == CountsFor(keys, ms) + [(x, Count(ms, x))]
  {
  }

  /** The `reduce` builds the mechanisms in the order they are first seen, each with its
      number of occurrences. */
  lemma {:induction false} TallyOfCounts(ms: seq<MenuMechanism>)
    ensures TallyOf(ms) == CountsFor(Dedup(ms), ms)
    decreases |ms|
  {
    if ms != [] {
      var p := ms[..|ms| - 1];
      var x := ms[|ms| - 1];
      assert ms == p + [x];
      TallyOfCounts(p);
      DedupSpec(p);
      BumpCountsFor(Dedup(p), p, x);
      if x !in Dedup(p) {
        NewKeyCounted(p, x);
      }
    }
  }

  /** A mechanism first seen at the end gets an entry of count 1 appended. */
  lemma NewKeyCounted(p: seq<MenuMechanism>, x: MenuMechanism)
    requires x !in Dedup(p) && forall y :: y in Dedup(p) <==> y in p
    ensures Dedup(p + [x]) == Dedup(p) + [x]
    ensures CountsFor(Dedup(p), p + [x]) + [(x, 1)] == CountsFor(Dedup(p) + [x], p + [x])
  {
    var ms := p + [x];
    assert ms[..|ms| - 1] == p;
    CountPositive(p, x);
    CountAppend(p, x, x);
    CountsForAppend(Dedup(p), x, ms);
  }

  /** `r` occurs in `ms` with the least count, and no mechanism seen before it has a
      count as small. */
  predicate LeastFrequentFirst(ms: seq<MenuMechanism>, r: MenuMechanism)
  {
    r in ms
    && (forall m :: m in ms ==> Count(ms, r) <= Count(ms, m))
    && (exists k :: 0 <= k < |Dedup(ms)| && Dedup(ms)[k] == r && forall j :: 0 <= j < k ==> Count(ms, Dedup(ms)[j]) > Count(ms, r))
  }

  /** The entry `LeastIndex` picks from the tally is the mechanism of least count,
      ties going to the one seen first. */
  lemma LeastOfTally(ms: seq<MenuMechanism>)
    requires ms != []
    ensures |TallyOf(ms)| > 0
    ensures LeastFrequentFirst(ms, TallyOf(ms)[LeastIndex(TallyOf(ms))].0)
  {
    var tally := TallyOf(ms);
    var d := Dedup(ms);
    TallyOfCounts(ms);
    DedupSpec(ms);
    assert ms[0] in d;
    var k := LeastIndex(tally);
    var r := tally[k].0;
    assert tally[k] == (d[k], Count(ms, d[k]));
    forall m | m in ms ensures Count(ms, r) <= Count(ms, m) {
      var i :| 0 <= i < |d| && d[i] == m;
      assert tally[i] == (m, Count(ms, m));
    }
    forall j | 0 <= j < k ensures Count(ms, d[j]) > Count(ms, r) {
      assert tally[j] == (d[j], Count(ms, d[j]));
    }
    assert d[k] == r;
  }

  /** Each default node carries the id it was created with and shows as the kind of node
      it was created for. */
  lemma DefaultsCarryTheirIds(id: string, t: string -> string, langConfig: Option<LanguageConfig>, currentBlocks: seq<BlockConfig>)
    ensures TypeUtils.GetEntrypointId(DefaultCommandEntrypoint(id)) == Returns(id)
    ensures Display.GetNodeTypeKey(Display.EntryPointNode(DefaultCommandEntrypoint(id))) == Some(Display.CommandKey)
    ensures TypeUtils.GetBlockId(DefaultContentBlockConfig(id, t)) == Returns(id)
    ensures Display.GetNodeTypeKey(Display.BlockNode(DefaultContentBlockConfig(id, t))) == Some(Display.ContentKey)
    ensures TypeUtils.GetBlockId(DefaultHumanOperatorBlockConfig(id, t)) == Returns(id)
    ensures Display.GetNodeTypeKey(Display.BlockNode(DefaultHumanOperatorBlockConfig(id, t))) == Some(Display.HumanOperatorKey)
    ensures TypeUtils.GetBlockId(DefaultMenuBlockConfig(id, langConfig, currentBlocks)) == Returns(id)
    ensures Display.GetNodeTypeKey(Display.BlockNode(DefaultMenuBlockConfig(id, langConfig, currentBlocks))) == Some(Display.MenuKey)
    ensures TypeUtils.GetBlockId(DefaultLanguageSelectBlockConfig(id)) == Returns(id)
    ensures Display.GetNodeTypeKey(Display.BlockNode(DefaultLanguageSelectBlockConfig(id))) == Some(Display.LanguageSelectKey)
  {
    BlockCarriesId(DefaultContentBlockConfig(id, t), id);
    BlockCarriesId(DefaultHumanOperatorBlockConfig(id, t), id);
    BlockCarriesId(DefaultMenuBlockConfig(id, langConfig, currentBlocks), id);
    BlockCarriesId(DefaultLanguageSelectBlockConfig(id), id);
  }

  /** A block with a single variant set carries that variant's id. */
  lemma BlockCarriesId(b: BlockConfig, id: string)
    requires (b.content.Some? && b.content.value.blockId == id && b.humanOperator.None? && b.menu.None? && b.form.None? && b.languageSelect.None?)
      || (b.humanOperator.Some? && b.humanOperator.value.blockId == id && b.content.None? && b.menu.None? && b.form.None? && b.languageSelect.None?)
      || (b.menu.Some? && b.menu.value.blockId == id && b.content.None? && b.humanOperator.None? && b.form.None? && b.languageSelect.None?)
      || (b.languageSelect.Some? && b.languageSelect.value.blockId == id && b.content.None? && b.humanOperator.None? && b.menu.None? && b.form.None?)
    ensures TypeUtils.GetBlockId(b) == Returns(id)
  {
  }
}

/** `defaultFormBlockConfig` (frontend/src/studio/nodes/defaultConfigs.ts), kept apart from
    the other factories because it prefills the form messages. */
module DefaultFormConfig {
  import opened Base
  import opened Localization
  import opened FlowTypes
  import opened Prefill
  import TypeUtils

  /** The messages a new form starts with, all empty, in the source's key order. */
  const INITIAL_FORM_MESSAGES: FormMessages := [
    ("form_start", Plain("")),
    ("field_is_skippable", Plain("")),
    ("field_is_not_skippable", Plain("")),
    ("please_enter_correct_value", Plain("")),
    ("unsupported_command", Plain("")),
    ("cancel_command_is", Plain(""))
  ]

  /** `generateFormName`, the random UUID given as a parameter. */
  function GenerateFormName(uuid: string): (r: string)
    ensures |r| == |uuid| + 5 && r[..5] == "form-" && r[5..] == uuid
  {
    "form-" + uuid
  }

  /** `defaultFormBlockConfig`: an empty form whose messages are the initial ones
      prefilled from the remembered texts `pm`, echoing results to the user. */
  method DefaultFormBlockConfig(id: string, uuid: string, langConfig: Option<LanguageConfig>, pm: PrefilledMessages, locale: string)
    returns (r: BlockConfig)
    ensures r.content.None? && r.humanOperator.None? && r.menu.None? && r.languageSelect.None? && r.form.Some?
    ensures r.form.value.blockId == id && r.form.value.members == []
    ensures r.form.value.formName == GenerateFormName(uuid) && r.form.value.formName[..5] == "form-" && r.form.value.formName[5..] == uuid
    ensures r.form.value.resultsExport == FormResultsExport(true, None, "none", false)
    ensures r.form.value.formCompletedNextBlockId.None? && r.form.value.formCancelledNextBlockId.None?
    ensures |r.form.value.messages| == |INITIAL_FORM_MESSAGES|
    ensures forall i :: 0 <= i < |INITIAL_FORM_MESSAGES| ==>
      r.form.value.messages[i].0 == INITIAL_FORM_MESSAGES[i].0
      && r.form.value.messages[i].1 == ApplyToEntry(pm, langConfig, locale, INITIAL_FORM_MESSAGES[i])
  {
    var messages := UpdatedWithPrefilled(INITIAL_FORM_MESSAGES, pm, langConfig, locale);
    var resultsExport := FormResultsExport(true, None, "none", false);
    var form := FormBlock(id, GenerateFormName(uuid), [], messages, resultsExport, None, None);
    r := BlockConfig(None, None, None, Some(form), None);
  }

  /** The start message is not prefillable, so a new form always starts with it empty;
      the other five messages are prefilled. */
  lemma FormStartNotPrefilled(pm: PrefilledMessages, langConfig: Option<LanguageConfig>, locale: string)
    ensures ApplyToEntry(pm, langConfig, locale, INITIAL_FORM_MESSAGES[0]) == Plain("")
    ensures forall i :: 1 <= i < |INITIAL_FORM_MESSAGES| ==> INITIAL_FORM_MESSAGES[i].0 in PREFILLABLE_KEYS
  {
    assert "form_start" !in PREFILLABLE_KEYS;
  }
}
