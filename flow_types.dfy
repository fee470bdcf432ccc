/** The user-flow configuration of a bot (frontend/src/api/types.ts; the same JSON is
    read by the Python backend). Each tagged union of the source — an entrypoint, a
    block, a form member, a form field — is a record of optional variants; exactly one
    is expected to be set, and getters take the first one set in a fixed order. */
module FlowTypes {
  import opened Base
  import opened Localization

  datatype CommandEntryPoint = CommandEntryPoint(
    entrypointId: string,
    command: string,
    nextBlockId: Option<string>,
    scope: Option<string>,
    shortDescription: Option<string>)

  datatype CatchAllEntryPoint = CatchAllEntryPoint(entrypointId: string, nextBlockId: Option<string>)

  datatype RegexEntryPoint = RegexEntryPoint(entrypointId: string, regex: string, nextBlockId: Option<string>)

  datatype EntryPointConfig = EntryPointConfig(
    command: Option<CommandEntryPoint>,
    catchAll: Option<CatchAllEntryPoint>,
    regex: Option<RegexEntryPoint>)

  datatype TextMarkup = NoMarkup | Html | Markdown

  datatype ContentText = ContentText(text: LocalizableText, markup: TextMarkup)

  datatype ContentAttachment = ContentAttachment(image: Option<string>)

  datatype Content = Content(text: Option<ContentText>, attachments: seq<ContentAttachment>)

  datatype ContentBlock = ContentBlock(blockId: string, contents: seq<Content>, nextBlockId: Option<string>)

  datatype MessagesToUser = MessagesToUser(forwardedToAdminOk: LocalizableText, throttling: LocalizableText)

  datatype MessagesToAdmin = MessagesToAdmin(copiedToUserOk: string, deletedMessageOk: string, canNotDeleteMessage: string)

  datatype FeedbackHandlerConfig = FeedbackHandlerConfig(
    adminChatId: int,
    forumTopicPerUser: bool,
    anonimyzeUsers: bool,
    maxMessagesPerMinute: int,
    messagesToUser: MessagesToUser,
    messagesToAdmin: MessagesToAdmin,
    hashtagsInAdminChat: bool,
    hashtagMessageRarerThan: Option<string>,
    unansweredHashtag: Option<string>,
    messageLogToAdminChat: bool)

  datatype HumanOperatorBlock = HumanOperatorBlock(blockId: string, catchAll: bool, feedbackHandlerConfig: FeedbackHandlerConfig)

  datatype MenuMechanism = InlineButtons | ReplyKeyboard

  datatype MenuConfig = MenuConfig(mechanism: MenuMechanism, backLabel: Option<LocalizableText>, lockAfterTermination: bool)

  /** A menu item leads to a submenu, to a block, to a link, or nowhere ("noop"). */
  datatype MenuItem = MenuItem(labelText: LocalizableText, submenu: Option<Menu>, nextBlockId: Option<string>, linkUrl: Option<string>)

  datatype Menu = Menu(text: LocalizableText, markup: TextMarkup, items: seq<MenuItem>, config: MenuConfig)

  datatype MenuBlock = MenuBlock(blockId: string, menu: Menu)

  datatype ResultFormatting = AutoFormatting | CustomFormatting(descr: LocalizableText, isMultiline: bool) | NoFormatting

  /** The fields every form field shares; a concrete field embeds them. */
  datatype BaseFormFieldConfig = BaseFormFieldConfig(
    id: string,
    name: string,
    prompt: LocalizableText,
    isRequired: bool,
    resultFormatting: ResultFormatting)

  datatype PlainTextFormField = PlainTextFormField(base: BaseFormFieldConfig, isLongText: bool, emptyTextErrorMsg: LocalizableText)

  datatype EnumOption = EnumOption(id: string, labelText: LocalizableText)

  datatype SingleSelectFormField = SingleSelectFormField(base: BaseFormFieldConfig, options: seq<EnumOption>, invalidEnumErrorMsg: LocalizableText)

  datatype FormFieldConfig = FormFieldConfig(plainText: Option<PlainTextFormField>, singleSelect: Option<SingleSelectFormField>)

  /** A form member is a field or a branch of further members shown on a condition. */
  datatype FormMember = FormMember(field: Option<FormFieldConfig>, branch: Option<FormBranch>)

  datatype FormBranch = FormBranch(members: seq<FormMember>, conditionMatchValue: Option<string>)

  datatype ChatId = NumericChatId(number: int) | NamedChatId(name: string)

  datatype ToChatConfig = ToChatConfig(chatId: ChatId, viaFeedbackHandler: bool)

  datatype FormResultsExport = FormResultsExport(echoToUser: bool, toChat: Option<ToChatConfig>, userAttribution: string, toStore: bool)

  /** Form messages as an ordered object from message key to text. */
  type FormMessages = seq<(string, LocalizableText)>

  datatype FormBlock = FormBlock(
    blockId: string,
    formName: string,
    members: seq<FormMember>,
    messages: FormMessages,
    resultsExport: FormResultsExport,
    formCompletedNextBlockId: Option<string>,
    formCancelledNextBlockId: Option<string>)

  datatype LanguageSelectionMenuConfig = LanguageSelectionMenuConfig(propmt: Entries, isBlocking: bool, emojiButtons: bool)

  datatype LanguageSelectBlock = LanguageSelectBlock(
    blockId: string,
    menuConfig: LanguageSelectionMenuConfig,
    supportedLanguages: seq<string>,
    defaultLanguage: string,
    languageSelectedNextBlockId: Option<string>)

  datatype BlockConfig = BlockConfig(
    content: Option<ContentBlock>,
    humanOperator: Option<HumanOperatorBlock>,
    menu: Option<MenuBlock>,
    form: Option<FormBlock>,
    languageSelect: Option<LanguageSelectBlock>)

  datatype Position = Position(x: int, y: int)

  /** Positions of the nodes on the canvas, by node id. */
  type NodeDisplayCoords = map<string, Position>
}
