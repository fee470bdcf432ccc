# telebot-constructor, modelled in Dafny

telebot-constructor lets a user build a Telegram bot in a browser studio and runs it on a
Python backend. A bot is a user-flow configuration: entrypoints (commands, catch-alls,
…) and blocks (content, human operator, menu, form, language selection). Each is a
tagged union, written as a record whose variants are optional fields with exactly one
set. The studio edits, validates and prefills this configuration. The backend checks it,
turns it into the runtime objects of the bot engine, and keeps bot configs, events,
errors, form results and downloaded files in Redis.

This project models the core of both halves and proves what each operation promises.

**Frontend (TypeScript)**
- `TsResult`: the `Result` type.
- `NodeValidators`: the node validators.
- `Templates`: inserting a flow template into the configuration being edited, in place.
  `FlowConfig` and `Template` are classes the method updates.
- `TypeUtils`: variant getters and form-tree flattening.
- `Prefill`: prefilling form messages.
- `DefaultConfigs` and `DefaultFormConfig`: default node configurations.
- `FormFieldUtils`: form-field helpers.
- `Display`: node display keys.
- `FormContent`: example form contents.
- `MarkdownUtils`, `InputUtils`, `RouteUtils`, `ApiConfig`, `StudioUtils`: text, path
  and URL helpers.

**Backend (Python)**
- `PyUtils`: batching, paging indices, uniqueness and user formatting.
- `FormBlockPy`, `MenuPy`, `ContentPy`: the form, menu and content blocks.
- `UserFlowPy`: the user flow.
- `SetupResultPy`: setup results.
- `PydanticPy`: the exactly-one-variant check and language parsing.
- `FormResultsStore`, `StoreEvents`, `ConstructorStore`, `ErrorsStore`: the stores.
- `FilesDownloader`: the file cache and its eviction.

**Shared modules**
- `FlowTypes`, `Localization`, `BotEvents`: data types.
- `Base`, `Strings`, `RedisList`: helpers.
  - `Base` holds `Option`, a `Throws` result for calls that may raise, and sequence
    helpers.
  - `RedisList.LRange` is the Redis `LRANGE` reading the stores rely on.

**How state is modelled**
- Where the source updates an object in place, the model is a class with `modifies`
  clauses. This covers `applyTemplate`, `set_current_timestamp`, logger instrumentation,
  the stores and the file cache.
- Each Redis list, hash and key-value store is a `seq` or `map` field.
- Loops in the source are methods with loop invariants. These are `iter_batches`,
  `load_all`, the prefill merges, the form-tree flattening, the flow's setup order and
  the cache's eviction.
- Everything else is functions and lemmas.
- Replies and failures of Redis, the network and callbacks are parameters, as are:
  - the clock;
  - random values and UUIDs;
  - the i18n formatter;
  - `encodeURIComponent`;
  - base64 encoding;
  - the language table.

## Model

| member | source | states |
|---|---|---|
| NodeValidators.MissingLanguages | frontend/src/studio/nodes/nodeValidators.ts:25-32 | a supported code is reported missing exactly when the text is a plain string or has no non-empty translation for it; nothing else is reported |
| NodeValidators.ValidateLocalizableText | frontend/src/studio/nodes/nodeValidators.ts:11-40 | ok exactly when, without a language configuration, the text is a non-empty plain string, and, with one, every supported code has a non-empty translation; each failure carries its own message, naming the translation keys or the missing codes in order |
| NodeValidators.ErrorTextsMembership | frontend/src/studio/nodes/nodeValidators.ts:45-48 | a string is among the merged messages exactly when it is non-empty and is the message of some failed result |
| NodeValidators.MergeResults | frontend/src/studio/nodes/nodeValidators.ts:42-53 | ok exactly when every result is ok; otherwise the error joins the non-empty messages with "; " in order |
| NodeValidators.ContentResults | frontend/src/studio/nodes/nodeValidators.ts:59-66 | one result per content: a content without text is ok, a content with text is validated under the name "Текст #n" counted from 1 |
| NodeValidators.ValidateContentBlock | frontend/src/studio/nodes/nodeValidators.ts:55-68 | ok exactly when every content that has a text has a valid one; the error is the merge of the per-content results |
| NodeValidators.ValidateHumanOperatorBlock | frontend/src/studio/nodes/nodeValidators.ts:70-79 | fails, with its fixed message, exactly when the admin chat is the placeholder 0, whatever the language configuration |
| NodeValidators.ValidateLanguageSelectBlock | frontend/src/studio/nodes/nodeValidators.ts:81-94 | ok exactly when languages are chosen, a default is chosen and supported, and the prompt is valid; the first failing check, in that order, gives the message; once the language checks pass, the result is exactly that of `validateLocalizableText` on the menu prompt under the label "Текст в сообщении-меню" |
| NodeValidators.LanguageSelectNeedsLanguages | frontend/src/studio/nodes/nodeValidators.ts:16-20 | the menu prompt is a translation map, so a language-selection block never validates without a language configuration |
| NodeValidators.MessageResults | frontend/src/studio/nodes/nodeValidators.ts:100-109 | one result per form message, each validated under its own key as the name |
| NodeValidators.ValidateFormBlock | frontend/src/studio/nodes/nodeValidators.ts:96-116 | ok exactly when the form has a member, every message is valid and results are echoed or sent to a chat; the three failures are reported in that order with their messages |
| NodeValidators.DefaultHumanOperatorIsInvalid | frontend/src/studio/nodes/defaultConfigs.ts:41-49 | a new human-operator block fails validation with "Не выбран админ-чат" until a chat is chosen |
| NodeValidators.DefaultLanguageSelectIsInvalid | frontend/src/studio/nodes/defaultConfigs.ts:108-122 | a new language-selection block fails with the "no supported languages" message |
| NodeValidators.DefaultBackLabelIsValid | frontend/src/studio/nodes/defaultConfigs.ts:96-99 | the back label of a new menu validates under any language configuration |
| NodeValidators.DefaultContentBlockValidity | frontend/src/studio/nodes/defaultConfigs.ts:31-39 | a new content block is valid without languages exactly when its translated default text is non-empty, and invalid once a non-empty list of supported languages is configured (an empty list counts as no languages) |
| TsResult.Unwrap | frontend/src/utils.ts:13-18 | returns exactly for an ok result, giving back its data; an error result throws with the error as the message |
| Templates.FlowConfig.constructor | frontend/src/api/types.ts:241-246 | a flow configuration holds the given entrypoints, blocks and node coordinates |
| Templates.Template.constructor | frontend/src/studio/templates.ts:6-10 | a template holds its configuration, entry block id and custom start command |
| Templates.ContentOnlyTemplate | frontend/src/studio/templates.ts:12-51 | the template has no entrypoints and one markdown content block with no attachments and no next block; that block is the entry block and sits at (0,130); the custom start command is the private "content" command with no next block |
| Templates.XOffset | frontend/src/studio/templates.ts:77-86 | no shift when the boxes' y-ranges are disjoint; otherwise the smaller of the right and left overlaps plus the 30 margin, signed, so the shifted template box lies at least 30 clear of the existing one in x |
| Templates.Shifted | frontend/src/studio/templates.ts:87-92 | the same nodes, each moved by the offset along x with y kept |
| Templates.FindStartCommand | frontend/src/studio/templates.ts:54-56 | the index of the first entrypoint that is the command with the start-command id, or none when no entrypoint is |
| Templates.ApplyTemplate | frontend/src/studio/templates.ts:53-95 | throws and changes nothing without a start command; otherwise appends the template's blocks and entrypoints after the existing ones, and either points a start command that leads nowhere at the entry block and merges the coordinates unshifted, or points the custom start command at the entry block, places it at (0,0), appends it and merges the template coordinates shifted by the x offset |
| Templates.MergedCoordinates | frontend/src/studio/templates.ts:87-92 | after merging, a node the template lacks keeps its position and a template node is at its template position moved by the offset in x only |
| TypeUtils.BotEventTimestamp | frontend/src/api/typeUtils.ts:15-17 | the event's timestamp, or 0 when it has none |
| TypeUtils.GetBlockConcreteConfig | frontend/src/api/typeUtils.ts:19-21 | the first variant set, in the order content, human operator, menu, form, language selection; none exactly when no variant is set |
| TypeUtils.GetBlockId | frontend/src/api/typeUtils.ts:23-30 | the block id of the variant set; throws with the source's message exactly when no variant is set |
| TypeUtils.GetEntrypointConcreteConfig | frontend/src/api/typeUtils.ts:32-34 | the first variant set, in the order command, catch-all, regex; none exactly when none is set |
| TypeUtils.GetEntrypointId | frontend/src/api/typeUtils.ts:36-43 | the entrypoint id of the variant set; throws exactly when no variant is set |
| TypeUtils.FormFieldsAppend | frontend/src/api/typeUtils.ts:45-55 | the pre-order field list of two member lists one after the other is the two lists' field lists concatenated |
| TypeUtils.FlattenedFormFields | frontend/src/api/typeUtils.ts:45-55 | the loop's result is the pre-order field list: a member with a field contributes that field only, a branch its nested fields in place |
| TypeUtils.NestedMembersSmaller | frontend/src/api/typeUtils.ts:50-51 | a branch's members form a smaller tree than the list holding the branch, so the recursion ends |
| TypeUtils.FormBranchesAppend | frontend/src/api/typeUtils.ts:57-66 | the branch list of two member lists one after the other is the two branch lists concatenated |
| TypeUtils.FlattenedFormBranches | frontend/src/api/typeUtils.ts:57-66 | the loop's result is the pre-order branch list: each branch comes right before the branches nested in it, and fields are never listed |
| Prefill.SavePrefilledMessages | frontend/src/studio/nodes/FormBlock/prefill.ts:61-68 | the merged record has exactly the prefillable keys, each holding the remembered texts with the update's texts spread over them |
| Prefill.SavedTextLookup | frontend/src/studio/nodes/FormBlock/prefill.ts:65 | after saving, a language the update has a text for reads the update's text, and every other language reads what was remembered |
| Prefill.PrefilledMessage | frontend/src/studio/nodes/FormBlock/prefill.ts:70-85 | without a language configuration a plain text: the locale's remembered text, else the English one, else ""; with one, a map whose keys are exactly the supported codes, each holding its remembered text or "" |
| Prefill.ApplyPrefilledMessage | frontend/src/studio/nodes/FormBlock/prefill.ts:87-103 | a text that already validates is returned unchanged; otherwise the plain prefill without languages, and a translation map with them |
| Prefill.PrefillKeepsTranslations | frontend/src/studio/nodes/FormBlock/prefill.ts:97-102 | with languages, every translation the existing text has is kept as it was, and every other supported code gets its remembered text or "" |
| Prefill.PrefillCompletesText | frontend/src/studio/nodes/FormBlock/prefill.ts:87-103 | with languages, the prefilled text validates whenever every supported code has a non-empty text in the existing translation or, where that has none, in the remembered ones |
| Prefill.UpdatedWithPrefilled | frontend/src/studio/nodes/FormBlock/prefill.ts:106-122 | the copy keeps every key and the order; a message under a prefillable key is prefilled, every other message is unchanged |
| Prefill.FormStartNeverPrefilled | frontend/src/studio/nodes/FormBlock/prefill.ts:33-47 | there are five prefillable form-message keys and "form_start" is not prefillable, so prefilling leaves the start message unchanged |
| DefaultConfigs.CountsFor | frontend/src/studio/nodes/defaultConfigs.ts:80 | the reference tally: each key in order, paired with its number of occurrences |
| DefaultConfigs.LeastIndex | frontend/src/studio/nodes/defaultConfigs.ts:83-86 | the entry a stable sort by ascending count puts first: its count is the least, and every earlier entry has a greater count |
| DefaultConfigs.DefaultBackLabel | frontend/src/studio/nodes/defaultConfigs.ts:96-99 | a plain "⬅️⬅️⬅️" without a language configuration; with one, a map whose keys are exactly the supported codes, each holding that label |
| DefaultConfigs.CountsForUnaffected | frontend/src/studio/nodes/defaultConfigs.ts:80 | a mechanism outside the keys does not change their counts |
| DefaultConfigs.BumpCountsFor | frontend/src/studio/nodes/defaultConfigs.ts:80 | one step of the reduce increments an existing entry in place, or appends a new entry with count 1, and so keeps the tally equal to the reference counts |
| DefaultConfigs.CountsForAppend | frontend/src/studio/nodes/defaultConfigs.ts:80 | adding a key adds its entry at the end of the reference tally |
| DefaultConfigs.TallyOfCounts | frontend/src/studio/nodes/defaultConfigs.ts:77-82 | the reduce yields the mechanisms in first-seen order, each with its number of occurrences |
| DefaultConfigs.LeastOfTally | frontend/src/studio/nodes/defaultConfigs.ts:77-86 | the picked mechanism occurs among the menus, no mechanism occurs less often, and every mechanism seen before it occurs more often |
| DefaultConfigs.DefaultCommandEntrypoint | frontend/src/studio/nodes/defaultConfigs.ts:19-29 | a command entrypoint only, with the given id, the command "command" in private scope, no description and no next block |
| DefaultConfigs.DefaultContentBlockConfig | frontend/src/studio/nodes/defaultConfigs.ts:31-39 | a content block only, with the given id, a single content of the translated default text in markdown with no attachments, and no next block |
| DefaultConfigs.DefaultHumanOperatorBlockConfig | frontend/src/studio/nodes/defaultConfigs.ts:41-69 | a human-operator block only, not catch-all, with the placeholder admin chat 0, anonymised users, 10 messages a minute, no forum topics or hashtags, the message log on, an empty forwarded-to-admin reply and the translated throttling and admin messages |
| DefaultConfigs.DefaultMenuBlockConfig | frontend/src/studio/nodes/defaultConfigs.ts:71-106 | a menu block only, with an empty markdown text, no items, the default mechanism, the default back label, and not locked after termination |
| DefaultConfigs.DefaultLanguageSelectBlockConfig | frontend/src/studio/nodes/defaultConfigs.ts:108-122 | a language-select block only, with an empty prompt, no supported languages, an empty default language, emoji buttons, not blocking, and no next block |
| DefaultConfigs.DefaultMenuMechanism | frontend/src/studio/nodes/defaultConfigs.ts:77-86 | with no menu block the new menu uses inline buttons; otherwise it uses the least frequent existing mechanism, ties going to the first seen |
| DefaultConfigs.DefaultsCarryTheirIds | frontend/src/studio/nodes/defaultConfigs.ts:19-122 | each default entrypoint and block carries the id it was created with and is displayed as its own kind of node |
| DefaultFormConfig.GenerateFormName | frontend/src/studio/nodes/defaultConfigs.ts:124-126 | the name is "form-" followed by the UUID |
| DefaultFormConfig.DefaultFormBlockConfig | frontend/src/studio/nodes/defaultConfigs.ts:128-158 | a form block only, with the given id, no members, a generated name, results echoed to the user and sent nowhere else, no next blocks, and the six initial messages in order, each prefilled when its key is prefillable |
| DefaultFormConfig.FormStartNotPrefilled | frontend/src/studio/nodes/defaultConfigs.ts:133-141 | a new form's start message stays empty, and its five other initial messages are all prefillable |
| FormFieldUtils.GetBaseFormFieldConfig | frontend/src/studio/nodes/FormBlock/utils.ts:3-11 | the plain-text variant's base if set, else the single-select variant's; throws with the fixed message exactly when neither is set |
| FormFieldUtils.GetFormFieldId | frontend/src/studio/nodes/FormBlock/utils.ts:13-15 | the id of that base config, throwing exactly when it throws |
| FormFieldUtils.GetDefaultBaseFormFieldConfig | frontend/src/studio/nodes/FormBlock/utils.ts:17-25 | the id is "form_field_" followed by the UUID; name and prompt are empty, the field is required and formatted automatically |
| FormFieldUtils.GetDefaultFormFieldConfig | frontend/src/studio/nodes/FormBlock/utils.ts:27-52 | "plain_text" gives a short-text field with an empty error message, "single_select" a field with no options and an empty error message, each over the given base; any other key throws with the key in the message |
| FormFieldUtils.DefaultFieldRoundTrip | frontend/src/studio/nodes/FormBlock/utils.ts:3-52 | a default field of either kind gives back the base config and the id it was built from |
| Display.GetNodeTypeKey | frontend/src/studio/nodes/display.ts:24-40 | a command entrypoint is a command node and other entrypoints have no kind; a block's kind is the first set of content, human operator, language selection, menu, form; a block with none has no kind; "info" is never returned |
| Display.NodeKeyAgreesWithConcreteConfig | frontend/src/studio/nodes/display.ts:24-40 | for a block with exactly one variant set, the node kind names the variant the block getter returns, although the two check the variants in different orders |
| Display.HeaderColor | frontend/src/studio/nodes/display.ts:52-54 | the colour is "hsl(" then the hue then ", 85%, 70%)" |
| Display.HeaderColorInjective | frontend/src/studio/nodes/display.ts:52-54 | distinct hues give distinct colours |
| FormContent.GetRandomContent | frontend/src/studio/nodes/FormBlock/content.ts:83-86 | for any random value in [0, 1) the result is an element of the example list, the one at the floor of the value times the list's length |
| FormContent.FormMessageName | frontend/src/studio/nodes/FormBlock/content.ts:88-103 | a key outside the five labelled ones is returned unchanged, and a non-empty key never gets an empty name |
| FormContent.FormMessageNamesDistinct | frontend/src/studio/nodes/FormBlock/content.ts:89-99 | the five labelled keys get pairwise distinct labels, none of which is itself a labelled key, and "cancel_command_is" keeps its own name |
| MarkdownUtils.MakeMarkdownEntity | frontend/src/components/inputs/markdown_utils.ts:11-35 | throws with the type in the message exactly for an unknown type; bold, italic, strikethrough, spoiler and link keep the text, the first four with equal prefix and suffix; a link is wrapped in "[" and "](" + url + ")"; a blockquote is wrapped in "\n" and "\n\n" with every line quoted |
| MarkdownUtils.SymmetricMarkers | frontend/src/components/inputs/markdown_utils.ts:13-20 | the markers are "**", "_", "~~" and "\|\|", and a link's url defaults to "url" |
| MarkdownUtils.BlockquoteLines | frontend/src/components/inputs/markdown_utils.ts:21-29 | a blockquote has as many lines as the selection, each being ">" followed by the matching line |
| MarkdownUtils.BlockquoteRoundTrip | frontend/src/components/inputs/markdown_utils.ts:25-28 | dropping the ">" from each quoted line gives the selection back |
| InputUtils.GetLengthError | frontend/src/components/inputs/utils.ts:1-17 | no error exactly when the length is within the limit; otherwise the fixed prefix, the limit in decimal and a space, then "символа" when the limit's last digit is 1 and "символов" otherwise |
| InputUtils.LengthErrorShape | frontend/src/components/inputs/utils.ts:6-16 | an error starts with the prefix and the limit, and ends in "символа" exactly when the last digit is 1 and in "символов" exactly when it is not |
| RouteUtils.WithBasePath | frontend/src/routeUtils.ts:3-6 | the root base path adds nothing; any other base path is prepended |
| RouteUtils.EncodePathPart | frontend/src/routeUtils.ts:8-14 | numbers and strings starting with ":" are kept as they are; any other string is encoded |
| RouteUtils.StudioPathVersion | frontend/src/routeUtils.ts:20-26 | the studio path of a version is the bot's studio path followed by "?version=" and the number |
| RouteUtils.Id | frontend/src/routeUtils.ts:8-14 | an id in a path is a ":" placeholder as it is, and any other id encoded |
| RouteUtils.FormResultsPagePath | frontend/src/routeUtils.ts:16-18 | from the ":botId" and ":formBlockId" placeholders, the route pattern "/forms/:botId/:formBlockId" under the base path; for real ids, both encoded in that pattern |
| RouteUtils.StudioPath | frontend/src/routeUtils.ts:20-26 | from the placeholder and no version, the route pattern "/studio/:botId"; for a real id, the encoded id, followed by "?version=" and the number only when a version is given |
| RouteUtils.DashboardPath | frontend/src/routeUtils.ts:28-30 | the "/dashboard/:botId" route pattern from the placeholder, the encoded id otherwise |
| RouteUtils.BotListingPath | frontend/src/routeUtils.ts:32-34 | "/bots" under the root base path, the base path followed by "/bots" under any other |
| RouteUtils.VersionsPagePath | frontend/src/routeUtils.ts:36-38 | the "/versions/:botId" route pattern from the placeholder, the encoded id otherwise |
| RouteUtils.SettingsPath | frontend/src/routeUtils.ts:40-42 | the "/settings/:botId" route pattern from the placeholder, the encoded id otherwise |
| RouteUtils.ErrorsPath | frontend/src/routeUtils.ts:44-46 | the "/errors/:botId" route pattern from the placeholder, the encoded id otherwise |
| RouteUtils.FormResultsPathSegments | frontend/src/routeUtils.ts:16-18 | when the encoded ids hold no "/", the form results path splits into "forms" and the two ids |
| ApiConfig.StripBoundarySlashes | frontend/src/api/config.ts:2 | the part is the result with at most one leading and one trailing slash put back: a leading slash exactly when the part starts with one, a trailing slash exactly when a part of two or more characters ends with one (a lone "/" counts as leading) |
| ApiConfig.StripSlashesExactlyOne | frontend/src/api/config.ts:2 | a part without boundary slashes is kept verbatim, inner slashes included, and a single slash on either or both sides is removed |
| ApiConfig.StripSlashesOnlyOnce | frontend/src/api/config.ts:2 | doubled boundary slashes leave one slash on each side |
| ApiConfig.UrlJoin | frontend/src/api/config.ts:1-3 | no parts join to "", one part to its stripped form, and two parts to their stripped forms around a single "/" |
| ApiConfig.ApiBaseUrl | frontend/src/api/config.ts:22 | the API base is the stripped base URL followed by "/api", never ending in a slash, and not starting with one for an absolute base URL |
| ApiConfig.ApiUrl | frontend/src/api/config.ts:22-28 | an API URL is the stripped API base, "/" and the stripped route; for an absolute base URL, the stripped base, then "/api/", then the stripped route |
| StudioUtils.SvelvetNodeIdToBlockId | frontend/src/studio/utils.ts:1-5 | the result is a suffix of the id, two characters shorter exactly when the id starts with "N-", and otherwise the id itself |
| StudioUtils.NodeIdRoundTrip | frontend/src/studio/utils.ts:4 | an id given to the editor with its "N-" prefix comes back unchanged |
| StudioUtils.NodeIdNotIdempotent | frontend/src/studio/utils.ts:4 | only one prefix goes, so "N-N-x" becomes "N-x" and converting again gives "x" |
| PyUtils.Duplicates | telebot_constructor/utils/__init__.py:67-68 | an item is listed exactly when it occurs more than once, each such item once, in the order the items are first seen |
| Base.DedupOrder | telebot_constructor/utils/__init__.py:67 | the distinct items are listed in the order they are first seen, as `collections.Counter` keeps them |
| PyUtils.ValidateUnique | telebot_constructor/utils/__init__.py:66-74 | raises exactly when some item repeats, with the prefix, the items' name and each repeated item once, joined by ", " |
| PyUtils.FormatTelegramUser | telebot_constructor/utils/__init__.py:77-88 | the bare full name when there is no username and no id is asked for; otherwise the name followed by " (@user, #id)" holding only the present parts, in that order |
| PyUtils.WithoutNones | telebot_constructor/utils/__init__.py:102-103 | a value is kept exactly when it was present, and the results are the present items' values one for one, in the items' order |
| PyUtils.IterBatches | telebot_constructor/utils/__init__.py:109-145 | the batches together are the input in order, none is empty, every item after a batch's first fitted when it was added, and a batch is closed only when the next item did not fit |
| PyUtils.SeveralItemsFit | telebot_constructor/utils/__init__.py:136-142 | a batch of more than one item stays within the size |
| PyUtils.OversizedBatchIsSingle | telebot_constructor/utils/__init__.py:119-120 | a batch whose summed size exceeds the target holds exactly one item |
| PyUtils.UnitBatchesAreFull | telebot_constructor/utils/__init__.py:122-124 | with the default unit size and a target of at least one, every batch but the last holds exactly the target number of items, and the last at most that |
| PyUtils.PreprocessMarkdown | telebot_constructor/utils/__init__.py:164-167 | an empty text is kept as it is; any other text goes through `telegramify_markdown.markdownify` |
| PyUtils.PreprocessForTelegram | telebot_constructor/utils/__init__.py:170-179 | texts not in markdown are unchanged; a markdown string goes through PreprocessMarkdown, and a markdown translation map keeps its languages in order with each translation preprocessed the same way |
| PyUtils.PageParamsToRedisIndices | telebot_constructor/utils/__init__.py:148-161 | raises, with the offset's or the count's message, exactly when one of them is negative; otherwise the range ends `offset` before the last entry and spans `count` slots |
| PyUtils.PageParamsExamples | tests/test_utils.py:37-47 | the index pairs the unit tests expect, among them (0, -1) for an empty first page |
| PyUtils.PageSlice | telebot_constructor/utils/__init__.py:149-154 | the page a caller asks for holds at most `count` entries |
| PyUtils.PageIndicesReadPage | telebot_constructor/utils/__init__.py:159-161 | for a page of at least one entry, the Redis range of the indices reads exactly the `count` entries ending `offset` before the newest one, as far as the list reaches |
| PyUtils.EmptyFirstPageReadsAll | telebot_constructor/utils/__init__.py:159-161 | an empty first page gives the range 0 .. -1, which Redis reads as the whole list rather than nothing |
| FormBlockPy.ConstructNextFieldGetter | telebot_constructor/user_flow/blocks/form.py:41-59 | no next field gives the form-end getter, a field id gives the by-name getter for that id, and a mapping gives a mapping getter over its cases and default whose possible next fields are the case values followed by the default |
| FormBlockPy.CasesGetSpec | telebot_constructor/user_flow/blocks/form.py:50-55 | looking a key up in a case table with distinct keys gives the case's value when the key is there and the default when it is not |
| FormBlockPy.CasesGetIsAValue | telebot_constructor/user_flow/blocks/form.py:50-55 | the lookup always returns one of the case values or the default |
| FormBlockPy.NextFieldIsPossible | telebot_constructor/user_flow/blocks/form.py:49-58 | a mapping getter never chooses a field outside the possible next fields it declares, whatever the previous value |
| FormBlockPy.FixedNextField | telebot_constructor/user_flow/blocks/form.py:42-45 | a form-end setting always ends the form and a field id always leads to that field, whatever the previous value |
| FormBlockPy.CountPlaceholdersAppend | telebot_constructor/user_flow/blocks/form.py:112 | counting "{}" occurrences is additive over a split point where the right part starts with "{" |
| FormBlockPy.JoinedPlaceholders | telebot_constructor/user_flow/blocks/form.py:112 | joining n placeholder-free texts with "{}" gives a template with exactly n-1 placeholders |
| FormBlockPy.ValidateTemplate | telebot_constructor/user_flow/blocks/form.py:111-117 | returns the template unchanged exactly when its placeholder count is the expected one, and otherwise raises naming the expected count, the title and the count found |
| FormBlockPy.SetupTemplates | telebot_constructor/user_flow/blocks/form.py:144-164 | succeeds exactly when the start and skippable messages have one placeholder, the not-skippable and retry messages none and the unsupported-command message one; the first failing message's error is the one raised; on success the error-cancelling template is the unsupported-command message |
| FormBlockPy.CancellingMessageIgnored | telebot_constructor/user_flow/blocks/form.py:161-163 | the configured error-cancelling message never changes the outcome of the setup |
| MenuPy.ItemPostInit | telebot_constructor/user_flow/blocks/menu.py:35-39 | raises the at-most-one-option error exactly when more than one of submenu, next block and link is set, and otherwise reports the item as a no-op exactly when none is set |
| MenuPy.ToComponentsMenuItem | telebot_constructor/user_flow/blocks/menu.py:41-48 | the label and link are kept, a submenu is converted exactly when there is one, and the terminator is the no-op marker for an item with no option and the next block id otherwise |
| MenuPy.ToComponentsItems | telebot_constructor/user_flow/blocks/menu.py:72 | the items are converted one by one, keeping their number and order |
| MenuPy.ToComponentsMenu | telebot_constructor/user_flow/blocks/menu.py:63-74 | the text is preprocessed with the menu's markup, the configuration carries the back label, lock flag, mechanism and markup, and every item is converted in place |
| MenuPy.TerminatorOfWellFormedItem | telebot_constructor/user_flow/blocks/menu.py:30-48 | on a valid item, the converted item is terminal exactly when it has no submenu and no link; it ends in its next block when it has one and in the no-op marker when it has no option |
| MenuPy.SubmenuConverted | telebot_constructor/user_flow/blocks/menu.py:44 | conversion keeps the tree's shape: the i-th item's submenu becomes the conversion of that submenu |
| MenuPy.OnTerminalSelected | telebot_constructor/user_flow/blocks/menu.py:112-129 | no block is entered exactly for the no-op marker; any other terminator is the id of the block entered |
| MenuPy.SelectingTerminalItem | telebot_constructor/user_flow/blocks/menu.py:41-48 | selecting a terminal item of a valid menu enters the item's next block, and enters nothing for a no-op item |
| MenuPy.PossibleNextBlockIds | telebot_constructor/user_flow/blocks/menu.py:82-83 | a block id is listed exactly when some top-level item leads to it, one entry per item that has a next block, in the items' order |
| ContentPy.AsParseMode | telebot_constructor/user_flow/blocks/content.py:33-40 | no parse mode exactly for plain text; HTML markup is sent as "HTML" and Markdown as "MarkdownV2" |
| ContentPy.ParseModeInjective | telebot_constructor/user_flow/blocks/content.py:33-40 | distinct markups are sent with distinct parse modes |
| ContentPy.PossibleNextBlockIds | telebot_constructor/user_flow/blocks/content.py:66-67 | at most one id, and an id is listed exactly when it is the block's next block |
| ContentPy.SimpleText | telebot_constructor/user_flow/blocks/content.py:73-90 | a block with the given id and next block and a single content: the given text without markup and no attachments |
| ContentPy.EnterMatchesPossibleNext | telebot_constructor/user_flow/blocks/content.py:169-170 | once its contents are sent, entering the block moves on to a next block exactly when it declares one as possible, and to that one |
| ContentPy.SendContentsAsWritten | telebot_constructor/user_flow/blocks/content.py:98-167 | as written, sending the contents raises exactly when some content has two or more attachments with an image among them, with `list.append`'s keyword-argument error |
| ContentPy.EnterAsWritten | telebot_constructor/user_flow/blocks/content.py:98-170 | as written, `enter` raises exactly when some content has several attachments including an image; otherwise it moves on to the block's next block, if any |
| ContentPy.TwoImagesNeverMoveOn | telebot_constructor/user_flow/blocks/content.py:142-159 | as written, a block whose one content holds two images declares its next block yet raises instead of entering it |
| UserFlowPy.BlockById | telebot_constructor/user_flow/__init__.py:16 | the map's keys are exactly the blocks' ids, and an id maps to the last block that has it |
| UserFlowPy.DistinctIdsIndexBlocks | telebot_constructor/user_flow/__init__.py:16 | with distinct ids, every block is the one its id maps to |
| UserFlowPy.SortedDuplicatesEmpty | telebot_constructor/user_flow/__init__.py:18-20 | the sorted list of repeated ids is empty exactly when all ids are distinct |
| UserFlowPy.NewUserFlow | telebot_constructor/user_flow/__init__.py:14-21 | raises exactly when some block id repeats, with a message listing the repeated ids sorted; otherwise keeps the entrypoints and blocks, and every block is found under its id |
| UserFlowPy.EnterBlock | telebot_constructor/user_flow/__init__.py:23-27 | raises exactly for an unknown id, naming it; otherwise the block registered under the id |
| UserFlowPy.EveryBlockEnterable | telebot_constructor/user_flow/__init__.py:14-27 | in a flow that was constructed, entering any block's id enters that very block |
| UserFlowPy.Setup | telebot_constructor/user_flow/__init__.py:29-33 | every entrypoint is set up, in order, then every block, in order; no block is set up before an entrypoint |
| Strings.PyStrRepr | telebot_constructor/user_flow/__init__.py:21 | Python's `repr` of a string: quoted in double quotes exactly when it holds a single quote and no double quote, single quotes otherwise, and the quoted text reads back to the same string |
| Strings.UnescapeBody | telebot_constructor/user_flow/__init__.py:21 | the escapes `repr` writes between quotes (the quote, backslash, tab, newline, carriage return and `\xhh` for other ASCII control characters) read back to the original string |
| SetupResultPy.Empty | telebot_constructor/user_flow/types.py:43-45 | no background jobs and no auxiliary endpoints |
| SetupResultPy.Merge | telebot_constructor/user_flow/types.py:47-51 | each list of the merged result is this result's list followed by the other's, in full |
| SetupResultPy.EmptyIsIdentity | telebot_constructor/user_flow/types.py:43-51 | merging with the empty result on either side changes nothing |
| SetupResultPy.MergeAssociative | telebot_constructor/user_flow/types.py:47-51 | merging is associative, so the results of many components can be combined in any grouping |
| PydanticPy.SortedNames | telebot_constructor/utils/pydantic.py:32-33 | the listed names are sorted and are exactly the names of the fields that qualify |
| PydanticPy.ValidateExactlyOneNonNullField | telebot_constructor/utils/pydantic.py:23-35 | accepts exactly when one optional field holds a value; otherwise raises naming the optional fields sorted, how many hold a value, and which, sorted |
| PydanticPy.LegacyValidateExactlyOneNonNullField | telebot_constructor/pydantic_utils.py:14-25 | accepts exactly the models the newer check accepts; only the wording of the error differs (and, lacking `return self`, it returns None where the newer check returns the model) |
| PydanticPy.ExactlyOneSetOptional | telebot_constructor/utils/pydantic.py:25-30 | for a model with distinct field names, accepted exactly when a single field is an optional field holding a value |
| PydanticPy.NonOptionalFieldsIgnored | telebot_constructor/utils/pydantic.py:26-29 | fields that are not optional never affect the outcome or its message |
| PydanticPy.ExampleModelCases | tests/test_pydantic_utils.py:15-35 | the example model with a required number and three optional fields is accepted exactly when one of the three is set |
| PydanticPy.ParseLanguageData | telebot_constructor/utils/pydantic.py:38-46 | a language value passes through, a string is looked up and raises "unknown language code" when the lookup fails, and anything else raises the not-a-string error |
| PydanticPy.ParseLanguageDataIdempotent | telebot_constructor/utils/pydantic.py:38-46 | a parsed language handed back to the parser is accepted as it is |
| FormResultsStore.CompositeKey | telebot_constructor/store/form_results.py:70-71 | the user name, bot id and form block id, in that order, separated by single slashes |
| FormResultsStore.CompositeKeyParts | telebot_constructor/store/form_results.py:70-71 | splitting a key at its slashes gives back the three parts when none holds a slash |
| FormResultsStore.CompositeKeyInjective | telebot_constructor/store/form_results.py:70-71 | two forms whose ids hold no slash never share a key |
| FormResultsStore.ReadPage | telebot_constructor/store/form_results.py:88-99 | a page never holds more results than the list |
| FormResultsStore.ReadPageIsPage | telebot_constructor/store/form_results.py:88-99 | a page of at least one result is the `count` results that end `offset` results before the newest, clipped at the start of the list |
| FormResultsStore.ReadPageNewestTwo | telebot_constructor/store/form_results.py:89-91 | the first page of two is the two newest results, oldest first |
| FormResultsStore.EmptyFirstPageReadsAll | telebot_constructor/store/form_results.py:90-91 | asking for zero results at offset 0 reads the whole list |
| FormResultsStore.Store.constructor | telebot_constructor/store/form_results.py:27-61 | a store starts with no results, field names, titles or prompts |
| FormResultsStore.Store.Save | telebot_constructor/store/form_results.py:73-74 | the result is appended to the form's list and nothing else changes; success exactly when the push replies 1 |
| FormResultsStore.Store.SaveFieldNames | telebot_constructor/store/form_results.py:76-80 | the given names are set on the form's hash, overriding the same field ids and keeping the others; other forms and stores are unchanged |
| FormResultsStore.Store.SaveFormTitle | telebot_constructor/store/form_results.py:82-83 | the form's title is set and nothing else changes |
| FormResultsStore.Store.SaveFormPrompt | telebot_constructor/store/form_results.py:85-86 | the form's prompt is set and nothing else changes |
| FormResultsStore.Store.LoadPage | telebot_constructor/store/form_results.py:88-99 | for a non-negative offset and a count of at least one, the page counted back from the newest result |
| FormResultsStore.Store.LoadAll | telebot_constructor/store/form_results.py:101-112 | reading forward in windows of 100 until one comes back empty returns every stored result, in order |
| FormResultsStore.SaveFormResult | telebot_constructor/store/form_results.py:123-137 | the result is appended, the field names merged and the prompt set, all three whatever the earlier replies; the title is untouched; success exactly when all three succeed |
| FormResultsStore.SavedResultIsNewest | telebot_constructor/store/form_results.py:73-99 | right after a save, the first page of one result is exactly the saved result |
| StoreEvents.Stamped | telebot_constructor/store/__init__.py:26-28 | a record always ends with a timestamp: its own when it had one, the current time otherwise |
| StoreEvents.StampedIdempotent | telebot_constructor/store/__init__.py:26-28 | stamping a second time, at any later time, changes nothing |
| StoreEvents.TimestampedData.constructor | telebot_constructor/store/__init__.py:21-23 | a record holding the given optional timestamp |
| StoreEvents.TimestampedData.SetCurrentTimestamp | telebot_constructor/store/__init__.py:26-28 | the record's timestamp becomes the stamped one: the current time is added only when the key was absent |
| StoreEvents.LastOfKind | telebot_constructor/store/__init__.py:136-138 | the events of a kind are none exactly when no logged event has it; otherwise the last of them is the log's last event of that kind |
| StoreEvents.LoadTimestamps | telebot_constructor/store/__init__.py:131-155 | an empty log gives nothing, and a summary's creation time is the first event's timestamp |
| StoreEvents.LastTimestampOfKind | telebot_constructor/store/__init__.py:142-151 | no time exactly when the kind never occurs; otherwise the timestamp of the log's last event of that kind |
| StoreEvents.LoadTimestampsSpec | telebot_constructor/store/__init__.py:131-155 | no summary without an edited event; a summary's update time is the last edited event's, and its run and deletion times are the last started and deleted events' times, absent exactly when there is no such event |
| StoreEvents.StampedLogHasTimestamps | telebot_constructor/store/__init__.py:127-155 | a log whose events were all stamped and which holds an edited event always gives a summary |
| StoreEvents.BotKey | telebot_constructor/store/__init__.py:66-67 | the user name and bot id separated by a slash |
| StoreEvents.RemovePrefix | telebot_constructor/store/__init__.py:102 | the text after the prefix when the text starts with it, and the text unchanged otherwise |
| StoreEvents.ListBotIds | telebot_constructor/store/__init__.py:99-102 | one id per key found, in order, each the key without the "user/" prefix |
| StoreEvents.ListBotIdsOfKeys | telebot_constructor/store/__init__.py:99-102 | the keys built from a user and bot ids list back as exactly those bot ids, whatever characters they hold |
| ConstructorStore.LoadConfigVersion | telebot_constructor/store/store.py:83-95 | a config is found exactly for a version number within the list, counted from the start when non-negative and from the end when negative |
| ConstructorStore.NormaliseVersionRange | telebot_constructor/store/store.py:228-235 | nothing to load exactly when a negative end still points before the first version; a negative start counts from the end and is clipped at 0; a negative end counts from the end; a non-negative bound is kept |
| ConstructorStore.NormaliseNegativeVersion | telebot_constructor/store/store.py:228-235 | asking for version -k of a list of at least k versions asks for the single version at index total-k |
| ConstructorStore.LoadVersionInfoOf | telebot_constructor/store/store.py:225-255 | no versions when the range is empty after normalisation; never more entries than versions; the entries are numbered consecutively from the normalised start |
| ConstructorStore.MetadataOfComplete | telebot_constructor/store/store.py:243 | when every version has its metadata, the metadata list is the versions' metadata, in order |
| ConstructorStore.LoadVersionRange | telebot_constructor/store/store.py:238-255 | for a range within the list, one entry per version from start to end, each carrying its own number and metadata |
| ConstructorStore.LoadVersionTail | telebot_constructor/store/store.py:238-240 | with no end, the versions from the start to the last one, each with its own number and metadata |
| ConstructorStore.LoadSingleVersion | telebot_constructor/store/store.py:228-255 | asking for one version by its number or its negative number gives exactly that version's info |
| ConstructorStore.HumanOperatorChats | telebot_constructor/store/store.py:192-196 | a chat is listed exactly when some human operator block has it as its admin chat; one entry per such block, in block order |
| ConstructorStore.FormExportChats | telebot_constructor/store/store.py:197-205 | a chat is listed exactly when some form block exports its results to it directly, not through a feedback handler; one entry per such block, in block order |
| ConstructorStore.AdminChatIds | telebot_constructor/store/store.py:190-205 | the human operators' chats followed by the form export chats, in block order |
| ConstructorStore.AdminChatsVersion | telebot_constructor/store/store.py:191 | the admin chats are read from the running version when there is one and from the newest version otherwise |
| ConstructorStore.FirstRunningVersionAsWritten | telebot_constructor/store/store.py:191 | as written, a bot running version 0 of several versions reads its admin chats from the newest version, not the running one |
| ConstructorStore.AdminChatsVersionAgrees | telebot_constructor/store/store.py:191 | the written and the intended choice of version agree for every running version other than 0 |
| ConstructorStore.AdminChatsOf | telebot_constructor/store/store.py:190-205 | no chats when the chosen version does not exist, and otherwise the admin chats of that version's config |
| ConstructorStore.OrDefault | telebot_constructor/store/store.py:209 | the value when it is present and non-empty, the default otherwise |
| ConstructorStore.LastEventsAreTail | telebot_constructor/store/store.py:213-216 | the k most recent events, oldest first, or all of them when the log is shorter |
| ConstructorStore.Store.constructor | telebot_constructor/store/store.py:36-76 | a store starts with no configs, running versions, events or display names |
| ConstructorStore.Store.IsBotExists | telebot_constructor/store/store.py:113-114 | a bot exists exactly when it has at least one config version |
| ConstructorStore.Store.LoadOwnerId | telebot_constructor/store/store.py:257-261 | the actor is the owner exactly when the bot exists under the actor's id, and there is no owner otherwise |
| ConstructorStore.Store.LoadVersionInfo | telebot_constructor/store/store.py:225-255 | the version info of the bot's own version list |
| ConstructorStore.Store.SaveEvent | telebot_constructor/store/store.py:144-146 | the event is appended to the bot's log with its own timestamp or the current time; nothing else changes; success exactly when the push replies 1 |
| ConstructorStore.Store.SaveBotConfig | telebot_constructor/store/store.py:97-105 | a new version is appended holding the config and the metadata stamped with the current time unless it had one; nothing else changes |
| ConstructorStore.Store.ReportedRunningVersion | telebot_constructor/store/store.py:159-161 | a running version is reported exactly when a numbered version is stored as running, and a stub counts as not running |
| ConstructorStore.Store.RunningVersionInfo | telebot_constructor/store/store.py:163-177 | present only for a running bot, and then the single version info found for the running version |
| ConstructorStore.Store.LoadBotInfo | telebot_constructor/store/store.py:154-223 | nothing for a bot without versions; otherwise the bot id, the display name or the id when it has none, the reported running version and its info, the newest version, the last 5 events when detailed and 1 otherwise, and when detailed the forms, errors and admin chats of the running config (version 0 included, the corrected choice of line 191) or, for a bot not running, the newest config |
| ConstructorStore.RunningVersionInfoFound | telebot_constructor/store/store.py:159-188 | a bot whose versions all have metadata and which runs one of them reports that version's info and the newest version as its last one |
| ErrorsStore.HandlerEq | telebot_constructor/store/errors.py:74-79 | an error-store handler equals exactly the error-store handlers of the same owner and bot |
| ErrorsStore.HandlerEqIsEquality | telebot_constructor/store/errors.py:74-79 | handler equality coincides with equality of the owner and bot pair, so it is reflexive, symmetric and transitive |
| ErrorsStore.HandlerHash | telebot_constructor/store/errors.py:81-82 | an error-store handler's hash is the tuple hash of the class name, the owner and the bot, and depends on nothing else; HashAgreesWithEq relates it to equality |
| ErrorsStore.HashAgreesWithEq | telebot_constructor/store/errors.py:74-82 | equal handlers have equal hashes, whatever the underlying tuple hash is |
| ErrorsStore.Logger.constructor | telebot_constructor/store/errors.py:159-168 | a logger with the given name and handlers |
| ErrorsStore.AddHandler | telebot_constructor/store/errors.py:168 | the handler is on the logger afterwards, appended only when no equal handler was there |
| ErrorsStore.InstrumentedHandlers | telebot_constructor/store/errors.py:159-168 | other handlers are kept in every case; when the logger reports to another bot every error-store handler is removed and the result is exactly the other handlers in their order, repeats included; otherwise the result is exactly `addHandler`'s: the new handler appended only when no equal handler is already there, the old ones kept in order |
| ErrorsStore.Instrument | telebot_constructor/store/errors.py:159-168 | the logger's handlers become the instrumented ones and its name is unchanged |
| ErrorsStore.InstrumentLeavesOneBot | telebot_constructor/store/errors.py:159-168 | after instrumenting, every error-store handler on the logger reports to the bot just instrumented, so errors never leak to another bot |
| ErrorsStore.InstrumentKeepsSingleHandler | telebot_constructor/store/errors.py:159-168 | a logger with at most one error-store handler still has at most one after instrumenting |
| ErrorsStore.InstrumentAllOneBot | telebot_constructor/store/errors.py:159-168 | after any non-empty sequence of instrument calls, every error-store handler reports to the last bot instrumented |
| ErrorsStore.LoadErrorsOf | telebot_constructor/store/errors.py:170-179 | raises exactly for a negative offset or count; a page of at least one error is the count errors ending offset errors before the newest |
| ErrorsStore.EmptyErrorPageReadsAll | telebot_constructor/store/errors.py:170-179 | asking for zero errors at offset 0 returns every error of the bot |
| ErrorsStore.ErrorsStore.constructor | telebot_constructor/store/errors.py:112-127 | a store starts with no errors, no alert chats and no callback |
| ErrorsStore.ErrorsStore.LoadErrors | telebot_constructor/store/errors.py:170-179 | the page of the bot's own error list |
| ErrorsStore.ErrorsStore.ProcessError | telebot_constructor/store/errors.py:139-157 | the error is appended to the bot's list unless the push fails; the callback receives the owner, bot, alert chat and error exactly when a callback is registered, the push and the lookup succeed and the bot has an alert chat; success exactly when no step that ran failed |
| FilesDownloader.InsertByTime | telebot_constructor/telegram_files_downloader.py:93 | inserting an access into a list sorted by time keeps it sorted and adds exactly that access, placing it before accesses of the same time |
| FilesDownloader.SortByTime | telebot_constructor/telegram_files_downloader.py:93 | the accesses sorted by time: sorted, and a permutation of the input |
| FilesDownloader.EvictionSetAsWritten | telebot_constructor/telegram_files_downloader.py:82-95 | as written, the set to evict is exactly the cached ids without an access record, since the union's result is discarded |
| FilesDownloader.AsWrittenEvictsNothing | telebot_constructor/telegram_files_downloader.py:93-95 | as written, when the cache is over its limit but every file has an access record, nothing is evicted |
| FilesDownloader.FilesCache.constructor | telebot_constructor/telegram_files_downloader.py:36-53 | an empty cache and access store with the given limit |
| FilesDownloader.FilesCache.GetBase64File | telebot_constructor/telegram_files_downloader.py:55-72 | the access time is recorded in every case; a cached file is returned as stored; an uncached file is downloaded, encoded, cached and returned, or gives nothing and caches nothing when the download or the caching write raises |
| FilesDownloader.FilesCache.PartitionByRecord | telebot_constructor/telegram_files_downloader.py:82-89 | the ids without an access record, exactly, and one timed entry for each cached id that has a record, carrying its time |
| FilesDownloader.FilesCache.SelectEvictions | telebot_constructor/telegram_files_downloader.py:90-95 | the ids to evict are exactly those without a record plus the least recently used ones, as many of them as the count over the limit allows, and none kept was used earlier than one chosen |
| FilesDownloader.FilesCache.DropEvicted | telebot_constructor/telegram_files_downloader.py:98-105 | for each id to evict, its access record is dropped first and then its file; a failure stops that id's drops and moves on; nothing else changes; the count is the number of ids dropped in full |
| FilesDownloader.FilesCache.EvictExtraCachedFiles | telebot_constructor/telegram_files_downloader.py:74-107 | nothing changes below the limit; otherwise the files chosen are exactly those without a record plus the least recently used ones (line 95 as evidently intended), as many as the count over the limit allows, none of them used later than a file kept; a chosen file leaves the cache exactly when both drops succeed and loses its access record unless the first drop raises, every other file keeps its content and its access record, no key is added, and the count is exactly the number of chosen files whose drops both succeeded |
| FilesDownloader.ChosenAreOldest | telebot_constructor/telegram_files_downloader.py:93-95 | the first k entries of the time-sorted accesses are cached, recorded, and no older than any recorded id left out |

## Left out

- Network, Redis, Telegram and browser I/O are not modelled: HTTP handlers, bot runners, authentication, media and metrics stores, `localStorage`, Svelte stores, and the `setup`/`enter` handler wiring of blocks and entrypoints. Each store is an in-memory map or list, and the replies of its writes are parameters (the meaning of `KeyListStore.push`'s reply is not part of this model).
- The versioned config store of telebot_components is not part of this model. `load_version`, `load_raw_versions`, `slice` and `tail` are read as Python indexing of the version list, a range from the start to the end, and Redis `LRANGE`; `save` is read as an append.
- Floating-point time: timestamps are whole seconds, and `datetime.fromtimestamp` is the identity.
- Key expiry and `touch` of the cache and file stores: no time passes in the model.
- Asynchronous tasks: the log handler's `emit`, the background eviction loop and task bookkeeping are left out. `process_error` is modelled on its own.
- `iter_running_bot_versions`, `set_bot_running_version`, `set_bot_not_running`, `remove_bot_config`, `save_bot_display_name` and the alert-chat setters are plain map reads and writes that no modelled operation depends on.
- `load_bot_config` with the "stub" version: the stub config is not modelled; the running version "stub" is modelled only as "not running".
- The order in which Redis returns the cached file ids is not modelled; the eviction loop takes ids in any order.
- The download with retries and base64 encoding of a file are parameters: the outcome of the download and the encoder.
- Foreign calls are parameters or left out: `telegramify_markdown.markdownify` (the `toTelegram` parameter; the empty-text guard around it, `preprocess_markdown_for_telegram`, is PyUtils.PreprocessMarkdown, and the dispatch on the markup, `preprocess_for_telegram`, is PyUtils.PreprocessForTelegram; the menu conversion takes that whole preprocessing as its `preprocess` parameter), `LanguageData.lookup`, Python `str()` on a field value, md5 hashing, `traceback`/`sys` in `BotError`, the hash of a tuple, and Python's `int()` parsing of chat ids.
- Frontend values from outside the modelled files are parameters: `boundingBox` (imported by templates.ts from a module that is not part of this model), the start-command entrypoint id, the base URL and base path, `encodeURIComponent`, the i18n formatter `t`, `crypto.randomUUID` and `Math.random`.
- frontend/src/studio/nodes/FormBlock/prefill.ts calls a four-argument `validateLocalizableText` that is not part of this model; the model uses the three-argument validator of nodeValidators.ts.
- defaultConfigs.ts calls a two-argument `updateWithPrefilled` that is not part of this model. `DefaultFormBlockConfig` applies the prefilled messages through the per-entry rule of prefill.ts, with the remembered texts and the locale as parameters.
- Templates.ApplyTemplate: requires the template's config to be a different object from the bot's config, since aliasing the two is not modelled.
- A node's hue is given as its decimal text. The colour generation of form fields is not modelled: it uses an md5 seed and floating-point modulo.
- Regex-based catch-all matching, per-field form validation, branch consistency, node cloning and placement search, `join_localizable_texts` and splitting of long captions are not modelled. They are outside the modelled files or depend on engines outside them.
- The setup of the form block beyond its templates (the form engine and its handlers) is I/O and is not modelled.
- The content block's `enter` sending of messages and media groups is I/O. Only whether sending raises and the block it moves on to are modelled.
- ContentPy.EnterMatchesPossibleNext: holds once the contents are sent. As written, a content with two or more attachments, one of them an image, raises `TypeError` at content.py:147-150 or 156-159 (`list.append` takes no keyword arguments), so `enter` never moves on; EnterAsWritten states this. A content with several attachments and no image sends an empty media group, which is an API call and is not modelled.
- Localizable texts keep their language entries in insertion order, like JavaScript objects. Python dict iteration order is modelled only where it matters: the last write wins in `block_by_id`.
- ErrorsStore.HandlerEq: handlers of other classes are compared by an identity number, since Python object identity is not modelled.
- FormResultsStore.ReadPage: states only the page's size bound for every input; its contents are stated by ReadPageIsPage for a count of at least one, and by EmptyFirstPageReadsAll for a count of zero at offset 0.
- FilesDownloader.FilesCache.EvictExtraCachedFiles: follows the corrected line 95 and evicts the least recently used files too; the code as written evicts only the files without an access record, which EvictionSetAsWritten and AsWrittenEvictsNothing state. Ties between equal access times are broken in any order, since Python's dict order is not modelled.
- ConstructorStore.Store.LoadBotInfo: reads the admin chats of the running version even when it is version 0, the corrected choice; the code as written (store.py:191) reads the newest version's chats then, which FirstRunningVersionAsWritten states.
- Strings.PyStrRepr: non-ASCII characters that Python does not count as printable are kept as they are; Python writes them as `\x`, `\u` or `\U` escapes, which depend on the Unicode database.
- Canvas coordinates (`FlowTypes.Position`, `Templates.BoundingBox`) are integers, while the frontend's are JavaScript numbers: fractional positions are not modelled, and the integer arithmetic of templates.ts:77-85 matches the frontend's only while values stay below 2^53.
- PyUtils.IterBatches: sizes are integers; the source's `SizeT` also admits floats, whose rounding is not modelled.
- FilesDownloader.FilesCache.GetBase64File: the access-time write (telegram_files_downloader.py:57) and the cache read are assumed to succeed; a raise from either propagates to the caller in the source.
- StoreEvents.LoadTimestamps: its own contract states the empty-log and creation-time cases; the update, run and deletion times are stated by LoadTimestampsSpec.

## Findings

| source | as written | input that shows it | evidently intended | confidence | as-written member | corrected member |
|---|---|---|---|---|---|---|
| telebot_constructor/telegram_files_downloader.py:95 | `evict_file_ids.union(...)` builds a new set and discards it, so the least recently used files are never added to the eviction set | three cached files, each with an access record, and a limit of 2: nothing is evicted | add the `evict_count` least recently used files to the set (`update` or `\|=`) | high; not executed | FilesDownloader.AsWrittenEvictsNothing | FilesDownloader.FilesCache.SelectEvictions |
| telebot_constructor/store/store.py:191 | `version=running_version or -1` treats running version 0 as absent | a bot that runs version 0 and has two versions with different configs: its admin chats come from version 1 | read the admin chats from the running version whenever one is set, including 0 | high; not executed | ConstructorStore.FirstRunningVersionAsWritten | ConstructorStore.AdminChatsVersion |
| telebot_constructor/user_flow/blocks/content.py:147-159 | `media_group.append(InputMediaPhoto(...), **common_kwargs ...)` passes the send arguments to `list.append`, which takes no keyword arguments | a content block with one content holding two image attachments and a next block: `enter` raises `TypeError` and never enters the next block | add the caption and parse mode to the first `InputMediaPhoto` and send the group with the chat id | high; not executed | ContentPy.TwoImagesNeverMoveOn | ContentPy.EnterMatchesPossibleNext |
