/** The main application store (telebot_constructor/store/store.py): versioned bot
    configs, running versions, event logs and display names, kept as maps in the fields of
    `Store`, and what `load_version_info` and `load_bot_info` read from them. The stored
    configs are reduced to the blocks of their user flow, which is all these operations
    look at. */
module ConstructorStore {
  import opened Base
  import opened FlowTypes
  import RedisList
  import StoreEvents

  /** `BotVersion`: a config version number, or "stub". */
  datatype BotVersion = VersionNumber(number: int) | StubVersion

  /** `BotConfigVersionMetadata`. */
  datatype VersionMeta = VersionMeta(timestamp: Option<int>, message: Option<string>)

  /** A stored config, reduced to its user flow's blocks. */
  datatype BotConfig = BotConfig(blocks: seq<BlockConfig>)

  /** One stored version: the config and its metadata, which may be missing. */
  datatype RawVersion = RawVersion(config: BotConfig, meta: Option<VersionMeta>)

  /** `BotVersionInfo`. */
  datatype VersionInfo = VersionInfo(version: int, metadata: VersionMeta)

  /** `BotInfo`; the form list, the error page and the alert chat come from the form
      results and errors stores and are passed in as they were loaded. */
  datatype BotInfo<F, E> = BotInfo(
    botId: string,
    displayName: string,
    runningVersion: Option<int>,
    runningVersionInfo: Option<VersionInfo>,
    lastVersions: seq<VersionInfo>,
    lastEvents: seq<StoreEvents.BotEvent>,
    formsWithResponses: seq<F>,
    lastErrors: seq<E>,
    adminChatIds: seq<ChatId>,
    alertChatId: Option<ChatId>)

  /** Loading a single version by number (`load_version`): counted from the start for a
      non-negative number and from the end for a negative one, as Python indexes a list;
      None when out of range. */
  function LoadConfigVersion(versions: seq<RawVersion>, version: int): (r: Option<BotConfig>)
    ensures r.Some? <==> -|versions| <= version < |versions|
    ensures 0 <= version < |versions| ==> r == Some(versions[version].config)
    ensures -|versions| <= version < 0 ==> r == Some(versions[|versions| + version].config)
  {
    if 0 <= version < |versions| then Some(versions[version].config)
    else if -|versions| <= version < 0 then Some(versions[|versions| + version].config)
    else None
  }

  /** The range normalisation at the start of `load_version_info`: a negative start
      counts from the end and is clamped at 0; a negative end counts from the end, and
      None stands for the early empty return when it is still negative. */
  function NormaliseVersionRange(start: int, end: Option<int>, total: nat): (r: Option<(nat, Option<int>)>)
    ensures r.None? <==> end.Some? && end.value < 0 && total + end.value < 0
    ensures r.Some? && start >= 0 ==> r.value.0 == start
    ensures r.Some? && start < 0 ==> r.value.0 == if total + start < 0 then 0 else total + start
    ensures r.Some? ==> r.value.1 == if end.Some? && end.value < 0 then Some(total + end.value) else end
    ensures r.Some? && r.value.1.Some? ==> r.value.1.value >= 0 || end.value >= 0
  {
    var s := if start < 0 then (if total + start < 0 then 0 else total + start) else start;
    if end.Some? && end.value < 0 then
      if total + end.value < 0 then None else Some((s, Some(total + end.value)))
    else Some((s, end))
  }

  /** A version in range is found under its negative number too: normalising -k gives
      the version `total - k` that Python's index -k reaches. */
  lemma NormaliseNegativeVersion(k: int, total: nat)
    requires 1 <= k <= total
    ensures NormaliseVersionRange(-k, Some(-k), total) == Some((total - k, Some(total - k)))
  {
  }

  /** The metadata of the versions read, skipping versions without one. */
  function VersionMetadata(raw: seq<RawVersion>): seq<VersionMeta>
  {
    Values(Map(raw, (v: RawVersion) => v.meta))
  }

  /** `load_version_info` on a version list: the versions from the normalised start to the
      normalised end (both included; to the last version when there is no end), each
      metadata numbered consecutively from the start. */
  function LoadVersionInfoOf(versions: seq<RawVersion>, start: int, end: Option<int>): (r: seq<VersionInfo>)
    ensures NormaliseVersionRange(start, end, |versions|).None? ==> r == []
    ensures |r| <= |versions|
    ensures NormaliseVersionRange(start, end, |versions|).Some? ==>
      forall i :: 0 <= i < |r| ==> r[i].version == NormaliseVersionRange(start, end, |versions|).value.0 + i
  {
    var range := NormaliseVersionRange(start, end, |versions|);
    if range.None? then []
    else
      var (s, e) := range.value;
      var raw := if e.None? then RedisList.LRange(versions, s, -1) else RedisList.LRange(versions, s, e.value);
      var metadata := VersionMetadata(raw);
      assert |Map(raw, (v: RawVersion) => v.meta)| == |raw|;
      seq(|metadata|, i requires 0 <= i < |metadata| => VersionInfo(s + i, metadata[i]))
  }

  predicate AllHaveMetadata(versions: seq<RawVersion>)
  {
    forall i :: 0 <= i < |versions| ==> versions[i].meta.Some?
  }

  /** The metadata of versions that all have one, in order. */
  lemma {:induction false} MetadataOfComplete(raw: seq<RawVersion>)
    requires AllHaveMetadata(raw)
    ensures |VersionMetadata(raw)| == |raw|
    ensures forall i :: 0 <= i < |raw| ==> VersionMetadata(raw)[i] == raw[i].meta.value
  {
    if raw != [] {
      MetadataOfComplete(raw[1..]);
      assert Map(raw, (v: RawVersion) => v.meta) == [raw[0].meta] + Map(raw[1..], (v: RawVersion) => v.meta);
      ValuesAppend([raw[0].meta], Map(raw[1..], (v: RawVersion) => v.meta));
      assert Values([raw[0].meta]) == [raw[0].meta.value] + Values([]);
    }
  }

  /** When every version has its metadata, a range within the list gives exactly the
      versions from start to end, numbered by their position. */
  lemma LoadVersionRange(versions: seq<RawVersion>, start: nat, end: nat)
    requires AllHaveMetadata(versions)
    requires start <= end < |versions|
    ensures |LoadVersionInfoOf(versions, start, Some(end))| == end - start + 1
    ensures forall i :: 0 <= i <= end - start ==>
      LoadVersionInfoOf(versions, start, Some(end))[i] == VersionInfo(start + i, versions[start + i].meta.value)
  {
    var raw := versions[start..end + 1];
    assert RedisList.LRange(versions, start, end) == raw;
    MetadataOfComplete(raw);
  }

  /** With no end, the versions from the start to the last one. */
  lemma LoadVersionTail(versions: seq<RawVersion>, start: nat)
    requires AllHaveMetadata(versions)
    requires start <= |versions|
    ensures |LoadVersionInfoOf(versions, start, None)| == |versions| - start
    ensures forall i :: 0 <= i < |versions| - start ==>
      LoadVersionInfoOf(versions, start, None)[i] == VersionInfo(start + i, versions[start + i].meta.value)
  {
    var raw := RedisList.LRange(versions, start, -1);
    assert raw == versions[start..];
    MetadataOfComplete(raw);
  }

  /** Asking for one version, by its number or by its negative number, gives that version
      alone. */
  lemma LoadSingleVersion(versions: seq<RawVersion>, version: int)
    requires AllHaveMetadata(versions)
    requires -|versions| <= version < |versions|
    ensures var index := if version < 0 then |versions| + version else version;
      LoadVersionInfoOf(versions, version, Some(version)) == [VersionInfo(index, versions[index].meta.value)]
  {
    var index := if version < 0 then |versions| + version else version;
    assert NormaliseVersionRange(version, Some(version), |versions|) == Some((index, Some(index)));
    LoadVersionRange(versions, index, index);
  }

  predicate HasHumanOperator(b: BlockConfig)
  {
    b.humanOperator.Some?
  }

  /** `chat` is the admin chat of the block's human operator. */
  predicate IsOperatorChat(b: BlockConfig, chat: ChatId)
  {
    b.humanOperator.Some? && chat == NumericChatId(b.humanOperator.value.feedbackHandlerConfig.adminChatId)
  }

  /** The admin chats of the human operator blocks, in block order. */
  function HumanOperatorChats(blocks: seq<BlockConfig>): (r: seq<ChatId>)
    ensures forall x :: x in r <==> exists i :: 0 <= i < |blocks| && IsOperatorChat(blocks[i], x)
    ensures PairsWithFiltered(blocks, HasHumanOperator, r, IsOperatorChat)
  {
    if blocks == [] then []
    else
      var head := if blocks[0].humanOperator.Some? then [NumericChatId(blocks[0].humanOperator.value.feedbackHandlerConfig.adminChatId)] else [];
      var rest := HumanOperatorChats(blocks[1..]);
      assert forall i :: 1 <= i < |blocks| ==> blocks[i] == blocks[1..][i - 1];
      PairsWithFilteredCons(blocks, HasHumanOperator, head, rest, IsOperatorChat);
      head + rest
  }

  /** The block's form exports its results straight to `chat` (not through a feedback
      handler). */
  predicate ExportsToChat(b: BlockConfig, chat: ChatId)
  {
    b.form.Some? && b.form.value.resultsExport.toChat.Some?
    && !b.form.value.resultsExport.toChat.value.viaFeedbackHandler
    && b.form.value.resultsExport.toChat.value.chatId == chat
  }

  /** The block's form exports its results straight to some chat. */
  predicate ExportsDirectly(b: BlockConfig)
  {
    b.form.Some? && b.form.value.resultsExport.toChat.Some? && !b.form.value.resultsExport.toChat.value.viaFeedbackHandler
  }

  /** The chats that forms export to directly, in block order. */
  function FormExportChats(blocks: seq<BlockConfig>): (r: seq<ChatId>)
    ensures forall x :: x in r <==> exists i :: 0 <= i < |blocks| && ExportsToChat(blocks[i], x)
    ensures PairsWithFiltered(blocks, ExportsDirectly, r, ExportsToChat)
  {
    if blocks == [] then []
    else
      var b := blocks[0];
      var head := if b.form.Some? && b.form.value.resultsExport.toChat.Some? && !b.form.value.resultsExport.toChat.value.viaFeedbackHandler
        then [b.form.value.resultsExport.toChat.value.chatId] else [];
      var rest := FormExportChats(blocks[1..]);
      assert forall i :: 1 <= i < |blocks| ==> blocks[i] == blocks[1..][i - 1];
      PairsWithFilteredCons(blocks, ExportsDirectly, head, rest, ExportsToChat);
      head + rest
  }

  /** The admin chats `load_bot_info` collects from a config: the human operators' chats,
      then the forms' export chats. */
  function AdminChatIds(config: BotConfig): (r: seq<ChatId>)
    ensures |r| == |HumanOperatorChats(config.blocks)| + |FormExportChats(config.blocks)|
    ensures r[..|HumanOperatorChats(config.blocks)|] == HumanOperatorChats(config.blocks)
    ensures r[|HumanOperatorChats(config.blocks)|..] == FormExportChats(config.blocks)
  {
    HumanOperatorChats(config.blocks) + FormExportChats(config.blocks)
  }

  /** The version whose config the admin chats are read from, as written
      (`running_version or -1`): version 0 is falsy, so it reads the newest version. */
  function AdminChatsVersionAsWritten(runningVersion: Option<int>): int
  {
    if runningVersion.None? || runningVersion.value == 0 then -1 else runningVersion.value
  }

  /** The version the admin chats are meant to come from: the running one, or the newest
      when no version runs. */
  function AdminChatsVersion(runningVersion: Option<int>): (r: int)
    ensures runningVersion.Some? ==> r == runningVersion.value
    ensures runningVersion.None? ==> r == -1
  {
    if runningVersion.None? then -1 else runningVersion.value
  }

  /** As written, a bot running its first version (0) among several shows the admin
      chats of its newest version instead. */
  lemma FirstRunningVersionAsWritten(versions: seq<RawVersion>)
    requires |versions| >= 2 && versions[0].config != versions[|versions| - 1].config
    ensures LoadConfigVersion(versions, AdminChatsVersionAsWritten(Some(0))) == Some(versions[|versions| - 1].config)
    ensures LoadConfigVersion(versions, AdminChatsVersion(Some(0))) == Some(versions[0].config)
    ensures LoadConfigVersion(versions, AdminChatsVersionAsWritten(Some(0))) != LoadConfigVersion(versions, AdminChatsVersion(Some(0)))
  {
  }

  /** The two agree for every running version but 0. */
  lemma AdminChatsVersionAgrees(runningVersion: Option<int>)
    requires runningVersion != Some(0)
    ensures AdminChatsVersionAsWritten(runningVersion) == AdminChatsVersion(runningVersion)
  {
  }

  /** The admin chats of the config a bot with this running version shows: none when
      that config cannot be loaded. */
  function AdminChatsOf(versions: seq<RawVersion>, runningVersion: Option<int>): (r: seq<ChatId>)
    ensures LoadConfigVersion(versions, AdminChatsVersion(runningVersion)).None? ==> r == []
    ensures LoadConfigVersion(versions, AdminChatsVersion(runningVersion)).Some? ==>
      r == AdminChatIds(LoadConfigVersion(versions, AdminChatsVersion(runningVersion)).value)
  {
    var config := LoadConfigVersion(versions, AdminChatsVersion(runningVersion));
    if config.Some? then AdminChatIds(config.value) else []
  }

  /** `x or default` on an optional string: None and "" fall back. */
  function OrDefault(x: Option<string>, default: string): (r: string)
    ensures x.Some? && x.value != "" ==> r == x.value
    ensures x.None? || x.value == "" ==> r == default
  {
    if x.Some? && x.value != "" then x.value else default
  }

  /** The `k` most recent events (`tail(start=-k)`), fewer when the log is shorter. */
  lemma LastEventsAreTail(events: seq<StoreEvents.BotEvent>, k: nat)
    requires k >= 1
    ensures RedisList.LRange(events, -(k as int), -1) == events[(if |events| < k then 0 else |events| - k)..]
  {
  }

  class Store {
    /** Owner and bot key to the config versions, oldest first. */
    var configs: map<string, seq<RawVersion>>
    /** Owner to bot id to running version. */
    var runningVersions: map<string, map<string, BotVersion>>
    /** Owner and bot key to the bot's event log. */
    var events: map<string, seq<StoreEvents.BotEvent>>
    /** Owner to bot id to display name. */
    var displayNames: map<string, map<string, string>>

    constructor ()
      ensures configs == map[] && runningVersions == map[] && events == map[] && displayNames == map[]
    {
      configs := map[];
      runningVersions := map[];
      events := map[];
      displayNames := map[];
    }

    function Versions(owner: string, botId: string): seq<RawVersion>
      reads this
    {
      var key := StoreEvents.BotKey(owner, botId);
      if key in configs then configs[key] else []
    }

    function Events(owner: string, botId: string): seq<StoreEvents.BotEvent>
      reads this
    {
      var key := StoreEvents.BotKey(owner, botId);
      if key in events then events[key] else []
    }

    /** `get_bot_running_version`. */
    function RunningVersion(owner: string, botId: string): Option<BotVersion>
      reads this
    {
      if owner in runningVersions && botId in runningVersions[owner] then Some(runningVersions[owner][botId]) else None
    }

    /** `load_bot_display_name`. */
    function DisplayName(owner: string, botId: string): Option<string>
      reads this
    {
      if owner in displayNames && botId in displayNames[owner] then Some(displayNames[owner][botId]) else None
    }

    /** `is_bot_exists`: the bot has at least one config version. */
    function IsBotExists(owner: string, botId: string): (r: bool)
      reads this
      ensures r <==> |Versions(owner, botId)| > 0
    {
      |Versions(owner, botId)| > 0
    }

    /** `load_owner_id`: the actor, when the bot exists under the actor's id. */
    function LoadOwnerId(actorId: string, botId: string): (r: Option<string>)
      reads this
      ensures r.Some? <==> IsBotExists(actorId, botId)
      ensures r.Some? ==> r.value == actorId
    {
      if IsBotExists(actorId, botId) then Some(actorId) else None
    }

    /** `load_version_info` for one bot. */
    function LoadVersionInfo(owner: string, botId: string, start: int, end: Option<int>): (r: seq<VersionInfo>)
      reads this
      ensures r == LoadVersionInfoOf(Versions(owner, botId), start, end)
    {
      LoadVersionInfoOf(Versions(owner, botId), start, end)
    }

    /** `save_event`: stamps the event with the current time unless it has one and appends
        it to the bot's log; succeeds when the push replies 1. */
    method SaveEvent(owner: string, botId: string, event: StoreEvents.BotEvent, now: int, pushReply: int) returns (ok: bool)
      modifies this
      ensures events == old(events)[StoreEvents.BotKey(owner, botId) :=
        old(Events(owner, botId)) + [event.(timestamp := StoreEvents.Stamped(event.timestamp, now))]]
      ensures configs == old(configs) && runningVersions == old(runningVersions) && displayNames == old(displayNames)
      ensures ok <==> pushReply == 1
    {
      var stamped := event.(timestamp := StoreEvents.Stamped(event.timestamp, now));
      events := events[StoreEvents.BotKey(owner, botId) := Events(owner, botId) + [stamped]];
      ok := pushReply == 1;
    }

    /** `save_bot_config`: stamps the metadata unless it has a time and stores the config
        as the bot's newest version. */
    method SaveBotConfig(owner: string, botId: string, config: BotConfig, meta: VersionMeta, now: int, reply: bool) returns (ok: bool)
      modifies this
      ensures configs == old(configs)[StoreEvents.BotKey(owner, botId) :=
        old(Versions(owner, botId)) + [RawVersion(config, Some(meta.(timestamp := StoreEvents.Stamped(meta.timestamp, now))))]]
      ensures events == old(events) && runningVersions == old(runningVersions) && displayNames == old(displayNames)
      ensures ok == reply
    {
      var stamped := meta.(timestamp := StoreEvents.Stamped(meta.timestamp, now));
      configs := configs[StoreEvents.BotKey(owner, botId) := Versions(owner, botId) + [RawVersion(config, Some(stamped))]];
      ok := reply;
    }

    /** The running version `load_bot_info` reports: a stub counts as not running. */
    function ReportedRunningVersion(owner: string, botId: string): (r: Option<int>)
      reads this
      ensures r.Some? <==> RunningVersion(owner, botId).Some? && RunningVersion(owner, botId).value.VersionNumber?
      ensures r.Some? ==> RunningVersion(owner, botId) == Some(VersionNumber(r.value))
    {
      var running := RunningVersion(owner, botId);
      if running.Some? && running.value.VersionNumber? then Some(running.value.number) else None
    }

    /** The info of the running version: present when exactly one version info is found
        for it. */
    function RunningVersionInfo(owner: string, botId: string): (r: Option<VersionInfo>)
      reads this
      ensures r.Some? ==> ReportedRunningVersion(owner, botId).Some?
      ensures r.Some? ==> [r.value] == LoadVersionInfo(owner, botId, ReportedRunningVersion(owner, botId).value, ReportedRunningVersion(owner, botId))
    {
      var running := ReportedRunningVersion(owner, botId);
      if running.None? then None
      else
        var infos := LoadVersionInfo(owner, botId, running.value, running);
        if |infos| == 1 then Some(infos[0]) else None
    }

    /** `load_bot_info`: None for a bot without versions; otherwise the running version
        and its info (when exactly one version info is found for it), the newest version,
        the newest events (5 when detailed, else 1), the admin chats of the running config
        (the newest one when none runs; only when detailed) and the display name, which
        falls back to the bot id. */
    function LoadBotInfo<F, E>(owner: string, botId: string, detailed: bool,
                               formsWithResponses: seq<F>, errorsPage: seq<E>, alertChatId: Option<ChatId>)
      : (r: Option<BotInfo<F, E>>)
      reads this
      ensures r.None? <==> |Versions(owner, botId)| == 0
      ensures r.Some? ==> r.value.botId == botId && r.value.runningVersion == ReportedRunningVersion(owner, botId)
      ensures r.Some? ==> r.value.displayName == OrDefault(DisplayName(owner, botId), botId)
      ensures r.Some? ==> r.value.lastVersions == LoadVersionInfo(owner, botId, |Versions(owner, botId)| - 1, None)
      ensures r.Some? ==> r.value.lastEvents == RedisList.LRange(Events(owner, botId), if detailed then -5 else -1, -1)
      ensures r.Some? && !detailed ==> r.value.adminChatIds == [] && r.value.formsWithResponses == [] && r.value.lastErrors == []
      ensures r.Some? && detailed ==> r.value.formsWithResponses == formsWithResponses && r.value.lastErrors == errorsPage
      ensures r.Some? && detailed ==> r.value.adminChatIds == AdminChatsOf(Versions(owner, botId), ReportedRunningVersion(owner, botId))
      ensures r.Some? ==> r.value.alertChatId == alertChatId
      ensures r.Some? ==> r.value.runningVersionInfo == RunningVersionInfo(owner, botId)
    {
      var includeLastEvents := if detailed then 5 else 1;
      var includeLastVersions := 1;
      var running := ReportedRunningVersion(owner, botId);
      var runningInfo := RunningVersionInfo(owner, botId);
      var versionCount := |Versions(owner, botId)|;
      if versionCount == 0 then None
      else
        var minVersion := if versionCount - includeLastVersions < 0 then 0 else versionCount - includeLastVersions;
        var lastVersions := LoadVersionInfo(owner, botId, minVersion, None);
        var adminChatIds := if detailed then AdminChatsOf(Versions(owner, botId), running) else [];
        Some(BotInfo(
          botId,
          OrDefault(DisplayName(owner, botId), botId),
          running,
          runningInfo,
          lastVersions,
          RedisList.LRange(Events(owner, botId), -includeLastEvents, -1),
          if detailed then formsWithResponses else [],
          if detailed then errorsPage else [],
          adminChatIds,
          alertChatId))
    }
  }

  /** A bot whose versions all carry metadata and which runs one of them reports that
      version's info, and its newest version as the last one. */
  lemma RunningVersionInfoFound<F, E>(store: Store, owner: string, botId: string, detailed: bool,
                                      forms: seq<F>, errorsPage: seq<E>, alertChatId: Option<ChatId>)
    requires AllHaveMetadata(store.Versions(owner, botId))
    requires store.ReportedRunningVersion(owner, botId).Some?
    requires 0 <= store.ReportedRunningVersion(owner, botId).value < |store.Versions(owner, botId)|
    ensures var n := store.ReportedRunningVersion(owner, botId).value;
      var vs := store.Versions(owner, botId);
      var info := store.LoadBotInfo(owner, botId, detailed, forms, errorsPage, alertChatId);
      info.Some? && info.value.runningVersionInfo == Some(VersionInfo(n, vs[n].meta.value))
      && info.value.lastVersions == [VersionInfo(|vs| - 1, vs[|vs| - 1].meta.value)]
  {
    RunningInfoOfStore(store, owner, botId);
    NewestVersionInfo(store.Versions(owner, botId));
  }

  lemma RunningInfoOfStore(store: Store, owner: string, botId: string)
    requires AllHaveMetadata(store.Versions(owner, botId))
    requires store.ReportedRunningVersion(owner, botId).Some?
    requires 0 <= store.ReportedRunningVersion(owner, botId).value < |store.Versions(owner, botId)|
    ensures var n := store.ReportedRunningVersion(owner, botId).value;
      store.RunningVersionInfo(owner, botId) == Some(VersionInfo(n, store.Versions(owner, botId)[n].meta.value))
  {
    LoadSingleVersion(store.Versions(owner, botId), store.ReportedRunningVersion(owner, botId).value);
  }

  lemma NewestVersionInfo(vs: seq<RawVersion>)
    requires AllHaveMetadata(vs) && vs != []
    ensures LoadVersionInfoOf(vs, |vs| - 1, None) == [VersionInfo(|vs| - 1, vs[|vs| - 1].meta.value)]
  {
    LoadVersionTail(vs, |vs| - 1);
  }
}
