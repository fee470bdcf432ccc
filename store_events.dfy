/** The bot event log and the helpers shared by the main store
    (telebot_constructor/store/__init__.py): stamping a record with the current time,
    the timestamps summarised from a bot's event log, and listing a user's bots from
    the store's keys. Timestamps are whole numbers of seconds; the current time is a
    parameter. */
module StoreEvents {
  import opened Base

  /** The kinds of `BotEvent`, as the backend's timestamp summary tells them apart: the
      same events as `BotEvents.EventKind`, without the version payloads of started and
      edited events, which nothing here reads. */
  datatype EventKind = Stopped | Deleted | Started | Edited

  /** A logged event; `timestamp` is the optional key of the event dict. */
  datatype BotEvent = BotEvent(kind: EventKind, timestamp: Option<int>, username: string)

  /** The timestamp a record holds after `set_current_timestamp`. */
  function Stamped(timestamp: Option<int>, now: int): (r: Option<int>)
    ensures r.Some?
    ensures timestamp.Some? ==> r == timestamp
    ensures timestamp.None? ==> r == Some(now)
  {
    if timestamp.None? then Some(now) else timestamp
  }

  /** Stamping twice is stamping once: the second call finds the first one's time. */
  lemma StampedIdempotent(timestamp: Option<int>, now: int, later: int)
    ensures Stamped(Stamped(timestamp, now), later) == Stamped(timestamp, now)
  {
  }

  /** A dict with an optional "timestamp" key (`BotConfigVersionMetadata` or `BotEvent`),
      which `set_current_timestamp` updates in place. */
  class TimestampedData {
    var timestamp: Option<int>

    constructor (timestamp: Option<int>)
      ensures this.timestamp == timestamp
    {
      this.timestamp := timestamp;
    }

    /** `set_current_timestamp`: adds the current time when the key is absent and never
        overwrites a time that is there. */
    method SetCurrentTimestamp(now: int)
      modifies this
      ensures timestamp == Stamped(old(timestamp), now)
    {
      if timestamp.None? {
        timestamp := Some(now);
      }
    }
  }

  /** `[e for e in events if e["event"] == kind]`. */
  function OfKind(events: seq<BotEvent>, kind: EventKind): seq<BotEvent>
  {
    Filter(events, (e: BotEvent) => e.kind == kind)
  }

  /** Position `i` holds the last event of the kind. */
  predicate IsLastOfKind(events: seq<BotEvent>, kind: EventKind, i: int)
  {
    0 <= i < |events| && events[i].kind == kind && forall j :: i < j < |events| ==> events[j].kind != kind
  }

  /** The events of a kind are none exactly when no event has that kind, and otherwise
      the last of them is the log's last event of that kind. */
  lemma {:induction false} LastOfKind(events: seq<BotEvent>, kind: EventKind)
    ensures OfKind(events, kind) == [] <==> forall i :: 0 <= i < |events| ==> events[i].kind != kind
    ensures OfKind(events, kind) != [] ==>
      exists i :: IsLastOfKind(events, kind, i) && events[i] == OfKind(events, kind)[|OfKind(events, kind)| - 1]
  {
    var p := (e: BotEvent) => e.kind == kind;
    if events != [] {
      var n := |events|;
      var init := events[..n - 1];
      var last := events[n - 1];
      assert events == init + [last];
      LastOfKind(init, kind);
      FilterAppend(init, [last], p);
      assert Filter([last], p) == (if p(last) then [last] else []) + Filter([], p);
      if last.kind == kind {
        assert IsLastOfKind(events, kind, n - 1);
      } else if OfKind(init, kind) != [] {
        var i :| IsLastOfKind(init, kind, i) && init[i] == OfKind(init, kind)[|OfKind(init, kind)| - 1];
        assert IsLastOfKind(events, kind, i);
      } else {
        assert forall i :: 0 <= i < |events| ==> events[i].kind != kind by {
          forall i | 0 <= i < |events| ensures events[i].kind != kind {
            if i < n - 1 { assert events[i] == init[i]; }
          }
        }
      }
    }
  }

  /** The times `load_timestamps` reports. */
  datatype BotTimestamps = BotTimestamps(createdAt: int, lastUpdatedAt: int, lastRunAt: Option<int>, deletedAt: Option<int>)

  /** The timestamp of the last element, when there is one; `Raises` stands for the
      exception of a missing "timestamp" key. */
  function LastTimestamp(events: seq<BotEvent>): Throws<Option<int>>
  {
    if events == [] then Returns(None)
    else if events[|events| - 1].timestamp.None? then Raises("timestamp")
    else Returns(events[|events| - 1].timestamp)
  }

  /** `load_timestamps` over a snapshot of the event log: None for an empty log, and None
      (the caught exception) when the log has no edited event or a timestamp it reads is
      missing. */
  function LoadTimestamps(events: seq<BotEvent>): (r: Option<BotTimestamps>)
    ensures events == [] ==> r.None?
    ensures r.Some? ==> events[0].timestamp == Some(r.value.createdAt)
  {
    if events == [] then None
    else
      var edited := OfKind(events, Edited);
      var lastRun := LastTimestamp(OfKind(events, Started));
      var deleted := LastTimestamp(OfKind(events, Deleted));
      if events[0].timestamp.None? || edited == [] || edited[|edited| - 1].timestamp.None? then None
      else if lastRun.Raises? || deleted.Raises? then None
      else Some(BotTimestamps(events[0].timestamp.value, edited[|edited| - 1].timestamp.value, lastRun.value, deleted.value))
  }

  /** What `LastTimestamp` of a kind's events says about the log: nothing when the kind
      never occurs, else the last such event's timestamp. */
  lemma LastTimestampOfKind(events: seq<BotEvent>, kind: EventKind)
    ensures LastTimestamp(OfKind(events, kind)) == Returns(None) <==> forall i :: 0 <= i < |events| ==> events[i].kind != kind
    ensures LastTimestamp(OfKind(events, kind)).Returns? && LastTimestamp(OfKind(events, kind)).value.Some? ==>
      exists i :: IsLastOfKind(events, kind, i) && events[i].timestamp == LastTimestamp(OfKind(events, kind)).value
  {
    LastOfKind(events, kind);
  }

  /** The summary in terms of the log: the creation time is the first event's, the update
      time is the last edited event's, and the run and deletion times are those of the
      last started and deleted events, absent when there is none. */
  lemma LoadTimestampsSpec(events: seq<BotEvent>)
    ensures (forall i :: 0 <= i < |events| ==> events[i].kind != Edited) ==> LoadTimestamps(events).None?
    ensures LoadTimestamps(events).Some? ==>
      exists i :: IsLastOfKind(events, Edited, i) && events[i].timestamp == Some(LoadTimestamps(events).value.lastUpdatedAt)
    ensures LoadTimestamps(events).Some? ==>
      (LoadTimestamps(events).value.lastRunAt.None? <==> forall i :: 0 <= i < |events| ==> events[i].kind != Started)
    ensures LoadTimestamps(events).Some? && LoadTimestamps(events).value.lastRunAt.Some? ==>
      exists i :: IsLastOfKind(events, Started, i) && events[i].timestamp == LoadTimestamps(events).value.lastRunAt
    ensures LoadTimestamps(events).Some? ==>
      (LoadTimestamps(events).value.deletedAt.None? <==> forall i :: 0 <= i < |events| ==> events[i].kind != Deleted)
    ensures LoadTimestamps(events).Some? && LoadTimestamps(events).value.deletedAt.Some? ==>
      exists i :: IsLastOfKind(events, Deleted, i) && events[i].timestamp == LoadTimestamps(events).value.deletedAt
  {
    LastOfKind(events, Edited);
    LastTimestampOfKind(events, Started);
    LastTimestampOfKind(events, Deleted);
  }

  /** A log whose events all carry a timestamp and which holds an edited event always
      gives a summary. */
  lemma StampedLogHasTimestamps(events: seq<BotEvent>, i: nat)
    requires forall j :: 0 <= j < |events| ==> events[j].timestamp.Some?
    requires i < |events| && events[i].kind == Edited
    ensures LoadTimestamps(events).Some?
  {
    LastOfKind(events, Edited);
    LastOfKind(events, Started);
    LastOfKind(events, Deleted);
    forall kind ensures forall j :: 0 <= j < |OfKind(events, kind)| ==> OfKind(events, kind)[j].timestamp.Some? {
      forall j | 0 <= j < |OfKind(events, kind)| ensures OfKind(events, kind)[j].timestamp.Some? {
        FilterMembership(events, (e: BotEvent) => e.kind == kind, OfKind(events, kind)[j]);
      }
    }
  }

  /** `_composite_key(owner, bot)`. */
  function BotKey(owner: string, botId: string): (r: string)
    ensures r == owner + "/" + botId
  {
    owner + "/" + botId
  }

  /** `str.removeprefix`. */
  function RemovePrefix(s: string, prefix: string): (r: string)
    ensures |prefix| <= |s| && s[..|prefix|] == prefix ==> r == s[|prefix|..]
    ensures !(|prefix| <= |s| && s[..|prefix|] == prefix) ==> r == s
  {
    if |prefix| <= |s| && s[..|prefix|] == prefix then s[|prefix|..] else s
  }

  /** `list_bot_ids`: the keys found for the pattern of the owner's key with a wildcard
      bot id, each with the prefix "owner/" removed. The key search itself belongs to the store and `keys` is its answer. */
  function ListBotIds(keys: seq<string>, owner: string): (r: seq<string>)
    ensures |r| == |keys|
    ensures forall i :: 0 <= i < |keys| ==> r[i] == RemovePrefix(keys[i], BotKey(owner, ""))
  {
    Map(keys, (k: string) => RemovePrefix(k, BotKey(owner, "")))
  }

  /** A key built from an owner and a bot id lists as that bot id, whatever the id holds. */
  lemma ListBotIdsOfKeys(owner: string, botIds: seq<string>)
    ensures ListBotIds(Map(botIds, (b: string) => BotKey(owner, b)), owner) == botIds
  {
    var keys := Map(botIds, (b: string) => BotKey(owner, b));
    forall i | 0 <= i < |botIds| ensures RemovePrefix(keys[i], BotKey(owner, "")) == botIds[i] {
      assert keys[i] == BotKey(owner, "") + botIds[i];
      assert keys[i][..|BotKey(owner, "")|] == BotKey(owner, "");
    }
  }
}
