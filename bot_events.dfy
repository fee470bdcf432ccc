/** Bot lifecycle events and version metadata as stored by the backend
    (telebot_constructor/store/types.py) and read by the frontend. */
module BotEvents {
  import opened Base

  /** A config version number, or the "stub" a bot runs before it has a real config. */
  datatype BotVersion = VersionNumber(number: int) | Stub

  /** The event kinds with their payloads, as frontend/src/api/typeUtils.ts reads them.
      The backend's event log keeps the same events; `StoreEvents.EventKind` drops the
      payloads, which the store's timestamp summary does not look at. */
  datatype EventKind = Stopped | Deleted | Started(version: BotVersion) | Edited(newVersion: int)

  /** Timestamps are seconds since the epoch; the key may be absent in stored events. */
  datatype BotEvent = BotEvent(kind: EventKind, timestamp: Option<int>, username: string)

  datatype BotConfigVersionMetadata = BotConfigVersionMetadata(timestamp: Option<int>, message: Option<string>)
}
