/** The store of bot errors (telebot_constructor/store/errors.py): the log handler's
    equality, instrumenting a logger so that it reports to one bot only, reading a page
    of errors, and the control flow of processing one error. The Redis lists are fields
    of `ErrorsStore`; failures of the store and of the alert callback are parameters. */
module ErrorsStore {
  import opened Base
  import opened FlowTypes
  import RedisList
  import PyUtils

  /** `BotError`; the time is a whole number of seconds. */
  datatype BotError = BotError(timestamp: int, message: string, excType: Option<string>, excData: Option<string>, excTraceback: Option<string>)

  /** A handler on a logger: a `BotErrorsStoreLogHandler` for one bot, or a handler of
      another class, which is compared by identity (`id`). */
  datatype Handler = StoreHandler(ownerId: string, botId: string) | OtherHandler(id: nat)

  /** `BotErrorsStoreLogHandler.__eq__` (the identity comparison for other handlers). */
  function HandlerEq(a: Handler, b: Handler): (r: bool)
    ensures a.StoreHandler? ==> (r <==> b.StoreHandler? && a.ownerId == b.ownerId && a.botId == b.botId)
  {
    if a.StoreHandler? then b.StoreHandler? && a.ownerId == b.ownerId && a.botId == b.botId
    else a == b
  }

  /** Handler equality is exactly equality of the owner and bot pair, so it is an
      equivalence. */
  lemma HandlerEqIsEquality(a: Handler, b: Handler)
    ensures HandlerEq(a, b) <==> a == b
  {
  }

  /** `__hash__`: the hash of the class name with the owner and bot, so it depends on
      nothing else; Python's tuple hash is a parameter. */
  function HandlerHash(h: Handler, tupleHash: ((string, string, string)) -> int, identityHash: nat -> int): (r: int)
    ensures h.StoreHandler? ==> r == tupleHash(("BotErrorsStoreLogHandler", h.ownerId, h.botId))
    ensures !h.StoreHandler? ==> r == identityHash(h.id)
  {
    if h.StoreHandler? then tupleHash(("BotErrorsStoreLogHandler", h.ownerId, h.botId)) else identityHash(h.id)
  }

  /** Equal handlers hash alike, whatever the tuple hash is. */
  lemma HashAgreesWithEq(a: Handler, b: Handler, tupleHash: ((string, string, string)) -> int, identityHash: nat -> int)
    requires HandlerEq(a, b)
    ensures HandlerHash(a, tupleHash, identityHash) == HandlerHash(b, tupleHash, identityHash)
  {
  }

  /** A logger and its list of handlers. */
  class Logger {
    var name: string
    var handlers: seq<Handler>

    constructor (name: string, handlers: seq<Handler>)
      ensures this.name == name && this.handlers == handlers
    {
      this.name := name;
      this.handlers := handlers;
    }
  }

  /** Some handler on the logger reports to a different bot than `handler`. */
  predicate Conflicts(handlers: seq<Handler>, handler: Handler)
  {
    exists i :: 0 <= i < |handlers| && handlers[i].StoreHandler? && !HandlerEq(handlers[i], handler)
  }

  /** `Logger.addHandler`: appends unless an equal handler is already there. */
  function AddHandler(handlers: seq<Handler>, handler: Handler): (r: seq<Handler>)
    ensures handler in r
    ensures handler in handlers ==> r == handlers
    ensures handler !in handlers ==> r == handlers + [handler]
  {
    if handler in handlers then handlers else handlers + [handler]
  }

  /** The handler is not an error-store handler. */
  predicate IsOtherHandler(h: Handler)
  {
    !h.StoreHandler?
  }

  /** The handlers left on a logger by `instrument(li, owner, bot)`: on a conflict, the
      other handlers in their order and with their repeats, as the comprehension keeps them. */
  function InstrumentedHandlers(handlers: seq<Handler>, ownerId: string, botId: string): (r: seq<Handler>)
    ensures forall h: Handler :: h.OtherHandler? ==> (h in r <==> h in handlers)
    ensures Conflicts(handlers, StoreHandler(ownerId, botId)) ==> forall i :: 0 <= i < |r| ==> r[i].OtherHandler?
    ensures Conflicts(handlers, StoreHandler(ownerId, botId)) ==> r == Filter(handlers, IsOtherHandler)
    ensures !Conflicts(handlers, StoreHandler(ownerId, botId)) ==> StoreHandler(ownerId, botId) in r
    ensures !Conflicts(handlers, StoreHandler(ownerId, botId)) ==> |handlers| <= |r| <= |handlers| + 1 && r[..|handlers|] == handlers
    ensures !Conflicts(handlers, StoreHandler(ownerId, botId)) ==> r == AddHandler(handlers, StoreHandler(ownerId, botId))
  {
    var handler := StoreHandler(ownerId, botId);
    if Conflicts(handlers, handler) then
      var r := Filter(handlers, IsOtherHandler);
      forall h ensures h in r <==> h in handlers && !h.StoreHandler? {
        FilterMembership(handlers, IsOtherHandler, h);
      }
      r
    else AddHandler(handlers, handler)
  }

  /** `BotErrorsStore.instrument`. */
  method Instrument(li: Logger, ownerId: string, botId: string)
    modifies li
    ensures li.handlers == InstrumentedHandlers(old(li.handlers), ownerId, botId)
    ensures li.name == old(li.name)
  {
    var handler := StoreHandler(ownerId, botId);
    if Conflicts(li.handlers, handler) {
      li.handlers := Filter(li.handlers, IsOtherHandler);
    } else {
      li.handlers := AddHandler(li.handlers, handler);
    }
  }

  /** Every error-store handler on the logger reports to the same bot. */
  predicate OneBot(handlers: seq<Handler>)
  {
    forall i, j :: 0 <= i < |handlers| && 0 <= j < |handlers| && handlers[i].StoreHandler? && handlers[j].StoreHandler? ==>
      handlers[i] == handlers[j]
  }

  /** After an `instrument` call, whatever the logger held before, its error-store
      handlers all report to one bot: either the new one or none. */
  lemma InstrumentLeavesOneBot(handlers: seq<Handler>, ownerId: string, botId: string)
    ensures OneBot(InstrumentedHandlers(handlers, ownerId, botId))
    ensures forall h: Handler :: h in InstrumentedHandlers(handlers, ownerId, botId) && h.StoreHandler? ==> h == StoreHandler(ownerId, botId)
  {
    var handler := StoreHandler(ownerId, botId);
    var r := InstrumentedHandlers(handlers, ownerId, botId);
    if !Conflicts(handlers, handler) {
      forall i | 0 <= i < |r| && r[i].StoreHandler? ensures r[i] == handler {
        if i < |handlers| {
          assert r[i] == handlers[i];
        }
      }
    }
  }

  /** The error-store handlers on the logger. */
  function StoreHandlers(handlers: seq<Handler>): seq<Handler>
  {
    Filter(handlers, (h: Handler) => h.StoreHandler?)
  }

  /** A logger with at most one error-store handler keeps at most one: re-instrumenting
      for the same bot adds no second copy. */
  lemma InstrumentKeepsSingleHandler(handlers: seq<Handler>, ownerId: string, botId: string)
    requires |StoreHandlers(handlers)| <= 1
    ensures |StoreHandlers(InstrumentedHandlers(handlers, ownerId, botId))| <= 1
  {
    var handler := StoreHandler(ownerId, botId);
    var r := InstrumentedHandlers(handlers, ownerId, botId);
    var isStore := (h: Handler) => h.StoreHandler?;
    if Conflicts(handlers, handler) {
      if StoreHandlers(r) != [] {
        FilterMembership(r, isStore, StoreHandlers(r)[0]);
      }
    } else if handler !in handlers {
      if StoreHandlers(handlers) != [] {
        var h := StoreHandlers(handlers)[0];
        FilterMembership(handlers, isStore, h);
        assert false;
      }
      FilterAppend(handlers, [handler], isStore);
      assert Filter([handler], isStore) == [handler] + Filter([], isStore);
    }
  }

  /** The handlers after instrumenting for each (owner, bot) pair in turn. */
  function InstrumentAll(handlers: seq<Handler>, calls: seq<(string, string)>): seq<Handler>
  {
    if calls == [] then handlers
    else InstrumentedHandlers(InstrumentAll(handlers, calls[..|calls| - 1]), calls[|calls| - 1].0, calls[|calls| - 1].1)
  }

  /** After any non-empty sequence of `instrument` calls, the logger reports to one bot at
      most, and only to the last one instrumented. */
  lemma InstrumentAllOneBot(handlers: seq<Handler>, calls: seq<(string, string)>)
    requires calls != []
    ensures OneBot(InstrumentAll(handlers, calls))
    ensures forall h: Handler :: h in InstrumentAll(handlers, calls) && h.StoreHandler? ==>
      h == StoreHandler(calls[|calls| - 1].0, calls[|calls| - 1].1)
  {
    InstrumentLeavesOneBot(InstrumentAll(handlers, calls[..|calls| - 1]), calls[|calls| - 1].0, calls[|calls| - 1].1);
  }

  /** `load_errors` on a bot's error list: a page counted back from the newest error;
      negative page parameters raise. */
  function LoadErrorsOf(errors: seq<BotError>, offset: int, count: int): (r: Throws<seq<BotError>>)
    ensures r.Raises? <==> offset < 0 || count < 0
    ensures offset >= 0 && count >= 1 ==> r == Returns(PyUtils.PageSlice(errors, offset, count))
  {
    var indices := PyUtils.PageParamsToRedisIndices(offset, count);
    if indices.Raises? then Raises(indices.message)
    else
      var page := RedisList.LRange(errors, indices.value.0, indices.value.1);
      if count >= 1 then
        PyUtils.PageIndicesReadPage(errors, offset, count);
        Returns(page)
      else Returns(page)
  }

  /** As written, a page of zero errors at offset 0 returns every error. */
  lemma EmptyErrorPageReadsAll(errors: seq<BotError>)
    ensures LoadErrorsOf(errors, 0, 0) == Returns(errors)
  {
    assert PyUtils.PageParamsToRedisIndices(0, 0) == Returns((0, -1));
    RedisList.LRangeAll(errors);
  }

  /** What `process_error` hands to the error callback. */
  datatype BotErrorContext = BotErrorContext(ownerId: string, botId: string, alertChatId: ChatId, error: BotError)

  class ErrorsStore {
    /** Owner and bot key to the bot's errors, oldest first. */
    var errors: map<string, seq<BotError>>
    /** Owner and bot key to the chat alerted of new errors. */
    var alertChats: map<string, ChatId>
    /** Whether an error callback is registered. */
    var hasCallback: bool

    constructor ()
      ensures errors == map[] && alertChats == map[] && !hasCallback
    {
      errors := map[];
      alertChats := map[];
      hasCallback := false;
    }

    function ErrorsOf(key: string): seq<BotError>
      reads this
    {
      if key in errors then errors[key] else []
    }

    /** `load_errors`. */
    function LoadErrors(ownerId: string, botId: string, offset: int, count: int): (r: Throws<seq<BotError>>)
      reads this
      ensures r == LoadErrorsOf(ErrorsOf(ownerId + "/" + botId), offset, count)
    {
      LoadErrorsOf(ErrorsOf(ownerId + "/" + botId), offset, count)
    }

    /** `process_error`: pushes the error, then, when a callback is registered and the
        bot has an alert chat, calls the callback with it. `called` is the context the
        callback received, if it was called. Any failure (of the push, of loading the
        alert chat, or of the callback) ends the call with False, keeping what was done
        before it. */
    method ProcessError(ownerId: string, botId: string, error: BotError,
                        pushFails: bool, loadFails: bool, callbackFails: bool)
      returns (ok: bool, called: Option<BotErrorContext>)
      modifies this
      ensures pushFails ==> errors == old(errors)
      ensures !pushFails ==> errors == old(errors)[ownerId + "/" + botId := old(ErrorsOf(ownerId + "/" + botId)) + [error]]
      ensures alertChats == old(alertChats) && hasCallback == old(hasCallback)
      ensures called.Some? <==> !pushFails && hasCallback && !loadFails && ownerId + "/" + botId in alertChats
      ensures called.Some? ==> called.value == BotErrorContext(ownerId, botId, alertChats[ownerId + "/" + botId], error)
      ensures ok <==> !pushFails && !(hasCallback && (loadFails || (ownerId + "/" + botId in alertChats && callbackFails)))
    {
      called := None;
      var key := ownerId + "/" + botId;
      if pushFails {
        return false, None;
      }
      errors := errors[key := ErrorsOf(key) + [error]];
      if hasCallback {
        if loadFails {
          return false, None;
        }
        if key in alertChats {
          called := Some(BotErrorContext(ownerId, botId, alertChats[key], error));
          if callbackFails {
            return false, called;
          }
        }
      }
      ok := true;
    }
  }
}
