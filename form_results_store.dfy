/** The store of submitted form results (telebot_constructor/store/form_results.py). The
    Redis-backed lists and hashes are the fields of the `Store` class; the
    store's write replies are parameters, since what the underlying store returns is not
    part of this model. */
module FormResultsStore {
  import opened Base
  import opened Strings
  import RedisList
  import PyUtils

  /** One submitted form: field id to the field's value, as stored. */
  type FormResult = map<string, string>

  /** `GlobalFormId`: a form block of a bot of a user. */
  datatype GlobalFormId = GlobalFormId(username: string, botId: string, formBlockId: string)

  /** `_composite_key`: the three parts joined with slashes. */
  function CompositeKey(formId: GlobalFormId): (r: string)
    ensures r == formId.username + "/" + formId.botId + "/" + formId.formBlockId
  {
    var parts := [formId.username, formId.botId, formId.formBlockId];
    assert parts[1..] == [formId.botId, formId.formBlockId] && parts[1..][1..] == [formId.formBlockId];
    assert Join(parts[1..], "/") == formId.botId + "/" + formId.formBlockId;
    assert Join(parts, "/") == formId.username + "/" + (formId.botId + "/" + formId.formBlockId);
    Join(parts, "/")
  }

  predicate NoSlash(formId: GlobalFormId)
  {
    '/' !in formId.username && '/' !in formId.botId && '/' !in formId.formBlockId
  }

  /** Splitting a key at the slashes gives the three parts back when none holds a slash. */
  lemma CompositeKeyParts(formId: GlobalFormId)
    requires NoSlash(formId)
    ensures Split(CompositeKey(formId), '/') == [formId.username, formId.botId, formId.formBlockId]
  {
    SplitJoin([formId.username, formId.botId, formId.formBlockId], '/');
  }

  /** Forms whose ids hold no slash never share a key. */
  lemma CompositeKeyInjective(a: GlobalFormId, b: GlobalFormId)
    requires NoSlash(a) && NoSlash(b)
    requires CompositeKey(a) == CompositeKey(b)
    ensures a == b
  {
    CompositeKeyParts(a);
    CompositeKeyParts(b);
  }

  /** `load_page` on a list of results: the Redis range ending `offset` entries before
      the end and holding `count` entries. */
  function ReadPage(xs: seq<FormResult>, offset: int, count: int): (r: seq<FormResult>)
    ensures |r| <= |xs|
  {
    var end := -1 - offset;
    var start := end - (count - 1);
    RedisList.LRange(xs, start, end)
  }

  /** A page of at least one result is the `count` results ending `offset` results before
      the newest one. */
  lemma ReadPageIsPage(xs: seq<FormResult>, offset: nat, count: nat)
    requires count >= 1
    ensures ReadPage(xs, offset, count) == PyUtils.PageSlice(xs, offset, count)
  {
    PyUtils.PageIndicesReadPage(xs, offset, count);
  }

  /** The newest results come last on a page: a first page of two is the two newest
      results, oldest first. */
  lemma ReadPageNewestTwo(xs: seq<FormResult>)
    requires |xs| >= 2
    ensures ReadPage(xs, 0, 2) == [xs[|xs| - 2], xs[|xs| - 1]]
  {
    ReadPageIsPage(xs, 0, 2);
  }

  /** As written, asking for an empty first page gives the range 0 .. -1, which reads every
      result. */
  lemma EmptyFirstPageReadsAll(xs: seq<FormResult>)
    ensures ReadPage(xs, 0, 0) == xs
  {
  }

  class Store {
    /** The results of each form, oldest first. */
    var results: map<string, seq<FormResult>>
    /** The display names of each form's fields. */
    var fieldNames: map<string, map<string, string>>
    var titles: map<string, string>
    var prompts: map<string, string>

    constructor ()
      ensures results == map[] && fieldNames == map[] && titles == map[] && prompts == map[]
    {
      results := map[];
      fieldNames := map[];
      titles := map[];
      prompts := map[];
    }

    /** The results stored under a key; a missing list is empty. */
    function ResultsOf(key: string): seq<FormResult>
      reads this
    {
      if key in results then results[key] else []
    }

    /** `save`: appends the result; succeeds when the push replies 1. */
    method Save(formId: GlobalFormId, result: FormResult, pushReply: int) returns (ok: bool)
      modifies this
      ensures results == old(results)[CompositeKey(formId) := old(ResultsOf(CompositeKey(formId))) + [result]]
      ensures fieldNames == old(fieldNames) && titles == old(titles) && prompts == old(prompts)
      ensures ok <==> pushReply == 1
    {
      var key := CompositeKey(formId);
      results := results[key := ResultsOf(key) + [result]];
      ok := pushReply == 1;
    }

    /** `save_field_names`: sets each given subkey of the form's hash, keeping the others. */
    method SaveFieldNames(formId: GlobalFormId, idToNames: map<string, string>, reply: bool) returns (ok: bool)
      modifies this
      ensures CompositeKey(formId) in fieldNames
      ensures fieldNames[CompositeKey(formId)] ==
        (if CompositeKey(formId) in old(fieldNames) then old(fieldNames)[CompositeKey(formId)] else map[]) + idToNames
      ensures forall k :: k in old(fieldNames) && k != CompositeKey(formId) ==> k in fieldNames && fieldNames[k] == old(fieldNames)[k]
      ensures fieldNames.Keys == old(fieldNames).Keys + {CompositeKey(formId)}
      ensures results == old(results) && titles == old(titles) && prompts == old(prompts)
      ensures ok == reply
    {
      var key := CompositeKey(formId);
      var existing := if key in fieldNames then fieldNames[key] else map[];
      fieldNames := fieldNames[key := existing + idToNames];
      ok := reply;
    }

    /** `save_form_title`. */
    method SaveFormTitle(formId: GlobalFormId, title: string, reply: bool) returns (ok: bool)
      modifies this
      ensures titles == old(titles)[CompositeKey(formId) := title]
      ensures results == old(results) && fieldNames == old(fieldNames) && prompts == old(prompts)
      ensures ok == reply
    {
      titles := titles[CompositeKey(formId) := title];
      ok := reply;
    }

    /** `save_form_prompt`. */
    method SaveFormPrompt(formId: GlobalFormId, prompt: string, reply: bool) returns (ok: bool)
      modifies this
      ensures prompts == old(prompts)[CompositeKey(formId) := prompt]
      ensures results == old(results) && fieldNames == old(fieldNames) && titles == old(titles)
      ensures ok == reply
    {
      prompts := prompts[CompositeKey(formId) := prompt];
      ok := reply;
    }

    /** `load_page`: a page of the form's results, counted back from the newest. */
    function LoadPage(formId: GlobalFormId, offset: int, count: int): (r: seq<FormResult>)
      reads this
      ensures offset >= 0 && count >= 1 ==> r == PyUtils.PageSlice(ResultsOf(CompositeKey(formId)), offset, count)
    {
      var xs := ResultsOf(CompositeKey(formId));
      if offset >= 0 && count >= 1 then
        ReadPageIsPage(xs, offset, count);
        ReadPage(xs, offset, count)
      else ReadPage(xs, offset, count)
    }

    /** `load_all`: reads the form's results forward in windows of 100 until a window
      comes back empty; the result is every stored result, in order. */
    method LoadAll(formId: GlobalFormId) returns (res: seq<FormResult>)
      ensures res == ResultsOf(CompositeKey(formId))
    {
      var xs := ResultsOf(CompositeKey(formId));
      res := [];
      var start := 0;
      var pageSize := 100;
      while true
        invariant 0 <= start <= |xs|
        invariant res == xs[..start]
        decreases |xs| - start
      {
        var page := RedisList.LRange(xs, start, start + pageSize - 1);
        RedisList.LRangeWindow(xs, start, pageSize);
        if page == [] {
          break;
        }
        res := res + page;
        start := start + |page|;
      }
      assert xs[..|xs|] == xs;
    }
  }

  /** `BotSpecificFormResultsStore.save_form_result`: saves the result, the field names and
      the prompt, in that order and all three whatever the earlier ones reply, and reports
      whether all three succeeded. The title is not saved. */
  method SaveFormResult(store: Store, username: string, botId: string, formBlockId: string, formResult: FormResult,
                        fieldNames: map<string, string>, prompt: string,
                        pushReply: int, fieldNamesReply: bool, promptReply: bool)
    returns (ok: bool)
    modifies store
    ensures store.results == old(store.results)[CompositeKey(GlobalFormId(username, botId, formBlockId)) :=
      old(store.ResultsOf(CompositeKey(GlobalFormId(username, botId, formBlockId)))) + [formResult]]
    ensures var key := CompositeKey(GlobalFormId(username, botId, formBlockId));
      key in store.fieldNames && store.fieldNames[key] == (if key in old(store.fieldNames) then old(store.fieldNames)[key] else map[]) + fieldNames
    ensures store.prompts == old(store.prompts)[CompositeKey(GlobalFormId(username, botId, formBlockId)) := prompt]
    ensures store.titles == old(store.titles)
    ensures ok <==> pushReply == 1 && fieldNamesReply && promptReply
  {
    var formId := GlobalFormId(username, botId, formBlockId);
    var saved := store.Save(formId, formResult, pushReply);
    var namesSaved := store.SaveFieldNames(formId, fieldNames, fieldNamesReply);
    var promptSaved := store.SaveFormPrompt(formId, prompt, promptReply);
    ok := saved && namesSaved && promptSaved;
  }

  /** A saved result is the newest one: the first page of one result is exactly it. */
  lemma SavedResultIsNewest(before: seq<FormResult>, result: FormResult)
    ensures ReadPage(before + [result], 0, 1) == [result]
  {
    ReadPageIsPage(before + [result], 0, 1);
  }
}
